/** Granting and revoking modeset permission (kernel-open/nvidia-drm/nvidia-drm-drv.c and
    nvidia-drm-connector.c): an exclusive pairing of connectors with CRTCs. Every operation runs under
    the mode-config locks, so operations do not overlap. */
module ModesetPermission {
  import opened Options

  type File = nat

  /** What detection found on a connector: the display, the CRTC its encoder drives, and the CRTCs the
      encoder can drive (by index). */
  datatype Display = Display(dpyId: nat, encoderCrtc: Option<nat>, possible: set<nat>)

  /** `file` and `crtc` are the permission fields; `stateCrtc` is the CRTC of the atomic state. */
  datatype Connector = Connector(id: nat, file: Option<File>, crtc: Option<nat>,
                                 display: Option<Display>, stateCrtc: Option<nat>)

  datatype Crtc = Crtc(id: nat, head: nat, file: Option<File>)

  datatype Device = Device(connectors: seq<Connector>, crtcs: seq<Crtc>)

  // ----- the invariant -----

  ghost predicate ConnectorOk(d: Device, c: nat)
    requires c < |d.connectors|
  {
    && (d.connectors[c].file.Some? <==> d.connectors[c].crtc.Some?)
    && (d.connectors[c].crtc.Some? ==>
          d.connectors[c].crtc.value < |d.crtcs| && d.crtcs[d.connectors[c].crtc.value].file == d.connectors[c].file)
  }

  ghost predicate Paired(d: Device, c: nat, k: nat) {
    c < |d.connectors| && d.connectors[c].crtc == Some(k)
  }

  /** Granted connectors and granted CRTCs form pairs that belong to one file; no CRTC is in two
      pairs, and no CRTC is granted outside a pair. */
  ghost predicate Matched(d: Device) {
    && (forall c :: 0 <= c < |d.connectors| ==> ConnectorOk(d, c))
    && (forall b: nat, c: nat, k: nat :: Paired(d, b, k) && Paired(d, c, k) ==> b == c)
    && (forall k :: 0 <= k < |d.crtcs| && d.crtcs[k].file.Some? ==> exists c: nat :: Paired(d, c, k))
  }

  ghost predicate DistinctHeads(crtcs: seq<Crtc>) {
    forall i, j :: 0 <= i < j < |crtcs| ==> crtcs[i].head != crtcs[j].head
  }

  // ----- revoking -----

  function ClearConnector(c: Connector): Connector {
    c.(file := None, crtc := None)
  }

  ghost predicate Uses(d: Device, cs: set<nat>, k: nat) {
    exists c :: c in cs && Paired(d, c, k)
  }

  /** The connectors in `cs` lose their permission, and with them their CRTCs; so do the CRTCs in `ks`. */
  ghost function Revoke(d: Device, cs: set<nat>, ks: set<nat>): (r: Device)
    ensures |r.connectors| == |d.connectors| && |r.crtcs| == |d.crtcs|
    ensures forall c :: 0 <= c < |d.connectors| ==>
      r.connectors[c] == if c in cs then ClearConnector(d.connectors[c]) else d.connectors[c]
    ensures forall k :: 0 <= k < |d.crtcs| ==>
      r.crtcs[k] == if k in ks || Uses(d, cs, k) then d.crtcs[k].(file := None) else d.crtcs[k]
  {
    Device(
      seq(|d.connectors|, c requires 0 <= c < |d.connectors| =>
        if c in cs then ClearConnector(d.connectors[c]) else d.connectors[c]),
      seq(|d.crtcs|, k requires 0 <= k < |d.crtcs| =>
        if k in ks || Uses(d, cs, k) then d.crtcs[k].(file := None) else d.crtcs[k]))
  }

  /** Revoking keeps the pairing if and only if no CRTC is revoked without the connector it is paired
      with. */
  lemma RevokeKeepsMatchedIff(d: Device, cs: set<nat>, ks: set<nat>)
    requires Matched(d)
    ensures Matched(Revoke(d, cs, ks)) <==> forall c: nat, k: nat :: Paired(d, c, k) && k in ks ==> c in cs
  {
    var r := Revoke(d, cs, ks);
    if forall c: nat, k: nat :: Paired(d, c, k) && k in ks ==> c in cs {
      forall c | 0 <= c < |r.connectors| ensures ConnectorOk(r, c) {
        assert ConnectorOk(d, c);
        if c !in cs && d.connectors[c].crtc.Some? {
          assert Paired(d, c, d.connectors[c].crtc.value);
        }
      }
      forall b: nat, c: nat, k: nat | Paired(r, b, k) && Paired(r, c, k) ensures b == c {
        assert Paired(d, b, k) && Paired(d, c, k);
      }
      forall k | 0 <= k < |r.crtcs| && r.crtcs[k].file.Some? ensures exists c: nat :: Paired(r, c, k) {
        var c :| Paired(d, c, k);
        assert Paired(r, c, k);
      }
    } else {
      var c, k :| Paired(d, c, k) && k in ks && c !in cs;
      assert ConnectorOk(d, c);
      assert !ConnectorOk(r, c);
    }
  }

  lemma RevokeOneMore(d: Device, cs: set<nat>, c: nat)
    requires c < |d.connectors| && ConnectorOk(d, c) && c !in cs
    ensures Revoke(d, cs + {c}, {}) ==
      var r := Revoke(d, cs, {});
      Device(r.connectors[c := ClearConnector(r.connectors[c])],
             if d.connectors[c].crtc.Some? then
               var k := d.connectors[c].crtc.value;
               r.crtcs[k := r.crtcs[k].(file := None)]
             else r.crtcs)
  {
  }

  // ----- which connectors and CRTCs each operation revokes -----

  predicate IsDpy(c: Connector, dpyId: nat) {
    c.display.Some? && c.display.value.dpyId == dpyId
  }

  /** `dpyId` is 0 when the file is being closed. */
  predicate FileOwns(c: Connector, file: File, dpyId: nat) {
    c.file == Some(file) && (dpyId == 0 || IsDpy(c, dpyId))
  }

  function FileConnectors(d: Device, file: File, dpyId: nat, upTo: nat): set<nat> {
    set c: nat | c < upTo && c < |d.connectors| && FileOwns(d.connectors[c], file, dpyId)
  }

  function FileCrtcs(d: Device, file: File, upTo: nat): set<nat> {
    set k: nat | k < upTo && k < |d.crtcs| && d.crtcs[k].file == Some(file)
  }

  function LeasedConnectors(d: Device, objects: set<nat>, upTo: nat): set<nat> {
    set c: nat | c < upTo && c < |d.connectors| && d.connectors[c].file.Some? && d.connectors[c].id in objects
  }

  function LeasedCrtcs(d: Device, objects: set<nat>, upTo: nat): set<nat> {
    set k: nat | k < upTo && k < |d.crtcs| && d.crtcs[k].file.Some? && d.crtcs[k].id in objects
  }

  /** The condition under which revoking a lease keeps the pairing: for every granted CRTC in the
      lease, the connector it is paired with is in the lease too. */
  ghost predicate LeaseIsPaired(d: Device, objects: set<nat>) {
    forall c: nat, k: nat :: Paired(d, c, k) && k < |d.crtcs| && d.crtcs[k].id in objects ==> d.connectors[c].id in objects
  }

  lemma LeaseCondition(d: Device, objects: set<nat>, c: nat, k: nat)
    requires Matched(d) && Paired(d, c, k)
    ensures k < |d.crtcs|
    ensures k in LeasedCrtcs(d, objects, |d.crtcs|) <==> d.crtcs[k].id in objects
    ensures c in LeasedConnectors(d, objects, |d.connectors|) <==> d.connectors[c].id in objects
  {
    assert ConnectorOk(d, c);
  }

  lemma LeaseRevokeKeepsMatchedIff(d: Device, objects: set<nat>)
    requires Matched(d)
    ensures Matched(AfterLease(d, objects)) <==> LeaseIsPaired(d, objects)
  {
    var cs, ks := LeasedConnectors(d, objects, |d.connectors|), LeasedCrtcs(d, objects, |d.crtcs|);
    RevokeKeepsMatchedIff(d, cs, ks);
    if LeaseIsPaired(d, objects) {
      forall c: nat, k: nat | Paired(d, c, k) && k in ks ensures c in cs {
        LeaseCondition(d, objects, c, k);
      }
    } else {
      var c: nat, k: nat :| Paired(d, c, k) && k < |d.crtcs| && d.crtcs[k].id in objects && d.connectors[c].id !in objects;
      LeaseCondition(d, objects, c, k);
    }
  }

  /** Closing a file leaves nothing owned by it and keeps the pairing. */
  lemma CloseRevokesAll(d: Device, file: File)
    requires Matched(d)
    ensures var r := Revoke(d, FileConnectors(d, file, 0, |d.connectors|), FileCrtcs(d, file, |d.crtcs|));
      && Matched(r)
      && (forall c :: 0 <= c < |r.connectors| ==> r.connectors[c].file != Some(file))
      && (forall k :: 0 <= k < |r.crtcs| ==> r.crtcs[k].file != Some(file))
  {
    var cs, ks := FileConnectors(d, file, 0, |d.connectors|), FileCrtcs(d, file, |d.crtcs|);
    forall c: nat, k: nat | Paired(d, c, k) && k in ks ensures c in cs {
      assert ConnectorOk(d, c);
    }
    RevokeKeepsMatchedIff(d, cs, ks);
  }

  // ----- granting -----

  /** `nv_drm_get_head_bit_from_connector`: the head the connector uses, as a set of at most one head. */
  function HeadInUse(d: Device, c: Connector): set<nat> {
    if c.stateCrtc.Some? && c.stateCrtc.value < |d.crtcs| then {d.crtcs[c.stateCrtc.value].head}
    else if c.stateCrtc == None && c.display.Some? && c.display.value.encoderCrtc.Some?
            && c.display.value.encoderCrtc.value < |d.crtcs|
      then {d.crtcs[c.display.value.encoderCrtc.value].head}
    else {}
  }

  /** The CRTC may be given to a file that can use the objects `usable` and a display that can be driven
      from `possible`. */
  predicate Available(d: Device, k: nat, usable: set<nat>, possible: set<nat>) {
    k < |d.crtcs| && d.crtcs[k].id in usable && d.crtcs[k].file == None && k in possible
  }

  datatype GrantResult = Granted(connector: nat, crtc: nat) | Refused

  function AfterGrant(d: Device, r: GrantResult, file: File): Device
    requires r.Granted? ==> r.connector < |d.connectors| && r.crtc < |d.crtcs|
  {
    match r
    case Refused => d
    case Granted(c, k) =>
      Device(d.connectors[c := d.connectors[c].(file := Some(file), crtc := Some(k))],
             d.crtcs[k := d.crtcs[k].(file := Some(file))])
  }

  lemma GrantKeepsMatched(d: Device, c: nat, k: nat, file: File)
    requires Matched(d) && c < |d.connectors| && k < |d.crtcs|
    requires d.connectors[c].file == None && d.crtcs[k].file == None
    ensures Matched(AfterGrant(d, Granted(c, k), file))
  {
    var r := AfterGrant(d, Granted(c, k), file);
    assert ConnectorOk(d, c);
    forall b | 0 <= b < |r.connectors| ensures ConnectorOk(r, b) {
      assert ConnectorOk(d, b);
    }
    forall a, b, j | Paired(r, a, j) && Paired(r, b, j) ensures a == b {
      assert ConnectorOk(d, a) && ConnectorOk(d, b);
      if a != c && b != c {
        assert Paired(d, a, j) && Paired(d, b, j);
      }
    }
    forall j | 0 <= j < |r.crtcs| && r.crtcs[j].file.Some? ensures exists b :: Paired(r, b, j) {
      if j == k {
        assert Paired(r, c, k);
      } else {
        var b :| Paired(d, b, j);
        assert ConnectorOk(d, b);
        assert Paired(r, b, j);
      }
    }
  }

  /** Some available CRTC has the head that the connector already uses. */
  ghost predicate OwnHeadFree(d: Device, c: nat, usable: set<nat>, possible: set<nat>)
    requires c < |d.connectors|
  {
    exists k: nat :: Available(d, k, usable, possible) && d.crtcs[k].head in HeadInUse(d, d.connectors[c])
  }

  /** The CRTC can go with the connector: it is available, and its head is the one the connector
      already uses, or one that no connector uses if that one is not free. */
  ghost predicate Candidate(d: Device, c: nat, k: nat, usable: set<nat>, possible: set<nat>)
    requires c < |d.connectors|
  {
    && Available(d, k, usable, possible)
    && (if OwnHeadFree(d, c, usable, possible) then d.crtcs[k].head in HeadInUse(d, d.connectors[c])
        else forall b :: 0 <= b < |d.connectors| ==> d.crtcs[k].head !in HeadInUse(d, d.connectors[b]))
  }

  ghost predicate FirstCandidate(d: Device, c: nat, k: nat, usable: set<nat>, possible: set<nat>)
    requires c < |d.connectors|
  {
    Candidate(d, c, k, usable, possible) && forall j: nat :: j < k ==> !Candidate(d, c, j, usable, possible)
  }

  /** Connector `c` is the one that shows display `dpyId`, and the file may be given it. */
  ghost predicate IsTarget(d: Device, c: nat, dpyId: nat, usable: set<nat>) {
    && c < |d.connectors|
    && IsDpy(d.connectors[c], dpyId) && (forall b :: 0 <= b < c ==> !IsDpy(d.connectors[b], dpyId))
    && d.connectors[c].id in usable
    && d.connectors[c].file == None
  }

  /** A grant for display `dpyId` goes to connector `c` and CRTC `k`. */
  ghost predicate Wins(d: Device, dpyId: nat, usable: set<nat>, c: nat, k: nat) {
    IsTarget(d, c, dpyId, usable) && FirstCandidate(d, c, k, usable, d.connectors[c].display.value.possible)
  }

  lemma WinnerIsUnique(d: Device, dpyId: nat, usable: set<nat>, c: nat, k: nat, c': nat, k': nat)
    requires Wins(d, dpyId, usable, c, k) && Wins(d, dpyId, usable, c', k')
    ensures c == c' && k == k'
  {
  }

  // ----- what each operation does -----

  /** How far the loop over the connectors gets: to the first connector of the file that cannot be
      disabled, or to the end. */
  function StopsAt(d: Device, file: File, dpyId: nat, cannotDisable: set<nat>, i: nat): (r: nat)
    requires i <= |d.connectors|
    ensures i <= r <= |d.connectors|
    decreases |d.connectors| - i
  {
    if i == |d.connectors| || (FileOwns(d.connectors[i], file, dpyId) && i in cannotDisable) then i
    else StopsAt(d, file, dpyId, cannotDisable, i + 1)
  }

  ghost function AfterRevoke(d: Device, file: File, dpyId: nat, cannotDisable: set<nat>): Device {
    var n := StopsAt(d, file, dpyId, cannotDisable, 0);
    Revoke(d, FileConnectors(d, file, dpyId, n),
           if n == |d.connectors| && dpyId == 0 then FileCrtcs(d, file, |d.crtcs|) else {})
  }

  ghost function AfterLease(d: Device, objects: set<nat>): Device {
    Revoke(d, LeasedConnectors(d, objects, |d.connectors|), LeasedCrtcs(d, objects, |d.crtcs|))
  }

  /** The operations of the driver. `usable` are the objects a file may use, `kmsAgrees` the answer of
      NVKMS, and `cannotDisable` the connectors whose atomic state cannot be prepared. Displays also
      come and go, and atomic commits route connectors to CRTCs. */
  datatype Op =
    | GrantOp(file: File, dpyId: nat, usable: set<nat>, kmsAgrees: bool)
    | RevokeOp(file: File, dpyId: nat, cannotDisable: set<nat>)
    | CloseOp(file: File, cannotDisable: set<nat>)
    | DisconnectOp(c: nat)
    | LeaseOp(objects: set<nat>)
    | Reconfigure(c: nat, display: Option<Display>, stateCrtc: Option<nat>)

  ghost function Apply(d: Device, op: Op): Device {
    match op
    case GrantOp(file, dpyId, usable, kmsAgrees) =>
      if kmsAgrees && exists c: nat, k: nat :: Wins(d, dpyId, usable, c, k) then
        var c: nat, k: nat :| Wins(d, dpyId, usable, c, k);
        AfterGrant(d, Granted(c, k), file)
      else d
    case RevokeOp(file, dpyId, cannotDisable) => AfterRevoke(d, file, dpyId, cannotDisable)
    case CloseOp(file, cannotDisable) => AfterRevoke(d, file, 0, cannotDisable)
    case DisconnectOp(c) => if c < |d.connectors| && d.connectors[c].file.Some? then Revoke(d, {c}, {}) else d
    case LeaseOp(objects) => AfterLease(d, objects)
    case Reconfigure(c, display, stateCrtc) =>
      if c < |d.connectors| then
        d.(connectors := d.connectors[c := d.connectors[c].(display := display, stateCrtc := stateCrtc)])
      else d
  }

  // ----- the object itself -----

  class NvDrmDevice {
    var connectors: seq<Connector>
    var crtcs: seq<Crtc>

    ghost function View(): Device
      reads this
    {
      Device(connectors, crtcs)
    }

    ghost predicate Valid()
      reads this
    {
      Matched(View()) && DistinctHeads(crtcs)
    }

    constructor (connectors: seq<Connector>, crtcs: seq<Crtc>)
      requires Ungranted(Device(connectors, crtcs))
      ensures Valid() && View() == Device(connectors, crtcs)
    {
      this.connectors, this.crtcs := connectors, crtcs;
    }

    method FindDisplay(dpyId: nat) returns (c: Option<nat>)
      ensures c == None ==> forall b :: 0 <= b < |connectors| ==> !IsDpy(connectors[b], dpyId)
      ensures c.Some? ==> c.value < |connectors| && IsDpy(connectors[c.value], dpyId)
      ensures c.Some? ==> forall b :: 0 <= b < c.value ==> !IsDpy(connectors[b], dpyId)
    {
      for i := 0 to |connectors|
        invariant forall b :: 0 <= b < i ==> !IsDpy(connectors[b], dpyId)
      {
        if IsDpy(connectors[i], dpyId) {
          return Some(i);
        }
      }
      return None;
    }

    /** The bit mask of heads, as a set, that the first loop over the CRTCs collects. */
    method FreeHeads(usable: set<nat>, possible: set<nat>) returns (heads: set<nat>)
      ensures forall h :: h in heads <==> exists k: nat :: Available(View(), k, usable, possible) && crtcs[k].head == h
    {
      heads := {};
      for i := 0 to |crtcs|
        invariant forall h :: h in heads <==>
          exists k: nat :: k < i && Available(View(), k, usable, possible) && crtcs[k].head == h
      {
        ghost var before := heads;
        if crtcs[i].id in usable && crtcs[i].file == None && i in possible {
          heads := heads + {crtcs[i].head};
          assert Available(View(), i, usable, possible);
        }
        forall h ensures h in heads <==> exists k: nat :: k < i + 1 && Available(View(), k, usable, possible) && crtcs[k].head == h {
          if h in before {
            var k: nat :| k < i && Available(View(), k, usable, possible) && crtcs[k].head == h;
            assert k < i + 1;
          }
        }
      }
    }

    method WithoutUsed(heads: set<nat>) returns (left: set<nat>)
      ensures forall h :: h in left <==> h in heads && forall b :: 0 <= b < |connectors| ==> h !in HeadInUse(View(), connectors[b])
    {
      left := heads;
      for i := 0 to |connectors|
        invariant forall h :: h in left <==> h in heads && forall b :: 0 <= b < i ==> h !in HeadInUse(View(), connectors[b])
      {
        left := left - HeadInUse(Device(connectors, crtcs), connectors[i]);
      }
    }

    /** The second loop over the CRTCs; it always finds one. */
    method FirstWithHead(heads: set<nat>) returns (k: nat)
      requires exists j :: 0 <= j < |crtcs| && crtcs[j].head in heads
      ensures k < |crtcs| && crtcs[k].head in heads && forall j :: 0 <= j < k ==> crtcs[j].head !in heads
    {
      k := 0;
      while k < |crtcs| && crtcs[k].head !in heads
        invariant k <= |crtcs|
        invariant forall j :: 0 <= j < k ==> crtcs[j].head !in heads
      {
        k := k + 1;
      }
    }

    /** The search of `nv_drm_grant_modeset_permission`, with head bit masks as sets of heads: keep the
        head the connector uses if it is free, else drop the heads that any connector uses. Whenever a
        head is left, a CRTC is found. */
    method ChooseCrtc(c: nat, usable: set<nat>, possible: set<nat>) returns (k: Option<nat>)
      requires c < |connectors| && DistinctHeads(crtcs)
      ensures k.Some? ==> FirstCandidate(View(), c, k.value, usable, possible)
      ensures k == None ==> forall j: nat :: !Candidate(View(), c, j, usable, possible)
    {
      var free := FreeHeads(usable, possible);
      var own := HeadInUse(Device(connectors, crtcs), connectors[c]);
      var heads := own;
      if own * free == {} {
        heads := WithoutUsed(free);
      }
      CandidateHeads(View(), c, usable, possible, free, heads);
      if heads == {} {
        return None;
      }
      var first := FirstWithHead(heads);
      return Some(first);
    }

    /** `nv_drm_grant_modeset_permission`. `usable` are the objects the file may use; `kmsAgrees` is the
        answer of NVKMS. A grant is made exactly when the display has a connector the file may be given
        and some CRTC can go with it; the CRTC found is never NULL and never one already granted. */
    method Grant(file: File, dpyId: nat, usable: set<nat>, kmsAgrees: bool) returns (r: GrantResult)
      requires Valid()
      modifies this
      ensures r.Granted? <==> kmsAgrees && exists c: nat, k: nat :: Wins(old(View()), dpyId, usable, c, k)
      ensures r.Granted? ==> Wins(old(View()), dpyId, usable, r.connector, r.crtc)
      ensures View() == Apply(old(View()), GrantOp(file, dpyId, usable, kmsAgrees)) && Valid()
    {
      var target := FindDisplay(dpyId);
      if target == None || connectors[target.value].id !in usable || connectors[target.value].file.Some? {
        return Refused;
      }
      var c := target.value;
      var k := ChooseCrtc(c, usable, connectors[c].display.value.possible);
      if k == None || !kmsAgrees {
        return Refused;
      }
      GrantKeepsMatched(View(), c, k.value, file);
      GrantWinner(View(), file, dpyId, usable, c, k.value);
      connectors := connectors[c := connectors[c].(file := Some(file), crtc := Some(k.value))];
      crtcs := crtcs[k.value := crtcs[k.value].(file := Some(file))];
      r := Granted(c, k.value);
    }

    /** `nv_drm_connector_revoke_permissions`. */
    method RevokeConnector(c: nat)
      requires c < |connectors| && ConnectorOk(View(), c)
      modifies this
      ensures View() == Revoke(old(View()), {c}, {})
      ensures c < |connectors| && connectors == old(connectors)[c := ClearConnector(old(connectors)[c])]
      ensures crtcs == match old(connectors)[c].crtc
                       case Some(k) => old(crtcs)[k := old(crtcs)[k].(file := None)]
                       case None => old(crtcs)
    {
      RevokeNothing(View());
      RevokeOneMore(View(), {}, c);
      assert {} + {c} == {c};
      if connectors[c].crtc.Some? {
        var k := connectors[c].crtc.value;
        crtcs := crtcs[k := crtcs[k].(file := None)];
      }
      connectors := connectors[c := ClearConnector(connectors[c])];
    }

    /** One connector more: the connectors in `cs` have been revoked so far. */
    method RevokeNext(c: nat, ghost d: Device, ghost cs: set<nat>)
      requires Matched(d) && View() == Revoke(d, cs, {}) && c < |d.connectors| && c !in cs
      modifies this
      ensures View() == Revoke(d, cs + {c}, {})
    {
      RevokeStays(d, cs, c);
      assert ConnectorOk(d, c);
      RevokeOneMore(d, cs, c);
      RevokeConnector(c);
    }

    /** The end of `__nv_drm_connector_detect_internal` for a connector found disconnected. */
    method Disconnect(c: nat)
      requires Valid() && c < |connectors|
      modifies this
      ensures Valid() && View() == Apply(old(View()), DisconnectOp(c))
    {
      if connectors[c].file.Some? {
        RevokeKeepsMatchedIff(View(), {c}, {});
        RevokeConnector(c);
        RevokeKeepsHeads(old(View()), {c}, {});
      }
    }

    /** The loop over the connectors of `nv_drm_revoke_modeset_permission`, which stops at the first
        connector that cannot be disabled; `upTo` is how far it got. */
    method RevokeFileConnectors(file: File, dpyId: nat, cannotDisable: set<nat>) returns (done: bool, ghost upTo: nat)
      requires Matched(View())
      modifies this
      ensures View() == Revoke(old(View()), FileConnectors(old(View()), file, dpyId, upTo), {})
      ensures upTo == StopsAt(old(View()), file, dpyId, cannotDisable, 0) && (done <==> upTo == |old(connectors)|)
    {
      ghost var d := View();
      RevokeNothing(d);
      ghost var cs: set<nat> := {};
      for i := 0 to |connectors|
        invariant cs == FileConnectors(d, file, dpyId, i) && View() == Revoke(d, cs, {})
        invariant StopsAt(d, file, dpyId, cannotDisable, i) == StopsAt(d, file, dpyId, cannotDisable, 0)
      {
        FileConnectorsNext(d, file, dpyId, i);
        assert connectors[i] == d.connectors[i];
        if FileOwns(connectors[i], file, dpyId) {
          if i in cannotDisable {
            return false, i;
          }
          RevokeNext(i, d, cs);
          cs := cs + {i};
        }
      }
      done, upTo := true, |connectors|;
    }

    /** `nv_drm_revoke_modeset_permission`. Preparing the atomic state fails for the connectors in
        `cannotDisable`; the operation then stops in the middle, with the pairing still sound. With
        `dpyId` 0 the file is closed: if nothing fails, it owns no connector and no CRTC afterwards. */
    method RevokeFile(file: File, dpyId: nat, cannotDisable: set<nat>) returns (done: bool)
      requires Valid()
      modifies this
      ensures Valid() && View() == Apply(old(View()), RevokeOp(file, dpyId, cannotDisable))
      ensures done <==> StopsAt(old(View()), file, dpyId, cannotDisable, 0) == |old(connectors)|
      ensures done && dpyId == 0 ==>
        && (forall c :: 0 <= c < |connectors| ==> connectors[c].file != Some(file))
        && (forall k :: 0 <= k < |crtcs| ==> crtcs[k].file != Some(file))
    {
      ghost var d := View();
      ghost var upTo;
      done, upTo := RevokeFileConnectors(file, dpyId, cannotDisable);
      ghost var cs := FileConnectors(d, file, dpyId, upTo);
      if done && dpyId == 0 {
        ghost var ks := FileCrtcs(d, file, |d.crtcs|);
        ClearFileCrtcs(file);
        RevokeThenClear(d, cs, ks, View());
        CloseRevokesAll(d, file);
        RevokeKeepsHeads(d, cs, ks);
      } else {
        RevokeKeepsMatchedIff(d, cs, {});
        RevokeKeepsHeads(d, cs, {});
      }
    }

    /** `nv_drm_finish_revoking_objects`. */
    method FinishRevoking(objects: set<nat>)
      requires Valid()
      modifies this
      ensures View() == AfterLease(old(View()), objects)
      ensures Valid() <==> LeaseIsPaired(old(View()), objects)
    {
      ghost var d := View();
      RevokeLeasedConnectors(objects);
      ghost var cs := LeasedConnectors(d, objects, |d.connectors|);
      ClearLeasedCrtcs(objects);
      ghost var ks := LeasedCrtcs(d, objects, |d.crtcs|);
      RevokeThenClear(d, cs, ks, View());
      LeaseRevokeKeepsMatchedIff(d, objects);
      RevokeKeepsHeads(d, cs, ks);
    }

    method ClearLeasedCrtcs(objects: set<nat>)
      modifies this`crtcs
      ensures |crtcs| == |old(crtcs)|
      ensures forall k :: 0 <= k < |crtcs| ==>
        crtcs[k] == if old(crtcs)[k].id in objects then old(crtcs)[k].(file := None) else old(crtcs)[k]
    {
      for i := 0 to |crtcs|
        invariant |crtcs| == |old(crtcs)|
        invariant forall k :: 0 <= k < |crtcs| ==>
          crtcs[k] == if k < i && old(crtcs)[k].id in objects then old(crtcs)[k].(file := None) else old(crtcs)[k]
      {
        if crtcs[i].file.Some? && crtcs[i].id in objects {
          crtcs := crtcs[i := crtcs[i].(file := None)];
        }
      }
    }

    method RevokeLeasedConnectors(objects: set<nat>)
      requires Matched(View())
      modifies this
      ensures View() == Revoke(old(View()), LeasedConnectors(old(View()), objects, |old(connectors)|), {})
    {
      ghost var d := View();
      RevokeNothing(d);
      ghost var cs: set<nat> := {};
      for i := 0 to |connectors|
        invariant cs == LeasedConnectors(d, objects, i) && View() == Revoke(d, cs, {})
      {
        LeasedConnectorsNext(d, objects, i);
        if connectors[i].file.Some? && connectors[i].id in objects {
          RevokeNext(i, d, cs);
          cs := cs + {i};
        }
      }
    }

    method ClearFileCrtcs(file: File)
      modifies this`crtcs
      ensures |crtcs| == |old(crtcs)|
      ensures forall k :: 0 <= k < |crtcs| ==>
        crtcs[k] == if old(crtcs)[k].file == Some(file) then old(crtcs)[k].(file := None) else old(crtcs)[k]
    {
      for i := 0 to |crtcs|
        invariant |crtcs| == |old(crtcs)|
        invariant forall k :: 0 <= k < |crtcs| ==>
          crtcs[k] == if k < i && old(crtcs)[k].file == Some(file) then old(crtcs)[k].(file := None) else old(crtcs)[k]
      {
        if crtcs[i].file == Some(file) {
          crtcs := crtcs[i := crtcs[i].(file := None)];
        }
      }
    }
  }

  lemma FileConnectorsNext(d: Device, file: File, dpyId: nat, i: nat)
    requires i < |d.connectors|
    ensures i !in FileConnectors(d, file, dpyId, i)
    ensures FileConnectors(d, file, dpyId, i + 1) ==
      FileConnectors(d, file, dpyId, i) + (if FileOwns(d.connectors[i], file, dpyId) then {i} else {})
  {
  }

  lemma LeasedConnectorsNext(d: Device, objects: set<nat>, i: nat)
    requires i < |d.connectors|
    ensures i !in LeasedConnectors(d, objects, i)
    ensures LeasedConnectors(d, objects, i + 1) == LeasedConnectors(d, objects, i)
      + (if d.connectors[i].file.Some? && d.connectors[i].id in objects then {i} else {})
  {
  }

  lemma RevokeNothing(d: Device)
    ensures Revoke(d, {}, {}) == d
  {
  }

  lemma RevokeKeepsHeads(d: Device, cs: set<nat>, ks: set<nat>)
    requires DistinctHeads(d.crtcs)
    ensures DistinctHeads(Revoke(d, cs, ks).crtcs)
  {
  }

  /** A connector that is not revoked keeps a sound pair while others are revoked. */
  lemma RevokeStays(d: Device, cs: set<nat>, c: nat)
    requires Matched(d) && c < |d.connectors| && c !in cs
    ensures ConnectorOk(Revoke(d, cs, {}), c)
  {
    RevokeKeepsMatchedIff(d, cs, {});
  }

  /** Clearing the CRTCs in `ks` after revoking `cs`, in either order. */
  lemma RevokeThenClear(d: Device, cs: set<nat>, ks: set<nat>, r: Device)
    requires |r.crtcs| == |d.crtcs| && r.connectors == Revoke(d, cs, {}).connectors
    requires forall k :: 0 <= k < |r.crtcs| ==>
      r.crtcs[k] == if k in ks || Uses(d, cs, k) then d.crtcs[k].(file := None) else d.crtcs[k]
    ensures r == Revoke(d, cs, ks)
  {
  }

  lemma GrantWinner(d: Device, file: File, dpyId: nat, usable: set<nat>, c: nat, k: nat)
    requires Wins(d, dpyId, usable, c, k)
    ensures Apply(d, GrantOp(file, dpyId, usable, true)) == AfterGrant(d, Granted(c, k), file)
  {
    var c': nat, k': nat :| Wins(d, dpyId, usable, c', k')
      && Apply(d, GrantOp(file, dpyId, usable, true)) == AfterGrant(d, Granted(c', k'), file);
    WinnerIsUnique(d, dpyId, usable, c, k, c', k');
  }

  /** The heads that the search ends with are exactly those of the candidates, since heads are distinct. */
  lemma CandidateHeads(d: Device, c: nat, usable: set<nat>, possible: set<nat>, free: set<nat>, heads: set<nat>)
    requires DistinctHeads(d.crtcs) && c < |d.connectors|
    requires forall h :: h in free <==> exists k: nat :: Available(d, k, usable, possible) && d.crtcs[k].head == h
    requires var own := HeadInUse(d, d.connectors[c]);
      if own * free == {} then
        forall h :: h in heads <==> h in free && forall b :: 0 <= b < |d.connectors| ==> h !in HeadInUse(d, d.connectors[b])
      else heads == own
    ensures forall k: nat :: k < |d.crtcs| ==> (d.crtcs[k].head in heads <==> Candidate(d, c, k, usable, possible))
    ensures heads != {} ==> exists k :: 0 <= k < |d.crtcs| && d.crtcs[k].head in heads
  {
    var own := HeadInUse(d, d.connectors[c]);
    assert OwnHeadFree(d, c, usable, possible) <==> own * free != {} by {
      if own * free != {} {
        var h :| h in own * free;
      }
    }
    forall k: nat | k < |d.crtcs|
      ensures d.crtcs[k].head in free <==> Available(d, k, usable, possible)
    {
      if d.crtcs[k].head in free {
        AvailableByHead(d, k, usable, possible);
      }
    }
    forall h | h in heads ensures h in free {
    }
  }

  /** Heads are distinct, so a CRTC whose head was collected was itself available. */
  lemma AvailableByHead(d: Device, k: nat, usable: set<nat>, possible: set<nat>)
    requires DistinctHeads(d.crtcs) && k < |d.crtcs|
    requires exists j: nat :: Available(d, j, usable, possible) && d.crtcs[j].head == d.crtcs[k].head
    ensures Available(d, k, usable, possible)
  {
  }

  // ----- runs -----

  ghost predicate Good(d: Device) {
    Matched(d) && DistinctHeads(d.crtcs)
  }

  /** The device before anything is granted. */
  ghost predicate Ungranted(d: Device) {
    && DistinctHeads(d.crtcs)
    && (forall c :: 0 <= c < |d.connectors| ==> d.connectors[c].file == None && d.connectors[c].crtc == None)
    && (forall k :: 0 <= k < |d.crtcs| ==> d.crtcs[k].file == None)
  }

  ghost function After(d: Device, ops: seq<Op>): Device {
    if ops == [] then d else Apply(After(d, ops[..|ops| - 1]), ops[|ops| - 1])
  }

  /** Every lease that is revoked holds the paired connector of each granted CRTC in it. */
  ghost predicate LeasesPaired(d: Device, ops: seq<Op>) {
    ops == [] ||
    var before, op := ops[..|ops| - 1], ops[|ops| - 1];
    LeasesPaired(d, before) && (op.LeaseOp? ==> LeaseIsPaired(After(d, before), op.objects))
  }

  lemma GrantKeepsGood(d: Device, op: Op)
    requires Good(d) && op.GrantOp?
    ensures Good(Apply(d, op))
  {
    if op.kmsAgrees && exists c: nat, k: nat :: Wins(d, op.dpyId, op.usable, c, k) {
      var c: nat, k: nat :| Wins(d, op.dpyId, op.usable, c, k);
      GrantWinner(d, op.file, op.dpyId, op.usable, c, k);
      GrantKeepsMatched(d, c, k, op.file);
    }
  }

  lemma RevokeKeepsGood(d: Device, file: File, dpyId: nat, cannotDisable: set<nat>)
    requires Good(d)
    ensures Good(AfterRevoke(d, file, dpyId, cannotDisable))
  {
    var n := StopsAt(d, file, dpyId, cannotDisable, 0);
    var cs := FileConnectors(d, file, dpyId, n);
    if n == |d.connectors| && dpyId == 0 {
      CloseRevokesAll(d, file);
      RevokeKeepsHeads(d, cs, FileCrtcs(d, file, |d.crtcs|));
    } else {
      RevokeKeepsMatchedIff(d, cs, {});
      RevokeKeepsHeads(d, cs, {});
    }
  }

  lemma ReconfigureKeepsGood(d: Device, c: nat, display: Option<Display>, stateCrtc: Option<nat>)
    requires Good(d)
    ensures Good(Apply(d, Reconfigure(c, display, stateCrtc)))
  {
    var r := Apply(d, Reconfigure(c, display, stateCrtc));
    forall b | 0 <= b < |r.connectors| ensures ConnectorOk(r, b) {
      assert ConnectorOk(d, b);
    }
    forall b: nat, k: nat ensures Paired(r, b, k) <==> Paired(d, b, k) {
    }
  }

  lemma StepKeepsGood(d: Device, op: Op)
    requires Good(d) && (op.LeaseOp? ==> LeaseIsPaired(d, op.objects))
    ensures Good(Apply(d, op))
  {
    match op
    case GrantOp(_, _, _, _) => GrantKeepsGood(d, op);
    case RevokeOp(file, dpyId, cannotDisable) => RevokeKeepsGood(d, file, dpyId, cannotDisable);
    case CloseOp(file, cannotDisable) => RevokeKeepsGood(d, file, 0, cannotDisable);
    case DisconnectOp(c) =>
      RevokeKeepsMatchedIff(d, {c}, {});
      RevokeKeepsHeads(d, {c}, {});
    case LeaseOp(objects) =>
      LeaseRevokeKeepsMatchedIff(d, objects);
      RevokeKeepsHeads(d, LeasedConnectors(d, objects, |d.connectors|), LeasedCrtcs(d, objects, |d.crtcs|));
    case Reconfigure(c, display, stateCrtc) => ReconfigureKeepsGood(d, c, display, stateCrtc);
  }

  /** From an ungranted device, every sequence of grants, revocations, file closes, disconnects, lease
      revocations and reconfigurations, with any answers of NVKMS and any interruptions, keeps granted
      connectors and CRTCs in exclusive pairs with matching owners, if the leases are paired. */
  lemma {:induction false} RunKeepsMatched(d: Device, ops: seq<Op>)
    requires Ungranted(d) && LeasesPaired(d, ops)
    ensures Good(After(d, ops))
    decreases |ops|
  {
    if ops != [] {
      RunKeepsMatched(d, ops[..|ops| - 1]);
      StepKeepsGood(After(d, ops[..|ops| - 1]), ops[|ops| - 1]);
    }
  }

  /** A display on connector 1, a spare connector 3 and one CRTC, 2. */
  const UNGRANTED := Device(
    [Connector(1, None, None, Some(Display(5, None, {0})), None), Connector(3, None, None, None, None)],
    [Crtc(2, 0, None)])

  lemma FirstGrant(file: File)
    ensures Ungranted(UNGRANTED) && Matched(UNGRANTED)
    ensures Apply(UNGRANTED, GrantOp(file, 5, {1, 2}, true)) == AfterGrant(UNGRANTED, Granted(0, 0), file)
  {
    assert Available(UNGRANTED, 0, {1, 2}, {0});
    assert Wins(UNGRANTED, 5, {1, 2}, 0, 0);
    GrantWinner(UNGRANTED, file, 5, {1, 2}, 0, 0);
  }

  lemma TwoSteps(d: Device, first: Op, second: Op)
    ensures After(d, [first, second]) == Apply(Apply(d, first), second)
  {
    assert [first, second][..1] == [first] && [first][..0] == [];
    assert After(d, [first]) == Apply(d, first);
  }

  /** After a grant, a lease with the CRTC of the granted pair and another connector breaks the pairing. */
  lemma LeaseWithoutConnectorBreaksPair()
    ensures Ungranted(UNGRANTED)
    ensures !Matched(After(UNGRANTED, [GrantOp(7, 5, {1, 2}, true), LeaseOp({2, 3})]))
  {
    FirstGrant(7);
    TwoSteps(UNGRANTED, GrantOp(7, 5, {1, 2}, true), LeaseOp({2, 3}));
    var d := AfterGrant(UNGRANTED, Granted(0, 0), 7);
    GrantKeepsMatched(UNGRANTED, 0, 0, 7);
    assert Paired(d, 0, 0) && d.crtcs[0].id == 2 && d.connectors[0].id == 1;
    LeaseRevokeKeepsMatchedIff(d, {2, 3});
  }
}
