/** References to LUT surfaces from plane and CRTC states: the duplicate, check and destroy hooks of
    kernel-open/nvidia-drm/nvidia-drm-crtc.c. */
module LutReferences {
  import opened Counting
  import opened Options

  /** The surface pointers of one state. A plane state has two, `degamma_drm_lut_surface` and
      `tmo_drm_lut_surface`; a CRTC state has `regamma_drm_lut_surface`; a destroyed state has none. */
  type Slots = seq<Option<nat>>

  const DEGAMMA: nat := 0
  const TMO: nat := 1
  const REGAMMA: nat := 0

  /** Live surfaces with their reference counts, surfaces released so far, and all states. */
  datatype World = World(refs: map<nat, nat>, released: seq<nat>, next: nat, states: seq<Slots>)

  function Uses(states: seq<Slots>, x: nat): nat {
    if states == [] then 0 else Count(states[0], Some(x)) + Uses(states[1..], x)
  }

  /** A surface is live exactly while some state points at it, its count is the number of such
      pointers, and every other surface ever made has been released once. */
  ghost predicate Inv(w: World) {
    && (forall x :: x in w.refs ==> x < w.next)
    && (forall x: nat :: Uses(w.states, x) == if x in w.refs then w.refs[x] else 0)
    && (forall x :: x in w.refs ==> w.refs[x] > 0)
    && (forall x: nat :: Count(w.released, x) == if x < w.next && x !in w.refs then 1 else 0)
  }

  // ----- kref -----

  /** `kref_put`: the last reference releases the surface. */
  function KrefPut(w: World, x: nat): World
    requires x in w.refs && w.refs[x] > 0
  {
    if w.refs[x] == 1 then w.(refs := map y | y in w.refs && y != x :: w.refs[y], released := w.released + [x])
    else w.(refs := w.refs[x := w.refs[x] - 1])
  }

  function KrefGet(w: World, x: nat): World
    requires x in w.refs
  {
    w.(refs := w.refs[x := w.refs[x] + 1])
  }

  // ----- what the hooks do to one pointer -----

  ghost predicate IsSlot(w: World, k: nat, slot: nat) {
    k < |w.states| && slot < |w.states[k]|
  }

  function SetSlot(w: World, k: nat, slot: nat, p: Option<nat>): World
    requires k < |w.states| && slot < |w.states[k]|
  {
    w.(states := w.states[k := w.states[k][slot := p]])
  }

  /** Put the surface, if any, and clear the pointer. */
  function Drop(w: World, k: nat, slot: nat): World
    requires Inv(w) && IsSlot(w, k, slot)
  {
    match w.states[k][slot]
    case None => w
    case Some(x) =>
      UsedIsLive(w, k, slot);
      SetSlot(KrefPut(w, x), k, slot, None)
  }

  /** Store a new surface with one reference. */
  function Fill(w: World, k: nat, slot: nat): World
    requires IsSlot(w, k, slot)
  {
    SetSlot(w.(refs := w.refs[w.next := 1], next := w.next + 1), k, slot, Some(w.next))
  }

  /** Copy the pointer of another state and take a reference. */
  function Copy(w: World, from: nat, k: nat, slot: nat): World
    requires Inv(w) && IsSlot(w, from, slot) && IsSlot(w, k, slot)
  {
    match w.states[from][slot]
    case None => w
    case Some(x) =>
      UsedIsLive(w, from, slot);
      SetSlot(KrefGet(w, x), k, slot, Some(x))
  }

  // ----- uses -----

  lemma {:induction false} UsesUpdate(states: seq<Slots>, k: nat, s: Slots, x: nat)
    requires k < |states|
    ensures Uses(states[k := s], x) + Count(states[k], Some(x)) == Uses(states, x) + Count(s, Some(x))
    decreases k
  {
    if k == 0 {
      assert states[k := s][1..] == states[1..];
    } else {
      assert states[k := s][1..] == states[1..][k - 1 := s];
      UsesUpdate(states[1..], k - 1, s, x);
    }
  }

  lemma SetSlotUses(w: World, k: nat, slot: nat, p: Option<nat>, x: nat)
    requires IsSlot(w, k, slot)
    ensures Uses(SetSlot(w, k, slot, p).states, x) + (if w.states[k][slot] == Some(x) then 1 else 0)
         == Uses(w.states, x) + (if p == Some(x) then 1 else 0)
  {
    CountUpdate(w.states[k], slot, p, Some(x));
    UsesUpdate(w.states, k, w.states[k][slot := p], x);
  }

  lemma UsedIsLive(w: World, k: nat, slot: nat)
    requires Inv(w) && IsSlot(w, k, slot) && w.states[k][slot].Some?
    ensures w.states[k][slot].value in w.refs
  {
    var x := w.states[k][slot].value;
    SetSlotUses(w, k, slot, None, x);
    assert Uses(w.states, x) >= 1;
  }

  lemma DropKeepsInv(w: World, k: nat, slot: nat)
    requires Inv(w) && IsSlot(w, k, slot)
    ensures Inv(Drop(w, k, slot)) && Drop(w, k, slot).states == w.states[k := w.states[k][slot := None]]
  {
    if w.states[k][slot].Some? {
      var x, w' := w.states[k][slot].value, Drop(w, k, slot);
      UsedIsLive(w, k, slot);
      forall y: nat
        ensures Uses(w'.states, y) == if y in w'.refs then w'.refs[y] else 0
        ensures Count(w'.released, y) == if y < w'.next && y !in w'.refs then 1 else 0
      {
        SetSlotUses(w, k, slot, None, y);
        CountTwo(w.released, x, x, y);
      }
    } else {
      assert w.states[k][slot := None] == w.states[k];
    }
  }

  lemma FillKeepsInv(w: World, k: nat, slot: nat)
    requires Inv(w) && IsSlot(w, k, slot) && w.states[k][slot] == None
    ensures Inv(Fill(w, k, slot))
  {
    var w' := Fill(w, k, slot);
    forall y: nat
      ensures Uses(w'.states, y) == if y in w'.refs then w'.refs[y] else 0
    {
      SetSlotUses(w, k, slot, Some(w.next), y);
    }
  }

  lemma CopyKeepsInv(w: World, from: nat, k: nat, slot: nat)
    requires Inv(w) && IsSlot(w, from, slot) && IsSlot(w, k, slot) && from != k && w.states[k][slot] == None
    ensures Inv(Copy(w, from, k, slot))
  {
    if w.states[from][slot].Some? {
      var x, w' := w.states[from][slot].value, Copy(w, from, k, slot);
      UsedIsLive(w, from, slot);
      forall y: nat
        ensures Uses(w'.states, y) == if y in w'.refs then w'.refs[y] else 0
      {
        SetSlotUses(w, k, slot, Some(x), y);
      }
    }
  }

  // ----- the hooks -----

  /** A state with `n` null pointers, as the duplicate hooks allocate it. */
  function Append(w: World, n: nat): World {
    w.(states := w.states + [seq(n, _ => None)])
  }

  lemma {:induction false} NoUses(s: Slots, x: nat)
    requires forall i :: 0 <= i < |s| ==> s[i] == None
    ensures Count(s, Some(x)) == 0
    decreases |s|
  {
    if s != [] {
      NoUses(s[1..], x);
    }
  }

  lemma {:induction false} AppendUses(states: seq<Slots>, s: Slots, x: nat)
    ensures Uses(states + [s], x) == Uses(states, x) + Count(s, Some(x))
    decreases |states|
  {
    if states == [] {
      assert states + [s] == [s] && [s][1..] == [];
    } else {
      assert (states + [s])[1..] == states[1..] + [s];
      AppendUses(states[1..], s, x);
    }
  }

  lemma AppendKeepsInv(w: World, n: nat)
    requires Inv(w)
    ensures Inv(Append(w, n))
  {
    var s: Slots := seq(n, _ => None);
    forall x: nat
      ensures Uses(w.states + [s], x) == Uses(w.states, x)
    {
      NoUses(s, x);
      AppendUses(w.states, s, x);
    }
  }

  ghost predicate NullFrom(s: Slots, slot: nat) {
    forall i :: slot <= i < |s| ==> s[i] == None
  }

  /** The pointers below `slot` of state `from` have been copied into the last state. */
  ghost predicate Copying(w: World, from: nat, slot: nat) {
    && Inv(w) && from + 1 < |w.states| && slot <= |w.states[from]| == |w.states[|w.states| - 1]|
    && NullFrom(w.states[|w.states| - 1], slot)
    && w.states[|w.states| - 1][..slot] == w.states[from][..slot]
  }

  lemma CopyingStep(w: World, from: nat, slot: nat)
    requires Copying(w, from, slot) && slot < |w.states[from]|
    ensures var w' := Copy(w, from, |w.states| - 1, slot);
      && Copying(w', from, slot + 1) && |w'.states| == |w.states| && w'.states[from] == w.states[from]
      && w'.states[|w.states| - 1 := w.states[from]] == w.states[|w.states| - 1 := w.states[from]]
      && w'.next == w.next && w'.released == w.released
  {
    var last := |w.states| - 1;
    CopyKeepsInv(w, from, last, slot);
    var w' := Copy(w, from, last, slot);
    if w.states[from][slot].Some? {
      UsedIsLive(w, from, slot);
    }
    assert w'.states[last] == w.states[last][slot := w.states[from][slot]];
    PrefixStep(w.states[last], w'.states[last], w.states[from], slot);
  }

  /** Copies of the pointers `slot` and up of state `from` into the last state. */
  function CopyFrom(w: World, from: nat, slot: nat): (r: World)
    requires Copying(w, from, slot)
    ensures Inv(r) && r.states == w.states[|w.states| - 1 := w.states[from]]
    ensures r.next == w.next && r.released == w.released
    decreases |w.states[from]| - slot
  {
    var last := |w.states| - 1;
    if slot == |w.states[from]| then
      assert w.states[last] == w.states[last][..slot] == w.states[from][..slot] == w.states[from];
      w
    else
      CopyingStep(w, from, slot);
      CopyFrom(Copy(w, from, last, slot), from, slot + 1)
  }

  lemma PrefixStep(a: Slots, b: Slots, c: Slots, slot: nat)
    requires slot < |a| == |b| == |c| && a[..slot] == c[..slot] && b == a[slot := c[slot]]
    ensures b[..slot + 1] == c[..slot + 1]
  {
  }

  /** `nv_drm_plane_atomic_duplicate_state` and the CRTC hook: the new state points where the old one
      does, and no surface is made or released. */
  function Duplicate(w: World, from: nat): (r: World)
    requires Inv(w) && from < |w.states|
    ensures Inv(r) && r.states == w.states + [w.states[from]] && r.next == w.next && r.released == w.released
  {
    AppendKeepsInv(w, |w.states[from]|);
    CopyFrom(Append(w, |w.states[from]|), from, 0)
  }

  /** What the creation of a surface comes to: a surface, a null pointer or an error pointer. */
  datatype Creation = Made | Null | ErrorPointer

  /** What the pointer is afterwards: a surface that nobody has seen before, or null. */
  function Replacement(w: World, wanted: bool, creation: Creation): Option<nat> {
    if wanted && creation == Made then Some(w.next) else None
  }

  /** The part of a check hook that replaces one surface. */
  function Replace(w: World, k: nat, slot: nat, wanted: bool, creation: Creation): (r: World)
    requires Inv(w) && IsSlot(w, k, slot)
    ensures Inv(r) && r.states == w.states[k := w.states[k][slot := Replacement(w, wanted, creation)]]
    ensures r.next == w.next + (if wanted && creation == Made then 1 else 0)
  {
    DropKeepsInv(w, k, slot);
    var w' := Drop(w, k, slot);
    if wanted && creation == Made then
      FillKeepsInv(w', k, slot);
      assert w'.states[k][slot := Some(w.next)] == w.states[k][slot := Some(w.next)];
      Fill(w', k, slot)
    else w'
  }

  /** One LUT property of a state, as the check hook finds it. */
  datatype Lut = Lut(changed: bool, wanted: bool, creation: Creation)

  /** The plane check hook: an error pointer for the degamma surface ends it before the tone mapping
      surface is looked at; a null pointer does not. */
  function PlaneCheck(w: World, k: nat, degamma: Lut, tmo: Lut): (r: World)
    requires Inv(w) && k < |w.states| && |w.states[k]| == 2
    ensures Inv(r) && |r.states| == |w.states| && |r.states[k]| == 2
    ensures forall j :: 0 <= j < |w.states| && j != k ==> r.states[j] == w.states[j]
    ensures r.states[k][DEGAMMA] ==
      if degamma.changed then Replacement(w, degamma.wanted, degamma.creation) else w.states[k][DEGAMMA]
    ensures r.states[k][TMO].Some? && r.states[k][TMO] != w.states[k][TMO] ==> tmo.changed && tmo.wanted && tmo.creation == Made
    ensures tmo.changed && !(degamma.changed && degamma.wanted && degamma.creation == ErrorPointer) ==>
      (r.states[k][TMO].Some? <==> tmo.wanted && tmo.creation == Made)
  {
    var w' := if degamma.changed then Replace(w, k, DEGAMMA, degamma.wanted, degamma.creation) else w;
    if degamma.changed && degamma.wanted && degamma.creation == ErrorPointer then w'
    else if tmo.changed then Replace(w', k, TMO, tmo.wanted, tmo.creation)
    else w'
  }

  function CrtcCheck(w: World, k: nat, regamma: Lut): (r: World)
    requires Inv(w) && k < |w.states| && |w.states[k]| == 1
    ensures Inv(r)
    ensures r.states == if regamma.changed then w.states[k := [Replacement(w, regamma.wanted, regamma.creation)]] else w.states
  {
    var p := Replacement(w, regamma.wanted, regamma.creation);
    assert w.states[k][REGAMMA := p] == [p];
    if regamma.changed then Replace(w, k, REGAMMA, regamma.wanted, regamma.creation) else w
  }

  /** Puts the surfaces `slot` and up. */
  function DropFrom(w: World, k: nat, slot: nat): (r: World)
    requires Inv(w) && k < |w.states| && slot <= |w.states[k]|
    requires forall i :: 0 <= i < slot ==> w.states[k][i] == None
    ensures Inv(r) && |r.states| == |w.states| && |r.states[k]| == |w.states[k]| && r.next == w.next
    ensures forall i :: 0 <= i < |r.states[k]| ==> r.states[k][i] == None
    ensures forall j :: 0 <= j < |w.states| && j != k ==> r.states[j] == w.states[j]
    decreases |w.states[k]| - slot
  {
    if slot == |w.states[k]| then w
    else
      DropKeepsInv(w, k, slot);
      DropFrom(Drop(w, k, slot), k, slot + 1)
  }

  /** The destroy hooks. */
  function Destroy(w: World, k: nat): (r: World)
    requires Inv(w) && k < |w.states|
    ensures Inv(r) && r.states == w.states[k := []] && r.next == w.next
  {
    var w' := DropFrom(w, k, 0);
    RemoveKeepsInv(w', k);
    w'.(states := w'.states[k := []])
  }

  lemma RemoveKeepsInv(w: World, k: nat)
    requires Inv(w) && k < |w.states| && forall i :: 0 <= i < |w.states[k]| ==> w.states[k][i] == None
    ensures Inv(w.(states := w.states[k := []]))
  {
    forall x: nat
      ensures Uses(w.states[k := []], x) == Uses(w.states, x)
    {
      NoUses(w.states[k], x);
      UsesUpdate(w.states, k, [], x);
    }
  }

  // ----- runs -----

  datatype Step =
    | NewState(slots: nat)
    | DuplicateStep(from: nat)
    | PlaneStep(k: nat, degamma: Lut, tmo: Lut)
    | CrtcStep(k: nat, regamma: Lut)
    | DestroyStep(k: nat)

  ghost predicate Enabled(w: World, step: Step) {
    match step
    case NewState(n) => 1 <= n <= 2
    case DuplicateStep(from) => from < |w.states| && w.states[from] != []
    case PlaneStep(k, _, _) => k < |w.states| && |w.states[k]| == 2
    case CrtcStep(k, _) => k < |w.states| && |w.states[k]| == 1
    case DestroyStep(k) => k < |w.states| && w.states[k] != []
  }

  ghost function Next(w: World, step: Step): (r: World)
    requires Inv(w) && Enabled(w, step)
    ensures Inv(r)
  {
    match step
    case NewState(n) => AppendKeepsInv(w, n); Append(w, n)
    case DuplicateStep(from) => Duplicate(w, from)
    case PlaneStep(k, degamma, tmo) => PlaneCheck(w, k, degamma, tmo)
    case CrtcStep(k, regamma) => CrtcCheck(w, k, regamma)
    case DestroyStep(k) => Destroy(w, k)
  }

  ghost predicate ValidRun(steps: seq<Step>)
    decreases |steps|, 0
  {
    steps == [] || (ValidRun(steps[..|steps| - 1]) && Enabled(After(steps[..|steps| - 1]), steps[|steps| - 1]))
  }

  ghost function After(steps: seq<Step>): (w: World)
    requires ValidRun(steps)
    ensures Inv(w)
    decreases |steps|, 1
  {
    if steps == [] then World(map[], [], 0, []) else Next(After(steps[..|steps| - 1]), steps[|steps| - 1])
  }

  /** After any run, every surface ever made is either live, with as many references as pointers and at
      least one, or has no pointer left and has been released exactly once. */
  lemma SurfacesBalance(steps: seq<Step>, x: nat)
    requires ValidRun(steps) && x < After(steps).next
    ensures var w := After(steps);
      if x in w.refs then Uses(w.states, x) == w.refs[x] >= 1 && Count(w.released, x) == 0
      else Uses(w.states, x) == 0 && Count(w.released, x) == 1
  {
  }

  // ----- the objects -----

  class LutSurfaces {
    var refs: map<nat, nat>
    var released: seq<nat>
    var next: nat
    var states: seq<Slots>

    ghost function View(): World
      reads this
    {
      World(refs, released, next, states)
    }

    constructor ()
      ensures View() == World(map[], [], 0, [])
    {
      refs, released, next, states := map[], [], 0, [];
    }

    method Put(x: nat)
      requires x in refs && refs[x] > 0
      modifies this
      ensures View() == KrefPut(old(View()), x)
    {
      refs := refs[x := refs[x] - 1];
      if refs[x] == 0 {
        refs := map y | y in refs && y != x :: refs[y];
        released := released + [x];
      }
    }

    method DropSlot(k: nat, slot: nat)
      requires Inv(View()) && IsSlot(View(), k, slot)
      modifies this
      ensures View() == Drop(old(View()), k, slot)
    {
      match states[k][slot] {
        case None =>
        case Some(x) =>
          UsedIsLive(View(), k, slot);
          Put(x);
          states := states[k := states[k][slot := None]];
      }
    }

    method ReplaceSlot(k: nat, slot: nat, wanted: bool, creation: Creation)
      requires Inv(View()) && IsSlot(View(), k, slot)
      modifies this
      ensures View() == Replace(old(View()), k, slot, wanted, creation)
    {
      DropKeepsInv(View(), k, slot);
      DropSlot(k, slot);
      if wanted && creation == Made {
        refs := refs[next := 1];
        states := states[k := states[k][slot := Some(next)]];
        next := next + 1;
      }
    }

    /** The LUT part of `plane_req_config_update`. */
    method PlaneAtomicCheck(k: nat, degamma: Lut, tmo: Lut) returns (failed: bool)
      requires Inv(View()) && k < |states| && |states[k]| == 2
      modifies this
      ensures View() == PlaneCheck(old(View()), k, degamma, tmo)
      ensures failed <==>
        (|| (degamma.changed && degamma.wanted && degamma.creation == ErrorPointer)
         || (tmo.changed && tmo.wanted && tmo.creation == ErrorPointer))
    {
      failed := false;
      if degamma.changed {
        ReplaceSlot(k, DEGAMMA, degamma.wanted, degamma.creation);
        if degamma.wanted && degamma.creation == ErrorPointer {
          return true;
        }
      }
      if tmo.changed {
        ReplaceSlot(k, TMO, tmo.wanted, tmo.creation);
        failed := tmo.wanted && tmo.creation == ErrorPointer;
      }
    }

    /** The regamma part of the CRTC check hook, where a null pointer is the error. */
    method CrtcAtomicCheck(k: nat, regamma: Lut) returns (failed: bool)
      requires Inv(View()) && k < |states| && |states[k]| == 1
      modifies this
      ensures View() == CrtcCheck(old(View()), k, regamma)
      ensures failed <==> regamma.changed && regamma.wanted && states[k][REGAMMA] == None
    {
      failed := false;
      if regamma.changed {
        ReplaceSlot(k, REGAMMA, regamma.wanted, regamma.creation);
        failed := regamma.wanted && states[k][REGAMMA] == None;
      }
    }

    /** The LUT part of `nv_drm_plane_atomic_duplicate_state` and of the CRTC hook. */
    method DuplicateState(from: nat)
      requires Inv(View()) && from < |states|
      modifies this
      ensures View() == Duplicate(old(View()), from)
    {
      var n := |states[from]|;
      AppendKeepsInv(View(), n);
      states := states + [seq(n, _ => None)];
      var slot := 0;
      while slot < n
        invariant 0 <= slot <= n && Copying(View(), from, slot) && |states[from]| == n
        invariant CopyFrom(View(), from, slot) == Duplicate(old(View()), from)
      {
        CopyingStep(View(), from, slot);
        CopySlot(from, |states| - 1, slot);
        slot := slot + 1;
      }
    }

    method CopySlot(from: nat, k: nat, slot: nat)
      requires Inv(View()) && IsSlot(View(), from, slot) && IsSlot(View(), k, slot)
      modifies this
      ensures View() == Copy(old(View()), from, k, slot)
    {
      match states[from][slot] {
        case None =>
        case Some(x) =>
          UsedIsLive(View(), from, slot);
          states := states[k := states[k][slot := Some(x)]];
          refs := refs[x := refs[x] + 1];
      }
    }

    /** The LUT part of the destroy hooks. */
    method DestroyState(k: nat)
      requires Inv(View()) && k < |states|
      modifies this
      ensures View() == Destroy(old(View()), k)
    {
      var slot := 0;
      while slot < |states[k]|
        invariant 0 <= slot && k < |states| == |old(states)| && |states[k]| == |old(states[k])| && slot <= |states[k]|
        invariant Inv(View()) && forall i :: 0 <= i < slot ==> states[k][i] == None
        invariant DropFrom(View(), k, slot) == DropFrom(old(View()), k, 0)
      {
        DropKeepsInv(View(), k, slot);
        DropSlot(k, slot);
        slot := slot + 1;
      }
      states := states[k := []];
    }
  }
}
