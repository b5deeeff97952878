/** Commits and flip events of one CRTC (kernel-open/nvidia-drm/nvidia-drm-modeset.c) as a transition
    system. The DRM core serialises the commits of a CRTC; flip events arrive at any time, also when
    none is expected, and are handled under `event_lock`. */
module FlipProtocol {
  import opened Counting
  import opened Options
  import opened FlipQueue

  /** `__nv_drm_handle_flip_event`, step by step; the handler that owns `event_lock`. */
  datatype Handler =
    | Unlocked
    | Locked
    | Took(flip: Option<Flip>)      // dequeued, event not sent
    | Sent(flip: Option<Flip>)      // events sent, flip not freed

  /** `nv_drm_atomic_commit`, step by step. */
  datatype Commit =
    | Idle
    | Checked(nonblock: bool)                     // past the wait for earlier flips
    | Holding(flip: Deferred, nonblock: bool)     // applied; no hardware event will come
    | MustDeliver(flip: Deferred, nonblock: bool)
    | Finishing(nonblock: bool)

  datatype State = State(
    vblank: bool,
    list: seq<Flip>,
    handler: Handler,
    commit: Commit,
    commits: nat,
    refs: int,
    delivered: seq<nat>,
    freed: seq<nat>)

  datatype Event =
    | Check(nonblock: bool)
    | CheckTimeout
    | Apply(hasEvent: bool, pending: nat, fails: bool)
    | Settle
    | Deliver
    | Return
    | HandlerLock
    | HandlerDequeue
    | HandlerSend
    | HandlerUnlock

  function Initial(vblank: bool): State {
    State(vblank, [], Unlocked, Idle, 0, 0, [], [])
  }

  predicate Enabled(s: State, e: Event) {
    match e
    case Check(_) => s.commit == Idle && s.list == []
    case CheckTimeout => s.commit == Idle
    case Apply(_, pending, _) => s.commit.Checked? && pending < 0x1_0000_0000
    case Settle => s.commit.Holding?
    case Deliver => s.commit.MustDeliver? && (s.commit.flip.hasEvent ==> s.handler == Unlocked)
    case Return => s.commit.Finishing? && (s.commit.nonblock || s.list == [])
    case HandlerLock => s.handler == Unlocked
    case HandlerDequeue => s.handler == Locked
    case HandlerSend => s.handler.Took?
    case HandlerUnlock => s.handler.Sent?
  }

  function Gets(s: State, hasEvent: bool): int {
    if s.vblank && hasEvent then 1 else 0
  }

  /** `nv_drm_atomic_apply_modeset_config`. When it fails, the commit is over: a flip that was queued
      stays queued, one that was not is freed with the state that holds it. */
  function ApplyStep(s: State, hasEvent: bool, pending: nat, fails: bool): State
    requires s.commit.Checked?
  {
    var s' := s.(commits := s.commits + 1);
    if pending > 0 then
      s'.(refs := s.refs + Gets(s, hasEvent),
          list := Enqueue(s.list, Flip(s.commits, hasEvent, pending, [])),
          commit := if fails then Idle else Finishing(s.commit.nonblock))
    else if fails then
      s'.(freed := s.freed + [s.commits], commit := Idle)
    else
      s'.(commit := Holding(Deferred(s.commits, hasEvent), s.commit.nonblock))
  }

  function SettleStep(s: State): State
    requires s.commit.Holding?
  {
    var Holding(f, nonblock) := s.commit;
    if s.list != [] then
      s.(refs := s.refs + Gets(s, f.hasEvent), list := Defer(s.list, f), commit := Finishing(nonblock))
    else
      s.(commit := MustDeliver(f, nonblock))
  }

  function DeliverStep(s: State): State
    requires s.commit.MustDeliver?
  {
    var MustDeliver(f, nonblock) := s.commit;
    s.(delivered := s.delivered + (if f.hasEvent then [f.id] else []),
       freed := s.freed + [f.id], commit := Finishing(nonblock))
  }

  function SendStep(s: State): State
    requires s.handler.Took?
  {
    match s.handler.flip
    case None => s.(handler := Sent(None))
    case Some(f) =>
      s.(handler := Sent(Some(f)),
         delivered := s.delivered + Delivery(f),
         freed := s.freed + DeferredIds(f.deferred),
         refs := s.refs - (if s.vblank then FlipEvents(f) else 0))
  }

  function Next(s: State, e: Event): State
    requires Enabled(s, e)
  {
    match e
    case Check(nonblock) => s.(commit := Checked(nonblock))
    case CheckTimeout => s.(commit := Checked(false))
    case Apply(hasEvent, pending, fails) => ApplyStep(s, hasEvent, pending, fails)
    case Settle => SettleStep(s)
    case Deliver => DeliverStep(s)
    case Return => s.(commit := Idle)
    case HandlerLock => s.(handler := Locked)
    case HandlerDequeue => var r := Dequeue(s.list); s.(list := r.list, handler := Took(r.flip))
    case HandlerSend => SendStep(s)
    case HandlerUnlock =>
      s.(handler := Unlocked, freed := s.freed + if s.handler.flip.Some? then [s.handler.flip.value.id] else [])
  }

  ghost predicate ValidRun(vblank: bool, es: seq<Event>)
    decreases |es|, 0
  {
    es == [] || (ValidRun(vblank, es[..|es| - 1]) && Enabled(After(vblank, es[..|es| - 1]), es[|es| - 1]))
  }

  ghost function After(vblank: bool, es: seq<Event>): State
    requires ValidRun(vblank, es)
    decreases |es|, 1
  {
    if es == [] then Initial(vblank) else Next(After(vblank, es[..|es| - 1]), es[|es| - 1])
  }

  // ----- references and objects, over all runs -----

  /** Completion events that are queued, deferred, or in the hands of the handler. */
  function Undelivered(s: State): nat {
    Events(s.list) + if s.handler.Took? && s.handler.flip.Some? then FlipEvents(s.handler.flip.value) else 0
  }

  function HandlerCopies(h: Handler, x: nat): nat {
    match h
    case Took(Some(f)) => Count(FlipIds(f), x)
    case Sent(Some(f)) => One(f.id == x)
    case _ => 0
  }

  function CommitCopies(c: Commit, x: nat): nat {
    match c
    case Holding(f, _) => One(f.id == x)
    case MustDeliver(f, _) => One(f.id == x)
    case _ => 0
  }

  /** Places where the flip object of commit `x` is, plus the times it was freed. */
  function Owners(s: State, x: nat): nat {
    Count(Ids(s.list), x) + HandlerCopies(s.handler, x) + CommitCopies(s.commit, x) + Count(s.freed, x)
  }

  ghost predicate RefsOk(s: State) {
    Armed(s.list) && s.refs == if s.vblank then Undelivered(s) else 0
  }

  ghost predicate Inv(s: State) {
    && RefsOk(s)
    && forall x: nat :: Owners(s, x) == One(x < s.commits)
  }

  lemma ApplyOwners(s: State, hasEvent: bool, pending: nat, fails: bool, x: nat)
    requires s.commit.Checked? && Owners(s, x) == One(x < s.commits)
    ensures Owners(ApplyStep(s, hasEvent, pending, fails), x) == One(x < s.commits + 1)
  {
    if pending > 0 {
      EnqueueIds(s.list, Flip(s.commits, hasEvent, pending, []), x);
    } else if fails {
      CountConcat(s.freed, [s.commits], x);
    }
  }

  lemma EnqueueIds(list: seq<Flip>, f: Flip, x: nat)
    requires f.deferred == []
    ensures Count(Ids(Enqueue(list, f)), x) == Count(Ids(list), x) + One(f.id == x)
  {
    HeadCounts(f, list);
    CountConcat(FlipIds(f), Ids(list), x);
    assert FlipIds(f) == [f.id];
  }

  lemma SettleOwners(s: State, x: nat)
    requires s.commit.Holding?
    ensures Owners(SettleStep(s), x) == Owners(s, x)
  {
    if s.list != [] {
      DeferAdds(s.list, s.commit.flip, x);
    }
  }

  lemma DequeueOwners(s: State, x: nat)
    requires s.handler == Locked && Armed(s.list)
    ensures var s' := Next(s, HandlerDequeue);
      Armed(s'.list) && Owners(s', x) == Owners(s, x) && Undelivered(s') == Undelivered(s)
  {
    if s.list != [] {
      DequeueSpends(s.list);
      var r := Dequeue(s.list);
      CountConcat(if r.flip.Some? then FlipIds(r.flip.value) else [], Ids(r.list), x);
    }
  }

  lemma SendOwners(s: State, x: nat)
    requires s.handler.Took?
    ensures Owners(SendStep(s), x) == Owners(s, x)
  {
    if s.handler.flip.Some? {
      var f := s.handler.flip.value;
      CountConcat(DeferredIds(f.deferred), [f.id], x);
      CountConcat(s.freed, DeferredIds(f.deferred), x);
    }
  }

  lemma FreeOwners(s: State, e: Event, x: nat)
    requires Enabled(s, e) && (e.Deliver? || e.HandlerUnlock?)
    ensures Owners(Next(s, e), x) == Owners(s, x)
  {
    if e.Deliver? {
      CountConcat(s.freed, [s.commit.flip.id], x);
    } else if s.handler.flip.Some? {
      CountConcat(s.freed, [s.handler.flip.value.id], x);
    } else {
      assert s.freed + [] == s.freed;
    }
  }

  lemma StepKeepsOwners(s: State, e: Event, x: nat)
    requires Armed(s.list) && Owners(s, x) == One(x < s.commits) && Enabled(s, e)
    ensures Owners(Next(s, e), x) == One(x < Next(s, e).commits)
  {
    match e
    case Apply(hasEvent, pending, fails) => ApplyOwners(s, hasEvent, pending, fails, x);
    case Settle => SettleOwners(s, x);
    case HandlerDequeue => DequeueOwners(s, x);
    case HandlerSend => SendOwners(s, x);
    case Deliver => FreeOwners(s, e, x);
    case HandlerUnlock => FreeOwners(s, e, x);
    case _ =>
  }

  lemma ApplyKeepsRefs(s: State, hasEvent: bool, pending: nat, fails: bool)
    requires RefsOk(s) && s.commit.Checked? && pending < 0x1_0000_0000
    ensures RefsOk(ApplyStep(s, hasEvent, pending, fails))
  {
  }

  lemma SettleKeepsRefs(s: State)
    requires RefsOk(s) && s.commit.Holding?
    ensures RefsOk(SettleStep(s))
  {
    if s.list != [] {
      DeferAdds(s.list, s.commit.flip, 0);
    }
  }

  lemma OtherKeepsRefs(s: State, e: Event)
    requires RefsOk(s) && Enabled(s, e) && !e.Apply? && !e.Settle?
    ensures RefsOk(Next(s, e))
  {
  }

  lemma StepKeepsInv(s: State, e: Event)
    requires Inv(s) && Enabled(s, e)
    ensures Inv(Next(s, e))
  {
    var s' := Next(s, e);
    forall x: nat ensures Owners(s', x) == One(x < s'.commits) {
      StepKeepsOwners(s, e, x);
    }
    if e.Apply? {
      ApplyKeepsRefs(s, e.hasEvent, e.pending, e.fails);
    } else if e.Settle? {
      SettleKeepsRefs(s);
    } else {
      OtherKeepsRefs(s, e);
    }
  }

  lemma {:induction false} RunKeepsInv(vblank: bool, es: seq<Event>)
    requires ValidRun(vblank, es)
    ensures Inv(After(vblank, es)) && After(vblank, es).vblank == vblank
    decreases |es|
  {
    if es != [] {
      RunKeepsInv(vblank, es[..|es| - 1]);
      StepKeepsInv(After(vblank, es[..|es| - 1]), es[|es| - 1]);
    }
  }

  /** Over every run, also one with timeouts and unexpected events: vertical-blank references taken
      minus dropped are exactly the completion events not yet delivered; a queued flip always waits
      for at least one hardware event, so its counter never wraps. */
  lemma VblankReferencesBalance(vblank: bool, es: seq<Event>)
    requires ValidRun(vblank, es)
    ensures After(vblank, es).refs == if vblank then Undelivered(After(vblank, es)) else 0
    ensures Armed(After(vblank, es).list)
  {
    RunKeepsInv(vblank, es);
  }

  /** Over every run, the flip object of every commit has exactly one owner or has been freed exactly
      once; in a state where nothing is in flight all of them have been freed. */
  lemma FlipObjectsHaveOneOwner(vblank: bool, es: seq<Event>, x: nat)
    requires ValidRun(vblank, es)
    ensures var s := After(vblank, es);
      && Owners(s, x) == One(x < s.commits)
      && Count(s.freed, x) <= 1
      && (s.list == [] && s.handler == Unlocked && s.commit == Idle && x < s.commits ==> Count(s.freed, x) == 1)
  {
    RunKeepsInv(vblank, es);
  }
}
