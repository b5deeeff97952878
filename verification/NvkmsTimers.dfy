/** NVKMS timers and reference-counted pointers
    (kernel-open/nvidia-modeset/nvidia-modeset-linux.c) as a transition system.

    A timer is armed or queued at once; its callback runs on the NVKMS work queue, takes
    `nvkms_lock`, and calls the timer's proc unless the timer was cancelled. NVKMS code that
    allocates and frees timers runs under `nvkms_lock` too: either while no proc runs, or inside a
    proc. Timers on a ref_ptr are made in interrupt context, without the lock. */
module NvkmsTimers {
  import opened Counting
  import opened Options

  type TimerId = nat
  type RefId = nat

  /** How far the timer has come. */
  datatype Stage =
    | Armed      // the kernel timer has not expired
    | Queued     // the callback is on the work queue
    | Claimed    // the callback has taken the timer off the list of timers
    | InProc     // the proc is running
    | Ended      // the callback is over, or module exit disposed of the timer

  /** `handleFreed`: `nvkms_free_timer` was called. `starts` and `frees` count calls of the proc and
      releases of the memory. */
  datatype Timer = Timer(ref: Option<RefId>, cancel: bool, complete: bool, stage: Stage,
                         handleFreed: bool, starts: nat, frees: nat)

  /** `struct nvkms_ref_ptr`; `live` says that `ptr` is not NULL, which is so until the owner frees it. */
  datatype RefPtr = RefPtr(count: nat, live: bool, frees: nat)

  datatype State = State(
    timers: map<TimerId, Timer>,
    refs: map<RefId, RefPtr>,
    inProc: Option<TimerId>,   // who holds nvkms_lock for a proc
    unloaded: bool)            // nvKmsModuleUnload has returned

  const INITIAL := State(map[], map[], None, false)

  datatype Event =
    | AllocTimer(t: TimerId, now: bool)
    | AllocRefTimer(t: TimerId, r: RefId, now: bool)
    | AllocRef(r: RefId)
    | FreeRef(r: RefId)
    | FreeTimer(t: TimerId)
    | Expire(t: TimerId)
    | Claim(t: TimerId)
    | Begin(t: TimerId)
    | Finish(t: TimerId)
    | Unload
    | Drain(t: TimerId)

  predicate At(s: State, t: TimerId, stage: Stage) {
    t in s.timers && s.timers[t].stage == stage
  }

  predicate Enabled(s: State, e: Event) {
    match e
    case AllocTimer(t, _) => t !in s.timers && !s.unloaded
    // The interrupt that makes the timer comes from an object that owns the ref_ptr.
    case AllocRefTimer(t, r, _) => t !in s.timers && r in s.refs && s.refs[r].live && !s.unloaded
    case AllocRef(r) => r !in s.refs && !s.unloaded
    case FreeRef(r) => r in s.refs && s.refs[r].live && !s.unloaded
    // A handle is freed once; ref_ptr timers have none.
    case FreeTimer(t) => t in s.timers && s.timers[t].ref == None && !s.timers[t].handleFreed && !s.unloaded
    case Expire(t) => At(s, t, Armed)
    case Claim(t) => At(s, t, Queued)
    case Begin(t) => At(s, t, Claimed) && s.inProc == None
    case Finish(t) => At(s, t, InProc) && s.inProc == Some(t)
    // Unloading leaves no handle and no owner behind.
    case Unload => !s.unloaded && s.inProc == None
      && (forall t :: t in s.timers && s.timers[t].ref == None ==> s.timers[t].handleFreed)
      && (forall r :: r in s.refs ==> !s.refs[r].live)
    case Drain(t) => s.unloaded && At(s, t, Armed)
  }

  /** `nvkms_dec_ref`: the last reference frees the object. */
  function DecRef(p: RefPtr): RefPtr {
    if p.count == 1 then p.(count := 0, frees := p.frees + 1)
    else if p.count == 0 then p
    else p.(count := p.count - 1)
  }

  function PutRef(s: State, ref: Option<RefId>): map<RefId, RefPtr> {
    if ref.Some? && ref.value in s.refs then s.refs[ref.value := DecRef(s.refs[ref.value])] else s.refs
  }

  function NewTimer(ref: Option<RefId>, now: bool): Timer {
    Timer(ref, false, false, if now then Queued else Armed, false, 0, 0)
  }

  function FreeTimerStep(t: Timer): Timer {
    if t.complete then t.(handleFreed := true, frees := t.frees + 1) else t.(handleFreed := true, cancel := true)
  }

  /** `nvkms_kthread_q_callback` once it has the lock: a timer whose owner is gone counts as
      cancelled; a cancelled timer is freed without calling the proc. */
  function BeginStep(s: State, t: TimerId): State
    requires t in s.timers
  {
    var timer := s.timers[t];
    var gone := timer.ref.Some? && !(timer.ref.value in s.refs && s.refs[timer.ref.value].live);
    var cancel := timer.cancel || gone;
    var s' := s.(refs := PutRef(s, timer.ref));
    if cancel then s'.(timers := s.timers[t := timer.(cancel := true, stage := Ended, frees := timer.frees + 1)])
    else s'.(timers := s.timers[t := timer.(stage := InProc, starts := timer.starts + 1)], inProc := Some(t))
  }

  /** ... and after the proc: the proc may have freed its own timer. */
  function FinishStep(s: State, t: TimerId): State
    requires t in s.timers
  {
    var timer := s.timers[t].(complete := true, stage := Ended);
    s.(timers := s.timers[t := if timer.ref.Some? || timer.cancel then timer.(frees := timer.frees + 1) else timer],
       inProc := None)
  }

  function DrainStep(s: State, t: TimerId): State
    requires t in s.timers
  {
    s.(refs := PutRef(s, s.timers[t].ref),
       timers := s.timers[t := s.timers[t].(stage := Ended, frees := s.timers[t].frees + 1)])
  }

  function Next(s: State, e: Event): State
    requires Enabled(s, e)
  {
    match e
    case AllocTimer(t, now) => s.(timers := s.timers[t := NewTimer(None, now)])
    case AllocRefTimer(t, r, now) =>
      s.(timers := s.timers[t := NewTimer(Some(r), now)], refs := s.refs[r := s.refs[r].(count := s.refs[r].count + 1)])
    case AllocRef(r) => s.(refs := s.refs[r := RefPtr(1, true, 0)])
    case FreeRef(r) => s.(refs := s.refs[r := DecRef(s.refs[r].(live := false))])
    case FreeTimer(t) => s.(timers := s.timers[t := FreeTimerStep(s.timers[t])])
    case Expire(t) => s.(timers := s.timers[t := s.timers[t].(stage := Queued)])
    case Claim(t) => s.(timers := s.timers[t := s.timers[t].(stage := Claimed)])
    case Begin(t) => BeginStep(s, t)
    case Finish(t) => FinishStep(s, t)
    case Unload => s.(unloaded := true)
    case Drain(t) => DrainStep(s, t)
  }

  ghost predicate ValidRun(es: seq<Event>)
    decreases |es|, 0
  {
    es == [] || (ValidRun(es[..|es| - 1]) && Enabled(After(es[..|es| - 1]), es[|es| - 1]))
  }

  ghost function After(es: seq<Event>): State
    requires ValidRun(es)
    decreases |es|, 1
  {
    if es == [] then INITIAL else Next(After(es[..|es| - 1]), es[|es| - 1])
  }

  // ----- the invariant -----

  /** The timer holds a reference on its ref_ptr. */
  predicate HoldsRef(t: Timer, r: RefId) {
    t.ref == Some(r) && (t.stage.Armed? || t.stage.Queued? || t.stage.Claimed?)
  }

  ghost function Holders(s: State, r: RefId): set<TimerId> {
    set t | t in s.timers && HoldsRef(s.timers[t], r)
  }

  ghost predicate TimerOk(s: State, id: TimerId)
    requires id in s.timers
  {
    var t := s.timers[id];
    // The memory is gone exactly when the callback is over and nobody holds a handle.
    && t.frees == (if t.stage.Ended? && (t.ref.Some? || t.handleFreed) then 1 else 0)
    && (t.stage.InProc? <==> s.inProc == Some(id))
    && t.starts == (if t.stage.InProc? || t.complete then 1 else 0)
    && (t.complete ==> t.stage.Ended?)
    && (t.ref.Some? ==> t.ref.value in s.refs && !t.handleFreed)
    && (t.ref.Some? && !t.stage.Ended? ==> !t.cancel)
    && (t.ref == None && !t.complete ==> (t.cancel <==> t.handleFreed))
    && (t.ref == None && t.stage.Ended? && !t.handleFreed ==> t.complete)
    && (s.unloaded ==> !t.stage.InProc? && (t.ref == None ==> t.handleFreed))
  }

  ghost predicate RefOk(s: State, r: RefId)
    requires r in s.refs
  {
    var p := s.refs[r];
    && p.count == (if p.live then 1 else 0) + |Holders(s, r)|
    && p.frees == (if p.count == 0 then 1 else 0)
    && (s.unloaded ==> !p.live)
  }

  ghost predicate Inv(s: State) {
    && (forall t :: t in s.timers ==> TimerOk(s, t))
    && (forall r :: r in s.refs ==> RefOk(s, r))
    && (s.inProc.Some? ==> s.inProc.value in s.timers)
    && (s.unloaded ==> s.inProc == None)
  }

  // ----- holders of a ref_ptr -----

  lemma SizeWithout(a: set<TimerId>, t: TimerId)
    ensures |a| == |a - {t}| + One(t in a)
  {
  }

  lemma HoldersChange(s: State, s': State, t: TimerId, r: RefId)
    requires forall u :: u != t ==> (u in s.timers <==> u in s'.timers)
    requires forall u :: u != t && u in s.timers ==> s'.timers[u] == s.timers[u]
    ensures |Holders(s', r)| + One(t in s.timers && HoldsRef(s.timers[t], r))
            == |Holders(s, r)| + One(t in s'.timers && HoldsRef(s'.timers[t], r))
  {
    assert Holders(s', r) - {t} == Holders(s, r) - {t} by {
      forall u ensures u in Holders(s', r) - {t} <==> u in Holders(s, r) - {t} {
      }
    }
    SizeWithout(Holders(s, r), t);
    SizeWithout(Holders(s', r), t);
  }

  lemma HolderCounts(s: State, t: TimerId, r: RefId)
    requires t in s.timers && HoldsRef(s.timers[t], r)
    ensures |Holders(s, r)| >= 1
  {
    SizeWithout(Holders(s, r), t);
  }

  // ----- steps -----

  lemma BeginTimer(s: State, t: TimerId, u: TimerId)
    requires Enabled(s, Begin(t)) && TimerOk(s, t) && u in s.timers && TimerOk(s, u)
    requires s.unloaded && s.timers[t].ref.Some? && s.timers[t].ref.value in s.refs ==> !s.refs[s.timers[t].ref.value].live
    ensures TimerOk(BeginStep(s, t), u)
  {
  }

  lemma BeginRef(s: State, t: TimerId, r: RefId)
    requires Enabled(s, Begin(t)) && TimerOk(s, t) && r in s.refs && RefOk(s, r)
    ensures RefOk(BeginStep(s, t), r)
  {
    HoldersChange(s, BeginStep(s, t), t, r);
    if s.timers[t].ref == Some(r) {
      HolderCounts(s, t, r);
    }
  }

  lemma BeginKeepsInv(s: State, t: TimerId)
    requires Inv(s) && Enabled(s, Begin(t))
    ensures Inv(BeginStep(s, t))
  {
    var s' := BeginStep(s, t);
    assert TimerOk(s, t);
    if s.timers[t].ref.Some? {
      assert RefOk(s, s.timers[t].ref.value);
    }
    forall u | u in s'.timers ensures TimerOk(s', u) {
      BeginTimer(s, t, u);
    }
    forall r | r in s'.refs ensures RefOk(s', r) {
      BeginRef(s, t, r);
    }
  }

  lemma DrainKeepsInv(s: State, t: TimerId)
    requires Inv(s) && Enabled(s, Drain(t))
    ensures Inv(DrainStep(s, t))
  {
    var s' := DrainStep(s, t);
    assert TimerOk(s, t);
    forall u | u in s'.timers ensures TimerOk(s', u) {
      assert TimerOk(s, u);
    }
    forall r | r in s'.refs ensures RefOk(s', r) {
      assert RefOk(s, r);
      HoldersChange(s, s', t, r);
      if s.timers[t].ref == Some(r) {
        HolderCounts(s, t, r);
      }
    }
  }

  lemma AllocKeepsInv(s: State, e: Event)
    requires Inv(s) && Enabled(s, e) && (e.AllocTimer? || e.AllocRefTimer?)
    ensures Inv(Next(s, e))
  {
    var s' := Next(s, e);
    forall u | u in s'.timers ensures TimerOk(s', u) {
      if u in s.timers { assert TimerOk(s, u); }
    }
    forall r | r in s'.refs ensures RefOk(s', r) {
      assert RefOk(s, r);
      HoldersChange(s, s', e.t, r);
    }
  }

  /** A step of one timer that takes no reference and gives none back. */
  lemma TimerStepKeepsInv(s: State, e: Event)
    requires Inv(s) && Enabled(s, e) && (e.FreeTimer? || e.Expire? || e.Claim? || e.Finish?)
    ensures Inv(Next(s, e))
  {
    var s' := Next(s, e);
    assert TimerOk(s, e.t);
    forall u | u in s'.timers ensures TimerOk(s', u) {
      assert TimerOk(s, u);
    }
    forall r | r in s'.refs ensures RefOk(s', r) {
      assert RefOk(s, r);
      HoldersChange(s, s', e.t, r);
    }
  }

  lemma RefStepKeepsInv(s: State, e: Event)
    requires Inv(s) && Enabled(s, e) && (e.AllocRef? || e.FreeRef? || e.Unload?)
    ensures Inv(Next(s, e))
  {
  }

  lemma StepKeepsInv(s: State, e: Event)
    requires Inv(s) && Enabled(s, e)
    ensures Inv(Next(s, e))
  {
    match e
    case Begin(t) => BeginKeepsInv(s, t);
    case Drain(t) => DrainKeepsInv(s, t);
    case AllocRef(_) => RefStepKeepsInv(s, e);
    case FreeRef(_) => RefStepKeepsInv(s, e);
    case Unload => RefStepKeepsInv(s, e);
    case AllocTimer(_, _) => AllocKeepsInv(s, e);
    case AllocRefTimer(_, _, _) => AllocKeepsInv(s, e);
    case _ => TimerStepKeepsInv(s, e);
  }

  lemma {:induction false} RunKeepsInv(es: seq<Event>)
    requires ValidRun(es)
    ensures Inv(After(es))
    decreases |es|
  {
    if es != [] {
      RunKeepsInv(es[..|es| - 1]);
      StepKeepsInv(After(es[..|es| - 1]), es[|es| - 1]);
    }
  }

  // ----- the main results -----

  /** The memory of a timer is released at most once; for a timer with a handle, exactly once when the
      handle has been freed and the callback is over, in either order and also when the proc frees its
      own timer; for a timer on a ref_ptr, exactly once when the callback is over. */
  lemma TimerMemoryFreedOnce(es: seq<Event>, t: TimerId)
    requires ValidRun(es) && t in After(es).timers
    ensures var timer := After(es).timers[t];
      && timer.frees <= 1
      && (timer.frees == 1 <==> timer.stage == Ended && (timer.ref.Some? || timer.handleFreed))
  {
    RunKeepsInv(es);
    assert TimerOk(After(es), t);
  }

  /** What an event reads or writes of a timer's memory. */
  ghost predicate TouchesTimer(e: Event, t: TimerId) {
    match e
    case FreeTimer(u) => u == t
    case Expire(u) => u == t
    case Claim(u) => u == t
    case Begin(u) => u == t
    case Finish(u) => u == t
    case Drain(u) => u == t
    case _ => false
  }

  /** The ref_ptr whose memory an event reads or writes. */
  ghost predicate TouchesRef(s: State, e: Event, r: RefId) {
    match e
    case FreeRef(q) => q == r
    case AllocRefTimer(_, q, _) => q == r
    case Begin(t) => t in s.timers && s.timers[t].ref == Some(r)
    case Drain(t) => t in s.timers && s.timers[t].ref == Some(r)
    case _ => false
  }

  /** No step touches a timer, or a ref_ptr, whose memory has been released. */
  lemma NoUseAfterFree(es: seq<Event>, e: Event)
    requires ValidRun(es) && Enabled(After(es), e)
    ensures forall t :: TouchesTimer(e, t) ==> t in After(es).timers && After(es).timers[t].frees == 0
    ensures forall r :: TouchesRef(After(es), e, r) ==> r in After(es).refs && After(es).refs[r].frees == 0
  {
    RunKeepsInv(es);
    var s := After(es);
    forall t | TouchesTimer(e, t) ensures t in s.timers && s.timers[t].frees == 0 {
      assert TimerOk(s, t);
    }
    forall r | TouchesRef(s, e, r) ensures r in s.refs && s.refs[r].frees == 0 {
      TouchedRefIsLive(s, e, r);
    }
  }

  lemma TouchedRefIsLive(s: State, e: Event, r: RefId)
    requires Inv(s) && Enabled(s, e) && TouchesRef(s, e, r)
    ensures r in s.refs && s.refs[r].frees == 0
  {
    if e.Begin? || e.Drain? {
      assert TimerOk(s, e.t);
      HolderCounts(s, e.t, r);
    }
    assert RefOk(s, r);
  }

  /** A ref_ptr counts its owner and the timers that still wait on it, and is released exactly when
      both are gone. */
  lemma RefCountExact(es: seq<Event>, r: RefId)
    requires ValidRun(es) && r in After(es).refs
    ensures var p := After(es).refs[r];
      && p.count == One(p.live) + |Holders(After(es), r)|
      && p.frees == One(!p.live && Holders(After(es), r) == {})
  {
    RunKeepsInv(es);
    assert RefOk(After(es), r);
  }

  lemma StartsOnlyInBegin(s: State, e: Event, t: TimerId)
    requires Inv(s) && Enabled(s, e) && t in s.timers
    ensures t in Next(s, e).timers && Next(s, e).timers[t].ref == s.timers[t].ref
    ensures Next(s, e).timers[t].starts ==
      s.timers[t].starts + One(e == Begin(t) && Next(s, e).inProc == Some(t))
    ensures s.timers[t].handleFreed ==> Next(s, e).timers[t].handleFreed
    ensures s.timers[t].ref.Some? && s.timers[t].ref.value in s.refs && !s.refs[s.timers[t].ref.value].live ==>
      s.timers[t].ref.value in Next(s, e).refs && !Next(s, e).refs[s.timers[t].ref.value].live
  {
  }

  /** The timer may not start its proc any more: its handle was freed, or its owner was. */
  ghost predicate Disarmed(s: State, t: TimerId) {
    && t in s.timers
    && (s.timers[t].handleFreed
        || (s.timers[t].ref.Some? && s.timers[t].ref.value in s.refs && !s.refs[s.timers[t].ref.value].live))
  }

  lemma DisarmedStays(s: State, e: Event, t: TimerId)
    requires Inv(s) && Enabled(s, e) && Disarmed(s, t)
    ensures Disarmed(Next(s, e), t) && Next(s, e).timers[t].starts == s.timers[t].starts
  {
    StartsOnlyInBegin(s, e, t);
    assert TimerOk(s, t);
  }

  /** After `nvkms_free_timer` has returned, or after the owner of the ref_ptr is gone, the proc of the
      timer is never started, however the run goes on. */
  lemma {:induction false} NeverStartsAfterFree(es: seq<Event>, n: nat, t: TimerId)
    requires ValidRun(es) && n <= |es| && ValidRun(es[..n]) && Disarmed(After(es[..n]), t)
    ensures Disarmed(After(es), t) && After(es).timers[t].starts == After(es[..n]).timers[t].starts
    decreases |es|
  {
    if n == |es| {
      assert es[..n] == es;
    } else {
      var init := es[..|es| - 1];
      assert init[..n] == es[..n];
      NeverStartsAfterFree(init, n, t);
      RunKeepsInv(init);
      DisarmedStays(After(init), es[|es| - 1], t);
    }
  }

  // ----- module exit -----

  ghost function Unfinished(s: State): set<TimerId> {
    set t | t in s.timers && !s.timers[t].stage.Ended?
  }

  /** Work left for module exit: draining an armed timer or letting it expire, queueing, running. */
  function StepsLeft(stage: Stage): nat {
    match stage
    case Armed => 4
    case Queued => 3
    case Claimed => 2
    case InProc => 1
    case Ended => 0
  }

  /** Once the module is unloaded, every step brings one timer closer to its end and no timer appears,
      so the drain and the final run of the work queue stop. */
  lemma ExitMakesProgress(s: State, e: Event)
    requires Inv(s) && s.unloaded && Enabled(s, e)
    ensures var s' := Next(s, e);
      && s'.unloaded && s'.timers.Keys == s.timers.Keys
      && (exists t :: t in s.timers && StepsLeft(s'.timers[t].stage) < StepsLeft(s.timers[t].stage)
            && forall u :: u in s.timers && u != t ==> s'.timers[u] == s.timers[u])
      && (forall t :: t in s.timers ==> s'.timers[t].starts == s.timers[t].starts)
  {
    var s' := Next(s, e);
    var t := e.t;
    assert TimerOk(s, t);
    if e.Begin? && s.timers[t].ref.Some? {
      assert RefOk(s, s.timers[t].ref.value);
    }
    assert StepsLeft(s'.timers[t].stage) < StepsLeft(s.timers[t].stage);
  }

  /** While a timer is left, some step is possible. */
  lemma ExitNeverStuck(s: State, t: TimerId)
    requires Inv(s) && s.unloaded && t in Unfinished(s)
    ensures Enabled(s, Drain(t)) || Enabled(s, Claim(t)) || Enabled(s, Begin(t))
  {
  }

  ghost function AtLeast(s: State, k: nat): set<TimerId> {
    set t | t in s.timers && StepsLeft(s.timers[t].stage) >= k
  }

  /** The sum of `StepsLeft` over all timers, which is at most 4 for each. */
  ghost function TotalLeft(s: State): nat {
    |AtLeast(s, 1)| + |AtLeast(s, 2)| + |AtLeast(s, 3)| + |AtLeast(s, 4)|
  }

  lemma SubsetSize(a: set<TimerId>, b: set<TimerId>)
    requires a <= b
    ensures |a| <= |b| && (a != b ==> |a| < |b|)
  {
    assert b == a + (b - a);
  }

  lemma TotalDrops(s: State, s': State, t: TimerId)
    requires s'.timers.Keys == s.timers.Keys && t in s.timers
    requires StepsLeft(s'.timers[t].stage) < StepsLeft(s.timers[t].stage)
    requires forall u :: u in s.timers && u != t ==> s'.timers[u] == s.timers[u]
    ensures TotalLeft(s') < TotalLeft(s)
  {
    forall k: nat
      ensures AtLeast(s', k) <= AtLeast(s, k)
      ensures k == StepsLeft(s.timers[t].stage) ==> t in AtLeast(s, k) && t !in AtLeast(s', k)
    {
    }
    SubsetSize(AtLeast(s', 1), AtLeast(s, 1));
    SubsetSize(AtLeast(s', 2), AtLeast(s, 2));
    SubsetSize(AtLeast(s', 3), AtLeast(s, 3));
    SubsetSize(AtLeast(s', 4), AtLeast(s, 4));
  }

  lemma ExitStepCounts(s: State, e: Event)
    requires Inv(s) && s.unloaded && Enabled(s, e)
    ensures TotalLeft(Next(s, e)) < TotalLeft(s)
  {
    ExitMakesProgress(s, e);
    var t :| t in s.timers && StepsLeft(Next(s, e).timers[t].stage) < StepsLeft(s.timers[t].stage)
      && forall u :: u in s.timers && u != t ==> Next(s, e).timers[u] == s.timers[u];
    TotalDrops(s, Next(s, e), t);
  }

  /** After unloading, a run has no more events than steps were left, so the exit drain ends. */
  lemma {:induction false} ExitIsBounded(es: seq<Event>, m: nat)
    requires ValidRun(es) && m <= |es| && ValidRun(es[..m]) && After(es[..m]).unloaded
    ensures After(es).unloaded && |es| - m + TotalLeft(After(es)) <= TotalLeft(After(es[..m]))
    decreases |es|
  {
    if m == |es| {
      assert es[..m] == es;
    } else {
      var init := es[..|es| - 1];
      assert init[..m] == es[..m];
      ExitIsBounded(init, m);
      RunKeepsInv(init);
      ExitStepCounts(After(init), es[|es| - 1]);
    }
  }

  lemma Extend(es: seq<Event>, e: Event)
    requires ValidRun(es) && Enabled(After(es), e)
    ensures ValidRun(es + [e]) && After(es + [e]) == Next(After(es), e)
  {
    var es' := es + [e];
    assert es'[..|es'| - 1] == es;
  }

  /** Every run after unloading goes on to one in which everything has been released. */
  lemma {:induction false} ExitCompletes(es: seq<Event>) returns (es': seq<Event>)
    requires ValidRun(es) && After(es).unloaded
    ensures ValidRun(es') && es <= es' && Unfinished(After(es')) == {}
    ensures forall t :: t in After(es').timers ==> After(es').timers[t].frees == 1
    ensures forall r :: r in After(es').refs ==> After(es').refs[r].frees == 1
    decreases TotalLeft(After(es))
  {
    RunKeepsInv(es);
    var s := After(es);
    if Unfinished(s) == {} {
      es' := es;
      ExitReleasesEverything(es);
    } else {
      var t :| t in Unfinished(s);
      ExitNeverStuck(s, t);
      var e := if Enabled(s, Drain(t)) then Drain(t) else if Enabled(s, Claim(t)) then Claim(t) else Begin(t);
      ExitMakesProgress(s, e);
      ExitStepCounts(s, e);
      Extend(es, e);
      es' := ExitCompletes(es + [e]);
    }
  }

  /** When nothing is left, every timer and every ref_ptr ever made has been released exactly once. */
  lemma ExitReleasesEverything(es: seq<Event>)
    requires ValidRun(es) && After(es).unloaded && Unfinished(After(es)) == {}
    ensures forall t :: t in After(es).timers ==> After(es).timers[t].frees == 1
    ensures forall r :: r in After(es).refs ==> After(es).refs[r].frees == 1
  {
    RunKeepsInv(es);
    var s := After(es);
    forall t | t in s.timers ensures s.timers[t].stage.Ended? && s.timers[t].frees == 1 {
      assert TimerOk(s, t);
      assert t !in Unfinished(s);
    }
    forall r | r in s.refs ensures s.refs[r].frees == 1 {
      assert RefOk(s, r);
      assert Holders(s, r) == {};
    }
  }

  // ----- the drain loop -----

  /** The armed timers `ts` can be disposed of, one after the other. */
  ghost predicate CanDrain(s: State, ts: seq<TimerId>)
    decreases |ts|, 0
  {
    ts == [] || (CanDrain(s, ts[..|ts| - 1]) && Enabled(DrainAll(s, ts[..|ts| - 1]), Drain(ts[|ts| - 1])))
  }

  ghost function DrainAll(s: State, ts: seq<TimerId>): State
    requires CanDrain(s, ts)
    decreases |ts|, 1
  {
    if ts == [] then s else DrainStep(DrainAll(s, ts[..|ts| - 1]), ts[|ts| - 1])
  }

  lemma DrainOneMore(s: State, ts: seq<TimerId>, t: TimerId)
    requires CanDrain(s, ts) && Enabled(DrainAll(s, ts), Drain(t))
    ensures CanDrain(s, ts + [t]) && DrainAll(s, ts + [t]) == DrainStep(DrainAll(s, ts), t)
  {
  }

  /** The list of timers, and the loop of `nvkms_exit` that disposes of the armed ones. */
  class TimerList {
    var timers: map<TimerId, Timer>
    var refs: map<RefId, RefPtr>
    var list: seq<TimerId>

    ghost function View(): State
      reads this
    {
      State(timers, refs, None, true)
    }

    ghost predicate Valid()
      reads this
    {
      && (forall i, j :: 0 <= i < j < |list| ==> list[i] != list[j])
      && (forall t :: t in list <==> t in timers && (timers[t].stage.Armed? || timers[t].stage.Queued?))
    }

    constructor ()
      ensures Valid() && timers == map[] && refs == map[] && list == []
    {
      timers, refs, list := map[], map[], [];
    }

    /** Delete the kernel timer of an armed timer, take the timer off the list, drop its reference and
        free it. */
    method Dispose(i: nat)
      requires Valid() && i < |list| && list[i] in timers && timers[list[i]].stage.Armed?
      modifies this
      ensures Valid()
      ensures |list| == |old(list)| - 1
      ensures View() == DrainStep(old(View()), old(list)[i])
    {
      ghost var before := list;
      var t := list[i];
      refs := PutRef(State(timers, refs, None, true), timers[t].ref);
      timers := timers[t := timers[t].(stage := Ended, frees := timers[t].frees + 1)];
      list := list[..i] + list[i + 1..];
      forall u ensures u in list <==> u in before && u != t {
        RemoveAt(before, i, u);
      }
    }

    /** Walk the list; whenever an armed timer is found, dispose of it and start again from the front.
        The loop ends, no armed timer is left, and what it did is a sequence of `Drain` steps. */
    method DrainArmed() returns (ghost drained: seq<TimerId>)
      requires Valid()
      modifies this
      ensures Valid()
      ensures CanDrain(old(View()), drained) && View() == DrainAll(old(View()), drained)
      ensures forall t :: t in timers ==> !timers[t].stage.Armed?
    {
      drained := [];
      var i := 0;
      while i < |list|
        invariant 0 <= i <= |list| && Valid()
        invariant CanDrain(old(View()), drained) && View() == DrainAll(old(View()), drained)
        invariant forall k :: 0 <= k < i ==> list[k] in timers && !timers[list[k]].stage.Armed?
        decreases |list|, |list| - i
      {
        var t := list[i];
        assert t in list;
        if timers[t].stage.Armed? {
          DrainOneMore(old(View()), drained, t);
          Dispose(i);
          drained := drained + [t];
          i := 0;
        } else {
          i := i + 1;
        }
      }
      forall t | t in list ensures !timers[t].stage.Armed? {
        var k :| 0 <= k < |list| && list[k] == t;
      }
    }
  }

  lemma RemoveAt(list: seq<TimerId>, i: nat, u: TimerId)
    requires i < |list| && forall j, k :: 0 <= j < k < |list| ==> list[j] != list[k]
    ensures u in list[..i] + list[i + 1..] <==> u in list && u != list[i]
  {
  }
}
