/** No pending fence lacks a waiter: in every quiescent state of a fence context, the installed
    callback waits for exactly the smallest pending value. */
module SemsurfWaiters {
  import opened Options
  import opened PendingFences
  import opened SemsurfContext
  import opened SemsurfProtocol
  import opened SemsurfSafety
  import opened SemsurfFences
  import opened SemsurfTheorems

  /** The run so far has had no failed allocation or registration, the context is not being
      destroyed, and every sample is current when the lock is taken. */
  ghost predicate Cooperative(s: State, e: Event) {
    && !e.AllocFail? && !e.CloseGate?
    && !(e.Register? && e.result == Failure)
    && (e.ProcessCompleted? ==> e.sample == s.semaphore)
  }

  // ----- who will still look at the list, and who waits for the current value -----

  predicate WillLook(pc: Pc) {
    pc.Begin? || pc.Ready?
  }

  predicate Running(p: Phase) {
    p.Firing? || p.Fired? || p.Serviced? || p.Queued?
  }

  /** Some thread, or some callback on its way to the work thread, will make another pass. */
  ghost predicate PassPending(s: State) {
    || (exists t :: t in s.threads && WillLook(s.threads[t].pc))
    || (exists cb :: cb in s.callbacks && Running(s.callbacks[cb].phase))
  }

  predicate WaitsFor(pc: Pc, v: nat) {
    (pc.MustRegister? || pc.MustStore?) && pc.waitValue == v
  }

  /** The current wait value has a callback installed or on its way to being installed. */
  ghost predicate HasWaiter(s: State) {
    || (exists t :: t in s.threads && WaitsFor(s.threads[t].pc, s.ctx.current))
    || (s.ctx.local.Some? && s.ctx.local.value in s.callbacks
        && s.callbacks[s.ctx.local.value].waitValue == s.ctx.current)
  }

  ghost predicate WaitInv(s: State) {
    && s.stage == Alive
    && (s.ctx.pending != [] ==> 0 != s.ctx.current == s.ctx.pending[0].seqno || PassPending(s))
    && (s.ctx.current != 0 ==> HasWaiter(s) || (s.ctx.current <= s.semaphore && PassPending(s)))
  }

  // ----- what a step leaves alone -----

  lemma KeepThreadPass(s': State, t: ThreadId)
    requires t in s'.threads && WillLook(s'.threads[t].pc)
    ensures PassPending(s')
  {
  }

  lemma KeepCallbackPass(s': State, cb: CallbackId)
    requires cb in s'.callbacks && Running(s'.callbacks[cb].phase)
    ensures PassPending(s')
  {
  }

  /** A step of thread `t` that does not touch the callbacks' progress keeps any pass promised by
      somebody else. */
  lemma OthersStillPass(s: State, s': State, t: ThreadId)
    requires PassPending(s) && t in s.threads && !WillLook(s.threads[t].pc)
    requires forall u :: u in s.threads && u != t ==> u in s'.threads && s'.threads[u] == s.threads[u]
    requires forall cb :: cb in s.callbacks && Running(s.callbacks[cb].phase) ==>
      cb in s'.callbacks && Running(s'.callbacks[cb].phase)
    ensures PassPending(s')
  {
  }

  lemma OthersStillWait(s: State, s': State, t: ThreadId)
    requires HasWaiter(s) && s'.ctx.current == s.ctx.current && s'.ctx.local == s.ctx.local
    requires t in s.threads && !WaitsFor(s.threads[t].pc, s.ctx.current)
    requires forall u :: u in s.threads && u != t ==> u in s'.threads && s'.threads[u] == s.threads[u]
    requires s.ctx.local.Some? && s.ctx.local.value in s.callbacks ==>
      s.ctx.local.value in s'.callbacks && s'.callbacks[s.ctx.local.value].waitValue == s.callbacks[s.ctx.local.value].waitValue
    ensures HasWaiter(s')
  {
  }

  // ----- the steps of a thread -----

  /** After a reporting pass the context waits for the new head, which lies above the sample. */
  lemma ProcessAims(c: Context, sample: nat, now: nat)
    requires Sorted(c.pending)
    ensures var p := Process(c, sample, now, true);
      && p.ctx.local == c.local
      && (p.ctx.pending == [] ==> p.ctx.current == 0)
      && (p.ctx.pending != [] ==> p.ctx.current == p.ctx.pending[0].seqno > sample)
      && (p.waitValue == 0 && p.ctx.pending != [] ==> p.ctx.current == c.current)
      && (p.waitValue != 0 ==> p.ctx.current == p.waitValue)
  {
    SweepMeaning(c.pending, sample, now);
  }

  lemma ProcessShape(s: State, t: ThreadId, sample: nat, now: nat)
    requires t in s.threads && s.threads[t].pc.Ready? && ThreadOk(s, t)
    ensures var s', p := ProcessStep(s, t, sample, now), Process(s.ctx, sample, now, true);
      && s'.stage == s.stage && s'.semaphore == s.semaphore && s'.ctx == p.ctx
      && t in s'.threads
      && s'.threads[t].pc == (if p.waitValue == 0 then MustFree(s.threads[t].pc.cb) else MustRegister(s.threads[t].pc.cb, p.waitValue))
      && (forall u :: u in s.threads && u != t ==> u in s'.threads && s'.threads[u] == s.threads[u])
      && (forall c :: c in s.callbacks && s.callbacks[c].holder == None ==>
            c in s'.callbacks && s'.callbacks[c].waitValue == s.callbacks[c].waitValue)
  {
  }

  lemma ProcessWaits(s: State, s': State, t: ThreadId, p: Processed)
    requires WaitInv(s) && ContextOk(s)
    requires t in s.threads && s.threads[t].pc.Ready? && t in s'.threads
    requires s'.stage == s.stage && s'.ctx == p.ctx && s'.semaphore == s.semaphore
    requires s'.threads[t].pc == (if p.waitValue == 0 then MustFree(s.threads[t].pc.cb) else MustRegister(s.threads[t].pc.cb, p.waitValue))
    requires forall u :: u in s.threads && u != t ==> u in s'.threads && s'.threads[u] == s.threads[u]
    requires forall c :: c in s.callbacks && s.callbacks[c].holder == None ==>
      c in s'.callbacks && s'.callbacks[c].waitValue == s.callbacks[c].waitValue
    requires p.ctx.local == s.ctx.local
    requires p.ctx.pending == [] ==> p.ctx.current == 0
    requires p.ctx.pending != [] ==> p.ctx.current == p.ctx.pending[0].seqno > s.semaphore
    requires p.waitValue == 0 && p.ctx.pending != [] ==> p.ctx.current == s.ctx.current
    requires p.waitValue != 0 ==> p.ctx.current == p.waitValue
    ensures WaitInv(s')
  {
  }

  lemma RegisterWaits(s: State, e: Event)
    requires Inv(s) && WaitInv(s) && e.Register? && e.result != Failure && Enabled(s, e)
    ensures WaitInv(Next(s, e))
  {
    var s' := Next(s, e);
    assert ThreadOk(s, e.t);
    if PassPending(s) {
      OthersStillPass(s, s', e.t);
    }
    if e.result == AlreadySignalled {
      KeepThreadPass(s', e.t);
      if s.ctx.current != 0 && HasWaiter(s) && s.threads[e.t].pc.waitValue != s.ctx.current {
        OthersStillWait(s, s', e.t);
      }
    } else if s.threads[e.t].pc.waitValue == s.ctx.current {
      assert WaitsFor(s'.threads[e.t].pc, s'.ctx.current);
    } else if HasWaiter(s) {
      OthersStillWait(s, s', e.t);
    }
  }

  lemma StoreWaits(s: State, e: Event)
    requires Inv(s) && WaitInv(s) && e.StoreCallback? && Enabled(s, e)
    ensures WaitInv(Next(s, e))
  {
    var s' := Next(s, e);
    assert ThreadOk(s, e.t);
    if PassPending(s) {
      OthersStillPass(s, s', e.t);
    }
    if s.ctx.current != s.threads[e.t].pc.waitValue && HasWaiter(s) {
      OthersStillWait(s, s', e.t);
    }
  }

  lemma QuietFrame(s: State, s': State, t: ThreadId)
    requires WaitInv(s) && s'.ctx == s.ctx && s'.stage == s.stage && s'.semaphore == s.semaphore
    requires t in s.threads && !WillLook(s.threads[t].pc) && !s.threads[t].pc.MustRegister? && !s.threads[t].pc.MustStore?
    requires forall u :: u in s.threads && u != t ==> u in s'.threads && s'.threads[u] == s.threads[u]
    requires forall cb :: cb in s.callbacks ==>
      && cb in s'.callbacks && s'.callbacks[cb].waitValue == s.callbacks[cb].waitValue
      && (Running(s.callbacks[cb].phase) ==> Running(s'.callbacks[cb].phase))
    ensures WaitInv(s')
  {
  }

  lemma QuietThreadWaits(s: State, e: Event)
    requires Inv(s) && WaitInv(s) && (e.Unregister? || e.FreeUnneeded? || e.Return?) && Enabled(s, e)
    ensures WaitInv(Next(s, e))
  {
    assert ThreadOk(s, e.t);
    QuietFrame(s, Next(s, e), e.t);
  }

  /** Starting a thread, or giving it its new callback object, promises a pass. */
  lemma StartWaits(s: State, e: Event)
    requires Inv(s) && WaitInv(s) && Enabled(s, e)
    requires e.AddFence? || e.TimeoutWork? || e.CallbackWork? || e.Alloc?
    ensures WaitInv(Next(s, e))
  {
    var s' := Next(s, e);
    KeepThreadPass(s', e.t);
    if s.ctx.current != 0 && HasWaiter(s) {
      if u :| u in s.threads && WaitsFor(s.threads[u].pc, s.ctx.current) {
        assert s'.threads[u] == s.threads[u];
      } else {
        assert s'.ctx.local == s.ctx.local;
      }
    }
  }

  // ----- the steps of a callback -----

  lemma CallbackWaits(s: State, e: Event)
    requires Inv(s) && WaitInv(s) && Enabled(s, e)
    requires e.Fire? || e.CallbackProcess? || e.CallbackEnqueue? || e.CallbackLocked?
    ensures WaitInv(Next(s, e))
  {
    var s' := Next(s, e);
    assert CallbackOk(s, e.cb);
    KeepCallbackPass(s', e.cb);
    if s'.ctx.current != 0 && HasWaiter(s) {
      assert s'.ctx.current == s.ctx.current && s'.threads == s.threads;
      if u :| u in s.threads && WaitsFor(s.threads[u].pc, s.ctx.current) {
        assert s'.threads[u] == s.threads[u];
      } else {
        assert s'.ctx.local == s.ctx.local;
      }
    }
  }

  lemma AdvanceWaits(s: State, e: Event)
    requires WaitInv(s) && e.Advance? && Enabled(s, e)
    ensures WaitInv(Next(s, e))
  {
  }

  lemma SignalWaits(s: State, e: Event)
    requires WaitInv(s) && (e.SignalNext? || e.PutNext?) && Enabled(s, e)
    ensures WaitInv(Next(s, e))
  {
  }

  // ----- runs -----

  lemma StepWaits(s: State, e: Event)
    requires Inv(s) && Sorted(s.ctx.pending) && WaitInv(s) && Enabled(s, e) && Cooperative(s, e)
    ensures WaitInv(Next(s, e))
  {
    match e
    case Advance(_) => AdvanceWaits(s, e);
    case ProcessCompleted(t, sample, now) =>
      ProcessAims(s.ctx, sample, now);
      ProcessShape(s, t, sample, now);
      ProcessWaits(s, Next(s, e), t, Process(s.ctx, sample, now, true));
    case Register(_, _) => RegisterWaits(s, e);
    case StoreCallback(_) => StoreWaits(s, e);
    case Unregister(_) => QuietThreadWaits(s, e);
    case FreeUnneeded(_) => QuietThreadWaits(s, e);
    case Return(_) => QuietThreadWaits(s, e);
    case AddFence(_, _) => StartWaits(s, e);
    case TimeoutWork(_) => StartWaits(s, e);
    case CallbackWork(_, _) => StartWaits(s, e);
    case Alloc(_, _) => StartWaits(s, e);
    case SignalNext(_) => SignalWaits(s, e);
    case PutNext(_) => SignalWaits(s, e);
    case _ => CallbackWaits(s, e);
  }

  ghost predicate CooperativeRun(es: seq<Event>)
    requires ValidRun(es)
    decreases |es|
  {
    es == [] || (CooperativeRun(es[..|es| - 1]) && Cooperative(After(es[..|es| - 1]), es[|es| - 1]))
  }

  lemma {:induction false} CooperativeRunKeepsWaitInv(es: seq<Event>)
    requires ValidRun(es) && CooperativeRun(es)
    ensures CurrentRun(es) && Inv(After(es)) && WaitInv(After(es)) && Sorted(After(es).ctx.pending)
    decreases |es|
  {
    RunKeepsLine(es);
    if es != [] {
      var init := es[..|es| - 1];
      CooperativeRunKeepsWaitInv(init);
      StepWaits(After(init), es[|es| - 1]);
    }
    CurrentRunIsTimely(es);
    TimelyRunKeepsInv(es);
  }

  /** Nobody is about to do anything with the context. */
  ghost predicate Quiescent(s: State) {
    && s.threads == map[]
    && forall cb :: cb in s.callbacks ==> !Running(s.callbacks[cb].phase)
  }

  /** In a quiescent state the context waits for the smallest pending value, and the installed
      callback is registered with NVKMS for exactly that value. */
  lemma NoFenceLacksWaiter(es: seq<Event>)
    requires ValidRun(es) && CooperativeRun(es) && Quiescent(After(es)) && After(es).ctx.pending != []
    ensures var s := After(es);
      && s.ctx.current == s.ctx.pending[0].seqno > 0
      && (forall i :: 0 <= i < |s.ctx.pending| ==> s.ctx.current <= s.ctx.pending[i].seqno)
      && s.ctx.local.Some?
      && At(s, s.ctx.local.value, Registered)
      && s.callbacks[s.ctx.local.value].waitValue == s.ctx.current
  {
    CooperativeRunKeepsWaitInv(es);
    var s := After(es);
    assert !PassPending(s);
    assert CallbackOk(s, s.ctx.local.value);
  }
}
