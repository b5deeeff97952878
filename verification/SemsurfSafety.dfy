/** Ownership of callback objects in the fence-context protocol: over every run, the installed
    callback has not been freed, no step touches freed memory, and every callback object is freed
    exactly once by the time the context is gone. */
module SemsurfSafety {
  import opened Options
  import opened PendingFences
  import opened SemsurfContext
  import opened SemsurfProtocol

  // ----- the invariant -----

  /** The locked section has run and the object still exists. */
  predicate AfterLock(p: Phase) {
    p.Fired? || p.Serviced? || p.Queued? || p.InWork?
  }

  predicate BeforeLock(p: Phase) {
    p.Local? || p.Registered? || p.Firing? || p.Cancelled?
  }

  /** Registered with NVKMS at some time and never cancelled. */
  predicate PostRegister(c: Callback) {
    !c.phase.Local? && !c.phase.Cancelled? && (c.phase.Freed? ==> c.ran)
  }

  /** What the program counter `pc` of thread `t` says about the callback it names. */
  ghost predicate PcOk(pc: Pc, t: ThreadId, c: Callback) {
    && c.holder == Some(t)
    && (pc.Ready? || pc.MustRegister? ==> c.phase.Local?)
    && (pc.MustRegister? || pc.MustStore? ==> c.waitValue == pc.waitValue)
    && (pc.MustRegister? || pc.MustStore? || pc.MustCancel? ==> c.waitValue > 0)
    && (pc.MustStore? || pc.MustCancel? ==> PostRegister(c))
    && (pc.MustFree? ==> c.phase.Cancelled? || c.phase.Local?)
  }

  ghost predicate ThreadShape(s: State, t: ThreadId)
    requires t in s.threads
  {
    && (s.threads[t].origin.Some? ==> At(s, s.threads[t].origin.value, InWork(t)))
    && (PcCallback(s.threads[t].pc).Some? ==>
          var cb := PcCallback(s.threads[t].pc).value;
          cb in s.callbacks && PcOk(s.threads[t].pc, t, s.callbacks[cb]))
  }

  ghost predicate ThreadOk(s: State, t: ThreadId)
    requires t in s.threads
  {
    ThreadShape(s, t) && !StoresRetired(s, t)
  }

  /** The thread is about to install a callback whose locked section has already run, and will find
      that the context waits for its value. */
  ghost predicate StoresRetired(s: State, t: ThreadId)
    requires t in s.threads
  {
    var pc := s.threads[t].pc;
    pc.MustStore? && pc.cb in s.callbacks && s.callbacks[pc.cb].ran && s.ctx.current == pc.waitValue
  }

  /** The facts about a callback that do not mention threads. */
  ghost predicate LifeOk(s: State, cb: CallbackId, c: Callback) {
    && c.frees == (if c.phase.Freed? then 1 else 0)
    && (AfterLock(c.phase) ==> c.ran)
    && (BeforeLock(c.phase) ==> !c.ran)
    && (c.phase.Registered? ==> c.waitValue > 0)
    && (c.phase.Firing? || c.ran ==> 0 < c.waitValue <= s.semaphore)
    // Somebody is responsible for every object that is not freed.
    && (c.phase.Local? ==> c.holder.Some?)
    && (c.phase.Registered? || c.phase.Cancelled? ==> c.holder.Some? || s.ctx.local == Some(cb))
  }

  ghost predicate CallbackOk(s: State, cb: CallbackId)
    requires cb in s.callbacks
  {
    var c := s.callbacks[cb];
    && LifeOk(s, cb, c)
    && (c.holder.Some? ==> c.holder.value in s.threads && PcCallback(s.threads[c.holder.value].pc) == Some(cb))
    && (c.phase.InWork? ==> c.phase.worker in s.threads && s.threads[c.phase.worker].origin == Some(cb))
  }

  ghost predicate ContextOk(s: State) {
    && s.ctx.local == s.ctx.nvKms
    && (s.ctx.local.Some? ==>
          && s.ctx.local.value in s.callbacks
          && var c := s.callbacks[s.ctx.local.value];
          && c.holder == None
          && c.waitValue > 0
          && (c.phase.Registered? || c.phase.Firing?
              || (c.phase.Cancelled? && (s.stage.Unregistered? || s.stage.SurfaceFreed?))))
  }

  predicate Closed(stage: Stage) {
    stage.Unregistered? || Over(stage)
  }

  /** Which callbacks may be left at each stage of the destructor. */
  ghost predicate StageAllows(stage: Stage, p: Phase) {
    && (Closed(stage) ==> p.Firing? || p.Fired? || p.Serviced? || p.Cancelled? || p.Freed?)
    && (Over(stage) ==> p.Cancelled? || p.Freed?)
  }

  ghost predicate StageOk(s: State) {
    && (Closed(s.stage) ==> s.threads == map[])
    && (s.stage.Completing? || s.stage.Dead? ==> s.ctx.local == None && s.ctx.pending == [])
  }

  ghost predicate Inv(s: State) {
    && (forall t :: t in s.threads ==> ThreadOk(s, t))
    && (forall cb :: cb in s.callbacks ==> CallbackOk(s, cb))
    && (forall cb :: cb in s.callbacks ==> StageAllows(s.stage, s.callbacks[cb].phase))
    && ContextOk(s)
    && StageOk(s)
  }

  // ----- a thread takes a step -----

  /** What a reporting pass does to the context, apart from the list. */
  lemma ProcessFacts(c: Context, sample: nat, now: nat)
    requires Sorted(c.pending)
    ensures var p := Process(c, sample, now, true);
      && p.ctx.local == c.local && p.ctx.nvKms == c.nvKms
      && (p.ctx.current == 0 || p.ctx.current == c.current || p.ctx.current > sample)
      && (p.waitValue > 0 ==> p.ctx.current == p.waitValue)
      && p.ctx.current == (if p.ctx.pending == [] then 0 else p.ctx.pending[0].seqno)
      && p.ctx.pending == Sweep(c.pending, sample, now).rest
  {
    SweepMeaning(c.pending, sample, now);
  }

  lemma ProcessThread(s: State, t: ThreadId, sample: nat, now: nat, u: ThreadId)
    requires t in s.threads && s.threads[t].pc.Ready?
    requires ThreadOk(s, t) && u in s.threads && ThreadOk(s, u)
    ensures ThreadShape(ProcessStep(s, t, sample, now), u)
    ensures ThreadOk(ProcessStep(s, t, sample, now), u) <==>
      !(s.threads[u].pc.MustStore? && s.callbacks[s.threads[u].pc.cb].ran
        && Process(s.ctx, sample, now, true).ctx.current == s.threads[u].pc.waitValue)
  {
  }

  lemma ProcessCallback(s: State, t: ThreadId, sample: nat, now: nat, c: CallbackId)
    requires t in s.threads && s.threads[t].pc.Ready?
    requires ThreadOk(s, t) && ContextOk(s) && c in s.callbacks && CallbackOk(s, c)
    ensures CallbackOk(ProcessStep(s, t, sample, now), c)
  {
  }

  lemma ProcessContext(s: State, t: ThreadId, sample: nat, now: nat)
    requires t in s.threads && s.threads[t].pc.Ready? && ThreadOk(s, t) && ContextOk(s)
    ensures ContextOk(ProcessStep(s, t, sample, now))
  {
  }

  lemma RegisterThread(s: State, t: ThreadId, r: Registration, u: ThreadId)
    requires t in s.threads && s.threads[t].pc.MustRegister? && s.threads[t].pc.cb in s.callbacks
    requires ThreadOk(s, t) && CallbackOk(s, s.threads[t].pc.cb) && u in s.threads && ThreadOk(s, u)
    ensures ThreadOk(RegisterStep(s, t, r), u)
  {
  }

  lemma RegisterCallback(s: State, t: ThreadId, r: Registration, c: CallbackId)
    requires t in s.threads && s.threads[t].pc.MustRegister? && s.threads[t].pc.cb in s.callbacks
    requires ThreadOk(s, t) && ContextOk(s) && c in s.callbacks && CallbackOk(s, c)
    ensures CallbackOk(RegisterStep(s, t, r), c) && ContextOk(RegisterStep(s, t, r))
  {
  }

  lemma StoreThread(s: State, t: ThreadId, u: ThreadId)
    requires t in s.threads && s.threads[t].pc.MustStore? && s.threads[t].pc.cb in s.callbacks
    requires ThreadOk(s, t) && ContextOk(s) && !Closed(s.stage)
    requires u in s.threads && ThreadOk(s, u)
    ensures ThreadOk(StoreStep(s, t), u)
  {
  }

  lemma StoreCallbackOk(s: State, t: ThreadId, c: CallbackId)
    requires t in s.threads && s.threads[t].pc.MustStore? && s.threads[t].pc.cb in s.callbacks
    requires ThreadOk(s, t) && ContextOk(s) && !Closed(s.stage)
    requires CallbackOk(s, s.threads[t].pc.cb)
    requires c in s.callbacks && CallbackOk(s, c)
    ensures CallbackOk(StoreStep(s, t), c)
  {
  }

  lemma StoreContext(s: State, t: ThreadId)
    requires t in s.threads && s.threads[t].pc.MustStore? && s.threads[t].pc.cb in s.callbacks
    requires ThreadOk(s, t) && ContextOk(s) && !Closed(s.stage) && CallbackOk(s, s.threads[t].pc.cb)
    ensures ContextOk(StoreStep(s, t))
  {
  }

  lemma UnregisterThread(s: State, t: ThreadId, u: ThreadId)
    requires t in s.threads && s.threads[t].pc.MustCancel? && s.threads[t].pc.cb in s.callbacks
    requires ThreadOk(s, t) && u in s.threads && ThreadOk(s, u)
    ensures ThreadOk(UnregisterStep(s, t), u)
  {
  }

  lemma UnregisterCallback(s: State, t: ThreadId, c: CallbackId)
    requires t in s.threads && s.threads[t].pc.MustCancel? && s.threads[t].pc.cb in s.callbacks
    requires ThreadOk(s, t) && ContextOk(s) && c in s.callbacks && CallbackOk(s, c)
    ensures CallbackOk(UnregisterStep(s, t), c) && ContextOk(UnregisterStep(s, t))
  {
  }

  lemma ReturnPointwise(s: State, t: ThreadId, u: ThreadId, c: CallbackId)
    requires t in s.threads && s.threads[t].pc == Done
    requires ThreadOk(s, t) && ContextOk(s)
    requires s.threads[t].origin.Some? ==> CallbackOk(s, s.threads[t].origin.value)
    requires c in s.callbacks ==> CallbackOk(s, c)
    requires u in s.threads ==> ThreadOk(s, u)
    ensures var s' := ReturnStep(s, t);
      && (u in s'.threads ==> ThreadOk(s', u))
      && (c in s'.callbacks ==> CallbackOk(s', c))
      && ContextOk(s')
  {
  }

  // ----- every step keeps the invariant -----

  /** The sample of the semaphore is read before the lock is taken, so it may be old. It is too old
      when the pass leaves, as the new head of the list, a fence that waits for the value of a callback
      that has already run its locked section and that some thread is still about to install. */
  ghost predicate TooOld(s: State, e: Event) {
    && e.ProcessCompleted?
    && var rest := Sweep(s.ctx.pending, e.sample, e.now).rest;
       rest != [] && exists t :: t in s.threads && InstallsRetired(s, s.threads[t].pc, rest[0].seqno)
  }

  ghost predicate InstallsRetired(s: State, pc: Pc, value: nat) {
    pc.MustStore? && pc.cb in s.callbacks && s.callbacks[pc.cb].ran && pc.waitValue == value
  }

  /** A sample that is still current when the lock is taken is never too old. */
  lemma CurrentSampleIsNotTooOld(s: State, e: Event)
    requires Inv(s) && Sorted(s.ctx.pending) && e.ProcessCompleted? && e.sample == s.semaphore
    ensures !TooOld(s, e)
  {
    SweepMeaning(s.ctx.pending, e.sample, e.now);
    forall t | t in s.threads && s.threads[t].pc.MustStore? && s.callbacks[s.threads[t].pc.cb].ran
      ensures s.threads[t].pc.waitValue <= e.sample
    {
      assert ThreadOk(s, t) && CallbackOk(s, s.threads[t].pc.cb);
    }
  }

  /** A pass keeps the invariant unless its sample is too old. */
  lemma ProcessKeepsInv(s: State, e: Event)
    requires Inv(s) && Sorted(s.ctx.pending) && e.ProcessCompleted? && Enabled(s, e) && !TooOld(s, e)
    ensures Inv(Next(s, e))
  {
    var s' := Next(s, e);
    ProcessFacts(s.ctx, e.sample, e.now);
    forall u | u in s'.threads ensures ThreadOk(s', u) {
      assert ThreadOk(s, u);
      ProcessThread(s, e.t, e.sample, e.now, u);
    }
    forall c | c in s'.callbacks ensures CallbackOk(s', c) {
      assert CallbackOk(s, c);
      ProcessCallback(s, e.t, e.sample, e.now, c);
    }
    ProcessContext(s, e.t, e.sample, e.now);
  }

  lemma StoreKeepsInv(s: State, e: Event)
    requires Inv(s) && e.StoreCallback? && Enabled(s, e)
    ensures Inv(Next(s, e))
  {
    var s' := Next(s, e);
    forall u | u in s'.threads ensures ThreadOk(s', u) {
      StoreThread(s, e.t, u);
    }
    forall c | c in s'.callbacks ensures CallbackOk(s', c) {
      StoreCallbackOk(s, e.t, c);
    }
    StoreContext(s, e.t);
  }

  lemma RegisterKeepsInv(s: State, e: Event)
    requires Inv(s) && e.Register? && Enabled(s, e)
    ensures Inv(Next(s, e))
  {
    var s' := Next(s, e);
    forall u | u in s'.threads ensures ThreadOk(s', u) {
      RegisterThread(s, e.t, e.result, u);
    }
    forall c | c in s'.callbacks ensures CallbackOk(s', c) {
      RegisterCallback(s, e.t, e.result, c);
    }
    RegisterCallback(s, e.t, e.result, s.threads[e.t].pc.cb);
  }

  lemma UnregisterKeepsInv(s: State, e: Event)
    requires Inv(s) && e.Unregister? && Enabled(s, e)
    ensures Inv(Next(s, e))
  {
    var s' := Next(s, e);
    forall u | u in s'.threads ensures ThreadOk(s', u) {
      UnregisterThread(s, e.t, u);
    }
    forall c | c in s'.callbacks ensures CallbackOk(s', c) {
      UnregisterCallback(s, e.t, c);
    }
    UnregisterCallback(s, e.t, s.threads[e.t].pc.cb);
  }

  lemma FreeUnneededKeepsInv(s: State, e: Event)
    requires Inv(s) && e.FreeUnneeded? && Enabled(s, e)
    ensures Inv(Next(s, e))
  {
    var s' := Next(s, e);
    assert ThreadOk(s, e.t) && CallbackOk(s, s.threads[e.t].pc.cb);
    forall u | u in s'.threads ensures ThreadOk(s', u) {
      assert ThreadOk(s, u);
    }
    forall c | c in s'.callbacks ensures CallbackOk(s', c) {
      assert c in s.callbacks ==> CallbackOk(s, c);
    }
  }

  lemma ReturnKeepsInv(s: State, e: Event)
    requires Inv(s) && e.Return? && Enabled(s, e)
    ensures Inv(Next(s, e))
  {
    var s' := Next(s, e);
    forall u | u in s'.threads ensures ThreadOk(s', u) {
      ReturnPointwise(s, e.t, u, 0);
    }
    forall c | c in s'.callbacks ensures CallbackOk(s', c) {
      ReturnPointwise(s, e.t, 0, c);
    }
  }

  lemma CallbackWorkKeepsInv(s: State, e: Event)
    requires Inv(s) && e.CallbackWork? && Enabled(s, e)
    ensures Inv(Next(s, e))
  {
  }

  lemma AllocKeepsInv(s: State, e: Event)
    requires Inv(s) && e.Alloc? && Enabled(s, e)
    ensures Inv(Next(s, e))
  {
    var s' := Next(s, e);
    forall u | u in s'.threads ensures ThreadOk(s', u) {
      assert ThreadOk(s, u);
    }
    forall c | c in s'.callbacks ensures CallbackOk(s', c) {
      assert c in s.callbacks ==> CallbackOk(s, c);
    }
  }

  lemma FireKeepsInv(s: State, e: Event)
    requires Inv(s) && e.Fire? && Enabled(s, e)
    ensures Inv(Next(s, e))
  {
  }

  lemma LockedKeepsInv(s: State, e: Event)
    requires Inv(s) && e.CallbackLocked? && Enabled(s, e)
    ensures Inv(Next(s, e))
  {
  }

  lemma ServiceKeepsInv(s: State, e: Event)
    requires Inv(s) && e.CallbackProcess? && Enabled(s, e)
    ensures Inv(Next(s, e))
  {
  }

  lemma EnqueueKeepsInv(s: State, e: Event)
    requires Inv(s) && e.CallbackEnqueue? && Enabled(s, e)
    ensures Inv(Next(s, e))
  {
    var s' := Next(s, e);
    forall u | u in s'.threads ensures ThreadOk(s', u) {
      assert ThreadOk(s, u);
    }
    forall c | c in s'.callbacks ensures CallbackOk(s', c) {
      assert c in s.callbacks ==> CallbackOk(s, c);
    }
  }

  lemma DestroyUnregisterKeepsInv(s: State, e: Event)
    requires Inv(s) && e.DestroyUnregister? && Enabled(s, e)
    ensures Inv(Next(s, e))
  {
  }

  lemma CompletePendingKeepsInv(s: State, e: Event)
    requires Inv(s) && e.CompletePending? && Enabled(s, e)
    ensures Inv(Next(s, e))
  {
  }

  lemma StartKeepsInv(s: State, e: Event)
    requires Inv(s) && (e.AddFence? || e.TimeoutWork? || e.AllocFail?) && Enabled(s, e)
    ensures Inv(Next(s, e))
  {
  }

  lemma StageKeepsInv(s: State, e: Event)
    requires Inv(s) && (e.Advance? || e.CloseGate? || e.FreeSurface? || e.FreeContext?) && Enabled(s, e)
    ensures Inv(Next(s, e))
  {
  }

  lemma SignalKeepsInv(s: State, e: Event)
    requires Inv(s) && (e.SignalNext? || e.PutNext?) && Enabled(s, e)
    ensures Inv(Next(s, e))
  {
    SameKeepsInv(s, Next(s, e));
  }

  lemma SameKeepsInv(s: State, s': State)
    requires Inv(s) && s' == s.(hands := s'.hands, signaled := s'.signaled, puts := s'.puts)
    ensures Inv(s')
  {
    forall t | t in s'.threads ensures ThreadOk(s', t) {
      assert ThreadOk(s, t);
    }
    forall cb | cb in s'.callbacks ensures CallbackOk(s', cb) {
      assert CallbackOk(s, cb);
    }
  }

  /** Every step keeps the invariant, unless it takes the lock with a sample that is too old. */
  lemma StepKeepsInv(s: State, e: Event)
    requires Inv(s) && Sorted(s.ctx.pending) && Enabled(s, e) && !TooOld(s, e)
    ensures Inv(Next(s, e))
  {
    match e
    case ProcessCompleted(_, _, _) => ProcessKeepsInv(s, e);
    case Register(_, _) => RegisterKeepsInv(s, e);
    case StoreCallback(_) => StoreKeepsInv(s, e);
    case Unregister(_) => UnregisterKeepsInv(s, e);
    case FreeUnneeded(_) => FreeUnneededKeepsInv(s, e);
    case Return(_) => ReturnKeepsInv(s, e);
    case CallbackWork(_, _) => CallbackWorkKeepsInv(s, e);
    case Alloc(_, _) => AllocKeepsInv(s, e);
    case Fire(_) => FireKeepsInv(s, e);
    case CallbackLocked(_) => LockedKeepsInv(s, e);
    case CallbackProcess(_, _, _) => ServiceKeepsInv(s, e);
    case CallbackEnqueue(_) => EnqueueKeepsInv(s, e);
    case DestroyUnregister => DestroyUnregisterKeepsInv(s, e);
    case CompletePending => CompletePendingKeepsInv(s, e);
    case AddFence(_, _) => StartKeepsInv(s, e);
    case TimeoutWork(_) => StartKeepsInv(s, e);
    case AllocFail(_) => StartKeepsInv(s, e);
    case SignalNext(_) => SignalKeepsInv(s, e);
    case PutNext(_) => SignalKeepsInv(s, e);
    case _ => StageKeepsInv(s, e);
  }

  // ----- which passes do harm -----

  /** Both pointers are set or both are NULL, and an installed callback has not been freed: NVKMS
      still holds it, or has called it and it is about to take the lock. (In the destructor it may
      also be cancelled and waiting to be freed.) */
  ghost predicate InstalledLive(s: State) {
    && s.ctx.local == s.ctx.nvKms
    && (s.ctx.local.Some? ==>
          && s.ctx.local.value in s.callbacks
          && var p := s.callbacks[s.ctx.local.value].phase;
             p.Registered? || p.Firing? || (p.Cancelled? && Closed(s.stage)))
  }

  // ----- what a pass with a sample that is too old leaves behind -----

  /** Thread `t` is about to install callback `cb`, which has already run, and will find that the
      context waits for its value. */
  ghost predicate Armed(s: State, t: ThreadId, cb: CallbackId) {
    && t in s.threads && s.threads[t].pc == MustStore(cb, s.ctx.current) && ThreadShape(s, t)
    && cb in s.callbacks && s.callbacks[cb].ran && CallbackOk(s, cb)
    && (s.callbacks[cb].phase.InWork? ==> ThreadShape(s, s.callbacks[cb].phase.worker))
    && LocalOk(s) && !Closed(s.stage)
  }

  /** A callback that is installed may be cancelled by whoever displaces it. */
  ghost predicate LocalOk(s: State) {
    s.ctx.local.Some? ==>
      && s.ctx.local.value in s.callbacks
      && var c := s.callbacks[s.ctx.local.value];
         c.holder == None && c.waitValue > 0 && PostRegister(c)
  }

  lemma TooOldArms(s: State, e: Event) returns (t: ThreadId, cb: CallbackId)
    requires Inv(s) && Sorted(s.ctx.pending) && Enabled(s, e) && TooOld(s, e)
    ensures Armed(Next(s, e), t, cb)
  {
    var s', rest := Next(s, e), Sweep(s.ctx.pending, e.sample, e.now).rest;
    t :| t in s.threads && InstallsRetired(s, s.threads[t].pc, rest[0].seqno);
    cb := s.threads[t].pc.cb;
    assert ThreadOk(s, t) && ThreadOk(s, e.t) && CallbackOk(s, cb);
    ProcessFacts(s.ctx, e.sample, e.now);
    ProcessThread(s, e.t, e.sample, e.now, t);
    ProcessCallback(s, e.t, e.sample, e.now, cb);
    ProcessContext(s, e.t, e.sample, e.now);
    if s'.callbacks[cb].phase.InWork? {
      assert ThreadOk(s, s.callbacks[cb].phase.worker);
      ProcessThread(s, e.t, e.sample, e.now, s.callbacks[cb].phase.worker);
    }
  }
}
