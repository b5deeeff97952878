/** The main results about callback ownership in a fence context, over whole runs. */
module SemsurfTheorems {
  import opened Options
  import opened PendingFences
  import opened SemsurfContext
  import opened SemsurfProtocol
  import opened SemsurfSafety
  import opened SemsurfFences
  import opened SemsurfOrder

  /** From event `n` on, no pass takes the lock with a sample that is too old. */
  ghost predicate TimelyFrom(es: seq<Event>, n: nat)
    requires ValidRun(es)
    decreases |es|
  {
    |es| <= n || (TimelyFrom(es[..|es| - 1], n) && !TooOld(After(es[..|es| - 1]), es[|es| - 1]))
  }

  ghost predicate TimelyRun(es: seq<Event>)
    requires ValidRun(es)
  {
    TimelyFrom(es, 0)
  }

  /** A run in which every sample is still current when the lock is taken. */
  ghost predicate CurrentRun(es: seq<Event>)
    requires ValidRun(es)
    decreases |es|
  {
    es == [] ||
    (CurrentRun(es[..|es| - 1]) &&
     (es[|es| - 1].ProcessCompleted? ==> es[|es| - 1].sample == After(es[..|es| - 1]).semaphore))
  }

  lemma {:induction false} TimelyRunKeepsInv(es: seq<Event>)
    requires ValidRun(es) && TimelyRun(es)
    ensures Inv(After(es))
    decreases |es|
  {
    if es != [] {
      var init := es[..|es| - 1];
      TimelyRunKeepsInv(init);
      RunKeepsLine(init);
      StepKeepsInv(After(init), es[|es| - 1]);
    }
  }

  lemma {:induction false} CurrentRunIsTimely(es: seq<Event>)
    requires ValidRun(es) && CurrentRun(es)
    ensures TimelyRun(es)
    decreases |es|
  {
    if es != [] {
      var init, e := es[..|es| - 1], es[|es| - 1];
      CurrentRunIsTimely(init);
      TimelyRunKeepsInv(init);
      RunKeepsLine(init);
      if e.ProcessCompleted? {
        CurrentSampleIsNotTooOld(After(init), e);
      }
    }
  }

  // ----- the installed callback -----

  /** The installed callback is live after every timely run. */
  lemma InstalledCallbackIsLive(es: seq<Event>)
    requires ValidRun(es) && TimelyRun(es)
    ensures InstalledLive(After(es))
  {
    TimelyRunKeepsInv(es);
  }

  // ----- retired wait values -----

  /** The pass leaves at the head of the list the value of a callback that has run, whether or not
      anybody is still about to install it. */
  ghost predicate Revives(s: State, e: Event) {
    && e.ProcessCompleted?
    && var rest := Sweep(s.ctx.pending, e.sample, e.now).rest;
       rest != [] && exists cb :: cb in s.callbacks && s.callbacks[cb].ran && s.callbacks[cb].waitValue == rest[0].seqno
  }

  ghost predicate NoRevival(es: seq<Event>)
    requires ValidRun(es)
    decreases |es|
  {
    es == [] || (NoRevival(es[..|es| - 1]) && !Revives(After(es[..|es| - 1]), es[|es| - 1]))
  }

  lemma TooOldRevives(s: State, e: Event)
    requires Inv(s)
    ensures TooOld(s, e) ==> Revives(s, e)
  {
    forall t | t in s.threads ensures ThreadOk(s, t) {
    }
  }

  /** Once the locked section of a callback has run, the context does not wait for its value. */
  ghost predicate RetiredInv(s: State) {
    forall cb :: cb in s.callbacks && s.callbacks[cb].ran ==> s.ctx.current != s.callbacks[cb].waitValue
  }

  lemma PassKeepsRetired(s: State, e: Event)
    requires Inv(s) && Sorted(s.ctx.pending) && RetiredInv(s) && Enabled(s, e) && e.ProcessCompleted? && !Revives(s, e)
    ensures RetiredInv(Next(s, e))
  {
    ProcessFacts(s.ctx, e.sample, e.now);
    assert ThreadOk(s, e.t) && CallbackOk(s, s.threads[e.t].pc.cb);
    forall cb | cb in s.callbacks && s.callbacks[cb].ran
      ensures 0 < s.callbacks[cb].waitValue
    {
      assert CallbackOk(s, cb);
    }
  }

  lemma OtherKeepsRetired(s: State, e: Event)
    requires Inv(s) && RetiredInv(s) && Enabled(s, e) && !e.ProcessCompleted?
    ensures RetiredInv(Next(s, e))
  {
    if e.CallbackLocked? {
      LockedKeepsRetired(s, e.cb);
    } else {
      QuietKeepsRetired(s, e);
    }
  }

  lemma LockedKeepsRetired(s: State, cb: CallbackId)
    requires Inv(s) && RetiredInv(s) && Enabled(s, CallbackLocked(cb))
    ensures RetiredInv(Next(s, CallbackLocked(cb)))
  {
    forall c | c in s.callbacks && (s.callbacks[c].ran || c == cb)
      ensures 0 < s.callbacks[c].waitValue
    {
      assert CallbackOk(s, c);
    }
  }

  lemma QuietKeepsRetired(s: State, e: Event)
    requires RetiredInv(s) && Enabled(s, e) && !e.ProcessCompleted? && !e.CallbackLocked?
    ensures RetiredInv(Next(s, e))
  {
    var s' := Next(s, e);
    assert s'.ctx.current == s.ctx.current;
    forall cb | cb in s'.callbacks && s'.callbacks[cb].ran
      ensures cb in s.callbacks && s.callbacks[cb].ran && s'.callbacks[cb].waitValue == s.callbacks[cb].waitValue
    {
    }
  }

  lemma {:induction false} RunKeepsRetired(es: seq<Event>)
    requires ValidRun(es) && NoRevival(es)
    ensures TimelyRun(es) && RetiredInv(After(es))
    decreases |es|
  {
    if es != [] {
      var init, e := es[..|es| - 1], es[|es| - 1];
      RunKeepsRetired(init);
      TimelyRunKeepsInv(init);
      RunKeepsLine(init);
      TooOldRevives(After(init), e);
      if e.ProcessCompleted? {
        PassKeepsRetired(After(init), e);
      } else {
        OtherKeepsRetired(After(init), e);
      }
    }
  }

  lemma {:induction false} CurrentRunHasNoRevival(es: seq<Event>)
    requires ValidRun(es) && CurrentRun(es)
    ensures NoRevival(es)
    decreases |es|
  {
    if es != [] {
      var init, e := es[..|es| - 1], es[|es| - 1];
      CurrentRunHasNoRevival(init);
      CurrentRunIsTimely(init);
      TimelyRunKeepsInv(init);
      RunKeepsLine(init);
      if e.ProcessCompleted? {
        SweepMeaning(After(init).ctx.pending, e.sample, e.now);
        forall cb | cb in After(init).callbacks && After(init).callbacks[cb].ran
          ensures After(init).callbacks[cb].waitValue <= e.sample
        {
          assert CallbackOk(After(init), cb);
        }
      }
    }
  }

  /** Once the locked section of a callback has run, `current_wait_value` is never its wait value
      again, however the run goes on, unless a sample old enough to revive it takes the lock. */
  lemma RetiredValueNeverReturns(es: seq<Event>, n: nat, cb: CallbackId)
    requires ValidRun(es) && NoRevival(es) && n <= |es|
    requires ValidRun(es[..n]) && cb in After(es[..n]).callbacks && After(es[..n]).callbacks[cb].ran
    ensures var s := After(es);
      cb in s.callbacks && s.callbacks[cb].ran
      && s.callbacks[cb].waitValue == After(es[..n]).callbacks[cb].waitValue != s.ctx.current
  {
    RunKeepsRetired(es);
    RanIsForever(es, n, cb);
  }

  lemma {:induction false} RanIsForever(es: seq<Event>, n: nat, cb: CallbackId)
    requires ValidRun(es) && TimelyRun(es) && n <= |es|
    requires ValidRun(es[..n]) && cb in After(es[..n]).callbacks && After(es[..n]).callbacks[cb].ran
    ensures cb in After(es).callbacks && After(es).callbacks[cb].ran
    ensures After(es).callbacks[cb].waitValue == After(es[..n]).callbacks[cb].waitValue
    decreases |es|
  {
    if n == |es| {
      assert es[..n] == es;
    } else {
      var init := es[..|es| - 1];
      assert init[..n] == es[..n];
      RanIsForever(init, n, cb);
      TimelyRunKeepsInv(init);
      StepKeepsRan(After(init), es[|es| - 1], cb);
    }
  }

  ghost predicate SameRan(s: State, s': State, cb: CallbackId)
    requires cb in s.callbacks
  {
    cb in s'.callbacks && s'.callbacks[cb].ran && s'.callbacks[cb].waitValue == s.callbacks[cb].waitValue
  }

  lemma ProcessKeepsRan(s: State, t: ThreadId, sample: nat, now: nat, cb: CallbackId)
    requires t in s.threads && s.threads[t].pc.Ready? && ThreadOk(s, t)
    requires cb in s.callbacks && CallbackOk(s, cb) && s.callbacks[cb].ran
    ensures SameRan(s, ProcessStep(s, t, sample, now), cb)
  {
  }

  lemma ThreadKeepsRan(s: State, e: Event, cb: CallbackId)
    requires OfThread(e) && Enabled(s, e) && cb in s.callbacks && s.callbacks[cb].ran
    ensures SameRan(s, Next(s, e), cb)
  {
  }

  lemma OtherKeepsRan(s: State, e: Event, cb: CallbackId)
    requires !e.ProcessCompleted? && !OfThread(e) && Enabled(s, e) && cb in s.callbacks && s.callbacks[cb].ran
    ensures SameRan(s, Next(s, e), cb)
  {
  }

  lemma StepKeepsRan(s: State, e: Event, cb: CallbackId)
    requires Inv(s) && Enabled(s, e) && cb in s.callbacks && s.callbacks[cb].ran
    ensures SameRan(s, Next(s, e), cb)
  {
    if e.ProcessCompleted? {
      ProcessKeepsRan(s, e.t, e.sample, e.now, cb);
    } else if OfThread(e) {
      ThreadKeepsRan(s, e, cb);
    } else {
      OtherKeepsRan(s, e, cb);
    }
  }

  // ----- memory -----

  /** The callback objects a step reads, writes or frees. `StoreCallback` reads the object it
      displaces but not the new one; `Unregister` passes a handle only. */
  ghost function Touches(s: State, e: Event): set<CallbackId>
    requires Enabled(s, e)
  {
    match e
    case ProcessCompleted(t, _, _) => {s.threads[t].pc.cb}
    case Register(t, _) => {s.threads[t].pc.cb}
    case StoreCallback(t) =>
      if s.ctx.current == s.threads[t].pc.waitValue && s.ctx.local.Some? then {s.ctx.local.value} else {}
    case FreeUnneeded(t) => {s.threads[t].pc.cb}
    case Return(t) => if s.threads[t].origin.Some? then {s.threads[t].origin.value} else {}
    case CallbackWork(_, cb) => {cb}
    case CallbackLocked(cb) => {cb}
    case CallbackProcess(cb, _, _) => {cb}
    case CallbackEnqueue(cb) => {cb}
    case DestroyUnregister => if s.ctx.local.Some? then {s.ctx.local.value} else {}
    case CompletePending => if s.ctx.local.Some? then {s.ctx.local.value} else {}
    case _ => {}
  }

  lemma TouchesAreLive(s: State, e: Event, cb: CallbackId)
    requires Inv(s) && Enabled(s, e) && cb in Touches(s, e)
    ensures cb in s.callbacks && s.callbacks[cb].phase != Freed && s.callbacks[cb].frees == 0
  {
  }

  /** No step of any timely run reads, writes or frees a callback object that has been freed. */
  lemma NoUseAfterFree(es: seq<Event>, e: Event, cb: CallbackId)
    requires ValidRun(es) && TimelyRun(es) && Enabled(After(es), e) && cb in Touches(After(es), e)
    ensures cb in After(es).callbacks && After(es).callbacks[cb].frees == 0
  {
    TimelyRunKeepsInv(es);
    TouchesAreLive(After(es), e, cb);
  }

  /** A callback object is freed at most once on the way, and exactly once when the context is gone. */
  lemma FreedExactlyOnce(es: seq<Event>, cb: CallbackId)
    requires ValidRun(es) && TimelyRun(es) && cb in After(es).callbacks
    ensures After(es).callbacks[cb].frees <= 1
    ensures After(es).stage == Dead ==> After(es).callbacks[cb].frees == 1
  {
    TimelyRunKeepsInv(es);
    var s := After(es);
    assert CallbackOk(s, cb);
    assert StageAllows(s.stage, s.callbacks[cb].phase);
  }

  // ----- why the condition on samples is needed -----

  const F9 := Fence(2, 9, 100)

  ghost predicate AllIdle(s: State) {
    forall p :: p in s.hands ==> s.hands[p] == EMPTY
  }

  lemma DrainLeavesIdle(s: State, s': State, q: Passer)
    requires Drained(s, s', q) && forall p :: p in s.hands && p != q ==> s.hands[p] == EMPTY
    ensures AllIdle(s')
  {
    forall p | p in s'.hands ensures s'.hands[p] == EMPTY {
      assert HandOf(s', p) == if p == q then EMPTY else HandOf(s, p);
    }
  }

  /** What the rest of the run needs to know: threads 2 and 3 and the callbacks they will allocate do not
      exist yet, and callback 10 is not freed. */
  ghost predicate Ahead(s: State) {
    && s.stage == Alive && 2 !in s.threads && 3 !in s.threads
    && 10 in s.callbacks && s.callbacks[10].frees == 0 && 12 !in s.callbacks && 13 !in s.callbacks
  }

  /** Thread 0 is about to install callback 10, registered for value 5. */
  ghost predicate Storing(s: State, phase: Phase) {
    && Ahead(s) && AllIdle(s) && s.ctx.local == None
    && 0 in s.threads && s.threads[0] == Thread(MustStore(10, 5), None)
    && s.callbacks[10].phase == phase && s.callbacks[10].waitValue == 5
  }

  lemma ReachReady() returns (es: seq<Event>)
    ensures ValidRun(es)
    ensures var s := After(es);
      && s == State(0, Context([F5], 0, None, None, []), map[10 := Callback(0, Local, Some(0), false, 0)],
                    map[0 := Thread(Ready(10), None)], [F5], Alive, map[], [], [])
  {
    es := [];
    Extend(es, AddFence(0, F5));
    es := es + [AddFence(0, F5)];
    Extend(es, Alloc(0, 10));
    es := es + [Alloc(0, 10)];
  }

  /** Thread 0 adds a fence for value 5 and registers callback 10 for it. */
  lemma ReachRegistered() returns (es: seq<Event>)
    ensures ValidRun(es) && Storing(After(es), Registered)
    ensures var s := After(es);
      && s.ctx.pending == [F5] && s.added == [F5] && s.ctx.current == 5 && s.semaphore == 0
      && 1 !in s.threads && 11 !in s.callbacks
  {
    es := ReachReady();
    Extend(es, ProcessCompleted(0, 0, 0));
    es := es + [ProcessCompleted(0, 0, 0)];
    Extend(es, Register(0, Success));
    es := es + [Register(0, Success)];
  }

  /** Thread 1 adds another fence for value 5 and is about to take the lock; it has sampled the
      semaphore at 0. */
  ghost predicate Sampled(s: State) {
    && s.ctx.pending == [F5, G5] && s.added == [F5, G5] && s.ctx.current == 5
    && 1 in s.threads && s.threads[1] == Thread(Ready(11), None) && 11 in s.callbacks
  }

  lemma ReachSampled() returns (es: seq<Event>)
    ensures ValidRun(es) && Storing(After(es), Registered) && Sampled(After(es)) && After(es).semaphore == 0
  {
    es := ReachRegistered();
    InsertAt([F5], G5, 1);
    Extend(es, AddFence(1, G5));
    es := es + [AddFence(1, G5)];
    Extend(es, Alloc(1, 11));
    es := es + [Alloc(1, 11)];
  }

  lemma ReachFiring() returns (es: seq<Event>)
    ensures ValidRun(es) && Storing(After(es), Firing) && Sampled(After(es)) && After(es).semaphore == 5
  {
    es := ReachSampled();
    Extend(es, Advance(5));
    es := es + [Advance(5)];
    Extend(es, Fire(10));
    es := es + [Fire(10)];
  }

  /** The semaphore has reached 5 and callback 10 has run its locked section. */
  lemma ReachRetired() returns (es: seq<Event>)
    ensures ValidRun(es) && Storing(After(es), Fired) && After(es).semaphore == 5
    ensures var s := After(es);
      && s.ctx.pending == [F5, G5] && s.added == [F5, G5] && s.ctx.current == 0
      && 1 in s.threads && s.threads[1] == Thread(Ready(11), None) && 11 in s.callbacks
  {
    es := ReachFiring();
    Extend(es, CallbackLocked(10));
    es := es + [CallbackLocked(10)];
  }

  /** Now thread 1 takes the lock. Its old sample makes the context wait for 5 again. */
  lemma ReachStalePass() returns (es: seq<Event>)
    ensures ValidRun(es) && Storing(After(es), Fired)
    ensures var s := After(es);
      s.ctx.pending == [F5, G5] && s.added == [F5, G5] && s.ctx.current == 5 && s.semaphore == 5
  {
    es := ReachRetired();
    Extend(es, ProcessCompleted(1, 0, 0));
    es := es + [ProcessCompleted(1, 0, 0)];
  }

  /** Callback 10 is installed although its locked section has run. */
  ghost predicate Stale(s: State, phase: Phase) {
    && Ahead(s) && AllIdle(s) && s.ctx.local == Some(10) && s.callbacks[10].phase == phase
    && s.added == [F5, G5] && s.semaphore == 5
  }

  lemma ReachStaleStore() returns (es: seq<Event>)
    ensures ValidRun(es) && Stale(After(es), Fired) && After(es).ctx.pending == [F5, G5]
  {
    es := ReachStalePass();
    Extend(es, StoreCallback(0));
    es := es + [StoreCallback(0)];
  }

  lemma SweepBoth()
    ensures Sweep([F5, G5], 5, 0) == Swept([F5, G5], [], [])
  {
    assert [F5, G5][1..] == [G5] && [G5][1..] == [];
    assert Sweep([G5], 5, 0) == Swept([G5], [], []);
  }

  lemma ReachServiced() returns (es: seq<Event>)
    ensures ValidRun(es) && Stale(After(es), Serviced) && After(es).ctx.pending == []
  {
    es := ReachStaleStore();
    SweepBoth();
    Extend(es, CallbackProcess(10, 5, 0));
    es := es + [CallbackProcess(10, 5, 0)];
    var s := After(es);
    es := DrainHand(es, ByCallback(10));
    DrainLeavesIdle(s, After(es), ByCallback(10));
  }

  lemma ReachQueued() returns (es: seq<Event>)
    ensures ValidRun(es) && Stale(After(es), Queued) && After(es).ctx.pending == []
  {
    es := ReachServiced();
    Extend(es, CallbackEnqueue(10));
    es := es + [CallbackEnqueue(10)];
  }

  /** The work item of callback 10 is running on thread 2. */
  ghost predicate Working(s: State) {
    && s.ctx.pending == [] && s.ctx.local == Some(10) && s.added == [F5, G5] && s.semaphore == 5 && s.stage == Alive
    && At(s, 10, InWork(2)) && s.callbacks[10].frees == 0 && 12 in s.callbacks && 13 !in s.callbacks
    && 2 in s.threads && 3 !in s.threads && AllIdle(s)
  }

  lemma ReachWork() returns (es: seq<Event>)
    ensures ValidRun(es) && Working(After(es)) && After(es).threads[2] == Thread(Ready(12), Some(10)) && At(After(es), 12, Local)
  {
    es := ReachQueued();
    Extend(es, CallbackWork(2, 10));
    es := es + [CallbackWork(2, 10)];
    Extend(es, Alloc(2, 12));
    es := es + [Alloc(2, 12)];
  }

  lemma ReachUnneeded() returns (es: seq<Event>)
    ensures ValidRun(es) && Working(After(es)) && After(es).ctx.current == 0
    ensures After(es).threads[2] == Thread(MustFree(12), Some(10)) && At(After(es), 12, Local)
  {
    es := ReachWork();
    Extend(es, ProcessCompleted(2, 5, 0));
    es := es + [ProcessCompleted(2, 5, 0)];
  }

  lemma ReachDone() returns (es: seq<Event>)
    ensures ValidRun(es) && Working(After(es)) && After(es).ctx.current == 0
    ensures After(es).threads[2] == Thread(Done, Some(10))
  {
    es := ReachUnneeded();
    Extend(es, FreeUnneeded(2));
    es := es + [FreeUnneeded(2)];
  }

  /** The work item of callback 10 finds nothing to do and frees it, while it is still installed. */
  lemma StaleSampleLeavesFreedCallback() returns (es: seq<Event>)
    ensures ValidRun(es)
    ensures var s := After(es);
      && s.ctx.local == Some(10) && 10 in s.callbacks && s.callbacks[10].frees == 1
      && s.ctx.pending == [] && s.ctx.current == 0 && s.added == [F5, G5] && s.semaphore == 5 && s.stage == Alive
      && 3 !in s.threads && 13 !in s.callbacks && AllIdle(s)
  {
    es := ReachDone();
    Extend(es, Return(2));
    es := es + [Return(2)];
  }

  lemma ReachThirdFence() returns (es: seq<Event>)
    ensures ValidRun(es)
    ensures var s := After(es);
      && s.ctx.local == Some(10) && 10 in s.callbacks && s.callbacks[10].frees == 1
      && s.ctx.pending == [F9] && s.ctx.current == 0 && s.semaphore == 5
      && 3 in s.threads && s.threads[3] == Thread(Ready(13), None) && 13 in s.callbacks && AllIdle(s)
  {
    es := StaleSampleLeavesFreedCallback();
    Extend(es, AddFence(3, F9));
    es := es + [AddFence(3, F9)];
    Extend(es, Alloc(3, 13));
    es := es + [Alloc(3, 13)];
  }

  /** The next callback that is installed reads the wait value of the freed one it displaces. */
  lemma StaleSampleUsesFreedCallback() returns (es: seq<Event>)
    ensures ValidRun(es) && Enabled(After(es), StoreCallback(3))
    ensures 10 in Touches(After(es), StoreCallback(3)) && 10 in After(es).callbacks && After(es).callbacks[10].frees == 1
  {
    es := ReachThirdFence();
    Extend(es, ProcessCompleted(3, 5, 0));
    es := es + [ProcessCompleted(3, 5, 0)];
    Extend(es, Register(3, Success));
    es := es + [Register(3, Success)];
  }
}
