/** Which passes lead to a use of freed memory. The pass of one thread with a sample that is too old
    lets another thread install a callback that has already run; this module drives such a run on until
    the installed callback has been freed, and shows that no other pass can lead there. */
module SemsurfHarm {
  import opened Options
  import opened PendingFences
  import opened SemsurfContext
  import opened SemsurfProtocol
  import opened SemsurfSafety
  import opened SemsurfFences
  import opened SemsurfTheorems

  /** The context points to a callback that has been freed. The next locked section that stores a
      callback, or the destructor, reads it. */
  ghost predicate InstalledFreed(s: State) {
    s.ctx.local.Some? && s.ctx.local.value in s.callbacks && s.callbacks[s.ctx.local.value].frees == 1
  }

  /** `es'` goes on after `es` with no pass that is too old from event `n` on. */
  ghost predicate TimelyAfter(es: seq<Event>, es': seq<Event>, n: nat) {
    es <= es' && ValidRun(es') && TimelyFrom(es', n)
  }

  lemma Go(es: seq<Event>, n: nat, e: Event)
    requires ValidRun(es) && TimelyFrom(es, n) && Enabled(After(es), e) && !TooOld(After(es), e)
    ensures TimelyAfter(es, es + [e], n) && After(es + [e]) == Next(After(es), e)
  {
    Extend(es, e);
    assert (es + [e])[..|es + [e]| - 1] == es;
  }

  lemma {:induction false} SignalsAreTimely(es: seq<Event>, es': seq<Event>, n: nat)
    requires es <= es' && ValidRun(es) && ValidRun(es') && TimelyFrom(es, n) && OnlySignals(es', |es|)
    ensures TimelyFrom(es', n)
    decreases |es'|
  {
    if |es'| > |es| {
      SignalsAreTimely(es, es'[..|es'| - 1], n);
    } else {
      assert es' == es;
    }
  }

  lemma Drain(es: seq<Event>, n: nat, q: Passer) returns (es': seq<Event>)
    requires ValidRun(es) && TimelyFrom(es, n)
    ensures TimelyAfter(es, es', n) && Drained(After(es), After(es'), q)
  {
    es' := DrainHand(es, q);
    SignalsAreTimely(es, es', n);
  }

  // ----- the work item of the installed callback -----

  /** Callback `c` is installed, has run its locked section and has not been freed. */
  ghost predicate Doomed(s: State, c: CallbackId) {
    && s.ctx.local == Some(c) && c in s.callbacks && s.callbacks[c].frees == 0
    && (s.stage.Alive? || s.stage.GateClosed?)
  }

  /** Thread `u` runs the work item of `c`. */
  ghost predicate Works(s: State, u: ThreadId, c: CallbackId) {
    Doomed(s, c) && u in s.threads && s.threads[u].origin == Some(c)
  }

  lemma Finish(es: seq<Event>, n: nat, u: ThreadId, c: CallbackId) returns (es': seq<Event>)
    requires ValidRun(es) && TimelyFrom(es, n) && Works(After(es), u, c) && After(es).threads[u].pc == Done
    ensures TimelyAfter(es, es', n) && InstalledFreed(After(es'))
  {
    es' := Drain(es, n, ByThread(u));
    Go(es', n, Return(u));
    es' := es' + [Return(u)];
  }

  lemma FinishUnneeded(es: seq<Event>, n: nat, u: ThreadId, c: CallbackId) returns (es': seq<Event>)
    requires ValidRun(es) && TimelyFrom(es, n) && Works(After(es), u, c)
    requires After(es).threads[u].pc.MustFree? && After(es).threads[u].pc.cb != c
    ensures TimelyAfter(es, es', n) && InstalledFreed(After(es'))
  {
    es' := Drain(es, n, ByThread(u));
    Go(es', n, FreeUnneeded(u));
    es' := Finish(es' + [FreeUnneeded(u)], n, u, c);
  }

  lemma FinishCancel(es: seq<Event>, n: nat, u: ThreadId, c: CallbackId) returns (es': seq<Event>)
    requires ValidRun(es) && TimelyFrom(es, n) && Works(After(es), u, c) && !At(After(es), c, Registered)
    requires After(es).threads[u].pc.MustCancel? && After(es).threads[u].pc.cb in After(es).callbacks
    ensures TimelyAfter(es, es', n) && InstalledFreed(After(es'))
  {
    Go(es, n, Unregister(u));
    es' := es + [Unregister(u)];
    if After(es').threads[u].pc == Done {
      es' := Finish(es', n, u, c);
    } else {
      es' := FinishUnneeded(es', n, u, c);
    }
  }

  lemma FinishRegister(es: seq<Event>, n: nat, u: ThreadId, c: CallbackId) returns (es': seq<Event>)
    requires ValidRun(es) && TimelyFrom(es, n) && Works(After(es), u, c) && After(es).threads[u].pc.MustRegister?
    requires After(es).threads[u].pc.cb in After(es).callbacks && After(es).threads[u].pc.cb != c
    ensures TimelyAfter(es, es', n) && InstalledFreed(After(es'))
  {
    es' := Drain(es, n, ByThread(u));
    Go(es', n, Register(u, Failure));
    es' := Finish(es' + [Register(u, Failure)], n, u, c);
  }

  /** A time at which every pending fence has expired. */
  lemma {:induction false} LateEnough(p: seq<Fence>) returns (now: nat)
    ensures forall i :: 0 <= i < |p| ==> p[i].timeout <= now
    decreases |p|
  {
    now := 0;
    if p != [] {
      now := LateEnough(p[1..]);
      now := if now < p[0].timeout then p[0].timeout else now;
    }
  }

  lemma {:induction false} SweepsAll(p: seq<Fence>, sample: nat, now: nat)
    requires forall i :: 0 <= i < |p| ==> p[i].timeout <= now
    ensures Sweep(p, sample, now).rest == []
    decreases |p|
  {
    if p != [] {
      SweepsAll(p[1..], sample, now);
    }
  }

  lemma FinishPass(es: seq<Event>, n: nat, u: ThreadId, c: CallbackId) returns (es': seq<Event>)
    requires ValidRun(es) && TimelyFrom(es, n) && Works(After(es), u, c)
    requires After(es).threads[u].pc.Ready? && After(es).threads[u].pc.cb != c
    ensures TimelyAfter(es, es', n) && InstalledFreed(After(es'))
  {
    es' := Drain(es, n, ByThread(u));
    var s := After(es');
    var now := LateEnough(s.ctx.pending);
    SweepsAll(s.ctx.pending, s.semaphore, now);
    Go(es', n, ProcessCompleted(u, s.semaphore, now));
    es' := FinishUnneeded(es' + [ProcessCompleted(u, s.semaphore, now)], n, u, c);
  }

  lemma FinishStart(es: seq<Event>, n: nat, u: ThreadId, c: CallbackId) returns (es': seq<Event>)
    requires ValidRun(es) && TimelyFrom(es, n) && Works(After(es), u, c) && After(es).threads[u].pc == Begin
    ensures TimelyAfter(es, es', n) && InstalledFreed(After(es'))
  {
    Go(es, n, AllocFail(u));
    es' := Finish(es + [AllocFail(u)], n, u, c);
  }

  lemma FinishWork(es: seq<Event>, n: nat, u: ThreadId, c: CallbackId) returns (es': seq<Event>)
    requires ValidRun(es) && TimelyFrom(es, n) && Works(After(es), u, c) && At(After(es), c, InWork(u))
    requires ThreadShape(After(es), u) && !After(es).threads[u].pc.MustStore?
    ensures TimelyAfter(es, es', n) && InstalledFreed(After(es'))
  {
    match After(es).threads[u].pc
    case Begin => es' := FinishStart(es, n, u, c);
    case Ready(_) => es' := FinishPass(es, n, u, c);
    case MustRegister(_, _) => es' := FinishRegister(es, n, u, c);
    case MustCancel(_) => es' := FinishCancel(es, n, u, c);
    case MustFree(_) => es' := FinishUnneeded(es, n, u, c);
    case Done => es' := Finish(es, n, u, c);
  }

  // ----- from the locked section of the callback to its work item -----

  lemma FreshThread(threads: map<ThreadId, Thread>) returns (t: ThreadId)
    ensures t !in threads
  {
    t := AboveAll(threads.Keys);
  }

  lemma {:induction false} AboveAll(ids: set<nat>) returns (t: nat)
    ensures forall x :: x in ids ==> x < t
    decreases |ids|
  {
    t := 0;
    if ids != {} {
      var x :| x in ids;
      t := AboveAll(ids - {x});
      assert forall y :: y in ids ==> y == x || y in ids - {x};
      t := if t <= x then x + 1 else t;
    }
  }

  lemma FromQueued(es: seq<Event>, n: nat, c: CallbackId) returns (es': seq<Event>)
    requires ValidRun(es) && TimelyFrom(es, n) && Doomed(After(es), c) && At(After(es), c, Queued)
    ensures TimelyAfter(es, es', n) && InstalledFreed(After(es'))
  {
    var u := FreshThread(After(es).threads);
    Go(es, n, CallbackWork(u, c));
    es' := FinishStart(es + [CallbackWork(u, c)], n, u, c);
  }

  lemma FromServiced(es: seq<Event>, n: nat, c: CallbackId) returns (es': seq<Event>)
    requires ValidRun(es) && TimelyFrom(es, n) && Doomed(After(es), c) && At(After(es), c, Serviced)
    ensures TimelyAfter(es, es', n) && InstalledFreed(After(es'))
  {
    es' := Drain(es, n, ByCallback(c));
    Go(es', n, CallbackEnqueue(c));
    es' := es' + [CallbackEnqueue(c)];
    if After(es').stage == Alive {
      es' := FromQueued(es', n, c);
    }
  }

  lemma FromFired(es: seq<Event>, n: nat, c: CallbackId) returns (es': seq<Event>)
    requires ValidRun(es) && TimelyFrom(es, n) && Doomed(After(es), c) && At(After(es), c, Fired)
    ensures TimelyAfter(es, es', n) && InstalledFreed(After(es'))
  {
    es' := Drain(es, n, ByCallback(c));
    var e := CallbackProcess(c, After(es').semaphore, 0);
    Go(es', n, e);
    es' := FromServiced(es' + [e], n, c);
  }

  // ----- installing it -----

  /** Callback `c` is installed although its locked section has run. */
  ghost predicate InstalledRan(s: State, c: CallbackId) {
    && s.ctx.local == Some(c) && c in s.callbacks && !Closed(s.stage)
    && s.callbacks[c].frees == (if s.callbacks[c].phase.Freed? then 1 else 0)
    && (s.callbacks[c].phase.Freed? || AfterLock(s.callbacks[c].phase))
    && (s.callbacks[c].phase.InWork? ==>
          var u := s.callbacks[c].phase.worker;
          Works(s, u, c) && ThreadShape(s, u) && !s.threads[u].pc.MustStore?)
  }

  lemma FromInstalled(es: seq<Event>, n: nat, c: CallbackId) returns (es': seq<Event>)
    requires ValidRun(es) && TimelyFrom(es, n) && InstalledRan(After(es), c)
    ensures TimelyAfter(es, es', n) && InstalledFreed(After(es'))
  {
    match After(es).callbacks[c].phase
    case Freed => es' := es;
    case Fired => es' := FromFired(es, n, c);
    case Serviced => es' := FromServiced(es, n, c);
    case Queued => es' := FromQueued(es, n, c);
    case InWork(u) => es' := FinishWork(es, n, u, c);
  }

  /** The work item of `c`, if it is running on another thread, is not itself about to store. */
  ghost predicate WorkerQuiet(s: State, t: ThreadId, c: CallbackId)
    requires c in s.callbacks
  {
    s.callbacks[c].phase.InWork? && s.callbacks[c].phase.worker != t && s.callbacks[c].phase.worker in s.threads ==>
      !s.threads[s.callbacks[c].phase.worker].pc.MustStore?
  }

  lemma StoreInstalls(s: State, t: ThreadId, c: CallbackId)
    requires Armed(s, t, c) && WorkerQuiet(s, t, c)
    ensures Enabled(s, StoreCallback(t)) && InstalledRan(Next(s, StoreCallback(t)), c)
  {
  }

  lemma FromQuiet(es: seq<Event>, n: nat, t: ThreadId, c: CallbackId) returns (es': seq<Event>)
    requires ValidRun(es) && TimelyFrom(es, n) && Armed(After(es), t, c) && WorkerQuiet(After(es), t, c)
    ensures TimelyAfter(es, es', n) && InstalledFreed(After(es'))
  {
    StoreInstalls(After(es), t, c);
    Go(es, n, StoreCallback(t));
    es' := FromInstalled(es + [StoreCallback(t)], n, c);
  }

  /** The thread that runs the work item of `c` stores first. */
  lemma WorkerStores(s: State, t: ThreadId, c: CallbackId, u: ThreadId)
    requires Armed(s, t, c) && s.callbacks[c].phase == InWork(u) && u != t && s.threads[u].pc.MustStore?
    ensures Enabled(s, StoreCallback(u))
    ensures var s' := Next(s, StoreCallback(u)); Armed(s', t, c) && WorkerQuiet(s', t, c)
  {
    var s', d := Next(s, StoreCallback(u)), s.threads[u].pc.cb;
    assert d != c && s.ctx.local != Some(c);
    assert s'.callbacks[c] == s.callbacks[c] && s'.threads[t] == s.threads[t];
  }

  lemma FromArmed(es: seq<Event>, n: nat, t: ThreadId, c: CallbackId) returns (es': seq<Event>)
    requires ValidRun(es) && TimelyFrom(es, n) && Armed(After(es), t, c)
    ensures TimelyAfter(es, es', n) && InstalledFreed(After(es'))
  {
    var s := After(es);
    if WorkerQuiet(s, t, c) {
      es' := FromQuiet(es, n, t, c);
    } else {
      var u := s.callbacks[c].phase.worker;
      WorkerStores(s, t, c, u);
      Go(es, n, StoreCallback(u));
      es' := FromQuiet(es + [StoreCallback(u)], n, t, c);
    }
  }

  // ----- exactly the passes that are too old -----

  lemma {:induction false} TimelyAfterPass(es: seq<Event>, e: Event, es': seq<Event>)
    requires ValidRun(es) && TimelyRun(es) && Enabled(After(es), e) && !TooOld(After(es), e)
    requires es + [e] <= es' && ValidRun(es') && TimelyFrom(es', |es| + 1)
    ensures TimelyRun(es')
    decreases |es'|
  {
    var init := es'[..|es'| - 1];
    if |es'| == |es| + 1 {
      assert es' == es + [e] && init == es;
    } else {
      assert es + [e] <= init;
      TimelyAfterPass(es, e, init);
    }
  }

  /** A run that goes on after `es` and the pass `e`, with no further pass that is too old, and leaves
      installed a callback that has been freed. */
  ghost predicate Harm(es: seq<Event>, e: Event, es': seq<Event>) {
    TimelyAfter(es + [e], es', |es| + 1) && InstalledFreed(After(es'))
  }

  lemma TooOldDoesHarm(es: seq<Event>, e: Event) returns (es': seq<Event>)
    requires ValidRun(es) && TimelyRun(es) && Enabled(After(es), e) && TooOld(After(es), e)
    ensures Harm(es, e, es')
  {
    TimelyRunKeepsInv(es);
    RunKeepsLine(es);
    var t, c := TooOldArms(After(es), e);
    Extend(es, e);
    es' := FromArmed(es + [e], |es| + 1, t, c);
  }

  /** A pass can lead to a freed callback that is still installed if and only if its sample is too old. */
  lemma PassDoesHarmIff(es: seq<Event>, e: Event)
    requires ValidRun(es) && TimelyRun(es) && Enabled(After(es), e) && e.ProcessCompleted?
    ensures (exists es' :: Harm(es, e, es')) <==> TooOld(After(es), e)
  {
    if TooOld(After(es), e) {
      var es' := TooOldDoesHarm(es, e);
    } else {
      forall es' ensures !Harm(es, e, es') {
        if TimelyAfter(es + [e], es', |es| + 1) {
          TimelyAfterPass(es, e, es');
          InstalledNotFreed(es');
        }
      }
    }
  }

  lemma InstalledNotFreed(es: seq<Event>)
    requires ValidRun(es) && TimelyRun(es)
    ensures !InstalledFreed(After(es))
  {
    TimelyRunKeepsInv(es);
    var s := After(es);
    assert s.ctx.local.Some? ==> CallbackOk(s, s.ctx.local.value);
  }
}
