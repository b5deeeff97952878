/** The work thread of kernel-open/nvidia-drm/nvidia-drm-os-interface.c: a work queue behind a gate.
    Adders hold the gate's lock while they schedule; shutting down closes the gate, then stops the
    queue (two raw flushes, the exit flag, the exit token, and waiting for the kthread to end). */
module Workthread {
  import opened KthreadQueue

  /** Progress of `nv_drm_workthread_shutdown`. */
  datatype Stage =
    | Open
    | Flushing(done: nat)      // between raw flushes, `done` of them complete
    | FlushUp(done: nat)       // the flush item is queued, the semaphore not yet raised
    | FlushWait(done: nat)     // waiting for the flush item to run
    | Stopping                 // both flushes done
    | ExitSet                  // exit flag set
    | Joining                  // exit token given
    | Returned

  /** `adding` says that an adder holds the lock between inserting and raising the semaphore;
      `closedAt` is the number of acceptances when the gate closed. */
  datatype State = State(q: Queue, shuttingDown: bool, adding: bool, stage: Stage, closedAt: nat)

  const INITIAL := State(EMPTY, false, false, Open, 0)

  datatype WorkEvent =
    | Add(id: nat, inside: bool)   // nv_drm_workthread_add_work, up to the insertion
    | AddUp                        // ... and the rest of it
    | WorkerStep(e: Event)
    | CloseGate
    | FlushInsert(id: nat)
    | FlushRaise
    | FlushDone
    | StopSetExit
    | StopExitUp
    | Join

  predicate IsWorkerEvent(e: Event) {
    e.Down? || e.ReadFlag? || e.Take? || e.Finish?
  }

  predicate CanStep(s: State, e: WorkEvent) {
    match e
    case Add(_, inside) => !s.adding && (inside ==> s.q.worker.Running?)
    case AddUp => s.adding && s.q.ups > 0
    case WorkerStep(qe) => IsWorkerEvent(qe) && Enabled(s.q, qe)
    case CloseGate => !s.adding && s.stage == Open
    case FlushInsert(id) => s.stage.Flushing? && s.stage.done < 2 && !Contains(s.q.list, Flush(id))
    case FlushRaise => s.stage.FlushUp? && s.q.ups > 0
    case FlushDone => s.stage.FlushWait? && |s.q.started| >= s.closedAt + s.stage.done + 1
    case StopSetExit => s.stage == Stopping && !s.q.exit
    case StopExitUp => s.stage == ExitSet && s.q.exit && s.q.exitUps == 0
    case Join => s.stage == Joining && s.q.worker == Exited
  }

  /** What `nv_drm_workthread_add_work` answers when it gets the lock in state `s`. */
  predicate Accepts(s: State, id: nat) {
    !s.shuttingDown && !s.q.exit && !Contains(s.q.list, Work(id))
  }

  function Step(s: State, e: WorkEvent): State
    requires CanStep(s, e)
  {
    match e
    case Add(id, inside) =>
      if Accepts(s, id) then s.(q := Append(s.q, Work(id), inside), adding := true) else s
    case AddUp => s.(q := Next(s.q, Up), adding := false)
    case WorkerStep(qe) => s.(q := Next(s.q, qe))
    case CloseGate => s.(shuttingDown := true, stage := Flushing(0), closedAt := |s.q.accepted|)
    case FlushInsert(id) => s.(q := Append(s.q, Flush(id), false), stage := FlushUp(s.stage.done))
    case FlushRaise => s.(q := Next(s.q, Up), stage := FlushWait(s.stage.done))
    case FlushDone => s.(stage := if s.stage.done == 0 then Flushing(1) else Stopping)
    case StopSetExit => s.(q := Next(s.q, SetExit), stage := ExitSet)
    case StopExitUp => s.(q := Next(s.q, ExitUp), stage := Joining)
    case Join => s.(stage := Returned)
  }

  // ----- the invariant -----

  function FlushesAccepted(stage: Stage): nat {
    match stage
    case Open => 0
    case Flushing(done) => done
    case FlushUp(done) => done + 1
    case FlushWait(done) => done + 1
    case _ => 2
  }

  function FlushesRun(stage: Stage): nat {
    match stage
    case Open => 0
    case Flushing(done) => done
    case FlushUp(done) => done
    case FlushWait(done) => done
    case _ => 2
  }

  ghost predicate Inv(s: State) {
    && KthreadQueue.Inv(s.q)
    && s.q.ups == (if s.adding then 1 else 0) + (if s.stage.FlushUp? then 1 else 0)
    && (s.shuttingDown <==> s.stage != Open)
    && (s.adding ==> s.stage == Open)
    && (s.q.exit <==> s.stage == ExitSet || s.stage == Joining || s.stage == Returned)
    && (s.q.exitUps == 1 <==> s.stage == Joining || s.stage == Returned)
    && (s.stage == Returned ==> s.q.worker == Exited)
    // After the gate closes only the flush items are accepted, one after the other.
    && (s.stage != Open ==>
          && |s.q.accepted| == s.closedAt + FlushesAccepted(s.stage)
          && FlushesAccepted(s.stage) <= 2
          && (FlushesRun(s.stage) > 0 ==> |s.q.started| >= s.closedAt + FlushesRun(s.stage)))
  }

  lemma StepKeepsInv(s: State, e: WorkEvent)
    requires Inv(s) && CanStep(s, e)
    ensures Inv(Step(s, e))
  {
    match e
    case Add(id, inside) => KthreadQueue.StepKeepsInv(s.q, Insert(Work(id), inside));
    case AddUp => KthreadQueue.StepKeepsInv(s.q, Up);
    case WorkerStep(qe) => KthreadQueue.StepKeepsInv(s.q, qe);
    case FlushInsert(id) => KthreadQueue.StepKeepsInv(s.q, Insert(Flush(id), false));
    case FlushRaise => KthreadQueue.StepKeepsInv(s.q, Up);
    case StopSetExit => KthreadQueue.StepKeepsInv(s.q, SetExit);
    case StopExitUp => KthreadQueue.StepKeepsInv(s.q, ExitUp);
    case _ =>
  }

  // ----- runs -----

  ghost predicate ValidRun(es: seq<WorkEvent>)
    decreases |es|, 0
  {
    es == [] || (ValidRun(es[..|es| - 1]) && CanStep(After(es[..|es| - 1]), es[|es| - 1]))
  }

  ghost function After(es: seq<WorkEvent>): State
    requires ValidRun(es)
    decreases |es|, 1
  {
    if es == [] then INITIAL else Step(After(es[..|es| - 1]), es[|es| - 1])
  }

  lemma {:induction false} RunKeepsInv(es: seq<WorkEvent>)
    requires ValidRun(es)
    ensures Inv(After(es))
    decreases |es|
  {
    if es != [] {
      RunKeepsInv(es[..|es| - 1]);
      StepKeepsInv(After(es[..|es| - 1]), es[|es| - 1]);
    }
  }

  /** When shutting down returns, everything that was ever accepted has run to its end, once per
      acceptance and in order, nothing is left in the list, and no later add is accepted. */
  lemma ShutdownRunsAllAccepted(es: seq<WorkEvent>)
    requires ValidRun(es) && After(es).stage == Returned
    ensures var s := After(es);
      && s.q.started == s.q.accepted
      && s.q.list == []
      && !s.q.worker.Running?
      && !s.q.warned
      && forall id :: !Accepts(s, id)
  {
    RunKeepsInv(es);
  }

  /** From the moment the gate closes no work item is accepted any more, whoever calls, and the worker
      has nothing but flush items to do once the first flush is over. */
  lemma NothingAcceptedAfterClose(es: seq<WorkEvent>, n: nat)
    requires ValidRun(es) && n <= |es| && ValidRun(es[..n]) && After(es[..n]).shuttingDown
    ensures After(es).shuttingDown && After(es).closedAt == After(es[..n]).closedAt
    ensures forall id :: !Accepts(After(es), id)
    decreases |es|
  {
    if n < |es| {
      assert es[..|es| - 1][..n] == es[..n];
      NothingAcceptedAfterClose(es[..|es| - 1], n);
      RunKeepsInv(es[..|es| - 1]);
    } else {
      assert es[..n] == es;
    }
  }

  /** The queue never gets stuck on the way: while the flush item waits to run, or the exit token
      has been given, the worker can take a step. */
  lemma ShutdownNeverStuck(es: seq<WorkEvent>)
    requires ValidRun(es)
    ensures var s := After(es);
      (s.stage.FlushWait? && !CanStep(s, FlushDone)) || (s.stage == Joining && s.q.worker != Exited) ==>
        exists qe :: CanStep(s, WorkerStep(qe))
  {
    RunKeepsInv(es);
    var s := After(es);
    match s.q.worker
    case Waiting =>
      if s.q.tokens > 0 { assert CanStep(s, WorkerStep(Down)); }
    case HasToken => assert CanStep(s, WorkerStep(ReadFlag));
    case Cleared => assert CanStep(s, WorkerStep(Take));
    case Running(_) => assert CanStep(s, WorkerStep(Finish));
    case Exited =>
  }
}
