/** The fence-context protocol of kernel-open/nvidia-drm/nvidia-drm-fence.c as a transition system.

    Any number of threads run `__nv_drm_semsurf_ctx_reg_callbacks` at once, while NVKMS fires or
    cancels the callbacks that were registered with it. A section of code under the context lock is
    one step; a pass signals and puts the fences it took in later steps, one by one. NVKMS and the GPU
    are the environment: a registration may succeed, find the value already reached, or fail; a
    registered callback fires at any time after the semaphore reached its value; unregistering
    succeeds exactly while the callback has not started. */
module SemsurfProtocol {
  import opened Options
  import opened PendingFences
  import opened SemsurfContext

  type ThreadId = nat

  /** The life of a `struct nv_drm_semsurf_fence_callback`. */
  datatype Phase =
    | Local                     // allocated, not registered
    | Registered                // owned by NVKMS
    | Firing                    // NVKMS has called it; its locked section has not run
    | Fired                     // its locked section has run
    | Serviced                  // it has processed completed fences
    | Queued                    // its work item waits on the work thread
    | InWork(worker: ThreadId)  // its work item is running
    | Cancelled                 // unregistered; whoever did that frees it
    | Freed

  /** `holder` is the thread whose program counter names the callback; `ran` says that the locked
      section of the callback has run; `frees` counts the calls that free the object. */
  datatype Callback = Callback(waitValue: nat, phase: Phase, holder: Option<ThreadId>, ran: bool, frees: nat)

  /** Where a thread is in `__nv_drm_semsurf_ctx_reg_callbacks`. */
  datatype Pc =
    | Begin
    | Ready(cb: CallbackId)                        // top of the loop
    | MustRegister(cb: CallbackId, waitValue: nat)
    | MustStore(cb: CallbackId, waitValue: nat)
    | MustCancel(cb: CallbackId)
    | MustFree(cb: CallbackId)                     // not needed, or cancelled
    | Done

  /** `origin` is the callback whose work item this call serves, if any; it is freed on return. */
  datatype Thread = Thread(pc: Pc, origin: Option<CallbackId>)

  /** Progress of `__nv_drm_semsurf_fence_ctx_destroy`. */
  datatype Stage = Alive | GateClosed | Unregistered | SurfaceFreed | Completing | Dead

  /** Who makes a pass over the pending list. */
  datatype Passer = ByThread(t: ThreadId) | ByCallback(cb: CallbackId) | ByDestructor

  /** What a pass has taken off the list and still has to signal, after it has dropped the lock, and the
      fence it has signalled but not yet put. */
  datatype Hand = Hand(todo: seq<Signal>, drop: Option<Fence>)

  /** `signaled` and `puts` are the calls of `dma_fence_signal` and `dma_fence_put` so far. */
  datatype State = State(
    semaphore: nat,
    ctx: Context,
    callbacks: map<CallbackId, Callback>,
    threads: map<ThreadId, Thread>,
    added: seq<Fence>,
    stage: Stage,
    hands: map<Passer, Hand>,
    signaled: seq<Signal>,
    puts: seq<Fence>)

  datatype Registration = Success | AlreadySignalled | Failure

  datatype Event =
    | Advance(value: nat)
    | AddFence(t: ThreadId, fence: Fence)
    | TimeoutWork(t: ThreadId)
    | CallbackWork(t: ThreadId, cb: CallbackId)
    | Alloc(t: ThreadId, cb: CallbackId)
    | AllocFail(t: ThreadId)
    | ProcessCompleted(t: ThreadId, sample: nat, now: nat)
    | Register(t: ThreadId, result: Registration)
    | StoreCallback(t: ThreadId)
    | Unregister(t: ThreadId)
    | FreeUnneeded(t: ThreadId)
    | Return(t: ThreadId)
    | Fire(cb: CallbackId)
    | CallbackLocked(cb: CallbackId)
    | CallbackProcess(cb: CallbackId, sample: nat, now: nat)
    | CallbackEnqueue(cb: CallbackId)
    | CloseGate
    | SignalNext(p: Passer)
    | PutNext(p: Passer)
    | DestroyUnregister
    | FreeSurface
    | CompletePending
    | FreeContext

  const INITIAL := State(0, Context([], 0, None, None, []), map[], map[], [], Alive, map[], [], [])

  // ----- steps -----

  predicate At(s: State, cb: CallbackId, phase: Phase) {
    cb in s.callbacks && s.callbacks[cb].phase == phase
  }

  /** The callback a program counter names. */
  function PcCallback(pc: Pc): Option<CallbackId> {
    match pc
    case Begin | Done => None
    case Ready(cb) => Some(cb)
    case MustRegister(cb, _) => Some(cb)
    case MustStore(cb, _) => Some(cb)
    case MustCancel(cb) => Some(cb)
    case MustFree(cb) => Some(cb)
  }

  const EMPTY := Hand([], None)

  function HandOf(s: State, p: Passer): Hand {
    if p in s.hands then s.hands[p] else EMPTY
  }

  /** The pass, if any, has signalled and put everything it took. */
  predicate Idle(s: State, p: Passer) {
    HandOf(s, p) == EMPTY
  }

  /** A pass goes on only when its hand is empty. Nothing is assumed of samples here. */
  predicate Enabled(s: State, e: Event) {
    match e
    case Advance(v) => s.semaphore <= v
    case AddFence(t, f) => s.stage == Alive && t !in s.threads && forall i :: 0 <= i < |s.added| ==> s.added[i].id != f.id
    case TimeoutWork(t) => (s.stage.Alive? || s.stage.GateClosed?) && t !in s.threads
    case CallbackWork(t, cb) => (s.stage.Alive? || s.stage.GateClosed?) && t !in s.threads && At(s, cb, Queued)
    case Alloc(t, cb) => t in s.threads && s.threads[t].pc == Begin && cb !in s.callbacks
    case AllocFail(t) => t in s.threads && s.threads[t].pc == Begin
    case ProcessCompleted(t, _, _) => t in s.threads && s.threads[t].pc.Ready? && Idle(s, ByThread(t))
    case Register(t, r) => t in s.threads && s.threads[t].pc.MustRegister? && s.threads[t].pc.cb in s.callbacks
      && Idle(s, ByThread(t))
      && (r == AlreadySignalled ==> s.threads[t].pc.waitValue <= s.semaphore)
    case StoreCallback(t) => t in s.threads && s.threads[t].pc.MustStore? && s.threads[t].pc.cb in s.callbacks
    case Unregister(t) => t in s.threads && s.threads[t].pc.MustCancel? && s.threads[t].pc.cb in s.callbacks
    case FreeUnneeded(t) => t in s.threads && s.threads[t].pc.MustFree? && Idle(s, ByThread(t))
    case Return(t) => t in s.threads && s.threads[t].pc == Done && Idle(s, ByThread(t))
    case Fire(cb) => At(s, cb, Registered) && s.callbacks[cb].waitValue <= s.semaphore && !Over(s.stage)
    case CallbackLocked(cb) => At(s, cb, Firing)
    case CallbackProcess(cb, _, _) => At(s, cb, Fired) && Idle(s, ByCallback(cb))
    case CallbackEnqueue(cb) => At(s, cb, Serviced) && Idle(s, ByCallback(cb))
    case SignalNext(p) => HandOf(s, p).todo != [] && HandOf(s, p).drop == None
    case PutNext(p) => HandOf(s, p).drop.Some?
    // The destructor runs when the last reference to the context is gone: no call to create a
    // fence is in progress, but work items may still be.
    case CloseGate => s.stage == Alive
    // Shutting down the work thread has returned: no work item is queued or running.
    case DestroyUnregister => s.stage == GateClosed && s.threads == map[]
      && forall cb :: cb in s.callbacks ==> s.callbacks[cb].phase != Queued
    // Freeing the surface waits for the callbacks that have started.
    case FreeSurface => s.stage == Unregistered
      && (forall cb :: cb in s.callbacks ==> !InCall(s.callbacks[cb].phase))
      && (forall p :: p in s.hands && p.ByCallback? ==> s.hands[p] == EMPTY)
    case CompletePending => s.stage == SurfaceFreed && Idle(s, ByDestructor)
    case FreeContext => s.stage == Completing && Idle(s, ByDestructor)
  }

  /** NVKMS has called the callback, and the call has not returned. */
  predicate InCall(p: Phase) {
    p.Firing? || p.Fired? || p.Serviced?
  }

  /** Freeing the surface has returned. */
  predicate Over(stage: Stage) {
    stage.SurfaceFreed? || stage.Completing? || stage.Dead?
  }

  function SetPc(s: State, t: ThreadId, pc: Pc): State
    requires t in s.threads
  {
    s.(threads := s.threads[t := s.threads[t].(pc := pc)])
  }

  function SetPhase(s: State, cb: CallbackId, phase: Phase): State
    requires cb in s.callbacks
  {
    s.(callbacks := s.callbacks[cb := s.callbacks[cb].(phase := phase)])
  }

  function Release(s: State, cb: CallbackId): State {
    if cb !in s.callbacks then s
    else s.(callbacks := s.callbacks[cb := s.callbacks[cb].(holder := None)])
  }

  /** `nv_drm_free` of a callback object. */
  function Free(s: State, cb: CallbackId): State {
    if cb !in s.callbacks then s
    else s.(callbacks := s.callbacks[cb := s.callbacks[cb].(phase := Freed, frees := s.callbacks[cb].frees + 1)])
  }

  /** A thread frees the callback its program counter names, and forgets it. */
  function FreeOwn(s: State, cb: CallbackId): State {
    Release(Free(s, cb), cb)
  }

  function ProcessStep(s: State, t: ThreadId, sample: nat, now: nat): State
    requires t in s.threads && s.threads[t].pc.Ready?
  {
    var cb := s.threads[t].pc.cb;
    var p := Process(s.ctx, sample, now, true);
    var s' := s.(ctx := p.ctx, hands := s.hands[ByThread(t) := Hand(p.hand, None)]);
    if p.waitValue == 0 || cb !in s.callbacks then SetPc(s', t, MustFree(cb))
    else SetPc(s'.(callbacks := s.callbacks[cb := s.callbacks[cb].(waitValue := p.waitValue)]), t, MustRegister(cb, p.waitValue))
  }

  function RegisterStep(s: State, t: ThreadId, r: Registration): State
    requires t in s.threads && s.threads[t].pc.MustRegister? && s.threads[t].pc.cb in s.callbacks
  {
    var MustRegister(cb, w) := s.threads[t].pc;
    match r
    case Success => SetPc(SetPhase(s, cb, Registered), t, MustStore(cb, w))
    case AlreadySignalled => SetPc(s, t, Ready(cb))
    case Failure => SetPc(FreeOwn(s, cb), t, Done)
  }

  function StoreStep(s: State, t: ThreadId): State
    requires t in s.threads && s.threads[t].pc.MustStore? && s.threads[t].pc.cb in s.callbacks
  {
    var MustStore(cb, w) := s.threads[t].pc;
    var r := Store(s.ctx, w, cb);
    if !r.installed then SetPc(s, t, MustCancel(cb))
    else
      var s' := Release(s.(ctx := r.ctx), cb);
      match r.displaced
      case Some(prev) =>
        if prev !in s'.callbacks then SetPc(s', t, Done)
        else SetPc(s'.(callbacks := s'.callbacks[prev := s'.callbacks[prev].(holder := Some(t))]), t, MustCancel(prev))
      case None => SetPc(s', t, Done)
  }

  /** Unregistering succeeds exactly while NVKMS has not called the callback. */
  function UnregisterStep(s: State, t: ThreadId): State
    requires t in s.threads && s.threads[t].pc.MustCancel? && s.threads[t].pc.cb in s.callbacks
  {
    var cb := s.threads[t].pc.cb;
    if s.callbacks[cb].phase == Registered then SetPc(SetPhase(s, cb, Cancelled), t, MustFree(cb))
    else SetPc(Release(s, cb), t, Done)
  }

  function ReturnStep(s: State, t: ThreadId): State
    requires t in s.threads
  {
    var s' := match s.threads[t].origin
              case Some(cb) => Free(s, cb)
              case None => s;
    s'.(threads := s.threads - {t})
  }

  function DestroyUnregisterStep(s: State): State {
    var s' := s.(stage := Unregistered);
    match s.ctx.nvKms
    case Some(cb) => if At(s, cb, Registered) then SetPhase(s', cb, Cancelled) else s'
    case None => s'
  }

  function CallbackProcessStep(s: State, cb: CallbackId, sample: nat, now: nat): State
    requires cb in s.callbacks
  {
    var p := Process(s.ctx, sample, now, false);
    SetPhase(s.(ctx := p.ctx, hands := s.hands[ByCallback(cb) := Hand(p.hand, None)]), cb, Serviced)
  }

  /** The destructor frees the installed callback and takes all pending fences. */
  function CompletePendingStep(s: State): State {
    var s' := match s.ctx.local
              case Some(cb) => Free(s, cb)
              case None => s;
    s'.(ctx := ForceComplete(s.ctx.(local := None, nvKms := None)), stage := Completing,
        hands := s.hands[ByDestructor := Hand(Signals(s.ctx.pending, true), None)])
  }

  function SignalStep(s: State, p: Passer): State
    requires HandOf(s, p).todo != []
  {
    var todo := HandOf(s, p).todo;
    s.(hands := s.hands[p := Hand(todo[1..], Some(todo[0].fence))], signaled := s.signaled + [todo[0]])
  }

  function PutStep(s: State, p: Passer): State
    requires HandOf(s, p).drop.Some?
  {
    s.(hands := s.hands[p := HandOf(s, p).(drop := None)], puts := s.puts + [HandOf(s, p).drop.value])
  }

  function Next(s: State, e: Event): State
    requires Enabled(s, e)
  {
    match e
    case Advance(v) => s.(semaphore := v)
    case AddFence(t, f) =>
      s.(ctx := AddPending(s.ctx, f), added := s.added + [f], threads := s.threads[t := Thread(Begin, None)])
    case TimeoutWork(t) => s.(threads := s.threads[t := Thread(Begin, None)])
    case CallbackWork(t, cb) => SetPhase(s.(threads := s.threads[t := Thread(Begin, Some(cb))]), cb, InWork(t))
    case Alloc(t, cb) =>
      SetPc(s.(callbacks := s.callbacks[cb := Callback(0, Local, Some(t), false, 0)]), t, Ready(cb))
    case AllocFail(t) => SetPc(s, t, Done)
    case ProcessCompleted(t, sample, now) => ProcessStep(s, t, sample, now)
    case Register(t, r) => RegisterStep(s, t, r)
    case StoreCallback(t) => StoreStep(s, t)
    case Unregister(t) => UnregisterStep(s, t)
    case FreeUnneeded(t) => SetPc(FreeOwn(s, s.threads[t].pc.cb), t, Done)
    case Return(t) => ReturnStep(s, t)
    case Fire(cb) => SetPhase(s, cb, Firing)
    case CallbackLocked(cb) =>
      s.(ctx := Retire(s.ctx, cb, s.callbacks[cb].waitValue),
         callbacks := s.callbacks[cb := s.callbacks[cb].(phase := Fired, ran := true)])
    case CallbackProcess(cb, sample, now) => CallbackProcessStep(s, cb, sample, now)
    // `nv_drm_workthread_add_work` refuses once the context is shutting down.
    case CallbackEnqueue(cb) => if s.stage == Alive then SetPhase(s, cb, Queued) else Free(s, cb)
    case CloseGate => s.(stage := GateClosed)
    case DestroyUnregister => DestroyUnregisterStep(s)
    case FreeSurface => s.(stage := SurfaceFreed)
    case SignalNext(p) => SignalStep(s, p)
    case PutNext(p) => PutStep(s, p)
    case CompletePending => CompletePendingStep(s)
    case FreeContext => s.(stage := Dead)
  }

  // ----- runs -----

  /** The events can happen in this order, starting from a new context. */
  ghost predicate ValidRun(es: seq<Event>)
    decreases |es|, 0
  {
    es == [] || (ValidRun(es[..|es| - 1]) && Enabled(After(es[..|es| - 1]), es[|es| - 1]))
  }

  ghost function After(es: seq<Event>): State
    requires ValidRun(es)
    decreases |es|, 1
  {
    if es == [] then INITIAL else Next(After(es[..|es| - 1]), es[|es| - 1])
  }

  lemma Extend(es: seq<Event>, e: Event)
    requires ValidRun(es) && Enabled(After(es), e)
    ensures ValidRun(es + [e]) && After(es + [e]) == Next(After(es), e)
  {
    var es' := es + [e];
    assert es'[..|es'| - 1] == es;
  }
}
