/** `struct nv_drm_semsurf_fence_ctx` and the sections of code that run under its lock
    (kernel-open/nvidia-drm/nvidia-drm-fence.c). */
module SemsurfContext {
  import opened Options
  import opened PendingFences

  /** A callback object; the NVKMS handle of its registration carries the same name. */
  type CallbackId = nat

  /** One call of `dma_fence_signal`, with or without the error -ETIMEDOUT. */
  datatype Signal = Signal(fence: Fence, timedOut: bool)

  /** The lock-protected fields, and the fences that have left the pending list, in that order. */
  datatype Context = Context(
    pending: seq<Fence>,
    current: nat,
    local: Option<CallbackId>,
    nvKms: Option<CallbackId>,
    taken: seq<Fence>)

  function Signals(fences: seq<Fence>, timedOut: bool): (r: seq<Signal>)
    ensures |r| == |fences|
    ensures forall i :: 0 <= i < |r| ==> r[i] == Signal(fences[i], timedOut)
  {
    seq(|fences|, i requires 0 <= i < |fences| => Signal(fences[i], timedOut))
  }

  // ----- what each locked section does to the context -----

  function AddPending(c: Context, f: Fence): Context {
    c.(pending := Insert(c.pending, f))
  }

  /** `hand` is what the pass will signal once it has dropped the lock. */
  datatype Processed = Processed(ctx: Context, waitValue: nat, timeout: nat, hand: seq<Signal>)

  /** `report` says whether the caller passes the out parameters; the result 0 means that the caller
      has nothing to register. */
  function Process(c: Context, sample: nat, now: nat, report: bool): Processed {
    var w := Sweep(c.pending, sample, now);
    var c' := c.(pending := w.rest, taken := c.taken + w.finished + w.timedOut);
    var hand := Signals(w.finished, false) + Signals(w.timedOut, true);
    if !report then Processed(c', 0, 0, hand)
    else if w.rest == [] then Processed(c'.(current := 0), 0, 0, hand)
    else if w.rest[0].seqno == c.current then Processed(c', 0, 0, hand)
    else Processed(c'.(current := w.rest[0].seqno), w.rest[0].seqno, w.rest[0].timeout, hand)
  }

  /** Zero is a safe answer for "nothing to register": a fence that a pass leaves on the list waits for
      a value that is not zero, so the answer is zero exactly when the list is empty or its head
      already has the waiter of the context. */
  lemma ZeroMeansNothingToRegister(c: Context, sample: nat, now: nat)
    requires Sorted(c.pending)
    ensures var p := Process(c, sample, now, true);
      && (p.waitValue == 0 <==> p.ctx.pending == [] || p.ctx.pending[0].seqno == c.current)
      && (p.ctx.pending == [] ==> p.ctx.current == 0)
      && (p.ctx.pending != [] ==> p.ctx.current == p.ctx.pending[0].seqno > 0)
  {
    SweepMeaning(c.pending, sample, now);
  }

  /** A callback that fires forgets itself, and stops a store of itself that has not happened yet. */
  function Retire(c: Context, cb: CallbackId, waitValue: nat): Context {
    var c' := if c.local == Some(cb) then c.(local := None, nvKms := None) else c;
    if c'.current == waitValue then c'.(current := 0) else c'
  }

  datatype Stored = Stored(ctx: Context, installed: bool, displaced: Option<CallbackId>)

  function Store(c: Context, waitValue: nat, cb: CallbackId): Stored {
    if c.current == waitValue then Stored(c.(local := Some(cb), nvKms := Some(cb)), true, c.local)
    else Stored(c, false, None)
  }

  function ForceComplete(c: Context): Context {
    c.(pending := [], taken := c.taken + c.pending)
  }

  lemma TwoMore<T>(a: seq<T>, b: seq<T>, c: seq<T>)
    ensures a + b + c == a + (b + c) && (a + b + c)[|a|..] == b + c
  {
  }

  lemma MoveHead<T>(a: seq<T>, b: seq<T>)
    requires b != []
    ensures (a + [b[0]]) + b[1..] == a + b
  {
  }

  // ----- the object itself -----

  class SemsurfFenceCtx {
    var pendingFences: seq<Fence>
    var currentWaitValue: nat
    var callbackLocal: Option<CallbackId>
    var callbackNvKms: Option<CallbackId>
    ghost var taken: seq<Fence>
    var signaled: seq<Signal>
    var puts: seq<Fence>

    ghost function View(): Context
      reads this
    {
      Context(pendingFences, currentWaitValue, callbackLocal, callbackNvKms, taken)
    }

    constructor ()
      ensures View() == Context([], 0, None, None, []) && signaled == [] && puts == []
    {
      pendingFences, currentWaitValue, callbackLocal, callbackNvKms := [], 0, None, None;
      taken, signaled, puts := [], [], [];
    }

    /** `__nv_drm_semsurf_ctx_add_pending`: walk to the first fence with a larger value. */
    method AddPendingFence(f: Fence)
      modifies this
      ensures View() == AddPending(old(View()), f)
    {
      var k := 0;
      while k < |pendingFences| && pendingFences[k].seqno <= f.seqno
        invariant 0 <= k <= |pendingFences|
        invariant View() == old(View())
        invariant forall i :: 0 <= i < k ==> pendingFences[i].seqno <= f.seqno
      {
        k := k + 1;
      }
      InsertAt(pendingFences, f, k);
      pendingFences := pendingFences[..k] + [f] + pendingFences[k..];
    }

    /** The locked section of `__nv_drm_semsurf_ctx_process_completed`. */
    method TakeCompleted(sample: nat, now: nat, report: bool)
      returns (waitValue: nat, timeout: nat, finished: seq<Fence>, timedOut: seq<Fence>)
      modifies this
      ensures Processed(View(), waitValue, timeout, Signals(finished, false) + Signals(timedOut, true))
           == Process(old(View()), sample, now, report)
      ensures taken == old(taken) + finished + timedOut
      ensures unchanged(`signaled) && unchanged(`puts)
    {
      ghost var all := pendingFences;
      finished, timedOut := [], [];
      waitValue, timeout := 0, 0;
      while pendingFences != []
        invariant View() == old(View()).(pending := pendingFences) && unchanged(`signaled) && unchanged(`puts)
        invariant Sweep(all, sample, now) == var w := Sweep(pendingFences, sample, now);
          Swept(finished + w.finished, timedOut + w.timedOut, w.rest)
        decreases |pendingFences|
      {
        var head := pendingFences[0];
        waitValue, timeout := head.seqno, head.timeout;
        if head.seqno <= sample {
          finished, pendingFences := finished + [head], pendingFences[1..];
        } else if head.timeout <= now {
          timedOut, pendingFences := timedOut + [head], pendingFences[1..];
        } else {
          break;
        }
      }
      assert Sweep(all, sample, now) == Swept(finished, timedOut, pendingFences);
      taken := taken + finished + timedOut;
      if report {
        if pendingFences == [] {
          currentWaitValue, waitValue, timeout := 0, 0, 0;
        } else if waitValue == currentWaitValue {
          waitValue, timeout := 0, 0;
        } else {
          currentWaitValue := waitValue;
        }
      } else {
        waitValue, timeout := 0, 0;
      }
    }

    /** The loops that run after the lock is dropped: signal the fences taken off the list, in order, and
        drop the reference of the list to each. */
    method SignalAll(fences: seq<Fence>, timedOut: bool)
      modifies this`signaled, this`puts
      ensures signaled == old(signaled) + Signals(fences, timedOut) && puts == old(puts) + fences
    {
      for i := 0 to |fences|
        invariant signaled == old(signaled) + Signals(fences[..i], timedOut) && puts == old(puts) + fences[..i]
      {
        assert fences[..i + 1] == fences[..i] + [fences[i]];
        signaled := signaled + [Signal(fences[i], timedOut)];
        puts := puts + [fences[i]];
      }
      assert fences[..|fences|] == fences;
    }

    /** `__nv_drm_semsurf_ctx_process_completed` with nobody interfering. */
    method ProcessCompleted(sample: nat, now: nat, report: bool) returns (waitValue: nat, timeout: nat)
      modifies this
      ensures var p := Process(old(View()), sample, now, report);
        View() == p.ctx && waitValue == p.waitValue && timeout == p.timeout && signaled == old(signaled) + p.hand
      ensures old(taken) <= taken && puts == old(puts) + taken[|old(taken)|..]
    {
      var finished, timedOut;
      waitValue, timeout, finished, timedOut := TakeCompleted(sample, now, report);
      SignalAll(finished, false);
      SignalAll(timedOut, true);
      TwoMore(old(signaled), Signals(finished, false), Signals(timedOut, true));
      TwoMore(old(puts), finished, timedOut);
      TwoMore(old(taken), finished, timedOut);
    }

    /** The locked section of `__nv_drm_semsurf_ctx_callback`. */
    method CallbackFired(cb: CallbackId, waitValue: nat)
      modifies this
      ensures View() == Retire(old(View()), cb, waitValue)
    {
      if callbackLocal == Some(cb) {
        callbackLocal := None;
        callbackNvKms := None;
      }
      if currentWaitValue == waitValue {
        currentWaitValue := 0;
      }
    }

    /** The locked section of `__nv_drm_semsurf_ctx_store_callback`. */
    method StoreCallback(waitValue: nat, cb: CallbackId) returns (installed: bool, displaced: Option<CallbackId>)
      modifies this
      ensures Stored(View(), installed, displaced) == Store(old(View()), waitValue, cb)
    {
      installed, displaced := false, None;
      if currentWaitValue == waitValue {
        displaced := callbackLocal;
        callbackLocal := Some(cb);
        callbackNvKms := Some(cb);
        installed := true;
      }
    }

    /** `__nv_drm_semsurf_force_complete_pending`, the part that empties the pending list. */
    method ForceCompletePending()
      modifies this
      ensures View() == ForceComplete(old(View()))
      ensures signaled == old(signaled) + Signals(old(pendingFences), true) && puts == old(puts) + old(pendingFences)
    {
      ghost var all := pendingFences;
      while pendingFences != []
        invariant View() == old(View()).(pending := pendingFences, taken := taken)
        invariant taken + pendingFences == old(taken) + all
        invariant signaled + Signals(pendingFences, true) == old(signaled) + Signals(all, true)
        invariant puts + pendingFences == old(puts) + all
        decreases |pendingFences|
      {
        var head := pendingFences[0];
        MoveHead(taken, pendingFences);
        MoveHead(puts, pendingFences);
        MoveHead(signaled, Signals(pendingFences, true));
        assert Signals(pendingFences, true)[1..] == Signals(pendingFences[1..], true);
        pendingFences := pendingFences[1..];
        taken := taken + [head];
        signaled := signaled + [Signal(head, true)];
        puts := puts + [head];
      }
    }
  }
}
