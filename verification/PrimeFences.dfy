/** PRIME fence contexts: `struct nv_drm_prime_fence_context` of kernel-open/nvidia-drm/nvidia-drm-fence.c. */
module PrimeFences {

  datatype PrimeFence = PrimeFence(id: nat, seqno: nat)

  /** Why a fence was signalled: the semaphore was read as `value`, or the list was emptied by force. */
  datatype Cause = Reached(value: nat) | Forced

  /** Calls into dma_fence on behalf of the context: taking its reference, signalling, dropping it. */
  datatype Call = Get(id: nat) | Signal(fence: PrimeFence, cause: Cause) | Put(id: nat)

  datatype Context = Context(pending: seq<PrimeFence>, lastSeqno: nat, calls: seq<Call>)

  // ----- the locked sections -----

  /** `__nv_drm_prime_fence_signal` on the head of the list. */
  function SignalHead(c: Context, cause: Cause): Context
    requires c.pending != []
  {
    var head := c.pending[0];
    c.(pending := c.pending[1..], calls := c.calls + [Signal(head, cause), Put(head.id)])
  }

  /** `nv_drm_gem_prime_force_fence_signal`. */
  function ForceAll(c: Context): Context
    decreases |c.pending|
  {
    if c.pending == [] then c else ForceAll(SignalHead(c, Forced))
  }

  /** `nv_drm_gem_prime_fence_event`. The semaphore is read anew for every fence: `sample(k)` is what
      the k-th read returns. */
  function Event(c: Context, sample: nat -> nat, k: nat): Context
    decreases |c.pending|
  {
    if c.pending == [] || c.pending[0].seqno > sample(k) then c
    else Event(SignalHead(c, Reached(sample(k))), sample, k + 1)
  }

  /** The locked section of `__nv_drm_prime_fence_context_create_fence`. */
  function Create(c: Context, f: PrimeFence): Context {
    var c' := if f.seqno < c.lastSeqno then ForceAll(c) else c;
    Context(c'.pending + [f], f.seqno, c'.calls + [Get(f.id)])
  }

  class PrimeFenceContext {
    var pending: seq<PrimeFence>
    var lastSeqno: nat
    var calls: seq<Call>

    ghost function View(): Context
      reads this
    {
      Context(pending, lastSeqno, calls)
    }

    constructor ()
      ensures View() == Context([], 0, [])
    {
      pending, lastSeqno, calls := [], 0, [];
    }

    method SignalFirst(cause: Cause)
      requires pending != []
      modifies this
      ensures View() == SignalHead(old(View()), cause)
    {
      var head := pending[0];
      pending := pending[1..];
      calls := calls + [Signal(head, cause)];
      calls := calls + [Put(head.id)];
      assert calls == old(calls) + [Signal(head, cause), Put(head.id)];
    }

    method ForceFenceSignal()
      modifies this
      ensures View() == ForceAll(old(View()))
    {
      while pending != []
        invariant ForceAll(View()) == ForceAll(old(View()))
        decreases |pending|
      {
        SignalFirst(Forced);
      }
    }

    method FenceEvent(sample: nat -> nat)
      modifies this
      ensures View() == Event(old(View()), sample, 0)
    {
      var k := 0;
      while pending != []
        invariant Event(View(), sample, k) == Event(old(View()), sample, 0)
        decreases |pending|
      {
        var seqno := sample(k);
        if pending[0].seqno > seqno {
          break;
        }
        SignalFirst(Reached(seqno));
        k := k + 1;
      }
    }

    method CreateFence(f: PrimeFence)
      modifies this
      ensures View() == Create(old(View()), f)
    {
      if f.seqno < lastSeqno {
        ForceFenceSignal();
      }
      calls := calls + [Get(f.id)];
      pending := pending + [f];
      lastSeqno := f.seqno;
    }
  }

  // ----- what every section keeps -----

  /** References to fence `id` that the context holds after the calls. */
  function Held(calls: seq<Call>, id: nat): int {
    if calls == [] then 0
    else
      var last := calls[|calls| - 1];
      Held(calls[..|calls| - 1], id) + (if last == Get(id) then 1 else if last == Put(id) then -1 else 0)
  }

  /** The fences signalled, in order. */
  function Signalled(calls: seq<Call>): seq<PrimeFence> {
    if calls == [] then []
    else
      var last := calls[|calls| - 1];
      Signalled(calls[..|calls| - 1]) + (if last.Signal? then [last.fence] else [])
  }

  function Pending(fences: seq<PrimeFence>, id: nat): nat {
    if fences == [] then 0 else (if fences[0].id == id then 1 else 0) + Pending(fences[1..], id)
  }

  lemma HeldSnoc(calls: seq<Call>, call: Call, id: nat)
    ensures Held(calls + [call], id) == Held(calls, id) + (if call == Get(id) then 1 else if call == Put(id) then -1 else 0)
    ensures Signalled(calls + [call]) == Signalled(calls) + (if call.Signal? then [call.fence] else [])
  {
  }

  lemma {:induction false} PendingSnoc(fences: seq<PrimeFence>, f: PrimeFence, id: nat)
    ensures Pending(fences + [f], id) == Pending(fences, id) + (if f.id == id then 1 else 0)
    decreases |fences|
  {
    if fences == [] {
      assert fences + [f] == [f];
    } else {
      assert (fences + [f])[1..] == fences[1..] + [f];
      PendingSnoc(fences[1..], f, id);
    }
  }

  /** A fence is signalled only while the context holds a reference to it, and unless forced only
      once the semaphore has been read at its value or above. */
  ghost predicate CallsOk(calls: seq<Call>) {
    forall k :: 0 <= k < |calls| && calls[k].Signal? ==>
      && Held(calls[..k], calls[k].fence.id) >= 1
      && (calls[k].cause.Reached? ==> calls[k].fence.seqno <= calls[k].cause.value)
  }

  ghost predicate Ordered(fences: seq<PrimeFence>) {
    forall i, j :: 0 <= i < j < |fences| ==> fences[i].seqno <= fences[j].seqno
  }

  /** `created` lists every fence created so far, oldest first. */
  ghost predicate Inv(c: Context, created: seq<PrimeFence>) {
    && Ordered(c.pending)
    && (c.pending != [] ==> c.pending[|c.pending| - 1].seqno == c.lastSeqno)
    && Signalled(c.calls) + c.pending == created
    && (forall id :: Held(c.calls, id) == Pending(c.pending, id))
    && CallsOk(c.calls)
  }

  lemma CallsOkSnoc(calls: seq<Call>, call: Call)
    requires CallsOk(calls)
    requires call.Signal? ==>
      Held(calls, call.fence.id) >= 1 && (call.cause.Reached? ==> call.fence.seqno <= call.cause.value)
    ensures CallsOk(calls + [call])
  {
    var all := calls + [call];
    forall k | 0 <= k < |all| && all[k].Signal?
      ensures Held(all[..k], all[k].fence.id) >= 1
      ensures all[k].cause.Reached? ==> all[k].fence.seqno <= all[k].cause.value
    {
      if k < |calls| {
        assert all[..k] == calls[..k];
      } else {
        assert all[..k] == calls;
      }
    }
  }

  lemma SignalHeadCalls(c: Context, cause: Cause, id: nat)
    requires c.pending != []
    ensures var c' := SignalHead(c, cause);
      && Held(c'.calls, id) == Held(c.calls, id) - (if c.pending[0].id == id then 1 else 0)
      && Signalled(c'.calls) == Signalled(c.calls) + [c.pending[0]]
  {
    var head := c.pending[0];
    var mid := c.calls + [Signal(head, cause)];
    HeldSnoc(c.calls, Signal(head, cause), id);
    HeldSnoc(mid, Put(head.id), id);
    assert SignalHead(c, cause).calls == mid + [Put(head.id)];
  }

  lemma SignalHeadCallsOk(c: Context, cause: Cause)
    requires c.pending != [] && CallsOk(c.calls) && Held(c.calls, c.pending[0].id) >= 1
    requires cause.Reached? ==> c.pending[0].seqno <= cause.value
    ensures CallsOk(SignalHead(c, cause).calls)
  {
    var head := c.pending[0];
    var mid := c.calls + [Signal(head, cause)];
    CallsOkSnoc(c.calls, Signal(head, cause));
    CallsOkSnoc(mid, Put(head.id));
    assert SignalHead(c, cause).calls == mid + [Put(head.id)];
  }

  lemma SignalHeadKeepsInv(c: Context, created: seq<PrimeFence>, cause: Cause)
    requires Inv(c, created) && c.pending != []
    requires cause.Reached? ==> c.pending[0].seqno <= cause.value
    ensures Inv(SignalHead(c, cause), created)
  {
    var c' := SignalHead(c, cause);
    assert Held(c.calls, c.pending[0].id) == Pending(c.pending, c.pending[0].id);
    SignalHeadCallsOk(c, cause);
    forall id
      ensures Held(c'.calls, id) == Pending(c'.pending, id)
    {
      SignalHeadCalls(c, cause, id);
    }
    SignalHeadCalls(c, cause, 0);
    assert [c.pending[0]] + c.pending[1..] == c.pending;
  }

  lemma {:induction false} ForceAllKeepsInv(c: Context, created: seq<PrimeFence>)
    requires Inv(c, created)
    ensures Inv(ForceAll(c), created) && ForceAll(c).pending == [] && ForceAll(c).lastSeqno == c.lastSeqno
    decreases |c.pending|
  {
    if c.pending != [] {
      SignalHeadKeepsInv(c, created, Forced);
      ForceAllKeepsInv(SignalHead(c, Forced), created);
    }
  }

  lemma {:induction false} EventKeepsInv(c: Context, created: seq<PrimeFence>, sample: nat -> nat, k: nat)
    requires Inv(c, created)
    ensures Inv(Event(c, sample, k), created)
    decreases |c.pending|
  {
    if c.pending != [] && c.pending[0].seqno <= sample(k) {
      SignalHeadKeepsInv(c, created, Reached(sample(k)));
      EventKeepsInv(SignalHead(c, Reached(sample(k))), created, sample, k + 1);
    }
  }

  lemma AppendKeepsInv(c: Context, created: seq<PrimeFence>, f: PrimeFence)
    requires Inv(c, created) && (c.pending == [] || c.lastSeqno <= f.seqno)
    ensures Inv(Context(c.pending + [f], f.seqno, c.calls + [Get(f.id)]), created + [f])
  {
    CallsOkSnoc(c.calls, Get(f.id));
    forall id
      ensures Held(c.calls + [Get(f.id)], id) == Pending(c.pending + [f], id)
    {
      HeldSnoc(c.calls, Get(f.id), id);
      PendingSnoc(c.pending, f, id);
    }
    HeldSnoc(c.calls, Get(f.id), 0);
  }

  /** Also across a wrap of the sequence number. */
  lemma CreateKeepsInv(c: Context, created: seq<PrimeFence>, f: PrimeFence)
    requires Inv(c, created)
    ensures Inv(Create(c, f), created + [f])
  {
    ForceAllKeepsInv(c, created);
    AppendKeepsInv(if f.seqno < c.lastSeqno then ForceAll(c) else c, created, f);
  }

  // ----- runs -----

  datatype Step = CreateStep(f: PrimeFence) | EventStep(sample: nat -> nat) | DestroyStep

  ghost function After(steps: seq<Step>): Context {
    if steps == [] then Context([], 0, [])
    else
      var c := After(steps[..|steps| - 1]);
      match steps[|steps| - 1]
      case CreateStep(f) => Create(c, f)
      case EventStep(sample) => Event(c, sample, 0)
      case DestroyStep => ForceAll(c)
  }

  ghost function Created(steps: seq<Step>): seq<PrimeFence> {
    if steps == [] then []
    else
      var last := steps[|steps| - 1];
      Created(steps[..|steps| - 1]) + (if last.CreateStep? then [last.f] else [])
  }

  /** After any run of creations and events the list is nondecreasing and ends in `last_seqno`, the
      fences signalled so far followed by the pending ones are the fences created, in that order, and
      the context holds one reference per pending fence. */
  lemma {:induction false} RunKeepsInv(steps: seq<Step>)
    ensures Inv(After(steps), Created(steps))
    decreases |steps|
  {
    if steps != [] {
      var before, c, created := steps[..|steps| - 1], After(steps[..|steps| - 1]), Created(steps[..|steps| - 1]);
      RunKeepsInv(before);
      match steps[|steps| - 1] {
        case CreateStep(f) => CreateKeepsInv(c, created, f);
        case EventStep(sample) => EventKeepsInv(c, created, sample, 0);
        case DestroyStep => ForceAllKeepsInv(c, created);
      }
    }
  }

  lemma {:induction false} PendingIsMember(fences: seq<PrimeFence>, id: nat)
    ensures Pending(fences, id) >= 1 <==> exists i :: 0 <= i < |fences| && fences[i].id == id
    ensures (forall i, j :: 0 <= i < j < |fences| ==> fences[i].id != fences[j].id) ==> Pending(fences, id) <= 1
    decreases |fences|
  {
    if fences != [] {
      PendingIsMember(fences[1..], id);
      assert fences == [fences[0]] + fences[1..];
      if fences[0].id != id && Pending(fences[1..], id) >= 1 {
        var i :| 0 <= i < |fences[1..]| && fences[1..][i].id == id;
        assert fences[i + 1].id == id;
      }
    }
  }

  /** With distinct fence objects: one reference for a pending fence, none for any other. */
  lemma OneReferencePerPendingFence(steps: seq<Step>, id: nat)
    requires forall i, j :: 0 <= i < j < |Created(steps)| ==> Created(steps)[i].id != Created(steps)[j].id
    ensures var c := After(steps);
      Held(c.calls, id) == if exists i :: 0 <= i < |c.pending| && c.pending[i].id == id then 1 else 0
  {
    RunKeepsInv(steps);
    var c, created := After(steps), Created(steps);
    var n := |Signalled(c.calls)|;
    forall i, j | 0 <= i < j < |c.pending|
      ensures c.pending[i].id != c.pending[j].id
    {
      assert created[n + i] == c.pending[i] && created[n + j] == c.pending[j];
    }
    PendingIsMember(c.pending, id);
  }

  // ----- what one event signals -----

  /** How many fences an event signals. */
  function Cut(p: seq<PrimeFence>, sample: nat -> nat, k: nat): (m: nat)
    ensures m <= |p|
  {
    if p == [] || p[0].seqno > sample(k) then 0 else 1 + Cut(p[1..], sample, k + 1)
  }

  /** Each fence is compared with a read of its own, and the first that fails stops the loop. */
  lemma {:induction false} CutAt(p: seq<PrimeFence>, sample: nat -> nat, k: nat, i: nat)
    requires i < |p| && i <= Cut(p, sample, k)
    ensures i < Cut(p, sample, k) <==> p[i].seqno <= sample(k + i)
    decreases |p|
  {
    if i > 0 {
      CutAt(p[1..], sample, k + 1, i - 1);
      assert k + 1 + (i - 1) == k + i;
    }
  }

  /** An event takes a prefix off the list and signals it in order. */
  lemma {:induction false} EventTakes(c: Context, sample: nat -> nat, k: nat)
    ensures var m := Cut(c.pending, sample, k);
      && Event(c, sample, k).pending == c.pending[m..]
      && Signalled(Event(c, sample, k).calls) == Signalled(c.calls) + c.pending[..m]
    decreases |c.pending|
  {
    if c.pending != [] && c.pending[0].seqno <= sample(k) {
      var c' := SignalHead(c, Reached(sample(k)));
      EventTakes(c', sample, k + 1);
      SignalHeadCalls(c, Reached(sample(k)), 0);
      PrefixGrows(c.pending, Cut(c'.pending, sample, k + 1));
    }
  }

  lemma PrefixGrows(p: seq<PrimeFence>, m: nat)
    requires p != [] && m <= |p| - 1
    ensures [p[0]] + p[1..][..m] == p[..m + 1] && p[1..][m..] == p[m + 1..]
  {
  }

  /** Samples that never go back: the event signals at least what the first read covers and at most
      what the last read covers, and nothing else moves. */
  lemma EventSignals(c: Context, sample: nat -> nat, i: nat)
    requires Ordered(c.pending) && i < |c.pending| && forall i, j :: i <= j ==> sample(i) <= sample(j)
    ensures var m := Cut(c.pending, sample, 0);
      && Event(c, sample, 0).pending == c.pending[m..]
      && (i < m ==> c.pending[i].seqno <= sample(m))
      && (i >= m ==> c.pending[i].seqno > sample(0))
  {
    var m := Cut(c.pending, sample, 0);
    EventTakes(c, sample, 0);
    if i < m {
      CutAt(c.pending, sample, 0, i);
      assert sample(i) <= sample(m);
    } else {
      CutAt(c.pending, sample, 0, m);
      assert sample(0) <= sample(m);
    }
  }

  /** A fixed semaphore value: exactly the pending fences at or below it. */
  lemma EventExact(c: Context, v: nat, i: nat)
    requires Ordered(c.pending) && i < |c.pending|
    ensures var c' := Event(c, _ => v, 0);
      && |c'.pending| <= |c.pending|
      && c'.pending == c.pending[|c.pending| - |c'.pending|..]
      && (c.pending[i].seqno <= v <==> i < |c.pending| - |c'.pending|)
  {
    EventSignals(c, _ => v, i);
  }

  // ----- wrap-around -----

  const WRAP: nat := 0x1_0000_0000

  /** The sequence number and the semaphore are the low 32 bits of counters. While fewer than 2^32
      values lie between them, an event after any run takes a pending fence that is not yet due for a
      completed one exactly when the fence's counter has wrapped and the semaphore's has not. */
  lemma SignalledEarlyIff(steps: seq<Step>, i: nat, due: nat, semaphore: nat)
    requires i < |After(steps).pending| && After(steps).pending[i].seqno == due % WRAP
    requires semaphore < due < semaphore + WRAP
    ensures var c, c' := After(steps), Event(After(steps), _ => semaphore % WRAP, 0);
      i < |c.pending| - |c'.pending| <==> due / WRAP != semaphore / WRAP
  {
    RunKeepsInv(steps);
    EventExact(After(steps), semaphore % WRAP, i);
    LowWordsCompare(due, semaphore);
  }

  /** Fence 0 is the last before the wrap and fence 1 the second after it. The creation of fence 1 signals
      fence 0 by force; the next event finds the semaphore at 2^32 - 5, six values before fence 1 is due,
      and signals it. */
  lemma WrapSignalsEarly()
    ensures var event := (_: nat) => WRAP - 5;
      var c := After([CreateStep(PrimeFence(0, WRAP - 1)), CreateStep(PrimeFence(1, 1)), EventStep(event)]);
      c.pending == [] && Signal(PrimeFence(1, 1), Reached(WRAP - 5)) in c.calls
  {
    var f, g, event := PrimeFence(0, WRAP - 1), PrimeFence(1, 1), (_: nat) => WRAP - 5;
    var steps := [CreateStep(f), CreateStep(g), EventStep(event)];
    assert steps[..2] == [CreateStep(f), CreateStep(g)] && steps[..2][..1] == [CreateStep(f)] && [CreateStep(f)][..0] == [];
    var c1 := Context([f], f.seqno, [Get(0)]);
    assert After([CreateStep(f)]) == c1;
    var forced := SignalHead(c1, Forced);
    assert ForceAll(c1) == forced;
    var c2 := Context([g], 1, forced.calls + [Get(1)]);
    assert After([CreateStep(f), CreateStep(g)]) == c2;
    var c3 := SignalHead(c2, Reached(WRAP - 5));
    assert Event(c2, event, 0) == c3;
    assert c3.calls[|c2.calls|] == Signal(g, Reached(WRAP - 5));
  }

  lemma LowWordsCompare(due: nat, semaphore: nat)
    requires semaphore < due < semaphore + WRAP
    ensures due % WRAP <= semaphore % WRAP <==> due / WRAP != semaphore / WRAP
  {
  }
}
