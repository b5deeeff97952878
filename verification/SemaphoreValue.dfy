/** Reading the 64-bit value of a semaphore-surface slot
    (`__nv_drm_get_semsurf_ctx_seqno`, kernel-open/nvidia-drm/nvidia-drm-fence.c).

    GPUs with 32-bit semaphores store only the low half of the timeline value. The driver rebuilds
    the high half from the largest value submitted so far, which it reads first. */
module SemaphoreValue {
  import opened PendingFences
  import opened SemsurfProtocol
  import opened SemsurfFences

  const WORD: nat := 0x1_0000_0000
  const DOUBLE_WORD: nat := 0x1_0000_0000_0000_0000

  type NvU32 = x: nat | x < WORD
  type NvU64 = x: nat | x < DOUBLE_WORD

  /** The 32-bit path. The subtraction wraps, as it does on an unsigned 64-bit integer. */
  function Rebuild(maxSubmitted: NvU64, slot: NvU32): NvU64 {
    var m := if maxSubmitted % WORD < slot then (maxSubmitted + DOUBLE_WORD - WORD) % DOUBLE_WORD else maxSubmitted;
    slot + m / WORD * WORD
  }

  /** The mapping of a slot: with a max-submitted word (32-bit GPU semaphore) or without. */
  datatype Slot = Slot32(maxSubmitted: NvU64, low: NvU32) | Slot64(value: NvU64)

  function Sample(s: Slot): NvU64 {
    match s
    case Slot32(m, low) => Rebuild(m, low)
    case Slot64(v) => v
  }

  /** The largest value at most `m` that is congruent to `slot`, in modular terms: the rebuilt value
      lies in the window of length 2^32 that ends at the max-submitted value. */
  lemma RebuildWindow(m: NvU64, slot: NvU32)
    ensures Rebuild(m, slot) % WORD == slot
    ensures m >= slot ==> m - WORD < Rebuild(m, slot) <= m
    ensures m < slot ==> Rebuild(m, slot) == DOUBLE_WORD - WORD + slot
  {
  }

  /** The rebuilt value is the true value `v` exactly when the max-submitted value read is less than
      2^32 ahead of it on the 64-bit circle; for `v <= m` that is `m < v + 2^32`. */
  lemma RebuildExact(m: NvU64, v: NvU64)
    ensures Rebuild(m, v % WORD) == v <==> (m - v) % DOUBLE_WORD < WORD
    ensures v <= m < v + WORD ==> Rebuild(m, v % WORD) == v
  {
    var slot: NvU32 := v % WORD;
    var r: nat := Rebuild(m, slot);
    RebuildWindow(m, slot);
    assert r % WORD == v % WORD;
    assert r / WORD * WORD - v / WORD * WORD == r - v;
    if m >= slot {
      if v <= m {
        assert (m - v) % DOUBLE_WORD == m - v;
        SameWindow(r, v, m);
      } else {
        assert (m - v) % DOUBLE_WORD == m - v + DOUBLE_WORD;
        assert r != v;
        assert v / WORD <= DOUBLE_WORD / WORD - 1;
        assert v - slot <= DOUBLE_WORD - WORD;
        assert m - v + DOUBLE_WORD >= slot - v + DOUBLE_WORD >= WORD;
      }
    } else {
      assert m < WORD;
      assert v > m by {
        assert v >= slot;
      }
      assert (m - v) % DOUBLE_WORD == m - v + DOUBLE_WORD;
      assert r == v <==> v / WORD == DOUBLE_WORD / WORD - 1;
      assert v == v / WORD * WORD + slot;
    }
  }

  lemma SameWindow(r: nat, v: nat, m: nat)
    requires r % WORD == v % WORD
    requires m - WORD < r <= m
    ensures r == v <==> m - WORD < v <= m
  {
  }

  /** Max-submitted is read before the slot, so it may already be behind: only `m < v + 2^32` is
      known. The sample is then never above the true value, except in one case: the stale
      max-submitted value is smaller than the slot word itself, and the subtraction wraps. */
  lemma RebuildNeverEarly(m: NvU64, v: NvU64)
    requires m < v + WORD
    ensures Rebuild(m, v % WORD) > v <==> m < v % WORD && v < DOUBLE_WORD - WORD
  {
    var slot: NvU32 := v % WORD;
    var r: nat := Rebuild(m, slot);
    RebuildWindow(m, slot);
    assert v == v / WORD * WORD + slot;
    if m >= slot && v <= m {
      SameWindow(r, v, m);
    }
  }

  /** A max-submitted word read as 5 just before values 6 and 7 are submitted and released makes the
      driver read 2^64 - 2^32 + 7 instead of 7. */
  lemma StaleMaxSubmittedReadsHigh()
    ensures Rebuild(5, 7 % WORD) == 0xFFFF_FFFF_0000_0007
  {
  }

  /** Successive samples of a timeline that never goes back never go back. */
  lemma SamplesNondecreasing(m1: NvU64, v1: NvU64, m2: NvU64, v2: NvU64)
    requires v1 <= m1 < v1 + WORD && v2 <= m2 < v2 + WORD
    ensures v1 <= v2 <==> Sample(Slot32(m1, v1 % WORD)) <= Sample(Slot32(m2, v2 % WORD))
  {
    RebuildExact(m1, v1);
    RebuildExact(m2, v2);
  }

  /** A pass that uses the rebuilt value signals, without error, exactly the fences whose value the
      timeline has really reached, for every max-submitted value that is not behind. */
  lemma PassNeverEarly(p: seq<Fence>, m: NvU64, v: NvU64, now: nat)
    requires Sorted(p) && v <= m < v + WORD
    ensures forall i :: 0 <= i < |p| ==>
      (p[i].seqno <= v <==> i < |Sweep(p, Sample(Slot32(m, v % WORD)), now).finished|)
  {
    RebuildExact(m, v);
    var k, n := SweepPartitions(p, v, now);
  }

  /** In the protocol: a pass whose sample was rebuilt from a slot that held `v`, while the semaphore has
      since moved on, takes a fence early exactly when the max-submitted value `m` was so old that the
      subtraction wrapped and some pending fence waits for a value the semaphore has not reached. */
  lemma RebuiltSampleTakesEarlyIff(s: State, e: Event, m: NvU64, v: NvU64)
    requires e.ProcessCompleted? || e.CallbackProcess?
    requires e.sample == Sample(Slot32(m, v % WORD)) && m < v + WORD && v <= s.semaphore
    ensures TakesEarly(s, e) <==>
      && m < v % WORD && v < DOUBLE_WORD - WORD
      && exists i :: 0 <= i < |s.ctx.pending| && s.semaphore < s.ctx.pending[i].seqno <= DOUBLE_WORD - WORD + v % WORD
  {
    RebuildNeverEarly(m, v);
    RebuildWindow(m, v % WORD);
  }
}
