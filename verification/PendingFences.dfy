/** The list of pending fences of a semaphore-surface fence context
    (kernel-open/nvidia-drm/nvidia-drm-fence.c). */
module PendingFences {

  /** `struct nv_drm_semsurf_fence`: `seqno` is the semaphore value the fence waits for and
      `timeout` the absolute time at which it expires. */
  datatype Fence = Fence(id: nat, seqno: nat, timeout: nat)

  ghost predicate Sorted(p: seq<Fence>) {
    forall i, j :: 0 <= i < j < |p| ==> p[i].seqno <= p[j].seqno
  }

  // ----- insertion -----

  /** Insertion before the first fence that waits for a larger value, or at the tail. */
  function Insert(p: seq<Fence>, f: Fence): seq<Fence> {
    if p == [] || p[0].seqno > f.seqno then [f] + p else [p[0]] + Insert(p[1..], f)
  }

  lemma {:induction false} InsertAt(p: seq<Fence>, f: Fence, k: nat)
    requires k <= |p| && (forall i :: 0 <= i < k ==> p[i].seqno <= f.seqno) && (k < |p| ==> p[k].seqno > f.seqno)
    ensures Insert(p, f) == p[..k] + [f] + p[k..]
    decreases k
  {
    if k > 0 {
      InsertAt(p[1..], f, k - 1);
    }
  }

  /** The fences that wait for value `v`, in list order. */
  function WithValue(p: seq<Fence>, v: nat): seq<Fence> {
    if p == [] then [] else (if p[0].seqno == v then [p[0]] else []) + WithValue(p[1..], v)
  }

  lemma {:induction false} WithValueConcat(p: seq<Fence>, q: seq<Fence>, v: nat)
    ensures WithValue(p + q, v) == WithValue(p, v) + WithValue(q, v)
    decreases |p|
  {
    if p == [] {
      assert p + q == q;
    } else {
      var head := if p[0].seqno == v then [p[0]] else [];
      assert (p + q)[1..] == p[1..] + q;
      WithValueConcat(p[1..], q, v);
      assert head + (WithValue(p[1..], v) + WithValue(q, v)) == head + WithValue(p[1..], v) + WithValue(q, v);
    }
  }

  lemma {:induction false} InsertKeepsContents(p: seq<Fence>, f: Fence)
    ensures multiset(Insert(p, f)) == multiset(p) + multiset{f}
    ensures forall x :: x in Insert(p, f) <==> x == f || x in p
    decreases |p|
  {
    if p != [] {
      assert p == [p[0]] + p[1..];
      if p[0].seqno <= f.seqno {
        InsertKeepsContents(p[1..], f);
      }
    }
  }

  lemma {:induction false} InsertSorted(p: seq<Fence>, f: Fence)
    requires Sorted(p)
    ensures Sorted(Insert(p, f))
    decreases |p|
  {
    if p != [] && p[0].seqno <= f.seqno {
      InsertSorted(p[1..], f);
      InsertKeepsContents(p[1..], f);
      var q := Insert(p[1..], f);
      forall j | 0 <= j < |q| ensures p[0].seqno <= q[j].seqno {
        assert q[j] in q;
      }
    }
  }

  lemma {:induction false} NoneWithValue(p: seq<Fence>, v: nat)
    requires forall i :: 0 <= i < |p| ==> p[i].seqno != v
    ensures WithValue(p, v) == []
    decreases |p|
  {
    if p != [] {
      NoneWithValue(p[1..], v);
    }
  }

  /** Insertion is stable: the new fence follows every pending fence that waits for the same value,
      and the order among fences of any one value does not change. */
  lemma {:induction false} InsertStable(p: seq<Fence>, f: Fence, v: nat)
    requires Sorted(p)
    ensures WithValue(Insert(p, f), v) == WithValue(p, v) + (if v == f.seqno then [f] else [])
    decreases |p|
  {
    if p == [] {
      assert Insert(p, f)[1..] == [];
    } else if p[0].seqno > f.seqno {
      assert Insert(p, f)[1..] == p;
      if v == f.seqno {
        NoneWithValue(p, v);
      }
    } else {
      assert Insert(p, f)[1..] == Insert(p[1..], f);
      InsertStable(p[1..], f, v);
    }
  }

  // ----- one pass over the list -----

  /** What a pass takes off the list, and what it leaves. */
  datatype Swept = Swept(finished: seq<Fence>, timedOut: seq<Fence>, rest: seq<Fence>)

  /** The pass of `__nv_drm_semsurf_ctx_process_completed`: look at the head; move it to `finished`
      when the semaphore has reached its value, else to `timedOut` when it has expired, else stop. */
  function Sweep(p: seq<Fence>, sample: nat, now: nat): Swept {
    if p == [] then Swept([], [], [])
    else if p[0].seqno <= sample then
      var tail := Sweep(p[1..], sample, now);
      tail.(finished := [p[0]] + tail.finished)
    else if p[0].timeout <= now then
      var tail := Sweep(p[1..], sample, now);
      tail.(timedOut := [p[0]] + tail.timedOut)
    else Swept([], [], p)
  }

  lemma ShiftPieces(p: seq<Fence>, k: nat, m: nat)
    requires p != [] && k <= m < |p|
    ensures [p[0]] + p[1..][..k] == p[..k + 1]
    ensures p[1..][k..m] == p[k + 1..m + 1]
    ensures p[1..][m..] == p[m + 1..]
  {
  }

  /** On a sorted list the pass cuts the list in three consecutive pieces at `k` and `m`: exactly the
      fences whose value has been reached, then the longest expired run, then the rest. Nothing is
      lost, duplicated or reordered. */
  lemma {:induction false} SweepPartitions(p: seq<Fence>, sample: nat, now: nat) returns (k: nat, m: nat)
    requires Sorted(p)
    ensures k <= m <= |p|
    ensures Sweep(p, sample, now) == Swept(p[..k], p[k..m], p[m..])
    ensures forall i :: 0 <= i < |p| ==> (i < k <==> p[i].seqno <= sample)
    ensures forall i :: k <= i < m ==> p[i].timeout <= now
    ensures m < |p| ==> p[m].timeout > now
    decreases |p|
  {
    if p == [] {
      k, m := 0, 0;
    } else if p[0].seqno <= sample {
      k, m := SweepPartitions(p[1..], sample, now);
      ShiftPieces(p, k, m);
      k, m := k + 1, m + 1;
    } else if p[0].timeout <= now {
      k, m := SweepPartitions(p[1..], sample, now);
      assert |p| > 1 ==> p[1..][0].seqno > sample;
      ShiftPieces(p, 0, m);
      ShiftPieces(p, m, m);
      assert p[..m + 1] == p[0..m + 1];
      m := m + 1;
    } else {
      k, m := 0, 0;
    }
  }

  lemma ThreePieces(p: seq<Fence>, k: nat, m: nat)
    requires k <= m <= |p|
    ensures multiset(p) == multiset(p[..k]) + multiset(p[k..m]) + multiset(p[m..])
  {
    assert p == p[..k] + p[k..m] + p[m..];
  }

  lemma SweepInOrder(p: seq<Fence>, sample: nat, now: nat)
    requires Sorted(p)
    ensures var w := Sweep(p, sample, now); w.finished + w.timedOut + w.rest == p
  {
    var k, m := SweepPartitions(p, sample, now);
    assert p[..k] + p[k..m] + p[m..] == p;
  }

  /** The pieces of a pass, by membership: what callers of the pass rely on. */
  lemma SweepMeaning(p: seq<Fence>, sample: nat, now: nat)
    requires Sorted(p)
    ensures var w := Sweep(p, sample, now);
      && multiset(p) == multiset(w.finished) + multiset(w.timedOut) + multiset(w.rest)
      && Sorted(w.rest)
      && (forall i :: 0 <= i < |w.finished| ==> w.finished[i].seqno <= sample)
      && (forall i :: 0 <= i < |w.timedOut| ==> w.timedOut[i].seqno > sample && w.timedOut[i].timeout <= now)
      && (forall i :: 0 <= i < |w.rest| ==> w.rest[i].seqno > sample)
  {
    var k, m := SweepPartitions(p, sample, now);
    ThreePieces(p, k, m);
  }
}
