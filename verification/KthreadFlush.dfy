/** Flushing the work queue (`_raw_q_flush`, `nv_kthread_q_flush`, `nv_kthread_q_stop` in
    kernel-open/nvidia-drm/nv-kthread-q.c): what has run after one, two or more raw flushes, while
    running items go on scheduling items and other threads interfere. */
module KthreadFlush {
  import opened Options
  import opened KthreadQueue

  /** A thread that flushes again and again. `waiting` is the position, in the order of acceptance,
      of the flush item whose completion it waits for. */
  datatype Flusher = Flusher(q: Queue, rounds: nat, waiting: Option<nat>)

  datatype FlushEvent = Other(e: Event) | StartFlush(item: Item) | EndFlush

  predicate CanStep(f: Flusher, e: FlushEvent) {
    match e
    case Other(qe) => Enabled(f.q, qe)
    case StartFlush(item) => f.waiting == None && item.Flush? && !Contains(f.q.list, item)
    case EndFlush => f.waiting.Some? && f.waiting.value < |f.q.started|
  }

  function Step(f: Flusher, e: FlushEvent): Flusher
    requires CanStep(f, e)
  {
    match e
    case Other(qe) => f.(q := Next(f.q, qe))
    case StartFlush(item) => f.(q := Append(f.q, item, false), waiting := Some(|f.q.accepted|))
    case EndFlush => f.(rounds := f.rounds + 1, waiting := None)
  }

  ghost predicate RunFrom(f: Flusher, es: seq<FlushEvent>)
    decreases |es|, 0
  {
    es == [] || (RunFrom(f, es[..|es| - 1]) && CanStep(End(f, es[..|es| - 1]), es[|es| - 1]))
  }

  ghost function End(f: Flusher, es: seq<FlushEvent>): Flusher
    requires RunFrom(f, es)
    decreases |es|, 1
  {
    if es == [] then f else Step(End(f, es[..|es| - 1]), es[|es| - 1])
  }

  // ----- generations -----

  ghost function Relabel(list: seq<Entry>): (r: seq<Entry>)
    ensures |r| == |list| && forall i :: 0 <= i < |r| ==> r[i] == Entry(list[i].item, Generation(0))
  {
    seq(|list|, i requires 0 <= i < |list| => Entry(list[i].item, Generation(0)))
  }

  /** Begin to watch a queue: everything queued or running is generation 0; whatever an item of
      generation `n` schedules is generation `n + 1`. */
  ghost function Watch(q: Queue): Flusher {
    Flusher(q.(list := Relabel(q.list),
               accepted := q.started + Relabel(q.list),
               worker := match q.worker
                         case Running(entry) => Running(Entry(entry.item, Generation(0)))
                         case w => w),
            0, None)
  }

  predicate AtLeast(o: Origin, k: nat) {
    o.Outside? || o.n >= k
  }

  ghost predicate AllAtLeast(list: seq<Entry>, k: nat) {
    forall i :: 0 <= i < |list| ==> AtLeast(list[i].origin, k)
  }

  ghost predicate RunningAtLeast(w: Worker, k: nat) {
    w.Running? ==> AtLeast(w.entry.origin, k)
  }

  ghost predicate FlushInv(f: Flusher) {
    && Inv(f.q)
    && AllAtLeast(f.q.list, f.rounds)
    && RunningAtLeast(f.q.worker, f.rounds)
    && (f.waiting.Some? ==>
          && f.waiting.value < |f.q.accepted|
          && (if |f.q.started| <= f.waiting.value
              then AllAtLeast(f.q.list[f.waiting.value - |f.q.started|..], f.rounds + 1)
              else AllAtLeast(f.q.list, f.rounds + 1) && RunningAtLeast(f.q.worker, f.rounds + 1)))
  }

  lemma WatchKeepsInv(q: Queue)
    requires Inv(q)
    ensures FlushInv(Watch(q))
  {
  }

  lemma TakeKeepsFlushInv(f: Flusher)
    requires FlushInv(f) && f.q.worker == Cleared
    ensures FlushInv(Step(f, Other(Take)))
  {
  }

  lemma InsertKeepsFlushInv(f: Flusher, item: Item, inside: bool)
    requires FlushInv(f) && (inside ==> f.q.worker.Running?)
    ensures FlushInv(f.(q := Append(f.q, item, inside)))
  {
  }

  lemma StepKeepsFlushInv(f: Flusher, e: FlushEvent)
    requires FlushInv(f) && CanStep(f, e)
    ensures FlushInv(Step(f, e))
  {
    match e
    case Other(qe) =>
      if qe.Take? {
        TakeKeepsFlushInv(f);
      } else if qe.Insert? {
        InsertKeepsFlushInv(f, qe.item, qe.inside);
      } else {
        StepKeepsInv(f.q, qe);
      }
    case StartFlush(item) =>
      InsertKeepsFlushInv(f, item, false);
      var q' := Append(f.q, item, false);
      assert q'.list[|f.q.list|..] == [Entry(item, Outside)];
    case EndFlush =>
  }

  lemma {:induction false} RunKeepsFlushInv(f: Flusher, es: seq<FlushEvent>)
    requires FlushInv(f) && RunFrom(f, es)
    ensures FlushInv(End(f, es))
    decreases |es|
  {
    if es != [] {
      RunKeepsFlushInv(f, es[..|es| - 1]);
      StepKeepsFlushInv(End(f, es[..|es| - 1]), es[|es| - 1]);
    }
  }

  /** After `rounds` raw flushes, with any scheduling going on, nothing of a generation below
      `rounds` is queued or running. For two rounds this is what the header of the queue promises of
      a flush: what was in the queue, and what that scheduled, has run. */
  lemma FlushRunsGenerations(q: Queue, es: seq<FlushEvent>)
    requires Inv(q) && RunFrom(Watch(q), es)
    ensures var f := End(Watch(q), es);
      && AllAtLeast(f.q.list, f.rounds)
      && RunningAtLeast(f.q.worker, f.rounds)
      && f.q.accepted == f.q.started + f.q.list
  {
    WatchKeepsInv(q);
    RunKeepsFlushInv(Watch(q), es);
  }

  // ----- without outside scheduling -----

  /** Only running items schedule, and a chain of items that schedule each other has at most `d`
      links; an item that reschedules itself at most `d` more times is such a chain. */
  ghost predicate Closed(f: Flusher, e: FlushEvent, d: nat) {
    e.Other? && e.e.Insert? ==>
      e.e.inside && f.q.worker.Running? && f.q.worker.entry.origin.Generation? && f.q.worker.entry.origin.n < d
  }

  ghost predicate ClosedRun(f: Flusher, es: seq<FlushEvent>, d: nat)
    requires RunFrom(f, es)
    decreases |es|
  {
    es == [] || (ClosedRun(f, es[..|es| - 1], d) && Closed(End(f, es[..|es| - 1]), es[|es| - 1], d))
  }

  predicate InChain(entry: Entry, d: nat) {
    entry.origin.Generation? && entry.origin.n <= d
  }

  predicate IsFlush(entry: Entry) {
    entry.origin.Outside? && entry.item.Flush?
  }

  /** Every queued entry is within the chain, or is the flush item that is being waited for. */
  ghost predicate ClosedInv(f: Flusher, d: nat) {
    && (forall i :: 0 <= i < |f.q.list| ==>
          InChain(f.q.list[i], d) || (IsFlush(f.q.list[i]) && f.waiting == Some(|f.q.started| + i)))
    && (f.q.worker.Running? ==> InChain(f.q.worker.entry, d) || IsFlush(f.q.worker.entry))
  }

  lemma StepKeepsClosedInv(f: Flusher, e: FlushEvent, d: nat)
    requires FlushInv(f) && ClosedInv(f, d) && CanStep(f, e) && Closed(f, e, d)
    ensures ClosedInv(Step(f, e), d)
  {
  }

  lemma {:induction false} RunKeepsClosedInv(q: Queue, es: seq<FlushEvent>, d: nat)
    requires Inv(q) && RunFrom(Watch(q), es) && ClosedRun(Watch(q), es, d)
    ensures ClosedInv(End(Watch(q), es), d) && FlushInv(End(Watch(q), es))
    decreases |es|
  {
    WatchKeepsInv(q);
    RunKeepsFlushInv(Watch(q), es);
    if es != [] {
      RunKeepsClosedInv(q, es[..|es| - 1], d);
      StepKeepsClosedInv(End(Watch(q), es[..|es| - 1]), es[|es| - 1], d);
    }
  }

  /** With no outside scheduling, `d + 1` raw flushes leave the list empty and no work running. */
  lemma FlushesDrain(q: Queue, es: seq<FlushEvent>, d: nat)
    requires Inv(q) && RunFrom(Watch(q), es) && ClosedRun(Watch(q), es, d)
    requires End(Watch(q), es).rounds > d && End(Watch(q), es).waiting == None
    ensures var f := End(Watch(q), es);
      f.q.list == [] && (f.q.worker.Running? ==> f.q.worker.entry.item.Flush?)
  {
    RunKeepsClosedInv(q, es, d);
    var f := End(Watch(q), es);
    assert f.q.list == [] || AtLeast(f.q.list[0].origin, f.rounds);
  }

  /** `nv_kthread_q_stop` flushes twice and then expects an empty list: true when every item that is
      queued or running reschedules itself (or another item) at most once more. */
  lemma StopFindsListEmpty(q: Queue, es: seq<FlushEvent>)
    requires Inv(q) && RunFrom(Watch(q), es) && ClosedRun(Watch(q), es, 1)
    requires End(Watch(q), es).rounds == 2 && End(Watch(q), es).waiting == None
    ensures End(Watch(q), es).q.list == []
  {
    FlushesDrain(q, es, 1);
  }

  // ----- d flushes are not enough -----

  lemma Extend(f: Flusher, es: seq<FlushEvent>, e: FlushEvent)
    requires RunFrom(f, es) && CanStep(End(f, es), e)
    ensures RunFrom(f, es + [e]) && End(f, es + [e]) == Step(End(f, es), e)
  {
  }

  lemma ExtendClosed(f: Flusher, es: seq<FlushEvent>, e: FlushEvent, d: nat)
    requires RunFrom(f, es) && ClosedRun(f, es, d) && CanStep(End(f, es), e) && Closed(End(f, es), e, d)
    ensures RunFrom(f, es + [e]) && End(f, es + [e]) == Step(End(f, es), e) && ClosedRun(f, es + [e], d)
  {
  }

  /** One self-rescheduling item of generation `k` is queued, nothing else is going on. */
  ghost predicate Lone(f: Flusher, k: nat) {
    && f.q.list == [Entry(Work(0), Generation(k))]
    && f.q.tokens == 1 && f.q.ups == 0 && !f.q.exit && f.q.worker == Waiting
    && f.rounds == k && f.waiting == None && |f.q.accepted| == |f.q.started| + 1
  }

  /** A flush begins and the item is run, with the flush item behind it. */
  lemma RunLoneItem(f: Flusher, es: seq<FlushEvent>, k: nat, d: nat) returns (es': seq<FlushEvent>)
    requires RunFrom(f, es) && ClosedRun(f, es, d) && Lone(End(f, es), k) && k < d
    ensures RunFrom(f, es') && ClosedRun(f, es', d)
    ensures var g := End(f, es');
      && g.q.list == [Entry(Flush(0), Outside)] && g.q.worker == Running(Entry(Work(0), Generation(k)))
      && g.q.tokens == 1 && g.q.ups == 0 && !g.q.exit && g.rounds == k
      && g.waiting == Some(|g.q.started|) && |g.q.accepted| == |g.q.started| + 1
  {
    es' := es;
    ExtendClosed(f, es', StartFlush(Flush(0)), d);
    es' := es' + [StartFlush(Flush(0))];
    ExtendClosed(f, es', Other(Up), d);
    es' := es' + [Other(Up)];
    ExtendClosed(f, es', Other(Down), d);
    es' := es' + [Other(Down)];
    ExtendClosed(f, es', Other(ReadFlag), d);
    es' := es' + [Other(ReadFlag)];
    ExtendClosed(f, es', Other(Take), d);
    es' := es' + [Other(Take)];
  }

  /** The item reschedules itself behind the flush item and finishes. */
  lemma Reschedule(f: Flusher, es: seq<FlushEvent>, k: nat, d: nat) returns (es': seq<FlushEvent>)
    requires RunFrom(f, es) && ClosedRun(f, es, d) && k < d
    requires var g := End(f, es);
      && g.q.list == [Entry(Flush(0), Outside)] && g.q.worker == Running(Entry(Work(0), Generation(k)))
      && g.q.tokens == 1 && g.q.ups == 0 && !g.q.exit && g.rounds == k
      && g.waiting == Some(|g.q.started|) && |g.q.accepted| == |g.q.started| + 1
    ensures RunFrom(f, es') && ClosedRun(f, es', d)
    ensures var g := End(f, es');
      && g.q.list == [Entry(Flush(0), Outside), Entry(Work(0), Generation(k + 1))] && g.q.worker == Waiting
      && g.q.tokens == 2 && g.q.ups == 0 && !g.q.exit && g.rounds == k
      && g.waiting == Some(|g.q.started|) && |g.q.accepted| == |g.q.started| + 2
  {
    es' := es;
    ExtendClosed(f, es', Other(Insert(Work(0), true)), d);
    es' := es' + [Other(Insert(Work(0), true))];
    ExtendClosed(f, es', Other(Up), d);
    es' := es' + [Other(Up)];
    ExtendClosed(f, es', Other(Finish), d);
    es' := es' + [Other(Finish)];
  }

  lemma RunFlushItem(f: Flusher, es: seq<FlushEvent>, k: nat, d: nat) returns (es': seq<FlushEvent>)
    requires RunFrom(f, es) && ClosedRun(f, es, d)
    requires var g := End(f, es);
      && g.q.list == [Entry(Flush(0), Outside), Entry(Work(0), Generation(k + 1))] && g.q.worker == Waiting
      && g.q.tokens == 2 && g.q.ups == 0 && !g.q.exit && g.rounds == k
      && g.waiting == Some(|g.q.started|) && |g.q.accepted| == |g.q.started| + 2
    ensures RunFrom(f, es') && ClosedRun(f, es', d) && Lone(End(f, es'), k + 1)
  {
    es' := es;
    ExtendClosed(f, es', Other(Down), d);
    es' := es' + [Other(Down)];
    ExtendClosed(f, es', Other(ReadFlag), d);
    es' := es' + [Other(ReadFlag)];
    ExtendClosed(f, es', Other(Take), d);
    es' := es' + [Other(Take)];
    ExtendClosed(f, es', Other(Finish), d);
    es' := es' + [Other(Finish)];
    ExtendClosed(f, es', EndFlush, d);
    es' := es' + [EndFlush];
  }

  /** The bound is tight: for every `d` there is a closed run, from a queue that holds one item which
      reschedules itself `d` times, in which `d` raw flushes leave that item in the list. */
  lemma {:induction false} FewerFlushesDoNotDrain(d: nat, r: nat) returns (q: Queue, es: seq<FlushEvent>)
    requires r <= d
    ensures Inv(q) && RunFrom(Watch(q), es) && ClosedRun(Watch(q), es, d)
    ensures End(Watch(q), es).rounds == r && End(Watch(q), es).waiting == None
    ensures End(Watch(q), es).q.list != [] && Lone(End(Watch(q), es), r)
    decreases r
  {
    if r == 0 {
      var entry := Entry(Work(0), Outside);
      q := EMPTY.(list := [entry], accepted := [entry], tokens := 1);
      es := [];
    } else {
      q, es := FewerFlushesDoNotDrain(d, r - 1);
      es := RunLoneItem(Watch(q), es, r - 1, d);
      es := Reschedule(Watch(q), es, r - 1, d);
      es := RunFlushItem(Watch(q), es, r - 1, d);
    }
  }
}
