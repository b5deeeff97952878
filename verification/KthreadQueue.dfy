/** The work queue of kernel-open/nvidia-drm/nv-kthread-q.c: a first-in first-out list, a counting
    semaphore, an exit flag and one worker thread.

    Scheduling is two steps, because the semaphore is raised after the list lock is dropped; so is an
    iteration of the worker: take a token, read the exit flag, take the first item, run it. */
module KthreadQueue {
  /** A `nv_kthread_q_item_t`: ordinary work, or the stack item of a flush. */
  datatype Item = Work(id: nat) | Flush(id: nat)

  /** Where an entry comes from: scheduled by code outside the queue, or `n` scheduling steps away
      from an entry that was there when somebody began to watch. */
  datatype Origin = Outside | Generation(n: nat)

  datatype Entry = Entry(item: Item, origin: Origin)

  datatype Worker =
    | Waiting
    | HasToken                 // came out of down_interruptible
    | Cleared                  // read the exit flag as 0
    | Running(entry: Entry)
    | Exited

  /** `ups` counts the schedulers between inserting and raising the semaphore; `exitUps` the extra
      token of `nv_kthread_q_stop`; `accepted` and `started` record the order of events; `warned`
      says that the worker found the list empty. */
  datatype Queue = Queue(
    list: seq<Entry>,
    tokens: nat,
    ups: nat,
    exit: bool,
    exitUps: nat,
    worker: Worker,
    accepted: seq<Entry>,
    started: seq<Entry>,
    warned: bool)

  const EMPTY := Queue([], 0, 0, false, 0, Waiting, [], [], false)

  predicate Contains(list: seq<Entry>, item: Item) {
    exists i :: 0 <= i < |list| && list[i].item == item
  }

  datatype Event =
    | Insert(item: Item, inside: bool)  // inside: called by the item that is running
    | Up
    | Down
    | ReadFlag
    | Take
    | Finish
    | SetExit
    | ExitUp

  predicate Enabled(q: Queue, e: Event) {
    match e
    case Insert(_, inside) => inside ==> q.worker.Running?
    case Up => q.ups > 0
    case Down => q.worker == Waiting && q.tokens > 0
    case ReadFlag => q.worker == HasToken
    case Take => q.worker == Cleared
    case Finish => q.worker.Running?
    case SetExit => !q.exit
    case ExitUp => q.exit && q.exitUps == 0
  }

  function ChildOrigin(w: Worker, inside: bool): Origin {
    if inside && w.Running? && w.entry.origin.Generation? then Generation(w.entry.origin.n + 1) else Outside
  }

  /** The locked section of `_raw_q_schedule`: nothing happens when the item is already queued. */
  function Append(q: Queue, item: Item, inside: bool): Queue {
    if Contains(q.list, item) then q
    else
      var entry := Entry(item, ChildOrigin(q.worker, inside));
      q.(list := q.list + [entry], accepted := q.accepted + [entry], ups := q.ups + 1)
  }

  function TakeFirst(q: Queue): Queue {
    if q.list == [] then q.(worker := Waiting, warned := true)
    else q.(list := q.list[1..], worker := Running(q.list[0]), started := q.started + [q.list[0]])
  }

  function Next(q: Queue, e: Event): Queue
    requires Enabled(q, e)
  {
    match e
    case Insert(item, inside) => Append(q, item, inside)
    case Up => q.(ups := q.ups - 1, tokens := q.tokens + 1)
    case Down => q.(worker := HasToken, tokens := q.tokens - 1)
    case ReadFlag => q.(worker := if q.exit then Exited else Cleared)
    case Take => TakeFirst(q)
    case Finish => q.(worker := Waiting)
    case SetExit => q.(exit := true)
    case ExitUp => q.(exitUps := 1, tokens := q.tokens + 1)
  }

  // ----- the invariant -----

  /** The worker came out of `down` and has not used the token on an item. */
  function Unspent(w: Worker): nat {
    if w.HasToken? || w.Cleared? || w.Exited? then 1 else 0
  }

  ghost predicate NoDuplicates(list: seq<Entry>) {
    forall i, j :: 0 <= i < j < |list| ==> list[i].item != list[j].item
  }

  ghost predicate Inv(q: Queue) {
    // Tokens, tokens on their way and the worker's unspent token pay for the items and the exit.
    && q.tokens + q.ups + Unspent(q.worker) == |q.list| + q.exitUps
    && q.exitUps <= 1 && (q.exitUps == 1 ==> q.exit)
    && (q.worker.Exited? ==> q.exit)
    // Until the worker takes the exit token, the token is in the semaphore.
    && (q.worker.Waiting? || q.worker.Cleared? || q.worker.Running? ==> q.exitUps <= q.tokens)
    && NoDuplicates(q.list)
    && q.accepted == q.started + q.list
    && !q.warned
  }

  lemma StepKeepsInv(q: Queue, e: Event)
    requires Inv(q) && Enabled(q, e)
    ensures Inv(Next(q, e))
  {
  }

  // ----- runs -----

  ghost predicate ValidRun(es: seq<Event>)
    decreases |es|, 0
  {
    es == [] || (ValidRun(es[..|es| - 1]) && Enabled(After(es[..|es| - 1]), es[|es| - 1]))
  }

  ghost function After(es: seq<Event>): Queue
    requires ValidRun(es)
    decreases |es|, 1
  {
    if es == [] then EMPTY else Next(After(es[..|es| - 1]), es[|es| - 1])
  }

  lemma {:induction false} RunKeepsInv(es: seq<Event>)
    requires ValidRun(es)
    ensures Inv(After(es))
    decreases |es|
  {
    if es != [] {
      RunKeepsInv(es[..|es| - 1]);
      StepKeepsInv(After(es[..|es| - 1]), es[|es| - 1]);
    }
  }

  /** Over every run: the worker never finds the list empty; no item is queued twice; items start in
      exactly the order they were accepted, and those not yet started are the queue. */
  lemma QueueIsSound(es: seq<Event>)
    requires ValidRun(es)
    ensures var q := After(es);
      && !q.warned
      && (q.worker == Cleared ==> q.list != [])
      && NoDuplicates(q.list)
      && q.started <= q.accepted && q.list == q.accepted[|q.started|..]
  {
    RunKeepsInv(es);
  }

  /** No wake-up is lost: whenever an item is queued and the worker waits, either the semaphore is up
      or the scheduler that inserted an item is still about to raise it. */
  lemma NoLostWakeup(es: seq<Event>)
    requires ValidRun(es)
    ensures var q := After(es);
      q.list != [] && q.worker == Waiting ==> q.tokens > 0 || q.ups > 0
  {
    RunKeepsInv(es);
  }

  // ----- the object itself -----

  class NvKthreadQ {
    var list: seq<Entry>
    var sem: nat
    var mainLoopShouldExit: bool
    var worker: Worker
    ghost var ups: nat
    ghost var exitUps: nat
    ghost var accepted: seq<Entry>
    ghost var started: seq<Entry>
    var warned: bool

    ghost function View(): Queue
      reads this
    {
      Queue(list, sem, ups, mainLoopShouldExit, exitUps, worker, accepted, started, warned)
    }

    constructor ()
      ensures View() == EMPTY
    {
      list, sem, mainLoopShouldExit, worker, warned := [], 0, false, Waiting, false;
      ups, exitUps, accepted, started := 0, 0, [], [];
    }

    /** The part of `_raw_q_schedule` under the list lock. */
    method InsertLocked(item: Item, inside: bool) returns (inserted: bool)
      requires Enabled(View(), Insert(item, inside))
      modifies this
      ensures View() == Next(old(View()), Insert(item, inside))
      ensures inserted <==> !Contains(old(list), item)
    {
      inserted := true;
      for i := 0 to |list|
        invariant View() == old(View()) && inserted
        invariant !Contains(list[..i], item)
      {
        if list[i].item == item {
          inserted := false;
          return;
        }
      }
      assert list[..|list|] == list;
      var entry := Entry(item, ChildOrigin(worker, inside));
      list := list + [entry];
      ups := ups + 1;
      accepted := accepted + [entry];
    }

    method RaiseSemaphore()
      requires Enabled(View(), Up)
      modifies this
      ensures View() == Next(old(View()), Up)
    {
      sem := sem + 1;
      ups := ups - 1;
    }

    /** One iteration of `_main_loop` with a token available and nobody interfering. */
    method Iterate() returns (exited: bool)
      requires Inv(View()) && Enabled(View(), Down)
      modifies this
      ensures Inv(View())
      ensures exited == old(mainLoopShouldExit)
      ensures var q := Next(Next(old(View()), Down), ReadFlag);
        View() == if exited then q else Next(Next(q, Take), Finish)
    {
      StepKeepsInv(View(), Down);
      worker := HasToken;
      sem := sem - 1;
      StepKeepsInv(View(), ReadFlag);
      exited := mainLoopShouldExit;
      if exited {
        worker := Exited;
        return;
      }
      worker := Cleared;
      StepKeepsInv(View(), Take);
      var item := list[0];
      list := list[1..];
      started := started + [item];
      worker := Running(item);
      StepKeepsInv(View(), Finish);
      worker := Waiting;
    }

    /** The worker, left alone with what is queued: every item runs once and in order, the "empty
        queue" branch is never taken, and every token is used up. */
    method RunQueued()
      requires Inv(View()) && worker == Waiting && !mainLoopShouldExit && ups == 0
      modifies this
      ensures Inv(View()) && worker == Waiting
      ensures started == old(started) + old(list) && list == [] && sem == 0
    {
      while sem > 0
        invariant Inv(View()) && worker == Waiting && !mainLoopShouldExit && ups == 0
        invariant started + list == old(started) + old(list)
        decreases |list|
      {
        ghost var before := started + list;
        var exited := Iterate();
        assert started + list == before;
      }
    }
  }
}
