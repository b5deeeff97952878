/** The order in which completion events of one CRTC are delivered
    (kernel-open/nvidia-drm/nvidia-drm-modeset.c): when it is the order of the commits, and when not. */
module FlipOrder {
  import opened Counting
  import opened Options
  import opened FlipQueue
  import opened FlipProtocol

  ghost predicate Increasing(xs: seq<nat>) {
    forall i, j :: 0 <= i < j < |xs| ==> xs[i] < xs[j]
  }

  ghost predicate AllBelow(xs: seq<nat>, bound: int) {
    forall i :: 0 <= i < |xs| ==> xs[i] < bound
  }

  // ----- what the queue will deliver -----

  /** Commit numbers of the events that the list delivers when it is taken from the front. */
  function ListDelivery(list: seq<Flip>): seq<nat> {
    if list == [] then [] else Delivery(list[0]) + ListDelivery(list[1..])
  }

  lemma {:induction false} ListDeliveryCounts(list: seq<Flip>)
    ensures |ListDelivery(list)| == Events(list)
    decreases |list|
  {
    if list != [] {
      DeliveryCounts(list[0].deferred);
      ListDeliveryCounts(list[1..]);
    }
  }

  lemma {:induction false} DeferredDeliveryIds(ds: seq<Deferred>, x: nat)
    requires x in DeferredDelivery(ds)
    ensures Count(DeferredIds(ds), x) >= 1
    decreases |ds|
  {
    CountConcat([ds[0].id], DeferredIds(ds[1..]), x);
    if x in DeferredDelivery(ds[1..]) {
      DeferredDeliveryIds(ds[1..], x);
    }
  }

  /** What a list delivers are flips that it holds. */
  lemma {:induction false} ListDeliveryIds(list: seq<Flip>, x: nat)
    requires x in ListDelivery(list)
    ensures Count(Ids(list), x) >= 1
    decreases |list|
  {
    var f := list[0];
    CountConcat(FlipIds(f), Ids(list[1..]), x);
    if x in ListDelivery(list[1..]) {
      ListDeliveryIds(list[1..], x);
    } else {
      CountConcat(DeferredIds(f.deferred), [f.id], x);
      if x in DeferredDelivery(f.deferred) {
        DeferredDeliveryIds(f.deferred, x);
      }
    }
  }

  /** A flip deferred behind flips without events. */
  lemma {:induction false} DeferDelivery(list: seq<Flip>, d: Deferred)
    requires list != [] && Events(list) == 0
    ensures ListDelivery(Defer(list, d)) == if d.hasEvent then [d.id] else []
    decreases |list|
  {
    ListDeliveryCounts(list);
    if |list| == 1 {
      var f := list[0].(deferred := [d] + list[0].deferred);
      assert Defer(list, d) == [f] && [f][1..] == [];
      assert f.deferred[1..] == list[0].deferred;
      DeliveryCounts(list[0].deferred);
    } else {
      assert Defer(list, d)[1..] == Defer(list[1..], d);
      DeferDelivery(list[1..], d);
      DeliveryCounts(list[0].deferred);
    }
  }

  // ----- the timeline -----

  function HandlerPart(h: Handler): seq<nat> {
    match h
    case Took(Some(f)) => Delivery(f)
    case _ => []
  }

  function EventOf(f: Deferred): seq<nat> {
    if f.hasEvent then [f.id] else []
  }

  function CommitPart(c: Commit): seq<nat> {
    match c
    case Holding(f, _) => EventOf(f)
    case MustDeliver(f, _) => EventOf(f)
    case _ => []
  }

  /** The events delivered, and then those in the hands of the handler, in the list, and in the hands of
      the commit. */
  function Timeline(s: State): seq<nat> {
    s.delivered + HandlerPart(s.handler) + ListDelivery(s.list) + CommitPart(s.commit)
  }

  ghost predicate Busy(c: Commit) {
    c.Checked? || c.Holding? || c.MustDeliver?
  }

  /** The timeline is in commit order, and a commit in progress has only event-less flips before it. */
  ghost predicate OrderInv(s: State) {
    && Increasing(Timeline(s)) && AllBelow(Timeline(s), s.commits)
    && (Busy(s.commit) ==> Events(s.list) == 0)
  }

  /** A wait before a commit does not time out while an event is queued. */
  ghost predicate Quiet(s: State, e: Event) {
    e.CheckTimeout? ==> Events(s.list) == 0
  }

  /** The timeline without the commit. */
  function Front(s: State): seq<nat> {
    s.delivered + HandlerPart(s.handler) + ListDelivery(s.list)
  }

  predicate IsHandlerEvent(e: Event) {
    e.HandlerLock? || e.HandlerDequeue? || e.HandlerSend? || e.HandlerUnlock?
  }

  lemma DequeueDelivery(list: seq<Flip>)
    requires Armed(list) && list != []
    ensures var r := Dequeue(list);
      ListDelivery(list) == (if r.flip.Some? then Delivery(r.flip.value) else []) + ListDelivery(r.list)
  {
    DequeueShape(list);
    var f := list[0].(pending := list[0].pending - 1);
    assert ([f] + list[1..])[1..] == list[1..];
    assert Delivery(f) == Delivery(list[0]);
  }

  lemma DequeueFront(s: State)
    requires s.handler == Locked && Armed(s.list)
    ensures var s' := Next(s, HandlerDequeue);
      Front(s') == Front(s) && Armed(s'.list) && Events(s'.list) <= Events(s.list)
  {
    if s.list != [] {
      DequeueSpends(s.list);
      DequeueDelivery(s.list);
      var r := Dequeue(s.list);
      var taken := if r.flip.Some? then Delivery(r.flip.value) else [];
      Regroup(s.delivered, taken, ListDelivery(r.list));
      assert HandlerPart(Took(r.flip)) == taken;
    }
  }

  lemma Regroup(a: seq<nat>, b: seq<nat>, c: seq<nat>)
    ensures a + [] + (b + c) == a + b + c
    ensures a + [] + [] == a && a + [] + b == a + b + []
  {
  }

  lemma HandlerKeepsFront(s: State, e: Event)
    requires Armed(s.list) && Enabled(s, e) && IsHandlerEvent(e)
    ensures var s' := Next(s, e);
      Front(s') == Front(s) && s'.commit == s.commit && s'.commits == s.commits
      && Armed(s'.list) && Events(s'.list) <= Events(s.list)
  {
    if e.HandlerDequeue? {
      DequeueFront(s);
    }
  }

  lemma SettleTimeline(s: State)
    requires s.commit.Holding? && Events(s.list) == 0
    ensures Timeline(SettleStep(s)) == Timeline(s)
  {
    ListDeliveryCounts(s.list);
    if s.list != [] {
      DeferDelivery(s.list, s.commit.flip);
      Regroup(s.delivered + HandlerPart(s.handler), EventOf(s.commit.flip), []);
    }
  }

  lemma EnqueueDelivery(list: seq<Flip>, id: nat, hasEvent: bool, pending: nat)
    ensures ListDelivery(Enqueue(list, Flip(id, hasEvent, pending, []))) == EventOf(Deferred(id, hasEvent)) + ListDelivery(list)
  {
    var f := Flip(id, hasEvent, pending, []);
    assert ([f] + list)[1..] == list;
    assert Delivery(f) == EventOf(Deferred(id, hasEvent));
  }

  lemma ApplyTimeline(s: State, hasEvent: bool, pending: nat, fails: bool)
    requires s.commit.Checked? && Events(s.list) == 0
    ensures Timeline(ApplyStep(s, hasEvent, pending, fails))
         == Timeline(s) + (if pending == 0 && fails then [] else EventOf(Deferred(s.commits, hasEvent)))
  {
    ListDeliveryCounts(s.list);
    var before, last := s.delivered + HandlerPart(s.handler), EventOf(Deferred(s.commits, hasEvent));
    assert ListDelivery(s.list) == [];
    Regroup(before, last, []);
    if pending > 0 {
      EnqueueDelivery(s.list, s.commits, hasEvent, pending);
      assert last + [] == last;
      Regroup(before + last, [], []);
    }
  }

  lemma OrderFrom(s: State, s': State, more: seq<nat>)
    requires OrderInv(s) && Timeline(s') == Timeline(s) + more && s.commits <= s'.commits
    requires more == [] || (more == [s.commits] && s.commits < s'.commits)
    requires Busy(s'.commit) ==> Events(s'.list) == 0
    ensures OrderInv(s')
  {
  }

  lemma DeliverTimeline(s: State)
    requires s.commit.MustDeliver? && (s.commit.flip.hasEvent ==> s.handler == Unlocked) && Events(s.list) == 0
    ensures Timeline(DeliverStep(s)) == Timeline(s)
  {
    ListDeliveryCounts(s.list);
  }

  lemma CommitKeepsOrder(s: State, e: Event)
    requires OrderInv(s) && Enabled(s, e) && Quiet(s, e) && !IsHandlerEvent(e)
    ensures OrderInv(Next(s, e))
  {
    if e.Apply? {
      ApplyKeepsOrder(s, e.hasEvent, e.pending, e.fails);
    } else if e.Settle? {
      SettleTimeline(s);
      OrderFrom(s, SettleStep(s), []);
    } else if e.Deliver? {
      DeliverTimeline(s);
      OrderFrom(s, DeliverStep(s), []);
    } else {
      assert Timeline(Next(s, e)) == Timeline(s);
    }
  }

  lemma ApplyKeepsOrder(s: State, hasEvent: bool, pending: nat, fails: bool)
    requires OrderInv(s) && s.commit.Checked?
    ensures OrderInv(ApplyStep(s, hasEvent, pending, fails))
  {
    ApplyTimeline(s, hasEvent, pending, fails);
    OrderFrom(s, ApplyStep(s, hasEvent, pending, fails),
              if pending == 0 && fails then [] else EventOf(Deferred(s.commits, hasEvent)));
  }

  lemma StepKeepsOrder(s: State, e: Event)
    requires Inv(s) && OrderInv(s) && Enabled(s, e) && Quiet(s, e)
    ensures OrderInv(Next(s, e))
  {
    if IsHandlerEvent(e) {
      HandlerKeepsFront(s, e);
      OrderFrom(s, Next(s, e), []);
    } else {
      CommitKeepsOrder(s, e);
    }
  }

  // ----- runs -----

  /** From event `n` on, no wait before a commit times out while an event is queued. */
  ghost predicate QuietFrom(vblank: bool, es: seq<Event>, n: nat)
    requires ValidRun(vblank, es)
    decreases |es|
  {
    |es| <= n || (QuietFrom(vblank, es[..|es| - 1], n) && Quiet(After(vblank, es[..|es| - 1]), es[|es| - 1]))
  }

  lemma {:induction false} RunKeepsOrder(vblank: bool, es: seq<Event>)
    requires ValidRun(vblank, es) && QuietFrom(vblank, es, 0)
    ensures OrderInv(After(vblank, es))
    decreases |es|
  {
    if es != [] {
      RunKeepsOrder(vblank, es[..|es| - 1]);
      RunKeepsInv(vblank, es[..|es| - 1]);
      StepKeepsOrder(After(vblank, es[..|es| - 1]), es[|es| - 1]);
    }
  }

  /** In every run whose waits before a commit do not time out with an event queued, completion events
      are delivered in commit order, and those still to come follow in that order. */
  lemma DeliveredInCommitOrder(vblank: bool, es: seq<Event>)
    requires ValidRun(vblank, es) && QuietFrom(vblank, es, 0)
    ensures Increasing(After(vblank, es).delivered)
    ensures Increasing(Timeline(After(vblank, es)))
  {
    RunKeepsOrder(vblank, es);
    var s := After(vblank, es);
    forall i, j | 0 <= i < j < |s.delivered| ensures s.delivered[i] < s.delivered[j] {
      assert Timeline(s)[i] == s.delivered[i] && Timeline(s)[j] == s.delivered[j];
    }
  }

  /** No wait before a commit times out while a flip is queued. */
  ghost predicate PromptRun(vblank: bool, es: seq<Event>)
    requires ValidRun(vblank, es)
    decreases |es|
  {
    es == [] ||
    (PromptRun(vblank, es[..|es| - 1]) && (es[|es| - 1].CheckTimeout? ==> After(vblank, es[..|es| - 1]).list == []))
  }

  /** Then the list never holds more than one flip, and none while a commit is in progress. */
  lemma {:induction false} AtMostOneQueued(vblank: bool, es: seq<Event>)
    requires ValidRun(vblank, es) && PromptRun(vblank, es)
    ensures var s := After(vblank, es); |s.list| <= 1 && (Busy(s.commit) ==> s.list == [])
    decreases |es|
  {
    if es != [] {
      AtMostOneQueued(vblank, es[..|es| - 1]);
    }
  }

  // ----- every other timeout can reverse the order -----

  lemma Extend(vblank: bool, es: seq<Event>, n: nat, e: Event)
    requires ValidRun(vblank, es) && QuietFrom(vblank, es, n) && Enabled(After(vblank, es), e)
    requires |es| >= n ==> Quiet(After(vblank, es), e)
    ensures ValidRun(vblank, es + [e]) && QuietFrom(vblank, es + [e], n)
    ensures After(vblank, es + [e]) == Next(After(vblank, es), e)
  {
    var es' := es + [e];
    assert es'[..|es'| - 1] == es;
  }

  /** What the handler does next: a new call, or the next step of the one it is in. */
  function NextStep(h: Handler): Event {
    match h
    case Unlocked => HandlerLock
    case Locked => HandlerDequeue
    case Took(_) => HandlerSend
    case Sent(_) => HandlerUnlock
  }

  function Rank(s: State): nat {
    match s.handler
    case Unlocked => 1
    case Locked => if s.list == [] then 4 else 0
    case Took(_) => 3
    case Sent(_) => 2
  }

  lemma HandlerMakesProgress(s: State)
    requires Armed(s.list) && (s.handler == Unlocked ==> s.list != [])
    ensures var s' := Next(s, NextStep(s.handler));
      PendingSum(s'.list) < PendingSum(s.list) || (PendingSum(s'.list) == PendingSum(s.list) && Rank(s') < Rank(s))
  {
    if s.handler == Locked && s.list != [] {
      DequeueSpends(s.list);
    }
  }

  /** Enough hardware events deliver what the handler holds and then everything queued, from the front. */
  lemma {:induction false} DeliverAll(vblank: bool, es: seq<Event>, n: nat) returns (es': seq<Event>)
    requires ValidRun(vblank, es) && QuietFrom(vblank, es, n) && Armed(After(vblank, es).list)
    ensures ValidRun(vblank, es') && QuietFrom(vblank, es', n) && es <= es'
    ensures After(vblank, es').delivered == Front(After(vblank, es))
    decreases PendingSum(After(vblank, es).list), Rank(After(vblank, es))
  {
    var s := After(vblank, es);
    if s.handler == Unlocked && s.list == [] {
      es' := es;
    } else {
      var e := NextStep(s.handler);
      HandlerMakesProgress(s);
      HandlerKeepsFront(s, e);
      Extend(vblank, es, n, e);
      es' := DeliverAll(vblank, es + [e], n);
    }
  }

  /** Whatever the handler is doing: when a wait times out with an event queued, the run can go on so
      that a commit that succeeds overtakes that event. */
  lemma TimeoutCanReverse(vblank: bool, es: seq<Event>) returns (es': seq<Event>)
    requires ValidRun(vblank, es)
    requires After(vblank, es).commit == Idle && Events(After(vblank, es).list) > 0
    ensures Continues(vblank, es, es') && !Increasing(After(vblank, es').delivered)
  {
    RunKeepsInv(vblank, es);
    var s, n := After(vblank, es), |es| + 1;
    Extend(vblank, es, n, CheckTimeout);
    es' := es + [CheckTimeout];
    Extend(vblank, es', n, Apply(true, 1, false));
    es' := es' + [Apply(true, 1, false)];
    RunKeepsInv(vblank, es');
    EnqueueDelivery(s.list, s.commits, true, 1);
    es' := DeliverAll(vblank, es', n);
    Overtaken(s, s.delivered + HandlerPart(s.handler), After(vblank, es').delivered);
  }

  lemma Overtaken(s: State, before: seq<nat>, delivered: seq<nat>)
    requires Inv(s) && Events(s.list) > 0 && delivered == before + ([s.commits] + ListDelivery(s.list))
    ensures !Increasing(delivered)
  {
    ListDeliveryCounts(s.list);
    var x := ListDelivery(s.list)[0];
    ListDeliveryIds(s.list, x);
    assert Owners(s, x) == One(x < s.commits);
    assert delivered[|before|] == s.commits && delivered[|before| + 1] == x;
  }

  /** A run that goes on after `es` and a wait that times out, with no further timeout while an event is
      queued. */
  ghost predicate Continues(vblank: bool, es: seq<Event>, es': seq<Event>) {
    es + [CheckTimeout] <= es' && ValidRun(vblank, es') && QuietFrom(vblank, es', |es| + 1)
  }

  lemma {:induction false} QuietAfterTimeout(vblank: bool, es: seq<Event>, es': seq<Event>)
    requires ValidRun(vblank, es) && QuietFrom(vblank, es, 0) && Events(After(vblank, es).list) == 0
    requires Continues(vblank, es, es')
    ensures QuietFrom(vblank, es', 0)
    decreases |es'|
  {
    var init := es'[..|es'| - 1];
    if |es'| == |es| + 1 {
      assert es' == es + [CheckTimeout] && init == es;
    } else {
      assert es + [CheckTimeout] <= init;
      QuietAfterTimeout(vblank, es, init);
    }
  }

  /** After a run without such timeouts, a wait that times out leaves the order of delivery safe, however
      the run goes on, if and only if no event is queued. */
  lemma TimeoutKeepsOrderIff(vblank: bool, es: seq<Event>)
    requires ValidRun(vblank, es) && QuietFrom(vblank, es, 0) && After(vblank, es).commit == Idle
    ensures (forall es' :: Continues(vblank, es, es') ==> Increasing(After(vblank, es').delivered))
       <==> Events(After(vblank, es).list) == 0
  {
    if Events(After(vblank, es).list) == 0 {
      forall es' | Continues(vblank, es, es')
        ensures Increasing(After(vblank, es').delivered)
      {
        QuietAfterTimeout(vblank, es, es');
        DeliveredInCommitOrder(vblank, es');
      }
    } else {
      var es' := TimeoutCanReverse(vblank, es);
    }
  }

  // ----- a concrete run -----

  /** Commits 0 and 1, the second after a wait that timed out: both flips are queued, the newer one in
      front. */
  lemma TwoQueued() returns (es: seq<Event>)
    ensures ValidRun(false, es) && QuietFrom(false, es, |es|)
    ensures After(false, es)
         == State(false, [Flip(1, true, 1, []), Flip(0, true, 1, [])], Unlocked, Finishing(false), 2, 0, [], [])
  {
    es := [];
    Extend(false, es, 9, Check(true));
    es := es + [Check(true)];
    Extend(false, es, 9, Apply(true, 1, false));
    es := es + [Apply(true, 1, false)];
    Extend(false, es, 9, Return);
    es := es + [Return];
    Extend(false, es, 9, CheckTimeout);
    es := es + [CheckTimeout];
    Extend(false, es, 9, Apply(true, 1, false));
    es := es + [Apply(true, 1, false)];
  }

  /** The event of commit 1 is delivered before that of commit 0. */
  lemma TimeoutReversesOrder() returns (es: seq<Event>)
    ensures ValidRun(false, es) && After(false, es).delivered == [1, 0]
  {
    es := TwoQueued();
    var list := After(false, es).list;
    assert list[1..] == [Flip(0, true, 1, [])] && list[1..][1..] == [];
    assert ListDelivery(list[1..]) == [0];
    assert ListDelivery(list) == [1, 0];
    es := DeliverAll(false, es, |es|);
  }
}
