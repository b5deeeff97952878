/** What happens to fences over whole runs of the fence-context protocol. A pass takes fences off the
    pending list under the lock and signals them after it has dropped the lock, so several passes can
    have fences in hand at once. The list stays sorted, fences leave it in the order of creation, and
    every fence is always in exactly one place. */
module SemsurfFences {
  import opened Options
  import opened Counting
  import opened PendingFences
  import opened SemsurfContext
  import opened SemsurfProtocol

  ghost function Fences(signals: seq<Signal>): (r: seq<Fence>)
    ensures |r| == |signals| && forall i :: 0 <= i < |r| ==> r[i] == signals[i].fence
  {
    seq(|signals|, i requires 0 <= i < |signals| => signals[i].fence)
  }

  lemma FencesConcat(a: seq<Signal>, b: seq<Signal>)
    ensures Fences(a + b) == Fences(a) + Fences(b)
  {
  }

  // ----- passes -----

  predicate IsPass(e: Event) {
    e.ProcessCompleted? || e.CallbackProcess? || e.CompletePending?
  }

  function PasserOf(e: Event): Passer
    requires IsPass(e)
  {
    if e.ProcessCompleted? then ByThread(e.t) else if e.CallbackProcess? then ByCallback(e.cb) else ByDestructor
  }

  /** The fences a pass takes off the list. */
  ghost function TakenBy(s: State, e: Event): seq<Fence>
    requires IsPass(e)
  {
    if e.CompletePending? then s.ctx.pending
    else var w := Sweep(s.ctx.pending, e.sample, e.now); w.finished + w.timedOut
  }

  /** What a pass will signal. */
  ghost function HandBy(s: State, e: Event): seq<Signal>
    requires IsPass(e)
  {
    if e.CompletePending? then Signals(s.ctx.pending, true)
    else var w := Sweep(s.ctx.pending, e.sample, e.now); Signals(w.finished, false) + Signals(w.timedOut, true)
  }

  lemma HandFences(s: State, e: Event)
    requires IsPass(e)
    ensures Fences(HandBy(s, e)) == TakenBy(s, e)
  {
  }

  lemma FourPieces(a: seq<Fence>, b: seq<Fence>, c: seq<Fence>, d: seq<Fence>)
    ensures (a + b + c) + d == a + (b + c + d) && a + b + c == a + (b + c)
  {
  }

  lemma SuffixSorted(a: seq<Fence>, b: seq<Fence>)
    requires Sorted(a + b)
    ensures Sorted(b)
  {
    assert forall i :: 0 <= i < |b| ==> b[i] == (a + b)[|a| + i];
  }

  lemma PassLeaves(s: State, e: Event)
    requires IsPass(e) && Enabled(s, e)
    ensures var s' := Next(s, e);
      && s'.ctx.pending == (if e.CompletePending? then [] else Sweep(s.ctx.pending, e.sample, e.now).rest)
      && s'.ctx.taken == s.ctx.taken + TakenBy(s, e)
  {
    if !e.CompletePending? {
      var w := Sweep(s.ctx.pending, e.sample, e.now);
      FourPieces(s.ctx.taken, w.finished, w.timedOut, w.rest);
    }
  }

  lemma PassSplits(s: State, e: Event)
    requires IsPass(e) && Enabled(s, e) && Sorted(s.ctx.pending)
    ensures var s' := Next(s, e);
      TakenBy(s, e) + s'.ctx.pending == s.ctx.pending && Sorted(s'.ctx.pending) && s'.ctx.taken == s.ctx.taken + TakenBy(s, e)
  {
    PassLeaves(s, e);
    if !e.CompletePending? {
      SweepInOrder(s.ctx.pending, e.sample, e.now);
      SuffixSorted(TakenBy(s, e), Next(s, e).ctx.pending);
    }
  }

  lemma PassFills(s: State, e: Event)
    requires IsPass(e) && Enabled(s, e)
    ensures var s' := Next(s, e);
      && Idle(s, PasserOf(e))
      && s'.hands == s.hands[PasserOf(e) := Hand(HandBy(s, e), None)]
      && s'.signaled == s.signaled && s'.puts == s.puts && s'.added == s.added && s'.semaphore == s.semaphore
  {
  }

  /** A pass moves fences from the front of the list to the end of those taken, and into the hand of
      whoever makes it. It signals and puts nothing. */
  lemma PassTakes(s: State, e: Event)
    requires IsPass(e) && Enabled(s, e) && Sorted(s.ctx.pending)
    ensures var s', took := Next(s, e), TakenBy(s, e);
      && took + s'.ctx.pending == s.ctx.pending
      && s'.ctx.taken == s.ctx.taken + took
      && Sorted(s'.ctx.pending)
      && Idle(s, PasserOf(e))
      && s'.hands == s.hands[PasserOf(e) := Hand(HandBy(s, e), None)] && Fences(HandBy(s, e)) == took
      && s'.signaled == s.signaled && s'.puts == s.puts && s'.added == s.added && s'.semaphore == s.semaphore
  {
    PassSplits(s, e);
    PassFills(s, e);
    HandFences(s, e);
  }

  // ----- the order in which fences leave the list -----

  ghost predicate Distinct(fences: seq<Fence>) {
    forall i, j :: 0 <= i < j < |fences| ==> fences[i].id != fences[j].id
  }

  /** The fences that have left the list, in that order, and then the pending ones. */
  function Line(c: Context): seq<Fence> {
    c.taken + c.pending
  }

  ghost predicate LineInv(s: State) {
    && Sorted(s.ctx.pending)
    && Distinct(s.added)
    && (forall v: nat :: WithValue(Line(s.ctx), v) == WithValue(s.added, v))
  }

  lemma PassKeepsLine(s: State, e: Event)
    requires IsPass(e) && Enabled(s, e) && Sorted(s.ctx.pending)
    ensures Line(Next(s, e).ctx) == Line(s.ctx)
  {
    PassTakes(s, e);
    FourPieces(s.ctx.taken, TakenBy(s, e), [], Next(s, e).ctx.pending);
    assert TakenBy(s, e) + [] == TakenBy(s, e);
  }

  lemma AddKeepsOrder(c: Context, f: Fence, added: seq<Fence>, v: nat)
    requires Sorted(c.pending) && WithValue(Line(c), v) == WithValue(added, v)
    ensures WithValue(Line(AddPending(c, f)), v) == WithValue(added + [f], v)
  {
    var last := if v == f.seqno then [f] else [];
    InsertStable(c.pending, f, v);
    WithValueConcat(c.taken, c.pending, v);
    WithValueConcat(c.taken, Insert(c.pending, f), v);
    WithValueConcat(added, [f], v);
    assert WithValue([f], v) == last by {
      assert [f][1..] == [];
    }
    assert WithValue(c.taken, v) + (WithValue(c.pending, v) + last) == WithValue(c.taken, v) + WithValue(c.pending, v) + last;
  }

  lemma AddKeepsLine(s: State, s': State, f: Fence)
    requires LineInv(s) && forall i :: 0 <= i < |s.added| ==> s.added[i].id != f.id
    requires s'.ctx == AddPending(s.ctx, f) && s'.added == s.added + [f]
    ensures LineInv(s')
  {
    InsertSorted(s.ctx.pending, f);
    forall v: nat
      ensures WithValue(Line(s'.ctx), v) == WithValue(s'.added, v)
    {
      AddKeepsOrder(s.ctx, f, s.added, v);
    }
  }

  predicate MovesNoFence(e: Event) {
    !e.AddFence? && !IsPass(e) && !e.SignalNext? && !e.PutNext?
  }

  ghost predicate SameFences(s: State, s': State) {
    && s'.ctx.pending == s.ctx.pending && s'.ctx.taken == s.ctx.taken && s'.added == s.added
    && s'.hands == s.hands && s'.signaled == s.signaled && s'.puts == s.puts && s.semaphore <= s'.semaphore
  }

  predicate OfThread(e: Event) {
    e.Alloc? || e.AllocFail? || e.Register? || e.StoreCallback? || e.Unregister? || e.FreeUnneeded? || e.Return?
  }

  lemma ThreadMovesNone(s: State, e: Event)
    requires Enabled(s, e) && OfThread(e)
    ensures SameFences(s, Next(s, e)) && Next(s, e).stage == s.stage
  {
  }

  lemma OthersMoveNone(s: State, e: Event)
    requires Enabled(s, e) && MovesNoFence(e) && !OfThread(e)
    ensures SameFences(s, Next(s, e))
  {
  }

  /** The steps that neither add a fence nor take, signal or put one. */
  lemma QuietStepsMoveNone(s: State, e: Event)
    requires Enabled(s, e) && MovesNoFence(e)
    ensures SameFences(s, Next(s, e))
  {
    if OfThread(e) {
      ThreadMovesNone(s, e);
    } else {
      OthersMoveNone(s, e);
    }
  }

  lemma StepKeepsLine(s: State, e: Event)
    requires LineInv(s) && Enabled(s, e)
    ensures LineInv(Next(s, e))
  {
    if e.AddFence? {
      AddKeepsLine(s, Next(s, e), e.fence);
    } else if IsPass(e) {
      PassTakes(s, e);
      PassKeepsLine(s, e);
    } else if MovesNoFence(e) {
      QuietStepsMoveNone(s, e);
    }
  }

  lemma {:induction false} RunKeepsLine(es: seq<Event>)
    requires ValidRun(es)
    ensures LineInv(After(es))
    decreases |es|
  {
    if es != [] {
      var init := es[..|es| - 1];
      RunKeepsLine(init);
      StepKeepsLine(After(init), es[|es| - 1]);
    }
  }

  /** Over every run, the fences that wait for one value leave the list in the order of creation, and
      those still pending follow in that order. */
  lemma TakenInCreationOrder(es: seq<Event>, v: nat)
    requires ValidRun(es)
    ensures var s := After(es);
      WithValue(s.ctx.taken, v) + WithValue(s.ctx.pending, v) == WithValue(s.added, v)
  {
    RunKeepsLine(es);
    WithValueConcat(After(es).ctx.taken, After(es).ctx.pending, v);
  }

  // ----- where each fence is -----

  /** The life of a fence: on the list, in the hand of a pass, signalled by that pass but still
      referenced by it, and signalled with the reference dropped. */
  datatype Place = Nowhere | Pending | InHand(p: Passer) | ToPut(p: Passer) | Gone

  ghost predicate HandAgrees(h: Hand, p: Passer, f: Fence, place: Place) {
    && Count(Fences(h.todo), f) == One(place == InHand(p))
    && (h.drop == Some(f) <==> place == ToPut(p))
  }

  /** The fence is at `place` and nowhere else: once on the list or never, once in one hand or in none,
      taken, signalled and put once or never. */
  ghost predicate Located(s: State, f: Fence, place: Place) {
    && Count(s.ctx.pending, f) == One(place.Pending?)
    && Count(s.ctx.taken, f) == One(place.InHand? || place.ToPut? || place.Gone?)
    && Count(Fences(s.signaled), f) == One(place.ToPut? || place.Gone?)
    && Count(s.puts, f) == One(place.Gone?)
    && (forall p :: HandAgrees(HandOf(s, p), p, f, place))
  }

  ghost predicate AddedAt(s: State, f: Fence, place: Place) {
    Located(s, f, place) && (place.Nowhere? <==> f !in s.added)
  }

  lemma {:induction false} InsertCount(p: seq<Fence>, f: Fence, g: Fence)
    ensures Count(Insert(p, f), g) == Count(p, g) + One(f == g)
    decreases |p|
  {
    if p == [] || p[0].seqno > f.seqno {
      assert Insert(p, f)[1..] == p;
    } else {
      assert Insert(p, f)[1..] == Insert(p[1..], f);
      InsertCount(p[1..], f, g);
    }
  }

  lemma CountIn(s: seq<Fence>, f: Fence)
    ensures Count(s, f) > 0 <==> f in s
  {
  }

  lemma AddMoves(s: State, e: Event, f: Fence, place: Place) returns (place': Place)
    requires e.AddFence? && Enabled(s, e) && AddedAt(s, f, place)
    ensures AddedAt(Next(s, e), f, place')
  {
    var s' := Next(s, e);
    InsertCount(s.ctx.pending, e.fence, f);
    place' := if f == e.fence then Pending else place;
    assert f == e.fence ==> f !in s.added;
    forall p ensures HandAgrees(HandOf(s', p), p, f, place') {
      assert HandAgrees(HandOf(s, p), p, f, place);
    }
  }

  lemma PassMoves(s: State, e: Event, f: Fence, place: Place) returns (place': Place)
    requires IsPass(e) && Enabled(s, e) && Sorted(s.ctx.pending) && AddedAt(s, f, place)
    ensures AddedAt(Next(s, e), f, place')
  {
    PassTakes(s, e);
    var s', took, q := Next(s, e), TakenBy(s, e), PasserOf(e);
    CountConcat(took, s'.ctx.pending, f);
    CountConcat(s.ctx.taken, took, f);
    place' := if Count(took, f) > 0 then InHand(q) else place;
    forall p ensures HandAgrees(HandOf(s', p), p, f, place') {
      assert HandAgrees(HandOf(s, p), p, f, place);
      assert HandAgrees(HandOf(s, q), q, f, place);
    }
  }

  lemma SignalMoves(s: State, q: Passer, f: Fence, place: Place) returns (place': Place)
    requires Enabled(s, SignalNext(q)) && AddedAt(s, f, place)
    ensures AddedAt(Next(s, SignalNext(q)), f, place')
  {
    var s', todo := Next(s, SignalNext(q)), HandOf(s, q).todo;
    assert Fences(todo)[1..] == Fences(todo[1..]);
    FencesConcat(s.signaled, [todo[0]]);
    CountTwo(Fences(s.signaled), todo[0].fence, f, f);
    assert Fences([todo[0]]) == [todo[0].fence];
    assert HandAgrees(HandOf(s, q), q, f, place);
    place' := if todo[0].fence == f then ToPut(q) else place;
    forall p ensures HandAgrees(HandOf(s', p), p, f, place') {
      assert HandAgrees(HandOf(s, p), p, f, place);
    }
  }

  lemma PutMoves(s: State, q: Passer, f: Fence, place: Place) returns (place': Place)
    requires Enabled(s, PutNext(q)) && AddedAt(s, f, place)
    ensures AddedAt(Next(s, PutNext(q)), f, place')
  {
    var s', dropped := Next(s, PutNext(q)), HandOf(s, q).drop.value;
    CountTwo(s.puts, dropped, f, f);
    assert HandAgrees(HandOf(s, q), q, f, place);
    place' := if dropped == f then Gone else place;
    forall p ensures HandAgrees(HandOf(s', p), p, f, place') {
      assert HandAgrees(HandOf(s, p), p, f, place);
    }
  }

  lemma SamePlace(s: State, s': State, f: Fence, place: Place)
    requires AddedAt(s, f, place) && SameFences(s, s')
    ensures AddedAt(s', f, place)
  {
    forall p ensures HandAgrees(HandOf(s', p), p, f, place) {
      assert HandAgrees(HandOf(s, p), p, f, place);
    }
  }

  lemma StepMoves(s: State, e: Event, f: Fence, place: Place) returns (place': Place)
    requires Sorted(s.ctx.pending) && Enabled(s, e) && AddedAt(s, f, place)
    ensures AddedAt(Next(s, e), f, place')
  {
    if e.AddFence? {
      place' := AddMoves(s, e, f, place);
    } else if IsPass(e) {
      place' := PassMoves(s, e, f, place);
    } else if e.SignalNext? {
      place' := SignalMoves(s, e.p, f, place);
    } else if e.PutNext? {
      place' := PutMoves(s, e.p, f, place);
    } else {
      place' := place;
      QuietStepsMoveNone(s, e);
      SamePlace(s, Next(s, e), f, place);
    }
  }

  /** Over every run and whatever the interleaving: a fence that was never added is nowhere, and each
      fence that was added is in exactly one place. It is pending, or one pass holds it, or it has been
      signalled once; its reference is dropped once, after that. */
  lemma {:induction false} FencesConserved(es: seq<Event>, f: Fence) returns (place: Place)
    requires ValidRun(es)
    ensures Located(After(es), f, place)
    ensures place.Nowhere? <==> f !in After(es).added
    decreases |es|
  {
    if es == [] {
      place := Nowhere;
    } else {
      var init := es[..|es| - 1];
      place := FencesConserved(init, f);
      RunKeepsLine(init);
      place := StepMoves(After(init), es[|es| - 1], f, place);
    }
  }

  /** Over every run, a fence about to be signalled has not been signalled and its reference is still
      held; a fence about to be put has been signalled, by the same pass, and has not been put. */
  lemma ListReferences(es: seq<Event>, p: Passer)
    requires ValidRun(es)
    ensures var s := After(es);
      && (Enabled(s, SignalNext(p)) ==> var f := HandOf(s, p).todo[0].fence;
            f in s.added && f !in s.ctx.pending && f !in Fences(s.signaled) && f !in s.puts)
      && (Enabled(s, PutNext(p)) ==> var f := HandOf(s, p).drop.value;
            f in s.added && f !in s.ctx.pending && Count(Fences(s.signaled), f) == 1 && f !in s.puts)
  {
    var s, h := After(es), HandOf(After(es), p);
    if h.drop.Some? {
      var place := FencesConserved(es, h.drop.value);
      InThisHand(s, p, h.drop.value, place);
    } else if h.todo != [] {
      var place := FencesConserved(es, h.todo[0].fence);
      CountIn(Fences(h.todo), Fences(h.todo)[0]);
      InThisHand(s, p, h.todo[0].fence, place);
    }
  }

  lemma InThisHand(s: State, p: Passer, f: Fence, place: Place)
    requires Located(s, f, place) && (HandOf(s, p).drop == Some(f) || Count(Fences(HandOf(s, p).todo), f) > 0)
    ensures place == (if HandOf(s, p).drop == Some(f) then ToPut(p) else InHand(p))
    ensures f !in s.ctx.pending && f !in s.puts && (place.InHand? ==> f !in Fences(s.signaled))
  {
    assert HandAgrees(HandOf(s, p), p, f, place);
    CountIn(s.ctx.pending, f);
    CountIn(s.puts, f);
    CountIn(Fences(s.signaled), f);
  }

  // ----- who can have fences in hand -----

  ghost predicate MayHold(s: State, p: Passer) {
    match p
    case ByThread(t) => t in s.threads
    case ByCallback(_) => !Over(s.stage)
    case ByDestructor => s.stage.Completing?
  }

  ghost predicate HandsInv(s: State) {
    && (forall p :: p in s.hands && s.hands[p] != EMPTY ==> MayHold(s, p))
    && (s.stage.Unregistered? || Over(s.stage) ==> s.threads == map[])
    && (Over(s.stage) ==> forall cb :: cb in s.callbacks ==> !InCall(s.callbacks[cb].phase))
    && (s.stage.Completing? || s.stage.Dead? ==> s.ctx.pending == [])
  }

  lemma PassKeepsHands(s: State, e: Event)
    requires HandsInv(s) && Enabled(s, e) && IsPass(e)
    ensures HandsInv(Next(s, e))
  {
    PassFills(s, e);
  }

  lemma SignalKeepsHands(s: State, e: Event)
    requires HandsInv(s) && Enabled(s, e) && (e.SignalNext? || e.PutNext?)
    ensures HandsInv(Next(s, e))
  {
  }

  lemma ThreadKeepsHands(s: State, e: Event)
    requires HandsInv(s) && Enabled(s, e) && OfThread(e)
    ensures HandsInv(Next(s, e))
  {
    ThreadMovesNone(s, e);
  }

  lemma OthersKeepHands(s: State, e: Event)
    requires HandsInv(s) && Enabled(s, e) && !IsPass(e) && !e.SignalNext? && !e.PutNext? && !OfThread(e)
    ensures HandsInv(Next(s, e))
  {
  }

  lemma {:induction false} RunKeepsHands(es: seq<Event>)
    requires ValidRun(es)
    ensures HandsInv(After(es))
    decreases |es|
  {
    if es != [] {
      var init, e := es[..|es| - 1], es[|es| - 1];
      RunKeepsHands(init);
      if IsPass(e) {
        PassKeepsHands(After(init), e);
      } else if e.SignalNext? || e.PutNext? {
        SignalKeepsHands(After(init), e);
      } else if OfThread(e) {
        ThreadKeepsHands(After(init), e);
      } else {
        OthersKeepHands(After(init), e);
      }
    }
  }

  /** When the destructor frees the context, nobody has fences in hand, and every fence ever added has
      been signalled once and put once. */
  lemma DestroySignalsAll(es: seq<Event>, f: Fence)
    requires ValidRun(es) && After(es).stage == Dead
    ensures forall p :: Idle(After(es), p)
    ensures f in After(es).added ==>
      Count(Fences(After(es).signaled), f) == 1 && Count(After(es).puts, f) == 1 && f !in After(es).ctx.pending
  {
    RunKeepsHands(es);
    var s := After(es);
    var place := FencesConserved(es, f);
    forall p ensures Idle(s, p) && place != InHand(p) && place != ToPut(p) {
      assert HandAgrees(HandOf(s, p), p, f, place);
    }
  }

  // ----- signals without error -----

  /** The pass would signal, without error, a fence whose value has not been reached: its sample is high
      enough to cover the value of a pending fence that the semaphore is still below. */
  ghost predicate TakesEarly(s: State, e: Event) {
    && (e.ProcessCompleted? || e.CallbackProcess?)
    && exists i :: 0 <= i < |s.ctx.pending| && s.semaphore < s.ctx.pending[i].seqno <= e.sample
  }

  ghost predicate NoneEarly(signals: seq<Signal>, semaphore: nat) {
    forall i :: 0 <= i < |signals| && !signals[i].timedOut ==> signals[i].fence.seqno <= semaphore
  }

  /** The hand that a pass ends up with has an early signal exactly when the pass takes early. */
  lemma HandIsEarlyIff(s: State, e: Event)
    requires IsPass(e) && Enabled(s, e) && Sorted(s.ctx.pending)
    ensures NoneEarly(HandOf(Next(s, e), PasserOf(e)).todo, s.semaphore) <==> !TakesEarly(s, e)
  {
    PassFills(s, e);
    if !e.CompletePending? {
      var k, m := SweepPartitions(s.ctx.pending, e.sample, e.now);
      var hand := HandBy(s, e);
      forall i | 0 <= i < |s.ctx.pending| && s.semaphore < s.ctx.pending[i].seqno <= e.sample
        ensures !NoneEarly(hand, s.semaphore)
      {
        assert hand[i] == Signal(s.ctx.pending[i], false);
      }
    }
  }

  /** No pass of the run takes early. Samples that do not exceed the semaphore are enough. */
  ghost predicate TrueRun(es: seq<Event>)
    requires ValidRun(es)
    decreases |es|
  {
    es == [] || (TrueRun(es[..|es| - 1]) && !TakesEarly(After(es[..|es| - 1]), es[|es| - 1]))
  }

  ghost predicate EarlyInv(s: State) {
    NoneEarly(s.signaled, s.semaphore) && forall p :: NoneEarly(HandOf(s, p).todo, s.semaphore)
  }

  lemma StepKeepsNoneEarly(s: State, e: Event)
    requires EarlyInv(s) && Sorted(s.ctx.pending) && Enabled(s, e) && !TakesEarly(s, e)
    ensures EarlyInv(Next(s, e))
  {
    var s' := Next(s, e);
    if IsPass(e) {
      PassTakes(s, e);
      HandIsEarlyIff(s, e);
    } else if e.SignalNext? || e.PutNext? {
      assert NoneEarly(HandOf(s, e.p).todo, s.semaphore);
    } else if e.AddFence? {
      assert s'.hands == s.hands;
    } else {
      QuietStepsMoveNone(s, e);
    }
    forall p ensures NoneEarly(HandOf(s', p).todo, s'.semaphore) {
      assert NoneEarly(HandOf(s, p).todo, s.semaphore);
    }
  }

  lemma {:induction false} TrueRunKeepsNoneEarly(es: seq<Event>)
    requires ValidRun(es) && TrueRun(es)
    ensures EarlyInv(After(es))
    decreases |es|
  {
    if es != [] {
      var init := es[..|es| - 1];
      TrueRunKeepsNoneEarly(init);
      RunKeepsLine(init);
      StepKeepsNoneEarly(After(init), es[|es| - 1]);
    }
  }

  /** When no pass takes early, a fence signalled without error had its value reached. */
  lemma NoFenceSignalledEarly(es: seq<Event>, f: Fence)
    requires ValidRun(es) && TrueRun(es) && Signal(f, false) in After(es).signaled
    ensures f.seqno <= After(es).semaphore
  {
    TrueRunKeepsNoneEarly(es);
  }

  // ----- emptying a hand -----

  /** The events from `n` on only signal and put fences in hand. */
  ghost predicate OnlySignals(es: seq<Event>, n: nat) {
    forall i :: n <= i < |es| ==> es[i].SignalNext? || es[i].PutNext?
  }

  /** Nothing but the signals, the puts and the hand of `q` has changed, and that hand is now empty. */
  ghost predicate Drained(s: State, s': State, q: Passer) {
    && s' == s.(hands := s'.hands, signaled := s.signaled + HandOf(s, q).todo, puts := s'.puts)
    && Idle(s', q)
    && (forall p :: p != q ==> HandOf(s', p) == HandOf(s, p))
  }

  lemma DrainStep(s: State, e: Event, q: Passer, s': State)
    requires (e == SignalNext(q) || e == PutNext(q)) && Enabled(s, e) && Drained(Next(s, e), s', q)
    ensures Drained(s, s', q)
  {
    var s1, todo := Next(s, e), HandOf(s, q).todo;
    if e.SignalNext? {
      MoveHead(s.signaled, todo);
    }
    forall p | p != q ensures HandOf(s', p) == HandOf(s, p) {
      assert HandOf(s1, p) == HandOf(s, p);
    }
  }

  /** A pass can always finish its hand. */
  lemma {:induction false} DrainHand(es: seq<Event>, q: Passer) returns (es': seq<Event>)
    requires ValidRun(es)
    ensures es <= es' && ValidRun(es') && OnlySignals(es', |es|) && Drained(After(es), After(es'), q)
    decreases 2 * |HandOf(After(es), q).todo| + One(HandOf(After(es), q).drop.Some?)
  {
    var h := HandOf(After(es), q);
    if h == EMPTY {
      es' := es;
      assert After(es).signaled + h.todo == After(es).signaled;
    } else {
      var e := if h.drop.Some? then PutNext(q) else SignalNext(q);
      Extend(es, e);
      es' := DrainHand(es + [e], q);
      DrainStep(After(es), e, q, After(es'));
    }
  }
}
