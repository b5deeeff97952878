/** The order in which a fence context signals fences that wait for the same value. Fences leave the
    pending list in the order of creation, but a pass signals what it took after it has dropped the
    lock, so a later pass can overtake it. This module says exactly when the order survives. */
module SemsurfOrder {
  import opened Options
  import opened Counting
  import opened PendingFences
  import opened SemsurfContext
  import opened SemsurfProtocol
  import opened SemsurfFences

  /** What one pass still has to signal, and what has been signalled, for value `v`. */
  ghost function TodoOf(s: State, p: Passer, v: nat): seq<Fence> {
    WithValue(Fences(HandOf(s, p).todo), v)
  }

  ghost function SignalledOf(s: State, v: nat): seq<Fence> {
    WithValue(Fences(s.signaled), v)
  }

  /** The fences of value `v` signalled so far are the first ones created, in the order of creation. */
  ghost predicate InOrder(s: State, v: nat) {
    SignalledOf(s, v) <= WithValue(s.added, v)
  }

  /** Some pass holds a fence of value `v` that it has not signalled yet. */
  ghost predicate Held(s: State, v: nat) {
    exists p :: TodoOf(s, p, v) != []
  }

  ghost predicate Takes(s: State, e: Event, v: nat) {
    IsPass(e) && WithValue(TakenBy(s, e), v) != []
  }

  /** From event `n` on, no pass takes fences of value `v` while another pass holds some. */
  ghost predicate CalmFrom(es: seq<Event>, n: nat, v: nat)
    requires ValidRun(es)
    decreases |es|
  {
    |es| <= n ||
    (CalmFrom(es[..|es| - 1], n, v) &&
     !(Takes(After(es[..|es| - 1]), es[|es| - 1], v) && Held(After(es[..|es| - 1]), v)))
  }

  // ----- one holder at a time keeps the order -----

  /** Only `h` holds fences of value `v`, and they follow those signalled, in the order they were taken. */
  ghost predicate OnlyHolder(s: State, v: nat, h: Passer) {
    && (forall p :: p != h ==> TodoOf(s, p, v) == [])
    && SignalledOf(s, v) + TodoOf(s, h, v) == WithValue(s.ctx.taken, v)
  }

  lemma PassHands(s: State, e: Event, v: nat, p: Passer)
    requires IsPass(e) && Enabled(s, e)
    ensures TodoOf(Next(s, e), p, v) == if p == PasserOf(e) then WithValue(TakenBy(s, e), v) else TodoOf(s, p, v)
    ensures TodoOf(s, PasserOf(e), v) == [] && SignalledOf(Next(s, e), v) == SignalledOf(s, v)
  {
    PassFills(s, e);
    HandFences(s, e);
  }

  lemma PassTaken(s: State, e: Event, v: nat)
    requires IsPass(e) && Enabled(s, e)
    ensures WithValue(Next(s, e).ctx.taken, v) == WithValue(s.ctx.taken, v) + WithValue(TakenBy(s, e), v)
  {
    PassLeaves(s, e);
    WithValueConcat(s.ctx.taken, TakenBy(s, e), v);
  }

  lemma PassKeepsHolder(s: State, e: Event, v: nat, h: Passer) returns (h': Passer)
    requires IsPass(e) && Enabled(s, e) && OnlyHolder(s, v, h)
    requires !(Takes(s, e, v) && Held(s, v))
    ensures OnlyHolder(Next(s, e), v, h')
  {
    h' := if Takes(s, e, v) then PasserOf(e) else h;
    PassTaken(s, e, v);
    forall p ensures p != h' ==> TodoOf(Next(s, e), p, v) == [] {
      PassHands(s, e, v, p);
    }
    PassHands(s, e, v, h');
    assert Takes(s, e, v) ==> TodoOf(s, h, v) == [];
  }

  lemma SignalLeavesOthers(s: State, q: Passer, v: nat, p: Passer)
    requires Enabled(s, SignalNext(q)) && p != q
    ensures TodoOf(Next(s, SignalNext(q)), p, v) == TodoOf(s, p, v)
  {
  }

  lemma SignalKeepsHolder(s: State, q: Passer, v: nat, h: Passer)
    requires Enabled(s, SignalNext(q)) && OnlyHolder(s, v, h)
    ensures OnlyHolder(Next(s, SignalNext(q)), v, h)
  {
    var s', head := Next(s, SignalNext(q)), WithValue([HandOf(s, q).todo[0].fence], v);
    SignalledGrows(s, q, v);
    if q == h {
      TwoMore(SignalledOf(s, v), head, TodoOf(s', q, v));
    } else {
      assert head == [] && TodoOf(s', q, v) == [];
      SignalLeavesOthers(s, q, v, h);
    }
    forall p | p != h ensures TodoOf(s', p, v) == [] {
      if p != q {
        SignalLeavesOthers(s, q, v, p);
      }
    }
  }

  lemma SignalledGrows(s: State, q: Passer, v: nat)
    requires Enabled(s, SignalNext(q))
    ensures var s', head := Next(s, SignalNext(q)), WithValue([HandOf(s, q).todo[0].fence], v);
      SignalledOf(s', v) == SignalledOf(s, v) + head && TodoOf(s, q, v) == head + TodoOf(s', q, v)
  {
    var todo := HandOf(s, q).todo;
    FencesConcat(s.signaled, [todo[0]]);
    assert Fences([todo[0]]) == [todo[0].fence];
    WithValueConcat(Fences(s.signaled), [todo[0].fence], v);
    assert Fences(todo) == [todo[0].fence] + Fences(todo[1..]);
    WithValueConcat([todo[0].fence], Fences(todo[1..]), v);
  }

  lemma OthersKeepHolder(s: State, e: Event, v: nat, h: Passer)
    requires Enabled(s, e) && !IsPass(e) && !e.SignalNext? && OnlyHolder(s, v, h)
    ensures OnlyHolder(Next(s, e), v, h)
  {
    var s' := Next(s, e);
    if MovesNoFence(e) {
      QuietStepsMoveNone(s, e);
    }
    assert forall p :: HandOf(s', p).todo == HandOf(s, p).todo;
    forall p ensures TodoOf(s', p, v) == TodoOf(s, p, v) {
    }
  }

  lemma {:induction false} CalmKeepsHolder(es: seq<Event>, es': seq<Event>, v: nat, h: Passer) returns (h': Passer)
    requires es <= es' && ValidRun(es) && ValidRun(es') && CalmFrom(es', |es|, v) && OnlyHolder(After(es), v, h)
    ensures OnlyHolder(After(es'), v, h')
    decreases |es'|
  {
    h' := h;
    if |es| < |es'| {
      var init, e := es'[..|es'| - 1], es'[|es'| - 1];
      h' := CalmKeepsHolder(es, init, v, h);
      RunKeepsLine(init);
      if IsPass(e) {
        h' := PassKeepsHolder(After(init), e, v, h');
      } else if e.SignalNext? {
        SignalKeepsHolder(After(init), e.p, v, h');
      } else {
        OthersKeepHolder(After(init), e, v, h');
      }
    } else {
      assert es' == es;
    }
  }

  lemma HolderMeansInOrder(es: seq<Event>, v: nat, h: Passer)
    requires ValidRun(es) && OnlyHolder(After(es), v, h)
    ensures InOrder(After(es), v)
  {
    TakenInCreationOrder(es, v);
  }

  /** In a run in which no pass takes fences of a value while another holds some, the fences of that
      value are signalled in the order of creation. */
  lemma CalmRunSignalsInOrder(es: seq<Event>, v: nat)
    requires ValidRun(es) && CalmFrom(es, 0, v)
    ensures InOrder(After(es), v)
  {
    var h := CalmKeepsHolder([], es, v, ByDestructor);
    HolderMeansInOrder(es, v, h);
  }

  // ----- a pass keeps the order if nobody holds a fence of the value -----

  lemma {:induction false} CountWithValue(fences: seq<Fence>, v: nat, f: Fence)
    ensures Count(WithValue(fences, v), f) == if f.seqno == v then Count(fences, f) else 0
    decreases |fences|
  {
    if fences != [] {
      var head := if fences[0].seqno == v then [fences[0]] else [];
      CountWithValue(fences[1..], v, f);
      CountConcat(head, WithValue(fences[1..], v), f);
      assert head != [] ==> head[1..] == [];
    }
  }

  lemma InWithValue(fences: seq<Fence>, v: nat, f: Fence)
    ensures f in WithValue(fences, v) <==> f.seqno == v && Count(fences, f) > 0
  {
    CountWithValue(fences, v, f);
    CountIn(WithValue(fences, v), f);
  }

  lemma SamePrefix(a: seq<Fence>, b: seq<Fence>, whole: seq<Fence>)
    requires a <= whole && b <= whole && forall f :: Count(a, f) == Count(b, f)
    ensures a == b
  {
    if |a| < |b| {
      LongerCountsMore(a, b);
    } else if |b| < |a| {
      LongerCountsMore(b, a);
    }
  }

  lemma LongerCountsMore(a: seq<Fence>, b: seq<Fence>)
    requires a < b
    ensures Count(a, b[|a|]) < Count(b, b[|a|])
  {
    assert b == a + b[|a|..];
    CountConcat(a, b[|a|..], b[|a|]);
  }

  /** When no pass holds a fence of the value, every fence taken has been signalled. */
  lemma AllTakenSignalled(es: seq<Event>, v: nat)
    requires ValidRun(es) && InOrder(After(es), v) && !Held(After(es), v)
    ensures SignalledOf(After(es), v) == WithValue(After(es).ctx.taken, v)
  {
    var s := After(es);
    forall f ensures Count(SignalledOf(s, v), f) == Count(WithValue(s.ctx.taken, v), f) {
      CountWithValue(Fences(s.signaled), v, f);
      CountWithValue(s.ctx.taken, v, f);
      if f.seqno == v {
        var place := FencesConserved(es, f);
        NotInHand(s, v, f, place);
      }
    }
    TakenInCreationOrder(es, v);
    SamePrefix(SignalledOf(s, v), WithValue(s.ctx.taken, v), WithValue(s.added, v));
  }

  lemma NotInHand(s: State, v: nat, f: Fence, place: Place)
    requires !Held(s, v) && f.seqno == v && Located(s, f, place)
    ensures !place.InHand?
  {
    forall p ensures place != InHand(p) {
      assert HandAgrees(HandOf(s, p), p, f, place);
      assert TodoOf(s, p, v) == [];
      CountWithValue(Fences(HandOf(s, p).todo), v, f);
    }
  }

  ghost predicate Continues(es: seq<Event>, e: Event, es': seq<Event>, v: nat) {
    es + [e] <= es' && ValidRun(es') && CalmFrom(es', |es| + 1, v)
  }

  lemma FreePassKeepsOrder(es: seq<Event>, e: Event, es': seq<Event>, v: nat)
    requires ValidRun(es) && InOrder(After(es), v) && Enabled(After(es), e) && IsPass(e) && !Held(After(es), v)
    requires Continues(es, e, es', v)
    ensures InOrder(After(es'), v)
  {
    AllTakenSignalled(es, v);
    RunKeepsLine(es);
    Extend(es, e);
    var h := PassKeepsHolder(After(es), e, v, ByDestructor);
    h := CalmKeepsHolder(es + [e], es', v, h);
    HolderMeansInOrder(es', v, h);
  }

  // ----- and only then -----

  /** A taken fence that is not signalled, and a signalled one that was still pending when the first
      was taken: the signals are out of order. */
  lemma Overtaken(signalled: seq<Fence>, taken: seq<Fence>, pending: seq<Fence>, x: Fence, y: Fence)
    requires x in taken && x !in signalled && y in signalled && y !in taken
    ensures !(signalled <= taken + pending)
  {
    if |signalled| <= |taken| {
      assert (taken + pending)[..|signalled|] == taken[..|signalled|];
    } else {
      assert (taken + pending)[..|taken|] == taken;
    }
  }

  lemma {:induction false} SignalsAreCalm(es: seq<Event>, n: nat, v: nat)
    requires ValidRun(es) && OnlySignals(es, n)
    ensures CalmFrom(es, n, v)
    decreases |es|
  {
    if |es| > n {
      SignalsAreCalm(es[..|es| - 1], n, v);
    }
  }

  /** The fence that `p` holds at the end of `es` is taken and will not be signalled by anybody else. */
  lemma HeldFence(es: seq<Event>, p: Passer, v: nat) returns (x: Fence)
    requires ValidRun(es) && TodoOf(After(es), p, v) != []
    ensures x in WithValue(After(es).ctx.taken, v) && x !in SignalledOf(After(es), v) && x in TodoOf(After(es), p, v)
  {
    var s := After(es);
    x := TodoOf(s, p, v)[0];
    InWithValue(Fences(HandOf(s, p).todo), v, x);
    var place := FencesConserved(es, x);
    assert HandAgrees(HandOf(s, p), p, x, place);
    InWithValue(s.ctx.taken, v, x);
    InWithValue(Fences(s.signaled), v, x);
  }

  lemma PendingFence(es: seq<Event>, e: Event, v: nat) returns (y: Fence)
    requires ValidRun(es) && Enabled(After(es), e) && Takes(After(es), e, v)
    ensures y in WithValue(TakenBy(After(es), e), v) && y !in WithValue(After(es).ctx.taken, v)
  {
    var s := After(es);
    y := WithValue(TakenBy(s, e), v)[0];
    RunKeepsLine(es);
    PassTakes(s, e);
    InWithValue(TakenBy(s, e), v, y);
    CountConcat(TakenBy(s, e), Next(s, e).ctx.pending, y);
    var place := FencesConserved(es, y);
    InWithValue(s.ctx.taken, v, y);
  }

  /** The pass overtakes: it signals its fences at once, before anybody else signals what they hold. */
  lemma SignalAtOnce(es: seq<Event>, e: Event, v: nat) returns (es': seq<Event>)
    requires ValidRun(es) && Enabled(After(es), e) && IsPass(e)
    ensures Continues(es, e, es', v)
    ensures var s, s' := After(es), After(es');
      && SignalledOf(s', v) == SignalledOf(s, v) + WithValue(TakenBy(s, e), v) && s'.added == s.added
      && (forall p :: p != PasserOf(e) ==> HandOf(s', p) == HandOf(s, p))
  {
    var s := After(es);
    RunKeepsLine(es);
    PassTakes(s, e);
    Extend(es, e);
    es' := DrainHand(es + [e], PasserOf(e));
    SignalsAreCalm(es', |es| + 1, v);
    FencesConcat(s.signaled, HandBy(s, e));
    WithValueConcat(Fences(s.signaled), TakenBy(s, e), v);
  }

  lemma CrowdedPassBreaksOrder(es: seq<Event>, e: Event, v: nat) returns (es': seq<Event>)
    requires ValidRun(es) && Enabled(After(es), e) && Takes(After(es), e, v) && Held(After(es), v)
    ensures Continues(es, e, es', v) && !InOrder(After(es'), v)
  {
    var s := After(es);
    var p :| TodoOf(s, p, v) != [];
    var x := HeldFence(es, p, v);
    var y := PendingFence(es, e, v);
    es' := SignalAtOnce(es, e, v);
    assert p != PasserOf(e);
    HeldStays(es', p, v, x);
    TakenInCreationOrder(es, v);
    Overtaken(SignalledOf(After(es'), v), WithValue(s.ctx.taken, v), WithValue(s.ctx.pending, v), x, y);
  }

  lemma HeldStays(es: seq<Event>, p: Passer, v: nat, x: Fence)
    requires ValidRun(es) && x in TodoOf(After(es), p, v)
    ensures x !in SignalledOf(After(es), v)
  {
    var s := After(es);
    InWithValue(Fences(HandOf(s, p).todo), v, x);
    var place := FencesConserved(es, x);
    assert HandAgrees(HandOf(s, p), p, x, place);
    InWithValue(Fences(s.signaled), v, x);
  }

  /** After a run whose signals are in order so far, a pass that takes fences of value `v` keeps them in
      order, however the run goes on without another such pass coming too early, if and only if no
      pass holds a fence of value `v` at that moment. */
  lemma PassKeepsOrderIff(es: seq<Event>, e: Event, v: nat)
    requires ValidRun(es) && InOrder(After(es), v) && Enabled(After(es), e) && Takes(After(es), e, v)
    ensures (forall es' :: Continues(es, e, es', v) ==> InOrder(After(es'), v)) <==> !Held(After(es), v)
  {
    if Held(After(es), v) {
      var es' := CrowdedPassBreaksOrder(es, e, v);
    } else {
      forall es' | Continues(es, e, es', v) ensures InOrder(After(es'), v) {
        FreePassKeepsOrder(es, e, es', v);
      }
    }
  }

  // ----- a run that signals two fences in the wrong order -----

  const F5 := Fence(0, 5, 100)
  const G5 := Fence(1, 5, 100)

  lemma SweepOne(f: Fence)
    requires f.seqno == 5
    ensures Sweep([f], 5, 0) == Swept([f], [], []) && Signals([f], false) + Signals([], true) == [Signal(f, false)]
  {
    assert [f][1..] == [];
  }

  lemma FirstFence() returns (es: seq<Event>)
    ensures ValidRun(es)
    ensures var s := After(es);
      && s.ctx.pending == [F5] && s.added == [F5] && s.stage == Alive && s.signaled == [] && s.semaphore == 5
      && s.hands == map[] && 0 in s.threads && s.threads[0].pc == Ready(10) && 10 in s.callbacks
      && 1 !in s.threads && 11 !in s.callbacks
  {
    es := [];
    Extend(es, Advance(5));
    es := es + [Advance(5)];
    Extend(es, AddFence(0, F5));
    es := es + [AddFence(0, F5)];
    Extend(es, Alloc(0, 10));
    es := es + [Alloc(0, 10)];
  }

  /** The semaphore is at 5. Thread 0 creates a fence for 5, takes it off the list again and drops the lock. */
  lemma FirstPass() returns (es: seq<Event>)
    ensures ValidRun(es)
    ensures var s := After(es);
      && s.ctx.pending == [] && s.added == [F5] && s.stage == Alive && s.signaled == [] && s.semaphore == 5
      && s.hands == map[ByThread(0) := Hand([Signal(F5, false)], None)] && 1 !in s.threads && 11 !in s.callbacks
  {
    es := FirstFence();
    SweepOne(F5);
    Extend(es, ProcessCompleted(0, 5, 0));
    es := es + [ProcessCompleted(0, 5, 0)];
  }

  lemma SecondAdded() returns (es: seq<Event>)
    ensures ValidRun(es)
    ensures var s := After(es);
      && s.ctx.pending == [G5] && s.added == [F5, G5] && s.signaled == []
      && s.hands == map[ByThread(0) := Hand([Signal(F5, false)], None)]
      && 1 in s.threads && s.threads[1].pc == Begin && 11 !in s.callbacks
  {
    es := FirstPass();
    Extend(es, AddFence(1, G5));
    es := es + [AddFence(1, G5)];
  }

  lemma SecondFence() returns (es: seq<Event>)
    ensures ValidRun(es)
    ensures var s := After(es);
      && s.ctx.pending == [G5] && s.added == [F5, G5] && s.signaled == []
      && s.hands == map[ByThread(0) := Hand([Signal(F5, false)], None)]
      && 1 in s.threads && s.threads[1].pc == Ready(11) && 11 in s.callbacks
  {
    es := SecondAdded();
    Extend(es, Alloc(1, 11));
    es := es + [Alloc(1, 11)];
  }

  /** Thread 1 creates another fence for 5 and takes it. */
  lemma SecondPass() returns (es: seq<Event>)
    ensures ValidRun(es)
    ensures var s := After(es);
      && s.added == [F5, G5] && s.signaled == []
      && s.hands == map[ByThread(0) := Hand([Signal(F5, false)], None), ByThread(1) := Hand([Signal(G5, false)], None)]
  {
    es := SecondFence();
    SweepOne(G5);
    Extend(es, ProcessCompleted(1, 5, 0));
    es := es + [ProcessCompleted(1, 5, 0)];
  }

  /** Thread 1 signals its fence, and only then thread 0 signals the fence that was created first. */
  lemma SignalsOutOfOrder() returns (es: seq<Event>)
    ensures ValidRun(es)
    ensures After(es).added == [F5, G5] && Fences(After(es).signaled) == [G5, F5] && !InOrder(After(es), 5)
  {
    es := BothSignalled();
    BothHaveValue(F5, G5);
    BothHaveValue(G5, F5);
    assert Fences(After(es).signaled) == [G5, F5];
  }

  lemma BothSignalled() returns (es: seq<Event>)
    ensures ValidRun(es) && After(es).added == [F5, G5] && After(es).signaled == [Signal(G5, false), Signal(F5, false)]
  {
    es := SecondPass();
    Extend(es, SignalNext(ByThread(1)));
    es := es + [SignalNext(ByThread(1))];
    Extend(es, SignalNext(ByThread(0)));
    es := es + [SignalNext(ByThread(0))];
  }

  lemma BothHaveValue(f: Fence, g: Fence)
    requires f.seqno == g.seqno == 5
    ensures WithValue([f, g], 5) == [f, g]
  {
    assert [f, g][1..] == [g] && [g][1..] == [];
    assert WithValue([g], 5) == [g];
  }
}
