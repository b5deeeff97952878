/** Display semaphores for plane in-fences: `nv_drm_next_display_semaphore` of
    kernel-open/nvidia-drm/nvidia-drm-priv.h and `__nv_drm_convert_in_fences` of
    kernel-open/nvidia-drm/nvidia-drm-modeset.c. */
module DisplaySemaphores {
  import opened Counting
  import opened Options

  // ----- round robin -----

  /** The index used by try `k` of a search that starts at `next`. */
  function Tried(next: nat, count: nat, k: nat): (r: nat)
    ensures count > 0 ==> r < count
  {
    if count == 0 then 0 else (next + k) % count
  }

  /** The indexes used by the first `n` tries, in order. */
  function Tries(next: nat, count: nat, n: nat): (r: seq<nat>)
    ensures |r| == n && forall k :: 0 <= k < n ==> r[k] == Tried(next, count, k)
  {
    if n == 0 then [] else Tries(next, count, n - 1) + [Tried(next, count, n - 1)]
  }

  lemma TriedStep(next: nat, count: nat, k: nat)
    requires next < count && k < count
    ensures Tried(next, count, k) == if next + k < count then next + k else next + k - count
    ensures Tried(next, count, k + 1) == if Tried(next, count, k) + 1 >= count then 0 else Tried(next, count, k) + 1
  {
    ModOnce(next + k, count);
    ModOnce(next + k + 1, count);
  }

  lemma ModOnce(x: nat, count: nat)
    requires 0 < count && x < 2 * count
    ensures x % count == if x < count then x else x - count
  {
  }

  /** A full round tries every index exactly once. */
  lemma EveryIndexTriedOnce(next: nat, count: nat, index: nat)
    requires next < count && index < count
    ensures exists k :: 0 <= k < count && Tried(next, count, k) == index
    ensures forall j, k :: 0 <= j < k < count ==> Tried(next, count, j) != Tried(next, count, k)
  {
    var k := if index >= next then index - next else index + count - next;
    TriedStep(next, count, k);
    assert Tried(next, count, k) == index;
    forall j: nat, k: nat | j < k < count
      ensures Tried(next, count, j) != Tried(next, count, k)
    {
      TriedStep(next, count, j);
      TriedStep(next, count, k);
    }
  }

  /** The first try from `k` on that NVKMS grants, or `count`. */
  function FirstGrant(grants: nat -> bool, k: nat, count: nat): (r: nat)
    requires k <= count
    ensures k <= r <= count
    ensures forall j :: k <= j < r ==> !grants(j)
    ensures r < count ==> grants(r)
    decreases count - k
  {
    if k == count || grants(k) then k else FirstGrant(grants, k + 1, count)
  }

  // ----- state -----

  /** Calls into NVKMS and dma_fence. */
  datatype Call = Init(index: nat) | Signal(index: nat) | Cancel(index: nat) | PutFence(fence: nat)

  /** `struct nv_drm_plane_fence_cb_data`, registered on a fence. */
  datatype Callback = Callback(fence: nat, index: nat)

  /** `fences` are the fence pointers of the plane states, `config` the semaphore indexes requested. */
  datatype State = State(
    next: nat,
    calls: seq<Call>,
    callbacks: seq<Callback>,
    fences: seq<Option<nat>>,
    config: seq<Option<nat>>)

  /** A plane of the atomic state: `chosen` when it is no cursor and is on the CRTC. */
  datatype Plane = Plane(chosen: bool, postSyncpt: bool)

  datatype Added = Registered | AlreadySignaled | Refused

  /** What the environment answers for one plane. */
  datatype Answers = Answers(syncpt: bool, grants: nat -> bool, memory: bool, added: Added)

  datatype Ret = Done | Einval | Eagain | Enomem | RegistrationFailed

  /** `__nv_drm_plane_fence_cb`. */
  function Fire(s: State, cb: Callback): State {
    s.(calls := s.calls + [PutFence(cb.fence), Signal(cb.index)])
  }

  /** One registered callback fires. */
  function FireNth(s: State, k: nat): State
    requires k < |s.callbacks|
  {
    Fire(s.(callbacks := s.callbacks[..k] + s.callbacks[k + 1..]), s.callbacks[k])
  }

  /** A plane whose semaphore `index` has been initialised. */
  function Attach(s: State, i: nat, fence: nat, index: nat, a: Answers): (State, Ret)
    requires i < |s.fences| == |s.config|
  {
    var s' := s.(calls := s.calls + [Init(index)], config := s.config[i := Some(index)]);
    if !a.memory then (s'.(calls := s'.calls + [Cancel(index)]), Enomem)
    else match a.added
      case Registered => (s'.(callbacks := s'.callbacks + [Callback(fence, index)], fences := s'.fences[i := None]), Done)
      case AlreadySignaled => (Fire(s', Callback(fence, index)).(fences := s'.fences[i := None]), Done)
      case Refused => (s'.(calls := s'.calls + [Cancel(index)]), RegistrationFailed)
  }

  /** The loop body for plane `i`. */
  function ConvertPlane(s: State, count: nat, i: nat, p: Plane, a: Answers): (State, Ret)
    requires s.next < count || (count == 0 && s.next == 0)
    requires i < |s.fences| == |s.config|
  {
    if !p.chosen || s.fences[i] == None || a.syncpt then (s, Done)
    else if p.postSyncpt then (s, Einval)
    else
      var k := FirstGrant(a.grants, 0, count);
      if k == count then (s, Eagain)
      else Attach(s.(next := Tried(s.next, count, k + 1)), i, s.fences[i].value, Tried(s.next, count, k), a)
  }

  ghost predicate Shape(s: State, count: nat) {
    (s.next < count || (count == 0 && s.next == 0)) && |s.fences| == |s.config|
  }

  /** The loop of `__nv_drm_convert_in_fences` from plane `i` on. */
  function ConvertFrom(s: State, count: nat, planes: seq<Plane>, answers: seq<Answers>, i: nat): (State, Ret)
    requires Shape(s, count) && i <= |planes| == |answers| == |s.fences|
    decreases |planes| - i
  {
    if i == |planes| then (s, Done)
    else
      var (s', ret) := ConvertPlane(s, count, i, planes[i], answers[i]);
      if ret != Done then (s', ret) else ConvertFrom(s', count, planes, answers, i + 1)
  }

  // ----- the device -----

  class Device {
    const count: nat
    var nextIndex: nat
    var calls: seq<Call>
    var tries: seq<nat>
    var callbacks: seq<Callback>
    var fences: seq<Option<nat>>
    var config: seq<Option<nat>>

    ghost function View(): State
      reads this
    {
      State(nextIndex, calls, callbacks, fences, config)
    }

    constructor (count: nat, fences: seq<Option<nat>>)
      ensures this.count == count && tries == []
      ensures View() == State(0, [], [], fences, seq(|fences|, _ => None)) && Shape(View(), count)
    {
      this.count, this.fences := count, fences;
      nextIndex, calls, tries, callbacks, config := 0, [], [], [], seq(|fences|, _ => None);
    }

    /** `nv_drm_next_display_semaphore`. */
    method Next() returns (index: nat)
      requires nextIndex < count
      modifies this`nextIndex
      ensures index == old(nextIndex) && nextIndex == (if index + 1 >= count then 0 else index + 1)
    {
      index := nextIndex;
      nextIndex := nextIndex + 1;
      if nextIndex >= count {
        nextIndex := 0;
      }
    }

    /** The search loop. On failure it has tried `count` indexes in a row. */
    method Allocate(grants: nat -> bool) returns (found: Option<nat>)
      requires Shape(View(), count)
      modifies this`nextIndex, this`tries, this`calls
      ensures var k := FirstGrant(grants, 0, count);
        if k == count then
          && found == None && calls == old(calls)
          && nextIndex == old(nextIndex) && tries == old(tries) + Tries(old(nextIndex), count, count)
        else
          && found == Some(Tried(old(nextIndex), count, k)) && calls == old(calls) + [Init(found.value)]
          && nextIndex == Tried(old(nextIndex), count, k + 1) && tries == old(tries) + Tries(old(nextIndex), count, k + 1)
    {
      found := None;
      if count > 0 {
        ModOnce(nextIndex, count);
        ModOnce(nextIndex + count, count);
      }
      var k := 0;
      while k < count
        invariant 0 <= k <= count && calls == old(calls)
        invariant FirstGrant(grants, k, count) == FirstGrant(grants, 0, count)
        invariant nextIndex == Tried(old(nextIndex), count, k) && tries == old(tries) + Tries(old(nextIndex), count, k)
      {
        TriedStep(old(nextIndex), count, k);
        var index := Next();
        tries := tries + [index];
        if grants(k) {
          calls := calls + [Init(index)];
          found := Some(index);
          return;
        }
        k := k + 1;
      }
    }

    /** `__nv_drm_plane_fence_cb`. */
    method PlaneFenceCallback(cb: Callback)
      modifies this`calls
      ensures calls == old(calls) + [PutFence(cb.fence), Signal(cb.index)]
    {
      calls := calls + [PutFence(cb.fence)];
      calls := calls + [Signal(cb.index)];
      assert calls == old(calls) + [PutFence(cb.fence), Signal(cb.index)];
    }

    method FireCallback(k: nat)
      requires k < |callbacks|
      modifies this
      ensures View() == FireNth(old(View()), k)
    {
      var cb := callbacks[k];
      callbacks := callbacks[..k] + callbacks[k + 1..];
      PlaneFenceCallback(cb);
    }

    /** The loop body of `__nv_drm_convert_in_fences`. */
    method ConvertOne(i: nat, p: Plane, a: Answers) returns (ret: Ret)
      requires Shape(View(), count) && i < |fences|
      modifies this
      ensures (View(), ret) == ConvertPlane(old(View()), count, i, p, a)
    {
      if !p.chosen || fences[i] == None || a.syncpt {
        return Done;
      }
      if p.postSyncpt {
        return Einval;
      }
      var fence := fences[i].value;
      var found := Allocate(a.grants);
      if found == None {
        return Eagain;
      }
      var index := found.value;
      config := config[i := Some(index)];
      if !a.memory {
        calls := calls + [Cancel(index)];
        return Enomem;
      }
      match a.added {
        case Registered =>
          callbacks := callbacks + [Callback(fence, index)];
          fences := fences[i := None];
          ret := Done;
        case AlreadySignaled =>
          PlaneFenceCallback(Callback(fence, index));
          fences := fences[i := None];
          ret := Done;
        case Refused =>
          calls := calls + [Cancel(index)];
          ret := RegistrationFailed;
      }
    }

    /** `__nv_drm_convert_in_fences`. */
    method ConvertInFences(active: bool, planes: seq<Plane>, answers: seq<Answers>) returns (ret: Ret)
      requires Shape(View(), count) && |planes| == |answers| == |fences|
      modifies this
      ensures (View(), ret) == if active then ConvertFrom(old(View()), count, planes, answers, 0) else (old(View()), Done)
    {
      if !active {
        return Done;
      }
      var i := 0;
      while i < |planes|
        invariant 0 <= i <= |planes| == |fences| && Shape(View(), count)
        invariant ConvertFrom(View(), count, planes, answers, i) == ConvertFrom(old(View()), count, planes, answers, 0)
      {
        ConvertKeepsShape(View(), count, i, planes[i], answers[i]);
        ret := ConvertOne(i, planes[i], answers[i]);
        if ret != Done {
          return;
        }
        i := i + 1;
      }
      ret := Done;
    }
  }

  // ----- conservation -----

  function Indexes(cbs: seq<Callback>): (r: seq<nat>)
    ensures |r| == |cbs| && forall i :: 0 <= i < |r| ==> r[i] == cbs[i].index
  {
    seq(|cbs|, i requires 0 <= i < |cbs| => cbs[i].index)
  }

  function Fences(cbs: seq<Callback>): (r: seq<nat>)
    ensures |r| == |cbs| && forall i :: 0 <= i < |r| ==> r[i] == cbs[i].fence
  {
    seq(|cbs|, i requires 0 <= i < |cbs| => cbs[i].fence)
  }

  /** Initialised semaphores of `index` that are neither signalled nor cancelled. */
  function Open(s: State, index: nat): int {
    Count(s.calls, Init(index)) - Count(s.calls, Signal(index)) - Count(s.calls, Cancel(index))
  }

  /** References to `fence`: in plane states, in registered callbacks, and already dropped. */
  function References(s: State, fence: nat): nat {
    Count(s.fences, Some(fence)) + Count(Fences(s.callbacks), fence) + Count(s.calls, PutFence(fence))
  }

  lemma FireKeeps(s: State, k: nat, index: nat, fence: nat)
    requires k < |s.callbacks|
    ensures var s' := FireNth(s, k);
      && Open(s', index) - Count(Indexes(s'.callbacks), index) == Open(s, index) - Count(Indexes(s.callbacks), index)
      && References(s', fence) == References(s, fence)
  {
    var s', cb := FireNth(s, k), s.callbacks[k];
    CountAt(Indexes(s.callbacks), k, index);
    CountAt(Fences(s.callbacks), k, fence);
    assert Indexes(s'.callbacks) == Indexes(s.callbacks)[..k] + Indexes(s.callbacks)[k + 1..];
    assert Fences(s'.callbacks) == Fences(s.callbacks)[..k] + Fences(s.callbacks)[k + 1..];
    CallsCount(s.calls, PutFence(cb.fence), Signal(cb.index), index, fence);
  }

  lemma CallsCount(calls: seq<Call>, a: Call, b: Call, index: nat, fence: nat)
    ensures Count(calls + [a, b], Init(index))
         == Count(calls, Init(index)) + (if a == Init(index) then 1 else 0) + (if b == Init(index) then 1 else 0)
    ensures Count(calls + [a, b], Signal(index))
         == Count(calls, Signal(index)) + (if a == Signal(index) then 1 else 0) + (if b == Signal(index) then 1 else 0)
    ensures Count(calls + [a, b], Cancel(index))
         == Count(calls, Cancel(index)) + (if a == Cancel(index) then 1 else 0) + (if b == Cancel(index) then 1 else 0)
    ensures Count(calls + [a, b], PutFence(fence))
         == Count(calls, PutFence(fence)) + (if a == PutFence(fence) then 1 else 0) + (if b == PutFence(fence) then 1 else 0)
  {
    CountTwo(calls, a, b, Init(index));
    CountTwo(calls, a, b, Signal(index));
    CountTwo(calls, a, b, Cancel(index));
    CountTwo(calls, a, b, PutFence(fence));
  }

  lemma ConvertKeepsShape(s: State, count: nat, i: nat, p: Plane, a: Answers)
    requires Shape(s, count) && i < |s.fences|
    ensures var s' := ConvertPlane(s, count, i, p, a).0; Shape(s', count) && |s'.fences| == |s.fences|
  {
  }

  /** The balance of an index and the references to a fence, as one plane is attached. */
  lemma AttachKeeps(s: State, i: nat, fence: nat, index: nat, a: Answers, j: nat, f: nat)
    requires i < |s.fences| == |s.config| && s.fences[i] == Some(fence)
    ensures var s' := Attach(s, i, fence, index, a).0;
      && Open(s', j) - Count(Indexes(s'.callbacks), j) == Open(s, j) - Count(Indexes(s.callbacks), j)
      && References(s', f) == References(s, f)
  {
    var s', init := Attach(s, i, fence, index, a).0, s.calls + [Init(index)];
    CallCount(s.calls, Init(index), j, f);
    CountUpdate(s.fences, i, None, Some(f));
    if !a.memory || a.added.Refused? {
      CallCount(init, Cancel(index), j, f);
    } else if a.added.AlreadySignaled? {
      CallsCount(init, PutFence(fence), Signal(index), j, f);
    } else {
      CountTwo(Indexes(s.callbacks), index, index, j);
      CountTwo(Fences(s.callbacks), fence, fence, f);
      assert Indexes(s'.callbacks) == Indexes(s.callbacks) + [index];
      assert Fences(s'.callbacks) == Fences(s.callbacks) + [fence];
    }
  }

  lemma CallCount(calls: seq<Call>, a: Call, index: nat, fence: nat)
    ensures Count(calls + [a], Init(index)) == Count(calls, Init(index)) + (if a == Init(index) then 1 else 0)
    ensures Count(calls + [a], Signal(index)) == Count(calls, Signal(index)) + (if a == Signal(index) then 1 else 0)
    ensures Count(calls + [a], Cancel(index)) == Count(calls, Cancel(index)) + (if a == Cancel(index) then 1 else 0)
    ensures Count(calls + [a], PutFence(fence)) == Count(calls, PutFence(fence)) + (if a == PutFence(fence) then 1 else 0)
  {
    CountTwo(calls, a, a, Init(index));
    CountTwo(calls, a, a, Signal(index));
    CountTwo(calls, a, a, Cancel(index));
    CountTwo(calls, a, a, PutFence(fence));
  }

  lemma ConvertPlaneKeeps(s: State, count: nat, i: nat, p: Plane, a: Answers, j: nat, f: nat)
    requires Shape(s, count) && i < |s.fences|
    ensures var s' := ConvertPlane(s, count, i, p, a).0;
      && Open(s', j) - Count(Indexes(s'.callbacks), j) == Open(s, j) - Count(Indexes(s.callbacks), j)
      && References(s', f) == References(s, f)
  {
    if p.chosen && s.fences[i].Some? && !a.syncpt && !p.postSyncpt {
      var k := FirstGrant(a.grants, 0, count);
      if k < count {
        AttachKeeps(s.(next := Tried(s.next, count, k + 1)), i, s.fences[i].value, Tried(s.next, count, k), a, j, f);
      }
    }
  }

  /** However the conversion ends, no reference to a fence is lost or dropped twice, and no
      initialised semaphore is left without an owner. */
  lemma {:induction false} ConvertKeeps(s: State, count: nat, planes: seq<Plane>, answers: seq<Answers>, i: nat, j: nat, f: nat)
    requires Shape(s, count) && i <= |planes| == |answers| == |s.fences|
    ensures var s' := ConvertFrom(s, count, planes, answers, i).0;
      && Shape(s', count)
      && Open(s', j) - Count(Indexes(s'.callbacks), j) == Open(s, j) - Count(Indexes(s.callbacks), j)
      && References(s', f) == References(s, f)
    decreases |planes| - i
  {
    if i < |planes| {
      ConvertKeepsShape(s, count, i, planes[i], answers[i]);
      ConvertPlaneKeeps(s, count, i, planes[i], answers[i], j, f);
      var (s', ret) := ConvertPlane(s, count, i, planes[i], answers[i]);
      if ret == Done {
        ConvertKeeps(s', count, planes, answers, i + 1, j, f);
      }
    }
  }

  /** A plane asks the hardware to wait only for a semaphore that has been initialised. */
  ghost predicate RequestsInitialised(s: State) {
    forall i :: 0 <= i < |s.config| && s.config[i].Some? ==> Init(s.config[i].value) in s.calls
  }

  lemma ConvertPlaneRequests(s: State, count: nat, i: nat, p: Plane, a: Answers)
    requires Shape(s, count) && i < |s.fences| && RequestsInitialised(s)
    ensures var (s', ret) := ConvertPlane(s, count, i, p, a);
      && RequestsInitialised(s')
      && (s.fences[i].Some? && s'.fences[i] == None ==> ret == Done && s'.config[i].Some?)
      && (forall j :: 0 <= j < |s.fences| && j != i ==> s'.fences[j] == s.fences[j] && s'.config[j] == s.config[j])
  {
  }

  /** ... and a fence that has been taken over has its semaphore requested. */
  lemma {:induction false} ConvertRequests(s: State, count: nat, planes: seq<Plane>, answers: seq<Answers>, i: nat)
    requires Shape(s, count) && i <= |planes| == |answers| == |s.fences| && RequestsInitialised(s)
    ensures var s' := ConvertFrom(s, count, planes, answers, i).0;
      && RequestsInitialised(s') && |s'.fences| == |s.fences| == |s'.config|
      && (forall j :: 0 <= j < i ==> s'.fences[j] == s.fences[j] && s'.config[j] == s.config[j])
      && (forall j :: i <= j < |s.fences| && s.fences[j].Some? && s'.fences[j] == None ==> s'.config[j].Some?)
    decreases |planes| - i
  {
    if i < |planes| {
      ConvertKeepsShape(s, count, i, planes[i], answers[i]);
      ConvertPlaneRequests(s, count, i, planes[i], answers[i]);
      var (s', ret) := ConvertPlane(s, count, i, planes[i], answers[i]);
      if ret == Done {
        ConvertRequests(s', count, planes, answers, i + 1);
      }
    }
  }

  // ----- runs -----

  /** A conversion in progress has reached plane `at`; between two planes callbacks may fire. */
  datatype Progress = Progress(s: State, planes: seq<Plane>, at: nat)

  datatype Step = Begin(fences: seq<Option<nat>>, planes: seq<Plane>) | PlaneStep(a: Answers) | FireStep(k: nat)

  ghost predicate Sound(p: Progress, count: nat) {
    Shape(p.s, count) && p.at <= |p.planes| == |p.s.fences|
  }

  ghost predicate Enabled(p: Progress, step: Step) {
    match step
    case Begin(fences, planes) => p.at == |p.planes| && |planes| == |fences|
    case PlaneStep(_) => p.at < |p.planes|
    case FireStep(k) => k < |p.s.callbacks|
  }

  /** A new commit brings its own plane states; an error ends the conversion. */
  ghost function Take(p: Progress, count: nat, step: Step): (r: Progress)
    requires Sound(p, count) && Enabled(p, step)
    ensures Sound(r, count)
  {
    match step
    case Begin(fences, planes) => Progress(p.s.(fences := fences, config := seq(|fences|, _ => None)), planes, 0)
    case PlaneStep(a) =>
      ConvertKeepsShape(p.s, count, p.at, p.planes[p.at], a);
      var (s', ret) := ConvertPlane(p.s, count, p.at, p.planes[p.at], a);
      Progress(s', p.planes, if ret == Done then p.at + 1 else |p.planes|)
    case FireStep(k) => p.(s := FireNth(p.s, k))
  }

  ghost predicate ValidRun(count: nat, steps: seq<Step>)
    decreases |steps|, 0
  {
    steps == [] || (ValidRun(count, steps[..|steps| - 1]) && Enabled(After(count, steps[..|steps| - 1]), steps[|steps| - 1]))
  }

  ghost function After(count: nat, steps: seq<Step>): (p: Progress)
    requires ValidRun(count, steps)
    ensures Sound(p, count)
    decreases |steps|, 1
  {
    if steps == [] then Progress(State(0, [], [], [], []), [], 0)
    else Take(After(count, steps[..|steps| - 1]), count, steps[|steps| - 1])
  }

  /** Over all runs, every initialised semaphore has been signalled once, cancelled once, or belongs to
      one registered callback. */
  lemma {:induction false} SemaphoresBalance(count: nat, steps: seq<Step>, index: nat)
    requires ValidRun(count, steps)
    ensures var s := After(count, steps).s;
      Count(s.calls, Init(index))
        == Count(s.calls, Signal(index)) + Count(s.calls, Cancel(index)) + Count(Indexes(s.callbacks), index)
    decreases |steps|
  {
    if steps != [] {
      var before := steps[..|steps| - 1];
      SemaphoresBalance(count, before, index);
      var p := After(count, before);
      match steps[|steps| - 1] {
        case Begin(_, _) =>
        case PlaneStep(a) => ConvertPlaneKeeps(p.s, count, p.at, p.planes[p.at], a, index, 0);
        case FireStep(k) => FireKeeps(p.s, k, index, 0);
      }
    }
  }

  // ----- one owner at a time -----

  lemma ConvertPlaneOpens(s: State, count: nat, i: nat, p: Plane, a: Answers, j: nat)
    requires Shape(s, count) && i < |s.fences| && Open(s, j) == Count(Indexes(s.callbacks), j) <= 1
    requires var k := FirstGrant(a.grants, 0, count); k < count ==> Open(s, Tried(s.next, count, k)) == 0
    ensures var s' := ConvertPlane(s, count, i, p, a).0; Open(s', j) == Count(Indexes(s'.callbacks), j) <= 1
  {
    ConvertPlaneKeeps(s, count, i, p, a, j, 0);
    var s', k := ConvertPlane(s, count, i, p, a).0, FirstGrant(a.grants, 0, count);
    if s'.callbacks != s.callbacks {
      var index := Tried(s.next, count, k);
      CountTwo(Indexes(s.callbacks), index, index, j);
      assert Indexes(s'.callbacks) == Indexes(s.callbacks) + [index];
    }
  }

  /** NVKMS does not initialise a semaphore again before it has been signalled or cancelled. */
  ghost predicate HonestRun(count: nat, steps: seq<Step>)
    requires ValidRun(count, steps)
  {
    steps == [] ||
    var before, last := steps[..|steps| - 1], steps[|steps| - 1];
    var s := After(count, before).s;
    && HonestRun(count, before)
    && (last.PlaneStep? ==>
          var k := FirstGrant(last.a.grants, 0, count);
          k < count ==> Open(s, Tried(s.next, count, k)) == 0)
  }

  /** Then an initialised semaphore that is neither signalled nor cancelled belongs to exactly one
      registered callback, and to no callback otherwise. */
  lemma {:induction false} OneCallbackPerSemaphore(count: nat, steps: seq<Step>, index: nat)
    requires ValidRun(count, steps) && HonestRun(count, steps)
    ensures var s := After(count, steps).s; Open(s, index) == Count(Indexes(s.callbacks), index) <= 1
    decreases |steps|
  {
    if steps != [] {
      var before := steps[..|steps| - 1];
      OneCallbackPerSemaphore(count, before, index);
      var p := After(count, before);
      match steps[|steps| - 1] {
        case Begin(_, _) =>
        case PlaneStep(a) => ConvertPlaneOpens(p.s, count, p.at, p.planes[p.at], a, index);
        case FireStep(k) =>
          FireKeeps(p.s, k, index, 0);
          CountAt(Indexes(p.s.callbacks), k, index);
          assert Indexes(FireNth(p.s, k).callbacks) == Indexes(p.s.callbacks)[..k] + Indexes(p.s.callbacks)[k + 1..];
      }
    }
  }

  /** A conversion in which no callback fires is the sequence of its plane steps. */
  lemma {:induction false} ConversionIsRun(count: nat, steps: seq<Step>, answers: seq<Answers>) returns (steps': seq<Step>)
    requires ValidRun(count, steps) && |answers| == |After(count, steps).planes|
    ensures ValidRun(count, steps') && steps <= steps'
    ensures var p, p' := After(count, steps), After(count, steps');
      p'.s == ConvertFrom(p.s, count, p.planes, answers, p.at).0 && p'.at == |p.planes| == |p'.planes|
    decreases |After(count, steps).planes| - After(count, steps).at
  {
    var p := After(count, steps);
    steps' := steps;
    if p.at < |p.planes| {
      var next := steps + [PlaneStep(answers[p.at])];
      assert next[..|next| - 1] == steps;
      steps' := ConversionIsRun(count, next, answers);
    }
  }
}
