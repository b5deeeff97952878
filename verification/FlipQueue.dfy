/** The flip queue of one CRTC (kernel-open/nvidia-drm/nvidia-drm-crtc.h and nvidia-drm-modeset.c):
    the flip objects, what the list operations do to them, and the code that delivers events. */
module FlipQueue {
  import opened Counting
  import opened Options

  /** A flip whose processing is put off until another flip has been processed. */
  datatype Deferred = Deferred(id: nat, hasEvent: bool)

  /** `struct nv_drm_flip`. `id` is the number of the commit that made it. */
  datatype Flip = Flip(id: nat, hasEvent: bool, pending: nat, deferred: seq<Deferred>)

  // ----- list operations -----

  /** `nv_drm_crtc_enqueue_flip` adds at the head of the list. */
  function Enqueue(list: seq<Flip>, f: Flip): seq<Flip> {
    [f] + list
  }

  datatype Dequeued = Dequeued(list: seq<Flip>, flip: Option<Flip>)

  /** `nv_drm_crtc_dequeue_flip`: count one hardware event against the flip at the head, and take the
      flip off the list when it was the last one. The counter is an unsigned 32-bit integer. */
  function Dequeue(list: seq<Flip>): Dequeued {
    if list == [] then Dequeued(list, None)
    else
      var left := (list[0].pending + 0xFFFF_FFFF) % 0x1_0000_0000;
      var f := list[0].(pending := left);
      if left == 0 then Dequeued(list[1..], Some(f)) else Dequeued([f] + list[1..], None)
  }

  /** `nv_drm_atomic_commit` puts a flip that needs no hardware event behind the last flip. */
  function Defer(list: seq<Flip>, d: Deferred): seq<Flip>
    requires list != []
  {
    var last := list[|list| - 1];
    list[..|list| - 1] + [last.(deferred := [d] + last.deferred)]
  }

  // ----- counting -----

  function DeferredEvents(ds: seq<Deferred>): nat {
    if ds == [] then 0 else One(ds[0].hasEvent) + DeferredEvents(ds[1..])
  }

  /** Completion events that the flip and what is deferred behind it still have to deliver. */
  function FlipEvents(f: Flip): nat {
    One(f.hasEvent) + DeferredEvents(f.deferred)
  }

  function Events(list: seq<Flip>): nat {
    if list == [] then 0 else FlipEvents(list[0]) + Events(list[1..])
  }

  /** Hardware events the list still waits for. */
  function PendingSum(list: seq<Flip>): nat {
    if list == [] then 0 else list[0].pending + PendingSum(list[1..])
  }

  /** The ids of the flip objects in a flip, in the order in which they are freed. */
  function DeferredIds(ds: seq<Deferred>): seq<nat> {
    if ds == [] then [] else [ds[0].id] + DeferredIds(ds[1..])
  }

  function FlipIds(f: Flip): seq<nat> {
    DeferredIds(f.deferred) + [f.id]
  }

  function Ids(list: seq<Flip>): seq<nat> {
    if list == [] then [] else FlipIds(list[0]) + Ids(list[1..])
  }

  /** Commit numbers of the events delivered for a list of deferred flips, in order. */
  function DeferredDelivery(ds: seq<Deferred>): seq<nat> {
    if ds == [] then [] else (if ds[0].hasEvent then [ds[0].id] else []) + DeferredDelivery(ds[1..])
  }

  function Delivery(f: Flip): seq<nat> {
    (if f.hasEvent then [f.id] else []) + DeferredDelivery(f.deferred)
  }

  lemma {:induction false} DeliveryCounts(ds: seq<Deferred>)
    ensures |DeferredDelivery(ds)| == DeferredEvents(ds)
    decreases |ds|
  {
    if ds != [] {
      DeliveryCounts(ds[1..]);
    }
  }

  /** A list whose flips all wait for at least one event, none of which needs more than 32 bits. */
  ghost predicate Armed(list: seq<Flip>) {
    forall i :: 0 <= i < |list| ==> 1 <= list[i].pending < 0x1_0000_0000
  }

  lemma DequeueShape(list: seq<Flip>)
    requires Armed(list) && list != []
    ensures var f := list[0].(pending := list[0].pending - 1);
      Dequeue(list) == if f.pending == 0 then Dequeued(list[1..], Some(f)) else Dequeued([f] + list[1..], None)
  {
  }

  lemma HeadCounts(f: Flip, list: seq<Flip>)
    ensures Events([f] + list) == FlipEvents(f) + Events(list)
    ensures PendingSum([f] + list) == f.pending + PendingSum(list)
    ensures Ids([f] + list) == FlipIds(f) + Ids(list)
  {
  }

  /** On such a list the counter never wraps, a flip comes off exactly when its last event arrives,
      every event uses up one pending count, and no flip and no completion event is lost. */
  lemma DequeueSpends(list: seq<Flip>)
    requires Armed(list) && list != []
    ensures var r := Dequeue(list);
      && Armed(r.list)
      && (r.flip.Some? <==> list[0].pending == 1)
      && PendingSum(r.list) == PendingSum(list) - 1
      && Events(list) == Events(r.list) + (if r.flip.Some? then FlipEvents(r.flip.value) else 0)
      && Ids(list) == (if r.flip.Some? then FlipIds(r.flip.value) else []) + Ids(r.list)
  {
    DequeueShape(list);
    var f := list[0].(pending := list[0].pending - 1);
    HeadCounts(f, list[1..]);
    assert FlipEvents(f) == FlipEvents(list[0]) && FlipIds(f) == FlipIds(list[0]);
  }

  lemma DeferOnLast(f: Flip, d: Deferred, x: nat)
    ensures var g := f.(deferred := [d] + f.deferred);
      && FlipEvents(g) == FlipEvents(f) + One(d.hasEvent)
      && Count(FlipIds(g), x) == Count(FlipIds(f), x) + One(d.id == x)
  {
    assert ([d] + f.deferred)[1..] == f.deferred;
    assert DeferredIds([d] + f.deferred) + [f.id] == [d.id] + FlipIds(f);
    assert ([d.id] + FlipIds(f))[1..] == FlipIds(f);
  }

  lemma {:induction false} DeferAdds(list: seq<Flip>, d: Deferred, x: nat)
    requires list != []
    ensures Events(Defer(list, d)) == Events(list) + One(d.hasEvent)
    ensures Count(Ids(Defer(list, d)), x) == Count(Ids(list), x) + One(d.id == x)
    decreases |list|
  {
    CountConcat(FlipIds(list[0]), Ids(list[1..]), x);
    if |list| == 1 {
      var g := list[0].(deferred := [d] + list[0].deferred);
      DeferOnLast(list[0], d, x);
      assert Defer(list, d) == [g] + list[1..];
      HeadCounts(g, list[1..]);
      CountConcat(FlipIds(g), Ids(list[1..]), x);
    } else {
      DeferAdds(list[1..], d, x);
      assert Defer(list, d) == [list[0]] + Defer(list[1..], d);
      HeadCounts(list[0], Defer(list[1..], d));
      CountConcat(FlipIds(list[0]), Ids(Defer(list[1..], d)), x);
    }
  }

  // ----- the object itself -----

  /** A plane of the old state, as `__will_generate_flip_event` looks at it. */
  datatype Plane = Plane(onCrtc: bool, cursor: bool, hasFb: bool)

  predicate Flips(p: Plane) {
    p.onCrtc && !p.cursor && p.hasFb
  }

  function CountFlips(planes: seq<Plane>): nat {
    if planes == [] then 0 else One(Flips(planes[0])) + CountFlips(planes[1..])
  }

  class NvDrmCrtc {
    var flipList: seq<Flip>
    var vblankRefs: int
    var delivered: seq<nat>
    var freed: seq<nat>
    const vblank: bool

    constructor (vblank: bool)
      ensures flipList == [] && vblankRefs == 0 && delivered == [] && freed == [] && this.vblank == vblank
    {
      flipList, vblankRefs, delivered, freed := [], 0, [], [];
      this.vblank := vblank;
    }

    /** `__will_generate_flip_event`: the hardware sends one event for each plane that was active. */
    method WillGenerateFlipEvent(oldActive: bool, newActive: bool, planes: seq<Plane>) returns (pending: nat)
      ensures pending == if oldActive then CountFlips(planes) else 0
      ensures pending <= |planes|
      ensures pending > 0 <==> oldActive && exists i :: 0 <= i < |planes| && Flips(planes[i])
    {
      pending := 0;
      if !oldActive && !newActive {
        return;
      }
      for i := |planes| downto 0
        invariant pending == if oldActive then CountFlips(planes[i..]) else 0
        invariant pending <= |planes| - i
        invariant pending > 0 <==> oldActive && exists k :: i <= k < |planes| && Flips(planes[k])
      {
        assert planes[i..][1..] == planes[i + 1..];
        if planes[i].onCrtc && !planes[i].cursor && oldActive && planes[i].hasFb {
          pending := pending + 1;
        }
      }
    }

    method SendEvent(hasEvent: bool, id: nat)
      modifies this`vblankRefs, this`delivered
      ensures delivered == old(delivered) + (if hasEvent then [id] else [])
      ensures vblankRefs == old(vblankRefs) - (if vblank then One(hasEvent) else 0)
    {
      if hasEvent {
        delivered := delivered + [id];
        if vblank {
          vblankRefs := vblankRefs - 1;
        }
      }
    }

    /** The loop over the flips deferred behind a processed flip. */
    method ProcessDeferred(ds: seq<Deferred>)
      modifies this`vblankRefs, this`delivered, this`freed
      ensures delivered == old(delivered) + DeferredDelivery(ds)
      ensures freed == old(freed) + DeferredIds(ds)
      ensures vblankRefs == old(vblankRefs) - (if vblank then DeferredEvents(ds) else 0)
    {
      var rest := ds;
      ghost var sent, gone: seq<nat> := [], [];
      while rest != []
        invariant DeferredDelivery(ds) == sent + DeferredDelivery(rest) && delivered == old(delivered) + sent
        invariant DeferredIds(ds) == gone + DeferredIds(rest) && freed == old(freed) + gone
        invariant vblankRefs - (if vblank then DeferredEvents(rest) else 0)
                  == old(vblankRefs) - (if vblank then DeferredEvents(ds) else 0)
        decreases |rest|
      {
        SendEvent(rest[0].hasEvent, rest[0].id);
        freed := freed + [rest[0].id];
        sent, gone := sent + (if rest[0].hasEvent then [rest[0].id] else []), gone + [rest[0].id];
        rest := rest[1..];
      }
    }

    /** `__nv_drm_handle_flip_event`. */
    method HandleFlipEvent()
      modifies this`flipList, this`vblankRefs, this`delivered, this`freed
      ensures var r := Dequeue(old(flipList));
        && flipList == r.list
        && match r.flip
           case None => delivered == old(delivered) && freed == old(freed) && vblankRefs == old(vblankRefs)
           case Some(f) =>
             && delivered == old(delivered) + Delivery(f)
             && freed == old(freed) + FlipIds(f)
             && vblankRefs == old(vblankRefs) - (if vblank then FlipEvents(f) else 0)
    {
      var r := Dequeue(flipList);
      flipList := r.list;
      if r.flip.Some? {
        var f := r.flip.value;
        SendEvent(f.hasEvent, f.id);
        ProcessDeferred(f.deferred);
        freed := freed + [f.id];
      }
    }

    /** The forced drain of a blocking commit whose flips never completed. It stops, because every
        call uses up one of the hardware events the list waits for. */
    method DrainFlips()
      requires Armed(flipList)
      modifies this`flipList, this`vblankRefs, this`delivered, this`freed
      ensures flipList == []
      ensures freed == old(freed) + Ids(old(flipList))
      ensures vblankRefs == old(vblankRefs) - (if vblank then Events(old(flipList)) else 0)
      ensures |delivered| == |old(delivered)| + Events(old(flipList))
    {
      while flipList != []
        invariant Armed(flipList)
        invariant freed + Ids(flipList) == old(freed) + Ids(old(flipList))
        invariant vblankRefs - (if vblank then Events(flipList) else 0)
                  == old(vblankRefs) - (if vblank then Events(old(flipList)) else 0)
        invariant |delivered| + Events(flipList) == |old(delivered)| + Events(old(flipList))
        decreases PendingSum(flipList)
      {
        DequeueSpends(flipList);
        var r := Dequeue(flipList);
        if r.flip.Some? {
          DeliveryCounts(r.flip.value.deferred);
        }
        HandleFlipEvent();
      }
    }
  }
}
