/** Whole runs of a memheap, seen by the same kind of client as the small heap. */
module MemHeapRuns {
  import opened Bytes
  import opened HeapClients
  import opened MemHeaps
  import opened MemHeapLayout
  import opened MemHeapSteps
  import opened Payloads
  import opened Rings

  // The heap and its client between two calls.
  datatype Snap = Snap(blocks: seq<Addr>, used: set<Addr>, links: Links, available: int,
                       live: map<nat, seq<byte>>, slots: seq<Slot>, meter: Meter)

  ghost function Shot(h: MemHeap, slots: seq<Slot>): Snap
    requires PoolOk(h.Now())
    reads h
  {
    Snap(h.blocks, h.used, h.BlockLinks(), h.available, h.Live(), slots, h.Meters())
  }

  ghost function Seen(a: Snap): Buffers
    requires Owned(a.live, a.slots)
  {
    View(a.live, a.slots)
  }

  ghost predicate Fits(a: Snap, n: nat) {
    !Refused(a.blocks, a.used, a.available, Request(n))
  }

  // The calls that are not refused: those for which some free block has room while
  // more than that is free, and resizes that need none.
  ghost predicate Serves(a: Snap, op: Op) {
    match op
    case Malloc(n) => Fits(a, n)
    case Resize(s, n) =>
      && s < |a.slots| && n > 0
      && (Fits(a, n)
          || (a.slots[s].ptr.Some? && a.slots[s].ptr.value in a.live
              && var p := a.slots[s].ptr.value; Request(n) <= |a.live[p]| || RoomBehind(a.links.next, a.used, p, Request(n))))
    case _ => true
  }

  // What a call does to the counters.
  ghost predicate Billed(a: Snap, op: Op, b: Snap) {
    match op
    case Malloc(n) => if Serves(a, op) then Granting(a, b, |a.slots|, Request(n)) else b.meter == a.meter
    case Release(s) => if s < |a.slots| then Returning(a, a.slots[s].ptr, b) else b.meter == a.meter
    case Write(_, _, _) => b.meter == a.meter
    case Resize(s, n) =>
      if s >= |a.slots| then b.meter == a.meter
      else if n == 0 then Returning(a, a.slots[s].ptr, b)
      else if !Serves(a, op) then b.meter == a.meter
      else if a.slots[s].ptr == None then Granting(a, b, s, Request(n))
      else
        var p := a.slots[s].ptr.value;
        p in a.live && s < |b.slots| && Metered(a.links, a.used, p, |a.live[p]|, Request(n), b.slots[s].ptr, a.meter, b.meter)
  }

  // Slot s has been given a payload.
  ghost predicate Granting(a: Snap, b: Snap, s: nat, size: nat) {
    && s < |b.slots| && b.slots[s].ptr.Some? && b.slots[s].ptr.value - HEADER in a.links.next
    && b.meter == Charged(a.meter, Cost(SizeIn(a.links.next, b.slots[s].ptr.value - HEADER), size))
  }

  // The payload at p, if any, has been returned, with the headers that vanish.
  ghost predicate Returning(a: Snap, p: Option<nat>, b: Snap) {
    if p == None then b.meter == a.meter
    else
      && p.value in a.live && p.value >= HEADER && b.meter.max == a.meter.max
      && b.meter.used == a.meter.used - |a.live[p.value]| - Joined(a.links.next, a.links.prev, a.used, p.value - HEADER)
  }

  ghost predicate HeapStep(a: Snap, op: Op, b: Snap) {
    && Owned(a.live, a.slots) && Owned(b.live, b.slots)
    && Step(op, Serves(a, op), Seen(a), Seen(b)) && Billed(a, op, b)
  }

  method DoMalloc(h: MemHeap, slots: seq<Slot>, n: nat) returns (slots': seq<Slot>)
    requires h.Valid() && Owned(h.Live(), slots)
    modifies h
    ensures h.Valid() && HeapStep(old(Shot(h, slots)), Malloc(n), Shot(h, slots'))
  {
    hide Circle, PoolOk, Matches, FreeSum, LiveOf, NoneFits;
    ghost var before := h.Live();
    var q := h.Alloc(n);
    ViewMore(before, h.Live(), slots, Slot(q, n));
    slots' := slots + [Slot(q, n)];
    hide View, Owned;
  }

  method DoRelease(h: MemHeap, slots: seq<Slot>, s: nat) returns (slots': seq<Slot>)
    requires h.Valid() && Owned(h.Live(), slots)
    modifies h
    ensures h.Valid() && HeapStep(old(Shot(h, slots)), Release(s), Shot(h, slots'))
  {
    hide Circle, PoolOk, Matches, FreeSum, LiveOf;
    slots' := slots;
    if s < |slots| {
      ghost var before := h.Live();
      h.Free(slots[s].ptr);
      slots' := slots[s := Slot(None, 0)];
      ViewOne(before, h.Live(), slots, s, Slot(None, 0));
    }
  }

  method DoWrite(h: MemHeap, slots: seq<Slot>, s: nat, at: nat, data: seq<byte>)
    requires h.Valid() && Owned(h.Live(), slots)
    modifies h
    ensures h.Valid() && HeapStep(old(Shot(h, slots)), Write(s, at, data), Shot(h, slots))
  {
    hide Circle, PoolOk, Matches, FreeSum, LiveOf;
    if s < |slots| && slots[s].ptr.Some? && at + |data| <= slots[s].len {
      ghost var before := h.Live();
      var q := slots[s].ptr.value;
      h.Write(q, at, data);
      ViewOne(before, h.Live(), slots, s, slots[s]);
      assert slots[s := slots[s]] == slots;
      assert Spliced(before[q], at, data)[..slots[s].len] == Spliced(before[q][..slots[s].len], at, data);
    }
  }

  // rt_memheap_realloc of a payload that the client has.
  method ResizeOld(h: MemHeap, slots: seq<Slot>, s: nat, n: nat) returns (slots': seq<Slot>)
    requires h.Valid() && Owned(h.Live(), slots) && s < |slots| && slots[s].ptr.Some? && n > 0
    modifies h
    ensures h.Valid() && HeapStep(old(Shot(h, slots)), Resize(s, n), Shot(h, slots'))
  {
    hide Circle, PoolOk, Matches, FreeSum, LiveOf, NoneFits, RoomBehind, Swapped, Refused;
    ghost var before := h.Live();
    var r := h.Realloc(slots[s].ptr, n);
    var x := if r.Some? then Slot(r, n) else slots[s];
    slots' := slots[s := x];
    if r.Some? {
      var p := slots[s].ptr.value;
      var m := if |before[p]| < |h.Live()[r.value]| then |before[p]| else |h.Live()[r.value]|;
      PrefixKept(before[p], h.Live()[r.value], m, slots[s].len, n);
    }
    ViewOne(before, h.Live(), slots, s, x);
    hide View, Owned;
  }

  // Of none.
  method ResizeNone(h: MemHeap, slots: seq<Slot>, s: nat, n: nat) returns (slots': seq<Slot>)
    requires h.Valid() && Owned(h.Live(), slots) && s < |slots| && slots[s].ptr == None && n > 0
    modifies h
    ensures h.Valid() && HeapStep(old(Shot(h, slots)), Resize(s, n), Shot(h, slots'))
  {
    hide Circle, PoolOk, Matches, FreeSum, LiveOf, NoneFits, RoomBehind, Refused;
    ghost var before := h.Live();
    var r := h.Realloc(None, n);
    var x := if r.Some? then Slot(r, n) else slots[s];
    slots' := slots[s := x];
    ViewOne(before, h.Live(), slots, s, x);
    hide View, Owned;
  }

  // To nothing.
  method ResizeAway(h: MemHeap, slots: seq<Slot>, s: nat) returns (slots': seq<Slot>)
    requires h.Valid() && Owned(h.Live(), slots) && s < |slots|
    modifies h
    ensures h.Valid() && HeapStep(old(Shot(h, slots)), Resize(s, 0), Shot(h, slots'))
  {
    hide Circle, PoolOk, Matches, FreeSum, LiveOf, NoneFits, RoomBehind, Refused;
    ghost var before := h.Live();
    var _ := h.Realloc(slots[s].ptr, 0);
    slots' := slots[s := Slot(None, 0)];
    ViewOne(before, h.Live(), slots, s, Slot(None, 0));
    hide View, Owned;
  }

  method DoResize(h: MemHeap, slots: seq<Slot>, s: nat, n: nat) returns (slots': seq<Slot>)
    requires h.Valid() && Owned(h.Live(), slots)
    modifies h
    ensures h.Valid() && HeapStep(old(Shot(h, slots)), Resize(s, n), Shot(h, slots'))
  {
    hide Circle, PoolOk, Matches, FreeSum, LiveOf, NoneFits, RoomBehind, Refused, Owned;
    if s >= |slots| {
      slots' := slots;
    } else if n == 0 {
      slots' := ResizeAway(h, slots, s);
    } else if slots[s].ptr == None {
      slots' := ResizeNone(h, slots, s, n);
    } else {
      slots' := ResizeOld(h, slots, s, n);
    }
  }

  method Do(h: MemHeap, slots: seq<Slot>, op: Op) returns (slots': seq<Slot>)
    requires h.Valid() && Owned(h.Live(), slots)
    modifies h
    ensures h.Valid() && Owned(h.Live(), slots') && HeapStep(old(Shot(h, slots)), op, Shot(h, slots'))
    ensures old(h.maxUsed) <= h.maxUsed && h.Meters().used <= h.maxUsed
  {
    hide Circle, PoolOk, Matches, FreeSum, LiveOf, NoneFits, View, Owned, RoomBehind;
    match op {
      case Malloc(n) => slots' := DoMalloc(h, slots, n);
      case Release(s) => slots' := DoRelease(h, slots, s);
      case Resize(s, n) => slots' := DoResize(h, slots, s, n);
      case Write(s, at, data) =>
        DoWrite(h, slots, s, at, data);
        slots' := slots;
    }
  }

  // Every run, of any length, from any valid heap: to the client it is a run of the
  // ideal machine, which refuses exactly the calls that Serves does not admit, and
  // the high-water mark is what Billed makes of it.
  method Run(h: MemHeap, slots0: seq<Slot>, ops: seq<Op>)
    returns (slots: seq<Slot>, ghost states: seq<Snap>, ghost served: seq<bool>, ghost run: seq<Buffers>, ghost meters: seq<Meter>)
    requires h.Valid() && Owned(h.Live(), slots0)
    modifies h
    ensures h.Valid() && Trace(ops, served, run)
    ensures |states| == |ops| + 1 && states[0] == old(Shot(h, slots0)) && states[|ops|] == Shot(h, slots)
    ensures forall i :: 0 <= i < |ops| ==> HeapStep(states[i], ops[i], states[i + 1]) && served[i] == Serves(states[i], ops[i])
    ensures forall i :: 0 <= i <= |ops| ==> Owned(states[i].live, states[i].slots) && run[i] == Seen(states[i])
    ensures Climbs(meters) && |meters| == |ops| + 1 && forall i :: 0 <= i <= |ops| ==> meters[i] == states[i].meter
  {
    hide Circle, PoolOk, Matches, FreeSum, LiveOf, Step, View, Owned, HeapStep, Serves, Seen;
    slots, states, served, run, meters := slots0, [Shot(h, slots0)], [], [Seen(Shot(h, slots0))], [h.Meters()];
    for i := 0 to |ops|
      invariant h.Valid() && Owned(h.Live(), slots)
      invariant |states| == |run| == |meters| == i + 1 && |served| == i
      invariant states[0] == old(Shot(h, slots0)) && states[i] == Shot(h, slots)
      invariant forall k :: 0 <= k < i ==> HeapStep(states[k], ops[k], states[k + 1]) && served[k] == Serves(states[k], ops[k])
      invariant forall k :: 0 <= k <= i ==> Owned(states[k].live, states[k].slots) && run[k] == Seen(states[k]) && meters[k] == states[k].meter
      invariant Climbs(meters)
    {
      slots := Do(h, slots, ops[i]);
      served := served + [Serves(states[i], ops[i])];
      states, run, meters := states + [Shot(h, slots)], run + [Seen(Shot(h, slots))], meters + [h.Meters()];
    }
    forall i | 0 <= i < |ops| ensures Step(ops[i], served[i], run[i], run[i + 1]) {
      StepSeen(states[i], ops[i], states[i + 1]);
    }
  }

  lemma StepSeen(a: Snap, op: Op, b: Snap)
    requires HeapStep(a, op, b)
    ensures Owned(a.live, a.slots) && Owned(b.live, b.slots) && Step(op, Serves(a, op), Seen(a), Seen(b))
  {}
}
