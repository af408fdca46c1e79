/** Whole runs of the small heap. */
module HeapRuns {
  import opened Bytes
  import opened HeapClients
  import opened Payloads
  import opened Words
  import opened SmallHeap
  import opened SmallMemory

  // RT_ALIGN of a request stays within 32 bits.
  predicate Sane(op: Op) {
    (op.Malloc? || op.Resize?) ==> op.n + 3 < WORD
  }

  // The heap and its client between two calls.
  datatype Snap = Snap(blocks: seq<Block>, live: map<nat, seq<byte>>, slots: seq<Slot>, meter: Meter)

  ghost function Shot(h: SmallMem, slots: seq<Slot>): Snap
    requires h.Shape()
    reads h, h.heap
  {
    Snap(h.blocks, h.Live(), slots, h.Meters())
  }

  ghost function Seen(a: Snap): Buffers
    requires Owned(a.live, a.slots)
  {
    View(a.live, a.slots)
  }

  ghost predicate Fits(a: Snap, n: nat) {
    !NoneFits(a.blocks, Request(n))
  }

  // The calls that are not refused: those for which some free block has room, and
  // resizes that need none.
  ghost predicate Serves(poolSize: nat, a: Snap, op: Op) {
    match op
    case Malloc(n) => n > 0 && Fits(a, n)
    case Resize(s, n) =>
      && s < |a.slots| && n > 0 && Align(n) <= poolSize
      && (Fits(a, n)
          || (a.slots[s].ptr.Some? && a.slots[s].ptr.value in a.live
              && var len := |a.live[a.slots[s].ptr.value]|; Align(n) == len || Align(n) + HEADER + MIN_SIZE < len))
    case _ => true
  }

  // What the payload at an optional pointer takes, header included.
  ghost function Footprint(live: map<nat, seq<byte>>, p: Option<nat>): nat {
    if p.Some? && p.value in live then HEADER + |live[p.value]| else 0
  }

  // What a call does to the counters.
  ghost predicate Billed(poolSize: nat, a: Snap, op: Op, b: Snap) {
    match op
    case Malloc(n) => Granting(a.meter, b, |a.slots|, n)
    case Release(s) => b.meter == Meter(a.meter.used - if s < |a.slots| then Footprint(a.live, a.slots[s].ptr) else 0, a.meter.max)
    case Write(_, _, _) => b.meter == a.meter
    case Resize(s, n) =>
      if s >= |a.slots| then b.meter == a.meter
      else if n == 0 then b.meter == Meter(a.meter.used - Footprint(a.live, a.slots[s].ptr), a.meter.max)
      else if !Serves(poolSize, a, op) then b.meter == a.meter
      else if a.slots[s].ptr == None then Granting(a.meter, b, s, n)
      else a.slots[s].ptr.value in a.live && s < |b.slots| && Metered(a.live, b.live, a.slots[s].ptr.value, Align(n), b.slots[s].ptr, a.meter, b.meter)
  }

  // Slot s has been given a payload, not much larger than asked for, or nothing.
  ghost predicate Granting(m: Meter, b: Snap, s: nat, n: nat) {
    && s < |b.slots|
    && var taken := Footprint(b.live, b.slots[s].ptr);
       && b.meter == Meter(m.used + taken, Larger(m.max, m.used + taken))
       && (b.slots[s].ptr.Some? ==> HEADER + Request(n) <= taken < HEADER + Request(n) + HEADER + MIN_SIZE)
  }

  ghost predicate HeapStep(poolSize: nat, a: Snap, op: Op, b: Snap) {
    && Owned(a.live, a.slots) && Owned(b.live, b.slots)
    && Step(op, Serves(poolSize, a, op), Seen(a), Seen(b)) && Billed(poolSize, a, op, b)
  }

  method DoMalloc(h: SmallMem, slots: seq<Slot>, n: nat) returns (slots': seq<Slot>)
    requires h.Valid() && Owned(h.Live(), slots) && n + 3 < WORD
    modifies h, h.heap
    ensures h.Valid() && HeapStep(h.pool.size, old(Shot(h, slots)), Malloc(n), Shot(h, slots'))
  {
    hide Heap, Store, Coalesced, FirstFree, UsedSum, NoneFits, Placed;
    ghost var before := h.Live();
    var q := h.Alloc(n);
    ViewMore(before, h.Live(), slots, Slot(q, n));
    slots' := slots + [Slot(q, n)];
    hide View, Owned;
  }

  method DoRelease(h: SmallMem, slots: seq<Slot>, s: nat) returns (slots': seq<Slot>)
    requires h.Valid() && Owned(h.Live(), slots)
    modifies h, h.heap
    ensures h.Valid() && HeapStep(h.pool.size, old(Shot(h, slots)), Release(s), Shot(h, slots'))
  {
    hide Heap, Store, Coalesced, FirstFree, UsedSum;
    slots' := slots;
    if s < |slots| {
      ghost var before := h.Live();
      h.Free(slots[s].ptr);
      slots' := slots[s := Slot(None, 0)];
      ViewOne(before, h.Live(), slots, s, Slot(None, 0));
    }
  }

  method DoWrite(h: SmallMem, slots: seq<Slot>, s: nat, at: nat, data: seq<byte>)
    requires h.Valid() && Owned(h.Live(), slots)
    modifies h.heap
    ensures h.Valid() && HeapStep(h.pool.size, old(Shot(h, slots)), Write(s, at, data), Shot(h, slots))
  {
    hide Heap, Store, Coalesced, FirstFree, UsedSum;
    if s < |slots| && slots[s].ptr.Some? && at + |data| <= slots[s].len {
      ghost var before := h.Live();
      var q := slots[s].ptr.value;
      h.WriteBytes(q, at, data);
      ViewOne(before, h.Live(), slots, s, slots[s]);
      assert slots[s := slots[s]] == slots;
      assert Spliced(before[q], at, data)[..slots[s].len] == Spliced(before[q][..slots[s].len], at, data);
    }
  }

  // A successful resize keeps what the client owned, up to the new length.
  lemma ResizedPrefix(before: map<nat, seq<byte>>, after: map<nat, seq<byte>>, p: nat, full: nat, q: nat, noneFits: bool, len: nat, n: nat)
    requires p in before && Resized(before, after, p, full, Some(q), noneFits)
    requires len <= |before[p]| && n <= full
    ensures q in after && n <= |after[q]|
    ensures var k := if n < len then n else len; after[q][..n][..k] == before[p][..len][..k]
  {
    var m := if full < |before[p]| then full else |before[p]|;
    ResizedSame(before, after, p, full, q, noneFits);
    hide Resized;
    PrefixKept(before[p], after[q], m, len, n);
  }

  lemma ResizedSame(before: map<nat, seq<byte>>, after: map<nat, seq<byte>>, p: nat, full: nat, q: nat, noneFits: bool)
    requires p in before && Resized(before, after, p, full, Some(q), noneFits)
    ensures var m := if full < |before[p]| then full else |before[p]|;
            q in after && full <= |after[q]| && after[q][..m] == before[p][..m]
  {}

  // rt_smem_realloc of a payload that the client has.
  method ResizeOld(h: SmallMem, slots: seq<Slot>, s: nat, n: nat) returns (slots': seq<Slot>)
    requires h.Valid() && Owned(h.Live(), slots) && n + 3 < WORD && s < |slots| && slots[s].ptr.Some? && n > 0
    modifies h, h.heap
    ensures h.Valid() && HeapStep(h.pool.size, old(Shot(h, slots)), Resize(s, n), Shot(h, slots'))
  {
    hide Heap, Store, Coalesced, FirstFree, UsedSum, NoneFits;
    ghost var before := h.Live();
    var r := h.Realloc(slots[s].ptr, n);
    var x := if r.Some? then Slot(r, n) else slots[s];
    slots' := slots[s := x];
    if r.Some? {
      ResizedPrefix(before, h.Live(), slots[s].ptr.value, Align(n), r.value, NoneFits(old(h.blocks), Request(n)), slots[s].len, n);
    }
    ViewOne(before, h.Live(), slots, s, x);
    hide View, Owned;
  }

  // Of none.
  method ResizeNone(h: SmallMem, slots: seq<Slot>, s: nat, n: nat) returns (slots': seq<Slot>)
    requires h.Valid() && Owned(h.Live(), slots) && n + 3 < WORD && s < |slots| && slots[s].ptr == None && n > 0
    modifies h, h.heap
    ensures h.Valid() && HeapStep(h.pool.size, old(Shot(h, slots)), Resize(s, n), Shot(h, slots'))
  {
    hide Heap, Store, Coalesced, FirstFree, UsedSum, NoneFits;
    ghost var before := h.Live();
    var r := h.Realloc(None, n);
    var x := if r.Some? then Slot(r, n) else slots[s];
    slots' := slots[s := x];
    ViewOne(before, h.Live(), slots, s, x);
    hide View, Owned;
  }

  // To nothing.
  method ResizeAway(h: SmallMem, slots: seq<Slot>, s: nat) returns (slots': seq<Slot>)
    requires h.Valid() && Owned(h.Live(), slots) && s < |slots|
    modifies h, h.heap
    ensures h.Valid() && HeapStep(h.pool.size, old(Shot(h, slots)), Resize(s, 0), Shot(h, slots'))
  {
    hide Heap, Store, Coalesced, FirstFree, UsedSum, NoneFits;
    ghost var before := h.Live();
    var _ := h.Realloc(slots[s].ptr, 0);
    slots' := slots[s := Slot(None, 0)];
    ViewOne(before, h.Live(), slots, s, Slot(None, 0));
    hide View, Owned;
  }

  method DoResize(h: SmallMem, slots: seq<Slot>, s: nat, n: nat) returns (slots': seq<Slot>)
    requires h.Valid() && Owned(h.Live(), slots) && n + 3 < WORD
    modifies h, h.heap
    ensures h.Valid() && HeapStep(h.pool.size, old(Shot(h, slots)), Resize(s, n), Shot(h, slots'))
  {
    hide Heap, Store, Coalesced, FirstFree, UsedSum, NoneFits, Owned;
    if s >= |slots| {
      slots' := slots;
    } else if n == 0 {
      slots' := ResizeAway(h, slots, s);
    } else if slots[s].ptr == None {
      slots' := ResizeNone(h, slots, s, n);
    } else {
      slots' := ResizeOld(h, slots, s, n);
    }
  }

  method Do(h: SmallMem, slots: seq<Slot>, op: Op) returns (slots': seq<Slot>)
    requires h.Valid() && Owned(h.Live(), slots) && Sane(op)
    modifies h, h.heap
    ensures h.Valid() && Owned(h.Live(), slots') && HeapStep(h.pool.size, old(Shot(h, slots)), op, Shot(h, slots'))
    ensures old(h.max) <= h.max && h.used <= h.max
  {
    hide Heap, Store, Coalesced, FirstFree, UsedSum, NoneFits, View, Owned;
    match op {
      case Malloc(n) => slots' := DoMalloc(h, slots, n);
      case Release(s) => slots' := DoRelease(h, slots, s);
      case Resize(s, n) => slots' := DoResize(h, slots, s, n);
      case Write(s, at, data) =>
        DoWrite(h, slots, s, at, data);
        slots' := slots;
    }
  }

  // Every run, of any length, from any valid heap: to the client it is a run of the
  // ideal machine, which refuses exactly the calls that Serves does not admit, and
  // the high-water mark is what Billed makes of it.
  method Run(h: SmallMem, slots0: seq<Slot>, ops: seq<Op>)
    returns (slots: seq<Slot>, ghost states: seq<Snap>, ghost served: seq<bool>, ghost run: seq<Buffers>, ghost meters: seq<Meter>)
    requires h.Valid() && Owned(h.Live(), slots0)
    requires forall i :: 0 <= i < |ops| ==> Sane(ops[i])
    modifies h, h.heap
    ensures h.Valid() && Trace(ops, served, run)
    ensures |states| == |ops| + 1 && states[0] == old(Shot(h, slots0)) && states[|ops|] == Shot(h, slots)
    ensures forall i :: 0 <= i < |ops| ==> HeapStep(h.pool.size, states[i], ops[i], states[i + 1]) && served[i] == Serves(h.pool.size, states[i], ops[i])
    ensures forall i :: 0 <= i <= |ops| ==> Owned(states[i].live, states[i].slots) && run[i] == Seen(states[i])
    ensures Climbs(meters) && |meters| == |ops| + 1 && forall i :: 0 <= i <= |ops| ==> meters[i] == states[i].meter
  {
    hide Heap, Store, Coalesced, FirstFree, UsedSum, Step, View, Owned, HeapStep, Serves, Seen;
    slots, states, served, run, meters := slots0, [Shot(h, slots0)], [], [Seen(Shot(h, slots0))], [h.Meters()];
    for i := 0 to |ops|
      invariant h.Valid() && Owned(h.Live(), slots)
      invariant |states| == |run| == |meters| == i + 1 && |served| == i
      invariant states[0] == old(Shot(h, slots0)) && states[i] == Shot(h, slots)
      invariant forall k :: 0 <= k < i ==> HeapStep(h.pool.size, states[k], ops[k], states[k + 1]) && served[k] == Serves(h.pool.size, states[k], ops[k])
      invariant forall k :: 0 <= k <= i ==> Owned(states[k].live, states[k].slots) && run[k] == Seen(states[k]) && meters[k] == states[k].meter
      invariant Climbs(meters)
    {
      slots := Do(h, slots, ops[i]);
      served := served + [Serves(h.pool.size, states[i], ops[i])];
      states, run, meters := states + [Shot(h, slots)], run + [Seen(Shot(h, slots))], meters + [h.Meters()];
    }
    forall i | 0 <= i < |ops| ensures Step(ops[i], served[i], run[i], run[i + 1]) {
      StepSeen(h.pool.size, states[i], ops[i], states[i + 1]);
    }
  }

  lemma StepSeen(poolSize: nat, a: Snap, op: Op, b: Snap)
    requires HeapStep(poolSize, a, op, b)
    ensures Owned(a.live, a.slots) && Owned(b.live, b.slots) && Step(op, Serves(poolSize, a, op), Seen(a), Seen(b))
  {}
}
