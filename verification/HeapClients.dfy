/** What a client may expect of a heap: a table of buffers that have nothing to do
    with each other, whatever sequence of calls it makes. */
module HeapClients {
  import opened Bytes
  import opened Payloads

  // A client keeps its pointers in numbered slots, with the length it asked for.
  datatype Slot = Slot(ptr: Option<nat>, len: nat)

  datatype Op =
    | Malloc(n: nat)
    | Resize(slot: nat, n: nat)
    | Release(slot: nat)
    | Write(slot: nat, at: nat, data: seq<byte>)
  {
    predicate Names(s: nat) { !Malloc? && slot == s }
  }

  type Buffers = seq<Option<seq<byte>>>

  // One step of the ideal machine, which serves a call or refuses it. Only the
  // slot an operation names can change.
  ghost predicate Step(op: Op, served: bool, a: Buffers, b: Buffers) {
    match op
    case Malloc(n) => |b| == |a| + 1 && b[..|a|] == a && (b[|a|].Some? <==> served) && (served ==> |b[|a|].value| == n)
    case Release(s) => b == if s < |a| then a[s := None] else a
    case Write(s, at, data) =>
      b == if s < |a| && a[s].Some? && at + |data| <= |a[s].value|
           then a[s := Some(Spliced(a[s].value, at, data))] else a
    case Resize(s, n) =>
      if s >= |a| then b == a
      else if n == 0 then b == a[s := None]
      else if !served then b == a
      else
        && |b| == |a| && b == a[s := b[s]] && b[s].Some? && |b[s].value| == n
        && (a[s].Some? ==> var k := if n < |a[s].value| then n else |a[s].value|; b[s].value[..k] == a[s].value[..k])
  }

  ghost predicate Trace(ops: seq<Op>, served: seq<bool>, run: seq<Buffers>) {
    |run| == |ops| + 1 && |served| == |ops| && forall i :: 0 <= i < |ops| ==> Step(ops[i], served[i], run[i], run[i + 1])
  }

  // A buffer keeps every byte through any stretch of a run that does not name it.
  lemma {:induction false} Isolation(ops: seq<Op>, served: seq<bool>, run: seq<Buffers>, s: nat, i: nat, j: nat)
    requires Trace(ops, served, run) && i <= j <= |ops| && s < |run[i]|
    requires forall k :: i <= k < j ==> !ops[k].Names(s)
    ensures s < |run[j]| && run[j][s] == run[i][s]
    decreases j - i
  {
    if i < j {
      Isolation(ops, served, run, s, i, j - 1);
      assert Step(ops[j - 1], served[j - 1], run[j - 1], run[j]);
      if ops[j - 1].Malloc? {
        assert run[j][..|run[j - 1]|][s] == run[j - 1][s];
      }
    }
  }

  // The slots hold distinct live payloads, each long enough.
  ghost predicate Owned(live: map<nat, seq<byte>>, slots: seq<Slot>) {
    && (forall s :: 0 <= s < |slots| && slots[s].ptr.Some? ==> slots[s].ptr.value in live && slots[s].len <= |live[slots[s].ptr.value]|)
    && forall s, t :: 0 <= s < t < |slots| && slots[s].ptr.Some? && slots[t].ptr.Some? ==> slots[s].ptr.value != slots[t].ptr.value
  }

  ghost function View(live: map<nat, seq<byte>>, slots: seq<Slot>): (b: Buffers)
    requires Owned(live, slots)
    ensures |b| == |slots|
  {
    seq(|slots|, s requires 0 <= s < |slots| =>
      if slots[s].ptr.Some? then Some(live[slots[s].ptr.value][..slots[s].len]) else None)
  }

  // One slot given a payload nobody else holds; the others kept.
  lemma ViewOne(live: map<nat, seq<byte>>, live': map<nat, seq<byte>>, slots: seq<Slot>, s: nat, x: Slot)
    requires Owned(live, slots) && s < |slots|
    requires x.ptr.Some? ==> x.ptr.value in live' && x.len <= |live'[x.ptr.value]|
    requires forall t :: 0 <= t < |slots| && t != s && slots[t].ptr.Some? ==>
               && slots[t].ptr.value in live' && live'[slots[t].ptr.value] == live[slots[t].ptr.value]
               && (x.ptr.Some? ==> slots[t].ptr.value != x.ptr.value)
    ensures Owned(live', slots[s := x])
    ensures View(live', slots[s := x]) == View(live, slots)[s := if x.ptr.Some? then Some(live'[x.ptr.value][..x.len]) else None]
  {
    var a, b := View(live, slots), View(live', slots[s := x]);
    assert forall t :: 0 <= t < |slots| && t != s ==> a[t] == b[t];
  }

  // One slot more, with a payload that was not there before or none.
  lemma ViewMore(before: map<nat, seq<byte>>, after: map<nat, seq<byte>>, slots: seq<Slot>, x: Slot)
    requires Owned(before, slots) && forall p :: p in before ==> p in after && after[p] == before[p]
    requires x.ptr.Some? ==> x.ptr.value !in before && x.ptr.value in after && x.len <= |after[x.ptr.value]|
    ensures Owned(after, slots + [x])
    ensures View(after, slots + [x]) == View(before, slots) + [if x.ptr.Some? then Some(after[x.ptr.value][..x.len]) else None]
  {
    var a, b := View(before, slots), View(after, slots + [x]);
    assert forall t :: 0 <= t < |slots| ==> a[t] == b[t];
  }

  // A payload that starts like another starts like it over any shorter stretch.
  lemma PrefixKept(x: seq<byte>, y: seq<byte>, m: nat, len: nat, n: nat)
    requires m <= |x| && m <= |y| && x[..m] == y[..m] && n <= |y| && len <= |x|
    requires (if n < len then n else len) <= m
    ensures var k := if n < len then n else len; y[..n][..k] == x[..len][..k]
  {
    var k := if n < len then n else len;
    assert x[..m][..k] == x[..k] && y[..m][..k] == y[..k];
  }

  // ---------- the counters ----------

  // Meters that never exceed their high-water mark, which only rises.
  ghost predicate Climbs(meters: seq<Meter>) {
    && (forall i :: 0 <= i < |meters| ==> meters[i].used <= meters[i].max)
    && forall i :: 0 <= i < |meters| - 1 ==> meters[i].max <= meters[i + 1].max
  }

  // The mark is at least all that was ever used before.
  lemma {:induction false} HighWater(meters: seq<Meter>, i: nat, j: nat)
    requires Climbs(meters) && i <= j < |meters|
    ensures meters[i].used <= meters[i].max <= meters[j].max
    decreases j - i
  {
    if i < j {
      HighWater(meters, i, j - 1);
      assert meters[j - 1].max <= meters[(j - 1) + 1].max;
    }
  }
}
