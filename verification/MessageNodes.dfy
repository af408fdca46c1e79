/** The node pool of a message queue: two null-terminated lists threaded through
    the nodes, and the nodes that senders and receivers hold while they copy. */
module MessageNodes {
  import opened Bytes

  type Node = nat

  // A sender's node before its copy, and after it, bound for either end.
  datatype Stage = Blank | ForBack | ForFront

  datatype Nodes = Nodes(free: seq<Node>, queue: seq<Node>, sending: map<Node, Stage>, receiving: set<Node>)

  // ---------- every node is in exactly one place ----------

  ghost function All(ns: Nodes): multiset<Node> {
    multiset(ns.free) + multiset(ns.queue) + multiset(ns.sending.Keys) + multiset(ns.receiving)
  }

  // The nodes below `max`, each once.
  ghost function Pool(max: nat): multiset<Node> {
    if max == 0 then multiset{} else Pool(max - 1) + multiset{max - 1}
  }

  ghost predicate Partition(ns: Nodes, max: nat) {
    All(ns) == Pool(max)
  }

  lemma {:induction false} PoolCounts(max: nat)
    ensures |Pool(max)| == max && forall n: Node :: Pool(max)[n] == if n < max then 1 else 0
  {
    if max > 0 {
      PoolCounts(max - 1);
    }
  }

  lemma CountsAdd(ns: Nodes)
    ensures |All(ns)| == |ns.free| + |ns.queue| + |ns.sending.Keys| + |ns.receiving|
  {}

  // With a node in flight the queue is shorter than the pool.
  lemma InFlightLeavesRoom(ns: Nodes, max: nat, n: Node)
    requires Partition(ns, max) && n in ns.sending
    ensures |ns.queue| < max
  {
    PoolCounts(max);
    CountsAdd(ns);
    assert |{n}| <= |ns.sending.Keys| by {
      assert {n} <= ns.sending.Keys;
      SubsetSize({n}, ns.sending.Keys);
    }
  }

  lemma SubsetSize<T>(a: set<T>, b: set<T>)
    requires a <= b
    ensures |a| <= |b|
  {
    assert b == a + (b - a);
  }

  lemma OnePlace(ns: Nodes, max: nat, n: Node)
    requires Partition(ns, max)
    ensures n in ns.free ==> n < max && n !in ns.queue && n !in ns.sending && n !in ns.receiving
    ensures n in ns.queue ==> n < max && n !in ns.free && n !in ns.sending && n !in ns.receiving
    ensures n in ns.sending ==> n < max && n !in ns.free && n !in ns.queue && n !in ns.receiving
    ensures n in ns.receiving ==> n < max && n !in ns.free && n !in ns.queue && n !in ns.sending
    ensures n < max ==> n in ns.free || n in ns.queue || n in ns.sending || n in ns.receiving
  {
    PoolCounts(max);
    assert All(ns)[n] == Pool(max)[n];
    hide Pool;
  }

  lemma Distinct(s: seq<Node>, i: nat, j: nat)
    requires i < j < |s| && multiset(s)[s[i]] <= 1
    ensures s[i] != s[j]
  {
    assert s == s[..j] + [s[j]] + s[j + 1..];
    assert s[i] in s[..j];
  }

  lemma NoRepeats(ns: Nodes, max: nat)
    requires Partition(ns, max)
    ensures forall i, j :: 0 <= i < j < |ns.free| ==> ns.free[i] != ns.free[j]
    ensures forall i, j :: 0 <= i < j < |ns.queue| ==> ns.queue[i] != ns.queue[j]
  {
    PoolCounts(max);
    forall i, j | 0 <= i < j < |ns.free| ensures ns.free[i] != ns.free[j] {
      assert All(ns)[ns.free[i]] <= 1;
      Distinct(ns.free, i, j);
    }
    forall i, j | 0 <= i < j < |ns.queue| ensures ns.queue[i] != ns.queue[j] {
      assert All(ns)[ns.queue[i]] <= 1;
      Distinct(ns.queue, i, j);
    }
  }

  // ---------- the moves ----------

  function Taken(ns: Nodes): Nodes
    requires ns.free != []
  {
    ns.(free := ns.free[1..], sending := ns.sending[ns.free[0] := Blank])
  }

  function Appended(ns: Nodes, n: Node): Nodes {
    ns.(queue := ns.queue + [n], sending := ns.sending - {n})
  }

  function Prepended(ns: Nodes, n: Node): Nodes {
    ns.(queue := [n] + ns.queue, sending := ns.sending - {n})
  }

  function Popped(ns: Nodes): Nodes
    requires ns.queue != []
  {
    ns.(queue := ns.queue[1..], receiving := ns.receiving + {ns.queue[0]})
  }

  function Returned(ns: Nodes, n: Node): Nodes {
    ns.(free := [n] + ns.free, receiving := ns.receiving - {n})
  }

  // One turn of the loop that empties the queue on a reset.
  function Dropped(ns: Nodes): Nodes
    requires ns.queue != []
  {
    ns.(queue := ns.queue[1..], free := [ns.queue[0]] + ns.free)
  }

  lemma HeadCounts(s: seq<Node>)
    requires s != []
    ensures multiset(s) == multiset{s[0]} + multiset(s[1..])
  {
    assert s == [s[0]] + s[1..];
  }

  lemma SetAdds(a: set<Node>, n: Node)
    requires n !in a
    ensures multiset(a + {n}) == multiset(a) + multiset{n}
  {}

  lemma TakenKeeps(ns: Nodes, max: nat)
    requires Partition(ns, max) && ns.free != []
    ensures Partition(Taken(ns), max)
  {
    var n := ns.free[0];
    OnePlace(ns, max, n);
    HeadCounts(ns.free);
    SetAdds(ns.sending.Keys, n);
    assert Taken(ns).sending.Keys == ns.sending.Keys + {n};
  }

  lemma LinkedKeeps(ns: Nodes, max: nat, n: Node)
    requires Partition(ns, max) && n in ns.sending
    ensures Partition(Appended(ns, n), max) && Partition(Prepended(ns, n), max)
  {
    var rest := ns.sending.Keys - {n};
    SetAdds(rest, n);
    assert rest + {n} == ns.sending.Keys && (ns.sending - {n}).Keys == rest;
    assert multiset(ns.queue + [n]) == multiset(ns.queue) + multiset{n} == multiset([n] + ns.queue);
    hide Pool;
  }

  lemma StageKeeps(ns: Nodes, max: nat, n: Node, stage: Stage)
    requires Partition(ns, max) && n in ns.sending
    ensures Partition(ns.(sending := ns.sending[n := stage]), max)
  {
    assert ns.sending[n := stage].Keys == ns.sending.Keys;
  }

  lemma PoppedKeeps(ns: Nodes, max: nat)
    requires Partition(ns, max) && ns.queue != []
    ensures Partition(Popped(ns), max)
  {
    OnePlace(ns, max, ns.queue[0]);
    HeadCounts(ns.queue);
    SetAdds(ns.receiving, ns.queue[0]);
  }

  lemma ReturnedKeeps(ns: Nodes, max: nat, n: Node)
    requires Partition(ns, max) && n in ns.receiving
    ensures Partition(Returned(ns, n), max)
  {
    SetAdds(ns.receiving - {n}, n);
    assert ns.receiving - {n} + {n} == ns.receiving;
    assert multiset([n] + ns.free) == multiset{n} + multiset(ns.free);
  }

  lemma DroppedKeeps(ns: Nodes, max: nat)
    requires Partition(ns, max) && ns.queue != []
    ensures Partition(Dropped(ns), max)
  {
    HeadCounts(ns.queue);
    assert multiset([ns.queue[0]] + ns.free) == multiset{ns.queue[0]} + multiset(ns.free);
  }

  // ---------- the lists in memory ----------

  function Successor(s: seq<Node>, i: nat): Option<Node>
    requires i < |s|
  {
    if i + 1 < |s| then Some(s[i + 1]) else None
  }

  // Following `next` from `start` visits exactly s.
  ghost predicate Chained(next: seq<Option<Node>>, start: Option<Node>, s: seq<Node>) {
    && (forall i :: 0 <= i < |s| ==> s[i] < |next|)
    && start == (if s == [] then None else Some(s[0]))
    && forall i :: 0 <= i < |s| ==> next[s[i]] == Successor(s, i)
  }

  lemma ChainFrame(next: seq<Option<Node>>, start: Option<Node>, s: seq<Node>, n: Node, v: Option<Node>)
    requires Chained(next, start, s) && n !in s && n < |next|
    ensures Chained(next[n := v], start, s)
  {}

  lemma ChainPush(next: seq<Option<Node>>, start: Option<Node>, s: seq<Node>, n: Node)
    requires Chained(next, start, s) && n !in s && n < |next|
    ensures Chained(next[n := start], Some(n), [n] + s)
  {
    var r := [n] + s;
    forall i | 0 <= i < |r| ensures r[i] < |next| && next[n := start][r[i]] == Successor(r, i) {
      if i > 0 {
        assert r[i] == s[i - 1] && Successor(r, i) == Successor(s, i - 1);
      }
    }
  }

  lemma ChainPop(next: seq<Option<Node>>, start: Option<Node>, s: seq<Node>)
    requires Chained(next, start, s) && s != []
    ensures start == Some(s[0]) && s[0] < |next| && Chained(next, next[s[0]], s[1..])
  {
    var r := s[1..];
    forall i | 0 <= i < |r| ensures r[i] < |next| && next[r[i]] == Successor(r, i) {
      assert r[i] == s[i + 1] && Successor(r, i) == Successor(s, i + 1);
    }
  }

  lemma ChainAppend(next: seq<Option<Node>>, start: Option<Node>, s: seq<Node>, n: Node)
    requires Chained(next, start, s) && n !in s && n < |next| && next[n] == None
    requires forall i, j :: 0 <= i < j < |s| ==> s[i] != s[j]
    ensures s == [] ==> Chained(next, Some(n), [n])
    ensures s != [] ==> s[|s| - 1] < |next| && Chained(next[s[|s| - 1] := Some(n)], start, s + [n])
  {
    if s != [] {
      var r := s + [n];
      forall i | 0 <= i < |r| ensures r[i] < |next| && next[s[|s| - 1] := Some(n)][r[i]] == Successor(r, i) {
        if i + 1 < |s| {
          assert r[i] == s[i] && Successor(r, i) == Successor(s, i);
        }
      }
    }
  }

  // The links of the whole pool: both lists, the tail, and the nodes ready to
  // become the new tail.
  datatype Links = Links(next: seq<Option<Node>>, head: Option<Node>, tail: Option<Node>, free: Option<Node>)

  function LastOf(s: seq<Node>): Option<Node> {
    if s == [] then None else Some(s[|s| - 1])
  }

  ghost predicate Threaded(l: Links, ns: Nodes) {
    && Chained(l.next, l.head, ns.queue) && Chained(l.next, l.free, ns.free)
    && l.tail == LastOf(ns.queue)
    && Ends(l.next, ns.sending)
  }

  ghost predicate Ends(next: seq<Option<Node>>, sending: map<Node, Stage>) {
    forall n :: n in sending && sending[n] == ForBack ==> n < |next| && next[n] == None
  }

  ghost predicate PoolOk(l: Links, ns: Nodes, max: nat) {
    |l.next| == max && Threaded(l, ns) && Partition(ns, max)
  }

  lemma TakeOk(l: Links, ns: Nodes, max: nat)
    requires PoolOk(l, ns, max) && ns.free != []
    ensures l.free == Some(ns.free[0]) && ns.free[0] < max && PoolOk(l.(free := l.next[ns.free[0]]), Taken(ns), max)
  {
    TakenKeeps(ns, max);
    ChainPop(l.next, l.free, ns.free);
    hide Partition, Chained;
  }

  // The node is about to be copied into; rt_mq_send_wait also ends the chain at it.
  lemma StageOk(l: Links, ns: Nodes, max: nat, n: Node, stage: Stage)
    requires PoolOk(l, ns, max) && n in ns.sending
    ensures n < max
    ensures PoolOk(if stage == ForBack then l.(next := l.next[n := None]) else l, ns.(sending := ns.sending[n := stage]), max)
  {
    OnePlace(ns, max, n);
    StageKeeps(ns, max, n, stage);
    ChainFrame(l.next, l.head, ns.queue, n, None);
    ChainFrame(l.next, l.free, ns.free, n, None);
    hide Partition, Chained;
  }

  lemma EmptyOk(l: Links, ns: Nodes, max: nat)
    requires PoolOk(l, ns, max)
    ensures l.head == None <==> ns.queue == []
    ensures l.tail == None <==> ns.queue == []
    ensures l.free == None <==> ns.free == []
    ensures l.tail.Some? ==> l.tail.value < max
  {
    hide Partition;
  }

  lemma AppendFirst(l: Links, ns: Nodes, max: nat, n: Node)
    requires PoolOk(l, ns, max) && n in ns.sending && ns.sending[n] == ForBack && ns.queue == []
    ensures PoolOk(l.(head := Some(n), tail := Some(n)), Appended(ns, n), max)
  {
    OnePlace(ns, max, n);
    LinkedKeeps(ns, max, n);
    ChainAppend(l.next, l.head, ns.queue, n);
    assert ns.queue + [n] == [n];
    hide Partition, Chained;
  }

  lemma AppendLast(l: Links, ns: Nodes, max: nat, n: Node)
    requires PoolOk(l, ns, max) && n in ns.sending && ns.sending[n] == ForBack && l.tail.Some? && l.tail.value < max
    ensures PoolOk(l.(next := l.next[l.tail.value := Some(n)], tail := Some(n)), Appended(ns, n), max)
  {
    OnePlace(ns, max, n);
    assert l.tail.value in ns.queue;
    OnePlace(ns, max, l.tail.value);
    NoRepeats(ns, max);
    LinkedKeeps(ns, max, n);
    AppendChains(l, ns, n);
    EndsKept(l, ns, l.tail.value, Some(n));
    hide Partition, Chained, Ends;
    assert LastOf(ns.queue + [n]) == Some(n);
    FewerEnds(l.next[l.tail.value := Some(n)], ns.sending, n);
  }

  // The writes that make a node the new tail of any queue.
  lemma AppendOk(l: Links, ns: Nodes, max: nat, n: Node)
    requires PoolOk(l, ns, max) && n in ns.sending && ns.sending[n] == ForBack
    ensures |l.next| == max && (l.tail.Some? ==> l.tail.value < max)
    ensures var next := if l.tail.Some? then l.next[l.tail.value := Some(n)] else l.next;
            PoolOk(Links(next, if l.head == None then Some(n) else l.head, Some(n), l.free), Appended(ns, n), max)
  {
    EmptyOk(l, ns, max);
    if l.tail.Some? {
      AppendLast(l, ns, max, n);
    } else {
      AppendFirst(l, ns, max, n);
    }
    assert |l.next| == max;
    hide PoolOk, Appended;
  }

  lemma EndsKept(l: Links, ns: Nodes, n: Node, v: Option<Node>)
    requires Ends(l.next, ns.sending) && n !in ns.sending && n < |l.next|
    ensures Ends(l.next[n := v], ns.sending)
  {}

  lemma FewerEnds(next: seq<Option<Node>>, sending: map<Node, Stage>, n: Node)
    requires Ends(next, sending)
    ensures Ends(next, sending - {n})
  {}

  lemma AppendChains(l: Links, ns: Nodes, n: Node)
    requires Threaded(l, ns) && l.tail.Some? && n !in ns.queue && n < |l.next| && l.next[n] == None
    requires forall i, j :: 0 <= i < j < |ns.queue| ==> ns.queue[i] != ns.queue[j]
    requires l.tail.value !in ns.free && l.tail.value < |l.next|
    ensures Chained(l.next[l.tail.value := Some(n)], l.head, ns.queue + [n])
    ensures Chained(l.next[l.tail.value := Some(n)], l.free, ns.free)
  {
    ChainAppend(l.next, l.head, ns.queue, n);
    ChainFrame(l.next, l.free, ns.free, l.tail.value, Some(n));
  }

  lemma PrependOk(l: Links, ns: Nodes, max: nat, n: Node)
    requires PoolOk(l, ns, max) && n in ns.sending
    ensures n < max
    ensures var l' := l.(next := l.next[n := l.head], head := Some(n), tail := if l.tail == None then Some(n) else l.tail);
            PoolOk(l', Prepended(ns, n), max)
  {
    OnePlace(ns, max, n);
    LinkedKeeps(ns, max, n);
    ChainPush(l.next, l.head, ns.queue, n);
    ChainFrame(l.next, l.free, ns.free, n, l.head);
    hide Partition, Chained;
  }

  lemma PopOk(l: Links, ns: Nodes, max: nat)
    requires PoolOk(l, ns, max) && ns.queue != []
    ensures l.head == Some(ns.queue[0]) && ns.queue[0] < max
    ensures PoolOk(l.(head := l.next[ns.queue[0]], tail := if l.tail == l.head then None else l.tail), Popped(ns), max)
  {
    PoppedKeeps(ns, max);
    NoRepeats(ns, max);
    ChainPop(l.next, l.head, ns.queue);
    hide Partition, Chained;
  }

  lemma ReturnOk(l: Links, ns: Nodes, max: nat, n: Node)
    requires PoolOk(l, ns, max) && n in ns.receiving
    ensures n < max && PoolOk(l.(next := l.next[n := l.free], free := Some(n)), Returned(ns, n), max)
  {
    OnePlace(ns, max, n);
    ReturnedKeeps(ns, max, n);
    ChainPush(l.next, l.free, ns.free, n);
    ChainFrame(l.next, l.head, ns.queue, n, l.free);
    EndsKept(l, ns, n, l.free);
    hide Partition, Chained, Ends;
  }

  lemma DropOk(l: Links, ns: Nodes, max: nat)
    requires PoolOk(l, ns, max) && ns.queue != []
    ensures l.head == Some(ns.queue[0]) && ns.queue[0] < max
    ensures var n := ns.queue[0];
            PoolOk(Links(l.next[n := l.free], l.next[n], if l.tail == l.head then None else l.tail, Some(n)), Dropped(ns), max)
  {
    var n := ns.queue[0];
    PopOk(l, ns, max);
    DroppedKeeps(ns, max);
    PoppedKeeps(ns, max);
    OnePlace(Popped(ns), max, n);
    hide Partition;
    DropChains(Links(l.next, l.next[n], if l.tail == l.head then None else l.tail, l.free), Popped(ns), n);
    EndsKept(l, ns, n, l.free);
    hide Chained, LastOf, Ends;
  }

  lemma DropChains(l: Links, ns: Nodes, n: Node)
    requires Threaded(l, ns) && n !in ns.queue && n !in ns.free && n < |l.next|
    ensures Chained(l.next[n := l.free], l.head, ns.queue) && Chained(l.next[n := l.free], Some(n), [n] + ns.free)
  {
    ChainPush(l.next, l.free, ns.free, n);
    ChainFrame(l.next, l.head, ns.queue, n, l.free);
  }

  // rt_mq_init: all nodes on the free list, the last of the pool first.
  method FreeList(max: nat) returns (next: seq<Option<Node>>, free: Option<Node>, ghost list: seq<Node>)
    ensures PoolOk(Links(next, None, None, free), Nodes(list, [], map[], {}), max) && |list| == max
    ensures forall i :: 0 <= i < max ==> list[i] == max - 1 - i
  {
    hide Chained, Partition;
    next, free, list := seq(max, _ => None), None, [];
    FreeNone(next);
    for temp := 0 to max
      invariant |next| == max && |list| == temp && FreeTo(next, free, list, temp)
      invariant forall i :: 0 <= i < temp ==> list[i] == temp - 1 - i
    {
      FreeOne(next, free, list, temp);
      next := next[temp := free];
      free := Some(temp);
      list := [temp] + list;
    }
  }

  // The first `temp` nodes are on the free list.
  ghost predicate FreeTo(next: seq<Option<Node>>, free: Option<Node>, list: seq<Node>, temp: nat) {
    && Chained(next, free, list) && Chained(next, None, [])
    && (forall n :: n in list ==> n < temp)
    && Partition(Nodes(list, [], map[], {}), temp)
  }

  lemma FreeNone(next: seq<Option<Node>>)
    ensures FreeTo(next, None, [], 0)
  {}

  lemma FreeOne(next: seq<Option<Node>>, free: Option<Node>, list: seq<Node>, temp: nat)
    requires FreeTo(next, free, list, temp) && temp < |next|
    ensures FreeTo(next[temp := free], Some(temp), [temp] + list, temp + 1)
  {
    hide Partition, Chained;
    ChainPush(next, free, list, temp);
    ChainNone(next[temp := free]);
    PoolGrows(list, temp);
  }

  lemma PoolGrows(list: seq<Node>, temp: nat)
    requires Partition(Nodes(list, [], map[], {}), temp)
    ensures Partition(Nodes([temp] + list, [], map[], {}), temp + 1)
  {
    assert multiset([temp] + list) == multiset(list) + multiset{temp};
  }

  lemma ChainNone(next: seq<Option<Node>>)
    ensures Chained(next, None, [])
  {}
}
