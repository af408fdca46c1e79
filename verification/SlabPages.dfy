/** rt_slab_page_alloc and rt_slab_page_free: the list of free page runs under the
    slab allocator, kept in the first page of each run. Addresses count pages. */
module SlabPages {
  import opened Bytes

  datatype Run = Run(start: nat, len: nat) {
    function Stop(): nat { start + len }
    predicate Holds(p: nat) { start <= p < start + len }
  }

  // Address-sorted, disjoint and maximally coalesced.
  ghost predicate Canonical(rs: seq<Run>) {
    && (forall i :: 0 <= i < |rs| ==> rs[i].len > 0)
    && forall i, j :: 0 <= i < j < |rs| ==> rs[i].Stop() < rs[j].start
  }

  ghost predicate Free(rs: seq<Run>, p: nat) {
    exists r :: r in rs && r.Holds(p)
  }

  ghost predicate SamePages(a: seq<Run>, b: seq<Run>) {
    forall p :: Free(a, p) <==> Free(b, p)
  }

  // The list is determined by which pages are free, not by how they came to be.
  lemma {:induction false} CanonicalIsUnique(a: seq<Run>, b: seq<Run>)
    requires Canonical(a) && Canonical(b) && SamePages(a, b)
    ensures a == b
    decreases |a|
  {
    if a == [] {
      NothingFree(b);
    } else if b == [] {
      NothingFree(a);
    } else {
      FirstBelow(a, b);
      FirstBelow(b, a);
      LengthBelow(a, b);
      LengthBelow(b, a);
      forall p ensures Free(a[1..], p) <==> Free(b[1..], p) {
        RestPages(a, p);
        RestPages(b, p);
      }
      CanonicalIsUnique(a[1..], b[1..]);
      assert a == [a[0]] + a[1..] && b == [b[0]] + b[1..];
    }
  }

  lemma NothingFree(a: seq<Run>)
    requires Canonical(a) && forall p :: !Free(a, p)
    ensures a == []
  {
    assert forall i :: 0 <= i < |a| ==> a[i].Holds(a[i].start) && a[i] in a;
    assert |a| > 0 ==> a[0] in a && Free(a, a[0].start);
  }

  lemma FirstBelow(a: seq<Run>, b: seq<Run>)
    requires Canonical(a) && Canonical(b) && SamePages(a, b) && a != [] && b != []
    ensures b[0].start <= a[0].start
  {
    assert a[0] in a && a[0].Holds(a[0].start) && Free(a, a[0].start);
    var r :| r in b && r.Holds(a[0].start);
    var i :| 0 <= i < |b| && b[i] == r;
    assert i > 0 ==> b[0].Stop() < b[i].start;
  }

  lemma LengthBelow(a: seq<Run>, b: seq<Run>)
    requires Canonical(a) && Canonical(b) && SamePages(a, b) && a != [] && b != [] && a[0].start == b[0].start
    ensures b[0].len <= a[0].len
  {
    var p := a[0].Stop();
    forall r | r in a ensures !r.Holds(p) {
      var i :| 0 <= i < |a| && a[i] == r;
      assert i > 0 ==> a[0].Stop() < a[i].start;
    }
    assert !Free(a, p);
    assert b[0] in b && (b[0].len > a[0].len ==> b[0].Holds(p));
  }

  lemma RestPages(a: seq<Run>, p: nat)
    requires Canonical(a) && a != []
    ensures Free(a[1..], p) <==> Free(a, p) && p > a[0].Stop()
  {
    assert a == [a[0]] + a[1..];
    forall r | r in a[1..] ensures a[0].Stop() < r.start {
      var i :| 0 <= i < |a[1..]| && a[1..][i] == r;
      assert a[i + 1] == r;
    }
  }

  // ---------- changes to the list ----------

  function Cut(rs: seq<Run>, i: nat): seq<Run>
    requires i < |rs|
  {
    rs[..i] + rs[i + 1..]
  }

  function InsertAt(rs: seq<Run>, i: nat, r: Run): seq<Run>
    requires i <= |rs|
  {
    rs[..i] + [r] + rs[i..]
  }

  // r fits, without touching, between the runs before i and those from j on.
  ghost predicate Between(rs: seq<Run>, i: nat, j: nat, r: Run)
    requires i <= j <= |rs|
  {
    && r.len > 0 && (i > 0 ==> rs[i - 1].Stop() < r.start) && (j < |rs| ==> r.Stop() < rs[j].start)
  }

  lemma OneOfAKind(rs: seq<Run>, i: nat)
    requires Canonical(rs) && i < |rs|
    ensures rs == rs[..i] + [rs[i]] + rs[i + 1..]
    ensures rs[i] !in rs[..i] && rs[i] !in rs[i + 1..]
    ensures forall p, r :: r in rs && r != rs[i] && r.Holds(p) ==> !rs[i].Holds(p)
  {
    forall p, r | r in rs && r != rs[i] && r.Holds(p) ensures !rs[i].Holds(p) {
      var j :| 0 <= j < |rs| && rs[j] == r;
    }
  }

  lemma Dropped(rs: seq<Run>, i: nat)
    requires Canonical(rs) && i < |rs|
    ensures Canonical(Cut(rs, i))
    ensures forall p :: Free(Cut(rs, i), p) <==> Free(rs, p) && !rs[i].Holds(p)
  {
    DroppedOrder(rs, i);
    OneOfAKind(rs, i);
    hide Canonical;
    assert forall x :: x in Cut(rs, i) <==> x in rs && x != rs[i];
  }

  lemma DroppedOrder(rs: seq<Run>, i: nat)
    requires Canonical(rs) && i < |rs|
    ensures Canonical(Cut(rs, i))
  {
    var s := Cut(rs, i);
    assert forall j {:trigger s[j]} :: 0 <= j < |s| ==> s[j] == if j < i then rs[j] else rs[j + 1];
  }

  lemma Added(rs: seq<Run>, i: nat, r: Run)
    requires Canonical(rs) && i <= |rs| && Between(rs, i, i, r)
    ensures Canonical(InsertAt(rs, i, r))
    ensures forall p :: Free(InsertAt(rs, i, r), p) <==> r.Holds(p) || Free(rs, p)
  {
    AddedOrder(rs, i, r);
    hide Canonical;
    assert rs == rs[..i] + rs[i..];
    assert forall x :: x in InsertAt(rs, i, r) <==> x == r || x in rs;
  }

  lemma InsertedAt(rs: seq<Run>, i: nat, r: Run, j: nat)
    requires i <= |rs| && j <= |rs|
    ensures InsertAt(rs, i, r)[j] == if j < i then rs[j] else if j == i then r else rs[j - 1]
  {}

  lemma AddedOrder(rs: seq<Run>, i: nat, r: Run)
    requires Canonical(rs) && i <= |rs| && Between(rs, i, i, r)
    ensures Canonical(InsertAt(rs, i, r))
  {
    var s := InsertAt(rs, i, r);
    forall j | 0 <= j < |s| ensures s[j].len > 0 {
      InsertedAt(rs, i, r, j);
    }
    forall j, k | 0 <= j < k < |s| ensures s[j].Stop() < s[k].start {
      InsertedAt(rs, i, r, j);
      InsertedAt(rs, i, r, k);
      AroundGap(rs, i, i, r, if j <= i then j else j - 1);
      AroundGap(rs, i, i, r, if k <= i then k else k - 1);
    }
  }

  // Runs on either side of a gap lie on either side of what fits in it.
  lemma AroundGap(rs: seq<Run>, i: nat, k: nat, r: Run, j: nat)
    requires Canonical(rs) && i <= k <= |rs| && Between(rs, i, k, r)
    ensures j < i ==> rs[j].Stop() < r.start
    ensures k <= j < |rs| ==> r.Stop() < rs[j].start
  {
    assert j < i - 1 ==> rs[j].Stop() < rs[i - 1].start;
    assert k < j < |rs| ==> rs[k].Stop() < rs[j].start;
  }

  lemma ReplacedOrder(rs: seq<Run>, i: nat, r: Run)
    requires Canonical(rs) && i < |rs| && Between(rs, i, i + 1, r)
    ensures Canonical(rs[i := r])
  {
    var s := rs[i := r];
    forall j, k | 0 <= j < k < |s| ensures s[j].Stop() < s[k].start {
      AroundGap(rs, i, i + 1, r, j);
      AroundGap(rs, i, i + 1, r, k);
    }
  }

  lemma Replaced(rs: seq<Run>, i: nat, r: Run)
    requires Canonical(rs) && i < |rs| && Between(rs, i, i + 1, r)
    ensures Canonical(rs[i := r])
    ensures forall p :: Free(rs[i := r], p) <==> r.Holds(p) || (Free(rs, p) && !rs[i].Holds(p))
  {
    ReplacedOrder(rs, i, r);
    OneOfAKind(rs, i);
    hide Canonical;
    assert rs[i := r] == rs[..i] + [r] + rs[i + 1..];
    assert forall x :: x in rs[i := r] <==> x == r || (x in rs && x != rs[i]);
  }

  // ---------- the list in memory ----------

  // The list head, and the two fields at the start of each free run.
  datatype Memory = Memory(next: map<nat, Option<nat>>, page: map<nat, nat>, list: Option<nat>)

  function StartOf(rs: seq<Run>, i: nat): Option<nat> {
    if i < |rs| then Some(rs[i].start) else None
  }

  // The node whose link leads to the i-th; none for the list head.
  function BeforeOf(rs: seq<Run>, i: nat): Option<nat>
    requires i <= |rs|
  {
    if i == 0 then None else Some(rs[i - 1].start)
  }

  ghost predicate Node(m: Memory, rs: seq<Run>, i: nat)
    requires i < |rs|
  {
    rs[i].start in m.next && rs[i].start in m.page && m.page[rs[i].start] == rs[i].len && m.next[rs[i].start] == StartOf(rs, i + 1)
  }

  ghost predicate Chained(m: Memory, rs: seq<Run>) {
    m.list == StartOf(rs, 0) && forall i :: 0 <= i < |rs| ==> Node(m, rs, i)
  }

  // *prev = v.
  function Linked(m: Memory, prev: Option<nat>, v: Option<nat>): Memory {
    if prev.Some? then m.(next := m.next[prev.value := v]) else m.(list := v)
  }

  // A header for run r with link v, written before it is linked in.
  function Headed(m: Memory, r: Run, v: Option<nat>): Memory {
    m.(next := m.next[r.start := v], page := m.page[r.start := r.len])
  }

  lemma DifferentStarts(rs: seq<Run>, i: nat, j: nat)
    requires Canonical(rs) && i < |rs| && j < |rs|
    ensures rs[i].start == rs[j].start <==> i == j
  {}

  lemma NewStart(rs: seq<Run>, i: nat, k: nat, r: Run, j: nat)
    requires Canonical(rs) && i <= k <= |rs| && Between(rs, i, k, r) && j < |rs| && !(i <= j < k)
    ensures rs[j].start != r.start
  {
    AroundGap(rs, i, k, r, j);
  }

  // The link to a node already leads to it.
  lemma LinkedAlready(m: Memory, rs: seq<Run>, i: nat)
    requires Chained(m, rs) && i <= |rs|
    ensures Linked(m, BeforeOf(rs, i), StartOf(rs, i)) == m
  {
    assert i > 0 ==> Node(m, rs, i - 1);
  }

  lemma ChainReplaced(m: Memory, rs: seq<Run>, i: nat, r: Run)
    requires Canonical(rs) && Chained(m, rs) && i < |rs| && Between(rs, i, i + 1, r)
    ensures Chained(Linked(Headed(m, r, StartOf(rs, i + 1)), BeforeOf(rs, i), Some(r.start)), rs[i := r])
  {
    var m', s := Linked(Headed(m, r, StartOf(rs, i + 1)), BeforeOf(rs, i), Some(r.start)), rs[i := r];
    forall j | 0 <= j < |s| ensures Node(m', s, j) {
      assert Node(m, rs, j);
      if j != i {
        NewStart(rs, i, i + 1, r, j);
      }
      if i > 0 {
        DifferentStarts(rs, j, i - 1);
        NewStart(rs, i, i + 1, r, i - 1);
      }
    }
  }

  lemma ChainDropped(m: Memory, rs: seq<Run>, i: nat)
    requires Canonical(rs) && Chained(m, rs) && i < |rs|
    ensures Chained(Linked(m, BeforeOf(rs, i), StartOf(rs, i + 1)), Cut(rs, i))
  {
    var m', s := Linked(m, BeforeOf(rs, i), StartOf(rs, i + 1)), Cut(rs, i);
    forall j | 0 <= j < |s| ensures Node(m', s, j) {
      var k := if j < i then j else j + 1;
      assert s[j] == rs[k] && Node(m, rs, k);
      if i > 0 {
        DifferentStarts(rs, k, i - 1);
      }
    }
  }

  lemma ChainAdded(m: Memory, rs: seq<Run>, i: nat, r: Run)
    requires Canonical(rs) && Chained(m, rs) && i <= |rs| && Between(rs, i, i, r)
    ensures Chained(Linked(Headed(m, r, StartOf(rs, i)), BeforeOf(rs, i), Some(r.start)), InsertAt(rs, i, r))
  {
    var m', s := Linked(Headed(m, r, StartOf(rs, i)), BeforeOf(rs, i), Some(r.start)), InsertAt(rs, i, r);
    InsertedAt(rs, i, r, 0);
    forall j | 0 <= j < |s| ensures Node(m', s, j) {
      AddedNode(m, rs, i, r, j);
    }
  }

  lemma AfterAdded(rs: seq<Run>, i: nat, r: Run, j: nat)
    requires i <= |rs| && j <= |rs|
    ensures |InsertAt(rs, i, r)| == |rs| + 1
    ensures InsertAt(rs, i, r)[j] == if j < i then rs[j] else if j == i then r else rs[j - 1]
    ensures StartOf(InsertAt(rs, i, r), j + 1) == if j + 1 < i then StartOf(rs, j + 1) else if j + 1 == i then Some(r.start) else StartOf(rs, j)
  {}

  // What the fields of the node at k are after a new header has been linked in.
  lemma LinkedIn(m: Memory, r: Run, v: Option<nat>, prev: Option<nat>, k: nat)
    requires prev != Some(r.start)
    ensures var m' := Linked(Headed(m, r, v), prev, Some(r.start));
            && (k == r.start ==> k in m'.page && m'.page[k] == r.len && k in m'.next && m'.next[k] == v)
            && (k != r.start && k in m.page ==> k in m'.page && m'.page[k] == m.page[k])
            && (prev == Some(k) ==> k in m'.next && m'.next[k] == Some(r.start))
            && (k != r.start && prev != Some(k) && k in m.next ==> k in m'.next && m'.next[k] == m.next[k])
  {}

  lemma AddedNode(m: Memory, rs: seq<Run>, i: nat, r: Run, j: nat)
    requires Canonical(rs) && Chained(m, rs) && i <= |rs| && Between(rs, i, i, r) && j <= |rs|
    ensures Node(Linked(Headed(m, r, StartOf(rs, i)), BeforeOf(rs, i), Some(r.start)), InsertAt(rs, i, r), j)
  {
    hide Canonical, Chained, InsertAt, StartOf, Between, Linked, Headed;
    AfterAdded(rs, i, r, j);
    if i > 0 {
      NewStart(rs, i, i, r, i - 1);
    }
    if j != i {
      OldNode(m, rs, i, r, if j < i then j else j - 1);
    }
    LinkedIn(m, r, StartOf(rs, i), BeforeOf(rs, i), InsertAt(rs, i, r)[j].start);
  }

  lemma OldNode(m: Memory, rs: seq<Run>, i: nat, r: Run, k: nat)
    requires Canonical(rs) && Chained(m, rs) && i <= |rs| && Between(rs, i, i, r) && k < |rs|
    ensures Node(m, rs, k) && rs[k].start != r.start
    ensures i > 0 ==> (rs[k].start == rs[i - 1].start <==> k == i - 1)
  {
    NewStart(rs, i, i, r, k);
    if i > 0 {
      DifferentStarts(rs, k, i - 1);
    }
  }

  // The page given is the start of the first run that is long enough.
  ghost predicate FirstLong(rs: seq<Run>, npages: nat, b: nat) {
    exists i :: 0 <= i < |rs| && rs[i].start == b && rs[i].len >= npages && forall j :: 0 <= j < i ==> rs[j].len < npages
  }

  ghost predicate LongRun(rs: seq<Run>, n: nat) {
    exists i :: 0 <= i < |rs| && rs[i].len >= n
  }

  // Where the first run of at least n pages starts.
  ghost function FirstFit(rs: seq<Run>, n: nat): nat {
    if rs == [] then 0 else if rs[0].len >= n then rs[0].start else FirstFit(rs[1..], n)
  }

  lemma {:induction false} FirstFitIs(rs: seq<Run>, n: nat, b: nat)
    requires FirstLong(rs, n, b)
    ensures LongRun(rs, n) && FirstFit(rs, n) == b
  {
    var i :| 0 <= i < |rs| && rs[i].start == b && rs[i].len >= n && forall j :: 0 <= j < i ==> rs[j].len < n;
    if i > 0 {
      assert rs[1..][i - 1] == rs[i];
      assert forall j :: 0 <= j < i - 1 ==> rs[1..][j] == rs[j + 1];
      FirstFitIs(rs[1..], n, b);
    }
  }

  // The free pages are those of `before` without, or with, the given ones.
  ghost predicate Took(before: seq<Run>, after: seq<Run>, r: Run) {
    forall p :: Free(after, p) <==> Free(before, p) && !r.Holds(p)
  }

  ghost predicate Gave(before: seq<Run>, after: seq<Run>, r: Run) {
    forall p :: Free(after, p) <==> Free(before, p) || r.Holds(p)
  }

  // No page of r is free.
  ghost predicate Disjoint(rs: seq<Run>, r: Run) {
    forall p :: r.Holds(p) ==> !Free(rs, p)
  }

  lemma DisjointRun(rs: seq<Run>, r: Run, i: nat)
    requires Canonical(rs) && Disjoint(rs, r) && i < |rs| && r.len > 0
    ensures rs[i].Stop() <= r.start || r.Stop() <= rs[i].start
  {
    assert rs[i] in rs && forall p :: rs[i].Holds(p) ==> Free(rs, p);
    assert rs[i].Holds(rs[i].start) && r.Holds(r.start);
  }

  class PageList {
    var next: map<nat, Option<nat>>
    var page: map<nat, nat>
    var list: Option<nat>
    ghost var runs: seq<Run>

    ghost function Now(): Memory
      reads this
    {
      Memory(next, page, list)
    }

    ghost predicate Valid()
      reads this
    {
      Canonical(runs) && Chained(Now(), runs)
    }

    constructor ()
      ensures Valid() && runs == []
    {
      next, page, list, runs := map[], map[], None, [];
    }

    method Link(prev: Option<nat>, v: Option<nat>)
      modifies `next, `list
      ensures Now() == Linked(old(Now()), prev, v)
    {
      if prev.Some? {
        next := next[prev.value := v];
      } else {
        list := v;
      }
    }

    // rt_slab_page_alloc: the front of the first run that is long enough.
    method Alloc(npages: nat) returns (b: Option<nat>)
      requires Valid()
      modifies this
      ensures Valid()
      ensures b == None <==> npages == 0 || forall i :: 0 <= i < |old(runs)| ==> old(runs)[i].len < npages
      ensures b == None ==> runs == old(runs)
      ensures b.Some? ==> FirstLong(old(runs), npages, b.value) && Took(old(runs), runs, Run(b.value, npages))
    {
      if npages == 0 {
        return None;
      }
      var prev: Option<nat> := None;
      b := list;
      ghost var i := 0;
      while b.Some?
        invariant Valid() && runs == old(runs) && i <= |runs| && b == StartOf(runs, i) && prev == BeforeOf(runs, i)
        invariant forall j :: 0 <= j < i ==> runs[j].len < npages
        decreases |runs| - i
      {
        assert Node(Now(), runs, i);
        ghost var r := runs[i];
        if page[b.value] > npages {
          var n := b.value + npages;
          ChainReplaced(Now(), runs, i, Run(n, r.len - npages));
          Replaced(runs, i, Run(n, r.len - npages));
          next := next[n := next[b.value]];
          page := page[n := page[b.value] - npages];
          Link(prev, Some(n));
          runs := runs[i := Run(n, r.len - npages)];
          FrontTaken(old(runs), runs, i, npages);
          return;
        }
        if page[b.value] == npages {
          ChainDropped(Now(), runs, i);
          Dropped(runs, i);
          Link(prev, next[b.value]);
          runs := Cut(runs, i);
          assert Run(b.value, npages) == r;
          return;
        }
        prev := b;
        b := next[b.value];
        i := i + 1;
      }
    }

    // rt_slab_page_free: the pages join the run before or behind them, or both.
    method Release(addr: nat, npages: nat)
      requires Valid() && npages > 0 && Disjoint(runs, Run(addr, npages))
      modifies this
      ensures Valid() && Gave(old(runs), runs, Run(addr, npages))
    {
      var prev: Option<nat> := None;
      var b := list;
      ghost var i, given := 0, Run(addr, npages);
      while b.Some?
        invariant Valid() && runs == old(runs) && i <= |runs| && b == StartOf(runs, i) && prev == BeforeOf(runs, i)
        invariant i > 0 ==> runs[i - 1].Stop() < addr
        decreases |runs| - i
      {
        assert Node(Now(), runs, i);
        DisjointRun(runs, given, i);
        if b.value + page[b.value] == addr {
          Extend(b.value, npages, i);
          return;
        }
        if b.value == addr + npages {
          Prepend(prev, addr, npages, b.value, i);
          return;
        }
        if b.value > addr + npages {
          break;
        }
        prev := b;
        b := next[b.value];
        i := i + 1;
      }
      ChainAdded(Now(), runs, i, given);
      Added(runs, i, given);
      hide Canonical, Chained, Between, InsertAt;
      page := page[addr := npages];
      next := next[addr := b];
      Link(prev, Some(addr));
      runs := InsertAt(runs, i, given);
    }

    // The pages right before run b join it, which then starts at addr.
    method Prepend(prev: Option<nat>, addr: nat, npages: nat, b: nat, ghost i: nat)
      requires Valid() && i < |runs| && prev == BeforeOf(runs, i) && runs[i].start == b == addr + npages && npages > 0
      requires i > 0 ==> runs[i - 1].Stop() < addr
      modifies this
      ensures Valid() && Gave(old(runs), runs, Run(addr, npages))
    {
      ghost var r := Run(addr, runs[i].len + npages);
      assert Node(Now(), runs, i);
      JoinFront(runs, i, npages);
      ChainReplaced(Now(), runs, i, r);
      hide Canonical, Chained, Between, Gave;
      page := page[addr := page[b] + npages];
      next := next[addr := next[b]];
      Link(prev, Some(addr));
      runs := runs[i := r];
    }

    // The pages behind run b join it, and the run behind them if they touch it.
    method Extend(b: nat, npages: nat, ghost i: nat)
      requires Valid() && i < |runs| && runs[i].start == b && npages > 0 && Disjoint(runs, Run(runs[i].Stop(), npages))
      modifies this
      ensures Valid() && Gave(old(runs), runs, Run(old(runs)[i].Stop(), npages))
    {
      ghost var rs, was := runs, Now();
      assert Node(was, rs, i);
      page := page[b := page[b] + npages];
      if Some(b + page[b]) == next[b] {
        BothExtended(was, rs, i, npages);
        var n := b + page[b];
        page := page[b := page[b] + page[n]];
        next := next[b := next[n]];
        runs := Cut(rs, i + 1)[i := Run(b, rs[i].len + npages + rs[i + 1].len)];
        ExtendBoth(rs, i, npages);
        assert page == was.page[b := rs[i].len + npages + rs[i + 1].len];
        assert Now() == was.(page := page, next := was.next[b := was.next[n]]);
      } else {
        OneExtended(was, rs, i, npages);
        runs := rs[i := Run(b, rs[i].len + npages)];
        ExtendOne(rs, i, npages);
      }
    }
  }

  lemma OneExtended(m: Memory, rs: seq<Run>, i: nat, npages: nat)
    requires Canonical(rs) && Chained(m, rs) && i < |rs| && npages > 0 && Disjoint(rs, Run(rs[i].Stop(), npages))
    requires StartOf(rs, i + 1) != Some(rs[i].Stop() + npages)
    ensures var b := rs[i].start;
            b in m.page && Chained(m.(page := m.page[b := m.page[b] + npages]), rs[i := Run(b, rs[i].len + npages)])
  {
    var r := Run(rs[i].start, rs[i].len + npages);
    ExtendOne(rs, i, npages);
    ChainReplaced(m, rs, i, r);
    LinkedAlready(m, rs, i);
    assert Node(m, rs, i);
    hide Canonical, Chained, Between;
    assert m.(page := m.page[r.start := r.len]) == Linked(Headed(m, r, StartOf(rs, i + 1)), BeforeOf(rs, i), Some(r.start));
  }

  lemma BothExtended(m: Memory, rs: seq<Run>, i: nat, npages: nat)
    requires Canonical(rs) && Chained(m, rs) && i < |rs| && npages > 0
    requires StartOf(rs, i + 1) == Some(rs[i].Stop() + npages)
    ensures i + 1 < |rs|
    ensures var b, n, len := rs[i].start, rs[i + 1].start, rs[i].len + npages + rs[i + 1].len;
            n in m.page && n in m.next && n != b && m.page[n] == rs[i + 1].len
            && Chained(m.(page := m.page[b := len], next := m.next[b := m.next[n]]), Cut(rs, i + 1)[i := Run(b, len)])
  {
    var r, w := Run(rs[i].start, rs[i].len + npages + rs[i + 1].len), Cut(rs, i + 1);
    var mid := Linked(m, Some(rs[i].start), StartOf(rs, i + 2));
    assert Node(m, rs, i) && Node(m, rs, i + 1);
    DifferentStarts(rs, i, i + 1);
    ExtendBoth(rs, i, npages);
    ChainDropped(m, rs, i + 1);
    ChainReplaced(mid, w, i, r);
    LinkedAlready(mid, w, i);
    hide Canonical, Chained, Between, Cut;
    assert m.(page := m.page[r.start := r.len], next := m.next[r.start := m.next[rs[i + 1].start]])
           == Linked(Headed(mid, r, StartOf(w, i + 1)), BeforeOf(w, i), Some(r.start));
  }

  // Run i with the pages right before it.
  lemma JoinFront(rs: seq<Run>, i: nat, npages: nat)
    requires Canonical(rs) && i < |rs| && 0 < npages <= rs[i].start && (i > 0 ==> rs[i - 1].Stop() < rs[i].start - npages)
    ensures var r := Run(rs[i].start - npages, rs[i].len + npages);
            Between(rs, i, i + 1, r) && Canonical(rs[i := r]) && Gave(rs, rs[i := r], Run(rs[i].start - npages, npages))
  {
    var r, given := Run(rs[i].start - npages, rs[i].len + npages), Run(rs[i].start - npages, npages);
    assert i + 1 < |rs| ==> rs[i].Stop() < rs[i + 1].start;
    Replaced(rs, i, r);
    hide Canonical, Between;
    forall p ensures Free(rs[i := r], p) <==> Free(rs, p) || given.Holds(p) {
      FreeIn(rs, i, p);
      assert r.Holds(p) <==> rs[i].Holds(p) || given.Holds(p);
    }
  }

  lemma FreeIn(rs: seq<Run>, i: nat, p: nat)
    requires i < |rs|
    ensures rs[i].Holds(p) ==> Free(rs, p)
  {
    assert rs[i] in rs;
  }

  lemma ExtendOne(rs: seq<Run>, i: nat, npages: nat)
    requires Canonical(rs) && i < |rs| && npages > 0 && Disjoint(rs, Run(rs[i].Stop(), npages))
    requires StartOf(rs, i + 1) != Some(rs[i].Stop() + npages)
    ensures var r := Run(rs[i].start, rs[i].len + npages);
            Between(rs, i, i + 1, r) && Canonical(rs[i := r]) && Gave(rs, rs[i := r], Run(rs[i].Stop(), npages))
  {
    var r, given := Run(rs[i].start, rs[i].len + npages), Run(rs[i].Stop(), npages);
    if i + 1 < |rs| {
      DisjointRun(rs, given, i + 1);
    }
    Replaced(rs, i, r);
    hide Canonical, Between, Disjoint;
    forall p ensures Free(rs[i := r], p) <==> Free(rs, p) || given.Holds(p) {
      FreeIn(rs, i, p);
      assert r.Holds(p) <==> rs[i].Holds(p) || given.Holds(p);
    }
  }

  lemma ExtendBoth(rs: seq<Run>, i: nat, npages: nat)
    requires Canonical(rs) && i + 1 < |rs| && npages > 0 && rs[i + 1].start == rs[i].Stop() + npages
    ensures var r, s := Run(rs[i].start, rs[i].len + npages + rs[i + 1].len), Cut(rs, i + 1);
            && i < |s| && s[i] == rs[i] && StartOf(s, i + 1) == StartOf(rs, i + 2) && BeforeOf(s, i) == BeforeOf(rs, i) && StartOf(s, i) == StartOf(rs, i)
            && Canonical(s) && Between(s, i, i + 1, r)
            && Canonical(s[i := r]) && Gave(rs, s[i := r], Run(rs[i].Stop(), npages))
  {
    var r, s := Run(rs[i].start, rs[i].len + npages + rs[i + 1].len), Cut(rs, i + 1);
    Dropped(rs, i + 1);
    assert i > 0 ==> s[i - 1] == rs[i - 1];
    assert i + 1 < |s| ==> s[i + 1] == rs[i + 2];
    Replaced(s, i, r);
    hide Canonical, Between, Cut;
    var given := Run(rs[i].Stop(), npages);
    forall p ensures Free(s[i := r], p) <==> Free(rs, p) || given.Holds(p) {
      FreeIn(rs, i, p);
      FreeIn(rs, i + 1, p);
      assert r.Holds(p) <==> rs[i].Holds(p) || given.Holds(p) || rs[i + 1].Holds(p);
    }
  }

  lemma FrontTaken(before: seq<Run>, after: seq<Run>, i: nat, npages: nat)
    requires i < |before| && npages < before[i].len && Canonical(before)
    requires var r := Run(before[i].start + npages, before[i].len - npages);
             forall p :: Free(after, p) <==> r.Holds(p) || (Free(before, p) && !before[i].Holds(p))
    ensures Took(before, after, Run(before[i].start, npages))
  {
    assert before[i] in before && forall p :: before[i].Holds(p) ==> Free(before, p);
  }

  // Giving back what was just taken restores the list exactly.
  lemma FreeUndoesAlloc(before: seq<Run>, mid: seq<Run>, after: seq<Run>, npages: nat, b: nat)
    requires Canonical(before) && Canonical(after) && npages > 0
    requires FirstLong(before, npages, b) && Took(before, mid, Run(b, npages)) && Gave(mid, after, Run(b, npages))
    ensures after == before
  {
    FirstLongFree(before, npages, b);
    hide Canonical, FirstLong;
    assert SamePages(before, after);
    CanonicalIsUnique(before, after);
  }

  lemma FirstLongFree(rs: seq<Run>, npages: nat, b: nat)
    requires FirstLong(rs, npages, b)
    ensures forall p :: Run(b, npages).Holds(p) ==> Free(rs, p)
  {
    var i :| 0 <= i < |rs| && rs[i].start == b && rs[i].len >= npages;
    assert rs[i] in rs;
  }

  // ---------- any run ----------

  // Every page of the region is on the free list or in one allocation.
  ghost predicate Shared(region: Run, free: seq<Run>, out: seq<Run>) {
    && (forall p :: region.Holds(p) <==> Free(free, p) || Free(out, p))
    && (forall p :: Free(out, p) ==> !Free(free, p))
    && (forall r :: r in out ==> r.len > 0)
    && forall i, j, p :: 0 <= i < j < |out| && out[i].Holds(p) ==> !out[j].Holds(p)
  }

  lemma TakenShared(region: Run, before: seq<Run>, after: seq<Run>, out: seq<Run>, npages: nat, b: nat)
    requires Shared(region, before, out) && FirstLong(before, npages, b) && Took(before, after, Run(b, npages)) && npages > 0
    ensures Shared(region, after, out + [Run(b, npages)])
  {
    var r, out' := Run(b, npages), out + [Run(b, npages)];
    FirstLongFree(before, npages, b);
    assert forall x :: x in out' <==> x == r || x in out;
    assert forall p :: Free(out', p) <==> r.Holds(p) || Free(out, p);
    forall i, j, p | 0 <= i < j < |out'| && out'[i].Holds(p) ensures !out'[j].Holds(p) {
      assert out'[i] == out[i] && out[i] in out;
    }
  }

  lemma GivenShared(region: Run, before: seq<Run>, after: seq<Run>, out: seq<Run>, k: nat)
    requires Shared(region, before, out) && k < |out| && Gave(before, after, out[k])
    ensures Shared(region, after, Cut(out, k))
  {
    var r, out' := out[k], Cut(out, k);
    assert out == out[..k] + [r] + out[k + 1..];
    assert forall j {:trigger out'[j]} :: 0 <= j < |out'| ==> out'[j] == out[if j < k then j else j + 1];
    forall p ensures Free(out', p) <==> Free(out, p) && !r.Holds(p) {
      if Free(out', p) {
        var x :| x in out' && x.Holds(p);
        var j :| 0 <= j < |out'| && out'[j] == x;
        assert out[if j < k then j else j + 1].Holds(p);
      }
    }
    assert r in out;
  }

  lemma OutDisjoint(region: Run, free: seq<Run>, out: seq<Run>, k: nat)
    requires Shared(region, free, out) && k < |out|
    ensures Disjoint(free, out[k]) && out[k].len > 0
  {
    assert out[k] in out;
  }

  // When everything has come back the list is one run again.
  lemma AllBack(region: Run, free: seq<Run>)
    requires Shared(region, free, []) && Canonical(free) && region.len > 0
    ensures free == [region]
  {
    forall p ensures Free(free, p) <==> Free([region], p) {
      assert region in [region];
    }
    CanonicalIsUnique(free, [region]);
  }

  datatype Op = Get(npages: nat) | Put(k: nat)

  datatype Pages = Pages(runs: seq<Run>, out: seq<Run>)

  // The first run that is long enough gives its front, and what comes back is free.
  ghost predicate PageStep(a: Pages, op: Op, b: Pages) {
    match op
    case Get(n) =>
      if n > 0 && LongRun(a.runs, n) then
        var r := Run(FirstFit(a.runs, n), n);
        b.out == a.out + [r] && Took(a.runs, b.runs, r)
      else b == a
    case Put(k) => if k < |a.out| then b.out == Cut(a.out, k) && Gave(a.runs, b.runs, a.out[k]) else b == a
  }

  ghost predicate PagesRight(region: Run, a: Pages) {
    Canonical(a.runs) && Shared(region, a.runs, a.out) && (a.out == [] ==> a.runs == [region])
  }

  method DoPages(pages: PageList, region: Run, out: seq<Run>, op: Op) returns (out': seq<Run>)
    requires pages.Valid() && Shared(region, pages.runs, out)
    modifies pages
    ensures pages.Valid() && Shared(region, pages.runs, out')
    ensures PageStep(old(Pages(pages.runs, out)), op, Pages(pages.runs, out'))
  {
    hide Canonical, Chained, Shared, Took, Gave, FirstFit;
    out' := out;
    ghost var before := pages.runs;
    match op {
      case Get(npages) =>
        var b := pages.Alloc(npages);
        if b.Some? {
          FirstFitIs(before, npages, b.value);
          TakenShared(region, before, pages.runs, out, npages, b.value);
          out' := out + [Run(b.value, npages)];
        }
      case Put(k) =>
        if k < |out| {
          OutDisjoint(region, before, out, k);
          pages.Release(out[k].start, out[k].len);
          assert Run(out[k].start, out[k].len) == out[k];
          GivenShared(region, before, pages.runs, out, k);
          out' := Cut(out, k);
        }
    }
  }

  // Pages taken and given back in any order.
  method RunPages(pages: PageList, region: Run, out0: seq<Run>, ops: seq<Op>) returns (out: seq<Run>, ghost states: seq<Pages>)
    requires pages.Valid() && region.len > 0 && Shared(region, pages.runs, out0)
    modifies pages
    ensures pages.Valid() && |states| == |ops| + 1
    ensures states[0] == old(Pages(pages.runs, out0)) && states[|ops|] == Pages(pages.runs, out)
    ensures forall i :: 0 <= i < |ops| ==> PageStep(states[i], ops[i], states[i + 1])
    ensures forall i :: 0 <= i <= |ops| ==> PagesRight(region, states[i])
  {
    hide PageStep, PagesRight;
    out, states := out0, [Pages(pages.runs, out0)];
    PagesAreRight(pages, region, out);
    for i := 0 to |ops|
      invariant pages.Valid() && Shared(region, pages.runs, out) && |states| == i + 1
      invariant states[0] == old(Pages(pages.runs, out0)) && states[i] == Pages(pages.runs, out)
      invariant forall k :: 0 <= k < i ==> PageStep(states[k], ops[k], states[k + 1])
      invariant forall k :: 0 <= k <= i ==> PagesRight(region, states[k])
    {
      hide Shared, Canonical, Chained;
      out := DoPages(pages, region, out, ops[i]);
      PagesAreRight(pages, region, out);
      states := states + [Pages(pages.runs, out)];
    }
  }

  lemma PagesAreRight(pages: PageList, region: Run, out: seq<Run>)
    requires pages.Valid() && region.len > 0 && Shared(region, pages.runs, out)
    ensures PagesRight(region, Pages(pages.runs, out))
  {
    if out == [] {
      AllBack(region, pages.runs);
    }
  }

  // rt_slab_page_init: the whole region is one free run.
  method PageInit(region: Run) returns (pages: PageList)
    requires region.len > 0
    ensures fresh(pages) && pages.Valid() && Shared(region, pages.runs, []) && pages.runs == [region]
  {
    pages := new PageList();
    pages.Release(region.start, region.len);
    assert Run(region.start, region.len) == region;
    AllBack(region, pages.runs);
  }
}
