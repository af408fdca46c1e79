/** Circular doubly linked lists threaded through nodes by address: rt_list_t, and
    the two lists of a memheap, which are wired in the same way. */
module Rings {
  type Addr = nat

  datatype Links = Links(next: map<Addr, Addr>, prev: map<Addr, Addr>)

  ghost predicate Unique(s: seq<Addr>) {
    forall i, j :: 0 <= i < j < |s| ==> s[i] != s[j]
  }

  function Succ(s: seq<Addr>, i: nat): Addr
    requires i < |s|
  {
    if i + 1 < |s| then s[i + 1] else s[0]
  }

  function Pred(s: seq<Addr>, i: nat): Addr
    requires i < |s|
  {
    if i > 0 then s[i - 1] else s[|s| - 1]
  }

  // The links go round exactly s, in both directions.
  ghost predicate Circle(l: Links, s: seq<Addr>) {
    s != [] && Unique(s) && forall i :: 0 <= i < |s| ==> Wired(l, s, i)
  }

  ghost predicate Wired(l: Links, s: seq<Addr>, i: nat)
    requires i < |s|
  {
    s[i] in l.next && s[i] in l.prev && l.next[s[i]] == Succ(s, i) && l.prev[s[i]] == Pred(s, i)
  }

  function Inserted(l: Links, a: Addr, n: Addr): Links
    requires a in l.next
  {
    Links(l.next[n := l.next[a]][a := n], l.prev[l.next[a] := n][n := a])
  }

  function Unlinked(l: Links, n: Addr): Links
    requires n in l.next && n in l.prev
  {
    Links(l.next[l.prev[n] := l.next[n]], l.prev[l.next[n] := l.prev[n]])
  }

  function InsertAt(s: seq<Addr>, i: nat, n: Addr): seq<Addr>
    requires i <= |s|
  {
    s[..i] + [n] + s[i..]
  }

  function RemoveAt(s: seq<Addr>, i: nat): seq<Addr>
    requires i < |s|
  {
    s[..i] + s[i + 1..]
  }

  lemma InsertAtElements(s: seq<Addr>, i: nat, n: Addr)
    requires i <= |s|
    ensures forall j {:trigger InsertAt(s, i, n)[j]} :: 0 <= j <= |s| ==> InsertAt(s, i, n)[j] == if j < i then s[j] else if j == i then n else s[j - 1]
    ensures forall x :: x in InsertAt(s, i, n) <==> x == n || x in s
  {
    assert s == s[..i] + s[i..];
  }

  lemma RemoveAtElements(s: seq<Addr>, i: nat)
    requires i < |s|
    ensures forall j {:trigger RemoveAt(s, i)[j]} :: 0 <= j < |s| - 1 ==> RemoveAt(s, i)[j] == if j < i then s[j] else s[j + 1]
    ensures Unique(s) ==> forall x :: x in RemoveAt(s, i) <==> x != s[i] && x in s
  {
    assert s == s[..i] + [s[i]] + s[i + 1..];
  }

  lemma InsertUnique(s: seq<Addr>, i: nat, n: Addr)
    requires i <= |s| && Unique(s) && n !in s
    ensures Unique(InsertAt(s, i, n))
  {
    InsertAtElements(s, i, n);
  }

  lemma RemoveUnique(s: seq<Addr>, i: nat)
    requires i < |s| && Unique(s)
    ensures Unique(RemoveAt(s, i))
  {
    RemoveAtElements(s, i);
  }

  // Which node follows which.
  lemma Neighbours(s: seq<Addr>, i: nat, j: nat)
    requires i < |s| && j < |s| && Unique(s)
    ensures s[i] == s[j] <==> i == j
    ensures Succ(s, i) == s[j] <==> j == if i + 1 < |s| then i + 1 else 0
    ensures Pred(s, i) == s[j] <==> j == if i > 0 then i - 1 else |s| - 1
  {}

  // Linking n in after the i-th node.
  lemma InsertKeeps(l: Links, s: seq<Addr>, i: nat, n: Addr)
    requires Circle(l, s) && i < |s| && n !in s
    ensures s[i] in l.next && Circle(Inserted(l, s[i], n), InsertAt(s, i + 1, n))
  {
    InsertAtElements(s, i + 1, n);
    InsertUnique(s, i + 1, n);
    assert Wired(l, s, i);
    var r, l' := InsertAt(s, i + 1, n), Inserted(l, s[i], n);
    forall j | 0 <= j < |r| ensures Wired(l', r, j) {
      InsertStep(l, s, i, n, j);
    }
  }

  lemma InsertStep(l: Links, s: seq<Addr>, i: nat, n: Addr, j: nat)
    requires Circle(l, s) && i < |s| && n !in s && j <= |s|
    ensures s[i] in l.next && Wired(Inserted(l, s[i], n), InsertAt(s, i + 1, n), j)
  {
    InsertAtElements(s, i + 1, n);
    assert Wired(l, s, i);
    if j != i + 1 {
      var k := if j <= i then j else j - 1;
      assert InsertAt(s, i + 1, n)[j] == s[k];
      assert Wired(l, s, k);
      Neighbours(s, i, k);
    }
    hide Unique, InsertAt;
  }

  // Unlinking the i-th node of at least two.
  lemma RemoveKeeps(l: Links, s: seq<Addr>, i: nat)
    requires Circle(l, s) && i < |s| && |s| > 1
    ensures s[i] in l.next && s[i] in l.prev && Circle(Unlinked(l, s[i]), RemoveAt(s, i))
  {
    RemoveAtElements(s, i);
    RemoveUnique(s, i);
    assert Wired(l, s, i);
    var r, l' := RemoveAt(s, i), Unlinked(l, s[i]);
    forall j | 0 <= j < |r| ensures Wired(l', r, j) {
      RemoveStep(l, s, i, j);
    }
  }

  lemma RemoveStep(l: Links, s: seq<Addr>, i: nat, j: nat)
    requires Circle(l, s) && i < |s| && |s| > 1 && j < |s| - 1
    ensures s[i] in l.next && s[i] in l.prev && Wired(Unlinked(l, s[i]), RemoveAt(s, i), j)
  {
    RemoveAtElements(s, i);
    var k := if j < i then j else j + 1;
    assert RemoveAt(s, i)[j] == s[k];
    assert Wired(l, s, i) && Wired(l, s, k);
    Neighbours(s, i, k);
    hide Unique, RemoveAt;
  }

  // rt_list_t nodes, each in some circle. A list is a circle that starts at its head.
  class ListNodes {
    var next: map<Addr, Addr>
    var prev: map<Addr, Addr>

    ghost function Now(): Links
      reads this
    {
      Links(next, prev)
    }

    ghost predicate Holds(head: Addr, items: seq<Addr>)
      reads this
    {
      Circle(Now(), [head] + items)
    }

    // rt_list_init.
    method Init(l: Addr)
      modifies this
      ensures Holds(l, [])
      ensures next == old(next)[l := l] && prev == old(prev)[l := l]
    {
      next, prev := next[l := l], prev[l := l];
      Alone(Now(), l);
      assert [l] + [] == [l];
    }

    // rt_list_insert_after.
    method InsertAfter(l: Addr, n: Addr, ghost s: seq<Addr>, ghost i: nat)
      requires Circle(Now(), s) && i < |s| && s[i] == l && n !in s
      modifies this
      ensures l in old(next) && Now() == Inserted(old(Now()), l, n)
      ensures Circle(Now(), InsertAt(s, i + 1, n))
    {
      InsertKeeps(Now(), s, i, n);
      assert Wired(Now(), s, i);
      Neighbours(s, i, i);
      hide Circle;
      prev := prev[next[l] := n];
      next := next[n := next[l]];
      next := next[l := n];
      prev := prev[n := l];
    }

    // rt_list_insert_before; before the head is the end of the list.
    method InsertBefore(l: Addr, n: Addr, ghost items: seq<Addr>)
      requires Holds(l, items) && n != l && n !in items
      modifies this
      ensures Holds(l, items + [n])
    {
      ghost var s := [l] + items;
      InsertKeeps(Now(), s, |items|, n);
      assert InsertAt(s, |items| + 1, n) == [l] + (items + [n]);
      assert Wired(Now(), s, 0) && Wired(Now(), s, |items|);
      assert s[|items|] == prev[l] && next[prev[l]] == l && prev[l] in s && l in s;
      hide Circle, InsertAt;
      ghost var was, a := Now(), prev[l];
      next := next[prev[l] := n];
      prev := prev[n := prev[l]];
      prev := prev[l := n];
      next := next[n := l];
      assert a != n && l != n;
      assert next == Inserted(was, a, n).next;
      assert prev == Inserted(was, a, n).prev;
    }

    // rt_list_remove.
    method Remove(n: Addr, ghost head: Addr, ghost items: seq<Addr>, ghost i: nat)
      requires Holds(head, items) && i < |items| && items[i] == n
      modifies this
      ensures Holds(head, RemoveAt(items, i)) && Holds(n, [])
    {
      ghost var s := [head] + items;
      assert s[i + 1] == n;
      assert Wired(Now(), s, i + 1);
      RemoveKeeps(Now(), s, i + 1);
      NotThere(s, i + 1);
      assert RemoveAt(s, i + 1) == [head] + RemoveAt(items, i);
      OtherNode(Unlinked(Now(), n), [head] + RemoveAt(items, i), n);
      OnItsOwn(s, i + 1, Now());
      hide Circle, RemoveAt, Unique;
      prev := prev[next[n] := prev[n]];
      next := next[prev[n] := next[n]];
      next, prev := next[n := n], prev[n := n];
      Alone(Now(), n);
    }

    // rt_list_isempty.
    method IsEmpty(l: Addr, ghost items: seq<Addr>) returns (r: bool)
      requires Holds(l, items)
      ensures r <==> items == []
    {
      assert items != [] ==> ([l] + items)[1] == items[0];
      assert ([l] + items)[0] == l && Wired(Now(), [l] + items, 0);
      r := next[l] == l;
    }

    // rt_list_len.
    method Len(l: Addr, ghost items: seq<Addr>) returns (len: nat)
      requires Holds(l, items)
      ensures len == |items|
    {
      ghost var s := [l] + items;
      len := 0;
      var p := l;
      assert Wired(Now(), s, 0);
      while next[p] != l
        invariant len < |s| && p == s[len] && Wired(Now(), s, len)
        decreases |s| - len
      {
        Neighbours(s, len, 0);
        p := next[p];
        len := len + 1;
      }
    }
  }

  lemma NotThere(s: seq<Addr>, i: nat)
    requires i < |s| && Unique(s)
    ensures s[i] !in RemoveAt(s, i)
  {
    RemoveAtElements(s, i);
  }

  lemma OnItsOwn(s: seq<Addr>, i: nat, l: Links)
    requires Circle(l, s) && i < |s| && |s| > 1
    ensures s[i] in l.next && s[i] in l.prev && l.next[s[i]] != s[i] && l.prev[s[i]] != s[i]
  {
    assert Wired(l, s, i);
    Neighbours(s, i, i);
  }

  lemma Alone(l: Links, n: Addr)
    requires n in l.next && n in l.prev && l.next[n] == n == l.prev[n]
    ensures Circle(l, [n] + [])
  {
    assert Wired(l, [n] + [], 0);
  }

  lemma OtherNode(l: Links, s: seq<Addr>, n: Addr)
    requires Circle(l, s) && n !in s
    ensures Circle(Links(l.next[n := n], l.prev[n := n]), s)
  {
    var l' := Links(l.next[n := n], l.prev[n := n]);
    forall i | 0 <= i < |s| ensures Wired(l', s, i) {
      assert Wired(l, s, i);
    }
  }
}
