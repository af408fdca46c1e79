/** Lists without repetition, of threads or of zones. */
module Lists {
  ghost predicate NoDup(s: seq<nat>) {
    forall i, j :: 0 <= i < j < |s| ==> s[i] != s[j]
  }

  // rt_list_remove.
  function Without(s: seq<nat>, t: nat): seq<nat> {
    if s == [] then [] else if s[0] == t then s[1..] else [s[0]] + Without(s[1..], t)
  }

  lemma {:induction false} WithoutIn(s: seq<nat>, t: nat, x: nat)
    requires NoDup(s)
    ensures x in Without(s, t) <==> x in s && x != t
  {
    if s != [] {
      assert NoDup(s[1..]) && forall i :: 0 <= i < |s[1..]| ==> s[1..][i] == s[i + 1] != s[0];
      assert x in s <==> x == s[0] || x in s[1..];
      if s[0] != t {
        WithoutIn(s[1..], t, x);
        assert x in Without(s, t) <==> x == s[0] || x in Without(s[1..], t);
      }
    }
  }

  lemma {:induction false} WithoutNoDup(s: seq<nat>, t: nat)
    requires NoDup(s)
    ensures NoDup(Without(s, t))
  {
    if s != [] {
      var tail := s[1..];
      assert forall i :: 0 <= i < |tail| ==> tail[i] == s[i + 1];
      if s[0] != t {
        WithoutNoDup(tail, t);
        WithoutIn(tail, t, s[0]);
        var r := Without(tail, t);
        assert s[0] !in r;
        assert forall i :: 0 <= i < |r| ==> r[i] in r;
      }
    }
  }

  lemma WithoutMembers(s: seq<nat>, t: nat)
    requires NoDup(s)
    ensures NoDup(Without(s, t))
    ensures forall x :: x in Without(s, t) <==> x in s && x != t
  {
    hide NoDup, Without;
    WithoutNoDup(s, t);
    forall x ensures x in Without(s, t) <==> x in s && x != t {
      WithoutIn(s, t, x);
    }
  }

  // The others keep their order.
  lemma {:induction false} WithoutBetween(a: seq<nat>, t: nat, b: seq<nat>)
    requires t !in a
    ensures Without(a + [t] + b, t) == a + b
  {
    if a == [] {
      assert a + [t] + b == [t] + b && a + b == b;
    } else {
      var s := a + [t] + b;
      assert s[0] == a[0] && s[1..] == a[1..] + [t] + b;
      WithoutBetween(a[1..], t, b);
      assert a + b == [a[0]] + (a[1..] + b);
    }
  }

  lemma {:induction false} WithoutStranger(s: seq<nat>, t: nat)
    requires t !in s
    ensures Without(s, t) == s
  {
    if s != [] {
      WithoutStranger(s[1..], t);
      assert s == [s[0]] + s[1..];
    }
  }

  lemma WithoutFirst(s: seq<nat>)
    requires s != []
    ensures Without(s, s[0]) == s[1..]
  {}

  lemma WithoutSecond(t: nat, s: seq<nat>)
    requires s != [] && s[0] != t
    ensures Without([t] + s, s[0]) == [t] + s[1..]
  {
    assert ([t] + s)[1..] == s;
    WithoutFirst(s);
  }

  lemma HasFirst(s: seq<nat>)
    requires s != []
    ensures s[0] in s
  {}

  lemma OnlyMember(s: seq<nat>, t: nat)
    requires NoDup(s) && s != [] && forall i :: 0 <= i < |s| ==> s[i] == t
    ensures s == [t]
  {
    if |s| > 1 {
      Differ(s, 0, 1);
    }
  }

  lemma Differ(s: seq<nat>, i: nat, j: nat)
    requires NoDup(s) && i < j < |s|
    ensures s[i] != s[j]
  {}
}
