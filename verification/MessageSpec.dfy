/** What a message queue is for: a double-ended queue of whole messages. Histories
    of it, and what they promise to those who send and receive. */
module MessageSpecs {
  import opened Bytes
  import opened MessageNodes
  import opened MessageQueues

  // Messages on the queue, written but not yet put there, and taken off but not
  // yet let go of; and what each node was last made to hold.
  datatype Spec = Spec(contents: seq<Body>, pending: map<Node, Body>, held: map<Node, Body>, stored: seq<Body>)

  datatype Act = Wrote(node: Node, data: seq<byte>) | Back(node: Node) | Front(node: Node)
    | Took(node: Node) | Read(node: Node, size: nat, data: seq<byte>) | Gave(node: Node) | Dropped

  predicate Legal(a: Spec, act: Act) {
    match act
    case Wrote(n, data) => n < |a.stored| && |data| <= |a.stored[n]| && n !in a.held
    case Back(n) => n in a.pending
    case Front(n) => n in a.pending
    case Took(n) => a.contents != [] && n < |a.stored| && a.stored[n] == a.contents[0] && n !in a.pending && n !in a.held
    case Read(n, size, data) => n in a.held && data == Copied(a.held[n], size)
    case Gave(n) => n in a.held
    case Dropped => true
  }

  function Next(a: Spec, act: Act): Spec
    requires Legal(a, act)
  {
    match act
    case Wrote(n, data) => a.(pending := a.pending[n := Filled(a.stored[n], data)], stored := a.stored[n := Filled(a.stored[n], data)])
    case Back(n) => a.(contents := a.contents + [a.pending[n]], pending := a.pending - {n})
    case Front(n) => a.(contents := [a.pending[n]] + a.contents, pending := a.pending - {n})
    case Took(n) => a.(contents := a.contents[1..], held := a.held[n := a.contents[0]])
    case Read(_, _, _) => a
    case Gave(n) => a.(held := a.held - {n})
    case Dropped => a.(contents := [])
  }

  // Where a history leads, if every act in it is legal.
  ghost function Replay(a: Spec, log: seq<Act>): Option<Spec> {
    if log == [] then Some(a)
    else
      var b := Replay(a, log[..|log| - 1]);
      if b.Some? && Legal(b.value, log[|log| - 1]) then Some(Next(b.value, log[|log| - 1])) else None
  }

  lemma ReplayMore(a: Spec, log: seq<Act>, b: Spec, act: Act)
    requires Replay(a, log) == Some(b) && Legal(b, act)
    ensures Replay(a, log + [act]) == Some(Next(b, act))
  {
    assert (log + [act])[..|log|] == log;
  }

  // The messages put at the back, and the messages taken, in a history.
  ghost function SentIn(a: Spec, log: seq<Act>): seq<Body>
    requires Replay(a, log).Some?
  {
    if log == [] then []
    else
      var init, last := log[..|log| - 1], log[|log| - 1];
      SentIn(a, init) + if last.Back? then [Replay(a, init).value.pending[last.node]] else []
  }

  ghost function TakenIn(a: Spec, log: seq<Act>): seq<Body>
    requires Replay(a, log).Some?
  {
    if log == [] then []
    else
      var init, last := log[..|log| - 1], log[|log| - 1];
      TakenIn(a, init) + if last.Took? then [Replay(a, init).value.contents[0]] else []
  }

  // Without urgent messages and resets, messages are taken in the order they were
  // sent, and none is lost or made up.
  lemma {:induction false} FirstInFirstOut(a: Spec, log: seq<Act>)
    requires Replay(a, log).Some?
    requires forall i :: 0 <= i < |log| ==> !log[i].Front? && !log[i].Dropped?
    ensures TakenIn(a, log) + Replay(a, log).value.contents == a.contents + SentIn(a, log)
  {
    if log != [] {
      var init, last := log[..|log| - 1], log[|log| - 1];
      assert forall i :: 0 <= i < |init| ==> init[i] == log[i];
      FirstInFirstOut(a, init);
      var b := Replay(a, init).value;
      var put := if last.Back? then [b.pending[last.node]] else [];
      var got := if last.Took? then [b.contents[0]] else [];
      OneInOneOut(b, last, put, got);
      hide Replay, Next;
      Regroup(TakenIn(a, init), b.contents, a.contents, SentIn(a, init), put, got, Next(b, last).contents);
    }
  }

  lemma OneInOneOut(b: Spec, act: Act, put: seq<Body>, got: seq<Body>)
    requires Legal(b, act) && !act.Front? && !act.Dropped?
    requires put == if act.Back? then [b.pending[act.node]] else []
    requires got == if act.Took? then [b.contents[0]] else []
    ensures got + Next(b, act).contents == b.contents + put
  {}

  lemma Regroup<T>(t: seq<T>, c: seq<T>, a: seq<T>, s: seq<T>, put: seq<T>, got: seq<T>, rest: seq<T>)
    requires t + c == a + s && got + rest == c + put
    ensures (t + got) + rest == a + (s + put)
  {
    assert (t + got) + rest == t + (got + rest) == (t + c) + put == a + (s + put);
  }

  lemma ReplayLess(a: Spec, log: seq<Act>, act: Act)
    requires Replay(a, log + [act]).Some?
    ensures Replay(a, log).Some? && Legal(Replay(a, log).value, act)
    ensures Replay(a, log + [act]) == Some(Next(Replay(a, log).value, act))
  {
    assert (log + [act])[..|log|] == log;
  }

  // Acts that neither take from the queue nor put in front of it.
  predicate LeavesTheFront(act: Act) {
    act.Wrote? || act.Back? || act.Read? || act.Gave?
  }

  lemma {:induction false} FrontStays(a: Spec, n: Node, log: seq<Act>)
    requires n in a.pending && Replay(a, [Front(n)] + log).Some?
    requires forall i :: 0 <= i < |log| ==> LeavesTheFront(log[i])
    ensures var b := Replay(a, [Front(n)] + log).value;
            b.contents != [] && b.contents[0] == a.pending[n]
  {
    if log == [] {
      ReplayMore(a, [], a, Front(n));
      assert [] + [Front(n)] == [Front(n)] + log;
    } else {
      var init, last := log[..|log| - 1], log[|log| - 1];
      assert [Front(n)] + log == ([Front(n)] + init) + [last];
      ReplayLess(a, [Front(n)] + init, last);
      FrontStays(a, n, init);
      hide Replay;
    }
  }

  // The message of an urgent send is the next to be taken, whatever was on the
  // queue and whatever is written, sent the ordinary way, read or let go of in
  // between.
  lemma UrgentComesNext(a: Spec, n: Node, log: seq<Act>, m: Node)
    requires n in a.pending && Replay(a, [Front(n)] + log + [Took(m)]).Some?
    requires forall i :: 0 <= i < |log| ==> LeavesTheFront(log[i])
    ensures var b := Replay(a, [Front(n)] + log + [Took(m)]).value;
            m in b.held && b.held[m] == a.pending[n]
  {
    ReplayLess(a, [Front(n)] + log, Took(m));
    FrontStays(a, n, log);
    hide Replay;
  }

  // A receiver gets what was sent, as far as its buffer and the message go; it
  // gets nothing else exactly if its buffer is no longer than the message or the
  // message fills the node.
  lemma ReadsWhatWasSent(was: Body, data: seq<byte>, size: nat)
    requires |data| <= |was|
    ensures size <= |data| ==> Copied(Filled(was, data), size) == data[..size]
    ensures Copied(Filled(was, data), size) <= data <==> size <= |data| || |data| == |was|
  {}

  // A node keeps what it holds until it is written again.
  lemma {:induction false} StoredStays(a: Spec, log: seq<Act>, n: Node)
    requires Replay(a, log).Some? && n < |a.stored|
    requires forall i :: 0 <= i < |log| ==> !(log[i].Wrote? && log[i].node == n)
    ensures var b := Replay(a, log).value; n < |b.stored| && b.stored[n] == a.stored[n]
  {
    if log != [] {
      var init := log[..|log| - 1];
      assert log == init + [log[|log| - 1]];
      ReplayLess(a, init, log[|log| - 1]);
      StoredStays(a, init, n);
      hide Replay;
    }
  }

  // Whatever happens between two messages written to the same node, the bytes of
  // the first that the second does not overwrite go out with the second.
  lemma OlderBytes(a: Spec, n: Node, first: seq<byte>, log: seq<Act>, second: seq<byte>)
    requires Replay(a, [Wrote(n, first)] + log + [Wrote(n, second)]).Some? && |second| <= |first|
    requires forall i :: 0 <= i < |log| ==> !(log[i].Wrote? && log[i].node == n)
    ensures var b := Replay(a, [Wrote(n, first)] + log + [Wrote(n, second)]).value;
            n in b.pending && second + first[|second|..] <= b.pending[n]
  {
    var one := [Wrote(n, first)];
    ReplayLess(a, one + log, Wrote(n, second));
    ReplayPrefix(a, one, log);
    assert [] + one == one;
    ReplayLess(a, [], Wrote(n, first));
    var b := Replay(a, one).value;
    ReplayJoin(a, one, log);
    StoredStays(b, log, n);
    hide Replay;
    var was := a.stored[n];
    assert b.stored[n] == first + was[|first|..];
    assert (first + was[|first|..])[|second|..] == first[|second|..] + was[|first|..];
    assert second + (first[|second|..] + was[|first|..]) == (second + first[|second|..]) + was[|first|..];
  }

  lemma {:induction false} ReplayPrefix(a: Spec, log: seq<Act>, more: seq<Act>)
    requires Replay(a, log + more).Some?
    ensures Replay(a, log).Some?
  {
    if more == [] {
      assert log + more == log;
    } else {
      var init := more[..|more| - 1];
      assert log + more == (log + init) + [more[|more| - 1]];
      ReplayLess(a, log + init, more[|more| - 1]);
      ReplayPrefix(a, log, init);
    }
  }

  lemma {:induction false} ReplayJoin(a: Spec, log: seq<Act>, more: seq<Act>)
    requires Replay(a, log + more).Some? && Replay(a, log).Some?
    ensures Replay(Replay(a, log).value, more) == Replay(a, log + more)
  {
    if more == [] {
      assert log + more == log;
    } else {
      var init, last := more[..|more| - 1], more[|more| - 1];
      assert log + more == (log + init) + [last] && more == init + [last];
      ReplayLess(a, log + init, last);
      ReplayJoin(a, log, init);
      ReplayMore(Replay(a, log).value, init, Replay(a, log + init).value, last);
      hide Replay;
    }
  }

  // Through an empty queue: written, sent and taken.
  function Through(n: Node, data: seq<byte>): seq<Act> {
    [Wrote(n, data), Back(n), Took(n)]
  }

  lemma GoesThrough(a: Spec, n: Node, data: seq<byte>)
    requires a.contents == [] && n < |a.stored| && n !in a.held && n !in a.pending && |data| <= |a.stored[n]|
    ensures var body := Filled(a.stored[n], data);
            Replay(a, Through(n, data)) == Some(a.(held := a.held[n := body], stored := a.stored[n := body]))
  {
    var body := Filled(a.stored[n], data);
    var a1, a2 := Next(a, Wrote(n, data)), a.(contents := [body], stored := a.stored[n := body]);
    assert a1.pending - {n} == a.pending;
    assert Next(a1, Back(n)) == a2;
    assert Next(a2, Took(n)) == a.(held := a.held[n := body], stored := a.stored[n := body]);
    hide Next, Filled;
    ReplayNothing(a);
    ReplayMore(a, [], a, Wrote(n, data));
    ReplayMore(a, [Wrote(n, data)], a1, Back(n));
    ReplayMore(a, [Wrote(n, data), Back(n)], a2, Took(n));
    assert [] + [Wrote(n, data)] == [Wrote(n, data)];
    assert [Wrote(n, data)] + [Back(n)] == [Wrote(n, data), Back(n)];
    assert [Wrote(n, data), Back(n)] + [Took(n)] == Through(n, data);
  }

  lemma {:induction false} ReplayThen(a: Spec, log: seq<Act>, b: Spec, more: seq<Act>)
    requires Replay(a, log) == Some(b) && Replay(b, more).Some?
    ensures Replay(a, log + more) == Replay(b, more)
  {
    if more == [] {
      assert log + more == log;
    } else {
      var init, last := more[..|more| - 1], more[|more| - 1];
      assert log + more == (log + init) + [last] && more == init + [last];
      ReplayLess(b, init, last);
      ReplayThen(a, log, b, init);
      ReplayMore(a, log + init, Replay(b, init).value, last);
      hide Replay;
    }
  }

  // A history of two messages through one node, the second read into a buffer as
  // long as the first: what is read is the second with the rest of the first
  // behind it.
  lemma LeakHappens(a: Spec, n: Node, first: seq<byte>, second: seq<byte>)
    requires a.contents == [] && n < |a.stored| && n !in a.held && n !in a.pending
    requires |second| < |first| <= |a.stored[n]|
    ensures var got := second + first[|second|..];
            Replay(a, Through(n, first) + [Gave(n)] + Through(n, second) + [Read(n, |first|, got)]).Some?
  {
    var body, got := Filled(a.stored[n], first), second + first[|second|..];
    GoesThrough(a, n, first);
    var a1, b := a.(held := a.held[n := body], stored := a.stored[n := body]), a.(stored := a.stored[n := body]);
    assert a1.held - {n} == a.held;
    ReplayMore(a, Through(n, first), a1, Gave(n));
    GoesThrough(b, n, second);
    LeftOver(a.stored[n], first, second);
    hide Replay, Filled, Through;
    ReplayThen(a, Through(n, first) + [Gave(n)], b, Through(n, second));
    ReplayMore(a, Through(n, first) + [Gave(n)] + Through(n, second), Replay(b, Through(n, second)).value, Read(n, |first|, got));
  }

  lemma LeftOver(was: Body, first: seq<byte>, second: seq<byte>)
    requires |second| < |first| <= |was|
    ensures Copied(Filled(Filled(was, first), second), |first|) == second + first[|second|..]
  {
    var rest := was[|first|..];
    assert (first + rest)[|second|..] == first[|second|..] + rest;
    assert second + (first[|second|..] + rest) == (second + first[|second|..]) + rest;
  }

  lemma ReplayNothing(a: Spec)
    ensures Replay(a, []) == Some(a)
  {}
}
