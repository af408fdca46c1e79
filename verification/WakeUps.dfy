/** One side of a message queue: the threads waiting for stock (messages for
    receivers, free nodes for senders), and those that have been woken to fetch
    it but have not looked yet. */
module WakeUps {
  import opened Bytes
  import opened Lists
  import opened Scheduling
  import opened WaitLists

  datatype Side = Side(waiting: seq<Tid>, woken: set<Tid>)

  // No lost wake-up: while somebody waits, every unit of stock has a woken thread
  // on its way, and nothing will turn that thread back before it looks.
  ghost predicate SideOk(threads: map<Tid, Thread>, side: Side, stock: nat) {
    && Waiting(threads, side.waiting)
    && (forall t :: t in side.waiting ==> t in threads && threads[t].error == EOK)
    && (forall t :: t in side.woken ==> t in threads && threads[t].error == EOK && threads[t].stat != Suspended)
    && (side.waiting != [] ==> stock <= |side.woken|)
  }

  ghost predicate On(side: Side, t: Tid) {
    t in side.waiting || t in side.woken
  }

  ghost predicate Apart(a: Side, b: Side) {
    forall t :: !(On(a, t) && On(b, t))
  }

  // Stock has arrived: the first waiter, if any, is woken.
  function Served(side: Side): Side {
    if side.waiting == [] then side else Side(side.waiting[1..], side.woken + {side.waiting[0]})
  }

  // Thread t has looked.
  function Looked(side: Side, t: Tid): Side {
    side.(woken := side.woken - {t})
  }

  lemma ServedOn(side: Side, t: Tid)
    ensures On(Served(side), t) <==> On(side, t)
  {
    if side.waiting != [] {
      assert side.waiting == [side.waiting[0]] + side.waiting[1..];
    }
  }

  lemma ServedApart(a: Side, b: Side)
    requires Apart(a, b)
    ensures Apart(Served(a), b)
  {
    forall t ensures !(On(Served(a), t) && On(b, t)) {
      ServedOn(a, t);
      assert !(On(a, t) && On(b, t));
    }
  }

  // Whatever wakes none of these threads and sets no error of theirs.
  lemma SideFrame(before: map<Tid, Thread>, after: map<Tid, Thread>, side: Side, stock: nat)
    requires SideOk(before, side, stock)
    requires forall t :: t in before && On(side, t) ==> t in after && after[t].error == before[t].error && (after[t].stat == Suspended <==> before[t].stat == Suspended)
    ensures SideOk(after, side, stock)
  {
    hide NoDup;
    forall t | t in side.waiting ensures t in after && after[t].stat == Suspended && after[t].error == EOK {
      assert On(side, t);
    }
    forall t | t in side.woken ensures t in after && after[t].stat != Suspended && after[t].error == EOK {
      assert On(side, t);
    }
  }

  lemma SideLess(threads: map<Tid, Thread>, side: Side, stock: nat, less: nat)
    requires SideOk(threads, side, stock) && less <= stock
    ensures SideOk(threads, side, less)
  {}

  // One unit arrives and the first waiter is woken for it.
  lemma ServeOne(threads: map<Tid, Thread>, side: Side, stock: nat, stat: Stat)
    requires SideOk(threads, side, stock) && side.waiting != [] && stat != Suspended
    ensures var t := side.waiting[0];
            t in threads && SideOk(threads[t := threads[t].(stat := stat)], Served(side), stock + 1)
  {
    var t := side.waiting[0];
    FirstLeaves(threads, side.waiting, threads[t].(stat := stat));
    assert t in side.waiting && t !in side.woken;
    assert forall x :: x in side.waiting[1..] ==> x in side.waiting;
    hide NoDup, Sorted;
  }

  lemma ServeNobody(threads: map<Tid, Thread>, side: Side, stock: nat)
    requires SideOk(threads, side, stock) && side.waiting == []
    ensures SideOk(threads, Served(side), stock + 1)
  {}

  // A thread, woken for it or not, takes one unit.
  lemma LookTakes(threads: map<Tid, Thread>, side: Side, stock: nat, t: Tid)
    requires SideOk(threads, side, stock) && stock > 0
    ensures SideOk(threads, Looked(side, t), stock - 1)
  {
    if t in side.woken {
      assert |side.woken - {t}| == |side.woken| - 1;
    } else {
      assert side.woken - {t} == side.woken;
    }
  }

  // A thread finds nothing and leaves.
  lemma LookFails(threads: map<Tid, Thread>, side: Side, t: Tid)
    requires SideOk(threads, side, 0)
    ensures SideOk(threads, Looked(side, t), 0)
  {}

  // A thread finds nothing and joins the waiters.
  lemma Rejoins(threads: map<Tid, Thread>, side: Side, t: Tid, w: seq<Tid>)
    requires SideOk(threads, side, 0) && t in threads && t !in side.woken && threads[t].error == EOK
    requires Waiting(threads[t := threads[t].(stat := Suspended)], w) && forall x :: x in w <==> x == t || x in side.waiting
    ensures SideOk(threads[t := threads[t].(stat := Suspended)], side.(waiting := w), 0)
  {
    hide NoDup;
  }

  // A waiter leaves for a reason of its own.
  lemma WaiterLeaves(threads: map<Tid, Thread>, side: Side, stock: nat, t: Tid, x: Thread, w: seq<Tid>)
    requires SideOk(threads, side, stock) && t in side.waiting
    requires Waiting(threads[t := x], w) && forall y :: y in w <==> y in side.waiting && y != t
    ensures SideOk(threads[t := x], side.(waiting := w), stock)
  {
    hide NoDup;
    if w != [] {
      assert w[0] in w;
    }
  }

  // Everybody has been sent away with an error: then any stock will do.
  lemma AllLeave(before: map<Tid, Thread>, after: map<Tid, Thread>, side: Side, stock: nat, stock': nat, current: Option<Tid>)
    requires SideOk(before, side, stock) && Expelled(before, after, side.waiting, [], current)
    ensures SideOk(after, side.(waiting := []), stock')
  {
    assert forall t :: t in side.woken ==> t !in side.waiting;
  }

  // The other side does not notice.
  lemma OthersLeave(before: map<Tid, Thread>, after: map<Tid, Thread>, side: Side, other: Side, stock: nat, current: Option<Tid>)
    requires SideOk(before, side, stock) && Apart(side, other) && Expelled(before, after, other.waiting, [], current)
    ensures SideOk(after, side, stock)
  {
    forall t | t in before && On(side, t) ensures t in after && after[t] == before[t] {
      assert !On(other, t);
    }
    hide NoDup;
    SideFrame(before, after, side, stock);
  }

  // The promise of the invariant: a waiter with stock in reach has somebody ahead
  // of it who is able to run and will look.
  lemma SomebodyLooks(threads: map<Tid, Thread>, side: Side, stock: nat)
    requires SideOk(threads, side, stock) && side.waiting != [] && stock > 0
    ensures exists t :: t in side.woken && t in threads && threads[t].stat != Suspended && threads[t].error == EOK
  {
    assert side.woken != {};
    var t :| t in side.woken;
  }

  // A thread on neither side may do as it likes.
  lemma Bystander(threads: map<Tid, Thread>, side: Side, stock: nat, t: Tid, x: Thread)
    requires SideOk(threads, side, stock) && !On(side, t)
    ensures SideOk(threads[t := x], side, stock)
  {
    hide NoDup;
    SideFrame(threads, threads[t := x], side, stock);
  }

  lemma JoinApart(a: Side, b: Side, t: Tid, w: seq<Tid>)
    requires Apart(a, b) && !On(b, t) && forall x :: x in w <==> x == t || x in a.waiting
    ensures Apart(a.(waiting := w), b)
  {
    forall x ensures !(On(a.(waiting := w), x) && On(b, x)) {
      assert !(On(a, x) && On(b, x));
    }
  }

  lemma FewerApart(a: Side, b: Side, a': Side)
    requires Apart(a, b) && forall x :: On(a', x) ==> On(a, x)
    ensures Apart(a', b)
  {
    forall x ensures !(On(a', x) && On(b, x)) {
      assert !(On(a, x) && On(b, x));
    }
  }

  lemma ApartSymmetric(a: Side, b: Side)
    requires Apart(a, b)
    ensures Apart(b, a)
  {}
}
