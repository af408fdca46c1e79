/** Any interleaving of senders, receivers, interrupts and timers on one message
    queue does what a queue of whole messages could have done. */
module MessageRuns {
  import opened Bytes
  import opened Lists
  import opened Scheduling
  import opened WaitLists
  import opened MessageNodes
  import opened WakeUps
  import opened MessageQueues
  import opened MessageSpecs

  // ---------- the queue in memory stands for it ----------

  ghost predicate InPool(ns: Nodes, max: nat) {
    && (forall i :: 0 <= i < |ns.queue| ==> ns.queue[i] < max)
    && (forall n :: n in ns.sending ==> n < max)
    && (forall n :: n in ns.receiving ==> n < max)
  }

  ghost predicate StandsFor(ns: Nodes, bodies: seq<Body>, a: Spec) {
    && InPool(ns, |bodies|) && a.stored == bodies
    && a.contents == Contents(ns.queue, bodies)
    && (forall n :: n in a.pending <==> n in ns.sending && ns.sending[n] != Blank)
    && (forall n :: n in a.pending ==> a.pending[n] == bodies[n])
    && a.held.Keys == ns.receiving
    && (forall n :: n in a.held ==> a.held[n] == bodies[n])
  }

  lemma {:induction false} ContentsFrame(queue: seq<Node>, bodies: seq<Body>, n: Node, b: Body)
    requires (forall i :: 0 <= i < |queue| ==> queue[i] < |bodies| && queue[i] != n) && n < |bodies|
    ensures Contents(queue, bodies[n := b]) == Contents(queue, bodies)
  {
    if queue != [] {
      ContentsFrame(queue[1..], bodies, n, b);
    }
  }

  lemma {:induction false} ContentsSnoc(queue: seq<Node>, bodies: seq<Body>, n: Node)
    requires (forall i :: 0 <= i < |queue| ==> queue[i] < |bodies|) && n < |bodies|
    ensures var q := queue + [n];
            (forall i :: 0 <= i < |q| ==> q[i] < |bodies|) && Contents(q, bodies) == Contents(queue, bodies) + [bodies[n]]
  {
    var q := queue + [n];
    if queue != [] {
      assert q[1..] == queue[1..] + [n];
      ContentsSnoc(queue[1..], bodies, n);
    }
  }

  lemma TakenStandsFor(ns: Nodes, bodies: seq<Body>, a: Spec)
    requires StandsFor(ns, bodies, a) && Partition(ns, |bodies|) && ns.free != []
    ensures StandsFor(MessageNodes.Taken(ns), bodies, a)
  {
    OnePlace(ns, |bodies|, ns.free[0]);
    hide Partition, Contents;
  }

  lemma FilledStandsFor(ns: Nodes, bodies: seq<Body>, a: Spec, n: Node, stage: Stage, data: seq<byte>)
    requires StandsFor(ns, bodies, a) && Partition(ns, |bodies|) && n in ns.sending && stage != Blank
    requires |data| <= |bodies[n]|
    ensures Legal(a, Wrote(n, data)) && a.stored[n] == bodies[n]
    ensures StandsFor(ns.(sending := ns.sending[n := stage]), bodies[n := Filled(bodies[n], data)], Next(a, Wrote(n, data)))
  {
    OnePlace(ns, |bodies|, n);
    ContentsFrame(ns.queue, bodies, n, Filled(bodies[n], data));
    hide Partition, Contents, Filled;
  }

  lemma LinkedStandsFor(ns: Nodes, bodies: seq<Body>, a: Spec, n: Node)
    requires StandsFor(ns, bodies, a) && n in ns.sending && ns.sending[n] != Blank
    ensures n in a.pending
    ensures StandsFor(Appended(ns, n), bodies, Next(a, Back(n)))
    ensures StandsFor(Prepended(ns, n), bodies, Next(a, Front(n)))
  {
    ContentsSnoc(ns.queue, bodies, n);
    assert ([n] + ns.queue)[1..] == ns.queue;
  }

  lemma PoppedStandsFor(ns: Nodes, bodies: seq<Body>, a: Spec)
    requires StandsFor(ns, bodies, a) && Partition(ns, |bodies|) && ns.queue != []
    ensures Legal(a, Took(ns.queue[0])) && StandsFor(Popped(ns), bodies, Next(a, Took(ns.queue[0])))
  {
    OnePlace(ns, |bodies|, ns.queue[0]);
    hide Partition;
  }

  lemma ReturnedStandsFor(ns: Nodes, bodies: seq<Body>, a: Spec, n: Node)
    requires StandsFor(ns, bodies, a) && n in ns.receiving
    ensures n in a.held && StandsFor(Returned(ns, n), bodies, Next(a, Gave(n)))
  {
    hide Contents;
  }

  lemma ReadStandsFor(ns: Nodes, bodies: seq<Body>, a: Spec, n: Node)
    requires StandsFor(ns, bodies, a) && n in ns.receiving && n < |bodies|
    ensures n in a.held && a.held[n] == bodies[n]
  {}

  lemma EmptiedStandsFor(ns: Nodes, bodies: seq<Body>, a: Spec, ns': Nodes)
    requires StandsFor(ns, bodies, a) && ns'.queue == [] && ns'.sending == ns.sending && ns'.receiving == ns.receiving
    ensures StandsFor(ns', bodies, Next(a, Dropped))
  {}

  lemma PoolFacts(l: Links, ns: Nodes, bodies: seq<Body>, max: nat, size: nat)
    requires PoolOk(l, ns, max) && Sized(bodies, max, size)
    ensures |bodies| == max && Partition(ns, |bodies|)
  {}

  // ---------- calls that nothing interrupts ----------

  datatype Reply = Done | TooLong | Full | Empty | Waits

  // Where the queue stands when a call returns, or waits.
  ghost predicate NowStandsFor(mq: MessageQueue, a: Spec)
    reads mq
  {
    StandsFor(mq.nodes, mq.bodies, a)
  }

  // The queue after a whole send through node n, or a whole receive.
  ghost function SentView(v: View, n: Node, data: seq<byte>, urgent: bool): View
    requires n < |v.bodies| && |data| <= |v.bodies[n]|
  {
    var staged := v.nodes.(sending := v.nodes.sending[n := if urgent then ForFront else ForBack]);
    v.(nodes := if urgent then Prepended(staged, n) else Appended(staged, n), bodies := v.bodies[n := Filled(v.bodies[n], data)],
       receivers := Served(v.receivers))
  }

  ghost function ReceivedView(v: View): View
    requires v.nodes.queue != []
  {
    v.(nodes := Returned(Popped(v.nodes), v.nodes.queue[0]), senders := Served(v.senders))
  }

  // The copy and the link of a send, and the rescheduling.
  method Deliver(mq: MessageQueue, n: Node, data: seq<byte>, urgent: bool, ghost a: Spec) returns (ghost b: Spec)
    requires mq.Valid() && mq.k.current.Some? && NowStandsFor(mq, a)
    requires n in mq.nodes.sending && 0 < |data| <= mq.msgSize
    modifies mq, mq.k
    ensures mq.Valid() && NowStandsFor(mq, b)
    ensures n < |a.stored| && |data| <= |a.stored[n]|
    ensures var m := Filled(a.stored[n], data);
            b.contents == (if urgent then [m] + a.contents else a.contents + [m]) && b.stored == a.stored[n := m]
    ensures n < |old(mq.bodies)| && |data| <= |old(mq.bodies)[n]| && mq.Now() == SentView(old(mq.Now()), n, data, urgent)
    ensures WokeAndChose(old(mq.Kern()), old(mq.receivers), mq.Kern())
  {
    hide Coherent, SidesOk, PoolOk, Sized, StandsFor, Partition, Filled, Rescheduled, Resumed;
    PoolFacts(Links(mq.next, mq.head, mq.tail, mq.free), mq.nodes, mq.bodies, mq.maxMsgs, mq.msgSize);
    var stage := if urgent then ForFront else ForBack;
    ghost var ns, bodies := mq.nodes, mq.bodies;
    mq.Fill(n, data, stage);
    FilledStandsFor(ns, bodies, a, n, stage, data);
    b := Next(a, Wrote(n, data));
    LinkedStandsFor(mq.nodes, mq.bodies, b, n);
    var need;
    if urgent {
      need := mq.LinkFront(n);
      b := Next(b, Front(n));
    } else {
      need := mq.LinkBack(n);
      b := Next(b, Back(n));
    }
    if need {
      mq.Reschedule();
    }
  }

  // rt_mq_send_wait: the message is refused, the thread waits, or the message is
  // at the back of the queue.
  method SendWait(mq: MessageQueue, t: Tid, data: seq<byte>, timeout: int, ghost a: Spec) returns (r: Reply, ghost b: Spec)
    requires mq.Valid() && mq.Runs(t) && t !in mq.wokenReceivers && t !in mq.wokenSenders && NowStandsFor(mq, a)
    requires data != []
    modifies mq, mq.k
    ensures mq.Valid() && NowStandsFor(mq, b)
    ensures r == if |data| > mq.msgSize then TooLong else if old(mq.nodes).free != [] then Done else if timeout == 0 then Full else Waits
    ensures r != Done ==> b == a
    ensures r == Done ==>
              var n := old(mq.nodes).free[0];
              && n < |a.stored| && |data| <= |a.stored[n]| && b.contents == a.contents + [Filled(a.stored[n], data)]
              && b.stored == a.stored[n := Filled(a.stored[n], data)]
              && n < |old(mq.bodies)| && |data| <= |old(mq.bodies)[n]|
              && mq.Now() == SentView(old(mq.Now()).(nodes := Taken(old(mq.nodes))), n, data, false)
              && WokeAndChose(old(mq.Kern()), old(mq.receivers), mq.Kern())
    ensures r == TooLong || r == Full ==> mq.Now() == old(mq.Now()) && mq.Kern() == old(mq.Kern())
    ensures r == Waits ==> t in old(mq.k.threads) && WentToSleep(old(mq.Kern()), t, old(mq.k.threads)[t].(error := EOK), mq.Kern())
  {
    hide Coherent, SidesOk, PoolOk, Sized, StandsFor, Partition, WokeAndChose, Queued, SentView, SuspendedBy, Rescheduled;
    assert mq.wokenSenders - {t} == mq.wokenSenders;
    b := a;
    if |data| > mq.msgSize {
      return TooLong, a;
    }
    PoolFacts(Links(mq.next, mq.head, mq.tail, mq.free), mq.nodes, mq.bodies, mq.maxMsgs, mq.msgSize);
    ghost var ns := mq.nodes;
    var try := mq.SendTry(t, false, timeout);
    match try {
      case Got(n) =>
        TakenStandsFor(ns, mq.bodies, a);
        b := Deliver(mq, n, data, false, a);
        r := Done;
      case Refused => r := Full;
      case Blocked =>
        mq.Reschedule();
        r := Waits;
    }
  }

  // rt_mq_urgent.
  method Urgent(mq: MessageQueue, data: seq<byte>, ghost a: Spec) returns (r: Reply, ghost b: Spec)
    requires mq.Valid() && mq.k.current.Some? && NowStandsFor(mq, a) && data != []
    modifies mq, mq.k
    ensures mq.Valid() && NowStandsFor(mq, b)
    ensures r == if |data| > mq.msgSize then TooLong else if old(mq.nodes).free != [] then Done else Full
    ensures r != Done ==> b == a
    ensures r == Done ==>
              var n := old(mq.nodes).free[0];
              && n < |a.stored| && |data| <= |a.stored[n]| && b.contents == [Filled(a.stored[n], data)] + a.contents
              && n < |old(mq.bodies)| && |data| <= |old(mq.bodies)[n]|
              && mq.Now() == SentView(old(mq.Now()).(nodes := Taken(old(mq.nodes))), n, data, true)
              && WokeAndChose(old(mq.Kern()), old(mq.receivers), mq.Kern())
    ensures r != Done ==> mq.Now() == old(mq.Now()) && mq.Kern() == old(mq.Kern())
  {
    hide Coherent, SidesOk, PoolOk, Sized, StandsFor, Partition, WokeAndChose, SentView;
    b := a;
    if |data| > mq.msgSize {
      return TooLong, a;
    }
    PoolFacts(Links(mq.next, mq.head, mq.tail, mq.free), mq.nodes, mq.bodies, mq.maxMsgs, mq.msgSize);
    ghost var ns := mq.nodes;
    var n := mq.TakeFree();
    if n == None {
      return Full, a;
    }
    TakenStandsFor(ns, mq.bodies, a);
    b := Deliver(mq, n.value, data, true, a);
    r := Done;
  }

  // rt_mq_recv: nothing there, or the first message is off the queue and copied.
  method Receive(mq: MessageQueue, t: Tid, size: nat, timeout: int, ghost a: Spec) returns (r: Reply, data: seq<byte>, ghost b: Spec)
    requires mq.Valid() && mq.Runs(t) && t !in mq.wokenReceivers && t !in mq.wokenSenders && NowStandsFor(mq, a)
    requires size > 0
    modifies mq, mq.k
    ensures mq.Valid() && NowStandsFor(mq, b)
    ensures r == if a.contents != [] then Done else if timeout == 0 then Empty else Waits
    ensures r != Done ==> b == a && data == []
    ensures r == Done ==> b.contents == a.contents[1..] && data == Copied(a.contents[0], if size > mq.msgSize then mq.msgSize else size)
    ensures r == Done ==>
              && b.stored == a.stored && old(mq.nodes).queue != [] && mq.Now() == ReceivedView(old(mq.Now()))
              && WokeAndChose(old(mq.Kern()), old(mq.senders), mq.Kern())
    ensures r == Empty ==> mq.Now() == old(mq.Now()) && mq.Kern() == old(mq.Kern())
    ensures r == Waits ==> t in old(mq.k.threads) && WentToSleep(old(mq.Kern()), t, old(mq.k.threads)[t].(error := EOK), mq.Kern())
  {
    hide Coherent, SidesOk, PoolOk, Sized, StandsFor, Partition, Queued, SuspendedBy, Rescheduled, Resumed;
    assert mq.wokenReceivers - {t} == mq.wokenReceivers;
    data, b := [], a;
    SameLength(mq.nodes, mq.bodies, a);
    PoolFacts(Links(mq.next, mq.head, mq.tail, mq.free), mq.nodes, mq.bodies, mq.maxMsgs, mq.msgSize);
    ghost var ns := mq.nodes;
    var try := mq.RecvTry(t, false, timeout);
    match try {
      case Got(n) =>
        PoppedStandsFor(ns, mq.bodies, a);
        b := Next(a, Took(n));
        data := mq.CopyOut(n, size);
        ReadStandsFor(mq.nodes, mq.bodies, b, n);
        ReturnedStandsFor(mq.nodes, mq.bodies, b, n);
        var need := mq.GiveBack(n);
        b := Next(b, Gave(n));
        if need {
          mq.Reschedule();
        }
        r := Done;
      case Refused => r := Empty;
      case Blocked =>
        mq.Reschedule();
        r := Waits;
    }
  }

  lemma SameLength(ns: Nodes, bodies: seq<Body>, a: Spec)
    requires StandsFor(ns, bodies, a)
    ensures a.contents == [] <==> ns.queue == []
  {}

  // On any queue that is empty with nobody waiting: a message is sent and received,
  // then a shorter one through the same node, and the receiver, whose buffer is as
  // long as the first, gets the second with the rest of the first behind it.
  method ShortAfterLong(mq: MessageQueue, t: Tid, first: seq<byte>, second: seq<byte>, ghost a: Spec) returns (got: seq<byte>)
    requires mq.Valid() && mq.Runs(t) && t !in mq.wokenReceivers && t !in mq.wokenSenders && NowStandsFor(mq, a)
    requires mq.nodes.queue == [] && mq.nodes.free != [] && mq.receivers == mq.senders == []
    requires 0 < |second| < |first| <= mq.msgSize
    modifies mq, mq.k
    ensures mq.Valid() && mq.Runs(t) && got == second + first[|second|..]
  {
    hide Coherent, SidesOk, PoolOk, StandsFor, Filled, Copied;
    SameLength(mq.nodes, mq.bodies, a);
    ghost var n := mq.nodes.free[0];
    ghost var b;
    var r, was;
    r, b := SendWait(mq, t, first, 0, a);
    assert b.contents[0] == Filled(a.stored[n], first);
    r, was, b := Receive(mq, t, |first|, 0, b);
    assert mq.nodes.free[0] == n;
    ghost var c := b;
    r, b := SendWait(mq, t, second, 0, b);
    assert b.contents[0] == Filled(c.stored[n], second);
    r, got, b := Receive(mq, t, |first|, 0, b);
    LeftOver(a.stored[n], first, second);
  }

  // On a new queue whose messages are as long as the first, rounded up.
  method ShortAfterLongOnNewQueue(k: Kernel, flag: Flag, t: Tid, first: seq<byte>, second: seq<byte>) returns (mq: MessageQueue, got: seq<byte>)
    requires k.Valid() && k.current == Some(t) && k.threads[t].stat == Running
    requires 0 < |second| < |first| <= 65532
    modifies k
    ensures fresh(mq) && mq.k == k && mq.Valid() && got == second + first[|second|..]
  {
    hide Coherent, SidesOk, PoolOk, StandsFor;
    KernelBounds(k.Now());
    var size := AlignedSize(|first|);
    RoomForOne(|first|);
    hide AlignedSize, Capacity;
    mq := new MessageQueue(k, flag, |first|, size + NODE_HEADER);
    FreshStandsFor(mq.nodes, mq.bodies);
    got := ShortAfterLong(mq, t, first, second, Spec([], map[], map[], mq.bodies));
  }

  lemma RoomForOne(n: nat)
    requires 0 < n <= 65532
    ensures n <= AlignedSize(n) && Capacity(AlignedSize(n) + NODE_HEADER, AlignedSize(n)) == 1
  {
    var d := AlignedSize(n) + NODE_HEADER;
    assert d / d == 1;
  }

  lemma FreshStandsFor(ns: Nodes, bodies: seq<Body>)
    requires ns.queue == [] && ns.sending == map[] && ns.receiving == {}
    ensures StandsFor(ns, bodies, Spec([], map[], map[], bodies))
  {}

  // ---------- any run ----------

  // What the suspended calls hold in their local variables: the nodes they copy
  // into or out of, and who has been woken and will look again.
  datatype Hands = Hands(sending: map<Node, Stage>, receiving: set<Node>, wokenReceivers: set<Tid>, wokenSenders: set<Tid>)

  ghost function HandsOf(v: View): Hands {
    Hands(v.nodes.sending, v.nodes.receiving, v.receivers.woken, v.senders.woken)
  }

  datatype Event =
    | SendStart(timeout: int) | SendAgain(timeout: int) | SendFromInterrupt
    | FillNode(node: Node, data: seq<byte>, urgent: bool) | Link(node: Node)
    | RecvStart(timeout: int) | RecvAgain(timeout: int)
    | CopyNode(node: Node, size: nat) | ReturnNode(node: Node)
    | ReceiverTimer(t: Tid) | SenderTimer(t: Tid) | ResetCall
    | Other(e: Scheduling.Event)

  datatype Snap = Snap(v: View, c: Config) {
    function Threads(): map<Tid, Thread> { c.s.threads }
    function Current(): Option<Tid> { c.s.current }
  }

  ghost function Shot(mq: MessageQueue): Snap
    reads mq, mq.k
  {
    Snap(mq.Now(), Config(mq.k.Now(), mq.k.lockNest))
  }

  // The running thread can pass through the loop of one side: it is not on its way
  // through the other, and it has been woken on this one exactly if it comes again.
  ghost predicate Passes(a: Snap, own: Side, other: Side, again: bool) {
    && a.Current().Some? && a.Current().value in a.Threads() && a.Threads()[a.Current().value].stat == Running
    && a.Current().value !in other.woken && (again <==> a.Current().value in own.woken)
  }

  // A sender gets a node if there is one; otherwise it is refused or waits.
  ghost predicate SendPass(flag: Flag, a: Snap, again: bool, timeout: int, b: Snap) {
    if !Passes(a, a.v.senders, a.v.receivers, again) then b == a
    else
      var t := a.Current().value;
      var x := a.Threads()[t];
      && b.v.bodies == a.v.bodies && b.v.receivers == a.v.receivers && b.v.senders.woken == a.v.senders.woken - {t}
      && b.c.nest == a.c.nest
      && if a.v.nodes.free != [] then
           b.v.nodes == Taken(a.v.nodes) && b.v.senders.waiting == a.v.senders.waiting && b.c == a.c
         else
           && b.v.nodes == a.v.nodes && (forall y :: y in b.v.senders.waiting <==> (timeout != 0 && y == t) || y in a.v.senders.waiting)
           && if timeout == 0 then
                && b.v.senders.waiting == a.v.senders.waiting
                && b.c.s == if again then WithThread(a.c.s, t, x.(error := EOK)) else a.c.s
              else Queued(flag, a.Threads(), a.v.senders.waiting, t, b.v.senders.waiting) && PutToSleep(a.c.s, t, x.(error := EOK), b.c.s)
  }

  // A receiver gets the first message if there is one; otherwise it is refused or waits.
  ghost predicate RecvPass(flag: Flag, a: Snap, again: bool, timeout: int, acts: seq<Act>, b: Snap) {
    if !Passes(a, a.v.receivers, a.v.senders, again) then b == a && acts == []
    else
      var t := a.Current().value;
      var x := a.Threads()[t];
      && b.v.bodies == a.v.bodies && b.v.senders == a.v.senders && b.v.receivers.woken == a.v.receivers.woken - {t}
      && b.c.nest == a.c.nest
      && if a.v.nodes.queue != [] then
           && acts == [Took(a.v.nodes.queue[0])]
           && b.v.nodes == Popped(a.v.nodes) && b.v.receivers.waiting == a.v.receivers.waiting && b.c == a.c
         else
           && acts == []
           && b.v.nodes == a.v.nodes && (forall y :: y in b.v.receivers.waiting <==> (timeout != 0 && y == t) || y in a.v.receivers.waiting)
           && if timeout == 0 then
                && b.v.receivers.waiting == a.v.receivers.waiting
                && b.c.s == if again then WithThread(a.c.s, t, x.(error := ETIMEOUT)) else a.c.s
              else Queued(flag, a.Threads(), a.v.receivers.waiting, t, b.v.receivers.waiting) && PutToSleep(a.c.s, t, x.(error := EOK), b.c.s)
  }

  ghost predicate FillStep(msgSize: nat, a: Snap, n: Node, data: seq<byte>, urgent: bool, acts: seq<Act>, b: Snap) {
    if n in a.v.nodes.sending && 0 < |data| <= msgSize then
      && n < |a.v.bodies| && |data| <= |a.v.bodies[n]| && acts == [Wrote(n, data)] && b.c == a.c
      && b.v == a.v.(nodes := a.v.nodes.(sending := a.v.nodes.sending[n := if urgent then ForFront else ForBack]),
                     bodies := a.v.bodies[n := Filled(a.v.bodies[n], data)])
    else acts == [] && b == a
  }

  ghost predicate LinkStep(a: Snap, n: Node, acts: seq<Act>, b: Snap) {
    if n in a.v.nodes.sending && a.v.nodes.sending[n] != Blank then
      var back := a.v.nodes.sending[n] == ForBack;
      && acts == [if back then Back(n) else Front(n)]
      && b.v == a.v.(nodes := if back then Appended(a.v.nodes, n) else Prepended(a.v.nodes, n), receivers := Served(a.v.receivers))
      && b.c.nest == a.c.nest && WokeFirst(a.c.s, a.v.receivers.waiting, b.c.s)
    else acts == [] && b == a
  }

  ghost predicate ResetStep(a: Snap, acts: seq<Act>, b: Snap) {
    if a.Current().Some? then
      && acts == [Dropped] && b.v.bodies == a.v.bodies && b.v.nodes.queue == []
      && b.v.nodes.sending == a.v.nodes.sending && b.v.nodes.receiving == a.v.nodes.receiving
      && b.v.nodes.free == Backwards(a.v.nodes.queue) + a.v.nodes.free && (a.c.nest == 0 ==> MostUrgentRuns(b.c.s))
      && b.v.receivers == a.v.receivers.(waiting := []) && b.v.senders == a.v.senders.(waiting := [])
      && b.c.nest == a.c.nest && SameExcept(a.Threads(), b.Threads(), Members(a.v.receivers.waiting + a.v.senders.waiting))
      && forall t :: t in a.v.receivers.waiting || t in a.v.senders.waiting ==> SentAway(b.Threads(), t, ERROR)
    else acts == [] && b == a
  }

  // A waiter leaves its side with the timeout error.
  ghost predicate TimerStep(a: Side, b: Side, c: Config, c': Config, t: Tid) {
    && b.woken == a.woken && b.waiting == Without(a.waiting, t) && (forall x :: x in b.waiting <==> x in a.waiting && x != t)
    && SentAway(c'.s.threads, t, ETIMEOUT)
    && Coherent(c.s) && t in c.s.threads && c.s.threads[t].stat == Suspended && c' == c.(s := TimedOut(c.s, t))
  }

  // What an event does, and what it shows of itself.
  ghost predicate Answers(flag: Flag, msgSize: nat, a: Snap, e: Event, acts: seq<Act>, b: Snap) {
    match e
    case SendStart(timeout) => acts == [] && SendPass(flag, a, false, timeout, b)
    case SendAgain(timeout) => acts == [] && SendPass(flag, a, true, timeout, b)
    case SendFromInterrupt => acts == [] && b == if a.v.nodes.free == [] then a else a.(v := a.v.(nodes := Taken(a.v.nodes)))
    case FillNode(n, data, urgent) => FillStep(msgSize, a, n, data, urgent, acts, b)
    case Link(n) => LinkStep(a, n, acts, b)
    case RecvStart(timeout) => RecvPass(flag, a, false, timeout, acts, b)
    case RecvAgain(timeout) => RecvPass(flag, a, true, timeout, acts, b)
    case CopyNode(n, size) =>
      && b == a
      && if n in a.v.nodes.receiving && n < |a.v.bodies| then acts == [Read(n, size, Copied(a.v.bodies[n], if size > msgSize then msgSize else size))]
         else acts == []
    case ReturnNode(n) =>
      if n in a.v.nodes.receiving then
        && acts == [Gave(n)] && b.v == a.v.(nodes := Returned(a.v.nodes, n), senders := Served(a.v.senders))
        && b.c.nest == a.c.nest && WokeFirst(a.c.s, a.v.senders.waiting, b.c.s)
      else acts == [] && b == a
    case ReceiverTimer(t) =>
      && acts == []
      && if t in a.v.receivers.waiting then b.v == a.v.(receivers := b.v.receivers) && TimerStep(a.v.receivers, b.v.receivers, a.c, b.c, t)
         else b == a
    case SenderTimer(t) =>
      && acts == []
      && if t in a.v.senders.waiting then b.v == a.v.(senders := b.v.senders) && TimerStep(a.v.senders, b.v.senders, a.c, b.c, t)
         else b == a
    case ResetCall => ResetStep(a, acts, b)
    case Other(e) =>
      && acts == [] && b.v == a.v
      && if Coherent(a.c.s) && Elsewhere(a.c.s, a.v, e) then b.c == Scheduling.After(a.c, e) else b == a
  }

  // The acts of an event, none or one, and where they lead.
  ghost predicate Follows(a: Spec, acts: seq<Act>, b: Spec) {
    || (acts == [] && b == a)
    || (|acts| == 1 && Legal(a, acts[0]) && b == Next(a, acts[0]))
  }

  // A thread looks for a free node.
  method DoSend(mq: MessageQueue, h: Hands, again: bool, timeout: int, ghost a: Spec) returns (h': Hands)
    requires mq.Valid() && HandsOf(mq.Now()) == h && StandsFor(mq.nodes, mq.bodies, a)
    modifies mq, mq.k
    ensures mq.Valid() && HandsOf(mq.Now()) == h' && StandsFor(mq.nodes, mq.bodies, a)
    ensures SendPass(mq.flag, old(Shot(mq)), again, timeout, Shot(mq))
  {
    hide Coherent, SidesOk, PoolOk, Sized, StandsFor, Partition;
    PoolFacts(Links(mq.next, mq.head, mq.tail, mq.free), mq.nodes, mq.bodies, mq.maxMsgs, mq.msgSize);
    h' := h;
    if mq.k.current == None {
      return;
    }
    var t := mq.k.current.value;
    if t in mq.k.threads && mq.k.threads[t].stat == Running && t !in h.wokenReceivers && (again <==> t in h.wokenSenders) {
      ghost var ns := mq.nodes;
      var r := mq.SendTry(t, again, timeout);
      h' := h.(wokenSenders := h.wokenSenders - {t});
      if r.Got? {
        h' := h'.(sending := h.sending[r.node := Blank]);
        TakenStandsFor(ns, mq.bodies, a);
      }
    }
  }

  // An interrupt looks for one.
  method DoSendFromInterrupt(mq: MessageQueue, h: Hands, ghost a: Spec) returns (h': Hands)
    requires mq.Valid() && HandsOf(mq.Now()) == h && StandsFor(mq.nodes, mq.bodies, a)
    modifies mq, mq.k
    ensures mq.Valid() && HandsOf(mq.Now()) == h' && StandsFor(mq.nodes, mq.bodies, a)
    ensures Answers(mq.flag, mq.msgSize, old(Shot(mq)), SendFromInterrupt, [], Shot(mq))
  {
    hide Coherent, SidesOk, PoolOk, Sized, StandsFor, Partition;
    PoolFacts(Links(mq.next, mq.head, mq.tail, mq.free), mq.nodes, mq.bodies, mq.maxMsgs, mq.msgSize);
    h' := h;
    ghost var ns := mq.nodes;
    var n := mq.TakeFree();
    if n.Some? {
      h' := h.(sending := h.sending[n.value := Blank]);
      TakenStandsFor(ns, mq.bodies, a);
    }
  }

  method DoFill(mq: MessageQueue, h: Hands, n: Node, data: seq<byte>, urgent: bool, ghost a: Spec) returns (h': Hands, ghost acts: seq<Act>, ghost b: Spec)
    requires mq.Valid() && HandsOf(mq.Now()) == h && StandsFor(mq.nodes, mq.bodies, a)
    modifies mq, mq.k
    ensures mq.Valid() && HandsOf(mq.Now()) == h' && StandsFor(mq.nodes, mq.bodies, b) && Follows(a, acts, b)
    ensures FillStep(mq.msgSize, old(Shot(mq)), n, data, urgent, acts, Shot(mq))
  {
    hide Coherent, SidesOk, PoolOk, Sized, StandsFor, Partition, Filled;
    PoolFacts(Links(mq.next, mq.head, mq.tail, mq.free), mq.nodes, mq.bodies, mq.maxMsgs, mq.msgSize);
    h', acts, b := h, [], a;
    if n in h.sending && 0 < |data| <= mq.msgSize {
      ghost var ns, bodies := mq.nodes, mq.bodies;
      var stage := if urgent then ForFront else ForBack;
      mq.Fill(n, data, stage);
      FilledStandsFor(ns, bodies, a, n, stage, data);
      h' := h.(sending := h.sending[n := stage]);
      acts := [Wrote(n, data)];
      b := Next(a, acts[0]);
    }
  }

  method DoLink(mq: MessageQueue, h: Hands, n: Node, ghost a: Spec) returns (h': Hands, ghost acts: seq<Act>, ghost b: Spec)
    requires mq.Valid() && HandsOf(mq.Now()) == h && StandsFor(mq.nodes, mq.bodies, a)
    modifies mq, mq.k
    ensures mq.Valid() && HandsOf(mq.Now()) == h' && StandsFor(mq.nodes, mq.bodies, b) && Follows(a, acts, b)
    ensures LinkStep(old(Shot(mq)), n, acts, Shot(mq))
  {
    hide Coherent, SidesOk, PoolOk, Sized, StandsFor, Partition;
    h', acts, b := h, [], a;
    if n in h.sending && h.sending[n] != Blank {
      ghost var ns := mq.nodes;
      var waiting, need := mq.receivers, false;
      LinkedStandsFor(ns, mq.bodies, a, n);
      if h.sending[n] == ForBack {
        need := mq.LinkBack(n);
        acts := [Back(n)];
      } else {
        need := mq.LinkFront(n);
        acts := [Front(n)];
      }
      b := Next(a, acts[0]);
      h' := h.(sending := h.sending - {n}, wokenReceivers := if need then h.wokenReceivers + {waiting[0]} else h.wokenReceivers);
    }
  }

  method DoRecv(mq: MessageQueue, h: Hands, again: bool, timeout: int, ghost a: Spec) returns (h': Hands, ghost acts: seq<Act>, ghost b: Spec)
    requires mq.Valid() && HandsOf(mq.Now()) == h && StandsFor(mq.nodes, mq.bodies, a)
    modifies mq, mq.k
    ensures mq.Valid() && HandsOf(mq.Now()) == h' && StandsFor(mq.nodes, mq.bodies, b) && Follows(a, acts, b)
    ensures RecvPass(mq.flag, old(Shot(mq)), again, timeout, acts, Shot(mq))
  {
    hide Coherent, SidesOk, PoolOk, Sized, StandsFor, Partition;
    PoolFacts(Links(mq.next, mq.head, mq.tail, mq.free), mq.nodes, mq.bodies, mq.maxMsgs, mq.msgSize);
    h', acts, b := h, [], a;
    if mq.k.current == None {
      return;
    }
    var t := mq.k.current.value;
    if t in mq.k.threads && mq.k.threads[t].stat == Running && t !in h.wokenSenders && (again <==> t in h.wokenReceivers) {
      ghost var ns := mq.nodes;
      var r := mq.RecvTry(t, again, timeout);
      h' := h.(wokenReceivers := h.wokenReceivers - {t});
      if r.Got? {
        PoppedStandsFor(ns, mq.bodies, a);
        h' := h'.(receiving := h.receiving + {r.node});
        acts := [Took(r.node)];
        b := Next(a, acts[0]);
      }
    }
  }

  method DoCopy(mq: MessageQueue, h: Hands, n: Node, size: nat, ghost a: Spec) returns (data: seq<byte>, ghost acts: seq<Act>)
    requires mq.Valid() && HandsOf(mq.Now()) == h && StandsFor(mq.nodes, mq.bodies, a)
    ensures Follows(a, acts, a)
    ensures Answers(mq.flag, mq.msgSize, Shot(mq), CopyNode(n, size), acts, Shot(mq))
    ensures acts == if n in h.receiving then [Read(n, size, data)] else []
  {
    hide Coherent, SidesOk, PoolOk, StandsFor, Partition;
    data, acts := [], [];
    if n in h.receiving {
      data := mq.CopyOut(n, size);
      ReadStandsFor(mq.nodes, mq.bodies, a, n);
      acts := [Read(n, size, data)];
    }
  }

  method DoReturn(mq: MessageQueue, h: Hands, n: Node, ghost a: Spec) returns (h': Hands, ghost acts: seq<Act>, ghost b: Spec)
    requires mq.Valid() && HandsOf(mq.Now()) == h && StandsFor(mq.nodes, mq.bodies, a)
    modifies mq, mq.k
    ensures mq.Valid() && HandsOf(mq.Now()) == h' && StandsFor(mq.nodes, mq.bodies, b) && Follows(a, acts, b)
    ensures Answers(mq.flag, mq.msgSize, old(Shot(mq)), ReturnNode(n), acts, Shot(mq))
  {
    hide Coherent, SidesOk, PoolOk, Sized, StandsFor, Partition;
    h', acts, b := h, [], a;
    if n in h.receiving {
      var waiting := mq.senders;
      ReturnedStandsFor(mq.nodes, mq.bodies, a, n);
      var need := mq.GiveBack(n);
      acts := [Gave(n)];
      b := Next(a, acts[0]);
      h' := h.(receiving := h.receiving - {n}, wokenSenders := if need then h.wokenSenders + {waiting[0]} else h.wokenSenders);
    }
  }

  method DoTimer(mq: MessageQueue, h: Hands, e: Event, ghost a: Spec)
    requires mq.Valid() && HandsOf(mq.Now()) == h && StandsFor(mq.nodes, mq.bodies, a)
    requires e.ReceiverTimer? || e.SenderTimer?
    modifies mq, mq.k
    ensures mq.Valid() && HandsOf(mq.Now()) == h && StandsFor(mq.nodes, mq.bodies, a)
    ensures Answers(mq.flag, mq.msgSize, old(Shot(mq)), e, [], Shot(mq))
  {
    hide Coherent, SidesOk, PoolOk, Sized, StandsFor;
    if e.ReceiverTimer? && e.t in mq.receivers {
      mq.ReceiverExpires(e.t);
    } else if e.SenderTimer? && e.t in mq.senders {
      mq.SenderExpires(e.t);
    }
  }

  method DoReset(mq: MessageQueue, h: Hands, ghost a: Spec) returns (ghost acts: seq<Act>, ghost b: Spec)
    requires mq.Valid() && HandsOf(mq.Now()) == h && StandsFor(mq.nodes, mq.bodies, a)
    modifies mq, mq.k
    ensures mq.Valid() && HandsOf(mq.Now()) == h && StandsFor(mq.nodes, mq.bodies, b) && Follows(a, acts, b)
    ensures ResetStep(old(Shot(mq)), acts, Shot(mq))
  {
    hide Coherent, SidesOk, PoolOk, Sized, StandsFor;
    acts, b := [], a;
    if mq.k.current.Some? {
      ghost var ns := mq.nodes;
      mq.Reset();
      EmptiedStandsFor(ns, mq.bodies, a, mq.nodes);
      acts, b := [Dropped], Next(a, Dropped);
    }
  }

  method DoOther(mq: MessageQueue, h: Hands, e: Scheduling.Event, ghost a: Spec)
    requires mq.Valid() && HandsOf(mq.Now()) == h && StandsFor(mq.nodes, mq.bodies, a)
    modifies mq, mq.k
    ensures mq.Valid() && HandsOf(mq.Now()) == h && StandsFor(mq.nodes, mq.bodies, a)
    ensures Answers(mq.flag, mq.msgSize, old(Shot(mq)), Other(e), [], Shot(mq))
  {
    hide Coherent, SidesOk, PoolOk, Sized, StandsFor, Elsewhere, Scheduling.After;
    var elsewhere := mq.Untouched(e, h.wokenReceivers + h.wokenSenders);
    if elsewhere {
      mq.Other(e);
    }
  }

  method Do(mq: MessageQueue, h: Hands, e: Event, ghost a: Spec) returns (h': Hands, ghost acts: seq<Act>, ghost b: Spec)
    requires mq.Valid() && HandsOf(mq.Now()) == h && StandsFor(mq.nodes, mq.bodies, a)
    modifies mq, mq.k
    ensures mq.Valid() && HandsOf(mq.Now()) == h' && StandsFor(mq.nodes, mq.bodies, b) && Follows(a, acts, b)
    ensures Answers(mq.flag, mq.msgSize, old(Shot(mq)), e, acts, Shot(mq))
  {
    hide Coherent, SidesOk, PoolOk, Sized, StandsFor, HandsOf, SendPass, RecvPass, FillStep, LinkStep, ResetStep, Elsewhere, Scheduling.After;
    h', acts, b := h, [], a;
    match e {
      case SendStart(timeout) => h' := DoSend(mq, h, false, timeout, a);
      case SendAgain(timeout) => h' := DoSend(mq, h, true, timeout, a);
      case SendFromInterrupt => h' := DoSendFromInterrupt(mq, h, a);
      case FillNode(n, data, urgent) => h', acts, b := DoFill(mq, h, n, data, urgent, a);
      case Link(n) => h', acts, b := DoLink(mq, h, n, a);
      case RecvStart(timeout) => h', acts, b := DoRecv(mq, h, false, timeout, a);
      case RecvAgain(timeout) => h', acts, b := DoRecv(mq, h, true, timeout, a);
      case CopyNode(n, size) =>
        var data;
        data, acts := DoCopy(mq, h, n, size, a);
      case ReturnNode(n) => h', acts, b := DoReturn(mq, h, n, a);
      case ReceiverTimer(_) => DoTimer(mq, h, e, a);
      case SenderTimer(_) => DoTimer(mq, h, e, a);
      case ResetCall => acts, b := DoReset(mq, h, a);
      case Other(e') => DoOther(mq, h, e', a);
    }
  }

  ghost function Flat(logs: seq<seq<Act>>): seq<Act> {
    if logs == [] then [] else Flat(logs[..|logs| - 1]) + logs[|logs| - 1]
  }

  lemma FlatMore(logs: seq<seq<Act>>, acts: seq<Act>)
    ensures Flat(logs + [acts]) == Flat(logs) + acts
  {
    assert (logs + [acts])[..|logs|] == logs;
  }

  // Whatever the order of events, each does exactly what Answers says, and what
  // they show together is what a queue of whole messages could have shown; at
  // every point every node is in one place and no wake-up has been lost.
  method Run(mq: MessageQueue, h: Hands, events: seq<Event>, ghost a: Spec)
    returns (ghost run: seq<Snap>, ghost logs: seq<seq<Act>>, ghost b: Spec)
    requires mq.Valid() && HandsOf(mq.Now()) == h && StandsFor(mq.nodes, mq.bodies, a)
    modifies mq, mq.k
    ensures mq.Valid() && |run| == |events| + 1 && |logs| == |events|
    ensures run[0] == old(Shot(mq)) && run[|events|] == Shot(mq)
    ensures forall i :: 0 <= i < |events| ==> Answers(mq.flag, mq.msgSize, run[i], events[i], logs[i], run[i + 1])
    ensures forall i :: 0 <= i <= |events| ==> Sound(run[i], mq.maxMsgs)
    ensures Replay(a, Flat(logs)) == Some(b) && StandsFor(mq.nodes, mq.bodies, b)
  {
    hide Coherent, SidesOk, PoolOk, Sized, StandsFor, HandsOf, Replay, Answers, Flat, Sound;
    run, logs, b := [Shot(mq)], [], a;
    ReplayNothing(a);
    FlatNothing();
    SoundNow(Shot(mq), Links(mq.next, mq.head, mq.tail, mq.free), mq.maxMsgs);
    var now := h;
    for i := 0 to |events|
      invariant mq.Valid() && HandsOf(mq.Now()) == now
      invariant |run| == i + 1 && |logs| == i && run[0] == old(Shot(mq)) && run[i] == Shot(mq)
      invariant forall k :: 0 <= k < i ==> Answers(mq.flag, mq.msgSize, run[k], events[k], logs[k], run[k + 1])
      invariant forall k :: 0 <= k <= i ==> Sound(run[k], mq.maxMsgs)
      invariant Replay(a, Flat(logs)) == Some(b) && StandsFor(mq.nodes, mq.bodies, b)
    {
      ghost var acts, c := [], b;
      now, acts, c := Do(mq, now, events[i], b);
      SoundNow(Shot(mq), Links(mq.next, mq.head, mq.tail, mq.free), mq.maxMsgs);
      FlatMore(logs, acts);
      if acts == [] {
        assert Flat(logs) + [] == Flat(logs);
      } else {
        ReplayMore(a, Flat(logs), b, acts[0]);
        assert acts == [acts[0]];
      }
      b, logs, run := c, logs + [acts], run + [Shot(mq)];
    }
  }

  // Every node is in one place, and whoever waits while there is something for it
  // has somebody ahead of it that will look.
  ghost predicate Sound(a: Snap, max: nat) {
    Coherent(a.c.s) && Partition(a.v.nodes, max) && SidesOk(a.Threads(), a.v)
  }

  lemma SoundNow(a: Snap, l: Links, max: nat)
    requires Coherent(a.c.s) && PoolOk(l, a.v.nodes, max) && SidesOk(a.Threads(), a.v)
    ensures Sound(a, max)
  {
    hide Coherent, Partition, SidesOk;
  }

  lemma FlatNothing()
    ensures Flat([]) == []
  {}
}
