/** rt_mq_*: every stretch of code that runs with interrupts disabled is one
    method here; the copies between them touch only the node their owner holds. */
module MessageQueues {
  import opened Bytes
  import opened Lists
  import opened Scheduling
  import opened WaitLists
  import opened MessageNodes
  import opened WakeUps

  const ENTRY_MAX := 65535
  const NODE_HEADER := 4

  type Body = seq<byte>

  // msg_size and max_msgs are 16 bits wide.
  function AlignedSize(size: nat): nat { (size + 3) / 4 * 4 % 0x10000 }

  function Capacity(pool: nat, size: nat): nat { pool / (size + NODE_HEADER) % 0x10000 }

  // Sizes up to 65532 are rounded up to whole words; larger ones wrap around.
  lemma WholeWords(size: nat)
    ensures size <= 65532 ==> AlignedSize(size) % 4 == 0 && size <= AlignedSize(size) < size + 4
    ensures AlignedSize(size + 0x10000) == AlignedSize(size)
  {}

  // As many nodes as fit, up to 65535; beyond that the count wraps around.
  lemma HowManyFit(pool: nat, size: nat)
    ensures var each := size + NODE_HEADER;
            && (pool < 0x10000 * each ==> Capacity(pool, size) * each <= pool < (Capacity(pool, size) + 1) * each)
            && Capacity(pool + 0x10000 * each, size) == Capacity(pool, size) <= ENTRY_MAX
  {
    hide Capacity;
    var each := size + NODE_HEADER;
    if pool < 0x10000 * each {
      CapacityFits(pool, size, each);
    }
    CapacityWraps(pool, size, each);
  }

  lemma CapacityFits(pool: nat, size: nat, each: nat)
    requires each == size + NODE_HEADER && pool < 0x10000 * each
    ensures Capacity(pool, size) * each <= pool < (Capacity(pool, size) + 1) * each
  {
    Quotient(pool, each);
    if pool / each >= 0x10000 {
      AtLeastTimes(pool / each, 0x10000, each);
    }
    assert Capacity(pool, size) == pool / each;
  }

  lemma CapacityWraps(pool: nat, size: nat, each: nat)
    requires each == size + NODE_HEADER
    ensures Capacity(pool + 0x10000 * each, size) == Capacity(pool, size) <= ENTRY_MAX
  {
    MoreByTurns(pool, each);
    SameRest(pool / each);
  }

  lemma SameRest(q: nat)
    ensures (q + 0x10000) % 0x10000 == q % 0x10000 <= ENTRY_MAX
  {}

  lemma MoreByTurns(pool: nat, each: nat)
    requires each > 0
    ensures (pool + 0x10000 * each) / each == pool / each + 0x10000
  {
    Quotient(pool, each);
    Quotient(pool + 0x10000 * each, each);
    SameQuotient(each, (pool + 0x10000 * each) / each, pool / each + 0x10000, (pool + 0x10000 * each) % each, pool % each);
  }

  lemma Quotient(n: nat, m: nat)
    requires m > 0
    ensures n == n / m * m + n % m && 0 <= n % m < m
    ensures (n / m + 1) * m == n / m * m + m && (n / m + 0x10000) * m == n / m * m + 0x10000 * m
  {}

  lemma AtLeastTimes(a: nat, b: nat, m: nat)
    requires a >= b
    ensures a * m >= b * m
  {}

  // A quotient and a remainder are determined by what they make.
  lemma SameQuotient(m: nat, q: nat, q': nat, r: nat, r': nat)
    requires r < m && r' < m && q * m + r == q' * m + r'
    ensures q == q'
  {
    if q < q' {
      AtLeastTimes(q', q + 1, m);
    } else if q' < q {
      AtLeastTimes(q, q' + 1, m);
    }
  }

  // What is on the queue and in the hands of senders and receivers, and who waits.
  datatype View = View(nodes: Nodes, bodies: seq<Body>, receivers: Side, senders: Side)

  ghost predicate Sized(bodies: seq<Body>, max: nat, size: nat) {
    |bodies| == max && forall n :: 0 <= n < max ==> |bodies[n]| == size
  }

  ghost predicate SidesOk(threads: map<Tid, Thread>, v: View) {
    && SideOk(threads, v.receivers, |v.nodes.queue|)
    && SideOk(threads, v.senders, |v.nodes.free|)
    && Apart(v.receivers, v.senders)
  }

  // The bytes of a node after `data` has been copied into it.
  function Filled(was: Body, data: seq<byte>): (r: Body)
    requires |data| <= |was|
    ensures |r| == |was| && r[..|data|] == data
  {
    data + was[|data|..]
  }

  // What a receiver with room for `size` bytes copies out.
  function Copied(body: Body, size: nat): seq<byte> {
    if size > |body| then body else body[..size]
  }

  // The messages on the queue, first to be received first.
  ghost function Contents(queue: seq<Node>, bodies: seq<Body>): (r: seq<Body>)
    requires forall i :: 0 <= i < |queue| ==> queue[i] < |bodies|
    ensures |r| == |queue|
  {
    if queue == [] then [] else [bodies[queue[0]]] + Contents(queue[1..], bodies)
  }

  datatype Try = Got(node: Node) | Refused | Blocked

  class MessageQueue {
    const k: Kernel
    const flag: Flag
    const msgSize: nat
    const maxMsgs: nat
    var next: seq<Option<Node>>
    var bodies: seq<Body>
    var head: Option<Node>
    var tail: Option<Node>
    var free: Option<Node>
    var entry: nat
    var receivers: seq<Tid>
    var senders: seq<Tid>
    // The nodes by place, and the threads that have been woken and not yet looked.
    ghost var nodes: Nodes
    ghost var wokenReceivers: set<Tid>
    ghost var wokenSenders: set<Tid>

    ghost function Now(): View
      reads this
    {
      View(nodes, bodies, Side(receivers, wokenReceivers), Side(senders, wokenSenders))
    }

    ghost predicate PoolValid()
      reads this
    {
      && PoolOk(Links(next, head, tail, free), nodes, maxMsgs) && Sized(bodies, maxMsgs, msgSize)
      && entry == |nodes.queue| && maxMsgs <= ENTRY_MAX
    }

    ghost predicate Valid()
      reads this, k
    {
      k.Valid() && PoolValid() && SidesOk(k.threads, Now())
    }

    ghost predicate Runs(t: Tid)
      reads this, k
    {
      k.current == Some(t) && t in k.threads && k.threads[t].stat == Running
    }

    ghost function Kern(): Config
      reads k
    {
      Config(k.Now(), k.lockNest)
    }

    // rt_mq_init: sizes are kept in 16 bits, and the free list is built back to front.
    constructor (k: Kernel, flag: Flag, msgSize: nat, poolSize: nat)
      requires k.Valid()
      ensures Valid() && this.k == k && this.flag == flag && Now().nodes.queue == [] && entry == 0
      ensures this.msgSize == AlignedSize(msgSize) && maxMsgs == Capacity(poolSize, this.msgSize)
      // whole words, and as many nodes as the pool holds
      ensures msgSize <= 65532 ==> this.msgSize % 4 == 0 && msgSize <= this.msgSize < msgSize + 4
      ensures poolSize < 0x10000 * (this.msgSize + NODE_HEADER) ==>
                maxMsgs * (this.msgSize + NODE_HEADER) <= poolSize < (maxMsgs + 1) * (this.msgSize + NODE_HEADER)
      ensures (forall i :: 0 <= i < |nodes.free| ==> nodes.free[i] == maxMsgs - 1 - i)
      ensures |nodes.free| == maxMsgs && receivers == senders == [] && wokenReceivers == wokenSenders == {}
      ensures nodes.sending == map[] && nodes.receiving == {}
    {
      hide AlignedSize, Capacity, Sized, SidesOk;
      var size := AlignedSize(msgSize);
      var max := Capacity(poolSize, size);
      WholeWords(msgSize);
      HowManyFit(poolSize, size);
      var links, first, list := FreeList(max);
      hide PoolOk, Coherent;
      NobodyYet(k.threads, Nodes(list, [], map[], {}), seq(max, _ => seq(size, _ => 0)), max, size);
      this.k, this.flag := k, flag;
      this.msgSize, maxMsgs := size, max;
      head, tail, entry := None, None, 0;
      receivers, senders, wokenReceivers, wokenSenders := [], [], {}, {};
      bodies := seq(max, _ => seq(size, _ => 0));
      next, free, nodes := links, first, Nodes(list, [], map[], {});
    }

    // The first node off the free list: rt_mq_urgent, or a send that does not wait.
    method TakeFree() returns (n: Option<Node>)
      requires Valid()
      modifies this
      ensures Valid()
      ensures old(nodes).free == [] ==> n == None && Now() == old(Now())
      ensures old(nodes).free != [] ==> n == Some(old(nodes).free[0]) && Now() == old(Now()).(nodes := Taken(old(nodes)))
    {
      hide SideOk, Apart, Coherent, Sized;
      EmptyOk(Links(next, head, tail, free), nodes, maxMsgs);
      if free == None {
        return None;
      }
      TakeOk(Links(next, head, tail, free), nodes, maxMsgs);
      SideLess(k.threads, Now().senders, |nodes.free|, |nodes.free| - 1);
      hide PoolOk;
      n := free;
      free := next[free.value];
      nodes := Taken(nodes);
    }

    // One pass over the loop of rt_mq_send_wait, on entry or after a wake-up.
    method SendTry(t: Tid, again: bool, timeout: int) returns (r: Try)
      requires Valid() && Runs(t) && t !in wokenReceivers && (again <==> t in wokenSenders)
      modifies this, k
      ensures k.current == old(k.current)
      ensures Valid() && bodies == old(bodies) && Now().receivers == old(Now()).receivers
      ensures wokenSenders == old(wokenSenders) - {t}
      ensures old(nodes).free != [] ==> r == Got(old(nodes).free[0]) && nodes == Taken(old(nodes)) && senders == old(senders)
      ensures old(nodes).free == [] ==> nodes == old(nodes) && r == if timeout == 0 then Refused else Blocked
      ensures old(nodes).free == [] && timeout == 0 ==> senders == old(senders)
      ensures old(nodes).free == [] && timeout != 0 ==> forall x :: x in senders <==> x == t || x in old(senders)
      // the kernel: untouched with a node; the error reset on another pass; asleep
      ensures k.lockNest == old(k.lockNest) && t in old(k.threads)
      ensures old(nodes).free != [] ==> k.Now() == old(k.Now())
      ensures old(nodes).free == [] && timeout == 0 ==>
                k.Now() == if again then WithThread(old(k.Now()), t, old(k.threads)[t].(error := EOK)) else old(k.Now())
      ensures old(nodes).free == [] && timeout != 0 ==>
                PutToSleep(old(k.Now()), t, old(k.threads)[t].(error := EOK), k.Now()) && Queued(flag, old(k.threads), old(senders), t, senders)
    {
      hide SideOk, Apart, Coherent, Sized, PutToSleep, Queued;
      EmptyOk(Links(next, head, tail, free), nodes, maxMsgs);
      SenderLooks(k.threads, Now(), t);
      if free == None {
        hide PoolOk;
        wokenSenders := wokenSenders - {t};
        if !again && timeout == 0 {
          return Refused;
        }
        ghost var now := k.threads;
        Note(t, EOK);
        if timeout == 0 {
          return Refused;
        }
        WaitToSend(t);
        ErrorOnly(now, t, flag, old(senders), senders);
        CleanSleep(old(k.Now()), t, now[t].(error := EOK), k.Now());
        r := Blocked;
      } else {
        var n := TakeFree();
        wokenSenders := wokenSenders - {t};
        r := Got(n.value);
      }
    }

    method WaitToSend(t: Tid)
      requires Valid() && Runs(t) && k.threads[t].error == EOK && t !in wokenReceivers && t !in wokenSenders && nodes.free == []
      modifies `senders, k
      ensures k.current == old(k.current) && k.lockNest == old(k.lockNest)
      ensures Valid() && forall x :: x in senders <==> x == t || x in old(senders)
      ensures t in old(k.threads) && PutToSleep(old(k.Now()), t, old(k.threads)[t], k.Now())
      ensures Queued(flag, old(k.threads), old(senders), t, senders)
    {
      hide SideOk, Apart, Coherent, PoolOk, Sized, SuspendedBy, Queued;
      assert k.threads[t := k.threads[t]] == k.threads;
      Unlisted(k.threads, Now(), t);
      ghost var v := Now();
      senders := SuspendOn(k, senders, t, flag);
      SenderJoins(old(k.threads), v, t, senders);
    }

    // The copy into a node, with interrupts enabled. rt_mq_send_wait also clears
    // the node's link here; rt_mq_urgent leaves it.
    method Fill(n: Node, data: seq<byte>, stage: Stage)
      requires Valid() && n in nodes.sending && 0 < |data| <= msgSize && stage != Blank
      modifies this
      ensures Valid() && n < |old(bodies)| && |data| <= |old(bodies)[n]|
      ensures Now() == old(Now()).(nodes := old(nodes).(sending := old(nodes).sending[n := stage]), bodies := old(bodies)[n := Filled(old(bodies)[n], data)])
    {
      hide SideOk, Apart, Coherent;
      StageOk(Links(next, head, tail, free), nodes, maxMsgs, n, stage);
      hide PoolOk;
      if stage == ForBack {
        next := next[n := None];
      }
      bodies := bodies[n := Filled(bodies[n], data)];
      nodes := nodes.(sending := nodes.sending[n := stage]);
    }

    // The end of rt_mq_send_wait: the node becomes the tail.
    method LinkBack(n: Node) returns (need: bool)
      requires Valid() && n in nodes.sending && nodes.sending[n] == ForBack
      modifies this, k
      ensures k.current == old(k.current) && k.lockNest == old(k.lockNest) && WokeFirst(old(k.Now()), old(receivers), k.Now())
      ensures Valid() && need == (old(receivers) != [])
      ensures Now() == old(Now()).(nodes := Appended(old(nodes), n), receivers := Served(old(Now()).receivers))
    {
      hide SidesOk, Coherent, Sized, PoolOk, Served, WokeFirst;
      Chain(n);
      need := Count(Appended(nodes, n));
    }

    method Chain(n: Node)
      requires PoolOk(Links(next, head, tail, free), nodes, maxMsgs) && n in nodes.sending && nodes.sending[n] == ForBack
      modifies `next, `head, `tail
      ensures PoolOk(Links(next, head, tail, free), Appended(nodes, n), maxMsgs)
      ensures |nodes.queue| < maxMsgs
    {
      hide PoolOk, Appended;
      AppendOk(Links(next, head, tail, free), nodes, maxMsgs, n);
      RoomToLink(Links(next, head, tail, free), nodes, maxMsgs, n);
      if tail.Some? {
        next := next[tail.value := Some(n)];
      }
      tail := Some(n);
      if head == None {
        head := Some(n);
      }
    }

    // The end of rt_mq_urgent: the node becomes the head.
    method LinkFront(n: Node) returns (need: bool)
      requires Valid() && n in nodes.sending && nodes.sending[n] == ForFront
      modifies this, k
      ensures k.current == old(k.current) && k.lockNest == old(k.lockNest) && WokeFirst(old(k.Now()), old(receivers), k.Now())
      ensures Valid() && need == (old(receivers) != [])
      ensures Now() == old(Now()).(nodes := Prepended(old(nodes), n), receivers := Served(old(Now()).receivers))
    {
      hide SidesOk, Coherent, Sized, PoolOk, Served, WokeFirst;
      ChainFront(n);
      need := Count(Prepended(nodes, n));
    }

    method ChainFront(n: Node)
      requires PoolOk(Links(next, head, tail, free), nodes, maxMsgs) && n in nodes.sending
      modifies `next, `head, `tail
      ensures PoolOk(Links(next, head, tail, free), Prepended(nodes, n), maxMsgs)
      ensures |nodes.queue| < maxMsgs
    {
      ghost var l := Links(next, head, tail, free);
      PrependOk(l, nodes, maxMsgs, n);
      RoomToLink(l, nodes, maxMsgs, n);
      hide PoolOk;
      next := next[n := head];
      head := Some(n);
      if tail == None {
        tail := Some(n);
      }
    }

    // What both ends of sending share: the counter, which cannot overflow, and
    // the first receiver.
    method Count(ghost after: Nodes) returns (need: bool)
      requires k.Valid() && SidesOk(k.threads, Now()) && entry == |nodes.queue|
      requires PoolOk(Links(next, head, tail, free), after, maxMsgs) && Sized(bodies, maxMsgs, msgSize)
      requires |nodes.queue| < maxMsgs <= ENTRY_MAX && |after.queue| == |nodes.queue| + 1 && after.free == nodes.free
      modifies `entry, `receivers, `nodes, `wokenReceivers, k
      ensures k.current == old(k.current) && k.lockNest == old(k.lockNest) && WokeFirst(old(k.Now()), old(receivers), k.Now())
      ensures Valid() && need == (old(receivers) != [])
      ensures Now() == old(Now()).(nodes := after, receivers := Served(old(Now()).receivers))
    {
      hide PoolOk, SideOk, Apart, Coherent, Sized, Resumed;
      if entry < ENTRY_MAX {
        entry := entry + 1;
      } else {
        assert false;
      }
      ghost var v, threads := Now(), k.threads;
      nodes := after;
      need := receivers != [];
      if need {
        WaitingOf(threads, v.receivers, |v.nodes.queue|);
        wokenReceivers := wokenReceivers + {receivers[0]};
        receivers := ResumeFirst(k, receivers);
        ReceiverServed(threads, v, Awake(k.current, v.receivers.waiting[0]), after);
      } else {
        ServeNobody(threads, v.receivers, |v.nodes.queue|);
      }
    }

    // One pass over the loop of rt_mq_recv, on entry or after a wake-up.
    method RecvTry(t: Tid, again: bool, timeout: int) returns (r: Try)
      requires Valid() && Runs(t) && t !in wokenSenders && (again <==> t in wokenReceivers)
      modifies this, k
      ensures k.current == old(k.current)
      ensures Valid() && bodies == old(bodies) && Now().senders == old(Now()).senders
      ensures wokenReceivers == old(wokenReceivers) - {t}
      ensures old(nodes).queue != [] ==> r == Got(old(nodes).queue[0]) && nodes == Popped(old(nodes)) && receivers == old(receivers)
      ensures old(nodes).queue == [] ==> nodes == old(nodes) && r == if timeout == 0 then Refused else Blocked
      ensures old(nodes).queue == [] && timeout == 0 ==> receivers == old(receivers)
      ensures old(nodes).queue == [] && timeout != 0 ==> forall x :: x in receivers <==> x == t || x in old(receivers)
      // the kernel: untouched with a message; the error set on another pass; asleep
      ensures k.lockNest == old(k.lockNest) && t in old(k.threads)
      ensures old(nodes).queue != [] ==> k.Now() == old(k.Now())
      ensures old(nodes).queue == [] && timeout == 0 ==>
                k.Now() == if again then WithThread(old(k.Now()), t, old(k.threads)[t].(error := ETIMEOUT)) else old(k.Now())
      ensures old(nodes).queue == [] && timeout != 0 ==>
                PutToSleep(old(k.Now()), t, old(k.threads)[t].(error := EOK), k.Now()) && Queued(flag, old(k.threads), old(receivers), t, receivers)
    {
      hide SideOk, Apart, Coherent, Sized, PutToSleep, Queued;
      ReceiverLooks(k.threads, Now(), t);
      if entry == 0 {
        hide PoolOk;
        wokenReceivers := wokenReceivers - {t};
        if !again && timeout == 0 {
          return Refused;
        }
        ghost var now := k.threads;
        Note(t, EOK);
        if timeout == 0 {
          Note(t, ETIMEOUT);
          assert k.threads == now[t := now[t].(error := ETIMEOUT)];
          return Refused;
        }
        WaitToReceive(t);
        ErrorOnly(now, t, flag, old(receivers), receivers);
        CleanSleep(old(k.Now()), t, now[t].(error := EOK), k.Now());
        r := Blocked;
      } else {
        var n := Pop();
        wokenReceivers := wokenReceivers - {t};
        r := Got(n);
      }
    }

    // The first message leaves the queue.
    method Pop() returns (n: Node)
      requires PoolValid() && nodes.queue != []
      modifies `head, `tail, `entry, `nodes
      ensures PoolValid() && n == old(nodes).queue[0] && nodes == Popped(old(nodes))
    {
      hide Sized;
      PopOk(Links(next, head, tail, free), nodes, maxMsgs);
      hide PoolOk;
      n := head.value;
      head := next[n];
      if tail == Some(n) {
        tail := None;
      }
      if entry > 0 {
        entry := entry - 1;
      }
      nodes := Popped(nodes);
    }

    method WaitToReceive(t: Tid)
      requires Valid() && Runs(t) && k.threads[t].error == EOK && t !in wokenReceivers && t !in wokenSenders && nodes.queue == []
      modifies `receivers, k
      ensures k.current == old(k.current) && k.lockNest == old(k.lockNest)
      ensures Valid() && forall x :: x in receivers <==> x == t || x in old(receivers)
      ensures t in old(k.threads) && PutToSleep(old(k.Now()), t, old(k.threads)[t], k.Now())
      ensures Queued(flag, old(k.threads), old(receivers), t, receivers)
    {
      hide SideOk, Apart, Coherent, PoolOk, Sized, SuspendedBy, Queued;
      assert k.threads[t := k.threads[t]] == k.threads;
      Unlisted(k.threads, Now(), t);
      ghost var v := Now();
      receivers := SuspendOn(k, receivers, t, flag);
      ReceiverJoins(old(k.threads), v, t, receivers);
    }

    // The copy out of a node, with interrupts enabled.
    method CopyOut(n: Node, size: nat) returns (data: seq<byte>)
      requires Valid() && n in nodes.receiving
      ensures n < |bodies| && data == Copied(bodies[n], if size > msgSize then msgSize else size)
    {
      OnePlace(nodes, maxMsgs, n);
      data := bodies[n][..if size > msgSize then msgSize else size];
    }

    // The end of rt_mq_recv: the node is free again, and a sender can have it.
    method GiveBack(n: Node) returns (need: bool)
      requires Valid() && n in nodes.receiving
      modifies this, k
      ensures k.current == old(k.current) && k.lockNest == old(k.lockNest) && WokeFirst(old(k.Now()), old(senders), k.Now())
      ensures Valid() && need == (old(senders) != [])
      ensures Now() == old(Now()).(nodes := Returned(old(nodes), n), senders := Served(old(Now()).senders))
    {
      hide SidesOk, SideOk, Apart, Coherent, Sized, Served, WokeFirst;
      ReturnOk(Links(next, head, tail, free), nodes, maxMsgs, n);
      hide PoolOk;
      next := next[n := free];
      free := Some(n);
      need := Offer(Returned(nodes, n));
    }

    // A node has become free: the first sender is woken.
    method Offer(ghost after: Nodes) returns (need: bool)
      requires k.Valid() && SidesOk(k.threads, Now()) && entry == |nodes.queue| && maxMsgs <= ENTRY_MAX
      requires PoolOk(Links(next, head, tail, free), after, maxMsgs) && Sized(bodies, maxMsgs, msgSize)
      requires |after.free| == |nodes.free| + 1 && after.queue == nodes.queue
      modifies `senders, `nodes, `wokenSenders, k
      ensures k.current == old(k.current) && k.lockNest == old(k.lockNest) && WokeFirst(old(k.Now()), old(senders), k.Now())
      ensures Valid() && need == (old(senders) != [])
      ensures Now() == old(Now()).(nodes := after, senders := Served(old(Now()).senders))
    {
      hide PoolOk, SideOk, Apart, Coherent, Sized, Resumed;
      ghost var v, threads := Now(), k.threads;
      nodes := after;
      need := senders != [];
      if need {
        WaitingOf(threads, v.senders, |v.nodes.free|);
        wokenSenders := wokenSenders + {senders[0]};
        senders := ResumeFirst(k, senders);
        SenderServed(threads, v, Awake(k.current, v.senders.waiting[0]), nodes);
      } else {
        ServeNobody(threads, v.senders, |v.nodes.free|);
      }
    }

    // rt_schedule, seen from here.
    method Reschedule()
      requires Valid() && k.current.Some?
      modifies k
      ensures Valid() && SameWaits(old(k.threads), k.threads) && k.lockNest == old(k.lockNest)
      ensures k.Now() == Rescheduled(old(k.Now()), old(k.lockNest)) && (k.lockNest == 0 ==> MostUrgentRuns(k.Now()))
    {
      hide SideOk, Apart, Coherent, PoolOk, Sized, MostUrgentRuns;
      SchedulingWaits(k.Now());
      ScheduledRight(k.Now());
      ghost var before := k.threads;
      k.Schedule();
      assert SameWaits(before, k.threads);
      WaitsKeep(before, k.threads, Now());
    }

    // The timer of a waiting receiver fires.
    method ReceiverExpires(t: Tid)
      requires Valid() && t in receivers
      modifies `receivers, k
      ensures k.current == old(k.current) && k.lockNest == old(k.lockNest)
      ensures Valid() && receivers == Without(old(receivers), t) && forall x :: x in receivers <==> x in old(receivers) && x != t
      ensures SentAway(k.threads, t, ETIMEOUT)
      ensures t in old(k.threads) && old(k.threads)[t].stat == Suspended && k.Now() == TimedOut(old(k.Now()), t)
    {
      hide SideOk, Apart, Coherent, PoolOk, Sized, TimedOut, Without;
      ghost var v := Now();
      WaitingOf(k.threads, v.receivers, |v.nodes.queue|);
      receivers := TimeOut(k, receivers, t);
      ReceiverLeaves(old(k.threads), v, t, k.threads[t], receivers);
    }

    // The timer of a waiting sender fires.
    method SenderExpires(t: Tid)
      requires Valid() && t in senders
      modifies `senders, k
      ensures k.current == old(k.current) && k.lockNest == old(k.lockNest)
      ensures Valid() && senders == Without(old(senders), t) && forall x :: x in senders <==> x in old(senders) && x != t
      ensures SentAway(k.threads, t, ETIMEOUT)
      ensures t in old(k.threads) && old(k.threads)[t].stat == Suspended && k.Now() == TimedOut(old(k.Now()), t)
    {
      hide SideOk, Apart, Coherent, PoolOk, Sized, TimedOut, Without;
      ghost var v := Now();
      WaitingOf(k.threads, v.senders, |v.nodes.free|);
      senders := TimeOut(k, senders, t);
      SenderLeaves(old(k.threads), v, t, k.threads[t], senders);
    }

    // rt_mq_control with RT_IPC_CMD_RESET: everybody is sent away, every queued
    // message is dropped, and the nodes in flight stay where they are.
    method Reset()
      requires Valid() && k.current.Some?
      modifies this, k
      ensures Valid() && receivers == senders == [] && nodes.queue == [] && bodies == old(bodies)
      ensures nodes.sending == old(nodes).sending && nodes.receiving == old(nodes).receiving
      ensures nodes.free == Backwards(old(nodes).queue) + old(nodes).free && (k.lockNest == 0 ==> MostUrgentRuns(k.Now()))
      ensures wokenReceivers == old(wokenReceivers) && wokenSenders == old(wokenSenders)
      ensures forall t :: t in old(receivers) || t in old(senders) ==> SentAway(k.threads, t, ERROR)
      ensures SameExcept(old(k.threads), k.threads, Members(old(receivers) + old(senders))) && k.lockNest == old(k.lockNest)
    {
      hide SideOk, Apart, Coherent, PoolOk, Sized, Expelled, SentAway, SameExcept, SameWaits, Rescheduled, MostUrgentRuns;
      SendAllAway();
      ghost var now := k.threads;
      Drain();
      Reschedule();
      ExceptThenWaits(old(k.threads), now, k.threads, Members(old(receivers) + old(senders)));
      StillSentAway(now, k.threads, old(receivers) + old(senders), ERROR);
    }

    // Everybody who waits, for whatever is on the queue or free from now on.
    method SendAllAway()
      requires Valid()
      modifies `receivers, `senders, k
      ensures k.Valid() && k.current == old(k.current) && k.lockNest == old(k.lockNest) && receivers == senders == []
      ensures forall ns, bs :: SidesOk(k.threads, View(ns, bs, Side([], wokenReceivers), Side([], wokenSenders)))
      ensures forall t :: t in old(receivers) || t in old(senders) ==> SentAway(k.threads, t, ERROR)
      ensures SameExcept(old(k.threads), k.threads, Members(old(receivers) + old(senders)))
    {
      hide SideOk, Apart, Coherent, PoolOk, Sized, Expelled, SentAway, SidesOk, SameExcept;
      ghost var v, threads := Now(), k.threads;
      SidesWait(threads, v);
      ResumeAll(k, receivers);
      ExpelledSentAway(threads, k.threads, receivers, k.current);
      ReceiversGone(threads, k.threads, v, k.current);
      receivers := [];
      ghost var now, w := k.threads, v.(receivers := v.receivers.(waiting := []));
      SidesWait(now, w);
      ResumeAll(k, senders);
      ExpelledSentAway(now, k.threads, senders, k.current);
      SendersGone(now, k.threads, w, k.current);
      StaySentAway(now, k.threads, v.receivers.waiting, senders, k.current);
      TwiceExpelled(threads, now, k.threads, v.receivers.waiting, senders, k.current);
      senders := [];
    }

    method Drain()
      requires PoolOk(Links(next, head, tail, free), nodes, maxMsgs)
      modifies `next, `head, `tail, `free, `entry, `nodes
      ensures PoolOk(Links(next, head, tail, free), nodes, maxMsgs) && nodes.queue == [] && entry == 0
      ensures nodes.sending == old(nodes).sending && nodes.receiving == old(nodes).receiving
      ensures nodes.free == Backwards(old(nodes).queue) + old(nodes).free
    {
      hide PoolOk;
      EmptyOk(Links(next, head, tail, free), nodes, maxMsgs);
      while head.Some?
        invariant PoolOk(Links(next, head, tail, free), nodes, maxMsgs) && (head == None <==> nodes.queue == [])
        invariant nodes.sending == old(nodes).sending && nodes.receiving == old(nodes).receiving
        invariant Backwards(nodes.queue) + nodes.free == Backwards(old(nodes).queue) + old(nodes).free
        decreases |nodes.queue|
      {
        DropOk(Links(next, head, tail, free), nodes, maxMsgs);
        LinksBound(Links(next, head, tail, free), nodes, maxMsgs);
        var n := head.value;
        head := next[n];
        if tail == Some(n) {
          tail := None;
        }
        next := next[n := free];
        free := Some(n);
        OneBackwards(nodes.queue, nodes.free);
        nodes := Dropped(nodes);
        EmptyOk(Links(next, head, tail, free), nodes, maxMsgs);
      }
      entry := 0;
    }

    // Whether an event is somewhere else, given who has been woken.
    method Untouched(e: Scheduling.Event, woken: set<Tid>) returns (yes: bool)
      requires woken == wokenReceivers + wokenSenders
      ensures yes <==> Elsewhere(k.Now(), Now(), e)
    {
      yes := forall t :: t in Touched(State(k.threads, k.ready, k.group, k.current), e) ==> t !in receivers && t !in senders && t !in woken;
    }

    // Something happens elsewhere in the kernel.
    method Other(e: Scheduling.Event)
      requires Valid() && Elsewhere(k.Now(), Now(), e)
      modifies k
      ensures Valid() && Config(k.Now(), k.lockNest) == After(old(Config(k.Now(), k.lockNest)), e)
    {
      hide SideOk, Apart, Coherent, PoolOk, Sized, After, Elsewhere;
      ghost var c := Config(k.Now(), k.lockNest);
      AfterOutside(c, e);
      Scheduling.RunOne(k, e);
      assert k.threads == After(c, e).s.threads;
      ElsewhereKeeps(c, e, Now());
    }

    // The error of the running thread, which is on neither list.
    method Note(t: Tid, e: Error)
      requires Valid() && Runs(t) && t !in wokenReceivers && t !in wokenSenders
      modifies k
      ensures k.current == old(k.current) && k.lockNest == old(k.lockNest)
      ensures Valid() && Runs(t) && k.threads[t].error == e
      ensures k.Now() == WithThread(old(k.Now()), t, old(k.threads)[t].(error := e))
    {
      hide SideOk, Apart, Coherent, PoolOk, Sized;
      Unlisted(k.threads, Now(), t);
      StrangerChanges(k.threads, Now(), t, k.threads[t].(error := e));
      k.SetError(t, e);
    }
  }

  // The last first.
  ghost function Backwards(queue: seq<Node>): seq<Node> {
    if queue == [] then [] else Backwards(queue[1..]) + [queue[0]]
  }

  lemma OneBackwards(queue: seq<Node>, free: seq<Node>)
    requires queue != []
    ensures Backwards(queue) + free == Backwards(queue[1..]) + ([queue[0]] + free)
  {}

  lemma {:induction false} BackwardsAt(queue: seq<Node>, i: nat)
    requires i < |queue|
    ensures |Backwards(queue)| == |queue| && Backwards(queue)[i] == queue[|queue| - 1 - i]
  {
    if |queue| > 1 {
      BackwardsAt(queue[1..], if i < |queue| - 1 then i else 0);
    }
  }

  // The event concerns no thread that waits here or has been woken here.
  ghost predicate Elsewhere(s: State, v: View, e: Scheduling.Event) {
    forall t :: t in Touched(s, e) ==> !On(v.receivers, t) && !On(v.senders, t)
  }

  lemma ElsewhereKeeps(c: Config, e: Scheduling.Event, v: View)
    requires Coherent(c.s) && SidesOk(c.s.threads, v) && Elsewhere(c.s, v, e)
    requires SameOutside(c.s.threads, After(c, e).s.threads, e, Touched(c.s, e))
    ensures SidesOk(After(c, e).s.threads, v)
  {
    hide Coherent, After, SideOk, Apart, Touched;
    SideFrame(c.s.threads, After(c, e).s.threads, v.receivers, |v.nodes.queue|);
    SideFrame(c.s.threads, After(c, e).s.threads, v.senders, |v.nodes.free|);
  }

  lemma SidesWait(threads: map<Tid, Thread>, v: View)
    requires SidesOk(threads, v)
    ensures Waiting(threads, v.receivers.waiting) && Waiting(threads, v.senders.waiting)
  {}

  // Those sent away first are not touched by what happens to the others.
  lemma StaySentAway(before: map<Tid, Thread>, after: map<Tid, Thread>, gone: seq<Tid>, waiters: seq<Tid>, current: Option<Tid>)
    requires Expelled(before, after, waiters, [], current)
    requires forall t :: t in gone ==> SentAway(before, t, ERROR)
    ensures forall t :: t in gone ==> SentAway(after, t, ERROR)
  {
    forall t | t in gone ensures SentAway(after, t, ERROR) {
      assert SentAway(before, t, ERROR);
    }
  }

  lemma TwiceExpelled(a: map<Tid, Thread>, b: map<Tid, Thread>, c: map<Tid, Thread>, rs: seq<Tid>, ss: seq<Tid>, current: Option<Tid>)
    requires Expelled(a, b, rs, [], current) && Expelled(b, c, ss, [], current)
    ensures SameExcept(a, c, Members(rs + ss))
  {}

  // An error makes no difference to a thread's place in a list, or to its sleep.
  lemma ErrorOnly(threads: map<Tid, Thread>, t: Tid, flag: Flag, ws: seq<Tid>, w: seq<Tid>)
    requires t in threads && Queued(flag, threads[t := threads[t].(error := EOK)], ws, t, w)
    ensures Queued(flag, threads, ws, t, w)
  {
    QueuedSame(threads[t := threads[t].(error := EOK)], threads, flag, ws, t, w);
  }

  lemma CleanSleep(a: State, t: Tid, x: Thread, b: State)
    requires PutToSleep(WithThread(a, t, x), t, x, b)
    ensures PutToSleep(a, t, x, b)
  {
    assert a.threads[t := x][t := x] == a.threads[t := x];
  }

  lemma NobodyYet(threads: map<Tid, Thread>, ns: Nodes, bodies: seq<Body>, max: nat, size: nat)
    requires bodies == seq(max, _ => seq(size, _ => 0))
    ensures Sized(bodies, max, size) && SidesOk(threads, View(ns, bodies, Side([], {}), Side([], {})))
  {}

  // A running thread that has looked waits on neither side.
  lemma Unlisted(threads: map<Tid, Thread>, v: View, t: Tid)
    requires SidesOk(threads, v) && t in threads && threads[t].stat == Running
    requires t !in v.receivers.woken && t !in v.senders.woken
    ensures !On(v.receivers, t) && !On(v.senders, t)
    ensures Waiting(threads, v.receivers.waiting) && Waiting(threads, v.senders.waiting)
  {}

  lemma StrangerChanges(threads: map<Tid, Thread>, v: View, t: Tid, x: Thread)
    requires SidesOk(threads, v) && !On(v.receivers, t) && !On(v.senders, t)
    ensures SidesOk(threads[t := x], v)
  {
    Bystander(threads, v.receivers, |v.nodes.queue|, t, x);
    Bystander(threads, v.senders, |v.nodes.free|, t, x);
    hide SideOk, Apart;
  }

  lemma SenderLooks(threads: map<Tid, Thread>, v: View, t: Tid)
    requires SidesOk(threads, v)
    ensures v.nodes.free != [] ==> SideOk(threads, Looked(v.senders, t), |v.nodes.free| - 1)
    ensures v.nodes.free == [] ==> SidesOk(threads, v.(senders := Looked(v.senders, t)))
    ensures Apart(v.receivers, Looked(v.senders, t))
  {
    ApartSymmetric(v.receivers, v.senders);
    FewerApart(v.senders, v.receivers, Looked(v.senders, t));
    ApartSymmetric(Looked(v.senders, t), v.receivers);
    if v.nodes.free != [] {
      LookTakes(threads, v.senders, |v.nodes.free|, t);
    } else {
      LookFails(threads, v.senders, t);
    }
  }

  lemma SenderJoins(threads: map<Tid, Thread>, v: View, t: Tid, w: seq<Tid>)
    requires SidesOk(threads, v) && !On(v.receivers, t) && !On(v.senders, t) && v.nodes.free == []
    requires t in threads && threads[t].error == EOK
    requires Waiting(threads[t := threads[t].(stat := Suspended)], w) && forall x :: x in w <==> x == t || x in v.senders.waiting
    ensures SidesOk(threads[t := threads[t].(stat := Suspended)], v.(senders := v.senders.(waiting := w)))
  {
    Bystander(threads, v.receivers, |v.nodes.queue|, t, threads[t].(stat := Suspended));
    Rejoins(threads, v.senders, t, w);
    ApartSymmetric(v.receivers, v.senders);
    JoinApart(v.senders, v.receivers, t, w);
    ApartSymmetric(v.senders.(waiting := w), v.receivers);
    hide SideOk, Apart;
  }

  lemma WaitingOf(threads: map<Tid, Thread>, side: Side, stock: nat)
    requires SideOk(threads, side, stock)
    ensures Waiting(threads, side.waiting)
  {}

  // A message has come and the first receiver is awake.
  lemma ReceiverServed(threads: map<Tid, Thread>, v: View, stat: Stat, after: Nodes)
    requires SidesOk(threads, v) && v.receivers.waiting != [] && stat != Suspended
    requires |after.queue| == |v.nodes.queue| + 1 && after.free == v.nodes.free
    ensures var t := v.receivers.waiting[0];
            t in threads && SidesOk(threads[t := threads[t].(stat := stat)], v.(nodes := after, receivers := Served(v.receivers)))
  {
    var t := v.receivers.waiting[0];
    ServeOne(threads, v.receivers, |v.nodes.queue|, stat);
    ServedApart(v.receivers, v.senders);
    assert On(v.receivers, t);
    Bystander(threads, v.senders, |v.nodes.free|, t, threads[t].(stat := stat));
    hide SideOk, Apart, Served;
  }

  // A node has become free and the first sender is awake.
  lemma SenderServed(threads: map<Tid, Thread>, v: View, stat: Stat, after: Nodes)
    requires SidesOk(threads, v) && v.senders.waiting != [] && stat != Suspended
    requires |after.free| == |v.nodes.free| + 1 && after.queue == v.nodes.queue
    ensures var t := v.senders.waiting[0];
            t in threads && SidesOk(threads[t := threads[t].(stat := stat)], v.(nodes := after, senders := Served(v.senders)))
  {
    var t := v.senders.waiting[0];
    ServeOne(threads, v.senders, |v.nodes.free|, stat);
    ApartSymmetric(v.receivers, v.senders);
    ServedApart(v.senders, v.receivers);
    ApartSymmetric(Served(v.senders), v.receivers);
    assert On(v.senders, t);
    Bystander(threads, v.receivers, |v.nodes.queue|, t, threads[t].(stat := stat));
    hide SideOk, Apart, Served;
  }

  lemma ReceiverLooks(threads: map<Tid, Thread>, v: View, t: Tid)
    requires SidesOk(threads, v)
    ensures v.nodes.queue != [] ==> SideOk(threads, Looked(v.receivers, t), |v.nodes.queue| - 1)
    ensures v.nodes.queue == [] ==> SidesOk(threads, v.(receivers := Looked(v.receivers, t)))
    ensures Apart(Looked(v.receivers, t), v.senders)
  {
    FewerApart(v.receivers, v.senders, Looked(v.receivers, t));
    if v.nodes.queue != [] {
      LookTakes(threads, v.receivers, |v.nodes.queue|, t);
    } else {
      LookFails(threads, v.receivers, t);
    }
  }

  lemma ReceiverJoins(threads: map<Tid, Thread>, v: View, t: Tid, w: seq<Tid>)
    requires SidesOk(threads, v) && !On(v.receivers, t) && !On(v.senders, t) && v.nodes.queue == []
    requires t in threads && threads[t].error == EOK
    requires Waiting(threads[t := threads[t].(stat := Suspended)], w) && forall x :: x in w <==> x == t || x in v.receivers.waiting
    ensures SidesOk(threads[t := threads[t].(stat := Suspended)], v.(receivers := v.receivers.(waiting := w)))
  {
    Bystander(threads, v.senders, |v.nodes.free|, t, threads[t].(stat := Suspended));
    Rejoins(threads, v.receivers, t, w);
    JoinApart(v.receivers, v.senders, t, w);
    hide SideOk, Apart;
  }

  lemma RoomToLink(l: Links, ns: Nodes, max: nat, n: Node)
    requires PoolOk(l, ns, max) && n in ns.sending
    ensures |ns.queue| < max
  {
    InFlightLeavesRoom(ns, max, n);
  }

  lemma LinksBound(l: Links, ns: Nodes, max: nat)
    requires PoolOk(l, ns, max)
    ensures |l.next| == max
  {}

  lemma WaitsKeep(before: map<Tid, Thread>, after: map<Tid, Thread>, v: View)
    requires SidesOk(before, v) && SameWaits(before, after)
    ensures SidesOk(after, v)
  {
    SideFrame(before, after, v.receivers, |v.nodes.queue|);
    SideFrame(before, after, v.senders, |v.nodes.free|);
    hide SideOk, Apart;
  }

  lemma ReceiverLeaves(threads: map<Tid, Thread>, v: View, t: Tid, x: Thread, w: seq<Tid>)
    requires SidesOk(threads, v) && t in v.receivers.waiting
    requires Waiting(threads[t := x], w) && forall y :: y in w <==> y in v.receivers.waiting && y != t
    ensures SidesOk(threads[t := x], v.(receivers := v.receivers.(waiting := w)))
  {
    assert On(v.receivers, t);
    WaiterLeaves(threads, v.receivers, |v.nodes.queue|, t, x, w);
    Bystander(threads, v.senders, |v.nodes.free|, t, x);
    FewerApart(v.receivers, v.senders, v.receivers.(waiting := w));
    hide SideOk, Apart;
  }

  lemma SenderLeaves(threads: map<Tid, Thread>, v: View, t: Tid, x: Thread, w: seq<Tid>)
    requires SidesOk(threads, v) && t in v.senders.waiting
    requires Waiting(threads[t := x], w) && forall y :: y in w <==> y in v.senders.waiting && y != t
    ensures SidesOk(threads[t := x], v.(senders := v.senders.(waiting := w)))
  {
    assert On(v.senders, t);
    WaiterLeaves(threads, v.senders, |v.nodes.free|, t, x, w);
    Bystander(threads, v.receivers, |v.nodes.queue|, t, x);
    ApartSymmetric(v.receivers, v.senders);
    FewerApart(v.senders, v.receivers, v.senders.(waiting := w));
    ApartSymmetric(v.senders.(waiting := w), v.receivers);
    hide SideOk, Apart;
  }

  lemma ReceiversGone(before: map<Tid, Thread>, after: map<Tid, Thread>, v: View, current: Option<Tid>)
    requires SidesOk(before, v) && Expelled(before, after, v.receivers.waiting, [], current)
    ensures SidesOk(after, v.(receivers := v.receivers.(waiting := [])))
  {
    AllLeave(before, after, v.receivers, |v.nodes.queue|, |v.nodes.queue|, current);
    ApartSymmetric(v.receivers, v.senders);
    OthersLeave(before, after, v.senders, v.receivers, |v.nodes.free|, current);
    FewerApart(v.receivers, v.senders, v.receivers.(waiting := []));
    hide SideOk, Apart;
  }

  lemma SendersGone(before: map<Tid, Thread>, after: map<Tid, Thread>, v: View, current: Option<Tid>)
    requires SidesOk(before, v) && v.receivers.waiting == [] && Expelled(before, after, v.senders.waiting, [], current)
    ensures forall ns, bs :: SidesOk(after, View(ns, bs, v.receivers, v.senders.(waiting := [])))
  {
    forall ns, bs ensures SidesOk(after, View(ns, bs, v.receivers, v.senders.(waiting := []))) {
      AllLeave(before, after, v.senders, |v.nodes.free|, |ns.free|, current);
      OthersLeave(before, after, v.receivers, v.senders, |v.nodes.queue|, current);
      ServeAnything(after, v.receivers, |v.nodes.queue|, |ns.queue|);
      ApartSymmetric(v.receivers, v.senders);
      FewerApart(v.senders, v.receivers, v.senders.(waiting := []));
      ApartSymmetric(v.senders.(waiting := []), v.receivers);
    }
  }

  lemma ServeAnything(threads: map<Tid, Thread>, side: Side, stock: nat, any: nat)
    requires SideOk(threads, side, stock) && side.waiting == []
    ensures SideOk(threads, side, any)
  {}
}
