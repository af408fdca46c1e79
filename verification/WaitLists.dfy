/** The suspended-thread list of an IPC object: _ipc_list_suspend,
    _ipc_list_resume, _ipc_list_resume_all and the timeout of a waiter. */
module WaitLists {
  import opened Bytes
  import opened Lists
  import opened Scheduling

  // RT_IPC_FLAG_FIFO and RT_IPC_FLAG_PRIO.
  datatype Flag = Fifo | ByPriority

  ghost function Prio(threads: map<Tid, Thread>, t: Tid): nat {
    if t in threads then threads[t].priority else PRIORITIES
  }

  ghost predicate Sorted(threads: map<Tid, Thread>, waiters: seq<Tid>) {
    forall i, j :: 0 <= i < j < |waiters| ==> Prio(threads, waiters[i]) <= Prio(threads, waiters[j])
  }

  ghost predicate Waiting(threads: map<Tid, Thread>, waiters: seq<Tid>) {
    NoDup(waiters) && forall t :: t in waiters ==> t in threads && threads[t].stat == Suspended
  }

  // Waiters, each once, all suspended, most urgent first.
  ghost predicate WaitList(threads: map<Tid, Thread>, waiters: seq<Tid>) {
    Waiting(threads, waiters) && Sorted(threads, waiters)
  }

  // Where _ipc_list_suspend puts a thread with the PRIO flag: before the first
  // waiter that is strictly less urgent.
  ghost predicate Place(threads: map<Tid, Thread>, waiters: seq<Tid>, p: nat, i: nat) {
    && i <= |waiters|
    && (forall j :: 0 <= j < i ==> Prio(threads, waiters[j]) <= p)
    && (i < |waiters| ==> p < Prio(threads, waiters[i]))
  }

  lemma SortedJoin(threads: map<Tid, Thread>, w: seq<Tid>, t: Tid, i: nat)
    requires Sorted(threads, w) && t in threads && Place(threads, w, threads[t].priority, i)
    ensures Sorted(threads, w[..i] + [t] + w[i..])
  {
    var r := w[..i] + [t] + w[i..];
    assert forall j {:trigger r[j]} :: 0 <= j < |r| ==> r[j] == if j < i then w[j] else if j == i then t else w[j - 1];
  }

  lemma SortedLeave(threads: map<Tid, Thread>, w: seq<Tid>, k: nat)
    requires Sorted(threads, w) && k < |w|
    ensures Sorted(threads, w[..k] + w[k + 1..])
  {
    var r := w[..k] + w[k + 1..];
    assert forall j {:trigger r[j]} :: 0 <= j < |r| ==> r[j] == if j < k then w[j] else w[j + 1];
  }

  lemma SortedSame(a: map<Tid, Thread>, b: map<Tid, Thread>, w: seq<Tid>)
    requires Sorted(a, w) && forall t :: t in w ==> Prio(a, t) == Prio(b, t)
    ensures Sorted(b, w)
  {}

  // Which waiter stands at place j once t has come in at place i; |w| for t.
  function Came(w: seq<Tid>, i: nat, j: nat): nat {
    if j < i then j else if j == i then |w| else j - 1
  }

  lemma JoinAt(w: seq<Tid>, t: Tid, i: nat, j: nat)
    requires i <= |w| && j <= |w|
    ensures var r := w[..i] + [t] + w[i..];
            |r| == |w| + 1 && Came(w, i, j) <= |w| && r[j] == (w + [t])[Came(w, i, j)]
  {}

  lemma JoinNoDup(w: seq<Tid>, t: Tid, i: nat)
    requires NoDup(w) && t !in w && i <= |w|
    ensures NoDup(w[..i] + [t] + w[i..])
  {
    var r := w[..i] + [t] + w[i..];
    assert NoDup(w + [t]);
    forall j, k | 0 <= j < k < |r| ensures r[j] != r[k] {
      JoinAt(w, t, i, j);
      JoinAt(w, t, i, k);
    }
  }

  lemma JoinMembers(w: seq<Tid>, t: Tid, i: nat)
    requires NoDup(w) && t !in w && i <= |w|
    ensures NoDup(w[..i] + [t] + w[i..])
    ensures forall x :: x in w[..i] + [t] + w[i..] <==> x == t || x in w
  {
    hide NoDup;
    JoinNoDup(w, t, i);
    assert w == w[..i] + w[i..];
  }

  // A running thread joins the list.
  lemma JoinWaitList(threads: map<Tid, Thread>, waiters: seq<Tid>, t: Tid, i: nat)
    requires WaitList(threads, waiters) && t in threads && t !in waiters
    requires Place(threads, waiters, threads[t].priority, i)
    ensures var threads' := threads[t := threads[t].(stat := Suspended)];
            WaitList(threads', waiters[..i] + [t] + waiters[i..])
    ensures forall x :: x in waiters[..i] + [t] + waiters[i..] <==> x == t || x in waiters
  {
    hide NoDup;
    JoinMembers(waiters, t, i);
    SortedJoin(threads, waiters, t, i);
    hide Sorted;
    SortedSame(threads, threads[t := threads[t].(stat := Suspended)], waiters[..i] + [t] + waiters[i..]);
  }

  lemma {:induction false} WithoutAt(s: seq<Tid>, t: Tid) returns (k: nat)
    requires t in s
    ensures k < |s| && s[k] == t && Without(s, t) == s[..k] + s[k + 1..]
  {
    if s[0] == t {
      k := 0;
    } else {
      var k' := WithoutAt(s[1..], t);
      k := k' + 1;
      assert s[..k] == [s[0]] + s[1..][..k'];
    }
  }

  // A waiter leaves the list, whatever becomes of it.
  lemma LeaveWaitList(threads: map<Tid, Thread>, waiters: seq<Tid>, t: Tid, x: Thread)
    requires WaitList(threads, waiters) && t in waiters
    ensures WaitList(threads[t := x], Without(waiters, t))
    ensures forall y :: y in Without(waiters, t) <==> y in waiters && y != t
  {
    WithoutMembers(waiters, t);
    var k := WithoutAt(waiters, t);
    SortedLeave(threads, waiters, k);
    hide NoDup, Sorted, Without;
    SortedSame(threads, threads[t := x], Without(waiters, t));
  }

  // A thread has joined the list: at the end, or at its place by priority.
  ghost predicate Queued(flag: Flag, threads: map<Tid, Thread>, waiters: seq<Tid>, t: Tid, w: seq<Tid>) {
    && (flag == Fifo ==> w == waiters + [t])
    && (flag == ByPriority ==>
          exists i: nat :: Place(threads, waiters, Prio(threads, t), i) && w == waiters[..i] + [t] + waiters[i..])
  }

  lemma QueuedSame(a: map<Tid, Thread>, b: map<Tid, Thread>, flag: Flag, waiters: seq<Tid>, t: Tid, w: seq<Tid>)
    requires Queued(flag, a, waiters, t, w) && forall x :: x in waiters || x == t ==> Prio(a, x) == Prio(b, x)
    ensures Queued(flag, b, waiters, t, w)
  {
    if flag == ByPriority {
      var i: nat :| Place(a, waiters, Prio(a, t), i) && w == waiters[..i] + [t] + waiters[i..];
      assert Place(b, waiters, Prio(b, t), i);
    }
  }

  method SuspendOn(k: Kernel, waiters: seq<Tid>, t: Tid, flag: Flag) returns (w: seq<Tid>)
    requires k.Valid() && k.current == Some(t) && k.threads[t].stat == Running
    requires Waiting(k.threads, waiters) && t !in waiters
    modifies k
    ensures k.Valid() && k.current == old(k.current) && k.lockNest == old(k.lockNest)
    ensures t in old(k.threads) && old(k.threads)[t].priority < |old(k.ready)| && k.Now() == SuspendedBy(old(k.Now()), t)
    ensures k.threads == old(k.threads)[t := old(k.threads)[t].(stat := Suspended)]
    ensures Waiting(k.threads, w) && forall x :: x in w <==> x == t || x in waiters
    ensures Queued(flag, old(k.threads), waiters, t, w)
    ensures flag == ByPriority && Sorted(old(k.threads), waiters) ==> Sorted(k.threads, w)
  {
    hide Queues, NoDup, Sorted, Without;
    Bounds(k.Now());
    SuspendOne(k.Now(), t);
    k.Suspend(t);
    if flag == Fifo {
      w := waiters + [t];
      JoinMembers(waiters, t, |waiters|);
      assert waiters[..|waiters|] + [t] + waiters[|waiters|..] == w;
      return;
    }
    var i := 0;
    while i < |waiters|
      invariant i <= |waiters| && forall j :: 0 <= j < i ==> Prio(old(k.threads), waiters[j]) <= old(k.threads)[t].priority
    {
      if k.threads[t].priority < k.threads[waiters[i]].priority {
        break;
      }
      i := i + 1;
    }
    w := waiters[..i] + [t] + waiters[i..];
    JoinMembers(waiters, t, i);
    if Sorted(old(k.threads), waiters) {
      JoinWaitList(old(k.threads), waiters, t, i);
    }
  }

  function Members(ws: seq<Tid>): set<Tid> {
    set t | t in ws
  }

  // The first waiter, if any, has been resumed.
  ghost predicate WokeFirst(a: State, ws: seq<Tid>, b: State) {
    if ws == [] then b == a
    else ws[0] in a.threads && a.threads[ws[0]].priority < |a.ready| && b == Resumed(a, ws[0])
  }

  // And then the scheduler has chosen again; nothing at all with nobody waiting.
  ghost predicate WokeAndChose(a: Config, ws: seq<Tid>, b: Config) {
    if ws == [] then b == a
    else
      && ws[0] in a.s.threads && a.s.threads[ws[0]].priority < |a.s.ready| && Coherent(Resumed(a.s, ws[0]))
      && b == a.(s := Rescheduled(Resumed(a.s, ws[0]), a.nest))
  }

  // Thread t, left as x, has been suspended.
  ghost predicate PutToSleep(a: State, t: Tid, x: Thread, b: State) {
    x.priority < |a.ready| && b == SuspendedBy(WithThread(a, t, x), t)
  }

  // _ipc_list_resume.
  method ResumeFirst(k: Kernel, waiters: seq<Tid>) returns (w: seq<Tid>)
    requires k.Valid() && Waiting(k.threads, waiters) && waiters != []
    modifies k
    ensures k.Valid() && k.current == old(k.current) && k.lockNest == old(k.lockNest)
    ensures w == waiters[1..] && Waiting(k.threads, w) && waiters[0] !in w
    ensures waiters[0] in old(k.threads) && old(k.threads)[waiters[0]].priority < |old(k.ready)| && k.Now() == Resumed(old(k.Now()), waiters[0])
    ensures k.threads == old(k.threads)[waiters[0] := old(k.threads)[waiters[0]].(stat := Awake(k.current, waiters[0]))]
    ensures Sorted(old(k.threads), waiters) ==> Sorted(k.threads, w)
  {
    var t := waiters[0];
    w := waiters[1..];
    Bounds(k.Now());
    FirstLeaves(k.threads, waiters, k.threads[t].(stat := Awake(k.current, t)));
    hide Queues, NoDup, Sorted;
    ResumeOne(k.Now(), t);
    k.Resume(t);
  }

  // The state a resumed thread goes to.
  function Awake(current: Option<Tid>, t: Tid): Stat {
    if current == Some(t) then Running else Ready
  }

  lemma FirstLeaves(threads: map<Tid, Thread>, waiters: seq<Tid>, x: Thread)
    requires Waiting(threads, waiters) && waiters != [] && x.priority == threads[waiters[0]].priority
    ensures Waiting(threads[waiters[0] := x], waiters[1..]) && waiters[0] !in waiters[1..]
    ensures Sorted(threads, waiters) ==> Sorted(threads[waiters[0] := x], waiters[1..])
  {
    assert forall i :: 0 <= i < |waiters[1..]| ==> waiters[1..][i] == waiters[i + 1];
  }

  // Those of `waiters` that are no longer in `left` have been woken with an
  // error; everything else about the threads is as before.
  ghost predicate Expelled(before: map<Tid, Thread>, after: map<Tid, Thread>, waiters: seq<Tid>, left: seq<Tid>, current: Option<Tid>) {
    && after.Keys == before.Keys
    && (forall t :: t in before && (t !in waiters || t in left) ==> after[t] == before[t])
    && (forall t :: t in left ==> t in waiters)
    && (forall t :: t in waiters && t !in left ==> t in before && after[t] == before[t].(error := ERROR, stat := Awake(current, t)))
  }

  lemma ExpelOne(before: map<Tid, Thread>, now: map<Tid, Thread>, waiters: seq<Tid>, left: seq<Tid>, current: Option<Tid>)
    requires Expelled(before, now, waiters, left, current) && NoDup(left) && left != [] && left[0] in now
    ensures var t := left[0];
            Expelled(before, now[t := now[t].(error := ERROR, stat := Awake(current, t))], waiters, left[1..], current)
  {
    assert forall t :: t in left[1..] <==> t in left && t != left[0] by {
      assert forall i :: 0 <= i < |left[1..]| ==> left[1..][i] == left[i + 1];
      assert left == [left[0]] + left[1..];
    }
  }

  // _ipc_list_resume_all: everybody leaves with an error.
  method ResumeAll(k: Kernel, waiters: seq<Tid>)
    requires k.Valid() && Waiting(k.threads, waiters)
    modifies k
    ensures k.Valid() && k.current == old(k.current) && k.lockNest == old(k.lockNest)
    ensures Expelled(old(k.threads), k.threads, waiters, [], k.current)
  {
    hide Coherent, Sorted, Expelled;
    var w := waiters;
    assert Expelled(k.threads, k.threads, waiters, w, k.current) by {
      ExpelNone(k.threads, waiters, k.current);
    }
    while w != []
      invariant k.Valid() && k.current == old(k.current) && k.lockNest == old(k.lockNest)
      invariant Waiting(k.threads, w)
      invariant Expelled(old(k.threads), k.threads, waiters, w, k.current)
      decreases |w|
    {
      var t := w[0];
      ghost var now := k.threads;
      ExpelOne(old(k.threads), now, waiters, w, k.current);
      k.SetError(t, ERROR);
      w := ResumeFirst(k, w);
      assert k.threads == now[t := now[t].(error := ERROR, stat := Awake(k.current, t))];
    }
  }

  lemma ExpelNone(threads: map<Tid, Thread>, waiters: seq<Tid>, current: Option<Tid>)
    ensures Expelled(threads, threads, waiters, waiters, current)
  {}

  // A thread that had waited has been let go, and finds e as its error.
  ghost predicate SentAway(threads: map<Tid, Thread>, t: Tid, e: Error) {
    t in threads && threads[t].stat != Suspended && threads[t].error == e
  }

  lemma ExpelledSentAway(before: map<Tid, Thread>, after: map<Tid, Thread>, waiters: seq<Tid>, current: Option<Tid>)
    requires Expelled(before, after, waiters, [], current)
    ensures forall t :: t in waiters ==> SentAway(after, t, ERROR)
  {}

  lemma StillSentAway(a: map<Tid, Thread>, b: map<Tid, Thread>, ts: seq<Tid>, e: Error)
    requires SameWaits(a, b) && forall t :: t in ts ==> SentAway(a, t, e)
    ensures forall t :: t in ts ==> SentAway(b, t, e)
  {}

  // The timer of a waiter fires.
  method TimeOut(k: Kernel, waiters: seq<Tid>, t: Tid) returns (w: seq<Tid>)
    requires k.Valid() && Waiting(k.threads, waiters) && t in waiters
    modifies k
    ensures k.Valid() && k.current == old(k.current) && k.lockNest == old(k.lockNest)
    ensures t in old(k.threads) && k.Now() == TimedOut(old(k.Now()), t)
    ensures k.threads == old(k.threads)[t := old(k.threads)[t].(error := ETIMEOUT, stat := Awake(k.current, t))]
    ensures Waiting(k.threads, w) && w == Without(waiters, t) && forall x :: x in w <==> x in waiters && x != t
    ensures Sorted(old(k.threads), waiters) ==> Sorted(k.threads, w)
  {
    w := Without(waiters, t);
    WithoutMembers(waiters, t);
    if Sorted(k.threads, waiters) {
      LeaveWaitList(k.threads, waiters, t, k.threads[t].(error := ETIMEOUT, stat := Awake(k.current, t)));
    }
    hide Queues, NoDup, Sorted, Without;
    k.WakeByTimeout(t);
  }
}
