/** rt_mutex_*: ownership, nesting and priority inheritance. Assumes what the
    design assumes: a thread holds at most one mutex and nothing else changes the
    priority of its owner or of its waiters. */
module Mutexes {
  import opened Bytes
  import opened Lists
  import opened Scheduling
  import opened WaitLists

  const HOLD_MAX := 255
  const VALUE_MAX := 65535
  const NO_PRIORITY := 0xff

  datatype Lock = Lock(value: nat, hold: nat, owner: Option<Tid>, original: nat)

  // Free and unheld, or owned by a thread that is at least as urgent as every
  // waiter and as it was itself when it took the mutex. No waiter has an error yet.
  ghost predicate MutexOk(threads: map<Tid, Thread>, l: Lock, waiters: seq<Tid>) {
    && WaitList(threads, waiters) && (forall t :: t in waiters ==> t in threads && threads[t].error == EOK)
    && (l.owner == None <==> l.value == 1) && (l.owner == None <==> l.hold == 0)
    && l.value <= 1 && l.hold <= HOLD_MAX
    && (l.owner == None ==> waiters == [] && l.original == NO_PRIORITY)
    && (l.owner.Some? ==>
          && l.owner.value in threads && l.owner.value !in waiters
          && l.original < PRIORITIES && threads[l.owner.value].priority <= l.original
          && forall t :: t in waiters ==> threads[l.owner.value].priority <= Prio(threads, t))
  }

  // Activity that wakes no waiter and leaves the priorities of the owner and of
  // the waiters alone does no harm.
  lemma MutexFrame(a: map<Tid, Thread>, b: map<Tid, Thread>, l: Lock, waiters: seq<Tid>)
    requires MutexOk(a, l, waiters)
    requires l.owner.Some? ==> l.owner.value in a && l.owner.value in b && b[l.owner.value].priority == a[l.owner.value].priority
    requires forall t :: t in waiters ==>
               t in a && t in b && b[t].stat == Suspended && b[t].priority == a[t].priority && b[t].error == a[t].error
    ensures MutexOk(b, l, waiters)
  {
    hide NoDup;
    SortedSame(a, b, waiters);
  }

  // The owner has the more urgent of its own priority and the newcomer's.
  ghost predicate Inherits(before: map<Tid, Thread>, after: map<Tid, Thread>, o: Tid, t: Tid) {
    && o in before && t in before && o in after
    && after[o].priority == if before[t].priority < before[o].priority then before[t].priority else before[o].priority
  }

  datatype Outcome = Taken | Full | TimedOut | Blocked

  // ---------- how each branch changes the invariant's view ----------

  // The owner is raised to the priority of a more urgent arrival.
  lemma Boosted(threads: map<Tid, Thread>, l: Lock, waiters: seq<Tid>, p: nat)
    requires MutexOk(threads, l, waiters) && l.owner.Some? && p <= threads[l.owner.value].priority
    ensures var o := l.owner.value;
            MutexOk(threads[o := threads[o].(priority := p)], l, waiters)
  {
    hide NoDup;
    var o := l.owner.value;
    SortedSame(threads, threads[o := threads[o].(priority := p)], waiters);
  }

  // A thread no more urgent than the owner has joined the list.
  lemma Joined(threads: map<Tid, Thread>, threads': map<Tid, Thread>, l: Lock, waiters: seq<Tid>, w: seq<Tid>, t: Tid)
    requires MutexOk(threads, l, waiters) && l.owner.Some? && t in threads && l.owner != Some(t)
    requires threads[l.owner.value].priority <= threads[t].priority
    requires threads' == threads[t := threads[t].(stat := Suspended)] && threads[t].error == EOK
    requires WaitList(threads', w) && forall x :: x in w <==> x == t || x in waiters
    ensures MutexOk(threads', l, w)
  {
    hide NoDup, Sorted;
    assert waiters == [] ==> t in w;
  }

  // The outermost release hands the mutex to the most urgent waiter, whose own
  // priority becomes the one to go back to.
  lemma Handed(threads: map<Tid, Thread>, l: Lock, waiters: seq<Tid>, o: Tid, stat: Stat)
    requires MutexOk(threads, l, waiters) && l.owner == Some(o) && waiters != []
    requires forall t :: t in threads ==> threads[t].priority < PRIORITIES
    ensures var n := waiters[0];
            var restored := threads[o := threads[o].(priority := l.original)];
            n in restored && n != o
            && MutexOk(restored[n := restored[n].(stat := stat)], Lock(l.value, 1, Some(n), threads[n].priority), waiters[1..])
  {
    var n := waiters[0];
    assert n in waiters;
    var restored := threads[o := threads[o].(priority := l.original)];
    SortedSame(threads, restored, waiters);
    FirstLeaves(restored, waiters, restored[n].(stat := stat));
    assert forall t :: t in waiters[1..] ==> t in waiters;
    forall t | t in waiters[1..] ensures Prio(threads, n) <= Prio(threads, t) {
      var i :| 0 <= i < |waiters[1..]| && waiters[1..][i] == t;
      assert waiters[i + 1] == t;
    }
    hide NoDup, Sorted;
  }

  // A waiter gives up; the owner keeps whatever priority it was given.
  lemma GaveUp(threads: map<Tid, Thread>, l: Lock, waiters: seq<Tid>, t: Tid, x: Thread)
    requires MutexOk(threads, l, waiters) && t in waiters && x.priority == threads[t].priority
    ensures MutexOk(threads[t := x], l, Without(waiters, t))
  {
    LeaveWaitList(threads, waiters, t, x);
    hide NoDup, Sorted, Without;
  }

  class Mutex {
    const k: Kernel
    var value: nat
    var hold: nat
    var owner: Option<Tid>
    var original: nat
    var waiters: seq<Tid>

    ghost function Fields(): Lock
      reads this
    {
      Lock(value, hold, owner, original)
    }

    ghost predicate Valid()
      reads this, k
    {
      k.Valid() && MutexOk(k.threads, Fields(), waiters)
    }

    ghost function Shot(): Snap
      reads this, k
    {
      Snap(Fields(), waiters, Config(k.Now(), k.lockNest))
    }

    // rt_mutex_init.
    constructor (k: Kernel)
      requires k.Valid()
      ensures Valid() && this.k == k && owner == None && waiters == []
    {
      this.k := k;
      value, hold, owner, original, waiters := 1, 0, None, NO_PRIORITY, [];
    }

    ghost predicate Runs(t: Tid)
      reads this, k
    {
      k.current == Some(t) && t in k.threads && k.threads[t].stat == Running
    }

    // rt_mutex_take up to the point where the thread has the mutex, is refused,
    // or is on the wait list and the scheduler has chosen another.
    method Take(t: Tid, timeout: int) returns (r: Outcome)
      requires Valid() && Runs(t)
      modifies this, k
      ensures Valid()
      // again by the owner: one level deeper, up to 255
      ensures old(owner) == Some(t) ==> owner == Some(t) && original == old(original) && waiters == old(waiters)
      ensures old(owner) == Some(t) ==> if old(hold) < HOLD_MAX then r == Taken && hold == old(hold) + 1 else r == Full && hold == old(hold)
      // free: taken, and the priority to go back to is the taker's own
      ensures old(owner) == None ==> r == Taken && owner == Some(t) && hold == 1 && waiters == []
      ensures old(owner) == None ==> t in old(k.threads) && original == old(k.threads)[t].priority
      // held by another: refused or waiting
      ensures old(owner).Some? && old(owner) != Some(t) ==> Fields() == old(Fields())
      ensures old(owner).Some? && old(owner) != Some(t) && timeout == 0 ==> r == TimedOut && waiters == old(waiters)
      ensures old(owner).Some? && old(owner) != Some(t) && timeout != 0 ==> r == Blocked && forall x :: x in waiters <==> x == t || x in old(waiters)
      ensures old(owner).Some? && old(owner) != Some(t) && timeout != 0 ==> Inherits(old(k.threads), k.threads, old(owner).value, t)
      // a call that does not wait touches nothing but the caller's error; one that
      // does raises the owner if need be and gives the processor away
      ensures t in old(k.threads)
      ensures r != Blocked ==>
                Shot().c == old(Shot().c).(s := WithThread(old(k.Now()), t, old(k.threads)[t].(error := if r == TimedOut then ETIMEOUT else EOK)))
      ensures r == Blocked ==> Queued(ByPriority, old(k.threads), old(waiters), t, waiters)
      ensures r == Blocked ==>
                owner.Some? && Blocking(old(Shot().c).(s := WithThread(old(k.Now()), t, old(k.threads)[t].(error := EOK))), t, owner.value, Shot().c)
    {
      hide Coherent, NoDup, Sorted, Blocking, Queued;
      OwnerFacts(k.threads, Fields(), waiters);
      k.SetError(t, EOK);
      ErrorFrame(old(k.threads), Fields(), waiters, t, k.threads[t]);
      if owner == Some(t) {
        if hold < HOLD_MAX {
          hold := hold + 1;
          r := Taken;
        } else {
          r := Full;
        }
      } else if value > 0 {
        KernelBounds(k.Now());
        value := value - 1;
        owner := Some(t);
        original := k.threads[t].priority;
        if hold < HOLD_MAX {
          hold := hold + 1;
          r := Taken;
        } else {
          r := Full;
        }
      } else if timeout == 0 {
        ghost var now := k.threads;
        k.SetError(t, ETIMEOUT);
        ErrorFrame(now, Fields(), waiters, t, k.threads[t]);
        assert k.threads == old(k.threads)[t := old(k.threads)[t].(error := ETIMEOUT)];
        r := TimedOut;
      } else {
        ghost var now, ws := k.threads, waiters;
        Block(t);
        QueuedSame(now, old(k.threads), ByPriority, ws, t, waiters);
        r := Blocked;
      }
    }

    method Block(t: Tid)
      requires Valid() && Runs(t) && owner.Some? && owner != Some(t) && k.threads[t].error == EOK
      modifies `waiters, k
      ensures Valid() && forall x :: x in waiters <==> x == t || x in old(waiters)
      ensures Inherits(old(k.threads), k.threads, owner.value, t)
      ensures Queued(ByPriority, old(k.threads), old(waiters), t, waiters)
      ensures Blocking(old(Shot().c), t, owner.value, Shot().c)
    {
      hide Coherent, NoDup, Sorted, Queued, Reprioritized, SuspendedBy, Rescheduled, MutexOk;
      OwnerFacts(k.threads, Fields(), waiters);
      ghost var c := Shot().c;
      var o := owner.value;
      KernelBounds(k.Now());
      if k.threads[t].priority < k.threads[o].priority {
        Boosted(k.threads, Fields(), waiters, k.threads[t].priority);
        ReprioritizeOne(k.Now(), o, k.threads[t].priority);
        k.ChangePriority(o, k.threads[t].priority);
      }
      OwnerFacts(k.threads, Fields(), waiters);
      ghost var s, now, before := k.Now(), k.threads, waiters;
      waiters := SuspendOn(k, waiters, t, ByPriority);
      QueuedSame(now, old(k.threads), ByPriority, before, t, waiters);
      Joined(now, k.threads, Fields(), before, waiters, t);
      assert s.threads[t := now[t]] == s.threads;
      ScheduleAround();
    }

    // rt_schedule, seen from here.
    method ScheduleAround()
      requires Valid() && k.current.Some?
      modifies k
      ensures Valid() && SameWaits(old(k.threads), k.threads) && k.lockNest == old(k.lockNest)
      ensures k.Now() == Rescheduled(old(k.Now()), old(k.lockNest))
    {
      hide Coherent, NoDup, Sorted;
      ghost var now := k.threads;
      SchedulingWaits(k.Now());
      k.Schedule();
      assert SameWaits(now, k.threads);
      MutexFrame(now, k.threads, Fields(), waiters);
    }

    // The first waiter owns the mutex, awake and without an error, at the priority
    // it waited with, and that is the one to go back to.
    ghost predicate HandedOver(before: seq<Tid>, threads: map<Tid, Thread>)
      requires before != []
      reads this, k
    {
      && owner == Some(before[0]) && hold == 1 && waiters == before[1..]
      && before[0] in threads && before[0] in k.threads && k.threads[before[0]].stat != Suspended
      && k.threads[before[0]].error == EOK && original == k.threads[before[0]].priority == threads[before[0]].priority
    }

    // rt_mutex_release.
    method Release(t: Tid) returns (ok: bool)
      requires Valid() && Runs(t)
      modifies this, k
      ensures Valid()
      ensures ok <==> old(owner) == Some(t)
      ensures !ok ==> Fields() == old(Fields()) && waiters == old(waiters)
      // not the outermost release
      ensures ok && old(hold) > 1 ==> hold == old(hold) - 1 && owner == Some(t) && original == old(original) && waiters == old(waiters)
      // the outermost release restores the priority held on taking it, and
      // hands the mutex to the most urgent waiter or frees it
      ensures ok && old(hold) == 1 ==> t in k.threads && k.threads[t].priority == old(original)
      ensures ok && old(hold) == 1 ==> if old(waiters) != [] then HandedOver(old(waiters), old(k.threads)) else owner == None && waiters == []
      // what it leaves of the kernel; only a hand-over reschedules
      ensures t in old(k.threads) && k.lockNest == old(k.lockNest)
      ensures !ok ==> k.Now() == WithThread(old(k.Now()), t, old(k.threads)[t].(error := ERROR))
      ensures ok && old(hold) > 1 ==> k.Now() == old(k.Now())
      ensures ok && old(hold) == 1 ==> Left(old(Shot().c), t, old(original), old(waiters), Shot().c)
    {
      hide Coherent, NoDup, Sorted, Left;
      OwnerFacts(k.threads, Fields(), waiters);
      KernelBounds(k.Now());
      if owner != Some(t) {
        k.SetError(t, ERROR);
        ErrorFrame(old(k.threads), Fields(), waiters, t, k.threads[t]);
        return false;
      }
      ok := true;
      hold := hold - 1;
      if hold == 0 {
        HandOver(t);
      }
    }

    method HandOver(t: Tid)
      requires k.Valid() && MutexOk(k.threads, Fields().(hold := 1), waiters) && owner == Some(t) && hold == 0
      requires k.current == Some(t) && k.threads[t].stat == Running
      modifies this, k
      ensures Valid()
      ensures t in k.threads && k.threads[t].priority == old(original)
      ensures if old(waiters) != [] then HandedOver(old(waiters), old(k.threads)) else owner == None && waiters == []
      ensures k.lockNest == old(k.lockNest) && Left(old(Shot().c), t, old(original), old(waiters), Shot().c)
    {
      hide Coherent, NoDup, Sorted, Reprioritized, Resumed, Rescheduled, MutexOk;
      KernelBounds(k.Now());
      OwnerFacts(k.threads, Fields().(hold := 1), waiters);
      OwnerWaits(k.threads, Fields().(hold := 1), waiters, t);
      RestorePriority(t);
      if waiters != [] {
        Handed(old(k.threads), Fields().(hold := 1), waiters, t, Awake(k.current, waiters[0]));
        PassOn(t);
      } else {
        Freed(k.threads);
        if value < VALUE_MAX {
          value := value + 1;
        } else {
          assert false;
        }
        owner := None;
        original := NO_PRIORITY;
      }
    }

    // The first waiter gets the mutex from its owner, whose priority has been restored.
    method PassOn(t: Tid)
      requires k.Valid() && Waiting(k.threads, waiters) && waiters != [] && hold == 0 && k.current == Some(t) && t in k.threads
      requires var n := waiters[0];
               n in k.threads && n != t && k.threads[n].error == EOK
               && MutexOk(k.threads[n := k.threads[n].(stat := Awake(k.current, n))], Lock(value, 1, Some(n), k.threads[n].priority), waiters[1..])
      modifies this, k
      ensures Valid() && k.lockNest == old(k.lockNest) && HandedOver(old(waiters), old(k.threads))
      ensures t in k.threads && k.threads[t].priority == old(k.threads)[t].priority
      ensures var n := old(waiters)[0];
              && n in old(k.threads) && old(k.threads)[n].priority < |old(k.ready)| && Coherent(Resumed(old(k.Now()), n))
              && k.Now() == Rescheduled(Resumed(old(k.Now()), n), old(k.lockNest))
    {
      hide Coherent, NoDup, Sorted, Resumed, Rescheduled, MutexOk;
      var n := waiters[0];
      owner := Some(n);
      original := k.threads[n].priority;
      if hold < HOLD_MAX {
        hold := hold + 1;
      } else {
        assert false;
      }
      waiters := ResumeFirst(k, waiters);
      ScheduleAround();
    }

    method RestorePriority(t: Tid)
      requires k.Valid() && t in k.threads && original < PRIORITIES
      modifies k
      ensures k.Valid() && k.current == old(k.current) && k.lockNest == old(k.lockNest)
      ensures k.threads == old(k.threads)[t := old(k.threads)[t].(priority := original)]
      ensures t in old(k.threads) && old(k.threads)[t].priority < |old(k.ready)| && original < |old(k.ready)|
      ensures k.Now() == Restored(old(k.Now()), t, original)
    {
      hide Coherent;
      KernelBounds(k.Now());
      if original != k.threads[t].priority {
        ReprioritizeOne(k.Now(), t, original);
        k.ChangePriority(t, original);
      }
    }

    // The timer of a waiter fires.
    method Expire(t: Tid)
      requires Valid() && t in waiters && k.current.Some?
      modifies this, k
      ensures Valid() && Fields() == old(Fields())
      ensures forall x :: x in waiters <==> x in old(waiters) && x != t
      ensures waiters == Without(old(waiters), t)
      ensures SentAway(k.threads, t, ETIMEOUT) && SamePriorities(old(k.threads), k.threads) && TimerFired(old(Shot().c), t, Shot().c)
    {
      hide Coherent, NoDup, Sorted, Without, Scheduling.TimedOut, Rescheduled;
      ghost var now, before := k.threads, waiters;
      GaveUp(k.threads, Fields(), waiters, t, k.threads[t].(error := ETIMEOUT, stat := Awake(k.current, t)));
      waiters := TimeOut(k, waiters, t);
      ScheduleAround();
    }

    // Whether an event is somewhere else.
    method Untouched(e: Scheduling.Event) returns (yes: bool)
      ensures yes <==> Elsewhere(Shot(), e)
    {
      yes := && (forall t :: t in Touched(State(k.threads, k.ready, k.group, k.current), e) ==> t !in waiters)
             && (e.SetPriority? ==> e.t !in waiters && owner != Some(e.t));
    }

    // Something happens elsewhere in the kernel.
    method Other(e: Scheduling.Event)
      requires Valid() && Elsewhere(Shot(), e)
      modifies k
      ensures Valid() && Shot().c == After(old(Shot().c), e)
    {
      hide Coherent, NoDup, Sorted, After;
      ghost var c := Shot().c;
      OwnerFacts(k.threads, Fields(), waiters);
      AfterOutside(c, e);
      Scheduling.RunOne(k, e);
      assert k.threads == After(c, e).s.threads;
      MutexFrame(c.s.threads, k.threads, Fields(), waiters);
    }
  }

  // The owner o is raised to a more urgent priority p.
  ghost function Raised(s: State, o: Tid, p: nat): State
    requires o in s.threads && s.threads[o].priority < |s.ready| && p < |s.ready|
  {
    if p < s.threads[o].priority then Reprioritized(s, o, p) else s
  }

  // A waiter no more urgent than the owner does nothing to it, not even to its place.
  lemma OnlyUrgencyRaises(s: State, o: Tid, p: nat)
    requires Coherent(s) && o in s.threads && s.threads[o].priority < |s.ready| && p < |s.ready|
    ensures p >= s.threads[o].priority ==> Raised(s, o, p) == s
    ensures p < s.threads[o].priority ==> Raised(s, o, p).threads == s.threads[o := s.threads[o].(priority := p)]
  {
    hide Coherent, Reprioritized;
    ReprioritizeOne(s, o, p);
  }

  // Thread t has raised the owner o if it is more urgent, and sleeps.
  ghost predicate Blocking(a: Config, t: Tid, o: Tid, b: Config) {
    && t in a.s.threads && o in a.s.threads && a.s.threads[o].priority < |a.s.ready| && a.s.threads[t].priority < |a.s.ready|
    && WentToSleep(a.(s := Raised(a.s, o, a.s.threads[t].priority)), t, a.s.threads[t], b)
  }

  ghost function Restored(s: State, t: Tid, p: nat): State
    requires t in s.threads && s.threads[t].priority < |s.ready| && p < |s.ready|
  {
    if p != s.threads[t].priority then Reprioritized(s, t, p) else s
  }

  // Thread t has its priority back; the first waiter, if any, is awake, and then
  // the scheduler has chosen again.
  ghost predicate Left(a: Config, t: Tid, original: nat, ws: seq<Tid>, b: Config) {
    && t in a.s.threads && a.s.threads[t].priority < |a.s.ready| && original < |a.s.ready|
    && var s := Restored(a.s, t, original);
       if ws == [] then b == a.(s := s)
       else
         && ws[0] in s.threads && s.threads[ws[0]].priority < |s.ready| && Coherent(Resumed(s, ws[0]))
         && b == a.(s := Rescheduled(Resumed(s, ws[0]), a.nest))
  }

  ghost predicate SamePriorities(a: map<Tid, Thread>, b: map<Tid, Thread>) {
    forall t :: t in a ==> t in b && b[t].priority == a[t].priority
  }

  // The list is as good a list when only the owner has changed.
  lemma OwnerWaits(threads: map<Tid, Thread>, l: Lock, waiters: seq<Tid>, o: Tid)
    requires MutexOk(threads, l, waiters) && l.owner == Some(o)
    ensures WaitList(threads[o := threads[o].(priority := l.original)], waiters)
  {
    hide NoDup;
    SortedSame(threads, threads[o := threads[o].(priority := l.original)], waiters);
  }

  lemma Freed(threads: map<Tid, Thread>)
    ensures MutexOk(threads, Lock(1, 0, None, NO_PRIORITY), [])
  {}

  lemma ErrorFrame(threads: map<Tid, Thread>, l: Lock, waiters: seq<Tid>, t: Tid, x: Thread)
    requires MutexOk(threads, l, waiters) && t in threads && t !in waiters && x == threads[t].(error := x.error)
    ensures MutexOk(threads[t := x], l, waiters)
  {
    hide NoDup;
    SortedSame(threads, threads[t := x], waiters);
  }

  // ---------- any run ----------

  // What can happen around a mutex: calls by the running thread, the timer of a
  // waiter, and whatever else the kernel does.
  datatype Event = CallTake(timeout: int) | CallRelease | Timer(t: Tid) | Other(e: Scheduling.Event)

  datatype Snap = Snap(lock: Lock, waiters: seq<Tid>, c: Config) {
    function Threads(): map<Tid, Thread> { c.s.threads }
    function Current(): Option<Tid> { c.s.current }
  }

  ghost predicate Acts(a: Snap) {
    a.Current().Some? && a.Current().value in a.Threads() && a.Threads()[a.Current().value].stat == Running
  }

  // The event wakes no waiter of this mutex and changes neither a waiter's
  // priority nor the owner's. The owner may sleep and wake.
  ghost predicate Elsewhere(a: Snap, e: Scheduling.Event) {
    && (forall t :: t in Touched(a.c.s, e) ==> t !in a.waiters)
    && (e.SetPriority? ==> e.t !in a.waiters && a.lock.owner != Some(e.t))
  }

  // What becomes of the mutex and of the kernel in one event.
  ghost predicate MutexStep(a: Snap, e: Event, b: Snap) {
    match e
    case CallTake(timeout) => if Acts(a) then TakeStep(a, timeout, b) else b == a
    case CallRelease => if Acts(a) then ReleaseStep(a, b) else b == a
    case Timer(t) =>
      if a.Current().Some? && t in a.waiters then
        && b.lock == a.lock && b.waiters == Without(a.waiters, t) && (forall x :: x in b.waiters <==> x in a.waiters && x != t)
        && SentAway(b.Threads(), t, ETIMEOUT) && SamePriorities(a.Threads(), b.Threads()) && TimerFired(a.c, t, b.c)
      else b == a
    case Other(e) =>
      && b.lock == a.lock && b.waiters == a.waiters
      && if Coherent(a.c.s) && Elsewhere(a, e) then b.c == After(a.c, e) else b == a
  }

  ghost function WithErrorOf(a: Snap, e: Error): Config
    requires Acts(a)
  {
    var t := a.Current().value;
    a.c.(s := WithThread(a.c.s, t, a.Threads()[t].(error := e)))
  }

  ghost predicate TakeStep(a: Snap, timeout: int, b: Snap)
    requires Acts(a)
  {
    var t := a.Current().value;
    if a.lock.owner == Some(t) then
      && b.lock == a.lock.(hold := if a.lock.hold < HOLD_MAX then a.lock.hold + 1 else a.lock.hold)
      && b.waiters == a.waiters && b.c == WithErrorOf(a, EOK)
    else if a.lock.owner == None then
      b.lock == Lock(0, 1, Some(t), a.Threads()[t].priority) && b.waiters == [] && b.c == WithErrorOf(a, EOK)
    else if timeout == 0 then
      b.lock == a.lock && b.waiters == a.waiters && b.c == WithErrorOf(a, ETIMEOUT)
    else
      && b.lock == a.lock && (forall x :: x in b.waiters <==> x == t || x in a.waiters)
      && Queued(ByPriority, a.Threads(), a.waiters, t, b.waiters)
      && Inherits(a.Threads(), b.Threads(), a.lock.owner.value, t)
      && Blocking(WithErrorOf(a, EOK), t, a.lock.owner.value, b.c)
  }

  ghost predicate ReleaseStep(a: Snap, b: Snap)
    requires Acts(a)
  {
    var t := a.Current().value;
    if a.lock.owner != Some(t) then b.lock == a.lock && b.waiters == a.waiters && b.c == WithErrorOf(a, ERROR)
    else if a.lock.hold > 1 then b == a.(lock := a.lock.(hold := a.lock.hold - 1))
    else
      && t in b.Threads() && b.Threads()[t].priority == a.lock.original && Left(a.c, t, a.lock.original, a.waiters, b.c)
      && if a.waiters == [] then b.lock == Lock(1, 0, None, NO_PRIORITY) && b.waiters == []
         else
           var n := a.waiters[0];
           && n in a.Threads() && n in b.Threads() && n != t && b.Threads()[n].stat != Suspended && b.Threads()[n].error == EOK
           && b.lock == Lock(0, 1, Some(n), a.Threads()[n].priority) && b.waiters == a.waiters[1..]
           && b.Threads()[n].priority == a.Threads()[n].priority
  }

  ghost predicate Trace(events: seq<Event>, run: seq<Snap>) {
    |run| == |events| + 1 && forall i :: 0 <= i < |events| ==> MutexStep(run[i], events[i], run[i + 1])
  }

  // As long as a thread keeps the mutex, however it nests and whoever waits,
  // boosts it or gives up, the priority to go back to stays what it was.
  lemma {:induction false} KeptWhileHeld(events: seq<Event>, run: seq<Snap>, t: Tid, i: nat, j: nat)
    requires Trace(events, run) && i <= j <= |events|
    requires forall k :: i <= k <= j ==> run[k].lock.owner == Some(t)
    ensures run[j].lock.original == run[i].lock.original
    decreases j - i
  {
    if i < j {
      KeptWhileHeld(events, run, t, i, j - 1);
      StepKeeps(run[j - 1], events[j - 1], run[j], t);
    }
  }

  lemma StepKeeps(a: Snap, e: Event, b: Snap, t: Tid)
    requires MutexStep(a, e, b) && a.lock.owner == b.lock.owner == Some(t)
    ensures b.lock.original == a.lock.original
  {
    hide Coherent, After, SamePriorities, Inherits, Blocking, Left, TimerFired, Queued;
  }

  // A thread that comes by the mutex, by a take or by a hand-over, has its own
  // priority recorded.
  lemma StepAcquires(a: Snap, e: Event, b: Snap, t: Tid)
    requires MutexStep(a, e, b) && a.lock.owner != Some(t) && b.lock.owner == Some(t)
    ensures t in a.Threads() && b.lock.original == a.Threads()[t].priority
    ensures e.CallTake? || e.CallRelease?
  {
    hide Coherent, After, SamePriorities, Inherits, Blocking, Left, TimerFired, Queued;
  }

  // It loses the mutex only by its own last release.
  lemma StepLoses(a: Snap, e: Event, b: Snap, t: Tid)
    requires MutexStep(a, e, b) && a.lock.owner == Some(t) && b.lock.owner != Some(t)
    ensures e.CallRelease? && a.Current() == Some(t) && a.lock.hold <= 1
    ensures t in b.Threads() && b.Threads()[t].priority == a.lock.original
  {
    hide Coherent, After, SamePriorities, Inherits, Blocking, Left, TimerFired, Queued;
  }

  // Whenever the mutex comes to a thread and later leaves it, the thread ends up
  // with exactly the priority it had before it got the mutex.
  lemma FinalReleaseRestores(events: seq<Event>, run: seq<Snap>, t: Tid, i: nat, j: nat)
    requires Trace(events, run) && i < j < |events|
    requires run[i].lock.owner != Some(t) && run[j + 1].lock.owner != Some(t)
    requires forall k :: i < k <= j ==> run[k].lock.owner == Some(t)
    ensures t in run[i].Threads() && t in run[j + 1].Threads()
    ensures run[j + 1].Threads()[t].priority == run[i].Threads()[t].priority
  {
    assert MutexStep(run[i], events[i], run[i + 1]) && MutexStep(run[j], events[j], run[j + 1]);
    KeptWhileHeld(events, run, t, i + 1, j);
    hide MutexStep;
    StepAcquires(run[i], events[i], run[i + 1], t);
    StepLoses(run[j], events[j], run[j + 1], t);
  }

  method DoTake(m: Mutex, timeout: int)
    requires m.Valid()
    modifies m, m.k
    ensures m.Valid() && MutexStep(old(m.Shot()), CallTake(timeout), m.Shot())
  {
    hide Coherent, NoDup, Sorted, Blocking, Left, Queued;
    if m.k.current == None {
      return;
    }
    var t := m.k.current.value;
    KernelBounds(m.k.Now());
    if m.k.threads[t].stat == Running {
      OwnerFacts(m.k.threads, m.Fields(), m.waiters);
      var _ := m.Take(t, timeout);
      OwnerFacts(m.k.threads, m.Fields(), m.waiters);
    }
  }

  method DoRelease(m: Mutex)
    requires m.Valid()
    modifies m, m.k
    ensures m.Valid() && MutexStep(old(m.Shot()), CallRelease, m.Shot())
  {
    hide Coherent, NoDup, Sorted, Blocking, Left, Queued;
    if m.k.current == None {
      return;
    }
    var t := m.k.current.value;
    KernelBounds(m.k.Now());
    if m.k.threads[t].stat == Running {
      OwnerFacts(m.k.threads, m.Fields(), m.waiters);
      var _ := m.Release(t);
      OwnerFacts(m.k.threads, m.Fields(), m.waiters);
    }
  }

  method RunOne(m: Mutex, e: Event)
    requires m.Valid()
    modifies m, m.k
    ensures m.Valid() && MutexStep(old(m.Shot()), e, m.Shot())
  {
    hide Coherent, NoDup, Sorted, TakeStep, ReleaseStep, After, TimerFired, Without;
    match e {
      case CallTake(timeout) => DoTake(m, timeout);
      case CallRelease => DoRelease(m);
      case Timer(t) =>
        if m.k.current.Some? && t in m.waiters {
          m.Expire(t);
        }
      case Other(e) =>
        var allowed := m.Untouched(e);
        if allowed {
          m.Other(e);
        }
    }
  }

  // Any sequence of events keeps the invariant at every point, whoever is running,
  // and the ownership changes as MutexStep says.
  method Run(m: Mutex, events: seq<Event>) returns (ghost run: seq<Snap>)
    requires m.Valid()
    modifies m, m.k
    ensures m.Valid() && Trace(events, run) && run[0] == old(m.Shot()) && run[|events|] == m.Shot()
    ensures forall i :: 0 <= i <= |events| ==> Coherent(run[i].c.s) && MutexOk(run[i].Threads(), run[i].lock, run[i].waiters)
  {
    hide Coherent, MutexOk, MutexStep;
    run := [m.Shot()];
    for i := 0 to |events|
      invariant m.Valid()
      invariant |run| == i + 1 && run[0] == old(m.Shot()) && run[i] == m.Shot()
      invariant forall k :: 0 <= k < i ==> MutexStep(run[k], events[k], run[k + 1])
      invariant forall k :: 0 <= k <= i ==> Coherent(run[k].c.s) && MutexOk(run[k].Threads(), run[k].lock, run[k].waiters)
    {
      RunOne(m, events[i]);
      run := run + [m.Shot()];
    }
  }

  lemma OwnerFacts(threads: map<Tid, Thread>, l: Lock, waiters: seq<Tid>)
    requires MutexOk(threads, l, waiters)
    ensures l.owner.Some? ==> l.value == 0 && l.hold >= 1 && l.owner.value in threads && l.owner.value !in waiters
    ensures l.owner.Some? ==> threads[l.owner.value].priority <= l.original < PRIORITIES
    ensures l.owner == None ==> l == Lock(1, 0, None, NO_PRIORITY) && waiters == []
    ensures waiters != [] ==> waiters[0] in waiters
    ensures WaitList(threads, waiters) && forall t :: t in waiters ==> t in threads && threads[t].stat == Suspended && threads[t].error == EOK
  {}

  // ---------- a release that wakes nobody ----------

  // The last release with nobody waiting does not reschedule: the right thread runs
  // afterwards exactly if no READY thread is more urgent than the owner's own
  // priority.
  lemma QuietRelease(a: Config, t: Tid, original: nat, b: Config)
    requires Coherent(a.s) && a.s.current == Some(t) && t in a.s.threads && a.s.threads[t].stat == Running
    requires Left(a, t, original, [], b)
    ensures b.s.current == Some(t) && b.s.threads == a.s.threads[t := a.s.threads[t].(priority := original)]
    ensures MostUrgentRuns(b.s) <==> forall x :: x in a.s.threads && a.s.threads[x].stat == Ready ==> original <= a.s.threads[x].priority
  {
    if original != a.s.threads[t].priority {
      ReprioritizeOne(a.s, t, original);
    } else {
      assert a.s.threads[t := a.s.threads[t].(priority := original)] == a.s.threads;
    }
    hide Coherent, Reprioritized;
    var x := b.s.threads;
    assert forall y :: y in x && x[y].stat == Ready <==> y in a.s.threads && a.s.threads[y].stat == Ready;
  }

  // And it happens that it does not: a more urgent thread starts, waits for the mutex
  // and gives up; the owner, raised in the meantime, releases and keeps the processor.
  method BoostOutlivesWaiter(m: Mutex, o: Tid, w: Tid, timeout: int)
    requires m.Valid() && m.Runs(o) && m.owner == Some(o) && m.hold == 1 && m.waiters == []
    requires m.k.lockNest == 0 && MostUrgentRuns(m.k.Now()) && timeout != 0
    requires w in m.k.threads && m.k.threads[w].stat == Init && m.k.threads[w].priority < m.k.threads[o].priority
    modifies m, m.k
    ensures m.Valid() && m.Runs(o) && m.owner == None
    ensures w in m.k.threads && m.k.threads[w].stat == Ready && m.k.threads[w].priority < m.k.threads[o].priority
    ensures !MostUrgentRuns(m.k.Now())
  {
    hide Coherent, NoDup, Sorted, MutexOk, Blocking, Left, Queued, TimerFired, After, Without, Rescheduled, Reprioritized, SuspendedBy, Inherits;
    OwnerFacts(m.k.threads, m.Fields(), m.waiters);
    ghost var a := m.Shot();
    m.Other(StartThread(w));
    ghost var b := m.Shot();
    StarterRuns(a.c, b.c, o, w);
    var _ := m.Take(w, timeout);
    ghost var c := m.Shot();
    WaiterSleeps(b.c, c.c, o, w, a.Threads()[o].priority);
    assert w in m.waiters;
    m.Expire(w);
    ghost var d := m.Shot();
    WaiterBack(c.c, d.c, o, w);
    assert d.waiters == [] by {
      if d.waiters != [] {
        HasFirst(d.waiters);
      }
    }
    var _ := m.Release(o);
    QuietRelease(d.c, o, a.lock.original, m.Shot().c);
  }

  lemma ErrorAside(s: State, t: Tid, x: Thread)
    requires MostUrgentRuns(s) && t in s.threads && x == s.threads[t].(error := x.error)
    ensures MostUrgentRuns(WithThread(s, t, x))
  {}

  // From the start of the system on, with any two priorities.
  method BoostOutlivesWaiterFromBoot(x: Thread, y: Thread, timeout: int) returns (m: Mutex)
    requires x.stat == y.stat == Init && y.priority < x.priority < PRIORITIES && timeout != 0
    ensures fresh(m) && fresh(m.k) && m.Valid() && m.Runs(0) && m.owner == None
    ensures 1 in m.k.threads && m.k.threads[1].stat == Ready && m.k.threads[1].priority < m.k.threads[0].priority
    ensures !MostUrgentRuns(m.k.Now())
  {
    hide Coherent, NoDup, Sorted, Blocking, Queued, Started, MostUrgentRuns;
    var k := new Kernel(map[0 := x, 1 := y]);
    StartedOne(k.Now(), 0);
    k.Startup(0);
    SomebodyReady(k.Now(), 0);
    k.Boot();
    m := new Mutex(k);
    ghost var s := k.Now();
    var _ := m.Take(0, timeout);
    ErrorAside(s, 0, k.threads[0]);
    BoostOutlivesWaiter(m, 0, 1, timeout);
  }

  // The thread started takes the processor from the owner.
  lemma StarterRuns(a: Config, b: Config, o: Tid, w: Tid)
    requires Coherent(a.s) && a.nest == 0 && a.s.current == Some(o) && o in a.s.threads && a.s.threads[o].stat == Running && MostUrgentRuns(a.s)
    requires w in a.s.threads && a.s.threads[w].stat == Init && a.s.threads[w].priority < a.s.threads[o].priority
    requires b == After(a, StartThread(w))
    ensures b.nest == 0 && b.s.current == Some(w)
    ensures b.s.threads == a.s.threads[o := a.s.threads[o].(yielding := false, stat := Ready)][w := a.s.threads[w].(stat := Running)]
  {
    hide Coherent, Started, Scheduled;
    var s := Started(a.s, w);
    StartedOne(a.s, w);
    assert StrictlyFirst(s, w);
    hide StrictlyFirst;
    StrictWinner(s, w);
  }

  lemma StartedOne(s: State, w: Tid)
    requires Coherent(s) && w in s.threads && s.threads[w].stat == Init && s.current != Some(w)
    ensures Started(s, w).threads == s.threads[w := s.threads[w].(stat := Ready)] && Started(s, w).current == s.current
  {
    hide Queues, Without;
    Bounds(s);
    SetStatQuiet(s, w, Suspended);
    ResumeOne(SetStat(s, w, Suspended), w);
  }

  // The owner is raised, off the processor, and the thread goes to sleep.
  lemma RaisedAndAsleep(s: State, o: Tid, w: Tid)
    requires Coherent(s) && s.current == Some(w) && w in s.threads && s.threads[w].stat == Running
    requires o in s.threads && o != w && s.threads[w].priority < s.threads[o].priority
    ensures s.threads[w].priority < |s.ready| && s.threads[o].priority < |s.ready|
    ensures var s1 := Raised(s, o, s.threads[w].priority);
            && WithThread(s1, w, s.threads[w]) == s1 && Coherent(s1) && SuspendedBy(s1, w).current == Some(w)
            && SuspendedBy(s1, w).threads
               == s.threads[o := s.threads[o].(priority := s.threads[w].priority)][w := s.threads[w].(stat := Suspended)]
  {
    KernelBounds(s);
    var p := s.threads[w].priority;
    ReprioritizeKeeps(s, o, p);
    ReprioritizeOne(s, o, p);
    var s1 := Reprioritized(s, o, p);
    hide Coherent, Reprioritized, SuspendedBy;
    KernelBounds(s1);
    assert s1.threads[w := s.threads[w]] == s1.threads;
    SuspendOne(s1, w);
  }

  // It waits, and the owner, raised to its priority, runs again.
  lemma WaiterSleeps(b: Config, c: Config, o: Tid, w: Tid, p: nat)
    requires Coherent(b.s) && b.nest == 0 && b.s.current == Some(w) && w in b.s.threads && b.s.threads[w].stat == Running
    requires o in b.s.threads && o != w && b.s.threads[o].stat == Ready && b.s.threads[w].priority < b.s.threads[o].priority == p
    requires forall x :: x in b.s.threads && b.s.threads[x].stat == Ready ==> p <= b.s.threads[x].priority
    requires Blocking(b.(s := WithThread(b.s, w, b.s.threads[w].(error := EOK))), w, o, c)
    ensures c.nest == 0 && c.s.current == Some(o)
    ensures c.s.threads == b.s.threads[w := b.s.threads[w].(error := EOK, stat := Suspended)]
                                      [o := b.s.threads[o].(priority := b.s.threads[w].priority, stat := Running)]
  {
    hide Coherent, Reprioritized, SuspendedBy, Raised, Scheduled;
    ErrorQuiet(b.s, w, b.s.threads[w].(error := EOK));
    var s0 := WithThread(b.s, w, b.s.threads[w].(error := EOK));
    RaisedAndAsleep(s0, o, w);
    var s2 := SuspendedBy(Raised(s0, o, s0.threads[w].priority), w);
    assert StrictlyFirst(s2, o);
    hide StrictlyFirst;
    StrictWinner(s2, o);
    assert c.s == Scheduled(s2);
    assert s2.threads[w := s2.threads[w]] == s2.threads;
  }

  // It gives up: it is READY, and the owner goes on running.
  lemma WaiterBack(c: Config, d: Config, o: Tid, w: Tid)
    requires Coherent(c.s) && c.nest == 0 && c.s.current == Some(o) && o in c.s.threads && c.s.threads[o].stat == Running && !c.s.threads[o].yielding
    requires w in c.s.threads && c.s.threads[o].priority == c.s.threads[w].priority && c.s.threads[w].stat == Suspended && o != w
    requires forall x :: x in c.s.threads && c.s.threads[x].stat == Ready ==> c.s.threads[o].priority <= c.s.threads[x].priority
    requires TimerFired(c, w, d)
    ensures d.s.current == Some(o) && d.s.threads == c.s.threads[w := c.s.threads[w].(error := ETIMEOUT, stat := Ready)]
  {
    TimedOutOne(c.s, w);
    var s := Scheduling.TimedOut(c.s, w);
    hide Coherent, Scheduling.TimedOut;
    StaysOn(s);
  }
}
