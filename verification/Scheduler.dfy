/** The ready queues and thread states of the single-core, 32-priority kernel.
    A smaller number is a more urgent priority. */
module Scheduling {
  import opened Bytes
  import opened Lists

  type Tid = nat

  const PRIORITIES := 32

  datatype Stat = Init | Ready | Suspended | Running | Closed

  datatype Error = EOK | ETIMEOUT | ERROR | EFULL

  // The flags of an event object, a set of bit numbers.
  type Flags = set<nat>

  // What a thread waits for on an event object, or what it has received.
  datatype Want = Want(bits: Flags, all: bool, clear: bool)

  datatype Thread = Thread(stat: Stat, yielding: bool, priority: nat, error: Error, want: Want)

  // The globals of scheduler.c and the thread control blocks. `ready` is
  // rt_thread_priority_table and `group` the set of bits of
  // rt_thread_ready_priority_group.
  datatype State = State(threads: map<Tid, Thread>, ready: seq<seq<Tid>>, group: set<nat>, current: Option<Tid>)

  // List p holds exactly the READY threads of priority p, each once, and bit p is
  // set exactly if that list is non-empty.
  ghost predicate Queues(s: State) {
    && |s.ready| == PRIORITIES
    && (forall t :: t in s.threads ==> s.threads[t].priority < PRIORITIES)
    && (forall p :: 0 <= p < PRIORITIES ==> NoDup(s.ready[p]))
    && (forall p, t :: 0 <= p < PRIORITIES && t in s.ready[p] ==> OnList(s, t, p))
    && (forall t :: t in s.threads && s.threads[t].stat == Ready ==> t in s.ready[s.threads[t].priority])
    && (forall p :: p in s.group <==> 0 <= p < PRIORITIES && s.ready[p] != [])
  }

  predicate OnList(s: State, t: Tid, p: nat) {
    t in s.threads && s.threads[t].stat == Ready && s.threads[t].priority == p
  }

  // The current thread is in no list, and nobody else is RUNNING.
  ghost predicate Roles(s: State) {
    && (s.current.Some? ==> s.current.value in s.threads && s.threads[s.current.value].stat != Ready)
    && (forall t :: t in s.threads && s.threads[t].stat == Running ==> s.current == Some(t))
  }

  ghost predicate Coherent(s: State) {
    Queues(s) && Roles(s)
  }

  // ---------- what the primitives do ----------

  function SetStat(s: State, t: Tid, stat: Stat): State
    requires t in s.threads
  {
    s.(threads := s.threads[t := s.threads[t].(stat := stat)])
  }

  // rt_schedule_insert_thread.
  function Inserted(s: State, t: Tid): State
    requires t in s.threads && s.threads[t].priority < |s.ready|
  {
    if s.current == Some(t) then SetStat(s, t, Running)
    else
      var p := s.threads[t].priority;
      var list := if s.threads[t].yielding then s.ready[p] + [t] else [t] + s.ready[p];
      SetStat(s, t, Ready).(ready := s.ready[p := list], group := s.group + {p})
  }

  // rt_schedule_remove_thread.
  function Removed(s: State, t: Tid): State
    requires t in s.threads && s.threads[t].priority < |s.ready|
  {
    var p := s.threads[t].priority;
    var list := Without(s.ready[p], t);
    s.(ready := s.ready[p := list], group := if list == [] then s.group - {p} else s.group)
  }

  // rt_thread_suspend of the current thread.
  function SuspendedBy(s: State, t: Tid): State
    requires t in s.threads && s.threads[t].priority < |s.ready|
  {
    if s.threads[t].stat == Ready || s.threads[t].stat == Running then SetStat(Removed(s, t), t, Suspended) else s
  }

  // rt_thread_resume.
  function Resumed(s: State, t: Tid): State
    requires t in s.threads && s.threads[t].priority < |s.ready|
  {
    if s.threads[t].stat == Suspended then Inserted(s, t) else s
  }

  // RT_THREAD_CTRL_CHANGE_PRIORITY.
  function Reprioritized(s: State, t: Tid, p: nat): State
    requires t in s.threads && s.threads[t].priority < |s.ready| && p < |s.ready|
  {
    if s.threads[t].stat == Ready then
      var r := Removed(s, t);
      Inserted(r.(threads := r.threads[t := r.threads[t].(priority := p)]), t)
    else s.(threads := s.threads[t := s.threads[t].(priority := p)])
  }

  // __rt_ffs(group) - 1: the lowest set bit.
  function Lowest(group: set<nat>, p: nat): (r: nat)
    requires p <= PRIORITIES
    ensures p <= r <= PRIORITIES
    ensures r < PRIORITIES ==> r in group
    ensures forall q :: p <= q < r ==> q !in group
    decreases PRIORITIES - p
  {
    if p == PRIORITIES || p in group then p else Lowest(group, p + 1)
  }

  // The head of the lowest non-empty list is a READY thread of that priority.
  lemma Schedulable(s: State)
    requires Coherent(s) && s.current.Some?
    ensures |s.ready| == PRIORITIES && s.current.value in s.threads
    ensures var p := Lowest(s.group, 0);
            p < PRIORITIES ==> s.ready[p] != [] && OnList(s, s.ready[p][0], p) && Some(s.ready[p][0]) != s.current
    ensures forall t :: t in s.threads ==> s.threads[t].priority < PRIORITIES
  {
    var p := Lowest(s.group, 0);
    if p < PRIORITIES {
      assert s.ready[p][0] in s.ready[p];
      assert OnList(s, s.ready[p][0], p);
    }
  }

  // rt_schedule with the scheduler unlocked.
  function Scheduled(s: State): State
    requires Coherent(s) && s.current.Some?
  {
    Schedulable(s);
    var p := Lowest(s.group, 0);
    if p == PRIORITIES then s
    else
      var cur, first := s.current.value, s.ready[p][0];
      var c := s.threads[cur];
      if c.stat != Running then Dispatched(s, first)
      else
        var s1 := s.(threads := s.threads[cur := c.(yielding := false)]);
        if c.priority < p || (c.priority == p && !c.yielding) then SetStat(Removed(s1, cur), cur, Running)
        else Dispatched(Inserted(s1.(current := Some(first)), cur), first)
  }

  // The chosen thread leaves its list and runs.
  function Dispatched(s: State, t: Tid): State
    requires t in s.threads && s.threads[t].priority < |s.ready|
  {
    SetStat(Removed(s, t), t, Running).(current := Some(t))
  }

  // ---------- the queues stay coherent ----------

  lemma NoDupAdd(s: seq<Tid>, t: Tid)
    requires NoDup(s) && t !in s
    ensures NoDup([t] + s) && NoDup(s + [t])
  {}

  lemma QueuesInserted(s: State, t: Tid)
    requires Queues(s) && t in s.threads && s.threads[t].stat != Ready && s.current != Some(t)
    ensures Queues(Inserted(s, t))
  {
    var s', p := Inserted(s, t), s.threads[t].priority;
    assert t !in s.ready[p] by {
      assert t in s.ready[p] ==> OnList(s, t, p);
    }
    NoDupAdd(s.ready[p], t);
    hide NoDup;
    assert forall x :: x in s'.ready[p] <==> x == t || x in s.ready[p];
    forall q, x | 0 <= q < PRIORITIES && x in s'.ready[q] ensures OnList(s', x, q) {
      if x in s.ready[q] {
        assert OnList(s, x, q);
      }
    }
  }

  // A thread taken off its list and given another state.
  lemma QueuesRemoved(s: State, t: Tid, stat: Stat)
    requires Queues(s) && t in s.threads && stat != Ready
    ensures Queues(SetStat(Removed(s, t), t, stat))
  {
    var s', p := SetStat(Removed(s, t), t, stat), s.threads[t].priority;
    WithoutMembers(s.ready[p], t);
    forall q, x | 0 <= q < PRIORITIES && x in s'.ready[q] ensures OnList(s', x, q) {
      assert OnList(s, x, q);
    }
    forall x | x in s'.threads && s'.threads[x].stat == Ready ensures x in s'.ready[s'.threads[x].priority] {
      assert x in s.ready[s.threads[x].priority];
    }
  }

  lemma SetStatQuiet(s: State, t: Tid, stat: Stat)
    requires Queues(s) && t in s.threads && s.threads[t].stat != Ready && stat != Ready
    ensures Queues(SetStat(s, t, stat))
  {
    var s' := SetStat(s, t, stat);
    forall q, x | 0 <= q < PRIORITIES && x in s'.ready[q] ensures OnList(s', x, q) {
      assert OnList(s, x, q);
    }
  }

  lemma SuspendKeeps(s: State, t: Tid)
    requires Coherent(s) && s.current == Some(t)
    ensures Coherent(SuspendedBy(s, t))
  {
    hide Queues;
    if s.threads[t].stat == Running {
      QueuesRemoved(s, t, Suspended);
    }
  }

  lemma ResumeKeeps(s: State, t: Tid)
    requires Coherent(s) && t in s.threads
    ensures s.threads[t].priority < |s.ready| && Coherent(Resumed(s, t))
  {
    if s.threads[t].stat == Suspended {
      if s.current == Some(t) {
        SetStatQuiet(s, t, Running);
      } else {
        QueuesInserted(s, t);
      }
    }
  }

  lemma Bounds(s: State)
    requires Queues(s)
    ensures |s.ready| == PRIORITIES && forall t :: t in s.threads ==> s.threads[t].priority < PRIORITIES
  {}

  // A READY thread is taken off its list, changed and put back: as if it had
  // been suspended in between.
  ghost function OffList(s: State, t: Tid, p: nat): State
    requires t in s.threads && s.threads[t].priority < |s.ready|
  {
    var off := SetStat(Removed(s, t), t, Suspended);
    off.(threads := off.threads[t := off.threads[t].(priority := p)])
  }

  lemma RequeueSame(s: State, t: Tid, p: nat)
    requires t in s.threads && s.threads[t].stat == Ready && s.current != Some(t)
    requires s.threads[t].priority < |s.ready| && p < |s.ready|
    ensures Reprioritized(s, t, p) == Inserted(OffList(s, t, p), t)
  {
    hide Without;
    assert Reprioritized(s, t, p).threads == Inserted(OffList(s, t, p), t).threads;
  }

  lemma RequeueKeeps(s: State, t: Tid, p: nat)
    requires Coherent(s) && t in s.threads && s.threads[t].stat == Ready && p < PRIORITIES
    ensures s.threads[t].priority < |s.ready| && Coherent(Reprioritized(s, t, p))
  {
    Bounds(s);
    RequeueSame(s, t, p);
    var changed := OffList(s, t, p);
    assert Queues(changed) by {
      QueuesRemoved(s, t, Suspended);
      PriorityQuiet(SetStat(Removed(s, t), t, Suspended), t, p);
    }
    hide Queues, Removed, Reprioritized;
    QueuesInserted(changed, t);
  }

  lemma ReprioritizeKeeps(s: State, t: Tid, p: nat)
    requires Coherent(s) && t in s.threads && p < PRIORITIES
    ensures s.threads[t].priority < |s.ready| && Coherent(Reprioritized(s, t, p))
  {
    if s.threads[t].stat == Ready {
      RequeueKeeps(s, t, p);
    } else {
      PriorityQuiet(s, t, p);
    }
  }

  lemma PriorityQuiet(s: State, t: Tid, p: nat)
    requires Queues(s) && t in s.threads && s.threads[t].stat != Ready && p < PRIORITIES
    ensures Queues(s.(threads := s.threads[t := s.threads[t].(priority := p)]))
  {
    var s' := s.(threads := s.threads[t := s.threads[t].(priority := p)]);
    forall q, x | 0 <= q < PRIORITIES && x in s'.ready[q] ensures OnList(s', x, q) {
      assert OnList(s, x, q);
    }
  }

  // ---------- rt_schedule ----------

  lemma LowestZero(s: State)
    requires Queues(s)
    ensures s.group == {} <==> Lowest(s.group, 0) == PRIORITIES
    ensures |s.ready| == PRIORITIES
  {}

  // A READY thread takes an idle processor.
  lemma DispatchKeeps(s: State, t: Tid)
    requires Queues(s) && t in s.threads && s.threads[t].stat == Ready
    requires forall x :: x in s.threads ==> s.threads[x].stat != Running
    ensures s.threads[t].priority < |s.ready| && Coherent(Dispatched(s, t))
  {
    Bounds(s);
    QueuesRemoved(s, t, Running);
    hide Queues, Without;
    assert Dispatched(s, t) == SetStat(Removed(s, t), t, Running).(current := Some(t));
    QueuesCurrent(SetStat(Removed(s, t), t, Running), Some(t));
  }

  lemma QueuesCurrent(s: State, c: Option<Tid>)
    requires Queues(s)
    ensures Queues(s.(current := c))
  {
    forall q, x | 0 <= q < PRIORITIES && x in s.ready[q] ensures OnList(s.(current := c), x, q) {
      assert OnList(s, x, q);
    }
  }

  // The running thread goes back to its list.
  lemma PreemptKeeps(s: State, first: Tid)
    requires Coherent(s) && s.current.Some? && s.threads[s.current.value].stat == Running
    requires first in s.threads && s.threads[first].stat == Ready
    ensures s.threads[s.current.value].priority < |s.ready|
    ensures var s2 := Inserted(s.(current := Some(first)), s.current.value);
            && Queues(s2) && s2.threads[first].stat == Ready
            && forall x :: x in s2.threads ==> s2.threads[x].stat != Running
  {
    Bounds(s);
    QueuesCurrent(s, Some(first));
    QueuesInserted(s.(current := Some(first)), s.current.value);
    hide Queues;
  }

  // The running thread keeps the processor.
  lemma StayKeeps(s: State, t: Tid)
    requires Coherent(s) && s.current == Some(t) && s.threads[t].stat == Running
    ensures s.threads[t].priority < |s.ready| && Coherent(SetStat(Removed(s, t), t, Running))
  {
    Bounds(s);
    QueuesRemoved(s, t, Running);
    hide Queues, Without;
  }

  // It gives way to another.
  lemma SwitchKeeps(s: State, first: Tid)
    requires Coherent(s) && s.current.Some? && s.threads[s.current.value].stat == Running
    requires first in s.threads && s.threads[first].stat == Ready
    ensures s.threads[s.current.value].priority < |s.ready|
    ensures var s2 := Inserted(s.(current := Some(first)), s.current.value);
            first in s2.threads && s2.threads[first].priority < |s2.ready| && Coherent(Dispatched(s2, first))
  {
    PreemptKeeps(s, first);
    hide Queues, Roles, Dispatched;
    DispatchKeeps(Inserted(s.(current := Some(first)), s.current.value), first);
  }

  // The one it gave way to before has stopped running.
  lemma IdleKeeps(s: State, first: Tid)
    requires Coherent(s) && s.current.Some? && s.threads[s.current.value].stat != Running
    requires first in s.threads && s.threads[first].stat == Ready
    ensures s.threads[first].priority < |s.ready| && Coherent(Dispatched(s, first))
  {
    hide Queues, Dispatched;
    DispatchKeeps(s, first);
  }

  lemma ScheduleKeeps(s: State)
    requires Coherent(s) && s.current.Some?
    ensures Coherent(Scheduled(s))
  {
    Schedulable(s);
    hide Coherent, Inserted, Removed, Dispatched, Lowest;
    var p := Lowest(s.group, 0);
    if p < PRIORITIES {
      var cur, first := s.current.value, s.ready[p][0];
      var c := s.threads[cur];
      if c.stat != Running {
        IdleKeeps(s, first);
      } else {
        ErrorQuiet(s, cur, c.(yielding := false));
        var s1 := s.(threads := s.threads[cur := c.(yielding := false)]);
        if c.priority < p || (c.priority == p && !c.yielding) {
          StayKeeps(s1, cur);
        } else {
          SwitchKeeps(s1, first);
        }
      }
    }
  }

  // Who runs after rt_schedule when somebody is READY, and who is READY then.
  lemma ScheduleWinner(s: State)
    requires Coherent(s) && s.current.Some? && Lowest(s.group, 0) < PRIORITIES
    ensures var s', p := Scheduled(s), Lowest(s.group, 0);
            && s'.current.Some? && s'.current.value in s'.threads
            && s'.threads[s'.current.value].stat == Running && s'.threads[s'.current.value].priority <= p
            && forall t :: t in s'.threads && s'.threads[t].stat == Ready ==>
                 && t in s.threads && s'.threads[t].priority == s.threads[t].priority
                 && (s.threads[t].stat == Ready || s.threads[t].priority >= p)
  {
    Schedulable(s);
    hide Queues, Lowest, Without;
  }

  // After rt_schedule no READY thread is strictly more urgent than the running
  // one; a suspended thread stays on the processor only if nobody is READY.
  lemma ScheduleIsRight(s: State)
    requires Coherent(s) && s.current.Some?
    ensures Scheduled(s).current.Some? && Scheduled(s).current.value in Scheduled(s).threads
    ensures var s' := Scheduled(s);
            var run := s'.threads[s'.current.value];
            && (forall t :: t in s'.threads && s'.threads[t].stat == Ready ==> run.stat == Running && run.priority <= s'.threads[t].priority)
            && (forall t :: t in s.threads && s.threads[t].stat == Ready ==> run.stat == Running && run.priority <= s.threads[t].priority)
  {
    var p := Lowest(s.group, 0);
    forall t | t in s.threads && s.threads[t].stat == Ready ensures p < PRIORITIES && p <= s.threads[t].priority {
      assert t in s.ready[s.threads[t].priority];
      assert s.threads[t].priority in s.group;
    }
    if p < PRIORITIES {
      hide Queues, Lowest, Scheduled;
      ScheduleWinner(s);
    }
  }

  // A yield does not rotate a list: the flag that would send the yielder to the
  // back is cleared before the yielder is put back, so it goes to the front.
  lemma YieldGoesToFront(s: State, t: Tid)
    requires Coherent(s) && s.current == Some(t) && s.threads[t].stat == Running && s.threads[t].yielding
    requires Lowest(s.group, 0) == s.threads[t].priority
    ensures var p, s' := s.threads[t].priority, Scheduled(s);
            && s.ready[p] != [] && |s'.ready| == PRIORITIES && s'.current == Some(s.ready[p][0]) && s'.ready[p] == [t] + s.ready[p][1..]
  {
    Schedulable(s);
    var p := s.threads[t].priority;
    assert Without([t] + s.ready[p], s.ready[p][0]) == [t] + Without(s.ready[p], s.ready[p][0]);
  }

  // ---------- where everybody stands afterwards ----------

  // The most urgent READY threads have priority p.
  ghost predicate MostUrgent(s: State, p: nat) {
    && p < |s.ready| && s.ready[p] != [] && forall q :: 0 <= q < p ==> s.ready[q] == []
  }

  lemma MostUrgentIs(s: State, p: nat)
    requires Coherent(s) && MostUrgent(s, p)
    ensures p < PRIORITIES == |s.ready| && Lowest(s.group, 0) == p && p in s.group
    ensures var f := s.ready[p][0];
            f in s.threads && s.threads[f].stat == Ready && s.threads[f].priority == p && s.current != Some(f)
    ensures Without(s.ready[p], s.ready[p][0]) == s.ready[p][1..]
  {
    assert s.ready[p][0] in s.ready[p];
    assert OnList(s, s.ready[p][0], p);
    WithoutFirst(s.ready[p]);
  }

  // Nobody is READY: rt_schedule does nothing at all.
  lemma NobodyReady(s: State)
    requires Coherent(s) && s.current.Some? && forall p :: 0 <= p < |s.ready| ==> s.ready[p] == []
    ensures Scheduled(s) == s
  {}

  // The thread on the processor has stopped: the first of the most urgent takes it.
  lemma FirstTakesOver(s: State, p: nat)
    requires Coherent(s) && s.current.Some? && MostUrgent(s, p) && s.threads[s.current.value].stat != Running
    ensures var f, s' := s.ready[p][0], Scheduled(s);
            && f in s.threads && s'.current == Some(f) && s'.threads == s.threads[f := s.threads[f].(stat := Running)]
            && s'.ready == s.ready[p := s.ready[p][1..]]
  {
    MostUrgentIs(s, p);
    hide Queues, Lowest, Without;
  }

  // It is more urgent than they, or as urgent and has not asked to yield: it stays.
  lemma RunnerStays(s: State, p: nat)
    requires Coherent(s) && s.current.Some? && MostUrgent(s, p)
    requires var c := s.threads[s.current.value]; c.stat == Running && (c.priority < p || (c.priority == p && !c.yielding))
    ensures var t, s' := s.current.value, Scheduled(s);
            && s'.current == s.current && s'.ready == s.ready && s'.threads == s.threads[t := s.threads[t].(yielding := false)]
  {
    MostUrgentIs(s, p);
    var t := s.current.value;
    Bounds(s);
    NotListed(s, t);
    WithoutStranger(s.ready[s.threads[t].priority], t);
    assert s.ready[s.threads[t].priority := s.ready[s.threads[t].priority]] == s.ready;
    hide Queues, Lowest, Without;
  }

  lemma NotListed(s: State, t: Tid)
    requires Coherent(s) && s.current == Some(t)
    ensures t in s.threads && s.threads[t].priority < |s.ready| && t !in s.ready[s.threads[t].priority]
  {
    Bounds(s);
    assert t in s.ready[s.threads[t].priority] ==> OnList(s, t, s.threads[t].priority);
  }

  // Otherwise the first of the most urgent runs, and the one that ran is READY, in
  // front of its list.
  lemma RunnerGivesWay(s: State, p: nat)
    requires Coherent(s) && s.current.Some? && MostUrgent(s, p)
    requires var c := s.threads[s.current.value]; c.stat == Running && (p < c.priority || (c.priority == p && c.yielding))
    ensures var t, f, s' := s.current.value, s.ready[p][0], Scheduled(s);
            && f in s.threads && s.threads[t].priority < |s.ready| && s'.current == Some(f)
            && s'.threads == s.threads[t := s.threads[t].(yielding := false, stat := Ready)][f := s.threads[f].(stat := Running)]
            && var rest := s.ready[p := s.ready[p][1..]];
               s'.ready == rest[s.threads[t].priority := [t] + rest[s.threads[t].priority]]
  {
    MostUrgentIs(s, p);
    Bounds(s);
    var t, f := s.current.value, s.ready[p][0];
    WithoutSecond(t, s.ready[p]);
    hide Queues, Lowest, Without;
  }

  // Thread t, which ran, has given way to the first of priority p.
  ghost predicate Outrun(s: State, t: Tid, p: nat, s': State) {
    && t in s.threads && p < |s.ready| && s.ready[p] != [] && s.threads[t].priority < |s.ready|
    && var first, own, rest := s.ready[p][0], s.threads[t].priority, s.ready[p := s.ready[p][1..]];
       && first in s.threads && s'.current == Some(first)
       && s'.threads == s.threads[t := s.threads[t].(yielding := false, stat := Ready)][first := s.threads[first].(stat := Running)]
       && s'.ready == rest[own := [t] + rest[own]]
  }

  // A suspended thread that wakes up stands in front of its list, or, if it had asked
  // to yield when the scheduler was locked, behind it.
  lemma WakesInFront(s: State, t: Tid)
    requires Coherent(s) && t in s.threads && s.threads[t].stat == Suspended && s.current != Some(t)
    ensures var x, s' := s.threads[t], Resumed(s, t);
            && x.priority < |s.ready| && s'.threads == s.threads[t := x.(stat := Ready)] && s'.current == s.current
            && s'.ready == s.ready[x.priority := if x.yielding then s.ready[x.priority] + [t] else [t] + s.ready[x.priority]]
  {
    Bounds(s);
    hide Queues;
  }

  // The running thread is on no list when it suspends itself.
  lemma SuspendsInPlace(s: State, t: Tid)
    requires Coherent(s) && s.current == Some(t) && s.threads[t].stat == Running
    ensures var s' := SuspendedBy(s, t);
            s'.ready == s.ready && s'.current == s.current && s'.threads == s.threads[t := s.threads[t].(stat := Suspended)]
  {
    Bounds(s);
    NotListed(s, t);
    WithoutStranger(s.ready[s.threads[t].priority], t);
    assert s.ready[s.threads[t].priority := s.ready[s.threads[t].priority]] == s.ready;
    hide Queues, Without;
  }

  // A READY thread of a new priority leaves its list and stands in front of the
  // other, or of the same; any other thread is on no list.
  lemma MovesInFront(s: State, t: Tid, p: nat)
    requires Coherent(s) && t in s.threads && p < PRIORITIES
    ensures s.threads[t].priority < |s.ready| == PRIORITIES
    ensures var x, s' := s.threads[t], Reprioritized(s, t, p);
            && s'.threads == s.threads[t := x.(priority := p)] && s'.current == s.current
            && if x.stat != Ready then s'.ready == s.ready
               else
                 var rest := s.ready[x.priority := Without(s.ready[x.priority], t)];
                 s'.ready == rest[p := if x.yielding then rest[p] + [t] else [t] + rest[p]]
  {
    Bounds(s);
    hide Queues, Without;
  }

  // A thread set up by rt_thread_init becomes READY.
  function Started(s: State, t: Tid): (s': State)
    requires Coherent(s) && t in s.threads && s.threads[t].stat == Init
    ensures Coherent(s') && s'.current == s.current
    ensures s.current != Some(t) ==> t in s'.threads && s'.threads[t].stat == Ready
  {
    SetStatQuiet(s, t, Suspended);
    ResumeKeeps(SetStat(s, t, Suspended), t);
    Resumed(SetStat(s, t, Suspended), t)
  }

  // ---------- what an IPC object can rely on ----------

  // The same threads with the same priorities, errors and wants; nobody has
  // started or stopped waiting.
  ghost predicate SameWaits(a: map<Tid, Thread>, b: map<Tid, Thread>) {
    && a.Keys == b.Keys
    && forall t :: t in a ==>
         && b[t].priority == a[t].priority && b[t].error == a[t].error && b[t].want == a[t].want
         && (b[t].stat == Suspended <==> a[t].stat == Suspended)
  }

  // SameWaits but for thread t.
  ghost predicate SameButOne(a: map<Tid, Thread>, b: map<Tid, Thread>, t: Tid) {
    t in a && t in b && b == a[t := b[t]]
  }

  lemma StatWaits(a: map<Tid, Thread>, t: Tid, x: Thread)
    requires t in a && a[t].stat != Suspended && x.stat != Suspended
    requires x.priority == a[t].priority && x.error == a[t].error && x.want == a[t].want
    ensures SameWaits(a, a[t := x])
  {}

  lemma WaitsTrans(a: map<Tid, Thread>, b: map<Tid, Thread>, c: map<Tid, Thread>)
    requires SameWaits(a, b) && SameWaits(b, c)
    ensures SameWaits(a, c)
  {}

  lemma DispatchWaits(s: State, t: Tid)
    requires t in s.threads && s.threads[t].stat == Ready && s.threads[t].priority < |s.ready|
    ensures SameWaits(s.threads, Dispatched(s, t).threads)
  {
    hide Without, SameWaits;
    StatWaits(s.threads, t, s.threads[t].(stat := Running));
  }

  lemma PreemptWaits(s: State, t: Tid)
    requires t in s.threads && s.threads[t].stat == Running && s.threads[t].priority < |s.ready| && s.current != Some(t)
    ensures SameWaits(s.threads, Inserted(s, t).threads)
  {
    hide SameWaits;
    StatWaits(s.threads, t, s.threads[t].(stat := Ready));
  }

  lemma WaitsSelf(a: map<Tid, Thread>)
    ensures SameWaits(a, a)
  {}

  lemma ScheduleWaits(s: State)
    requires Coherent(s) && s.current.Some?
    ensures SameWaits(s.threads, Scheduled(s).threads)
  {
    Schedulable(s);
    Bounds(s);
    WaitsSelf(s.threads);
    hide Queues, Without, Lowest, SameWaits;
    var p := Lowest(s.group, 0);
    if p < PRIORITIES {
      var cur, first := s.current.value, s.ready[p][0];
      var c := s.threads[cur];
      if c.stat != Running {
        hide Dispatched;
        DispatchWaits(s, first);
      } else {
        var s1 := s.(threads := s.threads[cur := c.(yielding := false)]);
        StatWaits(s.threads, cur, c.(yielding := false));
        if c.priority < p || (c.priority == p && !c.yielding) {
          hide Removed;
          assert Scheduled(s).threads == s1.threads[cur := s1.threads[cur].(stat := Running)] == s1.threads;
        } else {
          var s2 := s1.(current := Some(first));
          PreemptWaits(s2, cur);
          assert Inserted(s2, cur).threads[first] == s.threads[first];
          hide Inserted, Dispatched;
          DispatchWaits(Inserted(s2, cur), first);
          WaitsTrans(s.threads, s1.threads, Inserted(s2, cur).threads);
          WaitsTrans(s.threads, Inserted(s2, cur).threads, Scheduled(s).threads);
        }
      }
    }
  }

  lemma ResumeOne(s: State, t: Tid)
    requires Coherent(s) && t in s.threads && s.threads[t].stat == Suspended && s.threads[t].priority < |s.ready|
    ensures Resumed(s, t).current == s.current
    ensures SameButOne(s.threads, Resumed(s, t).threads, t)
    ensures var a, b := s.threads[t], Resumed(s, t).threads[t];
            b == a.(stat := if s.current == Some(t) then Running else Ready)
  {
    hide Queues, Without;
  }

  lemma SuspendOne(s: State, t: Tid)
    requires Coherent(s) && s.current == Some(t) && s.threads[t].stat == Running && s.threads[t].priority < |s.ready|
    ensures SuspendedBy(s, t).current == s.current
    ensures SuspendedBy(s, t).threads == s.threads[t := s.threads[t].(stat := Suspended)]
  {
    hide Queues, Without;
  }

  lemma ReprioritizeOne(s: State, t: Tid, p: nat)
    requires Coherent(s) && t in s.threads && p < |s.ready| && s.threads[t].priority < |s.ready|
    ensures Reprioritized(s, t, p).current == s.current
    ensures Reprioritized(s, t, p).threads == s.threads[t := s.threads[t].(priority := p)]
  {
    hide Queues, Without;
  }

  lemma KernelBounds(s: State)
    requires Coherent(s)
    ensures |s.ready| == PRIORITIES && forall t :: t in s.threads ==> s.threads[t].priority < PRIORITIES
    ensures s.current.Some? ==> s.current.value in s.threads
  {
    Bounds(s);
  }

  lemma SchedulingWaits(s: State)
    requires Coherent(s) && s.current.Some?
    ensures SameWaits(s.threads, Scheduled(s).threads) && SameWaits(s.threads, s.threads)
  {
    ScheduleWaits(s);
  }

  // A suspended thread is woken with the timeout error.
  function TimedOut(s: State, t: Tid): (s': State)
    requires Coherent(s) && t in s.threads && s.threads[t].stat == Suspended
    ensures Coherent(s') && s'.current == s.current
  {
    var x := s.threads[t].(error := ETIMEOUT);
    ErrorQuiet(s, t, x);
    ResumeKeeps(s.(threads := s.threads[t := x]), t);
    ResumeOne(s.(threads := s.threads[t := x]), t);
    Resumed(s.(threads := s.threads[t := x]), t)
  }

  lemma TimedOutOne(s: State, t: Tid)
    requires Coherent(s) && t in s.threads && s.threads[t].stat == Suspended
    ensures var x := s.threads[t].(error := ETIMEOUT);
            && |s.ready| == PRIORITIES && x.priority < PRIORITIES
            && TimedOut(s, t) == Inserted(s.(threads := s.threads[t := x]), t)
            && TimedOut(s, t).threads == s.threads[t := x.(stat := if s.current == Some(t) then Running else Ready)]
  {
    Bounds(s);
    var x := s.threads[t].(error := ETIMEOUT);
    ErrorQuiet(s, t, x);
    hide Queues, Without;
    ResumeOne(s.(threads := s.threads[t := x]), t);
  }

  // A new thread and one whose time is up join their lists in the same way: in front,
  // or behind if it had asked to yield.
  lemma JoinInFront(s: State, t: Tid)
    requires Coherent(s) && t in s.threads && s.current != Some(t)
    ensures s.threads[t].priority < |s.ready|
    ensures s.threads[t].stat == Init ==>
              var p, yielding := s.threads[t].priority, s.threads[t].yielding;
              && Started(s, t).ready == s.ready[p := if yielding then s.ready[p] + [t] else [t] + s.ready[p]]
              && Started(s, t).threads == s.threads[t := s.threads[t].(stat := Ready)]
    ensures s.threads[t].stat == Suspended ==>
              var p, yielding := s.threads[t].priority, s.threads[t].yielding;
              && TimedOut(s, t).ready == s.ready[p := if yielding then s.ready[p] + [t] else [t] + s.ready[p]]
              && TimedOut(s, t).threads == s.threads[t := s.threads[t].(error := ETIMEOUT, stat := Ready)]
  {
    Bounds(s);
    hide Queues;
    if s.threads[t].stat == Suspended {
      TimedOutOne(s, t);
    }
    if s.threads[t].stat == Init {
      assert Started(s, t) == Resumed(SetStat(s, t, Suspended), t);
    }
  }

  // The running thread asks for the processor to be given away.
  function Yielding(s: State, t: Tid): (s': State)
    requires Coherent(s) && s.current == Some(t)
    ensures Coherent(s') && s'.current == s.current
  {
    ErrorQuiet(s, t, s.threads[t].(yielding := true));
    s.(threads := s.threads[t := s.threads[t].(yielding := true)])
  }

  lemma YieldOutcome(s: State, t: Tid)
    requires Coherent(s) && s.current == Some(t) && t in s.threads
    ensures forall p: nat :: s.threads[t].stat == Running && MostUrgent(s, p) && p <= s.threads[t].priority ==>
              Outrun(s, t, p, Scheduled(Yielding(s, t)))
    ensures forall p: nat :: s.threads[t].stat == Running && MostUrgent(s, p) && p > s.threads[t].priority ==>
              && Scheduled(Yielding(s, t)).current == Some(t) && Scheduled(Yielding(s, t)).ready == s.ready
              && Scheduled(Yielding(s, t)).threads == s.threads[t := s.threads[t].(yielding := false)]
  {
    hide Queues, Roles, Scheduled;
    var y := Yielding(s, t);
    assert y.threads[t := y.threads[t].(yielding := false)] == s.threads[t := s.threads[t].(yielding := false)];
    forall p: nat | s.threads[t].stat == Running && MostUrgent(s, p)
      ensures if p <= s.threads[t].priority then Outrun(s, t, p, Scheduled(y))
              else Scheduled(y).current == Some(t) && Scheduled(y).ready == s.ready && Scheduled(y).threads == s.threads[t := s.threads[t].(yielding := false)]
    {
      assert MostUrgent(y, p);
      if p <= s.threads[t].priority {
        RunnerGivesWay(y, p);
        MostUrgentIs(s, p);
      } else {
        RunnerStays(y, p);
      }
    }
  }

  // ---------- the running kernel ----------

  class Kernel {
    var threads: map<Tid, Thread>
    var ready: seq<seq<Tid>>
    var group: set<nat>
    var current: Option<Tid>
    var lockNest: int

    ghost function Now(): State
      reads this
    {
      State(threads, ready, group, current)
    }

    ghost predicate Valid()
      reads this
    {
      Coherent(Now())
    }

    // rt_system_scheduler_init, with the threads that rt_thread_init has set up.
    constructor (inited: map<Tid, Thread>)
      requires forall t :: t in inited ==> inited[t].stat == Init && inited[t].priority < PRIORITIES
      ensures Valid() && threads == inited && current == None && lockNest == 0
    {
      threads, group, current, lockNest := inited, {}, None, 0;
      ready := seq(PRIORITIES, _ => []);
    }

    method InsertThread(t: Tid)
      requires |ready| == PRIORITIES && t in threads && threads[t].priority < PRIORITIES
      modifies `threads, `ready, `group
      ensures Now() == Inserted(old(Now()), t)
    {
      if current == Some(t) {
        threads := threads[t := threads[t].(stat := Running)];
        return;
      }
      threads := threads[t := threads[t].(stat := Ready)];
      var p := threads[t].priority;
      if threads[t].yielding {
        ready := ready[p := ready[p] + [t]];
      } else {
        ready := ready[p := [t] + ready[p]];
      }
      group := group + {p};
    }

    method RemoveThread(t: Tid)
      requires |ready| == PRIORITIES && t in threads && threads[t].priority < PRIORITIES
      modifies `ready, `group
      ensures Now() == Removed(old(Now()), t)
    {
      var p := threads[t].priority;
      ready := ready[p := Without(ready[p], t)];
      if ready[p] == [] {
        group := group - {p};
      }
    }

    method Suspend(t: Tid)
      requires Valid() && current == Some(t)
      modifies `threads, `ready, `group
      ensures Valid() && Now() == SuspendedBy(old(Now()), t)
    {
      SuspendKeeps(Now(), t);
      var stat := threads[t].stat;
      if stat != Ready && stat != Running {
        return;
      }
      RemoveThread(t);
      threads := threads[t := threads[t].(stat := Suspended)];
    }

    method Resume(t: Tid)
      requires Valid() && t in threads
      modifies `threads, `ready, `group
      ensures Valid() && old(threads)[t].priority < PRIORITIES && Now() == Resumed(old(Now()), t)
    {
      ResumeKeeps(Now(), t);
      if threads[t].stat != Suspended {
        return;
      }
      InsertThread(t);
    }

    method ChangePriority(t: Tid, p: nat)
      requires Valid() && t in threads && p < PRIORITIES
      modifies `threads, `ready, `group
      ensures Valid() && old(threads)[t].priority < PRIORITIES && Now() == Reprioritized(old(Now()), t, p)
    {
      ReprioritizeKeeps(Now(), t, p);
      if threads[t].stat == Ready {
        RemoveThread(t);
        threads := threads[t := threads[t].(priority := p)];
        InsertThread(t);
      } else {
        threads := threads[t := threads[t].(priority := p)];
      }
    }

    // The branch of rt_schedule that changes the running thread.
    method Switch(from: Tid, to: Tid, needInsert: bool)
      requires |ready| == PRIORITIES && forall t :: t in threads ==> threads[t].priority < PRIORITIES
      requires current == Some(from) && from in threads && to in threads && from != to
      modifies `threads, `ready, `group, `current
      ensures Now() == var s := old(Now());
                       Dispatched(if needInsert then Inserted(s.(current := Some(to)), from) else s, to)
    {
      current := Some(to);
      if needInsert {
        InsertThread(from);
      }
      RemoveThread(to);
      threads := threads[to := threads[to].(stat := Running)];
    }

    method Schedule()
      requires Valid() && current.Some?
      modifies this
      ensures Valid() && lockNest == old(lockNest)
      ensures Now() == if old(lockNest) == 0 then Scheduled(old(Now())) else old(Now())
    {
      if lockNest == 0 {
        Schedulable(Now());
        ScheduleKeeps(Now());
        LowestZero(Now());
        hide Queues, Without, Lowest;
        if group != {} {
          var p := Lowest(group, 0);
          var to, from := ready[p][0], current.value;
          var needInsert := false;
          if threads[from].stat == Running {
            if threads[from].priority < p {
              to := from;
            } else if threads[from].priority == p && !threads[from].yielding {
              to := from;
            } else {
              needInsert := true;
            }
            threads := threads[from := threads[from].(yielding := false)];
          }
          if to != from {
            Switch(from, to, needInsert);
          } else {
            RemoveThread(from);
            threads := threads[from := threads[from].(stat := Running)];
          }
        }
      }
    }

    // rt_thread_yield.
    method Yield(t: Tid)
      requires Valid() && current == Some(t)
      modifies this
      ensures Valid() && lockNest == old(lockNest)
      ensures Now() == if old(lockNest) == 0 then Scheduled(Yielding(old(Now()), t)) else Yielding(old(Now()), t)
      // locked: the wish is noted; unlocked: the first of the most urgent threads as
      // urgent as this one or more runs, if there is one
      ensures old(lockNest) != 0 ==> Now() == old(Now()).(threads := old(threads)[t := old(threads)[t].(yielding := true)])
      ensures forall p: nat :: old(lockNest) == 0 && old(threads)[t].stat == Running && MostUrgent(old(Now()), p) && p <= old(threads)[t].priority ==>
                && var first, own, rest := old(ready)[p][0], old(threads)[t].priority, old(ready)[p := old(ready)[p][1..]];
                && own < |rest| && first in old(threads) && current == Some(first)
                && threads == old(threads)[t := old(threads)[t].(yielding := false, stat := Ready)][first := old(threads)[first].(stat := Running)]
                && ready == rest[own := [t] + rest[own]]
      ensures forall p: nat :: old(lockNest) == 0 && old(threads)[t].stat == Running && MostUrgent(old(Now()), p) && p > old(threads)[t].priority ==>
                current == Some(t) && ready == old(ready) && threads == old(threads)[t := old(threads)[t].(yielding := false)]
    {
      hide Queues, Scheduled;
      ghost var s := Yielding(Now(), t);
      threads := threads[t := threads[t].(yielding := true)];
      assert Now() == s;
      Schedule();
      YieldOutcome(old(Now()), t);
    }

    method SetError(t: Tid, e: Error)
      requires Valid() && t in threads
      modifies `threads
      ensures Valid() && threads == old(threads)[t := old(threads)[t].(error := e)]
    {
      ErrorQuiet(Now(), t, threads[t].(error := e));
      threads := threads[t := threads[t].(error := e)];
    }

    method SetWant(t: Tid, w: Want)
      requires Valid() && t in threads
      modifies `threads
      ensures Valid() && threads == old(threads)[t := old(threads)[t].(want := w)]
    {
      ErrorQuiet(Now(), t, threads[t].(want := w));
      threads := threads[t := threads[t].(want := w)];
    }

    // _thread_timeout, once the thread is off its wait list.
    method WakeByTimeout(t: Tid)
      requires Valid() && t in threads && threads[t].stat == Suspended
      modifies `threads, `ready, `group
      ensures Valid() && Now() == TimedOut(old(Now()), t)
      ensures threads == old(threads)[t := old(threads)[t].(error := ETIMEOUT, stat := if current == Some(t) then Running else Ready)]
    {
      hide Queues, TimedOut, Without;
      TimedOutOne(Now(), t);
      ghost var s := TimedOut(Now(), t);
      SetError(t, ETIMEOUT);
      KernelBounds(Now());
      InsertThread(t);
      assert Now() == s;
    }

    method EnterCritical()
      modifies `lockNest
      ensures lockNest == old(lockNest) + 1
    {
      lockNest := lockNest + 1;
    }

    method ExitCritical()
      requires Valid()
      modifies this
      ensures Valid() && lockNest == if old(lockNest) <= 1 then 0 else old(lockNest) - 1
      ensures Now() == if old(lockNest) <= 1 && old(current).Some? then Scheduled(old(Now())) else old(Now())
    {
      lockNest := lockNest - 1;
      if lockNest <= 0 {
        lockNest := 0;
        if current.Some? {
          Schedule();
        }
      }
    }

    // rt_thread_startup.
    method Startup(t: Tid)
      requires Valid() && t in threads && threads[t].stat == Init
      modifies this
      ensures Valid() && lockNest == old(lockNest)
      ensures Now() == var s := Started(old(Now()), t);
                       if old(current).Some? && old(lockNest) == 0 then Scheduled(s) else s
    {
      SetStatQuiet(Now(), t, Suspended);
      Bounds(Now());
      hide Queues, Scheduled;
      threads := threads[t := threads[t].(stat := Suspended)];
      Resume(t);
      if current.Some? {
        Schedule();
      }
    }

    // rt_system_scheduler_start.
    method Boot()
      requires Valid() && current == None && group != {}
      modifies this
      ensures Valid() && lockNest == old(lockNest) && current.Some? && MostUrgentRuns(Now())
      ensures current.value in old(threads) && old(threads)[current.value].stat == Ready
      ensures threads == old(threads)[current.value := old(threads)[current.value].(stat := Running)]
      ensures forall p: nat :: MostUrgent(old(Now()), p) ==> current == Some(old(ready)[p][0]) && ready == old(ready)[p := old(ready)[p][1..]]
    {
      FirstListed(Now());
      FirstChoice(Now());
      LowestZero(Now());
      hide Queues, Without, Lowest, MostUrgentRuns;
      var to := ready[Lowest(group, 0)][0];
      current := Some(to);
      RemoveThread(to);
      threads := threads[to := threads[to].(stat := Running)];
    }
  }

  // No READY thread is strictly more urgent than the one that runs.
  ghost predicate MostUrgentRuns(s: State) {
    s.current.Some? && s.current.value in s.threads &&
    forall t :: t in s.threads && s.threads[t].stat == Ready ==>
      s.threads[s.current.value].stat == Running && s.threads[s.current.value].priority <= s.threads[t].priority
  }

  lemma SomebodyReady(s: State, t: Tid)
    requires Coherent(s) && t in s.threads && s.threads[t].stat == Ready
    ensures s.group != {}
  {
    assert t in s.ready[s.threads[t].priority] && s.threads[t].priority in s.group;
  }

  lemma FirstListed(s: State)
    requires Coherent(s)
    ensures forall p: nat :: MostUrgent(s, p) ==> HeadOfLowest(s, p)
  {
    forall p: nat | MostUrgent(s, p) ensures HeadOfLowest(s, p) {
      MostUrgentIs(s, p);
    }
  }

  ghost predicate HeadOfLowest(s: State, p: nat)
    requires MostUrgent(s, p)
  {
    var f := s.ready[p][0];
    f in s.threads && s.threads[f].priority == p && Lowest(s.group, 0) == p && Without(s.ready[p], f) == s.ready[p][1..]
  }

  // The head of the lowest non-empty list is a right first choice.
  lemma FirstChoice(s: State)
    requires Coherent(s) && s.current == None && s.group != {}
    ensures Lowest(s.group, 0) < PRIORITIES == |s.ready| && s.ready[Lowest(s.group, 0)] != []
    ensures var t := s.ready[Lowest(s.group, 0)][0];
            t in s.threads && s.threads[t].stat == Ready && s.threads[t].priority < PRIORITIES && Coherent(Dispatched(s, t)) && MostUrgentRuns(Dispatched(s, t))
    ensures forall t :: t in s.threads ==> s.threads[t].priority < PRIORITIES
  {
    LowestZero(s);
    Bounds(s);
    var p := Lowest(s.group, 0);
    var first := s.ready[p][0];
    assert first in s.ready[p];
    assert OnList(s, first, p);
    forall t | t in s.threads && s.threads[t].stat == Ready ensures p <= s.threads[t].priority {
      assert t in s.ready[s.threads[t].priority];
      assert s.threads[t].priority in s.group;
    }
    hide Queues, Lowest;
    DispatchKeeps(s, first);
    hide Removed;
  }

  // ---------- who exactly runs ----------

  // The one READY thread more urgent than everybody else.
  ghost predicate StrictlyFirst(s: State, w: Tid) {
    && w in s.threads && s.threads[w].stat == Ready
    && forall x :: x in s.threads && s.threads[x].stat == Ready && x != w ==> s.threads[w].priority < s.threads[x].priority
  }

  lemma FirstAlone(s: State, w: Tid)
    requires Queues(s) && StrictlyFirst(s, w)
    ensures var p := s.threads[w].priority; p < |s.ready| == PRIORITIES && Lowest(s.group, 0) == p && s.ready[p] == [w]
  {
    var p := s.threads[w].priority;
    assert w in s.ready[p] && p in s.group;
    forall i | 0 <= i < |s.ready[p]| ensures s.ready[p][i] == w {
      assert s.ready[p][i] in s.ready[p];
      assert OnList(s, s.ready[p][i], p);
    }
    OnlyMember(s.ready[p], w);
    var r := Lowest(s.group, 0);
    if r < p {
      assert s.ready[r] != [] && s.ready[r][0] in s.ready[r];
      assert OnList(s, s.ready[r][0], r);
    }
  }

  // It gets the processor from a thread that is less urgent or has stopped.
  lemma StrictWinner(s: State, w: Tid)
    requires Coherent(s) && s.current.Some? && StrictlyFirst(s, w)
    requires s.threads[s.current.value].stat == Running ==> s.threads[w].priority < s.threads[s.current.value].priority
    ensures Scheduled(s).current == Some(w) && s.current.value in s.threads
    ensures var cur := s.current.value;
            var c := s.threads[cur];
            Scheduled(s).threads == s.threads[cur := if c.stat == Running then c.(yielding := false, stat := Ready) else c]
                                             [w := s.threads[w].(stat := Running)]
  {
    FirstAlone(s, w);
    Bounds(s);
    hide Queues, Without, Lowest, StrictlyFirst;
  }

  // A running thread that has not asked to yield and is as urgent as anybody stays.
  lemma StaysOn(s: State)
    requires Coherent(s) && MostUrgentRuns(s) && !s.threads[s.current.value].yielding && s.threads[s.current.value].stat == Running
    ensures Scheduled(s).current == s.current && Scheduled(s).threads == s.threads
  {
    Schedulable(s);
    Bounds(s);
    var p, cur := Lowest(s.group, 0), s.current.value;
    if p < PRIORITIES {
      var first := s.ready[p][0];
      hide Queues, Without, Lowest;
      assert s.threads[cur].priority <= s.threads[first].priority == p;
      assert s.threads[cur := s.threads[cur].(yielding := false)] == s.threads;
      assert Scheduled(s).threads == s.threads[cur := s.threads[cur].(stat := Running)] == s.threads;
    }
  }

  // What can happen to the scheduler, in any order.
  datatype Event =
    | Reschedule | YieldCall | SuspendSelf | WakeUp(t: Tid) | SetPriority(t: Tid, p: nat)
    | EnterLock | ExitLock | StartThread(t: Tid) | SleepOver(t: Tid)

  datatype Config = Config(s: State, nest: int)

  function Rescheduled(s: State, nest: int): (s': State)
    requires Coherent(s)
    ensures Coherent(s')
  {
    if s.current.Some? && nest == 0 then
      ScheduleKeeps(s);
      Scheduled(s)
    else s
  }

  // What each event does; one that does not apply does nothing.
  function After(c: Config, e: Event): (c': Config)
    requires Coherent(c.s)
    ensures Coherent(c'.s)
  {
    KernelBounds(c.s);
    match e
    case Reschedule => c.(s := Rescheduled(c.s, c.nest))
    case YieldCall => if c.s.current.Some? then c.(s := Rescheduled(Yielding(c.s, c.s.current.value), c.nest)) else c
    case SuspendSelf =>
      if c.s.current.Some? then
        SuspendKeeps(c.s, c.s.current.value);
        c.(s := SuspendedBy(c.s, c.s.current.value))
      else c
    case WakeUp(t) =>
      if t in c.s.threads then
        ResumeKeeps(c.s, t);
        c.(s := Resumed(c.s, t))
      else c
    case SetPriority(t, p) =>
      if t in c.s.threads && p < PRIORITIES then
        ReprioritizeKeeps(c.s, t, p);
        c.(s := Reprioritized(c.s, t, p))
      else c
    case EnterLock => c.(nest := c.nest + 1)
    case ExitLock => if c.nest <= 1 then Config(Rescheduled(c.s, 0), 0) else c.(nest := c.nest - 1)
    case StartThread(t) =>
      if t in c.s.threads && c.s.threads[t].stat == Init then c.(s := Rescheduled(Started(c.s, t), c.nest)) else c
    case SleepOver(t) =>
      if t in c.s.threads && c.s.threads[t].stat == Suspended then c.(s := TimedOut(c.s, t)) else c
  }

  function AfterAll(c: Config, events: seq<Event>): (c': Config)
    requires Coherent(c.s)
    ensures Coherent(c'.s)
  {
    if events == [] then c else After(AfterAll(c, events[..|events| - 1]), events[|events| - 1])
  }

  // Whatever has happened before, a rescheduling with the scheduler unlocked, a
  // yield, or leaving the outermost critical section leaves a most urgent thread
  // running.
  lemma RightAfterRescheduling(c: Config, e: Event)
    requires Coherent(c.s) && c.s.current.Some?
    requires ((e == Reschedule || e == YieldCall) && c.nest == 0) || (e == ExitLock && c.nest <= 1)
    ensures MostUrgentRuns(After(c, e).s)
  {
    hide Queues, Roles, Scheduled, MostUrgentRuns;
    if e == YieldCall {
      ScheduledRight(Yielding(c.s, c.s.current.value));
    } else {
      ScheduledRight(c.s);
    }
  }

  // Leaving a critical section undoes entering it, except that the outermost exit
  // reschedules.
  lemma LeavingUndoesEntering(c: Config)
    requires Coherent(c.s) && c.nest >= 0
    ensures After(c, EnterLock).nest == c.nest + 1 && After(c, EnterLock).s == c.s
    ensures c.nest > 0 ==> After(After(c, EnterLock), ExitLock) == c
    ensures c.nest == 0 ==> After(After(c, EnterLock), ExitLock) == Config(Rescheduled(c.s, 0), 0)
  {
    hide Coherent, Rescheduled;
  }

  // Between entering a critical section and leaving the outermost level of it,
  // nothing that happens takes the processor away from the thread that entered.
  lemma {:induction false} CriticalSection(c: Config, events: seq<Event>)
    requires Coherent(c.s) && c.nest >= 0
    requires forall i :: 0 <= i <= |events| ==> AfterAll(After(c, EnterLock), events[..i]).nest > c.nest
    ensures AfterAll(After(c, EnterLock), events).s.current == c.s.current
  {
    hide Coherent, AfterAll;
    LockedThroughout(After(c, EnterLock), events);
  }

  lemma {:induction false} LockedThroughout(c: Config, events: seq<Event>)
    requires Coherent(c.s)
    requires forall i :: 0 <= i <= |events| ==> AfterAll(c, events[..i]).nest > 0
    ensures AfterAll(c, events).s.current == c.s.current
  {
    hide Coherent, After;
    if events != [] {
      var n := |events| - 1;
      var init := events[..n];
      forall i | 0 <= i <= n ensures AfterAll(c, init[..i]).nest > 0 {
        assert init[..i] == events[..i];
      }
      LockedThroughout(c, init);
      assert init[..n] == init && events[..n + 1] == events;
      Locked(AfterAll(c, init), events[n]);
    }
  }

  lemma Locked(c: Config, e: Event)
    requires Coherent(c.s) && c.nest > 0 && After(c, e).nest > 0
    ensures After(c, e).s.current == c.s.current
  {
    hide Queues, Roles, Scheduled, Without;
    KernelBounds(c.s);
    match e {
      case WakeUp(t) =>
        if t in c.s.threads && c.s.threads[t].stat == Suspended {
          ResumeOne(c.s, t);
        }
      case SetPriority(t, p) =>
        if t in c.s.threads && p < PRIORITIES {
          ReprioritizeOne(c.s, t, p);
        }
      case _ =>
    }
  }

  // ---------- what a call leaves of the kernel ----------

  function WithThread(s: State, t: Tid, x: Thread): State {
    s.(threads := s.threads[t := x])
  }

  // Every thread but those named waits or not as before, for the same, with the
  // same error; no priority has changed.
  ghost predicate SameExcept(a: map<Tid, Thread>, b: map<Tid, Thread>, named: set<Tid>) {
    && a.Keys == b.Keys
    && (forall t :: t in a ==> b[t].priority == a[t].priority)
    && (forall t :: t in a && t !in named ==>
          b[t].error == a[t].error && b[t].want == a[t].want && (b[t].stat == Suspended <==> a[t].stat == Suspended))
  }

  lemma ExceptThenWaits(a: map<Tid, Thread>, b: map<Tid, Thread>, c: map<Tid, Thread>, named: set<Tid>)
    requires SameExcept(a, b, named) && SameWaits(b, c)
    ensures SameExcept(a, c, named)
  {}

  lemma ExceptOne(a: map<Tid, Thread>, t: Tid, x: Thread)
    requires t in a && x.priority == a[t].priority
    ensures SameExcept(a, a[t := x], {t})
  {}

  // Thread t has been left as x, suspended, and the processor given away.
  ghost predicate WentToSleep(a: Config, t: Tid, x: Thread, b: Config) {
    var s := WithThread(a.s, t, x);
    && x.priority < |s.ready| && Coherent(SuspendedBy(s, t))
    && b == Config(Rescheduled(SuspendedBy(s, t), a.nest), a.nest)
  }

  lemma Asleep(a: Config, t: Tid, x: Thread, b: Config)
    requires Coherent(WithThread(a.s, t, x)) && a.s.current == Some(t) && t in a.s.threads
    requires x.stat == Running && x.priority == a.s.threads[t].priority
    requires WentToSleep(a, t, x, b)
    ensures SameExcept(a.s.threads, b.s.threads, {t})
    ensures t in b.s.threads && b.s.threads[t].stat == Suspended && b.s.threads[t].error == x.error && b.s.threads[t].want == x.want
  {
    hide Coherent, SuspendedBy, Rescheduled, SameExcept;
    var s := WithThread(a.s, t, x);
    SuspendOne(s, t);
    var y := x.(stat := Suspended);
    assert SuspendedBy(s, t).threads == a.s.threads[t := y];
    ExceptOne(a.s.threads, t, y);
    RescheduledWaits(SuspendedBy(s, t), a.nest);
    ExceptThenWaits(a.s.threads, SuspendedBy(s, t).threads, b.s.threads, {t});
  }

  // The timer of thread t has fired and the processor has been given to whom it may.
  ghost predicate TimerFired(a: Config, t: Tid, b: Config) {
    && Coherent(a.s) && t in a.s.threads && a.s.threads[t].stat == Suspended
    && b == Config(Rescheduled(TimedOut(a.s, t), a.nest), a.nest)
  }

  lemma Fired(a: Config, t: Tid, b: Config)
    requires TimerFired(a, t, b)
    ensures SameExcept(a.s.threads, b.s.threads, {t})
    ensures t in b.s.threads && b.s.threads[t].stat != Suspended && b.s.threads[t].error == ETIMEOUT
  {
    hide Coherent, TimedOut, Rescheduled, SameExcept;
    TimedOutOne(a.s, t);
    ExceptOne(a.s.threads, t, TimedOut(a.s, t).threads[t]);
    RescheduledWaits(TimedOut(a.s, t), a.nest);
    ExceptThenWaits(a.s.threads, TimedOut(a.s, t).threads, b.s.threads, {t});
  }

  // ---------- what one event can do to the waiting of others ----------

  // The thread that an event puts to sleep or wakes.
  function Touched(s: State, e: Event): set<Tid> {
    match e
    case SuspendSelf => if s.current.Some? then {s.current.value} else {}
    case WakeUp(t) => {t}
    case SleepOver(t) => {t}
    case _ => {}
  }

  predicate Targets(e: Event, t: Tid) {
    e.SetPriority? && e.t == t
  }

  // Every thread but those touched waits or not as before, for the same, and
  // only a priority change changes a priority, that of its target.
  ghost predicate SameOutside(a: map<Tid, Thread>, b: map<Tid, Thread>, e: Event, touched: set<Tid>) {
    && a.Keys == b.Keys
    && (forall t :: t in a && t !in touched ==>
          b[t].error == a[t].error && b[t].want == a[t].want && (b[t].stat == Suspended <==> a[t].stat == Suspended))
    && (forall t :: t in a && !Targets(e, t) ==> b[t].priority == a[t].priority)
  }

  lemma WaitsOutside(a: map<Tid, Thread>, b: map<Tid, Thread>, e: Event, touched: set<Tid>)
    requires SameWaits(a, b)
    ensures SameOutside(a, b, e, touched)
  {}

  lemma OneOutside(a: map<Tid, Thread>, t: Tid, x: Thread, e: Event)
    requires t in a && x.priority == a[t].priority
    ensures SameOutside(a, a[t := x], e, {t})
  {}

  lemma PriorityOutside(a: map<Tid, Thread>, e: Event)
    requires e.SetPriority? && e.t in a
    ensures SameOutside(a, a[e.t := a[e.t].(priority := e.p)], e, {})
  {}

  lemma SameThreads(a: map<Tid, Thread>, e: Event, touched: set<Tid>)
    ensures SameOutside(a, a, e, touched)
  {}

  lemma RescheduledWaits(s: State, nest: int)
    requires Coherent(s)
    ensures SameWaits(s.threads, Rescheduled(s, nest).threads)
  {
    hide Queues, Roles, Scheduled;
    if s.current.Some? && nest == 0 {
      ScheduleWaits(s);
    }
  }

  lemma StartWaits(s: State, t: Tid)
    requires Coherent(s) && t in s.threads && s.threads[t].stat == Init
    ensures SameWaits(s.threads, Started(s, t).threads)
  {
    hide Queues, Without, SameWaits;
    Bounds(s);
    SetStatQuiet(s, t, Suspended);
    ResumeOne(SetStat(s, t, Suspended), t);
    var x := Started(s, t).threads[t];
    assert Started(s, t).threads == s.threads[t := x];
    StatWaits(s.threads, t, x);
  }

  lemma AfterOutside(c: Config, e: Event)
    requires Coherent(c.s)
    ensures SameOutside(c.s.threads, After(c, e).s.threads, e, Touched(c.s, e))
  {
    hide Queues, Roles, Scheduled, Without, Started, SuspendedBy, Resumed, Reprioritized, TimedOut, Rescheduled, SameWaits, SameOutside;
    KernelBounds(c.s);
    var s, touched := c.s, Touched(c.s, e);
    SameThreads(s.threads, e, touched);
    match e {
      case Reschedule =>
        RescheduledWaits(s, c.nest);
        WaitsOutside(s.threads, After(c, e).s.threads, e, touched);
      case YieldCall =>
        if s.current.Some? {
          YieldWaits(s, s.current.value, c.nest);
          WaitsOutside(s.threads, After(c, e).s.threads, e, touched);
        }
      case SuspendSelf =>
        if s.current.Some? {
          SuspendOutside(s, s.current.value);
        }
      case WakeUp(t) => WakeOutside(s, t);
      case SetPriority(t, p) =>
        if t in s.threads && p < PRIORITIES {
          ReprioritizeOne(s, t, p);
          PriorityOutside(s.threads, e);
        }
      case ExitLock =>
        RescheduledWaits(s, 0);
        if c.nest <= 1 {
          WaitsOutside(s.threads, After(c, e).s.threads, e, touched);
        }
      case StartThread(t) =>
        if t in s.threads && s.threads[t].stat == Init {
          StartWaits(s, t);
          RescheduledWaits(Started(s, t), c.nest);
          WaitsTrans(s.threads, Started(s, t).threads, After(c, e).s.threads);
          WaitsOutside(s.threads, After(c, e).s.threads, e, touched);
        }
      case SleepOver(t) =>
        if t in s.threads && s.threads[t].stat == Suspended {
          TimedOutOne(s, t);
          OneOutside(s.threads, t, TimedOut(s, t).threads[t], e);
        }
      case _ =>
    }
  }

  lemma YieldWaits(s: State, t: Tid, nest: int)
    requires Coherent(s) && s.current == Some(t) && t in s.threads
    ensures SameWaits(s.threads, Rescheduled(Yielding(s, t), nest).threads)
  {
    hide Queues, Roles, Scheduled, Rescheduled;
    assert SameWaits(s.threads, Yielding(s, t).threads);
    RescheduledWaits(Yielding(s, t), nest);
    hide SameWaits;
    WaitsTrans(s.threads, Yielding(s, t).threads, Rescheduled(Yielding(s, t), nest).threads);
  }

  lemma SuspendOutside(s: State, t: Tid)
    requires Coherent(s) && s.current == Some(t) && t in s.threads && s.threads[t].priority < |s.ready|
    ensures SameOutside(s.threads, SuspendedBy(s, t).threads, SuspendSelf, {t})
  {
    if s.threads[t].stat == Running {
      SuspendOne(s, t);
      OneOutside(s.threads, t, s.threads[t].(stat := Suspended), SuspendSelf);
    }
  }

  lemma WakeOutside(s: State, t: Tid)
    requires Coherent(s)
    ensures SameOutside(s.threads, After(Config(s, 0), WakeUp(t)).s.threads, WakeUp(t), {t})
  {
    KernelBounds(s);
    hide Queues, Without;
    if t in s.threads && s.threads[t].stat == Suspended {
      ResumeOne(s, t);
      OneOutside(s.threads, t, Resumed(s, t).threads[t], WakeUp(t));
    }
  }

  // The kernel does, event by event, what After says, and its queues are right
  // throughout.
  method Run(k: Kernel, events: seq<Event>)
    requires k.Valid()
    modifies k
    ensures k.Valid() && Config(k.Now(), k.lockNest) == AfterAll(Config(old(k.Now()), old(k.lockNest)), events)
  {
    hide Queues, Roles, Scheduled, Started, SuspendedBy, Resumed, Reprioritized, TimedOut, Yielding;
    ghost var c := Config(k.Now(), k.lockNest);
    for i := 0 to |events|
      invariant k.Valid() && Config(k.Now(), k.lockNest) == AfterAll(c, events[..i])
    {
      assert events[..i + 1][..i] == events[..i];
      RunOne(k, events[i]);
    }
    assert events[..|events|] == events;
  }

  method RunOne(k: Kernel, e: Event)
    requires k.Valid()
    modifies k
    ensures k.Valid() && Config(k.Now(), k.lockNest) == After(Config(old(k.Now()), old(k.lockNest)), e)
  {
    hide Queues, Roles, Scheduled, Started, SuspendedBy, Resumed, Reprioritized, TimedOut, Yielding;
    KernelBounds(k.Now());
    match e {
      case Reschedule =>
        if k.current.Some? {
          k.Schedule();
        }
      case YieldCall =>
        if k.current.Some? {
          k.Yield(k.current.value);
        }
      case SuspendSelf =>
        if k.current.Some? {
          k.Suspend(k.current.value);
        }
      case WakeUp(t) =>
        if t in k.threads {
          k.Resume(t);
        }
      case SetPriority(t, p) =>
        if t in k.threads && p < PRIORITIES {
          k.ChangePriority(t, p);
        }
      case EnterLock => k.EnterCritical();
      case ExitLock => k.ExitCritical();
      case StartThread(t) =>
        if t in k.threads && k.threads[t].stat == Init {
          k.Startup(t);
        }
      case SleepOver(t) =>
        if t in k.threads && k.threads[t].stat == Suspended {
          k.WakeByTimeout(t);
        }
    }
  }

  lemma ScheduledRight(s: State)
    requires Coherent(s) && s.current.Some?
    ensures MostUrgentRuns(Scheduled(s))
  {
    ScheduleIsRight(s);
    hide Queues, Roles, Scheduled;
  }

  // Fields that no queue depends on.
  lemma ErrorQuiet(s: State, t: Tid, x: Thread)
    requires Coherent(s) && t in s.threads
    requires x.stat == s.threads[t].stat && x.priority == s.threads[t].priority
    ensures Coherent(s.(threads := s.threads[t := x]))
  {
    var s' := s.(threads := s.threads[t := x]);
    forall q, y | 0 <= q < PRIORITIES && y in s'.ready[q] ensures OnList(s', y, q) {
      assert OnList(s, y, q);
    }
  }
}
