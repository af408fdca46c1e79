/** rt_event_*: sets of flag bits and the threads waiting for all or any of some
    of them. A receiver must ask for AND or OR; the code asserts that it does. */
module Events {
  import opened Bytes
  import opened Lists
  import opened Scheduling
  import opened WaitLists

  predicate Satisfied(w: Want, bits: Flags) {
    if w.all then w.bits <= bits else w.bits * bits != {}
  }

  // What a satisfied waiter is given.
  function Received(w: Want, bits: Flags): Flags {
    if w.all then w.bits else w.bits * bits
  }

  lemma Meant(want: Flags, all: bool, clear: bool, bits: Flags)
    ensures !all ==> (Satisfied(Want(want, all, clear), bits) <==> want * bits != {})
    ensures all ==> (Satisfied(Want(want, all, clear), bits) <==> want <= bits)
    ensures all && want <= bits ==> bits * want == want
    ensures bits * want == want * bits
  {}

  // ---------- the scan of rt_event_send ----------

  function AfterWaking(w: Want, bits: Flags): Flags {
    if w.clear then bits - Received(w, bits) else bits
  }

  // The flags left and the threads still waiting after the list has been walked
  // in order: each satisfied thread is woken, and with CLEAR takes its flags away
  // from those behind it.
  function Scan(bits: Flags, ws: seq<Tid>, threads: map<Tid, Thread>): (Flags, seq<Tid>)
    requires forall t :: t in ws ==> t in threads
  {
    if ws == [] then (bits, [])
    else
      var w := threads[ws[0]].want;
      if Satisfied(w, bits) then Scan(AfterWaking(w, bits), ws[1..], threads)
      else
        var r := Scan(bits, ws[1..], threads);
        (r.0, [ws[0]] + r.1)
  }

  // No satisfied waiter is left behind, although waking one can take flags away
  // in the middle of the walk.
  lemma {:induction false} ScanStrandsNobody(bits: Flags, ws: seq<Tid>, threads: map<Tid, Thread>)
    requires forall t :: t in ws ==> t in threads
    ensures Scan(bits, ws, threads).0 <= bits
    ensures forall t :: t in Scan(bits, ws, threads).1 ==> t in ws && !Satisfied(threads[t].want, Scan(bits, ws, threads).0)
    decreases ws
  {
    if ws != [] {
      var w := threads[ws[0]].want;
      ScanStrandsNobody(if Satisfied(w, bits) then AfterWaking(w, bits) else bits, ws[1..], threads);
    }
  }

  // A thread is woken exactly if it is satisfied when its turn comes, and then it
  // receives something, nothing it did not ask for, and for AND all it asked for.
  lemma {:induction false} ScanWakes(bits: Flags, ws: seq<Tid>, threads: map<Tid, Thread>, i: nat)
    requires i < |ws| && NoDup(ws) && forall t :: t in ws ==> t in threads
    ensures var turn := Scan(bits, ws[..i], threads).0;
            var w := threads[ws[i]].want;
            && (ws[i] in Scan(bits, ws, threads).1 <==> !Satisfied(w, turn))
            && (Satisfied(w, turn) && w.bits != {} ==>
                  Received(w, turn) != {} && Received(w, turn) <= w.bits && Received(w, turn) <= turn && (w.all ==> Received(w, turn) == w.bits))
    decreases ws
  {
    var w := threads[ws[0]].want;
    var bits' := if Satisfied(w, bits) then AfterWaking(w, bits) else bits;
    assert forall j :: 0 <= j < |ws[1..]| ==> ws[1..][j] == ws[j + 1];
    ScanStrandsNobody(bits', ws[1..], threads);
    if i > 0 {
      ScanWakes(bits', ws[1..], threads, i - 1);
      assert ws[..i][1..] == ws[1..][..i - 1];
    } else {
      assert ws[0] !in ws[1..];
    }
  }

  lemma {:induction false} ScanSnoc(bits: Flags, ws: seq<Tid>, threads: map<Tid, Thread>, t: Tid)
    requires forall x :: x in ws + [t] ==> x in threads
    requires forall x :: x in ws ==> x in ws + [t]
    ensures var r, w := Scan(bits, ws, threads), threads[t].want;
            Scan(bits, ws + [t], threads) == if Satisfied(w, r.0) then (AfterWaking(w, r.0), r.1) else (r.0, r.1 + [t])
    decreases ws
  {
    hide Satisfied, AfterWaking;
    if ws == [] {
      assert [t][1..] == [] && ws + [t] == [t] && [t] + [] == [] + [t];
      assert Scan(bits, [], threads) == (bits, []) && Scan(AfterWaking(threads[t].want, bits), [], threads) == (AfterWaking(threads[t].want, bits), []);
    } else {
      var w, tail := threads[ws[0]].want, ws[1..] + [t];
      assert (ws + [t])[1..] == tail && (ws + [t])[0] == ws[0];
      assert forall x :: x in tail ==> x in ws + [t];
      ScanSnoc(if Satisfied(w, bits) then AfterWaking(w, bits) else bits, ws[1..], threads, t);
      var r := Scan(bits, ws[1..], threads);
      assert [ws[0]] + (r.1 + [t]) == ([ws[0]] + r.1) + [t];
    }
  }

  // Everybody on the list waits for something, and for something that is not there,
  // and will find no error when it comes.
  ghost predicate EventOk(threads: map<Tid, Thread>, bits: Flags, waiters: seq<Tid>) {
    && Waiting(threads, waiters)
    && forall t :: t in waiters ==>
         t in threads && threads[t].error == EOK && threads[t].want.bits != {} && !Satisfied(threads[t].want, bits)
  }

  // Activity elsewhere that wakes no waiter and rewrites no request does no harm.
  lemma EventFrame(a: map<Tid, Thread>, b: map<Tid, Thread>, bits: Flags, waiters: seq<Tid>)
    requires EventOk(a, bits, waiters)
    requires forall t :: t in waiters ==> t in b && b[t].stat == Suspended && b[t].want == a[t].want && b[t].error == a[t].error
    ensures EventOk(b, bits, waiters)
  {
    hide NoDup;
  }

  // How the threads look when the first i of the list have been seen to.
  ghost predicate Seen(before: map<Tid, Thread>, now: map<Tid, Thread>, bits: Flags, ws: seq<Tid>, i: nat, current: Option<Tid>)
    requires i <= |ws| && forall t :: t in ws ==> t in before
  {
    && now.Keys == before.Keys
    && (forall t :: t in before && t !in ws ==> now[t] == before[t])
    && (forall j :: 0 <= j < |ws| ==> ws[j] in now && now[ws[j]] == if j < i then SeenTo(before, bits, ws, j, current) else before[ws[j]])
  }

  // Thread ws[j] after its turn: untouched, or awake with what it received.
  ghost function SeenTo(before: map<Tid, Thread>, bits: Flags, ws: seq<Tid>, j: nat, current: Option<Tid>): Thread
    requires j < |ws| && forall t :: t in ws ==> t in before
  {
    var x, turn := before[ws[j]], Scan(bits, ws[..j], before).0;
    if Satisfied(x.want, turn) then x.(want := x.want.(bits := Received(x.want, turn)), stat := Awake(current, ws[j])) else x
  }

  datatype Reply = Got(bits: Flags) | TimedOut | Refused | Blocked

  class Event {
    const k: Kernel
    const flag: Flag
    var bits: Flags
    var waiters: seq<Tid>

    ghost predicate Valid()
      reads this, k
    {
      k.Valid() && EventOk(k.threads, bits, waiters)
    }

    ghost function Shot(): Snap
      reads this, k
    {
      Snap(bits, waiters, Config(k.Now(), k.lockNest))
    }

    // rt_event_init.
    constructor (k: Kernel, flag: Flag)
      requires k.Valid()
      ensures Valid() && this.k == k && this.flag == flag && bits == {} && waiters == []
    {
      this.k, this.flag := k, flag;
      bits, waiters := {}, [];
    }

    // The body of the walk for thread ws[i].
    method Visit(ws: seq<Tid>, i: nat, kept: seq<Tid>, ghost before: map<Tid, Thread>, ghost bits0: Flags) returns (kept': seq<Tid>, woken: bool)
      requires k.Valid() && Waiting(before, ws) && i < |ws|
      requires Seen(before, k.threads, bits0, ws, i, k.current)
      requires (bits, kept) == Scan(bits0, ws[..i], before)
      modifies k, `bits
      ensures k.Valid() && k.current == old(k.current) && k.lockNest == old(k.lockNest)
      ensures Seen(before, k.threads, bits0, ws, i + 1, k.current)
      ensures (bits, kept') == Scan(bits0, ws[..i + 1], before)
      ensures if woken then kept' == kept else kept' == kept + [ws[i]] && k.Now() == old(k.Now())
    {
      hide Coherent, Scan, Satisfied, Received, AfterWaking, Seen, NoDup;
      var t := ws[i];
      SeenStep(before, k.threads, bits0, ws, i, k.current);
      assert k.threads[t := k.threads[t]] == k.threads;
      assert ws[..i + 1] == ws[..i] + [t];
      ScanSnoc(bits0, ws[..i], before, t);
      var w := k.threads[t].want;
      woken, kept' := Satisfied(w, bits), kept + [t];
      if woken {
        KernelBounds(k.Now());
        k.SetWant(t, w.(bits := Received(w, bits)));
        bits := AfterWaking(w, bits);
        kept' := kept;
        ResumeOne(k.Now(), t);
        k.Resume(t);
        assert k.threads == old(k.threads)[t := k.threads[t]];
      }
    }

    // rt_event_send.
    method Send(more: Flags) returns (ok: bool)
      requires Valid() && k.current.Some?
      modifies this, k
      ensures Valid()
      ensures ok <==> more != {}
      ensures !ok ==> Shot() == old(Shot())
      ensures ok ==> SentTo(old(k.threads), old(bits) + more, old(waiters))
      // the processor is given away again exactly if somebody has been woken
      ensures k.lockNest == old(k.lockNest) && |waiters| <= |old(waiters)|
      ensures |waiters| == |old(waiters)| ==> k.Now() == old(k.Now())
      ensures |waiters| < |old(waiters)| && k.lockNest == 0 ==> MostUrgentRuns(k.Now())
    {
      hide MostUrgentRuns, Coherent, Scan, Seen, SeenTo, Satisfied;
      if more == {} {
        return false;
      }
      ok := true;
      ghost var before, bits0 := k.threads, bits + more;
      bits := bits + more;
      var ws, kept, need, i := waiters, [], false, 0;
      SeenNone(before, bits, ws, k.current);
      while i < |ws|
        invariant i <= |ws| && k.Valid() && k.current == old(k.current)
        invariant Seen(before, k.threads, bits0, ws, i, k.current)
        invariant (bits, kept) == Scan(bits0, ws[..i], before)
        invariant k.lockNest == old(k.lockNest) && |kept| <= i && (need <==> |kept| < i) && (!need ==> k.Now() == old(k.Now()))
      {
        var woken;
        kept, woken := Visit(ws, i, kept, before, bits0);
        need := need || woken;
        i := i + 1;
      }
      assert ws[..|ws|] == ws;
      waiters := kept;
      SendKeeps(before, k.threads, bits0, ws, k.current);
      SeenWakes(before, k.threads, bits0, ws, k.current);
      SeenExcept(before, k.threads, bits0, ws, k.current);
      if need {
        ScheduleAround(before, bits0, ws);
      }
    }

    // The outcome of a send: the flags and the list as Scan says, the threads it
    // woke holding what they received and no longer suspended, the others as before.
    ghost predicate SentTo(before: map<Tid, Thread>, bits0: Flags, ws: seq<Tid>)
      requires forall t :: t in ws ==> t in before
      reads this, k
    {
      && (bits, waiters) == Scan(bits0, ws, before)
      && WokenHold(before, k.threads, bits0, ws) && SameExcept(before, k.threads, Members(ws))
    }

    method ScheduleAround(ghost before: map<Tid, Thread>, ghost bits0: Flags, ghost ws: seq<Tid>)
      requires Valid() && k.current.Some? && forall t :: t in ws ==> t in before
      requires WokenHold(before, k.threads, bits0, ws) && SameExcept(before, k.threads, Members(ws))
      modifies k
      ensures Valid() && WokenHold(before, k.threads, bits0, ws) && SameExcept(before, k.threads, Members(ws))
      ensures SameWaits(old(k.threads), k.threads) && k.lockNest == old(k.lockNest)
      ensures k.Now() == Rescheduled(old(k.Now()), old(k.lockNest)) && (k.lockNest == 0 ==> MostUrgentRuns(k.Now()))
    {
      hide MostUrgentRuns, Coherent, Scan, Satisfied;
      ghost var now := k.threads;
      ScheduledRight(k.Now());
      ScheduleWaits(k.Now());
      k.Schedule();
      assert SameWaits(now, k.threads);
      EventFrame(now, k.threads, bits, waiters);
      ExceptThenWaits(before, now, k.threads, Members(ws));
    }

    // rt_schedule, with nothing else to keep track of.
    method Reschedule()
      requires Valid() && k.current.Some?
      modifies k
      ensures Valid() && SameWaits(old(k.threads), k.threads) && k.lockNest == old(k.lockNest)
      ensures k.Now() == Rescheduled(old(k.Now()), old(k.lockNest)) && (k.lockNest == 0 ==> MostUrgentRuns(k.Now()))
    {
      hide MostUrgentRuns, Coherent, Scan, Satisfied, SameWaits, Rescheduled;
      ExceptSelf(k.threads);
      ScheduleAround(k.threads, {}, []);
    }

    // How the running thread stands when its receive returns at once, or waits.
    ghost function Served(t: Tid, w: Want): Thread
      requires t in k.threads
      reads k
    {
      k.threads[t].(error := EOK, want := w)
    }

    // rt_event_recv up to the point where the thread has its flags, is refused, or
    // is on the wait list with its request and the scheduler has chosen another.
    method Recv(t: Tid, want: Flags, all: bool, clear: bool, timeout: int) returns (r: Reply)
      requires Valid() && k.current == Some(t) && k.threads[t].stat == Running
      modifies this, k
      ensures Valid() && t in old(k.threads)
      ensures want == {} ==> r == Refused && Shot() == old(Shot())
      ensures want != {} && Satisfied(Want(want, all, clear), old(bits)) ==>
                && r == Got(old(bits) * want) && waiters == old(waiters) && bits == (if clear then old(bits) - want else old(bits))
                && Shot().c == old(Shot().c).(s := WithThread(old(k.Now()), t, old(Served(t, Want(bits * want, all, clear)))))
      ensures want != {} && !Satisfied(Want(want, all, clear), old(bits)) && timeout == 0 ==>
                && r == TimedOut && bits == old(bits) && waiters == old(waiters)
                && Shot().c == old(Shot().c).(s := WithThread(old(k.Now()), t, old(k.threads)[t].(error := ETIMEOUT)))
      ensures want != {} && !Satisfied(Want(want, all, clear), old(bits)) && timeout != 0 ==>
                && r == Blocked && bits == old(bits) && Queued(flag, old(k.threads), old(waiters), t, waiters)
                && (forall x :: x in waiters <==> x == t || x in old(waiters))
                && WentToSleep(old(Shot().c), t, old(Served(t, Want(want, all, clear))), Shot().c)
      // any flag is enough for OR, and all are needed for AND
      ensures !all && want * old(bits) != {} ==> r == Got(want * old(bits))
      ensures all && want != {} && want <= old(bits) ==> r == Got(want)
      ensures want != {} && (if all then !(want <= old(bits)) else want * old(bits) == {}) ==> r == if timeout == 0 then TimedOut else Blocked
    {
      Meant(want, all, clear, bits);
      hide Coherent, NoDup, Satisfied, Queued;
      KernelBounds(k.Now());
      if want == {} {
        return Refused;
      }
      ghost var now, c := k.threads, Shot().c;
      assert t !in waiters;
      if Satisfied(Want(want, all, clear), bits) {
        k.SetError(t, EOK);
        r := Got(bits * want);
        k.SetWant(t, Want(bits * want, all, clear));
        assert k.threads == now[t := now[t].(error := EOK, want := Want(bits * want, all, clear))];
        if clear {
          bits := bits - want;
        }
        TakenKeeps(now, k.threads, old(bits), bits, waiters);
      } else if timeout == 0 {
        k.SetError(t, EOK);
        k.SetError(t, ETIMEOUT);
        assert k.threads == now[t := now[t].(error := ETIMEOUT)];
        r := TimedOut;
        EventFrame(now, k.threads, bits, waiters);
      } else {
        k.SetError(t, EOK);
        k.SetWant(t, Want(want, all, clear));
        Wait(t, now, Want(want, all, clear), c);
        r := Blocked;
      }
    }

    // The part of rt_event_recv that joins the list.
    method Wait(t: Tid, ghost now: map<Tid, Thread>, w: Want, ghost c: Config)
      requires k.Valid() && k.current == Some(t) && EventOk(now, bits, waiters) && t in now && t !in waiters
      requires now[t].stat == Running && k.threads == now[t := now[t].(error := EOK, want := w)]
      requires w.bits != {} && !Satisfied(w, bits)
      requires c.s.threads == now && Config(k.Now(), k.lockNest) == c.(s := WithThread(c.s, t, now[t].(error := EOK, want := w)))
      modifies `waiters, k
      ensures Valid() && Queued(flag, now, old(waiters), t, waiters) && forall x :: x in waiters <==> x == t || x in old(waiters)
      ensures WentToSleep(c, t, now[t].(error := EOK, want := w), Shot().c)
    {
      hide Coherent, NoDup, Satisfied, Queued, SuspendedBy, Rescheduled;
      ghost var asked, ws := k.threads, waiters;
      waiters := SuspendOn(k, waiters, t, flag);
      QueuedSame(asked, now, flag, ws, t, waiters);
      EventFrame(now, k.threads, bits, ws);
      Reschedule();
    }

    // The timer of a waiter fires.
    method Expire(t: Tid)
      requires Valid() && t in waiters && k.current.Some?
      modifies this, k
      ensures Valid() && bits == old(bits) && waiters == Without(old(waiters), t) && forall x :: x in waiters <==> x in old(waiters) && x != t
      ensures SentAway(k.threads, t, ETIMEOUT) && TimerFired(old(Shot().c), t, Shot().c)
    {
      hide Coherent, NoDup, Satisfied, Without, Scheduling.TimedOut, Rescheduled;
      waiters := TimeOut(k, waiters, t);
      Reschedule();
    }

    // rt_event_control with RT_IPC_CMD_RESET.
    method Reset()
      requires Valid() && k.current.Some?
      modifies this, k
      ensures Valid() && bits == {} && waiters == []
      ensures forall t :: t in old(waiters) ==> SentAway(k.threads, t, ERROR)
      ensures SameExcept(old(k.threads), k.threads, Members(old(waiters)))
      ensures k.lockNest == old(k.lockNest) && (k.lockNest == 0 ==> MostUrgentRuns(k.Now()))
    {
      hide MostUrgentRuns, Coherent, NoDup, Satisfied;
      ghost var threads := k.threads;
      ResumeAll(k, waiters);
      ExpelledSentAway(threads, k.threads, waiters, k.current);
      ghost var now := k.threads;
      waiters, bits := [], {};
      EventEmpty(k.threads, bits);
      ExpelledExcept(threads, now, old(waiters), k.current);
      hide Expelled;
      Reschedule();
      StillSentAway(now, k.threads, old(waiters), ERROR);
      ExceptThenWaits(threads, now, k.threads, Members(old(waiters)));
    }

    // Whether an event is somewhere else.
    method Untouched(e: Scheduling.Event) returns (yes: bool)
      ensures yes <==> Elsewhere(Shot(), e)
    {
      yes := forall t :: t in Touched(State(k.threads, k.ready, k.group, k.current), e) ==> t !in waiters;
    }

    // Something happens elsewhere in the kernel.
    method Other(e: Scheduling.Event)
      requires Valid() && Elsewhere(Shot(), e)
      modifies k
      ensures Valid() && Shot().c == After(old(Shot().c), e)
    {
      hide Coherent, NoDup, Satisfied, After;
      ghost var c := Shot().c;
      AfterOutside(c, e);
      Scheduling.RunOne(k, e);
      assert k.threads == After(c, e).s.threads;
      EventFrame(c.s.threads, k.threads, bits, waiters);
    }
  }

  // What becomes of a waiter x whose turn came when the flags were `turn`: woken
  // with what it received, or untouched.
  ghost predicate Woken(x: Thread, y: Thread, turn: Flags) {
    && y.error == x.error
    && (Satisfied(x.want, turn) ==> y.want == x.want.(bits := Received(x.want, turn)) && y.stat != Suspended)
    && (!Satisfied(x.want, turn) ==> y.want == x.want && (y.stat == Suspended <==> x.stat == Suspended))
  }

  ghost predicate WokenHold(before: map<Tid, Thread>, after: map<Tid, Thread>, bits: Flags, ws: seq<Tid>)
    requires forall t :: t in ws ==> t in before
  {
    forall j :: 0 <= j < |ws| ==> ws[j] in after && Woken(before[ws[j]], after[ws[j]], Scan(bits, ws[..j], before).0)
  }

  lemma ExceptSelf(a: map<Tid, Thread>)
    ensures SameExcept(a, a, Members([]))
  {}

  lemma ExpelledExcept(a: map<Tid, Thread>, b: map<Tid, Thread>, ws: seq<Tid>, current: Option<Tid>)
    requires Expelled(a, b, ws, [], current)
    ensures SameExcept(a, b, Members(ws))
  {}

  lemma SeenExcept(before: map<Tid, Thread>, now: map<Tid, Thread>, bits: Flags, ws: seq<Tid>, current: Option<Tid>)
    requires (forall t :: t in ws ==> t in before) && Seen(before, now, bits, ws, |ws|, current)
    ensures SameExcept(before, now, Members(ws))
  {
    hide Scan, Satisfied, Received;
    forall t | t in before ensures now[t].priority == before[t].priority {
      if t in ws {
        var j :| 0 <= j < |ws| && ws[j] == t;
      }
    }
  }

  lemma SeenNone(before: map<Tid, Thread>, bits: Flags, ws: seq<Tid>, current: Option<Tid>)
    requires forall t :: t in ws ==> t in before
    ensures Seen(before, before, bits, ws, 0, current)
    ensures Scan(bits, ws[..0], before) == (bits, [])
  {}

  lemma SeenWakes(before: map<Tid, Thread>, now: map<Tid, Thread>, bits: Flags, ws: seq<Tid>, current: Option<Tid>)
    requires (forall t :: t in ws ==> t in before) && Seen(before, now, bits, ws, |ws|, current)
    ensures WokenHold(before, now, bits, ws)
  {
    hide Scan, Satisfied, Received;
  }

  // A thread the walk leaves on the list has not been touched.
  lemma LeftAlone(before: map<Tid, Thread>, now: map<Tid, Thread>, bits: Flags, ws: seq<Tid>, current: Option<Tid>, t: Tid)
    requires Waiting(before, ws) && Seen(before, now, bits, ws, |ws|, current) && t in Scan(bits, ws, before).1
    ensures t in ws && t in now && now[t] == before[t] && !Satisfied(before[t].want, Scan(bits, ws, before).0)
  {
    ScanStrandsNobody(bits, ws, before);
    var j :| 0 <= j < |ws| && ws[j] == t;
    ScanWakes(bits, ws, before, j);
    hide Scan, Satisfied, NoDup;
  }

  lemma SendKeeps(before: map<Tid, Thread>, now: map<Tid, Thread>, bits: Flags, ws: seq<Tid>, current: Option<Tid>)
    requires Waiting(before, ws) && Seen(before, now, bits, ws, |ws|, current)
    requires forall t :: t in ws ==> before[t].want.bits != {} && before[t].error == EOK
    ensures EventOk(now, Scan(bits, ws, before).0, Scan(bits, ws, before).1)
  {
    hide Scan, Seen, Satisfied;
    forall t | t in Scan(bits, ws, before).1
      ensures t in ws && t in now && now[t] == before[t] && !Satisfied(before[t].want, Scan(bits, ws, before).0)
    {
      LeftAlone(before, now, bits, ws, current, t);
    }
    ScanNoDup(bits, ws, before);
    hide NoDup;
  }

  lemma {:induction false} ScanNoDup(bits: Flags, ws: seq<Tid>, threads: map<Tid, Thread>)
    requires NoDup(ws) && forall t :: t in ws ==> t in threads
    ensures NoDup(Scan(bits, ws, threads).1)
    decreases ws
  {
    if ws != [] {
      var w := threads[ws[0]].want;
      var bits' := if Satisfied(w, bits) then AfterWaking(w, bits) else bits;
      assert forall j :: 0 <= j < |ws[1..]| ==> ws[1..][j] == ws[j + 1];
      ScanNoDup(bits', ws[1..], threads);
      ScanStrandsNobody(bits', ws[1..], threads);
      assert ws[0] !in ws[1..];
    }
  }

  // Flags taken away satisfy nobody.
  lemma TakenKeeps(a: map<Tid, Thread>, b: map<Tid, Thread>, bits: Flags, fewer: Flags, waiters: seq<Tid>)
    requires EventOk(a, bits, waiters) && fewer <= bits
    requires forall t :: t in waiters ==> t in b && b[t] == a[t]
    ensures EventOk(b, fewer, waiters)
  {
    hide NoDup;
  }

  lemma EventEmpty(threads: map<Tid, Thread>, bits: Flags)
    ensures EventOk(threads, bits, [])
  {}

  lemma SeenStep(before: map<Tid, Thread>, now: map<Tid, Thread>, bits: Flags, ws: seq<Tid>, i: nat, current: Option<Tid>)
    requires i < |ws| && NoDup(ws) && forall t :: t in ws ==> t in before
    requires Seen(before, now, bits, ws, i, current)
    ensures ws[i] in now && now[ws[i]] == before[ws[i]]
    ensures Seen(before, now[ws[i] := SeenTo(before, bits, ws, i, current)], bits, ws, i + 1, current)
  {
    hide SeenTo;
  }

  // ---------- any run ----------

  // What can happen around an event object, in any order: calls by the running
  // thread, the timer of a waiter, and whatever else the kernel does.
  datatype Act = CallSend(more: Flags) | CallRecv(want: Flags, all: bool, clear: bool, timeout: int) | CallReset | Timer(t: Tid)
    | Other(e: Scheduling.Event)

  datatype Snap = Snap(bits: Flags, waiters: seq<Tid>, c: Config) {
    function Threads(): map<Tid, Thread> { c.s.threads }
    function Current(): Option<Tid> { c.s.current }
  }

  ghost predicate HasRunner(a: Snap) {
    a.Current().Some? && a.Current().value in a.Threads() && a.Threads()[a.Current().value].stat == Running
  }

  // The event wakes no waiter of this object.
  ghost predicate Elsewhere(a: Snap, e: Scheduling.Event) {
    forall t :: t in Touched(a.c.s, e) ==> t !in a.waiters
  }

  // The scheduler has chosen again, or nothing has happened to it.
  ghost predicate Chosen(a: Snap, b: Snap, again: bool) {
    b.c.nest == a.c.nest && if again then (a.c.nest == 0 ==> MostUrgentRuns(b.c.s)) else b.c == a.c
  }

  // What becomes of the flags, the list and the threads in one act.
  ghost predicate EventStep(flag: Flag, a: Snap, act: Act, b: Snap) {
    match act
    case CallSend(more) =>
      if a.Current().Some? && more != {} then
        && (forall t :: t in a.waiters ==> t in a.Threads())
        && (b.bits, b.waiters) == Scan(a.bits + more, a.waiters, a.Threads())
        && WokenHold(a.Threads(), b.Threads(), a.bits + more, a.waiters)
        && SameExcept(a.Threads(), b.Threads(), Members(a.waiters)) && Chosen(a, b, |b.waiters| < |a.waiters|)
      else b == a
    case CallRecv(want, all, clear, timeout) =>
      if !HasRunner(a) || want == {} then b == a else RecvStep(flag, a, Want(want, all, clear), timeout, b)
    case CallReset =>
      if a.Current().Some? then
        && b.bits == {} && b.waiters == []
        && (forall t :: t in a.waiters ==> SentAway(b.Threads(), t, ERROR))
        && SameExcept(a.Threads(), b.Threads(), Members(a.waiters)) && Chosen(a, b, true)
      else b == a
    case Timer(t) =>
      if a.Current().Some? && t in a.waiters then
        && b.bits == a.bits && b.waiters == Without(a.waiters, t) && (forall x :: x in b.waiters <==> x in a.waiters && x != t)
        && TimerFired(a.c, t, b.c)
      else b == a
    case Other(e) =>
      && b.bits == a.bits && b.waiters == a.waiters
      && if Coherent(a.c.s) && Elsewhere(a, e) then b.c == After(a.c, e) else b == a
  }

  // The flags are there and the caller has them; or it is turned away; or it waits,
  // recorded with what it asked for.
  ghost predicate RecvStep(flag: Flag, a: Snap, w: Want, timeout: int, b: Snap)
    requires HasRunner(a)
  {
    var t := a.Current().value;
    var x := a.Threads()[t];
    if Satisfied(w, a.bits) then
      && b.waiters == a.waiters && b.bits == (if w.clear then a.bits - w.bits else a.bits)
      && b.c == a.c.(s := WithThread(a.c.s, t, x.(error := EOK, want := w.(bits := a.bits * w.bits))))
    else if timeout == 0 then
      && b.waiters == a.waiters && b.bits == a.bits
      && b.c == a.c.(s := WithThread(a.c.s, t, x.(error := ETIMEOUT)))
    else
      && b.bits == a.bits && Queued(flag, a.Threads(), a.waiters, t, b.waiters)
      && (forall y :: y in b.waiters <==> y == t || y in a.waiters)
      && WentToSleep(a.c, t, x.(error := EOK, want := w), b.c)
  }

  // What w asks for is among the flags: for OR a flag of it, for AND every one.
  ghost predicate There(w: Want, bits: Flags) {
    (!w.all && exists f :: f in w.bits && f in bits) || (w.all && forall f :: f in w.bits ==> f in bits)
  }

  lemma ThereIs(w: Want, bits: Flags)
    ensures There(w, bits) <==> Satisfied(w, bits)
  {
    if !w.all && w.bits * bits != {} {
      var f :| f in w.bits * bits;
      assert f in w.bits && f in bits;
    }
    if f :| f in w.bits && f in bits {
      assert f in w.bits * bits;
    }
  }

  ghost predicate Stranded(a: Snap) {
    exists t :: t in a.waiters && t in a.Threads() && There(a.Threads()[t].want, a.bits)
  }

  ghost predicate Sound(a: Snap) {
    Coherent(a.c.s) && EventOk(a.Threads(), a.bits, a.waiters)
  }

  ghost predicate Trace(flag: Flag, acts: seq<Act>, run: seq<Snap>) {
    && |run| == |acts| + 1 && (forall i :: 0 <= i < |acts| ==> EventStep(flag, run[i], acts[i], run[i + 1]))
    && forall i :: 0 <= i <= |acts| ==> Sound(run[i])
  }

  // At every point of every sequence of acts nobody waits for something that is
  // there, and each act does what EventStep says.
  method Run(e: Event, acts: seq<Act>) returns (ghost run: seq<Snap>)
    requires e.Valid()
    modifies e, e.k
    ensures e.Valid() && Trace(e.flag, acts, run) && run[0] == old(e.Shot()) && run[|acts|] == e.Shot()
    ensures forall i :: 0 <= i <= |acts| ==> !Stranded(run[i])
  {
    hide Coherent, EventOk, EventStep, Stranded;
    run := [e.Shot()];
    NobodyStranded(e.Shot());
    for i := 0 to |acts|
      invariant e.Valid()
      invariant |run| == i + 1 && run[0] == old(e.Shot()) && run[i] == e.Shot()
      invariant forall k :: 0 <= k < i ==> EventStep(e.flag, run[k], acts[k], run[k + 1])
      invariant forall k :: 0 <= k <= i ==> Sound(run[k]) && !Stranded(run[k])
    {
      RunOne(e, acts[i]);
      NobodyStranded(e.Shot());
      run := run + [e.Shot()];
    }
  }

  method RunOne(e: Event, act: Act)
    requires e.Valid()
    modifies e, e.k
    ensures e.Valid() && EventStep(e.flag, old(e.Shot()), act, e.Shot())
  {
    hide MostUrgentRuns, Coherent, NoDup, Scan, Satisfied, After, Queued, WentToSleep, TimerFired, SameExcept, Without;
    KernelBounds(e.k.Now());
    match act {
      case CallSend(more) =>
        if e.k.current.Some? {
          var _ := e.Send(more);
        }
      case CallRecv(want, all, clear, timeout) =>
        if e.k.current.Some? && e.k.threads[e.k.current.value].stat == Running {
          var _ := e.Recv(e.k.current.value, want, all, clear, timeout);
        }
      case CallReset =>
        if e.k.current.Some? {
          e.Reset();
        }
      case Timer(t) =>
        if e.k.current.Some? && t in e.waiters {
          e.Expire(t);
        }
      case Other(e') =>
        var allowed := e.Untouched(e');
        if allowed {
          e.Other(e');
        }
    }
  }

  lemma NobodyStranded(a: Snap)
    requires EventOk(a.Threads(), a.bits, a.waiters)
    ensures !Stranded(a)
  {
    if t :| t in a.waiters && t in a.Threads() && There(a.Threads()[t].want, a.bits) {
      ThereIs(a.Threads()[t].want, a.bits);
    }
  }

  // ---------- what a receiver can rely on ----------

  // The running thread asks for w, and what it asks for is not there.
  ghost predicate BeginsToWait(a: Snap, act: Act, t: Tid, w: Want) {
    && HasRunner(a) && a.Current() == Some(t)
    && act.CallRecv? && w == Want(act.want, act.all, act.clear) && act.timeout != 0 && w.bits != {} && !There(w, a.bits)
  }

  ghost predicate Waits(a: Snap, t: Tid, w: Want) {
    t in a.waiters && t in a.Threads() && a.Threads()[t].want == w
  }

  lemma BeginsRecorded(flag: Flag, a: Snap, act: Act, b: Snap, t: Tid, w: Want)
    requires Sound(a) && EventStep(flag, a, act, b) && BeginsToWait(a, act, t, w)
    ensures Waits(b, t, w)
  {
    var x := a.Threads()[t].(error := EOK, want := w);
    ErrorQuiet(a.c.s, t, x);
    ThereIs(w, a.bits);
    hide Coherent, WentToSleep, Queued;
    Asleep(a.c, t, x, b.c);
  }

  // As long as it waits, its request stands.
  lemma StillRecorded(flag: Flag, a: Snap, act: Act, b: Snap, t: Tid, w: Want)
    requires Sound(a) && EventStep(flag, a, act, b) && Waits(a, t, w) && t in b.waiters
    ensures Waits(b, t, w)
  {
    match act {
      case CallSend(more) =>
        if a.Current().Some? && more != {} {
          SendLeaves(a, a.bits + more, b, t);
        }
      case CallRecv(want, all, clear, timeout) =>
        if HasRunner(a) && want != {} {
          OtherReceives(flag, a, Want(want, all, clear), timeout, b, t);
        }
      case Timer(u) =>
        if a.Current().Some? && u in a.waiters {
          Fired(a.c, u, b.c);
        }
      case Other(e) =>
        if Elsewhere(a, e) {
          AfterOutside(a.c, e);
        }
      case CallReset =>
    }
  }

  // A thread still on the list was not satisfied when its turn came.
  lemma SendLeaves(a: Snap, bits0: Flags, b: Snap, t: Tid)
    requires Waiting(a.Threads(), a.waiters) && t in a.waiters && t in Scan(bits0, a.waiters, a.Threads()).1
    requires WokenHold(a.Threads(), b.Threads(), bits0, a.waiters)
    ensures t in b.Threads() && b.Threads()[t].want == a.Threads()[t].want
  {
    var j :| 0 <= j < |a.waiters| && a.waiters[j] == t;
    ScanWakes(bits0, a.waiters, a.Threads(), j);
    hide Scan, Satisfied, NoDup;
    assert Woken(a.Threads()[t], b.Threads()[t], Scan(bits0, a.waiters[..j], a.Threads()).0);
  }

  lemma OtherReceives(flag: Flag, a: Snap, w: Want, timeout: int, b: Snap, t: Tid)
    requires Sound(a) && HasRunner(a) && RecvStep(flag, a, w, timeout, b) && t in a.waiters
    ensures t in b.Threads() && b.Threads()[t].want == a.Threads()[t].want
  {
    var u := a.Current().value;
    var x := a.Threads()[u].(error := EOK, want := w);
    ErrorQuiet(a.c.s, u, x);
    hide Coherent, WentToSleep, Queued, Satisfied;
    if !Satisfied(w, a.bits) && timeout != 0 {
      Asleep(a.c, u, x, b.c);
    }
  }

  // From the call that begins to wait on, for as long as the thread is on the list,
  // what it asked for is not there.
  lemma {:induction false} WaitsOnlyForWhatIsMissing(flag: Flag, acts: seq<Act>, run: seq<Snap>, t: Tid, w: Want, i: nat, j: nat)
    requires Trace(flag, acts, run) && i < j <= |acts| && BeginsToWait(run[i], acts[i], t, w)
    requires forall k :: i < k <= j ==> t in run[k].waiters
    ensures Waits(run[j], t, w) && !There(w, run[j].bits)
    decreases j
  {
    ThereIs(w, run[j].bits);
    assert EventStep(flag, run[j - 1], acts[j - 1], run[j]) && Sound(run[j - 1]) && Sound(run[j]);
    hide Coherent, EventStep, BeginsToWait, Satisfied, Trace;
    if i + 1 == j {
      BeginsRecorded(flag, run[i], acts[i], run[j], t, w);
    } else {
      assert Trace(flag, acts, run);
      WaitsOnlyForWhatIsMissing(flag, acts, run, t, w, i, j - 1);
      StillRecorded(flag, run[j - 1], acts[j - 1], run[j], t, w);
    }
  }

  // And when a send takes it off the list, it is awake without an error and holds
  // something of what it asked for, nothing else, and for AND all of it.
  lemma ReceivesWhatItAskedFor(flag: Flag, acts: seq<Act>, run: seq<Snap>, t: Tid, w: Want, i: nat, j: nat)
    requires Trace(flag, acts, run) && i < j < |acts| && BeginsToWait(run[i], acts[i], t, w)
    requires forall k :: i < k <= j ==> t in run[k].waiters
    requires acts[j].CallSend? && t !in run[j + 1].waiters
    ensures t in run[j + 1].Threads()
    ensures var x := run[j + 1].Threads()[t];
            && x.stat != Suspended && x.error == EOK
            && x.want.bits != {} && x.want.bits <= w.bits && x.want.bits <= run[j].bits + acts[j].more && (w.all ==> x.want.bits == w.bits)
  {
    WaitsOnlyForWhatIsMissing(flag, acts, run, t, w, i, j);
    assert EventStep(flag, run[j], acts[j], run[j + 1]) && Sound(run[j]);
    hide Trace;
    SendGives(run[j], run[j].bits + acts[j].more, run[j + 1], t);
  }

  // Thread t has been woken from a to b.
  ghost predicate WokenIn(a: Snap, b: Snap, t: Tid) {
    t in a.waiters && t !in b.waiters && t in a.Threads() && t in b.Threads()
  }

  // Waiter i has been woken, and flag f, which it received, taken away from those behind it.
  ghost predicate TookAway(a: Snap, b: Snap, i: nat, f: nat)
    requires i < |a.waiters|
  {
    WokenIn(a, b, a.waiters[i]) && a.Threads()[a.waiters[i]].want.clear && f in b.Threads()[a.waiters[i]].want.bits
  }

  // The flags are there when waiter j has its turn that were there to begin with and
  // that nobody before it has taken away.
  lemma {:induction false} WhenItsTurnComes(a: Snap, bits0: Flags, b: Snap, j: nat, f: nat)
    requires Sound(a) && j <= |a.waiters| && b.waiters == Scan(bits0, a.waiters, a.Threads()).1
    requires WokenHold(a.Threads(), b.Threads(), bits0, a.waiters)
    ensures f in Scan(bits0, a.waiters[..j], a.Threads()).0 <==> f in bits0 && forall i :: 0 <= i < j ==> !TookAway(a, b, i, f)
  {
    if j > 0 {
      var ws, threads, i := a.waiters, a.Threads(), j - 1;
      WhenItsTurnComes(a, bits0, b, i, f);
      assert ws[..j] == ws[..i] + [ws[i]];
      ScanSnoc(bits0, ws[..i], threads, ws[i]);
      ScanWakes(bits0, ws, threads, i);
      hide Scan, NoDup, Coherent;
      var t, turn := ws[i], Scan(bits0, ws[..i], threads).0;
      assert Woken(threads[t], b.Threads()[t], turn);
      assert WokenIn(a, b, t) <==> Satisfied(threads[t].want, turn);
      assert TookAway(a, b, i, f) <==> Satisfied(threads[t].want, turn) && threads[t].want.clear && f in Received(threads[t].want, turn);
    } else {
      assert a.waiters[..0] == [];
    }
  }

  // A send leaves the flags that were there or are new, but for those that a woken
  // waiter has received that asked for CLEAR.
  lemma SendTakes(flag: Flag, a: Snap, more: Flags, b: Snap, f: nat)
    requires Sound(a) && a.Current().Some? && more != {} && EventStep(flag, a, CallSend(more), b)
    ensures f in b.bits <==>
              f in a.bits + more && !exists t :: WokenIn(a, b, t) && a.Threads()[t].want.clear && f in b.Threads()[t].want.bits
  {
    var ws := a.waiters;
    WhenItsTurnComes(a, a.bits + more, b, |ws|, f);
    assert ws[..|ws|] == ws;
    hide Scan, Coherent, NoDup;
    if t :| WokenIn(a, b, t) && a.Threads()[t].want.clear && f in b.Threads()[t].want.bits {
      var i :| 0 <= i < |ws| && ws[i] == t;
      assert TookAway(a, b, i, f);
    }
  }

  // A woken waiter receives what it asked for of that, less what such waiters
  // before it have received.
  lemma SendShares(flag: Flag, a: Snap, more: Flags, b: Snap, j: nat, f: nat)
    requires Sound(a) && a.Current().Some? && more != {} && EventStep(flag, a, CallSend(more), b)
    requires j < |a.waiters| && WokenIn(a, b, a.waiters[j])
    ensures f in b.Threads()[a.waiters[j]].want.bits <==>
              && f in a.Threads()[a.waiters[j]].want.bits && f in a.bits + more
              && !exists i :: 0 <= i < j && TookAway(a, b, i, f)
  {
    var ws, threads, bits0 := a.waiters, a.Threads(), a.bits + more;
    WhenItsTurnComes(a, bits0, b, j, f);
    ScanWakes(bits0, ws, threads, j);
    hide Scan, Coherent, NoDup;
    assert Woken(threads[ws[j]], b.Threads()[ws[j]], Scan(bits0, ws[..j], threads).0);
  }

  lemma SendGives(a: Snap, bits0: Flags, b: Snap, t: Tid)
    requires Sound(a) && t in a.waiters && t !in Scan(bits0, a.waiters, a.Threads()).1
    requires WokenHold(a.Threads(), b.Threads(), bits0, a.waiters)
    ensures t in b.Threads()
    ensures var w, x := a.Threads()[t].want, b.Threads()[t];
            && x.stat != Suspended && x.error == EOK
            && x.want.bits != {} && x.want.bits <= w.bits && x.want.bits <= bits0 && (w.all ==> x.want.bits == w.bits)
  {
    var ws, threads := a.waiters, a.Threads();
    var j :| 0 <= j < |ws| && ws[j] == t;
    ScanWakes(bits0, ws, threads, j);
    ScanStrandsNobody(bits0, ws[..j], threads);
    hide Scan, Satisfied, Received, NoDup;
    assert Woken(threads[t], b.Threads()[t], Scan(bits0, ws[..j], threads).0);
  }
}
