/**
  The scheduler and the semaphores in place: the source's functions as methods
  that update process table, run queue and wait queues, each proved to be the
  step of the same name.  The source's assertions are preconditions of the
  inner methods and are met by the outer ones from the invariant.
 */
module SchedKernel {
  import opened Lists
  import opened Sched
  import opened SchedProof
  import opened Timers
  import TimerList

  lemma NotQueued(k: Kernel)
    requires Inv(k)
    ensures k.current in k.procs && k.current !in k.queue && k.procNum == |k.queue|
    ensures Do(k, ScheduleStep) == Dispatch(Requeue(k))
  {}

  class Machine {
    var procs: map<nat, Proc>
    var current: nat
    var queue: seq<nat>
    var procNum: nat
    var sems: seq<Sem>
    const clock: TimerList.TimerQueue

    function State(): Kernel
      reads this, clock
    {
      Kernel(procs, current, queue, procNum, sems, Dues(clock.list))
    }

    // idleproc alone, running
    constructor (values: seq<nat>)
      ensures Inv(State()) && clock.Ok() && fresh(clock)
      ensures |sems| == |values| && forall s :: 0 <= s < |values| ==> sems[s] == Sem(values[s], [])
    {
      clock := new TimerList.TimerQueue();
      procs, current, queue, procNum := map[IDLE := Proc(Runnable, NoWait, true, 0, 0, false, Running)], IDLE, [], 0;
      sems := seq(|values|, s requires 0 <= s < |values| => Sem(values[s], []));
    }

    // RR_enqueue, behind sched_class_enqueue
    method EnqueueProc(p: nat)
      requires p in procs && p !in queue
      modifies this
      ensures State() == Enqueue(old(State()), p)
    {
      if p != IDLE {
        queue := queue + [p];
        if procs[p].timeSlice == 0 || procs[p].timeSlice > MAX_TIME_SLICE {
          procs := procs[p := procs[p].(timeSlice := MAX_TIME_SLICE)];
        }
        procNum := procNum + 1;
        assert procs == old(procs)[p := FullSlice(old(procs)[p])];
      }
    }

    // RR_pick_next and RR_dequeue
    method TakeNext() returns (next: nat)
      requires procNum == |queue|
      modifies `queue, `procNum
      ensures next == (if old(queue) == [] then IDLE else old(queue)[0])
      ensures queue == (if old(queue) == [] then [] else old(queue)[1..]) && procNum == |queue|
    {
      next := IDLE;
      if queue != [] {
        next := queue[0];
        queue, procNum := queue[1..], procNum - 1;
      }
    }

    method WakeupProc(p: nat)
      requires QueueOk(State()) && p in procs && procs[p].state != Zombie
      modifies this
      ensures State() == Wake(old(State()), p) && QueueOk(State())
    {
      WakeKeepsQueue(State(), p);
      if procs[p].state != Runnable {
        assert p !in queue;
        procs := procs[p := procs[p].(state := Runnable, wait := NoWait)];
        if p != current {
          EnqueueProc(p);
        }
      }
    }

    // The first half of schedule().
    method LeaveCurrent()
      requires current in procs && current !in queue
      modifies this
      ensures State() == Requeue(old(State()))
    {
      hide Enqueue;
      var p := procs[current];
      procs := procs[current := p.(needResched := false, phase := Leaving(p.phase))];
      if p.state == Runnable {
        EnqueueProc(current);
      }
    }

    // The second half.
    method RunNext()
      requires procNum == |queue| && IDLE in procs && forall p :: p in queue ==> p in procs
      modifies this
      ensures State() == Dispatch(old(State()))
    {
      var next := TakeNext();
      procs := procs[next := procs[next].(runs := procs[next].runs + 1)];
      current := next;
    }

    method Schedule()
      requires Inv(State())
      modifies this
      ensures Inv(State()) && State() == Do(old(State()), ScheduleStep)
    {
      ScheduleKeepsInv(State());
      RequeueKeepsQueue(State());
      NotQueued(State());
      hide Inv, Requeue, Dispatch;
      LeaveCurrent();
      RunNext();
    }

    method SemUp(s: nat)
      requires Inv(State()) && s < |sems|
      modifies this
      ensures Inv(State()) && State() == Do(old(State()), UpStep(s))
    {
      UpKeepsInv(State(), s);
      assert SemOk(State(), s);
      if sems[s].waiters == [] {
        sems := sems[s := sems[s].(value := sems[s].value + 1)];
      } else {
        HeadWaits(State(), s);
        var p := sems[s].waiters[0];
        assert procs[p].wait == KSem;
        sems := sems[s := sems[s].(waiters := sems[s].waiters[1..])];
        procs := procs[p := procs[p].(phase := Handing(procs[p].phase))];
        WakeupProc(p);
      }
    }

    // __down up to the call of schedule(); false means that the process must call it.
    method SemDownBegin(s: nat) returns (got: bool)
      requires Inv(State()) && Enabled(State(), DownBeginStep(s))
      modifies this
      ensures Inv(State()) && State() == Do(old(State()), DownBeginStep(s)) && got == (old(sems[s].value) > 0)
    {
      DownBeginKeepsInv(State(), s);
      got := sems[s].value > 0;
      if got {
        sems := sems[s := sems[s].(value := sems[s].value - 1)];
      } else {
        var p := procs[current].(state := Sleeping, wait := KSem, phase := Waiting(s, false, Interrupted));
        procs := procs[current := p];
        sems := sems[s := sems[s].(waiters := sems[s].waiters + [current])];
      }
    }

    // __down after schedule(), with the flags it would return: down() asserts that they are those of the hand-over.
    method SemDownEnd() returns (flags: Flags)
      requires Inv(State()) && Enabled(State(), DownEndStep)
      modifies this
      ensures Inv(State()) && State() == Do(old(State()), DownEndStep) && flags == Handed
    {
      DownEndKeepsInv(State());
      DownEndIsHanded(State());
      var s := procs[current].phase.sem;
      sems := sems[s := sems[s].(waiters := Remove(sems[s].waiters, current))];
      flags := procs[current].phase.flags;
      procs := procs[current := procs[current].(phase := Running)];
    }

    method SemTryDown(s: nat) returns (got: bool)
      requires Inv(State()) && s < |sems|
      modifies this
      ensures Inv(State()) && State() == Do(old(State()), TryDownStep(s)) && got == (old(sems[s].value) > 0)
    {
      TryDownKeepsInv(State(), s);
      got := sems[s].value > 0;
      if got {
        sems := sems[s := sems[s].(value := sems[s].value - 1)];
      }
    }

    // do_kill, for a process that exists
    method DoKill(p: nat) returns (killed: bool)
      requires Inv(State()) && p in procs
      modifies this
      ensures Inv(State()) && State() == Do(old(State()), KillStep(p)) && killed == !old(procs[p].exiting)
    {
      KillKeepsInv(State(), p);
      killed := !procs[p].exiting;
      if killed {
        assert ProcOk(State(), p);
        procs := procs[p := procs[p].(exiting := true)];
        if procs[p].wait == Interruptible {
          WakeupProc(p);
        }
      }
    }

    // do_sleep up to the call of schedule()
    method SleepBegin(ticks: nat)
      requires Inv(State()) && clock.Ok() && Enabled(State(), NapStep(ticks)) && ticks < TimerList.LIMIT
      modifies this, clock
      ensures Inv(State()) && clock.Ok() && State() == Do(old(State()), NapStep(ticks))
    {
      NapKeepsInv(State(), ticks);
      NotListed(State());
      hide Inv, Insert, DuesAfter;
      procs := procs[current := procs[current].(state := Sleeping, wait := Interruptible, phase := Napping(false))];
      clock.AddTimer(Timer(current, ticks, current));
    }

    // do_sleep after schedule()
    method SleepEnd()
      requires Inv(State()) && clock.Ok() && Enabled(State(), NapEndStep)
      modifies this, clock
      ensures Inv(State()) && clock.Ok() && State() == Do(old(State()), NapEndStep)
    {
      NapEndKeepsInv(State());
      hide Inv, Without, DuesAfter;
      clock.DelTimer(current);
      procs := procs[current := procs[current].(phase := Running)];
    }

    // run_timer_list: the processes of the timers that fire wake up, then the slice of the current one is counted
    // down.  No fired timer finds its process a zombie or waiting for a semaphore.
    method TimerInterrupt()
      requires Inv(State()) && clock.Ok()
      modifies this, clock
      ensures Inv(State()) && clock.Ok() && State() == Do(old(State()), TimerStep)
    {
      ghost var k := State();
      TimerKeepsInv(k);
      TickTimers(k);
      FiredNaps(k);
      hide Inv, DuesAfter, Ticked, FiredNow, AgendaOk, WakeAll;
      var fired := clock.RunTimerList();
      WakeFired(fired, FiredNow(k.timers));
      ProcTick();
    }

    method WakeFired(fired: seq<Timer>, ghost dues: Agenda)
      requires Inv(State()) && |fired| == |dues| && forall i :: 0 <= i < |fired| ==> fired[i].proc == dues[i].proc
      requires Asleep(State(), dues)
      modifies this
      ensures Inv(State()) && State() == WakeAll(old(State()), dues)
    {
      hide Inv, Wake, DuesAfter, WakeAll, Naps;
      ghost var k := State();
      AllAsleep(k, dues);
      for i := 0 to |fired|
        invariant Inv(State()) && Asleep(State(), dues) && WakeAll(State(), dues[i..]) == WakeAll(k, dues)
      {
        WakeNext(State(), dues, i);
        WakeupProc(fired[i].proc);
      }
      NobodyLeft(State(), dues);
    }

    // sched_class_proc_tick and RR_proc_tick
    method ProcTick()
      requires current in procs
      modifies `procs
      ensures State() == Tick(old(State()))
    {
      var p := procs[current];
      if current != IDLE {
        if p.timeSlice > 0 {
          p := p.(timeSlice := p.timeSlice - 1);
        }
        if p.timeSlice == 0 {
          p := p.(needResched := true);
        }
      } else {
        p := p.(needResched := true);
      }
      procs := procs[current := p];
    }
  }

  // The processes of the timers are all in do_sleep.
  ghost predicate Asleep(k: Kernel, dues: Agenda) {
    forall i :: 0 <= i < |dues| ==> dues[i].proc in k.procs && Naps(k, dues[i].proc)
  }

  lemma AllAsleep(k: Kernel, dues: Agenda)
    requires Inv(k) && Asleep(k, dues)
    ensures WakeAll(k, dues[0..]) == WakeAll(k, dues)
    ensures Inv(WakeAll(k, dues))
  {
    WakeAllKeepsInv(k, dues);
    assert dues[0..] == dues;
  }

  lemma NobodyLeft(k: Kernel, dues: Agenda)
    requires Asleep(k, dues)
    ensures WakeAll(k, dues[|dues|..]) == k
  {}

  lemma WakeNext(k: Kernel, dues: Agenda, i: nat)
    requires Inv(k) && Asleep(k, dues) && i < |dues|
    ensures var p := dues[i].proc;
            && p in k.procs && QueueOk(k) && k.procs[p].state != Zombie && Inv(Wake(k, p)) && Asleep(Wake(k, p), dues)
            && WakeAll(k, dues[i..]) == WakeAll(Wake(k, p), dues[i + 1..])
  {
    hide Inv, Wake;
    WakeNapper(k, dues[i].proc);
    NapperCanWake(k, dues[i].proc);
    QueueOf(k);
    assert dues[i..][0] == dues[i] && dues[i..][1..] == dues[i + 1..];
  }

  lemma QueueOf(k: Kernel)
    requires Inv(k)
    ensures QueueOk(k)
  {}

  lemma NotListed(k: Kernel)
    requires Inv(k) && Busy(k)
    ensures AgendaOk(k.timers) && !Listed(k.timers, k.current)
  {
    assert forall i :: 0 <= i < |k.timers| ==> Naps(k, k.timers[i].id);
  }
}
