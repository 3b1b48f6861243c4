/**
  Every step keeps the run queue, the wait queues and the process states in agreement.
 */
module SchedProof {
  import opened Lists
  import opened Sched
  import opened Timers

  // Waking a sleeper: everything but the wait queues.
  lemma WakeKeepsQueue(k: Kernel, p: nat)
    requires QueueOk(k) && p in k.procs
    ensures QueueOk(Wake(k, p)) && Wake(k, p).sems == k.sems && Wake(k, p).current == k.current
    ensures Wake(k, p).procs.Keys == k.procs.Keys && Wake(k, p).timers == k.timers
    ensures forall q :: q in k.procs && q != p ==> Wake(k, p).procs[q] == k.procs[q]
    ensures var a, b := k.procs[p], Wake(k, p).procs[p];
            && b.state == Runnable && b.phase == a.phase
            && (a.state != Runnable ==> b.wait == NoWait) && (a.state == Runnable ==> b == a)
  {
    if k.procs[p].state != Runnable && p != k.current {
      Append(k.queue, p);
    }
  }

  // Steps that set no timer and end no nap.
  lemma TimersStay(k: Kernel, w: Kernel)
    requires TimersOk(k) && w.timers == k.timers && forall p :: Naps(k, p) ==> Naps(w, p)
    ensures TimersOk(w)
  {
    hide AgendaOk, Naps;
  }

  lemma WakeKeepsInv(k: Kernel, p: nat)
    requires Inv(k) && p in k.procs && k.procs[p].state != Zombie && k.procs[p].wait != KSem
    ensures Inv(Wake(k, p))
  {
    WakeKeepsQueue(k, p);
    hide Wake, QueueOk, Distinct;
    var w := Wake(k, p);
    assert k.procs[p].phase == w.procs[p].phase;
    assert ProcOk(k, p);
    forall s | 0 <= s < |w.sems| ensures SemOk(w, s) {
      assert SemOk(k, s);
    }
    TimersStay(k, w);
  }

  // Steps that touch no wait queue and no waiter.
  lemma SemsStay(k: Kernel, w: Kernel)
    requires SemsOk(k) && w.sems == k.sems && forall p, s :: Waits(w, p, s) <==> Waits(k, p, s)
    ensures SemsOk(w)
  {
    hide Waits, Distinct;
    forall s | 0 <= s < |w.sems| ensures SemOk(w, s) {
      assert SemOk(k, s);
    }
  }

  lemma RequeueKeepsQueue(k: Kernel)
    requires QueueOk(k)
    ensures var r := Requeue(k);
            && r.procs.Keys == k.procs.Keys && r.sems == k.sems && r.current == k.current && r.timers == k.timers
            && Distinct(r.queue) && r.procNum == |r.queue| && IDLE in r.procs && r.procs[IDLE].state == Runnable
            && (forall p :: p in r.queue <==> p in r.procs && r.procs[p].state == Runnable && p != IDLE)
            && (forall p :: p in k.procs && p != k.current ==> r.procs[p] == k.procs[p])
            && var a, b := k.procs[k.current], r.procs[k.current];
               b.state == a.state && b.wait == a.wait && b.phase == Leaving(a.phase)
  {
    if k.procs[k.current].state == Runnable && k.current != IDLE {
      Append(k.queue, k.current);
    }
  }

  lemma DispatchFacts(r: Kernel)
    requires Distinct(r.queue) && r.procNum == |r.queue| && IDLE in r.procs && r.procs[IDLE].state == Runnable
    requires forall p :: p in r.queue <==> p in r.procs && r.procs[p].state == Runnable && p != IDLE
    ensures var d := Dispatch(r);
            && QueueOk(d) && d.sems == r.sems && d.timers == r.timers && d.procs.Keys == r.procs.Keys
            && d.procs[d.current].state == Runnable
            && forall p :: p in r.procs ==> d.procs[p] == r.procs[p].(runs := d.procs[p].runs)
  {
    if r.queue != [] {
      Tail(r.queue);
    }
  }

  // What schedule() does to the processes.
  ghost predicate Switched(k: Kernel, d: Kernel) {
    && d.procs.Keys == k.procs.Keys && d.sems == k.sems && d.timers == k.timers && d.current in d.procs
    && k.current in k.procs
    && d.procs[d.current].state == Runnable
    && forall p :: p in k.procs ==>
         var a, b := k.procs[p], d.procs[p];
         b.state == a.state && b.wait == a.wait && b.phase == if p == k.current then Leaving(a.phase) else a.phase
  }

  lemma ScheduleSwitches(k: Kernel)
    requires Inv(k)
    ensures QueueOk(Do(k, ScheduleStep)) && Switched(k, Do(k, ScheduleStep))
  {
    RequeueKeepsQueue(k);
    DispatchFacts(Requeue(k));
    hide Requeue, Dispatch, QueueOk, Distinct, ProcsOk, SemsOk, TimersOk;
  }

  lemma SwitchedProc(k: Kernel, d: Kernel, p: nat)
    requires Switched(k, d) && p in k.procs && ProcOk(k, p)
    ensures ProcOk(d, p)
  {}

  lemma ScheduleKeepsInv(k: Kernel)
    requires Inv(k)
    ensures Inv(Do(k, ScheduleStep))
  {
    var d := Do(k, ScheduleStep);
    ScheduleSwitches(k);
    forall p | p in d.procs ensures ProcOk(d, p) {
      assert ProcOk(k, p);
      SwitchedProc(k, d, p);
    }
    SemsStay(k, d);
    TimersStay(k, d);
    hide Do, QueueOk, ProcOk;
  }

  // The head of a wait queue, before it is woken.
  lemma HeadWaits(k: Kernel, s: nat)
    requires Inv(k) && s < |k.sems| && k.sems[s].waiters != []
    ensures var p := k.sems[s].waiters[0];
            Waits(k, p, s) && p != IDLE && k.procs[p].wait == KSem && k.procs[p].state == Sleeping
  {
    assert SemOk(k, s);
    assert k.sems[s].waiters[0] in k.sems[s].waiters;
    assert ProcOk(k, k.sems[s].waiters[0]);
  }

  // What an up with a waiter does to the processes.
  lemma HandOver(k: Kernel, s: nat)
    requires Inv(k) && s < |k.sems| && k.sems[s].waiters != []
    ensures var p, w := k.sems[s].waiters[0], Do(k, UpStep(s));
            && QueueOk(w) && w.current == k.current && w.procs.Keys == k.procs.Keys && w.timers == k.timers
            && w.sems == k.sems[s := k.sems[s].(waiters := k.sems[s].waiters[1..])]
            && (forall q :: q in k.procs && q != p ==> w.procs[q] == k.procs[q])
            && p in k.procs && w.procs[p].state == Runnable && w.procs[p].wait == NoWait
            && w.procs[p].phase == Handing(k.procs[p].phase)
  {
    HeadWaits(k, s);
    var m := k.sems[s];
    var p := m.waiters[0];
    var w := SetSem(k, s, m.(waiters := m.waiters[1..]));
    WakeKeepsQueue(w.(procs := w.procs[p := k.procs[p].(phase := Handing(k.procs[p].phase))]), p);
  }

  lemma UpKeepsInv(k: Kernel, s: nat)
    requires Inv(k) && s < |k.sems|
    ensures Inv(Do(k, UpStep(s)))
  {
    var w := Do(k, UpStep(s));
    assert SemOk(k, s);
    assert k.sems[s].waiters == [] ==> w.procs == k.procs && w.timers == k.timers;
    if k.sems[s].waiters == [] {
      forall p | p in w.procs ensures ProcOk(w, p) {
        assert ProcOk(k, p);
      }
      forall t | 0 <= t < |w.sems| ensures SemOk(w, t) {
        assert SemOk(k, t);
        assert forall p :: Waits(w, p, t) <==> Waits(k, p, t);
      }
      TimersStay(k, w);
    } else {
      HandOverKeepsInv(k, s);
    }
  }

  lemma HandOverKeepsInv(k: Kernel, s: nat)
    requires Inv(k) && s < |k.sems| && k.sems[s].waiters != []
    ensures Inv(Do(k, UpStep(s)))
  {
    HeadWaits(k, s);
    HandOver(k, s);
    hide Do, QueueOk;
    var w := Do(k, UpStep(s));
    var h := k.sems[s].waiters[0];
    TimersStay(k, w);
    forall p | p in w.procs ensures ProcOk(w, p) {
      assert ProcOk(k, p);
    }
    forall t | 0 <= t < |w.sems| ensures SemOk(w, t) {
      assert SemOk(k, t);
      assert forall p :: Waits(w, p, t) <==> Waits(k, p, t) && p != h;
      if t == s {
        Tail(k.sems[s].waiters);
      }
    }
  }

  lemma DownBeginKeepsInv(k: Kernel, s: nat)
    requires Inv(k) && Enabled(k, DownBeginStep(s))
    ensures Inv(Do(k, DownBeginStep(s)))
  {
    var w := Do(k, DownBeginStep(s));
    TimersStay(k, w);
    assert ProcOk(k, k.current);
    assert SemOk(k, s);
    forall p | p in w.procs ensures ProcOk(w, p) {
      assert ProcOk(k, p);
    }
    forall t | 0 <= t < |w.sems| ensures SemOk(w, t) {
      assert SemOk(k, t);
      if k.sems[s].value > 0 {
        assert forall p :: Waits(w, p, t) <==> Waits(k, p, t);
      } else {
        assert forall p :: Waits(w, p, t) <==> Waits(k, p, t) || (p == k.current && t == s);
        Append(k.sems[s].waiters, k.current);
      }
    }
  }

  /**
    When __down resumes, the semaphore has been handed over and the wait is off the queue: down()'s assertion holds.
   */
  lemma DownEndIsHanded(k: Kernel)
    requires Inv(k) && Enabled(k, DownEndStep)
    ensures var q := k.procs[k.current];
            q.phase.flags == Handed && k.current !in k.sems[q.phase.sem].waiters && q.state == Runnable
  {
    assert ProcOk(k, k.current);
    assert SemOk(k, k.procs[k.current].phase.sem);
  }

  lemma DownEndKeepsInv(k: Kernel)
    requires Inv(k) && Enabled(k, DownEndStep)
    ensures Inv(Do(k, DownEndStep)) && Do(k, DownEndStep).sems == k.sems
  {
    DownEndIsHanded(k);
    var s := k.procs[k.current].phase.sem;
    RemoveAbsent(k.sems[s].waiters, k.current);
    var w := Do(k, DownEndStep);
    assert w.sems == k.sems;
    SemsStay(k, w);
    TimersStay(k, w);
    forall p | p in w.procs ensures ProcOk(w, p) {
      assert ProcOk(k, p);
    }
  }

  lemma KillKeepsInv(k: Kernel, p: nat)
    requires Inv(k) && p in k.procs
    ensures Inv(Kill(k, p))
  {
    var w := k.(procs := k.procs[p := k.procs[p].(exiting := true)]);
    SemsStay(k, w);
    TimersStay(k, w);
    forall q | q in w.procs ensures ProcOk(w, q) {
      assert ProcOk(k, q);
    }
    assert QueueOk(w);
    if k.procs[p].wait == Interruptible {
      WakeKeepsInv(w, p);
    }
  }

  lemma SpawnKeepsInv(k: Kernel, p: nat)
    requires Inv(k) && p !in k.procs
    ensures Inv(Spawn(k, p))
  {
    var w := k.(procs := k.procs[p := Proc(Uninit, NoWait, false, 0, 0, false, Running)]);
    assert QueueOk(w);
    WakeKeepsQueue(w, p);
    hide Wake, QueueOk;
    var n := Wake(w, p);
    SemsStay(k, n);
    TimersStay(k, n);
    forall q | q in n.procs ensures ProcOk(n, q) {
      assert q != p ==> ProcOk(k, q);
    }
  }

  lemma OthersKeepInv(k: Kernel, step: Step)
    requires Inv(k) && Enabled(k, step) && (step.SleepStep? || step.ExitStep? || step.ReapStep?)
    ensures Inv(Do(k, step))
  {
    var w := Do(k, step);
    assert forall p :: p in k.procs ==> ProcOk(k, p);
    SemsStay(k, w);
    TimersStay(k, w);
    forall q | q in w.procs ensures ProcOk(w, q) {
      assert ProcOk(k, q);
    }
  }

  lemma TickKeepsInv(k: Kernel)
    requires Inv(k)
    ensures k.current in k.procs && Inv(Tick(k)) && Tick(k).queue == k.queue && Tick(k).sems == k.sems
    ensures Tick(k).current == k.current
  {
    var w := Tick(k);
    SemsStay(k, w);
    TimersStay(k, w);
    forall q | q in w.procs ensures ProcOk(w, q) {
      assert ProcOk(k, q);
    }
  }

  // ---- timers

  // A timer's process is not a zombie and does not wait for a semaphore: run_timer_list's assertion holds.
  lemma NapperCanWake(k: Kernel, p: nat)
    requires Inv(k) && Naps(k, p)
    ensures k.procs[p].state != Zombie && k.procs[p].wait != KSem
  {
    assert ProcOk(k, p);
  }

  lemma TickTimers(k: Kernel)
    requires Inv(k)
    ensures Inv(k.(timers := Ticked(k.timers)))
  {
    var w := k.(timers := Ticked(k.timers));
    TickLengths(k.timers);
    FiredOk(Lower(k.timers));
    forall i | 0 <= i < |w.timers| ensures w.timers[i].proc == w.timers[i].id && Naps(w, w.timers[i].id) {
      TickedAt(k.timers, i + |FiredNow(k.timers)|);
    }
    SemsStay(k, w);
    forall q | q in w.procs ensures ProcOk(w, q) {
      assert ProcOk(k, q);
    }
  }

  // Processes have been made runnable and queued, and nothing else has happened.
  ghost predicate Awoken(k: Kernel, w: Kernel) {
    && w.procs.Keys == k.procs.Keys && w.current == k.current && w.sems == k.sems && w.timers == k.timers
    && k.queue <= w.queue
    && forall p :: p in k.procs ==>
         w.procs[p].phase == k.procs[p].phase && (k.procs[p].state == Runnable ==> w.procs[p].state == Runnable)
  }

  lemma WakeNapper(k: Kernel, p: nat)
    requires Inv(k) && Naps(k, p)
    ensures Inv(Wake(k, p)) && Awoken(k, Wake(k, p)) && Wake(k, p).procs[p].state == Runnable
  {
    NapperCanWake(k, p);
    WakeKeepsInv(k, p);
    WakeKeepsQueue(k, p);
  }

  // Waking the processes of timers that fire.
  lemma {:induction false} WakeAllKeepsInv(k: Kernel, fired: Agenda)
    requires Inv(k) && forall i :: 0 <= i < |fired| ==> fired[i].proc in k.procs && Naps(k, fired[i].proc)
    ensures Inv(WakeAll(k, fired)) && Awoken(k, WakeAll(k, fired))
    ensures forall i :: 0 <= i < |fired| ==> WakeAll(k, fired).procs[fired[i].proc].state == Runnable
    decreases |fired|
  {
    hide Inv, Wake;
    if fired != [] {
      var p, rest := fired[0].proc, fired[1..];
      assert forall i :: 0 <= i < |rest| ==> rest[i] == fired[i + 1];
      WakeNapper(k, p);
      var w := Wake(k, p);
      WakeAllKeepsInv(w, rest);
      var u := WakeAll(w, rest);
      assert WakeAll(k, fired) == u;
      forall i | 0 <= i < |fired| ensures u.procs[fired[i].proc].state == Runnable {
        assert i > 0 ==> rest[i - 1] == fired[i];
      }
    }
  }

  lemma TimerKeepsInv(k: Kernel)
    requires Inv(k)
    ensures Inv(Do(k, TimerStep)) && k.queue <= Do(k, TimerStep).queue && Do(k, TimerStep).sems == k.sems
    ensures Do(k, TimerStep).current == k.current && Do(k, TimerStep).timers == Ticked(k.timers)
    ensures forall p :: p in k.procs ==>
              p in Do(k, TimerStep).procs && Do(k, TimerStep).procs[p].phase == k.procs[p].phase
  {
    hide Inv, WakeAll, FiredNow, Ticked, Tick;
    TimersAreOk(k);
    var w := k.(timers := Ticked(k.timers));
    TickTimers(k);
    FiredNaps(k);
    WakeAllKeepsInv(w, FiredNow(k.timers));
    TickKeepsInv(WakeAll(w, FiredNow(k.timers)));
    TickPhases(WakeAll(w, FiredNow(k.timers)));
  }

  lemma TimersAreOk(k: Kernel)
    requires Inv(k)
    ensures AgendaOk(k.timers) && k.current in k.procs && forall i :: 0 <= i < |k.timers| ==>
              k.timers[i].proc in k.procs
  {
    assert forall i :: 0 <= i < |k.timers| ==> Naps(k, k.timers[i].id);
  }

  lemma FiredNaps(k: Kernel)
    requires Inv(k)
    ensures forall i :: 0 <= i < |FiredNow(k.timers)| ==>
              FiredNow(k.timers)[i].proc in k.procs && Naps(k, FiredNow(k.timers)[i].proc)
  {
    FiredProcs(k.timers);
    hide FiredNow;
    assert forall i :: 0 <= i < |k.timers| ==> Naps(k, k.timers[i].id) && k.timers[i].proc == k.timers[i].id;
  }

  lemma TickPhases(k: Kernel)
    requires k.current in k.procs
    ensures Tick(k).procs.Keys == k.procs.Keys && Tick(k).timers == k.timers
    ensures forall p :: p in k.procs ==>
              Tick(k).procs[p].phase == k.procs[p].phase && Tick(k).procs[p].state == k.procs[p].state
  {}

  lemma NapKeepsInv(k: Kernel, ticks: nat)
    requires Inv(k) && Enabled(k, NapStep(ticks))
    ensures Inv(Nap(k, ticks))
  {
    var w := Nap(k, ticks);
    assert ProcOk(k, k.current);
    NapTimers(k, ticks);
    SemsStay(k, w);
    forall q | q in w.procs ensures ProcOk(w, q) {
      assert ProcOk(k, q);
    }
  }

  lemma NapTimers(k: Kernel, ticks: nat)
    requires TimersOk(k) && k.current in k.procs && k.procs[k.current].phase == Running && ticks > 0
    ensures TimersOk(Nap(k, ticks))
  {
    hide Insert;
    var d := Due(k.current, ticks, k.current);
    assert forall i :: 0 <= i < |k.timers| ==> Naps(k, k.timers[i].id);
    InsertOk(k.timers, d);
    var j := InsertPosition(k.timers, d);
    var w := Nap(k, ticks);
    forall i | 0 <= i < |w.timers| ensures w.timers[i].proc == w.timers[i].id && Naps(w, w.timers[i].id) {
      if i != j {
        Inserted(k.timers, d, j, if i < j then i else i - 1);
      }
    }
  }

  lemma NapEndKeepsInv(k: Kernel)
    requires Inv(k) && Enabled(k, NapEndStep)
    ensures Inv(NapEnd(k))
  {
    var w := NapEnd(k);
    NapEndTimers(k);
    SemsStay(k, w);
    forall q | q in w.procs ensures ProcOk(w, q) {
      assert ProcOk(k, q);
    }
  }

  lemma NapEndTimers(k: Kernel)
    requires TimersOk(k) && k.current in k.procs
    ensures TimersOk(NapEnd(k))
  {
    WithoutOk(k.timers, k.current);
    hide Without, AgendaOk;
    var w := NapEnd(k);
    forall i | 0 <= i < |w.timers| ensures w.timers[i].proc == w.timers[i].id && Naps(w, w.timers[i].id) {
      var j := WithoutFrom(k.timers, k.current, i);
      assert Naps(k, k.timers[j].id);
    }
  }

  lemma TryDownKeepsInv(k: Kernel, s: nat)
    requires Inv(k) && s < |k.sems|
    ensures Inv(TryDown(k, s))
  {
    var w := TryDown(k, s);
    TimersStay(k, w);
    assert SemOk(k, s);
    forall q | q in w.procs ensures ProcOk(w, q) {
      assert ProcOk(k, q);
    }
    forall t | 0 <= t < |w.sems| ensures SemOk(w, t) {
      assert SemOk(k, t);
      assert forall p :: Waits(w, p, t) <==> Waits(k, p, t);
    }
  }

  /** Every step keeps the invariant. */
  lemma StepKeepsInv(k: Kernel, step: Step)
    requires Inv(k) && Enabled(k, step)
    ensures Inv(Do(k, step))
  {
    hide Inv;
    match step {
      case ScheduleStep => ScheduleKeepsInv(k);
      case TimerStep => TimerKeepsInv(k);
      case NapStep(ticks) => NapKeepsInv(k, ticks);
      case NapEndStep => NapEndKeepsInv(k);
      case UpStep(s) => UpKeepsInv(k, s);
      case DownBeginStep(s) => DownBeginKeepsInv(k, s);
      case DownEndStep => DownEndKeepsInv(k);
      case TryDownStep(s) => TryDownKeepsInv(k, s);
      case KillStep(p) => KillKeepsInv(k, p);
      case WakeStep(p) => WakeKeepsInv(k, p);
      case SpawnStep(p) => SpawnKeepsInv(k, p);
      case _ => OthersKeepInv(k, step);
    }
  }
}
