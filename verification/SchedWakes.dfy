/**
  Who wakes up and when: timer interrupts, sleeps of a number of ticks, do_kill,
  time slices and exits, over single steps and over whole runs.
 */
module SchedWakes {
  import opened Timers
  import opened Sched
  import opened SchedProof
  import opened SchedRuns

  // ---- the timer interrupt

  // The timer of process p has one tick left.
  ghost predicate IsDue(k: Kernel, p: nat) {
    HasLeft(k.timers, p, 1)
  }

  // The processes of a list of timers that are asleep and not the current one.
  function Risen(k: Kernel, list: Agenda): seq<nat>
    requires forall i :: 0 <= i < |list| ==> list[i].proc in k.procs
  {
    if list == [] then []
    else
      assert forall i :: 0 <= i < |list[1..]| ==> list[1..][i] == list[i + 1];
      var p := list[0].proc;
      (if k.procs[p].state != Runnable && p != k.current then [p] else []) + Risen(k, list[1..])
  }

  // No process twice.
  predicate Apart(list: Agenda) {
    forall i, j :: 0 <= i < j < |list| ==> list[i].proc != list[j].proc
  }

  predicate InList(list: Agenda, p: nat) {
    exists i :: 0 <= i < |list| && list[i].proc == p
  }

  // A process that can run, and is otherwise as it was but for its slice.
  predicate Awake(a: Proc, b: Proc) {
    && b.state == Runnable && b.wait == NoWait && b.phase == a.phase && b.exiting == a.exiting
    && b.needResched == a.needResched
  }

  // What waking does to one process.
  lemma WakeOne(k: Kernel, p: nat)
    requires Inv(k) && Naps(k, p)
    ensures var w := Wake(k, p);
            && w.queue == k.queue + (if k.procs[p].state != Runnable && p != k.current then [p] else [])
            && Awake(k.procs[p], w.procs[p])
            && forall q :: q in k.procs && q != p ==> w.procs[q] == k.procs[q]
  {
    assert ProcOk(k, p);
  }

  lemma {:induction false} RisenSame(k: Kernel, w: Kernel, list: Agenda)
    requires w.current == k.current
    requires forall i :: 0 <= i < |list| ==>
               && list[i].proc in k.procs && list[i].proc in w.procs
               && w.procs[list[i].proc].state == k.procs[list[i].proc].state
    ensures Risen(w, list) == Risen(k, list)
  {
    if list != [] {
      assert forall i :: 0 <= i < |list[1..]| ==> list[1..][i] == list[i + 1];
      RisenSame(k, w, list[1..]);
    }
  }

  // What waking a list of processes does.
  ghost predicate WokenUp(k: Kernel, w: Kernel, list: Agenda)
    requires forall i :: 0 <= i < |list| ==> list[i].proc in k.procs
  {
    && w.procs.Keys == k.procs.Keys && w.queue == k.queue + Risen(k, list)
    && forall p :: p in k.procs ==>
         if InList(list, p) then Awake(k.procs[p], w.procs[p]) else w.procs[p] == k.procs[p]
  }

  lemma {:induction false} WakeAllWakes(k: Kernel, list: Agenda)
    requires Inv(k) && Apart(list) && forall i :: 0 <= i < |list| ==> list[i].proc in k.procs && Naps(k, list[i].proc)
    ensures WokenUp(k, WakeAll(k, list), list)
    decreases |list|
  {
    hide Inv, Wake, WokenUp;
    if list != [] {
      var p, rest := list[0].proc, list[1..];
      assert forall i :: 0 <= i < |rest| ==> rest[i] == list[i + 1];
      WakeNapper(k, p);
      WakeAllWakes(Wake(k, p), rest);
      WokenNext(k, WakeAll(k, list), list);
    } else {
      WokenNone(k);
    }
  }

  lemma WokenNone(k: Kernel)
    ensures WokenUp(k, k, [])
  {}

  // The first of the list and then the rest.
  lemma WokenNext(k: Kernel, u: Kernel, list: Agenda)
    requires Inv(k) && list != [] && Apart(list)
    requires forall i :: 0 <= i < |list| ==> list[i].proc in k.procs && Naps(k, list[i].proc)
    requires forall i :: 0 <= i < |list[1..]| ==> list[1..][i].proc in Wake(k, list[0].proc).procs
    requires WokenUp(Wake(k, list[0].proc), u, list[1..])
    ensures WokenUp(k, u, list)
  {
    hide Inv, Wake, InList, Naps, Awake, Apart;
    var p, rest := list[0].proc, list[1..];
    WakeOne(k, p);
    WakeNapper(k, p);
    var w := Wake(k, p);
    RestRisen(k, w, list);
    NotAgain(list);
    forall q | q in k.procs
      ensures if InList(list, q) then Awake(k.procs[q], u.procs[q]) else u.procs[q] == k.procs[q]
    {
      InRest(list, q);
    }
  }

  lemma RestRisen(k: Kernel, w: Kernel, list: Agenda)
    requires list != [] && Apart(list) && w.current == k.current && w.procs.Keys == k.procs.Keys
    requires forall i :: 0 <= i < |list| ==> list[i].proc in k.procs
    requires forall i :: 0 <= i < |list[1..]| ==> list[1..][i].proc in w.procs
    requires forall q :: q in k.procs && q != list[0].proc ==> w.procs[q] == k.procs[q]
    ensures var p := list[0].proc;
            Risen(k, list) ==
              (if k.procs[p].state != Runnable && p != k.current then [p] else []) + Risen(w, list[1..])
  {
    assert forall i :: 0 <= i < |list[1..]| ==> list[1..][i] == list[i + 1];
    RisenSame(k, w, list[1..]);
  }

  lemma NotAgain(list: Agenda)
    requires list != [] && Apart(list)
    ensures !InList(list[1..], list[0].proc)
  {
    assert forall i :: 0 <= i < |list[1..]| ==> list[1..][i] == list[i + 1];
  }

  lemma InRest(list: Agenda, q: nat)
    requires list != []
    ensures InList(list, q) <==> q == list[0].proc || InList(list[1..], q)
  {
    if InList(list[1..], q) {
      var i :| 0 <= i < |list[1..]| && list[1..][i].proc == q;
      assert list[i + 1].proc == q;
    }
    if InList(list, q) && q != list[0].proc {
      var i :| 0 <= i < |list| && list[i].proc == q;
      assert list[1..][i - 1].proc == q;
    }
  }

  /**
    The timer interrupt: exactly the processes whose timer had one tick left are woken, and queue up behind the others
    in the order of the timer list; every other process but the current one is untouched.
   */
  lemma TimerWakes(k: Kernel) returns (n: nat)
    requires Inv(k)
    ensures n <= |k.timers| && forall i :: 0 <= i < |k.timers| ==>
              k.timers[i].proc in k.procs && (i < n <==> k.timers[i].left == 1)
    ensures var d := Do(k, TimerStep);
            && d.procs.Keys == k.procs.Keys && d.current == k.current
            && d.queue == k.queue + Risen(k, k.timers[..n])
            && forall p :: p in k.procs ==>
                 && (IsDue(k, p) ==> d.procs[p].state == Runnable && d.procs[p].wait == NoWait)
                 && (!IsDue(k, p) ==> d.procs[p].state == k.procs[p].state && d.procs[p].wait == k.procs[p].wait)
                 && d.procs[p].phase == k.procs[p].phase && d.procs[p].exiting == k.procs[p].exiting
                 && (!IsDue(k, p) && p != k.current ==> d.procs[p] == k.procs[p])
  {
    hide WakeAll, FiredNow, Ticked, Tick, Inv;
    TimersAreOk(k);
    TickTimers(k);
    FiredNaps(k);
    var w, fired := k.(timers := Ticked(k.timers)), FiredNow(k.timers);
    n := |fired|;
    FiredPrefix(k.timers);
    FiredApart(k);
    WakeAllWakes(w, fired);
    WakeAllKeepsInv(w, fired);
    var u := WakeAll(w, fired);
    RisenFired(k, w, fired, n);
    TickOnly(u);
    forall p | p in k.procs ensures IsDue(k, p) <==> InList(fired, p) {
      DueIsFired(k, p);
    }
    assert Do(k, TimerStep) == Tick(u);
  }

  // The timers that fire are those with one tick left, at the head of the list.
  lemma FiredPrefix(a: Agenda)
    requires AgendaOk(a)
    ensures |FiredNow(a)| <= |a| && forall i :: 0 <= i < |a| ==> (i < |FiredNow(a)| <==> a[i].left == 1)
    ensures forall i :: 0 <= i < |FiredNow(a)| ==> FiredNow(a)[i].proc == a[i].proc
  {
    FiredOk(Lower(a));
    FiredProcs(a);
  }

  lemma FiredApart(k: Kernel)
    requires Inv(k)
    ensures AgendaOk(k.timers) && Apart(FiredNow(k.timers))
  {
    FiredProcs(k.timers);
    hide FiredNow;
    assert forall i :: 0 <= i < |k.timers| ==> k.timers[i].proc == k.timers[i].id;
  }

  lemma DueIsFired(k: Kernel, p: nat)
    requires Inv(k)
    ensures AgendaOk(k.timers) && (IsDue(k, p) <==> InList(FiredNow(k.timers), p))
  {
    FiredPrefix(k.timers);
    hide FiredNow;
    assert forall i :: 0 <= i < |k.timers| ==> k.timers[i].proc == k.timers[i].id;
    if IsDue(k, p) {
      var i :| 0 <= i < |k.timers| && k.timers[i].id == p && k.timers[i].left == 1;
      assert FiredNow(k.timers)[i].proc == p;
    }
  }

  lemma {:induction false} RisenProcs(k: Kernel, w: Kernel, a: Agenda, b: Agenda)
    requires w.procs == k.procs && w.current == k.current && |a| == |b|
    requires forall i :: 0 <= i < |a| ==> a[i].proc == b[i].proc && a[i].proc in k.procs
    ensures Risen(k, a) == Risen(w, b)
    decreases |a|
  {
    if a != [] {
      assert forall i :: 0 <= i < |a[1..]| ==> a[1..][i] == a[i + 1] && b[1..][i] == b[i + 1];
      RisenProcs(k, w, a[1..], b[1..]);
    }
  }

  lemma RisenFired(k: Kernel, w: Kernel, fired: Agenda, n: nat)
    requires w.procs == k.procs && w.current == k.current && n == |fired| <= |k.timers|
    requires forall i :: 0 <= i < n ==> fired[i].proc == k.timers[i].proc && k.timers[i].proc in k.procs
    ensures Risen(k, k.timers[..n]) == Risen(w, fired)
  {
    RisenProcs(k, w, k.timers[..n], fired);
  }

  // A tick touches the slice and the flag of the current process only.
  lemma TickOnly(u: Kernel)
    requires u.current in u.procs
    ensures var d := Tick(u);
            && d.procs.Keys == u.procs.Keys && d.current == u.current && d.queue == u.queue
            && (forall p :: p in u.procs && p != u.current ==> d.procs[p] == u.procs[p])
            && var a, b := u.procs[u.current], d.procs[u.current];
               b.state == a.state && b.wait == a.wait && b.phase == a.phase && b.exiting == a.exiting
  {}

  // ---- a process that somebody else's step does not concern

  // The step is taken by the current process about itself.
  predicate OwnStep(step: Step) {
    || step.NapStep? || step.NapEndStep? || step.SleepStep? || step.ExitStep?
    || step.DownBeginStep? || step.DownEndStep?
  }

  // The step is no business of process p.
  predicate Spares(k: Kernel, step: Step, p: nat) {
    && !step.TimerStep? && !step.ScheduleStep? && (OwnStep(step) ==> k.current != p)
    && step != KillStep(p) && step != WakeStep(p) && step != ReapStep(p) && step != SpawnStep(p)
    && (step.UpStep? ==> !(step.s < |k.sems| && k.sems[step.s].waiters != [] && k.sems[step.s].waiters[0] == p))
  }

  lemma Spared(k: Kernel, step: Step, p: nat)
    requires Inv(k) && Enabled(k, step) && p in k.procs && Spares(k, step, p)
    ensures p in Do(k, step).procs && Do(k, step).procs[p] == k.procs[p] && Do(k, step).current == k.current
  {
    hide ProcsOk, SemsOk, TimersOk, Insert, Without;
    if step.UpStep? {
      assert SemOk(k, step.s) by {
        SemIsOk(k, step.s);
      }
    }
  }

  lemma SemIsOk(k: Kernel, s: nat)
    requires Inv(k) && s < |k.sems|
    ensures SemOk(k, s)
  {}

  // schedule() moves a process through its phase and counts its runs.
  lemma Scheduled(k: Kernel, p: nat)
    requires Inv(k) && p in k.procs
    ensures var d := Do(k, ScheduleStep);
            && p in d.procs && d.procs[p].state == k.procs[p].state && d.procs[p].wait == k.procs[p].wait
            && d.procs[p].exiting == k.procs[p].exiting && d.timers == k.timers
            && d.procs[p].phase == (if p == k.current then Leaving(k.procs[p].phase) else k.procs[p].phase)
            && d.current in d.procs && d.procs[d.current].state == Runnable
  {
    ScheduleSwitches(k);
    hide Inv, Do;
  }

  // ---- sleeping a number of ticks

  function TimerSteps(steps: seq<Step>): nat {
    if steps == [] then 0 else (if steps[0].TimerStep? then 1 else 0) + TimerSteps(steps[1..])
  }

  // Process p is in do_sleep with r ticks to go, and has not been woken.
  ghost predicate Asleep(k: Kernel, p: nat, r: nat) {
    && Naps(k, p) && k.procs[p].state == Sleeping && HasLeft(k.timers, p, r)
    && (p == k.current ==> !k.procs[p].phase.switched)
  }

  // Process p is in do_sleep, and can run unless it has r > 0 ticks to go.
  ghost predicate Dozing(k: Kernel, p: nat, r: nat) {
    Naps(k, p) && (k.procs[p].state == Runnable || Asleep(k, p, r))
  }

  // What a step makes of the timer of p.
  lemma TimerOf(k: Kernel, step: Step, p: nat, r: nat)
    requires Inv(k) && Enabled(k, step) && HasLeft(k.timers, p, r) && !(step.NapEndStep? && k.current == p)
    ensures !step.TimerStep? ==> HasLeft(Do(k, step).timers, p, r)
    ensures step.TimerStep? && r > 1 ==> HasLeft(Do(k, step).timers, p, r - 1)
    ensures r > 0
  {
    TimersAreOk(k);
    LeftIsPositive(k.timers, p, r);
    match step {
      case TimerStep =>
        TimerKeepsInv(k);
        TickEventLeft(k.timers, p, r);
      case NapStep(ticks) =>
        NotListed(k);
        OtherEvent(k.timers, AddEvent(Due(k.current, ticks, k.current)), p, r);
      case NapEndStep =>
        OtherEvent(k.timers, DeleteEvent(k.current), p, r);
      case ScheduleStep =>
        Scheduled(k, k.current);
      case _ =>
        OtherTimers(k, step);
    }
    hide Inv, Do;
  }

  lemma NotListed(k: Kernel)
    requires Inv(k) && Busy(k)
    ensures !Listed(k.timers, k.current)
  {
    assert forall i :: 0 <= i < |k.timers| ==> Naps(k, k.timers[i].id);
  }

  lemma OtherTimers(k: Kernel, step: Step)
    requires Inv(k) && Enabled(k, step)
    requires !step.TimerStep? && !step.NapStep? && !step.NapEndStep? && !step.ScheduleStep?
    ensures Do(k, step).timers == k.timers
  {
    hide Inv;
  }

  // Nobody but p itself ends its sleep, and p does so only when it runs again.
  lemma SleeperNotInvolved(k: Kernel, step: Step, p: nat)
    requires Inv(k) && Enabled(k, step) && Naps(k, p) && !step.TimerStep? && !step.ScheduleStep?
    requires !(step.NapEndStep? && k.current == p) && step != KillStep(p) && step != WakeStep(p)
    ensures Spares(k, step, p)
  {
    assert ProcOk(k, p);
    if step.UpStep? && k.sems[step.s].waiters != [] {
      HeadWaits(k, step.s);
    }
  }

  lemma AsleepStep(k: Kernel, step: Step, p: nat, r: nat)
    requires Inv(k) && Enabled(k, step) && Asleep(k, p, r) && step != KillStep(p) && step != WakeStep(p)
    requires step.TimerStep? ==> r > 1
    ensures Asleep(Do(k, step), p, if step.TimerStep? then r - 1 else r)
  {
    assert !(step.NapEndStep? && k.current == p);
    TimerOf(k, step, p, r);
    if step.ScheduleStep? {
      Scheduled(k, p);
    } else if step.TimerStep? {
      NotDue(k, p, r);
      var n := TimerWakes(k);
    } else {
      SleeperNotInvolved(k, step, p);
      Spared(k, step, p);
    }
    hide Inv, Do, HasLeft;
  }

  lemma NotDue(k: Kernel, p: nat, r: nat)
    requires Inv(k) && HasLeft(k.timers, p, r) && r > 1
    ensures !IsDue(k, p)
  {
    assert Timers.Sorted(k.timers);
  }

  lemma DozingStep(k: Kernel, step: Step, p: nat, r: nat)
    requires Inv(k) && Enabled(k, step) && Dozing(k, p, r) && !(step.NapEndStep? && k.current == p)
    ensures Dozing(Do(k, step), p, if step.TimerStep? && r > 0 then r - 1 else r)
  {
    hide Inv, Do, HasLeft, Enabled, Asleep;
    if k.procs[p].state == Runnable {
      RunnableNaps(k, step, p);
    } else if step == KillStep(p) || step == WakeStep(p) {
      WokenEarly(k, step, p, r);
    } else if step.TimerStep? {
      TimerDozing(k, p, r);
    } else {
      AsleepStep(k, step, p, r);
      AsleepNaps(Do(k, step), p, r);
    }
  }

  lemma AsleepNaps(k: Kernel, p: nat, r: nat)
    requires Asleep(k, p, r)
    ensures Dozing(k, p, r)
  {}

  lemma TimerDozing(k: Kernel, p: nat, r: nat)
    requires Inv(k) && Asleep(k, p, r)
    ensures r > 0 && Dozing(Do(k, TimerStep), p, r - 1)
  {
    hide Inv, Do;
    TimerOf(k, TimerStep, p, r);
    if r > 1 {
      AsleepStep(k, TimerStep, p, r);
    } else {
      var n := TimerWakes(k);
    }
  }

  lemma WokenEarly(k: Kernel, step: Step, p: nat, r: nat)
    requires Inv(k) && Enabled(k, step) && Asleep(k, p, r) && (step == KillStep(p) || step == WakeStep(p))
    ensures Dozing(Do(k, step), p, r)
  {
    assert ProcOk(k, p);
  }

  // A process in do_sleep that can run stays so until it goes on.
  lemma RunnableNaps(k: Kernel, step: Step, p: nat)
    requires Inv(k) && Enabled(k, step) && Naps(k, p) && k.procs[p].state == Runnable
    requires !(step.NapEndStep? && k.current == p)
    ensures Naps(Do(k, step), p) && Do(k, step).procs[p].state == Runnable
  {
    assert ProcOk(k, p);
    if step.ScheduleStep? {
      Scheduled(k, p);
    } else if step.TimerStep? {
      var n := TimerWakes(k);
    } else if step != KillStep(p) && step != WakeStep(p) {
      SleeperNotInvolved(k, step, p);
      Spared(k, step, p);
    }
  }

  // Process p does not come out of do_sleep in a run.
  ghost predicate StaysInSleep(k: Kernel, steps: seq<Step>, p: nat)
    requires Inv(k) && Possible(k, steps)
    decreases |steps|
  {
    steps != [] ==>
      && !(steps[0].NapEndStep? && k.current == p)
      && (StepKeepsInv(k, steps[0]); StaysInSleep(Do(k, steps[0]), steps[1..], p))
  }

  // Nobody kills or wakes p.
  predicate LeftInPeace(steps: seq<Step>, p: nat) {
    forall i :: 0 <= i < |steps| ==> steps[i] != KillStep(p) && steps[i] != WakeStep(p)
  }

  // do_sleep puts the process to sleep with all its ticks to go.
  lemma NapBegins(k: Kernel, n: nat)
    requires Inv(k) && Enabled(k, NapStep(n))
    ensures Inv(Do(k, NapStep(n))) && Asleep(Do(k, NapStep(n)), k.current, n)
  {
    StepKeepsInv(k, NapStep(n));
    TimersAreOk(k);
    var d := Due(k.current, n, k.current);
    var i := InsertPosition(k.timers, d);
    hide Insert;
    assert (k.timers[..i] + [d] + k.timers[i..])[i] == d;
  }

  lemma {:induction false} DozingRun(k: Kernel, steps: seq<Step>, p: nat, r: nat)
    requires Inv(k) && Possible(k, steps) && StaysInSleep(k, steps, p) && Dozing(k, p, r)
    ensures Dozing(Run(k, steps), p, if TimerSteps(steps) < r then r - TimerSteps(steps) else 0) && Inv(Run(k, steps))
    decreases |steps|
  {
    hide Inv, Do, Dozing, Enabled;
    if steps != [] {
      StepKeepsInv(k, steps[0]);
      DozingStep(k, steps[0], p, r);
      DozingRun(Do(k, steps[0]), steps[1..], p, if steps[0].TimerStep? && r > 0 then r - 1 else r);
    }
  }

  lemma {:induction false} AsleepRun(k: Kernel, steps: seq<Step>, p: nat, r: nat)
    requires Inv(k) && Possible(k, steps) && LeftInPeace(steps, p) && Asleep(k, p, r) && TimerSteps(steps) < r
    ensures Asleep(Run(k, steps), p, r - TimerSteps(steps)) && Inv(Run(k, steps)) && StaysInSleep(k, steps, p)
    decreases |steps|
  {
    hide Inv, Do, Asleep, Enabled;
    if steps != [] {
      StepKeepsInv(k, steps[0]);
      assert steps[0] != KillStep(p) && steps[0] != WakeStep(p);
      StillAsleep(k, steps[0], p, r);
      AsleepStep(k, steps[0], p, r);
      assert forall i :: 0 <= i < |steps[1..]| ==> steps[1..][i] == steps[i + 1];
      AsleepRun(Do(k, steps[0]), steps[1..], p, if steps[0].TimerStep? then r - 1 else r);
    }
  }

  // A sleeper that has not been woken does not end its sleep.
  lemma StillAsleep(k: Kernel, step: Step, p: nat, r: nat)
    requires Enabled(k, step) && Asleep(k, p, r)
    ensures !(step.NapEndStep? && k.current == p)
  {}

  lemma DozingIsReady(k: Kernel, p: nat)
    requires Inv(k) && Dozing(k, p, 0)
    ensures p in k.procs && k.procs[p].state == Runnable && (p == k.current || p in k.queue)
  {
    assert ProcOk(k, p);
    TimersAreOk(k);
    if k.procs[p].state != Runnable {
      LeftIsPositive(k.timers, p, 0);
    }
  }

  /**
    do_sleep(n) never oversleeps: after n timer interrupts, whatever else happens, the process can run, and is current
    or in the run queue, unless it has come out of do_sleep already.
   */
  lemma NapEndsInTime(k: Kernel, n: nat, steps: seq<Step>)
    requires Inv(k) && Enabled(k, NapStep(n)) && Inv(Do(k, NapStep(n))) && Possible(Do(k, NapStep(n)), steps)
    requires StaysInSleep(Do(k, NapStep(n)), steps, k.current) && TimerSteps(steps) >= n
    ensures var w := Run(Do(k, NapStep(n)), steps);
            && k.current in w.procs && w.procs[k.current].state == Runnable
            && (k.current == w.current || k.current in w.queue)
  {
    hide Inv, Do, Enabled, Asleep, Possible, Run;
    NapBegins(k, n);
    var d := Do(k, NapStep(n));
    AsleepNaps(d, k.current, n);
    DozingRun(d, steps, k.current, n);
    DozingIsReady(Run(d, steps), k.current);
  }

  /**
    Nor does it wake early: as long as nobody kills or wakes the process, it sleeps on through every run with fewer than
    n timer interrupts, and has exactly the rest to go.
   */
  lemma NapLasts(k: Kernel, n: nat, steps: seq<Step>)
    requires Inv(k) && Enabled(k, NapStep(n)) && Inv(Do(k, NapStep(n))) && Possible(Do(k, NapStep(n)), steps)
    requires LeftInPeace(steps, k.current) && TimerSteps(steps) < n
    ensures var w := Run(Do(k, NapStep(n)), steps);
            && k.current in w.procs && w.procs[k.current].state == Sleeping
            && HasLeft(w.timers, k.current, n - TimerSteps(steps))
            && StaysInSleep(Do(k, NapStep(n)), steps, k.current)
  {
    hide Inv, Do, Enabled, Possible, Run, HasLeft;
    NapBegins(k, n);
    AsleepRun(Do(k, NapStep(n)), steps, k.current, n);
  }

  // ---- do_kill

  /**
    do_kill marks the process and, if it sleeps interruptibly, wakes it: it is current or last in the run queue.  A
    process in another state keeps its state, and nothing else changes.
   */
  lemma KillWakes(k: Kernel, p: nat)
    requires Inv(k) && p in k.procs && !k.procs[p].exiting
    ensures var d := Do(k, KillStep(p));
            var a := k.procs[p];
            && d.procs.Keys == k.procs.Keys && d.procs[p].exiting
            && d.current == k.current && d.sems == k.sems && d.timers == k.timers
            && (forall q :: q in k.procs && q != p ==> d.procs[q] == k.procs[q])
            && d.procs[p].phase == a.phase && d.procs[p].needResched == a.needResched
            && (a.wait == Interruptible ==>
                  && d.procs[p].state == Runnable && d.procs[p].wait == NoWait
                  && d.queue == if p == k.current then k.queue else k.queue + [p])
            && (a.wait != Interruptible ==> d.procs[p] == a.(exiting := true) && d.queue == k.queue)
  {
    assert ProcOk(k, p);
  }

  /** A process killed in an interruptible sleep runs after one schedule() for each process before it and one more. */
  lemma KilledRuns(k: Kernel, p: nat, steps: seq<Step>)
    requires Inv(k) && p in k.procs && !k.procs[p].exiting && k.procs[p].wait == Interruptible && p != k.current
    requires Inv(Do(k, KillStep(p))) && Possible(Do(k, KillStep(p)), steps)
    requires Schedules(steps) == |k.queue| + 1 && steps[|steps| - 1].ScheduleStep?
    ensures Run(Do(k, KillStep(p)), steps).current == p
  {
    hide Inv, Possible, Run;
    KillWakes(k, p);
    hide Do;
    var d := Do(k, KillStep(p));
    assert d.queue[|k.queue|] == p;
    BoundedWaiting(d, steps, |k.queue|);
  }

  // ---- sleeping and exiting

  // Process p sleeps interruptibly, outside do_sleep.
  ghost predicate Rests(k: Kernel, p: nat) {
    p in k.procs && k.procs[p].state == Sleeping && k.procs[p].wait == Interruptible && k.procs[p].phase == Running
  }

  lemma RestsStep(k: Kernel, step: Step, p: nat)
    requires Inv(k) && Enabled(k, step) && Rests(k, p) && step != KillStep(p) && step != WakeStep(p)
    ensures Rests(Do(k, step), p)
  {
    assert ProcOk(k, p);
    if step.ScheduleStep? {
      Scheduled(k, p);
    } else if step.TimerStep? {
      NoTimer(k, p);
      var n := TimerWakes(k);
    } else {
      if step.UpStep? && k.sems[step.s].waiters != [] {
        HeadWaits(k, step.s);
      }
      Spared(k, step, p);
    }
    hide Inv, Do;
  }

  lemma NoTimer(k: Kernel, p: nat)
    requires Inv(k) && p in k.procs && k.procs[p].phase == Running
    ensures !IsDue(k, p)
  {
    assert forall i :: 0 <= i < |k.timers| ==> Naps(k, k.timers[i].id);
  }

  /** A process that goes to sleep, as in do_wait, sleeps until somebody kills or wakes it. */
  lemma {:induction false} SleeperStays(k: Kernel, steps: seq<Step>, p: nat)
    requires Inv(k) && Possible(k, steps) && LeftInPeace(steps, p) && Rests(k, p)
    ensures Rests(Run(k, steps), p)
    decreases |steps|
  {
    hide Inv, Do, Rests, Enabled;
    if steps != [] {
      StepKeepsInv(k, steps[0]);
      assert steps[0] != KillStep(p) && steps[0] != WakeStep(p);
      RestsStep(k, steps[0], p);
      assert forall i :: 0 <= i < |steps[1..]| ==> steps[1..][i] == steps[i + 1];
      SleeperStays(Do(k, steps[0]), steps[1..], p);
    }
  }

  // Process p has exited and given up the processor.
  ghost predicate Dead(k: Kernel, p: nat) {
    p in k.procs && k.procs[p].state == Zombie && p != k.current
  }

  lemma DeadStep(k: Kernel, step: Step, p: nat)
    requires Inv(k) && Enabled(k, step) && Dead(k, p) && step != ReapStep(p)
    ensures Dead(Do(k, step), p)
  {
    assert ProcOk(k, p);
    if step.ScheduleStep? {
      Scheduled(k, p);
    } else if step.TimerStep? {
      assert !IsDue(k, p) by {
        assert forall i :: 0 <= i < |k.timers| ==> Naps(k, k.timers[i].id);
      }
      var n := TimerWakes(k);
    } else if step != KillStep(p) {
      if step.UpStep? && k.sems[step.s].waiters != [] {
        HeadWaits(k, step.s);
      }
      Spared(k, step, p);
    }
    hide Inv, HasLeft;
  }

  /** A process that has exited never runs again, and is never in the run queue, until its parent has freed it. */
  lemma {:induction false} ExitIsFinal(k: Kernel, steps: seq<Step>, p: nat)
    requires Inv(k) && Possible(k, steps) && Dead(k, p) && forall i :: 0 <= i < |steps| ==> steps[i] != ReapStep(p)
    ensures Dead(Run(k, steps), p) && p !in Run(k, steps).queue
    decreases |steps|
  {
    hide Do, Dead, Enabled;
    if steps == [] {
      DeadNotQueued(k, p);
    } else {
      StepKeepsInv(k, steps[0]);
      assert steps[0] != ReapStep(p);
      DeadStep(k, steps[0], p);
      assert forall i :: 0 <= i < |steps[1..]| ==> steps[1..][i] == steps[i + 1];
      ExitIsFinal(Do(k, steps[0]), steps[1..], p);
    }
  }

  lemma DeadNotQueued(k: Kernel, p: nat)
    requires Inv(k) && Dead(k, p)
    ensures p !in k.queue
  {}

  lemma SleepBegins(k: Kernel)
    requires Inv(k) && Enabled(k, SleepStep)
    ensures Rests(Do(k, SleepStep), k.current)
  {
    hide Inv;
  }

  /** A new process can run, with a full slice, behind all others; nobody else notices. */
  lemma SpawnIsLast(k: Kernel, p: nat)
    requires Inv(k) && Enabled(k, SpawnStep(p))
    ensures var d := Do(k, SpawnStep(p));
            && p in d.procs && d.procs[p].state == Runnable && d.procs[p].timeSlice == MAX_TIME_SLICE
            && d.queue == k.queue + [p] && d.current == k.current
            && forall q :: q in k.procs ==> q in d.procs && d.procs[q] == k.procs[q]
  {
    assert p != IDLE && p != k.current;
    hide ProcsOk, SemsOk, TimersOk;
  }

  /** Exiting and calling schedule() ends a process. */
  lemma ExitThenSchedule(k: Kernel)
    requires Inv(k) && Enabled(k, ExitStep)
    ensures Inv(Do(k, ExitStep)) && Dead(Do(Do(k, ExitStep), ScheduleStep), k.current)
  {
    var e := Do(k, ExitStep);
    StepKeepsInv(k, ExitStep);
    assert e.procs[k.current].state == Zombie;
    Scheduled(e, k.current);
    hide Inv, Do;
  }

  // ---- time slices

  // Every slice is within bounds.
  ghost predicate SlicesOk(k: Kernel) {
    forall p :: p in k.procs ==> 0 <= k.procs[p].timeSlice <= MAX_TIME_SLICE
  }

  lemma {:induction false} WakeAllSlices(k: Kernel, list: Agenda)
    requires Inv(k) && forall i :: 0 <= i < |list| ==> list[i].proc in k.procs && Naps(k, list[i].proc)
    ensures SlicesOk(k) ==> SlicesOk(WakeAll(k, list))
    ensures k.procs[k.current].state == Runnable ==> WakeAll(k, list).procs[k.current] == k.procs[k.current]
    ensures WakeAll(k, list).procs[k.current].timeSlice == k.procs[k.current].timeSlice
    ensures WakeAll(k, list).procs[k.current].needResched == k.procs[k.current].needResched
    decreases |list|
  {
    hide Inv;
    if list != [] {
      var p, rest := list[0].proc, list[1..];
      assert forall i :: 0 <= i < |rest| ==> rest[i] == list[i + 1];
      WakeNapper(k, p);
      var w := Wake(k, p);
      assert SlicesOk(k) ==> SlicesOk(w);
      WakeAllSlices(w, rest);
    }
  }

  // What a timer interrupt does to the slice of the current process.
  lemma TimerSlice(k: Kernel)
    requires Inv(k)
    ensures var d := Do(k, TimerStep);
            var a, b := k.procs[k.current], d.procs[k.current];
            && (SlicesOk(k) ==> SlicesOk(d))
            && b.timeSlice == (if k.current != IDLE && a.timeSlice > 0 then a.timeSlice - 1 else a.timeSlice)
            && (b.needResched <==> a.needResched || k.current == IDLE || b.timeSlice == 0)
  {
    hide WakeAll, FiredNow, Ticked, Inv;
    TimersAreOk(k);
    TickTimers(k);
    FiredNaps(k);
    var w, fired := k.(timers := Ticked(k.timers)), FiredNow(k.timers);
    WakeAllSlices(w, fired);
    assert Do(k, TimerStep) == Tick(WakeAll(w, fired));
  }

  // schedule(): a slice that has run out is filled up again, and the flag is cleared.
  lemma ScheduleSlice(k: Kernel)
    requires Inv(k)
    ensures var d := Do(k, ScheduleStep);
            var a, b := k.procs[k.current], d.procs[k.current];
            && !b.needResched
            && (SlicesOk(k) ==>
                  && SlicesOk(d)
                  && b.timeSlice == if a.state == Runnable && k.current != IDLE && a.timeSlice == 0 then MAX_TIME_SLICE
                                    else a.timeSlice)
            && (forall p :: p in k.procs && p != k.current ==> d.procs[p].timeSlice == k.procs[p].timeSlice)
            && d.procs[d.current].runs == k.procs[d.current].runs + 1
  {
    hide ProcsOk, SemsOk, TimersOk;
  }

  lemma WakeSlices(k: Kernel, p: nat)
    requires p in k.procs && SlicesOk(k)
    ensures SlicesOk(Wake(k, p))
  {}

  lemma OtherSlices(k: Kernel, step: Step)
    requires Inv(k) && Enabled(k, step) && !step.TimerStep? && !step.ScheduleStep? && SlicesOk(k)
    ensures SlicesOk(Do(k, step))
  {
    hide ProcsOk, SemsOk, TimersOk, QueueOk, Insert, Without, Wake;
    match step {
      case UpStep(s) => UpSlices(k, s);
      case KillStep(p) =>
        WakeSlices(k.(procs := k.procs[p := k.procs[p].(exiting := true)]), p);
      case WakeStep(p) => WakeSlices(k, p);
      case SpawnStep(p) =>
        WakeSlices(k.(procs := k.procs[p := Proc(Uninit, NoWait, false, 0, 0, false, Running)]), p);
      case _ =>
    }
  }

  lemma UpSlices(k: Kernel, s: nat)
    requires Inv(k) && s < |k.sems| && SlicesOk(k)
    ensures SlicesOk(Do(k, UpStep(s)))
  {
    SemIsOk(k, s);
    hide ProcsOk, SemsOk, TimersOk, QueueOk, Wake;
    var m := k.sems[s];
    if m.waiters != [] {
      var p := m.waiters[0];
      assert p in m.waiters;
      var w := SetSem(k, s, m.(waiters := m.waiters[1..]));
      var u := w.(procs := w.procs[p := k.procs[p].(phase := Handing(k.procs[p].phase))]);
      WakeSlices(u, p);
      assert Do(k, UpStep(s)) == Wake(u, p);
    }
  }

  lemma CurrentSlice(k: Kernel, step: Step)
    requires Inv(k) && Enabled(k, step) && !step.TimerStep? && !step.ScheduleStep?
    ensures var d := Do(k, step);
            && d.current == k.current && d.current in d.procs
            && d.procs[k.current].timeSlice == k.procs[k.current].timeSlice
            && d.procs[k.current].needResched == k.procs[k.current].needResched
  {
    if step.UpStep? {
      SemIsOk(k, step.s);
    }
    hide ProcsOk, SemsOk, TimersOk, Insert, Without;
  }

  lemma StepKeepsSlices(k: Kernel, step: Step)
    requires Inv(k) && Enabled(k, step) && SlicesOk(k)
    ensures SlicesOk(Do(k, step))
  {
    hide Inv, Do;
    if step.TimerStep? {
      TimerSlice(k);
    } else if step.ScheduleStep? {
      ScheduleSlice(k);
    } else {
      OtherSlices(k, step);
    }
  }

  function Less(a: int, b: nat): int {
    if a < b then 0 else a - b
  }

  /**
    A process that stays current is asked to give way after exactly as many timer interrupts as its slice says, so
    after at most MAX_TIME_SLICE of them; idleproc after the first.
   */
  lemma {:induction false} SliceEnds(k: Kernel, steps: seq<Step>)
    requires Inv(k) && Possible(k, steps) && SlicesOk(k) && Schedules(steps) == 0
    ensures var w, t := Run(k, steps), TimerSteps(steps);
            var a := k.procs[k.current];
            && SlicesOk(w) && w.current == k.current && k.current in w.procs
            && (k.current != IDLE ==> w.procs[k.current].timeSlice == Less(a.timeSlice, t))
            && (w.procs[k.current].needResched <==>
                  a.needResched || (t > 0 && (k.current == IDLE || t >= a.timeSlice)))
    decreases |steps|
  {
    hide Inv, Do, Enabled, SlicesOk;
    CurrentIn(k);
    SliceBounds(k);
    if steps != [] {
      var d := Do(k, steps[0]);
      StepKeepsInv(k, steps[0]);
      StepKeepsSlices(k, steps[0]);
      QueueMoves(k, steps[0]);
      CurrentIn(d);
      if steps[0].TimerStep? {
        TimerSlice(k);
      } else {
        CurrentSlice(k, steps[0]);
      }
      SliceEnds(d, steps[1..]);
    }
  }

  lemma CurrentIn(k: Kernel)
    requires Inv(k)
    ensures k.current in k.procs
  {}

  lemma SliceBounds(k: Kernel)
    requires SlicesOk(k) && k.current in k.procs
    ensures 0 <= k.procs[k.current].timeSlice <= MAX_TIME_SLICE
  {}
}
