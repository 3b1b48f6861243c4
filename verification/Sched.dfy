/**
  Processes, the round-robin run queue and semaphores of ucore/kern/schedule and
  ucore/kern/sync as a step system.  Each atomic section of the kernel is one
  step; steps of interrupt handlers may come between any two others.
 */
module Sched {
  import opened Lists
  import opened Timers

  const IDLE: nat := 0
  const MAX_TIME_SLICE: int := 20

  datatype ProcState = Uninit | Sleeping | Runnable | Zombie

  // wait_state: none, WT_KSEM, or a state with WT_INTERRUPTED set
  datatype WaitState = NoWait | KSem | Interruptible

  // wakeup_flags of a wait: WT_INTERRUPTED until an up hands the semaphore over
  datatype Flags = Interrupted | Handed

  // Whether a process is inside __down or do_sleep, and whether it has been through schedule() there.
  datatype Phase = Running | Waiting(sem: nat, switched: bool, flags: Flags) | Napping(switched: bool)

  datatype Proc =
    Proc(state: ProcState, wait: WaitState, needResched: bool, timeSlice: int, runs: nat, exiting: bool, phase: Phase)

  datatype Sem = Sem(value: int, waiters: seq<nat>)

  // A timer has the number of the process that sleeps on it.
  datatype Kernel =
    Kernel(procs: map<nat, Proc>, current: nat, queue: seq<nat>, procNum: nat, sems: seq<Sem>, timers: Agenda)

  // ---- default_sched.c

  function FullSlice(p: Proc): Proc {
    if p.timeSlice == 0 || p.timeSlice > MAX_TIME_SLICE then p.(timeSlice := MAX_TIME_SLICE) else p
  }

  function Enqueue(k: Kernel, p: nat): Kernel
    requires p in k.procs
  {
    if p == IDLE then k
    else k.(procs := k.procs[p := FullSlice(k.procs[p])], queue := k.queue + [p], procNum := k.procNum + 1)
  }

  // ---- sched.c

  function Wake(k: Kernel, p: nat): Kernel
    requires p in k.procs
  {
    if k.procs[p].state == Runnable then k
    else
      var w := k.(procs := k.procs[p := k.procs[p].(state := Runnable, wait := NoWait)]);
      if p != k.current then Enqueue(w, p) else w
  }

  // The first half of schedule(): the current process queues up again if it can still run.
  function Requeue(k: Kernel): Kernel
    requires k.current in k.procs
  {
    var p := k.procs[k.current].(needResched := false, phase := Leaving(k.procs[k.current].phase));
    var c := k.(procs := k.procs[k.current := p]);
    if p.state == Runnable then Enqueue(c, k.current) else c
  }

  function Leaving(p: Phase): Phase {
    if p.Running? then p else p.(switched := true)
  }

  // The second half: the head of the queue runs, or idleproc.
  function Dispatch(k: Kernel): Kernel
    requires IDLE in k.procs && forall p :: p in k.queue ==> p in k.procs
    requires k.queue != [] ==> k.procNum > 0
  {
    var next := if k.queue == [] then IDLE else k.queue[0];
    Kernel(k.procs[next := k.procs[next].(runs := k.procs[next].runs + 1)], next,
           if k.queue == [] then [] else k.queue[1..],
           if k.queue == [] then k.procNum else k.procNum - 1,
           k.sems, k.timers)
  }

  // sched_class_proc_tick
  function Tick(k: Kernel): Kernel
    requires k.current in k.procs
  {
    var p := k.procs[k.current];
    var slice := if p.timeSlice > 0 then p.timeSlice - 1 else p.timeSlice;
    k.(procs := k.procs[k.current :=
         if k.current == IDLE then p.(needResched := true)
         else p.(timeSlice := slice, needResched := p.needResched || slice == 0)])
  }

  // The processes of the timers that fire, in order.
  function WakeAll(k: Kernel, fired: Agenda): (w: Kernel)
    requires forall i :: 0 <= i < |fired| ==> fired[i].proc in k.procs
    ensures w.procs.Keys == k.procs.Keys && w.current == k.current
    decreases |fired|
  {
    if fired == [] then k
    else
      var w := Wake(k, fired[0].proc);
      assert forall i :: 0 <= i < |fired[1..]| ==> fired[1..][i] == fired[i + 1];
      WakeAll(w, fired[1..])
  }

  // run_timer_list
  function RunTimers(k: Kernel): Kernel
    requires AgendaOk(k.timers) && forall i :: 0 <= i < |k.timers| ==> k.timers[i].proc in k.procs
    requires k.current in k.procs
  {
    FiredProcs(k.timers);
    Tick(WakeAll(k.(timers := Ticked(k.timers)), FiredNow(k.timers)))
  }

  lemma FiredProcs(a: Agenda)
    requires AgendaOk(a)
    ensures |FiredNow(a)| <= |a| && forall i :: 0 <= i < |FiredNow(a)| ==>
              FiredNow(a)[i].proc == a[i].proc && FiredNow(a)[i].id == a[i].id
  {
    FiredOk(Lower(a));
  }

  // ---- sem.c

  function SetSem(k: Kernel, s: nat, m: Sem): Kernel
    requires s < |k.sems|
  {
    k.(sems := k.sems[s := m])
  }

  function Up(k: Kernel, s: nat): Kernel
    requires s < |k.sems| && forall p :: p in k.sems[s].waiters ==> p in k.procs
  {
    var m := k.sems[s];
    if m.waiters == [] then SetSem(k, s, m.(value := m.value + 1))
    else
      var p := m.waiters[0];
      var q := k.procs[p];
      var w := SetSem(k, s, m.(waiters := m.waiters[1..]));
      Wake(w.(procs := w.procs[p := q.(phase := Handing(q.phase))]), p)
  }

  function Handing(p: Phase): Phase {
    if p.Waiting? then p.(flags := Handed) else p
  }

  // __down up to schedule(): true if the semaphore was free
  function DownBegin(k: Kernel, s: nat): Kernel
    requires s < |k.sems| && k.current in k.procs
  {
    var m := k.sems[s];
    if m.value > 0 then SetSem(k, s, m.(value := m.value - 1))
    else
      var p := k.procs[k.current].(state := Sleeping, wait := KSem, phase := Waiting(s, false, Interrupted));
      SetSem(k.(procs := k.procs[k.current := p]), s, m.(waiters := m.waiters + [k.current]))
  }

  // __down after schedule(): the wait leaves the queue if it is still there.
  function DownEnd(k: Kernel): Kernel
    requires k.current in k.procs && k.procs[k.current].phase.Waiting? && k.procs[k.current].phase.sem < |k.sems|
  {
    var s := k.procs[k.current].phase.sem;
    SetSem(k.(procs := k.procs[k.current := k.procs[k.current].(phase := Running)]), s,
           k.sems[s].(waiters := Remove(k.sems[s].waiters, k.current)))
  }

  function TryDown(k: Kernel, s: nat): Kernel
    requires s < |k.sems|
  {
    var m := k.sems[s];
    if m.value > 0 then SetSem(k, s, m.(value := m.value - 1)) else k
  }

  // ---- proc.c

  function Kill(k: Kernel, p: nat): Kernel
    requires p in k.procs
  {
    var q := k.procs[p];
    if q.exiting then k
    else
      var w := k.(procs := k.procs[p := q.(exiting := true)]);
      if q.wait == Interruptible then Wake(w, p) else w
  }

  // do_fork's end: a new process becomes runnable.
  function Spawn(k: Kernel, p: nat): Kernel {
    Wake(k.(procs := k.procs[p := Proc(Uninit, NoWait, false, 0, 0, false, Running)]), p)
  }

  // do_sleep up to schedule(): the process sleeps on a timer of its own
  function Nap(k: Kernel, ticks: nat): Kernel
    requires k.current in k.procs
  {
    var p := k.procs[k.current].(state := Sleeping, wait := Interruptible, phase := Napping(false));
    k.(procs := k.procs[k.current := p], timers := Insert(k.timers, Due(k.current, ticks, k.current)))
  }

  // do_sleep after schedule(): the timer goes, whether or not it has fired
  function NapEnd(k: Kernel): Kernel
    requires k.current in k.procs
  {
    k.(procs := k.procs[k.current := k.procs[k.current].(phase := Running)], timers := Without(k.timers, k.current))
  }

  // do_wait and the like, up to schedule()
  function Sleep(k: Kernel): Kernel
    requires k.current in k.procs
  {
    k.(procs := k.procs[k.current := k.procs[k.current].(state := Sleeping, wait := Interruptible)])
  }

  function Exit(k: Kernel): Kernel
    requires k.current in k.procs
  {
    k.(procs := k.procs[k.current := k.procs[k.current].(state := Zombie)])
  }

  // do_wait's end: the parent frees a zombie.
  function Reap(k: Kernel, p: nat): Kernel {
    k.(procs := k.procs - {p})
  }

  // ---- steps

  datatype Step =
    | ScheduleStep | TimerStep | NapStep(ticks: nat) | NapEndStep
    | UpStep(s: nat) | DownBeginStep(s: nat) | DownEndStep | TryDownStep(s: nat)
    | KillStep(p: nat) | WakeStep(p: nat) | SpawnStep(p: nat) | SleepStep | ExitStep | ReapStep(p: nat)

  // The current process is executing kernel code outside __down and do_sleep.
  predicate Busy(k: Kernel) {
    k.current in k.procs && k.procs[k.current].state == Runnable && k.procs[k.current].phase == Running
  }

  predicate Enabled(k: Kernel, step: Step) {
    match step
    case ScheduleStep => true
    case TimerStep => true
    case NapStep(ticks) => Busy(k) && k.current != IDLE && ticks > 0
    case NapEndStep => k.current in k.procs && k.procs[k.current].phase.Napping? && k.procs[k.current].phase.switched
    case UpStep(s) => s < |k.sems|
    case DownBeginStep(s) => s < |k.sems| && Busy(k) && (k.current != IDLE || k.sems[s].value > 0)
    case DownEndStep =>
      && k.current in k.procs && k.procs[k.current].phase.Waiting? && k.procs[k.current].phase.switched
      && k.procs[k.current].phase.sem < |k.sems|
    case TryDownStep(s) => s < |k.sems|
    case KillStep(p) => p in k.procs
    // exiting children look for WT_CHILD, and the keyboard's queue holds processes that wait for it
    case WakeStep(p) => p in k.procs && k.procs[p].state != Zombie && k.procs[p].wait != KSem
    case SpawnStep(p) => p !in k.procs
    case SleepStep => Busy(k) && k.current != IDLE
    case ExitStep => Busy(k) && k.current != IDLE
    case ReapStep(p) => p in k.procs && k.procs[p].state == Zombie && p != k.current
  }

  // ---- invariant

  // The run queue holds exactly the runnable processes other than the current one and idleproc, each once.
  ghost predicate QueueOk(k: Kernel) {
    && IDLE in k.procs && k.current in k.procs && k.procs[IDLE].state == Runnable
    && Distinct(k.queue) && k.procNum == |k.queue|
    && forall p :: p in k.queue <==> p in k.procs && k.procs[p].state == Runnable && p != k.current && p != IDLE
  }

  // What a process waits for agrees with its state.
  predicate ProcOk(k: Kernel, p: nat)
    requires p in k.procs
  {
    var q := k.procs[p];
    && (q.state == Sleeping <==> q.wait != NoWait) && q.state != Uninit
    && (q.wait == KSem <==> q.phase.Waiting? && q.phase.flags == Interrupted)
    && (q.phase.Waiting? ==>
          && q.phase.sem < |k.sems| && p != IDLE && q.state != Zombie && q.wait != Interruptible
          && (p != k.current ==> q.phase.switched))
    && (q.phase.Waiting? && q.phase.flags == Interrupted && p == k.current ==> !q.phase.switched)
    && (q.phase.Napping? ==> p != IDLE && q.state != Zombie)
  }

  ghost predicate ProcsOk(k: Kernel) {
    forall p :: p in k.procs ==> ProcOk(k, p)
  }

  // The value counts only while nobody waits; the waiters are the processes in __down that have not been served.
  ghost predicate SemOk(k: Kernel, s: nat)
    requires s < |k.sems|
  {
    && k.sems[s].value >= 0 && (k.sems[s].value > 0 ==> k.sems[s].waiters == []) && Distinct(k.sems[s].waiters)
    && forall p :: p in k.sems[s].waiters <==> Waits(k, p, s)
  }

  predicate Waits(k: Kernel, p: nat, s: nat) {
    p in k.procs && k.procs[p].phase.Waiting? && k.procs[p].phase.sem == s && k.procs[p].phase.flags == Interrupted
  }

  ghost predicate SemsOk(k: Kernel) {
    forall s :: 0 <= s < |k.sems| ==> SemOk(k, s)
  }

  // Every timer belongs to a process that is still in do_sleep.
  predicate TimersOk(k: Kernel) {
    && AgendaOk(k.timers)
    && forall i :: 0 <= i < |k.timers| ==> k.timers[i].proc == k.timers[i].id && Naps(k, k.timers[i].id)
  }

  predicate Naps(k: Kernel, p: nat) {
    p in k.procs && k.procs[p].phase.Napping?
  }

  ghost predicate Inv(k: Kernel) {
    QueueOk(k) && ProcsOk(k) && SemsOk(k) && TimersOk(k)
  }

  ghost function Do(k: Kernel, step: Step): Kernel
    requires Inv(k) && Enabled(k, step)
  {
    match step
    case ScheduleStep => RequeueFacts(k); Dispatch(Requeue(k))
    case TimerStep => assert forall i :: 0 <= i < |k.timers| ==> Naps(k, k.timers[i].id); RunTimers(k)
    case NapStep(ticks) => Nap(k, ticks)
    case NapEndStep => NapEnd(k)
    case UpStep(s) => assert SemOk(k, s); Up(k, s)
    case DownBeginStep(s) => DownBegin(k, s)
    case DownEndStep => DownEnd(k)
    case TryDownStep(s) => TryDown(k, s)
    case KillStep(p) => Kill(k, p)
    case WakeStep(p) => Wake(k, p)
    case SpawnStep(p) => Spawn(k, p)
    case SleepStep => Sleep(k)
    case ExitStep => Exit(k)
    case ReapStep(p) => Reap(k, p)
  }

  lemma RequeueFacts(k: Kernel)
    requires QueueOk(k)
    ensures var r := Requeue(k);
            && IDLE in r.procs && (forall p :: p in r.queue ==> p in r.procs) && r.procNum == |r.queue|
  {}
}
