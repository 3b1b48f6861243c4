/**
  Whole runs of the step system: bounded waiting in the run queue, and for each
  semaphore first-come service, conservation of units and no lost wake-up.
 */
module SchedRuns {
  import opened Sched
  import opened SchedProof

  // A sequence of steps each of which can be taken when its turn comes.
  ghost predicate Possible(k: Kernel, steps: seq<Step>)
    requires Inv(k)
    decreases |steps|
  {
    steps != [] ==> Enabled(k, steps[0]) && (StepKeepsInv(k, steps[0]); Possible(Do(k, steps[0]), steps[1..]))
  }

  ghost function Run(k: Kernel, steps: seq<Step>): Kernel
    requires Inv(k) && Possible(k, steps)
    decreases |steps|
  {
    if steps == [] then k else StepKeepsInv(k, steps[0]); Run(Do(k, steps[0]), steps[1..])
  }

  // ---- bounded waiting

  function Schedules(steps: seq<Step>): nat {
    if steps == [] then 0 else (if steps[0].ScheduleStep? then 1 else 0) + Schedules(steps[1..])
  }

  // Only schedule() takes from the run queue, and it takes the head; everything else adds at the tail.
  lemma QueueMoves(k: Kernel, step: Step)
    requires Inv(k) && Enabled(k, step)
    ensures !step.ScheduleStep? ==> k.queue <= Do(k, step).queue && Do(k, step).current == k.current
    ensures step.ScheduleStep? && k.queue != [] ==>
              Do(k, step).current == k.queue[0] && k.queue[1..] <= Do(k, step).queue
  {
    if step.TimerStep? {
      TimerKeepsInv(k);
    } else if step.ScheduleStep? && k.queue != [] {
      assert Requeue(k).queue == k.queue || Requeue(k).queue == k.queue + [k.current];
    }
  }

  /**
    A process at position j moves up by one with each schedule(), whatever else happens, and runs after the (j+1)-th.
   */
  lemma {:induction false} BoundedWaiting(k: Kernel, steps: seq<Step>, j: nat)
    requires Inv(k) && Possible(k, steps) && j < |k.queue|
    ensures var n := Schedules(steps);
            n <= j ==>
              && j - n < |Run(k, steps).queue| && Run(k, steps).queue[j - n] == k.queue[j]
              && Run(k, steps).current != k.queue[j]
    ensures Schedules(steps) == j + 1 && steps != [] && steps[|steps| - 1].ScheduleStep? ==>
              Run(k, steps).current == k.queue[j]
    decreases |steps|
  {
    hide Do, Inv;
    if steps == [] {
      NotCurrent(k, j);
    } else {
      var step := steps[0];
      var d := Do(k, step);
      StepKeepsInv(k, step);
      QueueMoves(k, step);
      if !step.ScheduleStep? {
        BoundedWaiting(d, steps[1..], j);
        assert steps[1..] != [] ==> steps[1..][|steps| - 2] == steps[|steps| - 1];
      } else if j > 0 {
        assert d.queue[j - 1] == k.queue[j];
        BoundedWaiting(d, steps[1..], j - 1);
        assert steps[1..] != [] ==> steps[1..][|steps| - 2] == steps[|steps| - 1];
      } else {
        NoMoreSchedules(d, steps[1..]);
      }
    }
  }

  lemma NotCurrent(k: Kernel, j: nat)
    requires Inv(k) && j < |k.queue|
    ensures k.queue[j] != k.current
  {
    assert k.queue[j] in k.queue;
  }

  // A run without schedule() and whose last step is one is empty.
  lemma {:induction false} NoMoreSchedules(k: Kernel, steps: seq<Step>)
    ensures Schedules(steps) == 0 && steps != [] ==> !steps[|steps| - 1].ScheduleStep?
    decreases |steps|
  {
    if steps != [] {
      NoMoreSchedules(k, steps[1..]);
      assert steps[1..] != [] ==> steps[1..][|steps| - 2] == steps[|steps| - 1];
    }
  }

  // ---- semaphores

  // What has happened to a semaphore: ups, units taken by downs, processes that had to wait, processes served.
  datatype Log = Log(init: nat, ups: nat, taken: nat, arrivals: seq<nat>, served: seq<nat>)

  function Take(l: Log): Log {
    l.(taken := l.taken + 1)
  }

  function Record(k: Kernel, logs: seq<Log>, step: Step): seq<Log>
    requires |logs| == |k.sems| && Enabled(k, step)
  {
    match step
    case UpStep(s) =>
      var l := logs[s].(ups := logs[s].ups + 1);
      logs[s := if k.sems[s].waiters == [] then l else Take(l).(served := l.served + [k.sems[s].waiters[0]])]
    case DownBeginStep(s) =>
      logs[s := if k.sems[s].value > 0 then Take(logs[s]) else logs[s].(arrivals := logs[s].arrivals + [k.current])]
    case TryDownStep(s) => logs[s := if k.sems[s].value > 0 then Take(logs[s]) else logs[s]]
    case _ => logs
  }

  ghost function RunLog(k: Kernel, logs: seq<Log>, steps: seq<Step>): seq<Log>
    requires Inv(k) && Possible(k, steps) && LogsOk(k, logs)
    decreases |steps|
  {
    if steps == [] then logs
    else
      StepKeepsInv(k, steps[0]);
      LogStep(k, logs, steps[0]);
      RunLog(Do(k, steps[0]), Record(k, logs, steps[0]), steps[1..])
  }

  // Units are conserved, and the waiters are the arrivals not yet served, in order.
  predicate LogOk(m: Sem, l: Log) {
    m.value == l.init + l.ups - l.taken && l.arrivals == l.served + m.waiters
  }

  ghost predicate LogsOk(k: Kernel, logs: seq<Log>) {
    |logs| == |k.sems| && forall s :: 0 <= s < |k.sems| ==> LogOk(k.sems[s], logs[s])
  }

  lemma LogStep(k: Kernel, logs: seq<Log>, step: Step)
    requires Inv(k) && Enabled(k, step) && LogsOk(k, logs)
    ensures LogsOk(Do(k, step), Record(k, logs, step))
  {
    hide Inv, LogOk;
    match step {
      case UpStep(s) => LogUp(k, logs, s);
      case DownBeginStep(s) => LogDown(k, logs, s);
      case TryDownStep(s) => LogTryDown(k, logs, s);
      case _ => SemsSame(k, step);
    }
  }

  lemma LogUp(k: Kernel, logs: seq<Log>, s: nat)
    requires Inv(k) && s < |k.sems| && LogsOk(k, logs)
    ensures LogsOk(Do(k, UpStep(s)), Record(k, logs, UpStep(s)))
  {
    assert LogOk(k.sems[s], logs[s]) && SemOk(k, s);
    if k.sems[s].waiters != [] {
      HandOver(k, s);
      assert k.sems[s].waiters == [k.sems[s].waiters[0]] + k.sems[s].waiters[1..];
      hide Do, Inv;
    }
  }

  lemma LogDown(k: Kernel, logs: seq<Log>, s: nat)
    requires Inv(k) && Enabled(k, DownBeginStep(s)) && LogsOk(k, logs)
    ensures LogsOk(Do(k, DownBeginStep(s)), Record(k, logs, DownBeginStep(s)))
  {
    assert LogOk(k.sems[s], logs[s]) && SemOk(k, s);
    hide Inv;
  }

  lemma LogTryDown(k: Kernel, logs: seq<Log>, s: nat)
    requires Inv(k) && s < |k.sems| && LogsOk(k, logs)
    ensures LogsOk(Do(k, TryDownStep(s)), Record(k, logs, TryDownStep(s)))
  {
    assert LogOk(k.sems[s], logs[s]) && SemOk(k, s);
    hide Inv;
  }

  // The other steps touch no semaphore.
  lemma SemsSame(k: Kernel, step: Step)
    requires Inv(k) && Enabled(k, step) && !step.UpStep? && !step.DownBeginStep? && !step.TryDownStep?
    ensures Do(k, step).sems == k.sems
  {
    if step.DownEndStep? {
      DownEndKeepsInv(k);
    } else if step.TimerStep? {
      TimerKeepsInv(k);
    }
    hide Inv, RunTimers, DownEnd;
  }

  /**
    Over every run: no semaphore is negative or positive with waiters; the units taken and not given back
    never exceed the initial value; and processes are served in the order they came.
   */
  lemma {:induction false} SemaphoreSafety(k: Kernel, logs: seq<Log>, steps: seq<Step>, s: nat)
    requires Inv(k) && Possible(k, steps) && LogsOk(k, logs) && s < |k.sems|
    ensures var w, l := Run(k, steps), RunLog(k, logs, steps);
            && Inv(w) && LogsOk(w, l) && s < |w.sems| && l[s].init == logs[s].init
            && w.sems[s].value >= 0 && (w.sems[s].value > 0 ==> w.sems[s].waiters == [])
            && l[s].taken - l[s].ups <= l[s].init
            && l[s].served <= l[s].arrivals && logs[s].arrivals <= l[s].arrivals && logs[s].served <= l[s].served
    decreases |steps|
  {
    if steps == [] {
      assert SemOk(k, s) && LogOk(k.sems[s], logs[s]);
    } else {
      StepKeepsInv(k, steps[0]);
      LogStep(k, logs, steps[0]);
      RecordKeeps(k, logs, steps[0], s);
      hide Do, Inv, LogsOk, Record;
      SemaphoreSafety(Do(k, steps[0]), Record(k, logs, steps[0]), steps[1..], s);
    }
  }

  lemma RecordKeeps(k: Kernel, logs: seq<Log>, step: Step, s: nat)
    requires Inv(k) && Enabled(k, step) && LogsOk(k, logs) && s < |k.sems|
    ensures |Do(k, step).sems| == |k.sems| == |Record(k, logs, step)|
    ensures var l := Record(k, logs, step)[s];
            l.init == logs[s].init && logs[s].arrivals <= l.arrivals && logs[s].served <= l.served
  {
    LogStep(k, logs, step);
  }

  /**
    An up never loses its wake-up: the first waiter can run, and is running or in the run queue, even before its own
    schedule().
   */
  lemma UpIsNotLost(k: Kernel, s: nat)
    requires Inv(k) && s < |k.sems| && k.sems[s].waiters != []
    ensures var p, w := k.sems[s].waiters[0], Do(k, UpStep(s));
            && p in w.procs && w.procs[p].state == Runnable && w.procs[p].phase.Waiting?
            && w.procs[p].phase.flags == Handed
            && (p == w.current || p in w.queue)
  {
    HeadWaits(k, s);
    HandOver(k, s);
  }

  // A process in the run queue to which a semaphore was handed.
  predicate HandedAt(k: Kernel, j: nat) {
    && j < |k.queue| && k.queue[j] in k.procs
    && k.procs[k.queue[j]].phase.Waiting? && k.procs[k.queue[j]].phase.flags == Handed
  }

  // Nobody else touches its place in __down.
  lemma StepKeepsPhase(k: Kernel, step: Step, j: nat)
    requires Inv(k) && Enabled(k, step) && HandedAt(k, j)
    ensures k.queue[j] in Do(k, step).procs && Do(k, step).procs[k.queue[j]].phase == k.procs[k.queue[j]].phase
  {
    var p := k.queue[j];
    assert p in k.queue;
    assert ProcOk(k, p);
    if step.TimerStep? {
      TimerKeepsInv(k);
    } else if step.UpStep? && k.sems[step.s].waiters != [] {
      HeadWaits(k, step.s);
      HandOver(k, step.s);
    }
  }

  /**
    A process at position j of the run queue to which a semaphore was handed resumes in __down after
    exactly j + 1 calls of schedule(), whatever else happens, and down() succeeds.
   */
  lemma {:induction false} HandedReturns(k: Kernel, steps: seq<Step>, j: nat)
    requires Inv(k) && Possible(k, steps) && HandedAt(k, j)
    requires Schedules(steps) == j + 1 && steps[|steps| - 1].ScheduleStep?
    ensures var w := Run(k, steps);
            Inv(w) && w.current == k.queue[j] && Enabled(w, DownEndStep) && w.procs[w.current].phase.flags == Handed
    decreases |steps|
  {
    hide Do, Inv, Enabled;
    var step := steps[0];
    var d := Do(k, step);
    StepKeepsInv(k, step);
    QueueMoves(k, step);
    StepKeepsPhase(k, step, j);
    if |steps| == 1 {
      Resumes(d, k, j);
    } else {
      assert steps[1..][|steps| - 2] == steps[|steps| - 1];
      NoMoreSchedules(d, steps[1..]);
      HandedReturns(d, steps[1..], if step.ScheduleStep? then j - 1 else j);
    }
  }

  lemma Resumes(d: Kernel, k: Kernel, j: nat)
    requires Inv(d) && Inv(k) && HandedAt(k, j) && d.current == k.queue[j]
    requires k.queue[j] in d.procs && d.procs[k.queue[j]].phase == k.procs[k.queue[j]].phase
    ensures Enabled(d, DownEndStep)
  {
    assert k.queue[j] in k.queue;
    assert ProcOk(k, k.queue[j]) && ProcOk(d, k.queue[j]);
  }

  /**
    An up that lands between the waiter's enqueueing and its schedule(), while it is still current: after that
    schedule() it either is current again and returns from __down, or waits its turn at the end of the run queue.
   */
  lemma HandedBeforeSchedule(k: Kernel)
    requires Inv(k) && k.procs[k.current].phase.Waiting? && k.procs[k.current].phase.flags == Handed
    ensures var d := Do(k, ScheduleStep);
            || (d.current == k.current && Enabled(d, DownEndStep) && d.procs[d.current].phase.flags == Handed)
            || (d.queue != [] && d.queue[|d.queue| - 1] == k.current && HandedAt(d, |d.queue| - 1))
  {
    assert ProcOk(k, k.current);
    RequeueKeepsQueue(k);
    var r := Requeue(k);
    assert r.queue == k.queue + [k.current];
    DispatchFacts(r);
    hide Dispatch;
    DispatchQueue(r);
  }

  lemma DispatchQueue(r: Kernel)
    requires r.queue != [] && IDLE in r.procs && (forall p :: p in r.queue ==> p in r.procs) && r.procNum > 0
    ensures Dispatch(r).current == r.queue[0] && Dispatch(r).queue == r.queue[1..]
  {}
}
