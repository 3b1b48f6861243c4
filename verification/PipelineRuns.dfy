/**
  Whole runs of the pipeline: refinement under every pattern of bus waits and
  flushes, progress, and what goes wrong with register 0.
 */
module PipelineRuns {
  import opened MipsWord
  import opened MipsIsa
  import opened MipsSpec
  import opened Pipeline
  import opened PipelineProof

  function NextTrack(c: Cpu, t: Track, i: Input): Track {
    if !i.ready then t else if i.flush then Restarted(c, t, i) else Onward(c, t)
  }

  // The sequential run that the pipeline is in after the given clock edges.
  function TrackAfter(c: Cpu, t: Track, inputs: seq<Input>): Track {
    if inputs == [] then t
    else
      var before := inputs[..|inputs| - 1];
      NextTrack(RunCpu(c, before), TrackAfter(c, t, before), inputs[|inputs| - 1])
  }

  // Every instruction that any of the runs lets into the pipeline is clean.
  ghost predicate CleanRun(c: Cpu, t: Track, inputs: seq<Input>) {
    forall k :: 0 <= k <= |inputs| ==> CleanTrack(TrackAfter(c, t, inputs[..k]))
  }

  ghost predicate CleanTrack(t: Track) {
    Clean(t.start, AtId(t))
  }

  lemma CleanPrefix(c: Cpu, t: Track, inputs: seq<Input>)
    requires inputs != [] && CleanRun(c, t, inputs)
    ensures CleanRun(c, t, inputs[..|inputs| - 1]) && CleanTrack(TrackAfter(c, t, inputs[..|inputs| - 1]))
  {
    hide TrackAfter, CleanTrack;
    var before := inputs[..|inputs| - 1];
    forall k | 0 <= k <= |before| ensures CleanTrack(TrackAfter(c, t, before[..k])) {
      assert before[..k] == inputs[..k];
    }
  }

  /** After any clock edges, with any waits and any flushes, the pipeline is at its place in the sequential run. */
  lemma {:induction false} RunRefines(c: Cpu, t: Track, inputs: seq<Input>)
    requires Refines(c, t) && CleanRun(c, t, inputs)
    ensures Refines(RunCpu(c, inputs), TrackAfter(c, t, inputs))
  {
    hide Refines, CleanRun, Advance;
    if inputs != [] {
      var before, i := inputs[..|inputs| - 1], inputs[|inputs| - 1];
      CleanPrefix(c, t, inputs);
      RunRefines(c, t, before);
      if i.ready {
        if i.flush {
          FlushIsPrecise(RunCpu(c, before), TrackAfter(c, t, before), i);
        } else {
          StepRefines(RunCpu(c, before), TrackAfter(c, t, before), i);
        }
      }
    }
  }

  // The word at pc lies in the given addresses.
  predicate WordIn(code: set<int>, pc: Word) {
    var b := pc - pc % 4;
    b in code && b + 1 in code && b + 2 in code && b + 3 in code
  }

  // Instruction j is in the code, and its store, if any, is not.
  ghost predicate CodeKept(s: Isa, code: set<int>, j: nat) {
    WordIn(code, Run(s, j).pc) && forall a :: a in code ==> ByteAt(Run(s, j + 1).mem, a) == ByteAt(Run(s, j).mem, a)
  }

  // An instruction that aims at $0 produces 0.
  predicate ZeroWrites(s: Isa) {
    EffectOf(s).write && EffectOf(s).dest == 0 ==> EffectOf(s).data == 0
  }

  /** Programs that keep code and data apart, and aim only zeros at $0, are clean. */
  lemma CodeApartIsClean(s: Isa, code: set<int>, n: nat)
    requires forall j: nat :: j <= n + 2 ==> CodeKept(s, code, j)
    requires forall j: nat :: j <= n ==> ZeroWrites(Run(s, j))
    ensures Clean(s, n)
  {
    forall j: nat | j <= n ensures CleanAt(s, j) {
      assert CodeKept(s, code, j) && CodeKept(s, code, j + 1) && CodeKept(s, code, j + 2);
      KeptWords(s, code, j);
      assert ZeroWrites(Run(s, j));
    }
  }

  lemma KeptWords(s: Isa, code: set<int>, j: nat)
    requires CodeKept(s, code, j) && CodeKept(s, code, j + 1) && CodeKept(s, code, j + 2)
    ensures ReadBus(Run(s, j).mem, Run(s, j + 1).pc, true) == Fetch(Run(s, j + 1))
    ensures ReadBus(Run(s, j).mem, Run(s, j + 2).pc, true) == Fetch(Run(s, j + 2))
  {
    hide Run, ByteAt;
  }

  predicate NoFlush(inputs: seq<Input>) {
    forall k :: 0 <= k < |inputs| ==> !inputs[k].flush
  }

  function Edges(inputs: seq<Input>): nat {
    if inputs == [] then 0 else Edges(inputs[..|inputs| - 1]) + if inputs[|inputs| - 1].ready then 1 else 0
  }

  // Twice the instructions taken in, less what the front end still owes.
  function Advanced(c: Cpu, t: Track): int {
    2 * AtId(t) - (if RamAccess(c) then 1 else 0) - (if t.mode.Refetch? then 2 else if t.mode.Filler? then 1 else 0)
  }

  // After a pause the instruction in EX is a bubble, so no two edges in a row are lost.
  lemma EdgeAdvances(c: Cpu, t: Track, i: Input)
    requires Refines(c, t) && Clean(t.start, AtId(t)) && !i.flush
    ensures Advanced(Advance(c, i), Onward(c, t)) >= Advanced(c, t) + 1
  {
    OnwardIndices(c, t);
    StepRefines(c, t, i);
    hide WbOk, MemOk, Advance, Run, MemOut, ExOut, CleanAt, IssueOf;
  }

  /**
    Where the pipeline is after some edges without a flush: GPR, HI and LO are those of the sequential
    run after some number of instructions, the memory that of at most two more; the last edge retired
    at most one instruction, so no state of the run was skipped; and of m accepted edges at least
    (m - 9) / 2 have retired one.
   */
  ghost predicate Commits(c: Cpu, s: Isa, inputs: seq<Input>) {
    var c', t := RunCpu(c, inputs), TrackAfter(c, Restart(s), inputs);
    && t.start == s && t.retired <= AtEx(t) <= t.retired + 2
    && c'.gpr == Run(s, t.retired).gpr && c'.hi == Run(s, t.retired).hi && c'.lo == Run(s, t.retired).lo
    && c'.ram == Run(s, AtEx(t)).mem
    && 2 * t.retired >= Edges(inputs) - 9
    && (inputs != [] ==> 0 <= t.retired - TrackAfter(c, Restart(s), inputs[..|inputs| - 1]).retired <= 1)
  }

  /** Every clean run without flushes commits the states of the sequential machine in order. */
  lemma RunCommits(c: Cpu, s: Isa, inputs: seq<Input>)
    requires Refines(c, Restart(s)) && CleanRun(c, Restart(s), inputs) && NoFlush(inputs)
    ensures Commits(c, s, inputs)
  {
    hide MemOk, FrontOk, Run, Advance, RunCpu, IssueOf, MemOut, ExOut;
    var t := Restart(s);
    RunRefines(c, t, inputs);
    TrackGrows(c, t, inputs);
    assert Advanced(c, t) >= -3;
  }

  lemma {:induction false} StartStays(c: Cpu, t: Track, inputs: seq<Input>)
    requires NoFlush(inputs)
    ensures TrackAfter(c, t, inputs).start == t.start
    decreases |inputs|
  {
    hide RunCpu;
    if inputs != [] {
      StartStays(c, t, inputs[..|inputs| - 1]);
    }
  }

  /**
    For every program that keeps its code apart from its data and aims only zeros at $0, from every
    restarted state and under every pattern of bus waits, the pipeline commits what the sequential
    machine computes.
   */
  lemma ProgramCommits(c: Cpu, s: Isa, code: set<int>, inputs: seq<Input>)
    requires Refines(c, Restart(s)) && NoFlush(inputs)
    requires (forall j: nat :: CodeKept(s, code, j)) && (forall j: nat :: ZeroWrites(Run(s, j)))
    ensures Commits(c, s, inputs)
  {
    hide Commits, Refines, CodeKept, Run;
    forall k | 0 <= k <= |inputs| ensures CleanTrack(TrackAfter(c, Restart(s), inputs[..k])) {
      var t := TrackAfter(c, Restart(s), inputs[..k]);
      StartStays(c, Restart(s), inputs[..k]);
      CodeApartIsClean(s, code, AtId(t));
    }
    RunCommits(c, s, inputs);
  }

  /**
    The same in terms of the instruction set: after any edges the registers are those after some n instructions as
    their meaning says, the memory is that after at most two more, and of m accepted edges (m - 9) / 2 have counted.
   */
  lemma ProgramMeans(c: Cpu, s: Isa, code: set<int>, inputs: seq<Input>) returns (n: nat, m: nat)
    requires Refines(c, Restart(s)) && NoFlush(inputs)
    requires (forall j: nat :: CodeKept(s, code, j)) && (forall j: nat :: ZeroWrites(Run(s, j)))
    ensures n <= m <= n + 2 && 2 * n >= Edges(inputs) - 9
    ensures var c', t := RunCpu(c, inputs), Executed(s, n); c'.gpr == t.gpr && c'.hi == t.hi && c'.lo == t.lo
    ensures RunCpu(c, inputs).ram == Executed(s, m).mem
  {
    hide Refines, CodeKept, Run, Executed, RunCpu, TrackAfter, ZeroWrites;
    ProgramCommits(c, s, code, inputs);
    var t := TrackAfter(c, Restart(s), inputs);
    n, m := t.retired, AtEx(t);
    RunMeans(s, n);
    RunMeans(s, m);
  }

  lemma {:induction false} TrackGrows(c: Cpu, t: Track, inputs: seq<Input>)
    requires Refines(c, t) && CleanRun(c, t, inputs) && NoFlush(inputs)
    ensures TrackAfter(c, t, inputs).start == t.start
    ensures Advanced(RunCpu(c, inputs), TrackAfter(c, t, inputs)) >= Advanced(c, t) + Edges(inputs)
  {
    hide Refines, CleanRun, Advance, Advanced;
    if inputs != [] {
      var before, i := inputs[..|inputs| - 1], inputs[|inputs| - 1];
      CleanPrefix(c, t, inputs);
      TrackGrows(c, t, before);
      RunRefines(c, t, before);
      if i.ready {
        EdgeAdvances(RunCpu(c, before), TrackAfter(c, t, before), i);
      }
    }
  }

  // ---- register 0

  // The newest instruction in EX or MEM that names $0 as its target writes 0.
  predicate ZeroKept(c: Cpu) {
    var x, m := ExOut(c), MemOut(c);
    if x.write && x.dest == 0 then x.data == 0 else m.write && m.dest == 0 ==> m.data == 0
  }

  lemma Retires(s: Isa, k: nat, r: Reg)
    requires r != 0
    ensures var e := EffectOf(Run(s, k));
            ReadReg(Run(s, k + 1).gpr, r) == if e.write && e.dest == r then e.data else ReadReg(Run(s, k).gpr, r)
  {
    hide EffectOf, StoreOf, NextBranch;
    RunStep(s, k);
    StepGpr(Run(s, k));
  }

  lemma BehindEx(c: Cpu, t: Track, r: Reg)
    requires WbOk(c, t) && MemOk(c, t) && r != 0
    ensures (if MemOut(c).write && MemOut(c).dest == r then MemOut(c).data else RegData(c, r)) ==
              ReadReg(Run(t.start, AtEx(t)).gpr, r)
  {
    hide EffectOf, Execute, MemOut, ReadReg, Run;
    Retires(t.start, t.retired, r);
    Retires(t.start, AtMem(t), r);
  }

  lemma ForwardingSkipsZero(c: Cpu, t: Track, r: Reg)
    requires WbOk(c, t) && MemOk(c, t) && ExOk(c, t) && !RamAccess(c) && r != 0
    ensures Forwarded(c, r) == ReadReg(Run(t.start, AtId(t)).gpr, r)
  {
    hide EffectOf, Execute, MemOut, ExOut, ReadReg, Run, RegData, WbOk, MemOk, RamAccess;
    BehindEx(c, t, r);
    Retires(t.start, AtEx(t), r);
    if t.inEx {
      NoLoadInEx(c, Run(t.start, AtEx(t)));
    }
  }

  lemma NoLoadInEx(c: Cpu, s: Isa)
    requires c.ex == IssueOf(s) && !RamAccess(c)
    ensures ExOut(c) == EffectOf(s)
  {
    ExComputes(s, c);
    hide EffectOf, ExOut, IssueOf;
  }

  /** Forwarding is right for every register but $0, and for $0 exactly when ZeroKept holds. */
  lemma ForwardingIsExact(c: Cpu, t: Track, r: Reg)
    requires Refines(c, t) && !RamAccess(c)
    ensures Forwarded(c, r) == ReadReg(Run(t.start, AtId(t)).gpr, r) <==> r != 0 || ZeroKept(c)
  {
    hide WbOk, MemOk, ExOk, FrontOk, Run, MemOut, ExOut, RamAccess;
    if r != 0 {
      ForwardingSkipsZero(c, t, r);
    }
  }
}
