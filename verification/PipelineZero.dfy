/**
  A two-instruction program on which the pipeline and the sequential machine
  disagree, because forwarding does not exclude register 0.
 */
module PipelineZero {
  import opened MipsWord
  import opened MipsIsa
  import opened Pipeline
  import opened PipelineProof

  // addiu $0, $0, 1 and addu $1, $0, $0
  const ADDIU: Word := 0x2400_0001
  const ADDU: Word := 0x0821
  const PROGRAM: Memory := map[0 := 1, 1 := 0, 2 := 0, 3 := 0x24, 4 := 0x21, 5 := 8, 6 := 0, 7 := 0]
  const EDGE: Input := Input(true, false, 0)

  // The pipeline just after a flush to address 0.
  const FLUSHED: Cpu :=
    Cpu(0, true, false, 0, true, IfId(0, 0, false), Bubble(0, false), EmptyMem(0), NoEffect, map[], 0, 0, PROGRAM, 0)

  const START: Isa := Isa(map[], 0, 0, PROGRAM, 0, 4, false)

  lemma ProgramWords()
    ensures ReadBus(PROGRAM, 0, true) == ADDIU && ReadBus(PROGRAM, 4, true) == ADDU && ReadBus(PROGRAM, 8, true) == 0
  {}

  lemma Decodings()
    ensures Decode(0) == Signals(SllOp, ShiftSel, false, 0, true, 0, false, false, 0, true, 0, false, false, false)
    ensures Decode(ADDIU) ==
              Signals(AddiuOp, ArithSel, true, 0, false, 0, false, false, 1, true, 0, false, false, false)
    ensures Decode(ADDU) == Signals(AdduOp, ArithSel, true, 0, true, 0, false, false, 0, true, 1, false, false, false)
    ensures forall pc, a, b ::
              && BranchOf(0, pc, a, b) == NotTaken
              && BranchOf(ADDIU, pc, a, b) == NotTaken && BranchOf(ADDU, pc, a, b) == NotTaken
  {}

  const NOP: IdEx := IdEx(SllOp, ShiftSel, 0, 0, true, 0, false, false, 0, false, 0, 0)

  // The first four edges: refetch, filler, then the two instructions reach EX.
  lemma Fetching()
    ensures var c := Advance(Advance(FLUSHED, EDGE), EDGE);
            && c.pc == 4 && !c.fix && !c.isLoadStore && !c.isFlush && c.id == IfId(0, ADDIU, false)
            && c.ex == NOP && Idle(MemOut(c)) && c.wb == NoEffect && c.gpr == map[] && c.ram == PROGRAM
            && c.readResult == ADDU
  {
    ProgramWords();
    Decodings();
    hide Decode, BranchOf, ReadBus;
    var c := Advance(FLUSHED, EDGE);
    assert c.pc == 0 && !c.fix && !c.isLoadStore && !c.isFlush && c.id == IfId(0, 0, false);
    assert c.ex == NOP && c.wb == NoEffect && c.gpr == map[] && c.ram == PROGRAM && c.readResult == ADDIU;
    assert Idle(MemOut(c));
  }

  // The first instruction is in EX, about to produce a 1 for $0, and the second is being decoded.
  predicate Poised(d: Cpu) {
    && !d.isLoadStore && !d.isFlush && d.id == IfId(4, ADDU, false)
    && d.ex == IdEx(AddiuOp, ArithSel, 0, 1, true, 0, false, false, 0, false, 1, 0)
  }

  lemma Issuing(c: Cpu)
    requires c == Advance(Advance(FLUSHED, EDGE), EDGE)
    ensures Poised(Advance(c, EDGE))
  {
    Fetching();
    Decodings();
    hide Decode, BranchOf, ReadBus, Advance;
    assert Poised(Advance(c, EDGE)) by {
      IssueFirst(c);
    }
  }

  lemma IssueFirst(c: Cpu)
    requires !c.isLoadStore && !c.isFlush && c.id == IfId(0, ADDIU, false) && c.pc == 4 && c.readResult == ADDU
    requires c.ex == NOP && Idle(MemOut(c)) && c.wb == NoEffect && c.gpr == map[]
    ensures Poised(Advance(c, EDGE))
  {
    Decodings();
    hide Decode, BranchOf, ReadBus, MemOut;
  }

  // The second instruction reads the 1 that the first one aims at $0.
  lemma Forwarding(d: Cpu)
    requires Poised(d)
    ensures Leaking(Advance(d, EDGE))
  {
    Decodings();
    hide Decode, BranchOf, ReadBus, MemOut, PcNext, IfIdNext, ExMemNext, MemWbNext, RamNext, BusNext;
    assert ExOut(d).data == 1;
  }

  predicate Leaking(d: Cpu) {
    d.ex.op == AdduOp && d.ex.sel == ArithSel && d.ex.r1 == 1 && d.ex.r2 == 1 && d.ex.write && d.ex.dest == 1
  }

  // Two edges later the result is in WB, and the third writes it.
  lemma Committing(d: Cpu)
    requires Leaking(d)
    ensures ReadReg(Advance(Advance(Advance(d, EDGE), EDGE), EDGE).gpr, 1) == 2
  {
    hide Decode, BranchOf, ReadBus, IdExNext, PcNext, IfIdNext;
    var e := Advance(d, EDGE);
    assert e.mem.write && e.mem.dest == 1 && e.mem.data == 2 && !e.mem.ramRead;
    var f := Advance(e, EDGE);
    assert f.wb.write && f.wb.dest == 1 && f.wb.data == 2;
  }

  lemma OneMore(c: Cpu, inputs: seq<Input>)
    ensures RunCpu(c, inputs + [EDGE]) == Advance(RunCpu(c, inputs), EDGE)
  {
    hide Advance;
    assert (inputs + [EDGE])[..|inputs|] == inputs;
  }

  // n accepted edges
  function Edges(n: nat): seq<Input> {
    if n == 0 then [] else Edges(n - 1) + [EDGE]
  }

  lemma SevenEdges(c: Cpu)
    ensures RunCpu(c, Edges(2)) == Advance(Advance(c, EDGE), EDGE)
    ensures RunCpu(c, Edges(3)) == Advance(RunCpu(c, Edges(2)), EDGE)
    ensures RunCpu(c, Edges(4)) == Advance(RunCpu(c, Edges(3)), EDGE)
    ensures RunCpu(c, Edges(7)) == Advance(Advance(Advance(RunCpu(c, Edges(4)), EDGE), EDGE), EDGE)
  {
    hide Advance;
    OneMore(c, Edges(0));
    OneMore(c, Edges(1));
    OneMore(c, Edges(2));
    OneMore(c, Edges(3));
    OneMore(c, Edges(4));
    OneMore(c, Edges(5));
    OneMore(c, Edges(6));
  }

  lemma PipelineLeaves2(c: Cpu)
    requires c == FLUSHED
    ensures ReadReg(RunCpu(c, Edges(7)).gpr, 1) == 2
  {
    hide Advance, RunCpu, Edges, ReadReg, Poised, Leaking;
    SevenEdges(c);
    Issuing(RunCpu(c, Edges(2)));
    Forwarding(RunCpu(c, Edges(3)));
    Committing(RunCpu(c, Edges(4)));
  }

  lemma InStep(c: Cpu, s: Isa)
    requires c == FLUSHED && s == START
    ensures Refines(c, Restart(s))
  {
    hide Refines;
    EmptyRefines(c, s);
  }

  // The pipeline starts in step with the sequential machine, but $1 ends with 2 instead of 0.
  ghost predicate Diverges(c: Cpu, s: Isa) {
    && Refines(c, Restart(s))
    && ReadReg(Run(s, 2).gpr, 1) == 0
    && ReadReg(RunCpu(c, Edges(7)).gpr, 1) == 2
  }

  /** Two instructions on which the pipeline leaves its sequential run. */
  lemma ZeroLeaks(c: Cpu, s: Isa)
    requires c == FLUSHED && s == START
    ensures Diverges(c, s)
  {
    hide Refines, Run, RunCpu, ReadReg, Edges;
    InStep(c, s);
    SequentialZero(s);
    PipelineLeaves2(c);
  }

  lemma SequentialZero(s: Isa)
    requires s == START
    ensures ReadReg(Run(s, 2).gpr, 1) == 0
  {
    ProgramWords();
    Decodings();
    hide Decode, BranchOf, ReadBus;
    RunStep(s, 0);
    RunStep(s, 1);
    var n := Run(s, 1);
    assert n.gpr == map[] && n.mem == PROGRAM && n.pc == 4;
  }
}
