/**
  The pipeline refines the sequential machine.  Every stage register is tied to
  an index of the sequential run: the register file holds the state before the
  instruction in WB, the memory the state before the one in EX, and the front end
  the state after it.  A flush restarts the sequential run from the state before
  the instruction in MEM.
 */
module PipelineProof {
  import opened MipsWord
  import opened MipsIsa
  import opened Pipeline

  // Where the front end is after a flush: refetching, decoding the filler word, or running.
  datatype Mode = Refetch | Filler | Normal

  // The sequential run in progress, how many of its instructions have left WB, and which stages hold one.
  datatype Track = Track(start: Isa, retired: nat, inWb: bool, inMem: bool, inEx: bool, mode: Mode)

  function AtMem(t: Track): nat { if t.inWb then t.retired + 1 else t.retired }
  function AtEx(t: Track): nat { if t.inMem then AtMem(t) + 1 else AtMem(t) }
  function AtId(t: Track): nat { if t.inEx then AtEx(t) + 1 else AtEx(t) }

  // An instruction of the run writes $0 only with 0, and no store changes the words of the next two instructions.
  ghost predicate CleanAt(s: Isa, j: nat) {
    && (EffectOf(Run(s, j)).write && EffectOf(Run(s, j)).dest == 0 ==> EffectOf(Run(s, j)).data == 0)
    && ReadBus(Run(s, j).mem, Run(s, j + 1).pc, true) == Fetch(Run(s, j + 1))
    && ReadBus(Run(s, j).mem, Run(s, j + 2).pc, true) == Fetch(Run(s, j + 2))
  }

  // The first n + 1 instructions of the run.
  ghost predicate Clean(s: Isa, n: nat) {
    forall j: nat :: j <= n ==> CleanAt(s, j)
  }

  predicate Idle(e: Effect) {
    !e.writeHi && !e.writeLo && (e.write ==> e.dest == 0 && e.data == 0)
  }

  function IssueOf(s: Isa): IdEx {
    var w := Fetch(s);
    var g := Decode(w);
    IdEx(g.op, g.sel, Operand1(s, g), Operand2(s, g), g.write, g.dest, g.writeHi, g.writeLo,
         LinkOf(g, s.pc), s.delay, Imm16(w), s.pc)
  }

  ghost predicate WbOk(c: Cpu, t: Track) {
    var s := Run(t.start, t.retired);
    && c.gpr == s.gpr && c.hi == s.hi && c.lo == s.lo
    && if t.inWb then c.wb == EffectOf(s) else Idle(c.wb)
  }

  ghost predicate MemOk(c: Cpu, t: Track) {
    var s := Run(t.start, AtMem(t));
    && c.mem.pc == s.pc && c.mem.delay == s.delay
    && if t.inMem then MemOut(c) == EffectOf(s) else Idle(MemOut(c))
  }

  ghost predicate ExOk(c: Cpu, t: Track) {
    var s := Run(t.start, AtEx(t));
    && c.ex.pc == s.pc && c.ex.delay == s.delay && c.ram == s.mem
    && if t.inEx then c.ex == IssueOf(s) else !RamAccess(c) && Idle(ExOut(c))
  }

  ghost predicate FrontOk(c: Cpu, t: Track) {
    var s := Run(t.start, AtId(t));
    && c.id.pc == s.pc && c.id.delay == s.delay
    && (RamAccess(c) ==> !c.isLoadStore && !c.isFlush)
    && match t.mode
       case Normal =>
         && c.id.instr == Fetch(s) && c.pc == s.npc && !c.fix
         && InstructionResult(c) == Fetch(Run(t.start, AtId(t) + 1))
       case Filler =>
         && c.id.instr == 0 && c.pc == s.pc && !c.fix
         && InstructionResult(c) == Fetch(s) && AfterFlush(s) && !RamAccess(c)
       case Refetch =>
         && c.id.instr == 0 && c.pc == s.pc && c.fix
         && InstructionResult(c) == 0 && AfterFlush(s) && !RamAccess(c)
  }

  // A state from which a flush restarts.
  ghost predicate AfterFlush(s: Isa) {
    s.npc == Add(s.pc, 4) && !s.delay
  }

  ghost predicate Refines(c: Cpu, t: Track) {
    WbOk(c, t) && MemOk(c, t) && ExOk(c, t) && FrontOk(c, t)
  }

  // ---- one instruction

  lemma ReadAfterWrite(g: Registers, e: Effect, r: Reg)
    requires e.write && e.dest == 0 ==> e.data == 0
    ensures ReadReg(WriteReg(g, e.write, e.dest, e.data), r) == if e.write && e.dest == r then e.data else ReadReg(g, r)
  {}

  lemma Imm16Twice(w: Word)
    ensures 0 <= Imm16(w) < 0x1_0000 && Imm16(Imm16(w)) == Imm16(w)
  {}

  // The execute stage computes what the instruction does, except for a load's data.
  lemma ExComputes(s: Isa, c: Cpu)
    requires c.ex == IssueOf(s)
    ensures var e := EffectOf(s);
            && ExOut(c) == e.(data := ExOut(c).data) && (!IsLoad(c.ex.op) ==> ExOut(c) == e)
            && RamAccess(c) == (IsLoad(Decode(Fetch(s)).op) || IsStore(Decode(Fetch(s)).op))
  {
    hide Decode, BranchOf, AluResult, HiResult, LoResult, ReadBus;
  }

  lemma StepGpr(s: Isa)
    ensures var e := EffectOf(s); var n := Execute(s);
            && n.gpr == WriteReg(s.gpr, e.write, e.dest, e.data)
            && n.hi == (if e.writeHi then e.hi else s.hi) && n.lo == (if e.writeLo then e.lo else s.lo)
  {}

  lemma RunStep(s: Isa, n: nat)
    ensures Run(s, n + 1) == Execute(Run(s, n))
  {}

  // ---- forwarding

  lemma WbReads(c: Cpu, t: Track, r: Reg)
    requires WbOk(c, t) && Clean(t.start, AtId(t))
    ensures RegData(c, r) == ReadReg(Run(t.start, AtMem(t)).gpr, r)
    ensures HiOut(c) == Run(t.start, AtMem(t)).hi && LoOut(c) == Run(t.start, AtMem(t)).lo
  {
    hide EffectOf, StoreOf, NextBranch, Fetch;
    assert CleanAt(t.start, t.retired);
    var s := Run(t.start, t.retired);
    if t.inWb {
      RunStep(t.start, t.retired);
      StepGpr(s);
      ReadAfterWrite(s.gpr, c.wb, r);
    }
  }

  lemma MemReads(c: Cpu, t: Track, r: Reg)
    requires WbOk(c, t) && MemOk(c, t) && Clean(t.start, AtId(t))
    ensures var m := MemOut(c); var s := Run(t.start, AtEx(t));
            && (if m.write && m.dest == r then m.data else RegData(c, r)) == ReadReg(s.gpr, r)
            && (if m.writeHi then m.hi else HiOut(c)) == s.hi
            && (if m.writeLo then m.lo else LoOut(c)) == s.lo
  {
    hide EffectOf, StoreOf, NextBranch, Fetch, MemOut, Execute, Run, WbOk;
    WbReads(c, t, r);
    assert CleanAt(t.start, AtMem(t));
    if t.inMem {
      RunStep(t.start, AtMem(t));
      StepReads(Run(t.start, AtMem(t)), r);
    }
  }

  /** Without an access in EX, forwarding delivers the operand the sequential machine would read. */
  lemma ForwardingIsCorrect(c: Cpu, t: Track, r: Reg)
    requires WbOk(c, t) && MemOk(c, t) && ExOk(c, t) && Clean(t.start, AtId(t)) && !RamAccess(c)
    ensures var x := ExOut(c); var m := MemOut(c); var s := Run(t.start, AtId(t));
            && Forwarded(c, r) == ReadReg(s.gpr, r)
            && (if x.writeHi then x.hi else if m.writeHi then m.hi else HiOut(c)) == s.hi
            && (if x.writeLo then x.lo else if m.writeLo then m.lo else LoOut(c)) == s.lo
  {
    hide EffectOf, MemOut, ExOut, WbOk, MemOk, ExOk, RegData, Run;
    MemReads(c, t, r);
    if t.inEx {
      ExReads(c, t, r);
    } else {
      NothingInEx(c, t);
    }
  }

  // An instruction in EX passes on what it will write.
  lemma ExReads(c: Cpu, t: Track, r: Reg)
    requires ExOk(c, t) && Clean(t.start, AtId(t)) && !RamAccess(c) && t.inEx
    ensures var x := ExOut(c); var s, u := Run(t.start, AtEx(t)), Run(t.start, AtId(t));
            && ReadReg(u.gpr, r) == (if x.write && x.dest == r then x.data else ReadReg(s.gpr, r))
            && u.hi == (if x.writeHi then x.hi else s.hi) && u.lo == (if x.writeLo then x.lo else s.lo)
  {
    hide EffectOf, Execute, Run, Fetch, ReadBus, MemOut, ExOut, ReadReg, IssueOf, CleanAt;
    var s := Run(t.start, AtEx(t));
    OnlyZeros(t.start, AtEx(t));
    ExComputes(s, c);
    RunStep(t.start, AtEx(t));
    StepReads(s, r);
  }

  lemma OnlyZeros(s: Isa, j: nat)
    requires CleanAt(s, j)
    ensures var e := EffectOf(Run(s, j)); e.write && e.dest == 0 ==> e.data == 0
  {}

  // What reading a register, HI or LO gives after an instruction.
  lemma StepReads(s: Isa, r: Reg)
    requires EffectOf(s).write && EffectOf(s).dest == 0 ==> EffectOf(s).data == 0
    ensures var e := EffectOf(s); var n := Execute(s);
            && ReadReg(n.gpr, r) == (if e.write && e.dest == r then e.data else ReadReg(s.gpr, r))
            && n.hi == (if e.writeHi then e.hi else s.hi) && n.lo == (if e.writeLo then e.lo else s.lo)
  {
    hide EffectOf, Execute;
    StepGpr(s);
    ReadAfterWrite(s.gpr, EffectOf(s), r);
  }

  lemma NothingInEx(c: Cpu, t: Track)
    requires ExOk(c, t) && !t.inEx
    ensures AtEx(t) == AtId(t) && Idle(ExOut(c))
  {
    hide ExOut;
  }

  lemma OperandsAreCorrect(c: Cpu, t: Track)
    requires WbOk(c, t) && MemOk(c, t) && ExOk(c, t) && Clean(t.start, AtId(t)) && !RamAccess(c)
    ensures var g := Decode(c.id.instr); var s := Run(t.start, AtId(t));
            Register1(c) == Operand1(s, g) && Register2(c) == Operand2(s, g)
  {
    hide Decode, EffectOf, StoreOf, NextBranch, Fetch, MemOut, ExOut, WbOk, MemOk, ExOk;
    var g := Decode(c.id.instr);
    ForwardingIsCorrect(c, t, g.addr1);
    ForwardingIsCorrect(c, t, g.addr2);
  }

  // ---- one clock edge without a flush

  lemma PauseIsRamAccess(c: Cpu)
    ensures Pause(c) == RamAccess(c)
  {}

  function Onward(c: Cpu, t: Track): Track {
    Track(t.start, AtMem(t), t.inMem, t.inEx,
          t.mode.Normal? && !RamAccess(c),
          if t.mode.Refetch? then Filler else Normal)
  }

  lemma OnwardIndices(c: Cpu, t: Track)
    ensures var n := Onward(c, t);
            && AtMem(n) == AtEx(t) && AtEx(n) == AtId(t)
            && AtId(n) == if t.mode.Normal? && !RamAccess(c) then AtId(t) + 1 else AtId(t)
  {}

  lemma NextWb(c: Cpu, t: Track, i: Input)
    requires WbOk(c, t) && MemOk(c, t) && !i.flush
    ensures WbOk(Advance(c, i), Onward(c, t))
  {
    hide EffectOf, StoreOf, NextBranch, Fetch, MemOut, PcNext;
    hide IfIdNext, IdExNext, ExMemNext, BusNext, RamNext, RamAccess;
    RunStep(t.start, t.retired);
    StepGpr(Run(t.start, t.retired));
  }

  // The bus answers a load with the word the sequential machine loads.
  lemma LoadArrives(s: Isa, c: Cpu, i: Input)
    requires c.ex == IssueOf(s) && c.ram == s.mem && !i.flush
    ensures MemOut(Advance(c, i)) == EffectOf(s)
  {
    hide Decode, BranchOf, AluResult, HiResult, LoResult, ReadBus, PcNext;
    hide IfIdNext, IdExNext, RamNext, IdBranch, MemOut, Fetch, Pause;
    ExComputes(s, c);
    Imm16Twice(Fetch(s));
    var c' := Advance(c, i);
    assert c'.mem == ToMem(c) && c'.isLoadStore == RamAccess(c);
    assert RamAccess(c) ==> c'.readResult == ReadBus(c.ram, MemAddress(c.ex.r1, c.ex.instr), WordSized(c.ex.op));
    MemOutIs(c');
  }

  lemma MemOutIs(c: Cpu)
    ensures MemOut(c) == Effect(c.mem.write, c.mem.dest,
                                if !c.mem.ramRead then c.mem.data
                                else if c.mem.signExtend then SignExtend8(BusLoadResult(c) % 0x100)
                                else BusLoadResult(c),
                                c.mem.writeHi, c.mem.hi, c.mem.writeLo, c.mem.lo)
  {}

  lemma NextMem(c: Cpu, t: Track, i: Input)
    requires ExOk(c, t) && !i.flush
    ensures MemOk(Advance(c, i), Onward(c, t))
  {
    OnwardIndices(c, t);
    var s := Run(t.start, AtEx(t));
    if t.inEx {
      LoadArrives(s, c, i);
    } else {
      MemOutIs(Advance(c, i));
    }
  }

  lemma NextRam(c: Cpu, t: Track, i: Input)
    requires ExOk(c, t) && !i.flush
    ensures RamNext(c, i) == Run(t.start, AtId(t)).mem
    ensures !RamAccess(c) ==> Run(t.start, AtId(t)).mem == c.ram
  {
    hide Decode, BranchOf, AluResult, HiResult, LoResult, ReadBus, IdBranch, EffectOf, Fetch, WriteBus;
    if t.inEx {
      var s := Run(t.start, AtEx(t));
      RunStep(t.start, AtEx(t));
      Imm16Twice(Fetch(s));
    }
  }

  lemma FillerIsIdle(c: Cpu, t: Track)
    requires WbOk(c, t) && MemOk(c, t) && ExOk(c, t) && Clean(t.start, AtId(t)) && !RamAccess(c) && c.id.instr == 0
    ensures var x := Issue(c);
            && !IsLoad(x.op) && !IsStore(x.op) && !x.writeHi && !x.writeLo
            && x.dest == 0 && AluResult(x.op, x.sel, x.r1, x.r2, x.link) == 0
    ensures IdBranch(c) == NotTaken
  {
    hide WbOk, MemOk, ExOk, MemOut, ExOut, Run;
    ForwardingIsCorrect(c, t, 0);
  }

  lemma NextExRegister(c: Cpu, t: Track, i: Input)
    requires Refines(c, t) && Clean(t.start, AtId(t)) && !i.flush
    ensures var x := IdExNext(c, i); var s := Run(t.start, AtId(t));
            && x.pc == s.pc && x.delay == s.delay
            && (t.mode.Normal? && !RamAccess(c) ==> x == IssueOf(s))
            && (!(t.mode.Normal? && !RamAccess(c)) ==>
                  && !IsLoad(x.op) && !IsStore(x.op) && !x.writeHi && !x.writeLo
                  && (x.write ==> x.dest == 0 && AluResult(x.op, x.sel, x.r1, x.r2, x.link) == 0))
  {
    hide WbOk, MemOk, ExOk, Decode, BranchOf, ReadBus, Run, MemOut, ExOut, Fetch, Register1, Register2, IssueOf, LinkOf;
    PauseIsRamAccess(c);
    if !RamAccess(c) {
      if t.mode.Normal? {
        IssueIsCorrect(c, t);
      } else {
        FillerIsIdle(c, t);
      }
    }
  }

  lemma NextEx(c: Cpu, t: Track, i: Input)
    requires Refines(c, t) && Clean(t.start, AtId(t)) && !i.flush
    ensures ExOk(Advance(c, i), Onward(c, t))
  {
    NextExRegister(c, t, i);
    NextRam(c, t, i);
    OnwardIndices(c, t);
    hide Refines, Clean, PcNext, IfIdNext, IdExNext, ExMemNext, MemWbNext;
    hide BusNext, RamNext, Run, IssueOf, AluResult, HiResult, LoResult;
  }

  lemma IssueIsCorrect(c: Cpu, t: Track)
    requires Refines(c, t) && Clean(t.start, AtId(t)) && !RamAccess(c) && t.mode.Normal?
    ensures Issue(c) == IssueOf(Run(t.start, AtId(t)))
  {
    hide WbOk, MemOk, Decode, BranchOf, ReadBus, Run, MemOut, ExOut, Fetch, Register1, Register2;
    OperandsAreCorrect(c, t);
  }

  lemma BranchIsCorrect(c: Cpu, t: Track)
    requires Refines(c, t) && Clean(t.start, AtId(t)) && !RamAccess(c) && t.mode.Normal?
    ensures var s := Run(t.start, AtId(t)); var n := Run(t.start, AtId(t) + 1);
            && IdBranch(c) == NextBranch(s) && n.pc == s.npc && n.delay == NextBranch(s).Taken?
            && n.npc == if NextBranch(s).Taken? then NextBranch(s).target else Add(s.npc, 4)
  {
    hide Decode, BranchOf, ReadBus, EffectOf, StoreOf, MemOut, ExOut, Fetch;
    OperandsAreCorrect(c, t);
    RunStep(t.start, AtId(t));
  }

  // What the bus fetches at an edge without a data access.
  lemma FetchedWord(c: Cpu, t: Track, i: Input)
    requires ExOk(c, t) && !i.flush && !RamAccess(c)
    ensures BusNext(c, i) == ReadBus(Run(t.start, AtId(t)).mem, PcNext(c, i), true)
  {
    hide ReadBus, IdBranch, PCPlus4, Run;
    NextRam(c, t, i);
    PauseIsRamAccess(c);
  }

  lemma NextFrontPaused(c: Cpu, t: Track, i: Input)
    requires Refines(c, t) && !i.flush && RamAccess(c)
    ensures FrontOk(Advance(c, i), Onward(c, t))
  {
    hide WbOk, MemOk, Decode, BranchOf, ReadBus, ExMemNext, MemWbNext;
    hide BusNext, RamNext, Run, MemOut, Fetch, IdBranch, ExOut, Issue;
    OnwardIndices(c, t);
    PauseIsRamAccess(c);
  }

  lemma NextFrontNormal(c: Cpu, t: Track, i: Input)
    requires Refines(c, t) && Clean(t.start, AtId(t)) && !i.flush && !RamAccess(c) && t.mode.Normal?
    ensures FrontOk(Advance(c, i), Onward(c, t))
  {
    hide WbOk, MemOk, ExOk, Decode, BranchOf, ReadBus, ExMemNext, MemWbNext;
    hide RamNext, Run, MemOut, Fetch, IdBranch, NextBranch, ExOut, BusNext, IdExNext;
    var k := AtId(t);
    OnwardIndices(c, t);
    PauseIsRamAccess(c);
    BranchIsCorrect(c, t);
    FetchedWord(c, t, i);
    SecondNext(t.start, k);
    assert CleanAt(t.start, k);
  }

  // The instruction after next is where the branch decision of the current one says.
  lemma SecondNext(s: Isa, k: nat)
    ensures Run(s, k + 2).pc == Run(s, k + 1).npc
  {
    RunStep(s, k + 1);
  }

  lemma NextFrontAfterFlush(c: Cpu, t: Track, i: Input)
    requires Refines(c, t) && Clean(t.start, AtId(t)) && !i.flush && !t.mode.Normal?
    ensures FrontOk(Advance(c, i), Onward(c, t))
  {
    hide WbOk, MemOk, ExOk, Decode, BranchOf, ReadBus, ExMemNext, MemWbNext;
    hide RamNext, Run, MemOut, Fetch, IdBranch, NextBranch, ExOut, BusNext, Issue;
    var k := AtId(t);
    OnwardIndices(c, t);
    PauseIsRamAccess(c);
    FillerIsIdle(c, t);
    FetchedWord(c, t, i);
    FetchIs(Run(t.start, k));
    FollowingPc(t.start, k);
    assert CleanAt(t.start, k);
  }

  lemma FetchIs(s: Isa)
    ensures Fetch(s) == ReadBus(s.mem, s.pc, true)
  {}

  lemma FollowingPc(s: Isa, k: nat)
    ensures Run(s, k + 1).pc == Run(s, k).npc
  {
    RunStep(s, k);
  }

  lemma NextFront(c: Cpu, t: Track, i: Input)
    requires Refines(c, t) && Clean(t.start, AtId(t)) && !i.flush
    ensures FrontOk(Advance(c, i), Onward(c, t))
  {
    hide WbOk, MemOk, ExOk, FrontOk, Advance;
    if t.mode.Normal? {
      if RamAccess(c) {
        NextFrontPaused(c, t, i);
      } else {
        NextFrontNormal(c, t, i);
      }
    } else {
      NextFrontAfterFlush(c, t, i);
    }
  }

  /** A clock edge without a flush advances the sequential run by at most one instruction per stage. */
  lemma StepRefines(c: Cpu, t: Track, i: Input)
    requires Refines(c, t) && Clean(t.start, AtId(t)) && !i.flush
    ensures Refines(Advance(c, i), Onward(c, t))
  {
    NextWb(c, t, i);
    NextMem(c, t, i);
    NextEx(c, t, i);
    NextFront(c, t, i);
  }

  // ---- flush

  // The sequential state a flush restarts from: everything older than the instruction in MEM has happened.
  function RestartState(c: Cpu, t: Track, i: Input): Isa {
    var s := Run(t.start, AtMem(t));
    Isa(s.gpr, s.hi, s.lo, c.ram, i.target, Add(i.target, 4), false)
  }

  // The run that begins with an emptied pipeline.
  function Restart(s: Isa): Track {
    Track(s, 0, false, false, false, Refetch)
  }

  function Restarted(c: Cpu, t: Track, i: Input): Track {
    Restart(RestartState(c, t, i))
  }

  // control.v: the address saved in EPC
  function Epc(c: Cpu): Word {
    if c.mem.delay then Wrap(c.mem.pc - 4) else c.mem.pc
  }

  // A flush commits the instruction in WB and empties every stage.
  lemma FlushedState(c: Cpu, t: Track, i: Input)
    requires WbOk(c, t) && i.flush
    ensures var c' := Advance(c, i); var s := Run(t.start, AtMem(t));
            && c'.gpr == s.gpr && c'.hi == s.hi && c'.lo == s.lo && c'.ram == c.ram
            && c'.wb == NoEffect && c'.mem == EmptyMem(i.target) && c'.ex == Bubble(i.target, false)
            && c'.id == IfId(i.target, 0, false) && c'.pc == i.target && c'.fix && c'.isFlush && !c'.isLoadStore
  {
    hide EffectOf, StoreOf, NextBranch, Fetch, ReadBus, Decode, BranchOf, MemOut, ToMem, Issue, BusNext, IdBranch;
    RunStep(t.start, t.retired);
    StepGpr(Run(t.start, t.retired));
  }

  lemma EmptyIsIdle(c: Cpu, pc: Word)
    requires c.wb == NoEffect && c.mem == EmptyMem(pc) && c.ex == Bubble(pc, false)
    ensures Idle(c.wb) && Idle(MemOut(c)) && Idle(ExOut(c)) && !RamAccess(c)
  {}

  // An emptied pipeline represents the restarted run.
  lemma EmptyRefines(c: Cpu, s: Isa)
    requires c.gpr == s.gpr && c.hi == s.hi && c.lo == s.lo && c.ram == s.mem && AfterFlush(s)
    requires c.wb == NoEffect && c.mem == EmptyMem(s.pc) && c.ex == Bubble(s.pc, false)
    requires c.id == IfId(s.pc, 0, false) && c.pc == s.pc && c.fix && c.isFlush && !c.isLoadStore
    ensures Refines(c, Restart(s))
  {
    hide EffectOf, Execute, Fetch, Decode, BranchOf, MemOut, ExOut, RamAccess;
    EmptyIsIdle(c, s.pc);
    assert Run(s, 0) == s;
  }

  /** At a flush exactly the instructions older than the one in MEM have reached GPR, HI and LO. */
  lemma FlushIsPrecise(c: Cpu, t: Track, i: Input)
    requires Refines(c, t) && i.flush
    ensures Refines(Advance(c, i), Restarted(c, t, i))
    ensures var c' := Advance(c, i); var s := Run(t.start, AtMem(t));
            && c'.gpr == s.gpr && c'.hi == s.hi && c'.lo == s.lo && c'.ram == c.ram
            && Idle(c'.wb) && Idle(MemOut(c')) && Idle(ExOut(c')) && !RamAccess(c')
  {
    hide WbOk, MemOk, ExOk, FrontOk, Run, Advance, MemOut, ExOut;
    FlushedState(c, t, i);
    EmptyIsIdle(Advance(c, i), i.target);
    EmptyRefines(Advance(c, i), RestartState(c, t, i));
  }

  /**
    The address saved at a flush is that of the oldest instruction that has not reached the
    registers, also when MEM holds a stall or flush bubble, or that of the branch before it
    when it is in a delay slot.
   */
  lemma EpcIsOldest(c: Cpu, t: Track)
    requires Refines(c, t)
    ensures var k := AtMem(t); var s := Run(t.start, k);
            && (!s.delay ==> Epc(c) == s.pc)
            && (s.delay ==> Epc(c) == Wrap(s.pc - 4))
            && (s.delay && AfterFlush(t.start) && k > 0 && !Run(t.start, k - 1).delay ==>
                  Epc(c) == Run(t.start, k - 1).pc)
  {
    hide WbOk, ExOk, FrontOk, Run, MemOut, AfterFlush;
    var k := AtMem(t);
    if k > 0 && AfterFlush(t.start) {
      BranchBefore(t.start, k - 1);
    }
  }

  // The instruction in a delay slot follows its branch.
  lemma BranchBefore(s: Isa, k: nat)
    requires AfterFlush(s)
    ensures !Run(s, k).delay ==> Wrap(Run(s, k + 1).pc - 4) == Run(s, k).pc
  {
    hide Execute, AfterFlush;
    DelaySlotFollows(s, k);
    FollowingPc(s, k);
    BackFour(Run(s, k).pc);
  }

  lemma BackFour(pc: Word)
    ensures Wrap(Add(pc, 4) - 4) == pc
  {}

  // Outside delay slots the next instruction is the one four bytes on.
  lemma {:induction false} DelaySlotFollows(s: Isa, k: nat)
    requires AfterFlush(s)
    ensures !Run(s, k).delay ==> Run(s, k).npc == Add(Run(s, k).pc, 4)
  {
    hide EffectOf, StoreOf, Fetch, ReadBus, Decode, BranchOf;
    if k > 0 {
      RunStep(s, k - 1);
    }
  }
}
