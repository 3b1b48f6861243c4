/**
  The clocked registers of cpu/src as an object: each clock edge updates them in place.
 */
module PipelineClock {
  import opened MipsWord
  import opened MipsIsa
  import opened Pipeline
  import opened PipelineProof
  import opened PipelineRuns

  class Processor {
    // PCRegister.v
    var pc: Word
    var fix: bool
    // control.v
    var isLoadStore: bool
    var lastResult: Word
    var isFlush: bool
    // if_id.v, id_ex.v, ex_mem.v, mem_wb.v
    var id: IfId
    var ex: IdEx
    var mem: ExMem
    var wb: Effect
    // regfile.v, hilo_reg.v
    var gpr: Registers
    var hi: Word
    var lo: Word
    // the bus
    var ram: Memory
    var readResult: Word

    function State(): Cpu
      reads this
    {
      Cpu(pc, fix, isLoadStore, lastResult, isFlush, id, ex, mem, wb, gpr, hi, lo, ram, readResult)
    }

    // The registers as a flush to the given address leaves them.
    constructor (registers: Registers, high: Word, low: Word, memory: Memory, target: Word)
      ensures Refines(State(), Restart(Isa(registers, high, low, memory, target, Add(target, 4), false)))
    {
      pc, fix := target, true;
      isLoadStore, lastResult, isFlush := false, 0, true;
      id, ex, mem, wb := IfId(target, 0, false), Bubble(target, false), EmptyMem(target), NoEffect;
      gpr, hi, lo := registers, high, low;
      ram, readResult := memory, 0;
      new;
      EmptyRefines(State(), Isa(registers, high, low, memory, target, Add(target, 4), false));
    }

    // regfile.v and hilo_reg.v
    method WriteBack()
      modifies `gpr, `hi, `lo
      ensures gpr == WriteReg(old(gpr), wb.write, wb.dest, wb.data)
      ensures hi == (if wb.writeHi then wb.hi else old(hi)) && lo == if wb.writeLo then wb.lo else old(lo)
    {
      if wb.write && wb.dest != 0 {
        gpr := gpr[wb.dest := wb.data];
      }
      if wb.writeHi {
        hi := wb.hi;
      }
      if wb.writeLo {
        lo := wb.lo;
      }
    }

    // PCRegister.v and if_id.v: flush, hold, branch or go on
    method MoveFront(c: Cpu, i: Input)
      requires pc == c.pc && id == c.id
      modifies `pc, `id
      ensures pc == PcNext(c, i) && id == IfIdNext(c, i)
    {
      hide IdBranch, InstructionResult, RamAccess, PauseRequest;
      var branch := IdBranch(c);
      if i.flush {
        pc, id := i.target, IfId(i.target, 0, false);
      } else if !Pause(c) {
        id := IfId(pc, InstructionResult(c), branch.Taken?);
        if branch.Taken? {
          pc := branch.target;
        } else {
          pc := PCPlus4(c);
        }
      }
    }

    // id_ex.v, ex_mem.v and mem_wb.v: flush, bubble or advance
    method MoveBack(c: Cpu, i: Input)
      modifies `ex, `mem, `wb
      ensures ex == IdExNext(c, i) && mem == ExMemNext(c, i) && wb == MemWbNext(c, i)
    {
      hide Issue, MemOut, ToMem, RamAccess, PauseRequest;
      if i.flush {
        ex, mem, wb := Bubble(i.target, false), EmptyMem(i.target), NoEffect;
      } else {
        mem, wb := ToMem(c), MemOut(c);
        if Pause(c) {
          ex := Bubble(c.id.pc, c.id.delay);
        } else {
          ex := Issue(c);
        }
      }
    }

    // control.v's own registers: a flush first, then an access of EX, then a fetch
    method Latch(c: Cpu, i: Input)
      requires readResult == c.readResult
      modifies `lastResult, `isFlush, `fix, `isLoadStore
      ensures lastResult == c.readResult && isFlush == fix == i.flush && isLoadStore == (!i.flush && RamAccess(c))
    {
      hide RamAccess;
      lastResult := readResult;
      isFlush, fix := i.flush, i.flush;
      if i.flush {
        isLoadStore := false;
      } else {
        isLoadStore := RamAccess(c);
      }
    }

    // The bus takes the next request: the flush target, the access of EX, a branch target or the next instruction.
    method Request(c: Cpu, i: Input)
      requires ram == c.ram
      modifies `ram, `readResult
      ensures ram == RamNext(c, i) && readResult == BusNext(c, i)
    {
      hide IdBranch, ReadBus, WriteBus, WordSized, MemAddress;
      var op := c.ex.op;
      var branch := IdBranch(c);
      if i.flush {
        readResult := ReadBus(ram, i.target, true);
      } else if IsLoad(op) {
        readResult := ReadBus(ram, MemAddress(c.ex.r1, c.ex.instr), WordSized(op));
      } else if IsStore(op) {
        var address := MemAddress(c.ex.r1, c.ex.instr);
        readResult := ReadBus(ram, address, WordSized(op));
        ram := WriteBus(ram, address, WordSized(op), c.ex.r2);
      } else if branch.Taken? {
        readResult := ReadBus(ram, branch.target, true);
      } else {
        readResult := ReadBus(ram, PCPlus4(c), true);
      }
    }

    // One clock edge; nothing moves while the bus is not ready.
    method Tick(i: Input)
      modifies this
      ensures State() == Clock(old(State()), i)
    {
      hide RamNext, BusNext, PcNext, IfIdNext, IdExNext, ExMemNext, MemWbNext, RamAccess, WriteReg;
      if i.ready {
        var c := State();
        WriteBack();
        Latch(c, i);
        Request(c, i);
        MoveFront(c, i);
        MoveBack(c, i);
      }
    }

    // Any number of edges.
    method RunFor(inputs: seq<Input>, ghost t: Track)
      requires Refines(State(), t) && CleanRun(State(), t, inputs)
      modifies this
      ensures State() == RunCpu(old(State()), inputs)
      ensures Refines(State(), TrackAfter(old(State()), t, inputs))
    {
      hide Refines, Advance, CleanRun;
      RunRefines(State(), t, inputs);
      ghost var c := State();
      for k := 0 to |inputs|
        invariant State() == RunCpu(c, inputs[..k])
      {
        assert inputs[..k + 1][..k] == inputs[..k];
        Tick(inputs[k]);
      }
      assert inputs[..|inputs|] == inputs;
    }
  }
}
