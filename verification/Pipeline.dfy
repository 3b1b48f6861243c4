/**
  The five-stage pipeline of cpu/src: the stage registers, the forwarding of
  id.v, the pause and result steering of control.v, and a bus that answers a
  request one accepted clock edge later.  A flush, whatever causes it, is an input.
 */
module Pipeline {
  import opened MipsWord
  import opened MipsIsa

  // if_id.v
  datatype IfId = IfId(pc: Word, instr: Word, delay: bool)

  // id_ex.v
  datatype IdEx = IdEx(op: AluOp, sel: AluSel, r1: Word, r2: Word, write: bool, dest: Reg, writeHi: bool, writeLo: bool,
                       link: Word, delay: bool, instr: Word, pc: Word)

  // ex_mem.v
  datatype ExMem = ExMem(write: bool, dest: Reg, data: Word, writeHi: bool, hi: Word, writeLo: bool, lo: Word,
                         ramRead: bool, signExtend: bool, delay: bool, pc: Word)

  // All clocked state: PCRegister, control, the stage registers, regfile, hilo_reg, and the bus behind them.
  datatype Cpu = Cpu(
    pc: Word, fix: bool,
    isLoadStore: bool, lastResult: Word, isFlush: bool,
    id: IfId, ex: IdEx, mem: ExMem, wb: Effect,
    gpr: Registers, hi: Word, lo: Word,
    ram: Memory, readResult: Word)

  // One clock edge: whether the bus is ready, and whether control flushes, to which address.
  datatype Input = Input(ready: bool, flush: bool, target: Word)

  // ---- combinational signals

  function PCPlus4(c: Cpu): Word {
    if c.fix then c.pc else Add(c.pc, 4)
  }

  function InstructionResult(c: Cpu): Word {
    if c.isLoadStore then c.lastResult else if c.isFlush then 0 else c.readResult
  }

  function BusLoadResult(c: Cpu): Word {
    if c.isLoadStore then c.readResult else 0
  }

  // mem.v
  function MemOut(c: Cpu): Effect {
    var data :=
      if c.mem.ramRead then (if c.mem.signExtend then SignExtend8(BusLoadResult(c) % 0x100) else BusLoadResult(c))
      else c.mem.data;
    Effect(c.mem.write, c.mem.dest, data, c.mem.writeHi, c.mem.hi, c.mem.writeLo, c.mem.lo)
  }

  // ex.v: what the execute stage would write, before any load result
  function ExOut(c: Cpu): Effect {
    Effect(c.ex.write, c.ex.dest, AluResult(c.ex.op, c.ex.sel, c.ex.r1, c.ex.r2, c.ex.link),
           c.ex.writeHi, HiResult(c.ex.op, c.ex.r1, c.ex.r2), c.ex.writeLo, LoResult(c.ex.op, c.ex.r1, c.ex.r2))
  }

  predicate RamAccess(c: Cpu) {
    IsLoad(c.ex.op) || IsStore(c.ex.op)
  }

  // regfile.v: a read sees the value being written in the same cycle
  function RegData(c: Cpu, r: Reg): Word {
    if r == 0 then 0
    else if r == c.wb.dest && c.wb.write then c.wb.data
    else ReadReg(c.gpr, r)
  }

  function HiOut(c: Cpu): Word {
    if c.wb.writeHi then c.wb.hi else c.hi
  }

  function LoOut(c: Cpu): Word {
    if c.wb.writeLo then c.wb.lo else c.lo
  }

  // id.v: forwarding from EX, then MEM, then the register file
  function Forwarded(c: Cpu, r: Reg): Word {
    if ExOut(c).write && ExOut(c).dest == r then ExOut(c).data
    else if MemOut(c).write && MemOut(c).dest == r then MemOut(c).data
    else RegData(c, r)
  }

  function Register1(c: Cpu): Word {
    var g := Decode(c.id.instr);
    if g.readHi then
      if ExOut(c).writeHi then ExOut(c).hi else if MemOut(c).writeHi then MemOut(c).hi else HiOut(c)
    else if g.readLo then
      if ExOut(c).writeLo then ExOut(c).lo else if MemOut(c).writeLo then MemOut(c).lo else LoOut(c)
    else if g.read1 then Forwarded(c, g.addr1)
    else g.imm
  }

  function Register2(c: Cpu): Word {
    var g := Decode(c.id.instr);
    if g.read2 then Forwarded(c, g.addr2) else g.imm
  }

  function IdBranch(c: Cpu): Branch {
    BranchOf(c.id.instr, c.id.pc, Register1(c), Register2(c))
  }

  // id.v asks for a pause when an operand's register is the target of the access in EX.
  predicate PauseRequest(c: Cpu) {
    var g := Decode(c.id.instr);
    RamAccess(c) && ((g.read1 && c.ex.dest == g.addr1) || (g.read2 && c.ex.dest == g.addr2))
  }

  predicate Pause(c: Cpu) {
    if RamAccess(c) then true else PauseRequest(c)
  }

  // ---- the bus: control.v gives data accesses priority over fetches, and a flush over both

  function Address(c: Cpu, i: Input): Word {
    if i.flush then i.target
    else if RamAccess(c) then MemAddress(c.ex.r1, c.ex.instr)
    else if IdBranch(c).Taken? then IdBranch(c).target
    else PCPlus4(c)
  }

  predicate WholeWord(c: Cpu, i: Input) {
    i.flush || !RamAccess(c) || WordSized(c.ex.op)
  }

  function RamNext(c: Cpu, i: Input): Memory {
    if !i.flush && IsStore(c.ex.op) then WriteBus(c.ram, Address(c, i), WordSized(c.ex.op), c.ex.r2) else c.ram
  }

  // ---- the clock edge

  function Bubble(pc: Word, delay: bool): IdEx {
    IdEx(NopOp, NopSel, 0, 0, false, 0, false, false, 0, delay, 0, pc)
  }

  function EmptyMem(pc: Word): ExMem {
    ExMem(false, 0, 0, false, 0, false, 0, false, false, false, pc)
  }

  const NoEffect: Effect := Effect(false, 0, 0, false, 0, false, 0)

  function Issue(c: Cpu): IdEx {
    var g := Decode(c.id.instr);
    IdEx(g.op, g.sel, Register1(c), Register2(c), g.write, g.dest, g.writeHi, g.writeLo,
         LinkOf(g, c.id.pc), c.id.delay, Imm16(c.id.instr), c.id.pc)
  }

  function ToMem(c: Cpu): ExMem {
    var e := ExOut(c);
    ExMem(e.write, e.dest, e.data, e.writeHi, e.hi, e.writeLo, e.lo,
          IsLoad(c.ex.op), c.ex.op == LbOp, c.ex.delay, c.ex.pc)
  }

  // PCRegister.v
  function PcNext(c: Cpu, i: Input): Word {
    if i.flush then i.target
    else if Pause(c) then c.pc
    else if IdBranch(c).Taken? then IdBranch(c).target
    else PCPlus4(c)
  }

  function IfIdNext(c: Cpu, i: Input): IfId {
    if i.flush then IfId(i.target, 0, false)
    else if Pause(c) then c.id
    else IfId(c.pc, InstructionResult(c), IdBranch(c).Taken?)
  }

  function IdExNext(c: Cpu, i: Input): IdEx {
    if i.flush then Bubble(i.target, false)
    else if Pause(c) then Bubble(c.id.pc, c.id.delay)
    else Issue(c)
  }

  function ExMemNext(c: Cpu, i: Input): ExMem {
    if i.flush then EmptyMem(i.target) else ToMem(c)
  }

  // mem_wb.v
  function MemWbNext(c: Cpu, i: Input): Effect {
    if i.flush then NoEffect else MemOut(c)
  }

  function BusNext(c: Cpu, i: Input): Word {
    ReadBus(c.ram, Address(c, i), WholeWord(c, i))
  }

  // The state after a clock edge on which the bus is ready.
  function Advance(c: Cpu, i: Input): Cpu {
    Cpu(PcNext(c, i), i.flush,
        !i.flush && RamAccess(c), c.readResult, i.flush,
        IfIdNext(c, i), IdExNext(c, i), ExMemNext(c, i), MemWbNext(c, i),
        WriteReg(c.gpr, c.wb.write, c.wb.dest, c.wb.data),
        if c.wb.writeHi then c.wb.hi else c.hi,
        if c.wb.writeLo then c.wb.lo else c.lo,
        RamNext(c, i), BusNext(c, i))
  }

  function Clock(c: Cpu, i: Input): Cpu {
    if i.ready then Advance(c, i) else c
  }

  function RunCpu(c: Cpu, inputs: seq<Input>): Cpu {
    if inputs == [] then c else Clock(RunCpu(c, inputs[..|inputs| - 1]), inputs[|inputs| - 1])
  }
}
