/**
  The instruction set of the CPU: the decoder of cpu/src/id.v, the arithmetic of
  cpu/src/ex.v and cpu/src/mem.v, and a machine that executes one instruction at
  a time, with a delay slot after every branch.
 */
module MipsIsa {
  import opened Bits
  import opened MipsWord

  type Reg = r: int | 0 <= r < 32

  datatype AluOp =
    | NopOp | AndOp | OrOp | XorOp | NorOp | SllOp | SrlOp | SraOp
    | MfhiOp | MthiOp | MfloOp | MtloOp | SltOp | SltuOp | AdduOp | SubuOp | AddiuOp | MultOp
    | BranchOp | LbOp | LbuOp | LwOp | SbOp | SwOp

  datatype AluSel = NopSel | LogicSel | ShiftSel | MoveSel | ArithSel | JumpSel | LoadStoreSel

  // What the decoder derives from the instruction word alone.
  datatype Signals = Signals(
    op: AluOp, sel: AluSel,
    read1: bool, addr1: Reg, read2: bool, addr2: Reg, readHi: bool, readLo: bool, imm: Word,
    write: bool, dest: Reg, writeHi: bool, writeLo: bool, link: bool)

  function Opcode(w: Word): nat { w / 0x400_0000 }
  function Rs(w: Word): Reg { w / 0x20_0000 % 32 }
  function Rt(w: Word): Reg { w / 0x1_0000 % 32 }
  function Rd(w: Word): Reg { w / 0x800 % 32 }
  function Shamt(w: Word): Reg { w / 0x40 % 32 }
  function Funct(w: Word): nat { w % 64 }
  function Imm16(w: Word): nat { w % 0x1_0000 }

  // No register is written; operands default to the immediate 0.
  function NoSignals(w: Word): Signals {
    Signals(NopOp, NopSel, false, Rs(w), false, Rt(w), false, false, 0, false, Rd(w), false, false, false)
  }

  function ThreeRegister(w: Word, op: AluOp, sel: AluSel): Signals {
    NoSignals(w).(op := op, sel := sel, read1 := true, read2 := true, write := true)
  }

  function Immediate(w: Word, op: AluOp, sel: AluSel, imm: Word): Signals {
    NoSignals(w).(op := op, sel := sel, read1 := true, imm := imm, write := true, dest := Rt(w))
  }

  function ShiftByAmount(w: Word, op: AluOp): Signals {
    NoSignals(w).(op := op, sel := ShiftSel, read2 := true, imm := Shamt(w), write := true)
  }

  function DecodeSpecial(w: Word): Signals {
    match Funct(w)
    case 37 => ThreeRegister(w, OrOp, LogicSel)
    case 36 => ThreeRegister(w, AndOp, LogicSel)
    case 38 => ThreeRegister(w, XorOp, LogicSel)
    case 39 => ThreeRegister(w, NorOp, LogicSel)
    case 4 => ThreeRegister(w, SllOp, ShiftSel)
    case 6 => ThreeRegister(w, SrlOp, ShiftSel)
    case 7 => ThreeRegister(w, SraOp, ShiftSel)
    case 16 => NoSignals(w).(op := MfhiOp, sel := MoveSel, readHi := true, write := true)
    case 18 => NoSignals(w).(op := MfloOp, sel := MoveSel, readLo := true, write := true)
    case 17 => NoSignals(w).(op := MthiOp, read1 := true, writeHi := true)
    case 19 => NoSignals(w).(op := MtloOp, read1 := true, writeLo := true)
    case 42 => ThreeRegister(w, SltOp, ArithSel)
    case 43 => ThreeRegister(w, SltuOp, ArithSel)
    case 33 => ThreeRegister(w, AdduOp, ArithSel)
    case 35 => ThreeRegister(w, SubuOp, ArithSel)
    case 24 => NoSignals(w).(op := MultOp, read1 := true, read2 := true, writeHi := true, writeLo := true)
    case 8 => NoSignals(w).(op := BranchOp, sel := JumpSel, read1 := true)
    case 9 => NoSignals(w).(op := BranchOp, sel := JumpSel, read1 := true, write := true, link := true)
    case _ => NoSignals(w)
  }

  function DecodeOpcode(w: Word): Signals {
    match Opcode(w)
    case 0 => if Shamt(w) == 0 then DecodeSpecial(w) else NoSignals(w)
    case 13 => Immediate(w, OrOp, LogicSel, Imm16(w))
    case 12 => Immediate(w, AndOp, LogicSel, Imm16(w))
    case 14 => Immediate(w, XorOp, LogicSel, Imm16(w))
    case 15 => Immediate(w, OrOp, LogicSel, Imm16(w) * 0x1_0000)
    case 10 => Immediate(w, SltOp, ArithSel, SignExtend16(Imm16(w)))
    case 11 => Immediate(w, SltuOp, ArithSel, SignExtend16(Imm16(w)))
    case 9 => Immediate(w, AddiuOp, ArithSel, SignExtend16(Imm16(w)))
    case 2 => NoSignals(w).(op := BranchOp, sel := JumpSel)
    case 3 => NoSignals(w).(op := BranchOp, sel := JumpSel, write := true, dest := 31, link := true)
    case 4 => NoSignals(w).(op := BranchOp, sel := JumpSel, read1 := true, read2 := true)
    case 5 => NoSignals(w).(op := BranchOp, sel := JumpSel, read1 := true, read2 := true)
    case 7 => NoSignals(w).(op := BranchOp, sel := JumpSel, read1 := true)
    case 6 => NoSignals(w).(op := BranchOp, sel := JumpSel, read1 := true)
    case 1 =>
      if Rt(w) == 1 || Rt(w) == 0 then NoSignals(w).(op := BranchOp, sel := JumpSel, read1 := true) else NoSignals(w)
    case 32 => Immediate(w, LbOp, LoadStoreSel, 0)
    case 36 => Immediate(w, LbuOp, LoadStoreSel, 0)
    case 35 => Immediate(w, LwOp, LoadStoreSel, 0)
    case 40 => NoSignals(w).(op := SbOp, sel := LoadStoreSel, read1 := true, read2 := true)
    case 43 => NoSignals(w).(op := SwOp, sel := LoadStoreSel, read1 := true, read2 := true)
    case _ => NoSignals(w)
  }

  // The decoder; the shifts by an immediate amount come last, as in the source.
  function Decode(w: Word): Signals {
    if w / 0x20_0000 == 0 && Funct(w) == 0 then ShiftByAmount(w, SllOp)
    else if w / 0x20_0000 == 0 && Funct(w) == 2 then ShiftByAmount(w, SrlOp)
    else if w / 0x20_0000 == 0 && Funct(w) == 3 then ShiftByAmount(w, SraOp)
    else DecodeOpcode(w)
  }

  datatype Branch = NotTaken | Taken(target: Word)

  function RelativeTarget(pc: Word, w: Word): Word {
    Add(Add(pc, 4), Wrap(SignExtend16(Imm16(w)) * 4))
  }

  // BranchFlag and BranchTarget, from the instruction and its operands.
  function BranchOf(w: Word, pc: Word, r1: Word, r2: Word): Branch {
    match Opcode(w)
    case 0 => if Shamt(w) == 0 && (Funct(w) == 8 || Funct(w) == 9) then Taken(r1) else NotTaken
    case 2 => Taken(Wrap(Add(pc, 4) / 0x1000_0000 * 0x1000_0000 + w % 0x400_0000 * 4))
    case 3 => Taken(Wrap(Add(pc, 4) / 0x1000_0000 * 0x1000_0000 + w % 0x400_0000 * 4))
    case 4 => if r1 == r2 then Taken(RelativeTarget(pc, w)) else NotTaken
    case 5 => if r1 != r2 then Taken(RelativeTarget(pc, w)) else NotTaken
    case 7 => if !Bit31(r1) && r1 != 0 then Taken(RelativeTarget(pc, w)) else NotTaken
    case 6 => if Bit31(r1) || r1 == 0 then Taken(RelativeTarget(pc, w)) else NotTaken
    case 1 =>
      if Rt(w) == 1 then (if !Bit31(r1) then Taken(RelativeTarget(pc, w)) else NotTaken)
      else if Rt(w) == 0 then (if Bit31(r1) then Taken(RelativeTarget(pc, w)) else NotTaken)
      else NotTaken
    case _ => NotTaken
  }

  // ---- cpu/src/ex.v

  function SumResult(op: AluOp, r1: Word, r2: Word): Word {
    Add(r1, if op == SubuOp || op == SltOp then Neg(r2) else r2)
  }

  predicate SltResult(op: AluOp, r1: Word, r2: Word) {
    if op == SltOp then
      || (Bit31(r1) && !Bit31(r2))
      || (!Bit31(r1) && !Bit31(r2) && Bit31(SumResult(op, r1, r2)))
      || (Bit31(r1) && Bit31(r2) && Bit31(SumResult(op, r1, r2)))
    else r1 < r2
  }

  function ShiftLeft(a: Word, s: nat): Word
    requires s <= 32
  {
    Wrap(a * Pow2(s))
  }

  function ShiftRight(a: Word, s: nat): Word
    requires s <= 32
  {
    Wrap(a / Pow2(s))
  }

  // The sign bits that fall in from the left, ORed to the logical shift.
  function ShiftRightArithmetic(a: Word, s: nat): Word
    requires s < 32
  {
    Wrap(Or(ShiftLeft(if Bit31(a) then 0xFFFF_FFFF else 0, 32 - s), ShiftRight(a, s)))
  }

  function LogicResult(op: AluOp, r1: Word, r2: Word): Word {
    match op
    case OrOp => Wrap(Or(r1, r2))
    case AndOp => Wrap(And(r1, r2))
    case NorOp => 0xFFFF_FFFF - Wrap(Or(r1, r2))
    case XorOp => Wrap(Xor(r1, r2))
    case _ => 0
  }

  function AluResult(op: AluOp, sel: AluSel, r1: Word, r2: Word, link: Word): Word {
    match sel
    case LogicSel => LogicResult(op, r1, r2)
    case ShiftSel =>
      if op == SllOp then ShiftLeft(r2, r1 % 32)
      else if op == SrlOp then ShiftRight(r2, r1 % 32)
      else if op == SraOp then ShiftRightArithmetic(r2, r1 % 32)
      else 0
    case MoveSel => if op == MfhiOp || op == MfloOp then r1 else 0
    case ArithSel =>
      if op == SltOp || op == SltuOp then (if SltResult(op, r1, r2) then 1 else 0)
      else if op == AdduOp || op == AddiuOp || op == SubuOp then SumResult(op, r1, r2)
      else 0
    case JumpSel => link
    case _ => 0
  }

  // The 64-bit product of the magnitudes, negated if the signs differ.
  function Product(r1: Word, r2: Word): nat {
    var m1, m2 := if Bit31(r1) then Neg(r1) else r1, if Bit31(r2) then Neg(r2) else r2;
    if Bit31(r1) != Bit31(r2) then (0x1_0000_0000_0000_0000 - m1 * m2) % 0x1_0000_0000_0000_0000 else m1 * m2
  }

  function HiResult(op: AluOp, r1: Word, r2: Word): Word {
    if op == MultOp then Wrap(Product(r1, r2) / 0x1_0000_0000) else if op == MthiOp then r1 else 0
  }

  function LoResult(op: AluOp, r1: Word, r2: Word): Word {
    if op == MultOp then Wrap(Product(r1, r2)) else if op == MtloOp then r1 else 0
  }

  predicate IsLoad(op: AluOp) {
    op == LbOp || op == LbuOp || op == LwOp
  }

  predicate IsStore(op: AluOp) {
    op == SbOp || op == SwOp
  }

  predicate WordSized(op: AluOp) {
    op == LwOp || op == SwOp
  }

  // ---- memory, a byte at a time, little-endian

  type Memory = map<int, Byte>

  function ByteAt(m: Memory, a: int): Byte {
    if a in m then m[a] else 0
  }

  function ReadBus(m: Memory, a: Word, word: bool): Word {
    if word then
      var b := a - a % 4;
      ByteAt(m, b) + 0x100 * ByteAt(m, b + 1) + 0x1_0000 * ByteAt(m, b + 2) + 0x100_0000 * ByteAt(m, b + 3)
    else ByteAt(m, a)
  }

  function WriteBus(m: Memory, a: Word, word: bool, v: Word): Memory {
    if word then
      var b := a - a % 4;
      m[b := v % 0x100][b + 1 := v / 0x100 % 0x100][b + 2 := v / 0x1_0000 % 0x100][b + 3 := v / 0x100_0000]
    else m[a := v % 0x100]
  }

  // cpu/src/mem.v: the data a load delivers.
  function LoadResult(op: AluOp, bus: Word): Word {
    if op == LbOp then SignExtend8(bus % 0x100) else bus
  }

  // ---- the sequential machine

  type Registers = map<int, Word>

  function ReadReg(g: Registers, r: Reg): Word {
    if r == 0 || r !in g then 0 else g[r]
  }

  function WriteReg(g: Registers, write: bool, r: Reg, v: Word): Registers {
    if write && r != 0 then g[r := v] else g
  }

  // pc is the next instruction, npc the one after it; delay tells that pc is in the slot of a taken branch.
  datatype Isa = Isa(gpr: Registers, hi: Word, lo: Word, mem: Memory, pc: Word, npc: Word, delay: bool)

  function Fetch(s: Isa): Word {
    ReadBus(s.mem, s.pc, true)
  }

  function Operand1(s: Isa, g: Signals): Word {
    if g.readHi then s.hi else if g.readLo then s.lo else if g.read1 then ReadReg(s.gpr, g.addr1) else g.imm
  }

  function Operand2(s: Isa, g: Signals): Word {
    if g.read2 then ReadReg(s.gpr, g.addr2) else g.imm
  }

  function MemAddress(r1: Word, w: Word): Word {
    Add(r1, SignExtend16(Imm16(w)))
  }

  function LinkOf(g: Signals, pc: Word): Word {
    if g.link then Add(pc, 8) else 0
  }

  // What an instruction writes to the register file and to HI and LO.
  datatype Effect = Effect(write: bool, dest: Reg, data: Word, writeHi: bool, hi: Word, writeLo: bool, lo: Word)

  function EffectOf(s: Isa): Effect {
    var w := Fetch(s);
    var g := Decode(w);
    var r1, r2 := Operand1(s, g), Operand2(s, g);
    var data :=
      if IsLoad(g.op) then LoadResult(g.op, ReadBus(s.mem, MemAddress(r1, w), WordSized(g.op)))
      else AluResult(g.op, g.sel, r1, r2, LinkOf(g, s.pc));
    Effect(g.write, g.dest, data, g.writeHi, HiResult(g.op, r1, r2), g.writeLo, LoResult(g.op, r1, r2))
  }

  function StoreOf(s: Isa): Memory {
    var w := Fetch(s);
    var g := Decode(w);
    if IsStore(g.op) then WriteBus(s.mem, MemAddress(Operand1(s, g), w), WordSized(g.op), Operand2(s, g)) else s.mem
  }

  function NextBranch(s: Isa): Branch {
    var w := Fetch(s);
    var g := Decode(w);
    BranchOf(w, s.pc, Operand1(s, g), Operand2(s, g))
  }

  function Execute(s: Isa): Isa {
    var e := EffectOf(s);
    var b := NextBranch(s);
    Isa(WriteReg(s.gpr, e.write, e.dest, e.data),
        if e.writeHi then e.hi else s.hi,
        if e.writeLo then e.lo else s.lo,
        StoreOf(s),
        s.npc,
        if b.Taken? then b.target else Add(s.npc, 4),
        b.Taken?)
  }

  function Run(s: Isa, n: nat): Isa {
    if n == 0 then s else Execute(Run(s, n - 1))
  }
}
