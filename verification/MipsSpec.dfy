/**
  The instruction set as an assembly programmer sees it: instructions with their
  encodings, and what each does to registers, memory and the program counter.  The
  decoder of cpu/src/id.v and the arithmetic of cpu/src/ex.v carry out exactly this.
 */
module MipsSpec {
  import opened Bits
  import opened Options
  import opened MipsWord
  import opened MipsIsa
  import opened MipsArithmetic

  type Imm = i: int | 0 <= i < 0x1_0000
  type Index = i: int | 0 <= i < 0x400_0000

  datatype SpecialOp =
    | ADDU | SUBU | AND | OR | XOR | NOR | SLT | SLTU | SLLV | SRLV | SRAV
    | MFHI | MFLO | MTHI | MTLO | MULT | JR | JALR
  datatype ShiftOp = SLL | SRL | SRA
  datatype ImmOp = ADDIU | SLTI | SLTIU | ANDI | ORI | XORI | LUI
  datatype AccessOp = LB | LBU | LW | SB | SW
  datatype Test = BEQ | BNE | BLEZ | BGTZ

  datatype Instruction =
    | Special(op: SpecialOp, rs: Reg, rt: Reg, rd: Reg)
    | Shift(shift: ShiftOp, rt: Reg, rd: Reg, amount: Reg)
    | Immediately(imm: ImmOp, rs: Reg, rt: Reg, value: Imm)
    | Access(access: AccessOp, rs: Reg, rt: Reg, value: Imm)
    | Branch(test: Test, rs: Reg, rt: Reg, value: Imm)
    | BranchSign(negative: bool, rs: Reg, value: Imm)
    | Jump(link: bool, index: Index)

  // ---- the assembler

  function SpecialCode(op: SpecialOp): (c: nat)
    ensures c < 64
  {
    match op
    case ADDU => 0x21 case SUBU => 0x23 case AND => 0x24 case OR => 0x25 case XOR => 0x26 case NOR => 0x27
    case SLT => 0x2A case SLTU => 0x2B case SLLV => 0x04 case SRLV => 0x06 case SRAV => 0x07
    case MFHI => 0x10 case MTHI => 0x11 case MFLO => 0x12 case MTLO => 0x13 case MULT => 0x18
    case JR => 0x08 case JALR => 0x09
  }

  function ShiftCode(op: ShiftOp): (c: nat)
    ensures c < 64
  {
    match op
    case SLL => 0 case SRL => 2 case SRA => 3
  }

  function ImmCode(op: ImmOp): (c: nat)
    ensures c < 64
  {
    match op
    case ADDIU => 0x09 case SLTI => 0x0A case SLTIU => 0x0B case ANDI => 0x0C case ORI => 0x0D case XORI => 0x0E
    case LUI => 0x0F
  }

  function AccessCode(op: AccessOp): (c: nat)
    ensures c < 64
  {
    match op
    case LB => 0x20 case LW => 0x23 case LBU => 0x24 case SB => 0x28 case SW => 0x2B
  }

  function TestCode(t: Test): (c: nat)
    ensures c < 64
  {
    match t
    case BEQ => 4 case BNE => 5 case BLEZ => 6 case BGTZ => 7
  }

  // opcode, two registers and 16 bits
  function Pack(op: nat, rs: Reg, rt: Reg, low: Imm): Word
    requires op < 64
  {
    op * 0x400_0000 + rs * 0x20_0000 + rt * 0x1_0000 + low
  }

  // a register, a shift amount and a function code
  function PackLow(rd: Reg, amount: Reg, funct: nat): Imm
    requires funct < 64
  {
    rd * 0x800 + amount * 0x40 + funct
  }

  function Encode(i: Instruction): Word {
    match i
    case Special(op, rs, rt, rd) => Pack(0, rs, rt, PackLow(rd, 0, SpecialCode(op)))
    case Shift(op, rt, rd, amount) => Pack(0, 0, rt, PackLow(rd, amount, ShiftCode(op)))
    case Immediately(op, rs, rt, value) => Pack(ImmCode(op), rs, rt, value)
    case Access(op, rs, rt, value) => Pack(AccessCode(op), rs, rt, value)
    case Branch(test, rs, rt, value) => Pack(TestCode(test), rs, rt, value)
    case BranchSign(negative, rs, value) => Pack(1, rs, if negative then 0 else 1, value)
    case Jump(link, index) => (if link then 3 else 2) * 0x400_0000 + index
  }

  // ---- what instructions do

  function Value(s: Isa, r: Reg): Word {
    if r != 0 && r in s.gpr then s.gpr[r] else 0
  }

  function Offset(value: Imm): int {
    if value < 0x8000 then value else value - 0x1_0000
  }

  // On to the next instruction.
  function Onwards(s: Isa): Isa {
    s.(pc := s.npc, npc := Wrap(s.npc + 4), delay := false)
  }

  // On to the delay slot, and from there to the target.
  function Goto(s: Isa, target: Word): Isa {
    s.(pc := s.npc, npc := target, delay := true)
  }

  function Put(s: Isa, r: Reg, v: Word): Isa {
    if r == 0 then s else s.(gpr := s.gpr[r := v])
  }

  // What a register instruction computes, from its operands and HI and LO.
  function SpecialValue(s: Isa, op: SpecialOp, x: Word, y: Word): Word {
    match op
    case ADDU => Wrap(x + y)
    case SUBU => Wrap(x - y)
    case AND => Wrap(And(x, y))
    case OR => Wrap(Or(x, y))
    case XOR => Wrap(Xor(x, y))
    case NOR => 0xFFFF_FFFF - Wrap(Or(x, y))
    case SLT => if Signed(x) < Signed(y) then 1 else 0
    case SLTU => if x < y then 1 else 0
    case SLLV => ShiftMeaning(SLL, y, x % 32)
    case SRLV => ShiftMeaning(SRL, y, x % 32)
    case SRAV => ShiftMeaning(SRA, y, x % 32)
    case MFHI => s.hi
    case MFLO => s.lo
    case JALR => Wrap(s.pc + 8)
    case _ => 0
  }

  function SpecialMeaning(s: Isa, op: SpecialOp, x: Word, y: Word, rd: Reg): Isa {
    match op
    case MTHI => Onwards(s).(hi := x)
    case MTLO => Onwards(s).(lo := x)
    case MULT =>
      var product := Signed(x) * Signed(y);
      Onwards(s).(hi := Wrap(product / 0x1_0000_0000), lo := Wrap(product))
    case JR => Goto(s, x)
    case JALR => Put(Goto(s, x), rd, SpecialValue(s, op, x, y))
    case _ => Put(Onwards(s), rd, SpecialValue(s, op, x, y))
  }

  function ShiftMeaning(op: ShiftOp, y: Word, amount: Reg): Word {
    match op
    case SLL => Wrap(y * Pow2(amount))
    case SRL => Wrap(y / Pow2(amount))
    case SRA => Wrap(Signed(y) / Pow2(amount))
  }

  function ImmMeaning(op: ImmOp, x: Word, value: Imm): Word {
    match op
    case ADDIU => Wrap(x + Offset(value))
    case SLTI => if Signed(x) < Offset(value) then 1 else 0
    case SLTIU => if x < Wrap(Offset(value)) then 1 else 0
    case ANDI => Wrap(And(x, value))
    case ORI => Wrap(Or(x, value))
    case XORI => Wrap(Xor(x, value))
    case LUI => Wrap(Or(x, value * 0x1_0000))
  }

  function AccessMeaning(s: Isa, op: AccessOp, a: Word, rt: Reg): Isa {
    match op
    case LB => Put(Onwards(s), rt, Wrap(if ByteAt(s.mem, a) < 128 then ByteAt(s.mem, a) else ByteAt(s.mem, a) - 256))
    case LBU => Put(Onwards(s), rt, ByteAt(s.mem, a))
    case LW => Put(Onwards(s), rt, ReadBus(s.mem, a, true))
    case SB => Onwards(s).(mem := WriteBus(s.mem, a, false, Value(s, rt)))
    case SW => Onwards(s).(mem := WriteBus(s.mem, a, true, Value(s, rt)))
  }

  predicate Holds(test: Test, x: Word, y: Word) {
    match test
    case BEQ => x == y
    case BNE => x != y
    case BLEZ => Signed(x) <= 0
    case BGTZ => Signed(x) > 0
  }

  function BranchMeaning(s: Isa, taken: bool, value: Imm): Isa {
    if taken then Goto(s, Wrap(s.pc + 4 + 4 * Offset(value))) else Onwards(s)
  }

  function Meaning(s: Isa, i: Instruction): Isa {
    match i
    case Special(op, rs, rt, rd) => SpecialMeaning(s, op, Value(s, rs), Value(s, rt), rd)
    case Shift(op, rt, rd, amount) => Put(Onwards(s), rd, ShiftMeaning(op, Value(s, rt), amount))
    case Immediately(op, rs, rt, value) => Put(Onwards(s), rt, ImmMeaning(op, Value(s, rs), value))
    case Access(op, rs, rt, value) => AccessMeaning(s, op, Wrap(Value(s, rs) + Offset(value)), rt)
    case Branch(test, rs, rt, value) => BranchMeaning(s, Holds(test, Value(s, rs), Value(s, rt)), value)
    case BranchSign(negative, rs, value) => BranchMeaning(s, (Signed(Value(s, rs)) < 0) == negative, value)
    case Jump(link, index) =>
      var t := Goto(s, Wrap(Wrap(s.pc + 4) / 0x1000_0000 * 0x1000_0000 + 4 * index));
      if link then Put(t, 31, Wrap(s.pc + 8)) else t
  }

  // ---- fields

  lemma PackedFields(op: nat, rs: Reg, rt: Reg, low: Imm)
    requires op < 64
    ensures var w := Pack(op, rs, rt, low);
            Opcode(w) == op && Rs(w) == rs && Rt(w) == rt && Imm16(w) == low && w / 0x20_0000 == op * 32 + rs
  {
    Digits((op * 32 + rs) * 32 + rt, 0x1_0000, low);
    Digits(op * 32 + rs, 0x20_0000, rt * 0x1_0000 + low);
    Digits(op, 0x400_0000, rs * 0x20_0000 + rt * 0x1_0000 + low);
    Digits(op, 32, rs);
    Digits(op * 32 + rs, 32, rt);
  }

  lemma LowFields(h: nat, rd: Reg, amount: Reg, funct: nat)
    requires funct < 64
    ensures var w := h * 0x1_0000 + PackLow(rd, amount, funct);
            w / 0x800 % 32 == rd && w / 0x40 % 32 == amount && w % 64 == funct
  {
    var low := amount * 0x40 + funct;
    Digits(h * 32 + rd, 0x800, low);
    Digits((h * 32 + rd) * 32 + amount, 0x40, funct);
    Digits(h, 32, rd);
    Digits(h * 32 + rd, 32, amount);
  }

  lemma Digits(h: nat, d: nat, low: nat)
    requires low < d
    ensures (h * d + low) / d == h && (h * d + low) % d == low
  {
    var x := h * d + low;
    assert x == low + d * h && low / d == 0;
    DivShift(low, d, h);
    Remainder(x, d);
  }

  lemma Remainder(x: nat, d: nat)
    requires d > 0
    ensures x % d == x - x / d * d
  {}

  lemma SpecialFields(rs: Reg, rt: Reg, rd: Reg, amount: Reg, funct: nat)
    requires funct < 64
    ensures var w := Pack(0, rs, rt, PackLow(rd, amount, funct));
            && Opcode(w) == 0 && Rs(w) == rs && Rt(w) == rt && Rd(w) == rd && Shamt(w) == amount && Funct(w) == funct
            && w / 0x20_0000 == rs
  {
    hide PackLow;
    PackedFields(0, rs, rt, PackLow(rd, amount, funct));
    LowFields(rs * 32 + rt, rd, amount, funct);
    assert Pack(0, rs, rt, PackLow(rd, amount, funct)) == (rs * 32 + rt) * 0x1_0000 + PackLow(rd, amount, funct);
  }

  lemma JumpFields(op: nat, index: Index)
    requires op < 64
    ensures var w: Word := op * 0x400_0000 + index;
            Opcode(w) == op && w % 0x400_0000 == index && w / 0x20_0000 >= op * 32
  {}

  // ---- operands and results

  lemma Extended(value: Imm)
    ensures SignExtend16(value) == Wrap(Offset(value)) && Signed(SignExtend16(value)) == Offset(value)
  {}

  lemma AddExtended(x: Word, value: Imm)
    ensures MipsWord.Add(x, SignExtend16(value)) == Wrap(x + Offset(value))
  {}

  lemma WrapSum(a: int, b: int)
    ensures Wrap(Wrap(a) + b) == Wrap(a + b) && Wrap(a + Wrap(b)) == Wrap(a + b)
  {}

  lemma Target(pc: Word, w: Word)
    ensures RelativeTarget(pc, w) == Wrap(pc + 4 + 4 * Offset(Imm16(w)))
  {
    var v := Imm16(w);
    assert Wrap(SignExtend16(v) * 4) == Wrap(4 * Offset(v));
    hide SignExtend16, Offset;
    WrapSum(pc + 4, Wrap(4 * Offset(v)));
    WrapSum(pc + 4, 4 * Offset(v));
  }

  lemma Difference(x: Word, y: Word)
    ensures MipsWord.Add(x, Neg(y)) == Wrap(x - y)
  {
    var n := 0x1_0000_0000 - y;
    assert Neg(y) == if y == 0 then 0 else n;
    assert x + n == (x - y) + 0x1_0000_0000;
    hide Neg;
  }

  lemma Arithmetic(y: Word, amount: Reg)
    ensures ShiftRightArithmetic(y, amount) == Wrap(Signed(y) / Pow2(amount))
  {
    hide Pow2, ShiftRightArithmetic;
    SraIsFloorDivision(y, amount);
    var q, p := Signed(ShiftRightArithmetic(y, amount)), Pow2(amount);
    FloorUnique(Signed(y), p, q);
    SignedWrap(ShiftRightArithmetic(y, amount));
  }

  lemma FloorUnique(x: int, p: nat, q: int)
    requires p > 0 && q * p <= x < (q + 1) * p
    ensures x / p == q
  {
    var r := x - q * p;
    assert (q + 1) * p == q * p + p;
    DivShift(r, p, q);
  }

  lemma SignedWrap(w: Word)
    ensures Wrap(Signed(w)) == w
  {}

  lemma Multiplied(x: Word, y: Word)
    ensures HiResult(MultOp, x, y) == Wrap(Signed(x) * Signed(y) / 0x1_0000_0000)
    ensures LoResult(MultOp, x, y) == Wrap(Signed(x) * Signed(y))
  {
    hide Signed, Product;
    ProductValue(x, y);
    HalvesOf(Product(x, y), Signed(x) * Signed(y));
  }

  lemma HalvesOf(p: nat, v: int)
    requires p == if v < 0 then 0x1_0000_0000_0000_0000 + v else v
    ensures Wrap(p) == Wrap(v) && Wrap(p / 0x1_0000_0000) == Wrap(v / 0x1_0000_0000)
  {}

  // ---- execution

  // What the sequential machine does with an instruction word, its operands read.
  function Carried(s: Isa, w: Word, g: Signals, r1: Word, r2: Word): Isa {
    var data :=
      if IsLoad(g.op) then LoadResult(g.op, ReadBus(s.mem, MemAddress(r1, w), WordSized(g.op)))
      else AluResult(g.op, g.sel, r1, r2, LinkOf(g, s.pc));
    var b := BranchOf(w, s.pc, r1, r2);
    Isa(WriteReg(s.gpr, g.write, g.dest, data),
        if g.writeHi then HiResult(g.op, r1, r2) else s.hi,
        if g.writeLo then LoResult(g.op, r1, r2) else s.lo,
        if IsStore(g.op) then WriteBus(s.mem, MemAddress(r1, w), WordSized(g.op), r2) else s.mem,
        s.npc, if b.Taken? then b.target else MipsWord.Add(s.npc, 4), b.Taken?)
  }

  lemma Carry(s: Isa, w: Word, g: Signals)
    requires Fetch(s) == w && Decode(w) == g
    ensures Execute(s) == Carried(s, w, g, Operand1(s, g), Operand2(s, g))
  {
    hide Fetch, Decode, BranchOf, AluResult, HiResult, LoResult, ReadBus, WriteBus, Operand1, Operand2;
  }

  // What the unit computes, loads included.
  function Computed(s: Isa, w: Word, g: Signals, r1: Word, r2: Word): Word {
    if IsLoad(g.op) then LoadResult(g.op, ReadBus(s.mem, MemAddress(r1, w), WordSized(g.op)))
    else AluResult(g.op, g.sel, r1, r2, LinkOf(g, s.pc))
  }

  // An instruction that leaves HI, LO and memory alone.
  lemma CarryPlain(s: Isa, w: Word, g: Signals, r1: Word, r2: Word)
    requires Fetch(s) == w && Decode(w) == g && r1 == Operand1(s, g) && r2 == Operand2(s, g)
    requires !g.writeHi && !g.writeLo && !IsStore(g.op)
    ensures var b := BranchOf(w, s.pc, r1, r2);
            var t := if b.Taken? then Goto(s, b.target) else Onwards(s);
            Execute(s) == if g.write then Put(t, g.dest, Computed(s, w, g, r1, r2)) else t
  {
    hide Fetch, Decode, BranchOf, AluResult, HiResult, LoResult, ReadBus, WriteBus, Operand1, Operand2, Execute, Wrap;
    hide LoadResult, MemAddress, LinkOf, IsLoad;
    Carry(s, w, g);
    LinkWraps(s.npc);
  }

  // The signals of a register instruction.
  function SpecialSignals(op: SpecialOp, rs: Reg, rt: Reg, rd: Reg): Signals {
    var none := Signals(NopOp, NopSel, false, rs, false, rt, false, false, 0, false, rd, false, false, false);
    var three := none.(read1 := true, read2 := true, write := true);
    match op
    case ADDU => three.(op := AdduOp, sel := ArithSel)
    case SUBU => three.(op := SubuOp, sel := ArithSel)
    case AND => three.(op := AndOp, sel := LogicSel)
    case OR => three.(op := OrOp, sel := LogicSel)
    case XOR => three.(op := XorOp, sel := LogicSel)
    case NOR => three.(op := NorOp, sel := LogicSel)
    case SLT => three.(op := SltOp, sel := ArithSel)
    case SLTU => three.(op := SltuOp, sel := ArithSel)
    case SLLV => three.(op := SllOp, sel := ShiftSel)
    case SRLV => three.(op := SrlOp, sel := ShiftSel)
    case SRAV => three.(op := SraOp, sel := ShiftSel)
    case MFHI => none.(op := MfhiOp, sel := MoveSel, readHi := true, write := true)
    case MFLO => none.(op := MfloOp, sel := MoveSel, readLo := true, write := true)
    case MTHI => none.(op := MthiOp, read1 := true, writeHi := true)
    case MTLO => none.(op := MtloOp, read1 := true, writeLo := true)
    case MULT => none.(op := MultOp, read1 := true, read2 := true, writeHi := true, writeLo := true)
    case JR => none.(op := BranchOp, sel := JumpSel, read1 := true)
    case JALR => none.(op := BranchOp, sel := JumpSel, read1 := true, write := true, link := true)
  }

  lemma SpecialDecodes(w: Word, op: SpecialOp, rs: Reg, rt: Reg, rd: Reg)
    requires Opcode(w) == 0 && Rs(w) == rs && Rt(w) == rt && Rd(w) == rd && Shamt(w) == 0
    requires Funct(w) == SpecialCode(op)
    ensures Decode(w) == SpecialSignals(op, rs, rt, rd)
  {
    hide Opcode, Rs, Rt, Rd, Shamt, Funct;
  }

  lemma SpecialJumps(w: Word, op: SpecialOp, pc: Word, r1: Word, r2: Word)
    requires Opcode(w) == 0 && Shamt(w) == 0 && Funct(w) == SpecialCode(op)
    ensures BranchOf(w, pc, r1, r2) == if op == JR || op == JALR then Taken(r1) else NotTaken
  {
    hide Opcode, Rt, Shamt, Funct;
  }

  // The arithmetic unit, operation by operation.
  lemma Sums(x: Word, y: Word)
    ensures SumResult(AdduOp, x, y) == SumResult(AddiuOp, x, y) == Wrap(x + y)
    ensures SumResult(SubuOp, x, y) == Wrap(x - y)
  {
    Difference(x, y);
  }

  lemma Shifts(y: Word, amount: Reg)
    ensures ShiftLeft(y, amount) == ShiftMeaning(SLL, y, amount)
    ensures ShiftRight(y, amount) == ShiftMeaning(SRL, y, amount)
    ensures ShiftRightArithmetic(y, amount) == ShiftMeaning(SRA, y, amount)
  {
    Arithmetic(y, amount);
    hide Pow2, ShiftRightArithmetic;
  }

  // What the arithmetic unit computes for a register instruction, by the kind of result.
  lemma LogicData(s: Isa, op: SpecialOp, x: Word, y: Word, link: Word)
    requires op in {AND, OR, XOR, NOR}
    ensures AluResult(SpecialSignals(op, 0, 0, 0).op, LogicSel, x, y, link) == SpecialValue(s, op, x, y)
  {
    hide And, Or, Xor, Wrap;
  }

  lemma ArithData(s: Isa, op: SpecialOp, x: Word, y: Word, link: Word)
    requires op in {ADDU, SUBU, SLT, SLTU}
    ensures AluResult(SpecialSignals(op, 0, 0, 0).op, ArithSel, x, y, link) == SpecialValue(s, op, x, y)
  {
    hide Signed, SltResult, SumResult, Wrap;
    Sums(x, y);
    Unsigned(x, y);
    SltIsSignedLess(x, y, link);
  }

  lemma ShiftedData(s: Isa, op: SpecialOp, x: Word, y: Word, link: Word)
    requires op in {SLLV, SRLV, SRAV}
    ensures AluResult(SpecialSignals(op, 0, 0, 0).op, ShiftSel, x, y, link) == SpecialValue(s, op, x, y)
  {
    hide ShiftLeft, ShiftRight, ShiftRightArithmetic, ShiftMeaning, Wrap;
    Shifts(y, x % 32);
  }

  lemma SpecialData(s: Isa, op: SpecialOp, x: Word, y: Word, z: Word, g: Signals)
    requires g.op == SpecialSignals(op, 0, 0, 0).op && g.sel == SpecialSignals(op, 0, 0, 0).sel
    requires g.link == (op == JALR)
    requires op !in {MTHI, MTLO, MULT, JR} && (op in {MFHI, MFLO, JALR} || z == y)
    ensures var r1 := if op == MFHI then s.hi else if op == MFLO then s.lo else x;
            AluResult(g.op, g.sel, r1, z, LinkOf(g, s.pc)) == SpecialValue(s, op, x, y)
  {
    var link := LinkOf(g, s.pc);
    if op in {AND, OR, XOR, NOR} {
      hide AluResult, SpecialValue;
      LogicData(s, op, x, y, link);
    } else if op in {ADDU, SUBU, SLT, SLTU} {
      hide AluResult, SpecialValue;
      ArithData(s, op, x, y, link);
    } else if op in {SLLV, SRLV, SRAV} {
      hide AluResult, SpecialValue;
      ShiftedData(s, op, x, y, link);
    } else {
      hide And, Or, Xor, ShiftLeft, ShiftRight, ShiftRightArithmetic, ShiftMeaning, SltResult, SumResult, Wrap;
      LinkWraps(s.pc);
    }
  }

  lemma LinkWraps(pc: Word)
    ensures MipsWord.Add(pc, 8) == Wrap(pc + 8) && MipsWord.Add(pc, 4) == Wrap(pc + 4)
  {}

  lemma Unsigned(x: Word, y: Word)
    ensures SltResult(SltuOp, x, y) == (x < y)
  {}

  lemma DoSpecial(s: Isa, op: SpecialOp, rs: Reg, rt: Reg, rd: Reg)
    requires Fetch(s) == Encode(Special(op, rs, rt, rd))
    ensures Execute(s) == Meaning(s, Special(op, rs, rt, rd))
  {
    hide Fetch, Execute, Pack, PackLow, Decode, BranchOf, Carried, SpecialMeaning, Operand1, Operand2, SpecialSignals;
    var w := Fetch(s);
    SpecialFields(rs, rt, rd, 0, SpecialCode(op));
    SpecialDecodes(w, op, rs, rt, rd);
    var g := SpecialSignals(op, rs, rt, rd);
    Carry(s, w, g);
    SpecialJumps(w, op, s.pc, Operand1(s, g), Operand2(s, g));
    SpecialCarried(s, w, op, rs, rt, rd);
  }

  lemma SpecialCarried(s: Isa, w: Word, op: SpecialOp, rs: Reg, rt: Reg, rd: Reg)
    requires var g := SpecialSignals(op, rs, rt, rd);
             BranchOf(w, s.pc, Operand1(s, g), Operand2(s, g)) ==
               if op == JR || op == JALR then Taken(Operand1(s, g)) else NotTaken
    ensures var g := SpecialSignals(op, rs, rt, rd);
            Carried(s, w, g, Operand1(s, g), Operand2(s, g)) == SpecialMeaning(s, op, Value(s, rs), Value(s, rt), rd)
  {
    hide BranchOf, AluResult, HiResult, LoResult, SpecialValue, Signed, ReadBus, WriteBus, Wrap, SpecialSignals;
    hide Operand1, Operand2, Value, LoadResult, MemAddress, LinkOf;
    var g := SpecialSignals(op, rs, rt, rd);
    var x, y := Value(s, rs), Value(s, rt);
    SpecialOperands(s, op, rs, rt, rd);
    LinkWraps(s.npc);
    if op in {MTHI, MTLO, MULT, JR} {
      SpecialHiLo(op, x, y);
    } else {
      SpecialData(s, op, x, y, Operand2(s, g), g);
    }
  }

  lemma SpecialOperands(s: Isa, op: SpecialOp, rs: Reg, rt: Reg, rd: Reg)
    ensures var g := SpecialSignals(op, rs, rt, rd);
            && Operand1(s, g) == (if op == MFHI then s.hi else if op == MFLO then s.lo else Value(s, rs))
            && (g.read2 ==> Operand2(s, g) == Value(s, rt))
            && !IsLoad(g.op) && !IsStore(g.op) && g.dest == rd && g.write == (op !in {MTHI, MTLO, MULT, JR})
            && g.link == (op == JALR)
            && g.op == SpecialSignals(op, 0, 0, 0).op && g.sel == SpecialSignals(op, 0, 0, 0).sel
            && g.writeHi == (op in {MTHI, MULT}) && g.writeLo == (op in {MTLO, MULT})
            && (op == MTHI ==> g.op == MthiOp) && (op == MTLO ==> g.op == MtloOp) && (op == MULT ==> g.op == MultOp)
            && (!g.read2 ==> op in {MFHI, MFLO, MTHI, MTLO, JR, JALR})
  {}

  lemma SpecialHiLo(op: SpecialOp, x: Word, y: Word)
    ensures forall z: Word :: HiResult(MthiOp, x, z) == x && LoResult(MtloOp, x, z) == x
    ensures HiResult(MultOp, x, y) == Wrap(Signed(x) * Signed(y) / 0x1_0000_0000)
    ensures LoResult(MultOp, x, y) == Wrap(Signed(x) * Signed(y))
  {
    Multiplied(x, y);
  }

  function ShiftSignals(op: ShiftOp, rt: Reg, rd: Reg, amount: Reg): Signals {
    var g := Signals(SllOp, ShiftSel, false, 0, true, rt, false, false, amount, true, rd, false, false, false);
    match op
    case SLL => g
    case SRL => g.(op := SrlOp)
    case SRA => g.(op := SraOp)
  }

  lemma ShiftDecodes(w: Word, op: ShiftOp, rt: Reg, rd: Reg, amount: Reg)
    requires w / 0x20_0000 == 0 && Rs(w) == 0 && Rt(w) == rt && Rd(w) == rd && Shamt(w) == amount
    requires Funct(w) == ShiftCode(op)
    ensures Decode(w) == ShiftSignals(op, rt, rd, amount)
  {
    hide Opcode, Rs, Rt, Rd, Shamt, Funct;
  }

  lemma ShiftData(s: Isa, w: Word, op: ShiftOp, rt: Reg, rd: Reg, amount: Reg, y: Word)
    ensures Computed(s, w, ShiftSignals(op, rt, rd, amount), amount, y) == ShiftMeaning(op, y, amount)
  {
    hide ReadBus, ShiftMeaning, ShiftLeft, ShiftRight, ShiftRightArithmetic;
    Shifts(y, amount);
  }

  lemma DoShift(s: Isa, op: ShiftOp, rt: Reg, rd: Reg, amount: Reg)
    requires Fetch(s) == Encode(Shift(op, rt, rd, amount))
    ensures Execute(s) == Meaning(s, Shift(op, rt, rd, amount))
  {
    hide Fetch, Execute, Pack, PackLow, Opcode, Rs, Rt, Rd, Shamt, Funct, Computed, Decode, BranchOf, Wrap;
    hide ShiftMeaning;
    var w, g := Fetch(s), ShiftSignals(op, rt, rd, amount);
    SpecialFields(0, rt, rd, amount, ShiftCode(op));
    ShiftDecodes(w, op, rt, rd, amount);
    ShiftNoBranch(w, op, s.pc, amount, Value(s, rt));
    CarryPlain(s, w, g, amount, Value(s, rt));
    ShiftData(s, w, op, rt, rd, amount, Value(s, rt));
  }

  lemma ShiftNoBranch(w: Word, op: ShiftOp, pc: Word, r1: Word, r2: Word)
    requires Opcode(w) == 0 && Funct(w) == ShiftCode(op)
    ensures BranchOf(w, pc, r1, r2) == NotTaken
  {
    hide Opcode, Funct, Shamt, Rt;
  }

  // The signals of an instruction with an immediate operand.
  function ImmSignals(op: ImmOp, rs: Reg, rt: Reg, value: Imm): Signals {
    var g := Signals(NopOp, NopSel, true, rs, false, rt, false, false, 0, true, rt, false, false, false);
    match op
    case ADDIU => g.(op := AddiuOp, sel := ArithSel, imm := SignExtend16(value))
    case SLTI => g.(op := SltOp, sel := ArithSel, imm := SignExtend16(value))
    case SLTIU => g.(op := SltuOp, sel := ArithSel, imm := SignExtend16(value))
    case ANDI => g.(op := AndOp, sel := LogicSel, imm := value)
    case ORI => g.(op := OrOp, sel := LogicSel, imm := value)
    case XORI => g.(op := XorOp, sel := LogicSel, imm := value)
    case LUI => g.(op := OrOp, sel := LogicSel, imm := value * 0x1_0000)
  }

  lemma ImmDecodes(w: Word, op: ImmOp, rs: Reg, rt: Reg, value: Imm)
    requires Opcode(w) == ImmCode(op) && Rs(w) == rs && Rt(w) == rt && Imm16(w) == value && w / 0x20_0000 > 0
    ensures Decode(w) == ImmSignals(op, rs, rt, value)
    ensures forall pc: Word, a: Word, b: Word :: BranchOf(w, pc, a, b) == NotTaken
  {
    hide Opcode, Rs, Rt, Rd, Shamt, Funct, Imm16, SignExtend16;
  }

  lemma ImmData(s: Isa, w: Word, op: ImmOp, x: Word, value: Imm, g: Signals)
    requires g == ImmSignals(op, g.addr1, g.addr2, value)
    ensures Computed(s, w, g, x, g.imm) == ImmMeaning(op, x, value)
  {
    hide Signed, And, Or, Xor, SltResult, SumResult, Offset, SignExtend16, ReadBus, Wrap;
    var e := SignExtend16(value);
    Extended(value);
    Sums(x, e);
    WrapSum(x, Offset(value));
    Unsigned(x, e);
    SltIsSignedLess(x, e, 0);
  }

  lemma DoImm(s: Isa, op: ImmOp, rs: Reg, rt: Reg, value: Imm)
    requires Fetch(s) == Encode(Immediately(op, rs, rt, value))
    ensures Execute(s) == Meaning(s, Immediately(op, rs, rt, value))
  {
    hide Fetch, Execute, Pack, Opcode, Rs, Rt, Rd, Imm16, Computed, Decode, BranchOf, Wrap, ImmMeaning, SignExtend16;
    var w, g := Fetch(s), ImmSignals(op, rs, rt, value);
    PackedFields(ImmCode(op), rs, rt, value);
    ImmDecodes(w, op, rs, rt, value);
    CarryPlain(s, w, g, Value(s, rs), g.imm);
    ImmData(s, w, op, Value(s, rs), value, g);
  }

  // The signals of a load or a store.
  function AccessSignals(op: AccessOp, rs: Reg, rt: Reg, rd: Reg): Signals {
    var load := Signals(NopOp, LoadStoreSel, true, rs, false, rt, false, false, 0, true, rt, false, false, false);
    match op
    case LB => load.(op := LbOp)
    case LBU => load.(op := LbuOp)
    case LW => load.(op := LwOp)
    case SB => load.(op := SbOp, read2 := true, write := false, dest := rd)
    case SW => load.(op := SwOp, read2 := true, write := false, dest := rd)
  }

  lemma AccessDecodes(w: Word, op: AccessOp, rs: Reg, rt: Reg)
    requires Opcode(w) == AccessCode(op) && Rs(w) == rs && Rt(w) == rt && w / 0x20_0000 > 0
    ensures Decode(w) == AccessSignals(op, rs, rt, Rd(w))
    ensures forall pc: Word, a: Word, b: Word :: BranchOf(w, pc, a, b) == NotTaken
  {
    hide Opcode, Rs, Rt, Rd, Shamt, Funct, Imm16, SignExtend16;
  }

  lemma Loaded(m: Memory, a: Word)
    ensures LoadResult(LbuOp, ReadBus(m, a, false)) == ByteAt(m, a)
    ensures LoadResult(LbOp, ReadBus(m, a, false)) ==
              Wrap(if ByteAt(m, a) < 128 then ByteAt(m, a) else ByteAt(m, a) - 256)
    ensures LoadResult(LwOp, ReadBus(m, a, true)) == ReadBus(m, a, true)
  {}

  lemma DoAccess(s: Isa, op: AccessOp, rs: Reg, rt: Reg, value: Imm)
    requires Fetch(s) == Encode(Access(op, rs, rt, value))
    ensures Execute(s) == Meaning(s, Access(op, rs, rt, value))
  {
    hide Fetch, Execute, Pack, Opcode, Rs, Rt, Rd, Imm16, Computed, Decode, BranchOf, Wrap, ReadBus, WriteBus, ByteAt;
    hide LoadResult, MemAddress, Offset, Carried;
    var w, x := Fetch(s), Value(s, rs);
    PackedFields(AccessCode(op), rs, rt, value);
    AccessDecodes(w, op, rs, rt);
    var g := AccessSignals(op, rs, rt, Rd(w));
    Address(x, w, value);
    if op == SB || op == SW {
      Carry(s, w, g);
      Stored(s, w, op, rs, rt, Rd(w), x, Value(s, rt));
    } else {
      CarryPlain(s, w, g, x, 0);
      LoadedData(s, w, op, rs, rt, Rd(w), x);
    }
  }

  lemma Address(x: Word, w: Word, value: Imm)
    requires Imm16(w) == value
    ensures MemAddress(x, w) == Wrap(x + Offset(value))
  {
    AddExtended(x, value);
    hide SignExtend16, Offset, Imm16;
  }

  lemma LoadedData(s: Isa, w: Word, op: AccessOp, rs: Reg, rt: Reg, rd: Reg, x: Word)
    requires op != SB && op != SW
    ensures AccessMeaning(s, op, MemAddress(x, w), rt) ==
              Put(Onwards(s), rt, Computed(s, w, AccessSignals(op, rs, rt, rd), x, 0))
  {
    hide ReadBus, WriteBus, LoadResult, ByteAt, MemAddress, Wrap, Put, Onwards;
    Loaded(s.mem, MemAddress(x, w));
  }

  lemma Stored(s: Isa, w: Word, op: AccessOp, rs: Reg, rt: Reg, rd: Reg, x: Word, y: Word)
    requires (op == SB || op == SW) && y == Value(s, rt) && BranchOf(w, s.pc, x, y) == NotTaken
    ensures AccessMeaning(s, op, MemAddress(x, w), rt) == Carried(s, w, AccessSignals(op, rs, rt, rd), x, y)
  {
    hide ReadBus, WriteBus, LoadResult, ByteAt, MemAddress, Wrap, BranchOf, Value;
    LinkWraps(s.npc);
  }

  // The signals of a branch without a link.
  function BranchSignals(both: bool, rs: Reg, rt: Reg, rd: Reg): Signals {
    Signals(BranchOp, JumpSel, true, rs, both, rt, false, false, 0, false, rd, false, false, false)
  }

  lemma BranchDecodes(w: Word, test: Test, rs: Reg, rt: Reg)
    requires Opcode(w) == TestCode(test) && Rs(w) == rs && Rt(w) == rt && w / 0x20_0000 > 0
    ensures Decode(w) == BranchSignals(test == BEQ || test == BNE, rs, rt, Rd(w))
  {
    hide Opcode, Rs, Rt, Rd, Shamt, Funct, Imm16, SignExtend16;
  }

  lemma BranchDecides(w: Word, test: Test, pc: Word, x: Word, y: Word)
    requires Opcode(w) == TestCode(test)
    ensures BranchOf(w, pc, x, y) == if Holds(test, x, y) then Taken(RelativeTarget(pc, w)) else NotTaken
  {
    hide Opcode, Shamt, Funct, Rt, RelativeTarget;
  }

  lemma DoBranch(s: Isa, test: Test, rs: Reg, rt: Reg, value: Imm)
    requires Fetch(s) == Encode(Branch(test, rs, rt, value))
    ensures Execute(s) == Meaning(s, Branch(test, rs, rt, value))
  {
    hide Fetch, Execute, Pack, Opcode, Rs, Rt, Rd, Imm16, Computed, Decode, BranchOf, Wrap, RelativeTarget, Signed;
    hide Offset;
    var w := Fetch(s);
    PackedFields(TestCode(test), rs, rt, value);
    BranchDecodes(w, test, rs, rt);
    var g := BranchSignals(test == BEQ || test == BNE, rs, rt, Rd(w));
    BranchDecides(w, test, s.pc, Value(s, rs), Operand2(s, g));
    CarryPlain(s, w, g, Value(s, rs), Operand2(s, g));
    Target(s.pc, w);
  }

  lemma SignDecodes(w: Word, negative: bool, rs: Reg, rt: Reg)
    requires Opcode(w) == 1 && Rs(w) == rs && Rt(w) == rt == (if negative then 0 else 1) && w / 0x20_0000 > 0
    ensures Decode(w) == BranchSignals(false, rs, rt, Rd(w))
  {
    hide Opcode, Rs, Rt, Rd, Shamt, Funct, Imm16, SignExtend16;
  }

  lemma SignDecides(w: Word, negative: bool, pc: Word, x: Word, y: Word)
    requires Opcode(w) == 1 && Rt(w) == if negative then 0 else 1
    ensures BranchOf(w, pc, x, y) == if (Signed(x) < 0) == negative then Taken(RelativeTarget(pc, w)) else NotTaken
  {
    hide Opcode, Shamt, Funct, Rt, RelativeTarget;
  }

  lemma DoSign(s: Isa, negative: bool, rs: Reg, value: Imm)
    requires Fetch(s) == Encode(BranchSign(negative, rs, value))
    ensures Execute(s) == Meaning(s, BranchSign(negative, rs, value))
  {
    hide Fetch, Execute, Pack, Opcode, Rs, Rt, Rd, Imm16, Computed, Decode, BranchOf, Wrap, RelativeTarget, Signed;
    hide Offset;
    var w, rt := Fetch(s), if negative then 0 else 1;
    PackedFields(1, rs, rt, value);
    SignDecodes(w, negative, rs, rt);
    var g := BranchSignals(false, rs, rt, Rd(w));
    SignDecides(w, negative, s.pc, Value(s, rs), 0);
    CarryPlain(s, w, g, Value(s, rs), 0);
    Target(s.pc, w);
  }

  lemma JumpDecodes(w: Word, link: bool)
    requires Opcode(w) == (if link then 3 else 2) && w / 0x20_0000 > 0
    ensures Decode(w) == Signals(BranchOp, JumpSel, false, Rs(w), false, Rt(w), false, false, 0, link,
                                 if link then 31 else Rd(w), false, false, link)
  {
    hide Opcode, Rs, Rt, Rd, Shamt, Funct, Imm16, SignExtend16;
  }

  lemma JumpDecides(w: Word, link: bool, pc: Word, x: Word, y: Word)
    requires Opcode(w) == if link then 3 else 2
    ensures BranchOf(w, pc, x, y) == Taken(Wrap(Wrap(pc + 4) / 0x1000_0000 * 0x1000_0000 + 4 * (w % 0x400_0000)))
  {
    hide Opcode, Shamt, Funct, Rt;
  }

  lemma DoJump(s: Isa, link: bool, index: Index)
    requires Fetch(s) == Encode(Jump(link, index))
    ensures Execute(s) == Meaning(s, Jump(link, index))
  {
    hide Fetch, Execute, Opcode, Rs, Rt, Rd, Decode, BranchOf, Wrap, ReadBus;
    var w := Fetch(s);
    JumpFields(if link then 3 else 2, index);
    JumpDecodes(w, link);
    JumpDecides(w, link, s.pc, 0, 0);
    CarryPlain(s, w, Decode(w), 0, 0);
    LinkWraps(s.pc);
  }

  /** The machine does with every instruction what the instruction means. */
  lemma ExecuteMeans(s: Isa, i: Instruction)
    requires Fetch(s) == Encode(i)
    ensures Execute(s) == Meaning(s, i)
  {
    hide Fetch, Encode, Execute, Meaning;
    match i {
      case Special(op, rs, rt, rd) => DoSpecial(s, op, rs, rt, rd);
      case Shift(op, rt, rd, amount) => DoShift(s, op, rt, rd, amount);
      case Immediately(op, rs, rt, value) => DoImm(s, op, rs, rt, value);
      case Access(op, rs, rt, value) => DoAccess(s, op, rs, rt, value);
      case Branch(test, rs, rt, value) => DoBranch(s, test, rs, rt, value);
      case BranchSign(negative, rs, value) => DoSign(s, negative, rs, value);
      case Jump(link, index) => DoJump(s, link, index);
    }
  }

  // ---- the disassembler

  function SpecialOf(funct: nat): Option<SpecialOp> {
    match funct
    case 0x21 => Some(ADDU) case 0x23 => Some(SUBU) case 0x24 => Some(AND) case 0x25 => Some(OR)
    case 0x26 => Some(XOR) case 0x27 => Some(NOR) case 0x2A => Some(SLT) case 0x2B => Some(SLTU)
    case 0x04 => Some(SLLV) case 0x06 => Some(SRLV) case 0x07 => Some(SRAV)
    case 0x10 => Some(MFHI) case 0x11 => Some(MTHI) case 0x12 => Some(MFLO) case 0x13 => Some(MTLO)
    case 0x18 => Some(MULT) case 0x08 => Some(JR) case 0x09 => Some(JALR)
    case _ => None
  }

  function ShiftOf(funct: nat): Option<ShiftOp> {
    match funct
    case 0 => Some(SLL) case 2 => Some(SRL) case 3 => Some(SRA) case _ => None
  }

  function DisassembleSpecial(w: Word): Option<Instruction> {
    if ShiftOf(Funct(w)).Some? then
      if Rs(w) == 0 then Some(Shift(ShiftOf(Funct(w)).value, Rt(w), Rd(w), Shamt(w))) else None
    else if SpecialOf(Funct(w)).Some? && Shamt(w) == 0 then
      Some(Special(SpecialOf(Funct(w)).value, Rs(w), Rt(w), Rd(w)))
    else None
  }

  function Disassemble(w: Word): Option<Instruction> {
    match Opcode(w)
    case 0 => DisassembleSpecial(w)
    case 1 => if Rt(w) <= 1 then Some(BranchSign(Rt(w) == 0, Rs(w), Imm16(w))) else None
    case 2 => Some(Jump(false, w % 0x400_0000))
    case 3 => Some(Jump(true, w % 0x400_0000))
    case 4 => Some(Branch(BEQ, Rs(w), Rt(w), Imm16(w)))
    case 5 => Some(Branch(BNE, Rs(w), Rt(w), Imm16(w)))
    case 6 => Some(Branch(BLEZ, Rs(w), Rt(w), Imm16(w)))
    case 7 => Some(Branch(BGTZ, Rs(w), Rt(w), Imm16(w)))
    case 0x09 => Some(Immediately(ADDIU, Rs(w), Rt(w), Imm16(w)))
    case 0x0A => Some(Immediately(SLTI, Rs(w), Rt(w), Imm16(w)))
    case 0x0B => Some(Immediately(SLTIU, Rs(w), Rt(w), Imm16(w)))
    case 0x0C => Some(Immediately(ANDI, Rs(w), Rt(w), Imm16(w)))
    case 0x0D => Some(Immediately(ORI, Rs(w), Rt(w), Imm16(w)))
    case 0x0E => Some(Immediately(XORI, Rs(w), Rt(w), Imm16(w)))
    case 0x0F => Some(Immediately(LUI, Rs(w), Rt(w), Imm16(w)))
    case 0x20 => Some(Access(LB, Rs(w), Rt(w), Imm16(w)))
    case 0x23 => Some(Access(LW, Rs(w), Rt(w), Imm16(w)))
    case 0x24 => Some(Access(LBU, Rs(w), Rt(w), Imm16(w)))
    case 0x28 => Some(Access(SB, Rs(w), Rt(w), Imm16(w)))
    case 0x2B => Some(Access(SW, Rs(w), Rt(w), Imm16(w)))
    case _ => None
  }

  lemma Repacked(w: Word)
    ensures Opcode(w) < 64 && w == Pack(Opcode(w), Rs(w), Rt(w), Imm16(w))
    ensures w == Opcode(w) * 0x400_0000 + w % 0x400_0000
  {
    var top := w / 0x1_0000;
    assert w == top * 0x1_0000 + Imm16(w) && top / 32 == w / 0x20_0000 && top / 1024 == Opcode(w);
    assert top == top / 1024 * 1024 + top / 32 % 32 * 32 + top % 32;
  }

  lemma RepackedLow(w: Word)
    ensures Imm16(w) == PackLow(Rd(w), Shamt(w), Funct(w))
  {
    hide PackLow;
    var h, low := w / 0x1_0000, w % 0x1_0000;
    assert w == h * 0x1_0000 + low;
    Quotients(h, low);
  }

  lemma Quotients(h: nat, low: Imm)
    ensures var w := h * 0x1_0000 + low;
            && w / 0x800 % 32 == low / 0x800 && w / 0x40 % 32 == low / 0x40 % 32 && w % 64 == low % 64
            && low == PackLow(low / 0x800, low / 0x40 % 32, low % 64)
  {
    assert low / 0x40 / 32 == low / 0x800;
    LowFields(h, low / 0x800, low / 0x40 % 32, low % 64);
  }

  /** What the disassembler reads out of a word assembles to that word. */
  lemma Reassembles(w: Word)
    requires Disassemble(w).Some?
    ensures Encode(Disassemble(w).value) == w
  {
    hide Opcode, Rs, Rt, Rd, Shamt, Funct, Imm16, Pack, PackLow;
    Repacked(w);
    RepackedLow(w);
  }

  /** Every instruction is read back as it was assembled; in particular no two have the same word. */
  lemma RoundTrip(i: Instruction)
    ensures Disassemble(Encode(i)) == Some(i)
  {
    hide Opcode, Rs, Rt, Rd, Shamt, Funct, Imm16, Pack, PackLow;
    match i {
      case Special(op, rs, rt, rd) => SpecialFields(rs, rt, rd, 0, SpecialCode(op));
      case Shift(op, rt, rd, amount) => SpecialFields(0, rt, rd, amount, ShiftCode(op));
      case Immediately(op, rs, rt, value) => PackedFields(ImmCode(op), rs, rt, value);
      case Access(op, rs, rt, value) => PackedFields(AccessCode(op), rs, rt, value);
      case Branch(test, rs, rt, value) => PackedFields(TestCode(test), rs, rt, value);
      case BranchSign(negative, rs, value) => PackedFields(1, rs, if negative then 0 else 1, value);
      case Jump(link, index) => JumpFields(if link then 3 else 2, index);
    }
  }

  // The decoder knows no other words.
  lemma NoInstruction(w: Word, pc: Word, r1: Word, r2: Word)
    requires Disassemble(w).None?
    ensures Decode(w) == NoSignals(w) && BranchOf(w, pc, r1, r2) == NotTaken
  {
    TopBits(w);
    hide Opcode, Rs, Rt, Rd, Shamt, Funct, Imm16;
  }

  lemma TopBits(w: Word)
    ensures w / 0x20_0000 == 0 <==> Opcode(w) == 0 && Rs(w) == 0
  {}

  // ---- whole runs

  // One instruction; a word that is none is passed over.
  function Next(s: Isa): Isa {
    match Disassemble(Fetch(s))
    case Some(i) => Meaning(s, i)
    case None => Onwards(s)
  }

  function Executed(s: Isa, n: nat): Isa {
    if n == 0 then s else Next(Executed(s, n - 1))
  }

  /** The sequential machine, in whose terms the pipeline is judged, follows the meaning of the instructions. */
  lemma StepMeans(s: Isa)
    ensures Execute(s) == Next(s)
  {
    hide Execute, Encode, Disassemble, Meaning, Fetch;
    var w := Fetch(s);
    if Disassemble(w).Some? {
      Reassembles(w);
      ExecuteMeans(s, Disassemble(w).value);
    } else {
      var g := NoSignals(w);
      NoInstruction(w, s.pc, Operand1(s, g), Operand2(s, g));
      CarryPlain(s, w, g, Operand1(s, g), Operand2(s, g));
    }
  }

  lemma {:induction false} RunMeans(s: Isa, n: nat)
    ensures Run(s, n) == Executed(s, n)
  {
    hide Execute, Next;
    if n > 0 {
      RunMeans(s, n - 1);
      StepMeans(Run(s, n - 1));
    }
  }

  // ---- branches and their delay slots

  lemma TwoSteps(s: Isa)
    ensures Run(s, 1) == Execute(s) && Run(s, 2) == Execute(Run(s, 1))
  {
    hide Execute;
    assert Run(s, 0) == s;
  }

  // Where the machine is after a branch and its delay slot, whatever that holds.
  lemma Lands(s: Isa, i: Instruction)
    requires Fetch(s) == Encode(i) && s.npc == Wrap(s.pc + 4)
    ensures Run(s, 2).pc == Meaning(s, i).npc && Run(s, 1).pc == Wrap(s.pc + 4)
  {
    hide Fetch, Encode, Meaning, Run;
    ExecuteMeans(s, i);
    TwoSteps(s);
  }

  /**
    Taken branches go to the instruction after the branch plus the signed offset in words, the others fall through
    behind the delay slot; BEQ and BNE compare registers, the others the signed value with zero.
   */
  lemma BranchLands(s: Isa, test: Test, rs: Reg, rt: Reg, value: Imm)
    requires Fetch(s) == Encode(Branch(test, rs, rt, value)) && s.npc == Wrap(s.pc + 4)
    ensures var x, y := ReadReg(s.gpr, rs), ReadReg(s.gpr, rt);
            var taken := match test
                         case BEQ => x == y case BNE => x != y
                         case BLEZ => Signed(x) <= 0 case BGTZ => Signed(x) > 0;
            Run(s, 2).pc == Wrap(if taken then s.pc + 4 + 4 * Offset(value) else s.pc + 8)
  {
    hide Fetch, Encode, Run, Signed, Offset;
    Lands(s, Branch(test, rs, rt, value));
    WrapSum(s.pc + 4, 4);
  }

  lemma SignLands(s: Isa, negative: bool, rs: Reg, value: Imm)
    requires Fetch(s) == Encode(BranchSign(negative, rs, value)) && s.npc == Wrap(s.pc + 4)
    ensures var x := Signed(ReadReg(s.gpr, rs));
            Run(s, 2).pc ==
              Wrap(if (if negative then x < 0 else x >= 0) then s.pc + 4 + 4 * Offset(value) else s.pc + 8)
  {
    hide Fetch, Encode, Run, Signed, Offset;
    Lands(s, BranchSign(negative, rs, value));
    WrapSum(s.pc + 4, 4);
  }

  /** Jumps reach their target behind the delay slot; JAL and JALR leave the address behind it in their register. */
  lemma JumpLands(s: Isa, link: bool, index: Index)
    requires Fetch(s) == Encode(Jump(link, index)) && s.npc == Wrap(s.pc + 4)
    ensures Run(s, 2).pc == Wrap(s.pc + 4) / 0x1000_0000 * 0x1000_0000 + 4 * index
    ensures Run(s, 1).gpr == if link then s.gpr[31 := Wrap(s.pc + 8)] else s.gpr
  {
    hide Fetch, Encode, Run, Execute, Wrap;
    Lands(s, Jump(link, index));
    ExecuteMeans(s, Jump(link, index));
    TwoSteps(s);
    InSegment(Wrap(s.pc + 4));
  }

  lemma RegisterLands(s: Isa, op: SpecialOp, rs: Reg, rt: Reg, rd: Reg)
    requires op == JR || op == JALR
    requires Fetch(s) == Encode(Special(op, rs, rt, rd)) && s.npc == Wrap(s.pc + 4)
    ensures Run(s, 2).pc == ReadReg(s.gpr, rs)
    ensures Run(s, 1).gpr == if op == JALR && rd != 0 then s.gpr[rd := Wrap(s.pc + 8)] else s.gpr
  {
    hide Fetch, Encode, Run, Execute, Wrap;
    Lands(s, Special(op, rs, rt, rd));
    ExecuteMeans(s, Special(op, rs, rt, rd));
    TwoSteps(s);
  }

  lemma InSegment(pc: Word)
    ensures forall index: Index ::
              Wrap(pc / 0x1000_0000 * 0x1000_0000 + 4 * index) == pc / 0x1000_0000 * 0x1000_0000 + 4 * index
  {}

  // ---- memory

  // The bytes of memory after a store.
  lemma StoredByte(m: Memory, a: Word, word: bool, v: Word, x: int)
    ensures var b := if word then a - a % 4 else a;
            var n := if word then 4 else 1;
            ByteAt(WriteBus(m, a, word, v), x) ==
              if b <= x < b + n then (match x - b
                                      case 0 => v % 0x100 case 1 => v / 0x100 % 0x100
                                      case 2 => v / 0x1_0000 % 0x100 case _ => v / 0x100_0000)
              else ByteAt(m, x)
  {}

  /** A word or byte stored is what a load of the same address gives; loads elsewhere do not see it. */
  lemma LoadAfterStore(m: Memory, a: Word, word: bool, v: Word)
    ensures ReadBus(WriteBus(m, a, word, v), a, word) == if word then v else v % 0x100
    ensures forall x: Word, wide: bool :: Elsewhere(a, word, x, wide) ==>
              ReadBus(WriteBus(m, a, word, v), x, wide) == ReadBus(m, x, wide)
  {
    hide WriteBus;
    var n := WriteBus(m, a, word, v);
    forall x: int ensures ByteAt(n, x) == ByteAt(m, x) || FromStore(a, word, x) {
      StoredByte(m, a, word, v, x);
    }
    var b := a - a % 4;
    StoredByte(m, a, word, v, a);
    StoredByte(m, a, word, v, b);
    StoredByte(m, a, word, v, b + 1);
    StoredByte(m, a, word, v, b + 2);
    StoredByte(m, a, word, v, b + 3);
    hide ByteAt;
    Bytes(v);
    forall x: Word, wide: bool | Elsewhere(a, word, x, wide) ensures ReadBus(n, x, wide) == ReadBus(m, x, wide) {
      SameRead(m, n, a, word, x, wide);
    }
  }

  // The bytes that an access touches.
  predicate FromStore(a: Word, word: bool, x: int) {
    if word then a - a % 4 <= x < a - a % 4 + 4 else x == a
  }

  predicate Elsewhere(a: Word, word: bool, x: Word, wide: bool) {
    if word || wide then a / 4 != x / 4 else a != x
  }

  lemma SameRead(m: Memory, n: Memory, a: Word, word: bool, x: Word, wide: bool)
    requires Elsewhere(a, word, x, wide) && forall y: int :: ByteAt(n, y) == ByteAt(m, y) || FromStore(a, word, y)
    ensures ReadBus(n, x, wide) == ReadBus(m, x, wide)
  {
    hide ByteAt;
    Apart(a, word, x, wide, x);
    if wide {
      var b := x - x % 4;
      Apart(a, word, x, wide, b);
      Apart(a, word, x, wide, b + 1);
      Apart(a, word, x, wide, b + 2);
      Apart(a, word, x, wide, b + 3);
    }
  }

  lemma Apart(a: Word, word: bool, x: Word, wide: bool, y: int)
    requires Elsewhere(a, word, x, wide) && FromStore(x, wide, y)
    ensures !FromStore(a, word, y)
  {}

  lemma Bytes(v: Word)
    ensures v % 0x100 + 0x100 * (v / 0x100 % 0x100) + 0x1_0000 * (v / 0x1_0000 % 0x100) + 0x100_0000 * (v / 0x100_0000)
         == v
  {}

  lemma BytePowers()
    ensures Pow2(0) == 1 && Pow2(8) == 0x100 && Pow2(16) == 0x1_0000 && Pow2(24) == 0x100_0000
  {
    assert Pow2(8) == 0x100;
    Pow2Add(8, 8);
    Pow2Add(16, 8);
  }

  /** A word stored lies in memory with its low byte first. */
  lemma LittleEndian(m: Memory, a: Word, v: Word, k: nat)
    requires k < 4 && a % 4 == 0
    ensures ReadBus(WriteBus(m, a, true, v), a + k, false) == v / Pow2(8 * k) % 0x100
  {
    hide Pow2, WriteBus, ByteAt;
    StoredByte(m, a, true, v, a + k);
    BytePowers();
    if k == 3 {
      assert v / 0x100_0000 < 0x100;
    }
  }

  /** SW and then LW with the same base and offset give the value back. */
  lemma StoreThenLoad(s: Isa, rs: Reg, rt: Reg, value: Imm, rd: Reg)
    requires Fetch(s) == Encode(Access(SW, rs, rt, value))
    requires Fetch(Run(s, 1)) == Encode(Access(LW, rs, rd, value)) && rd != 0
    ensures ReadReg(Run(s, 2).gpr, rd) == ReadReg(s.gpr, rt)
  {
    hide Fetch, Encode, ReadBus, WriteBus, Run, Execute, Wrap, Offset;
    TwoSteps(s);
    ExecuteMeans(s, Access(SW, rs, rt, value));
    ExecuteMeans(Run(s, 1), Access(LW, rs, rd, value));
    LoadAfterStore(s.mem, Wrap(Value(s, rs) + Offset(value)), true, Value(s, rt));
  }
}
