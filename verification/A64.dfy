/**
  A small A64 machine: just enough of the Arm architecture (sections C4.1 and
  C6.2 of ARM DDI 0487) to give meaning to a function prologue before and after
  it is moved. Words and addresses are integers; every field is read with a
  division and a remainder by a power of two.
 */
module A64 {

  const TWO32 := 0x1_0000_0000
  const TWO64 := 0x1_0000_0000_0000_0000

  type Word = w: int | 0 <= w < 0x1_0000_0000
  type U64 = a: int | 0 <= a < 0x1_0000_0000_0000_0000

  /** X0..X30. Register number 31 reads as zero and ignores writes. */
  type Regs = x: seq<U64> | |x| == 31 witness seq(31, i => 0)

  datatype Flags = Flags(n: bool, z: bool, c: bool, v: bool)

  /** Everything but the program counter. `rest` lists SP, the vector registers
      and the system registers, which no modelled instruction interprets. */
  datatype Core = Core(x: Regs, flags: Flags, mem: int -> Word, rest: seq<int>)

  /** Where control goes: the next word, an address, or an address with the
      link register set to the word after this one. */
  datatype Flow = Next | Jump(target: U64) | Call(target: U64)

  datatype Effect = Effect(core: Core, flow: Flow)

  /** The meaning of every instruction that is not decoded below. It sees the
      registers, flags and memory but not the program counter. */
  datatype Isa = Isa(exec: (Word, Core) -> Effect)

  type Reg = r: int | 0 <= r < 32
  type Imm16 = h: int | 0 <= h < 0x1_0000
  type Lane = n: int | 0 <= n < 4

  datatype Inst =
    | B(link: bool, offset: int)
    | BCond(cond: nat, offset: int)
    | CompareB(wide: bool, rt: Reg, onNonZero: bool, offset: int)
    | TestB(bitNo: nat, rt: Reg, onOne: bool, offset: int)
    | Adr(rd: Reg, offset: int)
    | Adrp(rd: Reg, pages: int)
    | LdrLiteral(wide: bool, rt: Reg, offset: int)
    | Movz(rd: Reg, imm16: Imm16, lane: Lane)
    | Movk(rd: Reg, imm16: Imm16, lane: Lane)
    | LdrX(rt: Reg, rn: Reg, scaled: nat)
    | Br(rn: Reg)
    | Blr(rn: Reg)
    | Other(raw: Word)

  /** Two's complement reading of an unsigned field of `size` values. */
  function Signed(field: int, size: int): (r: int) {
    if field < size / 2 then field else field - size
  }

  /** Bits 24..31, bits 5..23 and bits 0..4: all fields below lie within one or two of these. */
  function Top(w: Word): (b: int)
    ensures 0 <= b < 0x100
  {
    w / 0x100_0000
  }

  function Mid(w: Word): (m: int)
    ensures 0 <= m < 0x8_0000
  {
    w / 0x20 % 0x8_0000
  }

  function Low(w: Word): Reg { w % 0x20 }

  function Imm26(w: Word): int { Signed(w % 0x400_0000, 0x400_0000) * 4 }
  function Imm19(w: Word): int { Signed(Mid(w), 0x8_0000) * 4 }
  function Imm14(w: Word): int { Signed(Mid(w) % 0x4000, 0x4000) * 4 }
  function Imm21(w: Word): int { Signed(Top(w) / 0x20 % 4 + 4 * Mid(w), 0x20_0000) }

  /** Section C4.1: the encodings the machine understands. */
  function Decode(w: Word): Inst { DecodeFields(Top(w), Mid(w), Low(w), w) }

  function DecodeFields(b: int, m: int, low: Reg, w: Word): Inst
    requires 0 <= b < 0x100 && 0 <= m < 0x8_0000
  {
    if 0x14 <= b <= 0x17 || 0x94 <= b <= 0x97 then B(b >= 0x80, Imm26(w))
    else if b == 0x54 && low < 0x10 then BCond(low, Signed(m, 0x8_0000) * 4)
    else if b == 0x34 || b == 0x35 || b == 0xB4 || b == 0xB5 then
      CompareB(b >= 0x80, low, b == 0x35 || b == 0xB5, Signed(m, 0x8_0000) * 4)
    else if b == 0x36 || b == 0x37 || b == 0xB6 || b == 0xB7 then
      TestB((if b >= 0x80 then 32 else 0) + m / 0x4000, low, b == 0x37 || b == 0xB7, Signed(m % 0x4000, 0x4000) * 4)
    else if b == 0x10 || b == 0x30 || b == 0x50 || b == 0x70 then Adr(low, Imm21(w))
    else if b == 0x90 || b == 0xB0 || b == 0xD0 || b == 0xF0 then Adrp(low, Imm21(w))
    else if b == 0x58 || b == 0x18 then LdrLiteral(b == 0x58, low, Signed(m, 0x8_0000) * 4)
    else if b == 0xD2 && m >= 0x4_0000 then Movz(low, m % 0x1_0000, m / 0x1_0000 - 4)
    else if b == 0xF2 && m >= 0x4_0000 then Movk(low, m % 0x1_0000, m / 0x1_0000 - 4)
    else if b == 0xF9 && 0x2_0000 <= m < 0x4_0000 && m % 0x20 != 31 then LdrX(low, m % 0x20, m / 0x20 - 0x1000)
    else if b == 0xD6 && 0xF800 <= m < 0xF820 && low == 0 then Br(m - 0xF800)
    else if b == 0xD6 && 0x1_F800 <= m < 0x1_F820 && low == 0 then Blr(m - 0x1_F800)
    else Other(w)
  }

  predicate AreFields(top: int, mid: int, low: int) { 0 <= top < 0x100 && 0 <= mid < 0x8_0000 && 0 <= low < 0x20 }

  function Make(top: int, mid: int, low: int): Word requires AreFields(top, mid, low) {
    top * 0x100_0000 + mid * 0x20 + low
  }

  lemma Fields(top: int, mid: int, low: int)
    requires AreFields(top, mid, low)
    ensures var w := Make(top, mid, low); Top(w) == top && Mid(w) == mid && Low(w) == low
  {
    assert Make(top, mid, low) / 0x20 == top * 0x8_0000 + mid;
  }

  lemma Unmake(w: Word)
    ensures w == Make(Top(w), Mid(w), Low(w))
  {
  }

  function Get(x: Regs, r: Reg): U64 { if r == 31 then 0 else x[r] }

  function Put(x: Regs, r: Reg, v: U64): Regs { if r == 31 then x else x[r := v] }

  function Pow2(n: nat): (p: int) ensures p > 0 { if n == 0 then 1 else 2 * Pow2(n - 1) }

  /** MOVK: one 16-bit lane of `v` replaced. */
  function SetLane(v: U64, lane: Lane, imm16: Imm16): U64 {
    var r := match lane
      case 0 => v / 0x1_0000 * 0x1_0000 + imm16
      case 1 => v / 0x1_0000_0000 * 0x1_0000_0000 + imm16 * 0x1_0000 + v % 0x1_0000
      case 2 => v / 0x1_0000_0000_0000 * 0x1_0000_0000_0000 + imm16 * 0x1_0000_0000 + v % 0x1_0000_0000
      case _ => imm16 * 0x1_0000_0000_0000 + v % 0x1_0000_0000_0000;
    r
  }

  function Load64(mem: int -> Word, a: U64): U64 { mem(a) + mem((a + 4) % TWO64) * TWO32 }

  function BitOf(v: U64, bitNo: nat): bool { v / Pow2(bitNo) % 2 == 1 }

  /** Section C1.2.4: condition codes; 14 and 15 both mean "always". */
  function Holds(cond: nat, f: Flags): bool {
    var base := match cond / 2
      case 0 => f.z
      case 1 => f.c
      case 2 => f.n
      case 3 => f.v
      case 4 => f.c && !f.z
      case 5 => f.n == f.v
      case 6 => f.n == f.v && !f.z
      case _ => true;
    if cond % 2 == 1 && cond != 15 then !base else base
  }

  /** Whether a conditional branch is taken. */
  function Taken(i: Inst, c: Core): bool {
    match i
    case BCond(cond, _) => Holds(cond, c.flags)
    case CompareB(wide, rt, onNonZero, _) => ((if wide then Get(c.x, rt) else Get(c.x, rt) % TWO32) != 0) == onNonZero
    case TestB(bitNo, rt, onOne, _) => BitOf(Get(c.x, rt), bitNo) == onOne
    case _ => false
  }

  function SetX(c: Core, r: Reg, v: U64): Core { c.(x := Put(c.x, r, v)) }

  /** Section C6.2: what the instruction does when fetched from `pc`. */
  ghost function Exec(isa: Isa, i: Inst, pc: int, c: Core): Effect {
    match i
    case B(link, off) => Effect(c, if link then Call((pc + off) % TWO64) else Jump((pc + off) % TWO64))
    case BCond(_, off) => Effect(c, if Taken(i, c) then Jump((pc + off) % TWO64) else Next)
    case CompareB(_, _, _, off) => Effect(c, if Taken(i, c) then Jump((pc + off) % TWO64) else Next)
    case TestB(_, _, _, off) => Effect(c, if Taken(i, c) then Jump((pc + off) % TWO64) else Next)
    case Adr(rd, off) => Effect(SetX(c, rd, (pc + off) % TWO64), Next)
    case Adrp(rd, pages) => Effect(SetX(c, rd, (pc / 4096 * 4096 + pages * 4096) % TWO64), Next)
    case LdrLiteral(wide, rt, off) =>
      Effect(SetX(c, rt, if wide then Load64(c.mem, (pc + off) % TWO64) else c.mem((pc + off) % TWO64)), Next)
    case Movz(rd, imm, lane) => Effect(SetX(c, rd, SetLane(0, lane, imm)), Next)
    case Movk(rd, imm, lane) => Effect(SetX(c, rd, SetLane(Get(c.x, rd), lane, imm)), Next)
    case LdrX(rt, rn, scaled) => Effect(SetX(c, rt, Load64(c.mem, (Get(c.x, rn) + 8 * scaled) % TWO64)), Next)
    case Br(rn) => Effect(c, Jump(Get(c.x, rn)))
    case Blr(rn) => Effect(c, Call(Get(c.x, rn)))
    case Other(w) => isa.exec(w, c)
  }

  datatype Cpu = Cpu(pc: int, core: Core)

  ghost function After(e: Effect, pc: int): Cpu {
    match e.flow
    case Next => Cpu(pc + 4, e.core)
    case Jump(t) => Cpu(t, e.core)
    case Call(t) => Cpu(t, SetX(e.core, 30, (pc + 4) % TWO64))
  }

  predicate InCode(prog: seq<Inst>, base: int, pc: int) {
    base <= pc < base + 4 * |prog| && (pc - base) % 4 == 0
  }

  ghost function Step(isa: Isa, prog: seq<Inst>, base: int, s: Cpu): Cpu
    requires InCode(prog, base, s.pc)
  {
    After(Exec(isa, prog[(s.pc - base) / 4], s.pc, s.core), s.pc)
  }

  /** At most `n` steps of the program at `base`, stopping early when control leaves it. */
  ghost function RunN(isa: Isa, prog: seq<Inst>, base: int, s: Cpu, n: nat): Cpu
    decreases n, s
  {
    if n == 0 || !InCode(prog, base, s.pc) then s
    else RunN(isa, prog, base, Step(isa, prog, base, s), n - 1)
  }

  lemma {:induction false} RunCompose(isa: Isa, prog: seq<Inst>, base: int, s: Cpu, m: nat, n: nat)
    ensures RunN(isa, prog, base, s, m + n) == RunN(isa, prog, base, RunN(isa, prog, base, s, m), n)
    decreases m
  {
    if m == 0 {
    } else if !InCode(prog, base, s.pc) {
    } else {
      RunCompose(isa, prog, base, Step(isa, prog, base, s), m - 1, n);
    }
  }

  function Fetch(words: seq<Word>, i: nat): Inst requires i < |words| { Decode(words[i]) }

  /** The program a sequence of words stands for. */
  ghost predicate Decodes(prog: seq<Inst>, words: seq<Word>) {
    |prog| == |words| && forall i {:trigger Fetch(words, i)} :: 0 <= i < |prog| ==> prog[i] == Fetch(words, i)
  }
}
