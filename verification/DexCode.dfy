/**
  Dalvik code units: the instruction formats MethodBuilder emits, with the
  field truncations of its encoders, and the fields DecodeInstruction reads.
*/
module DexCode {
  import opened Wrappers

  // ---------- formats ----------

  /** An instruction of one format, with the field values its encoder is called with. */
  datatype Low =
    | L10x(op: nat)
    | L11x(op: nat, a: nat)
    | L11n(op: nat, a: nat, b: nat)
    | L21s(op: nat, a: nat, b: nat)
    | L21t(op: nat, a: nat, offset: int)
    | L21c(op: nat, a: nat, b: nat)
    | L22c(op: nat, a: nat, b: nat, c: nat)
    | L23x(op: nat, a: nat, b: nat, c: nat)
    | L32x(op: nat, a: nat, b: nat)
    | L31i(op: nat, a: nat, b: nat)
    | L35c(op: nat, count: nat, b: nat, c: nat, d: nat, e: nat, f: nat)
    | L3rc(op: nat, count: nat, b: nat, c: nat)

  datatype Format = F10x | F11x | F11n | F21s | F21t | F21c | F22c | F23x | F32x | F31i | F35c | F3rc | Unused

  /** Format of each opcode the builder can emit. */
  function FormatOf(op: nat): Format {
    if op == 0x03 || op == 0x06 || op == 0x09 then F32x
    else if op == 0x0a || op == 0x0b || op == 0x0c || op == 0x0f || op == 0x10 || op == 0x11 then F11x
    else if op == 0x0e then F10x
    else if op == 0x12 then F11n
    else if op == 0x13 || op == 0x16 then F21s
    else if op == 0x14 || op == 0x17 then F31i
    else if op == 0x1a || op == 0x1f || op == 0x22 || op == 0x60 || op == 0x62 || op == 0x67 || op == 0x69 then F21c
    else if op == 0x23 || op == 0x52 || op == 0x59 then F22c
    else if op == 0x38 || op == 0x39 then F21t
    else if op == 0x4d then F23x
    else if op == 0x6e || op == 0x70 || op == 0x71 || op == 0x72 then F35c
    else if op == 0x74 || op == 0x76 || op == 0x77 || op == 0x78 then F3rc
    else Unused
  }

  function LowFormat(l: Low): Format {
    match l
    case L10x(_) => F10x
    case L11x(_, _) => F11x
    case L11n(_, _, _) => F11n
    case L21s(_, _, _) => F21s
    case L21t(_, _, _) => F21t
    case L21c(_, _, _) => F21c
    case L22c(_, _, _, _) => F22c
    case L23x(_, _, _, _) => F23x
    case L32x(_, _, _) => F32x
    case L31i(_, _, _) => F31i
    case L35c(_, _, _, _, _, _, _) => F35c
    case L3rc(_, _, _, _) => F3rc
  }

  /** Code units of each format. */
  function Width(f: Format): (n: nat)
    ensures n > 0
  {
    match f
    case F10x => 1
    case F11x => 1
    case F11n => 1
    case F32x => 3
    case F31i => 3
    case F35c => 3
    case F3rc => 3
    case Unused => 1
    case _ => 2
  }

  /** Integer parameters of the encoders keep their low bits. */
  function U8(n: nat): nat { n % 0x100 }

  function U16(n: int): nat { n % 0x10000 }

  type Units = seq<nat>

  /** What the assertions inside the format encoders check, on the truncated arguments. */
  predicate Admits(l: Low) {
    FormatOf(l.op) == LowFormat(l) && l.op < 256 &&
    match l
    case L11n(_, a, b) => U8(a) < 16 && b < 8
    case L21s(_, a, b) => U16(b) < 32768
    case L22c(_, a, b, _) => U8(a) < 16 && U8(b) < 16
    case L35c(_, count, _, c, d, e, f) => count < 5 && U8(c) < 16 && U8(d) < 16 && U8(e) < 16 && U8(f) < 16
    case L3rc(_, count, _, _) => count < 255
    case _ => true
  }

  /** The units the encoders push. */
  function Pack(l: Low): (u: Units)
    requires Admits(l)
    ensures |u| == Width(FormatOf(l.op))
  {
    match l
    case L10x(op) => [op]
    case L11x(op, a) => [U8(a) * 256 + op]
    case L11n(op, a, b) => [b * 4096 + U8(a) * 256 + op]
    case L21s(op, a, b) => [U8(a) * 256 + op, U16(b)]
    case L21t(op, a, b) => [U8(a) * 256 + op, U16(b)]
    case L21c(op, a, b) => [U8(a) * 256 + op, U16(b)]
    case L22c(op, a, b, c) => [U8(b) * 4096 + U8(a) * 256 + op, U16(c)]
    case L23x(op, a, b, c) => [U8(a) * 256 + op, U8(c) * 256 + U8(b)]
    case L32x(op, a, b) => [op, U16(a), U16(b)]
    case L31i(op, a, b) => [U8(a) * 256 + op, U16(b), (b / 0x10000) % 0x10000]
    case L35c(op, count, b, c, d, e, f) => [count * 4096 + op, U16(b), U8(f) * 4096 + U8(e) * 256 + U8(d) * 16 + U8(c)]
    case L3rc(op, count, b, c) => [count * 256 + op, U16(b), U16(c)]
  }

  // ---------- decoding ----------

  /** The decoder's record; `arg` holds the register list of a 35c instruction. */
  datatype Decoded = Decoded(op: nat, vA: int, vB: int, vC: int, arg: seq<nat>)

  function At(code: Units, i: nat): nat { if i < |code| then code[i] else 0 }

  function S16(n: nat): int { if n < 0x8000 then n else n - 0x10000 }

  function S4(n: nat): int { if n < 8 then n else n - 16 }

  /** First `count` registers of a packed list, in order. */
  function RegisterList(count: nat, list: nat): seq<nat> {
    var all := [list % 16, list / 16 % 16, list / 256 % 16, list / 4096];
    if count <= 4 then all[..count] else []
  }

  function Decode(code: Units, pc: nat): Decoded {
    var inst := At(code, pc);
    var op := inst % 256;
    var AA, A, B := inst / 256, inst / 256 % 16, inst / 4096;
    var one, two := At(code, pc + 1), At(code, pc + 2);
    match FormatOf(op)
    case F10x => Decoded(op, 0, 0, 0, [])
    case F11x => Decoded(op, AA, 0, 0, [])
    case F11n => Decoded(op, A, S4(B), 0, [])
    case F21s => Decoded(op, AA, S16(one), 0, [])
    case F21t => Decoded(op, AA, S16(one), 0, [])
    case F21c => Decoded(op, AA, one, 0, [])
    case F22c => Decoded(op, A, B, one, [])
    case F23x => Decoded(op, AA, one % 256, one / 256, [])
    case F32x => Decoded(op, one, two, 0, [])
    case F31i => Decoded(op, AA, one + two * 0x10000, 0, [])
    case F35c => Decoded(op, B, one, if B == 0 then 0 else two % 16, RegisterList(B, two))
    case F3rc => Decoded(op, AA, one, two, [])
    case Unused => Decoded(op, 0, 0, 0, [])
  }

  /** The fields an instruction is meant to carry. */
  function Intended(l: Low): Decoded {
    match l
    case L10x(op) => Decoded(op, 0, 0, 0, [])
    case L11x(op, a) => Decoded(op, a, 0, 0, [])
    case L11n(op, a, b) => Decoded(op, a, b, 0, [])
    case L21s(op, a, b) => Decoded(op, a, b, 0, [])
    case L21t(op, a, b) => Decoded(op, a, b, 0, [])
    case L21c(op, a, b) => Decoded(op, a, b, 0, [])
    case L22c(op, a, b, c) => Decoded(op, a, b, c, [])
    case L23x(op, a, b, c) => Decoded(op, a, b, c, [])
    case L32x(op, a, b) => Decoded(op, a, b, 0, [])
    case L31i(op, a, b) => Decoded(op, a, b, 0, [])
    case L35c(op, count, b, c, d, e, f) =>
      Decoded(op, count, b, if count == 0 then 0 else c, if count <= 4 then [c, d, e, f][..count] else [])
    case L3rc(op, count, b, c) => Decoded(op, count, b, c, [])
  }

  /** Every field value fits its bit-field. */
  predicate Fits(l: Low) {
    match l
    case L10x(_) => true
    case L11x(_, a) => a < 256
    case L11n(_, a, b) => a < 16
    case L21s(_, a, b) => a < 256 && b < 32768
    case L21t(_, a, b) => a < 256 && -0x8000 <= b < 0x8000
    case L21c(_, a, b) => a < 256 && b < 65536
    case L22c(_, a, b, c) => a < 16 && b < 16 && c < 65536
    case L23x(_, a, b, c) => a < 256 && b < 256 && c < 256
    case L32x(_, a, b) => a < 65536 && b < 65536
    case L31i(_, a, b) => a < 256 && b < 0x1_0000_0000
    case L35c(_, count, b, c, d, e, f) =>
      b < 65536 && (count > 0 ==> c < 16) && (count > 1 ==> d < 16) && (count > 2 ==> e < 16) && (count > 3 ==> f < 16)
    case L3rc(_, count, b, c) => b < 65536 && c < 65536
  }

  // ---------- round trip of one instruction ----------

  /** The units of an instruction sit at pc. */
  ghost predicate Placed(l: Low, code: Units, pc: nat)
    requires Admits(l)
  {
    forall k :: 0 <= k < |Pack(l)| ==> At(code, pc + k) == Pack(l)[k]
  }

  /** Low and high parts of a unit. */
  lemma Bytes(hi: nat, lo: nat, unit: nat)
    requires lo < 256 && unit == hi * 256 + lo
    ensures unit % 256 == lo && unit / 256 == hi
  {
  }

  lemma Nibbles(b: nat, a: nat, op: nat, unit: nat)
    requires op < 256 && a < 16 && unit == b * 4096 + a * 256 + op
    ensures unit % 256 == op && unit / 256 % 16 == a && unit / 4096 == b
  {
    Bytes(b * 16 + a, op, unit);
  }

  lemma OpByte(l: Low)
    requires Admits(l)
    ensures Pack(l)[0] % 256 == l.op
  {
    match l
    case L11n(op, a, b) => Nibbles(b, U8(a), op, Pack(l)[0]);
    case L22c(op, a, b, _) => Nibbles(U8(b), U8(a), op, Pack(l)[0]);
    case L35c(op, count, _, _, _, _, _) => Nibbles(count, 0, op, Pack(l)[0]);
    case _ =>
  }

  lemma FirstUnit(l: Low, code: Units, pc: nat)
    requires Admits(l) && Placed(l, code, pc)
    ensures At(code, pc) % 256 == l.op
    ensures At(code, pc) == Pack(l)[0]
    ensures |Pack(l)| > 1 ==> At(code, pc + 1) == Pack(l)[1]
    ensures |Pack(l)| > 2 ==> At(code, pc + 2) == Pack(l)[2]
  {
    hide Pack, Admits, At;
    OpByte(l);
    assert At(code, pc + 0) == Pack(l)[0];
  }

  lemma ShortFormats(l: Low, code: Units, pc: nat)
    requires Admits(l) && Placed(l, code, pc) && (l.L10x? || l.L11x? || l.L11n? || l.L22c?)
    ensures Decode(code, pc) == Intended(l) <==> Fits(l)
  {
    hide Placed, At;
    FirstUnit(l, code, pc);
    match l
    case L10x(op) =>
    case L11x(op, a) => Bytes(U8(a), op, At(code, pc));
    case L11n(op, a, b) => Nibbles(b, U8(a), op, At(code, pc));
    case L22c(op, a, b, _) => Nibbles(U8(b), U8(a), op, At(code, pc));
  }

  lemma ByteFormats(l: Low, code: Units, pc: nat)
    requires Admits(l) && Placed(l, code, pc) && (l.L21s? || l.L21t? || l.L21c? || l.L32x?)
    ensures Decode(code, pc) == Intended(l) <==> Fits(l)
  {
    FirstUnit(l, code, pc);
    if !l.L32x? { Bytes(U8(l.a), l.op, At(code, pc)); }
  }

  lemma LongFormat(l: Low, code: Units, pc: nat)
    requires Admits(l) && Placed(l, code, pc) && l.L31i?
    ensures Decode(code, pc) == Intended(l) <==> Fits(l)
  {
    hide Placed, At;
    FirstUnit(l, code, pc);
    Bytes(U8(l.a), l.op, At(code, pc));
  }

  lemma PairFormats(l: Low, code: Units, pc: nat)
    requires Admits(l) && Placed(l, code, pc) && (l.L23x? || l.L3rc?)
    ensures Decode(code, pc) == Intended(l) <==> Fits(l)
  {
    hide Placed, At;
    FirstUnit(l, code, pc);
    match l
    case L23x(op, a, b, c) =>
      Bytes(U8(a), op, At(code, pc));
      Bytes(U8(c), U8(b), At(code, pc + 1));
    case L3rc(op, count, _, _) => Bytes(count, op, At(code, pc));
  }

  lemma FourNibbles(f: nat, e: nat, d: nat, c: nat, unit: nat)
    requires c < 16 && d < 16 && e < 16 && f < 16 && unit == f * 4096 + e * 256 + d * 16 + c
    ensures unit % 16 == c && unit / 16 % 16 == d && unit / 256 % 16 == e && unit / 4096 == f
  {
    assert unit / 16 == f * 256 + e * 16 + d;
    assert unit / 256 == f * 16 + e;
  }

  lemma SamePrefix(n: nat, want: seq<nat>, got: seq<nat>)
    requires |want| == 4 && |got| == 4 && n <= 4
    ensures got[..n] == want[..n] <==>
      (n > 0 ==> got[0] == want[0]) && (n > 1 ==> got[1] == want[1]) &&
      (n > 2 ==> got[2] == want[2]) && (n > 3 ==> got[3] == want[3])
  {
    if got[..n] == want[..n] {
      forall k | 0 <= k < n ensures got[k] == want[k] { assert got[..n][k] == want[..n][k]; }
    }
  }

  /** The registers as their nibbles carry them. */
  function Carried(l: Low): seq<nat>
    requires l.L35c?
  {
    [U8(l.c), U8(l.d), U8(l.e), U8(l.f)]
  }

  /** What the decoder reads from the three units of a 35c instruction. */
  lemma ListDecoded(l: Low, code: Units, pc: nat)
    requires Admits(l) && Placed(l, code, pc) && l.L35c?
    ensures Decode(code, pc) ==
            Decoded(l.op, l.count, U16(l.b), if l.count == 0 then 0 else U8(l.c), Carried(l)[..l.count])
  {
    hide Placed, At, FormatOf;
    FirstUnit(l, code, pc);
    Nibbles(l.count, 0, l.op, At(code, pc));
    FourNibbles(U8(l.f), U8(l.e), U8(l.d), U8(l.c), At(code, pc + 2));
  }

  lemma ListFormat(l: Low, code: Units, pc: nat)
    requires Admits(l) && Placed(l, code, pc) && l.L35c?
    ensures Decode(code, pc) == Intended(l) <==> Fits(l)
  {
    hide Placed, At, FormatOf, Decode;
    ListDecoded(l, code, pc);
    SamePrefix(l.count, [l.c, l.d, l.e, l.f], Carried(l));
  }

  /** An encoded instruction decodes to its own fields exactly when every field fits. */
  lemma DecodeExact(l: Low, code: Units, pc: nat)
    requires Admits(l) && Placed(l, code, pc)
    ensures Decode(code, pc).op == l.op
    ensures Decode(code, pc) == Intended(l) <==> Fits(l)
  {
    FirstUnit(l, code, pc);
    if l.L35c? { ListFormat(l, code, pc); }
    else if l.L31i? { LongFormat(l, code, pc); }
    else if l.L23x? || l.L3rc? { PairFormats(l, code, pc); }
    else if l.L10x? || l.L11x? || l.L11n? || l.L22c? { ShortFormats(l, code, pc); }
    else { ByteFormats(l, code, pc); }
  }

  /** The decoded displacement of a branch is right exactly when it fits 16 signed bits. */
  lemma JumpDecodes(l: Low, code: Units, pc: nat)
    requires l.L21t? && Admits(l) && Placed(l, code, pc)
    ensures Decode(code, pc).vB == l.offset <==> -0x8000 <= l.offset < 0x8000
  {
    FirstUnit(l, code, pc);
  }
}
