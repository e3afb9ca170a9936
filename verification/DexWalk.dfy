/**
  How the cross-reference scanner walks over the code units of a method: from
  instruction to instruction by a table of lengths, jumping over the payloads of
  switches and array data. The walk visits exactly what was assembled.
*/
module DexWalk {
  import opened DexCode

  /** An instruction: its opcode and the index operand, 0 if it has none. */
  datatype Inst = Inst(op: nat, index: nat)

  /** opcode_len */
  function OpcodeLen(op: nat): (n: nat)
    ensures 0 < n <= 5
  {
    if op == 0x18 then 5
    else if op == 0xfa || op == 0xfb then 4
    else if op == 0x03 || op == 0x06 || op == 0x09 || op == 0x14 || op == 0x17 || op == 0x1b then 3
    else if 0x24 <= op <= 0x26 || 0x2a <= op <= 0x2c || 0x6e <= op <= 0x72 || 0x74 <= op <= 0x78 then 3
    else if op == 0xe9 || op == 0xea || op == 0xfc || op == 0xfd then 3
    else if op == 0x02 || op == 0x05 || op == 0x08 || op == 0x13 || op == 0x15 || op == 0x16 || op == 0x19 then 2
    else if op == 0x1a || op == 0x1c || op == 0x1f || op == 0x20 || op == 0x22 || op == 0x23 || op == 0x29 then 2
    else if 0x2d <= op <= 0x3d || 0x44 <= op <= 0x6d || 0x90 <= op <= 0xaf || 0xd0 <= op <= 0xf2 || op >= 0xfe then 2
    else 1
  }

  /** The scanner's table agrees with the formats MethodBuilder emits. */
  lemma LengthsAgree(op: nat)
    requires FormatOf(op) != Unused
    ensures OpcodeLen(op) == Width(FormatOf(op))
  {
  }

  /** String constants, field accesses and invocations name an index in their second unit. */
  predicate HasIndex(op: nat) { op == 0x1a || 0x52 <= op <= 0x6d || 0x6e <= op <= 0x72 || 0x74 <= op <= 0x78 }

  function InstAt(code: Units, pc: nat): Inst {
    var op := At(code, pc) % 256;
    Inst(op, if op == 0x1b then At(code, pc + 1) + At(code, pc + 2) * 0x1_0000 else if HasIndex(op) then At(code, pc + 1) else 0)
  }

  const PACKED_SWITCH := 0x0100
  const SPARSE_SWITCH := 0x0200
  const FILL_ARRAY := 0x0300

  /** Units skipped beside the opcode's own; the product is one of 32 bits. */
  function PayloadAt(code: Units, pc: nat): nat {
    if At(code, pc) == PACKED_SWITCH then At(code, pc + 1) * 2 + 3
    else if At(code, pc) == SPARSE_SWITCH then At(code, pc + 1) * 4 + 1
    else if At(code, pc) == FILL_ARRAY then
      ((At(code, pc + 2) + At(code, pc + 3) * 0x1_0000) * At(code, pc + 1) + 1) % 0x1_0000_0000 / 2 + 3
    else 0
  }

  function StepAt(code: Units, pc: nat): (n: nat)
    ensures n > 0
  {
    PayloadAt(code, pc) + OpcodeLen(At(code, pc) % 256)
  }

  /** The instructions visited from pc on. */
  function Walk(code: Units, pc: nat): seq<Inst>
    decreases |code| - pc
  {
    if pc >= |code| then [] else [InstAt(code, pc)] + Walk(code, pc + StepAt(code, pc))
  }

  // ---------- assembled code ----------

  /** A piece of a method's code: an instruction, or a payload with its declared sizes. */
  datatype Piece =
    | Instr(units: Units)
    | Packed(size: nat, body: Units)                // first key and targets
    | Sparse(size: nat, body: Units)                // keys and targets
    | Fill(width: nat, count: nat, body: Units)     // elements, padded to whole units

  /** The forms of the Dalvik executable format. */
  predicate Formed(p: Piece) {
    match p
    case Instr(units) =>
      units != [] && |units| == OpcodeLen(units[0] % 256) && units[0] !in {PACKED_SWITCH, SPARSE_SWITCH, FILL_ARRAY}
    case Packed(size, body) => size < 0x1_0000 && |body| == 2 * size + 2
    case Sparse(size, body) => size < 0x1_0000 && |body| == 4 * size
    case Fill(width, count, body) => width < 0x1_0000 && count < 0x1_0000_0000 && |body| == (width * count + 1) / 2
  }

  function UnitsOf(p: Piece): Units {
    match p
    case Instr(units) => units
    case Packed(size, body) => [PACKED_SWITCH, size] + body
    case Sparse(size, body) => [SPARSE_SWITCH, size] + body
    case Fill(width, count, body) => [FILL_ARRAY, width, count % 0x1_0000, count / 0x1_0000] + body
  }

  /** What a piece is to the scanner; payloads count as a nop. */
  function InstOf(p: Piece): Inst { if p.Instr? then InstAt(p.units, 0) else Inst(0, 0) }

  function Assembled(pieces: seq<Piece>): Units {
    if pieces == [] then [] else UnitsOf(pieces[0]) + Assembled(pieces[1..])
  }

  function InstsOf(pieces: seq<Piece>): seq<Inst> {
    if pieces == [] then [] else [InstOf(pieces[0])] + InstsOf(pieces[1..])
  }

  lemma AtAppend(a: Units, b: Units, c: Units, i: nat)
    requires i < |b|
    ensures At(a + b + c, |a| + i) == b[i]
  {
    assert (a + b + c)[|a| + i] == b[i];
  }

  lemma InstrStep(before: Units, units: Units, after: Units)
    requires Formed(Instr(units))
    ensures var code := before + units + after;
            InstAt(code, |before|) == InstAt(units, 0) && StepAt(code, |before|) == |units|
  {
    AtAppend(before, units, after, 0);
    if |units| > 1 { AtAppend(before, units, after, 1); }
    if |units| > 2 { AtAppend(before, units, after, 2); }
  }

  /** A 32-bit product and its exact value. */
  lemma FillStep(width: nat, count: nat, body: nat, low: nat, high: nat)
    requires low == count % 0x1_0000 && high == count / 0x1_0000 && body == (width * count + 1) / 2
    ensures ((low + high * 0x1_0000) * width + 1) % 0x1_0000_0000 / 2 == body <==> width * count + 1 < 0x1_0000_0000
  {
    assert low + high * 0x1_0000 == count;
    assert (low + high * 0x1_0000) * width == width * count;
  }

  lemma SwitchStep(before: Units, p: Piece, after: Units)
    requires Formed(p) && (p.Packed? || p.Sparse?)
    ensures var code := before + UnitsOf(p) + after;
            InstAt(code, |before|) == Inst(0, 0) && StepAt(code, |before|) == |UnitsOf(p)|
  {
    AtAppend(before, UnitsOf(p), after, 0);
    AtAppend(before, UnitsOf(p), after, 1);
  }

  lemma FillHeader(before: Units, p: Piece, after: Units)
    requires Formed(p) && p.Fill?
    ensures var code := before + UnitsOf(p) + after;
            && At(code, |before|) == FILL_ARRAY && At(code, |before| + 1) == p.width
            && At(code, |before| + 2) == p.count % 0x1_0000 && At(code, |before| + 3) == p.count / 0x1_0000
  {
    hide At;
    AtAppend(before, UnitsOf(p), after, 0);
    AtAppend(before, UnitsOf(p), after, 1);
    AtAppend(before, UnitsOf(p), after, 2);
    AtAppend(before, UnitsOf(p), after, 3);
  }

  lemma ArrayStep(before: Units, p: Piece, after: Units)
    requires Formed(p) && p.Fill?
    ensures var code := before + UnitsOf(p) + after;
            && InstAt(code, |before|) == Inst(0, 0)
            && (StepAt(code, |before|) == |UnitsOf(p)| <==> p.width * p.count + 1 < 0x1_0000_0000)
  {
    hide At;
    FillHeader(before, p, after);
    FillStep(p.width, p.count, |p.body|, p.count % 0x1_0000, p.count / 0x1_0000);
  }

  /** The scanner skips a payload exactly, unless its size overflows 32 bits. */
  lemma PayloadStep(before: Units, p: Piece, after: Units)
    requires Formed(p) && !p.Instr?
    ensures var code := before + UnitsOf(p) + after;
            && InstAt(code, |before|) == Inst(0, 0)
            && (StepAt(code, |before|) == |UnitsOf(p)| <==> (p.Fill? ==> p.width * p.count + 1 < 0x1_0000_0000))
  {
    hide InstAt, StepAt, UnitsOf, Formed;
    if p.Fill? { ArrayStep(before, p, after); } else { SwitchStep(before, p, after); }
  }

  lemma PieceStep(before: Units, p: Piece, after: Units)
    requires Formed(p) && |UnitsOf(p)| < 0x8000_0000
    ensures var code := before + UnitsOf(p) + after;
            InstAt(code, |before|) == InstOf(p) && StepAt(code, |before|) == |UnitsOf(p)|
  {
    hide InstAt, StepAt;
    if p.Instr? { InstrStep(before, p.units, after); } else { PayloadStep(before, p, after); }
  }

  lemma WalkNext(code: Units, pc: nat, inst: Inst, next: nat)
    requires pc < |code| && InstAt(code, pc) == inst && pc + StepAt(code, pc) == next
    ensures Walk(code, pc) == [inst] + Walk(code, next)
  {
  }

  lemma {:induction false} WalkFrom(before: Units, pieces: seq<Piece>)
    requires forall i :: 0 <= i < |pieces| ==> Formed(pieces[i])
    requires |Assembled(pieces)| < 0x8000_0000
    ensures Walk(before + Assembled(pieces), |before|) == InstsOf(pieces)
    decreases |pieces|
  {
    hide InstAt, StepAt, Walk, Formed, UnitsOf;
    if pieces == [] {
      WalkEnds(before + Assembled(pieces), |before|);
    } else {
      var p, rest := pieces[0], pieces[1..];
      var code := before + UnitsOf(p) + Assembled(rest);
      assert before + Assembled(pieces) == code;
      PieceStep(before, p, Assembled(rest));
      PieceSize(p);
      WalkFrom(before + UnitsOf(p), rest);
      WalkNext(code, |before|, InstOf(p), |before + UnitsOf(p)|);
    }
  }

  lemma WalkEnds(code: Units, pc: nat)
    requires pc >= |code|
    ensures Walk(code, pc) == []
  {
  }

  lemma PieceSize(p: Piece)
    requires Formed(p)
    ensures UnitsOf(p) != []
  {
  }

  /** In a file of less than 2^32 bytes the walk visits every assembled instruction once, in order, and nothing else. */
  lemma WalkAssembled(pieces: seq<Piece>)
    requires forall i :: 0 <= i < |pieces| ==> Formed(pieces[i])
    requires |Assembled(pieces)| < 0x8000_0000
    ensures Walk(Assembled(pieces), 0) == InstsOf(pieces)
  {
    WalkFrom([], pieces);
    assert [] + Assembled(pieces) == Assembled(pieces);
  }
}
