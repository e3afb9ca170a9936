/**
  The ARM64 prologue relocator of Dobby: every copied word is expanded into
  position-independent code, and the branch targets go to a literal pool whose
  loads are back-patched once the pool's place is known. The code buffer is a
  sequence of 32-bit little-endian words, so a byte offset is four times an index.
 */
module Relocator {
  import opened A64

  const SCRATCH := 17
  const LDR_X17: Word := 0x5800_0011
  const BR_X17: Word := 0xD61F_0220
  const BLR_X17: Word := 0xD63F_0220

  // ----- instruction predicates: (word & mask) == fixed; every mask lies in the top byte -----

  /** mask 0x7C000000, fixed 0x14000000 */
  predicate IsBBl(b: int) { 0x14 <= b <= 0x17 || 0x94 <= b <= 0x97 }
  /** mask 0x3B000000, fixed 0x18000000 */
  predicate IsLdrLiteral(b: int) {
    b == 0x18 || b == 0x1C || b == 0x58 || b == 0x5C || b == 0x98 || b == 0x9C || b == 0xD8 || b == 0xDC
  }
  /** mask 0x9F000000, fixed 0x10000000 */
  predicate IsAdr(b: int) { b == 0x10 || b == 0x30 || b == 0x50 || b == 0x70 }
  /** mask 0x9F000000, fixed 0x90000000 */
  predicate IsAdrp(b: int) { b == 0x90 || b == 0xB0 || b == 0xD0 || b == 0xF0 }
  /** mask 0xFE000000, fixed 0x54000000 */
  predicate IsBCond(b: int) { b == 0x54 || b == 0x55 }
  /** mask 0x7E000000, fixed 0x34000000 */
  predicate IsCompareB(b: int) { b == 0x34 || b == 0x35 || b == 0xB4 || b == 0xB5 }
  /** mask 0x7E000000, fixed 0x36000000 */
  predicate IsTestB(b: int) { b == 0x36 || b == 0x37 || b == 0xB6 || b == 0xB7 }

  /** The predicates are the source's masks, for every top byte. */
  lemma Masks(b: bv8)
    ensures IsBBl(b as int) <==> b & 0x7C == 0x14
    ensures IsLdrLiteral(b as int) <==> b & 0x3B == 0x18
    ensures IsAdr(b as int) <==> b & 0x1F == 0x10 && b & 0x9F == 0x10
    ensures IsAdrp(b as int) <==> b & 0x1F == 0x10 && b & 0x9F == 0x90
    ensures IsBCond(b as int) <==> b & 0xFE == 0x54
    ensures IsCompareB(b as int) <==> b & 0x7E == 0x34
    ensures IsTestB(b as int) <==> b & 0x7E == 0x36
  {
  }

  datatype Kind = BBl | LdrLit | AdrKind | AdrpKind | CondKind | CompareKind | TestKind | Plainly

  /** The relocator's cascade of tests. */
  function Classify(w: Word): Kind {
    if IsBBl(Top(w)) then BBl
    else if IsLdrLiteral(Top(w)) then LdrLit
    else if IsAdr(Top(w)) then AdrKind
    else if IsAdrp(Top(w)) then AdrpKind
    else if IsBCond(Top(w)) then CondKind
    else if IsCompareB(Top(w)) then CompareKind
    else if IsTestB(Top(w)) then TestKind
    else Plainly
  }

  // ----- field edits -----

  /** encode_imm19_offset: bits 5..23 become the low 19 bits of offset / 4. */
  function EncodeImm19(w: Word, offset: int): Word { Make(Top(w), offset / 4 % 0x8_0000, Low(w)) }

  /** Bits 5..18 become `imm14`. */
  function EncodeImm14(w: Word, imm14: int): Word requires 0 <= imm14 < 0x4000 {
    Make(Top(w), Mid(w) / 0x4000 * 0x4000 + imm14, Low(w))
  }

  function Flipped(n: int): int { if n % 2 == 0 then n + 1 else n - 1 }

  function FlipBit0(w: Word): Word { Make(Top(w), Mid(w), Flipped(Low(w))) }

  function FlipBit24(w: Word): Word { Make(Flipped(Top(w)), Mid(w), Low(w)) }

  /** The inverted short branch, three words forward. */
  function Inverted(w: Word, kind: Kind): Word {
    match kind
    case CondKind => EncodeImm19(FlipBit0(w), 12)
    case CompareKind => EncodeImm19(FlipBit24(w), 12)
    case _ => EncodeImm14(FlipBit24(w), 3)
  }

  /** 0xD2800000 | imm16 << 5 | rd */
  function MovzX(rd: Reg, imm16: Imm16): Word { Make(0xD2, 0x4_0000 + imm16, rd) }

  /** 0xF2800000 | lane << 21 | imm16 << 5 | rd */
  function MovkX(rd: Reg, imm16: Imm16, lane: Lane): Word { Make(0xF2, 0x4_0000 + lane * 0x1_0000 + imm16, rd) }

  /** TurboAssembler::Mov */
  function MovX(rd: Reg, v: U64): seq<Word> {
    [MovzX(rd, v % 0x1_0000), MovkX(rd, v / 0x1_0000 % 0x1_0000, 1),
     MovkX(rd, v / 0x1_0000_0000 % 0x1_0000, 2), MovkX(rd, v / 0x1_0000_0000_0000, 3)]
  }

  /** 0xF9400000 | X17 << 5 | rt, that is ldr(Xt, [X17]); the assembler emits this 64-bit form for W(rt) as well. */
  function LdrFromScratch(rt: Reg): Word { Make(0xF9, 0x2_0000 + SCRATCH, rt) }

  function OrTop(t: int): int requires 0 <= t < 0x80 { ((t as bv8) | 0x58) as int }

  /** 0x58000011 | (offset & 0x3FFFFFF) << 5: EmitLoadRegLiteral shifts the byte offset as it is. */
  function PlacedLoad(offset: int): Word {
    var imm26 := offset % 0x400_0000;
    OrBounds(imm26 / 0x8_0000);
    Make(OrTop(imm26 / 0x8_0000), imm26 % 0x8_0000, SCRATCH)
  }

  lemma OrBounds(t: int)
    requires 0 <= t < 0x80
    ensures t <= OrTop(t) < 0x80 && OrTop(0) == 0x58
  {
    var b := t as bv8;
    assert b <= b | 0x58 && b | 0x58 < 0x80;
  }

  lemma LoadsFrom(top: int, mid: int, offset: int)
    requires AreFields(top, mid, SCRATCH)
    ensures Decode(Make(top, mid, SCRATCH)) == LdrLiteral(true, SCRATCH, offset) <==>
              top == 0x58 && Signed(mid, 0x8_0000) * 4 == offset
  {
    Fields(top, mid, SCRATCH);
  }

  lemma Split26(offset: int)
    requires -0x200_0000 <= offset <= 0
    ensures var imm26 := offset % 0x400_0000;
            if offset == 0 then imm26 == 0 else imm26 == offset + 0x400_0000 && imm26 / 0x8_0000 >= 0x40
  {
  }

  /** So a load from a label that lies behind it is encoded wrongly: it reaches the label only at distance 0. */
  lemma PlacedLoadExact(offset: int)
    requires -0x200_0000 <= offset <= 0
    ensures Decode(PlacedLoad(offset)) == LdrLiteral(true, SCRATCH, offset) <==> offset == 0
  {
    hide Decode, Make, OrTop;
    var imm26 := offset % 0x400_0000;
    Split26(offset);
    OrBounds(imm26 / 0x8_0000);
    LoadsFrom(OrTop(imm26 / 0x8_0000), imm26 % 0x8_0000, offset);
  }

  // ----- what one word becomes -----

  datatype Expansion =
    | Abort                                           // UNIMPLEMENTED()
    | Plain(code: seq<Word>)
    | Pooled(code: seq<Word>, at: nat, value: U64)    // code[at] loads the pool literal `value`

  function Target(pc: int, offset: int): U64 { (pc + offset) % TWO64 }

  function Expand(w: Word, pc: int): Expansion {
    match Classify(w)
    case BBl => Pooled([LDR_X17, if Top(w) >= 0x80 then BLR_X17 else BR_X17], 0, Target(pc, Imm26(w)))
    case LdrLit =>
      (if Top(w) < 0x80 then Plain(MovX(SCRATCH, Target(pc, Imm19(w))) + [LdrFromScratch(Low(w))]) else Abort)
    case AdrKind => Plain(MovX(Low(w), Target(pc, Imm21(w))))
    case AdrpKind => Plain(MovX(Low(w), Target(pc, Imm21(w) * 4096) / 4096 * 4096))
    case CondKind => Pooled([Inverted(w, CondKind), LDR_X17, BR_X17], 1, Target(pc, Imm19(w)))
    case CompareKind => Pooled([Inverted(w, CompareKind), LDR_X17, BR_X17], 1, Target(pc, Imm19(w)))
    case TestKind => Pooled([Inverted(w, TestKind), LDR_X17, BR_X17], 1, Target(pc, Imm14(w)))
    case Plainly => Plain([w])
  }

  datatype Literal = Literal(at: nat, value: U64)

  /** A pool load sits where the expansion says it does. */
  predicate Sound(e: Expansion) {
    match e
    case Abort => false
    case Plain(code) => true
    case Pooled(code, at, value) => at < |code| && code[at] == LDR_X17
  }

  function At(ws: seq<Word>, src: int, i: nat): Expansion requires i < |ws| { Expand(ws[i], src + 4 * i) }

  ghost predicate Expanded(es: seq<Expansion>, ws: seq<Word>, src: int) {
    |ws| <= |es| && forall i {:trigger At(ws, src, i)} :: 0 <= i < |ws| ==> es[i] == At(ws, src, i)
  }

  /** LiteralLdrBranch to the first word after the copied ones. */
  function Tail(ws: seq<Word>, src: int): Expansion {
    Pooled([LDR_X17, BR_X17], 0, Target(src, 4 * |ws|))
  }

  /** A relocation: the copied words, where they come from, and their expansions, followed by the branch back if
      one is asked for. */
  datatype PlanRec = PlanRec(ws: seq<Word>, src: int, branch: bool, es: seq<Expansion>)

  ghost predicate PlanOk(p: PlanRec) {
    && |p.es| == |p.ws| + (if p.branch then 1 else 0) && Expanded(p.es, p.ws, p.src)
    && (p.branch ==> p.es[|p.ws|] == Tail(p.ws, p.src))
  }

  type Plan = p: PlanRec | PlanOk(p) ghost witness PlanRec([], 0, false, [])

  lemma MakePlan(ws: seq<Word>, src: int, branch: bool) returns (plan: Plan)
    ensures plan.ws == ws && plan.src == src && plan.branch == branch
  {
    var es := seq(|ws|, i requires 0 <= i < |ws| => At(ws, src, i));
    plan := PlanRec(ws, src, branch, es + if branch then [Tail(ws, src)] else []);
  }

  predicate AllSound(es: seq<Expansion>) { forall i :: 0 <= i < |es| ==> Sound(es[i]) }

  function Words(e: Expansion): seq<Word> { if e.Abort? then [] else e.code }

  /** The unpatched code of the first i expansions. */
  function Code(es: seq<Expansion>, i: nat): seq<Word> requires i <= |es| {
    if i == 0 then [] else Code(es, i - 1) + Words(es[i - 1])
  }

  /** The pool entries they ask for, in order. */
  function Lits(es: seq<Expansion>, i: nat): seq<Literal> requires i <= |es| {
    if i == 0 then [] else Lits(es, i - 1) + LitOf(es[i - 1], |Code(es, i - 1)|)
  }

  function LitOf(e: Expansion, start: nat): seq<Literal> {
    if e.Pooled? then [Literal(start + e.at, e.value)] else []
  }

  /** The buffer after the first k labels have been bound one after the other. */
  function Bound(code: seq<Word>, lits: seq<Literal>, k: nat): (r: seq<Word>)
    requires k <= |lits|
    ensures |r| == |code| + 2 * k
  {
    if k == 0 then code else Bind(Bound(code, lits, k - 1), lits[k - 1])
  }

  /** The finished image: all code, then the pool. */
  function Image(es: seq<Expansion>): seq<Word> {
    Bound(Code(es, |es|), Lits(es, |es|), |Lits(es, |es|)|)
  }

  function Bind(b: seq<Word>, l: Literal): (r: seq<Word>)
    ensures |r| == |b| + 2
  {
    (if l.at < |b| then b[l.at := EncodeImm19(b[l.at], 4 * (|b| - l.at))] else b)
    + [l.value % TWO32, l.value / TWO32]
  }

  ghost predicate Ordered(lits: seq<Literal>, bound: int) {
    && (forall k :: 0 <= k < |lits| ==> lits[k].at < bound)
    && (forall j, k :: 0 <= j < k < |lits| ==> lits[j].at < lits[k].at)
  }

  /** The load at l.at reaches word q, where the value lies, low word first. */
  ghost predicate PoolEntry(image: seq<Word>, l: Literal, q: nat) {
    && l.at < q && q + 1 < |image|
    && image[l.at] == EncodeImm19(LDR_X17, 4 * (q - l.at))
    && image[q] == l.value % TWO32
    && image[q + 1] == l.value / TWO32
  }

  /** Binding the labels one by one patches every load with the distance to its own literal. */
  lemma {:induction false} BoundEntry(code: seq<Word>, lits: seq<Literal>, n: nat, k: nat)
    requires k < n <= |lits| && Ordered(lits, |code|) && code[lits[k].at] == LDR_X17
    ensures PoolEntry(Bound(code, lits, n), lits[k], |code| + 2 * k)
  {
    var b, l := Bound(code, lits, n - 1), lits[n - 1];
    if k == n - 1 {
      BoundKeeps(code, lits, n - 1, l.at);
    } else {
      BoundEntry(code, lits, n - 1, k);
      assert forall p :: 0 <= p < |b| && p != l.at ==> Bind(b, l)[p] == b[p];
    }
  }

  /** No other word of the code changes. */
  lemma {:induction false} BoundKeeps(code: seq<Word>, lits: seq<Literal>, n: nat, p: nat)
    requires n <= |lits| && p < |code| && forall k :: 0 <= k < n ==> lits[k].at != p
    ensures Bound(code, lits, n)[p] == code[p]
  {
    if n == 0 {
    } else {
      BoundKeeps(code, lits, n - 1, p);
      assert lits[n - 1].at != p;
    }
  }

  lemma CodeNext(es: seq<Expansion>, i: nat)
    requires i < |es|
    ensures |Code(es, i + 1)| == |Code(es, i)| + |Words(es[i])|
    ensures forall q :: 0 <= q < |Code(es, i)| ==> Code(es, i + 1)[q] == Code(es, i)[q]
    ensures forall q {:trigger Words(es[i])[q]} :: 0 <= q < |Words(es[i])| ==> Code(es, i + 1)[|Code(es, i)| + q] == Words(es[i])[q]
  {
  }

  lemma LitsNext(es: seq<Expansion>, i: nat)
    requires i < |es|
    ensures |Lits(es, i + 1)| == |Lits(es, i)| + if es[i].Pooled? then 1 else 0
    ensures forall k :: 0 <= k < |Lits(es, i)| ==> Lits(es, i + 1)[k] == Lits(es, i)[k]
    ensures es[i].Pooled? ==> Lits(es, i + 1)[|Lits(es, i)|] == Literal(|Code(es, i)| + es[i].at, es[i].value)
  {
    hide Code;
  }

  lemma LitsNone(es: seq<Expansion>)
    ensures Lits(es, 0) == []
  {
  }

  /** A literal of the first i expansions names a pool load inside their code. */
  lemma {:induction false} LitInside(es: seq<Expansion>, i: nat, k: nat)
    requires i <= |es| && AllSound(es) && k < |Lits(es, i)|
    ensures Lits(es, i)[k].at < |Code(es, i)| && Code(es, i)[Lits(es, i)[k].at] == LDR_X17
  {
    hide Code, Lits;
    if i == 0 {
      LitsNone(es);
    } else {
      var e := es[i - 1];
      assert Sound(e);
      CodeNext(es, i - 1);
      LitsNext(es, i - 1);
      if k < |Lits(es, i - 1)| {
        LitInside(es, i - 1, k);
      } else {
        assert Words(e)[e.at] == LDR_X17;
      }
    }
  }

  /** Lists of literals only grow, and a literal added after the first i expansions lies behind their code. */
  lemma {:induction false} LitsGrow(es: seq<Expansion>, i: nat, n: nat, k: nat)
    requires i <= n <= |es| && k < |Lits(es, n)|
    ensures |Lits(es, i)| <= |Lits(es, n)| && |Code(es, i)| <= |Code(es, n)|
    ensures k < |Lits(es, i)| ==> Lits(es, n)[k] == Lits(es, i)[k]
    ensures |Lits(es, i)| <= k ==> Lits(es, n)[k].at >= |Code(es, i)|
  {
    if n > i {
      var m := |Lits(es, n - 1)|;
      LitsGrowLength(es, i, n - 1);
      if k < m {
        LitsGrow(es, i, n - 1, k);
        assert Lits(es, n)[k] == Lits(es, n - 1)[k];
      } else {
        assert Lits(es, n)[k] == LitOf(es[n - 1], |Code(es, n - 1)|)[0];
      }
    }
  }

  lemma {:induction false} LitsGrowLength(es: seq<Expansion>, i: nat, n: nat)
    requires i <= n <= |es|
    ensures |Lits(es, i)| <= |Lits(es, n)| && |Code(es, i)| <= |Code(es, n)|
  {
    if n > i {
      LitsGrowLength(es, i, n - 1);
    }
  }

  lemma {:induction false} LitBefore(es: seq<Expansion>, n: nat, j: nat, k: nat)
    requires n <= |es| && AllSound(es) && j < k < |Lits(es, n)|
    ensures Lits(es, n)[j].at < Lits(es, n)[k].at
  {
    var before := Lits(es, n - 1);
    assert forall i :: 0 <= i < |before| ==> Lits(es, n)[i] == before[i];
    if k < |before| {
      LitBefore(es, n - 1, j, k);
    } else {
      assert Lits(es, n)[k] == LitOf(es[n - 1], |Code(es, n - 1)|)[0];
      LitInside(es, n - 1, j);
    }
  }

  lemma LitsOrdered(es: seq<Expansion>)
    requires AllSound(es)
    ensures Ordered(Lits(es, |es|), |Code(es, |es|)|)
  {
    var n := |es|;
    forall k | 0 <= k < |Lits(es, n)| ensures Lits(es, n)[k].at < |Code(es, n)| { LitInside(es, n, k); }
    forall j, k | 0 <= j < k < |Lits(es, n)| ensures Lits(es, n)[j].at < Lits(es, n)[k].at { LitBefore(es, n, j, k); }
  }

  // ----- the assembler -----

  /** RelocLabel: a pool value, its place once bound (0 before), and the loads that wait for it. */
  datatype Label = Label(pos: int, refs: seq<int>, value: U64)

  /** Unbound, and waited for by exactly the load the literal names. */
  function Waiting(lit: Literal): Label { Label(0, [4 * lit.at], lit.value) }

  function Labels(lits: seq<Literal>): (labels: seq<Label>)
    ensures |labels| == |lits|
  {
    if lits == [] then [] else Labels(lits[..|lits| - 1]) + [Waiting(lits[|lits| - 1])]
  }

  lemma {:induction false} LabelsAt(lits: seq<Literal>, k: nat)
    requires k < |lits|
    ensures Labels(lits)[k] == Waiting(lits[k])
  {
    if k < |lits| - 1 {
      LabelsAt(lits[..|lits| - 1], k);
    }
  }

  function LabelsOf(lit: seq<Literal>): seq<Label> requires |lit| <= 1 {
    if lit == [] then [] else [Waiting(lit[0])]
  }

  lemma LabelsAppend(lits: seq<Literal>, more: seq<Literal>)
    requires |more| <= 1
    ensures Labels(lits + more) == Labels(lits) + LabelsOf(more)
  {
    if more == [] {
      assert lits + more == lits;
    } else {
      assert (lits + more)[..|lits|] == lits;
    }
  }

  lemma EncodeImm19Twice(w: Word, offset: int)
    ensures EncodeImm19(EncodeImm19(w, offset), offset) == EncodeImm19(w, offset)
  {
    Fields(Top(w), offset / 4 % 0x8_0000, Low(w));
  }

  class TurboAssembler {
    var buffer: seq<Word>
    var labels: seq<Label>

    constructor ()
      ensures buffer == [] && labels == []
    {
      buffer, labels := [], [];
    }

    method Emit(w: Word)
      modifies this`buffer
      ensures buffer == old(buffer) + [w]
    {
      buffer := buffer + [w];
    }

    method AppendRelocLabel(value: U64) returns (id: nat)
      modifies this`labels
      ensures id == |old(labels)| && labels == old(labels) + [Label(0, [], value)]
    {
      id := |labels|;
      labels := labels + [Label(0, [], value)];
    }

    /** Ldr(X17, label): recorded and emitted with offset 0 while the label has no place, encoded directly otherwise. */
    method Ldr(id: nat)
      requires id < |labels|
      modifies this
      ensures old(labels[id].pos) != 0 ==>
                buffer == old(buffer) + [PlacedLoad(old(labels[id].pos) - 4 * |old(buffer)|)] && labels == old(labels)
      ensures old(labels[id].pos) == 0 ==>
                && buffer == old(buffer) + [LDR_X17]
                && labels == old(labels)[id := old(labels[id]).(refs := old(labels[id].refs) + [4 * |old(buffer)|])]
    {
      if labels[id].pos != 0 {
        Emit(PlacedLoad(labels[id].pos - 4 * |buffer|));
      } else {
        labels := labels[id := labels[id].(refs := labels[id].refs + [4 * |buffer|])];
        Emit(LDR_X17);
      }
    }

    method Mov(rd: Reg, v: U64)
      modifies this`buffer
      ensures buffer == old(buffer) + MovX(rd, v)
    {
      Emit(MovzX(rd, v % 0x1_0000));
      Emit(MovkX(rd, v / 0x1_0000 % 0x1_0000, 1));
      Emit(MovkX(rd, v / 0x1_0000_0000 % 0x1_0000, 2));
      Emit(MovkX(rd, v / 0x1_0000_0000_0000, 3));
    }

    /** AppendRelocLabel, Ldr and a register branch: a jump through the pool. */
    method LdrBranch(value: U64, jump: Word)
      modifies this
      ensures buffer == old(buffer) + [LDR_X17, jump]
      ensures labels == old(labels) + [Waiting(Literal(|old(buffer)|, value))]
    {
      var id := AppendRelocLabel(value);
      Ldr(id);
      Emit(jump);
      assert labels[id].refs == [4 * |old(buffer)|];
    }

    /** The body of the relocation loop for the word at `pc`. */
    method RelocateWord(w: Word, pc: int, ghost e: Expansion) returns (ok: bool)
      requires e == Expand(w, pc)
      modifies this
      ensures ok == Sound(e)
      ensures ok ==> buffer == old(buffer) + e.code && labels == old(labels) + LabelsOf(LitOf(e, |old(buffer)|))
    {
      hide MovX, Inverted, LdrFromScratch, Target, Imm26, Imm21, Imm19, Imm14;
      ok := true;
      if IsBBl(Top(w)) {
        LdrBranch(Target(pc, Imm26(w)), if Top(w) >= 0x80 then BLR_X17 else BR_X17);
      } else if IsLdrLiteral(Top(w)) {
        if Top(w) < 0x80 {
          Mov(SCRATCH, Target(pc, Imm19(w)));
          Emit(LdrFromScratch(Low(w)));
        } else {
          ok := false;
        }
      } else if IsAdr(Top(w)) {
        Mov(Low(w), Target(pc, Imm21(w)));
      } else if IsAdrp(Top(w)) {
        Mov(Low(w), Target(pc, Imm21(w) * 4096) / 4096 * 4096);
      } else if IsBCond(Top(w)) {
        ShortBranch(Inverted(w, CondKind), Target(pc, Imm19(w)));
      } else if IsCompareB(Top(w)) {
        ShortBranch(Inverted(w, CompareKind), Target(pc, Imm19(w)));
      } else if IsTestB(Top(w)) {
        ShortBranch(Inverted(w, TestKind), Target(pc, Imm14(w)));
      } else {
        Emit(w);
      }
    }

    /** The inverted branch, then the jump through the pool it skips. */
    method ShortBranch(inverted: Word, value: U64)
      modifies this
      ensures buffer == old(buffer) + [inverted, LDR_X17, BR_X17]
      ensures labels == old(labels) + [Waiting(Literal(|old(buffer)| + 1, value))]
    {
      Emit(inverted);
      LdrBranch(value, BR_X17);
    }

    /** The assembler holds exactly what the first i expansions ask for. */
    ghost predicate Holds(es: seq<Expansion>, i: nat)
      requires i <= |es|
      reads this
    {
      buffer == Code(es, i) && labels == Labels(Lits(es, i))
    }

    method RelocateNext(ghost plan: Plan, w: Word, pc: int, ghost i: nat) returns (ok: bool)
      requires i < |plan.ws| && w == plan.ws[i] && pc == plan.src + 4 * i && Holds(plan.es, i)
      modifies this
      ensures ok == Sound(plan.es[i])
      ensures ok ==> Holds(plan.es, i + 1)
    {
      hide Expand;
      ghost var es := plan.es;
      assert es[i] == At(plan.ws, plan.src, i);
      LabelsAppend(Lits(es, i), LitOf(es[i], |Code(es, i)|));
      ok := RelocateWord(w, pc, es[i]);
    }

    /** PseudoBind and link_confused_instructions: the label is placed at the end of the buffer
        and every waiting load gets the distance to it. */
    method PseudoBind(id: nat)
      requires id < |labels|
      requires forall j :: 0 <= j < |labels[id].refs| ==> 0 <= labels[id].refs[j] < 4 * |buffer| && labels[id].refs[j] % 4 == 0
      modifies this
      ensures labels == old(labels)[id := old(labels[id]).(pos := 4 * |old(buffer)|)]
      ensures |buffer| == |old(buffer)|
      ensures forall p :: 0 <= p < |buffer| ==>
                buffer[p] == if 4 * p in old(labels[id].refs)
                             then EncodeImm19(old(buffer)[p], 4 * (|old(buffer)| - p)) else old(buffer)[p]
    {
      var n := |buffer|;
      var refs := labels[id].refs;
      labels := labels[id := labels[id].(pos := 4 * n)];
      var j := 0;
      while j < |refs|
        invariant 0 <= j <= |refs|
        invariant |buffer| == n && labels == old(labels)[id := old(labels[id]).(pos := 4 * n)]
        invariant forall p :: 0 <= p < n ==>
                    buffer[p] == if 4 * p in refs[..j] then EncodeImm19(old(buffer)[p], 4 * (n - p)) else old(buffer)[p]
      {
        var q := refs[j] / 4;
        EncodeImm19Twice(old(buffer)[q], 4 * (n - q));
        assert refs[j] == 4 * q;
        assert refs[..j + 1] == refs[..j] + [4 * q];
        buffer := buffer[q := EncodeImm19(buffer[q], 4 * n - refs[j])];
        j := j + 1;
      }
      assert refs[..j] == refs;
    }

    /** RelocBind: each label in turn is bound and its eight bytes are appended. */
    method RelocBind(ghost lits: seq<Literal>)
      requires labels == Labels(lits) && Ordered(lits, |buffer|)
      modifies this
      ensures buffer == Bound(old(buffer), lits, |lits|)
    {
      var k := 0;
      while k < |labels|
        invariant 0 <= k <= |labels| == |lits|
        invariant forall j :: k <= j < |lits| ==> labels[j] == Labels(lits)[j]
        invariant buffer == Bound(old(buffer), lits, k)
      {
        LabelsAt(lits, k);
        BindNext(k, lits[k]);
        k := k + 1;
      }
    }

    /** The branch to the first word after the copied ones. */
    method LiteralLdrBranch(ghost es: seq<Expansion>, address: U64)
      requires |es| > 0 && es[|es| - 1] == Pooled([LDR_X17, BR_X17], 0, address) && Holds(es, |es| - 1)
      modifies this
      ensures Holds(es, |es|)
    {
      LabelsAppend(Lits(es, |es| - 1), LitOf(es[|es| - 1], |Code(es, |es| - 1)|));
      LdrBranch(address, BR_X17);
    }

    method Seal(ghost es: seq<Expansion>)
      requires Holds(es, |es|) && AllSound(es)
      modifies this
      ensures buffer == Image(es)
    {
      LitsOrdered(es);
      RelocBind(Lits(es, |es|));
    }

    method BindNext(k: nat, ghost lit: Literal)
      requires k < |labels| && labels[k] == Waiting(lit) && lit.at < |buffer|
      modifies this
      ensures buffer == Bind(old(buffer), lit)
      ensures |labels| == |old(labels)| && forall j :: 0 <= j < |labels| && j != k ==> labels[j] == old(labels)[j]
    {
      PseudoBindOne(k, lit.at);
      var value := labels[k].value;
      Emit(value % TWO32);
      Emit(value / TWO32);
    }

    /** A label with a single waiting load. */
    method PseudoBindOne(k: nat, ghost at: nat)
      requires k < |labels| && labels[k].refs == [4 * at] && at < |buffer|
      modifies this
      ensures buffer == old(buffer)[at := EncodeImm19(old(buffer)[at], 4 * (|old(buffer)| - at))]
      ensures labels == old(labels)[k := old(labels[k]).(pos := 4 * |old(buffer)|)]
    {
      PseudoBind(k);
    }
  }

  /** relo_relocate's loop. `ok` is false when a literal load with opc 2 (LDRSW, 128-bit SIMD) or 3 (PRFM) is met, where
      the program aborts. The 32- and 64-bit SIMD loads have opc 0 and 1 and are taken for W and X loads. */
  method RelocateAll(a: TurboAssembler, ws: seq<Word>, src: int, ghost plan: Plan) returns (ok: bool)
    requires plan.ws == ws && plan.src == src && a.Holds(plan.es, 0)
    modifies a
    ensures ok == forall i :: 0 <= i < |ws| ==> Sound(plan.es[i])
    ensures ok ==> a.Holds(plan.es, |ws|)
  {
    hide Sound, TurboAssembler.Holds;
    var i := 0;
    while i < |ws|
      invariant 0 <= i <= |ws|
      invariant forall j :: 0 <= j < i ==> Sound(plan.es[j])
      invariant a.Holds(plan.es, i)
    {
      var fine := a.RelocateNext(plan, ws[i], src + 4 * i, i);
      if !fine {
        return false;
      }
      i := i + 1;
    }
    ok := true;
  }

  /** relo_relocate: the image is that of the relocation of the words, and it fails exactly where it must. */
  method Relocate(ws: seq<Word>, src: int, branch: bool) returns (ok: bool, image: seq<Word>, ghost plan: Plan)
    ensures plan.ws == ws && plan.src == src && plan.branch == branch
    ensures ok <==> forall i :: 0 <= i < |ws| ==> !IsUnsupportedLiteral(ws[i])
    ensures ok ==> AllSound(plan.es) && image == Image(plan.es)
  {
    var a := new TurboAssembler();
    image := [];
    plan := MakePlan(ws, src, branch);
    AbortCondition(plan);
    ok := RelocateAll(a, ws, src, plan);
    if ok {
      TailSound(plan);
      if branch {
        a.LiteralLdrBranch(plan.es, Target(src, 4 * |ws|));
      }
      a.Seal(plan.es);
      image := a.buffer;
    }
  }

  /** An S or D literal load is relocated as if it loaded a general-purpose register. */
  lemma SimdTaken(w: Word, pc: int)
    requires Top(w) == 0x1C || Top(w) == 0x5C
    ensures Decode(w) == Other(w) && Decode(LdrFromScratch(Low(w))) == LdrX(Low(w), SCRATCH, 0)
    ensures Expand(w, pc) == Plain(MovX(SCRATCH, Target(pc, Imm19(w))) + [LdrFromScratch(Low(w))])
  {
    Fields(0xF9, 0x2_0000 + SCRATCH, Low(w));
  }

  /** Literal loads with opc 2 or 3. */
  predicate IsUnsupportedLiteral(w: Word) { Classify(w).LdrLit? && Top(w) >= 0x80 }

  lemma TailSound(plan: Plan)
    requires forall i :: 0 <= i < |plan.ws| ==> Sound(plan.es[i])
    ensures AllSound(plan.es)
  {
  }

  lemma AbortCondition(plan: Plan)
    ensures (forall i :: 0 <= i < |plan.ws| ==> Sound(plan.es[i])) <==>
            (forall i :: 0 <= i < |plan.ws| ==> !IsUnsupportedLiteral(plan.ws[i]))
  {
    forall i | 0 <= i < |plan.ws| ensures Sound(plan.es[i]) <==> !IsUnsupportedLiteral(plan.ws[i]) {
      assert plan.es[i] == At(plan.ws, plan.src, i);
    }
  }
}
