/**
  The relocated prologue does what the original does: a simulation between the
  machine running the copied words at `src` and the machine running the image at
  `dst`, up to the scratch register X17 and, after a call, the return address.
 */
module RelocationSim {
  import opened A64
  import opened Relocator

  // ----- where the image keeps each expansion -----

  lemma {:induction false} CodeAt(es: seq<Expansion>, i: nat, n: nat, j: nat)
    requires i < n <= |es| && j < |Words(es[i])|
    ensures |Code(es, i)| + |Words(es[i])| <= |Code(es, n)|
    ensures Code(es, n)[|Code(es, i)| + j] == Words(es[i])[j]
  {
    hide Code;
    CodeNext(es, n - 1);
    if n > i + 1 {
      CodeAt(es, i, n - 1, j);
    } else {
      assert Code(es, n)[|Code(es, i)| + j] == Words(es[i])[j];
    }
  }

  /** Word j of expansion i is a pool load only if the expansion says so. */
  lemma NotALiteral(es: seq<Expansion>, i: nat, j: nat, k: nat)
    requires AllSound(es) && i < |es| && j < |Words(es[i])| && !(es[i].Pooled? && j == es[i].at)
    requires k < |Lits(es, |es|)|
    ensures Lits(es, |es|)[k].at != |Code(es, i)| + j
  {
    hide Code, Lits, AllSound;
    LitsGrow(es, i, |es|, k);
    LitsGrow(es, i + 1, |es|, k);
    CodeNext(es, i);
    LitsNext(es, i);
    if k < |Lits(es, i)| { LitInside(es, i, k); }
  }

  lemma PlainWordAt(es: seq<Expansion>, i: nat, j: nat)
    requires AllSound(es) && i < |es| && j < |Words(es[i])| && !(es[i].Pooled? && j == es[i].at)
    ensures |Code(es, i)| + j < |Image(es)| && Image(es)[|Code(es, i)| + j] == Words(es[i])[j]
  {
    CodeAt(es, i, |es|, j);
    var lits, p := Lits(es, |es|), |Code(es, i)| + j;
    forall k | 0 <= k < |lits| ensures lits[k].at != p { NotALiteral(es, i, j, k); }
    BoundKeeps(Code(es, |es|), lits, |lits|, p);
  }

  lemma PoolLiteral(es: seq<Expansion>, i: nat)
    requires AllSound(es) && i < |es| && es[i].Pooled?
    ensures var m, lits := |Lits(es, i)|, Lits(es, |es|);
            m < |lits| && lits[m] == Literal(|Code(es, i)| + es[i].at, es[i].value)
  {
    LitsGrowLength(es, i + 1, |es|);
    LitsGrow(es, i + 1, |es|, |Lits(es, i)|);
    assert Lits(es, i + 1)[|Lits(es, i)|] == LitOf(es[i], |Code(es, i)|)[0];
  }

  /** Every pool load is patched to reach exactly its own literal. */
  lemma PoolEntries(es: seq<Expansion>, k: nat)
    requires AllSound(es) && k < |Lits(es, |es|)|
    ensures PoolEntry(Image(es), Lits(es, |es|)[k], |Code(es, |es|)| + 2 * k)
  {
    LitInside(es, |es|, k);
    LitsOrdered(es);
    BoundEntry(Code(es, |es|), Lits(es, |es|), |Lits(es, |es|)|, k);
  }

  /** Code and pool together take at most five words for each copied word. */
  lemma {:induction false} SizeBound(es: seq<Expansion>, i: nat)
    requires i <= |es| && forall j :: 0 <= j < i ==> Small(es[j])
    ensures |Code(es, i)| + 2 * |Lits(es, i)| <= 5 * i
  {
    if i == 0 {
    } else {
      SizeBound(es, i - 1);
      assert Small(es[i - 1]);
    }
  }

  predicate Small(e: Expansion) {
    match e
    case Abort => true
    case Plain(code) => |code| <= 5
    case Pooled(code, _, _) => |code| <= 3
  }

  lemma ExpandSmall(w: Word, pc: int)
    ensures Small(Expand(w, pc))
  {
  }

  lemma ImageSize(plan: Plan)
    requires AllSound(plan.es)
    ensures 4 * |Image(plan.es)| <= 20 * |plan.ws| + 16
  {
    var n := |plan.ws|;
    forall j | 0 <= j < n ensures Small(plan.es[j]) {
      assert plan.es[j] == At(plan.ws, plan.src, j);
      ExpandSmall(plan.ws[j], plan.src + 4 * j);
    }
    SizeBound(plan.es, n);
  }

  // ----- running pieces of the image -----

  ghost predicate Loaded(mem: int -> Word, image: seq<Word>, dst: int) {
    forall q :: 0 <= q < |image| ==> mem(dst + 4 * q) == image[q]
  }

  /** The machine of the relocated code about to run word p of the image. */
  ghost function AtWord(dst: int, p: nat, c: Core): Cpu { Cpu(dst + 4 * p, c) }

  lemma OneStep(isa: Isa, prog: seq<Inst>, dst: int, p: nat, c: Core, n: nat)
    requires p < |prog|
    ensures RunN(isa, prog, dst, AtWord(dst, p, c), n + 1)
         == RunN(isa, prog, dst, After(Exec(isa, prog[p], dst + 4 * p, c), dst + 4 * p), n)
  {
    assert (dst + 4 * p - dst) / 4 == p;
  }

  lemma LdrDecodes(d: nat)
    requires 0 < d < 0x4_0000
    ensures Decode(EncodeImm19(LDR_X17, 4 * d)) == LdrLiteral(true, SCRATCH, 4 * d)
  {
    assert 4 * d / 4 == d && d % 0x8_0000 == d;
    assert Top(LDR_X17) == 0x58 && Low(LDR_X17) == SCRATCH;
    assert EncodeImm19(LDR_X17, 4 * d) == Make(0x58, d, SCRATCH);
    Fields(0x58, d, SCRATCH);
  }

  lemma JumpDecodes()
    ensures Decode(BR_X17) == Br(SCRATCH) && Decode(BLR_X17) == Blr(SCRATCH)
  {
  }

  lemma Halves(v: U64)
    ensures v % TWO32 + v / TWO32 * TWO32 == v && 0 <= v / TWO32 < TWO32
  {
  }

  /** A pool load puts its own literal into X17. */
  lemma LoadRuns(isa: Isa, image: seq<Word>, dst: int, p: nat, q: nat, v: U64, c: Core)
    requires p < q && q + 1 < |image| && image[q] == v % TWO32 && image[q + 1] == v / TWO32
    requires 0 <= dst && dst + 4 * |image| <= TWO64 && Loaded(c.mem, image, dst)
    ensures Exec(isa, LdrLiteral(true, SCRATCH, 4 * (q - p)), dst + 4 * p, c) == Effect(SetX(c, SCRATCH, v), Next)
  {
    Halves(v);
    var a := dst + 4 * q;
    assert (dst + 4 * p + 4 * (q - p)) % TWO64 == a;
    assert c.mem(dst + 4 * q) == image[q] && c.mem(dst + 4 * (q + 1)) == image[q + 1];
    assert (a + 4) % TWO64 == dst + 4 * (q + 1);
    assert Load64(c.mem, a) == v;
  }

  /** A word that goes on to the next one. */
  lemma StraightRuns(isa: Isa, prog: seq<Inst>, dst: int, p: nat, c: Core, d: Core, n: nat)
    requires p < |prog| && Exec(isa, prog[p], dst + 4 * p, c) == Effect(d, Next)
    ensures RunN(isa, prog, dst, AtWord(dst, p, c), n + 1) == RunN(isa, prog, dst, AtWord(dst, p + 1, d), n)
  {
    hide Exec, RunN;
    OneStep(isa, prog, dst, p, c, n);
  }

  lemma JumpEffect(isa: Isa, i: Inst, pc: int, v: U64, c: Core)
    requires i == Br(SCRATCH) || i == Blr(SCRATCH)
    ensures Exec(isa, i, pc, SetX(c, SCRATCH, v)) == Effect(SetX(c, SCRATCH, v), if i.Br? then Jump(v) else Call(v))
  {
    assert Get(SetX(c, SCRATCH, v).x, SCRATCH) == v;
  }

  /** A jump through the pool lands on the pooled address. */
  lemma PoolJumpRuns(isa: Isa, prog: seq<Inst>, image: seq<Word>, dst: int, p: nat, q: nat, v: U64, c: Core)
    requires |prog| == |image| && p + 1 < q && q + 1 < |image| && image[q] == v % TWO32 && image[q + 1] == v / TWO32
    requires 0 <= dst && dst + 4 * |image| <= TWO64 && Loaded(c.mem, image, dst)
    requires prog[p] == LdrLiteral(true, SCRATCH, 4 * (q - p))
    requires prog[p + 1] == Br(SCRATCH) || prog[p + 1] == Blr(SCRATCH)
    ensures var c' := SetX(c, SCRATCH, v);
            RunN(isa, prog, dst, AtWord(dst, p, c), 2)
            == Cpu(v, if prog[p + 1].Br? then c' else SetX(c', 30, (dst + 4 * (p + 2)) % TWO64))
  {
    hide Exec, Loaded;
    var c' := SetX(c, SCRATCH, v);
    LoadRuns(isa, image, dst, p, q, v, c);
    StraightRuns(isa, prog, dst, p, c, c', 1);
    JumpEffect(isa, prog[p + 1], dst + 4 * (p + 1), v, c);
    OneStep(isa, prog, dst, p + 1, c', 0);
  }

  lemma MovzDecodes(rd: Reg, imm: Imm16)
    ensures Decode(MovzX(rd, imm)) == Movz(rd, imm, 0)
  {
    Fields(0xD2, 0x4_0000 + imm, rd);
  }

  lemma LaneField(imm: Imm16, lane: Lane)
    ensures var mid := 0x4_0000 + lane * 0x1_0000 + imm; mid % 0x1_0000 == imm && mid / 0x1_0000 - 4 == lane
  {
  }

  lemma MovkDecodes(rd: Reg, imm: Imm16, lane: Lane)
    ensures Decode(MovkX(rd, imm, lane)) == Movk(rd, imm, lane)
  {
    hide Make, Top, Mid, Low;
    LaneField(imm, lane);
    Fields(0xF2, 0x4_0000 + lane * 0x1_0000 + imm, rd);
  }

  lemma LdrFromScratchDecodes(rt: Reg)
    ensures Decode(LdrFromScratch(rt)) == LdrX(rt, SCRATCH, 0)
  {
    Fields(0xF9, 0x2_0000 + SCRATCH, rt);
  }

  lemma LowLanes(a: U64, h: Imm16)
    ensures SetLane(0, 0, h) == h
    ensures a < 0x1_0000 ==> SetLane(a, 1, h) == a + h * 0x1_0000
    ensures a < 0x1_0000_0000 ==> SetLane(a, 2, h) == a + h * 0x1_0000_0000
    ensures a < 0x1_0000_0000_0000 ==> SetLane(a, 3, h) == a + h * 0x1_0000_0000_0000
  {
  }

  lemma LaneSum(v: U64)
    ensures v == v % 0x1_0000 + v / 0x1_0000 % 0x1_0000 * 0x1_0000
                 + v / 0x1_0000_0000 % 0x1_0000 * 0x1_0000_0000 + v / 0x1_0000_0000_0000 * 0x1_0000_0000_0000
  {
    assert v / 0x1_0000_0000 == v / 0x1_0000 / 0x1_0000;
    assert v / 0x1_0000_0000_0000 == v / 0x1_0000_0000 / 0x1_0000;
  }

  lemma MovzEffect(isa: Isa, pc: int, rd: Reg, h: Imm16, c: Core)
    ensures Exec(isa, Movz(rd, h, 0), pc, c) == Effect(SetX(c, rd, h), Next)
  {
  }

  lemma MovkEffect(isa: Isa, pc: int, rd: Reg, a: U64, h: Imm16, lane: Lane, b: U64, c: Core)
    requires b == SetLane(a, lane, h)
    ensures Exec(isa, Movk(rd, h, lane), pc, SetX(c, rd, a)) == Effect(SetX(c, rd, b), Next)
  {
    assert rd != 31 ==> Get(SetX(c, rd, a).x, rd) == a;
    assert rd == 31 ==> SetX(c, rd, a) == c == SetX(c, rd, b);
    assert SetX(SetX(c, rd, a), rd, b) == SetX(c, rd, b);
  }

  lemma FourRun(isa: Isa, prog: seq<Inst>, dst: int, p: nat, c: Core, c1: Core, c2: Core, c3: Core, c4: Core, n: nat)
    requires p + 4 <= |prog|
    requires Exec(isa, prog[p], dst + 4 * p, c) == Effect(c1, Next)
    requires Exec(isa, prog[p + 1], dst + 4 * (p + 1), c1) == Effect(c2, Next)
    requires Exec(isa, prog[p + 2], dst + 4 * (p + 2), c2) == Effect(c3, Next)
    requires Exec(isa, prog[p + 3], dst + 4 * (p + 3), c3) == Effect(c4, Next)
    ensures RunN(isa, prog, dst, AtWord(dst, p, c), n + 4) == RunN(isa, prog, dst, AtWord(dst, p + 4, c4), n)
  {
    hide Exec;
    StraightRuns(isa, prog, dst, p, c, c1, n + 3);
    StraightRuns(isa, prog, dst, p + 1, c1, c2, n + 2);
    StraightRuns(isa, prog, dst, p + 2, c2, c3, n + 1);
    StraightRuns(isa, prog, dst, p + 3, c3, c4, n);
  }

  /** The MOVZ/MOVK chain leaves exactly the address in its register. */
  lemma MovRuns(isa: Isa, prog: seq<Inst>, dst: int, p: nat, rd: Reg, v: U64, c: Core, n: nat)
    requires p + 4 <= |prog|
    requires prog[p] == Movz(rd, v % 0x1_0000, 0) && prog[p + 1] == Movk(rd, v / 0x1_0000 % 0x1_0000, 1)
    requires prog[p + 2] == Movk(rd, v / 0x1_0000_0000 % 0x1_0000, 2) && prog[p + 3] == Movk(rd, v / 0x1_0000_0000_0000, 3)
    ensures RunN(isa, prog, dst, AtWord(dst, p, c), n + 4) == RunN(isa, prog, dst, AtWord(dst, p + 4, SetX(c, rd, v)), n)
  {
    var h0: int, h1: int, h2: int, h3: int :=
      v % 0x1_0000, v / 0x1_0000 % 0x1_0000, v / 0x1_0000_0000 % 0x1_0000, v / 0x1_0000_0000_0000;
    var v1: int := h0 + h1 * 0x1_0000;
    var v2: int := v1 + h2 * 0x1_0000_0000;
    LaneSum(v);
    LowLanes(h0, h1);
    LowLanes(v1, h2);
    LowLanes(v2, h3);
    MovzEffect(isa, dst + 4 * p, rd, h0, c);
    MovkEffect(isa, dst + 4 * (p + 1), rd, h0, h1, 1, v1, c);
    MovkEffect(isa, dst + 4 * (p + 2), rd, v1, h2, 2, v2, c);
    MovkEffect(isa, dst + 4 * (p + 3), rd, v2, h3, 3, v, c);
    FourRun(isa, prog, dst, p, c, SetX(c, rd, h0), SetX(c, rd, v1), SetX(c, rd, v2), SetX(c, rd, v), n);
  }

  // ----- one word -----

  /** Equal up to the scratch register. */
  ghost predicate Same(c: Core, d: Core) {
    && c.flags == d.flags && c.mem == d.mem && c.rest == d.rest
    && forall r :: 0 <= r < 31 && r != SCRATCH ==> c.x[r] == d.x[r]
  }

  /** The relocated machine t has caught up with effect e: the same registers, flags and memory, and the same
      next location. After a call the return address is the relocated successor instead. */
  ghost predicate CaughtUp(e: Effect, t: Cpu, dst: int, next: nat) {
    match e.flow
    case Next => t.pc == dst + 4 * next && Same(e.core, t.core)
    case Jump(a) => t.pc == a && Same(e.core, t.core)
    case Call(a) =>
      && t.pc == a && t.core.x[30] == (dst + 4 * next) % TWO64
      && Same(SetX(e.core, 30, 0), SetX(t.core, 30, 0))
  }

  predicate Supported(w: Word) {
    && (Classify(w).CondKind? ==> Top(w) == 0x54 && Low(w) < 14)
    && (Classify(w).LdrLit? ==> Top(w) == 0x58)
  }

  function Flip(i: Inst): Inst {
    match i
    case BCond(cond, _) => BCond(if cond % 2 == 0 then cond + 1 else cond - 1, 12)
    case CompareB(wide, rt, nz, _) => CompareB(wide, rt, !nz, 12)
    case TestB(bitNo, rt, one, _) => TestB(bitNo, rt, !one, 12)
    case _ => i
  }

  lemma MakeBCond(mid: int, low: int)
    requires 0 <= mid < 0x8_0000 && 0 <= low < 0x10
    ensures Decode(Make(0x54, mid, low)) == BCond(low, Signed(mid, 0x8_0000) * 4)
  {
    Fields(0x54, mid, low);
  }

  lemma MakeCompareB(top: int, mid: int, low: int)
    requires IsCompareB(top) && AreFields(top, mid, low)
    ensures Decode(Make(top, mid, low)) == CompareB(top >= 0x80, low, top == 0x35 || top == 0xB5, Signed(mid, 0x8_0000) * 4)
  {
    Fields(top, mid, low);
  }

  lemma MakeTestB(top: int, mid: int, low: int)
    requires IsTestB(top) && AreFields(top, mid, low)
    ensures Decode(Make(top, mid, low))
         == TestB((if top >= 0x80 then 32 else 0) + mid / 0x4000, low, top == 0x37 || top == 0xB7, Signed(mid % 0x4000, 0x4000) * 4)
  {
    Fields(top, mid, low);
  }

  lemma InvertedCond(w: Word)
    requires Top(w) == 0x54 && Low(w) < 14
    ensures 0 <= Flipped(Low(w)) < 14 && Inverted(w, CondKind) == Make(0x54, 3, Flipped(Low(w)))
  {
    Fields(0x54, Mid(w), Flipped(Low(w)));
  }

  lemma BCondInverts(w: Word)
    requires Top(w) == 0x54 && Low(w) < 14
    ensures Decode(Inverted(w, CondKind)) == Flip(Decode(w)) && Decode(w) == BCond(Low(w), Imm19(w))
  {
    InvertedCond(w);
    MakeBCond(3, Flipped(Low(w)));
    Unmake(w);
    MakeBCond(Mid(w), Low(w));
  }

  lemma InvertedCompare(w: Word)
    requires IsCompareB(Top(w))
    ensures IsCompareB(Flipped(Top(w))) && Inverted(w, CompareKind) == Make(Flipped(Top(w)), 3, Low(w))
  {
    Fields(Flipped(Top(w)), Mid(w), Low(w));
  }

  lemma CompareBInverts(w: Word)
    requires IsCompareB(Top(w))
    ensures Decode(Inverted(w, CompareKind)) == Flip(Decode(w)) && Decode(w).CompareB? && Decode(w).offset == Imm19(w)
  {
    InvertedCompare(w);
    MakeCompareB(Flipped(Top(w)), 3, Low(w));
    Unmake(w);
    MakeCompareB(Top(w), Mid(w), Low(w));
  }

  lemma InvertedTest(w: Word)
    requires IsTestB(Top(w))
    ensures IsTestB(Flipped(Top(w)))
    ensures Inverted(w, TestKind) == Make(Flipped(Top(w)), Mid(w) / 0x4000 * 0x4000 + 3, Low(w))
  {
    Fields(Flipped(Top(w)), Mid(w), Low(w));
  }

  lemma TestBInverts(w: Word)
    requires IsTestB(Top(w))
    ensures Decode(Inverted(w, TestKind)) == Flip(Decode(w)) && Decode(w).TestB? && Decode(w).offset == Imm14(w)
  {
    hide Decode, Make;
    var mid := Mid(w) / 0x4000 * 0x4000 + 3;
    InvertedTest(w);
    assert mid % 0x4000 == 3 && mid / 0x4000 == Mid(w) / 0x4000;
    MakeTestB(Flipped(Top(w)), mid, Low(w));
    Unmake(w);
    MakeTestB(Top(w), Mid(w), Low(w));
  }

  /** The inverted branch is taken exactly when the original is not. Condition codes 14 and 15 are their
      own "opposite": both always hold. */
  lemma InversionExact(cond: nat)
    requires cond < 16
    ensures cond < 14 <==> forall f: Flags :: Holds(Flip(BCond(cond, 0)).cond, f) != Holds(cond, f)
  {
    if cond >= 14 {
      assert Holds(Flip(BCond(cond, 0)).cond, Flags(true, true, true, true)) == Holds(cond, Flags(true, true, true, true));
    }
  }

  lemma FlipTaken(i: Inst, c: Core)
    requires i.CompareB? || i.TestB? || (i.BCond? && i.cond < 14)
    ensures Taken(Flip(i), c) != Taken(i, c)
  {
    if i.BCond? {
      InversionExact(i.cond);
    }
  }

  /** Instructions the relocator copies do not see where they run. */
  predicate PcFree(i: Inst) { i.Movz? || i.Movk? || i.LdrX? || i.Br? || i.Blr? || i.Other? }

  lemma CopiedIsPcFree(w: Word)
    requires Classify(w).Plainly?
    ensures PcFree(Decode(w))
  {
  }

  lemma AdrpTarget(pc: int, pages: int)
    requires 0 <= pc < TWO64
    ensures Target(pc, pages * 4096) / 4096 * 4096 == (pc / 4096 * 4096 + pages * 4096) % TWO64
  {
    var a, r := pc / 4096, pc % 4096;
    assert pc + pages * 4096 == (a + pages) * 4096 + r;
    var n := 0x10_0000_0000_0000;
    var k, m := (a + pages) / n, (a + pages) % n;
    assert (a + pages) * 4096 + r == k * TWO64 + (m * 4096 + r);
    assert ((a + pages) * 4096 + r) % TWO64 == m * 4096 + r;
    assert ((a + pages) * 4096) % TWO64 == m * 4096;
  }

  /** A pool jump laid out at p, its literal v at q. */
  ghost predicate PoolJump(prog: seq<Inst>, image: seq<Word>, p: nat, q: nat, v: U64) {
    && |prog| == |image| && p + 1 < q && q + 1 < |image| && image[q] == v % TWO32 && image[q + 1] == v / TWO32
    && prog[p] == LdrLiteral(true, SCRATCH, 4 * (q - p))
  }

  ghost predicate Mapped(image: seq<Word>, dst: int, mem: int -> Word) {
    0 <= dst && dst + 4 * |image| <= TWO64 && Loaded(mem, image, dst)
  }

  lemma SimB(isa: Isa, prog: seq<Inst>, image: seq<Word>, dst: int, i: Inst, pc: int, p: nat, q: nat, c: Core)
    requires i.B? && PoolJump(prog, image, p, q, Target(pc, i.offset)) && Mapped(image, dst, c.mem)
    requires prog[p + 1] == if i.link then Blr(SCRATCH) else Br(SCRATCH)
    ensures CaughtUp(Exec(isa, i, pc, c), RunN(isa, prog, dst, AtWord(dst, p, c), 2), dst, p + 2)
  {
    PoolJumpRuns(isa, prog, image, dst, p, q, Target(pc, i.offset), c);
  }

  predicate ShortBranch(i: Inst) { i.CompareB? || i.TestB? || (i.BCond? && i.cond < 14) }

  lemma TakenEffect(isa: Isa, i: Inst, pc: int, c: Core)
    requires ShortBranch(i)
    ensures Exec(isa, i, pc, c) == Effect(c, if Taken(i, c) then Jump(Target(pc, i.offset)) else Next)
  {
  }

  lemma JumpSame(c: Core, v: U64, dst: int, next: nat)
    ensures CaughtUp(Effect(c, Jump(v)), Cpu(v, SetX(c, SCRATCH, v)), dst, next)
  {
  }

  lemma LdrSame(c: Core, rt: Reg, a: U64, v: U64, dst: int, next: nat)
    ensures CaughtUp(Effect(SetX(c, rt, v), Next), AtWord(dst, next, SetX(SetX(c, SCRATCH, a), rt, v)), dst, next)
  {
  }

  lemma FallsThrough(isa: Isa, prog: seq<Inst>, dst: int, i: Inst, p: nat, c: Core)
    requires ShortBranch(i) && Taken(i, c) && p < |prog| && prog[p] == Flip(i)
    ensures RunN(isa, prog, dst, AtWord(dst, p, c), 3) == RunN(isa, prog, dst, AtWord(dst, p + 1, c), 2)
  {
    FlipTaken(i, c);
    assert Exec(isa, Flip(i), dst + 4 * p, c) == Effect(c, Next);
    OneStep(isa, prog, dst, p, c, 2);
  }

  /** Taken: the inverted branch falls through to the pool jump. */
  lemma SimTaken(isa: Isa, prog: seq<Inst>, image: seq<Word>, dst: int, i: Inst, pc: int, p: nat, q: nat, c: Core)
    requires ShortBranch(i) && Taken(i, c)
    requires PoolJump(prog, image, p + 1, q, Target(pc, i.offset)) && Mapped(image, dst, c.mem)
    requires prog[p] == Flip(i) && prog[p + 2] == Br(SCRATCH)
    ensures CaughtUp(Exec(isa, i, pc, c), RunN(isa, prog, dst, AtWord(dst, p, c), 3), dst, p + 3)
  {
    var v := Target(pc, i.offset);
    FallsThrough(isa, prog, dst, i, p, c);
    PoolJumpRuns(isa, prog, image, dst, p + 1, q, v, c);
    TakenEffect(isa, i, pc, c);
    JumpSame(c, v, dst, p + 3);
  }

  /** Not taken: the inverted branch skips the pool jump. */
  lemma SimNotTaken(isa: Isa, prog: seq<Inst>, dst: int, i: Inst, pc: int, p: nat, c: Core)
    requires ShortBranch(i) && !Taken(i, c)
    requires p + 3 <= |prog| && 0 <= dst && dst + 4 * (p + 3) < TWO64 && prog[p] == Flip(i)
    ensures CaughtUp(Exec(isa, i, pc, c), RunN(isa, prog, dst, AtWord(dst, p, c), 1), dst, p + 3)
  {
    FlipTaken(i, c);
    assert (dst + 4 * p + 12) % TWO64 == dst + 4 * (p + 3);
    assert Exec(isa, Flip(i), dst + 4 * p, c) == Effect(c, Jump(dst + 4 * (p + 3)));
    OneStep(isa, prog, dst, p, c, 0);
  }

  ghost predicate MovChain(prog: seq<Inst>, p: nat, rd: Reg, v: U64) {
    && p + 4 <= |prog|
    && prog[p] == Movz(rd, v % 0x1_0000, 0) && prog[p + 1] == Movk(rd, v / 0x1_0000 % 0x1_0000, 1)
    && prog[p + 2] == Movk(rd, v / 0x1_0000_0000 % 0x1_0000, 2) && prog[p + 3] == Movk(rd, v / 0x1_0000_0000_0000, 3)
  }

  function AdrTarget(i: Inst, pc: int): U64 requires i.Adr? || i.Adrp? {
    if i.Adr? then Target(pc, i.offset) else Target(pc, i.pages * 4096) / 4096 * 4096
  }

  lemma AdrEffect(isa: Isa, i: Inst, pc: int, c: Core)
    requires 0 <= pc < TWO64 && (i.Adr? || i.Adrp?)
    ensures Exec(isa, i, pc, c) == Effect(SetX(c, i.rd, AdrTarget(i, pc)), Next)
  {
    if i.Adrp? {
      AdrpTarget(pc, i.pages);
    }
  }

  lemma MovCaughtUp(isa: Isa, prog: seq<Inst>, dst: int, p: nat, rd: Reg, v: U64, c: Core, e: Effect)
    requires MovChain(prog, p, rd, v) && e == Effect(SetX(c, rd, v), Next)
    ensures CaughtUp(e, RunN(isa, prog, dst, AtWord(dst, p, c), 4), dst, p + 4)
  {
    MovRuns(isa, prog, dst, p, rd, v, c, 0);
  }

  lemma SimAdr(isa: Isa, prog: seq<Inst>, dst: int, i: Inst, pc: int, p: nat, c: Core)
    requires 0 <= pc < TWO64 && (i.Adr? || i.Adrp?) && MovChain(prog, p, i.rd, AdrTarget(i, pc))
    ensures CaughtUp(Exec(isa, i, pc, c), RunN(isa, prog, dst, AtWord(dst, p, c), 4), dst, p + 4)
  {
    AdrEffect(isa, i, pc, c);
    MovCaughtUp(isa, prog, dst, p, i.rd, AdrTarget(i, pc), c, Exec(isa, i, pc, c));
  }

  lemma LdrStep(isa: Isa, prog: seq<Inst>, dst: int, p: nat, rt: Reg, a: U64, c: Core)
    requires p < |prog| && prog[p] == LdrX(rt, SCRATCH, 0)
    ensures RunN(isa, prog, dst, AtWord(dst, p, SetX(c, SCRATCH, a)), 1)
         == AtWord(dst, p + 1, SetX(SetX(c, SCRATCH, a), rt, Load64(c.mem, a)))
  {
    OneStep(isa, prog, dst, p, SetX(c, SCRATCH, a), 0);
  }

  /** The address goes to X17, and the 64 bits there to the destination. */
  lemma LdrSequence(isa: Isa, prog: seq<Inst>, dst: int, rt: Reg, a: U64, p: nat, c: Core)
    requires p + 5 <= |prog| && MovChain(prog, p, SCRATCH, a) && prog[p + 4] == LdrX(rt, SCRATCH, 0)
    ensures RunN(isa, prog, dst, AtWord(dst, p, c), 5)
         == AtWord(dst, p + 5, SetX(SetX(c, SCRATCH, a), rt, Load64(c.mem, a)))
  {
    MovRuns(isa, prog, dst, p, SCRATCH, a, c, 1);
    LdrStep(isa, prog, dst, p + 4, rt, a, c);
  }

  lemma LdrEffect(isa: Isa, i: Inst, pc: int, c: Core)
    requires i.LdrLiteral? && i.wide
    ensures Exec(isa, i, pc, c) == Effect(SetX(c, i.rt, Load64(c.mem, Target(pc, i.offset))), Next)
  {
  }

  lemma LdrCaughtUp(isa: Isa, prog: seq<Inst>, dst: int, rt: Reg, a: U64, p: nat, c: Core, e: Effect)
    requires p + 5 <= |prog| && MovChain(prog, p, SCRATCH, a) && prog[p + 4] == LdrX(rt, SCRATCH, 0)
    requires e == Effect(SetX(c, rt, Load64(c.mem, a)), Next)
    ensures CaughtUp(e, RunN(isa, prog, dst, AtWord(dst, p, c), 5), dst, p + 5)
  {
    LdrSequence(isa, prog, dst, rt, a, p, c);
    LdrSame(c, rt, a, Load64(c.mem, a), dst, p + 5);
  }

  lemma SimLdr(isa: Isa, prog: seq<Inst>, dst: int, i: Inst, pc: int, p: nat, c: Core)
    requires i.LdrLiteral? && i.wide && p + 5 <= |prog|
    requires MovChain(prog, p, SCRATCH, Target(pc, i.offset)) && prog[p + 4] == LdrX(i.rt, SCRATCH, 0)
    ensures CaughtUp(Exec(isa, i, pc, c), RunN(isa, prog, dst, AtWord(dst, p, c), 5), dst, p + 5)
  {
    LdrEffect(isa, i, pc, c);
    LdrCaughtUp(isa, prog, dst, i.rt, Target(pc, i.offset), p, c, Exec(isa, i, pc, c));
  }

  /** A 32-bit literal load becomes a 64-bit one, which is right exactly when the word above the literal is zero
      or the destination is not observed. */
  lemma LdrNarrowExact(isa: Isa, prog: seq<Inst>, dst: int, i: Inst, pc: int, p: nat, c: Core)
    requires i.LdrLiteral? && !i.wide && p + 5 <= |prog|
    requires MovChain(prog, p, SCRATCH, Target(pc, i.offset)) && prog[p + 4] == LdrX(i.rt, SCRATCH, 0)
    ensures CaughtUp(Exec(isa, i, pc, c), RunN(isa, prog, dst, AtWord(dst, p, c), 5), dst, p + 5) <==>
            i.rt == 31 || i.rt == SCRATCH || c.mem((Target(pc, i.offset) + 4) % TWO64) == 0
  {
    var a := Target(pc, i.offset);
    LdrSequence(isa, prog, dst, i.rt, a, p, c);
    NarrowSame(c, i.rt, a);
    NarrowCaughtUp(isa, i, pc, c, SetX(SetX(c, SCRATCH, a), i.rt, Load64(c.mem, a)), dst, p + 5);
  }

  lemma NarrowCaughtUp(isa: Isa, i: Inst, pc: int, c: Core, d: Core, dst: int, next: nat)
    requires i.LdrLiteral? && !i.wide
    ensures CaughtUp(Exec(isa, i, pc, c), AtWord(dst, next, d), dst, next) <==>
            Same(SetX(c, i.rt, c.mem(Target(pc, i.offset))), d)
  {
  }

  lemma NarrowSame(c: Core, rt: Reg, a: U64)
    ensures Same(SetX(c, rt, c.mem(a)), SetX(SetX(c, SCRATCH, a), rt, Load64(c.mem, a))) <==>
            rt == 31 || rt == SCRATCH || c.mem((a + 4) % TWO64) == 0
  {
    var d, e := SetX(c, rt, c.mem(a)), SetX(SetX(c, SCRATCH, a), rt, Load64(c.mem, a));
    assert rt < 31 && rt != SCRATCH ==> d.x[rt] == c.mem(a) && e.x[rt] == Load64(c.mem, a);
  }

  lemma SimCopy(isa: Isa, prog: seq<Inst>, dst: int, i: Inst, pc: int, p: nat, c: Core)
    requires PcFree(i) && p < |prog| && prog[p] == i
    ensures CaughtUp(Exec(isa, i, pc, c), RunN(isa, prog, dst, AtWord(dst, p, c), 1), dst, p + 1)
  {
    OneStep(isa, prog, dst, p, c, 0);
    assert Exec(isa, i, pc, c) == Exec(isa, i, dst + 4 * p, c);
  }

  // ----- a word in its image -----

  /** A finished relocation in memory: the image at `dst`, decoded, beside the original words, decoded. It is small
      enough for 19-bit literal offsets, and both regions lie inside the address space. */
  datatype SiteRec = SiteRec(plan: Plan, dst: int, img: seq<Word>, prog: seq<Inst>, orig: seq<Inst>)

  ghost predicate SiteOk(s: SiteRec) {
    && AllSound(s.plan.es) && s.img == Image(s.plan.es) && Decodes(s.prog, s.img) && Decodes(s.orig, s.plan.ws)
    && 20 * |s.plan.ws| + 16 <= 0x10_0000
    && 0 <= s.plan.src && s.plan.src + 4 * |s.plan.ws| < TWO64 && 0 <= s.dst && s.dst + 4 * |s.img| <= TWO64
  }

  type Site = s: SiteRec | SiteOk(s) ghost witness SiteRec(PlanRec([], 0, false, []), 0, [], [], [])

  function Pos(s: Site, i: nat): nat requires i <= |s.plan.es| { |Code(s.plan.es, i)| }

  lemma PosNext(s: Site, i: nat)
    requires i < |s.plan.es|
    ensures Pos(s, i + 1) == Pos(s, i) + |Words(s.plan.es[i])|
  {
  }

  /** The pool slot of expansion i. */
  function Slot(s: Site, i: nat): nat requires i <= |s.plan.es| { |Code(s.plan.es, |s.plan.es|)| + 2 * |Lits(s.plan.es, i)| }

  lemma PlainDecodes(s: Site, i: nat, j: nat)
    requires i < |s.plan.es| && j < |Words(s.plan.es[i])| && !(s.plan.es[i].Pooled? && j == s.plan.es[i].at)
    ensures Pos(s, i) + j < |s.prog| && s.prog[Pos(s, i) + j] == Decode(Words(s.plan.es[i])[j])
  {
    PlainWordAt(s.plan.es, i, j);
    assert s.prog[Pos(s, i) + j] == Fetch(s.img, Pos(s, i) + j);
  }

  lemma PoolSlot(s: Site, i: nat)
    requires i < |s.plan.es| && s.plan.es[i].Pooled?
    ensures PoolEntry(s.img, Literal(Pos(s, i) + s.plan.es[i].at, s.plan.es[i].value), Slot(s, i))
  {
    hide PoolEntry, Image, Code, Lits;
    PoolLiteral(s.plan.es, i);
    PoolEntries(s.plan.es, |Lits(s.plan.es, i)|);
  }

  lemma LoadDecodes(s: Site, l: Literal, q: nat)
    requires PoolEntry(s.img, l, q) && l.at + 1 < q
    ensures PoolJump(s.prog, s.img, l.at, q, l.value)
  {
    ImageSize(s.plan);
    LdrDecodes(q - l.at);
    assert s.prog[l.at] == Fetch(s.img, l.at);
  }

  lemma CodeBefore(es: seq<Expansion>, i: nat)
    requires i < |es|
    ensures |Code(es, i)| + |Words(es[i])| <= |Code(es, |es|)|
  {
    LitsGrowLength(es, i + 1, |es|);
  }

  lemma PoolDecodes(s: Site, i: nat)
    requires i < |s.plan.es| && s.plan.es[i].Pooled? && s.plan.es[i].at + 2 == |s.plan.es[i].code|
    ensures PoolJump(s.prog, s.img, Pos(s, i) + s.plan.es[i].at, Slot(s, i), s.plan.es[i].value)
  {
    hide PoolEntry, PoolJump, Code, Lits;
    var e := s.plan.es[i];
    PoolSlot(s, i);
    CodeBefore(s.plan.es, i);
    LoadDecodes(s, Literal(Pos(s, i) + e.at, e.value), Slot(s, i));
  }

  /** A register jump among the words of expansion i. */
  lemma JumpAt(s: Site, i: nat, j: nat, link: bool)
    requires i < |s.plan.es| && j < |Words(s.plan.es[i])| && !(s.plan.es[i].Pooled? && j == s.plan.es[i].at)
    requires Words(s.plan.es[i])[j] == if link then BLR_X17 else BR_X17
    ensures Pos(s, i) + j < |s.prog| && s.prog[Pos(s, i) + j] == if link then Blr(SCRATCH) else Br(SCRATCH)
  {
    PlainDecodes(s, i, j);
    JumpDecodes();
  }

  // The five shapes a supported word takes in the image, beside its original instruction.

  ghost predicate ShapeB(s: Site, i: nat) requires i < |s.plan.ws| {
    var inst, p := s.orig[i], Pos(s, i);
    && inst.B? && Pos(s, i + 1) == p + 2
    && PoolJump(s.prog, s.img, p, Slot(s, i), Target(s.plan.src + 4 * i, inst.offset))
    && s.prog[p + 1] == if inst.link then Blr(SCRATCH) else Br(SCRATCH)
  }

  ghost predicate ShapeShort(s: Site, i: nat) requires i < |s.plan.ws| {
    var inst, p := s.orig[i], Pos(s, i);
    && ShortBranch(inst) && Pos(s, i + 1) == p + 3
    && PoolJump(s.prog, s.img, p + 1, Slot(s, i), Target(s.plan.src + 4 * i, inst.offset))
    && s.prog[p] == Flip(inst) && s.prog[p + 2] == Br(SCRATCH)
  }

  ghost predicate ShapeAdr(s: Site, i: nat) requires i < |s.plan.ws| {
    var inst, p := s.orig[i], Pos(s, i);
    && (inst.Adr? || inst.Adrp?) && Pos(s, i + 1) == p + 4
    && MovChain(s.prog, p, inst.rd, AdrTarget(inst, s.plan.src + 4 * i))
  }

  ghost predicate ShapeLdr(s: Site, i: nat) requires i < |s.plan.ws| {
    var inst, p := s.orig[i], Pos(s, i);
    && inst.LdrLiteral? && inst.wide && Pos(s, i + 1) == p + 5
    && MovChain(s.prog, p, SCRATCH, Target(s.plan.src + 4 * i, inst.offset))
    && p + 5 <= |s.prog| && s.prog[p + 4] == LdrX(inst.rt, SCRATCH, 0)
  }

  ghost predicate ShapeCopy(s: Site, i: nat) requires i < |s.plan.ws| {
    var inst, p := s.orig[i], Pos(s, i);
    PcFree(inst) && Pos(s, i + 1) == p + 1 && p < |s.prog| && s.prog[p] == inst
  }

  lemma BExpansion(w: Word, pc: int)
    requires Classify(w).BBl?
    ensures Decode(w).B?
    ensures var jump := if Decode(w).link then BLR_X17 else BR_X17;
            Expand(w, pc) == Pooled([LDR_X17, jump], 0, Target(pc, Decode(w).offset))
  {
  }

  ghost predicate BLaid(s: Site, i: nat) requires i < |s.plan.ws| {
    var inst := s.orig[i];
    && inst.B?
    && s.plan.es[i] == Pooled([LDR_X17, if inst.link then BLR_X17 else BR_X17], 0, Target(s.plan.src + 4 * i, inst.offset))
  }

  lemma LayB(s: Site, i: nat)
    requires i < |s.plan.ws| && Classify(s.plan.ws[i]).BBl?
    ensures BLaid(s, i)
  {
    hide Classify, Decode, Expand, Target;
    assert s.orig[i] == Fetch(s.plan.ws, i);
    assert s.plan.es[i] == At(s.plan.ws, s.plan.src, i);
    BExpansion(s.plan.ws[i], s.plan.src + 4 * i);
  }

  lemma BPlaced(s: Site, i: nat)
    requires i < |s.plan.ws| && BLaid(s, i)
    ensures ShapeB(s, i)
  {
    hide PoolJump, Target;
    PosNext(s, i);
    PoolDecodes(s, i);
    JumpAt(s, i, 1, s.orig[i].link);
  }

  lemma MakeB(s: Site, i: nat)
    requires i < |s.plan.ws| && Classify(s.plan.ws[i]).BBl?
    ensures ShapeB(s, i)
  {
    hide ShapeB, BLaid, Classify;
    LayB(s, i);
    BPlaced(s, i);
  }

  /** The inversion of a short branch decodes to the opposite branch, three words forward. */
  lemma InvertedDecodes(w: Word)
    requires IsShort(Classify(w)) && Supported(w)
    ensures ShortBranch(Decode(w)) && Decode(Inverted(w, Classify(w))) == Flip(Decode(w))
  {
    if Classify(w).CondKind? {
      BCondInverts(w);
    } else if Classify(w).CompareKind? {
      CompareBInverts(w);
    } else {
      TestBInverts(w);
    }
  }

  lemma ShortExpansion(w: Word, pc: int)
    requires IsShort(Classify(w)) && Supported(w)
    ensures ShortBranch(Decode(w))
    ensures Expand(w, pc) == Pooled([Inverted(w, Classify(w)), LDR_X17, BR_X17], 1, Target(pc, Decode(w).offset))
  {
  }

  /** Word i is a short branch, and its expansion the opposite branch over a jump through the pool. */
  ghost predicate ShortLaid(s: Site, i: nat) requires i < |s.plan.ws| {
    var inst, e := s.orig[i], s.plan.es[i];
    && ShortBranch(inst) && e.Pooled? && |e.code| == 3 && Decode(e.code[0]) == Flip(inst) && e.code[2] == BR_X17
    && e.at == 1 && e.value == Target(s.plan.src + 4 * i, inst.offset)
  }

  lemma LayShort(s: Site, i: nat)
    requires i < |s.plan.ws| && IsShort(Classify(s.plan.ws[i])) && Supported(s.plan.ws[i])
    ensures ShortLaid(s, i)
  {
    hide DecodeFields, Expand, Inverted, Classify;
    assert s.plan.es[i] == At(s.plan.ws, s.plan.src, i);
    assert s.orig[i] == Fetch(s.plan.ws, i);
    InvertedDecodes(s.plan.ws[i]);
    ShortExpansion(s.plan.ws[i], s.plan.src + 4 * i);
  }

  lemma ShortPlaced(s: Site, i: nat)
    requires i < |s.plan.ws| && ShortLaid(s, i)
    ensures ShapeShort(s, i)
  {
    PlainDecodes(s, i, 0);
    PoolDecodes(s, i);
    JumpAt(s, i, 2, false);
  }

  lemma MakeShort(s: Site, i: nat)
    requires i < |s.plan.ws| && IsShort(Classify(s.plan.ws[i])) && Supported(s.plan.ws[i])
    ensures ShapeShort(s, i)
  {
    LayShort(s, i);
    ShortPlaced(s, i);
  }

  /** The j-th instruction of a MOVZ/MOVK chain. */
  function ChainInst(rd: Reg, v: U64, j: nat): Inst requires j < 4 {
    match j
    case 0 => Movz(rd, v % 0x1_0000, 0)
    case 1 => Movk(rd, v / 0x1_0000 % 0x1_0000, 1)
    case 2 => Movk(rd, v / 0x1_0000_0000 % 0x1_0000, 2)
    case _ => Movk(rd, v / 0x1_0000_0000_0000, 3)
  }

  lemma ChainWord(rd: Reg, v: U64, j: nat)
    requires j < 4
    ensures Decode(MovX(rd, v)[j]) == ChainInst(rd, v, j)
  {
    match j
    case 0 => MovzDecodes(rd, v % 0x1_0000);
    case 1 => MovkDecodes(rd, v / 0x1_0000 % 0x1_0000, 1);
    case 2 => MovkDecodes(rd, v / 0x1_0000_0000 % 0x1_0000, 2);
    case _ => MovkDecodes(rd, v / 0x1_0000_0000_0000, 3);
  }

  lemma ChainDecodes(s: Site, i: nat, rd: Reg, v: U64, tail: seq<Word>, j: nat)
    requires i < |s.plan.es| && s.plan.es[i] == Plain(MovX(rd, v) + tail) && j < 4
    ensures Pos(s, i) + j < |s.prog| && s.prog[Pos(s, i) + j] == ChainInst(rd, v, j)
  {
    PlainDecodes(s, i, j);
    assert Words(s.plan.es[i])[j] == MovX(rd, v)[j];
    ChainWord(rd, v, j);
  }

  lemma ChainPlaced(s: Site, i: nat, rd: Reg, v: U64, tail: seq<Word>)
    requires i < |s.plan.es| && s.plan.es[i] == Plain(MovX(rd, v) + tail)
    ensures MovChain(s.prog, Pos(s, i), rd, v) && Pos(s, i + 1) == Pos(s, i) + 4 + |tail|
  {
    hide Code;
    PosNext(s, i);
    ChainDecodes(s, i, rd, v, tail, 0);
    ChainDecodes(s, i, rd, v, tail, 1);
    ChainDecodes(s, i, rd, v, tail, 2);
    ChainDecodes(s, i, rd, v, tail, 3);
  }

  lemma AdrExpansion(w: Word, pc: int)
    requires Classify(w).AdrKind? || Classify(w).AdrpKind?
    ensures (Decode(w).Adr? || Decode(w).Adrp?)
    ensures Expand(w, pc) == Plain(MovX(Decode(w).rd, AdrTarget(Decode(w), pc)) + [])
  {
    assert MovX(Low(w), AdrTarget(Decode(w), pc)) + [] == MovX(Low(w), AdrTarget(Decode(w), pc));
  }

  ghost predicate AdrLaid(s: Site, i: nat) requires i < |s.plan.ws| {
    var inst := s.orig[i];
    && (inst.Adr? || inst.Adrp?)
    && s.plan.es[i] == Plain(MovX(inst.rd, AdrTarget(inst, s.plan.src + 4 * i)) + [])
  }

  lemma LayAdr(s: Site, i: nat)
    requires i < |s.plan.ws| && (Classify(s.plan.ws[i]).AdrKind? || Classify(s.plan.ws[i]).AdrpKind?)
    ensures AdrLaid(s, i)
  {
    hide Expand, Decode, MovX, AdrTarget, Classify;
    assert s.orig[i] == Fetch(s.plan.ws, i);
    assert s.plan.es[i] == At(s.plan.ws, s.plan.src, i);
    AdrExpansion(s.plan.ws[i], s.plan.src + 4 * i);
  }

  lemma AdrPlaced(s: Site, i: nat)
    requires i < |s.plan.ws| && AdrLaid(s, i)
    ensures ShapeAdr(s, i)
  {
    ChainPlaced(s, i, s.orig[i].rd, AdrTarget(s.orig[i], s.plan.src + 4 * i), []);
  }

  lemma MakeAdr(s: Site, i: nat)
    requires i < |s.plan.ws| && (Classify(s.plan.ws[i]).AdrKind? || Classify(s.plan.ws[i]).AdrpKind?)
    ensures ShapeAdr(s, i)
  {
    LayAdr(s, i);
    AdrPlaced(s, i);
  }

  lemma LdrPlaced(s: Site, i: nat, rt: Reg, v: U64)
    requires i < |s.plan.es| && s.plan.es[i] == Plain(MovX(SCRATCH, v) + [LdrFromScratch(rt)])
    ensures Pos(s, i) + 4 < |s.prog| && s.prog[Pos(s, i) + 4] == LdrX(rt, SCRATCH, 0)
  {
    PlainDecodes(s, i, 4);
    LdrFromScratchDecodes(rt);
  }

  lemma MakeLdr(s: Site, i: nat)
    requires i < |s.plan.ws| && Classify(s.plan.ws[i]).LdrLit? && Supported(s.plan.ws[i])
    ensures ShapeLdr(s, i)
  {
    var w, v := s.plan.ws[i], Target(s.plan.src + 4 * i, Imm19(s.plan.ws[i]));
    assert s.orig[i] == Fetch(s.plan.ws, i) == LdrLiteral(true, Low(w), Imm19(w));
    assert s.plan.es[i] == At(s.plan.ws, s.plan.src, i) == Plain(MovX(SCRATCH, v) + [LdrFromScratch(Low(w))]);
    ChainPlaced(s, i, SCRATCH, v, [LdrFromScratch(Low(w))]);
    LdrPlaced(s, i, Low(w), v);
  }

  lemma MakeCopy(s: Site, i: nat)
    requires i < |s.plan.ws| && Classify(s.plan.ws[i]).Plainly?
    ensures ShapeCopy(s, i)
  {
    assert s.orig[i] == Fetch(s.plan.ws, i);
    assert s.plan.es[i] == At(s.plan.ws, s.plan.src, i);
    CopiedIsPcFree(s.plan.ws[i]);
    PlainDecodes(s, i, 0);
  }

  /** Every supported word is laid out in one of the five shapes. */
  lemma ShapeOf(s: Site, i: nat)
    requires i < |s.plan.ws| && Supported(s.plan.ws[i])
    ensures ShapeB(s, i) || ShapeShort(s, i) || ShapeAdr(s, i) || ShapeLdr(s, i) || ShapeCopy(s, i)
  {
    match Classify(s.plan.ws[i])
    case BBl => MakeB(s, i);
    case LdrLit => MakeLdr(s, i);
    case AdrKind => MakeAdr(s, i);
    case AdrpKind => MakeAdr(s, i);
    case Plainly => MakeCopy(s, i);
    case _ => MakeShort(s, i);
  }

  predicate IsShort(kind: Kind) { kind.CondKind? || kind.CompareKind? || kind.TestKind? }

  /** The image is in memory. */
  ghost predicate Intact(s: Site, mem: int -> Word) { Loaded(mem, s.img, s.dst) }

  /** The relocated machine after k steps from the expansion of word i. */
  ghost function Moved(isa: Isa, s: Site, i: nat, c: Core, k: nat): Cpu requires i <= |s.plan.es| {
    RunN(isa, s.prog, s.dst, AtWord(s.dst, Pos(s, i), c), k)
  }

  /** What word i of the original does. */
  ghost function Does(isa: Isa, s: Site, i: nat, c: Core): Effect requires i < |s.plan.ws| {
    Exec(isa, s.orig[i], s.plan.src + 4 * i, c)
  }

  /** From the same state, k steps of the relocated code catch up with word i of the original. */
  ghost predicate Follows(isa: Isa, s: Site, i: nat, c: Core, k: nat) requires i < |s.plan.ws| {
    CaughtUp(Does(isa, s, i, c), Moved(isa, s, i, c, k), s.dst, Pos(s, i + 1))
  }

  lemma FollowB(isa: Isa, s: Site, i: nat, c: Core)
    requires i < |s.plan.ws| && ShapeB(s, i) && Intact(s, c.mem)
    ensures Follows(isa, s, i, c, 2)
  {
    hide Exec, RunN, CaughtUp, Taken, Loaded, PoolJump, Flip, ShortBranch, MovChain, Code, Lits, Target, AdrTarget;
    SimB(isa, s.prog, s.img, s.dst, s.orig[i], s.plan.src + 4 * i, Pos(s, i), Slot(s, i), c);
  }

  lemma FollowTaken(isa: Isa, s: Site, i: nat, c: Core)
    requires i < |s.plan.ws| && ShapeShort(s, i) && Intact(s, c.mem) && Taken(s.orig[i], c)
    ensures Follows(isa, s, i, c, 3)
  {
    hide Exec, RunN, CaughtUp, Taken, Loaded, PoolJump, Flip, ShortBranch, MovChain, Code, Lits, Target, AdrTarget;
    SimTaken(isa, s.prog, s.img, s.dst, s.orig[i], s.plan.src + 4 * i, Pos(s, i), Slot(s, i), c);
  }

  lemma FollowNotTaken(isa: Isa, s: Site, i: nat, c: Core)
    requires i < |s.plan.ws| && ShapeShort(s, i) && !Taken(s.orig[i], c)
    ensures Follows(isa, s, i, c, 1)
  {
    hide Exec, RunN, CaughtUp, Taken, Loaded, Flip, ShortBranch, Code, Lits, Target;
    SimNotTaken(isa, s.prog, s.dst, s.orig[i], s.plan.src + 4 * i, Pos(s, i), c);
  }

  lemma FollowAdr(isa: Isa, s: Site, i: nat, c: Core)
    requires i < |s.plan.ws| && ShapeAdr(s, i)
    ensures Follows(isa, s, i, c, 4)
  {
    hide Exec, RunN, CaughtUp, Taken, Loaded, PoolJump, Flip, ShortBranch, MovChain, Code, Lits, Target, AdrTarget;
    SimAdr(isa, s.prog, s.dst, s.orig[i], s.plan.src + 4 * i, Pos(s, i), c);
  }

  lemma FollowLdr(isa: Isa, s: Site, i: nat, c: Core)
    requires i < |s.plan.ws| && ShapeLdr(s, i)
    ensures Follows(isa, s, i, c, 5)
  {
    hide Exec, RunN, CaughtUp, Taken, Loaded, PoolJump, Flip, ShortBranch, MovChain, Code, Lits, Target, AdrTarget;
    SimLdr(isa, s.prog, s.dst, s.orig[i], s.plan.src + 4 * i, Pos(s, i), c);
  }

  lemma FollowCopy(isa: Isa, s: Site, i: nat, c: Core)
    requires i < |s.plan.ws| && ShapeCopy(s, i)
    ensures Follows(isa, s, i, c, 1)
  {
    hide Exec, RunN, CaughtUp, Taken, Loaded, PoolJump, Flip, ShortBranch, MovChain, Code, Lits, Target, AdrTarget;
    SimCopy(isa, s.prog, s.dst, s.orig[i], s.plan.src + 4 * i, Pos(s, i), c);
  }

  /** Every supported word: from the same machine state, the relocated code catches up with the original
      instruction within five steps. */
  lemma WordSimulated(isa: Isa, s: Site, i: nat, c: Core) returns (k: nat)
    requires i < |s.plan.ws| && Supported(s.plan.ws[i]) && Intact(s, c.mem)
    ensures 1 <= k <= 5 && Follows(isa, s, i, c, k)
  {
    ShapeOf(s, i);
    if ShapeB(s, i) {
      k := 2;
      FollowB(isa, s, i, c);
    } else if ShapeShort(s, i) {
      if Taken(s.orig[i], c) {
        k := 3;
        FollowTaken(isa, s, i, c);
      } else {
        k := 1;
        FollowNotTaken(isa, s, i, c);
      }
    } else if ShapeAdr(s, i) {
      k := 4;
      FollowAdr(isa, s, i, c);
    } else if ShapeLdr(s, i) {
      k := 5;
      FollowLdr(isa, s, i, c);
    } else {
      k := 1;
      FollowCopy(isa, s, i, c);
    }
  }

  // ----- whole prologues -----

  /** In this state the word does not depend on the scratch register: whatever X17 holds, it goes the same way and
      leaves the same state elsewhere. */
  ghost predicate BlindAt(isa: Isa, inst: Inst, pc: int, c: Core) {
    forall d: Core {:trigger Exec(isa, inst, pc, d)} :: Same(c, d) ==>
      && Exec(isa, inst, pc, c).flow == Exec(isa, inst, pc, d).flow
      && Same(Exec(isa, inst, pc, c).core, Exec(isa, inst, pc, d).core)
  }

  /** What the theorem asks of the run of the original from word i in state c, at the states it visits: every word is
      supported and blind to X17, going on leaves the image as it is, and a jump or call leaves the copied range. */
  ghost predicate Behaves(isa: Isa, s: Site, i: nat, c: Core)
    requires i <= |s.plan.ws|
    decreases |s.plan.ws| - i
  {
    i == |s.plan.ws| ||
    (&& Supported(s.plan.ws[i]) && BlindAt(isa, s.orig[i], s.plan.src + 4 * i, c)
     && var e := Does(isa, s, i, c);
        if e.flow.Next? then Intact(s, e.core.mem) && Behaves(isa, s, i + 1, e.core)
        else !InCode(s.orig, s.plan.src, e.flow.target))
  }

  lemma CaughtUpSame(e: Effect, f: Effect, t: Cpu, dst: int, next: nat)
    requires e.flow == f.flow && Same(e.core, f.core) && CaughtUp(f, t, dst, next)
    ensures CaughtUp(e, t, dst, next)
  {
    if e.flow.Call? {
      assert forall r :: 0 <= r < 31 && r != SCRATCH ==> SetX(e.core, 30, 0).x[r] == SetX(f.core, 30, 0).x[r];
    }
  }

  lemma CaughtUpBlind(isa: Isa, inst: Inst, pc: int, c: Core, d: Core, t: Cpu, dst: int, next: nat)
    requires Same(c, d) && BlindAt(isa, inst, pc, c) && CaughtUp(Exec(isa, inst, pc, d), t, dst, next)
    ensures CaughtUp(Exec(isa, inst, pc, c), t, dst, next)
  {
    CaughtUpSame(Exec(isa, inst, pc, c), Exec(isa, inst, pc, d), t, dst, next);
  }

  /** One step of the original, from machines that agree up to X17: matched within five steps, unless the word reads
      an X17 that differs. */
  lemma StepSimulated(isa: Isa, s: Site, i: nat, c: Core, d: Core) returns (k: nat)
    requires i < |s.plan.ws| && Supported(s.plan.ws[i])
    requires Same(c, d) && (c == d || BlindAt(isa, s.orig[i], s.plan.src + 4 * i, c)) && Intact(s, d.mem)
    ensures 1 <= k <= 5 && CaughtUp(Does(isa, s, i, c), Moved(isa, s, i, d, k), s.dst, Pos(s, i + 1))
  {
    hide Exec, RunN, Supported, CaughtUp, Same, BlindAt, Moved, Pos, Intact;
    k := WordSimulated(isa, s, i, d);
    if c != d {
      CaughtUpBlind(isa, s.orig[i], s.plan.src + 4 * i, c, d, Moved(isa, s, i, d, k), s.dst, Pos(s, i + 1));
    }
  }

  /** Both machines have left at the same place with the same state; if it was by a call, the return address
      is word j of the original and its expansion in the image. */
  ghost predicate LeftTogether(s: Site, u: Cpu, t: Cpu, j: nat) {
    && u.pc == t.pc
    && (Same(u.core, t.core) ||
        (&& j <= |s.plan.es| && u.core.x[30] == (s.plan.src + 4 * j) % TWO64 && t.core.x[30] == (s.dst + 4 * Pos(s, j)) % TWO64
         && Same(SetX(u.core, 30, 0), SetX(t.core, 30, 0))))
  }

  /** The original machine after n steps from word i. */
  ghost function Original(isa: Isa, s: Site, i: nat, c: Core, n: nat): Cpu {
    RunN(isa, s.orig, s.plan.src, AtWord(s.plan.src, i, c), n)
  }

  lemma TailPlaced(s: Site)
    requires s.plan.branch
    ensures var n, a := |s.plan.ws|, s.plan.src + 4 * |s.plan.ws|;
            PoolJump(s.prog, s.img, Pos(s, n), Slot(s, n), a) && s.prog[Pos(s, n) + 1] == Br(SCRATCH)
  {
    var n := |s.plan.ws|;
    assert s.plan.es[n] == Pooled([LDR_X17, BR_X17], 0, s.plan.src + 4 * n);
    PoolDecodes(s, n);
    JumpAt(s, n, 1, false);
  }

  /** The jump back at the end of the image. */
  lemma TailRuns(isa: Isa, s: Site, d: Core)
    requires s.plan.branch && Intact(s, d.mem)
    ensures var a := s.plan.src + 4 * |s.plan.ws|; Moved(isa, s, |s.plan.ws|, d, 2) == Cpu(a, SetX(d, SCRATCH, a))
  {
    var n := |s.plan.ws|;
    TailPlaced(s);
    PoolJumpRuns(isa, s.prog, s.img, s.dst, Pos(s, n), Slot(s, n), s.plan.src + 4 * n, d);
  }

  lemma LeftByJump(s: Site, e: Effect, t: Cpu, i: nat)
    requires i < |s.plan.es| && !e.flow.Next? && CaughtUp(e, t, s.dst, Pos(s, i + 1))
    ensures LeftTogether(s, After(e, s.plan.src + 4 * i), t, i + 1)
  {
    hide Code;
    if e.flow.Call? {
      var a := (s.plan.src + 4 * i + 4) % TWO64;
      assert SetX(SetX(e.core, 30, a), 30, 0).x == SetX(e.core, 30, 0).x;
    }
  }

  /** The original, entered at word i, has left the copied range, and k steps of the image lead to the same place. */
  ghost predicate Agrees(isa: Isa, s: Site, i: nat, c: Core, d: Core, k: nat, j: nat) requires i <= |s.plan.ws| {
    var u := Original(isa, s, i, c, |s.plan.ws| - i);
    !InCode(s.orig, s.plan.src, u.pc) && LeftTogether(s, u, Moved(isa, s, i, d, k), j)
  }

  lemma OriginalStep(isa: Isa, s: Site, i: nat, c: Core, n: nat)
    requires i < |s.plan.ws|
    ensures Original(isa, s, i, c, n + 1) == RunN(isa, s.orig, s.plan.src, After(Does(isa, s, i, c), s.plan.src + 4 * i), n)
    ensures Does(isa, s, i, c).flow.Next? ==> Original(isa, s, i, c, n + 1) == Original(isa, s, i + 1, Does(isa, s, i, c).core, n)
  {
    hide Exec;
    OneStep(isa, s.orig, s.plan.src, i, c, n);
  }

  lemma OriginalLeaves(isa: Isa, s: Site, i: nat, c: Core, n: nat)
    requires i < |s.plan.ws|
    requires var f := Does(isa, s, i, c).flow; !f.Next? && !InCode(s.orig, s.plan.src, f.target)
    ensures Original(isa, s, i, c, n + 1) == After(Does(isa, s, i, c), s.plan.src + 4 * i)
  {
    OriginalStep(isa, s, i, c, n);
  }

  lemma MovedCompose(isa: Isa, s: Site, i: nat, d: Core, t: Cpu, k1: nat, k2: nat)
    requires i < |s.plan.ws| && t == Moved(isa, s, i, d, k1) && t.pc == s.dst + 4 * Pos(s, i + 1)
    ensures Moved(isa, s, i, d, k1 + k2) == Moved(isa, s, i + 1, t.core, k2)
  {
    RunCompose(isa, s.prog, s.dst, AtWord(s.dst, Pos(s, i), d), k1, k2);
    assert t == AtWord(s.dst, Pos(s, i + 1), t.core);
  }

  /** One step of a run that behaves: on to the next word with the image intact, or out of the range. */
  lemma StepOrExit(isa: Isa, s: Site, i: nat, c: Core, d: Core) returns (k: nat)
    requires i < |s.plan.ws| && Behaves(isa, s, i, c) && Same(c, d) && Intact(s, d.mem)
    ensures var e, t := Does(isa, s, i, c), Moved(isa, s, i, d, k);
            if e.flow.Next? then t.pc == s.dst + 4 * Pos(s, i + 1) && Same(e.core, t.core) && Intact(s, t.core.mem)
            else !InCode(s.orig, s.plan.src, e.flow.target) && LeftTogether(s, After(e, s.plan.src + 4 * i), t, i + 1)
  {
    hide Exec, RunN, Supported;
    k := StepSimulated(isa, s, i, c, d);
    var e, t := Does(isa, s, i, c), Moved(isa, s, i, d, k);
    if e.flow.Next? {
      assert Intact(s, e.core.mem);
    } else {
      LeftByJump(s, e, t, i);
    }
  }

  lemma AgreesNext(isa: Isa, s: Site, i: nat, c: Core, d: Core, k1: nat, k2: nat, j: nat)
    requires i < |s.plan.ws| && Does(isa, s, i, c).flow.Next? && Moved(isa, s, i, d, k1).pc == s.dst + 4 * Pos(s, i + 1)
    requires Agrees(isa, s, i + 1, Does(isa, s, i, c).core, Moved(isa, s, i, d, k1).core, k2, j)
    ensures Agrees(isa, s, i, c, d, k1 + k2, j)
  {
    hide Exec, RunN, LeftTogether, InCode, Pos;
    OriginalStep(isa, s, i, c, |s.plan.ws| - i - 1);
    MovedCompose(isa, s, i, d, Moved(isa, s, i, d, k1), k1, k2);
  }

  lemma AgreesExit(isa: Isa, s: Site, i: nat, c: Core, d: Core, k: nat)
    requires i < |s.plan.ws|
    requires var f := Does(isa, s, i, c).flow; !f.Next? && !InCode(s.orig, s.plan.src, f.target)
    requires LeftTogether(s, After(Does(isa, s, i, c), s.plan.src + 4 * i), Moved(isa, s, i, d, k), i + 1)
    ensures Agrees(isa, s, i, c, d, k, i + 1)
  {
    hide Exec, RunN;
    OriginalLeaves(isa, s, i, c, |s.plan.ws| - i - 1);
  }

  lemma AgreesEnd(isa: Isa, s: Site, c: Core, d: Core)
    requires s.plan.branch && Same(c, d) && Intact(s, d.mem)
    ensures Agrees(isa, s, |s.plan.ws|, c, d, 2, 0)
  {
    TailRuns(isa, s, d);
  }

  /** Machines in states c and d at word i, where the original leaves the copied range together with the image
      after k steps of the latter. */
  datatype MeetingRec = MeetingRec(isa: Isa, s: Site, i: nat, c: Core, d: Core, k: nat, j: nat)

  ghost predicate Meets(m: MeetingRec) {
    m.i <= |m.s.plan.ws| && Agrees(m.isa, m.s, m.i, m.c, m.d, m.k, m.j)
  }

  const Blank := Core(seq(31, i => 0), Flags(false, false, false, false), (a: int) => 0, [])

  type Meeting = m: MeetingRec | Meets(m)
    ghost witness MeetingRec(Isa((w, c) => Effect(c, Next)), SiteRec(PlanRec([], 0, false, []), 0, [], [], []), 0, Blank, Blank, 0, 0)

  ghost predicate From(m: Meeting, isa: Isa, s: Site, i: nat, c: Core, d: Core) {
    m.isa == isa && m.s == s && m.i == i && m.c == c && m.d == d
  }

  /** A meeting from the next word on carries back over one word. */
  lemma MeetEarlier(isa: Isa, s: Site, i: nat, c: Core, d: Core, k: nat, later: Meeting) returns (m: Meeting)
    requires i < |s.plan.ws| && Does(isa, s, i, c).flow.Next?
    requires Moved(isa, s, i, d, k).pc == s.dst + 4 * Pos(s, i + 1)
    requires From(later, isa, s, i + 1, Does(isa, s, i, c).core, Moved(isa, s, i, d, k).core)
    ensures From(m, isa, s, i, c, d)
  {
    hide Exec, RunN, Agrees, Does, Moved, Pos;
    AgreesNext(isa, s, i, c, d, k, later.k, later.j);
    m := MeetingRec(isa, s, i, c, d, k + later.k, later.j);
  }

  lemma MeetAtEnd(isa: Isa, s: Site, i: nat, c: Core, d: Core) returns (m: Meeting)
    requires s.plan.branch && i == |s.plan.ws| && Same(c, d) && Intact(s, d.mem)
    ensures From(m, isa, s, i, c, d)
  {
    AgreesEnd(isa, s, c, d);
    m := MeetingRec(isa, s, i, c, d, 2, 0);
  }

  lemma MeetHere(isa: Isa, s: Site, i: nat, c: Core, d: Core, k: nat) returns (m: Meeting)
    requires i < |s.plan.ws|
    requires var f := Does(isa, s, i, c).flow; !f.Next? && !InCode(s.orig, s.plan.src, f.target)
    requires LeftTogether(s, After(Does(isa, s, i, c), s.plan.src + 4 * i), Moved(isa, s, i, d, k), i + 1)
    ensures From(m, isa, s, i, c, d)
  {
    hide Exec, RunN, LeftTogether;
    AgreesExit(isa, s, i, c, d, k);
    m := MeetingRec(isa, s, i, c, d, k, i + 1);
  }

  lemma BehavesOn(isa: Isa, s: Site, i: nat, c: Core)
    requires i < |s.plan.ws| && Behaves(isa, s, i, c) && Does(isa, s, i, c).flow.Next?
    ensures Behaves(isa, s, i + 1, Does(isa, s, i, c).core)
  {
    hide Exec, Supported, BlindAt, Intact;
  }

  lemma {:induction false} RestSimulated(isa: Isa, s: Site, i: nat, left: nat, c: Core, d: Core) returns (m: Meeting)
    requires s.plan.branch && i + left == |s.plan.ws| && Behaves(isa, s, i, c) && Same(c, d) && Intact(s, d.mem)
    ensures From(m, isa, s, i, c, d)
    decreases left
  {
    hide Exec, RunN, Supported, Agrees, BlindAt, InCode, Same, Intact, LeftTogether, A64.After, Moved, Does, Behaves, Pos;
    if left == 0 {
      m := MeetAtEnd(isa, s, i, c, d);
    } else {
      var k := StepOrExit(isa, s, i, c, d);
      var e, t := Does(isa, s, i, c), Moved(isa, s, i, d, k);
      if e.flow.Next? {
        BehavesOn(isa, s, i, c);
        var later := RestSimulated(isa, s, i + 1, left - 1, e.core, t.core);
        m := MeetEarlier(isa, s, i, c, d, k, later);
      } else {
        m := MeetHere(isa, s, i, c, d, k);
      }
    }
  }

  /** The whole prologue, entered at any word i: when the original leaves the copied range, by a jump, by a call
      or by falling off its end, the relocated code leaves to the same place in the same state. */
  lemma PrologueSimulated(isa: Isa, s: Site, i: nat, c: Core, d: Core) returns (k: nat, j: nat)
    requires s.plan.branch && i <= |s.plan.ws| && Behaves(isa, s, i, c) && Same(c, d) && Intact(s, d.mem)
    ensures Agrees(isa, s, i, c, d, k, j)
  {
    var m := RestSimulated(isa, s, i, |s.plan.ws| - i, c, d);
    k, j := m.k, m.j;
  }
}
