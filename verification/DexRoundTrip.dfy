/** Decoding what MethodBuilder encoded gives back its instructions, and its branches land on their labels. */
module DexRoundTrip {
  import opened Wrappers
  import opened DexCode
  import opened DexInstructions
  import opened DexEncoder

  /** Units sit in the code at pc. */
  ghost predicate Sits(units: Units, code: Units, pc: nat) {
    forall q :: 0 <= q < |units| ==> At(code, pc + q) == units[q]
  }

  lemma EmittedSize(x: Item, offset: int)
    ensures |Emitted(x, offset)| == Size(x)
  {
  }

  lemma {:induction false} ItemSits(xs: seq<Item>, j: nat, n: nat, k: nat)
    requires j < n <= |xs| && k <= |xs|
    ensures Sits(Emitted(xs[j], Offset(xs, j, k)), Resolved(xs, n, k), Start(xs, j))
    ensures Start(xs, j + 1) <= Start(xs, n)
  {
    hide Emitted, Offset;
    EmittedSize(xs[j], Offset(xs, j, k));
    if j < n - 1 {
      ItemSits(xs, j, n - 1, k);
    }
  }

  /** The finished code of a program. */
  function Code(p: Program): Units
  {
    var xs := Items(p);
    Resolved(xs, |xs|, |xs|)
  }

  /** Where instruction j starts, and the displacement it carries if it is a branch. */
  function Address(p: Program, j: nat): nat
    requires j <= |p.code|
  {
    Start(Items(p), j)
  }

  function Displacement(p: Program, j: nat): int
    requires j < |p.code|
  {
    Offset(Items(p), j, |p.code|)
  }

  lemma JumpIsPacked(i: Instruction, regs: nat, offset: int)
    requires Accepted(i, regs) && IsBranch(i.op)
    ensures AllAdmit(Lower(i, regs, offset))
    ensures Emitted(ItemOf(i, regs), offset) == PackAll(Lower(i, regs, offset))
  {
    hide Register;
    var low := Lower(i, regs, offset);
    assert low[1..] == [];
  }

  lemma BindIsEmpty(i: Instruction, regs: nat)
    requires Shaped(i) && i.op.BindLabel?
    ensures Lower(i, regs, 0) == []
  {
  }

  lemma EmittedIsPacked(i: Instruction, regs: nat, offset: int)
    requires Accepted(i, regs) && (IsBranch(i.op) || offset == 0)
    ensures AllAdmit(Lower(i, regs, offset))
    ensures Emitted(ItemOf(i, regs), offset) == PackAll(Lower(i, regs, offset))
  {
    hide Register, Lower, Pack;
    if IsBranch(i.op) {
      JumpIsPacked(i, regs, offset);
    } else if i.op.BindLabel? {
      BindIsEmpty(i, regs);
    }
  }

  predicate AllAdmit(low: seq<Low>) { forall k :: 0 <= k < |low| ==> Admits(low[k]) }

  lemma InstructionSits(p: Program, j: nat)
    requires j < |p.code|
    ensures AllAdmit(Lower(p.code[j], p.regs, Displacement(p, j)))
    ensures Sits(PackAll(Lower(p.code[j], p.regs, Displacement(p, j))), Code(p), Address(p, j))
  {
    var xs := Items(p);
    PrefixAt(p, |xs|, j);
    ItemSits(xs, j, |xs|, |xs|);
    EmittedIsPacked(p.code[j], p.regs, Offset(xs, j, |xs|));
  }

  lemma SplitSits(a: Units, b: Units, code: Units, pc: nat)
    requires Sits(a + b, code, pc)
    ensures Sits(a, code, pc) && Sits(b, code, pc + |a|)
  {
    assert forall p :: 0 <= p < |a| ==> (a + b)[p] == a[p];
    forall p | 0 <= p < |b| ensures At(code, pc + |a| + p) == b[p] {
      assert (a + b)[|a| + p] == b[p];
      assert At(code, pc + (|a| + p)) == (a + b)[|a| + p];
    }
  }

  lemma OneDecodes(l: Low, code: Units, pc: nat)
    requires Admits(l) && Sits(Pack(l), code, pc)
    ensures Decode(code, pc).op == l.op
    ensures Decode(code, pc) == Intended(l) <==> Fits(l)
  {
    DecodeExact(l, code, pc);
  }

  /** The first form sits at pc, the second right behind it. */
  lemma FirstSits(low: seq<Low>, code: Units, pc: nat)
    requires AllAdmit(low) && Sits(PackAll(low), code, pc) && 0 < |low|
    ensures Sits(Pack(low[0]), code, pc)
  {
    SplitSits(Pack(low[0]), PackAll(low[1..]), code, pc);
  }

  lemma SecondSits(low: seq<Low>, code: Units, pc: nat)
    requires AllAdmit(low) && Sits(PackAll(low), code, pc) && |low| == 2
    ensures Sits(Pack(low[1]), code, pc + Width(FormatOf(low[0].op)))
  {
    hide Pack, Sits, Admits;
    SplitSits(Pack(low[0]), PackAll(low[1..]), code, pc);
    SplitSits(Pack(low[1]), PackAll(low[1..][1..]), code, pc + |Pack(low[0])|);
  }

  predicate TakesResult(i: Instruction) { (IsInvoke(i.op) || IsInvokeRange(i.op)) && i.dest.Some? }

  /** The virtual instruction read at an address of the code. */
  function ReadAt(code: Units, pc: nat, withResult: bool, target: nat): Instruction {
    var first := Decode(code, pc);
    Read(first, if withResult then Some(Decode(code, pc + Width(FormatOf(first.op)))) else None, target)
  }

  lemma Forms(i: Instruction, regs: nat, offset: int)
    requires Shaped(i) && i.op != BindLabel
    ensures |Lower(i, regs, offset)| == if TakesResult(i) then 2 else 1
  {
  }

  /** An instruction's first form is decoded at its address, the second right behind it. */
  lemma FirstDecodes(low: seq<Low>, code: Units, pc: nat)
    requires AllAdmit(low) && Sits(PackAll(low), code, pc) && 0 < |low| <= 2 && Fits(low[0])
    ensures Decode(code, pc) == Intended(low[0])
  {
    hide Decode, Intended, Fits, Pack;
    FirstSits(low, code, pc);
    OneDecodes(low[0], code, pc);
  }

  lemma SecondDecodes(low: seq<Low>, code: Units, pc: nat)
    requires AllAdmit(low) && Sits(PackAll(low), code, pc) && |low| == 2 && Fits(low[1])
    ensures Decode(code, pc + Width(FormatOf(low[0].op))) == Intended(low[1])
  {
    hide Decode, Intended, Fits, Pack, Sits, PackAll;
    SecondSits(low, code, pc);
    OneDecodes(low[1], code, pc + Width(FormatOf(low[0].op)));
  }

  function TargetOf(i: Instruction): nat
    requires Shaped(i)
  {
    if IsBranch(i.op) then i.args[1].id else 0
  }

  lemma IntendedOp(l: Low)
    ensures Intended(l).op == l.op
    ensures l.L21t? ==> Intended(l).vB == l.offset
  {
  }

  lemma ReadSitting(i: Instruction, regs: nat, offset: int, code: Units, pc: nat)
    requires Shaped(i) && i.op != BindLabel && Fit(i, regs, offset) && AllAdmit(Lower(i, regs, offset))
    requires Sits(PackAll(Lower(i, regs, offset)), code, pc)
    ensures ReadAt(code, pc, TakesResult(i), TargetOf(i)) == Canonical(i, regs)
  {
    hide Decode, Lower, Intended, Read, Canonical, Sits, PackAll, Admits;
    Forms(i, regs, offset);
    var low := Lower(i, regs, offset);
    FirstDecodes(low, code, pc);
    IntendedOp(low[0]);
    if |low| == 2 { SecondDecodes(low, code, pc); }
    ReadBack(i, regs, offset);
  }

  /** Decoding the finished code at an instruction's address gives the instruction back. */
  lemma RoundTrip(p: Program, j: nat)
    requires j < |p.code| && p.code[j].op != BindLabel
    requires Fit(p.code[j], p.regs, Displacement(p, j))
    ensures ReadAt(Code(p), Address(p, j), TakesResult(p.code[j]), TargetOf(p.code[j])) == Canonical(p.code[j], p.regs)
  {
    InstructionSits(p, j);
    ReadSitting(p.code[j], p.regs, Displacement(p, j), Code(p), Address(p, j));
  }

  lemma PackedSize(low: seq<Low>)
    requires AllAdmit(low) && 1 <= |low| <= 2
    ensures |PackAll(low)| == Width(FormatOf(low[0].op)) + if |low| == 2 then Width(FormatOf(low[1].op)) else 0
  {
    if |low| == 2 { assert low[1..][1..] == []; } else { assert low[1..] == []; }
  }

  // ---------- reading the whole code from its first unit ----------

  /** The opcodes of move-result. */
  predicate IsResult(op: nat) { op == 0x0a || op == 0x0b || op == 0x0c }

  /** The virtual instructions read one behind the other from pc on; a move-result belongs to the instruction before
      it, and a branch names the address it leads to. */
  function Disassemble(code: Units, pc: nat): seq<Instruction>
    decreases |code| - pc
  {
    if pc >= |code| then []
    else
      var first := Decode(code, pc);
      var next := pc + Width(FormatOf(first.op));
      var second := Decode(code, next);
      if IsResult(second.op) then
        [Read(first, Some(second), Number(pc + first.vB))] + Disassemble(code, next + Width(FormatOf(second.op)))
      else [Read(first, None, Number(pc + first.vB))] + Disassemble(code, next)
  }

  /** Instruction j with the label of a branch replaced by the address it stands for. */
  function Placed(p: Program, j: nat): (i: Instruction)
    requires j < |p.code|
    ensures Shaped(i) && i.op == p.code[j].op
  {
    var i := p.code[j];
    if IsBranch(i.op) then i.(args := [i.args[0], Label(Number(Address(p, j) + Displacement(p, j)))]) else i
  }

  /** All instructions from j on that emit code. */
  function Listing(p: Program, j: nat): seq<Instruction>
    requires j <= |p.code|
    decreases |p.code| - j
  {
    if j == |p.code| then []
    else if p.code[j].op == BindLabel then Listing(p, j + 1)
    else [Canonical(Placed(p, j), p.regs)] + Listing(p, j + 1)
  }

  /** Every field of every instruction fits, branch distances among them. */
  ghost predicate EachFits(p: Program) {
    forall j :: 0 <= j < |p.code| && p.code[j].op != BindLabel ==> Fit(p.code[j], p.regs, Displacement(p, j))
  }

  lemma FirstForm(i: Instruction, regs: nat, offset: int)
    requires Shaped(i) && i.op != BindLabel
    ensures |Lower(i, regs, offset)| > 0 && !IsResult(Lower(i, regs, offset)[0].op)
    ensures TakesResult(i) ==> |Lower(i, regs, offset)| == 2 && IsResult(Lower(i, regs, offset)[1].op)
  {
  }

  /** Where the next instruction starts. */
  lemma NextAddress(p: Program, j: nat)
    requires j < |p.code|
    ensures p.code[j].op == BindLabel ==> Address(p, j + 1) == Address(p, j)
    ensures var low := Lower(p.code[j], p.regs, Displacement(p, j));
            AllAdmit(low) && Address(p, j + 1) == Address(p, j) + |PackAll(low)|
  {
    hide Lower, Accepted, Emitted;
    PrefixAt(p, |p.code|, j);
    EmittedIsPacked(p.code[j], p.regs, Displacement(p, j));
    EmittedSize(ItemAt(p, j), Displacement(p, j));
  }

  lemma OpAt(low: seq<Low>, code: Units, pc: nat)
    requires AllAdmit(low) && Sits(PackAll(low), code, pc) && 0 < |low|
    ensures Decode(code, pc).op == low[0].op
  {
    FirstSits(low, code, pc);
    OneDecodes(low[0], code, pc);
  }

  /** No instruction begins with a move-result. */
  lemma {:induction false} NoResultAt(p: Program, j: nat)
    requires j <= |p.code|
    ensures !IsResult(Decode(Code(p), Address(p, j)).op)
    decreases |p.code| - j
  {
    hide Decode, Lower, Intended, PackAll, Sits, Admits;
    if j == |p.code| {
      PastTheEnd(Code(p), Address(p, j));
    } else if p.code[j].op == BindLabel {
      NextAddress(p, j);
      NoResultAt(p, j + 1);
    } else {
      InstructionSits(p, j);
      FirstForm(p.code[j], p.regs, Displacement(p, j));
      OpAt(Lower(p.code[j], p.regs, Displacement(p, j)), Code(p), Address(p, j));
    }
  }

  lemma PastTheEnd(code: Units, pc: nat)
    requires pc >= |code|
    ensures Decode(code, pc).op == 0
  {
  }

  /** Reading an instruction off its forms, with the address of its label. */
  lemma PlacedReads(p: Program, j: nat)
    requires j < |p.code| && p.code[j].op != BindLabel && Fit(p.code[j], p.regs, Displacement(p, j))
    ensures var pc, low := Address(p, j), Lower(p.code[j], p.regs, Displacement(p, j));
            && 1 <= |low| <= 2
            && Read(Intended(low[0]), if |low| == 2 then Some(Intended(low[1])) else None, Number(pc + Intended(low[0]).vB))
               == Canonical(Placed(p, j), p.regs)
  {
    hide Read, Canonical, Fit, Lower, Intended;
    var i, off := p.code[j], Displacement(p, j);
    if IsBranch(i.op) {
      SameForms(i, p.regs, off, Number(Address(p, j) + off));
      BranchForm(i, p.regs, off);
    }
    Forms(i, p.regs, off);
    ReadBack(Placed(p, j), p.regs, off);
    ReadTarget(Placed(p, j), p.regs, off, Number(Address(p, j) + Intended(Lower(i, p.regs, off)[0]).vB));
  }

  /** The label of a branch does not show in its lowered form. */
  lemma SameForms(i: Instruction, regs: nat, offset: int, target: nat)
    requires Shaped(i) && IsBranch(i.op)
    ensures var k := i.(args := [i.args[0], Label(target)]);
            && Shaped(k) && Lower(k, regs, offset) == Lower(i, regs, offset)
            && (Fit(i, regs, offset) ==> Fit(k, regs, offset))
  {
  }

  /** The target matters to branches only. */
  lemma ReadTarget(i: Instruction, regs: nat, offset: int, target: nat)
    requires Shaped(i) && i.op != BindLabel && ReadsBack(i, regs, offset)
    requires IsBranch(i.op) ==> target == i.args[1].id
    ensures var low := Lower(i, regs, offset);
            |low| > 0 && Read(Intended(low[0]), if |low| > 1 then Some(Intended(low[1])) else None, target) == Canonical(i, regs)
  {
    hide Canonical, Lower, Intended, ReadInvoke;
    if !IsBranch(i.op) { NotBranchForm(i, regs, offset); }
  }

  lemma BranchForm(i: Instruction, regs: nat, offset: int)
    requires Shaped(i) && IsBranch(i.op)
    ensures Intended(Lower(i, regs, offset)[0]).vB == offset
  {
  }

  lemma MoveForm(i: Instruction, regs: nat)
    requires MoveShaped(i)
    ensures LowerMove(i, regs).op != 0x38 && LowerMove(i, regs).op != 0x39
  {
  }

  lemma InvokeForm(op: Op)
    requires IsInvoke(op) || IsInvokeRange(op)
    ensures InvokeOpcode(op) >= 0x6e
  {
  }

  lemma NotBranchForm(i: Instruction, regs: nat, offset: int)
    requires Shaped(i) && i.op != BindLabel && !IsBranch(i.op)
    ensures var op := Intended(Lower(i, regs, offset)[0]).op; op != 0x38 && op != 0x39
  {
    hide LowerMove, InvokeOpcode, Intended, Register, Arg;
    IntendedOp(Lower(i, regs, offset)[0]);
    if IsMove(i.op) { MoveForm(i, regs); }
    if IsInvoke(i.op) || IsInvokeRange(i.op) { InvokeForm(i.op); }
  }

  /** The disassembly takes one instruction and its move-result at a time. */
  lemma TakesOne(code: Units, pc: nat, first: Decoded, second: Option<Decoded>, next: nat)
    requires pc < |code| && Decode(code, pc) == first
    requires var behind := Decode(code, pc + Width(FormatOf(first.op)));
             if second.Some? then behind == second.value && IsResult(behind.op) else !IsResult(behind.op)
    requires next == pc + Width(FormatOf(first.op)) + if second.Some? then Width(FormatOf(second.value.op)) else 0
    ensures Disassemble(code, pc) == [Read(first, second, Number(pc + first.vB))] + Disassemble(code, next)
  {
    hide Decode, Read;
  }

  /** At the address of instruction j the disassembly continues with it and then with the next one. */
  lemma ListsNext(p: Program, j: nat)
    requires j < |p.code| && p.code[j].op != BindLabel && Fit(p.code[j], p.regs, Displacement(p, j))
    ensures Disassemble(Code(p), Address(p, j))
         == [Canonical(Placed(p, j), p.regs)] + Disassemble(Code(p), Address(p, j + 1))
  {
    hide Disassemble, Decode, Lower, Intended, PackAll, Sits, Read, Canonical, Fit, Placed, Admits, Width, FormatOf, IsResult;
    var low := Lower(p.code[j], p.regs, Displacement(p, j));
    PlacedReads(p, j);
    NextAddress(p, j);
    NoResultAt(p, j + 1);
    AddressInside(p, j + 1);
    InstructionSits(p, j);
    PackedSize(low);
    FormsDecode(p, j);
    TakesOne(Code(p), Address(p, j), Intended(low[0]), if |low| == 2 then Some(Intended(low[1])) else None, Address(p, j + 1));
  }

  lemma {:induction false} AddressInside(p: Program, j: nat)
    requires j <= |p.code|
    ensures Address(p, j) <= |Code(p)|
    decreases |p.code| - j
  {
    if j < |p.code| { AddressInside(p, j + 1); }
  }

  /** The forms of instruction j are decoded one behind the other. */
  lemma FormsDecode(p: Program, j: nat)
    requires j < |p.code| && p.code[j].op != BindLabel && Fit(p.code[j], p.regs, Displacement(p, j))
    ensures var pc, low := Address(p, j), Lower(p.code[j], p.regs, Displacement(p, j));
            && Decode(Code(p), pc) == Intended(low[0]) && Intended(low[0]).op == low[0].op
            && (|low| == 2 ==> Decode(Code(p), pc + Width(FormatOf(low[0].op))) == Intended(low[1])
                               && Intended(low[1]).op == low[1].op && IsResult(low[1].op))
  {
    hide Decode, Intended, PackAll, Sits;
    var low := Lower(p.code[j], p.regs, Displacement(p, j));
    InstructionSits(p, j);
    Forms(p.code[j], p.regs, Displacement(p, j));
    FirstForm(p.code[j], p.regs, Displacement(p, j));
    FirstDecodes(low, Code(p), Address(p, j));
    IntendedOp(low[0]);
    if |low| == 2 {
      SecondDecodes(low, Code(p), Address(p, j));
      IntendedOp(low[1]);
    }
  }

  lemma NothingLeft(p: Program)
    ensures Disassemble(Code(p), Address(p, |p.code|)) == []
  {
  }

  lemma {:induction false} ListsFrom(p: Program, j: nat)
    requires j <= |p.code| && EachFits(p)
    ensures Disassemble(Code(p), Address(p, j)) == Listing(p, j)
    decreases |p.code| - j
  {
    hide Fit, Decode, Read, Canonical, Disassemble, Placed, Displacement, Items, Lower;
    if j == |p.code| {
      NothingLeft(p);
    } else {
      ListsFrom(p, j + 1);
      if p.code[j].op == BindLabel {
        NextAddress(p, j);
      } else {
        ListsNext(p, j);
      }
    }
  }

  /** Disassembling the finished code from its first unit lists exactly the program's instructions, in order. */
  lemma Disassembles(p: Program)
    requires EachFits(p)
    ensures Disassemble(Code(p), 0) == Listing(p, 0)
  {
    ListsFrom(p, 0);
  }

  lemma {:induction false} BoundAt(xs: seq<Item>, target: nat, k: nat) returns (m: nat)
    requires k <= |xs| && Bound(xs, target, k).Some?
    ensures m < k && xs[m] == Bind(target) && Bound(xs, target, k).value == Start(xs, m)
  {
    if xs[k - 1] == Bind(target) { m := k - 1; } else { m := BoundAt(xs, target, k - 1); }
  }

  lemma JumpItem(p: Program, j: nat)
    requires j < |p.code| && IsBranch(p.code[j].op)
    ensures ItemAt(p, j).Jump? && p.code[j].args[1] == Label(ItemAt(p, j).target)
  {
  }

  lemma BindItem(p: Program, m: nat)
    requires m < |p.code| && ItemAt(p, m).Bind?
    ensures p.code[m].op == BindLabel && p.code[m].args == [Label(ItemAt(p, m).target)]
  {
  }

  lemma DisplacementIs(p: Program, j: nat, target: nat) returns (m: nat)
    requires j < |p.code| && ItemAt(p, j).Jump? && target == ItemAt(p, j).target
    requires Bound(Items(p), target, |p.code|).Some?
    ensures m < |p.code| && ItemAt(p, m) == Bind(target)
    ensures Displacement(p, j) == Address(p, m) - Address(p, j)
  {
    m := BoundAt(Items(p), target, |p.code|);
    PrefixAt(p, |p.code|, m);
    PrefixAt(p, |p.code|, j);
  }

  /** A decoded branch leads to the place where its label was bound exactly when the distance fits 16 signed bits. */
  lemma BranchLands(p: Program, j: nat) returns (m: nat)
    requires j < |p.code| && IsBranch(p.code[j].op)
    requires Bound(Items(p), p.code[j].args[1].id, |p.code|).Some?
    ensures m < |p.code| && p.code[m].op == BindLabel && p.code[m].args[0] == p.code[j].args[1]
    ensures var pc, there := Address(p, j), Address(p, m);
            pc + Decode(Code(p), pc).vB == there <==> -0x8000 <= there - pc < 0x8000
  {
    JumpItem(p, j);
    m := DisplacementIs(p, j, p.code[j].args[1].id);
    BindItem(p, m);
    InstructionSits(p, j);
    JumpSits(p.code[j], p.regs, Displacement(p, j), Code(p), Address(p, j));
  }

  lemma JumpSits(i: Instruction, regs: nat, offset: int, code: Units, pc: nat)
    requires Shaped(i) && IsBranch(i.op) && AllAdmit(Lower(i, regs, offset))
    requires Sits(PackAll(Lower(i, regs, offset)), code, pc)
    ensures Decode(code, pc).vB == offset <==> -0x8000 <= offset < 0x8000
  {
    var low := Lower(i, regs, offset);
    FirstSits(low, code, pc);
    JumpDecodes(low[0], code, pc);
  }
}
