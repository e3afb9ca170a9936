/**
  The builder's virtual instructions, their lowering to Dalvik formats, and the
  reading of decoded Dalvik instructions back as virtual ones.
*/
module DexInstructions {
  import opened Wrappers
  import opened DexCode

  datatype Value =
    | Local(id: nat) | Parameter(id: nat) | Immediate(id: nat)
    | Str(id: nat) | Label(id: nat) | Type(id: nat)

  datatype Op =
    | BindLabel | BranchEqz | BranchNEqz | CheckCast
    | GetInstanceField | GetStaticField | GetStaticObjectField
    | InvokeDirect | InvokeInterface | InvokeStatic | InvokeVirtual
    | InvokeDirectRange | InvokeInterfaceRange | InvokeStaticRange | InvokeVirtualRange
    | Move | MoveObject | MoveWide | New | NewArray
    | Return | ReturnObject | ReturnWide
    | SetInstanceField | SetStaticField | SetStaticObjectField | AputObject

  datatype Instruction = Instruction(
    op: Op, index: nat, isObject: bool, isWide: bool, dest: Option<Value>, args: seq<Value>)

  predicate IsVariable(v: Value) { v.Local? || v.Parameter? }

  /** DEX register of a variable when the method has `regs` local registers: parameters come last. */
  function Register(v: Value, regs: nat): nat { if v.Parameter? then v.id + regs else v.id }

  // ---------- the encoder's assertions on the shape of an instruction ----------

  predicate HasDest(i: Instruction) { i.dest.Some? && IsVariable(i.dest.value) }

  predicate Variables(args: seq<Value>) { forall k :: 0 <= k < |args| ==> IsVariable(args[k]) }

  predicate IsInvoke(op: Op) { op.InvokeDirect? || op.InvokeInterface? || op.InvokeStatic? || op.InvokeVirtual? }

  predicate IsInvokeRange(op: Op) {
    op.InvokeDirectRange? || op.InvokeInterfaceRange? || op.InvokeStaticRange? || op.InvokeVirtualRange?
  }

  predicate IsStaticField(op: Op) {
    op.GetStaticField? || op.GetStaticObjectField? || op.SetStaticField? || op.SetStaticObjectField?
  }

  predicate IsInstanceField(op: Op) { op.GetInstanceField? || op.SetInstanceField? }

  predicate IsReturn(op: Op) { op.Return? || op.ReturnObject? || op.ReturnWide? }

  predicate IsBranch(op: Op) { op.BranchEqz? || op.BranchNEqz? }

  predicate IsMove(op: Op) { op.Move? || op.MoveObject? || op.MoveWide? }

  predicate MoveShaped(i: Instruction) {
    HasDest(i) && |i.args| == 1 &&
    match i.args[0]
    case Immediate(v) => i.op == Move || (i.op == MoveWide && v <= 0xffff_ffff)
    case Str(_) => true
    case Local(_) => true
    case Parameter(_) => true
    case _ => false
  }

  predicate ResultShaped(i: Instruction) { i.dest.None? || IsVariable(i.dest.value) }

  predicate Shaped(i: Instruction) {
    if IsReturn(i.op) then i.dest.None? && |i.args| <= 1 && Variables(i.args)
    else if IsMove(i.op) then MoveShaped(i)
    else if IsInvoke(i.op) then |i.args| < 5 && Variables(i.args) && ResultShaped(i)
    else if IsInvokeRange(i.op) then |i.args| == 2 && IsVariable(i.args[0]) && i.args[1].Immediate? && ResultShaped(i)
    else if IsBranch(i.op) then |i.args| == 2 && IsVariable(i.args[0]) && i.args[1].Label?
    else
      match i.op
      case BindLabel => |i.args| == 1 && i.args[0].Label?
      case New => HasDest(i) && |i.args| == 1 && i.args[0].Type?
      case CheckCast => HasDest(i) && |i.args| == 1 && i.args[0].Type?
      case NewArray => HasDest(i) && |i.args| == 2 && IsVariable(i.args[0]) && i.args[1].Type?
      case AputObject => HasDest(i) && |i.args| == 2 && Variables(i.args)
      case GetStaticField => HasDest(i) && i.args == []
      case GetStaticObjectField => HasDest(i) && i.args == []
      case SetStaticField => i.dest.None? && |i.args| == 1 && Variables(i.args)
      case SetStaticObjectField => i.dest.None? && |i.args| == 1 && Variables(i.args)
      case GetInstanceField => HasDest(i) && |i.args| == 1 && Variables(i.args)
      case SetInstanceField => i.dest.None? && |i.args| == 2 && Variables(i.args)
  }

  // ---------- lowering ----------

  function Dest(i: Instruction, regs: nat): nat
    requires HasDest(i)
  {
    Register(i.dest.value, regs)
  }

  function Arg(i: Instruction, k: nat, regs: nat): nat {
    if k < |i.args| then Register(i.args[k], regs) else 0
  }

  function LowerMove(i: Instruction, regs: nat): Low
    requires MoveShaped(i)
  {
    var d := Dest(i, regs);
    match i.args[0]
    case Immediate(v) =>
      if i.op == Move then
        if d < 16 && v < 8 then L11n(0x12, d, v)
        else if v <= 65535 then L21s(0x13, d, v)
        else L31i(0x14, d, v % 0x1_0000_0000)
      else if v <= 65535 then L21s(0x16, d, v)
      else L31i(0x17, d, v)
    case Str(s) => L21c(0x1a, d, s)
    case v =>
      L32x(if i.op == Move then 0x03 else if i.op == MoveWide then 0x06 else 0x09, d, Register(v, regs))
  }

  function InvokeOpcode(op: Op): nat {
    match op
    case InvokeVirtual => 0x6e
    case InvokeDirect => 0x70
    case InvokeStatic => 0x71
    case InvokeInterface => 0x72
    case InvokeVirtualRange => 0x74
    case InvokeDirectRange => 0x76
    case InvokeStaticRange => 0x77
    case InvokeInterfaceRange => 0x78
    case _ => 0
  }

  /** The move-result that follows an invoke with a destination. */
  function Result(i: Instruction, regs: nat): seq<Low>
    requires ResultShaped(i)
  {
    if i.dest.None? then []
    else [L11x(if i.isObject then 0x0c else if i.isWide then 0x0b else 0x0a, Register(i.dest.value, regs))]
  }

  function Lower(i: Instruction, regs: nat, offset: int): seq<Low>
    requires Shaped(i)
  {
    if IsReturn(i.op) then
      if i.args == [] then [L10x(0x0e)]
      else [L11x(if i.op == Return then 0x0f else if i.op == ReturnWide then 0x10 else 0x11, Arg(i, 0, regs))]
    else if IsMove(i.op) then [LowerMove(i, regs)]
    else if IsInvoke(i.op) then
      [L35c(InvokeOpcode(i.op), |i.args|, i.index, Arg(i, 0, regs), Arg(i, 1, regs), Arg(i, 2, regs), Arg(i, 3, regs))]
      + Result(i, regs)
    else if IsInvokeRange(i.op) then
      [L3rc(InvokeOpcode(i.op), i.args[1].id, i.index, Arg(i, 0, regs))] + Result(i, regs)
    else
      match i.op
      case BranchEqz => [L21t(0x38, Arg(i, 0, regs), offset)]
      case BranchNEqz => [L21t(0x39, Arg(i, 0, regs), offset)]
      case New => [L21c(0x22, Dest(i, regs), i.args[0].id)]
      case CheckCast => [L21c(0x1f, Dest(i, regs), i.args[0].id)]
      case NewArray => [L22c(0x23, Dest(i, regs), Arg(i, 0, regs), i.args[1].id)]
      case AputObject => [L23x(0x4d, Dest(i, regs), Arg(i, 0, regs), Arg(i, 1, regs))]
      case GetStaticField => [L21c(0x60, Dest(i, regs), i.index)]
      case GetStaticObjectField => [L21c(0x62, Dest(i, regs), i.index)]
      case SetStaticField => [L21c(0x67, Arg(i, 0, regs), i.index)]
      case SetStaticObjectField => [L21c(0x69, Arg(i, 0, regs), i.index)]
      case GetInstanceField => [L22c(0x52, Dest(i, regs), Arg(i, 0, regs), i.index)]
      case SetInstanceField => [L22c(0x59, Arg(i, 1, regs), Arg(i, 0, regs), i.index)]
      case _ => []
  }

  /** All of the encoder's assertions. */
  predicate Accepted(i: Instruction, regs: nat) {
    Shaped(i) &&
    (forall k :: 0 <= k < |Lower(i, regs, 0)| ==> Admits(Lower(i, regs, 0)[k])) &&
    ((i.op.New? || i.op.CheckCast?) ==> Dest(i, regs) < 256) &&
    (IsMove(i.op) && i.args[0].Str? ==> Dest(i, regs) < 256 && i.args[0].id < 65536)
  }

  // ---------- reading decoded instructions back ----------

  function Locals(registers: seq<nat>): (vs: seq<Value>)
    ensures |vs| == |registers| && forall k :: 0 <= k < |vs| ==> vs[k] == Local(registers[k])
  {
    seq(|registers|, k requires 0 <= k < |registers| => Local(registers[k]))
  }

  /** A decoded register number, index or constant. */
  function Number(n: int): nat { if n >= 0 then n else 0 }

  function Reg(n: int): Value { Local(Number(n)) }

  function InvokeOp(opcode: nat): Op {
    match opcode
    case 0x6e => InvokeVirtual
    case 0x70 => InvokeDirect
    case 0x71 => InvokeStatic
    case 0x72 => InvokeInterface
    case 0x74 => InvokeVirtualRange
    case 0x76 => InvokeDirectRange
    case 0x77 => InvokeStaticRange
    case _ => InvokeInterfaceRange
  }

  function ReadInvoke(d: Decoded, result: Option<Decoded>): Instruction {
    var args :=
      if FormatOf(d.op) == F3rc then [Reg(d.vC), Immediate(Number(d.vA))] else Locals(d.arg);
    match result
    case None => Instruction(InvokeOp(d.op), Number(d.vB), false, false, None, args)
    case Some(r) => Instruction(InvokeOp(d.op), Number(d.vB), r.op == 0x0c, r.op == 0x0b, Some(Reg(r.vA)), args)
  }

  function Plain(op: Op, index: nat, dest: Option<Value>, args: seq<Value>): Instruction {
    Instruction(op, index, false, false, dest, args)
  }

  /** The virtual instruction a decoded one stands for, registers written as locals. */
  function Read(d: Decoded, result: Option<Decoded>, target: nat): Instruction {
    var a, b := Reg(d.vA), Reg(d.vB);
    var nb, nc := Number(d.vB), Number(d.vC);
    if d.op == 0x0e then Plain(Return, 0, None, [])
    else if d.op == 0x0f then Plain(Return, 0, None, [a])
    else if d.op == 0x10 then Plain(ReturnWide, 0, None, [a])
    else if d.op == 0x11 then Plain(ReturnObject, 0, None, [a])
    else if d.op == 0x12 || d.op == 0x13 || d.op == 0x14 then Plain(Move, 0, Some(a), [Immediate(nb)])
    else if d.op == 0x16 || d.op == 0x17 then Plain(MoveWide, 0, Some(a), [Immediate(nb)])
    else if d.op == 0x1a then Plain(Move, 0, Some(a), [Str(nb)])
    else if d.op == 0x03 then Plain(Move, 0, Some(a), [b])
    else if d.op == 0x06 then Plain(MoveWide, 0, Some(a), [b])
    else if d.op == 0x09 then Plain(MoveObject, 0, Some(a), [b])
    else if d.op == 0x38 then Plain(BranchEqz, 0, None, [a, Label(target)])
    else if d.op == 0x39 then Plain(BranchNEqz, 0, None, [a, Label(target)])
    else if d.op == 0x22 then Plain(New, 0, Some(a), [Type(nb)])
    else if d.op == 0x1f then Plain(CheckCast, 0, Some(a), [Type(nb)])
    else if d.op == 0x23 then Plain(NewArray, 0, Some(a), [b, Type(nc)])
    else if d.op == 0x4d then Plain(AputObject, 0, Some(a), [b, Reg(d.vC)])
    else if d.op == 0x60 then Plain(GetStaticField, nb, Some(a), [])
    else if d.op == 0x62 then Plain(GetStaticObjectField, nb, Some(a), [])
    else if d.op == 0x67 then Plain(SetStaticField, nb, None, [a])
    else if d.op == 0x69 then Plain(SetStaticObjectField, nb, None, [a])
    else if d.op == 0x52 then Plain(GetInstanceField, nc, Some(a), [b])
    else if d.op == 0x59 then Plain(SetInstanceField, nc, None, [b, a])
    else ReadInvoke(d, result)
  }

  function AsLocals(args: seq<Value>, regs: nat): (vs: seq<Value>)
    ensures |vs| == |args|
    ensures forall k :: 0 <= k < |vs| ==>
              vs[k] == if IsVariable(args[k]) then Local(Register(args[k], regs)) else args[k]
  {
    seq(|args|, k requires 0 <= k < |args| =>
      if IsVariable(args[k]) then Local(Register(args[k], regs)) else args[k])
  }

  /** Forgets what the Dalvik form does not carry: which registers are parameters, and unused fields. */
  function Canonical(i: Instruction, regs: nat): Instruction
    requires Shaped(i)
  {
    var args := AsLocals(i.args, regs);
    var dest := if i.dest.Some? && IsVariable(i.dest.value) then Some(Local(Register(i.dest.value, regs))) else None;
    if IsInvoke(i.op) || IsInvokeRange(i.op) then
      Instruction(i.op, i.index, dest.Some? && i.isObject, dest.Some? && !i.isObject && i.isWide, dest, args)
    else if IsReturn(i.op) then Plain(if args == [] then Return else i.op, 0, None, args)
    else if IsMove(i.op) then Plain(if i.args[0].Str? then Move else i.op, 0, dest, args)
    else if IsStaticField(i.op) || IsInstanceField(i.op) then
      Plain(i.op, i.index, dest, args)
    else Plain(i.op, 0, if IsBranch(i.op) || i.op == BindLabel then None else dest, args)
  }

  /** Every field of every lowered form fits. */
  predicate Fit(i: Instruction, regs: nat, offset: int)
    requires Shaped(i)
  {
    (forall k :: 0 <= k < |Lower(i, regs, offset)| ==> Fits(Lower(i, regs, offset)[k])) &&
    (i.op == Move && i.args[0].Immediate? ==> i.args[0].id < 0x1_0000_0000)
  }

  /** Reading the intended fields of an instruction's lowering gives the instruction back. */
  ghost predicate ReadsBack(i: Instruction, regs: nat, offset: int)
    requires Shaped(i)
  {
    var low := Lower(i, regs, offset);
    |low| > 0 &&
    Read(Intended(low[0]), if |low| > 1 then Some(Intended(low[1])) else None,
         if IsBranch(i.op) then i.args[1].id else 0) == Canonical(i, regs)
  }

  lemma ReturnsReadBack(i: Instruction, regs: nat, offset: int)
    requires Shaped(i) && IsReturn(i.op)
    ensures ReadsBack(i, regs, offset)
  {
  }

  lemma ConstsReadBack(i: Instruction, regs: nat, offset: int)
    requires Shaped(i) && IsMove(i.op) && i.args[0].Immediate? && i.args[0].id < 0x1_0000_0000
    ensures ReadsBack(i, regs, offset)
  {
    hide ReadInvoke;
  }

  lemma CopiesReadBack(i: Instruction, regs: nat, offset: int)
    requires Shaped(i) && IsMove(i.op) && !i.args[0].Immediate?
    ensures ReadsBack(i, regs, offset)
  {
    hide ReadInvoke;
  }

  lemma MovesReadBack(i: Instruction, regs: nat, offset: int)
    requires Shaped(i) && IsMove(i.op) && (i.op == Move && i.args[0].Immediate? ==> i.args[0].id < 0x1_0000_0000)
    ensures ReadsBack(i, regs, offset)
  {
    hide ReadsBack;
    if i.args[0].Immediate? { ConstsReadBack(i, regs, offset); } else { CopiesReadBack(i, regs, offset); }
  }

  lemma InvokeArgs(i: Instruction, regs: nat, args: seq<nat>)
    requires |i.args| <= 4 && Variables(i.args)
    requires args == [Arg(i, 0, regs), Arg(i, 1, regs), Arg(i, 2, regs), Arg(i, 3, regs)][..|i.args|]
    ensures Locals(args) == AsLocals(i.args, regs)
  {
  }

  /** The decoded forms of an invoke: its register list, and the move-result if there is one. */
  lemma InvokeForms(i: Instruction, regs: nat, offset: int)
    requires Shaped(i) && IsInvoke(i.op)
    ensures var low := Lower(i, regs, offset);
            && |low| == (if i.dest.Some? then 2 else 1)
            && Intended(low[0]).op == InvokeOpcode(i.op) && Intended(low[0]).vB == i.index
            && Intended(low[0]).arg == [Arg(i, 0, regs), Arg(i, 1, regs), Arg(i, 2, regs), Arg(i, 3, regs)][..|i.args|]
            && (i.dest.Some? ==> Intended(low[1]).vA == Register(i.dest.value, regs) &&
                                 Intended(low[1]).op == if i.isObject then 0x0c else if i.isWide then 0x0b else 0x0a)
  {
  }

  lemma InvokesReadBack(i: Instruction, regs: nat, offset: int)
    requires Shaped(i) && IsInvoke(i.op)
    ensures ReadsBack(i, regs, offset)
  {
    hide Lower, Intended, AsLocals, Locals;
    InvokeForms(i, regs, offset);
    InvokeArgs(i, regs, Intended(Lower(i, regs, offset)[0]).arg);
  }

  lemma RangeForms(i: Instruction, regs: nat, offset: int)
    requires Shaped(i) && IsInvokeRange(i.op)
    ensures var low := Lower(i, regs, offset);
            && |low| == (if i.dest.Some? then 2 else 1)
            && Intended(low[0]) == Decoded(InvokeOpcode(i.op), i.args[1].id, i.index, Register(i.args[0], regs), [])
            && (i.dest.Some? ==> Intended(low[1]).vA == Register(i.dest.value, regs) &&
                                 Intended(low[1]).op == if i.isObject then 0x0c else if i.isWide then 0x0b else 0x0a)
  {
  }

  lemma RangeArgs(i: Instruction, regs: nat)
    requires Shaped(i) && IsInvokeRange(i.op)
    ensures AsLocals(i.args, regs) == [Local(Register(i.args[0], regs)), Immediate(i.args[1].id)]
  {
  }

  lemma RangesReadBack(i: Instruction, regs: nat, offset: int)
    requires Shaped(i) && IsInvokeRange(i.op)
    ensures ReadsBack(i, regs, offset)
  {
    hide Lower, Intended, AsLocals;
    RangeForms(i, regs, offset);
    RangeArgs(i, regs);
  }

  lemma BranchesReadBack(i: Instruction, regs: nat, offset: int)
    requires Shaped(i) && IsBranch(i.op)
    ensures ReadsBack(i, regs, offset)
  {
  }

  lemma StaticGetsReadBack(i: Instruction, regs: nat, offset: int)
    requires Shaped(i) && (i.op.GetStaticField? || i.op.GetStaticObjectField?)
    ensures ReadsBack(i, regs, offset)
  {
    hide ReadInvoke, LowerMove;
  }

  lemma StaticSetsReadBack(i: Instruction, regs: nat, offset: int)
    requires Shaped(i) && (i.op.SetStaticField? || i.op.SetStaticObjectField?)
    ensures ReadsBack(i, regs, offset)
  {
    hide ReadInvoke, LowerMove;
  }

  lemma StaticFieldsReadBack(i: Instruction, regs: nat, offset: int)
    requires Shaped(i) && IsStaticField(i.op)
    ensures ReadsBack(i, regs, offset)
  {
    hide Shaped, ReadsBack;
    if i.op.GetStaticField? || i.op.GetStaticObjectField? {
      StaticGetsReadBack(i, regs, offset);
    } else {
      StaticSetsReadBack(i, regs, offset);
    }
  }

  lemma InstanceFieldsReadBack(i: Instruction, regs: nat, offset: int)
    requires Shaped(i) && IsInstanceField(i.op)
    ensures ReadsBack(i, regs, offset)
  {
  }

  lemma TypesReadBack(i: Instruction, regs: nat, offset: int)
    requires Shaped(i) && (i.op.New? || i.op.CheckCast?)
    ensures ReadsBack(i, regs, offset)
  {
  }

  lemma NewArraysReadBack(i: Instruction, regs: nat, offset: int)
    requires Shaped(i) && i.op.NewArray?
    ensures ReadsBack(i, regs, offset)
  {
    hide ReadInvoke, LowerMove;
    assert AsLocals(i.args, regs) == [Local(Register(i.args[0], regs)), i.args[1]];
  }

  lemma StoresReadBack(i: Instruction, regs: nat, offset: int)
    requires Shaped(i) && i.op.AputObject?
    ensures ReadsBack(i, regs, offset)
  {
    hide ReadInvoke, LowerMove;
    assert AsLocals(i.args, regs) == [Local(Register(i.args[0], regs)), Local(Register(i.args[1], regs))];
  }

  lemma ReadBack(i: Instruction, regs: nat, offset: int)
    requires Shaped(i) && i.op != BindLabel && Fit(i, regs, offset)
    ensures ReadsBack(i, regs, offset)
  {
    if IsReturn(i.op) { ReturnsReadBack(i, regs, offset); }
    else if IsMove(i.op) { MovesReadBack(i, regs, offset); }
    else if IsInvoke(i.op) { InvokesReadBack(i, regs, offset); }
    else if IsInvokeRange(i.op) { RangesReadBack(i, regs, offset); }
    else if IsBranch(i.op) { BranchesReadBack(i, regs, offset); }
    else if IsStaticField(i.op) { StaticFieldsReadBack(i, regs, offset); }
    else if IsInstanceField(i.op) { InstanceFieldsReadBack(i, regs, offset); }
    else if i.op.New? || i.op.CheckCast? { TypesReadBack(i, regs, offset); }
    else if i.op.NewArray? { NewArraysReadBack(i, regs, offset); }
    else { StoresReadBack(i, regs, offset); }
  }
}
