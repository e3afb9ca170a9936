/**
  The hook stub BuildDex generates for a shorty: box every argument into an
  Object[], hand it to the callback, unbox the answer.
*/
module HookStub {
  import opened Wrappers
  import opened DexCode
  import opened DexInstructions
  import opened DexEncoder
  import opened DalvikMachine

  // ---------- types ----------

  datatype Ty = Prim(kind: Kind) | Obj | Void

  function FromDescriptor(c: char): Ty {
    if c in "ZBCSIFJD" then Prim(c) else if c == 'V' then Void else Obj
  }

  predicate Wide(ty: Ty) { ty.Prim? && IsWide(ty.kind) }

  function SlotsOf(ty: Ty): nat { if Wide(ty) then 2 else 1 }

  /** Parameter types of a method: the receiver comes first unless the method is static. */
  function ParameterTypes(shorty: string, isStatic: bool): (types: seq<Ty>)
    requires shorty != ""
  {
    (if isStatic then [] else [Obj]) + seq(|shorty| - 1, k requires 0 <= k < |shorty| - 1 => FromDescriptor(shorty[k + 1]))
  }

  /** First argument slot of parameter k. */
  function SlotOf(types: seq<Ty>, k: nat): nat
    requires k <= |types|
  {
    if k == 0 then 0 else SlotOf(types, k - 1) + SlotsOf(types[k - 1])
  }

  // ---------- the stub's instructions ----------

  const Tmp := Local(0)
  const Params := Local(1)

  /** Local registers in use while the stub is built. */
  const LocalCount: nat := 2

  function LoadConst(target: Value, v: nat): Instruction { Plain(Move, 0, Some(target), [Immediate(v)]) }

  function InvokeObject(op: Op, id: nat, dest: Value, args: seq<Value>): Instruction {
    Instruction(op, id, true, false, Some(dest), args)
  }

  /** BuildBoxIfPrimitive with the parameter as both target and source. */
  function BoxCode(slot: nat, ty: Ty, p: Pool): seq<Instruction> {
    var v, pair := Parameter(slot), Parameter(slot + 1);
    if !ty.Prim? then []
    else if IsWide(ty.kind) then
      if Register(v, LocalCount) >= 16 || Register(pair, LocalCount) >= 16
      then [InvokeObject(InvokeStaticRange, p.methodId(ValueOf(ty.kind)), v, [v, Immediate(2)])]
      else [InvokeObject(InvokeStatic, p.methodId(ValueOf(ty.kind)), v, [v, pair])]
    else if Register(v, LocalCount) >= 16
      then [InvokeObject(InvokeStaticRange, p.methodId(ValueOf(ty.kind)), v, [v, Immediate(1)])]
      else [InvokeObject(InvokeStatic, p.methodId(ValueOf(ty.kind)), v, [v])]
  }

  function StoreCode(slot: nat, index: nat): seq<Instruction> {
    [LoadConst(Tmp, index), Plain(AputObject, 0, Some(Parameter(slot)), [Params, Tmp])]
  }

  function ParameterCode(slot: nat, index: nat, ty: Ty, p: Pool): seq<Instruction> {
    BoxCode(slot, ty, p) + StoreCode(slot, index)
  }

  function Prologue(count: nat, p: Pool): seq<Instruction> {
    [LoadConst(Tmp, count), Plain(NewArray, 0, Some(Params), [Tmp, Type(p.typeId(ObjectArray))])]
  }

  /** Code for the first k parameters. */
  function LoopCode(types: seq<Ty>, k: nat, p: Pool): seq<Instruction>
    requires k <= |types|
  {
    if k == 0 then []
    else LoopCode(types, k - 1, p) + ParameterCode(SlotOf(types, k - 1), k - 1, types[k - 1], p)
  }

  function CallCode(p: Pool): seq<Instruction> {
    [Plain(GetStaticObjectField, p.field, Some(Tmp), []),
     InvokeObject(InvokeVirtual, p.methodId(Callback), Tmp, [Tmp, Params])]
  }

  function Cast(ty: TypeRef, p: Pool): Instruction { Plain(CheckCast, 0, Some(Tmp), [Type(p.typeId(ty))]) }

  function ReturnCode(ret: Ty, p: Pool): seq<Instruction> {
    match ret
    case Void => [Plain(Return, 0, None, [])]
    case Obj => [Cast(ObjectType, p), Plain(ReturnObject, 0, None, [Tmp])]
    case Prim(kind) =>
      [Cast(BoxType(kind), p),
       Instruction(InvokeVirtual, p.methodId(Unbox(kind)), false, IsWide(kind), Some(Tmp), [Tmp]),
       if IsWide(kind) then Instruction(ReturnWide, 0, false, true, None, [Tmp]) else Plain(Return, 0, None, [Tmp])]
  }

  function Stub(types: seq<Ty>, ret: Ty, p: Pool): seq<Instruction> {
    Prologue(|types|, p) + LoopCode(types, |types|, p) + CallCode(p) + ReturnCode(ret, p)
  }

  // ---------- building it ----------

  /** BuildBoxIfPrimitive. */
  method BuildBoxIfPrimitive(b: MethodBuilder, slot: nat, ty: Ty, p: Pool)
    requires |b.liveness| == LocalCount
    modifies b`instructions
    ensures b.instructions == old(b.instructions) + BoxCode(slot, ty, p)
  {
    var v, pair := Parameter(slot), Parameter(slot + 1);
    if ty.Prim? {
      var id := p.methodId(ValueOf(ty.kind));
      if IsWide(ty.kind) {
        if Register(v, |b.liveness|) >= 16 || Register(pair, |b.liveness|) >= 16 {
          b.AddInstruction(InvokeObject(InvokeStaticRange, id, v, [v, Immediate(2)]));
        } else {
          b.AddInstruction(InvokeObject(InvokeStatic, id, v, [v, pair]));
        }
      } else if Register(v, |b.liveness|) >= 16 {
        b.AddInstruction(InvokeObject(InvokeStaticRange, id, v, [v, Immediate(1)]));
      } else {
        b.AddInstruction(InvokeObject(InvokeStatic, id, v, [v]));
      }
    }
  }

  /** The instructions BuildDex collects for the hook method. */
  method BuildHook(b: MethodBuilder, shorty: string, isStatic: bool, p: Pool)
    requires shorty != "" && b.instructions == [] && b.liveness == []
    modifies b
    ensures b.instructions == Stub(ParameterTypes(shorty, isStatic), FromDescriptor(shorty[0]), p)
    ensures |b.liveness| == LocalCount && b.labels == old(b.labels)
  {
    var types, ret := ParameterTypes(shorty, isStatic), FromDescriptor(shorty[0]);
    BuildPrologue(b, |types|, p);
    BuildParameters(b, types, p);
    BuildCall(b, p);
    FinishHook(b, ret, p);
  }

  /** Two registers: the temporary first, so that a wide result can take both. */
  method BuildPrologue(b: MethodBuilder, count: nat, p: Pool)
    requires b.instructions == [] && b.liveness == []
    modifies b`instructions, b`liveness
    ensures b.instructions == Prologue(count, p) && |b.liveness| == LocalCount
  {
    var tmp := b.AllocRegister();
    b.AddInstruction(LoadConst(tmp, count));
    var params := b.AllocRegister();
    b.AddInstruction(Plain(NewArray, 0, Some(params), [tmp, Type(p.typeId(ObjectArray))]));
  }

  method BuildParameter(b: MethodBuilder, slot: nat, index: nat, ty: Ty, p: Pool)
    requires |b.liveness| == LocalCount
    modifies b`instructions
    ensures b.instructions == old(b.instructions) + ParameterCode(slot, index, ty, p)
  {
    BuildBoxIfPrimitive(b, slot, ty, p);
    b.AddInstruction(LoadConst(Tmp, index));
    b.AddInstruction(Plain(AputObject, 0, Some(Parameter(slot)), [Params, Tmp]));
  }

  method BuildParameters(b: MethodBuilder, types: seq<Ty>, p: Pool)
    requires |b.liveness| == LocalCount
    modifies b`instructions
    ensures b.instructions == old(b.instructions) + LoopCode(types, |types|, p)
  {
    hide ParameterCode;
    var i, j := 0, 0;
    while i < |types|
      invariant 0 <= i <= |types| && j == SlotOf(types, i)
      invariant b.instructions == old(b.instructions) + LoopCode(types, i, p)
    {
      BuildParameter(b, j, i, types[i], p);
      if Wide(types[i]) { j := j + 1; }
      i, j := i + 1, j + 1;
    }
  }

  method BuildCall(b: MethodBuilder, p: Pool)
    modifies b`instructions
    ensures b.instructions == old(b.instructions) + CallCode(p)
  {
    b.AddInstruction(Plain(GetStaticObjectField, p.field, Some(Tmp), []));
    b.AddInstruction(InvokeObject(InvokeVirtual, p.methodId(Callback), Tmp, [Tmp, Params]));
  }

  method FinishHook(b: MethodBuilder, ret: Ty, p: Pool)
    modifies b`instructions
    ensures b.instructions == old(b.instructions) + ReturnCode(ret, p)
  {
    if ret.Void? {
      b.AddInstruction(Plain(Return, 0, None, []));
    } else if ret.Prim? {
      b.AddInstruction(Cast(BoxType(ret.kind), p));
      b.AddInstruction(Instruction(InvokeVirtual, p.methodId(Unbox(ret.kind)), false, IsWide(ret.kind), Some(Tmp), [Tmp]));
      b.AddInstruction(if IsWide(ret.kind) then Instruction(ReturnWide, 0, false, true, None, [Tmp])
                       else Plain(Return, 0, None, [Tmp]));
    } else {
      b.AddInstruction(Cast(ObjectType, p));
      b.AddInstruction(Plain(ReturnObject, 0, None, [Tmp]));
    }
  }
}
