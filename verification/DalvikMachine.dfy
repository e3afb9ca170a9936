/**
  A register machine for the Dalvik instructions a hook stub uses. It runs code
  units: each step decodes the instruction at pc.
*/
module DalvikMachine {
  import opened Wrappers
  import opened DexCode

  /** Kinds of primitive values, by their shorty characters. */
  type Kind = c: char | c in "ZBCSIFJD" witness 'I'

  predicate IsWide(k: Kind) { k == 'J' || k == 'D' }

  datatype Object =
    | Null
    | Given(id: nat)                   // any object of the application
    | Boxed(kind: Kind, value: int)
    | ArrayOf(id: nat)                 // an Object[] on the heap
    | Hooker                           // the content of the stub's static field

  /** A value passed to or returned from a method. */
  datatype Datum = Primitive(kind: Kind, value: int) | ObjectRef(o: Object)

  /** Contents of one register; a wide value takes two. */
  datatype Word =
    | Unset
    | Const(n: int)
    | Single(kind: Kind, value: int)
    | LowHalf(kind: Kind, value: int)
    | HighHalf(kind: Kind, value: int)
    | Ref(o: Object)

  // ---------- constant pool entries the code refers to ----------

  datatype MethodRef = ValueOf(kind: Kind) | Unbox(kind: Kind) | Callback

  datatype TypeRef = ObjectArray | ObjectType | BoxType(kind: Kind)

  /** Index assignment of the DEX file, and what an index refers to. */
  datatype Pool = Pool(
    methodId: MethodRef -> nat, methodAt: nat -> MethodRef,
    typeId: TypeRef -> nat, typeAt: nat -> TypeRef, field: nat)

  /** Indexes are 16 bits wide and lead back to their entries. */
  ghost predicate Interned(p: Pool) {
    (forall m :: p.methodId(m) < 65536 && p.methodAt(p.methodId(m)) == m) &&
    (forall t :: p.typeId(t) < 65536 && p.typeAt(p.typeId(t)) == t) && p.field < 65536
  }

  // ---------- machine ----------

  /** What the callback answers to an argument array; None when it throws. */
  type Answer = seq<Object> -> Option<Object>

  datatype Machine = Machine(
    regs: seq<Word>, arrays: seq<seq<Object>>, result: Option<Datum>, calls: seq<seq<Object>>)

  datatype Outcome =
    | Running(m: Machine)
    | Returned(value: Option<Datum>, calls: seq<seq<Object>>)
    | Threw(calls: seq<seq<Object>>)
    | Stuck                            // the verifier would have rejected the code

  function Get(m: Machine, r: int): Word { if 0 <= r < |m.regs| then m.regs[r] else Unset }

  function Set(m: Machine, r: int, w: Word): Outcome {
    if 0 <= r < |m.regs| then Running(m.(regs := m.regs[r := w])) else Stuck
  }

  function SetPair(m: Machine, r: int, low: Word, high: Word): Outcome {
    if 0 <= r && r + 1 < |m.regs| then Running(m.(regs := m.regs[r := low][r + 1 := high])) else Stuck
  }

  /** The primitive held by the argument registers of a valueOf call. */
  function PrimitiveIn(words: seq<Word>): Option<Datum> {
    if |words| == 1 && words[0].Single? then Some(Primitive(words[0].kind, words[0].value))
    else if |words| == 2 && words[0].LowHalf? && words[1] == HighHalf(words[0].kind, words[0].value)
    then Some(Primitive(words[0].kind, words[0].value))
    else None
  }

  function Invoke(p: Pool, answer: Answer, id: nat, words: seq<Word>, m: Machine): Outcome {
    match p.methodAt(id)
    case ValueOf(kind) =>
      var d := PrimitiveIn(words);
      if d.Some? && d.value.kind == kind then Running(m.(result := Some(ObjectRef(Boxed(kind, d.value.value))))) else Stuck
    case Unbox(kind) =>
      if |words| != 1 || !words[0].Ref? then Stuck
      else if words[0].o.Null? then Threw(m.calls)
      else if words[0].o.Boxed? && words[0].o.kind == kind
      then Running(m.(result := Some(Primitive(kind, words[0].o.value))))
      else Stuck
    case Callback =>
      if |words| == 2 && words[0] == Ref(Hooker) && words[1].Ref? && words[1].o.ArrayOf? && words[1].o.id < |m.arrays|
      then
        var args := m.arrays[words[1].o.id];
        var calls := m.calls + [args];
        match answer(args)
        case None => Threw(calls)
        case Some(o) => Running(m.(result := Some(ObjectRef(o)), calls := calls))
      else Stuck
  }

  function MoveResult(op: nat, r: int, m: Machine): Outcome {
    match m.result
    case None => Stuck
    case Some(ObjectRef(o)) => if op == 0x0c then Set(m, r, Ref(o)) else Stuck
    case Some(Primitive(k, v)) =>
      if IsWide(k) then if op == 0x0b then SetPair(m, r, LowHalf(k, v), HighHalf(k, v)) else Stuck
      else if op == 0x0a then Set(m, r, Single(k, v)) else Stuck
  }

  function Return(op: nat, r: int, m: Machine): Outcome {
    match Get(m, r)
    case Single(k, v) => if op == 0x0f then Returned(Some(Primitive(k, v)), m.calls) else Stuck
    case LowHalf(k, v) =>
      if op == 0x10 && Get(m, r + 1) == HighHalf(k, v) then Returned(Some(Primitive(k, v)), m.calls) else Stuck
    case Ref(o) => if op == 0x11 then Returned(Some(ObjectRef(o)), m.calls) else Stuck
    case _ => Stuck
  }

  function StoreElement(target: Word, index: Word, value: Word, m: Machine): Outcome {
    if target.Ref? && target.o.ArrayOf? && target.o.id < |m.arrays| && index.Const? && value.Ref? then
      var a := m.arrays[target.o.id];
      if 0 <= index.n < |a| then Running(m.(arrays := m.arrays[target.o.id := a[index.n := value.o]]))
      else Threw(m.calls)
    else Stuck
  }

  function NewArray(r: int, size: Word, ty: TypeRef, m: Machine): Outcome {
    if size.Const? && size.n >= 0 && ty.ObjectArray?
    then Set(m.(arrays := m.arrays + [seq(size.n, _ => Null)]), r, Ref(ArrayOf(|m.arrays|)))
    else Stuck
  }

  function CheckCast(w: Word, ty: TypeRef, m: Machine): Outcome {
    if !w.Ref? then Stuck
    else if w.o.Null? || ty.ObjectType? || (ty.BoxType? && w.o.Boxed? && w.o.kind == ty.kind) then Running(m)
    else Threw(m.calls)
  }

  /** Words of the registers first, first + 1, ... */
  function Range(m: Machine, first: int, count: int): seq<Word> {
    if count == 1 then [Get(m, first)] else if count == 2 then [Get(m, first), Get(m, first + 1)] else []
  }

  function Listed(m: Machine, arg: seq<nat>): seq<Word> {
    if |arg| == 1 then [Get(m, arg[0])] else if |arg| == 2 then [Get(m, arg[0]), Get(m, arg[1])] else []
  }

  /** One decoded instruction. */
  function Step(p: Pool, answer: Answer, d: Decoded, m: Machine): Outcome {
    if d.vB < 0 || d.vC < 0 then Stuck
    else if d.op == 0x12 || d.op == 0x13 then Set(m, d.vA, Const(d.vB))
    else if d.op == 0x16 then SetPair(m, d.vA, LowHalf('J', d.vB), HighHalf('J', d.vB))
    else if d.op == 0x23 then NewArray(d.vA, Get(m, d.vB), p.typeAt(d.vC), m)
    else if d.op == 0x71 || d.op == 0x6e then Invoke(p, answer, d.vB, Listed(m, d.arg), m)
    else if d.op == 0x77 then Invoke(p, answer, d.vB, Range(m, d.vC, d.vA), m)
    else if d.op == 0x0a || d.op == 0x0b || d.op == 0x0c then MoveResult(d.op, d.vA, m)
    else if d.op == 0x4d then StoreElement(Get(m, d.vB), Get(m, d.vC), Get(m, d.vA), m)
    else if d.op == 0x62 && d.vB == p.field then Set(m, d.vA, Ref(Hooker))
    else if d.op == 0x1f then CheckCast(Get(m, d.vA), p.typeAt(d.vB), m)
    else if d.op == 0x0e then Returned(None, m.calls)
    else if d.op == 0x0f || d.op == 0x10 || d.op == 0x11 then Return(d.op, d.vA, m)
    else Stuck
  }

  type Stepper = (Decoded, Machine) -> Outcome

  /** Runs code units from pc: decode, step, go on behind the instruction. */
  function Interpret(step: Stepper, code: Units, pc: nat, m: Machine): Outcome
    decreases |code| - pc
  {
    if pc >= |code| then Stuck
    else
      var d := Decode(code, pc);
      match step(d, m)
      case Running(next) => Interpret(step, code, pc + Width(FormatOf(d.op)), next)
      case end => end
  }
}
