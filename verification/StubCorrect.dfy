/** Running the encoded hook stub boxes every argument, calls back once and returns the unboxed answer. */
module StubCorrect {
  import opened Wrappers
  import opened DexCode
  import opened DexInstructions
  import opened DexEncoder
  import opened DexRoundTrip
  import opened DalvikMachine
  import opened StubRun
  import opened HookStub

  // ---------- every field fits ----------

  predicate AllFit(code: seq<Instruction>) { forall k :: 0 <= k < |code| ==> Fitting(code[k], LocalCount) }

  predicate NoVoid(types: seq<Ty>) { forall k :: 0 <= k < |types| ==> !types[k].Void? }

  /** Every argument begins at slot 253 or before. */
  predicate Encodable(types: seq<Ty>) { NoVoid(types) && (types != [] ==> SlotOf(types, |types| - 1) <= 253) }

  /** The parameter types a method can have, receiver included: no void, and at most 255 argument slots. */
  predicate Callable(types: seq<Ty>) { NoVoid(types) && SlotOf(types, |types|) <= 255 }

  lemma ConstFits(v: nat)
    ensures Fitting(LoadConst(Tmp, v), LocalCount) <==> v < 32768 || 65536 <= v < 0x1_0000_0000
  {
    var i := LoadConst(Tmp, v);
    assert Lower(i, LocalCount, 0)[0] == LowerMove(i, LocalCount);
  }

  lemma StoreFits(slot: nat)
    ensures Fitting(Plain(AputObject, 0, Some(Parameter(slot)), [Params, Tmp]), LocalCount) <==> slot < 254
  {
    var i := Plain(AputObject, 0, Some(Parameter(slot)), [Params, Tmp]);
    assert Lower(i, LocalCount, 0) == [L23x(0x4d, slot + 2, 1, 0)];
    assert Fits(Lower(i, LocalCount, 0)[0]) <==> slot < 254;
  }

  lemma InvokeFits(i: Instruction)
    requires IsInvoke(i.op) && 1 <= |i.args| <= 2 && i.index < 65536 && HasDest(i) && Dest(i, LocalCount) < 256
    requires Variables(i.args) && forall k :: 0 <= k < |i.args| ==> Register(i.args[k], LocalCount) < 16
    ensures Fitting(i, LocalCount)
  {
    hide LowerMove;
  }

  lemma RangeFits(i: Instruction)
    requires IsInvokeRange(i.op) && i.index < 65536 && HasDest(i) && Dest(i, LocalCount) < 256
    requires |i.args| == 2 && i.args[0].Parameter? && i.args[0].id < 65534 && i.args[1].Immediate? && i.args[1].id <= 2
    ensures Fitting(i, LocalCount)
  {
  }

  lemma BoxFits(slot: nat, ty: Ty, p: Pool)
    requires Interned(p) && !ty.Void? && slot < 254
    ensures AllFit(BoxCode(slot, ty, p))
  {
    if ty.Prim? {
      var i := BoxCode(slot, ty, p)[0];
      if i.op.InvokeStatic? { InvokeFits(i); } else { RangeFits(i); }
    }
  }

  lemma TypeFits(i: Instruction)
    requires i.op.CheckCast? && i.dest == Some(Tmp) && |i.args| == 1 && i.args[0].Type? && i.args[0].id < 65536
    ensures Fitting(i, LocalCount)
  {
  }

  lemma NewArrayFits(i: Instruction)
    requires i.op.NewArray? && i.dest == Some(Params) && |i.args| == 2 && i.args[0] == Tmp
    requires i.args[1].Type? && i.args[1].id < 65536
    ensures Fitting(i, LocalCount)
  {
  }

  lemma ReturnFits(i: Instruction)
    requires IsReturn(i.op) && i.dest.None? && (i.args == [] || i.args == [Tmp])
    ensures Fitting(i, LocalCount)
  {
  }

  lemma GetFits(i: Instruction)
    requires i.op.GetStaticObjectField? && i.dest == Some(Tmp) && i.args == [] && i.index < 65536
    ensures Fitting(i, LocalCount)
  {
  }

  lemma CallFits(p: Pool)
    requires Interned(p)
    ensures AllFit(CallCode(p))
  {
    GetFits(CallCode(p)[0]);
    InvokeFits(CallCode(p)[1]);
  }

  lemma ReturnCodeFits(p: Pool, ret: Ty)
    requires Interned(p)
    ensures AllFit(ReturnCode(ret, p))
  {
    var code := ReturnCode(ret, p);
    ReturnFits(code[|code| - 1]);
    if !ret.Void? { TypeFits(code[0]); }
    if ret.Prim? { InvokeFits(code[1]); }
  }

  lemma PrologueFits(count: nat, p: Pool)
    requires Interned(p) && count < 32768
    ensures AllFit(Prologue(count, p))
  {
    ConstFits(count);
    NewArrayFits(Prologue(count, p)[1]);
  }

  lemma {:induction false} SlotsCount(types: seq<Ty>, k: nat)
    requires k <= |types|
    ensures k <= SlotOf(types, k)
  {
    if k > 0 { SlotsCount(types, k - 1); }
  }

  lemma {:induction false} SlotsGrow(types: seq<Ty>, j: nat, k: nat)
    requires j <= k <= |types|
    ensures SlotOf(types, j) <= SlotOf(types, k)
  {
    if j < k { SlotsGrow(types, j, k - 1); }
  }

  /** Instruction sequences all of whose members fit. */
  type FitCode = code: seq<Instruction> | AllFit(code)

  lemma FitsAppend(a: FitCode, b: FitCode) returns (c: FitCode)
    ensures c == a + b
  {
    c := a + b;
  }

  lemma ParameterFits(slot: nat, index: nat, ty: Ty, p: Pool) returns (c: FitCode)
    requires Interned(p) && !ty.Void? && slot < 254 && index < 32768
    ensures c == ParameterCode(slot, index, ty, p)
  {
    BoxFits(slot, ty, p);
    ConstFits(index);
    StoreFits(slot);
    c := FitsAppend(BoxCode(slot, ty, p), StoreCode(slot, index));
  }

  lemma {:induction false} LoopFits(types: seq<Ty>, k: nat, p: Pool) returns (c: FitCode)
    requires Interned(p) && NoVoid(types) && k <= |types| && (k > 0 ==> SlotOf(types, k - 1) <= 253)
    ensures c == LoopCode(types, k, p)
  {
    hide BoxCode, StoreCode, Fitting;
    c := [];
    if k > 0 {
      if k > 1 { SlotsGrow(types, k - 2, k - 1); }
      c := LoopFits(types, k - 1, p);
      SlotsCount(types, k - 1);
      var now := ParameterFits(SlotOf(types, k - 1), k - 1, types[k - 1], p);
      c := FitsAppend(c, now);
    }
  }

  /** All instructions of an encodable stub fit their formats. */
  lemma StubFits(types: seq<Ty>, ret: Ty, p: Pool)
    requires Interned(p) && Encodable(types)
    ensures AllFit(Stub(types, ret, p))
  {
    if types != [] { SlotsCount(types, |types| - 1); }
    PrologueFits(|types|, p);
    var loop := LoopFits(types, |types|, p);
    CallFits(p);
    ReturnCodeFits(p, ret);
    var c := FitsAppend(Prologue(|types|, p), loop);
    c := FitsAppend(c, CallCode(p));
    c := FitsAppend(c, ReturnCode(ret, p));
  }

  lemma LastStore(types: seq<Ty>, ret: Ty, p: Pool) returns (at: nat)
    requires types != []
    ensures at < |Stub(types, ret, p)|
    ensures Stub(types, ret, p)[at] == Plain(AputObject, 0, Some(Parameter(SlotOf(types, |types| - 1))), [Params, Tmp])
  {
    var loop := LoopCode(types, |types|, p);
    assert loop[|loop| - 1] == StoreCode(SlotOf(types, |types| - 1), |types| - 1)[1];
    at := |Prologue(|types|, p)| + |loop| - 1;
  }

  lemma OneMisfit(code: seq<Instruction>, at: nat)
    requires at < |code| && !Fitting(code[at], LocalCount)
    ensures !AllFit(code)
  {
  }

  /** ... and of no other stub: a parameter beyond slot 253 has no 8-bit register. */
  lemma StubFitsOnly(types: seq<Ty>, ret: Ty, p: Pool)
    requires types != [] && SlotOf(types, |types| - 1) > 253
    ensures !AllFit(Stub(types, ret, p))
  {
    var at := LastStore(types, ret, p);
    StoreFits(SlotOf(types, |types| - 1));
    OneMisfit(Stub(types, ret, p), at);
  }

  // ---------- effect of instruction sequences ----------

  function Effect(step: Stepper, i: Instruction, m: Machine): Outcome {
    if Shaped(i) && !i.op.BindLabel? then Exec(step, EntryOf(i, LocalCount), m) else Stuck
  }

  type Doer = (Instruction, Machine) -> Outcome

  /** Effect of the first n instructions. */
  function RunFirst(effect: Doer, code: seq<Instruction>, n: nat, m: Machine): Outcome
    requires n <= |code|
  {
    if n == 0 then Running(m)
    else
      match RunFirst(effect, code, n - 1, m)
      case Running(next) => effect(code[n - 1], next)
      case end => end
  }

  function Run(effect: Doer, code: seq<Instruction>, m: Machine): Outcome { RunFirst(effect, code, |code|, m) }

  function Then(o: Outcome, effect: Doer, code: seq<Instruction>): Outcome {
    if o.Running? then Run(effect, code, o.m) else o
  }

  lemma {:induction false} RunPrefix(effect: Doer, a: seq<Instruction>, b: seq<Instruction>, n: nat, m: Machine)
    requires n <= |a|
    ensures RunFirst(effect, a + b, n, m) == RunFirst(effect, a, n, m)
  {
    if n > 0 { RunPrefix(effect, a, b, n - 1, m); }
  }

  lemma {:induction false} RunSuffix(effect: Doer, a: seq<Instruction>, b: seq<Instruction>, n: nat, m: Machine)
    requires n <= |b|
    ensures RunFirst(effect, a + b, |a| + n, m) ==
      match Run(effect, a, m)
      case Running(next) => RunFirst(effect, b, n, next)
      case end => end
  {
    if n > 0 { RunSuffix(effect, a, b, n - 1, m); } else { RunPrefix(effect, a, b, |a|, m); }
  }

  lemma RunAppend(effect: Doer, a: seq<Instruction>, b: seq<Instruction>, m: Machine)
    ensures Run(effect, a + b, m) == Then(Run(effect, a, m), effect, b)
  {
    RunSuffix(effect, a, b, |b|, m);
  }

  /** Executing entries in order is running the instructions, which must not fall off the end. */
  lemma {:induction false} EntriesRun(
    effect: Doer, step: Stepper, entries: seq<Entry>, code: seq<Instruction>, k: nat, m0: Machine, m: Machine)
    requires |entries| == |code| && forall j, x :: 0 <= j < |code| ==> effect(code[j], x) == Exec(step, entries[j], x)
    requires k <= |code| && RunFirst(effect, code, k, m0) == Running(m)
    ensures var o := Run(effect, code, m0);
            ExecFrom(step, entries, k, m) == if o.Running? then Stuck else o
    decreases |code| - k
  {
    if k < |code| {
      var o := effect(code[k], m);
      if o.Running? {
        EntriesRun(effect, step, entries, code, k + 1, m0, o.m);
      } else {
        EndStays(effect, code, k + 1, |code|, m0);
      }
    }
  }

  lemma {:induction false} EndStays(effect: Doer, code: seq<Instruction>, k: nat, n: nat, m: Machine)
    requires k <= n <= |code| && !RunFirst(effect, code, k, m).Running?
    ensures RunFirst(effect, code, n, m) == RunFirst(effect, code, k, m)
  {
    if k < n { EndStays(effect, code, k, n - 1, m); }
  }

  // ---------- effect of the stub's instructions ----------

  function Stepping(p: Pool, answer: Answer): Stepper { (d, m) => Step(p, answer, d, m) }

  function Doing(p: Pool, answer: Answer): Doer { (i, m) => Effect(Stepping(p, answer), i, m) }

  function Put(m: Machine, r: nat, w: Word): Machine
    requires r < |m.regs|
  {
    m.(regs := m.regs[r := w])
  }

  lemma ConstEffect(p: Pool, answer: Answer, v: nat, m: Machine)
    requires v < 32768 && |m.regs| >= 2
    ensures Effect(Stepping(p, answer), LoadConst(Tmp, v), m) == Running(Put(m, 0, Const(v)))
  {
    var i := LoadConst(Tmp, v);
    assert Lower(i, LocalCount, 0) == [LowerMove(i, LocalCount)];
  }

  lemma NewArrayEffect(p: Pool, answer: Answer, m: Machine, n: nat)
    requires Interned(p) && |m.regs| >= 2 && m.regs[0] == Const(n) && m.arrays == []
    ensures Effect(Stepping(p, answer), Prologue(n, p)[1], m)
         == Running(Put(m, 1, Ref(ArrayOf(0))).(arrays := [seq(n, _ => Null)]))
  {
  }

  lemma StoreEffect(p: Pool, answer: Answer, slot: nat, index: nat, o: Object, m: Machine)
    requires slot + 2 < |m.regs| && m.regs[0] == Const(index) && m.regs[1] == Ref(ArrayOf(0))
    requires m.regs[slot + 2] == Ref(o) && |m.arrays| == 1 && index < |m.arrays[0]|
    ensures Effect(Stepping(p, answer), StoreCode(slot, index)[1], m)
         == Running(m.(arrays := [m.arrays[0][index := o]]))
  {
  }

  lemma GetEffect(p: Pool, answer: Answer, m: Machine)
    requires |m.regs| >= 2
    ensures Effect(Stepping(p, answer), CallCode(p)[0], m) == Running(Put(m, 0, Ref(Hooker)))
  {
  }

  lemma CallEffect(p: Pool, answer: Answer, m: Machine)
    requires Interned(p) && |m.regs| >= 2 && m.regs[0] == Ref(Hooker) && m.regs[1] == Ref(ArrayOf(0)) && |m.arrays| == 1
    ensures Effect(Stepping(p, answer), CallCode(p)[1], m) ==
      var calls := m.calls + [m.arrays[0]];
      match answer(m.arrays[0])
      case None => Threw(calls)
      case Some(o) => Running(Put(m, 0, Ref(o)).(calls := calls, result := Some(ObjectRef(o))))
  {
  }

  /** The argument d occupies the registers from slot on. */
  predicate Holds(m: Machine, slot: nat, d: Datum) {
    slot + 2 < |m.regs| &&
    match d
    case ObjectRef(o) => m.regs[slot + 2] == Ref(o)
    case Primitive(k, v) =>
      if IsWide(k)
      then slot + 3 < |m.regs| && m.regs[slot + 2] == LowHalf(k, v) && m.regs[slot + 3] == HighHalf(k, v)
      else m.regs[slot + 2] == Single(k, v)
  }

  function BoxOf(d: Datum): Object {
    match d
    case ObjectRef(o) => o
    case Primitive(k, v) => Boxed(k, v)
  }

  lemma BoxEntry(p: Pool, slot: nat, kind: Kind)
    ensures var i := BoxCode(slot, Prim(kind), p)[0];
            var n := if IsWide(kind) then 2 else 1;
            && Shaped(i) && !i.op.BindLabel?
            && EntryOf(i, LocalCount).second == Some(Decoded(0x0c, slot + 2, 0, 0, []))
            && (EntryOf(i, LocalCount).first == Decoded(0x77, n, p.methodId(ValueOf(kind)), slot + 2, [])
             || EntryOf(i, LocalCount).first ==
                  Decoded(0x71, n, p.methodId(ValueOf(kind)), slot + 2, if n == 2 then [slot + 2, slot + 3] else [slot + 2]))
  {
    var i := BoxCode(slot, Prim(kind), p)[0];
    if i.op.InvokeStatic? { InvokeForms(i, LocalCount, 0); } else { RangeForms(i, LocalCount, 0); }
  }

  lemma BoxEffect(p: Pool, answer: Answer, slot: nat, d: Datum, m: Machine)
    requires Interned(p) && d.Primitive? && Holds(m, slot, d)
    ensures Effect(Stepping(p, answer), BoxCode(slot, Prim(d.kind), p)[0], m)
         == Running(Put(m, slot + 2, Ref(BoxOf(d))).(result := Some(ObjectRef(BoxOf(d)))))
  {
    hide EntryOf, Shaped;
    BoxEntry(p, slot, d.kind);
  }

  lemma CastEffect(p: Pool, answer: Answer, ty: TypeRef, o: Object, m: Machine)
    requires Interned(p) && |m.regs| >= 2 && m.regs[0] == Ref(o)
    ensures Effect(Stepping(p, answer), Cast(ty, p), m)
         == if o.Null? || ty.ObjectType? || (ty.BoxType? && o.Boxed? && o.kind == ty.kind) then Running(m) else Threw(m.calls)
  {
  }

  lemma UnboxEntry(p: Pool, kind: Kind)
    ensures var i := ReturnCode(Prim(kind), p)[1];
            && Shaped(i) && !i.op.BindLabel?
            && EntryOf(i, LocalCount) == Entry(Decoded(0x6e, 1, p.methodId(Unbox(kind)), 0, [0]),
                                            Some(Decoded(if IsWide(kind) then 0x0b else 0x0a, 0, 0, 0, [])))
  {
    InvokeForms(ReturnCode(Prim(kind), p)[1], LocalCount, 0);
  }

  lemma UnboxEffect(p: Pool, answer: Answer, kind: Kind, o: Object, m: Machine)
    requires Interned(p) && |m.regs| >= 2 && m.regs[0] == Ref(o) && (o.Null? || (o.Boxed? && o.kind == kind))
    ensures Effect(Stepping(p, answer), ReturnCode(Prim(kind), p)[1], m) ==
      if o.Null? then Threw(m.calls)
      else
        var next := m.(result := Some(Primitive(kind, o.value)));
        Running(if IsWide(kind) then Put(Put(next, 0, LowHalf(kind, o.value)), 1, HighHalf(kind, o.value))
                else Put(next, 0, Single(kind, o.value)))
  {
    UnboxEntry(p, kind);
  }

  lemma ReturnEffect(p: Pool, answer: Answer, i: Instruction, m: Machine)
    requires IsReturn(i.op) && i.dest.None? && i.args == [Tmp] && |m.regs| >= 2
    ensures Effect(Stepping(p, answer), i, m)
         == DalvikMachine.Return(if i.op.Return? then 0x0f else if i.op.ReturnWide? then 0x10 else 0x11, 0, m)
  {
  }

  /** What the hooked method's caller sees, given the callback's answer. */
  function Finish(ret: Ty, o: Object, calls: seq<seq<Object>>): Outcome {
    match ret
    case Void => Returned(None, calls)
    case Obj => Returned(Some(ObjectRef(o)), calls)
    case Prim(kind) => if o.Boxed? && o.kind == kind then Returned(Some(Primitive(kind, o.value)), calls) else Threw(calls)
  }

  lemma TwoRun(step: Doer, code: seq<Instruction>, m: Machine)
    requires |code| == 2
    ensures Run(step, code, m) ==
      match step(code[0], m)
      case Running(next) => step(code[1], next)
      case end => end
  {
    assert RunFirst(step, code, 1, m) == step(code[0], m) by { assert RunFirst(step, code, 0, m) == Running(m); }
  }

  lemma ThreeRun(step: Doer, code: seq<Instruction>, m: Machine)
    requires |code| == 3
    ensures Run(step, code, m) ==
      match step(code[0], m)
      case Running(next) => (match step(code[1], next) case Running(last) => step(code[2], last) case end => end)
      case end => end
  {
    assert RunFirst(step, code, 0, m) == Running(m);
    assert RunFirst(step, code, 1, m) == step(code[0], m);
    var o := step(code[0], m);
    assert RunFirst(step, code, 2, m) == if o.Running? then step(code[1], o.m) else o;
  }

  lemma PrimReturns(p: Pool, answer: Answer, kind: Kind, o: Object, m: Machine)
    requires Interned(p) && |m.regs| >= 2 && m.regs[0] == Ref(o)
    ensures Run(Doing(p, answer), ReturnCode(Prim(kind), p), m) == Finish(Prim(kind), o, m.calls)
  {
    hide EntryOf, Shaped;
    var code, step := ReturnCode(Prim(kind), p), Doing(p, answer);
    ThreeRun(step, code, m);
    CastEffect(p, answer, BoxType(kind), o, m);
    if o.Null? || (o.Boxed? && o.kind == kind) {
      UnboxEffect(p, answer, kind, o, m);
      var u := step(code[1], m);
      if u.Running? { ReturnEffect(p, answer, code[2], u.m); }
    }
  }

  lemma ReturnRuns(p: Pool, answer: Answer, ret: Ty, o: Object, m: Machine)
    requires Interned(p) && |m.regs| >= 2 && m.regs[0] == Ref(o)
    ensures Run(Doing(p, answer), ReturnCode(ret, p), m) == Finish(ret, o, m.calls)
  {
    var code, step := ReturnCode(ret, p), Doing(p, answer);
    match ret
    case Prim(kind) => PrimReturns(p, answer, kind, o, m);
    case Obj =>
      TwoRun(step, code, m);
      CastEffect(p, answer, ObjectType, o, m);
      ReturnEffect(p, answer, code[1], m);
    case Void => assert RunFirst(step, code, 0, m) == Running(m);
  }

  // ---------- the loop over the parameters ----------

  function TypeOf(d: Datum): Ty { if d.Primitive? then Prim(d.kind) else Obj }

  function TypesOf(args: seq<Datum>): (types: seq<Ty>)
    ensures |types| == |args| && forall k :: 0 <= k < |args| ==> types[k] == TypeOf(args[k])
  {
    seq(|args|, k requires 0 <= k < |args| => TypeOf(args[k]))
  }

  /** The argument array once k arguments are stored. */
  function Stored(args: seq<Datum>, k: nat): (objects: seq<Object>)
    ensures |objects| == |args|
    ensures forall i :: 0 <= i < |args| ==> objects[i] == if i < k then BoxOf(args[i]) else Null
  {
    seq(|args|, i requires 0 <= i < |args| => if i < k then BoxOf(args[i]) else Null)
  }

  /** What the callback must receive. */
  function Boxes(args: seq<Datum>): seq<Object> { Stored(args, |args|) }

  /** State before parameter k: the array holds k boxes, the later arguments are untouched. */
  ghost predicate AtParameter(m: Machine, args: seq<Datum>, k: nat) {
    k <= |args| && |m.regs| >= 2 && m.regs[1] == Ref(ArrayOf(0)) && m.arrays == [Stored(args, k)] && m.calls == [] &&
    forall j :: k <= j < |args| ==> Holds(m, SlotOf(TypesOf(args), j), args[j])
  }

  lemma HoldsKept(m: Machine, next: Machine, used: nat, slot: nat, d: Datum)
    requires Holds(m, slot, d) && used < slot && |next.regs| == |m.regs|
    requires forall r :: 0 < r < |m.regs| && r != used + 2 ==> next.regs[r] == m.regs[r]
    ensures Holds(next, slot, d)
  {
  }

  lemma LaterSlot(types: seq<Ty>, k: nat, j: nat)
    requires k < j < |types|
    ensures SlotOf(types, k) < SlotOf(types, j)
  {
    SlotsGrow(types, k + 1, j);
  }

  /** Boxing turns the argument's first register into a reference to its box. */
  lemma BoxRuns(p: Pool, answer: Answer, slot: nat, d: Datum, m: Machine) returns (next: Machine)
    requires Interned(p) && Holds(m, slot, d)
    ensures Run(Doing(p, answer), BoxCode(slot, TypeOf(d), p), m) == Running(next)
    ensures |next.regs| == |m.regs| && next.regs[slot + 2] == Ref(BoxOf(d))
    ensures forall r :: 0 <= r < |m.regs| && r != slot + 2 ==> next.regs[r] == m.regs[r]
    ensures next.arrays == m.arrays && next.calls == m.calls
  {
    hide Effect;
    var code, step := BoxCode(slot, TypeOf(d), p), Doing(p, answer);
    assert RunFirst(step, code, 0, m) == Running(m);
    next := m;
    if d.Primitive? {
      BoxEffect(p, answer, slot, d, m);
      next := step(code[0], m).m;
    }
  }

  lemma StoreRuns(p: Pool, answer: Answer, slot: nat, index: nat, o: Object, m: Machine) returns (next: Machine)
    requires index < 32768 && slot + 2 < |m.regs| && m.regs[1] == Ref(ArrayOf(0)) && m.regs[slot + 2] == Ref(o)
    requires |m.arrays| == 1 && index < |m.arrays[0]|
    ensures Run(Doing(p, answer), StoreCode(slot, index), m) == Running(next)
    ensures |next.regs| == |m.regs| && forall r :: 0 < r < |m.regs| ==> next.regs[r] == m.regs[r]
    ensures next.arrays == [m.arrays[0][index := o]] && next.calls == m.calls
  {
    TwoRun(Doing(p, answer), StoreCode(slot, index), m);
    ConstEffect(p, answer, index, m);
    var mid := Put(m, 0, Const(index));
    StoreEffect(p, answer, slot, index, o, mid);
    next := mid.(arrays := [m.arrays[0][index := o]]);
  }

  /** A machine about to handle parameter k of a call. */
  datatype PhaseRec = Phase(m: Machine, args: seq<Datum>, k: nat)

  type Phase = x: PhaseRec | AtParameter(x.m, x.args, x.k)
    witness Phase(Machine([Unset, Ref(ArrayOf(0))], [[]], None, []), [], 0)

  /** One parameter: box it and store it at its index. */
  lemma ParameterRuns(p: Pool, answer: Answer, x: Phase) returns (next: Phase)
    requires Interned(p) && x.k < |x.args| <= 32768
    ensures Run(Doing(p, answer), ParameterCode(SlotOf(TypesOf(x.args), x.k), x.k, TypeOf(x.args[x.k]), p), x.m)
         == Running(next.m)
    ensures next.args == x.args && next.k == x.k + 1
  {
    hide Run, BoxCode, StoreCode, SlotOf, BoxOf;
    var slot, d := SlotOf(TypesOf(x.args), x.k), x.args[x.k];
    RunAppend(Doing(p, answer), BoxCode(slot, TypeOf(d), p), StoreCode(slot, x.k), x.m);
    var boxed := BoxRuns(p, answer, slot, d, x.m);
    var m := StoreRuns(p, answer, slot, x.k, BoxOf(d), boxed);
    AfterParameter(x.args, x.k, x.m, m);
    next := Phase(m, x.args, x.k + 1);
  }

  lemma AfterParameter(args: seq<Datum>, k: nat, m: Machine, next: Machine)
    requires k < |args| && AtParameter(m, args, k) && |next.regs| == |m.regs|
    requires forall r :: 0 < r < |m.regs| && r != SlotOf(TypesOf(args), k) + 2 ==> next.regs[r] == m.regs[r]
    requires next.arrays == [Stored(args, k)[k := BoxOf(args[k])]] && next.calls == m.calls
    ensures AtParameter(next, args, k + 1)
  {
    assert Stored(args, k)[k := BoxOf(args[k])] == Stored(args, k + 1);
    forall j | k + 1 <= j < |args| ensures Holds(next, SlotOf(TypesOf(args), j), args[j]) {
      LaterSlot(TypesOf(args), k, j);
      HoldsKept(m, next, SlotOf(TypesOf(args), k), SlotOf(TypesOf(args), j), args[j]);
    }
  }

  lemma RunThree(step: Doer, a: seq<Instruction>, b: seq<Instruction>, c: seq<Instruction>, m: Machine)
    ensures Run(step, a + b + c, m) == Then(Then(Run(step, a, m), step, b), step, c)
  {
    RunAppend(step, a, b, m);
    RunAppend(step, a + b, c, m);
  }

  lemma LoopStep(step: Doer, types: seq<Ty>, p: Pool, k: nat, m: Machine, mid: Machine)
    requires 0 < k <= |types| && Run(step, LoopCode(types, k - 1, p), m) == Running(mid)
    ensures Run(step, LoopCode(types, k, p), m)
         == Run(step, ParameterCode(SlotOf(types, k - 1), k - 1, types[k - 1], p), mid)
  {
    RunAppend(step, LoopCode(types, k - 1, p), ParameterCode(SlotOf(types, k - 1), k - 1, types[k - 1], p), m);
  }

  lemma LoopStarts(step: Doer, types: seq<Ty>, p: Pool, m: Machine)
    ensures Run(step, LoopCode(types, 0, p), m) == Running(m)
  {
    assert RunFirst(step, [], 0, m) == Running(m);
  }

  lemma {:induction false} LoopRuns(p: Pool, answer: Answer, start: Phase, k: nat) returns (next: Phase)
    requires Interned(p) && k <= |start.args| <= 32768 && start.k == 0
    ensures Run(Doing(p, answer), LoopCode(TypesOf(start.args), k, p), start.m) == Running(next.m)
    ensures next.args == start.args && next.k == k
  {
    hide Run, LoopCode, ParameterCode, SlotOf;
    if k == 0 {
      next := start;
      LoopStarts(Doing(p, answer), TypesOf(start.args), p, start.m);
    } else {
      var mid := LoopRuns(p, answer, start, k - 1);
      LoopStep(Doing(p, answer), TypesOf(start.args), p, k, start.m, mid.m);
      next := ParameterRuns(p, answer, mid);
    }
  }

  // ---------- the whole stub ----------

  function Words(d: Datum): seq<Word> {
    match d
    case ObjectRef(o) => [Ref(o)]
    case Primitive(k, v) => if IsWide(k) then [LowHalf(k, v), HighHalf(k, v)] else [Single(k, v)]
  }

  /** Argument registers of a call. */
  function Frame(args: seq<Datum>, k: nat): (words: seq<Word>)
    requires k <= |args|
    ensures |words| == SlotOf(TypesOf(args), k)
  {
    if k == 0 then [] else Frame(args, k - 1) + Words(args[k - 1])
  }

  /** A call of the stub: two locals, then the arguments. */
  function Called(args: seq<Datum>): Machine {
    Machine([Unset, Unset] + Frame(args, |args|), [], None, [])
  }

  lemma {:induction false} FrameHolds(args: seq<Datum>, j: nat, n: nat, m: Machine)
    requires j < n <= |args| && m.regs == [Unset, Unset] + Frame(args, n)
    ensures Holds(m, SlotOf(TypesOf(args), j), args[j])
  {
    hide TypesOf;
    if j < n - 1 {
      var shorter := m.(regs := [Unset, Unset] + Frame(args, n - 1));
      FrameHolds(args, j, n - 1, shorter);
      assert forall r :: 0 <= r < |shorter.regs| ==> m.regs[r] == shorter.regs[r];
    }
  }

  lemma PrologueRuns(p: Pool, answer: Answer, args: seq<Datum>) returns (next: Machine)
    requires Interned(p) && |args| < 32768
    ensures Run(Doing(p, answer), Prologue(|args|, p), Called(args)) == Running(next)
    ensures AtParameter(next, args, 0)
  {
    var m := Called(args);
    TwoRun(Doing(p, answer), Prologue(|args|, p), m);
    ConstEffect(p, answer, |args|, m);
    var mid := Put(m, 0, Const(|args|));
    NewArrayEffect(p, answer, mid, |args|);
    next := Put(mid, 1, Ref(ArrayOf(0))).(arrays := [seq(|args|, _ => Null)]);
    assert seq(|args|, _ => Null) == Stored(args, 0);
    forall j | 0 <= j < |args| ensures Holds(next, SlotOf(TypesOf(args), j), args[j]) {
      FrameHolds(args, j, |args|, m);
    }
  }

  /** The callback gets the boxed arguments once; its answer decides what the stub returns. */
  function Expected(args: seq<Datum>, ret: Ty, answer: Answer): Outcome {
    var calls := [Boxes(args)];
    match answer(Boxes(args))
    case None => Threw(calls)
    case Some(o) => Finish(ret, o, calls)
  }

  lemma CallRuns(p: Pool, answer: Answer, args: seq<Datum>, m: Machine)
    requires Interned(p) && AtParameter(m, args, |args|)
    ensures var o := Run(Doing(p, answer), CallCode(p), m);
            match answer(Boxes(args))
            case None => o == Threw([Boxes(args)])
            case Some(a) => o.Running? && |o.m.regs| >= 2 && o.m.regs[0] == Ref(a) && o.m.calls == [Boxes(args)]
  {
    TwoRun(Doing(p, answer), CallCode(p), m);
    GetEffect(p, answer, m);
    CallEffect(p, answer, Put(m, 0, Ref(Hooker)));
  }

  /** The stub's instructions compute the expected outcome. */
  lemma StubRuns(p: Pool, answer: Answer, args: seq<Datum>, ret: Ty)
    requires Interned(p) && |args| < 32768
    ensures Run(Doing(p, answer), Stub(TypesOf(args), ret, p), Called(args)) == Expected(args, ret, answer)
  {
    var types, step := TypesOf(args), Doing(p, answer);
    var a, b := Prologue(|types|, p), LoopCode(types, |types|, p);
    RunThree(step, a, b, CallCode(p), Called(args));
    RunAppend(step, a + b + CallCode(p), ReturnCode(ret, p), Called(args));
    var start := PrologueRuns(p, answer, args);
    var full := LoopRuns(p, answer, Phase(start, args, 0), |args|);
    CallRuns(p, answer, args, full.m);
    var o := Run(step, CallCode(p), full.m);
    if o.Running? { ReturnRuns(p, answer, ret, o.m.regs[0].o, o.m); }
  }

  lemma EntriesEffect(p: Pool, answer: Answer, s: Straight)
    requires s.regs == LocalCount
    ensures forall j, x :: 0 <= j < |s.code| ==>
              Doing(p, answer)(s.code[j], x) == Exec(Stepping(p, answer), Entries(s, |s.code|)[j], x)
  {
    forall j, x | 0 <= j < |s.code|
      ensures Doing(p, answer)(s.code[j], x) == Exec(Stepping(p, answer), Entries(s, |s.code|)[j], x)
    {
      EntriesAt(s, |s.code|, j);
    }
  }

  /** Interpreting encoded straight-line code is running its instructions. */
  lemma StraightRuns(p: Pool, answer: Answer, s: Straight, m: Machine)
    requires s.regs == LocalCount
    ensures var o := Run(Doing(p, answer), s.code, m);
            Interpret(Stepping(p, answer), Code(AsProgram(s)), 0, m) == if o.Running? then Stuck else o
  {
    CodeRuns(Stepping(p, answer), s, m);
    EntriesEffect(p, answer, s);
    EntriesRun(Doing(p, answer), Stepping(p, answer), Entries(s, |s.code|), s.code, 0, m, m);
  }

  // ---------- the encoded stub, with and without an overflowing register ----------

  /**
    What the code units of the last parameter say when it lies at slot 254: its register number 256 is cut to eight
    bits where aput-object and move-result-object name it.
  */
  function CutCode(index: nat, ty: Ty, p: Pool): seq<Instruction> {
    (if ty.Prim? then [InvokeObject(InvokeStaticRange, p.methodId(ValueOf(ty.kind)), Tmp, [Parameter(254), Immediate(1)])]
     else [])
    + [LoadConst(Tmp, index), Plain(AputObject, 0, Some(Tmp), [Params, Tmp])]
  }

  /** The instructions whose encoding is that of the stub, and whose fields all fit. */
  function Written(types: seq<Ty>, ret: Ty, p: Pool): seq<Instruction> {
    if Encodable(types) || types == [] then Stub(types, ret, p)
    else
      var n := |types| - 1;
      Prologue(n + 1, p) + LoopCode(types, n, p) + CutCode(n, types[n], p) + CallCode(p) + ReturnCode(ret, p)
  }

  /** Both instructions are accepted and encoded as the same units. */
  ghost predicate Alike(i: Instruction, k: Instruction) {
    Accepted(i, LocalCount) && Accepted(k, LocalCount) && ItemOf(i, LocalCount) == ItemOf(k, LocalCount)
  }

  ghost predicate AllAlike(a: seq<Instruction>, b: seq<Instruction>) {
    |a| == |b| && forall k {:trigger Alike(a[k], b[k])} :: 0 <= k < |a| ==> Alike(a[k], b[k])
  }

  lemma AlikeAppend(a: seq<Instruction>, b: seq<Instruction>, c: seq<Instruction>, d: seq<Instruction>)
    requires AllAlike(a, b) && AllAlike(c, d)
    ensures AllAlike(a + c, b + d)
  {
    hide Alike;
    forall k | 0 <= k < |a + c| ensures Alike((a + c)[k], (b + d)[k]) {
      if k < |a| { assert Alike(a[k], b[k]); } else { assert Alike(c[k - |a|], d[k - |a|]); }
    }
  }

  lemma FitAlike(a: FitCode)
    ensures AllAlike(a, a)
  {
    hide Fit;
    forall k | 0 <= k < |a| ensures Alike(a[k], a[k]) { assert Fitting(a[k], LocalCount); }
  }

  lemma StoreLow(dest: Value)
    requires IsVariable(dest)
    ensures var i := Plain(AputObject, 0, Some(dest), [Params, Tmp]);
            Shaped(i) && Lower(i, LocalCount, 0) == [L23x(0x4d, Register(dest, LocalCount), 1, 0)]
  {
  }

  lemma PackStores()
    ensures var low, cut := [L23x(0x4d, 256, 1, 0)], [L23x(0x4d, 0, 1, 0)];
            AllAdmit(low) && AllAdmit(cut) && PackAll(low) == PackAll(cut)
  {
    PackOne(L23x(0x4d, 256, 1, 0));
    PackOne(L23x(0x4d, 0, 1, 0));
  }

  /** Instructions whose lowered forms pack to the same units. */
  lemma SameUnits(i: Instruction, k: Instruction, low: seq<Low>, cut: seq<Low>)
    requires Shaped(i) && Shaped(k) && i.op == k.op && (IsInvokeRange(i.op) || i.op.AputObject?)
    requires Lower(i, LocalCount, 0) == low && Lower(k, LocalCount, 0) == cut
    requires AllAdmit(low) && AllAdmit(cut) && PackAll(low) == PackAll(cut)
    ensures Alike(i, k)
  {
    hide Lower, PackAll, Admits, Shaped;
  }

  lemma StoreCut()
    ensures Alike(Plain(AputObject, 0, Some(Parameter(254)), [Params, Tmp]), Plain(AputObject, 0, Some(Tmp), [Params, Tmp]))
  {
    hide Alike, Lower, PackAll, Admits, Shaped;
    StoreLow(Parameter(254));
    StoreLow(Tmp);
    PackStores();
    SameUnits(Plain(AputObject, 0, Some(Parameter(254)), [Params, Tmp]), Plain(AputObject, 0, Some(Tmp), [Params, Tmp]),
              [L23x(0x4d, 256, 1, 0)], [L23x(0x4d, 0, 1, 0)]);
  }

  lemma PackOne(l: Low)
    requires Admits(l)
    ensures PackAll([l]) == Pack(l)
  {
    assert [l][1..] == [];
  }

  lemma PackTwo(l: Low, r: Low)
    requires Admits(l) && Admits(r)
    ensures PackAll([l, r]) == Pack(l) + Pack(r)
  {
    assert [l, r][1..] == [r];
    PackOne(r);
  }

  lemma RangeLow(id: nat, dest: Value)
    requires IsVariable(dest)
    ensures var i := InvokeObject(InvokeStaticRange, id, dest, [Parameter(254), Immediate(1)]);
            && Shaped(i) && IsInvokeRange(i.op)
            && Lower(i, LocalCount, 0) == [L3rc(0x77, 1, id, 256), L11x(0x0c, Register(dest, LocalCount))]
  {
  }

  lemma PackCut(id: nat)
    ensures var low, cut := [L3rc(0x77, 1, id, 256), L11x(0x0c, 256)], [L3rc(0x77, 1, id, 256), L11x(0x0c, 0)];
            AllAdmit(low) && AllAdmit(cut) && PackAll(low) == PackAll(cut)
  {
    PackTwo(L3rc(0x77, 1, id, 256), L11x(0x0c, 256));
    PackTwo(L3rc(0x77, 1, id, 256), L11x(0x0c, 0));
  }

  lemma BoxCut(id: nat)
    ensures Alike(InvokeObject(InvokeStaticRange, id, Parameter(254), [Parameter(254), Immediate(1)]),
                  InvokeObject(InvokeStaticRange, id, Tmp, [Parameter(254), Immediate(1)]))
  {
    hide Alike, Lower, PackAll, Admits, Shaped;
    RangeLow(id, Parameter(254));
    RangeLow(id, Tmp);
    PackCut(id);
    SameUnits(InvokeObject(InvokeStaticRange, id, Parameter(254), [Parameter(254), Immediate(1)]),
              InvokeObject(InvokeStaticRange, id, Tmp, [Parameter(254), Immediate(1)]),
              [L3rc(0x77, 1, id, 256), L11x(0x0c, 256)], [L3rc(0x77, 1, id, 256), L11x(0x0c, 0)]);
  }

  lemma ConstAlike(index: nat)
    requires index < 32768
    ensures Alike(LoadConst(Tmp, index), LoadConst(Tmp, index))
  {
    ConstFits(index);
  }

  lemma CutAlike(index: nat, ty: Ty, p: Pool)
    requires index < 32768 && !Wide(ty) && !ty.Void?
    ensures AllAlike(ParameterCode(254, index, ty, p), CutCode(index, ty, p))
  {
    hide Alike;
    ConstAlike(index);
    StoreCut();
    if ty.Prim? { BoxCut(p.methodId(ValueOf(ty.kind))); }
  }

  lemma CutFits(index: nat, ty: Ty, p: Pool) returns (c: FitCode)
    requires Interned(p) && index < 32768 && !Wide(ty) && !ty.Void?
    ensures c == CutCode(index, ty, p)
  {
    hide Fitting;
    var code := CutCode(index, ty, p);
    ConstFits(index);
    CutStoreFits();
    if ty.Prim? { RangeFits(code[0]); }
    c := code;
  }

  lemma CutStoreFits()
    ensures Fitting(Plain(AputObject, 0, Some(Tmp), [Params, Tmp]), LocalCount)
  {
    assert Lower(Plain(AputObject, 0, Some(Tmp), [Params, Tmp]), LocalCount, 0) == [L23x(0x4d, 0, 1, 0)];
  }

  lemma LastAt254(types: seq<Ty>)
    requires Callable(types) && !Encodable(types)
    ensures types != [] && SlotOf(types, |types| - 1) == 254 && !Wide(types[|types| - 1]) && |types| <= 255
  {
    SlotsCount(types, |types|);
  }

  /** The stub is accepted, and encoded as the code that was written. */
  lemma StubAlike(types: seq<Ty>, ret: Ty, p: Pool) returns (c: FitCode)
    requires Interned(p) && Callable(types)
    ensures c == Written(types, ret, p) && AllAlike(Stub(types, ret, p), c)
  {
    hide AllAlike, AllFit, CutCode, ParameterCode, LoopCode, CallCode, ReturnCode, Prologue;
    if Encodable(types) {
      StubFits(types, ret, p);
      c := Stub(types, ret, p);
      FitAlike(c);
    } else {
      c := CutStub(types, ret, p);
    }
  }

  lemma CutStub(types: seq<Ty>, ret: Ty, p: Pool) returns (c: FitCode)
    requires Interned(p) && Callable(types) && !Encodable(types)
    ensures c == Written(types, ret, p) && AllAlike(Stub(types, ret, p), c)
  {
    hide AllAlike, AllFit, CutCode, ParameterCode, CallCode, ReturnCode, Prologue;
    LastAt254(types);
    var n := |types| - 1;
    PrologueFits(n + 1, p);
    if n > 0 { LaterSlot(types, n - 1, n); }
    var loop := LoopFits(types, n, p);
    var cut := CutFits(n, types[n], p);
    CallFits(p);
    ReturnCodeFits(p, ret);
    CutAlike(n, types[n], p);
    var prologue: FitCode, call: FitCode, end: FitCode := Prologue(n + 1, p), CallCode(p), ReturnCode(ret, p);
    c := FourParts(prologue, loop, cut, call, end, ParameterCode(254, n, types[n], p));
    assert prologue + (loop + ParameterCode(254, n, types[n], p)) == prologue + loop + ParameterCode(254, n, types[n], p);
  }

  lemma FourParts(prologue: FitCode, loop: FitCode, cut: FitCode, call: FitCode, end: FitCode, last: seq<Instruction>)
    returns (c: FitCode)
    requires AllAlike(last, cut)
    ensures c == prologue + loop + cut + call + end
    ensures AllAlike(prologue + loop + last + call + end, c)
  {
    hide AllAlike, AllFit;
    FitAlike(prologue);
    FitAlike(loop);
    FitAlike(call);
    FitAlike(end);
    AlikeAppend(prologue, prologue, loop, loop);
    AlikeAppend(prologue + loop, prologue + loop, last, cut);
    AlikeAppend(prologue + loop + last, prologue + loop + cut, call, call);
    AlikeAppend(prologue + loop + last + call, prologue + loop + cut + call, end, end);
    c := FitsAppend(prologue, loop);
    c := FitsAppend(c, cut);
    c := FitsAppend(c, call);
    c := FitsAppend(c, end);
  }

  /** The stub as the encoder takes it. */
  function StubProgram(types: seq<Ty>, ret: Ty, p: Pool): (q: Program)
    requires Interned(p) && Callable(types)
    ensures q.code == Stub(types, ret, p) && q.regs == LocalCount
  {
    StubAccepted(types, ret, p);
    Method(Stub(types, ret, p), LocalCount)
  }

  lemma StubAccepted(types: seq<Ty>, ret: Ty, p: Pool)
    requires Interned(p) && Callable(types)
    ensures AllAccepted(Stub(types, ret, p), LocalCount)
  {
    hide Stub, Accepted, ItemOf;
    var c := StubAlike(types, ret, p);
    var code := Stub(types, ret, p);
    forall k | 0 <= k < |code| ensures Accepted(code[k], LocalCount) { assert Alike(code[k], c[k]); }
  }

  lemma {:induction false} SamePrefixes(p: Program, q: Program, n: nat)
    requires p.regs == q.regs == LocalCount && AllAlike(p.code, q.code) && n <= |p.code|
    ensures Prefix(p, n) == Prefix(q, n)
  {
    hide ItemOf, Accepted;
    if n > 0 {
      SamePrefixes(p, q, n - 1);
      assert Alike(p.code[n - 1], q.code[n - 1]);
    }
  }

  /** The written code as a straight program with the stub's units. */
  lemma WrittenProgram(types: seq<Ty>, ret: Ty, p: Pool) returns (s: Straight)
    requires Interned(p) && Callable(types)
    ensures s.code == Written(types, ret, p) && s.regs == LocalCount
    ensures Items(AsProgram(s)) == Items(StubProgram(types, ret, p))
  {
    hide Stub, Fitting, Written, AllAlike;
    var c := StubAlike(types, ret, p);
    s := Straightened(c);
    SameItems(StubProgram(types, ret, p), AsProgram(s));
  }

  lemma Straightened(c: FitCode) returns (s: Straight)
    ensures s.code == c && s.regs == LocalCount
  {
    s := Method(c, LocalCount);
  }

  lemma SameItems(p: Program, q: Program)
    requires p.regs == q.regs == LocalCount && AllAlike(p.code, q.code)
    ensures Items(p) == Items(q)
  {
    SamePrefixes(p, q, |p.code|);
  }

  /** The encoded units of the stub. */
  function StubCode(types: seq<Ty>, ret: Ty, p: Pool): Units
    requires Interned(p) && Callable(types)
  {
    Code(StubProgram(types, ret, p))
  }

  /** Interpreting the encoded stub is running the code that was written. */
  lemma StubInterpreted(p: Pool, answer: Answer, types: seq<Ty>, ret: Ty, m: Machine)
    requires Interned(p) && Callable(types)
    ensures var o := Run(Doing(p, answer), Written(types, ret, p), m);
            Interpret(Stepping(p, answer), StubCode(types, ret, p), 0, m) == if o.Running? then Stuck else o
  {
    hide Written, Run, Interpret;
    var s := WrittenProgram(types, ret, p);
    StraightRuns(p, answer, s, m);
  }

  /** Cut to register v0, aput-object finds the index constant where it needs an object. */
  lemma CutEffect(p: Pool, answer: Answer, index: nat, m: Machine)
    requires |m.regs| >= 2 && m.regs[0] == Const(index)
    ensures Effect(Stepping(p, answer), Plain(AputObject, 0, Some(Tmp), [Params, Tmp]), m) == Stuck
  {
    assert Lower(Plain(AputObject, 0, Some(Tmp), [Params, Tmp]), LocalCount, 0) == [L23x(0x4d, 0, 1, 0)];
  }

  lemma CutBoxEffect(p: Pool, answer: Answer, kind: Kind, value: int, m: Machine)
    requires Interned(p) && !IsWide(kind) && 256 < |m.regs| && m.regs[256] == Single(kind, value)
    ensures var o := Effect(Stepping(p, answer), CutCode(0, Prim(kind), p)[0], m); o.Running? && |o.m.regs| == |m.regs|
  {
    RangeForms(CutCode(0, Prim(kind), p)[0], LocalCount, 0);
  }

  lemma CutRuns(p: Pool, answer: Answer, x: Phase)
    requires Interned(p) && x.k < |x.args| && x.k < 32768 && SlotOf(TypesOf(x.args), x.k) == 254
    requires !Wide(TypeOf(x.args[x.k]))
    ensures Run(Doing(p, answer), CutCode(x.k, TypeOf(x.args[x.k]), p), x.m) == Stuck
  {
    var d, step := x.args[x.k], Doing(p, answer);
    var code := CutCode(x.k, TypeOf(d), p);
    if d.Primitive? {
      ThreeRun(step, code, x.m);
      CutBoxEffect(p, answer, d.kind, d.value, x.m);
      var boxed := step(code[0], x.m).m;
      ConstEffect(p, answer, x.k, boxed);
      CutEffect(p, answer, x.k, Put(boxed, 0, Const(x.k)));
    } else {
      TwoRun(step, code, x.m);
      ConstEffect(p, answer, x.k, x.m);
      CutEffect(p, answer, x.k, Put(x.m, 0, Const(x.k)));
    }
  }

  /** With the last argument at slot 254 the written code gets stuck in storing it. */
  lemma OverflowRuns(p: Pool, answer: Answer, args: seq<Datum>, ret: Ty)
    requires Interned(p) && Callable(TypesOf(args)) && !Encodable(TypesOf(args))
    ensures Run(Doing(p, answer), Written(TypesOf(args), ret, p), Called(args)) == Stuck
  {
    hide CutCode, Prologue, LoopCode, CallCode, ReturnCode, SlotOf, Run;
    var types, step := TypesOf(args), Doing(p, answer);
    LastAt254(types);
    var n := |types| - 1;
    var a, b, cut := Prologue(n + 1, p), LoopCode(types, n, p), CutCode(n, types[n], p);
    RunThree(step, a, b, cut, Called(args));
    RunThree(step, a + b + cut, CallCode(p), ReturnCode(ret, p), Called(args));
    var start := PrologueRuns(p, answer, args);
    var full := LoopRuns(p, answer, Phase(start, args, 0), n);
    CutRuns(p, answer, full);
  }

  lemma ExpectedEnds(args: seq<Datum>, ret: Ty, answer: Answer)
    ensures Expected(args, ret, answer).Returned? || Expected(args, ret, answer).Threw?
  {
  }

  /**
    Interpreting the encoded stub from its first code unit, on any arguments whose last one begins at slot 253 or
    before, calls back exactly once with the boxed arguments and returns the unboxed answer.
  */
  lemma HookStubCorrect(p: Pool, answer: Answer, args: seq<Datum>, ret: Ty)
    requires Interned(p) && Callable(TypesOf(args)) && Encodable(TypesOf(args))
    ensures Interpret(Stepping(p, answer), StubCode(TypesOf(args), ret, p), 0, Called(args)) == Expected(args, ret, answer)
  {
    hide Interpret, StubCode, Run, Expected, Stub;
    StubInterpreted(p, answer, TypesOf(args), ret, Called(args));
    SlotsCount(TypesOf(args), |args|);
    StubRuns(p, answer, args, ret);
    ExpectedEnds(args, ret, answer);
  }

  lemma OverflowStuck(p: Pool, answer: Answer, args: seq<Datum>, ret: Ty)
    requires Interned(p) && Callable(TypesOf(args)) && !Encodable(TypesOf(args))
    ensures Interpret(Stepping(p, answer), StubCode(TypesOf(args), ret, p), 0, Called(args)) == Stuck
  {
    hide Interpret, StubCode, Run, Written;
    StubInterpreted(p, answer, TypesOf(args), ret, Called(args));
    OverflowRuns(p, answer, args, ret);
  }

  lemma EncodableIs(types: seq<Ty>)
    requires Callable(types)
    ensures Encodable(types) <==> types == [] || SlotOf(types, |types| - 1) <= 253
  {
  }

  /**
    For every argument list a method can have, that is exactly when the encoded stub is right; the one case left, a last
    argument at slot 254, is code no verifier accepts.
  */
  lemma StubExact(p: Pool, answer: Answer, args: seq<Datum>, ret: Ty)
    requires Interned(p) && Callable(TypesOf(args))
    ensures var o := Interpret(Stepping(p, answer), StubCode(TypesOf(args), ret, p), 0, Called(args));
            && (o == Expected(args, ret, answer) <==> args == [] || SlotOf(TypesOf(args), |args| - 1) <= 253)
            && (o == Stuck <==> args != [] && SlotOf(TypesOf(args), |args| - 1) == 254)
  {
    hide Interpret, StubCode, Expected, SlotOf, Interned, Called, Stepping, Callable, Encodable, TypesOf;
    var types := TypesOf(args);
    var o, e := Interpret(Stepping(p, answer), StubCode(types, ret, p), 0, Called(args)), Expected(args, ret, answer);
    ExpectedEnds(args, ret, answer);
    EncodableIs(types);
    assert types == [] <==> args == [];
    if Encodable(types) {
      HookStubCorrect(p, answer, args, ret);
      assert o == e;
    } else {
      LastAt254(types);
      OverflowStuck(p, answer, args, ret);
      assert o == Stuck;
    }
  }

  lemma StraightLabels(s: Straight)
    ensures LabelsOk(Items(AsProgram(s)), 0)
  {
    var xs := Items(AsProgram(s));
    forall k | 0 <= k < |xs| ensures xs[k].Fixed? {
      PrefixAt(AsProgram(s), |xs|, k);
      StraightItem(s, k);
    }
  }

  /** Builds and encodes the hook method of a shorty: the code StubExact speaks about. An empty shorty is refused. */
  method GenerateHook(shorty: string, isStatic: bool, p: Pool) returns (code: Option<Units>)
    requires Interned(p) && (shorty != "" ==> Callable(ParameterTypes(shorty, isStatic)))
    ensures code.None? <==> shorty == ""
    ensures shorty != "" ==>
              code == Some(StubCode(ParameterTypes(shorty, isStatic), FromDescriptor(shorty[0]), p))
  {
    if shorty == "" { return None; }
    ghost var types := ParameterTypes(shorty, isStatic);
    ghost var written := WrittenProgram(types, FromDescriptor(shorty[0]), p);
    StubAccepted(types, FromDescriptor(shorty[0]), p);
    StraightLabels(written);
    var b := new MethodBuilder();
    BuildHook(b, shorty, isStatic, p);
    var q: Program := Method(b.instructions, |b.liveness|);
    b.EncodeInstructions(q);
    code := Some(b.buffer);
  }
}
