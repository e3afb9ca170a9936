/**
  MethodBuilder's encoder: one pass over the virtual instructions that appends
  code units and back-patches forward branches when their label is bound.
*/
module DexEncoder {
  import opened Wrappers
  import opened DexCode
  import opened DexInstructions

  /** A forward reference: where the branch starts and which unit holds its offset. */
  datatype Reference = Reference(instruction: nat, field: nat)

  datatype References = Nil | Cons(head: Reference, tail: References)

  datatype LabelData = LabelData(bound: Option<nat>, references: References)

  /** What matters about an instruction for label placement. */
  datatype Item =
    | Fixed(units: Units)
    | Jump(first: nat, target: nat)
    | Bind(target: nat)

  // ---------- where items and labels end up ----------

  function Size(x: Item): nat {
    match x
    case Fixed(units) => |units|
    case Jump(_, _) => 2
    case Bind(_) => 0
  }

  /** Offset of item k in the buffer. */
  function Start(xs: seq<Item>, k: nat): nat
    requires k <= |xs|
  {
    if k == 0 then 0 else Start(xs, k - 1) + Size(xs[k - 1])
  }

  /** Address of a label among the first k items. */
  function Bound(xs: seq<Item>, target: nat, k: nat): Option<nat>
    requires k <= |xs|
  {
    if k == 0 then None
    else if xs[k - 1] == Bind(target) then Some(Start(xs, k - 1))
    else Bound(xs, target, k - 1)
  }

  /** Displacement of the branch at j when the first k items are known; 0 while its label is unbound. */
  function Offset(xs: seq<Item>, j: nat, k: nat): int
    requires j < |xs| && k <= |xs|
  {
    if xs[j].Jump? && Bound(xs, xs[j].target, k).Some?
    then Bound(xs, xs[j].target, k).value - Start(xs, j)
    else 0
  }

  function Emitted(x: Item, offset: int): Units {
    match x
    case Fixed(units) => units
    case Jump(first, _) => [first, U16(offset)]
    case Bind(_) => []
  }

  /** Units of the first j items, branches resolved as far as the first k items allow. */
  function Resolved(xs: seq<Item>, j: nat, k: nat): (u: Units)
    requires j <= |xs| && k <= |xs|
    ensures |u| == Start(xs, j)
  {
    if j == 0 then [] else Resolved(xs, j - 1, k) + Emitted(xs[j - 1], Offset(xs, j - 1, k))
  }

  /** The references to an unbound label, latest first. */
  function Pending(xs: seq<Item>, target: nat, k: nat): References
    requires k <= |xs|
  {
    if k == 0 then Nil
    else if xs[k - 1].Jump? && xs[k - 1].target == target
    then Cons(Reference(Start(xs, k - 1), Start(xs, k - 1) + 1), Pending(xs, target, k - 1))
    else Pending(xs, target, k - 1)
  }

  function LabelAfter(xs: seq<Item>, target: nat, k: nat): LabelData
    requires k <= |xs|
  {
    var bound := Bound(xs, target, k);
    LabelData(bound, if bound.Some? then Nil else Pending(xs, target, k))
  }

  // ---------- patching ----------

  predicate InRange(refs: References, n: nat) {
    refs.Cons? ==> refs.head.field < n && InRange(refs.tail, n)
  }

  function Patched(buffer: Units, refs: References, address: nat): (u: Units)
    requires InRange(refs, |buffer|)
    ensures |u| == |buffer|
    decreases refs
  {
    if refs.Nil? then buffer
    else Patched(buffer[refs.head.field := U16(address - refs.head.instruction)], refs.tail, address)
  }

  lemma {:induction false} InRangeGrows(refs: References, n: nat, m: nat)
    requires InRange(refs, n) && n <= m
    ensures InRange(refs, m)
    decreases refs
  {
    if refs.Cons? { InRangeGrows(refs.tail, n, m); }
  }

  lemma {:induction false} PatchPrefix(a: Units, b: Units, refs: References, address: nat)
    requires InRange(refs, |a|)
    ensures InRange(refs, |a + b|) && Patched(a + b, refs, address) == Patched(a, refs, address) + b
    decreases refs
  {
    InRangeGrows(refs, |a|, |a + b|);
    if refs.Cons? {
      var f, v := refs.head.field, U16(address - refs.head.instruction);
      assert (a + b)[f := v] == a[f := v] + b;
      PatchPrefix(a[f := v], b, refs.tail, address);
    }
  }

  lemma {:induction false} PendingInRange(xs: seq<Item>, target: nat, j: nat)
    requires j <= |xs|
    ensures InRange(Pending(xs, target, j), Start(xs, j))
  {
    if j > 0 {
      PendingInRange(xs, target, j - 1);
      InRangeGrows(Pending(xs, target, j - 1), Start(xs, j - 1), Start(xs, j));
    }
  }

  /** Binding any other item changes no earlier displacement. */
  lemma {:induction false} ResolvedSame(xs: seq<Item>, j: nat, k: nat)
    requires j <= |xs| && k < |xs| && !xs[k].Bind?
    ensures Resolved(xs, j, k + 1) == Resolved(xs, j, k)
  {
    if j > 0 { ResolvedSame(xs, j - 1, k); }
  }

  lemma OffsetAfter(xs: seq<Item>, j: nat, k: nat)
    requires j < k < |xs| && xs[k].Bind? && Bound(xs, xs[k].target, k).None?
    ensures xs[j].Jump? && xs[j].target == xs[k].target ==>
              Offset(xs, j, k) == 0 && Offset(xs, j, k + 1) == Start(xs, k) - Start(xs, j)
    ensures !(xs[j].Jump? && xs[j].target == xs[k].target) ==> Offset(xs, j, k + 1) == Offset(xs, j, k)
  {
  }

  lemma PatchField(before: Units, first: nat, v: nat)
    ensures (before + [first, 0])[|before| + 1 := v] == before + [first, v]
  {
  }

  /** What patching does to the last item before j. */
  lemma PatchLast(xs: seq<Item>, j: nat, k: nat)
    requires 0 < j <= k < |xs| && xs[k].Bind? && Bound(xs, xs[k].target, k).None?
    requires InRange(Pending(xs, xs[k].target, j - 1), Start(xs, j - 1))
    ensures InRange(Pending(xs, xs[k].target, j), Start(xs, j))
    ensures Patched(Resolved(xs, j, k), Pending(xs, xs[k].target, j), Start(xs, k))
         == Patched(Resolved(xs, j - 1, k), Pending(xs, xs[k].target, j - 1), Start(xs, k))
            + Emitted(xs[j - 1], Offset(xs, j - 1, k + 1))
  {
    hide Bound;
    PendingInRange(xs, xs[k].target, j);
    OffsetAfter(xs, j - 1, k);
    var before, x := Resolved(xs, j - 1, k), xs[j - 1];
    var refs := Pending(xs, xs[k].target, j - 1);
    if x.Jump? && x.target == xs[k].target {
      var v := U16(Start(xs, k) - Start(xs, j - 1));
      PatchField(before, x.first, v);
      PatchPrefix(before, [x.first, v], refs, Start(xs, k));
    } else {
      PatchPrefix(before, Emitted(x, Offset(xs, j - 1, k)), refs, Start(xs, k));
    }
  }

  /** Patching the pending references of a label is exactly what binding it requires. */
  lemma {:induction false} PatchResolves(xs: seq<Item>, j: nat, k: nat)
    requires j <= k < |xs| && xs[k].Bind? && Bound(xs, xs[k].target, k).None?
    ensures InRange(Pending(xs, xs[k].target, j), Start(xs, j))
    ensures Patched(Resolved(xs, j, k), Pending(xs, xs[k].target, j), Start(xs, k)) == Resolved(xs, j, k + 1)
  {
    if j > 0 {
      PatchResolves(xs, j - 1, k);
      PatchLast(xs, j, k);
    }
  }

  /** What one more item changes. */
  lemma LabelNext(xs: seq<Item>, l: nat, k: nat)
    requires k < |xs|
    ensures var was := LabelAfter(xs, l, k);
            LabelAfter(xs, l, k + 1) ==
              if xs[k] == Bind(l) then LabelData(Some(Start(xs, k)), Nil)
              else if xs[k].Jump? && xs[k].target == l && was.bound.None? then
                LabelData(None, Cons(Reference(Start(xs, k), Start(xs, k) + 1), was.references))
              else was
  {
  }

  lemma LabelUnbound(xs: seq<Item>, l: nat, k: nat)
    requires k <= |xs| && Bound(xs, l, k).None?
    ensures LabelAfter(xs, l, k) == LabelData(None, Pending(xs, l, k))
  {
  }

  lemma ResolvedNext(xs: seq<Item>, k: nat)
    requires k < |xs|
    ensures Resolved(xs, k + 1, k + 1) == Resolved(xs, k, k + 1) + Emitted(xs[k], Offset(xs, k, k + 1))
  {
    hide Emitted, Offset;
  }

  /** The displacement of a branch is that of its label as known so far. */
  lemma OffsetKnown(xs: seq<Item>, k: nat)
    requires k < |xs| && xs[k].Jump?
    ensures var bound := LabelAfter(xs, xs[k].target, k).bound;
            Offset(xs, k, k + 1) == if bound.Some? then bound.value - Start(xs, k) else 0
  {
  }

  // ---------- from instructions to items ----------

  function PackAll(low: seq<Low>): Units
    requires forall k :: 0 <= k < |low| ==> Admits(low[k])
  {
    if low == [] then [] else Pack(low[0]) + PackAll(low[1..])
  }

  function ItemOf(i: Instruction, regs: nat): Item
    requires Accepted(i, regs)
  {
    if i.op.BindLabel? then Bind(i.args[0].id)
    else if IsBranch(i.op) then
      Jump(U8(Register(i.args[0], regs)) * 256 + (if i.op.BranchEqz? then 0x38 else 0x39), i.args[1].id)
    else Fixed(PackAll(Lower(i, regs, 0)))
  }

  predicate AllAccepted(code: seq<Instruction>, regs: nat) {
    forall k :: 0 <= k < |code| ==> Accepted(code[k], regs)
  }

  /** Instructions that meet the encoder's assertions, and the number of local registers. */
  datatype ProgramRec = Method(code: seq<Instruction>, regs: nat)

  type Program = p: ProgramRec | AllAccepted(p.code, p.regs) witness Method([], 0)

  function ItemAt(p: Program, k: nat): Item
    requires k < |p.code|
  {
    ItemOf(p.code[k], p.regs)
  }

  /** The first n items. */
  function Prefix(p: Program, n: nat): (xs: seq<Item>)
    requires n <= |p.code|
    ensures |xs| == n
  {
    if n == 0 then [] else Prefix(p, n - 1) + [ItemAt(p, n - 1)]
  }

  function Items(p: Program): (xs: seq<Item>) { Prefix(p, |p.code|) }

  lemma {:induction false} PrefixAt(p: Program, n: nat, k: nat)
    requires k < n <= |p.code|
    ensures Prefix(p, n)[k] == ItemAt(p, k)
  {
    if k < n - 1 { PrefixAt(p, n - 1, k); }
  }

  /** Labels were made before use, and none is bound twice. */
  ghost predicate LabelsOk(xs: seq<Item>, labels: nat) {
    forall k :: 0 <= k < |xs| && !xs[k].Fixed? ==>
      xs[k].target < labels && (xs[k].Bind? ==> Bound(xs, xs[k].target, k).None?)
  }

  function Max(a: nat, b: nat): nat { if a >= b then a else b }

  /** Argument count to reserve once an instruction is known. */
  function Wider(most: nat, i: Instruction): nat {
    if IsInvoke(i.op) || IsInvokeRange(i.op) then Max(most, |i.args|) else most
  }

  function MaxArgs(ps: seq<Instruction>, k: nat, most: nat): nat
    requires k <= |ps|
  {
    if k == 0 then most else Wider(MaxArgs(ps, k - 1, most), ps[k - 1])
  }

  // ---------- the builder ----------

  class MethodBuilder {
    var instructions: seq<Instruction>
    var buffer: Units
    var labels: seq<LabelData>
    var maxArgs: nat
    var liveness: seq<bool>

    constructor ()
      ensures instructions == [] && buffer == [] && labels == [] && maxArgs == 0 && liveness == []
    {
      instructions, buffer, labels, maxArgs, liveness := [], [], [], 0, [];
    }

    /** Hands out the lowest register not in use, adding one only when all are. */
    method AllocRegister() returns (v: Value)
      modifies this`liveness
      ensures v.Local? && v.id < |liveness| && liveness[v.id]
      ensures v.id < |old(liveness)| ==> !old(liveness)[v.id] && liveness == old(liveness)[v.id := true]
      ensures v.id >= |old(liveness)| ==> liveness == old(liveness) + [true]
      ensures forall r :: 0 <= r < v.id ==> old(liveness)[r]
    {
      var i := 0;
      while i < |liveness|
        invariant 0 <= i <= |liveness| && liveness == old(liveness)
        invariant forall r :: 0 <= r < i ==> liveness[r]
      {
        if !liveness[i] {
          liveness := liveness[i := true];
          return Local(i);
        }
        i := i + 1;
      }
      liveness := liveness + [true];
      v := Local(|liveness| - 1);
    }

    method MakeLabel() returns (v: Value)
      modifies this`labels
      ensures v == Label(|old(labels)|) && labels == old(labels) + [LabelData(None, Nil)]
    {
      labels := labels + [LabelData(None, Nil)];
      v := Label(|labels| - 1);
    }

    method AddInstruction(i: Instruction)
      modifies this`instructions
      ensures instructions == old(instructions) + [i]
    {
      instructions := instructions + [i];
    }

    /** The displacement of a bound label; otherwise 0, leaving a reference to patch. */
    method LabelValue(target: nat, instruction: nat, field: nat) returns (value: nat)
      requires target < |labels|
      modifies this`labels
      ensures var was := old(labels)[target];
              value == (if was.bound.Some? then U16(was.bound.value - instruction) else 0) &&
              labels == if was.bound.Some? then old(labels)
                        else old(labels)[target := LabelData(None, Cons(Reference(instruction, field), was.references))]
    {
      var data := labels[target];
      if data.bound.Some? { return U16(data.bound.value - instruction); }
      labels := labels[target := data.(references := Cons(Reference(instruction, field), data.references))];
      value := 0;
    }

    /** Binds a label here and patches the branches that were waiting for it. */
    method BindLabel(target: nat)
      requires target < |labels| && labels[target].bound.None?
      requires InRange(labels[target].references, |buffer|)
      modifies this`labels, this`buffer
      ensures labels == old(labels)[target := LabelData(Some(|old(buffer)|), Nil)]
      ensures buffer == Patched(old(buffer), old(labels)[target].references, |old(buffer)|)
    {
      var address := |buffer|;
      var refs := labels[target].references;
      while refs.Cons?
        invariant labels == old(labels) && |buffer| == address && InRange(refs, address)
        invariant Patched(buffer, refs, address) == Patched(old(buffer), old(labels)[target].references, address)
        decreases refs
      {
        buffer := buffer[refs.head.field := U16(address - refs.head.instruction)];
        refs := refs.tail;
      }
      labels := labels[target := LabelData(Some(address), Nil)];
    }

    /** The first k items are encoded. */
    ghost predicate Encoded(xs: seq<Item>, k: nat)
      reads this
      requires k <= |xs|
    {
      buffer == Resolved(xs, k, k) &&
      forall l :: 0 <= l < |labels| ==> labels[l] == LabelAfter(xs, l, k)
    }

    method EncodeItem(x: Item, ghost xs: seq<Item>, ghost k: nat)
      requires k < |xs| && xs[k] == x && LabelsOk(xs, |labels|) && Encoded(xs, k)
      modifies this`buffer, this`labels
      ensures Encoded(xs, k + 1) && |labels| == |old(labels)|
    {
      hide Resolved, LabelAfter, Offset, Start, Bound, Pending;
      ResolvedNext(xs, k);
      if x.Bind? {
        LabelUnbound(xs, x.target, k);
        PatchResolves(xs, k, k);
        BindLabel(x.target);
      } else {
        ResolvedSame(xs, k, k);
        if x.Jump? {
          OffsetKnown(xs, k);
          var start := |buffer|;
          var value := LabelValue(x.target, start, start + 1);
          buffer := buffer + [x.first, value];
        } else {
          buffer := buffer + x.units;
        }
      }
      forall l | 0 <= l < |labels| ensures labels[l] == LabelAfter(xs, l, k + 1) { LabelNext(xs, l, k); }
    }

    method EncodeInstruction(p: Program, k: nat, ghost xs: seq<Item>)
      requires k < |p.code| && xs == Items(p) && LabelsOk(xs, |labels|) && Encoded(xs, k)
      modifies this`buffer, this`labels, this`maxArgs
      ensures Encoded(xs, k + 1) && |labels| == |old(labels)|
      ensures maxArgs == Wider(old(maxArgs), p.code[k])
    {
      PrefixAt(p, |p.code|, k);
      EncodeItem(ItemAt(p, k), xs, k);
      maxArgs := Wider(maxArgs, p.code[k]);
    }

    /** Encodes the whole program in one pass. */
    method EncodeInstructions(p: Program)
      requires p == Method(instructions, |liveness|)
      requires LabelsOk(Items(p), |labels|)
      requires forall l :: 0 <= l < |labels| ==> labels[l] == LabelData(None, Nil)
      modifies this`buffer, this`labels, this`maxArgs
      ensures buffer == Resolved(Items(p), |p.code|, |p.code|)
      ensures maxArgs == MaxArgs(p.code, |p.code|, old(maxArgs))
    {
      buffer := [];
      ghost var xs := Items(p);
      var k := 0;
      while k < |p.code|
        invariant 0 <= k <= |p.code| && |labels| == |old(labels)|
        invariant Encoded(xs, k)
        invariant maxArgs == MaxArgs(p.code, k, old(maxArgs))
      {
        EncodeInstruction(p, k, xs);
        k := k + 1;
      }
    }
  }
}
