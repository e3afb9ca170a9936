/** Running encoded straight-line code is running its instructions one after the other. */
module StubRun {
  import opened Wrappers
  import opened DexCode
  import opened DexInstructions
  import opened DexEncoder
  import opened DexRoundTrip
  import opened DalvikMachine

  // ---------- straight-line code as decoded instructions ----------

  /** An instruction, and the move-result behind it if there is one. */
  datatype Entry = Entry(first: Decoded, second: Option<Decoded>)

  function EntryWidth(e: Entry): (n: nat)
    ensures n > 0
  {
    Width(FormatOf(e.first.op)) + if e.second.Some? then Width(FormatOf(e.second.value.op)) else 0
  }

  /** The decoder reads an entry at pc. */
  predicate ReadsAs(e: Entry, code: Units, pc: nat) {
    Decode(code, pc) == e.first && pc + EntryWidth(e) <= |code| &&
    (e.second.Some? ==> Decode(code, pc + Width(FormatOf(e.first.op))) == e.second.value)
  }

  /** The code reads as the entries one after the other, starting at the given addresses. */
  ghost predicate Laid(entries: seq<Entry>, code: Units, starts: seq<nat>) {
    |starts| == |entries| + 1 && starts[|entries|] == |code| &&
    forall k {:trigger LaidAt(entries, code, starts, k)} :: 0 <= k < |entries| ==> LaidAt(entries, code, starts, k)
  }

  ghost predicate LaidAt(entries: seq<Entry>, code: Units, starts: seq<nat>, k: nat)
    requires k < |entries| && |starts| == |entries| + 1
  {
    ReadsAs(entries[k], code, starts[k]) && starts[k + 1] == starts[k] + EntryWidth(entries[k])
  }

  function Exec(step: Stepper, e: Entry, m: Machine): Outcome {
    match step(e.first, m)
    case Running(next) => if e.second.Some? then step(e.second.value, next) else Running(next)
    case end => end
  }

  function ExecFrom(step: Stepper, entries: seq<Entry>, k: nat, m: Machine): Outcome
    requires k <= |entries|
    decreases |entries| - k
  {
    if k == |entries| then Stuck
    else
      match Exec(step, entries[k], m)
      case Running(next) => ExecFrom(step, entries, k + 1, next)
      case end => end
  }

  lemma OneRuns(step: Stepper, e: Entry, code: Units, pc: nat, m: Machine)
    requires ReadsAs(e, code, pc)
    ensures Interpret(step, code, pc, m) ==
      match Exec(step, e, m)
      case Running(next) => Interpret(step, code, pc + EntryWidth(e), next)
      case end => end
  {
  }

  lemma PastTheCode(step: Stepper, code: Units, m: Machine)
    ensures Interpret(step, code, |code|, m) == Stuck
  {
  }

  /** The interpreter, started at entry k, does what the entries from k on say. */
  lemma {:induction false} RunsInOrder(
    step: Stepper, entries: seq<Entry>, code: Units, starts: seq<nat>, k: nat, m: Machine)
    requires Laid(entries, code, starts) && k <= |entries|
    ensures Interpret(step, code, starts[k], m) == ExecFrom(step, entries, k, m)
    decreases |entries| - k
  {
    hide Interpret, Exec, ReadsAs;
    if k == |entries| {
      PastTheCode(step, code, m);
    } else {
      assert LaidAt(entries, code, starts, k);
      OneRuns(step, entries[k], code, starts[k], m);
      var o := Exec(step, entries[k], m);
      if o.Running? { RunsInOrder(step, entries, code, starts, k + 1, o.m); }
    }
  }

  // ---------- entries of encoded programs ----------

  /** A fitting instruction that is neither a label nor a branch reads as this entry. */
  predicate Fitting(i: Instruction, regs: nat) {
    Accepted(i, regs) && !i.op.BindLabel? && !IsBranch(i.op) && Fit(i, regs, 0)
  }

  function EntryOf(i: Instruction, regs: nat): Entry
    requires Shaped(i) && !i.op.BindLabel?
  {
    Forms(i, regs, 0);
    var low := Lower(i, regs, 0);
    Entry(Intended(low[0]), if |low| == 2 then Some(Intended(low[1])) else None)
  }

  lemma FormsRead(low: seq<Low>, code: Units, pc: nat)
    requires AllAdmit(low) && Sits(PackAll(low), code, pc) && 1 <= |low| <= 2
    requires forall k :: 0 <= k < |low| ==> Fits(low[k])
    ensures Decode(code, pc) == Intended(low[0])
    ensures |low| == 2 ==> Decode(code, pc + Width(FormatOf(low[0].op))) == Intended(low[1])
  {
    FirstDecodes(low, code, pc);
    if |low| == 2 { SecondDecodes(low, code, pc); }
  }

  lemma FittingReads(i: Instruction, regs: nat, code: Units, pc: nat)
    requires Fitting(i, regs) && AllAdmit(Lower(i, regs, 0))
    requires Sits(PackAll(Lower(i, regs, 0)), code, pc) && pc + |PackAll(Lower(i, regs, 0))| <= |code|
    ensures ReadsAs(EntryOf(i, regs), code, pc)
    ensures |PackAll(Lower(i, regs, 0))| == EntryWidth(EntryOf(i, regs))
  {
    Forms(i, regs, 0);
    FormsRead(Lower(i, regs, 0), code, pc);
    PackedSize(Lower(i, regs, 0));
  }

  /** Programs without labels and branches whose fields all fit. */
  type Straight = p: ProgramRec | forall k :: 0 <= k < |p.code| ==> Fitting(p.code[k], p.regs)
    witness Method([], 0)

  function AsProgram(s: Straight): (p: Program)
    ensures p.code == s.code && p.regs == s.regs
  {
    assert AllAccepted(s.code, s.regs);
    s
  }

  function EntryAt(s: Straight, k: nat): Entry
    requires k < |s.code|
  {
    EntryOf(s.code[k], s.regs)
  }

  /** The first n entries. */
  function Entries(s: Straight, n: nat): (entries: seq<Entry>)
    requires n <= |s.code|
    ensures |entries| == n
  {
    if n == 0 then [] else Entries(s, n - 1) + [EntryAt(s, n - 1)]
  }

  lemma {:induction false} EntriesAt(s: Straight, n: nat, k: nat)
    requires k < n <= |s.code|
    ensures Entries(s, n)[k] == EntryAt(s, k)
  {
    hide EntryAt, Fitting;
    if k < n - 1 { EntriesAt(s, n - 1, k); }
  }

  function Starts(xs: seq<Item>): (starts: seq<nat>)
    ensures |starts| == |xs| + 1 && forall k :: 0 <= k <= |xs| ==> starts[k] == Start(xs, k)
  {
    seq(|xs| + 1, k requires 0 <= k <= |xs| => Start(xs, k))
  }

  lemma StraightItem(s: Straight, k: nat)
    requires k < |s.code|
    ensures AllAdmit(Lower(s.code[k], s.regs, 0)) && Fitting(s.code[k], s.regs)
    ensures ItemAt(AsProgram(s), k) == Fixed(PackAll(Lower(s.code[k], s.regs, 0)))
  {
    assert Fitting(s.code[k], s.regs);
  }

  lemma {:induction false} StartMonotone(xs: seq<Item>, j: nat, k: nat)
    requires j <= k <= |xs|
    ensures Start(xs, j) <= Start(xs, k)
  {
    if j < k { StartMonotone(xs, j, k - 1); }
  }

  /** Where an instruction without label or branch sits in the finished code. */
  lemma FixedSits(xs: seq<Item>, k: nat, units: Units)
    requires k < |xs| && xs[k] == Fixed(units)
    ensures Sits(units, Resolved(xs, |xs|, |xs|), Start(xs, k))
    ensures Start(xs, k + 1) == Start(xs, k) + |units| <= Start(xs, |xs|)
  {
    ItemSits(xs, k, |xs|, |xs|);
    StartMonotone(xs, k + 1, |xs|);
  }

  lemma EntryLaid(s: Straight, k: nat)
    requires k < |s.code|
    ensures LaidAt(Entries(s, |s.code|), Code(AsProgram(s)), Starts(Items(AsProgram(s))), k)
  {
    var p := AsProgram(s);
    StraightItem(s, k);
    PrefixAt(p, |p.code|, k);
    EntriesAt(s, |s.code|, k);
    FixedSits(Items(p), k, PackAll(Lower(s.code[k], s.regs, 0)));
    FittingReads(s.code[k], s.regs, Code(p), Start(Items(p), k));
  }

  /** Interpreting the encoded program is executing its entries in order. */
  lemma CodeRuns(step: Stepper, s: Straight, m: Machine)
    ensures Interpret(step, Code(AsProgram(s)), 0, m) == ExecFrom(step, Entries(s, |s.code|), 0, m)
  {
    var entries, code, starts := Entries(s, |s.code|), Code(AsProgram(s)), Starts(Items(AsProgram(s)));
    forall k | 0 <= k < |entries| ensures LaidAt(entries, code, starts, k) { EntryLaid(s, k); }
    RunsInOrder(step, entries, code, starts, 0, m);
  }
}
