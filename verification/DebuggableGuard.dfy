/**
  JavaDebuggableGuard: constructor and destructor run compare-and-swap loops on
  one shared count whose value 1 marks a transition. Guards interleave at every
  atomic operation, and each failed compare-and-swap keeps the value it loaded.
*/
module DebuggableGuard {
  import opened Finite

  /** Progress of one guard object through its constructor, life and destructor. */
  datatype Pc =
    | Absent
    | Opening                    // about to compare-exchange 0 -> 1
    | Enabling                   // won it: about to make the runtime debuggable
    | Enabled                    // about to fetch_add
    | OpenWait                   // loaded 1: waiting for the count to change
    | Joining(expected: nat)     // about to compare-exchange expected -> expected + 1
    | Live
    | Closing                    // about to compare-exchange 2 -> 1
    | Disabling                  // won it: about to make the runtime non-debuggable
    | Disabled                   // about to fetch_sub
    | CloseWait                  // loaded 1: waiting for the count to change
    | Leaving(expected: nat)     // about to compare-exchange expected -> expected - 1

  datatype State = State(count: nat, debuggable: bool, pc: seq<Pc>)

  function Start(guards: nat): State { State(0, false, seq(guards, _ => Absent)) }

  /** Arithmetic of a 64-bit size_t. */
  const WORD := 0x1_0000_0000_0000_0000

  function Plus(n: nat): nat { if n + 1 == WORD then 0 else n + 1 }

  function Minus(n: nat): nat { if n == 0 then WORD - 1 else n - 1 }

  /** A guard can move unless it waits for a count that is still 1. */
  predicate CanMove(s: State, g: nat) {
    g < |s.pc| && (s.pc[g].OpenWait? || s.pc[g].CloseWait? ==> s.count != 1)
  }

  function Move(s: State, g: nat): State
    requires CanMove(s, g)
  {
    match s.pc[g]
    case Absent => At(s, g, Opening)
    case Opening =>
      if s.count == 0 then At(s.(count := 1), g, Enabling)
      else if s.count == 1 then At(s, g, OpenWait)
      else At(s, g, Joining(s.count))
    case Enabling => At(s.(debuggable := true), g, Enabled)
    case Enabled => At(s.(count := Plus(s.count)), g, Live)
    case OpenWait => At(s, g, Opening)
    case Joining(expected) =>
      if s.count == expected then At(s.(count := Plus(expected)), g, Live) else At(s, g, Opening)
    case Live => At(s, g, Closing)
    case Closing =>
      if s.count == 2 then At(s.(count := 1), g, Disabling)
      else if s.count == 1 then At(s, g, CloseWait)
      else At(s, g, Leaving(s.count))
    case Disabling => At(s.(debuggable := false), g, Disabled)
    case Disabled => At(s.(count := Minus(s.count)), g, Absent)
    case CloseWait => At(s, g, Closing)
    case Leaving(expected) =>
      if s.count == expected then At(s.(count := Minus(expected)), g, Absent) else At(s, g, Closing)
  }

  function At(s: State, g: nat, p: Pc): State
    requires g < |s.pc|
  {
    s.(pc := s.pc[g := p])
  }

  /** States along a schedule, given as the guard that moves at each step. */
  ghost predicate Reachable(guards: nat, trace: seq<State>) {
    |trace| > 0 && trace[0] == Start(guards) &&
    forall i :: 0 < i < |trace| ==> StepOf(trace[i - 1], trace[i])
  }

  ghost predicate StepOf(s: State, next: State) {
    exists g: nat :: CanMove(s, g) && next == Move(s, g)
  }

  // ---------- the invariant ----------

  /** Constructed and not yet subtracted from the count. */
  predicate Counted(p: Pc) { p.Live? || p.Closing? || p.Leaving? }

  predicate InTransition(p: Pc) { p.Enabling? || p.Enabled? || p.Disabling? || p.Disabled? }

  ghost function CountedIn(pc: seq<Pc>): set<nat> {
    set g: nat | g < |pc| && Counted(pc[g])
  }

  ghost function TransitionIn(pc: seq<Pc>): set<nat> {
    set g: nat | g < |pc| && InTransition(pc[g])
  }

  ghost predicate LocalInv(s: State, g: nat) requires g < |s.pc| {
    match s.pc[g]
    case Joining(expected) => expected >= 2
    case Leaving(expected) => expected >= 3
    case Enabled => s.debuggable
    case Disabled => !s.debuggable
    case CloseWait => false
    case _ => true
  }

  ghost predicate Inv(s: State) {
    CountInv(s.count, CountedIn(s.pc), TransitionIn(s.pc), s.debuggable) &&
    forall g :: 0 <= g < |s.pc| ==> LocalInv(s, g)
  }

  lemma RoomForOne(s: State, g: nat)
    requires g < |s.pc| && !Counted(s.pc[g])
    ensures |CountedIn(s.pc)| < |s.pc|
  {
    RangeSize(|s.pc|);
    Fewer(CountedIn(s.pc), Range(|s.pc|) - {g});
  }

  lemma Sets(pc: seq<Pc>, g: nat, p: Pc)
    requires g < |pc|
    ensures CountedIn(pc[g := p]) == if Counted(p) then CountedIn(pc) + {g} else CountedIn(pc) - {g}
    ensures TransitionIn(pc[g := p]) == if InTransition(p) then TransitionIn(pc) + {g} else TransitionIn(pc) - {g}
  {
  }

  lemma Membership(pc: seq<Pc>, g: nat)
    requires g < |pc|
    ensures (g in CountedIn(pc) <==> Counted(pc[g])) && (g in TransitionIn(pc) <==> InTransition(pc[g]))
  {
  }

  /** The other guards do not notice a move that leaves the runtime state as it is. */
  lemma OthersKeep(s: State, next: State, g: nat)
    requires Inv(s) && g < |s.pc| == |next.pc| && next.pc == s.pc[g := next.pc[g]]
    requires next.debuggable == s.debuggable && LocalInv(next, g)
    ensures forall u :: 0 <= u < |s.pc| ==> LocalInv(next, u)
  {
    hide CountInv, CountedIn, TransitionIn;
    forall u | 0 <= u < |s.pc| ensures LocalInv(next, u) {
      assert LocalInv(s, u);
    }
  }

  lemma Alone(x: set<nat>, g: nat)
    requires |x| == 1 && g in x
    ensures x == {g}
  {
    assert |x - {g}| == 0;
  }

  /** Count, membership and runtime state agree. */
  ghost predicate CountInv(count: nat, counted: set<nat>, moving: set<nat>, debuggable: bool) {
    (count == 0 ==> counted == {} && moving == {} && !debuggable) &&
    (count == 1 ==> counted == {} && |moving| == 1) &&
    (count >= 2 ==> |counted| == count - 1 && moving == {} && debuggable)
  }

  /** A guard in transition owns the count and the runtime state. */
  lemma TransitionKeeps(s: State, g: nat)
    requires Inv(s) && CanMove(s, g) && InTransition(s.pc[g])
    ensures Inv(Move(s, g))
  {
    var next := Move(s, g);
    assert g in TransitionIn(s.pc);
    assert s.count == 1;
    Alone(TransitionIn(s.pc), g);
    assert LocalInv(s, g);
    Sets(s.pc, g, next.pc[g]);
    assert next.pc == s.pc[g := next.pc[g]];
    forall u | 0 <= u < |s.pc| ensures LocalInv(next, u) {
      assert LocalInv(s, u);
      assert u != g ==> u !in TransitionIn(s.pc);
    }
  }

  /** A guard being constructed, outside its transition. */
  lemma OpeningKeeps(s: State, g: nat)
    requires Inv(s) && CanMove(s, g) && !InTransition(s.pc[g]) && !Counted(s.pc[g]) && |s.pc| + 1 < WORD
    ensures Inv(Move(s, g))
  {
    hide CountedIn, TransitionIn;
    var next := Move(s, g);
    Membership(s.pc, g);
    Sets(s.pc, g, next.pc[g]);
    assert next.pc == s.pc[g := next.pc[g]];
    assert LocalInv(s, g);
    RoomForOne(s, g);
    OthersKeep(s, next, g);
  }

  /** A live guard, or one being destroyed that has not left the count. */
  lemma ClosingKeeps(s: State, g: nat)
    requires Inv(s) && CanMove(s, g) && Counted(s.pc[g])
    ensures Inv(Move(s, g))
  {
    hide CountedIn, TransitionIn;
    var next := Move(s, g);
    Membership(s.pc, g);
    Sets(s.pc, g, next.pc[g]);
    assert next.pc == s.pc[g := next.pc[g]];
    assert LocalInv(s, g);
    assert CountedIn(s.pc) + {g} == CountedIn(s.pc) && TransitionIn(s.pc) - {g} == {};
    if s.count == 2 {
      Alone(CountedIn(s.pc), g);
      assert CountedIn(s.pc) - {g} == {};
    }
    OthersKeep(s, next, g);
  }

  lemma StepKeeps(s: State, next: State)
    requires Inv(s) && StepOf(s, next) && |s.pc| + 1 < WORD
    ensures Inv(next) && |next.pc| == |s.pc|
  {
    var g: nat :| CanMove(s, g) && next == Move(s, g);
    if InTransition(s.pc[g]) { TransitionKeeps(s, g); }
    else if Counted(s.pc[g]) { ClosingKeeps(s, g); }
    else { OpeningKeeps(s, g); }
  }

  lemma {:induction false} TraceInv(guards: nat, trace: seq<State>)
    requires Reachable(guards, trace) && guards + 1 < WORD
    ensures var s := trace[|trace| - 1]; |s.pc| == guards && Inv(s)
  {
    var n := |trace|;
    if n == 1 {
      assert CountedIn(trace[0].pc) == {} && TransitionIn(trace[0].pc) == {};
    } else {
      TraceInv(guards, trace[..n - 1]);
      assert StepOf(trace[n - 1 - 1], trace[n - 1]);
      StepKeeps(trace[n - 2], trace[n - 1]);
    }
  }

  // ---------- what the guard promises ----------

  /** The count tells exactly how many guards are live or who is in transition. */
  lemma CountMeaning(guards: nat, trace: seq<State>)
    requires Reachable(guards, trace) && guards + 1 < WORD
    ensures var s := trace[|trace| - 1];
            && (s.count == 0 <==> CountedIn(s.pc) == {} && TransitionIn(s.pc) == {})
            && (s.count == 1 <==> |TransitionIn(s.pc)| == 1)
            && (s.count == 1 ==> CountedIn(s.pc) == {})
            && (s.count >= 2 ==> |CountedIn(s.pc)| == s.count - 1 && s.debuggable)
            && (s.count == 0 ==> !s.debuggable)
  {
    TraceInv(guards, trace);
  }

  /** Any guard that is constructed and not yet being torn down sees a debuggable runtime. */
  lemma LiveSeesDebuggable(guards: nat, trace: seq<State>, g: nat)
    requires Reachable(guards, trace) && guards + 1 < WORD
    requires var s := trace[|trace| - 1]; g < |s.pc| && Counted(s.pc[g])
    ensures trace[|trace| - 1].debuggable && trace[|trace| - 1].count >= 2
  {
    TraceInv(guards, trace);
    assert g in CountedIn(trace[|trace| - 1].pc);
  }

  /** The destructor never waits, and neither of its subtractions wraps. */
  lemma DestructorNeverWaits(guards: nat, trace: seq<State>, g: nat)
    requires Reachable(guards, trace) && guards + 1 < WORD && g < |trace[|trace| - 1].pc|
    ensures var s := trace[|trace| - 1];
            && !s.pc[g].CloseWait?
            && (s.pc[g].Disabled? ==> s.count == 1)
            && (s.pc[g].Leaving? ==> s.pc[g].expected >= 3)
  {
    TraceInv(guards, trace);
    var s := trace[|trace| - 1];
    assert LocalInv(s, g);
    assert s.pc[g].Disabled? ==> g in TransitionIn(s.pc);
  }

  /** No deadlock: while any guard waits, the one in transition can move. */
  lemma WaiterHasMover(guards: nat, trace: seq<State>, g: nat) returns (h: nat)
    requires Reachable(guards, trace) && guards + 1 < WORD && g < |trace[|trace| - 1].pc|
    requires !CanMove(trace[|trace| - 1], g)
    ensures var s := trace[|trace| - 1]; CanMove(s, h) && InTransition(s.pc[h])
  {
    TraceInv(guards, trace);
    var s := trace[|trace| - 1];
    h :| h in TransitionIn(s.pc);
  }
}
