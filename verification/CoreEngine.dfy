/**
  The Java dispatch engine: prioritised callbacks per member, one native hook
  per member that has any, and dispatch of a call through them.
*/
module CoreEngine {
  import opened Wrappers

  datatype Kind = BEFORE | AFTER | REPLACE

  /** A registered callback; every registration has its own identity. */
  datatype Entry = Entry(id: nat, kind: Kind, priority: int)

  // ---------- the entry list ----------

  /** Insertion behind every entry of at least the same priority. */
  function Insert(list: seq<Entry>, e: Entry): seq<Entry> {
    if list == [] then [e]
    else if list[|list| - 1].priority >= e.priority then list + [e]
    else Insert(list[..|list| - 1], e) + [list[|list| - 1]]
  }

  /** Stable sort by descending priority of the first n entries. */
  function Sorted(list: seq<Entry>, n: nat): seq<Entry>
    requires n <= |list|
  {
    if n == 0 then [] else Insert(Sorted(list, n - 1), list[n - 1])
  }

  ghost predicate Descending(list: seq<Entry>) {
    forall i, j :: 0 <= i < j < |list| ==> list[i].priority >= list[j].priority
  }

  /** The entries of one priority, in list order. */
  function OfPriority(list: seq<Entry>, p: int): seq<Entry> {
    if list == [] then []
    else
      var last := list[|list| - 1];
      OfPriority(list[..|list| - 1], p) + if last.priority == p then [last] else []
  }

  lemma OfPriorityAppend(list: seq<Entry>, e: Entry, p: int)
    ensures OfPriority(list + [e], p) == OfPriority(list, p) + if e.priority == p then [e] else []
  {
    assert (list + [e])[..|list|] == list;
  }

  lemma {:induction false} InsertMax(list: seq<Entry>, e: Entry, low: int)
    requires e.priority >= low && forall i :: 0 <= i < |list| ==> list[i].priority >= low
    ensures forall i :: 0 <= i < |Insert(list, e)| ==> Insert(list, e)[i].priority >= low
  {
    if list != [] && list[|list| - 1].priority < e.priority { InsertMax(list[..|list| - 1], e, low); }
  }

  lemma {:induction false} InsertDescends(list: seq<Entry>, e: Entry)
    requires Descending(list)
    ensures Descending(Insert(list, e))
  {
    if list != [] && list[|list| - 1].priority < e.priority {
      var front, last := list[..|list| - 1], list[|list| - 1];
      InsertDescends(front, e);
      InsertMax(front, e, last.priority);
    }
  }

  /** A new entry comes last among its equals, and the others keep their order. */
  lemma {:induction false} InsertStable(list: seq<Entry>, e: Entry, p: int)
    requires Descending(list)
    ensures OfPriority(Insert(list, e), p) == OfPriority(list, p) + if e.priority == p then [e] else []
  {
    if list == [] || list[|list| - 1].priority >= e.priority {
      OfPriorityAppend(list, e, p);
    } else {
      var front, last := list[..|list| - 1], list[|list| - 1];
      InsertStable(front, e, p);
      OfPriorityAppend(Insert(front, e), last, p);
    }
  }

  lemma {:induction false} InsertNodes(list: seq<Entry>, e: Entry)
    ensures multiset(Insert(list, e)) == multiset(list) + multiset{e}
  {
    if list != [] {
      var front, last := list[..|list| - 1], list[|list| - 1];
      assert list == front + [last];
      if last.priority < e.priority { InsertNodes(front, e); }
    }
  }

  lemma InsertLast(list: seq<Entry>, e: Entry)
    requires list == [] || list[|list| - 1].priority >= e.priority
    ensures Insert(list, e) == list + [e]
  {
  }

  /** Sorting a list that is already in order, except for its last entry, inserts that entry. */
  lemma {:induction false} SortedSame(list: seq<Entry>, n: nat)
    requires n <= |list| && Descending(list)
    ensures Sorted(list, n) == list[..n]
  {
    if n > 0 {
      SortedSame(list, n - 1);
      InsertLast(list[..n - 1], list[n - 1]);
      assert list[..n] == list[..n - 1] + [list[n - 1]];
    }
  }

  lemma {:induction false} SortedPrefix(list: seq<Entry>, more: seq<Entry>, n: nat)
    requires n <= |list|
    ensures Sorted(list + more, n) == Sorted(list, n)
  {
    if n > 0 { SortedPrefix(list, more, n - 1); }
  }

  /** What `entries.add(e); entries.sort(...)` leaves of an ordered list. */
  lemma AddAndSort(list: seq<Entry>, e: Entry)
    requires Descending(list)
    ensures Sorted(list + [e], |list| + 1) == Insert(list, e)
  {
    SortedPrefix(list, [e], |list|);
    SortedSame(list, |list|);
    assert list[..|list|] == list;
  }

  /** The list without one registration. */
  function Without(list: seq<Entry>, e: Entry): seq<Entry> {
    if list == [] then []
    else
      var last := list[|list| - 1];
      Without(list[..|list| - 1], e) + if last == e then [] else [last]
  }

  lemma WithoutAppend(list: seq<Entry>, x: Entry, e: Entry)
    ensures Without(list + [x], e) == Without(list, e) + if x == e then [] else [x]
  {
    assert (list + [x])[..|list|] == list;
  }

  lemma {:induction false} WithoutOfPriority(list: seq<Entry>, e: Entry, p: int)
    ensures OfPriority(Without(list, e), p) == Without(OfPriority(list, p), e)
  {
    if list != [] {
      var front, last := list[..|list| - 1], list[|list| - 1];
      WithoutOfPriority(front, e, p);
      OfPriorityAppend(Without(front, e), last, p);
      WithoutAppend(OfPriority(front, p), last, e);
      assert last.priority != p ==> OfPriority(list, p) == OfPriority(front, p);
      assert last == e ==> Without(list, e) == Without(front, e);
    }
  }

  lemma {:induction false} WithoutKeeps(list: seq<Entry>, e: Entry, low: int)
    requires forall i :: 0 <= i < |list| ==> list[i].priority >= low
    ensures forall i :: 0 <= i < |Without(list, e)| ==> Without(list, e)[i].priority >= low
  {
    if list != [] { WithoutKeeps(list[..|list| - 1], e, low); }
  }

  lemma {:induction false} WithoutDescends(list: seq<Entry>, e: Entry)
    requires Descending(list)
    ensures Descending(Without(list, e))
  {
    if list != [] {
      var front, last := list[..|list| - 1], list[|list| - 1];
      WithoutDescends(front, e);
      WithoutKeeps(front, e, last.priority);
    }
  }

  // ---------- the engine ----------

  type Member = nat

  function At(lists: map<Member, seq<Entry>>, m: Member): seq<Entry> { if m in lists then lists[m] else [] }

  /** Descending priority, and registration order among equals. */
  ghost predicate InOrder(list: seq<Entry>, registered: seq<Entry>) {
    Descending(list) && forall p {:trigger SameOrder(list, registered, p)} :: SameOrder(list, registered, p)
  }

  ghost predicate SameOrder(list: seq<Entry>, registered: seq<Entry>, p: int) {
    OfPriority(list, p) == OfPriority(registered, p)
  }

  ghost predicate Fine(list: seq<Entry>, registered: seq<Entry>, hooked: bool, token: bool) {
    (hooked <==> list != []) && (token <==> list != []) && InOrder(list, registered)
  }

  lemma FineIs(list: seq<Entry>, registered: seq<Entry>, hooked: bool, token: bool)
    requires Fine(list, registered, hooked, token)
    ensures InOrder(list, registered) && (token <==> hooked)
  {
  }

  class Engine {
    var entries: map<Member, seq<Entry>>
    var tokens: set<Member>
    var native: set<Member>                      // members LSPlant has hooked
    var nextId: nat
    ghost var registered: map<Member, seq<Entry>> // live registrations in the order they were made

    /** A member is natively hooked, and has a token, exactly while it has entries. */
    ghost predicate Valid()
      reads this
    {
      forall m {:trigger Consistent(m)} :: Consistent(m)
    }

    ghost predicate Consistent(m: Member)
      reads this
    {
      Fine(At(entries, m), At(registered, m), m in native, m in tokens)
    }

    /** Changing one member consistently keeps the engine consistent. */
    twostate lemma StillValid(m: Member)
      requires old(Valid()) && Consistent(m)
      requires forall x :: x != m ==> At(entries, x) == old(At(entries, x)) && At(registered, x) == old(At(registered, x))
      requires forall x :: x != m ==> (x in native <==> x in old(native)) && (x in tokens <==> x in old(tokens))
      ensures Valid()
    {
      forall x: Member ensures Consistent(x) { assert old(Consistent(x)); }
    }

    constructor ()
      ensures Valid() && entries == map[]
    {
      entries, tokens, native, nextId, registered := map[], {}, {}, 0, map[];
    }

    /** nativeHookMethod: refused for a member that is hooked already, or when LSPlant fails. */
    method NativeHook(m: Member, available: bool) returns (ok: bool)
      modifies this`native
      ensures ok == (m !in old(native) && available)
      ensures native == if ok then old(native) + {m} else old(native)
    {
      ok := m !in native && available;
      if ok { native := native + {m}; }
    }

    /** Adds an entry to a member's list and sorts it. */
    method Append(m: Member, e: Entry)
      modifies this`entries, this`registered
      ensures entries == old(entries)[m := Sorted(old(At(entries, m)) + [e], |old(At(entries, m))| + 1)]
      ensures registered == old(registered)[m := old(At(registered, m)) + [e]]
    {
      var longer := At(entries, m) + [e];
      entries := entries[m := Sorted(longer, |longer|)];
      registered := registered[m := At(registered, m) + [e]];
    }

    /** Registers a callback; None stands for the exception when the native hook fails. */
    method Add(m: Member, kind: Kind, priority: int, available: bool) returns (e: Option<Entry>)
      modifies this
      ensures e.None? <==> m !in old(tokens) && (m in old(native) || !available)
      ensures e.Some? ==> e.value == Entry(old(nextId), kind, priority)
      ensures e.Some? ==> At(registered, m) == old(At(registered, m)) + [e.value]
      ensures e.None? ==> native == old(native) && At(entries, m) == old(At(entries, m))
      ensures forall x :: x != m ==> At(entries, x) == old(At(entries, x)) && At(registered, x) == old(At(registered, x))
      ensures old(Valid()) ==> Valid()
    {
      hide Sorted, Insert, Descending, InOrder, OfPriority;
      var list := At(entries, m);
      entries := entries[m := list];
      if m !in tokens {
        var ok := NativeHook(m, available);
        if !ok {
          if old(Valid()) {
            assert old(Consistent(m));
            StillValid(m);
          }
          return None;
        }
        tokens := tokens + {m};
      }
      var entry := Entry(nextId, kind, priority);
      nextId := nextId + 1;
      Append(m, entry);
      if old(Valid()) {
        assert old(Consistent(m));
        FineIs(list, old(At(registered, m)), m in old(native), m in old(tokens));
        AddedInOrder(list, old(At(registered, m)), entry);
        StillValid(m);
      }
      e := Some(entry);
    }

    /** Removes a registration; the last one also unhooks natively, if that works. */
    method Unhook(m: Member, e: Entry, works: bool)
      modifies this
      ensures At(entries, m) == Without(old(At(entries, m)), e) && At(registered, m) == Without(old(At(registered, m)), e)
      ensures forall x :: x != m ==> At(entries, x) == old(At(entries, x)) && At(registered, x) == old(At(registered, x))
      ensures At(entries, m) == [] ==> m !in tokens
      ensures native == if At(entries, m) == [] && works then old(native) - {m} else old(native)
      ensures old(Valid()) && works ==> Valid()
    {
      hide Descending, OfPriority;
      var list := At(entries, m);
      entries := entries[m := Without(list, e)];
      registered := registered[m := Without(At(registered, m), e)];
      if entries[m] == [] {
        if works { native := native - {m}; }
        tokens := tokens - {m};
      }
      if old(Valid()) && works {
        assert old(Consistent(m));
        RemovedInOrder(list, old(At(registered, m)), e);
        StillValid(m);
      }
    }
  }

  lemma AddedInOrder(list: seq<Entry>, registered: seq<Entry>, e: Entry)
    requires InOrder(list, registered)
    ensures Fine(Sorted(list + [e], |list| + 1), registered + [e], true, true)
  {
    AddAndSort(list, e);
    InsertDescends(list, e);
    InsertNodes(list, e);
    assert e in multiset(Insert(list, e));
    forall p ensures SameOrder(Insert(list, e), registered + [e], p) {
      assert SameOrder(list, registered, p);
      InsertStable(list, e, p);
      OfPriorityAppend(registered, e, p);
    }
  }

  lemma RemovedInOrder(list: seq<Entry>, registered: seq<Entry>, e: Entry)
    requires InOrder(list, registered)
    ensures Fine(Without(list, e), Without(registered, e), Without(list, e) != [], Without(list, e) != [])
  {
    WithoutDescends(list, e);
    forall p ensures SameOrder(Without(list, e), Without(registered, e), p) {
      assert SameOrder(list, registered, p);
      WithoutOfPriority(list, e, p);
      WithoutOfPriority(registered, e, p);
    }
  }

  // ---------- dispatch ----------

  /** The call's parameters as callbacks see and change them. */
  datatype Param = Param(args: int, result: Option<int>, throwable: Option<int>, skip: bool)

  /** What the original method does. */
  datatype Response = Value(v: int) | Failure(t: int)

  /** What happens during a dispatch, in order. */
  datatype Event = Ran(id: nat) | Original(args: int)

  type Effect = (Entry, Param) -> Param
  type Backup = int -> Response

  /** A replacing callback: its next move given the outcomes of its calls of proceed, within a bounded number of moves. */
  datatype Move = Proceed(args: int) | Finish(v: int) | Raise(t: int)

  datatype Replacer = Replacer(moves: nat, next: (Entry, seq<Option<Response>>) -> Move)

  /** How a dispatch ends; None is the engine's own mark for "no result". */
  datatype Outcome = Returns(v: Option<int>) | Throws(t: int)

  /** Objects are named by numbers, null by 0. */
  const NULL := 0

  /** cast: void methods and constructors return null. */
  function Cast(returnsNothing: bool, o: Outcome): Outcome {
    if o.Returns? && returnsNothing then Returns(Some(NULL)) else o
  }

  function OfKind(list: seq<Entry>, kind: Kind, n: nat): seq<Entry>
    requires n <= |list|
  {
    if n == 0 then []
    else if list[n - 1].kind == kind then OfKind(list, kind, n - 1) + [list[n - 1]]
    else OfKind(list, kind, n - 1)
  }

  method Filter(list: seq<Entry>, kind: Kind) returns (out: seq<Entry>)
    ensures out == OfKind(list, kind, |list|)
  {
    out := [];
    var i := 0;
    while i < |list|
      invariant 0 <= i <= |list| && out == OfKind(list, kind, i)
    {
      if list[i].kind == kind { out := out + [list[i]]; }
      i := i + 1;
    }
  }

  /** The parameters after the first n callbacks of a list. */
  function Folded(effect: Effect, list: seq<Entry>, n: nat, p: Param): Param
    requires n <= |list|
  {
    if n == 0 then p else effect(list[n - 1], Folded(effect, list, n - 1, p))
  }

  /** The first n callbacks ran in list order. */
  function InOrderRan(list: seq<Entry>, n: nat): seq<Event>
    requires n <= |list|
  {
    if n == 0 then [] else InOrderRan(list, n - 1) + [Ran(list[n - 1].id)]
  }

  /** The callbacks from n on ran from the last to the n-th. */
  function ReverseRan(list: seq<Entry>, n: nat): seq<Event>
    requires n <= |list|
    decreases |list| - n
  {
    if n == |list| then [] else ReverseRan(list, n + 1) + [Ran(list[n].id)]
  }

  /** The parameters after the callbacks from n on ran from the last to the n-th. */
  function FoldedBack(effect: Effect, list: seq<Entry>, n: nat, p: Param): Param
    requires n <= |list|
    decreases |list| - n
  {
    if n == |list| then p else effect(list[n], FoldedBack(effect, list, n + 1, p))
  }

  /** The parameters once the original has been called, unless a BEFORE callback asked to skip it. */
  function Called(p: Param, backup: Backup): Param {
    if p.skip then p
    else
      match backup(p.args)
      case Value(v) => p.(result := Some(v))
      case Failure(t) => p.(throwable := Some(t))
  }

  function OutcomeOf(p: Param): Outcome {
    if p.throwable.Some? then Throws(p.throwable.value) else Returns(p.result)
  }

  function Originals(trace: seq<Event>): nat {
    if trace == [] then 0
    else Originals(trace[..|trace| - 1]) + if trace[|trace| - 1].Original? then 1 else 0
  }

  lemma OriginalsAppend(trace: seq<Event>, e: Event)
    ensures Originals(trace + [e]) == Originals(trace) + if e.Original? then 1 else 0
  {
    assert (trace + [e])[..|trace|] == trace;
  }

  method RunBefore(list: seq<Entry>, effect: Effect, start: Param) returns (p: Param, trace: seq<Event>)
    ensures p == Folded(effect, list, |list|, start) && trace == InOrderRan(list, |list|)
    ensures Originals(trace) == 0
  {
    p, trace := start, [];
    var i := 0;
    while i < |list|
      invariant 0 <= i <= |list|
      invariant p == Folded(effect, list, i, start) && trace == InOrderRan(list, i) && Originals(trace) == 0
    {
      OriginalsAppend(trace, Ran(list[i].id));
      p := effect(list[i], p);
      trace := trace + [Ran(list[i].id)];
      i := i + 1;
    }
  }

  method RunAfter(list: seq<Entry>, effect: Effect, start: Param, before: seq<Event>) returns (p: Param, trace: seq<Event>)
    ensures p == FoldedBack(effect, list, 0, start)
    ensures trace == before + ReverseRan(list, 0) && Originals(trace) == Originals(before)
  {
    p, trace := start, before;
    var i := |list|;
    while i > 0
      invariant 0 <= i <= |list| && p == FoldedBack(effect, list, i, start)
      invariant trace == before + ReverseRan(list, i) && Originals(trace) == Originals(before)
    {
      i := i - 1;
      OriginalsAppend(trace, Ran(list[i].id));
      p := effect(list[i], p);
      trace := trace + [Ran(list[i].id)];
    }
  }

  /** Without a replacement: BEFORE callbacks in list order, the original unless skipped, AFTER callbacks in reverse. */
  method DispatchPlain(
    list: seq<Entry>, args: int, before: Effect, after: Effect, backup: Backup, returnsNothing: bool)
    returns (trace: seq<Event>, outcome: Outcome)
    ensures var b, a := OfKind(list, BEFORE, |list|), OfKind(list, AFTER, |list|);
            var p := Folded(before, b, |b|, Param(args, None, None, false));
            && trace == InOrderRan(b, |b|) + (if p.skip then [] else [Original(p.args)]) + ReverseRan(a, 0)
            && outcome == Cast(returnsNothing, OutcomeOf(FoldedBack(after, a, 0, Called(p, backup))))
    ensures Originals(trace) <= 1
  {
    hide OfKind, Folded, FoldedBack, InOrderRan, ReverseRan, Originals;
    var b := Filter(list, BEFORE);
    var p;
    p, trace := RunBefore(b, before, Param(args, None, None, false));
    if !p.skip {
      OriginalsAppend(trace, Original(p.args));
      trace := trace + [Original(p.args)];
      match backup(p.args)
      case Value(v) => p := p.(result := Some(v));
      case Failure(t) => p := p.(throwable := Some(t));
    }
    var a := Filter(list, AFTER);
    p, trace := RunAfter(a, after, p, trace);
    if p.throwable.Some? { return trace, Throws(p.throwable.value); }
    outcome := Returns(if returnsNothing then Some(NULL) else p.result);
  }

  /** A replacing callback's run: whether the original has been called, with what, and how the callback ended. */
  datatype Replay = Replay(proceeded: bool, called: seq<Event>, result: Response)

  /** From its i-th move on: proceed reaches the original only if nobody proceeded before. */
  function ReplayFrom(e: Entry, r: Replacer, backup: Backup, proceeded: bool, history: seq<Option<Response>>, i: nat): Replay
    decreases r.moves - i
  {
    if i >= r.moves then Replay(proceeded, [], Value(0))
    else
      match r.next(e, history)
      case Finish(v) => Replay(proceeded, [], Value(v))
      case Raise(t) => Replay(proceeded, [], Failure(t))
      case Proceed(args) =>
        if proceeded then ReplayFrom(e, r, backup, true, history + [None], i + 1)
        else
          var rest := ReplayFrom(e, r, backup, true, history + [Some(backup(args))], i + 1);
          rest.(called := [Original(args)] + rest.called)
  }

  /** Nobody proceeds twice. */
  lemma {:induction false} ReplayOnce(
    e: Entry, r: Replacer, backup: Backup, proceeded: bool, history: seq<Option<Response>>, i: nat)
    ensures var p := ReplayFrom(e, r, backup, proceeded, history, i);
            && |p.called| == (if p.proceeded && !proceeded then 1 else 0) && (proceeded ==> p.proceeded)
            && forall k :: 0 <= k < |p.called| ==> p.called[k].Original?
    decreases r.moves - i
  {
    if i < r.moves && r.next(e, history).Proceed? {
      if proceeded {
        ReplayOnce(e, r, backup, true, history + [None], i + 1);
      } else {
        ReplayOnce(e, r, backup, true, history + [Some(backup(r.next(e, history).args))], i + 1);
      }
    }
  }

  /** One replacing callback. */
  method RunReplace(e: Entry, r: Replacer, backup: Backup, proceeded: bool) returns (p: Replay)
    ensures p == ReplayFrom(e, r, backup, proceeded, [], 0)
  {
    var now, called, history, i := proceeded, [], [], 0;
    while i < r.moves
      invariant 0 <= i <= r.moves
      invariant var rest := ReplayFrom(e, r, backup, now, history, i);
                ReplayFrom(e, r, backup, proceeded, [], 0) == rest.(called := called + rest.called)
    {
      match r.next(e, history)
      case Finish(v) => return Replay(now, called, Value(v));
      case Raise(t) => return Replay(now, called, Failure(t));
      case Proceed(args) =>
        if now {
          history := history + [None];
        } else {
          now, called := true, called + [Original(args)];
          history := history + [Some(backup(args))];
        }
        i := i + 1;
    }
    p := Replay(now, called, Value(0));
  }

  /** What replacing callbacks from the k-th on do: the trace, and the last result. */
  datatype ChainRun = ChainRun(trace: seq<Event>, outcome: Outcome)

  function ChainFrom(chain: seq<Entry>, r: Replacer, backup: Backup, proceeded: bool, k: nat, last: Outcome): ChainRun
    requires k <= |chain|
    decreases |chain| - k
  {
    if k == |chain| then ChainRun([], last)
    else
      var p := ReplayFrom(chain[k], r, backup, proceeded, [], 0);
      var mine := [Ran(chain[k].id)] + p.called;
      match p.result
      case Failure(t) => ChainRun(mine, Throws(t))
      case Value(v) =>
        if !p.proceeded then ChainRun(mine, Returns(Some(v)))
        else
          var rest := ChainFrom(chain, r, backup, true, k + 1, Returns(Some(v)));
          rest.(trace := mine + rest.trace)
  }

  lemma {:induction false} OriginalsConcat(a: seq<Event>, b: seq<Event>)
    ensures Originals(a + b) == Originals(a) + Originals(b)
    decreases |b|
  {
    if b == [] {
      assert a + b == a;
    } else {
      assert (a + b)[..|a + b| - 1] == a + b[..|b| - 1];
      OriginalsConcat(a, b[..|b| - 1]);
    }
  }

  lemma OriginalsCalled(id: nat, called: seq<Event>)
    requires |called| <= 1 && forall k :: 0 <= k < |called| ==> called[k].Original?
    ensures Originals([Ran(id)] + called) == |called|
  {
    OriginalsConcat([Ran(id)], called);
    assert Originals([Ran(id)][..0]) == 0 && (called != [] ==> Originals(called[..0]) == 0);
  }

  /** The original is called at most once along the whole chain. */
  lemma {:induction false} ChainOnce(chain: seq<Entry>, r: Replacer, backup: Backup, proceeded: bool, k: nat, last: Outcome)
    requires k <= |chain|
    ensures Originals(ChainFrom(chain, r, backup, proceeded, k, last).trace) <= if proceeded then 0 else 1
    decreases |chain| - k
  {
    if k < |chain| {
      var p := ReplayFrom(chain[k], r, backup, proceeded, [], 0);
      ReplayOnce(chain[k], r, backup, proceeded, [], 0);
      OriginalsCalled(chain[k].id, p.called);
      if p.result.Value? && p.proceeded {
        var rest := ChainFrom(chain, r, backup, true, k + 1, Returns(Some(p.result.v)));
        ChainOnce(chain, r, backup, true, k + 1, Returns(Some(p.result.v)));
        OriginalsConcat([Ran(chain[k].id)] + p.called, rest.trace);
      }
    }
  }

  /** A trace continued by the chain from k on, after the k-th callback has run. */
  lemma ChainStep(chain: seq<Entry>, r: Replacer, backup: Backup, proceeded: bool, k: nat, last: Outcome, trace: seq<Event>)
    requires k < |chain|
    ensures var p := ReplayFrom(chain[k], r, backup, proceeded, [], 0);
            var whole := ChainFrom(chain, r, backup, proceeded, k, last);
            var longer := trace + ([Ran(chain[k].id)] + p.called);
            if p.result.Value? && p.proceeded then
              var rest := ChainFrom(chain, r, backup, true, k + 1, Returns(Some(p.result.v)));
              trace + whole.trace == longer + rest.trace && whole.outcome == rest.outcome
            else
              trace + whole.trace == longer &&
              whole.outcome == if p.result.Value? then Returns(Some(p.result.v)) else Throws(p.result.t)
  {
    var p := ReplayFrom(chain[k], r, backup, proceeded, [], 0);
    var mine := [Ran(chain[k].id)] + p.called;
    if p.result.Value? && p.proceeded {
      var rest := ChainFrom(chain, r, backup, true, k + 1, Returns(Some(p.result.v)));
      assert trace + (mine + rest.trace) == trace + mine + rest.trace;
    }
  }

  /** With replacements only those run, in list order, up to the first that raises or leaves the original uncalled. */
  method DispatchReplace(chain: seq<Entry>, r: Replacer, backup: Backup, returnsNothing: bool)
    returns (trace: seq<Event>, outcome: Outcome)
    ensures var run := ChainFrom(chain, r, backup, false, 0, Returns(Some(NULL)));
            trace == run.trace && outcome == Cast(returnsNothing, run.outcome)
    ensures Originals(trace) <= 1
  {
    ghost var whole := ChainFrom(chain, r, backup, false, 0, Returns(Some(NULL)));
    ChainOnce(chain, r, backup, false, 0, Returns(Some(NULL)));
    trace := [];
    var result := NULL;
    var proceeded := false;
    var i := 0;
    while i < |chain|
      invariant 0 <= i <= |chain|
      invariant var rest := ChainFrom(chain, r, backup, proceeded, i, Returns(Some(result)));
                whole == ChainRun(trace + rest.trace, rest.outcome)
    {
      ChainStep(chain, r, backup, proceeded, i, Returns(Some(result)), trace);
      var p := RunReplace(chain[i], r, backup, proceeded);
      trace := trace + ([Ran(chain[i].id)] + p.called);
      match p.result
      case Failure(t) => return trace, Throws(t);
      case Value(v) => result := v;
      if !p.proceeded { break; }
      proceeded := true;
      i := i + 1;
    }
    outcome := Returns(Some(if returnsNothing then NULL else result));
  }

  /** A call of a hooked member: at most one call of the original, whatever the callbacks do. */
  method Dispatch(
    list: seq<Entry>, args: int, before: Effect, after: Effect, r: Replacer, backup: Backup, returnsNothing: bool)
    returns (trace: seq<Event>, outcome: Outcome)
    ensures Originals(trace) <= 1
    ensures var chain := OfKind(list, REPLACE, |list|);
            chain != [] ==>
              var run := ChainFrom(chain, r, backup, false, 0, Returns(Some(NULL)));
              trace == run.trace && outcome == Cast(returnsNothing, run.outcome)
    ensures OfKind(list, REPLACE, |list|) == [] ==>
              var b, a := OfKind(list, BEFORE, |list|), OfKind(list, AFTER, |list|);
              var p := Folded(before, b, |b|, Param(args, None, None, false));
              && trace == InOrderRan(b, |b|) + (if p.skip then [] else [Original(p.args)]) + ReverseRan(a, 0)
              && outcome == Cast(returnsNothing, OutcomeOf(FoldedBack(after, a, 0, Called(p, backup))))
  {
    var chain := Filter(list, REPLACE);
    if chain != [] {
      trace, outcome := DispatchReplace(chain, r, backup, returnsNothing);
    } else {
      trace, outcome := DispatchPlain(list, args, before, after, backup, returnsNothing);
    }
  }
}
