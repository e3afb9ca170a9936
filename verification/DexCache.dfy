/**
  DexHelper's lazily filled cross-reference caches over one DEX file: a method
  is scanned at most once, and queries scan only methods that pass their filter.
*/
module DexCache {
  import opened Wrappers
  import opened DexWalk
  import DexCode

  type Units = DexCode.Units

  /** The instructions of a method, as the scanner visits them; a method may have no code. */
  type Code = seq<Inst>

  /** What an instruction can refer to, by the opcode ranges of the scanner. */
  datatype Key = Text(id: nat) | Callee(id: nat) | Read(id: nat) | Write(id: nat)

  function CodeOf(body: Option<Units>): Code { if body.None? then [] else Walk(body.value, 0) }

  function CodesOf(methods: seq<Option<Units>>): (codes: seq<Code>)
    ensures |codes| == |methods| && forall m :: 0 <= m < |methods| ==> codes[m] == CodeOf(methods[m])
  {
    seq(|methods|, m requires 0 <= m < |methods| => CodeOf(methods[m]))
  }

  function KeyOf(i: Inst): Option<Key> {
    if i.op == 0x1a || i.op == 0x1b then Some(Text(i.index))
    else if 0x52 <= i.op <= 0x58 || 0x60 <= i.op <= 0x66 then Some(Read(i.index))
    else if 0x59 <= i.op <= 0x5f || 0x67 <= i.op <= 0x6d then Some(Write(i.index))
    else if 0x6e <= i.op <= 0x72 || 0x74 <= i.op <= 0x78 then Some(Callee(i.index))
    else None
  }

  /** How often the first n instructions refer to a key. */
  function Uses(code: Code, k: Key, n: nat): nat
    requires n <= |code|
  {
    if n == 0 then 0 else Uses(code, k, n - 1) + if KeyOf(code[n - 1]) == Some(k) then 1 else 0
  }

  /** The methods called by the first n instructions, in order. */
  function Calls(code: Code, n: nat): seq<nat>
    requires n <= |code|
  {
    if n == 0 then []
    else
      match KeyOf(code[n - 1])
      case Some(Callee(c)) => Calls(code, n - 1) + [c]
      case _ => Calls(code, n - 1)
  }

  type Filter = nat -> bool

  /** Entries that pass a filter, in order. */
  function Passing(methods: seq<nat>, f: Filter, n: nat): (out: seq<nat>)
    requires n <= |methods|
    ensures |out| <= n
  {
    if n == 0 then []
    else if f(methods[n - 1]) then Passing(methods, f, n - 1) + [methods[n - 1]]
    else Passing(methods, f, n - 1)
  }

  lemma {:induction false} PassingStarts(methods: seq<nat>, f: Filter, k: nat, n: nat)
    requires k <= n <= |methods| && Passing(methods, f, k) != []
    ensures Passing(methods, f, n) != [] && Passing(methods, f, n)[0] == Passing(methods, f, k)[0]
  {
    if k < n { PassingStarts(methods, f, k, n - 1); }
  }

  /** How often a value occurs among the first n entries. */
  function Times(methods: seq<nat>, m: nat, n: nat): nat
    requires n <= |methods|
  {
    if n == 0 then 0 else Times(methods, m, n - 1) + if methods[n - 1] == m then 1 else 0
  }

  function Count(methods: seq<nat>, m: nat): nat { Times(methods, m, |methods|) }

  lemma {:induction false} TimesPrefix(a: seq<nat>, b: seq<nat>, m: nat, n: nat)
    requires n <= |a|
    ensures Times(a + b, m, n) == Times(a, m, n)
  {
    if n > 0 { TimesPrefix(a, b, m, n - 1); }
  }

  lemma CountAppend(a: seq<nat>, x: nat, m: nat)
    ensures Count(a + [x], m) == Count(a, m) + if x == m then 1 else 0
  {
    TimesPrefix(a, [x], m, |a|);
  }

  lemma {:induction false} CountPassing(methods: seq<nat>, f: Filter, m: nat, n: nat)
    requires n <= |methods|
    ensures Count(Passing(methods, f, n), m) == if f(m) then Times(methods, m, n) else 0
  {
    if n > 0 {
      CountPassing(methods, f, m, n - 1);
      if f(methods[n - 1]) { CountAppend(Passing(methods, f, n - 1), methods[n - 1], m); }
    }
  }

  lemma {:induction false} CountPositive(methods: seq<nat>, i: nat, n: nat)
    requires i < n <= |methods|
    ensures Times(methods, methods[i], n) > 0
  {
    if i < n - 1 { CountPositive(methods, i, n - 1); }
  }

  lemma {:induction false} CountFinds(methods: seq<nat>, m: nat, n: nat) returns (i: nat)
    requires n <= |methods| && Times(methods, m, n) > 0
    ensures i < n && methods[i] == m
  {
    if methods[n - 1] == m { i := n - 1; } else { i := CountFinds(methods, m, n - 1); }
  }

  // ---------- the caches ----------

  type Cache = map<Key, seq<nat>>

  function At(cache: Cache, k: Key): seq<nat> { if k in cache then cache[k] else [] }

  /** A cache after the first n instructions of method m have been recorded. */
  function Recorded(cache: Cache, code: Code, m: nat, n: nat): Cache
    requires n <= |code|
  {
    if n == 0 then cache
    else
      var before := Recorded(cache, code, m, n - 1);
      match KeyOf(code[n - 1])
      case None => before
      case Some(k) => before[k := At(before, k) + [m]]
  }

  lemma {:induction false} RecordedCount(cache: Cache, code: Code, m: nat, n: nat, k: Key, x: nat)
    requires n <= |code|
    ensures Count(At(Recorded(cache, code, m, n), k), x)
         == Count(At(cache, k), x) + if x == m then Uses(code, k, n) else 0
  {
    if n > 0 {
      RecordedCount(cache, code, m, n - 1, k, x);
      CountAppend(At(Recorded(cache, code, m, n - 1), k), m, x);
    }
  }

  lemma {:induction false} RecordedSame(cache: Cache, code: Code, m: nat, n: nat, k: Key)
    requires n <= |code| && Uses(code, k, n) == 0
    ensures At(Recorded(cache, code, m, n), k) == At(cache, k)
  {
    if n > 0 { RecordedSame(cache, code, m, n - 1, k); }
  }

  lemma {:induction false} RecordedGrows(cache: Cache, code: Code, m: nat, n: nat, k: Key)
    requires n <= |code|
    ensures |At(cache, k)| <= |At(Recorded(cache, code, m, n), k)|
  {
    hide KeyOf;
    if n > 0 { RecordedGrows(cache, code, m, n - 1, k); }
  }

  /** Some string with an id in the range is used by the first n instructions. */
  ghost predicate UsesText(code: Code, lower: nat, upper: nat, n: nat)
    requires n <= |code|
  {
    exists s :: lower <= s < upper && Uses(code, Text(s), n) > 0
  }

  lemma UsesTextStep(code: Code, lower: nat, upper: nat, n: nat)
    requires n < |code|
    ensures UsesText(code, lower, upper, n + 1) <==>
      UsesText(code, lower, upper, n) || (exists s :: lower <= s < upper && KeyOf(code[n]) == Some(Text(s)))
  {
    forall s | lower <= s < upper && KeyOf(code[n]) == Some(Text(s)) ensures Uses(code, Text(s), n + 1) > 0 { }
    forall s | lower <= s < upper && Uses(code, Text(s), n) > 0 ensures Uses(code, Text(s), n + 1) > 0 { }
  }

  lemma WalkStep(units: Units, pc: nat, code: Code, i: nat)
    requires pc < |units| && i <= |code| && code[i..] == Walk(units, pc)
    ensures i < |code| && code[i] == InstAt(units, pc) && code[i + 1..] == Walk(units, pc + StepAt(units, pc))
  {
    hide InstAt, StepAt;
    assert code[i..][0] == code[i];
    assert code[i + 1..] == code[i..][1..];
  }

  lemma ScanStart(cache: Cache, code: Code, m: nat, lower: nat, upper: nat)
    ensures Recorded(cache, code, m, 0) == cache && Calls(code, 0) == [] && !UsesText(code, lower, upper, 0)
  {
  }

  lemma ScanNext(cache: Cache, code: Code, m: nat, n: nat)
    requires n < |code|
    ensures var before, key := Recorded(cache, code, m, n), KeyOf(code[n]);
            && Recorded(cache, code, m, n + 1) == (if key.Some? then before[key.value := At(before, key.value) + [m]] else before)
            && Calls(code, n + 1) == Calls(code, n) + if key.Some? && key.value.Callee? then [key.value.id] else []
  {
    hide KeyOf, At;
  }

  lemma ScanEnd(units: Units, pc: nat, code: Code, i: nat)
    requires pc >= |units| && i <= |code| && code[i..] == Walk(units, pc)
    ensures i == |code|
  {
  }

  class DexHelper {
    const methods: seq<Option<Units>>
    ghost const codes: seq<Code>
    var scanned: seq<bool>
    var cache: Cache
    var invoking: map<nat, seq<nat>>

    /** Each cache lists a scanned method once per matching instruction, and nothing else. */
    ghost predicate Valid()
      reads this
    {
      codes == CodesOf(methods) && |scanned| == |codes| && (forall k, m {:trigger Count(At(cache, k), m)} :: Right(k, m)) &&
      forall m :: 0 <= m < |codes| ==>
        (if m in invoking then invoking[m] else []) == if scanned[m] then Calls(codes[m], |codes[m]|) else []
    }

    ghost predicate Right(k: Key, m: nat)
      reads this
      requires |scanned| == |codes|
    {
      Count(At(cache, k), m) == if m < |codes| && scanned[m] then Uses(codes[m], k, |codes[m]|) else 0
    }

    constructor (methods: seq<Option<Units>>)
      ensures Valid() && this.methods == methods && forall m :: 0 <= m < |codes| ==> !scanned[m]
    {
      this.methods := methods;
      codes := CodesOf(methods);
      scanned := seq(|methods|, _ => false);
      cache, invoking := map[], map[];
      new;
      forall k, m: nat ensures Right(k, m) { assert Count(At(cache, k), m) == 0; }
    }

    /** Scans a method unless that was done before; reports whether it uses a string of the range. */
    method ScanMethod(m: nat, lower: nat, upper: nat) returns (found: bool)
      requires Valid() && m < |codes|
      modifies this
      ensures Valid() && scanned == old(scanned)[m := true]
      ensures cache == if old(scanned)[m] then old(cache) else Recorded(old(cache), codes[m], m, |codes[m]|)
      ensures found <==> !old(scanned)[m] && UsesText(codes[m], lower, upper, |codes[m]|)
    {
      found := false;
      if scanned[m] { return; }
      var calls: seq<nat> := [];
      if methods[m].Some? {
        found, calls := ScanUnits(m, methods[m].value, lower, upper);
      }
      invoking := invoking[m := calls];
      scanned := scanned[m := true];
      forall k, x: nat ensures Right(k, x) {
        assert old(Right(k, x));
        RecordedCount(old(cache), codes[m], m, |codes[m]|, k, x);
      }
    }

    /** The scanner's loop over the code units of a method. */
    method ScanUnits(m: nat, units: Units, lower: nat, upper: nat) returns (found: bool, calls: seq<nat>)
      modifies this`cache
      ensures var code := Walk(units, 0);
              && cache == Recorded(old(cache), code, m, |code|) && calls == Calls(code, |code|)
              && (found <==> UsesText(code, lower, upper, |code|))
    {
      hide Walk, Recorded, UsesText, Calls, KeyOf, InstAt, StepAt;
      found, calls := false, [];
      ghost var code := Walk(units, 0);
      ScanStart(cache, code, m, lower, upper);
      var pc := 0;
      ghost var i := 0;
      while pc < |units|
        invariant 0 <= i <= |code| && code[i..] == Walk(units, pc)
        invariant cache == Recorded(old(cache), code, m, i) && calls == Calls(code, i)
        invariant found <==> UsesText(code, lower, upper, i)
        decreases |units| - pc
      {
        WalkStep(units, pc, code, i);
        UsesTextStep(code, lower, upper, i);
        ScanNext(old(cache), code, m, i);
        var key := KeyOf(InstAt(units, pc));
        if key.Some? {
          cache := cache[key.value := At(cache, key.value) + [m]];
          if key.value.Text? && lower <= key.value.id < upper { found := true; }
          if key.value.Callee? { calls := calls + [key.value.id]; }
        }
        pc := pc + StepAt(units, pc);
        i := i + 1;
      }
      ScanEnd(units, pc, code, i);
    }

    /** The entries of a list that pass the filter. */
    method Collect(methods: seq<nat>, f: Filter) returns (out: seq<nat>)
      ensures out == Passing(methods, f, |methods|)
    {
      out := [];
      var i := 0;
      while i < |methods|
        invariant 0 <= i <= |methods| && out == Passing(methods, f, i)
      {
        if f(methods[i]) { out := out + [methods[i]]; }
        i := i + 1;
      }
    }

    method FirstPassing(methods: seq<nat>, f: Filter) returns (out: Option<nat>)
      ensures out.Some? ==> out.value in methods && f(out.value)
      ensures out.None? ==> forall i :: 0 <= i < |methods| ==> !f(methods[i])
    {
      var i := 0;
      while i < |methods|
        invariant 0 <= i <= |methods|
        invariant forall j :: 0 <= j < i ==> !f(methods[j])
      {
        if f(methods[i]) { return Some(methods[i]); }
        i := i + 1;
      }
      out := None;
    }

    /** Scans every method that passes the filter. */
    method ScanPassing(f: Filter)
      requires Valid()
      modifies this
      ensures Valid() && forall m :: 0 <= m < |codes| && f(m) ==> scanned[m]
    {
      var m := 0;
      while m < |methods|
        invariant 0 <= m <= |codes| && Valid()
        invariant forall x :: 0 <= x < m && f(x) ==> scanned[x]
      {
        if !scanned[m] && f(m) { var _ := ScanMethod(m, 0, 0); }
        m := m + 1;
      }
    }

    /**
      FindMethodInvoked, GettingField, SettingField or an exact UsingString, not
      stopping at the first hit: whatever was cached before, each passing method
      is reported once per matching instruction.
    */
    method FindAll(k: Key, f: Filter) returns (out: seq<nat>)
      requires Valid()
      modifies this
      ensures Valid()
      ensures forall m: nat :: Count(out, m) == if m < |codes| && f(m) then Uses(codes[m], k, |codes[m]|) else 0
    {
      ScanPassing(f);
      var list := At(cache, k);
      out := Collect(list, f);
      forall m: nat ensures Count(out, m) == if m < |codes| && f(m) then Uses(codes[m], k, |codes[m]|) else 0 {
        CountPassing(list, f, m, |list|);
        assert Right(k, m);
      }
    }

    /** FindMethodInvoking: the passing callees of a method in instruction order, or just the first of them. */
    method FindCallees(caller: nat, f: Filter, findFirst: bool) returns (out: seq<nat>)
      requires Valid() && caller < |codes|
      modifies this
      ensures Valid()
      ensures var calls := Calls(codes[caller], |codes[caller]|);
              var all := Passing(calls, f, |calls|);
              out == if findFirst && all != [] then [all[0]] else all
    {
      hide Recorded, Uses, Calls, CodesOf, Count, Right, UsesText;
      var _ := ScanMethod(caller, 0, 0);
      var calls := if caller in invoking then invoking[caller] else [];
      out := [];
      var i := 0;
      while i < |calls|
        invariant 0 <= i <= |calls| && out == Passing(calls, f, i) && (findFirst ==> out == [])
      {
        if f(calls[i]) {
          out := out + [calls[i]];
          if findFirst {
            PassingStarts(calls, f, i + 1, |calls|);
            return;
          }
        }
        i := i + 1;
      }
    }

    /** A cached method uses the key, and a scanned method that uses it is cached. */
    lemma Cached(k: Key, m: nat)
      requires Valid()
      ensures m in At(cache, k) <==> m < |codes| && scanned[m] && Uses(codes[m], k, |codes[m]|) > 0
    {
      assert Right(k, m);
      var list := At(cache, k);
      if m in list {
        var i :| 0 <= i < |list| && list[i] == m;
        CountPositive(list, i, |list|);
      }
      if Count(list, m) > 0 { var i := CountFinds(list, m, |list|); }
    }

    ghost predicate Hit(k: Key, f: Filter, m: nat) {
      m < |codes| && f(m) && Uses(codes[m], k, |codes[m]|) > 0
    }

    /** An exact string, stopping at the first hit: one is found exactly when there is one. */
    method FindFirstText(s: nat, f: Filter) returns (out: Option<nat>)
      requires Valid()
      modifies this
      ensures Valid()
      ensures out.Some? ==> Hit(Text(s), f, out.value)
      ensures out.None? ==> forall m :: !Hit(Text(s), f, m)
    {
      out := FirstPassing(At(cache, Text(s)), f);
      if out.Some? {
        Cached(Text(s), out.value);
        return;
      }
      ghost var stopped := ScanUntilText(s, f);
      if stopped.Some? { Cached(Text(s), stopped.value); }
      out := FirstPassing(At(cache, Text(s)), f);
      if out.Some? {
        Cached(Text(s), out.value);
      } else {
        forall x: nat ensures !Hit(Text(s), f, x) { Cached(Text(s), x); }
      }
    }

    /** Scans passing methods until one uses the string. */
    method ScanUntilText(s: nat, f: Filter) returns (ghost stopped: Option<nat>)
      requires Valid()
      modifies this
      ensures Valid()
      ensures stopped.Some? ==> Hit(Text(s), f, stopped.value) && scanned[stopped.value]
      ensures stopped.None? ==> forall x :: 0 <= x < |codes| && f(x) ==> scanned[x]
    {
      hide Recorded, Uses, Calls, CodesOf, Count, Right;
      var m := 0;
      while m < |methods|
        invariant 0 <= m <= |codes| && Valid()
        invariant forall x :: 0 <= x < m && f(x) ==> scanned[x]
      {
        if !scanned[m] && f(m) {
          var found := ScanMethod(m, s, s + 1);
          if found { return Some(m); }
        }
        m := m + 1;
      }
      stopped := None;
    }

    /** The lowest method still to be scanned that passes the filter. */
    ghost predicate FirstUnscanned(f: Filter, m: nat)
      reads this
      requires |scanned| == |codes|
    {
      m < |codes| && !scanned[m] && f(m) && forall x :: 0 <= x < m && f(x) ==> scanned[x]
    }

    /** When a first-hit query on callees or fields succeeds. */
    ghost predicate FindsFirst(k: Key, f: Filter)
      reads this
      requires |scanned| == |codes|
    {
      (exists m :: m in At(cache, k) && f(m)) ||
      (if At(cache, k) == [] then exists m :: Hit(k, f, m)
       else exists m :: FirstUnscanned(f, m) && Hit(k, f, m))
    }

    /**
      FindMethodInvoked, GettingField or SettingField stopping at the first hit.
      Scanning ends as soon as the cache is not empty, whether or not what it
      holds passes the filter, so a hit can be missed.
    */
    method FindFirst(k: Key, f: Filter) returns (out: Option<nat>)
      requires Valid()
      modifies this
      ensures Valid()
      ensures out.Some? ==> Hit(k, f, out.value)
      ensures out.Some? <==> old(FindsFirst(k, f))
    {
      hide Uses, Calls, CodesOf, Count, Right;
      forall x: nat ensures x in At(cache, k) <==> x < |codes| && scanned[x] && Uses(codes[x], k, |codes[x]|) > 0 {
        Cached(k, x);
      }
      if At(cache, k) != [] {
        out := FirstPassing(At(cache, k), f);
        if out.Some? { return; }
      }
      ghost var was, before := At(cache, k), scanned;
      assert forall x :: x in was ==> !f(x);
      ScanUntil(k, f);
      out := FirstPassing(At(cache, k), f);
      forall x: nat ensures x in At(cache, k) <==> x < |codes| && scanned[x] && Uses(codes[x], k, |codes[x]|) > 0 {
        Cached(k, x);
      }
      assert was == [] && At(cache, k) != [] ==> f(At(cache, k)[0]) by {
        assert At(cache, k) != [] ==> At(cache, k)[0] in At(cache, k);
      }
      if out.Some? { assert !before[out.value]; }
    }

    /** Nothing is missed when the cache of the key is empty or holds a passing method. */
    lemma FirstIsComplete(k: Key, f: Filter)
      requires Valid() && (At(cache, k) == [] || exists m :: m in At(cache, k) && f(m))
      ensures FindsFirst(k, f) <==> exists m :: Hit(k, f, m)
    {
      if m :| m in At(cache, k) && f(m) {
        Cached(k, m);
        assert Hit(k, f, m);
      }
    }

    /** Otherwise only the first passing method left to scan is considered, and later hits are missed. */
    lemma FirstCanMiss(k: Key, f: Filter, first: nat, hit: nat)
      requires Valid() && At(cache, k) != [] && (forall m :: m in At(cache, k) ==> !f(m))
      requires FirstUnscanned(f, first) && !Hit(k, f, first) && Hit(k, f, hit)
      ensures !FindsFirst(k, f)
    {
      forall m: nat | FirstUnscanned(f, m) ensures !Hit(k, f, m) {
        assert m == first;
      }
    }

    /** Scans passing methods until the cache of the key is not empty. */
    method ScanUntil(k: Key, f: Filter)
      requires Valid()
      modifies this
      ensures Valid()
      ensures forall x :: 0 <= x < |codes| && scanned[x] && !old(scanned)[x] ==> f(x)
      ensures forall x :: 0 <= x < |codes| && old(scanned)[x] ==> scanned[x]
      ensures old(At(cache, k)) == [] ==> At(cache, k) != [] || forall x :: 0 <= x < |codes| && f(x) ==> scanned[x]
      ensures old(At(cache, k)) != [] ==>
                forall x :: 0 <= x < |codes| ==> (scanned[x] <==> old(scanned)[x] || old(FirstUnscanned(f, x)))
    {
      hide Recorded, Uses, Calls, CodesOf, Count, Right, UsesText;
      var m := 0;
      while m < |methods|
        invariant 0 <= m <= |codes| && Valid()
        invariant forall x :: 0 <= x < |codes| && scanned[x] && !old(scanned)[x] ==> f(x)
        invariant forall x :: 0 <= x < |codes| && old(scanned)[x] ==> scanned[x]
        invariant forall x :: 0 <= x < m && f(x) ==> scanned[x]
        invariant old(At(cache, k)) != [] ==> scanned == old(scanned) && cache == old(cache)
      {
        if !scanned[m] && f(m) {
          RecordedGrows(cache, codes[m], m, |codes[m]|, k);
          var _ := ScanMethod(m, 0, 0);
          if At(cache, k) != [] { break; }
        }
        m := m + 1;
      }
    }
  }

  /** Methods 0 and 2 call method 5, method 1 has no code. */
  function Example(): seq<Option<Units>> { [Some([0x106e, 5, 0]), None, Some([0x1071, 5, 0])] }

  lemma ExampleUses()
    ensures var e := CodesOf(Example());
            |e| == 3 && e[0] == [Inst(0x6e, 5)] && e[1] == [] && e[2] == [Inst(0x71, 5)]
            && Uses(e[0], Callee(5), 1) == 1 && Uses(e[1], Callee(5), 0) == 0 && Uses(e[2], Callee(5), 1) == 1
  {
    OneInstruction([0x106e, 5, 0]);
    OneInstruction([0x1071, 5, 0]);
    var e := CodesOf(Example());
    assert Uses(e[0], Callee(5), 0) == 0 && Uses(e[2], Callee(5), 0) == 0;
  }

  lemma OneInstruction(units: Units)
    requires |units| == 3 && StepAt(units, 0) == 3
    ensures Walk(units, 0) == [InstAt(units, 0)]
  {
    assert Walk(units, 3) == [];
  }

  /** Once method 0 is cached, a first-hit query that excludes it stops at method 1 and misses method 2. */
  method MissedCaller() returns (first: Option<nat>)
    ensures first.None?
  {
    var d := new DexHelper(Example());
    ExampleUses();
    var _ := d.ScanMethod(0, 0, 0);
    var f := (m: nat) => m != 0;
    d.Cached(Callee(5), 0);
    forall x | x in At(d.cache, Callee(5)) ensures x == 0 { d.Cached(Callee(5), x); }
    d.FirstCanMiss(Callee(5), f, 1, 2);
    first := d.FindFirst(Callee(5), f);
  }
}
