/**
  The lock-free trampoline allocator: one shared word holds a page address with
  a slot counter in its low bits, one flag guards refilling. Threads interleave
  at every atomic operation.
*/
module TrampolinePool {
  import opened Wrappers
  import opened Finite

  // ---------- parameters ----------

  /** Page size (4 KiB or 16 KiB) and trampoline size in bytes (arm and x86, amd64, arm64 and riscv). */
  datatype ConfigRec = Config(page: nat, slot: nat)

  type Config = c: ConfigRec | c.page in {4096, 16384} && c.slot in {12, 16, 24}
    witness Config(4096, 24)

  function PerPage(c: Config): (k: nat)
    ensures 0 < k < c.page
  {
    if c.slot == 12 then c.page / 12 else if c.slot == 16 then c.page / 16 else c.page / 24
  }

  /** The counter bit-field of the pool word, and the page address above it. */
  function Count(c: Config, word: nat): nat {
    if c.page == 16384 then word % 16384 else word % 4096
  }

  function Base(c: Config, word: nat): nat { word - Count(c, word) }

  predicate Aligned(c: Config, page: nat) { Count(c, page) == 0 }

  lemma Bump(c: Config, word: nat)
    requires Count(c, word) + 1 < c.page
    ensures Base(c, word + 1) == Base(c, word) && Count(c, word + 1) == Count(c, word) + 1
  {
    if c.page == 4096 { } else { }
  }

  lemma Installed(c: Config, page: nat)
    requires Aligned(c, page)
    ensures Base(c, page + 1) == page && Count(c, page + 1) == 1
  {
    if c.page == 4096 { } else { }
  }

  // ---------- the state machine ----------

  datatype Slot = Slot(page: nat, index: nat)

  /** Where a thread stands inside GenerateTrampolineFor. */
  datatype Pc =
    | Ready                  // about to execute fetch_add
    | NeedLock               // fetched an exhausted word
    | Waiting                // blocked in trampoline_lock.wait(true)
    | Acquired               // won test_and_set
    | Failing                // AllocateMemory failed, lock still held
    | Allocated(page: nat)   // new page not yet published
    | Stored(page: nat)      // page published, lock still held

  datatype State = State(
    pool: nat, locked: bool, pc: seq<Pc>,
    pages: set<nat>,         // everything AllocateMemory ever returned
    given: seq<Slot>)        // slots returned so far, in order

  datatype Step =
    | Fetch(t: nat) | TestAndSet(t: nat) | Wake(t: nat)
    | Alloc(t: nat, page: nat) | AllocFails(t: nat)
    | Store(t: nat) | Clear(t: nat)

  function Start(threads: nat): State {
    State(0, false, seq(threads, _ => Ready), {}, [])
  }

  predicate Exhausted(c: Config, word: nat) {
    Base(c, word) == 0 || Count(c, word) >= PerPage(c)
  }

  predicate Enabled(c: Config, s: State, e: Step) {
    e.t < |s.pc| &&
    match e
    case Fetch(t) => s.pc[t].Ready?
    case TestAndSet(t) => s.pc[t].NeedLock?
    case Wake(t) => s.pc[t].Waiting? && !s.locked
    case Alloc(t, page) => s.pc[t].Acquired? && page != 0 && Aligned(c, page) && page !in s.pages
    case AllocFails(t) => s.pc[t].Acquired?
    case Store(t) => s.pc[t].Allocated?
    case Clear(t) => s.pc[t].Stored? || s.pc[t].Failing?
  }

  function Apply(c: Config, s: State, e: Step): State
    requires Enabled(c, s, e)
  {
    match e
    case Fetch(t) =>
      if Exhausted(c, s.pool)
      then s.(pool := s.pool + 1, pc := s.pc[t := NeedLock])
      else s.(pool := s.pool + 1, given := s.given + [Slot(Base(c, s.pool), Count(c, s.pool))])
    case TestAndSet(t) =>
      if s.locked then s.(pc := s.pc[t := Waiting])
      else s.(locked := true, pc := s.pc[t := Acquired])
    case Wake(t) => s.(pc := s.pc[t := Ready])
    case Alloc(t, page) => s.(pages := s.pages + {page}, pc := s.pc[t := Allocated(page)])
    case AllocFails(t) => s.(pc := s.pc[t := Failing])
    case Store(t) => s.(pool := s.pc[t].page + 1, pc := s.pc[t := Stored(s.pc[t].page)])
    case Clear(t) =>
      var freed := s.(locked := false, pc := s.pc[t := Ready]);
      if s.pc[t].Stored? then freed.(given := s.given + [Slot(s.pc[t].page, 0)]) else freed
  }

  /** The state a schedule leads to, if each of its steps is possible in turn. */
  function After(c: Config, threads: nat, run: seq<Step>): Option<State> {
    if run == [] then Some(Start(threads))
    else
      var before := After(c, threads, run[..|run| - 1]);
      if before.Some? && Enabled(c, before.value, run[|run| - 1])
      then Some(Apply(c, before.value, run[|run| - 1]))
      else None
  }

  predicate Runs(c: Config, threads: nat, run: seq<Step>) { After(c, threads, run).Some? }

  function End(c: Config, threads: nat, run: seq<Step>): State
    requires Runs(c, threads, run)
  {
    After(c, threads, run).value
  }

  /** No fetch_add of the run overflows the counter into the page address. */
  predicate NoCarry(c: Config, threads: nat, run: seq<Step>)
    requires Runs(c, threads, run)
  {
    run == [] ||
    (var before := run[..|run| - 1];
     NoCarry(c, threads, before) &&
     (run[|run| - 1].Fetch? ==> Count(c, End(c, threads, before).pool) + 1 < c.page))
  }

  // ---------- slots are unique ----------

  predicate Holding(p: Pc) { p.Acquired? || p.Failing? || p.Allocated? || p.Stored? }

  ghost predicate LockInv(s: State) {
    (forall t, u :: 0 <= t < |s.pc| && 0 <= u < |s.pc| && Holding(s.pc[t]) && Holding(s.pc[u]) ==> t == u) &&
    (forall t :: 0 <= t < |s.pc| && Holding(s.pc[t]) ==> s.locked)
  }

  ghost predicate PageInv(c: Config, s: State) {
    (forall p :: p in s.pages ==> p != 0 && Aligned(c, p)) &&
    (Base(c, s.pool) == 0 || Base(c, s.pool) in s.pages) &&
    (forall t :: 0 <= t < |s.pc| && s.pc[t].Allocated? ==> Unused(c, s, s.pc[t].page)) &&
    (forall t :: 0 <= t < |s.pc| && s.pc[t].Stored? ==> s.pc[t].page in s.pages && Slot(s.pc[t].page, 0) !in s.given) &&
    (forall t :: 0 <= t < |s.pc| && s.pc[t].Stored? ==> s.pc[t].page == Base(c, s.pool) && Count(c, s.pool) > 0)
  }

  ghost predicate Unused(c: Config, s: State, page: nat) {
    page in s.pages && page != Base(c, s.pool) &&
    forall g :: g in s.given ==> g.page != page
  }

  ghost predicate Legal(c: Config, s: State, g: Slot) {
    g.page in s.pages && g.index < PerPage(c) &&
    (g.page == Base(c, s.pool) ==> g.index < Count(c, s.pool))
  }

  ghost predicate Distinct(given: seq<Slot>) {
    forall i, j :: 0 <= i < j < |given| ==> given[i] != given[j]
  }

  ghost predicate SlotInv(c: Config, s: State) {
    LockInv(s) && PageInv(c, s) &&
    (forall g :: g in s.given ==> Legal(c, s, g)) &&
    Distinct(s.given)
  }

  lemma SlotFetch(c: Config, s: State, t: nat)
    requires SlotInv(c, s) && Enabled(c, s, Fetch(t))
    requires Count(c, s.pool) + 1 < c.page
    ensures SlotInv(c, Apply(c, s, Fetch(t)))
  {
    Bump(c, s.pool);
    if !Exhausted(c, s.pool) {
      var next := Apply(c, s, Fetch(t));
      var got := Slot(Base(c, s.pool), Count(c, s.pool));
      assert got !in s.given;
      forall g | g in next.given ensures Legal(c, next, g) {
        if g in s.given { assert Legal(c, s, g); }
      }
      assert next.given[|s.given|] == got;
    }
  }

  lemma SlotStore(c: Config, s: State, t: nat)
    requires SlotInv(c, s) && Enabled(c, s, Store(t))
    ensures SlotInv(c, Apply(c, s, Store(t)))
  {
    Installed(c, s.pc[t].page);
  }

  lemma SlotClear(c: Config, s: State, t: nat)
    requires SlotInv(c, s) && Enabled(c, s, Clear(t))
    ensures SlotInv(c, Apply(c, s, Clear(t)))
  {
  }

  lemma SlotOther(c: Config, s: State, e: Step)
    requires SlotInv(c, s) && Enabled(c, s, e) && !e.Fetch? && !e.Store? && !e.Clear?
    ensures SlotInv(c, Apply(c, s, e))
  {
  }

  lemma SlotStep(c: Config, s: State, e: Step)
    requires SlotInv(c, s) && Enabled(c, s, e)
    requires e.Fetch? ==> Count(c, s.pool) + 1 < c.page
    ensures SlotInv(c, Apply(c, s, e))
  {
    match e
    case Fetch(t) => SlotFetch(c, s, t);
    case Store(t) => SlotStore(c, s, t);
    case Clear(t) => SlotClear(c, s, t);
    case _ => SlotOther(c, s, e);
  }

  lemma {:induction false} SlotsInvariant(c: Config, threads: nat, run: seq<Step>)
    requires Runs(c, threads, run) && NoCarry(c, threads, run)
    ensures SlotInv(c, End(c, threads, run))
  {
    if run != [] {
      var before := run[..|run| - 1];
      SlotsInvariant(c, threads, before);
      SlotStep(c, End(c, threads, before), run[|run| - 1]);
    }
  }

  /** Byte address of a slot: what GenerateTrampolineFor returns. */
  function Address(c: Config, g: Slot): nat { g.page + g.index * c.slot }

  lemma InsidePage(c: Config, g: Slot)
    requires g.index < PerPage(c)
    ensures g.page <= Address(c, g)
    ensures Address(c, g) + c.slot <= g.page + c.page
  {
    if c.slot == 12 { } else if c.slot == 16 { } else { }
  }

  lemma Apart(c: Config, g: Slot, h: Slot)
    requires g.index < PerPage(c) && h.index < PerPage(c) && g != h
    requires Aligned(c, g.page) && Aligned(c, h.page)
    ensures Address(c, g) + c.slot <= Address(c, h) || Address(c, h) + c.slot <= Address(c, g)
  {
    InsidePage(c, g);
    InsidePage(c, h);
    if g.page == h.page {
      if c.slot == 12 { } else if c.slot == 16 { } else { }
    } else {
      PagesApart(c, g.page, h.page);
    }
  }

  lemma SmallPagesApart(p: nat, q: nat)
    requires p % 4096 == 0 && q % 4096 == 0 && p != q
    ensures p + 4096 <= q || q + 4096 <= p
  {
    assert p == 4096 * (p / 4096) && q == 4096 * (q / 4096);
  }

  lemma LargePagesApart(p: nat, q: nat)
    requires p % 16384 == 0 && q % 16384 == 0 && p != q
    ensures p + 16384 <= q || q + 16384 <= p
  {
    assert p == 16384 * (p / 16384) && q == 16384 * (q / 16384);
  }

  lemma PagesApart(c: Config, p: nat, q: nat)
    requires Aligned(c, p) && Aligned(c, q) && p != q
    ensures p + c.page <= q || q + c.page <= p
  {
    if c.page == 16384 { LargePagesApart(p, q); } else { SmallPagesApart(p, q); }
  }

  /** Over every interleaving without carry, returned trampolines never overlap and lie in allocated pages. */
  lemma TrampolinesDisjoint(c: Config, threads: nat, run: seq<Step>, i: nat, j: nat)
    requires Runs(c, threads, run) && NoCarry(c, threads, run)
    requires i < j < |End(c, threads, run).given|
    ensures var given := End(c, threads, run).given;
            && given[i] != given[j]
            && (Address(c, given[i]) + c.slot <= Address(c, given[j]) ||
                Address(c, given[j]) + c.slot <= Address(c, given[i]))
  {
    var s := End(c, threads, run);
    SlotsInvariant(c, threads, run);
    assert s.given[i] in s.given && s.given[j] in s.given;
    Apart(c, s.given[i], s.given[j]);
  }

  lemma TrampolineInPage(c: Config, threads: nat, run: seq<Step>, i: nat)
    requires Runs(c, threads, run) && NoCarry(c, threads, run)
    requires i < |End(c, threads, run).given|
    ensures var s := End(c, threads, run);
            var g := s.given[i];
            && g.page in s.pages
            && g.page <= Address(c, g)
            && Address(c, g) + c.slot <= g.page + c.page
  {
    var s := End(c, threads, run);
    SlotsInvariant(c, threads, run);
    assert s.given[i] in s.given;
    InsidePage(c, s.given[i]);
  }

  // ---------- how far the counter can run past the page ----------

  /** How many calls of AllocateMemory failed in a run. */
  function Failures(run: seq<Step>): nat {
    if run == [] then 0
    else Failures(run[..|run| - 1]) + if run[|run| - 1].AllocFails? then 1 else 0
  }

  /**
    Bookkeeping of the proof: which threads pushed the current word past its
    last slot while the thread that installed it still held the lock (`early`),
    which did so later (`late`), and the allowance earned by failed refills.
  */
  datatype Account = Account(early: set<nat>, late: set<nat>, storer: nat, credit: nat)

  /** The publisher of the current page has not released the lock yet. */
  ghost predicate Publishing(s: State) { exists t :: 0 <= t < |s.pc| && s.pc[t].Stored? }

  ghost predicate Accounted(c: Config, s: State, a: Account) {
    LockInv(s) && PagesAligned(c, s) &&
    (forall t :: t in a.early ==> t < |s.pc| && t != a.storer) &&
    (forall t :: t in a.late ==> t < |s.pc|) &&
    (forall t :: 0 <= t < |s.pc| && s.pc[t].Stored? ==> a.storer == t && a.late == {}) &&
    (Publishing(s) ==> forall t :: t in a.early ==> s.pc[t].NeedLock? || s.pc[t].Waiting?) &&
    (forall t :: t in a.late ==> Parked(s, t)) &&
    a.storer < |s.pc| && Reserve(s) <= a.credit &&
    Count(c, s.pool) + Reserve(s) <= PerPage(c) + |a.early| + |a.late| + a.credit
  }

  /** The allowance of a failed refill is kept back until its thread releases the lock. */
  ghost function Reserve(s: State): nat {
    if exists t :: 0 <= t < |s.pc| && s.pc[t].Failing? then |s.pc| else 0
  }

  ghost predicate PagesAligned(c: Config, s: State) {
    forall t :: 0 <= t < |s.pc| && s.pc[t].Allocated? ==> Aligned(c, s.pc[t].page)
  }

  /** A thread that cannot fetch again before the current page is replaced or a refill fails. */
  ghost predicate Parked(s: State, t: nat) requires t < |s.pc| {
    s.pc[t].NeedLock? || Holding(s.pc[t]) || (s.pc[t].Waiting? && s.locked)
  }

  /** Early spenders exclude the publisher, late ones are at most all threads. */
  lemma TokenLimit(c: Config, s: State, a: Account)
    requires Accounted(c, s, a)
    ensures |a.early| + 1 <= |s.pc| && |a.late| <= |s.pc|
  {
    var all := Range(|s.pc|);
    RangeSize(|s.pc|);
    Fewer(a.late, all);
    Fewer(a.early, all - {a.storer});
  }

  /** A thread about to fetch has not spent its late increment. */
  lemma RoomToFetch(c: Config, s: State, a: Account, t: nat)
    requires Accounted(c, s, a) && t < |s.pc| && s.pc[t].Ready?
    ensures |a.late| < |s.pc|
  {
    assert t !in a.late;
    RangeSize(|s.pc|);
    Fewer(a.late, Range(|s.pc|) - {t});
  }

  ghost function Charge(c: Config, s: State, a: Account, e: Step): Account
    requires Enabled(c, s, e)
  {
    match e
    case Fetch(t) =>
      if !Exhausted(c, s.pool) then a
      else if Publishing(s) then a.(early := a.early + {t})
      else a.(late := a.late + {t})
    case AllocFails(t) => a.(credit := a.credit + |s.pc|)
    case Store(t) => a.(early := {}, late := {}, storer := t)
    case Clear(t) => if s.pc[t].Failing? then a.(late := {}) else a
    case _ => a
  }

  lemma FetchEarly(c: Config, s: State, a: Account, t: nat)
    requires Accounted(c, s, a) && Enabled(c, s, Fetch(t))
    requires Count(c, s.pool) + 1 < c.page && Exhausted(c, s.pool) && Publishing(s)
    ensures Accounted(c, Apply(c, s, Fetch(t)), a.(early := a.early + {t}))
  {
    hide Count, PerPage, Base, Exhausted, LockInv, PagesAligned;
    Bump(c, s.pool);
    FetchLocks(c, s, t);
    assert t !in a.early;
  }

  /** A fetch of an exhausted word parks its thread and concerns nobody else. */
  lemma FetchParks(c: Config, s: State, t: nat)
    requires Enabled(c, s, Fetch(t)) && Exhausted(c, s.pool)
    ensures var next := Apply(c, s, Fetch(t));
            && Publishing(next) == Publishing(s) && Reserve(next) == Reserve(s)
            && Parked(next, t) && (forall u :: 0 <= u < |s.pc| && Parked(s, u) ==> Parked(next, u))
            && (!Publishing(s) ==> forall u :: 0 <= u < |next.pc| ==> !next.pc[u].Stored?)
  {
    var next := Apply(c, s, Fetch(t));
    assert forall u :: 0 <= u < |s.pc| ==> s.pc[u].Failing? == next.pc[u].Failing?;
    assert forall u :: 0 <= u < |s.pc| ==> s.pc[u].Stored? == next.pc[u].Stored?;
  }

  lemma FetchLocks(c: Config, s: State, t: nat)
    requires Enabled(c, s, Fetch(t)) && LockInv(s) && PagesAligned(c, s)
    ensures LockInv(Apply(c, s, Fetch(t))) && PagesAligned(c, Apply(c, s, Fetch(t)))
  {
    hide Count, PerPage, Base, Exhausted;
  }

  lemma NotYetLate(c: Config, s: State, a: Account, t: nat)
    requires Accounted(c, s, a) && t < |s.pc| && s.pc[t].Ready?
    ensures |a.late + {t}| == |a.late| + 1
  {
    assert t in a.late ==> Parked(s, t);
  }

  lemma FetchLate(c: Config, s: State, a: Account, t: nat)
    requires Accounted(c, s, a) && Enabled(c, s, Fetch(t))
    requires Count(c, s.pool) + 1 < c.page && Exhausted(c, s.pool) && !Publishing(s)
    ensures Accounted(c, Apply(c, s, Fetch(t)), a.(late := a.late + {t}))
  {
    hide Parked, Publishing, Reserve, Count, PerPage, Base, Exhausted, LockInv, PagesAligned;
    Bump(c, s.pool);
    NotYetLate(c, s, a, t);
    FetchLocks(c, s, t);
    FetchParks(c, s, t);
  }

  lemma FetchSlot(c: Config, s: State, a: Account, t: nat)
    requires Accounted(c, s, a) && Enabled(c, s, Fetch(t))
    requires Count(c, s.pool) + 1 < c.page && !Exhausted(c, s.pool)
    ensures Accounted(c, Apply(c, s, Fetch(t)), a)
  {
    Bump(c, s.pool);
  }

  lemma AccountStore(c: Config, s: State, a: Account, t: nat)
    requires Accounted(c, s, a) && Enabled(c, s, Store(t))
    ensures Accounted(c, Apply(c, s, Store(t)), Charge(c, s, a, Store(t)))
  {
    Installed(c, s.pc[t].page);
  }

  lemma AccountClear(c: Config, s: State, a: Account, t: nat)
    requires Accounted(c, s, a) && Enabled(c, s, Clear(t))
    ensures Accounted(c, Apply(c, s, Clear(t)), Charge(c, s, a, Clear(t)))
  {
    TokenLimit(c, s, a);
  }

  lemma AccountLock(c: Config, s: State, a: Account, e: Step)
    requires Accounted(c, s, a) && Enabled(c, s, e) && e.TestAndSet?
    ensures Accounted(c, Apply(c, s, e), a)
  {
  }

  lemma AccountWake(c: Config, s: State, a: Account, e: Step)
    requires Accounted(c, s, a) && Enabled(c, s, e) && e.Wake?
    ensures Accounted(c, Apply(c, s, e), a)
  {
  }

  lemma AccountAlloc(c: Config, s: State, a: Account, e: Step)
    requires Accounted(c, s, a) && Enabled(c, s, e) && e.Alloc?
    ensures Accounted(c, Apply(c, s, e), a)
  {
  }

  lemma AccountFailure(c: Config, s: State, a: Account, e: Step)
    requires Accounted(c, s, a) && Enabled(c, s, e) && e.AllocFails?
    ensures Accounted(c, Apply(c, s, e), Charge(c, s, a, e))
  {
  }

  lemma AccountOther(c: Config, s: State, a: Account, e: Step)
    requires Accounted(c, s, a) && Enabled(c, s, e) && !e.Fetch? && !e.Store? && !e.Clear?
    ensures Accounted(c, Apply(c, s, e), Charge(c, s, a, e))
  {
    hide Accounted, Apply, Enabled;
    match e
    case TestAndSet(_) => AccountLock(c, s, a, e);
    case Wake(_) => AccountWake(c, s, a, e);
    case Alloc(_, _) => AccountAlloc(c, s, a, e);
    case AllocFails(_) => AccountFailure(c, s, a, e);
    case _ =>
  }

  lemma AccountStep(c: Config, s: State, a: Account, e: Step)
    requires Accounted(c, s, a) && Enabled(c, s, e)
    requires e.Fetch? ==> Count(c, s.pool) + 1 < c.page
    ensures Accounted(c, Apply(c, s, e), Charge(c, s, a, e))
  {
    match e
    case Fetch(t) =>
      if !Exhausted(c, s.pool) { FetchSlot(c, s, a, t); }
      else if Publishing(s) { FetchEarly(c, s, a, t); }
      else { FetchLate(c, s, a, t); }
    case Store(t) => AccountStore(c, s, a, t);
    case Clear(t) => AccountClear(c, s, a, t);
    case _ => AccountOther(c, s, a, e);
  }

  /** A step from a state with enough room below the page does not carry. */
  lemma AccountNext(c: Config, s: State, a: Account, e: Step)
    requires Accounted(c, s, a) && Enabled(c, s, e)
    requires PerPage(c) + 2 * |s.pc| + a.credit <= c.page
    ensures e.Fetch? ==> Count(c, s.pool) + 1 < c.page
    ensures Accounted(c, Apply(c, s, e), Charge(c, s, a, e))
    ensures |Apply(c, s, e).pc| == |s.pc|
  {
    TokenLimit(c, s, a);
    if e.Fetch? { RoomToFetch(c, s, a, e.t); }
    AccountStep(c, s, a, e);
  }

  /** The counter stays below this value when at most so many allocations fail. */
  function Ceiling(c: Config, threads: nat, failures: nat): nat {
    PerPage(c) + 2 * threads + failures * threads
  }

  lemma MoreFailures(threads: nat, fewer: nat, more: nat)
    requires fewer <= more
    ensures fewer * threads <= more * threads
  {
    assert more * threads == fewer * threads + (more - fewer) * threads;
  }

  lemma OneMoreFailure(threads: nat, failures: nat)
    ensures (failures + 1) * threads == failures * threads + threads
  {
  }

  lemma CeilingGrows(c: Config, threads: nat, fewer: nat, more: nat)
    requires fewer <= more
    ensures Ceiling(c, threads, fewer) <= Ceiling(c, threads, more)
    ensures Ceiling(c, threads, fewer + 1) == Ceiling(c, threads, fewer) + threads
  {
    MoreFailures(threads, fewer, more);
    OneMoreFailure(threads, fewer);
  }

  lemma AccountStart(c: Config, threads: nat)
    requires threads > 0
    ensures Accounted(c, Start(threads), Account({}, {}, 0, 0)) && |Start(threads).pc| == threads
  {
  }

  lemma ChargeCredit(c: Config, s: State, a: Account, e: Step)
    requires Enabled(c, s, e)
    ensures Charge(c, s, a, e).credit == a.credit + if e.AllocFails? then |s.pc| else 0
  {
  }

  lemma {:induction false} RunAccounted(c: Config, threads: nat, run: seq<Step>) returns (a: Account)
    requires threads > 0 && Runs(c, threads, run) && Ceiling(c, threads, Failures(run)) <= c.page
    ensures NoCarry(c, threads, run)
    ensures Accounted(c, End(c, threads, run), a)
    ensures |End(c, threads, run).pc| == threads && a.credit == Failures(run) * threads
  {
    hide Accounted, Apply, Charge, Enabled, PerPage, Count;
    if run == [] {
      a := Account({}, {}, 0, 0);
      AccountStart(c, threads);
    } else {
      var before, e := run[..|run| - 1], run[|run| - 1];
      OneMoreFailure(threads, Failures(before));
      CeilingGrows(c, threads, Failures(before), Failures(run));
      var was := RunAccounted(c, threads, before);
      AccountNext(c, End(c, threads, before), was, e);
      ChargeCredit(c, End(c, threads, before), was, e);
      a := Charge(c, End(c, threads, before), was, e);
    }
  }

  /**
    The counter never reaches the ceiling, so it never carries into the page
    address; without allocation failures the ceiling is slots + 2 * threads.
  */
  lemma CounterBound(c: Config, threads: nat, run: seq<Step>)
    requires threads > 0 && Runs(c, threads, run) && Ceiling(c, threads, Failures(run)) <= c.page
    ensures NoCarry(c, threads, run)
    ensures Count(c, End(c, threads, run).pool) < Ceiling(c, threads, Failures(run))
  {
    var a := RunAccounted(c, threads, run);
    TokenLimit(c, End(c, threads, run), a);
  }

  // ---------- the bound is reached, and exact ----------

  type Schedule = seq<Step>

  lemma Extend(c: Config, threads: nat, run: Schedule, e: Step) returns (longer: Schedule)
    requires Runs(c, threads, run) && Enabled(c, End(c, threads, run), e)
    ensures Runs(c, threads, longer)
    ensures End(c, threads, longer) == Apply(c, End(c, threads, run), e)
    ensures Failures(longer) == Failures(run) + if e.AllocFails? then 1 else 0
    ensures e.Fetch? && Count(c, End(c, threads, run).pool) + 1 >= c.page ==> !NoCarry(c, threads, longer)
  {
    longer := run + [e];
    assert longer[..|longer| - 1] == run;
  }

  /** What a schedule has set up: threads 1 up to k stand at `done`, the others at `todo`. */
  datatype Scene = Scene(count: nat, failures: nat, first: Pc, k: nat, done: Pc, todo: Pc)

  ghost predicate Looks(c: Config, s: State, scene: Scene) {
    Base(c, s.pool) == 16384 && Count(c, s.pool) == scene.count && |s.pc| >= 1 &&
    s.pc[0] == scene.first && s.locked == Holding(scene.first) &&
    forall t :: 1 <= t < |s.pc| ==> s.pc[t] == if t < scene.k then scene.done else scene.todo
  }

  ghost predicate Reaches(c: Config, threads: nat, run: Schedule, scene: Scene) {
    Runs(c, threads, run) && Failures(run) == scene.failures && |End(c, threads, run).pc| == threads &&
    Looks(c, End(c, threads, run), scene)
  }

  /** The run carries, after at most so many failures. */
  ghost predicate Carries(c: Config, threads: nat, run: Schedule, failures: nat) {
    Runs(c, threads, run) && Failures(run) <= failures && !NoCarry(c, threads, run)
  }

  /** The schedule sets up the scene, unless it carries on the way there. */
  ghost predicate Climbs(c: Config, threads: nat, run: Schedule, scene: Scene) {
    Carries(c, threads, run, scene.failures) || Reaches(c, threads, run, scene)
  }

  lemma CountBelowPage(c: Config, word: nat)
    ensures Count(c, word) < c.page
  {
    assert c.page == 4096 || c.page == 16384;
  }

  /** Below the first page address every word is exhausted. */
  lemma Unpublished(c: Config, word: nat)
    requires word < c.page
    ensures Exhausted(c, word)
  {
    assert c.page == 4096 || c.page == 16384;
  }

  lemma PageAligned(c: Config)
    ensures Aligned(c, 16384)
  {
    assert c.page == 4096 || c.page == 16384;
  }

  lemma FirstPage(c: Config, threads: nat) returns (run: Schedule)
    requires threads >= 1
    ensures Reaches(c, threads, run, Scene(1, 0, Stored(16384), 1, Ready, Ready))
  {
    hide Exhausted, Count, Base, PerPage, NoCarry;
    var ready := seq(threads, _ => Ready);
    Unpublished(c, 0);
    PageAligned(c);
    run := Extend(c, threads, [], Fetch(0));
    run := Extend(c, threads, run, TestAndSet(0));
    assert End(c, threads, run) == State(1, true, ready[0 := Acquired], {}, []);
    run := Extend(c, threads, run, Alloc(0, 16384));
    assert End(c, threads, run) == State(1, true, ready[0 := Allocated(16384)], {16384}, []);
    Installed(c, 16384);
    run := Extend(c, threads, run, Store(0));
  }

  /** Thread t, standing ready, takes the slots that are left. */
  lemma {:induction false} UseUp(c: Config, threads: nat, run: Schedule, n: nat, first: Pc, t: nat)
    returns (longer: Schedule)
    requires 1 <= n <= PerPage(c) && t < threads && (t == 0 ==> first == Ready)
    requires Reaches(c, threads, run, Scene(n, 0, first, 1, Ready, Ready))
    ensures Reaches(c, threads, longer, Scene(PerPage(c), 0, first, 1, Ready, Ready))
    decreases PerPage(c) - n
  {
    if n == PerPage(c) { return run; }
    Bump(c, End(c, threads, run).pool);
    longer := Extend(c, threads, run, Fetch(t));
    longer := UseUp(c, threads, longer, n + 1, first, t);
  }

  /** Every other thread overshoots once while the publisher still holds the lock. */
  lemma {:induction false} Overshoot(c: Config, threads: nat, run: Schedule, n: nat, k: nat) returns (longer: Schedule)
    requires 1 <= k <= threads && PerPage(c) <= n
    requires Reaches(c, threads, run, Scene(n, 0, Stored(16384), k, Waiting, Ready))
    ensures Climbs(c, threads, longer, Scene(n + threads - k, 0, Stored(16384), threads, Waiting, Ready))
    decreases threads - k
  {
    hide Count, Base, PerPage, NoCarry;
    if k == threads { return run; }
    CountBelowPage(c, End(c, threads, run).pool);
    longer := Extend(c, threads, run, Fetch(k));
    if n + 1 == c.page { return; }
    Bump(c, End(c, threads, run).pool);
    longer := Extend(c, threads, longer, TestAndSet(k));
    longer := Overshoot(c, threads, longer, n + 1, k + 1);
  }

  lemma {:induction false} WakeAll(c: Config, threads: nat, run: Schedule, n: nat, f: nat, k: nat) returns (longer: Schedule)
    requires 1 <= k <= threads && Reaches(c, threads, run, Scene(n, f, Ready, k, Ready, Waiting))
    ensures Reaches(c, threads, longer, Scene(n, f, Ready, threads, Ready, Waiting))
    decreases threads - k
  {
    if k == threads { return run; }
    longer := Extend(c, threads, run, Wake(k));
    longer := WakeAll(c, threads, longer, n, f, k + 1);
  }

  /** With the lock free, every thread overshoots once more. */
  lemma {:induction false} OvershootAgain(c: Config, threads: nat, run: Schedule, n: nat, f: nat, k: nat)
    returns (longer: Schedule)
    requires 1 <= k <= threads && PerPage(c) <= n
    requires Reaches(c, threads, run, Scene(n, f, NeedLock, k, NeedLock, Ready))
    ensures Climbs(c, threads, longer, Scene(n + threads - k, f, NeedLock, threads, NeedLock, Ready))
    decreases threads - k
  {
    hide Count, Base, PerPage, NoCarry;
    if k == threads { return run; }
    CountBelowPage(c, End(c, threads, run).pool);
    longer := Extend(c, threads, run, Fetch(k));
    if n + 1 == c.page { return; }
    Bump(c, End(c, threads, run).pool);
    longer := OvershootAgain(c, threads, longer, n + 1, f, k + 1);
  }

  /** All threads stand ready before an exhausted page, thread 0 overshoots first. */
  lemma Round(c: Config, threads: nat, run: Schedule, n: nat, f: nat) returns (longer: Schedule)
    requires threads >= 1 && PerPage(c) <= n
    requires Reaches(c, threads, run, Scene(n, f, Ready, 1, Ready, Ready))
    ensures Climbs(c, threads, longer, Scene(n + threads, f, NeedLock, threads, NeedLock, Ready))
  {
    CountBelowPage(c, End(c, threads, run).pool);
    longer := Extend(c, threads, run, Fetch(0));
    if n + 1 == c.page { return; }
    Bump(c, End(c, threads, run).pool);
    longer := OvershootAgain(c, threads, longer, n + 1, f, 1);
  }

  lemma {:induction false} ParkAll(c: Config, threads: nat, run: Schedule, n: nat, f: nat, k: nat) returns (longer: Schedule)
    requires 1 <= k <= threads && Reaches(c, threads, run, Scene(n, f, Acquired, k, Waiting, NeedLock))
    ensures Reaches(c, threads, longer, Scene(n, f, Acquired, threads, Waiting, NeedLock))
    decreases threads - k
  {
    if k == threads { return run; }
    longer := Extend(c, threads, run, TestAndSet(k));
    longer := ParkAll(c, threads, longer, n, f, k + 1);
  }

  /** One failed refill lets every thread overshoot once more. */
  lemma FailedRefill(c: Config, threads: nat, run: Schedule, n: nat, f: nat) returns (longer: Schedule)
    requires threads >= 1 && PerPage(c) <= n
    requires Reaches(c, threads, run, Scene(n, f, NeedLock, threads, NeedLock, Ready))
    ensures Climbs(c, threads, longer, Scene(n + threads, f + 1, NeedLock, threads, NeedLock, Ready))
  {
    longer := Extend(c, threads, run, TestAndSet(0));
    longer := ParkAll(c, threads, longer, n, f, 1);
    longer := Extend(c, threads, longer, AllocFails(0));
    longer := Extend(c, threads, longer, Clear(0));
    longer := WakeAll(c, threads, longer, n, f + 1, 1);
    longer := Round(c, threads, longer, n, f + 1);
  }

  /** Without failures: every thread overshoots, all but one of them twice. */
  lemma Uphill(c: Config, threads: nat) returns (run: Schedule)
    requires threads >= 1
    ensures Climbs(c, threads, run, Scene(Ceiling(c, threads, 0) - 1, 0, NeedLock, threads, NeedLock, Ready))
  {
    run := FirstPage(c, threads);
    if threads == 1 {
      run := Extend(c, threads, run, Clear(0));
      run := UseUp(c, threads, run, 1, Ready, 0);
    } else {
      run := UseUp(c, threads, run, 1, Stored(16384), 1);
      run := Overshoot(c, threads, run, PerPage(c), 1);
      if Carries(c, threads, run, 0) { return; }
      run := Extend(c, threads, run, Clear(0));
      run := WakeAll(c, threads, run, PerPage(c) + threads - 1, 0, 1);
    }
    run := Round(c, threads, run, PerPage(c) + threads - 1, 0);
  }

  lemma {:induction false} Climb(c: Config, threads: nat, failures: nat) returns (run: Schedule)
    requires threads >= 1
    ensures Climbs(c, threads, run, Scene(Ceiling(c, threads, failures) - 1, failures, NeedLock, threads, NeedLock, Ready))
  {
    if failures == 0 {
      run := Uphill(c, threads);
    } else {
      run := Climb(c, threads, failures - 1);
      if Carries(c, threads, run, failures - 1) { return; }
      CeilingGrows(c, threads, failures - 1, failures);
      CeilingGrows(c, threads, 0, failures - 1);
      run := FailedRefill(c, threads, run, Ceiling(c, threads, failures - 1) - 1, failures - 1);
    }
  }

  /** The last value below the ceiling is reached, for any number of threads and of failures. */
  lemma CeilingReached(c: Config, threads: nat, failures: nat) returns (run: Schedule)
    requires threads >= 1 && Ceiling(c, threads, failures) <= c.page
    ensures Runs(c, threads, run) && Failures(run) == failures
    ensures Count(c, End(c, threads, run).pool) == Ceiling(c, threads, failures) - 1
  {
    run := Climb(c, threads, failures);
    if Carries(c, threads, run, failures) {
      CeilingGrows(c, threads, Failures(run), failures);
      CounterBound(c, threads, run);
    }
  }

  /** Exactly when the ceiling fits the page does no run with so many threads and failures carry. */
  lemma CarryExact(c: Config, threads: nat, failures: nat)
    requires threads >= 1
    ensures (forall run :: Runs(c, threads, run) && Failures(run) <= failures ==> NoCarry(c, threads, run))
      <==> PerPage(c) + 2 * threads + failures * threads <= c.page
  {
    if Ceiling(c, threads, failures) <= c.page {
      forall run | Runs(c, threads, run) && Failures(run) <= failures ensures NoCarry(c, threads, run) {
        CeilingGrows(c, threads, Failures(run), failures);
        CounterBound(c, threads, run);
      }
    } else {
      var run := Climb(c, threads, failures);
      if !Carries(c, threads, run, failures) {
        CountBelowPage(c, End(c, threads, run).pool);
        assert false;
      }
    }
  }

  /** One thread whose allocations keep failing drives the word to any value below one page. */
  lemma {:induction false} FailingRun(c: Config, n: nat) returns (run: Schedule)
    requires n <= c.page
    ensures Runs(c, 1, run) && End(c, 1, run) == State(n, false, [Ready], {}, [])
  {
    hide Exhausted, Count, Base, PerPage, NoCarry;
    run := [];
    if n > 0 {
      run := FailingRun(c, n - 1);
      Unpublished(c, n - 1);
      run := Extend(c, 1, run, Fetch(0));
      run := Extend(c, 1, run, TestAndSet(0));
      run := Extend(c, 1, run, AllocFails(0));
      run := Extend(c, 1, run, Clear(0));
    }
  }

  lemma Carried(c: Config, word: nat)
    requires word == c.page
    ensures Count(c, word) == 0 && !Exhausted(c, word)
  {
    assert c.page == 4096 || c.page == 16384;
  }

  lemma FetchGives(c: Config, s: State, page: nat)
    requires Enabled(c, s, Fetch(0)) && !Exhausted(c, s.pool) && page == Base(c, s.pool) && s.pool == page
    ensures var next := Apply(c, s, Fetch(0)); next.pages == s.pages && next.given == s.given + [Slot(page, 0)]
  {
  }

  /** ... after which the counter has carried and a trampoline outside every page is returned. */
  lemma FailuresBreakSlots(c: Config) returns (run: Schedule)
    ensures Runs(c, 1, run)
    ensures |End(c, 1, run).given| == 1 && End(c, 1, run).given[0] == Slot(c.page, 0)
    ensures End(c, 1, run).pages == {}
  {
    run := FailingRun(c, c.page);
    var s := End(c, 1, run);
    Carried(c, s.pool);
    FetchGives(c, s, c.page);
    run := Extend(c, 1, run, Fetch(0));
  }
}
