/**
  Dobby's executable-memory allocators: bump allocation in arenas, and the near
  allocator that places a block within a range of a position, mapping a new
  arena at a fixed address when no existing one has room there.
*/
module NearAllocator {
  import opened Wrappers

  datatype Block = Block(addr: nat, size: nat)

  /** An arena is used up from its start to its cursor. */
  datatype Arena = Arena(addr: nat, size: nat, cursor: nat)

  function End(a: Arena): nat { a.addr + a.size }

  /** Nothing in common; what is empty has nothing in common with anything. */
  predicate Apart(a: Block, b: Block) {
    a.size == 0 || b.size == 0 || a.addr + a.size <= b.addr || b.addr + b.size <= a.addr
  }

  predicate ArenasApart(a: Arena, b: Arena) { Apart(Block(a.addr, a.size), Block(b.addr, b.size)) }

  predicate InBounds(a: Arena) { a.addr <= a.cursor <= End(a) }

  predicate InsideUsed(b: Block, a: Arena) { a.addr <= b.addr && b.addr + b.size <= a.cursor }

  /** A mapped region of the process. */
  datatype Region = Region(start: nat, size: nat)

  function RegionEnd(r: Region): nat { r.start + r.size }

  type PageSize = p: nat | p == 4096 || p == 16384 witness 4096

  function Floor(n: nat, page: PageSize): (r: nat)
    ensures r <= n < r + page
  {
    if page == 4096 then n - n % 4096 else n - n % 16384
  }

  predicate Aligned(n: nat, page: PageSize) { Floor(n, page) == n }

  function Ceiling(n: nat, page: PageSize): (r: nat)
    ensures n <= r < n + page
  {
    Floor(n + page - 1, page)
  }

  function FloorFour(n: nat): nat { n - n % 4 }

  function Max(a: nat, b: nat): nat { if a > b then a else b }

  function Min(a: nat, b: nat): nat { if a < b then a else b }

  /** The search range around a position, in 64-bit arithmetic. */
  function Low(pos: nat, range: nat): nat { (pos - range) % 0x1_0000_0000_0000_0000 }

  function High(pos: nat, range: nat): nat { (pos + range) % 0x1_0000_0000_0000_0000 }

  /** Where a block of the given size fits between two addresses and inside [low, high]; None stands for 0. */
  function Fit(start: nat, end: nat, low: nat, high: nat, size: nat): (at: Option<nat>)
    ensures at.Some? ==> Max(start, low) == at.value && at.value + size <= Min(end, high) && 0 < at.value < Min(end, high)
  {
    if end < low || start > high then None
    else
      var from, to := Max(start, low), Min(end, high);
      if from >= to || to - from < size || from == 0 then None else Some(from)
  }

  // ---------- gaps between mapped regions ----------

  function GapFit(r: Region, next: Region, low: nat, high: nat, size: nat): Option<nat> {
    if next.start < low || RegionEnd(r) > high then None
    else Fit(FloorFour(RegionEnd(r)), next.start, low, high, size)
  }

  /** The same for the gap behind region i. */
  function GapAt(regions: seq<Region>, i: nat, low: nat, high: nat, size: nat): Option<nat>
    requires i + 1 < |regions|
  {
    GapFit(regions[i], regions[i + 1], low, high, size)
  }

  /** Pages taken for a block: from the page of its first byte to the page behind its end, even when that is aligned. */
  function Taken(at: nat, size: nat, page: PageSize): Arena {
    var first := Floor(at, page);
    Arena(first, Floor(at + size, page) - first + page, first)
  }

  /** The block ends exactly where the next region starts, on a page boundary. */
  predicate Overruns(at: nat, size: nat, next: Region, page: PageSize) {
    Aligned(at + size, page) && at + size == next.start
  }

  lemma SmallSteps(a: nat, b: nat)
    requires b % 4096 == 0
    ensures if a < b then a - a % 4096 + 4096 <= b else b <= a - a % 4096
  {
    assert a - a % 4096 == 4096 * (a / 4096) && b == 4096 * (b / 4096);
  }

  lemma LargeSteps(a: nat, b: nat)
    requires b % 16384 == 0
    ensures if a < b then a - a % 16384 + 16384 <= b else b <= a - a % 16384
  {
    assert a - a % 16384 == 16384 * (a / 16384) && b == 16384 * (b / 16384);
  }

  lemma AlignedSteps(a: nat, b: nat, page: PageSize)
    requires Aligned(b, page)
    ensures a < b ==> Floor(a, page) + page <= b
    ensures b <= a ==> b <= Floor(a, page)
  {
    if page == 4096 { SmallSteps(a, b); } else { LargeSteps(a, b); }
  }

  lemma FloorBounds(n: nat, page: PageSize)
    ensures Floor(n, page) <= n < Floor(n, page) + page && (Aligned(n, page) <==> Floor(n, page) == n)
  {
  }

  lemma AlignedFour(n: nat, page: PageSize)
    requires Aligned(n, page)
    ensures FloorFour(n) == n
  {
    if page == 4096 { } else { }
  }

  /** The pages taken stay inside the gap exactly when the block does not end at the next region. */
  lemma TakenPages(r: Region, next: Region, low: nat, high: nat, size: nat, page: PageSize)
    requires Aligned(RegionEnd(r), page) && Aligned(next.start, page) && GapFit(r, next, low, high, size).Some?
    ensures var at := GapFit(r, next, low, high, size).value;
            var taken := Taken(at, size, page);
            && RegionEnd(r) <= taken.addr <= at && at + size < End(taken)
            && (End(taken) <= next.start <==> !Overruns(at, size, next, page))
            && (Overruns(at, size, next, page) ==> End(taken) == next.start + page)
  {
    hide Floor, FloorFour, Aligned;
    var at := GapFit(r, next, low, high, size).value;
    FloorBounds(at, page);
    FloorBounds(at + size, page);
    AlignedFour(RegionEnd(r), page);
    AlignedSteps(at, RegionEnd(r), page);
    AlignedSteps(at + size, next.start, page);
  }

  /** The process's memory map as it was read: page-aligned regions in order, the last one perhaps twice, covering every arena. */
  ghost predicate Layout(regions: seq<Region>, arenas: seq<Arena>, page: PageSize) {
    (forall i :: 0 <= i < |regions| ==> Aligned(regions[i].start, page) && Aligned(RegionEnd(regions[i]), page)) &&
    (forall i, j :: 0 <= i < j < |regions| ==> RegionEnd(regions[i]) <= regions[j].start || regions[i] == regions[j]) &&
    (forall i, x {:trigger Mapped(regions, arenas[i], x)} :: 0 <= i < |arenas| ==> Mapped(regions, arenas[i], x))
  }

  ghost predicate Mapped(regions: seq<Region>, a: Arena, x: nat) {
    a.addr <= x < End(a) ==> exists k :: 0 <= k < |regions| && regions[k].start <= x < RegionEnd(regions[k])
  }

  /** A region read twice makes no gap. */
  lemma RepeatNoGap(r: Region, low: nat, high: nat, size: nat, page: PageSize)
    requires Aligned(RegionEnd(r), page)
    ensures GapFit(r, r, low, high, size).None?
  {
    AlignedFour(RegionEnd(r), page);
  }

  /** No arena reaches into a gap. */
  lemma GapIsFree(regions: seq<Region>, arenas: seq<Arena>, page: PageSize, k: nat, i: nat)
    requires Layout(regions, arenas, page) && k + 1 < |regions| && i < |arenas|
    ensures End(arenas[i]) <= RegionEnd(regions[k]) || regions[k + 1].start <= arenas[i].addr || arenas[i].size == 0
            || regions[k + 1].start <= RegionEnd(regions[k])
  {
    var a := arenas[i];
    var x := Max(a.addr, RegionEnd(regions[k]));
    assert Mapped(regions, a, x);
    if a.addr <= x < End(a) {
      var j :| 0 <= j < |regions| && regions[j].start <= x < RegionEnd(regions[j]);
      assert j <= k || k + 1 <= j;
    }
  }

  predicate HasRoom(a: Arena, size: nat) { End(a) - a.cursor >= size }

  ghost predicate FirstRoom(arenas: seq<Arena>, k: nat, size: nat) requires k < |arenas| {
    HasRoom(arenas[k], size) && forall j :: 0 <= j < k ==> !HasRoom(arenas[j], size)
  }

  /** Some arena has room in range behind its cursor. */
  ghost predicate Fits(arenas: seq<Arena>, low: nat, high: nat, size: nat) {
    exists k :: 0 <= k < |arenas| && Fit(arenas[k].cursor, End(arenas[k]), low, high, size).Some?
  }

  ghost predicate AllApart(arenas: seq<Arena>, a: Arena) {
    forall i :: 0 <= i < |arenas| ==> ArenasApart(arenas[i], a)
  }

  /** The page behind an aligned block that the fixed mapping takes away from the region there. */
  function ExtraPage(next: Region, page: PageSize): Arena { Arena(next.start, page, next.start) }

  /** The new arena stays in its gap, or the page beyond belongs to no arena. */
  ghost predicate Harmless(arenas: seq<Arena>, at: nat, size: nat, next: Region, page: PageSize) {
    !Overruns(at, size, next, page) || AllApart(arenas, ExtraPage(next, page))
  }

  /** A block at the start of what fits in the gap before region k + 1, in a new arena of exactly the pages taken. */
  ghost predicate InGap(
    was: seq<Arena>, now: seq<Arena>, regions: seq<Region>, k: nat, b: Block, low: nat, high: nat, page: PageSize)
  {
    k + 1 < |regions| && GapAt(regions, k, low, high, b.size) == Some(b.addr) &&
    now == was + [Taken(b.addr, b.size, page).(cursor := b.addr + b.size)]
  }

  /** Cursors stay inside their arenas, and blocks inside the used part of theirs. */
  ghost predicate Inside(arenas: seq<Arena>, blocks: seq<Block>, owner: seq<nat>) {
    (forall i {:trigger InBounds(arenas[i])} :: 0 <= i < |arenas| ==> InBounds(arenas[i])) &&
    |owner| == |blocks| && forall k {:trigger Owned(arenas, blocks, owner, k)} :: 0 <= k < |blocks| ==> Owned(arenas, blocks, owner, k)
  }

  ghost predicate Owned(arenas: seq<Arena>, blocks: seq<Block>, owner: seq<nat>, k: nat)
    requires k < |blocks| == |owner|
  {
    owner[k] < |arenas| && InsideUsed(blocks[k], arenas[owner[k]])
  }

  ghost predicate Disjoint(arenas: seq<Arena>) {
    forall i, j {:trigger ArenasApart(arenas[i], arenas[j])} :: 0 <= i < j < |arenas| ==> ArenasApart(arenas[i], arenas[j])
  }

  ghost predicate BlocksApart(blocks: seq<Block>) {
    forall k, l {:trigger Apart(blocks[k], blocks[l])} :: 0 <= k < l < |blocks| ==> Apart(blocks[k], blocks[l])
  }

  /** What allocMemBlock on arena i does to these. */
  lemma AllocKeeps(arenas: seq<Arena>, blocks: seq<Block>, owner: seq<nat>, i: nat, size: nat)
    requires Inside(arenas, blocks, owner) && i < |arenas| && HasRoom(arenas[i], size)
    ensures var a, b := arenas[i], Block(arenas[i].cursor, size);
            var now := arenas[i := a.(cursor := a.cursor + size)];
            && Inside(now, blocks + [b], owner + [i])
            && (Disjoint(now) <==> Disjoint(arenas))
            && (Disjoint(arenas) ==> (BlocksApart(blocks + [b]) <==> BlocksApart(blocks)))
            && (BlocksApart(blocks + [b]) ==> BlocksApart(blocks))
  {
    var a, b := arenas[i], Block(arenas[i].cursor, size);
    var now, more, mine := arenas[i := a.(cursor := a.cursor + size)], blocks + [b], owner + [i];
    assert InBounds(arenas[i]);
    forall j | 0 <= j < |now| ensures InBounds(now[j]) { assert InBounds(arenas[j]); }
    forall k: nat | k < |more| ensures Owned(now, more, mine, k) {
      if k < |blocks| { assert Owned(arenas, blocks, owner, k); }
    }
    forall j, l | 0 <= j < l < |now| ensures ArenasApart(now[j], now[l]) <==> ArenasApart(arenas[j], arenas[l]) { }
    forall k, l | 0 <= k < l < |blocks| ensures Apart(more[k], more[l]) <==> Apart(blocks[k], blocks[l]) { }
    if Disjoint(arenas) {
      forall k: nat | k < |blocks| ensures Apart(more[k], more[|blocks|]) { NewApart(arenas, blocks, owner, i, k, size); }
    }
  }

  lemma NewApart(arenas: seq<Arena>, blocks: seq<Block>, owner: seq<nat>, i: nat, k: nat, size: nat)
    requires Inside(arenas, blocks, owner) && i < |arenas| && HasRoom(arenas[i], size) && Disjoint(arenas) && k < |blocks|
    ensures Apart(blocks[k], Block(arenas[i].cursor, size))
  {
    assert Owned(arenas, blocks, owner, k) && InBounds(arenas[i]);
    var j := owner[k];
    assert InBounds(arenas[j]);
    if j < i { assert ArenasApart(arenas[j], arenas[i]); }
    if i < j { assert ArenasApart(arenas[i], arenas[j]); }
  }

  lemma AddKeeps(arenas: seq<Arena>, blocks: seq<Block>, owner: seq<nat>, a: Arena)
    requires Inside(arenas, blocks, owner) && a.cursor == a.addr
    ensures Inside(arenas + [a], blocks, owner)
    ensures Disjoint(arenas + [a]) <==> Disjoint(arenas) && AllApart(arenas, a)
  {
    var now := arenas + [a];
    forall j | 0 <= j < |now| ensures InBounds(now[j]) { if j < |arenas| { assert InBounds(arenas[j]); } }
    forall k: nat | k < |blocks| ensures Owned(now, blocks, owner, k) { assert Owned(arenas, blocks, owner, k); }
    forall j, l | 0 <= j < l < |arenas| ensures ArenasApart(now[j], now[l]) <==> ArenasApart(arenas[j], arenas[l]) { }
    forall j | 0 <= j < |arenas| ensures ArenasApart(now[j], now[|arenas|]) <==> ArenasApart(arenas[j], a) { }
  }

  // ---------- the allocators ----------

  class Allocator {
    const page: PageSize
    var arenas: seq<Arena>
    ghost var blocks: seq<Block>   // every block ever handed out, placeholders included
    ghost var owner: seq<nat>      // the arena each block lies in

    ghost predicate Bumped()
      reads this
    {
      Inside(arenas, blocks, owner)
    }

    /** Neither arenas nor blocks overlap. */
    ghost predicate Valid()
      reads this
    {
      Bumped() && Disjoint(arenas) && BlocksApart(blocks)
    }

    constructor (page: PageSize)
      ensures Valid() && arenas == [] && blocks == [] && this.page == page
    {
      this.page := page;
      arenas, blocks, owner := [], [], [];
    }

    /** allocMemBlock on arena i. */
    method AllocIn(i: nat, size: nat) returns (b: Option<Block>)
      requires Bumped() && i < |arenas|
      modifies this
      ensures Bumped() && (Valid() <==> old(Valid()))
      ensures b.None? <==> !HasRoom(old(arenas[i]), size)
      ensures b.None? ==> arenas == old(arenas) && blocks == old(blocks)
      ensures b.Some? ==> b.value == Block(old(arenas[i]).cursor, size) && blocks == old(blocks) + [b.value]
      ensures b.Some? ==> arenas == old(arenas)[i := old(arenas[i]).(cursor := old(arenas[i]).cursor + size)]
    {
      var a := arenas[i];
      if End(a) - a.cursor < size { return None; }
      b := Some(Block(a.cursor, size));
      AllocKeeps(arenas, blocks, owner, i, size);
      arenas := arenas[i := a.(cursor := a.cursor + size)];
      blocks, owner := blocks + [b.value], owner + [i];
    }

    /** Registers freshly mapped memory; the arenas stay disjoint exactly if it is apart from all of them. */
    method AddArena(a: Arena)
      requires Bumped() && a.cursor == a.addr
      modifies this`arenas
      ensures Bumped() && arenas == old(arenas) + [a]
      ensures Valid() <==> old(Valid()) && AllApart(old(arenas), a)
    {
      AddKeeps(arenas, blocks, owner, a);
      arenas := arenas + [a];
    }

    /**
      allocateExecBlock: the first arena with room, or a new one where the system
      maps it. The result of the mapping is not checked: a failure (None) makes an
      arena at address 0.
    */
    method AllocateExec(size: nat, mapped: Option<nat>) returns (b: Block)
      requires Bumped()
      modifies this
      ensures Bumped() && blocks == old(blocks) + [b] && b.size == size
      ensures forall k :: 0 <= k < |old(arenas)| && FirstRoom(old(arenas), k, size) ==>
                b.addr == old(arenas)[k].cursor && (Valid() <==> old(Valid())) &&
                arenas == old(arenas)[k := old(arenas)[k].(cursor := b.addr + size)]
      ensures (forall k :: 0 <= k < |old(arenas)| ==> !HasRoom(old(arenas)[k], size)) ==>
                b.addr == (if mapped.Some? then mapped.value else 0) &&
                arenas == old(arenas) + [Arena(b.addr, Ceiling(size, page), b.addr + size)] &&
                (Valid() <==> old(Valid()) && AllApart(old(arenas), Arena(b.addr, Ceiling(size, page), b.addr)))
    {
      var i := 0;
      while i < |arenas|
        invariant 0 <= i <= |arenas| && Bumped() && arenas == old(arenas) && blocks == old(blocks)
        invariant Valid() <==> old(Valid())
        invariant forall j :: 0 <= j < i ==> !HasRoom(arenas[j], size)
      {
        var r := AllocIn(i, size);
        if r.Some? { return r.value; }
        i := i + 1;
      }
      var addr := if mapped.Some? then mapped.value else 0;
      AddArena(Arena(addr, Ceiling(size, page), addr));
      var r := AllocIn(|arenas| - 1, size);
      b := r.value;
    }

    /** Skips a placeholder up to `at`, then takes the block there. */
    method TakeAt(i: nat, at: nat, size: nat) returns (b: Block)
      requires Bumped() && i < |arenas| && arenas[i].cursor <= at && at + size <= End(arenas[i])
      modifies this
      ensures Bumped() && (Valid() <==> old(Valid())) && b == Block(at, size)
      ensures blocks == old(blocks) + [Block(old(arenas[i]).cursor, at - old(arenas[i]).cursor), b]
      ensures arenas == old(arenas)[i := old(arenas[i]).(cursor := at + size)]
    {
      var gap := AllocIn(i, at - arenas[i].cursor);
      var r := AllocIn(i, size);
      b := r.value;
    }

    /** The block lies in range and in the used part of arena i, behind one placeholder. */
    ghost predicate Placed(b: Block, i: nat, size: nat, low: nat, high: nat, before: seq<Block>)
      reads this
    {
      i < |arenas| && InsideUsed(b, arenas[i]) && b.size == size && low <= b.addr && b.addr + size <= high &&
      |blocks| == |before| + 2 && blocks[..|before|] == before && blocks[|before| + 1] == b
    }

    /** Near a position, in an existing arena. */
    method NearInArenas(size: nat, low: nat, high: nat) returns (b: Option<Block>, ghost i: nat)
      requires Bumped()
      modifies this
      ensures Bumped() && (Valid() <==> old(Valid()))
      ensures b.Some? ==> Placed(b.value, i, size, low, high, old(blocks))
      ensures b.None? ==> arenas == old(arenas) && blocks == old(blocks)
      ensures b.Some? <==> Fits(old(arenas), low, high, size)
      ensures Reuses(old(arenas), arenas)
    {
      var k := 0;
      while k < |arenas|
        invariant 0 <= k <= |arenas| && arenas == old(arenas) && blocks == old(blocks) && owner == old(owner)
        invariant forall j :: 0 <= j < k ==> Fit(arenas[j].cursor, End(arenas[j]), low, high, size).None?
      {
        var at := Fit(arenas[k].cursor, End(arenas[k]), low, high, size);
        if at.Some? {
          assert InBounds(arenas[k]);
          var r := TakeAt(k, at.value, size);
          return Some(r), k;
        }
        k := k + 1;
      }
      b, i := None, 0;
    }

    /** Maps the pages for a block in the gap before region k + 1, replacing whatever is there. */
    method MapGap(at: nat, size: nat, low: nat, high: nat, regions: seq<Region>, ghost k: nat)
      requires Bumped() && Layout(regions, arenas, page)
      requires k + 1 < |regions| && GapAt(regions, k, low, high, size) == Some(at)
      modifies this`arenas
      ensures Bumped() && arenas == old(arenas) + [Taken(at, size, page)]
      ensures Taken(at, size, page).addr <= at && at + size < End(Taken(at, size, page))
      ensures Valid() <==> old(Valid()) && Harmless(old(arenas), at, size, regions[k + 1], page)
    {
      TakenPages(regions[k], regions[k + 1], low, high, size, page);
      TakenApart(regions, arenas, page, k, low, high, size);
      AddArena(Taken(at, size, page));
    }

    /** Near a position, in a new arena in the gap before region k + 1; mapping fails only for lack of memory. */
    method NearInGaps(size: nat, low: nat, high: nat, regions: seq<Region>, works: bool)
      returns (b: Option<Block>, ghost i: nat, ghost k: nat)
      requires Bumped() && Layout(regions, arenas, page)
      modifies this
      ensures Bumped()
      ensures b.Some? ==> Placed(b.value, i, size, low, high, old(blocks))
      ensures b.None? ==> arenas == old(arenas) && blocks == old(blocks)
      ensures b.None? <==> !works || NoGap(regions, low, high, size)
      ensures b.Some? ==> InGap(old(arenas), arenas, regions, k, b.value, low, high, page)
      ensures b.Some? ==> (Valid() <==> old(Valid()) && Harmless(old(arenas), b.value.addr, size, regions[k + 1], page))
    {
      b, i, k := None, 0, 0;
      var at: Option<nat>;
      at, k := FindGap(size, low, high, regions);
      if at.None? || !works { return; }
      MapGap(at.value, size, low, high, regions, k);
      var r := TakeAt(|arenas| - 1, at.value, size);
      b, i := Some(r), |arenas| - 1;
    }

    /** allocateNearBlock: within search_range of pos and inside one arena. */
    method AllocateNear(size: nat, pos: nat, range: nat, regions: seq<Region>, works: bool)
      returns (b: Option<Block>, ghost i: nat, ghost k: nat)
      requires Bumped() && Layout(regions, arenas, page)
      modifies this
      ensures Bumped()
      ensures b.Some? ==> Placed(b.value, i, size, Low(pos, range), High(pos, range), old(blocks))
      ensures b.None? ==> arenas == old(arenas) && blocks == old(blocks)
      ensures Reuses(old(arenas), arenas) <==> Fits(old(arenas), Low(pos, range), High(pos, range), size) || b.None?
      ensures Fits(old(arenas), Low(pos, range), High(pos, range), size) ==> b.Some?
      ensures !Fits(old(arenas), Low(pos, range), High(pos, range), size) ==>
                (b.None? <==> !works || NoGap(regions, Low(pos, range), High(pos, range), size))
      ensures !Reuses(old(arenas), arenas) ==>
                b.Some? && InGap(old(arenas), arenas, regions, k, b.value, Low(pos, range), High(pos, range), page)
      ensures Reuses(old(arenas), arenas) ==> (Valid() <==> old(Valid()))
      ensures !Reuses(old(arenas), arenas) ==>
                (Valid() <==> old(Valid()) && Harmless(old(arenas), b.value.addr, size, regions[k + 1], page))
    {
      k := 0;
      b, i := NearInArenas(size, Low(pos, range), High(pos, range));
      if b.None? { b, i, k := NearInGaps(size, Low(pos, range), High(pos, range), regions, works); }
    }
  }

  /** No arena was added. */
  ghost predicate Reuses(was: seq<Arena>, now: seq<Arena>) { |was| == |now| }

  ghost predicate NoGap(regions: seq<Region>, low: nat, high: nat, size: nat) {
    forall i {:trigger GapAt(regions, i, low, high, size)} :: 0 <= i < |regions| - 1 ==> GapAt(regions, i, low, high, size).None?
  }

  /** The first gap between consecutive regions with room for the block. */
  method FindGap(size: nat, low: nat, high: nat, regions: seq<Region>) returns (at: Option<nat>, ghost k: nat)
    ensures at.Some? ==> k + 1 < |regions| && at == GapAt(regions, k, low, high, size)
    ensures at.Some? ==> forall i {:trigger GapAt(regions, i, low, high, size)} :: 0 <= i < k ==> GapAt(regions, i, low, high, size).None?
    ensures at.None? <==> NoGap(regions, low, high, size)
  {
    var i := 0;
    while i + 1 < |regions|
      invariant 0 <= i
      invariant forall j {:trigger GapAt(regions, j, low, high, size)} :: 0 <= j < i && j + 1 < |regions| ==> GapAt(regions, j, low, high, size).None?
    {
      at := GapAt(regions, i, low, high, size);
      if at.Some? { return at, i; }
      i := i + 1;
    }
    at, k := None, 0;
  }

  /** A new arena in a gap is apart from all others unless it overruns the gap onto one of them. */
  lemma TakenApart(regions: seq<Region>, arenas: seq<Arena>, page: PageSize, k: nat, low: nat, high: nat, size: nat)
    requires Layout(regions, arenas, page) && k + 1 < |regions|
    requires GapAt(regions, k, low, high, size).Some?
    ensures var at := GapAt(regions, k, low, high, size).value;
            AllApart(arenas, Taken(at, size, page)) <==> Harmless(arenas, at, size, regions[k + 1], page)
  {
    TakenPages(regions[k], regions[k + 1], low, high, size, page);
    var at := GapAt(regions, k, low, high, size).value;
    forall i | 0 <= i < |arenas|
      ensures ArenasApart(arenas[i], Taken(at, size, page)) <==>
        !Overruns(at, size, regions[k + 1], page) ||
        ArenasApart(arenas[i], ExtraPage(regions[k + 1], page))
    {
      GapIsFree(regions, arenas, page, k, i);
    }
  }

  /**
    The extra page is handed out twice: a block that fills the gap before an arena
    makes its new arena reach into that arena's page, and the next block is taken there.
  */
  method HandedOutTwice() returns (first: Block, near: Option<Block>, again: Block)
    ensures first == Block(0x3000, 0x1000) && near == Some(Block(0x2000, 0x1000)) && again == first
  {
    var a := new Allocator(4096);
    first := a.AllocateExec(0x1000, Some(0x3000));
    near := FillExampleGap(a);
    assert FirstRoom(a.arenas, 1, 0x1000);
    again := a.AllocateExec(0x1000, None);
  }

  method FillExampleGap(a: Allocator) returns (near: Option<Block>)
    requires a.Bumped() && a.page == 4096 && a.arenas == [Arena(0x3000, 0x1000, 0x4000)]
    modifies a
    ensures a.Bumped() && near == Some(Block(0x2000, 0x1000))
    ensures a.arenas == [Arena(0x3000, 0x1000, 0x4000), Arena(0x2000, 0x2000, 0x3000)]
    ensures !a.Valid()
  {
    var regions := [Region(0x1000, 0x1000), Region(0x3000, 0x1000)];
    ExampleLayout(regions, a.arenas);
    ghost var i, k;
    near, i, k := a.AllocateNear(0x1000, 0x2000, 0x2000, regions, true);
    assert k == 0;
  }

  lemma ExampleLayout(regions: seq<Region>, arenas: seq<Arena>)
    requires regions == [Region(0x1000, 0x1000), Region(0x3000, 0x1000)] && arenas == [Arena(0x3000, 0x1000, 0x4000)]
    ensures Layout(regions, arenas, 4096) && !Fits(arenas, 0, 0x4000, 0x1000)
    ensures GapAt(regions, 0, 0, 0x4000, 0x1000) == Some(0x2000) && !NoGap(regions, 0, 0x4000, 0x1000)
    ensures Taken(0x2000, 0x1000, 4096) == Arena(0x2000, 0x2000, 0x2000)
    ensures Overruns(0x2000, 0x1000, regions[1], 4096) && !Harmless(arenas, 0x2000, 0x1000, regions[1], 4096)
  {
    assert GapAt(regions, 0, 0, 0x4000, 0x1000) == Some(0x2000);
    forall i, x: nat | 0 <= i < |arenas| ensures Mapped(regions, arenas[i], x) {
      assert regions[1].start <= x < RegionEnd(regions[1]) || !(arenas[i].addr <= x < End(arenas[i]));
    }
    assert !ArenasApart(arenas[0], ExtraPage(regions[1], 4096));
  }
}
