/**
  Ordering of class definitions: a depth-first walk gives every class an index
  after its superclass and interfaces, and sorting by index keeps it.
*/
module ClassOrder {
  import opened Finite

  /** For each class its locally defined superclass and interfaces; `rank` witnesses that there is no cycle. */
  datatype GraphRec = Graph(uses: seq<seq<nat>>, rank: seq<nat>)

  /** Uses stay within the file and go down in rank. */
  predicate Acyclic(g: GraphRec) {
    |g.rank| == |g.uses| &&
    forall c, k :: 0 <= c < |g.uses| && 0 <= k < |g.uses[c]| ==>
      g.uses[c][k] < |g.uses| && g.rank[g.uses[c][k]] < g.rank[c]
  }

  type Graph = g: GraphRec | Acyclic(g) witness Graph([], [])

  // ---------- what has been indexed so far ----------

  const Unset := -1

  /** `done` lists the indexed classes by index. */
  ghost predicate Numbered(index: seq<int>, done: seq<nat>) {
    (forall i :: 0 <= i < |done| ==> done[i] < |index| && index[done[i]] == i) &&
    (forall c :: 0 <= c < |index| && index[c] != Unset ==> 0 <= index[c] < |done| && done[index[c]] == c)
  }

  /** Every use of an indexed class is indexed before it. */
  ghost predicate Ordered(g: Graph, index: seq<int>) {
    |index| == |g.uses| &&
    forall c, k {:trigger g.uses[c][k]} :: 0 <= c < |index| && index[c] != Unset && 0 <= k < |g.uses[c]| ==>
      index[g.uses[c][k]] != Unset && index[g.uses[c][k]] < index[c]
  }

  /** Indexes already given stay, and new ones go only to classes of bounded rank. */
  ghost predicate Extends(g: Graph, was: seq<int>, now: seq<int>, bound: int) {
    |was| == |now| == |g.uses| &&
    forall c :: 0 <= c < |was| ==>
      (was[c] != Unset ==> now[c] == was[c]) && (was[c] == Unset && now[c] != Unset ==> g.rank[c] <= bound)
  }

  ghost function Firsts(done: seq<nat>, k: nat): set<nat>
    requires k <= |done|
  {
    if k == 0 then {} else Firsts(done, k - 1) + {done[k - 1]}
  }

  lemma {:induction false} FromFirsts(done: seq<nat>, k: nat, c: nat) returns (i: nat)
    requires k <= |done| && c in Firsts(done, k)
    ensures i < k && done[i] == c
  {
    if c == done[k - 1] { i := k - 1; } else { i := FromFirsts(done, k - 1, c); }
  }

  lemma {:induction false} FirstsSize(done: seq<nat>, k: nat)
    requires k <= |done| && forall i, j :: 0 <= i < j < |done| ==> done[i] != done[j]
    ensures |Firsts(done, k)| == k
  {
    if k > 0 {
      FirstsSize(done, k - 1);
      if done[k - 1] in Firsts(done, k - 1) { var i := FromFirsts(done, k - 1, done[k - 1]); }
    }
  }

  /** Distinct classes are no more than there are, and fewer when one is missing. */
  lemma ToSet(done: seq<nat>, n: nat)
    requires forall i :: 0 <= i < |done| ==> done[i] < n
    requires forall i, j :: 0 <= i < j < |done| ==> done[i] != done[j]
    ensures |done| <= n
    ensures forall c :: 0 <= c < n && c !in done ==> |done| < n
  {
    var s := Firsts(done, |done|);
    FirstsSize(done, |done|);
    RangeSize(n);
    forall c | c in s ensures c in Range(n) && c in done { var i := FromFirsts(done, |done|, c); }
    Fewer(s, Range(n));
    forall c | 0 <= c < n && c !in done ensures |done| < n { Fewer(s, Range(n) - {c}); }
  }

  lemma RoomFor(index: seq<int>, done: seq<nat>, c: nat)
    requires Numbered(index, done) && c < |index| && index[c] == Unset
    ensures |done| < |index|
  {
    assert forall i, j :: 0 <= i < j < |done| ==> index[done[i]] != index[done[j]];
    assert forall i :: 0 <= i < |done| ==> index[done[i]] != Unset;
    ToSet(done, |index|);
    assert c !in done;
  }

  // ---------- the walk ----------

  class Sorter {
    const g: Graph
    const index: array<int>
    var next: nat
    ghost var done: seq<nat>

    ghost predicate Valid()
      reads this, index
    {
      index.Length == |g.uses| && next == |done| && Numbered(index[..], done) && Ordered(g, index[..])
    }

    constructor (g: Graph)
      ensures this.g == g && Valid() && fresh(index) && done == []
      ensures forall c :: 0 <= c < index.Length ==> index[c] == Unset
    {
      this.g := g;
      index := new int[|g.uses|](_ => Unset);
      next, done := 0, [];
    }

    /** TopSortClassIndex: indexes a class after everything it uses. */
    method TopSort(c: nat)
      requires Valid() && c < index.Length
      modifies this`next, this`done, index
      ensures Valid() && index[c] != Unset
      ensures Extends(g, old(index[..]), index[..], g.rank[c])
      decreases g.rank[c], 1
    {
      if index[c] == Unset {
        var uses := g.uses[c];
        ghost var rank: int := g.rank[c];
        var k := 0;
        while k < |uses|
          invariant 0 <= k <= |uses| && Valid()
          invariant Extends(g, old(index[..]), index[..], rank - 1)
          invariant forall j :: 0 <= j < k ==> index[uses[j]] != Unset
        {
          TopSort(uses[k]);
          k := k + 1;
        }
        Give(c);
      }
    }

    method Give(c: nat)
      requires Valid() && c < index.Length && index[c] == Unset
      requires forall j :: 0 <= j < |g.uses[c]| ==> index[g.uses[c][j]] != Unset
      modifies this`next, this`done, index
      ensures Valid() && index[..] == old(index[..])[c := old(next)] && next == old(next) + 1 <= index.Length
    {
      RoomFor(index[..], done, c);
      assert next < index.Length;
      index[c] := next;
      next := next + 1;
      done := done + [c];
    }

    /** SortClassIndexes: a permutation in which every class comes after what it uses. */
    method SortAll()
      requires Valid() && done == [] && forall c :: 0 <= c < index.Length ==> index[c] == Unset
      modifies this`next, this`done, index
      ensures Valid() && next == index.Length
      ensures Permutation(index[..]) && Respects(g, index[..])
    {
      var c := 0;
      while c < index.Length
        invariant 0 <= c <= index.Length && Valid()
        invariant forall d :: 0 <= d < c ==> index[d] != Unset
      {
        TopSort(c);
        c := c + 1;
      }
      AllNumbered(index[..], done);
    }
  }

  // ---------- the result ----------

  /** Indexes 0 .. n-1, each used once. */
  ghost predicate Permutation(index: seq<int>) {
    (forall c :: 0 <= c < |index| ==> 0 <= index[c] < |index|) &&
    (forall c, d :: 0 <= c < d < |index| ==> index[c] != index[d]) &&
    (forall i :: 0 <= i < |index| ==> i in index)
  }

  ghost predicate Respects(g: Graph, index: seq<int>) {
    |index| == |g.uses| &&
    forall c, k {:trigger g.uses[c][k]} :: 0 <= c < |index| && 0 <= k < |g.uses[c]| ==> index[g.uses[c][k]] < index[c]
  }

  lemma AllNumbered(index: seq<int>, done: seq<nat>)
    requires Numbered(index, done) && forall c :: 0 <= c < |index| ==> index[c] != Unset
    ensures |done| == |index| && Permutation(index)
  {
    assert forall i, j :: 0 <= i < j < |done| ==> index[done[i]] != index[done[j]];
    ToSet(done, |index|);
    var values: seq<nat> := seq(|index|, c requires 0 <= c < |index| => index[c]);
    assert forall c, d :: 0 <= c < d < |index| ==> done[values[c]] != done[values[d]];
    ToSet(values, |done|);
    forall i | 0 <= i < |index| ensures i in index { assert index[done[i]] == i; }
    forall c, d | 0 <= c < d < |index| ensures index[c] != index[d] { assert values[c] != values[d]; }
  }

  // ---------- IndexItems keeps it ----------

  /** Classes in the order IndexItems leaves them: all of them, by increasing index. */
  ghost predicate SortedBy(items: seq<nat>, index: seq<int>) {
    |items| == |index| && (forall i :: 0 <= i < |items| ==> items[i] < |index|) &&
    (forall i, j :: 0 <= i < j < |items| ==> items[i] != items[j] && index[items[i]] <= index[items[j]])
  }

  /** Renumbering the sorted classes by position changes no index. */
  lemma IndexItemsKeeps(items: seq<nat>, index: seq<int>, i: nat)
    requires Permutation(index) && SortedBy(items, index) && i < |items|
    ensures index[items[i]] == i
  {
    AtLeast(items, index, i);
    AtMost(items, index, i);
  }

  lemma {:induction false} AtLeast(items: seq<nat>, index: seq<int>, i: nat)
    requires Permutation(index) && SortedBy(items, index) && i < |items|
    ensures index[items[i]] >= i
  {
    if i > 0 {
      AtLeast(items, index, i - 1);
      assert items[i - 1] != items[i] && index[items[i - 1]] <= index[items[i]];
    }
  }

  lemma {:induction false} AtMost(items: seq<nat>, index: seq<int>, i: nat)
    requires Permutation(index) && SortedBy(items, index) && i < |items|
    ensures index[items[i]] <= i
    decreases |items| - i
  {
    if i < |items| - 1 {
      AtMost(items, index, i + 1);
      assert items[i] != items[i + 1] && index[items[i]] <= index[items[i + 1]];
    }
  }
}
