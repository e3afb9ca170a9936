/**
  TINYSTL's unordered_map: every node sits in one doubly linked list ordered by
  bucket, and entry i of the bucket array points at the first node whose bucket
  is i or later.
*/
module HashTable {

  type Key(==)
  type Value

  // ---------- bucket numbers ----------

  /** Bitwise conjunction of two natural numbers. */
  function And(a: nat, b: nat): (r: nat)
    ensures r <= b
  {
    if a == 0 || b == 0 then 0
    else 2 * And(a / 2, b / 2) + (if a % 2 == 1 && b % 2 == 1 then 1 else 0)
  }

  class Node {
    const key: Key
    var value: Value
    var next: Node?
    var prev: Node?

    constructor (key: Key, value: Value)
      ensures this.key == key && this.value == value && next == null && prev == null
    {
      this.key := key;
      this.value := value;
      next := null;
      prev := null;
    }
  }

  type Hash = Key -> nat

  /** `hash & (nbuckets - 1)`. */
  function Bucket(n: Node, hash: Hash, m: nat): (b: nat)
    requires m > 0
    ensures b < m
  {
    And(hash(n.key), m - 1)
  }

  // ---------- the list as a value ----------

  type List = seq<Node>

  ghost function At(list: List, i: int): Node? {
    if 0 <= i < |list| then list[i] else null
  }

  ghost predicate Sorted(list: List, hash: Hash, m: nat) requires m > 0 {
    forall i, j :: 0 <= i < j < |list| ==> Bucket(list[i], hash, m) <= Bucket(list[j], hash, m)
  }

  ghost predicate Unique(list: List) {
    forall i, j :: 0 <= i < j < |list| ==> list[i].key != list[j].key
  }

  /** How many of the first n nodes lie in a bucket before b: for a sorted list, where bucket b starts. */
  ghost function Before(list: List, hash: Hash, m: nat, b: nat, n: nat): (r: nat)
    requires m > 0 && n <= |list|
    ensures r <= n
  {
    if n == 0 then 0
    else Before(list, hash, m, b, n - 1) + if Bucket(list[n - 1], hash, m) < b then 1 else 0
  }

  ghost function First(list: List, hash: Hash, m: nat, b: nat): (r: nat)
    requires m > 0
    ensures r <= |list|
  {
    Before(list, hash, m, b, |list|)
  }

  /** f separates the nodes of earlier buckets from the rest. */
  ghost predicate Splits(list: List, hash: Hash, m: nat, b: nat, f: nat)
    requires m > 0
  {
    f <= |list| &&
    (forall i :: 0 <= i < f ==> Bucket(list[i], hash, m) < b) &&
    (forall i :: f <= i < |list| ==> b <= Bucket(list[i], hash, m))
  }

  lemma {:induction false} BeforeSplit(list: List, hash: Hash, m: nat, b: nat, f: nat, n: nat)
    requires m > 0 && n <= |list| && Splits(list, hash, m, b, f)
    ensures Before(list, hash, m, b, n) == if n <= f then n else f
  {
    if n > 0 { BeforeSplit(list, hash, m, b, f, n - 1); }
  }

  lemma SplitIsFirst(list: List, hash: Hash, m: nat, b: nat, f: nat)
    requires m > 0 && Splits(list, hash, m, b, f)
    ensures First(list, hash, m, b) == f
  {
    BeforeSplit(list, hash, m, b, f, |list|);
  }

  lemma {:induction false} Splitting(list: List, hash: Hash, m: nat, b: nat, n: nat)
    requires m > 0 && n <= |list| && Sorted(list, hash, m)
    ensures Splits(list[..n], hash, m, b, Before(list, hash, m, b, n))
  {
    if n > 0 { Splitting(list, hash, m, b, n - 1); }
  }

  lemma FirstSplits(list: List, hash: Hash, m: nat, b: nat)
    requires m > 0 && Sorted(list, hash, m)
    ensures Splits(list, hash, m, b, First(list, hash, m, b))
  {
    Splitting(list, hash, m, b, |list|);
    assert list[..|list|] == list;
  }

  lemma FirstMonotone(list: List, hash: Hash, m: nat, b: nat, c: nat)
    requires m > 0 && Sorted(list, hash, m) && b <= c
    ensures First(list, hash, m, b) <= First(list, hash, m, c)
  {
    FirstSplits(list, hash, m, b);
    FirstSplits(list, hash, m, c);
    var x, y := First(list, hash, m, b), First(list, hash, m, c);
    assert y < |list| ==> c <= Bucket(list[y], hash, m);
  }

  // ---------- inserting and removing, on lists ----------

  ghost function With(list: List, p: nat, n: Node): List
    requires p <= |list|
  {
    list[..p] + [n] + list[p..]
  }

  ghost function Without(list: List, p: nat): List
    requires p < |list|
  {
    list[..p] + list[p + 1..]
  }

  ghost predicate NewKey(list: List, n: Node) {
    forall i :: 0 <= i < |list| ==> list[i].key != n.key
  }

  /** A node goes to the end of its own bucket. */
  ghost function Place(list: List, hash: Hash, m: nat, n: Node): (p: nat)
    requires m > 0
    ensures p <= |list|
  {
    First(list, hash, m, Bucket(n, hash, m) + 1)
  }

  lemma WithSorted(list: List, hash: Hash, m: nat, n: Node)
    requires m > 0 && Sorted(list, hash, m)
    ensures Sorted(With(list, Place(list, hash, m, n), n), hash, m)
  {
    FirstSplits(list, hash, m, Bucket(n, hash, m) + 1);
  }

  lemma WithFirst(list: List, hash: Hash, m: nat, n: Node, c: nat)
    requires m > 0 && Sorted(list, hash, m)
    ensures First(With(list, Place(list, hash, m, n), n), hash, m, c)
         == First(list, hash, m, c) + if Bucket(n, hash, m) < c then 1 else 0
    ensures Bucket(n, hash, m) < c ==> Place(list, hash, m, n) <= First(list, hash, m, c)
    ensures c <= Bucket(n, hash, m) ==> First(list, hash, m, c) <= Place(list, hash, m, n)
  {
    hide Bucket, First, Before;
    var b := Bucket(n, hash, m);
    var p := Place(list, hash, m, n);
    FirstSplits(list, hash, m, b + 1);
    FirstSplits(list, hash, m, c);
    if b < c { FirstMonotone(list, hash, m, b + 1, c); } else { FirstMonotone(list, hash, m, c, b + 1); }
    SplitIsFirst(With(list, p, n), hash, m, c, First(list, hash, m, c) + if b < c then 1 else 0);
  }

  lemma WithoutSorted(list: List, hash: Hash, m: nat, p: nat)
    requires m > 0 && p < |list| && Sorted(list, hash, m)
    ensures Sorted(Without(list, p), hash, m)
  {
  }

  lemma WithoutFirst(list: List, hash: Hash, m: nat, p: nat, c: nat)
    requires m > 0 && p < |list| && Sorted(list, hash, m)
    ensures First(Without(list, p), hash, m, c)
         == First(list, hash, m, c) - if Bucket(list[p], hash, m) < c then 1 else 0
    ensures Bucket(list[p], hash, m) < c <==> p < First(list, hash, m, c)
  {
    FirstSplits(list, hash, m, c);
    SplitIsFirst(Without(list, p), hash, m, c, First(list, hash, m, c) - if Bucket(list[p], hash, m) < c then 1 else 0);
  }

  // ---------- the bucket array ----------

  type Heads = seq<Node?>

  /** Each entry points at the first node of its bucket or a later one; the last entry is null. */
  ghost predicate HeadsOf(heads: Heads, list: List, hash: Hash) {
    |heads| > 1 && forall c :: 0 <= c < |heads| ==> heads[c] == At(list, First(list, hash, |heads| - 1, c))
  }

  lemma LastHeadNull(heads: Heads, list: List, hash: Hash)
    requires HeadsOf(heads, list, hash)
    ensures heads[|heads| - 1] == null
  {
    BeforeSplit(list, hash, |heads| - 1, |heads| - 1, |list|, |list|);
  }

  lemma Position(list: List, i: int, j: int)
    requires Unique(list) && 0 <= i <= |list| && 0 <= j <= |list| && At(list, i) == At(list, j)
    ensures i == j
  {
  }

  /** The new node takes over exactly the entries that pointed at its successor. */
  lemma HeadAfterInsert(heads: Heads, list: List, hash: Hash, n: Node, stop: int, c: nat)
    requires HeadsOf(heads, list, hash) && Sorted(list, hash, |heads| - 1) && Unique(list)
    requires c < |heads| && stop <= Bucket(n, hash, |heads| - 1)
    requires forall b :: 0 <= b && stop < b <= Bucket(n, hash, |heads| - 1) ==>
               heads[b] == At(list, Place(list, hash, |heads| - 1, n))
    requires stop >= 0 ==> heads[stop] != At(list, Place(list, hash, |heads| - 1, n))
    ensures var m := |heads| - 1;
            var longer := With(list, Place(list, hash, m, n), n);
            At(longer, First(longer, hash, m, c)) == if stop < c <= Bucket(n, hash, m) then n else heads[c]
  {
    var m := |heads| - 1;
    var p := Place(list, hash, m, n);
    var f := First(list, hash, m, c);
    WithFirst(list, hash, m, n, c);
    if stop < c <= Bucket(n, hash, m) {
      assert heads[c] == At(list, f);
      Position(list, f, p);
    } else if c <= stop {
      FirstMonotone(list, hash, m, c, stop);
      WithFirst(list, hash, m, n, stop);
      assert f < p;
    }
  }

  /** Removing a node hands exactly its entries to its successor. */
  lemma HeadAfterErase(heads: Heads, list: List, hash: Hash, p: nat, stop: int, c: nat)
    requires HeadsOf(heads, list, hash) && Sorted(list, hash, |heads| - 1) && Unique(list)
    requires p < |list| && c < |heads| && stop <= Bucket(list[p], hash, |heads| - 1)
    requires forall b :: 0 <= b && stop < b <= Bucket(list[p], hash, |heads| - 1) ==> heads[b] == list[p]
    requires stop >= 0 ==> heads[stop] != list[p]
    ensures var m := |heads| - 1;
            var shorter := Without(list, p);
            At(shorter, First(shorter, hash, m, c)) ==
              if stop < c <= Bucket(list[p], hash, m) then At(list, p + 1) else heads[c]
  {
    var m := |heads| - 1;
    var f := First(list, hash, m, c);
    WithoutFirst(list, hash, m, p, c);
    if stop < c <= Bucket(list[p], hash, m) {
      assert heads[c] == At(list, f);
      Position(list, f, p);
    } else if c <= stop {
      FirstMonotone(list, hash, m, c, stop);
      WithoutFirst(list, hash, m, p, stop);
    }
  }

  // ---------- the linked list in memory ----------

  ghost predicate Chain(list: List)
    reads list`next, list`prev
  {
    (forall i {:trigger list[i].next} :: 0 <= i < |list| ==> list[i].next == At(list, i + 1)) &&
    (forall i {:trigger list[i].prev} :: 0 <= i < |list| ==> list[i].prev == At(list, i - 1))
  }

  ghost predicate Linked(buckets: array<Node?>, list: List, hash: Hash)
    reads buckets, list`next, list`prev
  {
    HeadsOf(buckets[..], list, hash) && Chain(list) &&
    Sorted(list, hash, buckets.Length - 1) && Unique(list)
  }

  lemma LinkedUnique(buckets: array<Node?>, list: List, hash: Hash)
    requires Linked(buckets, list, hash)
    ensures Unique(list)
  {
  }

  lemma LinkedSize(buckets: array<Node?>, list: List, hash: Hash)
    requires Linked(buckets, list, hash)
    ensures buckets.Length > 1
  {
  }

  /** A node occurs once in a list of unique keys. */
  lemma OneNode(list: List, at: nat)
    requires Unique(list) && at < |list|
    ensures forall i :: 0 <= i < |list| && list[i] == list[at] ==> i == at
  {
    forall i | 0 <= i < |list| && list[i] == list[at] ensures i == at {
      assert !(i < at) && !(at < i);
    }
  }

  /** Redirects bucket entries from `bucket` downwards while they equal `was`. */
  method Redirect(buckets: array<Node?>, bucket: nat, was: Node?, now: Node?) returns (ghost stop: int)
    requires bucket < buckets.Length && was != now
    modifies buckets
    ensures -1 <= stop <= bucket
    ensures forall c :: 0 <= c < buckets.Length ==>
              buckets[c] == if stop < c <= bucket then now else old(buckets[c])
    ensures forall c :: stop < c <= bucket ==> old(buckets[c]) == was
    ensures stop >= 0 ==> old(buckets[stop]) != was
  {
    var b := bucket;
    while buckets[b] == was
      invariant 0 <= b <= bucket
      invariant forall c :: 0 <= c < buckets.Length ==>
                  buckets[c] == if b < c <= bucket then now else old(buckets[c])
      invariant forall c :: b < c <= bucket ==> old(buckets[c]) == was
      decreases b
    {
      buckets[b] := now;
      if b == 0 { return -1; }
      b := b - 1;
    }
    stop := b;
  }

  lemma FirstHead(heads: Heads, list: List, hash: Hash)
    requires HeadsOf(heads, list, hash)
    ensures heads[0] == At(list, 0)
  {
    BeforeSplit(list, hash, |heads| - 1, 0, 0, |list|);
  }

  /** The last node, found from the nearest non-null entry at or below `bucket`. */
  method Tail(buckets: array<Node?>, bucket: nat, ghost list: List, ghost hash: Hash) returns (tail: Node?)
    requires HeadsOf(buckets[..], list, hash) && Chain(list) && bucket < buckets.Length
    ensures tail == At(list, |list| - 1)
  {
    var b := bucket;
    while b > 0 && buckets[b] == null
      invariant 0 <= b <= bucket
    {
      b := b - 1;
    }
    FirstHead(buckets[..], list, hash);
    tail := buckets[b];
    ghost var k := First(list, hash, buckets.Length - 1, b);
    assert buckets[..][b] == tail;
    tail := Walk(tail, list, k);
  }

  method Walk(start: Node?, ghost list: List, ghost first: nat) returns (tail: Node?)
    requires Chain(list) && start == At(list, first)
    ensures tail == if start == null then null else At(list, |list| - 1)
  {
    tail := start;
    ghost var k := first;
    while tail != null && tail.next != null
      invariant tail == At(list, k) && (tail == null <==> start == null)
      decreases |list| - k
    {
      assert tail == list[k];
      tail := tail.next;
      k := k + 1;
    }
  }

  // ---------- unordered_hash_node_insert and unordered_hash_node_erase ----------

  /** Chain of the list with n at place p, given the pointers the insertion writes. */
  lemma ChainWith(list: List, p: nat, n: Node)
    requires p <= |list| && NewKey(list, n) && Unique(list)
    requires n.next == At(list, p) && n.prev == At(list, p - 1)
    requires forall i {:trigger list[i].next} :: 0 <= i < |list| ==> list[i].next == if i == p - 1 then n else At(list, i + 1)
    requires forall i {:trigger list[i].prev} :: 0 <= i < |list| ==> list[i].prev == if i == p then n else At(list, i - 1)
    ensures Chain(With(list, p, n))
  {
  }

  /** Splices n between the nodes at p - 1 and p. */
  method Splice(n: Node, it: Node?, tail: Node?, ghost list: List, ghost p: nat)
    requires Chain(list) && Unique(list) && NewKey(list, n) && p <= |list|
    requires it == At(list, p) && (it == null ==> tail == At(list, p - 1))
    modifies n`next, n`prev, list`next, list`prev
    ensures Chain(With(list, p, n))
  {
    n.next := it;
    if it != null {
      n.prev := it.prev;
      it.prev := n;
      if n.prev != null { n.prev.next := n; }
    } else {
      n.prev := tail;
      if tail != null { tail.next := n; }
    }
    ChainWith(list, p, n);
  }

  /** Inserts n at the end of its bucket and nowhere else. */
  method NodeInsert(n: Node, buckets: array<Node?>, hash: Hash, ghost list: List) returns (ghost longer: List)
    requires Linked(buckets, list, hash) && NewKey(list, n)
    modifies buckets, n`next, n`prev, list`next, list`prev
    ensures longer == With(list, Place(list, hash, buckets.Length - 1, n), n)
    ensures Linked(buckets, longer, hash)
  {
    var m := buckets.Length - 1;
    var bucket := Bucket(n, hash, m);
    ghost var p := Place(list, hash, m, n);
    longer := With(list, p, n);
    var it := buckets[bucket + 1];
    assert it == buckets[..][bucket + 1] == At(list, p);
    var tail: Node? := null;
    if it == null { tail := Tail(buckets, bucket, list, hash); }
    Splice(n, it, tail, list, p);
    Publish(n, it, buckets, hash, list);
    WithSorted(list, hash, m, n);
    WithUnique(list, p, n);
  }

  /** Points the entries of n's bucket range at n. */
  method Publish(n: Node, it: Node?, buckets: array<Node?>, hash: Hash, ghost list: List)
    requires HeadsOf(buckets[..], list, hash) && Sorted(list, hash, buckets.Length - 1) && Unique(list)
    requires it == At(list, Place(list, hash, buckets.Length - 1, n)) && NewKey(list, n)
    modifies buckets
    ensures HeadsOf(buckets[..], With(list, Place(list, hash, buckets.Length - 1, n), n), hash)
  {
    var bucket := Bucket(n, hash, buckets.Length - 1);
    ghost var heads := buckets[..];
    ghost var stop := Redirect(buckets, bucket, it, n);
    WithHeads(heads, buckets[..], list, hash, n, stop);
  }

  lemma WithUnique(list: List, p: nat, n: Node)
    requires Unique(list) && NewKey(list, n) && p <= |list|
    ensures Unique(With(list, p, n))
  {
  }

  lemma WithHeads(heads: Heads, now: Heads, list: List, hash: Hash, n: Node, stop: int)
    requires HeadsOf(heads, list, hash) && Sorted(list, hash, |heads| - 1) && Unique(list)
    requires |now| == |heads| && stop <= Bucket(n, hash, |heads| - 1)
    requires forall b :: 0 <= b && stop < b <= Bucket(n, hash, |heads| - 1) ==>
               heads[b] == At(list, Place(list, hash, |heads| - 1, n))
    requires stop >= 0 ==> heads[stop] != At(list, Place(list, hash, |heads| - 1, n))
    requires forall c :: 0 <= c < |heads| ==>
               now[c] == if stop < c <= Bucket(n, hash, |heads| - 1) then n else heads[c]
    ensures HeadsOf(now, With(list, Place(list, hash, |heads| - 1, n), n), hash)
  {
    forall c: nat | c < |now| ensures
      var longer := With(list, Place(list, hash, |heads| - 1, n), n);
      now[c] == At(longer, First(longer, hash, |now| - 1, c))
    {
      HeadAfterInsert(heads, list, hash, n, stop, c);
    }
  }

  /** Removes the node at position p and nothing else. */
  method NodeErase(where: Node, buckets: array<Node?>, hash: Hash, ghost list: List, ghost p: nat)
    requires Linked(buckets, list, hash) && p < |list| && list[p] == where
    modifies buckets, list`next, list`prev
    ensures Linked(buckets, Without(list, p), hash)
  {
    Retract(where, buckets, hash, list, p);
    Unlink(where, list, p);
    WithoutSorted(list, hash, buckets.Length - 1, p);
    WithoutUnique(list, p);
  }

  /** Hands the entries that point at a node to its successor. */
  method Retract(where: Node, buckets: array<Node?>, hash: Hash, ghost list: List, ghost p: nat)
    requires HeadsOf(buckets[..], list, hash) && Sorted(list, hash, buckets.Length - 1) && Unique(list)
    requires p < |list| && list[p] == where && where.next == At(list, p + 1)
    modifies buckets
    ensures HeadsOf(buckets[..], Without(list, p), hash)
  {
    var bucket := Bucket(where, hash, buckets.Length - 1);
    ghost var heads := buckets[..];
    ghost var stop := Redirect(buckets, bucket, where, where.next);
    WithoutHeads(heads, buckets[..], list, hash, p, stop);
  }

  method Unlink(where: Node, ghost list: List, ghost p: nat)
    requires Chain(list) && Unique(list) && p < |list| && list[p] == where
    modifies list`next, list`prev
    ensures Chain(Without(list, p))
  {
    var next := where.next;
    if where.prev != null { where.prev.next := where.next; }
    if next != null { next.prev := where.prev; }
    ChainWithout(list, p);
  }

  lemma WithoutUnique(list: List, p: nat)
    requires Unique(list) && p < |list|
    ensures Unique(Without(list, p))
  {
  }

  lemma ChainWithout(list: List, p: nat)
    requires p < |list|
    requires forall i {:trigger list[i].next} :: 0 <= i < |list| && i != p ==>
               list[i].next == if i == p - 1 then At(list, p + 1) else At(list, i + 1)
    requires forall i {:trigger list[i].prev} :: 0 <= i < |list| && i != p ==>
               list[i].prev == if i == p + 1 then At(list, p - 1) else At(list, i - 1)
    ensures Chain(Without(list, p))
  {
    forall j | 0 <= j < |Without(list, p)|
      ensures Without(list, p)[j].next == At(Without(list, p), j + 1)
      ensures Without(list, p)[j].prev == At(Without(list, p), j - 1)
    {
      AtWithout(list, p, j + 1);
      AtWithout(list, p, j - 1);
    }
  }

  lemma AtWithout(list: List, p: nat, j: int)
    requires p < |list|
    ensures At(Without(list, p), j) == if j < p then At(list, j) else At(list, j + 1)
  {
  }

  lemma WithoutHeads(heads: Heads, now: Heads, list: List, hash: Hash, p: nat, stop: int)
    requires HeadsOf(heads, list, hash) && Sorted(list, hash, |heads| - 1) && Unique(list) && p < |list|
    requires |now| == |heads| && stop <= Bucket(list[p], hash, |heads| - 1)
    requires forall b :: 0 <= b && stop < b <= Bucket(list[p], hash, |heads| - 1) ==> heads[b] == list[p]
    requires stop >= 0 ==> heads[stop] != list[p]
    requires forall c :: 0 <= c < |heads| ==>
               now[c] == if stop < c <= Bucket(list[p], hash, |heads| - 1) then At(list, p + 1) else heads[c]
    ensures HeadsOf(now, Without(list, p), hash)
  {
    forall c: nat | c < |now| ensures
      var shorter := Without(list, p);
      now[c] == At(shorter, First(shorter, hash, |now| - 1, c))
    {
      HeadAfterErase(heads, list, hash, p, stop, c);
    }
  }

  // ---------- unordered_hash_find ----------

  /** A key can only occur inside its bucket's segment. */
  lemma Segment(list: List, hash: Hash, m: nat, key: Key, i: nat)
    requires m > 0 && Sorted(list, hash, m) && i < |list| && list[i].key == key
    ensures First(list, hash, m, And(hash(key), m - 1)) <= i < First(list, hash, m, And(hash(key), m - 1) + 1)
  {
    FirstSplits(list, hash, m, And(hash(key), m - 1));
    FirstSplits(list, hash, m, And(hash(key), m - 1) + 1);
  }

  /** Searches one bucket; null means that no node of the whole list has the key. */
  method HashFind(key: Key, buckets: array<Node?>, hash: Hash, ghost list: List) returns (found: Node?)
    requires Linked(buckets, list, hash)
    ensures found != null ==> found in list && found.key == key
    ensures found == null ==> forall i :: 0 <= i < |list| ==> list[i].key != key
  {
    var m := buckets.Length - 1;
    var bucket := And(hash(key), m - 1);
    ghost var first, last := First(list, hash, m, bucket), First(list, hash, m, bucket + 1);
    FirstMonotone(list, hash, m, bucket, bucket + 1);
    assert buckets[bucket] == buckets[..][bucket] && buckets[bucket + 1] == buckets[..][bucket + 1];
    found := Scan(key, buckets[bucket], buckets[bucket + 1], list, first, last);
    if found == null {
      forall i | 0 <= i < |list| ensures list[i].key != key {
        if list[i].key == key { Segment(list, hash, m, key, i); }
      }
    }
  }

  method Scan(key: Key, start: Node?, end: Node?, ghost list: List, ghost first: nat, ghost last: nat)
    returns (found: Node?)
    requires Chain(list) && Unique(list) && first <= last <= |list|
    requires start == At(list, first) && end == At(list, last)
    ensures found != null ==> found in list && found.key == key
    ensures found == null ==> forall i :: first <= i < last ==> list[i].key != key
  {
    found := start;
    ghost var k := first;
    while found != end
      invariant first <= k <= last && found == At(list, k)
      invariant forall i :: first <= i < k ==> list[i].key != key
      decreases last - k
    {
      assert found == list[k];
      if found.key == key { return; }
      found := found.next;
      k := k + 1;
    }
    Position(list, k, last);
    found := null;
  }

  // ---------- the finite map a list stands for ----------

  type Model = map<Key, Value>

  ghost predicate Represents(list: List, model: Model)
    reads list`value
  {
    (forall i :: 0 <= i < |list| ==> list[i].key in model && model[list[i].key] == list[i].value) &&
    (forall k {:trigger Has(list, k)} :: k in model ==> Has(list, k))
  }

  ghost predicate Has(list: List, k: Key) { exists i :: 0 <= i < |list| && list[i].key == k }

  lemma RepresentsWith(list: List, model: Model, p: nat, n: Node)
    requires Represents(list, model) && NewKey(list, n) && p <= |list|
    ensures Represents(With(list, p, n), model[n.key := n.value])
  {
    var longer := With(list, p, n);
    var bigger := model[n.key := n.value];
    forall k | k in bigger ensures Has(longer, k) {
      assert k != n.key ==> Has(list, k);
      if k == n.key {
        assert longer[p].key == k;
      } else {
        var i :| 0 <= i < |list| && list[i].key == k;
        assert longer[if i < p then i else i + 1].key == k;
      }
    }
  }

  lemma RepresentsWithout(list: List, model: Model, p: nat)
    requires Represents(list, model) && Unique(list) && p < |list|
    ensures Represents(Without(list, p), model - {list[p].key})
  {
    var shorter := Without(list, p);
    var smaller := model - {list[p].key};
    forall k | k in smaller ensures Has(shorter, k) {
      assert Has(list, k);
      var i :| 0 <= i < |list| && list[i].key == k;
      assert shorter[if i < p then i else i - 1].key == k;
    }
  }

  ghost function Values(list: List): (values: seq<Value>)
    reads list
    ensures |values| == |list| && forall i :: 0 <= i < |list| ==> values[i] == list[i].value
  {
    seq(|list|, i requires 0 <= i < |list| reads list => list[i].value)
  }

  /** What a list of nodes with the given values stands for. */
  ghost predicate Pairs(list: List, values: seq<Value>, model: Model) {
    |values| == |list| && (forall i :: 0 <= i < |list| ==> list[i].key in model && model[list[i].key] == values[i]) &&
    (forall k {:trigger Has(list, k)} :: k in model ==> Has(list, k))
  }

  lemma RepresentsPairs(list: List, model: Model)
    ensures Represents(list, model) <==> Pairs(list, Values(list), model)
  {
  }

  /** A write to one node's value. */
  lemma PairsWrite(list: List, values: seq<Value>, model: Model, at: nat, value: Value)
    requires Pairs(list, values, model) && Unique(list) && at < |list|
    ensures Pairs(list, values[at := value], model[list[at].key := value])
  {
    assert Has(list, list[at].key);
    forall i | 0 <= i < |list| && i != at ensures list[i].key != list[at].key {
      assert i < at || at < i;
    }
  }

  /** A list of unique keys has as many nodes as the map has entries. */
  lemma {:induction false} RepresentsSize(list: List, model: Model)
    requires Represents(list, model) && Unique(list)
    ensures |model| == |list|
    decreases |list|
  {
    if list == [] {
      assert forall k :: k in model ==> Has(list, k);
      assert model.Keys == {};
    } else {
      var last := |list| - 1;
      RepresentsWithout(list, model, last);
      var rest := model - {list[last].key};
      RepresentsSize(Without(list, last), rest);
      assert model.Keys == rest.Keys + {list[last].key};
      assert |model.Keys| == |rest.Keys| + 1;
    }
  }

  // ---------- rehash and copy ----------

  /** The nodes from k on still carry their old links. */
  ghost predicate Pending(list: List, k: nat)
    reads list`next
  {
    forall j {:trigger list[j].next} :: k <= j < |list| ==> list[j].next == At(list, j + 1)
  }

  lemma EarlierNode(list: List, k: nat, done: List, n: Node) returns (j: nat)
    requires k <= |list| && multiset(done) == multiset(list[..k]) && n in done
    ensures j < k && list[j] == n
  {
    assert n in multiset(list[..k]);
    j :| 0 <= j < k && list[..k][j] == n;
  }

  lemma FreshKey(list: List, k: nat, done: List)
    requires Unique(list) && k < |list| && multiset(done) == multiset(list[..k])
    ensures NewKey(done, list[k])
    ensures forall j :: k <= j < |list| ==> list[j] !in done
  {
    forall i | 0 <= i < |done| ensures done[i].key != list[k].key {
      var j := EarlierNode(list, k, done, done[i]);
    }
    forall j | k <= j < |list| ensures list[j] !in done {
      if list[j] in done { var i := EarlierNode(list, k, done, list[j]); }
    }
  }

  lemma WithNodes(list: List, p: nat, n: Node)
    requires p <= |list|
    ensures multiset(With(list, p, n)) == multiset(list) + multiset{n}
  {
    assert list == list[..p] + list[p..];
  }

  lemma WithoutNodes(list: List, p: nat)
    requires p < |list|
    ensures multiset(list) == multiset(Without(list, p)) + multiset{list[p]}
  {
    assert list == list[..p] + [list[p]] + list[p + 1..];
  }

  lemma Moved(list: List, k: nat, done: List, p: nat)
    requires k < |list| && p <= |done| && multiset(done) == multiset(list[..k])
    ensures multiset(With(done, p, list[k])) == multiset(list[..k + 1])
  {
    WithNodes(done, p, list[k]);
    assert list[..k + 1] == list[..k] + [list[k]];
  }

  /** Clears the links of the k-th node and inserts it behind the ones already moved. */
  method MoveOne(root: Node, buckets: array<Node?>, hash: Hash, ghost list: List, ghost k: nat, ghost done: List)
    returns (next: Node?, ghost more: List)
    requires k < |list| && root == list[k] && Unique(list) && Pending(list, k)
    requires Linked(buckets, done, hash) && multiset(done) == multiset(list[..k])
    modifies buckets, list`next, list`prev
    ensures next == At(list, k + 1) && Pending(list, k + 1)
    ensures Linked(buckets, more, hash) && multiset(more) == multiset(list[..k + 1])
  {
    FreshKey(list, k, done);
    Moved(list, k, done, Place(done, hash, buckets.Length - 1, root));
    next := root.next;
    root.next, root.prev := null, null;
    assert Chain(done);
    forall i | 0 <= i < |done| ensures done[i] in list { var j := EarlierNode(list, k, done, done[i]); }
    more := NodeInsert(root, buckets, hash, done);
  }

  /** Moves every node of a list into an empty bucket array. */
  method Reinsert(first: Node?, buckets: array<Node?>, hash: Hash, ghost list: List) returns (ghost done: List)
    requires first == At(list, 0) && Chain(list) && Unique(list)
    requires Linked(buckets, [], hash)
    modifies buckets, list`next, list`prev
    ensures Linked(buckets, done, hash) && multiset(done) == multiset(list)
  {
    var root := first;
    done := [];
    ghost var k := 0;
    while root != null
      invariant k <= |list| && root == At(list, k)
      invariant Pending(list, k) && Linked(buckets, done, hash)
      invariant multiset(done) == multiset(list[..k])
      decreases |list| - k
    {
      root, done := MoveOne(root, buckets, hash, list, k, done);
      k := k + 1;
    }
    assert list[..k] == list;
  }

  /** What a list stands for depends only on its nodes. */
  lemma SameNodes(list: List, other: List, model: Model)
    requires Represents(list, model) && multiset(list) == multiset(other)
    ensures |other| == |list| && Represents(other, model)
  {
    assert |multiset(list)| == |multiset(other)|;
    forall i | 0 <= i < |other| ensures other[i].key in model && model[other[i].key] == other[i].value {
      assert other[i] in multiset(list);
    }
    forall k | k in model ensures Has(other, k) {
      assert Has(list, k);
      var j :| 0 <= j < |list| && list[j].key == k;
      assert list[j] in multiset(other);
    }
  }

  /** Same keys and values in the same iteration order, in other nodes. */
  ghost predicate Copies(copy: List, list: List, k: nat)
    reads copy`value, list`value
  {
    |copy| == k <= |list| &&
    forall i :: 0 <= i < k ==> copy[i].key == list[i].key && copy[i].value == list[i].value
  }

  /** A node whose bucket is not before any other goes to the very end. */
  lemma PlaceAtEnd(copy: List, list: List, hash: Hash, m: nat, n: Node)
    requires m > 0 && Sorted(list, hash, m) && |copy| < |list| && n.key == list[|copy|].key
    requires forall i :: 0 <= i < |copy| ==> copy[i].key == list[i].key
    ensures Place(copy, hash, m, n) == |copy|
  {
    var b := Bucket(n, hash, m);
    forall i | 0 <= i < |copy| ensures Bucket(copy[i], hash, m) <= b {
      assert Bucket(list[i], hash, m) <= Bucket(list[|copy|], hash, m);
    }
    SplitIsFirst(copy, hash, m, b + 1, |copy|);
  }

  lemma CopyRepresents(copy: List, list: List, model: Model)
    requires Copies(copy, list, |list|) && Represents(list, model)
    ensures Represents(copy, model)
  {
    forall k | k in model ensures Has(copy, k) {
      assert Has(list, k);
      var i :| 0 <= i < |list| && list[i].key == k;
      assert copy[i].key == k;
    }
  }

  /** Rebuilds a list in an empty bucket array of the same size. */
  method CopyNodes(first: Node?, buckets: array<Node?>, hash: Hash, ghost list: List) returns (ghost copy: List)
    requires first == At(list, 0) && Chain(list) && Unique(list)
    requires Linked(buckets, [], hash) && Sorted(list, hash, buckets.Length - 1)
    modifies buckets
    ensures Linked(buckets, copy, hash) && Copies(copy, list, |list|)
    ensures forall i :: 0 <= i < |copy| ==> fresh(copy[i])
  {
    hide Linked, Sorted, Unique;
    var it := first;
    copy := [];
    while it != null
      invariant it == At(list, |copy|)
      invariant Copies(copy, list, |copy|) && Linked(buckets, copy, hash)
      invariant forall i :: 0 <= i < |copy| ==> fresh(copy[i])
      decreases |list| - |copy|
    {
      copy := CopyOne(it, buckets, hash, list, copy);
      it := it.next;
    }
  }

  method CopyOne(it: Node, buckets: array<Node?>, hash: Hash, ghost list: List, ghost copy: List) returns (ghost more: List)
    requires |copy| < |list| && it == list[|copy|] && Unique(list)
    requires Copies(copy, list, |copy|) && Linked(buckets, copy, hash)
    requires Sorted(list, hash, buckets.Length - 1)
    modifies buckets, copy`next, copy`prev
    ensures Linked(buckets, more, hash) && Copies(more, list, |copy| + 1)
    ensures forall i :: 0 <= i < |more| ==> fresh(more[i]) || more[i] in copy
  {
    var n := new Node(it.key, it.value);
    PlaceAtEnd(copy, list, hash, buckets.Length - 1, n);
    more := NodeInsert(n, buckets, hash, copy);
  }

  // ---------- unordered_map ----------

  class UnorderedMap {
    const hash: Hash
    var size: nat
    var buckets: array<Node?>
    ghost var list: List
    ghost var model: Model

    ghost predicate Valid()
      reads this, buckets, list
    {
      Linked(buckets, list, hash) && size == |list| && Represents(list, model)
    }

    constructor (hash: Hash)
      ensures Valid() && model == map[] && this.hash == hash && fresh(buckets) && buckets.Length == 9
    {
      this.hash := hash;
      size := 0;
      buckets := new Node?[9](_ => null);
      list := [];
      model := map[];
    }

    /** The copy holds the same map, iterates in the same order and shares nothing. */
    constructor Copy(other: UnorderedMap)
      requires other.Valid()
      ensures Valid() && model == other.model && hash == other.hash && size == other.size
      ensures Copies(list, other.list, |other.list|)
      ensures fresh(buckets) && forall i :: 0 <= i < |list| ==> fresh(list[i])
    {
      hash := other.hash;
      size := other.size;
      buckets := new Node?[other.buckets.Length](_ => null);
      list := [];
      model := other.model;
      new;
      FirstHead(other.buckets[..], other.list, other.hash);
      list := CopyNodes(other.buckets[0], buckets, hash, other.list);
      CopyRepresents(list, other.list, model);
    }

    /** The node holding a key, or null exactly when the map has no such key. */
    method Find(key: Key) returns (found: Node?)
      requires Valid()
      ensures found == null <==> key !in model
      ensures found != null ==> found in list && found.key == key && found.value == model[key]
    {
      found := HashFind(key, buckets, hash, list);
      assert found == null ==> !Has(list, key);
    }

    /** Adds a key that is absent; otherwise leaves the map alone and returns the existing node. */
    method Insert(key: Key, value: Value) returns (n: Node, added: bool)
      requires Valid()
      modifies this, buckets, list`next, list`prev
      ensures Valid() && (buckets == old(buckets) || fresh(buckets))
      ensures added == (key !in old(model))
      ensures model == if added then old(model)[key := value] else old(model)
      ensures n in list && n.key == key && n.value == model[key]
      ensures added ==> fresh(n) && multiset(list) == old(multiset(list)) + multiset{n}
      ensures !added ==> list == old(list)
    {
      var found := Find(key);
      if found != null { return found, false; }
      n := new Node(key, value);
      added := true;
      AddAndGrow(n);
      assert n in multiset(list);
    }

    method AddAndGrow(n: Node)
      requires Valid() && NewKey(list, n)
      modifies this`size, this`list, this`model, this`buckets, buckets, n`next, n`prev, list`next, list`prev
      ensures Valid() && model == old(model)[n.key := n.value] && (buckets == old(buckets) || fresh(buckets))
      ensures multiset(list) == old(multiset(list)) + multiset{n}
    {
      hide Linked, Represents;
      ghost var was := list;
      ghost var p := AddNode(n);
      WithNodes(was, p, n);
      assert forall i :: 0 <= i < |list| ==> list[i] == n || list[i] in was;
      Rehash(buckets.Length);
    }

    method AddNode(n: Node) returns (ghost p: nat)
      requires Valid() && NewKey(list, n)
      modifies this`size, this`list, this`model, buckets, n`next, n`prev, list`next, list`prev
      ensures Valid() && model == old(model)[n.key := n.value]
      ensures p <= |old(list)| && list == With(old(list), p, n)
    {
      hide Linked, Represents, Place;
      LinkedSize(buckets, list, hash);
      p := Place(list, hash, buckets.Length - 1, n);
      RepresentsWith(list, model, p, n);
      ghost var longer := NodeInsert(n, buckets, hash, list);
      assert Represents(longer, model[n.key := n.value]);
      list, model := longer, model[n.key := n.value];
      size := size + 1;
    }

    /** Grows the bucket array eightfold once there are more than four nodes a bucket. */
    method Rehash(nbuckets: nat)
      requires Valid()
      modifies this`buckets, this`list, list`next, list`prev
      ensures Valid() && multiset(list) == old(multiset(list))
      ensures size + 1 <= 4 * nbuckets ==> buckets == old(buckets) && list == old(list)
      ensures size + 1 > 4 * nbuckets ==> fresh(buckets) && buckets.Length - 1 == 8 * (old(buckets.Length) - 1)
    {
      hide Represents;
      if size + 1 > 4 * nbuckets {
        var root := buckets[0];
        FirstHead(buckets[..], list, hash);
        buckets := new Node?[(buckets.Length - 1) * 8 + 1](_ => null);
        ghost var was := list;
        list := Reinsert(root, buckets, hash, was);
        SameNodes(was, list, model);
      }
    }

    /** A client's write to the value behind an iterator: the map changes at that key only. */
    method SetValue(where: Node, value: Value)
      requires Valid() && where in list
      modifies where`value, this`model
      ensures Valid() && model == old(model)[where.key := value] && where.value == value
    {
      hide Linked, Represents, Pairs, Unique;
      LinkedUnique(buckets, list, hash);
      ghost var at :| 0 <= at < |list| && list[at] == where;
      RepresentsPairs(list, model);
      PairsWrite(list, Values(list), model, at, value);
      ghost var before := Values(list);
      OneNode(list, at);
      where.value := value;
      model := model[where.key := value];
      assert Values(list) == before[at := value];
      RepresentsPairs(list, model);
    }

    /** operator[]: the node of a key, made with an initial value if the map has none. */
    method Index(key: Key, initial: Value) returns (n: Node)
      requires Valid()
      modifies this, buckets, list`next, list`prev
      ensures Valid() && n in list && n.key == key && n.value == model[key] && (fresh(n) || n in old(list))
      ensures model == if key in old(model) then old(model) else old(model)[key := initial]
    {
      var added;
      n, added := Insert(key, initial);
    }

    /** Assignment through operator[]. */
    method Assign(key: Key, value: Value, initial: Value)
      requires Valid()
      modifies this, buckets, list`next, list`prev, list`value
      ensures Valid() && model == old(model)[key := value]
    {
      hide Linked, Represents;
      var n := Index(key, initial);
      SetValue(n, value);
    }

    /** Unlinks a node of the map. */
    method Erase(where: Node)
      requires Valid() && where in list
      modifies this`size, this`list, this`model, buckets, list`next, list`prev
      ensures Valid() && model == old(model) - {where.key}
      ensures old(multiset(list)) == multiset(list) + multiset{where}
    {
      hide Linked, Represents;
      ghost var was := list;
      ghost var p :| 0 <= p < |list| && list[p] == where;
      LinkedUnique(buckets, list, hash);
      RepresentsWithout(was, model, p);
      model := model - {where.key};
      NodeErase(where, buckets, hash, was, p);
      list := Without(was, p);
      size := size - 1;
      WithoutNodes(was, p);
    }

    method Clear()
      requires Valid()
      modifies this
      ensures Valid() && model == map[] && size == 0 && list == [] && fresh(buckets) && buckets.Length == 9
    {
      buckets := new Node?[9](_ => null);
      size := 0;
      list, model := [], map[];
    }
  }
}
