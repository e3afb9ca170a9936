/** Streaming SHA-1: any sequence of updates hashes the padded concatenation of its data. */
module Sha1Stream {
  import opened Sha1

  // ---------- reference: padding and hashing ----------

  type Bytes = seq<Byte>

  const Init := Chain(0x67452301, 0xEFCDAB89, 0x98BADCFE, 0x10325476, 0xC3D2E1F0)

  /** Chaining value after n blocks of a message. */
  function Blocks(bytes: Bytes, n: nat): Chain
    requires 64 * n <= |bytes|
  {
    if n == 0 then Init else Compress(Blocks(bytes, n - 1), BlockAt(bytes, n - 1))
  }

  function BlockAt(bytes: Bytes, k: nat): Block
    requires 64 * k + 64 <= |bytes|
  {
    bytes[64 * k..64 * k + 64]
  }

  /** Byte k of a number, counted from the least significant one. */
  function Octet(n: nat, k: nat): Byte
    requires k < 8
  {
    Digit(n, k) as Byte
  }

  function Digit(n: nat, k: nat): (d: nat)
    requires k < 8
    ensures d < 256
  {
    n / Power(k) % 256
  }

  function Power(k: nat): (p: nat)
    requires k < 8
    ensures p > 0
  {
    if k == 0 then 1 else if k == 1 then 0x100 else if k == 2 then 0x1_0000 else if k == 3 then 0x100_0000
    else if k == 4 then 0x1_0000_0000 else if k == 5 then 0x100_0000_0000
    else if k == 6 then 0x1_0000_0000_0000 else 0x100_0000_0000_0000
  }

  const TwoTo64 := 0x1_0000_0000_0000_0000
  const TwoTo32 := 0x1_0000_0000

  /** The message length in bits as eight bytes, most significant first. */
  function LengthField(bits: nat): (field: Bytes)
    ensures |field| == 8
  {
    seq(8, i requires 0 <= i < 8 => Octet(bits, 7 - i))
  }

  /** Zero bytes needed so that the length field ends a block. */
  function ZeroCount(length: nat): (z: nat)
    ensures z < 64
  {
    (119 - length % 64) % 64
  }

  function Zeros(n: nat): (bytes: Bytes)
    ensures |bytes| == n
  {
    seq(n, _ => 0)
  }

  function Padded(message: Bytes): Bytes {
    message + [0x80] + Zeros(ZeroCount(|message|)) + LengthField(8 * |message| % TwoTo64)
  }

  lemma ZeroExact(length: nat, k: nat)
    requires k <= ZeroCount(length)
    ensures (length + 1 + k) % 64 == 56 <==> k == ZeroCount(length)
  {
  }

  /** SHA-1 of a message. */
  function HashOf(message: Bytes): Chain {
    var padded := Padded(message);
    Blocks(padded, |padded| / 64)
  }

  lemma WholeBlocks(length: nat)
    ensures (length + 1 + ZeroCount(length) + 8) % 64 == 0
  {
    ZeroExact(length, ZeroCount(length));
  }

  lemma PaddedWhole(message: Bytes)
    ensures |Padded(message)| % 64 == 0
  {
    WholeBlocks(|message|);
    assert |Padded(message)| == |message| + 1 + ZeroCount(|message|) + 8;
  }

  lemma BlocksNext(bytes: Bytes, n: nat)
    requires 64 * n + 64 <= |bytes|
    ensures Blocks(bytes, n + 1) == Compress(Blocks(bytes, n), BlockAt(bytes, n))
  {
    hide Compress, BlockAt;
  }

  lemma {:induction false} BlocksPrefix(a: Bytes, b: Bytes, n: nat)
    requires 64 * n <= |a|
    ensures Blocks(a + b, n) == Blocks(a, n)
  {
    hide Compress;
    if n > 0 {
      BlocksPrefix(a, b, n - 1);
      assert BlockAt(a + b, n - 1) == BlockAt(a, n - 1);
    }
  }

  // ---------- the bit counter ----------

  /** Two 32-bit words of a bit count. */
  predicate Counts(c0: nat, c1: nat, length: nat) {
    c0 == 8 * length % TwoTo32 && c1 == 8 * length / TwoTo32 % TwoTo32
  }

  lemma ModuloWhole(x: nat, k: nat, m: nat)
    requires x == k * TwoTo64 + m && m < TwoTo64
    ensures x % TwoTo64 == m
  {
  }

  lemma TwoWords(x: nat)
    ensures x / TwoTo32 % TwoTo32 * TwoTo32 + x % TwoTo32 == x % TwoTo64
  {
    var q, r := x / TwoTo32, x % TwoTo32;
    ModuloWhole(x, q / TwoTo32, q % TwoTo32 * TwoTo32 + r);
  }

  lemma CountMeaning(c0: nat, c1: nat, length: nat)
    requires Counts(c0, c1, length)
    ensures c1 * TwoTo32 + c0 == 8 * length % TwoTo64
  {
    TwoWords(8 * length);
  }

  lemma Divide(x: nat, q: nat, r: nat)
    requires x == q * TwoTo32 + r && r < TwoTo32
    ensures x / TwoTo32 == q && x % TwoTo32 == r
  {
  }

  lemma AddHigh(c1: nat, q: nat, add: nat)
    requires c1 == q % TwoTo32
    ensures (c1 + add) % TwoTo32 == (q + add) % TwoTo32
  {
  }

  /** Splitting a shifted length into its low word and the bits above it. */
  lemma Shifted(more: nat)
    ensures more * 8 == more / 0x2000_0000 * TwoTo32 + more * 8 % TwoTo32
  {
  }

  lemma NoCarry(c0: nat, c1: nat, q: nat, lo: nat, hi: nat, total: nat)
    requires c1 == q % TwoTo32 && total == (q + hi) * TwoTo32 + c0 + lo && c0 + lo < TwoTo32
    ensures total % TwoTo32 == c0 + lo && total / TwoTo32 % TwoTo32 == (c1 + hi) % TwoTo32
  {
    Divide(total, q + hi, c0 + lo);
    AddHigh(c1, q, hi);
  }

  lemma Carry(c0: nat, c1: nat, q: nat, lo: nat, hi: nat, total: nat)
    requires c1 == q % TwoTo32 && total == (q + hi) * TwoTo32 + c0 + lo && TwoTo32 <= c0 + lo < 2 * TwoTo32
    ensures total % TwoTo32 == c0 + lo - TwoTo32
    ensures total / TwoTo32 % TwoTo32 == ((c1 + 1) % TwoTo32 + hi) % TwoTo32
  {
    Divide(total, q + hi + 1, c0 + lo - TwoTo32);
    AddHigh(c1, q, 1);
    AddHigh((c1 + 1) % TwoTo32, q + 1, hi);
  }

  /** The carry test and the shifted-out bits keep the counter exact. */
  lemma CountAdd(c0: nat, c1: nat, length: nat, more: nat)
    requires Counts(c0, c1, length) && more < TwoTo32
    ensures var sum := (c0 + more * 8 % TwoTo32) % TwoTo32;
            var carried := if sum < c0 then (c1 + 1) % TwoTo32 else c1;
            Counts(sum, (carried + more / 0x2000_0000) % TwoTo32, length + more)
  {
    var lo, hi, q := more * 8 % TwoTo32, more / 0x2000_0000, 8 * length / TwoTo32;
    Shifted(more);
    if c0 + lo < TwoTo32 {
      NoCarry(c0, c1, q, lo, hi, 8 * (length + more));
      Divide(c0 + lo, 0, c0 + lo);
    } else {
      Carry(c0, c1, q, lo, hi, 8 * (length + more));
      Divide(c0 + lo, 1, c0 + lo - TwoTo32);
    }
  }

  lemma CountBuffered(c0: nat, length: nat, n: nat)
    requires c0 == 8 * length % TwoTo32 && 64 * n <= length < 64 * n + 64
    ensures c0 / 8 % 64 == length - 64 * n
  {
    var q := 8 * length / TwoTo32;
    var m, j := n - q * 0x80_0000, length - 64 * n;
    assert c0 == 8 * (64 * m + j);
    assert c0 / 8 == 64 * m + j;
  }

  lemma SameOctet(n: nat, k: nat, m: nat, j: nat)
    requires k < 8 && j < 8 && Digit(n, k) == Digit(m, j)
    ensures Octet(n, k) == Octet(m, j)
  {
  }

  /** Byte i of finalcount: the second counter word, then the first. */
  function CountByte(c0: nat, c1: nat, i: nat): Byte
    requires i < 8
  {
    Octet(if i >= 4 then c0 else c1, 3 - i % 4)
  }

  function CountField(c0: nat, c1: nat): Bytes {
    seq(8, i requires 0 <= i < 8 => CountByte(c0, c1, i))
  }

  lemma FieldDigit(c0: nat, c1: nat, n: nat, i: nat)
    requires c0 < TwoTo32 && c1 < TwoTo32 && n == c1 * TwoTo32 + c0 && i < 8
    ensures Digit(n, 7 - i) == Digit(if i >= 4 then c0 else c1, 3 - i % 4)
  {
    hide Digit;
    FieldDigits(c0, c1, n);
    assert i == 0 || i == 1 || i == 2 || i == 3 || i == 4 || i == 5 || i == 6 || i == 7;
  }

  lemma FieldByte(c0: nat, c1: nat, n: nat, i: nat)
    requires c0 < TwoTo32 && c1 < TwoTo32 && n == c1 * TwoTo32 + c0 && i < 8
    ensures CountByte(c0, c1, i) == Octet(n, 7 - i)
  {
    FieldDigit(c0, c1, n, i);
    SameOctet(n, 7 - i, if i >= 4 then c0 else c1, 3 - i % 4);
  }

  /** The bytes of the two counter words are the bytes of the 64-bit count. */
  lemma FieldBytes(c0: nat, c1: nat)
    requires c0 < TwoTo32 && c1 < TwoTo32
    ensures CountField(c0, c1) == LengthField(c1 * TwoTo32 + c0)
  {
    var n := c1 * TwoTo32 + c0;
    forall i | 0 <= i < 8 ensures CountField(c0, c1)[i] == LengthField(n)[i] { FieldByte(c0, c1, n, i); }
  }

  lemma FieldDigits(c0: nat, c1: nat, n: nat)
    requires c0 < TwoTo32 && c1 < TwoTo32 && n == c1 * TwoTo32 + c0
    ensures Digit(n, 7) == Digit(c1, 3) && Digit(n, 6) == Digit(c1, 2)
    ensures Digit(n, 5) == Digit(c1, 1) && Digit(n, 4) == Digit(c1, 0)
    ensures Digit(n, 3) == Digit(c0, 3) && Digit(n, 2) == Digit(c0, 2)
    ensures Digit(n, 1) == Digit(c0, 1) && Digit(n, 0) == Digit(c0, 0)
  {
    HighDigits(c0, c1, n);
    LowDigits(c0, c1, n);
  }

  lemma HighDigits(c0: nat, c1: nat, n: nat)
    requires c0 < TwoTo32 && c1 < TwoTo32 && n == c1 * TwoTo32 + c0
    ensures Digit(n, 7) == Digit(c1, 3) && Digit(n, 6) == Digit(c1, 2)
    ensures Digit(n, 5) == Digit(c1, 1) && Digit(n, 4) == Digit(c1, 0)
  {
    assert n / 0x1_0000_0000 == c1;
    assert n / 0x100_0000_0000 == c1 / 0x100;
    assert n / 0x1_0000_0000_0000 == c1 / 0x1_0000;
    assert n / 0x100_0000_0000_0000 == c1 / 0x100_0000;
  }

  lemma ModDrops(c: nat, h: nat, x: nat, n: nat)
    requires n == c * (256 * h) + x && h in {1, 0x100, 0x1_0000, 0x100_0000}
    ensures n % 256 == x % 256
  {
    assert n == 256 * (c * h) + x;
  }

  lemma LowDigits(c0: nat, c1: nat, n: nat)
    requires c0 < TwoTo32 && c1 < TwoTo32 && n == c1 * TwoTo32 + c0
    ensures Digit(n, 3) == Digit(c0, 3) && Digit(n, 2) == Digit(c0, 2)
    ensures Digit(n, 1) == Digit(c0, 1) && Digit(n, 0) == Digit(c0, 0)
  {
    ModDrops(c1, 1, c0 / 0x100_0000, n / 0x100_0000);
    ModDrops(c1, 0x100, c0 / 0x1_0000, n / 0x1_0000);
    ModDrops(c1, 0x1_0000, c0 / 0x100, n / 0x100);
    ModDrops(c1, 0x100_0000, c0, n);
  }

  /** The padding loop stops exactly when enough zeros are there. */
  lemma Padding(m: Bytes, k: nat, c0: nat)
    requires k <= ZeroCount(|m|) && c0 == 8 * (|m| + 1 + k) % TwoTo32
    ensures c0 / 8 % 64 == 56 <==> k == ZeroCount(|m|)
  {
    ZeroExact(|m|, k);
    CountBuffered(c0, |m| + 1 + k, (|m| + 1 + k) / 64);
  }

  // ---------- SHA1_CTX ----------

  method Copy(buffer: array<Byte>, at: nat, bytes: Bytes)
    requires at + |bytes| <= buffer.Length
    modifies buffer
    ensures forall k :: 0 <= k < buffer.Length ==>
              buffer[k] == if at <= k < at + |bytes| then bytes[k - at] else old(buffer[k])
  {
    var i := 0;
    while i < |bytes|
      invariant 0 <= i <= |bytes|
      invariant forall k :: 0 <= k < buffer.Length ==>
                  buffer[k] == if at <= k < at + i then bytes[k - at] else old(buffer[k])
    {
      buffer[at + i] := bytes[i];
      i := i + 1;
    }
  }

  /** The buffer begins with the bytes of a message behind its first n blocks. */
  ghost predicate Buffered(buffer: array<Byte>, message: Bytes, n: nat)
    reads buffer
  {
    buffer.Length == 64 && 64 * n <= |message| < 64 * n + 64 &&
    forall k :: 0 <= k < |message| - 64 * n ==> buffer[k] == message[64 * n + k]
  }

  lemma FilledBlock(filled: Bytes, message: Bytes, data: Bytes, n: nat, j: nat)
    requires |filled| == 64 && 64 * n + j == |message| && j < 64 && j + |data| > 63
    requires forall k :: 0 <= k < j ==> filled[k] == message[64 * n + k]
    requires forall k :: j <= k < 64 ==> filled[k] == data[k - j]
    ensures filled == BlockAt(message + data, n)
  {
  }

  lemma DataBlock(message: Bytes, data: Bytes, n: nat, i: nat)
    requires 64 * n == |message| + i && i + 64 <= |data|
    ensures data[i..i + 64] == BlockAt(message + data, n)
  {
  }

  /** What remains of the data is what the buffer must hold next. */
  lemma Remainder(buffer: array<Byte>, message: Bytes, data: Bytes, n: nat, j: nat, i: nat)
    requires buffer.Length == 64 && 64 * n + j == |message| + i && i <= |data| && j + |data| - i < 64
    requires (j == 0 || i == 0) && 64 * n <= |message| + i
    requires forall k :: 0 <= k < j ==> 64 * n + k < |message| && buffer[k] == message[64 * n + k]
    requires forall k :: j <= k < j + |data| - i ==> buffer[k] == data[i + k - j]
    ensures Buffered(buffer, message + data, n)
  {
  }

  /** Whole blocks end at least 64 bytes before the 32-bit limit. */
  lemma RoomAhead(i: nat, j: nat, length: nat)
    requires (i + j) % 64 == 0 && i <= length && j + length < TwoTo32
    ensures i + 63 < TwoTo32
  {
  }

  lemma BufferedCount(length: nat, n: nat, j: nat)
    requires 64 * n + j == length && j < 64
    ensures length % 64 == j
  {
  }

  lemma Wraps(j: nat, length: nat)
    requires j < 64 && length < TwoTo32
    ensures (j + length) % TwoTo32 > 63 <==> 63 < j + length < TwoTo32
  {
  }

  class Context {
    var state: Chain
    var count0: nat
    var count1: nat
    const buffer: array<Byte>
    ghost var message: Bytes
    ghost var blocks: nat

    ghost predicate Valid()
      reads this, buffer
    {
      Counts(count0, count1, |message|) && Buffered(buffer, message, blocks) && state == Blocks(message, blocks)
    }

    constructor ()
      ensures Valid() && message == [] && fresh(buffer)
    {
      state := Init;
      count0, count1 := 0, 0;
      buffer := new Byte[64];
      message, blocks := [], 0;
    }

    /** Completes the buffered block with the first bytes of the data. */
    method FillBlock(j: nat, data: Bytes)
      requires 64 * blocks + j == |message| && j + |data| > 63
      requires Buffered(buffer, message, blocks) && state == Blocks(message, blocks)
      modifies this`state, this`blocks, buffer
      ensures 64 * blocks == |message| + 64 - j && state == Blocks(message + data, blocks)
    {
      hide Blocks, BlockAt, Compress;
      BlocksPrefix(message, data, blocks);
      Copy(buffer, j, data[..64 - j]);
      FilledBlock(buffer[..], message, data, blocks, j);
      BlocksNext(message + data, blocks);
      state := Transform(state, buffer[..]);
      blocks := blocks + 1;
    }

    /** Hashes every further whole block of the data, from i on; j bytes were buffered before. */
    method WholeData(from: nat, data: Bytes, ghost j: nat) returns (i: nat)
      requires from <= |data| && 64 * blocks == |message| + from && state == Blocks(message + data, blocks)
      requires (from + j) % 64 == 0 && j + |data| < TwoTo32
      modifies this`state, this`blocks
      ensures i <= |data| < i + 64 && 64 * blocks == |message| + i && state == Blocks(message + data, blocks)
    {
      hide Blocks, BlockAt, Compress;
      i := from;
      RoomAhead(i, j, |data|);
      while (i + 63) % TwoTo32 < |data|
        invariant i <= |data| && 64 * blocks == |message| + i && (i + j) % 64 == 0 && i + 63 < TwoTo32
        invariant state == Blocks(message + data, blocks)
        decreases |data| - i
      {
        DataBlock(message, data, blocks, i);
        BlocksNext(message + data, blocks);
        state := Transform(state, data[i..i + 64]);
        i := i + 64;
        blocks := blocks + 1;
        RoomAhead(i, j, |data|);
      }
    }

    /** Hashes whole blocks and buffers the rest; j bytes were buffered before. All sums are of 32 bits: one that wraps
        makes the last copy longer than the buffer. */
    method Absorb(j: nat, data: Bytes) returns (ok: bool)
      requires 64 * blocks + j == |message| && Buffered(buffer, message, blocks) && state == Blocks(message, blocks)
      requires |data| < TwoTo32
      modifies this`state, this`blocks, buffer
      ensures ok <==> j + |data| < TwoTo32
      ensures ok ==> Buffered(buffer, message + data, blocks) && state == Blocks(message + data, blocks)
    {
      hide Blocks;
      Wraps(j, |data|);
      var i, at := 0, j;
      if (j + |data|) % TwoTo32 > 63 {
        FillBlock(j, data);
        i := WholeData(64 - j, data, j);
        at := 0;
      } else {
        BlocksPrefix(message, data, blocks);
      }
      ok := at + |data| - i <= buffer.Length;
      if ok {
        Copy(buffer, at, data[i..]);
        Remainder(buffer, message, data, blocks, at, i);
      }
    }

    /** Appends data to the message hashed so far, unless its length and what is buffered exceed 32 bits. */
    method Update(data: Bytes) returns (ok: bool)
      requires Valid() && |data| < TwoTo32
      modifies this, buffer
      ensures ok <==> |old(message)| % 64 + |data| < TwoTo32
      ensures ok ==> Valid() && message == old(message) + data
    {
      hide Blocks, Counts;
      var j := Count(|data|);
      BufferedCount(|message|, blocks, j);
      ok := Absorb(j, data);
      message := message + data;
    }

    /** Adds to the bit count; returns how many bytes were buffered before. */
    method Count(length: nat) returns (j: nat)
      requires Valid() && length < TwoTo32
      modifies this`count0, this`count1
      ensures Counts(count0, count1, |message| + length)
      ensures j == |message| - 64 * blocks
    {
      CountAdd(count0, count1, |message|, length);
      CountBuffered(count0, |message|, blocks);
      j := count0;
      count0 := (count0 + length * 8 % TwoTo32) % TwoTo32;
      if count0 < j { count1 := (count1 + 1) % TwoTo32; }
      count1 := (count1 + length / 0x2000_0000) % TwoTo32;
      j := j / 8 % 64;
    }

    /** The two counter words, most significant byte first. */
    method FinalCount() returns (field: Bytes)
      requires Valid()
      ensures field == LengthField(8 * |message| % TwoTo64)
    {
      CountMeaning(count0, count1, |message|);
      FieldBytes(count0, count1);
      field := CountBytes(count0, count1);
    }

    /** Appends zeros until eight bytes of the block are left. */
    method PadZeros(ghost m: Bytes)
      requires Valid() && message == m + [0x80]
      modifies this, buffer
      ensures Valid() && message == m + [0x80] + Zeros(ZeroCount(|m|))
    {
      ghost var k := 0;
      while count0 / 8 % 64 != 56
        invariant Valid() && k <= ZeroCount(|m|) && message == m + [0x80] + Zeros(k)
        decreases ZeroCount(|m|) - k
      {
        Padding(m, k, count0);
        var fine := Update([0]);
        assert Zeros(k) + [0] == Zeros(k + 1);
        k := k + 1;
      }
      Padding(m, k, count0);
    }

    /** Appends 0x80, zeros up to the last eight bytes of a block, and the length field. */
    method Pad()
      requires Valid()
      modifies this, buffer
      ensures Valid() && message == Padded(old(message))
    {
      ghost var m := message;
      var field := FinalCount();
      var fine := Update([0x80]);
      PadZeros(m);
      fine := Update(field);
    }

    /** SHA1Final: the digest is the big-endian form of the message's SHA-1. */
    method Final() returns (digest: Bytes)
      requires Valid()
      modifies this, buffer
      ensures digest == DigestOf(HashOf(old(message)))
    {
      ghost var m := message;
      Pad();
      PaddedWhole(m);
      assert blocks == |message| / 64;
      digest := Serialize(state);
    }
  }

  method CountBytes(c0: nat, c1: nat) returns (field: Bytes)
    ensures field == CountField(c0, c1)
  {
    hide CountByte;
    field := [];
    var i := 0;
    while i < 8
      invariant 0 <= i <= 8 && field == CountField(c0, c1)[..i]
    {
      field := field + [CountByte(c0, c1, i)];
      i := i + 1;
    }
  }

  // ---------- digest bytes ----------

  /** Byte k of a word, most significant first. */
  function ByteOf(w: Word, k: nat): Byte
    requires k < 4
  {
    (if k == 0 then w >> 24 else if k == 1 then (w >> 16) & 255 else if k == 2 then (w >> 8) & 255 else w & 255) as Byte
  }

  function WordOf(h: Chain, k: nat): Word
    requires k < 5
  {
    if k == 0 then h.a else if k == 1 then h.b else if k == 2 then h.c else if k == 3 then h.d else h.e
  }

  function DigestOf(h: Chain): (digest: Bytes)
    ensures |digest| == 20
  {
    seq(20, i requires 0 <= i < 20 => ByteOf(WordOf(h, i / 4), i % 4))
  }

  method Serialize(h: Chain) returns (digest: Bytes)
    ensures digest == DigestOf(h)
  {
    hide WordOf, ByteOf;
    digest := [];
    var i := 0;
    while i < 20
      invariant 0 <= i <= 20 && digest == DigestOf(h)[..i]
    {
      digest := digest + [ByteOf(WordOf(h, i / 4), i % 4)];
      i := i + 1;
    }
  }

  lemma DigestAt(h: Chain, k: nat, r: nat)
    requires k < 5 && r < 4
    ensures DigestOf(h)[4 * k + r] == ByteOf(WordOf(h, k), r)
  {
    assert (4 * k + r) / 4 == k && (4 * k + r) % 4 == r;
  }

  /** The four bytes of each digest word read big-endian give the word back. */
  lemma DigestReads(h: Chain, k: nat)
    requires k < 5
    ensures var d := DigestOf(h); Big(d[4 * k + 0], d[4 * k + 1], d[4 * k + 2], d[4 * k + 3]) == WordOf(h, k)
  {
    hide DigestOf, WordOf, ByteOf, Big;
    DigestAt(h, k, 0);
    DigestAt(h, k, 1);
    DigestAt(h, k, 2);
    DigestAt(h, k, 3);
    var d := DigestOf(h);
    BytesRead(WordOf(h, k), d[4 * k + 0], d[4 * k + 1], d[4 * k + 2], d[4 * k + 3]);
  }

  lemma BytesRead(w: Word, b0: Byte, b1: Byte, b2: Byte, b3: Byte)
    requires b0 == ByteOf(w, 0) && b1 == ByteOf(w, 1) && b2 == ByteOf(w, 2) && b3 == ByteOf(w, 3)
    ensures Big(b0, b1, b2, b3) == w
  {
  }
}
