/**
  SHA-1 as sha1.cpp computes it: in-place rounds over a circular 16-word
  schedule, and streaming updates with a two-word bit counter. The reference
  definitions follow sections 4.1.1, 5.1.1, 6.1.2 of FIPS 180-4.
*/
module Sha1 {

  type Byte = bv8
  type Word = bv32

  // ---------- reference: one block ----------

  function Rol(x: Word, n: nat): Word
    requires 0 < n < 32
  {
    (x << n) | (x >> (32 - n))
  }

  function Ch(x: Word, y: Word, z: Word): Word { (x & y) ^ (!x & z) }

  function Parity(x: Word, y: Word, z: Word): Word { x ^ y ^ z }

  function Maj(x: Word, y: Word, z: Word): Word { (x & y) ^ (x & z) ^ (y & z) }

  function F(t: nat, x: Word, y: Word, z: Word): Word {
    if t < 20 then Ch(x, y, z) else if t < 40 then Parity(x, y, z) else if t < 60 then Maj(x, y, z) else Parity(x, y, z)
  }

  function K(t: nat): Word {
    if t < 20 then 0x5A827999 else if t < 40 then 0x6ED9EBA1 else if t < 60 then 0x8F1BBCDC else 0xCA62C1D6
  }

  /** Big-endian word of four bytes. */
  function Big(b0: Byte, b1: Byte, b2: Byte, b3: Byte): Word {
    ((b0 as Word) << 24) | ((b1 as Word) << 16) | ((b2 as Word) << 8) | (b3 as Word)
  }

  type Block = b: seq<Byte> | |b| == 64 witness seq(64, _ => 0)

  function M(block: Block, t: nat): Word
    requires t < 16
  {
    Big(block[4 * t], block[4 * t + 1], block[4 * t + 2], block[4 * t + 3])
  }

  /** The 80-word message schedule. */
  function W(block: Block, t: nat): Word {
    if t < 16 then M(block, t)
    else Rol(W(block, t - 3) ^ W(block, t - 8) ^ W(block, t - 14) ^ W(block, t - 16), 1)
  }

  datatype Chain = Chain(a: Word, b: Word, c: Word, d: Word, e: Word)

  function Add5(r: Word, f: Word, e: Word, k: Word, w: Word): Word { r + f + e + k + w }

  function Round(h: Chain, t: nat, w: Word): Chain {
    Chain(Add5(Rol(h.a, 5), F(t, h.b, h.c, h.d), h.e, K(t), w), h.a, Rol(h.b, 30), h.c, h.d)
  }

  function Rounds(h: Chain, block: Block, n: nat): Chain {
    if n == 0 then h else Round(Rounds(h, block, n - 1), n - 1, W(block, n - 1))
  }

  function Sums(h: Chain, r: Chain): Chain { Chain(h.a + r.a, h.b + r.b, h.c + r.c, h.d + r.d, h.e + r.e) }

  /** All eighty rounds (sixteen more than the block has bytes), added to the chaining value. */
  function Compress(h: Chain, block: Block): Chain {
    Sums(h, Rounds(h, block, |block| + 16))
  }

  // ---------- the code's round functions ----------

  /** Little-endian load, then blk0's two rotations and masks. */
  function Little(b0: Byte, b1: Byte, b2: Byte, b3: Byte): Word { Big(b3, b2, b1, b0) }

  function Swap(x: Word): Word { (((x << 24) | (x >> 8)) & 0xFF00FF00) | (((x << 8) | (x >> 24)) & 0x00FF00FF) }

  lemma SwapWords(b0: Word, b1: Word, b2: Word, b3: Word)
    requires b0 < 0x100 && b1 < 0x100 && b2 < 0x100 && b3 < 0x100
    ensures Swap((b3 << 24) | (b2 << 16) | (b1 << 8) | b0) == (b0 << 24) | (b1 << 16) | (b2 << 8) | b3
  {
  }

  lemma ByteWord(b: Byte)
    ensures (b as Word) < 0x100
  {
  }

  lemma SwapBytes(b0: Byte, b1: Byte, b2: Byte, b3: Byte)
    ensures Swap(Little(b0, b1, b2, b3)) == Big(b0, b1, b2, b3)
  {
    ByteWord(b0);
    ByteWord(b1);
    ByteWord(b2);
    ByteWord(b3);
    SwapWords(b0 as Word, b1 as Word, b2 as Word, b3 as Word);
  }

  /** The Boolean functions as the macros write them. */
  function CodeF(t: nat, w: Word, x: Word, y: Word): Word {
    if t < 20 then (w & (x ^ y)) ^ y
    else if t < 40 then w ^ x ^ y
    else if t < 60 then ((w | x) & y) | (w & x)
    else w ^ x ^ y
  }

  lemma ChForm(w: Word, x: Word, y: Word)
    ensures (w & (x ^ y)) ^ y == Ch(w, x, y)
  {
  }

  lemma MajForm(w: Word, x: Word, y: Word)
    ensures ((w | x) & y) | (w & x) == Maj(w, x, y)
  {
  }

  lemma CodeForm(t: nat, w: Word, x: Word, y: Word)
    ensures CodeF(t, w, x, y) == F(t, w, x, y)
  {
    ChForm(w, x, y);
    MajForm(w, x, y);
  }

  // ---------- SHA1Transform ----------

  /** Word k of the block as loaded. */
  function Raw(block: Block, k: nat): Word
    requires k < 16
  {
    Little(block[4 * k], block[4 * k + 1], block[4 * k + 2], block[4 * k + 3])
  }

  /** The circular schedule holds word s. */
  ghost predicate HasWord(l: array<Word>, block: Block, s: nat)
    reads l
    requires l.Length == 16
  {
    l[s % 16] == W(block, s)
  }

  /** Before step t the circular schedule holds the last sixteen words, unused slots the loaded block. */
  ghost predicate Schedule(l: array<Word>, block: Block, t: nat)
    reads l
  {
    l.Length == 16 &&
    (forall s: nat {:trigger HasWord(l, block, s)} :: t <= s + 16 && s < t ==> HasWord(l, block, s)) &&
    (forall k :: t <= k < 16 ==> l[k] == Raw(block, k))
  }

  lemma SlotsDiffer(s: nat, t: nat)
    requires s < t < s + 16
    ensures s % 16 != t % 16
  {
  }

  lemma SlotAgain(s: nat)
    ensures (s + 16) % 16 == s % 16
  {
  }

  lemma SlotsRead(t: nat)
    requires t >= 16
    ensures (t + 13) % 16 == (t - 3) % 16 && (t + 8) % 16 == (t - 8) % 16
    ensures (t + 2) % 16 == (t - 14) % 16 && t % 16 == (t - 16) % 16
  {
    SlotAgain(t - 3);
    SlotAgain(t - 8);
    SlotAgain(t - 14);
    SlotAgain(t - 16);
  }

  function Expand(x: Word, y: Word, z: Word, v: Word): Word { Rol(x ^ y ^ z ^ v, 1) }

  lemma SlotHolds(l: array<Word>, block: Block, t: nat, s: nat)
    requires Schedule(l, block, t) && s < t <= s + 16
    ensures l[s % 16] == W(block, s)
  {
    hide W;
    assert HasWord(l, block, s);
  }

  lemma LaterWord(block: Block, t: nat)
    requires t >= 16
    ensures W(block, t) == Expand(W(block, t - 3), W(block, t - 8), W(block, t - 14), W(block, t - 16))
  {
  }

  lemma Expanded(l: array<Word>, block: Block, t: nat)
    requires Schedule(l, block, t) && t >= 16
    ensures Expand(l[(t + 13) % 16], l[(t + 8) % 16], l[(t + 2) % 16], l[t % 16]) == W(block, t)
  {
    hide W, Raw, Expand, Schedule, HasWord;
    SlotsRead(t);
    SlotHolds(l, block, t, t - 3);
    SlotHolds(l, block, t, t - 8);
    SlotHolds(l, block, t, t - 14);
    SlotHolds(l, block, t, t - 16);
    LaterWord(block, t);
  }

  lemma Loaded(l: array<Word>, block: Block, t: nat)
    requires Schedule(l, block, t) && t < 16
    ensures Swap(l[t]) == W(block, t)
  {
    SwapBytes(block[4 * t], block[4 * t + 1], block[4 * t + 2], block[4 * t + 3]);
  }

  /** blk0 for the first sixteen steps, blk afterwards. */
  method NextWord(l: array<Word>, ghost block: Block, t: nat) returns (w: Word)
    requires Schedule(l, block, t)
    modifies l
    ensures Schedule(l, block, t + 1) && w == W(block, t)
  {
    if t < 16 {
      Loaded(l, block, t);
      w := Swap(l[t]);
    } else {
      Expanded(l, block, t);
      w := Expand(l[(t + 13) % 16], l[(t + 8) % 16], l[(t + 2) % 16], l[t % 16]);
    }
    SetWord(l, block, t, w);
  }

  method SetWord(l: array<Word>, ghost block: Block, t: nat, w: Word)
    requires Schedule(l, block, t) && w == W(block, t)
    modifies l
    ensures Schedule(l, block, t + 1)
  {
    forall s: nat | t < s + 16 && s < t ensures HasWord(l, block, s) && s % 16 != t % 16 { SlotsDiffer(s, t); }
    l[t % 16] := w;
    forall s: nat | t + 1 <= s + 16 && s < t + 1 ensures HasWord(l, block, s) {
      if s < t { assert old(HasWord(l, block, s)); SlotsDiffer(s, t); }
    }
  }

  /** The macro's sum, in its own order. */
  function CodeSum(z: Word, f: Word, w: Word, k: Word, r: Word): Word { z + (f + w + k + r) }

  lemma Sum(z: Word, f: Word, w: Word, k: Word, r: Word)
    ensures CodeSum(z, f, w, k, r) == Add5(r, f, z, k, w)
  {
  }

  lemma RoundForm(t: nat, v: Word, w: Word, x: Word, y: Word, z: Word, word: Word)
    ensures Round(Chain(v, w, x, y, z), t, word)
         == Chain(CodeSum(z, CodeF(t, w, x, y), word, K(t), Rol(v, 5)), v, Rol(w, 30), x, y)
  {
    CodeForm(t, w, x, y);
    Sum(z, F(t, w, x, y), word, K(t), Rol(v, 5));
  }

  /** One R macro: z and w change in place, and the five names move on by one role. */
  method Step(l: array<Word>, ghost block: Block, ghost h: Chain, t: nat, v: Word, w: Word, x: Word, y: Word, z: Word)
    returns (z': Word, w': Word)
    requires Schedule(l, block, t) && Rounds(h, block, t) == Chain(v, w, x, y, z)
    modifies l
    ensures Schedule(l, block, t + 1) && Rounds(h, block, t + 1) == Chain(z', v, w', x, y)
  {
    var word := NextWord(l, block, t);
    RoundForm(t, v, w, x, y, z, word);
    z' := CodeSum(z, CodeF(t, w, x, y), word, K(t), Rol(v, 5));
    w' := Rol(w, 30);
  }

  /** Five macros bring every name back to its role. */
  method Five(l: array<Word>, ghost block: Block, ghost h: Chain, t: nat, from: Chain) returns (to: Chain)
    requires Schedule(l, block, t) && Rounds(h, block, t) == from
    modifies l
    ensures Schedule(l, block, t + 5) && Rounds(h, block, t + 5) == to
  {
    var a, b, c, d, e := from.a, from.b, from.c, from.d, from.e;
    e, b := Step(l, block, h, t, a, b, c, d, e);
    d, a := Step(l, block, h, t + 1, e, a, b, c, d);
    c, e := Step(l, block, h, t + 2, d, e, a, b, c);
    b, d := Step(l, block, h, t + 3, c, d, e, a, b);
    a, c := Step(l, block, h, t + 4, b, c, d, e, a);
    to := Chain(a, b, c, d, e);
  }

  lemma BlockLoaded(l: array<Word>, block: Block)
    requires l.Length == 16 && forall k :: 0 <= k < 16 ==> l[k] == Raw(block, k)
    ensures Schedule(l, block, 0)
  {
  }

  lemma FirstAndLastRound(h: Chain, block: Block)
    ensures Rounds(h, block, 0) == h && Compress(h, block) == Sums(h, Rounds(h, block, 80))
  {
    hide Round, W;
  }

  /** SHA1Transform is the compression function of the standard. */
  method Transform(h: Chain, block: Block) returns (r: Chain)
    ensures r == Compress(h, block)
  {
    hide Raw, Schedule, Rounds, Compress, Sums;
    var l := new Word[16](k requires 0 <= k < 16 => Raw(block, k));
    BlockLoaded(l, block);
    FirstAndLastRound(h, block);
    var v := h;
    var t := 0;
    while t < 80
      invariant t <= 80 && t % 5 == 0 && Schedule(l, block, t)
      invariant Rounds(h, block, t) == v
    {
      v := Five(l, block, h, t, v);
      t := t + 5;
    }
    r := Sums(h, v);
  }
}
