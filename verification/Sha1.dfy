/** The SHA-1 hasher behind name-based UUIDs: fed byte by byte, in pieces of any size, it computes
    the digest that sections 4 to 6.1 of RFC 3174 define for the whole message. */
module Sha1 {
  import opened Bytes

  const BLOCK_BYTES: nat := 64

  /** Five words. */
  datatype Digest = Digest(a: bv32, b: bv32, c: bv32, d: bv32, e: bv32)

  const INITIAL: Digest := Digest(0x67452301, 0xEFCDAB89, 0x98BADCFE, 0x10325476, 0xC3D2E1F0)

  // ----- RFC 3174 -----

  /** S^n of section 3, for the three shifts in use. */
  function Rotated(x: bv32, n: nat): bv32
    requires n == 1 || n == 5 || n == 30
  {
    if n == 1 then (x << 1) | (x >> 31) else if n == 5 then (x << 5) | (x >> 27) else (x << 30) | (x >> 2)
  }

  /** f(t; B, C, D) of section 5 */
  function F(t: nat, b: bv32, c: bv32, d: bv32): bv32 {
    if t < 20 then (b & c) | (!b & d)
    else if t < 40 then b ^ c ^ d
    else if t < 60 then (b & c) | (b & d) | (c & d)
    else b ^ c ^ d
  }

  /** K(t) of section 5 */
  function K(t: nat): bv32 {
    if t < 20 then 0x5A827999 else if t < 40 then 0x6ED9EBA1 else if t < 60 then 0x8F1BBCDC else 0xCA62C1D6
  }

  /** One bit of a word: `m` is a power of two. */
  predicate Bit(x: bv32, m: bv32) { x & m != 0 }

  predicate OneBit(m: bv32) { m != 0 && m & (m - 1) == 0 }

  /** In the first round each bit of B chooses between those of C and D, in the third the majority
      of the three decides, and in the others their parity. */
  lemma FBitByBit(t: nat, b: bv32, c: bv32, d: bv32, m: bv32)
    requires t < 80 && OneBit(m)
    ensures var x, y, z := Bit(b, m), Bit(c, m), Bit(d, m);
      Bit(F(t, b, c, d), m) <==>
        if t < 20 then (if x then y else z)
        else if 40 <= t < 60 then (if x == y then x else z)
        else ((x != y) != z)
  {
    hide Bit, OneBit;
    if t < 20 {
      Choice(b, c, d, m);
    } else if 40 <= t < 60 {
      Majority(b, c, d, m);
    } else {
      Parity(b, c, d, m);
    }
  }

  lemma Choice(b: bv32, c: bv32, d: bv32, m: bv32)
    requires OneBit(m)
    ensures Bit((b & c) | (!b & d), m) <==> if Bit(b, m) then Bit(c, m) else Bit(d, m)
  {
  }

  lemma Majority(b: bv32, c: bv32, d: bv32, m: bv32)
    requires OneBit(m)
    ensures Bit((b & c) | (b & d) | (c & d), m) <==> if Bit(b, m) == Bit(c, m) then Bit(b, m) else Bit(d, m)
  {
  }

  lemma Parity(b: bv32, c: bv32, d: bv32, m: bv32)
    requires OneBit(m)
    ensures Bit(b ^ c ^ d, m) <==> ((Bit(b, m) != Bit(c, m)) != Bit(d, m))
  {
  }

  /** The constants of the rounds are the square roots of 2, 3, 5 and 10, times 2^30 and rounded
      down. */
  lemma ConstantsAreRoots(t: nat)
    requires t < 80
    ensures var k, n := K(t) as nat, if t < 20 then 2 else if t < 40 then 3 else if t < 60 then 5 else 10;
      k * k <= n * 0x1000_0000_0000_0000 < (k + 1) * (k + 1)
  {
  }

  /** The first four words are the bytes 01, 23, 45 to EF and back down to 10, the first one least
      significant; the last is C3 D2 E1 F0. */
  lemma InitialBytes()
    ensures INITIAL.a == 0x01 | (0x23 << 8) | (0x45 << 16) | (0x67 << 24)
    ensures INITIAL.b == 0x89 | (0xAB << 8) | (0xCD << 16) | (0xEF << 24)
    ensures INITIAL.c == 0xFE | (0xDC << 8) | (0xBA << 16) | (0x98 << 24)
    ensures INITIAL.d == 0x76 | (0x54 << 8) | (0x32 << 16) | (0x10 << 24)
    ensures INITIAL.e == 0xF0 | (0xE1 << 8) | (0xD2 << 16) | (0xC3 << 24)
  {
  }

  /** The shifts are circular. */
  lemma RotatedIsCircular(x: bv32)
    ensures Rotated(x, 1) == x.RotateLeft(1) && Rotated(x, 5) == x.RotateLeft(5) && Rotated(x, 30) == x.RotateLeft(30)
  {
  }

  function ByteWord(x: byte): bv32 { x as bv32 }

  /** The i-th word of a block, most significant byte first. */
  function Word(block: seq<byte>, i: nat): bv32
    requires |block| == BLOCK_BYTES && i < 16
  {
    Joined(ByteWord(block[4 * i]), ByteWord(block[4 * i + 1]), ByteWord(block[4 * i + 2]), ByteWord(block[4 * i + 3]))
  }

  function Joined(a: bv32, b: bv32, c: bv32, d: bv32): bv32 { (a << 24) | (b << 16) | (c << 8) | d }

  /** The bytes of a word are those of the block, most significant first. */
  lemma WordBytes(block: seq<byte>, i: nat)
    requires |block| == BLOCK_BYTES && i < 16
    ensures Spread(Word(block, i), ByteWord(block[4 * i]), ByteWord(block[4 * i + 1]), ByteWord(block[4 * i + 2]),
                   ByteWord(block[4 * i + 3]))
  {
    hide ByteWord, Spread, Joined;
    var a, b, c, d := block[4 * i], block[4 * i + 1], block[4 * i + 2], block[4 * i + 3];
    SmallWord(a);
    SmallWord(b);
    SmallWord(c);
    SmallWord(d);
    JoinedSpreads(ByteWord(a), ByteWord(b), ByteWord(c), ByteWord(d));
  }

  predicate Spread(w: bv32, a: bv32, b: bv32, c: bv32, d: bv32) {
    w >> 24 == a && (w >> 16) & 0xFF == b && (w >> 8) & 0xFF == c && w & 0xFF == d
  }

  lemma SmallWord(x: byte)
    ensures ByteWord(x) & 0xFF == ByteWord(x)
  {
  }

  lemma JoinedSpreads(a: bv32, b: bv32, c: bv32, d: bv32)
    requires a & 0xFF == a && b & 0xFF == b && c & 0xFF == c && d & 0xFF == d
    ensures Spread(Joined(a, b, c, d), a, b, c, d)
  {
  }

  /** W(t) of section 6.1 */
  function W(block: seq<byte>, t: nat): bv32
    requires |block| == BLOCK_BYTES && t < 80
  {
    if t < 16 then Word(block, t)
    else Rotated(W(block, t - 3) ^ W(block, t - 8) ^ W(block, t - 14) ^ W(block, t - 16), 1)
  }

  /** Every later word of the schedule, rotated back, is the sum modulo two of the four words 3, 8, 14
      and 16 before it. */
  lemma ScheduleUnwinds(block: seq<byte>, t: nat)
    requires |block| == BLOCK_BYTES && 16 <= t < 80
    ensures W(block, t).RotateRight(1) == W(block, t - 3) ^ W(block, t - 8) ^ W(block, t - 14) ^ W(block, t - 16)
  {
    hide Word;
    BackAgain(W(block, t - 3) ^ W(block, t - 8) ^ W(block, t - 14) ^ W(block, t - 16));
  }

  lemma BackAgain(x: bv32)
    ensures Rotated(x, 1).RotateRight(1) == x
  {
  }

  /** One pass of step d. */
  function Step(s: Digest, t: nat, w: bv32): Digest {
    Digest(Sum5(Rotated(s.a, 5), F(t, s.b, s.c, s.d), s.e, w, K(t)), s.a, Rotated(s.b, 30), s.c, s.d)
  }

  function Sum5(a: bv32, b: bv32, c: bv32, d: bv32, e: bv32): bv32 { a + b + c + d + e }

  function Added(h: Digest, s: Digest): Digest {
    Digest(h.a + s.a, h.b + s.b, h.c + s.c, h.d + s.d, h.e + s.e)
  }

  function Steps(h: Digest, block: seq<byte>, t: nat): Digest
    requires |block| == BLOCK_BYTES && t <= 80
  {
    if t == 0 then h else Step(Steps(h, block, t - 1), t - 1, W(block, t - 1))
  }

  /** Step e: the words of the block added to the digest. */
  function Compressed(h: Digest, block: seq<byte>): Digest
    requires |block| == BLOCK_BYTES
  {
    Added(h, Steps(h, block, 80))
  }

  /** All full blocks of s, in order. */
  function Hashed(h: Digest, s: seq<byte>): Digest
    decreases |s|
  {
    if |s| < BLOCK_BYTES then h else Hashed(Compressed(h, s[..BLOCK_BYTES]), s[BLOCK_BYTES..])
  }

  /** Number of zero bytes between the 1 bit and the length. */
  function ZeroBytes(n: nat): nat { (119 - n % BLOCK_BYTES) % BLOCK_BYTES }

  /** Section 4: a 1 bit, zeros, and the message's length in bits as two words. */
  function Padded(m: seq<byte>): seq<byte> {
    m + [0x80] + Zeros(ZeroBytes(|m|)) + BigEndian(8 * |m|, 8)
  }

  function Sha1(m: seq<byte>): Digest { Hashed(INITIAL, Padded(m)) }

  /** Padding always ends on a block boundary, with less than a block of zeros. */
  lemma PaddedIsBlocks(m: seq<byte>)
    ensures |Padded(m)| % BLOCK_BYTES == 0 && |Padded(m)| < |m| + 9 + BLOCK_BYTES
  {
    var n, r := |m|, |m| % BLOCK_BYTES;
    assert n == BLOCK_BYTES * (n / BLOCK_BYTES) + r;
    if r <= 55 {
      assert ZeroBytes(n) == 55 - r;
      assert n + 1 + (55 - r) + 8 == BLOCK_BYTES * (n / BLOCK_BYTES + 1);
    } else {
      assert ZeroBytes(n) == 119 - r;
      assert n + 1 + (119 - r) + 8 == BLOCK_BYTES * (n / BLOCK_BYTES + 2);
    }
  }

  lemma {:induction false} HashedJoins(h: Digest, s: seq<byte>, t: seq<byte>)
    requires |s| % BLOCK_BYTES == 0
    ensures Hashed(h, s + t) == Hashed(Hashed(h, s), t)
    decreases |s|
  {
    hide Compressed;
    if s == [] {
      assert s + t == t;
    } else {
      assert (s + t)[..BLOCK_BYTES] == s[..BLOCK_BYTES] && (s + t)[BLOCK_BYTES..] == s[BLOCK_BYTES..] + t;
      HashedJoins(Compressed(h, s[..BLOCK_BYTES]), s[BLOCK_BYTES..], t);
    }
  }

  // ----- the code's arithmetic -----

  /** left_rotate, which joins the two parts by exclusive or. */
  function LeftRotate(x: bv32, n: nat): bv32
    requires n == 1 || n == 5 || n == 30
  {
    if n == 1 then (x << 1) ^ (x >> 31) else if n == 5 then (x << 5) ^ (x >> 27) else (x << 30) ^ (x >> 2)
  }

  lemma LeftRotateIsRotated(x: bv32, n: nat)
    requires n == 1 || n == 5 || n == 30
    ensures LeftRotate(x, n) == Rotated(x, n)
  {
  }

  lemma SumOrder(a: bv32, f: bv32, e: bv32, k: bv32, w: bv32)
    ensures Sum5(a, f, e, k, w) == Sum5(a, f, e, w, k)
  {
  }

  lemma StepAsCoded(s: Digest, t: nat, w: bv32)
    ensures Digest(Sum5(LeftRotate(s.a, 5), F(t, s.b, s.c, s.d), s.e, K(t), w), s.a, LeftRotate(s.b, 30), s.c, s.d) == Step(s, t, w)
  {
    hide F, K, LeftRotate, Rotated, Sum5;
    LeftRotateIsRotated(s.a, 5);
    LeftRotateIsRotated(s.b, 30);
    SumOrder(LeftRotate(s.a, 5), F(t, s.b, s.c, s.d), s.e, K(t), w);
  }

  lemma NoSteps(h: Digest, block: seq<byte>)
    requires |block| == BLOCK_BYTES
    ensures Steps(h, block, 0) == h
  {
  }

  lemma NextStep(h: Digest, block: seq<byte>, t: nat)
    requires |block| == BLOCK_BYTES && t < 80
    ensures Steps(h, block, t + 1) == Step(Steps(h, block, t), t, W(block, t))
  {
  }

  lemma FirstWords(block: seq<byte>, t: nat)
    requires |block| == BLOCK_BYTES && t < 16
    ensures W(block, t) == Word(block, t)
  {
  }

  lemma LaterWords(block: seq<byte>, t: nat)
    requires |block| == BLOCK_BYTES && 16 <= t < 80
    ensures W(block, t) == Rotated(W(block, t - 3) ^ W(block, t - 8) ^ W(block, t - 14) ^ W(block, t - 16), 1)
  {
  }

  /** The message schedule of process_block. */
  method Schedule(block: seq<byte>) returns (w: array<bv32>)
    requires |block| == BLOCK_BYTES
    ensures fresh(w) && w.Length == 80 && forall t | 0 <= t < 80 :: w[t] == W(block, t)
  {
    hide Word, Rotated, LeftRotate, W;
    w := new bv32[80];
    for i := 0 to 16
      invariant forall t | 0 <= t < i :: w[t] == W(block, t)
    {
      FirstWords(block, i);
      w[i] := Word(block, i);
    }
    for i := 16 to 80
      invariant forall t | 0 <= t < i :: w[t] == W(block, t)
    {
      var x := w[i - 3] ^ w[i - 8] ^ w[i - 14] ^ w[i - 16];
      LeftRotateIsRotated(x, 1);
      LaterWords(block, i);
      w[i] := LeftRotate(x, 1);
    }
  }

  // ----- the hasher -----

  class Hasher {
    var digest: Digest
    var block: array<byte>
    var blockByteIndex: nat
    var byteCount: nat
    /** Every byte processed since the last reset. */
    ghost var fed: seq<byte>

    /** The full blocks of what was fed are in the digest, the rest is in the block. */
    ghost predicate Holds()
      reads this, block
    {
      && block.Length == BLOCK_BYTES && blockByteIndex <= BLOCK_BYTES
      && byteCount == |fed| && blockByteIndex <= |fed| && (|fed| - blockByteIndex) % BLOCK_BYTES == 0
      && block[..blockByteIndex] == fed[|fed| - blockByteIndex..]
      && digest == Hashed(INITIAL, fed[..|fed| - blockByteIndex])
    }

    ghost predicate Valid()
      reads this, block
    {
      Holds() && blockByteIndex < BLOCK_BYTES
    }

    lemma IndexIs()
      requires Valid()
      ensures blockByteIndex == |fed| % BLOCK_BYTES
    {
    }

    constructor ()
      ensures Valid() && fresh(block) && fed == []
    {
      digest := INITIAL;
      block := new byte[BLOCK_BYTES];
      blockByteIndex := 0;
      byteCount := 0;
      fed := [];
    }

    /** The first half of process_byte. */
    method Put(octet: byte)
      requires Valid()
      modifies this`blockByteIndex, this`byteCount, this`fed, block
      ensures Holds() && fed == old(fed) + [octet] && blockByteIndex == old(blockByteIndex) + 1
    {
      hide Hashed;
      ghost var whole, part := fed[..|fed| - blockByteIndex], block[..blockByteIndex];
      assert fed == whole + part;
      block[blockByteIndex] := octet;
      blockByteIndex := blockByteIndex + 1;
      byteCount := byteCount + 1;
      fed := fed + [octet];
      assert block[..blockByteIndex] == part + [octet];
      assert fed == whole + (part + [octet]);
    }

    /** The second half, when the block is full. */
    method Flush()
      requires Holds() && blockByteIndex == BLOCK_BYTES
      modifies this`digest, this`blockByteIndex
      ensures Valid() && blockByteIndex == 0
    {
      hide Hashed, Compressed;
      ghost var whole := fed[..|fed| - BLOCK_BYTES];
      assert block[..BLOCK_BYTES] == block[..] && fed == whole + block[..];
      blockByteIndex := 0;
      ProcessBlock();
      OneMore(whole, block[..]);
      assert fed[..|fed|] == fed;
    }

    /** process_byte */
    method ProcessByte(octet: byte)
      requires Valid()
      modifies this`digest, this`blockByteIndex, this`byteCount, this`fed, block
      ensures Valid() && fed == old(fed) + [octet]
      ensures blockByteIndex == (old(blockByteIndex) + 1) % BLOCK_BYTES
    {
      hide Hashed;
      Put(octet);
      if blockByteIndex == BLOCK_BYTES { Flush(); }
    }

    /** process_block: the loops over the message schedule and the eighty steps. */
    method ProcessBlock()
      requires block.Length == BLOCK_BYTES
      modifies this`digest
      ensures digest == Compressed(old(digest), block[..])
    {
      hide Word, Rotated, LeftRotate, F, K, W, Step, Steps, Sum5, Added;
      var w := Schedule(block[..]);
      var s := digest;
      NoSteps(digest, block[..]);
      for i := 0 to 80
        invariant s == Steps(digest, block[..], i)
        invariant digest == old(digest) && w.Length == 80
        invariant forall t | 0 <= t < 80 :: w[t] == W(block[..], t)
      {
        var temp := Sum5(LeftRotate(s.a, 5), F(i, s.b, s.c, s.d), s.e, K(i), w[i]);
        NextStep(digest, block[..], i);
        StepAsCoded(s, i, w[i]);
        s := Digest(temp, s.a, LeftRotate(s.b, 30), s.c, s.d);
      }
      digest := Added(digest, s);
    }

    /** process_bytes */
    method ProcessBytes(data: seq<byte>)
      requires Valid()
      modifies this`digest, this`blockByteIndex, this`byteCount, this`fed, block
      ensures Valid() && fed == old(fed) + data
      ensures blockByteIndex == (old(blockByteIndex) + |data|) % BLOCK_BYTES
    {
      hide Hashed, Holds;
      for i := 0 to |data|
        invariant Valid() && fed == old(fed) + data[..i]
        invariant blockByteIndex == (old(blockByteIndex) + i) % BLOCK_BYTES
      {
        ProcessByte(data[i]);
        assert data[..i + 1] == data[..i] + [data[i]];
        IndexAfter(old(blockByteIndex) + i, 1);
      }
      assert data[..|data|] == data;
    }

    /** Zero bytes until `until` bytes of the block are filled; until 64 means the next block. */
    method FillZeros(until: nat)
      requires Valid() && until <= BLOCK_BYTES
      requires blockByteIndex <= until
      modifies this`digest, this`blockByteIndex, this`byteCount, this`fed, block
      ensures Valid() && blockByteIndex == until % BLOCK_BYTES
      ensures fed == old(fed)
        + Zeros(if old(blockByteIndex) == 0 && until == BLOCK_BYTES then 0 else until - old(blockByteIndex))
    {
      hide Hashed, Holds;
      ghost var n := 0;
      while blockByteIndex != until % BLOCK_BYTES
        invariant Valid() && fed == old(fed) + Zeros(n)
        invariant blockByteIndex == (old(blockByteIndex) + n) % BLOCK_BYTES
        invariant old(blockByteIndex) + n <= until && (old(blockByteIndex) == 0 && until == BLOCK_BYTES ==> n == 0)
        decreases until - (old(blockByteIndex) + n)
      {
        ProcessByte(0);
        n := n + 1;
      }
    }

    /** The 1 bit and the zeros of get_digest. */
    method PadZeros()
      requires Valid()
      modifies this`digest, this`blockByteIndex, this`byteCount, this`fed, block
      ensures Valid() && blockByteIndex == 56
      ensures fed == old(fed) + [0x80] + Zeros(ZeroBytes(|old(fed)|))
    {
      hide Hashed, Holds;
      IndexIs();
      ProcessByte(0x80);
      if blockByteIndex > 56 {
        FillZeros(BLOCK_BYTES);
        ghost var n := |fed| - |old(fed)| - 1;
        FillZeros(56);
        assert Zeros(n) + Zeros(56) == Zeros(n + 56);
      } else {
        FillZeros(56);
      }
    }

    /** The length field of get_digest. */
    method WriteLength(bitCount: nat)
      requires Valid() && blockByteIndex == 56
      modifies this`digest, this`blockByteIndex, this`byteCount, this`fed, block
      ensures Valid() && blockByteIndex == 0
      ensures fed == old(fed) + ([0, 0, 0, 0] + BigEndian(bitCount % 0x1_0000_0000, 4))
    {
      hide Hashed, BigEndian;
      ProcessBytes([0, 0, 0, 0]);
      ProcessBytes(BigEndian(bitCount % 0x1_0000_0000, 4));
    }

    /** get_digest */
    method GetDigest() returns (d: Digest)
      requires Valid()
      modifies this`digest, this`blockByteIndex, this`byteCount, this`fed, block
      ensures Valid() && blockByteIndex == 0 && d == Hashed(INITIAL, fed)
      ensures fed == old(fed) + [0x80] + Zeros(ZeroBytes(|old(fed)|))
        + ([0, 0, 0, 0] + BigEndian(8 * |old(fed)| % 0x1_0000_0000, 4))
      ensures |old(fed)| < 0x2000_0000 ==> d == Sha1(old(fed))
    {
      hide Hashed, ZeroBytes, BigEndian, Zeros;
      var bitCount := byteCount * 8;
      ghost var m := fed;
      PadZeros();
      WriteLength(bitCount);
      d := digest;
      assert fed[..|fed|] == fed;
      if |m| < 0x2000_0000 { LengthField(|m|); }
    }
  }

  function Zeros(n: nat): seq<byte> { seq(n, _ => 0) }

  lemma OneMore(s: seq<byte>, block: seq<byte>)
    requires |s| % BLOCK_BYTES == 0 && |block| == BLOCK_BYTES
    ensures Hashed(INITIAL, s + block) == Compressed(Hashed(INITIAL, s), block)
  {
    hide Compressed;
    HashedJoins(INITIAL, s, block);
    assert block[..BLOCK_BYTES] == block && block[BLOCK_BYTES..] == [];
  }

  lemma IndexAfter(n: nat, k: nat)
    ensures (n + k) % BLOCK_BYTES == (n % BLOCK_BYTES + k) % BLOCK_BYTES
  {
  }

  function Divided(n: nat, d: nat): nat
    requires d > 0
  {
    n / d
  }

  function High(n: nat, j: nat): nat { Divided(n, Pow256(j)) }

  function Low(n: nat, j: nat): nat { n % Pow256(j) }

  lemma {:induction false} BigEndianSplit(n: nat, k: nat, j: nat)
    ensures BigEndian(n, k + j) == BigEndian(High(n, j), k) + BigEndian(Low(n, j), j)
    decreases j
  {
    hide BigEndian, High, Low;
    if j > 0 {
      BigEndianSplit(n / 256, k, j - 1);
      SplitStep(n, j);
      BigEndianStep(n, k + j - 1);
      BigEndianStep(Low(n, j), j - 1);
    } else {
      SplitNone(n);
      BigEndianStep(Low(n, 0), 0);
    }
  }

  lemma SplitNone(n: nat)
    ensures High(n, 0) == n
  {
  }

  lemma SplitStep(n: nat, j: nat)
    requires j > 0
    ensures High(n / 256, j - 1) == High(n, j) && Low(n / 256, j - 1) == Low(n, j) / 256 && Low(n, j) % 256 == n % 256
  {
    PowStep(j - 1);
    DivideTwice(n, Pow256(j - 1));
  }

  lemma BigEndianStep(n: nat, k: nat)
    ensures BigEndian(n, k + 1) == BigEndian(n / 256, k) + [n % 256] && BigEndian(n, 0) == []
  {
  }

  lemma PowStep(k: nat)
    ensures Pow256(k + 1) == 256 * Pow256(k) && Pow256(0) == 1
  {
  }

  lemma DivideTwice(n: nat, p: nat)
    requires p > 0
    ensures n / 256 / p == n / (256 * p) && n % (256 * p) / 256 == n / 256 % p && n % (256 * p) % 256 == n % 256
  {
    var q, r := n / 256 / p, n / 256 % p;
    assert n / 256 == p * q + r && n == 256 * (n / 256) + n % 256;
    var low := 256 * r + n % 256;
    assert n == (256 * p) * q + low by { Regroup(p, q, r, n % 256); }
    assert 0 <= low < 256 * p;
    Quotient(n, 256 * p, q, low);
  }

  lemma Regroup(p: nat, q: nat, r: nat, l: nat)
    ensures 256 * (p * q + r) + l == (256 * p) * q + (256 * r + l)
  {
  }

  lemma Quotient(n: nat, d: nat, q: nat, r: nat)
    requires d > 0 && n == d * q + r && r < d
    ensures n / d == q && n % d == r
  {
    var q', r' := n / d, n % d;
    assert d * q' + r' == d * q + r;
    if q' < q { Larger(d, q', q); } else if q < q' { Larger(d, q, q'); }
  }

  lemma Larger(d: nat, a: nat, b: nat)
    requires a < b
    ensures d * a + d <= d * b
  {
    var m := b - a - 1;
    assert d * b == d * (a + 1 + m) == d * a + d + d * m;
  }

  /** For messages the standard allows, the length field the code writes is the standard's exactly
      when the length in bits fits 32 bits. */
  lemma LengthField(n: nat)
    requires 8 * n < 0x1_0000_0000_0000_0000
    ensures [0, 0, 0, 0] + BigEndian(8 * n % 0x1_0000_0000, 4) == BigEndian(8 * n, 8) <==> n < 0x2000_0000
  {
    hide BigEndian;
    Pow256Values();
    var high, low := 8 * n / 0x1_0000_0000, 8 * n % 0x1_0000_0000;
    BigEndianSplit(8 * n, 4, 4);
    BigEndianRoundTrip(high, 4);
    ZeroWord();
    assert ([0, 0, 0, 0] + BigEndian(low, 4))[..4] == [0, 0, 0, 0];
    assert (BigEndian(high, 4) + BigEndian(low, 4))[..4] == BigEndian(high, 4);
  }

  lemma ZeroWord()
    ensures BigEndian(0, 4) == [0, 0, 0, 0] && FromBigEndian([0, 0, 0, 0]) == 0
  {
    hide BigEndian;
    BigEndianStep(0, 0);
    BigEndianStep(0, 1);
    BigEndianStep(0, 2);
    BigEndianStep(0, 3);
    assert BigEndian(0, 1) == [0] && BigEndian(0, 2) == [0, 0];
    Pow256Values();
    BigEndianRoundTrip(0, 4);
  }
}
