/** What each header byte of MessagePack means, whatever the width of its number: the reading of
    MsgPackDecode against the format's own table. */
module MsgPackMeaning {
  import opened Bytes
  import opened MsgPackFormat
  import opened MsgPackLexer
  import opened MsgPackDecode

  /** `s` is a complete spelling of `x`, whatever follows it. */
  ghost predicate Denotes(s: seq<byte>, x: Obj) {
    forall t: seq<byte> :: Decode(s + t) == Ok(x, |s|)
  }

  lemma DenotedIsRead(s: seq<byte>, t: seq<byte>, x: Obj)
    requires Denotes(s, x)
    ensures Decode(s + t) == Ok(x, |s|)
  {
  }

  // ----- one header byte -----

  /** nil, false and true. */
  lemma AtomMeans()
    ensures Denotes([0xc0], Nil) && Denotes([0xc2], Bool(false)) && Denotes([0xc3], Bool(true))
  {
  }

  /** One byte of its own: 0 to 127, or -32 to -1. */
  lemma FixintMeans(c: byte)
    ensures c < 0x80 ==> Denotes([c], UInt(c))
    ensures c >= 0xe0 ==> Denotes([c], NInt(c - 0x100))
  {
  }

  // ----- numbers -----

  lemma NumberLexed(c: byte, f: seq<byte>)
    requires 0xca <= c <= 0xd8 && |f| == Trail(c)
    ensures Denotes([c] + f, ObjectOf(FixedToken(c, f)))
  {
    hide FixedToken, ObjectOf, Trail;
    forall t: seq<byte> ensures Decode([c] + f + t) == Ok(ObjectOf(FixedToken(c, f)), 1 + |f|) {
      var s := [c] + f + t;
      assert s[1..] == f + t && (f + t)[..|f|] == f;
    }
  }

  lemma UnsignedToken(c: byte, f: seq<byte>)
    requires 0xcc <= c <= 0xcf && |f| == Trail(c)
    ensures ObjectOf(FixedToken(c, f)) == UInt(FromBigEndian(f))
  {
  }

  lemma SignedToken(c: byte, f: seq<byte>)
    requires 0xd0 <= c <= 0xd3 && |f| == Trail(c)
    ensures var u, p: int := FromBigEndian(f), Pow256(|f|);
      ObjectOf(FixedToken(c, f)) == if 2 * u < p then UInt(u) else NInt(u - p)
  {
    FromBigEndianBound(f);
  }

  /** Unsigned numbers of 1, 2, 4 and 8 bytes, however small. */
  lemma UnsignedMeans(c: byte, f: seq<byte>)
    requires (c == 0xcc && |f| == 1) || (c == 0xcd && |f| == 2) || (c == 0xce && |f| == 4) || (c == 0xcf && |f| == 8)
    ensures Denotes([c] + f, UInt(FromBigEndian(f)))
  {
    hide Denotes, ObjectOf, FixedToken, FromBigEndian;
    NumberLexed(c, f);
    UnsignedToken(c, f);
  }

  /** Two's complement numbers of 1, 2, 4 and 8 bytes: those that are not negative are filed with
      the unsigned ones. */
  lemma SignedMeans(c: byte, f: seq<byte>)
    requires (c == 0xd0 && |f| == 1) || (c == 0xd1 && |f| == 2) || (c == 0xd2 && |f| == 4) || (c == 0xd3 && |f| == 8)
    ensures var u, p: int := FromBigEndian(f), Pow256(|f|);
      Denotes([c] + f, if 2 * u < p then UInt(u) else NInt(u - p))
  {
    hide Denotes, ObjectOf, FixedToken, FromBigEndian, Pow256;
    NumberLexed(c, f);
    SignedToken(c, f);
  }

  /** Floats of 4 and 8 bytes, as bit patterns. */
  lemma FloatMeans(c: byte, f: seq<byte>)
    requires (c == 0xca && |f| == 4) || (c == 0xcb && |f| == 8)
    ensures Denotes([c] + f, if c == 0xca then F32(FromBigEndian(f)) else F64(FromBigEndian(f)))
  {
    hide Denotes, FromBigEndian;
    NumberLexed(c, f);
  }

  // ----- strings, binaries and extensions -----

  /** The bytes of `s` behind a length field. */
  lemma BodyMeans(c: byte, f: seq<byte>, s: seq<byte>)
    requires (0xc4 <= c <= 0xc9 || 0xd9 <= c <= 0xdb) && |f| == Trail(c)
    requires FromBigEndian(f) + (if 0xc7 <= c <= 0xc9 then 1 else 0) == |s|
    ensures Denotes([c] + f + s, if c <= 0xc6 then Bin(s) else if c <= 0xc9 then Ext(s) else Str(s))
  {
    FromBigEndianRoundTrip(f);
    FromBigEndianBound(f);
    hide Next, BigEndian, FromBigEndian, Trail;
    forall t: seq<byte>
      ensures Decode([c] + f + s + t) == Ok(if c <= 0xc6 then Bin(s) else if c <= 0xc9 then Ext(s) else Str(s), 1 + |f| + |s|)
    {
      LexLength(c, FromBigEndian(f), |f|, s, t);
    }
  }

  lemma ShortStr(c: byte, s: seq<byte>)
    requires |s| < 32 && c == 0xa0 + |s|
    ensures Denotes([c] + s, Str(s))
  {
    forall t: seq<byte> ensures Decode([c] + s + t) == Ok(Str(s), 1 + |s|) {
      assert ([c] + s + t)[1..] == s + t && (s + t)[..|s|] == s;
    }
  }

  /** A string, with its length in the header byte or in 1, 2 or 4 bytes behind it. */
  lemma StrMeans(c: byte, f: seq<byte>, s: seq<byte>)
    requires || (f == [] && |s| < 32 && c == 0xa0 + |s|)
             || (FromBigEndian(f) == |s|
                 && ((c == 0xd9 && |f| == 1) || (c == 0xda && |f| == 2) || (c == 0xdb && |f| == 4)))
    ensures Denotes([c] + f + s, Str(s))
  {
    hide FromBigEndian, Denotes;
    if f == [] {
      ShortStr(c, s);
      assert [c] + f + s == [c] + s;
    } else {
      BodyMeans(c, f, s);
    }
  }

  /** A binary, with its length in 1, 2 or 4 bytes. */
  lemma BinMeans(c: byte, f: seq<byte>, s: seq<byte>)
    requires FromBigEndian(f) == |s|
    requires (c == 0xc4 && |f| == 1) || (c == 0xc5 && |f| == 2) || (c == 0xc6 && |f| == 4)
    ensures Denotes([c] + f + s, Bin(s))
  {
    hide FromBigEndian, Denotes;
    BodyMeans(c, f, s);
  }

  lemma FixExtToken(c: byte, s: seq<byte>)
    requires 0xd4 <= c <= 0xd8 && |s| == Trail(c)
    ensures ObjectOf(FixedToken(c, s)) == Ext(s)
  {
  }

  /** An extension: the length of its payload, its type byte, its payload. */
  lemma ExtMeans(c: byte, f: seq<byte>, kind: byte, s: seq<byte>)
    requires || (f == [] && ((c == 0xd4 && |s| == 1) || (c == 0xd5 && |s| == 2) || (c == 0xd6 && |s| == 4)
                             || (c == 0xd7 && |s| == 8) || (c == 0xd8 && |s| == 16)))
             || (FromBigEndian(f) == |s|
                 && ((c == 0xc7 && |f| == 1) || (c == 0xc8 && |f| == 2) || (c == 0xc9 && |f| == 4)))
    ensures Denotes([c] + f + ([kind] + s), Ext([kind] + s))
  {
    hide FromBigEndian, Denotes, FixedToken, ObjectOf;
    if f == [] {
      NumberLexed(c, [kind] + s);
      FixExtToken(c, [kind] + s);
      assert [c] + f + ([kind] + s) == [c] + ([kind] + s);
    } else {
      BodyMeans(c, f, [kind] + s);
    }
  }

  // ----- arrays and maps -----

  function Concat(ss: seq<seq<byte>>): seq<byte> {
    if ss == [] then [] else ss[0] + Concat(ss[1..])
  }

  lemma {:induction false} ItemsMean(ss: seq<seq<byte>>, xs: seq<Obj>, t: seq<byte>)
    requires |ss| == |xs| && forall i | 0 <= i < |xs| :: Denotes(ss[i], xs[i])
    ensures DecodeItems(|xs|, Concat(ss) + t) == Ok(xs, |Concat(ss)|)
    decreases |xs|
  {
    hide Decode, DecodeItems;
    if xs == [] {
      NoItems(Concat(ss) + t);
    } else {
      var rest := Concat(ss[1..]) + t;
      assert Concat(ss) + t == ss[0] + rest;
      assert Denotes(ss[0], xs[0]);
      ItemsMean(ss[1..], xs[1..], t);
      ItemThenItems(ss[0], rest, |xs|);
      assert xs == [xs[0]] + xs[1..];
    }
  }

  /** The header byte `c`, with the number behind it if any, announces `n` items or pairs. */
  predicate GroupHeader(c: byte, f: seq<byte>, keyed: bool, n: nat) {
    || (f == [] && n < 16 && c == (if keyed then 0x80 else 0x90) + n)
    || (FromBigEndian(f) == n
        && ((c == (if keyed then 0xde else 0xdc) && |f| == 2) || (c == (if keyed then 0xdf else 0xdd) && |f| == 4)))
  }

  lemma GroupLexed(c: byte, f: seq<byte>, keyed: bool, n: nat, t: seq<byte>)
    requires GroupHeader(c, f, keyed, n)
    ensures Next(Header, [c] + f + t) == Tok(Open(keyed, n), 1 + |f|)
  {
    hide FromBigEndian;
    assert ([c] + f + t)[1..] == f + t && (f + t)[..|f|] == f;
  }

  lemma GroupDecoded(
    c: byte, f: seq<byte>, keyed: bool, n: nat, body: seq<byte>, xs: seq<Obj>, t: seq<byte>)
    requires GroupHeader(c, f, keyed, n) && DecodeItems(Cells(keyed, n), body + t) == Ok(xs, |body|)
    ensures Decode([c] + f + body + t) == Ok(Group(keyed, xs), 1 + |f| + |body|)
  {
    hide Next, DecodeItems, GroupHeader;
    GroupLexed(c, f, keyed, n, body + t);
    var s := [c] + f + body + t;
    assert s == [c] + f + (body + t) && s[1 + |f|..] == body + t;
  }

  /** An array or a map, with the number of its items or pairs in the header byte or in 2 or 4
      bytes behind it, and then its items, or its keys and values in turn. */
  lemma GroupMeans(c: byte, f: seq<byte>, keyed: bool, ss: seq<seq<byte>>, xs: seq<Obj>)
    requires |ss| == |xs| && forall i | 0 <= i < |xs| :: Denotes(ss[i], xs[i])
    requires keyed ==> |xs| % 2 == 0
    requires GroupHeader(c, f, keyed, if keyed then |xs| / 2 else |xs|)
    ensures Denotes([c] + f + Concat(ss), Group(keyed, xs))
  {
    var n, body := if keyed then |xs| / 2 else |xs|, Concat(ss);
    assert Cells(keyed, n) == |xs|;
    forall t: seq<byte> ensures Decode([c] + f + body + t) == Ok(Group(keyed, xs), 1 + |f| + |body|) {
      hide *;
      ItemsMean(ss, xs, t);
      GroupDecoded(c, f, keyed, n, body, xs, t);
    }
  }

  // ----- which header is written -----

  /** Numbers that are not negative go out in the unsigned family, negative ones in the signed
      family, and everything else behind a header of its own kind. */
  lemma HeaderWritten(x: Obj)
    requires Valid(x)
    ensures Encode(x) != []
    ensures var c := Encode(x)[0];
      match x
      case Nil => c == 0xc0
      case Bool(b) => c == if b then 0xc3 else 0xc2
      case UInt(_) => c < 0x80 || 0xcc <= c <= 0xcf
      case NInt(_) => c >= 0xe0 || 0xd0 <= c <= 0xd3
      case F32(_) => c == 0xca
      case F64(_) => c == 0xcb
      case Str(_) => 0xa0 <= c <= 0xbf || 0xd9 <= c <= 0xdb
      case Bin(_) => 0xc4 <= c <= 0xc6
      case Ext(_) => 0xc7 <= c <= 0xc9 || 0xd4 <= c <= 0xd8
      case Group(keyed, _) => if keyed then 0x80 <= c <= 0x8f || 0xde <= c <= 0xdf else 0x90 <= c <= 0x9f || 0xdc <= c <= 0xdd
  {
  }
}
