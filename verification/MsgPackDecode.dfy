/** What a byte string denotes, as a recursive reading of the format; that it undoes Encode, and
    that Encode is never longer than any other encoding of the same object. */
module MsgPackDecode {
  import opened Bytes
  import opened MsgPackFormat
  import opened MsgPackLexer

  /** The object a visitor call stands for: visit_negative_integer files numbers by their sign. */
  function ObjectOf(v: Value): Obj {
    match v
    case VisitNil => Nil
    case VisitBoolean(b) => Bool(b)
    case VisitPositive(u) => UInt(u)
    case VisitNegative(i) => if i >= 0 then UInt(i) else NInt(i)
    case VisitFloat32(bits) => F32(bits)
    case VisitFloat64(bits) => F64(bits)
    case VisitStr(s) => Str(s)
    case VisitBin(s) => Bin(s)
    case VisitExt(s) => Ext(s)
  }

  /** A value and the bytes it took, the position of a refused byte, or where input ran out. */
  datatype Decoded<+T> = Ok(value: T, k: nat) | Refused(k: nat) | Short(lex: Lex, k: nat)

  function Later<T>(r: Decoded<T>, d: nat): Decoded<T> { r.(k := r.k + d) }

  function Decode(s: seq<byte>): (r: Decoded<Obj>)
    ensures r.k <= |s| && (r.Ok? ==> r.k > 0)
    decreases |s|, 0, 0
  {
    NextBounds(Header, s);
    match Next(Header, s)
    case More(lex, k) => Short(lex, k)
    case Bad(k) => Refused(k)
    case Tok(Scalar(v), k) => Ok(ObjectOf(v), k)
    case Tok(Open(keyed, n), k) =>
      match Later(DecodeItems(Cells(keyed, n), s[k..]), k)
      case Ok(items, j) => Ok(Group(keyed, items), j)
      case Refused(j) => Refused(j)
      case Short(lex, j) => Short(lex, j)
  }

  /** n objects in a row. */
  function DecodeItems(n: nat, s: seq<byte>): (r: Decoded<seq<Obj>>)
    ensures r.k <= |s| && (r.Ok? ==> |r.value| == n)
    decreases |s|, 1, n
  {
    if n == 0 then Ok([], 0)
    else
      match Decode(s)
      case Refused(k) => Refused(k)
      case Short(lex, k) => Short(lex, k)
      case Ok(x, k) =>
        match Later(DecodeItems(n - 1, s[k..]), k)
        case Ok(xs, j) => Ok([x] + xs, j)
        case Refused(j) => Refused(j)
        case Short(lex, j) => Short(lex, j)
  }

  // ----- Decode undoes Encode -----

  lemma LoadsBack(c: byte, n: nat, k: nat, t: seq<byte>)
    requires n < Pow256(k)
    ensures var s := [c] + BigEndian(n, k) + t;
      s[0] == c && s[1..][..k] == BigEndian(n, k) && s[1..][k..] == t && FromBigEndian(BigEndian(n, k)) == n
  {
    BigEndianRoundTrip(n, k);
  }

  lemma OneByte(n: nat)
    requires n < 0x100
    ensures BigEndian(n, 1) == [n] && FromBigEndian([n]) == n
  {
    assert BigEndian(0, 0) == [];
    assert FromBigEndian([n][..0]) == 0;
  }

  /** A header byte that announces a number, and its bytes. */
  lemma LexNumber(c: byte, n: nat, k: nat, t: seq<byte>)
    requires 0xca <= c <= 0xd3 && k == Trail(c) && n < Pow256(k)
    ensures Next(Header, [c] + BigEndian(n, k) + t) == Tok(Scalar(FixedToken(c, BigEndian(n, k))), 1 + k)
    ensures FromBigEndian(BigEndian(n, k)) == n
  {
    LoadsBack(c, n, k, t);
  }

  lemma LexSmall(c: byte, t: seq<byte>)
    requires c < 0x80 || c >= 0xe0
    ensures Next(Header, [c] + t) == Tok(Scalar(if c < 0x80 then VisitPositive(c) else VisitNegative(c - 0x100)), 1)
  {
  }

  lemma LexUInt(u: nat, t: seq<byte>)
    requires u <= MAX64
    ensures Next(Header, UIntBytes(u) + t) == Tok(Scalar(VisitPositive(u)), |UIntBytes(u)|)
  {
    hide Next;
    Pow256Values();
    if u < 0x80 {
      LexSmall(u, t);
    } else {
      var c, k := if u < 0x100 then 0xcc else if u < 0x1_0000 then 0xcd else if u < 0x1_0000_0000 then 0xce else 0xcf,
                  if u < 0x100 then 1 else if u < 0x1_0000 then 2 else if u < 0x1_0000_0000 then 4 else 8;
      if k == 1 { OneByte(u); }
      assert UIntBytes(u) == [c] + BigEndian(u, k);
      LexNumber(c, u, k, t);
    }
  }

  /** A negative number in k bytes behind header byte c. */
  lemma LexNegative(c: byte, k: nat, i: int, t: seq<byte>)
    requires MIN64 <= i < 0 && 0 <= Pow256(k) + 2 * i
    requires (c, k) == (0xd0, 1) || (c, k) == (0xd1, 2) || (c, k) == (0xd2, 4) || (c, k) == (0xd3, 8)
    requires NIntBytes(i) == [c] + BigEndian(Pow256(k) + i, k)
    ensures Next(Header, NIntBytes(i) + t) == Tok(Scalar(VisitNegative(i)), |NIntBytes(i)|)
  {
    hide Next, NIntBytes, BigEndian;
    Pow256Values();
    LexNumber(c, Pow256(k) + i, k, t);
  }

  lemma LexNInt(i: int, t: seq<byte>)
    requires MIN64 <= i < 0
    ensures Next(Header, NIntBytes(i) + t) == Tok(Scalar(VisitNegative(i)), |NIntBytes(i)|)
  {
    hide Next, BigEndian;
    Pow256Values();
    if i >= -0x20 {
      LexSmall(0x100 + i, t);
    } else if i >= -0x80 {
      OneByte(0x100 + i);
      LexNegative(0xd0, 1, i, t);
    } else if i >= -0x8000 {
      LexNegative(0xd1, 2, i, t);
    } else if i >= -0x8000_0000 {
      LexNegative(0xd2, 4, i, t);
    } else {
      LexNegative(0xd3, 8, i, t);
    }
  }

  lemma LexFloat(bits: nat, wide: bool, t: seq<byte>)
    requires bits <= if wide then MAX64 else MAX32
    ensures var c, k := if wide then 0xcb else 0xca, if wide then 8 else 4;
      Next(Header, [c] + BigEndian(bits, k) + t)
      == Tok(Scalar(if wide then VisitFloat64(bits) else VisitFloat32(bits)), 1 + k)
  {
    hide Next;
    Pow256Values();
    LexNumber(if wide then 0xcb else 0xca, bits, if wide then 8 else 4, t);
  }

  /** A header with a length field in front of a body. */
  lemma LexLength(c: byte, l: nat, k: nat, s: seq<byte>, t: seq<byte>)
    requires l < Pow256(k) && (0xc4 <= c <= 0xc9 || 0xd9 <= c <= 0xdb) && k == Trail(c)
    requires |s| == if 0xc7 <= c <= 0xc9 then l + 1 else l
    ensures Next(Header, ([c] + BigEndian(l, k) + s) + t)
      == Tok(BodyToken(if c <= 0xc6 then BinBody else if c <= 0xc9 then ExtBody else StrBody, s), 1 + k + |s|)
  {
    hide Choose, Interpret, BigEndian, FromBigEndian, Pow256, NextBody, NextFixed;
    var kind := if c <= 0xc6 then BinBody else if c <= 0xc9 then ExtBody else StrBody;
    assert ([c] + BigEndian(l, k) + s) + t == [c] + (BigEndian(l, k) + (s + t));
    LoadsBack(c, l, k, s + t);
    LengthChoice(c, BigEndian(l, k));
    FixedThenBody(c, BigEndian(l, k), kind, s, t);
    assert ([c] + (BigEndian(l, k) + (s + t)))[1..] == BigEndian(l, k) + (s + t);
  }

  lemma FixedThenBody(c: byte, f: seq<byte>, kind: BodyKind, s: seq<byte>, t: seq<byte>)
    requires 0xc4 <= c <= 0xdf && |f| == Trail(c) && Interpret(Fixed(c), f) == AfterLength(kind, |s|)
    ensures NextFixed(c, f + (s + t)) == Tok(BodyToken(kind, s), |f| + |s|)
  {
    hide Interpret, Trail;
    assert (f + (s + t))[..|f|] == f && (f + (s + t))[|f|..] == s + t && (s + t)[..|s|] == s;
  }

  /** A length field of header byte c. */
  lemma LengthChoice(c: byte, f: seq<byte>)
    requires (0xc4 <= c <= 0xc9 || 0xd9 <= c <= 0xdb) && |f| == Trail(c)
    ensures Choose(c) == Wait(Fixed(c))
    ensures Interpret(Fixed(c), f) == AfterLength(if c <= 0xc6 then BinBody else if c <= 0xc9 then ExtBody else StrBody,
      FromBigEndian(f) + if 0xc7 <= c <= 0xc9 then 1 else 0)
  {
  }

  lemma LexStr(s: seq<byte>, t: seq<byte>)
    requires |s| <= MAX32
    ensures Next(Header, (StrHead(|s|) + s) + t) == Tok(Scalar(VisitStr(s)), |StrHead(|s|) + s|)
  {
    Pow256Values();
    var l := |s|;
    if l < 32 {
      assert ((StrHead(l) + s) + t)[1..] == s + t && (s + t)[..l] == s;
    } else {
      var c, k := if l < 0x100 then 0xd9 else if l < 0x1_0000 then 0xda else 0xdb,
                  if l < 0x100 then 1 else if l < 0x1_0000 then 2 else 4;
      if k == 1 { OneByte(l); }
      assert StrHead(l) == [c] + BigEndian(l, k);
      LexLength(c, l, k, s, t);
    }
  }

  lemma LexBin(s: seq<byte>, t: seq<byte>)
    requires |s| <= MAX32
    ensures Next(Header, (BinHead(|s|) + s) + t) == Tok(Scalar(VisitBin(s)), |BinHead(|s|) + s|)
  {
    Pow256Values();
    var l := |s|;
    var c, k := if l < 0x100 then 0xc4 else if l < 0x1_0000 then 0xc5 else 0xc6,
                if l < 0x100 then 1 else if l < 0x1_0000 then 2 else 4;
    if k == 1 { OneByte(l); }
    assert BinHead(l) == [c] + BigEndian(l, k);
    LexLength(c, l, k, s, t);
  }

  lemma LexFixExt(c: byte, s: seq<byte>, t: seq<byte>)
    requires 0xd4 <= c <= 0xd8 && |s| == Trail(c)
    ensures Next(Header, ([c] + s) + t) == Tok(Scalar(VisitExt(s)), 1 + |s|)
  {
    assert (([c] + s) + t)[1..] == s + t && (s + t)[..|s|] == s;
  }

  lemma LexExt(s: seq<byte>, t: seq<byte>)
    requires 1 <= |s| <= MAX32 + 1
    ensures Next(Header, (ExtHead(|s| - 1) + s) + t) == Tok(Scalar(VisitExt(s)), |ExtHead(|s| - 1) + s|)
  {
    hide Next;
    Pow256Values();
    var l := |s| - 1;
    if l == 1 || l == 2 || l == 4 || l == 8 || l == 16 {
      LexFixExt(ExtHead(l)[0], s, t);
    } else {
      var c, k := if l < 0x100 then 0xc7 else if l < 0x1_0000 then 0xc8 else 0xc9,
                  if l < 0x100 then 1 else if l < 0x1_0000 then 2 else 4;
      if k == 1 { OneByte(l); }
      assert ExtHead(l) == [c] + BigEndian(l, k);
      LexLength(c, l, k, s, t);
    }
  }

  lemma LexGroup(keyed: bool, n: nat, t: seq<byte>)
    requires n <= MAX32
    ensures Next(Header, GroupHead(keyed, n) + t) == Tok(Open(keyed, n), |GroupHead(keyed, n)|)
  {
    Pow256Values();
    if n >= 16 {
      var c := (if keyed then 0xde else 0xdc) + if n < 0x1_0000 then 0 else 1;
      LoadsBack(c, n, if n < 0x1_0000 then 2 else 4, t);
    }
  }

  lemma LexScalar(x: Obj, t: seq<byte>)
    requires Valid(x) && !x.Group?
    ensures var r := Next(Header, Encode(x) + t);
      r.Tok? && r.token.Scalar? && ObjectOf(r.token.v) == x && r.k == |Encode(x)|
  {
    hide Next;
    match x
    case Nil => ScalarBytes(0xc0, t);
    case Bool(b) => ScalarBytes(if b then 0xc3 else 0xc2, t);
    case UInt(u) => LexUInt(u, t);
    case NInt(i) => LexNInt(i, t);
    case F32(bits) => LexFloat(bits, false, t);
    case F64(bits) => LexFloat(bits, true, t);
    case Str(s) => LexStr(s, t);
    case Bin(s) => LexBin(s, t);
    case Ext(s) => LexExt(s, t);
  }

  lemma ScalarBytes(c: byte, t: seq<byte>)
    requires c == 0xc0 || c == 0xc2 || c == 0xc3
    ensures Next(Header, [c] + t) == Tok(Scalar(if c == 0xc0 then VisitNil else VisitBoolean(c == 0xc3)), 1)
  {
  }

  /** Parsing a packed object, whatever follows it, gives the object back and consumes its bytes. */
  lemma {:induction false} RoundTrip(x: Obj, t: seq<byte>)
    requires Valid(x)
    ensures Decode(Encode(x) + t) == Ok(x, |Encode(x)|)
    decreases x, 0
  {
    hide Next;
    if x.Group? {
      var n := Announced(x.keyed, |x.items|);
      var head := GroupHead(x.keyed, n);
      assert Encode(x) + t == head + (EncodeAll(x.items) + t);
      LexGroup(x.keyed, n, EncodeAll(x.items) + t);
      assert (Encode(x) + t)[|head|..] == EncodeAll(x.items) + t;
      RoundTripAll(x.items, t);
    } else {
      LexScalar(x, t);
    }
  }

  lemma {:induction false} RoundTripAll(xs: seq<Obj>, t: seq<byte>)
    requires AllValid(xs)
    ensures DecodeItems(|xs|, EncodeAll(xs) + t) == Ok(xs, |EncodeAll(xs)|)
    decreases xs, 1
  {
    hide Encode, Decode;
    if xs == [] {
      assert EncodeAll(xs) + t == t;
    } else {
      var rest := EncodeAll(xs[1..]) + t;
      assert EncodeAll(xs) + t == Encode(xs[0]) + rest;
      RoundTrip(xs[0], rest);
      RoundTripAll(xs[1..], t);
      ItemThenItems(Encode(xs[0]), rest, |xs|);
      assert xs == [xs[0]] + xs[1..];
    }
  }

  lemma ItemThenItems(head: seq<byte>, rest: seq<byte>, n: nat)
    requires n > 0 && Decode(head + rest).Ok? && Decode(head + rest).k == |head| && DecodeItems(n - 1, rest).Ok?
    ensures DecodeItems(n, head + rest)
      == Ok([Decode(head + rest).value] + DecodeItems(n - 1, rest).value, |head| + DecodeItems(n - 1, rest).k)
  {
    hide Decode;
    assert (head + rest)[|head|..] == rest;
  }

  // ----- no encoding is shorter -----

  lemma ShortestUInt(c: byte, t: seq<byte>)
    requires 0xcc <= c <= 0xcf && |t| == Trail(c)
    ensures FromBigEndian(t) <= MAX64 && |UIntBytes(FromBigEndian(t))| <= 1 + |t|
  {
    Pow256Values();
    FromBigEndianBound(t);
  }

  lemma ShortestNInt(c: byte, t: seq<byte>)
    requires 0xd0 <= c <= 0xd3 && |t| == Trail(c) && FromBigEndian(t) < Pow256(|t|)
    ensures MIN64 <= Signed(FromBigEndian(t), |t|) <= MAX64
    ensures |IntBytes(Signed(FromBigEndian(t), |t|))| <= 1 + |t|
  {
    Pow256Values();
  }

  lemma ShortestFixed(c: byte, t: seq<byte>)
    requires 0xca <= c <= 0xd8 && |t| == Trail(c)
    ensures var x := ObjectOf(FixedToken(c, t)); Valid(x) && |Encode(x)| <= 1 + |t|
  {
    Pow256Values();
    FromBigEndianBound(t);
    if 0xcc <= c <= 0xcf { ShortestUInt(c, t); } else if 0xd0 <= c <= 0xd3 { ShortestNInt(c, t); }
  }

  /** The length field of header byte c, with the size of the header. */
  lemma ShortestHead(c: byte, u: nat)
    requires (0xc4 <= c <= 0xc9 || 0xd9 <= c <= 0xdb) && u < Pow256(Trail(c))
    ensures u <= MAX32
    ensures |if c <= 0xc6 then BinHead(u) else if c <= 0xc9 then ExtHead(u) else StrHead(u)| <= 1 + Trail(c)
  {
    Pow256Values();
  }

  lemma BodyLexed(c: byte, s: seq<byte>)
    requires (0xc4 <= c <= 0xc9 || 0xd9 <= c <= 0xdb) && NextFixed(c, s).Tok?
    ensures var r, n := NextFixed(c, s), Trail(c);
      && |s| >= n && r.token.Scalar?
      && var u, x := FromBigEndian(s[..n]), ObjectOf(r.token.v);
         if c <= 0xc6 then x.Bin? && |x.s| == u && r.k == n + u
         else if c <= 0xc9 then x.Ext? && |x.s| == u + 1 && r.k == n + u + 1
         else x.Str? && |x.s| == u && r.k == n + u
  {
  }

  lemma ShortestBody(c: byte, s: seq<byte>)
    requires (0xc4 <= c <= 0xc9 || 0xd9 <= c <= 0xdb) && NextFixed(c, s).Tok?
    ensures var r := NextFixed(c, s);
      r.token.Scalar? && Valid(ObjectOf(r.token.v)) && |Encode(ObjectOf(r.token.v))| <= 1 + r.k
  {
    hide NextFixed, ObjectOf, BinHead, StrHead, ExtHead, Trail;
    BodyLexed(c, s);
    FromBigEndianBound(s[..Trail(c)]);
    ShortestHead(c, FromBigEndian(s[..Trail(c)]));
  }

  lemma ShortestSmall(s: seq<byte>)
    requires s != [] && !(0xc4 <= s[0] <= 0xdf) && Next(Header, s).Tok? && Next(Header, s).token.Scalar?
    ensures var r := Next(Header, s); Valid(ObjectOf(r.token.v)) && |Encode(ObjectOf(r.token.v))| <= r.k
  {
  }

  /** A scalar token is at least as long as the packed form of its object. */
  lemma ShortestScalar(s: seq<byte>)
    requires Next(Header, s).Tok? && Next(Header, s).token.Scalar?
    ensures var r := Next(Header, s); Valid(ObjectOf(r.token.v)) && |Encode(ObjectOf(r.token.v))| <= r.k
  {
    hide NextFixed, AfterLength, Encode, ObjectOf;
    var c := s[0];
    if !(0xc4 <= c <= 0xdf) {
      ShortestSmall(s);
    } else if 0xca <= c <= 0xd8 {
      NumberOrFixExt(c, s[1..]);
      if |s| > Trail(c) { ShortestFixed(c, s[1..][..Trail(c)]); }
    } else if c >= 0xdc {
      GroupOpens(c, s[1..]);
    } else {
      ShortestBody(c, s[1..]);
    }
  }

  lemma NumberOrFixExt(c: byte, s: seq<byte>)
    requires 0xca <= c <= 0xd8
    ensures NextFixed(c, s) == if |s| < Trail(c) then More(Fixed(c), 0)
                               else Tok(Scalar(FixedToken(c, s[..Trail(c)])), Trail(c))
  {
  }

  lemma GroupOpens(c: byte, s: seq<byte>)
    requires 0xdc <= c <= 0xdf
    ensures NextFixed(c, s).Tok? ==> NextFixed(c, s).token.Open?
  {
  }

  lemma ShortestOpen(s: seq<byte>)
    requires Next(Header, s).Tok? && Next(Header, s).token.Open?
    ensures var r := Next(Header, s); r.token.n <= MAX32 && |GroupHead(r.token.keyed, r.token.n)| <= r.k
  {
    var c := s[0];
    if 0xdc <= c <= 0xdf {
      FromBigEndianBound(s[1..][..Trail(c)]);
      Pow256Values();
    }
  }

  /** Of all byte strings that denote an object, Encode gives a shortest one; in particular
      integers, lengths and counts are packed into the smallest family that holds them. */
  lemma {:induction false} EncodeIsShortest(s: seq<byte>)
    requires Decode(s).Ok?
    ensures Valid(Decode(s).value) && |Encode(Decode(s).value)| <= Decode(s).k
    decreases |s|, 0, 0
  {
    hide Next, Valid, AllValid;
    NextBounds(Header, s);
    var r := Next(Header, s);
    if r.token.Scalar? {
      ShortestScalar(s);
    } else {
      var keyed, n := r.token.keyed, r.token.n;
      ShortestOpen(s);
      ItemsShortest(Cells(keyed, n), s[r.k..]);
      GroupValid(keyed, n, DecodeItems(Cells(keyed, n), s[r.k..]).value);
    }
  }

  lemma GroupValid(keyed: bool, n: nat, items: seq<Obj>)
    requires n <= MAX32 && |items| == Cells(keyed, n) && AllValid(items)
    ensures Valid(Group(keyed, items)) && Encode(Group(keyed, items)) == GroupHead(keyed, n) + EncodeAll(items)
  {
  }

  lemma {:induction false} ItemsShortest(n: nat, s: seq<byte>)
    requires DecodeItems(n, s).Ok?
    ensures AllValid(DecodeItems(n, s).value) && |EncodeAll(DecodeItems(n, s).value)| <= DecodeItems(n, s).k
    decreases |s|, 1, n
  {
    if n > 0 {
      EncodeIsShortest(s);
      var x, k := Decode(s).value, Decode(s).k;
      ItemsShortest(n - 1, s[k..]);
      var xs := DecodeItems(n - 1, s[k..]).value;
      assert ([x] + xs)[1..] == xs;
    }
  }

  // ----- an object depends on its own bytes only -----

  /** An object is read from the bytes that hold it, whatever follows them. */
  lemma {:induction false} DecodeOwnBytes(s: seq<byte>, j: nat)
    requires Decode(s).Ok? && Decode(s).k <= j <= |s|
    ensures Decode(s[..j]) == Decode(s)
    decreases |s|, 0, 0
  {
    hide Next;
    NextBounds(Header, s);
    var r := Next(Header, s);
    LexedPrefix(Header, s, j);
    assert s[..j][r.k..] == s[r.k..][..j - r.k];
    if r.token.Open? { ItemsOwnBytes(Cells(r.token.keyed, r.token.n), s[r.k..], j - r.k); }
  }

  /** n objects are one object and n - 1 behind it. */
  lemma ItemsStep(n: nat, s: seq<byte>)
    requires n > 0
    ensures var d := Decode(s);
      && (DecodeItems(n, s).Ok? <==> d.Ok? && DecodeItems(n - 1, s[d.k..]).Ok?)
      && (DecodeItems(n, s).Ok? ==>
            var e := DecodeItems(n - 1, s[d.k..]); DecodeItems(n, s) == Ok([d.value] + e.value, e.k + d.k))
  {
  }

  lemma {:induction false} ItemsOwnBytes(n: nat, s: seq<byte>, j: nat)
    requires DecodeItems(n, s).Ok? && DecodeItems(n, s).k <= j <= |s|
    ensures DecodeItems(n, s[..j]) == DecodeItems(n, s)
    decreases |s|, 1, n
  {
    hide Decode, DecodeItems;
    if n > 0 {
      ItemsStep(n, s);
      ItemsStep(n, s[..j]);
      DecodeOwnBytes(s, j);
      var k := Decode(s).k;
      assert s[..j][k..] == s[k..][..j - k];
      ItemsOwnBytes(n - 1, s[k..], j - k);
    } else {
      NoItems(s);
      NoItems(s[..j]);
    }
  }

  lemma NoItems(s: seq<byte>)
    ensures DecodeItems(0, s) == Ok([], 0)
  {
  }

  lemma {:induction false} DecodeMore(s: seq<byte>, t: seq<byte>)
    requires Decode(s).Ok?
    ensures Decode(s + t) == Decode(s)
    decreases |s|, 0, 0
  {
    hide Next;
    NextBounds(Header, s);
    var r := Next(Header, s);
    NextResumes(Header, s, t);
    assert (s + t)[r.k..] == s[r.k..] + t;
    if r.token.Open? { ItemsMore(Cells(r.token.keyed, r.token.n), s[r.k..], t); }
  }

  lemma {:induction false} ItemsMore(n: nat, s: seq<byte>, t: seq<byte>)
    requires DecodeItems(n, s).Ok?
    ensures DecodeItems(n, s + t) == DecodeItems(n, s)
    decreases |s|, 1, n
  {
    hide Decode, DecodeItems;
    if n > 0 {
      ItemsStep(n, s);
      ItemsStep(n, s + t);
      DecodeMore(s, t);
      var k := Decode(s).k;
      assert (s + t)[k..] == s[k..] + t;
      ItemsMore(n - 1, s[k..], t);
    } else {
      NoItems(s);
      NoItems(s + t);
    }
  }

  /** Decoding s object after object gives exactly xs and uses all of s. */
  predicate Spells(s: seq<byte>, xs: seq<Obj>)
    decreases |xs|
  {
    if xs == [] then s == []
    else Decode(s).Ok? && Decode(s).value == xs[0] && Spells(s[Decode(s).k..], xs[1..])
  }

  lemma {:induction false} SpellsMore(s: seq<byte>, xs: seq<Obj>, t: seq<byte>, x: Obj)
    requires Spells(s, xs) && Decode(t) == Ok(x, |t|)
    ensures Spells(s + t, xs + [x])
    decreases |xs|
  {
    if xs == [] {
      assert s + t == t && t[|t|..] == [];
      assert (xs + [x])[1..] == [];
    } else {
      DecodeMore(s, t);
      var k := Decode(s).k;
      assert (s + t)[k..] == s[k..] + t && (xs + [x])[1..] == xs[1..] + [x];
      SpellsMore(s[k..], xs[1..], t, x);
    }
  }

  /** Packing objects one after the other spells them. */
  lemma {:induction false} PackedSpells(xs: seq<Obj>)
    requires AllValid(xs)
    ensures Spells(EncodeAll(xs), xs)
    decreases |xs|
  {
    if xs != [] {
      RoundTrip(xs[0], EncodeAll(xs[1..]));
      assert EncodeAll(xs)[|Encode(xs[0])|..] == EncodeAll(xs[1..]);
      PackedSpells(xs[1..]);
    }
  }
}
