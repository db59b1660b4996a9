/** The byte-level half of the three parsers' execute methods, which they share: from a position
    where a header is expected, or from the middle of a token, to the next visitor call. */
module MsgPackLexer {
  import opened Bytes
  import opened MsgPackFormat

  /** Visitor calls that carry a value, with what they carry. */
  datatype Value =
    | VisitNil
    | VisitBoolean(b: bool)
    | VisitPositive(u: nat)
    | VisitNegative(i: int)
    | VisitFloat32(bits: nat)
    | VisitFloat64(bits: nat)
    | VisitStr(s: seq<byte>)
    | VisitBin(s: seq<byte>)
    | VisitExt(s: seq<byte>)

  datatype Token = Scalar(v: Value) | Open(keyed: bool, n: nat)

  datatype BodyKind = StrBody | BinBody | ExtBody

  /** m_cs and m_trail. `Fixed(c)` waits for the bytes that follow header byte c, `Body(k, n)` for
      the n bytes of a string, binary or extension. */
  datatype Lex = Header | Fixed(c: nat) | Body(kind: BodyKind, n: nat)

  predicate LexOk(lex: Lex) {
    match lex
    case Header => true
    case Fixed(c) => 0xc4 <= c <= 0xdf
    case Body(_, n) => n > 0
  }

  /** The table `trail`. */
  function Trail(c: nat): (n: nat)
    requires 0xc4 <= c <= 0xdf
    ensures n >= 1
  {
    [1, 2, 4, 1, 2, 4, 4, 8, 1, 2, 4, 8, 1, 2, 4, 8, 2, 3, 5, 9, 17, 1, 2, 4, 2, 4, 2, 4][c - 0xc4]
  }

  /** What m_trail holds. */
  function Needed(lex: Lex): nat
    requires LexOk(lex)
  {
    match lex
    case Header => 1
    case Fixed(c) => Trail(c)
    case Body(_, n) => n
  }

  /** What is met first: a token ending after k bytes, a byte that starts no token (after k
      bytes), or the end of the input, with k bytes consumed and the state to go on from. */
  datatype Lexed =
    | Tok(token: Token, k: nat)
    | Bad(k: nat)
    | More(lex: Lex, k: nat)

  function Shift(r: Lexed, d: nat): Lexed { r.(k := r.k + d) }

  function BodyToken(kind: BodyKind, s: seq<byte>): Token {
    Scalar(match kind case StrBody => VisitStr(s) case BinBody => VisitBin(s) case ExtBody => VisitExt(s))
  }

  /** What the bytes seen so far call for: a visit, more bytes, or a refusal. */
  datatype Choice = Now(token: Token) | Wait(lex: Lex) | Refuse

  /** The branches of execute on a header byte. */
  function Choose(c: byte): (r: Choice)
    ensures r.Wait? ==> LexOk(r.lex) && r.lex != Header && (r.lex.Fixed? ==> r.lex.c == c)
  {
    if c <= 0x7f then Now(Scalar(VisitPositive(c)))
    else if 0xe0 <= c then Now(Scalar(VisitNegative(Signed8(c))))
    else if 0xc4 <= c <= 0xdf then Wait(Fixed(c))
    else if 0xa0 <= c <= 0xbf then AfterLength(StrBody, c - 0xa0)
    else if 0x90 <= c <= 0x9f then Now(Open(false, c - 0x90))
    else if 0x80 <= c <= 0x8f then Now(Open(true, c - 0x80))
    else if c == 0xc2 || c == 0xc3 then Now(Scalar(VisitBoolean(c == 0xc3)))
    else if c == 0xc0 then Now(Scalar(VisitNil))
    else Refuse
  }

  function Signed8(c: byte): int { if c >= 0x80 then c - 0x100 else c }

  /** A length is known: an empty body is visited at once. */
  function AfterLength(kind: BodyKind, n: nat): Choice {
    if n == 0 then Now(BodyToken(kind, [])) else Wait(Body(kind, n))
  }

  /** The number or extension announced by header byte c, whose trailing bytes are t. */
  function FixedToken(c: nat, t: seq<byte>): Value
    requires 0xca <= c <= 0xd8 && |t| == Trail(c)
  {
    FromBigEndianBound(t);
    var u := FromBigEndian(t);
    if c == 0xca then VisitFloat32(u)
    else if c == 0xcb then VisitFloat64(u)
    else if c <= 0xcf then VisitPositive(u)
    else if c <= 0xd3 then VisitNegative(Signed(u, |t|))
    else VisitExt(t)
  }

  /** The branches of execute on trailing bytes. */
  function Interpret(lex: Lex, t: seq<byte>): (r: Choice)
    requires LexOk(lex) && lex != Header && |t| == Needed(lex)
    ensures r.Now? || (r.Wait? && r.lex.Body? && LexOk(r.lex))
  {
    match lex
    case Body(kind, n) => Now(BodyToken(kind, t))
    case Fixed(c) =>
      if 0xca <= c <= 0xd8 then Now(Scalar(FixedToken(c, t)))
      else
        var u := FromBigEndian(t);
        if c <= 0xc6 then AfterLength(BinBody, u)
        else if c <= 0xc9 then AfterLength(ExtBody, u + 1)
        else if c <= 0xdb then AfterLength(StrBody, u)
        else Now(Open(c >= 0xde, u))
  }

  function NextBody(kind: BodyKind, n: nat, s: seq<byte>): Lexed {
    if |s| < n then More(Body(kind, n), 0) else Tok(BodyToken(kind, s[..n]), n)
  }

  function NextFixed(c: nat, s: seq<byte>): Lexed
    requires 0xc4 <= c <= 0xdf
  {
    var n := Trail(c);
    if |s| < n then More(Fixed(c), 0)
    else
      match Interpret(Fixed(c), s[..n])
      case Now(t) => Tok(t, n)
      case Wait(body) => Shift(NextBody(body.kind, body.n, s[n..]), n)
  }

  function NextHeader(s: seq<byte>): Lexed {
    if s == [] then More(Header, 0)
    else
      match Choose(s[0])
      case Now(t) => Tok(t, 1)
      case Wait(Fixed(c)) => Shift(NextFixed(c, s[1..]), 1)
      case Wait(Body(kind, n)) => Shift(NextBody(kind, n, s[1..]), 1)
      case Refuse => Bad(0)
  }

  function Next(lex: Lex, s: seq<byte>): Lexed
    requires LexOk(lex)
  {
    match lex
    case Header => NextHeader(s)
    case Fixed(c) => NextFixed(c, s)
    case Body(kind, n) => NextBody(kind, n, s)
  }

  lemma FixedBounds(c: nat, s: seq<byte>)
    requires 0xc4 <= c <= 0xdf
    ensures var r := NextFixed(c, s); !r.Bad? && r.k <= |s| && (r.More? ==> LexOk(r.lex))
  {
    hide Interpret, Trail;
  }

  /** Tokens end within the input and are not empty; only 0xc1 at a header is refused. */
  lemma NextBounds(lex: Lex, s: seq<byte>)
    requires LexOk(lex)
    ensures Next(lex, s).k <= |s|
    ensures Next(lex, s).Tok? ==> Next(lex, s).k > 0
    ensures Next(lex, s).More? ==> LexOk(Next(lex, s).lex)
    ensures Next(lex, s).Bad? <==> lex == Header && s != [] && s[0] == 0xc1
    ensures Next(lex, s).Bad? ==> Next(lex, s).k == 0
  {
    hide NextFixed;
    if lex.Fixed? { FixedBounds(lex.c, s); FixedMoves(lex.c, s); }
    if lex == Header && s != [] && 0xc4 <= s[0] <= 0xdf { FixedBounds(s[0], s[1..]); }
  }

  lemma FixedMoves(c: nat, s: seq<byte>)
    requires 0xc4 <= c <= 0xdf
    ensures NextFixed(c, s).Tok? ==> NextFixed(c, s).k > 0
  {
    hide Interpret;
  }

  lemma BodyResumes(kind: BodyKind, n: nat, s: seq<byte>, t: seq<byte>)
    ensures var r := NextBody(kind, n, s);
      NextBody(kind, n, s + t) == if r.More? then Shift(NextBody(kind, n, s[r.k..] + t), r.k) else r
  {
    if |s| >= n { assert (s + t)[..n] == s[..n]; } else { assert s[0..] == s; }
  }

  lemma FixedResumes(c: nat, s: seq<byte>, t: seq<byte>)
    requires 0xc4 <= c <= 0xdf
    ensures var r := NextFixed(c, s);
      && (r.More? ==> LexOk(r.lex) && r.k <= |s|)
      && NextFixed(c, s + t) == if r.More? then Shift(Next(r.lex, s[r.k..] + t), r.k) else r
  {
    var n := Trail(c);
    if |s| < n {
      assert s[0..] == s;
    } else {
      assert (s + t)[..n] == s[..n] && (s + t)[n..] == s[n..] + t;
      var ch := Interpret(Fixed(c), s[..n]);
      if ch.Wait? { BodyResumes(ch.lex.kind, ch.lex.n, s[n..], t); }
      assert s[n..][0..] == s[n..];
    }
  }

  /** Lexing can stop anywhere and go on when more bytes have come: the result is that of lexing
      the whole at once. */
  lemma NextResumes(lex: Lex, s: seq<byte>, t: seq<byte>)
    requires LexOk(lex)
    ensures var r := Next(lex, s);
      && (r.More? ==> LexOk(r.lex) && r.k <= |s|)
      && Next(lex, s + t) == if r.More? then Shift(Next(r.lex, s[r.k..] + t), r.k) else r
  {
    match lex
    case Header =>
      if s == [] {
        assert s + t == t && s[0..] + t == t;
      } else {
        HeaderResumes(s, t);
      }
    case Fixed(c) => FixedResumes(c, s, t);
    case Body(kind, n) => BodyResumes(kind, n, s, t);
  }

  lemma HeaderResumes(s: seq<byte>, t: seq<byte>)
    requires s != []
    ensures var r := NextHeader(s);
      && (r.More? ==> LexOk(r.lex) && r.k <= |s|)
      && NextHeader(s + t) == if r.More? then Shift(Next(r.lex, s[r.k..] + t), r.k) else r
  {
    var c := s[0];
    assert (s + t)[1..] == s[1..] + t;
    if 0xc4 <= c <= 0xdf {
      FixedResumes(c, s[1..], t);
      var r := NextFixed(c, s[1..]);
      if r.More? { assert s[1..][r.k..] == s[1 + r.k..]; }
    } else if 0xa0 <= c <= 0xbf {
      BodyResumes(StrBody, c - 0xa0, s[1..], t);
      assert s[1..][0..] == s[1..];
    }
  }

  /** A token is read from the bytes that hold it. */
  lemma LexedPrefix(lex: Lex, s: seq<byte>, k: nat)
    requires LexOk(lex) && Next(lex, s).Tok? && Next(lex, s).k <= k <= |s|
    ensures Next(lex, s[..k]) == Next(lex, s)
  {
    hide NextFixed, NextBody;
    match lex
    case Header =>
      assert s[..k][1..] == s[1..][..k - 1];
      match Choose(s[0]) {
        case Wait(Fixed(c)) => FixedPrefix(c, s[1..], k - 1);
        case Wait(Body(kind, n)) => BodyPrefix(kind, n, s[1..], k - 1);
        case _ =>
      }
    case Fixed(c) => FixedPrefix(c, s, k);
    case Body(kind, n) => BodyPrefix(kind, n, s, k);
  }

  lemma BodyPrefix(kind: BodyKind, n: nat, s: seq<byte>, k: nat)
    requires NextBody(kind, n, s).Tok? && NextBody(kind, n, s).k <= k <= |s|
    ensures NextBody(kind, n, s[..k]) == NextBody(kind, n, s)
  {
    assert s[..k][..n] == s[..n];
  }

  lemma FixedPrefix(c: nat, s: seq<byte>, k: nat)
    requires 0xc4 <= c <= 0xdf && NextFixed(c, s).Tok? && NextFixed(c, s).k <= k <= |s|
    ensures NextFixed(c, s[..k]) == NextFixed(c, s)
  {
    var n := Trail(c);
    assert s[..k][..n] == s[..n] && s[..k][n..] == s[n..][..k - n];
    var ch := Interpret(Fixed(c), s[..n]);
    if ch.Wait? { BodyPrefix(ch.lex.kind, ch.lex.n, s[n..], k - n); }
  }
}
