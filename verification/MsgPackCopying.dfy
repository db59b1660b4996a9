/** The parsers without a reference function: bodies are copied into the zone, by a length of 32
    bits. An extension with 2^32 - 1 bytes of payload, which with its type byte has 2^32, is the
    one body whose length that cuts off. */
module MsgPackCopying {
  import opened Bytes
  import opened Options
  import opened MsgPackFormat
  import opened MsgPackLexer
  import opened MsgPackDecode
  import opened MsgPackMachine
  import opened MsgPackUnpackers
  import opened MsgPackVisitor
  import opened MsgPackUnpackV1

  const ALL32: nat := 0x1_0000_0000

  predicate Long(t: Token) { t.Scalar? && t.v.VisitExt? && |t.v.s| > MAX32 }

  // ----- the visitor -----

  /** What the object points to after a visit that is told |s| as a uint32_t. An extension says that
      it has told - 1 bytes behind the type byte, again as a uint32_t: told nothing, it says so of
      2^32 - 1 bytes that were never written. */
  function CopiedValue(v: Value): Option<Value> {
    match v
    case VisitStr(s) => Some(VisitStr(s[..|s| % ALL32]))
    case VisitBin(s) => Some(VisitBin(s[..|s| % ALL32]))
    case VisitExt(s) => if |s| % ALL32 == 0 then None else Some(VisitExt(s[..|s| % ALL32]))
    case _ => Some(v)
  }

  /** The memory after the calls, unless something in it was never written. */
  function CopyBuildOf(events: seq<Event>): Option<Build> {
    if events == [] then Some(START)
    else
      var e := events[|events| - 1];
      match CopyBuildOf(events[..|events| - 1])
      case None => None
      case Some(b) =>
        if !e.Visit? then Some(Handle(b, e))
        else match CopiedValue(e.v) case None => None case Some(v) => Some(Handle(b, Visit(v)))
  }

  /** Bodies of the format's sizes. */
  predicate Fits(v: Value) {
    match v
    case VisitStr(s) => |s| <= MAX32
    case VisitBin(s) => |s| <= MAX32
    case VisitExt(s) => 1 <= |s| <= MAX32 + 1
    case _ => true
  }

  ghost predicate AllFit(events: seq<Event>) { forall e | e in events && e.Visit? :: Fits(e.v) }

  ghost predicate LongIn(events: seq<Event>) { exists e :: e in events && e.Visit? && Long(Scalar(e.v)) }

  /** Copying makes no difference, but for the extension whose length is cut off. */
  lemma CopiedIs(v: Value)
    requires Fits(v)
    ensures CopiedValue(v) == if Long(Scalar(v)) then None else Some(v)
  {
    match v {
      case VisitStr(s) => assert s[..|s|] == s;
      case VisitBin(s) => assert s[..|s|] == s;
      case VisitExt(s) => if |s| <= MAX32 { assert s[..|s|] == s; }
      case _ =>
    }
  }

  lemma {:induction false} CopyBuildIs(events: seq<Event>)
    requires AllFit(events)
    ensures CopyBuildOf(events) == if LongIn(events) then None else Some(BuildOf(events))
    decreases |events|
  {
    hide Handle, CopiedValue, Long, Fits;
    if events != [] {
      var front, e := events[..|events| - 1], events[|events| - 1];
      assert events == front + [e];
      CopyBuildIs(front);
      if e.Visit? { CopiedIs(e.v); }
      assert LongIn(events) <==> LongIn(front) || (e.Visit? && Long(Scalar(e.v))) by { LongOne(front, e); }
    }
  }

  lemma LongOne(events: seq<Event>, e: Event)
    ensures LongIn(events + [e]) <==> LongIn(events) || (e.Visit? && Long(Scalar(e.v)))
    ensures AllFit(events + [e]) <==> AllFit(events) && (e.Visit? ==> Fits(e.v))
  {
    hide Long, Fits;
    if LongIn(events) {
      var d :| d in events && d.Visit? && Long(Scalar(d.v));
      assert d in events + [e];
    }
    if e.Visit? { assert e in events + [e]; }
    forall d | d in events ensures d in events + [e] { }
  }

  // ----- runs that meet such an extension -----

  /** Whether a run over `s` gets to a token that is such an extension. */
  ghost predicate MeetsLong<M(!new)>(accept: (M, Token) -> Verdict<M>, m: M, s: seq<byte>)
    decreases |s|
  {
    var n := Next(Header, s);
    NextBounds(Header, s);
    n.Tok? && (Long(n.token) || (accept(m, n.token).Go? && MeetsLong(accept, accept(m, n.token).m, s[n.k..])))
  }

  ghost predicate MeetsLongExt(s: seq<byte>) { MeetsLong(AcceptSpec, Spec([], None), s) }

  /** Tokens read from a header on are of the format's sizes, and the extension takes its length and
      five bytes more. */
  lemma TokenSizes(s: seq<byte>)
    requires Next(Header, s).Tok?
    ensures Next(Header, s).token.Scalar? ==> Fits(Next(Header, s).token.v)
    ensures Long(Next(Header, s).token) ==> Next(Header, s).k == ALL32 + 5
  {
    match Choose(s[0])
    case Wait(Fixed(c)) =>
      FixedSizes(c, s[1..]);
    case _ =>
  }

  /** A length field of at most four bytes; extensions have a length of four only behind 0xc9. */
  lemma LengthField(c: nat, t: seq<byte>)
    requires (0xc4 <= c <= 0xc9 || 0xd9 <= c <= 0xdf) && |t| == Trail(c)
    ensures FromBigEndian(t) <= MAX32
    ensures c == 0xc7 || c == 0xc8 ==> FromBigEndian(t) < 0x1_0000
    ensures c == 0xc9 ==> |t| == 4
  {
    hide FromBigEndian, Pow256;
    FromBigEndianBound(t);
    Pow256Values();
    assert |t| == 1 || |t| == 2 || |t| == 4;
  }

  lemma FixedSizes(c: nat, s: seq<byte>)
    requires 0xc4 <= c <= 0xdf && NextFixed(c, s).Tok?
    ensures var r := NextFixed(c, s);
      && (r.token.Scalar? ==> Fits(r.token.v))
      && (Long(r.token) ==> r.k == ALL32 + 4)
  {
    hide FromBigEndian;
    var n := Trail(c);
    if 0xca <= c <= 0xd8 {
      assert n <= 17;
    } else {
      LengthField(c, s[..n]);
    }
  }

  lemma {:induction false} MeetsNeeds<M(!new)>(accept: (M, Token) -> Verdict<M>, m: M, s: seq<byte>)
    requires MeetsLong(accept, m, s)
    ensures |s| >= ALL32 + 5
    decreases |s|
  {
    hide Next, Long;
    NextBounds(Header, s);
    var n := Next(Header, s);
    TokenSizes(s);
    if !Long(n.token) { MeetsNeeds(accept, accept(m, n.token).m, s[n.k..]); }
  }

  /** Machines that answer alike meet the same tokens. */
  lemma {:induction false} MeetAlike<A(!new), B(!new)>(
      f: (A, Token) -> Verdict<A>, g: (B, Token) -> Verdict<B>, rel: (A, B) -> bool, fin: (A, B) -> bool,
      a: A, b: B, s: seq<byte>)
    requires rel(a, b)
    requires forall x: A, y: B, t: Token | rel(x, y) :: MatchVerdict(rel, fin, f(x, t), g(y, t))
    ensures MeetsLong(f, a, s) <==> MeetsLong(g, b, s)
    decreases |s|
  {
    hide Next, Long;
    NextBounds(Header, s);
    var n := Next(Header, s);
    if n.Tok? {
      assert MatchVerdict(rel, fin, f(a, n.token), g(b, n.token));
      if f(a, n.token).Go? { MeetAlike(f, g, rel, fin, f(a, n.token).m, g(b, n.token).m, s[n.k..]); }
    }
  }

  lemma AllMeet(s: seq<byte>)
    ensures MeetsLongExt(s) <==> MeetsLong(AcceptV1, V1_START, s)
    ensures MeetsLongExt(s) <==> MeetsLong(Accepting(NeverStops()), V2_START, s)
  {
    hide MeetsLong;
    forall x: Spec, y: V1, t: Token | SameV1(x, y) ensures MatchVerdict(SameV1, SameResultV1, AcceptSpec(x, t), AcceptV1(y, t)) {
      V1Step(x, y, t);
    }
    MeetAlike(AcceptSpec, AcceptV1, SameV1, SameResultV1, Spec([], None), V1_START, s);
    forall x: Spec, y: V2, t: Token | SameV2(x, y)
      ensures MatchVerdict(SameV2, SameResultV2, AcceptSpec(x, t), Accepting(NeverStops())(y, t)) {
      V2Step(x, y, t);
    }
    assert SameV2(Spec([], None), V2_START);
    MeetAlike(AcceptSpec, Accepting(NeverStops()), SameV2, SameResultV2, Spec([], None), V2_START, s);
  }

  // ----- v1 -----

  /** unpack_ext throws at a length above the default limit. */
  function AcceptV1Copying(m: V1, t: Token): Verdict<V1> { if Long(t) then Halt(m) else AcceptV1(m, t) }

  lemma {:induction false} V1Copies(m: V1, s: seq<byte>)
    ensures var r := Run(AcceptV1Copying, m, Header, s);
      if MeetsLong(AcceptV1, m, s) then r.ret == StopVisitor else r == Run(AcceptV1, m, Header, s)
    decreases |s|
  {
    hide Next, Long, AcceptV1;
    NextBounds(Header, s);
    var n := Next(Header, s);
    if n.Tok? && !Long(n.token) && AcceptV1(m, n.token).Go? { V1Copies(AcceptV1(m, n.token).m, s[n.k..]); }
  }

  // ----- v2 and v3 -----

  /** The calls that end an object visit nothing. */
  lemma {:induction false} ConsumeVisitsNothing(m: V2)
    ensures var v := Consume(NeverStops(), m);
      !v.Halt? && (LongIn(v.m.events) <==> LongIn(m.events)) && (AllFit(v.m.events) <==> AllFit(m.events))
    decreases |m.stack|
  {
    hide LongIn, AllFit, BuildOf;
    if m.stack != [] {
      var e := m.stack[|m.stack| - 1];
      LongOne(m.events, EndItem(e.ct));
      if e.ct == MapKey || e.rest > 1 {
        ConsumeNext(m);
        LongOne(m.events + [EndItem(e.ct)], StartItem(e.ct));
      } else {
        ConsumeLast(m);
        LongOne(m.events + [EndItem(e.ct)], EndGroup(e.ct == MapValue));
        ConsumeVisitsNothing(V2(m.stack[..|m.stack| - 1], m.events + [EndItem(e.ct)] + [EndGroup(e.ct == MapValue)]));
      }
    }
  }

  lemma AcceptVisits(m: V2, t: Token)
    requires t.Scalar? ==> Fits(t.v)
    ensures var v := Accept(NeverStops(), m, t);
      !v.Halt? && (LongIn(v.m.events) <==> LongIn(m.events) || Long(t)) && (AllFit(m.events) ==> AllFit(v.m.events))
  {
    hide LongIn, AllFit, Consume, Long, Fits;
    match t
    case Scalar(v) =>
      LongOne(m.events, Visit(v));
      ConsumeVisitsNothing(m.(events := m.events + [Visit(v)]));
    case Open(keyed, n) =>
      LongOne(m.events, StartGroup(keyed, n));
      assert !Long(t) by { GroupIsShort(keyed, n); }
      if n == 0 {
        LongOne(m.events + [StartGroup(keyed, n)], EndGroup(keyed));
        ConsumeVisitsNothing(m.(events := m.events + [StartGroup(keyed, n)] + [EndGroup(keyed)]));
      } else {
        LongOne(m.events + [StartGroup(keyed, n)], if keyed then StartMapKey else StartArrayItem);
      }
  }

  lemma GroupIsShort(keyed: bool, n: nat)
    ensures !Long(Open(keyed, n))
  {
  }

  lemma {:induction false} V2Visits(m: V2, s: seq<byte>)
    requires AllFit(m.events)
    ensures var r := Run(Accepting(NeverStops()), m, Header, s);
      AllFit(r.m.events) && (LongIn(r.m.events) <==> LongIn(m.events) || MeetsLong(Accepting(NeverStops()), m, s))
    decreases |s|
  {
    hide Next, Long, LongIn, AllFit, Accept, Fits;
    NextBounds(Header, s);
    var n := Next(Header, s);
    if n.Tok? {
      TokenSizes(s);
      AcceptVisits(m, n.token);
      var v := Accept(NeverStops(), m, n.token);
      if v.Go? { V2Visits(v.m, s[n.k..]); }
    }
  }

  /** On every input without such an extension the copying parsers do what the referencing ones do.
      At the first such extension v1 throws, and v2 and v3 go on with an object whose bytes were
      never written. An input must have 2^32 + 5 bytes to hold one. */
  lemma CopyingParsersAgree(s: seq<byte>)
    ensures var r1 := Run(AcceptV1Copying, V1_START, Header, s);
      var calls := Run(Accepting(NeverStops()), V2_START, Header, s).m.events;
      if MeetsLongExt(s) then r1.ret == StopVisitor && CopyBuildOf(calls) == None
      else r1 == Run(AcceptV1, V1_START, Header, s) && CopyBuildOf(calls) == Some(BuildOf(calls))
    ensures Run(AcceptV1, V1_START, Header, s).ret != StopVisitor
    ensures MeetsLongExt(s) ==> |s| >= ALL32 + 5
  {
    hide Run, MeetsLong, CopyBuildOf, BuildOf, AllFit, LongIn, Accepting, Decode;
    AllMeet(s);
    V1Copies(V1_START, s);
    assert AllFit([]) && !LongIn([]) by { NothingVisited(); }
    V2Visits(V2_START, s);
    CopyBuildIs(Run(Accepting(NeverStops()), V2_START, Header, s).m.events);
    ParsersAgree(s);
    if MeetsLongExt(s) { MeetsNeeds(AcceptSpec, Spec([], None), s); }
  }

  lemma NothingVisited()
    ensures AllFit([]) && !LongIn([])
  {
  }
}
