/** The token-level half of a parser as a machine, whatever its stack: how a run goes on over
    chunks of input, and the machine that the recursive reading of the format corresponds to. */
module MsgPackMachine {
  import opened Bytes
  import opened Options
  import opened MsgPackFormat
  import opened MsgPackLexer
  import opened MsgPackDecode

  /** What a machine does with a token: go on, be done with one object, or obey a visitor's stop. */
  datatype Verdict<M> = Go(m: M) | Done(m: M) | Halt(m: M)

  datatype Ret = Success | Continue | ParseError | StopVisitor

  /** How an execute call ends: its result, the state, and the bytes it went over. */
  datatype Outcome<M> = Outcome(ret: Ret, m: M, lex: Lex, k: nat)

  function After<M>(r: Outcome<M>, d: nat): Outcome<M> { r.(k := r.k + d) }

  function Run<M(!new)>(accept: (M, Token) -> Verdict<M>, m: M, lex: Lex, s: seq<byte>): (r: Outcome<M>)
    requires LexOk(lex)
    ensures r.k <= |s| && LexOk(r.lex)
    decreases |s|
  {
    NextBounds(lex, s);
    match Next(lex, s)
    case More(l, k) => Outcome(Continue, m, l, k)
    case Bad(k) => Outcome(ParseError, m, Header, k)
    case Tok(t, k) =>
      match accept(m, t)
      case Done(m') => Outcome(Success, m', Header, k)
      case Halt(m') => Outcome(StopVisitor, m', Header, k)
      case Go(m') => After(Run(accept, m', Header, s[k..]), k)
  }

  /** One token read and answered: the rest of the run. */
  lemma RunGoes<M(!new)>(accept: (M, Token) -> Verdict<M>, m: M, lex: Lex, s: seq<byte>)
    requires LexOk(lex) && Next(lex, s).Tok? && accept(m, Next(lex, s).token).Go?
    ensures var n := Next(lex, s);
      && 0 < n.k <= |s|
      && Run(accept, m, lex, s) == After(Run(accept, accept(m, n.token).m, Header, s[n.k..]), n.k)
  {
    hide Next;
    NextBounds(lex, s);
  }

  /** A run that ran out of input, continued with what has come since, ends as one run over the
      whole input does. */
  lemma {:induction false} RunResumes<M(!new)>(
      accept: (M, Token) -> Verdict<M>, m: M, lex: Lex, s: seq<byte>, t: seq<byte>)
    requires LexOk(lex)
    ensures var r := Run(accept, m, lex, s);
      Run(accept, m, lex, s + t)
      == if r.ret == Continue then After(Run(accept, r.m, r.lex, s[r.k..] + t), r.k) else r
    decreases |s|
  {
    hide Next, Run;
    NextBounds(lex, s);
    NextResumes(lex, s, t);
    var n := Next(lex, s);
    if n.Tok? && accept(m, n.token).Go? {
      RunGoes(accept, m, lex, s);
      RunGoes(accept, m, lex, s + t);
      assert (s + t)[n.k..] == s[n.k..] + t;
      var m' := accept(m, n.token).m;
      RunResumes(accept, m', Header, s[n.k..], t);
      var r := Run(accept, m', Header, s[n.k..]);
      assert s[n.k..][r.k..] == s[n.k + r.k..];
    } else {
      RunEnds(accept, m, lex, s, t);
    }
  }

  /** As RunResumes, when the first token is not followed by another. */
  lemma RunEnds<M(!new)>(accept: (M, Token) -> Verdict<M>, m: M, lex: Lex, s: seq<byte>, t: seq<byte>)
    requires LexOk(lex) && !(Next(lex, s).Tok? && accept(m, Next(lex, s).token).Go?)
    ensures var r := Run(accept, m, lex, s);
      Run(accept, m, lex, s + t)
      == if r.ret == Continue then After(Run(accept, r.m, r.lex, s[r.k..] + t), r.k) else r
  {
    hide Next;
    NextBounds(lex, s);
    NextBounds(lex, s + t);
    NextResumes(lex, s, t);
    var n := Next(lex, s);
    if n.More? {
      NextBounds(n.lex, s[n.k..] + t);
      RunShift(accept, m, lex, s + t, n.lex, s[n.k..] + t, n.k);
    }
  }

  /** Up to the byte that is refused, a run is one that has used its input up. */
  lemma {:induction false} ErrorPrefix<M(!new)>(accept: (M, Token) -> Verdict<M>, m: M, lex: Lex, s: seq<byte>)
    requires LexOk(lex) && Run(accept, m, lex, s).ret == ParseError
    ensures var r := Run(accept, m, lex, s);
      Run(accept, m, lex, s[..r.k]) == Outcome(Continue, r.m, Header, r.k)
    decreases |s|
  {
    hide Next;
    NextBounds(lex, s);
    var n, r := Next(lex, s), Run(accept, m, lex, s);
    if n.Bad? {
      NothingMore(accept, m, s[..0]);
    } else {
      var m' := accept(m, n.token).m;
      ErrorPrefix(accept, m', Header, s[n.k..]);
      assert s == s[..r.k] + s[r.k..];
      NextResumes(lex, s[..r.k], s[r.k..]);
      NextBounds(lex, s[..r.k]);
      LexedPrefix(lex, s, r.k);
      assert s[..r.k][n.k..] == s[n.k..][..r.k - n.k];
    }
  }

  /** An object takes at least a byte, and without a byte nothing changes. */
  lemma RunMoves<M(!new)>(accept: (M, Token) -> Verdict<M>, m: M, lex: Lex, s: seq<byte>)
    requires LexOk(lex)
    ensures Run(accept, m, lex, s).ret == Success ==> Run(accept, m, lex, s).k > 0
    ensures Run(accept, m, lex, s).k == 0 ==> Run(accept, m, lex, s).m == m
  {
    hide Next;
    NextBounds(lex, s);
  }

  lemma NothingMore<M(!new)>(accept: (M, Token) -> Verdict<M>, m: M, s: seq<byte>)
    requires s == []
    ensures Run(accept, m, Header, s) == Outcome(Continue, m, Header, 0)
  {
  }

  /** Where lexing agrees up to a shift, so do the runs. */
  lemma RunShift<M(!new)>(
      accept: (M, Token) -> Verdict<M>, m: M, lex: Lex, s: seq<byte>, lex': Lex, s': seq<byte>, d: nat)
    requires LexOk(lex) && LexOk(lex') && d <= |s| && s' == s[d..]
    requires Next(lex, s) == Shift(Next(lex', s'), d)
    ensures Run(accept, m, lex, s) == After(Run(accept, m, lex', s'), d)
  {
    hide Next;
    NextBounds(lex, s);
    NextBounds(lex', s');
    var n := Next(lex', s');
    if n.Tok? && accept(m, n.token).Go? {
      RunGoes(accept, m, lex, s);
      RunGoes(accept, m, lex', s');
      assert s'[n.k..] == s[d + n.k..];
    }
  }

  /** Verdicts of the same kind, whose states are related: by `rel` if the run goes on, by `fin`
      if it is over. */
  ghost predicate MatchVerdict<A(!new), B(!new)>(
      rel: (A, B) -> bool, fin: (A, B) -> bool, v: Verdict<A>, w: Verdict<B>) {
    v.Go? == w.Go? && v.Done? == w.Done? && if v.Go? then rel(v.m, w.m) else fin(v.m, w.m)
  }

  /** Outcomes that agree on result, offset and lexer state, and whose states are related. */
  ghost predicate Match<A(!new), B(!new)>(
      rel: (A, B) -> bool, fin: (A, B) -> bool, r: Outcome<A>, q: Outcome<B>) {
    && r.ret == q.ret && r.lex == q.lex && r.k == q.k
    && if r.ret == Continue || r.ret == ParseError then rel(r.m, q.m) else fin(r.m, q.m)
  }

  /** Machines that answer related verdicts to every token run alike. */
  lemma {:induction false} Simulate<A(!new), B(!new)>(
      f: (A, Token) -> Verdict<A>, g: (B, Token) -> Verdict<B>, rel: (A, B) -> bool, fin: (A, B) -> bool,
      a: A, b: B, lex: Lex, s: seq<byte>)
    requires LexOk(lex) && rel(a, b)
    requires forall x: A, y: B, t: Token | rel(x, y) :: MatchVerdict(rel, fin, f(x, t), g(y, t))
    ensures Match(rel, fin, Run(f, a, lex, s), Run(g, b, lex, s))
    decreases |s|
  {
    hide Next;
    NextBounds(lex, s);
    var n := Next(lex, s);
    if n.Tok? {
      assert MatchVerdict(rel, fin, f(a, n.token), g(b, n.token));
      if f(a, n.token).Go? {
        Simulate(f, g, rel, fin, f(a, n.token).m, g(b, n.token).m, Header, s[n.k..]);
      }
    }
  }

  /** Whether a run over `s` gets to a point, k bytes on, where it expects a header byte. */
  ghost predicate ExpectsHeader<M(!new)>(accept: (M, Token) -> Verdict<M>, m: M, lex: Lex, s: seq<byte>, k: nat)
    requires LexOk(lex)
    decreases |s|
  {
    || (lex == Header && k == 0)
    || (var n := Next(lex, s);
        NextBounds(lex, s);
        n.Tok? && k >= n.k && accept(m, n.token).Go? && ExpectsHeader(accept, accept(m, n.token).m, Header, s[n.k..], k - n.k))
  }

  /** A run ends in an error exactly when it meets 0xc1 where it expects a header byte, and then
      the reported offset is that of the byte. */
  lemma {:induction false} ErrorIsC1<M(!new)>(accept: (M, Token) -> Verdict<M>, m: M, lex: Lex, s: seq<byte>, k: nat)
    requires LexOk(lex) && k < |s|
    ensures Run(accept, m, lex, s).ret == ParseError && Run(accept, m, lex, s).k == k
        <==> s[k] == 0xc1 && ExpectsHeader(accept, m, lex, s, k)
    decreases |s|
  {
    hide Next;
    NextBounds(lex, s);
    var n := Next(lex, s);
    if n.Tok? && accept(m, n.token).Go? && k >= n.k {
      assert s[n.k..][k - n.k] == s[k];
      ErrorIsC1(accept, accept(m, n.token).m, Header, s[n.k..], k - n.k);
    }
    if n.Tok? && lex == Header { NotC1(s); }
  }

  lemma NotC1(s: seq<byte>)
    requires Next(Header, s).Tok?
    ensures s != [] && s[0] != 0xc1
  {
  }

  // ----- the machine of the recursive reading -----

  /** A container being filled: `total` cells in all, the first of which are `items`. */
  datatype Frame = Frame(keyed: bool, total: nat, items: seq<Obj>)

  datatype Spec = Spec(stack: seq<Frame>, result: Option<Obj>)

  /** A finished object goes into the innermost container; a filled one is finished itself. */
  function Feed(stack: seq<Frame>, x: Obj): Verdict<Spec>
    decreases |stack|
  {
    if stack == [] then Done(Spec([], Some(x)))
    else
      var outer, f := stack[..|stack| - 1], stack[|stack| - 1];
      var items := f.items + [x];
      if |items| == f.total then Feed(outer, Group(f.keyed, items))
      else Go(Spec(outer + [f.(items := items)], None))
  }

  function AcceptSpec(m: Spec, t: Token): Verdict<Spec> {
    match t
    case Scalar(v) => Feed(m.stack, ObjectOf(v))
    case Open(keyed, n) =>
      if n == 0 then Feed(m.stack, Group(keyed, []))
      else Go(Spec(m.stack + [Frame(keyed, Cells(keyed, n), [])], None))
  }

  function RunSpec(stack: seq<Frame>, s: seq<byte>): Outcome<Spec> {
    Run(AcceptSpec, Spec(stack, None), Header, s)
  }

  /** Outcome `r` of a run over `s` that first reads object or objects `d` and then, if they were
      read, hands `x` to the containers `stack`. */
  ghost predicate Goes<T>(r: Outcome<Spec>, d: Decoded<T>, stack: seq<Frame>, x: Obj, s: seq<byte>) {
    match d
    case Short(lex, k) => r.ret == Continue && r.lex == lex && r.k == k
    case Refused(k) => r.ret == ParseError && r.k == k
    case Ok(_, k) =>
      k <= |s| &&
      match Feed(stack, x)
      case Done(m) => r == Outcome(Success, m, Header, k)
      case Go(m) => r == After(Run(AcceptSpec, m, Header, s[k..]), k)
      case Halt(m) => false
  }

  /** Reading one object from the input has the effect of running the machine over it. */
  lemma {:induction false} RunReads(stack: seq<Frame>, s: seq<byte>)
    ensures var d := Decode(s);
      Goes(RunSpec(stack, s), d, stack, if d.Ok? then d.value else Nil, s)
    decreases |s|, 0, 0
  {
    hide Next, Feed, DecodeItems;
    NextBounds(Header, s);
    var n := Next(Header, s);
    FeedDoesNotHalt(stack, if Decode(s).Ok? then Decode(s).value else Nil);
    if n.Tok? && n.token.Open? {
      var keyed, c := n.token.keyed, Cells(n.token.keyed, n.token.n);
      if c == 0 {
        NoItems(s[n.k..]);
      } else {
        RunReadsItems(stack, Frame(keyed, c, []), s[n.k..]);
        var d := DecodeItems(c, s[n.k..]);
        if d.Ok? {
          assert [] + d.value == d.value;
          assert s[n.k..][d.k..] == s[n.k + d.k..];
        }
      }
    }
  }

  lemma {:induction false} FeedDoesNotHalt(stack: seq<Frame>, x: Obj)
    ensures !Feed(stack, x).Halt?
    ensures Feed(stack, x).Go? ==> Feed(stack, x).m.result == None
    decreases |stack|
  {
    if stack != [] {
      var f := stack[|stack| - 1];
      FeedDoesNotHalt(stack[..|stack| - 1], Group(f.keyed, f.items + [x]));
    }
  }

  /** As RunReads, for what is still missing in container `f` within the containers `stack`. */
  lemma {:induction false} RunReadsItems(stack: seq<Frame>, f: Frame, s: seq<byte>)
    requires |f.items| < f.total
    ensures var d := DecodeItems(f.total - |f.items|, s);
      Goes(RunSpec(stack + [f], s), d, stack, Group(f.keyed, f.items + if d.Ok? then d.value else []), s)
    decreases |s|, 1, f.total - |f.items|
  {
    hide Next, Decode, RunSpec, Feed, Run;
    var n := f.total - |f.items|;
    RunReads(stack + [f], s);
    var d := Decode(s);
    if d.Ok? {
      var f' := f.(items := f.items + [d.value]);
      FeedInner(stack, f, d.value);
      if n == 1 {
        assert f.items + ([d.value] + []) == f'.items;
      } else {
        RunReadsItems(stack, f', s[d.k..]);
        RunSpecIs(stack + [f'], s[d.k..]);
        GoesLater(stack, f, d.value, d.k, s);
      }
    }
  }

  /** One item read, the others behind it. */
  lemma GoesLater(stack: seq<Frame>, f: Frame, x: Obj, k: nat, s: seq<byte>)
    requires k <= |s| && |f.items| + 1 < f.total && Decode(s) == Ok(x, k)
    requires var f', e := f.(items := f.items + [x]), DecodeItems(f.total - |f.items| - 1, s[k..]);
      Goes(RunSpec(stack + [f'], s[k..]), e, stack, Group(f.keyed, f'.items + if e.Ok? then e.value else []), s[k..])
    ensures var f', d := f.(items := f.items + [x]), DecodeItems(f.total - |f.items|, s);
      Goes(After(RunSpec(stack + [f'], s[k..]), k), d, stack, Group(f.keyed, f.items + if d.Ok? then d.value else []), s)
  {
    hide Next, Decode, RunSpec, Feed, Run;
    var e := DecodeItems(f.total - |f.items| - 1, s[k..]);
    if e.Ok? {
      assert (f.items + [x]) + e.value == f.items + ([x] + e.value);
      assert s[k..][e.k..] == s[k + e.k..];
    }
  }

  lemma RunSpecIs(stack: seq<Frame>, s: seq<byte>)
    ensures RunSpec(stack, s) == Run(AcceptSpec, Spec(stack, None), Header, s)
  {
  }

  lemma FeedInner(stack: seq<Frame>, f: Frame, x: Obj)
    ensures Feed(stack + [f], x) ==
      if |f.items| + 1 == f.total then Feed(stack, Group(f.keyed, f.items + [x]))
      else Go(Spec(stack + [f.(items := f.items + [x])], None))
  {
    assert (stack + [f])[..|stack|] == stack;
  }
}
