/** v1's bottom-up context, in place, and what all three parsers have in common. */
module MsgPackUnpackV1 {
  import opened Bytes
  import opened Options
  import opened MsgPackFormat
  import opened MsgPackLexer
  import opened MsgPackDecode
  import opened MsgPackMeaning
  import opened MsgPackMachine
  import opened MsgPackUnpackers
  import opened MsgPackVisitor
  import opened MsgPackParser

  class ContextV1 {
    var stack: seq<Level>
    var lex: Lex

    constructor ()
      ensures stack == [BLANK_LEVEL] && lex == Header
    {
      stack := [BLANK_LEVEL];
      lex := Header;
    }

    ghost function View(): V1
      reads this
    {
      V1(stack)
    }

    /** push_item: `x` goes into the container above; a container that is thereby complete is the
        next x. */
    method PushItemInPlace(x: Obj) returns (x': Obj, ret: int)
      requires |stack| >= 1
      modifies this`stack
      ensures (stack, x', ret) == PushItem(old(stack), x)
    {
      x' := x;
      while |stack| > 1
        invariant |stack| >= 1
        invariant PushItem(stack, x') == PushItem(old(stack), x)
        decreases |stack|
      {
        var n := |stack| - 2;
        var sp := stack[n];
        if sp.ct == MapKey {
          stack := stack[n := sp.(key := x', ct := MapValue)];
          return x', 0;
        }
        var obj := WithItems(sp.obj, if sp.ct == ArrayItem then [x'] else [sp.key, x']);
        var count := if sp.count == 0 then 0 else sp.count - 1;
        if count == 0 {
          stack := stack[..n] + [sp.(obj := obj, count := 0)];
          x' := obj;
        } else {
          stack := stack[n := sp.(obj := obj, count := count, ct := if sp.ct == ArrayItem then ArrayItem else MapKey)];
          return x', 0;
        }
      }
      ret := 1;
    }

    /** push_proc */
    method PushProcInPlace(x: Obj, current: nat) returns (ret: Ret, current': nat)
      requires |stack| >= 1
      modifies this
      ensures Said(PushProc(old(stack), x), ret != Continue, ret, View())
      ensures |stack| >= 1 && current' == current + 1 && (ret == Continue ==> lex == Header)
    {
      var x', r := PushItemInPlace(x);
      current' := current + 1;
      if r > 0 {
        stack := stack[0 := stack[0].(obj := x')];
        ret := Success;
      } else {
        lex := Header;
        ret := Continue;
      }
    }

    /** push_aggregate */
    method PushAggregate(keyed: bool, n: nat, current: nat) returns (ret: Ret, current': nat)
      requires |stack| >= 1
      modifies this
      ensures Said(AcceptV1(old(View()), Open(keyed, n)), ret != Continue, ret, View())
      ensures |stack| >= 1 && current' == current + 1 && (ret == Continue ==> lex == Header)
    {
      var top := |stack| - 1;
      stack := stack[top := stack[top].(obj := Group(keyed, []))];
      if n == 0 {
        ret, current' := PushProcInPlace(stack[top].obj, current);
      } else {
        stack := stack[top := stack[top].(ct := if keyed then MapKey else ArrayItem, count := n)];
        stack := stack + [BLANK_LEVEL];
        lex := Header;
        ret, current' := Continue, current + 1;
      }
    }

    method Act(t: Token, current: nat) returns (ret: Ret, current': nat)
      requires |stack| >= 1
      modifies this
      ensures Said(AcceptV1(old(View()), t), ret != Continue, ret, View())
      ensures |stack| >= 1 && current' == current + 1 && (ret == Continue ==> lex == Header)
    {
      match t
      case Scalar(v) => ret, current' := PushProcInPlace(ObjectOf(v), current);
      case Open(keyed, n) => ret, current' := PushAggregate(keyed, n, current);
    }

    twostate predicate Turned(data: seq<byte>, at: nat, ret: Ret, over: bool, current': int, again: bool, k: nat)
      requires at <= |data|
      reads this
    {
      && |stack| >= 1
      && Part(AcceptV1, old(View()), old(lex), data[at..], over, ret, View(), lex, k)
      && (again ==> !over && lex != Header)
      && (!again && !over ==> lex == Header)
      && current' == if again then at + k - 1 else at + k
    }

    method OnHeader(data: seq<byte>, current: nat) returns (ret: Ret, over: bool, current': nat, again: bool, ghost k: nat)
      requires current < |data| && lex == Header && |stack| >= 1
      modifies this
      ensures Turned(data, current, ret, over, current', again, k) && (over || k == 1)
    {
      ghost var s, m := data[current..], View();
      HeaderChoice(s);
      match Choose(data[current])
      case Now(t) =>
        ret, current' := Act(t, current);
        over, again, k := ret != Continue, false, 1;
        TokenPart(AcceptV1, m, Header, s, t, 1, over, ret, View(), lex);
      case Wait(l) =>
        lex := l;
        ret, over, current', again, k := Continue, false, current, true, 1;
        BytesPart(AcceptV1, m, Header, s, l, 1);
      case Refuse =>
        ret, over, current', again, k := ParseError, true, current, false, 0;
    }

    method OnTrail(data: seq<byte>, at: nat) returns (ret: Ret, over: bool, current': nat, again: bool, ghost k: nat)
      requires at <= |data| && lex != Header && LexOk(lex) && |stack| >= 1
      modifies this
      ensures Turned(data, at, ret, over, current', again, k) && (over || k > 0)
    {
      ghost var s, m, l := data[at..], View(), lex;
      var need := Needed(lex);
      TrailChoice(lex, s);
      if |data| - at < need {
        return Continue, true, at, false, 0;
      }
      assert s[..need] == data[at..at + need];
      var choice := Interpret(lex, data[at..at + need]);
      match choice {
        case Now(t) =>
          ret, current' := Act(t, at + need - 1);
          over, again, k := ret != Continue, false, need;
          TokenPart(AcceptV1, m, l, s, t, need, over, ret, View(), lex);
        case Wait(body) =>
          lex := body;
          ret, over, current', again, k := Continue, false, at + need - 1, true, need;
          BytesPart(AcceptV1, m, l, s, body, need);
      }
    }

    /** execute of v1/unpack.hpp; 1, 0 and -1 are Success, Continue and ParseError. */
    method Execute(data: seq<byte>, off: nat) returns (ret: Ret, off': nat)
      requires off <= |data| && LexOk(lex) && |stack| >= 1
      modifies this
      ensures var r := Run(AcceptV1, old(View()), old(lex), data[off..]);
        && ret == r.ret && View() == r.m
        && (ret == Continue ==> lex == r.lex)
        && off' == off + r.k
    {
      hide Run, Part, PushProc;
      ghost var s, m, l := data[off..], View(), lex;
      var current, again, over := off, false, false;
      ghost var at := off;
      PartStart(AcceptV1, m, l, s);
      if current == |data| {
        PartEnd(AcceptV1, m, l, s, m, l, 0);
        return Continue, off;
      }
      while true
        invariant off <= at <= |data| && current < |data| && |stack| >= 1
        invariant at == if again then current + 1 else current
        invariant LexOk(lex) && (again ==> lex != Header)
        invariant Part(AcceptV1, m, l, s, false, Continue, View(), lex, at - off)
        decreases |data| - at, lex != Header && !again
      {
        var current': nat;
        ghost var k: nat;
        ghost var m1, l1 := View(), lex;
        assert s[at - off..] == data[at..];
        if lex == Header {
          ret, over, current', again, k := OnHeader(data, current);
        } else {
          if again { current := current + 1; }
          ret, over, current', again, k := OnTrail(data, current);
        }
        Parts(AcceptV1, m, l, s, m1, l1, at - off, over, ret, View(), lex, k);
        if over {
          PartOver(AcceptV1, m, l, s, ret, View(), lex, at - off + k);
          return ret, current';
        }
        at := at + k;
        current := current';
        if !again && current == |data| {
          PartEnd(AcceptV1, m, l, s, View(), Header, at - off);
          return Continue, current;
        }
      }
    }
  }

  // ----- the three parsers agree -----

  const V1_START: V1 := V1([BLANK_LEVEL])
  const V2_START: V2 := V2([], [])

  function RetOf(d: Decoded<Obj>): Ret {
    match d case Ok(_, _) => Success case Refused(_) => ParseError case Short(_, _) => Continue
  }

  lemma AllMatch(s: seq<byte>)
    ensures Match(SameV1, SameResultV1, RunSpec([], s), Run(AcceptV1, V1_START, Header, s))
    ensures Match(SameV2, SameResultV2, RunSpec([], s), Run(Accepting(NeverStops()), V2_START, Header, s))
  {
    forall x: Spec, y: V1, t: Token | SameV1(x, y) ensures MatchVerdict(SameV1, SameResultV1, AcceptSpec(x, t), AcceptV1(y, t)) {
      V1Step(x, y, t);
    }
    Simulate(AcceptSpec, AcceptV1, SameV1, SameResultV1, Spec([], None), V1_START, Header, s);
    forall x: Spec, y: V2, t: Token | SameV2(x, y)
      ensures MatchVerdict(SameV2, SameResultV2, AcceptSpec(x, t), Accepting(NeverStops())(y, t)) {
      V2Step(x, y, t);
    }
    assert SameV2(Spec([], None), V2_START);
    Simulate(AcceptSpec, Accepting(NeverStops()), SameV2, SameResultV2, Spec([], None), V2_START, Header, s);
  }

  /** On every input the bottom-up parser, and the visitor parsers with create_object_visitor, end
      as the recursive reading of the input does: with the same result, at the same offset, and
      on success with the same object, in v1's first level and in the visitor's m_obj. */
  lemma ParsersAgree(s: seq<byte>)
    ensures var d := Decode(s);
      var r1, r2 := Run(AcceptV1, V1_START, Header, s), Run(Accepting(NeverStops()), V2_START, Header, s);
      && r1.ret == r2.ret == RetOf(d) && r1.k == r2.k == d.k && r1.lex == r2.lex
      && (d.Ok? ==> r1.m.stack != [] && r1.m.stack[0].obj == d.value && Holds(BuildOf(r2.m.events).cells, 0, d.value))
  {
    hide Run, Decode, Holds, SameV1, SameV2, BuildOf, Accepting, AcceptSpec;
    AllMatch(s);
    RunReads([], s);
  }

  /** Results of parse_imp. */
  datatype Parsing = ParsedAll | ExtraBytes | Insufficient | Failed

  /** parse_imp of v2/parse.hpp with create_object_visitor: one object from `off` on. The offset
      moves unless the input is refused. A spelling of an object at `off` gives the object. */
  method ParseImp(data: seq<byte>, off: nat, late: bool) returns (ret: Parsing, off': nat, cells: seq<Cell>)
    ensures |data| <= off ==> ret == Insufficient && off' == off
    ensures off < |data| ==>
      var d := Decode(data[off..]);
      && (d.Ok? ==> ret == (if off + d.k < |data| then ExtraBytes else ParsedAll) && off' == off + d.k && Holds(cells, 0, d.value))
      && (d.Short? ==> ret == Insufficient && off' == off + d.k)
      && (d.Refused? ==> ret == Failed && off' == off)
    ensures forall j, x | off < j <= |data| && Denotes(data[off..j], x) ::
      ret == (if j < |data| then ExtraBytes else ParsedAll) && off' == j && Holds(cells, 0, x)
  {
    hide Run, Decode, Holds, BuildOf, Accepting, Denotes;
    forall j, x | off < j <= |data| && Denotes(data[off..j], x) ensures Decode(data[off..]) == Ok(x, j - off) {
      DenotedIsRead(data[off..j], data[j..], x);
      assert data[off..] == data[off..j] + data[j..];
    }
    if |data| <= off { return Insufficient, off, []; }
    var visitor := new ObjectVisitor(NeverStops());
    var context := new Context(late, visitor);
    ParsersAgree(data[off..]);
    var r, noff := context.Execute(data, off);
    cells := visitor.cells;
    if r == Continue {
      ret, off' := Insufficient, noff;
    } else if r == Success {
      ret, off' := if noff < |data| then ExtraBytes else ParsedAll, noff;
    } else {
      ret, off' := Failed, off;
    }
  }
}
