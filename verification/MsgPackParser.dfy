/** The visitor parsers, v2 and v3: contexts whose execute method changes state, stack and
    position in place, and ends as MsgPackMachine.Run says. */
module MsgPackParser {
  import opened Bytes
  import opened MsgPackFormat
  import opened MsgPackLexer
  import opened MsgPackMachine
  import opened MsgPackUnpackers
  import opened MsgPackDecode
  import opened MsgPackVisitor

  /** The offset v3 reports when the last call stopped it is one less than v2's, unless that call
      announced an item: v3 moves on only after the calls that end something. */
  function Back(events: seq<Event>): nat {
    if events == [] then 0
    else match events[|events| - 1] case StartArrayItem => 0 case StartMapKey => 0 case StartMapValue => 0 case _ => 1
  }

  /** A part of a run over `s` that went over k bytes and left (m, lex): either the run is over
      with result ret, or it goes on from there. */
  ghost predicate Part<M(!new)>(
      accept: (M, Token) -> Verdict<M>, m: M, lex: Lex, s: seq<byte>,
      over: bool, ret: Ret, m': M, lex': Lex, k: nat)
  {
    && LexOk(lex) && k <= |s| && (ret == Continue ==> LexOk(lex'))
    && var r := Run(accept, m, lex, s);
       if over then r.ret == ret && r.m == m' && r.k == k && (ret == Continue ==> r.lex == lex')
       else ret == Continue && r == After(Run(accept, m', lex', s[k..]), k)
  }

  ghost predicate Said<M(!new)>(v: Verdict<M>, over: bool, ret: Ret, m': M) {
    match v
    case Go(m) => !over && ret == Continue && m == m'
    case Done(m) => over && ret == Success && m == m'
    case Halt(m) => over && ret == StopVisitor && m == m'
  }

  /** A token has been read and the machine has answered it. */
  lemma TokenPart<M(!new)>(
      accept: (M, Token) -> Verdict<M>, m: M, lex: Lex, s: seq<byte>, t: Token, k: nat,
      over: bool, ret: Ret, m': M, lex': Lex)
    requires LexOk(lex) && k <= |s| && Next(lex, s) == Tok(t, k) && Said(accept(m, t), over, ret, m')
    requires over || lex' == Header
    ensures Part(accept, m, lex, s, over, ret, m', lex', k)
  {
    hide Next;
  }

  /** Some bytes of a token have been read. */
  lemma BytesPart<M(!new)>(
      accept: (M, Token) -> Verdict<M>, m: M, lex: Lex, s: seq<byte>, lex': Lex, k: nat)
    requires LexOk(lex) && LexOk(lex') && k <= |s| && Next(lex, s) == Shift(Next(lex', s[k..]), k)
    ensures Part(accept, m, lex, s, false, Continue, m, lex', k)
  {
    RunShift(accept, m, lex, s, lex', s[k..], k);
  }

  lemma Parts<M(!new)>(
      accept: (M, Token) -> Verdict<M>, m: M, lex: Lex, s: seq<byte>, m1: M, lex1: Lex, k: nat,
      over: bool, ret: Ret, m2: M, lex2: Lex, j: nat)
    requires Part(accept, m, lex, s, false, Continue, m1, lex1, k)
    requires Part(accept, m1, lex1, s[k..], over, ret, m2, lex2, j)
    ensures Part(accept, m, lex, s, over, ret, m2, lex2, k + j)
  {
    assert s[k..][j..] == s[k + j..];
  }

  /** On a header byte. */
  lemma HeaderChoice(s: seq<byte>)
    requires s != []
    ensures match Choose(s[0])
      case Now(t) => Next(Header, s) == Tok(t, 1)
      case Wait(lex) => Next(Header, s) == Shift(Next(lex, s[1..]), 1)
      case Refuse => Next(Header, s) == Bad(0)
  {
  }

  /** On trailing bytes. */
  lemma TrailChoice(lex: Lex, s: seq<byte>)
    requires LexOk(lex) && lex != Header
    ensures |s| < Needed(lex) ==> Next(lex, s) == More(lex, 0)
    ensures |s| >= Needed(lex) ==>
      match Interpret(lex, s[..Needed(lex)])
      case Now(t) => Next(lex, s) == Tok(t, Needed(lex))
      case Wait(body) => Next(lex, s) == Shift(Next(body, s[Needed(lex)..]), Needed(lex))
      case Refuse => false
  {
  }

  /** With the default reference function these leave a pointer into the buffer. */
  predicate Refers(e: Event) { e.Visit? && (e.v.VisitStr? || e.v.VisitBin? || e.v.VisitExt?) }

  /** create_object_visitor. It also keeps the calls made on it, and what the calls return is left
      open: `stop` decides. */
  class ObjectVisitor {
    var cells: seq<Cell>
    var cursors: seq<nat>
    var events: seq<Event>
    const stop: Visitor
    var referenced: bool
    ghost var clearedAt: nat

    constructor (stop: Visitor)
      ensures Valid() && events == [] && !referenced && this.stop == stop
    {
      cells := [Blank];
      cursors := [0];
      events := [];
      referenced := false;
      clearedAt := 0;
      this.stop := stop;
    }

    /** A string, binary or extension visited since m_referenced was cleared points into the
        parser's buffer. */
    ghost predicate PointsIntoBuffer()
      reads this
    {
      exists i | clearedAt <= i < |events| :: Refers(events[i])
    }

    /** Calls are added; without one, m_referenced stays, and it is not cleared. */
    twostate predicate OnlyMore()
      reads this
    {
      && |old(events)| <= |events| && (|events| == |old(events)| ==> referenced == old(referenced))
      && (old(referenced) ==> referenced)
    }

    ghost predicate Valid()
      reads this
    {
      Build(cells, cursors) == BuildOf(events) && (PointsIntoBuffer() ==> referenced)
    }

    /** init: m_stack keeps its first entry, m_obj is a new object; m_referenced stays. */
    method Init()
      modifies this`cells, this`cursors, this`events, this`clearedAt
      ensures Valid() && events == []
    {
      cells := [Blank];
      cursors := [0];
      events := [];
      clearedAt := 0;
    }

    /** set_referenced(false) */
    method ClearReferenced()
      requires Valid()
      modifies this`referenced, this`clearedAt
      ensures Valid() && !referenced
    {
      referenced := false;
      clearedAt := |events|;
    }

    method PutObject(c: Cell)
      requires cursors != [] && cursors[|cursors| - 1] < |cells|
      modifies this`cells
      ensures Build(cells, cursors) == Write(old(Build(cells, cursors)), c)
    {
      cells := cells[cursors[|cursors| - 1] := c];
    }

    method OpenGroup(keyed: bool, n: nat)
      requires cursors != [] && cursors[|cursors| - 1] < |cells|
      modifies this`cells, this`cursors
      ensures Build(cells, cursors) == Allocate(old(Build(cells, cursors)), keyed, n)
    {
      var block := |cells|;
      PutObject(Node(keyed, block, Cells(keyed, n)));
      cells := cells + seq(Cells(keyed, n), _ => Blank);
      cursors := cursors + [block];
    }

    method StepOn()
      requires cursors != []
      modifies this`cursors
      ensures Build(cells, cursors) == Advance(old(Build(cells, cursors)))
    {
      var last := |cursors| - 1;
      cursors := cursors[last := cursors[last] + 1];
    }

    method Call(e: Event) returns (ok: bool)
      requires Valid()
      modifies this`cells, this`cursors, this`events, this`referenced
      ensures Valid() && events == old(events) + [e] && ok == !stop(events)
      ensures referenced == (old(referenced) || Refers(e))
    {
      BuildMore(events, e);
      var pointed := cursors != [] && cursors[|cursors| - 1] < |cells|;
      match e {
        case Visit(v) => if pointed { PutObject(Leaf(ObjectOf(v))); }
        case StartGroup(keyed, n) => if pointed { OpenGroup(keyed, n); }
        case EndGroup(_) => if cursors != [] { cursors := cursors[..|cursors| - 1]; }
        case EndArrayItem => if cursors != [] { StepOn(); }
        case EndMapKey => if cursors != [] { StepOn(); }
        case EndMapValue => if cursors != [] { StepOn(); }
        case StartArrayItem =>
        case StartMapKey =>
        case StartMapValue =>
      }
      if Refers(e) { referenced := true; }
      events := events + [e];
      ok := !stop(events);
    }
  }

  /** context of v2/parse.hpp, or of v3/parse.hpp if `late`: v3 advances m_current after the calls
      on the visitor, v2 before. */
  class Context {
    const late: bool
    const visitor: ObjectVisitor
    var stack: seq<Elem>
    var lex: Lex

    constructor (late: bool, visitor: ObjectVisitor)
      ensures this.late == late && this.visitor == visitor && stack == [] && lex == Header
    {
      this.late := late;
      this.visitor := visitor;
      stack := [];
      lex := Header;
    }

    /** init */
    method Init()
      modifies this`stack, this`lex, visitor`cells, visitor`cursors, visitor`events, visitor`clearedAt
      ensures visitor.Valid() && stack == [] && lex == Header && visitor.events == []
    {
      lex := Header;
      stack := [];
      visitor.Init();
    }

    ghost function View(): V2
      reads this`stack, visitor`events
    {
      V2(stack, visitor.events)
    }

    /** Where the visitor's stop leaves m_current, e being the end of the token. */
    function Stopped(e: nat): int
      reads this, visitor
    {
      if late then e - Back(visitor.events) else e
    }

    /** The call that ends the item at the top of the stack. */
    method EndItem() returns (ok: bool)
      requires visitor.Valid() && stack != []
      modifies visitor`cells, visitor`cursors, visitor`events, visitor`referenced
      ensures visitor.Valid() && visitor.OnlyMore() && ok == !visitor.stop(visitor.events)
      ensures visitor.events == old(visitor.events) + [
        match stack[|stack| - 1].ct case ArrayItem => EndArrayItem case MapKey => EndMapKey case MapValue => EndMapValue]
    {
      match stack[|stack| - 1].ct {
        case ArrayItem => ok := visitor.Call(EndArrayItem);
        case MapKey => ok := visitor.Call(EndMapKey);
        case MapValue => ok := visitor.Call(EndMapValue);
      }
    }

    /** The loop body of consume: `over` unless a container has ended. */
    method ConsumeTurn(current: int) returns (ret: Ret, over: bool, current': int)
      requires visitor.Valid() && stack != []
      modifies this`stack, visitor`cells, visitor`cursors, visitor`events, visitor`referenced
      ensures visitor.Valid() && visitor.OnlyMore()
      ensures ret == Continue || ret == StopVisitor
      ensures over ==> Said(Consume(visitor.stop, old(View())), ret != Continue, ret, View())
      ensures !over ==> ret == Continue && |stack| < |old(stack)|
      ensures !over ==> Consume(visitor.stop, View()) == Consume(visitor.stop, old(View()))
      ensures current' == current - if late && ret == StopVisitor then Back(visitor.events) else 0
    {
      hide Handle, BuildOf, Accept;
      var n := |stack| - 1;
      var e := stack[n];
      ret, over, current' := Continue, true, current;
      var ok := EndItem();
      if !ok {
        return StopVisitor, true, if late then current - 1 else current;
      }
      if e.ct == MapKey {
        ok := visitor.Call(StartMapValue);
        if !ok { return StopVisitor, true, current; }
        stack := stack[n := e.(ct := MapValue)];
      } else if e.rest <= 1 {
        stack := stack[..n];
        ok := visitor.Call(EndGroup(e.ct == MapValue));
        if !ok { return StopVisitor, true, if late then current - 1 else current; }
        over := false;
      } else {
        stack := stack[n := Elem(if e.ct == ArrayItem then ArrayItem else MapKey, e.rest - 1)];
        ok := visitor.Call(if e.ct == ArrayItem then StartArrayItem else StartMapKey);
        if !ok { return StopVisitor, true, current; }
      }
    }

    /** unpack_stack::consume. In v3 it also moves `current` back when a call that ends something
        returns false. */
    method ConsumeStack(current: int) returns (ret: Ret, current': int)
      requires visitor.Valid()
      modifies this`stack, visitor`cells, visitor`cursors, visitor`events, visitor`referenced
      ensures visitor.Valid() && visitor.OnlyMore()
      ensures ret == Success || ret == Continue || ret == StopVisitor
      ensures Said(Consume(visitor.stop, old(View())), ret != Continue, ret, View())
      ensures current' == current - if late && ret == StopVisitor then Back(visitor.events) else 0
    {
      hide Handle, BuildOf, Accept, Back;
      current' := current;
      while stack != []
        invariant visitor.Valid() && visitor.OnlyMore() && current' == current
        invariant Consume(visitor.stop, View()) == Consume(visitor.stop, old(View()))
        decreases |stack|
      {
        var over: bool;
        ret, over, current' := ConsumeTurn(current);
        if over { return; }
      }
      ret := Success;
    }

    /** after_visit_proc, the token's last byte being at `current`. */
    method AfterVisit(v: Value, current: nat) returns (ret: Ret, current': int)
      requires visitor.Valid()
      modifies this, visitor`cells, visitor`cursors, visitor`events, visitor`referenced
      ensures visitor.Valid() && visitor.OnlyMore()
      ensures ret == Success || ret == Continue || ret == StopVisitor
      ensures Said(Accept(visitor.stop, old(View()), Scalar(v)), ret != Continue, ret, View())
      ensures current' == if ret == StopVisitor then Stopped(current + 1) else current + 1
      ensures ret == Continue ==> lex == Header
    {
      hide Handle, BuildOf, Consume;
      var ok := visitor.Call(Visit(v));
      if !ok {
        return StopVisitor, if late then current else current + 1;
      }
      ret, current' := ConsumeStack(current);
      current' := current' + 1;
      lex := Header;
    }

    /** start_aggregate */
    method StartAggregate(keyed: bool, n: nat, current: nat) returns (ret: Ret, current': int)
      requires visitor.Valid()
      modifies this, visitor`cells, visitor`cursors, visitor`events, visitor`referenced
      ensures visitor.Valid() && visitor.OnlyMore()
      ensures ret == Success || ret == Continue || ret == StopVisitor
      ensures Said(Accept(visitor.stop, old(View()), Open(keyed, n)), ret != Continue, ret, View())
      ensures current' == if ret == StopVisitor then Stopped(current + 1) else current + 1
      ensures ret == Continue ==> lex == Header
    {
      hide Handle, BuildOf, Consume;
      var ok := visitor.Call(StartGroup(keyed, n));
      if !ok {
        return StopVisitor, if late then current else current + 1;
      }
      if n == 0 {
        ok := visitor.Call(EndGroup(keyed));
        if !ok {
          return StopVisitor, if late then current else current + 1;
        }
        ret, current' := ConsumeStack(current);
        current' := current' + 1;
        if ret != Continue { return; }
      } else {
        stack := stack + [Elem(if keyed then MapKey else ArrayItem, n)];
        ok := visitor.Call(if keyed then StartMapKey else StartArrayItem);
        current' := current + 1;
        if !ok { return StopVisitor, current'; }
        ret := Continue;
      }
      lex := Header;
    }

    method Act(t: Token, current: nat) returns (ret: Ret, current': int)
      requires visitor.Valid()
      modifies this, visitor`cells, visitor`cursors, visitor`events, visitor`referenced
      ensures visitor.Valid() && visitor.OnlyMore()
      ensures ret == Success || ret == Continue || ret == StopVisitor
      ensures Said(Accept(visitor.stop, old(View()), t), ret != Continue, ret, View())
      ensures current' == if ret == StopVisitor then Stopped(current + 1) else current + 1
      ensures ret == Continue ==> lex == Header
    {
      match t
      case Scalar(v) => ret, current' := AfterVisit(v, current);
      case Open(keyed, n) => ret, current' := StartAggregate(keyed, n, current);
    }

    /** What one turn of the loop achieves from position `at`: `again` says that m_current is still
        on the last byte read, and k is the number of bytes read. */
    twostate predicate Turned(data: seq<byte>, at: nat, ret: Ret, over: bool, current': int, again: bool, k: nat)
      requires at <= |data|
      reads this, visitor
    {
      && Part(Accepting(visitor.stop), old(View()), old(lex), data[at..], over, ret, View(), lex, k)
      && (again ==> !over && lex != Header)
      && (!again && !over ==> lex == Header) && (ret == ParseError ==> lex == Header)
      && current' == (if ret == StopVisitor then Stopped(at + k) else if again then at + k - 1 else at + k)
    }

    /** The first half of the loop body: a header byte. */
    method OnHeader(data: seq<byte>, current: nat) returns (ret: Ret, over: bool, current': int, again: bool, ghost k: nat)
      requires visitor.Valid() && current < |data| && lex == Header
      modifies this, visitor`cells, visitor`cursors, visitor`events, visitor`referenced
      ensures visitor.Valid() && visitor.OnlyMore()
      ensures Turned(data, current, ret, over, current', again, k) && (over || k == 1)
    {
      ghost var s, acc, m := data[current..], Accepting(visitor.stop), View();
      HeaderChoice(s);
      match Choose(data[current])
      case Now(t) =>
        ret, current' := Act(t, current);
        over, again, k := ret != Continue, false, 1;
        TokenPart(acc, m, Header, s, t, 1, over, ret, View(), lex);
      case Wait(l) =>
        lex := l;
        ret, over, current', again, k := Continue, false, current, true, 1;
        BytesPart(acc, m, Header, s, l, 1);
      case Refuse =>
        ret, over, current', again, k := ParseError, true, current, false, 0;
    }

    /** The second half: the bytes a token is still waiting for, from `at` on. */
    method OnTrail(data: seq<byte>, at: nat) returns (ret: Ret, over: bool, current': int, again: bool, ghost k: nat)
      requires visitor.Valid() && at <= |data| && lex != Header && LexOk(lex)
      modifies this, visitor`cells, visitor`cursors, visitor`events, visitor`referenced
      ensures visitor.Valid() && visitor.OnlyMore()
      ensures Turned(data, at, ret, over, current', again, k) && (over || k > 0)
    {
      ghost var s, acc, m, l := data[at..], Accepting(visitor.stop), View(), lex;
      var need := Needed(lex);
      TrailChoice(lex, s);
      if |data| - at < need {
        return Continue, true, at, false, 0;
      }
      assert s[..need] == data[at..at + need];
      var choice := Interpret(lex, data[at..at + need]);
      match choice {
        case Now(t) =>
          ret, current' := Act(t, at + need - 1);
          over, again, k := ret != Continue, false, need;
          TokenPart(acc, m, l, s, t, need, over, ret, View(), lex);
        case Wait(body) =>
          lex := body;
          ret, over, current', again, k := Continue, false, at + need - 1, true, need;
          BytesPart(acc, m, l, s, body, need);
      }
    }

    /** The loop body: a header byte, or the bytes behind it. */
    method Turn(data: seq<byte>, current: nat, again: bool)
      returns (ret: Ret, over: bool, current': int, again': bool, ghost k: nat)
      requires visitor.Valid() && current < |data| && LexOk(lex) && (again ==> lex != Header)
      modifies this, visitor`cells, visitor`cursors, visitor`events, visitor`referenced
      ensures visitor.Valid() && visitor.OnlyMore()
      ensures Turned(data, if again then current + 1 else current, ret, over, current', again', k) && (over || k > 0)
    {
      if lex == Header {
        ret, over, current', again', k := OnHeader(data, current);
      } else {
        ret, over, current', again', k := OnTrail(data, if again then current + 1 else current);
      }
    }

    /** execute: parses `data` from `off` on, until an object is complete, the visitor stops, a byte
        is refused or the data are used up. */
    method Execute(data: seq<byte>, off: nat) returns (ret: Ret, off': int)
      requires visitor.Valid() && off <= |data| && LexOk(lex)
      modifies this, visitor`cells, visitor`cursors, visitor`events, visitor`referenced
      ensures visitor.Valid() && visitor.OnlyMore()
      ensures var r := Run(Accepting(visitor.stop), old(View()), old(lex), data[off..]);
        && ret == r.ret && View() == r.m
        && (ret == Continue ==> lex == r.lex) && (ret == ParseError ==> lex == Header)
        && off' == if ret == StopVisitor then Stopped(off + r.k) else off + r.k
    {
      hide Run, Part, Accepting, BuildOf, Handle;
      ghost var s, acc, m, l := data[off..], Accepting(visitor.stop), View(), lex;
      var current, again, over := off, false, false;
      ghost var at := off;
      PartStart(acc, m, l, s);
      if current == |data| {
        PartEnd(acc, m, l, s, m, l, 0);
        return Continue, off;
      }
      while true
        invariant visitor.Valid() && visitor.OnlyMore() && off <= at <= |data| && 0 <= current < |data|
        invariant at == if again then current + 1 else current
        invariant again ==> lex != Header
        invariant Part(acc, m, l, s, false, Continue, View(), lex, at - off)
        decreases |data| - at
      {
        ghost var k: nat;
        ghost var m1, l1 := View(), lex;
        PartIs(acc, m, l, s, m1, l1, at - off);
        assert s[at - off..] == data[at..];
        var current': int;
        ret, over, current', again, k := Turn(data, current, again);
        Parts(acc, m, l, s, m1, l1, at - off, over, ret, View(), lex, k);
        at := at + k;
        if over {
          PartOver(acc, m, l, s, ret, View(), lex, at - off);
          return ret, current';
        }
        current := current';
        PartIs(acc, m, l, s, View(), lex, at - off);
        if !again && current == |data| {
          PartEnd(acc, m, l, s, View(), Header, at - off);
          return Continue, current;
        }
      }
    }
  }

  lemma PartIs<M(!new)>(accept: (M, Token) -> Verdict<M>, m: M, lex: Lex, s: seq<byte>, m': M, lex': Lex, k: nat)
    requires Part(accept, m, lex, s, false, Continue, m', lex', k)
    ensures LexOk(lex') && k <= |s|
  {
  }

  lemma PartStart<M(!new)>(accept: (M, Token) -> Verdict<M>, m: M, lex: Lex, s: seq<byte>)
    requires LexOk(lex)
    ensures Part(accept, m, lex, s, false, Continue, m, lex, 0)
  {
    assert s[0..] == s;
  }

  lemma PartOver<M(!new)>(
      accept: (M, Token) -> Verdict<M>, m: M, lex: Lex, s: seq<byte>, ret: Ret, m': M, lex': Lex, k: nat)
    requires Part(accept, m, lex, s, true, ret, m', lex', k)
    ensures LexOk(lex)
    ensures var r := Run(accept, m, lex, s); r.ret == ret && r.m == m' && r.k == k && (ret == Continue ==> r.lex == lex')
  {
  }

  /** The input is used up. */
  lemma PartEnd<M(!new)>(accept: (M, Token) -> Verdict<M>, m: M, lex: Lex, s: seq<byte>, m': M, lex': Lex, k: nat)
    requires Part(accept, m, lex, s, false, Continue, m', lex', k) && k == |s|
    ensures LexOk(lex)
    ensures Run(accept, m, lex, s) == Outcome(Continue, m', lex', k)
  {
  }
}
