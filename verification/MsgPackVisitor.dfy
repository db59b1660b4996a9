/** create_object_visitor: objects built top-down in memory cells, through a stack of cursors. The
    cells hold, at the end of a parse, the object that MsgPackDecode.Decode reads. */
module MsgPackVisitor {
  import opened Bytes
  import opened Options
  import opened MsgPackFormat
  import opened MsgPackLexer
  import opened MsgPackDecode
  import opened MsgPackMachine
  import opened MsgPackUnpackers

  /** One msgpack::object in memory: not yet written, without children, or a container whose
      `total` children are the cells from `base` on. */
  datatype Cell = Blank | Leaf(x: Obj) | Node(keyed: bool, base: nat, total: nat)

  /** The memory in order of allocation, m_obj first, and m_stack, which points into it. */
  datatype Build = Build(cells: seq<Cell>, cursors: seq<nat>)

  const START: Build := Build([Blank], [0])

  function Top(b: Build): nat
    requires b.cursors != []
  {
    b.cursors[|b.cursors| - 1]
  }

  predicate CanWrite(b: Build) { b.cursors != [] && Top(b) < |b.cells| }

  function Write(b: Build, c: Cell): Build
    requires CanWrite(b)
  {
    b.(cells := b.cells[Top(b) := c])
  }

  function Pop(b: Build): Build
    requires b.cursors != []
  {
    b.(cursors := b.cursors[..|b.cursors| - 1])
  }

  /** ++m_stack.back() */
  function Advance(b: Build): Build
    requires b.cursors != []
  {
    b.(cursors := b.cursors[|b.cursors| - 1 := Top(b) + 1])
  }

  /** start_array and start_map: a block of cells, and a cursor to its first. */
  function Allocate(b: Build, keyed: bool, n: nat): Build
    requires CanWrite(b)
  {
    var w := Write(b, Node(keyed, |b.cells|, Cells(keyed, n)));
    Build(w.cells + seq(Cells(keyed, n), _ => Blank), w.cursors + [|b.cells|])
  }

  /** One call on the visitor. Calls the parsers never make leave it as it is. */
  function Handle(b: Build, e: Event): Build {
    match e
    case Visit(v) => if CanWrite(b) then Write(b, Leaf(ObjectOf(v))) else b
    case StartGroup(keyed, n) => if CanWrite(b) then Allocate(b, keyed, n) else b
    case EndGroup(_) => if b.cursors != [] then Pop(b) else b
    case EndArrayItem => if b.cursors != [] then Advance(b) else b
    case EndMapKey => if b.cursors != [] then Advance(b) else b
    case EndMapValue => if b.cursors != [] then Advance(b) else b
    case _ => b
  }

  /** The visitor after all the calls. */
  function BuildOf(events: seq<Event>): Build {
    if events == [] then START else Handle(BuildOf(events[..|events| - 1]), events[|events| - 1])
  }

  lemma BuildMore(events: seq<Event>, e: Event)
    ensures BuildOf(events + [e]) == Handle(BuildOf(events), e)
  {
    assert (events + [e])[..|events|] == events;
  }

  /** Cell c and what hangs below it is object x. */
  predicate Holds(cells: seq<Cell>, c: nat, x: Obj)
    decreases x
  {
    && c < |cells|
    && if x.Group? then
         && cells[c].Node? && cells[c].keyed == x.keyed && cells[c].total == |x.items|
         && forall i | 0 <= i < |x.items| :: Holds(cells, cells[c].base + i, x.items[i])
       else cells[c] == Leaf(x)
  }

  /** A cell is one object only. */
  lemma {:induction false} HoldsOne(cells: seq<Cell>, c: nat, x: Obj, y: Obj)
    requires Holds(cells, c, x) && Holds(cells, c, y)
    ensures x == y
    decreases x
  {
    if x.Group? {
      forall i | 0 <= i < |x.items| ensures x.items[i] == y.items[i] {
        HoldsOne(cells, cells[c].base + i, x.items[i], y.items[i]);
      }
    }
  }

  /** Written cells stay as they are. */
  predicate Extends(cells: seq<Cell>, more: seq<Cell>) {
    && |cells| <= |more|
    && forall c | 0 <= c < |cells| && cells[c] != Blank :: more[c] == cells[c]
  }

  lemma {:induction false} HoldsStill(cells: seq<Cell>, more: seq<Cell>, c: nat, x: Obj)
    requires Extends(cells, more) && Holds(cells, c, x)
    ensures Holds(more, c, x)
    decreases x
  {
    if x.Group? {
      forall i | 0 <= i < |x.items| ensures Holds(more, cells[c].base + i, x.items[i]) {
        HoldsStill(cells, more, cells[c].base + i, x.items[i]);
      }
    }
  }

  // ----- the containers under construction -----

  /** Container f of the reading machine: its own cell is c, the cursor into its block is at. */
  predicate Under(cells: seq<Cell>, f: Frame, c: nat, at: nat) {
    && c < |cells| && cells[c].Node? && cells[c].keyed == f.keyed && cells[c].total == f.total
    && c < cells[c].base && cells[c].base + f.total <= |cells|
    && at == cells[c].base + |f.items| && |f.items| < f.total
    && (forall i | 0 <= i < |f.items| :: Holds(cells, cells[c].base + i, f.items[i]))
    && (forall j | at < j < cells[c].base + f.total :: cells[j] == Blank)
  }

  predicate ElemIs(f: Frame, e: Elem) {
    && |f.items| < f.total
    && (if f.keyed then e.ct != ArrayItem else e.ct == ArrayItem)
    && match e.ct
       case ArrayItem => e.rest == f.total - |f.items|
       case MapKey => |f.items| % 2 == 0 && 2 * e.rest == f.total - |f.items|
       case MapValue => |f.items| % 2 == 1 && 2 * e.rest == f.total - |f.items| + 1
  }

  function Base(cells: seq<Cell>, c: nat): nat { if c < |cells| && cells[c].Node? then cells[c].base else 0 }

  function End(cells: seq<Cell>, c: nat): nat {
    if c < |cells| && cells[c].Node? then cells[c].base + cells[c].total else 0
  }

  /** The blocks of the containers lie behind one another, outermost first. */
  predicate Nested(cells: seq<Cell>, cursors: seq<nat>) {
    forall i, j | 0 <= i < j < |cursors| - 1 :: End(cells, cursors[i]) <= Base(cells, cursors[j])
  }

  /** Memory and parser stack stand for the containers of the reading machine; the innermost
      cursor is at the cell of the next object. */
  predicate Standing(stack: seq<Frame>, elems: seq<Elem>, b: Build) {
    && |elems| == |stack| && |b.cursors| == |stack| + 1 && b.cursors[0] == 0
    && CanWrite(b)
    && (forall i | 0 <= i < |stack| :: ElemIs(stack[i], elems[i]))
    && (forall i | 0 <= i < |stack| :: Under(b.cells, stack[i], b.cursors[i], b.cursors[i + 1]))
    && Nested(b.cells, b.cursors)
  }

  predicate SameV2(m: Spec, v: V2) {
    var b := BuildOf(v.events);
    Standing(m.stack, v.stack, b) && b.cells[Top(b)] == Blank
  }

  predicate SameResultV2(m: Spec, v: V2) { m.result.Some? && Holds(BuildOf(v.events).cells, 0, m.result.value) }

  // ----- writing the next object -----

  lemma UnderStill(cells: seq<Cell>, more: seq<Cell>, f: Frame, c: nat, at: nat)
    requires Under(cells, f, c, at) && Extends(cells, more)
    requires forall j | at < j < cells[c].base + f.total :: more[j] == Blank
    ensures Under(more, f, c, at)
  {
    forall i | 0 <= i < |f.items| ensures Holds(more, more[c].base + i, f.items[i]) {
      HoldsStill(cells, more, cells[c].base + i, f.items[i]);
    }
  }

  /** The cell of the next object is in no other container's free part. */
  lemma TopIsApart(stack: seq<Frame>, elems: seq<Elem>, b: Build, i: nat)
    requires Standing(stack, elems, b) && i < |stack|
    ensures !(b.cursors[i + 1] < Top(b) < b.cells[b.cursors[i]].base + stack[i].total)
  {
    var n := |stack| - 1;
    assert Under(b.cells, stack[i], b.cursors[i], b.cursors[i + 1]);
    assert Under(b.cells, stack[n], b.cursors[n], b.cursors[n + 1]);
    if i < n { assert End(b.cells, b.cursors[i]) <= Base(b.cells, b.cursors[n]); }
  }

  /** Writing the next object's cell, and adding cells at the end, leave the containers standing. */
  lemma WriteStands(stack: seq<Frame>, elems: seq<Elem>, b: Build, more: seq<Cell>)
    requires Standing(stack, elems, b) && Extends(b.cells, more)
    requires forall j | 0 <= j < |b.cells| && j != Top(b) :: more[j] == b.cells[j]
    ensures Standing(stack, elems, b.(cells := more))
  {
    forall i | 0 <= i < |stack| ensures Under(more, stack[i], b.cursors[i], b.cursors[i + 1]) {
      TopIsApart(stack, elems, b, i);
      assert Under(b.cells, stack[i], b.cursors[i], b.cursors[i + 1]);
      UnderStill(b.cells, more, stack[i], b.cursors[i], b.cursors[i + 1]);
    }
    forall i, j | 0 <= i < j < |b.cursors| - 1 ensures End(more, b.cursors[i]) <= Base(more, b.cursors[j]) {
      assert Under(b.cells, stack[i], b.cursors[i], b.cursors[i + 1]);
      assert Under(b.cells, stack[j], b.cursors[j], b.cursors[j + 1]);
      assert End(b.cells, b.cursors[i]) <= Base(b.cells, b.cursors[j]);
    }
  }

  lemma PutStands(stack: seq<Frame>, elems: seq<Elem>, b: Build, c: Cell)
    requires Standing(stack, elems, b) && b.cells[Top(b)] == Blank
    ensures Standing(stack, elems, Write(b, c))
  {
    WriteStands(stack, elems, b, Write(b, c).cells);
  }

  /** A new container: its cell, and a block of free cells at the end. */
  lemma NewUnder(cells: seq<Cell>, c: nat, keyed: bool, n: nat, more: seq<Cell>)
    requires c < |cells| && n > 0
    requires more == cells[c := Node(keyed, |cells|, Cells(keyed, n))] + seq(Cells(keyed, n), _ => Blank)
    ensures Under(more, Frame(keyed, Cells(keyed, n), []), c, |cells|) && more[|cells|] == Blank
    ensures Base(more, c) == |cells|
  {
  }

  lemma AllocateStands(stack: seq<Frame>, elems: seq<Elem>, b: Build, keyed: bool, n: nat)
    requires Standing(stack, elems, b) && b.cells[Top(b)] == Blank && n > 0
    ensures var f, b' := Frame(keyed, Cells(keyed, n), []), Allocate(b, keyed, n);
      && Standing(stack + [f], elems + [Elem(if keyed then MapKey else ArrayItem, n)], b')
      && b'.cells[Top(b')] == Blank
  {
    hide Under, Holds, End, Base;
    var f, b' := Frame(keyed, Cells(keyed, n), []), Allocate(b, keyed, n);
    NewUnder(b.cells, Top(b), keyed, n, b'.cells);
    WriteStands(stack, elems, b, b'.cells);
    var w := b.(cells := b'.cells);
    var stack', d := stack + [f], |stack|;
    assert b'.cursors == b.cursors + [|b.cells|];
    forall i | 0 <= i < |stack'| ensures Under(b'.cells, stack'[i], b'.cursors[i], b'.cursors[i + 1]) {
      if i < d { assert Under(w.cells, stack[i], w.cursors[i], w.cursors[i + 1]); }
    }
    forall i, j | 0 <= i < j < |b'.cursors| - 1 ensures End(b'.cells, b'.cursors[i]) <= Base(b'.cells, b'.cursors[j]) {
      if j < d {
        assert End(w.cells, w.cursors[i]) <= Base(w.cells, w.cursors[j]);
      } else {
        assert Under(b.cells, stack[i], b.cursors[i], b.cursors[i + 1]);
        assert Under(w.cells, stack[i], w.cursors[i], w.cursors[i + 1]);
        SameEnd(b.cells, w.cells, stack[i], b.cursors[i], b.cursors[i + 1]);
      }
    }
  }

  /** A container's block stays within the memory there was. */
  lemma SameEnd(cells: seq<Cell>, more: seq<Cell>, f: Frame, c: nat, at: nat)
    requires Under(cells, f, c, at) && Extends(cells, more)
    ensures End(more, c) <= |cells|
  {
    hide Holds;
  }

  // ----- the next object is there -----

  /** One more item of a container that is not the last. */
  lemma AdvanceUnder(cells: seq<Cell>, f: Frame, c: nat, at: nat, x: Obj)
    requires Under(cells, f, c, at) && Holds(cells, at, x) && |f.items| + 1 < f.total
    ensures Under(cells, f.(items := f.items + [x]), c, at + 1)
    ensures at + 1 < |cells| && cells[at + 1] == Blank
  {
    hide Holds;
  }

  /** The last item of a container: its own cell holds it. */
  lemma LastUnder(cells: seq<Cell>, f: Frame, c: nat, at: nat, x: Obj)
    requires Under(cells, f, c, at) && Holds(cells, at, x) && |f.items| + 1 == f.total
    ensures c < |cells| && Holds(cells, c, Group(f.keyed, f.items + [x]))
  {
    var items := f.items + [x];
    forall i | 0 <= i < |items| ensures Holds(cells, cells[c].base + i, items[i]) { }
  }

  lemma InnermostUnder(stack: seq<Frame>, elems: seq<Elem>, b: Build)
    requires Standing(stack, elems, b) && stack != []
    ensures var n := |stack| - 1;
      |b.cursors| == n + 2 && Under(b.cells, stack[n], b.cursors[n], b.cursors[n + 1]) && Top(b) == b.cursors[n + 1]
  {
    hide Under;
  }

  /** Stepping on to the next cell of the innermost container. */
  lemma AdvanceStands(stack: seq<Frame>, elems: seq<Elem>, b: Build, x: Obj, e: Elem)
    requires Standing(stack, elems, b) && stack != [] && Holds(b.cells, Top(b), x)
    requires var f := stack[|stack| - 1]; |f.items| + 1 < f.total && ElemIs(f.(items := f.items + [x]), e)
    ensures var n := |stack| - 1; var f := stack[n].(items := stack[n].items + [x]);
      && Standing(stack[..n] + [f], elems[..n] + [e], Advance(b))
      && CanWrite(Advance(b)) && Advance(b).cells[Top(Advance(b))] == Blank
  {
    hide Under, Holds, ElemIs, End, Base;
    var n := |stack| - 1;
    var b', stack' := Advance(b), stack[..n] + [stack[n].(items := stack[n].items + [x])];
    InnermostUnder(stack, elems, b);
    AdvanceUnder(b.cells, stack[n], b.cursors[n], b.cursors[n + 1], x);
    assert b'.cursors == b.cursors[..n + 1] + [b.cursors[n + 1] + 1];
    forall i | 0 <= i < |stack'| ensures Under(b'.cells, stack'[i], b'.cursors[i], b'.cursors[i + 1]) {
      if i < n { assert Under(b.cells, stack[i], b.cursors[i], b.cursors[i + 1]); }
    }
    forall i, j | 0 <= i < j < |b'.cursors| - 1 ensures End(b'.cells, b'.cursors[i]) <= Base(b'.cells, b'.cursors[j]) {
      assert End(b.cells, b.cursors[i]) <= Base(b.cells, b.cursors[j]);
    }
  }

  /** The innermost container is full: its own cell holds it. */
  lemma PopStands(stack: seq<Frame>, elems: seq<Elem>, b: Build, x: Obj)
    requires Standing(stack, elems, b) && stack != [] && Holds(b.cells, Top(b), x)
    requires var f := stack[|stack| - 1]; |f.items| + 1 == f.total
    ensures var n := |stack| - 1; var f := stack[n];
      && Standing(stack[..n], elems[..n], Pop(Advance(b)))
      && Pop(Advance(b)).cursors != []
      && Holds(Pop(Advance(b)).cells, Top(Pop(Advance(b))), Group(f.keyed, f.items + [x]))
  {
    hide Under, Holds, ElemIs, End, Base;
    var n := |stack| - 1;
    var b' := Pop(Advance(b));
    InnermostUnder(stack, elems, b);
    LastUnder(b.cells, stack[n], b.cursors[n], b.cursors[n + 1], x);
    assert b'.cursors == b.cursors[..n + 1];
    forall i | 0 <= i < n ensures Under(b'.cells, stack[..n][i], b'.cursors[i], b'.cursors[i + 1]) {
      assert Under(b.cells, stack[i], b.cursors[i], b.cursors[i + 1]);
    }
    forall i, j | 0 <= i < j < |b'.cursors| - 1 ensures End(b'.cells, b'.cursors[i]) <= Base(b'.cells, b'.cursors[j]) {
      assert End(b.cells, b.cursors[i]) <= Base(b.cells, b.cursors[j]);
    }
  }

  /** What consume does with the stack's top element when it is not the last item. */
  function NextElem(e: Elem): Elem {
    match e.ct
    case ArrayItem => e.(rest := if e.rest > 0 then e.rest - 1 else 0)
    case MapKey => e.(ct := MapValue)
    case MapValue => Elem(MapKey, if e.rest > 0 then e.rest - 1 else 0)
  }

  lemma NextElemIs(f: Frame, e: Elem, x: Obj)
    requires ElemIs(f, e)
    ensures |f.items| + 1 < f.total ==> ElemIs(f.(items := f.items + [x]), NextElem(e)) && (e.ct == MapKey || e.rest > 1)
    ensures |f.items| + 1 == f.total ==> e.ct != MapKey && e.rest == 1 && (e.ct == MapValue <==> f.keyed)
  {
  }

  /** The calls that end an item, and those that start the next one. */
  function EndItem(ct: ContainerType): Event {
    match ct case ArrayItem => EndArrayItem case MapKey => EndMapKey case MapValue => EndMapValue
  }

  function StartItem(ct: ContainerType): Event {
    match ct case ArrayItem => StartArrayItem case MapKey => StartMapValue case MapValue => StartMapKey
  }

  lemma ConsumeLast(m: V2)
    requires m.stack != [] && m.stack[|m.stack| - 1].ct != MapKey && m.stack[|m.stack| - 1].rest <= 1
    ensures var n := |m.stack| - 1; var e := m.stack[n];
      var m' := V2(m.stack[..n], m.events + [EndItem(e.ct)] + [EndGroup(e.ct == MapValue)]);
      && Consume(NeverStops(), m) == Consume(NeverStops(), m')
      && (BuildOf(m.events).cursors != [] ==> BuildOf(m'.events) == Pop(Advance(BuildOf(m.events))))
  {
    var e := m.stack[|m.stack| - 1];
    BuildMore(m.events, EndItem(e.ct));
    BuildMore(m.events + [EndItem(e.ct)], EndGroup(e.ct == MapValue));
  }

  lemma ConsumeNext(m: V2)
    requires m.stack != [] && (m.stack[|m.stack| - 1].ct == MapKey || m.stack[|m.stack| - 1].rest > 1)
    ensures var n := |m.stack| - 1; var e := m.stack[n];
      var m' := V2(m.stack[..n] + [NextElem(e)], m.events + [EndItem(e.ct)] + [StartItem(e.ct)]);
      && Consume(NeverStops(), m) == Go(m')
      && (BuildOf(m.events).cursors != [] ==> BuildOf(m'.events) == Advance(BuildOf(m.events)))
  {
    var n := |m.stack| - 1;
    var e := m.stack[n];
    BuildMore(m.events, EndItem(e.ct));
    BuildMore(m.events + [EndItem(e.ct)], StartItem(e.ct));
    assert m.stack[n := NextElem(e)] == m.stack[..n] + [NextElem(e)];
  }

  lemma {:induction false} ConsumeIsFeed(stack: seq<Frame>, m: V2, x: Obj)
    requires var b := BuildOf(m.events); Standing(stack, m.stack, b) && Holds(b.cells, Top(b), x)
    ensures MatchVerdict(SameV2, SameResultV2, Feed(stack, x), Consume(NeverStops(), m))
    decreases |stack|
  {
    hide Standing, Holds, ElemIs, BuildOf, Consume, Advance, Pop, NextElem, Feed;
    var b := BuildOf(m.events);
    StandingSizes(stack, m.stack, b);
    if stack == [] {
      FeedNone(stack, x);
      ConsumeNone(m);
    } else {
      var n := |stack| - 1;
      var f := stack[n];
      NextElemIs(f, m.stack[n], x);
      assert stack == stack[..n] + [f];
      FeedInner(stack[..n], f, x);
      if |f.items| + 1 == f.total {
        ConsumeLast(m);
        PopStands(stack, m.stack, b, x);
        var e := m.stack[n];
        ConsumeIsFeed(stack[..n], V2(m.stack[..n], m.events + [EndItem(e.ct)] + [EndGroup(e.ct == MapValue)]),
                      Group(f.keyed, f.items + [x]));
      } else {
        ConsumeNext(m);
        AdvanceStands(stack, m.stack, b, x, NextElem(m.stack[n]));
      }
    }
  }

  lemma FeedNone(stack: seq<Frame>, x: Obj)
    requires |stack| == 0
    ensures Feed(stack, x) == Done(Spec(stack, Some(x)))
  {
  }

  lemma ConsumeNone(m: V2)
    requires |m.stack| == 0
    ensures Consume(NeverStops(), m) == Done(m)
  {
  }

  lemma StandingSizes(stack: seq<Frame>, elems: seq<Elem>, b: Build)
    requires Standing(stack, elems, b)
    ensures |elems| == |stack| && |b.cursors| == |stack| + 1 && b.cursors[0] == 0 && CanWrite(b)
    ensures forall i | 0 <= i < |stack| :: ElemIs(stack[i], elems[i]) && |stack[i].items| < stack[i].total
  {
  }

  lemma ScalarStep(m: Spec, v: V2, x: Value)
    requires SameV2(m, v)
    ensures MatchVerdict(SameV2, SameResultV2, Feed(m.stack, ObjectOf(x)), Accept(NeverStops(), v, Scalar(x)))
  {
    hide Standing, Feed, Consume, BuildOf, SameResultV2, ObjectOf;
    var b := BuildOf(v.events);
    StandingSizes(m.stack, v.stack, b);
    BuildMore(v.events, Visit(x));
    PutStands(m.stack, v.stack, b, Leaf(ObjectOf(x)));
    NoGroup(x);
    LeafHolds(b, ObjectOf(x));
    ConsumeIsFeed(m.stack, v.(events := v.events + [Visit(x)]), ObjectOf(x));
  }

  lemma NoGroup(x: Value)
    ensures !ObjectOf(x).Group?
  {
  }

  lemma LeafHolds(b: Build, x: Obj)
    requires CanWrite(b) && !x.Group?
    ensures var b' := Write(b, Leaf(x)); CanWrite(b') && Holds(b'.cells, Top(b'), x)
  {
  }

  lemma EmptyStep(m: Spec, v: V2, keyed: bool)
    requires SameV2(m, v)
    ensures MatchVerdict(SameV2, SameResultV2, Feed(m.stack, Group(keyed, [])), Accept(NeverStops(), v, Open(keyed, 0)))
  {
    hide Standing, Feed, Consume, BuildOf, SameResultV2, Holds;
    var b := BuildOf(v.events);
    StandingSizes(m.stack, v.stack, b);
    BuildMore(v.events, StartGroup(keyed, 0));
    BuildMore(v.events + [StartGroup(keyed, 0)], EndGroup(keyed));
    EmptyStands(m.stack, v.stack, b, keyed);
    ConsumeIsFeed(m.stack, v.(events := v.events + [StartGroup(keyed, 0)] + [EndGroup(keyed)]), Group(keyed, []));
  }

  lemma OpenStep(m: Spec, v: V2, keyed: bool, n: nat)
    requires SameV2(m, v) && n > 0
    ensures MatchVerdict(SameV2, SameResultV2, AcceptSpec(m, Open(keyed, n)), Accept(NeverStops(), v, Open(keyed, n)))
  {
    hide Standing, Feed, Consume, BuildOf, SameResultV2, Allocate, Holds;
    var b := BuildOf(v.events);
    StandingSizes(m.stack, v.stack, b);
    BuildMore(v.events, StartGroup(keyed, n));
    BuildMore(v.events + [StartGroup(keyed, n)], if keyed then StartMapKey else StartArrayItem);
    AllocateStands(m.stack, v.stack, b, keyed, n);
  }

  /** v2 with a visitor that never stops answers every token as the reading machine does. */
  lemma V2Step(m: Spec, v: V2, t: Token)
    requires SameV2(m, v)
    ensures MatchVerdict(SameV2, SameResultV2, AcceptSpec(m, t), Accept(NeverStops(), v, t))
  {
    hide SameV2, SameResultV2, Feed, Accept;
    match t
    case Scalar(x) => ScalarStep(m, v, x);
    case Open(keyed, n) => if n == 0 { EmptyStep(m, v, keyed); } else { OpenStep(m, v, keyed, n); }
  }

  lemma EmptyStands(stack: seq<Frame>, elems: seq<Elem>, b: Build, keyed: bool)
    requires Standing(stack, elems, b) && b.cells[Top(b)] == Blank
    ensures var b' := Pop(Allocate(b, keyed, 0));
      Standing(stack, elems, b') && Holds(b'.cells, Top(b'), Group(keyed, []))
  {
    var b' := Pop(Allocate(b, keyed, 0));
    assert b' == Write(b, Node(keyed, |b.cells|, 0));
    PutStands(stack, elems, b, Node(keyed, |b.cells|, 0));
  }
}
