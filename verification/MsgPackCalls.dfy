/** The calls that the parsers of v2 and v3 make on their visitor: for every object read they are
    its visiting order, item by item and level by level. */
module MsgPackCalls {
  import opened Bytes
  import opened Options
  import opened MsgPackFormat
  import opened MsgPackLexer
  import opened MsgPackDecode
  import opened MsgPackMachine
  import opened MsgPackUnpackers
  import opened MsgPackVisitor
  import opened MsgPackUnpackV1

  // ----- the visiting order -----

  /** The call for an object without items: numbers that are not negative count as positive ones. */
  function ValueFor(x: Obj): Value
    requires !x.Group?
  {
    match x
    case Nil => VisitNil
    case Bool(b) => VisitBoolean(b)
    case UInt(u) => VisitPositive(u)
    case NInt(i) => VisitNegative(i)
    case F32(bits) => VisitFloat32(bits)
    case F64(bits) => VisitFloat64(bits)
    case Str(s) => VisitStr(s)
    case Bin(s) => VisitBin(s)
    case Ext(s) => VisitExt(s)
  }

  /** The calls around item i of an array, or around the keys and values of a map. */
  function Before(keyed: bool, i: nat): Event {
    if !keyed then StartArrayItem else if i % 2 == 0 then StartMapKey else StartMapValue
  }

  function Behind(keyed: bool, i: nat): Event {
    if !keyed then EndArrayItem else if i % 2 == 0 then EndMapKey else EndMapValue
  }

  /** The visiting order of an object. */
  function Calls(x: Obj): seq<Event>
    decreases x, 0
  {
    match x
    case Group(keyed, items) =>
      [StartGroup(keyed, Announced(keyed, |items|))] + ItemCalls(keyed, items, |items|) + [EndGroup(keyed)]
    case _ => [Visit(ValueFor(x))]
  }

  /** That of the first n items of a container. */
  function ItemCalls(keyed: bool, items: seq<Obj>, n: nat): seq<Event>
    requires n <= |items|
    decreases items, n
  {
    if n == 0 then []
    else ItemCalls(keyed, items, n - 1) + ([Before(keyed, n - 1)] + Calls(items[n - 1]) + [Behind(keyed, n - 1)])
  }

  lemma {:induction false} ItemCallsPrefix(keyed: bool, items: seq<Obj>, x: Obj, n: nat)
    requires n <= |items|
    ensures ItemCalls(keyed, items + [x], n) == ItemCalls(keyed, items, n)
    decreases n
  {
    if n > 0 { ItemCallsPrefix(keyed, items, x, n - 1); }
  }

  lemma OneMoreItem(keyed: bool, items: seq<Obj>, x: Obj)
    ensures ItemCalls(keyed, items + [x], |items| + 1)
      == ItemCalls(keyed, items, |items|) + ([Before(keyed, |items|)] + Calls(x) + [Behind(keyed, |items|)])
  {
    ItemCallsPrefix(keyed, items, x, |items|);
  }

  // ----- the calls made -----

  /** A call by the object it is for. */
  function Plain(e: Event): Event {
    if e.Visit? then
      NoGroup(e.v);
      Visit(ValueFor(ObjectOf(e.v)))
    else e
  }

  function Plains(es: seq<Event>): (r: seq<Event>)
    ensures |r| == |es|
  {
    seq(|es|, i requires 0 <= i < |es| => Plain(es[i]))
  }

  lemma PlainsMore(es: seq<Event>, e: Event)
    ensures Plains(es + [e]) == Plains(es) + [Plain(e)]
  {
    hide Plain;
  }

  /** The calls for the containers under construction, up to the start of the next item. */
  function Opened(stack: seq<Frame>): seq<Event> {
    if stack == [] then []
    else
      var f := stack[|stack| - 1];
      Opened(stack[..|stack| - 1]) + ([StartGroup(f.keyed, Announced(f.keyed, f.total))]
        + ItemCalls(f.keyed, f.items, |f.items|) + [Before(f.keyed, |f.items|)])
  }

  lemma OpenedInner(stack: seq<Frame>, f: Frame)
    ensures Opened(stack + [f]) == Opened(stack) + ([StartGroup(f.keyed, Announced(f.keyed, f.total))]
      + ItemCalls(f.keyed, f.items, |f.items|) + [Before(f.keyed, |f.items|)])
  {
    assert (stack + [f])[..|stack|] == stack;
  }

  ghost predicate AllElems(stack: seq<Frame>, elems: seq<Elem>) {
    |elems| == |stack| && forall i | 0 <= i < |stack| :: ElemIs(stack[i], elems[i])
  }

  ghost predicate SameCalls(m: Spec, v: V2) { AllElems(m.stack, v.stack) && Plains(v.events) == Opened(m.stack) }

  ghost predicate SameFinalCalls(m: Spec, v: V2) { m.result.Some? && Plains(v.events) == Calls(m.result.value) }

  /** The item that is done, and what comes behind it. */
  lemma ItemDone(stack: seq<Frame>, f: Frame, e: Elem, x: Obj, es: seq<Event>)
    requires ElemIs(f, e) && Plains(es) == Opened(stack + [f]) + Calls(x)
    ensures var f' := f.(items := f.items + [x]);
      var es' := es + [EndItem(e.ct)];
      && Plains(es') == Opened(stack) + ([StartGroup(f.keyed, Announced(f.keyed, f.total))]
           + ItemCalls(f.keyed, f'.items, |f'.items|))
      && (|f'.items| < f.total ==> Plains(es' + [StartItem(e.ct)]) == Opened(stack + [f']))
      && (|f'.items| == f.total ==> Plains(es' + [EndGroup(f.keyed)]) == Opened(stack) + Calls(Group(f.keyed, f'.items)))
  {
    hide Plain, Plains, Opened, ItemCalls, ObjectOf;
    var f', es' := f.(items := f.items + [x]), es + [EndItem(e.ct)];
    OneMoreItem(f.keyed, f.items, x);
    OpenedInner(stack, f);
    OpenedInner(stack, f');
    PlainsMore(es, EndItem(e.ct));
    PlainsMore(es', StartItem(e.ct));
    PlainsMore(es', EndGroup(f.keyed));
    MarksArePlain(e.ct, f.keyed);
    assert EndItem(e.ct) == Behind(f.keyed, |f.items|) && StartItem(e.ct) == Before(f.keyed, |f'.items|);
  }

  lemma MarksArePlain(ct: ContainerType, keyed: bool)
    ensures Plain(EndItem(ct)) == EndItem(ct) && Plain(StartItem(ct)) == StartItem(ct) && Plain(EndGroup(keyed)) == EndGroup(keyed)
  {
  }

  lemma {:induction false} ConsumeCalls(stack: seq<Frame>, m: V2, x: Obj)
    requires AllElems(stack, m.stack) && Plains(m.events) == Opened(stack) + Calls(x)
    ensures MatchVerdict(SameCalls, SameFinalCalls, Feed(stack, x), Consume(NeverStops(), m))
    decreases |stack|
  {
    hide Plains, Opened, Calls, ElemIs, Consume, Feed, NextElem;
    if stack == [] {
      FeedNone(stack, x);
      ConsumeNone(m);
      assert Opened(stack) + Calls(x) == Calls(x) by { NothingOpened(); }
    } else {
      var n := |stack| - 1;
      var f, e := stack[n], m.stack[n];
      var f' := f.(items := f.items + [x]);
      assert stack == stack[..n] + [f];
      NextElemIs(f, e, x);
      FeedInner(stack[..n], f, x);
      ItemDone(stack[..n], f, e, x, m.events);
      ElemHasRoom(f, e);
      if |f'.items| == f.total {
        ConsumeLast(m);
        ConsumeCalls(stack[..n], V2(m.stack[..n], m.events + [EndItem(e.ct)] + [EndGroup(e.ct == MapValue)]),
                     Group(f.keyed, f'.items));
      } else {
        ConsumeNext(m);
      }
    }
  }

  lemma ElemHasRoom(f: Frame, e: Elem)
    requires ElemIs(f, e)
    ensures |f.items| < f.total
  {
  }

  lemma NothingOpened()
    ensures Opened([]) == []
  {
  }

  /** Every token is answered with the calls of the visiting order. */
  lemma CallsStep(m: Spec, v: V2, t: Token)
    requires SameCalls(m, v)
    ensures MatchVerdict(SameCalls, SameFinalCalls, AcceptSpec(m, t), Accept(NeverStops(), v, t))
  {
    hide Plains, Opened, ElemIs, Consume, Feed, ItemCalls, Plain;
    match t
    case Scalar(x) =>
      PlainsMore(v.events, Visit(x));
      PlainVisit(x);
      ConsumeCalls(m.stack, v.(events := v.events + [Visit(x)]), ObjectOf(x));
    case Open(keyed, n) =>
      var es := v.events + [StartGroup(keyed, n)];
      PlainsMore(v.events, StartGroup(keyed, n));
      PlainsMore(es, EndGroup(keyed));
      PlainsMore(es, Before(keyed, 0));
      StartsArePlain(keyed, n);
      if n == 0 {
        assert Calls(Group(keyed, [])) == [StartGroup(keyed, 0)] + [EndGroup(keyed)] by { EmptyCalls(keyed); }
        ConsumeCalls(m.stack, v.(events := es + [EndGroup(keyed)]), Group(keyed, []));
      } else {
        var f := Frame(keyed, Cells(keyed, n), []);
        OpenedInner(m.stack, f);
        assert ItemCalls(keyed, [], 0) == [] by { EmptyCalls(keyed); }
        NewElem(keyed, n);
      }
  }

  lemma PlainVisit(x: Value)
    ensures !ObjectOf(x).Group? && Plain(Visit(x)) == Visit(ValueFor(ObjectOf(x)))
    ensures Calls(ObjectOf(x)) == [Plain(Visit(x))]
  {
    NoGroup(x);
    SingleCall(ObjectOf(x));
  }

  lemma SingleCall(x: Obj)
    requires !x.Group?
    ensures Calls(x) == [Visit(ValueFor(x))]
  {
  }

  lemma StartsArePlain(keyed: bool, n: nat)
    ensures Plain(StartGroup(keyed, n)) == StartGroup(keyed, n) && Plain(EndGroup(keyed)) == EndGroup(keyed)
    ensures Plain(Before(keyed, 0)) == Before(keyed, 0)
  {
  }

  lemma EmptyCalls(keyed: bool)
    ensures ItemCalls(keyed, [], 0) == [] && Calls(Group(keyed, [])) == [StartGroup(keyed, 0)] + [EndGroup(keyed)]
  {
  }

  lemma NewElem(keyed: bool, n: nat)
    requires n > 0
    ensures ElemIs(Frame(keyed, Cells(keyed, n), []), Elem(if keyed then MapKey else ArrayItem, n))
    ensures Announced(keyed, Cells(keyed, n)) == n
  {
  }

  /** For every input that is read as an object, the visitor gets exactly the calls of the object's
      visiting order. */
  lemma VisitedInOrder(s: seq<byte>)
    requires Decode(s).Ok?
    ensures Plains(Run(Accepting(NeverStops()), V2_START, Header, s).m.events) == Calls(Decode(s).value)
  {
    hide Run, Decode, SameCalls, SameFinalCalls, Accepting, AcceptSpec, Plains, Calls;
    forall x: Spec, y: V2, t: Token | SameCalls(x, y)
      ensures MatchVerdict(SameCalls, SameFinalCalls, AcceptSpec(x, t), Accepting(NeverStops())(y, t))
    {
      CallsStep(x, y, t);
      AcceptingIs(y, t);
    }
    assert SameCalls(Spec([], None), V2_START) by { StartCalls(); }
    Simulate(AcceptSpec, Accepting(NeverStops()), SameCalls, SameFinalCalls, Spec([], None), V2_START, Header, s);
    RunReads([], s);
    FinalIs(s);
    FinalCalls(RunSpec([], s).m, Run(Accepting(NeverStops()), V2_START, Header, s).m);
  }

  lemma FinalCalls(m: Spec, v: V2)
    requires SameFinalCalls(m, v)
    ensures m.result.Some? && Plains(v.events) == Calls(m.result.value)
  {
  }

  lemma AcceptingIs(v: V2, t: Token)
    ensures Accepting(NeverStops())(v, t) == Accept(NeverStops(), v, t)
  {
  }

  lemma StartCalls()
    ensures SameCalls(Spec([], None), V2_START)
  {
  }

  lemma FinalIs(s: seq<byte>)
    requires Decode(s).Ok? && Goes(RunSpec([], s), Decode(s), [], Decode(s).value, s)
    ensures RunSpec([], s).ret == Success && RunSpec([], s).m.result == Some(Decode(s).value)
  {
    hide Decode, RunSpec;
  }
}
