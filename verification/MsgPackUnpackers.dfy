/** The stacks of the three parsers, as machines over tokens: v1 builds objects bottom-up, v2 and
    v3 call a visitor. All three read what MsgPackDecode.Decode reads. */
module MsgPackUnpackers {
  import opened Bytes
  import opened Options
  import opened MsgPackFormat
  import opened MsgPackLexer
  import opened MsgPackDecode
  import opened MsgPackMachine

  /** msgpack_container_type */
  datatype ContainerType = ArrayItem | MapKey | MapValue

  // ----- v1 -----

  /** v1's unpack_stack: the container so far, how many items or pairs are missing, what comes
      next, and the key that waits for its value. */
  datatype Level = Level(obj: Obj, count: nat, ct: ContainerType, key: Obj)

  const BLANK_LEVEL: Level := Level(Nil, 0, ArrayItem, Nil)

  /** m_stack of v1; the last level is scratch space, the first holds the result at the end. */
  datatype V1 = V1(stack: seq<Level>)

  function WithItems(x: Obj, items: seq<Obj>): Obj {
    if x.Group? then x.(items := x.items + items) else x
  }

  /** push_item: the stack, the object in hand and the return value. */
  function PushItem(stack: seq<Level>, x: Obj): (r: (seq<Level>, Obj, int))
    requires |stack| >= 1
    ensures |r.0| >= 1
    decreases |stack|
  {
    if |stack| == 1 then (stack, x, 1)
    else
      var n := |stack| - 2;
      var sp := stack[n];
      match sp.ct
      case MapKey => (stack[n := sp.(key := x, ct := MapValue)], x, 0)
      case _ =>
        var obj := WithItems(sp.obj, if sp.ct == ArrayItem then [x] else [sp.key, x]);
        var count := if sp.count == 0 then 0 else sp.count - 1;
        if count == 0 then PushItem(stack[..n] + [sp.(obj := obj, count := 0)], obj)
        else (stack[n := sp.(obj := obj, count := count, ct := if sp.ct == ArrayItem then ArrayItem else MapKey)], x, 0)
  }

  /** push_proc */
  function PushProc(stack: seq<Level>, x: Obj): Verdict<V1>
    requires |stack| >= 1
  {
    var (stack', x', ret) := PushItem(stack, x);
    if ret > 0 then Done(V1(stack'[0 := stack'[0].(obj := x')])) else Go(V1(stack'))
  }

  function AcceptV1(m: V1, t: Token): Verdict<V1> {
    if m.stack == [] then Halt(m)
    else
      match t
      case Scalar(v) => PushProc(m.stack, ObjectOf(v))
      case Open(keyed, n) =>
        var top := |m.stack| - 1;
        var level := m.stack[top].(obj := Group(keyed, []));
        if n == 0 then PushProc(m.stack[top := level], level.obj)
        else Go(V1(m.stack[top := level.(ct := if keyed then MapKey else ArrayItem, count := n)] + [BLANK_LEVEL]))
  }

  /** The level that stands for a container of the reading machine. */
  predicate LevelIs(f: Frame, l: Level) {
    && l.obj.Group? && l.obj.keyed == f.keyed && |f.items| < f.total
    && (if f.keyed then l.ct != ArrayItem else l.ct == ArrayItem)
    && match l.ct
       case ArrayItem => l.obj.items == f.items && l.count == f.total - |f.items|
       case MapKey => |f.items| % 2 == 0 && l.obj.items == f.items && 2 * l.count == f.total - |f.items|
       case MapValue =>
         && |f.items| % 2 == 1 && l.obj.items + [l.key] == f.items
         && 2 * l.count == f.total - |f.items| + 1
  }

  /** Both are at work on the same containers. */
  predicate SameV1(m: Spec, v: V1) {
    && |v.stack| == |m.stack| + 1
    && (forall i | 0 <= i < |m.stack| :: LevelIs(m.stack[i], v.stack[i]))
  }

  /** Both have the same result: data() of v1 is the object of its first level. */
  predicate SameResultV1(m: Spec, v: V1) { m.result.Some? && v.stack != [] && v.stack[0].obj == m.result.value }

  lemma {:induction false} PushIsFeed(stack: seq<Frame>, levels: seq<Level>, x: Obj)
    requires |levels| == |stack| + 1 && forall i | 0 <= i < |stack| :: LevelIs(stack[i], levels[i])
    ensures MatchVerdict(SameV1, SameResultV1, Feed(stack, x), PushProc(levels, x))
    decreases |stack|
  {
    if stack != [] {
      var n := |stack| - 1;
      var f, l := stack[n], levels[n];
      assert LevelIs(f, l);
      var items := f.items + [x];
      if |items| == f.total {
        LastItem(f, l, x);
        var levels' := levels[..n] + [l.(obj := Group(f.keyed, items), count := 0)];
        PushIsFeed(stack[..n], levels', Group(f.keyed, items));
        assert PushItem(levels, x) == PushItem(levels', Group(f.keyed, items));
      } else {
        NextItem(f, l, x);
      }
    }
  }

  /** The item that fills a container. */
  lemma LastItem(f: Frame, l: Level, x: Obj)
    requires LevelIs(f, l) && |f.items| + 1 == f.total
    ensures l.ct != MapKey && l.count == 1
    ensures WithItems(l.obj, if l.ct == ArrayItem then [x] else [l.key, x]) == Group(f.keyed, f.items + [x])
  {
    if l.ct == MapValue { assert l.obj.items + [l.key, x] == (l.obj.items + [l.key]) + [x]; }
  }

  lemma NextItem(f: Frame, l: Level, x: Obj)
    requires LevelIs(f, l) && |f.items| + 1 < f.total
    ensures l.ct != MapKey ==> l.count > 1
    ensures LevelIs(f.(items := f.items + [x]),
      if l.ct == MapKey then l.(key := x, ct := MapValue)
      else l.(obj := WithItems(l.obj, if l.ct == ArrayItem then [x] else [l.key, x]),
              count := l.count - 1, ct := if l.ct == ArrayItem then ArrayItem else MapKey))
  {
    if l.ct == MapValue { assert l.obj.items + [l.key, x] == (l.obj.items + [l.key]) + [x]; }
  }

  /** v1 answers every token as the reading machine does. */
  lemma V1Step(m: Spec, v: V1, t: Token)
    requires SameV1(m, v)
    ensures MatchVerdict(SameV1, SameResultV1, AcceptSpec(m, t), AcceptV1(v, t))
  {
    var top := |v.stack| - 1;
    match t
    case Scalar(x) => PushIsFeed(m.stack, v.stack, ObjectOf(x));
    case Open(keyed, n) =>
      var level := v.stack[top].(obj := Group(keyed, []));
      PushIsFeed(m.stack, v.stack[top := level], level.obj);
  }

  // ----- v2 and v3 -----

  /** Calls on the visitor. */
  datatype Event =
    | Visit(v: Value)
    | StartGroup(keyed: bool, n: nat) | EndGroup(keyed: bool)
    | StartArrayItem | EndArrayItem
    | StartMapKey | EndMapKey | StartMapValue | EndMapValue

  datatype Elem = Elem(ct: ContainerType, rest: nat)

  /** The parser's m_stack and every call made on the visitor so far. */
  datatype V2 = V2(stack: seq<Elem>, events: seq<Event>)

  /** A visitor decides from the calls so far whether the last of them returns false. */
  type Visitor = seq<Event> -> bool

  function NeverStops(): Visitor { (events: seq<Event>) => false }

  /** unpack_stack::consume: an object has been visited. */
  function Consume(stop: Visitor, m: V2): Verdict<V2>
    decreases |m.stack|
  {
    if m.stack == [] then Done(m)
    else
      var n := |m.stack| - 1;
      var e := m.stack[n];
      var m1 := m.(events := m.events + [match e.ct case ArrayItem => EndArrayItem case MapKey => EndMapKey
                                                     case MapValue => EndMapValue]);
      if stop(m1.events) then Halt(m1)
      else if e.ct == MapKey then
        var m2 := m1.(events := m1.events + [StartMapValue]);
        if stop(m2.events) then Halt(m2) else Go(m2.(stack := m.stack[n := e.(ct := MapValue)]))
      else if e.rest <= 1 then
        var m2 := V2(m.stack[..n], m1.events + [EndGroup(e.ct == MapValue)]);
        if stop(m2.events) then Halt(m2) else Consume(stop, m2)
      else
        var item := e.ct == ArrayItem;
        var m2 := V2(m.stack[n := Elem(if item then ArrayItem else MapKey, e.rest - 1)],
                     m1.events + [if item then StartArrayItem else StartMapKey]);
        if stop(m2.events) then Halt(m2) else Go(m2)
  }

  /** after_visit_proc and start_aggregate */
  function Accept(stop: Visitor, m: V2, t: Token): Verdict<V2> {
    match t
    case Scalar(v) =>
      var m1 := m.(events := m.events + [Visit(v)]);
      if stop(m1.events) then Halt(m1) else Consume(stop, m1)
    case Open(keyed, n) =>
      var m1 := m.(events := m.events + [StartGroup(keyed, n)]);
      if stop(m1.events) then Halt(m1)
      else if n == 0 then
        var m2 := m1.(events := m1.events + [EndGroup(keyed)]);
        if stop(m2.events) then Halt(m2) else Consume(stop, m2)
      else
        var m2 := V2(m.stack + [Elem(if keyed then MapKey else ArrayItem, n)],
                     m1.events + [if keyed then StartMapKey else StartArrayItem]);
        if stop(m2.events) then Halt(m2) else Go(m2)
  }

  function Accepting(stop: Visitor): (V2, Token) -> Verdict<V2> { (m: V2, t: Token) => Accept(stop, m, t) }
}
