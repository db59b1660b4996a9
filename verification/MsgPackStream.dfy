/** The streaming parser: a growing buffer under the v2 context. However the stream is cut into
    chunks and however its calls are interleaved, next() yields what decoding the whole stream
    yields; and bytes that objects still point to are neither overwritten, moved nor freed, while a
    buffer is freed when the last object and the parser have let go of it. */
module MsgPackStream {
  import opened Bytes
  import opened Options
  import opened MsgPackFormat
  import opened MsgPackLexer
  import opened MsgPackDecode
  import opened MsgPackMachine
  import opened MsgPackUnpackers
  import opened MsgPackVisitor
  import opened MsgPackParser
  import opened MsgPackUnpackV1

  const COUNTER_SIZE: nat := 4
  const SIZE_LIMIT: nat := 0x1_0000_0000_0000_0000

  /** A malloc'ed buffer and the counter kept in its first bytes. */
  class Block {
    var bytes: array<byte>
    var count: nat
    var freed: bool

    constructor (size: nat)
      ensures count == 1 && !freed && fresh(bytes) && bytes.Length == size
    {
      bytes := new byte[size];
      count := 1;
      freed := false;
    }

    /** decr_count: frees the buffer when nobody is left. */
    method Decrement()
      requires count > 0 && !freed
      modifies this`count, this`freed
      ensures count == old(count) - 1 && (freed <==> count == 0)
    {
      count := count - 1;
      if count == 0 { freed := true; }
    }
  }

  /** The bytes of a shared block, and those of them that are not handed out for writing. */
  datatype Mark = Mark(bytes: array<byte>, settled: seq<byte>)

  /** Number of times block b stands in m and in s. */
  ghost function Total(m: multiset<Block>, s: seq<Block>, b: Block): nat { m[b] + multiset(s)[b] }

  lemma TotalNone()
    ensures forall x :: Total(multiset{}, [], x) == 0
  {
  }

  lemma TotalLess(m: multiset<Block>, s: seq<Block>, b: Block)
    requires b in m
    ensures Total(m, s, b) > 0
    ensures forall x :: Total(m - multiset{b}, s, x) == Total(m, s, x) - if x == b then 1 else 0
    ensures forall x | x in m - multiset{b} :: x in m
  {
  }

  lemma TotalPush(m: multiset<Block>, s: seq<Block>, b: Block)
    ensures Total(m, s + [b], b) > 0
    ensures forall x :: Total(m, s + [b], x) == Total(m, s, x) + if x == b then 1 else 0
    ensures forall x | x in s + [b] :: x in s || x == b
  {
  }

  lemma TotalMove(m: multiset<Block>, s: seq<Block>)
    ensures forall x :: Total(m + multiset(s), [], x) == Total(m, s, x)
    ensures forall x | x in m + multiset(s) :: x in m || x in s
  {
  }

  /** Where objects pointed before, they still do: the block is not freed and has not moved, and its
      bytes are as they were and will not be handed out for writing. */
  ghost predicate Kept(before: map<Block, Mark>, after: map<Block, Mark>) {
    forall b | b in before :: b in after && after[b].bytes == before[b].bytes && before[b].settled <= after[b].settled
  }

  lemma KeptOn(first: map<Block, Mark>, second: map<Block, Mark>, third: map<Block, Mark>)
    requires Kept(first, second) && Kept(second, third)
    ensures Kept(first, third)
  {
  }

  /** A run over everything the context has seen of the current object has stopped where it is. */
  ghost predicate Reached(m: V2, lex: Lex, s: seq<byte>, k: nat) {
    Run(Accepting(NeverStops()), V2_START, Header, s) == Outcome(Continue, m, lex, k)
  }

  /** The buffer holds, from off to used, the stream from position k on. */
  ghost predicate Fitting(bytes: seq<byte>, off: nat, used: nat, free: nat, fed: seq<byte>, k: nat) {
    && COUNTER_SIZE <= off <= used && used + free == |bytes| < SIZE_LIMIT
    && k + (used - off) == |fed|
    && bytes[off..used] == fed[k..]
  }

  /** The context with stack and visitor m has gone over `gone` bytes of the current object, and was
      shown the stream up to `seen`. */
  ghost predicate Stepping(m: V2, lex: Lex, fed: seq<byte>, start: nat, gone: nat, seen: nat) {
    start <= seen <= |fed| && LexOk(lex) && Reached(m, lex, fed[start..seen], gone)
  }

  /** The objects yielded are those that decoding the stream up to `start` gives. m_parsed counts the
      bytes gone over, unless a byte was refused. */
  ghost predicate Telling(fed: seq<byte>, start: nat, yielded: seq<Obj>, parsed: nat, gone: nat) {
    && start <= |fed| && Spells(fed[..start], yielded)
    && (parsed == gone || Decode(fed[start..]).Refused?)
  }

  function Doubled(n: nat): nat { 2 * n % SIZE_LIMIT }

  /** The doubling loop of expand_buffer: at least `target` bytes, also when doubling overflows. */
  method GrowTo(start: nat, target: nat) returns (size: nat)
    requires start < SIZE_LIMIT && target < SIZE_LIMIT
    ensures target <= size < SIZE_LIMIT
    ensures size == start || size == target || size % 2 == 0
  {
    size := start;
    while size < target
      invariant size < SIZE_LIMIT && (size == start || size % 2 == 0)
      decreases target - size
    {
      var twice := Doubled(size);
      if twice <= size { return target; }
      size := twice;
    }
  }

  class StreamParser {
    const context: Context
    const initial: nat
    var block: Block
    var used: nat
    var free: nat
    var off: nat
    var parsed: nat
    /** The blocks whose finalizers the current zone holds. */
    var zone: seq<Block>

    /** Every byte ever handed in; where the current object starts in them; how many of its bytes
        the context has gone over; how many of all bytes it has been shown. */
    ghost var fed: seq<byte>
    ghost var start: nat
    ghost var gone: nat
    ghost var seen: nat
    /** The objects yielded so far. */
    ghost var yielded: seq<Obj>
    /** Every block ever allocated, and the finalizers in the zones of objects handed out. */
    ghost var blocks: set<Block>
    ghost var lent: multiset<Block>

    ghost function Unread(): nat
      reads this`used, this`off
    {
      if used >= off then used - off else 0
    }

    /** The buffer holds, from off to used, the bytes the context has not gone over. */
    ghost predicate Fits()
      reads this`block, this`used, this`free, this`off, this`start, this`gone, this`fed, block`bytes, block.bytes
    {
      COUNTER_SIZE <= initial < SIZE_LIMIT && Fitting(block.bytes[..], off, used, free, fed, start + gone)
    }

    /** The context is where a run from the start of the current object has got it. */
    ghost predicate InStep()
      reads this`fed, this`start, this`gone, this`seen, context`stack, context`lex, context.visitor`events
    {
      && context.visitor.stop == NeverStops() && !context.late
      && Stepping(context.View(), context.lex, fed, start, gone, seen)
    }

    ghost predicate Valid()
      reads this, context, context.visitor, block, block.bytes
    {
      && Fits() && InStep() && context.visitor.Valid()
      && (off == COUNTER_SIZE ==> block.count == 1 && !context.visitor.referenced)
    }

    /** The parser stands where decoding the stream from its beginning stands. */
    ghost predicate Told()
      reads this`fed, this`start, this`yielded, this`parsed, this`gone
    {
      Telling(fed, start, yielded, parsed, gone)
    }

    /** Number of finalizers on block b in the zones that are alive. */
    ghost function Finalizers(b: Block): nat
      reads this`lent, this`zone
    {
      Total(lent, zone, b)
    }

    /** Every block is held by the parser that reads from it and by the finalizers on it, and is
        freed when nobody holds it. No two blocks share their bytes. */
    ghost predicate Counted()
      reads this`block, this`blocks, this`lent, this`zone, blocks`count, blocks`freed, blocks`bytes
    {
      && block in blocks
      && (forall b | b in blocks :: b.count == Finalizers(b) + if b == block then 1 else 0)
      && Tracked()
    }

    /** As Counted, while the parser holds no block. */
    ghost predicate CountedWithout()
      reads this`block, this`blocks, this`lent, this`zone, blocks`count, blocks`freed, blocks`bytes
    {
      && block in blocks
      && (forall b | b in blocks :: b.count == Finalizers(b))
      && Tracked()
    }

    ghost predicate Tracked()
      reads this`blocks, this`lent, this`zone, blocks`count, blocks`freed, blocks`bytes
    {
      && (forall b | b in blocks :: b.freed <==> b.count == 0)
      && (forall b | b in lent :: b in blocks)
      && (forall b | b in zone :: b in blocks)
      && Apart()
    }

    ghost predicate Apart()
      reads this`blocks, blocks`bytes
    {
      forall a, b | a in blocks && b in blocks && a != b :: a.bytes != b.bytes
    }

    /** Objects may point into block b: a zone still alive holds it, or the object under way points
        into it, as `referenced` tells. */
    ghost predicate Shared(b: Block, referenced: bool)
      reads this`block, this`lent, this`zone
    {
      Finalizers(b) > 0 || (b == block && referenced)
    }

    /** The bytes of block b that objects may point to: those not handed out for writing. */
    ghost function Settled(b: Block): seq<byte>
      reads this`block, this`used, b`bytes, b.bytes
    {
      if b == block && used <= b.bytes.Length then b.bytes[..used] else b.bytes[..]
    }

    /** What objects may point to, block by block. */
    ghost function Marks(referenced: bool): map<Block, Mark>
      reads this`block, this`used, this`lent, this`zone, this`blocks, blocks`bytes, set b | b in blocks :: b.bytes
    {
      map b | b in blocks && Shared(b, referenced) :: Mark(b.bytes, Settled(b))
    }

    lemma MoreMarks(r: bool, r': bool)
      requires r ==> r'
      ensures Kept(Marks(r), Marks(r'))
    {
    }

    lemma MarksAre(r: bool)
      ensures forall b | b in Marks(r) :: b in blocks && Shared(b, r) && Marks(r)[b] == Mark(b.bytes, Settled(b))
    {
    }

    lemma MarksKept(before: map<Block, Mark>, r: bool)
      requires forall b | b in before ::
        b in blocks && Shared(b, r) && b.bytes == before[b].bytes && before[b].settled <= Settled(b)
      ensures Kept(before, Marks(r))
    {
    }

    constructor (initialSize: nat)
      requires initialSize < SIZE_LIMIT
      ensures Valid() && Counted() && Told() && fresh(context) && fresh(context.visitor) && fresh(block) && fresh(block.bytes)
      ensures fed == [] && yielded == [] && zone == [] && lent == multiset{} && free == block.bytes.Length - COUNTER_SIZE
    {
      hide Total, Stepping, Telling, Fitting, BuildOf;
      var visitor := new ObjectVisitor(NeverStops());
      context := new Context(false, visitor);
      var size := if initialSize < COUNTER_SIZE then COUNTER_SIZE else initialSize;
      initial := size;
      var b := new Block(size);
      block := b;
      used := COUNTER_SIZE;
      free := size - COUNTER_SIZE;
      off := COUNTER_SIZE;
      parsed := 0;
      zone := [];
      fed := [];
      start := 0;
      gone := 0;
      seen := 0;
      yielded := [];
      blocks := {b};
      lent := multiset{};
      new;
      StartStepping(fed, start);
      StartTelling();
      StartFitting(block.bytes[..]);
      TotalNone();
    }

    /** reserve_buffer */
    method ReserveBuffer(size: nat)
      requires Valid() && Counted() && size + used < SIZE_LIMIT
      modifies this`block, this`used, this`free, this`off, this`zone, this`blocks
      modifies block, context.visitor`referenced, context.visitor`clearedAt
      ensures Valid() && Counted() && free >= size
      ensures Unread() == old(Unread()) && block.bytes[off..used] == old(block.bytes[off..used])
      ensures Kept(old(Marks(context.visitor.referenced)), Marks(context.visitor.referenced))
      ensures block == old(block) && old(Shared(block, context.visitor.referenced)) ==> used >= old(used)
    {
      if free < size { ExpandBuffer(size); }
    }

    /** expand_buffer: the unread bytes stay, and there is room for `size` more. */
    method ExpandBuffer(size: nat)
      requires Valid() && Counted() && size + used < SIZE_LIMIT && free < size
      modifies this`block, this`used, this`free, this`off, this`zone, this`blocks
      modifies block, context.visitor`referenced, context.visitor`clearedAt
      ensures Valid() && Counted() && free >= size
      ensures Unread() == old(Unread()) && block.bytes[off..used] == old(block.bytes[off..used])
      ensures Kept(old(Marks(context.visitor.referenced)), Marks(context.visitor.referenced))
      ensures block == old(block) && old(Shared(block, context.visitor.referenced)) ==> used >= old(used)
    {
      hide Reached, BuildOf;
      if used == off && block.count == 1 && !context.visitor.referenced {
        Rewind();
        if free >= size { return; }
      }
      if off == COUNTER_SIZE {
        Enlarge(size);
      } else {
        Replace(size);
      }
    }

    /** All bytes are parsed and nothing points into them: the whole block is free again. */
    method Rewind()
      requires Valid() && Counted() && used == off && block.count == 1 && !context.visitor.referenced
      modifies this`free, this`used, this`off
      ensures Valid() && Counted() && Unread() == 0 && off == COUNTER_SIZE && used <= old(used)
      ensures Kept(old(Marks(context.visitor.referenced)), Marks(context.visitor.referenced)) && Finalizers(block) == 0
    {
      hide Reached, BuildOf;
      free := free + (used - COUNTER_SIZE);
      used := COUNTER_SIZE;
      off := COUNTER_SIZE;
    }

    /** realloc, which only happens to a block nothing points into. */
    method Enlarge(size: nat)
      requires Valid() && Counted() && size + used < SIZE_LIMIT && off == COUNTER_SIZE
      modifies this`free, block`bytes
      ensures Valid() && Counted() && free >= size
      ensures block.bytes[off..used] == old(block.bytes[off..used])
      ensures Kept(old(Marks(context.visitor.referenced)), Marks(context.visitor.referenced))
    {
      hide InStep, BuildOf, Counted, Tracked, Settled, Marks, Kept;
      ghost var before := Marks(context.visitor.referenced);
      var next := GrowTo(Doubled(used + free), size + used);
      var tmp := CopyUsed(next);
      assert Marks(context.visitor.referenced) == before;
      Reallocated(tmp, next - used);
    }

    method CopyUsed(next: nat) returns (tmp: array<byte>)
      requires used <= block.bytes.Length && used <= next
      ensures fresh(tmp) && tmp.Length == next && tmp[..used] == block.bytes[..used]
    {
      tmp := new byte[next];
      var from := block.bytes;
      forall i | 0 <= i < used { tmp[i] := from[i]; }
    }

    method Reallocated(tmp: array<byte>, room: nat)
      requires Valid() && Counted() && used + room == tmp.Length < SIZE_LIMIT && off == COUNTER_SIZE
      requires tmp[..used] == block.bytes[..used] && forall b | b in blocks :: b.bytes != tmp
      modifies this`free, block`bytes
      ensures Valid() && Counted() && free == room
      ensures block.bytes[off..used] == old(block.bytes[off..used])
      ensures Kept(old(Marks(context.visitor.referenced)), Marks(context.visitor.referenced))
    {
      hide Reached, BuildOf;
      assert tmp[off..used] == tmp[..used][off..] && block.bytes[off..used] == block.bytes[..used][off..];
      block.bytes := tmp;
      free := room;
    }

    /** A finalizer for the parser's block goes to the zone, which holds the block from then on. */
    method PushFinalizer()
      requires Counted()
      modifies this`zone
      ensures CountedWithout() && zone == old(zone) + [block]
    {
      hide Apart, Total;
      TotalPush(lent, zone, block);
      zone := zone + [block];
    }

    /** The parser gives its block up. */
    method GiveUp()
      requires Counted()
      modifies block`count, block`freed
      ensures CountedWithout()
    {
      hide Apart, Total;
      block.Decrement();
    }

    /** The parser's block is left to the objects that point into it, or given up. */
    method LetGo()
      requires Counted() && context.visitor.Valid()
      modifies this`zone, block`count, block`freed, context.visitor`referenced, context.visitor`clearedAt
      ensures CountedWithout() && context.visitor.Valid() && !context.visitor.referenced
      ensures Kept(old(Marks(context.visitor.referenced)), Marks(false))
    {
      hide Counted, CountedWithout, BuildOf, Kept, Marks, Settled;
      MarksAre(context.visitor.referenced);
      ghost var before := Marks(context.visitor.referenced);
      if context.visitor.referenced {
        PushFinalizer();
        context.visitor.ClearReferenced();
      } else {
        GiveUp();
      }
      MarksKept(before, false);
    }

    /** A new block with the unread bytes and room for `size` more. */
    method CopyUnread(size: nat) returns (newer: Block)
      requires Valid() && size + used < SIZE_LIMIT
      ensures fresh(newer) && fresh(newer.bytes) && newer.count == 1 && !newer.freed
      ensures Unread() + COUNTER_SIZE + size <= newer.bytes.Length < SIZE_LIMIT
      ensures newer.bytes[COUNTER_SIZE..COUNTER_SIZE + Unread()] == block.bytes[off..used]
    {
      hide Fitting, InStep, BuildOf;
      FitsMeans();
      var notParsed := used - off;
      assert notParsed == Unread();
      var next := GrowTo(initial, size + notParsed + COUNTER_SIZE);
      ghost var unread := block.bytes[off..used];
      newer := new Block(next);
      forall i | 0 <= i < notParsed { newer.bytes[COUNTER_SIZE + i] := block.bytes[off + i]; }
      assert newer.bytes[COUNTER_SIZE..COUNTER_SIZE + notParsed] == unread;
      assert block.bytes[off..used] == unread;
    }

    method Replace(size: nat)
      requires Valid() && Counted() && size + used < SIZE_LIMIT && off != COUNTER_SIZE
      modifies this`block, this`used, this`free, this`off, this`zone, this`blocks
      modifies block`count, block`freed, context.visitor`referenced, context.visitor`clearedAt
      ensures fresh(block)
      ensures Valid() && Counted() && free >= size
      ensures Unread() == old(Unread()) && block.bytes[off..used] == old(block.bytes[off..used])
      ensures Kept(old(Marks(context.visitor.referenced)), Marks(context.visitor.referenced))
    {
      hide Reached, BuildOf, Counted, CountedWithout, Kept, Marks, Fits, InStep;
      ghost var before := Marks(context.visitor.referenced);
      FitsMeans();
      var newer := CopyUnread(size);
      var notParsed := used - off;
      LetGo();
      ghost var between := Marks(false);
      Install(newer, notParsed);
      KeptOn(before, between, Marks(false));
    }

    lemma FitsMeans()
      requires Fits()
      ensures COUNTER_SIZE <= initial < SIZE_LIMIT && COUNTER_SIZE <= off <= used <= block.bytes.Length
      ensures start + gone + Unread() == |fed| && block.bytes[off..used] == fed[start + gone..]
    {
    }

    lemma Distinct()
      requires Counted()
      ensures block in blocks && (forall b | b in blocks && b != block :: b.bytes != block.bytes)
    {
    }

    /** The parser takes a block that holds its unread bytes. */
    method Install(newer: Block, notParsed: nat)
      requires CountedWithout() && newer !in blocks && newer.count == 1 && !newer.freed
      requires forall b | b in blocks :: b.bytes != newer.bytes
      requires COUNTER_SIZE <= initial < SIZE_LIMIT && notParsed + COUNTER_SIZE <= newer.bytes.Length < SIZE_LIMIT
      requires start + gone + notParsed == |fed|
      requires newer.bytes[COUNTER_SIZE..COUNTER_SIZE + notParsed] == fed[start + gone..]
      requires used <= block.bytes.Length
      modifies this`block, this`used, this`free, this`off, this`blocks
      ensures Counted() && Fits() && block == newer && off == COUNTER_SIZE && used == notParsed + COUNTER_SIZE
      ensures free == newer.bytes.Length - used
      ensures Kept(old(Marks(false)), Marks(false))
    {
      hide Counted, CountedWithout, Kept, Marks;
      MarksAre(false);
      ghost var before := Marks(false);
      Enter(newer);
      used := notParsed + COUNTER_SIZE;
      free := newer.bytes.Length - used;
      off := COUNTER_SIZE;
      MarksKept(before, false);
    }

    method Enter(newer: Block)
      requires CountedWithout() && newer !in blocks && newer.count == 1 && !newer.freed
      requires forall b | b in blocks :: b.bytes != newer.bytes
      modifies this`block, this`blocks
      ensures Counted() && block == newer && blocks == old(blocks) + {newer}
    {
      hide Finalizers;
      NoFinalizers(newer);
      blocks := blocks + {newer};
      block := newer;
    }

    lemma NoFinalizers(b: Block)
      requires CountedWithout() && b !in blocks
      ensures Finalizers(b) == 0
    {
    }

    /** The caller writes a chunk at buffer() and calls buffer_consumed. */
    method Fill(chunk: seq<byte>)
      requires Valid() && Counted() && Told() && |chunk| <= free
      modifies this`used, this`free, this`fed, block.bytes
      ensures Valid() && Counted() && Told() && fed == old(fed) + chunk
      ensures Kept(old(Marks(context.visitor.referenced)), Marks(context.visitor.referenced))
    {
      hide Reached, BuildOf, Spells, Decode, Counted, Kept, Marks, InStep, Fits;
      WriteAtEnd(chunk);
      Consumed(chunk);
    }

    /** More of the block counts as written. */
    method Announce(n: nat)
      requires n <= free && used + n <= block.bytes.Length
      modifies this`used, this`free
      ensures used == old(used) + n && free == old(free) - n
      ensures Kept(old(Marks(context.visitor.referenced)), Marks(context.visitor.referenced))
    {
      hide Marks, Kept;
      MarksAre(context.visitor.referenced);
      ghost var before := Marks(context.visitor.referenced);
      assert block.bytes[..used] <= block.bytes[..used + n];
      used, free := used + n, free - n;
      MarksKept(before, context.visitor.referenced);
    }

    /** buffer_consumed, the bytes having been written. */
    method Consumed(chunk: seq<byte>)
      requires Valid() && Told() && |chunk| <= free && used + |chunk| <= block.bytes.Length
      requires block.bytes[used..used + |chunk|] == chunk
      modifies this`used, this`free, this`fed
      ensures Valid() && Told() && fed == old(fed) + chunk
      ensures Kept(old(Marks(context.visitor.referenced)), Marks(context.visitor.referenced))
    {
      hide BuildOf, Kept, Marks, Settled, Stepping, Telling, Fitting;
      StillStepping(context.View(), context.lex, fed, start, gone, seen, chunk);
      StillTelling(fed, start, yielded, parsed, gone, chunk);
      StillFitting(block.bytes[..], off, used, free, fed, start + gone, chunk);
      assert block.bytes[..][used..used + |chunk|] == chunk;
      Announce(|chunk|);
      fed := fed + chunk;
    }

    /** memcpy to buffer() */
    method WriteAtEnd(chunk: seq<byte>)
      requires Valid() && Counted() && |chunk| <= free
      modifies block.bytes
      ensures Valid() && used + |chunk| <= block.bytes.Length && block.bytes[used..used + |chunk|] == chunk
      ensures Marks(context.visitor.referenced) == old(Marks(context.visitor.referenced))
    {
      hide Reached, BuildOf, InStep, Counted;
      Distinct();
      ghost var before := block.bytes[..];
      forall i | 0 <= i < |chunk| { block.bytes[used + i] := chunk[i]; }
      assert block.bytes[..used] == before[..used];
      assert block.bytes[off..used] == before[..used][off..];
    }

    /** If the finished object points into the parser's block, the zone gets one finalizer more. */
    method Secure()
      requires Counted() && context.visitor.Valid()
      modifies this`zone, block`count, context.visitor`referenced, context.visitor`clearedAt
      ensures Counted() && context.visitor.Valid() && !context.visitor.referenced
      ensures zone == old(zone) + if old(context.visitor.referenced) then [block] else []
      ensures forall b | b in old(blocks) && old(Shared(b, context.visitor.referenced)) :: Finalizers(b) > 0
    {
      hide Counted, CountedWithout, BuildOf, Total;
      TotalPush(lent, zone, block);
      if context.visitor.referenced {
        PushFinalizer();
        HoldOn();
        context.visitor.ClearReferenced();
      }
    }

    /** release_zone: the finalizers go with the finished object; if it points into the parser's
        block there is one more of them. */
    method ReleaseZone() returns (released: seq<Block>)
      requires Counted() && context.visitor.Valid()
      modifies this`zone, this`lent, block`count, context.visitor`referenced, context.visitor`clearedAt
      ensures Counted() && context.visitor.Valid() && !context.visitor.referenced
      ensures Kept(old(Marks(context.visitor.referenced)), Marks(false))
      ensures zone == [] && lent == old(lent) + multiset(released)
      ensures released == old(zone) + if old(context.visitor.referenced) then [block] else []
    {
      hide Counted, CountedWithout, BuildOf, Kept, Marks, Settled, Finalizers;
      MarksAre(context.visitor.referenced);
      ghost var before := Marks(context.visitor.referenced);
      Secure();
      released := EmptyZone();
      MarksKept(before, false);
    }

    /** incr_count */
    method HoldOn()
      requires CountedWithout() && Finalizers(block) > 0
      modifies block`count
      ensures Counted()
    {
      hide Apart, Total;
      block.count := block.count + 1;
    }

    /** The zone goes to its object, and a new one takes its place. */
    method EmptyZone() returns (full: seq<Block>)
      requires Counted()
      modifies this`zone, this`lent
      ensures Counted() && full == old(zone) && zone == [] && lent == old(lent) + multiset(full)
      ensures forall b | b in blocks :: Finalizers(b) == old(Finalizers(b))
    {
      hide Apart, Total;
      TotalMove(lent, zone);
      full := zone;
      lent := lent + multiset(zone);
      zone := [];
    }

    /** A finalizer runs on block b. */
    method Finalize(b: Block)
      requires Counted() && b in lent
      modifies this`lent, b`count, b`freed
      ensures Counted() && lent == old(lent) - multiset{b}
      ensures b == block ==> old(block.count) > 1
    {
      hide Apart, Total;
      TotalLess(lent, zone, b);
      lent := lent - multiset{b};
      b.Decrement();
    }

    /** The destruction of an object that was handed out: its zone runs the finalizers, last first.
        Blocks that nobody holds any more are freed; all others keep their bytes. */
    method DropZone(released: seq<Block>)
      requires Valid() && Counted() && multiset(released) <= lent
      modifies this`lent, released`count, released`freed
      ensures Valid() && Counted() && lent == old(lent) - multiset(released)
      ensures forall b | b in blocks :: b.bytes == old(b.bytes) && Settled(b) == old(Settled(b))
      ensures forall b | b in blocks :: b.freed <==> Finalizers(b) == 0 && b != block
    {
      hide Counted, Fits, InStep, Finalizers, Settled, BuildOf;
      RunFinalizers(released);
      FreedIffUnheld();
    }

    method RunFinalizers(released: seq<Block>)
      requires Counted() && multiset(released) <= lent
      modifies this`lent, released`count, released`freed
      ensures Counted() && lent == old(lent) - multiset(released)
      ensures old(block.count) == 1 ==> block.count == 1
    {
      hide Counted;
      var i := |released|;
      assert released[i..] == [];
      while i > 0
        invariant 0 <= i <= |released| && lent + multiset(released[i..]) == old(lent)
        invariant Counted() && (old(block.count) == 1 ==> block.count == 1)
      {
        i := i - 1;
        OneFinalizer(old(lent), lent, released, i);
        Finalize(released[i]);
      }
      assert released[0..] == released;
    }

    lemma FreedIffUnheld()
      requires Counted()
      ensures forall b | b in blocks :: b.freed <==> Finalizers(b) == 0 && b != block
    {
    }

    /** The destruction of the parser: the current zone, and the parser's own hold on its block. What
        is left are the blocks that objects handed out point into; nothing is freed twice. */
    method Destroy()
      requires Counted()
      modifies this`zone, zone`count, zone`freed, block`count, block`freed
      ensures CountedWithout() && zone == []
      ensures forall b | b in blocks :: b.freed <==> b !in lent
    {
      hide Counted, Apart;
      while zone != []
        invariant Counted() && zone <= old(zone)
        decreases |zone|
      {
        FinalizeLast();
      }
      GiveUp();
    }

    /** The last finalizer of the current zone runs. */
    method FinalizeLast()
      requires Counted() && zone != []
      modifies this`zone, zone`count, zone`freed
      ensures Counted() && zone == old(zone)[..|old(zone)| - 1]
    {
      hide Apart, Total;
      var last := |zone| - 1;
      var b := zone[last];
      assert zone == zone[..last] + [b];
      TotalPush(lent, zone[..last], b);
      zone := zone[..last];
      b.Decrement();
    }

    /** next() of v2/unpack.hpp. At a refused byte the visitor throws, and m_parsed stays as it was. */
    method Next() returns (ret: Ret, cells: seq<Cell>, released: seq<Block>)
      requires Valid() && Counted() && Told()
      modifies this`off, this`parsed, this`gone, this`zone, this`start, this`seen, this`yielded, this`lent, block`count
      modifies context, context.visitor
      ensures Valid() && Counted() && Told()
      ensures Kept(old(Marks(context.visitor.referenced)), Marks(context.visitor.referenced))
      ensures lent == old(lent) + multiset(released)
      ensures var d := Decode(fed[old(start)..]);
        && ret == RetOf(d)
        && (d.Ok? ==> start == old(start) + d.k && gone == parsed == 0 && Holds(cells, 0, d.value)
                      && yielded == old(yielded) + [d.value])
        && (!d.Ok? ==> start == old(start) && gone == d.k && yielded == old(yielded) && released == [])
        && (d.Short? ==> parsed == d.k) && (d.Refused? ==> parsed == old(parsed))
    {
      hide Run, Decode, BuildOf, Holds, Accepting, Reached, Counted, Spells, Kept, Marks, Fits, InStep;
      ret := ExecuteUnread();
      MoreMarks(old(context.visitor.referenced), context.visitor.referenced);
      ghost var executed := Marks(context.visitor.referenced);
      cells, released := [], [];
      if ret == Success {
        cells := context.visitor.cells;
        released := HandOver();
        KeptOn(old(Marks(context.visitor.referenced)), executed, Marks(false));
      }
    }

    /** The zone of a finished object goes to the caller with it, and the next object begins. */
    method HandOver() returns (released: seq<Block>)
      requires Fits() && Counted() && Told() && context.visitor.Valid() && off > COUNTER_SIZE
      requires context.visitor.stop == NeverStops() && !context.late
      requires Decode(fed[start..]).Ok? && gone == Decode(fed[start..]).k
      modifies this`zone, this`lent, this`start, this`seen, this`parsed, this`gone, this`yielded, block`count
      modifies context, context.visitor
      ensures Valid() && Counted() && Told() && !context.visitor.referenced
      ensures start == old(start + gone) && gone == parsed == 0
      ensures yielded == old(yielded) + [Decode(fed[old(start)..]).value]
      ensures Kept(old(Marks(context.visitor.referenced)), Marks(false))
      ensures lent == old(lent) + multiset(released)
    {
      hide Decode, BuildOf, Reached, Counted, Spells, Kept, Marks, Fits, InStep;
      Yields(fed, start, yielded);
      yielded := yielded + [Decode(fed[start..]).value];
      released := ReleaseZone();
      StartOver();
    }

    /** execute_imp */
    method ExecuteUnread() returns (ret: Ret)
      requires Valid()
      modifies this`off, this`parsed, this`gone, this`seen
      modifies context, context.visitor`cells, context.visitor`cursors, context.visitor`events, context.visitor`referenced
      ensures context.visitor.Valid()
      ensures ret == RetOf(Decode(fed[start..])) && gone == Decode(fed[start..]).k
      ensures parsed == old(parsed) + if ret == ParseError then 0 else gone - old(gone)
      ensures Fits()
      ensures Decode(fed[start..]).Ok? ==> off > COUNTER_SIZE && Holds(context.visitor.cells, 0, Decode(fed[start..]).value)
      ensures !Decode(fed[start..]).Ok? ==> Valid()
      ensures context.visitor.stop == NeverStops() && !context.late
      ensures old(context.visitor.referenced) ==> context.visitor.referenced
    {
      hide Run, Decode, Accepting, Holds, BuildOf, Reached, Fits;
      FitsMeans();
      var off': int;
      ghost var r := UnreadRun(fed, start, seen, gone, context.View(), context.lex, block.bytes[off..used]);
      assert block.bytes[..used][off..] == block.bytes[off..used];
      ret, off' := context.Execute(block.bytes[..used], off);
      Advance(ret, off');
    }

    /** What execute_imp makes of the offset. */
    method Advance(ret: Ret, off': nat)
      requires Fits() && off <= off' <= used
      modifies this`off, this`parsed, this`gone, this`seen
      ensures Fits() && off == off' && gone == old(gone) + (off' - old(off))
      ensures parsed == old(parsed) + if ret == ParseError then 0 else off' - old(off)
      ensures seen == if ret == ParseError then start + gone else |fed|
    {
      assert block.bytes[off'..used] == block.bytes[off..used][off' - off..];
      if ret != ParseError { parsed := parsed + (off' - off); }
      gone := gone + (off' - off);
      off := off';
      seen := if ret == ParseError then start + gone else |fed|;
    }

    /** reset */
    method StartOver()
      requires context.visitor.Valid() && !context.visitor.referenced && context.visitor.stop == NeverStops() && !context.late
      requires Fits() && off > COUNTER_SIZE
      modifies this`start, this`seen, this`parsed, this`gone, context, context.visitor
      ensures Valid() && start == old(start + gone) && gone == parsed == 0
      ensures !context.visitor.referenced
    {
      hide Stepping, BuildOf;
      context.Init();
      start := start + gone;
      seen := start;
      gone := 0;
      parsed := 0;
      StartStepping(fed, start);
    }
  }

  /** The last of the finalizers still to run is among those still lent. */
  lemma OneFinalizer(all: multiset<Block>, lent: multiset<Block>, released: seq<Block>, i: nat)
    requires i < |released| && multiset(released) <= all && lent + multiset(released[i + 1..]) == all
    ensures released[i] in lent && lent - multiset{released[i]} + multiset(released[i..]) == all
  {
    assert released == released[..i] + ([released[i]] + released[i + 1..]);
    assert released[i..] == [released[i]] + released[i + 1..];
    assert multiset(released)[released[i]] >= 1 + multiset(released[i + 1..])[released[i]];
    assert all[released[i]] == lent[released[i]] + multiset(released[i + 1..])[released[i]];
  }

  lemma StartStepping(fed: seq<byte>, start: nat)
    requires start <= |fed|
    ensures Stepping(V2_START, Header, fed, start, 0, start)
  {
    NothingMore(Accepting(NeverStops()), V2_START, fed[start..start]);
  }

  lemma StartFitting(bytes: seq<byte>)
    requires COUNTER_SIZE <= |bytes| < SIZE_LIMIT
    ensures Fitting(bytes, COUNTER_SIZE, COUNTER_SIZE, |bytes| - COUNTER_SIZE, [], 0)
  {
  }

  lemma StartTelling()
    ensures Telling([], 0, [], 0, 0)
  {
  }

  lemma StillStepping(m: V2, lex: Lex, fed: seq<byte>, start: nat, gone: nat, seen: nat, chunk: seq<byte>)
    requires Stepping(m, lex, fed, start, gone, seen)
    ensures Stepping(m, lex, fed + chunk, start, gone, seen)
  {
    hide Reached;
    assert (fed + chunk)[start..seen] == fed[start..seen];
  }

  lemma StillTelling(fed: seq<byte>, start: nat, yielded: seq<Obj>, parsed: nat, gone: nat, chunk: seq<byte>)
    requires Telling(fed, start, yielded, parsed, gone)
    ensures Telling(fed + chunk, start, yielded, parsed, gone)
  {
    hide Spells, Decode;
    FedMore(fed, chunk, start);
    if parsed != gone { RefusedStays(fed[start..], chunk); }
  }

  lemma FedMore(fed: seq<byte>, chunk: seq<byte>, k: nat)
    requires k <= |fed|
    ensures (fed + chunk)[..k] == fed[..k] && (fed + chunk)[k..] == fed[k..] + chunk
  {
  }

  lemma StillFitting(bytes: seq<byte>, off: nat, used: nat, free: nat, fed: seq<byte>, k: nat, chunk: seq<byte>)
    requires Fitting(bytes, off, used, free, fed, k)
    requires |chunk| <= free && bytes[used..used + |chunk|] == chunk
    ensures Fitting(bytes, off, used + |chunk|, free - |chunk|, fed + chunk, k)
  {
    FedMore(fed, chunk, k);
    assert bytes[off..used + |chunk|] == bytes[off..used] + bytes[used..used + |chunk|];
  }

  /** What is refused is refused whatever follows. */
  lemma RefusedStays(s: seq<byte>, t: seq<byte>)
    requires Decode(s).Refused?
    ensures Decode(s + t).Refused?
  {
    hide Run, Decode, Accepting, Holds, BuildOf;
    ParsersAgree(s);
    ParsersAgree(s + t);
    RunResumes(Accepting(NeverStops()), V2_START, Header, s, t);
  }

  lemma Yields(fed: seq<byte>, start: nat, xs: seq<Obj>)
    requires start <= |fed| && Spells(fed[..start], xs) && Decode(fed[start..]).Ok?
    ensures var d := Decode(fed[start..]); start + d.k <= |fed| && Spells(fed[..start + d.k], xs + [d.value])
  {
    hide Decode, Spells;
    var d := Decode(fed[start..]);
    DecodeOwnBytes(fed[start..], d.k);
    SpellsMore(fed[..start], xs, fed[start..][..d.k], d.value);
    assert fed[..start] + fed[start..][..d.k] == fed[..start + d.k];
  }

  /** What a call of execute on the unread bytes comes to. */
  lemma UnreadRun(fed: seq<byte>, start: nat, seen: nat, parsed: nat, m: V2, lex: Lex, unread: seq<byte>)
    returns (r: Outcome<V2>)
    requires start <= seen <= |fed| && start + parsed <= |fed| && unread == fed[start + parsed..]
    requires LexOk(lex) && Reached(m, lex, fed[start..seen], parsed)
    ensures r == Run(Accepting(NeverStops()), m, lex, unread)
    ensures var d := Decode(fed[start..]);
      && r.ret == RetOf(d) && r.ret != StopVisitor && parsed + r.k == d.k <= |fed| - start && r.k <= |unread|
      && (d.Ok? ==> r.k > 0 && Holds(BuildOf(r.m.events).cells, 0, d.value))
    ensures r.k == 0 ==> r.m == m
    ensures r.ret == Continue ==> Reached(r.m, r.lex, fed[start..|fed|], parsed + r.k)
    ensures r.ret == ParseError ==> Reached(r.m, Header, fed[start..start + parsed + r.k], parsed + r.k)
  {
    hide Run, Decode, Accepting, Holds, BuildOf, Reached;
    r := Run(Accepting(NeverStops()), m, lex, unread);
    Resumed(fed, start, seen, parsed, m, lex, unread);
    ParsersAgree(fed[start..]);
    RunMoves(Accepting(NeverStops()), m, lex, unread);
    Progressed(fed, start, r.ret, r.m, if r.ret == ParseError then Header else r.lex, parsed + r.k);
  }

  /** The state after a call is where a run over what has been seen of the object gets. */
  lemma Progressed(fed: seq<byte>, start: nat, ret: Ret, m: V2, lex: Lex, k: nat)
    requires start <= |fed| && k <= |fed| - start
    requires var r := Run(Accepting(NeverStops()), V2_START, Header, fed[start..]);
      r.ret == ret && r.m == m && r.k == k && (ret == Continue ==> r.lex == lex) && (ret == ParseError ==> lex == Header)
    ensures ret == Continue ==> Reached(m, lex, fed[start..|fed|], k)
    ensures ret == ParseError ==> Reached(m, lex, fed[start..start + k], k)
  {
    hide Run, Accepting;
    assert fed[start..|fed|] == fed[start..];
    if ret == ParseError {
      ErrorPrefix(Accepting(NeverStops()), V2_START, Header, fed[start..]);
      assert fed[start..][..k] == fed[start..start + k];
    }
  }

  /** What the context does with the unread bytes is the rest of a run over the whole object. */
  lemma Resumed(fed: seq<byte>, start: nat, seen: nat, parsed: nat, m: V2, lex: Lex, unread: seq<byte>)
    requires start <= seen <= |fed| && start + parsed <= |fed| && unread == fed[start + parsed..]
    requires LexOk(lex) && Reached(m, lex, fed[start..seen], parsed)
    ensures Run(Accepting(NeverStops()), V2_START, Header, fed[start..])
         == After(Run(Accepting(NeverStops()), m, lex, unread), parsed)
  {
    hide Run, Accepting;
    var s, t := fed[start..seen], fed[seen..];
    assert s + t == fed[start..];
    RunResumes(Accepting(NeverStops()), V2_START, Header, s, t);
    assert s[parsed..] + t == unread;
  }
}
