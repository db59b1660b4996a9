/** ENet's circular lists with a sentinel (enet_list_*), on the heap. The nodes reached by following
    `next` from any node come back to it, and `previous` follows the same ring backwards. */
module LinkedLists {
  class Node {
    var next: Node?
    var previous: Node?

    constructor ()
    {
      next := null;
      previous := null;
    }
  }

  ghost predicate Distinct(r: seq<Node>) {
    forall i, j | 0 <= i < j < |r| :: r[i] != r[j]
  }

  /** `next` leads through r and back to its first node, and `previous` the other way. */
  ghost predicate Ring(r: seq<Node>)
    reads r
  {
    && |r| > 0 && Distinct(r)
    && (forall i | 0 <= i < |r| - 1 :: r[i].next == r[i + 1])
    && (forall i | 0 < i < |r| :: r[i].previous == r[i - 1])
    && r[|r| - 1].next == r[0] && r[0].previous == r[|r| - 1]
  }

  function Rotated<T>(r: seq<T>, k: nat): seq<T>
    requires k <= |r|
  {
    r[k..] + r[..k]
  }

  /** A ring may be entered anywhere. */
  lemma RingFrom(r: seq<Node>, k: nat)
    requires Ring(r) && k < |r|
    ensures Ring(Rotated(r, k))
  {
    var q, n := Rotated(r, k), |r|;
    forall i | 0 <= i < n ensures q[i] == r[if i + k < n then i + k else i + k - n] { }
    forall i, j | 0 <= i < j < n ensures q[i] != q[j] { }
  }

  /** enet_list_insert, with the ring entered at `position`: the node comes in before it. */
  method Insert(position: Node, data: Node, ghost r: seq<Node>) returns (result: Node)
    requires Ring(r) && r[0] == position && data !in r
    modifies data, position, r[|r| - 1]
    ensures result == data && Ring(r + [data])
  {
    result := data;
    result.previous := position.previous;
    result.next := position;
    result.previous.next := result;
    position.previous := result;
  }

  /** enet_list_remove, with the ring entered at `position`. */
  method Remove(position: Node, ghost r: seq<Node>) returns (data: Node)
    requires Ring(r) && r[0] == position && |r| > 1
    modifies r[1], r[|r| - 1]
    ensures data == position && Ring(r[1..])
    ensures position.next == old(position.next) && position.previous == old(position.previous)
  {
    position.previous.next := position.next;
    position.next.previous := position.previous;
    data := position;
  }

  /** A segment is linked up inside. */
  ghost predicate Linked(s: seq<Node>)
    reads s
  {
    && (forall i | 0 <= i < |s| - 1 :: s[i].next == s[i + 1])
    && (forall i | 0 < i < |s| :: s[i].previous == s[i - 1])
  }

  ghost predicate Joined(x: Node, y: Node)
    reads x, y
  {
    x.next == y && y.previous == x
  }

  function First(s: seq<Node>): Node
    requires s != []
  {
    s[0]
  }

  function Last(s: seq<Node>): Node
    requires s != []
  {
    s[|s| - 1]
  }

  lemma RingIsLinked(r: seq<Node>)
    requires r != []
    ensures Ring(r) <==> Distinct(r) && Linked(r) && Joined(Last(r), First(r))
  {
  }

  lemma LinkedParts(s: seq<Node>, t: seq<Node>)
    requires s != [] && t != []
    ensures Linked(s + t) <==> Linked(s) && Linked(t) && Joined(Last(s), First(t))
  {
    var r := s + t;
    assert r[|s| - 1] == Last(s) && r[|s|] == First(t);
    if Linked(r) {
      forall i | 0 <= i < |t| - 1 ensures t[i].next == t[i + 1] { assert r[|s| + i] == t[i] && r[|s| + i + 1] == t[i + 1]; }
      forall i | 0 < i < |t| ensures t[i].previous == t[i - 1] { assert r[|s| + i] == t[i] && r[|s| + i - 1] == t[i - 1]; }
      forall i | 0 <= i < |s| - 1 ensures s[i].next == s[i + 1] { assert r[i] == s[i] && r[i + 1] == s[i + 1]; }
      forall i | 0 < i < |s| ensures s[i].previous == s[i - 1] { assert r[i] == s[i] && r[i - 1] == s[i - 1]; }
      assert r[|s| - 1].next == r[|s|];
    }
  }

  lemma SwapDistinct(s: seq<Node>, m: seq<Node>, b: seq<Node>)
    requires Distinct(s + m + b)
    ensures Distinct(s + b + m)
  {
    var r, q := s + m + b, s + b + m;
    forall i, j | 0 <= i < j < |q| ensures q[i] != q[j] {
      var i' := if i < |s| then i else if i < |s| + |b| then i + |m| else i - |b|;
      var j' := if j < |s| then j else if j < |s| + |b| then j + |m| else j - |b|;
      assert q[i] == r[i'] && q[j] == r[j'];
    }
  }

  /** The ring s + m + b, taken apart and put together as s + b + m. */
  lemma ThreeParts(s: seq<Node>, m: seq<Node>, b: seq<Node>)
    requires s != [] && m != []
    ensures Ring(s + m + b) <==>
      && Distinct(s + m + b) && Linked(s) && Linked(m) && Linked(b) && Joined(Last(s), First(m))
      && if b == [] then Joined(Last(m), First(s)) else Joined(Last(m), First(b)) && Joined(Last(b), First(s))
  {
    var r := s + m + b;
    RingIsLinked(r);
    assert Last(r) == (if b == [] then Last(m) else Last(b)) && First(r) == First(s);
    LinkedParts(s, m);
    if b == [] { assert r == s + m; } else { LinkedParts(s + m, b); assert Last(s + m) == Last(m); }
  }

  /** No node of s is in t, and s does not repeat its last or first node inside. */
  ghost predicate Apart(s: seq<Node>, t: seq<Node>) {
    forall i | 0 <= i < |s| :: s[i] !in t
  }

  ghost predicate Plain(s: seq<Node>) {
    && (forall i | 0 <= i < |s| - 1 :: s[i] != s[|s| - 1])
    && (forall i | 0 < i < |s| :: s[i] != s[0])
  }

  lemma DistinctParts(s: seq<Node>, m: seq<Node>, b: seq<Node>)
    requires Distinct(s + m + b)
    ensures Plain(s) && Plain(m) && Plain(b)
    ensures Apart(s, m) && Apart(s, b) && Apart(m, s) && Apart(m, b) && Apart(b, s) && Apart(b, m)
  {
    var r := s + m + b;
    assert forall i | 0 <= i < |s| :: r[i] == s[i];
    assert forall i | 0 <= i < |m| :: r[|s| + i] == m[i];
    assert forall i | 0 <= i < |b| :: r[|s| + |m| + i] == b[i];
  }

  /** The six assignments of enet_list_move. */
  method Relink(position: Node, first: Node, last: Node, ghost x: Node, ghost y: Node, ghost z: Node) returns (result: Node)
    requires first.previous == x && last.next == y && position.previous == z
    requires first != position && last != position && x != last && y != first
    requires if z == last then y == position else y != position && z != x
    modifies x`next, y`previous, first`previous, last`next, z`next, position`previous
    ensures result == first && Joined(last, position)
    ensures if z == last then Joined(x, first) else Joined(x, y) && Joined(z, first)
  {
    first.previous.next := last.next;
    last.next.previous := first.previous;
    first.previous := position.previous;
    last.next := position;
    first.previous.next := first;
    position.previous := last;
    result := first;
  }

  /** enet_list_move within one ring, entered at position: the segment m from `first` to `last` is
      cut out and put before position. */
  method Splice(position: Node, first: Node, last: Node, ghost s: seq<Node>, ghost m: seq<Node>, ghost b: seq<Node>)
    returns (result: Node)
    requires s != [] && m != [] && Ring(s + m + b)
    requires position == First(s) && first == First(m) && last == Last(m)
    modifies s + m + b
    ensures result == first && Ring(s + b + m)
  {
    hide Ring, Distinct;
    ghost var r := s + m + b;
    ThreeParts(s, m, b);
    DistinctParts(s, m, b);
    ghost var x, y, z := Last(s), if b == [] then position else First(b), if b == [] then last else Last(b);
    assert x in s && y in s + b && z in m + b && first in m && last in m && position in s;
    assert forall n | n in s || n in m || n in b :: n in r;
    result := Relink(position, first, last, x, y, z);
    SwapDistinct(s, m, b);
    LinkedStays(s);
    LinkedStays(m);
    LinkedStays(b);
    Reassemble(s, m, b);
  }

  /** A segment whose inner links were not touched is still linked up. */
  twostate lemma LinkedStays(s: seq<Node>)
    requires old(Linked(s))
    requires forall i | 0 <= i < |s| - 1 :: s[i].next == old(s[i].next)
    requires forall i | 0 < i < |s| :: s[i].previous == old(s[i].previous)
    ensures Linked(s)
  {
  }

  lemma Reassemble(s: seq<Node>, m: seq<Node>, b: seq<Node>)
    requires s != [] && m != [] && Distinct(s + b + m) && Linked(s) && Linked(m) && Linked(b)
    requires if b == [] then Joined(Last(s), First(m)) else Joined(Last(s), First(b)) && Joined(Last(b), First(m))
    requires Joined(Last(m), First(s))
    ensures Ring(s + b + m)
  {
    if b == [] {
      assert s + b + m == s + m + b;
      ThreeParts(s, m, b);
    } else {
      ThreeParts(s, b, m);
    }
  }

  /** enet_list_move across two rings: the segment m leaves the ring m + b and goes before position,
      the first node of the ring s. */
  method SpliceAcross(position: Node, first: Node, last: Node, ghost s: seq<Node>, ghost m: seq<Node>, ghost b: seq<Node>)
    returns (result: Node)
    requires s != [] && m != [] && b != [] && Ring(s) && Ring(m + b) && Apart(s, m + b)
    requires position == First(s) && first == First(m) && last == Last(m)
    modifies s + m + b
    ensures result == first && Ring(s + m) && Ring(b)
  {
    hide Ring, Distinct;
    ghost var r := m + b;
    RingIsLinked(s);
    RingIsLinked(r);
    assert Last(r) == Last(b) && First(r) == First(m);
    LinkedParts(m, b);
    assert [] + m + b == r;
    DistinctParts([], m, b);
    DistinctWhole(s);
    DistinctJoin(s, m, b);
    ghost var x, y, z := Last(b), First(b), Last(s);
    assert x in b && y in b && z in s && first in m && last in m && position in s;
    assert forall n | n in s || n in m || n in b :: n in s + m + b;
    result := Relink(position, first, last, x, y, z);
    LinkedStays(s);
    LinkedStays(m);
    LinkedStays(b);
    LinkedParts(s, m);
    assert Last(s + m) == Last(m) && First(s + m) == First(s);
    RingIsLinked(s + m);
    RingIsLinked(b);
  }

  lemma DistinctWhole(s: seq<Node>)
    requires Distinct(s)
    ensures Plain(s)
  {
  }

  lemma DistinctJoin(s: seq<Node>, m: seq<Node>, b: seq<Node>)
    requires Distinct(s) && Distinct(m + b) && Apart(s, m + b)
    ensures Distinct(s + m) && Distinct(b)
  {
    assert forall i | 0 <= i < |m| :: (m + b)[i] == m[i];
    assert forall i | 0 <= i < |b| :: (m + b)[|m| + i] == b[i];
    assert forall i | 0 <= i < |s| + |m| :: (s + m)[i] == if i < |s| then s[i] else (m + b)[i - |s|];
  }

  // ----- lists -----

  /** The nodes j..k of c before node `to`. */
  function MovedTo<T>(c: seq<T>, j: nat, k: nat, to: nat): seq<T>
    requires j < k <= |c| && to <= |c| && (to < j || k <= to)
  {
    if to < j then c[..to] + c[j..k] + c[to..j] + c[k..] else c[..j] + c[k..to] + c[j..k] + c[to..]
  }

  /** The ring entered at node `to`, cut before and behind the nodes j..k. */
  function Segments<T>(c: seq<T>, n: T, j: nat, k: nat, to: nat): (seq<T>, seq<T>, seq<T>)
    requires j < k <= |c| && to <= |c| && (to < j || k <= to)
  {
    if to < j then (c[to..j], c[j..k], c[k..] + ([n] + c[..to]))
    else (c[to..] + ([n] + c[..j]), c[j..k], c[k..to])
  }

  lemma SegmentsMeet<T>(c: seq<T>, n: T, j: nat, k: nat, to: nat)
    requires j < k <= |c| && to <= |c| && (to < j || k <= to)
    ensures var (s, m, b) := Segments(c, n, j, k, to);
      && s != [] && m != [] && s[0] == (if to < |c| then c[to] else n) && m[0] == c[j] && m[|m| - 1] == c[k - 1]
      && s + m + b == c[to..] + ([n] + c[..to])
    ensures var (s, m, b) := Segments(c, n, j, k, to);
      var c', at := MovedTo(c, j, k, to), if to < j then to + (k - j) else to;
      |c'| == |c| && s + b + m == c'[at..] + ([n] + c'[..at])
  {
    if to < j { MeetBefore(c, n, j, k, to); } else { MeetBehind(c, n, j, k, to); }
  }

  lemma MeetBefore<T>(c: seq<T>, n: T, j: nat, k: nat, to: nat)
    requires to < j < k <= |c|
    ensures c[to..j] + c[j..k] + (c[k..] + ([n] + c[..to])) == c[to..] + ([n] + c[..to])
    ensures var c', at := c[..to] + c[j..k] + c[to..j] + c[k..], to + (k - j);
      |c'| == |c| && c[to..j] + (c[k..] + ([n] + c[..to])) + c[j..k] == c'[at..] + ([n] + c'[..at])
  {
    var c', at := c[..to] + c[j..k] + c[to..j] + c[k..], to + (k - j);
    assert c[to..] == c[to..j] + c[j..k] + c[k..];
    var front, tail := c[..to] + c[j..k], c[to..j] + c[k..];
    assert c' == front + tail && |front| == at;
    assert c'[at..] == tail && c'[..at] == front;
  }

  lemma MeetBehind<T>(c: seq<T>, n: T, j: nat, k: nat, to: nat)
    requires j < k <= to <= |c|
    ensures c[to..] + ([n] + c[..j]) + c[j..k] + c[k..to] == c[to..] + ([n] + c[..to])
    ensures var c' := c[..j] + c[k..to] + c[j..k] + c[to..];
      |c'| == |c| && c[to..] + ([n] + c[..j]) + c[k..to] + c[j..k] == c'[to..] + ([n] + c'[..to])
  {
    var c' := c[..j] + c[k..to] + c[j..k] + c[to..];
    assert c[..to] == c[..j] + c[j..k] + c[k..to];
    var front := c[..j] + c[k..to] + c[j..k];
    assert c' == front + c[to..] && |front| == to;
    assert c'[to..] == c[to..] && c'[..to] == front;
  }

  lemma SegmentNodes<T>(c: seq<T>, n: T, j: nat, k: nat, to: nat)
    requires j < k <= |c| && to <= |c| && (to < j || k <= to)
    ensures var (s, m, b) := Segments(c, n, j, k, to); forall x | x in s + m + b :: x == n || x in c
  {
    SegmentsMeet(c, n, j, k, to);
    var (s, m, b) := Segments(c, n, j, k, to);
    assert forall x | x in c[to..] + ([n] + c[..to]) :: x == n || x in c;
  }

  /** The pieces of two rings before and after nodes j..k of the second go before node `to` of the
      first. */
  lemma AcrossMeets<T>(c: seq<T>, n: T, to: nat, d: seq<T>, o: T, j: nat, k: nat)
    requires to <= |c| && j < k <= |d|
    ensures var s, m, b := c[to..] + ([n] + c[..to]), d[j..k], d[k..] + ([o] + d[..j]);
      && d[j..] + ([o] + d[..j]) == m + b
      && (forall x | x in s + m + b :: x == n || x in c || x == o || x in d)
      && (forall x | x in s :: x == n || x in c) && (forall x | x in m + b :: x == o || x in d)
    ensures var s, m, b := c[to..] + ([n] + c[..to]), d[j..k], d[k..] + ([o] + d[..j]);
      var c', d' := c[..to] + m + c[to..], d[..j] + d[k..];
      && s + m == c'[to + |m|..] + ([n] + c'[..to + |m|])
      && b == d'[j..] + ([o] + d'[..j])
  {
    var s, m, b := c[to..] + ([n] + c[..to]), d[j..k], d[k..] + ([o] + d[..j]);
    var c', d' := c[..to] + m + c[to..], d[..j] + d[k..];
    assert c'[to + |m|..] == c[to..] && c'[..to + |m|] == c[..to] + m;
    assert d'[j..] == d[k..] && d'[..j] == d[..j];
    assert d[j..] == m + d[k..];
  }

  /** An ENetList: its nodes in order are `contents`, and the sentinel closes the ring. */
  class EnetList {
    const sentinel: Node
    ghost var contents: seq<Node>

    ghost predicate Valid()
      reads this, sentinel, contents
    {
      Ring([sentinel] + contents)
    }

    /** enet_list_clear */
    constructor ()
      ensures Valid() && contents == [] && fresh(sentinel)
    {
      var node := new Node();
      sentinel := node;
      contents := [];
      new;
      node.next := node;
      node.previous := node;
    }

    /** The ring entered at the k-th node, or at the sentinel if k is the length. */
    lemma EnterAt(k: nat)
      requires Valid() && k <= |contents|
      ensures Ring(contents[k..] + ([sentinel] + contents[..k]))
    {
      var r := [sentinel] + contents;
      if k == |contents| {
        assert contents[k..] + ([sentinel] + contents[..k]) == r;
      } else {
        RingFrom(r, k + 1);
        assert Rotated(r, k + 1) == contents[k..] + ([sentinel] + contents[..k]);
      }
    }

    /** A ring entered at the k-th node is this list's. */
    lemma LeaveAt(k: nat, c: seq<Node>)
      requires k <= |c| && Ring(c[k..] + ([sentinel] + c[..k]))
      ensures Ring([sentinel] + c)
    {
      var r := c[k..] + ([sentinel] + c[..k]);
      if k == |c| {
        assert r == [sentinel] + c;
      } else {
        RingFrom(r, |c| - k);
        assert Rotated(r, |c| - k) == [sentinel] + c;
      }
    }

    /** enet_list_insert before the k-th node, or at the end. */
    method InsertAt(position: Node, data: Node, ghost k: nat) returns (result: Node)
      requires Valid() && k <= |contents| && position == (if k < |contents| then contents[k] else sentinel)
      requires data != sentinel && data !in contents
      modifies this, sentinel, contents, data
      ensures Valid() && result == data && contents == old(contents)[..k] + [data] + old(contents)[k..]
    {
      hide Ring;
      EnterAt(k);
      ghost var r := contents[k..] + ([sentinel] + contents[..k]);
      assert r[0] == position && forall n | n in r :: n == sentinel || n in contents;
      assert r[|r| - 1] in r;
      result := Insert(position, data, r);
      ghost var c := contents[..k] + [data] + contents[k..];
      assert r + [data] == contents[k..] + ([sentinel] + (contents[..k] + [data]));
      assert c[k + 1..] == contents[k..] && c[..k + 1] == contents[..k] + [data];
      contents := c;
      LeaveAt(k + 1, c);
    }

    /** enet_list_remove of the k-th node. */
    method RemoveAt(position: Node, ghost k: nat) returns (data: Node)
      requires Valid() && k < |contents| && position == contents[k]
      modifies this, sentinel, contents
      ensures Valid() && data == old(contents)[k] && contents == old(contents)[..k] + old(contents)[k + 1..]
    {
      hide Ring;
      EnterAt(k);
      ghost var r := contents[k..] + ([sentinel] + contents[..k]);
      assert r[0] == position && forall n | n in r :: n == sentinel || n in contents;
      assert r[|r| - 1] in r && r[1] in r;
      data := Remove(position, r);
      ghost var c := contents[..k] + contents[k + 1..];
      assert r[1..] == c[k..] + ([sentinel] + c[..k]);
      contents := c;
      LeaveAt(k, c);
    }

    /** enet_list_size: the walk comes back to the sentinel after as many steps as there are nodes. */
    method Size() returns (size: nat)
      requires Valid()
      ensures size == |contents|
    {
      size := 0;
      ghost var r := [sentinel] + contents;
      assert r[0] == sentinel && forall i | 0 <= i < |contents| :: r[i + 1] == contents[i] != r[0];
      var position := sentinel.next;
      while position != sentinel
        invariant size <= |contents|
        invariant position == if size < |contents| then contents[size] else sentinel
        decreases |contents| - size
      {
        assert r[size + 1] == position && position != sentinel;
        assert size + 2 < |r| ==> r[size + 2] == contents[size + 1];
        position := position.next;
        size := size + 1;
      }
    }

    /** enet_list_move of the nodes j..k of this list before its node `to`, behind or before them. */
    method MoveTo(position: Node, first: Node, last: Node, ghost j: nat, ghost k: nat, ghost to: nat)
      returns (result: Node)
      requires Valid() && j < k <= |contents| && to <= |contents| && (to < j || k <= to)
      requires first == contents[j] && last == contents[k - 1]
      requires position == (if to < |contents| then contents[to] else sentinel)
      modifies this, sentinel, contents
      ensures Valid() && result == first && contents == MovedTo(old(contents), j, k, to)
    {
      hide Ring;
      EnterAt(to);
      ghost var (s, m, b) := Segments(contents, sentinel, j, k, to);
      SegmentsMeet(contents, sentinel, j, k, to);
      SegmentNodes(contents, sentinel, j, k, to);
      result := Splice(position, first, last, s, m, b);
      contents := MovedTo(contents, j, k, to);
      LeaveAt(if to < j then to + (k - j) else to, contents);
    }

    /** enet_list_move of all nodes j..k of another list before node `to` of this one. */
    method MoveFrom(other: EnetList, position: Node, first: Node, last: Node, ghost j: nat, ghost k: nat, ghost to: nat)
      returns (result: Node)
      requires Valid() && other.Valid() && other != this && j < k <= |other.contents| && to <= |contents|
      requires Apart([sentinel] + contents, [other.sentinel] + other.contents)
      requires first == other.contents[j] && last == other.contents[k - 1]
      requires position == (if to < |contents| then contents[to] else sentinel)
      modifies this, other, sentinel, contents, other.sentinel, other.contents
      ensures Valid() && other.Valid() && result == first
      ensures contents == old(contents)[..to] + old(other.contents)[j..k] + old(contents)[to..]
      ensures other.contents == old(other.contents)[..j] + old(other.contents)[k..]
    {
      hide Ring, Apart;
      EnterAt(to);
      other.EnterAt(j);
      ghost var c, d := contents, other.contents;
      ghost var s, m, b := c[to..] + ([sentinel] + c[..to]), d[j..k], d[k..] + ([other.sentinel] + d[..j]);
      ghost var c', d' := c[..to] + m + c[to..], d[..j] + d[k..];
      AcrossMeets(c, sentinel, to, d, other.sentinel, j, k);
      StillApart(c, sentinel, s, d, other.sentinel, m + b);
      Ends(c, sentinel, to);
      result := SpliceAcross(position, first, last, s, m, b);
      LeaveAt(to + |m|, c');
      other.LeaveAt(j, d');
      contents := c';
      other.contents := d';
    }
  }

  lemma Ends<T>(c: seq<T>, n: T, to: nat)
    requires to <= |c|
    ensures (c[to..] + ([n] + c[..to]))[0] == if to < |c| then c[to] else n
  {
  }

  lemma StillApart(c: seq<Node>, n: Node, s: seq<Node>, d: seq<Node>, o: Node, t: seq<Node>)
    requires Apart([n] + c, [o] + d)
    requires forall x | x in s :: x == n || x in c
    requires forall x | x in t :: x == o || x in d
    ensures Apart(s, t)
  {
    forall i | 0 <= i < |s| ensures s[i] !in t {
      assert s[i] in [n] + c;
      assert forall x | x in t :: x in [o] + d;
    }
  }
}
