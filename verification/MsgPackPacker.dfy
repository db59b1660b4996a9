/** v1/pack.hpp and the object walk of v1/object.hpp: methods that append to a stream, branch by
    branch, and what they append. */
module MsgPackPacker {
  import opened Bytes
  import opened MsgPackFormat

  /** The low byte of a two's complement number. */
  function Low8(d: int): byte { d % 0x100 }

  class Packer {
    var stream: seq<byte>

    constructor ()
      ensures stream == []
    {
      stream := [];
    }

    method Append(b: seq<byte>)
      modifies this
      ensures stream == old(stream) + b
    {
      stream := stream + b;
    }

    method PackImpUint8(d: nat)
      requires d < 0x100
      modifies this
      ensures stream == old(stream) + IntBytes(d)
    {
      if d < 0x80 { Append([Low8(d)]); } else { Append([0xcc, Low8(d)]); }
    }

    method PackImpUint16(d: nat)
      requires d < 0x1_0000
      modifies this
      ensures stream == old(stream) + IntBytes(d)
    {
      if d < 0x80 { Append([Low8(d)]); }
      else if d < 0x100 { Append([0xcc, Low8(d)]); }
      else { Append([0xcd] + BigEndian(d, 2)); }
    }

    method PackImpUint32(d: nat)
      requires d <= MAX32
      modifies this
      ensures stream == old(stream) + IntBytes(d)
    {
      if d < 0x100 {
        if d < 0x80 { Append([Low8(d)]); } else { Append([0xcc, Low8(d)]); }
      } else {
        if d < 0x1_0000 { Append([0xcd] + BigEndian(d, 2)); } else { Append([0xce] + BigEndian(d, 4)); }
      }
    }

    method PackImpUint64(d: nat)
      requires d <= MAX64
      modifies this
      ensures stream == old(stream) + IntBytes(d)
    {
      if d < 0x100 {
        if d < 0x80 { Append([Low8(d)]); } else { Append([0xcc, Low8(d)]); }
      } else {
        if d < 0x1_0000 { Append([0xcd] + BigEndian(d, 2)); }
        else if d < 0x1_0000_0000 { Append([0xce] + BigEndian(d, 4)); }
        else { Append([0xcf] + BigEndian(d, 8)); }
      }
    }

    method PackImpInt8(d: int)
      requires -0x80 <= d < 0x80
      modifies this
      ensures stream == old(stream) + IntBytes(d)
    {
      if d < -0x20 { Append([0xd0, Low8(d)]); } else { Append([Low8(d)]); }
    }

    method PackImpInt16(d: int)
      requires -0x8000 <= d < 0x8000
      modifies this
      ensures stream == old(stream) + IntBytes(d)
    {
      if d < -0x20 {
        if d < -0x80 { Append([0xd1] + BigEndian(d % 0x1_0000, 2)); } else { Append([0xd0, Low8(d)]); }
      } else if d < 0x80 {
        Append([Low8(d)]);
      } else {
        if d < 0x100 { Append([0xcc, Low8(d)]); } else { Append([0xcd] + BigEndian(d % 0x1_0000, 2)); }
      }
    }

    method PackImpInt32(d: int)
      requires -0x8000_0000 <= d < 0x8000_0000
      modifies this
      ensures stream == old(stream) + IntBytes(d)
    {
      hide BigEndian;
      if d < -0x20 {
        if d < -0x8000 { Append([0xd2] + BigEndian(d % 0x1_0000_0000, 4)); }
        else if d < -0x80 { Append([0xd1] + BigEndian(d % 0x1_0000, 2)); }
        else { Append([0xd0, Low8(d)]); }
      } else if d < 0x80 {
        Append([Low8(d)]);
      } else {
        if d < 0x100 { Append([0xcc, Low8(d)]); }
        else if d < 0x1_0000 { Append([0xcd] + BigEndian(d % 0x1_0000, 2)); }
        else { Append([0xce] + BigEndian(d % 0x1_0000_0000, 4)); }
      }
    }

    method PackImpInt64(d: int)
      requires MIN64 <= d < -MIN64
      modifies this
      ensures stream == old(stream) + IntBytes(d)
    {
      hide BigEndian;
      if d < -0x20 {
        if d < -0x8000 {
          if d < -0x8000_0000 { Append([0xd3] + BigEndian(d % 0x1_0000_0000_0000_0000, 8)); }
          else { Append([0xd2] + BigEndian(d % 0x1_0000_0000, 4)); }
        } else {
          if d < -0x80 { Append([0xd1] + BigEndian(d % 0x1_0000, 2)); } else { Append([0xd0, Low8(d)]); }
        }
      } else if d < 0x80 {
        Append([Low8(d)]);
      } else {
        if d < 0x1_0000 {
          if d < 0x100 { Append([0xcc, Low8(d)]); } else { Append([0xcd] + BigEndian(d % 0x1_0000, 2)); }
        } else {
          if d < 0x1_0000_0000 { Append([0xce] + BigEndian(d % 0x1_0000_0000, 4)); }
          else { Append([0xcf] + BigEndian(d % 0x1_0000_0000_0000_0000, 8)); }
        }
      }
    }

    /** pack_array and pack_map */
    method PackGroup(keyed: bool, n: nat)
      requires n <= MAX32
      modifies this
      ensures stream == old(stream) + GroupHead(keyed, n)
    {
      if n < 16 { Append([if keyed then 0x80 + n else 0x90 + n]); }
      else if n < 0x1_0000 { Append([if keyed then 0xde else 0xdc] + BigEndian(n, 2)); }
      else { Append([if keyed then 0xdf else 0xdd] + BigEndian(n, 4)); }
    }

    method PackStr(s: seq<byte>)
      requires |s| <= MAX32
      modifies this
      ensures stream == old(stream) + Encode(Str(s))
    {
      var l := |s|;
      if l < 32 { Append([0xa0 + l]); }
      else if l < 0x100 { Append([0xd9, l]); }
      else if l < 0x1_0000 { Append([0xda] + BigEndian(l, 2)); }
      else { Append([0xdb] + BigEndian(l, 4)); }
      Append(s);
    }

    method PackBin(s: seq<byte>)
      requires |s| <= MAX32
      modifies this
      ensures stream == old(stream) + Encode(Bin(s))
    {
      var l := |s|;
      if l < 0x100 { Append([0xc4, l]); }
      else if l < 0x1_0000 { Append([0xc5] + BigEndian(l, 2)); }
      else { Append([0xc6] + BigEndian(l, 4)); }
      Append(s);
    }

    /** pack_ext with its type, and pack_ext_body */
    method PackExt(s: seq<byte>)
      requires 1 <= |s| <= MAX32 + 1
      modifies this
      ensures stream == old(stream) + Encode(Ext(s))
    {
      var l := |s| - 1;
      match l {
        case 1 => Append([0xd4, s[0]]);
        case 2 => Append([0xd5, s[0]]);
        case 4 => Append([0xd6, s[0]]);
        case 8 => Append([0xd7, s[0]]);
        case 16 => Append([0xd8, s[0]]);
        case _ =>
          if l < 0x100 { Append([0xc7, l, s[0]]); }
          else if l < 0x1_0000 { Append([0xc8] + BigEndian(l, 2) + [s[0]]); }
          else { Append([0xc9] + BigEndian(l, 4) + [s[0]]); }
      }
      assert stream == old(stream) + (ExtHead(l) + [s[0]]);
      Append(s[1..]);
      assert s == [s[0]] + s[1..];
    }

    /** The value visits of object_pack_visitor. */
    method PackScalar(x: Obj)
      requires Valid(x) && !x.Group?
      modifies this
      ensures stream == old(stream) + Encode(x)
    {
      match x
      case Nil => Append([0xc0]);
      case Bool(b) => if b { Append([0xc3]); } else { Append([0xc2]); }
      case UInt(u) => PackImpUint64(u);
      case NInt(i) => PackImpInt64(i);
      case F32(bits) => Append([0xca] + BigEndian(bits, 4));
      case F64(bits) => Append([0xcb] + BigEndian(bits, 8));
      case Str(s) => PackStr(s);
      case Bin(s) => PackBin(s);
      case Ext(s) => PackExt(s);
    }
  }

  // ----- object_parser -----

  /** An entry of m_ctx: the container's items, the one the walk is at, and how many items or
      pairs are left, counting the present one. */
  datatype Elem = Elem(items: seq<Obj>, at: nat, rest: nat, keyed: bool, isKey: bool)

  predicate ElemOk(e: Elem) {
    && AllValid(e.items) && e.at <= |e.items|
    && (if !e.keyed then e.rest == |e.items| - e.at
        else if e.isKey then 2 * e.rest == |e.items| - e.at
        else 2 * e.rest == |e.items| - e.at + 1 && e.at < |e.items|)
  }

  predicate CtxOk(ctx: seq<Elem>) {
    forall i | 0 <= i < |ctx| :: ElemOk(ctx[i])
  }

  /** The items of a container behind the present one. */
  function Rest(e: Elem): seq<Obj> { if e.at < |e.items| then e.items[e.at + 1..] else [] }

  /** What the walk still has to pack behind the present object, innermost container first. */
  function Ahead(ctx: seq<Elem>): seq<byte>
    requires CtxOk(ctx)
    decreases |ctx|
  {
    if ctx == [] then [] else EncodeAll(Rest(ctx[|ctx| - 1])) + Ahead(ctx[..|ctx| - 1])
  }

  function Weight(x: Obj): nat
    decreases x
  {
    if x.Group? then 1 + WeightAll(x.items) else 1
  }

  function WeightAll(xs: seq<Obj>): nat
    decreases xs
  {
    if xs == [] then 0 else Weight(xs[0]) + WeightAll(xs[1..])
  }

  function AheadWeight(ctx: seq<Elem>): nat
    decreases |ctx|
  {
    if ctx == [] then 0 else WeightAll(Rest(ctx[|ctx| - 1])) + AheadWeight(ctx[..|ctx| - 1])
  }

  /** elem::next: on to the next item, or out of the container. */
  function NextItem(e: Elem): (bool, Elem) {
    if e.rest == 0 then (false, e)
    else if e.keyed && e.isKey then (true, e.(isKey := false, at := e.at + 1))
    else if e.rest == 1 then (false, e.(rest := 0))
    else (true, e.(rest := e.rest - 1, at := e.at + 1, isKey := e.keyed))
  }

  lemma NextItemOk(e: Elem)
    requires ElemOk(e)
    ensures var (more, e') := NextItem(e);
      if more then
        && ElemOk(e') && e'.items == e.items && e'.at < |e.items| && AllValid(Rest(e)) && Valid(e'.items[e'.at])
        && Rest(e) != [] && Rest(e)[0] == e'.items[e'.at] && Rest(e)[1..] == Rest(e')
      else Rest(e) == []
  {
    hide Valid;
  }

  lemma HeadFirst(xs: seq<Obj>)
    requires xs != [] && AllValid(xs)
    ensures AllValid(xs[1..]) && EncodeAll(xs) == Encode(xs[0]) + EncodeAll(xs[1..])
    ensures WeightAll(xs) == Weight(xs[0]) + WeightAll(xs[1..])
  {
  }

  lemma NoneLeft()
    ensures EncodeAll([]) == [] && WeightAll([]) == 0
  {
  }

  /** Ahead, one container unfolded. */
  lemma AheadIs(ctx: seq<Elem>)
    requires CtxOk(ctx) && ctx != []
    ensures var n := |ctx| - 1;
      && AllValid(Rest(ctx[n])) && CtxOk(ctx[..n])
      && Ahead(ctx) == EncodeAll(Rest(ctx[n])) + Ahead(ctx[..n])
      && AheadWeight(ctx) == WeightAll(Rest(ctx[n])) + AheadWeight(ctx[..n])
  {
  }

  lemma AheadNext(ctx: seq<Elem>)
    requires CtxOk(ctx) && ctx != []
    ensures var n := |ctx| - 1; var (more, e) := NextItem(ctx[n]);
      if more then
        && CtxOk(ctx[n := e]) && e.at < |e.items| && Valid(e.items[e.at])
        && Ahead(ctx) == Encode(e.items[e.at]) + Ahead(ctx[n := e])
        && AheadWeight(ctx) == Weight(e.items[e.at]) + AheadWeight(ctx[n := e])
      else CtxOk(ctx[..n]) && Ahead(ctx) == Ahead(ctx[..n]) && AheadWeight(ctx) == AheadWeight(ctx[..n])
  {
    hide Encode, EncodeAll, Weight, WeightAll, Ahead, AheadWeight, Valid, NextItem, Rest, ElemOk;
    var n := |ctx| - 1;
    var (more, e) := NextItem(ctx[n]);
    NextItemOk(ctx[n]);
    AheadIs(ctx);
    if more {
      HeadFirst(Rest(ctx[n]));
      var ctx' := ctx[n := e];
      assert ctx'[..n] == ctx[..n];
      AheadIs(ctx');
      var x, xs, outer := Encode(e.items[e.at]), EncodeAll(Rest(e)), Ahead(ctx[..n]);
      assert (x + xs) + outer == x + (xs + outer);
    } else {
      NoneLeft();
      assert [] + Ahead(ctx[..n]) == Ahead(ctx[..n]);
    }
  }

  lemma AheadOpen(ctx: seq<Elem>, x: Obj) returns (n0: nat)
    requires CtxOk(ctx) && x.Group? && Valid(x)
    ensures n0 == Announced(x.keyed, |x.items|) <= MAX32 && AllValid(x.items)
    ensures Encode(x) == GroupHead(x.keyed, n0) + EncodeAll(x.items) && Weight(x) == 1 + WeightAll(x.items)
    ensures var n := n0; var ctx' := ctx + [Elem(x.items, 0, n, x.keyed, x.keyed)];
      && CtxOk(ctx')
      && (n > 0 ==> x.items != [] && EncodeAll(x.items) + Ahead(ctx) == Encode(x.items[0]) + Ahead(ctx')
                    && WeightAll(x.items) + AheadWeight(ctx) == Weight(x.items[0]) + AheadWeight(ctx'))
      && (n == 0 ==> EncodeAll(x.items) == [] && WeightAll(x.items) == 0 && Ahead(ctx') == Ahead(ctx) && AheadWeight(ctx') == AheadWeight(ctx))
  {
    hide Encode, EncodeAll, Weight, WeightAll, Ahead, AheadWeight;
    n0 := Announced(x.keyed, |x.items|);
    GroupIs(x);
    var ctx' := ctx + [Elem(x.items, 0, n0, x.keyed, x.keyed)];
    assert ctx'[..|ctx|] == ctx;
    AheadIs(ctx');
    if n0 > 0 { HeadFirst(x.items); } else { NoneLeft(); }
  }

  lemma Regroup(a: seq<byte>, b: seq<byte>, c: seq<byte>, d: seq<byte>)
    ensures (a + b) + (c + d) == a + ((b + c) + d) && b + [] == b && [] + d == d
  {
    assert (a + b) + (c + d) == a + ((b + c) + d);
  }

  lemma GroupIs(x: Obj)
    requires x.Group? && Valid(x)
    ensures Encode(x) == GroupHead(x.keyed, Announced(x.keyed, |x.items|)) + EncodeAll(x.items)
    ensures Weight(x) == 1 + WeightAll(x.items)
  {
  }

  lemma NothingAhead()
    ensures Ahead([]) == [] && AheadWeight([]) == 0
  {
  }

  lemma WeighsSomething(x: Obj)
    ensures Weight(x) > 0
  {
  }

  /** object_parser::parse with object_pack_visitor: the walk over an object packs it. */
  method PackObject(p: Packer, x: Obj)
    requires Valid(x)
    modifies p
    ensures p.stream == old(p.stream) + Encode(x)
  {
    hide Encode, EncodeAll, Weight, WeightAll, Ahead, AheadWeight, Valid, NextItem;
    var current, ctx: seq<Elem> := x, [];
    NothingAhead();
    ghost var goal := p.stream + Encode(x);
    assert p.stream + (Encode(x) + Ahead([])) == goal;
    while true
      invariant CtxOk(ctx) && Valid(current)
      invariant p.stream + (Encode(current) + Ahead(ctx)) == goal
      decreases Weight(current) + AheadWeight(ctx)
    {
      var startCollection := false;
      ghost var left := AheadWeight(ctx);
      ghost var before := p.stream;
      if current.Group? {
        var n := Announced(current.keyed, |current.items|);
        ghost var n0 := AheadOpen(ctx, current);
        p.PackGroup(current.keyed, n);
        Regroup(before, GroupHead(current.keyed, n), EncodeAll(current.items), Ahead(ctx));
        ctx := ctx + [Elem(current.items, 0, n, current.keyed, current.keyed)];
        startCollection := n != 0;
      } else {
        WeighsSomething(current);
        p.PackScalar(current);
        Regroup(before, Encode(current), [], Ahead(ctx));
      }
      if startCollection {
        current := ctx[|ctx| - 1].items[0];
      } else {
        assert p.stream + Ahead(ctx) == goal;
        if ctx == [] { return; }
        while true
          invariant ctx != [] && CtxOk(ctx) && p.stream + Ahead(ctx) == goal && AheadWeight(ctx) == left
          decreases |ctx|
        {
          var n := |ctx| - 1;
          AheadNext(ctx);
          var (more, e) := NextItem(ctx[n]);
          if more {
            ctx := ctx[n := e];
            current := e.items[e.at];
            break;
          }
          ctx := ctx[..n];
          if ctx == [] { return; }
        }
      }
    }
  }
}
