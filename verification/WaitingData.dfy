/** The peer's count of waiting data. On every path through the receiver it is the size of the
    packets that are queued or dispatched and not yet taken, so subtracting a packet that is taken
    does not go below zero. */
module WaitingData {
  import opened Bytes
  import opened EnetReceiver
  import opened SeqNumbers
  import D = EnetDelivery

  function Sizes(ps: seq<seq<byte>>): nat {
    if ps == [] then 0 else |ps[0]| + Sizes(ps[1..])
  }

  /** Size of what the peer holds for the application. */
  function Holding(r: Recv): nat { Sizes(Packets(r.incoming)) + Sizes(r.dispatched) }

  lemma {:induction false} SizesJoin(a: seq<seq<byte>>, b: seq<seq<byte>>)
    ensures Sizes(a + b) == Sizes(a) + Sizes(b)
    decreases |a|
  {
    if a == [] {
      assert a + b == b;
    } else {
      assert (a + b)[1..] == a[1..] + b;
      SizesJoin(a[1..], b);
    }
  }

  lemma PacketsJoin(a: seq<InCmd>, b: seq<InCmd>)
    ensures Sizes(Packets(a + b)) == Sizes(Packets(a)) + Sizes(Packets(b))
  {
    assert Packets(a + b) == Packets(a) + Packets(b);
    SizesJoin(Packets(a), Packets(b));
  }

  lemma PacketsOne(c: InCmd)
    ensures Sizes(Packets([c])) == |c.data|
  {
    assert Packets([c]) == [c.data] && Sizes([c.data][1..]) == 0;
  }

  /** Packets move from the queue to the dispatched list. */
  lemma DispatchHolds(r: Recv)
    ensures Holding(Dispatch(r)) == Holding(r) && Dispatch(r).waiting == r.waiting
  {
    var n := Ready(r.incoming, r.current, 0).0;
    assert r.incoming == r.incoming[..n] + r.incoming[n..];
    PacketsJoin(r.incoming[..n], r.incoming[n..]);
    SizesJoin(r.dispatched, Packets(r.incoming[..n]));
  }

  /** What a packet adds to the count it adds to what is held. */
  lemma EnqueueHolds(r: Recv, c: InCmd)
    ensures var r' := Enqueue(r, c).0; r'.waiting - Holding(r') == r.waiting - Holding(r)
  {
    var slot := Search(r.incoming, r.current, c.rseq, |r.incoming|);
    if slot.At? {
      var q, pos := r.incoming, slot.pos;
      var r1 := r.(incoming := q[..pos] + [c] + q[pos..], waiting := r.waiting + |c.data|);
      assert q == q[..pos] + q[pos..];
      PacketsJoin(q[..pos], q[pos..]);
      PacketsJoin(q[..pos] + [c], q[pos..]);
      PacketsJoin(q[..pos], [c]);
      PacketsOne(c);
      DispatchHolds(r1);
    }
  }

  /** A fragment fills in bytes of a packet that was counted when its entry was made. */
  lemma StoreHolds(r: Recv, k: nat, number: nat, offset: nat, bytes: seq<byte>)
    requires k < |r.incoming| && number < |r.incoming[k].bits| && offset <= |r.incoming[k].data|
    ensures var r' := StoreAt(r, k, number, offset, bytes); r'.waiting - Holding(r') == r.waiting - Holding(r)
  {
    var q, c := r.incoming, Store(r.incoming[k], number, offset, bytes);
    assert q == q[..k] + [q[k]] + q[k + 1..] && q[k := c] == q[..k] + [c] + q[k + 1..];
    PacketsJoin(q[..k] + [q[k]], q[k + 1..]);
    PacketsJoin(q[..k], [q[k]]);
    PacketsJoin(q[..k] + [c], q[k + 1..]);
    PacketsJoin(q[..k], [c]);
    PacketsOne(q[k]);
    PacketsOne(c);
    DispatchHolds(r.(incoming := q[k := c]));
  }

  lemma OnReliableHolds(r: Recv, s: u16, data: seq<byte>)
    ensures var r' := OnReliable(r, s, data).0; r'.waiting - Holding(r') == r.waiting - Holding(r)
  {
    EnqueueHolds(r, InCmd(s, 0, 0, [], data));
  }

  lemma OnFragmentHolds(r: Recv, f: FragmentIn)
    requires EntriesWellFormed(r.incoming)
    ensures var r' := OnFragment(r, f).0; r'.waiting - Holding(r') == r.waiting - Holding(r)
  {
    hide StoreAt, Holding, Enqueue;
    if |f.bytes| <= r.maximumPacketSize && Receivable(f.start, r.current)
       && f.number < f.count <= MAX_FRAGMENTS && f.offset + |f.bytes| <= f.total <= r.maximumPacketSize && f.offset < f.total {
      match Search(r.incoming, r.current, f.start, |r.incoming|)
      case Present(k) =>
        var c := r.incoming[k];
        if c.count == f.count && c.count > 0 && |c.data| == f.total { StoreHolds(r, k, f.number, f.offset, f.bytes); }
      case At(_) =>
        var c := Blank(f.start, f.count, f.total);
        var (r', out) := Enqueue(r, c);
        EnqueueHolds(r, c);
        if out.Queued? {
          BlankStays(r, c);
          StoreHolds(r', out.pos - (|r.incoming| + 1 - |r'.incoming|), f.number, f.offset, f.bytes);
        }
    }
  }

  lemma ReceiveHolds(r: Recv)
    ensures var r' := Receive(r); r'.waiting - Holding(r') == r.waiting - Holding(r)
  {
  }

  /** At every moment of every run the count is exactly what the peer holds. */
  lemma {:induction false} WaitingIsHolding(e: D.Env, trace: seq<D.System>, steps: seq<D.Step>, i: nat)
    requires D.ValidEnv(e) && D.Run(e, trace, steps) && i < |trace|
    ensures trace[i].r.waiting == Holding(trace[i].r) >= 0
  {
    hide Holding, OnReliable, OnFragment, Receive;
    if i == 0 {
      NothingHeld(trace[0].r);
    } else {
      WaitingIsHolding(e, trace, steps, i - 1);
      var s, s' := trace[i - 1], trace[i];
      assert D.Next(e, s, s', steps[i - 1]);
      match steps[i - 1]
      case DoData(c) =>
        match c.body {
          case Whole(data) => OnReliableHolds(s.r, c.rseq, data);
          case Part(f) => OnFragmentHolds(s.r, f);
        }
      case DoTake => ReceiveHolds(s.r);
      case _ =>
    }
  }

  lemma NothingHeld(r: Recv)
    requires r.incoming == [] && r.dispatched == []
    ensures Holding(r) == 0
  {
    assert Packets(r.incoming) == [];
  }

  /** So the packet that is taken is covered by the count. */
  lemma TakenIsCovered(e: D.Env, trace: seq<D.System>, steps: seq<D.Step>, i: nat)
    requires D.ValidEnv(e) && D.Run(e, trace, steps) && i < |trace| && trace[i].r.dispatched != []
    ensures trace[i].r.waiting >= |trace[i].r.dispatched[0]|
  {
    WaitingIsHolding(e, trace, steps, i);
  }
}
