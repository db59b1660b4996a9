/** The receiver of EnetReceiver performed in place: a channel whose queue and numbers its methods
    update, and which they leave in the state the value functions of EnetReceiver give. */
module IncomingChannels {
  import opened Bytes
  import opened Options
  import opened SeqNumbers
  import R = EnetReceiver
  import opened EnetReceiver

  /** The tests of handle_send_fragment on the fields of the header. */
  predicate FieldsFit(f: FragmentIn, maximum: nat) {
    && f.count <= R.MAX_FRAGMENTS && f.number < f.count && f.total <= maximum
    && f.offset < f.total && |f.bytes| <= f.total - f.offset
  }

  /** The entry a fragment belongs to, which is made if it is its packet's first. */
  ghost function Placed(r: Recv, f: FragmentIn, standing: Standing): (Recv, Option<nat>) {
    match Search(r.incoming, r.current, f.start, |r.incoming|)
    case Present(k) =>
      var c := r.incoming[k];
      (r, if c.count == 0 || |c.data| != f.total || c.count != f.count then None else Some(k))
    case At(_) =>
      var (r', out) := EnqueueAs(r, Blank(f.start, f.count, f.total), standing);
      var gone := |r.incoming| + 1 - |r'.incoming|;
      (r', if out.Queued? && 0 <= gone <= out.pos then Some(out.pos - gone) else None)
  }

  lemma PlacedFits(r: Recv, f: FragmentIn, standing: Standing)
    requires EntriesWellFormed(r.incoming) && FieldsFit(f, r.maximumPacketSize) && standing != Elsewhere
    requires |f.bytes| <= r.maximumPacketSize && Receivable(f.start, r.current)
    ensures var (r', k) := Placed(r, f, standing);
      && (k.Some? ==>
            && k.value < |r'.incoming| && f.number < |r'.incoming[k.value].bits| && f.offset <= |r'.incoming[k.value].data|)
      && OnFragmentAs(r, f, standing) ==
           if k.None? then (r', false) else (R.StoreAt(r', k.value, f.number, f.offset, f.bytes), true)
  {
    hide R.StoreAt, Enqueue;
    BlankStays(r, Blank(f.start, f.count, f.total));
  }

  class IncomingChannel {
    var current: u16
    var incoming: seq<InCmd>
    var dispatched: seq<seq<byte>>
    var waiting: int
    var maximumPacketSize: nat
    var maximumWaitingData: nat

    constructor (maximumPacketSize: nat, maximumWaitingData: nat)
      ensures View() == Recv(0, [], [], 0, maximumPacketSize, maximumWaitingData)
    {
      current, incoming, dispatched, waiting := 0, [], [], 0;
      this.maximumPacketSize, this.maximumWaitingData := maximumPacketSize, maximumWaitingData;
    }

    function View(): Recv
      reads this
    {
      Recv(current, incoming, dispatched, waiting, maximumPacketSize, maximumWaitingData)
    }

    /** The backward walk over the queue. */
    method Find(s: u16) returns (r: Slot)
      ensures r == Search(incoming, current, s, |incoming|)
    {
      var k: nat := |incoming|;
      while k > 0
        invariant k <= |incoming|
        invariant Search(incoming, current, s, k) == Search(incoming, current, s, |incoming|)
        decreases k
      {
        var c := incoming[k - 1].rseq;
        if s >= current {
          if c < current {
            k := k - 1;
            continue;
          }
        } else if c >= current {
          return At(k);
        }
        if c <= s {
          if c < s { return At(k); }
          return Present(k - 1);
        }
        k := k - 1;
      }
      return At(0);
    }

    /** dispatch_incoming_reliable_commands */
    method Dispatch()
      modifies `current, `incoming, `dispatched
      ensures View() == R.Dispatch(old(View()))
    {
      var k := 0;
      while k < |incoming|
        invariant k <= |incoming| && incoming == old(incoming) && dispatched == old(dispatched)
        invariant Ready(incoming, current, k) == Ready(incoming, old(current), 0)
        decreases |incoming| - k
      {
        var c := incoming[k];
        if c.remaining > 0 || c.rseq != (current + 1) % WRAP { break; }
        current := c.rseq;
        if c.count > 0 { current := (current + c.count - 1) % WRAP; }
        k := k + 1;
      }
      assert Packets(incoming[..0]) == [] && dispatched + [] == dispatched;
      dispatched := dispatched + Packets(incoming[..k]);
      incoming := incoming[k..];
    }

    /** enet_peer_queue_incoming_command for a reliable command. */
    method Enqueue(c: InCmd, standing: Standing) returns (out: Outcome)
      modifies `current, `incoming, `dispatched, `waiting
      ensures (View(), out) == EnqueueAs(old(View()), c, standing)
    {
      hide R.Dispatch;
      var drop := if c.count > 0 then Failed else Discarded;
      if standing == Leaving { return drop; }
      if !Receivable(c.rseq, current) || c.rseq == current { return drop; }
      var slot := Find(c.rseq);
      if slot.Present? { return drop; }
      if waiting >= maximumWaitingData { return Failed; }
      waiting := waiting + |c.data|;
      incoming := incoming[..slot.pos] + [c] + incoming[slot.pos..];
      Dispatch();
      return Queued(slot.pos);
    }

    /** handle_send_reliable */
    method OnReliable(s: u16, data: seq<byte>, standing: Standing) returns (ok: bool)
      modifies `current, `incoming, `dispatched, `waiting
      ensures (View(), ok) == OnReliableAs(old(View()), s, data, standing)
    {
      hide R.Enqueue;
      if standing == Elsewhere || |data| > maximumPacketSize { return false; }
      var out := Enqueue(InCmd(s, 0, 0, [], data), standing);
      return out != Failed;
    }

    /** handle_send_fragment */
    method OnFragment(f: FragmentIn, standing: Standing) returns (ok: bool)
      requires EntriesWellFormed(incoming)
      modifies `current, `incoming, `dispatched, `waiting
      ensures (View(), ok) == OnFragmentAs(old(View()), f, standing)
    {
      hide Search, Placed, R.StoreAt, R.Enqueue;
      if standing == Elsewhere || |f.bytes| > maximumPacketSize { return false; }
      if !Receivable(f.start, current) { return true; }
      if !FieldsFit(f, maximumPacketSize) { return false; }
      PlacedFits(View(), f, standing);
      var k := Place(f, standing);
      if k.None? { return false; }
      StoreAt(k.value, f.number, f.offset, f.bytes);
      return true;
    }

    /** The walk of handle_send_fragment, and the entry made when it finds none. */
    method Place(f: FragmentIn, standing: Standing) returns (k: Option<nat>)
      requires f.count > 0
      modifies `current, `incoming, `dispatched, `waiting
      ensures (View(), k) == Placed(old(View()), f, standing)
    {
      hide R.Enqueue, Search;
      var slot := Find(f.start);
      if slot.Present? {
        var c := incoming[slot.pos];
        if c.count == 0 || |c.data| != f.total || c.count != f.count { return None; }
        return Some(slot.pos);
      }
      var queued := |incoming| + 1;
      BlankStays(View(), Blank(f.start, f.count, f.total));
      var out := Enqueue(Blank(f.start, f.count, f.total), standing);
      if !out.Queued? { return None; }
      return Some(out.pos - (queued - |incoming|));
    }

    /** Marks fragment `number` of entry `k` and copies its bytes, unless it came before. */
    method StoreAt(k: nat, number: nat, offset: nat, bytes: seq<byte>)
      requires k < |incoming| && number < |incoming[k].bits| && offset <= |incoming[k].data|
      modifies `current, `incoming, `dispatched
      ensures View() == R.StoreAt(old(View()), k, number, offset, bytes)
    {
      var c := incoming[k];
      if c.bits[number] { return; }
      c := c.(remaining := c.remaining - 1, bits := c.bits[number := true]);
      var length := |bytes|;
      if offset + length > |c.data| { length := |c.data| - offset; }
      c := c.(data := Overwrite(c.data, offset, bytes[..length]));
      incoming := incoming[k := c];
      if c.remaining == 0 { Dispatch(); }
    }

    /** enet_peer_receive */
    method Receive() returns (packet: Option<seq<byte>>)
      modifies `dispatched, `waiting
      ensures View() == R.Receive(old(View()))
      ensures packet == if old(dispatched) == [] then None else Some(old(dispatched[0]))
    {
      if dispatched == [] { return None; }
      var data := dispatched[0];
      dispatched := dispatched[1..];
      waiting := waiting - |data|;
      return Some(data);
    }
  }
}
