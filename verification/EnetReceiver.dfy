/** The receiving side of a reliable ENet channel as a value: queue_incoming_command for reliable
    packets, handle_send_fragment, dispatch_incoming_reliable_commands, enet_peer_receive.
    IncomingChannel is the class that performs them in place. */
module EnetReceiver {
  import opened Bytes
  import opened SeqNumbers
  import EnetSender

  const MAX_FRAGMENTS: nat := EnetSender.MAX_FRAGMENTS

  /** A queued packet. `count` is 0 for a packet that came whole; otherwise `bits` says which of
      the `count` fragments have been copied into `data` and `remaining` how many have not. */
  datatype InCmd = InCmd(rseq: u16, count: nat, remaining: int, bits: seq<bool>, data: seq<byte>)

  /** `waiting` is the peer's totalWaitingData: WaitingData proves that it never goes below zero. */
  datatype Recv = Recv(
    current: u16, incoming: seq<InCmd>, dispatched: seq<seq<byte>>,
    waiting: int, maximumPacketSize: nat, maximumWaitingData: nat)

  datatype Slot = At(pos: nat) | Present(pos: nat)

  /** Searches the queue from the back, as both handlers do: the place where number `s` belongs,
      or the place where it already is. Numbers below the current one count as wrapped. */
  function Search(q: seq<InCmd>, current: u16, s: u16, k: nat): (r: Slot)
    requires k <= |q|
    ensures r.At? ==> r.pos <= k
    ensures r.Present? ==> r.pos < k && q[r.pos].rseq == s
    decreases k
  {
    if k == 0 then At(0)
    else
      var c := q[k - 1].rseq;
      if s >= current && c < current then Search(q, current, s, k - 1)
      else if s < current && c >= current then At(k)
      else if c < s then At(k)
      else if c == s then Present(k - 1)
      else Search(q, current, s, k - 1)
  }

  function LastNumber(c: InCmd): u16 {
    if c.count > 0 then (c.rseq + c.count - 1) % WRAP else c.rseq
  }

  /** The loop of dispatch_incoming_reliable_commands: how many commands are ready, and the
      current number after them. */
  function Ready(q: seq<InCmd>, current: u16, k: nat): (r: (nat, u16))
    requires k <= |q|
    ensures k <= r.0 <= |q|
    decreases |q| - k
  {
    if k == |q| || q[k].remaining > 0 || q[k].rseq != (current + 1) % WRAP then (k, current)
    else Ready(q, LastNumber(q[k]), k + 1)
  }

  function Packets(q: seq<InCmd>): seq<seq<byte>> {
    seq(|q|, k requires 0 <= k < |q| => q[k].data)
  }

  function Dispatch(r: Recv): Recv {
    var (n, current) := Ready(r.incoming, r.current, 0);
    r.(current := current, incoming := r.incoming[n..], dispatched := r.dispatched + Packets(r.incoming[..n]))
  }

  datatype Outcome = Queued(pos: nat) | Discarded | Failed

  /** queue_incoming_command for a reliable command; `Queued` tells where the command stands in
      the queue before the dispatch that follows. */
  function Enqueue(r: Recv, c: InCmd): (Recv, Outcome) {
    var drop := if c.count > 0 then Failed else Discarded;
    if !Receivable(c.rseq, r.current) || c.rseq == r.current then (r, drop)
    else
      match Search(r.incoming, r.current, c.rseq, |r.incoming|)
      case Present(_) => (r, drop)
      case At(pos) =>
        if r.waiting >= r.maximumWaitingData then (r, Failed)
        else
          (Dispatch(r.(incoming := r.incoming[..pos] + [c] + r.incoming[pos..], waiting := r.waiting + |c.data|)),
           Queued(pos))
  }

  /** handle_send_reliable; the flag says whether the command was handled without error. */
  function OnReliable(r: Recv, s: u16, data: seq<byte>): (Recv, bool) {
    if |data| > r.maximumPacketSize then (r, false)
    else
      var (r', out) := Enqueue(r, InCmd(s, 0, 0, [], data));
      (r', out != Failed)
  }

  /** memcpy of `bytes` to `data + offset` */
  function Overwrite(data: seq<byte>, offset: nat, bytes: seq<byte>): (d: seq<byte>)
    requires offset + |bytes| <= |data|
    ensures |d| == |data|
  {
    data[..offset] + bytes + data[offset + |bytes|..]
  }

  function Blank(s: u16, count: nat, total: nat): InCmd {
    InCmd(s, count, count, seq(count, _ => false), seq(total, _ => 0))
  }

  /** Marks a fragment and copies its bytes, unless it is already there. */
  function Store(c: InCmd, number: nat, offset: nat, bytes: seq<byte>): InCmd
    requires number < |c.bits| && offset <= |c.data|
  {
    if c.bits[number] then c
    else
      var n := if offset + |bytes| > |c.data| then |c.data| - offset else |bytes|;
      c.(remaining := c.remaining - 1, bits := c.bits[number := true],
         data := Overwrite(c.data, offset, bytes[..n]))
  }

  /** Copies the fragment into the queue's entry `k`, and dispatches if that completes it. */
  function StoreAt(r: Recv, k: nat, number: nat, offset: nat, bytes: seq<byte>): Recv
    requires k < |r.incoming| && number < |r.incoming[k].bits| && offset <= |r.incoming[k].data|
  {
    if r.incoming[k].bits[number] then r
    else
      var c := Store(r.incoming[k], number, offset, bytes);
      var r' := r.(incoming := r.incoming[k := c]);
      if c.remaining == 0 then Dispatch(r') else r'
  }

  /** An arriving fragment: its packet's first number, and the fields of its header. */
  datatype FragmentIn = FragmentIn(start: u16, count: nat, number: nat, total: nat, offset: nat, bytes: seq<byte>)

  predicate EntriesWellFormed(q: seq<InCmd>) {
    forall k | 0 <= k < |q| :: |q[k].bits| == q[k].count
  }

  /** handle_send_fragment */
  function OnFragment(r: Recv, f: FragmentIn): (Recv, bool)
    requires EntriesWellFormed(r.incoming)
  {
    if |f.bytes| > r.maximumPacketSize then (r, false)
    else if !Receivable(f.start, r.current) then (r, true)
    else if f.count > MAX_FRAGMENTS || f.number >= f.count || f.total > r.maximumPacketSize
         || f.offset >= f.total || |f.bytes| > f.total - f.offset then (r, false)
    else
      match Search(r.incoming, r.current, f.start, |r.incoming|)
      case Present(k) =>
        var c := r.incoming[k];
        if c.count == 0 || |c.data| != f.total || c.count != f.count then (r, false)
        else (StoreAt(r, k, f.number, f.offset, f.bytes), true)
      case At(_) =>
        var (r', out) := Enqueue(r, Blank(f.start, f.count, f.total));
        if !out.Queued? then (r', false)
        else
          BlankStays(r, Blank(f.start, f.count, f.total));
          var k := out.pos - (|r.incoming| + 1 - |r'.incoming|);
          (StoreAt(r', k, f.number, f.offset, f.bytes), true)
  }

  /** What the fields of a fragment promise: it is one of its packet's fragments, of which there are
      not too many, and lies within the packet, which is not too large. */
  predicate Sane(r: Recv, f: FragmentIn) {
    && f.number < f.count <= 0x10_0000
    && f.offset < f.total && f.offset + |f.bytes| <= f.total <= r.maximumPacketSize
  }

  /** Whatever the fields of a fragment are: a sane one goes to the entry of its packet if that was
      announced with the same number of fragments and the same length, or to a new entry if there is
      none; all others are refused, but for those outside the windows, which are passed over. */
  lemma OnlySaneFragments(r: Recv, f: FragmentIn)
    requires EntriesWellFormed(r.incoming)
    ensures var (r', ok) := OnFragment(r, f);
      var s := Search(r.incoming, r.current, f.start, |r.incoming|);
      && (ok && Receivable(f.start, r.current) ==>
            Sane(r, f) && (s.Present? ==> var c := r.incoming[s.pos]; c.count == f.count && |c.data| == f.total))
      && (!Receivable(f.start, r.current) ==> r' == r && (ok <==> |f.bytes| <= r.maximumPacketSize))
      && (Receivable(f.start, r.current) && Sane(r, f) && s.Present? ==>
            (ok <==> var c := r.incoming[s.pos]; c.count == f.count && |c.data| == f.total))
      && (Receivable(f.start, r.current) && Sane(r, f) && s.At? && f.start != r.current ==>
            (ok <==> r.waiting < r.maximumWaitingData))
      && (!ok ==> r' == r)
  {
    hide Dispatch, StoreAt, Search, Receivable;
    if f.count > 0 { BlankStays(r, Blank(f.start, f.count, f.total)); }
  }

  /** A command that still misses fragments is not dispatched, and stays in the queue. */
  lemma BlankStays(r: Recv, c: InCmd)
    requires c.remaining > 0
    ensures var (r', out) := Enqueue(r, c);
      out.Queued? ==> var gone := |r.incoming| + 1 - |r'.incoming|;
        0 <= gone <= out.pos && out.pos - gone < |r'.incoming| && r'.incoming[out.pos - gone] == c
  {
    var (r', out) := Enqueue(r, c);
    if out.Queued? {
      var q := r.incoming[..out.pos] + [c] + r.incoming[out.pos..];
      ReadyStops(q, r.current, 0, out.pos);
    }
  }

  lemma ReadyStops(q: seq<InCmd>, current: u16, k: nat, pos: nat)
    requires k <= pos < |q| && q[pos].remaining > 0
    ensures Ready(q, current, k).0 <= pos
    decreases |q| - k
  {
  }

  // ----- the peer's state -----

  /** What the handlers make of the peer: not connected, or without the command's channel;
      connected; or to be disconnected later. */
  datatype Standing = Elsewhere | Staying | Leaving

  /** A peer that is to be disconnected later takes no further packet. */
  function EnqueueAs(r: Recv, c: InCmd, standing: Standing): (Recv, Outcome) {
    if standing == Leaving then (r, if c.count > 0 then Failed else Discarded) else Enqueue(r, c)
  }

  function OnReliableAs(r: Recv, s: u16, data: seq<byte>, standing: Standing): (Recv, bool) {
    match standing
    case Elsewhere => (r, false)
    case Leaving => (r, |data| <= r.maximumPacketSize)
    case Staying => OnReliable(r, s, data)
  }

  function OnFragmentAs(r: Recv, f: FragmentIn, standing: Standing): (Recv, bool)
    requires EntriesWellFormed(r.incoming)
  {
    if standing == Elsewhere then (r, false)
    else if standing == Leaving && Search(r.incoming, r.current, f.start, |r.incoming|).At?
    then (r, |f.bytes| <= r.maximumPacketSize && !Receivable(f.start, r.current))
    else OnFragment(r, f)
  }

  /** A peer that is to be disconnected later goes on completing the packets it has begun, but takes
      no new one: a whole packet it drops all the same counts as handled, and is acknowledged. */
  lemma LeavingTakesNothing(r: Recv, s: u16, data: seq<byte>, f: FragmentIn)
    requires EntriesWellFormed(r.incoming)
    ensures OnReliableAs(r, s, data, Leaving) == (r, |data| <= r.maximumPacketSize)
    ensures var r' := OnFragmentAs(r, f, Leaving).0;
      && r'.waiting == r.waiting && |r'.dispatched| + |r'.incoming| == |r.dispatched| + |r.incoming|
      && r.dispatched <= r'.dispatched
    ensures Search(r.incoming, r.current, f.start, |r.incoming|).At? && |f.bytes| <= r.maximumPacketSize ==>
      var (r', ok) := OnFragmentAs(r, f, Leaving); r' == r && (ok <==> !Receivable(f.start, r.current))
  {
    hide Ready;
    if Search(r.incoming, r.current, f.start, |r.incoming|).Present? {
      var r' := OnFragment(r, f).0;
      if r' != r {
        var k := Search(r.incoming, r.current, f.start, |r.incoming|).pos;
        StoreAddsNothing(r, k, f.number, f.offset, f.bytes);
      }
    }
  }

  lemma StoreAddsNothing(r: Recv, k: nat, number: nat, offset: nat, bytes: seq<byte>)
    requires k < |r.incoming| && number < |r.incoming[k].bits| && offset <= |r.incoming[k].data|
    ensures var r' := StoreAt(r, k, number, offset, bytes);
      && r'.waiting == r.waiting && |r'.dispatched| + |r'.incoming| == |r.dispatched| + |r.incoming|
      && r.dispatched <= r'.dispatched
  {
    hide Ready;
  }

  /** enet_peer_receive */
  function Receive(r: Recv): Recv {
    if r.dispatched == [] then r
    else r.(dispatched := r.dispatched[1..], waiting := r.waiting - |r.dispatched[0]|)
  }
}
