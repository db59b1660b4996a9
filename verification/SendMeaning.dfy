/** What enet_peer_send queues for each kind of packet, down to the first byte on the wire. */
module SendMeaning {
  import opened Options
  import opened SeqNumbers
  import opened EnetSender
  import opened PacketNumbers
  import opened DatagramCodec
  import opened DatagramAssembly
  import SP = SenderPackets

  /** Command `d` is `c` set up: it has numbers, and has never been attempted. */
  predicate SetUp(c: Cmd, d: Cmd) {
    d == c.(attempts := 0, sentTime := 0, rto := 0, rtoLimit := 0,
            rseq := d.rseq, useq := d.useq, group := d.group, index := d.index)
  }

  /** A packet that goes out whole: unsequenced ones that are not reliable in a group of their own,
      reliable ones with the next reliable number, as are all once the channel has used up its
      unreliable numbers, and the rest with the next unreliable number. */
  ghost predicate QueuedWhole(p: Peer, chan: nat, rq: Request, c: Cmd, first: nat)
    requires chan < |p.chans|
  {
    var ch := p.chans[chan];
    && c.chan == chan && c.packet == Some(rq.id) && c.offset == 0 && c.len == rq.length && c.attempts == 0
    && c.unthrottled == rq.unthrottled
    && if rq.unsequenced && !rq.reliable then
         first == 0x49 && c.rseq == 0 && c.useq == 0 && c.group == (p.unseqGroup + 1) % 0x1_0000
       else if rq.reliable || ch.outUnrel == 0xFFFF then
         first == 0x86 && c.rseq == (ch.outSeq + 1) % 0x1_0000 && c.useq == 0
       else
         first == 0x07 && c.rseq == ch.outSeq && c.useq == ch.outUnrel + 1
  }

  /** Part `k` of a packet that is cut. Reliable parts have consecutive numbers; unreliable ones, of
      packets that ask for it while unreliable numbers last, share one pair of numbers. */
  ghost predicate QueuedPart(p: Peer, chan: nat, rq: Request, limit: nat, k: nat, c: Cmd, first: nat)
    requires chan < |p.chans| && limit > 0
  {
    var ch := p.chans[chan];
    && c.chan == chan && c.packet == Some(rq.id) && c.attempts == 0 && c.unthrottled == rq.unthrottled
    && c.offset == k * limit && c.offset + c.len == (if (k + 1) * limit < rq.length then (k + 1) * limit else rq.length)
    && c.fragment.count == Parts(rq.length, limit) && c.fragment.number == k && c.fragment.total == rq.length
    && if !rq.reliable && rq.unreliableFragment && ch.outUnrel < 0xFFFF then
         first == 0x0C && c.rseq == ch.outSeq && c.useq == c.fragment.start == ch.outUnrel + 1
       else
         && first == 0x88 && c.rseq == (ch.outSeq + 1 + k) % 0x1_0000 && c.useq == 0
         && c.fragment.start == (ch.outSeq + 1) % 0x1_0000
  }

  /** Commands of one channel that are all reliable, or all fragments of one unreliable packet. */
  predicate Alike(p: Peer, cs: seq<Cmd>, ch: nat) {
    && ch < |p.chans| && ch != PEER_CHANNEL
    && forall k | 0 <= k < |cs| ::
         && cs[k].chan == ch && cs[k].reliable == cs[0].reliable && (cs[k].reliable || cs[k].kind == SendUnreliableFragment)
         && (k > 0 ==> cs[k].offset > 0)
  }

  ghost predicate NumberedFrom(ch: Chan, cs: seq<Cmd>, ds: seq<Cmd>) {
    && |ds| == |cs|
    && forall k | 0 <= k < |cs| ::
         && SetUp(cs[k], ds[k])
         && if cs[k].reliable then ds[k].rseq == (ch.outSeq + 1 + k) % WRAP && ds[k].useq == 0
            else ds[k].rseq == ch.outSeq && ds[k].useq == (ch.outUnrel + if cs[0].offset == 0 then 1 else 0) % WRAP
  }

  lemma NumberedStep(ch: Chan, ch1: Chan, cs: seq<Cmd>, d: Cmd, ds: seq<Cmd>)
    requires cs != [] && NumberedFrom(ch1, cs[1..], ds) && SetUp(cs[0], d)
    requires forall k | 0 <= k < |cs| :: cs[k].reliable == cs[0].reliable && (k > 0 ==> cs[k].offset > 0)
    requires if cs[0].reliable then d.rseq == ch1.outSeq == (ch.outSeq + 1) % WRAP && d.useq == 0
             else d.rseq == ch.outSeq == ch1.outSeq
                  && d.useq == ch1.outUnrel == (if cs[0].offset == 0 then (ch.outUnrel + 1) % WRAP else ch.outUnrel)
    ensures NumberedFrom(ch, cs, [d] + ds)
  {
    hide SetUp;
    var all := [d] + ds;
    forall k | 0 <= k < |cs|
      ensures SetUp(cs[k], all[k])
      ensures if cs[k].reliable then all[k].rseq == (ch.outSeq + 1 + k) % WRAP && all[k].useq == 0
              else all[k].rseq == ch.outSeq && all[k].useq == (ch.outUnrel + if cs[0].offset == 0 then 1 else 0) % WRAP
    {
      if k > 0 {
        assert cs[1..][k - 1] == cs[k] && all[k] == ds[k - 1];
        OneFurther(ch.outSeq, k);
      }
    }
  }

  lemma OneFurther(s: nat, k: nat)
    requires k > 0
    ensures ((s + 1) % WRAP + 1 + (k - 1)) % WRAP == (s + 1 + k) % WRAP
  {
    AddMod(s + 1, k);
  }

  lemma SetupOne(p: Peer, c: Cmd) returns (d: Cmd)
    requires c.chan < |p.chans| && c.chan != PEER_CHANNEL && (c.reliable || c.kind == SendUnreliableFragment)
    ensures var p1, ch := Setup(p, c), p.chans[c.chan];
      && p1.outgoing == p.outgoing + [d] && |p1.chans| == |p.chans| && SetUp(c, d)
      && var ch1 := p1.chans[c.chan];
      if c.reliable then d.rseq == ch1.outSeq == (ch.outSeq + 1) % WRAP && d.useq == 0
      else d.rseq == ch.outSeq == ch1.outSeq
           && d.useq == ch1.outUnrel == (if c.offset == 0 then (ch.outUnrel + 1) % WRAP else ch.outUnrel)
  {
    d := Setup(p, c).outgoing[|p.outgoing|];
  }

  lemma {:induction false} SetupAllNumbers(p: Peer, cs: seq<Cmd>, ch: nat) returns (ds: seq<Cmd>)
    requires Alike(p, cs, ch)
    ensures SetupAll(p, cs).outgoing == p.outgoing + ds && NumberedFrom(p.chans[ch], cs, ds)
    decreases |cs|
  {
    hide Setup, NumberedFrom, SetUp;
    if cs == [] {
      ds := [];
      assert NumberedFrom(p.chans[ch], cs, ds) by { NumberedNone(p.chans[ch]); }
    } else {
      var d := SetupOne(p, cs[0]);
      var p1 := Setup(p, cs[0]);
      assert Alike(p1, cs[1..], ch);
      var rest := SetupAllNumbers(p1, cs[1..], ch);
      NumberedStep(p.chans[ch], p1.chans[ch], cs, d, rest);
      ds := [d] + rest;
      assert p.outgoing + [d] + rest == p.outgoing + ds;
    }
  }

  lemma NumberedNone(ch: Chan)
    ensures NumberedFrom(ch, [], [])
  {
  }

  lemma WholeQueued(p: Peer, chan: nat, rq: Request, control: Cmd -> seq<nat>) returns (c: Cmd)
    requires chan < |p.chans| && chan != PEER_CHANNEL && rq.length < WRAP
    ensures Queue(p, WholeOf(p, chan, rq)).outgoing == p.outgoing + [c]
    ensures QueuedWhole(p, chan, rq, c, FirstByte(Written(c, control)))
  {
    c := Queue(p, WholeOf(p, chan, rq)).outgoing[|p.outgoing|];
  }

  /** The uncut command of the fragments of a packet. */
  ghost function Base(p: Peer, chan: nat, rq: Request, limit: nat): Cmd
    requires chan < |p.chans| && limit > 0
  {
    var ch := p.chans[chan];
    var unreliable := !rq.reliable && rq.unreliableFragment && ch.outUnrel < WRAP - 1;
    var start := ((if unreliable then ch.outUnrel else ch.outSeq) + 1) % WRAP;
    Blank(if unreliable then SendUnreliableFragment else SendFragment, chan, !unreliable, rq)
    .(fragment := Fragment(start, FragmentCount(rq.length, limit), 0, rq.length))
  }

  lemma FragmentsAre(p: Peer, chan: nat, rq: Request, limit: nat)
    requires chan < |p.chans| && 0 < limit < WRAP && rq.length > limit
    ensures var fs := FragmentsOf(p, chan, rq, limit);
      |fs| == Parts(rq.length, limit) && forall k | 0 <= k < |fs| :: SP.IsPiece(Base(p, chan, rq, limit), rq.length, limit, fs[k], k)
  {
    hide Cut, SP.IsPiece;
    SP.CutIsPieces(Base(p, chan, rq, limit), rq.length, limit, 0);
  }

  lemma PieceIsPart(p: Peer, chan: nat, rq: Request, limit: nat, k: nat, f: Cmd, c: Cmd, control: Cmd -> seq<nat>)
    requires chan < |p.chans| && 0 < limit < WRAP && rq.length > limit && k < Parts(rq.length, limit)
    requires SP.IsPiece(Base(p, chan, rq, limit), rq.length, limit, f, k) && SetUp(f, c)
    requires var ch := p.chans[chan];
      if f.reliable then c.rseq == (ch.outSeq + 1 + k) % WRAP && c.useq == 0
      else c.rseq == ch.outSeq && c.useq == (ch.outUnrel + 1) % WRAP
    ensures QueuedPart(p, chan, rq, limit, k, c, FirstByte(Written(c, control)))
  {
    hide FragmentCount;
  }

  lemma PieceAlike(p: Peer, chan: nat, rq: Request, limit: nat, fs: seq<Cmd>)
    requires chan < |p.chans| && chan != PEER_CHANNEL && 0 < limit < WRAP
    requires forall k | 0 <= k < |fs| :: SP.IsPiece(Base(p, chan, rq, limit), rq.length, limit, fs[k], k)
    ensures Alike(p, fs, chan) && (fs != [] ==> fs[0].offset == 0)
  {
    hide FragmentCount;
    forall k | 0 <= k < |fs|
      ensures fs[k].chan == chan && fs[k].reliable == fs[0].reliable && (fs[k].reliable || fs[k].kind == SendUnreliableFragment)
      ensures fs[k].offset == k * limit
    {
      assert SP.IsPiece(Base(p, chan, rq, limit), rq.length, limit, fs[k], k);
      assert SP.IsPiece(Base(p, chan, rq, limit), rq.length, limit, fs[0], 0);
    }
    forall k | 0 < k < |fs| ensures fs[k].offset > 0 { assert k * limit >= limit; }
  }

  lemma PartsQueued(p: Peer, chan: nat, rq: Request, limit: nat, refs: map<nat, nat>, control: Cmd -> seq<nat>)
    returns (ds: seq<Cmd>)
    requires chan < |p.chans| && chan != PEER_CHANNEL && 0 < limit < WRAP && rq.length > limit
    ensures forall k | 0 <= k < |FragmentsOf(p, chan, rq, limit)| :: FragmentsOf(p, chan, rq, limit)[k].chan == chan
    ensures SetupAll(p.(refs := refs), FragmentsOf(p, chan, rq, limit)).outgoing == p.outgoing + ds
    ensures |ds| == Parts(rq.length, limit)
    ensures forall k | 0 <= k < |ds| :: QueuedPart(p, chan, rq, limit, k, ds[k], FirstByte(Written(ds[k], control)))
  {
    hide SP.IsPiece, QueuedPart, SetUp, FragmentsOf, Parts, Base;
    CutChannels(p, chan, rq, limit);
    FragmentsAre(p, chan, rq, limit);
    var fs := FragmentsOf(p, chan, rq, limit);
    PieceAlike(p, chan, rq, limit, fs);
    ds := SetupAllNumbers(p.(refs := refs), fs, chan);
    forall k | 0 <= k < |ds| ensures QueuedPart(p, chan, rq, limit, k, ds[k], FirstByte(Written(ds[k], control))) {
      PieceIsPart(p, chan, rq, limit, k, fs[k], ds[k], control);
    }
  }

  /** What enet_peer_send does to the queue: the packet goes to its end, whole or in parts, and the
      first byte of each command says what it is. */
  lemma SendQueues(p: Peer, chan: nat, rq: Request, checksum: bool, max: nat, control: Cmd -> seq<nat>)
    returns (ds: seq<Cmd>)
    requires 576 <= p.mtu < WRAP && chan < |p.chans| && chan != PEER_CHANNEL
    requires Send(p, chan, rq, checksum, max).Some?
    ensures Send(p, chan, rq, checksum, max).value.outgoing == p.outgoing + ds
    ensures var limit := p.mtu - if checksum then 44 else 36;
      if rq.length <= limit then |ds| == 1 && QueuedWhole(p, chan, rq, ds[0], FirstByte(Written(ds[0], control)))
      else
        && |ds| == Parts(rq.length, limit)
        && forall k | 0 <= k < |ds| :: QueuedPart(p, chan, rq, limit, k, ds[k], FirstByte(Written(ds[k], control)))
  {
    hide QueuedWhole, QueuedPart, FragmentsOf, WholeOf, Queue, SetupAll, Parts, FragmentCount;
    var limit := FragmentLimit(p.mtu, checksum);
    if rq.length <= limit {
      var c := WholeQueued(p, chan, rq, control);
      ds := [c];
    } else {
      CutChannels(p, chan, rq, limit);
      var fs := FragmentsOf(p, chan, rq, limit);
      ds := PartsQueued(p, chan, rq, limit, p.refs[rq.id := RefCount(p.refs, rq.id) + |fs|], control);
    }
  }

  /** A packet is refused exactly if the channel does not exist, the packet is larger than the host
      takes, or it would be cut into more than 2^20 parts. */
  lemma SendRefuses(p: Peer, chan: nat, rq: Request, checksum: bool, max: nat)
    requires 576 <= p.mtu < WRAP
    ensures Send(p, chan, rq, checksum, max).None? <==>
      || chan >= |p.chans| || rq.length > max
      || Parts(rq.length, p.mtu - (if checksum then 44 else 36)) > 0x10_0000
  {
    hide SetupAll, FragmentsOf;
  }
}
