/** What send_outgoing_commands puts in one datagram to a peer: acknowledgements, queued commands
    and perhaps a ping; and that the receiver's walk finds all of it. */
module DatagramAssembly {
  import opened Bytes
  import opened Options
  import opened SeqNumbers
  import opened EnetSender
  import opened DatagramCodec
  import S = SenderInvariants
  import SenderRuns

  // ----- acknowledgements -----

  datatype Acknowledgement = Acknowledgement(channel: byte, rseq: u16, sentTime: u16)

  const ACK_SIZE: nat := 8

  function AckItem(a: Acknowledgement): (i: Item)
    ensures ValidItem(i)
  {
    Item(Command(1, false, false, a.channel, a.rseq, [a.rseq, a.sentTime]), [])
  }

  function AckItems(acks: seq<Acknowledgement>): (items: seq<Item>)
    ensures |items| == |acks| && AllItems(items)
  {
    seq(|acks|, k requires 0 <= k < |acks| => AckItem(acks[k]))
  }

  predicate Room(g: Gram, mtu: nat) { g.commands <= MAX_COMMANDS && g.buffers <= MAX_BUFFERS && g.bytes <= mtu }

  function Min(a: nat, b: nat): nat { if a < b then a else b }

  /** How many acknowledgements still fit. */
  function AckRoom(g: Gram, mtu: nat): nat
    requires Room(g, mtu)
  {
    Min(MAX_COMMANDS - g.commands, Min(MAX_BUFFERS - g.buffers, (mtu - g.bytes) / ACK_SIZE))
  }

  /** The datagram with n more acknowledgements; `left` says that some did not fit. */
  function WithAcks(g: Gram, n: nat, left: bool): Gram {
    g.(commands := g.commands + n, buffers := g.buffers + n, bytes := g.bytes + ACK_SIZE * n, more := g.more || left)
  }

  /** enet_protocol_send_acknowledgements: the first acknowledgements, as many as fit. */
  method SendAcknowledgements(acks: seq<Acknowledgement>, mtu: nat, start: Gram)
    returns (g: Gram, written: seq<Item>, left: seq<Acknowledgement>)
    requires Room(start, mtu)
    ensures var n := Min(|acks|, AckRoom(start, mtu));
      written == AckItems(acks[..n]) && left == acks[n..] && g == WithAcks(start, n, n < |acks|)
    ensures left != [] ==> g.commands == 32 || g.buffers == 65 || mtu < g.bytes + 8
    ensures g.commands <= 32 && g.buffers <= 65 && g.bytes <= mtu
  {
    g, written, left := start, [], acks;
    ghost var n := 0;
    while left != []
      invariant n <= Min(|acks|, AckRoom(start, mtu))
      invariant written == AckItems(acks[..n]) && left == acks[n..] && g == WithAcks(start, n, false)
      decreases |left|
    {
      if g.commands >= MAX_COMMANDS || g.buffers >= MAX_BUFFERS || mtu - g.bytes < ACK_SIZE {
        g := g.(more := true);
        break;
      }
      g := g.(commands := g.commands + 1, buffers := g.buffers + 1, bytes := g.bytes + ACK_SIZE);
      assert acks[..n + 1] == acks[..n] + [left[0]];
      written := written + [AckItem(left[0])];
      left := left[1..];
      n := n + 1;
    }
  }

  // ----- queued commands -----

  function NumberOf(k: Kind): nat {
    match k
    case Connect => 2
    case VerifyConnect => 3
    case Disconnect => 4
    case Ping => 5
    case SendReliable => 6
    case SendUnreliable => 7
    case SendFragment => 8
    case SendUnsequenced => 9
    case BandwidthLimit => 10
    case ThrottleConfigure => 11
    case SendUnreliableFragment => 12
  }

  lemma SameSizes(k: Kind)
    ensures CommandSize(NumberOf(k)) == SizeOf(k)
  {
  }

  predicate CarriesData(k: Kind) {
    k == SendReliable || k == SendUnreliable || k == SendFragment || k == SendUnreliableFragment || k == SendUnsequenced
  }

  /** The values a queued command's fields get; `control` gives those of commands without a packet. */
  function ValuesOf(c: Cmd, control: Cmd -> seq<nat>): seq<nat> {
    match c.kind
    case SendReliable => [c.len]
    case SendUnreliable => [c.useq, c.len]
    case SendUnsequenced => [c.group, c.len]
    case SendFragment => [c.fragment.start, c.len, c.fragment.count, c.fragment.number, c.fragment.total, c.offset]
    case SendUnreliableFragment => [c.fragment.start, c.len, c.fragment.count, c.fragment.number, c.fragment.total, c.offset]
    case _ => control(c)
  }

  /** Unsequenced packets, and goodbyes that ask for no answer. */
  predicate Unsequenced(c: Cmd) { c.kind == SendUnsequenced || (c.kind == Disconnect && !c.reliable) }

  function Written(c: Cmd, control: Cmd -> seq<nat>): Command {
    Command(NumberOf(c.kind), c.reliable, Unsequenced(c), if c.chan < 256 then c.chan else 0xFF, c.rseq, ValuesOf(c, control))
  }

  /** A command whose fields fit, with a packet of the application's list that covers its slice. */
  predicate Writable(c: Cmd, control: Cmd -> seq<nat>, pkts: seq<seq<byte>>) {
    && ValidCommand(Written(c, control))
    && (CarriesData(c.kind) <==> c.packet.Some?)
    && (c.packet.Some? ==> c.packet.value < |pkts| && c.offset + c.len <= |pkts[c.packet.value]|)
  }

  function ItemOf(c: Cmd, control: Cmd -> seq<nat>, pkts: seq<seq<byte>>): (i: Item)
    requires Writable(c, control, pkts)
    ensures ValidItem(i)
  {
    Item(Written(c, control), if c.packet.Some? then pkts[c.packet.value][c.offset..c.offset + c.len] else [])
  }

  predicate AllWritable(cs: seq<Cmd>, control: Cmd -> seq<nat>, pkts: seq<seq<byte>>) {
    forall k | 0 <= k < |cs| :: Writable(cs[k], control, pkts)
  }

  function ItemsOf(cs: seq<Cmd>, control: Cmd -> seq<nat>, pkts: seq<seq<byte>>): (items: seq<Item>)
    requires AllWritable(cs, control, pkts)
    ensures |items| == |cs| && AllItems(items)
    ensures forall k | 0 <= k < |cs| :: items[k] == ItemOf(cs[k], control, pkts)
  {
    seq(|cs|, k requires 0 <= k < |cs| && AllWritable(cs, control, pkts) => ItemOf(cs[k], control, pkts))
  }

  /** Bytes the commands take in a datagram, as packetSize counts them. */
  function Volume(cs: seq<Cmd>): nat {
    if cs == [] then 0 else SizeOf(cs[0].kind) + (if cs[0].packet.Some? then cs[0].len else 0) + Volume(cs[1..])
  }

  lemma {:induction false} VolumeJoin(cs: seq<Cmd>, ds: seq<Cmd>)
    ensures Volume(cs + ds) == Volume(cs) + Volume(ds)
    decreases |cs|
  {
    if cs == [] {
      assert cs + ds == ds;
    } else {
      assert (cs + ds)[1..] == cs[1..] + ds;
      VolumeJoin(cs[1..], ds);
    }
  }

  lemma {:induction false} StrungLength(cs: seq<Cmd>, control: Cmd -> seq<nat>, pkts: seq<seq<byte>>)
    requires AllWritable(cs, control, pkts)
    ensures |Strung(ItemsOf(cs, control, pkts))| == Volume(cs)
    decreases |cs|
  {
    hide Encode, ValidCommand, Writable, SizeOf, CommandSize, Written;
    if cs != [] {
      var items, rest := ItemsOf(cs, control, pkts), ItemsOf(cs[1..], control, pkts);
      assert items[1..] == rest;
      assert Writable(cs[0], control, pkts);
      ItemLength(cs[0], control, pkts);
      StrungLength(cs[1..], control, pkts);
      assert items[0] == ItemOf(cs[0], control, pkts);
    }
  }

  lemma ItemLength(c: Cmd, control: Cmd -> seq<nat>, pkts: seq<seq<byte>>)
    requires Writable(c, control, pkts)
    ensures var i := ItemOf(c, control, pkts);
      |Encode(i.command)| + |i.payload| == SizeOf(c.kind) + if c.packet.Some? then c.len else 0
  {
    DecodeUndoesEncode(Written(c, control), []);
    SameSizes(c.kind);
  }

  // ----- the accounts of a datagram -----

  /** Gram h is gram g with the commands cs: packetSize and commandCount are right, the bounds are
      kept, and the sent-time flag is raised by reliable commands. */
  predicate Accounted(g: Gram, h: Gram, cs: seq<Cmd>) {
    && h.bytes == g.bytes + Volume(cs)
    && h.commands == g.commands + |cs|
    && (g.buffers <= MAX_BUFFERS ==> h.buffers <= MAX_BUFFERS)
    && (g.sentTimeFlag ==> h.sentTimeFlag)
    && (forall k | 0 <= k < |cs| && cs[k].reliable :: h.sentTimeFlag)
  }

  lemma {:induction false} DropLeavesGram(s: Scan, rseq: u16, useq: u16)
    requires s.rest != []
    ensures var t := DropGroup(s, rseq, useq); t.g == s.g && t.emitted == s.emitted
    decreases |s.rest|
  {
    var s' := s.(p := Release(s.p, s.rest[0].packet), rest := s.rest[1..]);
    if !(s'.rest == [] || s'.rest[0].rseq != rseq || s'.rest[0].useq != useq) { DropLeavesGram(s', rseq, useq); }
  }

  lemma EmitAccounted(s: Scan, now: u32, g: Gram)
    requires WellFormed(s.p) && s.rest != [] && Fits(s.g, s.rest[0], s.p.mtu) && Accounted(g, s.g, s.emitted)
    ensures var t := Emit(s, now); Accounted(g, t.g, t.emitted)
  {
    hide Volume, Attempt;
    var c := s.rest[0];
    var counter := (s.p.throttleCounter + THROTTLE_COUNTER) % THROTTLE_SCALE;
    VolumeJoin(s.emitted, [c]);
    VolumeJoin(s.emitted, [Attempted(s.p, c, now)]);
    VolumeOne(c);
    VolumeOne(Attempted(s.p, c, now));
    if !c.reliable && c.packet.Some? && c.offset == 0 && !c.unthrottled && counter > s.p.throttle {
      DropLeavesGram(s.(p := s.p.(throttleCounter := counter)), c.rseq, c.useq);
    }
  }

  lemma VolumeOne(c: Cmd)
    ensures Volume([c]) == SizeOf(c.kind) + if c.packet.Some? then c.len else 0
  {
    assert Volume([]) == 0;
  }

  lemma {:induction false} ScanAccounted(s: Scan, now: u32, g: Gram)
    requires WellFormed(s.p) && Accounted(g, s.g, s.emitted)
    ensures var t := ScanAll(s, now); Accounted(g, t.g, t.emitted)
    decreases |s.rest|
  {
    hide Emit, Volume, Gate;
    if s.rest != [] {
      var (wait, fl) := Gate(s.p, s.fl, s.rest[0]);
      if wait {
        ScanAccounted(s.(kept := s.kept + [s.rest[0]], rest := s.rest[1..], fl := fl), now, g);
      } else if Fits(s.g, s.rest[0], s.p.mtu) {
        EmitAccounted(s.(fl := fl), now, g);
        ScanAccounted(Emit(s.(fl := fl), now), now, g);
      }
    }
  }

  lemma AccountsJoin(g: Gram, h: Gram, i: Gram, cs: seq<Cmd>, ds: seq<Cmd>)
    requires Accounted(g, h, cs) && Accounted(h, i, ds)
    ensures Accounted(g, i, cs + ds)
  {
    VolumeJoin(cs, ds);
  }

  /** What a pass leaves in the queue was there before. */
  lemma {:induction false} ScanLeaves(s: Scan, now: u32, d: Cmd)
    requires WellFormed(s.p) && d in PeerOf(ScanAll(s, now)).outgoing
    ensures d in s.kept + s.rest
    decreases |s.rest|
  {
    hide Gate, Emit, WellFormed;
    if s.rest != [] {
      var (wait, fl) := Gate(s.p, s.fl, s.rest[0]);
      if wait {
        ScanLeaves(s.(kept := s.kept + [s.rest[0]], rest := s.rest[1..], fl := fl), now, d);
      } else if Fits(s.g, s.rest[0], s.p.mtu) {
        ScanLeaves(Emit(s.(fl := fl), now), now, d);
        EmitLeaves(s.(fl := fl), now, d);
      }
    }
  }

  lemma EmitLeaves(s: Scan, now: u32, d: Cmd)
    requires WellFormed(s.p) && s.rest != []
    ensures var t := Emit(s, now); t.kept == s.kept && (d in t.rest ==> d in s.rest)
  {
    DropLeaves(s.(p := s.p.(throttleCounter := (s.p.throttleCounter + THROTTLE_COUNTER) % THROTTLE_SCALE)),
               s.rest[0].rseq, s.rest[0].useq, d);
  }

  lemma {:induction false} DropLeaves(s: Scan, rseq: u16, useq: u16, d: Cmd)
    requires s.rest != []
    ensures var t := DropGroup(s, rseq, useq); t.kept == s.kept && (d in t.rest ==> d in s.rest)
    decreases |s.rest|
  {
    var s' := s.(p := Release(s.p, s.rest[0].packet), rest := s.rest[1..]);
    if !(s'.rest == [] || s'.rest[0].rseq != rseq || s'.rest[0].useq != useq) { DropLeaves(s', rseq, useq, d); }
  }

  // ----- a whole datagram -----

  const PING: Cmd := Cmd(Ping, PEER_CHANNEL, true, 0, 0, 0, 0, 0, 0, 0, 0, None, false, NO_FRAGMENT, 0, 0)

  function ChecksumSize(checksum: bool): nat { if checksum then 8 else 0 }

  /** Before anything is put in. */
  function Started(checksum: bool, more: bool): Gram { Gram(0, 1, 4 + ChecksumSize(checksum), false, more) }

  /** Bytes of the header that goes out, and that the receiver skips: the sent time is left out
      when nothing asks for it. */
  function HeadSize(sentTime: bool, checksum: bool): nat { (if sentTime then 4 else 2) + ChecksumSize(checksum) }

  datatype Assembly = Assembly(p: Peer, g: Gram, acked: nat, emitted: seq<Cmd>)

  /** One turn of send_outgoing_commands for one peer, after the time-outs: acknowledgements, a pass
      over the queue, and if that sent nothing reliable and the peer has been `idle`, a ping. */
  function Assemble(p: Peer, acks: nat, checksum: bool, more: bool, idle: bool, now: u32): Assembly
    requires WellFormed(p) && 576 <= p.mtu
  {
    var g0 := Started(checksum, more);
    var n := Min(acks, AckRoom(g0, p.mtu));
    var t := CheckOutgoing(p, WithAcks(g0, n, n < acks), now);
    var p1 := PeerOf(t);
    if t.fl.canPing && p1.sent == [] && idle && p.mtu - t.g.bytes >= SizeOf(Ping) then
      StaysWellFormed(p, WithAcks(g0, n, n < acks), now);
      var u := CheckOutgoing(Queue(p1, PING), t.g, now);
      Assembly(PeerOf(u), u.g, n, t.emitted + u.emitted)
    else Assembly(p1, t.g, n, t.emitted)
  }

  /** An idle peer that has nothing to send and nothing to wait for is sent a ping, and nothing else. */
  lemma IdleIsPinged(p: Peer, checksum: bool, more: bool, now: u32)
    requires WellFormed(p) && 576 <= p.mtu < WRAP && p.outgoing == [] && p.sent == []
    ensures var a := Assemble(p, 0, checksum, more, true, now);
      |a.emitted| == 1 && a.emitted[0].kind == Ping && a.emitted[0].reliable && a.p.sent == a.emitted && a.p.outgoing == []
  {
    hide WellFormed;
    var g0 := Started(checksum, more);
    var g1 := WithAcks(g0, 0, false);
    var t := CheckOutgoing(p, g1, now);
    ScanEnds(StartScan(p, g1), now);
    assert PeerOf(t) == p;
    StaysWellFormed(p, g1, now);
    PingQueued(p);
    PingGoesOut(Queue(p, PING), g1, now);
  }

  lemma PingQueued(p: Peer)
    requires p.outgoing == []
    ensures var q := Queue(p, PING);
      && q.sent == p.sent && q.mtu == p.mtu && |q.outgoing| == 1
      && var c := q.outgoing[0]; c.kind == Ping && c.reliable && c.chan == PEER_CHANNEL && c.packet == None
  {
  }

  lemma PingGoesOut(q: Peer, g: Gram, now: u32)
    requires WellFormed(q) && |q.outgoing| == 1 && q.sent == [] && g.bytes <= 12 && g.commands == 0 && g.buffers == 1
    requires var c := q.outgoing[0]; c.kind == Ping && c.reliable && c.chan == PEER_CHANNEL && c.packet == None
    requires 576 <= q.mtu < WRAP
    ensures var u := CheckOutgoing(q, g, now);
      |u.emitted| == 1 && u.emitted[0].kind == Ping && u.emitted[0].reliable && u.p.sent == u.emitted && PeerOf(u).outgoing == []
  {
    var s := StartScan(q, g);
    ScanStep(s, now);
    var fl := Gate(s.p, s.fl, s.rest[0]).1;
    ScanEnds(Emit(s.(fl := fl), now), now);
  }

  /** There is no ping while the application is busy or something waits for an answer. */
  lemma BusyIsNotPinged(p: Peer, acks: nat, checksum: bool, more: bool, idle: bool, now: u32)
    requires WellFormed(p) && 576 <= p.mtu && (!idle || p.sent != [])
    ensures var g0 := Started(checksum, more);
      var n := Min(acks, AckRoom(g0, p.mtu));
      var t := CheckOutgoing(p, WithAcks(g0, n, n < acks), now);
      Assemble(p, acks, checksum, more, idle, now) == Assembly(PeerOf(t), t.g, n, t.emitted)
  {
    hide ScanAll;
    var g0 := Started(checksum, more);
    var n := Min(acks, AckRoom(g0, p.mtu));
    SentOnlyGrows(StartScan(p, WithAcks(g0, n, n < acks)), now);
  }

  lemma {:induction false} SentOnlyGrows(s: Scan, now: u32)
    requires WellFormed(s.p)
    ensures s.p.sent <= ScanAll(s, now).p.sent
    decreases |s.rest|
  {
    hide Gate, Emit, WellFormed, Fits;
    if s.rest == [] {
      ScanEnds(s, now);
    } else {
      ScanStep(s, now);
      var (wait, fl) := Gate(s.p, s.fl, s.rest[0]);
      if wait {
        SentOnlyGrows(s.(kept := s.kept + [s.rest[0]], rest := s.rest[1..], fl := fl), now);
      } else if Fits(s.g, s.rest[0], s.p.mtu) {
        EmitSentGrows(s.(fl := fl), now);
        SentOnlyGrows(Emit(s.(fl := fl), now), now);
      }
    }
  }

  lemma EmitSentGrows(s: Scan, now: u32)
    requires WellFormed(s.p) && s.rest != []
    ensures s.p.sent <= Emit(s, now).p.sent
  {
    DropKeepsSent(s.(p := s.p.(throttleCounter := (s.p.throttleCounter + THROTTLE_COUNTER) % THROTTLE_SCALE)),
                  s.rest[0].rseq, s.rest[0].useq);
  }

  lemma {:induction false} DropKeepsSent(s: Scan, rseq: u16, useq: u16)
    requires s.rest != []
    ensures DropGroup(s, rseq, useq).p.sent == s.p.sent
    decreases |s.rest|
  {
    var s' := s.(p := Release(s.p, s.rest[0].packet), rest := s.rest[1..]);
    if !(s'.rest == [] || s'.rest[0].rseq != rseq || s'.rest[0].useq != useq) { DropKeepsSent(s', rseq, useq); }
  }

  lemma {:induction false} ScanWellFormed(s: Scan, now: u32)
    requires WellFormed(s.p)
    ensures WellFormed(ScanAll(s, now).p)
    decreases |s.rest|
  {
    hide Gate, Emit, WellFormed;
    if s.rest != [] {
      var (wait, fl) := Gate(s.p, s.fl, s.rest[0]);
      if wait {
        ScanWellFormed(s.(kept := s.kept + [s.rest[0]], rest := s.rest[1..], fl := fl), now);
      } else if Fits(s.g, s.rest[0], s.p.mtu) {
        ScanWellFormed(Emit(s.(fl := fl), now), now);
      }
    }
  }

  lemma StaysWellFormed(p: Peer, g: Gram, now: u32)
    requires WellFormed(p)
    ensures WellFormed(Queue(PeerOf(CheckOutgoing(p, g, now)), PING))
  {
    assert WellFormed(StartScan(p, g).p);
    ScanWellFormed(StartScan(p, g), now);
  }

  /** What a pass leaves of the queue: reliable commands that wait, and an end of it. */
  lemma {:induction false} ScanLeavesEnd(s: Scan, now: u32) returns (n: nat)
    requires WellFormed(s.p) && forall c | c in s.kept :: c.reliable
    ensures n <= |s.rest|
    ensures var t := ScanAll(s, now);
      t.rest == s.rest[n..] && t.p.peerSeq == s.p.peerSeq && forall c | c in t.kept :: c.reliable
    decreases |s.rest|
  {
    hide Emit, WellFormed;
    n := 0;
    if s.rest != [] {
      var (wait, fl) := Gate(s.p, s.fl, s.rest[0]);
      if wait {
        var m := ScanLeavesEnd(s.(kept := s.kept + [s.rest[0]], rest := s.rest[1..], fl := fl), now);
        n := m + 1;
      } else if Fits(s.g, s.rest[0], s.p.mtu) {
        var k := EmitLeavesEnd(s.(fl := fl), now);
        var m := ScanLeavesEnd(Emit(s.(fl := fl), now), now);
        assert s.rest[k..][m..] == s.rest[k + m..];
        n := k + m;
      }
    }
  }

  lemma EmitLeavesEnd(s: Scan, now: u32) returns (n: nat)
    requires WellFormed(s.p) && s.rest != []
    ensures n <= |s.rest|
    ensures var t := Emit(s, now); t.kept == s.kept && t.p.peerSeq == s.p.peerSeq && t.rest == s.rest[n..]
  {
    hide DropGroup;
    var counter := (s.p.throttleCounter + THROTTLE_COUNTER) % THROTTLE_SCALE;
    n := 1;
    if Emit(s, now).rest != s.rest[1..] || !s.rest[0].reliable {
      var m := DropLeavesEnd(s.(p := s.p.(throttleCounter := counter)), s.rest[0].rseq, s.rest[0].useq);
      if !s.rest[0].reliable && s.rest[0].packet.Some? && s.rest[0].offset == 0 && !s.rest[0].unthrottled
         && counter > s.p.throttle { n := m; }
    }
  }

  lemma {:induction false} DropLeavesEnd(s: Scan, rseq: u16, useq: u16) returns (n: nat)
    requires s.rest != []
    ensures n <= |s.rest|
    ensures var t := DropGroup(s, rseq, useq); t.kept == s.kept && t.p.peerSeq == s.p.peerSeq && t.rest == s.rest[n..]
    decreases |s.rest|
  {
    var s' := s.(p := Release(s.p, s.rest[0].packet), rest := s.rest[1..]);
    n := 1;
    if !(s'.rest == [] || s'.rest[0].rseq != rseq || s'.rest[0].useq != useq) {
      var m := DropLeavesEnd(s', rseq, useq);
      n := m + 1;
    }
  }

  /** No reliable command would be dropped with the unsequenced one before it, nor a ping at the end of
      the queue. */
  predicate Clear(p: Peer) { S.NoneCaught(Queue(p, PING).outgoing) }

  lemma ClearMeans(p: Peer)
    requires Clear(p)
    ensures S.NoneCaught(p.outgoing)
  {
    var q := Queue(p, PING).outgoing;
    forall k | 0 < k < |p.outgoing| && !p.outgoing[k - 1].reliable && p.outgoing[k].reliable
      ensures p.outgoing[k].rseq != p.outgoing[k - 1].rseq || p.outgoing[k].useq != p.outgoing[k - 1].useq
    {
      assert q[k - 1] == p.outgoing[k - 1] && q[k] == p.outgoing[k];
    }
  }

  lemma StillClear(p: Peer, g: Gram, now: u32)
    requires WellFormed(p) && Clear(p)
    ensures Clear(PeerOf(CheckOutgoing(p, g, now)))
  {
    hide ScanAll;
    var n := ScanLeavesEnd(StartScan(p, g), now);
    var t := CheckOutgoing(p, g, now);
    KeptThenEnd(Queue(p, PING).outgoing, n, t.kept, Queue(PeerOf(t), PING).outgoing);
  }

  lemma KeptThenEnd(q: seq<Cmd>, n: nat, kept: seq<Cmd>, r: seq<Cmd>)
    requires S.NoneCaught(q) && n <= |q| && r == kept + q[n..] && forall c | c in kept :: c.reliable
    ensures S.NoneCaught(r)
  {
    assert forall k | 0 <= k < |kept| :: r[k] == kept[k] && r[k].reliable;
    forall k | 0 < k < |r| && !r[k - 1].reliable && r[k].reliable
      ensures r[k].rseq != r[k - 1].rseq || r[k].useq != r[k - 1].useq
    {
      if k - 1 >= |kept| {
        var j := n + k - |kept|;
        assert r[k] == q[j] && r[k - 1] == q[j - 1];
      }
    }
  }

  /** A pass over the queue of a sound peer. */
  lemma PassIsSound(p: Peer, g: Gram, now: u32)
    requires S.Inv(p) && S.NoneCaught(p.outgoing) && g.bytes <= p.mtu && g.commands <= MAX_COMMANDS
    requires forall k | 0 <= k < |p.outgoing| :: p.outgoing[k].attempts < WRAP - 1
    ensures WellFormed(p)
    ensures var t := CheckOutgoing(p, g, now);
      && S.Inv(PeerOf(t)) && PeerOf(t).mtu == p.mtu
      && t.g.bytes <= p.mtu && t.g.commands <= MAX_COMMANDS && Accounted(g, t.g, t.emitted)
      && forall k | 0 <= k < |PeerOf(t).outgoing| :: PeerOf(t).outgoing[k].attempts < WRAP - 1
  {
    hide S.Inv, ScanAll;
    S.InvWellFormed(p);
    var t := CheckOutgoing(p, g, now);
    S.CheckOutgoingKeepsInv(p, g, now);
    S.ScanMtu(StartScan(p, g), now);
    ScanAccounted(StartScan(p, g), now, g);
    forall k | 0 <= k < |PeerOf(t).outgoing| ensures PeerOf(t).outgoing[k].attempts < WRAP - 1 {
      ScanLeaves(StartScan(p, g), now, PeerOf(t).outgoing[k]);
    }
  }

  /** The passes together: packetSize, commandCount and the bounds. */
  lemma AssemblyAccounted(p: Peer, acks: nat, checksum: bool, more: bool, idle: bool, now: u32)
    requires S.Inv(p) && 576 <= p.mtu && Clear(p)
    requires forall k | 0 <= k < |p.outgoing| :: p.outgoing[k].attempts < WRAP - 1
    ensures WellFormed(p)
    ensures var a := Assemble(p, acks, checksum, more, idle, now);
      && S.Inv(a.p) && a.acked <= acks
      && a.g.bytes == (if checksum then 12 else 4) + 8 * a.acked + Volume(a.emitted) <= p.mtu
      && a.g.commands == a.acked + |a.emitted| <= MAX_COMMANDS && a.g.buffers <= MAX_BUFFERS
      && forall k | 0 <= k < |a.emitted| && a.emitted[k].reliable :: a.g.sentTimeFlag
  {
    hide S.Inv, CheckOutgoing, Queue, Volume, WellFormed, Clear;
    S.InvWellFormed(p);
    ClearMeans(p);
    var g0 := Started(checksum, more);
    var n := Min(acks, AckRoom(g0, p.mtu));
    var g1 := WithAcks(g0, n, n < acks);
    PassIsSound(p, g1, now);
    var t := CheckOutgoing(p, g1, now);
    var p1 := PeerOf(t);
    if t.fl.canPing && p1.sent == [] && idle && p.mtu - t.g.bytes >= SizeOf(Ping) {
      var p2 := Queue(p1, PING);
      StaysWellFormed(p, g1, now);
      SenderRuns.ControlKeepsInv(p1, PING);
      QueuedPing(p1);
      StillClear(p, g1, now);
      assert S.NoneCaught(p2.outgoing) by { ClearIs(p1); }
      PassIsSound(p2, t.g, now);
      var u := CheckOutgoing(p2, t.g, now);
      AccountsJoin(g1, t.g, u.g, t.emitted, u.emitted);
    }
  }

  lemma ClearIs(p: Peer)
    requires Clear(p)
    ensures S.NoneCaught(Queue(p, PING).outgoing)
  {
  }

  lemma QueuedPing(p: Peer)
    ensures var q := Queue(p, PING);
      q.mtu == p.mtu && |q.outgoing| == |p.outgoing| + 1 && q.outgoing[..|p.outgoing|] == p.outgoing
      && q.outgoing[|p.outgoing|].attempts == 0
  {
  }

  lemma {:induction false} StrungJoin(a: seq<Item>, b: seq<Item>)
    requires AllItems(a) && AllItems(b)
    ensures AllItems(a + b) && Strung(a + b) == Strung(a) + Strung(b)
    decreases |a|
  {
    hide Encode, ValidCommand;
    if a == [] {
      assert a + b == b;
    } else {
      assert (a + b)[1..] == a[1..] + b;
      StrungJoin(a[1..], b);
      assert Strung(a + b) == Encode(a[0].command) + a[0].payload + (Strung(a[1..]) + Strung(b));
    }
  }

  lemma {:induction false} AcksLength(acks: seq<Acknowledgement>)
    ensures |Strung(AckItems(acks))| == ACK_SIZE * |acks|
    decreases |acks|
  {
    hide Encode, ValidCommand;
    if acks != [] {
      var items := AckItems(acks);
      assert items[1..] == AckItems(acks[1..]) && items[0] == AckItem(acks[0]);
      DecodeUndoesEncode(items[0].command, []);
      AcksLength(acks[1..]);
    }
  }

  /** Acknowledgements and commands strung together: their length, and nothing the receiver would
      stop at. */
  lemma ItemsAreFine(acks: seq<Acknowledgement>, cs: seq<Cmd>, control: Cmd -> seq<nat>, pkts: seq<seq<byte>>,
                     sentTime: bool)
    requires AllWritable(cs, control, pkts) && forall k | 0 <= k < |cs| && cs[k].reliable :: sentTime
    ensures var items := AckItems(acks) + ItemsOf(cs, control, pkts);
      && AllItems(items) && |items| == |acks| + |cs|
      && |Strung(items)| == ACK_SIZE * |acks| + Volume(cs)
      && forall k | 0 <= k < |items| :: items[k].command.acknowledge ==> sentTime
  {
    hide Encode, ValidCommand, Writable, Volume;
    var front, back := AckItems(acks), ItemsOf(cs, control, pkts);
    StrungJoin(front, back);
    AcksLength(acks);
    StrungLength(cs, control, pkts);
    forall k | 0 <= k < |front + back| ensures (front + back)[k].command.acknowledge ==> sentTime {
      if k < |front| {
        assert front[k] == AckItem(acks[k]);
      } else {
        assert back[k - |front|] == ItemOf(cs[k - |front|], control, pkts);
      }
    }
  }

  /** Every datagram has at most 32 commands and at most mtu bytes, and the receiver's walk over it
      visits exactly the acknowledgements and the commands with their slices of the packets, in
      order, and ends exactly at its end. */
  lemma DatagramIsWalkedThrough(p: Peer, acks: seq<Acknowledgement>, checksum: bool, more: bool, idle: bool, now: u32,
                                head: seq<byte>, control: Cmd -> seq<nat>, pkts: seq<seq<byte>>, ok: Item -> bool)
    requires S.Inv(p) && 576 <= p.mtu && WellFormed(p) && Clear(p)
    requires forall k | 0 <= k < |p.outgoing| :: p.outgoing[k].attempts < WRAP - 1
    requires var a := Assemble(p, |acks|, checksum, more, idle, now);
      AllWritable(a.emitted, control, pkts) && |head| == HeadSize(a.g.sentTimeFlag, checksum)
    requires var a := Assemble(p, |acks|, checksum, more, idle, now);
      a.acked <= |acks| && forall i | i in AckItems(acks[..a.acked]) + ItemsOf(a.emitted, control, pkts) :: ok(i)
    ensures var a := Assemble(p, |acks|, checksum, more, idle, now);
      && var items := AckItems(acks[..a.acked]) + ItemsOf(a.emitted, control, pkts);
      && AllItems(items)
      && var datagram := head + Strung(items);
      && |datagram| <= p.mtu && |items| <= MAX_COMMANDS
      && |datagram| == a.g.bytes - (if a.g.sentTimeFlag then 0 else 2)
      && Walked(datagram, |head|, true, a.g.sentTimeFlag, ok) == (items, |datagram|)
  {
    hide S.Inv, Walked, Assemble, Strung, ValidItem, Writable, WellFormed, Volume;
    AssemblyAccounted(p, |acks|, checksum, more, idle, now);
    var a := Assemble(p, |acks|, checksum, more, idle, now);
    ItemsAreFine(acks[..a.acked], a.emitted, control, pkts, a.g.sentTimeFlag);
    WalkVisitsAll(head, AckItems(acks[..a.acked]) + ItemsOf(a.emitted, control, pkts), a.g.sentTimeFlag, ok);
  }
}
