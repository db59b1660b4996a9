/** Datagrams of a peer in any state that a run of its sending side can reach: every queued command
    has fields that fit and a slice that lies in its packet, so that the receiver's walk finds all
    of what is sent. */
module DatagramRuns {
  import opened Bytes
  import opened Options
  import opened SeqNumbers
  import opened EnetSender
  import opened SenderPackets
  import opened DatagramCodec
  import opened DatagramAssembly
  import opened DatagramReading
  import P = PacketNumbers
  import O = PacketOwnership
  import S = SenderInvariants
  import SenderRuns

  /** The application sends packets of this list, and control commands are of control kinds. */
  ghost predicate Given(actions: seq<SenderRuns.Action>, pkts: seq<seq<byte>>) {
    forall i | 0 <= i < |actions| :: GivenAction(actions[i], pkts)
  }

  predicate GivenAction(a: SenderRuns.Action, pkts: seq<seq<byte>>) {
    match a
    case DoSend(chan, rq, checksum, max) => rq.id < |pkts| && rq.length == |pkts[rq.id]|
    case DoControl(c) => !CarriesData(c.kind)
    case _ => true
  }

  /** Control commands get values for their fields. */
  ghost predicate ControlFits(control: Cmd -> seq<nat>) {
    forall c: Cmd | !CarriesData(c.kind) :: ValuesFit(control(c), Layout(NumberOf(c.kind)))
  }

  ghost function Fine(control: Cmd -> seq<nat>, pkts: seq<seq<byte>>): Cmd -> bool { c => Writable(c, control, pkts) }

  /** Neither timing nor numbering touches what makes a command writable. */
  predicate Renumbered(c: Cmd, d: Cmd) {
    d == c.(attempts := d.attempts, sentTime := d.sentTime, rto := d.rto, rtoLimit := d.rtoLimit,
            rseq := d.rseq, useq := d.useq, group := d.group, index := d.index)
  }

  lemma NumberingIsFine(control: Cmd -> seq<nat>, pkts: seq<seq<byte>>, c: Cmd, d: Cmd)
    requires ControlFits(control) && Fine(control, pkts)(c) && Renumbered(c, d)
    ensures Fine(control, pkts)(d)
  {
    if CarriesData(c.kind) { DataValues(c, control); DataValues(d, control); }
  }

  lemma FineIsStable(control: Cmd -> seq<nat>, pkts: seq<seq<byte>>)
    requires ControlFits(control)
    ensures Stable(Fine(control, pkts))
  {
    forall c, d | Fine(control, pkts)(c) && Retimed(c, d) ensures Fine(control, pkts)(d) {
      NumberingIsFine(control, pkts, c, d);
    }
  }

  predicate FragmentFits(c: Cmd) {
    && c.fragment.count < 0x1_0000_0000 && c.fragment.number < 0x1_0000_0000 && c.fragment.total < 0x1_0000_0000
    && c.offset < 0x1_0000_0000
  }

  predicate Fragmented(k: Kind) { k == SendFragment || k == SendUnreliableFragment }

  /** The fields of a command with data fit but for those of a fragment. */
  lemma DataValues(c: Cmd, control: Cmd -> seq<nat>)
    requires CarriesData(c.kind)
    ensures ValidCommand(Written(c, control)) <==> (Fragmented(c.kind) ==> FragmentFits(c))
  {
    Pow256Values();
    var v := ValuesOf(c, control);
    if Fragmented(c.kind) {
      assert v[2] == c.fragment.count && v[3] == c.fragment.number && v[4] == c.fragment.total && v[5] == c.offset;
    }
  }

  // ----- sending -----

  lemma SetupFine(p: Peer, c: Cmd, control: Cmd -> seq<nat>, pkts: seq<seq<byte>>)
    requires c.chan == PEER_CHANNEL || c.chan < |p.chans|
    requires ControlFits(control) && LiveAll(p, Fine(control, pkts)) && Fine(control, pkts)(c)
    ensures LiveAll(Setup(p, c), Fine(control, pkts))
  {
    hide Fine, ControlFits;
    var p' := Setup(p, c);
    var d := p'.outgoing[|p.outgoing|];
    assert p'.outgoing == p.outgoing + [d] && p'.sent == p.sent && Renumbered(c, d);
    NumberingIsFine(control, pkts, c, d);
  }

  lemma {:induction false} SetupAllFine(p: Peer, cs: seq<Cmd>, control: Cmd -> seq<nat>, pkts: seq<seq<byte>>)
    requires forall k | 0 <= k < |cs| :: cs[k].chan < |p.chans|
    requires ControlFits(control) && LiveAll(p, Fine(control, pkts)) && AllOf(cs, Fine(control, pkts))
    ensures LiveAll(SetupAll(p, cs), Fine(control, pkts))
    decreases |cs|
  {
    hide Fine, ControlFits, LiveAll;
    if cs != [] {
      SetupFine(p, cs[0], control, pkts);
      SetupAllFine(Setup(p, cs[0]), cs[1..], control, pkts);
    }
  }

  /** The packet is in the list, and the fields that all its fragments share fit. */
  predicate CanCut(base: Cmd, length: nat, pkts: seq<seq<byte>>) {
    && Fragmented(base.kind) && base.packet.Some? && base.packet.value < |pkts|
    && length == |pkts[base.packet.value]| < 0x1_0000_0000
    && base.fragment.count < 0x1_0000_0000 && base.fragment.total == length
  }

  lemma PieceFine(base: Cmd, length: nat, offset: nat, number: nat, len: u16, control: Cmd -> seq<nat>, pkts: seq<seq<byte>>)
    requires CanCut(base, length, pkts) && number <= offset && offset + len <= length
    ensures Fine(control, pkts)(base.(offset := offset, len := len, fragment := base.fragment.(number := number)))
  {
    hide ValidCommand, Written;
    DataValues(base.(offset := offset, len := len, fragment := base.fragment.(number := number)), control);
  }

  lemma {:induction false} CutFine(base: Cmd, length: nat, limit: nat, offset: nat, number: nat,
                                   control: Cmd -> seq<nat>, pkts: seq<seq<byte>>)
    requires 0 < limit < WRAP && CanCut(base, length, pkts) && number <= offset
    ensures AllOf(Cut(base, length, limit, offset, number), Fine(control, pkts))
    decreases length - offset
  {
    hide CanCut, Fine;
    if offset < length {
      var len := if length - offset < limit then length - offset else limit;
      PieceFine(base, length, offset, number, len, control, pkts);
      CutFine(base, length, limit, offset + len, number + 1, control, pkts);
    }
  }

  lemma FragmentsFine(p: Peer, chan: nat, rq: Request, limit: nat, control: Cmd -> seq<nat>, pkts: seq<seq<byte>>)
    requires chan < |p.chans| && 0 < limit < 4096 && rq.id < |pkts| && rq.length == |pkts[rq.id]| && rq.length > 0
    requires FragmentCount(rq.length, limit) <= MAX_FRAGMENTS
    ensures AllOf(FragmentsOf(p, chan, rq, limit), Fine(control, pkts))
  {
    hide Fine, AllOf, Cut, FragmentCount;
    P.CountBounds(rq.length, limit);
    var n := FragmentCount(rq.length, limit);
    Product(n, limit);
    var ch := p.chans[chan];
    var unreliable := !rq.reliable && rq.unreliableFragment && ch.outUnrel < WRAP - 1;
    var start := ((if unreliable then ch.outUnrel else ch.outSeq) + 1) % WRAP;
    var b := Blank(if unreliable then SendUnreliableFragment else SendFragment, chan, !unreliable, rq);
    CutFine(b.(fragment := Fragment(start, n, 0, rq.length)), rq.length, limit, 0, 0, control, pkts);
  }

  lemma Product(n: nat, limit: nat)
    requires n <= MAX_FRAGMENTS && limit < 4096
    ensures n * limit <= MAX_FRAGMENTS * 4095
  {
    assert n * limit <= MAX_FRAGMENTS * limit;
  }

  lemma SendFine(p: Peer, chan: nat, rq: Request, checksum: bool, max: nat, control: Cmd -> seq<nat>, pkts: seq<seq<byte>>)
    requires 576 <= p.mtu <= 4096 && rq.id < |pkts| && rq.length == |pkts[rq.id]|
    requires ControlFits(control) && LiveAll(p, Fine(control, pkts)) && Send(p, chan, rq, checksum, max).Some?
    ensures LiveAll(Send(p, chan, rq, checksum, max).value, Fine(control, pkts))
  {
    hide Fine, ControlFits, Setup;
    var limit := FragmentLimit(p.mtu, checksum);
    if rq.length > limit {
      var fs := FragmentsOf(p, chan, rq, limit);
      CutChannels(p, chan, rq, limit);
      FragmentsFine(p, chan, rq, limit, control, pkts);
      SetupAllFine(p.(refs := p.refs[rq.id := RefCount(p.refs, rq.id) + |fs|]), fs, control, pkts);
    } else {
      var c := WholeOf(p, chan, rq);
      WholeIsFine(c, control, pkts);
      SetupFine(p.(refs := Retain(p.refs, c.packet)), c, control, pkts);
    }
  }

  lemma WholeIsFine(c: Cmd, control: Cmd -> seq<nat>, pkts: seq<seq<byte>>)
    requires c.kind == SendReliable || c.kind == SendUnreliable || c.kind == SendUnsequenced
    requires c.packet.Some? && c.packet.value < |pkts| && c.offset == 0 && c.len == |pkts[c.packet.value]|
    ensures Fine(control, pkts)(c)
  {
    DataValues(c, control);
  }

  lemma ControlFine(p: Peer, c: Cmd, control: Cmd -> seq<nat>, pkts: seq<seq<byte>>)
    requires c.chan == PEER_CHANNEL && c.packet.None? && !CarriesData(c.kind)
    requires ControlFits(control) && LiveAll(p, Fine(control, pkts))
    ensures LiveAll(Queue(p, c), Fine(control, pkts))
  {
    hide LiveAll;
    assert p.(refs := Retain(p.refs, c.packet)) == p;
    assert Fine(control, pkts)(c);
    SetupFine(p, c, control, pkts);
  }

  // ----- runs -----

  lemma PassFine(p: Peer, g: Gram, now: u32, control: Cmd -> seq<nat>, pkts: seq<seq<byte>>)
    requires WellFormed(p) && ControlFits(control) && LiveAll(p, Fine(control, pkts))
    ensures var t := CheckOutgoing(p, g, now);
      LiveAll(PeerOf(t), Fine(control, pkts)) && AllOf(t.emitted, Fine(control, pkts))
  {
    hide Fine, ControlFits, Stable;
    FineIsStable(control, pkts);
    ScanAllOf(StartScan(p, g), now, Fine(control, pkts));
  }

  lemma StepFine(p: Peer, p': Peer, a: SenderRuns.Action, control: Cmd -> seq<nat>, pkts: seq<seq<byte>>)
    requires SenderRuns.Good(p) && SenderRuns.Step(p, p', a) && GivenAction(a, pkts)
    requires ControlFits(control) && LiveAll(p, Fine(control, pkts))
    ensures LiveAll(p', Fine(control, pkts))
  {
    hide S.Inv, O.Owned, Fine, ControlFits, Send, Queue, CheckOutgoing, Stable, RemoveSentReliable;
    match a
    case DoSend(chan, rq, checksum, max) => SendFine(p, chan, rq, checksum, max, control, pkts);
    case DoControl(c) => ControlFine(p, c, control, pkts);
    case DoFlush(g, now) => PassFine(p, g, now, control, pkts);
    case DoSent =>
      SenderRuns.EmptyAfterReset(p);
      O.ReleaseAllOwned(p.(sentUnreliable := []), p.sentUnreliable, []);
    case DoTimeout(now) =>
      FineIsStable(control, pkts);
      TimeoutsAllOf(p, [], p.sent, [], now, Fine(control, pkts));
    case DoAck(rseq, chan) => AckAllOf(p, rseq, chan, Fine(control, pkts));
    case DoTune(throttle, counter, windowSize, rtt, rttVar) =>
  }

  /** In every state of every run all queued commands are ready to be written. */
  lemma {:induction false} RunsAreFine(trace: seq<Peer>, actions: seq<SenderRuns.Action>, i: nat,
                                       control: Cmd -> seq<nat>, pkts: seq<seq<byte>>)
    requires SenderRuns.Run(trace, actions) && i < |trace| && Given(actions, pkts) && ControlFits(control)
    ensures LiveAll(trace[i], Fine(control, pkts))
    decreases i
  {
    hide Fine, ControlFits, SenderRuns.Step, SenderRuns.Good, GivenAction;
    if i > 0 {
      RunsAreFine(trace, actions, i - 1, control, pkts);
      SenderRuns.RunsAreGood(trace, actions, i - 1);
      assert SenderRuns.Step(trace[i - 1], trace[i], actions[i - 1]) && GivenAction(actions[i - 1], pkts);
      StepFine(trace[i - 1], trace[i], actions[i - 1], control, pkts);
    }
  }

  lemma AllAreWritable(cs: seq<Cmd>, ds: seq<Cmd>, control: Cmd -> seq<nat>, pkts: seq<seq<byte>>)
    requires AllOf(cs, Fine(control, pkts)) && AllOf(ds, Fine(control, pkts))
    ensures AllWritable(cs, control, pkts) && AllWritable(cs + ds, control, pkts)
  {
    forall k | 0 <= k < |cs + ds| ensures Writable((cs + ds)[k], control, pkts) {
      assert (cs + ds)[k] in cs || (cs + ds)[k] in ds;
    }
    forall k | 0 <= k < |cs| ensures Writable(cs[k], control, pkts) { assert cs[k] in cs; }
  }

  /** What is put in a datagram is ready to be written, the ping included. */
  lemma AssembledFine(p: Peer, acks: nat, checksum: bool, more: bool, idle: bool, now: u32,
                      control: Cmd -> seq<nat>, pkts: seq<seq<byte>>)
    requires WellFormed(p) && 576 <= p.mtu && ControlFits(control) && LiveAll(p, Fine(control, pkts))
    ensures AllWritable(Assemble(p, acks, checksum, more, idle, now).emitted, control, pkts)
  {
    hide ControlFits, CheckOutgoing, Queue, Writable;
    var g0 := Started(checksum, more);
    var n := Min(acks, AckRoom(g0, p.mtu));
    var g1 := WithAcks(g0, n, n < acks);
    PassFine(p, g1, now, control, pkts);
    var t := CheckOutgoing(p, g1, now);
    var p1 := PeerOf(t);
    if t.fl.canPing && p1.sent == [] && idle && p.mtu - t.g.bytes >= SizeOf(Ping) {
      StaysWellFormed(p, g1, now);
      ControlFine(p1, PING, control, pkts);
      PassFine(Queue(p1, PING), t.g, now, control, pkts);
      AllAreWritable(t.emitted, CheckOutgoing(Queue(p1, PING), t.g, now).emitted, control, pkts);
    } else {
      AllAreWritable(t.emitted, t.emitted, control, pkts);
    }
  }

  /** Every datagram of every run has at most 32 commands and at most mtu bytes, and the receiver's
      walk over it, if its handlers meet no error, visits exactly the acknowledgements and the
      commands with their slices of the packets, in order, and ends exactly at its end. Each is read
      as what it was: an acknowledgement with its number and time, a command of its kind with its
      channel, numbers, fragment and payload. */
  lemma ReachableIsWalkedThrough(trace: seq<Peer>, actions: seq<SenderRuns.Action>, i: nat, pkts: seq<seq<byte>>,
                                 control: Cmd -> seq<nat>, acks: seq<Acknowledgement>, checksum: bool, more: bool,
                                 idle: bool, now: u32, head: seq<byte>, ok: Item -> bool)
    requires SenderRuns.Run(trace, actions) && i < |trace| && Given(actions, pkts) && ControlFits(control)
    requires Clear(trace[i]) && forall k | 0 <= k < |trace[i].outgoing| :: trace[i].outgoing[k].attempts < WRAP - 1
    ensures var p := trace[i];
      && WellFormed(p) && 576 <= p.mtu
      && var a := Assemble(p, |acks|, checksum, more, idle, now);
      && a.acked <= |acks| && AllWritable(a.emitted, control, pkts)
      && var items := AckItems(acks[..a.acked]) + ItemsOf(a.emitted, control, pkts);
      && AllItems(items) && |items| <= MAX_COMMANDS
      && AllRead(items, acks[..a.acked], a.emitted, pkts)
      && (|head| == HeadSize(a.g.sentTimeFlag, checksum) && (forall j | j in items :: ok(j)) ==>
           var datagram := head + Strung(items);
           && |datagram| <= p.mtu
           && Walked(datagram, |head|, true, a.g.sentTimeFlag, ok) == (items, |datagram|))
  {
    hide S.Inv, O.Owned, Walked, Assemble, Strung, ValidItem, AllRead, Writable, WellFormed, SenderRuns.Run, Given, ControlFits;
    var p := trace[i];
    SenderRuns.RunsAreGood(trace, actions, i);
    S.InvWellFormed(p);
    RunsAreFine(trace, actions, i, control, pkts);
    AssembledFine(p, |acks|, checksum, more, idle, now, control, pkts);
    var a := Assemble(p, |acks|, checksum, more, idle, now);
    AssemblyAccounted(p, |acks|, checksum, more, idle, now);
    ItemsAreFine(acks[..a.acked], a.emitted, control, pkts, a.g.sentTimeFlag);
    AllAreRead(acks[..a.acked], a.emitted, control, pkts);
    var items := AckItems(acks[..a.acked]) + ItemsOf(a.emitted, control, pkts);
    if |head| == HeadSize(a.g.sentTimeFlag, checksum) && forall j | j in items :: ok(j) {
      DatagramIsWalkedThrough(p, acks, checksum, more, idle, now, head, control, pkts, ok);
    }
  }
}
