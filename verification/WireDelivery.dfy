/** From commands to bytes and back: what a flushed datagram carries, read by the receiver's walk, is
    what the network of EnetDelivery takes in, and is handled as that network's copies are. */
module WireDelivery {
  import opened Bytes
  import opened Options
  import opened SeqNumbers
  import opened EnetSender
  import opened SenderPackets
  import opened DatagramCodec
  import opened DatagramAssembly
  import opened DatagramRuns
  import R = EnetReceiver
  import S = SenderInvariants
  import D = EnetDelivery
  import P = DeliveryProof

  /** What the handlers of reliable commands are given: a number and a body. */
  datatype Arrival = Arrival(rseq: u16, body: D.Body)

  /** handle_send_reliable and handle_send_fragment read their commands' fields; the rest is not for
      them. */
  function ArrivalOf(i: Item): Option<Arrival> {
    var v := i.command.values;
    if i.command.number == 6 then Some(Arrival(i.command.rseq, D.Whole(i.payload)))
    else if i.command.number == 8 && |v| == 6
    then Some(Arrival(i.command.rseq, D.Part(R.FragmentIn(v[0] % WRAP, v[2], v[3], v[4], v[5], i.payload))))
    else None
  }

  function Arrivals(items: seq<Item>): set<Arrival> {
    set i | i in items && ArrivalOf(i).Some? :: ArrivalOf(i).value
  }

  /** A copy without its history. */
  function Bare(c: D.Copy): Arrival { Arrival(c.rseq, c.body) }

  function Handle(r: R.Recv, a: Arrival): (R.Recv, bool)
    requires R.EntriesWellFormed(r.incoming)
  {
    match a.body
    case Whole(data) => R.OnReliable(r, a.rseq, data)
    case Part(f) => R.OnFragment(r, f)
  }

  /** The history makes no difference to the receiver. */
  lemma HandledAsCopy(r: R.Recv, c: D.Copy)
    requires R.EntriesWellFormed(r.incoming)
    ensures Handle(r, Bare(c)) == D.Deliver(r, c)
  {
  }

  /** The kinds of commands in these runs. */
  predicate Plain(c: Cmd) { CarriesData(c.kind) ==> c.kind == SendReliable || c.kind == SendFragment }

  /** A written command is read as the copy that the network takes of it. */
  lemma ReadAsCopy(e: D.Env, c: Cmd, control: Cmd -> seq<nat>)
    requires Writable(c, control, e.pkts) && Plain(c)
    ensures ArrivalOf(ItemOf(c, control, e.pkts))
      == match D.OnWire(e, c) case None => None case Some(w) => Some(Bare(w))
  {
    var v := ValuesOf(c, control);
    if c.kind == SendFragment {
      assert v == [c.fragment.start, c.len, c.fragment.count, c.fragment.number, c.fragment.total, c.offset];
    }
  }

  lemma NoArrivals(acks: seq<Acknowledgement>)
    ensures forall i | i in AckItems(acks) :: ArrivalOf(i) == None
  {
  }

  /** The arrivals of acknowledgements and commands are those of the commands. */
  lemma ArrivalsAreCopies(e: D.Env, acks: seq<Acknowledgement>, cs: seq<Cmd>, control: Cmd -> seq<nat>)
    requires AllWritable(cs, control, e.pkts) && forall c | c in cs :: Plain(c)
    ensures Arrivals(AckItems(acks) + ItemsOf(cs, control, e.pkts)) == set w | w in D.WireOf(e, cs) :: Bare(w)
  {
    hide Writable, ArrivalOf, Plain, D.OnWire;
    var items := ItemsOf(cs, control, e.pkts);
    var all := AckItems(acks) + items;
    NoArrivals(acks);
    forall a | a in Arrivals(all) ensures exists w :: w in D.WireOf(e, cs) && Bare(w) == a {
      var i :| i in all && ArrivalOf(i) == Some(a);
      assert i in items;
      var k :| 0 <= k < |items| && items[k] == i;
      ReadAsCopy(e, cs[k], control);
      assert cs[k] in cs;
      assert D.OnWire(e, cs[k]).value in D.WireOf(e, cs);
    }
    forall w | w in D.WireOf(e, cs) ensures Bare(w) in Arrivals(all) {
      var c :| c in cs && D.OnWire(e, c) == Some(w);
      var k :| 0 <= k < |cs| && cs[k] == c;
      ReadAsCopy(e, c, control);
      assert items[k] in all;
    }
  }

  // ----- runs of a connection -----

  /** Control commands are of control kinds; the packets are given by the run. */
  ghost predicate ControlKinds(steps: seq<D.Step>) {
    forall i | 0 <= i < |steps| && steps[i].DoControl? :: !CarriesData(steps[i].c.kind)
  }

  lemma StepFine(e: D.Env, s: D.System, s': D.System, step: D.Step, control: Cmd -> seq<nat>)
    requires D.ValidEnv(e) && S.Inv(s.p) && s.p.mtu == e.mtu
    requires D.Next(e, s, s', step) && (step.DoControl? ==> !CarriesData(step.c.kind))
    requires ControlFits(control) && LiveAll(s.p, Fine(control, e.pkts))
    ensures LiveAll(s'.p, Fine(control, e.pkts))
  {
    hide S.Inv, Fine, ControlFits, Send, Queue, CheckOutgoing, Stable, RemoveSentReliable, D.Deliver;
    match step
    case DoSend(rq) => SendFine(s.p, 0, rq, e.checksum, e.maximumPacketSize, control, e.pkts);
    case DoControl(c) => ControlFine(s.p, c, control, e.pkts);
    case DoFlush(g, now) => PassFine(s.p, g, now, control, e.pkts);
    case DoTimeout(now) =>
      FineIsStable(control, e.pkts);
      TimeoutsAllOf(s.p, [], s.p.sent, [], now, Fine(control, e.pkts));
    case DoTune =>
    case DoData(copy) =>
    case DoAck(ack) => AckAllOf(s.p, ack.rseq, 0, Fine(control, e.pkts));
    case DoTake =>
  }

  lemma SenderIs(e: D.Env, s: D.System, ks: seq<nat>)
    requires D.ValidEnv(e) && P.Inv(e, s, ks)
    ensures S.Inv(s.p) && s.p.mtu == e.mtu && LiveAll(s.p, P.Expected(e))
  {
  }

  lemma {:induction false} RunFine(e: D.Env, trace: seq<D.System>, steps: seq<D.Step>, i: nat, control: Cmd -> seq<nat>)
    requires D.ValidEnv(e) && D.Run(e, trace, steps) && i < |trace| && ControlKinds(steps) && ControlFits(control)
    ensures LiveAll(trace[i].p, Fine(control, e.pkts))
    decreases i
  {
    hide Fine, ControlFits, D.Next, P.Inv, S.Inv;
    if i > 0 {
      RunFine(e, trace, steps, i - 1, control);
      var ks := P.RunKeepsInv(e, trace, steps, i - 1);
      SenderIs(e, trace[i - 1], ks);
      assert D.Next(e, trace[i - 1], trace[i], steps[i - 1]);
      StepFine(e, trace[i - 1], trace[i], steps[i - 1], control);
    }
  }

  /** What a pass puts in a datagram is ready to be written, and of the kinds of these runs. */
  lemma FlushedFine(e: D.Env, p: Peer, g: Gram, now: u32, control: Cmd -> seq<nat>)
    requires D.ValidEnv(e) && S.Inv(p) && LiveAll(p, P.Expected(e))
    requires ControlFits(control) && LiveAll(p, Fine(control, e.pkts))
    ensures WellFormed(p)
    ensures var cs := CheckOutgoing(p, g, now).emitted;
      AllWritable(cs, control, e.pkts) && forall c | c in cs :: Plain(c)
  {
    hide S.Inv, ControlFits, CheckOutgoing, Writable;
    P.FlushPackets(e, p, g, now);
    P.PeerCommandsAreBare(p, g, now);
    PassFine(p, g, now, control, e.pkts);
    var cs := CheckOutgoing(p, g, now).emitted;
    AllAreWritable(cs, cs, control, e.pkts);
    forall c | c in cs ensures Plain(c) {
      if c.chan == PEER_CHANNEL { DataHasPacket(c, control, e.pkts); } else { GenuineIsPlain(e, c); }
    }
  }

  lemma DataHasPacket(c: Cmd, control: Cmd -> seq<nat>, pkts: seq<seq<byte>>)
    requires Writable(c, control, pkts)
    ensures CarriesData(c.kind) <==> c.packet.Some?
  {
  }

  lemma GenuineIsPlain(e: D.Env, c: Cmd)
    requires D.ValidEnv(e) && P.Genuine(e, c)
    ensures Plain(c)
  {
  }

  /** A datagram flushed in any run, behind any acknowledgements: the receiver's walk over its bytes
      visits all that went in, and the numbers and bodies it hands to the handlers are those of the
      copies that the flush put on the network. */
  lemma FlushedBytesAreCopies(
    e: D.Env, trace: seq<D.System>, steps: seq<D.Step>, i: nat, control: Cmd -> seq<nat>,
    acks: seq<Acknowledgement>, head: seq<byte>, sentTime: bool, ok: Item -> bool)
    requires D.ValidEnv(e) && D.Run(e, trace, steps) && i < |steps| && ControlKinds(steps) && ControlFits(control)
    requires steps[i].DoFlush?
    ensures WellFormed(trace[i].p)
    ensures var cs := CheckOutgoing(trace[i].p, steps[i].g, steps[i].now).emitted;
      && AllWritable(cs, control, e.pkts)
      && trace[i + 1].net == trace[i].net + D.WireOf(e, cs)
      && var items := AckItems(acks) + ItemsOf(cs, control, e.pkts);
      && Arrivals(items) == (set w | w in D.WireOf(e, cs) :: Bare(w))
      && AllItems(items)
      && ((forall c | c in cs && c.reliable :: sentTime) && (forall j | j in items :: ok(j)) ==>
            Walked(head + Strung(items), |head|, true, sentTime, ok) == (items, |head + Strung(items)|))
  {
    hide S.Inv, P.Inv, Fine, ControlFits, CheckOutgoing, Writable, Walked, Strung, ValidItem, Arrivals, D.WireOf;
    var s := trace[i];
    var ks := P.RunKeepsInv(e, trace, steps, i);
    SenderIs(e, s, ks);
    RunFine(e, trace, steps, i, control);
    FlushedFine(e, s.p, steps[i].g, steps[i].now, control);
    var cs := CheckOutgoing(s.p, steps[i].g, steps[i].now).emitted;
    assert D.Next(e, s, trace[i + 1], steps[i]);
    ArrivalsAreCopies(e, acks, cs, control);
    ItemsAreValid(acks, cs, control, e.pkts);
    var items := AckItems(acks) + ItemsOf(cs, control, e.pkts);
    if (forall c | c in cs && c.reliable :: sentTime) && forall j | j in items :: ok(j) {
      ItemsAreFine(acks, cs, control, e.pkts, sentTime);
      WalkVisitsAll(head, items, sentTime, ok);
    }
  }

  lemma ItemsAreValid(acks: seq<Acknowledgement>, cs: seq<Cmd>, control: Cmd -> seq<nat>, pkts: seq<seq<byte>>)
    requires AllWritable(cs, control, pkts)
    ensures AllItems(AckItems(acks) + ItemsOf(cs, control, pkts))
  {
    hide ValidItem, Writable;
  }
}
