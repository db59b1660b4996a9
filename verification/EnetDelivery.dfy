/** Reliable delivery on one channel. The sender of EnetSender and the receiver of EnetReceiver
    are connected by a network that may lose, duplicate, delay and reorder data and
    acknowledgements without bound, except that it delivers
      - no data whose packet starts more than nine windows behind the receiver, and
      - no acknowledgement more than fifteen windows behind the sender's newest number.
    In every run the packets handed over by the receiver are, byte for byte, the first packets
    sent, whatever their sizes: see DeliveryProof. */
module EnetDelivery {
  import opened Bytes
  import opened Options
  import opened SeqNumbers
  import opened EnetSender
  import S = SenderInvariants
  import opened SenderPackets
  import opened PacketNumbers
  import R = EnetReceiver
  import RI = ReceiverInvariants

  /** What stays fixed during a run: the packets the application sends, in order, and the
      configuration of the peers. */
  datatype Env = Env(pkts: seq<seq<byte>>, mtu: nat, checksum: bool, maximumPacketSize: nat)

  function Limit(e: Env): (n: nat)
    requires 576 <= e.mtu <= 4096
    ensures 0 < n < WRAP
  {
    FragmentLimit(e.mtu, e.checksum)
  }

  predicate ValidEnv(e: Env) { 576 <= e.mtu <= 4096 }

  datatype Body = Whole(data: seq<byte>) | Part(fragment: R.FragmentIn)

  /** A reliable command on the wire. `packet` and `part` are history: what it is a copy of. */
  datatype Copy = Copy(packet: nat, part: nat, rseq: u16, body: Body)

  /** `received` are the packets the application has taken, `queued` how many it has sent, `net`
      and `acks` every data copy and acknowledgement ever put on the network. */
  datatype System = System(
    p: Peer, r: R.Recv, received: seq<seq<byte>>, queued: nat, net: set<Copy>, acks: set<Copy>)

  /** The wire form of a command: its number, and its slice of the packet it points to. */
  function OnWire(e: Env, c: Cmd): Option<Copy> {
    if c.packet.None? || c.packet.value >= |e.pkts| || c.offset + c.len > |e.pkts[c.packet.value]| then None
    else
      var bytes := e.pkts[c.packet.value][c.offset..c.offset + c.len];
      var f := c.fragment;
      Some(Copy(c.packet.value, f.number, c.rseq,
        if c.kind == SendFragment
        then Part(R.FragmentIn(f.start, f.count, f.number, f.total, c.offset, bytes)) else Whole(bytes)))
  }

  function WireOf(e: Env, cs: seq<Cmd>): set<Copy> {
    set c | c in cs && OnWire(e, c).Some? :: OnWire(e, c).value
  }

  function Deliver(r: R.Recv, c: Copy): (R.Recv, bool)
    requires R.EntriesWellFormed(r.incoming)
  {
    match c.body
    case Whole(data) => R.OnReliable(r, c.rseq, data)
    case Part(f) => R.OnFragment(r, f)
  }

  /** How many packets the receiver has handed over, and the number of the last command of these. */
  function Taken(s: System): nat { |s.received| + |s.r.dispatched| }

  function ReceiverNumber(e: Env, s: System): nat
    requires ValidEnv(e)
  {
    if Taken(s) <= |e.pkts| then End(e.pkts, Limit(e), Taken(s)) else 0
  }

  // ----- steps -----

  predicate SendStep(e: Env, s: System, s': System, rq: Request)
    requires ValidEnv(e)
  {
    && s.queued < |e.pkts| && 576 <= s.p.mtu < WRAP
    && rq.id == s.queued && rq.length == |e.pkts[s.queued]| && rq.reliable
    && Send(s.p, 0, rq, e.checksum, e.maximumPacketSize).Some?
    && s' == s.(p := Send(s.p, 0, rq, e.checksum, e.maximumPacketSize).value, queued := s.queued + 1)
  }

  /** Peer-level commands such as pings share the queue. */
  predicate ControlStep(s: System, s': System, c: Cmd) {
    && WellFormed(s.p) && S.CanSetup(s.p, c) && c.chan == PEER_CHANNEL
    && s' == s.(p := Queue(s.p, c))
  }

  /** One datagram is filled and put on the network. No command has been sent 65535 times. */
  predicate FlushStep(e: Env, s: System, s': System, g: Gram, now: u32) {
    && WellFormed(s.p) && g.bytes <= s.p.mtu && g.commands <= MAX_COMMANDS
    && (forall k | 0 <= k < |s.p.outgoing| :: s.p.outgoing[k].attempts < WRAP - 1)
    && var t := CheckOutgoing(s.p, g, now);
       s' == s.(p := PeerOf(t), net := s.net + WireOf(e, t.emitted))
  }

  predicate TimeoutStep(s: System, s': System, now: u32) {
    s' == s.(p := CheckTimeouts(s.p, now).0)
  }

  /** Round trip times, throttle and window may change in any way. */
  predicate TuneStep(s: System, s': System) {
    s'.p == s.p.(throttle := s'.p.throttle, throttleCounter := s'.p.throttleCounter,
                 windowSize := s'.p.windowSize, rtt := s'.p.rtt, rttVar := s'.p.rttVar,
                 earliestTimeout := s'.p.earliestTimeout, nextTimeout := s'.p.nextTimeout)
    && s' == s.(p := s'.p)
  }

  predicate DataStep(e: Env, s: System, s': System, c: Copy)
    requires ValidEnv(e)
  {
    && c in s.net && R.EntriesWellFormed(s.r.incoming)
    && c.packet < |e.pkts|
    && WindowOf(ReceiverNumber(e, s)) <= WindowOf(Number(e.pkts, Limit(e), c.packet, 0)) + 9
    && var (r', ok) := Deliver(s.r, c);
       s' == s.(r := r', acks := if ok && Ackable(c.rseq, r'.current) then s.acks + {c} else s.acks)
  }

  predicate AckStep(e: Env, s: System, s': System, c: Copy)
    requires ValidEnv(e)
  {
    && c in s.acks && WellFormed(s.p) && |s.p.chans| > 0
    && c.packet < |e.pkts|
    && WindowOf(s.p.chans[0].newest) <= WindowOf(Number(e.pkts, Limit(e), c.packet, c.part)) + 15
    && s' == s.(p := RemoveSentReliable(s.p, c.rseq, 0).0)
  }

  predicate TakeStep(s: System, s': System) {
    && s.r.dispatched != []
    && s' == s.(r := R.Receive(s.r), received := s.received + [s.r.dispatched[0]])
  }

  datatype Step =
    | DoSend(rq: Request) | DoControl(c: Cmd) | DoFlush(g: Gram, now: u32) | DoTimeout(now: u32)
    | DoTune | DoData(copy: Copy) | DoAck(ack: Copy) | DoTake

  predicate Next(e: Env, s: System, s': System, step: Step)
    requires ValidEnv(e)
  {
    match step
    case DoSend(rq) => SendStep(e, s, s', rq)
    case DoControl(c) => ControlStep(s, s', c)
    case DoFlush(g, now) => FlushStep(e, s, s', g, now)
    case DoTimeout(now) => TimeoutStep(s, s', now)
    case DoTune => TuneStep(s, s')
    case DoData(copy) => DataStep(e, s, s', copy)
    case DoAck(ack) => AckStep(e, s, s', ack)
    case DoTake => TakeStep(s, s')
  }

  /** A fresh connection: one channel, nothing sent and nothing received. */
  predicate Initial(e: Env, s: System) {
    && |s.p.chans| == 1
    && s.p.chans[0] == Chan(0, 0, seq(16, _ => false), seq(16, _ => 0), 0, 0)
    && s.p.outgoing == [] && s.p.sent == [] && s.p.sentUnreliable == [] && s.p.inTransit == 0
    && s.p.mtu == e.mtu
    && s.r.current == 0 && s.r.incoming == [] && s.r.dispatched == [] && s.r.waiting == 0
    && s.received == [] && s.queued == 0 && s.net == {} && s.acks == {}
  }

  predicate Run(e: Env, trace: seq<System>, steps: seq<Step>)
    requires ValidEnv(e)
  {
    && |trace| == |steps| + 1
    && Initial(e, trace[0])
    && forall i | 0 <= i < |steps| :: Next(e, trace[i], trace[i + 1], steps[i])
  }
}
