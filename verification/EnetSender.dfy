/** The sending side of an ENet peer as a value: what setup_outgoing_command,
    check_outgoing_commands, check_timeouts and remove_sent_reliable_command do to the peer.
    SenderInvariants proves what these operations keep, OutgoingPeer is the class that
    performs them in place. */
module EnetSender {
  import opened Options
  import opened SeqNumbers
  import opened WindowBits

  const PEER_CHANNEL: nat := 0xFF
  const MAX_COMMANDS: nat := 32
  const MAX_BUFFERS: nat := 65
  const TIME_OVERFLOW: nat := 86400000
  const THROTTLE_SCALE: nat := 32
  const THROTTLE_COUNTER: nat := 7

  datatype Kind =
    | Connect | VerifyConnect | Disconnect | Ping
    | SendReliable | SendUnreliable | SendFragment | SendUnreliableFragment | SendUnsequenced
    | BandwidthLimit | ThrottleConfigure

  /** Sizes of the packed command structures. */
  function SizeOf(k: Kind): nat {
    match k
    case Connect => 48
    case VerifyConnect => 44
    case Disconnect => 8
    case Ping => 4
    case SendReliable => 6
    case SendUnreliable => 8
    case SendUnsequenced => 8
    case SendFragment => 24
    case SendUnreliableFragment => 24
    case BandwidthLimit => 12
    case ThrottleConfigure => 16
  }

  /** An outgoing command. `group` is the unsequenced group, zero on other commands. `index` is history: the unbounded number of a reliable command on its
      channel, of which `rseq` is the low half. No operation reads it. */
  datatype Cmd = Cmd(
    kind: Kind, chan: nat, reliable: bool, rseq: u16, useq: u16, attempts: u16,
    sentTime: u32, rto: u32, rtoLimit: u32,
    offset: nat, len: u16, packet: Option<nat>, unthrottled: bool, fragment: Fragment, group: u16, index: nat)

  /** The fragment fields of a command: the number of the packet's first fragment, the number of
      fragments, this one's place and the packet's length. All zero on other commands. */
  datatype Fragment = Fragment(start: u16, count: nat, number: nat, total: nat)

  const NO_FRAGMENT: Fragment := Fragment(0, 0, 0, 0)

  /** A channel's sending half. `total` and `newest` are history: how many reliable commands were
      set up on it, and how many of those were ever attempted. */
  datatype Chan = Chan(
    outSeq: u16, outUnrel: u16, used: Bits16, windows: seq<nat>, total: nat, newest: nat)

  datatype Peer = Peer(
    chans: seq<Chan>, peerSeq: u16, unseqGroup: u16,
    outgoing: seq<Cmd>, sent: seq<Cmd>, sentUnreliable: seq<Cmd>,
    inTransit: int, nextTimeout: u32, earliestTimeout: u32,
    throttle: nat, throttleCounter: nat, windowSize: nat, mtu: nat,
    rtt: u32, rttVar: u32, timeoutLimit: u32, timeoutMinimum: u32, timeoutMaximum: u32,
    refs: map<nat, nat>, destroyed: seq<nat>)

  /** The datagram under construction (host->commandCount, bufferCount, packetSize, headerFlags,
      continueSending). */
  datatype Gram = Gram(commands: nat, buffers: nat, bytes: nat, sentTimeFlag: bool, more: bool)

  function Add32(a: nat, b: nat): u32 { (a + b) % 0x1_0000_0000 }

  function Sub32(a: u32, b: u32): u32 { (a + 0x1_0000_0000 - b) % 0x1_0000_0000 }

  /** ENET_TIME_DIFFERENCE */
  function TimeDifference(a: u32, b: u32): u32 {
    if Sub32(a, b) >= TIME_OVERFLOW then Sub32(b, a) else Sub32(a, b)
  }

  /** ENET_TIME_LESS */
  predicate TimeLess(a: u32, b: u32) { Sub32(a, b) >= TIME_OVERFLOW }

  function RefCount(refs: map<nat, nat>, id: nat): nat { if id in refs then refs[id] else 0 }

  function Retain(refs: map<nat, nat>, id: Option<nat>): map<nat, nat> {
    if id.None? then refs else refs[id.value := RefCount(refs, id.value) + 1]
  }

  /** Drops one reference; the packet is destroyed when none is left. */
  function Release(p: Peer, id: Option<nat>): Peer {
    if id.None? || RefCount(p.refs, id.value) == 0 then p
    else
      var left := RefCount(p.refs, id.value) - 1;
      p.(refs := p.refs[id.value := left],
         destroyed := if left == 0 then p.destroyed + [id.value] else p.destroyed)
  }

  /** enet_peer_setup_outgoing_command */
  function Setup(p: Peer, c: Cmd): Peer
    requires c.chan == PEER_CHANNEL || c.chan < |p.chans|
  {
    var c0 := c.(attempts := 0, sentTime := 0, rto := 0, rtoLimit := 0);
    if c.chan == PEER_CHANNEL then
      var n := (p.peerSeq + 1) % WRAP;
      p.(peerSeq := n, outgoing := p.outgoing + [c0.(rseq := n, useq := 0, index := 0)])
    else
      var ch := p.chans[c.chan];
      if c.reliable then
        var n := (ch.outSeq + 1) % WRAP;
        p.(chans := p.chans[c.chan := ch.(outSeq := n, outUnrel := 0, total := ch.total + 1)],
           outgoing := p.outgoing + [c0.(rseq := n, useq := 0, index := ch.total + 1)])
      else if c.kind == SendUnsequenced then
        var n := (p.unseqGroup + 1) % WRAP;
        p.(unseqGroup := n, outgoing := p.outgoing + [c0.(rseq := 0, useq := 0, group := n, index := 0)])
      else
        var u := if c.offset == 0 then (ch.outUnrel + 1) % WRAP else ch.outUnrel;
        p.(chans := p.chans[c.chan := ch.(outUnrel := u)],
           outgoing := p.outgoing + [c0.(rseq := ch.outSeq, useq := u, index := 0)])
  }

  /** enet_peer_queue_outgoing_command */
  function Queue(p: Peer, c: Cmd): Peer
    requires c.chan == PEER_CHANNEL || c.chan < |p.chans|
  {
    Setup(p.(refs := Retain(p.refs, c.packet)), c)
  }

  // ----- enet_peer_send -----

  const MAX_FRAGMENTS: nat := 1024 * 1024

  /** What enet_peer_send is asked to send. */
  datatype Request = Request(
    id: nat, length: nat, reliable: bool, unsequenced: bool, unreliableFragment: bool, unthrottled: bool)

  /** The largest payload that goes out whole. */
  function FragmentLimit(mtu: nat, checksum: bool): nat
    requires mtu >= 576
  {
    mtu - 4 - 24 - 8 - if checksum then 8 else 0
  }

  function FragmentCount(length: nat, limit: nat): nat
    requires limit > 0
  {
    (length + limit - 1) / limit
  }

  /** The commands cut from `offset` on, numbered from `number`. */
  function Cut(base: Cmd, length: nat, limit: nat, offset: nat, number: nat): seq<Cmd>
    requires 0 < limit < WRAP
    decreases length - offset
  {
    if offset >= length then []
    else
      var len := if length - offset < limit then length - offset else limit;
      [base.(offset := offset, len := len, fragment := base.fragment.(number := number))]
      + Cut(base, length, limit, offset + len, number + 1)
  }

  function SetupAll(p: Peer, cs: seq<Cmd>): Peer
    requires forall k | 0 <= k < |cs| :: cs[k].chan < |p.chans|
    decreases |cs|
  {
    if cs == [] then p else SetupAll(Setup(p, cs[0]), cs[1..])
  }

  function Blank(kind: Kind, chan: nat, reliable: bool, rq: Request): Cmd {
    Cmd(kind, chan, reliable, 0, 0, 0, 0, 0, 0, 0, 0, Some(rq.id), rq.unthrottled, NO_FRAGMENT, 0, 0)
  }

  /** The command of a packet that goes out whole. */
  function WholeOf(p: Peer, chan: nat, rq: Request): Cmd
    requires chan < |p.chans| && rq.length < WRAP
  {
    var c := if rq.unsequenced && !rq.reliable then Blank(SendUnsequenced, chan, false, rq)
             else if rq.reliable || p.chans[chan].outUnrel >= WRAP - 1 then Blank(SendReliable, chan, true, rq)
             else Blank(SendUnreliable, chan, false, rq);
    c.(len := rq.length)
  }

  /** The fragments of a packet, before they are numbered. */
  function FragmentsOf(p: Peer, chan: nat, rq: Request, limit: nat): seq<Cmd>
    requires chan < |p.chans| && 0 < limit < WRAP
  {
    var ch := p.chans[chan];
    var unreliable := !rq.reliable && rq.unreliableFragment && ch.outUnrel < WRAP - 1;
    var start := ((if unreliable then ch.outUnrel else ch.outSeq) + 1) % WRAP;
    var base := Blank(if unreliable then SendUnreliableFragment else SendFragment, chan, !unreliable, rq);
    Cut(base.(fragment := Fragment(start, FragmentCount(rq.length, limit), 0, rq.length)), rq.length, limit, 0, 0)
  }

  /** enet_peer_send to a connected peer. */
  function Send(p: Peer, chan: nat, rq: Request, checksum: bool, maximumPacketSize: nat): Option<Peer>
    requires 576 <= p.mtu < WRAP
  {
    if chan >= |p.chans| || rq.length > maximumPacketSize then None
    else
      var limit := FragmentLimit(p.mtu, checksum);
      if rq.length > limit then
        if FragmentCount(rq.length, limit) > MAX_FRAGMENTS then None
        else
          var fs := FragmentsOf(p, chan, rq, limit);
          CutChannels(p, chan, rq, limit);
          Some(SetupAll(p.(refs := p.refs[rq.id := RefCount(p.refs, rq.id) + |fs|]), fs))
      else Some(Queue(p, WholeOf(p, chan, rq)))
  }

  lemma CutChannel(base: Cmd, length: nat, limit: nat, offset: nat, number: nat)
    requires 0 < limit < WRAP
    ensures forall k | 0 <= k < |Cut(base, length, limit, offset, number)| ::
      Cut(base, length, limit, offset, number)[k].chan == base.chan
    decreases length - offset
  {
  }

  lemma CutChannels(p: Peer, chan: nat, rq: Request, limit: nat)
    requires chan < |p.chans| && 0 < limit < WRAP
    ensures forall k | 0 <= k < |FragmentsOf(p, chan, rq, limit)| :: FragmentsOf(p, chan, rq, limit)[k].chan == chan
  {
    var ch := p.chans[chan];
    var unreliable := !rq.reliable && rq.unreliableFragment && ch.outUnrel < WRAP - 1;
    var start := ((if unreliable then ch.outUnrel else ch.outSeq) + 1) % WRAP;
    var b := Blank(if unreliable then SendUnreliableFragment else SendFragment, chan, !unreliable, rq);
    CutChannel(b.(fragment := Fragment(start, FragmentCount(rq.length, limit), 0, rq.length)), rq.length, limit, 0, 0);
  }

  // ----- check_outgoing_commands -----

  datatype Flags = Flags(wrap: bool, exceeded: bool, canPing: bool)

  /** `kept` are the commands already passed over, `rest` those still to be looked at; together
      they are the outgoing queue. `emitted` are the commands placed in the datagram. */
  datatype Scan = Scan(p: Peer, kept: seq<Cmd>, rest: seq<Cmd>, fl: Flags, g: Gram, emitted: seq<Cmd>)

  predicate WellFormed(p: Peer) {
    && |p.chans| <= PEER_CHANNEL
    && (forall c | 0 <= c < |p.chans| :: |p.chans[c].windows| == 16)
  }

  /** Whether a first attempt of `c` would open a window while too much is outstanding. */
  predicate OpensWindowEarly(p: Peer, c: Cmd)
    requires WellFormed(p) && c.chan < |p.chans|
  {
    var ch := p.chans[c.chan];
    var w := c.rseq / WINDOW_SIZE;
    && c.attempts < 1
    && c.rseq % WINDOW_SIZE == 0
    && (ch.windows[(w + WINDOWS - 1) % WINDOWS] >= WINDOW_SIZE || Overlaps(ch.used, w))
  }

  predicate ExceedsWindow(p: Peer, c: Cmd) {
    var limit := (p.throttle * p.windowSize) / THROTTLE_SCALE;
    p.inTransit + c.len > if limit > p.mtu then limit else p.mtu
  }

  predicate Fits(g: Gram, c: Cmd, mtu: nat) {
    && g.commands < MAX_COMMANDS
    && g.buffers + 1 < MAX_BUFFERS
    && g.bytes + SizeOf(c.kind) <= mtu
    && (c.packet.Some? ==> (mtu - g.bytes) % WRAP >= (SizeOf(c.kind) + c.len) % WRAP)
  }

  function AfterCommand(g: Gram, c: Cmd): Gram {
    g.(commands := g.commands + 1,
       buffers := g.buffers + if c.packet.Some? then 2 else 1,
       bytes := g.bytes + SizeOf(c.kind) + if c.packet.Some? then c.len else 0,
       sentTimeFlag := g.sentTimeFlag || c.reliable)
  }

  function Rto(p: Peer): u32 { Add32(p.rtt, 4 * p.rttVar) }

  function RtoLimit(p: Peer, rto: u32): u32 { (p.timeoutLimit * rto) % 0x1_0000_0000 }

  /** The command as it stands in the sent list after one more attempt. */
  function Attempted(p: Peer, c: Cmd, now: u32): Cmd {
    var rto := if c.rto == 0 then Rto(p) else c.rto;
    c.(attempts := (c.attempts + 1) % WRAP,
       rto := rto,
       rtoLimit := if c.rto == 0 then RtoLimit(p, rto) else c.rtoLimit,
       sentTime := now)
  }

  function OpenWindow(ch: Chan, w: nat): Chan
    requires w < 16 && |ch.windows| == 16
  {
    ch.(used := ch.used[w := true],
        windows := ch.windows[w := ch.windows[w] + 1],
        newest := ch.newest + 1)
  }

  /** What sending reliable command `c` (already unlinked from the queue) does to the peer. */
  function Attempt(p: Peer, c: Cmd, now: u32): Peer
    requires WellFormed(p)
  {
    var c' := Attempted(p, c, now);
    p.(chans := if c.chan < |p.chans| && c.attempts < 1
                then p.chans[c.chan := OpenWindow(p.chans[c.chan], c.rseq / WINDOW_SIZE)] else p.chans,
       nextTimeout := if p.sent == [] then Add32(now, c'.rto) else p.nextTimeout,
       sent := p.sent + [c'],
       inTransit := p.inTransit + c.len)
  }

  /** Drops the first unreliable command and those after it with the same pair of numbers. */
  function DropGroup(s: Scan, rseq: u16, useq: u16): Scan
    requires s.rest != []
    ensures WellFormed(s.p) ==> WellFormed(DropGroup(s, rseq, useq).p)
    ensures |DropGroup(s, rseq, useq).rest| < |s.rest|
    decreases |s.rest|
  {
    var s' := s.(p := Release(s.p, s.rest[0].packet), rest := s.rest[1..]);
    if s'.rest == [] || s'.rest[0].rseq != rseq || s'.rest[0].useq != useq then s'
    else DropGroup(s', rseq, useq)
  }

  /** Whether reliable command `c` must wait, with the flags raised while finding out. */
  function Gate(p: Peer, fl: Flags, c: Cmd): (bool, Flags)
    requires WellFormed(p)
  {
    if !c.reliable then (false, fl)
    else
      var onChannel := c.chan < |p.chans|;
      var wrap := if onChannel && !fl.wrap then OpensWindowEarly(p, c) else fl.wrap;
      if onChannel && wrap then (true, fl.(wrap := wrap))
      else
        var exceeded := if c.packet.Some? && !fl.exceeded then ExceedsWindow(p, c) else fl.exceeded;
        if c.packet.Some? && exceeded then (true, fl.(wrap := wrap, exceeded := exceeded))
        else (false, Flags(wrap, exceeded, false))
  }

  /** One turn of the loop of check_outgoing_commands, on a command that may go out. */
  function Emit(s: Scan, now: u32): (s': Scan)
    requires WellFormed(s.p) && s.rest != []
    ensures WellFormed(s'.p) && |s'.rest| < |s.rest|
  {
    var c := s.rest[0];
    var counter := (s.p.throttleCounter + THROTTLE_COUNTER) % THROTTLE_SCALE;
    var counts := !c.reliable && c.packet.Some? && c.offset == 0 && !c.unthrottled;
    if c.reliable then
      Scan(Attempt(s.p, c, now), s.kept, s.rest[1..], s.fl, AfterCommand(s.g, c),
           s.emitted + [Attempted(s.p, c, now)])
    else if counts && counter > s.p.throttle then
      DropGroup(s.(p := s.p.(throttleCounter := counter)), c.rseq, c.useq)
    else
      var p := if counts then s.p.(throttleCounter := counter) else s.p;
      var p' := if c.packet.Some? then p.(sentUnreliable := p.sentUnreliable + [c]) else p;
      Scan(p', s.kept, s.rest[1..], s.fl, AfterCommand(s.g, c), s.emitted + [c])
  }

  /** The loop of check_outgoing_commands. */
  function ScanAll(s: Scan, now: u32): Scan
    requires WellFormed(s.p)
    decreases |s.rest|
  {
    if s.rest == [] then s
    else
      var (wait, fl) := Gate(s.p, s.fl, s.rest[0]);
      if wait then ScanAll(s.(kept := s.kept + [s.rest[0]], rest := s.rest[1..], fl := fl), now)
      else if !Fits(s.g, s.rest[0], s.p.mtu) then s.(fl := fl, g := s.g.(more := true))
      else ScanAll(Emit(s.(fl := fl), now), now)
  }

  /** One turn of the walk over the queue. */
  lemma ScanStep(s: Scan, now: u32)
    requires WellFormed(s.p) && s.rest != []
    ensures var c := s.rest[0];
      var (wait, fl) := Gate(s.p, s.fl, c);
      ScanAll(s, now) ==
        if wait then ScanAll(s.(kept := s.kept + [c], rest := s.rest[1..], fl := fl), now)
        else if !Fits(s.g, c, s.p.mtu) then s.(fl := fl, g := s.g.(more := true))
        else ScanAll(Emit(s.(fl := fl), now), now)
  {
    hide Gate, Emit, Fits;
  }

  lemma ScanEnds(s: Scan, now: u32)
    requires WellFormed(s.p) && s.rest == []
    ensures ScanAll(s, now) == s
  {
  }

  function StartScan(p: Peer, g: Gram): Scan {
    Scan(p.(outgoing := []), [], p.outgoing, Flags(false, false, true), g, [])
  }

  /** The peer with the queue the scan has left. */
  function PeerOf(s: Scan): Peer { s.p.(outgoing := s.kept + s.rest) }

  function CheckOutgoing(p: Peer, g: Gram, now: u32): Scan
    requires WellFormed(p)
  {
    ScanAll(StartScan(p, g), now)
  }

  // ----- check_timeouts -----

  predicate TimedOut(c: Cmd, now: u32) { TimeDifference(now, c.sentTime) >= c.rto }

  function Earliest(p: Peer, c: Cmd): u32 {
    if p.earliestTimeout == 0 || TimeLess(c.sentTime, p.earliestTimeout) then c.sentTime
    else p.earliestTimeout
  }

  predicate GivesUp(p: Peer, earliest: u32, c: Cmd, now: u32) {
    && earliest != 0
    && (|| TimeDifference(now, earliest) >= p.timeoutMaximum
        || (c.rto >= c.rtoLimit && TimeDifference(now, earliest) >= p.timeoutMinimum))
  }

  /** The command as it goes back to the outgoing queue. */
  function Rearmed(p: Peer, c: Cmd): Cmd {
    c.(rto := Rto(p), rtoLimit := RtoLimit(p, Rto(p)))
  }

  function Deadline(c: Cmd): u32 { Add32(c.sentTime, c.rto) }

  /** The loop of check_timeouts: `rest` of the sent list is still to be looked at, `moved` have
      been put back in front of the outgoing queue. The flag says the peer is given up. */
  function TimeoutLoop(p: Peer, kept: seq<Cmd>, rest: seq<Cmd>, moved: seq<Cmd>, now: u32): (Peer, bool)
    decreases |rest|
  {
    if rest == [] then (p.(sent := kept, outgoing := moved + p.outgoing), false)
    else
      var c := rest[0];
      if !TimedOut(c, now) then TimeoutLoop(p, kept + [c], rest[1..], moved, now)
      else
        var earliest := Earliest(p, c);
        if GivesUp(p, earliest, c, now) then
          (p.(earliestTimeout := earliest, sent := kept + rest, outgoing := moved + p.outgoing), true)
        else
          var p' := p.(earliestTimeout := earliest,
                       inTransit := if c.packet.Some? then p.inTransit - c.len else p.inTransit,
                       nextTimeout := if kept == [] && |rest| > 1 then Deadline(rest[1]) else p.nextTimeout);
          TimeoutLoop(p', kept, rest[1..], moved + [Rearmed(p, c)], now)
  }

  function CheckTimeouts(p: Peer, now: u32): (Peer, bool) {
    TimeoutLoop(p, [], p.sent, [], now)
  }

  lemma StartOfLoop(p: Peer, now: u32)
    ensures CheckTimeouts(p, now) == TimeoutLoop(p, [], p.sent, [], now)
  {
  }

  lemma PassedOver(p: Peer, kept: seq<Cmd>, rest: seq<Cmd>, moved: seq<Cmd>, now: u32)
    requires rest != [] && !TimedOut(rest[0], now)
    ensures TimeoutLoop(p, kept, rest, moved, now) == TimeoutLoop(p, kept + [rest[0]], rest[1..], moved, now)
  {
  }

  lemma EndOfLoop(p: Peer, kept: seq<Cmd>, rest: seq<Cmd>, moved: seq<Cmd>, now: u32)
    requires rest == []
    ensures kept + rest == kept
    ensures TimeoutLoop(p, kept, rest, moved, now) == (p.(sent := kept, outgoing := moved + p.outgoing), false)
  {
  }

  /** One turn of the loop over a timed-out command. */
  lemma TimedOutStep(p: Peer, kept: seq<Cmd>, rest: seq<Cmd>, moved: seq<Cmd>, now: u32)
    requires rest != [] && TimedOut(rest[0], now)
    ensures var c, earliest := rest[0], Earliest(p, rest[0]);
      TimeoutLoop(p, kept, rest, moved, now) ==
        if GivesUp(p, earliest, c, now)
        then (p.(earliestTimeout := earliest, sent := kept + rest, outgoing := moved + p.outgoing), true)
        else TimeoutLoop(
          p.(earliestTimeout := earliest,
             inTransit := if c.packet.Some? then p.inTransit - c.len else p.inTransit,
             nextTimeout := if kept == [] && |rest| > 1 then Deadline(rest[1]) else p.nextTimeout),
          kept, rest[1..], moved + [Rearmed(p, c)], now)
  {
  }

  // ----- remove_sent_reliable_command -----

  predicate Matches(c: Cmd, rseq: u16, chan: nat) { c.rseq == rseq && c.chan == chan }

  /** First position from `k` on that matches. */
  function FindSent(cs: seq<Cmd>, rseq: u16, chan: nat, k: nat): (r: Option<nat>)
    requires k <= |cs|
    ensures r.Some? ==> k <= r.value < |cs| && Matches(cs[r.value], rseq, chan)
    ensures r.None? ==> forall j | k <= j < |cs| :: !Matches(cs[j], rseq, chan)
    decreases |cs| - k
  {
    if k == |cs| then None
    else if Matches(cs[k], rseq, chan) then Some(k)
    else FindSent(cs, rseq, chan, k + 1)
  }

  /** As FindSent, but the search ends at the first command never attempted. */
  function FindAttempted(cs: seq<Cmd>, rseq: u16, chan: nat, k: nat): (r: Option<nat>)
    requires k <= |cs|
    ensures r.Some? ==> k <= r.value < |cs| && Matches(cs[r.value], rseq, chan) && cs[r.value].attempts >= 1
    decreases |cs| - k
  {
    if k == |cs| || cs[k].attempts < 1 then None
    else if Matches(cs[k], rseq, chan) then Some(k)
    else FindAttempted(cs, rseq, chan, k + 1)
  }

  function Without(cs: seq<Cmd>, k: nat): seq<Cmd>
    requires k < |cs|
  {
    cs[..k] + cs[k + 1..]
  }

  function CloseWindow(ch: Chan, w: nat): Chan
    requires w < 16 && |ch.windows| == 16
  {
    if ch.windows[w] == 0 then ch
    else ch.(windows := ch.windows[w := ch.windows[w] - 1],
             used := if ch.windows[w] == 1 then ch.used[w := false] else ch.used)
  }

  /** Window bookkeeping and packet release for an acknowledged command, after it is unlinked. */
  function Settle(p: Peer, c: Cmd, rseq: u16, chan: nat, wasSent: bool): (p': Peer)
    requires WellFormed(p)
    ensures WellFormed(p')
  {
    var p1 := if chan < |p.chans|
              then p.(chans := p.chans[chan := CloseWindow(p.chans[chan], rseq / WINDOW_SIZE)]) else p;
    var p2 := if c.packet.Some? && wasSent then p1.(inTransit := p1.inTransit - c.len) else p1;
    var p3 := Release(p2, c.packet);
    if p3.sent == [] then p3 else p3.(nextTimeout := Deadline(p3.sent[0]))
  }

  function RemoveSentReliable(p: Peer, rseq: u16, chan: nat): (Peer, Option<Kind>)
    requires WellFormed(p)
  {
    var i := FindSent(p.sent, rseq, chan, 0);
    if i.Some? then
      var c := p.sent[i.value];
      (Settle(p.(sent := Without(p.sent, i.value)), c, rseq, chan, true), Some(c.kind))
    else
      var j := FindAttempted(p.outgoing, rseq, chan, 0);
      if j.Some? then
        var c := p.outgoing[j.value];
        (Settle(p.(outgoing := Without(p.outgoing, j.value)), c, rseq, chan, false), Some(c.kind))
      else (p, None)
  }

  // ----- queues emptied as a whole -----

  /** Unlinks and releases every command of a list, front first. */
  function ReleaseAll(p: Peer, cs: seq<Cmd>): Peer
    decreases |cs|
  {
    if cs == [] then p else ReleaseAll(Release(p, cs[0].packet), cs[1..])
  }

  /** remove_sent_unreliable_commands, after the datagram has left. */
  function RemoveSentUnreliable(p: Peer): Peer {
    ReleaseAll(p.(sentUnreliable := []), p.sentUnreliable)
  }

  /** The three reset_outgoing_commands calls of enet_peer_reset_queues. */
  function ResetQueues(p: Peer): Peer {
    var p1 := ReleaseAll(p.(sent := []), p.sent);
    var p2 := ReleaseAll(p1.(sentUnreliable := []), p.sentUnreliable);
    ReleaseAll(p2.(outgoing := []), p.outgoing)
  }
}
