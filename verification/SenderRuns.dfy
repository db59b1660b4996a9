/** Whole runs of one peer's sending side: sends of any kind of packet, datagrams, time-outs,
    acknowledgements and changes of the measured times, in any order. */
module SenderRuns {
  import opened Options
  import opened SeqNumbers
  import opened EnetSender
  import opened SenderInvariants
  import opened PacketOwnership

  datatype Action =
    | DoSend(chan: nat, rq: Request, checksum: bool, maximumPacketSize: nat)
    | DoControl(c: Cmd)
    | DoFlush(g: Gram, now: u32)
    | DoSent
    | DoTimeout(now: u32)
    | DoAck(rseq: u16, chan: nat)
    | DoTune(throttle: nat, counter: nat, windowSize: nat, rtt: u32, rttVar: u32)

  /** The application sends no packet it has already lost, control commands carry no packet, no
      command is sent a 65536th time, and when a datagram is filled no reliable command stands where
      the throttle may take it for one more of the unsequenced commands before it. */
  predicate Step(p: Peer, p': Peer, a: Action) {
    match a
    case DoSend(chan, rq, checksum, max) =>
      && 576 <= p.mtu <= 4096 && rq.id !in p.destroyed
      && Send(p, chan, rq, checksum, max) == Some(p')
    case DoControl(c) =>
      && c.chan == PEER_CHANNEL && c.packet.None? && c.len == 0 && c.reliable
      && p' == Queue(p, c)
    case DoFlush(g, now) =>
      && WellFormed(p) && g.bytes <= p.mtu && g.commands <= MAX_COMMANDS
      && (forall k | 0 <= k < |p.outgoing| :: p.outgoing[k].attempts < WRAP - 1)
      && NoneCaught(p.outgoing)
      && p' == PeerOf(CheckOutgoing(p, g, now))
    case DoSent => p' == RemoveSentUnreliable(p)
    case DoTimeout(now) => p' == CheckTimeouts(p, now).0
    case DoAck(rseq, chan) => WellFormed(p) && p' == RemoveSentReliable(p, rseq, chan).0
    case DoTune(throttle, counter, windowSize, rtt, rttVar) =>
      p' == p.(throttle := throttle, throttleCounter := counter, windowSize := windowSize, rtt := rtt, rttVar := rttVar)
  }

  predicate Initial(p: Peer) {
    && 0 < |p.chans| <= PEER_CHANNEL && 576 <= p.mtu <= 4096
    && (forall ch | 0 <= ch < |p.chans| :: p.chans[ch] == Chan(0, 0, seq(16, _ => false), seq(16, _ => 0), 0, 0))
    && p.outgoing == [] && p.sent == [] && p.sentUnreliable == [] && p.inTransit == 0
    && p.refs == map[] && p.destroyed == []
  }

  predicate Run(trace: seq<Peer>, actions: seq<Action>) {
    && |trace| == |actions| + 1
    && Initial(trace[0])
    && forall i | 0 <= i < |actions| :: Step(trace[i], trace[i + 1], actions[i])
  }

  // ----- what a send sets up -----

  /** Commands of one packet for channel `ch`, in sending order. */
  ghost predicate Sendable(p: Peer, cs: seq<Cmd>, ch: nat) {
    && ch < |p.chans| && ch != PEER_CHANNEL
    && (forall k | 0 <= k < |cs| ::
          && cs[k].chan == ch && cs[k].packet.Some? && cs[k].reliable == cs[0].reliable
          && cs[k].kind != SendUnsequenced
          && SizeOf(cs[k].kind) + cs[k].len + 12 <= p.mtu
          && (k > 0 ==> cs[k].offset > 0))
    && (cs != [] && !cs[0].reliable ==>
          if cs[0].offset == 0 then p.chans[ch].outUnrel < WRAP - 1 else p.chans[ch].outUnrel > 0)
  }

  lemma SetupKeepsSendable(p: Peer, cs: seq<Cmd>, ch: nat)
    requires Sendable(p, cs, ch) && cs != []
    ensures Sendable(Setup(p, cs[0]), cs[1..], ch)
  {
    var p', rest := Setup(p, cs[0]), cs[1..];
    forall k: nat | k < |rest|
      ensures rest[k].chan == ch && rest[k].packet.Some? && rest[k].reliable == cs[0].reliable && rest[k].kind != SendUnsequenced
      ensures SizeOf(rest[k].kind) + rest[k].len + 12 <= p'.mtu && rest[k].offset > 0
    {
      assert rest[k] == cs[k + 1];
    }
    assert !cs[0].reliable ==> p'.chans[ch].outUnrel > 0;
  }

  lemma {:induction false} SetupAllKeepsInv(p: Peer, cs: seq<Cmd>, ch: nat)
    requires Inv(p) && Sendable(p, cs, ch)
    ensures Inv(SetupAll(p, cs))
    decreases |cs|
  {
    hide Inv, Setup;
    if cs != [] {
      InvWellFormed(p);
      SetupKeepsInv(p, cs[0]);
      SetupKeepsSendable(p, cs, ch);
      SetupAllKeepsInv(Setup(p, cs[0]), cs[1..], ch);
    }
  }

  lemma {:induction false} CutSizes(base: Cmd, length: nat, limit: nat, offset: nat, number: nat)
    requires 0 < limit < WRAP
    ensures var cs := Cut(base, length, limit, offset, number);
      && (cs != [] ==> cs[0].offset == offset)
      && forall k | 0 <= k < |cs| ::
           && cs[k].chan == base.chan && cs[k].packet == base.packet && cs[k].reliable == base.reliable
           && cs[k].kind == base.kind && cs[k].len <= limit
           && (k > 0 ==> cs[k].offset > 0)
    decreases length - offset
  {
    if offset < length {
      var len := if length - offset < limit then length - offset else limit;
      var cs, rest := Cut(base, length, limit, offset, number), Cut(base, length, limit, offset + len, number + 1);
      CutSizes(base, length, limit, offset + len, number + 1);
      assert forall k | 0 < k < |cs| :: cs[k] == rest[k - 1];
    }
  }

  lemma FragmentsSendable(p: Peer, chan: nat, rq: Request, limit: nat)
    requires WellFormed(p) && chan < |p.chans| && 0 < limit < WRAP && limit + 36 <= p.mtu
    ensures Sendable(p, FragmentsOf(p, chan, rq, limit), chan)
  {
    var ch := p.chans[chan];
    var unreliable := !rq.reliable && rq.unreliableFragment && ch.outUnrel < WRAP - 1;
    var start := ((if unreliable then ch.outUnrel else ch.outSeq) + 1) % WRAP;
    var base := Blank(if unreliable then SendUnreliableFragment else SendFragment, chan, !unreliable, rq);
    var b := base.(fragment := Fragment(start, FragmentCount(rq.length, limit), 0, rq.length));
    CutSizes(b, rq.length, limit, 0, 0);
  }

  lemma SendKeepsInv(p: Peer, chan: nat, rq: Request, checksum: bool, maximumPacketSize: nat)
    requires Inv(p) && 576 <= p.mtu <= 4096
    requires Send(p, chan, rq, checksum, maximumPacketSize).Some?
    ensures Inv(Send(p, chan, rq, checksum, maximumPacketSize).value)
  {
    hide Inv, Setup;
    InvWellFormed(p);
    var limit := FragmentLimit(p.mtu, checksum);
    if rq.length > limit {
      var fs := FragmentsOf(p, chan, rq, limit);
      var q := p.(refs := p.refs[rq.id := RefCount(p.refs, rq.id) + |fs|]);
      CutChannels(p, chan, rq, limit);
      FragmentsSendable(p, chan, rq, limit);
      InvIgnoresRefs(p, q.refs);
      assert Sendable(q, fs, chan);
      SetupAllKeepsInv(q, fs, chan);
    } else {
      var c := WholeOf(p, chan, rq);
      InvIgnoresRefs(p, Retain(p.refs, c.packet));
      SetupKeepsInv(p.(refs := Retain(p.refs, c.packet)), c);
    }
  }

  lemma ControlKeepsInv(p: Peer, c: Cmd)
    requires Inv(p) && 576 <= p.mtu
    requires c.chan == PEER_CHANNEL && c.packet.None? && c.len == 0 && c.reliable
    ensures Inv(Queue(p, c))
  {
    hide Inv, Setup;
    InvWellFormed(p);
    assert p.(refs := Retain(p.refs, c.packet)) == p;
    SetupKeepsInv(p, c);
  }

  lemma SentKeepsInv(p: Peer)
    requires Inv(p) && Owned(p)
    ensures Inv(RemoveSentUnreliable(p))
  {
    hide Owned, OwnedWith;
    var q := p.(sentUnreliable := []);
    EmptyAfterReset(p);
    ReleaseAllOwned(q, p.sentUnreliable, []);
    var p' := RemoveSentUnreliable(p);
    assert p' == q.(refs := p'.refs, destroyed := p'.destroyed);
    InvIgnoresPackets(q, p'.refs, p'.destroyed, q.throttleCounter);
  }

  lemma EmptyAfterReset(p: Peer)
    requires Owned(p)
    ensures OwnedWith(p.(sentUnreliable := []), p.sentUnreliable + [])
  {
    var q := p.(sentUnreliable := []);
    assert p.sentUnreliable + [] == p.sentUnreliable;
    forall id: nat ensures RefCount(q.refs, id) == Held(q, id) + Total(p.sentUnreliable + [], HoldsPacket(id)) {
      assert RefCount(p.refs, id) == Held(p, id) + Total([], HoldsPacket(id));
    }
  }

  lemma TuneKeepsInv(p: Peer, throttle: nat, counter: nat, windowSize: nat, rtt: u32, rttVar: u32)
    requires Inv(p)
    ensures Inv(p.(throttle := throttle, throttleCounter := counter, windowSize := windowSize, rtt := rtt, rttVar := rttVar))
  {
    var p' := p.(throttle := throttle, throttleCounter := counter, windowSize := windowSize, rtt := rtt, rttVar := rttVar);
    forall c | CmdOk(p, c) ensures CmdOk(p', c) { }
    assert Shape(p') && WindowCounts(p') && Unique(p');
  }

  // ----- the segment size stays -----

  lemma {:induction false} SetupAllMtu(p: Peer, cs: seq<Cmd>)
    requires forall k | 0 <= k < |cs| :: cs[k].chan < |p.chans|
    ensures SetupAll(p, cs).mtu == p.mtu
    decreases |cs|
  {
    if cs != [] { SetupAllMtu(Setup(p, cs[0]), cs[1..]); }
  }

  lemma SendKeepsMtu(p: Peer, chan: nat, rq: Request, checksum: bool, maximumPacketSize: nat)
    requires 576 <= p.mtu < WRAP && Send(p, chan, rq, checksum, maximumPacketSize).Some?
    ensures Send(p, chan, rq, checksum, maximumPacketSize).value.mtu == p.mtu
  {
    hide FragmentsOf, FragmentCount;
    var limit := FragmentLimit(p.mtu, checksum);
    if rq.length > limit {
      var fs := FragmentsOf(p, chan, rq, limit);
      CutChannels(p, chan, rq, limit);
      SetupAllMtu(p.(refs := p.refs[rq.id := RefCount(p.refs, rq.id) + |fs|]), fs);
    }
  }

  lemma SentKeepsMtu(p: Peer)
    requires Owned(p)
    ensures RemoveSentUnreliable(p).mtu == p.mtu
  {
    hide Owned, OwnedWith;
    EmptyAfterReset(p);
    ReleaseAllOwned(p.(sentUnreliable := []), p.sentUnreliable, []);
  }

  lemma StepKeepsMtu(p: Peer, p': Peer, a: Action)
    requires Step(p, p', a) && Owned(p) && WellFormed(p)
    ensures p'.mtu == p.mtu
  {
    hide Send, Owned, RemoveSentUnreliable, ScanAll, TimeoutLoop, FindSent, FindAttempted;
    match a
    case DoSend(chan, rq, checksum, max) => SendKeepsMtu(p, chan, rq, checksum, max);
    case DoControl(c) =>
    case DoFlush(g, now) => ScanMtu(StartScan(p, g), now);
    case DoSent => SentKeepsMtu(p);
    case DoTimeout(now) => TimeoutMtu(p, [], p.sent, [], now);
    case DoAck(rseq, chan) =>
    case DoTune(throttle, counter, windowSize, rtt, rttVar) =>
  }

  // ----- runs -----

  ghost predicate Good(p: Peer) { Inv(p) && Owned(p) && 576 <= p.mtu <= 4096 }

  lemma InitialGood(p: Peer)
    requires Initial(p)
    ensures Good(p)
  {
    forall ch, i: nat | 0 <= ch < |p.chans|
      ensures Total(p.sent, IsIndex(ch, i)) + Total(p.outgoing, IsIndex(ch, i)) <= 1 {}
    assert WindowCounts(p) && Order(p.outgoing) && Unique(p) && Shape(p);
    assert forall id: nat :: Held(p, id) == 0;
  }

  lemma StepKeepsInv(p: Peer, p': Peer, a: Action)
    requires Good(p) && Step(p, p', a)
    ensures Inv(p')
  {
    hide Inv, Owned, Setup, Send, Queue, CheckOutgoing, CheckTimeouts, RemoveSentReliable, RemoveSentUnreliable;
    match a
    case DoSend(chan, rq, checksum, max) => SendKeepsInv(p, chan, rq, checksum, max);
    case DoControl(c) => ControlKeepsInv(p, c);
    case DoFlush(g, now) => CheckOutgoingKeepsInv(p, g, now);
    case DoSent => SentKeepsInv(p);
    case DoTimeout(now) => CheckTimeoutsKeepsInv(p, now);
    case DoAck(rseq, chan) => AckKeepsInv(p, rseq, chan);
    case DoTune(throttle, counter, windowSize, rtt, rttVar) => TuneKeepsInv(p, throttle, counter, windowSize, rtt, rttVar);
  }

  lemma StepKeepsOwned(p: Peer, p': Peer, a: Action)
    requires Good(p) && Step(p, p', a)
    ensures Owned(p')
  {
    hide Inv, Owned, Setup, Send, Queue, CheckTimeouts, RemoveSentReliable, RemoveSentUnreliable, ScanAll;
    match a
    case DoSend(chan, rq, checksum, max) => SendOwned(p, chan, rq, checksum, max);
    case DoControl(c) => QueueOwned(p, c);
    case DoFlush(g, now) =>
      assert PeerOf(StartScan(p, g)) == p;
      ScanOwned(StartScan(p, g), now);
    case DoSent => SentUnreliableOwned(p);
    case DoTimeout(now) =>
      assert Midway(p, [], p.sent, []) == p;
      StartOfLoop(p, now);
      TimeoutsOwned(p, [], p.sent, [], now);
    case DoAck(rseq, chan) => AckOwned(p, rseq, chan);
    case DoTune(throttle, counter, windowSize, rtt, rttVar) => OwnedIgnores(p, p');
  }

  /** In every state of every run the window counters, the used-window bits, the data in transit
      and the order of the outgoing queue are right (Inv), and every packet's reference count is
      the number of commands that hold it (Owned). */
  lemma {:induction false} RunsAreGood(trace: seq<Peer>, actions: seq<Action>, i: nat)
    requires Run(trace, actions) && i < |trace|
    ensures Good(trace[i])
  {
    hide Inv, Owned, Step, Initial;
    if i == 0 {
      InitialGood(trace[0]);
    } else {
      RunsAreGood(trace, actions, i - 1);
      assert Step(trace[i - 1], trace[i], actions[i - 1]);
      StepKeepsInv(trace[i - 1], trace[i], actions[i - 1]);
      StepKeepsOwned(trace[i - 1], trace[i], actions[i - 1]);
      InvWellFormed(trace[i - 1]);
      StepKeepsMtu(trace[i - 1], trace[i], actions[i - 1]);
    }
  }

  /** Whenever a run ends, resetting the queues has destroyed every packet ever sent, once. */
  lemma RunThenReset(trace: seq<Peer>, actions: seq<Action>)
    requires Run(trace, actions)
    ensures var p' := ResetQueues(trace[|actions|]);
      && DestroyedOnce(p')
      && forall id: nat | id in p'.refs :: id in p'.destroyed
  {
    hide Step, Initial, Inv, Owned, ResetQueues;
    RunsAreGood(trace, actions, |actions|);
    ResetDestroysAll(trace[|actions|]);
  }

  /** Every queued command fits a datagram that holds nothing but its header. */
  lemma EveryCommandFits(p: Peer, k: nat, g: Gram)
    requires Inv(p) && k < |p.outgoing| && g.commands == 0 && g.buffers == 1 && g.bytes <= 12
    ensures Fits(g, p.outgoing[k], p.mtu)
  {
    assert CmdOk(p, p.outgoing[k]);
  }

  // ----- where the accounting ends -----

  /** An attempt keeps the window counters right exactly when the 16-bit attempt count of the
      command does not wrap. */
  lemma AttemptAccountingExactly(p: Peer, k: nat, now: u32)
    requires Inv(p) && k < |p.outgoing| && p.outgoing[k].reliable && p.outgoing[k].chan < |p.chans|
    requires Fresh(p.outgoing[k]) ==>
      NoFreshBefore(p.outgoing, k, p.outgoing[k].chan) && !OpensWindowEarly(p, p.outgoing[k])
    ensures WindowCounts(Attempt(Unlinked(p, k), p.outgoing[k], now)) <==> p.outgoing[k].attempts < WRAP - 1
  {
    var c := p.outgoing[k];
    if c.attempts < WRAP - 1 {
      AttemptCounts(p, k, now);
    } else {
      AttemptWraps(p, k, now);
      var p' := Attempt(Unlinked(p, k), c, now);
      var ch, w := c.chan, c.rseq / WINDOW_SIZE;
      assert p'.chans[ch].windows[w] != Total(p'.sent, Counted(ch, w)) + Total(p'.outgoing, Counted(ch, w));
    }
  }

  /** The 65536th attempt sets the 16-bit attempt count of a command back to zero. The window
      counter does not move then, so it stays one above the commands that count as attempted; the
      attempt after it takes the command for a new one and counts it a second time. */
  lemma AttemptWraps(p: Peer, k: nat, now: u32)
    requires Inv(p) && k < |p.outgoing| && p.outgoing[k].reliable && p.outgoing[k].chan < |p.chans|
    requires p.outgoing[k].attempts == WRAP - 1
    ensures var c := p.outgoing[k];
      var ch, w := c.chan, c.rseq / WINDOW_SIZE;
      var p', d := Attempt(Unlinked(p, k), c, now), Attempted(p, c, now);
      && p'.chans == p.chans && p'.sent == p.sent + [d] && d.attempts == 0
      && p'.chans[ch].windows[w] == Total(p'.sent, Counted(ch, w)) + Total(p'.outgoing, Counted(ch, w)) + 1
      && forall q: Peer, later: u32 | WellFormed(q) && q.chans == p.chans ::
           Attempt(q, d, later).chans[ch].windows[w] == p.chans[ch].windows[w] + 1
  {
    var c := p.outgoing[k];
    var ch, w := c.chan, c.rseq / WINDOW_SIZE;
    TotalsAfterAttempt(p, k, now, Counted(ch, w));
    assert p.chans[ch].windows[w] == Total(p.sent, Counted(ch, w)) + Total(p.outgoing, Counted(ch, w));
  }
}
