/** The packet throttles of a host's peers over whole runs: acknowledgements, bandwidth passes,
    resets and everything else that happens to a peer, in any order. */
module ThrottleRuns {
  import opened SeqNumbers
  import opened Options
  import A = AckTiming
  import B = Bandwidth

  /** A peer as AckTiming and as Bandwidth see it: packetThrottle and packetThrottleLimit are the same
      two fields in both. */
  datatype Link = Link(timing: A.Timing, share: B.Peer)

  predicate Agrees(l: Link) { l.timing.throttle == l.share.throttle && l.timing.limit == l.share.limit }

  /** enet_peer_reset */
  const FRESH: Link := Link(
    A.Timing(1, 0, 1, 0, 1, 0, 32, 32, 2, 2, 40, 5000, 0, 0, 0),
    B.Peer(false, 0, 0, 0, 0, 0, 0, 32, 32, []))

  datatype Step =
    | DoAcknowledge(i: nat, service: u32, received: u16)
    | DoPass(now: u32, elapsed: u32, outgoing: u32, middle: seq<B.Peer>, t: u32, told: bool, limit: u32)
    | DoReset(i: nat)
    | DoOther(i: nat)

  function Shares(ls: seq<Link>): seq<B.Peer> { seq(|ls|, i requires 0 <= i < |ls| => ls[i].share) }

  /** An acknowledgement for the peer. */
  function Acknowledged(l: Link, service: u32, received: u16): Link {
    var t := A.Acknowledged(l.timing, service, received);
    Link(t, l.share.(throttle := t.throttle, limit := t.limit))
  }

  /** A pass that ran, as `Bandwidth.Host.Throttle` says. */
  ghost predicate PassStep(ls: seq<Link>, ls': seq<Link>, a: Step)
    requires a.DoPass?
  {
    && B.Divided(Shares(ls), a.middle, B.TotalData(Shares(ls), a.outgoing), B.Available(a.outgoing, a.elapsed), a.t,
                 a.elapsed, a.now)
    && B.Followed(a.middle, Shares(ls'), a.t, a.told, a.limit, a.now, a.outgoing)
    && |ls'| == |ls|
    && forall i | 0 <= i < |ls| ::
         ls'[i].timing == ls[i].timing.(throttle := ls'[i].share.throttle, limit := ls'[i].share.limit)
  }

  /** Connecting and disconnecting, data sent and received, new bandwidths, configuration of the
      throttle: nothing else writes the throttle, its limit or the round trip time. */
  predicate OtherStep(l: Link, l': Link) {
    && l'.timing == l.timing.(acceleration := l'.timing.acceleration, deceleration := l'.timing.deceleration,
                              interval := l'.timing.interval, earliestTimeout := l'.timing.earliestTimeout)
    && l'.share == l.share.(connected := l'.share.connected, incomingBandwidth := l'.share.incomingBandwidth,
                            outgoingBandwidth := l'.share.outgoingBandwidth, incomingDataTotal := l'.share.incomingDataTotal,
                            outgoingDataTotal := l'.share.outgoingDataTotal, commands := l'.share.commands)
  }

  ghost predicate Next(ls: seq<Link>, ls': seq<Link>, a: Step) {
    match a
    case DoAcknowledge(i, service, received) => i < |ls| && ls' == ls[i := Acknowledged(ls[i], service, received)]
    case DoPass(_, _, _, _, _, _, _) => PassStep(ls, ls', a)
    case DoReset(i) => i < |ls| && ls' == ls[i := FRESH]
    case DoOther(i) => i < |ls| && |ls'| == |ls| && ls' == ls[i := ls'[i]] && OtherStep(ls[i], ls'[i])
  }

  ghost predicate Run(trace: seq<seq<Link>>, steps: seq<Step>) {
    && |trace| == |steps| + 1
    && (forall i | 0 <= i < |trace[0]| :: trace[0][i] == FRESH)
    && forall k | 0 <= k < |steps| :: Next(trace[k], trace[k + 1], steps[k])
  }

  /** The throttle is within its limit, that within 32, and the round trip time is not zero. */
  predicate Limited(l: Link) { Agrees(l) && B.PeerOk(l.share) && l.timing.rtt >= 1 }

  ghost predicate AllLimited(ls: seq<Link>) { forall i | 0 <= i < |ls| :: Limited(ls[i]) }

  lemma HeldIsOk(p: B.Peer, m: B.Peer, top: u32, elapsed: u32, now: u32)
    requires B.PeerOk(p) && B.HeldOr(p, m, top, elapsed, now)
    ensures B.PeerOk(m)
  {
    if m != p { B.ShareOfScale(B.Share(p, elapsed), p.outgoingDataTotal); }
  }

  lemma FollowedIsOk(m: B.Peer, q: B.Peer, t: u32, told: bool, limit: u32, now: u32, outgoing: u32)
    requires B.PeerOk(m) && t <= 32
    requires var p := B.SettledIfOpen(m, t, now);
      q == if told then B.Notified(p.(incomingEpoch := q.incomingEpoch), limit, now, outgoing) else p
    ensures B.PeerOk(q)
  {
  }

  lemma PassStaysLimited(ls: seq<Link>, ls': seq<Link>, a: Step)
    requires AllLimited(ls) && a.DoPass? && PassStep(ls, ls', a)
    ensures AllLimited(ls')
  {
    hide B.HeldOr, B.PeerOk, B.SettledIfOpen, B.Notified, B.CommonThrottle;
    var ps := Shares(ls);
    var total, available := B.TotalData(ps, a.outgoing), B.Available(a.outgoing, a.elapsed);
    B.DividedParts(ps, a.middle, total, available, a.t, a.elapsed, a.now);
    forall i | 0 <= i < |ls| ensures Limited(ls'[i]) {
      assert Limited(ls[i]) && Shares(ls')[i] == ls'[i].share && ps[i] == ls[i].share;
      HeldIsOk(ps[i], a.middle[i], B.CommonThrottle(available, total), a.elapsed, a.now);
      FollowedIsOk(a.middle[i], ls'[i].share, a.t, a.told, a.limit, a.now, a.outgoing);
    }
  }

  lemma AckStaysLimited(l: Link, service: u32, received: u16)
    requires Limited(l)
    ensures Limited(Acknowledged(l, service, received))
  {
    hide A.Acknowledged;
    A.AcknowledgedBetween(l.timing, service, received);
    AckKeepsLimit(l.timing, service, received);
  }

  lemma AckKeepsLimit(t: A.Timing, service: u32, received: u16)
    ensures A.Acknowledged(t, service, received).limit == t.limit
  {
    hide A.FromTheFuture, A.Sample, A.Smoothed, A.Throttled;
  }

  lemma StepStaysLimited(ls: seq<Link>, ls': seq<Link>, a: Step)
    requires AllLimited(ls) && Next(ls, ls', a)
    ensures AllLimited(ls')
  {
    hide PassStep, Acknowledged;
    match a
    case DoAcknowledge(i, service, received) => AckStaysLimited(ls[i], service, received);
    case DoPass(_, _, _, _, _, _, _) => PassStaysLimited(ls, ls', a);
    case DoReset(i) =>
    case DoOther(i) => assert Limited(ls[i]);
  }

  /** In every state of every run each peer's throttle is at most its limit and that at most 32. */
  lemma {:induction false} RunsStayLimited(trace: seq<seq<Link>>, steps: seq<Step>, k: nat)
    requires Run(trace, steps) && k < |trace|
    ensures AllLimited(trace[k])
    decreases k
  {
    hide Next, Limited;
    if k == 0 {
      assert Limited(FRESH) by { FreshIsLimited(); }
    } else {
      RunsStayLimited(trace, steps, k - 1);
      StepStaysLimited(trace[k - 1], trace[k], steps[k - 1]);
    }
  }

  lemma FreshIsLimited()
    ensures Limited(FRESH) && FRESH.timing.limit == 32
  {
  }

  // ----- peers without limits -----

  /** Neither the host nor the peer has a bandwidth. */
  ghost predicate Unlimited(trace: seq<seq<Link>>, steps: seq<Step>, i: nat) {
    && (forall k | 0 <= k < |trace| :: i < |trace[k]| && trace[k][i].share.incomingBandwidth == 0)
    && (forall k | 0 <= k < |steps| && steps[k].DoPass? :: steps[k].outgoing == 0)
  }

  lemma PassLeavesOpen(ls: seq<Link>, ls': seq<Link>, a: Step, i: nat)
    requires a.DoPass? && PassStep(ls, ls', a) && a.outgoing == 0
    requires i < |ls| && ls[i].share.incomingBandwidth == 0 && ls[i].share.limit == 32
    ensures ls'[i].share.limit == 32
  {
    hide B.WithinShare, B.HeldShare;
    assert Shares(ls')[i] == ls'[i].share && Shares(ls)[i] == ls[i].share;
    assert B.HeldOr(Shares(ls)[i], a.middle[i], B.CommonThrottle(0xFFFF_FFFF, 0xFFFF_FFFF), a.elapsed, a.now);
  }

  /** A peer without a bandwidth of its own, of a host without one, is never limited. */
  lemma {:induction false} UnlimitedStaysOpen(trace: seq<seq<Link>>, steps: seq<Step>, i: nat, k: nat)
    requires Run(trace, steps) && Unlimited(trace, steps, i) && k < |trace|
    ensures trace[k][i].timing.limit == 32
    decreases k
  {
    hide PassStep, Acknowledged, A.Acknowledged;
    RunsStayLimited(trace, steps, k);
    assert Limited(trace[k][i]);
    if k > 0 {
      UnlimitedStaysOpen(trace, steps, i, k - 1);
      RunsStayLimited(trace, steps, k - 1);
      var ls, ls', a := trace[k - 1], trace[k], steps[k - 1];
      assert Next(ls, ls', a) && Limited(ls[i]);
      match a
      case DoAcknowledge(j, service, received) => LimitAfterAck(ls[j], service, received);
      case DoPass(_, _, _, _, _, _, _) => PassLeavesOpen(ls, ls', a, i);
      case DoReset(j) => FreshIsLimited();
      case DoOther(j) =>
    }
  }

  lemma LimitAfterAck(l: Link, service: u32, received: u16)
    ensures Acknowledged(l, service, received).timing.limit == l.timing.limit
  {
    hide A.Acknowledged;
    AckKeepsLimit(l.timing, service, received);
  }
}
