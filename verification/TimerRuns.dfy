/** The time of the next time-out check: in every run it is the deadline of the oldest entry of the
    sent list, so that the check is due exactly when that command is overdue. */
module TimerRuns {
  import opened Options
  import opened SeqNumbers
  import opened EnetSender
  import S = SenderInvariants
  import SenderRuns
  import Timeouts

  ghost predicate TimerSet(p: Peer) {
    p.sent != [] ==> p.nextTimeout == (p.sent[0].sentTime + p.sent[0].rto) % 0x1_0000_0000
  }

  ghost predicate SameTimer(p: Peer, q: Peer) { q.sent == p.sent && q.nextTimeout == p.nextTimeout }

  // ----- sending -----

  lemma SetupTimer(p: Peer, c: Cmd)
    requires c.chan == PEER_CHANNEL || c.chan < |p.chans|
    ensures SameTimer(p, Setup(p, c)) && |Setup(p, c).chans| == |p.chans|
  {
  }

  lemma {:induction false} SetupAllTimer(p: Peer, cs: seq<Cmd>)
    requires forall k | 0 <= k < |cs| :: cs[k].chan < |p.chans|
    ensures SameTimer(p, SetupAll(p, cs))
    decreases |cs|
  {
    hide Setup;
    if cs != [] {
      SetupTimer(p, cs[0]);
      SetupAllTimer(Setup(p, cs[0]), cs[1..]);
    }
  }

  lemma SendTimer(p: Peer, chan: nat, rq: Request, checksum: bool, max: nat)
    requires 576 <= p.mtu < WRAP && Send(p, chan, rq, checksum, max).Some?
    ensures SameTimer(p, Send(p, chan, rq, checksum, max).value)
  {
    hide Setup, SetupAll, FragmentsOf;
    var limit := FragmentLimit(p.mtu, checksum);
    if rq.length > limit {
      CutChannels(p, chan, rq, limit);
      var fs := FragmentsOf(p, chan, rq, limit);
      SetupAllTimer(p.(refs := p.refs[rq.id := RefCount(p.refs, rq.id) + |fs|]), fs);
    } else {
      var c := WholeOf(p, chan, rq);
      SetupTimer(p.(refs := Retain(p.refs, c.packet)), c);
    }
  }

  lemma {:induction false} DropTimer(s: Scan, rseq: u16, useq: u16)
    requires s.rest != []
    ensures SameTimer(s.p, DropGroup(s, rseq, useq).p)
    decreases |s.rest|
  {
    var s' := s.(p := Release(s.p, s.rest[0].packet), rest := s.rest[1..]);
    if !(s'.rest == [] || s'.rest[0].rseq != rseq || s'.rest[0].useq != useq) { DropTimer(s', rseq, useq); }
  }

  /** A command that is sent when nothing else waits sets the timer; another leaves it alone. */
  lemma EmitTimer(s: Scan, now: u32)
    requires WellFormed(s.p) && s.rest != [] && TimerSet(s.p)
    ensures TimerSet(Emit(s, now).p)
  {
    DropTimer(s.(p := s.p.(throttleCounter := (s.p.throttleCounter + THROTTLE_COUNTER) % THROTTLE_SCALE)),
              s.rest[0].rseq, s.rest[0].useq);
  }

  lemma {:induction false} ScanTimer(s: Scan, now: u32)
    requires WellFormed(s.p) && TimerSet(s.p)
    ensures TimerSet(ScanAll(s, now).p)
    decreases |s.rest|
  {
    hide Gate, Emit, Fits, WellFormed;
    if s.rest == [] {
      ScanEnds(s, now);
    } else {
      ScanStep(s, now);
      var (wait, fl) := Gate(s.p, s.fl, s.rest[0]);
      if wait {
        ScanTimer(s.(kept := s.kept + [s.rest[0]], rest := s.rest[1..], fl := fl), now);
      } else if Fits(s.g, s.rest[0], s.p.mtu) {
        EmitTimer(s.(fl := fl), now);
        ScanTimer(Emit(s.(fl := fl), now), now);
      }
    }
  }

  lemma {:induction false} ReleaseTimer(p: Peer, cs: seq<Cmd>)
    ensures SameTimer(p, ReleaseAll(p, cs))
    decreases |cs|
  {
    if cs != [] { ReleaseTimer(Release(p, cs[0].packet), cs[1..]); }
  }

  // ----- time-outs and acknowledgements -----

  /** While a pass moves overdue commands away, the timer follows the first command left. */
  lemma {:induction false} TimeoutTimer(p: Peer, kept: seq<Cmd>, rest: seq<Cmd>, moved: seq<Cmd>, now: u32)
    requires TimerSet(p.(sent := kept + rest))
    ensures TimerSet(TimeoutLoop(p, kept, rest, moved, now).0)
    decreases |rest|
  {
    hide TimedOut, GivesUp, Earliest, Rearmed;
    if rest == [] {
      EndOfLoop(p, kept, rest, moved, now);
    } else if !TimedOut(rest[0], now) {
      PassedOver(p, kept, rest, moved, now);
      assert (kept + [rest[0]]) + rest[1..] == kept + rest;
      TimeoutTimer(p, kept + [rest[0]], rest[1..], moved, now);
    } else {
      TimedOutStep(p, kept, rest, moved, now);
      if !GivesUp(p, Earliest(p, rest[0]), rest[0], now) {
        var q := Timeouts.PutBack(p, kept, rest);
        if kept == [] { assert kept + rest[1..] == rest[1..]; }
        TimeoutTimer(q, kept, rest[1..], moved + [Rearmed(p, rest[0])], now);
      }
    }
  }

  lemma AckTimer(p: Peer, rseq: u16, chan: nat)
    requires WellFormed(p) && TimerSet(p)
    ensures TimerSet(RemoveSentReliable(p, rseq, chan).0)
  {
    hide FindSent, FindAttempted;
  }

  // ----- runs -----

  lemma StepTimer(p: Peer, p': Peer, a: SenderRuns.Action)
    requires SenderRuns.Step(p, p', a) && TimerSet(p)
    ensures TimerSet(p')
  {
    hide Send, Queue, ScanAll, TimeoutLoop, RemoveSentReliable, ReleaseAll, Setup, S.NoneCaught;
    match a
    case DoSend(chan, rq, checksum, max) => SendTimer(p, chan, rq, checksum, max);
    case DoControl(c) => QueueTimer(p, c);
    case DoFlush(g, now) => ScanTimer(StartScan(p, g), now);
    case DoSent => ReleaseTimer(p.(sentUnreliable := []), p.sentUnreliable);
    case DoTimeout(now) =>
      assert [] + p.sent == p.sent;
      TimeoutTimer(p, [], p.sent, [], now);
    case DoAck(rseq, chan) => AckTimer(p, rseq, chan);
    case DoTune(throttle, counter, windowSize, rtt, rttVar) =>
  }

  lemma QueueTimer(p: Peer, c: Cmd)
    requires c.chan == PEER_CHANNEL || c.chan < |p.chans|
    ensures SameTimer(p, Queue(p, c))
  {
    SetupTimer(p.(refs := Retain(p.refs, c.packet)), c);
  }

  lemma {:induction false} RunsKeepTimer(trace: seq<Peer>, actions: seq<SenderRuns.Action>, i: nat)
    requires SenderRuns.Run(trace, actions) && i < |trace|
    ensures TimerSet(trace[i])
    decreases i
  {
    hide SenderRuns.Step;
    if i > 0 {
      RunsKeepTimer(trace, actions, i - 1);
      assert SenderRuns.Step(trace[i - 1], trace[i], actions[i - 1]);
      StepTimer(trace[i - 1], trace[i], actions[i - 1]);
    }
  }

  /** ENET_TIME_GREATER_EQUAL of the check in send_outgoing_commands: the clock has reached the timer. */
  predicate Due(p: Peer, now: u32) { !TimeLess(now, p.nextTimeout) }

  /** In every state of every run, if the oldest entry was sent less than half a day ago and its
      time-out is less than half a day, the check is due exactly when that command is overdue. */
  lemma DueWhenOverdue(trace: seq<Peer>, actions: seq<SenderRuns.Action>, i: nat, now: nat, sentAt: nat)
    requires SenderRuns.Run(trace, actions) && i < |trace| && trace[i].sent != []
    requires sentAt <= now < sentAt + TIME_OVERFLOW / 2 && trace[i].sent[0].rto < TIME_OVERFLOW / 2
    requires trace[i].sent[0].sentTime == sentAt % 0x1_0000_0000
    ensures var c, clock := trace[i].sent[0], now % 0x1_0000_0000;
      && (Due(trace[i], clock) <==> now - sentAt >= c.rto)
      && (TimeDifference(clock, c.sentTime) >= c.rto <==> now - sentAt >= c.rto)
  {
    hide SenderRuns.Run;
    RunsKeepTimer(trace, actions, i);
    var c := trace[i].sent[0];
    Timeouts.ClockIsTrue(now, sentAt);
    SumOnClock(sentAt, c.rto);
    var deadline := sentAt + c.rto;
    if deadline <= now { Timeouts.ClockIsTrue(now, deadline); } else { Timeouts.ClockIsTrue(deadline, now); }
  }

  lemma SumOnClock(a: nat, b: nat)
    ensures (a % 0x1_0000_0000 + b) % 0x1_0000_0000 == (a + b) % 0x1_0000_0000
  {
    var q, x := a / 0x1_0000_0000, a % 0x1_0000_0000 + b;
    assert a + b == 0x1_0000_0000 * q + x;
  }
}
