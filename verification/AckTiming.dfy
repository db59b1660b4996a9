/** The timing half of handle_acknowledge: the 16-bit time that comes back with an acknowledgement
    is completed to 32 bits, the round trip time is smoothed, and the packet throttle follows. */
module AckTiming {
  import opened SeqNumbers
  import opened EnetSender

  const TURN32: nat := 0x1_0000_0000

  function Low32(t: nat): u32 { t % TURN32 }

  /** The sent time with the high half of the service time; taken to be from the turn before if
      its top bit is set and that of the service time is not. */
  function Reconstructed(received: u16, service: u32): u32 {
    var t := service - service % WRAP + received;
    if received >= 0x8000 && service % WRAP < 0x8000 then Sub32(t, WRAP) else t
  }

  /** At unbounded time `now`, the sent time of a command sent d before is reconstructed exactly if
      d is at most 32768; and otherwise, up to a full turn, exactly when sending and receiving fall
      into the same turn of 65536 or the two top bits tell that they do not. */
  lemma SentTimeIsExact(now: nat, d: nat)
    requires d <= now && d < WRAP
    ensures Reconstructed(Low16(now - d), Low32(now)) == Low32(now - d)
        <==> d <= now % WRAP || (now % WRAP < 0x8000 && d <= now % WRAP + 0x8000)
    ensures d <= 0x8000 ==> Reconstructed(Low16(now - d), Low32(now)) == Low32(now - d)
  {
    Turns(now);
    Turns(now - d);
    var q, n := now / WRAP, now % WRAP;
    if d <= n {
      assert (now - d) / WRAP == q && (now - d) % WRAP == n - d;
    } else {
      assert (now - d) / WRAP == q - 1 && (now - d) % WRAP == n + WRAP - d;
      PreviousTurn(q);
    }
  }

  lemma Turns(t: nat)
    ensures Low32(t) % WRAP == t % WRAP && Low32(t) == (t / WRAP % WRAP) * WRAP + t % WRAP
  {
    var q, r := t / WRAP, t % WRAP;
    assert t == WRAP * q + r;
    assert q == WRAP * (q / WRAP) + q % WRAP;
    assert t == TURN32 * (q / WRAP) + (WRAP * (q % WRAP) + r);
  }

  lemma PreviousTurn(q: nat)
    requires q > 0
    ensures (q - 1) % WRAP == if q % WRAP == 0 then WRAP - 1 else q % WRAP - 1
  {
  }

  /** The smoothed round trip time and its variance after a sample. */
  function Smoothed(rtt: u32, variance: u32, sample: u32): (u32, u32) {
    var eased := variance - variance / 4;
    if sample >= rtt then
      var diff := sample - rtt;
      (rtt + diff / 8, eased + diff / 4)
    else
      var diff := rtt - sample;
      (rtt - diff / 8,
       if diff <= variance then eased + diff / 4 else variance - variance / 32 + diff / 32)
  }

  predicate Between(a: u32, x: u32, b: u32) { a <= x <= b || b <= x <= a }

  /** The smoothed time lies between the old one and the sample, and moves unless they are less
      than eight apart; the variance stays below the larger of itself and the difference. */
  lemma SmoothedBetween(rtt: u32, variance: u32, sample: u32)
    ensures var (r, v) := Smoothed(rtt, variance, sample);
      && Between(rtt, r, sample)
      && (rtt >= 1 && sample >= 1 ==> r >= 1)
      && (r == rtt <==> -8 < sample - rtt < 8)
      && (v <= variance || v <= sample - rtt || v <= rtt - sample)
  {
  }

  function Distance(a: u32, b: u32): nat { if a < b then b - a else a - b }

  /** The smoothed time goes an eighth of the way to the sample, and the variance loses a quarter of
      itself and gains a quarter of the distance; for a sample further below than the variance, both
      quarters are 32nds. */
  lemma SmoothedMoves(rtt: u32, variance: u32, sample: u32)
    ensures var (r, v) := Smoothed(rtt, variance, sample);
      var d := Distance(rtt, sample);
      && Distance(rtt, r) == d / 8
      && Distance(r, sample) == d - d / 8
      && var part := if sample + variance < rtt then 32 else 4;
         v == variance - variance / part + d / part
  {
  }

  datatype Timing = Timing(
    rtt: u32, rttVar: u32, lowest: u32, highestVar: u32, last: u32, lastVar: u32,
    throttle: u32, limit: u32, acceleration: u32, deceleration: u32, threshold: u32, interval: u32,
    throttleEpoch: u32, lastReceive: u32, earliestTimeout: u32)

  /** enet_peer_throttle */
  function Throttled(t: Timing, sample: u32): u32 {
    if t.last <= t.lastVar then t.limit
    else if sample < Add32(t.last, Add32(t.lastVar, 1) / 2) then
      var up := Add32(t.throttle, t.acceleration);
      if up > t.limit then t.limit else up
    else if sample > Add32(Add32(t.last, t.threshold), Low32(2 * t.lastVar)) then
      if t.throttle > t.deceleration then t.throttle - t.deceleration else 0
    else t.throttle
  }

  /** What enet_peer_throttle returns: whether the sample was better or worse than usual. */
  function Reaction(t: Timing, sample: u32): int {
    if t.last <= t.lastVar then 0
    else if sample < Add32(t.last, Add32(t.lastVar, 1) / 2) then 1
    else if sample > Add32(Add32(t.last, t.threshold), Low32(2 * t.lastVar)) then -1 else 0
  }

  /** A sample closer to the last interval's time than half its variance, or below it, opens the
      throttle up to its limit; one further above than the threshold and twice the variance closes it
      down to zero; anything between leaves it alone. While the variance is as large as the time
      itself, the throttle is at its limit. */
  lemma ThrottleMeans(t: Timing, sample: u32)
    requires t.last + t.threshold + 2 * t.lastVar < TURN32 && t.throttle + t.acceleration < TURN32
    ensures var above := sample - t.last;
      if t.last <= t.lastVar then Throttled(t, sample) == t.limit && Reaction(t, sample) == 0
      else if 2 * above < t.lastVar then
        && Reaction(t, sample) == 1
        && Throttled(t, sample) == (if t.throttle + t.acceleration < t.limit then t.throttle + t.acceleration else t.limit)
      else if above > t.threshold + 2 * t.lastVar then
        && Reaction(t, sample) == -1
        && Throttled(t, sample) == (if t.deceleration < t.throttle then t.throttle - t.deceleration else 0)
      else Throttled(t, sample) == t.throttle && Reaction(t, sample) == 0
  {
    hide Add32, Low32;
    if t.lastVar < t.last { BetterBand(t, sample); }
    WorseBand(t, sample);
    assert Add32(t.throttle, t.acceleration) == t.throttle + t.acceleration by { NoCarry(t.throttle, t.acceleration); }
  }

  lemma NoCarry(a: nat, b: nat)
    requires a + b < TURN32
    ensures Add32(a, b) == a + b && Low32(a + b) == a + b
  {
  }

  lemma BetterBand(t: Timing, sample: u32)
    requires t.lastVar < t.last && t.last + 2 * t.lastVar < TURN32
    ensures sample < Add32(t.last, Add32(t.lastVar, 1) / 2) <==> 2 * (sample - t.last) < t.lastVar
  {
    hide Add32;
    NoCarry(t.lastVar, 1);
    NoCarry(t.last, (t.lastVar + 1) / 2);
  }

  lemma WorseBand(t: Timing, sample: u32)
    requires t.last + t.threshold + 2 * t.lastVar < TURN32
    ensures sample > Add32(Add32(t.last, t.threshold), Low32(2 * t.lastVar)) <==> sample - t.last > t.threshold + 2 * t.lastVar
  {
    hide Add32, Low32;
    NoCarry(t.last, t.threshold);
    NoCarry(2 * t.lastVar, 0);
    NoCarry(t.last + t.threshold, 2 * t.lastVar);
  }

  /** A quicker sample never leaves the throttle lower. */
  lemma QuickerIsBetter(t: Timing, quick: u32, slow: u32)
    requires t.last + t.threshold + 2 * t.lastVar < TURN32 && t.throttle + t.acceleration < TURN32
    requires quick <= slow && t.throttle <= t.limit
    ensures Throttled(t, quick) >= Throttled(t, slow) && Reaction(t, quick) >= Reaction(t, slow)
  {
    hide Throttled, Reaction;
    ThrottleMeans(t, quick);
    ThrottleMeans(t, slow);
  }

  lemma ThrottleStaysLimited(t: Timing, sample: u32)
    requires t.throttle <= t.limit
    ensures Throttled(t, sample) <= t.limit
  {
  }

  /** The sample an acknowledgement gives, or none if it claims to come from the future. */
  function Sample(service: u32, received: u16): u32 {
    var sent := Reconstructed(received, service);
    var d := TimeDifference(service, sent);
    if d == 0 then 1 else d
  }

  predicate FromTheFuture(service: u32, received: u16) { TimeLess(service, Reconstructed(received, service)) }

  /** Extremes within the throttle interval; at its end they become the last interval's. */
  function Recorded(t: Timing, service: u32): Timing {
    var lowest := if t.rtt < t.lowest then t.rtt else t.lowest;
    var highest := if t.rttVar > t.highestVar then t.rttVar else t.highestVar;
    if t.throttleEpoch == 0 || TimeDifference(service, t.throttleEpoch) >= t.interval
    then t.(last := lowest, lastVar := highest, lowest := t.rtt, highestVar := t.rttVar, throttleEpoch := service)
    else t.(lowest := lowest, highestVar := highest)
  }

  /** The extremes are bounds that were met. At the end of an interval they become the last ones, and
      those of the new interval begin with the present time. */
  lemma RecordedMeans(t: Timing, service: u32)
    ensures var t' := Recorded(t, service);
      var ended := t.throttleEpoch == 0 || TimeDifference(service, t.throttleEpoch) >= t.interval;
      var (low, high) := if ended then (t'.last, t'.lastVar) else (t'.lowest, t'.highestVar);
      && low <= t.rtt && low <= t.lowest && (low == t.rtt || low == t.lowest)
      && high >= t.rttVar && high >= t.highestVar && (high == t.rttVar || high == t.highestVar)
      && (if ended then t'.throttleEpoch == service && t'.lowest == t.rtt && t'.highestVar == t.rttVar
          else t'.throttleEpoch == t.throttleEpoch && t'.last == t.last && t'.lastVar == t.lastVar)
      && t' == t.(last := t'.last, lastVar := t'.lastVar, lowest := t'.lowest, highestVar := t'.highestVar,
                  throttleEpoch := t'.throttleEpoch)
  {
  }

  /** The peer's timing after an acknowledgement. */
  function Acknowledged(t: Timing, service: u32, received: u16): Timing {
    if FromTheFuture(service, received) then t
    else
      var sample := Sample(service, received);
      var (r, v) := if t.lastReceive > 0 then Smoothed(t.rtt, t.rttVar, sample) else (sample, sample / 2);
      var t1 := Recorded(t.(throttle := Throttled(t, sample), rtt := r, rttVar := v), service);
      t1.(lastReceive := if service > 1 then service else 1, earliestTimeout := 0)
  }

  /** An acknowledgement of a command sent d before `now` samples d, at least 1. */
  lemma TrueSample(now: nat, d: nat)
    requires d <= now && d <= 0x8000
    ensures !FromTheFuture(Low32(now), Low16(now - d))
    ensures Sample(Low32(now), Low16(now - d)) == if d == 0 then 1 else d
  {
    SentTimeIsExact(now, d);
    Backwards(now, d);
  }

  lemma Backwards(now: nat, d: nat)
    requires d <= now && d < TURN32
    ensures Sub32(Low32(now), Low32(now - d)) == d
  {
    var q, r := now / TURN32, now % TURN32;
    assert now == TURN32 * q + r;
    if d <= r {
      assert (now - d) % TURN32 == r - d;
    } else {
      assert now - d == TURN32 * (q - 1) + (r + TURN32 - d);
      assert (now - d) % TURN32 == r + TURN32 - d;
    }
  }

  /** What one acknowledgement does to the round trip time; and that it was received. */
  lemma AcknowledgedBetween(t: Timing, service: u32, received: u16)
    requires t.rtt >= 1 && t.throttle <= t.limit
    ensures var t' := Acknowledged(t, service, received);
      && t'.rtt >= 1 && t'.throttle <= t'.limit
      && (FromTheFuture(service, received) ==> t' == t)
      && (!FromTheFuture(service, received) && t.lastReceive > 0 ==> Between(t.rtt, t'.rtt, Sample(service, received)))
      && (!FromTheFuture(service, received) && t.lastReceive == 0 ==>
            t'.rtt == Sample(service, received) && t'.rttVar == Sample(service, received) / 2)
      && (!FromTheFuture(service, received) ==>
            t'.earliestTimeout == 0 && t'.lastReceive >= 1 && (service > 0 ==> t'.lastReceive == service))
  {
    if !FromTheFuture(service, received) {
      SmoothedBetween(t.rtt, t.rttVar, Sample(service, received));
      ThrottleStaysLimited(t, Sample(service, received));
    }
  }

  datatype Ack = Ack(service: u32, received: u16)

  function AfterAcks(t: Timing, acks: seq<Ack>): Timing
    decreases |acks|
  {
    if acks == [] then t else AfterAcks(Acknowledged(t, acks[0].service, acks[0].received), acks[1..])
  }

  /** Over any run of acknowledgements the round trip time stays at least 1, the throttle within its
      limit, and the round trip time below any bound on the old one and the samples. */
  lemma {:induction false} RunsStayBetween(t: Timing, acks: seq<Ack>, lo: u32, hi: u32)
    requires 1 <= lo <= t.rtt <= hi && t.throttle <= t.limit
    requires forall i | 0 <= i < |acks| && !FromTheFuture(acks[i].service, acks[i].received) ::
      lo <= Sample(acks[i].service, acks[i].received) <= hi
    ensures lo <= AfterAcks(t, acks).rtt <= hi && AfterAcks(t, acks).throttle <= AfterAcks(t, acks).limit
    decreases |acks|
  {
    hide Acknowledged, Sample, FromTheFuture;
    if acks != [] {
      AcknowledgedBetween(t, acks[0].service, acks[0].received);
      RunsStayBetween(Acknowledged(t, acks[0].service, acks[0].received), acks[1..], lo, hi);
    }
  }

  /** A peer's timing, updated in place. */
  class PeerTiming {
    var roundTripTime: u32
    var roundTripTimeVariance: u32
    var lowestRoundTripTime: u32
    var highestRoundTripTimeVariance: u32
    var lastRoundTripTime: u32
    var lastRoundTripTimeVariance: u32
    var packetThrottle: u32
    var packetThrottleLimit: u32
    var packetThrottleAcceleration: u32
    var packetThrottleDeceleration: u32
    var packetThrottleThreshold: u32
    var packetThrottleInterval: u32
    var packetThrottleEpoch: u32
    var lastReceiveTime: u32
    var earliestTimeout: u32

    ghost function View(): Timing
      reads this
    {
      Timing(roundTripTime, roundTripTimeVariance, lowestRoundTripTime, highestRoundTripTimeVariance,
             lastRoundTripTime, lastRoundTripTimeVariance, packetThrottle, packetThrottleLimit,
             packetThrottleAcceleration, packetThrottleDeceleration, packetThrottleThreshold,
             packetThrottleInterval, packetThrottleEpoch, lastReceiveTime, earliestTimeout)
    }

    /** enet_peer_throttle, with its return value. */
    method Throttle(rtt: u32) returns (r: int)
      modifies this
      ensures View() == old(View()).(throttle := Throttled(old(View()), rtt)) && r == Reaction(old(View()), rtt)
    {
      if lastRoundTripTime <= lastRoundTripTimeVariance {
        packetThrottle := packetThrottleLimit;
      } else if rtt < Add32(lastRoundTripTime, Add32(lastRoundTripTimeVariance, 1) / 2) {
        packetThrottle := Add32(packetThrottle, packetThrottleAcceleration);
        if packetThrottle > packetThrottleLimit { packetThrottle := packetThrottleLimit; }
        return 1;
      } else if rtt > Add32(Add32(lastRoundTripTime, packetThrottleThreshold), Low32(2 * lastRoundTripTimeVariance)) {
        if packetThrottle > packetThrottleDeceleration {
          packetThrottle := packetThrottle - packetThrottleDeceleration;
        } else {
          packetThrottle := 0;
        }
        return -1;
      }
      return 0;
    }

    method Smooth(sample: u32)
      modifies this`roundTripTime, this`roundTripTimeVariance
      ensures (roundTripTime, roundTripTimeVariance)
           == if lastReceiveTime > 0 then Smoothed(old(roundTripTime), old(roundTripTimeVariance), sample) else (sample, sample / 2)
    {
      if lastReceiveTime > 0 {
        if sample >= roundTripTime {
          var diff := sample - roundTripTime;
          roundTripTimeVariance := roundTripTimeVariance - roundTripTimeVariance / 4;
          roundTripTimeVariance := roundTripTimeVariance + diff / 4;
          roundTripTime := roundTripTime + diff / 8;
        } else {
          var diff := roundTripTime - sample;
          if diff <= roundTripTimeVariance {
            roundTripTimeVariance := roundTripTimeVariance - roundTripTimeVariance / 4;
            roundTripTimeVariance := roundTripTimeVariance + diff / 4;
          } else {
            roundTripTimeVariance := roundTripTimeVariance - roundTripTimeVariance / 32;
            roundTripTimeVariance := roundTripTimeVariance + diff / 32;
          }
          roundTripTime := roundTripTime - diff / 8;
        }
      } else {
        roundTripTime := sample;
        roundTripTimeVariance := sample / 2;
      }
    }

    /** The extremes of the current throttle interval, and the start of the next one. */
    method Record(serviceTime: u32)
      modifies this`lowestRoundTripTime, this`highestRoundTripTimeVariance, this`lastRoundTripTime
      modifies this`lastRoundTripTimeVariance, this`packetThrottleEpoch
      ensures View() == Recorded(old(View()), serviceTime)
    {
      if roundTripTime < lowestRoundTripTime { lowestRoundTripTime := roundTripTime; }
      if roundTripTimeVariance > highestRoundTripTimeVariance { highestRoundTripTimeVariance := roundTripTimeVariance; }
      if packetThrottleEpoch == 0 || TimeDifference(serviceTime, packetThrottleEpoch) >= packetThrottleInterval {
        lastRoundTripTime := lowestRoundTripTime;
        lastRoundTripTimeVariance := highestRoundTripTimeVariance;
        lowestRoundTripTime := roundTripTime;
        highestRoundTripTimeVariance := roundTripTimeVariance;
        packetThrottleEpoch := serviceTime;
      }
    }

    /** handle_acknowledge up to the lookup of the command. */
    method HandleAcknowledge(serviceTime: u32, receivedSentTime: u16) returns (taken: bool)
      modifies this
      ensures View() == Acknowledged(old(View()), serviceTime, receivedSentTime)
      ensures taken <==> !FromTheFuture(serviceTime, receivedSentTime)
    {
      hide Smoothed, Throttled, Recorded, TimeDifference, Reconstructed, TimeLess;
      var sent := Reconstructed(receivedSentTime, serviceTime);
      if TimeLess(serviceTime, sent) { return false; }
      var sample := TimeDifference(serviceTime, sent);
      if sample == 0 { sample := 1; }
      var _ := Throttle(sample);
      Smooth(sample);
      Record(serviceTime);
      lastReceiveTime := if serviceTime > 1 then serviceTime else 1;
      earliestTimeout := 0;
      taken := true;
    }
  }
}
