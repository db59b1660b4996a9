/** enet_host_bandwidth_throttle: how a host shares its bandwidth among its connected peers, in
    32-bit arithmetic that is shown never to wrap, in loops that are shown to end. */
module Bandwidth {
  import opened Arithmetic
  import opened SeqNumbers
  import opened Options

  const SCALE: u32 := 32
  const INTERVAL: u32 := 1000

  /** A queued bandwidth limit command. */
  datatype Limits = Limits(incoming: u32, outgoing: u32)

  /** What the pass reads and writes of a peer. `connected` is CONNECTED or DISCONNECT_LATER. */
  datatype Peer = Peer(
    connected: bool, incomingBandwidth: u32, outgoingBandwidth: u32, incomingEpoch: u32, outgoingEpoch: u32,
    incomingDataTotal: u32, outgoingDataTotal: u32, throttle: u32, limit: u32, commands: seq<Limits>)

  predicate PeerOk(p: Peer) { p.throttle <= p.limit <= SCALE }

  function Min(a: u32, b: u32): u32 { if a < b then a else b }

  // ----- sums over peers -----

  ghost function Sum(ps: seq<Peer>, f: Peer -> nat): nat {
    if ps == [] then 0 else f(ps[0]) + Sum(ps[1..], f)
  }

  lemma {:induction false} SumUpdate(ps: seq<Peer>, i: nat, q: Peer, f: Peer -> nat)
    requires i < |ps|
    ensures Sum(ps[i := q], f) + f(ps[i]) == Sum(ps, f) + f(q)
    decreases |ps|
  {
    if i == 0 {
      assert ps[0 := q][1..] == ps[1..];
    } else {
      assert ps[i := q][1..] == ps[1..][i - 1 := q];
      SumUpdate(ps[1..], i - 1, q, f);
    }
  }

  lemma {:induction false} SumMember(ps: seq<Peer>, i: nat, f: Peer -> nat)
    requires i < |ps|
    ensures f(ps[i]) <= Sum(ps, f)
    decreases |ps|
  {
    if i > 0 { SumMember(ps[1..], i - 1, f); }
  }

  lemma {:induction false} SumLe(ps: seq<Peer>, f: Peer -> nat, g: Peer -> nat)
    requires forall p | p in ps :: f(p) <= g(p)
    ensures Sum(ps, f) <= Sum(ps, g)
    decreases |ps|
  {
    if ps != [] {
      assert ps[0] in ps;
      SumLe(ps[1..], f, g);
    }
  }

  lemma {:induction false} SumZero(ps: seq<Peer>, f: Peer -> nat)
    requires forall p | p in ps :: f(p) == 0
    ensures Sum(ps, f) == 0
    decreases |ps|
  {
    if ps != [] {
      assert ps[0] in ps;
      SumZero(ps[1..], f);
    }
  }

  lemma SumFrom(ps: seq<Peer>, i: nat, f: Peer -> nat)
    requires i < |ps|
    ensures Sum(ps[i..], f) == f(ps[i]) + Sum(ps[i + 1..], f)
  {
    assert ps[i..][1..] == ps[i + 1..];
  }

  ghost function Connected(): Peer -> nat { (p: Peer) => if p.connected then 1 else 0 }

  ghost function Limited(): Peer -> nat { (p: Peer) => if p.connected && p.incomingBandwidth != 0 then 1 else 0 }

  ghost function Data(): Peer -> nat { (p: Peer) => if p.connected then p.outgoingDataTotal else 0 }

  /** Peers whose throttle limit has not been set in the pass of time `now`. */
  ghost function Open(now: u32): Peer -> nat { (p: Peer) => if p.connected && p.outgoingEpoch != now then 1 else 0 }

  ghost function OpenData(now: u32): Peer -> nat {
    (p: Peer) => if p.connected && p.outgoingEpoch != now then p.outgoingDataTotal else 0
  }

  // ----- throttle limits -----

  /** What the peer can take in the elapsed time. */
  function Share(p: Peer, elapsed: u32): nat { p.incomingBandwidth * elapsed / 1000 }

  /** A peer that would get more than its share is held to it. */
  function Held(p: Peer, elapsed: u32, now: u32): Peer
    requires Share(p, elapsed) < p.outgoingDataTotal
  {
    var l := Share(p, elapsed) * SCALE / p.outgoingDataTotal;
    ShareOfScale(Share(p, elapsed), p.outgoingDataTotal);
    var limit: u32 := if l == 0 then 1 else l;
    p.(limit := limit, throttle := Min(p.throttle, limit), outgoingEpoch := now, incomingDataTotal := 0, outgoingDataTotal := 0)
  }

  lemma ShareOfScale(share: nat, total: nat)
    requires share < total
    ensures share * 32 / total <= 32 && share * 32 / total * total <= share * 32
  {
    var q := share * 32 / total;
    assert q * total <= share * 32;
    if q > 32 { MulLe(33, q, total); }
  }

  /** The common throttle can be computed without overflow. */
  predicate Scales(dataTotal: nat, bandwidth: nat) { dataTotal * 32 < 0x1_0000_0000 || dataTotal <= bandwidth }

  /** The largest throttle of at most 32 at which the data fit the bandwidth: everything goes out if
      it fits, and otherwise one step more would be too much. */
  predicate Largest(t: nat, bandwidth: nat, dataTotal: nat) {
    if dataTotal <= bandwidth then t == 32
    else t * dataTotal <= 32 * bandwidth < (t + 1) * dataTotal
  }

  lemma LargestIsUnique(t: nat, u: nat, bandwidth: nat, dataTotal: nat)
    requires Largest(t, bandwidth, dataTotal) && Largest(u, bandwidth, dataTotal)
    ensures t == u
  {
    if t < u { MulLe(t + 1, u, dataTotal); }
    if u < t { MulLe(u + 1, t, dataTotal); }
  }

  /** The throttle for all that fits: everything, or the bandwidth's part of the data. */
  function CommonThrottle(bandwidth: u32, dataTotal: u32): (t: u32)
    requires Scales(dataTotal, bandwidth)
    ensures t <= 32 && t * dataTotal <= 32 * bandwidth
    ensures Largest(t, bandwidth, dataTotal)
  {
    if dataTotal <= bandwidth then
      assert 32 * dataTotal <= 32 * bandwidth;
      SCALE
    else
      ShareOfScale(bandwidth, dataTotal);
      OneMoreIsTooMuch(32 * bandwidth, dataTotal);
      bandwidth * SCALE / dataTotal
  }

  lemma OneMoreIsTooMuch(a: nat, b: nat)
    requires b > 0
    ensures a / b * b <= a < (a / b + 1) * b
  {
  }

  /** What limit l lets through of the peer's data is within its share. */
  predicate WithinShare(p: Peer, l: u32, elapsed: u32) { l * p.outgoingDataTotal / 32 <= Share(p, elapsed) }

  /** The data of the peer is so much that every limit above zero lets more than its share through. */
  predicate Floods(p: Peer, elapsed: u32) { p.outgoingDataTotal >= 32 * (Share(p, elapsed) + 1) }

  /** The peer counts as one that gets more than its share at this throttle. */
  predicate Exceeds(p: Peer, throttle: u32, elapsed: u32, now: u32) {
    && p.connected && p.incomingBandwidth != 0 && p.outgoingEpoch != now
    && !WithinShare(p, throttle, elapsed)
  }

  lemma ExceedsMeans(p: Peer, throttle: u32, elapsed: u32, now: u32)
    requires Exceeds(p, throttle, elapsed, now) && throttle <= 32
    ensures Share(p, elapsed) < p.outgoingDataTotal
    ensures 32 * Share(p, elapsed) <= throttle * p.outgoingDataTotal
  {
    var x, s := throttle * p.outgoingDataTotal, Share(p, elapsed);
    assert x >= 32 * (s + 1);
    assert x <= 32 * p.outgoingDataTotal;
  }

  lemma ExceedsMore(p: Peer, throttle: u32, top: u32, elapsed: u32, now: u32)
    requires Exceeds(p, throttle, elapsed, now) && throttle <= top
    ensures Exceeds(p, top, elapsed, now)
  {
    MulLe(throttle, top, p.outgoingDataTotal);
  }

  /** Taking a share off both bandwidth and data total lowers the common throttle, if anything. */
  lemma ThrottleFalls(bandwidth: u32, dataTotal: u32, share: nat)
    requires Scales(dataTotal, bandwidth) && share <= bandwidth && share <= dataTotal
    ensures Scales(dataTotal - share, bandwidth - share)
    ensures CommonThrottle(bandwidth - share, dataTotal - share) <= CommonThrottle(bandwidth, dataTotal)
  {
    if dataTotal > bandwidth {
      var q, q' := CommonThrottle(bandwidth, dataTotal), CommonThrottle(bandwidth - share, dataTotal - share);
      Distribute(q', dataTotal - share, share);
      MulLe(q', 32, share);
      assert q' * dataTotal <= 32 * bandwidth;
      if q' > q { MulLe(q + 1, q', dataTotal); }
    }
  }

  /** Peer q is peer p, or p held to its share because it exceeded that at throttle `top`. */
  predicate HeldOr(p: Peer, q: Peer, top: u32, elapsed: u32, now: u32) {
    q == p || (Exceeds(p, top, elapsed, now) && Share(p, elapsed) < p.outgoingDataTotal && q == Held(p, elapsed, now))
  }

  /** The shares of the peers that were held. */
  ghost function HeldShare(ps: seq<Peer>, qs: seq<Peer>, elapsed: u32): nat
    requires |qs| == |ps|
  {
    if ps == [] then 0
    else (if qs[0] == ps[0] then 0 else Share(ps[0], elapsed)) + HeldShare(ps[1..], qs[1..], elapsed)
  }

  lemma {:induction false} HeldShareNone(ps: seq<Peer>, elapsed: u32)
    ensures HeldShare(ps, ps, elapsed) == 0
    decreases |ps|
  {
    if ps != [] { HeldShareNone(ps[1..], elapsed); }
  }

  lemma NobodyHeld(ps: seq<Peer>, top: u32, elapsed: u32, now: u32)
    ensures AllHeldOr(ps, ps, top, elapsed, now)
  {
  }

  lemma {:induction false} HeldShareUpdate(ps: seq<Peer>, qs: seq<Peer>, i: nat, q: Peer, elapsed: u32)
    requires |qs| == |ps| && i < |ps| && qs[i] == ps[i] != q
    ensures HeldShare(ps, qs[i := q], elapsed) == HeldShare(ps, qs, elapsed) + Share(ps[i], elapsed)
    decreases |ps|
  {
    if i == 0 {
      assert qs[0 := q][1..] == qs[1..];
    } else {
      assert qs[i := q][1..] == qs[1..][i - 1 := q];
      HeldShareUpdate(ps[1..], qs[1..], i - 1, q, elapsed);
    }
  }

  /** The bandwidth and the data total are large enough to take the share of peer i off them, and
      what is left of the bandwidth covers the peers still to come. */
  lemma ShareCovered(p: Peer, rest: nat, throttle: u32, bandwidth: u32, elapsed: u32, now: u32)
    requires throttle <= 32 && Exceeds(p, throttle, elapsed, now)
    requires throttle * (p.outgoingDataTotal + rest) <= 32 * bandwidth
    ensures Share(p, elapsed) <= bandwidth && throttle * rest <= 32 * (bandwidth - Share(p, elapsed))
  {
    ExceedsMeans(p, throttle, elapsed, now);
    Distribute(throttle, p.outgoingDataTotal, rest);
  }

  lemma HoldUpdates(ps: seq<Peer>, i: nat, elapsed: u32, now: u32)
    requires i < |ps| && Share(ps[i], elapsed) < ps[i].outgoingDataTotal && ps[i].connected && ps[i].outgoingEpoch != now
    ensures var qs := ps[i := Held(ps[i], elapsed, now)];
      && Sum(qs, OpenData(now)) + ps[i].outgoingDataTotal == Sum(ps, OpenData(now))
      && Sum(qs, Open(now)) + 1 == Sum(ps, Open(now))
  {
    hide Sum, Share;
    var q := Held(ps[i], elapsed, now);
    SumUpdate(ps, i, q, OpenData(now));
    SumUpdate(ps, i, q, Open(now));
  }

  /** What holding peer i does to the sums: neither the bandwidth nor the data total goes below
      zero, and what is left covers the peers still to come. */
  lemma HoldSums(ps: seq<Peer>, i: nat, throttle: u32, bandwidth: u32, dataTotal: u32, elapsed: u32, now: u32)
    requires i < |ps| && throttle <= 32 && Exceeds(ps[i], throttle, elapsed, now)
    requires throttle * Sum(ps[i..], OpenData(now)) <= 32 * bandwidth && Sum(ps, OpenData(now)) <= dataTotal
    ensures var share := Share(ps[i], elapsed);
      && share < ps[i].outgoingDataTotal && share <= bandwidth && share <= dataTotal
      && var qs := ps[i := Held(ps[i], elapsed, now)];
         && throttle * Sum(qs[i + 1..], OpenData(now)) <= 32 * (bandwidth - share)
         && Sum(qs, OpenData(now)) <= dataTotal - share
         && Sum(qs, OpenData(now)) <= Sum(ps, OpenData(now))
         && Sum(qs, Open(now)) + 1 == Sum(ps, Open(now))
  {
    hide Sum, Held, Share;
    ExceedsMeans(ps[i], throttle, elapsed, now);
    SumFrom(ps, i, OpenData(now));
    assert Exceeds(ps[i], throttle, elapsed, now) && ps[i].connected && ps[i].outgoingEpoch != now;
    ShareCovered(ps[i], Sum(ps[i + 1..], OpenData(now)), throttle, bandwidth, elapsed, now);
    HoldUpdates(ps, i, elapsed, now);
    assert ps[i := Held(ps[i], elapsed, now)][i + 1..] == ps[i + 1..];
  }

  lemma SkipSums(ps: seq<Peer>, i: nat, throttle: u32, now: u32)
    requires i < |ps|
    ensures throttle * Sum(ps[i + 1..], OpenData(now)) <= throttle * Sum(ps[i..], OpenData(now))
    ensures ps[i].connected && ps[i].outgoingEpoch != now ==> ps[i].outgoingDataTotal <= Sum(ps, OpenData(now))
  {
    SumFrom(ps, i, OpenData(now));
    SumMember(ps, i, OpenData(now));
    MulLe(Sum(ps[i + 1..], OpenData(now)), Sum(ps[i..], OpenData(now)), throttle);
  }

  /** All peers are within their limits, and their shares fit 32 bits. */
  ghost predicate Sound(ps: seq<Peer>, elapsed: u32) {
    forall i | 0 <= i < |ps| :: PeerOk(ps[i]) && ps[i].incomingBandwidth * elapsed < 0x1_0000_0000
  }

  ghost predicate AllHeldOr(ps: seq<Peer>, qs: seq<Peer>, top: u32, elapsed: u32, now: u32) {
    |qs| == |ps| && forall i | 0 <= i < |ps| :: HeldOr(ps[i], qs[i], top, elapsed, now)
  }

  lemma HeldIs(p: Peer, elapsed: u32, now: u32)
    requires Share(p, elapsed) < p.outgoingDataTotal
    ensures var q := Held(p, elapsed, now);
      PeerOk(q) && q.outgoingEpoch == now && q.incomingBandwidth == p.incomingBandwidth
  {
    hide Share;
    ShareOfScale(Share(p, elapsed), p.outgoingDataTotal);
  }

  lemma HoldKeeps(was: seq<Peer>, ps: seq<Peer>, i: nat, top: u32, elapsed: u32, now: u32)
    requires i < |ps| && Sound(ps, elapsed) && AllHeldOr(was, ps, top, elapsed, now)
    requires Exceeds(ps[i], top, elapsed, now) && Share(ps[i], elapsed) < ps[i].outgoingDataTotal
    ensures var qs := ps[i := Held(ps[i], elapsed, now)];
      && Sound(qs, elapsed) && AllHeldOr(was, qs, top, elapsed, now)
      && HeldShare(was, qs, elapsed) == HeldShare(was, ps, elapsed) + Share(ps[i], elapsed)
  {
    hide HeldShare, Held, Share, WithinShare, PeerOk;
    var q := Held(ps[i], elapsed, now);
    assert HeldOr(was[i], ps[i], top, elapsed, now);
    if was[i] != ps[i] { HeldIs(was[i], elapsed, now); }
    HeldIs(ps[i], elapsed, now);
    HeldShareUpdate(was, ps, i, q, elapsed);
  }

  /** A peer that is not held follows the common throttle. */
  function Settled(p: Peer, t: u32): Peer {
    p.(limit := t, throttle := Min(p.throttle, t), incomingDataTotal := 0, outgoingDataTotal := 0)
  }

  function SettledIfOpen(p: Peer, t: u32, now: u32): Peer {
    if p.connected && p.outgoingEpoch != now then Settled(p, t) else p
  }

  // ----- bandwidth limits -----

  /** Connected peers that do not carry the mark of time `now`; those that do are told their own
      bandwidth. */
  ghost function Unset(now: u32): Peer -> nat { (p: Peer) => if p.connected && p.incomingEpoch != now then 1 else 0 }

  ghost function Marked(now: u32): Peer -> nat { (p: Peer) => if p.connected && p.incomingEpoch == now then 1 else 0 }

  ghost function SetBandwidth(now: u32): Peer -> nat {
    (p: Peer) => if p.connected && p.incomingEpoch == now then p.outgoingBandwidth else 0
  }

  /** The limit a connected peer is told. */
  function ToldLimit(p: Peer, limit: u32, now: u32): u32 {
    if p.incomingEpoch == now then p.outgoingBandwidth else limit
  }

  ghost function Told(limit: u32, now: u32): Peer -> nat { (p: Peer) => if p.connected then ToldLimit(p, limit, now) else 0 }

  /** Size of a bandwidth limit command. */
  const LIMITS_SIZE: u32 := 12

  /** The command is queued, and its bytes count as the peer's data. */
  function Notified(p: Peer, limit: u32, now: u32, outgoing: u32): Peer {
    if p.connected then p.(commands := p.commands + [Limits(ToldLimit(p, limit, now), outgoing)],
                           outgoingDataTotal := (p.outgoingDataTotal + LIMITS_SIZE) % 0x1_0000_0000)
    else p
  }

  /** A peer that sends nothing, or less than the limit, is told what it sends. */
  predicate SendsLess(p: Peer, limit: u32) { p.outgoingBandwidth == 0 || p.outgoingBandwidth < limit }

  /** The limits of a pass over peers `was`: of the peers that did not carry the mark yet, those that
      send less than the limit get it, and the limit is an equal part of the bandwidth that these
      leave. A peer that came with the mark, by chance, has a part in the division, but takes nothing
      off the bandwidth. */
  ghost predicate Fair(was: seq<Peer>, ps: seq<Peer>, incoming: u32, limit: u32, now: u32) {
    && |ps| == |was|
    && var given, parts := Sum(ps, SetBandwidth(now)) - Sum(was, SetBandwidth(now)), Sum(ps, Unset(now)) + Sum(was, Marked(now));
       if incoming == 0 then limit == 0 && forall i | 0 <= i < |ps| :: ps[i].incomingEpoch == was[i].incomingEpoch
       else
         && 0 <= given <= incoming
         && (parts > 0 ==> limit == (incoming - given) / parts)
         && forall i | 0 <= i < |ps| && ps[i].connected && was[i].incomingEpoch != now ::
              ps[i].incomingEpoch == now <==> SendsLess(ps[i], limit)
  }

  /** No connected peer carries the mark of time `now` before the pass. */
  ghost predicate NoneMarked(ps: seq<Peer>, now: u32) {
    forall i | 0 <= i < |ps| :: !(ps[i].connected && ps[i].incomingEpoch == now)
  }

  lemma NoneMarkedSums(ps: seq<Peer>, now: u32)
    requires NoneMarked(ps, now)
    ensures Sum(ps, Marked(now)) == 0 && Sum(ps, SetBandwidth(now)) == 0
  {
    SumZero(ps, Marked(now));
    SumZero(ps, SetBandwidth(now));
  }

  lemma {:induction false} ToldSum(ps: seq<Peer>, limit: u32, now: u32)
    ensures Sum(ps, Told(limit, now)) == Sum(ps, SetBandwidth(now)) + limit * Sum(ps, Unset(now))
    decreases |ps|
  {
    if ps != [] {
      ToldSum(ps[1..], limit, now);
      Distribute(limit, Unset(now)(ps[0]), Sum(ps[1..], Unset(now)));
    }
  }

  class Host {
    var peers: seq<Peer>
    var connectedPeers: nat
    var bandwidthLimitedPeers: nat
    var incomingBandwidth: u32
    var outgoingBandwidth: u32
    var throttleEpoch: u32
    var recalculate: bool

    ghost predicate Valid()
      reads this
    {
      && connectedPeers == Sum(peers, Connected()) && bandwidthLimitedPeers == Sum(peers, Limited())
      && forall i | 0 <= i < |peers| :: PeerOk(peers[i])
    }

    /** One turn of the first fix-point loop: holds the peers that exceed their shares. */
    method HoldPass(now: u32, elapsed: u32, throttle: u32, bandwidth: u32, dataTotal: u32, remaining: nat,
                    ghost was: seq<Peer>, ghost top: u32)
      returns (bandwidth': u32, dataTotal': u32, remaining': nat, adjusted: bool)
      requires throttle <= top <= 32
      requires throttle * Sum(peers, OpenData(now)) <= 32 * bandwidth
      requires Sum(peers, OpenData(now)) <= dataTotal && Sum(peers, OpenData(now)) * 32 < 0x1_0000_0000
      requires Sum(peers, Open(now)) <= remaining
      requires Sound(peers, elapsed) && AllHeldOr(was, peers, top, elapsed, now) && |was| == |peers|
      modifies this`peers
      ensures Sound(peers, elapsed) && AllHeldOr(was, peers, top, elapsed, now)
      ensures var taken := HeldShare(was, peers, elapsed) - old(HeldShare(was, peers, elapsed));
        0 <= taken == bandwidth - bandwidth' == dataTotal - dataTotal'
      ensures Sum(peers, OpenData(now)) <= dataTotal' && Sum(peers, OpenData(now)) <= old(Sum(peers, OpenData(now)))
      ensures Sum(peers, Open(now)) <= remaining'
      ensures if adjusted then remaining' < remaining else remaining' == remaining && peers == old(peers) && bandwidth' == bandwidth
      ensures !adjusted ==> forall i | 0 <= i < |peers| :: !Exceeds(peers[i], throttle, elapsed, now)
    {
      hide Sum, Held, Sound, AllHeldOr, HeldShare;
      bandwidth', dataTotal', remaining', adjusted := bandwidth, dataTotal, remaining, false;
      ghost var taken := 0;
      var i := 0;
      assert peers[0..] == peers;
      while i < |peers|
        invariant i <= |peers|
        invariant Sound(peers, elapsed) && AllHeldOr(was, peers, top, elapsed, now) && |was| == |peers|
        invariant taken == HeldShare(was, peers, elapsed) - old(HeldShare(was, peers, elapsed))
        invariant 0 <= taken == bandwidth - bandwidth' == dataTotal - dataTotal'
        invariant throttle * Sum(peers[i..], OpenData(now)) <= 32 * bandwidth'
        invariant Sum(peers, OpenData(now)) <= dataTotal' && Sum(peers, OpenData(now)) <= old(Sum(peers, OpenData(now)))
        invariant Sum(peers, Open(now)) <= remaining'
        invariant if adjusted then remaining' < remaining else remaining' == remaining && peers == old(peers) && bandwidth' == bandwidth
        invariant !adjusted ==> forall k | 0 <= k < i :: !Exceeds(peers[k], throttle, elapsed, now)
      {
        var p := peers[i];
        SkipSums(peers, i, throttle, now);
        SoundAt(peers, elapsed, i);
        if p.connected && p.incomingBandwidth != 0 && p.outgoingEpoch != now {
          var share: u32 := p.incomingBandwidth * elapsed / 1000;
          MulLe(throttle, 32, p.outgoingDataTotal);
          var product: u32 := throttle * p.outgoingDataTotal;
          if product / 32 > share {
            HoldSums(peers, i, throttle, bandwidth', dataTotal', elapsed, now);
            ExceedsMore(p, throttle, top, elapsed, now);
            HoldKeeps(was, peers, i, top, elapsed, now);
            peers := peers[i := Held(p, elapsed, now)];
            adjusted := true;
            remaining' := remaining' - 1;
            bandwidth' := bandwidth' - share;
            dataTotal' := dataTotal' - share;
            taken := taken + share;
          }
        }
        i := i + 1;
      }
    }

    /** The first fix-point loop. What is left of bandwidth and data total when it ends is divided at
        a throttle at which nobody limited exceeds its share. */
    method HoldAll(now: u32, elapsed: u32, total: u32, available: u32)
      returns (remaining: nat, dataTotal: u32, bandwidth: u32)
      requires Valid() && Sound(peers, elapsed)
      requires Sum(peers, OpenData(now)) <= total && Sum(peers, OpenData(now)) * 32 < 0x1_0000_0000
      requires Scales(total, available)
      modifies this`peers
      ensures Sound(peers, elapsed) && AllHeldOr(old(peers), peers, CommonThrottle(available, total), elapsed, now)
      ensures HeldShare(old(peers), peers, elapsed) == total - dataTotal == available - bandwidth
      ensures Scales(dataTotal, bandwidth) && CommonThrottle(bandwidth, dataTotal) <= CommonThrottle(available, total)
      ensures Sum(peers, Open(now)) <= remaining
      ensures bandwidthLimitedPeers == 0 ==> peers == old(peers)
      ensures remaining > 0 ==> forall i | 0 <= i < |peers| :: !Exceeds(peers[i], CommonThrottle(bandwidth, dataTotal), elapsed, now)
    {
      hide Sum, Held, Sound, HeldShare, CommonThrottle, Largest, Exceeds, HeldOr, Scales;
      ghost var was, top := peers, CommonThrottle(available, total);
      HeldShareNone(was, elapsed);
      NobodyHeld(was, top, elapsed, now);
      remaining, dataTotal, bandwidth := connectedPeers, total, available;
      var needsAdjustment := bandwidthLimitedPeers > 0;
      OpenAreConnected(peers, now);
      if bandwidthLimitedPeers == 0 { NobodyLimited(peers, top, elapsed, now); }
      while remaining > 0 && needsAdjustment
        invariant Sound(peers, elapsed) && AllHeldOr(was, peers, top, elapsed, now)
        invariant HeldShare(was, peers, elapsed) == total - dataTotal == available - bandwidth
        invariant Sum(peers, OpenData(now)) <= dataTotal && Sum(peers, OpenData(now)) * 32 < 0x1_0000_0000
        invariant Scales(dataTotal, bandwidth) && CommonThrottle(bandwidth, dataTotal) <= top
        invariant Sum(peers, Open(now)) <= remaining
        invariant bandwidthLimitedPeers == 0 ==> !needsAdjustment && peers == was
        invariant !needsAdjustment ==>
          forall i | 0 <= i < |peers| :: !Exceeds(peers[i], CommonThrottle(bandwidth, dataTotal), elapsed, now)
        decreases remaining, needsAdjustment
      {
        var throttle := CommonThrottle(bandwidth, dataTotal);
        MulLe(Sum(peers, OpenData(now)), dataTotal, throttle);
        ghost var b, d := bandwidth, dataTotal;
        bandwidth, dataTotal, remaining, needsAdjustment :=
          HoldPass(now, elapsed, throttle, bandwidth, dataTotal, remaining, was, top);
        ThrottleFalls(b, d, b - bandwidth);
      }
    }

    /** The first half of the pass. The peers that were held had exceeded their shares at the throttle
        it began with; the others follow the common throttle t, which divides what the held peers
        leave, and at which nobody limited exceeds its share. */
    method AdjustThrottles(now: u32, elapsed: u32, total: u32, available: u32) returns (ghost middle: seq<Peer>, ghost t: u32)
      requires Valid() && Sound(peers, elapsed)
      requires Sum(peers, OpenData(now)) <= total && Sum(peers, OpenData(now)) * 32 < 0x1_0000_0000
      requires Scales(total, available)
      modifies this`peers
      ensures Valid() && Divided(old(peers), middle, total, available, t, elapsed, now)
      ensures |peers| == |middle| && forall i | 0 <= i < |peers| :: peers[i] == SettledIfOpen(middle[i], t, now)
      ensures forall i | 0 <= i < |peers| :: !Exceeds(middle[i], t, elapsed, now)
      ensures bandwidthLimitedPeers == 0 ==> middle == old(peers)
    {
      hide Sum, Held, Sound, HeldShare, HeldOr, Scales;
      ghost var was, top := peers, CommonThrottle(available, total);
      var remaining, dataTotal, bandwidth := HoldAll(now, elapsed, total, available);
      middle := peers;
      KeepsConnected(was, middle, top, elapsed, now);
      t := CommonThrottle(bandwidth, dataTotal);
      if remaining > 0 {
        var throttle := CommonThrottle(bandwidth, dataTotal);
        SettleOpen(now, throttle);
      } else {
        NoneOpen(peers, now);
      }
      SettledValid(middle, peers, t, elapsed, now);
    }

    /** The last loop over the peers that are still open. */
    method SettleOpen(now: u32, throttle: u32)
      modifies this`peers
      ensures |peers| == |old(peers)| && forall i | 0 <= i < |peers| :: peers[i] == SettledIfOpen(old(peers)[i], throttle, now)
    {
      for i := 0 to |peers|
        invariant |peers| == |old(peers)|
        invariant forall k | 0 <= k < i :: peers[k] == SettledIfOpen(old(peers)[k], throttle, now)
        invariant forall k | i <= k < |peers| :: peers[k] == old(peers)[k]
      {
        var p := peers[i];
        if p.connected && p.outgoingEpoch != now { peers := peers[i := Settled(p, throttle)]; }
      }
    }

    /** One turn of the second fix-point loop: peers that send less than the limit get what they
        send. */
    method SetPass(now: u32, limit: u32, bandwidth: u32, remaining: nat, ghost stale: nat)
      returns (bandwidth': u32, remaining': nat, adjusted: bool)
      requires Reserve(remaining, limit) <= bandwidth && Sum(peers, Unset(now)) + stale == remaining
      modifies this`peers
      ensures OnlyMarked(old(peers), peers, now)
      ensures Reserve(remaining', limit) <= bandwidth' <= bandwidth && Sum(peers, Unset(now)) + stale == remaining'
      ensures bandwidth - bandwidth' == Sum(peers, SetBandwidth(now)) - old(Sum(peers, SetBandwidth(now)))
      ensures if adjusted then remaining' < remaining else remaining' == remaining && bandwidth' == bandwidth && peers == old(peers)
      ensures forall k | 0 <= k < |peers| :: peers[k] == old(peers)[k] || SendsLess(peers[k], limit)
      ensures !adjusted ==> forall k | 0 <= k < |peers| && peers[k].connected && peers[k].incomingEpoch != now ::
        !SendsLess(peers[k], limit)
    {
      hide Sum, Reserve;
      bandwidth', remaining', adjusted := bandwidth, remaining, false;
      for i := 0 to |peers|
        invariant OnlyMarked(old(peers), peers, now)
        invariant Reserve(remaining', limit) <= bandwidth' <= bandwidth && Sum(peers, Unset(now)) + stale == remaining'
        invariant bandwidth - bandwidth' == Sum(peers, SetBandwidth(now)) - old(Sum(peers, SetBandwidth(now)))
        invariant if adjusted then remaining' < remaining else remaining' == remaining && bandwidth' == bandwidth && peers == old(peers)
        invariant forall k | 0 <= k < |peers| :: peers[k] == old(peers)[k] || SendsLess(peers[k], limit)
        invariant !adjusted ==> forall k | 0 <= k < i && peers[k].connected && peers[k].incomingEpoch != now ::
          !SendsLess(peers[k], limit)
      {
        var p := peers[i];
        if p.connected && p.incomingEpoch != now && !(p.outgoingBandwidth > 0 && p.outgoingBandwidth >= limit) {
          MarkSums(peers, i, now);
          OneLess(remaining', limit);
          peers := peers[i := p.(incomingEpoch := now)];
          adjusted := true;
          remaining' := remaining' - 1;
          bandwidth' := bandwidth' - p.outgoingBandwidth;
        }
      }
    }

    /** The limits of this pass. They sum to no more than the host's bandwidth if no peer came with
        the mark; what those that did send comes on top of it, less their parts. */
    method Recalculate(now: u32) returns (bandwidthLimit: u32)
      requires Valid()
      modifies this`peers
      ensures OnlyMarked(old(peers), peers, now) && Fair(old(peers), peers, incomingBandwidth, bandwidthLimit, now)
      ensures incomingBandwidth == 0 ==> peers == old(peers)
      ensures incomingBandwidth != 0 ==>
        && Sum(peers, Told(bandwidthLimit, now)) + bandwidthLimit * Sum(old(peers), Marked(now))
          <= incomingBandwidth + Sum(old(peers), SetBandwidth(now))
        && (NoneMarked(old(peers), now) ==> Sum(peers, Told(bandwidthLimit, now)) <= incomingBandwidth)
    {
      hide Sum;
      ghost var was, stale := peers, Sum(peers, Marked(now));
      var remaining, bandwidth, needsAdjustment := connectedPeers, incomingBandwidth, true;
      bandwidthLimit := 0;
      if bandwidth != 0 {
        MarkedOrNot(peers, now);
        assert remaining * bandwidthLimit == 0;
        while remaining > 0 && needsAdjustment
          invariant OnlyMarked(was, peers, now)
          invariant Sum(peers, Unset(now)) + stale == remaining && remaining * bandwidthLimit <= bandwidth
          invariant bandwidth + Sum(peers, SetBandwidth(now)) == incomingBandwidth + Sum(was, SetBandwidth(now))
          invariant bandwidth <= incomingBandwidth
          invariant forall k | 0 <= k < |peers| && peers[k].connected && was[k].incomingEpoch != now && peers[k].incomingEpoch == now ::
            SendsLess(peers[k], bandwidthLimit)
          invariant !needsAdjustment && remaining > 0 ==> bandwidthLimit == bandwidth / remaining
          invariant !needsAdjustment ==> forall k | 0 <= k < |peers| && peers[k].connected && peers[k].incomingEpoch != now ::
            !SendsLess(peers[k], bandwidthLimit)
          decreases remaining, needsAdjustment
        {
          DividedBack(bandwidth, remaining);
          AtLeast(bandwidth, remaining, bandwidthLimit);
          bandwidthLimit := bandwidth / remaining;
          bandwidth, remaining, needsAdjustment := SetPass(now, bandwidthLimit, bandwidth, remaining, stale);
        }
        if remaining == 0 { NoneUnset(peers, now); }
        ToldSum(peers, bandwidthLimit, now);
        Distribute(bandwidthLimit, Sum(peers, Unset(now)), stale);
        if NoneMarked(was, now) { NoneMarkedSums(was, now); }
      }
    }

    /** The last loop: every connected peer is sent its limits. */
    method Notify(now: u32, limit: u32)
      modifies this`peers
      ensures |peers| == |old(peers)|
      ensures forall i | 0 <= i < |peers| :: peers[i] == Notified(old(peers)[i], limit, now, outgoingBandwidth)
    {
      for i := 0 to |peers|
        invariant |peers| == |old(peers)|
        invariant forall k | 0 <= k < i :: peers[k] == Notified(old(peers)[k], limit, now, outgoingBandwidth)
        invariant forall k | i <= k < |peers| :: peers[k] == old(peers)[k]
      {
        peers := peers[i := Notified(peers[i], limit, now, outgoingBandwidth)];
      }
    }

    /** The data total and the bandwidth that the pass starts from. */
    method Totals(now: u32, elapsed: u32) returns (dataTotal: u32, bandwidth: u32)
      requires Sum(peers, Data()) * 32 < 0x1_0000_0000 && outgoingBandwidth * elapsed < 0x1_0000_0000
      ensures dataTotal == TotalData(peers, outgoingBandwidth) && bandwidth == Available(outgoingBandwidth, elapsed)
      ensures Scales(dataTotal, bandwidth) && Sum(peers, OpenData(now)) <= dataTotal
    {
      OpenDataBound(peers, now);
      dataTotal, bandwidth := 0xFFFF_FFFF, 0xFFFF_FFFF;
      if outgoingBandwidth != 0 {
        var product: u32 := outgoingBandwidth * elapsed;
        bandwidth := product / 1000;
        dataTotal := 0;
        assert peers[0..] == peers;
        for i := 0 to |peers|
          invariant dataTotal + Sum(peers[i..], Data()) == Sum(peers, Data())
        {
          SumFrom(peers, i, Data());
          if peers[i].connected { dataTotal := dataTotal + peers[i].outgoingDataTotal; }
        }
      }
    }

    /** enet_host_bandwidth_throttle. The pass runs if a second has gone by, there is a bandwidth to
        share and somebody to share it with. */
    method Throttle(now: u32) returns (ran: bool, ghost middle: seq<Peer>, ghost t: u32, ghost limit: u32)
      requires Valid()
      requires Sound(peers, Elapsed(now, throttleEpoch)) && outgoingBandwidth * Elapsed(now, throttleEpoch) < 0x1_0000_0000
      requires Sum(peers, Data()) * 32 < 0x1_0000_0000
      modifies this`peers, this`throttleEpoch, this`recalculate
      ensures Valid() && |peers| == |old(peers)|
      ensures var due := Elapsed(now, old(throttleEpoch)) >= INTERVAL && (outgoingBandwidth != 0 || incomingBandwidth != 0);
        && (ran <==> due && connectedPeers > 0)
        && throttleEpoch == if due then now else old(throttleEpoch)
      ensures recalculate == (old(recalculate) && !ran)
      ensures !ran ==> peers == old(peers)
      ensures ran ==> var elapsed := Elapsed(now, old(throttleEpoch));
        && Divided(old(peers), middle, TotalData(old(peers), outgoingBandwidth), Available(outgoingBandwidth, elapsed),
                   t, elapsed, now)
        && Followed(middle, peers, t, old(recalculate), limit, now, outgoingBandwidth)
        && (forall i | 0 <= i < |peers| :: !Exceeds(middle[i], t, elapsed, now) && Throttled(old(peers)[i], peers[i], t, elapsed, now))
        && (bandwidthLimitedPeers == 0 ==> middle == old(peers))
      ensures ran && old(recalculate) ==>
        && Fair(old(peers), peers, incomingBandwidth, limit, now)
        && (forall i | 0 <= i < |peers| ::
              peers[i].incomingEpoch == old(peers)[i].incomingEpoch || (peers[i].connected && peers[i].incomingEpoch == now))
        && (incomingBandwidth != 0 ==>
              && Sum(peers, LastTold()) + limit * Sum(old(peers), Marked(now)) <= incomingBandwidth + Sum(old(peers), SetBandwidth(now))
              && (NoneMarked(old(peers), now) ==> Sum(peers, LastTold()) <= incomingBandwidth))
    {
      hide Sum, Held, HeldOr, HeldShare, Throttled, Exceeds, Divided, Fair, PeerOk, Notified;
      ran, middle, t, limit := false, [], 0, 0;
      var elapsed := Elapsed(now, throttleEpoch);
      if elapsed < INTERVAL { return; }
      if outgoingBandwidth == 0 && incomingBandwidth == 0 { return; }
      throttleEpoch := now;
      if connectedPeers == 0 { return; }
      ran := true;
      var dataTotal, bandwidth := Totals(now, elapsed);
      OpenDataBound(peers, now);
      ghost var was := peers;
      middle, t := AdjustThrottles(now, elapsed, dataTotal, bandwidth);
      ghost var settled := peers;
      DividedParts(was, middle, dataTotal, bandwidth, t, elapsed, now);
      AllThrottled(was, middle, settled, CommonThrottle(bandwidth, dataTotal), t, elapsed, now);
      EpochsStay(was, middle, settled, CommonThrottle(bandwidth, dataTotal), t, elapsed, now);
      if recalculate {
        recalculate := false;
        limit := TellLimits(now);
        SameMarksFair(was, settled, peers, incomingBandwidth, limit, now);
        StillThrottled(was, settled, peers, limit, t, elapsed, now, outgoingBandwidth);
      }
    }

    /** The second half of the pass: the limits, and their commands. */
    method TellLimits(now: u32) returns (limit: u32)
      requires Valid()
      modifies this`peers
      ensures Valid() && |peers| == |old(peers)| && Fair(old(peers), peers, incomingBandwidth, limit, now)
      ensures forall i | 0 <= i < |peers| ::
        && peers[i] == Notified(old(peers)[i].(incomingEpoch := peers[i].incomingEpoch), limit, now, outgoingBandwidth)
        && (peers[i].incomingEpoch == old(peers)[i].incomingEpoch || (peers[i].connected && peers[i].incomingEpoch == now))
      ensures incomingBandwidth != 0 ==>
        && Sum(peers, LastTold()) + limit * Sum(old(peers), Marked(now)) <= incomingBandwidth + Sum(old(peers), SetBandwidth(now))
        && (NoneMarked(old(peers), now) ==> Sum(peers, LastTold()) <= incomingBandwidth)
    {
      hide Sum, Fair, PeerOk;
      ghost var settled := peers;
      limit := Recalculate(now);
      ghost var marked := peers;
      Notify(now, limit);
      NotifiedSums(settled, marked, peers, limit, now, outgoingBandwidth);
      NotifiedFair(settled, marked, peers, incomingBandwidth, limit, now, outgoingBandwidth);
    }
  }

  /** What the pass makes of the throttle of peer p, which is q afterwards, when the common throttle
      is t. The limit is t or the largest within the peer's share, the latter if t exceeds the share,
      and the throttle is cut down to it. The limit lets no more than the share through, unless it is
      above zero and every such limit lets more through; but a peer that came with the mark of time
      `now` is passed over and keeps limit and throttle. What the peer has sent and received is
      counted from zero again, but for the command that tells it its limits. */
  ghost predicate Throttled(p: Peer, q: Peer, t: u32, elapsed: u32, now: u32) {
    if !p.connected || p.outgoingEpoch == now then q.limit == p.limit && q.throttle == p.throttle
    else
      && q.limit <= 32 && q.throttle == (if p.throttle > q.limit then q.limit else p.throttle)
      && (q.limit == t || LargestWithin(p, q.limit, elapsed))
      && (p.incomingBandwidth == 0 ==> q.limit == t)
      && (p.incomingBandwidth != 0 && !WithinShare(p, t, elapsed) ==> LargestWithin(p, q.limit, elapsed))
      && |q.commands| >= |p.commands|
      && q.incomingDataTotal == 0 && q.outgoingDataTotal == LIMITS_SIZE * (|q.commands| - |p.commands|)
      && (p.incomingBandwidth != 0 ==> (WithinShare(p, q.limit, elapsed) <==> q.limit == 0 || !Floods(p, elapsed)))
  }

  /** The largest limit that lets no more than the peer's share through, but never less than one. */
  predicate LargestWithin(p: Peer, l: nat, elapsed: u32) {
    && 1 <= l <= 32
    && 32 * Share(p, elapsed) < (l + 1) * p.outgoingDataTotal
    && (l > 1 ==> l * p.outgoingDataTotal <= 32 * Share(p, elapsed))
  }

  /** A peer whose data does not flood its share is held within it, and any other is not; its limit
      is the largest that does so, or one. */
  lemma HeldWithinShare(p: Peer, elapsed: u32, now: u32)
    requires Share(p, elapsed) < p.outgoingDataTotal
    ensures WithinShare(p, Held(p, elapsed, now).limit, elapsed) <==> !Floods(p, elapsed)
    ensures LargestWithin(p, Held(p, elapsed, now).limit, elapsed)
  {
    hide Share, Held;
    var share, total := Share(p, elapsed), p.outgoingDataTotal;
    var l := HeldLimit(p, elapsed, now);
    FlooredLimit(share, total, l);
    LimitAndOneMore(share, total, l);
  }

  lemma HeldLimit(p: Peer, elapsed: u32, now: u32) returns (l: nat)
    requires Share(p, elapsed) < p.outgoingDataTotal
    ensures l == Share(p, elapsed) * 32 / p.outgoingDataTotal <= 32
    ensures l * p.outgoingDataTotal <= Share(p, elapsed) * 32
    ensures Held(p, elapsed, now).limit == if l == 0 then 1 else l
  {
    hide Share;
    ShareOfScale(Share(p, elapsed), p.outgoingDataTotal);
    l := Share(p, elapsed) * SCALE / p.outgoingDataTotal;
  }

  lemma LimitAndOneMore(share: nat, total: nat, l: nat)
    requires share < total && l == share * 32 / total && l * total <= share * 32
    ensures var m := if l == 0 then 1 else l;
      32 * share < (m + 1) * total && (m > 1 ==> m * total <= 32 * share)
  {
    OneMoreIsTooMuch(share * 32, total);
    if l == 0 { MulLe(1, 2, total); }
  }

  /** The limit before the floor is zero exactly when the data are more than 32 times the share. */
  lemma FlooredLimit(share: nat, total: nat, l: nat)
    requires share < total && l == share * 32 / total && l * total <= share * 32
    ensures (if l == 0 then 1 else l) * total / 32 <= share <==> total < 32 * (share + 1)
  {
    if l == 0 {
      assert 1 * total == total;
    } else {
      MulLe(1, l, total);
    }
  }

  lemma FloodMeans(p: Peer, l: u32, elapsed: u32)
    requires Floods(p, elapsed) && l > 0
    ensures !WithinShare(p, l, elapsed)
  {
    MulLe(1, l, p.outgoingDataTotal);
  }

  lemma StillThrottled(
    was: seq<Peer>, settled: seq<Peer>, ps: seq<Peer>, limit: u32, t: u32, elapsed: u32, now: u32, outgoing: u32)
    requires |ps| == |settled| == |was| && forall i | 0 <= i < |ps| :: Throttled(was[i], settled[i], t, elapsed, now)
    requires forall i | 0 <= i < |ps| :: settled[i].commands == was[i].commands && settled[i].connected == was[i].connected
    requires forall i | 0 <= i < |ps| ::
      ps[i] == Notified(settled[i].(incomingEpoch := ps[i].incomingEpoch), limit, now, outgoing)
    ensures forall i | 0 <= i < |ps| :: Throttled(was[i], ps[i], t, elapsed, now)
  {
    hide WithinShare, Floods;
    forall i | 0 <= i < |ps| ensures Throttled(was[i], ps[i], t, elapsed, now) {
      assert Throttled(was[i], settled[i], t, elapsed, now);
      assert ps[i] == Notified(settled[i].(incomingEpoch := ps[i].incomingEpoch), limit, now, outgoing);
    }
  }

  lemma DividedParts(ps: seq<Peer>, qs: seq<Peer>, total: u32, available: u32, t: u32, elapsed: u32, now: u32)
    requires Divided(ps, qs, total, available, t, elapsed, now)
    ensures Scales(total, available) && AllHeldOr(ps, qs, CommonThrottle(available, total), elapsed, now) && t <= 32
  {
  }

  lemma AllThrottled(was: seq<Peer>, middle: seq<Peer>, ps: seq<Peer>, top: u32, t: u32, elapsed: u32, now: u32)
    requires AllHeldOr(was, middle, top, elapsed, now) && |ps| == |middle| && t <= 32
    requires forall i | 0 <= i < |ps| :: ps[i] == SettledIfOpen(middle[i], t, now) && !Exceeds(middle[i], t, elapsed, now)
    ensures forall i | 0 <= i < |ps| :: Throttled(was[i], ps[i], t, elapsed, now)
    ensures forall i | 0 <= i < |ps| :: ps[i].commands == was[i].commands && ps[i].connected == was[i].connected
  {
    hide HeldOr, Throttled, Exceeds, SettledIfOpen;
    forall i | 0 <= i < |ps|
      ensures Throttled(was[i], ps[i], t, elapsed, now)
      ensures ps[i].commands == was[i].commands && ps[i].connected == was[i].connected
    {
      OneThrottled(was[i], middle[i], top, t, elapsed, now);
    }
  }

  lemma OneThrottled(p: Peer, m: Peer, top: u32, t: u32, elapsed: u32, now: u32)
    requires HeldOr(p, m, top, elapsed, now) && t <= 32 && !Exceeds(m, t, elapsed, now)
    ensures var q := SettledIfOpen(m, t, now);
      Throttled(p, q, t, elapsed, now) && q.commands == p.commands && q.connected == p.connected
  {
    hide WithinShare, Floods, LargestWithin, Share, Held;
    if p.connected && p.outgoingEpoch != now {
      if m == p {
        if Floods(p, elapsed) && t > 0 { FloodMeans(p, t, elapsed); }
      } else {
        HeldFields(p, elapsed, now);
        HeldWithinShare(p, elapsed, now);
      }
    }
  }

  lemma HeldFields(p: Peer, elapsed: u32, now: u32)
    requires Share(p, elapsed) < p.outgoingDataTotal
    ensures var q := Held(p, elapsed, now);
      && q.connected == p.connected && q.commands == p.commands && q.outgoingEpoch == now && 1 <= q.limit <= 32
      && q.throttle == (if p.throttle > q.limit then q.limit else p.throttle)
      && q.incomingDataTotal == 0 && q.outgoingDataTotal == 0
  {
    hide Share;
    ShareOfScale(Share(p, elapsed), p.outgoingDataTotal);
  }

  /** The data of all connected peers, and the bandwidth for it: both unlimited if the host's is. */
  ghost function TotalData(ps: seq<Peer>, outgoing: u32): nat { if outgoing == 0 then 0xFFFF_FFFF else Sum(ps, Data()) }

  function Available(outgoing: u32, elapsed: u32): nat { if outgoing == 0 then 0xFFFF_FFFF else outgoing * elapsed / 1000 }

  /** What the first half of the pass makes of peers ps before the rest follow throttle t: those that
      exceed their shares at the throttle for all are held, and t is the largest throttle at which the
      rest of the data fit what these leave of the bandwidth. */
  ghost predicate Divided(ps: seq<Peer>, qs: seq<Peer>, total: nat, available: nat, t: u32, elapsed: u32, now: u32) {
    && total < 0x1_0000_0000 && available < 0x1_0000_0000 && Scales(total, available)
    && AllHeldOr(ps, qs, CommonThrottle(available, total), elapsed, now)
    && var held := HeldShare(ps, qs, elapsed);
       && held <= total && held <= available && Scales(total - held, available - held)
       && Largest(t, available - held, total - held) && t <= CommonThrottle(available, total)
  }

  /** What the rest of the pass makes of them: the open peers follow throttle t, and if the limits are
      recalculated, all connected ones are told. */
  ghost predicate Followed(middle: seq<Peer>, ps: seq<Peer>, t: u32, told: bool, limit: u32, now: u32, outgoing: u32) {
    && |ps| == |middle|
    && forall i | 0 <= i < |ps| ::
         var p := SettledIfOpen(middle[i], t, now);
         ps[i] == if told then Notified(p.(incomingEpoch := ps[i].incomingEpoch), limit, now, outgoing) else p
  }

  /** What the pass says to the peers: if the limits are told, every connected peer gets one command,
      with the limit, or its own bandwidth if it carries the mark, and the host's outgoing bandwidth; and
      nobody else gets any. */
  ghost predicate ToldOnce(p: Peer, q: Peer, told: bool, limit: u32, now: u32, outgoing: u32) {
    q.commands == if told && p.connected
                  then p.commands + [Limits(if q.incomingEpoch == now then p.outgoingBandwidth else limit, outgoing)]
                  else p.commands
  }

  lemma EveryoneIsTold(was: seq<Peer>, middle: seq<Peer>, ps: seq<Peer>, total: u32, available: u32, t: u32, elapsed: u32,
                       told: bool, limit: u32, now: u32, outgoing: u32)
    requires Divided(was, middle, total, available, t, elapsed, now)
    requires Followed(middle, ps, t, told, limit, now, outgoing)
    ensures |ps| == |was| && forall i | 0 <= i < |ps| :: ToldOnce(was[i], ps[i], told, limit, now, outgoing)
  {
    hide HeldOr, ToldOnce, SettledIfOpen, Notified;
    DividedParts(was, middle, total, available, t, elapsed, now);
    forall i | 0 <= i < |ps| ensures ToldOnce(was[i], ps[i], told, limit, now, outgoing) {
      OneIsTold(was[i], middle[i], ps[i], CommonThrottle(available, total), t, elapsed, told, limit, now, outgoing);
    }
  }

  lemma OneIsTold(p: Peer, m: Peer, q: Peer, top: u32, t: u32, elapsed: u32, told: bool, limit: u32, now: u32, outgoing: u32)
    requires HeldOr(p, m, top, elapsed, now)
    requires var s := SettledIfOpen(m, t, now);
      q == if told then Notified(s.(incomingEpoch := q.incomingEpoch), limit, now, outgoing) else s
    ensures ToldOnce(p, q, told, limit, now, outgoing)
  {
    hide Share, WithinShare;
  }

  lemma AtLeast(bandwidth: nat, n: nat, limit: nat)
    requires n > 0 && n * limit <= bandwidth
    ensures limit <= bandwidth / n
  {
    if limit > bandwidth / n { MulLe(bandwidth / n + 1, limit, n); }
  }

  /** Being told the limits changes neither marks nor bandwidths. */
  lemma NotifiedFair(settled: seq<Peer>, marked: seq<Peer>, ps: seq<Peer>, incoming: u32, limit: u32, now: u32, outgoing: u32)
    requires |ps| == |marked| && forall i | 0 <= i < |ps| :: ps[i] == Notified(marked[i], limit, now, outgoing)
    requires Fair(settled, marked, incoming, limit, now)
    ensures Fair(settled, ps, incoming, limit, now)
  {
    hide Sum;
    SumSame(ps, marked, SetBandwidth(now));
    SumSame(ps, marked, Unset(now));
  }

  /** The first half of the pass makes no difference to the second. */
  lemma SameMarksFair(was: seq<Peer>, settled: seq<Peer>, ps: seq<Peer>, incoming: u32, limit: u32, now: u32)
    requires |was| == |settled| && forall i | 0 <= i < |was| :: SameMarks(was[i], settled[i])
    requires Fair(settled, ps, incoming, limit, now)
    ensures Fair(was, ps, incoming, limit, now) && (NoneMarked(was, now) <==> NoneMarked(settled, now))
    ensures Sum(was, SetBandwidth(now)) == Sum(settled, SetBandwidth(now)) && Sum(was, Marked(now)) == Sum(settled, Marked(now))
  {
    hide Sum;
    SumSame(was, settled, SetBandwidth(now));
    SumSame(was, settled, Marked(now));
  }

  predicate SameMarks(p: Peer, q: Peer) {
    p.connected == q.connected && p.incomingEpoch == q.incomingEpoch && p.outgoingBandwidth == q.outgoingBandwidth
  }

  lemma OpenDataBound(ps: seq<Peer>, now: u32)
    requires Sum(ps, Data()) * 32 < 0x1_0000_0000
    ensures Sum(ps, OpenData(now)) <= Sum(ps, Data()) < 0x1_0000_0000 && Sum(ps, OpenData(now)) * 32 < 0x1_0000_0000
  {
    SumLe(ps, OpenData(now), Data());
  }

  /** The first half of the pass leaves the marks of the second alone. */
  lemma EpochsStay(was: seq<Peer>, middle: seq<Peer>, ps: seq<Peer>, top: u32, t: u32, elapsed: u32, now: u32)
    requires AllHeldOr(was, middle, top, elapsed, now) && |ps| == |middle|
    requires forall i | 0 <= i < |ps| :: ps[i] == SettledIfOpen(middle[i], t, now)
    ensures forall i | 0 <= i < |ps| :: SameMarks(was[i], ps[i])
  {
    forall i | 0 <= i < |ps| ensures SameMarks(was[i], ps[i]) {
      assert HeldOr(was[i], middle[i], top, elapsed, now);
    }
  }

  lemma NotifiedSums(settled: seq<Peer>, marked: seq<Peer>, ps: seq<Peer>, limit: u32, now: u32, outgoing: u32)
    requires OnlyMarked(settled, marked, now) && |ps| == |marked|
    requires forall i | 0 <= i < |ps| :: ps[i] == Notified(marked[i], limit, now, outgoing)
    ensures Sum(ps, LastTold()) == Sum(marked, Told(limit, now))
    ensures Sum(ps, Connected()) == Sum(settled, Connected()) && Sum(ps, Limited()) == Sum(settled, Limited())
    ensures (forall i | 0 <= i < |settled| :: PeerOk(settled[i])) ==> forall i | 0 <= i < |ps| :: PeerOk(ps[i])
  {
    hide Sum;
    SumOf(ps, marked, LastTold(), Told(limit, now));
    SumSame(ps, settled, Connected());
    SumSame(ps, settled, Limited());
  }

  lemma {:induction false} SumOf(ps: seq<Peer>, qs: seq<Peer>, f: Peer -> nat, g: Peer -> nat)
    requires |ps| == |qs| && forall i | 0 <= i < |ps| :: f(ps[i]) == g(qs[i])
    ensures Sum(ps, f) == Sum(qs, g)
    decreases |ps|
  {
    if ps != [] {
      assert f(ps[0]) == g(qs[0]);
      SumOf(ps[1..], qs[1..], f, g);
    }
  }

  function Elapsed(now: u32, epoch: u32): u32 { (now + 0x1_0000_0000 - epoch) % 0x1_0000_0000 }

  /** The incoming bandwidth in a connected peer's newest command. */
  ghost function LastTold(): Peer -> nat {
    (p: Peer) => if p.connected && p.commands != [] then p.commands[|p.commands| - 1].incoming else 0
  }

  /** Only the mark of the pass was set, on some peers. */
  ghost predicate OnlyMarked(ps: seq<Peer>, qs: seq<Peer>, now: u32) {
    |qs| == |ps| && forall i | 0 <= i < |ps| :: qs[i] == ps[i] || (ps[i].connected && qs[i] == ps[i].(incomingEpoch := now))
  }

  /** What n peers take at a common limit. */
  function Reserve(n: nat, limit: u32): nat { n * limit }

  lemma OneLess(n: nat, limit: u32)
    requires n > 0
    ensures Reserve(n - 1, limit) + limit == Reserve(n, limit)
  {
  }

  lemma OpenAreConnected(ps: seq<Peer>, now: u32)
    ensures Sum(ps, Open(now)) <= Sum(ps, Connected())
  {
    SumLe(ps, Open(now), Connected());
  }

  lemma {:induction false} MarkedOrNot(ps: seq<Peer>, now: u32)
    ensures Sum(ps, Unset(now)) + Sum(ps, Marked(now)) == Sum(ps, Connected())
    decreases |ps|
  {
    if ps != [] { MarkedOrNot(ps[1..], now); }
  }

  lemma NoneUnset(ps: seq<Peer>, now: u32)
    requires Sum(ps, Unset(now)) == 0
    ensures forall i | 0 <= i < |ps| :: !(ps[i].connected && ps[i].incomingEpoch != now)
  {
    forall i | 0 <= i < |ps| ensures !(ps[i].connected && ps[i].incomingEpoch != now) {
      SumMember(ps, i, Unset(now));
    }
  }

  /** A peer without a bandwidth of its own never gets more than its share. */
  lemma NobodyLimited(ps: seq<Peer>, throttle: u32, elapsed: u32, now: u32)
    requires Sum(ps, Limited()) == 0
    ensures forall i | 0 <= i < |ps| :: !Exceeds(ps[i], throttle, elapsed, now)
  {
    forall i | 0 <= i < |ps| ensures !Exceeds(ps[i], throttle, elapsed, now) {
      SumMember(ps, i, Limited());
    }
  }

  lemma NoneOpen(ps: seq<Peer>, now: u32)
    requires Sum(ps, Open(now)) == 0
    ensures forall i | 0 <= i < |ps| :: !(ps[i].connected && ps[i].outgoingEpoch != now)
  {
    forall i | 0 <= i < |ps| ensures !(ps[i].connected && ps[i].outgoingEpoch != now) {
      SumMember(ps, i, Open(now));
    }
  }

  lemma {:induction false} SumSame(ps: seq<Peer>, qs: seq<Peer>, f: Peer -> nat)
    requires |ps| == |qs| && forall i | 0 <= i < |ps| :: f(ps[i]) == f(qs[i])
    ensures Sum(ps, f) == Sum(qs, f)
    decreases |ps|
  {
    if ps != [] {
      assert f(ps[0]) == f(qs[0]);
      SumSame(ps[1..], qs[1..], f);
    }
  }

  lemma KeepsConnected(ps: seq<Peer>, qs: seq<Peer>, top: u32, elapsed: u32, now: u32)
    requires AllHeldOr(ps, qs, top, elapsed, now)
    ensures Sum(ps, Connected()) == Sum(qs, Connected()) && Sum(ps, Limited()) == Sum(qs, Limited())
  {
    hide Sum;
    forall i | 0 <= i < |ps| ensures Connected()(ps[i]) == Connected()(qs[i]) && Limited()(ps[i]) == Limited()(qs[i]) {
      assert HeldOr(ps[i], qs[i], top, elapsed, now);
    }
    SumSame(ps, qs, Connected());
    SumSame(ps, qs, Limited());
  }

  lemma SettledValid(ps: seq<Peer>, qs: seq<Peer>, t: u32, elapsed: u32, now: u32)
    requires Sound(ps, elapsed) && t <= 32
    requires |qs| == |ps| && forall i | 0 <= i < |qs| :: qs[i] == SettledIfOpen(ps[i], t, now)
    ensures Sum(ps, Connected()) == Sum(qs, Connected()) && Sum(ps, Limited()) == Sum(qs, Limited())
    ensures forall i | 0 <= i < |qs| :: PeerOk(qs[i])
  {
    hide Sum;
    SumSame(ps, qs, Connected());
    SumSame(ps, qs, Limited());
    forall i | 0 <= i < |qs| ensures PeerOk(qs[i]) { assert PeerOk(ps[i]); }
  }

  lemma MarkSums(ps: seq<Peer>, i: nat, now: u32)
    requires i < |ps| && ps[i].connected && ps[i].incomingEpoch != now
    ensures var qs := ps[i := ps[i].(incomingEpoch := now)];
      && Sum(qs, Unset(now)) + 1 == Sum(ps, Unset(now))
      && Sum(qs, SetBandwidth(now)) == Sum(ps, SetBandwidth(now)) + ps[i].outgoingBandwidth
  {
    var q := ps[i].(incomingEpoch := now);
    SumUpdate(ps, i, q, Unset(now));
    SumUpdate(ps, i, q, SetBandwidth(now));
  }

  lemma DividedBack(a: nat, n: nat)
    requires n > 0
    ensures n * (a / n) <= a && 0 <= a / n <= a
  {
    MulLe(1, n, a / n);
  }

  lemma SoundAt(ps: seq<Peer>, elapsed: u32, i: nat)
    requires Sound(ps, elapsed) && i < |ps|
    ensures PeerOk(ps[i]) && ps[i].incomingBandwidth * elapsed < 0x1_0000_0000
  {
  }
}
