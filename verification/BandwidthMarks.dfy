/** Where the incoming limits of a bandwidth pass exceed the host's bandwidth: exactly where a
    connected peer carries the mark of the present time before the pass. The mark of a new peer is
    zero, as the clock may be, and marks are as old as the clock's round after 2^32 milliseconds. */
module BandwidthMarks {
  import opened Arithmetic
  import opened SeqNumbers
  import opened Bandwidth

  const MOST: u32 := 0xFFFF_FFFF

  /** The same peers, but for what they send. */
  ghost predicate SameButSending(was: seq<Peer>, others: seq<Peer>) {
    |others| == |was| && forall i | 0 <= i < |was| :: others[i] == was[i].(outgoingBandwidth := others[i].outgoingBandwidth)
  }

  /** What a pass over peers `was` may end in. */
  ghost predicate Outcome(was: seq<Peer>, ps: seq<Peer>, incoming: u32, limit: u32, now: u32) {
    OnlyMarked(was, ps, now) && Fair(was, ps, incoming, limit, now)
  }

  /** The limits told to the peers fit the host's bandwidth. */
  ghost predicate FitsBandwidth(ps: seq<Peer>, incoming: u32, limit: u32, now: u32) {
    Sum(ps, Told(limit, now)) <= incoming
  }

  /** Nobody carries the mark, or only one peer is connected and may be told anything. */
  ghost predicate Safe(was: seq<Peer>, incoming: u32, now: u32) {
    NoneMarked(was, now) || (incoming == MOST && Sum(was, Connected()) <= 1)
  }

  // ----- without marks -----

  lemma UnmarkedFits(was: seq<Peer>, ps: seq<Peer>, incoming: u32, limit: u32, now: u32)
    requires incoming > 0 && NoneMarked(was, now) && Outcome(was, ps, incoming, limit, now)
    ensures FitsBandwidth(ps, incoming, limit, now)
  {
    hide Sum;
    NoneMarkedSums(was, now);
    ToldSum(ps, limit, now);
    var given, parts := Sum(ps, SetBandwidth(now)), Sum(ps, Unset(now));
    if parts > 0 { DividedBack(incoming - given, parts); } else { assert limit * parts == 0; }
  }

  lemma {:induction false} SumOnly(ps: seq<Peer>, k: nat, f: Peer -> nat)
    requires k < |ps| && forall i | 0 <= i < |ps| && i != k :: f(ps[i]) == 0
    ensures Sum(ps, f) == f(ps[k])
    decreases |ps|
  {
    if k == 0 {
      SumZero(ps[1..], f);
    } else {
      SumOnly(ps[1..], k - 1, f);
    }
  }

  lemma {:induction false} SumTwo(ps: seq<Peer>, j: nat, k: nat, f: Peer -> nat)
    requires j < k < |ps|
    ensures f(ps[j]) + f(ps[k]) <= Sum(ps, f)
    decreases |ps|
  {
    if j == 0 { SumMember(ps[1..], k - 1, f); } else { SumTwo(ps[1..], j - 1, k - 1, f); }
  }

  /** A peer alone is told no more than a u32 holds. */
  lemma AloneFits(was: seq<Peer>, ps: seq<Peer>, limit: u32, now: u32)
    requires Sum(was, Connected()) <= 1 && OnlyMarked(was, ps, now)
    ensures FitsBandwidth(ps, MOST, limit, now)
  {
    if k: nat :| k < |ps| && ps[k].connected {
      forall i | 0 <= i < |ps| && i != k ensures !ps[i].connected {
        if was[i].connected { SumTwo(was, if i < k then i else k, if i < k then k else i, Connected()); }
      }
      SumOnly(ps, k, Told(limit, now));
    } else {
      SumZero(ps, Told(limit, now));
    }
  }

  // ----- with a mark -----

  /** Peers m and k send all they can, the others nothing. */
  ghost function Greedy(was: seq<Peer>, m: nat, k: nat): (ps: seq<Peer>)
    ensures SameButSending(was, ps)
  {
    seq(|was|, i requires 0 <= i < |was| => was[i].(outgoingBandwidth := if i == m || i == k then MOST else 0))
  }

  /** Peer m carries the mark, and k is it, or another connected peer, marked if more than one is. */
  ghost predicate Chosen(was: seq<Peer>, m: nat, k: nat, now: u32) {
    && m < |was| && k < |was| && was[m].connected && was[k].connected && was[m].incomingEpoch == now
    && (was[k].incomingEpoch != now ==> forall i | 0 <= i < |was| && was[i].connected && was[i].incomingEpoch == now :: i == m)
  }

  /** All connected peers marked, but for k if it was not. */
  ghost function MarkedBut(was: seq<Peer>, k: nat, now: u32): (ps: seq<Peer>)
    ensures OnlyMarked(was, ps, now)
  {
    seq(|was|, i requires 0 <= i < |was| => if was[i].connected && i != k then was[i].(incomingEpoch := now) else was[i])
  }

  /** The pass over greedy peers ends: marked are all that send nothing. */
  lemma GreedyEnds(was: seq<Peer>, m: nat, k: nat, incoming: u32, now: u32) returns (ps: seq<Peer>, limit: u32)
    requires incoming > 0 && Chosen(was, m, k, now)
    ensures Outcome(Greedy(was, m, k), ps, incoming, limit, now)
  {
    hide Sum;
    var others := Greedy(was, m, k);
    ps := MarkedBut(others, k, now);
    SumSame(ps, others, SetBandwidth(now));
    SumMember(others, m, Marked(now));
    var parts := Sum(ps, Unset(now)) + Sum(others, Marked(now));
    assert parts > 0;
    DividedBack(incoming, parts);
    limit := incoming / parts;
  }

  /** However the pass over greedy peers ends, they are told more than the bandwidth. */
  lemma GreedyOvertells(was: seq<Peer>, m: nat, k: nat, ps: seq<Peer>, incoming: u32, limit: u32, now: u32)
    requires incoming > 0 && Chosen(was, m, k, now) && (incoming == MOST ==> k != m)
    requires Outcome(Greedy(was, m, k), ps, incoming, limit, now)
    ensures !FitsBandwidth(ps, incoming, limit, now)
  {
    hide Sum, Fair;
    assert ps[m].connected && ps[m].incomingEpoch == now && ps[m].outgoingBandwidth == MOST;
    SumMember(ps, m, Told(limit, now));
    if incoming == MOST {
      SecondIsTold(was, m, k, ps, limit, now);
      SumTwo(ps, if m < k then m else k, if m < k then k else m, Told(limit, now));
    }
  }

  /** The other greedy peer is told something too. */
  lemma SecondIsTold(was: seq<Peer>, m: nat, k: nat, ps: seq<Peer>, limit: u32, now: u32)
    requires Chosen(was, m, k, now) && k != m && Outcome(Greedy(was, m, k), ps, MOST, limit, now)
    ensures ps[k].connected && ToldLimit(ps[k], limit, now) > 0
  {
    hide Sum;
    var others := Greedy(was, m, k);
    assert ps[k].connected && ps[k].outgoingBandwidth == MOST && !SendsLess(ps[k], limit);
    if was[k].incomingEpoch != now {
      assert ps[k].incomingEpoch != now;
      forall i | 0 <= i < |ps| && i != k ensures Unset(now)(ps[i]) == 0 { assert ps[i].connected ==> ps[i].incomingEpoch == now; }
      SumOnly(ps, k, Unset(now));
      SumOnly(others, m, Marked(now));
      forall i | 0 <= i < |ps| ensures SetBandwidth(now)(ps[i]) == SetBandwidth(now)(others[i]) { }
      SumSame(ps, others, SetBandwidth(now));
    }
  }

  /** There is such a pair if some connected peer carries the mark. */
  lemma Choose(was: seq<Peer>, now: u32, alone: bool) returns (m: nat, k: nat)
    requires !NoneMarked(was, now) && (!alone ==> Sum(was, Connected()) > 1)
    ensures Chosen(was, m, k, now) && (alone <==> k == m)
  {
    m :| m < |was| && was[m].connected && was[m].incomingEpoch == now;
    k := m;
    if !alone {
      if j: nat :| j < |was| && j != m && was[j].connected && was[j].incomingEpoch == now {
        k := j;
      } else if j: nat :| j < |was| && j != m && was[j].connected {
        k := j;
      } else {
        SumOnly(was, m, Connected());
      }
    }
  }

  /** Whatever its peers send, a pass keeps the limits within the host's bandwidth exactly if no
      connected peer carries the mark beforehand; but for a host with the largest bandwidth there
      is and one peer. Otherwise some amounts sent make it tell more, however it ends. */
  lemma LimitsFitExactly(was: seq<Peer>, incoming: u32, now: u32)
    requires incoming > 0
    ensures Safe(was, incoming, now)
      <==> forall others, ps, limit | SameButSending(was, others) && Outcome(others, ps, incoming, limit, now) ::
             FitsBandwidth(ps, incoming, limit, now)
    ensures !Safe(was, incoming, now) ==>
      exists others ::
        && SameButSending(was, others)
        && forall ps, limit | Outcome(others, ps, incoming, limit, now) :: !FitsBandwidth(ps, incoming, limit, now)
  {
    hide Sum, Outcome, FitsBandwidth;
    if Safe(was, incoming, now) {
      forall others, ps, limit | SameButSending(was, others) && Outcome(others, ps, incoming, limit, now)
        ensures FitsBandwidth(ps, incoming, limit, now)
      {
        if NoneMarked(was, now) {
          assert NoneMarked(others, now);
          UnmarkedFits(others, ps, incoming, limit, now);
        } else {
          SumSame(others, was, Connected());
          assert OnlyMarked(others, ps, now) by { OutcomeMarks(others, ps, incoming, limit, now); }
          AloneFits(others, ps, limit, now);
        }
      }
    } else {
      var m, k := Choose(was, now, incoming != MOST);
      var others := Greedy(was, m, k);
      forall ps, limit | Outcome(others, ps, incoming, limit, now) ensures !FitsBandwidth(ps, incoming, limit, now) {
        GreedyOvertells(was, m, k, ps, incoming, limit, now);
      }
      var ps, limit := GreedyEnds(was, m, k, incoming, now);
      assert SameButSending(was, others) && Outcome(others, ps, incoming, limit, now);
    }
  }

  lemma OutcomeMarks(was: seq<Peer>, ps: seq<Peer>, incoming: u32, limit: u32, now: u32)
    requires Outcome(was, ps, incoming, limit, now)
    ensures OnlyMarked(was, ps, now)
  {
  }

  /** One peer that carries the mark and sends 10^6 is told 10^6 by a host with a bandwidth of 1000. */
  lemma StaleMarkOvertells(p: Peer, q: Peer, limit: u32, now: u32)
    requires p.connected && p.incomingEpoch == now && p.outgoingBandwidth == 1000000
    requires Outcome([p], [q], 1000, limit, now)
    ensures Sum([q], Told(limit, now)) == 1000000
  {
  }

  // ----- throttles -----

  /** A peer that is held to a share of one byte, and sends 10^6, may send 31250 of them: the limit
      is never set to zero. */
  lemma FloorLetsThrough(p: Peer, now: u32)
    requires p.incomingBandwidth == 1 && p.outgoingDataTotal == 1000000
    ensures Share(p, 1000) == 1 && Held(p, 1000, now).limit == 1
    ensures Floods(p, 1000) && Held(p, 1000, now).limit * p.outgoingDataTotal / 32 == 31250
  {
  }
}
