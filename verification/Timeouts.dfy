/** Which commands check_timeouts sends again, and when it gives the peer up: the loop of
    EnetSender described by the ages of the commands. */
module Timeouts {
  import opened Options
  import opened SeqNumbers
  import opened EnetSender

  // ----- the clock -----

  /** Less than a day apart, times on the wrapping clock are told apart and measured truly. */
  lemma ClockIsTrue(now: nat, t: nat)
    requires t <= now < t + 86400000
    ensures var a, b := now % 0x1_0000_0000, t % 0x1_0000_0000;
      && TimeDifference(a, b) == TimeDifference(b, a) == now - t
      && !TimeLess(a, b) && (TimeLess(b, a) <==> t < now)
  {
    var a, b, q, r := now % 0x1_0000_0000, t % 0x1_0000_0000, now / 0x1_0000_0000, t / 0x1_0000_0000;
    assert now == 0x1_0000_0000 * q + a && t == 0x1_0000_0000 * r + b;
    assert q == r || (q == r + 1 && a < b);
  }

  // ----- lists of commands -----

  function Filter(cs: seq<Cmd>, keep: Cmd -> bool): (r: seq<Cmd>)
    ensures |r| <= |cs|
    ensures forall c :: c in r <==> c in cs && keep(c)
  {
    if cs == [] then [] else (if keep(cs[0]) then [cs[0]] else []) + Filter(cs[1..], keep)
  }

  lemma FilterSame(cs: seq<Cmd>, f: Cmd -> bool, g: Cmd -> bool)
    requires forall c :: f(c) == g(c)
    ensures Filter(cs, f) == Filter(cs, g)
  {
  }

  function Overdue(now: u32): Cmd -> bool { (c: Cmd) => TimeDifference(now, c.sentTime) >= c.rto }

  function Pending(now: u32): Cmd -> bool { (c: Cmd) => TimeDifference(now, c.sentTime) < c.rto }

  /** The payload that commands `cs` carry. */
  function Carried(cs: seq<Cmd>): nat {
    if cs == [] then 0 else (if cs[0].packet.Some? then cs[0].len else 0) + Carried(cs[1..])
  }

  /** The oldest of `first` (0 for none) and the times at which `cs` were sent. */
  function Oldest(first: u32, cs: seq<Cmd>): u32
    decreases |cs|
  {
    if cs == [] then first
    else Oldest(if first == 0 || TimeLess(cs[0].sentTime, first) then cs[0].sentTime else first, cs[1..])
  }

  function RearmAll(p: Peer, cs: seq<Cmd>): (r: seq<Cmd>)
    ensures |r| == |cs| && forall i | 0 <= i < |cs| :: r[i] == Rearmed(p, cs[i])
  {
    if cs == [] then [] else [Rearmed(p, cs[0])] + RearmAll(p, cs[1..])
  }

  // ----- the loop -----

  /** Whether the peer is given up at overdue command `c`, when `oldest` is the oldest time. */
  ghost predicate TooLate(p: Peer, oldest: u32, c: Cmd, now: u32) {
    && oldest != 0
    && (|| TimeDifference(now, oldest) >= p.timeoutMaximum
        || (TimeDifference(now, oldest) >= p.timeoutMinimum && c.rto >= c.rtoLimit))
  }

  /** Whether the peer is given up at position `k` of `cs`, when `first` is the oldest time so far. */
  ghost predicate StopsAt(p: Peer, first: u32, cs: seq<Cmd>, now: u32, k: nat)
    requires k < |cs|
  {
    && Overdue(now)(cs[k])
    && TooLate(p, Oldest(first, Filter(cs[..k + 1], Overdue(now))), cs[k], now)
  }

  lemma FilterPrefix(cs: seq<Cmd>, k: nat, f: Cmd -> bool)
    requires 0 < |cs| && k < |cs|
    ensures Filter(cs[..k + 1], f) == (if f(cs[0]) then [cs[0]] else []) + Filter(cs[1..][..k], f)
  {
    assert cs[..k + 1][1..] == cs[1..][..k];
  }

  lemma StopsLater(p: Peer, first: u32, cs: seq<Cmd>, now: u32, k: nat)
    requires k + 1 < |cs|
    ensures var c := cs[0];
      var first' := if !Overdue(now)(c) || !(first == 0 || TimeLess(c.sentTime, first)) then first else c.sentTime;
      StopsAt(p, first, cs, now, k + 1) <==> StopsAt(p, first', cs[1..], now, k)
  {
    hide TimeLess, TimeDifference, TooLate, Filter, Oldest;
    FilterPrefix(cs, k + 1, Overdue(now));
    var c, later := cs[0], Filter(cs[1..][..k + 1], Overdue(now));
    OldestStep(first, c, later);
    assert [] + later == later;
    assert cs[1..][k] == cs[k + 1];
  }

  lemma OldestStep(first: u32, c: Cmd, later: seq<Cmd>)
    ensures Oldest(first, [c] + later)
      == Oldest(if first == 0 || TimeLess(c.sentTime, first) then c.sentTime else first, later)
  {
    assert ([c] + later)[1..] == later;
  }

  lemma StopsAtOnce(p: Peer, first: u32, cs: seq<Cmd>, now: u32)
    requires |cs| > 0
    ensures var c := cs[0];
      StopsAt(p, first, cs, now, 0) <==>
        Overdue(now)(c)
        && TooLate(p, if first == 0 || TimeLess(c.sentTime, first) then c.sentTime else first, c, now)
  {
    hide TimeLess, TimeDifference, TooLate;
    FilterPrefix(cs, 0, Overdue(now));
    var c := cs[0];
    assert Filter(cs[..1], Overdue(now)) == if Overdue(now)(c) then [c] else [];
    assert [c][1..] == [];
    assert Oldest(first, [c]) == if first == 0 || TimeLess(c.sentTime, first) then c.sentTime else first;
  }

  /** The peer when none of `rest` stops the loop, apart from the next time-out. */
  ghost predicate Passed(p: Peer, kept: seq<Cmd>, rest: seq<Cmd>, moved: seq<Cmd>, now: u32, p': Peer) {
    var over := Filter(rest, Overdue(now));
    && p'.sent == kept + Filter(rest, Pending(now))
    && p'.outgoing == moved + RearmAll(p, over) + p.outgoing
    && p' == p.(sent := p'.sent, outgoing := p'.outgoing, nextTimeout := p'.nextTimeout,
                inTransit := p.inTransit - Carried(over), earliestTimeout := Oldest(p.earliestTimeout, over))
    && (kept == [] && rest != [] && Overdue(now)(rest[0]) && p'.sent != []
        ==> p'.nextTimeout == Deadline(p'.sent[0]))
    && (kept != [] || rest == [] || Pending(now)(rest[0]) ==> p'.nextTimeout == p.nextTimeout)
  }

  /** The peer after overdue command `rest[0]` has been put back. */
  function PutBack(p: Peer, kept: seq<Cmd>, rest: seq<Cmd>): Peer
    requires rest != []
  {
    var c := rest[0];
    p.(earliestTimeout := Earliest(p, c),
       inTransit := if c.packet.Some? then p.inTransit - c.len else p.inTransit,
       nextTimeout := if kept == [] && |rest| > 1 then Deadline(rest[1]) else p.nextTimeout)
  }

  lemma StopsSomewhere(p: Peer, q: Peer, first: u32, cs: seq<Cmd>, now: u32)
    requires cs != [] && p.timeoutMaximum == q.timeoutMaximum && p.timeoutMinimum == q.timeoutMinimum
    ensures var c := cs[0];
      var first' := if !Overdue(now)(c) || !(first == 0 || TimeLess(c.sentTime, first)) then first else c.sentTime;
      (exists k :: 0 <= k < |cs| && StopsAt(p, first, cs, now, k))
      <==> (Overdue(now)(c) && TooLate(p, first', c, now))
           || exists k :: 0 <= k < |cs[1..]| && StopsAt(q, first', cs[1..], now, k)
  {
    hide TimeLess, TimeDifference, Oldest, Filter;
    StopsAtOnce(p, first, cs, now);
    var c := cs[0];
    var first' := if !Overdue(now)(c) || !(first == 0 || TimeLess(c.sentTime, first)) then first else c.sentTime;
    forall k | 0 <= k < |cs[1..]| ensures StopsAt(p, first, cs, now, k + 1) <==> StopsAt(q, first', cs[1..], now, k) {
      StopsLater(p, first, cs, now, k);
    }
    if k :| 0 <= k < |cs| && StopsAt(p, first, cs, now, k) {
      if k > 0 { assert StopsAt(q, first', cs[1..], now, k - 1); }
    }
  }

  lemma PassedOverOne(p: Peer, kept: seq<Cmd>, rest: seq<Cmd>, moved: seq<Cmd>, now: u32, p': Peer)
    requires rest != [] && Pending(now)(rest[0]) && Passed(p, kept + [rest[0]], rest[1..], moved, now, p')
    ensures Passed(p, kept, rest, moved, now, p')
  {
    hide TimeDifference, Oldest, Carried, RearmAll, Deadline, Filter;
    FirstIsPending(rest, now);
    assert kept + ([rest[0]] + Filter(rest[1..], Pending(now))) == kept + [rest[0]] + Filter(rest[1..], Pending(now));
  }

  lemma FirstIsPending(rest: seq<Cmd>, now: u32)
    requires rest != [] && Pending(now)(rest[0])
    ensures Filter(rest, Pending(now)) == [rest[0]] + Filter(rest[1..], Pending(now))
    ensures Filter(rest, Overdue(now)) == Filter(rest[1..], Overdue(now))
  {
    assert [] + Filter(rest[1..], Overdue(now)) == Filter(rest[1..], Overdue(now));
  }

  lemma PutBackOne(p: Peer, kept: seq<Cmd>, rest: seq<Cmd>, moved: seq<Cmd>, now: u32, p': Peer)
    requires rest != [] && Overdue(now)(rest[0])
    requires Passed(PutBack(p, kept, rest), kept, rest[1..], moved + [Rearmed(p, rest[0])], now, p')
    ensures Passed(p, kept, rest, moved, now, p')
  {
    hide TimeDifference, TimeLess, Deadline, Rearmed, Oldest, RearmAll, Filter, Carried;
    var c, over, q := rest[0], Filter(rest[1..], Overdue(now)), PutBack(p, kept, rest);
    SameRearmed(p, q, over);
    FirstIsOverdue(p, rest, now);
    FirstLeft(rest[1..], now);
    assert moved + RearmAll(p, [c] + over) == moved + [Rearmed(p, c)] + RearmAll(p, over);
  }

  lemma FirstLeft(rest: seq<Cmd>, now: u32)
    ensures rest == [] ==> Filter(rest, Pending(now)) == []
    ensures rest != [] && Pending(now)(rest[0]) ==> Filter(rest, Pending(now)) != [] && Filter(rest, Pending(now))[0] == rest[0]
  {
  }

  lemma FirstIsOverdue(p: Peer, rest: seq<Cmd>, now: u32)
    requires rest != [] && Overdue(now)(rest[0])
    ensures var c, over := rest[0], Filter(rest[1..], Overdue(now));
      && Filter(rest, Overdue(now)) == [c] + over && Filter(rest, Pending(now)) == Filter(rest[1..], Pending(now))
      && RearmAll(p, [c] + over) == [Rearmed(p, c)] + RearmAll(p, over)
      && Carried([c] + over) == (if c.packet.Some? then c.len else 0) + Carried(over)
      && Oldest(p.earliestTimeout, [c] + over) == Oldest(Earliest(p, c), over)
  {
    hide TimeDifference, TimeLess, Rearmed;
    var c, over := rest[0], Filter(rest[1..], Overdue(now));
    assert ([c] + over)[1..] == over;
    assert [] + Filter(rest[1..], Pending(now)) == Filter(rest[1..], Pending(now));
  }

  lemma SameRearmed(p: Peer, q: Peer, cs: seq<Cmd>)
    requires p.rtt == q.rtt && p.rttVar == q.rttVar && p.timeoutLimit == q.timeoutLimit
    ensures RearmAll(p, cs) == RearmAll(q, cs)
  {
  }

  lemma {:induction false} LoopPasses(p: Peer, kept: seq<Cmd>, rest: seq<Cmd>, moved: seq<Cmd>, now: u32)
    ensures var (p', gaveUp) := TimeoutLoop(p, kept, rest, moved, now);
      && (gaveUp <==> exists k :: 0 <= k < |rest| && StopsAt(p, p.earliestTimeout, rest, now, k))
      && (!gaveUp ==> Passed(p, kept, rest, moved, now, p'))
    decreases |rest|
  {
    hide TimeLess, TimeDifference, Deadline, StopsAt, Rearmed, Passed;
    if rest == [] {
      EndOfLoop(p, kept, rest, moved, now);
      NothingToPass(p, kept, moved, now);
    } else {
      var q, p' := PutBack(p, kept, rest), TimeoutLoop(p, kept, rest, moved, now).0;
      StopsSomewhere(p, if TimedOut(rest[0], now) then q else p, p.earliestTimeout, rest, now);
      if !TimedOut(rest[0], now) {
        PassedOver(p, kept, rest, moved, now);
        LoopPasses(p, kept + [rest[0]], rest[1..], moved, now);
        if !TimeoutLoop(p, kept, rest, moved, now).1 { PassedOverOne(p, kept, rest, moved, now, p'); }
      } else {
        TimedOutStep(p, kept, rest, moved, now);
        if !GivesUp(p, Earliest(p, rest[0]), rest[0], now) {
          LoopPasses(q, kept, rest[1..], moved + [Rearmed(p, rest[0])], now);
          if !TimeoutLoop(p, kept, rest, moved, now).1 { PutBackOne(p, kept, rest, moved, now, p'); }
        }
      }
    }
  }

  lemma NothingToPass(p: Peer, kept: seq<Cmd>, moved: seq<Cmd>, now: u32)
    ensures Passed(p, kept, [], moved, now, p.(sent := kept, outgoing := moved + p.outgoing))
  {
    assert kept + [] == kept && moved + [] + p.outgoing == moved + p.outgoing;
  }

  // ----- the pass -----

  /** The pass gives the peer up exactly if, at some overdue command, the oldest time found is at
      least the maximum ago, or at least the minimum while the command's time-out is at its limit. */
  ghost predicate GivenUp(p: Peer, now: u32) {
    exists k :: 0 <= k < |p.sent| && GivenUpAt(p, now, k)
  }

  ghost predicate GivenUpAt(p: Peer, now: u32, k: nat)
    requires k < |p.sent|
  {
    var c := p.sent[k];
    var oldest := Oldest(p.earliestTimeout, Filter(p.sent[..k + 1], (d: Cmd) => TimeDifference(now, d.sentTime) >= d.rto));
    && TimeDifference(now, c.sentTime) >= c.rto
    && oldest != 0
    && (|| TimeDifference(now, oldest) >= p.timeoutMaximum
        || (TimeDifference(now, oldest) >= p.timeoutMinimum && c.rto >= c.rtoLimit))
  }

  /** Otherwise the commands not overdue stay, and the others are queued again. */
  ghost predicate SentAgain(p: Peer, now: u32, p': Peer) {
    && p'.sent == Filter(p.sent, (d: Cmd) => TimeDifference(now, d.sentTime) < d.rto)
    && QueuedAgain(p, now, p', Filter(p.sent, (d: Cmd) => TimeDifference(now, d.sentTime) >= d.rto))
  }

  /** The overdue commands stand in front of the queue, in order and with a new time-out; they are
      no longer in transit, and the next time-out is that of the first command left. */
  ghost predicate QueuedAgain(p: Peer, now: u32, p': Peer, over: seq<Cmd>) {
    var rto := (p.rtt + 4 * p.rttVar) % 0x1_0000_0000;
    && |p'.outgoing| == |over| + |p.outgoing| && p'.outgoing[|over|..] == p.outgoing
    && (forall i | 0 <= i < |over| ::
          p'.outgoing[i] == over[i].(rto := rto, rtoLimit := (p.timeoutLimit * rto) % 0x1_0000_0000))
    && p' == p.(sent := p'.sent, outgoing := p'.outgoing, nextTimeout := p'.nextTimeout,
                inTransit := p.inTransit - Carried(over), earliestTimeout := Oldest(p.earliestTimeout, over))
    && (p.sent != [] && p'.sent != [] && TimeDifference(now, p.sent[0].sentTime) >= p.sent[0].rto
        ==> p'.nextTimeout == (p'.sent[0].sentTime + p'.sent[0].rto) % 0x1_0000_0000)
    && (p.sent != [] && TimeDifference(now, p.sent[0].sentTime) < p.sent[0].rto ==> p'.nextTimeout == p.nextTimeout)
  }

  lemma PassedMeans(p: Peer, now: u32, p': Peer)
    requires Passed(p, [], p.sent, [], now, p')
    ensures SentAgain(p, now, p')
  {
    hide TimeDifference, Oldest, Filter, QueuedAgain;
    FilterSame(p.sent, Overdue(now), (d: Cmd) => TimeDifference(now, d.sentTime) >= d.rto);
    FilterSame(p.sent, Pending(now), (d: Cmd) => TimeDifference(now, d.sentTime) < d.rto);
    assert [] + Filter(p.sent, Pending(now)) == Filter(p.sent, Pending(now));
    PassedQueue(p, now, p');
  }

  lemma PassedQueue(p: Peer, now: u32, p': Peer)
    requires Passed(p, [], p.sent, [], now, p')
    ensures QueuedAgain(p, now, p', Filter(p.sent, Overdue(now)))
  {
    hide TimeDifference, Oldest, Filter, Carried, RearmAll, Rearmed;
    var over := Filter(p.sent, Overdue(now));
    assert [] + RearmAll(p, over) + p.outgoing == RearmAll(p, over) + p.outgoing;
    PassedFront(p, over, p'.outgoing);
  }

  lemma PassedFront(p: Peer, over: seq<Cmd>, queue: seq<Cmd>)
    requires queue == RearmAll(p, over) + p.outgoing
    ensures var rto := (p.rtt + 4 * p.rttVar) % 0x1_0000_0000;
      && |queue| == |over| + |p.outgoing| && queue[|over|..] == p.outgoing
      && (forall i | 0 <= i < |over| ::
            queue[i] == over[i].(rto := rto, rtoLimit := (p.timeoutLimit * rto) % 0x1_0000_0000))
  {
    hide Rearmed;
    forall i | 0 <= i < |over|
      ensures var rto := (p.rtt + 4 * p.rttVar) % 0x1_0000_0000;
        queue[i] == over[i].(rto := rto, rtoLimit := (p.timeoutLimit * rto) % 0x1_0000_0000)
    {
      RearmedIs(p, over[i]);
    }
  }

  lemma RearmedIs(p: Peer, c: Cmd)
    ensures var rto := (p.rtt + 4 * p.rttVar) % 0x1_0000_0000;
      Rearmed(p, c) == c.(rto := rto, rtoLimit := (p.timeoutLimit * rto) % 0x1_0000_0000)
  {
  }

  lemma StopsMeans(p: Peer, now: u32, k: nat)
    requires k < |p.sent|
    ensures StopsAt(p, p.earliestTimeout, p.sent, now, k) <==> GivenUpAt(p, now, k)
  {
    hide TimeDifference, Oldest, Filter;
    FilterSame(p.sent[..k + 1], Overdue(now), (d: Cmd) => TimeDifference(now, d.sentTime) >= d.rto);
  }

  /** What check_timeouts does, in terms of the ages of the commands. */
  lemma CheckTimeoutsMeans(p: Peer, now: u32)
    ensures var (p', gaveUp) := CheckTimeouts(p, now);
      (gaveUp <==> GivenUp(p, now)) && (!gaveUp ==> SentAgain(p, now, p'))
  {
    hide StopsAt, GivenUpAt, Passed, SentAgain, TimeoutLoop;
    LoopPasses(p, [], p.sent, [], now);
    forall k | 0 <= k < |p.sent| ensures StopsAt(p, p.earliestTimeout, p.sent, now, k) <==> GivenUpAt(p, now, k) {
      StopsMeans(p, now, k);
    }
    if !CheckTimeouts(p, now).1 { PassedMeans(p, now, CheckTimeouts(p, now).0); }
  }

  // ----- the oldest time -----

  /** A time less than a day ago. */
  predicate Recent(now: u32, t: u32) { t != 0 && Sub32(now, t) < TIME_OVERFLOW }

  lemma OlderIsLess(now: u32, a: u32, b: u32)
    requires Recent(now, a) && Recent(now, b)
    ensures TimeLess(a, b) <==> TimeDifference(now, a) > TimeDifference(now, b)
  {
    var x: int, y: int := Sub32(now, a), Sub32(now, b);
    assert Sub32(a, b) == (y - x) % 0x1_0000_0000;
  }

  /** Among recent times the oldest is the one longest ago. */
  lemma {:induction false} OldestIsOldest(now: u32, first: u32, cs: seq<Cmd>)
    requires first == 0 || Recent(now, first)
    requires forall c | c in cs :: Recent(now, c.sentTime)
    ensures var t := Oldest(first, cs);
      && (t == 0 <==> first == 0 && cs == [])
      && (t == first || exists c :: c in cs && t == c.sentTime)
      && (first != 0 ==> TimeDifference(now, t) >= TimeDifference(now, first))
      && (forall c | c in cs :: TimeDifference(now, t) >= TimeDifference(now, c.sentTime))
    decreases |cs|
  {
    hide TimeDifference, TimeLess, Recent;
    if cs != [] {
      var s := cs[0].sentTime;
      assert cs[0] in cs;
      assert s != 0 by { RecentIsSome(now, s); }
      if first != 0 { OlderIsLess(now, s, first); }
      OldestIsOldest(now, if first == 0 || TimeLess(s, first) then s else first, cs[1..]);
      assert cs == [cs[0]] + cs[1..];
    }
  }

  lemma RecentIsSome(now: u32, t: u32)
    requires Recent(now, t)
    ensures t != 0
  {
  }

  /** Time `t` was found before the pass, or sending one of the first `k + 1` commands, overdue. */
  ghost predicate FoundBy(p: Peer, now: u32, k: nat, t: u32)
    requires k < |p.sent|
  {
    || (t != 0 && t == p.earliestTimeout)
    || exists j | 0 <= j <= k :: t == p.sent[j].sentTime && TimeDifference(now, p.sent[j].sentTime) >= p.sent[j].rto
  }

  lemma OldestFound(p: Peer, now: u32, k: nat)
    requires p.earliestTimeout == 0 || Recent(now, p.earliestTimeout)
    requires forall c | c in p.sent :: Recent(now, c.sentTime)
    requires k < |p.sent| && TimeDifference(now, p.sent[k].sentTime) >= p.sent[k].rto
    ensures var t := Oldest(p.earliestTimeout, Filter(p.sent[..k + 1], (d: Cmd) => TimeDifference(now, d.sentTime) >= d.rto));
      && t != 0 && FoundBy(p, now, k, t)
      && forall s | FoundBy(p, now, k, s) :: TimeDifference(now, t) >= TimeDifference(now, s)
  {
    hide TimeDifference, Recent, Oldest;
    var over := Filter(p.sent[..k + 1], (d: Cmd) => TimeDifference(now, d.sentTime) >= d.rto);
    assert p.sent[k] in p.sent[..k + 1];
    OldestIsOldest(now, p.earliestTimeout, over);
    forall j | 0 <= j <= k && TimeDifference(now, p.sent[j].sentTime) >= p.sent[j].rto ensures p.sent[j] in over {
      assert p.sent[..k + 1][j] == p.sent[j];
    }
  }

  /** When all times are recent, the peer is given up exactly if, by the time an overdue command is
      reached, some time has been found that is too long ago. */
  lemma GivenUpByAge(p: Peer, now: u32)
    requires p.earliestTimeout == 0 || Recent(now, p.earliestTimeout)
    requires forall c | c in p.sent :: Recent(now, c.sentTime)
    ensures CheckTimeouts(p, now).1 <==>
      exists k, t :: 0 <= k < |p.sent| && FoundBy(p, now, k, t)
        && TimeDifference(now, p.sent[k].sentTime) >= p.sent[k].rto
        && (|| TimeDifference(now, t) >= p.timeoutMaximum
            || (TimeDifference(now, t) >= p.timeoutMinimum && p.sent[k].rto >= p.sent[k].rtoLimit))
  {
    hide TimeDifference, Recent, Oldest, Filter, CheckTimeouts, FoundBy, SentAgain;
    CheckTimeoutsMeans(p, now);
    forall k | 0 <= k < |p.sent| && TimeDifference(now, p.sent[k].sentTime) >= p.sent[k].rto
      ensures GivenUpAt(p, now, k) <==>
        exists t :: FoundBy(p, now, k, t)
          && (|| TimeDifference(now, t) >= p.timeoutMaximum
              || (TimeDifference(now, t) >= p.timeoutMinimum && p.sent[k].rto >= p.sent[k].rtoLimit))
    {
      OldestFound(p, now, k);
    }
  }
}
