/** What enet_peer_send queues for a reliable packet, and how the operations of the sender carry
    a property of every queued command along. */
module SenderPackets {
  import opened Options
  import opened SeqNumbers
  import opened EnetSender
  import opened SenderInvariants
  import opened PacketNumbers

  /** Commands that differ only in what an attempt or a time-out changes. */
  predicate Retimed(c: Cmd, d: Cmd) {
    d == c.(attempts := d.attempts, sentTime := d.sentTime, rto := d.rto, rtoLimit := d.rtoLimit)
  }

  ghost predicate Stable(q: Cmd -> bool) {
    forall c, d :: q(c) && Retimed(c, d) ==> q(d)
  }

  ghost predicate AllOf(cs: seq<Cmd>, q: Cmd -> bool) {
    forall c | c in cs :: q(c)
  }

  ghost predicate LiveAll(p: Peer, q: Cmd -> bool) {
    AllOf(p.sent, q) && AllOf(p.outgoing, q)
  }

  lemma {:induction false} DropGroupAll(s: Scan, rseq: u16, useq: u16, q: Cmd -> bool)
    requires s.rest != [] && AllOf(s.kept, q) && AllOf(s.rest, q)
    ensures var t := DropGroup(s, rseq, useq);
      t.kept == s.kept && AllOf(t.rest, q) && t.p.sent == s.p.sent && t.emitted == s.emitted
    decreases |s.rest|
  {
    var s' := s.(p := Release(s.p, s.rest[0].packet), rest := s.rest[1..]);
    if s'.rest != [] && s'.rest[0].rseq == rseq && s'.rest[0].useq == useq { DropGroupAll(s', rseq, useq, q); }
  }

  lemma EmitAll(s: Scan, now: u32, q: Cmd -> bool)
    requires WellFormed(s.p) && s.rest != [] && Stable(q)
    requires AllOf(s.p.sent, q) && AllOf(s.kept, q) && AllOf(s.rest, q) && AllOf(s.emitted, q)
    ensures var t := Emit(s, now);
      AllOf(t.p.sent, q) && AllOf(t.kept, q) && AllOf(t.rest, q) && AllOf(t.emitted, q)
  {
    var c := s.rest[0];
    assert Retimed(c, Attempted(s.p, c, now));
    DropGroupAll(s.(p := s.p.(throttleCounter := (s.p.throttleCounter + THROTTLE_COUNTER) % THROTTLE_SCALE)),
                 c.rseq, c.useq, q);
  }

  /** A property of commands that timing does not touch holds after check_outgoing_commands of
      every queued command and of everything put on the wire, if it held before. */
  lemma {:induction false} ScanAllOf(s: Scan, now: u32, q: Cmd -> bool)
    requires WellFormed(s.p) && Stable(q)
    requires AllOf(s.p.sent, q) && AllOf(s.kept, q) && AllOf(s.rest, q) && AllOf(s.emitted, q)
    ensures LiveAll(PeerOf(ScanAll(s, now)), q) && AllOf(ScanAll(s, now).emitted, q)
    decreases |s.rest|
  {
    hide Stable, Emit, Gate;
    if s.rest != [] {
      var (wait, fl) := Gate(s.p, s.fl, s.rest[0]);
      if wait {
        ScanAllOf(s.(kept := s.kept + [s.rest[0]], rest := s.rest[1..], fl := fl), now, q);
      } else if Fits(s.g, s.rest[0], s.p.mtu) {
        EmitAll(s.(fl := fl), now, q);
        ScanAllOf(Emit(s.(fl := fl), now), now, q);
      }
    }
  }

  lemma {:induction false} TimeoutsAllOf(
    p: Peer, kept: seq<Cmd>, rest: seq<Cmd>, moved: seq<Cmd>, now: u32, q: Cmd -> bool)
    requires Stable(q) && AllOf(kept, q) && AllOf(rest, q) && AllOf(moved, q) && AllOf(p.outgoing, q)
    ensures LiveAll(TimeoutLoop(p, kept, rest, moved, now).0, q)
    decreases |rest|
  {
    if rest != [] {
      var c := rest[0];
      assert Retimed(c, Rearmed(p, c));
      var earliest := Earliest(p, c);
      if !TimedOut(c, now) {
        TimeoutsAllOf(p, kept + [c], rest[1..], moved, now, q);
      } else if !GivesUp(p, earliest, c, now) {
        var p' := p.(earliestTimeout := earliest,
                     inTransit := if c.packet.Some? then p.inTransit - c.len else p.inTransit,
                     nextTimeout := if kept == [] && |rest| > 1 then Deadline(rest[1]) else p.nextTimeout);
        TimeoutsAllOf(p', kept, rest[1..], moved + [Rearmed(p, c)], now, q);
      }
    }
  }

  lemma AckAllOf(p: Peer, rseq: u16, chan: nat, q: Cmd -> bool)
    requires WellFormed(p) && LiveAll(p, q)
    ensures LiveAll(RemoveSentReliable(p, rseq, chan).0, q)
  {
  }

  // ----- sending -----

  /** What setting up reliable commands of one channel turns them into. */
  ghost function Numbered(cs: seq<Cmd>, total: nat): seq<Cmd>
    decreases |cs|
  {
    if cs == [] then []
    else [cs[0].(attempts := 0, sentTime := 0, rto := 0, rtoLimit := 0,
                 rseq := Low16(total + 1), useq := 0, index := total + 1)] + Numbered(cs[1..], total + 1)
  }

  ghost predicate Reliables(p: Peer, cs: seq<Cmd>, ch: nat) {
    && ch < |p.chans|
    && forall k | 0 <= k < |cs| ::
         cs[k].chan == ch && cs[k].reliable && cs[k].packet.Some? && SizeOf(cs[k].kind) + cs[k].len + 12 <= p.mtu
  }

  lemma {:induction false} SetupAllOk(p: Peer, cs: seq<Cmd>, ch: nat)
    requires Inv(p) && Reliables(p, cs, ch) && ch != PEER_CHANNEL
    ensures var p' := SetupAll(p, cs);
      && Inv(p')
      && p'.sent == p.sent && p'.outgoing == p.outgoing + Numbered(cs, p.chans[ch].total)
      && |p'.chans| == |p.chans| && p'.mtu == p.mtu
      && p'.chans[ch].total == p.chans[ch].total + |cs| && p'.chans[ch].newest == p.chans[ch].newest
    decreases |cs|
  {
    hide Inv, Setup;
    if cs != [] {
      SetupFirst(p, cs, ch);
      SetupAllOk(Setup(p, cs[0]), cs[1..], ch);
    }
  }

  lemma SetupFirst(p: Peer, cs: seq<Cmd>, ch: nat)
    requires Inv(p) && Reliables(p, cs, ch) && ch != PEER_CHANNEL && cs != []
    ensures var p1, t := Setup(p, cs[0]), p.chans[ch].total;
      && Inv(p1) && Reliables(p1, cs[1..], ch)
      && p1.sent == p.sent && |p1.chans| == |p.chans| && p1.mtu == p.mtu
      && p1.outgoing + Numbered(cs[1..], t + 1) == p.outgoing + Numbered(cs, t)
      && p1.chans[ch].total == t + 1 && p1.chans[ch].newest == p.chans[ch].newest
  {
    hide Inv, Setup, CanSetup, Numbered;
    assert Inv(p) && WellFormed(p) by { InvWellFormed(p); }
    assert [cs[0]][0] == cs[0];
    MaySetup(p, cs[0], ch);
    SetupKeepsInv(p, cs[0]);
    SetupReliableView(p, cs[0], ch);
    var t := p.chans[ch].total;
    NumberedStep(cs, t);
    Regroup(p.outgoing, Setup(p, cs[0]).outgoing, Numbered(cs, t), Numbered(cs[1..], t + 1));
  }

  lemma NumberedStep(cs: seq<Cmd>, t: nat)
    requires cs != []
    ensures Numbered(cs, t) == [cs[0].(attempts := 0, sentTime := 0, rto := 0, rtoLimit := 0,
                                       rseq := Low16(t + 1), useq := 0, index := t + 1)] + Numbered(cs[1..], t + 1)
  {
  }

  lemma Regroup(a: seq<Cmd>, b: seq<Cmd>, c: seq<Cmd>, d: seq<Cmd>)
    requires |c| > 0 && b == a + [c[0]] && c == [c[0]] + d
    ensures b + d == a + c
  {
  }

  lemma MaySetup(p: Peer, c: Cmd, ch: nat)
    requires WellFormed(p) && Reliables(p, [c], ch) && ch != PEER_CHANNEL
    ensures CanSetup(p, c)
  {
    assert [c][0] == c;
  }

  lemma SetupReliableView(p: Peer, c: Cmd, ch: nat)
    requires Inv(p) && c.chan == ch && c.reliable && ch < |p.chans| && ch != PEER_CHANNEL
    ensures var p1, t := Setup(p, c), p.chans[ch].total;
      && p1.sent == p.sent && |p1.chans| == |p.chans| && p1.mtu == p.mtu
      && p1.outgoing == p.outgoing + [c.(attempts := 0, sentTime := 0, rto := 0, rtoLimit := 0,
                                         rseq := Low16(t + 1), useq := 0, index := t + 1)]
      && p1.chans[ch].total == t + 1 && p1.chans[ch].newest == p.chans[ch].newest
  {
    var t := p.chans[ch].total;
    assert Low16(t + 1) == (Low16(t) + 1) % WRAP;
  }

  lemma {:induction false} NumberedAt(cs: seq<Cmd>, total: nat, t: nat)
    requires t < |cs|
    ensures |Numbered(cs, total)| == |cs|
    ensures Numbered(cs, total)[t] == cs[t].(attempts := 0, sentTime := 0, rto := 0, rtoLimit := 0,
                                             rseq := Low16(total + 1 + t), useq := 0, index := total + 1 + t)
    decreases |cs|
  {
    if t > 0 {
      NumberedAt(cs[1..], total + 1, t - 1);
    } else if |cs| > 1 {
      NumberedAt(cs[1..], total + 1, 0);
    } else {
      assert cs[1..] == [];
    }
  }

  /** Command `c` is `base` made into piece `i` of the packet. */
  ghost predicate IsPiece(base: Cmd, length: nat, limit: nat, c: Cmd, i: nat) {
    && PieceStart(limit, i) < PieceEnd(length, limit, i) <= PieceStart(limit, i) + limit
    && PieceEnd(length, limit, i) - PieceStart(limit, i) < WRAP
    && c == base.(offset := PieceStart(limit, i), len := PieceEnd(length, limit, i) - PieceStart(limit, i),
                  fragment := base.fragment.(number := i))
  }

  /** The fragments enet_peer_send cuts are the pieces of the packet, in order. */
  lemma {:induction false} CutIsPieces(base: Cmd, length: nat, limit: nat, j: nat)
    requires 0 < limit < WRAP && length > limit && j < Parts(length, limit)
    ensures var cs := Cut(base, length, limit, PieceStart(limit, j), j);
      |cs| == Parts(length, limit) - j && forall t | 0 <= t < |cs| :: IsPiece(base, length, limit, cs[t], j + t)
    decreases Parts(length, limit) - j
  {
    hide Parts, IsPiece, PieceEnd;
    CutStep(base, length, limit, j);
    var end := PieceEnd(length, limit, j);
    var cs, rest := Cut(base, length, limit, PieceStart(limit, j), j), Cut(base, length, limit, end, j + 1);
    assert cs == [cs[0]] + rest;
    if j + 1 < Parts(length, limit) {
      CutIsPieces(base, length, limit, j + 1);
    }
    forall t | 0 <= t < |cs| ensures IsPiece(base, length, limit, cs[t], j + t) {
      if t > 0 { assert cs[t] == rest[t - 1] && j + t == (j + 1) + (t - 1); }
    }
  }

  lemma CutStep(base: Cmd, length: nat, limit: nat, j: nat)
    requires 0 < limit < WRAP && length > limit && j < Parts(length, limit)
    ensures var cs := Cut(base, length, limit, PieceStart(limit, j), j);
      && cs != [] && IsPiece(base, length, limit, cs[0], j)
      && cs[1..] == Cut(base, length, limit, PieceEnd(length, limit, j), j + 1)
      && (if j + 1 < Parts(length, limit) then PieceEnd(length, limit, j) == PieceStart(limit, j + 1)
          else cs[1..] == [])
  {
    PieceBounds(length, limit, j);
    CountBounds(length, limit);
    assert (j + 1) * limit == PieceStart(limit, j) + limit;
    if j + 1 < Parts(length, limit) { PieceBounds(length, limit, j + 1); }
  }
}
