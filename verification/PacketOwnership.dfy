/** Who owns a packet. Over every run of the sender a packet's reference count is the number of
    queued commands that point to it, and it is destroyed exactly once, when that number reaches
    zero. */
module PacketOwnership {
  import opened Options
  import opened SeqNumbers
  import opened EnetSender
  import opened SenderInvariants

  ghost function HoldsPacket(id: nat): Cmd -> nat { (c: Cmd) => if c.packet == Some(id) then 1 else 0 }

  /** Number of commands in the peer's lists that point to packet `id`. */
  ghost function Held(p: Peer, id: nat): nat {
    Total(p.sent, HoldsPacket(id)) + Total(p.outgoing, HoldsPacket(id)) + Total(p.sentUnreliable, HoldsPacket(id))
  }

  /** No packet was destroyed twice, and of the packets that were ever queued exactly those with
      no reference left are destroyed. */
  ghost predicate DestroyedOnce(p: Peer) {
    && (forall i, j | 0 <= i < j < |p.destroyed| :: p.destroyed[i] != p.destroyed[j])
    && (forall id: nat :: id in p.destroyed <==> id in p.refs && p.refs[id] == 0)
  }

  /** The counts are right when the commands of `cs`, which are in no list, are counted too. */
  ghost predicate OwnedWith(p: Peer, cs: seq<Cmd>) {
    && (forall id: nat :: RefCount(p.refs, id) == Held(p, id) + Total(cs, HoldsPacket(id)))
    && DestroyedOnce(p)
  }

  ghost predicate Owned(p: Peer) { OwnedWith(p, []) }

  /** Dropping the reference of a command that has left the lists. */
  lemma ReleaseOwned(p: Peer, c: Cmd, cs: seq<Cmd>)
    requires OwnedWith(p, [c] + cs)
    ensures OwnedWith(Release(p, c.packet), cs)
  {
    var p' := Release(p, c.packet);
    forall id: nat ensures RefCount(p'.refs, id) == Held(p', id) + Total(cs, HoldsPacket(id)) {
      TotalSplit(cs, c, [], HoldsPacket(id));
      assert RefCount(p.refs, id) == Held(p, id) + Total([c] + cs, HoldsPacket(id));
    }
    ReleaseDestroys(p, c.packet);
  }

  lemma ReleaseDestroys(p: Peer, id: Option<nat>)
    requires DestroyedOnce(p)
    ensures DestroyedOnce(Release(p, id))
  {
  }

  lemma {:induction false} ReleaseAllOwned(p: Peer, cs: seq<Cmd>, ds: seq<Cmd>)
    requires OwnedWith(p, cs + ds)
    ensures OwnedWith(ReleaseAll(p, cs), ds)
    ensures var p' := ReleaseAll(p, cs); p'.(refs := p.refs, destroyed := p.destroyed) == p
    decreases |cs|
  {
    if cs == [] {
      assert cs + ds == ds;
    } else {
      assert cs + ds == [cs[0]] + (cs[1..] + ds);
      ReleaseOwned(p, cs[0], cs[1..] + ds);
      ReleaseAllOwned(Release(p, cs[0].packet), cs[1..], ds);
    }
  }

  /** Setting up appends one command with the same packet and leaves the packets alone. */
  lemma SetupView(p: Peer, c: Cmd) returns (d: Cmd)
    requires c.chan == PEER_CHANNEL || c.chan < |p.chans|
    ensures var p' := Setup(p, c);
      && p'.outgoing == p.outgoing + [d] && d.packet == c.packet
      && p'.sent == p.sent && p'.sentUnreliable == p.sentUnreliable && p'.refs == p.refs && p'.destroyed == p.destroyed
  {
    d := Setup(p, c).outgoing[|p.outgoing|];
  }

  /** Setting up a command whose reference was taken beforehand. */
  lemma SetupOwned(p: Peer, c: Cmd, cs: seq<Cmd>)
    requires c.chan == PEER_CHANNEL || c.chan < |p.chans|
    requires OwnedWith(p, [c] + cs)
    ensures OwnedWith(Setup(p, c), cs)
  {
    hide Setup, Total;
    var p' := Setup(p, c);
    var d := SetupView(p, c);
    forall id: nat ensures RefCount(p'.refs, id) == Held(p', id) + Total(cs, HoldsPacket(id)) {
      TotalSplit(cs, c, [], HoldsPacket(id));
      TotalSplit(p.outgoing, d, [], HoldsPacket(id));
      assert RefCount(p.refs, id) == Held(p, id) + Total([c] + cs, HoldsPacket(id));
    }
  }

  lemma QueueOwned(p: Peer, c: Cmd)
    requires c.chan == PEER_CHANNEL || c.chan < |p.chans|
    requires Owned(p) && (c.packet.Some? ==> c.packet.value !in p.destroyed)
    ensures Owned(Queue(p, c))
  {
    var q := p.(refs := Retain(p.refs, c.packet));
    forall id: nat ensures RefCount(q.refs, id) == Held(q, id) + Total([c] + [], HoldsPacket(id)) {
      TotalSplit([], c, [], HoldsPacket(id));
      assert RefCount(p.refs, id) == Held(p, id) + Total([], HoldsPacket(id));
    }
    SetupOwned(q, c, []);
  }

  lemma {:induction false} SetupAllOwned(p: Peer, cs: seq<Cmd>)
    requires forall k | 0 <= k < |cs| :: cs[k].chan < |p.chans|
    requires OwnedWith(p, cs)
    ensures Owned(SetupAll(p, cs))
    decreases |cs|
  {
    if cs != [] {
      assert cs == [cs[0]] + cs[1..];
      SetupOwned(p, cs[0], cs[1..]);
      SetupAllOwned(Setup(p, cs[0]), cs[1..]);
    }
  }

  lemma {:induction false} CutHolds(base: Cmd, length: nat, limit: nat, offset: nat, number: nat, id: nat)
    requires 0 < limit < WRAP
    ensures Total(Cut(base, length, limit, offset, number), HoldsPacket(id))
         == if base.packet == Some(id) then |Cut(base, length, limit, offset, number)| else 0
    decreases length - offset
  {
    if offset < length {
      var len := if length - offset < limit then length - offset else limit;
      CutHolds(base, length, limit, offset + len, number + 1, id);
      var cs := Cut(base, length, limit, offset, number);
      assert cs[1..] == Cut(base, length, limit, offset + len, number + 1);
    }
  }

  lemma FragmentsOwned(p: Peer, chan: nat, rq: Request, limit: nat)
    requires Owned(p) && rq.id !in p.destroyed && chan < |p.chans| && 0 < limit < WRAP && rq.length > 0
    ensures var fs := FragmentsOf(p, chan, rq, limit);
      OwnedWith(p.(refs := p.refs[rq.id := RefCount(p.refs, rq.id) + |fs|]), fs)
  {
    hide FragmentsOf, Total;
    var fs := FragmentsOf(p, chan, rq, limit);
    var q := p.(refs := p.refs[rq.id := RefCount(p.refs, rq.id) + |fs|]);
    SomeFragments(p, chan, rq, limit);
    forall id: nat ensures RefCount(q.refs, id) == Held(q, id) + Total(fs, HoldsPacket(id)) {
      FragmentsHold(p, chan, rq, limit, id);
      assert RefCount(p.refs, id) == Held(p, id) + Total([], HoldsPacket(id));
      NothingHeld(id);
    }
  }

  lemma SomeFragments(p: Peer, chan: nat, rq: Request, limit: nat)
    requires chan < |p.chans| && 0 < limit < WRAP && rq.length > 0
    ensures |FragmentsOf(p, chan, rq, limit)| > 0
  {
  }

  lemma NothingHeld(id: nat)
    ensures Total([], HoldsPacket(id)) == 0
  {
  }

  /** enet_peer_send counts one reference for each command it queues. */
  lemma SendOwned(p: Peer, chan: nat, rq: Request, checksum: bool, maximumPacketSize: nat)
    requires 576 <= p.mtu < WRAP && Owned(p) && rq.id !in p.destroyed
    requires Send(p, chan, rq, checksum, maximumPacketSize).Some?
    ensures Owned(Send(p, chan, rq, checksum, maximumPacketSize).value)
  {
    hide Owned, OwnedWith, FragmentsOf, SetupAll, Queue, FragmentCount;
    var limit := FragmentLimit(p.mtu, checksum);
    if rq.length > limit {
      var fs := FragmentsOf(p, chan, rq, limit);
      CutChannels(p, chan, rq, limit);
      FragmentsOwned(p, chan, rq, limit);
      SetupAllOwned(p.(refs := p.refs[rq.id := RefCount(p.refs, rq.id) + |fs|]), fs);
    } else {
      QueueOwned(p, WholeOf(p, chan, rq));
    }
  }

  lemma FragmentsHold(p: Peer, chan: nat, rq: Request, limit: nat, id: nat)
    requires chan < |p.chans| && 0 < limit < WRAP
    ensures var fs := FragmentsOf(p, chan, rq, limit);
      Total(fs, HoldsPacket(id)) == if rq.id == id then |fs| else 0
  {
    var ch := p.chans[chan];
    var unreliable := !rq.reliable && rq.unreliableFragment && ch.outUnrel < WRAP - 1;
    var start := ((if unreliable then ch.outUnrel else ch.outSeq) + 1) % WRAP;
    var base := Blank(if unreliable then SendUnreliableFragment else SendFragment, chan, !unreliable, rq);
    CutHolds(base.(fragment := Fragment(start, FragmentCount(rq.length, limit), 0, rq.length)),
             rq.length, limit, 0, 0, id);
  }

  // ----- the walk over the queue -----

  lemma PassOwned(s: Scan, p': Peer, rest': seq<Cmd>)
    requires Owned(PeerOf(s)) && s.rest != [] && rest' == s.rest[1..]
    requires p'.refs == s.p.refs && p'.destroyed == s.p.destroyed
    requires
      || (exists c: Cmd :: c.packet == s.rest[0].packet && p'.sent == s.p.sent + [c] && p'.sentUnreliable == s.p.sentUnreliable)
      || (exists c: Cmd :: c.packet == s.rest[0].packet && p'.sent == s.p.sent && p'.sentUnreliable == s.p.sentUnreliable + [c])
      || (s.rest[0].packet.None? && p'.sent == s.p.sent && p'.sentUnreliable == s.p.sentUnreliable)
    ensures Owned(p'.(outgoing := s.kept + rest'))
  {
    var h := s.rest[0];
    var q := p'.(outgoing := s.kept + rest');
    assert PeerOf(s).outgoing == s.kept + [h] + rest';
    forall id: nat ensures RefCount(q.refs, id) == Held(q, id) + Total([], HoldsPacket(id)) {
      TotalSplit(s.kept, h, rest', HoldsPacket(id));
      assert RefCount(s.p.refs, id) == Held(PeerOf(s), id) + Total([], HoldsPacket(id));
      if c: Cmd :| c.packet == h.packet && p'.sent == s.p.sent + [c] && p'.sentUnreliable == s.p.sentUnreliable {
        TotalSplit(s.p.sent, c, [], HoldsPacket(id));
      } else if c: Cmd :| c.packet == h.packet && p'.sentUnreliable == s.p.sentUnreliable + [c] && p'.sent == s.p.sent {
        TotalSplit(s.p.sentUnreliable, c, [], HoldsPacket(id));
      }
    }
  }

  lemma {:induction false} DropGroupOwned(s: Scan, rseq: u16, useq: u16)
    requires Owned(PeerOf(s)) && s.rest != []
    ensures Owned(PeerOf(DropGroup(s, rseq, useq)))
    decreases |s.rest|
  {
    var h, rest' := s.rest[0], s.rest[1..];
    var q := s.p.(outgoing := s.kept + rest');
    assert PeerOf(s).outgoing == s.kept + [h] + rest';
    forall id: nat ensures RefCount(q.refs, id) == Held(q, id) + Total([h] + [], HoldsPacket(id)) {
      TotalSplit(s.kept, h, rest', HoldsPacket(id));
      TotalSplit([], h, [], HoldsPacket(id));
      assert RefCount(s.p.refs, id) == Held(PeerOf(s), id) + Total([], HoldsPacket(id));
    }
    ReleaseOwned(q, h, []);
    var s' := s.(p := Release(s.p, h.packet), rest := rest');
    assert PeerOf(s') == Release(q, h.packet);
    if rest' != [] && rest'[0].rseq == rseq && rest'[0].useq == useq { DropGroupOwned(s', rseq, useq); }
  }

  lemma AttemptMoves(p: Peer, c: Cmd, now: u32)
    requires WellFormed(p)
    ensures var p' := Attempt(p, c, now);
      && p'.refs == p.refs && p'.destroyed == p.destroyed && p'.sentUnreliable == p.sentUnreliable
      && p'.sent == p.sent + [Attempted(p, c, now)] && Attempted(p, c, now).packet == c.packet
  {
  }

  lemma EmitOwned(s: Scan, now: u32)
    requires WellFormed(s.p) && Owned(PeerOf(s)) && s.rest != []
    ensures Owned(PeerOf(Emit(s, now)))
  {
    hide Owned, Attempt, Attempted, DropGroup;
    var c := s.rest[0];
    var counter := (s.p.throttleCounter + THROTTLE_COUNTER) % THROTTLE_SCALE;
    var s1 := s.(p := s.p.(throttleCounter := counter));
    OwnedIgnores(PeerOf(s), PeerOf(s1));
    AttemptMoves(s.p, c, now);
    if c.reliable {
      PassOwned(s, Attempt(s.p, c, now), s.rest[1..]);
    } else if c.packet.Some? && c.offset == 0 && !c.unthrottled {
      if counter > s.p.throttle {
        DropGroupOwned(s1, c.rseq, c.useq);
      } else {
        PassOwned(s1, s1.p.(sentUnreliable := s1.p.sentUnreliable + [c]), s.rest[1..]);
      }
    } else if c.packet.Some? {
      PassOwned(s, s.p.(sentUnreliable := s.p.sentUnreliable + [c]), s.rest[1..]);
    } else {
      PassOwned(s, s.p, s.rest[1..]);
    }
  }

  lemma {:induction false} ScanOwned(s: Scan, now: u32)
    requires WellFormed(s.p) && Owned(PeerOf(s))
    ensures Owned(PeerOf(ScanAll(s, now)))
    decreases |s.rest|
  {
    hide Owned, Emit, Gate;
    if s.rest != [] {
      var (wait, fl) := Gate(s.p, s.fl, s.rest[0]);
      if wait {
        var s' := s.(kept := s.kept + [s.rest[0]], rest := s.rest[1..], fl := fl);
        assert PeerOf(s') == PeerOf(s) by { assert s'.kept + s'.rest == s.kept + s.rest; }
        ScanOwned(s', now);
      } else if Fits(s.g, s.rest[0], s.p.mtu) {
        assert PeerOf(s.(fl := fl)) == PeerOf(s);
        EmitOwned(s.(fl := fl), now);
        ScanOwned(Emit(s.(fl := fl), now), now);
      } else {
        assert PeerOf(s.(fl := fl, g := s.g.(more := true))) == PeerOf(s);
      }
    }
  }

  // ----- time-outs, acknowledgements, resets -----

  lemma {:induction false} TimeoutsOwned(p: Peer, kept: seq<Cmd>, rest: seq<Cmd>, moved: seq<Cmd>, now: u32)
    requires Owned(Midway(p, kept, rest, moved))
    ensures Owned(TimeoutLoop(p, kept, rest, moved, now).0)
    decreases |rest|
  {
    hide Owned, TimeoutLoop, TimedOut, GivesUp, Earliest, Deadline, Rearmed, PutBack;
    var mid := Midway(p, kept, rest, moved);
    if rest == [] {
      EndOfLoop(p, kept, rest, moved, now);
    } else if !TimedOut(rest[0], now) {
      assert kept + rest == kept + [rest[0]] + rest[1..];
      PassedOver(p, kept, rest, moved, now);
      TimeoutsOwned(p, kept + [rest[0]], rest[1..], moved, now);
    } else {
      var c := rest[0];
      var earliest := Earliest(p, c);
      TimedOutStep(p, kept, rest, moved, now);
      if GivesUp(p, earliest, c, now) {
        OwnedIgnores(mid, mid.(earliestTimeout := earliest));
      } else {
        var next := if kept == [] && |rest| > 1 then Deadline(rest[1]) else p.nextTimeout;
        TimeoutStep(p, kept, rest, moved, earliest, next);
        PutBackOwned(mid, |kept|, |moved|, earliest, next);
        var p' := p.(earliestTimeout := earliest,
                     inTransit := if c.packet.Some? then p.inTransit - c.len else p.inTransit,
                     nextTimeout := next);
        TimeoutsOwned(p', kept, rest[1..], moved + [Rearmed(p, c)], now);
      }
    }
  }

  lemma OwnedIgnores(p: Peer, p': Peer)
    requires Owned(p) && p'.sent == p.sent && p'.outgoing == p.outgoing && p'.sentUnreliable == p.sentUnreliable
    requires p'.refs == p.refs && p'.destroyed == p.destroyed
    ensures Owned(p')
  {
    assert forall id: nat :: Held(p', id) == Held(p, id);
  }

  lemma PutBackOwned(p: Peer, k: nat, m: nat, earliest: u32, next: u32)
    requires Owned(p) && k < |p.sent| && m <= |p.outgoing|
    ensures Owned(PutBack(p, k, m, earliest, next))
  {
    var p' := PutBack(p, k, m, earliest, next);
    forall id: nat ensures Held(p', id) == Held(p, id) {
      TotalsAfterPutBack(p, k, m, HoldsPacket(id));
    }
  }

  lemma AckOwned(p: Peer, rseq: u16, chan: nat)
    requires WellFormed(p) && Owned(p)
    ensures Owned(RemoveSentReliable(p, rseq, chan).0)
  {
    hide Settle, Owned;
    var i := FindSent(p.sent, rseq, chan, 0);
    var j := FindAttempted(p.outgoing, rseq, chan, 0);
    if i.Some? {
      SettleOwned(p, true, i.value, rseq, chan);
    } else if j.Some? {
      SettleOwned(p, false, j.value, rseq, chan);
    }
  }

  lemma DroppedOwned(p: Peer, inSent: bool, k: nat)
    requires Owned(p) && if inSent then k < |p.sent| else k < |p.outgoing|
    ensures OwnedWith(Dropped(p, inSent, k), [if inSent then p.sent[k] else p.outgoing[k]] + [])
  {
    var c, m := if inSent then p.sent[k] else p.outgoing[k], Dropped(p, inSent, k);
    forall id: nat ensures RefCount(m.refs, id) == Held(m, id) + Total([c] + [], HoldsPacket(id)) {
      TotalsAfterDropped(p, inSent, k, HoldsPacket(id));
      TotalSplit([], c, [], HoldsPacket(id));
      assert RefCount(p.refs, id) == Held(p, id) + Total([], HoldsPacket(id));
    }
  }

  /** The window bookkeeping of an acknowledged command leaves the lists and only releases. */
  lemma SettleReleases(m: Peer, c: Cmd, rseq: u16, chan: nat, wasSent: bool)
    requires WellFormed(m)
    ensures var s, r := Settle(m, c, rseq, chan, wasSent), Release(m, c.packet);
      && s.sent == r.sent && s.outgoing == r.outgoing && s.sentUnreliable == r.sentUnreliable
      && s.refs == r.refs && s.destroyed == r.destroyed
  {
  }

  lemma SettleOwned(p: Peer, inSent: bool, k: nat, rseq: u16, chan: nat)
    requires WellFormed(p) && Owned(p) && if inSent then k < |p.sent| else k < |p.outgoing|
    ensures var c := if inSent then p.sent[k] else p.outgoing[k];
      Owned(Settle(Dropped(p, inSent, k), c, rseq, chan, inSent))
  {
    hide Owned, OwnedWith, Settle, Release;
    var c, m := if inSent then p.sent[k] else p.outgoing[k], Dropped(p, inSent, k);
    DroppedOwned(p, inSent, k);
    ReleasedIsOwned(m, c);
    SettleReleases(m, c, rseq, chan, inSent);
    OwnedIgnores(Release(m, c.packet), Settle(m, c, rseq, chan, inSent));
  }

  lemma ReleasedIsOwned(m: Peer, c: Cmd)
    requires OwnedWith(m, [c] + [])
    ensures Owned(Release(m, c.packet))
  {
    ReleaseOwned(m, c, []);
  }

  lemma SentUnreliableOwned(p: Peer)
    requires Owned(p)
    ensures Owned(RemoveSentUnreliable(p))
  {
    var q := p.(sentUnreliable := []);
    assert p.sentUnreliable + [] == p.sentUnreliable;
    forall id: nat ensures RefCount(q.refs, id) == Held(q, id) + Total(p.sentUnreliable + [], HoldsPacket(id)) {
      assert RefCount(p.refs, id) == Held(p, id) + Total([], HoldsPacket(id));
    }
    ReleaseAllOwned(q, p.sentUnreliable, []);
  }

  /** A reset gives up every packet: whatever was ever queued has then been destroyed, once. */
  lemma ResetDestroysAll(p: Peer)
    requires Owned(p)
    ensures var p' := ResetQueues(p);
      && DestroyedOnce(p')
      && (forall id: nat | id in p'.refs :: p'.refs[id] == 0 && id in p'.destroyed)
  {
    var q := p.(sent := [], sentUnreliable := [], outgoing := []);
    var all := p.sent + (p.sentUnreliable + (p.outgoing + []));
    forall id: nat ensures RefCount(q.refs, id) == Held(q, id) + Total(all, HoldsPacket(id)) {
      TotalAppend(p.sent, p.sentUnreliable + (p.outgoing + []), HoldsPacket(id));
      TotalAppend(p.sentUnreliable, p.outgoing + [], HoldsPacket(id));
      TotalAppend(p.outgoing, [], HoldsPacket(id));
      assert RefCount(p.refs, id) == Held(p, id) + Total([], HoldsPacket(id));
    }
    ReleaseAllOwned(q, p.sent, p.sentUnreliable + (p.outgoing + []));
    var q1 := ReleaseAll(q, p.sent);
    ReleaseAllOwned(q1, p.sentUnreliable, p.outgoing + []);
    var q2 := ReleaseAll(q1, p.sentUnreliable);
    ReleaseAllOwned(q2, p.outgoing, []);
    ResetIsReleaseAll(p);
    var p' := ReleaseAll(q2, p.outgoing);
    forall id: nat | id in p'.refs ensures p'.refs[id] == 0 {
      assert RefCount(p'.refs, id) == Held(p', id) + Total([], HoldsPacket(id));
    }
  }

  lemma ResetIsReleaseAll(p: Peer)
    ensures var q := p.(sent := [], sentUnreliable := [], outgoing := []);
      var p' := ReleaseAll(ReleaseAll(ReleaseAll(q, p.sent), p.sentUnreliable), p.outgoing);
      ResetQueues(p).refs == p'.refs && ResetQueues(p).destroyed == p'.destroyed
  {
    var q := p.(sent := [], sentUnreliable := [], outgoing := []);
    ReleaseAllSame(p.(sent := []), q, p.sent);
    var p1, q1 := ReleaseAll(p.(sent := []), p.sent), ReleaseAll(q, p.sent);
    ReleaseAllSame(p1.(sentUnreliable := []), q1, p.sentUnreliable);
    var p2, q2 := ReleaseAll(p1.(sentUnreliable := []), p.sentUnreliable), ReleaseAll(q1, p.sentUnreliable);
    ReleaseAllSame(p2.(outgoing := []), q2, p.outgoing);
  }

  lemma {:induction false} ReleaseAllSame(p: Peer, q: Peer, cs: seq<Cmd>)
    requires p.refs == q.refs && p.destroyed == q.destroyed
    ensures ReleaseAll(p, cs).refs == ReleaseAll(q, cs).refs
    ensures ReleaseAll(p, cs).destroyed == ReleaseAll(q, cs).destroyed
    decreases |cs|
  {
    if cs != [] { ReleaseAllSame(Release(p, cs[0].packet), Release(q, cs[0].packet), cs[1..]); }
  }
}
