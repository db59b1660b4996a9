/** The invariant of EnetDelivery and the theorem that in every run the packets handed over are
    the first packets sent. */
module DeliveryProof {
  import opened Options
  import opened SeqNumbers
  import opened EnetSender
  import S = SenderInvariants
  import opened SenderPackets
  import opened PacketNumbers
  import R = EnetReceiver
  import RI = ReceiverInvariants
  import opened EnetDelivery

  // ----- genuine commands and copies -----

  /** Command `c` is a part of one of the first `n` packets, with the right slice and number. */
  ghost predicate Genuine(e: Env, c: Cmd)
    requires ValidEnv(e)
  {
    && c.reliable && c.chan == 0 && c.packet.Some? && c.packet.value < |e.pkts|
    && var k := c.packet.value;
       var pkt := e.pkts[k];
       if |pkt| <= Limit(e) then
         && c.kind == SendReliable && c.offset == 0 && c.len == |pkt| && c.fragment == NO_FRAGMENT
         && c.index == Number(e.pkts, Limit(e), k, 0)
       else
         var j := c.fragment.number;
         && c.kind == SendFragment && j < Parts(|pkt|, Limit(e))
         && c.index == Number(e.pkts, Limit(e), k, j)
         && PieceStart(Limit(e), j) < PieceEnd(|pkt|, Limit(e), j)
         && c.offset == PieceStart(Limit(e), j) && c.offset + c.len == PieceEnd(|pkt|, Limit(e), j)
         && c.fragment == Fragment(Low16(Number(e.pkts, Limit(e), k, 0)), Parts(|pkt|, Limit(e)), j, |pkt|)
  }

  ghost function Expected(e: Env): Cmd -> bool
    requires ValidEnv(e)
  {
    (c: Cmd) => c.chan == PEER_CHANNEL || Genuine(e, c)
  }

  lemma ExpectedIsStable(e: Env)
    requires ValidEnv(e)
    ensures Stable(Expected(e))
  {
    hide Genuine;
    forall c, d | Expected(e)(c) && Retimed(c, d) ensures Expected(e)(d) {
      if c.chan != PEER_CHANNEL { GenuineRetimed(e, c, d); }
    }
  }

  lemma GenuineRetimed(e: Env, c: Cmd, d: Cmd)
    requires ValidEnv(e) && Genuine(e, c) && Retimed(c, d)
    ensures Genuine(e, d)
  {
  }

  /** The copy of part `j` of packet `k`. */
  ghost function TrueCopy(e: Env, k: nat, j: nat): Copy
    requires ValidEnv(e) && k < |e.pkts| && j < Parts(|e.pkts[k]|, Limit(e))
  {
    Copy(k, j, Low16(Number(e.pkts, Limit(e), k, j)),
      if |e.pkts[k]| <= Limit(e) then Whole(e.pkts[k]) else Part(RI.FragmentFor(e.pkts, Limit(e), k, j)))
  }

  ghost predicate GenuineCopy(e: Env, c: Copy)
    requires ValidEnv(e)
  {
    && c.packet < |e.pkts| && c.part < Parts(|e.pkts[c.packet]|, Limit(e))
    && c == TrueCopy(e, c.packet, c.part)
  }

  lemma OnWireIsGenuine(e: Env, c: Cmd)
    requires ValidEnv(e) && Genuine(e, c) && c.rseq == Low16(c.index)
    ensures OnWire(e, c).Some? && GenuineCopy(e, OnWire(e, c).value)
    ensures var w := OnWire(e, c).value; c.index == Number(e.pkts, Limit(e), w.packet, w.part)
  {
    var pkt := e.pkts[c.packet.value];
    if |pkt| > Limit(e) {
      PieceBounds(|pkt|, Limit(e), c.fragment.number);
    } else {
      assert pkt[0..|pkt|] == pkt;
    }
  }

  // ----- the invariant -----

  ghost function Index(e: Env, k: nat, j: nat): nat
    requires ValidEnv(e) && k < |e.pkts|
  {
    Number(e.pkts, Limit(e), k, j)
  }

  ghost predicate SenderOk(e: Env, s: System)
    requires ValidEnv(e)
  {
    && S.Inv(s.p)
    && |s.p.chans| == 1 && s.p.mtu == e.mtu && s.queued <= |e.pkts|
    && s.p.chans[0].total == End(e.pkts, Limit(e), s.queued)
    && LiveAll(s.p, Expected(e))
  }

  ghost function Newest(s: System): nat
    requires |s.p.chans| == 1
  {
    s.p.chans[0].newest
  }

  /** The window of the receiver's current number. */
  ghost function Base(e: Env, s: System): nat
    requires ValidEnv(e)
  {
    WindowOf(ReceiverNumber(e, s))
  }

  ghost predicate NetOk(e: Env, s: System)
    requires ValidEnv(e) && |s.p.chans| == 1
  {
    forall c | c in s.net :: GenuineCopy(e, c) && Index(e, c.packet, c.part) <= Newest(s)
  }

  ghost predicate ReceiverOk(e: Env, s: System, ks: seq<nat>)
    requires ValidEnv(e)
  {
    && RI.Inv(e.pkts, Limit(e), s.r, ks, Taken(s))
    && Taken(s) <= |e.pkts|
    && s.received + s.r.dispatched == e.pkts[..Taken(s)]
    && (forall k: nat :: RI.Touched(ks, Taken(s), k) ==> k < s.queued)
  }

  ghost predicate AcksOk(e: Env, s: System, ks: seq<nat>)
    requires ValidEnv(e) && |s.p.chans| == 1 && |ks| == |s.r.incoming|
  {
    forall c | c in s.acks ::
      && GenuineCopy(e, c) && Index(e, c.packet, c.part) <= Newest(s)
      && WindowOf(Index(e, c.packet, c.part)) < Base(e, s) + 7
      && RI.Received(s.r, ks, Taken(s), c.packet, c.part)
  }

  /** An attempted part that is no longer outstanding has arrived. */
  ghost predicate NothingLost(e: Env, s: System, ks: seq<nat>)
    requires ValidEnv(e) && |s.p.chans| == 1 && |ks| == |s.r.incoming|
  {
    forall k: nat, j: nat | k < |e.pkts| && j < Parts(|e.pkts[k]|, Limit(e)) && Index(e, k, j) <= Newest(s) ::
      S.Outstanding(s.p, 0, Index(e, k, j)) > 0 || RI.Received(s.r, ks, Taken(s), k, j)
  }

  ghost predicate Inv(e: Env, s: System, ks: seq<nat>)
    requires ValidEnv(e)
  {
    && SenderOk(e, s)
    && ReceiverOk(e, s, ks)
    && |ks| == |s.r.incoming|
    && NetOk(e, s)
    && AcksOk(e, s, ks)
    && NothingLost(e, s, ks)
    && S.HeldBack(s.p, 0, Base(e, s))
  }

  lemma InitialInv(e: Env, s: System)
    requires ValidEnv(e) && Initial(e, s)
    ensures Inv(e, s, [])
  {
    hide S.Outstanding, S.Inv, RI.Inv, LiveAll;
    assert e.pkts[..0] == [];
    InitialSender(e, s);
    InitialReceiver(e, s);
  }

  lemma InitialSender(e: Env, s: System)
    requires ValidEnv(e) && Initial(e, s)
    ensures S.Inv(s.p) && LiveAll(s.p, Expected(e))
  {
    forall ch, i: nat | 0 <= ch < |s.p.chans|
      ensures S.Total(s.p.sent, S.IsIndex(ch, i)) + S.Total(s.p.outgoing, S.IsIndex(ch, i)) <= 1 {}
    assert S.Shape(s.p) && S.Order(s.p.outgoing) && S.WindowCounts(s.p) && S.Unique(s.p);
  }

  lemma InitialReceiver(e: Env, s: System)
    requires ValidEnv(e) && Initial(e, s)
    ensures RI.Inv(e.pkts, Limit(e), s.r, [], 0)
  {
  }

  /** An outstanding attempted number is at most six windows behind the newest. */
  lemma OutstandingIsNear(p: Peer, i: nat)
    requires S.Inv(p) && |p.chans| == 1 && S.Outstanding(p, 0, i) > 0 && i <= p.chans[0].newest
    ensures WindowOf(p.chans[0].newest) <= WindowOf(i) + 6
  {
    if S.Total(p.sent, S.IsIndex(0, i)) > 0 {
      var k := S.TotalWitness(p.sent, S.IsIndex(0, i));
      assert S.CmdOk(p, p.sent[k]);
    } else {
      var k := S.TotalWitness(p.outgoing, S.IsIndex(0, i));
      assert S.CmdOk(p, p.outgoing[k]);
    }
  }

  // ----- steps of the sender -----

  /** A change of the sender that forgets no outstanding number and adds only genuine commands. */
  ghost predicate SenderChange(e: Env, s: System, s': System)
    requires ValidEnv(e) && |s.p.chans| == 1
  {
    && SenderOk(e, s')
    && s'.r == s.r && s'.received == s.received && s'.acks == s.acks && s'.queued >= s.queued
    && |s'.p.chans| == 1 && Newest(s') >= Newest(s)
    && NetOk(e, s')
    && (forall i: nat | i <= Newest(s) :: S.Outstanding(s'.p, 0, i) == S.Outstanding(s.p, 0, i))
    && (forall i: nat | Newest(s) < i <= Newest(s') :: S.Outstanding(s'.p, 0, i) > 0)
    && WindowOf(Newest(s')) <= Base(e, s) + 8
  }

  lemma SenderChangeKeepsInv(e: Env, s: System, s': System, ks: seq<nat>)
    requires ValidEnv(e) && Inv(e, s, ks) && SenderChange(e, s, s')
    ensures Inv(e, s', ks)
  {
    hide S.Inv, S.Outstanding, RI.Inv, RI.Received, GenuineCopy, LiveAll;
  }

  /** The commands of one packet, as enet_peer_send numbers them. */
  ghost predicate Cuts(e: Env, k: nat, total: nat, p: Peer, cs: seq<Cmd>)
    requires ValidEnv(e) && k < |e.pkts|
  {
    && Reliables(p, cs, 0)
    && |cs| == Parts(|e.pkts[k]|, Limit(e))
    && |Numbered(cs, total)| == |cs|
    && (forall t | 0 <= t < |cs| :: Genuine(e, Numbered(cs, total)[t]))
  }

  ghost function FirstFragment(p: Peer, rq: Request, limit: nat): Cmd
    requires |p.chans| > 0 && limit > 0
  {
    Blank(SendFragment, 0, true, rq).(
      fragment := Fragment((p.chans[0].outSeq + 1) % WRAP, FragmentCount(rq.length, limit), 0, rq.length))
  }

  lemma FragmentsAre(p: Peer, rq: Request, limit: nat)
    requires |p.chans| > 0 && 0 < limit < WRAP && rq.reliable
    ensures FragmentsOf(p, 0, rq, limit) == Cut(FirstFragment(p, rq, limit), rq.length, limit, PieceStart(limit, 0), 0)
  {
    assert PieceStart(limit, 0) == 0;
  }

  lemma SentFragments(e: Env, p: Peer, k: nat, rq: Request) returns (cs: seq<Cmd>)
    requires ValidEnv(e) && k < |e.pkts| && |p.chans| > 0 && p.mtu == e.mtu
    requires p.chans[0].outSeq == Low16(p.chans[0].total) && p.chans[0].total == End(e.pkts, Limit(e), k)
    requires rq.id == k && rq.length == |e.pkts[k]| && rq.reliable && rq.length > Limit(e)
    ensures cs == FragmentsOf(p, 0, rq, Limit(e)) && Cuts(e, k, p.chans[0].total, p, cs)
  {
    hide FragmentsOf, Cut, IsPiece, Genuine, Parts, Numbered, Reliables, End, Low16, PieceEnd, PieceStart;
    var limit, total := Limit(e), p.chans[0].total;
    cs := FragmentsOf(p, 0, rq, limit);
    var base := FirstFragment(p, rq, limit);
    FragmentsAre(p, rq, limit);
    CutIsPieces(base, rq.length, limit, 0);
    NextLow(total);
    assert forall t | 0 <= t < |cs| :: IsPiece(base, rq.length, limit, cs[t], 0 + t);
    PiecesAreGenuine(e, base, cs, total, k);
    PiecesAreReliable(p, base, rq.length, limit, cs);
  }

  lemma NextLow(n: nat)
    ensures Low16(n + 1) == (Low16(n) + 1) % WRAP
  {
  }

  lemma PiecesAreGenuine(e: Env, base: Cmd, cs: seq<Cmd>, total: nat, k: nat)
    requires ValidEnv(e) && k < |e.pkts| && |e.pkts[k]| > Limit(e) && total == End(e.pkts, Limit(e), k)
    requires 0 < |cs| <= Parts(|e.pkts[k]|, Limit(e))
    requires forall t | 0 <= t < |cs| :: IsPiece(base, |e.pkts[k]|, Limit(e), cs[t], t)
    requires base.kind == SendFragment && base.chan == 0 && base.reliable && base.packet == Some(k)
    requires base.fragment == Fragment(Low16(total + 1), Parts(|e.pkts[k]|, Limit(e)), 0, |e.pkts[k]|)
    ensures |Numbered(cs, total)| == |cs| && forall t | 0 <= t < |cs| :: Genuine(e, Numbered(cs, total)[t])
  {
    hide IsPiece, Genuine, Parts, Numbered, End, Limit, Low16;
    NumberedAt(cs, total, 0);
    forall t | 0 <= t < |cs| ensures Genuine(e, Numbered(cs, total)[t]) { PieceIsGenuine(e, base, cs, total, k, t); }
  }

  lemma PiecesAreReliable(p: Peer, base: Cmd, length: nat, limit: nat, cs: seq<Cmd>)
    requires |p.chans| > 0 && limit + 36 <= p.mtu
    requires base.chan == 0 && base.reliable && base.packet.Some? && base.kind == SendFragment
    requires forall t | 0 <= t < |cs| :: IsPiece(base, length, limit, cs[t], t)
    ensures Reliables(p, cs, 0)
  {
    forall t | 0 <= t < |cs|
      ensures cs[t].chan == 0 && cs[t].reliable && cs[t].packet.Some? && SizeOf(cs[t].kind) + cs[t].len + 12 <= p.mtu
    {
      assert IsPiece(base, length, limit, cs[t], t);
    }
  }

  lemma PieceIsGenuine(e: Env, base: Cmd, cs: seq<Cmd>, total: nat, k: nat, t: nat)
    requires ValidEnv(e) && k < |e.pkts| && |e.pkts[k]| > Limit(e) && t < |cs|
    requires t < Parts(|e.pkts[k]|, Limit(e)) && total == End(e.pkts, Limit(e), k)
    requires IsPiece(base, |e.pkts[k]|, Limit(e), cs[t], t)
    requires base.kind == SendFragment && base.chan == 0 && base.reliable && base.packet == Some(k)
    requires base.fragment == Fragment(Low16(total + 1), Parts(|e.pkts[k]|, Limit(e)), 0, |e.pkts[k]|)
    ensures t < |Numbered(cs, total)| && Genuine(e, Numbered(cs, total)[t])
  {
    NumberedAt(cs, total, t);
  }

  lemma SentWhole(e: Env, p: Peer, k: nat, rq: Request) returns (c: Cmd)
    requires ValidEnv(e) && k < |e.pkts| && |p.chans| > 0 && p.mtu == e.mtu
    requires p.chans[0].total == End(e.pkts, Limit(e), k)
    requires rq.id == k && rq.length == |e.pkts[k]| && rq.reliable && rq.length <= Limit(e)
    ensures c == Blank(SendReliable, 0, true, rq).(len := rq.length)
    ensures Cuts(e, k, p.chans[0].total, p, [c])
  {
    c := Blank(SendReliable, 0, true, rq).(len := rq.length);
    NumberedAt([c], p.chans[0].total, 0);
  }

  lemma ChannelBasics(p: Peer)
    requires S.Inv(p) && |p.chans| == 1
    ensures p.chans[0].outSeq == Low16(p.chans[0].total)
  {
  }

  /** enet_peer_send sets these commands up, after retaining the packet. */
  lemma SentCommands(e: Env, s: System, rq: Request) returns (cs: seq<Cmd>, refs: map<nat, nat>)
    requires ValidEnv(e) && SenderOk(e, s) && s.queued < |e.pkts| && 576 <= s.p.mtu < WRAP
    requires rq.id == s.queued && rq.length == |e.pkts[s.queued]| && rq.reliable
    requires Send(s.p, 0, rq, e.checksum, e.maximumPacketSize).Some?
    ensures Cuts(e, s.queued, s.p.chans[0].total, s.p, cs)
    ensures Send(s.p, 0, rq, e.checksum, e.maximumPacketSize).value == SetupAll(s.p.(refs := refs), cs)
  {
    hide S.Inv, Genuine, Numbered, Cut, Cuts;
    ChannelBasics(s.p);
    if rq.length > Limit(e) {
      cs := SentFragments(e, s.p, s.queued, rq);
      refs := s.p.refs[rq.id := RefCount(s.p.refs, rq.id) + |cs|];
    } else {
      var c := SentWhole(e, s.p, s.queued, rq);
      cs := [c];
      refs := Retain(s.p.refs, c.packet);
      assert cs[1..] == [];
    }
  }

  lemma SendKeepsInv(e: Env, s: System, s': System, rq: Request, ks: seq<nat>)
    requires ValidEnv(e) && Inv(e, s, ks) && SendStep(e, s, s', rq)
    ensures Inv(e, s', ks)
  {
    hide S.Inv, Genuine, RI.Inv, RI.Received, GenuineCopy, SetupAll, Send, Numbered;
    var cs, refs := SentCommands(e, s, rq);
    var q := s.p.(refs := refs);
    S.InvIgnoresRefs(s.p, refs);
    SetupAllOk(q, cs, 0);
    var ns := Numbered(cs, s.p.chans[0].total);
    NumberedLength(cs, s.p.chans[0].total);
    SendIsChange(e, s, s', ns);
    SenderChangeKeepsInv(e, s, s', ks);
  }

  lemma NumberedLength(cs: seq<Cmd>, total: nat)
    ensures |Numbered(cs, total)| == |cs|
    ensures forall t | 0 <= t < |cs| :: Numbered(cs, total)[t].index > total
  {
    forall t | 0 <= t < |cs| ensures |Numbered(cs, total)| == |cs| && Numbered(cs, total)[t].index > total {
      NumberedAt(cs, total, t);
    }
  }

  lemma SendIsChange(e: Env, s: System, s': System, ns: seq<Cmd>)
    requires ValidEnv(e) && SenderOk(e, s) && NetOk(e, s) && s.queued < |e.pkts|
    requires WindowOf(Newest(s)) <= Base(e, s) + 8
    requires s' == s.(p := s'.p, queued := s.queued + 1) && S.Inv(s'.p)
    requires s'.p.sent == s.p.sent && s'.p.outgoing == s.p.outgoing + ns && |s'.p.chans| == 1
    requires s'.p.mtu == s.p.mtu && s'.p.chans[0].newest == s.p.chans[0].newest
    requires s'.p.chans[0].total == s.p.chans[0].total + Parts(|e.pkts[s.queued]|, Limit(e))
    requires forall t | 0 <= t < |ns| :: Genuine(e, ns[t]) && ns[t].index > s.p.chans[0].total
    ensures SenderChange(e, s, s')
  {
    hide S.Inv, Genuine, GenuineCopy;
    forall i: nat | i <= Newest(s) ensures S.Outstanding(s'.p, 0, i) == S.Outstanding(s.p, 0, i) {
      NewestWithinTotal(s.p);
      S.TotalAppend(s.p.outgoing, ns, S.IsIndex(0, i));
      S.TotalZero(ns, S.IsIndex(0, i));
    }
    assert LiveAll(s'.p, Expected(e)) by {
      forall c | c in s'.p.outgoing ensures Expected(e)(c) {
        if c !in s.p.outgoing {
          var t :| 0 <= t < |ns| && ns[t] == c;
        }
      }
    }
  }

  lemma ControlKeepsInv(e: Env, s: System, s': System, c: Cmd, ks: seq<nat>)
    requires ValidEnv(e) && Inv(e, s, ks) && ControlStep(s, s', c)
    ensures Inv(e, s', ks)
  {
    hide Genuine, RI.Inv, RI.Received, GenuineCopy;
    var q := s.p.(refs := Retain(s.p.refs, c.packet));
    S.InvIgnoresRefs(s.p, q.refs);
    S.SetupKeepsInv(q, c);
    var d := S.Appended(q, c);
    forall i: nat ensures S.Outstanding(s'.p, 0, i) == S.Outstanding(s.p, 0, i) {
      S.TotalSplit(s.p.outgoing, d, [], S.IsIndex(0, i));
    }
    SenderChangeKeepsInv(e, s, s', ks);
  }

  lemma FreshIsOutstanding(p: Peer, i: nat)
    requires S.Inv(p) && |p.chans| == 1 && p.chans[0].newest < i <= p.chans[0].total
    ensures S.Outstanding(p, 0, i) > 0
  {
    assert S.Total(p.outgoing, S.IsFresh(0, i)) == 1;
    var k := S.TotalWitness(p.outgoing, S.IsFresh(0, i));
    S.TotalMember(p.outgoing, k, S.IsIndex(0, i));
  }

  /** Everything in the datagram is a genuine copy of an attempted number. */
  lemma WireIsGenuine(e: Env, cs: seq<Cmd>, p: Peer)
    requires ValidEnv(e) && |p.chans| == 1 && AllOf(cs, Expected(e)) && S.EmittedNumbers(p, cs)
    requires forall c | c in cs && c.chan == PEER_CHANNEL :: c.packet.None?
    ensures forall w | w in WireOf(e, cs) :: GenuineCopy(e, w) && Index(e, w.packet, w.part) <= p.chans[0].newest
  {
    hide Genuine, GenuineCopy;
    forall w | w in WireOf(e, cs) ensures GenuineCopy(e, w) && Index(e, w.packet, w.part) <= p.chans[0].newest {
      var c :| c in cs && OnWire(e, c).Some? && OnWire(e, c).value == w;
      assert Expected(e)(c);
      GenuineBasics(e, c);
      OnWireIsGenuine(e, c);
    }
  }

  lemma GenuineBasics(e: Env, c: Cmd)
    requires ValidEnv(e)
    ensures Genuine(e, c) ==> c.reliable && c.chan == 0
  {
  }

  lemma FlushKeepsInv(e: Env, s: System, s': System, g: Gram, now: u32, ks: seq<nat>)
    requires ValidEnv(e) && Inv(e, s, ks) && FlushStep(e, s, s', g, now)
    ensures Inv(e, s', ks)
  {
    hide S.Inv, RI.Inv, RI.Received, GenuineCopy, Genuine, S.Outstanding;
    var start := StartScan(s.p, g);
    var t := CheckOutgoing(s.p, g, now);
    assert PeerOf(start) == s.p;
    FlushScan(e, s, g, now, Base(e, s));
    WireIsGenuine(e, t.emitted, s'.p);
    forall i: nat | Newest(s) < i <= Newest(s') ensures S.Outstanding(s'.p, 0, i) > 0 {
      NewestWithinTotal(s'.p);
      FreshIsOutstanding(s.p, i);
    }
    SenderChangeKeepsInv(e, s, s', ks);
  }

  lemma NewestWithinTotal(p: Peer)
    requires S.Inv(p) && |p.chans| == 1
    ensures p.chans[0].newest <= p.chans[0].total
  {
  }

  lemma FlushScan(e: Env, s: System, g: Gram, now: u32, base: nat)
    requires ValidEnv(e) && SenderOk(e, s) && S.HeldBack(s.p, 0, base) && g.bytes <= s.p.mtu && g.commands <= MAX_COMMANDS
    requires forall k | 0 <= k < |s.p.outgoing| :: s.p.outgoing[k].attempts < WRAP - 1
    ensures WellFormed(s.p)
    ensures var t := CheckOutgoing(s.p, g, now);
      && S.Inv(PeerOf(t)) && LiveAll(PeerOf(t), Expected(e)) && PeerOf(t).mtu == s.p.mtu
      && S.ChansGrow(s.p, PeerOf(t)) && S.HeldBack(PeerOf(t), 0, base)
      && (forall i: nat :: S.Outstanding(PeerOf(t), 0, i) == S.Outstanding(s.p, 0, i))
      && S.EmittedNumbers(PeerOf(t), t.emitted) && AllOf(t.emitted, Expected(e))
      && (forall c | c in t.emitted && c.chan == PEER_CHANNEL :: c.packet.None?)
  {
    hide Genuine, S.Outstanding, S.Inv, S.HeldBack, LiveAll, AllOf, CheckOutgoing;
    AllReliable(e, s.p);
    FlushNumbers(s.p, g, now, base);
    FlushPackets(e, s.p, g, now);
    PeerCommandsAreBare(s.p, g, now);
  }

  /** There are no unreliable commands in these runs. */
  lemma AllReliable(e: Env, p: Peer)
    requires ValidEnv(e) && S.Inv(p) && LiveAll(p, Expected(e))
    ensures forall k | 0 <= k < |p.outgoing| :: p.outgoing[k].reliable
    ensures S.NoneCaught(p.outgoing)
  {
    forall k | 0 <= k < |p.outgoing| ensures p.outgoing[k].reliable {
      assert S.CmdOk(p, p.outgoing[k]) && Expected(e)(p.outgoing[k]);
    }
  }

  lemma FlushNumbers(p: Peer, g: Gram, now: u32, base: nat)
    requires S.Inv(p) && |p.chans| == 1 && S.HeldBack(p, 0, base) && g.bytes <= p.mtu && g.commands <= MAX_COMMANDS
    requires S.NoneCaught(p.outgoing)
    requires forall k | 0 <= k < |p.outgoing| :: p.outgoing[k].attempts < WRAP - 1
    ensures WellFormed(p)
    ensures var t := CheckOutgoing(p, g, now);
      && S.Inv(PeerOf(t)) && PeerOf(t).mtu == p.mtu
      && S.ChansGrow(p, PeerOf(t)) && S.HeldBack(PeerOf(t), 0, base)
      && (forall i: nat :: S.Outstanding(PeerOf(t), 0, i) == S.Outstanding(p, 0, i))
      && S.EmittedNumbers(PeerOf(t), t.emitted)
  {
    hide S.Outstanding, S.HeldBack, S.EmittedNumbers, S.ChansGrow, S.Effect, ScanAll, S.Inv;
    var start := StartScan(p, g);
    StartIsOk(p, g);
    CheckIsScan(p, g, now);
    S.CheckOutgoingKeepsInv(p, g, now);
    S.ScanEffect(start, now);
    S.ScanHeldBack(start, now, 0, base);
    S.ScanMtu(start, now);
    EffectFromStart(p, g, ScanAll(start, now));
  }

  lemma EffectFromStart(p: Peer, g: Gram, t: Scan)
    requires S.Effect(StartScan(p, g), t) && PeerOf(StartScan(p, g)) == p
    ensures S.ChansGrow(p, PeerOf(t)) && S.EmittedNumbers(PeerOf(t), t.emitted)
    ensures forall i: nat :: S.Outstanding(PeerOf(t), 0, i) == S.Outstanding(p, 0, i)
  {
    hide S.Outstanding;
  }

  lemma StartIsOk(p: Peer, g: Gram)
    requires S.Inv(p) && S.NoneCaught(p.outgoing) && g.bytes <= p.mtu && g.commands <= MAX_COMMANDS
    requires forall k | 0 <= k < |p.outgoing| :: p.outgoing[k].attempts < WRAP - 1
    ensures WellFormed(p) && S.ScanOk(StartScan(p, g)) && PeerOf(StartScan(p, g)) == p
  {
    hide S.CmdOk, S.Order, S.WindowCounts, S.Unique;
    assert PeerOf(StartScan(p, g)) == p by { assert [] + p.outgoing == p.outgoing; }
  }

  lemma CheckIsScan(p: Peer, g: Gram, now: u32)
    requires WellFormed(p)
    ensures CheckOutgoing(p, g, now) == ScanAll(StartScan(p, g), now)
  {
  }

  lemma FlushPackets(e: Env, p: Peer, g: Gram, now: u32)
    requires ValidEnv(e) && S.Inv(p) && LiveAll(p, Expected(e))
    ensures WellFormed(p)
    ensures var t := CheckOutgoing(p, g, now); LiveAll(PeerOf(t), Expected(e)) && AllOf(t.emitted, Expected(e))
  {
    hide Genuine;
    assert PeerOf(StartScan(p, g)) == p;
    ExpectedIsStable(e);
    ScanAllOf(StartScan(p, g), now, Expected(e));
  }

  ghost function Bare(): Cmd -> bool { (c: Cmd) => c.chan == PEER_CHANNEL ==> c.packet.None? }

  lemma PeerCommandsAreBare(p: Peer, g: Gram, now: u32)
    requires S.Inv(p)
    ensures WellFormed(p)
    ensures forall c | c in CheckOutgoing(p, g, now).emitted && c.chan == PEER_CHANNEL :: c.packet.None?
  {
    forall c | c in p.sent || c in p.outgoing ensures Bare()(c) {
      assert S.CmdOk(p, c);
    }
    ScanAllOf(StartScan(p, g), now, Bare());
  }

  lemma TimeoutKeepsInv(e: Env, s: System, s': System, now: u32, ks: seq<nat>)
    requires ValidEnv(e) && Inv(e, s, ks) && TimeoutStep(s, s', now)
    ensures Inv(e, s', ks)
  {
    hide S.Inv, RI.Inv, RI.Received, GenuineCopy, Genuine, S.Outstanding;
    S.CheckTimeoutsKeepsInv(s.p, now);
    ExpectedIsStable(e);
    TimeoutsAllOf(s.p, [], s.p.sent, [], now, Expected(e));
    S.TimeoutMtu(s.p, [], s.p.sent, [], now);
    SenderChangeKeepsInv(e, s, s', ks);
  }

  lemma TuneInv(p: Peer, p': Peer)
    requires S.Inv(p)
    requires p' == p.(throttle := p'.throttle, throttleCounter := p'.throttleCounter,
                      windowSize := p'.windowSize, rtt := p'.rtt, rttVar := p'.rttVar,
                      earliestTimeout := p'.earliestTimeout, nextTimeout := p'.nextTimeout)
    ensures S.Inv(p')
  {
    forall d | S.CmdOk(p, d) ensures S.CmdOk(p', d) {}
  }

  lemma TuneKeepsInv(e: Env, s: System, s': System, ks: seq<nat>)
    requires ValidEnv(e) && Inv(e, s, ks) && TuneStep(s, s')
    ensures Inv(e, s', ks)
  {
    hide S.Inv, RI.Inv, RI.Received, GenuineCopy, Genuine;
    TuneInv(s.p, s'.p);
    SenderChangeKeepsInv(e, s, s', ks);
  }

  // ----- acknowledgement -----

  /** A delivered acknowledgement finds its own number, or nothing. */
  lemma AckIsExact(e: Env, s: System, c: Copy)
    requires ValidEnv(e) && SenderOk(e, s) && GenuineCopy(e, c)
    requires Index(e, c.packet, c.part) <= Newest(s)
    requires WindowOf(Newest(s)) <= WindowOf(Index(e, c.packet, c.part)) + 15
    ensures WellFormed(s.p)
    ensures var p', i := RemoveSentReliable(s.p, c.rseq, 0).0, Index(e, c.packet, c.part);
      && S.Inv(p') && LiveAll(p', Expected(e)) && p'.mtu == s.p.mtu
      && |p'.chans| == 1 && p'.chans[0].newest == Newest(s) && p'.chans[0].total == s.p.chans[0].total
      && (forall j: nat :: S.Outstanding(p', 0, j) == if j == i then 0 else S.Outstanding(s.p, 0, j))
  {
    hide Genuine, S.CmdOk;
    var i := Index(e, c.packet, c.part);
    S.AckKeepsInv(s.p, c.rseq, 0);
    AckAllOf(s.p, c.rseq, 0, Expected(e));
    if S.Outstanding(s.p, 0, i) > 0 {
      S.AckFindsOutstanding(s.p, 0, i);
    } else {
      forall j: nat | Low16(j) == c.rseq && j <= Newest(s) ensures S.Outstanding(s.p, 0, j) == 0 {
        if j != i && S.Outstanding(s.p, 0, j) > 0 {
          OutstandingIsNear(s.p, j);
          if j < i { WindowMonotone(i, Newest(s)); SameWireNumber(j, i); }
          else { WindowMonotone(j, Newest(s)); SameWireNumber(i, j); }
        }
      }
      S.AckIgnored(s.p, 0, c.rseq);
    }
    AckView(s.p, c.rseq, 0);
  }

  lemma AckView(p: Peer, rseq: u16, chan: nat)
    requires WellFormed(p)
    ensures var p' := RemoveSentReliable(p, rseq, chan).0;
      && p'.mtu == p.mtu && |p'.chans| == |p.chans|
      && (forall ch | 0 <= ch < |p.chans| ::
            p'.chans[ch].newest == p.chans[ch].newest && p'.chans[ch].total == p.chans[ch].total)
  {
    var i := FindSent(p.sent, rseq, chan, 0);
    var j := FindAttempted(p.outgoing, rseq, chan, 0);
    if i.Some? {
      S.SettleView(p.(sent := Without(p.sent, i.value)), p.sent[i.value], rseq, chan, true);
    } else if j.Some? {
      S.SettleView(p.(outgoing := Without(p.outgoing, j.value)), p.outgoing[j.value], rseq, chan, false);
    }
  }

  lemma AckStepKeepsInv(e: Env, s: System, s': System, c: Copy, ks: seq<nat>)
    requires ValidEnv(e) && Inv(e, s, ks) && AckStep(e, s, s', c)
    ensures Inv(e, s', ks)
  {
    hide S.Inv, RI.Inv, RI.Received, GenuineCopy, Genuine, S.Outstanding, LiveAll;
    AckIsExact(e, s, c);
    GenuineBounds(e, c);
    forall k: nat, j: nat | k < |e.pkts| && j < Parts(|e.pkts[k]|, Limit(e)) && Index(e, k, j) <= Newest(s')
      ensures S.Outstanding(s'.p, 0, Index(e, k, j)) > 0 || RI.Received(s'.r, ks, Taken(s'), k, j)
    {
      assert S.Outstanding(s.p, 0, Index(e, k, j)) > 0 || RI.Received(s.r, ks, Taken(s), k, j);
      if Index(e, k, j) == Index(e, c.packet, c.part) {
        NumberInjective(e.pkts, Limit(e), k, j, c.packet, c.part);
      }
    }
  }

  lemma GenuineBounds(e: Env, c: Copy)
    requires ValidEnv(e) && GenuineCopy(e, c)
    ensures c.packet < |e.pkts| && c.part < Parts(|e.pkts[c.packet]|, Limit(e))
    ensures c.rseq == Low16(Index(e, c.packet, c.part))
  {
  }

  // ----- steps of the receiver -----

  /** An arrival within reach keeps the receiver's invariant and everything that had arrived; if
      it is acknowledged, it has arrived. */
  lemma DeliverOk(e: Env, s: System, c: Copy, ks: seq<nat>) returns (ks': seq<nat>, n': nat)
    requires ValidEnv(e) && RI.Inv(e.pkts, Limit(e), s.r, ks, Taken(s)) && GenuineCopy(e, c)
    requires RI.InReach(e.pkts, Limit(e), Taken(s), c.packet, c.part)
    ensures R.EntriesWellFormed(s.r.incoming)
    ensures var (r', ok) := Deliver(s.r, c);
      && RI.Progress(e.pkts, Limit(e), c.packet, s.r, ks, Taken(s), r', ks', n')
      && (ok && Ackable(c.rseq, r'.current) ==> RI.Received(r', ks', n', c.packet, c.part))
  {
    hide RI.Progress, RI.Received, R.OnReliable, R.OnFragment, RI.InReach;
    RI.EntriesFine(e.pkts, Limit(e), s.r, ks, Taken(s));
    if |e.pkts[c.packet]| <= Limit(e) {
      ks', n' := RI.OnReliableOk(e.pkts, Limit(e), s.r, ks, Taken(s), c.packet);
    } else {
      ks', n' := RI.OnFragmentOk(e.pkts, Limit(e), s.r, ks, Taken(s), c.packet, c.part);
    }
  }

  /** What is acknowledged lies less than seven windows ahead. */
  lemma AckIsNear(i: nat, base: nat)
    requires WindowOf(i) <= WindowOf(base) + 8 && Ackable(Low16(i), Low16(base))
    ensures WindowOf(i) < WindowOf(base) + 7
  {
    if i >= base {
      RI.NearAhead(i, base);
      ForwardWindowAhead(i, base);
    } else {
      WindowMonotone(i, base);
    }
  }

  /** The receiver only moves forward, and hands over the next packets. */
  lemma TakenGrows(e: Env, s: System, s': System, ks: seq<nat>, ks': seq<nat>, n': nat)
    requires ValidEnv(e) && ReceiverOk(e, s, ks) && s'.received == s.received
    requires Taken(s) <= n' <= |e.pkts| && s'.r.dispatched == s.r.dispatched + e.pkts[Taken(s)..n']
    ensures Taken(s') == n' && s'.received + s'.r.dispatched == e.pkts[..n']
    ensures Base(e, s) <= Base(e, s')
  {
    hide RI.Inv;
    assert |e.pkts[Taken(s)..n']| == n' - Taken(s);
    assert s'.received + s'.r.dispatched == (s.received + s.r.dispatched) + e.pkts[Taken(s)..n'];
    assert e.pkts[..Taken(s)] + e.pkts[Taken(s)..n'] == e.pkts[..n'];
    EndGrows(e.pkts, Limit(e), Taken(s), n');
    WindowMonotone(ReceiverNumber(e, s), ReceiverNumber(e, s'));
  }

  lemma DataStepKeepsInv(e: Env, s: System, s': System, c: Copy, ks: seq<nat>) returns (ks': seq<nat>)
    requires ValidEnv(e) && Inv(e, s, ks) && DataStep(e, s, s', c)
    ensures Inv(e, s', ks')
  {
    hide S.Inv, RI.Inv, RI.Received, GenuineCopy, Genuine, S.Outstanding, LiveAll, Deliver;
    GenuineBounds(e, c);
    OnlySentPackets(e, s, c);
    WindowMonotone(Index(e, c.packet, c.part), Newest(s));
    var n';
    ks', n' := DeliverOk(e, s, c, ks);
    RI.InvBasics(e.pkts, Limit(e), s'.r, ks', n');
    TakenGrows(e, s, s', ks, ks', n');
    if c in s'.acks && c !in s.acks { AckIsNear(Index(e, c.packet, c.part), ReceiverNumber(e, s')); }
    DataAcksOk(e, s, s', c, ks, ks');
  }

  lemma DataAcksOk(e: Env, s: System, s': System, c: Copy, ks: seq<nat>, ks': seq<nat>)
    requires ValidEnv(e) && |s.p.chans| == 1 && |ks| == |s.r.incoming| && |ks'| == |s'.r.incoming|
    requires AcksOk(e, s, ks) && NothingLost(e, s, ks) && s'.p == s.p && Base(e, s) <= Base(e, s')
    requires forall k: nat, j: nat :: RI.Received(s.r, ks, Taken(s), k, j) ==> RI.Received(s'.r, ks', Taken(s'), k, j)
    requires s'.acks == s.acks || s'.acks == s.acks + {c}
    requires c in s'.acks && c !in s.acks ==>
      && GenuineCopy(e, c) && Index(e, c.packet, c.part) <= Newest(s)
      && WindowOf(Index(e, c.packet, c.part)) < Base(e, s') + 7
      && RI.Received(s'.r, ks', Taken(s'), c.packet, c.part)
    ensures AcksOk(e, s', ks') && NothingLost(e, s', ks')
  {
    hide RI.Received, GenuineCopy, S.Outstanding, Base, WindowOf;
  }

  lemma OnlySentPackets(e: Env, s: System, c: Copy)
    requires ValidEnv(e) && SenderOk(e, s) && GenuineCopy(e, c) && Index(e, c.packet, c.part) <= Newest(s)
    ensures c.packet < s.queued
  {
    if s.queued <= c.packet { EndGrows(e.pkts, Limit(e), s.queued, c.packet); }
  }

  lemma TakeInv(e: Env, r: R.Recv, ks: seq<nat>, n: nat)
    requires ValidEnv(e) && RI.Inv(e.pkts, Limit(e), r, ks, n)
    ensures RI.Inv(e.pkts, Limit(e), R.Receive(r), ks, n)
  {
  }

  lemma TakeKeepsInv(e: Env, s: System, s': System, ks: seq<nat>)
    requires ValidEnv(e) && Inv(e, s, ks) && TakeStep(s, s')
    ensures Inv(e, s', ks)
  {
    hide S.Inv, RI.Inv, GenuineCopy, Genuine, S.Outstanding, LiveAll;
    TakeInv(e, s.r, ks, Taken(s));
    assert Taken(s') == Taken(s);
    assert s'.received + s'.r.dispatched == s.received + s.r.dispatched;
  }

  // ----- runs -----

  lemma StepKeepsInv(e: Env, s: System, s': System, step: Step, ks: seq<nat>) returns (ks': seq<nat>)
    requires ValidEnv(e) && Inv(e, s, ks) && Next(e, s, s', step)
    ensures Inv(e, s', ks')
  {
    hide Inv, SendStep, ControlStep, FlushStep, TimeoutStep, TuneStep, DataStep, AckStep, TakeStep;
    ks' := ks;
    match step
    case DoSend(rq) => SendKeepsInv(e, s, s', rq, ks);
    case DoControl(c) => ControlKeepsInv(e, s, s', c, ks);
    case DoFlush(g, now) => FlushKeepsInv(e, s, s', g, now, ks);
    case DoTimeout(now) => TimeoutKeepsInv(e, s, s', now, ks);
    case DoTune => TuneKeepsInv(e, s, s', ks);
    case DoData(c) => ks' := DataStepKeepsInv(e, s, s', c, ks);
    case DoAck(c) => AckStepKeepsInv(e, s, s', c, ks);
    case DoTake => TakeKeepsInv(e, s, s', ks);
  }

  lemma {:induction false} RunKeepsInv(e: Env, trace: seq<System>, steps: seq<Step>, i: nat) returns (ks: seq<nat>)
    requires ValidEnv(e) && Run(e, trace, steps) && i < |trace|
    ensures Inv(e, trace[i], ks)
  {
    hide Inv, Next;
    if i == 0 {
      InitialInv(e, trace[0]);
      ks := [];
    } else {
      ks := RunKeepsInv(e, trace, steps, i - 1);
      ks := StepKeepsInv(e, trace[i - 1], trace[i], steps[i - 1], ks);
    }
  }

  /** Reliable delivery: at every moment of every run, what the application has taken followed by
      what is ready for it is exactly the first packets sent. */
  lemma ReliableDelivery(e: Env, trace: seq<System>, steps: seq<Step>, i: nat)
    requires ValidEnv(e) && Run(e, trace, steps) && i < |trace|
    ensures var s := trace[i];
      && Taken(s) <= s.queued <= |e.pkts|
      && s.received + s.r.dispatched == e.pkts[..Taken(s)]
  {
    var ks := RunKeepsInv(e, trace, steps, i);
    var s := trace[i];
    assert RI.Touched(ks, Taken(s), s.queued) ==> s.queued < s.queued;
  }

  /** The other half: from every state of every run, if there is room for the next packet and all
      its parts arrive, in any order and any number of times, it is handed over. */
  lemma NextIsHandedOver(e: Env, trace: seq<System>, steps: seq<Step>, i: nat, rs: seq<R.Recv>, js: seq<nat>)
    returns (x: nat, m: nat)
    requires ValidEnv(e) && Run(e, trace, steps) && i < |trace| && Taken(trace[i]) < |e.pkts|
    requires var s := trace[i];
      var pkt := e.pkts[Taken(s)];
      && |pkt| <= s.r.maximumPacketSize && Parts(|pkt|, Limit(e)) <= MAX_FRAGMENTS
      && s.r.waiting < s.r.maximumWaitingData
      && WindowOf(End(e.pkts, Limit(e), Taken(s) + 1)) <= Base(e, s) + 8
      && |rs| > 0 && rs[0] == s.r && RI.Arrivals(e.pkts, Limit(e), rs, Taken(s), js)
      && (forall j | 0 <= j < Parts(|pkt|, Limit(e)) :: j in js)
    ensures x < |rs| && Taken(trace[i]) < m <= |e.pkts|
    ensures rs[x].dispatched == rs[0].dispatched + e.pkts[Taken(trace[i])..m]
  {
    var ks := RunKeepsInv(e, trace, steps, i);
    var s := trace[i];
    NextInReach(e, Taken(s));
    hide RI.Inv, RI.Arrivals, Run, Parts;
    x, m := RI.NextGetsThrough(e.pkts, Limit(e), rs, js, ks, Taken(s), {});
  }

  lemma NextInReach(e: Env, n: nat)
    requires ValidEnv(e) && n < |e.pkts|
    requires WindowOf(End(e.pkts, Limit(e), n + 1)) <= WindowOf(End(e.pkts, Limit(e), n)) + 8
    ensures RI.StartsNear(e.pkts, Limit(e), n, n)
    ensures forall j | 0 <= j < Parts(|e.pkts[n]|, Limit(e)) :: RI.InReach(e.pkts, Limit(e), n, n, j)
  {
    WindowMonotone(End(e.pkts, Limit(e), n), Index(e, n, 0));
    forall j | 0 <= j < Parts(|e.pkts[n]|, Limit(e)) ensures RI.InReach(e.pkts, Limit(e), n, n, j) {
      WindowMonotone(Index(e, n, j), End(e.pkts, Limit(e), n + 1));
    }
  }
}
