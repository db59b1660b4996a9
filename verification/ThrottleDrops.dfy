/** What the throttle drops with an unreliable command. Its inner loop goes on as long as the pair of
    numbers stays the same, which tells the fragments of a packet; but unsequenced commands all carry
    the pair (0, 0), and so does the reliable command after every 65536th. */
module ThrottleDrops {
  import opened Options
  import opened SeqNumbers
  import opened EnetSender
  import opened SenderInvariants

  /** Number of commands at the front with the first one's numbers. */
  function GroupSize(q: seq<Cmd>, rseq: u16, useq: u16): (n: nat)
    ensures n <= |q| && forall k | 0 <= k < n :: q[k].rseq == rseq && q[k].useq == useq
  {
    if q == [] || q[0].rseq != rseq || q[0].useq != useq then 0 else 1 + GroupSize(q[1..], rseq, useq)
  }

  /** The drop takes exactly these. */
  lemma {:induction false} DropTakesGroup(s: Scan, rseq: u16, useq: u16)
    requires s.rest != [] && s.rest[0].rseq == rseq && s.rest[0].useq == useq
    ensures var t, n := DropGroup(s, rseq, useq), GroupSize(s.rest, rseq, useq);
      t.rest == s.rest[n..] && t.kept == s.kept && t.emitted == s.emitted && t.p.sent == s.p.sent && t.p.chans == s.p.chans
    decreases |s.rest|
  {
    var s' := s.(p := Release(s.p, s.rest[0].packet), rest := s.rest[1..]);
    if s'.rest != [] && s'.rest[0].rseq == rseq && s'.rest[0].useq == useq { DropTakesGroup(s', rseq, useq); }
  }

  lemma TotalOfReliable(cs: seq<Cmd>, ch: nat, i: nat)
    requires forall k | 0 <= k < |cs| :: !cs[k].reliable
    ensures Total(cs, IsIndex(ch, i)) == 0
  {
    TotalZero(cs, IsIndex(ch, i));
  }

  /** The drop takes each number out as often as its group holds it. */
  lemma DropTotals(s: Scan, rseq: u16, useq: u16, ch: nat, i: nat)
    requires s.rest != [] && s.rest[0].rseq == rseq && s.rest[0].useq == useq
    ensures Outstanding(PeerOf(s), ch, i) == Outstanding(PeerOf(DropGroup(s, rseq, useq)), ch, i)
      + Total(s.rest[..GroupSize(s.rest, rseq, useq)], IsIndex(ch, i))
  {
    hide DropGroup, Total, GroupSize;
    DropTakesGroup(s, rseq, useq);
    var n, f := GroupSize(s.rest, rseq, useq), IsIndex(ch, i);
    assert s.rest == s.rest[..n] + s.rest[n..];
    TotalAppend(s.kept, s.rest, f);
    TotalAppend(s.rest[..n], s.rest[n..], f);
    TotalAppend(s.kept, s.rest[n..], f);
  }

  /** The numbers that wait for an acknowledgement are the same after the drop. */
  ghost predicate NothingLost(s: Scan, rseq: u16, useq: u16)
    requires s.rest != []
  {
    forall ch: nat, i: nat :: Outstanding(PeerOf(DropGroup(s, rseq, useq)), ch, i) == Outstanding(PeerOf(s), ch, i)
  }

  lemma FirstCaught(q: seq<Cmd>, k: nat)
    requires k < |q| && q[k].reliable && !q[0].reliable
    requires forall j | 0 <= j < |q| :: q[j].rseq == q[0].rseq && q[j].useq == q[0].useq
    ensures !NoneCaught(q)
  {
    if q[k - 1].reliable { FirstCaught(q, k - 1); }
  }

  /** Dropping an unreliable command and its group loses no reliable command exactly if none stands
      directly behind an unreliable one of the group with its numbers. */
  lemma DropLosesExactly(s: Scan)
    requires s.rest != [] && !s.rest[0].reliable
    ensures var c := s.rest[0];
      NothingLost(s, c.rseq, c.useq) <==> NoneCaught(s.rest[..GroupSize(s.rest, c.rseq, c.useq)])
  {
    hide Outstanding, Total, DropGroup;
    var c := s.rest[0];
    var group := s.rest[..GroupSize(s.rest, c.rseq, c.useq)];
    if NoneCaught(group) {
      forall k | 0 <= k < |group| ensures !group[k].reliable {
        if group[k].reliable { FirstCaught(group, k); }
      }
      forall ch: nat, i: nat
        ensures Outstanding(PeerOf(DropGroup(s, c.rseq, c.useq)), ch, i) == Outstanding(PeerOf(s), ch, i)
      {
        DropTotals(s, c.rseq, c.useq, ch, i);
        TotalOfReliable(group, ch, i);
      }
    } else {
      var k :| 0 < k < |group| && group[k].reliable;
      var d := group[k];
      DropTotals(s, c.rseq, c.useq, d.chan, d.index);
      TotalMember(group, k, IsIndex(d.chan, d.index));
    }
  }

  /** A reliable command of a channel that is caught is lost: its number was given out, but nothing
      waits for it any more, so that the receiver waits for it in vain. */
  lemma CaughtIsLost(s: Scan, k: nat)
    requires Inv(PeerOf(s)) && s.rest != [] && !s.rest[0].reliable
    requires k < GroupSize(s.rest, s.rest[0].rseq, s.rest[0].useq) && s.rest[k].reliable && s.rest[k].chan < |s.p.chans|
    ensures var c, d := s.rest[0], s.rest[k];
      && c.kind == SendUnsequenced && d.rseq == 0
      && s.p.chans[d.chan].newest < d.index <= s.p.chans[d.chan].total
      && Outstanding(PeerOf(DropGroup(s, c.rseq, c.useq)), d.chan, d.index) == 0
      && !Inv(PeerOf(DropGroup(s, c.rseq, c.useq)))
  {
    hide DropGroup, WindowCounts;
    var c, d := s.rest[0], s.rest[k];
    var p, j := PeerOf(s), |s.kept|;
    assert p.outgoing[j] == c && p.outgoing[j + k] == d && CmdOk(p, c) && CmdOk(p, d);
    assert d.attempts == 0;
    DropTotals(s, c.rseq, c.useq, d.chan, d.index);
    var group := s.rest[..GroupSize(s.rest, c.rseq, c.useq)];
    TotalMember(group, k, IsIndex(d.chan, d.index));
    LostBreaksInv(PeerOf(DropGroup(s, c.rseq, c.useq)), d.chan, d.index) by { DropTakesGroup(s, c.rseq, c.useq); }
  }

  /** A number given out and not attempted must be in the queue. */
  lemma LostBreaksInv(p: Peer, ch: nat, i: nat)
    requires ch < |p.chans| && p.chans[ch].newest < i <= p.chans[ch].total && Outstanding(p, ch, i) == 0
    ensures !Inv(p)
  {
    if Inv(p) {
      assert Total(p.outgoing, IsFresh(ch, i)) == 1;
      var k := TotalWitness(p.outgoing, IsFresh(ch, i));
      TotalMember(p.outgoing, k, IsIndex(ch, i));
    }
  }

  /** A whole packet queued: its command is the last in the queue. */
  lemma SentWhole(p: Peer, chan: nat, rq: Request, checksum: bool, max: nat)
    requires WellFormed(p) && 576 <= p.mtu < WRAP && chan < |p.chans|
    requires rq.length <= FragmentLimit(p.mtu, checksum) && rq.length <= max
    ensures Send(p, chan, rq, checksum, max) == Some(Queue(p, WholeOf(p, chan, rq)))
    ensures var c, p' := WholeOf(p, chan, rq), Queue(p, WholeOf(p, chan, rq));
      && WellFormed(p') && |p'.outgoing| == |p.outgoing| + 1 && p'.outgoing[..|p.outgoing|] == p.outgoing
      && p' == p.(chans := p'.chans, unseqGroup := p'.unseqGroup, outgoing := p'.outgoing, refs := p'.refs)
      && var d := p'.outgoing[|p.outgoing|];
         && d.kind == c.kind && d.reliable == c.reliable && d.packet == Some(rq.id) && d.len == rq.length && d.offset == 0
         && d.unthrottled == rq.unthrottled
         && (c.kind == SendUnsequenced ==> d.rseq == d.useq == 0 && p'.chans == p.chans)
         && (c.reliable ==> d.rseq == (p.chans[chan].outSeq + 1) % WRAP && d.useq == 0)
  {
  }

  /** A pass over two commands of which the first is dropped. */
  lemma BothDropped(p: Peer, g: Gram, now: u32)
    requires WellFormed(p) && |p.outgoing| == 2 && p.throttle == 0 && p.throttleCounter == 0
    requires var c, d := p.outgoing[0], p.outgoing[1];
      && !c.reliable && c.packet.Some? && c.offset == 0 && !c.unthrottled && c.rseq == c.useq == d.rseq == d.useq == 0
      && Fits(g, c, p.mtu)
    ensures var t := CheckOutgoing(p, g, now);
      t.emitted == [] && PeerOf(t).outgoing == [] && PeerOf(t).sent == p.sent
  {
    hide Fits, DropGroup, ScanAll;
    var s := StartScan(p, g);
    var s1 := s.(p := s.p.(throttleCounter := 7));
    assert s.rest == [s.rest[0], s.rest[1]];
    DropTakesGroup(s1, 0, 0);
    GroupOfTwo(s.rest);
    assert Emit(s, now) == DropGroup(s1, 0, 0);
    assert s.(fl := s.fl) == s;
    ScanStep(s, now);
    ScanEnds(DropGroup(s1, 0, 0), now);
  }

  lemma GroupOfTwo(q: seq<Cmd>)
    requires |q| == 2 && q[0].rseq == q[0].useq == q[1].rseq == q[1].useq == 0
    ensures GroupSize(q, 0, 0) == 2
  {
    assert q[1..] == [q[1]] && q[1..][1..] == [];
  }

  /** An input: after 65535 reliable packets an unsequenced one is sent, and then a reliable one. With
      the throttle at zero the next pass drops both; the reliable packet is neither sent nor queued. */
  lemma ReliableDropped(p: Peer, chan: nat, u: Request, r: Request, checksum: bool, max: nat, g: Gram, now: u32)
    requires WellFormed(p) && 576 <= p.mtu < WRAP && chan < |p.chans| && p.chans[chan].outSeq == WRAP - 1
    requires p.outgoing == [] && p.throttle == 0 && p.throttleCounter == 0
    requires u.unsequenced && !u.reliable && !u.unthrottled && r.reliable
    requires u.length <= FragmentLimit(p.mtu, checksum) && r.length <= FragmentLimit(p.mtu, checksum)
    requires u.length <= max && r.length <= max
    requires g.commands == 0 && g.buffers == 1 && g.bytes <= 12
    ensures Send(p, chan, u, checksum, max).Some?
    ensures var p1 := Send(p, chan, u, checksum, max).value;
      && p1.mtu == p.mtu && Send(p1, chan, r, checksum, max).Some?
      && var p2 := Send(p1, chan, r, checksum, max).value;
      && |p2.outgoing| == 2 && p2.outgoing[1].reliable && p2.outgoing[1].packet == Some(r.id)
      && WellFormed(p2)
      && var t := CheckOutgoing(p2, g, now);
         t.emitted == [] && PeerOf(t).outgoing == [] && PeerOf(t).sent == p.sent
  {
    hide Send, Queue, CheckOutgoing, FragmentLimit, WellFormed;
    SentWhole(p, chan, u, checksum, max);
    var p1 := Send(p, chan, u, checksum, max).value;
    SentWhole(p1, chan, r, checksum, max);
    var p2 := Send(p1, chan, r, checksum, max).value;
    assert p2.outgoing[0] == p2.outgoing[..1][0] == p1.outgoing[0];
    FitsWhole(p.mtu, checksum, g, p2.outgoing[0]);
    BothDropped(p2, g, now);
  }

  lemma FitsWhole(mtu: nat, checksum: bool, g: Gram, c: Cmd)
    requires 576 <= mtu < WRAP && g.commands == 0 && g.buffers == 1 && g.bytes <= 12
    requires SizeOf(c.kind) <= 8 && c.len <= FragmentLimit(mtu, checksum)
    ensures Fits(g, c, mtu)
  {
  }
}
