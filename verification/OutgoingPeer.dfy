/** The sender of EnetSender performed in place, as enet.h does: a peer whose lists, counters and
    channels are updated by its methods. Every method leaves the peer in the state the value
    functions of EnetSender give. */
module OutgoingPeers {
  import opened Options
  import opened SeqNumbers
  import opened WindowBits
  import E = EnetSender
  import opened EnetSender
  import T = Timeouts

  /** An attempt depends on the peer's measured times only. */
  lemma SameAttempt(p: Peer, q: Peer, c: Cmd, now: u32)
    requires p.rtt == q.rtt && p.rttVar == q.rttVar && p.timeoutLimit == q.timeoutLimit
    ensures Attempted(p, c, now) == Attempted(q, c, now)
  {
  }

  lemma ReleaseIgnoresQueue(p: Peer, id: Option<nat>)
    ensures E.Release(p.(outgoing := []), id) == E.Release(p, id).(outgoing := [])
  {
  }

  /** The walk after the first command has been dropped. */
  function Skipped(s: Scan): Scan
    requires s.rest != []
  {
    s.(p := E.Release(s.p, s.rest[0].packet), rest := s.rest[1..])
  }

  lemma DropGroupStep(s: Scan, rseq: u16, useq: u16)
    requires s.rest != []
    ensures var t := Skipped(s);
      DropGroup(s, rseq, useq) ==
        if t.rest == [] || t.rest[0].rseq != rseq || t.rest[0].useq != useq then t else DropGroup(t, rseq, useq)
  {
  }

  lemma StillWellFormed(p: Peer, q: Peer)
    requires WellFormed(p) && q.chans == p.chans
    ensures WellFormed(q)
  {
  }

  lemma SameRearmed(p: Peer, q: Peer, c: Cmd)
    requires p.rtt == q.rtt && p.rttVar == q.rttVar && p.timeoutLimit == q.timeoutLimit
    ensures Rearmed(p, c) == Rearmed(q, c)
  {
  }

  lemma SameLength(p: Peer, c: Cmd, now: u32)
    ensures Attempted(p, c, now).len == c.len
  {
  }

  /** What an attempt does, field by field. */
  lemma AttemptIs(p: Peer, c: Cmd, now: u32, q: Peer)
    requires WellFormed(p)
    requires var d := Attempted(p, c, now); q == p.(
      chans := if c.chan < |p.chans| && c.attempts < 1
               then p.chans[c.chan := OpenWindow(p.chans[c.chan], c.rseq / WINDOW_SIZE)] else p.chans,
      nextTimeout := if p.sent == [] then Add32(now, d.rto) else p.nextTimeout,
      sent := p.sent + [d],
      inTransit := p.inTransit + c.len)
    ensures q == Attempt(p, c, now)
  {
  }

  /** The accounts of an acknowledged command, field by field. */
  lemma SettleIs(p: Peer, c: Cmd, rseq: u16, chan: nat, wasSent: bool, m: Peer)
    requires WellFormed(p)
    requires m == p.(
      chans := if chan < |p.chans| then p.chans[chan := CloseWindow(p.chans[chan], rseq / WINDOW_SIZE)] else p.chans,
      inTransit := if c.packet.Some? && wasSent then p.inTransit - c.len else p.inTransit)
    ensures Settle(p, c, rseq, chan, wasSent)
      == E.Release(m, c.packet).(nextTimeout := if p.sent == [] then p.nextTimeout else Deadline(p.sent[0]))
  {
  }

  class OutgoingPeer {
    var chans: seq<Chan>
    var peerSeq: u16
    var unseqGroup: u16
    var outgoing: seq<Cmd>
    var sent: seq<Cmd>
    var sentUnreliable: seq<Cmd>
    var inTransit: int
    var nextTimeout: u32
    var earliestTimeout: u32
    var throttle: nat
    var throttleCounter: nat
    var windowSize: nat
    var mtu: nat
    var rtt: u32
    var rttVar: u32
    var timeoutLimit: u32
    var timeoutMinimum: u32
    var timeoutMaximum: u32
    var refs: map<nat, nat>
    var destroyed: seq<nat>

    function View(): Peer
      reads this
    {
      Peer(chans, peerSeq, unseqGroup, outgoing, sent, sentUnreliable, inTransit, nextTimeout, earliestTimeout,
           throttle, throttleCounter, windowSize, mtu, rtt, rttVar,
           timeoutLimit, timeoutMinimum, timeoutMaximum, refs, destroyed)
    }

    /** Drops a reference held by a command and destroys the packet when none is left. */
    method Release(id: Option<nat>)
      modifies `refs, `destroyed
      ensures View() == E.Release(old(View()), id)
    {
      if id.Some? && RefCount(refs, id.value) > 0 {
        var left := RefCount(refs, id.value) - 1;
        refs := refs[id.value := left];
        if left == 0 { destroyed := destroyed + [id.value]; }
      }
    }

    /** enet_peer_setup_outgoing_command */
    method Setup(c: Cmd)
      requires c.chan == PEER_CHANNEL || c.chan < |chans|
      modifies `chans, `peerSeq, `unseqGroup, `outgoing
      ensures View() == E.Setup(old(View()), c) && |chans| == |old(chans)|
    {
      hide E.Setup;
      var d := NumberOf(c);
      outgoing := outgoing + [d];
    }

    /** The numbers a command gets. */
    method NumberOf(c: Cmd) returns (d: Cmd)
      requires c.chan == PEER_CHANNEL || c.chan < |chans|
      modifies `chans, `peerSeq, `unseqGroup
      ensures View().(outgoing := outgoing + [d]) == E.Setup(old(View()), c) && |chans| == |old(chans)|
    {
      d := c.(attempts := 0, sentTime := 0, rto := 0, rtoLimit := 0, index := 0);
      if c.chan == PEER_CHANNEL {
        peerSeq := (peerSeq + 1) % WRAP;
        d := d.(rseq := peerSeq, useq := 0);
      } else if c.reliable {
        var ch := chans[c.chan];
        chans := chans[c.chan := ch.(outSeq := (ch.outSeq + 1) % WRAP, outUnrel := 0, total := ch.total + 1)];
        d := d.(rseq := chans[c.chan].outSeq, useq := 0, index := ch.total + 1);
      } else if c.kind == SendUnsequenced {
        unseqGroup := (unseqGroup + 1) % WRAP;
        d := d.(rseq := 0, useq := 0, group := unseqGroup);
      } else {
        if c.offset == 0 {
          chans := chans[c.chan := chans[c.chan].(outUnrel := (chans[c.chan].outUnrel + 1) % WRAP)];
        }
        d := d.(rseq := chans[c.chan].outSeq, useq := chans[c.chan].outUnrel);
        assert c.offset != 0 ==> old(chans)[c.chan := old(chans)[c.chan]] == old(chans);
      }
    }

    /** enet_peer_queue_outgoing_command */
    method Queue(c: Cmd)
      requires c.chan == PEER_CHANNEL || c.chan < |chans|
      modifies `chans, `peerSeq, `unseqGroup, `outgoing, `refs
      ensures View() == E.Queue(old(View()), c)
    {
      if c.packet.Some? { refs := refs[c.packet.value := RefCount(refs, c.packet.value) + 1]; }
      Setup(c);
    }

    /** The first loop of enet_peer_send: cuts a packet into commands. */
    method CutFragments(base: Cmd, dataLength: nat, limit: nat) returns (fragments: seq<Cmd>)
      requires 0 < limit < WRAP
      ensures fragments == Cut(base, dataLength, limit, 0, 0)
    {
      fragments := [];
      var number, offset, length := 0, 0, limit;
      while offset < dataLength
        invariant 0 < length <= limit && offset <= dataLength
        invariant length < limit ==> offset == dataLength
        invariant fragments + Cut(base, dataLength, limit, offset, number) == Cut(base, dataLength, limit, 0, 0)
        decreases dataLength - offset
      {
        if dataLength - offset < length { length := dataLength - offset; }
        var f := base.(offset := offset, len := length, fragment := base.fragment.(number := number));
        ghost var rest := Cut(base, dataLength, limit, offset + length, number + 1);
        assert Cut(base, dataLength, limit, offset, number) == [f] + rest;
        assert fragments + ([f] + rest) == (fragments + [f]) + rest;
        fragments := fragments + [f];
        number, offset := number + 1, offset + length;
      }
      assert fragments + [] == fragments;
    }

    /** The second loop of enet_peer_send: sets the fragments up from the front. */
    method SetupFragments(cs: seq<Cmd>)
      requires forall k | 0 <= k < |cs| :: cs[k].chan < |chans|
      modifies `chans, `peerSeq, `unseqGroup, `outgoing
      ensures View() == SetupAll(old(View()), cs)
    {
      hide E.Setup;
      var fragments := cs;
      while fragments != []
        invariant forall k | 0 <= k < |fragments| :: fragments[k].chan < |chans|
        invariant SetupAll(View(), fragments) == SetupAll(old(View()), cs)
        decreases |fragments|
      {
        var f := fragments[0];
        fragments := fragments[1..];
        Setup(f);
      }
    }

    /** enet_peer_send: a packet above the fragment limit is cut and its fragments set up, any
        other is queued at once, and sent at once if it is `instant`: `flush` says that the host is
        to send. `connected` is whether the peer's state is CONNECTED. */
    method Send(chan: nat, rq: Request, checksum: bool, maximumPacketSize: nat, connected: bool, instant: bool)
      returns (ok: bool, flush: bool)
      requires 576 <= mtu < WRAP
      modifies `chans, `peerSeq, `unseqGroup, `outgoing, `refs
      ensures var r := E.Send(old(View()), chan, rq, checksum, maximumPacketSize);
        ok == (connected && r.Some?) && View() == if ok then r.value else old(View())
      ensures flush == (ok && instant && rq.length <= FragmentLimit(mtu, checksum))
    {
      hide SetupAll, Cut, E.Queue, FragmentsOf;
      ok, flush := false, false;
      if !connected || chan >= |chans| || rq.length > maximumPacketSize { return; }
      var limit := FragmentLimit(mtu, checksum);
      if rq.length > limit {
        if FragmentCount(rq.length, limit) > E.MAX_FRAGMENTS { return; }
        SendFragments(chan, rq, limit);
      } else {
        var c: Cmd;
        if rq.unsequenced && !rq.reliable {
          c := Blank(SendUnsequenced, chan, false, rq);
        } else if rq.reliable || chans[chan].outUnrel >= WRAP - 1 {
          c := Blank(SendReliable, chan, true, rq);
        } else {
          c := Blank(SendUnreliable, chan, false, rq);
        }
        Queue(c.(len := rq.length));
        flush := instant;
      }
      ok := true;
    }

    /** The branch of enet_peer_send for a packet that is cut. */
    method SendFragments(chan: nat, rq: Request, limit: nat)
      requires chan < |chans| && 0 < limit < WRAP
      modifies `chans, `peerSeq, `unseqGroup, `outgoing, `refs
      ensures var p := old(View()); var fs := FragmentsOf(p, chan, rq, limit);
        && (forall k | 0 <= k < |fs| :: fs[k].chan < |p.chans|)
        && View() == SetupAll(p.(refs := p.refs[rq.id := RefCount(p.refs, rq.id) + |fs|]), fs)
    {
      hide SetupAll, Cut;
      var ch := chans[chan];
      var unreliable := !rq.reliable && rq.unreliableFragment && ch.outUnrel < WRAP - 1;
      var start := ((if unreliable then ch.outUnrel else ch.outSeq) + 1) % WRAP;
      var base := Blank(if unreliable then SendUnreliableFragment else SendFragment, chan, !unreliable, rq);
      var fragments := CutFragments(base.(fragment := Fragment(start, FragmentCount(rq.length, limit), 0, rq.length)), rq.length, limit);
      assert fragments == FragmentsOf(View(), chan, rq, limit);
      CutChannels(View(), chan, rq, limit);
      refs := refs[rq.id := RefCount(refs, rq.id) + |fragments|];
      SetupFragments(fragments);
    }

    /** check_outgoing_commands: walks the queue, holds back what the windows do not admit, and
        moves what fits to the datagram and to the sent lists. `idle` says that nothing is queued or
        unacknowledged any more: a peer in DISCONNECT_LATER is then disconnected. */
    method CheckOutgoing(start: Gram, now: u32) returns (g: Gram, emitted: seq<Cmd>, canPing: bool, idle: bool)
      requires WellFormed(View())
      modifies `chans, `outgoing, `sent, `sentUnreliable, `inTransit, `nextTimeout, `throttleCounter, `refs, `destroyed
      ensures var s := E.CheckOutgoing(old(View()), start, now);
        View() == PeerOf(s) && g == s.g && emitted == s.emitted && canPing == s.fl.canPing
      ensures idle <==> |outgoing| + |sent| + |sentUnreliable| == 0
    {
      var i, fl;
      i, fl, g, emitted := Walk(start, now);
      canPing := fl.canPing;
      assert outgoing[..i] + outgoing[i..] == outgoing;
      idle := outgoing == [] && sent == [] && sentUnreliable == [];
    }

    /** The loop of check_outgoing_commands. */
    method Walk(start: Gram, now: u32) returns (i: nat, fl: Flags, g: Gram, emitted: seq<Cmd>)
      requires WellFormed(View())
      modifies `chans, `outgoing, `sent, `sentUnreliable, `inTransit, `nextTimeout, `throttleCounter, `refs, `destroyed
      ensures i <= |outgoing|
      ensures Scanning(i, fl, g, emitted) == E.CheckOutgoing(old(View()), start, now)
    {
      hide ScanAll, WellFormed;
      ghost var goal := E.CheckOutgoing(View(), start, now);
      i, fl, g, emitted := 0, Flags(false, false, true), start, [];
      assert outgoing[0..] == outgoing && outgoing[..0] == [];
      StillWellFormed(View(), View().(outgoing := []));
      while i < |outgoing|
        invariant i <= |outgoing| && WellFormed(View()) && WellFormed(View().(outgoing := []))
        invariant ScanAll(Scanning(i, fl, g, emitted), now) == goal
        decreases |outgoing| - i
      {
        var over;
        i, fl, g, emitted, over := WalkTurn(i, fl, g, emitted, now);
        if over { return; }
      }
      ScanEnds(Scanning(i, fl, g, emitted), now);
    }

    /** The loop body, for the command at position `i0`. */
    method WalkTurn(i0: nat, fl0: Flags, g0: Gram, emitted0: seq<Cmd>, now: u32)
      returns (i: nat, fl: Flags, g: Gram, emitted: seq<Cmd>, over: bool)
      requires i0 < |outgoing| && WellFormed(View()) && WellFormed(View().(outgoing := []))
      modifies `chans, `outgoing, `sent, `sentUnreliable, `inTransit, `nextTimeout, `throttleCounter, `refs, `destroyed
      ensures i <= |outgoing| && WellFormed(View()) && WellFormed(View().(outgoing := []))
      ensures over ==> Scanning(i, fl, g, emitted) == ScanAll(old(Scanning(i0, fl0, g0, emitted0)), now)
      ensures !over ==> |outgoing| - i < old(|outgoing|) - i0
      ensures !over ==> ScanAll(Scanning(i, fl, g, emitted), now) == ScanAll(old(Scanning(i0, fl0, g0, emitted0)), now)
    {
      hide ScanAll, Gate, Emit, Fits, WellFormed;
      i, g, emitted, over := i0, g0, emitted0, false;
      var c := outgoing[i];
      assert outgoing[i..][0] == c && outgoing[i..][1..] == outgoing[i + 1..];
      ScanStep(Scanning(i, fl0, g, emitted), now);
      var wait;
      wait, fl := HoldsBack(c, fl0);
      if wait {
        assert outgoing[..i + 1] == outgoing[..i] + [c];
        i := i + 1;
      } else if !Fits(g, c, mtu) {
        g, over := g.(more := true), true;
      } else {
        g, emitted := EmitAt(i, now, g, emitted, fl);
      }
    }

    /** The state of the walk at position `i`. */
    ghost function Scanning(i: nat, fl: Flags, g: Gram, emitted: seq<Cmd>): Scan
      requires i <= |outgoing|
      reads this
    {
      Scan(View().(outgoing := []), outgoing[..i], outgoing[i..], fl, g, emitted)
    }

    /** The window tests at the head of the loop of check_outgoing_commands. */
    method HoldsBack(c: Cmd, fl0: Flags) returns (wait: bool, fl: Flags)
      requires WellFormed(View())
      ensures (wait, fl) == Gate(View().(outgoing := []), fl0, c)
    {
      wait, fl := false, fl0;
      if c.reliable {
        if c.chan < |chans| {
          if !fl.wrap && OpensWindowEarly(View(), c) { fl := fl.(wrap := true); }
          if fl.wrap { wait := true; return; }
        }
        if c.packet.Some? {
          if !fl.exceeded && ExceedsWindow(View(), c) { fl := fl.(exceeded := true); }
          if fl.exceeded { wait := true; return; }
        }
        fl := fl.(canPing := false);
      }
    }

    /** One command leaves the queue at position `i`: to the datagram, or dropped by the throttle. */
    method EmitAt(i: nat, now: u32, g0: Gram, emitted0: seq<Cmd>, ghost fl: Flags)
      returns (g: Gram, emitted: seq<Cmd>)
      requires i < |outgoing| && WellFormed(View())
      modifies `chans, `outgoing, `sent, `sentUnreliable, `inTransit, `nextTimeout, `throttleCounter, `refs, `destroyed
      ensures i <= |outgoing| < old(|outgoing|) && WellFormed(View()) && WellFormed(View().(outgoing := []))
      ensures Scanning(i, fl, g, emitted) == Emit(old(Scanning(i, fl, g0, emitted0)), now)
    {
      assert outgoing[i..][0] == outgoing[i] && outgoing[i..][1..] == outgoing[i + 1..];
      if outgoing[i].reliable {
        g := AfterCommand(g0, outgoing[i]);
        SendReliableAt(i, now);
        emitted := emitted0 + [sent[|sent| - 1]];
      } else {
        g, emitted := EmitUnreliableAt(i, now, g0, emitted0, fl);
      }
    }

    method EmitUnreliableAt(i: nat, now: u32, g0: Gram, emitted0: seq<Cmd>, ghost fl: Flags)
      returns (g: Gram, emitted: seq<Cmd>)
      requires i < |outgoing| && !outgoing[i].reliable && WellFormed(View())
      modifies `outgoing, `sentUnreliable, `throttleCounter, `refs, `destroyed
      ensures i <= |outgoing| < old(|outgoing|)
      ensures Scanning(i, fl, g, emitted) == Emit(old(Scanning(i, fl, g0, emitted0)), now)
    {
      hide DropGroup, AfterCommand;
      var c := outgoing[i];
      assert outgoing[i..][0] == c;
      if c.packet.Some? && c.offset == 0 && !c.unthrottled {
        throttleCounter := (throttleCounter + THROTTLE_COUNTER) % THROTTLE_SCALE;
        if throttleCounter > throttle {
          DropFrom(i, c.rseq, c.useq, fl, g0, emitted0);
          return g0, emitted0;
        }
      }
      KeepSent(i, fl, g0, emitted0);
      return AfterCommand(g0, c), emitted0 + [c];
    }

    /** An unreliable command that goes out: it waits in the sent list if it has a packet. */
    method KeepSent(i: nat, ghost fl: Flags, ghost g: Gram, ghost emitted: seq<Cmd>)
      requires i < |outgoing|
      modifies `outgoing, `sentUnreliable
      ensures i <= |outgoing| < old(|outgoing|)
      ensures var s, c := old(Scanning(i, fl, g, emitted)), old(outgoing[i]);
        Scanning(i, fl, g, emitted) == s.(rest := s.rest[1..],
          p := if c.packet.Some? then s.p.(sentUnreliable := s.p.sentUnreliable + [c]) else s.p)
    {
      var c := outgoing[i];
      assert outgoing[i..][1..] == outgoing[i + 1..];
      Unlink(i);
      if c.packet.Some? { sentUnreliable := sentUnreliable + [c]; }
    }

    method Unlink(i: nat)
      requires i < |outgoing|
      modifies `outgoing
      ensures outgoing == old(outgoing[..i] + outgoing[i + 1..])
      ensures outgoing[..i] == old(outgoing[..i]) && outgoing[i..] == old(outgoing[i + 1..])
    {
      outgoing := outgoing[..i] + outgoing[i + 1..];
    }

    /** Counts a first attempt in its window. */
    method CountAttempt(c: Cmd)
      requires WellFormed(View())
      modifies `chans
      ensures chans == if c.chan < old(|chans|) && c.attempts < 1
                       then old(chans[c.chan := OpenWindow(chans[c.chan], c.rseq / WINDOW_SIZE)]) else old(chans)
    {
      if c.chan < |chans| && c.attempts < 1 {
        var ch, w := chans[c.chan], c.rseq / WINDOW_SIZE;
        chans := chans[c.chan := ch.(used := ch.used[w := true], windows := ch.windows[w := ch.windows[w] + 1],
                                     newest := ch.newest + 1)];
      }
    }

    /** Stamps a command for one more attempt. */
    method Stamp(c: Cmd, now: u32) returns (d: Cmd)
      ensures d == Attempted(View(), c, now)
    {
      d := c.(attempts := (c.attempts + 1) % WRAP);
      if d.rto == 0 {
        d := d.(rto := Add32(rtt, 4 * rttVar));
        d := d.(rtoLimit := (timeoutLimit * d.rto) % 0x1_0000_0000);
      }
      d := d.(sentTime := now);
    }

    /** The reliable branch: counts a first attempt, stamps the command and moves it to the end of
        the sent list. */
    method SendReliableAt(i: nat, now: u32)
      requires i < |outgoing| && outgoing[i].reliable && WellFormed(View())
      modifies `chans, `outgoing, `sent, `inTransit, `nextTimeout
      ensures View() == Attempt(old(View().(outgoing := outgoing[..i] + outgoing[i + 1..])), old(outgoing[i]), now)
      ensures outgoing[..i] == old(outgoing[..i]) && outgoing[i..] == old(outgoing[i + 1..])
      ensures sent == old(sent + [Attempted(View(), outgoing[i], now)])
    {
      hide Attempted, OpenWindow, Attempt, WellFormed;
      var c := outgoing[i];
      ghost var p := View().(outgoing := outgoing[..i] + outgoing[i + 1..]);
      StillWellFormed(View(), p);
      var d := Stamp(c, now);
      SameAttempt(View(), p, c, now);
      SameLength(p, c, now);
      CountAttempt(c);
      LinkSent(i, d, now);
      AttemptIs(p, c, now, View());
    }

    /** Moves the command at `i`, stamped, to the end of the sent list. */
    method LinkSent(i: nat, d: Cmd, now: u32)
      requires i < |outgoing|
      modifies `outgoing, `sent, `inTransit, `nextTimeout
      ensures View() == old(View().(
        outgoing := outgoing[..i] + outgoing[i + 1..], sent := sent + [d], inTransit := inTransit + d.len,
        nextTimeout := if sent == [] then Add32(now, d.rto) else nextTimeout))
      ensures outgoing[..i] == old(outgoing[..i]) && outgoing[i..] == old(outgoing[i + 1..])
    {
      if sent == [] { nextTimeout := Add32(now, d.rto); }
      Unlink(i);
      sent, inTransit := sent + [d], inTransit + d.len;
    }

    /** The throttle's inner loop: drops the command at `i` and those after it with its numbers. */
    method DropFrom(i: nat, rseq: u16, useq: u16, ghost fl: Flags, ghost g: Gram, ghost emitted: seq<Cmd>)
      requires i < |outgoing|
      modifies `outgoing, `refs, `destroyed
      ensures i <= |outgoing| < old(|outgoing|)
      ensures Scanning(i, fl, g, emitted) == DropGroup(old(Scanning(i, fl, g, emitted)), rseq, useq)
    {
      hide DropGroup, Skipped;
      ghost var goal := DropGroup(Scanning(i, fl, g, emitted), rseq, useq);
      while true
        invariant i < |outgoing| <= old(|outgoing|)
        invariant DropGroup(Scanning(i, fl, g, emitted), rseq, useq) == goal
        decreases |outgoing|
      {
        DropGroupStep(Scanning(i, fl, g, emitted), rseq, useq);
        DropAt(i, fl, g, emitted);
        if i == |outgoing| { break; }
        assert outgoing[i..][0] == outgoing[i];
        if outgoing[i].rseq != rseq || outgoing[i].useq != useq { break; }
      }
    }

    method DropAt(i: nat, ghost fl: Flags, ghost g: Gram, ghost emitted: seq<Cmd>)
      requires i < |outgoing|
      modifies `outgoing, `refs, `destroyed
      ensures |outgoing| == old(|outgoing|) - 1
      ensures Scanning(i, fl, g, emitted) == Skipped(old(Scanning(i, fl, g, emitted)))
    {
      var id := outgoing[i].packet;
      assert outgoing[i..][0] == outgoing[i] && outgoing[i..][1..] == outgoing[i + 1..];
      Release(id);
      Unlink(i);
      ReleaseIgnoresQueue(old(View()), id);
    }

    /** check_timeouts: puts timed-out commands back in front of the queue, unless the peer is to
        be given up. */
    method CheckTimeouts(now: u32) returns (gaveUp: bool)
      modifies `outgoing, `sent, `inTransit, `nextTimeout, `earliestTimeout
      ensures (View(), gaveUp) == E.CheckTimeouts(old(View()), now)
      ensures gaveUp <==> T.GivenUp(old(View()), now)
      ensures !gaveUp ==> T.SentAgain(old(View()), now, View())
    {
      hide TimeoutLoop, Rearmed, TimedOut, T.GivenUp, T.SentAgain;
      T.CheckTimeoutsMeans(View(), now);
      ghost var goal := E.CheckTimeouts(View(), now);
      ghost var p0, kept, rest, moved: seq<Cmd> := View(), [], sent, [];
      var i, position := 0, 0;
      assert kept + rest == rest && moved + p0.outgoing == p0.outgoing;
      StartOfLoop(p0, now);
      while i < |sent|
        invariant sent == kept + rest && i == |kept| && outgoing == moved + p0.outgoing && position == |moved|
        invariant TimeoutLoop(Outside(p0), kept, rest, moved, now) == goal
        invariant rtt == p0.rtt && rttVar == p0.rttVar && timeoutLimit == p0.timeoutLimit
        decreases |rest|
      {
        if !TimedOut(sent[i], now) {
          PassedOver(Outside(p0), kept, rest, moved, now);
          kept, rest := kept + [rest[0]], rest[1..];
          i := i + 1;
        } else {
          gaveUp := TimeOutAt(i, position, now, p0, kept, rest, moved);
          if gaveUp { return; }
          moved := moved + [Rearmed(p0, rest[0])];
          rest := rest[1..];
          position := position + 1;
        }
      }
      EndOfLoop(Outside(p0), kept, rest, moved, now);
      return false;
    }

    /** The peer apart from the two lists that check_timeouts works on. */
    ghost function Outside(p0: Peer): Peer
      reads this
    {
      View().(outgoing := p0.outgoing, sent := p0.sent)
    }

    /** One timed-out command: it goes back to the queue, or the peer is given up. */
    method TimeOutAt(i: nat, position: nat, now: u32,
                     ghost p0: Peer, ghost kept: seq<Cmd>, ghost rest: seq<Cmd>, ghost moved: seq<Cmd>)
      returns (gaveUp: bool)
      requires sent == kept + rest && i == |kept| < |sent| && TimedOut(sent[i], now)
      requires outgoing == moved + p0.outgoing && position == |moved|
      requires rtt == p0.rtt && rttVar == p0.rttVar && timeoutLimit == p0.timeoutLimit
      modifies `outgoing, `sent, `inTransit, `nextTimeout, `earliestTimeout
      ensures gaveUp ==> (View(), true) == TimeoutLoop(old(Outside(p0)), kept, rest, moved, now)
      ensures !gaveUp ==>
        && sent == kept + rest[1..] && outgoing == moved + [Rearmed(p0, rest[0])] + p0.outgoing
        && TimeoutLoop(Outside(p0), kept, rest[1..], moved + [Rearmed(p0, rest[0])], now)
           == TimeoutLoop(old(Outside(p0)), kept, rest, moved, now)
    {
      hide TimeoutLoop, TimedOut, Rearmed;
      TimedOutStep(Outside(p0), kept, rest, moved, now);
      SameRearmed(Outside(p0), p0, rest[0]);
      var c := sent[i];
      if earliestTimeout == 0 || TimeLess(c.sentTime, earliestTimeout) { earliestTimeout := c.sentTime; }
      if GivesUp(View(), earliestTimeout, c, now) { return true; }
      PutBack(i, position, p0, kept, rest, moved);
      return false;
    }

    /** Moves the timed-out command sent[i], rearmed, to `position` of the outgoing queue. */
    method PutBack(i: nat, position: nat,
                   ghost p0: Peer, ghost kept: seq<Cmd>, ghost rest: seq<Cmd>, ghost moved: seq<Cmd>)
      requires sent == kept + rest && i == |kept| < |sent|
      requires outgoing == moved + p0.outgoing && position == |moved|
      requires rtt == p0.rtt && rttVar == p0.rttVar && timeoutLimit == p0.timeoutLimit
      modifies `outgoing, `sent, `inTransit, `nextTimeout
      ensures var c, p := rest[0], old(View());
        && sent == kept + rest[1..] && outgoing == moved + [Rearmed(p0, c)] + p0.outgoing
        && inTransit == (if c.packet.Some? then p.inTransit - c.len else p.inTransit)
        && nextTimeout == (if kept == [] && |rest| > 1 then Deadline(rest[1]) else p.nextTimeout)
    {
      var c := sent[i];
      if c.packet.Some? { inTransit := inTransit - c.len; }
      var d := c.(rto := Add32(rtt, 4 * rttVar));
      d := d.(rtoLimit := (timeoutLimit * d.rto) % 0x1_0000_0000);
      sent := sent[..i] + sent[i + 1..];
      outgoing := outgoing[..position] + [d] + outgoing[position..];
      if i == 0 && sent != [] { nextTimeout := Add32(sent[0].sentTime, sent[0].rto); }
    }

    /** The first walk of remove_sent_reliable_command. */
    method FindInSent(rseq: u16, chan: nat) returns (r: Option<nat>)
      ensures r == FindSent(sent, rseq, chan, 0)
    {
      var i := 0;
      while i < |sent|
        invariant i <= |sent|
        invariant FindSent(sent, rseq, chan, i) == FindSent(sent, rseq, chan, 0)
      {
        if Matches(sent[i], rseq, chan) { return Some(i); }
        i := i + 1;
      }
      return None;
    }

    /** The second walk, which ends at the first command never attempted. */
    method FindInOutgoing(rseq: u16, chan: nat) returns (r: Option<nat>)
      ensures r == FindAttempted(outgoing, rseq, chan, 0)
    {
      var i := 0;
      while i < |outgoing|
        invariant i <= |outgoing|
        invariant FindAttempted(outgoing, rseq, chan, i) == FindAttempted(outgoing, rseq, chan, 0)
      {
        if outgoing[i].attempts < 1 { return None; }
        if Matches(outgoing[i], rseq, chan) { return Some(i); }
        i := i + 1;
      }
      return None;
    }

    /** Takes an acknowledged command out of its window's count. */
    method UncountWindow(rseq: u16, chan: nat)
      requires WellFormed(View())
      modifies `chans
      ensures chans == if chan < old(|chans|)
                       then old(chans[chan := CloseWindow(chans[chan], rseq / WINDOW_SIZE)]) else old(chans)
    {
      if chan < |chans| {
        var ch, w := chans[chan], rseq / WINDOW_SIZE;
        if ch.windows[w] > 0 {
          ch := ch.(windows := ch.windows[w := ch.windows[w] - 1]);
          if ch.windows[w] == 0 { ch := ch.(used := ch.used[w := false]); }
        }
        chans := chans[chan := ch];
      }
    }

    /** remove_sent_reliable_command: finds the acknowledged command in the sent list or among the
        attempted commands still queued, unlinks it and settles its accounts. */
    method RemoveSentReliable(rseq: u16, chan: nat) returns (kind: Option<Kind>)
      requires WellFormed(View())
      modifies `chans, `outgoing, `sent, `inTransit, `nextTimeout, `refs, `destroyed
      ensures (View(), kind) == E.RemoveSentReliable(old(View()), rseq, chan)
    {
      var i := FindInSent(rseq, chan);
      var c: Cmd;
      if i.Some? {
        c := sent[i.value];
        sent := sent[..i.value] + sent[i.value + 1..];
      } else {
        var j := FindInOutgoing(rseq, chan);
        if j.None? { return None; }
        c := outgoing[j.value];
        outgoing := outgoing[..j.value] + outgoing[j.value + 1..];
      }
      SettleAccounts(c, rseq, chan, i.Some?);
      return Some(c.kind);
    }

    method SettleAccounts(c: Cmd, rseq: u16, chan: nat, wasSent: bool)
      requires WellFormed(View())
      modifies `chans, `inTransit, `nextTimeout, `refs, `destroyed
      ensures View() == Settle(old(View()), c, rseq, chan, wasSent)
    {
      hide CloseWindow, E.Release, Settle, WellFormed;
      ghost var p0 := View();
      UncountWindow(rseq, chan);
      if c.packet.Some? && wasSent { inTransit := inTransit - c.len; }
      SettleIs(p0, c, rseq, chan, wasSent, View());
      Release(c.packet);
      if sent != [] { nextTimeout := Add32(sent[0].sentTime, sent[0].rto); }
    }

    /** remove_sent_unreliable_commands; `idle` as for the pass over the queue, but only when there
        was something to remove. */
    method RemoveSentUnreliable() returns (idle: bool)
      modifies `sentUnreliable, `refs, `destroyed
      ensures View() == E.RemoveSentUnreliable(old(View()))
      ensures idle <==> |outgoing| + |sent| + |sentUnreliable| == 0 < |old(sentUnreliable)|
    {
      var some := sentUnreliable != [];
      ReleaseSent();
      idle := some && outgoing == [] && sent == [];
    }

    /** The loop over the sent unreliable commands. */
    method ReleaseSent()
      modifies `sentUnreliable, `refs, `destroyed
      ensures View() == E.RemoveSentUnreliable(old(View())) && sentUnreliable == []
    {
      ghost var goal := E.RemoveSentUnreliable(View());
      while sentUnreliable != []
        invariant ReleaseAll(View().(sentUnreliable := []), sentUnreliable) == goal
        decreases |sentUnreliable|
      {
        var c := sentUnreliable[0];
        sentUnreliable := sentUnreliable[1..];
        Release(c.packet);
      }
    }

    /** enet_peer_reset_outgoing_commands, for the three lists of enet_peer_reset_queues. */
    method ResetQueues()
      modifies `sent, `sentUnreliable, `outgoing, `refs, `destroyed
      ensures View() == E.ResetQueues(old(View()))
    {
      hide ReleaseAll;
      ResetSent();
      ReleaseSent();
      ResetOutgoing();
    }

    method ResetSent()
      modifies `sent, `refs, `destroyed
      ensures View() == ReleaseAll(old(View()).(sent := []), old(sent))
    {
      ghost var goal := ReleaseAll(View().(sent := []), sent);
      while sent != []
        invariant ReleaseAll(View().(sent := []), sent) == goal
        decreases |sent|
      {
        var c := sent[0];
        sent := sent[1..];
        Release(c.packet);
      }
    }

    method ResetOutgoing()
      modifies `outgoing, `refs, `destroyed
      ensures View() == ReleaseAll(old(View()).(outgoing := []), old(outgoing))
    {
      ghost var goal := ReleaseAll(View().(outgoing := []), outgoing);
      while outgoing != []
        invariant ReleaseAll(View().(outgoing := []), outgoing) == goal
        decreases |outgoing|
      {
        var c := outgoing[0];
        outgoing := outgoing[1..];
        Release(c.packet);
      }
    }
  }
}
