/** When a queued command goes out and when it waits: the gate of check_outgoing_commands in terms of
    what is unacknowledged, the room in a datagram, what a pass leaves in the queue and why, and how
    many packets the throttle lets through. */
module SenderProgress {
  import opened Options
  import opened SeqNumbers
  import opened WindowBits
  import opened EnetSender
  import opened SenderInvariants

  // ----- the gate -----

  /** Number of unacknowledged commands of a window: attempted, and sent or waiting to be sent again. */
  ghost function Unacknowledged(p: Peer, ch: nat, w: nat): nat {
    Total(p.sent, Counted(ch, w)) + Total(p.outgoing, Counted(ch, w))
  }

  /** The first command of a window is held back before its first attempt: if the window before is
      wholly unacknowledged, or if anything is in the window itself or the nine after it. */
  ghost predicate HeldAtWindow(p: Peer, c: Cmd) {
    var w := c.rseq / 0x1000;
    && c.attempts == 0 && c.rseq % 0x1000 == 0
    && (|| Unacknowledged(p, c.chan, (w + 15) % 16) >= 0x1000
        || exists v | 0 <= v < 16 && (v + 16 - w) % 16 < 10 :: Unacknowledged(p, c.chan, v) > 0)
  }

  lemma OpensEarlyMeans(p: Peer, c: Cmd)
    requires WellFormed(p) && WindowCounts(p) && c.chan < |p.chans|
    ensures OpensWindowEarly(p, c) <==> HeldAtWindow(p, c)
  {
    hide Total, OpeningMask, InMask;
    var ch, w := p.chans[c.chan], c.rseq / WINDOW_SIZE;
    var before := (w + 15) % 16;
    assert ch.windows[before] == Unacknowledged(p, c.chan, before);
    forall v | 0 <= v < 16
      ensures ch.used[v] && InMask(w, v) <==> (v + 16 - w) % 16 < 10 && Unacknowledged(p, c.chan, v) > 0
    {
      MaskMeaning(w, v);
    }
  }

  /** A command with data is held back if it would bring the data in transit above one mtu and above
      the throttle's part of the window. */
  predicate HeldByTransit(p: Peer, c: Cmd) {
    p.inTransit + c.len > p.mtu && 32 * (p.inTransit + c.len) > p.throttle * p.windowSize
  }

  lemma ExceedsMeans(p: Peer, c: Cmd)
    ensures ExceedsWindow(p, c) <==> HeldByTransit(p, c)
  {
    var x, y := p.throttle * p.windowSize, p.inTransit + c.len;
    assert x == 32 * (x / 32) + x % 32;
  }

  /** A reliable command waits exactly if it, or one before it in this pass, was held back: on
      channels by a window, and with data by what is in transit. */
  lemma GateMeans(p: Peer, fl: Flags, c: Cmd)
    requires WellFormed(p) && WindowCounts(p)
    ensures var (wait, fl') := Gate(p, fl, c);
      var windowed, heavy := c.chan < |p.chans|, c.packet.Some?;
      && (wait <==> c.reliable && ((windowed && (fl.wrap || HeldAtWindow(p, c)))
                                   || (heavy && (fl.exceeded || HeldByTransit(p, c)))))
      && (fl'.wrap <==> fl.wrap || (c.reliable && windowed && HeldAtWindow(p, c)))
      && (fl.exceeded ==> fl'.exceeded)
      && (fl'.exceeded && !fl.exceeded ==> c.reliable && heavy && HeldByTransit(p, c))
      && fl'.canPing == (fl.canPing && (wait || !c.reliable))
  {
    hide OpensWindowEarly, HeldAtWindow, HeldByTransit, ExceedsWindow;
    if c.chan < |p.chans| { OpensEarlyMeans(p, c); }
    ExceedsMeans(p, c);
  }

  // ----- the datagram -----

  /** A command goes into the datagram exactly if there are fewer than 32 commands in it, two of its
      65 buffers are left, and the command and its data fit the mtu. */
  lemma FitsMeans(g: Gram, c: Cmd, mtu: nat)
    requires g.bytes <= mtu < WRAP && SizeOf(c.kind) + c.len < WRAP
    ensures Fits(g, c, mtu) <==>
      && g.commands < 32 && g.buffers + 2 <= 65
      && g.bytes + SizeOf(c.kind) + (if c.packet.Some? then c.len else 0) <= mtu
  {
  }

  /** What goes in is counted: one command, one buffer more with data, and all its bytes. */
  lemma CountedIn(s: Scan, now: u32)
    requires WellFormed(s.p) && s.rest != [] && Emit(s, now).emitted != s.emitted
    ensures var t, c := Emit(s, now), s.rest[0];
      && |t.emitted| == |s.emitted| + 1 && t.rest == s.rest[1..]
      && t.g.commands == s.g.commands + 1 && t.g.buffers == s.g.buffers + (if c.packet.Some? then 2 else 1)
      && t.g.bytes == s.g.bytes + SizeOf(c.kind) + (if c.packet.Some? then c.len else 0)
      && (t.g.sentTimeFlag <==> s.g.sentTimeFlag || c.reliable)
  {
    hide Attempt, Attempted;
    DropEmitsNothing(s.(p := s.p.(throttleCounter := (s.p.throttleCounter + THROTTLE_COUNTER) % THROTTLE_SCALE)),
                     s.rest[0].rseq, s.rest[0].useq);
  }

  lemma {:induction false} DropEmitsNothing(s: Scan, rseq: u16, useq: u16)
    requires s.rest != []
    ensures var t := DropGroup(s, rseq, useq);
      t.emitted == s.emitted && t.g == s.g && t.kept == s.kept && t.fl == s.fl && t.p.throttle == s.p.throttle
      && t.p.throttleCounter == s.p.throttleCounter && t.p.chans == s.p.chans && t.p.mtu == s.p.mtu
    decreases |s.rest|
  {
    var s' := s.(p := Release(s.p, s.rest[0].packet), rest := s.rest[1..]);
    if !(s'.rest == [] || s'.rest[0].rseq != rseq || s'.rest[0].useq != useq) { DropEmitsNothing(s', rseq, useq); }
  }

  /** A reliable command that goes out joins the end of the sent list, stamped with the time, with
      one attempt more, and with a time-out: its own, or before the first attempt the peer's. */
  lemma AttemptRecords(s: Scan, now: u32)
    requires WellFormed(s.p) && s.rest != [] && s.rest[0].reliable
    ensures var t, c := Emit(s, now), s.rest[0];
      var rto := (s.p.rtt + 4 * s.p.rttVar) % 0x1_0000_0000;
      var d := c.(attempts := (c.attempts + 1) % 0x1_0000, sentTime := now,
                  rto := if c.rto == 0 then rto else c.rto,
                  rtoLimit := if c.rto == 0 then (s.p.timeoutLimit * rto) % 0x1_0000_0000 else c.rtoLimit);
      && t.p.sent == s.p.sent + [d] && t.emitted == s.emitted + [d] && t.rest == s.rest[1..]
      && t.p.inTransit == s.p.inTransit + c.len
  {
  }

  // ----- what a pass leaves -----

  /** Why a command was passed over. */
  predicate PassedOver(t: Scan, c: Cmd) {
    c.reliable && ((c.chan < |t.p.chans| && t.fl.wrap) || (c.packet.Some? && t.fl.exceeded))
  }

  lemma EmitKeepsRest(s: Scan, now: u32)
    requires WellFormed(s.p) && s.rest != []
    ensures var t := Emit(s, now); t.kept == s.kept && t.fl == s.fl && |t.p.chans| == |s.p.chans| && t.p.mtu == s.p.mtu
  {
    DropEmitsNothing(s.(p := s.p.(throttleCounter := (s.p.throttleCounter + THROTTLE_COUNTER) % THROTTLE_SCALE)),
                     s.rest[0].rseq, s.rest[0].useq);
  }

  lemma GateRaises(p: Peer, fl: Flags, c: Cmd)
    requires WellFormed(p)
    ensures var (wait, fl') := Gate(p, fl, c);
      && (fl.wrap ==> fl'.wrap) && (fl.exceeded ==> fl'.exceeded)
      && (wait ==> c.reliable && ((c.chan < |p.chans| && fl'.wrap) || (c.packet.Some? && fl'.exceeded)))
  {
  }

  /** A pass ends when the next command does not fit, or at the end of the queue; and what it has
      passed over waits for a window or for data in transit. */
  lemma {:induction false} PassLeaves(s: Scan, now: u32)
    requires WellFormed(s.p) && forall c | c in s.kept :: PassedOver(s, c)
    ensures var t := ScanAll(s, now);
      && (forall c | c in t.kept :: PassedOver(t, c))
      && (t.rest == [] || (!Fits(t.g, t.rest[0], t.p.mtu) && t.g.more))
      && |t.p.chans| == |s.p.chans| && (s.fl.wrap ==> t.fl.wrap) && (s.fl.exceeded ==> t.fl.exceeded)
    decreases |s.rest|
  {
    hide Gate, Emit, WellFormed, Fits;
    if s.rest == [] {
      ScanEnds(s, now);
    } else {
      ScanStep(s, now);
      var c := s.rest[0];
      GateRaises(s.p, s.fl, c);
      var (wait, fl) := Gate(s.p, s.fl, c);
      if wait {
        PassLeaves(s.(kept := s.kept + [c], rest := s.rest[1..], fl := fl), now);
      } else if Fits(s.g, c, s.p.mtu) {
        EmitKeepsRest(s.(fl := fl), now);
        PassLeaves(Emit(s.(fl := fl), now), now);
      } else {
        FitsIgnoresMore(s.g, c, s.p.mtu);
      }
    }
  }

  lemma FitsIgnoresMore(g: Gram, c: Cmd, mtu: nat)
    ensures Fits(g.(more := true), c, mtu) == Fits(g, c, mtu)
  {
  }

  /** Whenever a pass holds commands back, it has met, in some state on its way, a command that was
      held back itself: with the unacknowledged commands and the data in transit of that moment. */
  lemma {:induction false} FlagsAreRaised(s: Scan, now: u32) returns (atWindow: Option<Scan>, inTransit: Option<Scan>)
    requires ScanOk(s)
    ensures !s.fl.wrap && ScanAll(s, now).fl.wrap ==>
      && atWindow.Some? && var w := atWindow.value;
      ScanOk(w) && w.rest != [] && ScanAll(w, now) == ScanAll(s, now)
      && w.rest[0].reliable && w.rest[0].chan < |w.p.chans| && HeldAtWindow(PeerOf(w), w.rest[0])
    ensures !s.fl.exceeded && ScanAll(s, now).fl.exceeded ==>
      && inTransit.Some? && var w := inTransit.value;
      ScanOk(w) && w.rest != [] && ScanAll(w, now) == ScanAll(s, now)
      && w.rest[0].reliable && w.rest[0].packet.Some? && HeldByTransit(PeerOf(w), w.rest[0])
    decreases |s.rest|
  {
    hide Inv, Gate, Emit, Fits, NoneCaught, HeldAtWindow, HeldByTransit, ScanAll, WellFormed;
    atWindow, inTransit := None, None;
    if s.rest == [] {
      assert WellFormed(s.p) by { StateOk(s); }
      ScanEnds(s, now);
    } else {
      HeadOk(s);
      ScanStep(s, now);
      GateAtHead(s);
      var c := s.rest[0];
      var (wait, fl) := Gate(s.p, s.fl, c);
      if wait || Fits(s.g, c, s.p.mtu) {
        var s1 := NextOk(s, now);
        atWindow, inTransit := FlagsAreRaised(s1, now);
      }
      if fl.wrap && !s.fl.wrap { atWindow := Some(s); }
      if fl.exceeded && !s.fl.exceeded { inTransit := Some(s); }
    }
  }

  lemma StateOk(s: Scan)
    requires ScanOk(s)
    ensures WellFormed(s.p)
  {
  }

  lemma GateAtHead(s: Scan)
    requires ScanOk(s) && s.rest != []
    ensures WellFormed(s.p)
    ensures var (fl, fl') := (s.fl, Gate(s.p, s.fl, s.rest[0]).1); var c := s.rest[0];
      && (fl'.wrap && !fl.wrap ==> c.reliable && c.chan < |s.p.chans| && HeldAtWindow(PeerOf(s), c))
      && (fl'.exceeded && !fl.exceeded ==> c.reliable && c.packet.Some? && HeldByTransit(PeerOf(s), c))
  {
    hide OpensWindowEarly, HeldAtWindow, HeldByTransit, ExceedsWindow, Total;
    var p, c := PeerOf(s), s.rest[0];
    GateMeans(p, s.fl, c);
    GateIgnoresQueue(s.p, p.outgoing, s.fl, c);
  }

  lemma GateIgnoresQueue(p: Peer, q: seq<Cmd>, fl: Flags, c: Cmd)
    requires WellFormed(p)
    ensures WellFormed(p.(outgoing := q)) && Gate(p.(outgoing := q), fl, c) == Gate(p, fl, c)
  {
  }

  /** The state after one turn of the loop. */
  lemma NextOk(s: Scan, now: u32) returns (s1: Scan)
    requires ScanOk(s) && s.rest != [] && WellFormed(s.p)
    requires Gate(s.p, s.fl, s.rest[0]).0 || Fits(s.g, s.rest[0], s.p.mtu)
    ensures ScanOk(s1) && |s1.rest| < |s.rest| && ScanAll(s1, now) == ScanAll(s, now)
    ensures s1.fl == Gate(s.p, s.fl, s.rest[0]).1
  {
    hide Inv, Gate, Emit, Fits, NoneCaught, ScanAll;
    HeadOk(s);
    ScanStep(s, now);
    GateFlags(s.p, s.fl, s.rest[0]);
    NoneCaughtBehind(s.rest);
    var (wait, fl) := Gate(s.p, s.fl, s.rest[0]);
    if wait {
      s1 := s.(kept := s.kept + [s.rest[0]], rest := s.rest[1..], fl := fl);
      PassedOverStays(s, fl);
    } else {
      var s' := s.(fl := fl);
      assert PeerOf(s') == PeerOf(s);
      if s.rest[0].reliable { EmitReliableOk(s', now); } else { EmitUnreliableOk(s', now); }
      EmitKeepsRest(s', now);
      s1 := Emit(s', now);
    }
  }
}
