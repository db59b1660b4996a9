/** What every operation of the sender keeps: window accounting, uniqueness and order of the
    reliable numbers, data in transit. */
module SenderInvariants {
  import opened Options
  import opened SeqNumbers
  import opened WindowBits
  import opened EnetSender

  // ----- counting over a list of commands -----

  ghost function Total(cs: seq<Cmd>, f: Cmd -> nat): nat {
    if cs == [] then 0 else f(cs[0]) + Total(cs[1..], f)
  }

  lemma TotalAppend(a: seq<Cmd>, b: seq<Cmd>, f: Cmd -> nat)
    ensures Total(a + b, f) == Total(a, f) + Total(b, f)
  {
    if a == [] {
      assert a + b == b;
    } else {
      assert (a + b)[1..] == a[1..] + b;
      TotalAppend(a[1..], b, f);
    }
  }

  lemma TotalSplit(a: seq<Cmd>, c: Cmd, b: seq<Cmd>, f: Cmd -> nat)
    ensures Total(a + [c] + b, f) == Total(a + b, f) + f(c)
    ensures Total(a + [c], f) == Total(a, f) + f(c)
    ensures Total([c] + a, f) == Total(a, f) + f(c)
  {
    TotalAppend(a + [c], b, f);
    TotalAppend(a, [c], f);
    TotalAppend([c], a, f);
    TotalAppend(a, b, f);
    assert Total([c], f) == f(c);
  }

  lemma TotalMember(cs: seq<Cmd>, k: nat, f: Cmd -> nat)
    requires k < |cs|
    ensures Total(cs, f) >= f(cs[k])
  {
    assert cs == cs[..k] + [cs[k]] + cs[k + 1..];
    TotalSplit(cs[..k], cs[k], cs[k + 1..], f);
  }

  lemma TotalTwo(cs: seq<Cmd>, j: nat, k: nat, f: Cmd -> nat)
    requires j < k < |cs|
    ensures Total(cs, f) >= f(cs[j]) + f(cs[k])
  {
    assert cs == cs[..k] + [cs[k]] + cs[k + 1..];
    TotalSplit(cs[..k], cs[k], cs[k + 1..], f);
    TotalMember(cs[..k] + cs[k + 1..], j, f);
  }

  lemma TotalZero(cs: seq<Cmd>, f: Cmd -> nat)
    requires forall k | 0 <= k < |cs| :: f(cs[k]) == 0
    ensures Total(cs, f) == 0
  {
    if cs != [] {
      assert forall k | 0 <= k < |cs| - 1 :: f(cs[1..][k]) == f(cs[k + 1]);
      TotalZero(cs[1..], f);
    }
  }

  lemma TotalWitness(cs: seq<Cmd>, f: Cmd -> nat) returns (k: nat)
    requires Total(cs, f) > 0
    ensures k < |cs| && f(cs[k]) > 0
  {
    if f(cs[0]) > 0 {
      k := 0;
    } else {
      k := TotalWitness(cs[1..], f);
      k := k + 1;
    }
  }

  /** An attempted reliable command of channel `ch` whose number lies in window `w`. */
  predicate IsCounted(c: Cmd, ch: nat, w: nat) {
    c.reliable && c.chan == ch && c.attempts > 0 && c.rseq / WINDOW_SIZE == w
  }

  ghost function Counted(ch: nat, w: nat): Cmd -> nat { (c: Cmd) => if IsCounted(c, ch, w) then 1 else 0 }

  ghost function IsIndex(ch: nat, i: nat): Cmd -> nat {
    (c: Cmd) => if c.reliable && c.chan == ch && c.index == i then 1 else 0
  }

  ghost function IsFresh(ch: nat, i: nat): Cmd -> nat {
    (c: Cmd) => if c.reliable && c.chan == ch && c.index == i && c.attempts == 0 then 1 else 0
  }

  ghost function Length(): Cmd -> nat { (c: Cmd) => c.len }

  // ----- the invariant -----

  predicate Fresh(c: Cmd) { c.reliable && c.chan != PEER_CHANNEL && c.attempts == 0 }

  ghost predicate CmdOk(p: Peer, c: Cmd) {
    && (c.chan == PEER_CHANNEL || c.chan < |p.chans|)
    && (c.chan == PEER_CHANNEL <==> c.packet.None?)
    && (c.packet.None? ==> c.len == 0 && c.reliable)
    && SizeOf(c.kind) + c.len + 12 <= p.mtu
    && (c.reliable ==> c.useq == 0)
    && (!c.reliable ==> if c.kind == SendUnsequenced then c.rseq == c.useq == 0 else c.useq > 0)
    && (!c.reliable ==> c.attempts == 0)
    && (c.reliable && c.chan < |p.chans| ==>
        var ch := p.chans[c.chan];
        && 1 <= c.index <= ch.total
        && c.rseq == Low16(c.index)
        && (c.attempts > 0 <==> c.index <= ch.newest)
        && (c.attempts > 0 ==> WindowOf(c.index) + 6 >= WindowOf(ch.newest)))
  }

  ghost predicate Shape(p: Peer) {
    && WellFormed(p)
    && p.mtu < WRAP
    && (forall ch | 0 <= ch < |p.chans| ::
          p.chans[ch].newest <= p.chans[ch].total && p.chans[ch].outSeq == Low16(p.chans[ch].total))
    && (forall k | 0 <= k < |p.outgoing| :: CmdOk(p, p.outgoing[k]))
    && (forall k | 0 <= k < |p.sent| :: CmdOk(p, p.sent[k]) && p.sent[k].reliable && p.sent[k].attempts > 0)
    && (forall k | 0 <= k < |p.sentUnreliable| :: p.sentUnreliable[k].packet.Some?)
  }

  /** In the outgoing queue, attempted commands precede all others, and new commands of a
      channel stand in the order of their numbers. */
  ghost predicate Order(q: seq<Cmd>) {
    && (forall a, b | 0 <= a < b < |q| :: q[b].attempts > 0 ==> q[a].attempts > 0)
    && (forall a, b | 0 <= a < b < |q| ::
          Fresh(q[a]) && Fresh(q[b]) && q[a].chan == q[b].chan ==> q[a].index < q[b].index)
  }

  ghost predicate WindowCounts(p: Peer)
    requires WellFormed(p)
  {
    forall ch, w | 0 <= ch < |p.chans| && 0 <= w < 16 ::
      && p.chans[ch].windows[w] == Total(p.sent, Counted(ch, w)) + Total(p.outgoing, Counted(ch, w))
      && (p.chans[ch].used[w] <==> p.chans[ch].windows[w] > 0)
  }

  ghost predicate Unique(p: Peer) {
    && (forall ch, i: nat | 0 <= ch < |p.chans| ::
          Total(p.sent, IsIndex(ch, i)) + Total(p.outgoing, IsIndex(ch, i)) <= 1)
    && (forall ch, i: nat | 0 <= ch < |p.chans| && p.chans[ch].newest < i <= p.chans[ch].total ::
          Total(p.outgoing, IsFresh(ch, i)) == 1)
  }

  ghost predicate Inv(p: Peer) {
    && Shape(p)
    && Order(p.outgoing)
    && WindowCounts(p)
    && Unique(p)
    && p.inTransit == Total(p.sent, Length())
  }

  lemma InvWellFormed(p: Peer)
    requires Inv(p)
    ensures WellFormed(p) && WellFormed(p.(outgoing := []))
  {
  }

  // ----- setup -----

  /** What enet_peer_send and the control commands respect when they set a command up. */
  predicate CanSetup(p: Peer, c: Cmd)
    requires WellFormed(p)
  {
    && (c.chan == PEER_CHANNEL || c.chan < |p.chans|)
    && (c.chan == PEER_CHANNEL <==> c.packet.None?)
    && (c.packet.None? ==> c.len == 0 && c.reliable)
    && SizeOf(c.kind) + c.len + 12 <= p.mtu
    && (!c.reliable && c.kind != SendUnsequenced ==>
          if c.offset == 0 then p.chans[c.chan].outUnrel < WRAP - 1 else p.chans[c.chan].outUnrel > 0)
  }

  lemma SetupShape(p: Peer, c: Cmd)
    requires Shape(p) && CanSetup(p, c)
    ensures Shape(Setup(p, c))
  {
    var p' := Setup(p, c);
    if c.reliable && c.chan < |p.chans| {
      var n := p'.chans[c.chan].total;
      assert Low16(n) == (Low16(n - 1) + 1) % WRAP;
    }
    forall k | 0 <= k < |p.outgoing| ensures CmdOk(p', p.outgoing[k]) {
      assert CmdOk(p, p.outgoing[k]);
    }
    forall k | 0 <= k < |p.sent| ensures CmdOk(p', p.sent[k]) {
      assert CmdOk(p, p.sent[k]);
    }
  }

  /** The command that setup appends. */
  ghost function Appended(p: Peer, c: Cmd): (d: Cmd)
    requires WellFormed(p) && CanSetup(p, c)
    ensures Setup(p, c).outgoing == p.outgoing + [d]
    ensures d.attempts == 0 && d.chan == c.chan && d.reliable == c.reliable
    ensures c.chan < |p.chans| && c.reliable ==> d.index == p.chans[c.chan].total + 1
  {
    Setup(p, c).outgoing[|p.outgoing|]
  }

  lemma SetupCounts(p: Peer, c: Cmd)
    requires Shape(p) && CanSetup(p, c) && WindowCounts(p) && WellFormed(Setup(p, c))
    ensures WindowCounts(Setup(p, c))
  {
    var p', d := Setup(p, c), Appended(p, c);
    forall ch, w | 0 <= ch < |p'.chans| && 0 <= w < 16
      ensures p'.chans[ch].windows[w] == Total(p'.sent, Counted(ch, w)) + Total(p'.outgoing, Counted(ch, w))
      ensures p'.chans[ch].used[w] <==> p'.chans[ch].windows[w] > 0
    {
      TotalSplit(p.outgoing, d, [], Counted(ch, w));
      assert p.chans[ch].windows[w] == Total(p.sent, Counted(ch, w)) + Total(p.outgoing, Counted(ch, w));
    }
  }

  /** No command carries a number above its channel's total. */
  lemma NoneAbove(p: Peer, ch: nat, i: nat)
    requires Shape(p) && ch < |p.chans| && i > p.chans[ch].total
    ensures Total(p.sent, IsIndex(ch, i)) == 0 && Total(p.outgoing, IsIndex(ch, i)) == 0
    ensures Total(p.outgoing, IsFresh(ch, i)) == 0
  {
    TotalZero(p.sent, IsIndex(ch, i));
    TotalZero(p.outgoing, IsIndex(ch, i));
    TotalZero(p.outgoing, IsFresh(ch, i));
  }

  lemma SetupUnique(p: Peer, c: Cmd)
    requires Shape(p) && CanSetup(p, c) && Unique(p)
    ensures Unique(Setup(p, c))
  {
    var p', d := Setup(p, c), Appended(p, c);
    forall ch, i: nat | 0 <= ch < |p'.chans|
      ensures Total(p'.sent, IsIndex(ch, i)) + Total(p'.outgoing, IsIndex(ch, i)) <= 1
      ensures p'.chans[ch].newest < i <= p'.chans[ch].total ==> Total(p'.outgoing, IsFresh(ch, i)) == 1
    {
      TotalSplit(p.outgoing, d, [], IsIndex(ch, i));
      TotalSplit(p.outgoing, d, [], IsFresh(ch, i));
      if i > p.chans[ch].total { NoneAbove(p, ch, i); }
    }
  }

  lemma SetupOrder(p: Peer, c: Cmd)
    requires Shape(p) && CanSetup(p, c) && Order(p.outgoing)
    ensures Order(Setup(p, c).outgoing)
  {
    var q, d := p.outgoing, Appended(p, c);
    forall a | 0 <= a < |q| && Fresh(q[a]) && Fresh(d) && q[a].chan == d.chan
      ensures q[a].index < d.index
    {
      assert CmdOk(p, q[a]);
    }
  }

  lemma SetupKeepsInv(p: Peer, c: Cmd)
    requires Inv(p) && CanSetup(p, c)
    ensures Inv(Setup(p, c))
  {
    SetupShape(p, c);
    SetupCounts(p, c);
    SetupUnique(p, c);
    SetupOrder(p, c);
  }

  // ----- one more attempt -----

  ghost function Unlinked(p: Peer, k: nat): Peer
    requires k < |p.outgoing|
  {
    p.(outgoing := Without(p.outgoing, k))
  }

  ghost predicate NoFreshBefore(q: seq<Cmd>, k: nat, ch: nat)
    requires k <= |q|
  {
    forall j | 0 <= j < k :: !(Fresh(q[j]) && q[j].chan == ch)
  }

  /** The first new command of a channel in the queue carries the next number. */
  lemma FirstFreshIsNext(p: Peer, k: nat)
    requires Inv(p) && k < |p.outgoing| && Fresh(p.outgoing[k])
    requires NoFreshBefore(p.outgoing, k, p.outgoing[k].chan)
    ensures p.outgoing[k].chan < |p.chans|
    ensures p.outgoing[k].index == p.chans[p.outgoing[k].chan].newest + 1
  {
    var c := p.outgoing[k];
    assert CmdOk(p, c);
    var i := p.chans[c.chan].newest + 1;
    assert Total(p.outgoing, IsFresh(c.chan, i)) == 1;
    var j := TotalWitness(p.outgoing, IsFresh(c.chan, i));
    assert Fresh(p.outgoing[j]) && p.outgoing[j].chan == c.chan;
  }

  lemma SameWindowAsBefore(c: nat)
    requires c > 0 && Low16(c) % WINDOW_SIZE != 0
    ensures WindowOf(c) == WindowOf(c - 1)
  {
    assert c % WINDOW_SIZE != 0;
  }

  lemma NearAfterOpening(d: nat, c: nat)
    requires 0 < d < c && c % WINDOW_SIZE == 0
    requires WindowOf(d) + 6 >= WindowOf(c - 1)
    requires (WindowOf(d) % 16 + 16 - WindowOf(c) % 16) % 16 >= 10
    ensures WindowOf(d) + 6 >= WindowOf(c)
  {
    assert WindowOf(c - 1) + 1 == WindowOf(c);
    assert WindowOf(d) < WindowOf(c);
  }

  /** If the gate lets the next number of a channel pass, everything outstanding on the channel
      lies at most six windows back. */
  lemma OutstandingStaysNear(p: Peer, c: Cmd, d: Cmd)
    requires WellFormed(p) && c.chan < |p.chans| && Fresh(c) && CmdOk(p, c) && CmdOk(p, d)
    requires c.index == p.chans[c.chan].newest + 1 && !OpensWindowEarly(p, c)
    requires d.reliable && d.chan == c.chan && d.attempts > 0
    requires p.chans[c.chan].used[d.rseq / WINDOW_SIZE]
    ensures WindowOf(d.index) + 6 >= WindowOf(c.index)
  {
    Decompose(c.index);
    Decompose(d.index);
    if c.rseq % WINDOW_SIZE == 0 {
      var w, v := c.rseq / WINDOW_SIZE, d.rseq / WINDOW_SIZE;
      assert !Overlaps(p.chans[c.chan].used, w);
      MaskMeaning(w, v);
      assert !InMask(w, v);
      NearAfterOpening(d.index, c.index);
    } else {
      SameWindowAsBefore(c.index);
    }
  }

  /** A command counted in the lists has its window's bit set. */
  lemma CountedIsUsed(p: Peer, ch: nat, w: nat)
    requires WellFormed(p) && WindowCounts(p) && ch < |p.chans| && w < 16
    ensures forall k | 0 <= k < |p.sent| ::
              IsCounted(p.sent[k], ch, w) ==> p.chans[ch].used[w]
    ensures forall k | 0 <= k < |p.outgoing| ::
              IsCounted(p.outgoing[k], ch, w) ==> p.chans[ch].used[w]
  {
    forall k | 0 <= k < |p.sent| ensures IsCounted(p.sent[k], ch, w) ==> p.chans[ch].used[w] {
      TotalMember(p.sent, k, Counted(ch, w));
    }
    forall k | 0 <= k < |p.outgoing| ensures IsCounted(p.outgoing[k], ch, w) ==> p.chans[ch].used[w] {
      TotalMember(p.outgoing, k, Counted(ch, w));
    }
  }

  /** What an attempt needs: the number of attempts does not wrap, and a first attempt on a
      channel has passed the gate and overtakes no other new command of its channel. */
  ghost predicate MayAttempt(p: Peer, k: nat)
    requires WellFormed(p) && k < |p.outgoing|
  {
    var c := p.outgoing[k];
    && c.reliable
    && c.attempts < WRAP - 1
    && (Fresh(c) && c.chan < |p.chans| ==> NoFreshBefore(p.outgoing, k, c.chan) && !OpensWindowEarly(p, c))
  }

  lemma AttemptShape(p: Peer, k: nat, now: u32)
    requires Inv(p) && k < |p.outgoing| && MayAttempt(p, k)
    ensures Shape(Attempt(Unlinked(p, k), p.outgoing[k], now))
  {
    var c := p.outgoing[k];
    var p' := Attempt(Unlinked(p, k), c, now);
    assert CmdOk(p, c);
    if Fresh(c) { FirstFreshIsNext(p, k); }
    forall d | d in p.sent || d in p'.outgoing ensures CmdOk(p', d) {
      AttemptKeepsCmdOk(p, k, now, d);
    }
  }

  lemma AttemptKeepsCmdOk(p: Peer, k: nat, now: u32, d: Cmd)
    requires Inv(p) && k < |p.outgoing| && MayAttempt(p, k)
    requires d in p.sent || d in Without(p.outgoing, k)
    ensures CmdOk(Attempt(Unlinked(p, k), p.outgoing[k], now), d)
  {
    var c := p.outgoing[k];
    assert CmdOk(p, c) && CmdOk(p, d);
    if Fresh(c) && d.reliable && d.chan == c.chan {
      FirstFreshIsNext(p, k);
      if d.attempts > 0 {
        var w := d.rseq / WINDOW_SIZE;
        CountedIsUsed(p, c.chan, w);
        assert IsCounted(d, c.chan, w) && (d in p.outgoing || d in p.sent);
        OutstandingStaysNear(p, c, d);
      } else {
        assert d !in p.sent;
        OthersDiffer(p, k, d);
      }
    }
  }

  /** Another copy of the number of outgoing[k] is nowhere else in the queue. */
  lemma OthersDiffer(p: Peer, k: nat, d: Cmd)
    requires Shape(p) && Unique(p) && k < |p.outgoing| && d in Without(p.outgoing, k)
    requires d.reliable && d.chan < |p.chans| && p.outgoing[k].reliable && d.chan == p.outgoing[k].chan
    ensures d.index != p.outgoing[k].index
  {
    var q := p.outgoing;
    var j :| 0 <= j < |q| - 1 && Without(q, k)[j] == d;
    var j' := if j < k then j else j + 1;
    assert q[j'] == d;
    TotalTwo(q, if j' < k then j' else k, if j' < k then k else j', IsIndex(d.chan, d.index));
    assert Total(p.sent, IsIndex(d.chan, d.index)) + Total(q, IsIndex(d.chan, d.index)) <= 1;
  }

  lemma TotalsAfterAttempt(p: Peer, k: nat, now: u32, f: Cmd -> nat)
    requires WellFormed(p) && k < |p.outgoing|
    ensures var p' := Attempt(Unlinked(p, k), p.outgoing[k], now);
      && Total(p'.outgoing, f) + f(p.outgoing[k]) == Total(p.outgoing, f)
      && Total(p'.sent, f) == Total(p.sent, f) + f(Attempted(p, p.outgoing[k], now))
  {
    var q := p.outgoing;
    assert q == q[..k] + [q[k]] + q[k + 1..];
    TotalSplit(q[..k], q[k], q[k + 1..], f);
    TotalSplit(p.sent, Attempted(p, q[k], now), [], f);
  }

  lemma AttemptCounts(p: Peer, k: nat, now: u32)
    requires WellFormed(p) && WindowCounts(p) && k < |p.outgoing| && MayAttempt(p, k)
    ensures WindowCounts(Attempt(Unlinked(p, k), p.outgoing[k], now))
  {
    var c := p.outgoing[k];
    var p' := Attempt(Unlinked(p, k), c, now);
    forall ch, w | 0 <= ch < |p'.chans| && 0 <= w < 16
      ensures p'.chans[ch].windows[w] == Total(p'.sent, Counted(ch, w)) + Total(p'.outgoing, Counted(ch, w))
      ensures p'.chans[ch].used[w] <==> p'.chans[ch].windows[w] > 0
    {
      AttemptCountsAt(p, k, now, ch, w);
    }
  }

  lemma AttemptCountsAt(p: Peer, k: nat, now: u32, ch: nat, w: nat)
    requires WellFormed(p) && WindowCounts(p) && k < |p.outgoing| && MayAttempt(p, k) && ch < |p.chans| && w < 16
    ensures var p' := Attempt(Unlinked(p, k), p.outgoing[k], now);
      && p'.chans[ch].windows[w] == Total(p'.sent, Counted(ch, w)) + Total(p'.outgoing, Counted(ch, w))
      && (p'.chans[ch].used[w] <==> p'.chans[ch].windows[w] > 0)
  {
    hide Total, OpensWindowEarly;
    TotalsAfterAttempt(p, k, now, Counted(ch, w));
    assert p.chans[ch].windows[w] == Total(p.sent, Counted(ch, w)) + Total(p.outgoing, Counted(ch, w));
    assert p.chans[ch].used[w] <==> p.chans[ch].windows[w] > 0;
  }

  lemma AttemptUnique(p: Peer, k: nat, now: u32)
    requires Inv(p) && k < |p.outgoing| && MayAttempt(p, k)
    ensures Unique(Attempt(Unlinked(p, k), p.outgoing[k], now))
  {
    var c := p.outgoing[k];
    var p' := Attempt(Unlinked(p, k), c, now);
    assert CmdOk(p, c);
    if Fresh(c) { FirstFreshIsNext(p, k); }
    forall ch, i: nat | 0 <= ch < |p'.chans|
      ensures Total(p'.sent, IsIndex(ch, i)) + Total(p'.outgoing, IsIndex(ch, i)) <= 1
      ensures p'.chans[ch].newest < i <= p'.chans[ch].total ==> Total(p'.outgoing, IsFresh(ch, i)) == 1
    {
      TotalsAfterAttempt(p, k, now, IsIndex(ch, i));
      TotalsAfterAttempt(p, k, now, IsFresh(ch, i));
      assert Total(p.sent, IsIndex(ch, i)) + Total(p.outgoing, IsIndex(ch, i)) <= 1;
    }
  }

  lemma OrderWithout(q: seq<Cmd>, k: nat)
    requires Order(q) && k < |q|
    ensures Order(Without(q, k))
  {
    var r := Without(q, k);
    assert forall a | 0 <= a < |r| :: r[a] == q[if a < k then a else a + 1];
  }

  lemma AttemptKeepsInv(p: Peer, k: nat, now: u32)
    requires Inv(p) && k < |p.outgoing| && MayAttempt(p, k)
    ensures Inv(Attempt(Unlinked(p, k), p.outgoing[k], now))
  {
    AttemptShape(p, k, now);
    AttemptCounts(p, k, now);
    AttemptUnique(p, k, now);
    OrderWithout(p.outgoing, k);
    TotalsAfterAttempt(p, k, now, Length());
  }

  // ----- unreliable commands leave the queue -----

  lemma UnlinkUnreliable(p: Peer, k: nat)
    requires Inv(p) && k < |p.outgoing| && !p.outgoing[k].reliable
    ensures Inv(Unlinked(p, k))
    ensures forall ch: nat, i: nat :: Total(Unlinked(p, k).outgoing, IsIndex(ch, i)) == Total(p.outgoing, IsIndex(ch, i))
  {
    var q, p' := p.outgoing, Unlinked(p, k);
    OrderWithout(q, k);
    assert q == q[..k] + [q[k]] + q[k + 1..];
    forall ch, w | 0 <= ch < |p.chans| && 0 <= w < 16
      ensures Total(p'.outgoing, Counted(ch, w)) == Total(q, Counted(ch, w))
      ensures p.chans[ch].windows[w] == Total(p.sent, Counted(ch, w)) + Total(q, Counted(ch, w))
    {
      TotalSplit(q[..k], q[k], q[k + 1..], Counted(ch, w));
    }
    forall ch, i: nat
      ensures Total(p'.outgoing, IsIndex(ch, i)) == Total(q, IsIndex(ch, i))
      ensures Total(p'.outgoing, IsFresh(ch, i)) == Total(q, IsFresh(ch, i))
    {
      TotalSplit(q[..k], q[k], q[k + 1..], IsIndex(ch, i));
      TotalSplit(q[..k], q[k], q[k + 1..], IsFresh(ch, i));
    }
    forall d | d in p.sent || d in p'.outgoing ensures CmdOk(p', d) {
      assert CmdOk(p, d);
    }
  }

  // ----- time-outs -----

  /** The peer with sent[k] put back, rearmed, at position `m` of the outgoing queue. */
  ghost function PutBack(p: Peer, k: nat, m: nat, earliest: u32, next: u32): Peer
    requires k < |p.sent| && m <= |p.outgoing|
  {
    var c := p.sent[k];
    p.(sent := Without(p.sent, k),
       outgoing := p.outgoing[..m] + [Rearmed(p, c)] + p.outgoing[m..],
       inTransit := if c.packet.Some? then p.inTransit - c.len else p.inTransit,
       earliestTimeout := earliest, nextTimeout := next)
  }

  lemma TotalsAfterPutBack(p: Peer, k: nat, m: nat, f: Cmd -> nat)
    requires k < |p.sent| && m <= |p.outgoing|
    ensures var p' := PutBack(p, k, m, 0, 0);
      && Total(p'.sent, f) + f(p.sent[k]) == Total(p.sent, f)
      && Total(p'.outgoing, f) == Total(p.outgoing, f) + f(Rearmed(p, p.sent[k]))
  {
    var s, q := p.sent, p.outgoing;
    assert s == s[..k] + [s[k]] + s[k + 1..];
    TotalSplit(s[..k], s[k], s[k + 1..], f);
    assert q == q[..m] + q[m..];
    TotalSplit(q[..m], Rearmed(p, s[k]), q[m..], f);
  }

  ghost predicate AllAttempted(q: seq<Cmd>) { forall a | 0 <= a < |q| :: q[a].attempts > 0 }

  lemma PutBackOrder(q: seq<Cmd>, m: nat, c: Cmd)
    requires Order(q) && m <= |q| && AllAttempted(q[..m]) && c.attempts > 0
    ensures Order(q[..m] + [c] + q[m..])
  {
    var r := q[..m] + [c] + q[m..];
    assert forall a | 0 <= a < m :: q[a] == q[..m][a];
    assert forall a | 0 <= a < |r| :: r[a] == if a < m then q[a] else if a == m then c else q[a - 1];
  }

  lemma PutBackCounts(p: Peer, k: nat, m: nat, earliest: u32, next: u32)
    requires Shape(p) && WindowCounts(p) && k < |p.sent| && m <= |p.outgoing|
    ensures WindowCounts(PutBack(p, k, m, earliest, next))
  {
    var p' := PutBack(p, k, m, earliest, next);
    assert CmdOk(p, p.sent[k]);
    forall ch, w | 0 <= ch < |p.chans| && 0 <= w < 16
      ensures p'.chans[ch].windows[w] == Total(p'.sent, Counted(ch, w)) + Total(p'.outgoing, Counted(ch, w))
      ensures p'.chans[ch].used[w] <==> p'.chans[ch].windows[w] > 0
    {
      TotalsAfterPutBack(p, k, m, Counted(ch, w));
      assert p.chans[ch].windows[w] == Total(p.sent, Counted(ch, w)) + Total(p.outgoing, Counted(ch, w));
    }
  }

  lemma PutBackOutstanding(p: Peer, k: nat, m: nat, earliest: u32, next: u32, ch: nat, i: nat)
    requires k < |p.sent| && m <= |p.outgoing|
    ensures Outstanding(PutBack(p, k, m, earliest, next), ch, i) == Outstanding(p, ch, i)
  {
    TotalsAfterPutBack(p, k, m, IsIndex(ch, i));
  }

  lemma PutBackUnique(p: Peer, k: nat, m: nat, earliest: u32, next: u32)
    requires Shape(p) && Unique(p) && k < |p.sent| && m <= |p.outgoing|
    ensures Unique(PutBack(p, k, m, earliest, next))
  {
    var p' := PutBack(p, k, m, earliest, next);
    assert CmdOk(p, p.sent[k]) && p.sent[k].attempts > 0;
    forall ch, i: nat | 0 <= ch < |p.chans|
      ensures Total(p'.sent, IsIndex(ch, i)) + Total(p'.outgoing, IsIndex(ch, i)) <= 1
    {
      PutBackOutstanding(p, k, m, earliest, next, ch, i);
      assert Total(p.sent, IsIndex(ch, i)) + Total(p.outgoing, IsIndex(ch, i)) <= 1;
    }
    forall ch, i: nat | 0 <= ch < |p.chans| && p.chans[ch].newest < i <= p.chans[ch].total
      ensures Total(p'.outgoing, IsFresh(ch, i)) == 1
    {
      TotalsAfterPutBack(p, k, m, IsFresh(ch, i));
      assert Total(p.outgoing, IsFresh(ch, i)) == 1;
    }
  }

  lemma PutBackKeepsInv(p: Peer, k: nat, m: nat, earliest: u32, next: u32)
    requires Inv(p) && k < |p.sent| && m <= |p.outgoing| && AllAttempted(p.outgoing[..m])
    ensures Inv(PutBack(p, k, m, earliest, next)) && p.sent[k].attempts > 0
  {
    PutBackShape(p, k, m, earliest, next);
    PutBackCounts(p, k, m, earliest, next);
    PutBackUnique(p, k, m, earliest, next);
    PutBackOrder(p.outgoing, m, Rearmed(p, p.sent[k]));
    assert CmdOk(p, p.sent[k]);
    TotalsAfterPutBack(p, k, m, Length());
  }

  lemma InvIgnoresTimes(p: Peer, earliest: u32, next: u32)
    requires Inv(p)
    ensures Inv(p.(earliestTimeout := earliest, nextTimeout := next))
  {
    var p' := p.(earliestTimeout := earliest, nextTimeout := next);
    forall d | CmdOk(p, d) ensures CmdOk(p', d) {}
  }

  lemma PutBackShape(p: Peer, k: nat, m: nat, earliest: u32, next: u32)
    requires Shape(p) && k < |p.sent| && m <= |p.outgoing|
    ensures Shape(PutBack(p, k, m, earliest, next))
  {
    var p', c := PutBack(p, k, m, earliest, next), p.sent[k];
    assert CmdOk(p, c);
    forall d | d in p'.sent || d in p.outgoing ensures CmdOk(p', d) {
      assert d in p.sent || d in p.outgoing;
      assert CmdOk(p, d);
    }
    assert CmdOk(p', Rearmed(p, c));
  }

  /** How many commands of the lists carry number `i` of channel `ch`: one while it is neither
      acknowledged nor given up. */
  ghost function Outstanding(p: Peer, ch: nat, i: nat): nat {
    Total(p.sent, IsIndex(ch, i)) + Total(p.outgoing, IsIndex(ch, i))
  }

  ghost function Midway(p: Peer, kept: seq<Cmd>, rest: seq<Cmd>, moved: seq<Cmd>): Peer {
    p.(sent := kept + rest, outgoing := moved + p.outgoing)
  }

  /** One timed-out command: the state of the loop after it is the state before with that command
      put back. */
  lemma TimeoutStep(p: Peer, kept: seq<Cmd>, rest: seq<Cmd>, moved: seq<Cmd>, earliest: u32, next: u32)
    requires rest != []
    ensures var c := rest[0];
      var p' := p.(earliestTimeout := earliest,
                   inTransit := if c.packet.Some? then p.inTransit - c.len else p.inTransit,
                   nextTimeout := next);
      Midway(p', kept, rest[1..], moved + [Rearmed(p, c)])
      == PutBack(Midway(p, kept, rest, moved), |kept|, |moved|, earliest, next)
    ensures Midway(p, kept, rest, moved).outgoing[..|moved|] == moved
  {
    var mid, c := Midway(p, kept, rest, moved), rest[0];
    assert mid.sent[|kept|] == c;
    assert mid.outgoing[..|moved|] == moved && mid.outgoing[|moved|..] == p.outgoing;
    assert Without(mid.sent, |kept|) == kept + rest[1..];
  }

  lemma {:induction false} TimeoutLoopKeepsInv(
    p: Peer, kept: seq<Cmd>, rest: seq<Cmd>, moved: seq<Cmd>, now: u32)
    requires Inv(Midway(p, kept, rest, moved)) && AllAttempted(moved)
    ensures Inv(TimeoutLoop(p, kept, rest, moved, now).0)
    ensures forall ch: nat, i: nat ::
      Outstanding(TimeoutLoop(p, kept, rest, moved, now).0, ch, i) == Outstanding(Midway(p, kept, rest, moved), ch, i)
    ensures TimeoutLoop(p, kept, rest, moved, now).0.chans == p.chans
    decreases |rest|
  {
    hide Inv, Outstanding, PutBack, AllAttempted, TimedOut, GivesUp, Earliest, Rearmed, Deadline;
    var mid := Midway(p, kept, rest, moved);
    if rest == [] {
      assert kept + rest == kept;
    } else if !TimedOut(rest[0], now) {
      assert kept + rest == kept + [rest[0]] + rest[1..];
      TimeoutLoopKeepsInv(p, kept + [rest[0]], rest[1..], moved, now);
    } else {
      var c := rest[0];
      var earliest := Earliest(p, c);
      if GivesUp(p, earliest, c, now) {
        InvIgnoresTimes(mid, earliest, p.nextTimeout);
        SameOutstanding(mid, mid.(earliestTimeout := earliest));
      } else {
        var next := if kept == [] && |rest| > 1 then Deadline(rest[1]) else p.nextTimeout;
        TimeoutStep(p, kept, rest, moved, earliest, next);
        TimedOutKeepsInv(p, kept, rest, moved, earliest, next);
        var p' := p.(earliestTimeout := earliest,
                     inTransit := if c.packet.Some? then p.inTransit - c.len else p.inTransit,
                     nextTimeout := next);
        TimeoutLoopKeepsInv(p', kept, rest[1..], moved + [Rearmed(p, c)], now);
      }
    }
  }

  lemma SameOutstanding(p: Peer, p': Peer)
    requires p'.sent == p.sent && p'.outgoing == p.outgoing
    ensures forall ch: nat, i: nat :: Outstanding(p', ch, i) == Outstanding(p, ch, i)
  {
  }

  /** One command put back in front of the queue. */
  lemma TimedOutKeepsInv(p: Peer, kept: seq<Cmd>, rest: seq<Cmd>, moved: seq<Cmd>, earliest: u32, next: u32)
    requires rest != [] && Inv(Midway(p, kept, rest, moved)) && AllAttempted(moved)
    ensures var mid := Midway(p, kept, rest, moved);
      && |kept| < |mid.sent| && |moved| <= |mid.outgoing|
      && Inv(PutBack(mid, |kept|, |moved|, earliest, next))
      && forall ch: nat, i: nat :: Outstanding(PutBack(mid, |kept|, |moved|, earliest, next), ch, i) == Outstanding(mid, ch, i)
    ensures AllAttempted(moved + [Rearmed(p, rest[0])])
  {
    hide Outstanding, Rearmed;
    var mid := Midway(p, kept, rest, moved);
    TimeoutStep(p, kept, rest, moved, earliest, next);
    PutBackKeepsInv(mid, |kept|, |moved|, earliest, next);
    forall ch: nat, i: nat
      ensures Outstanding(PutBack(mid, |kept|, |moved|, earliest, next), ch, i) == Outstanding(mid, ch, i)
    {
      PutBackOutstanding(mid, |kept|, |moved|, earliest, next, ch, i);
    }
    RearmedAttempted(p, mid, kept, rest);
  }

  lemma RearmedAttempted(p: Peer, mid: Peer, kept: seq<Cmd>, rest: seq<Cmd>)
    requires rest != [] && Inv(mid) && mid.sent == kept + rest
    ensures Rearmed(p, rest[0]).attempts > 0
  {
    assert mid.sent[|kept|] == rest[0];
  }

  lemma CheckTimeoutsKeepsInv(p: Peer, now: u32)
    requires Inv(p)
    ensures Inv(CheckTimeouts(p, now).0)
    ensures forall ch: nat, i: nat :: Outstanding(CheckTimeouts(p, now).0, ch, i) == Outstanding(p, ch, i)
    ensures CheckTimeouts(p, now).0.chans == p.chans
  {
    assert Midway(p, [], p.sent, []) == p;
    TimeoutLoopKeepsInv(p, [], p.sent, [], now);
  }

  lemma {:induction false} TimeoutMtu(p: Peer, kept: seq<Cmd>, rest: seq<Cmd>, moved: seq<Cmd>, now: u32)
    ensures TimeoutLoop(p, kept, rest, moved, now).0.mtu == p.mtu
    decreases |rest|
  {
    if rest != [] {
      var c := rest[0];
      if !TimedOut(c, now) {
        TimeoutMtu(p, kept + [c], rest[1..], moved, now);
      } else {
        var earliest := Earliest(p, c);
        var p' := p.(earliestTimeout := earliest,
                     inTransit := if c.packet.Some? then p.inTransit - c.len else p.inTransit,
                     nextTimeout := if kept == [] && |rest| > 1 then Deadline(rest[1]) else p.nextTimeout);
        TimeoutMtu(p', kept, rest[1..], moved + [Rearmed(p, c)], now);
      }
    }
  }

  // ----- check_outgoing_commands keeps the invariant -----

  /** No reliable command stands behind an unreliable one with the same pair of numbers, by which the
      throttle's inner loop tells the fragments of a packet. */
  predicate NoneCaught(q: seq<Cmd>) {
    forall k | 0 < k < |q| && !q[k - 1].reliable && q[k].reliable :: q[k].rseq != q[k - 1].rseq || q[k].useq != q[k - 1].useq
  }

  lemma NoneCaughtBehind(q: seq<Cmd>)
    requires NoneCaught(q) && q != []
    ensures NoneCaught(q[1..])
  {
    forall k | 0 < k < |q[1..]| && !q[1..][k - 1].reliable && q[1..][k].reliable
      ensures q[1..][k].rseq != q[1..][k - 1].rseq || q[1..][k].useq != q[1..][k - 1].useq
    {
      assert q[1..][k - 1] == q[k] && q[1..][k] == q[k + 1];
    }
  }

  /** That can only happen behind an unsequenced command, to the reliable command with number zero. */
  lemma CaughtAtZero(p: Peer)
    requires Inv(p)
    ensures NoneCaught(p.outgoing) <==> forall k | 0 < k < |p.outgoing| ::
      !p.outgoing[k - 1].reliable && p.outgoing[k - 1].kind == SendUnsequenced && p.outgoing[k].reliable ==> p.outgoing[k].rseq != 0
  {
    forall k | 0 <= k < |p.outgoing| ensures CmdOk(p, p.outgoing[k]) { }
  }

  /** While nothing has been held back, nothing has been passed over. */
  ghost predicate ScanOk(s: Scan) {
    && Inv(PeerOf(s))
    && (!s.fl.wrap && !s.fl.exceeded ==> s.kept == [])
    && s.g.bytes <= s.p.mtu
    && s.g.commands <= MAX_COMMANDS
    && (forall k | 0 <= k < |s.rest| :: s.rest[k].attempts < WRAP - 1)
    && NoneCaught(s.rest)
  }

  /** A command the gate lets through may be attempted where it stands. */
  lemma PassedMayAttempt(s: Scan)
    requires ScanOk(s) && s.rest != [] && s.rest[0].reliable && !Gate(s.p, s.fl, s.rest[0]).0
    ensures |s.kept| < |PeerOf(s).outgoing| && PeerOf(s).outgoing[|s.kept|] == s.rest[0]
    ensures MayAttempt(PeerOf(s), |s.kept|)
  {
    var p, c := PeerOf(s), s.rest[0];
    assert p.outgoing[|s.kept|] == c;
    assert CmdOk(p, c);
  }

  lemma HeadOk(s: Scan)
    requires ScanOk(s) && s.rest != []
    ensures |s.kept| < |PeerOf(s).outgoing| && PeerOf(s).outgoing[|s.kept|] == s.rest[0]
    ensures Without(PeerOf(s).outgoing, |s.kept|) == s.kept + s.rest[1..]
    ensures CmdOk(PeerOf(s), s.rest[0]) && s.p.mtu < WRAP && WellFormed(s.p)
    ensures SizeOf(s.rest[0].kind) + s.rest[0].len < WRAP
  {
    assert PeerOf(s).outgoing[|s.kept|] == s.rest[0];
  }

  lemma EmitReliableView(s: Scan, now: u32)
    requires WellFormed(s.p) && s.rest != [] && s.rest[0].reliable
    ensures var s', c := Emit(s, now), s.rest[0];
      && PeerOf(s') == Attempt(PeerOf(s).(outgoing := s.kept + s.rest[1..]), c, now)
      && s'.fl == s.fl && s'.kept == s.kept && s'.rest == s.rest[1..]
      && s'.g == AfterCommand(s.g, c) && s'.p.mtu == s.p.mtu
      && s'.emitted == s.emitted + [Attempted(s.p, c, now)]
  {
  }

  /** Sending a reliable command. */
  lemma EmitReliableOk(s: Scan, now: u32)
    requires ScanOk(s) && s.rest != [] && s.rest[0].reliable
    requires !Gate(s.p, s.fl, s.rest[0]).0 && Fits(s.g, s.rest[0], s.p.mtu)
    ensures ScanOk(Emit(s, now))
    ensures |s.kept| < |PeerOf(s).outgoing| && WellFormed(s.p)
    ensures PeerOf(Emit(s, now)) == Attempt(Unlinked(PeerOf(s), |s.kept|), s.rest[0], now)
  {
    hide Inv, Gate, Emit, Attempt, Attempted, CmdOk, MayAttempt, NoneCaught;
    HeadOk(s);
    PassedMayAttempt(s);
    NoneCaughtBehind(s.rest);
    AttemptKeepsInv(PeerOf(s), |s.kept|, now);
    EmitReliableView(s, now);
  }

  ghost function OneLess(s: Scan): Scan
    requires s.rest != []
  {
    s.(rest := s.rest[1..])
  }

  lemma UnlinkHead(s: Scan)
    requires ScanOk(s) && s.rest != [] && !s.rest[0].reliable
    ensures ScanOk(OneLess(s))
    ensures forall ch: nat, i: nat :: Outstanding(PeerOf(OneLess(s)), ch, i) == Outstanding(PeerOf(s), ch, i)
  {
    hide NoneCaught;
    var p := PeerOf(s);
    assert p.outgoing[|s.kept|] == s.rest[0];
    UnlinkUnreliable(p, |s.kept|);
    NoneCaughtBehind(s.rest);
    assert Without(p.outgoing, |s.kept|) == s.kept + s.rest[1..];
  }

  /** Inv and Outstanding do not look at the reference counts or the throttle counter. */
  lemma InvIgnoresPackets(p: Peer, refs: map<nat, nat>, destroyed: seq<nat>, counter: nat)
    requires Inv(p)
    ensures Inv(p.(refs := refs, destroyed := destroyed, throttleCounter := counter))
  {
    var p' := p.(refs := refs, destroyed := destroyed, throttleCounter := counter);
    forall d | CmdOk(p, d) ensures CmdOk(p', d) {}
  }

  lemma InvIgnoresRefs(p: Peer, refs: map<nat, nat>)
    requires Inv(p)
    ensures Inv(p.(refs := refs))
  {
    InvIgnoresPackets(p, refs, p.destroyed, p.throttleCounter);
  }

  lemma {:induction false} DropGroupOk(s: Scan, rseq: u16, useq: u16)
    requires ScanOk(s) && s.rest != [] && !s.rest[0].reliable && s.rest[0].rseq == rseq && s.rest[0].useq == useq
    ensures ScanOk(DropGroup(s, rseq, useq))
    ensures forall ch: nat, i: nat :: Outstanding(PeerOf(DropGroup(s, rseq, useq)), ch, i) == Outstanding(PeerOf(s), ch, i)
    ensures DropGroup(s, rseq, useq).emitted == s.emitted && DropGroup(s, rseq, useq).p.chans == s.p.chans
    decreases |s.rest|
  {
    UnlinkHead(s);
    var r := Release(s.p, s.rest[0].packet);
    var s' := s.(p := r, rest := s.rest[1..]);
    InvIgnoresPackets(PeerOf(OneLess(s)), r.refs, r.destroyed, s.p.throttleCounter);
    assert PeerOf(s') == PeerOf(OneLess(s)).(refs := r.refs, destroyed := r.destroyed, throttleCounter := s.p.throttleCounter);
    if s'.rest != [] && s'.rest[0].rseq == rseq && s'.rest[0].useq == useq {
      assert s'.rest[0] == s.rest[1];
      DropGroupOk(s', rseq, useq);
    }
  }

  /** The throttle counter advances. */
  lemma CounterOk(s: Scan, counter: nat)
    requires ScanOk(s)
    ensures ScanOk(s.(p := s.p.(throttleCounter := counter)))
    ensures forall ch: nat, i: nat ::
      Outstanding(PeerOf(s.(p := s.p.(throttleCounter := counter))), ch, i) == Outstanding(PeerOf(s), ch, i)
  {
    hide Inv;
    InvIgnoresPackets(PeerOf(s), s.p.refs, s.p.destroyed, counter);
    var s1 := s.(p := s.p.(throttleCounter := counter));
    assert PeerOf(s1) == PeerOf(s).(refs := s.p.refs, destroyed := s.p.destroyed, throttleCounter := counter);
  }

  /** Sending an unreliable command that is not dropped. */
  lemma PassUnreliableOk(s: Scan, p': Peer)
    requires ScanOk(s) && s.rest != [] && !s.rest[0].reliable && Fits(s.g, s.rest[0], s.p.mtu)
    requires p' == s.p.(sentUnreliable := s.p.sentUnreliable + [s.rest[0]])
    ensures var c := s.rest[0];
      var s' := Scan(p', s.kept, s.rest[1..], s.fl, AfterCommand(s.g, c), s.emitted + [c]);
      && ScanOk(s')
      && (forall ch: nat, i: nat :: Outstanding(PeerOf(s'), ch, i) == Outstanding(PeerOf(s), ch, i))
  {
    hide Inv, CmdOk;
    var c := s.rest[0];
    HeadOk(s);
    UnlinkHead(s);
    SentUnreliableOk(PeerOf(OneLess(s)), c);
    var s' := Scan(p', s.kept, s.rest[1..], s.fl, AfterCommand(s.g, c), s.emitted + [c]);
    assert PeerOf(s') == PeerOf(OneLess(s)).(sentUnreliable := s.p.sentUnreliable + [c]);
  }

  lemma EmitUnreliableOk(s: Scan, now: u32)
    requires ScanOk(s) && s.rest != [] && !s.rest[0].reliable && Fits(s.g, s.rest[0], s.p.mtu)
    ensures ScanOk(Emit(s, now))
    ensures forall ch: nat, i: nat :: Outstanding(PeerOf(Emit(s, now)), ch, i) == Outstanding(PeerOf(s), ch, i)
    ensures Emit(s, now).p.chans == s.p.chans
  {
    hide Inv, Emit, DropGroup;
    HeadOk(s);
    var c := s.rest[0];
    var counter := (s.p.throttleCounter + THROTTLE_COUNTER) % THROTTLE_SCALE;
    var counts := c.offset == 0 && !c.unthrottled;
    var s1 := s.(p := s.p.(throttleCounter := counter));
    CounterOk(s, counter);
    EmitUnreliableView(s, now);
    if counts && counter > s.p.throttle {
      DropGroupOk(s1, c.rseq, c.useq);
    } else if counts {
      PassUnreliableOk(s1, s1.p.(sentUnreliable := s1.p.sentUnreliable + [c]));
    } else {
      PassUnreliableOk(s, s.p.(sentUnreliable := s.p.sentUnreliable + [c]));
    }
  }

  lemma EmitUnreliableView(s: Scan, now: u32)
    requires WellFormed(s.p) && s.rest != [] && !s.rest[0].reliable && s.rest[0].packet.Some?
    ensures var c := s.rest[0];
      var counter := (s.p.throttleCounter + THROTTLE_COUNTER) % THROTTLE_SCALE;
      var counts := c.offset == 0 && !c.unthrottled;
      var p := if counts then s.p.(throttleCounter := counter) else s.p;
      Emit(s, now) == if counts && counter > s.p.throttle then DropGroup(s.(p := p), c.rseq, c.useq)
        else Scan(p.(sentUnreliable := p.sentUnreliable + [c]), s.kept, s.rest[1..], s.fl,
                  AfterCommand(s.g, c), s.emitted + [c])
  {
  }

  lemma SentUnreliableOk(p: Peer, c: Cmd)
    requires Inv(p) && c.packet.Some?
    ensures Inv(p.(sentUnreliable := p.sentUnreliable + [c]))
  {
    var p' := p.(sentUnreliable := p.sentUnreliable + [c]);
    forall d | CmdOk(p, d) ensures CmdOk(p', d) {}
  }

  /** What the gate does to the flags. */
  lemma GateFlags(p: Peer, fl: Flags, c: Cmd)
    requires WellFormed(p)
    ensures var (wait, fl') := Gate(p, fl, c);
      && (wait ==> fl'.wrap || fl'.exceeded)
      && (!wait ==> !Gate(p, fl', c).0)
      && (!fl'.wrap && !fl'.exceeded ==> !fl.wrap && !fl.exceeded)
  {
  }

  /** A command that is passed over stays where it is. */
  lemma PassedOverStays(s: Scan, fl: Flags)
    requires s.rest != []
    ensures PeerOf(s.(kept := s.kept + [s.rest[0]], rest := s.rest[1..], fl := fl)) == PeerOf(s)
  {
    assert s.kept + [s.rest[0]] + s.rest[1..] == s.kept + s.rest;
  }

  /** check_outgoing_commands keeps the invariant, and the datagram within its limits. */
  lemma {:induction false} ScanKeepsInv(s: Scan, now: u32)
    requires ScanOk(s)
    ensures ScanOk(ScanAll(s, now))
    decreases |s.rest|
  {
    hide Inv, Gate, NoneCaught;
    if s.rest != [] {
      HeadOk(s);
      GateFlags(s.p, s.fl, s.rest[0]);
      NoneCaughtBehind(s.rest);
      var (wait, fl) := Gate(s.p, s.fl, s.rest[0]);
      if wait {
        var s' := s.(kept := s.kept + [s.rest[0]], rest := s.rest[1..], fl := fl);
        PassedOverStays(s, fl);
        ScanKeepsInv(s', now);
      } else if Fits(s.g, s.rest[0], s.p.mtu) {
        var s' := s.(fl := fl);
        assert PeerOf(s') == PeerOf(s);
        if s.rest[0].reliable { EmitReliableOk(s', now); } else { EmitUnreliableOk(s', now); }
        ScanKeepsInv(Emit(s', now), now);
      } else {
        assert PeerOf(s.(fl := fl, g := s.g.(more := true))) == PeerOf(s);
      }
    }
  }

  lemma CheckOutgoingKeepsInv(p: Peer, g: Gram, now: u32)
    requires Inv(p) && g.bytes <= p.mtu && g.commands <= MAX_COMMANDS
    requires NoneCaught(p.outgoing) && forall k | 0 <= k < |p.outgoing| :: p.outgoing[k].attempts < WRAP - 1
    ensures var s := CheckOutgoing(p, g, now);
      && Inv(PeerOf(s))
      && s.g.bytes <= p.mtu && s.g.commands <= MAX_COMMANDS
  {
    assert PeerOf(StartScan(p, g)) == p;
    ScanKeepsInv(StartScan(p, g), now);
    ScanMtu(StartScan(p, g), now);
  }

  lemma {:induction false} DropGroupMtu(s: Scan, rseq: u16, useq: u16)
    requires s.rest != []
    ensures DropGroup(s, rseq, useq).p.mtu == s.p.mtu
    decreases |s.rest|
  {
    var s' := s.(p := Release(s.p, s.rest[0].packet), rest := s.rest[1..]);
    if s'.rest != [] && s'.rest[0].rseq == rseq && s'.rest[0].useq == useq { DropGroupMtu(s', rseq, useq); }
  }

  lemma {:induction false} ScanMtu(s: Scan, now: u32)
    requires WellFormed(s.p)
    ensures ScanAll(s, now).p.mtu == s.p.mtu
    decreases |s.rest|
  {
    if s.rest != [] {
      var (wait, fl) := Gate(s.p, s.fl, s.rest[0]);
      if wait {
        ScanMtu(s.(kept := s.kept + [s.rest[0]], rest := s.rest[1..], fl := fl), now);
      } else if Fits(s.g, s.rest[0], s.p.mtu) {
        var s1 := s.(fl := fl);
        var s2 := s1.(p := s.p.(throttleCounter := (s.p.throttleCounter + THROTTLE_COUNTER) % THROTTLE_SCALE));
        DropGroupMtu(s2, s.rest[0].rseq, s.rest[0].useq);
        ScanMtu(Emit(s1, now), now);
      }
    }
  }

  // ----- what the scan does to numbers -----

  /** Channels keep their totals; the newest attempted number only grows. */
  ghost predicate ChansGrow(p: Peer, p': Peer) {
    && |p'.chans| == |p.chans|
    && (forall ch | 0 <= ch < |p.chans| ::
          && p'.chans[ch].total == p.chans[ch].total
          && p'.chans[ch].outSeq == p.chans[ch].outSeq
          && p'.chans[ch].newest >= p.chans[ch].newest)
  }

  /** Every reliable channel command among `cs` carries an attempted number. */
  ghost predicate EmittedNumbers(p: Peer, cs: seq<Cmd>) {
    forall c | c in cs && c.reliable && c.chan < |p.chans| ::
      1 <= c.index <= p.chans[c.chan].newest && c.rseq == Low16(c.index)
  }

  lemma AttemptEffect(p: Peer, k: nat, now: u32)
    requires Inv(p) && k < |p.outgoing| && MayAttempt(p, k)
    ensures var p' := Attempt(Unlinked(p, k), p.outgoing[k], now);
      && (forall ch: nat, i: nat :: Outstanding(p', ch, i) == Outstanding(p, ch, i))
      && ChansGrow(p, p')
      && EmittedNumbers(p', [Attempted(p, p.outgoing[k], now)])
  {
    var c := p.outgoing[k];
    var p' := Attempt(Unlinked(p, k), c, now);
    forall ch, i: nat ensures Outstanding(p', ch, i) == Outstanding(p, ch, i) {
      TotalsAfterAttempt(p, k, now, IsIndex(ch, i));
    }
    AttemptShape(p, k, now);
    var d := p'.sent[|p.sent|];
    assert d == Attempted(p, c, now);
    assert CmdOk(p', d) && d.attempts > 0;
  }

  ghost predicate Effect(s: Scan, s': Scan) {
    && (forall ch: nat, i: nat :: Outstanding(PeerOf(s'), ch, i) == Outstanding(PeerOf(s), ch, i))
    && ChansGrow(s.p, s'.p)
    && (EmittedNumbers(s.p, s.emitted) ==> EmittedNumbers(s'.p, s'.emitted))
  }

  lemma EffectCompose(s: Scan, t: Scan, u: Scan)
    requires Effect(s, t) && Effect(t, u)
    ensures Effect(s, u)
  {
    forall ch, i: nat ensures Outstanding(PeerOf(u), ch, i) == Outstanding(PeerOf(s), ch, i) {
      assert Outstanding(PeerOf(u), ch, i) == Outstanding(PeerOf(t), ch, i);
    }
  }

  lemma EmitReliableEffect(s: Scan, now: u32)
    requires ScanOk(s) && s.rest != [] && s.rest[0].reliable
    requires !Gate(s.p, s.fl, s.rest[0]).0 && Fits(s.g, s.rest[0], s.p.mtu)
    ensures Effect(s, Emit(s, now))
  {
    hide Inv, Gate, Emit, Attempt, MayAttempt;
    HeadOk(s);
    PassedMayAttempt(s);
    EmitReliableOk(s, now);
    AttemptEffect(PeerOf(s), |s.kept|, now);
    EmitReliableView(s, now);
    var s', d := Emit(s, now), Attempted(s.p, s.rest[0], now);
    assert PeerOf(s').chans == s'.p.chans && PeerOf(s).chans == s.p.chans;
    assert EmittedNumbers(s'.p, [d]);
    if EmittedNumbers(s.p, s.emitted) {
      forall c | c in s'.emitted && c.reliable && c.chan < |s'.p.chans|
        ensures 1 <= c.index <= s'.p.chans[c.chan].newest && c.rseq == Low16(c.index)
      {
        if c !in s.emitted { assert c == d && d in [d]; }
      }
    }
  }

  lemma EmitUnreliableEffect(s: Scan, now: u32)
    requires ScanOk(s) && s.rest != [] && !s.rest[0].reliable && Fits(s.g, s.rest[0], s.p.mtu)
    ensures Effect(s, Emit(s, now))
  {
    hide Inv, Emit, DropGroup, Outstanding, PeerOf;
    HeadOk(s);
    EmitUnreliableOk(s, now);
    EmitUnreliableView(s, now);
    var c := s.rest[0];
    var s1 := s.(p := s.p.(throttleCounter := (s.p.throttleCounter + THROTTLE_COUNTER) % THROTTLE_SCALE));
    CounterOk(s, s1.p.throttleCounter);
    DropGroupOk(s1, c.rseq, c.useq);
    assert forall d | d in Emit(s, now).emitted :: d in s.emitted || d == c;
  }

  /** Effect looks at the commands and channels only. */
  lemma EffectFrom(s: Scan, s1: Scan, u: Scan)
    requires s1.p.chans == s.p.chans && PeerOf(s1) == PeerOf(s) && s1.emitted == s.emitted && Effect(s1, u)
    ensures Effect(s, u)
  {
    forall ch: nat, i: nat ensures Outstanding(PeerOf(u), ch, i) == Outstanding(PeerOf(s), ch, i) {
      assert Outstanding(PeerOf(u), ch, i) == Outstanding(PeerOf(s1), ch, i);
    }
    assert s1.p.(outgoing := []) == s.p.(outgoing := []) by {
      assert PeerOf(s1).(outgoing := []) == PeerOf(s).(outgoing := []);
    }
  }

  lemma EffectNone(s: Scan, u: Scan)
    requires PeerOf(u) == PeerOf(s) && u.p.chans == s.p.chans && u.emitted == s.emitted
    ensures Effect(s, u)
  {
  }

  /** check_outgoing_commands loses and invents no reliable number, and what it puts on the wire
      are attempted numbers. */
  lemma {:induction false} ScanEffect(s: Scan, now: u32)
    requires ScanOk(s)
    ensures Effect(s, ScanAll(s, now))
    decreases |s.rest|
  {
    hide Inv, Gate, Effect, Emit;
    if s.rest == [] {
      EffectNone(s, s);
    } else {
      HeadOk(s);
      GateFlags(s.p, s.fl, s.rest[0]);
      var (wait, fl) := Gate(s.p, s.fl, s.rest[0]);
      var s1 := s.(fl := fl);
      if wait {
        var s' := s.(kept := s.kept + [s.rest[0]], rest := s.rest[1..], fl := fl);
        PassedOverStays(s, fl);
        ScanEffect(s', now);
        EffectFrom(s, s', ScanAll(s', now));
      } else if Fits(s.g, s.rest[0], s.p.mtu) {
        assert PeerOf(s1) == PeerOf(s);
        if s.rest[0].reliable {
          EmitReliableOk(s1, now);
          EmitReliableEffect(s1, now);
        } else {
          EmitUnreliableOk(s1, now);
          EmitUnreliableEffect(s1, now);
        }
        ScanEffect(Emit(s1, now), now);
        EffectCompose(s1, Emit(s1, now), ScanAll(Emit(s1, now), now));
        EffectFrom(s, s1, ScanAll(Emit(s1, now), now));
      } else {
        EffectNone(s, s.(fl := fl, g := s.g.(more := true)));
      }
    }
  }

  // ----- acknowledgement -----

  /** Two attempted outstanding commands of a channel with the same wire number are one number. */
  lemma SameWireSameIndex(p: Peer, c: Cmd, d: Cmd)
    requires WellFormed(p) && CmdOk(p, c) && CmdOk(p, d)
    requires c.reliable && d.reliable && c.chan == d.chan < |p.chans|
    requires c.attempts > 0 && d.attempts > 0 && c.rseq == d.rseq
    ensures c.index == d.index
  {
    if c.index < d.index { SameWireNumber(c.index, d.index); WindowMonotone(d.index, p.chans[c.chan].newest); }
    if d.index < c.index { SameWireNumber(d.index, c.index); WindowMonotone(c.index, p.chans[c.chan].newest); }
  }

  /** The two ways remove_sent_reliable_command can unlink a command. */
  ghost function Dropped(p: Peer, inSent: bool, k: nat): Peer
    requires if inSent then k < |p.sent| else k < |p.outgoing|
  {
    if inSent then p.(sent := Without(p.sent, k)) else p.(outgoing := Without(p.outgoing, k))
  }

  lemma TotalsAfterDropped(p: Peer, inSent: bool, k: nat, f: Cmd -> nat)
    requires if inSent then k < |p.sent| else k < |p.outgoing|
    ensures var p', q := Dropped(p, inSent, k), if inSent then p.sent else p.outgoing;
      && Total(p'.sent, f) + Total(p'.outgoing, f) + f(q[k]) == Total(p.sent, f) + Total(p.outgoing, f)
      && Total(p'.sent, f) + (if inSent then f(q[k]) else 0) == Total(p.sent, f)
      && Total(p'.outgoing, f) + (if inSent then 0 else f(q[k])) == Total(p.outgoing, f)
  {
    var q := if inSent then p.sent else p.outgoing;
    assert q == q[..k] + [q[k]] + q[k + 1..];
    TotalSplit(q[..k], q[k], q[k + 1..], f);
  }

  lemma SettleView(p: Peer, c: Cmd, rseq: u16, chan: nat, wasSent: bool)
    requires WellFormed(p)
    ensures var p' := Settle(p, c, rseq, chan, wasSent);
      && p'.outgoing == p.outgoing && p'.sent == p.sent && p'.sentUnreliable == p.sentUnreliable
      && p'.mtu == p.mtu
      && p'.chans == (if chan < |p.chans|
                      then p.chans[chan := CloseWindow(p.chans[chan], rseq / WINDOW_SIZE)] else p.chans)
      && p'.inTransit == (if c.packet.Some? && wasSent then p.inTransit - c.len else p.inTransit)
  {
  }

  lemma DroppedShape(p: Peer, inSent: bool, k: nat)
    requires Shape(p) && if inSent then k < |p.sent| else k < |p.outgoing|
    ensures Shape(Dropped(p, inSent, k))
  {
    var m := Dropped(p, inSent, k);
    forall d | CmdOk(p, d) ensures CmdOk(m, d) {}
    assert forall d | d in m.sent :: d in p.sent;
    assert forall d | d in m.outgoing :: d in p.outgoing;
  }

  lemma SettleShape(m: Peer, c: Cmd, rseq: u16, chan: nat, wasSent: bool)
    requires Shape(m)
    ensures Shape(Settle(m, c, rseq, chan, wasSent))
  {
    hide Settle, CmdOk, CloseWindow;
    SettleView(m, c, rseq, chan, wasSent);
    var p' := Settle(m, c, rseq, chan, wasSent);
    CloseWindowView(m.chans, chan, rseq / WINDOW_SIZE);
    forall d | CmdOk(m, d) ensures CmdOk(p', d) {
      CmdOkSame(m, p', d);
    }
  }

  lemma CloseWindowView(chans: seq<Chan>, ch: nat, w: nat)
    requires w < 16 && forall c | 0 <= c < |chans| :: |chans[c].windows| == 16
    ensures ch < |chans| ==>
      var x, y := chans[ch], CloseWindow(chans[ch], w);
      |y.windows| == 16 && y.total == x.total && y.newest == x.newest && y.outSeq == x.outSeq
  {
  }

  lemma CmdOkSame(p: Peer, p': Peer, d: Cmd)
    requires CmdOk(p, d) && |p'.chans| == |p.chans| && p'.mtu == p.mtu
    requires forall ch | 0 <= ch < |p.chans| ::
      p'.chans[ch].total == p.chans[ch].total && p'.chans[ch].newest == p.chans[ch].newest
    ensures CmdOk(p', d)
  {
  }

  lemma SettleCounts(p: Peer, inSent: bool, k: nat)
    requires WellFormed(p) && WindowCounts(p) && if inSent then k < |p.sent| else k < |p.outgoing|
    requires var c := if inSent then p.sent[k] else p.outgoing[k]; c.reliable && c.attempts > 0
    ensures var c := if inSent then p.sent[k] else p.outgoing[k];
      WindowCounts(Settle(Dropped(p, inSent, k), c, c.rseq, c.chan, inSent))
  {
    hide Settle, Total;
    var c := if inSent then p.sent[k] else p.outgoing[k];
    var m := Dropped(p, inSent, k);
    SettleView(m, c, c.rseq, c.chan, inSent);
    var p' := Settle(m, c, c.rseq, c.chan, inSent);
    forall ch, w | 0 <= ch < |p'.chans| && 0 <= w < 16
      ensures p'.chans[ch].windows[w] == Total(p'.sent, Counted(ch, w)) + Total(p'.outgoing, Counted(ch, w))
      ensures p'.chans[ch].used[w] <==> p'.chans[ch].windows[w] > 0
    {
      TotalsAfterDropped(p, inSent, k, Counted(ch, w));
      assert p.chans[ch].windows[w] == Total(p.sent, Counted(ch, w)) + Total(p.outgoing, Counted(ch, w));
      assert p.chans[ch].used[w] <==> p.chans[ch].windows[w] > 0;
      assert IsCounted(c, ch, w) <==> ch == c.chan && w == c.rseq / WINDOW_SIZE;
    }
  }

  lemma SettleUnique(p: Peer, inSent: bool, k: nat)
    requires Inv(p) && if inSent then k < |p.sent| else k < |p.outgoing|
    requires var c := if inSent then p.sent[k] else p.outgoing[k]; c.reliable && c.attempts > 0
    ensures var c := if inSent then p.sent[k] else p.outgoing[k];
      var p' := Settle(Dropped(p, inSent, k), c, c.rseq, c.chan, inSent);
      && Unique(p')
      && (forall ch: nat, i: nat :: Outstanding(p', ch, i) + IsIndex(ch, i)(c) == Outstanding(p, ch, i))
  {
    hide Settle;
    var c := if inSent then p.sent[k] else p.outgoing[k];
    var m := Dropped(p, inSent, k);
    SettleView(m, c, c.rseq, c.chan, inSent);
    var p' := Settle(m, c, c.rseq, c.chan, inSent);
    forall ch, i: nat
      ensures Outstanding(p', ch, i) + IsIndex(ch, i)(c) == Outstanding(p, ch, i)
      ensures Total(p'.outgoing, IsFresh(ch, i)) == Total(p.outgoing, IsFresh(ch, i))
    {
      TotalsAfterDropped(p, inSent, k, IsIndex(ch, i));
      TotalsAfterDropped(p, inSent, k, IsFresh(ch, i));
    }
    assert forall ch, i: nat | 0 <= ch < |p.chans| :: Outstanding(p, ch, i) <= 1;
  }

  lemma SettleKeepsInv(p: Peer, inSent: bool, k: nat)
    requires Inv(p) && if inSent then k < |p.sent| else k < |p.outgoing|
    requires var c := if inSent then p.sent[k] else p.outgoing[k]; c.reliable && c.attempts > 0
    ensures var c := if inSent then p.sent[k] else p.outgoing[k];
      Inv(Settle(Dropped(p, inSent, k), c, c.rseq, c.chan, inSent))
  {
    var c := if inSent then p.sent[k] else p.outgoing[k];
    DroppedShape(p, inSent, k);
    SettleShape(Dropped(p, inSent, k), c, c.rseq, c.chan, inSent);
    SettleCounts(p, inSent, k);
    SettleUnique(p, inSent, k);
    if !inSent { OrderWithout(p.outgoing, k); }
    TotalsAfterDropped(p, inSent, k, Length());
    SettleView(Dropped(p, inSent, k), c, c.rseq, c.chan, inSent);
    assert CmdOk(p, c);
  }

  /** What an acknowledgement of wire number `rseq` finds. */
  lemma AckKeepsInv(p: Peer, rseq: u16, chan: nat)
    requires Inv(p)
    ensures Inv(RemoveSentReliable(p, rseq, chan).0)
  {
    var i := FindSent(p.sent, rseq, chan, 0);
    var j := FindAttempted(p.outgoing, rseq, chan, 0);
    if i.Some? {
      SettleKeepsInv(p, true, i.value);
    } else if j.Some? {
      assert CmdOk(p, p.outgoing[j.value]);
      SettleKeepsInv(p, false, j.value);
    }
  }

  lemma FindAttemptedFinds(cs: seq<Cmd>, rseq: u16, chan: nat, k: nat, j: nat)
    requires k <= j < |cs| && Matches(cs[j], rseq, chan)
    requires forall a | 0 <= a <= j :: cs[a].attempts > 0
    ensures FindAttempted(cs, rseq, chan, k).Some?
    decreases |cs| - k
  {
  }

  /** An acknowledgement for an attempted outstanding number is always found, and takes out that
      number and no other. */
  lemma AckFindsOutstanding(p: Peer, ch: nat, i: nat)
    requires Inv(p) && ch < |p.chans| && i <= p.chans[ch].newest && Outstanding(p, ch, i) > 0
    ensures RemoveSentReliable(p, Low16(i), ch).1.Some?
    ensures var p' := RemoveSentReliable(p, Low16(i), ch).0;
      forall c, j: nat :: Outstanding(p', c, j) == if c == ch && j == i then 0 else Outstanding(p, c, j)
  {
    var rseq := Low16(i);
    assert Outstanding(p, ch, i) <= 1;
    var s := FindSent(p.sent, rseq, ch, 0);
    var o := FindAttempted(p.outgoing, rseq, ch, 0);
    var d: Cmd;
    if Total(p.sent, IsIndex(ch, i)) > 0 {
      var k := TotalWitness(p.sent, IsIndex(ch, i));
      d := p.sent[k];
      assert CmdOk(p, d);
    } else {
      var k := TotalWitness(p.outgoing, IsIndex(ch, i));
      d := p.outgoing[k];
      assert CmdOk(p, d) && d.attempts > 0;
      if s.None? { FindAttemptedFinds(p.outgoing, rseq, ch, 0, k); }
    }
    var c := if s.Some? then p.sent[s.value] else p.outgoing[o.value];
    assert CmdOk(p, c);
    SameWireSameIndex(p, c, d);
    SettleUnique(p, s.Some?, if s.Some? then s.value else o.value);
  }

  /** An acknowledgement whose number no attempted outstanding command carries changes nothing. */
  lemma AckIgnored(p: Peer, ch: nat, rseq: u16)
    requires Inv(p) && ch < |p.chans|
    requires forall j: nat | Low16(j) == rseq && j <= p.chans[ch].newest :: Outstanding(p, ch, j) == 0
    ensures RemoveSentReliable(p, rseq, ch) == (p, None)
  {
    var s := FindSent(p.sent, rseq, ch, 0);
    if s.Some? {
      var c := p.sent[s.value];
      assert CmdOk(p, c);
      TotalMember(p.sent, s.value, IsIndex(ch, c.index));
    }
    var o := FindAttempted(p.outgoing, rseq, ch, 0);
    if o.Some? {
      var c := p.outgoing[o.value];
      assert CmdOk(p, c);
      TotalMember(p.outgoing, o.value, IsIndex(ch, c.index));
    }
  }

  // ----- how full a window is -----

  lemma TotalPlus(cs: seq<Cmd>, f: Cmd -> nat, g: Cmd -> nat, h: Cmd -> nat)
    requires forall c :: f(c) == g(c) + h(c)
    ensures Total(cs, f) == Total(cs, g) + Total(cs, h)
  {
    if cs != [] { TotalPlus(cs[1..], f, g, h); }
  }

  lemma TotalLe(cs: seq<Cmd>, f: Cmd -> nat, g: Cmd -> nat)
    requires forall c | c in cs :: f(c) <= g(c)
    ensures Total(cs, f) <= Total(cs, g)
  {
    if cs != [] { TotalLe(cs[1..], f, g); }
  }

  /** A reliable command of channel `ch` with a number from `lo` on and below `hi`. */
  ghost function InSpan(ch: nat, lo: nat, hi: nat): Cmd -> nat {
    (c: Cmd) => if c.reliable && c.chan == ch && lo <= c.index < hi then 1 else 0
  }

  ghost function Span(p: Peer, ch: nat, lo: nat, hi: nat): nat {
    Total(p.sent, InSpan(ch, lo, hi)) + Total(p.outgoing, InSpan(ch, lo, hi))
  }

  lemma SpanStep(p: Peer, ch: nat, lo: nat, hi: nat)
    requires lo <= hi
    ensures Span(p, ch, lo, hi + 1) == Span(p, ch, lo, hi) + Outstanding(p, ch, hi)
  {
    TotalPlus(p.sent, InSpan(ch, lo, hi + 1), InSpan(ch, lo, hi), IsIndex(ch, hi));
    TotalPlus(p.outgoing, InSpan(ch, lo, hi + 1), InSpan(ch, lo, hi), IsIndex(ch, hi));
  }

  lemma {:induction false} SpanFull(p: Peer, ch: nat, lo: nat, n: nat)
    requires forall i: nat | lo <= i < lo + n :: Outstanding(p, ch, i) > 0
    ensures Span(p, ch, lo, lo + n) >= n
  {
    if n > 0 {
      SpanFull(p, ch, lo, n - 1);
      SpanStep(p, ch, lo, lo + n - 1);
    }
  }

  lemma {:induction false} SpanBounded(p: Peer, ch: nat, lo: nat, n: nat)
    requires Unique(p) && ch < |p.chans|
    ensures Span(p, ch, lo, lo + n) <= n
  {
    if n > 0 {
      SpanBounded(p, ch, lo, n - 1);
      SpanStep(p, ch, lo, lo + n - 1);
      assert Total(p.sent, IsIndex(ch, lo + n - 1)) + Total(p.outgoing, IsIndex(ch, lo + n - 1)) <= 1;
    } else {
      TotalZero(p.sent, InSpan(ch, lo, lo));
      TotalZero(p.outgoing, InSpan(ch, lo, lo));
    }
  }

  /** If no number of an attempted window has been acknowledged, its counter stands at 4096. */
  lemma FullWindow(p: Peer, ch: nat, v: nat)
    requires Inv(p) && ch < |p.chans| && (v + 1) * WINDOW_SIZE <= p.chans[ch].newest + 1
    requires forall i: nat | v * WINDOW_SIZE <= i < (v + 1) * WINDOW_SIZE :: Outstanding(p, ch, i) > 0
    ensures p.chans[ch].windows[v % 16] >= WINDOW_SIZE
  {
    var lo, w := v * WINDOW_SIZE, v % 16;
    assert (v + 1) * WINDOW_SIZE == lo + WINDOW_SIZE;
    SpanFull(p, ch, lo, WINDOW_SIZE);
    forall c | c in p.sent || c in p.outgoing ensures InSpan(ch, lo, lo + WINDOW_SIZE)(c) <= Counted(ch, w)(c) {
      assert CmdOk(p, c);
      if InSpan(ch, lo, lo + WINDOW_SIZE)(c) > 0 {
        Decompose(c.index);
        assert WindowOf(c.index) == v;
      }
    }
    TotalLe(p.sent, InSpan(ch, lo, lo + WINDOW_SIZE), Counted(ch, w));
    TotalLe(p.outgoing, InSpan(ch, lo, lo + WINDOW_SIZE), Counted(ch, w));
    assert p.chans[ch].windows[w] == Total(p.sent, Counted(ch, w)) + Total(p.outgoing, Counted(ch, w));
  }

  /** The window among the last seven of the channel that has wire number `w`. */
  ghost function RecentWindow(newest: nat, w: nat): nat
    requires w < 16
  {
    var top := WindowOf(newest);
    if top % 16 >= w then top - (top % 16 - w) else if top >= 16 then top - (top % 16 + 16 - w) else w
  }

  lemma RecentWindowIs(newest: nat, i: nat)
    requires i <= newest && WindowOf(i) + 6 >= WindowOf(newest)
    ensures WindowOf(i) == RecentWindow(newest, WindowOf(i) % 16)
  {
  }

  /** The 16-bit window counters never exceed 4096, so they never wrap. */
  lemma CountersFit(p: Peer, ch: nat, w: nat)
    requires Inv(p) && ch < |p.chans| && w < 16
    ensures p.chans[ch].windows[w] <= WINDOW_SIZE
  {
    var v := RecentWindow(p.chans[ch].newest, w);
    var lo := v * WINDOW_SIZE;
    SpanBounded(p, ch, lo, WINDOW_SIZE);
    forall c | c in p.sent || c in p.outgoing ensures Counted(ch, w)(c) <= InSpan(ch, lo, lo + WINDOW_SIZE)(c) {
      assert CmdOk(p, c);
      if Counted(ch, w)(c) > 0 {
        Decompose(c.index);
        RecentWindowIs(p.chans[ch].newest, c.index);
      }
    }
    TotalLe(p.sent, Counted(ch, w), InSpan(ch, lo, lo + WINDOW_SIZE));
    TotalLe(p.outgoing, Counted(ch, w), InSpan(ch, lo, lo + WINDOW_SIZE));
    assert p.chans[ch].windows[w] == Total(p.sent, Counted(ch, w)) + Total(p.outgoing, Counted(ch, w));
  }

  // ----- a window nobody acknowledges holds the sender back -----

  /** Seen from a receiver in window `base` of channel `ch`: nothing from window base + 7 on has
      been acknowledged, and nothing beyond window base + 8 has been attempted. */
  ghost predicate HeldBack(p: Peer, ch: nat, base: nat)
    requires ch < |p.chans|
  {
    && WindowOf(p.chans[ch].newest) <= base + 8
    && (forall i: nat | 1 <= i <= p.chans[ch].newest && WindowOf(i) >= base + 7 :: Outstanding(p, ch, i) > 0)
  }

  /** An attempt the gate allows keeps the sender held back. */
  lemma AttemptHeldBack(p: Peer, k: nat, now: u32, ch: nat, base: nat)
    requires Inv(p) && k < |p.outgoing| && MayAttempt(p, k) && ch < |p.chans| && HeldBack(p, ch, base)
    ensures HeldBack(Attempt(Unlinked(p, k), p.outgoing[k], now), ch, base)
  {
    hide Inv, OpensWindowEarly, Outstanding;
    var c := p.outgoing[k];
    AttemptEffect(p, k, now);
    AttemptNewest(p, k, now, ch);
    if Fresh(c) && c.chan == ch {
      QueuedIsOutstanding(p, k);
      FirstFreshIsNext(p, k);
      NextStaysNear(p, c, base);
    }
  }

  lemma AttemptNewest(p: Peer, k: nat, now: u32, ch: nat)
    requires Inv(p) && k < |p.outgoing| && ch < |p.chans| && p.outgoing[k].reliable
    ensures var p', c := Attempt(Unlinked(p, k), p.outgoing[k], now), p.outgoing[k];
      && |p'.chans| == |p.chans|
      && p'.chans[ch].newest == p.chans[ch].newest + if Fresh(c) && c.chan == ch then 1 else 0
  {
  }

  lemma QueuedIsOutstanding(p: Peer, k: nat)
    requires Inv(p) && k < |p.outgoing| && Fresh(p.outgoing[k])
    ensures var c := p.outgoing[k];
      c.chan < |p.chans| && c.rseq == Low16(c.index) && Outstanding(p, c.chan, c.index) > 0
  {
    var c := p.outgoing[k];
    assert CmdOk(p, c);
    TotalMember(p.outgoing, k, IsIndex(c.chan, c.index));
  }

  lemma NextStaysNear(p: Peer, c: Cmd, base: nat)
    requires Inv(p) && c.chan < |p.chans| && Fresh(c) && HeldBack(p, c.chan, base)
    requires c.index == p.chans[c.chan].newest + 1 && c.rseq == Low16(c.index) && !OpensWindowEarly(p, c)
    ensures WindowOf(c.index) <= base + 8
  {
    hide Order, Shape, Unique, WindowCounts, Low16;
    if WindowOf(c.index) > base + 8 {
      FirstOfWindow(c.index, base + 9);
      FullWindow(p, c.chan, base + 8);
    }
  }

  lemma FirstOfWindow(i: nat, v: nat)
    requires i > 0 && v > 0 && WindowOf(i - 1) < v <= WindowOf(i)
    ensures i == v * WINDOW_SIZE && Low16(i) % WINDOW_SIZE == 0
    ensures (Low16(i) / WINDOW_SIZE + 15) % 16 == (v - 1) % 16
    ensures forall j: nat | (v - 1) * WINDOW_SIZE <= j < v * WINDOW_SIZE :: WindowOf(j) == v - 1
  {
    assert v * 0x1000 <= i < v * 0x1000 + 1;
    WireOfFirst(v);
    forall j: nat | (v - 1) * WINDOW_SIZE <= j < v * WINDOW_SIZE ensures WindowOf(j) == v - 1 {
      InWindow(j, v - 1);
    }
  }

  lemma WireOfFirst(v: nat)
    requires v > 0
    ensures Low16(v * 0x1000) == (v % 16) * 0x1000
    ensures ((v % 16) + 15) % 16 == (v - 1) % 16
  {
    assert v == 16 * (v / 16) + v % 16;
  }

  lemma InWindow(j: nat, v: nat)
    requires v * 0x1000 <= j < v * 0x1000 + 0x1000
    ensures WindowOf(j) == v
  {
  }

  lemma EmitHeldBack(s: Scan, now: u32, ch: nat, base: nat)
    requires ScanOk(s) && s.rest != [] && Fits(s.g, s.rest[0], s.p.mtu)
    requires !Gate(s.p, s.fl, s.rest[0]).0
    requires ch < |s.p.chans| && HeldBack(PeerOf(s), ch, base)
    ensures ch < |Emit(s, now).p.chans| && HeldBack(PeerOf(Emit(s, now)), ch, base)
  {
    hide Inv, Gate, Emit, Attempt, MayAttempt, Outstanding;
    HeadOk(s);
    if s.rest[0].reliable {
      PassedMayAttempt(s);
      EmitReliableOk(s, now);
      AttemptNewest(PeerOf(s), |s.kept|, now, ch);
      AttemptHeldBack(PeerOf(s), |s.kept|, now, ch, base);
    } else {
      EmitUnreliableOk(s, now);
    }
  }

  /** check_outgoing_commands keeps the sender held back. */
  lemma {:induction false} ScanHeldBack(s: Scan, now: u32, ch: nat, base: nat)
    requires ScanOk(s) && ch < |s.p.chans| && HeldBack(PeerOf(s), ch, base)
    ensures ch < |ScanAll(s, now).p.chans| && HeldBack(PeerOf(ScanAll(s, now)), ch, base)
    decreases |s.rest|
  {
    hide Inv, Gate, HeldBack, Emit, Attempt;
    if s.rest != [] {
      HeadOk(s);
      GateFlags(s.p, s.fl, s.rest[0]);
      var (wait, fl) := Gate(s.p, s.fl, s.rest[0]);
      if wait {
        var s' := s.(kept := s.kept + [s.rest[0]], rest := s.rest[1..], fl := fl);
        PassedOverStays(s, fl);
        ScanHeldBack(s', now, ch, base);
      } else if Fits(s.g, s.rest[0], s.p.mtu) {
        var s1 := s.(fl := fl);
        assert PeerOf(s1) == PeerOf(s);
        EmitHeldBack(s1, now, ch, base);
        if s.rest[0].reliable { EmitReliableOk(s1, now); } else { EmitUnreliableOk(s1, now); }
        ScanHeldBack(Emit(s1, now), now, ch, base);
      } else {
        assert PeerOf(s.(fl := fl, g := s.g.(more := true))) == PeerOf(s);
      }
    }
  }
}
