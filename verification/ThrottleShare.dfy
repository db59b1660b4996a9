/** How many packets the throttle lets through: the counter advances by 7 modulo 32 with each packet
    it counts, and so meets every value once in 32 packets. */
module ThrottleShare {
  import opened Options
  import opened SeqNumbers
  import opened EnetSender
  import SP = SenderProgress

  /** The packets that the throttle counts: unreliable ones, by their first fragment. */
  predicate Counts(c: Cmd) { !c.reliable && c.packet.Some? && c.offset == 0 && !c.unthrottled }

  /** The next command of the pass goes out if the throttle does not count it, and otherwise exactly
      if the counter, 7 further, is at most the throttle. */
  lemma EmitMeans(s: Scan, now: u32)
    requires WellFormed(s.p) && s.rest != []
    ensures var t, c := Emit(s, now), s.rest[0];
      var counter := (s.p.throttleCounter + 7) % 32;
      && t.p.throttle == s.p.throttle
      && t.p.throttleCounter == (if Counts(c) then counter else s.p.throttleCounter)
      && |t.emitted| == |s.emitted| + (if Counts(c) && counter > s.p.throttle then 0 else 1)
      && s.emitted <= t.emitted
  {
    hide Attempt;
    SP.DropEmitsNothing(s.(p := s.p.(throttleCounter := (s.p.throttleCounter + THROTTLE_COUNTER) % THROTTLE_SCALE)),
                        s.rest[0].rseq, s.rest[0].useq);
    if s.rest[0].reliable { AttemptKeepsThrottle(s.p, s.rest[0], now); }
  }

  lemma AttemptKeepsThrottle(p: Peer, c: Cmd, now: u32)
    requires WellFormed(p)
    ensures Attempt(p, c, now).throttle == p.throttle && Attempt(p, c, now).throttleCounter == p.throttleCounter
  {
  }

  // ----- the counter -----

  function One(b: bool): nat { if b then 1 else 0 }

  function Next(counter: nat): (c: nat)
    ensures c < 32
  {
    (counter + 7) % 32
  }

  /** How many of the next n packets go out at throttle t. */
  function Sent(counter: nat, t: nat, n: nat): nat
    decreases n
  {
    if n == 0 then 0 else One(Next(counter) <= t) + Sent(Next(counter), t, n - 1)
  }

  /** How often the counter meets r. */
  function Meets(counter: nat, r: nat, n: nat): nat
    decreases n
  {
    if n == 0 then 0 else One(Next(counter) == r) + Meets(Next(counter), r, n - 1)
  }

  /** The counter after n packets. */
  function After(counter: nat, n: nat): nat { (counter + 7 * n) % 32 }

  lemma AfterNext(c: nat, n: nat)
    ensures After(Next(c), n) == After(c, n + 1) == Next(After(c, n))
  {
    ModSum(c + 7, 7 * n);
    ModSum(c + 7 * n, 7);
  }

  lemma ModSum(a: nat, b: nat)
    ensures (a % 32 + b) % 32 == (a + b) % 32
  {
    var q, x := a / 32, a % 32 + b;
    assert a + b == 32 * q + x;
    assert x == 32 * (x / 32) + x % 32;
    SameRemainder(a + b, q + x / 32, x % 32);
  }

  lemma SameRemainder(y: nat, q: nat, r: nat)
    requires y == 32 * q + r && r < 32
    ensures y % 32 == r
  {
  }

  lemma {:induction false} MeetsLast(c: nat, r: nat, n: nat)
    ensures Meets(c, r, n + 1) == Meets(c, r, n) + One(After(c, n + 1) == r)
    decreases n
  {
    hide After, Next;
    AfterNext(c, n);
    if n > 0 {
      MeetsLast(Next(c), r, n - 1);
    } else {
      assert Meets(Next(c), r, 0) == 0;
      assert After(c, 0 + 1) == Next(c) by { AfterOne(c); }
    }
  }

  lemma AfterOne(c: nat)
    ensures After(c, 1) == Next(c) && (c < 32 ==> After(c, 0) == c)
  {
  }

  lemma AfterTurn(c: nat, n: nat)
    requires n == 32
    ensures After(c, n + 1) == Next(c)
  {
  }

  /** A whole turn meets r as often from wherever it starts. */
  lemma TurnMoves(c: nat, r: nat, n: nat)
    requires n == 32
    ensures Meets(c, r, n) == Meets(Next(c), r, n)
  {
    hide After, Next;
    MeetsLast(c, r, n);
    AfterTurn(c, n);
  }

  lemma {:induction false} TurnAnywhere(c: nat, r: nat, k: nat, n: nat)
    requires n == 32 && c < 32
    ensures Meets(c, r, n) == Meets(After(c, k), r, n)
    decreases k
  {
    hide After, Next, Meets;
    AfterOne(c);
    if k > 0 {
      TurnAnywhere(Next(c), r, k - 1, n);
      TurnMoves(c, r, n);
      AfterNext(c, k - 1);
    }
  }

  lemma NotBack(r: nat, m: nat)
    requires r < 32 && 0 < m < 32
    ensures After(r, m) != r
  {
  }

  /** Having met r, the counter does not meet it again for 31 packets. */
  lemma {:induction false} NoReturn(r: nat, m: nat, n: nat)
    requires r < 32 && m + n <= 31
    ensures Meets(After(r, m), r, n) == 0
    decreases n
  {
    hide After, Next;
    if n > 0 {
      AfterNext(r, m);
      NotBack(r, m + 1);
      NoReturn(r, m + 1, n - 1);
    }
  }

  /** From any value the counter comes to the one before r. */
  lemma ComesBefore(c: nat, r: nat) returns (k: nat)
    requires c < 32 && r < 32
    ensures Next(After(c, k)) == r
  {
    k := (23 * (r + 57 - c)) % 32;
    var d := r + 57 - c;
    assert 23 * d == 32 * (23 * d / 32) + k;
    assert c + 7 * k + 7 == c + 161 * d - 224 * (23 * d / 32) + 7;
    assert c + 7 * k + 7 == r + 32 * (5 * d + 2 - 7 * (23 * d / 32));
    var e := 5 * d + 2 - 7 * (23 * d / 32);
    NextOfSum(c + 7 * k, r, e);
  }

  lemma NextOfSum(a: nat, r: nat, e: int)
    requires r < 32 && a + 7 == r + 32 * e
    ensures Next(a % 32) == r
  {
    assert a == 32 * (a / 32) + a % 32;
  }

  lemma MetOnce(c: nat, r: nat, n: nat)
    requires c < 32 && r < 32 && n == 32
    ensures Meets(c, r, n) == 1
  {
    hide After, Next;
    var k := ComesBefore(c, r);
    TurnAnywhere(c, r, k, n);
    AfterOne(r);
    NoReturn(r, 0, n - 1);
  }

  lemma {:induction false} SentUpTo(c: nat, t: nat, n: nat)
    ensures Sent(c, t + 1, n) == Sent(c, t, n) + Meets(c, t + 1, n)
    ensures Sent(c, 0, n) == Meets(c, 0, n)
    decreases n
  {
    hide Next;
    if n > 0 { SentUpTo(Next(c), t, n - 1); }
  }

  /** Of any 32 packets in a row that the throttle counts, it lets exactly t + 1 through. */
  lemma {:induction false} SentOfTurn(c: nat, t: nat, n: nat)
    requires c < 32 && t < 32 && n == 32
    ensures Sent(c, t, n) == t + 1
    decreases t
  {
    hide Sent, Meets;
    MetOnce(c, t, n);
    if t == 0 {
      SentUpTo(c, 0, n);
    } else {
      SentOfTurn(c, t - 1, n);
      SentUpTo(c, t - 1, n);
    }
  }

  lemma {:induction false} AllSent(c: nat, t: nat, n: nat)
    requires t >= 31
    ensures Sent(c, t, n) == n
    decreases n
  {
    if n > 0 { AllSent(Next(c), t, n - 1); }
  }

  /** The states of a pass, of one or several datagrams, while n counted packets are handled. */
  ghost predicate Handled(ss: seq<Scan>, now: u32, n: nat) {
    && |ss| == n + 1
    && forall i | 0 <= i < n ::
         && WellFormed(ss[i].p) && ss[i].rest != [] && Counts(ss[i].rest[0])
         && var t := Emit(ss[i], now);
            ss[i + 1].emitted == t.emitted && ss[i + 1].p.throttle == t.p.throttle
            && ss[i + 1].p.throttleCounter == t.p.throttleCounter
  }

  lemma {:induction false} HandledSent(ss: seq<Scan>, now: u32, n: nat)
    requires Handled(ss, now, n)
    ensures |ss[n].emitted| == |ss[0].emitted| + Sent(ss[0].p.throttleCounter, ss[0].p.throttle, n)
    decreases n
  {
    hide Emit;
    if n > 0 {
      EmitMeans(ss[0], now);
      assert Handled(ss[1..], now, n - 1);
      HandledSent(ss[1..], now, n - 1);
    }
  }

  /** While 32 counted packets in a row are handled at throttle t, exactly t + 1 go out, or all at
      the full throttle. */
  lemma ThrottledShare(ss: seq<Scan>, now: u32, n: nat)
    requires n == 32 && Handled(ss, now, n) && ss[0].p.throttleCounter < 32 && ss[0].p.throttle <= 32
    ensures |ss[n].emitted| == |ss[0].emitted| + if ss[0].p.throttle < 32 then ss[0].p.throttle + 1 else 32
  {
    hide Sent, Emit;
    HandledSent(ss, now, n);
    if ss[0].p.throttle < 32 { SentOfTurn(ss[0].p.throttleCounter, ss[0].p.throttle, n); }
    else { AllSent(ss[0].p.throttleCounter, ss[0].p.throttle, n); }
  }
}
