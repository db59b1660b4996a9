/** 16-bit wrapping sequence numbers and their 16 windows of 4096 numbers
    (ENET_PEER_RELIABLE_WINDOWS, ENET_PEER_RELIABLE_WINDOW_SIZE, ENET_PEER_FREE_RELIABLE_WINDOWS).

    Commands are also given an unbounded index, which the protocol never sees: the number on the
    wire is the index modulo 2^16. The lemmas below say when the receiver's window arithmetic on
    wire numbers agrees with plain arithmetic on indices. */
module SeqNumbers {
  const WRAP: nat := 0x1_0000
  const WINDOW_SIZE: nat := 0x1000
  const WINDOWS: nat := 16
  const FREE_WINDOWS: nat := 8

  type u16 = x: nat | x < 0x1_0000
  type u32 = x: nat | x < 0x1_0000_0000

  function Low16(i: nat): u16 { i % 0x1_0000 }

  lemma AddMod(a: nat, b: nat)
    ensures (a % WRAP + b) % WRAP == (a + b) % WRAP
  {
    var q := a / WRAP;
    assert a + b == WRAP * q + (a % WRAP + b);
    ModShift(a % WRAP + b, q);
  }

  lemma ModShift(x: nat, q: nat)
    ensures (WRAP * q + x) % WRAP == x % WRAP
  {
  }

  /** Window of an unbounded index. */
  function WindowOf(i: nat): nat { i / 0x1000 }

  /** The receiver's view of the window of wire number `s`: numbers below the current one are
      taken to have wrapped. */
  function ForwardWindow(s: u16, current: u16): nat {
    s / 0x1000 + if s < current then 16 else 0
  }

  /** The window check of queue_incoming_command and handle_send_fragment. */
  predicate Receivable(s: u16, current: u16) {
    current / 0x1000 <= ForwardWindow(s, current) < current / 0x1000 + FREE_WINDOWS - 1
  }

  /** The window check of queue_acknowledgement: windows 7 and 8 ahead are not acknowledged. */
  predicate Ackable(s: u16, current: u16) {
    !(current / 0x1000 + FREE_WINDOWS - 1 <= ForwardWindow(s, current) <= current / 0x1000 + FREE_WINDOWS)
  }

  lemma Decompose(i: nat)
    ensures Low16(i) / 0x1000 == WindowOf(i) % 16
    ensures WindowOf(i) == (i / 0x1_0000) * 16 + Low16(i) / 0x1000
  {
    var q, s := i / 0x1_0000, i % 0x1_0000;
    assert i == 0x1_0000 * q + s;
    assert i == 0x1000 * (16 * q + s / 0x1000) + s % 0x1000;
  }

  /** Ahead of the receiver by less than a full turn, wire windows and index windows agree. */
  lemma ForwardWindowAhead(i: nat, r: nat)
    requires r <= i < r + 0x1_0000
    ensures ForwardWindow(Low16(i), Low16(r)) - Low16(r) / 0x1000 == WindowOf(i) - WindowOf(r)
    ensures Low16(i) == Low16(r) <==> i == r
    ensures Receivable(Low16(i), Low16(r)) <==> WindowOf(i) < WindowOf(r) + 7
    ensures Ackable(Low16(i), Low16(r)) <==> !(WindowOf(r) + 7 <= WindowOf(i) <= WindowOf(r) + 8)
  {
    Decompose(i);
    Decompose(r);
    var qi, qr := i / 0x1_0000, r / 0x1_0000;
    assert i == 0x1_0000 * qi + Low16(i) && r == 0x1_0000 * qr + Low16(r);
    if Low16(i) < Low16(r) {
      assert qi == qr + 1;
    } else {
      assert qi == qr;
    }
  }

  /** A number behind the receiver is refused exactly when it is at most nine windows behind
      (within a full turn): ten windows behind, it is taken for a new one. */
  lemma BehindIsRefused(i: nat, r: nat)
    requires i < r < i + 0x1_0000
    ensures Receivable(Low16(i), Low16(r)) <==> WindowOf(i) + 9 < WindowOf(r)
  {
    ForwardWindowAhead(i + 0x1_0000, r);
    assert WindowOf(i + 0x1_0000) == WindowOf(i) + 16;
  }

  /** Two indices with the same wire number are a whole number of turns apart. */
  lemma SameWireNumber(i: nat, j: nat)
    requires Low16(i) == Low16(j) && i < j
    ensures WindowOf(j) >= WindowOf(i) + 16
  {
    assert j - i >= 0x1_0000;
  }

  lemma WindowMonotone(i: nat, j: nat)
    requires i <= j
    ensures WindowOf(i) <= WindowOf(j)
  {
  }
}
