/** handle_send_unsequenced: a window of 1024 groups behind which nothing is accepted. Groups are
    also given an unbounded index, of which the number on the wire is the low half. */
module Unsequenced {
  import opened SeqNumbers

  const SIZE: nat := 1024
  const FREE: nat := 32

  type Bits = s: seq<bool> | |s| == 1024 witness seq(1024, _ => false)

  function NoBits(): Bits { seq(1024, _ => false) }

  /** incomingUnsequencedGroup and unsequencedWindow. */
  datatype Window = Window(base: u16, bits: Bits)

  /** The group is less than 32 windows ahead of the base, modulo 2^16. */
  predicate InReach(base: u16, group: u16) {
    group + (if group < base then WRAP else 0) < base + FREE * SIZE
  }

  /** The state after a group has arrived, and whether its packet was queued; `room` says whether
      queueing it succeeds. */
  function Arrive(w: Window, group: u16, room: bool): (Window, bool) {
    var index := group % SIZE;
    if !InReach(w.base, group) then (w, false)
    else if group - index != w.base then
      var moved := Window(group - index, NoBits());
      if room then (moved.(bits := moved.bits[index := true]), true) else (moved, false)
    else if w.bits[index] then (w, false)
    else if room then (w.(bits := w.bits[index := true]), true) else (w, false)
  }

  class UnsequencedWindow {
    var incomingUnsequencedGroup: u16
    var unsequencedWindow: Bits

    constructor ()
      ensures View() == Window(0, NoBits())
    {
      incomingUnsequencedGroup := 0;
      unsequencedWindow := NoBits();
    }

    ghost function View(): Window
      reads this
    {
      Window(incomingUnsequencedGroup, unsequencedWindow)
    }

    method HandleSendUnsequenced(unsequencedGroup: u16, room: bool) returns (queued: bool)
      modifies this
      ensures (View(), queued) == Arrive(old(View()), unsequencedGroup, room)
    {
      var group: nat, index := unsequencedGroup, unsequencedGroup % SIZE;
      if group < incomingUnsequencedGroup { group := group + WRAP; }
      if group >= incomingUnsequencedGroup + FREE * SIZE { return false; }
      group := group % WRAP;
      if group - index != incomingUnsequencedGroup {
        incomingUnsequencedGroup := group - index;
        unsequencedWindow := NoBits();
      } else if unsequencedWindow[index] {
        return false;
      }
      if !room { return false; }
      unsequencedWindow := unsequencedWindow[index := true];
      queued := true;
    }
  }

  // ----- runs -----

  /** The window's base is the wire number of `block`, a multiple of 1024. */
  predicate At(w: Window, block: nat) { block % SIZE == 0 && w.base == Low16(block) }

  function BlockOf(g: nat): nat { g - g % SIZE }

  /** Within reach of the window at `block`: at most 32768 groups behind, less than a turn ahead. */
  predicate Near(block: nat, g: nat) { block <= g + FREE * SIZE && g < block + WRAP }

  lemma ReachMeans(block: nat, g: nat)
    requires block % SIZE == 0 && Near(block, g)
    ensures InReach(Low16(block), Low16(g)) <==> block <= g < block + FREE * SIZE
  {
    var qb, qg := block / WRAP, g / WRAP;
    assert block == WRAP * qb + Low16(block) && g == WRAP * qg + Low16(g);
  }

  /** Behind the window, at most a turn back, a group is taken for a new one exactly when it is
      more than 32768 groups behind. */
  lemma StaleIsRefused(block: nat, g: nat)
    requires block % SIZE == 0 && g < block <= g + WRAP
    ensures InReach(Low16(block), Low16(g)) <==> block > g + 32768
  {
    var qb, qg := block / WRAP, g / WRAP;
    assert block == WRAP * qb + Low16(block) && g == WRAP * qg + Low16(g);
    assert qb == qg || qb == qg + 1;
  }

  lemma WireBlock(g: nat)
    ensures Low16(g) % SIZE == g % SIZE && Low16(g) - Low16(g) % SIZE == Low16(BlockOf(g))
  {
    var q, s := g / WRAP, Low16(g);
    assert g == WRAP * q + s;
    assert s == SIZE * (s / SIZE) + s % SIZE;
    assert g == SIZE * (64 * q + s / SIZE) + s % SIZE;
    assert BlockOf(g) == WRAP * q + SIZE * (s / SIZE);
  }

  lemma SameBlock(a: nat, b: nat)
    requires a % SIZE == 0 && b % SIZE == 0 && Low16(a) == Low16(b) && a <= b < a + WRAP
    ensures a == b
  {
  }

  datatype Arrival = Arrival(g: nat, room: bool)

  /** The block after an arrival. */
  function Moved(block: nat, a: Arrival): nat {
    if block <= a.g < block + FREE * SIZE then BlockOf(a.g) else block
  }

  /** Every arrival is within reach when it comes. */
  predicate AllNear(block: nat, run: seq<Arrival>)
    decreases |run|
  {
    run == [] || (Near(block, run[0].g) && AllNear(Moved(block, run[0]), run[1..]))
  }

  /** The groups queued in a run. */
  function Queued(w: Window, run: seq<Arrival>): seq<nat>
    decreases |run|
  {
    if run == [] then []
    else
      var (w', ok) := Arrive(w, Low16(run[0].g), run[0].room);
      (if ok then [run[0].g] else []) + Queued(w', run[1..])
  }

  /** What the window knows of the groups queued so far: none lies beyond its block, and the bits
      tell which lie in it. */
  ghost predicate Knows(w: Window, block: nat, done: set<nat>) {
    && At(w, block)
    && (forall g | g in done :: g < block + SIZE)
    && forall i | 0 <= i < SIZE :: w.bits[i] <==> block + i in done
  }

  /** A group is taken exactly if there is room, it is not behind the block and less than 32 blocks
      ahead, and it has not been taken before. */
  predicate Taken(block: nat, done: set<nat>, a: Arrival) {
    a.room && block <= a.g < block + 32768 && a.g !in done
  }

  /** An arrival in the block the window stands at: its bit tells whether it came before. */
  lemma ArriveInBlock(w: Window, block: nat, done: set<nat>, a: Arrival)
    requires Knows(w, block, done) && block <= a.g < block + SIZE
    requires InReach(w.base, Low16(a.g)) && Low16(a.g) % SIZE == a.g % SIZE && Low16(a.g) - a.g % SIZE == w.base
    ensures var (w', ok) := Arrive(w, Low16(a.g), a.room);
      (ok <==> Taken(block, done, a)) && Knows(w', block, if ok then done + {a.g} else done)
  {
    hide Low16, InReach;
    InBlock(block, a.g);
    var i := a.g % SIZE;
    assert w.bits[i] <==> a.g in done;
    if Taken(block, done, a) {
      var w' := Arrive(w, Low16(a.g), a.room).0;
      assert w' == w.(bits := w.bits[i := true]);
      forall k | 0 <= k < SIZE ensures w'.bits[k] <==> block + k in done + {a.g} { }
    }
  }

  lemma InBlock(block: nat, g: nat)
    requires block % SIZE == 0 && block <= g < block + SIZE
    ensures g == block + g % SIZE
  {
  }

  /** An arrival further on: the window moves there, with no bit set. */
  lemma ArriveAhead(w: Window, block: nat, done: set<nat>, a: Arrival)
    requires Knows(w, block, done) && block + SIZE <= a.g
    requires InReach(w.base, Low16(a.g)) && Low16(a.g) % SIZE == a.g % SIZE
    requires Low16(a.g) - a.g % SIZE == Low16(BlockOf(a.g)) != w.base
    ensures var (w', ok) := Arrive(w, Low16(a.g), a.room);
      (ok <==> a.room) && a.g !in done && Knows(w', BlockOf(a.g), if ok then done + {a.g} else done)
  {
    hide Low16, InReach;
    var (w', ok) := Arrive(w, Low16(a.g), a.room);
    assert block + SIZE <= BlockOf(a.g) by { AheadBlock(block, a.g); }
    BlockAligned(a.g);
    InBlock(BlockOf(a.g), a.g);
    assert w'.base == Low16(BlockOf(a.g));
    forall i | 0 <= i < SIZE ensures w'.bits[i] <==> BlockOf(a.g) + i in (if ok then done + {a.g} else done) { }
  }

  lemma BlockAligned(g: nat)
    ensures BlockOf(g) % SIZE == 0 && BlockOf(g) <= g < BlockOf(g) + SIZE
  {
  }

  lemma AheadBlock(block: nat, g: nat)
    requires block % SIZE == 0
    ensures block <= g ==> block <= BlockOf(g)
    ensures block + SIZE <= g ==> block + SIZE <= BlockOf(g)
    ensures block <= g < block + SIZE ==> BlockOf(g) == block
  {
  }

  /** One arrival: the base stays a multiple of 1024, and the group is taken exactly if it should
      be; in particular nothing is queued twice. */
  lemma ArriveOnce(w: Window, block: nat, done: set<nat>, a: Arrival)
    requires Knows(w, block, done) && Near(block, a.g)
    ensures var (w', ok) := Arrive(w, Low16(a.g), a.room);
      && (ok <==> Taken(block, done, a))
      && Knows(w', Moved(block, a), if ok then done + {a.g} else done)
  {
    hide Low16, BlockOf, InReach;
    ReachMeans(block, a.g);
    WireBlock(a.g);
    AheadBlock(block, a.g);
    BlockAligned(a.g);
    if block <= a.g < block + FREE * SIZE {
      if a.g < block + SIZE {
        ArriveInBlock(w, block, done, a);
      } else {
        if Low16(BlockOf(a.g)) == Low16(block) { SameBlock(block, BlockOf(a.g)); }
        ArriveAhead(w, block, done, a);
      }
    }
  }

  lemma {:induction false} QueuedOnce(w: Window, block: nat, done: set<nat>, run: seq<Arrival>, i: nat)
    requires Knows(w, block, done) && AllNear(block, run) && i < |Queued(w, run)|
    ensures Queued(w, run)[i] !in done
    ensures forall j | i < j < |Queued(w, run)| :: Queued(w, run)[j] != Queued(w, run)[i]
    decreases |run|
  {
    hide Arrive, Knows, Near;
    ArriveOnce(w, block, done, run[0]);
    var (w', ok) := Arrive(w, Low16(run[0].g), run[0].room);
    var block', rest := Moved(block, run[0]), Queued(w', run[1..]);
    var done' := if ok then done + {run[0].g} else done;
    var d := if ok then 1 else 0;
    assert forall j | d <= j < |Queued(w, run)| :: Queued(w, run)[j] == rest[j - d];
    if ok && i == 0 {
      forall j | 0 < j < |Queued(w, run)| ensures Queued(w, run)[j] != run[0].g {
        QueuedOnce(w', block', done', run[1..], j - 1);
      }
    } else {
      QueuedOnce(w', block', done', run[1..], i - d);
    }
  }

  /** In any run whose arrivals are within reach, across any number of wraps, every unsequenced
      group is queued at most once. */
  lemma AtMostOnce(run: seq<Arrival>, i: nat, j: nat)
    requires AllNear(0, run) && i < j < |Queued(Window(0, NoBits()), run)|
    ensures Queued(Window(0, NoBits()), run)[i] != Queued(Window(0, NoBits()), run)[j]
  {
    QueuedOnce(Window(0, NoBits()), 0, {}, run, i);
  }
}
