/** What the receiver keeps while the numbered parts of a fixed list of packets arrive in any
    order and any number of times: its queue holds packets in order of number, each with exactly
    the bytes that have arrived, and what it dispatches is the next packets of the list. */
module ReceiverInvariants {
  import opened Bytes
  import opened SeqNumbers
  import opened EnetReceiver
  import opened PacketNumbers

  // ----- one packet under reassembly -----

  /** Number of fragments still missing. */
  function Clear(bits: seq<bool>): nat {
    if bits == [] then 0 else (if bits[0] then 0 else 1) + Clear(bits[1..])
  }

  lemma ClearSet(bits: seq<bool>, n: nat)
    requires n < |bits| && !bits[n]
    ensures Clear(bits[n := true]) + 1 == Clear(bits)
  {
    if n == 0 {
      assert bits[0 := true][1..] == bits[1..];
    } else {
      assert bits[n := true][1..] == bits[1..][n - 1 := true];
      ClearSet(bits[1..], n - 1);
    }
  }

  lemma ClearZero(bits: seq<bool>)
    ensures Clear(bits) == 0 <==> forall j | 0 <= j < |bits| :: bits[j]
  {
    if bits != [] {
      ClearZero(bits[1..]);
      assert forall j | 0 < j < |bits| :: bits[j] == bits[1..][j - 1];
    }
  }

  lemma ClearAll(n: nat)
    ensures Clear(seq(n, _ => false)) == n
  {
    if n > 0 {
      assert seq(n, _ => false)[1..] == seq(n - 1, _ => false);
      ClearAll(n - 1);
    }
  }

  /** Bytes of piece `j` are those of the packet. */
  ghost predicate PieceArrived(data: seq<byte>, pkt: seq<byte>, limit: nat, j: nat)
    requires |data| == |pkt|
  {
    forall b | PieceStart(limit, j) <= b < PieceEnd(|pkt|, limit, j) :: data[b] == pkt[b]
  }

  /** Queue entry `c` holds packet `pkt`: whole, or the pieces its bits say. */
  ghost predicate Holds(c: InCmd, pkt: seq<byte>, limit: nat)
    requires limit > 0
  {
    && |c.data| == |pkt|
    && |c.bits| == c.count
    && if |pkt| <= limit then c.count == 0 && c.remaining == 0 && c.data == pkt
       else
         && c.count == Parts(|pkt|, limit)
         && c.remaining == Clear(c.bits)
         && forall j | 0 <= j < |c.bits| && c.bits[j] :: PieceArrived(c.data, pkt, limit, j)
  }

  /** When nothing remains, the rebuilt bytes are the original ones. */
  lemma CompleteIsOriginal(c: InCmd, pkt: seq<byte>, limit: nat)
    requires limit > 0 && Holds(c, pkt, limit) && c.remaining == 0
    ensures c.data == pkt
  {
    if |pkt| > limit {
      ClearZero(c.bits);
      forall b | 0 <= b < |pkt| ensures c.data[b] == pkt[b] {
        var j := PieceOf(|pkt|, limit, b);
        assert PieceArrived(c.data, pkt, limit, j);
      }
    }
  }

  ghost function PieceBytes(pkt: seq<byte>, limit: nat, j: nat): seq<byte>
    requires limit > 0 && |pkt| > limit && j < Parts(|pkt|, limit)
  {
    PieceBounds(|pkt|, limit, j);
    pkt[PieceStart(limit, j)..PieceEnd(|pkt|, limit, j)]
  }

  lemma BlankHolds(s: u16, pkt: seq<byte>, limit: nat)
    requires limit > 0 && |pkt| > limit
    ensures Holds(Blank(s, Parts(|pkt|, limit), |pkt|), pkt, limit)
  {
    ClearAll(Parts(|pkt|, limit));
  }

  /** Storing a genuine fragment adds its piece and disturbs no other, however often it comes. */
  lemma StoreHolds(c: InCmd, pkt: seq<byte>, limit: nat, j: nat)
    requires limit > 0 && |pkt| > limit && j < Parts(|pkt|, limit) && Holds(c, pkt, limit)
    ensures PieceStart(limit, j) <= |c.data|
    ensures var c' := Store(c, j, PieceStart(limit, j), PieceBytes(pkt, limit, j));
      && Holds(c', pkt, limit) && c'.rseq == c.rseq && c'.bits == c.bits[j := true]
  {
    PieceBounds(|pkt|, limit, j);
    var start, bytes := PieceStart(limit, j), PieceBytes(pkt, limit, j);
    var c' := Store(c, j, start, bytes);
    if !c.bits[j] {
      ClearSet(c.bits, j);
      assert bytes[..|bytes|] == bytes;
      assert c'.data == Overwrite(c.data, start, bytes);
      forall i | 0 <= i < |c'.bits| && c'.bits[i] ensures PieceArrived(c'.data, pkt, limit, i) {
        StorePiece(c, pkt, limit, j, i);
      }
    } else {
      assert c.bits[j := true] == c.bits;
    }
  }

  lemma StorePiece(c: InCmd, pkt: seq<byte>, limit: nat, j: nat, i: nat)
    requires limit > 0 && |pkt| > limit && j < Parts(|pkt|, limit) && |c.data| == |pkt|
    requires i != j ==> PieceArrived(c.data, pkt, limit, i)
    ensures PieceStart(limit, j) + |PieceBytes(pkt, limit, j)| <= |c.data|
    ensures PieceArrived(Overwrite(c.data, PieceStart(limit, j), PieceBytes(pkt, limit, j)), pkt, limit, i)
  {
    PieceBounds(|pkt|, limit, j);
    var start, end := PieceStart(limit, j), PieceEnd(|pkt|, limit, j);
    var d := Overwrite(c.data, start, PieceBytes(pkt, limit, j));
    forall b | PieceStart(limit, i) <= b < PieceEnd(|pkt|, limit, i) ensures d[b] == pkt[b] {
      if start <= b < end {
      } else {
        assert i != j && d[b] == c.data[b];
      }
    }
  }

  // ----- the queue -----

  /** Queue entry `c` is for packet `k`, which is less than seven windows ahead. */
  ghost predicate EntryOk(pkts: seq<seq<byte>>, limit: nat, c: InCmd, k: nat, n: nat)
    requires limit > 0 && n <= |pkts|
  {
    && n <= k < |pkts|
    && Holds(c, pkts[k], limit)
    && c.rseq == Low16(Number(pkts, limit, k, 0))
    && WindowOf(Number(pkts, limit, k, 0)) < WindowOf(End(pkts, limit, n)) + 7
  }

  /** `ks` names the packet of each queue entry; `n` packets have been dispatched. */
  ghost predicate Shape(pkts: seq<seq<byte>>, limit: nat, r: Recv, ks: seq<nat>, n: nat)
    requires limit > 0
  {
    && n <= |pkts|
    && r.current == Low16(End(pkts, limit, n))
    && |ks| == |r.incoming|
    && (forall x | 0 <= x < |ks| :: EntryOk(pkts, limit, r.incoming[x], ks[x], n))
    && (forall x, y | 0 <= x < y < |ks| :: ks[x] < ks[y])
  }

  /** Nothing that could be dispatched is left in the queue. */
  ghost predicate Drained(r: Recv, ks: seq<nat>, n: nat)
    requires |ks| == |r.incoming|
  {
    |ks| > 0 && ks[0] == n ==> r.incoming[0].remaining > 0
  }

  ghost predicate Inv(pkts: seq<seq<byte>>, limit: nat, r: Recv, ks: seq<nat>, n: nat)
    requires limit > 0
  {
    Shape(pkts, limit, r, ks, n) && Drained(r, ks, n)
  }

  /** Part `j` of packet `k` has arrived. */
  ghost predicate Received(r: Recv, ks: seq<nat>, n: nat, k: nat, j: nat)
    requires |ks| == |r.incoming|
  {
    || k < n
    || exists x :: 0 <= x < |ks| && ks[x] == k
         && (r.incoming[x].count == 0 || (j < |r.incoming[x].bits| && r.incoming[x].bits[j]))
  }

  /** Some part of packet `k` has arrived. */
  ghost predicate Touched(ks: seq<nat>, n: nat, k: nat) { k < n || k in ks }

  /** Between two numbers less than a turn ahead of the receiver, the comparisons of the queue
      search agree with the order of the numbers. */
  lemma WireOrder(base: nat, a: nat, c: nat)
    requires base <= a < base + WRAP && base <= c < base + WRAP
    ensures var s, d, cur := Low16(a), Low16(c), Low16(base);
      && (s >= cur && d < cur ==> c > a)
      && (s < cur && d >= cur ==> c < a)
      && ((s >= cur <==> d >= cur) ==> (d < s <==> c < a) && (d == s <==> c == a))
  {
    var qa, qc, q := a / WRAP, c / WRAP, base / WRAP;
    assert a == WRAP * qa + Low16(a) && c == WRAP * qc + Low16(c) && base == WRAP * q + Low16(base);
    assert qa == q || qa == q + 1;
    assert qc == q || qc == q + 1;
  }

  lemma NearAhead(a: nat, base: nat)
    requires WindowOf(a) <= WindowOf(base) + 8
    ensures a < base + WRAP
  {
  }

  /** The search finds a packet exactly when it is queued, and otherwise its place. */
  lemma {:induction false} SearchFinds(
    pkts: seq<seq<byte>>, limit: nat, r: Recv, ks: seq<nat>, n: nat, k: nat, m: nat)
    requires limit > 0 && Shape(pkts, limit, r, ks, n) && m <= |ks|
    requires n <= k < |pkts| && WindowOf(Number(pkts, limit, k, 0)) < WindowOf(End(pkts, limit, n)) + 7
    requires forall x | m <= x < |ks| :: ks[x] > k
    ensures match Search(r.incoming, r.current, Low16(Number(pkts, limit, k, 0)), m)
      case Present(p) => p < |ks| && ks[p] == k
      case At(p) => p <= |ks| && (forall x | 0 <= x < p :: ks[x] < k) && (forall x | p <= x < |ks| :: ks[x] > k)
    decreases m
  {
    if m > 0 {
      assert EntryOk(pkts, limit, r.incoming[m - 1], ks[m - 1], n);
      var base := End(pkts, limit, n);
      var a, c := Number(pkts, limit, k, 0), Number(pkts, limit, ks[m - 1], 0);
      EndGrows(pkts, limit, n, k);
      EndGrows(pkts, limit, n, ks[m - 1]);
      NearAhead(a, base);
      NearAhead(c, base);
      WireOrder(base, a, c);
      if ks[m - 1] < k { EndGrows(pkts, limit, ks[m - 1], k); }
      if ks[m - 1] > k {
        EndGrows(pkts, limit, k, ks[m - 1]);
        SearchFinds(pkts, limit, r, ks, n, k, m - 1);
      }
    }
  }

  // ----- dispatch -----

  /** The dispatch loop takes the packets that are complete and next in line, and stops at the
      first that is not. */
  lemma {:induction false} ReadyIsNext(
    pkts: seq<seq<byte>>, limit: nat, r: Recv, ks: seq<nat>, n: nat, x: nat)
    requires limit > 0 && Shape(pkts, limit, r, ks, n) && x <= |ks| && n + x <= |pkts|
    requires forall y | 0 <= y < x :: ks[y] == n + y && r.incoming[y].remaining == 0
    ensures var (m, cur) := Ready(r.incoming, Low16(End(pkts, limit, n + x)), x);
      && n + m <= |pkts|
      && cur == Low16(End(pkts, limit, n + m))
      && (forall y | 0 <= y < m :: ks[y] == n + y && r.incoming[y].remaining == 0)
      && (m < |ks| && ks[m] == n + m ==> r.incoming[m].remaining > 0)
    decreases |ks| - x
  {
    hide Shape, Low16, End, LastNumber;
    assert |ks| == |r.incoming| by { ShapeSizes(pkts, limit, r, ks, n); }
    if x < |ks| {
      ReadyStep(pkts, limit, r, ks, n, x);
      if r.incoming[x].remaining == 0 && ks[x] == n + x { ReadyIsNext(pkts, limit, r, ks, n, x + 1); }
    }
  }

  lemma ShapeSizes(pkts: seq<seq<byte>>, limit: nat, r: Recv, ks: seq<nat>, n: nat)
    requires limit > 0 && Shape(pkts, limit, r, ks, n)
    ensures n <= |pkts| && |ks| == |r.incoming|
  {
  }

  /** Entry x, when those before it are the next packets: it is recognised as the one after them
      exactly if it is, and taking it moves the current number to its end. */
  lemma ReadyStep(pkts: seq<seq<byte>>, limit: nat, r: Recv, ks: seq<nat>, n: nat, x: nat)
    requires limit > 0 && Shape(pkts, limit, r, ks, n) && x < |ks| && n + x <= |pkts|
    requires x > 0 ==> ks[x - 1] == n + x - 1
    ensures x < |r.incoming| && r.incoming[x].remaining >= 0
    ensures r.incoming[x].rseq == (Low16(End(pkts, limit, n + x)) + 1) % WRAP <==> ks[x] == n + x
    ensures ks[x] == n + x ==> n + x < |pkts| && LastNumber(r.incoming[x]) == Low16(End(pkts, limit, n + x + 1))
  {
    hide Low16, WindowOf, LastNumber;
    var c, base := r.incoming[x], End(pkts, limit, n + x);
    assert EntryOk(pkts, limit, c, ks[x], n);
    if x > 0 { assert ks[x - 1] < ks[x]; }
    EndGrows(pkts, limit, n, n + x);
    EndGrows(pkts, limit, n + x, ks[x]);
    NextNumber(base, Number(pkts, limit, ks[x], 0), End(pkts, limit, n));
    if ks[x] == n + x {
      LastNumberOf(pkts, limit, c, n + x);
    } else {
      EndGrows(pkts, limit, n + x + 1, ks[x]);
    }
  }

  /** Within a turn, the number after the current one is recognised on the wire. */
  lemma NextNumber(base: nat, a: nat, low: nat)
    requires low <= base < a && WindowOf(a) <= WindowOf(low) + 8
    ensures Low16(a) == (Low16(base) + 1) % WRAP <==> a == base + 1
  {
    hide Low16, WindowOf;
    LowNext(base);
    if Low16(a) == Low16(base + 1) && a != base + 1 {
      SameWireNumber(base + 1, a);
      WindowMonotone(low, base + 1);
    }
  }

  lemma LowNext(i: nat)
    ensures Low16(i + 1) == (Low16(i) + 1) % WRAP
  {
    AddMod(i, 1);
  }

  /** A dispatched packet moves the current number to its last part. */
  lemma LastNumberOf(pkts: seq<seq<byte>>, limit: nat, c: InCmd, k: nat)
    requires limit > 0 && k < |pkts| && Holds(c, pkts[k], limit)
    requires c.rseq == Low16(Number(pkts, limit, k, 0))
    ensures LastNumber(c) == Low16(End(pkts, limit, k + 1))
  {
    var a, p := Number(pkts, limit, k, 0), Parts(|pkts[k]|, limit);
    assert End(pkts, limit, k + 1) == a + p - 1;
    if c.count > 0 {
      assert (Low16(a) + (p - 1)) % WRAP == (a + (p - 1)) % WRAP by { AddMod(a, p - 1); }
    }
  }

  /** Dispatching leaves the invariant. */
  lemma DispatchShape(pkts: seq<seq<byte>>, limit: nat, r: Recv, ks: seq<nat>, n: nat, m: nat)
    requires limit > 0 && Shape(pkts, limit, r, ks, n) && m == Ready(r.incoming, r.current, 0).0
    ensures n + m <= |pkts| && m <= |ks| && Inv(pkts, limit, Dispatch(r), ks[m..], n + m)
    ensures forall y | 0 <= y < m :: ks[y] == n + y && r.incoming[y].remaining == 0
  {
    hide EntryOk, Low16, WindowOf, Ready;
    ReadyIsNext(pkts, limit, r, ks, n, 0);
    var ks', n', r' := ks[m..], n + m, Dispatch(r);
    EndGrows(pkts, limit, n, n');
    forall x | 0 <= x < |ks'| ensures EntryOk(pkts, limit, r'.incoming[x], ks'[x], n') {
      assert EntryOk(pkts, limit, r.incoming[m + x], ks[m + x], n);
      if m > 0 { OrderedAbove(ks, n, m, m + x); }
      EntryNearer(pkts, limit, r.incoming[m + x], ks[m + x], n, n');
    }
  }

  lemma EntryNearer(pkts: seq<seq<byte>>, limit: nat, c: InCmd, k: nat, n: nat, n': nat)
    requires limit > 0 && n <= n' <= |pkts| && EntryOk(pkts, limit, c, k, n) && (n' <= k || n == n')
    ensures EntryOk(pkts, limit, c, k, n')
  {
    EndGrows(pkts, limit, n, n');
    WindowMonotone(End(pkts, limit, n), End(pkts, limit, n'));
  }

  lemma TouchedBefore(ks: seq<nat>, n: nat, m: nat)
    requires m <= |ks| && forall y | 0 <= y < m :: ks[y] == n + y
    ensures forall k: nat :: Touched(ks[m..], n + m, k) ==> Touched(ks, n, k)
  {
    forall k: nat | Touched(ks[m..], n + m, k) ensures Touched(ks, n, k) {
      if n <= k < n + m { assert ks[k - n] == k; }
    }
  }

  /** Dispatching hands over the next packets of the list, and forgets nothing that arrived. */
  lemma DispatchOk(pkts: seq<seq<byte>>, limit: nat, r: Recv, ks: seq<nat>, n: nat)
    returns (ks': seq<nat>, n': nat)
    requires limit > 0 && Shape(pkts, limit, r, ks, n)
    ensures n <= n' <= |pkts| && Inv(pkts, limit, Dispatch(r), ks', n')
    ensures Dispatch(r).dispatched == r.dispatched + pkts[n..n']
    ensures forall k: nat, j: nat :: Received(r, ks, n, k, j) ==> Received(Dispatch(r), ks', n', k, j)
    ensures |ks'| <= |ks| && ks' == ks[|ks| - |ks'|..]
    ensures forall k: nat :: Touched(ks', n', k) ==> Touched(ks, n, k)
  {
    hide Low16, WindowOf, Ready, EntryOk, Touched;
    var m := Ready(r.incoming, r.current, 0).0;
    DispatchShape(pkts, limit, r, ks, n, m);
    ks', n' := ks[m..], n + m;
    var r' := Dispatch(r);
    TouchedBefore(ks, n, m);
    assert Packets(r.incoming[..m]) == pkts[n..n'] by {
      forall y | 0 <= y < m ensures Packets(r.incoming[..m])[y] == pkts[n..n'][y] {
        EntryHolds(pkts, limit, r, ks, n, y);
        CompleteIsOriginal(r.incoming[y], pkts[ks[y]], limit);
      }
    }
    forall k: nat, j: nat | Received(r, ks, n, k, j) ensures Received(r', ks', n', k, j) {
      if k < n' {
      } else {
        var x :| 0 <= x < |ks| && ks[x] == k
          && (r.incoming[x].count == 0 || (j < |r.incoming[x].bits| && r.incoming[x].bits[j]));
        assert x >= m;
        assert ks'[x - m] == k && r'.incoming[x - m] == r.incoming[x];
      }
    }
  }

  lemma EntryHolds(pkts: seq<seq<byte>>, limit: nat, r: Recv, ks: seq<nat>, n: nat, x: nat)
    requires limit > 0 && Shape(pkts, limit, r, ks, n) && x < |ks|
    ensures n <= ks[x] < |pkts| && x < |r.incoming| && Holds(r.incoming[x], pkts[ks[x]], limit)
  {
  }

  lemma OrderedAbove(ks: seq<nat>, n: nat, m: nat, x: nat)
    requires 0 < m <= x < |ks| && ks[m - 1] == n + m - 1
    requires forall x, y | 0 <= x < y < |ks| :: ks[x] < ks[y]
    ensures ks[x] >= n + m
  {
    assert ks[m - 1] < ks[x];
  }

  // ----- arrivals -----

  /** What the receiver may assume of an arriving part of packet `k`: its packet starts at most
      nine windows behind the receiver, and the part lies at most eight windows ahead. */
  ghost predicate InReach(pkts: seq<seq<byte>>, limit: nat, n: nat, k: nat, j: nat)
    requires limit > 0 && n <= |pkts|
  {
    && k < |pkts| && j < Parts(|pkts[k]|, limit)
    && WindowOf(End(pkts, limit, n)) <= WindowOf(Number(pkts, limit, k, 0)) + 9
    && WindowOf(Number(pkts, limit, k, j)) <= WindowOf(End(pkts, limit, n)) + 8
  }

  /** A packet dispatched before is refused: by the window check, or as the current number. */
  lemma OldIsRefused(pkts: seq<seq<byte>>, limit: nat, n: nat, k: nat)
    requires limit > 0 && n <= |pkts| && k < n
    requires WindowOf(End(pkts, limit, n)) <= WindowOf(Number(pkts, limit, k, 0)) + 9
    ensures var s, cur := Low16(Number(pkts, limit, k, 0)), Low16(End(pkts, limit, n));
      !Receivable(s, cur) || (s == cur && |pkts[k]| <= limit)
  {
    EndGrows(pkts, limit, k, n);
    var b, base := Number(pkts, limit, k, 0), End(pkts, limit, n);
    if b < base { BehindIsRefused(b, base); }
  }

  /** A packet still to come is accepted exactly when it starts less than seven windows ahead;
      otherwise none of its parts within reach is acknowledged. */
  lemma NewIsClassified(pkts: seq<seq<byte>>, limit: nat, n: nat, k: nat, j: nat)
    requires limit > 0 && n <= k && n <= |pkts| && InReach(pkts, limit, n, k, j)
    ensures var b, base := Number(pkts, limit, k, 0), End(pkts, limit, n);
      && Low16(b) != Low16(base)
      && (Receivable(Low16(b), Low16(base)) <==> WindowOf(b) < WindowOf(base) + 7)
      && (!Receivable(Low16(b), Low16(base)) ==> !Ackable(Low16(Number(pkts, limit, k, j)), Low16(base)))
  {
    EndGrows(pkts, limit, n, k);
    var b, a, base := Number(pkts, limit, k, 0), Number(pkts, limit, k, j), End(pkts, limit, n);
    WindowMonotone(b, a);
    NearAhead(a, base);
    NearAhead(b, base);
    ForwardWindowAhead(b, base);
    ForwardWindowAhead(a, base);
  }

  ghost function Inserted(ks: seq<nat>, pos: nat, k: nat): (r: seq<nat>)
    requires pos <= |ks|
    ensures |r| == |ks| + 1 && r[pos] == k
  {
    ks[..pos] + [k] + ks[pos..]
  }

  ghost function With(r: Recv, pos: nat, c: InCmd): Recv
    requires pos <= |r.incoming|
  {
    r.(incoming := r.incoming[..pos] + [c] + r.incoming[pos..], waiting := r.waiting + |c.data|)
  }

  /** Inserting a packet at the place the search gives keeps the queue in order. */
  lemma InsertShape(
    pkts: seq<seq<byte>>, limit: nat, r: Recv, ks: seq<nat>, n: nat, pos: nat, c: InCmd, k: nat)
    requires limit > 0 && Shape(pkts, limit, r, ks, n) && pos <= |ks| && EntryOk(pkts, limit, c, k, n)
    requires forall x | 0 <= x < pos :: ks[x] < k
    requires forall x | pos <= x < |ks| :: ks[x] > k
    ensures Shape(pkts, limit, With(r, pos, c), Inserted(ks, pos, k), n)
  {
    hide EntryOk;
    var r', ks' := With(r, pos, c), Inserted(ks, pos, k);
    forall x | 0 <= x < |ks'| ensures EntryOk(pkts, limit, r'.incoming[x], ks'[x], n) {
      if x != pos {
        var y := if x < pos then x else x - 1;
        assert ks'[x] == ks[y] && r'.incoming[x] == r.incoming[y];
        assert EntryOk(pkts, limit, r.incoming[y], ks[y], n);
      }
    }
  }

  lemma InsertReceived(r: Recv, ks: seq<nat>, n: nat, pos: nat, c: InCmd, k: nat)
    requires |ks| == |r.incoming| && pos <= |ks|
    ensures forall k': nat, j: nat :: Received(r, ks, n, k', j) ==> Received(With(r, pos, c), Inserted(ks, pos, k), n, k', j)
    ensures forall k': nat :: Touched(Inserted(ks, pos, k), n, k') ==> Touched(ks, n, k') || k' == k
    ensures c.count == 0 ==> forall j: nat :: Received(With(r, pos, c), Inserted(ks, pos, k), n, k, j)
  {
    var r', ks' := With(r, pos, c), Inserted(ks, pos, k);
    forall k': nat, j: nat | Received(r, ks, n, k', j) ensures Received(r', ks', n, k', j) {
      if k' < n {
      } else {
        var x :| 0 <= x < |ks| && ks[x] == k'
          && (r.incoming[x].count == 0 || (j < |r.incoming[x].bits| && r.incoming[x].bits[j]));
        var y := if x < pos then x else x + 1;
        assert ks'[y] == k' && r'.incoming[y] == r.incoming[x];
      }
    }
    assert ks'[pos] == k && r'.incoming[pos] == c;
  }

  /** What an arrival for packet `a` may do: dispatch the next packets, keep the invariant, lose
      nothing and make up nothing. */
  ghost predicate Progress(
    pkts: seq<seq<byte>>, limit: nat, a: nat,
    r: Recv, ks: seq<nat>, n: nat, r': Recv, ks': seq<nat>, n': nat)
    requires limit > 0
  {
    && |ks| == |r.incoming|
    && n <= n' <= |pkts|
    && Inv(pkts, limit, r', ks', n')
    && r'.dispatched == r.dispatched + pkts[n..n']
    && (forall k: nat, j: nat :: Received(r, ks, n, k, j) ==> Received(r', ks', n', k, j))
    && (forall k: nat :: Touched(ks', n', k) ==> Touched(ks, n, k) || k == a)
  }

  lemma NoProgress(pkts: seq<seq<byte>>, limit: nat, a: nat, r: Recv, ks: seq<nat>, n: nat)
    requires limit > 0 && Inv(pkts, limit, r, ks, n)
    ensures Progress(pkts, limit, a, r, ks, n, r, ks, n)
  {
    assert pkts[n..n] == [];
  }

  /** Putting a new packet at its place in the queue, followed by the dispatch. */
  lemma InsertOk(
    pkts: seq<seq<byte>>, limit: nat, r: Recv, ks: seq<nat>, n: nat, c: InCmd, k: nat, pos: nat)
    returns (ks': seq<nat>, n': nat)
    requires limit > 0 && Inv(pkts, limit, r, ks, n) && EntryOk(pkts, limit, c, k, n) && pos <= |ks|
    requires (forall x | 0 <= x < pos :: ks[x] < k) && (forall x | pos <= x < |ks| :: ks[x] > k)
    ensures var r' := Dispatch(With(r, pos, c));
      && Progress(pkts, limit, k, r, ks, n, r', ks', n')
      && (c.count == 0 ==> forall j: nat :: Received(r', ks', n', k, j))
    ensures |ks'| <= |ks| + 1 && ks' == Inserted(ks, pos, k)[|ks| + 1 - |ks'|..]
  {
    InsertShape(pkts, limit, r, ks, n, pos, c, k);
    InsertReceived(r, ks, n, pos, c, k);
    hide EntryOk, Received, Dispatch, Inserted;
    ks', n' := DispatchOk(pkts, limit, With(r, pos, c), Inserted(ks, pos, k), n);
  }

  lemma EntryNumber(pkts: seq<seq<byte>>, limit: nat, c: InCmd, k: nat, n: nat)
    requires limit > 0 && n <= |pkts| && EntryOk(pkts, limit, c, k, n)
    ensures n <= k < |pkts| && c.rseq == Low16(Number(pkts, limit, k, 0))
    ensures WindowOf(Number(pkts, limit, k, 0)) < WindowOf(End(pkts, limit, n)) + 7
  {
  }

  /** The receiver takes the parts of a packet that starts less than seven windows ahead and is
      not too large, if there is room for the packet: either some part of it is queued already,
      or the data waiting for the application is below its maximum. */
  ghost predicate HasRoom(pkts: seq<seq<byte>>, limit: nat, r: Recv, ks: seq<nat>, n: nat, k: nat)
    requires limit > 0 && n <= |pkts| && k < |pkts|
  {
    && StartsNear(pkts, limit, n, k)
    && |pkts[k]| <= r.maximumPacketSize && Parts(|pkts[k]|, limit) <= MAX_FRAGMENTS
    && (k in ks || r.waiting < r.maximumWaitingData)
  }

  ghost predicate StartsNear(pkts: seq<seq<byte>>, limit: nat, n: nat, k: nat)
    requires limit > 0 && n <= |pkts| && k < |pkts|
  {
    WindowOf(Number(pkts, limit, k, 0)) < WindowOf(End(pkts, limit, n)) + 7
  }

  /** Queueing a packet: it goes to its place if it is not queued yet and there is room for it,
      and otherwise nothing changes. */
  lemma EnqueueOk(pkts: seq<seq<byte>>, limit: nat, r: Recv, ks: seq<nat>, n: nat, c: InCmd, k: nat)
    returns (ks': seq<nat>, n': nat)
    requires limit > 0 && Inv(pkts, limit, r, ks, n) && n <= k && EntryOk(pkts, limit, c, k, n)
    requires Receivable(c.rseq, r.current) && c.rseq != r.current
    ensures var (r', out) := Enqueue(r, c);
      && Progress(pkts, limit, k, r, ks, n, r', ks', n')
      && match out
         case Failed => (if k in ks then c.count > 0 else r.waiting >= r.maximumWaitingData) && r' == r
         case Discarded => k in ks && ks' == ks && r' == r
         case Queued(pos) =>
           && k !in ks && r.waiting < r.maximumWaitingData
           && (c.count == 0 ==> forall j: nat :: Received(r', ks', n', k, j))
           && pos <= |ks| && |ks'| <= |ks| + 1 && ks' == Inserted(ks, pos, k)[|ks| + 1 - |ks'|..]
  {
    hide Progress, Received, Dispatch, Inserted, EntryOk, Search, Number, End, WindowOf, Low16;
    EntryNumber(pkts, limit, c, k, n);
    SearchFinds(pkts, limit, r, ks, n, k, |ks|);
    NoProgress(pkts, limit, k, r, ks, n);
    match Search(r.incoming, r.current, c.rseq, |r.incoming|) {
      case Present(p) =>
        ks', n' := ks, n;
        assert ks[p] == k;
      case At(pos) =>
        if r.waiting >= r.maximumWaitingData {
          ks', n' := ks, n;
        } else {
          ks', n' := InsertOk(pkts, limit, r, ks, n, c, k, pos);
        }
    }
  }

  lemma ReplaceShape(pkts: seq<seq<byte>>, limit: nat, r: Recv, ks: seq<nat>, n: nat, x: nat, c: InCmd)
    requires limit > 0 && Shape(pkts, limit, r, ks, n) && x < |ks| && EntryOk(pkts, limit, c, ks[x], n)
    ensures Shape(pkts, limit, r.(incoming := r.incoming[x := c]), ks, n)
  {
    hide EntryOk;
  }

  lemma ReplaceReceived(r: Recv, ks: seq<nat>, n: nat, x: nat, c: InCmd, j: nat)
    requires |ks| == |r.incoming| && x < |ks| && j < |r.incoming[x].bits|
    requires c.bits == r.incoming[x].bits[j := true] && c.count == r.incoming[x].count
    ensures var r' := r.(incoming := r.incoming[x := c]);
      && (forall k': nat, j': nat :: Received(r, ks, n, k', j') ==> Received(r', ks, n, k', j'))
      && Received(r', ks, n, ks[x], j)
  {
    var r' := r.(incoming := r.incoming[x := c]);
    forall k': nat, j': nat | Received(r, ks, n, k', j') ensures Received(r', ks, n, k', j') {
      if k' < n {
      } else {
        var y :| 0 <= y < |ks| && ks[y] == k'
          && (r.incoming[y].count == 0 || (j' < |r.incoming[y].bits| && r.incoming[y].bits[j']));
        assert r'.incoming[y] == if y == x then c else r.incoming[y];
      }
    }
    assert r'.incoming[x] == c;
  }

  /** Storing a genuine fragment of a queued packet, with the dispatch it may cause. */
  lemma StoreAtOk(pkts: seq<seq<byte>>, limit: nat, r: Recv, ks: seq<nat>, n: nat, x: nat, j: nat)
    returns (ks': seq<nat>, n': nat)
    requires limit > 0 && Inv(pkts, limit, r, ks, n) && x < |ks|
    requires ks[x] < |pkts| && |pkts[ks[x]]| > limit && j < Parts(|pkts[ks[x]]|, limit)
    ensures j < |r.incoming[x].bits| && PieceStart(limit, j) <= |r.incoming[x].data|
    ensures var r' := StoreAt(r, x, j, PieceStart(limit, j), PieceBytes(pkts[ks[x]], limit, j));
      && Progress(pkts, limit, ks[x], r, ks, n, r', ks', n')
      && Received(r', ks', n', ks[x], j)
  {
    var k, pkt, bytes := ks[x], pkts[ks[x]], PieceBytes(pkts[ks[x]], limit, j);
    assert EntryOk(pkts, limit, r.incoming[x], k, n);
    StoreHolds(r.incoming[x], pkt, limit, j);
    if r.incoming[x].bits[j] {
      NoProgress(pkts, limit, k, r, ks, n);
      ks', n' := ks, n;
    } else {
      var c := Store(r.incoming[x], j, PieceStart(limit, j), bytes);
      var r1 := r.(incoming := r.incoming[x := c]);
      assert c.count == r.incoming[x].count;
      assert EntryOk(pkts, limit, c, k, n);
      ReplaceShape(pkts, limit, r, ks, n, x, c);
      ReplaceReceived(r, ks, n, x, c, j);
      hide EntryOk, Received, Dispatch, Store;
      if c.remaining == 0 {
        ks', n' := DispatchOk(pkts, limit, r1, ks, n);
      } else {
        assert pkts[n..n] == [];
        ks', n' := ks, n;
      }
    }
  }

  /** A whole packet arrives: nothing is lost, packets come out in order, and if the arrival is
      acknowledged the packet has arrived. A packet still to come is taken exactly when there is
      room for it; otherwise nothing changes. */
  lemma OnReliableOk(pkts: seq<seq<byte>>, limit: nat, r: Recv, ks: seq<nat>, n: nat, k: nat)
    returns (ks': seq<nat>, n': nat)
    requires limit > 0 && Inv(pkts, limit, r, ks, n) && InReach(pkts, limit, n, k, 0) && |pkts[k]| <= limit
    ensures var s := Low16(Number(pkts, limit, k, 0));
      var (r', ok) := OnReliable(r, s, pkts[k]);
      && Progress(pkts, limit, k, r, ks, n, r', ks', n')
      && (ok && Ackable(s, r'.current) ==> Received(r', ks', n', k, 0))
      && (n <= k ==>
            if HasRoom(pkts, limit, r, ks, n, k) then ok && Received(r', ks', n', k, 0)
            else r' == r && (StartsNear(pkts, limit, n, k) ==> !ok))
  {
    var s := Low16(Number(pkts, limit, k, 0));
    var c := InCmd(s, 0, 0, [], pkts[k]);
    if k < n {
      OldIsRefused(pkts, limit, n, k);
      NoProgress(pkts, limit, k, r, ks, n);
      ks', n' := ks, n;
    } else {
      NewIsClassified(pkts, limit, n, k, 0);
      if |pkts[k]| <= r.maximumPacketSize && Receivable(s, r.current) {
        assert EntryOk(pkts, limit, c, k, n);
        ks', n' := EnqueueOk(pkts, limit, r, ks, n, c, k);
        QueuedWhole(pkts, limit, r, ks, n, k);
      } else {
        NoProgress(pkts, limit, k, r, ks, n);
        ks', n' := ks, n;
      }
    }
  }

  lemma QueuedWhole(pkts: seq<seq<byte>>, limit: nat, r: Recv, ks: seq<nat>, n: nat, k: nat)
    requires limit > 0 && Shape(pkts, limit, r, ks, n) && k < |pkts| && |pkts[k]| <= limit
    ensures k in ks ==> Received(r, ks, n, k, 0)
  {
    if k in ks {
      var x :| 0 <= x < |ks| && ks[x] == k;
      assert EntryOk(pkts, limit, r.incoming[x], ks[x], n);
    }
  }

  /** The fragment the sender cuts as part `j` of packet `k`. */
  ghost function FragmentFor(pkts: seq<seq<byte>>, limit: nat, k: nat, j: nat): FragmentIn
    requires limit > 0 && k < |pkts| && |pkts[k]| > limit && j < Parts(|pkts[k]|, limit)
  {
    FragmentIn(Low16(Number(pkts, limit, k, 0)), Parts(|pkts[k]|, limit), j, |pkts[k]|,
               PieceStart(limit, j), PieceBytes(pkts[k], limit, j))
  }

  lemma EntriesFine(pkts: seq<seq<byte>>, limit: nat, r: Recv, ks: seq<nat>, n: nat)
    requires limit > 0 && Shape(pkts, limit, r, ks, n)
    ensures EntriesWellFormed(r.incoming)
  {
    forall x | 0 <= x < |ks| ensures |r.incoming[x].bits| == r.incoming[x].count {
      assert EntryOk(pkts, limit, r.incoming[x], ks[x], n);
    }
  }

  lemma QueuedFragment(pkts: seq<seq<byte>>, limit: nat, r: Recv, ks: seq<nat>, n: nat, x: nat)
    requires limit > 0 && Shape(pkts, limit, r, ks, n) && x < |ks|
    ensures ks[x] < |pkts| && x < |r.incoming|
    ensures var c, pkt := r.incoming[x], pkts[ks[x]];
      |pkt| > limit ==> c.count == Parts(|pkt|, limit) > 0 && |c.data| == |pkt|
  {
    EntryHolds(pkts, limit, r, ks, n, x);
  }

  /** A fragment arrives: nothing is lost, packets come out whole and in order, and if the arrival
      is acknowledged the fragment has arrived. A fragment of a packet still to come is taken
      exactly when there is room for the packet; otherwise nothing changes. */
  lemma OnFragmentOk(pkts: seq<seq<byte>>, limit: nat, r: Recv, ks: seq<nat>, n: nat, k: nat, j: nat)
    returns (ks': seq<nat>, n': nat)
    requires limit > 0 && Inv(pkts, limit, r, ks, n) && InReach(pkts, limit, n, k, j) && |pkts[k]| > limit
    ensures EntriesWellFormed(r.incoming)
    ensures var (r', ok) := OnFragment(r, FragmentFor(pkts, limit, k, j));
      && Progress(pkts, limit, k, r, ks, n, r', ks', n')
      && (ok && Ackable(Low16(Number(pkts, limit, k, j)), r'.current) ==> Received(r', ks', n', k, j))
      && (n <= k ==>
            if HasRoom(pkts, limit, r, ks, n, k) then ok && Received(r', ks', n', k, j)
            else r' == r && (StartsNear(pkts, limit, n, k) ==> !ok))
  {
    hide Progress, Holds, EntryOk, Search, StoreAt, Enqueue, Low16, End, WindowOf, Receivable;
    EntriesFine(pkts, limit, r, ks, n);
    InvBasics(pkts, limit, r, ks, n);
    var f := FragmentFor(pkts, limit, k, j);
    PieceBounds(|pkts[k]|, limit, j);
    NoProgress(pkts, limit, k, r, ks, n);
    ks', n' := ks, n;
    if k < n {
      OldIsRefused(pkts, limit, n, k);
    } else {
      NewIsClassified(pkts, limit, n, k, j);
      if |f.bytes| <= r.maximumPacketSize && Receivable(f.start, r.current)
         && f.count <= MAX_FRAGMENTS && f.total <= r.maximumPacketSize {
        SearchFinds(pkts, limit, r, ks, n, k, |ks|);
        match Search(r.incoming, r.current, f.start, |r.incoming|) {
          case Present(x) =>
            QueuedFragment(pkts, limit, r, ks, n, x);
            ks', n' := StoreAtOk(pkts, limit, r, ks, n, x, j);
          case At(_) =>
            ks', n' := NewFragmentOk(pkts, limit, r, ks, n, k, j, f);
        }
      }
    }
  }

  /** handle_send_fragment when no fragment of the packet has arrived yet. */
  lemma OnFragmentNew(r: Recv, f: FragmentIn)
    requires EntriesWellFormed(r.incoming)
    requires |f.bytes| <= r.maximumPacketSize && Receivable(f.start, r.current)
    requires f.number < f.count <= MAX_FRAGMENTS && f.offset + |f.bytes| <= f.total <= r.maximumPacketSize
    requires f.offset < f.total
    requires Search(r.incoming, r.current, f.start, |r.incoming|).At?
    ensures var (r1, out) := Enqueue(r, Blank(f.start, f.count, f.total));
      if !out.Queued? then OnFragment(r, f) == (r1, false)
      else var gone := |r.incoming| + 1 - |r1.incoming|;
        && 0 <= gone <= out.pos && out.pos - gone < |r1.incoming|
        && r1.incoming[out.pos - gone] == Blank(f.start, f.count, f.total)
        && OnFragment(r, f) == (StoreAt(r1, out.pos - gone, f.number, f.offset, f.bytes), true)
  {
    BlankStays(r, Blank(f.start, f.count, f.total));
  }

  lemma BlankEntry(pkts: seq<seq<byte>>, limit: nat, n: nat, k: nat, j: nat, f: FragmentIn)
    requires limit > 0 && n <= |pkts| && n <= k && InReach(pkts, limit, n, k, j)
    requires |pkts[k]| > limit && f == FragmentFor(pkts, limit, k, j)
    requires Receivable(f.start, Low16(End(pkts, limit, n)))
    ensures EntryOk(pkts, limit, Blank(f.start, f.count, f.total), k, n)
    ensures Blank(f.start, f.count, f.total).rseq == f.start != Low16(End(pkts, limit, n))
    ensures f.number < f.count && f.offset + |f.bytes| <= f.total && f.offset < f.total
  {
    PieceBounds(|pkts[k]|, limit, j);
    NewIsClassified(pkts, limit, n, k, j);
    BlankHolds(f.start, pkts[k], limit);
  }

  lemma InvBasics(pkts: seq<seq<byte>>, limit: nat, r: Recv, ks: seq<nat>, n: nat)
    requires limit > 0 && Inv(pkts, limit, r, ks, n)
    ensures |ks| == |r.incoming| && n <= |pkts| && r.current == Low16(End(pkts, limit, n))
  {
  }

  /** The first fragment of a packet to arrive. */
  lemma NewFragmentOk(
    pkts: seq<seq<byte>>, limit: nat, r: Recv, ks: seq<nat>, n: nat, k: nat, j: nat, f: FragmentIn)
    returns (ks': seq<nat>, n': nat)
    requires limit > 0 && Inv(pkts, limit, r, ks, n) && n <= k && InReach(pkts, limit, n, k, j)
    requires |pkts[k]| > limit && f == FragmentFor(pkts, limit, k, j) && EntriesWellFormed(r.incoming)
    requires |f.bytes| <= r.maximumPacketSize && Receivable(f.start, r.current)
    requires f.count <= MAX_FRAGMENTS && f.total <= r.maximumPacketSize
    requires Search(r.incoming, r.current, f.start, |r.incoming|).At? && k !in ks
    ensures var (r', ok) := OnFragment(r, f);
      && Progress(pkts, limit, k, r, ks, n, r', ks', n')
      && (if r.waiting < r.maximumWaitingData then ok && Received(r', ks', n', k, j) else !ok && r' == r)
  {
    hide Inv, Received, OnFragment, Enqueue, Blank, Search, StoreAt, EntryOk, Receivable, Holds;
    InvBasics(pkts, limit, r, ks, n);
    BlankEntry(pkts, limit, n, k, j, f);
    OnFragmentNew(r, f);
    var c := Blank(f.start, f.count, f.total);
    var (r1, out) := Enqueue(r, c);
    var ks1, n1 := EnqueueOk(pkts, limit, r, ks, n, c, k);
    ks', n' := ks1, n1;
    if out.Queued? {
      var x := out.pos - (|r.incoming| + 1 - |r1.incoming|);
      InvBasics(pkts, limit, r1, ks1, n1);
      assert ks1[x] == Inserted(ks, out.pos, k)[out.pos] == k;
      ks', n' := StoreAtOk(pkts, limit, r1, ks1, n1, x, j);
      ProgressTrans(pkts, limit, k, r, ks, n, r1, ks1, n1,
                    StoreAt(r1, x, j, PieceStart(limit, j), PieceBytes(pkts[k], limit, j)), ks', n');
    }
  }

  lemma ProgressTrans(
    pkts: seq<seq<byte>>, limit: nat, a: nat, r: Recv, ks: seq<nat>, n: nat,
    r1: Recv, ks1: seq<nat>, n1: nat, r2: Recv, ks2: seq<nat>, n2: nat)
    requires limit > 0
    requires Progress(pkts, limit, a, r, ks, n, r1, ks1, n1) && Progress(pkts, limit, a, r1, ks1, n1, r2, ks2, n2)
    ensures Progress(pkts, limit, a, r, ks, n, r2, ks2, n2)
  {
    hide Received;
    assert pkts[n..n1] + pkts[n1..n2] == pkts[n..n2];
  }

  // ----- the next packet gets through -----

  /** Part `j` of packet `k` arrives. */
  ghost function Arrival(pkts: seq<seq<byte>>, limit: nat, r: Recv, k: nat, j: nat): Recv
    requires limit > 0 && k < |pkts| && j < Parts(|pkts[k]|, limit) && EntriesWellFormed(r.incoming)
  {
    if |pkts[k]| <= limit then OnReliable(r, Low16(Number(pkts, limit, k, 0)), pkts[k]).0
    else OnFragment(r, FragmentFor(pkts, limit, k, j)).0
  }

  /** The states `rs` the receiver goes through while the parts `js` of packet `k` arrive. */
  ghost predicate Arrivals(pkts: seq<seq<byte>>, limit: nat, rs: seq<Recv>, k: nat, js: seq<nat>)
    requires limit > 0 && k < |pkts|
  {
    && |rs| == |js| + 1
    && forall i | 0 <= i < |js| ::
         js[i] < Parts(|pkts[k]|, limit) && EntriesWellFormed(rs[i].incoming)
         && rs[i + 1] == Arrival(pkts, limit, rs[i], k, js[i])
  }

  lemma ArrivalKeepsLimits(pkts: seq<seq<byte>>, limit: nat, r: Recv, k: nat, j: nat)
    requires limit > 0 && k < |pkts| && j < Parts(|pkts[k]|, limit) && EntriesWellFormed(r.incoming)
    ensures Arrival(pkts, limit, r, k, j).maximumPacketSize == r.maximumPacketSize
  {
    hide Search, Receivable, Ready, Parts, Number;
  }

  /** Some part of the next packet is still to come. */
  lemma NextIsIncomplete(pkts: seq<seq<byte>>, limit: nat, r: Recv, ks: seq<nat>, n: nat) returns (j: nat)
    requires limit > 0 && Inv(pkts, limit, r, ks, n) && n < |pkts|
    ensures j < Parts(|pkts[n]|, limit) && !Received(r, ks, n, n, j)
  {
    j := 0;
    if n in ks {
      EntryHolds(pkts, limit, r, ks, n, 0);
      assert ks[0] == n;
      ClearZero(r.incoming[0].bits);
      j :| 0 <= j < |r.incoming[0].bits| && !r.incoming[0].bits[j];
    }
  }

  lemma ArrivalOfNext(pkts: seq<seq<byte>>, limit: nat, r: Recv, ks: seq<nat>, n: nat, j: nat)
    returns (ks': seq<nat>, n': nat)
    requires limit > 0 && n < |pkts| && j < Parts(|pkts[n]|, limit) && EntriesWellFormed(r.incoming)
    requires Inv(pkts, limit, r, ks, n) && InReach(pkts, limit, n, n, j) && HasRoom(pkts, limit, r, ks, n, n)
    ensures var r' := Arrival(pkts, limit, r, n, j);
      && Progress(pkts, limit, n, r, ks, n, r', ks', n')
      && |ks'| == |r'.incoming| && Received(r', ks', n', n, j)
      && (n' == n ==> HasRoom(pkts, limit, r', ks', n, n))
  {
    hide Received, OnReliable, OnFragment, InReach, HasRoom, Inv;
    if |pkts[n]| <= limit { ks', n' := OnReliableOk(pkts, limit, r, ks, n, n); }
    else { ks', n' := OnFragmentOk(pkts, limit, r, ks, n, n, j); }
    ArrivalKeepsLimits(pkts, limit, r, n, j);
    InvBasics(pkts, limit, Arrival(pkts, limit, r, n, j), ks', n');
    RoomStays(pkts, limit, r, ks, n, Arrival(pkts, limit, r, n, j), ks', n', j);
  }

  lemma RoomStays(
    pkts: seq<seq<byte>>, limit: nat, r: Recv, ks: seq<nat>, n: nat, r': Recv, ks': seq<nat>, n': nat, j: nat)
    requires limit > 0 && n < |pkts| && n <= n' && |ks'| == |r'.incoming|
    requires HasRoom(pkts, limit, r, ks, n, n) && r'.maximumPacketSize == r.maximumPacketSize
    requires Received(r', ks', n', n, j)
    ensures n' == n ==> HasRoom(pkts, limit, r', ks', n, n)
  {
  }

  /** When there is room for the next packet and each of its parts arrives, in any order and any
      number of times, the packet is handed over: after some arrival. */
  lemma {:induction false} NextGetsThrough(
    pkts: seq<seq<byte>>, limit: nat, rs: seq<Recv>, js: seq<nat>, ks: seq<nat>, n: nat, come: set<nat>)
    returns (i: nat, m: nat)
    requires limit > 0 && |rs| > 0 && n < |pkts| && Inv(pkts, limit, rs[0], ks, n) && HasRoom(pkts, limit, rs[0], ks, n, n)
    requires forall j | 0 <= j < Parts(|pkts[n]|, limit) :: InReach(pkts, limit, n, n, j)
    requires Arrivals(pkts, limit, rs, n, js)
    requires forall j | 0 <= j < Parts(|pkts[n]|, limit) :: j in js || j in come
    requires |ks| == |rs[0].incoming| && forall j | j in come :: Received(rs[0], ks, n, n, j)
    ensures i < |rs| && n < m <= |pkts| && rs[i].dispatched == rs[0].dispatched + pkts[n..m]
  {
    hide Inv, HasRoom, InReach, Arrival, Received, Parts;
    var j := NextIsIncomplete(pkts, limit, rs[0], ks, n);
    assert j in js || j in come;
    if js != [] {
      var ks', n' := ArrivalOfNext(pkts, limit, rs[0], ks, n, js[0]);
      if n' > n {
        i, m := 1, n';
      } else {
        assert js == [js[0]] + js[1..];
        i, m := NextGetsThrough(pkts, limit, rs[1..], js[1..], ks', n, come + {js[0]});
        i := i + 1;
      }
    }
  }
}
