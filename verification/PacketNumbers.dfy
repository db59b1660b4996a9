/** How a list of reliable packets is laid out in command numbers: packet `k` takes one number if
    it goes out whole and one for each fragment otherwise, and fragment `j` covers bytes
    j * limit up to (j + 1) * limit of the packet. */
module PacketNumbers {
  import opened Arithmetic
  import opened Bytes
  import opened SeqNumbers
  import opened EnetSender

  function Parts(length: nat, limit: nat): (n: nat)
    requires limit > 0
    ensures n >= 1
    ensures length > limit ==> n == FragmentCount(length, limit) && n >= 2
  {
    if length <= limit then 1
    else
      CountBounds(length, limit);
      FragmentCount(length, limit)
  }

  /** FragmentCount is the ceiling of length / limit. */
  lemma CountBounds(length: nat, limit: nat)
    requires limit > 0 && length > 0
    ensures var n := FragmentCount(length, limit); (n - 1) * limit < length <= n * limit
    ensures length > limit ==> FragmentCount(length, limit) >= 2
  {
    var n := FragmentCount(length, limit);
    var m := (length + limit - 1) % limit;
    assert length + limit - 1 == n * limit + m;
    assert (n - 1) * limit == n * limit - limit;
    if length > limit && n <= 1 { MulLe(n, 1, limit); }
  }

  /** Number of the last command of the first `k` packets. */
  function End(pkts: seq<seq<byte>>, limit: nat, k: nat): nat
    requires limit > 0 && k <= |pkts|
  {
    if k == 0 then 0 else End(pkts, limit, k - 1) + Parts(|pkts[k - 1]|, limit)
  }

  /** Number of part `j` of packet `k`. */
  function Number(pkts: seq<seq<byte>>, limit: nat, k: nat, j: nat): nat
    requires limit > 0 && k < |pkts|
  {
    End(pkts, limit, k) + 1 + j
  }

  lemma {:induction false} EndGrows(pkts: seq<seq<byte>>, limit: nat, k: nat, k': nat)
    requires limit > 0 && k <= k' <= |pkts|
    ensures End(pkts, limit, k) + (k' - k) <= End(pkts, limit, k')
    ensures k < k' ==> End(pkts, limit, k) + Parts(|pkts[k]|, limit) <= End(pkts, limit, k')
  {
    if k < k' { EndGrows(pkts, limit, k, k' - 1); }
  }

  /** Numbers determine packets: the parts of different packets have different numbers. */
  lemma NumberInjective(pkts: seq<seq<byte>>, limit: nat, k: nat, j: nat, k': nat, j': nat)
    requires limit > 0 && k < |pkts| && k' < |pkts|
    requires j < Parts(|pkts[k]|, limit) && j' < Parts(|pkts[k']|, limit)
    requires Number(pkts, limit, k, j) == Number(pkts, limit, k', j')
    ensures k == k' && j == j'
  {
    if k < k' { EndGrows(pkts, limit, k, k'); }
    if k' < k { EndGrows(pkts, limit, k', k); }
  }

  /** Every number up to the end of packet `n` belongs to some part of a packet before `n`. */
  lemma Locate(pkts: seq<seq<byte>>, limit: nat, n: nat, i: nat) returns (k: nat, j: nat)
    requires limit > 0 && n <= |pkts| && 1 <= i <= End(pkts, limit, n)
    ensures k < n && j < Parts(|pkts[k]|, limit) && Number(pkts, limit, k, j) == i
  {
    if i > End(pkts, limit, n - 1) {
      k, j := n - 1, i - End(pkts, limit, n - 1) - 1;
    } else {
      k, j := Locate(pkts, limit, n - 1, i);
    }
  }

  // ----- the pieces of a packet -----

  function PieceStart(limit: nat, j: nat): nat { j * limit }

  function PieceEnd(length: nat, limit: nat, j: nat): nat {
    if (j + 1) * limit < length then (j + 1) * limit else length
  }

  lemma PieceBounds(length: nat, limit: nat, j: nat)
    requires limit > 0 && length > limit && j < Parts(length, limit)
    ensures PieceStart(limit, j) < PieceEnd(length, limit, j) <= length
    ensures PieceEnd(length, limit, j) - PieceStart(limit, j) <= limit
  {
    CountBounds(length, limit);
    MulLe(j, Parts(length, limit) - 1, limit);
    assert (j + 1) * limit == j * limit + limit;
  }

  /** Every byte of a packet lies in exactly the piece its position names. */
  lemma PieceOf(length: nat, limit: nat, b: nat) returns (j: nat)
    requires limit > 0 && length > limit && b < length
    ensures j < Parts(length, limit)
    ensures PieceStart(limit, j) <= b < PieceEnd(length, limit, j)
    ensures forall i: nat | i != j && i < Parts(length, limit) ::
      !(PieceStart(limit, i) <= b < PieceEnd(length, limit, i))
  {
    j := b / limit;
    assert b == j * limit + b % limit;
    assert (j + 1) * limit == j * limit + limit;
    CountBounds(length, limit);
    if j >= Parts(length, limit) { MulLe(Parts(length, limit), j, limit); }
    forall i: nat | i != j ensures !(PieceStart(limit, i) <= b < PieceEnd(length, limit, i)) {
      assert (i + 1) * limit == i * limit + limit;
      if i < j { MulLe(i + 1, j, limit); } else { MulLe(j + 1, i, limit); }
    }
  }
}
