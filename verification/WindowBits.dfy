/** The mask that check_outgoing_commands tests against `usedReliableWindows` before it opens a
    window. The 16-bit set itself is kept as sixteen booleans. */
module WindowBits {
  type Bits16 = s: seq<bool> | |s| == 16 witness seq(16, _ => false)

  /** FREE_RELIABLE_WINDOWS + 2 ones, shifted to start at window `w` and wrapped round. */
  function OpeningMask(w: nat): bv32
    requires w < 16
  {
    (((1 << 10) - 1) << w) | (((1 << 10) - 1) >> (16 - w))
  }

  predicate InMask(w: nat, k: nat)
    requires w < 16 && k < 16
  {
    (OpeningMask(w) >> k) & 1 == 1
  }

  predicate Overlaps(used: Bits16, w: nat)
    requires w < 16
  {
    exists k | 0 <= k < 16 :: used[k] && InMask(w, k)
  }

  /** The mask is window `w` and the nine windows after it, modulo 16. */
  lemma MaskMeaning(w: nat, k: nat)
    requires w < 16 && k < 16
    ensures InMask(w, k) <==> (k + 16 - w) % 16 < 10
  {
    if w < 4 { MaskFirst(w, k); } else if w < 8 { MaskSecond(w, k); }
    else if w < 12 { MaskThird(w, k); } else { MaskLast(w, k); }
  }

  lemma MaskFirst(w: nat, k: nat)
    requires w < 4 && k < 16
    ensures InMask(w, k) <==> (k + 16 - w) % 16 < 10
  {
    var m := OpeningMask(w);
    if w == 0 { assert m == 0x3FF; } else if w == 1 { assert m == 0x7FE; }
    else if w == 2 { assert m == 0xFFC; } else { assert m == 0x1FF8; }
  }

  lemma MaskSecond(w: nat, k: nat)
    requires 4 <= w < 8 && k < 16
    ensures InMask(w, k) <==> (k + 16 - w) % 16 < 10
  {
    var m := OpeningMask(w);
    if w == 4 { assert m == 0x3FF0; } else if w == 5 { assert m == 0x7FE0; }
    else if w == 6 { assert m == 0xFFC0; } else { assert m == 0x1FF81; }
  }

  lemma MaskThird(w: nat, k: nat)
    requires 8 <= w < 12 && k < 16
    ensures InMask(w, k) <==> (k + 16 - w) % 16 < 10
  {
    var m := OpeningMask(w);
    if w == 8 { assert m == 0x3FF03; } else if w == 9 { assert m == 0x7FE07; }
    else if w == 10 { assert m == 0xFFC0F; } else { assert m == 0x1FF81F; }
  }

  lemma MaskLast(w: nat, k: nat)
    requires 12 <= w < 16 && k < 16
    ensures InMask(w, k) <==> (k + 16 - w) % 16 < 10
  {
    var m := OpeningMask(w);
    if w == 12 { assert m == 0x3FF03F; } else if w == 13 { assert m == 0x7FE07F; }
    else if w == 14 { assert m == 0xFFC0FF; } else { assert m == 0x1FF81FF; }
  }
}
