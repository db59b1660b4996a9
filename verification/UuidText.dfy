/** UUIDs as text (section 3 of RFC 4122): from_string, is_valid_uuid and to_string. */
module UuidText {
  import opened Bytes
  import opened Options

  const ENCODER: string := "0123456789abcdef"

  type Uuid = u: seq<byte> | |u| == 16 witness seq(16, _ => 0)

  predicate IsHex(c: char) { '0' <= c <= '9' || 'a' <= c <= 'f' || 'A' <= c <= 'F' }

  /** hex2char */
  function HexValue(c: char): (n: nat)
    ensures n < 16
  {
    if '0' <= c <= '9' then c as nat - '0' as nat
    else if 'a' <= c <= 'f' then 10 + (c as nat - 'a' as nat)
    else if 'A' <= c <= 'F' then 10 + (c as nat - 'A' as nat)
    else 0
  }

  // ----- what the text means -----

  /** The characters that are no dashes. */
  function Digits(s: string): string {
    if s == [] then [] else (if s[0] == '-' then [] else [s[0]]) + Digits(s[1..])
  }

  /** The text between the braces, if it starts with one. */
  function Inner(s: string): string
    requires s != ""
  {
    if s[0] == '{' && |s| > 1 then s[1..|s| - 1] else if s[0] == '{' then "" else s
  }

  predicate AllHex(s: string) { forall i | 0 <= i < |s| :: IsHex(s[i]) }

  /** An opening brace is matched, and inside there are 32 hexadecimal digits, between which
      dashes may stand anywhere. */
  predicate IsUuidText(s: string) {
    && s != "" && (s[0] == '{' ==> s[|s| - 1] == '}')
    && |Digits(Inner(s))| == 32 && AllHex(Digits(Inner(s)))
  }

  function PairValue(d: string, i: nat): byte
    requires 2 * i + 1 < |d|
  {
    16 * HexValue(d[2 * i]) + HexValue(d[2 * i + 1])
  }

  /** The bytes that pairs of digits stand for. */
  function ValueOf(d: string): (u: seq<byte>)
    requires |d| % 2 == 0
    ensures |u| == |d| / 2
  {
    seq(|d| / 2, i requires 0 <= i < |d| / 2 => PairValue(d, i))
  }

  // ----- the loops -----

  lemma {:induction false} DigitsPush(s: string, c: char)
    ensures Digits(s + [c]) == if c == '-' then Digits(s) else Digits(s) + [c]
    decreases |s|
  {
    if s == [] {
      assert s + [c] == [c] && Digits([]) == [] && [c][1..] == [];
    } else {
      assert (s + [c])[1..] == s[1..] + [c];
      DigitsPush(s[1..], c);
    }
  }

  lemma {:induction false} DigitsJoin(s: string, t: string)
    ensures Digits(s + t) == Digits(s) + Digits(t)
    decreases |s|
  {
    if s == [] {
      assert s + t == t;
    } else {
      assert (s + t)[1..] == s[1..] + t;
      DigitsJoin(s[1..], t);
    }
  }

  /** The state of the loop after some characters: the digits read so far give the bytes, the
      index and the half byte. */
  predicate Reading(d: string, data: seq<byte>, index: nat, firstDigit: bool) {
    && |data| == 16 && AllHex(d) && |d| == 2 * index + (if firstDigit then 0 else 1) && |d| <= 32
    && (forall i | 0 <= i < index :: data[i] == PairValue(d, i))
    && (!firstDigit ==> data[index] == 16 * HexValue(d[2 * index]))
  }

  lemma ReadingDigit(d: string, data: seq<byte>, index: nat, firstDigit: bool, c: char)
    requires Reading(d, data, index, firstDigit) && index < 16 && IsHex(c)
    ensures firstDigit ==> Reading(d + [c], data[index := 16 * HexValue(c)], index, false)
    ensures !firstDigit ==>
      (data[index] + HexValue(c) < 256 && Reading(d + [c], data[index := data[index] + HexValue(c)], index + 1, true))
  {
    assert forall i | 0 <= i < index :: PairValue(d + [c], i) == PairValue(d, i);
    if !firstDigit { assert PairValue(d + [c], index) == data[index] + HexValue(c); }
  }

  lemma StartReading()
    ensures Digits("") == "" && Reading("", seq(16, _ => 0), 0, true)
  {
  }

  lemma ReadingDone(d: string, data: seq<byte>, index: nat, firstDigit: bool)
    requires Reading(d, data, index, firstDigit) && index >= 16
    ensures |d| == 32 && AllHex(d) && data == ValueOf(d)
  {
  }

  lemma TooShort(d: string, data: seq<byte>, index: nat, firstDigit: bool)
    requires Reading(d, data, index, firstDigit) && index < 16
    ensures |d| < 32
  {
  }

  lemma ReadingSize(d: string, data: seq<byte>, index: nat, firstDigit: bool)
    requires Reading(d, data, index, firstDigit)
    ensures |data| == 16 && (index >= 16 ==> |d| >= 32)
  {
  }

  /** Once a character is refused the text is none, whatever follows. */
  lemma Refused(s: string, d: string, c: char, rest: string)
    requires Digits(s) == d + [c] + rest && (|d| >= 32 || !IsHex(c))
    ensures !(|Digits(s)| == 32 && AllHex(Digits(s)))
  {
    assert Digits(s)[|d|] == c;
  }

  /** from_string */
  method FromString(str: string) returns (id: Option<Uuid>)
    ensures id.Some? <==> IsUuidText(str)
    ensures id.Some? ==> id.value == ValueOf(Digits(Inner(str)))
  {
    hide Digits, Reading, AllHex;
    var data: seq<byte> := seq(16, _ => 0);
    StartReading();
    var firstDigit, hasBraces, index := true, 0, 0;
    if str == "" { return None; }
    if str[0] == '{' { hasBraces := 1; }
    if hasBraces == 1 && str[|str| - 1] != '}' { return None; }
    ghost var inner := Inner(str);
    assert inner == str[hasBraces..|str| - hasBraces];
    var i: nat := hasBraces;
    assert inner[..0] == "";
    while i < |str| - hasBraces
      invariant hasBraces <= i <= |str| - hasBraces && index <= 16
      invariant Reading(Digits(inner[..i - hasBraces]), data, index, firstDigit)
    {
      ghost var k := i - hasBraces;
      ReadingSize(Digits(inner[..k]), data, index, firstDigit);
      DigitsPush(inner[..k], str[i]);
      assert inner[..k + 1] == inner[..k] + [str[i]];
      if str[i] != '-' {
        if index >= 16 || !IsHex(str[i]) {
          DigitsJoin(inner[..k + 1], inner[k + 1..]);
          assert inner == inner[..k + 1] + inner[k + 1..];
          Refused(inner, Digits(inner[..k]), str[i], Digits(inner[k + 1..]));
          return None;
        }
        ReadingDigit(Digits(inner[..k]), data, index, firstDigit, str[i]);
        if firstDigit {
          data := data[index := 16 * HexValue(str[i])];
          firstDigit := false;
        } else {
          data := data[index := data[index] + HexValue(str[i])];
          index := index + 1;
          firstDigit := true;
        }
      }
      i := i + 1;
    }
    assert inner[..|inner|] == inner;
    if index < 16 {
      TooShort(Digits(inner), data, index, firstDigit);
      return None;
    }
    ReadingDone(Digits(inner), data, index, firstDigit);
    id := Some(data);
  }

  /** is_valid_uuid accepts exactly what from_string accepts. */
  method IsValidUuid(str: string) returns (valid: bool)
    ensures valid <==> IsUuidText(str)
  {
    hide Digits;
    NoDigits();
    var firstDigit, hasBraces, index := true, 0, 0;
    if str == "" { return false; }
    if str[0] == '{' { hasBraces := 1; }
    if hasBraces == 1 && str[|str| - 1] != '}' { return false; }
    ghost var inner := Inner(str);
    assert inner == str[hasBraces..|str| - hasBraces];
    var i: nat := hasBraces;
    assert inner[..0] == "";
    while i < |str| - hasBraces
      invariant hasBraces <= i <= |str| - hasBraces && index <= 16
      invariant AllHex(Digits(inner[..i - hasBraces]))
      invariant |Digits(inner[..i - hasBraces])| == 2 * index + (if firstDigit then 0 else 1) <= 32
    {
      ghost var k := i - hasBraces;
      DigitsPush(inner[..k], str[i]);
      assert inner[..k + 1] == inner[..k] + [str[i]];
      if str[i] != '-' {
        if index >= 16 || !IsHex(str[i]) {
          DigitsJoin(inner[..k + 1], inner[k + 1..]);
          assert inner == inner[..k + 1] + inner[k + 1..];
          Refused(inner, Digits(inner[..k]), str[i], Digits(inner[k + 1..]));
          return false;
        }
        if firstDigit {
          firstDigit := false;
        } else {
          index := index + 1;
          firstDigit := true;
        }
      }
      i := i + 1;
    }
    assert inner[..|inner|] == inner;
    valid := index >= 16;
  }

  // ----- printing -----

  predicate DashAt(i: nat) { i == 8 || i == 13 || i == 18 || i == 23 }

  /** The digits of the bytes. */
  function HexText(u: seq<byte>): string {
    if u == [] then "" else [ENCODER[u[0] / 16], ENCODER[u[0] % 16]] + HexText(u[1..])
  }

  /** The 8-4-4-4-12 pattern. */
  function Text(u: Uuid): string {
    Pattern(HexText(u[..4]), HexText(u[4..6]), HexText(u[6..8]), HexText(u[8..10]), HexText(u[10..]))
  }

  function Pattern(a: string, b: string, c: string, d: string, e: string): string {
    a + "-" + b + "-" + c + "-" + d + "-" + e
  }

  /** Number of digits before position i of the pattern. */
  function DigitsBefore(i: nat): nat {
    if i <= 8 then i else if i <= 13 then i - 1 else if i <= 18 then i - 2 else if i <= 23 then i - 3 else i - 4
  }

  /** The half byte behind digit j. */
  function HalfByte(u: Uuid, j: nat): nat
    requires j < 32
  {
    if j % 2 == 0 then u[j / 2] / 16 else u[j / 2] % 16
  }

  /** '0' to '9' and then 'a' to 'f', in lower case. */
  predicate IsDigitOf(c: char, n: nat) {
    if n < 10 then c as nat == '0' as nat + n else n < 16 && c as nat == 'a' as nat + (n - 10)
  }

  lemma EncodedDigit(n: nat)
    requires n < 16
    ensures IsDigitOf(ENCODER[n], n)
  {
  }

  lemma PrintedDigit(u: Uuid, k: nat)
    requires k < 36 && !DashAt(k)
    ensures IsDigitOf(CharAt(u, k), HalfByte(u, DigitsBefore(k)))
  {
    EncodedDigit(HalfByte(u, DigitsBefore(k)));
  }

  /** to_string: the loop over the 36 positions of an all-zero pattern. Each position but those of
      the four dashes gets the lower-case digit of its half byte. */
  method ToString(u: Uuid) returns (s: string)
    ensures s == Text(u)
    ensures |s| == 36 && s[8] == s[13] == s[18] == s[23] == '-'
    ensures forall k | 0 <= k < 36 && !DashAt(k) :: IsDigitOf(s[k], HalfByte(u, DigitsBefore(k)))
  {
    hide Text, CharAt, IsDigitOf, HalfByte;
    s := "00000000-0000-0000-0000-000000000000";
    var i, index := 0, 0;
    while i < 36
      invariant i <= 36 && |s| == 36 && DigitsBefore(i) == 2 * index
      invariant forall k | 0 <= k < 36 && DashAt(k) :: s[k] == '-'
      invariant forall k | 0 <= k < i && !DashAt(k) :: s[k] == CharAt(u, k)
    {
      if !DashAt(i) {
        CharsOf(u, i, index);
        s := s[i := ENCODER[u[index] / 16]];
        i := i + 1;
        s := s[i := ENCODER[u[index] % 16]];
        index := index + 1;
      }
      i := i + 1;
    }
    TextAt(u);
    assert |s| == |Text(u)|;
    forall k | 0 <= k < 36 && !DashAt(k) ensures IsDigitOf(s[k], HalfByte(u, DigitsBefore(k))) { PrintedDigit(u, k); }
  }

  /** The digit at position k of the pattern. */
  function CharAt(u: Uuid, k: nat): char
    requires k < 36 && !DashAt(k)
  {
    var j := DigitsBefore(k);
    if j % 2 == 0 then ENCODER[u[j / 2] / 16] else ENCODER[u[j / 2] % 16]
  }

  lemma CharsOf(u: Uuid, k: nat, index: nat)
    requires k < 36 && !DashAt(k) && DigitsBefore(k) == 2 * index
    ensures k + 1 < 36 && !DashAt(k + 1) && index < 16
    ensures CharAt(u, k) == ENCODER[u[index] / 16] && CharAt(u, k + 1) == ENCODER[u[index] % 16]
  {
  }

  lemma {:induction false} HexTextAt(u: seq<byte>, j: nat)
    requires j < 2 * |u|
    ensures |HexText(u)| == 2 * |u|
    ensures HexText(u)[j] == if j % 2 == 0 then ENCODER[u[j / 2] / 16] else ENCODER[u[j / 2] % 16]
    decreases |u|
  {
    HexTextLength(u);
    if j >= 2 { HexTextAt(u[1..], j - 2); }
  }

  lemma {:induction false} HexTextLength(u: seq<byte>)
    ensures |HexText(u)| == 2 * |u|
    decreases |u|
  {
    if u != [] { HexTextLength(u[1..]); }
  }

  lemma PatternAt(a: string, b: string, c: string, d: string, e: string)
    requires |a| == 8 && |b| == |c| == |d| == 4 && |e| == 12
    ensures var t := Pattern(a, b, c, d, e);
      && |t| == 36
      && forall k | 0 <= k < 36 :: t[k] == if DashAt(k) then '-' else
           if k < 8 then a[k] else if k < 13 then b[k - 9] else if k < 18 then c[k - 14]
           else if k < 23 then d[k - 19] else e[k - 24]
  {
  }

  lemma TextAt(u: Uuid)
    ensures |Text(u)| == 36
    ensures forall k | 0 <= k < 36 :: Text(u)[k] == if DashAt(k) then '-' else CharAt(u, k)
  {
    hide HexText, Pattern;
    HexTextLength(u[..4]);
    HexTextLength(u[4..6]);
    HexTextLength(u[6..8]);
    HexTextLength(u[8..10]);
    HexTextLength(u[10..]);
    PatternAt(HexText(u[..4]), HexText(u[4..6]), HexText(u[6..8]), HexText(u[8..10]), HexText(u[10..]));
    forall k | 0 <= k < 36 ensures Text(u)[k] == if DashAt(k) then '-' else CharAt(u, k) {
      if k < 8 { HexTextAt(u[..4], k); }
      else if 8 < k < 13 { HexTextAt(u[4..6], k - 9); }
      else if 13 < k < 18 { HexTextAt(u[6..8], k - 14); }
      else if 18 < k < 23 { HexTextAt(u[8..10], k - 19); }
      else if 23 < k { HexTextAt(u[10..], k - 24); }
    }
  }

  // ----- printing and parsing undo each other -----

  lemma EncoderValue(n: nat)
    requires n < 16
    ensures IsHex(ENCODER[n]) && HexValue(ENCODER[n]) == n && ENCODER[n] != '-'
  {
  }

  lemma HexTextIs(u: seq<byte>)
    requires u != []
    ensures var a, b := ENCODER[u[0] / 16], ENCODER[u[0] % 16];
      && IsHex(a) && IsHex(b) && a != '-' && b != '-' && 16 * HexValue(a) + HexValue(b) == u[0]
      && HexText(u) == [a, b] + HexText(u[1..])
  {
    EncoderValue(u[0] / 16);
    EncoderValue(u[0] % 16);
  }

  lemma DigitsTwo(a: char, b: char, rest: string)
    requires a != '-' && b != '-'
    ensures Digits([a, b] + rest) == [a, b] + Digits(rest)
  {
    var t := [a, b] + rest;
    assert t[1..] == [b] + rest && t[1..][1..] == rest;
  }

  lemma {:induction false} HexTextReads(u: seq<byte>)
    ensures Digits(HexText(u)) == HexText(u) && AllHex(HexText(u)) && |HexText(u)| == 2 * |u|
    ensures forall i | 0 <= i < |u| :: PairValue(HexText(u), i) == u[i]
    decreases |u|
  {
    hide HexText, Digits;
    HexTextLength(u);
    if u != [] {
      var a, b, rest := ENCODER[u[0] / 16], ENCODER[u[0] % 16], HexText(u[1..]);
      HexTextIs(u);
      HexTextReads(u[1..]);
      DigitsTwo(a, b, rest);
      var t := HexText(u);
      forall i | 0 <= i < |u| ensures PairValue(t, i) == u[i] {
        if i > 0 { assert PairValue(t, i) == PairValue(rest, i - 1); }
      }
    } else {
      NoDigits();
    }
  }

  lemma NoDigits()
    ensures HexText([]) == "" && Digits("") == ""
  {
  }

  lemma DigitsPart(s: string, part: string)
    requires Digits(part) == part
    ensures Digits(s + "-" + part) == Digits(s) + part
  {
    DigitsPush(s, '-');
    DigitsJoin(s + "-", part);
  }

  lemma PatternDigits(a: string, b: string, c: string, d: string, e: string)
    requires Digits(a) == a && Digits(b) == b && Digits(c) == c && Digits(d) == d && Digits(e) == e
    ensures Digits(Pattern(a, b, c, d, e)) == a + b + c + d + e
  {
    hide Digits;
    DigitsPart(a, b);
    DigitsPart(a + "-" + b, c);
    DigitsPart(a + "-" + b + "-" + c, d);
    DigitsPart(a + "-" + b + "-" + c + "-" + d, e);
  }

  lemma TextDigits(u: Uuid)
    ensures Digits(Text(u)) == HexText(u)
  {
    hide Digits, HexText, Pattern;
    var a, b, c, d, e := u[..4], u[4..6], u[6..8], u[8..10], u[10..];
    HexTextReads(a);
    HexTextReads(b);
    HexTextReads(c);
    HexTextReads(d);
    HexTextReads(e);
    PatternDigits(HexText(a), HexText(b), HexText(c), HexText(d), HexText(e));
    HexTextJoins(a, b);
    HexTextJoins(a + b, c);
    HexTextJoins(a + b + c, d);
    HexTextJoins(a + b + c + d, e);
    assert a + b + c + d + e == u;
  }

  lemma {:induction false} HexTextJoins(u: seq<byte>, v: seq<byte>)
    ensures HexText(u + v) == HexText(u) + HexText(v)
    decreases |u|
  {
    if u == [] {
      assert u + v == v;
    } else {
      assert (u + v)[1..] == u[1..] + v;
      HexTextJoins(u[1..], v);
    }
  }

  /** A printed UUID, with or without braces, is accepted and read back as itself. */
  lemma PrintedReadsBack(u: Uuid)
    ensures IsUuidText(Text(u)) && ValueOf(Digits(Inner(Text(u)))) == u
    ensures IsUuidText("{" + Text(u) + "}") && ValueOf(Digits(Inner("{" + Text(u) + "}"))) == u
  {
    hide Digits, HexText, Text;
    TextAt(u);
    TextDigits(u);
    HexTextReads(u);
    assert ValueOf(HexText(u)) == u;
    EncoderValue(u[0] / 16);
    assert Text(u)[0] == CharAt(u, 0);
    var braced := "{" + Text(u) + "}";
    assert braced[|braced| - 1] == '}' && Inner(braced) == Text(u);
  }

  function Lower(c: char): char { if 'A' <= c <= 'F' then (c as nat - 'A' as nat + 'a' as nat) as char else c }

  /** Texts whose digits agree but for letter case have the same value, wherever their dashes and
      braces are. */
  lemma OnlyDigitsMatter(s: string, t: string)
    requires IsUuidText(s)
    requires t != "" && (t[0] == '{' ==> t[|t| - 1] == '}')
    requires var d, e := Digits(Inner(s)), Digits(Inner(t));
      |d| == |e| && forall i | 0 <= i < |d| :: Lower(d[i]) == Lower(e[i])
    ensures IsUuidText(t) && ValueOf(Digits(Inner(t))) == ValueOf(Digits(Inner(s)))
  {
    var d, e := Digits(Inner(s)), Digits(Inner(t));
    forall i | 0 <= i < |e| ensures IsHex(e[i]) && HexValue(e[i]) == HexValue(d[i]) {
      assert Lower(d[i]) == Lower(e[i]);
    }
    assert forall i | 0 <= i < 16 :: PairValue(d, i) == PairValue(e, i);
  }
}
