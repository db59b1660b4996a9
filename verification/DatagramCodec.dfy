/** Datagrams: packed commands and their payloads, one behind the other, and the walk of
    handle_incoming_commands over the received bytes. */
module DatagramCodec {
  import opened Bytes
  import opened SeqNumbers

  /** A command by its number, flags, channel and sequence number, and the values of its fields. */
  datatype Command = Command(number: nat, acknowledge: bool, unsequenced: bool, channel: byte, rseq: u16, values: seq<nat>)

  /** Widths of the fields behind the four bytes of the command header. */
  function Layout(number: nat): seq<nat> {
    match number
    case 1 => [2, 2]
    case 2 => [2, 1, 1, 4, 4, 4, 4, 4, 4, 4, 4, 4, 4]
    case 3 => [2, 1, 1, 4, 4, 4, 4, 4, 4, 4, 4, 4]
    case 4 => [4]
    case 5 => []
    case 6 => [2]
    case 7 => [2, 2]
    case 8 => [2, 2, 4, 4, 4, 4]
    case 9 => [2, 2]
    case 10 => [4, 4]
    case 11 => [4, 4, 4]
    case 12 => [2, 2, 4, 4, 4, 4]
    case _ => []
  }

  /** commandSizes */
  function CommandSize(number: nat): nat {
    match number
    case 1 => 8
    case 2 => 48
    case 3 => 44
    case 4 => 8
    case 5 => 4
    case 6 => 6
    case 7 => 8
    case 8 => 24
    case 9 => 8
    case 10 => 12
    case 11 => 16
    case 12 => 24
    case _ => 0
  }

  function Width(layout: seq<nat>): nat { if layout == [] then 0 else layout[0] + Width(layout[1..]) }

  /** The packed structures have the sizes of the table. */
  lemma SizesAgree(number: nat)
    requires 1 <= number <= 12
    ensures CommandSize(number) == 4 + Width(Layout(number))
  {
    hide Width;
    var l := Layout(number);
    if number == 2 || number == 3 {
      FrontAndFours([2, 1, 1], l);
    } else if number == 8 || number == 12 {
      FrontAndFours([2, 2], l);
    } else {
      ShortWidth(l);
    }
  }

  lemma FrontAndFours(a: seq<nat>, l: seq<nat>)
    requires a <= l && |a| <= 3 && forall i | |a| <= i < |l| :: l[i] == 4
    ensures Width(l) == Width(a) + 4 * (|l| - |a|)
    ensures a == [2, 1, 1] ==> Width(a) == 4
    ensures a == [2, 2] ==> Width(a) == 4
  {
    hide Width;
    WidthJoin(a, l[|a|..]);
    assert l == a + l[|a|..];
    Fours(l[|a|..]);
    ShortWidth(a);
  }

  lemma ShortWidth(l: seq<nat>)
    requires |l| <= 3
    ensures Width(l) == (if |l| > 0 then l[0] else 0) + (if |l| > 1 then l[1] else 0) + (if |l| > 2 then l[2] else 0)
  {
    if |l| > 0 { ShortWidth(l[1..]); }
  }

  lemma {:induction false} Fours(l: seq<nat>)
    requires forall i | 0 <= i < |l| :: l[i] == 4
    ensures Width(l) == 4 * |l|
    decreases |l|
  {
    if l != [] { Fours(l[1..]); }
  }

  lemma {:induction false} WidthJoin(a: seq<nat>, b: seq<nat>)
    ensures Width(a + b) == Width(a) + Width(b)
    decreases |a|
  {
    if a == [] {
      assert a + b == b;
    } else {
      assert (a + b)[1..] == a[1..] + b;
      WidthJoin(a[1..], b);
    }
  }

  predicate ValuesFit(values: seq<nat>, layout: seq<nat>) {
    |values| == |layout| && forall i | 0 <= i < |values| :: values[i] < Pow256(layout[i])
  }

  predicate ValidCommand(c: Command) { 1 <= c.number <= 12 && ValuesFit(c.values, Layout(c.number)) }

  function Fields(values: seq<nat>, layout: seq<nat>): (s: seq<byte>)
    requires |values| == |layout|
    ensures |s| == Width(layout)
  {
    if values == [] then [] else BigEndian(values[0], layout[0]) + Fields(values[1..], layout[1..])
  }

  function ReadFields(s: seq<byte>, layout: seq<nat>): (values: seq<nat>)
    requires |s| >= Width(layout)
    ensures |values| == |layout|
    decreases |layout|
  {
    if layout == [] then []
    else [FromBigEndian(s[..layout[0]])] + ReadFields(s[layout[0]..], layout[1..])
  }

  lemma {:induction false} FieldsReadBack(values: seq<nat>, layout: seq<nat>, t: seq<byte>)
    requires ValuesFit(values, layout)
    ensures ReadFields(Fields(values, layout) + t, layout) == values
    decreases |layout|
  {
    hide Pow256, BigEndian, FromBigEndian;
    if values != [] {
      var front, rest := BigEndian(values[0], layout[0]), Fields(values[1..], layout[1..]);
      BigEndianRoundTrip(values[0], layout[0]);
      assert Fields(values, layout) + t == front + (rest + t);
      ReadFirst(front, rest + t, layout);
      FieldsReadBack(values[1..], layout[1..], t);
      assert values == [values[0]] + values[1..];
    }
  }

  lemma ReadFirst(front: seq<byte>, rest: seq<byte>, layout: seq<nat>)
    requires layout != [] && |front| == layout[0] && |rest| >= Width(layout[1..])
    ensures ReadFields(front + rest, layout) == [FromBigEndian(front)] + ReadFields(rest, layout[1..])
  {
    hide FromBigEndian;
    assert (front + rest)[..layout[0]] == front && (front + rest)[layout[0]..] == rest;
  }

  function FirstByte(c: Command): byte
    requires c.number < 16
  {
    c.number + (if c.acknowledge then 128 else 0) + (if c.unsequenced then 64 else 0)
  }

  function Encode(c: Command): (s: seq<byte>)
    requires ValidCommand(c)
  {
    [FirstByte(c), c.channel] + BigEndian(c.rseq, 2) + Fields(c.values, Layout(c.number))
  }

  /** The command at the front of s, whose number is known to be one. */
  function Decode(s: seq<byte>): Command
    requires |s| >= 4 && |s| >= 4 + Width(Layout(s[0] % 16))
  {
    FromBigEndianBound(s[2..4]);
    Pow256Values();
    Command(s[0] % 16, s[0] / 128 == 1, s[0] / 64 % 2 == 1, s[1], FromBigEndian(s[2..4]), ReadFields(s[4..], Layout(s[0] % 16)))
  }

  lemma DecodeUndoesEncode(c: Command, t: seq<byte>)
    requires ValidCommand(c)
    ensures |Encode(c)| == CommandSize(c.number) >= 4 && Encode(c)[0] % 16 == c.number
    ensures |Encode(c)| == 4 + Width(Layout(c.number)) && Decode(Encode(c) + t) == c
  {
    hide Width, Layout, CommandSize, Fields, ReadFields;
    SizesAgree(c.number);
    Pow256Values();
    BigEndianRoundTrip(c.rseq, 2);
    FieldsReadBack(c.values, Layout(c.number), t);
    var s := Encode(c) + t;
    assert s[2..4] == BigEndian(c.rseq, 2) && s[4..] == Fields(c.values, Layout(c.number)) + t;
  }

  /** Length of the payload a command announces. */
  function DataLength(c: Command): nat
    requires ValidCommand(c)
  {
    if c.number == 6 then c.values[0]
    else if 7 <= c.number <= 9 || c.number == 12 then c.values[1] else 0
  }

  datatype Item = Item(command: Command, payload: seq<byte>)

  predicate ValidItem(i: Item) { ValidCommand(i.command) && |i.payload| == DataLength(i.command) }

  predicate AllItems(items: seq<Item>) { forall k | 0 <= k < |items| :: ValidItem(items[k]) }

  /** The commands and payloads of a datagram, one after the other. */
  function Strung(items: seq<Item>): seq<byte>
    requires AllItems(items)
  {
    if items == [] then [] else Encode(items[0].command) + items[0].payload + Strung(items[1..])
  }

  // ----- the walk -----

  /** One turn of the walk: a command with its payload and the position behind it, or the position
      where the walk stops. */
  datatype Turn = Found(item: Item, end: nat) | Stop(end: nat)

  /** A peer is `known` unless the datagram came from nobody. */
  function Front(data: seq<byte>, pos: nat, known: bool): (t: Turn)
    requires pos <= |data|
    ensures pos <= t.end <= |data| && (t.Found? ==> pos < t.end)
  {
    if |data| - pos < 4 then Stop(pos)
    else
      var number := data[pos] % 16;
      if number >= 13 || CommandSize(number) == 0 || CommandSize(number) > |data| - pos then Stop(pos)
      else
        NumberFits(number);
        DecodeFits(data[pos..]);
        var c := Decode(data[pos..]);
        var at := pos + CommandSize(number);
        if !known && (number != 2 || at < |data|) then Stop(at)
        else if at + DataLength(c) > |data| then Stop(at)
        else Found(Item(c, data[at..at + DataLength(c)]), at + DataLength(c))
  }

  /** What the walk hands to the handlers, and where it ends. `sentTime` is the header's flag; `ok`
      tells which commands are handled without error. */
  function Walked(data: seq<byte>, pos: nat, known: bool, sentTime: bool, ok: Item -> bool): (seq<Item>, nat)
    requires pos <= |data|
    decreases |data| - pos
  {
    match Front(data, pos, known)
    case Stop(end) => ([], end)
    case Found(item, end) =>
      if !ok(item) || (item.command.acknowledge && !sentTime) then ([item], end)
      else
        var (rest, last) := Walked(data, end, true, sentTime, ok);
        ([item] + rest, last)
  }

  lemma {:induction false} ReadFieldsFit(s: seq<byte>, layout: seq<nat>)
    requires |s| >= Width(layout)
    ensures ValuesFit(ReadFields(s, layout), layout)
    decreases |layout|
  {
    hide Pow256;
    if layout != [] {
      FromBigEndianBound(s[..layout[0]]);
      ReadFieldsFit(s[layout[0]..], layout[1..]);
      var v, rest := ReadFields(s, layout), ReadFields(s[layout[0]..], layout[1..]);
      assert forall i | 0 < i < |v| :: v[i] == rest[i - 1] && layout[i] == layout[1..][i - 1];
    }
  }

  lemma DecodeFits(s: seq<byte>)
    requires |s| >= 4 && 1 <= s[0] % 16 <= 12 && |s| >= 4 + Width(Layout(s[0] % 16))
    ensures ValidCommand(Decode(s))
  {
    hide Layout;
    ReadFieldsFit(s[4..], Layout(s[0] % 16));
  }

  /** In a datagram from nobody the walk finds a connect command alone, or nothing. */
  lemma FromNobody(data: seq<byte>, pos: nat, sentTime: bool, ok: Item -> bool)
    requires pos <= |data|
    ensures var (items, end) := Walked(data, pos, false, sentTime, ok);
      items != [] ==> |items| == 1 && items[0].command.number == 2 && items[0].payload == [] && end == |data|
  {
    hide ReadFields, Layout, CommandSize, ValidCommand;
    if Front(data, pos, false).Found? {
      assert Front(data, |data|, true) == Stop(|data|);
    }
  }

  /** One turn of the loop of handle_incoming_commands, up to the handler. */
  method NextItem(data: seq<byte>, pos: nat, known: bool) returns (t: Turn)
    requires pos <= |data|
    ensures t == Front(data, pos, known)
  {
    hide Layout, CommandSize, Decode, ValidCommand, DataLength;
    var currentData := pos;
    if currentData + 4 > |data| { return Stop(currentData); }
    var number := data[currentData] % 16;
    if number >= 13 { return Stop(currentData); }
    var size := CommandSize(number);
    if size == 0 || currentData + size > |data| { return Stop(currentData); }
    NumberFits(number);
    DecodeFits(data[currentData..]);
    var c := Decode(data[currentData..]);
    currentData := currentData + size;
    if !known && (number != 2 || currentData < |data|) { return Stop(currentData); }
    var length := DataLength(c);
    if currentData + length > |data| { return Stop(currentData); }
    t := Found(Item(c, data[currentData..currentData + length]), currentData + length);
  }

  lemma WalkedFound(data: seq<byte>, pos: nat, known: bool, sentTime: bool, ok: Item -> bool)
    requires pos <= |data| && Front(data, pos, known).Found?
    ensures var t := Front(data, pos, known);
      Walked(data, pos, known, sentTime, ok) ==
        if !ok(t.item) || (t.item.command.acknowledge && !sentTime) then ([t.item], t.end)
        else ([t.item] + Walked(data, t.end, true, sentTime, ok).0, Walked(data, t.end, true, sentTime, ok).1)
  {
    hide Front;
  }

  lemma WalkedStop(data: seq<byte>, pos: nat, known: bool, sentTime: bool, ok: Item -> bool)
    requires pos <= |data| && Front(data, pos, known).Stop?
    ensures Walked(data, pos, known, sentTime, ok) == ([], Front(data, pos, known).end)
  {
    hide Front;
  }

  /** The walk of handle_incoming_commands over host->receivedData. */
  method Walk(data: seq<byte>, start: nat, known: bool, sentTime: bool, ok: Item -> bool)
    returns (visited: seq<Item>, currentData: nat)
    requires start <= |data|
    ensures (visited, currentData) == Walked(data, start, known, sentTime, ok)
  {
    hide Front, Walked;
    ghost var all := Walked(data, start, known, sentTime, ok);
    visited, currentData := [], start;
    assert [] + all.0 == all.0;
    var peerKnown := known;
    while true
      invariant currentData <= |data|
      invariant visited + Walked(data, currentData, peerKnown, sentTime, ok).0 == all.0
      invariant Walked(data, currentData, peerKnown, sentTime, ok).1 == all.1
      decreases |data| - currentData
    {
      var t := NextItem(data, currentData, peerKnown);
      if t.Stop? {
        WalkedStop(data, currentData, peerKnown, sentTime, ok);
        currentData := t.end;
        assert visited + [] == visited;
        return;
      }
      WalkedFound(data, currentData, peerKnown, sentTime, ok);
      currentData := t.end;
      ghost var rest := Walked(data, currentData, true, sentTime, ok).0;
      assert visited + ([t.item] + rest) == (visited + [t.item]) + rest;
      visited := visited + [t.item];
      if !ok(t.item) || (t.item.command.acknowledge && !sentTime) { return; }
      peerKnown := true;
    }
  }

  lemma NumberFits(number: nat)
    requires CommandSize(number) != 0
    ensures 1 <= number <= 12 && CommandSize(number) == 4 + Width(Layout(number))
  {
    SizesAgree(number);
  }

  /** A written command and its payload are what the next turn finds. */
  lemma FrontFinds(head: seq<byte>, i: Item, rest: seq<byte>)
    requires ValidItem(i)
    ensures Front(head + Encode(i.command) + i.payload + rest, |head|, true)
         == Found(i, |head + Encode(i.command) + i.payload|)
  {
    hide Layout, CommandSize, Decode, Encode, ValidCommand, DataLength;
    var c := i.command;
    var data := head + Encode(c) + i.payload + rest;
    DecodeUndoesEncode(c, i.payload + rest);
    assert data[|head|..] == Encode(c) + (i.payload + rest);
    assert data[|head|] == data[|head|..][0];
    ValidNumber(c);
    var at := |head| + |Encode(c)|;
    assert data[at..at + |i.payload|] == i.payload;
  }

  /** The walk over a datagram visits exactly the commands and payloads written, in order, and
      ends exactly at its end. */
  lemma {:induction false} WalkVisitsAll(head: seq<byte>, items: seq<Item>, sentTime: bool, ok: Item -> bool)
    requires AllItems(items) && forall k | 0 <= k < |items| :: ok(items[k]) && (items[k].command.acknowledge ==> sentTime)
    ensures Walked(head + Strung(items), |head|, true, sentTime, ok) == (items, |head + Strung(items)|)
    decreases |items|
  {
    hide Front, Encode, ValidCommand;
    var data := head + Strung(items);
    if items == [] {
      NothingFound(data);
    } else {
      var rest := items[1..];
      assert ValidItem(items[0]);
      FrontFinds(head, items[0], Strung(rest));
      var head' := head + Encode(items[0].command) + items[0].payload;
      assert data == head' + Strung(rest);
      WalkVisitsAll(head', rest, sentTime, ok);
      assert items == [items[0]] + rest;
    }
  }

  lemma NothingFound(data: seq<byte>)
    ensures Front(data, |data|, true) == Stop(|data|)
  {
  }

  lemma ValidNumber(c: Command)
    requires ValidCommand(c)
    ensures c.number < 13 && CommandSize(c.number) >= 4
  {
  }

  // ----- datagrams cut short -----

  /** An item of which only the front has come is not found. */
  lemma FrontStopsAtCut(head: seq<byte>, i: Item, part: seq<byte>)
    requires ValidItem(i) && part < Encode(i.command) + i.payload
    ensures Front(head + part, |head|, true).Stop?
  {
    hide Layout, CommandSize, Decode, Encode, ValidCommand, DataLength;
    var c, data := i.command, head + part;
    assert data[|head|..] == part;
    ValidNumber(c);
    DecodeUndoesEncode(c, []);
    if |part| >= 4 {
      assert part[0] == Encode(c)[0] && data[|head|] == part[0];
      if |part| >= |Encode(c)| {
        var front := part[|Encode(c)|..];
        assert part == Encode(c) + front;
        DecodeUndoesEncode(c, front);
      }
    }
  }

  /** The walk over a datagram that is cut in the middle of an item visits exactly the items before. */
  lemma {:induction false} WalkStopsAtCut(
    head: seq<byte>, items: seq<Item>, last: Item, part: seq<byte>, sentTime: bool, ok: Item -> bool)
    requires AllItems(items) && forall k | 0 <= k < |items| :: ok(items[k]) && (items[k].command.acknowledge ==> sentTime)
    requires ValidItem(last) && part < Encode(last.command) + last.payload
    ensures Walked(head + Strung(items) + part, |head|, true, sentTime, ok).0 == items
    decreases |items|
  {
    hide Front, Encode, ValidCommand;
    var data := head + Strung(items) + part;
    if items == [] {
      assert data == head + part;
      FrontStopsAtCut(head, last, part);
    } else {
      var rest := items[1..];
      assert ValidItem(items[0]);
      FrontFinds(head, items[0], Strung(rest) + part);
      var head' := head + Encode(items[0].command) + items[0].payload;
      assert data == head' + (Strung(rest) + part);
      assert data == head' + Strung(rest) + part;
      WalkStopsAtCut(head', rest, last, part, sentTime, ok);
      assert items == [items[0]] + rest;
    }
  }
}
