/** What the receiver's handlers make of the items of a datagram: the switch of
    handle_incoming_commands, and the fields that each handler reads. It undoes what the sender
    writes, for commands of every kind. */
module DatagramReading {
  import opened Bytes
  import opened Options
  import opened SeqNumbers
  import opened EnetSender
  import opened DatagramCodec
  import opened DatagramAssembly

  // ----- the first byte -----

  /** The number and the two flags as the receiver masks them out of the first byte. */
  lemma FlagsMasked(c: Command)
    requires ValidCommand(c)
    ensures var b := FirstByte(c) as bv8;
      && b & 0x0F == c.number as bv8
      && (b & 0x80 != 0 <==> c.acknowledge)
      && (b & 0x40 != 0 <==> c.unsequenced)
  {
    var number := c.number as bv8;
    var flags: bv8 := (if c.acknowledge then 0x80 else 0) | (if c.unsequenced then 0x40 else 0);
    assert FirstByte(c) as bv8 == number | flags;
  }

  // ----- acknowledgements -----

  /** What handle_acknowledge reads. */
  function AcknowledgementIn(i: Item): Option<Acknowledgement>
    requires ValidItem(i)
  {
    var v := i.command.values;
    if i.command.number == 1 && v[0] < WRAP && v[1] < WRAP then Some(Acknowledgement(i.command.channel, v[0], v[1]))
    else None
  }

  lemma AcknowledgementsRead(acks: seq<Acknowledgement>, k: nat)
    requires k < |acks|
    ensures AcknowledgementIn(AckItems(acks)[k]) == Some(acks[k])
  {
  }

  // ----- commands -----

  /** A command as its handler understands it. Fields that the handler does not read are zero. */
  datatype Reading = Reading(
    kind: Kind, chan: byte, acknowledge: bool, rseq: u16, useq: nat, group: nat,
    fragment: (nat, nat, nat, nat), offset: nat, payload: seq<byte>)

  /** The cases of the switch, with the fields that the handlers read: handle_send_unreliable finds
      the unreliable number through queue_incoming_command. */
  function Understood(i: Item): Option<Reading>
    requires ValidItem(i)
  {
    var c, v := i.command, i.command.values;
    var r := Reading(Ping, c.channel, c.acknowledge, c.rseq, 0, 0, (0, 0, 0, 0), 0, i.payload);
    match c.number
    case 2 => Some(r.(kind := Connect))
    case 3 => Some(r.(kind := VerifyConnect))
    case 4 => Some(r.(kind := Disconnect))
    case 5 => Some(r.(kind := Ping))
    case 6 => Some(r.(kind := SendReliable))
    case 7 => Some(r.(kind := SendUnreliable, useq := v[0]))
    case 8 => Some(r.(kind := SendFragment, fragment := (v[0], v[2], v[3], v[4]), offset := v[5]))
    case 9 => Some(r.(kind := SendUnsequenced, group := v[0]))
    case 10 => Some(r.(kind := BandwidthLimit))
    case 11 => Some(r.(kind := ThrottleConfigure))
    case 12 => Some(r.(kind := SendUnreliableFragment, fragment := (v[0], v[2], v[3], v[4]), offset := v[5]))
    case _ => None
  }

  /** The payload of the command lies in its packet. */
  predicate HasSlice(c: Cmd, pkts: seq<seq<byte>>) {
    c.packet.Some? ==> c.packet.value < |pkts| && c.offset + c.len <= |pkts[c.packet.value]|
  }

  /** The payload of command `c`: its slice of the packet it points to. */
  function Slice(c: Cmd, pkts: seq<seq<byte>>): seq<byte>
    requires HasSlice(c, pkts)
  {
    if c.packet.Some? then pkts[c.packet.value][c.offset..c.offset + c.len] else []
  }

  /** Item `i` is read as command `c`: of its kind, on its channel, with its numbers, its fragment
      and its payload, and marked as unsequenced exactly if it is an unsequenced packet, or a
      goodbye that asks for no answer. */
  ghost predicate ReadAs(i: Item, c: Cmd, pkts: seq<seq<byte>>)
    requires ValidItem(i)
    requires HasSlice(c, pkts)
  {
    var fragmented := c.kind == SendFragment || c.kind == SendUnreliableFragment;
    var f := c.fragment;
    && Understood(i) == Some(Reading(
         c.kind, if c.chan < 256 then c.chan else 0xFF, c.reliable, c.rseq,
         if c.kind == SendUnreliable then c.useq else 0, if c.kind == SendUnsequenced then c.group else 0,
         if fragmented then (f.start, f.count, f.number, f.total) else (0, 0, 0, 0), if fragmented then c.offset else 0,
         Slice(c, pkts)))
    && (i.command.unsequenced <==> i.command.number == 9 || (i.command.number == 4 && !i.command.acknowledge))
  }

  lemma ItemIsRead(c: Cmd, control: Cmd -> seq<nat>, pkts: seq<seq<byte>>)
    requires Writable(c, control, pkts)
    ensures HasSlice(c, pkts) && ReadAs(ItemOf(c, control, pkts), c, pkts)
  {
    var v := ValuesOf(c, control);
    if c.kind == SendFragment || c.kind == SendUnreliableFragment {
      assert v == [c.fragment.start, c.len, c.fragment.count, c.fragment.number, c.fragment.total, c.offset];
    }
  }

  lemma ItemsAreRead(cs: seq<Cmd>, control: Cmd -> seq<nat>, pkts: seq<seq<byte>>, k: nat)
    requires AllWritable(cs, control, pkts) && k < |cs|
    ensures HasSlice(cs[k], pkts) && ReadAs(ItemsOf(cs, control, pkts)[k], cs[k], pkts)
  {
    hide Writable, ReadAs;
    ItemIsRead(cs[k], control, pkts);
  }

  /** The items are read as the acknowledgements, and then as the commands. */
  ghost predicate AllRead(items: seq<Item>, acks: seq<Acknowledgement>, cs: seq<Cmd>, pkts: seq<seq<byte>>)
    requires AllItems(items)
  {
    && |items| == |acks| + |cs|
    && (forall k | 0 <= k < |acks| :: AcknowledgementIn(items[k]) == Some(acks[k]))
    && forall k | 0 <= k < |cs| :: HasSlice(cs[k], pkts) && ReadAs(items[|acks| + k], cs[k], pkts)
  }

  lemma AllAreRead(acks: seq<Acknowledgement>, cs: seq<Cmd>, control: Cmd -> seq<nat>, pkts: seq<seq<byte>>)
    requires AllWritable(cs, control, pkts)
    ensures var items := AckItems(acks) + ItemsOf(cs, control, pkts);
      AllItems(items) && AllRead(items, acks, cs, pkts)
  {
    hide Writable, ReadAs, ValidItem, AcknowledgementIn;
    var items := AckItems(acks) + ItemsOf(cs, control, pkts);
    forall k | 0 <= k < |acks| ensures AcknowledgementIn(items[k]) == Some(acks[k]) {
      AcknowledgementsRead(acks, k);
    }
    forall k | 0 <= k < |cs| ensures HasSlice(cs[k], pkts) && ReadAs(items[|acks| + k], cs[k], pkts) {
      ItemsAreRead(cs, control, pkts, k);
    }
  }
}
