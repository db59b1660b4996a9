/** The server's packets: a length, a packed header and packed data in one byte string, as
    createPacket builds it and parsePacket takes it apart, on its own and after the journey
    through fragmentation, the network and reassembly. */
module PacketFraming {
  import opened Bytes
  import opened Options
  import opened MsgPackFormat
  import opened MsgPackLexer
  import opened MsgPackDecode
  import opened PacketNumbers
  import opened SeqNumbers
  import R = EnetReceiver
  import RI = ReceiverInvariants
  import D = EnetDelivery
  import DP = DeliveryProof

  const MAX_INT64: int := 0x7FFF_FFFF_FFFF_FFFF

  datatype PacketHeader = PacketHeader(packetTypeId: nat, timestamp: int)

  predicate HeaderOk(h: PacketHeader) { h.packetTypeId < 0x1_0000 && MIN64 <= h.timestamp <= MAX_INT64 }

  /** What packing an integer member makes of it. */
  function IntObject(i: int): Obj { if i < 0 then NInt(i) else UInt(i) }

  /** MSGPACK_DEFINE_ARRAY(packetTypeId, timestamp) */
  function HeaderObject(h: PacketHeader): Obj {
    Group(false, [IntObject(h.packetTypeId), IntObject(h.timestamp)])
  }

  /** A uint32_t in memory, least significant byte first. */
  function LittleEndian4(n: nat): seq<byte> {
    [LowByte(n), LowByte(n / 0x100), LowByte(n / 0x1_0000), LowByte(n / 0x100_0000)]
  }

  function LowByte(n: nat): byte { n % 0x100 }

  function FromLittleEndian4(s: seq<byte>): nat
    requires |s| >= 4
  {
    var a: nat, b: nat, c: nat, d: nat := s[0], s[1], s[2], s[3];
    a + 0x100 * b + 0x1_0000 * c + 0x100_0000 * d
  }

  /** The bytes of a number in memory are those on the network in reverse. */
  lemma LeastFirst(n: nat, i: nat)
    requires i < 4
    ensures LittleEndian4(n)[i] == BigEndian(n, 4)[3 - i]
  {
    assert n / 0x100 / 0x100 == n / 0x1_0000 && n / 0x100 / 0x100 / 0x100 == n / 0x100_0000;
    BigEndianDigits(n);
  }

  lemma BigEndianDigits(n: nat)
    ensures BigEndian(n, 4) == [n / 256 / 256 / 256 % 256, n / 256 / 256 % 256, n / 256 % 256, n % 256]
  {
    assert BigEndian(n / 256 / 256 / 256 / 256, 0) == [];
    assert BigEndian(n / 256 / 256 / 256, 1) == [n / 256 / 256 / 256 % 256];
    assert BigEndian(n / 256 / 256, 2) == [n / 256 / 256 / 256 % 256, n / 256 / 256 % 256];
    assert BigEndian(n / 256, 3) == [n / 256 / 256 / 256 % 256, n / 256 / 256 % 256, n / 256 % 256];
  }

  /** The header that goes out: a negative time stamp stands for the clock's. */
  function Stamped(packetType: nat, timestamp: int, now: nat): PacketHeader {
    PacketHeader(packetType, if timestamp < 0 then now else timestamp)
  }

  /** createPacket; `data` is empty for createEmptyPacket. The bytes are appended part by part. They
      are taken apart to the type, the time stamp that was given, or the clock's for a negative one,
      and the packed data. */
  method CreatePacket(packetType: nat, data: seq<Obj>, timestamp: int, now: nat) returns (bytes: seq<byte>)
    requires packetType < 0x1_0000 && timestamp <= MAX_INT64 && now <= MAX_INT64
    requires |data| <= 1 && AllValid(data)
    ensures bytes == Framed(Stamped(packetType, timestamp, now), EncodeAll(data))
    ensures forall before: PacketHeader :: |EncodeAll(data)| < 0x1_0000_0000 ==>
      ParseResult(bytes, before) == Parsed(PacketHeader(packetType, if timestamp >= 0 then timestamp else now), EncodeAll(data))
  {
    hide ParseResult;
    var stamp := timestamp;
    if stamp < 0 { stamp := now; }
    var header := PacketHeader(packetType, stamp);
    HeaderPacks(header);
    var headerBuf := Encode(HeaderObject(header));
    bytes := [];
    bytes := bytes + LittleEndian4(|headerBuf|);
    bytes := bytes + headerBuf;
    if data != [] {
      assert data == [data[0]];
      bytes := bytes + Encode(data[0]);
      assert EncodeAll(data) == Encode(data[0]) + EncodeAll(data[1..]);
    }
    assert bytes == Framed(header, EncodeAll(data));
    forall before: PacketHeader | |EncodeAll(data)| < 0x1_0000_0000
      ensures ParseResult(bytes, before) == Parsed(header, EncodeAll(data))
    {
      ParseUndoesFraming(header, EncodeAll(data), before);
    }
  }

  function Framed(h: PacketHeader, payload: seq<byte>): seq<byte>
    requires HeaderOk(h)
  {
    HeaderPacks(h);
    var head := Encode(HeaderObject(h));
    LittleEndian4(|head|) + head + payload
  }

  lemma HeaderPacks(h: PacketHeader)
    requires HeaderOk(h)
    ensures Valid(HeaderObject(h)) && 3 <= |Encode(HeaderObject(h))| <= 13
  {
    var items := HeaderObject(h).items;
    assert EncodeAll(items[1..][1..]) == [];
    assert EncodeAll(items[1..]) == Encode(items[1]);
    assert EncodeAll(items) == Encode(items[0]) + Encode(items[1]);
  }

  // ----- taking a packet apart -----

  /** parsePacket's result. `Nothing` is that for a packet already destroyed; `Beyond` stands for
      packets whose header length points outside them, where the code reads past their end;
      `Throws` for an exception of unpack or convert. */
  datatype Parsed = Parsed(header: PacketHeader, rawData: seq<byte>) | Nothing | Throws | Beyond

  function ConvertedId(x: Obj): Option<nat> { if x.UInt? && x.u < 0x1_0000 then Some(x.u) else None }

  function ConvertedTime(x: Obj): Option<int> {
    if x.UInt? && x.u <= MAX_INT64 then Some(x.u) else if x.NInt? then Some(x.i) else None
  }

  /** Conversion of an array to the header: of a shorter array the members that are missing stay as
      they were `before`, of a longer one the rest is ignored. */
  function Converted(x: Obj, before: PacketHeader): Option<PacketHeader> {
    if !x.Group? || x.keyed then None
    else
      var id := if |x.items| > 0 then ConvertedId(x.items[0]) else Some(before.packetTypeId);
      var time := if |x.items| > 1 then ConvertedTime(x.items[1]) else Some(before.timestamp);
      if id.Some? && time.Some? then Some(PacketHeader(id.value, time.value)) else None
  }

  /** The conversion succeeds exactly for arrays whose first item, if any, is a 16-bit number, and whose
      second, if any, a 64-bit signed one. */
  lemma ConvertsExactly(x: Obj, before: PacketHeader)
    ensures Converted(x, before).Some? <==>
      && x.Group? && !x.keyed
      && (|x.items| >= 1 ==> x.items[0].UInt? && x.items[0].u <= 0xFFFF)
      && (|x.items| >= 2 ==> x.items[1].NInt? || (x.items[1].UInt? && x.items[1].u <= 0x7FFF_FFFF_FFFF_FFFF))
  {
  }

  function ParseResult(packet: seq<byte>, before: PacketHeader): Parsed {
    if |packet| < 4 || FromLittleEndian4(packet) > |packet| - 4 then Beyond
    else
      var n := FromLittleEndian4(packet);
      match Decode(packet[4..4 + n])
      case Ok(x, _) =>
        var h := Converted(x, before);
        if h.None? then Throws
        else Parsed(h.value, packet[4 + n..4 + n + (|packet| - 4 - n) % 0x1_0000_0000])
      case _ => Throws
  }

  /** parsePacket: the data pointer moves past the length, then past the header. */
  method ParsePacket(enetPacket: Option<seq<byte>>, before: PacketHeader) returns (r: Parsed)
    ensures r == if enetPacket.None? then Nothing else ParseResult(enetPacket.value, before)
  {
    hide Decode, FromLittleEndian4, Converted;
    if enetPacket.None? { return Nothing; }
    var packet, data := enetPacket.value, 0;
    if |packet| < 4 { return Beyond; }
    var headerLength := FromLittleEndian4(packet);
    data := data + 4;
    if data + headerLength > |packet| { return Beyond; }
    var unpacked := Decode(packet[data..data + headerLength]);
    if !unpacked.Ok? { return Throws; }
    var header := Converted(unpacked.value, before);
    if header.None? { return Throws; }
    data := data + headerLength;
    var dataLength := (|packet| - 4 - headerLength) % 0x1_0000_0000;
    var rawData := [];
    if dataLength > 0 { rawData := packet[data..data + dataLength]; }
    r := Parsed(header.value, rawData);
  }

  lemma LittleEndianRoundTrip(n: nat, t: seq<byte>)
    requires n < 0x1_0000
    ensures FromLittleEndian4(LittleEndian4(n) + t) == n
  {
  }

  lemma HeaderReadsBack(h: PacketHeader, before: PacketHeader)
    requires HeaderOk(h)
    ensures var s := Encode(HeaderObject(h));
      Decode(s) == Ok(HeaderObject(h), |s|) && Converted(HeaderObject(h), before) == Some(h)
    ensures HeaderObject(h).items[0] == UInt(h.packetTypeId)
    ensures HeaderObject(h).items[1] == if h.timestamp < 0 then NInt(h.timestamp) else UInt(h.timestamp)
  {
    HeaderPacks(h);
    var s := Encode(HeaderObject(h));
    assert s + [] == s;
    RoundTrip(HeaderObject(h), []);
  }

  /** Taking a framed packet apart gives back its header and its payload exactly when the payload
      is shorter than 2^32 bytes: parsePacket keeps the payload's length in 32 bits. */
  lemma ParseUndoesFraming(h: PacketHeader, payload: seq<byte>, before: PacketHeader)
    requires HeaderOk(h)
    ensures ParseResult(Framed(h, payload), before) == Parsed(h, payload) <==> |payload| < 0x1_0000_0000
  {
    hide Decode, Encode, Converted, FromLittleEndian4, LittleEndian4;
    HeaderPacks(h);
    HeaderReadsBack(h, before);
    var head, packet := Encode(HeaderObject(h)), Framed(h, payload);
    assert |LittleEndian4(|head|)| == 4 by { FourBytes(|head|); }
    assert packet == LittleEndian4(|head|) + (head + payload);
    LittleEndianRoundTrip(|head|, head + payload);
    assert packet[4..4 + |head|] == head && packet[4 + |head|..] == payload;
    if |payload| < 0x1_0000_0000 {
      assert packet[4 + |head|..4 + |head| + |payload|] == payload;
    }
  }

  lemma FourBytes(n: nat)
    ensures |LittleEndian4(n)| == 4
  {
  }

  // ----- the whole way -----

  /** The entry under reassembly after the parts `js` have arrived in this order. */
  function Assembled(c: R.InCmd, pkt: seq<byte>, limit: nat, js: seq<nat>): R.InCmd
    requires limit > 0 && |pkt| > limit && |c.data| == |pkt| && |c.bits| == Parts(|pkt|, limit)
    requires forall x | 0 <= x < |js| :: js[x] < Parts(|pkt|, limit)
    decreases |js|
  {
    if js == [] then c
    else
      PieceBounds(|pkt|, limit, js[0]);
      var c' := R.Store(c, js[0], PieceStart(limit, js[0]), pkt[PieceStart(limit, js[0])..PieceEnd(|pkt|, limit, js[0])]);
      Assembled(c', pkt, limit, js[1..])
  }

  lemma {:induction false} AssembledHolds(c: R.InCmd, pkt: seq<byte>, limit: nat, js: seq<nat>)
    requires limit > 0 && |pkt| > limit && RI.Holds(c, pkt, limit)
    requires forall x | 0 <= x < |js| :: js[x] < Parts(|pkt|, limit)
    ensures var c' := Assembled(c, pkt, limit, js);
      && RI.Holds(c', pkt, limit)
      && forall j | 0 <= j < |c'.bits| :: c'.bits[j] <==> c.bits[j] || j in js
    decreases |js|
  {
    if js != [] {
      RI.StoreHolds(c, pkt, limit, js[0]);
      PieceBounds(|pkt|, limit, js[0]);
      var c1 := R.Store(c, js[0], PieceStart(limit, js[0]), pkt[PieceStart(limit, js[0])..PieceEnd(|pkt|, limit, js[0])]);
      AssembledHolds(c1, pkt, limit, js[1..]);
      assert forall j: nat :: j in js <==> j == js[0] || j in js[1..];
    }
  }

  /** A framed packet cut into fragments that arrive in any order, any number of times: nothing is
      missing exactly when every fragment has come, and then parsePacket finds the header and the
      payload that went in. */
  lemma FramedThroughFragments(h: PacketHeader, payload: seq<byte>, limit: nat, s: u16, js: seq<nat>,
                               before: PacketHeader)
    requires HeaderOk(h) && 0 < limit < |Framed(h, payload)| && |payload| < 0x1_0000_0000
    requires forall x | 0 <= x < |js| :: js[x] < Parts(|Framed(h, payload)|, limit)
    ensures var pkt := Framed(h, payload); var parts := Parts(|pkt|, limit);
      && |R.Blank(s, parts, |pkt|).data| == |pkt| && |R.Blank(s, parts, |pkt|).bits| == parts
      && var c := Assembled(R.Blank(s, parts, |pkt|), pkt, limit, js);
         && (c.remaining == 0 <==> forall j | 0 <= j < parts :: j in js)
         && (c.remaining == 0 ==> ParseResult(c.data, before) == Parsed(h, payload))
  {
    hide ParseResult, Framed;
    var pkt := Framed(h, payload);
    var blank := R.Blank(s, Parts(|pkt|, limit), |pkt|);
    RI.BlankHolds(s, pkt, limit);
    AssembledHolds(blank, pkt, limit, js);
    var c := Assembled(blank, pkt, limit, js);
    RI.ClearZero(c.bits);
    if c.remaining == 0 {
      RI.CompleteIsOriginal(c, pkt, limit);
      ParseUndoesFraming(h, payload, before);
    }
  }

  /** What the application sends: headers with objects, framed. */
  ghost predicate Frames(pkts: seq<seq<byte>>, headers: seq<PacketHeader>, objects: seq<Obj>) {
    && |headers| == |objects| == |pkts|
    && forall i | 0 <= i < |pkts| ::
         && HeaderOk(headers[i]) && Valid(objects[i]) && |Encode(objects[i])| < 0x1_0000_0000
         && pkts[i] == Framed(headers[i], Encode(objects[i]))
  }

  /** End to end: in every run over the unreliable network, the i-th packet the server takes
      parses to the i-th header sent, and its raw data decodes to the i-th object. */
  lemma FramedDelivery(e: D.Env, trace: seq<D.System>, steps: seq<D.Step>, headers: seq<PacketHeader>,
                       objects: seq<Obj>, t: nat, i: nat, before: PacketHeader)
    requires D.ValidEnv(e) && D.Run(e, trace, steps) && t < |trace| && Frames(e.pkts, headers, objects)
    requires i < |trace[t].received|
    ensures i < |headers| && i < |objects|
    ensures var r := ParseResult(trace[t].received[i], before);
      && r.Parsed? && r.header == headers[i]
      && Decode(r.rawData) == Ok(objects[i], |r.rawData|)
  {
    hide ParseResult, Framed, Decode;
    DP.ReliableDelivery(e, trace, steps, t);
    var s := trace[t];
    assert s.received[i] == (s.received + s.r.dispatched)[i] == e.pkts[i];
    ParseUndoesFraming(headers[i], Encode(objects[i]), before);
    assert Encode(objects[i]) + [] == Encode(objects[i]);
    RoundTrip(objects[i], []);
  }
}
