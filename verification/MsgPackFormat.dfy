/** MessagePack objects and their wire format as v1/pack.hpp writes it. */
module MsgPackFormat {
  import opened Bytes

  const MAX32: nat := 0xFFFF_FFFF
  const MAX64: nat := 0xFFFF_FFFF_FFFF_FFFF
  const MIN64: int := -0x8000_0000_0000_0000

  /** A msgpack::object. Floats are bit patterns. An extension is its type byte followed by its
      payload. A group is an array or a map; a map's items are its keys and values in turn. */
  datatype Obj =
    | Nil
    | Bool(b: bool)
    | UInt(u: nat)
    | NInt(i: int)
    | F32(bits: nat)
    | F64(bits: nat)
    | Str(s: seq<byte>)
    | Bin(s: seq<byte>)
    | Ext(s: seq<byte>)
    | Group(keyed: bool, items: seq<Obj>)

  /** Number of cells behind a container header that announces n. */
  function Cells(keyed: bool, n: nat): nat { if keyed then 2 * n else n }

  /** The number a container's header announces. */
  function Announced(keyed: bool, cells: nat): nat { if keyed then cells / 2 else cells }

  /** Objects within the format's sizes. */
  predicate Valid(x: Obj) {
    match x
    case Nil => true
    case Bool(_) => true
    case UInt(u) => u <= MAX64
    case NInt(i) => MIN64 <= i < 0
    case F32(bits) => bits <= MAX32
    case F64(bits) => bits <= MAX64
    case Str(s) => |s| <= MAX32
    case Bin(s) => |s| <= MAX32
    case Ext(s) => 1 <= |s| <= MAX32 + 1
    case Group(keyed, items) =>
      && (keyed ==> |items| % 2 == 0)
      && Announced(keyed, |items|) <= MAX32
      && AllValid(items)
  }

  predicate AllValid(items: seq<Obj>) {
    forall i | 0 <= i < |items| :: Valid(items[i])
  }

  /** pack_imp_uint64 */
  function UIntBytes(d: nat): seq<byte>
    requires d <= MAX64
  {
    if d < 0x80 then [d]
    else if d < 0x100 then [0xcc, d]
    else if d < 0x1_0000 then [0xcd] + BigEndian(d, 2)
    else if d < 0x1_0000_0000 then [0xce] + BigEndian(d, 4)
    else [0xcf] + BigEndian(d, 8)
  }

  /** pack_imp_int64 of a negative number */
  function NIntBytes(d: int): seq<byte>
    requires MIN64 <= d < 0
  {
    if d >= -0x20 then [0x100 + d]
    else if d >= -0x80 then [0xd0, 0x100 + d]
    else if d >= -0x8000 then [0xd1] + BigEndian(0x1_0000 + d, 2)
    else if d >= -0x8000_0000 then [0xd2] + BigEndian(0x1_0000_0000 + d, 4)
    else [0xd3] + BigEndian(0x1_0000_0000_0000_0000 + d, 8)
  }

  /** One integer, whatever its C++ type: the bytes depend on its value only. */
  function IntBytes(d: int): seq<byte>
    requires MIN64 <= d <= MAX64
  {
    if d < 0 then NIntBytes(d) else UIntBytes(d)
  }

  function StrHead(l: nat): seq<byte>
    requires l <= MAX32
  {
    if l < 32 then [0xa0 + l]
    else if l < 0x100 then [0xd9, l]
    else if l < 0x1_0000 then [0xda] + BigEndian(l, 2)
    else [0xdb] + BigEndian(l, 4)
  }

  function BinHead(l: nat): seq<byte>
    requires l <= MAX32
  {
    if l < 0x100 then [0xc4, l]
    else if l < 0x1_0000 then [0xc5] + BigEndian(l, 2)
    else [0xc6] + BigEndian(l, 4)
  }

  /** Everything in front of the type byte. */
  function ExtHead(l: nat): seq<byte>
    requires l <= MAX32
  {
    if l == 1 then [0xd4] else if l == 2 then [0xd5] else if l == 4 then [0xd6]
    else if l == 8 then [0xd7] else if l == 16 then [0xd8]
    else if l < 0x100 then [0xc7, l]
    else if l < 0x1_0000 then [0xc8] + BigEndian(l, 2)
    else [0xc9] + BigEndian(l, 4)
  }

  function GroupHead(keyed: bool, n: nat): seq<byte>
    requires n <= MAX32
  {
    if n < 16 then [(if keyed then 0x80 else 0x90) + n]
    else if n < 0x1_0000 then [if keyed then 0xde else 0xdc] + BigEndian(n, 2)
    else [if keyed then 0xdf else 0xdd] + BigEndian(n, 4)
  }

  function Encode(x: Obj): seq<byte>
    requires Valid(x)
    decreases x
  {
    match x
    case Nil => [0xc0]
    case Bool(b) => [if b then 0xc3 else 0xc2]
    case UInt(u) => UIntBytes(u)
    case NInt(i) => NIntBytes(i)
    case F32(bits) => [0xca] + BigEndian(bits, 4)
    case F64(bits) => [0xcb] + BigEndian(bits, 8)
    case Str(s) => StrHead(|s|) + s
    case Bin(s) => BinHead(|s|) + s
    case Ext(s) => ExtHead(|s| - 1) + s
    case Group(keyed, items) => GroupHead(keyed, Announced(keyed, |items|)) + EncodeAll(items)
  }

  function EncodeAll(items: seq<Obj>): seq<byte>
    requires AllValid(items)
    decreases items
  {
    if items == [] then [] else Encode(items[0]) + EncodeAll(items[1..])
  }
}
