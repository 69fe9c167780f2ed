/**
  The commands that the test board sends: their bytes, and how the device reads them. The
  reader follows the layout of the command structure and not the way the bytes are made.
*/
module Commands {
  import opened Division
  import opened Options
  import opened Pins
  import opened Words

  datatype Command =
    | GetInfo | TestMode | SetPins(levels: Mask) | OptionBytes | TestHeaders | OscOn | OscOff | Led(on: bool)

  // -- The bytes as the program makes them -----------------------------------------------

  function Bit(m: Mask, p: Pin, weight: nat): nat { if p in m then weight else 0 }

  function PinByte(m: Mask, k: nat): byte
    requires k < 8
  {
    Bit(m, 8 * k, 1) + Bit(m, 8 * k + 1, 2) + Bit(m, 8 * k + 2, 4) + Bit(m, 8 * k + 3, 8)
    + Bit(m, 8 * k + 4, 16) + Bit(m, 8 * k + 5, 32) + Bit(m, 8 * k + 6, 64) + Bit(m, 8 * k + 7, 128)
  }

  /** A test-mode command: its number and 28 bytes of arguments. */
  function Packed(cmd: byte, pins: seq<byte>): seq<byte>
    requires |pins| == 8
  {
    [cmd, 0, 0, 0] + pins + [0, 0, 0, 0, 0, 0, 0, 0, 0, 0, 0, 0, 0, 0, 0, 0, 0, 0, 0, 0]
  }

  const NO_PINS: seq<byte> := [0, 0, 0, 0, 0, 0, 0, 0]

  function Encoded(c: Command): seq<byte> {
    match c
    case GetInfo => [0, 3, 0]
    case TestMode => [21, 10, 0x4e, 0x4b, 0x50, 0x6e, 0xd3, 0x10, 0x29, 0x38]
    case SetPins(m) => Packed(1, [PinByte(m, 0), PinByte(m, 1), PinByte(m, 2), PinByte(m, 3),
                                  PinByte(m, 4), PinByte(m, 5), PinByte(m, 6), PinByte(m, 7)])
    case OptionBytes => Packed(0, NO_PINS)
    case TestHeaders => Packed(3, NO_PINS)
    case OscOn => Packed(4, NO_PINS)
    case OscOff => Packed(5, NO_PINS)
    case Led(on) => Packed(2, [if on then 1 else 0, 0, 0, 0, 0, 0, 0, 0])
  }

  /** How many bytes the answer to a command has. */
  function Expected(c: Command): nat {
    match c
    case GetInfo => 34
    case TestMode => 2
    case _ => 32
  }

  // -- The bytes as the device reads them ------------------------------------------------

  /** The word at a place, least significant byte first. */
  function WordAt(bytes: seq<nat>, k: nat): nat
    requires k + 4 <= |bytes|
  {
    bytes[k] + 0x100 * bytes[k + 1] + 0x1_0000 * bytes[k + 2] + 0x100_0000 * bytes[k + 3]
  }

  function Power2(k: nat): (r: nat)
    ensures 0 < r
  {
    if k == 0 then 1 else 2 * Power2(k - 1)
  }

  /** Pin p is bit p % 8 of byte p / 8 of the arguments. */
  predicate PinIsSet(bytes: seq<byte>, p: Pin)
    requires |bytes| == 32
  {
    bytes[4 + p / 8] / Power2(p % 8) % 2 == 1
  }

  /** A command in normal mode names its own length; one in test mode is a whole structure. */
  function Decode(bytes: seq<byte>): Option<Command> {
    if |bytes| == 32 then
      match WordAt(bytes, 0)
      case 0 => Some(OptionBytes)
      case 1 => Some(SetPins(set p: Pin | PinIsSet(bytes, p)))
      case 2 => Some(Led(bytes[4] != 0))
      case 3 => Some(TestHeaders)
      case 4 => Some(OscOn)
      case 5 => Some(OscOff)
      case _ => None
    else if |bytes| < 2 || bytes[1] != |bytes| then None
    else if bytes[0] == 0 then Some(GetInfo)
    else if bytes[0] == 21 then Some(TestMode)
    else None
  }

  // -- They agree ------------------------------------------------------------------------

  /** The bit of a sum of distinct powers of two. */
  lemma BitOf(low: nat, w: nat, bit: nat, high: nat)
    requires low < w && bit < 2
    ensures (low + w * (bit + 2 * high)) / w % 2 == bit
  {
    DivUnique(low + w * (bit + 2 * high), w, bit + 2 * high, low);
  }

  predicate AreBits(b: seq<nat>) { |b| == 8 && forall k :: 0 <= k < 8 ==> b[k] < 2 }

  function Sum(b: seq<nat>): nat
    requires |b| == 8
  {
    b[0] + 2 * b[1] + 4 * b[2] + 8 * b[3] + 16 * b[4] + 32 * b[5] + 64 * b[6] + 128 * b[7]
  }

  lemma LowBits(b: seq<nat>)
    requires AreBits(b)
    ensures Sum(b) / 1 % 2 == b[0] && Sum(b) / 2 % 2 == b[1] && Sum(b) / 4 % 2 == b[2] && Sum(b) / 8 % 2 == b[3]
  {
    BitOf(0, 1, b[0], b[1] + 2 * b[2] + 4 * b[3] + 8 * b[4] + 16 * b[5] + 32 * b[6] + 64 * b[7]);
    BitOf(b[0], 2, b[1], b[2] + 2 * b[3] + 4 * b[4] + 8 * b[5] + 16 * b[6] + 32 * b[7]);
    BitOf(b[0] + 2 * b[1], 4, b[2], b[3] + 2 * b[4] + 4 * b[5] + 8 * b[6] + 16 * b[7]);
    BitOf(b[0] + 2 * b[1] + 4 * b[2], 8, b[3], b[4] + 2 * b[5] + 4 * b[6] + 8 * b[7]);
  }

  lemma HighBits(b: seq<nat>)
    requires AreBits(b)
    ensures Sum(b) / 16 % 2 == b[4] && Sum(b) / 32 % 2 == b[5] && Sum(b) / 64 % 2 == b[6] && Sum(b) / 128 % 2 == b[7]
  {
    BitOf(b[0] + 2 * b[1] + 4 * b[2] + 8 * b[3], 16, b[4], b[5] + 2 * b[6] + 4 * b[7]);
    BitOf(b[0] + 2 * b[1] + 4 * b[2] + 8 * b[3] + 16 * b[4], 32, b[5], b[6] + 2 * b[7]);
    BitOf(b[0] + 2 * b[1] + 4 * b[2] + 8 * b[3] + 16 * b[4] + 32 * b[5], 64, b[6], b[7]);
    BitOf(b[0] + 2 * b[1] + 4 * b[2] + 8 * b[3] + 16 * b[4] + 32 * b[5] + 64 * b[6], 128, b[7], 0);
  }

  lemma Powers()
    ensures Power2(0) == 1 && Power2(1) == 2 && Power2(2) == 4 && Power2(3) == 8
    ensures Power2(4) == 16 && Power2(5) == 32 && Power2(6) == 64 && Power2(7) == 128
  {
  }

  function Bits(m: Mask, k: nat): (b: seq<nat>)
    requires k < 8
  {
    [Bit(m, 8 * k, 1), Bit(m, 8 * k + 1, 1), Bit(m, 8 * k + 2, 1), Bit(m, 8 * k + 3, 1),
     Bit(m, 8 * k + 4, 1), Bit(m, 8 * k + 5, 1), Bit(m, 8 * k + 6, 1), Bit(m, 8 * k + 7, 1)]
  }

  lemma PinByteIsSum(m: Mask, k: nat)
    requires k < 8
    ensures AreBits(Bits(m, k)) && PinByte(m, k) == Sum(Bits(m, k))
  {
  }

  lemma PinByteBit(m: Mask, k: nat, i: nat)
    requires k < 8 && i < 8
    ensures PinByte(m, k) / Power2(i) % 2 == 1 <==> 8 * k + i in m
  {
    PinByteIsSum(m, k);
    hide PinByte, Sum, Power2, AreBits;
    var b := Bits(m, k);
    LowBits(b);
    HighBits(b);
    Powers();
    assert b[i] == Bit(m, 8 * k + i, 1);
  }

  lemma PackedIs(cmd: byte, pins: seq<byte>)
    requires |pins| == 8
    ensures var bytes := Packed(cmd, pins);
            && |bytes| == 32 && bytes[..4] == [cmd, 0, 0, 0] && WordAt(bytes, 0) == cmd
            && bytes[4..12] == pins && forall k :: 12 <= k < 32 ==> bytes[k] == 0
  {
  }

  function PinBytes(m: Mask): seq<byte> { seq(8, k requires 0 <= k < 8 => PinByte(m, k)) }

  lemma PinCommandIs(m: Mask)
    ensures Encoded(SetPins(m)) == Packed(1, PinBytes(m))
  {
    hide PinByte;
  }

  /** A pin command is 32 bytes long and has number 1, and pin p is driven high exactly if
      bit p % 8 of the byte p / 8 behind the number is set. */
  lemma PinBitIff(m: Mask, p: Pin)
    ensures var bytes := Encoded(SetPins(m));
            && |bytes| == 32 && bytes[..4] == [1, 0, 0, 0] && (forall k :: 12 <= k < 32 ==> bytes[k] == 0)
            && (bytes[4 + p / 8] / Power2(p % 8) % 2 == 1 <==> p in m)
  {
    hide Encoded, Packed, PinByte, Power2;
    PinCommandIs(m);
    PackedIs(1, PinBytes(m));
    var bytes, k := Encoded(SetPins(m)), p / 8;
    assert bytes[4 + k] == bytes[4..12][k] == PinByte(m, k);
    PinByteBit(m, k, p % 8);
  }

  lemma PinByteOfOneLow(p: Pin, k: nat)
    requires k < 8
    ensures PinByte(ALL_HIGH, k) == 0xff
    ensures PinByte(OneLow(p), k) == if k == p / 8 then 0xff - Power2(p % 8) else 0xff
  {
    Powers();
    hide Power2;
  }

  /** The message of cmd_set_pin: every pin high, but for one if there is one. */
  method PinMessage(pin: int) returns (message: seq<byte>)
    requires -1 <= pin < 64
    ensures message == Encoded(SetPins(if pin >= 0 then OneLow(pin) else ALL_HIGH))
  {
    var pins: seq<byte> := [0xff, 0xff, 0xff, 0xff, 0xff, 0xff, 0xff, 0xff];
    hide Encoded, Packed, PinByte, Power2, ALL_HIGH, OneLow;
    ghost var p: Pin := if pin >= 0 then pin else 0;
    PinByteOfOneLow(p, p / 8);
    if pin >= 0 {
      pins := pins[pin / 8 := pins[pin / 8] - Power2(pin % 8)];
    }
    message := Packed(1, pins);
    ghost var m := if pin >= 0 then OneLow(pin) else ALL_HIGH;
    forall k | 0 <= k < 8 ensures pins[k] == PinByte(m, k) {
      PinByteOfOneLow(p, k);
    }
    assert pins == PinBytes(m);
    PinCommandIs(m);
  }

  lemma DecodePins(m: Mask)
    ensures Decode(Encoded(SetPins(m))) == Some(SetPins(m))
  {
    hide Encoded, Packed, PinByte, Power2, WordAt;
    var bytes := Encoded(SetPins(m));
    PinCommandIs(m);
    PackedIs(1, PinBytes(m));
    forall p: Pin ensures PinIsSet(bytes, p) <==> p in m {
      PinBitIff(m, p);
    }
    hide PinIsSet;
    assert (set p: Pin | PinIsSet(bytes, p)) == m;
  }

  /** The device reads every command back from its bytes. */
  lemma DecodeEncoded(c: Command)
    ensures Decode(Encoded(c)) == Some(c)
  {
    match c
    case GetInfo =>
    case TestMode =>
    case SetPins(m) => DecodePins(m);
    case OptionBytes => PackedIs(0, NO_PINS);
    case TestHeaders => PackedIs(3, NO_PINS);
    case OscOn => PackedIs(4, NO_PINS);
    case OscOff => PackedIs(5, NO_PINS);
    case Led(on) =>
      var pins: seq<byte> := [if on then 1 else 0, 0, 0, 0, 0, 0, 0, 0];
      PackedIs(2, pins);
      assert Encoded(c)[4] == Encoded(c)[4..12][0];
  }
}
