/** Machine integer types, the shared enums of all three devices and their
    one-byte wire encodings (ego_common.h). */
module Common {

  type uint8 = x: int | 0 <= x < 0x100
  type int8 = x: int | -0x80 <= x < 0x80
  type uint16 = x: int | 0 <= x < 0x1_0000
  type int16 = x: int | -0x8000 <= x < 0x8000
  type uint32 = x: int | 0 <= x < 0x1_0000_0000

  /** The contents of a byte buffer or datagram. */
  type Bytes = seq<uint8>

  datatype Option<T> = None | Some(value: T)

  /** The value of an option as a sequence of at most one element. */
  function SeqOf<T>(o: Option<T>): seq<T> {
    if o.Some? then [o.value] else []
  }

  function Min(a: int, b: int): int {
    if a < b then a else b
  }

  /** Conversion of any integer to uint16: reduction modulo 2^16. */
  function ToUint16(x: int): (r: uint16)
    ensures (r - x) % 0x1_0000 == 0
    ensures 0 <= x < 0x1_0000 ==> r == x
  {
    x % 0x1_0000
  }

  /** Conversion of any integer to uint8: reduction modulo 2^8. */
  function ToUint8(x: int): (r: uint8)
    ensures (r - x) % 0x100 == 0
    ensures 0 <= x < 0x100 ==> r == x
  {
    x % 0x100
  }

  /** Two's complement conversion of any integer to int16. */
  function ToInt16(x: int): (r: int16)
    ensures (r - x) % 0x1_0000 == 0
    ensures -0x8000 <= x < 0x8000 ==> r == x
  {
    var w := x % 0x1_0000;
    if w >= 0x8000 then w - 0x1_0000 else w
  }

  /** Two's complement reading of a byte as int8. */
  function ToInt8(b: uint8): (r: int8)
    ensures ToUint8(r) == b
  {
    if b >= 0x80 then b - 0x100 else b
  }

  lemma Int8ByteRoundTrip(x: int8)
    ensures ToInt8(ToUint8(x)) == x
  {
  }

  /** Intent: the driving mode the robot should be in. */
  datatype Intent = Stop | StartManu | StartAuto | Quit

  /** Press: what a button recogniser reports for one tick. */
  datatype Press = No | Short | Long | Double

  function IntentByte(i: Intent): uint8 {
    match i
    case Stop => 0
    case StartManu => 1
    case StartAuto => 2
    case Quit => 3
  }

  /** Decoding of an intent byte; bytes outside the enum give None. */
  function IntentOfByte(b: uint8): (r: Option<Intent>)
    ensures r.Some? <==> b < 4
    ensures r.Some? ==> IntentByte(r.value) == b
  {
    if b == 0 then Some(Stop)
    else if b == 1 then Some(StartManu)
    else if b == 2 then Some(StartAuto)
    else if b == 3 then Some(Quit)
    else None
  }

  function PressByte(p: Press): uint8 {
    match p
    case No => 0
    case Short => 1
    case Long => 2
    case Double => 3
  }

  /** Decoding of a press byte; bytes outside the enum give None. */
  function PressOfByte(b: uint8): (r: Option<Press>)
    ensures r.Some? <==> b < 4
    ensures r.Some? ==> PressByte(r.value) == b
  {
    if b == 0 then Some(No)
    else if b == 1 then Some(Short)
    else if b == 2 then Some(Long)
    else if b == 3 then Some(Double)
    else None
  }

  lemma IntentByteRoundTrip(i: Intent)
    ensures IntentOfByte(IntentByte(i)) == Some(i)
  {
  }

  lemma PressByteRoundTrip(p: Press)
    ensures PressOfByte(PressByte(p)) == Some(p)
  {
  }

  /** The LED colours the devices show (CRGB constants). */
  datatype Color = Black | Red | Yellow | Green | Blue | White | Orange

  /** Topic identifiers shared by all devices. */
  const TopicRange: uint32 := 52
  const TopicJoystick: uint32 := 53
  const TopicIntent: uint32 := 54
  const TopicPress: uint32 := 55

  /** The range sensor's "no measurement" sentinel, all ones in 16 bits. */
  const UndefRange: uint16 := 0xFFFF

  /** A 16-bit value as its two bytes, low byte first (the devices are little-endian). */
  function Uint16Bytes(v: uint16): (b: Bytes)
    ensures |b| == 2
  {
    [v % 0x100, v / 0x100]
  }

  function Uint16OfBytes(b: Bytes): uint16
    requires |b| == 2
  {
    b[0] as int + 0x100 * b[1] as int
  }

  lemma Uint16BytesRoundTrip(v: uint16)
    ensures Uint16OfBytes(Uint16Bytes(v)) == v
  {
  }

  /** The joystick payload: x and y as bytes, then the button flag as 0 or 1. */
  function JoystickBytes(x: int8, y: int8, btn: bool): (b: Bytes)
    ensures |b| == 3
  {
    [ToUint8(x), ToUint8(y), if btn then 1 else 0]
  }

  /** The drive unit's reading of a joystick buffer: the first two bytes as int8. */
  function JoystickAxes(b: Bytes): (int8, int8)
    requires |b| >= 2
  {
    (ToInt8(b[0]), ToInt8(b[1]))
  }

  /** Decoding the joystick payload recovers both axes. */
  lemma JoystickRoundTrip(x: int8, y: int8, btn: bool)
    ensures JoystickAxes(JoystickBytes(x, y, btn)) == (x, y)
  {
    Int8ByteRoundTrip(x);
    Int8ByteRoundTrip(y);
  }
}
