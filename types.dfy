/** Vocabulary shared by the decoder: bytes, reason codes, packet and payload types, and
    the typed values that the property and payload readers hand to the configuration. */
module MqttTypes {

  type byte = bv8

  /** A property identifier is the single byte that tags each property (section 2.2.2.2
      of MQTT Version 5.0). */
  type PropertyId = byte

  /** The one-byte reason codes of section 2.4 of MQTT Version 5.0. Collaborators may
      return any of them, so the type is the whole byte range; the decoder itself only
      produces the four named below. */
  newtype ReasonCode = x: int | 0 <= x < 256

  const Success: ReasonCode := 0x00
  const MalformedPacket: ReasonCode := 0x81
  const ProtocolError: ReasonCode := 0x82
  const UnsupportedProtocolVersion: ReasonCode := 0x84

  /** The narrow ok/fail outcome used where no reason needs to travel back. */
  datatype ReturnCode = Ok | Fail

  /** Control packet types (section 2.1.2 of MQTT Version 5.0) plus the decoder's own
      UNKNOWN, the type of a packet not yet classified. */
  datatype PacketType =
    | Reserved | Connect | Connack | Publish | Puback | Pubrec | Pubrel | Pubcomp
    | Subscribe | Suback | Unsubscribe | Unsuback | Pingreq | Pingresp | Disconnect | Auth
    | Unknown
  {
    /** The value carried in the high nibble of the control byte; UNKNOWN has none. */
    function Code(): (n: nat)
      requires !Unknown?
      ensures n < 16
    {
      match this
      case Reserved => 0
      case Connect => 1
      case Connack => 2
      case Publish => 3
      case Puback => 4
      case Pubrec => 5
      case Pubrel => 6
      case Pubcomp => 7
      case Subscribe => 8
      case Suback => 9
      case Unsubscribe => 10
      case Unsuback => 11
      case Pingreq => 12
      case Pingresp => 13
      case Disconnect => 14
      case Auth => 15
    }
  }

  /** The packet type whose value is the nibble `n`. */
  function TypeOfNibble(n: bv8): (t: PacketType)
    requires n < 16
    ensures !t.Unknown? && t.Code() == n as nat
  {
    if n == 0 then Reserved
    else if n == 1 then Connect
    else if n == 2 then Connack
    else if n == 3 then Publish
    else if n == 4 then Puback
    else if n == 5 then Pubrec
    else if n == 6 then Pubrel
    else if n == 7 then Pubcomp
    else if n == 8 then Subscribe
    else if n == 9 then Suback
    else if n == 10 then Unsubscribe
    else if n == 11 then Unsuback
    else if n == 12 then Pingreq
    else if n == 13 then Pingresp
    else if n == 14 then Disconnect
    else Auth
  }

  /** The flag nibble that CONNECT and CONNACK must carry (section 2.1.3). */
  const ConnectFlagNibble: bv8 := 0x0
  const ConnackFlagNibble: bv8 := 0x0

  /** The fields of a CONNECT payload (section 3.1.3) and the marker of an unused slot. */
  datatype PayloadType =
    | ClientId | WillProperties | WillTopic | WillPayload | UserName | Password
    | UnknownPayload
  {
    /** The slot a field occupies in the packet's slot array: the payload order of
        section 3.1.3. */
    function Slot(): (i: nat)
      requires !UnknownPayload?
      ensures i < 6
    {
      match this
      case ClientId => 0
      case WillProperties => 1
      case WillTopic => 2
      case WillPayload => 3
      case UserName => 4
      case Password => 5
    }
  }

  /** The value shapes a property can take (section 2.2.2.2). */
  datatype PropertyValue =
    | ByteValue(b: byte)
    | TwoByteInteger(n: nat)
    | FourByteInteger(n: nat)
    | VariableByteInteger(n: nat)
    | Utf8String(s: seq<byte>)
    | BinaryData(d: seq<byte>)
    | Utf8StringPair(key: seq<byte>, value: seq<byte>)

  datatype Property = Property(id: PropertyId, value: PropertyValue)

  /** A decoded payload field: its kind and its bytes (string or binary data). */
  datatype Payload = Payload(kind: PayloadType, data: seq<byte>)

  /** What a variable byte integer reader reports: the value and the bytes it took. */
  datatype VarIntRead = VarIntOk(value: nat, size: nat) | VarIntMalformed

  /** What a property or payload reader reports: a reason code and, on SUCCESS, the value
      read and the number of bytes it took. */
  datatype Extracted<T> = Extracted(code: ReasonCode, value: T, size: nat)

  /** `n` zero bytes: what memset and vector growth leave behind. */
  function Zeros(n: nat): (z: seq<byte>)
    ensures |z| == n && forall i :: 0 <= i < n ==> z[i] == 0
  {
    seq(n, _ => 0)
  }
}
