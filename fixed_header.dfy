/** The fixed header (section 2.1 of MQTT Version 5.0): its encoded size, the
    classification of its control byte into a packet type, and the table of packet types
    that carry a packet identifier. */
module FixedHeaders {
  import opened MqttTypes
  import VarInt

  const U32Modulus: nat := 0x1_0000_0000

  datatype FixedHeader = FixedHeader(controlField: byte, packetLen: nat)
  {
    /** `_packetLen` is a 32-bit unsigned integer. */
    ghost predicate Valid() { packetLen < U32Modulus }

    /** The encoded size of the header: the control byte plus the remaining-length field. */
    function Size(): (r: nat)
      ensures 2 <= r <= 5
    {
      if packetLen >= 0x200000 then 5
      else if packetLen >= 0x4000 then 4
      else if packetLen >= 0x80 then 3
      else 2
    }
  }

  /** The header `reset()` leaves behind. */
  const Cleared: FixedHeader := FixedHeader(0, 0)

  /** The size grows with the remaining length. */
  lemma SizeMonotonic(a: FixedHeader, b: FixedHeader)
    requires a.packetLen <= b.packetLen
    ensures a.Size() <= b.Size()
  {
  }

  /** For every remaining length a variable byte integer can carry, the size is one byte
      for the control field plus the length of the minimal encoding of section 1.5.5. */
  lemma SizeIsEncodedLength(hd: FixedHeader)
    requires hd.packetLen < VarInt.Limit
    ensures hd.Size() == 1 + |VarInt.Encode(hd.packetLen)|
  {
    var v := hd.packetLen;
    assert VarInt.Pow128(1) == 0x80;
    assert VarInt.Pow128(2) == 0x4000;
    assert VarInt.Pow128(3) == 0x200000;
    assert VarInt.Pow128(4) == VarInt.Limit;
    if v < 0x80 {
      VarInt.EncodeLength(v, 1);
    } else if v < 0x4000 {
      VarInt.EncodeLength(v, 2);
    } else if v < 0x200000 {
      VarInt.EncodeLength(v, 3);
    } else {
      VarInt.EncodeLength(v, 4);
    }
  }

  /** What create_fixed_header reports, and the packet type it leaves in `_type`. */
  datatype Classified = Classified(code: ReasonCode, ptype: PacketType)

  /** create_fixed_header: the high nibble names the type, the low nibble holds its flags.
      RESERVED is malformed; CONNECT and CONNACK set the type first and then demand their
      fixed flag nibble; every other type is accepted without touching `_type`. */
  function Classify(control: byte, current: PacketType): (c: Classified)
    ensures c.code == Success <==>
      control >> 4 != 0 && (control >> 4 == 1 || control >> 4 == 2 ==> control & 0xf == 0)
    ensures c.code == Success || c.code == MalformedPacket
    ensures control >> 4 == 1 || control >> 4 == 2 ==> c.ptype == TypeOfNibble(control >> 4)
    ensures control >> 4 != 1 && control >> 4 != 2 ==> c.ptype == current
  {
    var flags := control & 0xf;
    match TypeOfNibble(control >> 4)
    case Reserved => Classified(MalformedPacket, current)
    case Connect =>
      if flags != ConnectFlagNibble then Classified(MalformedPacket, Connect)
      else Classified(Success, Connect)
    case Connack =>
      if flags != ConnackFlagNibble then Classified(MalformedPacket, Connack)
      else Classified(Success, Connack)
    case _ => Classified(Success, current)
  }

  /** The control bytes named in the protocol's own examples. */
  lemma ClassifyExamples(current: PacketType)
    ensures Classify(0x10, current) == Classified(Success, Connect)
    ensures Classify(0x11, current) == Classified(MalformedPacket, Connect)
    ensures forall flags: byte :: flags < 16 ==> Classify(flags, current) == Classified(MalformedPacket, current)
    ensures Classify(0xC0, current) == Classified(Success, current)
  {
  }

  /** has_packet_id: the packet types of section 2.2.1 that carry a packet identifier are
      exactly those whose values lie between PUBACK and UNSUBACK, and PUBLISH when its QoS
      is above 0. */
  function HasPacketId(t: PacketType, qos: nat): (r: bool)
    ensures r <==> (!t.Unknown? && 4 <= t.Code() <= 11) || (t == Publish && qos > 0)
  {
    match t
    case Connect => false
    case Connack => false
    case Publish => qos > 0
    case Puback => true
    case Pubrec => true
    case Pubrel => true
    case Pubcomp => true
    case Subscribe => true
    case Suback => true
    case Unsubscribe => true
    case Unsuback => true
    case Pingreq => false
    case Pingresp => false
    case Disconnect => false
    case Auth => false
    case _ => false
  }
}
