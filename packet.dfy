/** The packet object the connection stages bytes into: its fixed header, body, packet
    type, the client configuration it fills in, the payload slot array and the scratch
    buffer for variable byte integers. Every operation that changes the packet is a method
    proved against the pure definitions of the other modules. */
module Packets {
  import opened MqttTypes
  import opened ClientConfigs
  import opened Collaborators
  import opened FixedHeaders
  import opened PropertyStreams
  import opened PayloadWalks
  import opened ConnectBodies
  import VarInt

  /** The control byte of a packet this server sends: the type in the high nibble and an
      all-zero flag nibble. */
  function ServerControl(t: PacketType): (c: byte)
    requires !t.Unknown?
    ensures c >> 4 == t.Code() as bv8 && c & 0xf == 0
  {
    ByteShift(t.Code() as bv8);
    (t.Code() as bv8) << 4
  }

  lemma ByteShift(n: bv8)
    requires n < 16
    ensures (n << 4) >> 4 == n && (n << 4) & 0xf == 0
  {
  }

  /** The control byte written by create_connack_packet is one create_fixed_header reads
      back as the same type: CONNECT and CONNACK are recorded with a valid flag nibble, and
      any other server packet type other than RESERVED is accepted. */
  lemma ServerControlRoundTrip(t: PacketType, current: PacketType)
    requires !t.Unknown? && t != Reserved
    ensures TypeOfNibble(ServerControl(t) >> 4) == t
    ensures Classify(ServerControl(t), current) ==
      Classified(Success, if t == Connect || t == Connack then t else current)
  {
    NibbleOfCode(t);
  }

  /** Every defined packet type is the type of its own code. */
  lemma NibbleOfCode(t: PacketType)
    requires !t.Unknown?
    ensures TypeOfNibble(t.Code() as bv8) == t
  {
    match t {
      case Reserved =>
      case Connect =>
      case Connack =>
      case Publish =>
      case Puback =>
      case Pubrec =>
      case Pubrel =>
      case Pubcomp =>
      case Subscribe =>
      case Suback =>
      case Unsubscribe =>
      case Unsuback =>
      case Pingreq =>
      case Pingresp =>
      case Disconnect =>
      case Auth =>
    }
  }

  class Packet {
    var header: FixedHeader
    var body: seq<byte>
    var ptype: PacketType
    var cfg: ClientConfig
    /** `_payloadFlags`: the payload fields to read, in order. */
    const payloadFlags: array<PayloadType>
    /** `_varIntBuff`. */
    const varIntBuff: array<byte>
    /** The routines the packet calls whose code is not part of this model. */
    const h: Collaborators

    ghost predicate Valid()
      reads this
    {
      h.Valid() && header.Valid() && payloadFlags.Length == 6 && varIntBuff.Length == 4
    }

    /** A packet as a connection first holds it: cleared header, UNKNOWN type, empty body,
        the slot array with only the client identifier, and a configuration with nothing
        decoded. */
    constructor(h: Collaborators)
      requires h.Valid()
      ensures Valid() && fresh(payloadFlags) && fresh(varIntBuff) && this.h == h
      ensures header == Cleared && ptype == Unknown && body == [] && cfg == Fresh
      ensures payloadFlags[..] == InitialSlots && varIntBuff[..] == Zeros(4)
    {
      header := Cleared;
      body := [];
      ptype := Unknown;
      cfg := Fresh;
      payloadFlags := new PayloadType[6](i => if i == 0 then ClientId else UnknownPayload);
      varIntBuff := new byte[4](_ => 0);
      this.h := h;
      new;
      assert payloadFlags[..] == InitialSlots;
    }

    /** The encoded size of the packet: header plus body. */
    function Size(): (n: nat)
      reads this
      ensures |body| + 2 <= n <= |body| + 5
    {
      header.Size() + |body|
    }

    /** has_packet_id, on the packet's type and the configuration's QoS. */
    function HasId(): (r: bool)
      reads this
      ensures r <==> (!ptype.Unknown? && 4 <= ptype.Code() <= 11) || (ptype == Publish && cfg.qos > 0)
    {
      HasPacketId(ptype, cfg.qos)
    }

    /** reset: header cleared, type UNKNOWN, body and scratch buffer zeroed in place; the
        body keeps its length, and neither the configuration nor the slot array is
        touched. */
    method Reset()
      requires Valid()
      modifies this`header, this`ptype, this`body, varIntBuff
      ensures Valid()
      ensures header == Cleared && ptype == Unknown && body == Zeros(|old(body)|)
      ensures varIntBuff[..] == Zeros(4)
    {
      header := Cleared;
      ptype := Unknown;
      body := Zeros(|body|);
      forall k | 0 <= k < varIntBuff.Length {
        varIntBuff[k] := 0;
      }
    }

    /** create_fixed_header: the reason code and the type it leaves are those Classify
        gives for the control byte. */
    method CreateFixedHeader() returns (code: ReasonCode)
      modifies this`ptype
      ensures Classified(code, ptype) == Classify(header.controlField, old(ptype))
    {
      var nibble := header.controlField >> 4;
      var flags := header.controlField & 0xf;
      match TypeOfNibble(nibble) {
        case Reserved =>
          return MalformedPacket;
        case Connect =>
          ptype := Connect;
          if flags != ConnectFlagNibble {
            return MalformedPacket;
          }
        case Connack =>
          ptype := Connack;
          if flags != ConnackFlagNibble {
            return MalformedPacket;
          }
        case _ =>
      }
      return Success;
    }

    /** decode_properties: the block `[start, start+size)` is walked one property at a
        time; the reason code and the configuration are those of PropertyBlock. */
    method DecodeProperties(start: nat, size: nat, isWill: bool) returns (code: ReasonCode)
      requires Valid()
      modifies this`cfg
      ensures Valid()
      ensures var w := PropertyBlock(h, body, ptype, start, size, isWill, old(cfg));
        code == w.code && cfg == w.cfg
    {
      if |body| < start + size {
        return MalformedPacket;
      }
      var cursor := start;
      var end := start + size;
      var seen: set<PropertyId> := {};
      while cursor != end
        invariant start <= cursor <= end <= |body|
        invariant PropertyStream(h, body, ptype, cursor, end, size, isWill, seen, cfg) ==
                  PropertyBlock(h, body, ptype, start, size, isWill, old(cfg))
        decreases end - cursor
      {
        code, cursor, seen := ReadProperty(cursor, end, size, isWill, seen);
        if code != Success {
          return;
        }
      }
      return Success;
    }

    /** One pass of the loop of decode_properties: the identifier at `cursor`, the
        allow-list and uniqueness checks, the value, and the configuration's acceptance.
        The outcome is StreamStep's: a stop leaves the configuration alone, an accepted
        property is added to it. */
    method ReadProperty(cursor: nat, end: nat, size: nat, isWill: bool, seen: set<PropertyId>)
      returns (code: ReasonCode, next: nat, seen': set<PropertyId>)
      requires Valid() && cursor < end <= |body|
      modifies this`cfg
      ensures Valid()
      ensures var s := StreamStep(h, body, ptype, cursor, end, size, isWill, seen, old(cfg));
        (s.Stop? ==> code == s.code && cfg == old(cfg)) &&
        (s.Next? ==> code == Success && next == s.next && seen' == s.seen && cfg == AddProperty(old(cfg), s.p, isWill))
    {
      next := cursor;
      seen' := seen;
      var id := body[next];
      next := next + 1;
      if !h.allowedIn(id, ptype) {
        return MalformedPacket, next, seen';
      }
      if h.isUnique(id) {
        if id in seen' {
          return ProtocolError, next, seen';
        }
        seen' := seen' + {id};
      }
      var remaining := end - next;
      if remaining == 0 || remaining > size {
        return MalformedPacket, next, seen';
      }
      var read := h.propertyData(id, body[next..end]);
      if read.code != Success {
        return read.code, next, seen';
      }
      var p := Property(id, read.value);
      var accepted := if isWill then h.acceptWillProperty(cfg, p) else h.acceptProperty(cfg, p);
      if accepted != Success {
        return accepted, next, seen';
      }
      cfg := AddProperty(cfg, p, isWill);
      next := next + read.size;
      code := Success;
    }

    /** decode_payload: the slots are visited in order from `start`; the reason code and
        the configuration are those of PayloadBlock. */
    method DecodePayload(start: nat) returns (code: ReasonCode)
      requires Valid()
      modifies this`cfg
      ensures Valid()
      ensures var w := PayloadBlock(h, body, ptype, payloadFlags[..], start, old(cfg));
        code == w.code && cfg == w.cfg
    {
      if |body| < start {
        return MalformedPacket;
      }
      var cursor: nat := start;
      for i := 0 to payloadFlags.Length
        invariant cursor <= |body|
        invariant PayloadWalk(h, body, ptype, payloadFlags[..], i, cursor, cfg) ==
                  PayloadBlock(h, body, ptype, payloadFlags[..], start, old(cfg))
      {
        if cursor == |body| {
          return Success;
        }
        if cursor > |body| {
          return MalformedPacket;
        }
        var slot := payloadFlags[i];
        if slot == UnknownPayload {
          continue;
        }
        code, cursor := ReadField(slot, cursor);
        if code != Success {
          return;
        }
      }
      return Success;
    }

    /** One used slot of decode_payload: the will properties as a length and a nested
        property block, any other field through the payload reader and the configuration.
        The outcome is FieldStep's. */
    method ReadField(slot: PayloadType, cursor: nat) returns (code: ReasonCode, next: nat)
      requires Valid() && cursor < |body| && slot != UnknownPayload
      modifies this`cfg
      ensures Valid()
      ensures var r := FieldStep(h, body, ptype, slot, cursor, old(cfg));
        (r.FieldStop? ==> code == r.w.code && cfg == r.w.cfg) &&
        (r.FieldNext? ==> code == Success && next == r.next && cfg == r.cfg)
    {
      if slot == WillProperties {
        code, next := ReadWillProperties(cursor);
      } else {
        code, next := ReadPayloadField(slot, cursor);
      }
    }

    /** The will properties slot: a variable byte integer length, then that many bytes of
        will properties. The outcome is WillField's. */
    method ReadWillProperties(cursor: nat) returns (code: ReasonCode, next: nat)
      requires Valid() && cursor < |body|
      modifies this`cfg
      ensures Valid()
      ensures var r := WillField(h, body, ptype, cursor, old(cfg));
        (r.FieldStop? ==> code == r.w.code && cfg == r.w.cfg) &&
        (r.FieldNext? ==> code == Success && next == r.next && cfg == r.cfg)
    {
      var v := h.decodeVariableInt(body[cursor..]);
      if v.VarIntMalformed? {
        return MalformedPacket, cursor;
      }
      code, next := ReadWillBlock(cursor + v.size, v.value);
    }

    /** The will property block of `len` bytes at `start`. The outcome is WillBlock's. */
    method ReadWillBlock(start: nat, len: nat) returns (code: ReasonCode, next: nat)
      requires Valid() && start <= |body|
      modifies this`cfg
      ensures Valid()
      ensures var r := WillBlock(h, body, ptype, start, len, old(cfg));
        (r.FieldStop? ==> code == r.w.code && cfg == r.w.cfg) &&
        (r.FieldNext? ==> code == Success && next == r.next && cfg == r.cfg)
    {
      next := start;
      code := DecodeProperties(start, len, true);
      if code != Success {
        return;
      }
      next := start + len;
    }

    /** Any other used slot: the payload reader, then the configuration's acceptance. The
        outcome is DataField's. */
    method ReadPayloadField(slot: PayloadType, cursor: nat) returns (code: ReasonCode, next: nat)
      requires Valid() && cursor < |body|
      modifies this`cfg
      ensures Valid()
      ensures var r := DataField(h, body, slot, cursor, old(cfg));
        (r.FieldStop? ==> code == r.w.code && cfg == r.w.cfg) &&
        (r.FieldNext? ==> code == Success && next == r.next && cfg == r.cfg)
    {
      var read := h.payloadData(slot, body[cursor..]);
      if read.code != Success {
        return read.code, cursor;
      }
      next := cursor + read.size;
      var field := Payload(slot, read.value);
      var accepted := h.acceptPayload(cfg, field);
      if accepted != Success {
        return accepted, next;
      }
      cfg := cfg.(payloads := cfg.payloads + [field]);
      code := Success;
    }

    /** decode_connect_packet_body: the preamble is checked, the flags and keep-alive are
        written into the configuration and the slot array in place, then the property block
        and the payload are decoded; the outcome is DecodeConnect's. */
    method DecodeConnectPacketBody() returns (code: ReasonCode)
      requires Valid() && |body| >= 10
      modifies this`cfg, payloadFlags
      ensures Valid()
      ensures var d := DecodeConnect(h, body, ptype, old(cfg), old(payloadFlags[..]));
        code == d.code && cfg == d.cfg && payloadFlags[..] == d.slots
    {
      ghost var d := DecodeConnect(h, body, ptype, cfg, payloadFlags[..]);
      ghost var f := ApplyFlags(body[7], cfg, payloadFlags[..]);
      code := CheckPreamble();
      if code != Success {
        return;
      }
      var ok := WriteConnectFlags(body[7]);
      if !ok {
        assert d == f;
        return MalformedPacket;
      }
      assert cfg == f.cfg && payloadFlags[..] == f.slots;
      cfg := cfg.(keepAlive := KeepAlive(body));
      assert d == DecodeBlocks(h, body, ptype, cfg, payloadFlags[..]);
      code := DecodeBlocksInPlace();
    }

    /** The checks of bytes 0 to 7 that come before anything is written. */
    method CheckPreamble() returns (code: ReasonCode)
      requires |body| >= 10
      ensures code == PreambleCode(body)
    {
      if body[1] + body[0] != 4 {
        return MalformedPacket;
      }
      if body[2..6] != ProtocolName {
        return UnsupportedProtocolVersion;
      }
      if body[6] != ProtocolLevel {
        return UnsupportedProtocolVersion;
      }
      if body[7] & 0x01 != 0 {
        return MalformedPacket;
      }
      return Success;
    }

    /** The connect-flags part of decode_connect_packet_body, written field by field:
        `ok` is false exactly when the Will QoS is 3. */
    method WriteConnectFlags(flags: byte) returns (ok: bool)
      requires Valid()
      modifies this`cfg, payloadFlags
      ensures Valid()
      ensures var f := ApplyFlags(flags, old(cfg), old(payloadFlags[..]));
        ok == (f.code == Success) && cfg == f.cfg && payloadFlags[..] == f.slots
    {
      cfg := cfg.(cleanStart := Flag(flags, 0x02), willFlag := Flag(flags, 0x04));
      if cfg.willFlag {
        payloadFlags[1] := WillProperties;
        payloadFlags[2] := WillTopic;
        payloadFlags[3] := WillPayload;
        cfg := cfg.(willQos := WillQosBits(flags));
        if cfg.willQos == 3 {
          return false;
        }
        cfg := cfg.(willConfigured := true);
      } else {
        cfg := cfg.(willQos := 0);
      }
      WriteLaterFlags(flags);
      return true;
    }

    /** Will retain, then the password flag and its slot, then the user name flag and its
        slot (slots are indexed by PayloadType.Slot()). */
    method WriteLaterFlags(flags: byte)
      requires Valid()
      modifies this`cfg, payloadFlags
      ensures Valid()
      ensures var f := ApplyLaterFlags(flags, old(cfg), old(payloadFlags[..]));
        cfg == f.cfg && payloadFlags[..] == f.slots
    {
      cfg := cfg.(willRetain := Flag(flags, 0x20), passwordFlag := Flag(flags, 0x40));
      if cfg.passwordFlag {
        payloadFlags[5] := Password;
      }
      cfg := cfg.(userNameFlag := Flag(flags, 0x80));
      if cfg.userNameFlag {
        payloadFlags[4] := UserName;
      }
    }

    /** The rest of decode_connect_packet_body: the length check, the property length at
        byte 10, the property block and the payload. */
    method DecodeBlocksInPlace() returns (code: ReasonCode)
      requires Valid() && |body| >= 10
      modifies this`cfg
      ensures Valid()
      ensures var d := DecodeBlocks(h, body, ptype, old(cfg), payloadFlags[..]);
        code == d.code && cfg == d.cfg
    {
      if |body| < 13 {
        return MalformedPacket;
      }
      var v := h.decodeVariableInt(body[10..]);
      if v.VarIntMalformed? {
        return MalformedPacket;
      }
      code := DecodePropertiesThenPayload(10 + v.size + 1, v.value);
    }

    /** The connect property block of `len` bytes at `start`, then the payload after it. */
    method DecodePropertiesThenPayload(start: nat, len: nat) returns (code: ReasonCode)
      requires Valid()
      modifies this`cfg
      ensures Valid()
      ensures var d := PropertiesThenPayload(h, body, ptype, old(cfg), payloadFlags[..], start, len);
        code == d.code && cfg == d.cfg
    {
      code := DecodeProperties(start, len, false);
      if code != Success {
        return;
      }
      code := DecodePayload(start + len);
    }

    /** decode_packet_body: only CONNECT has a body decoder; every other type succeeds
        without reading. */
    method DecodePacketBody() returns (code: ReasonCode)
      requires Valid() && (ptype == Connect ==> |body| >= 10)
      modifies this`cfg, payloadFlags
      ensures Valid()
      ensures ptype == Connect ==>
        var d := DecodeConnect(h, body, ptype, old(cfg), old(payloadFlags[..]));
        code == d.code && cfg == d.cfg && payloadFlags[..] == d.slots
      ensures ptype != Connect ==> code == Success && cfg == old(cfg) && payloadFlags[..] == old(payloadFlags[..])
    {
      if ptype == Connect {
        code := DecodeConnectPacketBody();
      } else {
        code := Success;
      }
    }

    /** The part of create_connack_packet that writes bytes: a type that is not a server
        packet fails with nothing written; otherwise the control byte gets the type, body
        byte 0 the acknowledge flags (0) and body byte 1 the reason code. This is the body
        as it stands before create_properties, which is not modelled, rewrites it. */
    method CreateConnackPacket(t: PacketType, reason: ReasonCode) returns (r: ReturnCode)
      requires Valid() && (h.isServerPacket(t) ==> |body| >= 2)
      modifies this`header, this`body
      ensures Valid()
      ensures r == Ok <==> h.isServerPacket(t)
      ensures r == Fail ==> header == old(header) && body == old(body)
      ensures r == Ok ==>
        header == old(header).(controlField := ServerControl(t)) &&
        body == [0, reason as byte] + old(body)[2..]
    {
      if !h.isServerPacket(t) {
        return Fail;
      }
      header := header.(controlField := (t.Code() as bv8) << 4);
      body := body[0 := 0];
      body := body[1 := reason as byte];
      return Ok;
    }
  }

  /** When the header's remaining length is the body's length, the packet's size is one
      control byte, the minimal variable byte integer encoding of that length (section
      1.5.5) and the body. */
  lemma SizeIsWireLength(header: FixedHeader, body: seq<byte>)
    requires header.packetLen == |body| < VarInt.Limit
    ensures header.Size() + |body| == 1 + |VarInt.Encode(|body|)| + |body|
  {
    SizeIsEncodedLength(header);
  }
}
