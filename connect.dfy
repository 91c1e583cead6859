/** The CONNECT variable header (section 3.1.2 of MQTT Version 5.0) as
    decode_connect_packet_body reads it: the protocol name and level, the connect flags
    written into the configuration and the payload slots, the keep-alive, then the property
    block and the payload. The decoder indexes the body directly, so bytes 0 to 9 must exist
    before it starts. */
module ConnectBodies {
  import opened MqttTypes
  import opened ClientConfigs
  import opened Collaborators
  import opened PropertyStreams
  import opened PayloadWalks

  /** The protocol name "MQTT" (section 3.1.2.1). */
  const ProtocolName: seq<byte> := [0x4D, 0x51, 0x54, 0x54]

  /** The protocol level of version 5.0 (section 3.1.2.2). */
  const ProtocolLevel: byte := 5

  /** What the decoder reports, the configuration it leaves, and the slot array. */
  datatype Decoded = Decoded(code: ReasonCode, cfg: ClientConfig, slots: seq<PayloadType>)

  predicate Flag(flags: byte, mask: byte)
  {
    flags & mask != 0
  }

  /** The Will QoS field, bits 3 and 4 of the connect flags. */
  function WillQosBits(flags: byte): (q: nat)
    ensures q <= 3
  {
    ((flags & 0x18) >> 3) as nat
  }

  /** The checks made before anything is written: the protocol name length, computed as
      the 8-bit sum of bytes 0 and 1 (`byte` addition wraps modulo 256 like `uint8_t`);
      the name; the level; the reserved flag. */
  function PreambleCode(body: seq<byte>): (r: ReasonCode)
    requires |body| >= 10
    ensures r == Success <==>
      body[0] + body[1] == 4 && body[2..6] == ProtocolName && body[6] == ProtocolLevel && !Flag(body[7], 0x01)
    ensures r == Success || r == MalformedPacket || r == UnsupportedProtocolVersion
  {
    if body[1] + body[0] != 4 then MalformedPacket
    else if body[2..6] != ProtocolName then UnsupportedProtocolVersion
    else if body[6] != ProtocolLevel then UnsupportedProtocolVersion
    else if Flag(body[7], 0x01) then MalformedPacket
    else Success
  }

  /** The connect flags, written in the order of the source: clean start and will flag;
      with the will flag, the three will slots and the Will QoS, where QoS 3 stops the
      decoder before anything else is written, and the creation of the will
      configuration; without it, QoS 0. */
  function ApplyFlags(flags: byte, cfg: ClientConfig, slots: seq<PayloadType>): (d: Decoded)
    requires |slots| == 6
    ensures |d.slots| == 6
  {
    var cfg1 := cfg.(cleanStart := Flag(flags, 0x02), willFlag := Flag(flags, 0x04));
    if Flag(flags, 0x04) then
      var slots1 := slots[WillProperties.Slot() := WillProperties][WillTopic.Slot() := WillTopic]
                         [WillPayload.Slot() := WillPayload];
      var cfg2 := cfg1.(willQos := WillQosBits(flags));
      if WillQosBits(flags) == 3 then Decoded(MalformedPacket, cfg2, slots1)
      else ApplyLaterFlags(flags, cfg2.(willConfigured := true), slots1)
    else ApplyLaterFlags(flags, cfg1.(willQos := 0), slots)
  }

  /** Will retain, then the password flag and its slot, then the user name flag and its
      slot. */
  function ApplyLaterFlags(flags: byte, cfg: ClientConfig, slots: seq<PayloadType>): (d: Decoded)
    requires |slots| == 6
    ensures |d.slots| == 6 && d.code == Success
  {
    var cfg1 := cfg.(willRetain := Flag(flags, 0x20), passwordFlag := Flag(flags, 0x40),
                     userNameFlag := Flag(flags, 0x80));
    var slots1 := if Flag(flags, 0x40) then slots[Password.Slot() := Password] else slots;
    var slots2 := if Flag(flags, 0x80) then slots1[UserName.Slot() := UserName] else slots1;
    Decoded(Success, cfg1, slots2)
  }

  /** The big-endian keep-alive of bytes 8 and 9 (section 3.1.2.10). */
  function KeepAlive(body: seq<byte>): (k: nat)
    requires |body| >= 10
    ensures k < 0x10000 && k / 256 == body[8] as nat && k % 256 == body[9] as nat
  {
    body[8] as nat * 256 + body[9] as nat
  }

  /** The offset of the first property: byte 10 holds the property length, and the
      decoder starts the block one byte after the length's last byte. */
  function PropertyStart(varSize: nat): nat
  {
    10 + varSize + 1
  }

  /** decode_connect_packet_body, step by step; each failing step returns with the
      configuration and slots as they stand. */
  function DecodeConnect(h: Collaborators, body: seq<byte>, ptype: PacketType, cfg: ClientConfig,
                         slots: seq<PayloadType>): (d: Decoded)
    requires h.Valid() && |body| >= 10 && |slots| == 6
    ensures |d.slots| == 6
  {
    var pre := PreambleCode(body);
    if pre != Success then Decoded(pre, cfg, slots)
    else
      var f := ApplyFlags(body[7], cfg, slots);
      if f.code != Success then f
      else DecodeBlocks(h, body, ptype, f.cfg.(keepAlive := KeepAlive(body)), f.slots)
  }

  /** The part after the keep-alive: the body must reach byte 12, byte 10 starts the
      property length, then come the property block and the payload. */
  function DecodeBlocks(h: Collaborators, body: seq<byte>, ptype: PacketType, cfg: ClientConfig,
                        slots: seq<PayloadType>): (d: Decoded)
    requires h.Valid() && |body| >= 10
    ensures d.slots == slots
  {
    if |body| < 13 then Decoded(MalformedPacket, cfg, slots)
    else
      match h.decodeVariableInt(body[10..])
      case VarIntMalformed => Decoded(MalformedPacket, cfg, slots)
      case VarIntOk(len, n) => PropertiesThenPayload(h, body, ptype, cfg, slots, PropertyStart(n), len)
  }

  /** The property block of `len` bytes at `start`, then, when it succeeds, the payload
      right after it. */
  function PropertiesThenPayload(h: Collaborators, body: seq<byte>, ptype: PacketType, cfg: ClientConfig,
                                 slots: seq<PayloadType>, start: nat, len: nat): (d: Decoded)
    requires h.Valid()
    ensures d.slots == slots
  {
    var pw := PropertyBlock(h, body, ptype, start, len, false, cfg);
    if pw.code != Success then Decoded(pw.code, pw.cfg, slots)
    else
      var yw := PayloadBlock(h, body, ptype, slots, start + len, pw.cfg);
      Decoded(yw.code, yw.cfg, slots)
  }

  /** With a one-byte property length of 0 at byte 10, the property block is empty and
      the payload is read from byte 12: byte 11 is skipped. */
  lemma EmptyPropertiesSkipByte11(h: Collaborators, body: seq<byte>, ptype: PacketType, cfg: ClientConfig,
                                  slots: seq<PayloadType>)
    requires h.Valid() && |body| >= 13 && h.decodeVariableInt(body[10..]) == VarIntOk(0, 1)
    ensures var yw := PayloadBlock(h, body, ptype, slots, 12, cfg);
      DecodeBlocks(h, body, ptype, cfg, slots) == Decoded(yw.code, yw.cfg, slots)
  {
  }

  /** The blocks change no setting; they only append to the lists. */
  lemma BlocksKeepSettings(h: Collaborators, body: seq<byte>, ptype: PacketType, cfg: ClientConfig,
                           slots: seq<PayloadType>)
    requires h.Valid() && |body| >= 10
    ensures var d := DecodeBlocks(h, body, ptype, cfg, slots);
      SameSettings(cfg, d.cfg) && cfg.properties <= d.cfg.properties &&
      cfg.willProperties <= d.cfg.willProperties && cfg.payloads <= d.cfg.payloads
  {
    if |body| >= 13 && h.decodeVariableInt(body[10..]).VarIntOk? {
      var v := h.decodeVariableInt(body[10..]);
      BlocksAfterLength(h, body, ptype, cfg, slots, v.value, v.size);
    }
  }

  lemma BlocksAfterLength(h: Collaborators, body: seq<byte>, ptype: PacketType, cfg: ClientConfig,
                          slots: seq<PayloadType>, len: nat, n: nat)
    requires h.Valid() && |body| >= 13 && h.decodeVariableInt(body[10..]) == VarIntOk(len, n)
    ensures var d := DecodeBlocks(h, body, ptype, cfg, slots);
      SameSettings(cfg, d.cfg) && cfg.properties <= d.cfg.properties &&
      cfg.willProperties <= d.cfg.willProperties && cfg.payloads <= d.cfg.payloads
  {
    PropertiesThenPayloadSettings(h, body, ptype, cfg, slots, PropertyStart(n), len);
  }

  /** The property block, then the payload, keep the settings and only append. */
  lemma PropertiesThenPayloadSettings(h: Collaborators, body: seq<byte>, ptype: PacketType, cfg: ClientConfig,
                                      slots: seq<PayloadType>, start: nat, len: nat)
    requires h.Valid()
    ensures var d := PropertiesThenPayload(h, body, ptype, cfg, slots, start, len);
      SameSettings(cfg, d.cfg) && cfg.properties <= d.cfg.properties &&
      cfg.willProperties <= d.cfg.willProperties && cfg.payloads <= d.cfg.payloads
  {
    var pw := PropertyBlock(h, body, ptype, start, len, false, cfg);
    BlockRoutes(h, body, ptype, start, len, false, cfg);
    if pw.code == Success {
      PayloadSettings(h, body, ptype, slots, start + len, pw.cfg);
    }
  }

  /** The preamble checks come first, in order, and a failing one returns before the
      configuration or the slots are touched. */
  lemma ConnectPreambleOrder(h: Collaborators, body: seq<byte>, ptype: PacketType, cfg: ClientConfig,
                             slots: seq<PayloadType>)
    requires h.Valid() && |body| >= 10 && |slots| == 6
    ensures var d := DecodeConnect(h, body, ptype, cfg, slots);
      var nameLength := body[0] + body[1];
      (nameLength != 4 ==> d == Decoded(MalformedPacket, cfg, slots)) &&
      (nameLength == 4 && body[2..6] != ProtocolName ==> d == Decoded(UnsupportedProtocolVersion, cfg, slots)) &&
      (nameLength == 4 && body[2..6] == ProtocolName && body[6] != ProtocolLevel ==>
         d == Decoded(UnsupportedProtocolVersion, cfg, slots)) &&
      (nameLength == 4 && body[2..6] == ProtocolName && body[6] == ProtocolLevel && Flag(body[7], 0x01) ==>
         d == Decoded(MalformedPacket, cfg, slots))
  {
  }

  /** The settings the connect flags and the keep-alive describe. */
  ghost predicate SettingsFrom(body: seq<byte>, before: ClientConfig, after: ClientConfig)
    requires |body| >= 10
  {
    var flags := body[7];
    after.cleanStart == Flag(flags, 0x02) &&
    after.willFlag == Flag(flags, 0x04) &&
    after.willQos == (if Flag(flags, 0x04) then WillQosBits(flags) else 0) &&
    after.willRetain == Flag(flags, 0x20) &&
    after.passwordFlag == Flag(flags, 0x40) &&
    after.userNameFlag == Flag(flags, 0x80) &&
    after.keepAlive == KeepAlive(body) &&
    after.willConfigured == (Flag(flags, 0x04) || before.willConfigured) &&
    after.qos == before.qos
  }

  /** Once the preamble passes and the Will QoS is not 3, every setting is the one the
      flags and the keep-alive bytes describe, whatever the later steps report; the Will
      QoS is then at most 2. */
  lemma ConnectSettingsFollowFlags(h: Collaborators, body: seq<byte>, ptype: PacketType, cfg: ClientConfig,
                                   slots: seq<PayloadType>)
    requires h.Valid() && |body| >= 10 && |slots| == 6
    requires PreambleCode(body) == Success
    requires !(Flag(body[7], 0x04) && WillQosBits(body[7]) == 3)
    ensures var d := DecodeConnect(h, body, ptype, cfg, slots);
      SettingsFrom(body, cfg, d.cfg) && d.cfg.willQos <= 2
  {
    var f := ApplyFlags(body[7], cfg, slots);
    var cfg1 := f.cfg.(keepAlive := KeepAlive(body));
    FlagSettings(body, cfg, slots);
    BlocksKeepSettings(h, body, ptype, cfg1, f.slots);
    var d := DecodeBlocks(h, body, ptype, cfg1, f.slots);
    assert DecodeConnect(h, body, ptype, cfg, slots) == d;
    SettingsKept(body, cfg, cfg1, d.cfg);
  }

  /** The flag byte alone, once the Will QoS is not 3, sets the settings SettingsFrom
      describes. */
  lemma FlagSettings(body: seq<byte>, cfg: ClientConfig, slots: seq<PayloadType>)
    requires |body| >= 10 && |slots| == 6
    requires !(Flag(body[7], 0x04) && WillQosBits(body[7]) == 3)
    ensures var f := ApplyFlags(body[7], cfg, slots);
      f.code == Success && SettingsFrom(body, cfg, f.cfg.(keepAlive := KeepAlive(body))) &&
      f.cfg.willQos <= 2
  {
  }

  lemma SettingsKept(body: seq<byte>, before: ClientConfig, mid: ClientConfig, after: ClientConfig)
    requires |body| >= 10 && SettingsFrom(body, before, mid) && SameSettings(mid, after)
    ensures SettingsFrom(body, before, after)
  {
  }

  /** decode_payload as a whole changes no setting and no main property. */
  lemma PayloadSettings(h: Collaborators, body: seq<byte>, ptype: PacketType, slots: seq<PayloadType>,
                        start: nat, cfg: ClientConfig)
    requires h.Valid()
    ensures var w := PayloadBlock(h, body, ptype, slots, start, cfg);
      SameSettings(cfg, w.cfg) && w.cfg.properties == cfg.properties &&
      cfg.willProperties <= w.cfg.willProperties && cfg.payloads <= w.cfg.payloads
  {
    if start <= |body| {
      PayloadKeepsSettings(h, body, ptype, slots, 0, start, cfg);
    }
  }

  /** The slot array the flags produce from the initial one: the client identifier always,
      the will slots exactly with the will flag, the user name and password slots exactly
      with theirs. */
  function SlotsFor(flags: byte): (s: seq<PayloadType>)
    ensures |s| == 6
  {
    [ClientId,
     if Flag(flags, 0x04) then WillProperties else UnknownPayload,
     if Flag(flags, 0x04) then WillTopic else UnknownPayload,
     if Flag(flags, 0x04) then WillPayload else UnknownPayload,
     if Flag(flags, 0x80) then UserName else UnknownPayload,
     if Flag(flags, 0x40) then Password else UnknownPayload]
  }

  /** Starting from the initial slot array, a decoder that gets past the Will QoS check
      leaves the slot array the flags describe. */
  lemma ConnectSlotsFollowFlags(h: Collaborators, body: seq<byte>, ptype: PacketType, cfg: ClientConfig)
    requires h.Valid() && |body| >= 10
    requires PreambleCode(body) == Success
    requires !(Flag(body[7], 0x04) && WillQosBits(body[7]) == 3)
    ensures DecodeConnect(h, body, ptype, cfg, InitialSlots).slots == SlotsFor(body[7])
  {
  }

  /** Will QoS 3 is malformed (section 3.1.2.6): the decoder stops after writing the clean
      start, the will flag, the three will slots and the Will QoS itself; the will
      configuration is not created and no later flag, slot or keep-alive is written. */
  lemma WillQosThreeMalformed(h: Collaborators, body: seq<byte>, ptype: PacketType, cfg: ClientConfig,
                              slots: seq<PayloadType>)
    requires h.Valid() && |body| >= 10 && |slots| == 6
    requires PreambleCode(body) == Success
    requires Flag(body[7], 0x04) && WillQosBits(body[7]) == 3
    ensures var d := DecodeConnect(h, body, ptype, cfg, slots);
      d.code == MalformedPacket &&
      d.cfg == cfg.(cleanStart := Flag(body[7], 0x02), willFlag := true, willQos := 3) &&
      d.slots == slots[1 := WillProperties][2 := WillTopic][3 := WillPayload]
  {
  }

  /** A body too short to hold byte 10 and a full-size property length is malformed, but
      only after the flags and the keep-alive have been written. */
  lemma ShortBodyMalformed(h: Collaborators, body: seq<byte>, ptype: PacketType, cfg: ClientConfig,
                           slots: seq<PayloadType>)
    requires h.Valid() && 10 <= |body| < 13 && |slots| == 6
    requires PreambleCode(body) == Success
    requires !(Flag(body[7], 0x04) && WillQosBits(body[7]) == 3)
    ensures var d := DecodeConnect(h, body, ptype, cfg, slots);
      d.code == MalformedPacket && SettingsFrom(body, cfg, d.cfg) &&
      d.cfg.properties == cfg.properties && d.cfg.willProperties == cfg.willProperties &&
      d.cfg.payloads == cfg.payloads
  {
  }

  /** What a successful decode guarantees: the preamble and Will QoS checks passed, the
      body holds the property length and the whole property block, every property added
      to the main list is allowed in the packet type and no unique identifier repeats, and
      the payload fields were added in slot order. */
  lemma ConnectSuccess(h: Collaborators, body: seq<byte>, ptype: PacketType, cfg: ClientConfig,
                       slots: seq<PayloadType>)
    requires h.Valid() && |body| >= 10 && |slots| == 6
    ensures var d := DecodeConnect(h, body, ptype, cfg, slots);
      d.code == Success ==>
        PreambleCode(body) == Success && d.cfg.willQos <= 2 && BlocksWellFormed(h, body) &&
        ListsGrewValidly(h, ptype, cfg, d)
  {
    var d := DecodeConnect(h, body, ptype, cfg, slots);
    if d.code == Success {
      var f := ApplyFlags(body[7], cfg, slots);
      var cfg1 := f.cfg.(keepAlive := KeepAlive(body));
      ConnectSettingsFollowFlags(h, body, ptype, cfg, slots);
      BlocksSuccess(h, body, ptype, cfg1, f.slots);
      assert d == DecodeBlocks(h, body, ptype, cfg1, f.slots);
      assert ListsGrewValidly(h, ptype, cfg1, d);
      assert cfg1.properties == cfg.properties && cfg1.payloads == cfg.payloads;
    }
  }

  /** The body holds byte 12, a valid property length at byte 10, and the whole property
      block after it. */
  ghost predicate BlocksWellFormed(h: Collaborators, body: seq<byte>)
    requires |body| >= 10
  {
    |body| >= 13 && h.decodeVariableInt(body[10..]).VarIntOk? &&
    PropertyStart(h.decodeVariableInt(body[10..]).size) + h.decodeVariableInt(body[10..]).value <= |body|
  }

  /** The lists only grew; the properties added to the main list are allowed in the packet
      type and repeat no unique identifier; the payload fields added are a prefix of the
      fields the slots ask for, in slot order. */
  ghost predicate ListsGrewValidly(h: Collaborators, ptype: PacketType, cfg: ClientConfig, d: Decoded)
  {
    PropertiesGrewValidly(h, ptype, cfg.properties, d.cfg.properties) &&
    cfg.payloads <= d.cfg.payloads &&
    Kinds(d.cfg.payloads[|cfg.payloads|..]) <= Fields(d.slots)
  }

  /** What a successful pass over the blocks guarantees about the lists. */
  lemma BlocksSuccess(h: Collaborators, body: seq<byte>, ptype: PacketType, cfg: ClientConfig,
                      slots: seq<PayloadType>)
    requires h.Valid() && |body| >= 10
    ensures var d := DecodeBlocks(h, body, ptype, cfg, slots);
      d.code == Success ==> BlocksWellFormed(h, body) && ListsGrewValidly(h, ptype, cfg, d)
  {
    if |body| >= 13 && h.decodeVariableInt(body[10..]).VarIntOk? {
      var v := h.decodeVariableInt(body[10..]);
      BlocksSuccessAfterLength(h, body, ptype, cfg, slots, v.value, v.size);
    }
  }

  lemma BlocksSuccessAfterLength(h: Collaborators, body: seq<byte>, ptype: PacketType, cfg: ClientConfig,
                                 slots: seq<PayloadType>, len: nat, n: nat)
    requires h.Valid() && |body| >= 13 && h.decodeVariableInt(body[10..]) == VarIntOk(len, n)
    ensures var d := DecodeBlocks(h, body, ptype, cfg, slots);
      d.code == Success ==> BlocksWellFormed(h, body) && ListsGrewValidly(h, ptype, cfg, d)
  {
    PropertiesThenPayloadSuccess(h, body, ptype, cfg, slots, PropertyStart(n), len);
  }

  /** A successful property block followed by a successful payload: the block fits in the
      body and the lists grew validly. */
  lemma PropertiesThenPayloadSuccess(h: Collaborators, body: seq<byte>, ptype: PacketType, cfg: ClientConfig,
                                     slots: seq<PayloadType>, start: nat, len: nat)
    requires h.Valid()
    ensures var d := PropertiesThenPayload(h, body, ptype, cfg, slots, start, len);
      d.code == Success ==> start + len <= |body| && ListsGrewValidly(h, ptype, cfg, d)
  {
    SuccessProperties(h, body, ptype, cfg, slots, start, len);
    SuccessPayloads(h, body, ptype, cfg, slots, start, len);
  }

  /** After both blocks succeed, the main list grew only by the property block's
      properties. */
  lemma SuccessProperties(h: Collaborators, body: seq<byte>, ptype: PacketType, cfg: ClientConfig,
                          slots: seq<PayloadType>, start: nat, len: nat)
    requires h.Valid()
    ensures var d := PropertiesThenPayload(h, body, ptype, cfg, slots, start, len);
      d.code == Success ==> start + len <= |body| && PropertiesGrewValidly(h, ptype, cfg.properties, d.cfg.properties)
  {
    var pw := PropertyBlock(h, body, ptype, start, len, false, cfg);
    BlockAddsValidly(h, body, ptype, start, len, cfg);
    if pw.code == Success {
      PayloadSettings(h, body, ptype, slots, start + len, pw.cfg);
      assert PropertiesThenPayload(h, body, ptype, cfg, slots, start, len).cfg.properties == pw.cfg.properties;
    }
  }

  /** After both blocks succeed, the payload fields grew in slot order. */
  lemma SuccessPayloads(h: Collaborators, body: seq<byte>, ptype: PacketType, cfg: ClientConfig,
                        slots: seq<PayloadType>, start: nat, len: nat)
    requires h.Valid()
    ensures var d := PropertiesThenPayload(h, body, ptype, cfg, slots, start, len);
      d.code == Success ==>
        cfg.payloads <= d.cfg.payloads && Kinds(d.cfg.payloads[|cfg.payloads|..]) <= Fields(d.slots)
  {
    var pw := PropertyBlock(h, body, ptype, start, len, false, cfg);
    BlockRoutes(h, body, ptype, start, len, false, cfg);
    if pw.code == Success {
      BlockFieldsInSlotOrder(h, body, ptype, slots, start + len, pw.cfg);
    }
  }

  /** Without the will flag, the initial slot array has no will properties slot, so
      nothing is added to the will configuration's properties. */
  lemma NoWillPropertiesWithoutWillFlag(h: Collaborators, body: seq<byte>, ptype: PacketType,
                                        cfg: ClientConfig)
    requires h.Valid() && |body| >= 10 && !Flag(body[7], 0x04)
    ensures DecodeConnect(h, body, ptype, cfg, InitialSlots).cfg.willProperties == cfg.willProperties
  {
    if PreambleCode(body) == Success {
      var f := ApplyFlags(body[7], cfg, InitialSlots);
      assert f.slots == SlotsFor(body[7]);
      BlocksWithoutWillSlot(h, body, ptype, f.cfg.(keepAlive := KeepAlive(body)), f.slots);
    }
  }

  lemma BlocksWithoutWillSlot(h: Collaborators, body: seq<byte>, ptype: PacketType, cfg: ClientConfig,
                              slots: seq<PayloadType>)
    requires h.Valid() && |body| >= 10 && WillProperties !in slots
    ensures DecodeBlocks(h, body, ptype, cfg, slots).cfg.willProperties == cfg.willProperties
  {
    if |body| >= 13 && h.decodeVariableInt(body[10..]).VarIntOk? {
      var v := h.decodeVariableInt(body[10..]);
      var start := PropertyStart(v.size);
      var pw := PropertyBlock(h, body, ptype, start, v.value, false, cfg);
      BlockRoutes(h, body, ptype, start, v.value, false, cfg);
      if pw.code == Success {
        PayloadWithoutWillSlot(h, body, ptype, slots, 0, start + v.value, pw.cfg);
      }
    }
  }
}
