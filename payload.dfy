/** The CONNECT payload (section 3.1.3 of MQTT Version 5.0) as decode_payload walks it:
    the six slots in order, unused slots skipped, the will properties read as a variable
    byte integer length and a nested property block, every other field handed to the
    payload reader and then to the configuration. */
module PayloadWalks {
  import opened MqttTypes
  import opened ClientConfigs
  import opened Collaborators
  import opened PropertyStreams

  /** `_payloadFlags` before any flag is decoded: only the client identifier. */
  const InitialSlots: seq<PayloadType> :=
    [ClientId, UnknownPayload, UnknownPayload, UnknownPayload, UnknownPayload, UnknownPayload]

  /** decode_payload: the payload starts at `start`, which must not lie past the body. */
  function PayloadBlock(h: Collaborators, body: seq<byte>, ptype: PacketType, slots: seq<PayloadType>,
                        start: nat, cfg: ClientConfig): (w: Walk)
    requires h.Valid()
    ensures |body| < start ==> w.code == MalformedPacket && w.cfg == cfg
    ensures w.code == Success ==> start <= w.cursor <= |body|
  {
    if |body| < start then Walk(MalformedPacket, cfg, start)
    else PayloadWalk(h, body, ptype, slots, 0, start, cfg)
  }

  /** The loop of decode_payload from slot `i` with the cursor at `cursor`. */
  function PayloadWalk(h: Collaborators, body: seq<byte>, ptype: PacketType, slots: seq<PayloadType>,
                       i: nat, cursor: nat, cfg: ClientConfig): (w: Walk)
    requires h.Valid() && i <= |slots| && cursor <= |body|
    ensures cursor <= w.cursor <= |body|
    decreases |slots| - i
  {
    if i == |slots| then Walk(Success, cfg, cursor)
    else if cursor == |body| then Walk(Success, cfg, cursor)
    else if cursor > |body| then Walk(MalformedPacket, cfg, cursor)
    else if slots[i] == UnknownPayload then PayloadWalk(h, body, ptype, slots, i + 1, cursor, cfg)
    else
      match FieldStep(h, body, ptype, slots[i], cursor, cfg)
      case FieldStop(w) => w
      case FieldNext(cfg', next) => PayloadWalk(h, body, ptype, slots, i + 1, next, cfg')
  }

  /** One used slot: the walk stops with `w`, or goes on from `next` with `cfg`. */
  datatype FieldResult = FieldStop(w: Walk) | FieldNext(cfg: ClientConfig, next: nat)

  /** Reading the field of one used slot. */
  function FieldStep(h: Collaborators, body: seq<byte>, ptype: PacketType, slot: PayloadType, cursor: nat,
                     cfg: ClientConfig): (r: FieldResult)
    requires h.Valid() && cursor < |body| && slot != UnknownPayload
    ensures r.FieldStop? ==> r.w.code != Success && cursor <= r.w.cursor <= |body|
    ensures r.FieldNext? ==> cursor <= r.next <= |body|
  {
    if slot == WillProperties then WillField(h, body, ptype, cursor, cfg)
    else DataField(h, body, slot, cursor, cfg)
  }

  /** The will properties: a variable byte integer length, then a property block of that
      length read into the will configuration. */
  function WillField(h: Collaborators, body: seq<byte>, ptype: PacketType, cursor: nat,
                     cfg: ClientConfig): (r: FieldResult)
    requires h.Valid() && cursor < |body|
    ensures r.FieldStop? ==> r.w.code != Success && cursor <= r.w.cursor <= |body|
    ensures r.FieldNext? ==> cursor <= r.next <= |body|
  {
    match h.decodeVariableInt(body[cursor..])
    case VarIntMalformed => FieldStop(Walk(MalformedPacket, cfg, cursor))
    case VarIntOk(len, n) => WillBlock(h, body, ptype, cursor + n, len, cfg)
  }

  /** The will property block of `len` bytes at `start`: the walk stops where the block
      fails, or goes on right after it. */
  function WillBlock(h: Collaborators, body: seq<byte>, ptype: PacketType, start: nat, len: nat,
                     cfg: ClientConfig): (r: FieldResult)
    requires h.Valid() && start <= |body|
    ensures r.FieldStop? ==> r.w.code != Success && r.w.cursor == start
    ensures r.FieldNext? ==> r.next == start + len <= |body|
  {
    var pw := PropertyBlock(h, body, ptype, start, len, true, cfg);
    if pw.code != Success then FieldStop(Walk(pw.code, pw.cfg, start))
    else FieldNext(pw.cfg, start + len)
  }

  /** Any other field: read by the payload reader, then offered to the configuration. */
  function DataField(h: Collaborators, body: seq<byte>, slot: PayloadType, cursor: nat,
                     cfg: ClientConfig): (r: FieldResult)
    requires h.Valid() && cursor < |body|
    ensures r.FieldStop? ==> r.w.code != Success && cursor <= r.w.cursor <= |body| && r.w.cfg == cfg
    ensures r.FieldNext? ==> cursor <= r.next <= |body|
    ensures r.FieldNext? ==> |r.cfg.payloads| == |cfg.payloads| + 1
    ensures r.FieldNext? ==> r.cfg == cfg.(payloads := cfg.payloads + [Payload(slot, r.cfg.payloads[|cfg.payloads|].data)])
  {
    var read := h.payloadData(slot, body[cursor..]);
    if read.code != Success then FieldStop(Walk(read.code, cfg, cursor))
    else
      var field := Payload(slot, read.value);
      var accepted := h.acceptPayload(cfg, field);
      if accepted != Success then FieldStop(Walk(accepted, cfg, cursor + read.size))
      else FieldNext(cfg.(payloads := cfg.payloads + [field]), cursor + read.size)
  }

  /** Whatever the slot, a field step changes no setting and no main property and only
      appends to the lists. */
  lemma FieldStepKeepsSettings(h: Collaborators, body: seq<byte>, ptype: PacketType, slot: PayloadType,
                               cursor: nat, cfg: ClientConfig)
    requires h.Valid() && cursor < |body| && slot != UnknownPayload
    ensures var r := FieldStep(h, body, ptype, slot, cursor, cfg);
      var after := if r.FieldStop? then r.w.cfg else r.cfg;
      SameSettings(cfg, after) && after.properties == cfg.properties &&
      cfg.willProperties <= after.willProperties && cfg.payloads <= after.payloads
  {
    if slot == WillProperties {
      WillFieldKeepsPayloads(h, body, ptype, cursor, cfg);
    }
  }

  /** The will properties slot only appends will properties. */
  lemma WillFieldKeepsPayloads(h: Collaborators, body: seq<byte>, ptype: PacketType, cursor: nat,
                               cfg: ClientConfig)
    requires h.Valid() && cursor < |body|
    ensures var r := WillField(h, body, ptype, cursor, cfg);
      var after := if r.FieldStop? then r.w.cfg else r.cfg;
      SameSettings(cfg, after) && after.properties == cfg.properties &&
      cfg.willProperties <= after.willProperties && after.payloads == cfg.payloads
  {
    var d := h.decodeVariableInt(body[cursor..]);
    if d.VarIntOk? {
      BlockRoutes(h, body, ptype, cursor + d.size, d.value, true, cfg);
    }
  }

  /** The fields the slots ask the payload reader for, in slot order. */
  function Fields(slots: seq<PayloadType>): (r: seq<PayloadType>)
    ensures |r| <= |slots|
  {
    if slots == [] then []
    else (if slots[0] == UnknownPayload || slots[0] == WillProperties then [] else [slots[0]]) + Fields(slots[1..])
  }

  function Kinds(ps: seq<Payload>): (r: seq<PayloadType>)
    ensures |r| == |ps| && forall i :: 0 <= i < |ps| ==> r[i] == ps[i].kind
  {
    seq(|ps|, i requires 0 <= i < |ps| => ps[i].kind)
  }

  lemma FieldsAt(slots: seq<PayloadType>, i: nat)
    requires i < |slots|
    ensures Fields(slots[i..]) ==
      (if slots[i] == UnknownPayload || slots[i] == WillProperties then [] else [slots[i]]) + Fields(slots[i + 1..])
  {
    assert slots[i..][1..] == slots[i + 1..];
  }

  lemma SuffixAfterPrefix(a: seq<Payload>, b: seq<Payload>, c: seq<Payload>)
    requires a + b <= c
    ensures c[|a|..] == b + c[|a + b|..]
  {
    assert c == a + b + c[|a + b|..];
  }

  lemma KindsAppend(a: seq<Payload>, b: seq<Payload>)
    ensures Kinds(a + b) == Kinds(a) + Kinds(b)
  {
  }

  /** The fields a walk added: a prefix of those the slots from `i` on ask for, and all of
      them when the walk succeeds before the body is used up. */
  ghost predicate InSlotOrder(cfg: ClientConfig, w: Walk, body: seq<byte>, slots: seq<PayloadType>, i: nat)
    requires i <= |slots|
  {
    cfg.payloads <= w.cfg.payloads &&
    Kinds(w.cfg.payloads[|cfg.payloads|..]) <= Fields(slots[i..]) &&
    (w.code == Success && w.cursor < |body| ==> Kinds(w.cfg.payloads[|cfg.payloads|..]) == Fields(slots[i..]))
  }

  /** The payload walk reads fields in slot order: the kinds it adds to the configuration
      are the first fields the slots ask for, and when it succeeds before the body is used
      up, they are all of them. */
  lemma {:induction false} PayloadFieldsInSlotOrder(h: Collaborators, body: seq<byte>, ptype: PacketType,
                                                    slots: seq<PayloadType>, i: nat, cursor: nat,
                                                    cfg: ClientConfig)
    requires h.Valid() && i <= |slots| && cursor <= |body|
    ensures InSlotOrder(cfg, PayloadWalk(h, body, ptype, slots, i, cursor, cfg), body, slots, i)
    decreases |slots| - i, 1
  {
    if i < |slots| && cursor < |body| {
      if slots[i] == UnknownPayload {
        var w := PayloadWalk(h, body, ptype, slots, i + 1, cursor, cfg);
        PayloadFieldsInSlotOrder(h, body, ptype, slots, i + 1, cursor, cfg);
        SkipInSlotOrder(cfg, cfg, w, body, slots, i);
      } else if slots[i] == WillProperties {
        WillSlotInSlotOrder(h, body, ptype, slots, i, cursor, cfg);
      } else {
        DataSlotInSlotOrder(h, body, ptype, slots, i, cursor, cfg);
      }
    }
  }

  /** The walk from a will properties slot: the field adds no payload field. */
  lemma {:induction false} WillSlotInSlotOrder(h: Collaborators, body: seq<byte>, ptype: PacketType,
                                               slots: seq<PayloadType>, i: nat, cursor: nat,
                                               cfg: ClientConfig)
    requires h.Valid() && i < |slots| && cursor < |body| && slots[i] == WillProperties
    ensures InSlotOrder(cfg, PayloadWalk(h, body, ptype, slots, i, cursor, cfg), body, slots, i)
    decreases |slots| - i, 0
  {
    var r := WillField(h, body, ptype, cursor, cfg);
    WillFieldKeepsPayloads(h, body, ptype, cursor, cfg);
    if r.FieldStop? {
      StopInSlotOrder(cfg, r.w, body, slots, i);
    } else {
      var w := PayloadWalk(h, body, ptype, slots, i + 1, r.next, r.cfg);
      PayloadFieldsInSlotOrder(h, body, ptype, slots, i + 1, r.next, r.cfg);
      SkipInSlotOrder(cfg, r.cfg, w, body, slots, i);
    }
  }

  /** The walk from a data slot: the field read comes first among the fields added. */
  lemma {:induction false} DataSlotInSlotOrder(h: Collaborators, body: seq<byte>, ptype: PacketType,
                                               slots: seq<PayloadType>, i: nat, cursor: nat,
                                               cfg: ClientConfig)
    requires h.Valid() && i < |slots| && cursor < |body|
    requires slots[i] != UnknownPayload && slots[i] != WillProperties
    ensures InSlotOrder(cfg, PayloadWalk(h, body, ptype, slots, i, cursor, cfg), body, slots, i)
    decreases |slots| - i, 0
  {
    var r := DataField(h, body, slots[i], cursor, cfg);
    if r.FieldStop? {
      StopInSlotOrder(cfg, r.w, body, slots, i);
    } else {
      var w := PayloadWalk(h, body, ptype, slots, i + 1, r.next, r.cfg);
      PayloadFieldsInSlotOrder(h, body, ptype, slots, i + 1, r.next, r.cfg);
      DataFieldInSlotOrder(cfg, r.cfg, w, body, slots, i);
    }
  }

  /** A slot that asks the payload reader for nothing, passed without adding a field. */
  lemma SkipInSlotOrder(cfg: ClientConfig, mid: ClientConfig, w: Walk, body: seq<byte>,
                        slots: seq<PayloadType>, i: nat)
    requires i < |slots| && (slots[i] == UnknownPayload || slots[i] == WillProperties)
    requires mid.payloads == cfg.payloads && InSlotOrder(mid, w, body, slots, i + 1)
    ensures InSlotOrder(cfg, w, body, slots, i)
  {
    FieldsAt(slots, i);
  }

  /** A walk that fails without adding a field. */
  lemma StopInSlotOrder(cfg: ClientConfig, w: Walk, body: seq<byte>, slots: seq<PayloadType>, i: nat)
    requires i <= |slots| && w.code != Success && w.cfg.payloads == cfg.payloads
    ensures InSlotOrder(cfg, w, body, slots, i)
  {
    assert w.cfg.payloads[|cfg.payloads|..] == [];
  }

  /** The same for a whole payload block: the fields it adds come in slot order. */
  lemma BlockFieldsInSlotOrder(h: Collaborators, body: seq<byte>, ptype: PacketType,
                               slots: seq<PayloadType>, start: nat, cfg: ClientConfig)
    requires h.Valid()
    ensures var w := PayloadBlock(h, body, ptype, slots, start, cfg);
      w.code == Success ==>
        cfg.payloads <= w.cfg.payloads && Kinds(w.cfg.payloads[|cfg.payloads|..]) <= Fields(slots)
  {
    if start <= |body| {
      PayloadFieldsInSlotOrder(h, body, ptype, slots, 0, start, cfg);
      assert slots[0..] == slots;
    }
  }

  /** One data field in front of what the rest of the walk adds. */
  lemma DataFieldInSlotOrder(cfg: ClientConfig, mid: ClientConfig, w: Walk, body: seq<byte>,
                             slots: seq<PayloadType>, i: nat)
    requires i < |slots| && slots[i] != UnknownPayload && slots[i] != WillProperties
    requires |mid.payloads| == |cfg.payloads| + 1
    requires mid.payloads == cfg.payloads + [Payload(slots[i], mid.payloads[|cfg.payloads|].data)]
    requires InSlotOrder(mid, w, body, slots, i + 1)
    ensures InSlotOrder(cfg, w, body, slots, i)
  {
    FieldsAt(slots, i);
    var field := mid.payloads[|cfg.payloads|];
    var rest := w.cfg.payloads[|mid.payloads|..];
    SuffixAfterPrefix(cfg.payloads, [field], w.cfg.payloads);
    KindsAppend([field], rest);
  }

  /** The payload walk changes no setting and no main property; it only appends payload
      fields and, through the will properties slot, will properties. */
  lemma {:induction false} PayloadKeepsSettings(h: Collaborators, body: seq<byte>, ptype: PacketType,
                                                slots: seq<PayloadType>, i: nat, cursor: nat, cfg: ClientConfig)
    requires h.Valid() && i <= |slots| && cursor <= |body|
    ensures var w := PayloadWalk(h, body, ptype, slots, i, cursor, cfg);
      SameSettings(cfg, w.cfg) && w.cfg.properties == cfg.properties &&
      cfg.willProperties <= w.cfg.willProperties && cfg.payloads <= w.cfg.payloads
    decreases |slots| - i
  {
    if i < |slots| && cursor < |body| {
      if slots[i] == UnknownPayload {
        PayloadKeepsSettings(h, body, ptype, slots, i + 1, cursor, cfg);
      } else {
        var r := FieldStep(h, body, ptype, slots[i], cursor, cfg);
        FieldStepKeepsSettings(h, body, ptype, slots[i], cursor, cfg);
        if r.FieldNext? {
          PayloadKeepsSettings(h, body, ptype, slots, i + 1, r.next, r.cfg);
        }
      }
    }
  }

  /** Without a will properties slot, the walk adds nothing to the will configuration. */
  lemma {:induction false} PayloadWithoutWillSlot(h: Collaborators, body: seq<byte>, ptype: PacketType,
                                                  slots: seq<PayloadType>, i: nat, cursor: nat,
                                                  cfg: ClientConfig)
    requires h.Valid() && i <= |slots| && cursor <= |body| && WillProperties !in slots
    ensures PayloadWalk(h, body, ptype, slots, i, cursor, cfg).cfg.willProperties == cfg.willProperties
    decreases |slots| - i
  {
    if i < |slots| && cursor < |body| {
      if slots[i] == UnknownPayload {
        PayloadWithoutWillSlot(h, body, ptype, slots, i + 1, cursor, cfg);
      } else {
        var r := DataField(h, body, slots[i], cursor, cfg);
        if r.FieldNext? {
          PayloadWithoutWillSlot(h, body, ptype, slots, i + 1, r.next, r.cfg);
        }
      }
    }
  }

  /** Once no field is left to read, the walk succeeds where it stands: bytes after the
      last field are neither read nor rejected. */
  lemma {:induction false} PayloadIgnoresTrailingBytes(h: Collaborators, body: seq<byte>, ptype: PacketType,
                                                       slots: seq<PayloadType>, i: nat, cursor: nat,
                                                       cfg: ClientConfig)
    requires h.Valid() && i <= |slots| && cursor <= |body|
    requires forall k :: i <= k < |slots| ==> slots[k] == UnknownPayload
    ensures PayloadWalk(h, body, ptype, slots, i, cursor, cfg) == Walk(Success, cfg, cursor)
    decreases |slots| - i
  {
    if i < |slots| && cursor < |body| {
      PayloadIgnoresTrailingBytes(h, body, ptype, slots, i + 1, cursor, cfg);
    }
  }

  /** When the body ends, the walk succeeds, even with fields still expected. */
  lemma PayloadEndsWithBody(h: Collaborators, body: seq<byte>, ptype: PacketType,
                            slots: seq<PayloadType>, i: nat, cfg: ClientConfig)
    requires h.Valid() && i <= |slots|
    ensures PayloadWalk(h, body, ptype, slots, i, |body|, cfg) == Walk(Success, cfg, |body|)
  {
  }
}
