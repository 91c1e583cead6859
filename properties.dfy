/** The property stream of section 2.2.2 of MQTT Version 5.0 as decode_properties walks it:
    a cursor over one block of the body, one identifier byte and its value per step, the
    packet type's allow-list and the uniqueness of identifiers checked before the value is
    read, and every accepted property routed to the main or the will configuration. */
module PropertyStreams {
  import opened MqttTypes
  import opened ClientConfigs
  import opened Collaborators

  /** Where a walk stopped: its reason code, the configuration as it stands, and the
      cursor. */
  datatype Walk = Walk(code: ReasonCode, cfg: ClientConfig, cursor: nat)

  /** decode_properties: the block `[start, start+size)` must lie inside the body. */
  function PropertyBlock(h: Collaborators, body: seq<byte>, ptype: PacketType, start: nat, size: nat,
                         isWill: bool, cfg: ClientConfig): (w: Walk)
    requires h.Valid()
    ensures |body| < start + size ==> w == Walk(MalformedPacket, cfg, start)
    ensures w.code == Success ==> start + size <= |body| && w.cursor == start + size
  {
    if |body| < start + size then Walk(MalformedPacket, cfg, start)
    else PropertyStream(h, body, ptype, start, start + size, size, isWill, {}, cfg)
  }

  /** The loop of decode_properties from `cursor`; `seen` holds the unique identifiers
      met so far. */
  function PropertyStream(h: Collaborators, body: seq<byte>, ptype: PacketType, cursor: nat, end: nat,
                          size: nat, isWill: bool, seen: set<PropertyId>, cfg: ClientConfig): (w: Walk)
    requires h.Valid() && cursor <= end <= |body|
    ensures cursor <= w.cursor <= end
    ensures w.code == Success ==> w.cursor == end
    decreases end - cursor
  {
    if cursor == end then Walk(Success, cfg, cursor)
    else
      match StreamStep(h, body, ptype, cursor, end, size, isWill, seen, cfg)
      case Stop(code) => Walk(code, cfg, cursor + 1)
      case Next(p, next, seen') =>
        PropertyStream(h, body, ptype, next, end, size, isWill, seen', AddProperty(cfg, p, isWill))
  }

  /** One pass of the loop: it ends the walk with a reason code, or yields the accepted
      property, the cursor after it and the updated set of unique identifiers. */
  datatype Step = Stop(code: ReasonCode) | Next(p: Property, next: nat, seen: set<PropertyId>)

  /** The checks of one pass, in the order the loop makes them: the identifier must be
      allowed in the packet type, a unique identifier must not have been seen, the
      identifier must not be the block's last byte, then the value must be read and
      accepted by the configuration. */
  function StreamStep(h: Collaborators, body: seq<byte>, ptype: PacketType, cursor: nat, end: nat,
                      size: nat, isWill: bool, seen: set<PropertyId>, cfg: ClientConfig): (s: Step)
    requires h.Valid() && cursor < end <= |body|
    ensures s.Stop? ==> s.code != Success
    ensures !h.allowedIn(body[cursor], ptype) ==> s == Stop(MalformedPacket)
    ensures h.allowedIn(body[cursor], ptype) && h.isUnique(body[cursor]) && body[cursor] in seen ==>
      s == Stop(ProtocolError)
    ensures NewIdentifier(h, body[cursor], ptype, seen) && cursor + 1 == end ==> s == Stop(MalformedPacket)
    ensures NewIdentifier(h, body[cursor], ptype, seen) && cursor + 1 < end && end - (cursor + 1) <= size ==>
      var read := h.propertyData(body[cursor], body[cursor + 1..end]);
      (read.code != Success ==> s == Stop(read.code)) &&
      (read.code == Success ==>
         var accepted := Acceptance(h, cfg, Property(body[cursor], read.value), isWill);
         (accepted != Success ==> s == Stop(accepted)) &&
         (accepted == Success ==> s.Next? && s.p == Property(body[cursor], read.value) &&
                                  s.next == cursor + 1 + read.size))
    ensures s.Next? ==>
      cursor < s.next <= end && s.p.id == body[cursor] && h.allowedIn(s.p.id, ptype) &&
      (h.isUnique(s.p.id) ==> s.p.id !in seen && s.seen == seen + {s.p.id}) &&
      (!h.isUnique(s.p.id) ==> s.seen == seen)
  {
    var id := body[cursor];
    if !h.allowedIn(id, ptype) then Stop(MalformedPacket)
    else if h.isUnique(id) && id in seen then Stop(ProtocolError)
    else
      var seen' := if h.isUnique(id) then seen + {id} else seen;
      var remaining := end - (cursor + 1);
      if remaining == 0 || remaining > size then Stop(MalformedPacket)
      else
        var read := h.propertyData(id, body[cursor + 1..end]);
        if read.code != Success then Stop(read.code)
        else
          var p := Property(id, read.value);
          var accepted := Acceptance(h, cfg, p, isWill);
          if accepted != Success then Stop(accepted)
          else Next(p, cursor + 1 + read.size, seen')
  }

  /** The identifier passed the allow-list and, when unique, has not been seen. */
  predicate NewIdentifier(h: Collaborators, id: PropertyId, ptype: PacketType, seen: set<PropertyId>)
  {
    h.allowedIn(id, ptype) && !(h.isUnique(id) && id in seen)
  }

  /** The configuration's verdict on a property, for the will or the main list. */
  function Acceptance(h: Collaborators, cfg: ClientConfig, p: Property, isWill: bool): ReasonCode
  {
    if isWill then h.acceptWillProperty(cfg, p) else h.acceptProperty(cfg, p)
  }

  /** The properties a walk added to the list it routes to. */
  function Added(before: ClientConfig, after: ClientConfig, isWill: bool): seq<Property>
  {
    var list := if isWill then after.willProperties else after.properties;
    var prior := if isWill then before.willProperties else before.properties;
    if |prior| <= |list| then list[|prior|..] else []
  }

  /** `after` differs from `before` only by appending to the list `isWill` routes to: the
      will list when the block holds will properties, the main list otherwise. */
  ghost predicate RoutedTo(before: ClientConfig, after: ClientConfig, isWill: bool)
  {
    SameSettings(before, after) && before.payloads == after.payloads &&
    (if isWill then after.properties == before.properties && before.willProperties <= after.willProperties
     else after.willProperties == before.willProperties && before.properties <= after.properties)
  }

  lemma AddRoutes(cfg: ClientConfig, p: Property, isWill: bool)
    ensures RoutedTo(cfg, AddProperty(cfg, p, isWill), isWill)
  {
  }

  lemma RoutesCompose(a: ClientConfig, b: ClientConfig, c: ClientConfig, isWill: bool)
    requires RoutedTo(a, b, isWill) && RoutedTo(b, c, isWill)
    ensures RoutedTo(a, c, isWill)
  {
  }

  /** A walk touches only the list it routes to, and only by appending: the will list when
      the block holds will properties, the main list otherwise. */
  lemma {:induction false} StreamRoutes(h: Collaborators, body: seq<byte>, ptype: PacketType, cursor: nat,
                                         end: nat, size: nat, isWill: bool, seen: set<PropertyId>,
                                         cfg: ClientConfig)
    requires h.Valid() && cursor <= end <= |body|
    ensures var w := PropertyStream(h, body, ptype, cursor, end, size, isWill, seen, cfg);
      RoutedTo(cfg, w.cfg, isWill)
    decreases end - cursor
  {
    if cursor < end {
      var s := StreamStep(h, body, ptype, cursor, end, size, isWill, seen, cfg);
      if s.Next? {
        var cfg' := AddProperty(cfg, s.p, isWill);
        StreamRoutes(h, body, ptype, s.next, end, size, isWill, s.seen, cfg');
        AddRoutes(cfg, s.p, isWill);
        RoutesCompose(cfg, cfg', PropertyStream(h, body, ptype, s.next, end, size, isWill, s.seen, cfg').cfg, isWill);
      }
    }
  }

  /** The same for a whole block, whether or not it fits in the body. */
  lemma BlockRoutes(h: Collaborators, body: seq<byte>, ptype: PacketType, start: nat, size: nat,
                    isWill: bool, cfg: ClientConfig)
    requires h.Valid()
    ensures var w := PropertyBlock(h, body, ptype, start, size, isWill, cfg);
      RoutedTo(cfg, w.cfg, isWill)
  {
    if start + size <= |body| {
      StreamRoutes(h, body, ptype, start, start + size, size, isWill, {}, cfg);
    }
  }

  /** Every property a walk added is allowed in the packet type, and a walk adds at most
      one property per byte of the block. */
  lemma {:induction false} StreamAddsAllowed(h: Collaborators, body: seq<byte>, ptype: PacketType,
                                              cursor: nat, end: nat, size: nat, isWill: bool,
                                              seen: set<PropertyId>, cfg: ClientConfig)
    requires h.Valid() && cursor <= end <= |body|
    ensures var w := PropertyStream(h, body, ptype, cursor, end, size, isWill, seen, cfg);
      var added := Added(cfg, w.cfg, isWill);
      |added| <= end - cursor && forall i :: 0 <= i < |added| ==> h.allowedIn(added[i].id, ptype)
    decreases end - cursor
  {
    if cursor < end {
      var s := StreamStep(h, body, ptype, cursor, end, size, isWill, seen, cfg);
      if s.Next? {
        var cfg' := AddProperty(cfg, s.p, isWill);
        var w := PropertyStream(h, body, ptype, s.next, end, size, isWill, s.seen, cfg');
        StreamAddsAllowed(h, body, ptype, s.next, end, size, isWill, s.seen, cfg');
        AddedAfterStep(h, body, ptype, s.next, end, size, isWill, s.seen, cfg, s.p);
      }
    }
  }

  /** No identifier for which `unique` holds appears twice in `ps`, nor appears in `seen`. */
  ghost predicate UniqueOnce(ps: seq<Property>, seen: set<PropertyId>, unique: PropertyId -> bool)
  {
    (forall i :: 0 <= i < |ps| && unique(ps[i].id) ==> ps[i].id !in seen) &&
    (forall i, j :: 0 <= i < j < |ps| && unique(ps[i].id) ==> ps[i].id != ps[j].id)
  }

  lemma ConsUniqueOnce(p: Property, rest: seq<Property>, seen: set<PropertyId>, seen': set<PropertyId>,
                       unique: PropertyId -> bool)
    requires unique(p.id) ==> p.id !in seen && seen' == seen + {p.id}
    requires !unique(p.id) ==> seen' == seen
    requires UniqueOnce(rest, seen', unique)
    ensures UniqueOnce([p] + rest, seen, unique)
  {
    var ps := [p] + rest;
    forall i, j | 0 <= i < j < |ps| && unique(ps[i].id)
      ensures ps[i].id != ps[j].id
    {
      assert ps[j] == rest[j - 1];
      if i > 0 {
        assert ps[i] == rest[i - 1];
      }
    }
    forall i | 0 <= i < |ps| && unique(ps[i].id)
      ensures ps[i].id !in seen
    {
      if i > 0 {
        assert ps[i] == rest[i - 1];
      }
    }
  }

  /** No identifier marked unique appears twice among the properties a walk added, nor
      repeats one seen before the walk started. */
  lemma {:induction false} StreamAddsUniqueOnce(h: Collaborators, body: seq<byte>, ptype: PacketType,
                                                 cursor: nat, end: nat, size: nat, isWill: bool,
                                                 seen: set<PropertyId>, cfg: ClientConfig)
    requires h.Valid() && cursor <= end <= |body|
    ensures var w := PropertyStream(h, body, ptype, cursor, end, size, isWill, seen, cfg);
      UniqueOnce(Added(cfg, w.cfg, isWill), seen, h.isUnique)
    decreases end - cursor
  {
    if cursor < end {
      var s := StreamStep(h, body, ptype, cursor, end, size, isWill, seen, cfg);
      if s.Next? {
        var cfg' := AddProperty(cfg, s.p, isWill);
        var w := PropertyStream(h, body, ptype, s.next, end, size, isWill, s.seen, cfg');
        StreamAddsUniqueOnce(h, body, ptype, s.next, end, size, isWill, s.seen, cfg');
        AddedAfterStep(h, body, ptype, s.next, end, size, isWill, s.seen, cfg, s.p);
        ConsUniqueOnce(s.p, Added(cfg', w.cfg, isWill), seen, s.seen, h.isUnique);
      }
    }
  }

  /** `after` extends `before` with properties allowed in the packet type that repeat no
      unique identifier. */
  ghost predicate PropertiesGrewValidly(h: Collaborators, ptype: PacketType, before: seq<Property>,
                                        after: seq<Property>)
  {
    before <= after &&
    (forall i :: |before| <= i < |after| ==> h.allowedIn(after[i].id, ptype)) &&
    UniqueOnce(after[|before|..], {}, h.isUnique)
  }

  /** A main property block that succeeds fits in the body, keeps the settings, the will
      list and the payload fields, and only appends to the main list properties that are
      allowed in the packet type and repeat no unique identifier. */
  lemma BlockAddsValidly(h: Collaborators, body: seq<byte>, ptype: PacketType, start: nat, size: nat,
                         cfg: ClientConfig)
    requires h.Valid()
    ensures var w := PropertyBlock(h, body, ptype, start, size, false, cfg);
      w.code == Success ==>
        start + size <= |body| && SameSettings(cfg, w.cfg) && cfg.payloads == w.cfg.payloads &&
        w.cfg.willProperties == cfg.willProperties &&
        PropertiesGrewValidly(h, ptype, cfg.properties, w.cfg.properties)
  {
    var w := PropertyBlock(h, body, ptype, start, size, false, cfg);
    if w.code == Success {
      var end := start + size;
      assert w == PropertyStream(h, body, ptype, start, end, size, false, {}, cfg);
      StreamRoutes(h, body, ptype, start, end, size, false, {}, cfg);
      StreamAddsAllowed(h, body, ptype, start, end, size, false, {}, cfg);
      StreamAddsUniqueOnce(h, body, ptype, start, end, size, false, {}, cfg);
      var added := Added(cfg, w.cfg, false);
      assert added == w.cfg.properties[|cfg.properties|..];
      forall i | |cfg.properties| <= i < |w.cfg.properties|
        ensures h.allowedIn(w.cfg.properties[i].id, ptype)
      {
        assert w.cfg.properties[i] == added[i - |cfg.properties|];
      }
    }
  }

  /** The properties a walk adds after accepting `p` are `p` followed by the rest. */
  lemma AddedAfterStep(h: Collaborators, body: seq<byte>, ptype: PacketType, next: nat, end: nat,
                       size: nat, isWill: bool, seen: set<PropertyId>, cfg: ClientConfig, p: Property)
    requires h.Valid() && next <= end <= |body|
    ensures var cfg' := AddProperty(cfg, p, isWill);
      var w := PropertyStream(h, body, ptype, next, end, size, isWill, seen, cfg');
      Added(cfg, w.cfg, isWill) == [p] + Added(cfg', w.cfg, isWill)
  {
    var cfg' := AddProperty(cfg, p, isWill);
    StreamRoutes(h, body, ptype, next, end, size, isWill, seen, cfg');
  }

  /** The pass over the identifier at `at` stops with `code` for some set of seen
      identifiers. */
  ghost predicate StopsAt(h: Collaborators, body: seq<byte>, ptype: PacketType, at: nat, end: nat, size: nat,
                          isWill: bool, cfg: ClientConfig, code: ReasonCode)
    requires h.Valid() && at < end <= |body|
  {
    exists seen: set<PropertyId> :: StreamStep(h, body, ptype, at, end, size, isWill, seen, cfg) == Stop(code)
  }

  /** A walk that fails stopped at the identifier just before its final cursor, and its
      code is the one that step gives there, with the configuration as the walk left it;
      so every failure code of one pass is a failure code of the whole walk. */
  lemma {:induction false} StreamFailsAtStep(h: Collaborators, body: seq<byte>, ptype: PacketType, cursor: nat,
                                             end: nat, size: nat, isWill: bool, seen: set<PropertyId>,
                                             cfg: ClientConfig)
    requires h.Valid() && cursor <= end <= |body|
    ensures var w := PropertyStream(h, body, ptype, cursor, end, size, isWill, seen, cfg);
      w.code != Success ==>
        cursor < w.cursor <= end &&
        StopsAt(h, body, ptype, w.cursor - 1, end, size, isWill, w.cfg, w.code)
    decreases end - cursor
  {
    var w := PropertyStream(h, body, ptype, cursor, end, size, isWill, seen, cfg);
    if cursor < end {
      match StreamStep(h, body, ptype, cursor, end, size, isWill, seen, cfg)
      case Stop(code) =>
        assert w == Walk(code, cfg, cursor + 1);
        assert StreamStep(h, body, ptype, w.cursor - 1, end, size, isWill, seen, w.cfg) == Stop(w.code);
      case Next(p, next, seen'') =>
        StreamFailsAtStep(h, body, ptype, next, end, size, isWill, seen'', AddProperty(cfg, p, isWill));
    }
  }

  /** A property block fails either because it does not fit in the body, with
      MALFORMED_PACKET, or because one pass over an identifier inside it stopped, with that
      pass's code. */
  lemma BlockFailure(h: Collaborators, body: seq<byte>, ptype: PacketType, start: nat, size: nat,
                     isWill: bool, cfg: ClientConfig)
    requires h.Valid()
    ensures var w := PropertyBlock(h, body, ptype, start, size, isWill, cfg);
      w.code != Success ==>
        (|body| < start + size && w.code == MalformedPacket && w.cfg == cfg) ||
        (start + size <= |body| && start < w.cursor <= start + size &&
         StopsAt(h, body, ptype, w.cursor - 1, start + size, size, isWill, w.cfg, w.code))
  {
    if start + size <= |body| {
      StreamFailsAtStep(h, body, ptype, start, start + size, size, isWill, {}, cfg);
    }
  }

  /** A unique identifier that comes back in the same block ends the walk with
      PROTOCOL_ERROR when the walk reaches it: here, two such properties in a row. */
  lemma RepeatedUniqueIsProtocolError(h: Collaborators, body: seq<byte>, ptype: PacketType, start: nat,
                                      size: nat, isWill: bool, cfg: ClientConfig)
    requires h.Valid() && start + size <= |body| && 0 < size
    requires var s := StreamStep(h, body, ptype, start, start + size, size, isWill, {}, cfg);
      s.Next? && h.isUnique(s.p.id) && s.next < start + size && body[s.next] == s.p.id
    ensures PropertyBlock(h, body, ptype, start, size, isWill, cfg).code == ProtocolError
  {
    var s := StreamStep(h, body, ptype, start, start + size, size, isWill, {}, cfg);
    var cfg' := AddProperty(cfg, s.p, isWill);
    assert StreamStep(h, body, ptype, s.next, start + size, size, isWill, s.seen, cfg') == Stop(ProtocolError);
    assert PropertyStream(h, body, ptype, s.next, start + size, size, isWill, s.seen, cfg').code == ProtocolError;
  }

  /** An identifier that is not unique (a user property) may come back: after the first
      occurrence is accepted, the walk goes on with the same set of seen identifiers, so a
      second occurrence passes the uniqueness check and is read like the first. */
  lemma RepeatedNonUniqueIsRead(h: Collaborators, body: seq<byte>, ptype: PacketType, start: nat,
                                size: nat, isWill: bool, cfg: ClientConfig)
    requires h.Valid() && start + size <= |body| && 0 < size
    requires var s := StreamStep(h, body, ptype, start, start + size, size, isWill, {}, cfg);
      s.Next? && !h.isUnique(s.p.id)
    ensures var s := StreamStep(h, body, ptype, start, start + size, size, isWill, {}, cfg);
      s.seen == {} &&
      PropertyBlock(h, body, ptype, start, size, isWill, cfg) ==
      PropertyStream(h, body, ptype, s.next, start + size, size, isWill, {}, AddProperty(cfg, s.p, isWill))
  {
  }
}
