/** The connection side of the server (include/lmqtt_connection.h): the control byte of a
    fixed header is read and classified, the first packet must be a CONNECT, the
    remaining length is accumulated byte by byte, packets above the size limit are
    refused, the body is read and a CONNECT body is decoded; the socket is then closed.
    The asynchronous socket is modelled as the sequence of bytes the client has yet to
    send, and a closed flag: a read on a closed socket, or past the end of what the client
    sends, fails and closes it. */
module Connections {
  import opened MqttTypes
  import opened ClientConfigs
  import opened Collaborators
  import opened FixedHeaders
  import opened PayloadWalks
  import opened ConnectBodies
  import opened Packets
  import VarInt

  /** What a connection holds between two callbacks: the socket, the first-packet flag,
      the unread input and the staging packet's header, type, body, configuration and
      payload slots. */
  datatype Conn = Conn(open: bool, isFirstPacket: bool, input: seq<byte>,
                       header: FixedHeader, ptype: PacketType, body: seq<byte>,
                       cfg: ClientConfig, slots: seq<PayloadType>)
  {
    ghost predicate Valid() { header.Valid() && |slots| == 6 }
  }

  /** The socket and the input after one byte read, and the byte read. */
  datatype ByteRead = ByteRead(open: bool, input: seq<byte>, b: byte)

  /** read_byte: the next byte of the stream. A failed read closes the socket; the byte it
      returns is then taken to be 0. */
  function NextByte(open: bool, input: seq<byte>): (r: ByteRead)
    ensures r.open <==> open && |input| > 0
    ensures r.open ==> r.b == input[0] && r.input == input[1..]
    ensures !r.open ==> r.b == 0 && r.input == input
  {
    if open && |input| > 0 then ByteRead(true, input[1..], input[0]) else ByteRead(false, input, 0)
  }

  /** The socket, the input and `_packetLen` after the remaining-length loop, and whether
      the loop found the length malformed. */
  datatype LengthRead = LengthRead(open: bool, input: seq<byte>, packetLen: nat, malformed: bool)

  /** The seven low bits of a length byte. */
  function Digit(b: byte): (d: nat)
    ensures d < 128
  {
    LowBits(b);
    (b & 0x7f) as nat
  }

  /** Bit 7 of a length byte: another byte follows. */
  predicate Continues(b: byte)
  {
    b & 0x80 != 0
  }

  /** `mul *= 0x80` on the 8-bit multiplier. */
  function NextMultiplier(mul: nat): (r: nat)
    ensures r < 0x100
  {
    mul * 0x80 % 0x100
  }

  /** `_packetLen += (b & 0x7f) * mul` on a 32-bit unsigned `_packetLen`. */
  function Accumulate(packetLen: nat, b: byte, mul: nat): (r: nat)
    ensures r < U32Modulus
  {
    (packetLen + Digit(b) * mul) % U32Modulus
  }

  /** The remaining-length loop of read_fixed_header from round `offset` on, with the 8-bit
      multiplier `mul`: each byte adds its seven low bits times `mul` onto `_packetLen`
      (a 32-bit unsigned integer that the loop does not reset), the multiplier is then
      multiplied by 128 modulo 256, and the loop stops after a byte with bit 7 clear, after
      four bytes, or when the multiplier exceeded 128^3. */
  function LengthLoop(open: bool, input: seq<byte>, offset: nat, mul: nat, packetLen: nat): (r: LengthRead)
    requires offset <= 4 && mul < 0x100 && packetLen < U32Modulus
    ensures r.packetLen < U32Modulus
    ensures r.open ==> open
    decreases 4 - offset
  {
    if offset == 4 then LengthRead(open, input, packetLen, false)
    else
      var n := NextByte(open, input);
      var len := Accumulate(packetLen, n.b, mul);
      var malformed := mul > 0x200000;
      if !Continues(n.b) || malformed then LengthRead(n.open, n.input, len, malformed)
      else LengthLoop(n.open, n.input, offset + 1, NextMultiplier(mul), len)
  }

  /** std::vector::resize: the first `n` bytes are kept, new bytes are zero. */
  function Resize(body: seq<byte>, n: nat): (r: seq<byte>)
    ensures |r| == n
    ensures forall i :: 0 <= i < n ==> r[i] == if i < |body| then body[i] else 0
  {
    if n <= |body| then body[..n] else body + Zeros(n - |body|)
  }

  /** Where a fixed header leaves the connection: halted, or with a body to read. */
  datatype Staged = Halted(c: Conn) | BodyNext(c: Conn)

  /** The read_fixed_header callback. A failed read of the control byte closes the
      socket. A malformed classification closes the socket but the callback goes on.
      While the first packet is awaited, any type other than CONNECT closes the socket and
      stops; otherwise the first-packet flag is cleared. A malformed length or one above
      `limit` closes the socket and stops; otherwise the body is resized to the length and
      is read next. */
  function HeaderStage(limit: nat, s: Conn): (r: Staged)
    requires s.Valid()
    ensures r.c.Valid() && r.c.cfg == s.cfg && r.c.slots == s.slots
    ensures r.Halted? ==> !r.c.open && r.c.body == s.body
    ensures r.BodyNext? ==>
      !r.c.isFirstPacket && (s.isFirstPacket ==> r.c.ptype == Connect)
    ensures r.BodyNext? ==> |r.c.body| == r.c.header.packetLen <= limit
  {
    if !s.open || |s.input| == 0 then Halted(s.(open := false))
    else
      var s1 := ControlStage(s);
      if s1.isFirstPacket && s1.ptype != Connect then Halted(s1.(open := false))
      else LengthStage(limit, s1.(isFirstPacket := false))
  }

  /** The control byte is read into the header and classified; a malformed
      classification closes the socket. */
  function ControlStage(s: Conn): (r: Conn)
    requires s.Valid() && s.open && |s.input| > 0
    ensures r.Valid() && r.input == s.input[1..] && r.header.controlField == s.input[0]
    ensures r.open <==> Classify(s.input[0], s.ptype).code == Success
    ensures r.ptype == Classify(s.input[0], s.ptype).ptype
    ensures r == s.(open := r.open, input := r.input, header := r.header, ptype := r.ptype)
    ensures r.header.packetLen == s.header.packetLen
  {
    var c := Classify(s.input[0], s.ptype);
    s.(open := c.code != MalformedPacket && c.code != ProtocolError,
       input := s.input[1..], header := s.header.(controlField := s.input[0]),
       ptype := c.ptype)
  }

  /** The remaining length is accumulated onto `_packetLen`; a malformed length or one
      above `limit` closes the socket, otherwise the body is resized to it. */
  function LengthStage(limit: nat, s: Conn): (r: Staged)
    requires s.Valid()
    ensures r.c.Valid()
    ensures r.c == s.(open := r.c.open, input := r.c.input, header := r.c.header, body := r.c.body)
    ensures r.c.header.controlField == s.header.controlField
    ensures r.Halted? ==> !r.c.open && r.c.body == s.body
    ensures r.BodyNext? ==> |r.c.body| == r.c.header.packetLen <= limit
  {
    var l := LengthLoop(s.open, s.input, 0, 1, s.header.packetLen);
    var s2 := s.(open := l.open, input := l.input, header := s.header.(packetLen := l.packetLen));
    if l.malformed || l.packetLen > limit then Halted(s2.(open := false))
    else BodyNext(s2.(body := Resize(s2.body, l.packetLen)))
  }

  /** The read_packet_body callback. A failed read closes the socket. Otherwise the body
      is read; a CONNECT body is decoded and its reason code is dropped; the socket is
      closed in every case. The header read that read_packet re-arms fails on the closed
      socket and changes nothing. */
  function BodyStage(h: Collaborators, s: Conn): (r: Conn)
    requires h.Valid() && s.Valid()
    ensures r.Valid() && !r.open && r.isFirstPacket == s.isFirstPacket
    ensures r.ptype == s.ptype && r.header == s.header && |r.body| == |s.body|
    ensures s.ptype != Connect ==> r.cfg == s.cfg && r.slots == s.slots
  {
    if !s.open || |s.input| < |s.body| then s.(open := false)
    else
      var body := s.input[..|s.body|];
      var s1 := s.(input := s.input[|s.body|..], body := body);
      if s1.ptype == Connect && |body| >= 10 then
        var d := DecodeConnect(h, body, Connect, s1.cfg, s1.slots);
        s1.(open := false, cfg := d.cfg, slots := d.slots)
      else s1.(open := false)
  }

  /** A fixed header and, when it is accepted, the body that follows it. */
  function Received(h: Collaborators, limit: nat, s: Conn): (r: Conn)
    requires h.Valid() && s.Valid()
    ensures r.Valid() && !r.open
  {
    match HeaderStage(limit, s)
    case Halted(c) => c
    case BodyNext(c) => BodyStage(h, c)
  }

  /** connect_to_client: on an open socket one packet is received; the socket is closed
      afterwards whatever the packet was. */
  function Session(h: Collaborators, limit: nat, s: Conn): (r: Conn)
    requires h.Valid() && s.Valid()
    ensures r.Valid() && !r.open
    ensures s.open || r == s
  {
    if !s.open then s else Received(h, limit, s)
  }

  /** A new connection: an open socket awaiting its first packet, and a new packet. */
  function Opened(input: seq<byte>): (c: Conn)
    ensures c.Valid() && c.open && c.isFirstPacket && c.input == input
  {
    Conn(true, true, input, Cleared, Unknown, [], Fresh, InitialSlots)
  }

  // ---------------------------------------------------------------------------------
  // The remaining-length loop
  // ---------------------------------------------------------------------------------

  /** The 8-bit multiplier runs 1, 128, 0 and stays 0. */
  lemma MultiplierSteps()
    ensures NextMultiplier(1) == 0x80 && (0x80 as bv8) * 0x80 == 0 && (0 as bv8) * 0x80 == 0
  {
  }

  /** The seven low bits of a byte are at most 127. */
  lemma LowBits(b: byte)
    ensures (b & 0x7f) as nat <= 127
  {
    assert b & 0x7f <= 0x7f;
  }

  /** The multiplier is 8 bits wide, so it never exceeds 128^3 and the loop never reports
      a malformed length. */
  lemma {:induction false} LengthLoopNeverMalformed(open: bool, input: seq<byte>, offset: nat, mul: nat, len: nat)
    requires offset <= 4 && mul < 0x100 && len < U32Modulus
    ensures !LengthLoop(open, input, offset, mul, len).malformed
    decreases 4 - offset
  {
    if offset < 4 {
      var n := NextByte(open, input);
      if Continues(n.b) {
        LengthLoopNeverMalformed(n.open, n.input, offset + 1, NextMultiplier(mul), Accumulate(len, n.b, mul));
      }
    }
  }

  /** The loop takes bytes from the front of the input only, at most one per remaining
      round. */
  lemma {:induction false} LengthLoopConsumes(open: bool, input: seq<byte>, offset: nat, mul: nat, len: nat)
    requires offset <= 4 && mul < 0x100 && len < U32Modulus
    ensures var r := LengthLoop(open, input, offset, mul, len);
      |r.input| <= |input| && |input| - |r.input| <= 4 - offset &&
      r.input == input[|input| - |r.input|..]
    decreases 4 - offset
  {
    if offset < 4 {
      var n := NextByte(open, input);
      if Continues(n.b) && mul <= 0x200000 {
        var len' := Accumulate(len, n.b, mul);
        LengthLoopConsumes(n.open, n.input, offset + 1, NextMultiplier(mul), len');
        var r := LengthLoop(n.open, n.input, offset + 1, NextMultiplier(mul), len');
        if n.open {
          assert input[1..][|n.input| - |r.input|..] == input[|input| - |r.input|..];
        }
      }
    }
  }

  /** On an open socket the loop stops right after the first byte whose bit 7 is clear,
      when that byte is among the ones the remaining rounds read. */
  lemma {:induction false} LengthLoopStopsAtLastByte(input: seq<byte>, offset: nat, mul: nat, len: nat, j: nat)
    requires offset + j < 4 && j < |input| && mul < 0x100 && len < U32Modulus
    requires forall i :: 0 <= i < j ==> Continues(input[i])
    requires !Continues(input[j])
    ensures var r := LengthLoop(true, input, offset, mul, len);
      r.open && r.input == input[j + 1..]
    decreases j
  {
    if j > 0 && mul <= 0x200000 {
      assert forall i :: 0 <= i < j - 1 ==> input[1..][i] == input[i + 1];
      assert input[1..][j - 1] == input[j];
      LengthLoopStopsAtLastByte(input[1..], offset + 1, NextMultiplier(mul), Accumulate(len, input[0], mul), j - 1);
      assert input[1..][j..] == input[j + 1..];
    }
  }

  /** Four bytes that all carry the continuation bit are taken as a complete length and
      the socket stays open; section 1.5.5 of MQTT Version 5.0 calls them malformed
      (VarInt.FourContinuationBytesMalformed). */
  lemma {:induction false} LengthLoopRunsOut(input: seq<byte>, offset: nat, mul: nat, len: nat)
    requires offset <= 4 && mul < 0x100 && len < U32Modulus && |input| >= 4 - offset
    requires forall i :: 0 <= i < 4 - offset ==> Continues(input[i])
    ensures var r := LengthLoop(true, input, offset, mul, len);
      r.open && !r.malformed && r.input == input[4 - offset..]
    decreases 4 - offset
  {
    if offset < 4 {
      LengthLoopNeverMalformed(true, input, offset, mul, len);
      assert forall i :: 0 <= i < 4 - (offset + 1) ==> input[1..][i] == input[i + 1];
      LengthLoopRunsOut(input[1..], offset + 1, NextMultiplier(mul), Accumulate(len, input[0], mul));
      assert input[1..][4 - (offset + 1)..] == input[4 - offset..];
    }
  }

  /** Once the multiplier has wrapped to 0 the remaining rounds add nothing. */
  lemma {:induction false} ZeroMultiplierAddsNothing(open: bool, input: seq<byte>, offset: nat, len: nat)
    requires offset <= 4 && len < U32Modulus
    ensures LengthLoop(open, input, offset, 0, len).packetLen == len
    decreases 4 - offset
  {
    if offset < 4 {
      var n := NextByte(open, input);
      assert Accumulate(len, n.b, 0) == len;
      if Continues(n.b) {
        MultiplierSteps();
        ZeroMultiplierAddsNothing(n.open, n.input, offset + 1, len);
      }
    }
  }

  /** Only the first two length bytes count: one header adds at most 127 + 127 * 128 =
      16383 onto `_packetLen`. */
  lemma LengthLoopAddsAtMost16383(open: bool, input: seq<byte>, len: nat)
    requires len + 16383 < U32Modulus
    ensures var r := LengthLoop(open, input, 0, 1, len);
      len <= r.packetLen <= len + 16383
  {
    if !open || |input| == 0 {
      NothingToRead(open, input, 0, 1, len);
    } else {
      var d0 := Digit(input[0]);
      FirstRound(input, len);
      if Continues(input[0]) {
        TailAddsAtMost(input[1..], len + d0);
        assert LengthLoop(open, input, 0, 1, len) == LengthLoop(true, input[1..], 1, 0x80, len + d0);
      } else {
        assert LengthLoop(open, input, 0, 1, len).packetLen == len + d0;
      }
    }
  }

  /** From round 1 on, the loop adds at most 127 * 128. */
  lemma TailAddsAtMost(input: seq<byte>, len: nat)
    requires len + 128 * 127 < U32Modulus
    ensures var r := LengthLoop(true, input, 1, 0x80, len);
      len <= r.packetLen <= len + 128 * 127
  {
    if |input| == 0 {
      NothingToRead(true, input, 1, 0x80, len);
    } else {
      var len2 := len + 128 * Digit(input[0]);
      assert len2 <= len + 128 * 127;
      SecondRound(input, len);
      if Continues(input[0]) {
        ZeroMultiplierAddsNothing(true, input[1..], 2, len2);
        assert LengthLoop(true, input, 1, 0x80, len).packetLen == len2;
      } else {
        assert LengthLoop(true, input, 1, 0x80, len).packetLen == len2;
      }
    }
  }

  /** A round on a closed socket or an exhausted input reads 0, closes and stops. */
  lemma NothingToRead(open: bool, input: seq<byte>, offset: nat, mul: nat, len: nat)
    requires offset < 4 && mul < 0x100 && len < U32Modulus && !(open && |input| > 0)
    ensures LengthLoop(open, input, offset, mul, len) == LengthRead(false, input, len, false)
  {
    assert !Continues(0) && Digit(0) == 0;
    assert Accumulate(len, 0, mul) == len;
  }

  /** One round on an open socket with bytes left: a byte with bit 7 set passes on to the
      next round, one with bit 7 clear ends the loop. */
  lemma LengthLoopRound(input: seq<byte>, offset: nat, mul: nat, len: nat)
    requires offset < 4 && |input| > 0 && mul < 0x100 && len < U32Modulus
    ensures var r := LengthLoop(true, input, offset, mul, len);
      var len' := Accumulate(len, input[0], mul);
      r == if Continues(input[0]) then LengthLoop(true, input[1..], offset + 1, NextMultiplier(mul), len')
           else LengthRead(true, input[1..], len', false)
  {
  }

  /** Round 0, multiplier 1: the byte's low bits are added as they are. */
  lemma FirstRound(input: seq<byte>, len: nat)
    requires |input| > 0 && len + 127 < U32Modulus
    ensures LengthLoop(true, input, 0, 1, len) ==
      if Continues(input[0]) then LengthLoop(true, input[1..], 1, 0x80, len + Digit(input[0]))
      else LengthRead(true, input[1..], len + Digit(input[0]), false)
  {
    LengthLoopRound(input, 0, 1, len);
    AccumulateWithoutWrap(len, input[0], 1);
    assert NextMultiplier(1) == 0x80;
  }

  /** Round 1, multiplier 128: the byte's low bits are added 128 times, and the
      multiplier wraps to 0. */
  lemma SecondRound(input: seq<byte>, len: nat)
    requires |input| > 0 && len + 128 * 127 < U32Modulus
    ensures LengthLoop(true, input, 1, 0x80, len) ==
      if Continues(input[0]) then LengthLoop(true, input[1..], 2, 0, len + 128 * Digit(input[0]))
      else LengthRead(true, input[1..], len + 128 * Digit(input[0]), false)
  {
    LengthLoopRound(input, 1, 0x80, len);
    assert Digit(input[0]) * 0x80 <= 127 * 128;
    AccumulateWithoutWrap(len, input[0], 0x80);
    assert NextMultiplier(0x80) == 0;
  }

  /** Below 2^32 the accumulation does not wrap. */
  lemma AccumulateWithoutWrap(len: nat, b: byte, mul: nat)
    requires len + Digit(b) * mul < U32Modulus
    ensures Accumulate(len, b, mul) == len + Digit(b) * mul
  {
  }

  /** The low fourteen bits of v are its two lowest base-128 digits. */
  lemma TwoDigits(v: nat)
    ensures v % 16384 == v % 128 + 128 * ((v / 128) % 128)
  {
    var q := v / 128;
    assert v == 16384 * (q / 128) + 128 * (q % 128) + v % 128;
  }

  /** One byte of the minimal encoding of v: bit 7 is set exactly when more follow, and
      the low bits are v modulo 128. */
  lemma EncodingHead(v: nat, rest: seq<byte>)
    ensures var input := VarInt.Encode(v) + rest;
      Continues(input[0]) == (v >= 128) && Digit(input[0]) == v % 128 &&
      input[1..] == (if v < 128 then rest else VarInt.Encode(v / 128) + rest)
  {
    if v < 128 {
      LastByte(v, rest);
    } else {
      ContinuedByte(v, rest);
    }
  }

  /** The head and tail of a sequence that starts with one element. */
  lemma DropHead(x: byte, a: seq<byte>, rest: seq<byte>)
    ensures ([x] + a + rest)[0] == x && ([x] + a + rest)[1..] == a + rest
  {
  }

  /** The single byte that encodes a value below 128. */
  lemma LastByte(v: nat, rest: seq<byte>)
    requires v < 128
    ensures var input := VarInt.Encode(v) + rest;
      !Continues(input[0]) && Digit(input[0]) == v && input[1..] == rest
  {
    assert VarInt.Encode(v) == [v as bv8];
    DropHead(v as bv8, [], rest);
    LastByteBits(v);
  }

  lemma LastByteBits(v: nat)
    requires v < 128
    ensures !Continues(v as bv8) && Digit(v as bv8) == v
  {
    VarInt.LastDigit(v);
  }

  /** The first byte of the encoding of a value from 128 on. */
  lemma ContinuedByte(v: nat, rest: seq<byte>)
    requires v >= 128
    ensures var input := VarInt.Encode(v) + rest;
      Continues(input[0]) && Digit(input[0]) == v % 128 && input[1..] == VarInt.Encode(v / 128) + rest
  {
    var b := VarInt.ContinuationByte(v);
    assert VarInt.Encode(v) == [b] + VarInt.Encode(v / 128);
    DropHead(b, VarInt.Encode(v / 128), rest);
    ContinuedByteBits(v);
  }

  lemma ContinuedByteBits(v: nat)
    requires v >= 128
    ensures var b := VarInt.ContinuationByte(v); Continues(b) && Digit(b) == v % 128
  {
    VarInt.ContinuedDigit(v);
  }

  /** On the minimal encoding of a remaining length v (section 1.5.5 of MQTT Version 5.0)
      the loop takes exactly the encoding's bytes but adds only v modulo 16384. */
  lemma LengthLoopReadsEncoding(v: nat, rest: seq<byte>, len: nat)
    requires v < VarInt.Limit && len + 16384 <= U32Modulus
    ensures LengthLoop(true, VarInt.Encode(v) + rest, 0, 1, len) == LengthRead(true, rest, len + v % 16384, false)
  {
    if v < 128 {
      EncodingSingleByte(v, rest, len);
      assert v % 16384 == v;
    } else {
      EncodingTwoRounds(v, rest, len);
      TwoDigits(v);
    }
  }

  /** Rounds 0 and 1 on the encoding of a value from 128 on: the two low digits are
      added, and round 2 on takes what remains of the encoding. */
  lemma EncodingTwoRounds(v: nat, rest: seq<byte>, len: nat)
    requires 128 <= v < VarInt.Limit && len + 16384 <= U32Modulus
    ensures LengthLoop(true, VarInt.Encode(v) + rest, 0, 1, len) ==
      LengthRead(true, rest, len + v % 128 + 128 * ((v / 128) % 128), false)
  {
    var q := v / 128;
    var len1 := len + v % 128;
    QuotientBelow(v);
    EncodingFirstRound(v, rest, len);
    EncodingTail(q, rest, len1);
  }

  /** What follows the first byte of an encoding below 2^28 is a value below 2^21. */
  lemma QuotientBelow(v: nat)
    requires v < VarInt.Limit
    ensures v / 128 < 0x20_0000 && v % 128 < 128
  {
  }

  /** Round 0 on the encoding of a value below 128: its one byte is the whole length. */
  lemma EncodingSingleByte(v: nat, rest: seq<byte>, len: nat)
    requires v < 128 && len + 16384 <= U32Modulus
    ensures LengthLoop(true, VarInt.Encode(v) + rest, 0, 1, len) == LengthRead(true, rest, len + v, false)
  {
    LastByte(v, rest);
    FirstRound(VarInt.Encode(v) + rest, len);
  }

  /** Round 0 on the encoding of a value from 128 on: its first byte adds the low digit
      and passes the encoding of v / 128 to round 1. */
  lemma EncodingFirstRound(v: nat, rest: seq<byte>, len: nat)
    requires v >= 128 && len + 16384 <= U32Modulus
    ensures LengthLoop(true, VarInt.Encode(v) + rest, 0, 1, len) ==
      LengthLoop(true, VarInt.Encode(v / 128) + rest, 1, 0x80, len + v % 128)
  {
    ContinuedByte(v, rest);
    FirstRound(VarInt.Encode(v) + rest, len);
  }

  /** Round 1 on the encoding of q, the value of what follows the first byte: its first
      byte adds 128 times its low digit, and round 2 on takes what remains of the
      encoding. */
  lemma EncodingTail(q: nat, rest: seq<byte>, len1: nat)
    requires q < 0x20_0000 && len1 + 128 * 127 < U32Modulus
    ensures LengthLoop(true, VarInt.Encode(q) + rest, 1, 0x80, len1) ==
      LengthRead(true, rest, len1 + 128 * (q % 128), false)
  {
    var input1 := VarInt.Encode(q) + rest;
    EncodingHead(q, rest);
    SecondRound(input1, len1);
    if q >= 128 {
      ZeroMultiplierTakesEncoding(q / 128, rest, len1 + 128 * (q % 128));
    }
  }

  /** With the multiplier at 0, round 2 on takes the rest of an encoding of at most two
      bytes, adding nothing. */
  lemma ZeroMultiplierTakesEncoding(w: nat, rest: seq<byte>, len: nat)
    requires w < 16384 && len < U32Modulus
    ensures LengthLoop(true, VarInt.Encode(w) + rest, 2, 0, len) == LengthRead(true, rest, len, false)
  {
    MultiplierSteps();
    var input := VarInt.Encode(w) + rest;
    EncodingHead(w, rest);
    LengthLoopRound(input, 2, 0, len);
    assert Accumulate(len, input[0], 0) == len;
    if w >= 128 {
      var input1 := VarInt.Encode(w / 128) + rest;
      assert input[1..] == input1;
      EncodingHead(w / 128, rest);
      LengthLoopRound(input1, 3, 0, len);
      assert Accumulate(len, input1[0], 0) == len;
    }
  }

  /** The length 16384, encoded [0x80, 0x80, 0x01], is read as 0 more bytes. */
  lemma Length16384ReadsAsZero(rest: seq<byte>)
    ensures LengthLoop(true, [0x80, 0x80, 0x01] + rest, 0, 1, 0) == LengthRead(true, rest, 0, false)
  {
    var input := [0x80, 0x80, 0x01] + rest;
    assert Continues(0x80) && Digit(0x80) == 0 && !Continues(0x01);
    assert input[0] == 0x80 && input[1..] == [0x80, 0x01] + rest;
    FirstRound(input, 0);
    assert input[1..][0] == 0x80 && input[1..][1..] == [0x01] + rest;
    SecondRound(input[1..], 0);
    assert ([0x01] + rest)[0] == 0x01 && ([0x01] + rest)[1..] == rest;
    LengthLoopRound([0x01] + rest, 2, 0, 0);
    assert Accumulate(0, 0x01, 0) == 0;
  }

  // ---------------------------------------------------------------------------------
  // The connection
  // ---------------------------------------------------------------------------------

  /** While the first packet is awaited, a control byte of any type other than CONNECT
      closes the socket after that one byte: no length is read and the body and the
      configuration are left as they were. */
  lemma FirstPacketMustBeConnect(h: Collaborators, limit: nat, s: Conn)
    requires h.Valid() && s.Valid() && s.open && s.isFirstPacket && |s.input| > 0
    requires Classify(s.input[0], s.ptype).ptype != Connect
    ensures Session(h, limit, s) ==
      s.(open := false, input := s.input[1..], header := s.header.(controlField := s.input[0]),
         ptype := Classify(s.input[0], s.ptype).ptype)
  {
  }

  /** A PINGREQ as the first packet of a new connection is refused. */
  lemma PingreqFirstIsRefused(h: Collaborators, limit: nat, rest: seq<byte>)
    requires h.Valid()
    ensures var r := Session(h, limit, Opened([0xC0] + rest));
      !r.open && r.isFirstPacket && r.input == rest && r.cfg == Fresh && r.body == [] &&
      r.ptype == Unknown
  {
    ClassifyExamples(Unknown);
    assert ([0xC0] + rest)[1..] == rest;
  }

  /** The first-packet flag is cleared exactly when a control byte classified as CONNECT
      (or any byte, once the flag is already clear) is read, and is never set again. */
  lemma FirstPacketFlagCleared(h: Collaborators, limit: nat, s: Conn)
    requires h.Valid() && s.Valid()
    ensures var r := Session(h, limit, s);
      r.isFirstPacket <==>
        s.isFirstPacket && !(s.open && |s.input| > 0 && Classify(s.input[0], s.ptype).ptype == Connect)
  {
  }

  /** A length above the limit closes the socket before the body is resized or read. */
  lemma OversizedPacketRefused(h: Collaborators, limit: nat, s: Conn)
    requires h.Valid() && s.Valid() && s.open && |s.input| > 0
    requires var c := Classify(s.input[0], s.ptype);
      c.code == Success && (!s.isFirstPacket || c.ptype == Connect)
    requires LengthLoop(true, s.input[1..], 0, 1, s.header.packetLen).packetLen > limit
    ensures var r := Session(h, limit, s);
      !r.open && r.body == s.body && r.cfg == s.cfg && r.slots == s.slots &&
      r.header.packetLen > limit
  {
  }

  /** After a body has been read the socket is closed, whether or not it was a CONNECT
      and whatever its decoding reported; the configuration and the slots change only for
      a CONNECT. */
  lemma BodyThenClosed(h: Collaborators, limit: nat, s: Conn)
    requires h.Valid() && s.Valid()
    ensures var r := Session(h, limit, s);
      !r.open && (r.ptype != Connect ==> r.cfg == s.cfg && r.slots == s.slots)
  {
    if s.open {
      match HeaderStage(limit, s)
      case Halted(c) =>
      case BodyNext(c) =>
    }
  }

  /** A CONNECT whose remaining length is below 16384 and within the limit reaches the
      decoder: its whole body is read, the configuration and the slots are those
      DecodeConnect gives for it, the reason code is dropped and the socket is closed
      with nothing after the packet consumed. */
  lemma ConnectBodyDecoded(h: Collaborators, limit: nat, s: Conn, body: seq<byte>, rest: seq<byte>)
    requires h.Valid() && s.Valid() && s.open && s.header.packetLen == 0
    requires 10 <= |body| < 16384 && |body| <= limit
    requires s.input == [0x10] + VarInt.Encode(|body|) + (body + rest)
    ensures var d := DecodeConnect(h, body, Connect, s.cfg, s.slots);
      Session(h, limit, s) ==
        s.(open := false, isFirstPacket := false, input := rest, header := FixedHeader(0x10, |body|),
           ptype := Connect, body := body, cfg := d.cfg, slots := d.slots)
  {
    var c := s.(isFirstPacket := false, input := body + rest, header := FixedHeader(0x10, |body|),
                ptype := Connect, body := Resize(s.body, |body|));
    ConnectHeaderAccepted(limit, s, |body|, body + rest);
    ConnectBodyRead(h, c, body, rest);
    SessionWithBody(h, limit, s, c);
  }

  /** A session whose header stage goes on to the body ends where the body stage does. */
  lemma SessionWithBody(h: Collaborators, limit: nat, s: Conn, c: Conn)
    requires h.Valid() && s.Valid() && s.open && HeaderStage(limit, s) == BodyNext(c)
    ensures Session(h, limit, s) == BodyStage(h, c)
  {
  }

  /** The body stage of a CONNECT whose body is on the wire in full. */
  lemma ConnectBodyRead(h: Collaborators, c: Conn, body: seq<byte>, rest: seq<byte>)
    requires h.Valid() && c.Valid() && c.open && c.ptype == Connect
    requires |c.body| == |body| >= 10 && c.input == body + rest
    ensures var d := DecodeConnect(h, body, Connect, c.cfg, c.slots);
      BodyStage(h, c) == c.(open := false, input := rest, body := body, cfg := d.cfg, slots := d.slots)
  {
    assert (body + rest)[..|body|] == body && (body + rest)[|body|..] == rest;
  }

  /** The header stage on a CONNECT control byte followed by the minimal encoding of a
      length below 16384 and within the limit: the length is read exactly and the body is
      sized to it. */
  lemma ConnectHeaderAccepted(limit: nat, s: Conn, n: nat, tail: seq<byte>)
    requires s.Valid() && s.open && s.header.packetLen == 0 && n < 16384 && n <= limit
    requires s.input == [0x10] + VarInt.Encode(n) + tail
    ensures HeaderStage(limit, s) ==
      BodyNext(s.(isFirstPacket := false, input := tail, header := FixedHeader(0x10, n),
                  ptype := Connect, body := Resize(s.body, n)))
  {
    ClassifyExamples(s.ptype);
    assert s.input[0] == 0x10;
    assert s.input[1..] == VarInt.Encode(n) + tail;
    var s1 := s.(input := VarInt.Encode(n) + tail, header := s.header.(controlField := 0x10), ptype := Connect);
    assert ControlStage(s) == s1;
    LengthStageOnEncoding(limit, s1.(isFirstPacket := false), n, tail);
  }

  /** The length stage on the minimal encoding of a length below 16384 and within the
      limit, onto a zero `_packetLen`: the length is read exactly and the body sized to it. */
  lemma LengthStageOnEncoding(limit: nat, s: Conn, n: nat, tail: seq<byte>)
    requires s.Valid() && s.open && s.header.packetLen == 0 && n < 16384 && n <= limit
    requires s.input == VarInt.Encode(n) + tail
    ensures LengthStage(limit, s) ==
      BodyNext(s.(input := tail, header := s.header.(packetLen := n), body := Resize(s.body, n)))
  {
    var l := LengthLoop(s.open, s.input, 0, 1, s.header.packetLen);
    LengthLoopReadsEncoding(n, tail, 0);
    assert 0 + n % 16384 == n;
    assert l == LengthRead(true, tail, n, false);
    LengthStageAccepts(limit, s, l);
  }

  /** The length stage once the loop has read a well-formed length within the limit. */
  lemma LengthStageAccepts(limit: nat, s: Conn, l: LengthRead)
    requires s.Valid() && l == LengthLoop(s.open, s.input, 0, 1, s.header.packetLen)
    requires !l.malformed && l.packetLen <= limit
    ensures LengthStage(limit, s) ==
      BodyNext(s.(open := l.open, input := l.input, header := s.header.(packetLen := l.packetLen),
                  body := Resize(s.body, l.packetLen)))
  {
  }

  /** A CONNECT of 16384 body bytes is announced with the length [0x80, 0x80, 0x01]; the
      connection reads it as an empty body and leaves all 16384 bytes unread. */
  lemma LargeConnectReadAsEmpty(h: Collaborators, limit: nat, s: Conn, rest: seq<byte>)
    requires h.Valid() && s.Valid() && s.open && s.header.packetLen == 0
    requires s.input == [0x10, 0x80, 0x80, 0x01] + rest
    ensures var r := Session(h, limit, s);
      r.header.packetLen == 0 && r.body == [] && r.input == rest && r.cfg == s.cfg
  {
    ClassifyExamples(s.ptype);
    assert s.input[1..] == [0x80, 0x80, 0x01] + rest;
    Length16384ReadsAsZero(rest);
    assert rest[..0] == [] && rest[0..] == rest;
  }

  /** A client connection: the socket, the first-packet flag and the packet being staged.
      `input` holds what the client has yet to send. */
  class Connection {
    var open: bool
    var isFirstPacket: bool
    var input: seq<byte>
    /** `_tempPacket`. */
    const packet: Packet
    /** PACKET_SIZE_LIMIT, whose value is not part of this model. */
    const sizeLimit: nat

    ghost predicate Valid()
      reads this, packet
    {
      packet.Valid()
    }

    /** The connection's state as a value. */
    function View(): (c: Conn)
      reads this, packet, packet.payloadFlags
    {
      Conn(open, isFirstPacket, input, packet.header, packet.ptype, packet.body, packet.cfg, packet.payloadFlags[..])
    }

    /** A connection over a freshly accepted socket. */
    constructor(h: Collaborators, sizeLimit: nat, input: seq<byte>)
      requires h.Valid()
      ensures Valid() && packet.h == h && this.sizeLimit == sizeLimit
      ensures View() == Opened(input)
    {
      open := true;
      isFirstPacket := true;
      this.input := input;
      this.sizeLimit := sizeLimit;
      packet := new Packet(h);
    }

    /** connect_to_client. */
    method ConnectToClient()
      requires Valid()
      modifies this, packet, packet.payloadFlags
      ensures Valid()
      ensures View() == Session(packet.h, sizeLimit, old(View()))
    {
      if open {
        ReadFixedHeader();
      }
    }

    /** read_fixed_header and its callback. */
    method ReadFixedHeader()
      requires Valid()
      modifies this, packet, packet.payloadFlags
      ensures Valid()
      ensures View() == Received(packet.h, sizeLimit, old(View()))
    {
      if !open || |input| == 0 {
        open := false;
        return;
      }
      ReadControlByte();
      if isFirstPacket {
        if packet.ptype != Connect {
          open := false;
          return;
        }
        isFirstPacket := false;
      }
      var proceed := ReadLength();
      if proceed {
        ReadPacketBody();
      }
    }

    /** The control byte into the header, then create_fixed_header; a malformed
        classification closes the socket. */
    method ReadControlByte()
      requires Valid() && open && |input| > 0
      modifies this`open, this`input, packet`header, packet`ptype
      ensures Valid()
      ensures View() == ControlStage(old(View()))
    {
      packet.header := packet.header.(controlField := input[0]);
      input := input[1..];
      var rcode := packet.CreateFixedHeader();
      if rcode == MalformedPacket || rcode == ProtocolError {
        open := false;
      }
    }

    /** The remaining length, the malformed and size-limit checks, and the resize of the
        body; `proceed` tells whether the body is read next. */
    method ReadLength() returns (proceed: bool)
      requires Valid()
      modifies this`open, this`input, packet`header, packet`body
      ensures Valid()
      ensures var r := LengthStage(sizeLimit, old(View()));
        View() == r.c && (proceed <==> r.BodyNext?)
    {
      var malformed := ReadRemainingLength();
      if malformed {
        open := false;
        return false;
      }
      if packet.header.packetLen > sizeLimit {
        open := false;
        return false;
      }
      packet.body := Resize(packet.body, packet.header.packetLen);
      return true;
    }

    /** read_byte. */
    method ReadByte() returns (b: byte)
      modifies this`open, this`input
      ensures ByteRead(open, input, b) == NextByte(old(open), old(input))
    {
      if open && |input| > 0 {
        b := input[0];
        input := input[1..];
      } else {
        open := false;
        b := 0;
      }
    }

    /** The remaining-length loop of the read_fixed_header callback. */
    method ReadRemainingLength() returns (malformed: bool)
      requires Valid()
      modifies this`open, this`input, packet`header
      ensures Valid() && packet.header.controlField == old(packet.header.controlField)
      ensures LengthRead(open, input, packet.header.packetLen, malformed) ==
              LengthLoop(old(open), old(input), 0, 1, old(packet.header.packetLen))
    {
      var mul: nat := 1;
      var offset := 0;
      malformed := false;
      while offset < 4
        invariant offset <= 4 && mul < 0x100 && Valid() && !malformed
        invariant packet.header.controlField == old(packet.header.controlField)
        invariant LengthLoop(open, input, offset, mul, packet.header.packetLen) ==
                  LengthLoop(old(open), old(input), 0, 1, old(packet.header.packetLen))
        decreases 4 - offset
      {
        var b := ReadByte();
        packet.header := packet.header.(packetLen := Accumulate(packet.header.packetLen, b, mul));
        malformed := mul > 0x200000;
        mul := NextMultiplier(mul);
        if !Continues(b) || malformed {
          return;
        }
        offset := offset + 1;
      }
    }

    /** read_packet_body and its callback. */
    method ReadPacketBody()
      requires Valid()
      modifies this`open, this`input, packet`body, packet`cfg, packet.payloadFlags
      ensures Valid()
      ensures View() == BodyStage(packet.h, old(View()))
    {
      if !open || |input| < |packet.body| {
        open := false;
        return;
      }
      var n := |packet.body|;
      packet.body := input[..n];
      input := input[n..];
      if packet.ptype == Connect && |packet.body| >= 10 {
        var rcode := packet.DecodeConnectPacketBody();
      }
      open := false;
    }
  }
}
