/** The variable byte integer of section 1.5.5 of MQTT Version 5.0: seven value bits per
    byte, least significant group first, bit 7 set on every byte but the last, at most four
    bytes. The repository's own codec is not part of this model; this one is the reference
    against which the fixed-header size and the connection's length loop are stated, and
    one instance of the decoder contract the CONNECT decoder assumes. */
module VarInt {
  import opened MqttTypes

  /** 128^4: the first value that needs a fifth byte. */
  const Limit: nat := 0x1000_0000

  function Pow128(k: nat): (p: nat)
    ensures p >= 1
  {
    if k == 0 then 1 else 128 * Pow128(k - 1)
  }

  /** The minimal encoding of `v`. */
  function Encode(v: nat): (bs: seq<byte>)
    ensures |bs| >= 1
    decreases v
  {
    if v < 128 then [v as bv8] else [ContinuationByte(v)] + Encode(v / 128)
  }

  /** The seven low bits of `v` with bit 7 set: every byte of the encoding but the last. */
  function ContinuationByte(v: nat): byte
  {
    (v % 128) as bv8 | 0x80
  }

  /** Decoding per section 1.5.5: fails when the bytes run out or when a fourth byte still
      carries a continuation bit. */
  function Decode(bs: seq<byte>): (r: VarIntRead)
    ensures r.VarIntOk? ==> 1 <= r.size <= 4 && r.size <= |bs| && r.value < Limit
  {
    var r := DecodeGroups(bs, 4);
    assert Pow128(4) == Limit;
    if r.VarIntOk? then PowMonotonic(r.size, 4); r else r
  }

  /** Reads at most `budget` bytes: the first byte's seven low bits, plus 128 times the
      value of what follows when its bit 7 is set. */
  function DecodeGroups(bs: seq<byte>, budget: nat): (r: VarIntRead)
    ensures r.VarIntOk? ==> 1 <= r.size <= budget && r.size <= |bs| && r.value < Pow128(r.size)
    decreases budget
  {
    if budget == 0 || |bs| == 0 then VarIntMalformed
    else
      var digit := (bs[0] & 0x7f) as nat;
      if bs[0] & 0x80 == 0 then VarIntOk(digit, 1)
      else
        match DecodeGroups(bs[1..], budget - 1)
        case VarIntMalformed => VarIntMalformed
        case VarIntOk(high, n) => VarIntOk(digit + 128 * high, n + 1)
  }

  lemma PowMonotonic(j: nat, k: nat)
    requires j <= k
    ensures Pow128(j) <= Pow128(k)
    decreases k
  {
    if j < k {
      PowMonotonic(j, k - 1);
    }
  }

  /** Every value below Limit survives an encode/decode round trip, whatever follows it. */
  lemma RoundTrip(v: nat, rest: seq<byte>)
    requires v < Limit
    ensures Decode(Encode(v) + rest) == VarIntOk(v, |Encode(v)|)
  {
    assert Pow128(4) == Limit;
    GroupsRoundTrip(v, rest, 4);
  }

  lemma {:induction false} GroupsRoundTrip(v: nat, rest: seq<byte>, budget: nat)
    requires budget >= 1 && v < Pow128(budget)
    ensures DecodeGroups(Encode(v) + rest, budget) == VarIntOk(v, |Encode(v)|)
    decreases v
  {
    var bs := Encode(v) + rest;
    if v < 128 {
      LastDigit(v);
      assert bs[0] == v as bv8;
    } else {
      ContinuedDigit(v);
      assert budget > 0;
      assert Pow128(budget) == 128 * Pow128(budget - 1);
      assert bs[1..] == Encode(v / 128) + rest;
      GroupsRoundTrip(v / 128, rest, budget - 1);
    }
  }

  /** A byte below 0x80 is its own seven low bits and has bit 7 clear. */
  lemma LowByte(b: byte)
    requires b < 0x80
    ensures b & 0x7f == b && b & 0x80 == 0
  {
  }

  lemma LastDigit(v: nat)
    requires v < 128
    ensures (v as bv8) & 0x7f == v as bv8 && (v as bv8) & 0x80 == 0 && ((v as bv8) & 0x7f) as nat == v
  {
    var b := v as bv8;
    assert b as nat == v;
    LowByte(b);
  }

  lemma ContinuedDigit(v: nat)
    requires v >= 128
    ensures var b := ContinuationByte(v); b & 0x80 != 0 && (b & 0x7f) as nat == v % 128
  {
    var c := (v % 128) as bv8;
    assert c as nat == v % 128;
    SetHighBit(c);
  }

  /** Setting bit 7 of a byte below 0x80 keeps its seven low bits. */
  lemma SetHighBit(c: byte)
    requires c < 0x80
    ensures (c | 0x80) & 0x80 != 0 && (c | 0x80) & 0x7f == c
  {
  }

  /** The encoding is minimal and has at most four bytes: it takes k bytes exactly when
      128^(k-1) <= v < 128^k. */
  lemma {:induction false} EncodeLength(v: nat, k: nat)
    requires 1 <= k && (k == 1 || Pow128(k - 1) <= v) && v < Pow128(k)
    ensures |Encode(v)| == k
    decreases k
  {
    if k > 1 {
      assert Pow128(k - 1) == 128 * Pow128(k - 2);
      assert v >= 128;
      assert v / 128 < Pow128(k - 1);
      if k > 2 {
        assert Pow128(k - 2) <= v / 128;
      }
      EncodeLength(v / 128, k - 1);
    } else {
      assert Pow128(1) == 128;
    }
  }

  /** Four bytes that all carry the continuation bit are malformed (section 1.5.5). */
  lemma FourContinuationBytesMalformed(bs: seq<byte>)
    requires |bs| >= 4 && forall i :: 0 <= i < 4 ==> bs[i] & 0x80 != 0
    ensures Decode(bs) == VarIntMalformed
  {
  }
}
