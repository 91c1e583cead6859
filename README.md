# lmqtt_cpp_wip: the CONNECT decoding pipeline, in Dafny

This project models the receiving side of the lmqtt MQTT version 5.0 server:

- **the connection** (`include/lmqtt_connection.h`):
  - reads the control byte of a fixed header;
  - refuses any first packet that is not a CONNECT;
  - accumulates the remaining length byte by byte and refuses packets above the size limit;
  - reads the body and hands a CONNECT body to the packet's decoder;
- **the packet** (`include/lmqtt_packet.h`):
  - classifies the control byte;
  - decodes the CONNECT variable header: protocol name and level, connect flags, keep-alive;
  - decodes the property block, with its allow-list and uniqueness checks;
  - decodes the payload fields in the order the flags select;
  - computes the packet size and whether the packet type carries a packet identifier;
  - writes the first bytes of a CONNACK.

The model is split into modules that follow the source:

- `MqttTypes` (types.dfy): bytes, reason codes, packet types and payload types.
- `VarInt` (varint.dfy): the variable byte integer of section 1.5.5 of MQTT Version 5.0. It is a reference definition that the header size and the connection's length loop are compared against.
- `ClientConfigs` (config.dfy): the client configuration that the decoder fills in.
- `Collaborators` (collaborators.dfy): the routines the decoder calls whose code is not part of this model. Each is a function-valued parameter with the contract the decoder relies on.
- `FixedHeaders` (fixed_header.dfy): `fixed_header`, `create_fixed_header` as a pure classification, and `has_packet_id`.
- `PropertyStreams`, `PayloadWalks` and `ConnectBodies` (properties.dfy, payload.dfy, connect.dfy): specification functions for `decode_properties`, `decode_payload` and `decode_connect_packet_body`, with the lemmas about them.
- `Packets` (packet.dfy): the class `Packet`. It has the fields of `lmqtt_packet`, and its methods update the header, body, type, configuration and `_payloadFlags` array in place. Each method is proved against the specification function it implements.
- `Connections` (connection.dfy):
  - the connection's state machine, written as functions over a `Conn` value;
  - the class `Connection`, whose methods (`read_fixed_header`, `read_byte`, the remaining-length loop, `read_packet_body`, `connect_to_client`) are proved against those functions.

The socket is modelled as the bytes the client has yet to send, plus an open flag. A read on a closed socket, or past the end of what the client sends, fails and closes the socket. `PACKET_SIZE_LIMIT` is a parameter.

## Model

| member | source | states |
|---|---|---|
| MqttTypes.TypeOfNibble | include/lmqtt_packet.h:48-50 | every 4-bit type field names a defined packet type whose value is that field |
| VarInt.RoundTrip | include/lmqtt_packet.h:218-224 | the section 1.5.5 decoder reads back every value below 2^28 from its minimal encoding, whatever follows it |
| VarInt.EncodeLength | include/lmqtt_packet.h:16-21 | the minimal encoding takes k bytes exactly when 128^(k-1) <= v < 128^k |
| VarInt.FourContinuationBytesMalformed | include/lmqtt_connection.h:89-97 | under section 1.5.5, four bytes that all carry the continuation bit are malformed; the connection's loop does otherwise (see Connections.LengthLoopRunsOut) |
| FixedHeaders.FixedHeader.Size | include/lmqtt_packet.h:16-21 | the header size is between 2 and 5 bytes |
| FixedHeaders.SizeMonotonic | include/lmqtt_packet.h:16-21 | the header size never shrinks as the remaining length grows |
| FixedHeaders.SizeIsEncodedLength | include/lmqtt_packet.h:16-21 | for every length below 2^28, the size is one control byte plus the length of the minimal variable byte integer encoding |
| FixedHeaders.Classify | include/lmqtt_packet.h:47-97 | the control byte is accepted exactly when its type is not RESERVED and a CONNECT or CONNACK has flag nibble 0; otherwise it is MALFORMED_PACKET; a CONNECT or CONNACK control byte sets the type to CONNECT or CONNACK whatever its flag nibble, so a malformed one still leaves the type set; every other byte leaves the type unchanged |
| FixedHeaders.ClassifyExamples | include/lmqtt_packet.h:47-97 | 0x10 is a CONNECT; 0x11 is a malformed CONNECT; every RESERVED byte is malformed; 0xC0 (PINGREQ) is accepted and leaves the type unchanged |
| FixedHeaders.HasPacketId | include/lmqtt_packet.h:520-540 | a packet identifier is carried exactly by the types from PUBACK to UNSUBACK, and by PUBLISH when its QoS is above 0 |
| PropertyStreams.PropertyBlock | include/lmqtt_packet.h:252-256 | a property block that does not fit in the body is MALFORMED_PACKET with the configuration unchanged; a block succeeds only if it lies inside the body, and it then ends exactly at its last byte |
| PropertyStreams.PropertyStream | include/lmqtt_packet.h:269-333 | the cursor never leaves the block, and the loop succeeds only when the cursor is exactly at the block's end |
| PropertyStreams.StreamStep | include/lmqtt_packet.h:275-331 | one pass checks in source order: an identifier not allowed in the packet type is MALFORMED_PACKET; a unique identifier already seen is PROTOCOL_ERROR; an identifier that is the block's last byte is MALFORMED_PACKET; a failure code from the property reader, then from the configuration's acceptance, is returned as it is; otherwise the property read is accepted and the cursor moves past its value; the seen set grows by exactly the unique identifier; a stop never carries SUCCESS |
| PropertyStreams.StreamRoutes | include/lmqtt_packet.h:319-327 | a property walk changes no setting and no payload field; it only appends, to the will list when reading will properties and to the main list otherwise |
| PropertyStreams.BlockRoutes | include/lmqtt_packet.h:252-334 | the same routing holds for a whole block, whether or not it fits in the body |
| PropertyStreams.StreamAddsAllowed | include/lmqtt_packet.h:277-281 | every property a walk adds is allowed in the packet type, and a walk adds at most one property per byte |
| PropertyStreams.StreamAddsUniqueOnce | include/lmqtt_packet.h:283-286 | no unique identifier appears twice among the properties a walk adds |
| PropertyStreams.BlockAddsValidly | include/lmqtt_packet.h:252-334 | a successful main property block fits in the body, keeps the settings, the will list and the payload fields, and appends to the main list only allowed properties that repeat no unique identifier |
| PropertyStreams.StreamFailsAtStep | include/lmqtt_packet.h:269-331 | a walk that fails stopped at the identifier just before its final cursor, with the code the pass over that identifier gives, so each failure code of one pass is the code of the whole walk |
| PropertyStreams.BlockFailure | include/lmqtt_packet.h:252-331 | a failing property block either does not fit in the body and is MALFORMED_PACKET with the configuration unchanged, or stopped inside the block with the code of the pass over one of its identifiers |
| PropertyStreams.RepeatedUniqueIsProtocolError | include/lmqtt_packet.h:283-286 | a unique property that directly follows itself makes the block PROTOCOL_ERROR |
| PropertyStreams.RepeatedNonUniqueIsRead | include/lmqtt_packet.h:283-286 | after a non-unique property (a user property) the seen set is unchanged, so the walk goes on as if it had not been seen |
| PayloadWalks.PayloadBlock | include/lmqtt_packet.h:337-348 | a payload that starts past the body is MALFORMED_PACKET with the configuration unchanged; the payload succeeds only if it starts inside the body, and it stops inside the body |
| PayloadWalks.PayloadWalk | include/lmqtt_packet.h:350-415 | the payload cursor only moves forward and never passes the body's end |
| PayloadWalks.FieldStep | include/lmqtt_packet.h:361-412 | a field either stops with a failure code inside the body, or moves the cursor forward within the body |
| PayloadWalks.WillField | include/lmqtt_packet.h:368-382 | the will properties field either stops with a failure code inside the body, or moves the cursor forward within the body (WillFieldKeepsPayloads states what it adds) |
| PayloadWalks.WillBlock | include/lmqtt_packet.h:375-382 | the will property block either stops at its start with a failure code, or succeeds only when it fits in the body and goes on right after its last byte |
| PayloadWalks.DataField | include/lmqtt_packet.h:385-411 | a failed field leaves the configuration unchanged; an accepted one appends exactly one payload field of the slot's type |
| PayloadWalks.FieldStepKeepsSettings | include/lmqtt_packet.h:361-412 | no field changes a setting or the main properties; fields only append |
| PayloadWalks.WillFieldKeepsPayloads | include/lmqtt_packet.h:368-382 | the will properties field only appends will properties |
| PayloadWalks.PayloadFieldsInSlotOrder | include/lmqtt_packet.h:350-413 | the payload fields added are the first fields the slots ask for, in slot order; all of them when the walk succeeds before the body ends |
| PayloadWalks.WillSlotInSlotOrder | include/lmqtt_packet.h:368-382 | from a will properties slot, the fields added are still the first ones the remaining slots ask for, in order |
| PayloadWalks.DataSlotInSlotOrder | include/lmqtt_packet.h:385-411 | from a data slot, the field read comes first among the fields added, then the rest in slot order |
| PayloadWalks.BlockFieldsInSlotOrder | include/lmqtt_packet.h:337-416 | a successful payload block only appends fields, and their kinds are a prefix of the fields the slots ask for |
| PayloadWalks.PayloadKeepsSettings | include/lmqtt_packet.h:350-416 | the payload walk changes no setting and no main property |
| PayloadWalks.PayloadWithoutWillSlot | include/lmqtt_packet.h:350-413 | without a will properties slot, no will property is added |
| PayloadWalks.PayloadIgnoresTrailingBytes | include/lmqtt_packet.h:350-361 | once only unused slots remain, the walk succeeds where it stands, with bytes left unread |
| PayloadWalks.PayloadEndsWithBody | include/lmqtt_packet.h:352-355 | when the body ends the walk succeeds, even with fields still expected |
| ConnectBodies.WillQosBits | include/lmqtt_packet.h:176 | the Will QoS field is at most 3 |
| ConnectBodies.PreambleCode | include/lmqtt_packet.h:118-159 | the preamble passes exactly when the 8-bit sum of bytes 0 and 1 is 4, bytes 2-5 are "MQTT", byte 6 is 5 and the reserved flag is clear; it fails with MALFORMED_PACKET or UNSUPPORTED_PROTOCOL_VERSION |
| ConnectBodies.ApplyFlags | include/lmqtt_packet.h:161-204 | writing the flags keeps the six payload slots |
| ConnectBodies.ApplyLaterFlags | include/lmqtt_packet.h:189-203 | the will retain, password and user name flags always succeed and keep six slots |
| ConnectBodies.KeepAlive | include/lmqtt_packet.h:206-211 | the keep-alive is below 2^16, with byte 8 as its high byte and byte 9 as its low byte |
| ConnectBodies.DecodeConnect | include/lmqtt_packet.h:108-250 | the decoder keeps six payload slots |
| ConnectBodies.DecodeBlocks | include/lmqtt_packet.h:213-240 | the property and payload blocks leave the slot array unchanged |
| ConnectBodies.BlocksAfterLength | include/lmqtt_packet.h:218-240 | once the property length is read, the blocks change no setting and only append to the lists |
| ConnectBodies.PropertiesThenPayloadSettings | include/lmqtt_packet.h:226-240 | the property block, then the payload, change no setting and only append to the lists |
| ConnectBodies.EmptyPropertiesSkipByte11 | include/lmqtt_packet.h:226-237 | with a one-byte property length of 0, the payload is read from byte 12, so byte 11 is skipped |
| ConnectBodies.BlocksKeepSettings | include/lmqtt_packet.h:213-240 | the blocks change no setting; they only append to the lists |
| ConnectBodies.ConnectPreambleOrder | include/lmqtt_packet.h:118-159 | the name length, name, level and reserved-flag checks come in this order, with their reason codes, and a failing one returns before anything is written |
| ConnectBodies.ConnectSettingsFollowFlags | include/lmqtt_packet.h:161-211 | once the preamble passes and the Will QoS is not 3, every setting is what the flags and keep-alive bytes say, whatever the later steps report, and the Will QoS is at most 2 |
| ConnectBodies.FlagSettings | include/lmqtt_packet.h:161-204 | with a Will QoS other than 3, the flag byte succeeds, sets every setting as SettingsFrom describes, and leaves the Will QoS at most 2 |
| ConnectBodies.PayloadSettings | include/lmqtt_packet.h:337-416 | decode_payload changes no setting and no main property |
| ConnectBodies.SlotsFor | include/lmqtt_packet.h:551-558 | the flag-selected slot array always has six slots |
| ConnectBodies.ConnectSlotsFollowFlags | include/lmqtt_packet.h:166-203 | starting from the initial slots, the slot array becomes: client identifier always, the three will slots exactly with the will flag, and user name and password exactly with their flags |
| ConnectBodies.WillQosThreeMalformed | include/lmqtt_packet.h:166-181 | Will QoS 3 is MALFORMED_PACKET after clean start, the will flag, the will slots and the QoS are written, and before anything else is |
| ConnectBodies.ShortBodyMalformed | include/lmqtt_packet.h:213-216 | a body of 10 to 12 bytes is MALFORMED_PACKET, but only after the flags and keep-alive are written |
| ConnectBodies.ConnectSuccess | include/lmqtt_packet.h:108-250 | after a successful decode: the preamble passed; the Will QoS is at most 2; the property length and whole block lie in the body; added properties are allowed and repeat no unique identifier; payload fields came in slot order |
| ConnectBodies.BlocksSuccess | include/lmqtt_packet.h:213-240 | the same guarantees for a successful pass over the two blocks |
| ConnectBodies.BlocksSuccessAfterLength | include/lmqtt_packet.h:218-240 | once the property length is read, a successful pass has the guarantees of BlocksSuccess |
| ConnectBodies.PropertiesThenPayloadSuccess | include/lmqtt_packet.h:226-240 | when the property block and then the payload succeed, the block lies in the body, the main list grew only by allowed properties with no repeated unique identifier, and the payload fields came in slot order |
| ConnectBodies.SuccessProperties | include/lmqtt_packet.h:229-240 | after both blocks succeed, the main list grew only by allowed properties with no repeated unique identifier |
| ConnectBodies.SuccessPayloads | include/lmqtt_packet.h:236-240 | after both blocks succeed, the payload fields grew in slot order |
| ConnectBodies.NoWillPropertiesWithoutWillFlag | include/lmqtt_packet.h:166-187 | without the will flag, no will property is added |
| ConnectBodies.BlocksWithoutWillSlot | include/lmqtt_packet.h:226-240 | when the slot array has no will properties slot, the blocks add no will property |
| Packets.ServerControl | include/lmqtt_packet.h:439-440 | the CONNACK control byte holds the type in its high nibble and zero flags |
| Packets.ServerControlRoundTrip | include/lmqtt_packet.h:439-440 | the control byte written for a defined type classifies back to that type, and it is accepted |
| Packets.NibbleOfCode | include/lmqtt_packet.h:48-50 | every defined packet type is the type its own code names |
| Packets.SizeIsWireLength | include/lmqtt_packet.h:424-426 | when the header's length is the body's length, size() is one control byte plus the minimal length encoding plus the body |
| Packets.Packet.constructor | include/lmqtt_packet.h:36-38 | a new packet has a cleared header, UNKNOWN type, an empty body, a default configuration, and a slot array holding only the client identifier |
| Packets.Packet.Size | include/lmqtt_packet.h:424-426 | the packet size is the body plus 2 to 5 header bytes |
| Packets.Packet.HasId | include/lmqtt_packet.h:520-540 | as FixedHeaders.HasPacketId, for the packet's own type and configured QoS |
| Packets.Packet.Reset | include/lmqtt_packet.h:40-45 | the header is cleared, the type is UNKNOWN, the body is zeroed at its length, and the variable integer buffer is zeroed |
| Packets.Packet.CreateFixedHeader | include/lmqtt_packet.h:47-97 | the reason code and the new type are the ones Classify gives for the control byte and the old type |
| Packets.Packet.DecodeProperties | include/lmqtt_packet.h:252-334 | the loop leaves the reason code and configuration that PropertyBlock gives |
| Packets.Packet.ReadProperty | include/lmqtt_packet.h:275-331 | one pass of the loop does what StreamStep says: a stop leaves the configuration unchanged; otherwise the property is added and the cursor and seen set advance |
| Packets.Packet.DecodePayload | include/lmqtt_packet.h:337-416 | the loop over `_payloadFlags` leaves the reason code and configuration that PayloadBlock gives |
| Packets.Packet.ReadField | include/lmqtt_packet.h:361-412 | one used slot does what FieldStep says |
| Packets.Packet.ReadWillProperties | include/lmqtt_packet.h:368-382 | the will properties slot does what WillField says |
| Packets.Packet.ReadWillBlock | include/lmqtt_packet.h:375-382 | the will property block does what WillBlock says |
| Packets.Packet.ReadPayloadField | include/lmqtt_packet.h:385-411 | any other used slot does what DataField says |
| Packets.Packet.DecodeConnectPacketBody | include/lmqtt_packet.h:108-250 | the reason code, configuration and slot array are the ones DecodeConnect gives for the old state |
| Packets.Packet.CheckPreamble | include/lmqtt_packet.h:118-159 | the preamble's reason code is PreambleCode's |
| Packets.Packet.WriteConnectFlags | include/lmqtt_packet.h:152-204 | the flags are written into the configuration and slot array as ApplyFlags says |
| Packets.Packet.WriteLaterFlags | include/lmqtt_packet.h:189-203 | the will retain, password and user name flags and their slots are written as ApplyLaterFlags says |
| Packets.Packet.DecodeBlocksInPlace | include/lmqtt_packet.h:213-240 | the blocks leave the reason code and configuration that DecodeBlocks gives |
| Packets.Packet.DecodePropertiesThenPayload | include/lmqtt_packet.h:226-240 | the reason code and configuration are the ones PropertiesThenPayload gives |
| Packets.Packet.DecodePacketBody | include/lmqtt_packet.h:99-106 | a CONNECT is decoded as DecodeConnect says; any other type is SUCCESS with nothing changed |
| Packets.Packet.CreateConnackPacket | include/lmqtt_packet.h:430-453 | the call succeeds exactly for server packet types; on failure nothing changes; on success the control byte is the type shifted left by 4, and the body as it stands before the `create_properties` call of line 457 has byte 0 equal to 0, byte 1 equal to the reason code and every other byte unchanged |
| Connections.NextByte | include/lmqtt_connection.h:124-140 | a read succeeds exactly on an open socket with bytes left, and returns the first one; a failed read closes the socket and consumes nothing |
| Connections.LengthLoop | include/lmqtt_connection.h:82-97 | the accumulated 32-bit length stays below 2^32, and the loop never reopens a closed socket |
| Connections.Resize | include/lmqtt_connection.h:112 | the body gets exactly the new length, keeps its prefix and is padded with zeros |
| Connections.HeaderStage | include/lmqtt_connection.h:61-114 | the configuration and slots are untouched; a halted header closes the socket and leaves the body; a header that goes on to the body has cleared the first-packet flag, is a CONNECT if it was the first packet, and has sized the body to a length within the limit |
| Connections.ControlStage | include/lmqtt_connection.h:62-70 | the control byte is consumed into the header; the socket stays open exactly when the byte classifies as SUCCESS; the type is Classify's; nothing else changes |
| Connections.LengthStage | include/lmqtt_connection.h:82-112 | only the socket, input, header length and body change; a halted stage closes the socket and keeps the body; otherwise the body is sized to a length within the limit |
| Connections.BodyStage | include/lmqtt_connection.h:149-184 | the socket is closed after the body stage in every case; type, header and body length are kept; the configuration and slots change only for a CONNECT |
| Connections.Received | include/lmqtt_connection.h:54-122 | a header callback with its body callback always ends with the socket closed |
| Connections.Session | include/lmqtt_connection.h:27-34 | connect_to_client always ends with the socket closed, and does nothing on a closed socket |
| Connections.Opened | include/lmqtt_connection.h:236 | a new connection is open and awaits its first packet |
| Connections.LengthLoopNeverMalformed | include/lmqtt_connection.h:82-97 | the 8-bit multiplier never exceeds 128^3, so the loop never reports a malformed length |
| Connections.LengthLoopConsumes | include/lmqtt_connection.h:89-97 | the loop takes bytes from the front of the input only, at most one per round |
| Connections.LengthLoopStopsAtLastByte | include/lmqtt_connection.h:89-97 | on an open socket the loop stops right after the first byte with bit 7 clear |
| Connections.LengthLoopRunsOut | include/lmqtt_connection.h:89-97 | four continuation bytes are taken as a complete length; the socket stays open and nothing is malformed |
| Connections.ZeroMultiplierAddsNothing | include/lmqtt_connection.h:91-95 | once the multiplier has wrapped to 0, later bytes add nothing |
| Connections.LengthLoopAddsAtMost16383 | include/lmqtt_connection.h:82-97 | one header adds at most 127 + 127 * 128 = 16383 to the length it starts from |
| Connections.LengthLoopReadsEncoding | include/lmqtt_connection.h:82-97 | on the minimal encoding of a length v below 2^28, the loop takes exactly the encoding's bytes but adds only v mod 16384 |
| Connections.EncodingTwoRounds | include/lmqtt_connection.h:89-97 | on the encoding of a value from 128 on, the loop takes the whole encoding and adds exactly its two low base-128 digits |
| Connections.Length16384ReadsAsZero | include/lmqtt_connection.h:82-97 | the encoding [0x80, 0x80, 0x01] of 16384 is read as length 0 |
| Connections.FirstPacketMustBeConnect | include/lmqtt_connection.h:72-77 | while the first packet is awaited, a non-CONNECT control byte closes the socket after that one byte; no length is read and body and configuration are untouched |
| Connections.PingreqFirstIsRefused | include/lmqtt_connection.h:72-77 | a new connection whose first byte is PINGREQ is closed with one byte consumed, an empty body and a default configuration |
| Connections.FirstPacketFlagCleared | include/lmqtt_connection.h:72-79 | the first-packet flag is cleared exactly when a byte classified as CONNECT is read, and it is never set again |
| Connections.OversizedPacketRefused | include/lmqtt_connection.h:104-109 | a length above the limit closes the socket before the body is resized; configuration and slots are untouched |
| Connections.BodyThenClosed | include/lmqtt_connection.h:150-170 | every session ends with the socket closed; the configuration and slots change only for a CONNECT |
| Connections.ConnectBodyDecoded | include/lmqtt_connection.h:54-170 | a CONNECT with a length below 16384 and within the limit is read in full and decoded as DecodeConnect says; its reason code is dropped, the socket is closed, and nothing after it is read |
| Connections.ConnectHeaderAccepted | include/lmqtt_connection.h:54-112 | a CONNECT control byte followed by the minimal encoding of a length n below 16384 and within the limit clears the first-packet flag, gives the header (0x10, n), sizes the body to n and leaves the input right after the length |
| Connections.LengthStageOnEncoding | include/lmqtt_connection.h:82-112 | on the minimal encoding of a length below 16384 and within the limit, onto a zero length, the length is read exactly and the body is sized to it |
| Connections.LengthStageAccepts | include/lmqtt_connection.h:99-112 | once the loop has read a well-formed length within the limit, the socket and input are the loop's and the body is resized to that length |
| Connections.ConnectBodyRead | include/lmqtt_connection.h:142-170 | a CONNECT body on the wire in full is read into the body, decoded as DecodeConnect says, and the socket is then closed with the rest unread |
| Connections.SessionWithBody | include/lmqtt_connection.h:27-34 | a session whose header stage goes on to the body ends where the body stage ends |
| Connections.LargeConnectReadAsEmpty | include/lmqtt_connection.h:82-114 | a CONNECT announced with a length of 16384 gets an empty body, and its bytes stay unread |
| Connections.Connection.constructor | include/lmqtt_connection.h:14-18 | a new connection is open, awaits its first packet, and holds a new packet |
| Connections.Connection.ConnectToClient | include/lmqtt_connection.h:27-34 | the state afterwards is the one Session gives |
| Connections.Connection.ReadFixedHeader | include/lmqtt_connection.h:54-122 | the state afterwards is the one Received gives |
| Connections.Connection.ReadControlByte | include/lmqtt_connection.h:55-70 | the state afterwards is the one ControlStage gives |
| Connections.Connection.ReadLength | include/lmqtt_connection.h:82-112 | the state afterwards is the one LengthStage gives, and the body is read next exactly when LengthStage goes on |
| Connections.Connection.ReadByte | include/lmqtt_connection.h:124-140 | the byte, the socket and the input are what NextByte gives |
| Connections.Connection.ReadRemainingLength | include/lmqtt_connection.h:81-97 | the socket, the input, the accumulated length and the malformed flag are what LengthLoop gives; the control byte is kept |
| Connections.Connection.ReadPacketBody | include/lmqtt_connection.h:142-187 | the state afterwards is the one BodyStage gives |

## Left out

- Asynchrony and the socket itself:
  - asio scheduling, `asio::post`, `disconnect`, `is_connected`, `get_remote_endpoint`, `get_id` and `set_client_id` (include/lmqtt_connection.h:14-50, 215-223) are not modelled; the model reads synchronously from a byte sequence.
  - A read either gets all the bytes it asks for or fails.
- `read_byte` returns its local before the read completes, so its value is indeterminate. Connections.NextByte treats the read as synchronous, and a failed read yields 0.
- Timing and console output (`std::chrono`, `std::cout` in decode_connect_packet_body and in the connection's log lines): these are side effects only.
- `configure_client` and `read_packet` (include/lmqtt_connection.h:189-212):
  - `configure_client` iterates a member `lmqtt_packet` does not declare, and does nothing;
  - `read_packet` re-arms a header read that the close right after it cancels.
- Packets.Packet.CreateConnackPacket: the call to `create_properties` (include/lmqtt_packet.h:457, 464-493) is not modelled. It depends on the client configuration's precomputed property sizes and on the variable integer encoder, which are not part of this model. The contract describes the body as it is before that call; the call then writes the encoded property length at body offset 0 (its `start` argument 2 is unused), overwriting the acknowledge flags and possibly the reason code, and resizes the body to the length of that encoding plus the property size. With no properties the body ends up one byte long and the reason code is lost. The method also requires a body of at least 2 bytes, which the source indexes without a check.
- `operator<<` and `get_type_string` (include/lmqtt_packet.h:418-421, 496-518): text output only.
- The routines in other headers are parameters (module Collaborators), with only the contract the decoder relies on:
  - `utils::decode_variable_int`;
  - the property allow-list and uniqueness tables;
  - `property::get_property_data`, `payload::get_payload`;
  - the client configuration's `configure_*` methods and `init_will_cfg`;
  - `packet::utils::is_server_packet`.

  Their code is not part of this model. The configuration keeps every property and payload field they accept, in arrival order.
- `_clientCfg` is a shared pointer that the modelled headers never assign. The model gives each packet a default configuration instead of dereferencing a null pointer.
- Packets.Packet.DecodeConnectPacketBody: requires a body of at least 10 bytes. The source reads bytes 0 to 9 before its only size check (include/lmqtt_packet.h:214), so a shorter body is read past its end.
- Connections.BodyStage: for the same reason, the model does not decode a CONNECT body shorter than 10 bytes. The source would read past the buffer.
- Offsets are unbounded integers. The 32-bit wrap of `start + size` in decode_properties and of the pointer differences is not modelled. The remaining length itself is kept modulo 2^32, because it is not reset between headers.
- The payload slot indices assume that `payload_type` numbers its values in the order of section 3.1.3 of MQTT Version 5.0: client identifier 0, will properties 1, will topic 2, will payload 3, user name 4, password 5. lmqtt_payload.h is not part of this model.
- The numeric values of `packet_type` (RESERVED 0 to AUTH 15) and of `packet_flag` for CONNECT and CONNACK (0) are taken from sections 2.1.2 and 2.1.3 of MQTT Version 5.0, since the header that declares them is not part of this model. MqttTypes.PacketType.Code, MqttTypes.TypeOfNibble, MqttTypes.ConnectFlagNibble and MqttTypes.ConnackFlagNibble rest on that assumption.
- `PACKET_SIZE_LIMIT` is a parameter, since its value is not defined in the modelled headers.

## Where the code and MQTT Version 5.0 disagree

The model follows the code. The lemmas named here state what it does.

- **Remaining length.** The multiplier is a `uint8_t`, so it goes 1, 128, 0.
  - Only two length bytes count, and a length v is read as v mod 16384 (Connections.LengthLoopReadsEncoding, Connections.Length16384ReadsAsZero, Connections.LargeConnectReadAsEmpty).
  - Section 1.5.5 multiplies by 128 for every byte.
  - The MALFORMED branch for a multiplier above 128^3 can never be taken (Connections.LengthLoopNeverMalformed).
  - Four continuation bytes are accepted as a length (Connections.LengthLoopRunsOut), where section 1.5.5 calls them malformed (VarInt.FourContinuationBytesMalformed).
- **After the body.**
  - The socket is closed after every body, and the CONNECT's reason code is dropped (Connections.BodyThenClosed, Connections.ConnectBodyDecoded). MQTT Version 5.0 has the server go on to read the next packet.
  - A malformed control byte closes the socket, but the callback still goes on to read the length from the closed socket (Connections.HeaderStage).
- **Protocol name length.** This is the 8-bit sum of bytes 0 and 1 (ConnectBodies.PreambleCode), not their big-endian value.
- **Property block start.** The property block starts one byte after the property length field ends (ConnectBodies.EmptyPropertiesSkipByte11). A CONNECT whose properties are empty therefore has its payload read from byte 12, not byte 11. The will properties are read right after their length (PayloadWalks.WillField).
- **Payload end.**
  - The payload succeeds when the body ends, even with fields still expected (PayloadWalks.PayloadEndsWithBody).
  - It also succeeds with bytes left over after the last field (PayloadWalks.PayloadIgnoresTrailingBytes).
  - MQTT Version 5.0 calls both malformed.
