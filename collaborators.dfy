/** The routines the decoder calls whose code is not part of this model: the variable byte
    integer reader, the property tables and readers, the payload reader, the
    configuration's acceptance checks and the server-packet table. Each is a parameter,
    and Valid() states the contract the decoder relies on; nothing else about them is
    assumed. */
module Collaborators {
  import opened MqttTypes
  import opened ClientConfigs

  datatype Collaborators = Collaborators(
    // utils::decode_variable_int, given the bytes from the read position to the limit
    decodeVariableInt: seq<byte> -> VarIntRead,
    // property::types_utils::validate_packet_property_type
    allowedIn: (PropertyId, PacketType) -> bool,
    // property::types_utils::is_property_unique
    isUnique: PropertyId -> bool,
    // property::get_property_data, given the bytes after the identifier up to the block end
    propertyData: (PropertyId, seq<byte>) -> Extracted<PropertyValue>,
    // payload::get_payload, given the bytes from the read position to the body end
    payloadData: (PayloadType, seq<byte>) -> Extracted<seq<byte>>,
    // client_config::configure_propriety, configure_will_propriety, configure_payload
    acceptProperty: (ClientConfig, Property) -> ReasonCode,
    acceptWillProperty: (ClientConfig, Property) -> ReasonCode,
    acceptPayload: (ClientConfig, Payload) -> ReasonCode,
    // packet::utils::is_server_packet
    isServerPacket: PacketType -> bool)
  {
    /** The assumed contracts: a variable byte integer takes one to four of the bytes it
        is given (section 1.5.5 of MQTT Version 5.0) and is below 2^28; a reader that
        reports SUCCESS took no more bytes than it was given; only defined packet types
        are server packets. */
    ghost predicate Valid()
    {
      (forall bs :: decodeVariableInt(bs).VarIntOk? ==>
         1 <= decodeVariableInt(bs).size <= 4 && decodeVariableInt(bs).size <= |bs| &&
         decodeVariableInt(bs).value < 0x1000_0000) &&
      (forall id, bs :: propertyData(id, bs).code == Success ==> propertyData(id, bs).size <= |bs|) &&
      (forall k, bs :: payloadData(k, bs).code == Success ==> payloadData(k, bs).size <= |bs|) &&
      (forall t :: isServerPacket(t) ==> t != Reserved && t != Unknown)
    }
  }
}
