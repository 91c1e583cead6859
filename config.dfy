/** The client configuration the CONNECT decoder fills in: the connect flags and keep-alive
    written field by field, whether the will configuration has been created, and the
    properties and payload fields that the configuration accepted, in arrival order. */
module ClientConfigs {
  import opened MqttTypes

  datatype ClientConfig = ClientConfig(
    cleanStart: bool,
    willFlag: bool,
    willQos: nat,
    willRetain: bool,
    passwordFlag: bool,
    userNameFlag: bool,
    keepAlive: nat,
    qos: nat,                          // QoS of a PUBLISH, read by HasPacketId
    willConfigured: bool,              // init_will_cfg has created the will configuration
    properties: seq<Property>,         // accepted by configure_propriety
    willProperties: seq<Property>,     // accepted by configure_will_propriety
    payloads: seq<Payload>)            // accepted by configure_payload

  /** A configuration as it is before any CONNECT is decoded. */
  const Fresh: ClientConfig :=
    ClientConfig(false, false, 0, false, false, false, 0, 0, false, [], [], [])

  /** The configuration after an accepted property: it joins the will configuration's list
      when it came from the will properties, the main list otherwise. */
  function AddProperty(cfg: ClientConfig, p: Property, isWill: bool): ClientConfig
  {
    if isWill then cfg.(willProperties := cfg.willProperties + [p])
    else cfg.(properties := cfg.properties + [p])
  }

  /** Equal except for the three accumulated lists. */
  ghost predicate SameSettings(a: ClientConfig, b: ClientConfig)
  {
    a.cleanStart == b.cleanStart && a.willFlag == b.willFlag && a.willQos == b.willQos &&
    a.willRetain == b.willRetain && a.passwordFlag == b.passwordFlag &&
    a.userNameFlag == b.userNameFlag && a.keepAlive == b.keepAlive && a.qos == b.qos &&
    a.willConfigured == b.willConfigured
  }
}
