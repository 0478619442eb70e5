/** The MQTT telemetry monitor (server.py). */
module Server {
  import opened Wrappers
  import opened Cbor
  import opened Frame

  /**
   * `verify_and_parse_packet`: None for a frame under 32 bytes, a wrong tag, a
   * decode failure (caught here) or a value that is not a five-element list;
   * otherwise the decoded list without its tag.
   */
  function VerifyAndParsePacket(mac: Hmac, packet: seq<byte>): (r: Option<seq<Item>>)
    ensures |packet| < TagSize ==> r == None
    ensures |packet| >= TagSize && !Authentic(mac, packet) ==> r == None
    ensures |packet| >= TagSize && Authentic(mac, packet) && Decode(packet).None? ==> r == None
    ensures r.Some? <==>
      && |packet| >= TagSize && Authentic(mac, packet)
      && Decode(packet).Some? && Decode(packet).value.Array?
      && |Decode(packet).value.items| == 5
    ensures r.Some? ==> r.value == Decode(packet).value.items[..4]
  {
    match Verify(mac, packet)
    case Accepted(f) => Some(FieldItems(f))
    case _ => None
  }

  /** What `on_message` reports for a frame, by its type field. */
  datatype Reading =
    | Temperature(degrees: Item)
    | Motion(detected: bool)
    | Door(open: bool)
    | CurtainPosition(percent: Item)
    | Unknown(msgType: Item, value: Item)

  datatype Report = Report(deviceId: Item, timestamp: Item, reading: Reading)

  /** `on_message`: types 1..4 are named, any other type is reported as unknown rather than rejected. */
  function OnMessage(mac: Hmac, packet: seq<byte>): (r: Option<Report>)
    ensures r.Some? <==> VerifyAndParsePacket(mac, packet).Some?
    ensures r.Some? ==>
      var xs := VerifyAndParsePacket(mac, packet).value;
      && r.value.deviceId == xs[1] && r.value.timestamp == xs[2]
      && (r.value.reading.Unknown? <==> !(exists k :: 1 <= k <= 4 && EqualsInt(xs[0], k)))
      && (EqualsInt(xs[0], 1) ==> r.value.reading == Temperature(xs[3]))
      && (EqualsInt(xs[0], 2) ==> r.value.reading == Motion(Truthy(xs[3])))
      && (EqualsInt(xs[0], 3) ==> r.value.reading == Door(Truthy(xs[3])))
      && (EqualsInt(xs[0], 4) ==> r.value.reading == CurtainPosition(xs[3]))
  {
    match VerifyAndParsePacket(mac, packet)
    case None => None
    case Some(xs) =>
      var msgType, value := xs[0], xs[3];
      var reading :=
        if EqualsInt(msgType, 1) then Temperature(value)
        else if EqualsInt(msgType, 2) then Motion(Truthy(value))
        else if EqualsInt(msgType, 3) then Door(Truthy(value))
        else if EqualsInt(msgType, 4) then CurtainPosition(value)
        else Unknown(msgType, value);
      Some(Report(xs[1], xs[2], reading))
  }

  /**
   * The verifier itself accepts every type code: a sealed frame of type 7
   * parses, and `on_message` only labels it unknown.
   */
  lemma AcceptsAnyType(mac: Hmac, msgType: int, deviceId: seq<byte>, now: int, value: Item)
    requires Fits(msgType) && |deviceId| < Limit && Fits(now) && Valid(value)
    ensures var packet := Seal(mac, Fields(Int(msgType), Text(deviceId), Int(now), value));
      && VerifyAndParsePacket(mac, packet) == Some([Int(msgType), Text(deviceId), Int(now), value])
      && (!(1 <= msgType <= 4) ==> OnMessage(mac, packet).value.reading == Unknown(Int(msgType), value))
  {
    VerifySeal(mac, Fields(Int(msgType), Text(deviceId), Int(now), value));
  }
}
