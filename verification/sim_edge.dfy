/**
 * The simulated edge device (testing/fake_edge.py): the frame encoders for the
 * four sensor channels, the frame verifier, and the command handler that
 * answers a verified curtain command with a curtain-status frame. The device
 * identifier, HMAC key and clock come from configuration and `time.time()`,
 * so they are parameters here.
 */
module SimEdge {
  import opened Wrappers
  import opened Cbor
  import opened Frame

  /** `verify_packet`: None for a short, unauthentic or misshapen frame; a decode failure escapes as an exception. */
  function VerifyPacket(mac: Hmac, data: seq<byte>): (r: Completion<Option<Fields>>)
    ensures |data| < TagSize ==> r == Returned(None)
    ensures |data| >= TagSize && !Authentic(mac, data) ==> r == Returned(None)
    ensures r.Raised? <==> |data| >= TagSize && Authentic(mac, data) && Decode(data).None?
    ensures (&& |data| >= TagSize && Authentic(mac, data) && Decode(data).Some?
             && Decode(data).value.Array? && |Decode(data).value.items| == 5)
            ==> r.Returned? && r.value.Some?
    ensures r.Returned? && r.value.Some? ==>
      && |data| >= TagSize && Authentic(mac, data)
      && Decode(data).Some? && Decode(data).value.Array?
      && |Decode(data).value.items| == 5
      && Decode(data).value.items[..4] == FieldItems(r.value.value)
  {
    match Verify(mac, data)
    case Accepted(f) => Returned(Some(f))
    case Undecodable => Raised
    case _ => Returned(None)
  }

  /** `encode_packet`: a frame [kind, device id, timestamp, value, tag] sealed with the shared key. */
  function EncodePacket(mac: Hmac, deviceId: seq<byte>, kind: int, value: Item, now: int): (r: seq<byte>)
    requires Fits(kind) && |deviceId| < Limit && Fits(now) && Valid(value)
    ensures var f := Fields(Int(kind), Text(deviceId), Int(now), value);
      && |r| >= TagSize
      && r[..|r| - TagSize] == CheckedBytes(f)
      && r[|r| - TagSize..] == mac(CheckedBytes(f))
      && VerifyPacket(mac, r) == Returned(Some(f))
  {
    var f := Fields(Int(kind), Text(deviceId), Int(now), value);
    SealLayout(mac, f);
    VerifySeal(mac, f);
    Seal(mac, f)
  }

  function EncodeTemperature(mac: Hmac, deviceId: seq<byte>, value: int, now: int): (r: seq<byte>)
    requires |deviceId| < Limit && Fits(now) && Fits(value)
    ensures VerifyPacket(mac, r) == Returned(Some(Fields(Int(1), Text(deviceId), Int(now), Int(value))))
  {
    EncodePacket(mac, deviceId, 1, Int(value), now)
  }

  function EncodeMotion(mac: Hmac, deviceId: seq<byte>, value: bool, now: int): (r: seq<byte>)
    requires |deviceId| < Limit && Fits(now)
    ensures VerifyPacket(mac, r) == Returned(Some(Fields(Int(2), Text(deviceId), Int(now), Bool(value))))
  {
    EncodePacket(mac, deviceId, 2, Bool(value), now)
  }

  function EncodeDoor(mac: Hmac, deviceId: seq<byte>, value: bool, now: int): (r: seq<byte>)
    requires |deviceId| < Limit && Fits(now)
    ensures VerifyPacket(mac, r) == Returned(Some(Fields(Int(3), Text(deviceId), Int(now), Bool(value))))
  {
    EncodePacket(mac, deviceId, 3, Bool(value), now)
  }

  function Max(a: int, b: int): int { if a >= b then a else b }
  function Min(a: int, b: int): int { if a <= b then a else b }

  /** `max(0, min(100, value))`: the curtain position clamped into [0, 100]. */
  function Clamp(value: int): (r: int)
    ensures 0 <= r <= 100
    ensures 0 <= value <= 100 ==> r == value
    ensures value < 0 ==> r == 0
    ensures value > 100 ==> r == 100
  {
    Max(0, Min(100, value))
  }

  /** `encode_curtain_status`: a type-4 frame carrying the clamped position. */
  function EncodeCurtainStatus(mac: Hmac, deviceId: seq<byte>, value: int, now: int): (r: seq<byte>)
    requires |deviceId| < Limit && Fits(now)
    ensures VerifyPacket(mac, r) == Returned(Some(Fields(Int(4), Text(deviceId), Int(now), Int(Clamp(value)))))
  {
    EncodePacket(mac, deviceId, 4, Int(Clamp(value)), now)
  }

  /**
   * Python's `int(value)` on a decoded value: integers stay, booleans become 0 or
   * 1, and every other value is taken to raise.
   */
  function IntOf(x: Item): (r: Option<int>)
    ensures r.Some? <==> x.Int? || x.Bool?
    ensures x.Int? ==> r == Some(x.i)
    ensures x.Bool? ==> r == Some(if x.b then 1 else 0)
  {
    match x
    case Int(i) => Some(i)
    case Bool(b) => Some(if b then 1 else 0)
    case _ => None
  }

  /**
   * `on_message` on the command topic: a verified frame whose type equals 1 is
   * answered with a curtain-status frame on blinds/curtain; anything else
   * publishes nothing.
   */
  function OnMessage(mac: Hmac, deviceId: seq<byte>, payload: seq<byte>, now: int): (r: Completion<seq<Publication>>)
    requires |deviceId| < Limit && Fits(now)
    ensures (|payload| < TagSize || !Authentic(mac, payload)) ==> r == Returned([])
    ensures r.Returned? && r.value != [] ==>
      && Verify(mac, payload).Accepted?
      && EqualsInt(Verify(mac, payload).fields.msgType, 1)
      && IntOf(Verify(mac, payload).fields.value).Some?
      && |r.value| == 1
      && r.value[0].topic == CurtainTopic && r.value[0].qos == 1
      && VerifyPacket(mac, r.value[0].payload) == Returned(Some(Fields(
           Int(4), Text(deviceId), Int(now),
           Int(Clamp(IntOf(Verify(mac, payload).fields.value).value)))))
    ensures (&& Verify(mac, payload).Accepted?
             && EqualsInt(Verify(mac, payload).fields.msgType, 1)
             && IntOf(Verify(mac, payload).fields.value).Some?)
            ==> r.Returned? && |r.value| == 1
    ensures (&& Verify(mac, payload).Accepted?
             && !EqualsInt(Verify(mac, payload).fields.msgType, 1))
            ==> r == Returned([])
    ensures r.Raised? <==>
      || Verify(mac, payload) == Undecodable
      || (&& Verify(mac, payload).Accepted?
          && EqualsInt(Verify(mac, payload).fields.msgType, 1)
          && IntOf(Verify(mac, payload).fields.value).None?)
  {
    match VerifyPacket(mac, payload)
    case Raised => Raised
    case Returned(None) => Returned([])
    case Returned(Some(f)) =>
      if EqualsInt(f.msgType, 1) then
        match IntOf(f.value)
        case None => Raised
        case Some(v) => Returned([Publication(CurtainTopic, EncodeCurtainStatus(mac, deviceId, v, now), 1)])
      else Returned([])
  }
}
