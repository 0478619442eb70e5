/**
 * The MQTT-side controller script (main.py): it sends curtain commands and
 * prints every authenticated frame it receives.
 */
module Controller {
  import opened Wrappers
  import opened Cbor
  import opened Frame
  import Sender

  /** `encode_command`, the same range check and framing as sender.py's. */
  function EncodeCommand(mac: Hmac, cmdType: int, deviceId: seq<byte>, value: int, now: int)
    : (r: Result<seq<byte>, Sender.Error>)
    requires Fits(cmdType) && |deviceId| < Limit && Fits(now)
    ensures r.Failure? <==> !(0 <= value <= 100)
    ensures r.Success? ==>
      var f := Fields(Int(cmdType), Text(deviceId), Int(now), Int(value));
      && |r.value| >= TagSize
      && r.value[..|r.value| - TagSize] == CheckedBytes(f)
      && r.value[|r.value| - TagSize..] == mac(CheckedBytes(f))
  {
    if !(0 <= value <= 100) then Failure(Sender.ValueError)
    else
      var f := Fields(Int(cmdType), Text(deviceId), Int(now), Int(value));
      SealLayout(mac, f);
      Success(Seal(mac, f))
  }

  /** `send_blinds_position`: a type-1 command published on blinds/commands. */
  function SendBlindsPosition(mac: Hmac, deviceId: seq<byte>, position: int, now: int)
    : (r: Result<Publication, Sender.Error>)
    requires |deviceId| < Limit && Fits(now)
    ensures r.Success? <==> 0 <= position <= 100
    ensures r.Success? ==>
      && r.value.topic == CommandTopic && r.value.qos == 1
      && Verify(mac, r.value.payload) == Accepted(Fields(Int(1), Text(deviceId), Int(now), Int(position)))
  {
    match EncodeCommand(mac, 1, deviceId, position, now)
    case Failure(e) => Failure(e)
    case Success(payload) =>
      VerifySeal(mac, Fields(Int(1), Text(deviceId), Int(now), Int(position)));
      Success(Publication(CommandTopic, payload, 1))
  }

  /**
   * `on_message`: frames under 32 bytes or with a wrong tag are dropped
   * (Returned(None)) without being decoded; an authentic frame is decoded,
   * and a decode failure escapes.
   */
  function OnMessage(mac: Hmac, data: seq<byte>): (r: Completion<Option<Item>>)
    ensures |data| < TagSize ==> r == Returned(None)
    ensures |data| >= TagSize && !Authentic(mac, data) ==> r == Returned(None)
    ensures |data| >= TagSize && Authentic(mac, data) ==>
      match Decode(data)
      case None => r == Raised
      case Some(x) => r == Returned(Some(x))
  {
    if |data| < TagSize then Returned(None)
    else if mac(data[..|data| - TagSize]) != data[|data| - TagSize..] then Returned(None)
    else
      match Decode(data)
      case None => Raised
      case Some(message) => Returned(Some(message))
  }

  /** Both copies of `encode_command` compute the same thing. */
  lemma EncodeCommandAgrees(mac: Hmac, cmdType: int, deviceId: seq<byte>, value: int, now: int)
    requires Fits(cmdType) && |deviceId| < Limit && Fits(now)
    ensures EncodeCommand(mac, cmdType, deviceId, value, now)
         == Sender.EncodeCommand(mac, cmdType, deviceId, value, now)
  {
  }
}
