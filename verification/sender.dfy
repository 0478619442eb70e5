/** The command-line curtain commander (sender.py). */
module Sender {
  import opened Wrappers
  import opened Cbor
  import opened Frame

  /** The exception `encode_command` raises for an out-of-range position. */
  datatype Error = ValueError

  /** `encode_command`: rejects a value outside [0, 100], otherwise seals [cmd_type, device_id, timestamp, value, tag]. */
  function EncodeCommand(mac: Hmac, cmdType: int, deviceId: seq<byte>, value: int, now: int)
    : (r: Result<seq<byte>, Error>)
    requires Fits(cmdType) && |deviceId| < Limit && Fits(now)
    ensures r.Failure? <==> !(0 <= value <= 100)
    ensures r.Success? ==>
      var f := Fields(Int(cmdType), Text(deviceId), Int(now), Int(value));
      && |r.value| >= TagSize
      && r.value[..|r.value| - TagSize] == CheckedBytes(f)
      && r.value[|r.value| - TagSize..] == mac(CheckedBytes(f))
      && Verify(mac, r.value) == Accepted(f)
  {
    if !(0 <= value <= 100) then Failure(ValueError)
    else
      var f := Fields(Int(cmdType), Text(deviceId), Int(now), Int(value));
      SealLayout(mac, f);
      VerifySeal(mac, f);
      Success(Seal(mac, f))
  }

  /**
   * `send_curtain_position`: a type-1 command on blinds/commands. The
   * ValueError is raised before the publishing `try`, so it escapes.
   */
  function SendCurtainPosition(mac: Hmac, position: int, deviceId: seq<byte>, now: int)
    : (r: Result<Publication, Error>)
    requires |deviceId| < Limit && Fits(now)
    ensures r.Success? <==> 0 <= position <= 100
    ensures r.Success? ==>
      && r.value.topic == CommandTopic
      && r.value.qos == 1
      && Verify(mac, r.value.payload) == Accepted(Fields(Int(1), Text(deviceId), Int(now), Int(position)))
  {
    match EncodeCommand(mac, 1, deviceId, position, now)
    case Failure(e) => Failure(e)
    case Success(payload) => Success(Publication(CommandTopic, payload, 1))
  }
}
