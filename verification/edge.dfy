/**
 * The stand-alone edge simulator (fake_edge.py). Its `verify_packet` is the
 * same text as the one in testing/fake_edge.py and is shared from `SimEdge`;
 * its curtain-status encoder builds the frame inline with a fixed device
 * identifier.
 */
module Edge {
  import opened Wrappers
  import opened Cbor
  import opened Frame
  import SimEdge

  /** "ESP8266Client" in UTF-8. */
  const DeviceId: seq<byte> :=
    [0x45, 0x53, 0x50, 0x38, 0x32, 0x36, 0x36, 0x43, 0x6c, 0x69, 0x65, 0x6e, 0x74]

  /** `encode_curtain_status`: [4, DEVICE_ID, timestamp, clamped value, mac], mac over the zero-tag prefix. */
  function EncodeCurtainStatus(mac: Hmac, value: int, now: int): (r: seq<byte>)
    requires Fits(now)
    ensures var f := Fields(Int(4), Text(DeviceId), Int(now), Int(SimEdge.Clamp(value)));
      && |r| >= TagSize
      && r[..|r| - TagSize] == CheckedBytes(f)
      && r[|r| - TagSize..] == mac(CheckedBytes(f))
      && SimEdge.VerifyPacket(mac, r) == Returned(Some(f))
  {
    var f := Fields(Int(4), Text(DeviceId), Int(now), Int(SimEdge.Clamp(value)));
    SealLayout(mac, f);
    VerifySeal(mac, f);
    Seal(mac, f)
  }

  /** `on_message`: only a verified command whose type equals 1 produces a status publication. */
  function OnMessage(mac: Hmac, payload: seq<byte>, now: int): (r: Completion<seq<Publication>>)
    requires Fits(now)
    ensures (|payload| < TagSize || !Authentic(mac, payload)) ==> r == Returned([])
    ensures r.Returned? && r.value != [] ==>
      && Verify(mac, payload).Accepted?
      && EqualsInt(Verify(mac, payload).fields.msgType, 1)
      && SimEdge.IntOf(Verify(mac, payload).fields.value).Some?
      && r.value == [Publication(CurtainTopic, EncodeCurtainStatus(mac,
           SimEdge.IntOf(Verify(mac, payload).fields.value).value, now), 1)]
    ensures (&& Verify(mac, payload).Accepted?
             && !EqualsInt(Verify(mac, payload).fields.msgType, 1))
            ==> r == Returned([])
    ensures (&& Verify(mac, payload).Accepted?
             && EqualsInt(Verify(mac, payload).fields.msgType, 1)
             && SimEdge.IntOf(Verify(mac, payload).fields.value).Some?)
            ==> r.Returned? && |r.value| == 1
    ensures r.Raised? <==>
      || Verify(mac, payload) == Undecodable
      || (&& Verify(mac, payload).Accepted?
          && EqualsInt(Verify(mac, payload).fields.msgType, 1)
          && SimEdge.IntOf(Verify(mac, payload).fields.value).None?)
  {
    match SimEdge.VerifyPacket(mac, payload)
    case Raised => Raised
    case Returned(None) => Returned([])
    case Returned(Some(f)) =>
      if EqualsInt(f.msgType, 1) then
        match SimEdge.IntOf(f.value)
        case None => Raised
        case Some(v) => Returned([Publication(CurtainTopic, EncodeCurtainStatus(mac, v, now), 1)])
      else Returned([])
  }

  /**
   * The device's reply round-trips: the status it publishes for a verified
   * type-1 command verifies to (4, DEVICE_ID, now, clamped position).
   */
  lemma StatusReplyVerifies(mac: Hmac, payload: seq<byte>, now: int)
    requires Fits(now)
    ensures OnMessage(mac, payload, now).Returned? && OnMessage(mac, payload, now).value != [] ==>
      var v := SimEdge.IntOf(Verify(mac, payload).fields.value).value;
      && 0 <= SimEdge.Clamp(v) <= 100
      && Verify(mac, OnMessage(mac, payload, now).value[0].payload)
         == Accepted(Fields(Int(4), Text(DeviceId), Int(now), Int(SimEdge.Clamp(v))))
  {
  }
}
