/**
 * The authenticated telemetry frame shared by the edge device, the command
 * senders and the gateway: the CBOR array [type, device_id, timestamp, value, tag]
 * where tag is HMAC-SHA256 (RFC 2104 over FIPS 180-4) of the array's encoding,
 * made with a 32-byte zero placeholder tag, minus its last 32 bytes.
 */
module Frame {
  import opened Wrappers
  import opened Cbor

  const TagSize: nat := 32

  type Tag = s: seq<byte> | |s| == TagSize witness seq(32, _ => 0)

  /** `bytes(32)`: the placeholder tag used while the tag is computed. */
  const ZeroTag: Tag :=
    [0, 0, 0, 0, 0, 0, 0, 0, 0, 0, 0, 0, 0, 0, 0, 0,
     0, 0, 0, 0, 0, 0, 0, 0, 0, 0, 0, 0, 0, 0, 0, 0]

  /** HMAC-SHA256 under the process-wide shared key; its internals are not modelled. */
  type Hmac = seq<byte> -> Tag

  /** The four authenticated fields of a frame, as decoded values. */
  datatype Fields = Fields(msgType: Item, deviceId: Item, timestamp: Item, value: Item)

  predicate Encodable(f: Fields) {
    Valid(f.msgType) && Valid(f.deviceId) && Valid(f.timestamp) && Valid(f.value)
  }

  function FieldItems(f: Fields): seq<Item> {
    [f.msgType, f.deviceId, f.timestamp, f.value]
  }

  /** The five-element array carrying `tag` in its last slot. */
  function Body(f: Fields, tag: seq<byte>): Item {
    Array(FieldItems(f) + [Bytes(tag)])
  }

  /** What the tag authenticates: the array head, the four fields and the tag's own head. */
  function SignedPart(f: Fields): (r: seq<byte>)
    requires Encodable(f)
  {
    Head(4, 5) + EncodeAll(FieldItems(f)) + [0x58, 0x20]
  }

  /** Whatever 32-byte tag fills the last slot, the encoding is the same signed part followed by the tag. */
  lemma BodyLayout(f: Fields, tag: seq<byte>)
    requires Encodable(f) && |tag| == TagSize
    ensures Valid(Body(f, tag))
    ensures Encode(Body(f, tag)) == SignedPart(f) + tag
  {
    var items := FieldItems(f);
    assert AllValid(items);
    EncodeAllAppend(items, Bytes(tag));
    EncodeBytes32(tag);
    var all := items + [Bytes(tag)];
    assert |all| == 5;
    calc {
      Encode(Body(f, tag));
      Head(4, 5) + EncodeAll(all);
      Head(4, 5) + (EncodeAll(items) + ([0x58, 0x20] + tag));
      (Head(4, 5) + EncodeAll(items) + [0x58, 0x20]) + tag;
    }
  }

  /** The bytes the senders authenticate: the zero-tag encoding minus its last 32 bytes. */
  function CheckedBytes(f: Fields): seq<byte>
    requires Encodable(f)
  {
    var unsigned := Encode(Body(f, ZeroTag));
    // Python's `[:-32]`, which would give the empty string on a shorter input
    if |unsigned| >= TagSize then unsigned[..|unsigned| - TagSize] else []
  }

  /**
   * The framing every sender uses: encode with the zero tag, authenticate all
   * but the last 32 bytes, and encode again with the real tag.
   */
  function Seal(mac: Hmac, f: Fields): (r: seq<byte>)
    requires Encodable(f)
    ensures |r| >= TagSize
  {
    var tag := mac(CheckedBytes(f));
    BodyLayout(f, tag);
    Encode(Body(f, tag))
  }

  /**
   * The key layout fact: the prefix the MAC is computed over does not depend on
   * the tag, so a sealed frame is the zero-tag prefix followed by the MAC of that
   * prefix.
   */
  lemma SealLayout(mac: Hmac, f: Fields)
    requires Encodable(f)
    ensures CheckedBytes(f) == SignedPart(f)
    ensures var r := Seal(mac, f);
      && r == SignedPart(f) + mac(SignedPart(f))
      && r[..|r| - TagSize] == CheckedBytes(f)
      && r[|r| - TagSize..] == mac(r[..|r| - TagSize])
  {
    BodyLayout(f, ZeroTag);
    var unsigned := Encode(Body(f, ZeroTag));
    assert unsigned[..|unsigned| - TagSize] == SignedPart(f);
    BodyLayout(f, mac(SignedPart(f)));
  }

  /** Timestamps and other integer fields that encode without a bignum tag. */
  predicate Fits(i: int) {
    -Limit <= i < Limit
  }

  /** Why a frame is turned away, or the fields it carries. */
  datatype Verdict =
    | TooShort      // fewer than 32 bytes
    | BadTag        // the trailing 32 bytes are not the HMAC of the rest
    | Undecodable   // authenticated, but `cbor2.loads` fails
    | BadShape      // authenticated and decoded, but not a five-element array
    | Accepted(fields: Fields)

  function Authentic(mac: Hmac, data: seq<byte>): bool
    requires |data| >= TagSize
  {
    mac(data[..|data| - TagSize]) == data[|data| - TagSize..]
  }

  /**
   * The receiving side shared by every verifier: the length check, the tag
   * comparison (`compare_digest` as equality) and, only after both pass, the
   * decode and the shape check.
   */
  function Verify(mac: Hmac, data: seq<byte>): (r: Verdict)
    ensures r == TooShort <==> |data| < TagSize
    ensures r == BadTag <==> |data| >= TagSize && !Authentic(mac, data)
    ensures r == Undecodable <==> |data| >= TagSize && Authentic(mac, data) && Decode(data).None?
    ensures r == BadShape <==>
      && |data| >= TagSize && Authentic(mac, data) && Decode(data).Some?
      && !(Decode(data).value.Array? && |Decode(data).value.items| == 5)
    ensures r.Accepted? ==>
      && |data| >= TagSize && Authentic(mac, data)
      && Decode(data).Some? && Decode(data).value.Array?
      && |Decode(data).value.items| == 5
      && Decode(data).value.items[..4] == FieldItems(r.fields)
    ensures (&& |data| >= TagSize && Authentic(mac, data) && Decode(data).Some?
             && Decode(data).value.Array? && |Decode(data).value.items| == 5)
            ==> r.Accepted?
  {
    if |data| < TagSize then TooShort
    else if mac(data[..|data| - TagSize]) != data[|data| - TagSize..] then BadTag
    else
      match Decode(data)
      case None => Undecodable
      case Some(x) =>
        if x.Array? && |x.items| == 5 then
          Accepted(Fields(x.items[0], x.items[1], x.items[2], x.items[3]))
        else BadShape
  }

  /** Round trip: verifying a sealed frame gives back exactly the fields sealed. */
  lemma VerifySeal(mac: Hmac, f: Fields)
    requires Encodable(f)
    ensures Verify(mac, Seal(mac, f)) == Accepted(f)
  {
    var r := Seal(mac, f);
    SealLayout(mac, f);
    BodyLayout(f, mac(SignedPart(f)));
    DecodeOfEncode(Body(f, mac(SignedPart(f))), []);
    assert r + [] == r;
  }

  /**
   * Tamper rejection: a frame whose tag is kept but whose signed part is changed
   * verifies only if HMAC collides on the old and new signed parts.
   */
  lemma TamperRejected(mac: Hmac, f: Fields, forged: seq<byte>)
    requires Encodable(f)
    requires var r := Seal(mac, f);
      && |forged| == |r|
      && forged[|r| - TagSize..] == r[|r| - TagSize..]
      && forged[..|r| - TagSize] != r[..|r| - TagSize]
    requires mac(forged[..|forged| - TagSize]) != mac(SignedPart(f))
    ensures Verify(mac, forged) == BadTag
  {
    SealLayout(mac, f);
  }

  /** Changing any one byte before the tag makes the frame fail authentication, barring a collision. */
  lemma ByteFlipRejected(mac: Hmac, f: Fields, i: nat, b: byte)
    requires Encodable(f)
    requires i < |Seal(mac, f)| - TagSize && b != Seal(mac, f)[i]
    requires var forged := Seal(mac, f)[i := b];
      mac(forged[..|forged| - TagSize]) != mac(SignedPart(f))
    ensures Verify(mac, Seal(mac, f)[i := b]) == BadTag
  {
    var r := Seal(mac, f);
    var forged := r[i := b];
    var n := |r| - TagSize;
    assert forged[n..] == r[n..];
    assert forged[..n][i] != r[..n][i];
    TamperRejected(mac, f, forged);
  }

  /** A publication on the MQTT transport; every publisher here uses QoS 1. */
  datatype Publication = Publication(topic: string, payload: seq<byte>, qos: nat)

  const CommandTopic: string := "blinds/commands"
  const CurtainTopic: string := "blinds/curtain"
}
