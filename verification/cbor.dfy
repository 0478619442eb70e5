/**
 * The part of CBOR (RFC 8949) that telemetry frames use: unsigned and negative
 * integers (major types 0 and 1), byte strings (2), text strings (3), arrays (4)
 * and the simple values false, true and null (major type 7, values 20-22).
 * `Encode` produces the preferred (shortest-head) serialization, as `cbor2.dumps`
 * does; `DecodeItem` reads one data item from the front of a byte string and
 * also accepts heads that are longer than necessary, as `cbor2.loads` does.
 */
module Cbor {
  import opened Wrappers

  type byte = x: int | 0 <= x < 0x100

  /** Head arguments are unsigned 64-bit integers (section 3 of RFC 8949). */
  const Limit: int := 0x1_0000_0000_0000_0000

  datatype Item =
    | Int(i: int)              // major type 0 when i >= 0, major type 1 otherwise
    | Bytes(bytes: seq<byte>)  // major type 2
    | Text(utf8: seq<byte>)    // major type 3, held as its UTF-8 encoding
    | Array(items: seq<Item>)  // major type 4
    | Bool(b: bool)            // major type 7, simple values 20 (false) and 21 (true)
    | Null                     // major type 7, simple value 22

  /** Items whose head arguments fit in 64 bits, so that no bignum tag is needed. */
  predicate Valid(x: Item) {
    match x
    case Int(i) => -Limit <= i < Limit
    case Bytes(b) => |b| < Limit
    case Text(t) => |t| < Limit
    case Array(a) => |a| < Limit && forall k :: 0 <= k < |a| ==> Valid(a[k])
    case _ => true
  }

  predicate AllValid(a: seq<Item>) {
    forall k :: 0 <= k < |a| ==> Valid(a[k])
  }

  /** Python truthiness of a decoded value. */
  predicate Truthy(x: Item) {
    match x
    case Int(i) => i != 0
    case Bytes(b) => b != []
    case Text(t) => t != []
    case Array(a) => a != []
    case Bool(b) => b
    case Null => false
  }

  /** Python's `x == k` for an integer literal `k`: `True == 1` and `False == 0` hold. */
  predicate EqualsInt(x: Item, k: int) {
    match x
    case Int(i) => i == k
    case Bool(b) => (if b then 1 else 0) == k
    case _ => false
  }

  // ---------------------------------------------------------------------------
  // Big-endian unsigned integers

  function Pow256(w: nat): (r: nat)
    ensures r > 0
  {
    if w == 0 then 1 else 256 * Pow256(w - 1)
  }

  function BigEndian(n: nat, w: nat): (r: seq<byte>)
    requires n < Pow256(w)
    ensures |r| == w
  {
    if w == 0 then [] else BigEndian(n / 256, w - 1) + [n % 256]
  }

  function FromBigEndian(s: seq<byte>): nat {
    if s == [] then 0 else FromBigEndian(s[..|s| - 1]) * 256 + s[|s| - 1]
  }

  lemma {:induction false} FromBigEndianInverts(n: nat, w: nat)
    requires n < Pow256(w)
    ensures FromBigEndian(BigEndian(n, w)) == n
  {
    if w > 0 {
      var s := BigEndian(n, w);
      assert s[..|s| - 1] == BigEndian(n / 256, w - 1);
      FromBigEndianInverts(n / 256, w - 1);
    }
  }

  // ---------------------------------------------------------------------------
  // Heads (section 3 of RFC 8949): major type in the top 3 bits, additional
  // information in the low 5 bits, then 0, 1, 2, 4 or 8 argument bytes.

  /** Number of argument bytes that follow additional information 24..27. */
  function ArgumentWidth(ai: nat): (w: nat)
    requires 24 <= ai <= 27
  {
    if ai == 24 then 1 else if ai == 25 then 2 else if ai == 26 then 4 else 8
  }

  function Head(major: nat, arg: nat): (r: seq<byte>)
    requires major < 8 && arg < Limit
    ensures 1 <= |r| <= 9
    ensures r[0] / 32 == major
  {
    if arg < 24 then [major * 32 + arg]
    else if arg < 0x100 then [major * 32 + 24] + BigEndian(arg, 1)
    else if arg < 0x1_0000 then [major * 32 + 25] + BigEndian(arg, 2)
    else if arg < 0x1_0000_0000 then [major * 32 + 26] + BigEndian(arg, 4)
    else [major * 32 + 27] + BigEndian(arg, 8)
  }

  /** Reads a head: major type, argument and the bytes after it. */
  function DecodeHead(data: seq<byte>): (r: Option<(nat, nat, seq<byte>)>)
    ensures r.Some? ==> r.value.0 < 8 && |r.value.2| < |data|
    ensures r.Some? ==> r.value.2 == data[|data| - |r.value.2|..]
  {
    if |data| == 0 then None
    else
      var major := data[0] / 32;
      var ai := data[0] % 32;
      var rest := data[1..];
      if ai < 24 then Some((major, ai, rest))
      else if ai <= 27 then
        var w := ArgumentWidth(ai);
        if |rest| < w then None
        else Some((major, FromBigEndian(rest[..w]), rest[w..]))
      else None  // 28..30 are reserved, 31 is an indefinite length
  }

  lemma HeadRoundTrip(major: nat, arg: nat, rest: seq<byte>)
    requires major < 8 && arg < Limit
    ensures DecodeHead(Head(major, arg) + rest) == Some((major, arg, rest))
  {
    var data := Head(major, arg) + rest;
    if arg < 24 {
      assert data[1..] == rest;
    } else {
      var w := if arg < 0x100 then 1 else if arg < 0x1_0000 then 2 else if arg < 0x1_0000_0000 then 4 else 8;
      assert Head(major, arg) == [data[0]] + BigEndian(arg, w);
      assert data[1..][..w] == BigEndian(arg, w);
      assert data[1..][w..] == rest;
      FromBigEndianInverts(arg, w);
    }
  }

  // ---------------------------------------------------------------------------
  // Encoding

  function Encode(x: Item): (r: seq<byte>)
    requires Valid(x)
    ensures |r| >= 1
    decreases x
  {
    match x
    case Int(i) => if i >= 0 then Head(0, i) else Head(1, -1 - i)
    case Bytes(b) => Head(2, |b|) + b
    case Text(t) => Head(3, |t|) + t
    case Array(a) => Head(4, |a|) + EncodeAll(a)
    case Bool(b) => [if b then 0xf5 else 0xf4]
    case Null => [0xf6]
  }

  /** The concatenated encodings of an array's elements. */
  function EncodeAll(a: seq<Item>): seq<byte>
    requires AllValid(a)
    decreases a
  {
    if a == [] then [] else Encode(a[0]) + EncodeAll(a[1..])
  }

  lemma {:induction false} EncodeAllAppend(a: seq<Item>, x: Item)
    requires AllValid(a) && Valid(x)
    ensures AllValid(a + [x])
    ensures EncodeAll(a + [x]) == EncodeAll(a) + Encode(x)
  {
    var ax := a + [x];
    assert AllValid(ax) by {
      forall k | 0 <= k < |ax| ensures Valid(ax[k]) {
        if k < |a| { assert ax[k] == a[k]; } else { assert ax[k] == x; }
      }
    }
    if a == [] {
      assert ax == [x] && ax[1..] == [];
      assert EncodeAll(ax) == Encode(x) + EncodeAll([]);
    } else {
      assert ax[0] == a[0];
      assert ax[1..] == a[1..] + [x];
      assert AllValid(a[1..]) by {
        forall k | 0 <= k < |a[1..]| ensures Valid(a[1..][k]) { assert a[1..][k] == a[k + 1]; }
      }
      EncodeAllAppend(a[1..], x);
      calc {
        EncodeAll(ax);
        Encode(a[0]) + EncodeAll(a[1..] + [x]);
        Encode(a[0]) + (EncodeAll(a[1..]) + Encode(x));
        (Encode(a[0]) + EncodeAll(a[1..])) + Encode(x);
        EncodeAll(a) + Encode(x);
      }
    }
  }

  /** A 32-byte string is the two head bytes 0x58 0x20 (additional information 24, argument 32) and then its content. */
  lemma EncodeBytes32(t: seq<byte>)
    requires |t| == 32
    ensures Encode(Bytes(t)) == [0x58, 0x20] + t
  {
    assert BigEndian(32, 1) == [32];
  }

  // ---------------------------------------------------------------------------
  // Decoding

  /** Reads one data item from the front of `data`; the rest is returned unread. */
  function DecodeItem(data: seq<byte>): (r: Option<(Item, seq<byte>)>)
    ensures r.Some? ==> |r.value.1| < |data|
    decreases |data|, 0
  {
    if |data| == 0 then None
    else if data[0] == 0xf4 then Some((Bool(false), data[1..]))
    else if data[0] == 0xf5 then Some((Bool(true), data[1..]))
    else if data[0] == 0xf6 then Some((Null, data[1..]))
    else if data[0] >= 0xe0 then None  // other simple values and floats
    else
      match DecodeHead(data)
      case None => None
      case Some((major, arg, rest)) =>
        if major == 0 then Some((Int(arg), rest))
        else if major == 1 then Some((Int(-1 - arg), rest))
        else if major == 2 then
          if |rest| < arg then None else Some((Bytes(rest[..arg]), rest[arg..]))
        else if major == 3 then
          if |rest| < arg then None else Some((Text(rest[..arg]), rest[arg..]))
        else if major == 4 then
          match DecodeItems(arg, rest)
          case None => None
          case Some((xs, rest')) => Some((Array(xs), rest'))
        else None  // maps (5) and tags (6)
  }

  /** Reads `n` consecutive data items. */
  function DecodeItems(n: nat, data: seq<byte>): (r: Option<(seq<Item>, seq<byte>)>)
    ensures r.Some? ==> |r.value.0| == n && |r.value.1| <= |data|
    decreases |data|, 1
  {
    if n == 0 then Some(([], data))
    else
      match DecodeItem(data)
      case None => None
      case Some((x, rest)) =>
        match DecodeItems(n - 1, rest)
        case None => None
        case Some((xs, rest')) => Some(([x] + xs, rest'))
  }

  /** `cbor2.loads`: the first data item of the input; trailing bytes are not inspected. */
  function Decode(data: seq<byte>): Option<Item> {
    match DecodeItem(data)
    case None => None
    case Some((x, _)) => Some(x)
  }

  lemma {:induction false} DecodeEncode(x: Item, rest: seq<byte>)
    requires Valid(x)
    ensures DecodeItem(Encode(x) + rest) == Some((x, rest))
    decreases x
  {
    match x
    case Int(i) =>
      if i >= 0 { DecodeHeaded(0, i, rest); } else { DecodeHeaded(1, -1 - i, rest); }
    case Bytes(b) =>
      assert Encode(x) + rest == Head(2, |b|) + (b + rest);
      DecodeString(2, b, rest);
    case Text(t) =>
      assert Encode(x) + rest == Head(3, |t|) + (t + rest);
      DecodeString(3, t, rest);
    case Array(a) =>
      assert Encode(x) + rest == Head(4, |a|) + (EncodeAll(a) + rest);
      DecodeEncodeAll(a, rest);
      DecodeArray(a, EncodeAll(a) + rest, rest);
    case Bool(b) =>
      assert (Encode(x) + rest)[1..] == rest;
    case Null =>
      assert (Encode(x) + rest)[1..] == rest;
  }

  /** An integer head decodes to the integer it carries. */
  lemma DecodeHeaded(major: nat, arg: nat, rest: seq<byte>)
    requires major < 2 && arg < Limit
    ensures DecodeItem(Head(major, arg) + rest)
         == Some((if major == 0 then Int(arg) else Int(-1 - arg), rest))
  {
    HeadRoundTrip(major, arg, rest);
    var data := Head(major, arg) + rest;
    assert data[0] / 32 == major;
  }

  /** A string head followed by its content decodes to that string. */
  lemma DecodeString(major: nat, s: seq<byte>, rest: seq<byte>)
    requires (major == 2 || major == 3) && |s| < Limit
    ensures DecodeItem(Head(major, |s|) + (s + rest))
         == Some((if major == 2 then Bytes(s) else Text(s), rest))
  {
    HeadRoundTrip(major, |s|, s + rest);
    var data := Head(major, |s|) + (s + rest);
    assert data[0] / 32 == major;
    assert (s + rest)[..|s|] == s && (s + rest)[|s|..] == rest;
  }

  /** An array head followed by decodable elements decodes to the array. */
  lemma DecodeArray(a: seq<Item>, body: seq<byte>, rest: seq<byte>)
    requires |a| < Limit
    requires DecodeItems(|a|, body) == Some((a, rest))
    ensures DecodeItem(Head(4, |a|) + body) == Some((Array(a), rest))
  {
    HeadRoundTrip(4, |a|, body);
    var data := Head(4, |a|) + body;
    assert data[0] / 32 == 4;
  }

  lemma {:induction false} DecodeEncodeAll(a: seq<Item>, rest: seq<byte>)
    requires AllValid(a)
    ensures DecodeItems(|a|, EncodeAll(a) + rest) == Some((a, rest))
    decreases a
  {
    if a != [] {
      var tail := EncodeAll(a[1..]) + rest;
      assert EncodeAll(a) + rest == Encode(a[0]) + tail;
      DecodeEncode(a[0], tail);
      DecodeEncodeAll(a[1..], rest);
      var data := EncodeAll(a) + rest;
      assert DecodeItem(data) == Some((a[0], tail));
      assert DecodeItems(|a| - 1, tail) == Some((a[1..], rest));
      assert a == [a[0]] + a[1..];
    } else {
      assert EncodeAll(a) + rest == rest;
    }
  }

  /** Round trip: `cbor2.loads(cbor2.dumps(x)) == x`, whatever follows the encoding. */
  lemma DecodeOfEncode(x: Item, rest: seq<byte>)
    requires Valid(x)
    ensures Decode(Encode(x) + rest) == Some(x)
  {
    DecodeEncode(x, rest);
  }
}
