# Curtain IoT relay: hub state machine and authenticated frame codec, in Dafny

This project models two parts of a small home-automation system, an
ESP8266 curtain controller with temperature, motion and door sensors.

**The cloud relay hub** (`cloud.py`). The hub accepts one gateway
connection and any number of application sessions. Each sensor record from
the gateway goes into a per-channel history log (one raw JSON line per
record) and into a per-round queue. Applications send JSON control
messages:

- `subscribe_<channel>` flags add the sender to that channel's listener set
  or remove it.
- `read_<channel>_history` flags ask for `{"<channel>_history": [...]}`
  replies.
- `control_curtain` is forwarded to the gateway. The whole message goes,
  not only that key.

At the end of every round the hub fans each queue out to the channel's
listeners. A session whose send fails is dropped from the table and from
every listener set, and the queues are then emptied. A read error on a
session drops it the same way.

The model (`Hub`, `FanOut`, `History`, `Channels`, `Json`) is a pure
transition system over a `Hub` record:

- the application table, a set of session ids;
- four listener sets;
- four queues of parsed records;
- four history logs, held as file text and read back with Python's
  `str.splitlines` rules;
- the last message the hub parsed. The gateway handler and the application
  handler share that one variable.

Sockets, `select` and the websocket library are left out. Two things that
the network or the operating system decide become parameters of the
end-of-round step:

- the iteration order of each listener set;
- which sends fail, as a budget of sends each session accepts before its
  socket raises.

**The authenticated telemetry frame**. This is the same code in
`testing/fake_edge.py`, `fake_edge.py`, `sender.py`, `main.py` and
`server.py`. A frame is the CBOR encoding (RFC 8949) of
`[type, device_id, timestamp, value, tag]`. The tag is HMAC-SHA256 (RFC
2104) over the encoding made with a 32-byte zero tag, minus its last 32
bytes.

The `Cbor` module encodes and decodes the subset of CBOR the frames use:
integers, byte and text strings, arrays, booleans and null. It proves the
round trip `Decode(Encode(x) + rest) == Some(x)`.

The `Frame` module builds on one fact: a 32-byte byte string encodes as
`0x58 0x20` followed by its content, so the signed prefix does not depend
on the tag. From this it proves three things about sealed frames:

- their layout;
- their round trip through the verifier;
- their rejection after tampering, assuming no HMAC collision on the two
  prefixes involved.

HMAC is a function parameter (`Hmac`). The shared key has no parameter of
its own: it is fixed inside the `Hmac` function. The device id and the
clock are parameters too. Each script's functions are modelled in their own
module: `SimEdge`, `Edge`, `Sender`, `Controller` and `Server`.

## Model

| member | source | states |
|---|---|---|
| Hub.Start | cloud.py:53-65 | the hub begins with no sessions, no subscriptions and empty queues; it is consistent exactly when each history file ends in a completed line |
| Hub.RecordChannel | cloud.py:96-107 | a record whose `msg_type` equals 1, 2, 3 or 4 under Python `==` (so `true` counts as 1) is routed to a channel, and the channel chosen is the one whose code it equals |
| Hub.OnGatewayRecord | cloud.py:94-118 | a record with a missing `msg_type`, `device_id`, `timestamp` or `value` raises; otherwise its raw text is appended to exactly the `msg_type` channel's log and the record is queued on exactly that channel, other logs, queues, sessions and subscriptions unchanged |
| Hub.GatewayRecordThenRead | cloud.py:113-114 | after a record whose text holds no line boundary is appended, reading its channel's log yields the earlier lines followed by that record, and the hub stays consistent |
| History.Append | cloud.py:113 | a write keeps the old log text as a prefix and is followed by exactly the record's text and one newline, so the log stays complete |
| History.FirstBreak | cloud.py:180 | finds the first line boundary `str.splitlines` recognises, with none before it |
| History.LinesOfConcat | cloud.py:180 | reading a completed log followed by more text gives the log's lines followed by the lines of that text |
| History.AppendThenRead | cloud.py:176-180 | appending a line-free record to a completed log adds exactly that line at the end of what a read returns |
| History.AppendAllThenRead | cloud.py:113-114 | any sequence of line-free records appended one after another reads back, after the earlier lines, in append order |
| Hub.OnApplicationAccepted | cloud.py:126-129 | a new session joins the table with no subscription on any channel; every listener set, log and queue is untouched |
| Hub.Toggle | cloud.py:154-173 | a present subscribe flag puts the sender in the set exactly when it is truthy; an absent flag leaves the set unchanged; no other session is affected |
| Hub.OnApplicationMessage | cloud.py:152-229 | subscribe flags change only the sender's membership and only on channels whose key is present; logs, queues and the table are unchanged; the gateway receives exactly the whole message when `control_curtain` is present and nothing otherwise; consistency is kept |
| Hub.RequestedIn | cloud.py:175-217 | the channels asked for are exactly those whose `read_*_history` key is present and truthy, in channel order |
| Hub.HistoryReplies | cloud.py:175-217 | one reply per requested channel and none for any other, each carrying its whole log read back line by line, in the order temperature, motion, door, curtain |
| Hub.OnApplicationError | cloud.py:235-243 | the failing session leaves the table and all four listener sets; every other session's memberships are unchanged |
| FanOut.ReceivedSends | cloud.py:254-257 | the sends to one listener reach that session, all of them and in queue order, and no other session |
| FanOut.ServeOneView | cloud.py:251-263 | serving one listener changes nothing another session can observe; for the listener it is one step: skipped if already dropped, otherwise sent its payloads until its budget runs out, then dropped and marked dead |
| FanOut.ServeChannelView | cloud.py:251-263 | serving a listener set steps each listed session exactly once and leaves every other session as it was |
| FanOut.ServeChannelsView | cloud.py:250-263 | the four channel loops act on each session as its own chain of steps over the channels it listens to |
| FanOut.ChainIdle | cloud.py:253 | a session already out of the table is not served again on a later channel |
| FanOut.ChainSurvives | cloud.py:258-263 | a live session stays connected exactly when its budget covers everything it is owed this round, and is otherwise marked dead |
| FanOut.ChainReceives | cloud.py:254-257 | a live session receives the first sends it is owed, in order, as many as its budget allows |
| FanOut.RoundEffect | cloud.py:245-264 | over a whole round a session is dropped exactly when its budget is below what it is owed; it receives a prefix of what it is owed; a session not in the table receives nothing |
| Hub.FanOutEffect | cloud.py:245-274 | after the fan-out a session is connected exactly when its budget covered what it was owed, and it is then in exactly the listener sets it was in, otherwise in none; queues are empty and logs untouched |
| Hub.EndRoundDelivers | cloud.py:250-257 | in the corrected round, a session whose sends do not fail receives each record queued on each channel it listens to exactly once, in queue order, channel by channel, and keeps its subscriptions |
| Hub.EndRoundCleanup | cloud.py:258-274 | after a round every listener is still connected, every session dropped in the round is in no listener set, all queues are empty, and consistency is kept |
| Hub.NextKeepsInv | cloud.py:67-274 | every step of the loop keeps listeners inside the application table and every history log complete |
| Hub.EndRoundAsWrittenDelivers | cloud.py:254-257 | as written, a session whose sends do not fail gets one send per queued record, each carrying the last parsed message |
| Hub.StalePayloadCounterexample | cloud.py:254-256 | with two curtain records in one round, the corrected round sends each record once; as written, the second is sent twice and the first never |
| Channels.ChannelOf | cloud.py:96-107 | `msg_type` selects a channel exactly for codes 1 to 4, and the chosen channel has that code |
| Channels.AllByCode | cloud.py:245-246 | the channels are visited in increasing code order and every channel is visited |
| Json.AsNumber | cloud.py:96 | the number a parsed JSON value equals under Python `==` exists exactly for numbers and booleans |
| Cbor.FromBigEndianInverts | testing/fake_edge.py:33 | reading back a big-endian argument gives the integer written |
| Cbor.HeadRoundTrip | testing/fake_edge.py:33 | a CBOR head decodes to the major type and argument it was built from, leaving what follows it |
| Cbor.EncodeAllAppend | testing/fake_edge.py:45-46 | the elements of an array with one more element encode as the old encoding followed by the new element's |
| Cbor.EncodeBytes32 | testing/fake_edge.py:43-50 | a 32-byte byte string encodes as 0x58 0x20 followed by its content |
| Cbor.DecodeEncode | testing/fake_edge.py:33 | decoding an item's encoding from the front of any byte string gives the item back and the rest unread |
| Cbor.DecodeEncodeAll | testing/fake_edge.py:33 | decoding n items from the concatenated encodings of n items gives them back in order |
| Cbor.DecodeOfEncode | server.py:31-35 | `cbor2.loads` of `cbor2.dumps(x)` is `x`, whatever bytes follow |
| Frame.BodyLayout | sender.py:28-35 | whatever 32-byte tag fills the last slot, the frame is the same signed prefix followed by the tag |
| Frame.SealLayout | sender.py:25-35 | the bytes authenticated equal the prefix of the final frame, and the frame's last 32 bytes are the HMAC of everything before them |
| Frame.Verify | server.py:15-41 | short input, a wrong tag, a decode failure, a wrong shape and acceptance are told apart exactly; an accepted frame authenticated and decoded to a five-element array whose first four elements are the fields returned |
| Frame.VerifySeal | testing/fake_edge.py:20-50 | verifying a sealed frame returns exactly the fields that were sealed |
| Frame.TamperRejected | testing/fake_edge.py:25-31 | a frame whose tag is kept but whose prefix is changed fails authentication unless HMAC collides on the two prefixes |
| Frame.ByteFlipRejected | testing/fake_edge.py:25-31 | changing any one byte before the tag makes verification fail, barring such a collision |
| SimEdge.VerifyPacket | testing/fake_edge.py:20-39 | None below 32 bytes and for a wrong tag, an escaping exception only for an authentic but undecodable frame, and otherwise the first four fields of a five-element array |
| SimEdge.EncodePacket | testing/fake_edge.py:41-50 | the frame's prefix is the zero-tag prefix, its last 32 bytes the HMAC of that prefix, and it verifies to (kind, device id, timestamp, value) |
| SimEdge.EncodeTemperature | testing/fake_edge.py:52-53 | a temperature frame verifies with type 1 and the reading |
| SimEdge.EncodeMotion | testing/fake_edge.py:55-56 | a motion frame verifies with type 2 and the flag |
| SimEdge.EncodeDoor | testing/fake_edge.py:58-59 | a door frame verifies with type 3 and the flag |
| SimEdge.Clamp | testing/fake_edge.py:62 | the position lies in [0, 100], is unchanged inside that range and saturates outside it |
| SimEdge.EncodeCurtainStatus | testing/fake_edge.py:61-63 | a curtain-status frame verifies with type 4 and the clamped position |
| SimEdge.IntOf | testing/fake_edge.py:62 | `int()` of a decoded integer is that integer and of a boolean 0 or 1 |
| SimEdge.OnMessage | testing/fake_edge.py:69-86 | nothing is published for a short or unauthentic frame or a verified command of another type, which return normally; a verified type-1 command whose value converts to an int gets exactly one status frame on blinds/curtain with QoS 1 that verifies to type 4 with the clamped value; an exception escapes exactly for an undecodable frame or a type-1 value `int()` rejects |
| Edge.EncodeCurtainStatus | fake_edge.py:40-52 | `[4, DEVICE_ID, ts, clamped value, mac]` with mac over the zero-tag prefix, and it verifies back to those fields |
| Edge.OnMessage | fake_edge.py:58-75 | nothing is published for a short or unauthentic frame or one whose type is not 1; a verified type-1 command whose value converts to an int yields exactly one status publication; an exception escapes exactly for an undecodable frame or a type-1 value `int()` rejects |
| Edge.StatusReplyVerifies | fake_edge.py:19-52 | the status published for a command verifies to (4, DEVICE_ID, now, clamped position) with the position in [0, 100] |
| Sender.EncodeCommand | sender.py:16-35 | fails with ValueError exactly when the value is outside [0, 100]; otherwise the frame is the zero-tag prefix followed by its HMAC and verifies to the command's fields |
| Sender.SendCurtainPosition | sender.py:37-51 | succeeds exactly for positions in [0, 100] and then publishes a type-1 command on blinds/commands with QoS 1 that verifies to the position |
| Controller.EncodeCommand | main.py:9-26 | fails exactly outside [0, 100]; otherwise the frame's prefix is the zero-tag prefix and its last 32 bytes are that prefix's HMAC |
| Controller.SendBlindsPosition | main.py:28-30 | a type-1 command on blinds/commands with QoS 1 that verifies to the position, for positions in [0, 100] |
| Controller.OnMessage | main.py:40-54 | frames under 32 bytes or with a wrong tag are dropped before decoding; an authentic frame is decoded, and a decode failure escapes |
| Controller.EncodeCommandAgrees | main.py:9-26 | main.py's and sender.py's `encode_command` compute the same frame |
| Server.VerifyAndParsePacket | server.py:15-41 | None for short input, a wrong tag, a decode failure or a non-five-element value; exactly for an authentic five-element array it returns the first four elements |
| Server.OnMessage | server.py:53-73 | a report exists exactly for a parsed frame; types 1 to 4 are read as temperature, motion (truthiness), door (truthiness) and curtain position; it is "unknown" exactly when the type equals none of 1 to 4 |
| Server.AcceptsAnyType | server.py:64-73 | the verifier accepts a sealed frame of any type, and a type outside 1 to 4 is only reported as unknown |

## Left out

- Sockets, TLS, `select`, the websocket handshake and framing, MQTT client
  loops and `time.time()` are left out. Clocks and the device id become
  parameters. The HMAC key is fixed inside the `Hmac` function parameter.
- The internals of HMAC-SHA256 are not modelled: `Hmac` is an arbitrary
  function to 32 bytes. `hmac.compare_digest` is plain equality.
- `common/project_crypto.py` and the client applications are not part of
  this model.
- JSON text parsing and printing are left out. Messages are parsed maps,
  and a gateway record arrives as both its raw text and its parsed form.
  Floating-point JSON numbers are not modelled.
- Hub.HistoryReplies: a reply carries the log's lines, not their
  `json.loads` values. A line that fails to parse would raise part-way
  through the handler; that path is not modelled.
- Hub.OnApplicationMessage: exceptions raised part-way through the
  handler are not modelled. Examples are a history line that is not JSON
  and a failed send to the gateway. There, the source keeps the earlier
  subscription changes and then drops the session.
- Hub.OnGatewayRecord: a `msg_type` present but equal to none of 1 to 4
  is excluded by precondition. The source has no branch for it and would
  write to an unbound or stale file.
- Fragmented websocket messages are not modelled; messages arrive whole.
  The gateway's reassembly (cloud.py:91-92, 118) is taken as given. An
  application's fragments are joined only within one `recv`
  (cloud.py:149-150). The joined text is never written back to its table
  entry (cloud.py:135, 229), so fragments split across two reads are not
  joined.
- Gateway text that `json.loads` rejects, or that parses to something
  other than an object, raises at cloud.py:94-96 and ends the loop like a
  missing key. The model takes every gateway record as a parsed object.
- Hub.GatewayRecordThenRead: proved only for record text without a line
  boundary. A record with a line break inside is written as several lines.
  A later read of that channel's history then fails in `json.loads`
  (cloud.py:180), and the requesting session is dropped.
- The gateway is accepted once before the loop (cloud.py:37), so there is
  exactly one gateway by construction. Its handshake, close and
  unknown-event replies are transport.
- The loop's per-iteration order of readable sockets is not modelled. `Next`
  allows any interleaving of events between rounds, which includes every
  order the source can take.
- FanOut.ServeOne: a listener missing from the table without being marked
  dead would make the source's handler raise again; `Inv` excludes that
  state.
- Cbor.Decode: maps, tags, floats, `undefined`, the other simple values
  (initial bytes 0xe0 to 0xf3 and 0xf8) and indefinite lengths are decode
  failures. `cbor2` decodes all of them; it returns simple values as
  `CBORSimpleValue`.
- Server.VerifyAndParsePacket: an authentic five-element array holding a
  float, a tag, a map, `undefined` or another simple value, or sent with
  an indefinite length,
  gives None here. `cbor2` decodes it, and server.py:37-41 returns its first
  four elements.
- SimEdge.VerifyPacket: for the same frames, simple values included, the
  model raises where
  `verify_packet` returns the fields. The same holds for Edge.OnMessage,
  which reuses it. With a `msg_type` of 1.0, testing/fake_edge.py:83-84
  would then publish a status; the model publishes nothing.
- Frame.Fits, Cbor.Valid: integers and lengths are bounded to 64-bit CBOR
  arguments, so bignum tags never arise. Text is held as its UTF-8 bytes,
  with no validation on decode.
- SimEdge.IntOf: `int()` of a decoded string, byte string, array or null
  is treated as raising. The source would parse a numeric string or byte
  string, such as `b"50"`, and then publish a status.
- Sender.SendCurtainPosition: the device id is always a parameter. The
  default `"ESP8266Client"` of sender.py:37 is not modelled as a default
  argument.
- The command-line `__main__` blocks and the module-level connects in
  `main.py` are scripts with no logic beyond the calls modelled.

## Findings

| source | as written | input that shows it | evidently intended | confidence | as-written member | corrected member |
|---|---|---|---|---|---|---|
| cloud.py:254-256 | inside `for data in new_data`, each send serialises `message`, the last JSON message the hub parsed from the gateway or from any application | one curtain subscriber and two different curtain records m1, m2 in one round: it receives m2 twice and never m1 (and if an application message arrives after the records, that message is what subscribers receive) | send `json.dumps(data)`, each queued record once | high, not executed | Hub.StalePayloadCounterexample | Hub.EndRoundDelivers |
