/**
 * The cloud relay hub as a transition system. Its state is the application
 * table, four listener sets, four per-round queues, four history logs and
 * the last JSON message it parsed (one variable shared by the gateway and
 * the application handlers). Events are: a complete record from the
 * gateway, a new application connection, a complete message from an
 * application, an application read error, and the end of a round.
 */
module Hub {
  import opened Wrappers
  import opened Json
  import opened Channels
  import opened History
  import opened FanOut

  datatype Hub = Hub(
    apps: set<AppId>,
    listeners: PerChannel<set<AppId>>,
    queues: PerChannel<seq<Message>>,
    history: PerChannel<string>,
    message: Message)

  /** Only connected sessions listen, and every history write was completed. */
  predicate Inv(h: Hub) {
    && (forall c :: h.listeners.Get(c) <= h.apps)
    && (forall c :: Complete(h.history.Get(c)))
  }

  /** The hub once the gateway is accepted: no sessions, empty queues, the history files as found. */
  function Start(logs: PerChannel<string>): (h: Hub)
    ensures h.apps == {} && h.history == logs
    ensures forall c :: h.listeners.Get(c) == {} && h.queues.Get(c) == []
    ensures (forall c :: Complete(logs.Get(c))) <==> Inv(h)
  {
    Hub({}, Uniform({}), Uniform([]), logs, map[])
  }

  // ---------------------------------------------------------------------
  // Gateway records
  // ---------------------------------------------------------------------

  /** The channel a record's `msg_type` selects, compared as Python's `==` does. */
  function RecordChannel(m: Message): (r: Option<Channel>)
    ensures r.Some? ==> "msg_type" in m && AsNumber(m["msg_type"]) == Some(Code(r.value))
    ensures "msg_type" in m && AsNumber(m["msg_type"]).Some? && 1 <= AsNumber(m["msg_type"]).value <= 4
            ==> r.Some?
  {
    if "msg_type" in m then
      match AsNumber(m["msg_type"])
      case Some(k) => ChannelOf(k)
      case None => None
    else None
  }

  /**
   * The hub has no branch for a `msg_type` outside 1 to 4 (it would write to
   * an unbound or stale file), so such records are excluded; a record with
   * no `msg_type` at all raises.
   */
  predicate Routable(m: Message) {
    "msg_type" in m ==> RecordChannel(m).Some?
  }

  /**
   * A complete text message from the gateway: `raw` is its text and `m` what
   * it parses to. The lookups of `msg_type`, `device_id`, `timestamp` and
   * `value` raise on a missing key, which ends the hub's loop; otherwise the
   * raw text is appended to the selected channel's log and the parsed record
   * queued on that channel.
   */
  function OnGatewayRecord(h: Hub, raw: string, m: Message): (r: Completion<Hub>)
    requires Routable(m)
    ensures r.Returned? <==> "msg_type" in m && "device_id" in m && "timestamp" in m && "value" in m
    ensures r.Returned? ==>
              var c, h' := RecordChannel(m).value, r.value;
              && AsNumber(m["msg_type"]) == Some(Code(c))
              && h'.history.Get(c) == Append(h.history.Get(c), raw)
              && h'.queues.Get(c) == h.queues.Get(c) + [m]
              && (forall d :: d != c ==> h'.history.Get(d) == h.history.Get(d) && h'.queues.Get(d) == h.queues.Get(d))
              && h'.apps == h.apps && h'.listeners == h.listeners && h'.message == m
  {
    if !("msg_type" in m && "device_id" in m && "timestamp" in m && "value" in m) then Raised
    else
      var c := RecordChannel(m).value;
      Returned(h.(history := h.history.Put(c, Append(h.history.Get(c), raw)),
                  queues := h.queues.Put(c, h.queues.Get(c) + [m]),
                  message := m))
  }

  /**
   * History order: a line-free record lands as the last line of its
   * channel's log, after every earlier line, and the hub stays consistent.
   */
  lemma GatewayRecordThenRead(h: Hub, raw: string, m: Message)
    requires Inv(h) && Routable(m) && NoBreaks(raw)
    requires OnGatewayRecord(h, raw, m).Returned?
    ensures var c, h' := RecordChannel(m).value, OnGatewayRecord(h, raw, m).value;
            && Lines(h'.history.Get(c)) == Lines(h.history.Get(c)) + [raw]
            && Inv(h')
  {
    var c := RecordChannel(m).value;
    AppendThenRead(h.history.Get(c), raw);
  }

  // ---------------------------------------------------------------------
  // Application sessions
  // ---------------------------------------------------------------------

  /** A new connection on the application listener joins the table. */
  function OnApplicationAccepted(h: Hub, id: AppId): (r: Hub)
    requires id !in h.apps
    ensures r.apps == h.apps + {id}
    ensures r.listeners == h.listeners
    ensures r.history == h.history && r.queues == h.queues && r.message == h.message
    ensures Inv(h) ==> Inv(r) && forall c :: id !in r.listeners.Get(c)
  {
    h.(apps := h.apps + {id})
  }

  /** One `subscribe_<channel>` key: truthy adds the sender, falsy removes it, absent leaves the set. */
  function Toggle(members: set<AppId>, id: AppId, m: Message, key: string): (r: set<AppId>)
    ensures key in m ==> (id in r <==> Truthy(m[key]))
    ensures key !in m ==> r == members
    ensures forall t :: t != id ==> (t in r <==> t in members)
  {
    if key in m then (if Truthy(m[key]) then members + {id} else members - {id})
    else members
  }

  /** Whether a message asks for a channel's history: the key is present and truthy. */
  predicate Requested(m: Message, c: Channel) {
    ReadKey(c) in m && Truthy(m[ReadKey(c)])
  }

  /** A history reply `{"<channel>_history": [...]}`, carrying the log's lines. */
  datatype Reply = Reply(channel: Channel, lines: seq<string>)
  {
    function Key(): string { HistoryKey(channel) }
  }

  /** The channels of `chans` that `m` asks for, in the order of `chans` (increasing code order). */
  function RequestedIn(m: Message, chans: seq<Channel>): (r: seq<Channel>)
    requires forall i, j :: 0 <= i < j < |chans| ==> Code(chans[i]) < Code(chans[j])
    ensures forall c :: c in r <==> c in chans && Requested(m, c)
    ensures forall i, j :: 0 <= i < j < |r| ==> Code(r[i]) < Code(r[j])
    decreases |chans|
  {
    if chans == [] then []
    else
      var c := chans[0];
      var rest := RequestedIn(m, chans[1..]);
      assert forall d :: d in chans <==> d == c || d in chans[1..] by {
        assert chans == [c] + chans[1..];
      }
      assert forall k :: 0 <= k < |rest| ==> Code(c) < Code(rest[k]) by {
        forall k | 0 <= k < |rest| ensures Code(c) < Code(rest[k]) {
          assert rest[k] in rest;
          var j :| 0 <= j < |chans[1..]| && chans[1..][j] == rest[k];
          assert chans[j + 1] == rest[k];
        }
      }
      if Requested(m, c) then [c] + rest else rest
  }

  /**
   * The history replies to one message: one per requested channel, carrying
   * that channel's whole log read back line by line, in the fixed order
   * temperature, motion, door, curtain.
   */
  function HistoryReplies(h: Hub, m: Message): (r: seq<Reply>)
    ensures forall i :: 0 <= i < |r| ==> Requested(m, r[i].channel) && r[i].lines == Lines(h.history.Get(r[i].channel))
    ensures forall c :: Requested(m, c) <==> exists i :: 0 <= i < |r| && r[i].channel == c
    ensures forall i, j :: 0 <= i < j < |r| ==> Code(r[i].channel) < Code(r[j].channel)
  {
    AllByCode();
    var cs := RequestedIn(m, All);
    var r := ReadBack(h, cs);
    assert forall i :: 0 <= i < |r| ==> Requested(m, r[i].channel) by {
      forall i | 0 <= i < |r| ensures Requested(m, r[i].channel) {
        assert r[i].channel == cs[i] && cs[i] in cs;
      }
    }
    assert forall c :: Requested(m, c) ==> exists i :: 0 <= i < |r| && r[i].channel == c by {
      forall c | Requested(m, c) ensures exists i :: 0 <= i < |r| && r[i].channel == c {
        assert c in All;
        var i :| 0 <= i < |cs| && cs[i] == c;
        assert r[i].channel == c;
      }
    }
    assert forall i, j :: 0 <= i < j < |r| ==> Code(r[i].channel) < Code(r[j].channel) by {
      forall i, j | 0 <= i < j < |r| ensures Code(r[i].channel) < Code(r[j].channel) {
        assert r[i].channel == cs[i] && r[j].channel == cs[j];
      }
    }
    r
  }

  /** Each listed channel's log, read back line by line. */
  function ReadBack(h: Hub, cs: seq<Channel>): (r: seq<Reply>)
    ensures |r| == |cs|
    ensures forall i :: 0 <= i < |cs| ==> r[i].channel == cs[i] && r[i].lines == Lines(h.history.Get(cs[i]))
  {
    seq(|cs|, i requires 0 <= i < |cs| => Reply(cs[i], Lines(h.history.Get(cs[i]))))
  }

  /** What handling one application message produces. */
  datatype Reaction = Reaction(hub: Hub, replies: seq<Reply>, toGateway: seq<Message>)

  /**
   * A complete text message from an application session: subscription
   * flags, then history reads, then curtain forwarding. The whole message,
   * not only its `control_curtain` entry, goes to the gateway.
   */
  function OnApplicationMessage(h: Hub, id: AppId, m: Message): (r: Reaction)
    requires id in h.apps
    ensures forall c :: SubscribeKey(c) in m ==> (id in r.hub.listeners.Get(c) <==> Truthy(m[SubscribeKey(c)]))
    ensures forall c :: SubscribeKey(c) !in m ==> r.hub.listeners.Get(c) == h.listeners.Get(c)
    ensures forall c, t :: t != id ==> (t in r.hub.listeners.Get(c) <==> t in h.listeners.Get(c))
    ensures r.hub.apps == h.apps && r.hub.history == h.history && r.hub.queues == h.queues && r.hub.message == m
    ensures r.replies == HistoryReplies(h, m)
    ensures r.toGateway == (if ControlKey in m then [m] else [])
    ensures Inv(h) ==> Inv(r.hub)
  {
    var l := h.listeners;
    var l' := PerChannel(
      Toggle(l.temperature, id, m, SubscribeKey(Temperature)),
      Toggle(l.motion, id, m, SubscribeKey(Motion)),
      Toggle(l.door, id, m, SubscribeKey(Door)),
      Toggle(l.curtain, id, m, SubscribeKey(Curtain)));
    Reaction(h.(listeners := l', message := m),
             HistoryReplies(h, m),
             if ControlKey in m then [m] else [])
  }

  /** A read error on a session: it leaves the table and every listener set. */
  function OnApplicationError(h: Hub, id: AppId): (r: Hub)
    requires id in h.apps
    ensures r.apps == h.apps - {id}
    ensures forall c :: id !in r.listeners.Get(c)
    ensures forall c, t :: t != id ==> (t in r.listeners.Get(c) <==> t in h.listeners.Get(c))
    ensures r.history == h.history && r.queues == h.queues && r.message == h.message
    ensures Inv(h) ==> Inv(r)
  {
    var l := h.listeners;
    h.(apps := h.apps - {id},
       listeners := PerChannel(l.temperature - {id}, l.motion - {id}, l.door - {id}, l.curtain - {id}))
  }

  // ---------------------------------------------------------------------
  // End of round
  // ---------------------------------------------------------------------

  datatype Ended = Ended(hub: Hub, out: seq<Delivery>)

  /** Iteration orders for the listener sets. */
  predicate Orders(h: Hub, orders: PerChannel<seq<AppId>>) {
    forall c :: Enumerates(orders.Get(c), h.listeners.Get(c))
  }

  /** Each listener set with the dead sockets discarded. */
  function Without(l: PerChannel<set<AppId>>, dead: set<AppId>): (r: PerChannel<set<AppId>>)
    ensures forall c :: r.Get(c) == l.Get(c) - dead
  {
    PerChannel(l.temperature - dead, l.motion - dead, l.door - dead, l.curtain - dead)
  }

  /** Fan-out sending `payloads`, removal of dead sockets, then empty queues. */
  function FanOutWith(h: Hub, orders: PerChannel<seq<AppId>>, budget: Budget,
                      payloads: PerChannel<seq<Message>>): Ended
  {
    var s := Round(h.apps, orders, budget, payloads);
    Ended(h.(apps := s.apps, listeners := Without(h.listeners, s.dead), queues := Uniform([])), s.out)
  }

  /** The end of a round with each queued record sent as itself. */
  function EndRound(h: Hub, orders: PerChannel<seq<AppId>>, budget: Budget): Ended {
    FanOutWith(h, orders, budget, h.queues)
  }

  /** `n` copies of `m`. */
  function Repeat(m: Message, n: nat): (r: seq<Message>)
    ensures |r| == n && forall k :: 0 <= k < n ==> r[k] == m
  {
    seq(n, _ => m)
  }

  /** What the loop sends as written: once per queued record, but always the last parsed message. */
  function Stale(h: Hub): (r: PerChannel<seq<Message>>)
    ensures forall c :: r.Get(c) == Repeat(h.message, |h.queues.Get(c)|)
  {
    var q := h.queues;
    PerChannel(Repeat(h.message, |q.temperature|), Repeat(h.message, |q.motion|),
               Repeat(h.message, |q.door|), Repeat(h.message, |q.curtain|))
  }

  function EndRoundAsWritten(h: Hub, orders: PerChannel<seq<AppId>>, budget: Budget): Ended {
    FanOutWith(h, orders, budget, Stale(h))
  }

  /** What a session is owed this round: for each channel in turn, one send per payload if it listens. */
  lemma ExpectedAll(t: AppId, members: PerChannel<set<AppId>>, payloads: PerChannel<seq<Message>>)
    ensures Expected(t, All, members, payloads) ==
              Owed(t, Temperature, members, payloads) + Owed(t, Motion, members, payloads)
              + Owed(t, Door, members, payloads) + Owed(t, Curtain, members, payloads)
  {
    assert All[1..][1..][1..][1..] == [];
  }

  /**
   * The fan-out for session `t`, whatever fails: it stays connected exactly
   * when its budget covers what it is owed, it is then still in exactly the
   * listener sets it was in, and otherwise in none; it receives a prefix of
   * what it is owed, in order, and a session not in the table receives
   * nothing. The queues are emptied and the logs untouched.
   */
  lemma FanOutEffect(h: Hub, orders: PerChannel<seq<AppId>>, budget: Budget, payloads: PerChannel<seq<Message>>, t: AppId)
    requires Inv(h) && Orders(h, orders)
    ensures var r, e := FanOutWith(h, orders, budget, payloads), Expected(t, All, h.listeners, payloads);
            var a := Allowance(Lookup(budget, t), |e|);
            && (t in r.hub.apps <==> t in h.apps && a == |e|)
            && (forall c :: t in r.hub.listeners.Get(c) <==> t in h.listeners.Get(c) && a == |e|)
            && Received(r.out, t) == (if t in h.apps then e[..a] else [])
            && (forall c :: r.hub.queues.Get(c) == [])
            && r.hub.history == h.history
  {
    var s := Round(h.apps, orders, budget, payloads);
    var r := FanOutWith(h, orders, budget, payloads);
    var e := Expected(t, All, h.listeners, payloads);
    var a := Allowance(Lookup(budget, t), |e|);
    RoundEffect(h.apps, h.listeners, orders, budget, payloads, t);
    assert r.hub.apps == s.apps && r.out == s.out;
    assert t in s.dead <==> t in h.apps && a < |e|;
    forall c ensures t in r.hub.listeners.Get(c) <==> t in h.listeners.Get(c) && a == |e| {
      assert t in h.listeners.Get(c) ==> t in h.apps;
    }
  }

  /**
   * Delivery exactly once: a session whose sends do not fail receives each
   * record queued on each channel it listens to exactly once, in queue
   * order, channel by channel, and nothing else; it keeps its subscriptions.
   */
  lemma EndRoundDelivers(h: Hub, orders: PerChannel<seq<AppId>>, budget: Budget, t: AppId)
    requires Inv(h) && Orders(h, orders) && t in h.apps && t !in budget
    ensures var r := EndRound(h, orders, budget);
            && Received(r.out, t) ==
                 Owed(t, Temperature, h.listeners, h.queues) + Owed(t, Motion, h.listeners, h.queues)
                 + Owed(t, Door, h.listeners, h.queues) + Owed(t, Curtain, h.listeners, h.queues)
            && t in r.hub.apps
            && forall c :: t in r.hub.listeners.Get(c) <==> t in h.listeners.Get(c)
  {
    FanOutEffect(h, orders, budget, h.queues, t);
    ExpectedAll(t, h.listeners, h.queues);
    var e := Expected(t, All, h.listeners, h.queues);
    assert e[..|e|] == e;
  }

  /**
   * Cleanup: after the round every listener is still connected, every
   * session dropped this round is in no listener set, queues are empty,
   * and the logs are as they were.
   */
  lemma EndRoundCleanup(h: Hub, orders: PerChannel<seq<AppId>>, budget: Budget)
    requires Inv(h) && Orders(h, orders)
    ensures var r := EndRound(h, orders, budget).hub;
            && Inv(r)
            && r.apps <= h.apps
            && (forall t, c :: t in h.apps && t !in r.apps ==> t !in r.listeners.Get(c))
            && (forall c :: r.queues.Get(c) == [])
            && r.history == h.history && r.message == h.message
  {
    var r := EndRound(h, orders, budget).hub;
    forall t | t in r.apps ensures t in h.apps {
      FanOutEffect(h, orders, budget, h.queues, t);
    }
    forall c, t | t in r.listeners.Get(c) ensures t in r.apps {
      FanOutEffect(h, orders, budget, h.queues, t);
    }
    forall t, c | t in h.apps && t !in r.apps ensures t !in r.listeners.Get(c) {
      FanOutEffect(h, orders, budget, h.queues, t);
    }
  }

  // ---------------------------------------------------------------------
  // The whole machine
  // ---------------------------------------------------------------------

  datatype Event =
    | GatewayRecord(raw: string, record: Message)
    | Accepted(id: AppId)
    | AppMessage(id: AppId, msg: Message)
    | AppError(id: AppId)
    | EndOfRound(orders: PerChannel<seq<AppId>>, budget: Budget)

  /** When an event can occur: fresh connections, reads only from connected sessions, routable records. */
  predicate Enabled(h: Hub, e: Event) {
    match e
    case GatewayRecord(_, m) => Routable(m)
    case Accepted(id) => id !in h.apps
    case AppMessage(id, _) => id in h.apps
    case AppError(id) => id in h.apps
    case EndOfRound(orders, _) => Orders(h, orders)
  }

  /** One step of the hub's loop; `Raised` means an exception ended the loop. */
  function Next(h: Hub, e: Event): Completion<Hub>
    requires Enabled(h, e)
  {
    match e
    case GatewayRecord(raw, m) => OnGatewayRecord(h, raw, m)
    case Accepted(id) => Returned(OnApplicationAccepted(h, id))
    case AppMessage(id, m) => Returned(OnApplicationMessage(h, id, m).hub)
    case AppError(id) => Returned(OnApplicationError(h, id))
    case EndOfRound(orders, budget) => Returned(EndRound(h, orders, budget).hub)
  }

  /** Every step keeps the listener sets within the table and every log complete. */
  lemma NextKeepsInv(h: Hub, e: Event)
    requires Inv(h) && Enabled(h, e)
    ensures Next(h, e).Returned? ==> Inv(Next(h, e).value)
  {
    match e
    case GatewayRecord(raw, m) =>
    case Accepted(id) =>
    case AppMessage(id, m) =>
    case AppError(id) =>
    case EndOfRound(orders, budget) => EndRoundCleanup(h, orders, budget);
  }

  // ---------------------------------------------------------------------
  // The fan-out as written sends the last parsed message for every record
  // ---------------------------------------------------------------------

  /**
   * As written, a session whose sends do not fail gets one send per queued
   * record, but every one of them carries the hub's last parsed message.
   */
  lemma EndRoundAsWrittenDelivers(h: Hub, orders: PerChannel<seq<AppId>>, budget: Budget, t: AppId)
    requires Inv(h) && Orders(h, orders) && t in h.apps && t !in budget
    ensures var r := EndRoundAsWritten(h, orders, budget);
            Received(r.out, t) ==
              Owed(t, Temperature, h.listeners, Stale(h)) + Owed(t, Motion, h.listeners, Stale(h))
              + Owed(t, Door, h.listeners, Stale(h)) + Owed(t, Curtain, h.listeners, Stale(h))
  {
    FanOutEffect(h, orders, budget, Stale(h), t);
    ExpectedAll(t, h.listeners, Stale(h));
    var e := Expected(t, All, h.listeners, Stale(h));
    assert e[..|e|] == e;
  }

  /** The one-subscriber hub of the counterexample is consistent and the order lists its one listener. */
  lemma CurtainOnly(h: Hub, orders: PerChannel<seq<AppId>>)
    requires h.apps == {0} && h.listeners == PerChannel({}, {}, {}, {0}) && h.history == Uniform("")
    requires orders == PerChannel([], [], [], [0])
    ensures Inv(h) && Orders(h, orders)
  {
    forall c ensures Enumerates(orders.Get(c), h.listeners.Get(c)) {
    }
  }

  /**
   * A subscriber of the curtain channel, two different curtain records in
   * one round, the second also the last message parsed: the corrected round
   * sends each record once, the loop as written sends the second record
   * twice and never the first.
   */
  lemma StalePayloadCounterexample(m1: Message, m2: Message)
    requires m1 != m2
    ensures var h := Hub({0}, PerChannel({}, {}, {}, {0}), PerChannel([], [], [], [m1, m2]), Uniform(""), m2);
            var orders := PerChannel([], [], [], [0]);
            && Received(EndRound(h, orders, map[]).out, 0) == [Delivery(Curtain, 0, m1), Delivery(Curtain, 0, m2)]
            && Received(EndRoundAsWritten(h, orders, map[]).out, 0) == [Delivery(Curtain, 0, m2), Delivery(Curtain, 0, m2)]
  {
    var h := Hub({0}, PerChannel({}, {}, {}, {0}), PerChannel([], [], [], [m1, m2]), Uniform(""), m2);
    var orders := PerChannel([], [], [], [0]);
    var l := h.listeners;
    assert Received(EndRound(h, orders, map[]).out, 0) ==
             Owed(0, Temperature, l, h.queues) + Owed(0, Motion, l, h.queues)
             + Owed(0, Door, l, h.queues) + Owed(0, Curtain, l, h.queues) by {
      CurtainOnly(h, orders);
      EndRoundDelivers(h, orders, map[], 0);
    }
    assert Received(EndRoundAsWritten(h, orders, map[]).out, 0) ==
             Owed(0, Temperature, l, Stale(h)) + Owed(0, Motion, l, Stale(h))
             + Owed(0, Door, l, Stale(h)) + Owed(0, Curtain, l, Stale(h)) by {
      CurtainOnly(h, orders);
      EndRoundAsWrittenDelivers(h, orders, map[], 0);
    }
    assert Owed(0, Temperature, l, h.queues) == [] && Owed(0, Motion, l, h.queues) == []
        && Owed(0, Door, l, h.queues) == [];
    assert Owed(0, Temperature, l, Stale(h)) == [] && Owed(0, Motion, l, Stale(h)) == []
        && Owed(0, Door, l, Stale(h)) == [];
    assert Owed(0, Curtain, l, h.queues) == [Delivery(Curtain, 0, m1), Delivery(Curtain, 0, m2)];
    assert Stale(h).Get(Curtain) == [m2, m2];
    assert Owed(0, Curtain, l, Stale(h)) == [Delivery(Curtain, 0, m2), Delivery(Curtain, 0, m2)];
  }
}
