/**
 * The end-of-round fan-out: every subscriber of every channel is sent each
 * record queued on that channel this round; a subscriber whose send fails is
 * dropped from the application table at once and remembered as dead, and
 * later channels skip it.
 *
 * Which sends fail is a parameter: a `Budget` maps a session to the number
 * of sends it accepts this round before its socket raises; a session with no
 * entry never fails.
 */
module FanOut {
  import opened Wrappers
  import opened Json
  import opened Channels

  /** An application session (the socket the hub keys its table by). */
  type AppId = nat

  datatype Delivery = Delivery(channel: Channel, to: AppId, payload: Message)

  /** One websocket message per payload, to one session, in queue order. */
  function Sends(c: Channel, to: AppId, ps: seq<Message>): (r: seq<Delivery>)
    ensures |r| == |ps|
    ensures forall k :: 0 <= k < |ps| ==> r[k] == Delivery(c, to, ps[k])
  {
    seq(|ps|, k requires 0 <= k < |ps| => Delivery(c, to, ps[k]))
  }

  /** What session `t` received, in sending order. */
  function Received(out: seq<Delivery>, t: AppId): (r: seq<Delivery>)
    ensures forall k :: 0 <= k < |r| ==> r[k].to == t && r[k] in out
    decreases |out|
  {
    if out == [] then []
    else (if out[0].to == t then [out[0]] else []) + Received(out[1..], t)
  }

  lemma {:induction false} ReceivedConcat(a: seq<Delivery>, b: seq<Delivery>, t: AppId)
    ensures Received(a + b, t) == Received(a, t) + Received(b, t)
    decreases |a|
  {
    if a != [] {
      assert (a + b)[0] == a[0];
      assert (a + b)[1..] == a[1..] + b;
      ReceivedConcat(a[1..], b, t);
    } else {
      assert a + b == b;
    }
  }

  /** A session receives all of the sends addressed to it and none addressed to another. */
  lemma {:induction false} ReceivedSends(c: Channel, to: AppId, ps: seq<Message>, t: AppId)
    ensures Received(Sends(c, to, ps), t) == if t == to then Sends(c, to, ps) else []
    decreases |ps|
  {
    if ps != [] {
      var r := Sends(c, to, ps);
      assert r == [Delivery(c, to, ps[0])] + Sends(c, to, ps[1..]);
      assert r[1..] == Sends(c, to, ps[1..]);
      ReceivedSends(c, to, ps[1..], t);
    }
  }

  type Budget = map<AppId, nat>

  /** Sends a session still accepts, or None when it never fails. */
  function Lookup(budget: Budget, t: AppId): Option<nat> {
    if t in budget then Some(budget[t]) else None
  }

  /** The loop's state: the application table, `dead_sockets`, what is left of each budget, what was sent. */
  datatype FanState = FanState(apps: set<AppId>, dead: set<AppId>, left: Budget, out: seq<Delivery>)

  /**
   * One subscriber served one channel's queue: skipped when it was already
   * dropped this round (the table lookup raises and the handler sees it is
   * dead); otherwise sent each payload in turn until a send raises, which
   * drops it from the table and marks it dead.
   */
  function ServeOne(s: FanState, c: Channel, to: AppId, ps: seq<Message>): FanState {
    if to !in s.apps then s
    else if to in s.left && s.left[to] < |ps| then
      FanState(s.apps - {to}, s.dead + {to}, s.left, s.out + Sends(c, to, ps[..s.left[to]]))
    else
      var left := if to in s.left then s.left[to := s.left[to] - |ps|] else s.left;
      FanState(s.apps, s.dead, left, s.out + Sends(c, to, ps))
  }

  /** The inner loop over one listener set, in the set's iteration order. */
  function ServeChannel(s: FanState, c: Channel, order: seq<AppId>, ps: seq<Message>): FanState
    decreases |order|
  {
    if order == [] then s else ServeChannel(ServeOne(s, c, order[0], ps), c, order[1..], ps)
  }

  /** The outer loop over (listeners, new data) pairs. */
  function ServeChannels(s: FanState, chans: seq<Channel>, orders: PerChannel<seq<AppId>>,
                         payloads: PerChannel<seq<Message>>): FanState
    decreases |chans|
  {
    if chans == [] then s
    else ServeChannels(ServeChannel(s, chans[0], orders.Get(chans[0]), payloads.Get(chans[0])),
                       chans[1..], orders, payloads)
  }

  /** `order` lists every member of the set exactly once, as iterating a Python set does. */
  predicate Enumerates(order: seq<AppId>, members: set<AppId>) {
    && (forall i, j :: 0 <= i < j < |order| ==> order[i] != order[j])
    && (forall i :: 0 <= i < |order| ==> order[i] in members)
    && (forall x :: x in members ==> x in order)
  }

  /** The whole fan-out of a round, from an empty `dead_sockets`. */
  function Round(apps: set<AppId>, orders: PerChannel<seq<AppId>>, budget: Budget,
                 payloads: PerChannel<seq<Message>>): FanState
  {
    ServeChannels(FanState(apps, {}, budget, []), All, orders, payloads)
  }

  // ---------------------------------------------------------------------
  // One session's view of the loop. Serving one subscriber changes nothing
  // that concerns another, so each session's fate is computed on its own.
  // ---------------------------------------------------------------------

  datatype View = View(live: bool, dead: bool, left: Option<nat>, got: seq<Delivery>)

  function ViewOf(s: FanState, t: AppId): View {
    View(t in s.apps, t in s.dead, Lookup(s.left, t), Received(s.out, t))
  }

  /** Session `t`, subscribed to `c`, served that channel's queue. */
  function Step(v: View, c: Channel, t: AppId, ps: seq<Message>): View {
    if !v.live then v
    else match v.left
      case None => v.(got := v.got + Sends(c, t, ps))
      case Some(n) =>
        if n < |ps| then View(false, true, v.left, v.got + Sends(c, t, ps[..n]))
        else v.(left := Some(n - |ps|), got := v.got + Sends(c, t, ps))
  }

  lemma ServeOneView(s: FanState, c: Channel, to: AppId, ps: seq<Message>, t: AppId)
    ensures ViewOf(ServeOne(s, c, to, ps), t) == if t == to then Step(ViewOf(s, t), c, t, ps) else ViewOf(s, t)
  {
    if to in s.apps {
      var s' := ServeOne(s, c, to, ps);
      var n := if to in s.left && s.left[to] < |ps| then s.left[to] else |ps|;
      assert ps[..|ps|] == ps;
      assert s'.out == s.out + Sends(c, to, ps[..n]);
      ReceivedConcat(s.out, Sends(c, to, ps[..n]), t);
      ReceivedSends(c, to, ps[..n], t);
      if t != to {
        assert Lookup(s'.left, t) == Lookup(s.left, t);
        assert (t in s'.apps <==> t in s.apps) && (t in s'.dead <==> t in s.dead);
      }
    }
  }

  /** Serving a channel touches each listed session once and no other. */
  lemma {:induction false} ServeChannelView(s: FanState, c: Channel, order: seq<AppId>, ps: seq<Message>, t: AppId)
    requires forall i, j :: 0 <= i < j < |order| ==> order[i] != order[j]
    ensures ViewOf(ServeChannel(s, c, order, ps), t) == if t in order then Step(ViewOf(s, t), c, t, ps) else ViewOf(s, t)
    decreases |order|
  {
    if order != [] {
      var s' := ServeOne(s, c, order[0], ps);
      ServeOneView(s, c, order[0], ps, t);
      assert forall i, j :: 0 <= i < j < |order[1..]| ==> order[1..][i] != order[1..][j] by {
        forall i, j | 0 <= i < j < |order[1..]| ensures order[1..][i] != order[1..][j] {
          assert order[1..][i] == order[i + 1] && order[1..][j] == order[j + 1];
        }
      }
      ServeChannelView(s', c, order[1..], ps, t);
      if t == order[0] {
        assert t !in order[1..] by {
          forall k | 0 <= k < |order[1..]| ensures order[1..][k] != t {
            assert order[1..][k] == order[k + 1];
          }
        }
      } else {
        assert t in order <==> t in order[1..] by {
          assert order == [order[0]] + order[1..];
        }
      }
    }
  }

  /** Session `t`'s fate over a sequence of channels. */
  function Chain(v: View, t: AppId, chans: seq<Channel>, members: PerChannel<set<AppId>>,
                 payloads: PerChannel<seq<Message>>): View
    decreases |chans|
  {
    if chans == [] then v
    else
      var c := chans[0];
      Chain(if t in members.Get(c) then Step(v, c, t, payloads.Get(c)) else v, t, chans[1..], members, payloads)
  }

  lemma {:induction false} ServeChannelsView(s: FanState, chans: seq<Channel>, orders: PerChannel<seq<AppId>>,
                                             members: PerChannel<set<AppId>>, payloads: PerChannel<seq<Message>>, t: AppId)
    requires forall c :: Enumerates(orders.Get(c), members.Get(c))
    ensures ViewOf(ServeChannels(s, chans, orders, payloads), t) == Chain(ViewOf(s, t), t, chans, members, payloads)
    decreases |chans|
  {
    if chans != [] {
      var c := chans[0];
      assert Enumerates(orders.Get(c), members.Get(c));
      ServeChannelView(s, c, orders.Get(c), payloads.Get(c), t);
      ServeChannelsView(ServeChannel(s, c, orders.Get(c), payloads.Get(c)), chans[1..], orders, members, payloads, t);
    }
  }

  /** What session `t` is owed on channel `c`: one send per payload if it listens there, else nothing. */
  function Owed(t: AppId, c: Channel, members: PerChannel<set<AppId>>, payloads: PerChannel<seq<Message>>): seq<Delivery> {
    if t in members.Get(c) then Sends(c, t, payloads.Get(c)) else []
  }

  /** Everything session `t` is owed over `chans`, channel by channel. */
  function Expected(t: AppId, chans: seq<Channel>, members: PerChannel<set<AppId>>,
                    payloads: PerChannel<seq<Message>>): seq<Delivery>
    decreases |chans|
  {
    if chans == [] then [] else Owed(t, chans[0], members, payloads) + Expected(t, chans[1..], members, payloads)
  }

  /** How many of `total` owed sends go out to a session with this budget. */
  function Allowance(left: Option<nat>, total: nat): (r: nat)
    ensures r <= total
    ensures r == total <==> left.None? || left.value >= total
  {
    match left
    case None => total
    case Some(n) => if n < total then n else total
  }

  lemma {:induction false} ChainIdle(v: View, t: AppId, chans: seq<Channel>, members: PerChannel<set<AppId>>,
                                     payloads: PerChannel<seq<Message>>)
    requires !v.live
    ensures Chain(v, t, chans, members, payloads) == v
    decreases |chans|
  {
    if chans != [] {
      ChainIdle(v, t, chans[1..], members, payloads);
    }
  }

  /** One channel's worth of a chain: a live session gets what its budget allows of what it is owed there. */
  lemma OwedStep(v: View, t: AppId, c: Channel, members: PerChannel<set<AppId>>, payloads: PerChannel<seq<Message>>)
    requires v.live && !v.dead
    ensures var u := if t in members.Get(c) then Step(v, c, t, payloads.Get(c)) else v;
            var o := Owed(t, c, members, payloads);
            var a := Allowance(v.left, |o|);
            && u.got == v.got + o[..a]
            && u.live == (a == |o|)
            && u.dead == !u.live
            && (u.live ==> (v.left.None? || v.left.value >= |o|) && u.left == Spent(v.left, |o|))
  {
    var o := Owed(t, c, members, payloads);
    assert o[..|o|] == o;
    if t in members.Get(c) {
      var ps := payloads.Get(c);
      match v.left {
        case None =>
        case Some(n) =>
          if n < |ps| {
            assert o[..n] == Sends(c, t, ps[..n]);
          }
      }
    }
  }

  /** What is left of a budget after `k` sends it covers. */
  function Spent(left: Option<nat>, k: nat): Option<nat>
    requires left.None? || left.value >= k
  {
    if left.None? then None else Some(left.value - k)
  }

  /** A budget that covers the first `m` sends covers the rest as far as what is left of it allows. */
  lemma AllowanceSplit(left: Option<nat>, m: nat, r: nat)
    ensures Allowance(left, m) == m ==> Allowance(left, m + r) == m + Allowance(Spent(left, m), r)
    ensures Allowance(left, m) < m ==> Allowance(left, m + r) == Allowance(left, m)
  {
  }

  lemma PrefixOfConcat<T>(o: seq<T>, rest: seq<T>, a: nat, k: nat)
    requires a <= |o| && k <= |rest|
    ensures a < |o| ==> (o + rest)[..a] == o[..a]
    ensures a == |o| ==> (o + rest)[..a + k] == o[..a] + rest[..k]
  {
    if a == |o| {
      assert o[..a] == o;
    }
  }

  /** A live session stays connected exactly when its budget covers everything it is owed. */
  lemma {:induction false} ChainSurvives(v: View, t: AppId, chans: seq<Channel>, members: PerChannel<set<AppId>>,
                                         payloads: PerChannel<seq<Message>>)
    requires v.live && !v.dead
    ensures var w, e := Chain(v, t, chans, members, payloads), Expected(t, chans, members, payloads);
            && w.live == (Allowance(v.left, |e|) == |e|)
            && w.dead == !w.live
    decreases |chans|
  {
    if chans != [] {
      var c := chans[0];
      var o := Owed(t, c, members, payloads);
      var rest := Expected(t, chans[1..], members, payloads);
      var u := if t in members.Get(c) then Step(v, c, t, payloads.Get(c)) else v;
      assert Chain(v, t, chans, members, payloads) == Chain(u, t, chans[1..], members, payloads);
      assert |Expected(t, chans, members, payloads)| == |o| + |rest|;
      OwedStep(v, t, c, members, payloads);
      AllowanceSplit(v.left, |o|, |rest|);
      if u.live {
        ChainSurvives(u, t, chans[1..], members, payloads);
      } else {
        ChainIdle(u, t, chans[1..], members, payloads);
      }
    }
  }

  /** A live session receives the first sends it is owed, as many as its budget allows. */
  lemma {:induction false} ChainReceives(v: View, t: AppId, chans: seq<Channel>, members: PerChannel<set<AppId>>,
                                         payloads: PerChannel<seq<Message>>)
    requires v.live && !v.dead
    ensures var w, e := Chain(v, t, chans, members, payloads), Expected(t, chans, members, payloads);
            w.got == v.got + e[..Allowance(v.left, |e|)]
    decreases |chans|
  {
    var e := Expected(t, chans, members, payloads);
    if chans == [] {
      assert e[..0] == [];
    } else {
      var c := chans[0];
      var o := Owed(t, c, members, payloads);
      var rest := Expected(t, chans[1..], members, payloads);
      assert e == o + rest;
      var u := if t in members.Get(c) then Step(v, c, t, payloads.Get(c)) else v;
      var w := Chain(u, t, chans[1..], members, payloads);
      assert Chain(v, t, chans, members, payloads) == w;
      OwedStep(v, t, c, members, payloads);
      if u.live {
        ChainReceives(u, t, chans[1..], members, payloads);
        ReceivesCovered(v.got, u.got, w.got, o, rest, v.left, u.left);
      } else {
        ChainIdle(u, t, chans[1..], members, payloads);
        ReceivesCut(v.got, w.got, o, rest, v.left);
      }
    }
  }

  /** Sends over two stretches, the first covered by the budget: the second gets what is left of it. */
  lemma ReceivesCovered(before: seq<Delivery>, middle: seq<Delivery>, after: seq<Delivery>,
                        o: seq<Delivery>, rest: seq<Delivery>, left: Option<nat>, left': Option<nat>)
    requires Allowance(left, |o|) == |o| && (left.None? || left.value >= |o|) && left' == Spent(left, |o|)
    requires middle == before + o[..Allowance(left, |o|)]
    requires after == middle + rest[..Allowance(left', |rest|)]
    ensures after == before + (o + rest)[..Allowance(left, |o + rest|)]
  {
    var k := Allowance(left', |rest|);
    AllowanceSplit(left, |o|, |rest|);
    PrefixOfConcat(o, rest, |o|, k);
    assert o[..|o|] == o;
  }

  /** Sends over two stretches, the budget running out in the first: nothing of the second goes out. */
  lemma ReceivesCut(before: seq<Delivery>, after: seq<Delivery>, o: seq<Delivery>, rest: seq<Delivery>, left: Option<nat>)
    requires Allowance(left, |o|) < |o|
    requires after == before + o[..Allowance(left, |o|)]
    ensures after == before + (o + rest)[..Allowance(left, |o + rest|)]
  {
    AllowanceSplit(left, |o|, |rest|);
    PrefixOfConcat(o, rest, Allowance(left, |o|), 0);
  }

  /**
   * The effect of a whole round on session `t`: it is dropped exactly when
   * it is owed more sends than its budget allows; what it receives is a
   * prefix of what it is owed, all of it when it survives; a session that
   * was not in the table receives nothing.
   */
  lemma RoundEffect(apps: set<AppId>, members: PerChannel<set<AppId>>, orders: PerChannel<seq<AppId>>,
                    budget: Budget, payloads: PerChannel<seq<Message>>, t: AppId)
    requires forall c :: Enumerates(orders.Get(c), members.Get(c))
    ensures var s, e := Round(apps, orders, budget, payloads), Expected(t, All, members, payloads);
            && (t in s.apps <==> t in apps && Allowance(Lookup(budget, t), |e|) == |e|)
            && (t in s.dead <==> t in apps && Allowance(Lookup(budget, t), |e|) < |e|)
            && Received(s.out, t) == (if t in apps then e[..Allowance(Lookup(budget, t), |e|)] else [])
  {
    var s0 := FanState(apps, {}, budget, []);
    ServeChannelsView(s0, All, orders, members, payloads, t);
    if t in apps {
      ChainSurvives(ViewOf(s0, t), t, All, members, payloads);
      ChainReceives(ViewOf(s0, t), t, All, members, payloads);
    } else {
      ChainIdle(ViewOf(s0, t), t, All, members, payloads);
    }
  }
}
