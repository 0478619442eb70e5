/**
 * The hub's four telemetry channels, the `msg_type` code that selects each,
 * the message keys built from its name, and a record holding one value per
 * channel (the hub keeps four parallel variables of every kind).
 */
module Channels {
  import opened Wrappers
  import opened Json

  datatype Channel = Temperature | Motion | Door | Curtain

  /** The fixed order in which the hub visits its channels. */
  const All: seq<Channel> := [Temperature, Motion, Door, Curtain]

  function Name(c: Channel): string {
    match c
    case Temperature => "temperature"
    case Motion => "motion"
    case Door => "door"
    case Curtain => "curtain"
  }

  /** The `msg_type` a gateway record carries for this channel. */
  function Code(c: Channel): int {
    match c
    case Temperature => 1
    case Motion => 2
    case Door => 3
    case Curtain => 4
  }

  /** The channel a `msg_type` selects; the hub has a branch only for 1 to 4. */
  function ChannelOf(code: int): (r: Option<Channel>)
    ensures r.Some? <==> 1 <= code <= 4
    ensures r.Some? ==> Code(r.value) == code
  {
    if code == 1 then Some(Temperature)
    else if code == 2 then Some(Motion)
    else if code == 3 then Some(Door)
    else if code == 4 then Some(Curtain)
    else None
  }

  lemma CodeSelects(c: Channel)
    ensures ChannelOf(Code(c)) == Some(c)
    ensures c in All
  {
  }

  /** Codes follow the visiting order, so "earlier in All" is "smaller code". */
  lemma AllByCode()
    ensures forall i, j :: 0 <= i < j < |All| ==> Code(All[i]) < Code(All[j])
    ensures forall c :: c in All
  {
    forall c ensures c in All {
      CodeSelects(c);
    }
  }

  function SubscribeKey(c: Channel): string { "subscribe_" + Name(c) }
  function ReadKey(c: Channel): string { "read_" + Name(c) + "_history" }
  function HistoryKey(c: Channel): string { Name(c) + "_history" }
  const ControlKey: string := "control_curtain"

  /** One value per channel. */
  datatype PerChannel<T> = PerChannel(temperature: T, motion: T, door: T, curtain: T)
  {
    function Get(c: Channel): T {
      match c
      case Temperature => temperature
      case Motion => motion
      case Door => door
      case Curtain => curtain
    }

    function Put(c: Channel, x: T): (r: PerChannel<T>)
      ensures r.Get(c) == x
      ensures forall d :: d != c ==> r.Get(d) == Get(d)
    {
      match c
      case Temperature => this.(temperature := x)
      case Motion => this.(motion := x)
      case Door => this.(door := x)
      case Curtain => this.(curtain := x)
    }
  }

  function Uniform<T>(x: T): (r: PerChannel<T>)
    ensures forall c :: r.Get(c) == x
  {
    PerChannel(x, x, x, x)
  }
}
