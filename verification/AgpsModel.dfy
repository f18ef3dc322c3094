/** The AGPS resource state machine of loc_eng_agps.cpp as a function on values: what each event
    does to the control state and to the subscriber list, and which calls leave the machine.
    AgpsStateMachine.dfy holds the heap class that is proved to behave like this. */
module AgpsModel {
  import opened Options

  /** Who a subscriber is: the ID, or for a BIT subscriber without IPv4 address its IPv6 text. */
  datatype Key = ById(id: int) | ByIpv6(address: string)

  datatype Kind = Atl | Bit | Wifi | Ds

  predicate WaitsForClose(kind: Kind) {
    kind == Wifi || kind == Ds
  }

  datatype Status = RsrcSubscribe | RsrcUnsubscribe | RsrcGranted | RsrcReleased | RsrcDenied

  datatype Control = Released | Pending | Acquired | Releasing

  /** What the data-call callback of the DS machine returned, and for a busy engine whether the
      retry timer could be started. */
  datatype DataCall = CallStarted | EngineBusy(timerStarted: bool) | Unsupported | CallFailed | OtherCode

  const MAX_START_DATA_CALL_RETRIES := 4

  /** One subscriber in the list. */
  datatype Client = Client(key: Key, inactive: bool)

  /** Machines differ in the kind of subscriber they list and in whether they take only one. */
  datatype Config = Config(kind: Kind, single: bool) {
    predicate Valid() {
      kind == Ds ==> !single
    }
  }

  datatype Machine = Machine(control: Control, clients: seq<Client>, retries: nat)

  datatype Event =
    | SubscribeRsrc(key: Key, reply: DataCall)
    | UnsubscribeRsrc(key: Key)
    | OnGranted
    | OnReleased(reply: DataCall)
    | OnDenied(reply: DataCall)
    | DropAll
    | RetryTimeout

  datatype Output =
    | Told(key: Key, status: Status)       // a listed subscriber accepted a notification
    | Answered(key: Key, status: Status)   // the caller's own, unlisted object was notified
    | Joined(key: Key)                     // a clone was linked into the list
    | Request | Release                    // the connection was requested or released
    | CloseReported(key: Key)              // DS: a subscriber turned inactive, its handle is reported closed
    | Fallback(handle: Option<Key>)        // DS: no data call, ordinary ATL is requested instead
    | RetryTimer                           // DS: the retry timer was started
    | RetryRequest(key: Key)               // DS: the timer asks for the data call again

  datatype Outcome = Outcome(m: Machine, outs: seq<Output>)

  const INITIAL := Machine(Released, [], 0)

  // ---------- the list ----------

  /** Whom a notification is for. */
  datatype Target = One(key: Key) | All | ActiveOnly | InactiveOnly

  predicate ForMe(c: Client, t: Target) {
    match t
    case One(k) => c.key == k
    case All => true
    case ActiveOnly => !c.inactive
    case InactiveOnly => c.inactive
  }

  /** The clients a notification is for, or those it is not for, in list order. */
  function Select(cs: seq<Client>, t: Target, wanted: bool): seq<Client> {
    if cs == [] then []
    else if ForMe(cs[0], t) == wanted then [cs[0]] + Select(cs[1..], t, wanted)
    else Select(cs[1..], t, wanted)
  }

  lemma {:induction false} SelectIn(cs: seq<Client>, t: Target, wanted: bool)
    ensures forall c :: c in Select(cs, t, wanted) <==> c in cs && ForMe(c, t) == wanted
  {
    if cs != [] {
      SelectIn(cs[1..], t, wanted);
    }
  }

  predicate Listed(cs: seq<Client>, k: Key) {
    exists c :: c in cs && c.key == k
  }

  predicate HasActive(cs: seq<Client>) {
    exists c :: c in cs && !c.inactive
  }

  predicate HasInactive(cs: seq<Client>) {
    exists c :: c in cs && c.inactive
  }

  /** The first client from the head that the target selects. */
  function First(cs: seq<Client>, t: Target): Option<Client> {
    if cs == [] then None else if ForMe(cs[0], t) then Some(cs[0]) else First(cs[1..], t)
  }

  lemma {:induction false} FirstIn(cs: seq<Client>, t: Target)
    ensures var r := First(cs, t);
            && (r.Some? ==> r.value in cs && ForMe(r.value, t))
            && (r.None? ==> forall c :: c in cs ==> !ForMe(c, t))
  {
    if cs != [] {
      FirstIn(cs[1..], t);
    }
  }

  /** Marks the first client with key k. */
  function SetInactive(cs: seq<Client>, k: Key): seq<Client> {
    if cs == [] then []
    else if cs[0].key == k then [Client(k, true)] + cs[1..]
    else [cs[0]] + SetInactive(cs[1..], k)
  }

  lemma {:induction false} SetInactiveAt(cs: seq<Client>, k: Key)
    ensures var r := SetInactive(cs, k);
            && |r| == |cs|
            && (forall i :: 0 <= i < |cs| ==> r[i].key == cs[i].key)
            && (forall i :: 0 <= i < |cs| && cs[i].key != k ==> r[i] == cs[i])
            && (forall i :: 0 <= i < |cs| && cs[i].inactive ==> r[i].inactive)
  {
    if cs != [] {
      SetInactiveAt(cs[1..], k);
    }
  }

  function AddClient(cs: seq<Client>, k: Key): seq<Client> {
    if Listed(cs, k) then cs else [Client(k, false)] + cs
  }

  function JoinedOutput(cs: seq<Client>, k: Key): seq<Output> {
    if Listed(cs, k) then [] else [Joined(k)]
  }

  function ToldAll(cs: seq<Client>, s: Status): seq<Output> {
    if cs == [] then [] else [Told(cs[0].key, s)] + ToldAll(cs[1..], s)
  }

  // ---------- requests to the connection manager ----------

  datatype Sent = Sent(outs: seq<Output>, ok: bool, retries: nat)

  /** sendRsrcRequest: the base machine asks only when the presence of an active client agrees
      with the action; the DS machine always asks, and reacts to how starting the call went. */
  function Send(cfg: Config, cs: seq<Client>, action: Output, retries: nat, reply: DataCall): Sent
    requires action in {Request, Release}
  {
    var s := First(cs, ActiveOnly);
    if cfg.kind != Ds then
      Sent(if s.None? == (action == Release) then [action] else [], true, retries)
    else if action == Release then
      Sent([Release], true, retries)
    else
      var handle := if s.Some? then Some(s.value.key) else None;
      match reply
      case CallStarted => Sent([Request], true, retries)
      case EngineBusy(timerStarted) =>
        if retries + 1 > MAX_START_DATA_CALL_RETRIES then Sent([Request, Fallback(handle)], false, 0)
        else Sent(if timerStarted then [Request, RetryTimer] else [Request], false, retries + 1)
      case Unsupported => Sent([Request, Fallback(handle)], false, 0)
      case CallFailed => Sent([Request, Fallback(handle)], false, 0)
      case OtherCode => Sent([Request], false, retries)
  }

  // ---------- the four states ----------

  function Accept(cfg: Config, m: Machine, k: Key, reply: DataCall): Outcome {
    var joined := JoinedOutput(m.clients, k);
    var cs := AddClient(m.clients, k);
    match m.control
    case Released =>
      var sent := Send(cfg, cs, Request, m.retries, reply);
      Outcome(Machine(if sent.ok then Pending else Released, cs, sent.retries), joined + sent.outs)
    case Acquired => Outcome(m.(clients := cs), [Answered(k, RsrcGranted)] + joined)
    case _ => Outcome(m.(clients := cs), joined)
  }

  /** A machine that takes one subscriber turns a second one away. */
  function OnSubscribe(cfg: Config, m: Machine, k: Key, reply: DataCall): Outcome {
    if cfg.single && m.clients != [] then Outcome(m, [Answered(k, RsrcDenied)])
    else Accept(cfg, m, k, reply)
  }

  /** A subscriber leaves: it is marked and stays until the connection is closed, or it is told
      and deleted at once. */
  function Leave(cfg: Config, m: Machine, k: Key): Outcome {
    if WaitsForClose(cfg.kind) then
      Outcome(m.(clients := SetInactive(m.clients, k)), if cfg.kind == Ds then [CloseReported(k)] else [])
    else
      Outcome(m.(clients := Select(m.clients, One(k), false)),
              ToldAll(Select(m.clients, One(k), true), RsrcUnsubscribe))
  }

  /** After a subscriber left: the connection is given up when nobody active needs it. */
  function Settle(cfg: Config, control: Control, left: Outcome): Outcome {
    var cs := left.m.clients;
    var sent := Send(cfg, cs, Release, left.m.retries, CallStarted);
    if control == Releasing then
      Outcome(left.m.(control := if cs == [] then Released else Releasing), left.outs)
    else if cs == [] then Outcome(left.m.(control := Released), left.outs + sent.outs)
    else if !HasActive(cs) then Outcome(left.m.(control := Releasing), left.outs + sent.outs)
    else left
  }

  function Part(cfg: Config, m: Machine, k: Key): Outcome {
    if m.control == Released then Outcome(m, [Told(k, RsrcUnsubscribe)])
    else Settle(cfg, m.control, Leave(cfg, m, k))
  }

  function OnUnsubscribe(cfg: Config, m: Machine, k: Key): Outcome {
    if Listed(m.clients, k) then Part(cfg, m, k) else Outcome(m, [])
  }

  function OnGrantedEvent(m: Machine): Outcome {
    if m.control == Pending then
      Outcome(m.(control := Acquired), ToldAll(Select(m.clients, ActiveOnly, true), RsrcGranted))
    else Outcome(m, [])
  }

  /** Everybody is told and deleted. */
  function CloseAll(cfg: Config, m: Machine, s: Status): Outcome {
    var retries := if cfg.kind == Ds && s == RsrcDenied && m.clients != [] then 0 else m.retries;
    Outcome(Machine(Released, [], retries), ToldAll(m.clients, s))
  }

  /** The inactive clients are told and deleted. */
  function DropInactive(cfg: Config, m: Machine, s: Status): Outcome {
    var gone := Select(m.clients, InactiveOnly, true);
    var retries := if cfg.kind == Ds && s == RsrcDenied && gone != [] then 0 else m.retries;
    Outcome(Machine(m.control, Select(m.clients, InactiveOnly, false), retries), ToldAll(gone, s))
  }

  /** If somebody joined in the meantime the connection is requested again. */
  function Reopen(cfg: Config, left: Outcome, reply: DataCall): Outcome {
    var sent := Send(cfg, left.m.clients, Request, left.m.retries, reply);
    if HasActive(left.m.clients) then
      Outcome(Machine(Pending, left.m.clients, sent.retries), left.outs + sent.outs)
    else
      Outcome(left.m.(control := Released), left.outs)
  }

  /** In Releasing, RELEASED and DENIED alike close the inactive clients. */
  function CloseInactive(cfg: Config, m: Machine, s: Status, reply: DataCall): Outcome {
    Reopen(cfg, DropInactive(cfg, m, s), reply)
  }

  function OnReleasedBase(cfg: Config, m: Machine, reply: DataCall): Outcome {
    match m.control
    case Acquired => CloseAll(cfg, m, RsrcReleased)
    case Releasing => CloseInactive(cfg, m, RsrcReleased, reply)
    case _ => Outcome(m, [])
  }

  function OnDeniedEvent(cfg: Config, m: Machine, reply: DataCall): Outcome {
    match m.control
    case Pending => CloseAll(cfg, m, RsrcDenied)
    case Releasing => CloseInactive(cfg, m, RsrcDenied, reply)
    case _ => Outcome(m, [])
  }

  /** What the current state does with an event; k is the subscriber that comes or goes. */
  function Handle(cfg: Config, m: Machine, event: Status, k: Key, reply: DataCall): Outcome {
    match event
    case RsrcSubscribe => Accept(cfg, m, k, reply)
    case RsrcUnsubscribe => Part(cfg, m, k)
    case RsrcGranted => OnGrantedEvent(m)
    case RsrcReleased => OnReleasedBase(cfg, m, reply)
    case RsrcDenied => OnDeniedEvent(cfg, m, reply)
  }

  /** The DS machine handles RELEASED as DENIED when the state did not change. */
  function OnReleasedEvent(cfg: Config, m: Machine, reply: DataCall): Outcome {
    var first := OnReleasedBase(cfg, m, reply);
    if cfg.kind != Ds || first.m.control != m.control then first
    else
      var second := OnDeniedEvent(cfg, first.m, reply);
      Outcome(second.m, first.outs + second.outs)
  }

  function OnRetryTimeout(cfg: Config, m: Machine): Outcome {
    var s := First(m.clients, ActiveOnly);
    Outcome(m, if cfg.kind == Ds && s.Some? then [RetryRequest(s.value.key)] else [])
  }

  function Step(cfg: Config, m: Machine, e: Event): Outcome {
    match e
    case SubscribeRsrc(k, reply) => OnSubscribe(cfg, m, k, reply)
    case UnsubscribeRsrc(k) => OnUnsubscribe(cfg, m, k)
    case OnGranted => OnGrantedEvent(m)
    case OnReleased(reply) => OnReleasedEvent(cfg, m, reply)
    case OnDenied(reply) => OnDeniedEvent(cfg, m, reply)
    case DropAll => Outcome(m.(clients := []), [])
    case RetryTimeout => OnRetryTimeout(cfg, m)
  }

  /** A whole run from the initial state: the machine it ends in and everything it put out. */
  function Run(cfg: Config, es: seq<Event>): Outcome {
    if es == [] then Outcome(INITIAL, [])
    else
      var before := Run(cfg, es[..|es| - 1]);
      var o := Step(cfg, before.m, es[|es| - 1]);
      Outcome(o.m, before.outs + o.outs)
  }

  lemma RunExtend(cfg: Config, es: seq<Event>, e: Event)
    ensures var before := Run(cfg, es);
            var o := Step(cfg, before.m, e);
            Run(cfg, es + [e]) == Outcome(o.m, before.outs + o.outs)
  {
    assert (es + [e])[..|es|] == es;
  }
}
