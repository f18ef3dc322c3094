/** Conservation over whole runs of both kinds of AGPS machine: connection requests against releases, and
    subscriptions against closing notifications. */
module AgpsLedger {
  import opened AgpsModel
  import opened AgpsInvariants
  import opened AgpsTransitions

  // ---------- requests and releases ----------

  /** The connection manager itself ends the connection: DENIED while it is awaited, RELEASED while it is held. The
      DS machine takes a RELEASED that it did not expect for a DENIED. */
  predicate EndedByManager(cfg: Config, m: Machine, e: Event) {
    || (e.OnDenied? && m.control == Pending)
    || (e.OnReleased? && (m.control == Acquired || (m.control == Pending && cfg.kind == Ds)))
  }

  /** The DS machine asked for the data call on behalf of a new client, and the call was not started. */
  predicate FailedStart(cfg: Config, m: Machine, e: Event) {
    cfg.kind == Ds && e.SubscribeRsrc? && Asks(cfg, m, e) && e.reply != CallStarted
  }

  /** A request goes out exactly when the machine starts to hold or a start fails; a release or an ending by the
      manager happens exactly when it stops to hold. */
  lemma StepBalanced(cfg: Config, m: Machine, e: Event)
    requires Inv(cfg, m)
    ensures var o := Step(cfg, m, e);
            && Count(o.outs, Request) == Indicator(!Holds(m) && Holds(o.m)) + Indicator(FailedStart(cfg, m, e))
            && Count(o.outs, Release) + Indicator(EndedByManager(cfg, m, e)) == Indicator(Holds(m) && !Holds(o.m))
  {
    StepOutputs(cfg, m, e, Request);
    StepOutputs(cfg, m, e, Release);
    StepControl(cfg, m, e);
  }

  /** A DS machine gives its data call up exactly when it goes from Pending or Acquired to Releasing. */
  lemma DsReleases(cfg: Config, m: Machine, e: Event)
    requires cfg.kind == Ds && Inv(cfg, m)
    ensures var o := Step(cfg, m, e);
            Release in o.outs <==> m.control in {Pending, Acquired} && o.m.control == Releasing
  {
    StepOutputs(cfg, m, e, Release);
    CountIn(Step(cfg, m, e).outs, Release);
    StepControl(cfg, m, e);
  }

  function EndsByManager(cfg: Config, es: seq<Event>): nat {
    if es == [] then 0
    else EndsByManager(cfg, es[..|es| - 1])
         + Indicator(EndedByManager(cfg, Run(cfg, es[..|es| - 1]).m, es[|es| - 1]))
  }

  function FailedStarts(cfg: Config, es: seq<Event>): nat {
    if es == [] then 0
    else FailedStarts(cfg, es[..|es| - 1]) + Indicator(FailedStart(cfg, Run(cfg, es[..|es| - 1]).m, es[|es| - 1]))
  }

  /** Over every run of either machine, engine restarts included, each connection requested was released, or ended by
      the manager, or never started, or is still held. */
  lemma {:induction false} RequestLedger(cfg: Config, es: seq<Event>)
    ensures var r := Run(cfg, es);
            Count(r.outs, Request)
            == Count(r.outs, Release) + EndsByManager(cfg, es) + FailedStarts(cfg, es) + Indicator(Holds(r.m))
  {
    if es != [] {
      var before, e := es[..|es| - 1], es[|es| - 1];
      RequestLedger(cfg, before);
      RunKeepsInv(cfg, before);
      var m := Run(cfg, before).m;
      StepBalanced(cfg, m, e);
      CountConcat(Run(cfg, before).outs, Step(cfg, m, e).outs, Request);
      CountConcat(Run(cfg, before).outs, Step(cfg, m, e).outs, Release);
    }
  }

  /** Only the DS machine can fail to start a connection. */
  lemma {:induction false} OnlyDsFails(cfg: Config, es: seq<Event>)
    requires cfg.kind != Ds
    ensures FailedStarts(cfg, es) == 0
  {
    if es != [] {
      OnlyDsFails(cfg, es[..|es| - 1]);
    }
  }

  // ---------- subscriptions and closings ----------

  /** How often a listed subscriber with key k was told that its subscription is over. */
  function Closings(outs: seq<Output>, k: Key): nat {
    Count(outs, Told(k, RsrcUnsubscribe)) + Count(outs, Told(k, RsrcReleased)) + Count(outs, Told(k, RsrcDenied))
  }

  /** Nobody is listed as active and as inactive. */
  lemma OneEntry(cs: seq<Client>, k: Key)
    requires Distinct(cs)
    ensures !(Client(k, false) in cs && Client(k, true) in cs)
  {
  }

  /** A subscriber that leaves while the machine is Released is told so and yet stays listed. */
  predicate ToldAndKept(m: Machine, e: Event, k: Key) {
    e == UnsubscribeRsrc(k) && m.control == Released && Listed(m.clients, k)
  }

  lemma ListedAfter(cfg: Config, m: Machine, e: Event, k: Key)
    requires Inv(cfg, m)
    ensures var waits := m.control == Released || WaitsForClose(cfg.kind);
            Listed(Step(cfg, m, e).m.clients, k)
            <==> match e
                 case SubscribeRsrc(j, _) => Listed(m.clients, k) || (k == j && !TurnedAway(cfg, m))
                 case UnsubscribeRsrc(j) => Listed(m.clients, k) && (k != j || waits)
                 case DropAll => false
                 case OnGranted => Listed(m.clients, k)
                 case RetryTimeout => Listed(m.clients, k)
                 case _ => if m.control == Releasing then Client(k, false) in m.clients
                           else Listed(m.clients, k) && !EndedByManager(cfg, m, e)
  {
    StepClients(cfg, m, e);
    SetInactiveListed(m.clients, k);
    var after := Step(cfg, m, e).m.clients;
    if e.SubscribeRsrc? {
      assert after != m.clients ==> after[0] == Client(e.key, false) && after[1..] == m.clients;
    }
    if m.control == Releasing && (e.OnReleased? || e.OnDenied?) && Listed(after, k) {
      assert Client(k, false) in after;
    }
  }

  /** A closing notification reaches a listed subscriber exactly when, in that very step, it is removed from the list
      by something other than a flush, or it leaves a machine that is Released. */
  lemma StepCloses(cfg: Config, m: Machine, e: Event, k: Key)
    requires Inv(cfg, m)
    ensures var o := Step(cfg, m, e);
            && Closings(o.outs, k) == Indicator(Listed(m.clients, k) && !Listed(o.m.clients, k) && e != DropAll)
                                    + Indicator(ToldAndKept(m, e, k))
            && Count(o.outs, Joined(k)) == Indicator(!Listed(m.clients, k) && Listed(o.m.clients, k))
  {
    StepOutputs(cfg, m, e, Told(k, RsrcUnsubscribe));
    StepOutputs(cfg, m, e, Told(k, RsrcReleased));
    StepOutputs(cfg, m, e, Told(k, RsrcDenied));
    StepOutputs(cfg, m, e, Joined(k));
    ListedAfter(cfg, m, e, k);
    assert Listed(m.clients, k) <==> Client(k, false) in m.clients || Client(k, true) in m.clients by {
      assert forall c :: c in m.clients && c.key == k ==> c == Client(k, false) || c == Client(k, true);
    }
    OneEntry(m.clients, k);
  }

  /** How often a flush dropped a listed subscriber with key k without a word. */
  function Drops(cfg: Config, es: seq<Event>, k: Key): nat {
    if es == [] then 0
    else Drops(cfg, es[..|es| - 1], k)
         + Indicator(es[|es| - 1] == DropAll && Listed(Run(cfg, es[..|es| - 1]).m.clients, k))
  }

  /** How often a subscriber with key k was told that it is out and yet stayed listed. */
  function Kept(cfg: Config, es: seq<Event>, k: Key): nat {
    if es == [] then 0
    else Kept(cfg, es[..|es| - 1], k) + Indicator(ToldAndKept(Run(cfg, es[..|es| - 1]).m, es[|es| - 1], k))
  }

  /** Over every run of either machine, each subscription that entered the list was closed by exactly one
      notification, was dropped by a flush, or is still listed; besides, a subscriber that stays listed may have been
      told that it is out. */
  lemma {:induction false} SubscriptionLedger(cfg: Config, es: seq<Event>, k: Key)
    ensures var r := Run(cfg, es);
            Count(r.outs, Joined(k)) + Kept(cfg, es, k)
            == Closings(r.outs, k) + Drops(cfg, es, k) + Indicator(Listed(r.m.clients, k))
  {
    if es != [] {
      var before, e := es[..|es| - 1], es[|es| - 1];
      SubscriptionLedger(cfg, before, k);
      RunKeepsInv(cfg, before);
      var r := Run(cfg, before);
      var o := Step(cfg, r.m, e);
      StepCloses(cfg, r.m, e, k);
      CountConcat(r.outs, o.outs, Joined(k));
      CountConcat(r.outs, o.outs, Told(k, RsrcUnsubscribe));
      CountConcat(r.outs, o.outs, Told(k, RsrcReleased));
      CountConcat(r.outs, o.outs, Told(k, RsrcDenied));
    }
  }

  /** Only the DS machine keeps subscribers that it told to be out. */
  lemma {:induction false} OnlyDsKeeps(cfg: Config, es: seq<Event>, k: Key)
    requires cfg.kind != Ds
    ensures Kept(cfg, es, k) == 0
  {
    if es != [] {
      OnlyDsKeeps(cfg, es[..|es| - 1], k);
      RunKeepsInv(cfg, es[..|es| - 1]);
    }
  }

  /** A listed client hears of a closing, or is answered DENIED, and stays listed, exactly in two cases: a machine
      that takes one subscriber turns it away when it asks again, or it leaves a machine that is Released. */
  lemma DeniedWhileListed(cfg: Config, m: Machine, e: Event, k: Key)
    requires Inv(cfg, m) && Listed(m.clients, k)
    ensures var o := Step(cfg, m, e);
            Listed(o.m.clients, k) && Closings(o.outs, k) + Count(o.outs, Answered(k, RsrcDenied)) > 0
            <==> (cfg.single && e.SubscribeRsrc? && e.key == k) || ToldAndKept(m, e, k)
  {
    StepCloses(cfg, m, e, k);
    ListedAfter(cfg, m, e, k);
    StepOutputs(cfg, m, e, Answered(k, RsrcDenied));
  }

  /** Subscribing leaves the caller with an active entry if and only if it had one, or it was not
      listed at all and was not turned away. A client that is still waiting for its close is
      listed, so its new subscription is lost. */
  lemma SubscribeTakesEffect(cfg: Config, m: Machine, k: Key, reply: DataCall)
    requires Inv(cfg, m)
    ensures Client(k, false) in OnSubscribe(cfg, m, k, reply).m.clients
       <==> Client(k, false) in m.clients || (!Listed(m.clients, k) && !(cfg.single && m.clients != []))
  {
    var cs := AddClient(m.clients, k);
    assert !Listed(m.clients, k) ==> cs[0] == Client(k, false);
  }

  /** The machines as the engine builds them: only the WIFI machine takes a single subscriber. */
  predicate AsBuilt(cfg: Config) {
    cfg.single <==> cfg.kind == Wifi
  }

  /** A subscription that leaves its caller without an active entry, machine by machine. ATL and BIT machines
      lose none. The WIFI machine loses those of a second client and of one that waits for its close, and tells
      them DENIED. The DS machine loses those of a client that waits for its close; it answers GRANTED when it
      is Acquired and says nothing otherwise. */
  lemma LostSubscriptions(cfg: Config, m: Machine, k: Key, reply: DataCall)
    requires AsBuilt(cfg) && Inv(cfg, m)
    ensures var o := OnSubscribe(cfg, m, k, reply);
            var lost := Client(k, false) !in o.m.clients;
            && (cfg.kind in {Atl, Bit} ==> !lost)
            && (cfg.kind == Wifi ==>
                  (lost <==> m.clients != [] && Client(k, false) !in m.clients)
                  && (lost ==> o == Outcome(m, [Answered(k, RsrcDenied)])))
            && (cfg.kind == Ds ==>
                  (lost <==> Client(k, true) in m.clients)
                  && (lost ==> o == Outcome(m, if m.control == Acquired then [Answered(k, RsrcGranted)] else [])))
  {
    SubscribeTakesEffect(cfg, m, k, reply);
    assert Listed(m.clients, k) <==> Client(k, false) in m.clients || Client(k, true) in m.clients by {
      assert forall c :: c in m.clients && c.key == k ==> c == Client(k, false) || c == Client(k, true);
    }
    OneEntry(m.clients, k);
  }

  /** A caller is told GRANTED and not taken on if and only if the machine is Acquired and lists the caller as
      waiting for its close, and the machine takes several subscribers. */
  lemma GrantedButNotTakenOn(cfg: Config, m: Machine, k: Key, reply: DataCall)
    requires Inv(cfg, m)
    ensures var o := OnSubscribe(cfg, m, k, reply);
            Answered(k, RsrcGranted) in o.outs && Client(k, false) !in o.m.clients
            <==> m.control == Acquired && Client(k, true) in m.clients && !cfg.single
  {
    SubscribeTakesEffect(cfg, m, k, reply);
    OneEntry(m.clients, k);
    assert forall c :: c in m.clients && c.key == k ==> c == Client(k, false) || c == Client(k, true);
  }

  const DATA_SERVICE := Config(Ds, false)

  lemma DsTakesOn(k: Key)
    ensures Run(DATA_SERVICE, [SubscribeRsrc(k, CallStarted)])
         == Outcome(Machine(Pending, [Client(k, false)], 0), [Joined(k), Request])
  {
    RunExtend(DATA_SERVICE, [], SubscribeRsrc(k, CallStarted));
    assert [] + [SubscribeRsrc(k, CallStarted)] == [SubscribeRsrc(k, CallStarted)];
    assert AddClient([], k) == [Client(k, false)];
  }

  lemma OnlyOneLeaves(k: Key)
    ensures Step(DATA_SERVICE, Machine(Pending, [Client(k, false)], 0), UnsubscribeRsrc(k))
         == Outcome(Machine(Releasing, [Client(k, true)], 0), [CloseReported(k), Release])
  {
    var cs := [Client(k, false)];
    assert cs[0] in cs && SetInactive(cs, k) == [Client(k, true)];
  }

  /** The data service for k is requested, and given up again while its release is under way. */
  lemma DsLeaves(k: Key)
    ensures Run(DATA_SERVICE, [SubscribeRsrc(k, CallStarted)] + [UnsubscribeRsrc(k)])
         == Outcome(Machine(Releasing, [Client(k, true)], 0), [Joined(k), Request, CloseReported(k), Release])
  {
    DsTakesOn(k);
    OnlyOneLeaves(k);
    RunExtend(DATA_SERVICE, [SubscribeRsrc(k, CallStarted)], UnsubscribeRsrc(k));
  }

  /** Then it subscribes again before the release is over: it hears nothing, and when the release is over it is
      told RELEASED and forgotten; nothing was requested for it. */
  lemma ResubscriptionLost(k: Key)
    ensures Run(DATA_SERVICE, [SubscribeRsrc(k, CallStarted)] + [UnsubscribeRsrc(k)] + [SubscribeRsrc(k, CallStarted)]
                              + [OnReleased(CallStarted)])
         == Outcome(INITIAL, [Joined(k), Request, CloseReported(k), Release, Told(k, RsrcReleased)])
  {
    var cfg, cs := DATA_SERVICE, [Client(k, true)];
    var left := [SubscribeRsrc(k, CallStarted)] + [UnsubscribeRsrc(k)];
    DsLeaves(k);
    RunExtend(cfg, left, SubscribeRsrc(k, CallStarted));
    assert cs[0] in cs && cs[1..] == [];
    RunExtend(cfg, left + [SubscribeRsrc(k, CallStarted)], OnReleased(CallStarted));
    ActiveRemain(cs);
    assert Select(cs, InactiveOnly, true) == cs && Select(cs, InactiveOnly, false) == [];
    assert ToldAll(cs, RsrcReleased) == [Told(k, RsrcReleased)];
  }

  /** With another client active the connection stays, and the one that subscribes again is told GRANTED
      although it still waits for its close. */
  lemma GrantedWhileClosing(k: Key, j: Key)
    requires j != k
    ensures var es := [SubscribeRsrc(k, CallStarted)] + [SubscribeRsrc(j, CallStarted)] + [OnGranted] + [UnsubscribeRsrc(k)];
            && Run(DATA_SERVICE, es).m == Machine(Acquired, [Client(j, false), Client(k, true)], 0)
            && Step(DATA_SERVICE, Run(DATA_SERVICE, es).m, SubscribeRsrc(k, CallStarted))
               == Outcome(Run(DATA_SERVICE, es).m, [Answered(k, RsrcGranted)])
  {
    var cfg, cs := DATA_SERVICE, [Client(j, false), Client(k, false)];
    var s1 := [SubscribeRsrc(k, CallStarted)];
    var s2 := s1 + [SubscribeRsrc(j, CallStarted)];
    DsTakesOn(k);
    RunExtend(cfg, s1, SubscribeRsrc(j, CallStarted));
    assert Run(cfg, s2).m == Machine(Pending, cs, 0);
    RunExtend(cfg, s2, OnGranted);
    RunExtend(cfg, s2 + [OnGranted], UnsubscribeRsrc(k));
    var after := [Client(j, false), Client(k, true)];
    assert cs[1] in cs && cs[1..] == [Client(k, false)];
    assert SetInactive(cs[1..], k) == [Client(k, true)] && SetInactive(cs, k) == after;
    assert after[0] in after && after[1] in after;
  }
}
