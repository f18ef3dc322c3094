/** The modem releases an ATL handle: three machines are asked in turn, and the modem gets its answer. */
module AtlRelease {
  import opened Options
  import opened AgpsModel
  import opened AgpsInvariants
  import opened AgpsLedger
  import opened AgpsTransitions
  import opened Subscribers
  import opened AgpsStateMachines

  const ATL := Config(Atl, false)
  const DS := Config(Ds, false)

  /** atlCloseStatus(handle, ok): what the modem is told about a handle. */
  datatype CloseStatus = CloseStatus(handle: int, ok: bool)

  /** The close status that an output of a machine amounts to: an ATL subscriber passes on
      UNSUBSCRIBE and RELEASED; the DS machine passes on UNSUBSCRIBE, and reports a handle closed
      as soon as its subscriber turns inactive. */
  function CloseStatusOf(kind: Kind, o: Output): seq<CloseStatus> {
    match o
    case Told(ById(h), RsrcUnsubscribe) => if kind in {Atl, Ds} then [CloseStatus(h, true)] else []
    case Told(ById(h), RsrcReleased) => if kind == Atl then [CloseStatus(h, true)] else []
    case CloseReported(ById(h)) => [CloseStatus(h, true)]
    case _ => []
  }

  function CloseStatuses(kind: Kind, outs: seq<Output>): seq<CloseStatus> {
    if outs == [] then [] else CloseStatusOf(kind, outs[0]) + CloseStatuses(kind, outs[1..])
  }

  /** How often the modem is told that a handle is closed. */
  function TimesClosed(told: seq<CloseStatus>, handle: int): nat {
    if told == [] then 0 else Indicator(told[0] == CloseStatus(handle, true)) + TimesClosed(told[1..], handle)
  }

  lemma {:induction false} TimesClosedConcat(a: seq<CloseStatus>, b: seq<CloseStatus>, handle: int)
    ensures TimesClosed(a + b, handle) == TimesClosed(a, handle) + TimesClosed(b, handle)
  {
    if a == [] {
      assert a + b == b;
    } else {
      assert (a + b)[1..] == a[1..] + b;
      TimesClosedConcat(a[1..], b, handle);
    }
  }

  /** RELEASED closes an ATL handle only: the data service reports its handles closed before. */
  lemma {:induction false} StatusReports(kind: Kind, outs: seq<Output>, handle: int)
    requires kind in {Atl, Ds}
    ensures var k := ById(handle);
            TimesClosed(CloseStatuses(kind, outs), handle)
            == Count(outs, Told(k, RsrcUnsubscribe)) + Count(outs, CloseReported(k))
             + if kind == Atl then Count(outs, Told(k, RsrcReleased)) else 0
  {
    if outs != [] {
      var now := CloseStatusOf(kind, outs[0]);
      StatusReports(kind, outs[1..], handle);
      TimesClosedConcat(now, CloseStatuses(kind, outs[1..]), handle);
      assert now != [] ==> now[1..] == [];
    }
  }

  lemma {:induction false} AtlReportsNothing(es: seq<Event>, k: Key)
    ensures Count(Run(ATL, es).outs, CloseReported(k)) == 0
  {
    if es != [] {
      var before := es[..|es| - 1];
      AtlReportsNothing(before, k);
      RunKeepsInv(ATL, before);
      var r := Run(ATL, before);
      StepOutputs(ATL, r.m, es[|es| - 1], CloseReported(k));
      CountConcat(r.outs, Step(ATL, r.m, es[|es| - 1]).outs, CloseReported(k));
    }
  }

  /** Over every run of an ATL machine: each time a handle was taken on, the modem was told once that it is closed,
      or its subscriber was told DENIED, or it was dropped by a flush, or it is still listed. */
  lemma HandlesAreClosed(es: seq<Event>, handle: int)
    ensures var k, r := ById(handle), Run(ATL, es);
            Count(r.outs, Joined(k))
            == TimesClosed(CloseStatuses(Atl, r.outs), handle) + Count(r.outs, Told(k, RsrcDenied))
             + Drops(ATL, es, k) + Indicator(Listed(r.m.clients, k))
  {
    SubscriptionLedger(ATL, es, ById(handle));
    OnlyDsKeeps(ATL, es, ById(handle));
    StatusReports(Atl, Run(ATL, es).outs, handle);
    AtlReportsNothing(es, ById(handle));
  }

  /** The machines for SUPL, for the internet and for the data service; each may be missing. */
  datatype Engine = Engine(agnss: Option<Machine>, internet: Option<Machine>, ds: Option<Machine>) {
    ghost predicate Valid() {
      && (agnss.Some? ==> Inv(ATL, agnss.value))
      && (internet.Some? ==> Inv(ATL, internet.value))
      && (ds.Some? ==> Inv(DS, ds.value))
    }
  }

  predicate Lists(m: Option<Machine>, handle: int) {
    m.Some? && Listed(m.value.clients, ById(handle))
  }

  /** The machine after the handle is unsubscribed from it, and what the modem is told meanwhile. */
  function Unsubscribe(cfg: Config, m: Machine, handle: int): (Option<Machine>, seq<CloseStatus>) {
    var o := OnUnsubscribe(cfg, m, ById(handle));
    (Some(o.m), CloseStatuses(cfg.kind, o.outs))
  }

  /** The first machine that lists the handle acts; if none does the modem is told so. */
  function ReleaseHandle(e: Engine, handle: int): (Engine, seq<CloseStatus>) {
    if Lists(e.agnss, handle) then
      var (m, told) := Unsubscribe(ATL, e.agnss.value, handle);
      (e.(agnss := m), told)
    else if Lists(e.internet, handle) then
      var (m, told) := Unsubscribe(ATL, e.internet.value, handle);
      (e.(internet := m), told)
    else if Lists(e.ds, handle) then
      var (m, told) := Unsubscribe(DS, e.ds.value, handle);
      (e.(ds := m), told)
    else
      (e, [CloseStatus(handle, false)])
  }

  lemma {:induction false} SelectOnly(cs: seq<Client>, k: Key)
    requires Distinct(cs) && Listed(cs, k)
    ensures |Select(cs, One(k), true)| == 1 && Select(cs, One(k), true)[0].key == k
  {
    if cs[0].key == k {
      SelectNobody(cs[1..], One(k));
    } else {
      SelectOnly(cs[1..], k);
    }
  }

  /** One output that closes the handle, and after it nothing but a release of the connection. */
  lemma OneCloses(kind: Kind, o: Output, rest: seq<Output>)
    requires rest == [] || rest == [Release]
    ensures CloseStatuses(kind, [o] + rest) == CloseStatusOf(kind, o)
  {
    assert ([o] + rest)[1..] == rest;
    assert rest != [] ==> rest[1..] == [];
    assert CloseStatuses(kind, rest) == [];
  }

  lemma AtlAnswersOnce(m: Machine, handle: int)
    requires Inv(ATL, m) && Listed(m.clients, ById(handle))
    ensures Unsubscribe(ATL, m, handle).1 == [CloseStatus(handle, true)]
  {
    var k := ById(handle);
    var gone := Select(m.clients, One(k), true);
    SelectOnly(m.clients, k);
    assert gone == [gone[0]] && gone[1..] == [];
    assert ToldAll(gone, RsrcUnsubscribe) == [Told(k, RsrcUnsubscribe)] + ToldAll(gone[1..], RsrcUnsubscribe);
    assert Leave(ATL, m, k).outs == [Told(k, RsrcUnsubscribe)];
    var left := Leave(ATL, m, k);
    OneCloses(Atl, Told(k, RsrcUnsubscribe), Send(ATL, left.m.clients, Release, left.m.retries, CallStarted).outs);
    OneCloses(Atl, Told(k, RsrcUnsubscribe), []);
    assert left.outs + [] == left.outs;
  }

  lemma DsAnswersOnce(m: Machine, handle: int)
    requires Listed(m.clients, ById(handle))
    ensures Unsubscribe(DS, m, handle).1 == [CloseStatus(handle, true)]
  {
    var k := ById(handle);
    OneCloses(Ds, Told(k, RsrcUnsubscribe), []);
    OneCloses(Ds, CloseReported(k), []);
    OneCloses(Ds, CloseReported(k), [Release]);
    assert [Told(k, RsrcUnsubscribe)] + [] == [Told(k, RsrcUnsubscribe)] && [CloseReported(k)] + [] == [CloseReported(k)];
  }

  /** Whatever states the machines are in, the modem gets exactly one close status for the handle
      it releases, and none for another; it says whether some machine listed the handle. The first
      machine that lists it takes the step of a leaving subscriber, and the others stay as they are. */
  lemma ReleaseAnsweredOnce(e: Engine, handle: int)
    requires e.Valid()
    ensures var (after, told) := ReleaseHandle(e, handle);
            var event := UnsubscribeRsrc(ById(handle));
            && told == [CloseStatus(handle, Lists(e.agnss, handle) || Lists(e.internet, handle) || Lists(e.ds, handle))]
            && after.Valid()
            && (after.agnss == if Lists(e.agnss, handle) then Some(Step(ATL, e.agnss.value, event).m) else e.agnss)
            && (after.internet == if Lists(e.internet, handle) && !Lists(e.agnss, handle)
                                  then Some(Step(ATL, e.internet.value, event).m) else e.internet)
            && (after.ds == if Lists(e.ds, handle) && !Lists(e.agnss, handle) && !Lists(e.internet, handle)
                            then Some(Step(DS, e.ds.value, event).m) else e.ds)
  {
    if Lists(e.agnss, handle) {
      AtlAnswersOnce(e.agnss.value, handle);
      StepKeepsInv(ATL, e.agnss.value, UnsubscribeRsrc(ById(handle)));
    } else if Lists(e.internet, handle) {
      AtlAnswersOnce(e.internet.value, handle);
      StepKeepsInv(ATL, e.internet.value, UnsubscribeRsrc(ById(handle)));
    } else if Lists(e.ds, handle) {
      DsAnswersOnce(e.ds.value, handle);
      StepKeepsInv(DS, e.ds.value, UnsubscribeRsrc(ById(handle)));
    }
  }

  // ---------- entries that a release does not end ----------

  /** The modem is told that its handle is closed. An active entry of the data service machine for it lives on
      if and only if an ATL machine lists the handle too, which is asked first, or the data service machine is
      Released, which tells the caller but removes nobody. */
  lemma EntrySurvivesRelease(e: Engine, handle: int)
    requires e.Valid() && e.ds.Some? && Client(ById(handle), false) in e.ds.value.clients
    ensures var (after, told) := ReleaseHandle(e, handle);
            && told == [CloseStatus(handle, true)] && after.ds.Some?
            && (Client(ById(handle), false) in after.ds.value.clients
                <==> Lists(e.agnss, handle) || Lists(e.internet, handle) || e.ds.value.control == Released)
  {
    ReleaseAnsweredOnce(e, handle);
    SetInactiveMarks(e.ds.value.clients, ById(handle));
  }

  /** The requests of the modem that lead there: a data call that cannot be had asks for ordinary ATL with the
      same handle, and keeps its entry. */
  lemma FallbackKeepsEntry(handle: int, reply: DataCall)
    requires reply == Unsupported || reply == CallFailed
    ensures Run(DS, [SubscribeRsrc(ById(handle), reply)])
         == Outcome(Machine(Released, [Client(ById(handle), false)], 0),
                    [Joined(ById(handle)), Request, Fallback(Some(ById(handle)))])
  {
    var k := ById(handle);
    RunExtend(DS, [], SubscribeRsrc(k, reply));
    assert [] + [SubscribeRsrc(k, reply)] == [SubscribeRsrc(k, reply)];
    assert AddClient([], k) == [Client(k, false)] && First([Client(k, false)], ActiveOnly) == Some(Client(k, false));
  }

  lemma AtlTakesOn(handle: int)
    ensures Run(ATL, [SubscribeRsrc(ById(handle), CallStarted)])
         == Outcome(Machine(Pending, [Client(ById(handle), false)], 0), [Joined(ById(handle)), Request])
  {
    var k := ById(handle);
    RunExtend(ATL, [], SubscribeRsrc(k, CallStarted));
    assert [] + [SubscribeRsrc(k, CallStarted)] == [SubscribeRsrc(k, CallStarted)];
    assert AddClient([], k) == [Client(k, false)] && First([Client(k, false)], ActiveOnly) == Some(Client(k, false));
  }

  /** The data service falls back, the SUPL machine takes the handle on, and the modem releases it: it is told
      that the handle is closed, and the data service machine lists it as active. */
  lemma FallbackThenRelease(handle: int)
    ensures var k := ById(handle);
            var ds, agnss := Run(DS, [SubscribeRsrc(k, Unsupported)]).m, Run(ATL, [SubscribeRsrc(k, CallStarted)]).m;
            var (after, told) := ReleaseHandle(Engine(Some(agnss), None, Some(ds)), handle);
            told == [CloseStatus(handle, true)] && after.ds == Some(Machine(Released, [Client(k, false)], 0))
  {
    FallbackKeepsEntry(handle, Unsupported);
    AtlTakesOn(handle);
    var k := ById(handle);
    var cs := [Client(k, false)];
    assert cs[0] in cs;
    var e := Engine(Some(Machine(Pending, cs, 0)), None, Some(Machine(Released, cs, 0)));
    assert e.Valid();
    EntrySurvivesRelease(e, handle);
  }

  /** The same without any ATL machine. */
  lemma FallbackAloneThenRelease(handle: int)
    ensures var k := ById(handle);
            var ds := Run(DS, [SubscribeRsrc(k, Unsupported)]).m;
            var (after, told) := ReleaseHandle(Engine(None, None, Some(ds)), handle);
            told == [CloseStatus(handle, true)] && after.ds == Some(Machine(Released, [Client(k, false)], 0))
  {
    FallbackKeepsEntry(handle, Unsupported);
    var cs := [Client(ById(handle), false)];
    assert cs[0] in cs;
    var e := Engine(None, None, Some(Machine(Released, cs, 0)));
    EntrySurvivesRelease(e, handle);
  }

  // ---------- the message handler ----------

  ghost function ModelOf(sm: AgpsStateMachine?): Option<Machine>
    requires sm != null ==> sm.Valid()
    reads if sm == null then {} else {sm} + sm.Repr
  {
    if sm == null then None else Some(sm.Model())
  }

  /** What a machine put out since it had put out `before`, as the modem sees it. */
  ghost function ToldSince(sm: AgpsStateMachine, before: seq<Output>): seq<CloseStatus>
    requires |before| <= |sm.outs|
    reads sm
  {
    CloseStatuses(sm.cfg.kind, sm.outs[|before|..])
  }

  function IdentityOf(kind: Kind, handle: int): Identity {
    Identity(kind, handle, seq(IPV6_LENGTH, _ => '\0'))
  }

  /** Asks one machine; the modem hears of the handle if and only if the machine lists it. */
  method UnsubscribeFrom(sm: AgpsStateMachine, handle: int) returns (found: bool, ghost told: seq<CloseStatus>)
    requires sm.Valid() && sm.cfg.kind in {Atl, Ds} && !sm.cfg.single
    modifies sm.Repr
    ensures sm.Valid() && fresh(sm.Repr - old(sm.Repr))
    ensures found <==> Listed(old(sm.Clients()), ById(handle))
    ensures !found ==> unchanged(old(sm.Repr))
    ensures found ==> (Some(sm.Model()), told) == Unsubscribe(sm.cfg, old(sm.Model()), handle)
  {
    ghost var before := sm.outs;
    var s := new Subscriber(IdentityOf(sm.cfg.kind, handle));
    found := sm.UnsubscribeResource(s);
    told := ToldSince(sm, before);
  }

  ghost predicate Usable(sm: AgpsStateMachine?, cfg: Config)
    reads if sm == null then {} else {sm} + sm.Repr
  {
    sm != null ==> sm.Valid() && sm.cfg == cfg
  }

  ghost function Footprint(sm: AgpsStateMachine?): set<object>
    reads if sm == null then {} else {sm}
  {
    if sm == null then {} else sm.Repr
  }

  /** Asks one machine if it is there. */
  method AskMachine(sm: AgpsStateMachine?, handle: int, ghost cfg: Config)
    returns (found: bool, ghost told: seq<CloseStatus>)
    requires Usable(sm, cfg) && cfg in {ATL, DS}
    modifies Footprint(sm)
    ensures Usable(sm, cfg)
    ensures found <==> Lists(old(ModelOf(sm)), handle)
    ensures !found ==> unchanged(old(Footprint(sm)))
    ensures found ==> (ModelOf(sm), told) == Unsubscribe(cfg, old(ModelOf(sm)).value, handle)
  {
    found, told := false, [];
    if sm != null {
      found, told := UnsubscribeFrom(sm, handle);
    }
  }

  /** One machine's part in asking the machines in turn. */
  ghost predicate Turn(before: Option<Machine>, after: Option<Machine>, cfg: Config, handle: int, asked: bool,
                       told: seq<CloseStatus>) {
    if asked && Lists(before, handle) then (after, told) == Unsubscribe(cfg, before.value, handle)
    else after == before
  }

  /** The three parts together are the release. */
  lemma TurnsAreRelease(e: Engine, after: Engine, handle: int, told: seq<CloseStatus>)
    requires Turn(e.agnss, after.agnss, ATL, handle, true, told)
    requires Turn(e.internet, after.internet, ATL, handle, !Lists(e.agnss, handle), told)
    requires Turn(e.ds, after.ds, DS, handle, !Lists(e.agnss, handle) && !Lists(e.internet, handle), told)
    requires Lists(e.agnss, handle) || Lists(e.internet, handle) || Lists(e.ds, handle)
             || told == [CloseStatus(handle, false)]
    ensures (after, told) == ReleaseHandle(e, handle)
  {
  }

  /** The second and third question, asked when the SUPL machine did not know the handle. */
  method AskOthers(internet: AgpsStateMachine?, ds: AgpsStateMachine?, handle: int) returns (ghost told: seq<CloseStatus>)
    requires Usable(internet, ATL) && Usable(ds, DS) && Footprint(internet) !! Footprint(ds)
    modifies Footprint(internet), Footprint(ds)
    ensures Usable(internet, ATL) && Usable(ds, DS)
    ensures Turn(old(ModelOf(internet)), ModelOf(internet), ATL, handle, true, told)
    ensures Turn(old(ModelOf(ds)), ModelOf(ds), DS, handle, !Lists(old(ModelOf(internet)), handle), told)
    ensures Lists(old(ModelOf(internet)), handle) || Lists(old(ModelOf(ds)), handle)
            || told == [CloseStatus(handle, false)]
  {
    var found;
    found, told := AskMachine(internet, handle, ATL);
    if !found {
      found, told := AskMachine(ds, handle, DS);
      if !found {
        told := [CloseStatus(handle, false)];  // atlCloseStatus(handle, 0)
      }
    }
  }

  /** LocEngReleaseATL::proc. Whatever has happened to the machines before, the modem is told exactly once
      about the handle, and the machines end up as ReleaseHandle says. */
  method ReleaseAtl(agnss: AgpsStateMachine?, internet: AgpsStateMachine?, ds: AgpsStateMachine?, handle: int)
    returns (ghost told: seq<CloseStatus>)
    requires Usable(agnss, ATL) && Usable(internet, ATL) && Usable(ds, DS)
    requires Footprint(agnss) !! Footprint(internet) !! Footprint(ds)
    modifies Footprint(agnss), Footprint(internet), Footprint(ds)
    ensures Usable(agnss, ATL) && Usable(internet, ATL) && Usable(ds, DS)
    ensures var before := Engine(old(ModelOf(agnss)), old(ModelOf(internet)), old(ModelOf(ds)));
            && (Engine(ModelOf(agnss), ModelOf(internet), ModelOf(ds)), told) == ReleaseHandle(before, handle)
            && told == [CloseStatus(handle, Lists(before.agnss, handle) || Lists(before.internet, handle)
                                            || Lists(before.ds, handle))]
  {
    ghost var before := Engine(ModelOf(agnss), ModelOf(internet), ModelOf(ds));
    ReleaseAnsweredOnce(before, handle);
    var found;
    found, told := AskMachine(agnss, handle, ATL);
    if !found {
      told := AskOthers(internet, ds, handle);
    }
    TurnsAreRelease(before, Engine(ModelOf(agnss), ModelOf(internet), ModelOf(ds)), handle, told);
  }
}
