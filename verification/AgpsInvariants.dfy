/** What every run of the AGPS machine keeps, whatever the order of events. */
module AgpsInvariants {
  import opened AgpsModel

  // ---------- list facts ----------

  ghost predicate Distinct(cs: seq<Client>) {
    forall i, j :: 0 <= i < j < |cs| ==> cs[i].key != cs[j].key
  }

  lemma {:induction false} SelectDistinct(cs: seq<Client>, t: Target, wanted: bool)
    requires Distinct(cs)
    ensures Distinct(Select(cs, t, wanted))
  {
    if cs != [] {
      SelectDistinct(cs[1..], t, wanted);
      SelectIn(cs[1..], t, wanted);
      forall c | c in Select(cs[1..], t, wanted)
        ensures c.key != cs[0].key
      {
        assert c in cs[1..];
      }
    }
  }

  lemma {:induction false} SetInactiveMarks(cs: seq<Client>, k: Key)
    requires Distinct(cs)
    ensures forall c :: c in SetInactive(cs, k) && c.key == k ==> c.inactive
    ensures Listed(cs, k) ==> HasInactive(SetInactive(cs, k))
  {
    if cs != [] {
      SetInactiveMarks(cs[1..], k);
      if cs[0].key == k {
        assert forall c :: c in cs[1..] ==> c.key != k;
        assert SetInactive(cs, k)[0].inactive;
      } else {
        assert SetInactive(cs, k) == [cs[0]] + SetInactive(cs[1..], k);
        assert Listed(cs, k) ==> Listed(cs[1..], k);
        if Listed(cs, k) {
          var c :| c in SetInactive(cs[1..], k) && c.inactive;
          assert c in SetInactive(cs, k);
        }
      }
    }
  }

  lemma SetInactiveListed(cs: seq<Client>, k: Key)
    ensures forall x :: Listed(SetInactive(cs, k), x) <==> Listed(cs, x)
  {
    SetInactiveAt(cs, k);
    var r := SetInactive(cs, k);
    forall x
      ensures Listed(r, x) <==> Listed(cs, x)
    {
      if Listed(cs, x) {
        var i :| 0 <= i < |cs| && cs[i].key == x;
        assert r[i] in r;
      }
      if Listed(r, x) {
        var i :| 0 <= i < |r| && r[i].key == x;
        assert cs[i] in cs;
      }
    }
  }

  // ---------- the invariant ----------

  /** Holds in every reachable state of either kind of machine, list flushes included. */
  ghost predicate Inv(cfg: Config, m: Machine) {
    && Distinct(m.clients)
    && m.retries <= MAX_START_DATA_CALL_RETRIES
    && (forall c :: c in m.clients && c.inactive ==> WaitsForClose(cfg.kind))
    && (m.control == Released ==> !HasInactive(m.clients))
    && (m.control == Released && cfg.kind != Ds ==> m.clients == [])
    && (m.control in {Pending, Acquired} ==> m.clients == [] || HasActive(m.clients))
  }

  /** What holds besides on runs that never flush the list. */
  ghost predicate Unflushed(m: Machine) {
    && (m.control in {Pending, Acquired} ==> HasActive(m.clients))
    && (m.control == Releasing ==> HasInactive(m.clients))
  }

  lemma LeaveKeeps(cfg: Config, m: Machine, k: Key)
    requires Distinct(m.clients)
    requires forall c :: c in m.clients && c.inactive ==> WaitsForClose(cfg.kind)
    ensures var cs := Leave(cfg, m, k).m.clients;
            && Distinct(cs)
            && (forall c :: c in cs && c.inactive ==> WaitsForClose(cfg.kind))
            && (HasInactive(m.clients) ==> HasInactive(cs))
  {
    SelectDistinct(m.clients, One(k), false);
    SelectIn(m.clients, One(k), false);
    SetInactiveAt(m.clients, k);
    if WaitsForClose(cfg.kind) && HasInactive(m.clients) {
      var i :| 0 <= i < |m.clients| && m.clients[i].inactive;
      assert SetInactive(m.clients, k)[i].inactive;
    }
  }

  lemma RetriesBounded(cfg: Config, cs: seq<Client>, action: Output, retries: nat, reply: DataCall)
    requires action in {Request, Release} && retries <= MAX_START_DATA_CALL_RETRIES
    ensures Send(cfg, cs, action, retries, reply).retries <= MAX_START_DATA_CALL_RETRIES
  {
  }

  lemma SubscribeKeepsInv(cfg: Config, m: Machine, k: Key, reply: DataCall)
    requires Inv(cfg, m)
    ensures Inv(cfg, OnSubscribe(cfg, m, k, reply).m)
  {
    var cs := AddClient(m.clients, k);
    assert forall c :: c in m.clients ==> c in cs;
    assert !Listed(m.clients, k) ==> cs[0] == Client(k, false);
    RetriesBounded(cfg, cs, Request, m.retries, reply);
  }

  lemma SettleKeepsInv(cfg: Config, control: Control, left: Outcome)
    requires control == left.m.control != Released && left.m.retries <= MAX_START_DATA_CALL_RETRIES
    requires Distinct(left.m.clients)
    requires forall c :: c in left.m.clients && c.inactive ==> WaitsForClose(cfg.kind)
    ensures Inv(cfg, Settle(cfg, control, left).m)
  {
  }

  lemma UnsubscribeKeepsInv(cfg: Config, m: Machine, k: Key)
    requires Inv(cfg, m)
    ensures Inv(cfg, OnUnsubscribe(cfg, m, k).m)
  {
    LeaveKeeps(cfg, m, k);
    if Listed(m.clients, k) && m.control != Released {
      SettleKeepsInv(cfg, m.control, Leave(cfg, m, k));
    }
  }

  /** Whoever is left after the inactive clients are closed is active. */
  lemma ActiveRemain(cs: seq<Client>)
    requires Distinct(cs)
    ensures var r := Select(cs, InactiveOnly, false);
            && Distinct(r) && !HasInactive(r)
            && (HasActive(r) <==> HasActive(cs)) && (!HasActive(cs) ==> r == [])
  {
    var r := Select(cs, InactiveOnly, false);
    SelectDistinct(cs, InactiveOnly, false);
    SelectIn(cs, InactiveOnly, false);
    assert r != [] ==> r[0] in r;
    if HasActive(cs) {
      var c :| c in cs && !c.inactive;
      assert c in r;
    }
  }

  lemma CloseInactiveKeepsInv(cfg: Config, m: Machine, s: Status, reply: DataCall)
    requires Inv(cfg, m)
    ensures Inv(cfg, CloseInactive(cfg, m, s, reply).m)
    ensures CloseInactive(cfg, m, s, reply).m.control
         == if HasActive(m.clients) then Pending else Released
  {
    ActiveRemain(m.clients);
    var retries := if cfg.kind == Ds && s == RsrcDenied && Select(m.clients, InactiveOnly, true) != [] then 0
                   else m.retries;
    RetriesBounded(cfg, Select(m.clients, InactiveOnly, false), Request, retries, reply);
  }

  lemma StepKeepsInv(cfg: Config, m: Machine, e: Event)
    requires Inv(cfg, m)
    ensures Inv(cfg, Step(cfg, m, e).m)
  {
    match e
    case SubscribeRsrc(k, reply) => SubscribeKeepsInv(cfg, m, k, reply);
    case UnsubscribeRsrc(k) => UnsubscribeKeepsInv(cfg, m, k);
    case OnReleased(reply) => CloseInactiveKeepsInv(cfg, m, RsrcReleased, reply);
    case OnDenied(reply) => CloseInactiveKeepsInv(cfg, m, RsrcDenied, reply);
    case _ =>
  }

  lemma StepKeepsUnflushed(cfg: Config, m: Machine, e: Event)
    requires Inv(cfg, m) && Unflushed(m) && e != DropAll
    ensures Unflushed(Step(cfg, m, e).m)
  {
    match e
    case UnsubscribeRsrc(k) =>
      LeaveKeeps(cfg, m, k);
    case SubscribeRsrc(k, reply) =>
      var cs := AddClient(m.clients, k);
      assert forall c :: c in m.clients ==> c in cs;
      assert Listed(m.clients, k) || !cs[0].inactive;
    case _ =>
  }

  /** Every reachable state meets the invariant. For the base machine that says in particular:
      Released means nobody is listed, engine restarts included. */
  lemma {:induction false} RunKeepsInv(cfg: Config, es: seq<Event>)
    ensures Inv(cfg, Run(cfg, es).m)
  {
    if es != [] {
      RunKeepsInv(cfg, es[..|es| - 1]);
      StepKeepsInv(cfg, Run(cfg, es[..|es| - 1]).m, es[|es| - 1]);
    }
  }

  lemma {:induction false} RunKeepsUnflushed(cfg: Config, es: seq<Event>)
    requires DropAll !in es
    ensures Unflushed(Run(cfg, es).m)
  {
    if es != [] {
      RunKeepsInv(cfg, es[..|es| - 1]);
      RunKeepsUnflushed(cfg, es[..|es| - 1]);
      StepKeepsUnflushed(cfg, Run(cfg, es[..|es| - 1]).m, es[|es| - 1]);
    }
  }
}
