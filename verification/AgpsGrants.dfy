/** Who has been told that the connection is there, over every run of both kinds of machine, and
    the bounds of the DS machine's retries. */
module AgpsGrants {
  import opened Options
  import opened AgpsModel
  import opened AgpsInvariants
  import opened AgpsTransitions

  /** The outputs of the last event of a run. */
  function LastOuts(cfg: Config, es: seq<Event>): seq<Output>
    requires es != []
  {
    Step(cfg, Run(cfg, es[..|es| - 1]).m, es[|es| - 1]).outs
  }

  /** Whether the subscriber with key k was told GRANTED in the call that put it on the list or
      later, read off the outputs alone, from the last event backwards. */
  ghost predicate GrantedSinceJoining(cfg: Config, es: seq<Event>, k: Key) {
    es != [] &&
    (|| Told(k, RsrcGranted) in LastOuts(cfg, es)
     || Answered(k, RsrcGranted) in LastOuts(cfg, es)
     || (Joined(k) !in LastOuts(cfg, es) && GrantedSinceJoining(cfg, es[..|es| - 1], k)))
  }

  // ---------- one step ----------

  /** Between two states: an active client of the second one was told GRANTED in the step, or
      joined in it, or was active before. */
  ghost predicate GrantStep(m: Machine, o: Outcome) {
    forall k :: Client(k, false) in o.m.clients ==>
      var granted := Told(k, RsrcGranted) in o.outs || Answered(k, RsrcGranted) in o.outs;
      && (granted ==> o.m.control == Acquired)
      && (o.m.control == Acquired && m.control != Acquired ==> granted)
      && (o.m.control == Acquired && Joined(k) in o.outs ==> granted)
      && (!granted && Joined(k) !in o.outs ==>
            Client(k, false) in m.clients && (m.control == Acquired <==> o.m.control == Acquired))
  }

  /** A call is made in a step if and only if it is due. */
  lemma MadeIfDue(cfg: Config, m: Machine, e: Event, o: Output)
    requires Inv(cfg, m)
    ensures o in Step(cfg, m, e).outs <==> Due(cfg, m, e, Step(cfg, m, e).m.clients, o)
  {
    StepOutputs(cfg, m, e, o);
    CountIn(Step(cfg, m, e).outs, o);
  }

  lemma ActiveAfter(cfg: Config, m: Machine, e: Event, k: Key)
    requires Inv(cfg, m) && Client(k, false) in Step(cfg, m, e).m.clients
    ensures Client(k, false) in m.clients || Joined(k) in Step(cfg, m, e).outs
  {
    StepClients(cfg, m, e);
    MadeIfDue(cfg, m, e, Joined(k));
  }

  lemma StepGrants(cfg: Config, m: Machine, e: Event)
    requires Inv(cfg, m)
    ensures GrantStep(m, Step(cfg, m, e))
  {
    var o := Step(cfg, m, e);
    forall k | Client(k, false) in o.m.clients
      ensures var granted := Told(k, RsrcGranted) in o.outs || Answered(k, RsrcGranted) in o.outs;
              && (granted ==> o.m.control == Acquired)
              && (o.m.control == Acquired && m.control != Acquired ==> granted)
              && (o.m.control == Acquired && Joined(k) in o.outs ==> granted)
              && (!granted && Joined(k) !in o.outs ==>
                    Client(k, false) in m.clients && (m.control == Acquired <==> o.m.control == Acquired))
    {
      MadeIfDue(cfg, m, e, Told(k, RsrcGranted));
      MadeIfDue(cfg, m, e, Answered(k, RsrcGranted));
      MadeIfDue(cfg, m, e, Joined(k));
      ActiveAfter(cfg, m, e, k);
      StepControl(cfg, m, e);
      StepClients(cfg, m, e);
    }
  }

  /** In every reachable state of either machine, list flushes included, an active subscriber has
      been told GRANTED exactly when the machine is Acquired, whenever it joined. */
  lemma {:induction false} GrantCoherence(cfg: Config, es: seq<Event>, k: Key)
    requires Client(k, false) in Run(cfg, es).m.clients
    ensures GrantedSinceJoining(cfg, es, k) <==> Run(cfg, es).m.control == Acquired
  {
    if es != [] {
      var before := es[..|es| - 1];
      var m := Run(cfg, before).m;
      RunKeepsInv(cfg, before);
      StepGrants(cfg, m, es[|es| - 1]);
      if Client(k, false) in m.clients {
        GrantCoherence(cfg, before, k);
      }
    }
  }

  // ---------- the DS machine ----------

  /** After RELEASED the DS machine is Released, or Pending if it was Releasing and somebody
      active was waiting: never Acquired and never still Releasing. */
  lemma DsReleasedEvent(cfg: Config, m: Machine, reply: DataCall)
    requires cfg.kind == Ds && Inv(cfg, m)
    ensures Step(cfg, m, OnReleased(reply)).m.control
         == if m.control == Releasing && HasActive(m.clients) then Pending else Released
  {
    if m.control == Releasing {
      CloseInactiveKeepsInv(cfg, m, RsrcReleased, reply);
    }
  }

  /** Whenever the DS machine gives up on the data call it names a client that is listed and active. */
  lemma DsFallbackHasHandle(cfg: Config, m: Machine, e: Event, o: Output)
    requires cfg.kind == Ds && Inv(cfg, m) && o in Step(cfg, m, e).outs && o.Fallback?
    ensures o.handle.Some? && Client(o.handle.value, false) in Step(cfg, m, e).m.clients
  {
    MadeIfDue(cfg, m, e, o);
  }

  /** The step asked for the data call and found the engine busy. */
  predicate Busy(cfg: Config, m: Machine, e: Event) {
    Request in Step(cfg, m, e).outs
    && (e.SubscribeRsrc? || e.OnReleased? || e.OnDenied?) && e.reply.EngineBusy?
  }

  /** How many of the events es, starting in state m, found the engine busy. */
  function BusyCount(cfg: Config, m: Machine, es: seq<Event>): nat
    decreases |es|
  {
    if es == [] then 0
    else (if Busy(cfg, m, es[0]) then 1 else 0) + BusyCount(cfg, Step(cfg, m, es[0]).m, es[1..])
  }

  /** A subscriber is passed on to ordinary ATL: either because starting the call failed, or
      because it was told DENIED. */
  ghost predicate FallsBack(outs: seq<Output>) {
    exists o :: o in outs && (o.Fallback? || (o.Told? && o.status == RsrcDenied))
  }

  /** None of the events es, starting in state m, falls back. */
  ghost predicate NeverFallsBack(cfg: Config, m: Machine, es: seq<Event>)
    decreases |es|
  {
    es == [] || (!FallsBack(Step(cfg, m, es[0]).outs) && NeverFallsBack(cfg, Step(cfg, m, es[0]).m, es[1..]))
  }

  /** After asking for the connection somebody active is listed. */
  lemma AskedForSomebody(cfg: Config, m: Machine, e: Event)
    requires Inv(cfg, m) && Asks(cfg, m, e)
    ensures HasActive(Step(cfg, m, e).m.clients)
  {
    StepClients(cfg, m, e);
    var after := Step(cfg, m, e).m.clients;
    if e.SubscribeRsrc? {
      if Listed(m.clients, e.key) {
        var c :| c in m.clients && c.key == e.key;
        assert c in after && !c.inactive;
      } else {
        assert after[0] == Client(e.key, false);
      }
    } else {
      var c :| c in m.clients && !c.inactive;
      assert c in after;
    }
  }

  lemma DeniesFallsBack(cfg: Config, m: Machine, e: Event)
    requires Inv(cfg, m) && Denies(cfg, m, e)
    ensures FallsBack(Step(cfg, m, e).outs)
  {
    var c :| c in m.clients && (m.control == Releasing ==> c.inactive);
    MadeIfDue(cfg, m, e, Told(c.key, RsrcDenied));
    assert c == Client(c.key, c.inactive);
  }

  lemma GivingUpFallsBack(cfg: Config, m: Machine, e: Event)
    requires cfg.kind == Ds && Inv(cfg, m) && Asks(cfg, m, e) && GivesUp(TriesBefore(cfg, m, e), e.reply)
    ensures FallsBack(Step(cfg, m, e).outs)
  {
    AskedForSomebody(cfg, m, e);
    var k := SomebodyIsFirst(Step(cfg, m, e).m.clients);
    MadeIfDue(cfg, m, e, Fallback(Some(k)));
  }

  /** Unless the step falls back, the retry counter grows by one for a busy engine. */
  lemma DsStepCounts(cfg: Config, m: Machine, e: Event)
    requires cfg.kind == Ds && Inv(cfg, m)
    ensures var o := Step(cfg, m, e);
            FallsBack(o.outs) || o.m.retries == m.retries + if Busy(cfg, m, e) then 1 else 0
  {
    StepRetries(cfg, m, e);
    MadeIfDue(cfg, m, e, Request);
    if Denies(cfg, m, e) {
      DeniesFallsBack(cfg, m, e);
    } else if Asks(cfg, m, e) && GivesUp(m.retries, e.reply) {
      GivingUpFallsBack(cfg, m, e);
    }
  }

  lemma {:induction false} BusyWithoutFallback(cfg: Config, m: Machine, es: seq<Event>)
    requires cfg.kind == Ds && Inv(cfg, m) && NeverFallsBack(cfg, m, es)
    ensures m.retries + BusyCount(cfg, m, es) <= MAX_START_DATA_CALL_RETRIES
    decreases |es|
  {
    if es != [] {
      DsStepCounts(cfg, m, es[0]);
      StepKeepsInv(cfg, m, es[0]);
      BusyWithoutFallback(cfg, Step(cfg, m, es[0]).m, es[1..]);
    }
  }

  /** From every reachable state of the DS machine, any stretch of events in which the engine was
      found busy five times hands somebody to ordinary ATL. */
  lemma FiveBusyFallBack(cfg: Config, prefix: seq<Event>, es: seq<Event>)
    requires cfg.kind == Ds && BusyCount(cfg, Run(cfg, prefix).m, es) >= 5
    ensures !NeverFallsBack(cfg, Run(cfg, prefix).m, es)
  {
    RunKeepsInv(cfg, prefix);
    if NeverFallsBack(cfg, Run(cfg, prefix).m, es) {
      BusyWithoutFallback(cfg, Run(cfg, prefix).m, es);
    }
  }
}
