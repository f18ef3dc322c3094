/** Every step of the AGPS machine, looked at from outside: for each call that may leave the machine, for the
    control state, for the list and for the retry counter, when it comes about. Both kinds of machine are
    covered; no condition refers to how a step is computed. */
module AgpsTransitions {
  import opened Options
  import opened AgpsModel
  import opened AgpsInvariants

  // ---------- counting outputs ----------

  function Indicator(b: bool): nat {
    if b then 1 else 0
  }

  function Count(outs: seq<Output>, o: Output): nat {
    if outs == [] then 0 else Indicator(outs[0] == o) + Count(outs[1..], o)
  }

  lemma {:induction false} CountConcat(a: seq<Output>, b: seq<Output>, o: Output)
    ensures Count(a + b, o) == Count(a, o) + Count(b, o)
  {
    if a == [] {
      assert a + b == b;
    } else {
      assert (a + b)[1..] == a[1..] + b;
      CountConcat(a[1..], b, o);
    }
  }

  lemma CountOne(x: Output, o: Output)
    ensures Count([x], o) == Indicator(x == o)
  {
    assert [x][1..] == [];
  }

  lemma CountTwo(x: Output, y: Output, o: Output)
    ensures Count([x, y], o) == Indicator(x == o) + Indicator(y == o)
  {
    assert [x, y][1..] == [y];
    CountOne(y, o);
  }

  lemma {:induction false} CountIn(outs: seq<Output>, o: Output)
    ensures o in outs <==> Count(outs, o) > 0
  {
    if outs != [] {
      CountIn(outs[1..], o);
    }
  }

  lemma {:induction false} CountTold(cs: seq<Client>, s: Status, o: Output)
    requires Distinct(cs)
    ensures Count(ToldAll(cs, s), o) == Indicator(o.Told? && o.status == s && Listed(cs, o.key))
  {
    if cs != [] {
      var rest := cs[1..];
      CountTold(rest, s, o);
      assert ToldAll(cs, s)[1..] == ToldAll(rest, s);
      assert forall c :: c in cs <==> c == cs[0] || c in rest;
      assert forall c :: c in rest ==> c.key != cs[0].key;
    }
  }

  // ---------- what decides a step ----------

  /** The machine holds, or is waiting for, a connection. */
  predicate Holds(m: Machine) {
    m.control in {Pending, Acquired}
  }

  predicate TurnedAway(cfg: Config, m: Machine) {
    cfg.single && m.clients != []
  }

  /** Somebody other than k is listed as active. */
  predicate ActiveBeside(cs: seq<Client>, k: Key) {
    exists c :: c in cs && !c.inactive && c.key != k
  }

  /** k is the first active client from the head. */
  ghost predicate FirstActive(cs: seq<Client>, k: Key) {
    exists i :: 0 <= i < |cs| && cs[i] == Client(k, false) && forall j :: 0 <= j < i ==> cs[j].inactive
  }

  /** The machine asks for the connection: a client that is not turned away comes while it is Released, or the
      connection is gone while it is Releasing and somebody active waits. */
  predicate Asks(cfg: Config, m: Machine, e: Event) {
    || (e.SubscribeRsrc? && m.control == Released && !TurnedAway(cfg, m))
    || ((e.OnReleased? || e.OnDenied?) && m.control == Releasing && HasActive(m.clients))
  }

  /** DENIED reaches a listed client. */
  predicate Denies(cfg: Config, m: Machine, e: Event) {
    || (m.control == Pending && m.clients != [] && (e.OnDenied? || (e.OnReleased? && cfg.kind == Ds)))
    || (m.control == Releasing && HasInactive(m.clients) && e.OnDenied?)
  }

  /** How often the engine was found busy before the step asks; a client told DENIED starts over. */
  function TriesBefore(cfg: Config, m: Machine, e: Event): nat {
    if cfg.kind == Ds && Denies(cfg, m, e) then 0 else m.retries
  }

  /** The data call cannot be had, or the engine was found busy once too often. */
  predicate GivesUp(tries: nat, reply: DataCall) {
    reply in {Unsupported, CallFailed} || (reply.EngineBusy? && tries >= MAX_START_DATA_CALL_RETRIES)
  }

  // ---------- the calls of a step ----------

  /** When a listed subscriber with key k is told status s. */
  predicate Hears(cfg: Config, m: Machine, e: Event, k: Key, s: Status) {
    match s
    case RsrcSubscribe => false
    case RsrcGranted => e.OnGranted? && m.control == Pending && Client(k, false) in m.clients
    case RsrcUnsubscribe =>
      e == UnsubscribeRsrc(k) && Listed(m.clients, k) && (m.control == Released || !WaitsForClose(cfg.kind))
    case RsrcReleased =>
      e.OnReleased? && ((m.control == Acquired && Listed(m.clients, k))
                        || (m.control == Releasing && Client(k, true) in m.clients))
    case RsrcDenied =>
      || (m.control == Pending && Listed(m.clients, k) && (e.OnDenied? || (e.OnReleased? && cfg.kind == Ds)))
      || (m.control == Releasing && Client(k, true) in m.clients && e.OnDenied?)
  }

  /** When a call is due that asks for the connection on behalf of the clients cs. */
  ghost predicate DueOnRequest(cfg: Config, cs: seq<Client>, tries: nat, reply: DataCall, o: Output) {
    match o
    case Request => true
    case Fallback(handle) =>
      cfg.kind == Ds && GivesUp(tries, reply) && handle.Some? && FirstActive(cs, handle.value)
    case RetryTimer => cfg.kind == Ds && reply == EngineBusy(true) && !GivesUp(tries, reply)
    case _ => false
  }

  /** When each call leaves the machine; `after` is the list it leaves behind. */
  ghost predicate Due(cfg: Config, m: Machine, e: Event, after: seq<Client>, o: Output) {
    match o
    case Told(k, s) => Hears(cfg, m, e, k, s)
    case Answered(k, s) =>
      e.SubscribeRsrc? && e.key == k
      && if TurnedAway(cfg, m) then s == RsrcDenied else m.control == Acquired && s == RsrcGranted
    case Joined(k) => e.SubscribeRsrc? && e.key == k && !TurnedAway(cfg, m) && !Listed(m.clients, k)
    case Release => e.UnsubscribeRsrc? && Listed(m.clients, e.key) && Holds(m) && !ActiveBeside(m.clients, e.key)
    case CloseReported(k) => e == UnsubscribeRsrc(k) && cfg.kind == Ds && Listed(m.clients, k) && m.control != Released
    case RetryRequest(k) => e.RetryTimeout? && cfg.kind == Ds && FirstActive(m.clients, k)
    case _ => Asks(cfg, m, e) && DueOnRequest(cfg, after, TriesBefore(cfg, m, e), e.reply, o)
  }

  lemma {:induction false} FirstIsFirstActive(cs: seq<Client>, k: Key)
    ensures FirstActive(cs, k) <==> First(cs, ActiveOnly) == Some(Client(k, false))
  {
    if cs != [] && cs[0].inactive {
      var rest := cs[1..];
      FirstIsFirstActive(rest, k);
      if FirstActive(rest, k) {
        var i :| 0 <= i < |rest| && rest[i] == Client(k, false) && forall j :: 0 <= j < i ==> rest[j].inactive;
        assert cs[i + 1] == Client(k, false) && forall j :: 0 <= j < i + 1 ==> cs[j].inactive;
      }
      if FirstActive(cs, k) {
        var i :| 0 <= i < |cs| && cs[i] == Client(k, false) && forall j :: 0 <= j < i ==> cs[j].inactive;
        assert rest[i - 1] == Client(k, false);
        assert forall j :: 0 <= j < i - 1 ==> rest[j] == cs[j + 1];
      }
    }
  }

  lemma SomebodyIsFirst(cs: seq<Client>) returns (k: Key)
    requires HasActive(cs)
    ensures FirstActive(cs, k)
  {
    FirstIn(cs, ActiveOnly);
    k := First(cs, ActiveOnly).value.key;
    FirstIsFirstActive(cs, k);
  }

  /** What asking amounts to, given that somebody active is listed. */
  lemma CountRequest(cfg: Config, cs: seq<Client>, tries: nat, reply: DataCall, o: Output)
    requires HasActive(cs)
    ensures var sent := Send(cfg, cs, Request, tries, reply);
            && (cfg.kind != Ds ==> sent.ok && sent.retries == tries)
            && (cfg.kind == Ds ==> (sent.ok <==> reply.CallStarted?))
            && (cfg.kind == Ds ==> sent.retries == if GivesUp(tries, reply) then 0
                                                   else if reply.EngineBusy? then tries + 1 else tries)
            && Count(sent.outs, o) == Indicator(DueOnRequest(cfg, cs, tries, reply, o))
  {
    FirstIn(cs, ActiveOnly);
    var first := First(cs, ActiveOnly);
    FirstIsFirstActive(cs, first.value.key);
    if o.Fallback? && o.handle.Some? {
      FirstIsFirstActive(cs, o.handle.value);
    }
    CountOne(Request, o);
    CountTwo(Request, RetryTimer, o);
    CountTwo(Request, Fallback(Some(first.value.key)), o);
  }

  lemma CountRelease(cfg: Config, cs: seq<Client>, tries: nat, reply: DataCall, o: Output)
    requires !HasActive(cs)
    ensures var sent := Send(cfg, cs, Release, tries, reply);
            sent.retries == tries && Count(sent.outs, o) == Indicator(o == Release)
  {
    FirstIn(cs, ActiveOnly);
    CountOne(Release, o);
  }

  /** A client comes while the machine is Released. */
  lemma FirstOutputs(cfg: Config, m: Machine, k: Key, reply: DataCall, o: Output)
    requires Inv(cfg, m) && m.control == Released
    ensures var r := Accept(cfg, m, k, reply);
            Count(r.outs, o) == Indicator(if o.Joined? then o.key == k && !Listed(m.clients, k)
                                          else DueOnRequest(cfg, r.m.clients, m.retries, reply, o))
  {
    var cs, joined := AddClient(m.clients, k), JoinedOutput(m.clients, k);
    CountOne(Joined(k), o);
    assert HasActive(cs) by {
      var c :| c in cs && c.key == k;
    }
    CountRequest(cfg, cs, m.retries, reply, o);
    CountConcat(joined, Send(cfg, cs, Request, m.retries, reply).outs, o);
  }

  /** A client comes while the machine is not Released. */
  lemma LaterOutputs(cfg: Config, m: Machine, k: Key, reply: DataCall, o: Output)
    requires m.control != Released
    ensures Count(Accept(cfg, m, k, reply).outs, o)
         == Indicator((o == Joined(k) && !Listed(m.clients, k))
                      || (o == Answered(k, RsrcGranted) && m.control == Acquired))
  {
    CountOne(Answered(k, RsrcGranted), o);
    CountOne(Joined(k), o);
    CountConcat([Answered(k, RsrcGranted)], JoinedOutput(m.clients, k), o);
  }

  /** What is due on a subscription, by what the machine does with it. */
  lemma SubscribeDue(cfg: Config, m: Machine, k: Key, reply: DataCall, after: seq<Client>, o: Output)
    ensures Due(cfg, m, SubscribeRsrc(k, reply), after, o)
       <==> if TurnedAway(cfg, m) then o == Answered(k, RsrcDenied)
            else || (o == Joined(k) && !Listed(m.clients, k))
                 || (o == Answered(k, RsrcGranted) && m.control == Acquired)
                 || (m.control == Released && DueOnRequest(cfg, after, m.retries, reply, o))
  {
  }

  lemma SubscribeOutputs(cfg: Config, m: Machine, k: Key, reply: DataCall, o: Output)
    requires Inv(cfg, m)
    ensures var e := SubscribeRsrc(k, reply);
            var r := Step(cfg, m, e);
            Count(r.outs, o) == Indicator(Due(cfg, m, e, r.m.clients, o))
  {
    SubscribeDue(cfg, m, k, reply, Step(cfg, m, SubscribeRsrc(k, reply)).m.clients, o);
    if TurnedAway(cfg, m) {
      CountOne(Answered(k, RsrcDenied), o);
    } else if m.control == Released {
      FirstOutputs(cfg, m, k, reply, o);
    } else {
      LaterOutputs(cfg, m, k, reply, o);
    }
  }

  lemma {:induction false} SelectListed(cs: seq<Client>, k: Key)
    ensures forall x :: Listed(Select(cs, One(k), true), x) <==> x == k && Listed(cs, k)
  {
    SelectIn(cs, One(k), true);
  }

  lemma LeaveOutputs(cfg: Config, m: Machine, k: Key, o: Output)
    requires Distinct(m.clients)
    ensures Count(Leave(cfg, m, k).outs, o)
         == Indicator((o == CloseReported(k) && cfg.kind == Ds)
                      || (o == Told(k, RsrcUnsubscribe) && !WaitsForClose(cfg.kind) && Listed(m.clients, k)))
  {
    CountOne(CloseReported(k), o);
    SelectDistinct(m.clients, One(k), true);
    SelectListed(m.clients, k);
    CountTold(Select(m.clients, One(k), true), RsrcUnsubscribe, o);
  }

  /** Whoever is active beside the one that leaves stays active, and nobody else. */
  lemma LeaveActive(cfg: Config, m: Machine, k: Key)
    requires Distinct(m.clients)
    ensures HasActive(Leave(cfg, m, k).m.clients) <==> ActiveBeside(m.clients, k)
  {
    SelectIn(m.clients, One(k), false);
    SetInactiveAt(m.clients, k);
    SetInactiveMarks(m.clients, k);
    var cs := SetInactive(m.clients, k);
    if HasActive(cs) {
      var i :| 0 <= i < |cs| && !cs[i].inactive;
      assert cs[i] in cs && m.clients[i] in m.clients;
    }
    if ActiveBeside(m.clients, k) {
      var i :| 0 <= i < |m.clients| && !m.clients[i].inactive && m.clients[i].key != k;
      assert cs[i] in cs;
      assert m.clients[i] in Select(m.clients, One(k), false);
    }
  }

  lemma UnsubscribeOutputs(cfg: Config, m: Machine, k: Key, o: Output)
    requires Inv(cfg, m)
    ensures var e := UnsubscribeRsrc(k);
            var r := Step(cfg, m, e);
            Count(r.outs, o) == Indicator(Due(cfg, m, e, r.m.clients, o))
  {
    CountOne(Told(k, RsrcUnsubscribe), o);
    if Listed(m.clients, k) && m.control != Released {
      var left := Leave(cfg, m, k);
      LeaveKeeps(cfg, m, k);
      LeaveOutputs(cfg, m, k, o);
      LeaveActive(cfg, m, k);
      if Holds(m) && !HasActive(left.m.clients) {
        CountRelease(cfg, left.m.clients, left.m.retries, CallStarted, o);
        CountConcat(left.outs, Send(cfg, left.m.clients, Release, left.m.retries, CallStarted).outs, o);
      }
    }
  }

  lemma GrantedOutputs(cfg: Config, m: Machine, o: Output)
    requires Inv(cfg, m)
    ensures Count(Step(cfg, m, OnGranted).outs, o) == Indicator(Due(cfg, m, OnGranted, m.clients, o))
  {
    var active := Select(m.clients, ActiveOnly, true);
    SelectDistinct(m.clients, ActiveOnly, true);
    SelectIn(m.clients, ActiveOnly, true);
    CountTold(active, RsrcGranted, o);
    if o.Told? && Listed(active, o.key) {
      assert Client(o.key, false) in active;
    }
  }

  /** Telling the inactive clients that they are closed. */
  lemma DropInactiveOutputs(cfg: Config, m: Machine, s: Status, o: Output)
    requires Distinct(m.clients)
    ensures var left := DropInactive(cfg, m, s);
            && Count(left.outs, o) == Indicator(o.Told? && o.status == s && Client(o.key, true) in m.clients)
            && left.m.retries == (if cfg.kind == Ds && s == RsrcDenied && HasInactive(m.clients) then 0 else m.retries)
            && (HasActive(left.m.clients) <==> HasActive(m.clients))
  {
    var gone := Select(m.clients, InactiveOnly, true);
    SelectDistinct(m.clients, InactiveOnly, true);
    SelectIn(m.clients, InactiveOnly, true);
    ActiveRemain(m.clients);
    CountTold(gone, s, o);
    assert gone != [] ==> gone[0] in gone;
    if o.Told? && Listed(gone, o.key) {
      assert Client(o.key, true) in gone;
    }
  }

  lemma CloseInactiveOutputs(cfg: Config, m: Machine, s: Status, reply: DataCall, o: Output)
    requires Distinct(m.clients)
    ensures var r := CloseInactive(cfg, m, s, reply);
            var tries := if cfg.kind == Ds && s == RsrcDenied && HasInactive(m.clients) then 0 else m.retries;
            Count(r.outs, o)
            == Indicator(if o.Told? then o.status == s && Client(o.key, true) in m.clients
                         else HasActive(m.clients) && DueOnRequest(cfg, r.m.clients, tries, reply, o))
  {
    var left := DropInactive(cfg, m, s);
    DropInactiveOutputs(cfg, m, s, o);
    if HasActive(left.m.clients) {
      CountRequest(cfg, left.m.clients, left.m.retries, reply, o);
      CountConcat(left.outs, Send(cfg, left.m.clients, Request, left.m.retries, reply).outs, o);
    }
  }

  lemma CloseAllOutputs(cfg: Config, m: Machine, s: Status, o: Output)
    requires Distinct(m.clients)
    ensures Count(CloseAll(cfg, m, s).outs, o) == Indicator(o.Told? && o.status == s && Listed(m.clients, o.key))
  {
    CountTold(m.clients, s, o);
  }

  lemma ReleasingOutputs(cfg: Config, m: Machine, e: Event, o: Output)
    requires Inv(cfg, m) && m.control == Releasing && (e.OnReleased? || e.OnDenied?)
    ensures var r := Step(cfg, m, e);
            Count(r.outs, o) == Indicator(Due(cfg, m, e, r.m.clients, o))
  {
    var s := if e.OnReleased? then RsrcReleased else RsrcDenied;
    CloseInactiveKeepsInv(cfg, m, s, e.reply);
    CloseInactiveOutputs(cfg, m, s, e.reply, o);
    assert Step(cfg, m, e) == CloseInactive(cfg, m, s, e.reply);
  }

  lemma EndedOutputs(cfg: Config, m: Machine, e: Event, o: Output)
    requires Inv(cfg, m) && m.control != Releasing && (e.OnReleased? || e.OnDenied?)
    ensures var r := Step(cfg, m, e);
            Count(r.outs, o) == Indicator(Due(cfg, m, e, r.m.clients, o))
  {
    if e.OnReleased? && m.control == Acquired {
      CloseAllOutputs(cfg, m, RsrcReleased, o);
    } else if m.control == Pending {
      var all := CloseAll(cfg, m, RsrcDenied);
      CloseAllOutputs(cfg, m, RsrcDenied, o);
      assert [] + all.outs == all.outs;
    }
  }

  lemma ManagerOutputs(cfg: Config, m: Machine, e: Event, o: Output)
    requires Inv(cfg, m) && (e.OnReleased? || e.OnDenied?)
    ensures var r := Step(cfg, m, e);
            Count(r.outs, o) == Indicator(Due(cfg, m, e, r.m.clients, o))
  {
    if m.control == Releasing {
      ReleasingOutputs(cfg, m, e, o);
    } else {
      EndedOutputs(cfg, m, e, o);
    }
  }

  lemma RetryOutputs(cfg: Config, m: Machine, o: Output)
    ensures Count(Step(cfg, m, RetryTimeout).outs, o) == Indicator(Due(cfg, m, RetryTimeout, m.clients, o))
  {
    var first := First(m.clients, ActiveOnly);
    FirstIn(m.clients, ActiveOnly);
    if first.Some? {
      FirstIsFirstActive(m.clients, first.value.key);
      CountOne(RetryRequest(first.value.key), o);
    }
    if o.RetryRequest? {
      FirstIsFirstActive(m.clients, o.key);
    }
  }

  /** Whatever state a machine is in and whatever happens to it: every call is made exactly once when it is due
      and otherwise not at all. */
  lemma StepOutputs(cfg: Config, m: Machine, e: Event, o: Output)
    requires Inv(cfg, m)
    ensures Count(Step(cfg, m, e).outs, o) == Indicator(Due(cfg, m, e, Step(cfg, m, e).m.clients, o))
  {
    match e
    case SubscribeRsrc(k, reply) => SubscribeOutputs(cfg, m, k, reply, o);
    case UnsubscribeRsrc(k) => UnsubscribeOutputs(cfg, m, k, o);
    case OnGranted => GrantedOutputs(cfg, m, o);
    case OnReleased(_) => ManagerOutputs(cfg, m, e, o);
    case OnDenied(_) => ManagerOutputs(cfg, m, e, o);
    case DropAll =>
    case RetryTimeout => RetryOutputs(cfg, m, o);
  }

  // ---------- the state after a step ----------

  /** The control state after every event in every state. */
  lemma StepControl(cfg: Config, m: Machine, e: Event)
    requires Inv(cfg, m)
    ensures var after := Step(cfg, m, e).m.control;
            match e
            case SubscribeRsrc(k, reply) =>
              after == if Asks(cfg, m, e) && (cfg.kind == Ds ==> reply == CallStarted) then Pending else m.control
            case UnsubscribeRsrc(k) =>
              after == if !Listed(m.clients, k) || m.control == Released || (Holds(m) && ActiveBeside(m.clients, k))
                       then m.control
                       else if WaitsForClose(cfg.kind) || (exists c :: c in m.clients && c.key != k) then Releasing
                       else Released
            case OnGranted => after == if m.control == Pending then Acquired else m.control
            case OnReleased(_) =>
              after == (match m.control
                case Released => Released
                case Pending => if cfg.kind == Ds then Released else Pending
                case Acquired => Released
                case Releasing => if HasActive(m.clients) then Pending else Released)
            case OnDenied(_) =>
              after == (match m.control
                case Released => Released
                case Pending => Released
                case Acquired => Acquired
                case Releasing => if HasActive(m.clients) then Pending else Released)
            case DropAll => after == m.control
            case RetryTimeout => after == m.control
  {
    match e
    case SubscribeRsrc(k, reply) =>
      var cs := AddClient(m.clients, k);
      if Asks(cfg, m, e) {
        assert HasActive(cs) by {
          var c :| c in cs && c.key == k;
        }
        CountRequest(cfg, cs, m.retries, reply, Request);
      }
    case UnsubscribeRsrc(k) =>
      LeaveKeeps(cfg, m, k);
      LeaveActive(cfg, m, k);
      SelectIn(m.clients, One(k), false);
      SetInactiveAt(m.clients, k);
      var rest := Select(m.clients, One(k), false);
      assert rest != [] ==> rest[0] in rest;
    case OnReleased(reply) => CloseInactiveKeepsInv(cfg, m, RsrcReleased, reply);
    case OnDenied(reply) => CloseInactiveKeepsInv(cfg, m, RsrcDenied, reply);
    case _ =>
  }

  /** c stands before d in the list. */
  ghost predicate Before(cs: seq<Client>, c: Client, d: Client) {
    exists p, q :: 0 <= p < q < |cs| && cs[p] == c && cs[q] == d
  }

  ghost predicate KeepsOrder(cs: seq<Client>, after: seq<Client>) {
    forall i, j :: 0 <= i < j < |after| ==> Before(cs, after[i], after[j])
  }

  lemma {:induction false} SelectKeepsOrder(cs: seq<Client>, t: Target, wanted: bool)
    ensures KeepsOrder(cs, Select(cs, t, wanted))
  {
    if cs != [] {
      var rest := cs[1..];
      var after := Select(rest, t, wanted);
      SelectKeepsOrder(rest, t, wanted);
      SelectIn(rest, t, wanted);
      forall i, j | 0 <= i < j < |after|
        ensures Before(cs, after[i], after[j])
      {
        var p, q :| 0 <= p < q < |rest| && rest[p] == after[i] && rest[q] == after[j];
        assert cs[p + 1] == after[i] && cs[q + 1] == after[j];
      }
      forall j | 0 <= j < |after|
        ensures Before(cs, cs[0], after[j])
      {
        assert after[j] in rest;
        var q :| 0 <= q < |rest| && rest[q] == after[j];
        assert cs[q + 1] == after[j];
      }
    }
  }

  lemma KeepsOwnOrder(cs: seq<Client>)
    ensures KeepsOrder(cs, cs)
  {
  }

  lemma {:induction false} SetInactiveMarksOne(cs: seq<Client>, k: Key)
    requires Distinct(cs)
    ensures var r := SetInactive(cs, k);
            |r| == |cs| && forall i :: 0 <= i < |cs| ==> r[i] == Client(cs[i].key, cs[i].inactive || cs[i].key == k)
  {
    if cs != [] && cs[0].key != k {
      SetInactiveMarksOne(cs[1..], k);
    }
  }

  /** Whoever leaves, the list is what leaving makes of it. */
  lemma LeftList(cfg: Config, m: Machine, k: Key)
    ensures Step(cfg, m, UnsubscribeRsrc(k)).m.clients
         == if m.control == Released || !Listed(m.clients, k) then m.clients
            else if WaitsForClose(cfg.kind) then SetInactive(m.clients, k)
            else Select(m.clients, One(k), false)
  {
  }

  /** With nobody to leave, marking and taking out change nothing. */
  lemma NobodyLeaves(cs: seq<Client>, k: Key)
    requires !Listed(cs, k)
    ensures forall i :: 0 <= i < |cs| ==> cs[i] == Client(cs[i].key, cs[i].inactive || cs[i].key == k)
    ensures forall c :: c in cs <==> c in cs && c.key != k
  {
    assert forall i :: 0 <= i < |cs| ==> cs[i] in cs;
  }

  lemma UnsubscribeClients(cfg: Config, m: Machine, k: Key)
    requires Inv(cfg, m)
    ensures var cs, after := m.clients, Step(cfg, m, UnsubscribeRsrc(k)).m.clients;
            if m.control == Released then after == cs
            else if WaitsForClose(cfg.kind) then
              |after| == |cs|
              && forall i :: 0 <= i < |cs| ==> after[i] == Client(cs[i].key, cs[i].inactive || cs[i].key == k)
            else KeepsOrder(cs, after) && forall c :: c in after <==> c in cs && c.key != k
  {
    var cs := m.clients;
    LeftList(cfg, m, k);
    if !Listed(cs, k) {
      KeepsOwnOrder(cs);
      NobodyLeaves(cs, k);
    } else if WaitsForClose(cfg.kind) {
      SetInactiveMarksOne(cs, k);
    } else {
      SelectKeepsOrder(cs, One(k), false);
      SelectIn(cs, One(k), false);
    }
  }

  lemma StaysActive(cfg: Config, m: Machine, s: Status, reply: DataCall)
    ensures var cs, after := m.clients, CloseInactive(cfg, m, s, reply).m.clients;
            KeepsOrder(cs, after) && forall c :: c in after <==> c in cs && !c.inactive
  {
    SelectKeepsOrder(m.clients, InactiveOnly, false);
    SelectIn(m.clients, InactiveOnly, false);
  }

  /** Who is listed after every event in every state. A client that comes is put first and keeps the others as they
      are; one that goes is marked, or taken out; a connection that ends takes everybody out, and one that is closed
      takes out those who waited for the close. */
  lemma StepClients(cfg: Config, m: Machine, e: Event)
    requires Inv(cfg, m)
    ensures var cs, after := m.clients, Step(cfg, m, e).m.clients;
            match e
            case SubscribeRsrc(k, _) =>
              after == if TurnedAway(cfg, m) || Listed(cs, k) then cs else [Client(k, false)] + cs
            case UnsubscribeRsrc(k) =>
              if m.control == Released then after == cs
              else if WaitsForClose(cfg.kind) then
                |after| == |cs|
                && forall i :: 0 <= i < |cs| ==> after[i] == Client(cs[i].key, cs[i].inactive || cs[i].key == k)
              else KeepsOrder(cs, after) && forall c :: c in after <==> c in cs && c.key != k
            case DropAll => after == []
            case OnGranted => after == cs
            case RetryTimeout => after == cs
            case _ =>
              if m.control == Releasing then KeepsOrder(cs, after) && forall c :: c in after <==> c in cs && !c.inactive
              else after == if (m.control == Acquired && e.OnReleased?)
                               || (m.control == Pending && (e.OnDenied? || cfg.kind == Ds)) then [] else cs
  {
    match e
    case UnsubscribeRsrc(k) => UnsubscribeClients(cfg, m, k);
    case OnReleased(reply) =>
      CloseInactiveKeepsInv(cfg, m, RsrcReleased, reply);
      StaysActive(cfg, m, RsrcReleased, reply);
    case OnDenied(reply) => StaysActive(cfg, m, RsrcDenied, reply);
    case _ =>
  }

  lemma RequestRetries(cfg: Config, m: Machine, s: Status, reply: DataCall)
    requires Inv(cfg, m)
    ensures var tries := if cfg.kind == Ds && s == RsrcDenied && HasInactive(m.clients) then 0 else m.retries;
            CloseInactive(cfg, m, s, reply).m.retries
            == if cfg.kind != Ds || !HasActive(m.clients) then tries
               else if GivesUp(tries, reply) then 0
               else if reply.EngineBusy? then tries + 1
               else tries
    ensures CloseInactive(cfg, m, s, reply).m.control != Releasing
  {
    var left := DropInactive(cfg, m, s);
    DropInactiveOutputs(cfg, m, s, Request);
    if HasActive(left.m.clients) {
      CountRequest(cfg, left.m.clients, left.m.retries, reply, Request);
    }
  }

  /** The retry counter after every event in every state: it belongs to the DS machine, counts how often the engine
      was found busy, and starts over when a client is told DENIED and when the data call is given up. */
  lemma StepRetries(cfg: Config, m: Machine, e: Event)
    requires Inv(cfg, m)
    ensures var tries := TriesBefore(cfg, m, e);
            Step(cfg, m, e).m.retries
            == if cfg.kind != Ds || !Asks(cfg, m, e) then tries
               else if GivesUp(tries, e.reply) then 0
               else if e.reply.EngineBusy? then tries + 1
               else tries
  {
    match e
    case SubscribeRsrc(k, reply) =>
      var cs := AddClient(m.clients, k);
      if Asks(cfg, m, e) {
        assert HasActive(cs) by {
          var c :| c in cs && c.key == k;
        }
        CountRequest(cfg, cs, m.retries, reply, Request);
      }
    case OnReleased(reply) => RequestRetries(cfg, m, RsrcReleased, reply);
    case OnDenied(reply) => RequestRetries(cfg, m, RsrcDenied, reply);
    case _ =>
  }

  // ---------- the order of calls ----------

  /** A caller is answered first, then listed clients are told, or join, or are reported closed; then the connection
      is asked for or released; then the outcome of asking is dealt with. */
  function Rank(o: Output): nat {
    match o
    case Answered(_, _) => 0
    case Request => 2
    case Release => 2
    case Fallback(_) => 3
    case RetryTimer => 3
    case _ => 1
  }

  ghost predicate KeyBefore(cs: seq<Client>, k: Key, j: Key) {
    exists p, q :: 0 <= p < q < |cs| && cs[p].key == k && cs[q].key == j
  }

  /** Clients are told in list order. */
  ghost predicate InOrder(cs: seq<Client>, outs: seq<Output>) {
    forall i, j :: 0 <= i < j < |outs| ==>
      && Rank(outs[i]) <= Rank(outs[j])
      && (outs[i].Told? && outs[j].Told? ==> KeyBefore(cs, outs[i].key, outs[j].key))
  }

  lemma {:induction false} ToldAllAt(cs: seq<Client>, s: Status)
    ensures |ToldAll(cs, s)| == |cs| && forall i :: 0 <= i < |cs| ==> ToldAll(cs, s)[i] == Told(cs[i].key, s)
  {
    if cs != [] {
      ToldAllAt(cs[1..], s);
    }
  }

  lemma ToldInOrder(cs: seq<Client>, told: seq<Client>, s: Status)
    requires KeepsOrder(cs, told)
    ensures InOrder(cs, ToldAll(told, s)) && forall o :: o in ToldAll(told, s) ==> Rank(o) == 1
  {
    ToldAllAt(told, s);
    forall i, j | 0 <= i < j < |told|
      ensures KeyBefore(cs, told[i].key, told[j].key)
    {
      assert Before(cs, told[i], told[j]);
    }
  }

  /** After whatever was said comes asking or releasing, if anything. */
  lemma ThenSend(cfg: Config, cs: seq<Client>, said: seq<Output>, action: Output, tries: nat, reply: DataCall,
                 list: seq<Client>)
    requires InOrder(list, said) && (forall o :: o in said ==> Rank(o) <= 1) && action in {Request, Release}
    ensures InOrder(list, said + Send(cfg, cs, action, tries, reply).outs)
  {
    var sent := Send(cfg, cs, action, tries, reply).outs;
    assert forall i :: 0 <= i < |sent| ==> Rank(sent[i]) == (if i == 0 then 2 else 3) && !sent[i].Told?;
    assert |sent| <= 2;
    forall i, j | 0 <= i < j < |said + sent|
      ensures Rank((said + sent)[i]) <= Rank((said + sent)[j])
    {
      if i < |said| {
        assert said[i] in said;
      }
    }
  }

  lemma UnsubscribeOrder(cfg: Config, m: Machine, k: Key)
    ensures InOrder(m.clients, Step(cfg, m, UnsubscribeRsrc(k)).outs)
  {
    var left := Leave(cfg, m, k);
    SelectKeepsOrder(m.clients, One(k), true);
    ToldInOrder(m.clients, Select(m.clients, One(k), true), RsrcUnsubscribe);
    ThenSend(cfg, left.m.clients, left.outs, Release, left.m.retries, CallStarted, m.clients);
  }

  lemma CloseInactiveOrder(cfg: Config, m: Machine, s: Status, reply: DataCall)
    ensures InOrder(m.clients, CloseInactive(cfg, m, s, reply).outs)
  {
    var left := DropInactive(cfg, m, s);
    SelectKeepsOrder(m.clients, InactiveOnly, true);
    ToldInOrder(m.clients, Select(m.clients, InactiveOnly, true), s);
    ThenSend(cfg, left.m.clients, left.outs, Request, left.m.retries, reply, m.clients);
  }

  lemma SubscribeOrder(cfg: Config, m: Machine, k: Key, reply: DataCall)
    ensures InOrder(m.clients, Step(cfg, m, SubscribeRsrc(k, reply)).outs)
  {
    var cs := AddClient(m.clients, k);
    ThenSend(cfg, cs, JoinedOutput(m.clients, k), Request, m.retries, reply, m.clients);
  }

  lemma GrantedOrder(cfg: Config, m: Machine)
    ensures InOrder(m.clients, Step(cfg, m, OnGranted).outs)
  {
    SelectKeepsOrder(m.clients, ActiveOnly, true);
    ToldInOrder(m.clients, Select(m.clients, ActiveOnly, true), RsrcGranted);
  }

  lemma CloseAllOrder(cfg: Config, m: Machine, s: Status)
    ensures InOrder(m.clients, CloseAll(cfg, m, s).outs)
  {
    KeepsOwnOrder(m.clients);
    ToldInOrder(m.clients, m.clients, s);
  }

  lemma ManagerOrder(cfg: Config, m: Machine, e: Event)
    requires Inv(cfg, m) && (e.OnReleased? || e.OnDenied?)
    ensures InOrder(m.clients, Step(cfg, m, e).outs)
  {
    var s := if e.OnReleased? then RsrcReleased else RsrcDenied;
    if m.control == Releasing {
      CloseInactiveKeepsInv(cfg, m, s, e.reply);
      CloseInactiveOrder(cfg, m, s, e.reply);
      assert Step(cfg, m, e) == CloseInactive(cfg, m, s, e.reply);
    } else if m.control == Pending {
      var all := CloseAll(cfg, m, RsrcDenied);
      CloseAllOrder(cfg, m, RsrcDenied);
      assert [] + all.outs == all.outs;
    } else {
      CloseAllOrder(cfg, m, s);
    }
  }

  /** In every step of every machine the calls are made in that order. */
  lemma StepOrder(cfg: Config, m: Machine, e: Event)
    requires Inv(cfg, m)
    ensures InOrder(m.clients, Step(cfg, m, e).outs)
  {
    match e
    case SubscribeRsrc(k, reply) => SubscribeOrder(cfg, m, k, reply);
    case UnsubscribeRsrc(k) => UnsubscribeOrder(cfg, m, k);
    case OnGranted => GrantedOrder(cfg, m);
    case OnReleased(_) => ManagerOrder(cfg, m, e);
    case OnDenied(_) => ManagerOrder(cfg, m, e);
    case _ =>
  }
}
