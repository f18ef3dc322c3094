/** The AGPS state machine as the source has it: subscriber objects in a linked list, searched and
    deleted from in passes, and a control state reassigned by every event. Each method is proved
    to do what the function of the same event in AgpsModel says. */
module AgpsStateMachines {
  import opened Options
  import opened LinkedLists
  import opened AgpsModel
  import opened AgpsInvariants
  import AgpsGrants
  import AgpsLedger
  import AgpsTransitions
  import opened Subscribers

  // ---------- passes over the list ----------

  ghost predicate NoneBefore(cs: seq<Client>, t: Target, k: nat) {
    forall i :: 0 <= i < k && i < |cs| ==> !ForMe(cs[i], t)
  }

  lemma SelectUnfold(c: Client, cs: seq<Client>, t: Target)
    ensures Select([c] + cs, t, true) == (if ForMe(c, t) then [c] else []) + Select(cs, t, true)
    ensures Select([c] + cs, t, false) == (if ForMe(c, t) then [] else [c]) + Select(cs, t, false)
  {
    assert ([c] + cs)[1..] == cs;
  }

  /** A search stops at the first client that the target selects. */
  lemma {:induction false} SelectFirst(cs: seq<Client>, t: Target, k: nat)
    requires k < |cs| && NoneBefore(cs, t, k) && ForMe(cs[k], t)
    ensures First(cs, t) == Some(cs[k])
    ensures Select(cs, t, true) == [cs[k]] + Select(Without(cs, k), t, true)
    ensures Select(cs, t, false) == Select(Without(cs, k), t, false)
  {
    if k == 0 {
      assert Without(cs, 0) == cs[1..];
    } else {
      SelectFirst(cs[1..], t, k - 1);
      SelectUnfold(cs[0], Without(cs[1..], k - 1), t);
      assert Without(cs, k) == [cs[0]] + Without(cs[1..], k - 1);
    }
  }

  lemma {:induction false} SelectNobody(cs: seq<Client>, t: Target)
    requires NoneBefore(cs, t, |cs|)
    ensures First(cs, t) == None && Select(cs, t, true) == [] && Select(cs, t, false) == cs
  {
    if cs != [] {
      SelectNobody(cs[1..], t);
    }
  }

  /** What the notification callback does with one client. */
  function Notify(c: Client, t: Target, s: Status, delete: bool): Visit<Output> {
    Visit(ForMe(c, t) && s != RsrcSubscribe && delete,
          if ForMe(c, t) && s != RsrcSubscribe then [Told(c.key, s)] else [])
  }

  lemma {:induction false} SelectExtend(cs: seq<Client>, c: Client, t: Target, wanted: bool)
    ensures Select(cs + [c], t, wanted) == Select(cs, t, wanted) + if ForMe(c, t) == wanted then [c] else []
  {
    if cs != [] {
      SelectExtend(cs[1..], c, t, wanted);
      assert (cs + [c])[1..] == cs[1..] + [c];
    }
  }

  lemma {:induction false} ToldAllLength(cs: seq<Client>, s: Status)
    ensures |ToldAll(cs, s)| == |cs|
  {
    if cs != [] {
      ToldAllLength(cs[1..], s);
    }
  }

  lemma {:induction false} ToldAllConcat(a: seq<Client>, b: seq<Client>, s: Status)
    ensures ToldAll(a + b, s) == ToldAll(a, s) + ToldAll(b, s)
  {
    if a == [] {
      assert a + b == b;
    } else {
      ToldAllConcat(a[1..], b, s);
      assert (a + b)[1..] == a[1..] + b;
    }
  }

  /** Notifying everybody without deleting says what the selected clients are told. */
  lemma {:induction false} NotifyAll(cs: seq<Client>, t: Target, s: Status, visits: seq<Visit<Output>>)
    requires |visits| == |cs| && s != RsrcSubscribe
    requires forall i :: 0 <= i < |cs| ==> visits[i] == Notify(cs[i], t, s, false)
    ensures SaidBy(visits) == ToldAll(Select(cs, t, true), s)
  {
    if cs != [] {
      var k := |cs| - 1;
      NotifyAll(cs[..k], t, s, visits[..k]);
      assert cs == cs[..k] + [cs[k]];
      SelectExtend(cs[..k], cs[k], t, true);
      ToldAllConcat(Select(cs[..k], t, true), if ForMe(cs[k], t) then [cs[k]] else [], s);
    }
  }

  /** A deleting pass tells the one client at which it stops. */
  lemma {:induction false} NotifyOne(cs: seq<Client>, t: Target, s: Status, visits: seq<Visit<Output>>)
    requires |visits| <= |cs| && s != RsrcSubscribe
    requires forall i :: 0 <= i < |visits| ==> visits[i] == Notify(cs[i], t, s, true)
    requires forall i :: 0 <= i < |visits| - 1 ==> !visits[i].matched
    ensures var k := |visits| - 1;
            SaidBy(visits) == if visits != [] && ForMe(cs[k], t) then [Told(cs[k].key, s)] else []
  {
    if visits != [] {
      NotifyOne(cs, t, s, visits[..|visits| - 1]);
    }
  }

  /** The listed objects are the machine's own, pairwise different, and of its kind. */
  ghost predicate Belong(ss: seq<Subscriber>, own: set<object>, nodes: set<object>, kind: Kind) {
    && (forall i :: 0 <= i < |ss| ==> ss[i] in own && ss[i] !in nodes && ss[i].who.kind == kind)
    && (forall i, j :: 0 <= i < j < |ss| ==> ss[i] != ss[j])
  }

  lemma BelongMore(ss: seq<Subscriber>, own: set<object>, nodes: set<object>, kind: Kind,
                   s: Subscriber, own': set<object>, nodes': set<object>)
    requires Belong(ss, own, nodes, kind) && own + {s} <= own' && s !in own && s !in nodes' && s.who.kind == kind
    requires own * nodes' <= nodes
    ensures Belong([s] + ss, own', nodes', kind)
  {
  }

  lemma Assoc(a: seq<Output>, b: seq<Output>, c: seq<Output>)
    ensures (a + b) + c == a + (b + c)
  {
  }

  lemma {:induction false} SelectEverybody(cs: seq<Client>)
    ensures Select(cs, All, true) == cs && Select(cs, All, false) == []
  {
    if cs != [] {
      SelectEverybody(cs[1..]);
    }
  }

  lemma FoundIsListed(cs: seq<Client>, key: Key, k: nat)
    requires k <= |cs| && NoneBefore(cs, One(key), k) && (k < |cs| ==> cs[k].key == key)
    ensures Listed(cs, key) <==> k < |cs|
  {
    if k < |cs| {
      assert cs[k] in cs;
    }
  }

  lemma {:induction false} SetInactiveFirst(cs: seq<Client>, key: Key, k: nat)
    requires k < |cs| && NoneBefore(cs, One(key), k) && cs[k].key == key
    ensures SetInactive(cs, key) == cs[k := Client(key, true)]
  {
    if k > 0 {
      SetInactiveFirst(cs[1..], key, k - 1);
    }
  }

  /** The clients selected from `rest` are still to be told; whoever was selected from `cs` besides
      has been told, and whoever was not is still there. */
  ghost predicate AllTold(cs: seq<Client>, t: Target, s: Status, rest: seq<Client>,
                          before: seq<Output>, outs: seq<Output>) {
    && |outs| >= |before|
    && outs + ToldAll(Select(rest, t, true), s) == before + ToldAll(Select(cs, t, true), s)
    && Select(rest, t, false) == Select(cs, t, false)
  }

  lemma AllToldStep(cs: seq<Client>, t: Target, s: Status, rest: seq<Client>,
                    before: seq<Output>, outs: seq<Output>, k: nat)
    requires k < |rest| && NoneBefore(rest, t, k) && ForMe(rest[k], t)
    requires AllTold(cs, t, s, rest, before, outs)
    ensures AllTold(cs, t, s, Without(rest, k), before, outs + [Told(rest[k].key, s)])
  {
    SelectFirst(rest, t, k);
    var after := Select(Without(rest, k), t, true);
    ToldAllConcat([rest[k]], after, s);
    assert [rest[k]][1..] == [];
    assert outs + [Told(rest[k].key, s)] + ToldAll(after, s) == outs + ([Told(rest[k].key, s)] + ToldAll(after, s));
  }

  lemma SubscribersWithout(ss: seq<Subscriber>, k: nat)
    requires k < |ss|
    ensures ClientsOf(Without(ss, k)) == Without(ClientsOf(ss), k)
  {
  }

  /** The events lead from the initial state to m, with these outputs, and m is as every reachable state. */
  ghost predicate ComesTo(cfg: Config, es: seq<Event>, m: Machine, outs: seq<Output>) {
    Run(cfg, es) == Outcome(m, outs) && Inv(cfg, m)
  }

  lemma ComesToNext(cfg: Config, es: seq<Event>, m: Machine, outs: seq<Output>, e: Event)
    requires ComesTo(cfg, es, m, outs)
    ensures var o := Step(cfg, m, e); ComesTo(cfg, es + [e], o.m, outs + o.outs)
  {
    RunExtend(cfg, es, e);
    StepKeepsInv(cfg, m, e);
  }

  class AgpsStateMachine {
    const cfg: Config
    const subscribers: LinkedList<Subscriber>
    var control: Control
    var retries: nat
    ghost var outs: seq<Output>   // every call that left the machine, in order
    ghost var events: seq<Event>  // every event the machine has handled, in order
    ghost var Repr: set<object>

    ghost predicate Members(ss: seq<Subscriber>)
      reads this, subscribers
    {
      Belong(ss, Repr, subscribers.Repr, cfg.kind)
    }

    ghost predicate Sound()
      reads this, Repr
      ensures Sound() ==> this in Repr
    {
      && this in Repr && subscribers in Repr && subscribers.Repr <= Repr && this !in subscribers.Repr
      && subscribers.Valid()
      && cfg.Valid()
      && Members(subscribers.Contents())
    }

    ghost function Clients(): seq<Client>
      reads subscribers, subscribers.Contents()
    {
      ClientsOf(subscribers.Contents())
    }

    ghost function Model(): Machine
      reads this, subscribers, subscribers.Contents()
    {
      Machine(control, Clients(), retries)
    }

    /** Between events the machine is also where its events lead. */
    ghost predicate Valid()
      reads this, Repr
      ensures Valid() ==> this in Repr
    {
      Sound() && ComesTo(cfg, events, Model(), outs)
    }

    constructor (kind: Kind, single: bool)
      requires kind == Ds ==> !single
      ensures Valid() && fresh(Repr) && cfg == Config(kind, single)
      ensures Model() == INITIAL && outs == [] && events == []
    {
      cfg := Config(kind, single);
      subscribers := new LinkedList<Subscriber>();
      control, retries, outs, events := Released, 0, [], [];
      new;
      Repr := {this} + subscribers.Repr;
    }

    /** linked_list_search with hasSubscriber: the first subscriber the notification is for. */
    method Find(n: Notification) returns (s: Option<Subscriber>, ghost k: nat)
      requires Sound() && (n.rcver.Some? ==> n.rcver.value.kind == cfg.kind)
      modifies subscribers.Repr
      ensures unchanged(old(subscribers.Repr))
      ensures k <= |Clients()| && NoneBefore(Clients(), TargetOf(n), k)
      ensures s.None? ==> k == |Clients()|
      ensures s.Some? ==> k < |Clients()| && s.value == subscribers.Contents()[k] && ForMe(Clients()[k], TargetOf(n))
    {
      var callback: Subscriber ~> Visit<Output> :=
        (x: Subscriber) reads x => Visit(NotificationForMe(n, x.who, x.isInactive), []);
      ghost var cs := Clients();
      forall i | 0 <= i < |cs|
        ensures callback(subscribers.Contents()[i]).matched == ForMe(cs[i], TargetOf(n))
      {
        ForMeIsTarget(n, subscribers.Contents()[i].who, subscribers.Contents()[i].isInactive);
      }
      var err, said;
      ghost var visits;
      err, s, said, visits := subscribers.Search(callback, true, false);
      k := if s.Some? then |visits| - 1 else |visits|;
    }

    /** One linked_list_search with notifySubscriber; with deletion it stops at, and unlinks, the
        first subscriber that accepts the notification. */
    method NotifySearch(n: Notification)
      returns (s: Option<Subscriber>, said: seq<Output>, ghost visits: seq<Visit<Output>>)
      requires Sound() && (n.rcver.Some? ==> n.rcver.value.kind == cfg.kind)
      modifies subscribers.Repr
      ensures |visits| <= |old(Clients())| && said == SaidBy(visits)
      ensures forall i :: 0 <= i < |visits| ==>
                visits[i] == Notify(old(Clients())[i], TargetOf(n), n.status, n.postNotifyDelete)
      ensures forall i :: 0 <= i < |visits| - 1 ==> !visits[i].matched
      ensures s.Some? <==> visits != [] && visits[|visits| - 1].matched
      ensures s.None? ==> |visits| == |old(Clients())| && unchanged(old(subscribers.Repr))
      ensures s.Some? ==>
                && subscribers.Valid() && subscribers.Repr == old(subscribers.Repr)
                && subscribers.Contents() == Without(old(subscribers.Contents()), |visits| - 1)
    {
      var callback: Subscriber ~> Visit<Output> :=
        (x: Subscriber) reads x =>
          var notify := NotificationForMe(n, x.who, x.isInactive) && n.status != RsrcSubscribe;
          Visit(notify && n.postNotifyDelete, if notify then [Told(KeyOf(x.who), n.status)] else []);
      ghost var cs := Clients();
      forall i | 0 <= i < |cs|
        ensures callback(subscribers.Contents()[i]) == Notify(cs[i], TargetOf(n), n.status, n.postNotifyDelete)
      {
        ForMeIsTarget(n, subscribers.Contents()[i].who, subscribers.Contents()[i].isInactive);
      }
      var err;
      err, s, said, visits := subscribers.Search(callback, n.postNotifyDelete, n.postNotifyDelete);
    }

    /** A call leaves the machine. */
    method Note(o: Output)
      requires Sound()
      modifies `outs
      ensures Sound() && Clients() == old(Clients()) && outs == old(outs) + [o]
    {
      outs := outs + [o];
    }

    /** What the callbacks of a search said has left the machine; a DS machine that told somebody
        DENIED starts counting its retries afresh. */
    method Deliver(status: Status, said: seq<Output>)
      requires Sound()
      modifies `outs, `retries
      ensures Sound() && Clients() == old(Clients()) && outs == old(outs) + said
      ensures retries == if cfg.kind == Ds && status == RsrcDenied && said != [] then 0 else old(retries)
    {
      outs := outs + said;
      if cfg.kind == Ds && status == RsrcDenied && said != [] {
        retries := 0;
      }
    }

    lemma MembersWithout(ss: seq<Subscriber>, k: nat)
      requires k < |ss| && Members(ss)
      ensures Members(Without(ss, k))
    {
    }

    /** One deleting search: the first match at k, if there is one, is told and unlinked. */
    method DeleteSearch(n: Notification) returns (s: Option<Subscriber>, said: seq<Output>, ghost k: nat)
      requires Sound() && (n.rcver.Some? ==> n.rcver.value.kind == cfg.kind)
      requires n.status != RsrcSubscribe && n.postNotifyDelete
      modifies subscribers.Repr
      ensures Sound() && subscribers.Repr == old(subscribers.Repr)
      ensures s.Some? ==>
                && k < |old(Clients())| && NoneBefore(old(Clients()), TargetOf(n), k)
                && ForMe(old(Clients())[k], TargetOf(n)) && Clients() == Without(old(Clients()), k)
                && said == [Told(old(Clients())[k].key, n.status)]
      ensures s.None? ==>
                NoneBefore(Clients(), TargetOf(n), |Clients()|) && Clients() == old(Clients()) && said == []
    {
      ghost var visits;
      ghost var cs, was := Clients(), subscribers.Contents();
      s, said, visits := NotifySearch(n);
      NotifyOne(cs, TargetOf(n), n.status, visits);
      k := if s.Some? then |visits| - 1 else 0;
      assert ClientsOf(was) == cs;
      if s.Some? {
        SubscribersWithout(was, k);
        MembersWithout(was, k);
      }
    }

    /** One deleting pass with its effects. */
    method DeletePass(n: Notification, ghost cs: seq<Client>, ghost before: seq<Output>) returns (s: Option<Subscriber>)
      requires Sound() && (n.rcver.Some? ==> n.rcver.value.kind == cfg.kind)
      requires n.status != RsrcSubscribe && n.postNotifyDelete
      requires AllTold(cs, TargetOf(n), n.status, Clients(), before, outs)
      modifies `outs, `retries, subscribers.Repr
      ensures Sound() && subscribers.Repr == old(subscribers.Repr)
      ensures AllTold(cs, TargetOf(n), n.status, Clients(), before, outs)
      ensures s.Some? ==> |Clients()| < |old(Clients())| && |outs| > |old(outs)|
      ensures s.None? ==> NoneBefore(Clients(), TargetOf(n), |Clients()|) && outs == old(outs)
      ensures retries == if cfg.kind == Ds && n.status == RsrcDenied && s.Some? then 0 else old(retries)
    {
      ghost var rest := Clients();
      var said;
      ghost var k: nat;
      s, said, k := DeleteSearch(n);
      if s.Some? {
        AllToldStep(cs, TargetOf(n), n.status, rest, before, outs, k);
        Deliver(n.status, said);
      }
    }

    /** notifySubscribers with deletion: a search stops where it unlinks, so each match takes a pass. */
    method NotifyAndDelete(n: Notification)
      requires Sound() && (n.rcver.Some? ==> n.rcver.value.kind == cfg.kind)
      requires n.status != RsrcSubscribe && n.postNotifyDelete
      modifies `outs, `retries, subscribers.Repr
      ensures Sound() && subscribers.Repr == old(subscribers.Repr)
      ensures Clients() == Select(old(Clients()), TargetOf(n), false)
      ensures outs == old(outs) + ToldAll(Select(old(Clients()), TargetOf(n), true), n.status)
      ensures retries == if cfg.kind == Ds && n.status == RsrcDenied && Select(old(Clients()), TargetOf(n), true) != []
                         then 0 else old(retries)
    {
      ghost var cs, before := Clients(), outs;
      var s := DeletePass(n, cs, before);
      while s.Some?
        invariant Sound() && subscribers.Repr == old(subscribers.Repr)
        invariant AllTold(cs, TargetOf(n), n.status, Clients(), before, outs)
        invariant s.None? ==> NoneBefore(Clients(), TargetOf(n), |Clients()|)
        invariant s.Some? ==> |outs| > |before|
        invariant retries == if cfg.kind == Ds && n.status == RsrcDenied && |outs| > |before| then 0 else old(retries)
        decreases if s.Some? then 1 + |Clients()| else 0
      {
        s := DeletePass(n, cs, before);
      }
      SelectNobody(Clients(), TargetOf(n));
      ToldAllLength(Select(cs, TargetOf(n), true), n.status);
    }

    /** notifySubscribers without deletion: one search visits everybody. */
    method NotifyOnly(n: Notification)
      requires Sound() && (n.rcver.Some? ==> n.rcver.value.kind == cfg.kind)
      requires n.status != RsrcSubscribe && !n.postNotifyDelete
      modifies `outs, `retries, subscribers.Repr
      ensures unchanged(old(subscribers.Repr))
      ensures outs == old(outs) + ToldAll(Select(Clients(), TargetOf(n), true), n.status)
      ensures retries == if cfg.kind == Ds && n.status == RsrcDenied && Select(old(Clients()), TargetOf(n), true) != []
                         then 0 else old(retries)
    {
      ghost var cs := Clients();
      var s, said;
      ghost var visits;
      s, said, visits := NotifySearch(n);
      NotifyAll(cs, TargetOf(n), n.status, visits);
      ToldAllLength(Select(cs, TargetOf(n), true), n.status);
      Deliver(n.status, said);
    }

    /** Whether anybody is listed. */
    method HasSubscribers() returns (has: bool)
      requires Sound()
      ensures has <==> Clients() != []
    {
      var empty := subscribers.Empty();
      has := !empty;
    }

    /** The first active subscriber. */
    method FindActive() returns (s: Option<Key>)
      requires Sound()
      modifies subscribers.Repr
      ensures unchanged(old(subscribers.Repr))
      ensures var c := First(Clients(), ActiveOnly);
              s == if c.Some? then Some(c.value.key) else None
    {
      var found;
      ghost var k;
      found, k := Find(Notification(None, BroadcastActive, RsrcSubscribe, false));
      s := if found.Some? then Some(KeyOf(found.value.who)) else None;
      if found.Some? {
        SelectFirst(Clients(), ActiveOnly, k);
      } else {
        SelectNobody(Clients(), ActiveOnly);
      }
    }

    method HasActiveSubscribers() returns (has: bool)
      requires Sound()
      modifies subscribers.Repr
      ensures unchanged(old(subscribers.Repr))
      ensures has <==> HasActive(Clients())
    {
      var s := FindActive();
      FirstIn(Clients(), ActiveOnly);
      has := s.Some?;
    }

    /** The listed subscriber that equals the given one, if there is one. */
    method FindSubscriber(who: Identity) returns (s: Option<Subscriber>, ghost k: nat)
      requires Sound() && who.kind == cfg.kind
      modifies subscribers.Repr
      ensures unchanged(old(subscribers.Repr))
      ensures s.Some? <==> Listed(Clients(), KeyOf(who))
      ensures s.Some? ==> k < |subscribers.Contents()| && s.value == subscribers.Contents()[k]
                          && KeyOf(s.value.who) == KeyOf(who) && NoneBefore(Clients(), One(KeyOf(who)), k)
    {
      s, k := Find(Notification(Some(who), BroadcastAll, RsrcSubscribe, false));
      FoundIsListed(Clients(), KeyOf(who), k);
    }

    /** What the list has linked becomes the machine's own. */
    method Adopt(clone: Subscriber, ghost ss: seq<Subscriber>, ghost own: set<object>, ghost nodes: set<object>)
      requires this in Repr && subscribers in Repr && this !in subscribers.Repr && cfg.Valid() && subscribers.Valid()
      requires own == Repr && Belong(ss, own, nodes, cfg.kind) && subscribers.Contents() == [clone] + ss
      requires clone !in own && clone !in subscribers.Repr && clone.who.kind == cfg.kind
      requires own * subscribers.Repr <= nodes
      modifies `Repr
      ensures Sound() && Repr == old(Repr) + subscribers.Repr + {clone}
    {
      Repr := Repr + subscribers.Repr + {clone};
      BelongMore(ss, own, nodes, cfg.kind, clone, Repr, subscribers.Repr);
    }

    method Link(clone: Subscriber)
      requires Sound() && clone.who.kind == cfg.kind && clone !in Repr
      modifies `Repr, subscribers.Repr
      ensures Sound() && fresh(Repr - old(Repr) - {clone}) && fresh(subscribers.Repr - old(subscribers.Repr))
      ensures Clients() == [ClientOf(clone)] + old(Clients())
    {
      ghost var cs, ss := Clients(), subscribers.Contents();
      ghost var own, nodes := Repr, subscribers.Repr;
      subscribers.Add(clone, true);
      assert subscribers.Contents() == [clone] + ss;
      assert ClientsOf([clone] + ss) == [ClientOf(clone)] + cs;
      Adopt(clone, ss, own, nodes);
    }

    /** linked_list_add of a clone. */
    method LinkClone(subscriber: Subscriber)
      requires Sound() && subscriber.who.kind == cfg.kind
      modifies `Repr, subscribers.Repr
      ensures Sound() && fresh(Repr - old(Repr)) && fresh(subscribers.Repr - old(subscribers.Repr))
      ensures Clients() == [Client(KeyOf(subscriber.who), false)] + old(Clients())
    {
      var clone := subscriber.Clone();
      Link(clone);
    }

    method AddSubscriber(subscriber: Subscriber)
      requires Sound() && subscriber.who.kind == cfg.kind
      modifies `Repr, `outs, subscribers.Repr
      ensures Sound() && fresh(Repr - old(Repr)) && fresh(subscribers.Repr - old(subscribers.Repr))
      ensures Clients() == AddClient(old(Clients()), KeyOf(subscriber.who))
      ensures outs == old(outs) + JoinedOutput(old(Clients()), KeyOf(subscriber.who))
    {
      var s;
      ghost var k;
      s, k := FindSubscriber(subscriber.who);
      if s == None {
        LinkClone(subscriber);
        Note(Joined(KeyOf(subscriber.who)));
      }
    }

    /** The DS machine's reaction to what starting the data call returned. */
    method DataCallReturned(handle: Option<Key>, reply: DataCall) returns (ok: bool)
      modifies `outs, `retries
      ensures ok <==> reply == CallStarted
      ensures var failed := reply in {Unsupported, CallFailed}
                            || (reply.EngineBusy? && old(retries) >= MAX_START_DATA_CALL_RETRIES);
              && outs == old(outs) + (if failed then [Fallback(handle)]
                                      else if reply == EngineBusy(true) then [RetryTimer] else [])
              && retries == if failed then 0 else old(retries) + if reply.EngineBusy? then 1 else 0
    {
      ok := false;
      match reply {
        case CallStarted =>
          ok := true;
        case EngineBusy(timerStarted) =>
          retries := retries + 1;
          if retries > MAX_START_DATA_CALL_RETRIES {
            retries, outs := 0, outs + [Fallback(handle)];
          } else if timerStarted {
            outs := outs + [RetryTimer];
          }
        case Unsupported =>
          retries, outs := 0, outs + [Fallback(handle)];
        case CallFailed =>
          retries, outs := 0, outs + [Fallback(handle)];
        case OtherCode =>
      }
    }

    method SendRsrcRequest(action: Output, reply: DataCall) returns (ok: bool)
      requires Sound() && action in {Request, Release}
      modifies `outs, `retries, subscribers.Repr
      ensures unchanged(old(subscribers.Repr))
      ensures var sent := Send(cfg, Clients(), action, old(retries), reply);
              ok == sent.ok && outs == old(outs) + sent.outs && retries == sent.retries
    {
      var s := FindActive();
      ok := true;
      if cfg.kind != Ds {
        if s.None? == (action == Release) {
          Note(action);
        }
      } else {
        Note(action);
        if action == Request {
          ok := DataCallReturned(s, reply);
        }
      }
    }

    // ---------- the four states ----------

    /** What a handler leaves behind when it returns the next state. */
    ghost predicate Reached(next: Control, o: Outcome, before: seq<Output>)
      reads this, subscribers, subscribers.Contents()
    {
      o.m.control == next && o.m.clients == Clients() && o.m.retries == retries && outs == before + o.outs
    }

    /** The state pointer is reassigned to what the handler returned. */
    method SetState(next: Control, ghost o: Outcome, ghost before: seq<Output>)
      requires Sound() && Reached(next, o, before)
      modifies `control
      ensures Sound() && Reached(control, o, before)
    {
      control := next;
    }

    /** The flag of the listed object at k is set. */
    method SetFlag(s: Subscriber, ghost k: nat)
      requires Sound() && k < |subscribers.Contents()| && subscribers.Contents()[k] == s
      modifies s
      ensures Sound() && Clients() == old(Clients())[k := Client(KeyOf(s.who), true)]
      ensures unchanged(this) && unchanged(subscribers)
    {
      ghost var ss := subscribers.Contents();
      s.isInactive := true;
      forall i | 0 <= i < |ss| && i != k
        ensures ss[i].isInactive == old(ss[i].isInactive)
      {
      }
    }

    /** Sets the flag of the listed object, which is what the search handed out. A DS subscriber
        reports its handle closed at this point. */
    method SetSubscriberInactive(s: Subscriber, ghost k: nat)
      requires Sound() && k < |subscribers.Contents()| && subscribers.Contents()[k] == s
      requires NoneBefore(Clients(), One(KeyOf(s.who)), k)
      modifies s, `outs
      ensures Sound() && subscribers.Repr == old(subscribers.Repr)
      ensures Clients() == SetInactive(old(Clients()), KeyOf(s.who))
      ensures outs == old(outs) + if cfg.kind == Ds then [CloseReported(KeyOf(s.who))] else []
    {
      SetInactiveFirst(Clients(), KeyOf(s.who), k);
      if cfg.kind == Ds {
        Note(CloseReported(KeyOf(s.who)));
      }
      SetFlag(s, k);
    }

    /** Tells the subscriber and deletes it. */
    method DeleteSubscriber(s: Subscriber)
      requires Sound() && s.who.kind == cfg.kind
      modifies `outs, `retries, subscribers.Repr
      ensures Sound() && subscribers.Repr == old(subscribers.Repr)
      ensures Clients() == Select(old(Clients()), One(KeyOf(s.who)), false) && retries == old(retries)
      ensures outs == old(outs) + ToldAll(Select(old(Clients()), One(KeyOf(s.who)), true), RsrcUnsubscribe)
    {
      var n := Notification(Some(s.who), BroadcastAll, RsrcUnsubscribe, true);
      assert TargetOf(n) == One(KeyOf(s.who));
      NotifyAndDelete(n);
    }

    /** What Pending, Acquired and Releasing all do first with a subscriber that leaves. */
    method LeaveList(s: Subscriber, ghost k: nat)
      requires Sound() && k < |subscribers.Contents()| && subscribers.Contents()[k] == s
      requires NoneBefore(Clients(), One(KeyOf(s.who)), k)
      modifies s, `outs, `retries, subscribers.Repr
      ensures Sound() && subscribers.Repr == old(subscribers.Repr)
      ensures Reached(control, Leave(cfg, old(Model()), KeyOf(s.who)), old(outs))
    {
      if WaitsForClose(cfg.kind) {
        SetSubscriberInactive(s, k);
      } else {
        DeleteSubscriber(s);
      }
    }

    /** What Pending and Acquired do next: give the connection up when nobody active needs it. */
    method SettleState(ghost left: Outcome, ghost before: seq<Output>) returns (next: Control)
      requires Sound() && control in {Pending, Acquired}
      requires Reached(control, left, before)
      modifies `outs, `retries, subscribers.Repr
      ensures Sound() && subscribers.Repr == old(subscribers.Repr)
      ensures Reached(next, Settle(cfg, control, left), before)
    {
      next := control;
      ghost var sent := Send(cfg, Clients(), Release, retries, CallStarted);
      Assoc(before, left.outs, sent.outs);
      var has := HasSubscribers();
      var active := HasActiveSubscribers();
      if !has {
        next := Released;
        var _ := SendRsrcRequest(Release, CallStarted);
      } else if !active {
        next := Releasing;
        var _ := SendRsrcRequest(Release, CallStarted);
      }
    }

    /** What Releasing does next: it is over when nobody is left. */
    method SettleReleasing(ghost left: Outcome, ghost before: seq<Output>) returns (next: Control)
      requires Sound() && control == Releasing
      requires Reached(control, left, before)
      ensures Reached(next, Settle(cfg, control, left), before)
    {
      var has := HasSubscribers();
      next := if has then Releasing else Released;
    }

    /** RELEASED or DENIED for everybody. */
    method CloseEverybody(event: Status)
      requires Sound() && event in {RsrcReleased, RsrcDenied}
      modifies `outs, `retries, subscribers.Repr
      ensures Sound() && subscribers.Repr == old(subscribers.Repr)
      ensures var o := CloseAll(cfg, old(Model()), event);
              Model().(control := Released) == o.m && outs == old(outs) + o.outs
    {
      ghost var cs := Clients();
      NotifyAndDelete(Notification(None, BroadcastAll, event, true));
      SelectEverybody(cs);
    }

    /** What Releasing does when the release is over: ask again if somebody joined in the meantime. */
    method ReopenState(reply: DataCall, ghost left: Outcome, ghost before: seq<Output>) returns (next: Control)
      requires Sound() && Model() == left.m && outs == before + left.outs
      modifies `outs, `retries, subscribers.Repr
      ensures Sound() && subscribers.Repr == old(subscribers.Repr)
      ensures var o := Reopen(cfg, left, reply);
              Model().(control := next) == o.m && outs == before + o.outs
    {
      ghost var sent := Send(cfg, Clients(), Request, retries, reply);
      Assoc(before, left.outs, sent.outs);
      var active := HasActiveSubscribers();
      if active {
        next := Pending;
        var _ := SendRsrcRequest(Request, reply);
        assert outs == before + (left.outs + sent.outs);
      } else {
        next := Released;
      }
    }

    method CloseReleasing(event: Status, reply: DataCall) returns (next: Control)
      requires Sound() && event in {RsrcReleased, RsrcDenied}
      modifies `outs, `retries, subscribers.Repr
      ensures Sound() && subscribers.Repr == old(subscribers.Repr)
      ensures var o := CloseInactive(cfg, old(Model()), event, reply);
              Model().(control := next) == o.m && outs == old(outs) + o.outs
    {
      ghost var left, before := DropInactive(cfg, Model(), event), outs;
      NotifyAndDelete(Notification(None, BroadcastInactive, event, true));
      next := ReopenState(reply, left, before);
    }

    /** The subscriber's own object is told, not a listed one. */
    method Answer(subscriber: Subscriber, status: Status)
      requires Sound() && status != RsrcSubscribe && (cfg.kind == Ds ==> status != RsrcDenied)
      modifies `outs
      ensures Sound() && Clients() == old(Clients())
      ensures outs == old(outs) + [Answered(KeyOf(subscriber.who), status)]
    {
      Note(Answered(KeyOf(subscriber.who), status));
    }

    method ReleasedOnSubscribe(subscriber: Subscriber, reply: DataCall) returns (next: Control)
      requires Sound() && control == Released && subscriber.who.kind == cfg.kind
      modifies `Repr, `outs, `retries, subscribers.Repr
      ensures Sound() && fresh(Repr - old(Repr)) && fresh(subscribers.Repr - old(subscribers.Repr))
      ensures Reached(next, Accept(cfg, old(Model()), KeyOf(subscriber.who), reply), old(outs))
    {
      ghost var m, before, key := Model(), outs, KeyOf(subscriber.who);
      AddSubscriber(subscriber);
      Assoc(before, JoinedOutput(m.clients, key), Send(cfg, Clients(), Request, retries, reply).outs);
      var ok := SendRsrcRequest(Request, reply);
      next := if ok then Pending else Released;
    }

    method AcquiredOnSubscribe(subscriber: Subscriber, ghost reply: DataCall) returns (next: Control)
      requires Sound() && control == Acquired && subscriber.who.kind == cfg.kind
      modifies `Repr, `outs, subscribers.Repr
      ensures Sound() && fresh(Repr - old(Repr)) && fresh(subscribers.Repr - old(subscribers.Repr))
      ensures Reached(next, Accept(cfg, old(Model()), KeyOf(subscriber.who), reply), old(outs))
    {
      ghost var m, before, key := Model(), outs, KeyOf(subscriber.who);
      Assoc(before, [Answered(key, RsrcGranted)], JoinedOutput(m.clients, key));
      Answer(subscriber, RsrcGranted);
      AddSubscriber(subscriber);
      next := Acquired;
    }

    /** Pending and Releasing only take note of the subscriber. */
    method WaitingOnSubscribe(subscriber: Subscriber, ghost reply: DataCall) returns (next: Control)
      requires Sound() && control in {Pending, Releasing} && subscriber.who.kind == cfg.kind
      modifies `Repr, `outs, subscribers.Repr
      ensures Sound() && fresh(Repr - old(Repr)) && fresh(subscribers.Repr - old(subscribers.Repr))
      ensures Reached(next, Accept(cfg, old(Model()), KeyOf(subscriber.who), reply), old(outs))
    {
      AddSubscriber(subscriber);
      next := control;
    }

    /** What the current state does with a subscriber that comes. */
    method HandleSubscribe(subscriber: Subscriber, reply: DataCall)
      requires Sound() && subscriber.who.kind == cfg.kind
      modifies `Repr, `control, `outs, `retries, subscribers.Repr
      ensures Sound() && fresh(Repr - old(Repr)) && fresh(subscribers.Repr - old(subscribers.Repr))
      ensures Reached(control, Accept(cfg, old(Model()), KeyOf(subscriber.who), reply), old(outs))
    {
      ghost var o, before := Accept(cfg, Model(), KeyOf(subscriber.who), reply), outs;
      var next;
      match control {
        case Released => next := ReleasedOnSubscribe(subscriber, reply);
        case Acquired => next := AcquiredOnSubscribe(subscriber, reply);
        case _ => next := WaitingOnSubscribe(subscriber, reply);
      }
      SetState(next, o, before);
    }

    /** An unsubscription in any state but Released. */
    method PartFrom(s: Subscriber, ghost k: nat) returns (next: Control)
      requires Sound() && control != Released && k < |subscribers.Contents()| && subscribers.Contents()[k] == s
      requires NoneBefore(Clients(), One(KeyOf(s.who)), k)
      modifies s, `outs, `retries, subscribers.Repr
      ensures Sound() && subscribers.Repr == old(subscribers.Repr)
      ensures Reached(next, Part(cfg, old(Model()), KeyOf(s.who)), old(outs))
    {
      ghost var left, before := Leave(cfg, Model(), KeyOf(s.who)), outs;
      assert Part(cfg, Model(), KeyOf(s.who)) == Settle(cfg, control, left);
      LeaveList(s, k);
      if control == Releasing {
        next := SettleReleasing(left, before);
      } else {
        next := SettleState(left, before);
      }
    }

    /** In Released the subscriber is told, but it is not removed. */
    method ReleasedOnUnsubscribe(s: Subscriber) returns (next: Control)
      requires Sound() && control == Released && s.who.kind == cfg.kind
      modifies `outs
      ensures Sound() && Reached(next, Part(cfg, old(Model()), KeyOf(s.who)), old(outs))
    {
      outs := outs + [Told(KeyOf(s.who), RsrcUnsubscribe)];
      next := Released;
    }

    method PendingOnEvent(event: Status, ghost reply: DataCall) returns (next: Control)
      requires Sound() && control == Pending && event in {RsrcGranted, RsrcReleased, RsrcDenied}
      modifies `outs, `retries, subscribers.Repr
      ensures Sound() && subscribers.Repr == old(subscribers.Repr)
      ensures Reached(next, Handle(cfg, old(Model()), event, ById(0), reply), old(outs))
    {
      next := control;
      if event == RsrcGranted {
        next := Acquired;
        NotifyOnly(Notification(None, BroadcastActive, RsrcGranted, false));
      } else if event == RsrcDenied {
        next := Released;
        CloseEverybody(RsrcDenied);
      }
    }

    method AcquiredOnEvent(event: Status, ghost reply: DataCall) returns (next: Control)
      requires Sound() && control == Acquired && event in {RsrcGranted, RsrcReleased, RsrcDenied}
      modifies `outs, `retries, subscribers.Repr
      ensures Sound() && subscribers.Repr == old(subscribers.Repr)
      ensures Reached(next, Handle(cfg, old(Model()), event, ById(0), reply), old(outs))
    {
      next := control;
      if event == RsrcReleased {
        next := Released;
        CloseEverybody(RsrcReleased);
      }
    }

    method ReleasingOnEvent(event: Status, reply: DataCall) returns (next: Control)
      requires Sound() && control == Releasing && event in {RsrcGranted, RsrcReleased, RsrcDenied}
      modifies `outs, `retries, subscribers.Repr
      ensures Sound() && subscribers.Repr == old(subscribers.Repr)
      ensures Reached(next, Handle(cfg, old(Model()), event, ById(0), reply), old(outs))
    {
      next := control;
      if event != RsrcGranted {
        next := CloseReleasing(event, reply);
      }
    }

    /** What the current state does with a listed subscriber that goes. */
    method HandleUnsubscribe(s: Subscriber, ghost k: nat)
      requires Sound() && k < |subscribers.Contents()| && subscribers.Contents()[k] == s
      requires NoneBefore(Clients(), One(KeyOf(s.who)), k)
      modifies s, `control, `outs, `retries, subscribers.Repr
      ensures Sound() && subscribers.Repr == old(subscribers.Repr)
      ensures Reached(control, Part(cfg, old(Model()), KeyOf(s.who)), old(outs))
    {
      ghost var o, before := Part(cfg, Model(), KeyOf(s.who)), outs;
      var next;
      if control == Released {
        next := ReleasedOnUnsubscribe(s);
      } else {
        next := PartFrom(s, k);
      }
      SetState(next, o, before);
    }

    /** What the current state does with GRANTED, RELEASED or DENIED. */
    method HandleEvent(event: Status, reply: DataCall) returns (next: Control)
      requires Sound() && event in {RsrcGranted, RsrcReleased, RsrcDenied}
      modifies `outs, `retries, subscribers.Repr
      ensures Sound() && subscribers.Repr == old(subscribers.Repr)
      ensures Reached(next, Handle(cfg, old(Model()), event, ById(0), reply), old(outs))
    {
      match control {
        case Released => next := Released;
        case Pending => next := PendingOnEvent(event, reply);
        case Acquired => next := AcquiredOnEvent(event, reply);
        case Releasing => next := ReleasingOnEvent(event, reply);
      }
    }

    /** The base machine's onRsrcEvent. */
    method TakeEvent(event: Status, reply: DataCall)
      requires Sound() && event in {RsrcGranted, RsrcReleased, RsrcDenied}
      modifies `control, `outs, `retries, subscribers.Repr
      ensures Sound() && subscribers.Repr == old(subscribers.Repr)
      ensures Reached(control, Handle(cfg, old(Model()), event, ById(0), reply), old(outs))
    {
      ghost var o, before := Handle(cfg, Model(), event, ById(0), reply), outs;
      var next := HandleEvent(event, reply);
      SetState(next, o, before);
    }

    /** The DS machine denies everybody when a release left it where it was. */
    method ReleasedOnDs(reply: DataCall)
      requires Sound() && cfg.kind == Ds
      modifies `control, `outs, `retries, subscribers.Repr
      ensures Sound() && subscribers.Repr == old(subscribers.Repr)
      ensures Reached(control, OnReleasedEvent(cfg, old(Model()), reply), old(outs))
    {
      ghost var first, before := OnReleasedBase(cfg, Model(), reply), outs;
      var currState := control;
      TakeEvent(RsrcReleased, reply);
      assert Model() == first.m;
      if control == currState {
        Assoc(before, first.outs, OnDeniedEvent(cfg, Model(), reply).outs);
        TakeEvent(RsrcDenied, reply);
      }
    }

    // ---------- events ----------

    /** An event that was just handled joins the run. */
    ghost method Handled(m: Machine, before: seq<Output>, e: Event)
      requires Sound() && ComesTo(cfg, events, m, before) && Reached(control, Step(cfg, m, e), before)
      modifies `events
      ensures Valid() && Reached(control, Step(cfg, m, e), before) && events == old(events) + [e]
    {
      ComesToNext(cfg, events, m, before, e);
      events := events + [e];
      assert Model() == Step(cfg, m, e).m;
    }

    /** Whatever has happened, the requests that left this machine are accounted for. */
    lemma RequestsBalance()
      requires Valid()
      ensures AgpsTransitions.Count(outs, Request)
           == AgpsTransitions.Count(outs, Release) + AgpsLedger.EndsByManager(cfg, events)
            + AgpsLedger.FailedStarts(cfg, events) + AgpsTransitions.Indicator(AgpsTransitions.Holds(Model()))
    {
      AgpsLedger.RequestLedger(cfg, events);
    }

    /** And every subscription it took on. */
    lemma SubscriptionsBalance(k: Key)
      requires Valid()
      ensures AgpsTransitions.Count(outs, Joined(k)) + AgpsLedger.Kept(cfg, events, k)
           == AgpsLedger.Closings(outs, k) + AgpsLedger.Drops(cfg, events, k)
            + AgpsTransitions.Indicator(Listed(Clients(), k))
    {
      AgpsLedger.SubscriptionLedger(cfg, events, k);
    }

    /** And an active subscriber has been told GRANTED exactly when the machine is Acquired. */
    lemma GrantsCohere(k: Key)
      requires Valid() && Client(k, false) in Clients()
      ensures AgpsGrants.GrantedSinceJoining(cfg, events, k) <==> control == Acquired
    {
      AgpsGrants.GrantCoherence(cfg, events, k);
    }

    /** A subscriber asks for the connection. */
    method SubscribeResource(subscriber: Subscriber, reply: DataCall)
      requires Valid() && subscriber.who.kind == cfg.kind
      modifies Repr
      ensures Valid() && fresh(Repr - old(Repr))
      ensures Reached(control, OnSubscribe(cfg, old(Model()), KeyOf(subscriber.who), reply), old(outs))
      ensures events == old(events) + [SubscribeRsrc(KeyOf(subscriber.who), reply)]
    {
      ghost var m, before := Model(), outs;
      var has := HasSubscribers();
      if cfg.single && has {
        Answer(subscriber, RsrcDenied);
      } else {
        HandleSubscribe(subscriber, reply);
      }
      Handled(m, before, SubscribeRsrc(KeyOf(subscriber.who), reply));
    }

    /** A subscriber is done with the connection; the result says whether it was listed. One that was not
        leaves no trace. */
    method UnsubscribeResource(subscriber: Subscriber) returns (found: bool)
      requires Valid() && subscriber.who.kind == cfg.kind
      modifies Repr
      ensures Valid() && fresh(Repr - old(Repr))
      ensures found <==> Listed(old(Clients()), KeyOf(subscriber.who))
      ensures !found ==> unchanged(old(Repr))
      ensures Reached(control, OnUnsubscribe(cfg, old(Model()), KeyOf(subscriber.who)), old(outs))
      ensures found ==> events == old(events) + [UnsubscribeRsrc(KeyOf(subscriber.who))]
    {
      ghost var m, before, key := Model(), outs, KeyOf(subscriber.who);
      var s;
      ghost var k;
      s, k := FindSubscriber(subscriber.who);
      found := s.Some?;
      if found {
        HandleUnsubscribe(s.value, k);
        Handled(m, before, UnsubscribeRsrc(key));
      }
    }

    /** onRsrcEvent, of the base machine and of the DS machine, which turns a RELEASED that changed
        nothing into DENIED. */
    method OnResourceEvent(event: Status, reply: DataCall)
      requires Valid() && event in {RsrcGranted, RsrcReleased, RsrcDenied}
      modifies Repr
      ensures Valid() && Repr == old(Repr)
      ensures var e := match event case RsrcGranted => OnGranted case RsrcReleased => OnReleased(reply)
                                   case _ => OnDenied(reply);
              Reached(control, Step(cfg, old(Model()), e), old(outs)) && events == old(events) + [e]
    {
      ghost var m, before := Model(), outs;
      ghost var e := match event case RsrcGranted => OnGranted case RsrcReleased => OnReleased(reply)
                                 case _ => OnDenied(reply);
      if cfg.kind == Ds && event == RsrcReleased {
        ReleasedOnDs(reply);
      } else {
        TakeEvent(event, reply);
      }
      Handled(m, before, e);
    }

    /** An engine restart empties the list and leaves the state as it is. */
    method DropAllSubscribers()
      requires Valid()
      modifies Repr
      ensures Valid() && Repr == old(Repr)
      ensures Reached(control, Step(cfg, old(Model()), DropAll), old(outs)) && events == old(events) + [DropAll]
    {
      ghost var m, before := Model(), outs;
      subscribers.Flush();
      Handled(m, before, DropAll);
    }

    /** The DS machine's retry timer has run down. */
    method RetryCallback()
      requires Valid() && cfg.kind == Ds
      modifies Repr
      ensures Valid() && Repr == old(Repr)
      ensures Reached(control, Step(cfg, old(Model()), RetryTimeout), old(outs))
      ensures events == old(events) + [RetryTimeout]
    {
      ghost var m, before := Model(), outs;
      var s := FindActive();
      if s.Some? {
        Note(RetryRequest(s.value));
      }
      Handled(m, before, RetryTimeout);
    }
  }
}
