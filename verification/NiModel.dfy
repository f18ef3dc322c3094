/** The network-initiated session protocol of loc_eng_ni.cpp. One step is one call of the request
    handler, of the respond function or of the reset function, or the exit of a timer thread from
    its wait; that each of these is atomic is an assumption, since the code does a part of them
    outside the lock. */
module NiModel {
  import opened Options

  type Payload = int
  type Response = int

  const ACCEPT: Response := 1
  const NORESP: Response := 3
  const IGNORE: Response := 4

  datatype Which = Ordinary | Emergency

  /** verdict is the last answer addressed to the outstanding request since it was accepted; the
      code has no such field, it only has resp and respRecvd. */
  datatype Session = Session(rawRequest: Option<Payload>, reqID: nat, resp: Response, respRecvd: bool,
                             verdict: Option<Response>)

  const FREE := Session(None, 0, 0, false, None)

  /** How an outstanding request was resolved: the request and its id, the response, the thread that
      resolved it and whether that thread's time was up, and the verdict on the request. */
  datatype Resolved = Resolved(payload: Payload, id: nat, resp: Response, thread: nat, timedOut: bool,
                               verdict: Option<Response>)

  /** A timer thread is named after the request it was created for. */
  datatype Ni = Ni(
    inited: bool,
    session: Session,
    sessionEs: Session,
    reqIDCounter: nat,
    threads: map<nat, Which>,
    // where every accepted payload has gone
    accepted: seq<Payload>,
    forwarded: seq<Resolved>,  // sent to the modem with the response
    ignored: seq<Resolved>,    // freed, the response being IGNORE
    restarted: seq<Payload>,
    // payloads that were never accepted
    rejected: seq<Payload>)
  {
    function Of(w: Which): Session {
      if w == Ordinary then session else sessionEs
    }

    function With(w: Which, s: Session): Ni {
      if w == Ordinary then this.(session := s) else this.(sessionEs := s)
    }

    /** An ordinary request waits for both sessions, an emergency request for its own only. */
    predicate Busy(w: Which) {
      Of(w).rawRequest.Some? || (w == Ordinary && sessionEs.rawRequest.Some?)
    }
  }

  const INITIAL := Ni(false, FREE, FREE, 0, map[], [], [], [], [], [])

  datatype Step =
    | Init
    | Request(w: Which, payload: Option<Payload>)  // without payload the modem passed a null pointer
    | Respond(notifId: int, response: Response)
    | Reset
    | Exit(thread: nat, timedOut: bool)

  function Listed(p: Option<Payload>): seq<Payload> {
    if p.Some? then [p.value] else []
  }

  // ---------- the steps ----------

  function OnRequest(m: Ni, w: Which, payload: Option<Payload>): Ni {
    if !m.inited then m
    else if m.Busy(w) then m.(rejected := m.rejected + Listed(payload))
    else
      var id := m.reqIDCounter + 1;
      m.With(w, m.Of(w).(rawRequest := payload, reqID := id, verdict := None))
       .(reqIDCounter := id, threads := m.threads[id := w], accepted := m.accepted + Listed(payload))
  }

  function Answer(s: Session, response: Response): Session {
    s.(resp := response, respRecvd := true, verdict := Some(response))
  }

  /** Accepting the emergency request answers an outstanding ordinary one with IGNORE. */
  function OnRespond(m: Ni, notifId: int, response: Response): Ni {
    if !m.inited then m
    else if notifId == m.sessionEs.reqID && m.sessionEs.rawRequest.Some? then
      var session := if response == ACCEPT && m.session.rawRequest.Some? then Answer(m.session, IGNORE) else m.session;
      m.(session := session, sessionEs := Answer(m.sessionEs, response))
    else if notifId == m.session.reqID && m.session.rawRequest.Some? then
      m.(session := Answer(m.session, response))
    else m
  }

  function ResetSession(s: Session): Session {
    if s.rawRequest.Some? then s.(rawRequest := None, respRecvd := true) else s
  }

  function OnReset(m: Ni): Ni {
    if !m.inited then m
    else m.(session := ResetSession(m.session), sessionEs := ResetSession(m.sessionEs),
            restarted := m.restarted + Listed(m.sessionEs.rawRequest) + Listed(m.session.rawRequest))
  }

  /** What a thread that leaves its wait does to the outstanding request of its session. */
  function Resolution(m: Ni, thread: nat, timedOut: bool): Resolved
    requires thread in m.threads && m.Of(m.threads[thread]).rawRequest.Some?
  {
    var s := m.Of(m.threads[thread]);
    Resolved(s.rawRequest.value, s.reqID, if timedOut then NORESP else s.resp, thread, timedOut, s.verdict)
  }

  function OnExit(m: Ni, thread: nat, timedOut: bool): Ni
    requires thread in m.threads
  {
    var w := m.threads[thread];
    var s := m.Of(w);
    var resp := if timedOut then NORESP else s.resp;
    var after := m.With(w, s.(rawRequest := None, reqID := 0, resp := resp, respRecvd := false))
                  .(threads := m.threads - {thread});
    if s.rawRequest.None? then after
    else if resp != IGNORE then after.(forwarded := m.forwarded + [Resolution(m, thread, timedOut)])
    else after.(ignored := m.ignored + [Resolution(m, thread, timedOut)])
  }

  /** A thread leaves its wait when an answer was noted or when its time is up; the latter can
      happen at any moment, also when an answer has just been noted. */
  predicate Enabled(m: Ni, s: Step) {
    s.Exit? ==> s.thread in m.threads && (s.timedOut || m.Of(m.threads[s.thread]).respRecvd)
  }

  function Take(m: Ni, s: Step): Ni
    requires Enabled(m, s)
  {
    match s
    case Init => if m.inited then m
                 else m.(inited := true, session := FREE.(resp := m.session.resp),
                         sessionEs := FREE.(resp := m.sessionEs.resp))
    case Request(w, payload) => OnRequest(m, w, payload)
    case Respond(id, response) => OnRespond(m, id, response)
    case Reset => OnReset(m)
    case Exit(thread, timedOut) => OnExit(m, thread, timedOut)
  }

  predicate Legal(m: Ni, steps: seq<Step>)
    decreases |steps|
  {
    steps == [] || (Enabled(m, steps[0]) && Legal(Take(m, steps[0]), steps[1..]))
  }

  function Run(m: Ni, steps: seq<Step>): Ni
    requires Legal(m, steps)
    decreases |steps|
  {
    if steps == [] then m else Run(Take(m, steps[0]), steps[1..])
  }

  lemma {:induction false} RunMore(m: Ni, steps: seq<Step>, s: Step)
    requires Legal(m, steps) && Enabled(Run(m, steps), s)
    ensures Legal(m, steps + [s]) && Run(m, steps + [s]) == Take(Run(m, steps), s)
    decreases |steps|
  {
    if steps != [] {
      assert (steps + [s])[1..] == steps[1..] + [s];
      RunMore(Take(m, steps[0]), steps[1..], s);
    } else {
      assert (steps + [s])[1..] == [];
    }
  }

  // ---------- payload conservation ----------

  function Payloads(fs: seq<Resolved>): seq<Payload> {
    if fs == [] then [] else Payloads(fs[..|fs| - 1]) + [fs[|fs| - 1].payload]
  }

  /** Every accepted payload is outstanding, or was forwarded in one response, or freed as ignored,
      or freed by an engine restart. */
  ghost predicate Conserved(m: Ni) {
    multiset(m.accepted)
    == multiset(Listed(m.session.rawRequest)) + multiset(Listed(m.sessionEs.rawRequest))
     + multiset(Payloads(m.forwarded)) + multiset(Payloads(m.ignored)) + multiset(m.restarted)
  }

  /** An outstanding request has an id in use, and its own timer thread is alive. */
  ghost predicate HasTimer(m: Ni, w: Which) {
    m.Of(w).rawRequest.Some? ==>
      m.inited && 0 < m.Of(w).reqID <= m.reqIDCounter && m.Of(w).reqID in m.threads && m.threads[m.Of(w).reqID] == w
  }

  /** Ids only grow; if both sessions are outstanding the emergency one is the younger. */
  ghost predicate Sessions(m: Ni) {
    && (forall id :: id in m.threads ==> 0 < id <= m.reqIDCounter)
    && HasTimer(m, Ordinary) && HasTimer(m, Emergency)
    && (m.session.rawRequest.Some? && m.sessionEs.rawRequest.Some? ==> m.session.reqID < m.sessionEs.reqID)
  }

  /** A payload is accepted into a session that had none. */
  lemma Entered(m: Ni, n: Ni, w: Which)
    requires Conserved(m) && m.Of(w).rawRequest == None
    requires n.accepted == m.accepted + Listed(n.Of(w).rawRequest)
    requires forall v :: v != w ==> n.Of(v).rawRequest == m.Of(v).rawRequest
    requires n.forwarded == m.forwarded && n.ignored == m.ignored && n.restarted == m.restarted
    ensures Conserved(n)
  {
    var other := if w == Ordinary then Emergency else Ordinary;
    assert n.Of(other).rawRequest == m.Of(other).rawRequest;
    assert multiset(n.accepted) == multiset(m.accepted) + multiset(Listed(n.Of(w).rawRequest));
  }

  lemma RequestConserves(m: Ni, w: Which, payload: Option<Payload>)
    requires Conserved(m)
    ensures Conserved(OnRequest(m, w, payload))
  {
    if m.inited && !m.Busy(w) {
      Entered(m, OnRequest(m, w, payload), w);
    }
  }

  lemma ResetConserves(m: Ni)
    requires Conserved(m)
    ensures Conserved(OnReset(m))
  {
    var es, s := Listed(m.sessionEs.rawRequest), Listed(m.session.rawRequest);
    assert multiset(m.restarted + es + s) == multiset(m.restarted) + multiset(es) + multiset(s);
  }

  lemma PayloadsExtend(fs: seq<Resolved>, f: Resolved)
    ensures multiset(Payloads(fs + [f])) == multiset(Payloads(fs)) + multiset([f.payload])
  {
    assert (fs + [f])[..|fs|] == fs;
  }

  /** A payload moves from its session to one of the histories. */
  lemma Moved(m: Ni, n: Ni, w: Which, p: Payload)
    requires Conserved(m) && n.accepted == m.accepted && n.restarted == m.restarted
    requires m.Of(w).rawRequest == Some(p) && n.Of(w).rawRequest == None
    requires forall v :: v != w ==> n.Of(v).rawRequest == m.Of(v).rawRequest
    requires (&& multiset(Payloads(n.forwarded)) == multiset(Payloads(m.forwarded)) + multiset([p])
              && n.ignored == m.ignored)
          || (n.forwarded == m.forwarded
              && multiset(Payloads(n.ignored)) == multiset(Payloads(m.ignored)) + multiset([p]))
    ensures Conserved(n)
  {
    assert n.Of(Ordinary).rawRequest == n.session.rawRequest && n.Of(Emergency).rawRequest == n.sessionEs.rawRequest;
  }

  /** The exit of a thread empties its session and touches nothing of the other one. */
  lemma ExitClears(m: Ni, thread: nat, timedOut: bool)
    requires thread in m.threads
    ensures var w, n := m.threads[thread], OnExit(m, thread, timedOut);
            && n.Of(w).rawRequest == None && (forall v :: v != w ==> n.Of(v) == m.Of(v))
            && n.accepted == m.accepted && n.restarted == m.restarted
  {
  }

  lemma ExitConserves(m: Ni, thread: nat, timedOut: bool)
    requires Conserved(m) && thread in m.threads
    ensures Conserved(OnExit(m, thread, timedOut))
  {
    var w := m.threads[thread];
    var s, n := m.Of(w), OnExit(m, thread, timedOut);
    ExitClears(m, thread, timedOut);
    if s.rawRequest.Some? {
      var p := s.rawRequest.value;
      var f := Resolution(m, thread, timedOut);
      if f.resp != IGNORE {
        assert n.forwarded == m.forwarded + [f] && n.ignored == m.ignored;
        PayloadsExtend(m.forwarded, f);
      } else {
        assert n.ignored == m.ignored + [f] && n.forwarded == m.forwarded;
        PayloadsExtend(m.ignored, f);
      }
      Moved(m, n, w, p);
    }
  }

  lemma StaysConserved(m: Ni, n: Ni)
    requires Conserved(m) && n.accepted == m.accepted && n.restarted == m.restarted
    requires n.session.rawRequest == m.session.rawRequest && n.sessionEs.rawRequest == m.sessionEs.rawRequest
    requires n.forwarded == m.forwarded && n.ignored == m.ignored
    ensures Conserved(n)
  {
  }

  lemma RespondConserves(m: Ni, id: int, response: Response)
    requires Conserved(m)
    ensures Conserved(OnRespond(m, id, response))
  {
    var n := OnRespond(m, id, response);
    assert n.session.rawRequest == m.session.rawRequest && n.sessionEs.rawRequest == m.sessionEs.rawRequest;
    StaysConserved(m, n);
  }

  lemma InitConserves(m: Ni)
    requires Conserved(m) && Sessions(m)
    ensures Conserved(Take(m, Init))
  {
  }

  lemma StepConserves(m: Ni, s: Step)
    requires Conserved(m) && Sessions(m) && Enabled(m, s)
    ensures Conserved(Take(m, s))
  {
    match s
    case Init => InitConserves(m);
    case Request(w, payload) =>
      assert Take(m, s) == OnRequest(m, w, payload);
      RequestConserves(m, w, payload);
    case Respond(id, response) =>
      assert Take(m, s) == OnRespond(m, id, response);
      RespondConserves(m, id, response);
    case Reset =>
      assert Take(m, s) == OnReset(m);
      ResetConserves(m);
    case Exit(thread, timedOut) =>
      assert Take(m, s) == OnExit(m, thread, timedOut);
      ExitConserves(m, thread, timedOut);
  }

  lemma StepKeepsSessions(m: Ni, s: Step)
    requires Sessions(m) && Enabled(m, s)
    ensures Sessions(Take(m, s)) && Take(m, s).reqIDCounter >= m.reqIDCounter
  {
  }

  lemma {:induction false} RunKeeps(m: Ni, steps: seq<Step>)
    requires Conserved(m) && Sessions(m) && Legal(m, steps)
    ensures Conserved(Run(m, steps)) && Sessions(Run(m, steps))
    decreases |steps|
  {
    if steps != [] {
      StepConserves(m, steps[0]);
      StepKeepsSessions(m, steps[0]);
      RunKeeps(Take(m, steps[0]), steps[1..]);
    }
  }

  /** The request was resolved by the last answer the user gave to this very request, or because the
      time of its own timer was up. */
  predicate Genuine(f: Resolved) {
    if f.timedOut then f.resp == NORESP && f.thread == f.id else f.verdict == Some(f.resp)
  }

  /** In every reachable state, a timeout can resolve whatever request is outstanding: it is then
      forwarded once, as unanswered. */
  lemma TimeoutResolves(steps: seq<Step>, w: Which)
    requires Legal(INITIAL, steps) && Run(INITIAL, steps).Of(w).rawRequest.Some?
    ensures var m := Run(INITIAL, steps);
            var exit := Exit(m.Of(w).reqID, true);
            && Enabled(m, exit)
            && Take(m, exit).Of(w).rawRequest == None
            && Take(m, exit).forwarded == m.forwarded + [Resolution(m, m.Of(w).reqID, true)]
            && Genuine(Resolution(m, m.Of(w).reqID, true))
  {
    RunKeeps(INITIAL, steps);
  }

  /** An accepted request gets an id that no request before it had, and becomes the youngest. */
  lemma AcceptedIdIsFresh(m: Ni, w: Which, payload: Option<Payload>)
    requires Sessions(m) && m.inited && !m.Busy(w)
    ensures var after := Take(m, Request(w, payload));
            && after.Of(w).reqID == after.reqIDCounter > m.reqIDCounter && after.Of(w).reqID !in m.threads
            && (after.session.rawRequest.Some? && after.sessionEs.rawRequest.Some? ==>
                  after.session.reqID < after.sessionEs.reqID)
  {
  }

  // ---------- whose answer is forwarded ----------

  /** Whatever can happen to the outstanding request of a session is genuine: an answer noted is an answer
      to it, and the only thread that serves the session is its own. */
  ghost predicate Guarded(m: Ni, w: Which) {
    m.Of(w).rawRequest.Some? ==>
      && (m.Of(w).respRecvd ==> m.Of(w).verdict == Some(m.Of(w).resp))
      && forall t :: t in m.threads && m.threads[t] == w ==> t == m.Of(w).reqID
  }

  ghost predicate AllGenuine(m: Ni) {
    && (forall f :: f in m.forwarded ==> Genuine(f))
    && (forall f :: f in m.ignored ==> Genuine(f))
  }

  /** A session in which an answer is still noted, or which a thread still serves. */
  ghost predicate LeftOver(m: Ni, w: Which) {
    m.Of(w).respRecvd || exists t :: t in m.threads && m.threads[t] == w
  }

  /** The request is taken into such a session. */
  ghost predicate Exposed(m: Ni, s: Step) {
    s.Request? && s.payload.Some? && m.inited && !m.Busy(s.w) && LeftOver(m, s.w)
  }

  ghost predicate Sound(m: Ni) {
    Guarded(m, Ordinary) && Guarded(m, Emergency) && AllGenuine(m)
  }

  lemma ExitKeepsSound(m: Ni, thread: nat, timedOut: bool)
    requires Sound(m) && Sessions(m) && Enabled(m, Exit(thread, timedOut))
    ensures Sound(OnExit(m, thread, timedOut))
  {
    var w := m.threads[thread];
    assert m.Of(w).rawRequest.Some? ==> Genuine(Resolution(m, thread, timedOut));
  }

  lemma StepKeepsSound(m: Ni, s: Step)
    requires Sound(m) && Sessions(m) && Enabled(m, s) && !Exposed(m, s)
    ensures Sound(Take(m, s))
  {
    var n := Take(m, s);
    if s.Exit? {
      ExitKeepsSound(m, s.thread, s.timedOut);
    }
  }

  /** Right after an acceptance, some thread of the session can resolve the request other than
      genuinely if and only if an answer or a thread was left over in the session. */
  lemma LeftOversResolveRequest(m: Ni, w: Which, payload: Payload)
    requires Sessions(m) && m.inited && !m.Busy(w)
    ensures var after := Take(m, Request(w, Some(payload)));
            (exists t, timedOut :: t in after.threads && after.threads[t] == w && Enabled(after, Exit(t, timedOut))
                                   && !Genuine(Resolution(after, t, timedOut)))
            <==> LeftOver(m, w)
  {
    var after := Take(m, Request(w, Some(payload)));
    var id := after.reqIDCounter;
    assert id in after.threads && after.threads[id] == w && after.Of(w).verdict == None && after.Of(w).reqID == id;
    if m.Of(w).respRecvd {
      assert Enabled(after, Exit(id, false)) && !Genuine(Resolution(after, id, false));
    } else if t :| t in m.threads && m.threads[t] == w {
      assert Enabled(after, Exit(t, true)) && !Genuine(Resolution(after, t, true));
    }
  }

  /** Between requests nothing is left over: whatever is noted or running belongs to an outstanding request. */
  ghost predicate NothingLeftOver(m: Ni, w: Which) {
    && (m.Of(w).respRecvd ==> m.Of(w).rawRequest.Some?)
    && (forall t :: t in m.threads && m.threads[t] == w ==> m.Of(w).rawRequest.Some? && t == m.Of(w).reqID)
  }

  lemma StepLeavesNothingOver(m: Ni, s: Step)
    requires NothingLeftOver(m, Ordinary) && NothingLeftOver(m, Emergency) && Sessions(m) && Enabled(m, s)
    requires s != Reset && (s.Request? ==> s.payload.Some?)
    ensures NothingLeftOver(Take(m, s), Ordinary) && NothingLeftOver(Take(m, s), Emergency) && !Exposed(m, s)
  {
    assert NothingLeftOver(Take(m, s), Ordinary);
    assert NothingLeftOver(Take(m, s), Emergency);
  }

  // ---------- runs in which a request is resolved by what was left over ----------

  /** An engine restart while request 1 is outstanding; its thread is left over. */
  const RESTARTED: seq<Step> := [Init] + [Request(Ordinary, Some(10))] + [Reset]

  lemma AfterRestart()
    ensures Legal(INITIAL, RESTARTED)
    ensures Run(INITIAL, RESTARTED)
         == Ni(true, Session(None, 1, 0, true, None), FREE, 1, map[1 := Ordinary], [10], [], [], [10], [])
  {
    RunMore(INITIAL, [], Init);
    assert [] + [Init] == [Init];
    RunMore(INITIAL, [Init], Request(Ordinary, Some(10)));
    RunMore(INITIAL, [Init] + [Request(Ordinary, Some(10))], Reset);
  }

  const ANSWERED: seq<Step> := RESTARTED + [Request(Ordinary, Some(20))] + [Exit(1, false)]

  lemma AfterAnswer()
    ensures Legal(INITIAL, ANSWERED)
    ensures Run(INITIAL, ANSWERED)
         == Ni(true, FREE, FREE, 2, map[2 := Ordinary], [10, 20], [Resolved(20, 2, 0, 1, false, None)], [], [10], [])
  {
    AfterRestart();
    RunMore(INITIAL, RESTARTED, Request(Ordinary, Some(20)));
    RunMore(INITIAL, RESTARTED + [Request(Ordinary, Some(20))], Exit(1, false));
    assert map[1 := Ordinary][2 := Ordinary] - {1} == map[2 := Ordinary];
  }

  /** Then request 2: the thread left over from request 1 forwards request 2 with a response that nobody gave. */
  lemma RestartAnswersNextRequest()
    ensures var f := Resolved(20, 2, 0, 1, false, None);
            Legal(INITIAL, ANSWERED) && Run(INITIAL, ANSWERED).forwarded == [f] && !Genuine(f)
  {
    AfterAnswer();
  }

  /** Then request 3, at whose acceptance no answer is noted: the thread left over from request 2 forwards it
      as unanswered, while its own timer runs on. */
  lemma LeftOverThreadTimesRequestOut()
    ensures var steps := ANSWERED + [Request(Ordinary, Some(30))] + [Exit(2, true)];
            var f := Resolved(30, 3, NORESP, 2, true, None);
            && Legal(INITIAL, ANSWERED) && !Run(INITIAL, ANSWERED).session.respRecvd
            && Legal(INITIAL, steps) && f in Run(INITIAL, steps).forwarded && !Genuine(f)
            && 3 in Run(INITIAL, steps).threads
  {
    AfterAnswer();
    RunMore(INITIAL, ANSWERED, Request(Ordinary, Some(30)));
    RunMore(INITIAL, ANSWERED + [Request(Ordinary, Some(30))], Exit(2, true));
  }

  /** No restart is needed if the modem passes a null pointer: request 1 then leaves a thread over. */
  lemma NullRequestTimesNextRequestOut()
    ensures var steps := [Init] + [Request(Ordinary, None)] + [Request(Ordinary, Some(20))] + [Exit(1, true)];
            var f := Resolved(20, 2, NORESP, 1, true, None);
            Legal(INITIAL, steps) && Run(INITIAL, steps).forwarded == [f] && !Genuine(f)
  {
    RunMore(INITIAL, [], Init);
    assert [] + [Init] == [Init];
    RunMore(INITIAL, [Init], Request(Ordinary, None));
    RunMore(INITIAL, [Init] + [Request(Ordinary, None)], Request(Ordinary, Some(20)));
    RunMore(INITIAL, [Init] + [Request(Ordinary, None)] + [Request(Ordinary, Some(20))], Exit(1, true));
  }

  /** The user accepted an emergency request, which answers the ordinary one with IGNORE, when the engine
      restarts: the next ordinary request is freed without any response. */
  lemma RestartDropsNextRequest()
    ensures var before := [Init] + [Request(Ordinary, Some(10))] + [Request(Emergency, Some(11))] + [Respond(2, ACCEPT)];
            var steps := before + [Reset] + [Request(Ordinary, Some(40))] + [Exit(1, false)];
            var f := Resolved(40, 3, IGNORE, 1, false, None);
            Legal(INITIAL, steps) && Run(INITIAL, steps).ignored == [f] && !Genuine(f)
  {
    var s1 := [Init] + [Request(Ordinary, Some(10))];
    var s2 := s1 + [Request(Emergency, Some(11))];
    var s3 := s2 + [Respond(2, ACCEPT)];
    RunMore(INITIAL, [], Init);
    assert [] + [Init] == [Init];
    RunMore(INITIAL, [Init], Request(Ordinary, Some(10)));
    RunMore(INITIAL, s1, Request(Emergency, Some(11)));
    RunMore(INITIAL, s2, Respond(2, ACCEPT));
    RunMore(INITIAL, s3, Reset);
    RunMore(INITIAL, s3 + [Reset], Request(Ordinary, Some(40)));
    RunMore(INITIAL, s3 + [Reset] + [Request(Ordinary, Some(40))], Exit(1, false));
  }
}
