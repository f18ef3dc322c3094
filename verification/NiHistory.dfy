/** What the history of calls alone decides about the network-initiated sessions: which request is outstanding,
    which answer was addressed to it, and what the modem is sent. The model of NiModel agrees in every run. */
module NiHistory {
  import opened Options
  import opened NiModel

  /** An outstanding request. */
  datatype Asked = Asked(id: nat, payload: Payload)

  // ---------- read off the calls ----------

  /** A request for session w would be taken: an ordinary one waits for both sessions, an emergency one for its own. */
  predicate Free(steps: seq<Step>, w: Which)
    decreases |steps|, 1
  {
    Init in steps && Open(steps, w) == None && (w == Ordinary ==> Open(steps, Emergency) == None)
  }

  /** The outstanding request of session w. It ends with an engine restart and when a thread of the session leaves its
      wait. A request without payload is never outstanding. */
  function Open(steps: seq<Step>, w: Which): Option<Asked>
    decreases |steps|, 0
  {
    if steps == [] then None
    else
      var before, s := steps[..|steps| - 1], steps[|steps| - 1];
      match s
      case Request(v, payload) =>
        if v == w && Free(before, w) && payload.Some? then Some(Asked(Number(before) + 1, payload.value))
        else Open(before, w)
      case Reset => None
      case Exit(thread, _) => if For(before, thread) == Some(w) then None else Open(before, w)
      case _ => Open(before, w)
  }

  /** How many requests were taken, which is the id of the latest. */
  function Number(steps: seq<Step>): nat
    decreases |steps|, 0
  {
    if steps == [] then 0
    else
      var before, s := steps[..|steps| - 1], steps[|steps| - 1];
      Number(before) + if s.Request? && Free(before, s.w) then 1 else 0
  }

  /** The session for which request number id was taken. */
  function For(steps: seq<Step>, id: nat): Option<Which>
    decreases |steps|, 0
  {
    if steps == [] then None
    else
      var before, s := steps[..|steps| - 1], steps[|steps| - 1];
      if s.Request? && Free(before, s.w) && id == Number(before) + 1 then Some(s.w) else For(before, id)
  }

  predicate IsOpen(steps: seq<Step>, w: Which, id: int) {
    Open(steps, w).Some? && Open(steps, w).value.id == id
  }

  /** The latest answer addressed to request id while it was outstanding: what the user responded to it, or IGNORE when
      the user accepted an emergency request in the meantime. */
  function Heard(steps: seq<Step>, id: nat): Option<Response> {
    if steps == [] then None
    else
      var before, s := steps[..|steps| - 1], steps[|steps| - 1];
      if !s.Respond? then Heard(before, id)
      else if s.notifId == id && (IsOpen(before, Ordinary, id) || IsOpen(before, Emergency, id)) then Some(s.response)
      else if s.response == ACCEPT && IsOpen(before, Emergency, s.notifId) && IsOpen(before, Ordinary, id) then
        Some(IGNORE)
      else Heard(before, id)
  }

  // ---------- the model agrees ----------

  lemma {:induction false} LegalSplit(m: Ni, steps: seq<Step>)
    requires Legal(m, steps) && steps != []
    ensures var before, s := steps[..|steps| - 1], steps[|steps| - 1];
            Legal(m, before) && Enabled(Run(m, before), s) && Run(m, steps) == Take(Run(m, before), s)
    decreases |steps|
  {
    var before := steps[..|steps| - 1];
    if |steps| > 1 {
      LegalSplit(Take(m, steps[0]), steps[1..]);
      assert before[1..] == steps[1..][..|steps| - 2];
    }
  }

  function Outstanding(s: Session): Option<Asked> {
    if s.rawRequest.Some? then Some(Asked(s.reqID, s.rawRequest.value)) else None
  }

  ghost predicate Agrees(m: Ni, steps: seq<Step>) {
    && (m.inited <==> Init in steps)
    && m.reqIDCounter == Number(steps)
    && Outstanding(m.session) == Open(steps, Ordinary)
    && Outstanding(m.sessionEs) == Open(steps, Emergency)
    && (forall t :: t in m.threads ==> For(steps, t) == Some(m.threads[t]))
  }

  lemma StepAgrees(m: Ni, before: seq<Step>, s: Step)
    requires Agrees(m, before) && Sessions(m) && Enabled(m, s)
    ensures Agrees(Take(m, s), before + [s])
  {
    var steps := before + [s];
    assert steps[..|steps| - 1] == before;
  }

  lemma RunSessions(steps: seq<Step>)
    requires Legal(INITIAL, steps)
    ensures Sessions(Run(INITIAL, steps))
  {
    RunKeeps(INITIAL, steps);
  }

  lemma {:induction false} RunAgrees(steps: seq<Step>)
    requires Legal(INITIAL, steps)
    ensures Agrees(Run(INITIAL, steps), steps)
  {
    if steps != [] {
      var before, s := steps[..|steps| - 1], steps[|steps| - 1];
      assert steps == before + [s];
      LegalSplit(INITIAL, steps);
      RunAgrees(before);
      RunSessions(before);
      StepAgrees(Run(INITIAL, before), before, s);
    }
  }

  // ---------- answers ----------

  lemma {:induction false} OpenTaken(steps: seq<Step>, w: Which)
    ensures Open(steps, w).Some? ==> Open(steps, w).value.id <= Number(steps)
  {
    if steps != [] {
      OpenTaken(steps[..|steps| - 1], w);
    }
  }

  lemma {:induction false} HeardFresh(steps: seq<Step>, id: nat)
    requires id > Number(steps)
    ensures Heard(steps, id) == None
  {
    if steps != [] {
      var before := steps[..|steps| - 1];
      HeardFresh(before, id);
      OpenTaken(before, Ordinary);
      OpenTaken(before, Emergency);
    }
  }

  /** The verdict on an outstanding request is what was heard of it. */
  ghost predicate HeardAgrees(m: Ni, steps: seq<Step>) {
    forall w :: m.Of(w).rawRequest.Some? ==> m.Of(w).verdict == Heard(steps, m.Of(w).reqID)
  }

  lemma StepHeard(m: Ni, before: seq<Step>, s: Step)
    requires Agrees(m, before) && HeardAgrees(m, before) && Sessions(m) && Enabled(m, s)
    requires Heard(before, Number(before) + 1) == None
    ensures HeardAgrees(Take(m, s), before + [s])
  {
    var steps := before + [s];
    assert steps[..|steps| - 1] == before;
  }

  lemma {:induction false} VerdictIsHeard(steps: seq<Step>)
    requires Legal(INITIAL, steps)
    ensures HeardAgrees(Run(INITIAL, steps), steps)
  {
    if steps != [] {
      var before, s := steps[..|steps| - 1], steps[|steps| - 1];
      assert steps == before + [s];
      LegalSplit(INITIAL, steps);
      VerdictIsHeard(before);
      RunAgrees(before);
      RunSessions(before);
      HeardFresh(before, Number(before) + 1);
      StepHeard(Run(INITIAL, before), before, s);
    }
  }

  // ---------- left-over threads ----------

  predicate Exited(steps: seq<Step>, t: nat) {
    Exit(t, true) in steps || Exit(t, false) in steps
  }

  /** The timer thread of some request taken for session w has not left its wait. */
  ghost predicate Serving(steps: seq<Step>, w: Which) {
    exists t: nat :: For(steps, t) == Some(w) && !Exited(steps, t)
  }

  /** A thread runs from the time its request is taken until it leaves its wait, and while an answer is noted in a
      session some thread serves it. */
  ghost predicate ThreadsAgree(m: Ni, steps: seq<Step>) {
    && (forall t: nat :: t in m.threads <==> For(steps, t).Some? && !Exited(steps, t))
    && (forall t: nat :: Exited(steps, t) ==> t <= Number(steps))
    && (forall w :: m.Of(w).respRecvd ==> exists t :: t in m.threads && m.threads[t] == w)
  }

  lemma {:induction false} ForTaken(steps: seq<Step>, id: nat)
    ensures For(steps, id).Some? ==> 0 < id <= Number(steps)
  {
    if steps != [] {
      ForTaken(steps[..|steps| - 1], id);
    }
  }

  lemma ExitedMore(before: seq<Step>, s: Step)
    ensures forall t: nat :: Exited(before + [s], t) <==> Exited(before, t) || (s.Exit? && s.thread == t)
  {
  }

  lemma StepNotes(m: Ni, s: Step, w: Which)
    requires Sessions(m) && Enabled(m, s)
    requires m.Of(w).respRecvd ==> exists t :: t in m.threads && m.threads[t] == w
    ensures Take(m, s).Of(w).respRecvd ==> exists t :: t in Take(m, s).threads && Take(m, s).threads[t] == w
  {
    var n := Take(m, s);
    if n.Of(w).respRecvd {
      if m.Of(w).respRecvd {
        var t :| t in m.threads && m.threads[t] == w;
        assert t in n.threads;
      } else {
        assert m.Of(w).reqID in n.threads;
      }
    }
  }

  lemma StepThreads(m: Ni, before: seq<Step>, s: Step)
    requires Agrees(m, before) && ThreadsAgree(m, before) && Sessions(m) && Enabled(m, s)
    ensures ThreadsAgree(Take(m, s), before + [s])
  {
    var steps, n := before + [s], Take(m, s);
    assert steps[..|steps| - 1] == before;
    ExitedMore(before, s);
    StepNotes(m, s, Ordinary);
    StepNotes(m, s, Emergency);
    forall t: nat
      ensures t in n.threads <==> For(steps, t).Some? && !Exited(steps, t)
    {
      ForTaken(before, t);
    }
  }

  lemma {:induction false} RunThreads(steps: seq<Step>)
    requires Legal(INITIAL, steps)
    ensures ThreadsAgree(Run(INITIAL, steps), steps)
  {
    if steps != [] {
      var before, s := steps[..|steps| - 1], steps[|steps| - 1];
      assert steps == before + [s];
      LegalSplit(INITIAL, steps);
      RunThreads(before);
      RunAgrees(before);
      RunSessions(before);
      StepThreads(Run(INITIAL, before), before, s);
    }
  }

  /** In every reachable state something is left over in a session if and only if one of its threads has not left its
      wait. */
  lemma LeftOverIsServing(steps: seq<Step>, w: Which)
    requires Legal(INITIAL, steps)
    ensures LeftOver(Run(INITIAL, steps), w) <==> Serving(steps, w)
  {
    RunAgrees(steps);
    RunThreads(steps);
    var m := Run(INITIAL, steps);
    if Serving(steps, w) {
      var t :| For(steps, t) == Some(w) && !Exited(steps, t);
      assert t in m.threads;
    }
    if t :| t in m.threads && m.threads[t] == w {
      assert For(steps, t) == Some(w) && !Exited(steps, t);
    }
  }

  // ---------- what the modem is sent ----------

  /** What a step does to an outstanding request: a thread whose time is up resolves it as unanswered, and one that was
      woken resolves it with the answer heard. */
  function Resolves(before: seq<Step>, s: Step): Option<Resolved> {
    if !s.Exit? || For(before, s.thread) == None then None
    else
      var open := Open(before, For(before, s.thread).value);
      if open == None then None
      else
        var Asked(id, payload) := open.value;
        var heard := Heard(before, id);
        if s.timedOut then Some(Resolved(payload, id, NORESP, s.thread, true, heard))
        else if heard.Some? then Some(Resolved(payload, id, heard.value, s.thread, false, heard))
        else None
  }

  function Forwarded(steps: seq<Step>): seq<Resolved> {
    if steps == [] then []
    else
      var before := steps[..|steps| - 1];
      var f := Resolves(before, steps[|steps| - 1]);
      Forwarded(before) + if f.Some? && f.value.resp != IGNORE then [f.value] else []
  }

  function Ignored(steps: seq<Step>): seq<Resolved> {
    if steps == [] then []
    else
      var before := steps[..|steps| - 1];
      var f := Resolves(before, steps[|steps| - 1]);
      Ignored(before) + if f.Some? && f.value.resp == IGNORE then [f.value] else []
  }

  /** No request with a payload is taken into a session while a thread of it has not left its wait. */
  ghost predicate Clean(steps: seq<Step>) {
    steps == [] ||
    var before, s := steps[..|steps| - 1], steps[|steps| - 1];
    Clean(before) && !(s.Request? && s.payload.Some? && Free(before, s.w) && Serving(before, s.w))
  }

  lemma ExposedIsServing(before: seq<Step>, s: Step)
    requires Legal(INITIAL, before)
    ensures Exposed(Run(INITIAL, before), s)
       <==> s.Request? && s.payload.Some? && Free(before, s.w) && Serving(before, s.w)
  {
    RunAgrees(before);
    if s.Request? {
      LeftOverIsServing(before, s.w);
    }
  }

  lemma {:induction false} CleanRunsAreSound(steps: seq<Step>)
    requires Legal(INITIAL, steps) && Clean(steps)
    ensures Sound(Run(INITIAL, steps))
  {
    if steps != [] {
      var before, s := steps[..|steps| - 1], steps[|steps| - 1];
      LegalSplit(INITIAL, steps);
      CleanRunsAreSound(before);
      RunSessions(before);
      ExposedIsServing(before, s);
      StepKeepsSound(Run(INITIAL, before), s);
    }
  }

  lemma StepResolves(m: Ni, before: seq<Step>, s: Step)
    requires Agrees(m, before) && HeardAgrees(m, before) && Sessions(m) && Sound(m) && Enabled(m, s)
    ensures var f := Resolves(before, s);
            && Take(m, s).forwarded == m.forwarded + (if f.Some? && f.value.resp != IGNORE then [f.value] else [])
            && Take(m, s).ignored == m.ignored + (if f.Some? && f.value.resp == IGNORE then [f.value] else [])
            && (f.Some? ==> f.value.thread == f.value.id)
  {
  }

  /** What has left is what the history says, each by its own thread. */
  ghost predicate LogsResolved(m: Ni, steps: seq<Step>) {
    && m.forwarded == Forwarded(steps) && m.ignored == Ignored(steps)
    && forall f :: f in m.forwarded + m.ignored ==> f.thread == f.id
  }

  lemma StepKeepsResolved(m: Ni, before: seq<Step>, s: Step)
    requires LogsResolved(m, before)
    requires Agrees(m, before) && HeardAgrees(m, before) && Sessions(m) && Sound(m) && Enabled(m, s)
    ensures LogsResolved(Take(m, s), before + [s])
  {
    StepResolves(m, before, s);
    assert (before + [s])[..|before|] == before;
  }

  lemma {:induction false} RunResolved(steps: seq<Step>)
    requires Legal(INITIAL, steps) && Clean(steps)
    ensures LogsResolved(Run(INITIAL, steps), steps)
  {
    if steps != [] {
      var before, s := steps[..|steps| - 1], steps[|steps| - 1];
      assert steps == before + [s];
      LegalSplit(INITIAL, steps);
      RunResolved(before);
      RunAgrees(before);
      RunSessions(before);
      VerdictIsHeard(before);
      CleanRunsAreSound(before);
      StepKeepsResolved(Run(INITIAL, before), before, s);
    }
  }

  /** As long as no request is taken into a session with a thread left over, the modem is sent exactly what the user
      answered: each outstanding request is resolved by its own thread, with the latest answer addressed to it if the
      thread was woken and as unanswered if its time was up, and it is freed without a word when that answer is
      IGNORE. */
  lemma ResolvedAsHeard(steps: seq<Step>)
    requires Legal(INITIAL, steps) && Clean(steps)
    ensures var m := Run(INITIAL, steps);
            && m.forwarded == Forwarded(steps) && m.ignored == Ignored(steps)
            && (forall f :: f in m.forwarded + m.ignored ==> f.thread == f.id)
  {
    RunResolved(steps);
  }

  lemma NotYetHeard(steps: seq<Step>, s: Step, exit: Step)
    requires s.Request? && exit.Exit?
    ensures Heard(steps + [s] + [exit], Number(steps) + 1) == None
  {
    var taken := steps + [s];
    assert taken[..|steps|] == steps;
    assert (taken + [exit])[..|taken|] == taken;
    HeardFresh(steps, Number(steps) + 1);
  }

  /** And only then: whenever a request is taken into such a session, the next step can resolve it although no answer to
      it was heard, and without its own time being up. */
  lemma UncleanRunGoesWrong(steps: seq<Step>, w: Which, payload: Payload) returns (exit: Step, f: Resolved)
    requires Legal(INITIAL, steps) && Free(steps, w) && Serving(steps, w)
    ensures var all := steps + [Request(w, Some(payload))] + [exit];
            && exit == Exit(f.thread, f.timedOut) && Legal(INITIAL, all)
            && f in Run(INITIAL, all).forwarded + Run(INITIAL, all).ignored
            && f.id == Number(steps) + 1 && f.payload == payload && Heard(all, f.id) == None
            && (f.timedOut ==> f.thread != f.id)
  {
    var m, s := Run(INITIAL, steps), Request(w, Some(payload));
    RunSessions(steps);
    RunAgrees(steps);
    LeftOverIsServing(steps, w);
    LeftOversResolveRequest(m, w, payload);
    var after := Take(m, s);
    var t, timedOut :| t in after.threads && after.threads[t] == w && Enabled(after, Exit(t, timedOut))
                       && !Genuine(Resolution(after, t, timedOut));
    exit, f := Exit(t, timedOut), Resolution(after, t, timedOut);
    RunMore(INITIAL, steps, s);
    RunMore(INITIAL, steps + [s], exit);
    NotYetHeard(steps, s, exit);
    var n := Take(after, exit);
    assert f in if f.resp != IGNORE then n.forwarded else n.ignored;
  }

  /** Without an engine restart and without a null pointer from the modem every run is clean. */
  lemma {:induction false} WithoutRestartClean(steps: seq<Step>)
    requires Legal(INITIAL, steps) && Reset !in steps && forall w :: Request(w, None) !in steps
    ensures Clean(steps)
    ensures NothingLeftOver(Run(INITIAL, steps), Ordinary) && NothingLeftOver(Run(INITIAL, steps), Emergency)
  {
    if steps != [] {
      var before, s := steps[..|steps| - 1], steps[|steps| - 1];
      LegalSplit(INITIAL, steps);
      WithoutRestartClean(before);
      RunSessions(before);
      assert s in steps;
      StepLeavesNothingOver(Run(INITIAL, before), s);
      ExposedIsServing(before, s);
    }
  }

  /** In every reachable state: once the user responds to an outstanding request, its own thread can leave its wait, and
      then the modem is sent exactly that response, or nothing if it is IGNORE. */
  lemma ResponseIsForwarded(steps: seq<Step>, w: Which, response: Response)
    requires Legal(INITIAL, steps) && Open(steps, w).Some?
    ensures var Asked(id, payload) := Open(steps, w).value;
            var all := steps + [Respond(id, response)] + [Exit(id, false)];
            var f := Resolved(payload, id, response, id, false, Some(response));
            && Legal(INITIAL, all)
            && Run(INITIAL, all).forwarded == Run(INITIAL, steps).forwarded + (if response != IGNORE then [f] else [])
            && Run(INITIAL, all).ignored == Run(INITIAL, steps).ignored + (if response == IGNORE then [f] else [])
  {
    var id := Open(steps, w).value.id;
    RunAgrees(steps);
    RunSessions(steps);
    RunMore(INITIAL, steps, Respond(id, response));
    RunMore(INITIAL, steps + [Respond(id, response)], Exit(id, false));
  }

  /** An engine restart leaves nothing outstanding and wakes the threads of what was. */
  lemma RestartWakes(steps: seq<Step>, w: Which)
    requires Legal(INITIAL, steps) && Open(steps, w).Some?
    ensures Enabled(Run(INITIAL, steps), Reset)
    ensures Legal(INITIAL, steps + [Reset] + [Exit(Open(steps, w).value.id, false)])
    ensures Open(steps + [Reset], w) == None
  {
    RunAgrees(steps);
    RunSessions(steps);
    RunMore(INITIAL, steps, Reset);
    RunMore(INITIAL, steps + [Reset], Exit(Open(steps, w).value.id, false));
  }

  // ---------- where payloads go ----------

  function PayloadOf(open: Option<Asked>): seq<Payload> {
    if open.Some? then [open.value.payload] else []
  }

  /** The payloads of the requests that were taken. */
  function Accepted(steps: seq<Step>): seq<Payload> {
    if steps == [] then []
    else
      var before, s := steps[..|steps| - 1], steps[|steps| - 1];
      Accepted(before) + if s.Request? && Free(before, s.w) then Listed(s.payload) else []
  }

  /** The payloads of the requests that found a session busy. */
  function Rejected(steps: seq<Step>): seq<Payload> {
    if steps == [] then []
    else
      var before, s := steps[..|steps| - 1], steps[|steps| - 1];
      Rejected(before) + if s.Request? && Init in before && !Free(before, s.w) then Listed(s.payload) else []
  }

  /** The payloads that an engine restart found outstanding. */
  function Restarted(steps: seq<Step>): seq<Payload> {
    if steps == [] then []
    else
      var before, s := steps[..|steps| - 1], steps[|steps| - 1];
      Restarted(before)
      + if s == Reset then PayloadOf(Open(before, Emergency)) + PayloadOf(Open(before, Ordinary)) else []
  }

  lemma StepLogs(m: Ni, before: seq<Step>, s: Step)
    requires Agrees(m, before) && Sessions(m) && Enabled(m, s)
    ensures var n := Take(m, s);
            && n.accepted == m.accepted + (if s.Request? && Free(before, s.w) then Listed(s.payload) else [])
            && n.rejected == m.rejected
               + (if s.Request? && Init in before && !Free(before, s.w) then Listed(s.payload) else [])
            && n.restarted == m.restarted
               + (if s == Reset then PayloadOf(Open(before, Emergency)) + PayloadOf(Open(before, Ordinary)) else [])
  {
  }

  lemma {:induction false} LogsAgree(steps: seq<Step>)
    requires Legal(INITIAL, steps)
    ensures var m := Run(INITIAL, steps);
            m.accepted == Accepted(steps) && m.rejected == Rejected(steps) && m.restarted == Restarted(steps)
  {
    if steps != [] {
      var before := steps[..|steps| - 1];
      LegalSplit(INITIAL, steps);
      LogsAgree(before);
      RunAgrees(before);
      RunSessions(before);
      StepLogs(Run(INITIAL, before), before, steps[|steps| - 1]);
    }
  }

  /** Over every run, left-over threads included: each payload taken is outstanding, or was forwarded in one response,
      or freed as ignored, or freed by an engine restart. */
  lemma PayloadsConserved(steps: seq<Step>)
    requires Legal(INITIAL, steps)
    ensures var m := Run(INITIAL, steps);
            multiset(Accepted(steps))
            == multiset(PayloadOf(Open(steps, Ordinary))) + multiset(PayloadOf(Open(steps, Emergency)))
             + multiset(Payloads(m.forwarded)) + multiset(Payloads(m.ignored)) + multiset(Restarted(steps))
  {
    RunKeeps(INITIAL, steps);
    RunAgrees(steps);
    LogsAgree(steps);
  }
}
