/** The two NI sessions as objects whose fields the handlers and the timer threads update. An object keeps
    the run of NiModel that it has made, so what is proved of all runs holds of every object. */
module NiEngine {
  import opened Options
  import opened NiHistory
  import opened NiModel

  class NiSession {
    var rawRequest: Option<Payload>
    var reqID: nat
    var resp: Response
    var respRecvd: bool
    ghost var verdict: Option<Response>

    constructor ()
      ensures Model() == FREE
    {
      rawRequest, reqID, resp, respRecvd, verdict := None, 0, 0, false, None;
    }

    ghost function Model(): Session
      reads this
    {
      Session(rawRequest, reqID, resp, respRecvd, verdict)
    }

    method Init()
      modifies this
      ensures Model() == FREE.(resp := old(resp))
    {
      rawRequest, reqID, respRecvd, verdict := None, 0, false, None;
    }

    /** Notes an answer and signals the timer thread. */
    method NoteAnswer(response: Response)
      modifies this
      ensures Model() == Answer(old(Model()), response)
    {
      resp, respRecvd, verdict := response, true, Some(response);
    }

    /** Frees what the modem asked before it died, and wakes the timer thread. */
    method ResetOnRestart() returns (freed: seq<Payload>)
      modifies this
      ensures Model() == ResetSession(old(Model())) && freed == Listed(old(rawRequest))
    {
      freed := Listed(rawRequest);
      if rawRequest.Some? {
        rawRequest, respRecvd := None, true;
      }
    }
  }

  /** The steps lead from the initial state to m, and m is as every reachable state. */
  ghost predicate Reached(steps: seq<Step>, m: Ni) {
    Legal(INITIAL, steps) && Run(INITIAL, steps) == m && Conserved(m) && Sessions(m)
  }

  lemma ReachedMore(steps: seq<Step>, m: Ni, s: Step)
    requires Reached(steps, m) && Enabled(m, s)
    ensures Reached(steps + [s], Take(m, s))
  {
    StepConserves(m, s);
    StepKeepsSessions(m, s);
    RunMore(INITIAL, steps, s);
  }

  class NiData {
    const session: NiSession
    const sessionEs: NiSession
    var inited: bool
    var reqIDCounter: nat
    var threads: map<nat, Which>
    ghost var accepted: seq<Payload>
    ghost var forwarded: seq<Resolved>
    ghost var ignored: seq<Resolved>
    ghost var restarted: seq<Payload>
    ghost var rejected: seq<Payload>
    ghost var taken: seq<Step>  // every step since the object was made

    ghost function Model(): Ni
      reads this, session, sessionEs
    {
      Ni(inited, session.Model(), sessionEs.Model(), reqIDCounter, threads,
         accepted, forwarded, ignored, restarted, rejected)
    }

    ghost predicate Valid()
      reads this, session, sessionEs
    {
      session != sessionEs && Reached(taken, Model())
    }

    constructor ()
      ensures Valid() && Model() == INITIAL && taken == []
    {
      session := new NiSession();
      sessionEs := new NiSession();
      inited, reqIDCounter, threads := false, 0, map[];
      accepted, forwarded, ignored, restarted, rejected, taken := [], [], [], [], [], [];
    }

    /** A step that was just taken joins the run. */
    ghost method Took(m: Ni, s: Step)
      requires session != sessionEs && Reached(taken, m)
      requires Enabled(m, s) && Model() == Take(m, s)
      modifies `taken
      ensures Valid() && Model() == Take(m, s) && taken == old(taken) + [s]
    {
      ReachedMore(taken, m, s);
      taken := taken + [s];
      assert Model() == Take(m, s);
    }

    /** Whatever has happened, this object holds the requests that the calls left outstanding. */
    lemma HoldsWhatIsOpen()
      requires Valid()
      ensures Outstanding(session.Model()) == Open(taken, Ordinary)
      ensures Outstanding(sessionEs.Model()) == Open(taken, Emergency)
      ensures reqIDCounter == Number(taken) && (inited <==> NiModel.Init in taken)
      ensures accepted == Accepted(taken) && rejected == Rejected(taken) && restarted == Restarted(taken)
    {
      RunAgrees(taken);
      LogsAgree(taken);
    }

    /** And it has sent the modem exactly what the user answered, unless a request was taken into a session with a
        thread left over. */
    lemma ResolvesAsHeard()
      requires Valid() && Clean(taken)
      ensures forwarded == Forwarded(taken) && ignored == Ignored(taken)
    {
      ResolvedAsHeard(taken);
    }

    method Init()
      requires Valid()
      modifies this, session, sessionEs
      ensures Valid() && Model() == Take(old(Model()), NiModel.Init) && taken == old(taken) + [NiModel.Init]
    {
      ghost var m := Model();
      if !inited {
        sessionEs.Init();
        session.Init();
        inited := true;
      }
      Took(m, NiModel.Init);
    }

    /** A busy session rejects the request; another takes it and starts a timer thread. */
    method TakeRequest(emergency: bool, passThrough: Option<Payload>)
      requires session != sessionEs && inited
      modifies `reqIDCounter, `threads, `accepted, `rejected, session, sessionEs
      ensures Model() == OnRequest(old(Model()), if emergency then Emergency else Ordinary, passThrough)
    {
      var pSession: NiSession? := null;
      if emergency {
        if sessionEs.rawRequest.Some? {
          rejected := rejected + Listed(passThrough);
        } else {
          pSession := sessionEs;
        }
      } else {
        if session.rawRequest.Some? || sessionEs.rawRequest.Some? {
          rejected := rejected + Listed(passThrough);
        } else {
          pSession := session;
        }
      }
      if pSession != null {
        pSession.rawRequest := passThrough;
        pSession.verdict := None;
        reqIDCounter := reqIDCounter + 1;
        pSession.reqID := reqIDCounter;
        threads := threads[reqIDCounter := if emergency then Emergency else Ordinary];
        accepted := accepted + Listed(passThrough);
      }
    }

    method RequestHandler(emergency: bool, passThrough: Option<Payload>)
      requires Valid()
      modifies this, session, sessionEs
      ensures var s := Request(if emergency then Emergency else Ordinary, passThrough);
              Valid() && Model() == Take(old(Model()), s) && taken == old(taken) + [s]
    {
      ghost var m := Model();
      if inited {
        TakeRequest(emergency, passThrough);
      }
      Took(m, Request(if emergency then Emergency else Ordinary, passThrough));
    }

    method Respond(notifId: int, response: Response)
      requires Valid()
      modifies `taken, session, sessionEs
      ensures var s := NiModel.Respond(notifId, response);
              Valid() && Model() == Take(old(Model()), s) && taken == old(taken) + [s]
    {
      ghost var m := Model();
      if inited {
        var pSession: NiSession? := null;
        if notifId == sessionEs.reqID && sessionEs.rawRequest.Some? {
          pSession := sessionEs;
          if response == ACCEPT && session.rawRequest.Some? {
            session.NoteAnswer(IGNORE);
          }
        } else if notifId == session.reqID && session.rawRequest.Some? {
          pSession := session;
        }
        if pSession != null {
          pSession.NoteAnswer(response);
        }
      }
      Took(m, NiModel.Respond(notifId, response));
    }

    method ResetOnEngineRestart()
      requires Valid()
      modifies this, session, sessionEs
      ensures Valid() && Model() == Take(old(Model()), Reset) && taken == old(taken) + [Reset]
    {
      ghost var m := Model();
      if inited {
        var freedEs := sessionEs.ResetOnRestart();
        var freed := session.ResetOnRestart();
        restarted := restarted + freedEs + freed;
      }
      Took(m, Reset);
    }

    /** Resolves what is outstanding and frees the session. */
    method Leave(thread: nat, timedOut: bool)
      requires session != sessionEs && Enabled(Model(), Exit(thread, timedOut))
      modifies `threads, `forwarded, `ignored, session, sessionEs
      ensures Model() == OnExit(old(Model()), thread, timedOut)
    {
      ghost var m := Model();
      var pSession := if threads[thread] == Ordinary then session else sessionEs;
      threads := threads - {thread};
      if timedOut {
        pSession.resp := NORESP;
      }
      pSession.respRecvd := false;
      if pSession.rawRequest.Some? {
        if pSession.resp != IGNORE {
          forwarded := forwarded + [Resolution(m, thread, timedOut)];
        } else {
          ignored := ignored + [Resolution(m, thread, timedOut)];
        }
        pSession.rawRequest := None;
      }
      pSession.reqID := 0;
    }

    /** The end of ni_thread_proc, from the return of the last timed wait on. */
    method LeaveWait(thread: nat, timedOut: bool)
      requires Valid() && Enabled(Model(), Exit(thread, timedOut))
      modifies this, session, sessionEs
      ensures Valid() && Model() == Take(old(Model()), Exit(thread, timedOut))
      ensures taken == old(taken) + [Exit(thread, timedOut)]
    {
      ghost var m := Model();
      Leave(thread, timedOut);
      Took(m, Exit(thread, timedOut));
    }
  }
}
