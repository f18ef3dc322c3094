/** Muting one session (loc_eng.cpp): a request silences the reports of the next session, from its begin to
    its end. What the client is told otherwise depends on whether it is navigating itself. */
module MuteSession {
  import opened Options

  datatype Mute = MuteNone | MuteWait | MuteInSession

  datatype GpsStatus = StatusNone | SessionBegin | SessionEnd | EngineOn | EngineOff

  datatype LocEng = LocEng(mute: Mute, navigating: bool, engineStatus: GpsStatus, fixSessionStatus: GpsStatus)

  const INITIAL := LocEng(MuteNone, false, StatusNone, StatusNone)

  datatype FixStatus = Success | Intermediate | Failure

  /** A position report and what decides who hears of it: whether the client gave a callback, whether the
      technology is satellites, sensors or both, whether intermediate fixes are accepted, the accuracy if it is
      known with the threshold that is configured (0 for none), and whether sentences are generated for a fix
      that comes from satellite navigation. */
  datatype Fix = Fix(status: FixStatus, heard: bool, fromSatellites: bool, acceptsIntermediate: bool,
                     accuracy: Option<real>, threshold: real, sentences: bool)

  predicate TooInaccurate(f: Fix) {
    f.accuracy.Some? && f.threshold != 0.0 && f.accuracy.value > f.threshold
  }

  /** Whether the client wants the report. If intermediate fixes are accepted the technology does not matter. */
  predicate Wanted(f: Fix) {
    f.heard && (f.status == Failure || (f.status == Success && f.fromSatellites)
                || (f.acceptsIntermediate && !TooInaccurate(f)))
  }

  /** The handlers, with what they learn from outside: whether the modem accepts a start or a stop, and whether
      the client asked for a single fix. */
  datatype Event =
    | MuteRequest
    | Report(status: GpsStatus)
    | EngineDown
    | EngineUp(accepted: bool)
    | Start(accepted: bool)
    | Stop(accepted: bool)
    | Position(fix: Fix, single: bool)
    | Sv

  datatype Output =
    | Inform(status: GpsStatus)
    | PositionOut(located: bool)   // a failure is reported without a location
    | Sentences(generate: bool)    // loc_eng_nmea_generate_pos, for a fix or with blank sentences only
    | SvOut
    | StartFix
    | StopFix

  /** The session states of a status report, before anything is told. */
  function MuteAfter(m: Mute, status: GpsStatus): Mute {
    var entered := if (status == SessionBegin || status == EngineOn) && m == MuteWait then MuteInSession else m;
    if entered == MuteInSession && (status == SessionEnd || status == EngineOff) then MuteNone else entered
  }

  /** Whether the client would be told a status if nothing were muted. */
  predicate Relevant(status: GpsStatus, navigating: bool) {
    status != StatusNone && !(status == SessionEnd && navigating) && !(status == SessionBegin && !navigating)
  }

  function ReportStatus(s: LocEng, status: GpsStatus): (LocEng, seq<Output>) {
    var m := MuteAfter(s.mute, status);
    (LocEng(m, s.navigating,
            if status == EngineOn || status == EngineOff then status else s.engineStatus,
            if status == SessionBegin || status == SessionEnd then status else s.fixSessionStatus),
     if Relevant(status, s.navigating) && m != MuteInSession then [Inform(status)] else [])
  }

  function StartHandler(s: LocEng, accepted: bool): (LocEng, seq<Output>) {
    if s.navigating then (s, [])
    else if accepted then (s.(navigating := true), [StartFix, Inform(SessionBegin)])
    else (s, [StartFix])
  }

  function Step(s: LocEng, e: Event): (LocEng, seq<Output>) {
    match e
    case MuteRequest => (s.(mute := MuteWait), [])
    case Report(status) => ReportStatus(s, status)
    case EngineDown => ReportStatus(s, EngineOff)
    case EngineUp(accepted) =>
      var (t, out) := ReportStatus(s, EngineOn);
      if t.navigating then
        var (u, more) := StartHandler(t.(navigating := false), accepted);
        (u, out + more)
      else (t, out)
    case Start(accepted) => StartHandler(s, accepted)
    case Stop(accepted) =>
      if s.navigating then (s.(navigating := false), [StopFix] + if accepted then [Inform(SessionEnd)] else [])
      else (s, [])
    case Position(f, single) =>
      if s.mute == MuteInSession then (s, [])
      else
        var done := Wanted(f) && single;
        (if done then s.(navigating := false) else s,
         (if Wanted(f) then [PositionOut(f.status != Failure)] else [])
         + (if done && f.status == Intermediate then [StopFix] else [])
         + if f.sentences && f.fromSatellites then [Sentences(Wanted(f) && f.status != Failure)] else [])
    case Sv => (s, if s.mute == MuteInSession then [] else [SvOut])
  }

  function Run(events: seq<Event>): LocEng {
    if events == [] then INITIAL else Step(Run(events[..|events| - 1]), events[|events| - 1]).0
  }

  /** What event i makes the handlers tell and ask. */
  function OutputsAt(events: seq<Event>, i: nat): seq<Output>
    requires i < |events|
  {
    Step(Run(events[..i]), events[i]).1
  }

  // ---------- when a session is muted ----------

  predicate Begins(e: Event) {
    (e.Report? && (e.status == SessionBegin || e.status == EngineOn)) || e.EngineUp?
  }

  predicate Ends(e: Event) {
    (e.Report? && (e.status == SessionEnd || e.status == EngineOff)) || e.EngineDown?
  }

  /** Event r is the latest request. */
  predicate LastRequest(events: seq<Event>, r: nat) {
    r < |events| && events[r] == MuteRequest && forall k :: r < k < |events| ==> events[k] != MuteRequest
  }

  /** Event b is the first begin after r. */
  predicate FirstBegin(events: seq<Event>, r: nat, b: nat) {
    r < b < |events| && Begins(events[b]) && forall k :: r < k < b ==> !Begins(events[k])
  }

  predicate NoBeginSince(events: seq<Event>, r: nat) {
    forall k :: r < k < |events| ==> !Begins(events[k])
  }

  predicate NoEndSince(events: seq<Event>, b: nat) {
    forall k :: b < k < |events| ==> !Ends(events[k])
  }

  /** The latest request waits for a session to begin. */
  ghost predicate Waiting(events: seq<Event>) {
    exists r: nat :: LastRequest(events, r) && NoBeginSince(events, r)
  }

  /** The first session to begin after the latest request has not ended. */
  ghost predicate Muted(events: seq<Event>) {
    exists r: nat, b: nat :: LastRequest(events, r) && FirstBegin(events, r, b) && NoEndSince(events, b)
  }

  function MuteStep(m: Mute, e: Event): Mute {
    if e == MuteRequest then MuteWait
    else if Begins(e) && m == MuteWait then MuteInSession
    else if Ends(e) && m == MuteInSession then MuteNone
    else m
  }

  lemma StepMutes(s: LocEng, e: Event)
    ensures Step(s, e).0.mute == MuteStep(s.mute, e)
  {
  }

  lemma SoFar(events: seq<Event>, r: nat, b: nat)
    requires events != [] && events[|events| - 1] != MuteRequest
    ensures var n := |events| - 1; var before, e := events[..n], events[n];
            && (LastRequest(events, r) <==> LastRequest(before, r))
            && (r < n ==> (NoBeginSince(events, r) <==> NoBeginSince(before, r) && !Begins(e)))
            && (b < n ==> (FirstBegin(events, r, b) <==> FirstBegin(before, r, b)))
            && (b < n ==> (NoEndSince(events, b) <==> NoEndSince(before, b) && !Ends(e)))
            && (r < n ==> (FirstBegin(events, r, n) <==> NoBeginSince(before, r) && Begins(e)))
  {
    var n := |events| - 1;
    var before := events[..n];
    assert forall k :: 0 <= k < n ==> before[k] == events[k];
  }

  lemma WaitingStep(events: seq<Event>)
    requires events != []
    ensures var n := |events| - 1;
            Waiting(events) <==> events[n] == MuteRequest || (Waiting(events[..n]) && !Begins(events[n]))
  {
    var n := |events| - 1;
    var before, e := events[..n], events[n];
    if e == MuteRequest {
      assert LastRequest(events, n) && NoBeginSince(events, n);
    } else if r: nat :| LastRequest(events, r) && NoBeginSince(events, r) {
      SoFar(events, r, r);
    } else if r: nat :| LastRequest(before, r) && NoBeginSince(before, r) {
      SoFar(events, r, r);
    }
  }

  lemma MutedStep(events: seq<Event>)
    requires events != []
    ensures var n := |events| - 1; var e := events[n];
            Muted(events) <==>
              e != MuteRequest && ((Muted(events[..n]) && !Ends(e)) || (Waiting(events[..n]) && Begins(e)))
  {
    var n := |events| - 1;
    var before, e := events[..n], events[n];
    if r: nat, b: nat :| LastRequest(events, r) && FirstBegin(events, r, b) && NoEndSince(events, b) {
      assert e == MuteRequest ==> r == n;
      SoFar(events, r, b);
    } else if e != MuteRequest {
      if Muted(before) && !Ends(e) {
        var r: nat, b: nat :| LastRequest(before, r) && FirstBegin(before, r, b) && NoEndSince(before, b);
        SoFar(events, r, b);
      } else if Waiting(before) && Begins(e) {
        var r: nat :| LastRequest(before, r) && NoBeginSince(before, r);
        SoFar(events, r, n);
      }
    }
  }

  /** Over any run, with any number of requests: a session is muted from the first begin after the latest
      request until the first end after that. */
  lemma {:induction false} MutedExactly(events: seq<Event>)
    ensures Run(events).mute == MuteWait <==> Waiting(events)
    ensures Run(events).mute == MuteInSession <==> Muted(events)
  {
    if events != [] {
      var n := |events| - 1;
      MutedExactly(events[..n]);
      StepMutes(Run(events[..n]), events[n]);
      WaitingStep(events);
      MutedStep(events);
    }
  }

  // ---------- what is silenced ----------

  /** What a report tells about itself: its status, a position, satellites. */
  predicate Reports(e: Event, o: Output) {
    match e
    case Report(status) => o == Inform(status)
    case EngineDown => o == Inform(EngineOff)
    case EngineUp(_) => o == Inform(EngineOn)
    case Position(f, _) => o == PositionOut(f.status != Failure)
    case Sv => o == SvOut
    case _ => false
  }

  /** Whether a report is told at all when nothing is muted. */
  predicate Told(e: Event, navigating: bool) {
    match e
    case Report(status) => Relevant(status, navigating)
    case Position(f, _) => Wanted(f)
    case EngineDown | EngineUp(_) | Sv => true
    case _ => false
  }

  predicate IsReport(e: Event) {
    e.Report? || e.EngineDown? || e.EngineUp? || e.Position? || e.Sv?
  }

  /** A report is kept from the client exactly while a session is muted, the begin report itself
      included and the end report not. */
  lemma SilencedExactly(events: seq<Event>, i: nat)
    requires i < |events| && IsReport(events[i])
    ensures (exists o :: o in OutputsAt(events, i) && Reports(events[i], o))
       <==> Told(events[i], Run(events[..i]).navigating) && !Muted(events[..i + 1])
  {
    var s, e := Run(events[..i]), events[i];
    MutedExactly(events[..i + 1]);
    assert events[..i + 1][..i] == events[..i];
    StepMutes(s, e);
    var out := OutputsAt(events, i);
    if Told(e, s.navigating) && !Muted(events[..i + 1]) {
      assert out != [] && Reports(e, out[0]);
    }
  }

  /** Nor are sentences generated for a position while a session is muted; otherwise they are generated for every
      fix from satellites, for real if the client was given the fix. */
  lemma SentencesExactly(events: seq<Event>, i: nat, generate: bool)
    requires i < |events| && events[i].Position?
    ensures var f := events[i].fix;
            Sentences(generate) in OutputsAt(events, i)
            <==> !Muted(events[..i]) && f.sentences && f.fromSatellites
                 && generate == (Wanted(f) && f.status != Failure)
  {
    MutedExactly(events[..i]);
  }

  /** With a single request, at r, the reports kept from the client are those from the first begin after it
      to the first end after that. */
  lemma MutesOneSession(events: seq<Event>, r: nat, i: nat)
    requires r < |events| && i < |events| && IsReport(events[i])
    requires forall k :: 0 <= k < |events| ==> (events[k] == MuteRequest <==> k == r)
    ensures Told(events[i], Run(events[..i]).navigating) ==>
      ((forall o :: o in OutputsAt(events, i) ==> !Reports(events[i], o)) <==>
       exists b: nat :: b <= i && FirstBegin(events, r, b) && forall k :: b < k <= i ==> !Ends(events[k]))
  {
    SilencedExactly(events, i);
    var sofar := events[..i + 1];
    assert forall k :: 0 <= k <= i ==> sofar[k] == events[k];
    if Muted(sofar) {
      var q: nat, b: nat :| LastRequest(sofar, q) && FirstBegin(sofar, q, b) && NoEndSince(sofar, b);
      assert q == r && b <= i && FirstBegin(events, r, b);
    }
    if b: nat :| b <= i && FirstBegin(events, r, b) && forall k :: b < k <= i ==> !Ends(events[k]) {
      assert LastRequest(sofar, r) && FirstBegin(sofar, r, b) && NoEndSince(sofar, b);
    }
  }

  /** The client's own start and stop are told to it whether a session is muted or not. */
  lemma OwnSessionsAreTold(s: LocEng, e: Event, m: Mute)
    requires e.Start? || e.Stop?
    ensures Step(s, e).1 == Step(s.(mute := m), e).1
    ensures e.accepted && (e.Start? <==> !s.navigating) ==>
      Inform(if e.Start? then SessionBegin else SessionEnd) in Step(s, e).1
  {
  }

  // ---------- what else is known of the session ----------

  /** The status that a report brings. */
  function StatusOf(e: Event): GpsStatus {
    match e
    case Report(status) => status
    case EngineDown => EngineOff
    case EngineUp(_) => EngineOn
    case _ => StatusNone
  }

  predicate OfEngine(e: Event) {
    StatusOf(e) == EngineOn || StatusOf(e) == EngineOff
  }

  predicate OfFix(e: Event) {
    StatusOf(e) == SessionBegin || StatusOf(e) == SessionEnd
  }

  /** Nothing has been reported so far. */
  lemma {:induction false} NoStatusYet(events: seq<Event>)
    ensures (forall k :: 0 <= k < |events| ==> !OfEngine(events[k])) ==> Run(events).engineStatus == StatusNone
    ensures (forall k :: 0 <= k < |events| ==> !OfFix(events[k])) ==> Run(events).fixSessionStatus == StatusNone
  {
    if events != [] {
      NoStatusYet(events[..|events| - 1]);
    }
  }

  /** Over any run, muted or not: the engine status is the latest on or off reported, and the fix session
      status the latest begin or end. */
  lemma {:induction false} StatusesAreLatest(events: seq<Event>, i: nat)
    requires i < |events|
    ensures OfEngine(events[i]) && (forall k :: i < k < |events| ==> !OfEngine(events[k])) ==>
              Run(events).engineStatus == StatusOf(events[i])
    ensures OfFix(events[i]) && (forall k :: i < k < |events| ==> !OfFix(events[k])) ==>
              Run(events).fixSessionStatus == StatusOf(events[i])
  {
    var n := |events| - 1;
    if i < n {
      StatusesAreLatest(events[..n], i);
    }
  }

  /** Event k ends the client's own session: a stop, a restart that the modem does not accept, or a fix
      reported to a client that wants a single one. */
  predicate Closes(events: seq<Event>, k: nat) {
    k < |events| &&
    match events[k]
    case Stop(_) => true
    case EngineUp(accepted) => !accepted
    case Position(f, single) => Wanted(f) && single && Run(events[..k]).mute != MuteInSession
    case _ => false
  }

  predicate Opened(events: seq<Event>, i: nat) {
    i < |events| && events[i] == Start(true) && forall k: nat :: i < k < |events| ==> !Closes(events, k)
  }

  /** Over any run the client is navigating exactly if a start was accepted and nothing ended the session
      since; an engine restart in between is bridged, and a muted fix does not end a single-shot session. */
  lemma {:induction false} NavigatingExactly(events: seq<Event>)
    ensures Run(events).navigating <==> exists i: nat :: Opened(events, i)
  {
    if events != [] {
      var n := |events| - 1;
      var before := events[..n];
      NavigatingExactly(before);
      forall k: nat | k < n ensures Closes(events, k) <==> Closes(before, k) {
        assert events[..k] == before[..k];
      }
      forall i: nat | i < n ensures Opened(events, i) <==> Opened(before, i) && !Closes(events, n) {
        assert events[i] == before[i];
      }
      if events[n] == Start(true) {
        assert Opened(events, n);
      } else if Run(before).navigating {
        var i: nat :| Opened(before, i);
        assert !Closes(events, n) ==> Opened(events, i);
      }
    }
  }

  // ---------- every call ----------

  /** What makes the client want a report: every failure; a fix from satellites; and an intermediate or another fix,
      if intermediate ones are accepted and it is accurate enough or its accuracy does not matter. */
  lemma WantedByStatus(f: Fix, accurate: bool)
    requires accurate <==> f.accuracy.None? || f.threshold == 0.0 || f.accuracy.value <= f.threshold
    ensures Wanted(f) ==> f.heard
    ensures f.heard && f.status == Failure ==> Wanted(f)
    ensures f.heard && f.status == Success ==> (Wanted(f) <==> f.fromSatellites || (f.acceptsIntermediate && accurate))
    ensures f.heard && f.status == Intermediate ==> (Wanted(f) <==> f.acceptsIntermediate && accurate)
  {
  }

  /** The client asks for a session that it does not have, or its session is restarted with the engine. */
  predicate Starts(e: Event, navigating: bool) {
    (e.Start? && !navigating) || (e.EngineUp? && navigating)
  }

  /** When event e makes a call, given whether the client is navigating and whether a session is muted before and
      after the event. */
  predicate Due(e: Event, navigating: bool, before: bool, after: bool, o: Output) {
    match o
    case Inform(status) =>
      || (status == StatusOf(e) && status != StatusNone && !after
          && (status == SessionBegin ==> navigating) && (status == SessionEnd ==> !navigating))
      || (status == SessionBegin && Starts(e, navigating) && e.accepted)
      || (status == SessionEnd && e == Stop(true) && navigating)
    case StartFix => Starts(e, navigating)
    case StopFix =>
      || (e.Stop? && navigating)
      || (e.Position? && !before && Wanted(e.fix) && e.single && e.fix.status == Intermediate)
    case PositionOut(located) => e.Position? && !before && Wanted(e.fix) && (located <==> e.fix.status != Failure)
    case Sentences(generate) =>
      e.Position? && !before && e.fix.sentences && e.fix.fromSatellites
      && (generate <==> Wanted(e.fix) && e.fix.status != Failure)
    case SvOut => e == Sv && !before
  }

  /** The order of the calls of one event: the report itself, then what is asked of the modem, then the client's own
      session, then the sentences. */
  function Rank(o: Output): nat {
    match o
    case StartFix => 1
    case StopFix => 1
    case Inform(SessionBegin) => 2
    case Inform(SessionEnd) => 2
    case Sentences(_) => 3
    case _ => 0
  }

  lemma StepCalls(s: LocEng, e: Event, o: Output)
    ensures var (t, out) := Step(s, e);
            o in out <==> Due(e, s.navigating, s.mute == MuteInSession, t.mute == MuteInSession, o)
  {
    var out := Step(s, e).1;
    assert |out| <= 3;
    assert o in out <==> (|out| > 0 && o == out[0]) || (|out| > 1 && o == out[1]) || (|out| > 2 && o == out[2]);
  }

  lemma StepRanks(s: LocEng, e: Event)
    ensures var out := Step(s, e).1; forall j, k :: 0 <= j < k < |out| ==> Rank(out[j]) < Rank(out[k])
  {
  }

  /** Over any run: each call of an event is made, once and in that order, exactly if it is due. */
  lemma CallsExactly(events: seq<Event>, i: nat, o: Output)
    requires i < |events|
    ensures o in OutputsAt(events, i)
       <==> Due(events[i], exists k: nat :: Opened(events[..i], k), Muted(events[..i]), Muted(events[..i + 1]), o)
    ensures var out := OutputsAt(events, i); forall j, k :: 0 <= j < k < |out| ==> Rank(out[j]) < Rank(out[k])
  {
    StepCalls(Run(events[..i]), events[i], o);
    StepRanks(Run(events[..i]), events[i]);
    MutedExactly(events[..i]);
    MutedExactly(events[..i + 1]);
    NavigatingExactly(events[..i]);
    assert events[..i + 1][..i] == events[..i];
  }

  // ---------- the engine ----------

  lemma RunNext(events: seq<Event>, e: Event)
    ensures Run(events + [e]) == Step(Run(events), e).0
  {
    assert (events + [e])[..|events|] == events;
  }

  /** loc_eng_data_s_type, as far as sessions are concerned. */
  class LocEngine {
    var muteSessionState: Mute
    var inSession: bool
    var engineStatus: GpsStatus
    var fixSessionStatus: GpsStatus
    var outputs: seq<Output>
    ghost var events: seq<Event>  // every event so far

    function Value(): LocEng
      reads this
    {
      LocEng(muteSessionState, inSession, engineStatus, fixSessionStatus)
    }

    ghost predicate Valid()
      reads this
    {
      Value() == Run(events)
    }

    /** So a session is muted exactly as the requests and reports so far demand. */
    lemma MutesWhatWasAsked()
      requires Valid()
      ensures muteSessionState == MuteInSession <==> Muted(events)
    {
      MutedExactly(events);
    }

    constructor ()
      ensures Valid() && outputs == [] && events == []
    {
      muteSessionState, inSession, engineStatus, fixSessionStatus, outputs, events :=
        MuteNone, false, StatusNone, StatusNone, [], [];
    }

    /** An event that was just handled joins the run. */
    ghost method Handled(s: LocEng, e: Event)
      requires s == Run(events) && Value() == Step(s, e).0
      modifies `events
      ensures Valid() && events == old(events) + [e]
    {
      RunNext(events, e);
      events := events + [e];
    }

    method Tell(o: Output)
      modifies `outputs
      ensures outputs == old(outputs) + [o]
    {
      outputs := outputs + [o];
    }

    method MuteOneSession()
      requires Valid()
      modifies this
      ensures Valid() && events == old(events) + [MuteRequest] && outputs == old(outputs)
    {
      ghost var s := Value();
      muteSessionState := MuteWait;
      Handled(s, MuteRequest);
    }

    /** loc_eng_report_status. */
    method TellStatus(status: GpsStatus)
      modifies `muteSessionState, `engineStatus, `fixSessionStatus, `outputs
      ensures var (s, out) := ReportStatus(old(Value()), status); Value() == s && outputs == old(outputs) + out
    {
      if status == SessionBegin || status == EngineOn {
        if muteSessionState == MuteWait {
          muteSessionState := MuteInSession;
        }
      }
      if muteSessionState == MuteInSession && (status == SessionEnd || status == EngineOff) {
        muteSessionState := MuteNone;
      }
      var navigating := inSession;
      if status != StatusNone && !(status == SessionEnd && navigating) && !(status == SessionBegin && !navigating) {
        if muteSessionState != MuteInSession {
          Tell(Inform(status));
        }
      }
      if status == EngineOn || status == EngineOff {
        engineStatus := status;
      }
      if status == SessionBegin || status == SessionEnd {
        fixSessionStatus := status;
      }
    }

    /** loc_eng_start_handler. */
    method TryStart(accepted: bool)
      modifies `inSession, `outputs
      ensures var (s, out) := StartHandler(old(Value()), accepted); Value() == s && outputs == old(outputs) + out
    {
      if !inSession {
        Tell(StartFix);
        if accepted {
          inSession := true;
          Tell(Inform(SessionBegin));
        }
      }
    }

    method Report(status: GpsStatus)
      requires Valid()
      modifies this
      ensures Valid() && events == old(events) + [Event.Report(status)]
      ensures outputs == old(outputs) + Step(old(Value()), Event.Report(status)).1
    {
      ghost var s := Value();
      TellStatus(status);
      Handled(s, Event.Report(status));
    }

    method StartFixing(accepted: bool)
      requires Valid()
      modifies this
      ensures Valid() && events == old(events) + [Start(accepted)]
      ensures outputs == old(outputs) + Step(old(Value()), Start(accepted)).1
    {
      ghost var s := Value();
      TryStart(accepted);
      Handled(s, Start(accepted));
    }

    method StopFixing(accepted: bool)
      requires Valid()
      modifies this
      ensures Valid() && events == old(events) + [Stop(accepted)]
      ensures outputs == old(outputs) + Step(old(Value()), Stop(accepted)).1
    {
      ghost var s := Value();
      if inSession {
        Tell(StopFix);
        if accepted {
          Tell(Inform(SessionEnd));
        }
        inSession := false;
      }
      Handled(s, Stop(accepted));
    }

    method HandleEngineUp(accepted: bool)
      requires Valid()
      modifies this
      ensures Valid() && events == old(events) + [EngineUp(accepted)]
      ensures outputs == old(outputs) + Step(old(Value()), EngineUp(accepted)).1
    {
      ghost var s := Value();
      TellStatus(EngineOn);
      if inSession {
        inSession := false;
        TryStart(accepted);
      }
      Handled(s, EngineUp(accepted));
    }

    method HandleEngineDown()
      requires Valid()
      modifies this
      ensures Valid() && events == old(events) + [EngineDown]
      ensures outputs == old(outputs) + Step(old(Value()), EngineDown).1
    {
      ghost var s := Value();
      TellStatus(EngineOff);
      Handled(s, EngineDown);
    }

    /** The body of the position handler, when nothing is muted. */
    method PassOn(f: Fix, single: bool)
      requires muteSessionState != MuteInSession
      modifies `inSession, `outputs
      ensures var (s, out) := Step(old(Value()), Position(f, single)); Value() == s && outputs == old(outputs) + out
    {
      var reported := false;
      if f.heard {
        if f.status == Failure {
          Tell(PositionOut(false));
          reported := true;
        } else if (f.status == Success && f.fromSatellites) || (f.acceptsIntermediate && !TooInaccurate(f)) {
          Tell(PositionOut(true));
          reported := true;
        }
      }
      if reported && single {
        if f.status == Intermediate {
          Tell(StopFix);
        }
        inSession := false;
      }
      if f.sentences && f.fromSatellites {
        Tell(Sentences(reported && f.status != Failure));
      }
    }

    method ReportPosition(f: Fix, single: bool)
      requires Valid()
      modifies this
      ensures Valid() && events == old(events) + [Position(f, single)]
      ensures outputs == old(outputs) + Step(old(Value()), Position(f, single)).1
    {
      ghost var s := Value();
      if muteSessionState != MuteInSession {
        PassOn(f, single);
      }
      Handled(s, Position(f, single));
    }

    method ReportSv()
      requires Valid()
      modifies this
      ensures Valid() && events == old(events) + [Sv] && outputs == old(outputs) + Step(old(Value()), Sv).1
    {
      ghost var s := Value();
      if muteSessionState != MuteInSession {
        Tell(SvOut);
      }
      Handled(s, Sv);
    }
  }
}
