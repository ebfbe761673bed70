/** The report gate of `handle_message`: the process-wide set of reported
    sessions, the guard that decides whether a turn sends the final report,
    and the order of the send and of the update of the set. */
module Gate {
  import opened Text
  import opened Classifier
  import opened Extractor
  import opened Report

  /** A turn must come after at least this many history messages to report. */
  const MinHistory: nat := 3

  /** One call of `handle_message`, reduced to what the gate looks at. */
  datatype Turn = Turn(sessionId: string, text: string, historyLen: nat)

  /** How a turn ends: with a reply, or with the exception the callback raised. */
  datatype TurnOutcome = Replied(response: Response) | CallbackRaised

  /** A turn once `handle_message` has classified its text and extracted
      from it: what the guarded block works with. */
  datatype Assessed = Assessed(sessionId: string, historyLen: nat, scamDetected: bool, intelligence: Intelligence)

  function Assess(turn: Turn): Assessed {
    Assessed(turn.sessionId, turn.historyLen, IsItAScam(turn.text), ExtractInfo(turn.text))
  }

  /** An assessed turn that passes the guard when its session is not yet reported. */
  predicate Reportable(a: Assessed) {
    a.historyLen >= MinHistory && a.scamDetected
  }

  /** The report an assessed turn sends. */
  function ReportOf(a: Assessed): Payload {
    BuildPayload(a.sessionId, a.intelligence, a.historyLen + 1)
  }

  /** What the guarded block does, as a value: the new set of reported
      sessions, the report it tried to send, and whether its POST returned. */
  datatype Gated = Gated(reported: set<string>, sent: Option<Payload>, returned: bool)

  /** The guarded block against the set `reported`, where `postRaises` says
      whether the callback's POST raises. */
  function GateStep(reported: set<string>, a: Assessed, postRaises: bool): (g: Gated)
    ensures g.sent.Some? <==> a.historyLen >= MinHistory && a.sessionId !in reported && a.scamDetected
    ensures g.sent.Some? ==> g.sent.value == ReportOf(a)
    ensures g.returned <==> g.sent.Some? && !postRaises
    ensures g.reported == if g.returned then reported + {a.sessionId} else reported
  {
    if a.sessionId !in reported && Reportable(a) then
      var p := ReportOf(a);
      if postRaises then Gated(reported, Some(p), false)
      else Gated(reported + {a.sessionId}, Some(p), true)
    else Gated(reported, None, false)
  }

  /** What one turn does, as a value: the guarded block's effect and the outcome. */
  datatype Step = Step(reported: set<string>, sent: Option<Payload>, returned: bool, outcome: TurnOutcome)

  /** One turn of `handle_message` against the set `reported`: it reports
      when the history is long enough, the session is new and the text is a
      scam; the session joins the set only when the POST returned; and the
      turn fails when the POST raised. */
  function TurnStep(reported: set<string>, turn: Turn, postRaises: bool): (s: Step)
    ensures s.sent.Some? <==>
      turn.historyLen >= MinHistory && turn.sessionId !in reported && IsItAScam(turn.text)
    ensures s.sent.Some? ==>
      s.sent.value == BuildPayload(turn.sessionId, ExtractInfo(turn.text), turn.historyLen + 1)
    ensures s.returned <==> s.sent.Some? && !postRaises
    ensures s.reported == if s.returned then reported + {turn.sessionId} else reported
    ensures s.outcome == if s.sent.Some? && postRaises then CallbackRaised
                         else Replied(BuildResponse(turn.text, turn.historyLen))
  {
    var g := GateStep(reported, Assess(turn), postRaises);
    Step(g.reported, g.sent, g.returned,
      if g.sent.Some? && postRaises then CallbackRaised else Replied(BuildResponse(turn.text, turn.historyLen)))
  }

  /** The sessions of a list of reports. */
  ghost function SessionsOf(ps: seq<Payload>): set<string> {
    if ps == [] then {} else SessionsOf(ps[..|ps| - 1]) + {ps[|ps| - 1].sessionId}
  }

  /** Each report of the list is for a session no earlier report was for. */
  ghost predicate OncePerSession(ps: seq<Payload>) {
    ps == [] ||
    (OncePerSession(ps[..|ps| - 1]) && ps[|ps| - 1].sessionId !in SessionsOf(ps[..|ps| - 1]))
  }

  /** The module-level state of the service: `reported_sessions`, with the
      reports the callback was asked to send and those whose POST returned. */
  class ReportGate {
    var reportedSessions: set<string>
    ghost var sent: seq<Payload>
    ghost var returned: seq<Payload>

    /** A session is marked reported exactly when the POST of its report
        returned, and no session's POST returned twice. */
    ghost predicate Valid()
      reads this
    {
      reportedSessions == SessionsOf(returned) && OncePerSession(returned)
    }

    constructor ()
      ensures Valid()
      ensures reportedSessions == {} && sent == [] && returned == []
    {
      reportedSessions := {};
      sent := [];
      returned := [];
    }

    /** `send_final_report`: builds the payload and posts it. The POST is the
        effect `postRaises`; the report is recorded as sent either way, and
        in the log of returned POSTs only when the POST does not raise. */
    method SendFinalReport(sessionId: string, intel: Intelligence, totalMsgs: int, postRaises: bool)
      returns (raised: bool)
      modifies this`sent, this`returned
      ensures raised == postRaises
      ensures sent == old(sent) + [BuildPayload(sessionId, intel, totalMsgs)]
      ensures returned == if raised then old(returned)
                           else old(returned) + [BuildPayload(sessionId, intel, totalMsgs)]
    {
      var payload := BuildPayload(sessionId, intel, totalMsgs);
      sent := sent + [payload];
      raised := postRaises;
      if !raised {
        returned := returned + [payload];
      }
    }

    /** The guarded block of `handle_message`: send the report, and add the
        session to the set only once the send has returned. */
    method ReportAndMark(sessionId: string, intel: Intelligence, totalMsgs: int, postRaises: bool)
      returns (raised: bool)
      requires Valid() && sessionId !in reportedSessions
      modifies this
      ensures Valid()
      ensures raised == postRaises
      ensures sent == old(sent) + [BuildPayload(sessionId, intel, totalMsgs)]
      ensures reportedSessions == if raised then old(reportedSessions)
                                  else old(reportedSessions) + {sessionId}
      ensures returned == if raised then old(returned)
                           else old(returned) + [BuildPayload(sessionId, intel, totalMsgs)]
    {
      raised := SendFinalReport(sessionId, intel, totalMsgs, postRaises);
      if !raised {
        ReturnKeepsOnce(old(returned), BuildPayload(sessionId, intel, totalMsgs), reportedSessions);
        reportedSessions := reportedSessions + {sessionId};
      }
    }

    /** `handle_message` after the key check: classify, extract, and when the
        guard holds send the report and only then mark the session. */
    method HandleTurn(sessionId: string, text: string, historyLen: nat, postRaises: bool)
      returns (out: TurnOutcome)
      requires Valid()
      modifies this
      ensures Valid()
      ensures var s := TurnStep(old(reportedSessions), Turn(sessionId, text, historyLen), postRaises);
        reportedSessions == s.reported && out == s.outcome &&
        sent == old(sent) + (if s.sent.Some? then [s.sent.value] else []) &&
        returned == old(returned) + (if s.returned then [s.sent.value] else [])
    {
      var scamDetected := IsItAScam(text);
      var intelligence := ExtractInfo(text);
      if historyLen >= MinHistory && sessionId !in reportedSessions {
        if scamDetected {
          StepSends(reportedSessions, sessionId, text, historyLen, postRaises);
          var raised := ReportAndMark(sessionId, intelligence, historyLen + 1, postRaises);
          if raised {
            return CallbackRaised;
          }
        }
      }
      out := Replied(BuildResponse(text, historyLen));
    }
  }

  /** A turn that passes the guard sends the report built from its own
      extraction and count. */
  lemma StepSends(reported: set<string>, sessionId: string, text: string, historyLen: nat, postRaises: bool)
    requires historyLen >= MinHistory && sessionId !in reported && IsItAScam(text)
    ensures TurnStep(reported, Turn(sessionId, text, historyLen), postRaises).sent
      == Some(BuildPayload(sessionId, ExtractInfo(text), historyLen + 1))
  {
  }

  /** Appending a report for a session not yet reported keeps every session
      reported at most once, and adds exactly that session. */
  lemma ReturnKeepsOnce(ps: seq<Payload>, p: Payload, reported: set<string>)
    requires reported == SessionsOf(ps) && OncePerSession(ps) && p.sessionId !in reported
    ensures SessionsOf(ps + [p]) == reported + {p.sessionId}
    ensures OncePerSession(ps + [p])
  {
    assert (ps + [p])[..|ps|] == ps;
  }

  /** The sessions of a list are the session ids of its reports. */
  lemma {:induction false} SessionsOfMembers(ps: seq<Payload>)
    ensures forall k :: 0 <= k < |ps| ==> ps[k].sessionId in SessionsOf(ps)
    ensures forall id :: id in SessionsOf(ps) ==> exists k :: 0 <= k < |ps| && ps[k].sessionId == id
  {
    if ps != [] {
      var init := ps[..|ps| - 1];
      SessionsOfMembers(init);
      assert forall k :: 0 <= k < |init| ==> init[k] == ps[k];
    }
  }

  /** A list whose reports each come for a new session has no two reports
      for the same session. */
  lemma {:induction false} OncePerSessionDistinct(ps: seq<Payload>)
    requires OncePerSession(ps)
    ensures forall k, l :: 0 <= k < l < |ps| ==> ps[k].sessionId != ps[l].sessionId
  {
    if ps != [] {
      var init := ps[..|ps| - 1];
      OncePerSessionDistinct(init);
      SessionsOfMembers(init);
      assert forall k :: 0 <= k < |init| ==> init[k] == ps[k];
    }
  }

  /** An assessed turn together with whether the callback's POST raises on it. */
  datatype Event = Event(assessed: Assessed, postRaises: bool)

  /** The set of reported sessions and the reports whose POST returned after a
      sequence of turns, the process staying up throughout. */
  datatype Trace = Trace(reported: set<string>, returned: seq<Payload>)

  /** The report whose POST returned in the guarded block, if any. */
  function Returned(g: Gated): seq<Payload> {
    if g.returned && g.sent.Some? then [g.sent.value] else []
  }

  /** The turns handled one after the other from the set `reported`. */
  function Run(reported: set<string>, events: seq<Event>): (r: Trace)
    ensures reported <= r.reported && |r.returned| <= |events|
    decreases |events|
  {
    if events == [] then Trace(reported, [])
    else
      var g := GateStep(reported, events[0].assessed, events[0].postRaises);
      var rest := Run(g.reported, events[1..]);
      Trace(rest.reported, Returned(g) + rest.returned)
  }

  /** One turn keeps the set equal to the sessions of the reports whose POST
      returned, each returned once, and never removes a session. */
  lemma StepKeepsOnce(reported: set<string>, ps: seq<Payload>, e: Event)
    requires reported == SessionsOf(ps) && OncePerSession(ps)
    ensures var g := GateStep(reported, e.assessed, e.postRaises);
      reported <= g.reported && g.reported == SessionsOf(ps + Returned(g)) &&
      OncePerSession(ps + Returned(g))
  {
    var g := GateStep(reported, e.assessed, e.postRaises);
    if g.returned {
      ReturnKeepsOnce(ps, g.sent.value, reported);
    } else {
      assert ps + Returned(g) == ps;
    }
  }

  /** Over any sequence of turns the set only grows, holds exactly the
      sessions whose POST returned, and no session's POST returns twice. */
  lemma {:induction false} RunKeepsOnce(reported: set<string>, ps: seq<Payload>, events: seq<Event>)
    requires reported == SessionsOf(ps) && OncePerSession(ps)
    ensures var r := Run(reported, events);
      reported <= r.reported && r.reported == SessionsOf(ps + r.returned) &&
      OncePerSession(ps + r.returned)
    decreases |events|
  {
    if events == [] {
      assert ps + [] == ps;
    } else {
      var e, tail := events[0], events[1..];
      var g := GateStep(reported, e.assessed, e.postRaises);
      StepKeepsOnce(reported, ps, e);
      RunKeepsOnce(g.reported, ps + Returned(g), tail);
      AppendAssoc(ps, Returned(g), Run(g.reported, tail).returned);
    }
  }

  lemma AppendAssoc(a: seq<Payload>, b: seq<Payload>, c: seq<Payload>)
    ensures a + b + c == a + (b + c)
  {
  }

  /** `p` is the report of one of the turns, and that turn came after enough
      history and was classified as a scam. */
  ghost predicate ReportOfSome(p: Payload, events: seq<Event>) {
    exists j :: 0 <= j < |events| && Reportable(events[j].assessed) && p == ReportOf(events[j].assessed)
  }

  /** Each report is the report of a qualifying turn. */
  ghost predicate ReportsFrom(d: seq<Payload>, events: seq<Event>) {
    forall k :: 0 <= k < |d| ==> ReportOfSome(d[k], events)
  }

  /** The report of the first turn, if that turn qualifies, followed by
      reports of the later turns, are all reports of the turns. */
  lemma ReportsFromCons(first: seq<Payload>, rest: seq<Payload>, events: seq<Event>)
    requires events != [] && ReportsFrom(rest, events[1..])
    requires first == [] || (first == [ReportOf(events[0].assessed)] && Reportable(events[0].assessed))
    ensures ReportsFrom(first + rest, events)
  {
    var d, tail := first + rest, events[1..];
    forall k | 0 <= k < |d|
      ensures ReportOfSome(d[k], events)
    {
      if k < |first| {
        assert d[k] == ReportOf(events[0].assessed) && Reportable(events[0].assessed);
      } else {
        var i := k - |first|;
        assert 0 <= i < |rest| && d[k] == rest[i];
        assert ReportOfSome(rest[i], tail);
        var j :| 0 <= j < |tail| && Reportable(tail[j].assessed) && rest[i] == ReportOf(tail[j].assessed);
        assert events[j + 1] == tail[j];
      }
    }
  }

  /** Every report whose POST returned over a sequence of turns is the report of
      one of them that came after enough history and was classified as a scam. */
  lemma {:induction false} RunReportsAfterHistory(reported: set<string>, events: seq<Event>)
    ensures ReportsFrom(Run(reported, events).returned, events)
    decreases |events|
  {
    if events != [] {
      var g := GateStep(reported, events[0].assessed, events[0].postRaises);
      RunReportsAfterHistory(g.reported, events[1..]);
      ReportsFromCons(Returned(g), Run(g.reported, events[1..]).returned, events);
    }
  }

  /** From a fresh process, the reports whose POST returned are for pairwise distinct
      sessions, and the set holds exactly their sessions. */
  lemma AtMostOneReturnedReportPerSession(events: seq<Event>)
    ensures var r := Run({}, events);
      r.reported == SessionsOf(r.returned) &&
      forall k, l :: 0 <= k < l < |r.returned| ==> r.returned[k].sessionId != r.returned[l].sessionId
  {
    RunKeepsOnce({}, [], events);
    var r := Run({}, events);
    assert [] + r.returned == r.returned;
    OncePerSessionDistinct(r.returned);
  }

  /** A session already in the set sends nothing, and the set stays as it is. */
  lemma ReportedSessionIsQuiet(reported: set<string>, turn: Turn, postRaises: bool)
    requires turn.sessionId in reported
    ensures var s := TurnStep(reported, turn, postRaises);
      s.sent.None? && s.reported == reported &&
      s.outcome == Replied(BuildResponse(turn.text, turn.historyLen))
  {
  }

  /** A report whose POST raised leaves the session out of the set, so the
      next qualifying turn of the session sends the report again. */
  lemma RetryAfterFailure(reported: set<string>, first: Turn, next: Turn, postRaises: bool)
    requires first.historyLen >= MinHistory && first.sessionId !in reported && IsItAScam(first.text)
    requires next.sessionId == first.sessionId && next.historyLen >= MinHistory && IsItAScam(next.text)
    ensures var s := TurnStep(reported, first, true);
      s.outcome == CallbackRaised && !s.returned && s.reported == reported &&
      TurnStep(s.reported, next, postRaises).sent.Some?
  {
  }
}
