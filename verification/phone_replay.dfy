/**
 The trace of a phone session and its offline replay. The session traces every event next to the
 machine call it belongs to; `Analyse` projects that trace back to call diagnostics.
 */
module PhoneReplay {
  import opened Text
  import opened PhoneSession

  datatype EventKind =
    | StateChanged(toState: string, reason: string)
    | Dtmf
    | MenuUnmatched
    | MenuChoice(action: Action)
    | PinVerified
    | PinRejected(attempts: int)
    | Transcribed
    | ReplyStarted(workspace: bool)
    | ReplyCompleted(workspace: bool)
    | TtsSent
    | TtsFailed
    | EventError
    | Closed(closeReason: string, closing: Diagnostics)
    | OtherEvent

  datatype TraceEvent = TraceEvent(timestamp: int, mode: string, kind: EventKind)

  // ------------------------------------------------------- the analyser

  datatype View = View(
    currentState: string,
    visitedStates: seq<string>,
    stateTimeline: seq<TimelineEntry>,
    terminalAction: Option<string>,
    hangupReason: Option<string>)

  function SetState(v: View, next: string, reason: string): View {
    var cleaned := Strip(next);
    if cleaned == "" || cleaned == v.currentState then v
    else
      v.(currentState := cleaned,
         visitedStates := Visited(v.visitedStates, cleaned),
         stateTimeline := v.stateTimeline + [TimelineEntry(cleaned, reason)])
  }

  function Apply(v: View, c: Change): View {
    SetState(v, c.toState, c.reason)
  }

  function NonBlank(states: seq<string>): seq<string> {
    if states == [] then []
    else
      var rest := NonBlank(states[..|states| - 1]);
      if Strip(states[|states| - 1]) == "" then rest else rest + [states[|states| - 1]]
  }

  // The close event carries the machine's own view, which replaces what was collected.
  function Adopt(v: View, closing: Diagnostics): View {
    v.(terminalAction := if v.terminalAction.Some? then v.terminalAction else Cleaned(Or(closing.terminalAction, "")),
       visitedStates := if closing.visitedStates == [] then v.visitedStates else NonBlank(closing.visitedStates),
       currentState := Or(Cleaned(Or(closing.currentState, "")), v.currentState))
  }

  function Observe(v: View, e: EventKind): View {
    match e
    case StateChanged(to, reason) => SetState(v, Strip(to), Strip(if reason == "" then "state_changed" else reason))
    case Dtmf =>
      if v.currentState == "owner_pin" then SetState(v, "owner_pin_entry", "dtmf_entered")
      else if v.currentState in MENU_STATES then SetState(v, "menu_input", "dtmf_entered")
      else v
    case MenuUnmatched => SetState(v, "menu_retry", "menu_unmatched")
    case MenuChoice(action) =>
      var w := if TerminalName(action).Some? then v.(terminalAction := TerminalName(action)) else v;
      Apply(w, ActionChange(action))
    case PinVerified => SetState(v, "owner_verified", "owner_pin_verified")
    case PinRejected(attempts) => Apply(v, RejectedChange(attempts))
    case Transcribed =>
      if v.currentState in MENU_STATES || v.currentState in {"menu_input", "menu_retry", "menu_navigation"} then
        SetState(v, "menu_heard", "speech_captured")
      else if v.currentState in WORKSPACE_STATES then SetState(v, "workspace_heard", "speech_captured")
      else SetState(v, "owner_heard", "speech_captured")
    case ReplyStarted(workspace) => Apply(v, StartedChange(workspace))
    case ReplyCompleted(workspace) => Apply(v, CompletedChange(workspace))
    case TtsSent => SetState(v, "speaking", "tts_sent")
    case TtsFailed => SetState(v, "error", "phone_stream_tts_failed")
    case EventError => SetState(v, "error", "phone_stream_event_error")
    case Closed(reason, closing) =>
      var w := Adopt(v.(hangupReason := Cleaned(reason)), closing);
      SetState(w, "closed", Or(w.hangupReason, "stream_closed"))
    case OtherEvent => v
  }

  function ObserveAll(v: View, events: seq<TraceEvent>): View {
    if events == [] then v else Observe(ObserveAll(v, events[..|events| - 1]), events[|events| - 1].kind)
  }

  function FirstView(mode: string): View {
    var s := InitialState(mode);
    View(s, [s], [TimelineEntry(s, "call_started")], None, None)
  }

  // Python's sort is stable: an event goes behind those that are not later.
  function InsertByTime(events: seq<TraceEvent>, e: TraceEvent): seq<TraceEvent> {
    if events == [] || events[|events| - 1].timestamp <= e.timestamp then events + [e]
    else InsertByTime(events[..|events| - 1], e) + [events[|events| - 1]]
  }

  function SortByTime(events: seq<TraceEvent>): seq<TraceEvent> {
    if events == [] then [] else InsertByTime(SortByTime(events[..|events| - 1]), events[|events| - 1])
  }

  function DiagnosticsOfView(v: View): Diagnostics {
    Diagnostics(Some(v.currentState), v.visitedStates, v.stateTimeline, v.terminalAction, v.hangupReason,
                HangupClassOf(v.hangupReason))
  }

  function Analyse(timeline: seq<TraceEvent>): Diagnostics {
    var ordered := SortByTime(timeline);
    if ordered == [] then Diagnostics(None, [], [], None, None, None)
    else DiagnosticsOfView(ObserveAll(FirstView(ordered[0].mode), ordered))
  }

  method AnalyzePhoneCallTimeline(timeline: seq<TraceEvent>) returns (d: Diagnostics)
    ensures d == Analyse(timeline)
  {
    var ordered := SortByTime(timeline);
    if ordered == [] {
      return Diagnostics(None, [], [], None, None, None);
    }
    var view := FirstView(ordered[0].mode);
    for i := 0 to |ordered|
      invariant view == ObserveAll(FirstView(ordered[0].mode), ordered[..i])
    {
      assert ordered[..i + 1][..i] == ordered[..i];
      view := Observe(view, ordered[i].kind);
    }
    assert ordered[..|ordered|] == ordered;
    return DiagnosticsOfView(view);
  }

  // ------------------------------------------------------- the session and its trace

  // What can happen in a started session. `traced` is false where the service gave up before its
  // own trace call.
  datatype Step =
    | DoDtmf
    | DoMenuUnmatched
    | DoMenuChoice(action: Action, nextMode: string, nextMenuKey: string)
    | DoPinVerified(nextMode: string, nextMenuKey: string)
    | DoPinRejected(attempts: int)
    | DoTranscribed
    | DoReplyStarted(workspace: bool, traced: bool)
    | DoReplyCompleted(workspace: bool, traced: bool)
    | DoTtsSent
    | DoTtsAttemptFailed
    | DoTtsFailed
    | DoEventError
    | DoClose(reason: string)
    | DoOther

  // The machine call of a step: the machine it is applied to, and the change it asks for.
  function Wanted(m: Machine, s: Step): (Machine, Option<Change>) {
    match s
    case DoDtmf => (m, DtmfChange(m.currentState))
    case DoMenuUnmatched => (m, Some(Change("menu_retry", "menu_unmatched")))
    case DoMenuChoice(a, mode, key) => (Chosen(m, a, mode, key), Some(ActionChange(a)))
    case DoPinVerified(mode, key) => (Routed(m, mode, key), Some(Change("owner_verified", "owner_pin_verified")))
    case DoPinRejected(n) => (m, Some(RejectedChange(n)))
    case DoTranscribed => (m, Some(TranscribedChange(m.currentState)))
    case DoReplyStarted(w, _) => (m, Some(StartedChange(w)))
    case DoReplyCompleted(w, _) => (m, Some(CompletedChange(w)))
    case DoTtsSent => (m, Some(Change("speaking", "tts_sent")))
    case DoTtsAttemptFailed => (m, Some(Change("error", "phone_stream_tts_attempt_failed")))
    case DoTtsFailed => (m, Some(Change("error", "phone_stream_tts_failed")))
    case DoEventError => (m, Some(Change("error", "phone_stream_event_error")))
    case DoClose(reason) => (HungUp(m, reason), Some(ClosedChange(reason)))
    case DoOther => (m, None)
  }

  function After(m: Machine, s: Step): Machine {
    var (m', wanted) := Wanted(m, s);
    Recorded(m', wanted).0
  }

  function Traced(change: Option<Transition>): seq<EventKind> {
    match change
    case None => []
    case Some(c) => [StateChanged(Strip(c.toState), Or(Cleaned(c.reason), "state_changed"))]
  }

  // What the session traces before and after the machine's recorded change.
  function Emitted(m: Machine, s: Step): seq<EventKind> {
    var (m', wanted) := Wanted(m, s);
    var change := Traced(Recorded(m', wanted).1);
    match s
    case DoDtmf => [Dtmf] + change
    case DoMenuUnmatched => [MenuUnmatched] + change
    case DoMenuChoice(a, _, _) => [MenuChoice(a)] + change
    case DoPinVerified(_, _) => [PinVerified] + change
    case DoPinRejected(n) => [PinRejected(n)] + change
    case DoTranscribed => [Transcribed] + change
    case DoReplyStarted(w, traced) => change + if traced then [ReplyStarted(w)] else []
    case DoReplyCompleted(w, traced) => (if traced then [ReplyCompleted(w)] else []) + change
    case DoTtsSent => [TtsSent] + change
    case DoTtsAttemptFailed => [OtherEvent] + change
    case DoTtsFailed => [TtsFailed] + change
    case DoEventError => [EventError] + change
    case DoClose(reason) => change + [Closed(reason, DiagnosticsOf(After(m, s)))]
    case DoOther => [OtherEvent]
  }

  datatype TimedStep = TimedStep(at: int, step: Step)

  function Stamped(at: int, mode: string, kinds: seq<EventKind>): (r: seq<TraceEvent>)
    ensures |r| == |kinds|
    ensures forall i | 0 <= i < |r| :: r[i] == TraceEvent(at, mode, kinds[i])
  {
    seq(|kinds|, i requires 0 <= i < |kinds| => TraceEvent(at, mode, kinds[i]))
  }

  function MachineAfter(mode: string, menuKey: string, steps: seq<TimedStep>): Machine {
    if steps == [] then NewMachine(mode, menuKey)
    else After(MachineAfter(mode, menuKey, steps[..|steps| - 1]), steps[|steps| - 1].step)
  }

  // The trace of a started session: the start event first, then each step's events.
  function TraceOf(mode: string, menuKey: string, startedAt: int, steps: seq<TimedStep>): (t: seq<TraceEvent>)
    ensures t != []
    ensures t[0] == TraceEvent(startedAt, mode, StateChanged(NewMachine(mode, menuKey).currentState, "call_started"))
  {
    if steps == [] then
      Stamped(startedAt, mode, [StateChanged(NewMachine(mode, menuKey).currentState, "call_started"), OtherEvent])
    else
      var n := |steps| - 1;
      var m := MachineAfter(mode, menuKey, steps[..n]);
      TraceOf(mode, menuKey, startedAt, steps[..n]) + Stamped(steps[n].at, m.mode, Emitted(m, steps[n].step))
  }

  predicate InOrder(startedAt: int, steps: seq<TimedStep>) {
    && (forall i | 0 <= i < |steps| :: startedAt <= steps[i].at)
    && (forall i, j | 0 <= i < j < |steps| :: steps[i].at <= steps[j].at)
  }
}
