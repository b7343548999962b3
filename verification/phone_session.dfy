/**
 The state machine of a live phone session, the trace the session emits around it, and the
 offline analyser that rebuilds the call diagnostics from that trace.
 */
module PhoneSession {
  import opened Text

  const MENU_STATES := {"screening", "owner_menu"}
  const WORKSPACE_STATES := {"workspace_live", "workspace_assistant", "employer"}

  datatype TimelineEntry = TimelineEntry(state: string, reason: string)

  datatype HangupClass = RemoteDisconnect | PolicyEnd | ErrorEnd | SystemEnd

  datatype Diagnostics = Diagnostics(
    currentState: Option<string>,
    visitedStates: seq<string>,
    stateTimeline: seq<TimelineEntry>,
    terminalAction: Option<string>,
    hangupReason: Option<string>,
    hangupClass: Option<HangupClass>)

  datatype Action = WorkspaceAssistant | SayThenHangup | TimeAnnouncement | Submenu | OwnerConversation

  function LowerChar(c: char): char {
    if 'A' <= c <= 'Z' then (c as int + 32) as char else c
  }

  function Lower(s: string): string {
    if s == "" then "" else [LowerChar(s[0])] + Lower(s[1..])
  }

  // Modes are stripped and lower-cased wherever they are taken in.
  function Normal(mode: string): string {
    Lower(Strip(mode))
  }

  function InitialState(mode: string): string {
    var m := Normal(mode);
    if m == "owner_pin" then "owner_pin"
    else if m == "owner_menu" then "owner_menu"
    else if m == "screening" then "screening"
    else if m in {"workspace_assistant", "employer"} then "workspace_live"
    else if m == "owner" then "owner_live"
    else if m == "" then "unknown"
    else m
  }

  // None for a blank string, as `str(x or "").strip() or None`.
  function Cleaned(s: string): Option<string> {
    if Strip(s) == "" then None else Some(Strip(s))
  }

  function Or(s: Option<string>, default: string): string {
    if s.Some? then s.value else default
  }

  predicate Contains(s: string, part: string) {
    part <= s || (s != "" && Contains(s[1..], part))
  }

  function HangupClassOf(reason: Option<string>): Option<HangupClass> {
    var normalized := Lower(Strip(Or(reason, "")));
    if normalized == "" then None
    else if normalized in {"twilio_stop", "websocket_disconnect"} then Some(RemoteDisconnect)
    else if normalized in {"owner_pin_failed", "caller_resolution_failed"} then Some(PolicyEnd)
    else if Contains(normalized, "error") || Contains(normalized, "failed") then Some(ErrorEnd)
    else Some(SystemEnd)
  }

  // ------------------------------------------------------- what the machine computes

  datatype Machine = Machine(
    mode: string,
    activeMenuKey: string,
    currentState: string,
    visitedStates: seq<string>,
    stateTimeline: seq<TimelineEntry>,
    terminalAction: Option<string>,
    hangupReason: Option<string>)

  // A state to record, and why.
  datatype Change = Change(toState: string, reason: string)

  // A recorded transition, as it is handed to the session.
  datatype Transition = Transition(
    fromState: Option<string>,
    toState: string,
    reason: string,
    mode: string,
    activeMenuKey: Option<string>)

  function Visited(states: seq<string>, s: string): seq<string> {
    if s in states then states else states + [s]
  }

  // Whether recording this state is a transition; the first record always is.
  predicate Moves(m: Machine, next: string) {
    Strip(next) != "" && (Strip(next) != m.currentState || m.stateTimeline == [])
  }

  function Record(m: Machine, next: string, reason: string): Machine {
    if Moves(m, next) then
      m.(currentState := Strip(next),
         visitedStates := Visited(m.visitedStates, Strip(next)),
         stateTimeline := m.stateTimeline + [TimelineEntry(Strip(next), reason)])
    else m
  }

  function TransitionOf(m: Machine, next: string, reason: string): Option<Transition> {
    if Moves(m, next) then
      Some(Transition(if m.stateTimeline != [] then Some(m.currentState) else None, Strip(next), reason, m.mode,
                      if m.activeMenuKey != "" then Some(m.activeMenuKey) else None))
    else None
  }

  // A machine for a session in this mode; a blank one means the owner's line.
  function NewMachine(mode: string, activeMenuKey: string): Machine {
    var normal := if Normal(mode) == "" then "owner" else Normal(mode);
    var s := InitialState(normal);
    Record(Machine(normal, Strip(activeMenuKey), s, [s], [], None, None), s, "call_started")
  }

  function TerminalName(a: Action): Option<string> {
    match a
    case SayThenHangup => Some("say_then_hangup")
    case TimeAnnouncement => Some("time_announcement")
    case _ => None
  }

  // The transition a menu action asks for.
  function ActionChange(a: Action): Change {
    match a
    case WorkspaceAssistant => Change("workspace_live", "menu_workspace_selected")
    case OwnerConversation => Change("owner_live", "owner_conversation_selected")
    case Submenu => Change("menu_navigation", "submenu_selected")
    case SayThenHangup => Change("terminal_prompt", "say_then_hangup")
    case TimeAnnouncement => Change("terminal_prompt", "time_announcement")
  }

  function DtmfChange(current: string): Option<Change> {
    if current == "owner_pin" then Some(Change("owner_pin_entry", "dtmf_entered"))
    else if current in MENU_STATES || current in {"menu_navigation", "menu_retry"} then
      Some(Change("menu_input", "dtmf_entered"))
    else None
  }

  function TranscribedChange(current: string): Change {
    if current in MENU_STATES || current in {"menu_input", "menu_retry", "menu_navigation"} then
      Change("menu_heard", "speech_captured")
    else if current in WORKSPACE_STATES || current == "workspace_live" then
      Change("workspace_heard", "speech_captured")
    else Change("owner_heard", "speech_captured")
  }

  function RejectedChange(attempts: int): Change {
    Change(if attempts >= 3 then "owner_pin_failed" else "owner_pin_retry", "owner_pin_rejected")
  }

  function StartedChange(workspace: bool): Change {
    Change("generating_reply", if workspace then "workspace_reply_started" else "owner_reply_started")
  }

  function CompletedChange(workspace: bool): Change {
    Change("reply_ready", if workspace then "workspace_reply_completed" else "owner_reply_completed")
  }

  function DiagnosticsOf(m: Machine): Diagnostics {
    Diagnostics(Some(m.currentState), m.visitedStates, m.stateTimeline, m.terminalAction, m.hangupReason,
                HangupClassOf(m.hangupReason))
  }

  /** The live machine. Each transition returns the change it recorded, if any. */
  class PhoneSessionMachine {
    var mode: string
    var activeMenuKey: string
    var currentState: string
    var visitedStates: seq<string>
    var stateTimeline: seq<TimelineEntry>
    var terminalAction: Option<string>
    var hangupReason: Option<string>

    function Model(): Machine
      reads this
    {
      Machine(mode, activeMenuKey, currentState, visitedStates, stateTimeline, terminalAction, hangupReason)
    }

    constructor (mode: string, activeMenuKey: string)
      ensures Model() == NewMachine(mode, activeMenuKey)
    {
      var normal := if Normal(mode) == "" then "owner" else Normal(mode);
      var s := InitialState(normal);
      this.mode, this.activeMenuKey, currentState := normal, Strip(activeMenuKey), s;
      visitedStates, stateTimeline := [s], [];
      terminalAction, hangupReason := None, None;
      new;
      var _ := RecordState(s, "call_started");
    }

    method RecordState(next: string, reason: string) returns (change: Option<Transition>)
      modifies this
      ensures Model() == Record(old(Model()), next, reason)
      ensures change == TransitionOf(old(Model()), next, reason)
    {
      var cleaned := Strip(next);
      if cleaned == "" {
        return None;
      }
      var previous := currentState;
      if cleaned == previous && stateTimeline != [] {
        return None;
      }
      currentState := cleaned;
      if cleaned !in visitedStates {
        visitedStates := visitedStates + [cleaned];
      }
      stateTimeline := stateTimeline + [TimelineEntry(cleaned, reason)];
      return Some(Transition(if |stateTimeline| > 1 then Some(previous) else None, cleaned, reason, mode,
                             if activeMenuKey != "" then Some(activeMenuKey) else None));
    }

    method OnDtmf() returns (change: Option<Transition>)
      modifies this
      ensures (Model(), change) == Recorded(old(Model()), DtmfChange(old(currentState)))
    {
      if currentState == "owner_pin" {
        change := RecordState("owner_pin_entry", "dtmf_entered");
      } else if currentState in MENU_STATES || currentState in {"menu_navigation", "menu_retry"} {
        change := RecordState("menu_input", "dtmf_entered");
      } else {
        change := None;
      }
    }

    method OnMenuUnmatched() returns (change: Option<Transition>)
      modifies this
      ensures (Model(), change) == Recorded(old(Model()), Some(Change("menu_retry", "menu_unmatched")))
    {
      change := RecordState("menu_retry", "menu_unmatched");
    }

    method OnMenuChoice(action: Action, nextMode: string, nextMenuKey: string) returns (change: Option<Transition>)
      modifies this
      ensures (Model(), change)
           == Recorded(Chosen(old(Model()), action, nextMode, nextMenuKey), Some(ActionChange(action)))
    {
      if action.SayThenHangup? || action.TimeAnnouncement? {
        terminalAction := TerminalName(action);
      }
      if Normal(nextMode) != "" {
        mode := Normal(nextMode);
      }
      activeMenuKey := Strip(nextMenuKey);
      match action {
        case WorkspaceAssistant => change := RecordState("workspace_live", "menu_workspace_selected");
        case OwnerConversation => change := RecordState("owner_live", "owner_conversation_selected");
        case Submenu => change := RecordState("menu_navigation", "submenu_selected");
        case SayThenHangup => change := RecordState("terminal_prompt", "say_then_hangup");
        case TimeAnnouncement => change := RecordState("terminal_prompt", "time_announcement");
      }
    }

    method OnOwnerPinVerified(nextMode: string, nextMenuKey: string) returns (change: Option<Transition>)
      modifies this
      ensures (Model(), change)
           == Recorded(Routed(old(Model()), nextMode, nextMenuKey),
                       Some(Change("owner_verified", "owner_pin_verified")))
    {
      if Normal(nextMode) != "" {
        mode := Normal(nextMode);
      }
      activeMenuKey := Strip(nextMenuKey);
      change := RecordState("owner_verified", "owner_pin_verified");
    }

    method OnOwnerPinRejected(attempts: int) returns (change: Option<Transition>)
      modifies this
      ensures (Model(), change) == Recorded(old(Model()), Some(RejectedChange(attempts)))
    {
      if attempts >= 3 {
        change := RecordState("owner_pin_failed", "owner_pin_rejected");
      } else {
        change := RecordState("owner_pin_retry", "owner_pin_rejected");
      }
    }

    method OnTranscribed() returns (change: Option<Transition>)
      modifies this
      ensures (Model(), change) == Recorded(old(Model()), Some(TranscribedChange(old(currentState))))
    {
      if currentState in MENU_STATES || currentState in {"menu_input", "menu_retry", "menu_navigation"} {
        change := RecordState("menu_heard", "speech_captured");
      } else if currentState in WORKSPACE_STATES || currentState == "workspace_live" {
        change := RecordState("workspace_heard", "speech_captured");
      } else {
        change := RecordState("owner_heard", "speech_captured");
      }
    }

    method OnReplyStarted(workspace: bool) returns (change: Option<Transition>)
      modifies this
      ensures (Model(), change) == Recorded(old(Model()), Some(StartedChange(workspace)))
    {
      change := RecordState("generating_reply", if workspace then "workspace_reply_started" else "owner_reply_started");
    }

    method OnReplyCompleted(workspace: bool) returns (change: Option<Transition>)
      modifies this
      ensures (Model(), change) == Recorded(old(Model()), Some(CompletedChange(workspace)))
    {
      change := RecordState("reply_ready", if workspace then "workspace_reply_completed" else "owner_reply_completed");
    }

    method OnTtsSent() returns (change: Option<Transition>)
      modifies this
      ensures (Model(), change) == Recorded(old(Model()), Some(Change("speaking", "tts_sent")))
    {
      change := RecordState("speaking", "tts_sent");
    }

    method OnError(reason: string) returns (change: Option<Transition>)
      modifies this
      ensures (Model(), change) == Recorded(old(Model()), Some(Change("error", reason)))
    {
      change := RecordState("error", reason);
    }

    method OnClose(reason: string) returns (change: Option<Transition>)
      modifies this
      ensures (Model(), change) == Recorded(HungUp(old(Model()), reason), Some(ClosedChange(reason)))
    {
      hangupReason := Cleaned(reason);
      change := RecordState("closed", Or(hangupReason, "stream_closed"));
    }
  }

  // A wanted change applied to the machine, and the change that was recorded.
  function Recorded(m: Machine, wanted: Option<Change>): (Machine, Option<Transition>) {
    match wanted
    case None => (m, None)
    case Some(c) => (Record(m, c.toState, c.reason), TransitionOf(m, c.toState, c.reason))
  }

  function Routed(m: Machine, nextMode: string, nextMenuKey: string): Machine {
    m.(mode := if Normal(nextMode) != "" then Normal(nextMode) else m.mode, activeMenuKey := Strip(nextMenuKey))
  }

  function Chosen(m: Machine, action: Action, nextMode: string, nextMenuKey: string): Machine {
    var r := Routed(m, nextMode, nextMenuKey);
    if TerminalName(action).Some? then r.(terminalAction := TerminalName(action)) else r
  }

  function HungUp(m: Machine, reason: string): Machine {
    m.(hangupReason := Cleaned(reason))
  }

  function ClosedChange(reason: string): Change {
    Change("closed", Or(Cleaned(reason), "stream_closed"))
  }
}
