/**
 What the states of a phone session mean: how they fit the lanes that menus lead to, the PIN gate
 and the reasons a call ends for.
 */
module PhoneLaws {
  import opened Text
  import opened PhoneSession
  import opened PhoneReplay
  import opened PhoneReplayProof
  import PhoneDrift
  import PhoneMenus
  import OwnerPin

  // ------------------------------------------------------- modes and what is heard in them

  // The modes a session can be started or led into, and those in which the workspace answers.
  const MODES := {"owner_pin", "owner_menu", "screening", "workspace_assistant", "employer", "owner"}
  const WORKSPACE_MODES := {"workspace_assistant", "employer"}

  /** Speech and keys are heard by the mode: speech as menu speech in the menu modes, as workspace
      speech in the workspace modes and otherwise as the owner's; a key counts in PIN mode and in the
      menu modes only. */
  lemma {:induction false} HeardByMode(mode: string)
    requires Normal(mode) in MODES
    ensures var s, m := InitialState(mode), Normal(mode);
            && TranscribedChange(s).toState
               == (if PhoneMenus.MenuMode(m) then "menu_heard"
                   else if m in WORKSPACE_MODES then "workspace_heard" else "owner_heard")
            && (DtmfChange(s).Some? <==> m == "owner_pin" || PhoneMenus.MenuMode(m))
            && (DtmfChange(s).Some? ==>
                  DtmfChange(s).value.toState == if m == "owner_pin" then "owner_pin_entry" else "menu_input")
  {}

  /** A reply is recorded for the lane its speech was heard in: the workspace's in every mode but the
      owner's. */
  lemma {:induction false} ReplyNamesLane(mode: string, workspace: bool)
    requires Normal(mode) in WORKSPACE_MODES + {"owner"} && (workspace <==> Normal(mode) != "owner")
    ensures exists lane: string ::
              && TranscribedChange(InitialState(mode)).toState == lane + "_heard"
              && StartedChange(workspace).reason == lane + "_reply_started"
              && CompletedChange(workspace).reason == lane + "_reply_completed"
  {
    HeardByMode(mode);
    var lane := if workspace then "workspace" else "owner";
    HeardIn(workspace, lane);
    StartedIn(workspace, lane);
    CompletedIn(workspace, lane);
  }

  lemma {:induction false} HeardIn(workspace: bool, lane: string)
    requires lane == if workspace then "workspace" else "owner"
    ensures lane + "_heard" == if workspace then "workspace_heard" else "owner_heard"
  {}

  lemma {:induction false} StartedIn(workspace: bool, lane: string)
    requires lane == if workspace then "workspace" else "owner"
    ensures lane + "_reply_started" == StartedChange(workspace).reason
  {}

  lemma {:induction false} CompletedIn(workspace: bool, lane: string)
    requires lane == if workspace then "workspace" else "owner"
    ensures lane + "_reply_completed" == CompletedChange(workspace).reason
  {}

  // ------------------------------------------------------- what a menu choice leads to

  // The action's own name in the configuration.
  function ActionName(a: Action): string {
    match a
    case WorkspaceAssistant => "workspace_assistant"
    case SayThenHangup => "say_then_hangup"
    case TimeAnnouncement => "time_announcement"
    case Submenu => "submenu"
    case OwnerConversation => "owner_conversation"
  }

  // The state of a machine, and of a view, behind a choice.
  lemma {:induction false} ChoiceState(m: Machine, v: View, action: Action, mode: string, key: string)
    ensures After(m, DoMenuChoice(action, mode, key)).currentState == ActionChange(action).toState
    ensures Observe(v, MenuChoice(action)).currentState == ActionChange(action).toState
  {
    PhoneDrift.ActionStates(action);
    PhoneDrift.StateAfter(m, DoMenuChoice(action, mode, key));
    ChoiceSeen(v, action);
  }

  lemma {:induction false} ChoiceSeen(v: View, action: Action)
    ensures Observe(v, MenuChoice(action)).currentState == ActionChange(action).toState
  {
    PhoneDrift.ActionStates(action);
  }

  predicate PlainWord(s: string) {
    s != "" && Clean(s, SPACES) && forall i | 0 <= i < |s| :: !('A' <= s[i] <= 'Z')
  }

  lemma {:induction false} PlainNormal(s: string)
    requires PlainWord(s)
    ensures Normal(s) == s && Cleaned(s) == Some(s)
  {
    TrimClean(s, SPACES);
    LowerAt(s);
  }

  lemma {:induction false} PlainNames()
    ensures PlainWord("owner") && PlainWord("workspace_assistant") && PlainWord("owner_pin_failed")
  {}

  lemma {:induction false} LaneOf(mode: string)
    ensures Normal(mode) == "owner" ==> InitialState(mode) == "owner_live"
    ensures Normal(mode) == "workspace_assistant" ==> InitialState(mode) == "workspace_live"
  {}

  /** A choice of a conversation puts machine and replay into the state a session of the mode it leads
      to starts in: the workspace's for the assistant, the owner's for the owner. */
  lemma {:induction false} ChoiceReachesLane(c: PhoneMenus.MenuConfig, menuKey: string, o: PhoneMenus.MenuOption,
                                             tag: string, m: Machine, v: View)
    requires o.action.WorkspaceAssistant? || o.action.OwnerConversation?
    ensures var (mode, key) := PhoneMenus.Route(c, menuKey, o, tag);
            && After(m, DoMenuChoice(o.action, mode, key)).currentState == InitialState(mode)
            && Observe(v, MenuChoice(o.action)).currentState == InitialState(mode)
            && mode == (if o.action.OwnerConversation? then "owner" else ActionName(o.action)) && key == ""
  {
    var (mode, key) := PhoneMenus.Route(c, menuKey, o, tag);
    ChoiceState(m, v, o.action, mode, key);
    RouteLane(c, menuKey, o, tag);
    PlainNames();
    PlainNormal(mode);
    ActionLane(o.action, mode);
  }

  lemma {:induction false} RouteLane(c: PhoneMenus.MenuConfig, menuKey: string, o: PhoneMenus.MenuOption, tag: string)
    ensures o.action.OwnerConversation? ==> PhoneMenus.Route(c, menuKey, o, tag) == ("owner", "")
    ensures o.action.WorkspaceAssistant? ==> PhoneMenus.Route(c, menuKey, o, tag) == (ActionName(o.action), "")
  {}

  lemma {:induction false} ActionLane(action: Action, mode: string)
    requires (action.OwnerConversation? && Normal(mode) == "owner")
             || (action.WorkspaceAssistant? && Normal(mode) == "workspace_assistant")
    ensures ActionChange(action).toState == InitialState(mode)
  {
    LaneOf(mode);
  }

  /** The machine takes over where the route leads, and the reason it records names the action. */
  lemma {:induction false} ChoiceTakesRoute(m: Machine, action: Action, mode: string, key: string)
    ensures var m' := After(m, DoMenuChoice(action, mode, key));
            && m'.activeMenuKey == Strip(key)
            && m'.mode == (if Normal(mode) == "" then m.mode else Normal(mode))
            && m'.hangupReason == m.hangupReason
    ensures ActionChange(action).reason
         == match action
            case WorkspaceAssistant => "menu_workspace_selected"
            case Submenu => "submenu_selected"
            case OwnerConversation => ActionName(action) + "_selected"
            case _ => ActionName(action)
  {
    assert "owner_conversation" + "_selected" == "owner_conversation_selected";
  }

  /** A choice prompts for the end of the call exactly when its route hangs up, and then, and only
      then, it sets the terminal action, to the action's name. */
  lemma {:induction false} PromptsToHangUp(m: Machine, v: View, action: Action, mode: string, key: string)
    ensures var m', v' := After(m, DoMenuChoice(action, mode, key)), Observe(v, MenuChoice(action));
            && (m'.currentState == "terminal_prompt" <==> PhoneMenus.HangsUp(action))
            && (v'.currentState == "terminal_prompt" <==> PhoneMenus.HangsUp(action))
            && m'.terminalAction == (if PhoneMenus.HangsUp(action) then Some(ActionName(action)) else m.terminalAction)
            && v'.terminalAction == (if PhoneMenus.HangsUp(action) then Some(ActionName(action)) else v.terminalAction)
  {
    ChoiceState(m, v, action, mode, key);
    PromptStates(action);
    ChoiceTerminal(m, v, action, mode, key);
  }

  lemma {:induction false} PromptStates(action: Action)
    ensures ActionChange(action).toState == "terminal_prompt" <==> PhoneMenus.HangsUp(action)
    ensures TerminalName(action) == if PhoneMenus.HangsUp(action) then Some(ActionName(action)) else None
  {}

  lemma {:induction false} ChoiceTerminal(m: Machine, v: View, action: Action, mode: string, key: string)
    ensures After(m, DoMenuChoice(action, mode, key)).terminalAction
         == if TerminalName(action).Some? then TerminalName(action) else m.terminalAction
    ensures Observe(v, MenuChoice(action)).terminalAction
         == if TerminalName(action).Some? then TerminalName(action) else v.terminalAction
  {}

  /** Behind a submenu hop, and behind an unmatched choice, keys and speech are menu input again. */
  lemma {:induction false} HopsHearMenus(m: Machine, v: View, mode: string, key: string)
    ensures var hop, retry := After(m, DoMenuChoice(Submenu, mode, key)), After(m, DoMenuUnmatched);
            && Observe(v, MenuChoice(Submenu)).currentState == hop.currentState
            && HearsMenu(hop.currentState) && HearsMenu(retry.currentState) && hop.currentState != retry.currentState
  {
    ChoiceState(m, v, Submenu, mode, key);
    PhoneDrift.StateAfter(m, DoMenuUnmatched);
    TrimClean("menu_retry", SPACES);
  }

  predicate HearsMenu(s: string) {
    DtmfChange(s) == Some(Change("menu_input", "dtmf_entered")) && TranscribedChange(s).toState == "menu_heard"
  }

  /** A submenu hop goes to its target, in the owner's menu mode exactly when that is the owner's menu;
      a PIN leads there too. */
  lemma {:induction false} HopExactly(c: PhoneMenus.MenuConfig, menuKey: string, o: PhoneMenus.MenuOption, tag: string)
    requires o.action.Submenu? && o.targetMenu.Some? && o.targetMenu.value != ""
    ensures var (mode, key) := PhoneMenus.Route(c, menuKey, o, tag);
            && key == o.targetMenu.value && PhoneMenus.MenuMode(mode)
            && (mode == "owner_menu" <==> c.ownerMenuKey == Some(key))
            && (PhoneMenus.PinRoute(c) == ("owner_menu", key) ==> mode == "owner_menu")
  {}

  // ------------------------------------------------------- the PIN gate

  /** The machine, told of each bad block with the gate's attempts, is in the failure state exactly when
      the gate has closed, and so is the replay; the state names the reason the session then closes
      for, a policy end. */
  lemma {:induction false} FailureIsClosed(g: OwnerPin.Gate, events: seq<OwnerPin.Event>, e: OwnerPin.Event,
                                           m: Machine, v: View)
    requires OwnerPin.Run(g, events + [e]).attempts > OwnerPin.Run(g, events).attempts
    ensures var t := OwnerPin.Run(g, events + [e]);
            var m', v' := After(m, DoPinRejected(t.attempts)), Observe(v, PinRejected(t.attempts));
            && m'.currentState == v'.currentState == (if t.closed then "owner_pin_failed" else "owner_pin_retry")
            && (t.closed ==> HangupClassOf(Some(m'.currentState)) == Some(PolicyEnd))
  {
    var n := OwnerPin.Run(g, events + [e]).attempts;
    ClosedAtThree(g, events + [e]);
    RejectedState(m, v, n);
    if n >= OwnerPin.MAX_ATTEMPTS {
      PlainNames();
      PlainNormal("owner_pin_failed");
      PolicyEnds("owner_pin_failed");
    }
  }

  lemma {:induction false} RejectedState(m: Machine, v: View, attempts: int)
    ensures After(m, DoPinRejected(attempts)).currentState == Observe(v, PinRejected(attempts)).currentState
            == if attempts >= OwnerPin.MAX_ATTEMPTS then "owner_pin_failed" else "owner_pin_retry"
  {
    PhoneDrift.StateAfter(m, DoPinRejected(attempts));
    TrimClean("owner_pin_failed", SPACES);
    TrimClean("owner_pin_retry", SPACES);
  }

  lemma {:induction false} PolicyEnds(reason: string)
    requires Normal(reason) == "owner_pin_failed"
    ensures HangupClassOf(Some(reason)) == Some(PolicyEnd)
  {}

  lemma {:induction false} ClosedAtThree(g: OwnerPin.Gate, events: seq<OwnerPin.Event>)
    ensures var s := OwnerPin.Run(g, events); s.closed <==> s.attempts >= OwnerPin.MAX_ATTEMPTS
  {
    if events != [] {
      ClosedAtThree(g, events[..|events| - 1]);
    }
  }

  // The session's mode as a text.
  function ModeName(mode: OwnerPin.Mode): string {
    match mode
    case PinMode => "owner_pin"
    case MenuMode => "owner_menu"
    case OwnerMode => "owner"
  }

  /** The PIN opens what the menus lead to: the owner's menu where it is defined, else the owner's line;
      the session then is in the mode the gate names. */
  lemma {:induction false} PinOpensRoute(g: OwnerPin.Gate, c: PhoneMenus.MenuConfig, events: seq<OwnerPin.Event>)
    requires g.menuEnabled == (c.ownerMenuKey.Some? && PhoneMenus.Defined(c, c.ownerMenuKey.value))
    requires OwnerPin.KeysHarmless(g, events) && OwnerPin.Run(g, events).mode != OwnerPin.PinMode
    ensures ModeName(OwnerPin.Run(g, events).mode) == PhoneMenus.PinRoute(c).0
    ensures PhoneMenus.PinRoute(c).1 == if g.menuEnabled then c.ownerMenuKey.value else ""
  {
    OwnerPin.GateAfterDigits(g, events);
  }

  // ------------------------------------------------------- why a call ended

  // The text holds this word, here or somewhere.
  predicate HoldsAt(text: string, word: string, i: nat) {
    i + |word| <= |text| && text[i..i + |word|] == word
  }

  ghost predicate Holds(text: string, word: string) {
    exists i: nat :: HoldsAt(text, word, i)
  }

  lemma {:induction false} HoldsLater(s: string, word: string, i: nat)
    requires s != ""
    ensures HoldsAt(s, word, i + 1) <==> HoldsAt(s[1..], word, i)
  {
    if i + 1 + |word| <= |s| {
      assert s[1..][i..i + |word|] == s[i + 1..i + 1 + |word|];
    }
  }

  lemma {:induction false} ContainsExactly(s: string, word: string)
    ensures Contains(s, word) <==> Holds(s, word)
  {
    assert HoldsAt(s, word, 0) <==> word <= s;
    if s != "" {
      ContainsExactly(s[1..], word);
      forall i: nat ensures HoldsAt(s, word, i + 1) <==> HoldsAt(s[1..], word, i) {
        HoldsLater(s, word, i);
      }
      if i: nat :| HoldsAt(s, word, i) {
        assert i == 0 || HoldsAt(s[1..], word, i - 1);
      }
      if i: nat :| HoldsAt(s[1..], word, i) {
        assert HoldsAt(s, word, i + 1);
      }
    } else {
      forall i: nat ensures HoldsAt(s, word, i) ==> i == 0 {}
    }
  }

  /** What closing leaves: the closed state, the stripped reason, and its class, read off the reason's
      text. A caller who hung up and a policy that ended the call are never errors, although some of
      their reasons say "failed". */
  lemma {:induction false} HangupExactly(m: Machine, reason: string)
    ensures var d, text := DiagnosticsOf(After(m, DoClose(reason))), Normal(reason);
            && d.currentState == Some("closed")
            && d.hangupReason == (if Strip(reason) == "" then None else Some(Strip(reason)))
            && (m.currentState != "closed" ==>
                  d.stateTimeline == m.stateTimeline + [TimelineEntry("closed", Or(d.hangupReason, "stream_closed"))])
            && (d.hangupClass == None <==> Strip(reason) == "")
            && (d.hangupClass == Some(RemoteDisconnect) <==> text == "twilio_stop" || text == "websocket_disconnect")
            && (d.hangupClass == Some(PolicyEnd) <==> text == "owner_pin_failed" || text == "caller_resolution_failed")
            && (d.hangupClass == Some(ErrorEnd) <==>
                  (Holds(text, "error") || Holds(text, "failed"))
                  && d.hangupClass !in {Some(RemoteDisconnect), Some(PolicyEnd)})
  {
    ClosedReason(m, reason);
    ClassExactly(reason);
  }

  lemma {:induction false} ClosedReason(m: Machine, reason: string)
    ensures var m' := After(m, DoClose(reason));
            && m'.currentState == "closed" && m'.hangupReason == Cleaned(reason)
            && (m.currentState != "closed" ==>
                  m'.stateTimeline == m.stateTimeline + [TimelineEntry("closed", Or(Cleaned(reason), "stream_closed"))])
  {
    PhoneDrift.StateAfter(m, DoClose(reason));
    TrimClean("closed", SPACES);
  }

  lemma {:induction false} CleanedNormal(reason: string)
    ensures Normal(reason) == "" <==> Strip(reason) == ""
    ensures Normal(Or(Cleaned(reason), "")) == Normal(reason)
  {
    TrimIdempotent(reason, SPACES);
    LowerAt(Strip(reason));
    assert Strip("") == "";
  }

  lemma {:induction false} ClassExactly(reason: string)
    ensures var kind, text := HangupClassOf(Cleaned(reason)), Normal(reason);
            && (kind == None <==> Strip(reason) == "")
            && (kind == Some(RemoteDisconnect) <==> text == "twilio_stop" || text == "websocket_disconnect")
            && (kind == Some(PolicyEnd) <==> text == "owner_pin_failed" || text == "caller_resolution_failed")
            && (kind == Some(ErrorEnd) <==>
                  (Holds(text, "error") || Holds(text, "failed"))
                  && kind !in {Some(RemoteDisconnect), Some(PolicyEnd)})
  {
    CleanedNormal(reason);
    ContainsExactly(Normal(reason), "error");
    ContainsExactly(Normal(reason), "failed");
  }

  // ------------------------------------------------------- the trace and the timeline

  function Transition(e: EventKind): seq<TimelineEntry> {
    if e.StateChanged? then [TimelineEntry(e.toState, e.reason)] else []
  }

  // The transitions among traced events, in order.
  function TransitionsIn(kinds: seq<EventKind>): seq<TimelineEntry> {
    if kinds == [] then [] else TransitionsIn(kinds[..|kinds| - 1]) + Transition(kinds[|kinds| - 1])
  }

  function Transitions(t: seq<TraceEvent>): seq<TimelineEntry> {
    if t == [] then [] else Transitions(t[..|t| - 1]) + Transition(t[|t| - 1].kind)
  }

  lemma {:induction false} TransitionsSnoc(kinds: seq<EventKind>, e: EventKind)
    ensures TransitionsIn(kinds + [e]) == TransitionsIn(kinds) + Transition(e)
  {
    assert (kinds + [e])[..|kinds|] == kinds;
  }

  lemma {:induction false} StampedTransitions(t: seq<TraceEvent>, at: int, mode: string, kinds: seq<EventKind>)
    ensures Transitions(t + Stamped(at, mode, kinds)) == Transitions(t) + TransitionsIn(kinds)
    decreases |kinds|
  {
    if kinds == [] {
      assert t + Stamped(at, mode, kinds) == t;
    } else {
      var before, e := kinds[..|kinds| - 1], kinds[|kinds| - 1];
      assert kinds == before + [e];
      StampedLast(t, at, mode, before, e);
      StampedTransitions(t, at, mode, before);
      var all := t + Stamped(at, mode, before);
      assert (all + [TraceEvent(at, mode, e)])[..|all|] == all;
      Grouped(Transitions(t), TransitionsIn(before), Transition(e));
    }
  }

  // At most one transition is traced, alone or next to one other event.
  lemma {:induction false} PairTransitions(raw: EventKind, change: seq<EventKind>)
    requires |change| <= 1 && !raw.StateChanged?
    ensures TransitionsIn([raw] + change) == TransitionsIn(change) == TransitionsIn(change + [raw])
  {
    assert [raw][..0] == [] && Transition(raw) == [];
    TransitionsSnoc(change, raw);
    if |change| == 1 {
      assert [raw] + change == [raw] + [change[0]] && change == [] + [change[0]];
      TransitionsSnoc([raw], change[0]);
      TransitionsSnoc([], change[0]);
    } else {
      assert [raw] + change == [] + [raw];
      TransitionsSnoc([], raw);
    }
  }

  // What a step's machine call traces.
  function ChangeOf(m: Machine, s: Step): seq<EventKind> {
    var (m', wanted) := Wanted(m, s);
    Traced(Recorded(m', wanted).1)
  }

  // A step's own event, which is missing where the service gave up before tracing it.
  function OwnEvent(m: Machine, s: Step): Option<EventKind> {
    match s
    case DoDtmf => Some(Dtmf)
    case DoMenuChoice(a, _, _) => Some(MenuChoice(a))
    case DoReplyStarted(w, traced) => if traced then Some(ReplyStarted(w)) else None
    case DoReplyCompleted(w, traced) => if traced then Some(ReplyCompleted(w)) else None
    case DoClose(reason) => Some(Closed(reason, DiagnosticsOf(After(m, s))))
    case DoTtsAttemptFailed => Some(OtherEvent)
    case DoOther => Some(OtherEvent)
    case _ => Some(Raw(s))
  }

  // The events of a step are its change and its own event: that comes first, except that a started
  // reply and a close are traced behind their change.
  lemma {:induction false} EmittedParts(m: Machine, s: Step)
    ensures var raw, change := OwnEvent(m, s), ChangeOf(m, s);
            Emitted(m, s) == if raw.None? then change
                             else if s.DoReplyStarted? || s.DoClose? then change + [raw.value]
                             else [raw.value] + change
  {
    if Plain(s) {
      PlainEmits(m, s);
    } else {
      SpecialParts(m, s);
    }
  }

  lemma {:induction false} SpecialParts(m: Machine, s: Step)
    requires !Plain(s)
    ensures var raw, change := OwnEvent(m, s), ChangeOf(m, s);
            Emitted(m, s) == if raw.None? then change
                             else if s.DoReplyStarted? || s.DoClose? then change + [raw.value]
                             else [raw.value] + change
  {
    var change := ChangeOf(m, s);
    assert [] + change == change == change + [];
  }

  lemma {:induction false} StepTransitions(m: Machine, s: Step)
    ensures TransitionsIn(Emitted(m, s)) == PhoneDrift.AddedBy(m, s)
  {
    OwnAside(m, s);
    var (m', wanted) := Wanted(m, s);
    WantedNamed(m, s);
    SameMoves(m, s);
    if wanted.Some? {
      ChangeTraced(m', wanted.value);
    }
  }

  lemma {:induction false} OwnAside(m: Machine, s: Step)
    ensures TransitionsIn(Emitted(m, s)) == TransitionsIn(ChangeOf(m, s))
  {
    EmittedParts(m, s);
    if OwnEvent(m, s).Some? {
      PairTransitions(OwnEvent(m, s).value, ChangeOf(m, s));
    }
  }

  lemma {:induction false} SameMoves(m: Machine, s: Step)
    ensures var (m', wanted) := Wanted(m, s);
            m'.currentState == m.currentState && m'.stateTimeline == m.stateTimeline
  {}

  lemma {:induction false} ChangeTraced(m: Machine, c: Change)
    requires Named(c)
    ensures TransitionsIn(Traced(Recorded(m, Some(c)).1))
         == if Moves(m, c.toState) then [TimelineEntry(Strip(c.toState), c.reason)] else []
  {
    NameStripped(c.toState);
    NameStripped(c.reason);
    if Moves(m, c.toState) {
      TransitionsSnoc([], StateChanged(c.toState, c.reason));
      assert Traced(Recorded(m, Some(c)).1) == [] + [StateChanged(c.toState, c.reason)];
    }
  }

  /** In every run the transitions in the trace are the machine's timeline, entry by entry. */
  lemma {:induction false} TransitionsTraced(mode: string, menuKey: string, startedAt: int, steps: seq<TimedStep>)
    ensures Transitions(TraceOf(mode, menuKey, startedAt, steps)) == MachineAfter(mode, menuKey, steps).stateTimeline
  {
    if steps == [] {
      StartTraced(mode, menuKey, startedAt);
    } else {
      var n := |steps| - 1;
      var m := MachineAfter(mode, menuKey, steps[..n]);
      TransitionsTraced(mode, menuKey, startedAt, steps[..n]);
      StampedTransitions(TraceOf(mode, menuKey, startedAt, steps[..n]), steps[n].at, m.mode, Emitted(m, steps[n].step));
      StepTransitions(m, steps[n].step);
      PhoneDrift.AddedIs(m, steps[n].step);
    }
  }

  lemma {:induction false} StartTraced(mode: string, menuKey: string, startedAt: int)
    ensures Transitions(TraceOf(mode, menuKey, startedAt, [])) == NewMachine(mode, menuKey).stateTimeline
  {
    NewIs(mode, menuKey);
    var start := StateChanged(NewMachine(mode, menuKey).currentState, "call_started");
    StampedTransitions([], startedAt, mode, [start, OtherEvent]);
    assert [] + Stamped(startedAt, mode, [start, OtherEvent]) == Stamped(startedAt, mode, [start, OtherEvent]);
    StartTransition(start);
  }

  lemma {:induction false} StartTransition(start: EventKind)
    requires start.StateChanged?
    ensures TransitionsIn([start, OtherEvent]) == [TimelineEntry(start.toState, start.reason)]
  {
    assert [start, OtherEvent] == [start] + [OtherEvent] && [start] == [] + [start];
    TransitionsSnoc([start], OtherEvent);
    TransitionsSnoc([], start);
  }
}
