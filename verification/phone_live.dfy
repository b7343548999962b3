/**
 A started session driving its machine and its trace, and what the replay shows when a trace call
 and its machine call come apart.
 */
module PhoneLive {
  import opened Text
  import opened PhoneSession
  import opened PhoneReplay
  import opened PhoneReplayProof

  class LiveSession {
    const machine: PhoneSessionMachine
    ghost const startMode: string
    ghost const startMenuKey: string
    ghost const startedAt: int
    var trace: seq<TraceEvent>
    ghost var steps: seq<TimedStep>

    ghost predicate Valid()
      reads this, machine
    {
      && Normal(startMode) != ""
      && InOrder(startedAt, steps)
      && machine.Model() == MachineAfter(startMode, startMenuKey, steps)
      && trace == TraceOf(startMode, startMenuKey, startedAt, steps)
    }

    constructor (mode: string, menuKey: string, now: int)
      requires Normal(mode) != ""
      ensures Valid() && steps == [] && fresh(machine)
      ensures startMode == mode && startMenuKey == menuKey && startedAt == now
    {
      var m := new PhoneSessionMachine(mode, menuKey);
      machine := m;
      startMode, startMenuKey, startedAt, steps := mode, menuKey, now, [];
      trace := Stamped(now, mode, [StateChanged(m.currentState, "call_started"), OtherEvent]);
    }

    // One event handler: its trace call and its machine call, in the source's order.
    method Perform(s: Step, now: int)
      requires Valid() && now >= LastTime(startedAt, steps)
      modifies this, machine
      ensures Valid() && steps == old(steps) + [TimedStep(now, s)]
    {
      RunExtends(startMode, startMenuKey, startedAt, steps, now, s);
      var mode := machine.mode;
      var kinds := Handle(s);
      steps := steps + [TimedStep(now, s)];
      trace := trace + Stamped(now, mode, kinds);
    }

    method Handle(s: Step) returns (kinds: seq<EventKind>)
      modifies machine
      ensures machine.Model() == After(old(machine.Model()), s)
      ensures kinds == Emitted(old(machine.Model()), s)
    {
      var change: Option<Transition>;
      match s {
        case DoDtmf =>
          change := machine.OnDtmf();
          kinds := [Dtmf] + Traced(change);
        case DoMenuUnmatched =>
          change := machine.OnMenuUnmatched();
          kinds := [MenuUnmatched] + Traced(change);
        case DoMenuChoice(action, nextMode, nextMenuKey) =>
          change := machine.OnMenuChoice(action, nextMode, nextMenuKey);
          kinds := [MenuChoice(action)] + Traced(change);
        case DoPinVerified(nextMode, nextMenuKey) =>
          change := machine.OnOwnerPinVerified(nextMode, nextMenuKey);
          kinds := [PinVerified] + Traced(change);
        case DoPinRejected(attempts) =>
          change := machine.OnOwnerPinRejected(attempts);
          kinds := [PinRejected(attempts)] + Traced(change);
        case DoTranscribed =>
          change := machine.OnTranscribed();
          kinds := [Transcribed] + Traced(change);
        case _ =>
          kinds := HandleReply(s);
      }
    }

    method HandleReply(s: Step) returns (kinds: seq<EventKind>)
      requires !s.DoDtmf? && !s.DoMenuUnmatched? && !s.DoMenuChoice? && !s.DoPinVerified? && !s.DoPinRejected?
               && !s.DoTranscribed?
      modifies machine
      ensures machine.Model() == After(old(machine.Model()), s)
      ensures kinds == Emitted(old(machine.Model()), s)
    {
      var change: Option<Transition>;
      match s {
        case DoReplyStarted(workspace, traced) =>
          change := machine.OnReplyStarted(workspace);
          kinds := Traced(change) + if traced then [ReplyStarted(workspace)] else [];
        case DoReplyCompleted(workspace, traced) =>
          change := machine.OnReplyCompleted(workspace);
          kinds := (if traced then [ReplyCompleted(workspace)] else []) + Traced(change);
        case DoTtsSent =>
          change := machine.OnTtsSent();
          kinds := [TtsSent] + Traced(change);
        case DoTtsAttemptFailed =>
          change := machine.OnError("phone_stream_tts_attempt_failed");
          kinds := [OtherEvent] + Traced(change);
        case DoTtsFailed =>
          change := machine.OnError("phone_stream_tts_failed");
          kinds := [TtsFailed] + Traced(change);
        case DoEventError =>
          change := machine.OnError("phone_stream_event_error");
          kinds := [EventError] + Traced(change);
        case DoClose(reason) =>
          change := machine.OnClose(reason);
          kinds := Traced(change) + [Closed(reason, DiagnosticsOf(machine.Model()))];
        case DoOther =>
          kinds := [OtherEvent];
      }
    }

    // The dashboard's offline view of this session.
    method Replay() returns (d: Diagnostics)
      requires Valid()
      ensures d == DiagnosticsOf(machine.Model())
    {
      d := AnalyzePhoneCallTimeline(trace);
      ReplayAgrees(startMode, startMenuKey, startedAt, steps);
    }
  }

  lemma {:induction false} RunExtends(mode: string, menuKey: string, startedAt: int, steps: seq<TimedStep>,
                                      now: int, s: Step)
    requires InOrder(startedAt, steps) && now >= LastTime(startedAt, steps)
    ensures var m, more := MachineAfter(mode, menuKey, steps), steps + [TimedStep(now, s)];
            && InOrder(startedAt, more)
            && MachineAfter(mode, menuKey, more) == After(m, s)
            && TraceOf(mode, menuKey, startedAt, more)
               == TraceOf(mode, menuKey, startedAt, steps) + Stamped(now, m.mode, Emitted(m, s))
  {
    assert (steps + [TimedStep(now, s)])[..|steps|] == steps;
  }

  // ------------------------------------------------------- trace and machine come apart

  lemma {:induction false} AgreeExactly(v: View, m: Machine)
    ensures DiagnosticsOfView(v) == DiagnosticsOf(m) <==> Agree(v, m)
  {}

  lemma {:induction false} ChangeSeen(v: View, m: Machine, c: Change)
    requires Agree(v, m) && Named(c)
    ensures Agree(Apply(v, c), m) <==> c.toState == m.currentState
  {
    NameStripped(c.toState);
  }

  // One more event behind a run's trace: the replay is right for a machine that agrees with its view.
  lemma {:induction false} AnalyseLast(mode: string, menuKey: string, startedAt: int, steps: seq<TimedStep>,
                                       e: TraceEvent, m: Machine)
    requires Normal(mode) != "" && InOrder(startedAt, steps) && e.timestamp >= LastTime(startedAt, steps)
    ensures var t := TraceOf(mode, menuKey, startedAt, steps);
            var v := ObserveAll(FirstView(mode), t);
            && Agree(v, MachineAfter(mode, menuKey, steps))
            && (Analyse(t + [e]) == DiagnosticsOf(m) <==> Agree(Observe(v, e.kind), m))
  {
    var t := TraceOf(mode, menuKey, startedAt, steps);
    TraceOrdered(mode, menuKey, startedAt, steps);
    SortOrdered(t + [e]);
    ObserveSnoc(FirstView(mode), t, e);
    AgreeExactly(ObserveAll(FirstView(mode), t + [e]), m);
    RunAgrees(mode, menuKey, startedAt, steps);
  }

  // Which events, traced without their machine call, leave the replay right.
  predicate NothingNew(m: Machine, e: EventKind) {
    match e
    case MenuChoice(action) =>
      ActionChange(action).toState == m.currentState
      && (TerminalName(action).Some? ==> m.terminalAction == TerminalName(action))
    case ReplyStarted(_) => m.currentState == "generating_reply"
    case ReplyCompleted(_) => m.currentState == "reply_ready"
    case _ => true
  }

  lemma {:induction false} NothingNewSeen(v: View, m: Machine, e: EventKind)
    requires Agree(v, m) && (e.MenuChoice? || e.ReplyStarted? || e.ReplyCompleted?)
    ensures Agree(Observe(v, e), m) <==> NothingNew(m, e)
  {
    match e {
      case MenuChoice(action) => ChoiceSeen(v, m, action);
      case ReplyStarted(w) => ChangeSeen(v, m, StartedChange(w));
      case ReplyCompleted(w) => ChangeSeen(v, m, CompletedChange(w));
      case _ =>
    }
  }

  lemma {:induction false} ChoiceSeen(v: View, m: Machine, action: Action)
    requires Agree(v, m)
    ensures Agree(Observe(v, MenuChoice(action)), m) <==> NothingNew(m, MenuChoice(action))
  {
    ActionNamed(action);
    ChangeSeen(v, m, ActionChange(action));
    NameStripped(ActionChange(action).toState);
  }

  lemma {:induction false} LoneEventAgrees(mode: string, menuKey: string, startedAt: int, steps: seq<TimedStep>,
                                           e: TraceEvent)
    requires Normal(mode) != "" && InOrder(startedAt, steps) && e.timestamp >= LastTime(startedAt, steps)
    requires e.kind.MenuChoice? || e.kind.ReplyStarted? || e.kind.ReplyCompleted?
    ensures var m := MachineAfter(mode, menuKey, steps);
            Analyse(TraceOf(mode, menuKey, startedAt, steps) + [e]) == DiagnosticsOf(m) <==> NothingNew(m, e.kind)
  {
    var m := MachineAfter(mode, menuKey, steps);
    AnalyseLast(mode, menuKey, startedAt, steps, e, m);
    NothingNewSeen(ObserveAll(FirstView(mode), TraceOf(mode, menuKey, startedAt, steps)), m, e.kind);
  }

  /** When routing a menu choice raises after the choice was traced, the machine is never told. The
      replay is still right exactly when the action would have changed nothing. */
  lemma {:induction false} RouteFailureAgrees(mode: string, menuKey: string, startedAt: int, steps: seq<TimedStep>,
                                              at: int, payloadMode: string, action: Action)
    requires Normal(mode) != "" && InOrder(startedAt, steps) && at >= LastTime(startedAt, steps)
    ensures var m := MachineAfter(mode, menuKey, steps);
            var t := TraceOf(mode, menuKey, startedAt, steps) + [TraceEvent(at, payloadMode, MenuChoice(action))];
            Analyse(t) == DiagnosticsOf(m)
            <==> ActionChange(action).toState == m.currentState
                 && (TerminalName(action).Some? ==> m.terminalAction == TerminalName(action))
  {
    LoneEventAgrees(mode, menuKey, startedAt, steps, TraceEvent(at, payloadMode, MenuChoice(action)));
  }

  /** The same for the service's trace of a started reply, which another task can delay past a state change. */
  lemma {:induction false} LateReplyTraceAgrees(mode: string, menuKey: string, startedAt: int, steps: seq<TimedStep>,
                                                at: int, payloadMode: string, workspace: bool)
    requires Normal(mode) != "" && InOrder(startedAt, steps) && at >= LastTime(startedAt, steps)
    ensures var m := MachineAfter(mode, menuKey, steps);
            var t := TraceOf(mode, menuKey, startedAt, steps) + [TraceEvent(at, payloadMode, ReplyStarted(workspace))];
            Analyse(t) == DiagnosticsOf(m) <==> m.currentState == "generating_reply"
  {
    LoneEventAgrees(mode, menuKey, startedAt, steps, TraceEvent(at, payloadMode, ReplyStarted(workspace)));
  }

  /** The trace of a completed reply comes before its machine call; when that call never follows, as
      when the task is cancelled between the two, the replay is right only if nothing was left to do. */
  lemma {:induction false} EarlyReplyTraceAgrees(mode: string, menuKey: string, startedAt: int, steps: seq<TimedStep>,
                                                 at: int, payloadMode: string, workspace: bool)
    requires Normal(mode) != "" && InOrder(startedAt, steps) && at >= LastTime(startedAt, steps)
    ensures var m := MachineAfter(mode, menuKey, steps);
            var e := TraceEvent(at, payloadMode, ReplyCompleted(workspace));
            Analyse(TraceOf(mode, menuKey, startedAt, steps) + [e]) == DiagnosticsOf(m)
            <==> m.currentState == "reply_ready"
  {
    LoneEventAgrees(mode, menuKey, startedAt, steps, TraceEvent(at, payloadMode, ReplyCompleted(workspace)));
  }

  lemma {:induction false} FirstKept(m: Machine, s: Step)
    requires m.stateTimeline != []
    ensures After(m, s).stateTimeline != [] && After(m, s).stateTimeline[0] == m.stateTimeline[0]
  {}

  lemma {:induction false} FirstEntry(mode: string, menuKey: string, steps: seq<TimedStep>)
    ensures var t := MachineAfter(mode, menuKey, steps).stateTimeline;
            t != [] && t[0].reason == "call_started"
  {
    if steps != [] {
      FirstEntry(mode, menuKey, steps[..|steps| - 1]);
      FirstKept(MachineAfter(mode, menuKey, steps[..|steps| - 1]), steps[|steps| - 1].step);
    } else {
      NewIs(mode, menuKey);
    }
  }

  /** A second start event on the same stream replaces the machine while the trace goes on. The
      replay agrees with the new machine exactly when the old one had not moved, ended or chosen
      a terminal action, and the new mode starts in the same state. */
  lemma {:induction false} RestartAgrees(mode: string, menuKey: string, startedAt: int, steps: seq<TimedStep>,
                                         at: int, mode2: string, menuKey2: string)
    requires Normal(mode) != "" && InOrder(startedAt, steps) && at >= LastTime(startedAt, steps)
    ensures var m, m2 := MachineAfter(mode, menuKey, steps), NewMachine(mode2, menuKey2);
            var t := TraceOf(mode, menuKey, startedAt, steps)
                     + [TraceEvent(at, mode2, StateChanged(m2.currentState, "call_started"))];
            Analyse(t) == DiagnosticsOf(m2)
            <==> |m.stateTimeline| == 1 && m.currentState == m2.currentState
                 && m.terminalAction == None && m.hangupReason == None
  {
    var m, m2 := MachineAfter(mode, menuKey, steps), NewMachine(mode2, menuKey2);
    var e := TraceEvent(at, mode2, StateChanged(m2.currentState, "call_started"));
    AnalyseLast(mode, menuKey, startedAt, steps, e, m2);
    RunWellRun(mode, menuKey, steps);
    FirstEntry(mode, menuKey, steps);
    NewIs(mode2, menuKey2);
    RestartSeen(ObserveAll(FirstView(mode), TraceOf(mode, menuKey, startedAt, steps)), m, m2);
  }

  lemma {:induction false} RestartSeen(v: View, m: Machine, m2: Machine)
    requires Agree(v, m) && WellRun(m) && m.stateTimeline[0].reason == "call_started" && Name(m2.currentState)
    requires m2.stateTimeline == [TimelineEntry(m2.currentState, "call_started")]
    requires m2.visitedStates == [m2.currentState] && m2.terminalAction == None && m2.hangupReason == None
    ensures Agree(Observe(v, StateChanged(m2.currentState, "call_started")), m2)
            <==> |m.stateTimeline| == 1 && m.currentState == m2.currentState
                 && m.terminalAction == None && m.hangupReason == None
  {
    NameStripped(m2.currentState);
    NameStripped("call_started");
    if |m.stateTimeline| == 1 {
      assert m.stateTimeline[..0] == [];
      assert FirstOccurrences(m.stateTimeline) == [m.currentState];
      assert m.stateTimeline == [TimelineEntry(m.currentState, "call_started")];
    }
  }
}
