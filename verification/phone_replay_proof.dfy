/** Replaying a session's trace gives the machine's own diagnostics, after every run. */
module PhoneReplayProof {
  import opened Text
  import opened PhoneSession
  import opened PhoneReplay

  // Not empty, and without blank margins.
  predicate Name(s: string) {
    s != "" && Clean(s, SPACES)
  }

  predicate Named(c: Change) {
    Name(c.toState) && Name(c.reason)
  }

  lemma {:induction false} NameStripped(s: string)
    requires Name(s)
    ensures Strip(s) == s && Cleaned(s) == Some(s)
  {
    TrimClean(s, SPACES);
  }

  lemma {:induction false} CleanedName(s: string)
    ensures Cleaned(s).Some? ==> Name(Cleaned(s).value)
  {
    var _, _ := TrimParts(s, SPACES);
  }

  lemma {:induction false} ClosedNamed(reason: string)
    ensures Named(ClosedChange(reason))
  {
    CleanedName(reason);
  }

  lemma {:induction false} WantedNamed(m: Machine, s: Step)
    ensures Wanted(m, s).1.Some? ==> Named(Wanted(m, s).1.value)
  {
    match s {
      case DoClose(reason) => ClosedNamed(reason);
      case DoMenuChoice(action, _, _) => ActionNamed(action);
      case DoDtmf => DtmfNamed(m.currentState);
      case DoTranscribed => TranscribedNamed(m.currentState);
      case DoReplyStarted(_, _) => ReplyNamed(m, s);
      case DoReplyCompleted(_, _) => ReplyNamed(m, s);
      case DoPinRejected(_) => PinNamed(m, s);
      case DoPinVerified(_, _) => PinNamed(m, s);
      case _ => OtherNamed(m, s);
    }
  }

  lemma {:induction false} ActionNamed(action: Action)
    ensures Named(ActionChange(action))
  {}

  lemma {:induction false} DtmfNamed(current: string)
    ensures DtmfChange(current).Some? ==> Named(DtmfChange(current).value)
  {}

  lemma {:induction false} TranscribedNamed(current: string)
    ensures Named(TranscribedChange(current))
  {}

  lemma {:induction false} ReplyNamed(m: Machine, s: Step)
    requires s.DoReplyStarted? || s.DoReplyCompleted?
    ensures Named(Wanted(m, s).1.value)
  {}

  lemma {:induction false} PinNamed(m: Machine, s: Step)
    requires s.DoPinVerified? || s.DoPinRejected?
    ensures Named(Wanted(m, s).1.value)
  {}

  lemma {:induction false} OtherNamed(m: Machine, s: Step)
    requires s.DoMenuUnmatched? || s.DoTtsSent? || s.DoTtsAttemptFailed? || s.DoTtsFailed? || s.DoEventError?
             || s.DoOther?
    ensures Wanted(m, s).1.Some? ==> Named(Wanted(m, s).1.value)
  {}

  // ------------------------------------------------------- modes

  lemma {:induction false} LowerAt(s: string)
    ensures |Lower(s)| == |s| && forall i | 0 <= i < |s| :: Lower(s)[i] == LowerChar(s[i])
  {
    if s != "" {
      LowerAt(s[1..]);
    }
  }

  lemma {:induction false} NormalName(mode: string)
    requires Normal(mode) != ""
    ensures Name(Normal(mode))
  {
    var _, _ := TrimParts(mode, SPACES);
    LowerAt(Strip(mode));
    assert forall c: char :: LowerChar(c) in SPACES <==> c in SPACES;
  }

  lemma {:induction false} NormalTwice(mode: string)
    ensures Normal(Normal(mode)) == Normal(mode)
  {
    if Normal(mode) != "" {
      NormalName(mode);
      NameStripped(Normal(mode));
      LowerAt(Strip(mode));
      LowerAt(Normal(mode));
    }
  }

  lemma {:induction false} InitialName(mode: string)
    ensures Name(InitialState(mode))
  {
    if Normal(mode) != "" {
      NormalName(mode);
    }
  }

  // ------------------------------------------------------- what every run keeps

  // The distinct states of a timeline in the order they were first reached.
  function FirstOccurrences(timeline: seq<TimelineEntry>): seq<string> {
    if timeline == [] then []
    else Visited(FirstOccurrences(timeline[..|timeline| - 1]), timeline[|timeline| - 1].state)
  }

  predicate WellRun(m: Machine) {
    && m.stateTimeline != []
    && m.stateTimeline[|m.stateTimeline| - 1].state == m.currentState
    && m.visitedStates == FirstOccurrences(m.stateTimeline)
    && (forall i | 0 < i < |m.stateTimeline| :: m.stateTimeline[i].state != m.stateTimeline[i - 1].state)
    && (forall i | 0 <= i < |m.visitedStates| :: Name(m.visitedStates[i]))
    && Name(m.currentState)
  }

  lemma {:induction false} RecordWellRun(m: Machine, next: string, reason: string)
    requires WellRun(m) && Name(next)
    ensures WellRun(Record(m, next, reason))
  {
    NameStripped(next);
    var entry := TimelineEntry(next, reason);
    assert (m.stateTimeline + [entry])[..|m.stateTimeline|] == m.stateTimeline;
  }

  lemma {:induction false} WantedWellRun(m: Machine, s: Step)
    requires WellRun(m)
    ensures WellRun(Wanted(m, s).0)
  {}

  lemma {:induction false} StepWellRun(m: Machine, s: Step)
    requires WellRun(m)
    ensures WellRun(After(m, s))
  {
    WantedNamed(m, s);
    WantedWellRun(m, s);
    var (m', wanted) := Wanted(m, s);
    if wanted.Some? {
      RecordWellRun(m', wanted.value.toState, wanted.value.reason);
    }
  }

  lemma {:induction false} NewIs(mode: string, menuKey: string)
    ensures var m := NewMachine(mode, menuKey);
            && Name(m.currentState)
            && m.stateTimeline == [TimelineEntry(m.currentState, "call_started")]
            && m.visitedStates == [m.currentState]
            && m.terminalAction == None && m.hangupReason == None
            && (Normal(mode) != "" ==> m.currentState == InitialState(mode))
  {
    var normal := if Normal(mode) == "" then "owner" else Normal(mode);
    InitialName(normal);
    NameStripped(InitialState(normal));
    NormalTwice(mode);
    InitialAgain(mode);
  }

  lemma {:induction false} InitialAgain(mode: string)
    ensures InitialState(Normal(mode)) == InitialState(mode)
  {
    NormalTwice(mode);
  }

  lemma {:induction false} NewWellRun(mode: string, menuKey: string)
    ensures WellRun(NewMachine(mode, menuKey))
  {
    NewIs(mode, menuKey);
    var m := NewMachine(mode, menuKey);
    assert m.stateTimeline[..0] == [];
    assert FirstOccurrences(m.stateTimeline) == Visited(FirstOccurrences([]), m.currentState);
  }

  /** In every run the visited states are the timeline's states at first occurrence, neighbours in
      the timeline differ, and its last state is the current one. */
  lemma {:induction false} RunWellRun(mode: string, menuKey: string, steps: seq<TimedStep>)
    ensures WellRun(MachineAfter(mode, menuKey, steps))
  {
    if steps == [] {
      NewWellRun(mode, menuKey);
    } else {
      RunWellRun(mode, menuKey, steps[..|steps| - 1]);
      StepWellRun(MachineAfter(mode, menuKey, steps[..|steps| - 1]), steps[|steps| - 1].step);
    }
  }

  // ------------------------------------------------------- one step of the simulation

  predicate Agree(v: View, m: Machine) {
    && v.currentState == m.currentState
    && v.visitedStates == m.visitedStates
    && v.stateTimeline == m.stateTimeline
    && v.terminalAction == m.terminalAction
    && v.hangupReason == m.hangupReason
  }

  function ObserveKinds(v: View, kinds: seq<EventKind>): View
    decreases |kinds|
  {
    if kinds == [] then v else ObserveKinds(Observe(v, kinds[0]), kinds[1..])
  }

  lemma {:induction false} ObserveOne(v: View, e: EventKind, rest: seq<EventKind>)
    ensures ObserveKinds(v, [e] + rest) == ObserveKinds(Observe(v, e), rest)
  {
    assert ([e] + rest)[1..] == rest;
  }

  lemma {:induction false} ObserveKindsSnoc(v: View, kinds: seq<EventKind>, e: EventKind)
    ensures ObserveKinds(v, kinds + [e]) == Observe(ObserveKinds(v, kinds), e)
    decreases |kinds|
  {
    if kinds == [] {
      assert kinds + [e] == [e] + [];
      ObserveOne(v, e, []);
    } else {
      assert (kinds + [e])[1..] == kinds[1..] + [e];
      ObserveKindsSnoc(Observe(v, kinds[0]), kinds[1..], e);
    }
  }

  lemma {:induction false} SetAgrees(v: View, m: Machine, c: Change)
    requires Agree(v, m) && m.stateTimeline != [] && Named(c)
    ensures Agree(Apply(v, c), Record(m, c.toState, c.reason))
  {}

  // The traced change of an already agreeing view: it either makes the move or finds it made.
  lemma {:induction false} TraceSeen(v: View, m: Machine, c: Change)
    requires Named(c) && Moves(m, c.toState)
    ensures ObserveKinds(v, Traced(Recorded(m, Some(c)).1)) == Apply(v, c)
  {
    NameStripped(c.toState);
    NameStripped(c.reason);
    var e := StateChanged(c.toState, c.reason);
    assert Traced(Recorded(m, Some(c)).1) == [e];
    ObserveOne(v, e, []);
    assert [e] + [] == [e];
  }

  lemma {:induction false} ApplyTwice(v: View, c: Change)
    ensures Apply(Apply(v, c), c) == Apply(v, c)
  {}

  // The analyser learns of a change from its traced transition.
  lemma {:induction false} Indirect(v: View, m: Machine, wanted: Option<Change>)
    requires Agree(v, m) && m.stateTimeline != []
    requires wanted.Some? ==> Named(wanted.value)
    ensures Agree(ObserveKinds(v, Traced(Recorded(m, wanted).1)), Recorded(m, wanted).0)
  {
    if wanted.Some? && Moves(m, wanted.value.toState) {
      TraceSeen(v, m, wanted.value);
      SetAgrees(v, m, wanted.value);
    }
  }

  // The analyser makes the move on the raw event; the traced transition then changes nothing.
  lemma {:induction false} Direct(v: View, m: Machine, c: Change)
    requires Agree(v, m) && m.stateTimeline != [] && Named(c)
    ensures Agree(ObserveKinds(Apply(v, c), Traced(Recorded(m, Some(c)).1)), Recorded(m, Some(c)).0)
  {
    SetAgrees(v, m, c);
    if Moves(m, c.toState) {
      TraceSeen(Apply(v, c), m, c);
      ApplyTwice(v, c);
    }
  }

  lemma {:induction false} RawThenTraced(v: View, e: EventKind, m: Machine, c: Change)
    requires m.stateTimeline != [] && Named(c)
    requires exists w :: Agree(w, m) && Observe(v, e) == Apply(w, c)
    ensures Agree(ObserveKinds(v, [e] + Traced(Recorded(m, Some(c)).1)), Recorded(m, Some(c)).0)
  {
    var w :| Agree(w, m) && Observe(v, e) == Apply(w, c);
    ObserveOne(v, e, Traced(Recorded(m, Some(c)).1));
    Direct(w, m, c);
  }

  lemma {:induction false} RawIgnored(v: View, e: EventKind, m: Machine, wanted: Option<Change>)
    requires Agree(v, m) && m.stateTimeline != [] && Observe(v, e) == v
    requires wanted.Some? ==> Named(wanted.value)
    ensures Agree(ObserveKinds(v, [e] + Traced(Recorded(m, wanted).1)), Recorded(m, wanted).0)
  {
    ObserveOne(v, e, Traced(Recorded(m, wanted).1));
    Indirect(v, m, wanted);
  }

  lemma {:induction false} DtmfStep(v: View, m: Machine)
    requires Agree(v, m) && WellRun(m)
    ensures Agree(ObserveKinds(v, Emitted(m, DoDtmf)), After(m, DoDtmf))
  {
    WantedNamed(m, DoDtmf);
    var wanted := DtmfChange(m.currentState);
    if m.currentState == "owner_pin" || m.currentState in MENU_STATES {
      assert Observe(v, Dtmf) == Apply(v, wanted.value);
      RawThenTraced(v, Dtmf, m, wanted.value);
    } else {
      RawIgnored(v, Dtmf, m, wanted);
    }
  }

  lemma {:induction false} MenuChoiceStep(v: View, m: Machine, s: Step)
    requires Agree(v, m) && WellRun(m) && s.DoMenuChoice?
    ensures Agree(ObserveKinds(v, Emitted(m, s)), After(m, s))
  {
    WantedNamed(m, s);
    var (m', wanted) := Wanted(m, s);
    var e := MenuChoice(s.action);
    var w := if TerminalName(s.action).Some? then v.(terminalAction := TerminalName(s.action)) else v;
    assert Agree(w, m') && Observe(v, e) == Apply(w, wanted.value);
    RawThenTraced(v, e, m', wanted.value);
  }

  lemma {:induction false} ReplyStartedStep(v: View, m: Machine, s: Step)
    requires Agree(v, m) && WellRun(m) && s.DoReplyStarted?
    ensures Agree(ObserveKinds(v, Emitted(m, s)), After(m, s))
  {
    WantedNamed(m, s);
    var c := StartedChange(s.workspace);
    var change := Traced(Recorded(m, Some(c)).1);
    Indirect(v, m, Some(c));
    assert change + [] == change;
    if s.traced {
      ObserveKindsSnoc(v, change, ReplyStarted(s.workspace));
      SeenAgain(ObserveKinds(v, change), m, c);
    }
  }

  // A view that agrees with a machine that has recorded a change finds nothing new in it.
  lemma {:induction false} SeenAgain(w: View, m: Machine, c: Change)
    requires Named(c) && Agree(w, Record(m, c.toState, c.reason))
    ensures Apply(w, c) == w
  {
    NameStripped(c.toState);
  }

  lemma {:induction false} ReplyCompletedStep(v: View, m: Machine, s: Step)
    requires Agree(v, m) && WellRun(m) && s.DoReplyCompleted?
    ensures Agree(ObserveKinds(v, Emitted(m, s)), After(m, s))
  {
    WantedNamed(m, s);
    var c := CompletedChange(s.workspace);
    if s.traced {
      assert Observe(v, ReplyCompleted(s.workspace)) == Apply(v, c);
      RawThenTraced(v, ReplyCompleted(s.workspace), m, c);
    } else {
      Indirect(v, m, Some(c));
      var change := Traced(Recorded(m, Some(c)).1);
      assert [] + change == change;
    }
  }

  lemma {:induction false} NonBlankKeeps(states: seq<string>)
    requires forall i | 0 <= i < |states| :: Name(states[i])
    ensures NonBlank(states) == states
  {
    if states != [] {
      NonBlankKeeps(states[..|states| - 1]);
      NameStripped(states[|states| - 1]);
    }
  }

  // What the close event carries is what the view has already seen.
  lemma {:induction false} AdoptSeen(w: View, m: Machine, closing: Diagnostics)
    requires WellRun(m) && Agree(w, m)
    requires closing.currentState == Some(m.currentState) && closing.visitedStates == m.visitedStates
    requires closing.terminalAction == m.terminalAction
    ensures Adopt(w, closing) == w
  {
    NonBlankKeeps(m.visitedStates);
    NameStripped(m.currentState);
    assert Strip("") == "";
  }

  lemma {:induction false} ClosedSeen(w: View, m: Machine, reason: string, closing: Diagnostics)
    requires WellRun(m) && m.currentState == "closed" && Agree(w.(hangupReason := Cleaned(reason)), m)
    requires closing.currentState == Some(m.currentState) && closing.visitedStates == m.visitedStates
    requires closing.terminalAction == m.terminalAction
    ensures Agree(Observe(w, Closed(reason, closing)), m)
  {
    AdoptSeen(w.(hangupReason := Cleaned(reason)), m, closing);
    NameStripped(m.currentState);
  }

  lemma {:induction false} CloseStep(v: View, m: Machine, s: Step)
    requires Agree(v, m) && WellRun(m) && s.DoClose?
    ensures Agree(ObserveKinds(v, Emitted(m, s)), After(m, s))
  {
    WantedNamed(m, s);
    StepWellRun(m, s);
    var m' := HungUp(m, s.reason);
    var c := ClosedChange(s.reason);
    var change := Traced(Recorded(m', Some(c)).1);
    var v' := v.(hangupReason := Cleaned(s.reason));
    Indirect(v', m', Some(c));
    var closing := DiagnosticsOf(After(m, s));
    ObserveKindsSnoc(v, change, Closed(s.reason, closing));
    ReasonSeen(v, m', c, s.reason);
    NameStripped("closed");
    ClosedSeen(ObserveKinds(v, change), After(m, s), s.reason, closing);
  }

  // The traced transition leaves the hangup reason to the close event behind it.
  lemma {:induction false} ReasonSeen(v: View, m: Machine, c: Change, reason: string)
    requires Named(c)
    ensures var change := Traced(Recorded(m, Some(c)).1);
            var v' := v.(hangupReason := Cleaned(reason));
            ObserveKinds(v', change) == ObserveKinds(v, change).(hangupReason := Cleaned(reason))
  {
    if Moves(m, c.toState) {
      TraceSeen(v, m, c);
      TraceSeen(v.(hangupReason := Cleaned(reason)), m, c);
    }
  }

  // The steps whose raw event asks the analyser for the machine's own change.
  predicate Plain(s: Step) {
    || s.DoMenuUnmatched? || s.DoPinVerified? || s.DoPinRejected? || s.DoTranscribed? || s.DoTtsSent?
    || s.DoTtsFailed? || s.DoEventError?
  }

  function Raw(s: Step): EventKind
    requires Plain(s)
  {
    match s
    case DoMenuUnmatched => MenuUnmatched
    case DoPinVerified(_, _) => PinVerified
    case DoPinRejected(n) => PinRejected(n)
    case DoTranscribed => Transcribed
    case DoTtsSent => TtsSent
    case DoTtsFailed => TtsFailed
    case DoEventError => EventError
  }

  lemma {:induction false} PlainEmits(m: Machine, s: Step)
    requires Plain(s)
    ensures var (m', wanted) := Wanted(m, s);
            Emitted(m, s) == [Raw(s)] + Traced(Recorded(m', wanted).1)
  {}

  lemma {:induction false} PlainAsks(v: View, m: Machine, s: Step)
    requires Plain(s) && v.currentState == m.currentState
    ensures Wanted(m, s).1.Some? && Observe(v, Raw(s)) == Apply(v, Wanted(m, s).1.value)
  {
    if s.DoTranscribed? {
      TranscribedAsks(v, m);
    } else if s.DoTtsSent? || s.DoTtsFailed? || s.DoEventError? {
      SpeechAsks(v, m, s);
    } else if s.DoPinRejected? {
      RejectedAsks(v, m, s);
    } else {
      KeysAsk(v, m, s);
    }
  }

  lemma {:induction false} TranscribedAsks(v: View, m: Machine)
    requires v.currentState == m.currentState
    ensures Observe(v, Transcribed) == Apply(v, TranscribedChange(m.currentState))
  {}

  lemma {:induction false} SpeechAsks(v: View, m: Machine, s: Step)
    requires s.DoTtsSent? || s.DoTtsFailed? || s.DoEventError?
    ensures Wanted(m, s).1.Some? && Observe(v, Raw(s)) == Apply(v, Wanted(m, s).1.value)
  {}

  lemma {:induction false} RejectedAsks(v: View, m: Machine, s: Step)
    requires s.DoPinRejected?
    ensures Wanted(m, s).1.Some? && Observe(v, Raw(s)) == Apply(v, Wanted(m, s).1.value)
  {}

  lemma {:induction false} KeysAsk(v: View, m: Machine, s: Step)
    requires s.DoMenuUnmatched? || s.DoPinVerified?
    ensures Wanted(m, s).1.Some? && Observe(v, Raw(s)) == Apply(v, Wanted(m, s).1.value)
  {}

  lemma {:induction false} PlainStep(v: View, m: Machine, s: Step)
    requires Agree(v, m) && WellRun(m) && Plain(s)
    ensures Agree(ObserveKinds(v, Emitted(m, s)), After(m, s))
  {
    WantedNamed(m, s);
    PlainAsks(v, m, s);
    PlainEmits(m, s);
    var (m', wanted) := Wanted(m, s);
    RawThenTraced(v, Raw(s), m', wanted.value);
  }

  lemma {:induction false} StepAgrees(v: View, m: Machine, s: Step)
    requires Agree(v, m) && WellRun(m)
    ensures Agree(ObserveKinds(v, Emitted(m, s)), After(m, s))
  {
    match s {
      case DoDtmf => DtmfStep(v, m);
      case DoMenuChoice(_, _, _) => MenuChoiceStep(v, m, s);
      case DoReplyStarted(_, _) => ReplyStartedStep(v, m, s);
      case DoReplyCompleted(_, _) => ReplyCompletedStep(v, m, s);
      case DoClose(_) => CloseStep(v, m, s);
      case DoTtsAttemptFailed =>
        WantedNamed(m, s);
        RawIgnored(v, OtherEvent, m, Wanted(m, s).1);
      case DoOther =>
        ObserveOne(v, OtherEvent, []);
        assert [OtherEvent] + [] == [OtherEvent];
      case _ => PlainStep(v, m, s);
    }
  }

  // ------------------------------------------------------- whole runs

  lemma {:induction false} StampedLast(t: seq<TraceEvent>, at: int, mode: string, kinds: seq<EventKind>, e: EventKind)
    ensures t + Stamped(at, mode, kinds + [e]) == (t + Stamped(at, mode, kinds)) + [TraceEvent(at, mode, e)]
  {}

  lemma {:induction false} ObserveSnoc(v: View, t: seq<TraceEvent>, e: TraceEvent)
    ensures ObserveAll(v, t + [e]) == Observe(ObserveAll(v, t), e.kind)
  {
    assert (t + [e])[..|t|] == t;
  }

  lemma {:induction false} ObserveStamped(v: View, t: seq<TraceEvent>, at: int, mode: string, kinds: seq<EventKind>)
    ensures ObserveAll(v, t + Stamped(at, mode, kinds)) == ObserveKinds(ObserveAll(v, t), kinds)
    decreases |kinds|
  {
    if kinds == [] {
      assert t + Stamped(at, mode, kinds) == t;
    } else {
      var before, e := kinds[..|kinds| - 1], kinds[|kinds| - 1];
      assert kinds == before + [e];
      StampedLast(t, at, mode, before, e);
      ObserveSnoc(v, t + Stamped(at, mode, before), TraceEvent(at, mode, e));
      ObserveStamped(v, t, at, mode, before);
      ObserveKindsSnoc(ObserveAll(v, t), before, e);
    }
  }

  lemma {:induction false} StartAgrees(mode: string, menuKey: string, at: int)
    requires Normal(mode) != ""
    ensures Agree(ObserveAll(FirstView(mode), TraceOf(mode, menuKey, at, [])), NewMachine(mode, menuKey))
  {
    var v, m := FirstView(mode), NewMachine(mode, menuKey);
    NewIs(mode, menuKey);
    var kinds := [StateChanged(m.currentState, "call_started"), OtherEvent];
    StartSeen(v, m.currentState);
    var t := Stamped(at, mode, kinds);
    assert [] + t == t;
    ObserveStamped(v, [], at, mode, kinds);
  }

  // The start event tells the analyser nothing new.
  lemma {:induction false} StartSeen(v: View, current: string)
    requires v.currentState == current && Name(current)
    ensures ObserveKinds(v, [StateChanged(current, "call_started"), OtherEvent]) == v
  {
    var e := StateChanged(current, "call_started");
    NameStripped(current);
    assert Observe(v, e) == v;
    ObserveOne(v, e, [OtherEvent]);
    ObserveOne(v, OtherEvent, []);
    assert [e, OtherEvent] == [e] + [OtherEvent] && [OtherEvent] + [] == [OtherEvent];
  }

  lemma {:induction false} RunAgrees(mode: string, menuKey: string, startedAt: int, steps: seq<TimedStep>)
    requires Normal(mode) != ""
    ensures Agree(ObserveAll(FirstView(mode), TraceOf(mode, menuKey, startedAt, steps)),
                  MachineAfter(mode, menuKey, steps))
  {
    if steps == [] {
      StartAgrees(mode, menuKey, startedAt);
    } else {
      var n := |steps| - 1;
      var m := MachineAfter(mode, menuKey, steps[..n]);
      var t := TraceOf(mode, menuKey, startedAt, steps[..n]);
      RunAgrees(mode, menuKey, startedAt, steps[..n]);
      RunWellRun(mode, menuKey, steps[..n]);
      ObserveStamped(FirstView(mode), t, steps[n].at, m.mode, Emitted(m, steps[n].step));
      StepAgrees(ObserveAll(FirstView(mode), t), m, steps[n].step);
    }
  }

  predicate TimeOrdered(t: seq<TraceEvent>) {
    forall i, j | 0 <= i < j < |t| :: t[i].timestamp <= t[j].timestamp
  }

  lemma {:induction false} SortOrdered(t: seq<TraceEvent>)
    requires TimeOrdered(t)
    ensures SortByTime(t) == t
  {
    if t != [] {
      SortOrdered(t[..|t| - 1]);
    }
  }

  predicate NotAfter(t: seq<TraceEvent>, at: int) {
    forall i | 0 <= i < |t| :: t[i].timestamp <= at
  }

  lemma {:induction false} StampedOrdered(t: seq<TraceEvent>, at: int, mode: string, kinds: seq<EventKind>)
    requires TimeOrdered(t) && NotAfter(t, at)
    ensures TimeOrdered(t + Stamped(at, mode, kinds)) && NotAfter(t + Stamped(at, mode, kinds), at)
  {}

  function LastTime(startedAt: int, steps: seq<TimedStep>): int {
    if steps == [] then startedAt else steps[|steps| - 1].at
  }

  lemma {:induction false} TraceOrdered(mode: string, menuKey: string, startedAt: int, steps: seq<TimedStep>)
    requires InOrder(startedAt, steps)
    ensures TimeOrdered(TraceOf(mode, menuKey, startedAt, steps))
    ensures NotAfter(TraceOf(mode, menuKey, startedAt, steps), LastTime(startedAt, steps))
  {
    if steps != [] {
      var n := |steps| - 1;
      TraceOrdered(mode, menuKey, startedAt, steps[..n]);
      var t, m := TraceOf(mode, menuKey, startedAt, steps[..n]), MachineAfter(mode, menuKey, steps[..n]);
      assert LastTime(startedAt, steps[..n]) <= steps[n].at;
      assert NotAfter(t, steps[n].at);
      StampedOrdered(t, steps[n].at, m.mode, Emitted(m, steps[n].step));
    }
  }

  /** For every run of a started session, replaying its trace gives the machine's own diagnostics. */
  lemma {:induction false} ReplayAgrees(mode: string, menuKey: string, startedAt: int, steps: seq<TimedStep>)
    requires Normal(mode) != "" && InOrder(startedAt, steps)
    ensures Analyse(TraceOf(mode, menuKey, startedAt, steps)) == DiagnosticsOf(MachineAfter(mode, menuKey, steps))
  {
    TraceOrdered(mode, menuKey, startedAt, steps);
    SortOrdered(TraceOf(mode, menuKey, startedAt, steps));
    RunAgrees(mode, menuKey, startedAt, steps);
  }
}
