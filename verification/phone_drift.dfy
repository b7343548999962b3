/**
 What the offline replay shows of the rest of a call once a trace event without its machine call has
 led it astray: it finds back to the machine's state, but never loses an extra timeline entry.
 */
module PhoneDrift {
  import opened Text
  import opened PhoneSession
  import opened PhoneReplay
  import opened PhoneReplayProof
  import opened PhoneLive

  // ------------------------------------------------------- further steps of a machine

  function AfterAll(m: Machine, steps: seq<TimedStep>): Machine {
    if steps == [] then m else After(AfterAll(m, steps[..|steps| - 1]), steps[|steps| - 1].step)
  }

  function TraceFrom(m: Machine, steps: seq<TimedStep>): seq<TraceEvent> {
    if steps == [] then []
    else TraceFrom(m, steps[..|steps| - 1]) + LastEvents(m, steps)
  }

  function LastEvents(m: Machine, steps: seq<TimedStep>): seq<TraceEvent>
    requires steps != []
  {
    var n := |steps| - 1;
    var before := AfterAll(m, steps[..n]);
    Stamped(steps[n].at, before.mode, Emitted(before, steps[n].step))
  }

  // A view, whatever it shows, that goes on with the trace of the machine's further steps.
  function ViewAfter(v: View, m: Machine, steps: seq<TimedStep>): View {
    if steps == [] then v
    else
      var n := |steps| - 1;
      ObserveKinds(ViewAfter(v, m, steps[..n]), Emitted(AfterAll(m, steps[..n]), steps[n].step))
  }

  lemma {:induction false} ViewFollows(v: View, t: seq<TraceEvent>, m: Machine, steps: seq<TimedStep>)
    ensures ObserveAll(v, t + TraceFrom(m, steps)) == ViewAfter(ObserveAll(v, t), m, steps)
  {
    if steps == [] {
      assert t + [] == t;
    } else {
      var first := steps[..|steps| - 1];
      ViewFollows(v, t, m, first);
      Grouped(t, TraceFrom(m, first), LastEvents(m, steps));
      LastSeen(v, t + TraceFrom(m, first), m, steps);
    }
  }

  lemma {:induction false} LastSeen(v: View, t: seq<TraceEvent>, m: Machine, steps: seq<TimedStep>)
    requires steps != []
    ensures var n := |steps| - 1;
            ObserveAll(v, t + LastEvents(m, steps))
            == ObserveKinds(ObserveAll(v, t), Emitted(AfterAll(m, steps[..n]), steps[n].step))
  {
    var n := |steps| - 1;
    var before := AfterAll(m, steps[..n]);
    ObserveStamped(v, t, steps[n].at, before.mode, Emitted(before, steps[n].step));
  }

  lemma {:induction false} AfterAllWellRun(m: Machine, steps: seq<TimedStep>)
    requires WellRun(m)
    ensures WellRun(AfterAll(m, steps))
  {
    if steps != [] {
      AfterAllWellRun(m, steps[..|steps| - 1]);
      StepWellRun(AfterAll(m, steps[..|steps| - 1]), steps[|steps| - 1].step);
    }
  }

  // ------------------------------------------------------- a view that shows the machine's state

  // The machine with the history the view shows in place of its own.
  function Dressed(m: Machine, v: View): Machine {
    m.(visitedStates := FirstOccurrences(v.stateTimeline), stateTimeline := v.stateTimeline,
       terminalAction := None, hangupReason := None)
  }

  function Tidied(v: View): View {
    v.(visitedStates := FirstOccurrences(v.stateTimeline), terminalAction := None, hangupReason := None)
  }

  // The view shows the machine's current state behind a sound timeline, which may be another one.
  predicate SameState(v: View, m: Machine) {
    v.currentState == m.currentState && m.stateTimeline != [] && WellRun(Dressed(m, v))
  }

  // The entry a step adds to the machine's timeline.
  function AddedBy(m: Machine, s: Step): seq<TimelineEntry> {
    var wanted := Wanted(m, s).1;
    if wanted.Some? && Moves(m, wanted.value.toState) then
      [TimelineEntry(Strip(wanted.value.toState), wanted.value.reason)]
    else []
  }

  function Added(m: Machine, steps: seq<TimedStep>): seq<TimelineEntry> {
    if steps == [] then []
    else
      var n := |steps| - 1;
      Added(m, steps[..n]) + AddedBy(AfterAll(m, steps[..n]), steps[n].step)
  }

  predicate Alike(v: View, w: View) {
    v.currentState == w.currentState && v.stateTimeline == w.stateTimeline
  }

  // Close events may carry different histories.
  predicate AlikeKind(e: EventKind, f: EventKind) {
    if e.Closed? && f.Closed? then
      e.closeReason == f.closeReason && e.closing.currentState == f.closing.currentState
    else e == f
  }

  lemma {:induction false} ObserveAlike(v: View, w: View, e: EventKind, f: EventKind)
    requires Alike(v, w) && AlikeKind(e, f)
    ensures Alike(Observe(v, e), Observe(w, f))
  {}

  lemma {:induction false} ObserveKindsAlike(v: View, w: View, kinds: seq<EventKind>, others: seq<EventKind>)
    requires Alike(v, w) && |kinds| == |others|
    requires forall i | 0 <= i < |kinds| :: AlikeKind(kinds[i], others[i])
    ensures Alike(ObserveKinds(v, kinds), ObserveKinds(w, others))
    decreases |kinds|
  {
    if kinds != [] {
      ObserveAlike(v, w, kinds[0], others[0]);
      ObserveKindsAlike(Observe(v, kinds[0]), Observe(w, others[0]), kinds[1..], others[1..]);
    }
  }

  lemma {:induction false} AddedIs(m: Machine, s: Step)
    ensures After(m, s).stateTimeline == m.stateTimeline + AddedBy(m, s)
  {}

  // A step asks the dressed machine for the same change, which adds the same entry.
  lemma {:induction false} DressedStep(m: Machine, v: View, s: Step)
    requires SameState(v, m)
    ensures After(Dressed(m, v), s).currentState == After(m, s).currentState
    ensures AddedBy(Dressed(m, v), s) == AddedBy(m, s)
  {
    DressedWants(m, v, s);
    StateAfter(m, s);
    StateAfter(Dressed(m, v), s);
  }

  lemma {:induction false} DressedWants(m: Machine, v: View, s: Step)
    ensures Wanted(Dressed(m, v), s).1 == Wanted(m, s).1
  {}

  // The state behind a step is the one asked for, if it has a name, and else stays.
  lemma {:induction false} StateAfter(m: Machine, s: Step)
    ensures var wanted := Wanted(m, s).1;
            After(m, s).currentState
            == if wanted.Some? && Strip(wanted.value.toState) != "" then Strip(wanted.value.toState) else m.currentState
  {}

  lemma {:induction false} DressedEmits(m: Machine, v: View, s: Step)
    requires SameState(v, m)
    ensures var kinds, others := Emitted(m, s), Emitted(Dressed(m, v), s);
            |kinds| == |others| && forall i | 0 <= i < |kinds| :: AlikeKind(kinds[i], others[i])
  {
    if s.DoClose? {
      DressedCloses(m, v, s);
    } else {
      DressedSame(m, v, s);
    }
  }

  lemma {:induction false} DressedSame(m: Machine, v: View, s: Step)
    requires SameState(v, m) && !s.DoClose?
    ensures Emitted(m, s) == Emitted(Dressed(m, v), s)
  {
    DressedTraces(m, v, s);
  }

  lemma {:induction false} DressedCloses(m: Machine, v: View, s: Step)
    requires SameState(v, m) && s.DoClose?
    ensures var kinds, others := Emitted(m, s), Emitted(Dressed(m, v), s);
            |kinds| == |others| && forall i | 0 <= i < |kinds| :: AlikeKind(kinds[i], others[i])
  {
    var h := Dressed(m, v);
    var closing, other := DiagnosticsOf(After(m, s)), DiagnosticsOf(After(h, s));
    DressedTraces(m, v, s);
    DressedStep(m, v, s);
    CloseEmits(m, s);
    CloseEmits(h, s);
    assert AlikeKind(Closed(s.reason, closing), Closed(s.reason, other));
  }

  lemma {:induction false} CloseEmits(m: Machine, s: Step)
    requires s.DoClose?
    ensures var (m', wanted) := Wanted(m, s);
            Emitted(m, s) == Traced(Recorded(m', wanted).1) + [Closed(s.reason, DiagnosticsOf(After(m, s)))]
  {}

  lemma {:induction false} DressedTraces(m: Machine, v: View, s: Step)
    requires SameState(v, m)
    ensures var (a, wanted) := Wanted(m, s);
            var (b, same) := Wanted(Dressed(m, v), s);
            wanted == same && Traced(Recorded(a, wanted).1) == Traced(Recorded(b, same).1)
  {}

  // From the machine's current state on, the view follows the machine, entry by entry.
  lemma {:induction false} StepSame(v: View, m: Machine, s: Step)
    requires SameState(v, m)
    ensures var w := ObserveKinds(v, Emitted(m, s));
            SameState(w, After(m, s)) && w.stateTimeline == v.stateTimeline + AddedBy(m, s)
  {
    var h := Dressed(m, v);
    DressedStep(m, v, s);
    DressedEmits(m, v, s);
    AddedIs(h, s);
    AddedIs(m, s);
    StepAgrees(Tidied(v), h, s);
    StepWellRun(h, s);
    ObserveKindsAlike(v, Tidied(v), Emitted(m, s), Emitted(h, s));
    SoundAgain(ObserveKinds(v, Emitted(m, s)), After(m, s), After(h, s));
  }

  lemma {:induction false} SoundAgain(w: View, m: Machine, h: Machine)
    requires WellRun(h) && h.currentState == m.currentState == w.currentState && h.stateTimeline == w.stateTimeline
    ensures WellRun(Dressed(m, w))
  {}

  /** Once the view shows the machine's state, it shows it for good, and both timelines grow by the
      same entries: an entry too many is never lost. */
  lemma {:induction false} StepsSame(v: View, m: Machine, steps: seq<TimedStep>)
    requires SameState(v, m)
    ensures var w := ViewAfter(v, m, steps);
            && SameState(w, AfterAll(m, steps))
            && w.stateTimeline == v.stateTimeline + Added(m, steps)
            && AfterAll(m, steps).stateTimeline == m.stateTimeline + Added(m, steps)
  {
    if steps == [] {
      assert v.stateTimeline + [] == v.stateTimeline && m.stateTimeline + [] == m.stateTimeline;
    } else {
      var n := |steps| - 1;
      var before, last := AfterAll(m, steps[..n]), steps[n].step;
      StepsSame(v, m, steps[..n]);
      StepSame(ViewAfter(v, m, steps[..n]), before, last);
      AddedIs(before, last);
      Grouped(v.stateTimeline, Added(m, steps[..n]), AddedBy(before, last));
      Grouped(m.stateTimeline, Added(m, steps[..n]), AddedBy(before, last));
    }
  }

  // ------------------------------------------------------- a view that agrees but for the terminal action

  function Ending(v: View, terminal: Option<string>): View {
    v.(terminalAction := terminal)
  }

  lemma {:induction false} EndingObserved(v: View, terminal: Option<string>, e: EventKind)
    ensures var w := Observe(v, e);
            Observe(Ending(v, terminal), e) == Ending(w, Observe(Ending(v, terminal), e).terminalAction)
  {}

  lemma {:induction false} EndingKinds(v: View, terminal: Option<string>, kinds: seq<EventKind>)
    ensures var w := ObserveKinds(v, kinds);
            var u := ObserveKinds(Ending(v, terminal), kinds);
            u == Ending(w, u.terminalAction)
    decreases |kinds|
  {
    if kinds != [] {
      EndingObserved(v, terminal, kinds[0]);
      var next := Observe(Ending(v, terminal), kinds[0]);
      EndingKinds(Observe(v, kinds[0]), next.terminalAction, kinds[1..]);
    }
  }

  // From an agreeing view, or one that agrees but for the terminal action, on.
  lemma {:induction false} StepsAgree(v: View, terminal: Option<string>, m: Machine, steps: seq<TimedStep>)
    requires Agree(v, m) && WellRun(m)
    ensures Agree(ViewAfter(v, m, steps), AfterAll(m, steps))
    ensures var w := ViewAfter(Ending(v, terminal), m, steps);
            w == Ending(ViewAfter(v, m, steps), w.terminalAction)
  {
    if steps != [] {
      var n := |steps| - 1;
      var before, last := AfterAll(m, steps[..n]), steps[n].step;
      StepsAgree(v, terminal, m, steps[..n]);
      AfterAllWellRun(m, steps[..n]);
      StepAgrees(ViewAfter(v, m, steps[..n]), before, last);
      var w := ViewAfter(Ending(v, terminal), m, steps[..n]);
      EndingKinds(ViewAfter(v, m, steps[..n]), w.terminalAction, Emitted(before, last));
    }
  }

  // ------------------------------------------------------- a menu route that raises

  // An event and the traced transition behind it, asking for the same change, make the view move to it.
  lemma {:induction false} RawSeen(v: View, e: EventKind, m: Machine, c: Change)
    requires Named(c) && Observe(v, e) == Apply(v, c)
    ensures ObserveKinds(v, [e] + Traced(Recorded(m, Some(c)).1)) == Apply(v, c)
  {
    ObserveOne(v, e, Traced(Recorded(m, Some(c)).1));
    if Moves(m, c.toState) {
      TraceSeen(Apply(v, c), m, c);
      ApplyTwice(v, c);
    }
  }

  const ERROR := Change("error", "phone_stream_event_error")

  lemma {:induction false} ErrorNamed()
    ensures Named(ERROR) && Strip("error") == "error"
  {
    TrimClean("error", SPACES);
  }

  lemma {:induction false} ErrorSeen(v: View, m: Machine)
    ensures ObserveKinds(v, Emitted(m, DoEventError)) == Apply(v, ERROR)
  {
    ErrorNamed();
    RawSeen(v, EventError, m, ERROR);
  }

  // The machine the lone choice makes the analyser believe in.
  function Believed(m: Machine, action: Action): Machine {
    After(m, DoMenuChoice(action, "", ""))
  }

  lemma {:induction false} ChoiceBelieved(v: View, m: Machine, action: Action)
    requires Agree(v, m) && WellRun(m)
    ensures Agree(Observe(v, MenuChoice(action)), Believed(m, action)) && WellRun(Believed(m, action))
    ensures Believed(m, action).currentState == ActionChange(action).toState != "error"
    ensures |Believed(m, action).stateTimeline|
         == |m.stateTimeline| + if ActionChange(action).toState == m.currentState then 0 else 1
  {
    ActionStates(action);
    StepWellRun(m, DoMenuChoice(action, "", ""));
    BelievedIs(m, action);
    ChoiceAsks(v, m, action);
    var w := if TerminalName(action).Some? then Ending(v, TerminalName(action)) else v;
    SetAgrees(w, Chosen(m, action, "", ""), ActionChange(action));
  }

  lemma {:induction false} ChoiceAsks(v: View, m: Machine, action: Action)
    requires Agree(v, m)
    ensures var w := if TerminalName(action).Some? then Ending(v, TerminalName(action)) else v;
            Observe(v, MenuChoice(action)) == Apply(w, ActionChange(action)) && Agree(w, Chosen(m, action, "", ""))
  {}

  lemma {:induction false} ActionStates(action: Action)
    ensures var c := ActionChange(action); Named(c) && Strip(c.toState) == c.toState != "error"
  {
    ActionNamed(action);
    NameStripped(ActionChange(action).toState);
  }

  lemma {:induction false} BelievedIs(m: Machine, action: Action)
    requires m.stateTimeline != []
    ensures var c, h := ActionChange(action), Believed(m, action);
            && h == Record(Chosen(m, action, "", ""), c.toState, c.reason)
            && h.currentState == c.toState
            && |h.stateTimeline| == |m.stateTimeline| + if c.toState == m.currentState then 0 else 1
  {
    ActionStates(action);
  }

  // Behind the error event of the failed route the view shows the machine's state again; its
  // timeline is longer than the machine's exactly when the choice had added an entry.
  lemma {:induction false} ErrorMeets(v: View, m: Machine, action: Action)
    requires Agree(v, m) && WellRun(m)
    ensures var w, m' := ObserveKinds(Observe(v, MenuChoice(action)), Emitted(m, DoEventError)), After(m, DoEventError);
            && SameState(w, m')
            && (ActionChange(action).toState != m.currentState ==> |w.stateTimeline| > |m'.stateTimeline|)
  {
    var lone, h := Observe(v, MenuChoice(action)), Believed(m, action);
    var w, m' := ObserveKinds(lone, Emitted(m, DoEventError)), After(m, DoEventError);
    ChoiceBelieved(v, m, action);
    ErrorSeen(lone, m);
    ErrorSeen(lone, h);
    StepAgrees(lone, h, DoEventError);
    StepWellRun(h, DoEventError);
    ErrorRecorded(m);
    ErrorRecorded(h);
    SoundAgain(w, m', After(h, DoEventError));
  }

  lemma {:induction false} ErrorRecorded(m: Machine)
    requires m.stateTimeline != []
    ensures After(m, DoEventError).currentState == "error"
    ensures |After(m, DoEventError).stateTimeline| == |m.stateTimeline| + if m.currentState == "error" then 0 else 1
  {
    ErrorNamed();
  }

  // A choice of the state the machine is in already only sets the terminal action.
  lemma {:induction false} ChoiceStays(v: View, m: Machine, action: Action)
    requires Agree(v, m) && ActionChange(action).toState == m.currentState
    ensures var w := Observe(v, MenuChoice(action)); w == Ending(v, w.terminalAction)
  {
    ActionNamed(action);
    NameStripped(ActionChange(action).toState);
  }

  // The first of these steps, and the others from there.
  lemma {:induction false} FirstStep(v: View, m: Machine, first: TimedStep, more: seq<TimedStep>)
    ensures AfterAll(m, [first] + more) == AfterAll(After(m, first.step), more)
    ensures ViewAfter(v, m, [first] + more)
         == ViewAfter(ObserveKinds(v, Emitted(m, first.step)), After(m, first.step), more)
  {
    var all := [first] + more;
    if more == [] {
      assert all[..0] == [] && all[0] == first;
    } else {
      var n := |more| - 1;
      assert all[..|all| - 1] == [first] + more[..n];
      FirstStep(v, m, first, more[..n]);
    }
  }

  lemma {:induction false} RouteFailureViewed(v: View, m: Machine, action: Action, errorAt: int, more: seq<TimedStep>)
    requires Agree(v, m) && WellRun(m)
    ensures var rest := [TimedStep(errorAt, DoEventError)] + more;
            var w, m' := ViewAfter(Observe(v, MenuChoice(action)), m, rest), AfterAll(m, rest);
            && w.currentState == m'.currentState
            && (Agree(w, m') <==>
                  ActionChange(action).toState == m.currentState && w.terminalAction == m'.terminalAction)
  {
    var error := TimedStep(errorAt, DoEventError);
    var lone := Observe(v, MenuChoice(action));
    FirstStep(lone, m, error, more);
    ErrorMeets(v, m, action);
    StepsSame(ObserveKinds(lone, Emitted(m, DoEventError)), After(m, DoEventError), more);
    if ActionChange(action).toState == m.currentState {
      ChoiceStays(v, m, action);
      StepsAgree(v, lone.terminalAction, m, [error] + more);
    }
  }

  lemma {:induction false} RestOrdered(t: seq<TraceEvent>, at: int, m: Machine, steps: seq<TimedStep>)
    requires TimeOrdered(t) && NotAfter(t, at) && InOrder(at, steps)
    ensures TimeOrdered(t + TraceFrom(m, steps)) && NotAfter(t + TraceFrom(m, steps), LastTime(at, steps))
  {
    if steps == [] {
      assert t + [] == t;
    } else {
      var first := steps[..|steps| - 1];
      RestOrdered(t, at, m, first);
      Grouped(t, TraceFrom(m, first), LastEvents(m, steps));
      LastOrdered(t + TraceFrom(m, first), at, m, steps);
    }
  }

  lemma {:induction false} LastOrdered(t: seq<TraceEvent>, at: int, m: Machine, steps: seq<TimedStep>)
    requires steps != [] && InOrder(at, steps)
    requires TimeOrdered(t) && NotAfter(t, LastTime(at, steps[..|steps| - 1]))
    ensures TimeOrdered(t + LastEvents(m, steps)) && NotAfter(t + LastEvents(m, steps), LastTime(at, steps))
  {
    var n := |steps| - 1;
    var before := AfterAll(m, steps[..n]);
    assert LastTime(at, steps[..n]) <= steps[n].at;
    StampedOrdered(t, steps[n].at, before.mode, Emitted(before, steps[n].step));
  }

  lemma {:induction false} AnalyseRest(mode: string, menuKey: string, startedAt: int, steps: seq<TimedStep>,
                                       e: TraceEvent, rest: seq<TimedStep>)
    requires Normal(mode) != "" && InOrder(startedAt, steps) && e.timestamp >= LastTime(startedAt, steps)
    requires InOrder(e.timestamp, rest)
    ensures var t, m := TraceOf(mode, menuKey, startedAt, steps), MachineAfter(mode, menuKey, steps);
            var v := ObserveAll(FirstView(mode), t);
            && Agree(v, m)
            && Analyse(t + [e] + TraceFrom(m, rest)) == DiagnosticsOfView(ViewAfter(Observe(v, e.kind), m, rest))
  {
    var t, m := TraceOf(mode, menuKey, startedAt, steps), MachineAfter(mode, menuKey, steps);
    TraceOrdered(mode, menuKey, startedAt, steps);
    RestOrdered(t + [e], e.timestamp, m, rest);
    SortOrdered(t + [e] + TraceFrom(m, rest));
    ViewFollows(FirstView(mode), t + [e], m, rest);
    ObserveSnoc(FirstView(mode), t, e);
    RunAgrees(mode, menuKey, startedAt, steps);
  }

  /** A menu route that raises behind its traced choice, the error event that follows it, and the rest
      of the call: the replay always shows the machine's state, and its diagnostics are right exactly
      when the choice had named the machine's own state and the terminal actions agree by then. */
  lemma {:induction false} RouteFailureReplay(mode: string, menuKey: string, startedAt: int, steps: seq<TimedStep>,
                                              choice: TraceEvent, errorAt: int, more: seq<TimedStep>)
    requires Normal(mode) != "" && InOrder(startedAt, steps) && choice.timestamp >= LastTime(startedAt, steps)
    requires choice.kind.MenuChoice? && InOrder(choice.timestamp, [TimedStep(errorAt, DoEventError)] + more)
    ensures var m := MachineAfter(mode, menuKey, steps);
            var rest := [TimedStep(errorAt, DoEventError)] + more;
            var m' := AfterAll(m, rest);
            var d := Analyse(TraceOf(mode, menuKey, startedAt, steps) + [choice] + TraceFrom(m, rest));
            && d.currentState == Some(m'.currentState)
            && (d == DiagnosticsOf(m') <==>
                  ActionChange(choice.kind.action).toState == m.currentState && d.terminalAction == m'.terminalAction)
  {
    var m := MachineAfter(mode, menuKey, steps);
    var rest := [TimedStep(errorAt, DoEventError)] + more;
    var v := ObserveAll(FirstView(mode), TraceOf(mode, menuKey, startedAt, steps));
    AnalyseRest(mode, menuKey, startedAt, steps, choice, rest);
    RunWellRun(mode, menuKey, steps);
    RouteFailureViewed(v, m, choice.kind.action, errorAt, more);
    AgreeExactly(ViewAfter(Observe(v, choice.kind), m, rest), AfterAll(m, rest));
  }
}
