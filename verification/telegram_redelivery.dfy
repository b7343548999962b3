/**
 How often the long-poll loop handles an update: once per service, and again under a later service
 exactly from the offset in the file on, as far as the server still has it.
 */
module TelegramRedelivery {
  import opened TelegramPoll

  // The action does not end the service.
  predicate Undisturbed(a: Action) {
    !a.Crash? && !a.CrashInSave? && !a.Cancel?
  }

  lemma {:induction false} LivesSnoc(actions: seq<Action>, a: Action)
    ensures Lives(actions + [a]) <==> Lives(actions) && Undisturbed(a)
  {
    var all := actions + [a];
    assert all[|actions|] == a;
    assert forall i | 0 <= i < |actions| :: all[i] == actions[i];
  }

  // ------------------------------------------------------- at most once

  predicate Ahead(ids: seq<nat>, offset: nat) {
    Ascending(ids) && forall i | 0 <= i < |ids| :: offset <= ids[i]
  }

  // Since the idle state s0 every update was handled at most once, those that were lie between the
  // two offsets and were not dropped, and what is still to be handled lies ahead.
  ghost predicate Once(s0: State, s: State) {
    && Ascending(s.arrived) && Running(s) && s0.last <= s.last && s0.dropped <= s.dropped
    && (forall id: nat :: s0.handled[id] <= s.handled[id] <= s0.handled[id] + 1)
    && (forall id: nat :: s.handled[id] > s0.handled[id] ==>
         From(s0) <= id && (id < s.last || s.pc == AfterHandle(id, Rest(s))))
    && match s.pc
       case AfterHandle(id, rest) => Ahead([id] + rest, Max(s.last, s0.dropped))
       case _ => Ahead(Rest(s), Max(s.last, s0.dropped))
  }

  function Rest(s: State): seq<nat> {
    match s.pc
    case Batch(rest) => rest
    case AfterHandle(_, rest) => rest
    case AfterBump(rest) => rest
    case _ => []
  }

  lemma {:induction false} PendingAhead(ids: seq<nat>, offset: nat)
    requires Ascending(ids)
    ensures Ahead(AtOrAbove(ids, offset), offset)
  {
    PendingAscends(ids, offset);
    PendingAbove(ids, offset);
  }

  lemma {:induction false} PendingAbove(ids: seq<nat>, offset: nat)
    ensures forall i | 0 <= i < |AtOrAbove(ids, offset)| :: offset <= AtOrAbove(ids, offset)[i]
  {
    if ids != [] {
      PendingAbove(ids[..|ids| - 1], offset);
    }
  }

  lemma {:induction false} FetchOnce(s0: State, s: State, count: nat)
    requires Once(s0, s)
    ensures Once(s0, Step(s, Fetch(count)))
  {
    PendingAhead(s.arrived, From(s));
  }

  lemma {:induction false} HandleOnce(s0: State, s: State)
    requires Once(s0, s)
    ensures Once(s0, Step(s, HandleReturns))
  {
    if s.pc.Batch? && s.pc.rest != [] {
      var rest := s.pc.rest;
      assert [rest[0]] + rest[1..] == rest;
      assert s.handled[rest[0]] == s0.handled[rest[0]];
    }
  }

  lemma {:induction false} RaiseOnce(s0: State, s: State)
    requires Once(s0, s)
    ensures Once(s0, Step(s, RaiseOffset))
  {
    if s.pc.AfterHandle? {
      var batch := [s.pc.id] + s.pc.rest;
      assert forall i | 0 <= i < |s.pc.rest| :: s.pc.rest[i] == batch[i + 1];
      assert batch[0] == s.pc.id;
    }
  }

  lemma {:induction false} OtherOnce(s0: State, s: State, a: Action)
    requires Once(s0, s) && Undisturbed(a) && !a.Fetch? && !a.HandleReturns? && !a.RaiseOffset?
    ensures Once(s0, Step(s, a))
  {}

  lemma {:induction false} StepOnce(s0: State, s: State, a: Action)
    requires Once(s0, s) && Undisturbed(a)
    ensures Once(s0, Step(s, a))
  {
    match a {
      case Fetch(count) => FetchOnce(s0, s, count);
      case HandleReturns => HandleOnce(s0, s);
      case RaiseOffset => RaiseOnce(s0, s);
      case _ => OtherOnce(s0, s, a);
    }
  }

  lemma {:induction false} RunOnce(s0: State, actions: seq<Action>)
    requires Ascending(s0.arrived) && s0.pc.Idle? && Lives(actions)
    ensures Once(s0, Run(s0, actions))
  {
    if actions != [] {
      var n := |actions| - 1;
      assert actions == actions[..n] + [actions[n]];
      LivesSnoc(actions[..n], actions[n]);
      RunOnce(s0, actions[..n]);
      StepOnce(s0, Run(s0, actions[..n]), actions[n]);
    }
  }

  /** A service handles no update twice, and none below the offset it started from or already dropped. */
  lemma {:induction false} OncePerService(s0: State, actions: seq<Action>, id: nat)
    requires Ascending(s0.arrived) && s0.pc.Idle? && Lives(actions)
    ensures Run(s0, actions).handled[id] <= s0.handled[id] + if id < From(s0) then 0 else 1
  {
    RunOnce(s0, actions);
  }

  // ------------------------------------------------------- once more

  // The service that polls next.
  function Resumed(t: State): State {
    if Running(t) then t else Step(t, StartService)
  }

  ghost predicate HandledAgain(t: State, id: nat) {
    exists more :: Lives(more) && Run(Resumed(t), more).handled[id] > t.handled[id]
  }

  lemma {:induction false} FetchAll(r: State, p: seq<nat>) returns (more: seq<Action>)
    requires r.pc.Idle? && p == AtOrAbove(r.arrived, From(r))
    ensures Lives(more) && Run(r, more).pc == Batch(p[0..]) && r.handled <= Run(r, more).handled
  {
    var a := Fetch(|p|);
    more := [] + [a];
    LivesSnoc([], a);
    RunSnoc(r, [], a);
    assert p[0..] == p;
  }

  // A run that has handled the first j updates of the batch p.
  lemma {:induction false} ReachBatch(r: State, p: seq<nat>, j: nat) returns (more: seq<Action>)
    requires r.pc.Idle? && p == AtOrAbove(r.arrived, From(r)) && j <= |p|
    ensures Lives(more) && Run(r, more).pc == Batch(p[j..]) && r.handled <= Run(r, more).handled
  {
    if j == 0 {
      more := FetchAll(r, p);
    } else {
      var before := ReachBatch(r, p, j - 1);
      more := HandleFirst(r, before);
      assert p[j - 1..][1..] == p[j..];
    }
  }

  lemma {:induction false} HandleFirst(r: State, before: seq<Action>) returns (more: seq<Action>)
    requires Lives(before) && Run(r, before).pc.Batch? && Run(r, before).pc.rest != []
    ensures Lives(more) && Run(r, more).pc == Batch(Run(r, before).pc.rest[1..])
    ensures Run(r, before).handled <= Run(r, more).handled
  {
    var a := before + [HandleReturns];
    var b := a + [RaiseOffset];
    more := b + [SaveOffset];
    LivesSnoc(before, HandleReturns);
    LivesSnoc(a, RaiseOffset);
    LivesSnoc(b, SaveOffset);
    RunSnoc(r, before, HandleReturns);
    RunSnoc(r, a, RaiseOffset);
    RunSnoc(r, b, SaveOffset);
  }

  /** An update that has arrived can be handled again exactly when it is not below the offset the
      next request uses and the server has not dropped it. */
  lemma {:induction false} AgainExactly(t: State, id: nat)
    requires Ascending(t.arrived) && (t.pc.Idle? || t.pc.Down?) && id in t.arrived
    ensures HandledAgain(t, id) <==> From(Resumed(t)) <= id
  {
    var r := Resumed(t);
    forall more | Lives(more) ensures Run(r, more).handled[id] > t.handled[id] ==> From(r) <= id {
      OncePerService(r, more, id);
    }
    if From(r) <= id {
      var i :| 0 <= i < |t.arrived| && t.arrived[i] == id;
      PendingHolds(r.arrived, From(r), i);
      var more := Reach(r, id);
      assert Run(r, more).handled[id] > t.handled[id];
    }
  }

  // A run that handles a pending update.
  lemma {:induction false} Reach(r: State, id: nat) returns (more: seq<Action>)
    requires r.pc.Idle? && id in AtOrAbove(r.arrived, From(r))
    ensures Lives(more) && Run(r, more).handled[id] > r.handled[id]
  {
    var p := AtOrAbove(r.arrived, From(r));
    var j :| 0 <= j < |p| && p[j] == id;
    var before := ReachBatch(r, p, j);
    more := before + [HandleReturns];
    LivesSnoc(before, HandleReturns);
    RunSnoc(r, before, HandleReturns);
  }

  // ------------------------------------------------------- the first service and its end

  const FIRST := Step(START, StartService)

  // What ends a service, where it can happen.
  predicate Ends(s: State, a: Action) {
    || a.Crash?
    || (a.Cancel? && (s.pc.Idle? || s.pc.Batch?))
    || (a.CrashInSave? && s.pc.AfterBump?)
  }

  // Everything handled has arrived, and the id before the offset in memory was handled.
  ghost predicate Counted(s: State) {
    && (s.last > 0 ==> s.last - 1 in s.handled)
    && (s.pc.AfterBump? ==> s.last > 0)
    && s.requested <= s.last
    && (forall id: nat :: id in s.handled ==> id in s.arrived)
  }

  lemma {:induction false} HandleCounted(s: State)
    requires Inv(s) && Counted(s)
    ensures Counted(Step(s, HandleReturns))
  {
    if s.pc.Batch? && s.pc.rest != [] {
      assert s.pc.rest[0] in s.arrived;
    }
  }

  lemma {:induction false} StepCounted(s: State, a: Action)
    requires Inv(s) && Counted(s) && Running(s) && Undisturbed(a)
    ensures Counted(Step(s, a))
  {
    if a.HandleReturns? {
      HandleCounted(s);
    } else if a.RaiseOffset? {
      RaiseCounted(s);
    } else {
      OtherCounted(s, a);
    }
  }

  lemma {:induction false} RaiseCounted(s: State)
    requires Inv(s) && Counted(s)
    ensures Counted(Step(s, RaiseOffset))
  {}

  lemma {:induction false} OtherCounted(s: State, a: Action)
    requires Counted(s) && Running(s) && !a.HandleReturns? && !a.RaiseOffset?
    ensures Counted(Step(s, a))
  {}

  lemma {:induction false} RunCounted(actions: seq<Action>)
    requires Lives(actions)
    ensures var s := Run(FIRST, actions); Inv(s) && Counted(s) && Once(FIRST, s)
  {
    RunKeeps(FIRST, actions);
    if actions != [] {
      var n := |actions| - 1;
      assert actions == actions[..n] + [actions[n]];
      LivesSnoc(actions[..n], actions[n]);
      RunCounted(actions[..n]);
      StepCounted(Run(FIRST, actions[..n]), actions[n]);
      StepOnce(FIRST, Run(FIRST, actions[..n]), actions[n]);
    }
  }

  /** As long as the first service lives no update is handled twice, whatever handlers and saves fail. */
  lemma {:induction false} HandledOnce(actions: seq<Action>, id: nat)
    requires Lives(actions)
    ensures Run(FIRST, actions).handled[id] <= 1
  {
    RunOnce(FIRST, actions);
  }

  // The offset the next service starts from: the one in the file, which a crash can leave torn.
  function NextOffset(s: State, a: Action): nat {
    if a.CrashInSave? then 0 else LoadOffset(s.file)
  }

  lemma {:induction false} Ended(s: State, a: Action)
    requires Ends(s, a)
    ensures var t := Step(s, a);
            && t.pc.Down? && t.arrived == s.arrived && t.handled == s.handled
            && From(Resumed(t)) == Max(NextOffset(s, a), s.dropped)
  {}

  /** After the end of the first service, by crash or cancellation, a handled update can come back
      exactly when it is not below the offset in the file and the server has not dropped it. */
  lemma {:induction false} HandledAgainExactly(actions: seq<Action>, a: Action, id: nat)
    requires Lives(actions) && Ends(Run(FIRST, actions), a)
    requires id in Run(FIRST, actions).handled
    ensures var s := Run(FIRST, actions);
            HandledAgain(Step(s, a), id) <==> id >= Max(NextOffset(s, a), s.dropped)
  {
    RunCounted(actions);
    Ended(Run(FIRST, actions), a);
    AgainExactly(Step(Run(FIRST, actions), a), id);
  }

  lemma {:induction false} SomeNotBelow(s: State, offset: nat)
    requires Inv(s) && Counted(s) && Once(FIRST, s) && offset <= s.last
    ensures (exists id :: id in s.handled && id >= offset) <==> s.pc.AfterHandle? || offset < s.last
  {
    if s.pc.AfterHandle? {
      assert ([s.pc.id] + s.pc.rest)[0] >= s.last;
      assert s.pc.id in s.handled;
    } else if offset < s.last {
      assert s.last - 1 in s.handled;
    }
  }

  /** The end of a service brings some handled update back exactly when it falls between a handler's
      return and the raised offset, or both the file and the server are behind the offset in memory. */
  lemma {:induction false} RedeliversExactly(actions: seq<Action>, a: Action)
    requires Lives(actions) && Ends(Run(FIRST, actions), a)
    ensures var s := Run(FIRST, actions);
            (exists id :: id in s.handled && HandledAgain(Step(s, a), id))
            <==> s.pc.AfterHandle? || Max(NextOffset(s, a), s.dropped) < s.last
  {
    var s := Run(FIRST, actions);
    RunCounted(actions);
    forall id | id in s.handled ensures HandledAgain(Step(s, a), id) <==> id >= Max(NextOffset(s, a), s.dropped) {
      HandledAgainExactly(actions, a, id);
    }
    SomeNotBelow(s, Max(NextOffset(s, a), s.dropped));
  }

  predicate Steady(actions: seq<Action>) {
    forall i | 0 <= i < |actions| :: !actions[i].SaveRaises?
  }

  predicate BehindInSave(s: State) {
    LoadOffset(s.file) < s.last <==> s.pc.AfterBump?
  }

  lemma {:induction false} StepBehind(s: State, a: Action)
    requires Inv(s) && Once(FIRST, s) && BehindInSave(s)
    requires Undisturbed(a) && !a.SaveRaises?
    ensures BehindInSave(Step(s, a))
  {
    if a.RaiseOffset? && s.pc.AfterHandle? {
      assert ([s.pc.id] + s.pc.rest)[0] >= s.last;
    }
  }

  // As long as no save fails, the file is behind memory only between raising and saving the offset.
  lemma {:induction false} FileBehind(actions: seq<Action>)
    requires Lives(actions) && Steady(actions)
    ensures BehindInSave(Run(FIRST, actions))
  {
    if actions != [] {
      var n := |actions| - 1;
      assert actions == actions[..n] + [actions[n]];
      LivesSnoc(actions[..n], actions[n]);
      FileBehind(actions[..n]);
      RunCounted(actions[..n]);
      StepBehind(Run(FIRST, actions[..n]), actions[n]);
    }
  }

  lemma {:induction false} Extend(actions: seq<Action>, a: Action) returns (more: seq<Action>)
    requires Lives(actions) && Undisturbed(a)
    ensures Lives(more) && Run(FIRST, more) == Step(Run(FIRST, actions), a)
  {
    more := actions + [a];
    LivesSnoc(actions, a);
    RunSnoc(FIRST, actions, a);
  }

  lemma {:induction false} OnlyPending(id: nat, offset: nat)
    requires offset <= id
    ensures AtOrAbove([id], offset) == [id]
  {
    assert [id][..0] == [];
  }

  // Handling the one update of a batch, up to the raised offset.
  lemma {:induction false} OneRaised(s: State, id: nat)
    requires s.pc == Batch([id]) && s.last <= id
    ensures var t := Step(Step(s, HandleReturns), RaiseOffset);
            && t.pc == AfterBump([]) && t.last == id + 1 && t.handled[id] == s.handled[id] + 1
            && t.file == s.file && t.dropped == s.dropped
  {
    assert [id][1..] == [];
  }

  // A run up to the moment between raising the offset and saving it.
  lemma {:induction false} OneHandled() returns (actions: seq<Action>)
    ensures Lives(actions)
    ensures var s := Run(FIRST, actions);
            s.pc == AfterBump([]) && s.last == 2 && s.handled[1] == 1 && s.file == Missing && s.dropped == 0
  {
    actions := Extend([], Arrive(1));
    assert Run(FIRST, actions) == FIRST.(arrived := [1]);
    OnlyPending(1, 0);
    actions := Extend(actions, Fetch(1));
    assert Run(FIRST, actions) == FIRST.(arrived := [1], pc := Batch([1]));
    OneRaised(Run(FIRST, actions), 1);
    actions := Extend(actions, HandleReturns);
    actions := Extend(actions, RaiseOffset);
  }

  /** Such a run exists, so handling is not exactly once: its crash brings the update back. */
  lemma {:induction false} CrashRedelivers() returns (actions: seq<Action>)
    ensures Lives(actions) && Run(FIRST, actions).handled[1] == 1
    ensures HandledAgain(Step(Run(FIRST, actions), CrashInSave), 1)
  {
    actions := OneHandled();
    HandledAgainExactly(actions, CrashInSave, 1);
  }

  /** A failed save and then a cancellation, as when the service is rebuilt, do the same without a crash. */
  lemma {:induction false} CancelRedelivers() returns (actions: seq<Action>)
    ensures Lives(actions) && Run(FIRST, actions).handled[1] == 1 && Run(FIRST, actions).pc.Idle?
    ensures HandledAgain(Step(Run(FIRST, actions), Cancel), 1)
  {
    actions := OneHandled();
    actions := Extend(actions, SaveRaises(false));
    HandledAgainExactly(actions, Cancel, 1);
  }
}
