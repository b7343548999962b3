/**
 The Telegram long-poll loop with its saved offset, interrupted by handler failures, failed saves,
 task cancellations and crashes. The server delivers a prefix of the updates at or above the
 requested offset, in ascending order, and may forget updates below an offset once requested.
 */
module TelegramPoll {

  // The offset file: absent, written, or left unreadable by a crash in the middle of a write.
  datatype OffsetFile = Missing | Saved(offset: nat) | Torn

  function LoadOffset(f: OffsetFile): nat {
    match f
    case Saved(n) => n
    case _ => 0
  }

  datatype Pc =
    | Down                                // no service polls
    | Idle                                // about to call getUpdates
    | Batch(rest: seq<nat>)               // about to handle the next update of a batch
    | AfterHandle(id: nat, rest: seq<nat>) // handle_update returned, the offset is not yet raised
    | AfterBump(rest: seq<nat>)           // the offset is raised in memory, not yet saved

  datatype State = State(
    arrived: seq<nat>,      // the update ids the server has, in order
    handled: multiset<nat>, // how often handle_update returned for an id
    requested: nat,         // the highest offset a request has named
    dropped: nat,           // the server has forgotten the updates below this
    last: nat,              // _last_update_id
    file: OffsetFile,
    pc: Pc)

  datatype Action =
    | Arrive(id: nat)
    | Drop(offset: nat)
    | StartService
    | Fetch(count: nat)
    | HandleReturns
    | HandleRaises
    | RaiseOffset
    | SaveOffset
    | SaveRaises(torn: bool)
    | FinishBatch
    | Cancel
    | Crash
    | CrashInSave

  const START := State([], multiset{}, 0, 0, 0, Missing, Down)

  function AtOrAbove(ids: seq<nat>, offset: nat): seq<nat> {
    if ids == [] then []
    else
      var before := AtOrAbove(ids[..|ids| - 1], offset);
      if ids[|ids| - 1] >= offset then before + [ids[|ids| - 1]] else before
  }

  function Delivered(ids: seq<nat>, offset: nat, count: nat): seq<nat> {
    var pending := AtOrAbove(ids, offset);
    if count < |pending| then pending[..count] else pending
  }

  function Max(a: nat, b: nat): nat {
    if a < b then b else a
  }

  predicate Running(s: State) {
    !s.pc.Down?
  }

  // The lowest id the next request can bring.
  function From(s: State): nat {
    Max(s.last, s.dropped)
  }

  // One action; where it is not possible, nothing happens. A service is started anew from the file:
  // a cancelled loop ends for good, and its service has closed its client. The loop can be cancelled
  // only where it waits: for a request, for a handler, or between two polls.
  function Step(s: State, a: Action): State {
    match a
    case Arrive(id) =>
      if s.arrived == [] || id > s.arrived[|s.arrived| - 1] then s.(arrived := s.arrived + [id]) else s
    case Drop(offset) =>
      if offset <= s.requested then s.(dropped := Max(s.dropped, offset)) else s
    case StartService =>
      if s.pc.Down? then s.(last := LoadOffset(s.file), pc := Idle) else s
    case Fetch(count) =>
      if s.pc.Idle? then
        s.(requested := Max(s.requested, s.last), pc := Batch(Delivered(s.arrived, From(s), count)))
      else s
    case HandleReturns =>
      if s.pc.Batch? && s.pc.rest != [] then
        s.(handled := s.handled + multiset{s.pc.rest[0]}, pc := AfterHandle(s.pc.rest[0], s.pc.rest[1..]))
      else s
    case HandleRaises =>
      if s.pc.Batch? && s.pc.rest != [] then s.(pc := Idle) else s
    case RaiseOffset =>
      if s.pc.AfterHandle? then s.(last := Max(s.last, s.pc.id + 1), pc := AfterBump(s.pc.rest)) else s
    case SaveOffset =>
      if s.pc.AfterBump? then s.(file := Saved(s.last), pc := Batch(s.pc.rest)) else s
    case SaveRaises(torn) =>
      if s.pc.AfterBump? then s.(file := if torn then Torn else s.file, pc := Idle) else s
    case FinishBatch =>
      if s.pc.Batch? && s.pc.rest == [] then s.(pc := Idle) else s
    case Cancel =>
      if s.pc.Idle? || s.pc.Batch? then s.(pc := Down) else s
    case Crash =>
      s.(pc := Down)
    case CrashInSave =>
      if s.pc.AfterBump? then s.(file := Torn, pc := Down) else s
  }

  function Run(s: State, actions: seq<Action>): State {
    if actions == [] then s else Step(Run(s, actions[..|actions| - 1]), actions[|actions| - 1])
  }

  lemma {:induction false} RunSnoc(s: State, actions: seq<Action>, a: Action)
    ensures Run(s, actions + [a]) == Step(Run(s, actions), a)
  {
    assert (actions + [a])[..|actions|] == actions;
  }

  // ------------------------------------------------------- what every step keeps

  predicate Ascending(ids: seq<nat>) {
    forall i, j | 0 <= i < j < |ids| :: ids[i] < ids[j]
  }

  predicate DoneBelow(s: State, offset: nat) {
    forall i | 0 <= i < |s.arrived| && s.arrived[i] < offset :: s.arrived[i] in s.handled
  }

  // Everything up to the end of the batch is in the batch or has been handled.
  predicate Covers(s: State, batch: seq<nat>) {
    && Ascending(batch)
    && (forall i | 0 <= i < |batch| :: batch[i] in s.arrived)
    && (forall i | 0 <= i < |s.arrived| :: batch != [] && s.arrived[i] <= batch[|batch| - 1] ==>
         s.arrived[i] in batch || s.arrived[i] in s.handled)
  }

  // The next update's id is at least this.
  function NextId(s: State): nat {
    if s.arrived == [] then 0 else s.arrived[|s.arrived| - 1] + 1
  }

  predicate Inv(s: State) {
    && Ascending(s.arrived)
    && LoadOffset(s.file) <= NextId(s) && (Running(s) ==> s.last <= NextId(s))
    && DoneBelow(s, LoadOffset(s.file))
    && s.dropped <= s.requested <= NextId(s) && DoneBelow(s, s.requested)
    && (Running(s) ==> DoneBelow(s, s.last) && LoadOffset(s.file) <= s.last)
    && match s.pc
       case Batch(rest) => Covers(s, rest)
       case AfterHandle(id, rest) => id in s.handled && Covers(s, [id] + rest)
       case AfterBump(rest) => Covers(s, rest)
       case _ => true
  }

  lemma {:induction false} PendingAscends(ids: seq<nat>, offset: nat)
    requires Ascending(ids)
    ensures var p := AtOrAbove(ids, offset);
            Ascending(p) && forall i | 0 <= i < |p| :: p[i] in ids
  {
    if ids != [] {
      var before := ids[..|ids| - 1];
      PendingAscends(before, offset);
      assert forall i | 0 <= i < |before| :: before[i] == ids[i];
    }
  }

  lemma {:induction false} PendingHolds(ids: seq<nat>, offset: nat, i: nat)
    requires i < |ids| && ids[i] >= offset
    ensures ids[i] in AtOrAbove(ids, offset)
  {
    if i < |ids| - 1 {
      PendingHolds(ids[..|ids| - 1], offset, i);
    }
  }

  lemma {:induction false} DeliveredCovers(s: State, count: nat)
    requires Ascending(s.arrived) && DoneBelow(s, From(s))
    ensures Covers(s, Delivered(s.arrived, From(s), count))
  {
    var p := AtOrAbove(s.arrived, From(s));
    var d := Delivered(s.arrived, From(s), count);
    PendingAscends(s.arrived, From(s));
    forall i | 0 <= i < |s.arrived| && d != [] && s.arrived[i] <= d[|d| - 1]
      ensures s.arrived[i] in d || s.arrived[i] in s.handled
    {
      if s.arrived[i] >= From(s) {
        PendingHolds(s.arrived, From(s), i);
        var k :| 0 <= k < |p| && p[k] == s.arrived[i];
        assert k < |d|;
        assert d[k] == s.arrived[i];
      }
    }
  }

  lemma {:induction false} ArriveDone(s: State, id: nat, offset: nat)
    requires DoneBelow(s, offset) && offset <= id
    ensures DoneBelow(s.(arrived := s.arrived + [id]), offset)
  {}

  lemma {:induction false} ArriveCovers(s: State, id: nat, batch: seq<nat>)
    requires Covers(s, batch) && Ascending(s.arrived) && NextId(s) <= id
    ensures Covers(s.(arrived := s.arrived + [id]), batch)
  {
    if batch != [] {
      assert batch[|batch| - 1] in s.arrived;
    }
  }

  lemma {:induction false} ArriveKeeps(s: State, id: nat)
    requires Inv(s)
    ensures Inv(Step(s, Arrive(id)))
  {
    if NextId(s) <= id {
      ArriveDone(s, id, LoadOffset(s.file));
      ArriveDone(s, id, s.requested);
      if Running(s) {
        ArriveDone(s, id, s.last);
      }
      match s.pc {
        case Batch(rest) => ArriveCovers(s, id, rest);
        case AfterHandle(h, rest) => ArriveCovers(s, id, [h] + rest);
        case AfterBump(rest) => ArriveCovers(s, id, rest);
        case _ =>
      }
    }
  }

  lemma {:induction false} HandleKeeps(s: State)
    requires Inv(s)
    ensures Inv(Step(s, HandleReturns))
  {
    if s.pc.Batch? && s.pc.rest != [] {
      assert [s.pc.rest[0]] + s.pc.rest[1..] == s.pc.rest;
    }
  }

  lemma {:induction false} RaiseKeeps(s: State)
    requires Inv(s)
    ensures Inv(Step(s, RaiseOffset))
  {
    if s.pc.AfterHandle? {
      var batch := [s.pc.id] + s.pc.rest;
      assert batch[0] == s.pc.id && batch[1..] == s.pc.rest;
      assert batch[|batch| - 1] >= s.pc.id;
      HandledUpTo(s, batch);
      CoversRest(s, batch);
    }
  }

  lemma {:induction false} HandledUpTo(s: State, batch: seq<nat>)
    requires Covers(s, batch) && batch != [] && batch[0] in s.handled
    ensures forall i | 0 <= i < |s.arrived| && s.arrived[i] <= batch[0] :: s.arrived[i] in s.handled
  {}

  lemma {:induction false} CoversRest(s: State, batch: seq<nat>)
    requires Covers(s, batch) && batch != [] && batch[0] in s.handled
    ensures Covers(s, batch[1..])
  {}

  lemma {:induction false} FetchKeeps(s: State, count: nat)
    requires Inv(s)
    ensures Inv(Step(s, Fetch(count)))
  {
    if s.pc.Idle? {
      DeliveredCovers(s, count);
    }
  }

  lemma {:induction false} SaveKeeps(s: State, a: Action)
    requires Inv(s) && (a.SaveOffset? || a.SaveRaises?)
    ensures Inv(Step(s, a))
  {}

  lemma {:induction false} StopKeeps(s: State, a: Action)
    requires Inv(s)
    requires a.Drop? || a.HandleRaises? || a.FinishBatch? || a.Cancel? || a.Crash? || a.CrashInSave? || a.StartService?
    ensures Inv(Step(s, a))
  {}

  /** Every action, crash or not, keeps the invariant. */
  lemma {:induction false} StepKeeps(s: State, a: Action)
    requires Inv(s)
    ensures Inv(Step(s, a))
  {
    match a {
      case Arrive(id) => ArriveKeeps(s, id);
      case Fetch(count) => FetchKeeps(s, count);
      case HandleReturns => HandleKeeps(s);
      case RaiseOffset => RaiseKeeps(s);
      case SaveOffset => SaveKeeps(s, a);
      case SaveRaises(_) => SaveKeeps(s, a);
      case _ => StopKeeps(s, a);
    }
  }

  lemma {:induction false} RunKeeps(s: State, actions: seq<Action>)
    requires Inv(s)
    ensures Inv(Run(s, actions))
  {
    if actions != [] {
      RunKeeps(s, actions[..|actions| - 1]);
      StepKeeps(Run(s, actions[..|actions| - 1]), actions[|actions| - 1]);
    }
  }

  /** At least once: whatever failed or crashed, every update below the saved, a requested or the
      current offset has been handled; so no update is lost that the server drops. */
  lemma {:induction false} AtLeastOnce(actions: seq<Action>, id: nat)
    requires id in Run(START, actions).arrived
    ensures var s := Run(START, actions);
            && (id < LoadOffset(s.file) || id < s.requested || id < s.dropped ==> id in s.handled)
            && (Running(s) && id < s.last ==> id in s.handled)
  {
    RunKeeps(START, actions);
  }

  // Nothing ends the service.
  predicate Lives(actions: seq<Action>) {
    forall i | 0 <= i < |actions| :: !actions[i].Crash? && !actions[i].CrashInSave? && !actions[i].Cancel?
  }

  lemma {:induction false} OffsetGrows(s: State, a: Action)
    requires Running(s) && !a.Crash? && !a.CrashInSave? && !a.Cancel?
    ensures Running(Step(s, a)) && s.last <= Step(s, a).last
  {}

  /** As long as a service lives, failing handlers and failed saves included, the offset never goes
      back and the file never runs ahead of it. */
  lemma {:induction false} OffsetsGrow(before: seq<Action>, more: seq<Action>)
    requires Running(Run(START, before)) && Lives(more)
    ensures var s, t := Run(START, before), Run(Run(START, before), more);
            Running(t) && s.last <= t.last && LoadOffset(t.file) <= t.last
  {
    var s := Run(START, before);
    RunKeeps(START, before);
    RunKeeps(s, more);
    if more != [] {
      var n := |more| - 1;
      OffsetsGrow(before, more[..n]);
      OffsetGrows(Run(s, more[..n]), more[n]);
    }
  }

  /** The loop body of a running service: one fetched batch, handled until it ends or a handler raises. */
  class PollLoop {
    var lastUpdateId: nat
    var file: OffsetFile
    ghost var state: State  // this service, the server and the handled updates

    ghost predicate Valid()
      reads this
    {
      InSync() && state.pc.Idle? && Inv(state)
    }

    ghost predicate InSync()
      reads this
    {
      state.last == lastUpdateId && state.file == file
    }

    constructor ()
      ensures Valid() && state == Step(START, StartService)
    {
      lastUpdateId, file := 0, Missing;
      state := Step(START, StartService);
    }

    // `failAt` is the position whose handler raises; none does when it is behind the batch.
    method PollOnce(updates: seq<nat>, failAt: nat, ghost count: nat)
      requires Valid() && updates == Delivered(state.arrived, Max(lastUpdateId, state.dropped), count)
      modifies this
      ensures Valid()
      ensures Polled(old(state), state, updates, if failAt < |updates| then failAt else |updates|)
    {
      BatchStarts(state, updates, count);
      state := Step(state, Fetch(count));
      HandleBatch(old(state), updates, failAt);
    }

    method HandleBatch(ghost s0: State, updates: seq<nat>, failAt: nat)
      requires InSync() && InBatch(s0, state, updates, 0)
      modifies this
      ensures Valid()
      ensures Polled(s0, state, updates, if failAt < |updates| then failAt else |updates|)
    {
      var i := 0;
      while i < |updates|
        invariant 0 <= i <= |updates| && i <= failAt
        invariant InSync() && InBatch(s0, state, updates, i)
      {
        if i == failAt {
          EndBatch(s0, updates, i, HandleRaises);
          return;
        }
        HandleNext(s0, updates, i);
        i := i + 1;
      }
      EndBatch(s0, updates, i, FinishBatch);
    }

    method HandleNext(ghost s0: State, updates: seq<nat>, i: nat)
      requires InSync() && i < |updates| && InBatch(s0, state, updates, i)
      modifies this
      ensures InSync() && InBatch(s0, state, updates, i + 1)
    {
      BatchCycle(s0, state, updates, i);
      state := Step(state, HandleReturns);
      lastUpdateId := Max(lastUpdateId, updates[i] + 1);
      state := Step(state, RaiseOffset);
      file := Saved(lastUpdateId);
      state := Step(state, SaveOffset);
    }

    ghost method EndBatch(s0: State, updates: seq<nat>, i: nat, a: Action)
      requires InSync() && i <= |updates| && InBatch(s0, state, updates, i)
      requires a == if i < |updates| then HandleRaises else FinishBatch
      modifies `state
      ensures Valid() && Polled(s0, state, updates, i)
    {
      BatchStops(s0, state, updates, i);
      state := Step(state, a);
    }
  }

  // One update handled, its offset raised and saved.
  function Handled(s: State): State {
    Step(Step(Step(s, HandleReturns), RaiseOffset), SaveOffset)
  }

  lemma {:induction false} Cycle(s: State)
    requires Inv(s) && s.pc.Batch? && s.pc.rest != []
    ensures Inv(Handled(s))
    ensures var id := s.pc.rest[0];
            && Handled(s).pc == Batch(s.pc.rest[1..])
            && Handled(s).arrived == s.arrived
            && Handled(s).handled == s.handled + multiset{id}
            && Handled(s).last == Max(s.last, id + 1)
            && Handled(s).file == Saved(Handled(s).last)
  {
    StepKeeps(s, HandleReturns);
    StepKeeps(Step(s, HandleReturns), RaiseOffset);
    StepKeeps(Step(Step(s, HandleReturns), RaiseOffset), SaveOffset);
  }

  // A poll that handled the first i updates of its batch: they are handled, behind the offset, and
  // the offset is saved; nothing handled before is forgotten.
  ghost predicate Polled(s0: State, s: State, updates: seq<nat>, i: nat)
    requires i <= |updates|
  {
    && s.arrived == s0.arrived && s.last >= s0.last && s0.handled <= s.handled
    && (forall k | 0 <= k < i :: updates[k] in s.handled && updates[k] < s.last)
    && s.file == if i == 0 then s0.file else Saved(s.last)
  }

  // A service that started this batch in state s0 has handled its first i updates.
  ghost predicate InBatch(s0: State, s: State, updates: seq<nat>, i: nat)
    requires i <= |updates|
  {
    Inv(s) && s.pc == Batch(updates[i..]) && Polled(s0, s, updates, i)
  }

  lemma {:induction false} BatchCycle(s0: State, s: State, updates: seq<nat>, i: nat)
    requires i < |updates| && InBatch(s0, s, updates, i)
    ensures InBatch(s0, Handled(s), updates, i + 1)
    ensures Handled(s).last == Max(s.last, updates[i] + 1) && Handled(s).file == Saved(Handled(s).last)
  {
    assert updates[i..][0] == updates[i] && updates[i..][1..] == updates[i + 1..];
    Cycle(s);
  }

  lemma {:induction false} BatchStarts(s0: State, updates: seq<nat>, count: nat)
    requires Inv(s0) && s0.pc.Idle? && updates == Delivered(s0.arrived, From(s0), count)
    ensures InBatch(s0, Step(s0, Fetch(count)), updates, 0)
    ensures Step(s0, Fetch(count)).last == s0.last && Step(s0, Fetch(count)).file == s0.file
  {
    assert updates[0..] == updates;
    StepKeeps(s0, Fetch(count));
  }

  // A batch ends when its handler raises or nothing is left; either way the service polls again.
  lemma {:induction false} BatchStops(s0: State, s: State, updates: seq<nat>, i: nat)
    requires i <= |updates| && InBatch(s0, s, updates, i)
    ensures var t := Step(s, if i < |updates| then HandleRaises else FinishBatch);
            t == s.(pc := Idle) && Inv(t)
  {
    StepKeeps(s, if i < |updates| then HandleRaises else FinishBatch);
  }
}
