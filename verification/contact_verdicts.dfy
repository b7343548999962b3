/**
 What becomes of each candidate in a run: which are left alone, held, deferred, sent or lost, read
 off the log before them and what the model and the channel answer.
 */
module ContactVerdicts {
  import opened Text
  import opened ContactPolicy
  import opened ContactSafety

  // ------------------------------------------------------- the gates, in terms of the log

  // A recent event of the source that the candidate has not escalated over speaks against it.
  ghost predicate SpokenAgainst(cfg: Config, log: seq<Event>, c: Candidate, now: Instant) {
    && c.sourceId != "" && cfg.SourceCooldown() > 0
    && exists k: nat :: Refuses(Window(log), k, c, now, cfg.SourceCooldown())
  }

  ghost predicate Heard(cfg: Config, log: seq<Event>, c: Candidate, w: World) {
    c.sourceId != "" && !SpokenAgainst(cfg, log, c, w.now) && w.anyChannel
  }

  predicate SeenBefore(cfg: Config, log: seq<Event>, c: Candidate, now: Instant) {
    && c.fingerprint != "" && cfg.SimilarCooldown() > 0
    && exists i | 0 <= i < |Window(log)| ::
         && Counted(Window(log)[i].status) && CanonicalId(Window(log)[i]) == c.fingerprint
         && Within(Window(log)[i], now, cfg.SimilarCooldown())
  }

  predicate Affordable(cfg: Config, log: seq<Event>, now: Instant) {
    && (cfg.maxPerDay < 0 || UsedDay(Window(log), now) < cfg.maxPerDay)
    && (cfg.maxPerHour < 0 || UsedHour(Window(log), now) < cfg.maxPerHour)
  }

  ghost predicate Passed(cfg: Config, log: seq<Event>, c: Candidate, w: World) {
    Heard(cfg, log, c, w) && !LowSignal(cfg, c) && !SeenBefore(cfg, log, c, w.now) && Affordable(cfg, log, w.now)
  }

  // The model wants it sent, and it is worth sending.
  predicate Wanted(c: Candidate, w: World) {
    w.decision.send && !LowUtility(c, w.decision.urgent)
  }

  lemma {:induction false} AgainstExactly(cfg: Config, log: seq<Event>, c: Candidate, now: Instant)
    ensures AlreadyEvaluated(cfg, log, c, now) <==> SpokenAgainst(cfg, log, c, now)
  {
    ScanExactly(Window(log), c, now, cfg.SourceCooldown());
  }

  // ------------------------------------------------------- what one candidate leaves

  predicate Bears(e: Event, c: Candidate, now: Instant) {
    e.sourceId == c.sourceId && e.created == Some(now) && CanonicalId(e) == c.fingerprint && e.evaluation.Some?
  }

  // The status an entry of this candidate has.
  ghost predicate StatusFits(cfg: Config, log: seq<Event>, c: Candidate, w: World, e: Event) {
    && (e.status == Sent <==> Passed(cfg, log, c, w) && Wanted(c, w) && w.delivery == Delivered)
    && (e.status == Failed <==> Passed(cfg, log, c, w) && Wanted(c, w) && w.delivery == Undelivered)
    && (e.status == Deferred <==> Passed(cfg, log, c, w) && !Wanted(c, w))
    && (e.status == HeldBack <==> !Passed(cfg, log, c, w))
  }

  // Who decided: the model or its fallback, or the first gate that held the candidate.
  ghost predicate ModeFits(cfg: Config, log: seq<Event>, c: Candidate, w: World, e: Event)
    requires e.evaluation.Some?
  {
    var mode := e.evaluation.value.mode;
    && (mode == Llm <==> Passed(cfg, log, c, w) && w.decision.llmAttempted)
    && (mode == Fallback <==> Passed(cfg, log, c, w) && !w.decision.llmAttempted)
    && (mode == LocalHold <==> LowSignal(cfg, c))
    && (mode == SimilarityHold <==> !LowSignal(cfg, c) && SeenBefore(cfg, log, c, w.now))
    && (UsedLlm(e) <==> mode == Llm)
  }

  // A candidate that was heard leaves one entry, unless its delivery raises; others leave none.
  ghost predicate Leaves(cfg: Config, log: seq<Event>, c: Candidate, w: World, after: seq<Event>) {
    if Heard(cfg, log, c, w) && !Raises(cfg, log, c, w) then
      && |after| == |log| + 1 && log <= after && Bears(after[|log|], c, w.now)
      && StatusFits(cfg, log, c, w, after[|log|]) && ModeFits(cfg, log, c, w, after[|log|])
    else after == log
  }

  ghost predicate Raises(cfg: Config, log: seq<Event>, c: Candidate, w: World) {
    Passed(cfg, log, c, w) && Wanted(c, w) && w.delivery == DeliveryRaises
  }

  lemma {:induction false} GatesAre(cfg: Config, log: seq<Event>, c: Candidate, w: World)
    ensures Unheard(cfg, log, c, w) <==> !Heard(cfg, log, c, w)
    ensures Heard(cfg, log, c, w) ==> (HoldMode(cfg, log, c, w.now).None? <==> Passed(cfg, log, c, w))
    ensures AnySimilar(cfg, log, c.fingerprint, w.now) <==> SeenBefore(cfg, log, c, w.now)
  {
    AgainstExactly(cfg, log, c, w.now);
    SimilarIs(cfg, log, c, w.now);
  }

  lemma {:induction false} SimilarIs(cfg: Config, log: seq<Event>, c: Candidate, now: Instant)
    ensures AnySimilar(cfg, log, c.fingerprint, now) <==> SeenBefore(cfg, log, c, now)
  {}

  lemma {:induction false} HoldFits(cfg: Config, log: seq<Event>, c: Candidate, w: World)
    requires Heard(cfg, log, c, w) && !Passed(cfg, log, c, w)
    ensures HoldMode(cfg, log, c, w.now).Some?
    ensures var e := Hold(c, w.now, HoldMode(cfg, log, c, w.now).value);
            Bears(e, c, w.now) && StatusFits(cfg, log, c, w, e) && ModeFits(cfg, log, c, w, e)
  {
    GatesAre(cfg, log, c, w);
  }

  lemma {:induction false} JudgedFits(cfg: Config, log: seq<Event>, c: Candidate, w: World)
    requires Passed(cfg, log, c, w)
    ensures Judged(c, w).Raised? <==> Raises(cfg, log, c, w)
    ensures Judged(c, w).Recorded? <==> !Raises(cfg, log, c, w)
    ensures Judged(c, w).Recorded? ==>
              var e := Judged(c, w).event;
              Bears(e, c, w.now) && StatusFits(cfg, log, c, w, e) && ModeFits(cfg, log, c, w, e)
  {}

  lemma {:induction false} ConsideredLeaves(cfg: Config, log: seq<Event>, c: Candidate, w: World)
    ensures Leaves(cfg, log, c, w, Appended(log, Considered(cfg, log, c, w)))
    ensures Considered(cfg, log, c, w).Raised? <==> Raises(cfg, log, c, w)
  {
    GatesAre(cfg, log, c, w);
    if Passed(cfg, log, c, w) {
      JudgedFits(cfg, log, c, w);
    } else if Heard(cfg, log, c, w) {
      HoldFits(cfg, log, c, w);
    }
  }

  // ------------------------------------------------------- candidates of their own, in every run

  lemma {:induction false} RunSnoc(cfg: Config, log: seq<Event>, ops: seq<Op>, op: Op)
    ensures RunLog(cfg, log, ops + [op]) == OpLog(cfg, RunLog(cfg, log, ops), op)
    decreases |ops|
  {
    if ops == [] {
      assert ops + [op] == [op] && [op][1..] == [];
    } else {
      assert (ops + [op])[1..] == ops[1..] + [op];
      RunSnoc(cfg, OpLog(cfg, log, ops[0]), ops[1..], op);
    }
  }

  /** In every run, what considering a candidate leaves: nothing when it is not heard or its delivery
      raises, and otherwise one entry, sent exactly when the candidate passed the gates, the model and
      its worth were for it and the delivery succeeded. */
  lemma {:induction false} ConsiderExactly(cfg: Config, ops: seq<Op>, item: Considering)
    ensures Leaves(cfg, RunLog(cfg, [], ops), item.candidate, item.world, RunLog(cfg, [], ops + [Consider(item)]))
  {
    RunSnoc(cfg, [], ops, Consider(item));
    ConsideredLeaves(cfg, RunLog(cfg, [], ops), item.candidate, item.world);
  }

  /** The calls that takes: one, exactly when the candidate passed the gates and the model was there to be
      asked, logged exactly unless the delivery behind it raised. */
  lemma {:induction false} ConsiderCalls(cfg: Config, ops: seq<Op>, item: Considering)
    ensures var log, c, w := RunLog(cfg, [], ops), item.candidate, item.world;
            RunCalls(cfg, [], ops + [Consider(item)])
            == RunCalls(cfg, [], ops)
               + if Passed(cfg, log, c, w) && w.decision.llmAttempted then [Call(w.now, !Raises(cfg, log, c, w))]
                 else []
  {
    CallsSnoc(cfg, [], ops, Consider(item));
    var log, c, w := RunLog(cfg, [], ops), item.candidate, item.world;
    GatesAre(cfg, log, c, w);
    if Passed(cfg, log, c, w) {
      JudgedFits(cfg, log, c, w);
    }
  }

  lemma {:induction false} CallsSnoc(cfg: Config, log: seq<Event>, ops: seq<Op>, op: Op)
    ensures RunCalls(cfg, log, ops + [op]) == RunCalls(cfg, log, ops) + OpCalls(cfg, RunLog(cfg, log, ops), op)
    decreases |ops|
  {
    if ops == [] {
      assert ops + [op] == [op] && [op][1..] == [];
      assert OpCalls(cfg, log, op) + [] == [] + OpCalls(cfg, log, op);
    } else {
      var next := OpLog(cfg, log, ops[0]);
      assert (ops + [op])[1..] == ops[1..] + [op];
      CallsSnoc(cfg, next, ops[1..], op);
      Grouped(OpCalls(cfg, log, ops[0]), RunCalls(cfg, next, ops[1..]), OpCalls(cfg, RunLog(cfg, log, ops), op));
    }
  }

  /** An explicit request is refused when the service is off or the message blank; else it is logged
      as the delivery went, and not at all when that raises. */
  lemma {:induction false} RequestExactly(cfg: Config, ops: seq<Op>, r: Asked)
    ensures var log, after := RunLog(cfg, [], ops), RunLog(cfg, [], ops + [Request(r)]);
            var open := cfg.enabled && Strip(r.message) != "";
            && (after == log <==> open && r.delivery == DeliveryRaises)
            && (after != log ==>
                  && |after| == |log| + 1 && log <= after && after[|log|].sourceId == "" && !UsedLlm(after[|log|])
                  && (after[|log|].status == Suppressed <==> !open)
                  && (after[|log|].status == Sent <==> open && r.delivery == Delivered)
                  && (after[|log|].status == Failed <==> open && r.delivery == Undelivered))
  {
    RunSnoc(cfg, [], ops, Request(r));
  }

  // ------------------------------------------------------- candidates of a tick, in every run

  predicate TickRaises(cfg: Config, log: seq<Event>, items: seq<Considering>, used: nat)
    decreases |items|
  {
    items != [] &&
    var o := Ticked(cfg, log, items[0], used);
    o.Raised? || TickRaises(cfg, Appended(log, o), items[1..], Spent(used, o))
  }

  // The evaluations a log has more than another.
  function More(log: seq<Event>, start: seq<Event>): int {
    CountLlm(log) - CountLlm(start)
  }

  lemma {:induction false} SpentIs(log: seq<Event>, o: Outcome, used: nat)
    ensures Spent(used, o) == used + More(Appended(log, o), log)
  {
    if o.Recorded? {
      assert (log + [o.event])[..|log|] == log;
    }
  }

  // One more candidate at the end of a tick.
  lemma {:induction false} TickSnoc(cfg: Config, log: seq<Event>, items: seq<Considering>, item: Considering, used: nat)
    ensures var l := TickLog(cfg, log, items, used);
            var u := used + More(l, log);
            && u >= used
            && TickLog(cfg, log, items + [item], used)
               == (if TickRaises(cfg, log, items, used) then l else Appended(l, Ticked(cfg, l, item, u)))
            && (TickRaises(cfg, log, items + [item], used)
                <==> TickRaises(cfg, log, items, used) || Ticked(cfg, l, item, u).Raised?)
    decreases |items|
  {
    if items == [] {
      assert items + [item] == [item] && [item][1..] == [];
    } else {
      var o := Ticked(cfg, log, items[0], used);
      assert (items + [item])[1..] == items[1..] + [item];
      SpentIs(log, o, used);
      if !o.Raised? {
        TickSnoc(cfg, Appended(log, o), items[1..], item, Spent(used, o));
      }
    }
  }

  // The log of a run and, behind it, the tick over these candidates.
  function TickedLog(cfg: Config, ops: seq<Op>, items: seq<Considering>): seq<Event> {
    RunLog(cfg, [], ops + [Tick(items)])
  }

  // The tick still has evaluations to spend.
  predicate Room(cfg: Config, ops: seq<Op>, items: seq<Considering>) {
    More(TickedLog(cfg, ops, items), RunLog(cfg, [], ops)) < cfg.RunBudget()
  }

  // The delivery of one of the candidates raised and ended the tick.
  ghost predicate Stopped(cfg: Config, ops: seq<Op>, items: seq<Considering>) {
    items != [] &&
    var before, last := items[..|items| - 1], items[|items| - 1];
    var log := TickedLog(cfg, ops, before);
    || Stopped(cfg, ops, before)
    || (!SpokenAgainst(cfg, log, last.candidate, last.world.runNow) && Room(cfg, ops, before)
        && Raises(cfg, log, last.candidate, last.world))
  }

  // A hold for want of room in the run's budget.
  predicate HeldForRoom(log: seq<Event>, after: seq<Event>, c: Candidate, now: Instant) {
    && |after| == |log| + 1 && log <= after && Bears(after[|log|], c, now)
    && after[|log|].status == HeldBack && after[|log|].evaluation.value.mode == BudgetHold
  }

  lemma {:induction false} TickedLeaves(cfg: Config, log: seq<Event>, item: Considering, used: nat)
    ensures var after := Appended(log, Ticked(cfg, log, item, used));
            var c, w := item.candidate, item.world;
            if SpokenAgainst(cfg, log, c, w.runNow) then after == log
            else if used >= cfg.RunBudget() then HeldForRoom(log, after, c, w.runNow)
            else Leaves(cfg, log, c, w, after)
    ensures Ticked(cfg, log, item, used).Raised? <==>
              && !SpokenAgainst(cfg, log, item.candidate, item.world.runNow) && used < cfg.RunBudget()
              && Raises(cfg, log, item.candidate, item.world)
  {
    AgainstExactly(cfg, log, item.candidate, item.world.runNow);
    ConsideredLeaves(cfg, log, item.candidate, item.world);
  }

  lemma {:induction false} TickedLogIs(cfg: Config, ops: seq<Op>, items: seq<Considering>)
    requires cfg.enabled
    ensures TickedLog(cfg, ops, items) == TickLog(cfg, RunLog(cfg, [], ops), items, 0)
  {
    RunSnoc(cfg, [], ops, Tick(items));
  }

  lemma {:induction false} StoppedIs(cfg: Config, ops: seq<Op>, items: seq<Considering>)
    requires cfg.enabled
    ensures Stopped(cfg, ops, items) <==> TickRaises(cfg, RunLog(cfg, [], ops), items, 0)
  {
    if items != [] {
      var before, last := items[..|items| - 1], items[|items| - 1];
      var start := RunLog(cfg, [], ops);
      assert items == before + [last];
      StoppedIs(cfg, ops, before);
      TickedLogIs(cfg, ops, before);
      TickSnoc(cfg, start, before, last, 0);
      TickedLeaves(cfg, TickedLog(cfg, ops, before), last, More(TickedLog(cfg, ops, before), start));
    }
  }

  /** In every run, what one more candidate of a tick leaves: nothing when an earlier delivery ended the
      tick or an event speaks against its source, a hold when the run's budget is spent, and otherwise
      what considering it leaves. */
  lemma {:induction false} TickExactly(cfg: Config, ops: seq<Op>, items: seq<Considering>, item: Considering)
    requires cfg.enabled
    ensures var log, after := TickedLog(cfg, ops, items), TickedLog(cfg, ops, items + [item]);
            var c, w := item.candidate, item.world;
            if Stopped(cfg, ops, items) || SpokenAgainst(cfg, log, c, w.runNow) then after == log
            else if !Room(cfg, ops, items) then HeldForRoom(log, after, c, w.runNow)
            else Leaves(cfg, log, c, w, after)
  {
    var start := RunLog(cfg, [], ops);
    var log := TickedLog(cfg, ops, items);
    TickedLogIs(cfg, ops, items);
    TickedLogIs(cfg, ops, items + [item]);
    StoppedIs(cfg, ops, items);
    TickSnoc(cfg, start, items, item, 0);
    TickedLeaves(cfg, log, item, More(log, start));
  }

  /** A tick over nothing leaves nothing, and neither does one of a disabled service. */
  lemma {:induction false} TickOfNothing(cfg: Config, ops: seq<Op>, items: seq<Considering>)
    requires !cfg.enabled || items == []
    ensures TickedLog(cfg, ops, items) == RunLog(cfg, [], ops)
  {
    RunSnoc(cfg, [], ops, Tick(items));
  }

  // ------------------------------------------------------- every entry of a run

  // This candidate, with these answers, explains the entry at j by the log before it.
  ghost predicate Explains(cfg: Config, log: seq<Event>, j: nat, item: Considering)
    requires j < |log|
  {
    var e, c, w := log[j], item.candidate, item.world;
    && e.sourceId == c.sourceId && e.evaluation.Some? && CanonicalId(e) == c.fingerprint
    && (e.created == Some(w.now) || (e.created == Some(w.runNow) && e.status == HeldBack))
    && (e.status != HeldBack ==> Passed(cfg, log[..j], c, w))
    && (e.status == Sent <==> e.status != HeldBack && Wanted(c, w) && w.delivery == Delivered)
    && (e.status == Failed <==> e.status != HeldBack && Wanted(c, w) && w.delivery == Undelivered)
    && (e.status == Deferred <==> e.status != HeldBack && !Wanted(c, w))
  }

  predicate InOp(op: Op, item: Considering) {
    match op
    case Request(_) => false
    case Consider(i) => i == item
    case Tick(items) => item in items
  }

  predicate InRun(ops: seq<Op>, item: Considering) {
    exists k | 0 <= k < |ops| :: InOp(ops[k], item)
  }

  ghost predicate Explained(cfg: Config, log: seq<Event>, j: nat, op: Op)
    requires j < |log|
  {
    exists item :: InOp(op, item) && Explains(cfg, log, j, item)
  }

  lemma {:induction false} LeavesExplains(cfg: Config, log: seq<Event>, item: Considering, after: seq<Event>)
    requires Leaves(cfg, log, item.candidate, item.world, after) && after != log
    ensures |after| == |log| + 1 && log <= after && Explains(cfg, after, |log|, item)
  {
    assert after[..|log|] == log;
  }

  // Entries of a longer log are explained as they were.
  lemma {:induction false} ExplainsOn(cfg: Config, log: seq<Event>, more: seq<Event>, j: nat, item: Considering)
    requires j < |log| && log <= more && Explains(cfg, log, j, item)
    ensures Explains(cfg, more, j, item)
  {
    assert more[..j] == log[..j];
  }

  lemma {:induction false} TickGrows(cfg: Config, log: seq<Event>, items: seq<Considering>, used: nat)
    ensures log <= TickLog(cfg, log, items, used)
    decreases |items|
  {
    if items != [] && !Ticked(cfg, log, items[0], used).Raised? {
      var o := Ticked(cfg, log, items[0], used);
      TickGrows(cfg, Appended(log, o), items[1..], Spent(used, o));
    }
  }

  lemma {:induction false} TickExplained(cfg: Config, log: seq<Event>, items: seq<Considering>, used: nat, j: nat)
    requires |log| <= j < |TickLog(cfg, log, items, used)|
    ensures exists item | item in items :: Explains(cfg, TickLog(cfg, log, items, used), j, item)
    decreases |items|
  {
    var o := Ticked(cfg, log, items[0], used);
    var next, all := Appended(log, o), TickLog(cfg, log, items, used);
    if j < |next| {
      TickGrows(cfg, next, items[1..], Spent(used, o));
      TickedExplains(cfg, log, items[0], used);
      ExplainsOn(cfg, next, all, j, items[0]);
    } else {
      TickExplained(cfg, next, items[1..], Spent(used, o), j);
    }
  }

  lemma {:induction false} TickedExplains(cfg: Config, log: seq<Event>, item: Considering, used: nat)
    requires Ticked(cfg, log, item, used).Recorded?
    ensures var after := Appended(log, Ticked(cfg, log, item, used));
            |after| == |log| + 1 && Explains(cfg, after, |log|, item)
  {
    TickedLeaves(cfg, log, item, used);
    var after := Appended(log, Ticked(cfg, log, item, used));
    assert after[..|log|] == log;
  }

  lemma {:induction false} OpExplained(cfg: Config, log: seq<Event>, op: Op, j: nat)
    requires |log| <= j < |OpLog(cfg, log, op)| && OpLog(cfg, log, op)[j].sourceId != ""
    ensures Explained(cfg, OpLog(cfg, log, op), j, op)
  {
    match op {
      case Request(_) =>
      case Consider(item) =>
        ConsideredLeaves(cfg, log, item.candidate, item.world);
        LeavesExplains(cfg, log, item, OpLog(cfg, log, op));
      case Tick(items) => TickExplained(cfg, log, items, 0, j);
    }
  }

  lemma {:induction false} OpGrows(cfg: Config, log: seq<Event>, op: Op)
    ensures log <= OpLog(cfg, log, op)
  {
    if op.Tick? && cfg.enabled {
      TickGrows(cfg, log, op.items, 0);
    }
  }

  /** Every entry with a source is the work of a candidate of the run: it was sent exactly when the
      candidate, past every gate, was wanted and delivered, failed when it was wanted and not
      delivered, and deferred when it was not wanted; every other one was held. */
  lemma {:induction false} EntryExplained(cfg: Config, ops: seq<Op>, j: nat)
    requires j < |RunLog(cfg, [], ops)| && RunLog(cfg, [], ops)[j].sourceId != ""
    ensures exists item :: InRun(ops, item) && Explains(cfg, RunLog(cfg, [], ops), j, item)
  {
    var n := |ops| - 1;
    var log, before := RunLog(cfg, [], ops), RunLog(cfg, [], ops[..n]);
    assert ops == ops[..n] + [ops[n]];
    RunSnoc(cfg, [], ops[..n], ops[n]);
    OpGrows(cfg, before, ops[n]);
    if j < |before| {
      EntryExplained(cfg, ops[..n], j);
      var item :| InRun(ops[..n], item) && Explains(cfg, before, j, item);
      ExplainsOn(cfg, before, log, j, item);
      var k :| 0 <= k < n && InOp(ops[..n][k], item);
      assert InOp(ops[k], item);
    } else {
      OpExplained(cfg, before, ops[n], j);
      var item :| InOp(ops[n], item) && Explains(cfg, log, j, item);
    }
  }

  // ------------------------------------------------------- a contacted source is left alone

  lemma {:induction false} ClockSnoc(t: int, ops: seq<Op>, op: Op)
    ensures RunClock(t, ops + [op]) <==> RunClock(t, ops) && OpClock(RunEnd(t, ops), op)
    decreases |ops|
  {
    if ops == [] {
      assert ops + [op] == [op] && [op][1..] == [];
    } else {
      assert (ops + [op])[1..] == ops[1..] + [op];
      ClockSnoc(OpEnd(t, ops[0]), ops[1..], op);
    }
  }

  /** Within the cooldown and the next 2000 entries after a contact, a candidate of its source is not
      even heard, escalated or not: no delivery is tried, so none can raise without an entry. */
  lemma {:induction false} ContactedNotHeard(cfg: Config, ops: seq<Op>, t: int, item: Considering, i: nat)
    requires RunClock(t, ops + [Consider(item)]) && cfg.SourceCooldown() > 0
    requires i < |RunLog(cfg, [], ops)| && |RunLog(cfg, [], ops)| - i <= WINDOW
    requires var e := RunLog(cfg, [], ops)[i];
             e.status == Sent && e.sourceId == item.candidate.sourceId != ""
             && Within(e, item.world.now, cfg.SourceCooldown())
    ensures SpokenAgainst(cfg, RunLog(cfg, [], ops), item.candidate, item.world.now)
    ensures !Raises(cfg, RunLog(cfg, [], ops), item.candidate, item.world)
  {
    var log, c, now := RunLog(cfg, [], ops), item.candidate, item.world.now;
    ClockSnoc(t, ops, Consider(item));
    RunSafe(cfg, [], ops, t);
    AgainstExactly(cfg, log, c, now);
    if !AlreadyEvaluated(cfg, log, c, now) {
      var m := EscalatedOver(cfg, log, c, now, i);
      SafePair(cfg, log, i, m);
    }
  }

  // ------------------------------------------------------- what counts as worth it

  // The second candidate has at least what the first has.
  predicate AtLeast(c: Candidate, d: Candidate) {
    && c.kind == d.kind && c.intensity <= d.intensity && c.summaryLength <= d.summaryLength
    && (c.escalate ==> d.escalate) && (c.taskOrConflict ==> d.taskOrConflict) && (c.keeper ==> d.keeper)
    && (c.anyTags ==> d.anyTags) && (c.visibleTags ==> d.visibleTags) && (c.workRung ==> d.workRung)
  }

  /** A candidate with more to say is held no sooner, and escalates no later; escalation, a task, a
      conflict or a rung of work is always worth sending, and nothing escalates over a contact or over
      its own fingerprint. */
  lemma {:induction false} WorthGrows(cfg: Config, c: Candidate, d: Candidate, urgent: bool, prior: Event)
    requires AtLeast(c, d)
    ensures LowSignal(cfg, d) ==> LowSignal(cfg, c)
    ensures LowUtility(d, urgent) ==> LowUtility(c, urgent) && LowUtility(c, false)
    ensures c.fingerprint == d.fingerprint && MateriallyEscalated(c, prior) ==> MateriallyEscalated(d, prior)
    ensures c.escalate || c.taskOrConflict || c.workRung ==> !LowSignal(cfg, c) && !LowUtility(c, urgent)
    ensures prior.status == Sent || CanonicalId(prior) == c.fingerprint != "" ==> !MateriallyEscalated(c, prior)
    ensures !c.escalate && c.intensity < 0.85 ==> !MateriallyEscalated(c, prior)
    ensures prior.status != Sent && CanonicalId(prior) != c.fingerprint
            && (c.escalate || (c.intensity >= 0.85 && (c.taskOrConflict || c.anyTags || c.summaryLength >= 80)))
            ==> MateriallyEscalated(c, prior)
  {}
}
