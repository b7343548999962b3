/** Sliding-window guarantees of the contact policy, over every sequential run on a clock that never goes back. */
module ContactSafety {
  import opened Text
  import opened ContactPolicy

  // ------------------------------------------------------- what each logged event has passed

  // No contact of the same source lies within the cooldown and the window before event j.
  predicate SourceGate(cfg: Config, log: seq<Event>, j: nat)
    requires j < |log|
  {
    cfg.SourceCooldown() > 0 ==>
      forall i | 0 <= i < j && j - i <= WINDOW ::
        log[i].status == Sent && log[i].sourceId != "" && log[i].sourceId == log[j].sourceId ==>
          log[j].created.Some? && !Within(log[i], log[j].created.value, cfg.SourceCooldown())
  }

  predicate BudgetGate(cfg: Config, log: seq<Event>, j: nat)
    requires j < |log|
  {
    UsedLlm(log[j]) ==> log[j].created.Some? && !BudgetExhausted(cfg, log[..j], log[j].created.value)
  }

  // The model, or its fallback, decided on this event.
  predicate IsDecided(e: Event) {
    e.evaluation.Some? && (e.evaluation.value.mode == Llm || e.evaluation.value.mode == Fallback)
  }

  predicate SimilarGate(cfg: Config, log: seq<Event>, j: nat)
    requires j < |log|
  {
    IsDecided(log[j]) ==> log[j].created.Some? && !AnySimilar(cfg, log[..j], CanonicalId(log[j]), log[j].created.value)
  }

  predicate Safe(cfg: Config, log: seq<Event>) {
    forall j | 0 <= j < |log| :: SourceGate(cfg, log, j) && BudgetGate(cfg, log, j) && SimilarGate(cfg, log, j)
  }

  predicate NotAfter(log: seq<Event>, t: int) {
    forall i | 0 <= i < |log| :: log[i].created.Some? ==> log[i].created.value.seconds <= t
  }

  // What the service checked before it appended this event.
  ghost predicate Allowed(cfg: Config, log: seq<Event>, e: Event) {
    && e.created.Some?
    && (e.sourceId != "" ==>
          exists c: Candidate :: c.sourceId == e.sourceId && !AlreadyEvaluated(cfg, log, c, e.created.value))
    && (UsedLlm(e) ==> !BudgetExhausted(cfg, log, e.created.value))
    && (IsDecided(e) ==> !AnySimilar(cfg, log, CanonicalId(e), e.created.value))
  }

  lemma {:induction false} WindowAt(log: seq<Event>, i: nat)
    requires i < |log| && |log| - i <= WINDOW
    ensures var w := Window(log);
            var k := i - (|log| - |w|);
            0 <= k < |w| && w[k] == log[i]
  {}

  // The scan stops at the newest blocking event; when it lets the candidate pass, it escalated over it.
  lemma {:induction false} PassedScan(events: seq<Event>, c: Candidate, now: Instant, cooldown: int, i: nat)
    returns (k: nat)
    requires !ScanSource(events, c, now, cooldown)
    requires i < |events| && Blocks(events[i], c.sourceId, now, cooldown)
    ensures i <= k < |events| && Blocks(events[k], c.sourceId, now, cooldown) && MateriallyEscalated(c, events[k])
  {
    var n := |events| - 1;
    if Blocks(events[n], c.sourceId, now, cooldown) {
      k := n;
    } else {
      k := PassedScan(events[..n], c, now, cooldown, i);
    }
  }

  // Event k is the newest one that blocks, and the candidate has not escalated over it.
  predicate Refuses(events: seq<Event>, k: nat, c: Candidate, now: Instant, cooldown: int) {
    && k < |events| && Blocks(events[k], c.sourceId, now, cooldown) && !MateriallyEscalated(c, events[k])
    && forall j | k < j < |events| :: !Blocks(events[j], c.sourceId, now, cooldown)
  }

  lemma {:induction false} RefusesEarlier(events: seq<Event>, k: nat, c: Candidate, now: Instant, cooldown: int)
    requires events != [] && !Blocks(events[|events| - 1], c.sourceId, now, cooldown)
    ensures Refuses(events, k, c, now, cooldown) <==> Refuses(events[..|events| - 1], k, c, now, cooldown)
  {
    var before := events[..|events| - 1];
    assert forall j | 0 <= j < |before| :: before[j] == events[j];
  }

  /** The scan refuses exactly when some event does; a source without a recent event is never held back. */
  lemma {:induction false} ScanExactly(events: seq<Event>, c: Candidate, now: Instant, cooldown: int)
    ensures ScanSource(events, c, now, cooldown) <==> exists k: nat :: Refuses(events, k, c, now, cooldown)
  {
    if events != [] {
      var n := |events| - 1;
      if Blocks(events[n], c.sourceId, now, cooldown) {
        assert Refuses(events, n, c, now, cooldown) || MateriallyEscalated(c, events[n]);
      } else {
        ScanExactly(events[..n], c, now, cooldown);
        forall k: nat ensures Refuses(events, k, c, now, cooldown) <==> Refuses(events[..n], k, c, now, cooldown) {
          RefusesEarlier(events, k, c, now, cooldown);
        }
      }
    }
  }

  // The same on the log: behind every blocking event in the window stands one that was escalated over.
  lemma {:induction false} EscalatedOver(cfg: Config, log: seq<Event>, c: Candidate, now: Instant, i: nat)
    returns (m: nat)
    requires c.sourceId != "" && cfg.SourceCooldown() > 0 && !AlreadyEvaluated(cfg, log, c, now)
    requires i < |log| && |log| - i <= WINDOW && Blocks(log[i], c.sourceId, now, cfg.SourceCooldown())
    ensures i <= m < |log| && log[m].sourceId == c.sourceId && MateriallyEscalated(c, log[m])
  {
    var offset := |log| - |Window(log)|;
    WindowAt(log, i);
    var k := PassedScan(Window(log), c, now, cfg.SourceCooldown(), i - offset);
    m := offset + k;
    WindowAt(log, m);
  }

  lemma {:induction false} SafePair(cfg: Config, log: seq<Event>, i: nat, m: nat)
    requires Safe(cfg, log) && cfg.SourceCooldown() > 0 && i < |log| && m < |log|
    ensures i < m && m - i <= WINDOW && log[i].status == Sent
            && log[i].sourceId != "" && log[i].sourceId == log[m].sourceId
      ==> log[i].created.Some? && log[m].created.Some?
          && log[m].created.value.seconds - log[i].created.value.seconds >= cfg.SourceCooldown()
  {
    assert SourceGate(cfg, log, m);
  }

  // An escalation cannot hide a contact: the event escalated over would itself have been refused.
  lemma {:induction false} SourceGateKept(cfg: Config, log: seq<Event>, e: Event, i: nat)
    requires Safe(cfg, log) && Allowed(cfg, log, e) && NotAfter(log, e.created.value.seconds)
    requires cfg.SourceCooldown() > 0 && i < |log| && |log| - i <= WINDOW
    requires log[i].status == Sent && log[i].sourceId != "" && log[i].sourceId == e.sourceId
    ensures !Within(log[i], e.created.value, cfg.SourceCooldown())
  {
    var now := e.created.value;
    var c: Candidate :| c.sourceId == e.sourceId && !AlreadyEvaluated(cfg, log, c, now);
    if Within(log[i], now, cfg.SourceCooldown()) {
      var m := EscalatedOver(cfg, log, c, now, i);
      SafePair(cfg, log, i, m);
    }
  }

  lemma {:induction false} EarlierGates(cfg: Config, log: seq<Event>, e: Event, j: nat)
    requires Safe(cfg, log) && j < |log|
    ensures SourceGate(cfg, log + [e], j) && BudgetGate(cfg, log + [e], j) && SimilarGate(cfg, log + [e], j)
  {
    assert (log + [e])[..j] == log[..j];
    assert SourceGate(cfg, log, j) && BudgetGate(cfg, log, j) && SimilarGate(cfg, log, j);
  }

  /** Appending an event that passed its checks keeps every guarantee. */
  lemma {:induction false} AppendSafe(cfg: Config, log: seq<Event>, e: Event)
    requires Safe(cfg, log) && Allowed(cfg, log, e) && NotAfter(log, e.created.value.seconds)
    ensures Safe(cfg, log + [e]) && NotAfter(log + [e], e.created.value.seconds)
  {
    var all := log + [e];
    assert all[..|log|] == log;
    forall i | 0 <= i < |log| && |log| - i <= WINDOW && cfg.SourceCooldown() > 0
               && all[i].status == Sent && all[i].sourceId != "" && all[i].sourceId == e.sourceId
      ensures !Within(all[i], e.created.value, cfg.SourceCooldown())
    {
      SourceGateKept(cfg, log, e, i);
    }
    forall j | 0 <= j < |all|
      ensures SourceGate(cfg, all, j) && BudgetGate(cfg, all, j) && SimilarGate(cfg, all, j)
    {
      if j < |log| {
        EarlierGates(cfg, log, e, j);
      }
    }
  }

  // ------------------------------------------------------- the service only makes allowed appends

  lemma {:induction false} ConsideredAllowed(cfg: Config, log: seq<Event>, c: Candidate, w: World)
    ensures var o := Considered(cfg, log, c, w);
            o.Recorded? ==> o.event.created == Some(w.now) && Allowed(cfg, log, o.event)
  {
    var o := Considered(cfg, log, c, w);
    if o.Recorded? {
      assert c.sourceId == o.event.sourceId && !AlreadyEvaluated(cfg, log, c, w.now);
    }
  }

  lemma {:induction false} TickedAllowed(cfg: Config, log: seq<Event>, item: Considering, used: nat)
    ensures var o := Ticked(cfg, log, item, used);
            o.Recorded? ==>
              (o.event.created == Some(item.world.runNow) || o.event.created == Some(item.world.now))
              && Allowed(cfg, log, o.event)
  {
    ConsideredAllowed(cfg, log, item.candidate, item.world);
    if !AlreadyEvaluated(cfg, log, item.candidate, item.world.runNow) && used >= cfg.RunBudget() {
      var e := Hold(item.candidate, item.world.runNow, BudgetHold);
      assert item.candidate.sourceId == e.sourceId && !AlreadyEvaluated(cfg, log, item.candidate, e.created.value);
      assert Allowed(cfg, log, e);
    }
  }

  // ------------------------------------------------------- whole runs

  datatype Op = Request(asked: Asked) | Consider(item: Considering) | Tick(items: seq<Considering>)

  // Clock readings never go back: within a tick, and from one operation to the next.
  predicate ItemsClock(t: int, items: seq<Considering>)
    decreases |items|
  {
    items == [] ||
      (t <= items[0].world.runNow.seconds <= items[0].world.now.seconds
       && ItemsClock(items[0].world.now.seconds, items[1..]))
  }

  function ItemsEnd(t: int, items: seq<Considering>): int
    decreases |items|
  {
    if items == [] then t else ItemsEnd(items[0].world.now.seconds, items[1..])
  }

  predicate OpClock(t: int, op: Op) {
    match op
    case Request(r) => t <= r.at.seconds
    case Consider(item) => t <= item.world.now.seconds
    case Tick(items) => ItemsClock(t, items)
  }

  function OpEnd(t: int, op: Op): int {
    match op
    case Request(r) => r.at.seconds
    case Consider(item) => item.world.now.seconds
    case Tick(items) => ItemsEnd(t, items)
  }

  predicate RunClock(t: int, ops: seq<Op>)
    decreases |ops|
  {
    ops == [] || (OpClock(t, ops[0]) && RunClock(OpEnd(t, ops[0]), ops[1..]))
  }

  // The log an operation leaves; a tick of a disabled service does nothing.
  function OpLog(cfg: Config, log: seq<Event>, op: Op): seq<Event> {
    match op
    case Request(r) => RequestLog(cfg, log, r)
    case Consider(item) => Appended(log, Considered(cfg, log, item.candidate, item.world))
    case Tick(items) => if cfg.enabled then TickLog(cfg, log, items, 0) else log
  }

  function RunLog(cfg: Config, log: seq<Event>, ops: seq<Op>): seq<Event>
    decreases |ops|
  {
    if ops == [] then log else RunLog(cfg, OpLog(cfg, log, ops[0]), ops[1..])
  }

  lemma {:induction false} ItemsClockMonotone(t: int, items: seq<Considering>)
    requires ItemsClock(t, items)
    ensures t <= ItemsEnd(t, items)
    decreases |items|
  {
    if items != [] {
      ItemsClockMonotone(items[0].world.now.seconds, items[1..]);
    }
  }

  lemma {:induction false} TickSafe(cfg: Config, log: seq<Event>, items: seq<Considering>, used: nat, t: int)
    requires Safe(cfg, log) && NotAfter(log, t) && ItemsClock(t, items)
    ensures Safe(cfg, TickLog(cfg, log, items, used)) && NotAfter(TickLog(cfg, log, items, used), ItemsEnd(t, items))
    decreases |items|
  {
    ItemsClockMonotone(t, items);
    if items != [] {
      var o := Ticked(cfg, log, items[0], used);
      var t' := items[0].world.now.seconds;
      TickedAllowed(cfg, log, items[0], used);
      if o.Recorded? {
        assert NotAfter(log, o.event.created.value.seconds);
        AppendSafe(cfg, log, o.event);
      }
      if !o.Raised? {
        assert NotAfter(Appended(log, o), t');
        TickSafe(cfg, Appended(log, o), items[1..], Spent(used, o), t');
      }
    }
  }

  lemma {:induction false} OpSafe(cfg: Config, log: seq<Event>, op: Op, t: int)
    requires Safe(cfg, log) && NotAfter(log, t) && OpClock(t, op)
    ensures Safe(cfg, OpLog(cfg, log, op)) && NotAfter(OpLog(cfg, log, op), OpEnd(t, op))
  {
    match op {
      case Request(r) =>
        if RequestStatus(cfg, r).Some? {
          AppendSafe(cfg, log, Event("", RequestStatus(cfg, r).value, Some(r.at), None, false));
        }
      case Consider(item) =>
        ConsideredAllowed(cfg, log, item.candidate, item.world);
        var o := Considered(cfg, log, item.candidate, item.world);
        if o.Recorded? {
          AppendSafe(cfg, log, o.event);
        }
      case Tick(items) =>
        ItemsClockMonotone(t, items);
        if cfg.enabled {
          TickSafe(cfg, log, items, 0, t);
        }
    }
  }

  function RunEnd(t: int, ops: seq<Op>): int
    decreases |ops|
  {
    if ops == [] then t else RunEnd(OpEnd(t, ops[0]), ops[1..])
  }

  /** Every sequential run from an empty log, whatever the model decides, keeps every gate's guarantee. */
  lemma {:induction false} RunSafe(cfg: Config, log: seq<Event>, ops: seq<Op>, t: int)
    requires Safe(cfg, log) && NotAfter(log, t) && RunClock(t, ops)
    ensures Safe(cfg, RunLog(cfg, log, ops)) && NotAfter(RunLog(cfg, log, ops), RunEnd(t, ops))
    decreases |ops|
  {
    if ops != [] {
      OpSafe(cfg, log, ops[0], t);
      RunSafe(cfg, OpLog(cfg, log, ops[0]), ops[1..], OpEnd(t, ops[0]));
    }
  }

  // ------------------------------------------------------- the guarantees

  /** After a contact, nothing more is logged for its source within the cooldown and the next 2000
      entries: no escalation, and so no second contact. */
  lemma {:induction false} SourceLeftAlone(cfg: Config, ops: seq<Op>, t: int, i: nat, j: nat)
    requires RunClock(t, ops) && cfg.reevaluateMinutes > 0
    requires i < j < |RunLog(cfg, [], ops)| && j - i <= WINDOW
    requires RunLog(cfg, [], ops)[i].status == Sent && RunLog(cfg, [], ops)[i].sourceId != ""
    requires RunLog(cfg, [], ops)[j].sourceId == RunLog(cfg, [], ops)[i].sourceId
    ensures var log := RunLog(cfg, [], ops);
            log[i].created.Some? && log[j].created.Some?
            && log[j].created.value.seconds - log[i].created.value.seconds >= 60 * cfg.reevaluateMinutes
  {
    RunSafe(cfg, [], ops, t);
    SafePair(cfg, RunLog(cfg, [], ops), i, j);
  }

  /** Two decisions on the same fingerprint are the cooldown or more than 2000 entries apart; the
      earlier event may even be a hold. */
  lemma {:induction false} SimilarApart(cfg: Config, ops: seq<Op>, t: int, i: nat, j: nat)
    requires RunClock(t, ops) && cfg.similarMinutes > 0
    requires i < j < |RunLog(cfg, [], ops)| && j - i <= WINDOW
    requires var log := RunLog(cfg, [], ops);
             IsDecided(log[j]) && Counted(log[i].status) && CanonicalId(log[i]) == CanonicalId(log[j]) != ""
    ensures var log := RunLog(cfg, [], ops);
            log[i].created.Some? && log[j].created.Some?
            && log[j].created.value.seconds - log[i].created.value.seconds >= 60 * cfg.similarMinutes
  {
    RunSafe(cfg, [], ops, t);
    var log := RunLog(cfg, [], ops);
    assert SimilarGate(cfg, log, j);
    WindowAt(log[..j], i);
    var k := i - (j - |Window(log[..j])|);
    assert !Similar(Window(log[..j])[k], CanonicalId(log[j]), log[j].created.value, cfg.SimilarCooldown());
  }

  function CountLlm(events: seq<Event>): nat {
    if events == [] then 0 else CountLlm(events[..|events| - 1]) + if UsedLlm(events[|events| - 1]) then 1 else 0
  }

  lemma {:induction false} UsedHourSuffix(before: seq<Event>, events: seq<Event>, now: Instant)
    requires forall i | 0 <= i < |events| && UsedLlm(events[i]) :: InHour(events[i], now)
    ensures UsedHour(before + events, now) >= CountLlm(events)
  {
    if events != [] {
      var n := |events| - 1;
      assert (before + events)[..|before| + n] == before + events[..n];
      UsedHourSuffix(before, events[..n], now);
    }
  }

  lemma {:induction false} UsedDaySuffix(before: seq<Event>, events: seq<Event>, now: Instant)
    requires forall i | 0 <= i < |events| && UsedLlm(events[i]) :: InDay(events[i], now)
    ensures UsedDay(before + events, now) >= CountLlm(events)
  {
    if events != [] {
      var n := |events| - 1;
      assert (before + events)[..|before| + n] == before + events[..n];
      UsedDaySuffix(before, events[..n], now);
    }
  }

  // The window seen at entry j covers every stretch of at most 2000 entries that ends there.
  lemma {:induction false} WindowCovers(log: seq<Event>, a: nat, j: nat) returns (before: seq<Event>)
    requires a <= j <= |log| && j - a <= WINDOW
    ensures Window(log[..j]) == before + log[a..j]
  {
    var w := Window(log[..j]);
    before := w[..|w| - (j - a)];
    assert w[|w| - (j - a)..] == log[a..j];
  }

  // The evaluations of a stretch all lie within one hour of each other.
  predicate WithinHour(events: seq<Event>) {
    forall i, j | 0 <= i < |events| && 0 <= j < |events| && UsedLlm(events[i]) && UsedLlm(events[j]) ::
      events[i].created.Some? && events[j].created.Some?
      && events[j].created.value.seconds - events[i].created.value.seconds <= HOUR
  }

  predicate WithinDay(events: seq<Event>, day: int) {
    forall i | 0 <= i < |events| && UsedLlm(events[i]) :: events[i].created.Some? && events[i].created.value.day == day
  }

  lemma {:induction false} HourOfLast(events: seq<Event>, last: Event)
    requires WithinHour(events + [last]) && UsedLlm(last)
    ensures last.created.Some?
    ensures forall i | 0 <= i < |events| && UsedLlm(events[i]) :: InHour(events[i], last.created.value)
  {
    var all := events + [last];
    assert all[|events|] == last;
    assert forall i | 0 <= i < |events| :: all[i] == events[i];
  }

  lemma {:induction false} HourBefore(events: seq<Event>, last: Event)
    requires WithinHour(events + [last])
    ensures WithinHour(events)
  {
    var all := events + [last];
    assert forall i | 0 <= i < |events| :: all[i] == events[i];
  }

  lemma {:induction false} HourBudgetSafe(cfg: Config, log: seq<Event>, a: nat, b: nat)
    requires Safe(cfg, log) && cfg.maxPerHour >= 0
    requires a <= b <= |log| && b - a <= WINDOW + 1 && WithinHour(log[a..b])
    ensures CountLlm(log[a..b]) <= cfg.maxPerHour
    decreases b
  {
    if a < b {
      var j := b - 1;
      assert log[a..b][..j - a] == log[a..j];
      assert log[a..b][j - a] == log[j];
      if UsedLlm(log[j]) {
        assert BudgetGate(cfg, log, j);
        var before := WindowCovers(log, a, j);
        assert log[a..b] == log[a..j] + [log[j]];
        HourOfLast(log[a..j], log[j]);
        UsedHourSuffix(before, log[a..j], log[j].created.value);
      } else {
        assert log[a..b] == log[a..j] + [log[j]];
        HourBefore(log[a..j], log[j]);
        HourBudgetSafe(cfg, log, a, j);
      }
    }
  }

  lemma {:induction false} DayBefore(events: seq<Event>, last: Event, day: int)
    requires WithinDay(events + [last], day)
    ensures WithinDay(events, day)
    ensures UsedLlm(last) ==> last.created.Some? && last.created.value.day == day
    ensures UsedLlm(last) ==>
              forall i | 0 <= i < |events| && UsedLlm(events[i]) :: InDay(events[i], last.created.value)
  {
    var all := events + [last];
    assert all[|events|] == last;
    assert forall i | 0 <= i < |events| :: all[i] == events[i];
  }

  lemma {:induction false} DayBudgetSafe(cfg: Config, log: seq<Event>, a: nat, b: nat, day: int)
    requires Safe(cfg, log) && cfg.maxPerDay >= 0
    requires a <= b <= |log| && b - a <= WINDOW + 1 && WithinDay(log[a..b], day)
    ensures CountLlm(log[a..b]) <= cfg.maxPerDay
    decreases b
  {
    if a < b {
      var j := b - 1;
      assert log[a..b][..j - a] == log[a..j];
      assert log[a..b][j - a] == log[j];
      assert log[a..b] == log[a..j] + [log[j]];
      DayBefore(log[a..j], log[j], day);
      if UsedLlm(log[j]) {
        assert BudgetGate(cfg, log, j);
        var before := WindowCovers(log, a, j);
        UsedDaySuffix(before, log[a..j], log[j].created.value);
      } else {
        DayBudgetSafe(cfg, log, a, j, day);
      }
    }
  }

  /** Any stretch of at most 2001 entries holds at most the budgeted evaluations of one hour or day. */
  lemma {:induction false} BudgetsHold(cfg: Config, ops: seq<Op>, t: int, a: nat, b: nat, day: int)
    requires RunClock(t, ops) && a <= b <= |RunLog(cfg, [], ops)| && b - a <= WINDOW + 1
    ensures (cfg.maxPerHour >= 0 && WithinHour(RunLog(cfg, [], ops)[a..b])) ==>
              CountLlm(RunLog(cfg, [], ops)[a..b]) <= cfg.maxPerHour
    ensures (cfg.maxPerDay >= 0 && WithinDay(RunLog(cfg, [], ops)[a..b], day)) ==>
              CountLlm(RunLog(cfg, [], ops)[a..b]) <= cfg.maxPerDay
  {
    RunSafe(cfg, [], ops, t);
    var log := RunLog(cfg, [], ops);
    if cfg.maxPerHour >= 0 && WithinHour(log[a..b]) {
      HourBudgetSafe(cfg, log, a, b);
    }
    if cfg.maxPerDay >= 0 && WithinDay(log[a..b], day) {
      DayBudgetSafe(cfg, log, a, b, day);
    }
  }

  /** One tick only appends, and appends at most the run's budget of evaluations. */
  lemma {:induction false} TickBudget(cfg: Config, log: seq<Event>, items: seq<Considering>, used: nat)
    requires used <= cfg.RunBudget()
    ensures var after := TickLog(cfg, log, items, used);
            log <= after && CountLlm(after) - CountLlm(log) <= cfg.RunBudget() - used
    decreases |items|
  {
    if items != [] {
      var o := Ticked(cfg, log, items[0], used);
      if o.Recorded? {
        assert (log + [o.event])[..|log|] == log;
      }
      if !o.Raised? {
        TickBudget(cfg, Appended(log, o), items[1..], Spent(used, o));
      }
    }
  }

  // ------------------------------------------------------- calls to the model

  // When the logged evaluations took place.
  function LlmTimes(log: seq<Event>): seq<Instant> {
    if log == [] then []
    else
      var e := log[|log| - 1];
      LlmTimes(log[..|log| - 1]) + Times(e)
  }

  // The calls that left an entry, and the number of those that did not.
  function Logged(calls: seq<Call>): seq<Instant> {
    if calls == [] then []
    else
      var c := calls[|calls| - 1];
      Logged(calls[..|calls| - 1]) + if c.logged then [c.at] else []
  }

  function Lost(calls: seq<Call>): nat {
    if calls == [] then 0
    else Lost(calls[..|calls| - 1]) + if calls[|calls| - 1].logged then 0 else 1
  }

  function OpCalls(cfg: Config, log: seq<Event>, op: Op): seq<Call> {
    match op
    case Request(_) => []
    case Consider(item) => Calls(cfg, log, item.candidate, item.world)
    case Tick(items) => if cfg.enabled then TickCalls(cfg, log, items, 0) else []
  }

  function RunCalls(cfg: Config, log: seq<Event>, ops: seq<Op>): seq<Call>
    decreases |ops|
  {
    if ops == [] then [] else OpCalls(cfg, log, ops[0]) + RunCalls(cfg, OpLog(cfg, log, ops[0]), ops[1..])
  }

  // What one entry adds.
  function Times(e: Event): seq<Instant> {
    if UsedLlm(e) && e.created.Some? then [e.created.value] else []
  }

  lemma {:induction false} TimesAppend(log: seq<Event>, e: Event)
    ensures LlmTimes(log + [e]) == LlmTimes(log) + Times(e)
  {
    assert (log + [e])[..|log|] == log;
  }

  lemma {:induction false} LoggedOne(c: Call)
    ensures Logged([c]) == (if c.logged then [c.at] else []) && Lost([c]) == if c.logged then 0 else 1
  {
    assert [c][..0] == [];
  }

  lemma {:induction false} LoggedConcat(x: seq<Call>, y: seq<Call>)
    ensures Logged(x + y) == Logged(x) + Logged(y)
  {
    if y == [] {
      assert x + y == x;
    } else {
      var n := |y| - 1;
      assert (x + y)[..|x| + n] == x + y[..n];
      LoggedConcat(x, y[..n]);
    }
  }

  lemma {:induction false} LoggedOrLost(calls: seq<Call>)
    ensures |Logged(calls)| + Lost(calls) == |calls|
  {
    if calls != [] {
      LoggedOrLost(calls[..|calls| - 1]);
    }
  }

  // What judging a candidate logs is its call, unless the delivery raises.
  lemma {:induction false} JudgedLogged(c: Candidate, w: World)
    ensures Logged(JudgeCalls(c, w)) == if Judged(c, w).Recorded? then Times(Judged(c, w).event) else []
  {
    LoggedOne(Call(w.now, !Judged(c, w).Raised?));
  }

  lemma {:induction false} ConsideredLogged(cfg: Config, log: seq<Event>, c: Candidate, w: World)
    ensures var o := Considered(cfg, log, c, w);
            Logged(Calls(cfg, log, c, w)) == if o.Recorded? then Times(o.event) else []
  {
    JudgedLogged(c, w);
  }

  // The entries an outcome adds, as far as they are evaluations.
  lemma {:induction false} OutcomeTimes(log: seq<Event>, o: Outcome)
    ensures LlmTimes(Appended(log, o)) == LlmTimes(log) + if o.Recorded? then Times(o.event) else []
  {
    if o.Recorded? {
      TimesAppend(log, o.event);
    }
  }

  lemma {:induction false} ItemLogged(cfg: Config, log: seq<Event>, item: Considering, used: nat)
    ensures LlmTimes(Appended(log, Ticked(cfg, log, item, used)))
         == LlmTimes(log) + Logged(ItemCalls(cfg, log, item, used))
  {
    var o := Ticked(cfg, log, item, used);
    OutcomeTimes(log, o);
    if !AlreadyEvaluated(cfg, log, item.candidate, item.world.runNow) && used < cfg.RunBudget() {
      ConsideredLogged(cfg, log, item.candidate, item.world);
    }
  }

  lemma {:induction false} TickLogged(cfg: Config, log: seq<Event>, items: seq<Considering>, used: nat)
    ensures LlmTimes(TickLog(cfg, log, items, used)) == LlmTimes(log) + Logged(TickCalls(cfg, log, items, used))
    decreases |items|
  {
    if items != [] {
      var o, first := Ticked(cfg, log, items[0], used), ItemCalls(cfg, log, items[0], used);
      ItemLogged(cfg, log, items[0], used);
      if o.Raised? {
        assert first + [] == first;
      } else {
        var next, spent := Appended(log, o), Spent(used, o);
        TickLogged(cfg, next, items[1..], spent);
        LoggedConcat(first, TickCalls(cfg, next, items[1..], spent));
        Grouped(LlmTimes(log), Logged(first), Logged(TickCalls(cfg, next, items[1..], spent)));
      }
    }
  }

  lemma {:induction false} OpLogged(cfg: Config, log: seq<Event>, op: Op)
    ensures LlmTimes(OpLog(cfg, log, op)) == LlmTimes(log) + Logged(OpCalls(cfg, log, op))
  {
    match op {
      case Request(r) => RequestLogged(cfg, log, r);
      case Consider(item) =>
        OutcomeTimes(log, Considered(cfg, log, item.candidate, item.world));
        ConsideredLogged(cfg, log, item.candidate, item.world);
      case Tick(items) => TickLogged(cfg, log, items, 0);
    }
  }

  lemma {:induction false} RequestLogged(cfg: Config, log: seq<Event>, r: Asked)
    ensures LlmTimes(RequestLog(cfg, log, r)) == LlmTimes(log)
  {
    if RequestStatus(cfg, r).Some? {
      TimesAppend(log, Event("", RequestStatus(cfg, r).value, Some(r.at), None, false));
    }
  }

  /** In every run the logged evaluations are, in order, the calls to the model that were not lost. */
  lemma {:induction false} RunLogged(cfg: Config, log: seq<Event>, ops: seq<Op>)
    ensures LlmTimes(RunLog(cfg, log, ops)) == LlmTimes(log) + Logged(RunCalls(cfg, log, ops))
    decreases |ops|
  {
    if ops != [] {
      var next, first := OpLog(cfg, log, ops[0]), OpCalls(cfg, log, ops[0]);
      OpLogged(cfg, log, ops[0]);
      RunLogged(cfg, next, ops[1..]);
      LoggedConcat(first, RunCalls(cfg, next, ops[1..]));
      Grouped(LlmTimes(log), Logged(first), Logged(RunCalls(cfg, next, ops[1..])));
    }
  }

  /** The log shows every call to the model exactly when no delivery raised after one. */
  lemma {:induction false} CallsLoggedExactly(cfg: Config, ops: seq<Op>)
    ensures var calls := RunCalls(cfg, [], ops);
            |LlmTimes(RunLog(cfg, [], ops))| == |calls| <==> forall i | 0 <= i < |calls| :: calls[i].logged
  {
    var calls := RunCalls(cfg, [], ops);
    RunLogged(cfg, [], ops);
    LoggedOrLost(calls);
    NoneLost(calls);
  }

  lemma {:induction false} NoneLost(calls: seq<Call>)
    ensures Lost(calls) == 0 <==> forall i | 0 <= i < |calls| :: calls[i].logged
  {
    if calls != [] {
      NoneLost(calls[..|calls| - 1]);
    }
  }

  lemma {:induction false} TimesConcat(x: seq<Event>, y: seq<Event>)
    ensures LlmTimes(x + y) == LlmTimes(x) + LlmTimes(y)
  {
    if y == [] {
      assert x + y == x;
    } else {
      var n := |y| - 1;
      assert x + y == (x + y[..n]) + [y[n]];
      TimesAppend(x + y[..n], y[n]);
      TimesConcat(x, y[..n]);
    }
  }

  lemma {:induction false} TimesCounted(log: seq<Event>)
    ensures |LlmTimes(log)| <= CountLlm(log)
  {
    if log != [] {
      TimesCounted(log[..|log| - 1]);
    }
  }

  // The calls from p to q are those made while the entries from a to b were logged.
  predicate Meanwhile(calls: seq<Call>, p: nat, q: nat, log: seq<Event>, a: nat, b: nat) {
    && p <= q <= |calls| && a <= b <= |log|
    && Logged(calls[..p]) == LlmTimes(log[..a]) && Logged(calls[p..q]) == LlmTimes(log[a..b])
  }

  // Behind some call exactly the first n logged ones are made.
  lemma {:induction false} CallsUpTo(calls: seq<Call>, n: nat) returns (p: nat)
    requires n <= |Logged(calls)|
    ensures p <= |calls| && |Logged(calls[..p])| == n
  {
    if n == |Logged(calls)| {
      p := |calls|;
      assert calls[..p] == calls;
    } else {
      var before := calls[..|calls| - 1];
      p := CallsUpTo(before, n);
      assert calls[..p] == before[..p];
    }
  }

  lemma {:induction false} PrefixesMeet<T>(a: seq<T>, b: seq<T>, x: seq<T>, y: seq<T>)
    requires a + b == x + y && |a| == |x|
    ensures a == x && b == y
  {
    assert a == (a + b)[..|a|] && x == (x + y)[..|x|];
    assert b == (a + b)[|a|..] && y == (x + y)[|x|..];
  }

  /** Every stretch of the log has its calls. */
  lemma {:induction false} CallsMeanwhile(cfg: Config, ops: seq<Op>, a: nat, b: nat) returns (p: nat, q: nat)
    requires a <= b <= |RunLog(cfg, [], ops)|
    ensures Meanwhile(RunCalls(cfg, [], ops), p, q, RunLog(cfg, [], ops), a, b)
  {
    var calls, log := RunCalls(cfg, [], ops), RunLog(cfg, [], ops);
    RunLogged(cfg, [], ops);
    assert [] + Logged(calls) == Logged(calls);
    assert log == log[..b] + log[b..];
    TimesConcat(log[..b], log[b..]);
    q := CallsUpTo(calls, |LlmTimes(log[..b])|);
    assert calls == calls[..q] + calls[q..];
    LoggedConcat(calls[..q], calls[q..]);
    PrefixesMeet(Logged(calls[..q]), Logged(calls[q..]), LlmTimes(log[..b]), LlmTimes(log[b..]));
    p := CallsBefore(calls, q, log, a, b);
  }

  lemma {:induction false} CallsBefore(calls: seq<Call>, q: nat, log: seq<Event>, a: nat, b: nat) returns (p: nat)
    requires q <= |calls| && a <= b <= |log| && Logged(calls[..q]) == LlmTimes(log[..b])
    ensures Meanwhile(calls, p, q, log, a, b)
  {
    assert log[..b] == log[..a] + log[a..b];
    TimesConcat(log[..a], log[a..b]);
    p := CallsUpTo(calls[..q], |LlmTimes(log[..a])|);
    assert calls[..q] == calls[..p] + calls[p..q] && calls[..q][..p] == calls[..p];
    LoggedConcat(calls[..p], calls[p..q]);
    PrefixesMeet(Logged(calls[..p]), Logged(calls[p..q]), LlmTimes(log[..a]), LlmTimes(log[a..b]));
  }

  /** In every run, the calls made during a stretch of at most 2001 entries within an hour, or within
      a day, are at most that budget and the calls lost meanwhile. */
  lemma {:induction false} CallBudgetsHold(cfg: Config, ops: seq<Op>, t: int, p: nat, q: nat, a: nat, b: nat, day: int)
    requires RunClock(t, ops) && b - a <= WINDOW + 1
    requires Meanwhile(RunCalls(cfg, [], ops), p, q, RunLog(cfg, [], ops), a, b)
    ensures var stretch, calls := RunLog(cfg, [], ops)[a..b], RunCalls(cfg, [], ops)[p..q];
            && (cfg.maxPerHour >= 0 && WithinHour(stretch) ==> |calls| <= cfg.maxPerHour + Lost(calls))
            && (cfg.maxPerDay >= 0 && WithinDay(stretch, day) ==> |calls| <= cfg.maxPerDay + Lost(calls))
  {
    LoggedOrLost(RunCalls(cfg, [], ops)[p..q]);
    TimesCounted(RunLog(cfg, [], ops)[a..b]);
    BudgetsHold(cfg, ops, t, a, b, day);
  }

  // ------------------------------------------------------- a run that loses its calls

  const HOURLY := Config(true, 60, 60, 5, 1, -1, 0.5)

  // An urgent candidate past every gate, whose delivery raises.
  const UNLUCKY := Considering(
    Candidate("a", OtherKnownKind, "f", 1.0, true, false, false, false, false, false, 100),
    World(Instant(0, 0), Instant(0, 0), true, Decision(true, true, true), DeliveryRaises))

  lemma {:induction false} UnluckyCalls()
    ensures Considered(HOURLY, [], UNLUCKY.candidate, UNLUCKY.world) == Raised
    ensures Calls(HOURLY, [], UNLUCKY.candidate, UNLUCKY.world) == [Call(Instant(0, 0), false)]
  {
    assert Window([]) == [];
    assert UsedHour([], Instant(0, 0)) == 0 && UsedDay([], Instant(0, 0)) == 0;
  }

  /** Two deliveries that raise at one moment: two calls against an hourly limit of one, and none logged. */
  lemma {:induction false} LostCallsPassLimit()
    ensures var ops := [Consider(UNLUCKY), Consider(UNLUCKY)];
            && RunClock(0, ops) && RunLog(HOURLY, [], ops) == []
            && |RunCalls(HOURLY, [], ops)| == 2 > HOURLY.maxPerHour
  {
    var ops := [Consider(UNLUCKY), Consider(UNLUCKY)];
    UnluckyCalls();
    assert OpLog(HOURLY, [], ops[0]) == [];
    assert ops[1..] == [Consider(UNLUCKY)] && ops[1..][1..] == [];
    assert RunCalls(HOURLY, [], ops[1..]) == OpCalls(HOURLY, [], ops[1]) + RunCalls(HOURLY, [], []);
    assert RunLog(HOURLY, [], ops[1..]) == RunLog(HOURLY, [], []);
  }

  /** One tick makes at most the run's budget of calls, even when a delivery raises. */
  lemma {:induction false} TickCallBudget(cfg: Config, log: seq<Event>, items: seq<Considering>, used: nat)
    requires used <= cfg.RunBudget()
    ensures |TickCalls(cfg, log, items, used)| <= cfg.RunBudget() - used
    decreases |items|
  {
    if items != [] {
      var o := Ticked(cfg, log, items[0], used);
      ItemSpends(cfg, log, items[0], used);
      if !o.Raised? {
        TickCallBudget(cfg, Appended(log, o), items[1..], Spent(used, o));
      }
    }
  }

  lemma {:induction false} ItemSpends(cfg: Config, log: seq<Event>, item: Considering, used: nat)
    requires used <= cfg.RunBudget()
    ensures var o := Ticked(cfg, log, item, used);
            && Spent(used, o) <= cfg.RunBudget()
            && |ItemCalls(cfg, log, item, used)| <= cfg.RunBudget() - used
            && (!o.Raised? ==> Spent(used, o) == used + |ItemCalls(cfg, log, item, used)|)
  {
    ConsideredSpends(cfg, log, item.candidate, item.world);
  }

  lemma {:induction false} ConsideredSpends(cfg: Config, log: seq<Event>, c: Candidate, w: World)
    ensures var o := Considered(cfg, log, c, w);
            && |Calls(cfg, log, c, w)| <= 1
            && (!o.Raised? ==> (Calls(cfg, log, c, w) != [] <==> o.Recorded? && UsedLlm(o.event)))
  {}
}
