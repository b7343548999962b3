/**
 Proactive owner contact: every gate is recomputed from the last 2000 events of an append-only log.
 The model's decision, the delivery and the clock come from outside.
 */
module ContactPolicy {
  import opened Text

  const WINDOW := 2000
  const HOUR := 3600

  // A clock reading: seconds, and the local calendar day it falls on.
  datatype Instant = Instant(seconds: int, day: int)

  datatype Status = Sent | Deferred | HeldBack | Failed | Suppressed

  datatype EvaluationMode = Llm | Fallback | LocalHold | SimilarityHold | BudgetHold

  datatype Evaluation = Evaluation(mode: EvaluationMode, canonicalId: string)

  // A log line. Lines written by this service always carry a creation time.
  datatype Event = Event(
    sourceId: string,
    status: Status,
    created: Option<Instant>,
    evaluation: Option<Evaluation>,
    llmAttempted: bool)

  datatype SourceKind = Initiative | Reflection | OtherKnownKind | UnknownKind

  // What the gates look at in a candidate; `fingerprint` is its token fingerprint.
  datatype Candidate = Candidate(
    sourceId: string,
    kind: SourceKind,
    fingerprint: string,
    intensity: real,
    escalate: bool,
    taskOrConflict: bool,
    keeper: bool,
    anyTags: bool,
    visibleTags: bool,
    workRung: bool,
    summaryLength: nat)

  datatype Decision = Decision(send: bool, llmAttempted: bool, urgent: bool)

  datatype Delivery = Delivered | Undelivered | DeliveryRaises

  // What the outside answers while one candidate is considered.
  datatype World = World(runNow: Instant, now: Instant, anyChannel: bool, decision: Decision, delivery: Delivery)

  datatype Config = Config(
    enabled: bool,
    reevaluateMinutes: int,
    similarMinutes: int,
    maxPerRun: int,
    maxPerHour: int,
    maxPerDay: int,
    lowSignalIntensity: real)
  {
    function SourceCooldown(): int {
      60 * if reevaluateMinutes < 0 then 0 else reevaluateMinutes
    }

    function SimilarCooldown(): int {
      60 * if similarMinutes < 0 then 0 else similarMinutes
    }

    function RunBudget(): nat {
      if maxPerRun < 0 then 0 else maxPerRun
    }
  }

  // ------------------------------------------------------- decisions on one event or candidate

  predicate Counted(s: Status) {
    s != Suppressed
  }

  predicate UsedLlm(e: Event) {
    (e.evaluation.Some? && e.evaluation.value.mode == Llm) || (e.llmAttempted && e.sourceId != "")
  }

  function CanonicalId(e: Event): string {
    if e.evaluation.Some? then e.evaluation.value.canonicalId else ""
  }

  // An event of unknown age counts as recent.
  predicate Within(e: Event, now: Instant, cooldown: int) {
    e.created.None? || now.seconds - e.created.value.seconds < cooldown
  }

  predicate MateriallyEscalated(c: Candidate, prior: Event) {
    && prior.status != Sent
    && !(CanonicalId(prior) != "" && c.fingerprint == CanonicalId(prior))
    && (c.escalate
        || (c.intensity >= 0.85 && (c.taskOrConflict || c.anyTags || c.summaryLength >= 80)))
  }

  predicate LowSignal(cfg: Config, c: Candidate) {
    && c.intensity < cfg.lowSignalIntensity
    && !c.taskOrConflict && !c.keeper && !c.escalate && !c.anyTags && !c.workRung
    && c.kind != UnknownKind
  }

  predicate LowUtility(c: Candidate, urgent: bool) {
    && !c.escalate && !c.taskOrConflict && !c.workRung && !c.visibleTags
    && !(c.kind == Initiative && c.summaryLength > 0)
    && !(c.keeper && c.intensity >= 0.75 && c.summaryLength >= 20)
    && !(urgent && c.summaryLength >= 40)
  }

  // The newest entries, at least one of them.
  function Newest(log: seq<Event>, limit: int): (w: seq<Event>)
    ensures |w| == if limit < 1 && log != [] then 1 else if |log| < limit then |log| else if log == [] then 0 else limit
    ensures |w| <= |log| && w == log[|log| - |w|..]
  {
    var n := if limit < 1 then 1 else limit;
    if |log| <= n then log else log[|log| - n..]
  }

  function Window(log: seq<Event>): (w: seq<Event>)
    ensures |w| <= WINDOW
  {
    Newest(log, WINDOW)
  }

  // ------------------------------------------------------- the gates

  // An event that speaks against evaluating its source again.
  predicate Blocks(e: Event, sourceId: string, now: Instant, cooldown: int) {
    e.sourceId == sourceId && Counted(e.status) && Within(e, now, cooldown)
  }

  // The newest blocking event decides: it blocks unless the candidate has escalated over it.
  predicate ScanSource(events: seq<Event>, c: Candidate, now: Instant, cooldown: int) {
    events != [] &&
    var e := events[|events| - 1];
    if Blocks(e, c.sourceId, now, cooldown) then !MateriallyEscalated(c, e)
    else ScanSource(events[..|events| - 1], c, now, cooldown)
  }

  predicate AlreadyEvaluated(cfg: Config, log: seq<Event>, c: Candidate, now: Instant) {
    c.sourceId != "" && cfg.SourceCooldown() > 0 && ScanSource(Window(log), c, now, cfg.SourceCooldown())
  }

  predicate Similar(e: Event, fingerprint: string, now: Instant, cooldown: int) {
    Counted(e.status) && CanonicalId(e) == fingerprint && Within(e, now, cooldown)
  }

  predicate AnySimilar(cfg: Config, log: seq<Event>, fingerprint: string, now: Instant) {
    && fingerprint != "" && cfg.SimilarCooldown() > 0
    && exists i | 0 <= i < |Window(log)| :: Similar(Window(log)[i], fingerprint, now, cfg.SimilarCooldown())
  }

  predicate InHour(e: Event, now: Instant) {
    UsedLlm(e) && e.created.Some? && e.created.value.seconds >= now.seconds - HOUR
  }

  predicate InDay(e: Event, now: Instant) {
    UsedLlm(e) && e.created.Some? && e.created.value.day == now.day
  }

  function UsedHour(events: seq<Event>, now: Instant): nat {
    if events == [] then 0
    else UsedHour(events[..|events| - 1], now) + if InHour(events[|events| - 1], now) then 1 else 0
  }

  function UsedDay(events: seq<Event>, now: Instant): nat {
    if events == [] then 0
    else UsedDay(events[..|events| - 1], now) + if InDay(events[|events| - 1], now) then 1 else 0
  }

  predicate BudgetExhausted(cfg: Config, log: seq<Event>, now: Instant) {
    || (cfg.maxPerDay >= 0 && UsedDay(Window(log), now) >= cfg.maxPerDay)
    || (cfg.maxPerHour >= 0 && UsedHour(Window(log), now) >= cfg.maxPerHour)
  }

  // ------------------------------------------------------- one candidate, one tick

  datatype Outcome = Skipped | Recorded(event: Event) | Raised

  function Hold(c: Candidate, now: Instant, mode: EvaluationMode): Event {
    Event(c.sourceId, HeldBack, Some(now), Some(Evaluation(mode, c.fingerprint)), false)
  }

  function Decided(c: Candidate, now: Instant, d: Decision, status: Status): Event {
    Event(c.sourceId, status, Some(now),
          Some(Evaluation(if d.llmAttempted then Llm else Fallback, c.fingerprint)), d.llmAttempted)
  }

  predicate Unheard(cfg: Config, log: seq<Event>, c: Candidate, w: World) {
    c.sourceId == "" || AlreadyEvaluated(cfg, log, c, w.now) || !w.anyChannel
  }

  function HoldMode(cfg: Config, log: seq<Event>, c: Candidate, now: Instant): Option<EvaluationMode> {
    if LowSignal(cfg, c) then Some(LocalHold)
    else if AnySimilar(cfg, log, c.fingerprint, now) then Some(SimilarityHold)
    else if BudgetExhausted(cfg, log, now) then Some(BudgetHold)
    else None
  }

  // A call to the model; it leaves a log entry unless the delivery behind it raises.
  datatype Call = Call(at: Instant, logged: bool)

  // The calls considering a candidate makes: at most one, and only past every gate.
  function Calls(cfg: Config, log: seq<Event>, c: Candidate, w: World): seq<Call> {
    if !Unheard(cfg, log, c, w) && HoldMode(cfg, log, c, w.now).None? then JudgeCalls(c, w) else []
  }

  function JudgeCalls(c: Candidate, w: World): seq<Call> {
    if w.decision.llmAttempted then [Call(w.now, !Judged(c, w).Raised?)] else []
  }

  // Past the gates the model decides, and what it sends has to be worth it.
  function Judged(c: Candidate, w: World): Outcome {
    if !w.decision.send || LowUtility(c, w.decision.urgent) then Recorded(Decided(c, w.now, w.decision, Deferred))
    else match w.delivery
      case Delivered => Recorded(Decided(c, w.now, w.decision, Sent))
      case Undelivered => Recorded(Decided(c, w.now, w.decision, Failed))
      case DeliveryRaises => Raised
  }

  function Considered(cfg: Config, log: seq<Event>, c: Candidate, w: World): Outcome {
    if Unheard(cfg, log, c, w) then Skipped
    else match HoldMode(cfg, log, c, w.now)
      case Some(mode) => Recorded(Hold(c, w.now, mode))
      case None => Judged(c, w)
  }

  function Appended(log: seq<Event>, o: Outcome): seq<Event> {
    if o.Recorded? then log + [o.event] else log
  }

  datatype Considering = Considering(candidate: Candidate, world: World)

  // One candidate inside a tick that has already spent `used` evaluations.
  function Ticked(cfg: Config, log: seq<Event>, item: Considering, used: nat): Outcome {
    if AlreadyEvaluated(cfg, log, item.candidate, item.world.runNow) then Skipped
    else if used >= cfg.RunBudget() then Recorded(Hold(item.candidate, item.world.runNow, BudgetHold))
    else Considered(cfg, log, item.candidate, item.world)
  }

  function Spent(used: nat, o: Outcome): nat {
    if o.Recorded? && UsedLlm(o.event) then used + 1 else used
  }

  // The log after a tick over these candidates; a raised delivery ends the tick.
  function TickLog(cfg: Config, log: seq<Event>, items: seq<Considering>, used: nat): seq<Event>
    decreases |items|
  {
    if items == [] then log
    else
      var o := Ticked(cfg, log, items[0], used);
      if o.Raised? then log
      else TickLog(cfg, Appended(log, o), items[1..], Spent(used, o))
  }

  // The model calls of that tick, whether or not they came to be logged.
  function TickCalls(cfg: Config, log: seq<Event>, items: seq<Considering>, used: nat): seq<Call>
    decreases |items|
  {
    if items == [] then []
    else
      var o := Ticked(cfg, log, items[0], used);
      ItemCalls(cfg, log, items[0], used)
      + if o.Raised? then [] else TickCalls(cfg, Appended(log, o), items[1..], Spent(used, o))
  }

  function ItemCalls(cfg: Config, log: seq<Event>, item: Considering, used: nat): seq<Call> {
    if AlreadyEvaluated(cfg, log, item.candidate, item.world.runNow) || used >= cfg.RunBudget() then []
    else Calls(cfg, log, item.candidate, item.world)
  }

  // An explicit request: refused when the service is off or the message blank, else sent or not.
  datatype Asked = Asked(message: string, delivery: Delivery, at: Instant)

  function RequestStatus(cfg: Config, r: Asked): Option<Status> {
    if !cfg.enabled || Strip(r.message) == "" then Some(Suppressed)
    else match r.delivery
      case Delivered => Some(Sent)
      case Undelivered => Some(Failed)
      case DeliveryRaises => None
  }

  function RequestLog(cfg: Config, log: seq<Event>, r: Asked): seq<Event> {
    match RequestStatus(cfg, r)
    case None => log
    case Some(status) => log + [Event("", status, Some(r.at), None, false)]
  }

  // Log and calls of a tick together, as the loop builds them up.
  datatype Trail = Trail(log: seq<Event>, calls: seq<Call>)

  function After(cfg: Config, t: Trail, item: Considering, used: nat): Trail {
    Trail(Appended(t.log, Ticked(cfg, t.log, item, used)), t.calls + ItemCalls(cfg, t.log, item, used))
  }

  function TickTrail(cfg: Config, t: Trail, items: seq<Considering>, used: nat): Trail
    decreases |items|
  {
    if items == [] then t
    else
      var o := Ticked(cfg, t.log, items[0], used);
      if o.Raised? then After(cfg, t, items[0], used)
      else TickTrail(cfg, After(cfg, t, items[0], used), items[1..], Spent(used, o))
  }

  lemma {:induction false} TrailLog(cfg: Config, t: Trail, items: seq<Considering>, used: nat)
    ensures TickTrail(cfg, t, items, used).log == TickLog(cfg, t.log, items, used)
    decreases |items|
  {
    if items != [] {
      var o := Ticked(cfg, t.log, items[0], used);
      if !o.Raised? {
        TrailLog(cfg, After(cfg, t, items[0], used), items[1..], Spent(used, o));
      }
    }
  }

  lemma {:induction false} TrailCalls(cfg: Config, t: Trail, items: seq<Considering>, used: nat)
    ensures TickTrail(cfg, t, items, used).calls == t.calls + TickCalls(cfg, t.log, items, used)
    decreases |items|
  {
    if items != [] {
      var o, first := Ticked(cfg, t.log, items[0], used), ItemCalls(cfg, t.log, items[0], used);
      if !o.Raised? {
        var t' := After(cfg, t, items[0], used);
        TrailCalls(cfg, t', items[1..], Spent(used, o));
        Grouped(t.calls, first, TickCalls(cfg, t'.log, items[1..], Spent(used, o)));
      }
    }
  }

  class ContactService {
    const cfg: Config
    var log: seq<Event>
    ghost var calls: seq<Call>  // the calls made to the model

    constructor (cfg: Config)
      ensures this.cfg == cfg && log == [] && calls == []
    {
      this.cfg := cfg;
      log, calls := [], [];
    }

    method ListEvents(limit: int) returns (events: seq<Event>)
      ensures events == Newest(log, limit)
    {
      var n := if limit < 1 then 1 else limit;
      events := if |log| <= n then log else log[|log| - n..];
    }

    method SourceAlreadyEvaluated(c: Candidate, now: Instant) returns (b: bool)
      ensures b == AlreadyEvaluated(cfg, log, c, now)
    {
      if c.sourceId == "" || cfg.SourceCooldown() <= 0 {
        return false;
      }
      var events := ListEvents(WINDOW);
      b := Scan(events, c, now, cfg.SourceCooldown());
    }

    method Scan(events: seq<Event>, c: Candidate, now: Instant, cooldown: int) returns (b: bool)
      ensures b == ScanSource(events, c, now, cooldown)
    {
      assert events[..|events|] == events;
      for i := |events| downto 0
        invariant ScanSource(events, c, now, cooldown) == ScanSource(events[..i], c, now, cooldown)
      {
        assert events[..i + 1][..i] == events[..i];
        if Blocks(events[i], c.sourceId, now, cooldown) {
          return !MateriallyEscalated(c, events[i]);
        }
      }
      return false;
    }

    // The newest similar event, if there is one.
    method RecentSimilarEvaluation(events: seq<Event>, fingerprint: string, now: Instant)
      returns (found: Option<Event>)
      ensures events == Window(log) ==> (found.Some? <==> AnySimilar(cfg, log, fingerprint, now))
      ensures found.Some? ==> exists i | 0 <= i < |events| ::
                && found.value == events[i] && Similar(events[i], fingerprint, now, cfg.SimilarCooldown())
                && forall k | i < k < |events| :: !Similar(events[k], fingerprint, now, cfg.SimilarCooldown())
    {
      if fingerprint == "" || cfg.SimilarCooldown() <= 0 {
        return None;
      }
      for i := |events| downto 0
        invariant forall k | i <= k < |events| :: !Similar(events[k], fingerprint, now, cfg.SimilarCooldown())
      {
        if Similar(events[i], fingerprint, now, cfg.SimilarCooldown()) {
          return Some(events[i]);
        }
      }
      return None;
    }

    method EvaluationBudgetSnapshot(events: seq<Event>, now: Instant) returns (usedHour: nat, usedDay: nat)
      ensures usedHour == UsedHour(events, now) && usedDay == UsedDay(events, now)
    {
      usedHour, usedDay := 0, 0;
      for i := 0 to |events|
        invariant usedHour == UsedHour(events[..i], now) && usedDay == UsedDay(events[..i], now)
      {
        assert events[..i + 1][..i] == events[..i];
        var e := events[i];
        if UsedLlm(e) && e.created.Some? {
          if e.created.value.seconds >= now.seconds - HOUR {
            usedHour := usedHour + 1;
          }
          if e.created.value.day == now.day {
            usedDay := usedDay + 1;
          }
        }
      }
      assert events[..|events|] == events;
    }

    method Record(e: Event) returns (o: Outcome)
      modifies this`log
      ensures log == old(log) + [e] && o == Recorded(e)
    {
      log := log + [e];
      return Recorded(e);
    }

    method ConsiderCandidate(c: Candidate, w: World) returns (o: Outcome)
      modifies this
      ensures o == Considered(cfg, old(log), c, w)
      ensures log == Appended(old(log), o)
      ensures calls == old(calls) + Calls(cfg, old(log), c, w)
    {
      if c.sourceId == "" {
        return Skipped;
      }
      var evaluated := SourceAlreadyEvaluated(c, w.now);
      if evaluated || !w.anyChannel {
        return Skipped;
      }
      var hold := HoldReason(c, w.now);
      if hold.Some? {
        o := Record(Hold(c, w.now, hold.value));
        return;
      }
      o := Judge(c, w);
      calls := calls + JudgeCalls(c, w);
    }

    method HoldReason(c: Candidate, now: Instant) returns (mode: Option<EvaluationMode>)
      ensures mode == HoldMode(cfg, log, c, now)
    {
      if LowSignal(cfg, c) {
        return Some(LocalHold);
      }
      var recent := ListEvents(WINDOW);
      var similar := RecentSimilarEvaluation(recent, c.fingerprint, now);
      if similar.Some? {
        return Some(SimilarityHold);
      }
      var usedHour, usedDay := EvaluationBudgetSnapshot(recent, now);
      if (cfg.maxPerDay >= 0 && usedDay >= cfg.maxPerDay) || (cfg.maxPerHour >= 0 && usedHour >= cfg.maxPerHour) {
        return Some(BudgetHold);
      }
      return None;
    }

    method Judge(c: Candidate, w: World) returns (o: Outcome)
      modifies this`log
      ensures o == Judged(c, w) && log == Appended(old(log), o)
    {
      if !w.decision.send || LowUtility(c, w.decision.urgent) {
        o := Record(Decided(c, w.now, w.decision, Deferred));
        return;
      }
      match w.delivery {
        case Delivered => o := Record(Decided(c, w.now, w.decision, Sent));
        case Undelivered => o := Record(Decided(c, w.now, w.decision, Failed));
        case DeliveryRaises => o := Raised;
      }
    }

    method RunOnce(items: seq<Considering>)
      modifies this
      ensures log == if cfg.enabled then TickLog(cfg, old(log), items, 0) else old(log)
      ensures calls == old(calls) + if cfg.enabled then TickCalls(cfg, old(log), items, 0) else []
    {
      if !cfg.enabled {
        return;
      }
      TrailLog(cfg, Trail(log, calls), items, 0);
      TrailCalls(cfg, Trail(log, calls), items, 0);
      ghost var all := TickTrail(cfg, Trail(log, calls), items, 0);
      var evaluations := 0;
      var i := 0;
      assert items[0..] == items;
      while i < |items|
        invariant 0 <= i <= |items|
        invariant all == TickTrail(cfg, Trail(log, calls), items[i..], evaluations)
      {
        assert items[i..][1..] == items[i + 1..];
        var o := RunItem(items[i], evaluations);
        if o.Raised? {
          return;
        }
        evaluations := Spent(evaluations, o);
        i := i + 1;
      }
      assert items[i..] == [];
    }

    // One candidate of a tick that has already spent `used` evaluations.
    method RunItem(item: Considering, used: nat) returns (o: Outcome)
      modifies this
      ensures o == Ticked(cfg, old(log), item, used)
      ensures Trail(log, calls) == After(cfg, old(Trail(log, calls)), item, used)
    {
      var evaluated := SourceAlreadyEvaluated(item.candidate, item.world.runNow);
      if evaluated {
        return Skipped;
      }
      if used >= cfg.RunBudget() {
        o := Record(Hold(item.candidate, item.world.runNow, BudgetHold));
      } else {
        o := ConsiderCandidate(item.candidate, item.world);
      }
    }

    // An explicit request by the agent passes no gate and names no source.
    method RequestContact(r: Asked)
      modifies this`log
      ensures log == RequestLog(cfg, old(log), r)
    {
      var message := Strip(r.message);
      var status := Failed;
      if !cfg.enabled || message == "" {
        status := Suppressed;
      } else {
        match r.delivery {
          case Delivered => status := Sent;
          case Undelivered =>
          case DeliveryRaises => return;
        }
      }
      var _ := Record(Event("", status, Some(r.at), None, false));
    }
  }
}
