/** Model routing: fallbacks between the tiers, and the sanitiser that clamps them to available models. */
module ModelRouting {
  import opened Text

  datatype RoutingMode = Single | Tiered

  datatype Effort = Low | Medium | High | ExtraHigh

  datatype Tier = LightTier | StandardTier | HighTier | ExtraHighTier

  type ModelId = Option<string>

  datatype Models = Models(single: ModelId, light: ModelId, standard: ModelId, high: ModelId, extraHigh: ModelId)

  datatype Efforts = Efforts(
    single: Option<Effort>,
    light: Option<Effort>,
    standard: Option<Effort>,
    high: Option<Effort>,
    extraHigh: Option<Effort>)

  datatype Routing = Routing(mode: RoutingMode, models: Models, efforts: Efforts, autoEscalation: bool)

  const DEFAULT_ROUTING :=
    Routing(Single, Models(None, None, None, None, None), Efforts(None, None, None, None, None), true)

  datatype RoutingState = RoutingState(defaultModel: ModelId, routing: Routing)

  // Python's `a or b` on optional strings: an empty string counts as missing.
  function Or(a: ModelId, b: ModelId): ModelId {
    if a.Some? && a.value != "" then a else b
  }

  // `str(x or "").strip() or None`
  function CleanId(a: ModelId): ModelId {
    if a.None? || Strip(a.value) == "" then None else Some(Strip(a.value))
  }

  function OrEffort(a: Option<Effort>, b: Option<Effort>): Option<Effort> {
    if a.Some? then a else b
  }

  // ------------------------------------------------------- fallbacks

  function NormalModels(mode: RoutingMode, m: Models, default: ModelId): Models {
    var fallback := CleanId(Or(m.single, default));
    match mode
    case Single => Models(fallback, fallback, fallback, fallback, fallback)
    case Tiered =>
      var standard := CleanId(Or(m.standard, fallback));
      var light := CleanId(Or(m.light, Or(standard, fallback)));
      var high := CleanId(Or(m.high, Or(standard, fallback)));
      var extraHigh := CleanId(Or(m.extraHigh, Or(high, Or(standard, fallback))));
      Models(Or(fallback, standard), light, standard, high, extraHigh)
  }

  function NormalEfforts(mode: RoutingMode, e: Efforts): Efforts {
    var standard := OrEffort(e.standard, e.single);
    var light := OrEffort(e.light, Some(Low));
    match mode
    case Single => Efforts(e.single, light, standard, OrEffort(e.high, e.single), OrEffort(e.extraHigh, e.single))
    case Tiered =>
      var high := OrEffort(e.high, standard);
      Efforts(e.single, light, standard, high, OrEffort(e.extraHigh, OrEffort(high, standard)))
  }

  function Normalized(r: Routing, default: ModelId): Routing {
    r.(models := NormalModels(r.mode, r.models, default), efforts := NormalEfforts(r.mode, r.efforts))
  }

  function ResolveModel(r: Routing, default: ModelId, tier: Tier): ModelId {
    var m := Normalized(r, default).models;
    match tier
    case LightTier => Or(m.light, m.standard)
    case HighTier => Or(m.high, m.standard)
    case ExtraHighTier => Or(m.extraHigh, Or(m.high, m.standard))
    case StandardTier => Or(m.standard, m.single)
  }

  // ------------------------------------------------------- clamping to the available models

  predicate EndsWith(s: string, suffix: string) {
    |suffix| <= |s| && s[|s| - |suffix|..] == suffix
  }

  function Matching(available: seq<string>, suffix: string): (r: seq<string>)
    ensures forall i | 0 <= i < |r| :: r[i] in available
  {
    if available == [] then []
    else
      var before, last := Matching(available[..|available| - 1], suffix), available[|available| - 1];
      if EndsWith(last, suffix) then before + [last] else before
  }

  // An available model named by this candidate: exactly, or by an unambiguous name without provider.
  function Resolve(candidate: ModelId, available: seq<string>): (r: ModelId)
    ensures r.Some? ==> r.value in available
  {
    match CleanId(candidate)
    case None => None
    case Some(clean) =>
      if clean in available then Some(clean)
      else if '/' in clean then None
      else
        var matches := Matching(available, "/" + clean);
        if |matches| == 1 then Some(matches[0]) else None
  }

  function FirstResolved(candidates: seq<ModelId>, available: seq<string>): (r: ModelId)
    ensures r.Some? ==> r.value in available
  {
    if candidates == [] then None
    else
      var r := Resolve(candidates[0], available);
      if r.Some? then r else FirstResolved(candidates[1..], available)
  }

  function Candidates(mode: RoutingMode, m: Models, default: ModelId): seq<ModelId> {
    match mode
    case Single => [m.single, m.standard, default, m.high, m.extraHigh, m.light]
    case Tiered => [m.standard, default, m.single, m.high, m.extraHigh, m.light]
  }

  function Pick(mode: RoutingMode, m: Models, default: ModelId, available: seq<string>): (r: string)
    requires available != []
    ensures r in available
  {
    var r := FirstResolved(Candidates(mode, m, default), available);
    if r.Some? then r.value else available[0]
  }

  function Heal(r: Routing): Routing {
    var e := r.efforts;
    if r.mode == Single && e.single.Some? && e.light != Some(Low)
       && e.light == e.single && e.standard == e.single && e.high == e.single && e.extraHigh == e.single
    then r.(efforts := e.(light := Some(Low)))
    else r
  }

  function ResolveAll(m: Models, available: seq<string>): Models {
    Models(Resolve(m.single, available), Resolve(m.light, available), Resolve(m.standard, available),
           Resolve(m.high, available), Resolve(m.extraHigh, available))
  }

  // The cleaned available ids without repetition, in order.
  function Ordered(items: seq<string>): (r: seq<string>) {
    if items == [] then []
    else
      var before, clean := Ordered(items[..|items| - 1]), Strip(items[|items| - 1]);
      if clean == "" || clean in before then before else before + [clean]
  }

  function Sanitized(default: ModelId, routing: Option<Routing>, items: seq<string>): RoutingState {
    var r := if routing.Some? then routing.value else DEFAULT_ROUTING;
    var available := Ordered(items);
    if available == [] then RoutingState(CleanId(default), Heal(Normalized(r, CleanId(default))))
    else Clamped(default, r, available)
  }

  function Clamped(default: ModelId, r: Routing, available: seq<string>): RoutingState
    requires available != []
  {
    var fallback := Some(Pick(r.mode, r.models, default, available));
    RoutingState(fallback, Heal(Normalized(r.(models := ResolveAll(r.models, available)), fallback)))
  }

  method SanitizeModelRoutingState(default: ModelId, routing: Option<Routing>, items: seq<string>)
    returns (s: RoutingState)
    ensures s == Sanitized(default, routing, items)
  {
    var r := if routing.Some? then routing.value else DEFAULT_ROUTING;
    var ordered := [];
    var available := {};
    for i := 0 to |items|
      invariant ordered == Ordered(items[..i])
      invariant forall x :: x in available <==> x in ordered
    {
      assert items[..i + 1][..i] == items[..i];
      var clean := Strip(items[i]);
      if clean != "" && clean !in available {
        ordered := ordered + [clean];
        available := available + {clean};
      }
    }
    assert items[..|items|] == items;
    if ordered == [] {
      return RoutingState(CleanId(default), Heal(Normalized(r, CleanId(default))));
    }
    return Clamped(default, r, ordered);
  }

  // ------------------------------------------------------- what sanitising guarantees

  // Available ids are stripped and not empty, so they resolve to themselves.
  predicate Plain(available: seq<string>) {
    forall i | 0 <= i < |available| :: available[i] != "" && Strip(available[i]) == available[i]
  }

  lemma {:induction false} OrderedPlain(items: seq<string>)
    ensures Plain(Ordered(items))
  {
    if items != [] {
      OrderedPlain(items[..|items| - 1]);
      TrimIdempotent(items[|items| - 1], SPACES);
    }
  }

  predicate Known(m: ModelId, available: seq<string>) {
    m.Some? && m.value in available
  }

  predicate AllKnown(m: Models, available: seq<string>) {
    Known(m.single, available) && Known(m.light, available) && Known(m.standard, available)
    && Known(m.high, available) && Known(m.extraHigh, available)
  }

  lemma {:induction false} KnownFixed(m: ModelId, other: ModelId, available: seq<string>)
    requires Plain(available) && Known(m, available)
    ensures CleanId(m) == m && Resolve(m, available) == m && Or(m, other) == m
  {}

  // `Or` of resolved ids, in terms of what is known.
  function Else(a: ModelId, b: ModelId): ModelId {
    if a.Some? then a else b
  }

  lemma {:induction false} OrKnown(a: ModelId, b: ModelId, available: seq<string>)
    requires Plain(available) && (a.Some? ==> Known(a, available)) && Known(b, available)
    ensures Or(a, b) == Else(a, b) && Known(Else(a, b), available) && CleanId(Else(a, b)) == Else(a, b)
  {}

  // Normalising resolved models against an available default.
  lemma {:induction false} NormalKnown(mode: RoutingMode, m: Models, f: ModelId, available: seq<string>)
    requires Plain(available) && Known(f, available)
    ensures var r := ResolveAll(m, available);
            var n := NormalModels(mode, r, f);
            && AllKnown(n, available)
            && n.single == Else(r.single, f)
            && n.standard == (if mode == Single then Else(r.single, f) else Else(r.standard, Else(r.single, f)))
            && (mode == Single ==> n == Models(n.single, n.single, n.single, n.single, n.single))
  {
    var r := ResolveAll(m, available);
    OrKnown(r.single, f, available);
    var fallback := Else(r.single, f);
    if mode == Tiered {
      OrKnown(r.standard, fallback, available);
      var standard := Else(r.standard, fallback);
      KnownFixed(standard, fallback, available);
      KnownFixed(fallback, standard, available);
      OrKnown(r.light, standard, available);
      OrKnown(r.high, standard, available);
      var high := Else(r.high, standard);
      KnownFixed(high, standard, available);
      OrKnown(r.extraHigh, high, available);
    }
  }

  /** The default and all five fields come from the available models. */
  lemma {:induction false} ClampedKnown(default: ModelId, r: Routing, available: seq<string>)
    requires available != [] && Plain(available)
    ensures var s := Clamped(default, r, available);
            Known(s.defaultModel, available) && AllKnown(s.routing.models, available)
  {
    NormalKnown(r.mode, r.models, Some(Pick(r.mode, r.models, default, available)), available);
  }

  // A routing whose fields are all available, all alike in single mode.
  predicate Settled(r: Routing, available: seq<string>) {
    && AllKnown(r.models, available)
    && (r.mode == Single ==> var s := r.models.single; r.models == Models(s, s, s, s, s))
  }

  lemma {:induction false} SettledModels(r: Routing, default: ModelId, available: seq<string>)
    requires Plain(available) && Settled(r, available)
    ensures ResolveAll(r.models, available) == r.models
    ensures NormalModels(r.mode, r.models, default) == r.models
  {
    var m := r.models;
    KnownFixed(m.single, default, available);
    KnownFixed(m.standard, m.single, available);
    KnownFixed(m.single, m.standard, available);
    KnownFixed(m.light, Or(m.standard, m.single), available);
    KnownFixed(m.high, Or(m.standard, m.single), available);
    KnownFixed(m.extraHigh, Or(m.high, Or(m.standard, m.single)), available);
  }

  lemma {:induction false} EffortsSettle(r: Routing, default: ModelId)
    ensures var e := Heal(Normalized(r, default)).efforts;
            NormalEfforts(r.mode, e) == e
            && Heal(Heal(Normalized(r, default))) == Heal(Normalized(r, default))
  {
    var n := NormalEfforts(r.mode, r.efforts);
    assert NormalEfforts(r.mode, n) == n;
    assert NormalEfforts(r.mode, n.(light := Some(Low))) == n.(light := Some(Low));
  }

  lemma {:induction false} ClampedSettles(default: ModelId, r: Routing, available: seq<string>)
    requires available != [] && Plain(available)
    ensures Settled(Clamped(default, r, available).routing, available)
  {
    NormalKnown(r.mode, r.models, Some(Pick(r.mode, r.models, default, available)), available);
  }

  /** The routing itself is sanitised in one application, whatever default it is given again. */
  lemma {:induction false} RoutingIdempotent(default: ModelId, r: Routing, again: ModelId, available: seq<string>)
    requires available != [] && Plain(available)
    ensures var s := Clamped(default, r, available);
            Clamped(again, s.routing, available).routing == s.routing
  {
    var s := Clamped(default, r, available);
    ClampedSettles(default, r, available);
    SettledModels(s.routing, Some(Pick(s.routing.mode, s.routing.models, again, available)), available);
    EffortsSettle(r.(models := ResolveAll(r.models, available)), s.defaultModel);
  }

  lemma {:induction false} FirstOfThree(c: seq<ModelId>, available: seq<string>)
    requires |c| >= 3
    ensures Resolve(c[0], available).Some? ==> FirstResolved(c, available) == Resolve(c[0], available)
    ensures Resolve(c[0], available).None? && Resolve(c[1], available).Some? ==>
              FirstResolved(c, available) == Resolve(c[1], available)
    ensures Resolve(c[0], available).None? && Resolve(c[1], available).None? && Resolve(c[2], available).Some? ==>
              FirstResolved(c, available) == Resolve(c[2], available)
  {
    var d := c[1..];
    var e := d[1..];
    assert d[0] == c[1] && e[0] == c[2];
    var first, second := Resolve(c[0], available), Resolve(d[0], available);
    assert FirstResolved(c, available) == if first.Some? then first else FirstResolved(d, available);
    assert FirstResolved(d, available) == if second.Some? then second else FirstResolved(e, available);
  }

  // What the sanitiser picks as the default, in single and in tiered mode.
  lemma {:induction false} PickFirst(mode: RoutingMode, m: Models, default: ModelId, available: seq<string>)
    requires available != []
    ensures var r := ResolveAll(m, available);
            var d := Resolve(default, available);
            && (mode == Single && r.single.Some? ==> Some(Pick(mode, m, default, available)) == r.single)
            && (mode == Tiered && r.standard.Some? ==> Some(Pick(mode, m, default, available)) == r.standard)
            && (mode == Tiered && r.standard.None? && d.Some? ==> Some(Pick(mode, m, default, available)) == d)
            && (mode == Tiered && r.standard.None? && d.None? && r.single.Some? ==>
                  Some(Pick(mode, m, default, available)) == r.single)
  {
    var c := Candidates(mode, m, default);
    FirstOfThree(c, available);
  }

  // The family of inputs whose default model moves once more on the second application.
  predicate DefaultMoves(default: ModelId, r: Routing, available: seq<string>) {
    && r.mode == Tiered
    && Resolve(r.models.standard, available).None?
    && Resolve(default, available).Some? && Resolve(r.models.single, available).Some?
    && Resolve(default, available) != Resolve(r.models.single, available)
  }

  lemma {:induction false} SecondDefault(r: Routing, default: ModelId, available: seq<string>)
    requires available != [] && Plain(available) && Settled(r, available)
    ensures Some(Pick(r.mode, r.models, default, available)) == r.models.standard
  {
    SettledModels(r, default, available);
    PickFirst(r.mode, r.models, default, available);
  }

  /** Sanitising twice gives the same state as once exactly outside that family. */
  lemma {:induction false} IdempotentExactly(default: ModelId, r: Routing, available: seq<string>)
    requires available != [] && Plain(available)
    ensures var s := Clamped(default, r, available);
            Clamped(s.defaultModel, s.routing, available) == s <==> !DefaultMoves(default, r, available)
  {
    var s := Clamped(default, r, available);
    var f := Some(Pick(r.mode, r.models, default, available));
    RoutingIdempotent(default, r, s.defaultModel, available);
    ClampedSettles(default, r, available);
    SecondDefault(s.routing, s.defaultModel, available);
    NormalKnown(r.mode, r.models, f, available);
    PickFirst(r.mode, r.models, default, available);
  }

  /** Two applications always reach a fixed point; in single mode one does. */
  lemma {:induction false} FixedAfterTwo(default: ModelId, r: Routing, available: seq<string>)
    requires available != [] && Plain(available)
    ensures var s := Clamped(default, r, available);
            var t := Clamped(s.defaultModel, s.routing, available);
            && Clamped(t.defaultModel, t.routing, available) == t
            && (r.mode == Single ==> t == s)
  {
    var s := Clamped(default, r, available);
    var t := Clamped(s.defaultModel, s.routing, available);
    IdempotentExactly(default, r, available);
    RoutingIdempotent(default, r, s.defaultModel, available);
    RoutingIdempotent(default, r, t.defaultModel, available);
    ClampedSettles(default, r, available);
    SecondDefault(s.routing, s.defaultModel, available);
    SecondDefault(s.routing, t.defaultModel, available);
  }

  /** A sanitised routing resolves every tier to an available model, whatever default it is asked with. */
  lemma {:induction false} ResolvesAvailable(default: ModelId, r: Routing, available: seq<string>, asked: ModelId,
                                            tier: Tier)
    requires available != [] && Plain(available)
    ensures Known(ResolveModel(Clamped(default, r, available).routing, asked, tier), available)
  {
    var s := Clamped(default, r, available).routing;
    ClampedSettles(default, r, available);
    SettledModels(s, asked, available);
    KnownFixed(s.models.light, s.models.standard, available);
    KnownFixed(s.models.high, s.models.standard, available);
    KnownFixed(s.models.extraHigh, Or(s.models.high, s.models.standard), available);
    KnownFixed(s.models.standard, s.models.single, available);
  }

  // ------------------------------------------------------- which model a tier gets

  // The id a model setting names among the available ones: itself, or the only one that ends with it
  // behind a slash, if it names no provider of its own.
  predicate Names(candidate: ModelId, available: seq<string>, id: string) {
    && candidate.Some? && id in available
    && var clean := Strip(candidate.value);
       clean != "" && if clean in available then id == clean else OnlySuffixed(clean, available, id)
  }

  predicate OnlySuffixed(clean: string, available: seq<string>, id: string) {
    && '/' !in clean
    && exists i | 0 <= i < |available| ::
         && available[i] == id && EndsWith(id, "/" + clean)
         && forall j | 0 <= j < |available| && j != i :: !EndsWith(available[j], "/" + clean)
  }

  lemma {:induction false} MatchingIs(available: seq<string>, suffix: string)
    ensures Matching(available, suffix) == [] <==>
              forall i | 0 <= i < |available| :: !EndsWith(available[i], suffix)
  {
    if available != [] {
      MatchingIs(available[..|available| - 1], suffix);
    }
  }

  // The single match stands at the one position that ends with the suffix.
  lemma {:induction false} SingleMatch(available: seq<string>, suffix: string, i: nat)
    requires i < |available| && EndsWith(available[i], suffix)
    requires forall j | 0 <= j < |available| && j != i :: !EndsWith(available[j], suffix)
    ensures Matching(available, suffix) == [available[i]]
  {
    var n := |available| - 1;
    if i == n {
      MatchingIs(available[..n], suffix);
    } else {
      SingleMatch(available[..n], suffix, i);
    }
  }

  lemma {:induction false} MatchedOnce(available: seq<string>, suffix: string) returns (i: nat)
    requires |Matching(available, suffix)| == 1
    ensures i < |available| && EndsWith(available[i], suffix) && available[i] == Matching(available, suffix)[0]
    ensures forall j | 0 <= j < |available| && j != i :: !EndsWith(available[j], suffix)
  {
    var n := |available| - 1;
    if EndsWith(available[n], suffix) {
      MatchingIs(available[..n], suffix);
      i := n;
    } else {
      i := MatchedOnce(available[..n], suffix);
    }
  }

  lemma {:induction false} SuffixedExactly(clean: string, available: seq<string>, id: string)
    requires '/' !in clean
    ensures Matching(available, "/" + clean) == [id] <==> OnlySuffixed(clean, available, id)
  {
    if Matching(available, "/" + clean) == [id] {
      var i := MatchedOnce(available, "/" + clean);
    }
    if OnlySuffixed(clean, available, id) {
      var i :| 0 <= i < |available| && available[i] == id && EndsWith(id, "/" + clean)
               && forall j | 0 <= j < |available| && j != i :: !EndsWith(available[j], "/" + clean);
      SingleMatch(available, "/" + clean, i);
    }
  }

  /** A setting resolves to the available id it names, and to none when it names none. */
  lemma {:induction false} ResolveExactly(candidate: ModelId, available: seq<string>, id: string)
    ensures Resolve(candidate, available) == Some(id) <==> Names(candidate, available, id)
  {
    if candidate.Some? && '/' !in Strip(candidate.value) {
      SuffixedExactly(Strip(candidate.value), available, id);
    }
  }

  // The field of a tier.
  function Own(m: Models, tier: Tier): ModelId {
    match tier
    case LightTier => m.light
    case StandardTier => m.standard
    case HighTier => m.high
    case ExtraHighTier => m.extraHigh
  }

  lemma {:induction false} TierFields(mode: RoutingMode, m: Models, f: ModelId, available: seq<string>)
    requires Plain(available) && Known(f, available)
    ensures var n := NormalModels(mode, ResolveAll(m, available), f);
            && n.single == Else(Resolve(m.single, available), f)
            && (mode == Single ==> forall tier :: Own(n, tier) == n.single)
            && (mode == Tiered ==>
                  && n.standard == Else(Resolve(m.standard, available), n.single)
                  && n.light == Else(Resolve(m.light, available), n.standard)
                  && n.high == Else(Resolve(m.high, available), n.standard)
                  && n.extraHigh == Else(Resolve(m.extraHigh, available), n.high))
  {
    NormalKnown(mode, m, f, available);
  }

  // A setting that names an id gives it; one that names none leaves the fallback.
  ghost predicate GivenBy(result: ModelId, setting: ModelId, fallback: ModelId, available: seq<string>) {
    if exists id :: Names(setting, available, id) then result.Some? && Names(setting, available, result.value)
    else result == fallback
  }

  lemma {:induction false} ElseGiven(setting: ModelId, fallback: ModelId, available: seq<string>)
    ensures GivenBy(Else(Resolve(setting, available), fallback), setting, fallback, available)
  {
    forall id ensures Resolve(setting, available) == Some(id) <==> Names(setting, available, id) {
      ResolveExactly(setting, available, id);
    }
  }

  lemma {:induction false} ResolvesOwn(r: Routing, asked: ModelId, tier: Tier, available: seq<string>)
    requires Plain(available) && Settled(r, available)
    ensures ResolveModel(r, asked, tier) == Own(r.models, tier)
  {
    SettledModels(r, asked, available);
    var m := r.models;
    KnownFixed(Own(m, tier), m.standard, available);
    KnownFixed(Own(m, tier), m.single, available);
    KnownFixed(m.extraHigh, Or(m.high, m.standard), available);
  }

  /** Every tier of a clamped routing gets its own field. In single mode that is the one model; in
      tiered mode the model the tier's own setting names, or else the standard one, and for extra high
      the high one. The standard tier falls back to the single setting, that to the default. */
  lemma {:induction false} TierExactly(default: ModelId, r: Routing, available: seq<string>, asked: ModelId, tier: Tier)
    requires available != [] && Plain(available)
    ensures var s := Clamped(default, r, available);
            var m := s.routing.models;
            && ResolveModel(s.routing, asked, tier) == Own(m, tier)
            && GivenBy(m.single, r.models.single, s.defaultModel, available)
            && (r.mode == Single ==> Own(m, tier) == m.single)
            && (r.mode == Tiered ==>
                  GivenBy(Own(m, tier), Own(r.models, tier),
                          match tier
                          case StandardTier => m.single
                          case ExtraHighTier => m.high
                          case _ => m.standard, available))
  {
    var s := Clamped(default, r, available);
    ClampedSettles(default, r, available);
    ResolvesOwn(s.routing, asked, tier, available);
    TierFields(r.mode, r.models, s.defaultModel, available);
    ElseGiven(r.models.single, s.defaultModel, available);
    var m := s.routing.models;
    ElseGiven(Own(r.models, tier), if tier.StandardTier? then m.single else m.standard, available);
    ElseGiven(r.models.extraHigh, m.high, available);
  }

  // The first of these settings that names an available id decides, or the first available id.
  predicate ChosenFrom(d: ModelId, settings: seq<ModelId>, available: seq<string>)
    requires available != []
  {
    if forall i | 0 <= i < |settings| :: Resolve(settings[i], available).None? then d == Some(available[0])
    else exists i | 0 <= i < |settings| ::
           d.Some? && Resolve(settings[i], available) == d
           && forall j | 0 <= j < i :: Resolve(settings[j], available).None?
  }

  lemma {:induction false} FirstChosen(settings: seq<ModelId>, available: seq<string>)
    requires available != []
    ensures var f := FirstResolved(settings, available);
            && ChosenFrom(if f.Some? then f else Some(available[0]), settings, available)
            && (f.None? <==> forall i | 0 <= i < |settings| :: Resolve(settings[i], available).None?)
  {
    if settings != [] {
      var rest := settings[1..];
      assert forall i | 0 < i < |settings| :: settings[i] == rest[i - 1];
      if Resolve(settings[0], available).None? {
        FirstChosen(rest, available);
        if i :| 0 <= i < |rest| && Resolve(rest[i], available).Some? {
          assert settings[i + 1] == rest[i];
          ChosenLater(settings, available);
        }
      }
    }
  }

  lemma {:induction false} ChosenLater(settings: seq<ModelId>, available: seq<string>)
    requires available != [] && settings != [] && Resolve(settings[0], available).None?
    requires var d := FirstResolved(settings[1..], available);
             d.Some? && ChosenFrom(d, settings[1..], available)
    requires exists i | 0 <= i < |settings| - 1 :: Resolve(settings[1..][i], available).Some?
    ensures ChosenFrom(FirstResolved(settings[1..], available), settings, available)
  {
    var rest, d := settings[1..], FirstResolved(settings[1..], available);
    assert forall i | 0 < i < |settings| :: settings[i] == rest[i - 1];
    var i :| 0 <= i < |rest| && Resolve(rest[i], available) == d
             && forall j | 0 <= j < i :: Resolve(rest[j], available).None?;
    assert settings[i + 1] == rest[i];
  }

  /** Where the default comes from: single mode asks single, standard, default, high, extra high and
      light, in this order; tiered mode asks standard, default and single first. */
  lemma {:induction false} DefaultExactly(default: ModelId, r: Routing, available: seq<string>)
    requires available != []
    ensures var m, d := r.models, Clamped(default, r, available).defaultModel;
            && (r.mode == Single ==>
                  ChosenFrom(d, [m.single, m.standard, default, m.high, m.extraHigh, m.light], available))
            && (r.mode == Tiered ==>
                  ChosenFrom(d, [m.standard, default, m.single, m.high, m.extraHigh, m.light], available))
  {
    FirstChosen(Candidates(r.mode, r.models, default), available);
  }

  // One effort for all lanes in single mode, as older versions left it.
  predicate Broadcast(r: Routing) {
    var e := r.efforts;
    && r.mode == Single && e.single.Some? && e.light == e.single
    && e.standard in {None, e.single} && e.high in {None, e.single} && e.extraHigh in {None, e.single}
  }

  /** Sanitising keeps every configured effort but the light one of a broadcast, which becomes low; a
      lane without one takes that of its fallback, the light lane low. */
  lemma {:induction false} EffortsOwn(r: Routing, default: ModelId)
    ensures var e, n := r.efforts, Heal(Normalized(r, default)).efforts;
            && n.single == e.single
            && n.standard == OrEffort(e.standard, e.single)
            && n.high == OrEffort(e.high, if r.mode == Single then e.single else n.standard)
            && n.extraHigh == OrEffort(e.extraHigh, if r.mode == Single then e.single else n.high)
            && n.light == if Broadcast(r) then Some(Low) else OrEffort(e.light, Some(Low))
  {}

  // ------------------------------------------------------- without an available id

  predicate Usable(m: ModelId) {
    CleanId(m).Some?
  }

  // Set to nothing but blanks: `or` takes it for a model and stripping then loses it.
  predicate Blank(m: ModelId) {
    m.Some? && m.value != "" && !Usable(m)
  }

  predicate Trimmed(m: ModelId) {
    CleanId(m) == m
  }

  // A field against its fallback, and the same between trimmed ids.
  function First(m: ModelId, fallback: ModelId): ModelId {
    if Blank(m) then None else Else(CleanId(m), fallback)
  }

  lemma {:induction false} FirstIs(m: ModelId, fallback: ModelId)
    requires Trimmed(fallback)
    ensures CleanId(Or(m, fallback)) == First(m, fallback) && Trimmed(First(m, fallback))
  {
    if m.Some? {
      TrimIdempotent(m.value, SPACES);
    }
  }

  lemma {:induction false} ElseIs(m: ModelId, fallback: ModelId)
    requires Trimmed(m) && Trimmed(fallback)
    ensures Or(m, fallback) == Else(m, fallback) == First(m, fallback) && Trimmed(Else(m, fallback))
  {
    if m.Some? {
      TrimIdempotent(m.value, SPACES);
    }
  }

  // Tiered fallbacks when the default is trimmed.
  function Tiers(m: Models, d: ModelId): Models {
    var fallback := First(m.single, d);
    var standard := First(m.standard, fallback);
    var base := Else(standard, fallback);
    var high := First(m.high, base);
    Models(Else(fallback, standard), First(m.light, base), standard, high, First(m.extraHigh, Else(high, base)))
  }

  predicate AllTrimmed(m: Models) {
    Trimmed(m.single) && Trimmed(m.light) && Trimmed(m.standard) && Trimmed(m.high) && Trimmed(m.extraHigh)
  }

  lemma {:induction false} TiersAre(m: Models, d: ModelId)
    requires Trimmed(d)
    ensures NormalModels(Tiered, m, d) == Tiers(m, d) && AllTrimmed(Tiers(m, d))
  {
    FirstIs(m.single, d);
    var fallback := First(m.single, d);
    FirstIs(m.standard, fallback);
    var standard := First(m.standard, fallback);
    ElseIs(standard, fallback);
    ElseIs(fallback, standard);
    var base := Else(standard, fallback);
    FirstIs(m.light, base);
    FirstIs(m.high, base);
    var high := First(m.high, base);
    ElseIs(high, base);
    FirstIs(m.extraHigh, Else(high, base));
  }

  // Whether normalising the normalised models changes them: a blank field was lost in the first
  // pass, and its fallback fills it in the second.
  predicate BlankFills(mode: RoutingMode, m: Models, d: ModelId) {
    match mode
    case Single => Blank(m.single) && Usable(d)
    case Tiered =>
      if Usable(m.single) || Usable(m.standard) || Usable(d) then
        || Blank(m.standard) || Blank(m.light) || Blank(m.high) || Blank(m.extraHigh)
        || (Blank(m.single) && !Usable(m.standard))
      else Blank(m.extraHigh) && Usable(m.high)
  }

  lemma {:induction false} TiersAgain(m: Models, d: ModelId)
    requires Trimmed(d)
    ensures Tiers(Tiers(m, d), d) == Tiers(m, d) <==> !BlankFills(Tiered, m, d)
    ensures Tiers(Tiers(Tiers(m, d), d), d) == Tiers(Tiers(m, d), d)
  {
    TiersAre(m, d);
    TiersAre(Tiers(m, d), d);
    TrimmedAll(Tiers(m, d));
    TrimmedAll(Tiers(Tiers(m, d), d));
  }

  lemma {:induction false} TrimmedAll(m: Models)
    requires AllTrimmed(m)
    ensures !Blank(m.single) && !Blank(m.light) && !Blank(m.standard) && !Blank(m.high) && !Blank(m.extraHigh)
  {}

  // The models of an unclamped routing after one pass.
  function Filled(mode: RoutingMode, m: Models, default: ModelId): Models {
    NormalModels(mode, m, CleanId(default))
  }

  lemma {:induction false} FilledAgain(mode: RoutingMode, m: Models, default: ModelId)
    ensures var once := Filled(mode, m, default);
            && (Filled(mode, once, default) == once <==> !BlankFills(mode, m, default))
            && Filled(mode, Filled(mode, once, default), default) == Filled(mode, once, default)
  {
    var d := CleanId(default);
    if default.Some? {
      TrimIdempotent(default.value, SPACES);
    }
    match mode {
      case Single =>
        FirstIs(m.single, d);
        FirstIs(First(m.single, d), d);
      case Tiered =>
        TiersAre(m, d);
        TiersAre(Tiers(m, d), d);
        TiersAre(Tiers(Tiers(m, d), d), d);
        TiersAgain(m, d);
    }
  }

  // ------------------------------------------------------- on the raw list of available ids

  predicate AnyAvailable(items: seq<string>) {
    exists i | 0 <= i < |items| :: Strip(items[i]) != ""
  }

  lemma {:induction false} OrderedAny(items: seq<string>)
    ensures Ordered(items) != [] <==> AnyAvailable(items)
  {
    if items != [] {
      var n := |items| - 1;
      OrderedAny(items[..n]);
      assert forall i | 0 <= i < n :: items[..n][i] == items[i];
    }
  }

  function OrDefault(routing: Option<Routing>): Routing {
    if routing.Some? then routing.value else DEFAULT_ROUTING
  }

  // The state after sanitising n times with the same list.
  function Again(n: nat, default: ModelId, routing: Option<Routing>, items: seq<string>): RoutingState {
    if n <= 1 then Sanitized(default, routing, items)
    else
      var s := Again(n - 1, default, routing, items);
      Sanitized(s.defaultModel, Some(s.routing), items)
  }

  // One of the ids given, trimmed, or none.
  predicate Given(x: ModelId, m: Models, default: ModelId) {
    x.None? || x in {CleanId(default), CleanId(m.single), CleanId(m.light), CleanId(m.standard), CleanId(m.high),
                     CleanId(m.extraHigh)}
  }

  predicate AllGiven(n: Models, m: Models, default: ModelId) {
    Given(n.single, m, default) && Given(n.light, m, default) && Given(n.standard, m, default)
    && Given(n.high, m, default) && Given(n.extraHigh, m, default)
  }

  lemma {:induction false} FilledGiven(mode: RoutingMode, m: Models, default: ModelId)
    ensures AllGiven(Filled(mode, m, default), m, default)
  {
    if default.Some? {
      TrimIdempotent(default.value, SPACES);
    }
    FirstIs(m.single, CleanId(default));
    TiersAre(m, CleanId(default));
  }

  lemma {:induction false} ClampedSafe(default: ModelId, r: Routing, available: seq<string>, again: ModelId, tier: Tier)
    requires available != [] && Plain(available)
    ensures var s := Clamped(default, r, available);
            && Known(s.defaultModel, available) && AllKnown(s.routing.models, available)
            && Known(ResolveModel(s.routing, again, tier), available)
            && Clamped(again, s.routing, available).routing == s.routing
  {
    ClampedKnown(default, r, available);
    ResolvesAvailable(default, r, available, again, tier);
    RoutingIdempotent(default, r, again, available);
  }

  /** As soon as one id is usable, the default and all fields are drawn from the list, every tier
      resolves inside it, and sanitising again leaves the routing alone. Otherwise nothing is
      clamped: every field is one of the ids given, or none. */
  lemma {:induction false} SanitizedSafe(default: ModelId, routing: Option<Routing>, items: seq<string>,
                                         again: ModelId, tier: Tier)
    ensures var s := Sanitized(default, routing, items);
            if AnyAvailable(items) then
              && Known(s.defaultModel, Ordered(items)) && AllKnown(s.routing.models, Ordered(items))
              && Known(ResolveModel(s.routing, again, tier), Ordered(items))
              && Sanitized(again, Some(s.routing), items).routing == s.routing
            else s.defaultModel == CleanId(default) && AllGiven(s.routing.models, OrDefault(routing).models, default)
  {
    OrderedAny(items);
    OrderedPlain(items);
    if AnyAvailable(items) {
      ClampedSafe(default, OrDefault(routing), Ordered(items), again, tier);
    } else {
      FilledGiven(OrDefault(routing).mode, OrDefault(routing).models, default);
    }
  }

  /** The same on the raw list: each tier of a sanitised routing resolves to the model its own setting
      names in the list, and otherwise to that of its fallback. */
  lemma {:induction false} SanitizedTiers(default: ModelId, routing: Option<Routing>, items: seq<string>,
                                          asked: ModelId, tier: Tier)
    requires AnyAvailable(items)
    ensures var s, r := Sanitized(default, routing, items), OrDefault(routing);
            var m, available := s.routing.models, Ordered(items);
            && ResolveModel(s.routing, asked, tier) == Own(m, tier)
            && GivenBy(m.single, r.models.single, s.defaultModel, available)
            && (r.mode == Single ==> Own(m, tier) == m.single)
            && (r.mode == Tiered ==>
                  GivenBy(Own(m, tier), Own(r.models, tier),
                          match tier
                          case StandardTier => m.single
                          case ExtraHighTier => m.high
                          case _ => m.standard, available))
  {
    OrderedAny(items);
    OrderedPlain(items);
    TierExactly(default, OrDefault(routing), Ordered(items), asked, tier);
  }

  // The inputs whose sanitised state moves once more when it is sanitised again.
  predicate Moves(default: ModelId, r: Routing, items: seq<string>) {
    if AnyAvailable(items) then DefaultMoves(default, r, Ordered(items))
    else BlankFills(r.mode, r.models, CleanId(default))
  }

  // Without an available id the default stays, the efforts settle and the models fill.
  lemma {:induction false} UnclampedAgain(default: ModelId, r: Routing)
    ensures var s := Sanitized(default, Some(r), []);
            && s.defaultModel == CleanId(default) == CleanId(s.defaultModel)
            && s.routing.mode == r.mode && s.routing.models == Filled(r.mode, r.models, default)
            && s.routing.autoEscalation == r.autoEscalation
            && NormalEfforts(r.mode, s.routing.efforts) == s.routing.efforts
            && Heal(s.routing) == s.routing
  {
    EffortsSettle(r, CleanId(default));
    if default.Some? {
      TrimIdempotent(default.value, SPACES);
    }
  }

  lemma {:induction false} HealKeeps(r: Routing, models: Models)
    requires Heal(r) == r
    ensures Heal(r.(models := models)) == r.(models := models)
  {}

  lemma {:induction false} UnclampedMoves(default: ModelId, r: Routing)
    ensures var s := Sanitized(default, Some(r), []);
            var t := Sanitized(s.defaultModel, Some(s.routing), []);
            && t == s.(routing := s.routing.(models := Filled(r.mode, s.routing.models, default)))
            && (t == s <==> !BlankFills(r.mode, r.models, CleanId(default)))
  {
    UnclampedAgain(default, r);
    var s := Sanitized(default, Some(r), []);
    HealKeeps(s.routing, Filled(r.mode, s.routing.models, default));
    FilledAgain(r.mode, r.models, default);
  }

  lemma {:induction false} UnclampedSettles(default: ModelId, r: Routing)
    ensures var s := Sanitized(default, Some(r), []);
            var t := Sanitized(s.defaultModel, Some(s.routing), []);
            Sanitized(t.defaultModel, Some(t.routing), []) == t
  {
    var s := Sanitized(default, Some(r), []);
    UnclampedAgain(default, r);
    UnclampedMoves(default, r);
    UnclampedMoves(s.defaultModel, s.routing);
    FilledAgain(r.mode, r.models, default);
  }

  lemma {:induction false} NothingUsable(default: ModelId, routing: Option<Routing>, items: seq<string>)
    requires !AnyAvailable(items)
    ensures Sanitized(default, routing, items) == Sanitized(default, Some(OrDefault(routing)), [])
  {
    OrderedAny(items);
  }

  /** Sanitising twice gives the same state as once exactly outside the moving inputs, and twice is
      always enough: for every list, with and without a usable id. */
  lemma {:induction false} SanitizedTwice(default: ModelId, routing: Option<Routing>, items: seq<string>)
    ensures Again(2, default, routing, items) == Again(1, default, routing, items)
       <==> !Moves(default, OrDefault(routing), items)
    ensures Again(3, default, routing, items) == Again(2, default, routing, items)
  {
    var r := OrDefault(routing);
    OrderedAny(items);
    if AnyAvailable(items) {
      OrderedPlain(items);
      IdempotentExactly(default, r, Ordered(items));
      FixedAfterTwo(default, r, Ordered(items));
    } else {
      NothingUsable(default, routing, items);
      UnclampedTwice(default, routing, items);
    }
  }

  lemma {:induction false} UnclampedTwice(default: ModelId, routing: Option<Routing>, items: seq<string>)
    requires !AnyAvailable(items)
    ensures Again(2, default, routing, items) == Again(1, default, routing, items)
       <==> !BlankFills(OrDefault(routing).mode, OrDefault(routing).models, CleanId(default))
    ensures Again(3, default, routing, items) == Again(2, default, routing, items)
  {
    var r := OrDefault(routing);
    var s := Again(1, default, routing, items);
    var t := Again(2, default, routing, items);
    NothingUsable(default, routing, items);
    NothingUsable(s.defaultModel, Some(s.routing), items);
    NothingUsable(t.defaultModel, Some(t.routing), items);
    UnclampedMoves(default, r);
    UnclampedSettles(default, r);
  }

  // ------------------------------------------------------- inputs that move

  function OnlySingle(mode: RoutingMode, single: string): Routing {
    DEFAULT_ROUTING.(mode := mode, models := DEFAULT_ROUTING.models.(single := Some(single)))
  }

  lemma {:induction false} LettersOrdered()
    ensures Strip("a") == "a" && Strip("b") == "b" && Ordered(["a", "b"]) == ["a", "b"]
  {
    TrimClean("a", SPACES);
    TrimClean("b", SPACES);
    assert ["a", "b"][..1] == ["a"] && ["a"][..0] == [];
    assert Ordered(["a"]) == ["a"];
  }

  /** With "a" and "b" available, a tiered routing of single model "b" first takes the default "a", then "b". */
  lemma {:induction false} DefaultMoving()
    ensures Moves(Some("a"), OnlySingle(Tiered, "b"), ["a", "b"])
  {
    LettersOrdered();
    assert Strip(["a", "b"][0]) != "";
    assert CleanId(Some("a")) == Some("a") && CleanId(Some("b")) == Some("b");
  }

  /** With nothing available a blank single model is first lost, then filled with the default. */
  lemma {:induction false} BlankMoving()
    ensures Moves(Some("a"), OnlySingle(Single, " "), [])
  {
    LettersOrdered();
    TrimBlank(" ", SPACES);
  }
}
