/**
 One chat turn at a time per session: claim before the turn, release in its `finally`. The guard
 lock is never held across a suspension, so a claim and a release are single steps.
 */
module ChatTurns {
  import opened Text

  // The runtime's in-flight attribute: not there yet, the legacy set of ids, or claims with a preview.
  datatype InFlight = Unset | LegacySet(ids: set<string>) | Claims(records: map<string, string>)

  function Coerced(f: InFlight): map<string, string> {
    match f
    case Unset => map[]
    case LegacySet(ids) => map sid | sid in ids :: ""
    case Claims(records) => records
  }

  // A claim by the first caller of a session stands; a release removes the session's entry only.
  function Claimed(records: map<string, string>, sid: string, preview: string): map<string, string> {
    if sid in records then records else records[sid := preview]
  }

  function Released(records: map<string, string>, sid: string): map<string, string> {
    records - {sid}
  }

  class ChatRuntime {
    var inFlight: InFlight
    var guard: bool  // whether the guard lock has been created yet

    constructor (inFlight: InFlight)
      ensures this.inFlight == inFlight && !guard
    {
      this.inFlight := inFlight;
      guard := false;
    }

    // False is the 409: a turn of this session is in progress.
    method Claim(sid: string, preview: string) returns (claimed: bool)
      modifies this
      ensures claimed <==> sid !in Coerced(old(inFlight))
      ensures inFlight == Claims(Claimed(Coerced(old(inFlight)), sid, preview)) && guard
    {
      guard := true;
      var records := Coerced(inFlight);
      inFlight := Claims(records);
      if sid in records {
        return false;
      }
      inFlight := Claims(records[sid := preview]);
      return true;
    }

    method Release(sid: string)
      modifies this
      ensures Coerced(inFlight) == if old(guard) then Released(Coerced(old(inFlight)), sid) else Coerced(old(inFlight))
      ensures guard == old(guard) && (!guard || old(inFlight).Unset? ==> inFlight == old(inFlight))
    {
      if !guard {
        return;
      }
      match inFlight {
        case Unset =>
        case LegacySet(ids) =>
          inFlight := LegacySet(ids - {sid});
          assert Coerced(inFlight) == Coerced(old(inFlight)) - {sid};
        case Claims(records) =>
          inFlight := Claims(records - {sid});
      }
    }

    // The shape of perform_chat_turn when nothing else runs: every way out of the turn, raising
    // included, passes the release.
    method PerformChatTurn(sid: string, preview: string, work: Work) returns (result: Option<Outcome>)
      modifies this
      ensures result.None? <==> sid in Coerced(old(inFlight))
      ensures result.Some? ==> (result.value.Answered? <==> work.reply.Replied? && !work.voice.VoiceRaises?)
      ensures Coerced(inFlight) == Coerced(old(inFlight))
    {
      var claimed := Claim(sid, preview);
      if !claimed {
        return None;
      }
      var outcome := Turn(work);
      Release(sid);
      assert Coerced(inFlight) == Coerced(old(inFlight));
      return Some(outcome);
    }

    // The body of the try block: the reply under its timeout, then the voice.
    method Turn(work: Work) returns (outcome: Outcome)
      ensures outcome.Answered? <==> work.reply.Replied? && !work.voice.VoiceRaises?
      ensures outcome.TimedOut? <==> work.reply.TimesOut?
      ensures outcome.Cancelled? <==> work.reply.ReplyCancelled?
    {
      match work.reply {
        case TimesOut => return TimedOut;
        case ReplyRaises => return TurnError;
        case ReplyCancelled => return Cancelled;
        case Replied =>
      }
      return if work.voice.VoiceRaises? then TurnError else Answered;
    }

    // One caller's step on the shared runtime; a running turn's claim has created the guard.
    method Act(turns: map<nat, Caller>, a: Action) returns (after: map<nat, Caller>)
      requires Guarded(turns, guard)
      modifies this
      ensures Guarded(after, guard)
      ensures World(Coerced(inFlight), after) == Step(World(Coerced(old(inFlight)), turns), a)
    {
      after := turns;
      match a {
        case Arrive(id, sid, preview) =>
          if id !in turns {
            after := turns[id := Caller(sid, preview, Waiting)];
          }
        case TryClaim(id) =>
          if id in turns && turns[id].phase.Waiting? {
            var claimed := Claim(turns[id].sid, turns[id].preview);
            after := turns[id := turns[id].(phase := if claimed then Running else Rejected)];
          }
        case Finish(id, outcome) =>
          if id in turns && turns[id].phase.Running? {
            Release(turns[id].sid);
            after := turns[id := turns[id].(phase := Done(outcome))];
          }
      }
    }
  }

  predicate Guarded(turns: map<nat, Caller>, guard: bool) {
    guard || forall id | id in turns :: !turns[id].phase.Running?
  }

  // What the converse call and the voice synthesis do in a turn.
  datatype Reply = Replied | TimesOut | ReplyRaises | ReplyCancelled

  datatype Voice = Silent | Spoken | VoiceRaises

  datatype Work = Work(reply: Reply, voice: Voice)

  datatype Outcome = Answered | TimedOut | TurnError | Cancelled

  // ------------------------------------------------------- concurrent turns

  datatype Phase = Waiting | Running | Rejected | Done(outcome: Outcome)

  // One caller of perform_chat_turn.
  datatype Caller = Caller(sid: string, preview: string, phase: Phase)

  datatype World = World(inFlight: map<string, string>, turns: map<nat, Caller>)

  datatype Action =
    | Arrive(id: nat, sid: string, preview: string)
    | TryClaim(id: nat)
    | Finish(id: nat, outcome: Outcome)

  function Step(w: World, a: Action): World {
    match a
    case Arrive(id, sid, preview) =>
      if id in w.turns then w else w.(turns := w.turns[id := Caller(sid, preview, Waiting)])
    case TryClaim(id) =>
      if id !in w.turns || !w.turns[id].phase.Waiting? then w
      else
        var t := w.turns[id];
        World(Claimed(w.inFlight, t.sid, t.preview),
              w.turns[id := t.(phase := if t.sid in w.inFlight then Rejected else Running)])
    case Finish(id, outcome) =>
      if id !in w.turns || !w.turns[id].phase.Running? then w
      else
        var t := w.turns[id];
        World(Released(w.inFlight, t.sid), w.turns[id := t.(phase := Done(outcome))])
  }

  function Run(w: World, actions: seq<Action>): World {
    if actions == [] then w else Step(Run(w, actions[..|actions| - 1]), actions[|actions| - 1])
  }

  predicate IsRunning(w: World, id: nat) {
    id in w.turns && w.turns[id].phase.Running?
  }

  // The in-flight map holds the sessions claimed before the start and those of the running turns,
  // and no two running turns share a session.
  ghost predicate Inv(w: World, legacy: set<string>) {
    Owned(w, legacy) && Previewed(w)
  }

  // A running turn's session is in the map under the preview of its message.
  ghost predicate Previewed(w: World) {
    forall id :: IsRunning(w, id) ==>
      w.turns[id].sid in w.inFlight && w.inFlight[w.turns[id].sid] == w.turns[id].preview
  }

  ghost predicate Owned(w: World, legacy: set<string>) {
    && (forall sid :: sid in w.inFlight <==> sid in legacy || exists id :: IsRunning(w, id) && w.turns[id].sid == sid)
    && (forall id, id' :: IsRunning(w, id) && IsRunning(w, id') && w.turns[id].sid == w.turns[id'].sid ==> id == id')
    && (forall id :: IsRunning(w, id) ==> w.turns[id].sid !in legacy)
  }

  lemma {:induction false} ClaimKeeps(w: World, legacy: set<string>, id: nat)
    requires Owned(w, legacy)
    ensures Owned(Step(w, TryClaim(id)), legacy)
  {
    var w' := Step(w, TryClaim(id));
    assert w'.inFlight != w.inFlight ==> IsRunning(w', id);
    forall sid ensures sid in w'.inFlight <==> sid in legacy || exists k :: IsRunning(w', k) && w'.turns[k].sid == sid {
      if k :| IsRunning(w, k) && w.turns[k].sid == sid {
        assert IsRunning(w', k);
      }
      if k :| IsRunning(w', k) && w'.turns[k].sid == sid && k != id {
        assert IsRunning(w, k);
      }
    }
  }

  lemma {:induction false} FinishKeeps(w: World, legacy: set<string>, id: nat, outcome: Outcome)
    requires Owned(w, legacy)
    ensures Owned(Step(w, Finish(id, outcome)), legacy)
  {
    var w' := Step(w, Finish(id, outcome));
    forall sid ensures sid in w'.inFlight <==> sid in legacy || exists k :: IsRunning(w', k) && w'.turns[k].sid == sid {
      if k :| IsRunning(w, k) && w.turns[k].sid == sid && k != id {
        assert IsRunning(w', k);
      }
      if k :| IsRunning(w', k) && w'.turns[k].sid == sid {
        assert IsRunning(w, k);
      }
    }
  }

  lemma {:induction false} ArriveKeeps(w: World, legacy: set<string>, id: nat, sid: string, preview: string)
    requires Owned(w, legacy)
    ensures Owned(Step(w, Arrive(id, sid, preview)), legacy)
  {
    var w' := Step(w, Arrive(id, sid, preview));
    forall k ensures IsRunning(w', k) <==> IsRunning(w, k) {}
  }

  lemma {:induction false} PreviewsKept(w: World, legacy: set<string>, a: Action)
    requires Inv(w, legacy)
    ensures Previewed(Step(w, a))
  {
    var w' := Step(w, a);
    forall id | IsRunning(w', id)
      ensures w'.turns[id].sid in w'.inFlight && w'.inFlight[w'.turns[id].sid] == w'.turns[id].preview
    {
      if !(a.TryClaim? && a.id == id) {
        assert IsRunning(w, id);
      }
    }
  }

  lemma {:induction false} RunKeeps(w: World, legacy: set<string>, actions: seq<Action>)
    requires Inv(w, legacy)
    ensures Inv(Run(w, actions), legacy)
  {
    if actions != [] {
      var before := Run(w, actions[..|actions| - 1]);
      RunKeeps(w, legacy, actions[..|actions| - 1]);
      PreviewsKept(before, legacy, actions[|actions| - 1]);
      match actions[|actions| - 1] {
        case Arrive(id, sid, preview) => ArriveKeeps(before, legacy, id, sid, preview);
        case TryClaim(id) => ClaimKeeps(before, legacy, id);
        case Finish(id, outcome) => FinishKeeps(before, legacy, id, outcome);
      }
    }
  }

  /** In every interleaving the in-flight map is exactly the running turns, at most one a session,
      each under the preview of its own message. */
  lemma {:induction false} InFlightIsRunning(actions: seq<Action>, sid: string)
    ensures var w := Run(World(map[], map[]), actions);
            && (sid in w.inFlight <==> exists id :: IsRunning(w, id) && w.turns[id].sid == sid)
            && forall id :: IsRunning(w, id) && w.turns[id].sid == sid ==>
                 && w.inFlight[sid] == w.turns[id].preview
                 && forall id' :: IsRunning(w, id') && w.turns[id'].sid == sid ==> id == id'
  {
    RunKeeps(World(map[], map[]), {}, actions);
  }

  /** A step of one turn never ends another one's claim; in particular a rejected caller releases nothing. */
  lemma {:induction false} OthersKeepTheirClaim(w: World, legacy: set<string>, a: Action, id: nat)
    requires Inv(w, legacy) && IsRunning(w, id) && !(a.Finish? && a.id == id)
    ensures IsRunning(Step(w, a), id) && w.turns[id].sid in Step(w, a).inFlight
  {
    assert w.turns[id].sid in w.inFlight;
    if a.Finish? && IsRunning(w, a.id) {
      assert w.turns[a.id].sid != w.turns[id].sid;
    }
  }

  /** Whatever the outcome, finishing a turn frees its session for the next claim. */
  lemma {:induction false} FinishFrees(w: World, legacy: set<string>, id: nat, outcome: Outcome, next: nat)
    requires Inv(w, legacy) && IsRunning(w, id)
    requires next in w.turns && w.turns[next].sid == w.turns[id].sid && w.turns[next].phase.Waiting?
    ensures Step(w, TryClaim(next)).turns[next].phase == Rejected
    ensures IsRunning(Step(Step(w, Finish(id, outcome)), TryClaim(next)), next)
  {
    assert w.turns[id].sid in w.inFlight;
  }

  /** A session left over in the legacy set has no turn to release it: its callers are always rejected. */
  lemma {:induction false} LegacyStaysClaimed(legacy: set<string>, actions: seq<Action>, sid: string, id: nat)
    requires sid in legacy
    ensures var w := Run(World(Coerced(LegacySet(legacy)), map[]), actions);
            sid in w.inFlight && (IsRunning(w, id) ==> w.turns[id].sid != sid)
  {
    var start := World(Coerced(LegacySet(legacy)), map[]);
    assert Inv(start, legacy);
    RunKeeps(start, legacy, actions);
  }
}
