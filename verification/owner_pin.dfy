/** The keypad PIN gate of a phone session: six digits a try, three tries. */
module OwnerPin {
  import opened Text

  const PIN_LENGTH := 6
  const MAX_ATTEMPTS := 3

  datatype Mode = PinMode | MenuMode | OwnerMode

  datatype PinState = PinState(mode: Mode, digits: string, attempts: nat, closed: bool)

  const START := PinState(PinMode, "", 0, false)

  // What the gate depends on: the characters str.isdigit accepts, the configured PIN check, and
  // whether an owner menu is configured.
  datatype Gate = Gate(digitChars: set<char>, accepts: string -> bool, menuEnabled: bool) {
    predicate IsDigits(token: string) {
      token != "" && forall i | 0 <= i < |token| :: token[i] in digitChars
    }

    function Unlocked(): Mode {
      if menuEnabled then MenuMode else OwnerMode
    }
  }

  // A keypad event or an utterance, as it reaches the session.
  datatype Event = Key(token: string) | Speech

  function FirstSix(s: string): (r: string)
    ensures |s| < PIN_LENGTH ==> r == s
    ensures |s| >= PIN_LENGTH ==> r == s[..PIN_LENGTH]
  {
    if |s| < PIN_LENGTH then s else s[..PIN_LENGTH]
  }

  // The digit handler itself, which looks at neither the mode nor whether the session is closed.
  function DigitStep(g: Gate, s: PinState, token: string): PinState {
    if !g.IsDigits(token) then s
    else
      var digits := FirstSix(s.digits + token);
      if |digits| < PIN_LENGTH then s.(digits := digits) else Tried(g, s, digits)
  }

  // A full block opens the gate or uses up an attempt; the last one closes the session.
  function Tried(g: Gate, s: PinState, candidate: string): PinState {
    if g.accepts(candidate) then s.(mode := g.Unlocked(), digits := "")
    else s.(digits := "", attempts := s.attempts + 1, closed := s.closed || s.attempts + 1 >= MAX_ATTEMPTS)
  }

  // The session dispatches a key by its mode; speech in PIN mode only prompts for the keypad.
  function Dispatched(g: Gate, s: PinState, e: Event): PinState {
    if s.mode == PinMode && e.Key? then DigitStep(g, s, e.token) else s
  }

  // The websocket brings no event after the session closed it.
  function Step(g: Gate, s: PinState, e: Event): PinState {
    if s.closed then s else Dispatched(g, s, e)
  }

  function Run(g: Gate, events: seq<Event>): PinState {
    if events == [] then START else Step(g, Run(g, events[..|events| - 1]), events[|events| - 1])
  }

  class PinSession {
    const gate: Gate
    var mode: Mode
    var ownerPinDigits: string
    var ownerPinAttempts: nat
    var closed: bool

    function State(): PinState
      reads this
    {
      PinState(mode, ownerPinDigits, ownerPinAttempts, closed)
    }

    constructor (gate: Gate)
      ensures State() == START && this.gate == gate
    {
      this.gate := gate;
      mode, ownerPinDigits, ownerPinAttempts, closed := PinMode, "", 0, false;
    }

    method HandleOwnerPinDigit(digit: string)
      modifies this
      ensures State() == DigitStep(gate, old(State()), digit)
    {
      if !gate.IsDigits(digit) {
        return;
      }
      ownerPinDigits := FirstSix(ownerPinDigits + digit);
      if |ownerPinDigits| < PIN_LENGTH {
        return;
      }
      var candidate := ownerPinDigits;
      ownerPinDigits := "";
      if gate.accepts(candidate) {
        mode := gate.Unlocked();
        return;
      }
      ownerPinAttempts := ownerPinAttempts + 1;
      if ownerPinAttempts >= MAX_ATTEMPTS {
        closed := true;
      }
    }

    method Handle(e: Event)
      modifies this
      ensures State() == Dispatched(gate, old(State()), e)
    {
      if mode == PinMode && e.Key? {
        HandleOwnerPinDigit(e.token);
      }
    }

    // The receive loop of a new session, up to the event that closes it.
    method Receive(events: seq<Event>)
      requires State() == START
      modifies this
      ensures State() == Run(gate, events)
    {
      for i := 0 to |events|
        invariant State() == Run(gate, events[..i])
      {
        assert events[..i + 1][..i] == events[..i];
        if !closed {
          Handle(events[i]);
        }
      }
      assert events[..|events|] == events;
    }
  }

  // ------------------------------------------------------- the reference definition

  // The digits typed, whatever else was pressed or said in between.
  function DigitsOf(g: Gate, events: seq<Event>): string {
    if events == [] then ""
    else
      var before, e := DigitsOf(g, events[..|events| - 1]), events[|events| - 1];
      if e.Key? && g.IsDigits(e.token) then before + e.token else before
  }

  function Block(digits: string, k: nat): string
    requires PIN_LENGTH * (k + 1) <= |digits|
  {
    digits[PIN_LENGTH * k..PIN_LENGTH * (k + 1)]
  }

  predicate Matches(g: Gate, digits: string, k: nat) {
    PIN_LENGTH * (k + 1) <= |digits| && g.accepts(Block(digits, k))
  }

  // The first of the first three six-digit blocks that is the PIN.
  function FirstMatch(g: Gate, digits: string): Option<nat> {
    if Matches(g, digits, 0) then Some(0)
    else if Matches(g, digits, 1) then Some(1)
    else if Matches(g, digits, 2) then Some(2)
    else None
  }

  // The gate after typing these digits, read off the digits alone.
  function Expected(g: Gate, digits: string): PinState {
    match FirstMatch(g, digits)
    case Some(k) => PinState(g.Unlocked(), "", k, false)
    case None =>
      if |digits| >= PIN_LENGTH * MAX_ATTEMPTS then PinState(PinMode, "", MAX_ATTEMPTS, true)
      else PinState(PinMode, digits[|digits| - |digits| % PIN_LENGTH..], |digits| / PIN_LENGTH, false)
  }

  lemma {:induction false} MatchKept(g: Gate, digits: string, more: string, k: nat)
    requires PIN_LENGTH * (k + 1) <= |digits|
    ensures Matches(g, digits + more, k) == Matches(g, digits, k)
  {
    assert Block(digits + more, k) == Block(digits, k);
  }

  // Digits typed after the gate has decided change nothing.
  lemma {:induction false} DecidedStays(g: Gate, digits: string, more: string)
    requires FirstMatch(g, digits).Some? || |digits| >= PIN_LENGTH * MAX_ATTEMPTS
    ensures Expected(g, digits + more) == Expected(g, digits)
  {
    if |digits| >= PIN_LENGTH { MatchKept(g, digits, more, 0); }
    if |digits| >= 2 * PIN_LENGTH { MatchKept(g, digits, more, 1); }
    if |digits| >= 3 * PIN_LENGTH { MatchKept(g, digits, more, 2); }
  }

  // An undecided gate with some tries used: the next block decides.
  lemma {:induction false} StillNone(g: Gate, digits: string, more: string)
    requires FirstMatch(g, digits).None? && |digits| < PIN_LENGTH * MAX_ATTEMPTS
    requires |digits| % PIN_LENGTH + |more| < PIN_LENGTH
    ensures FirstMatch(g, digits + more).None?
  {
    if |digits| >= PIN_LENGTH { MatchKept(g, digits, more, 0); }
    if |digits| >= 2 * PIN_LENGTH { MatchKept(g, digits, more, 1); }
  }

  lemma {:induction false} BlockOpen(g: Gate, digits: string, more: string)
    requires FirstMatch(g, digits).None? && |digits| < PIN_LENGTH * MAX_ATTEMPTS
    requires |digits| % PIN_LENGTH + |more| < PIN_LENGTH
    ensures Expected(g, digits + more) == Expected(g, digits).(digits := Expected(g, digits).digits + more)
  {
    StillNone(g, digits, more);
    var a := |digits| - |digits| % PIN_LENGTH;
    assert (digits + more)[a..] == digits[a..] + more;
  }

  lemma {:induction false} BlockCompleted(g: Gate, digits: string, more: string)
    requires FirstMatch(g, digits).None? && |digits| < PIN_LENGTH * MAX_ATTEMPTS
    requires |digits| % PIN_LENGTH + |more| == PIN_LENGTH
    ensures var k := |digits| / PIN_LENGTH;
            && |digits + more| == PIN_LENGTH * (k + 1)
            && Block(digits + more, k) == Expected(g, digits).digits + more
            && FirstMatch(g, digits + more) == if Matches(g, digits + more, k) then Some(k) else None
  {
    if |digits| >= PIN_LENGTH { MatchKept(g, digits, more, 0); }
    if |digits| >= 2 * PIN_LENGTH { MatchKept(g, digits, more, 1); }
    var a := |digits| - |digits| % PIN_LENGTH;
    assert (digits + more)[a..] == digits[a..] + more;
  }

  // ------------------------------------------------------- keys of several digits

  // Nothing of this token is lost: it ends inside the block being typed, or the gate has decided,
  // or decides with the block the token completes: because that is the third, or the PIN.
  predicate Harmless(g: Gate, digits: string, token: string) {
    || |digits| % PIN_LENGTH + |token| <= PIN_LENGTH
    || FirstMatch(g, digits).Some?
    || |digits| >= PIN_LENGTH * (MAX_ATTEMPTS - 1)
    || Matches(g, digits + token, |digits| / PIN_LENGTH)
  }

  predicate KeysHarmless(g: Gate, events: seq<Event>) {
    forall i | 0 <= i < |events| && events[i].Key? && g.IsDigits(events[i].token) ::
      Harmless(g, DigitsOf(g, events[..i]), events[i].token)
  }

  lemma {:induction false} SingleKeysHarmless(g: Gate, events: seq<Event>)
    requires forall i | 0 <= i < |events| :: events[i].Key? ==> |events[i].token| == 1
    ensures KeysHarmless(g, events)
  {}

  predicate Decided(g: Gate, digits: string) {
    FirstMatch(g, digits).Some? || |digits| >= PIN_LENGTH * MAX_ATTEMPTS
  }

  // The gate after a token that completes the block being typed, whatever it holds behind that.
  lemma {:induction false} BlockTried(g: Gate, digits: string, token: string, cut: nat)
    requires g.IsDigits(token) && !Decided(g, digits)
    requires cut <= |token| && |digits| % PIN_LENGTH + cut == PIN_LENGTH
    ensures Step(g, Expected(g, digits), Key(token)) == Expected(g, digits + token[..cut])
  {
    var s, block := Expected(g, digits), token[..cut];
    BlockCompleted(g, digits, block);
    SixthDigit(g, s, token, cut);
    BlockDecides(g, digits, block);
  }

  lemma {:induction false} SixthDigit(g: Gate, s: PinState, token: string, cut: nat)
    requires g.IsDigits(token) && s.mode == PinMode && !s.closed
    requires cut <= |token| && |s.digits| + cut == PIN_LENGTH
    ensures Step(g, s, Key(token)) == Tried(g, s, s.digits + token[..cut])
  {
    assert (s.digits + token)[..PIN_LENGTH] == s.digits + token[..cut];
  }

  lemma {:induction false} BlockDecides(g: Gate, digits: string, more: string)
    requires !Decided(g, digits) && |digits| % PIN_LENGTH + |more| == PIN_LENGTH
    ensures Tried(g, Expected(g, digits), Expected(g, digits).digits + more) == Expected(g, digits + more)
  {
    var s, all, k := Expected(g, digits), digits + more, |digits| / PIN_LENGTH;
    BlockCompleted(g, digits, more);
    ExpectedAtEnd(g, all, k);
    assert s == PinState(PinMode, s.digits, k, false);
    assert g.accepts(s.digits + more) == Matches(g, all, k);
  }

  lemma {:induction false} ExpectedAtEnd(g: Gate, digits: string, k: nat)
    requires |digits| == PIN_LENGTH * (k + 1) && k < MAX_ATTEMPTS
    requires FirstMatch(g, digits) == if Matches(g, digits, k) then Some(k) else None
    ensures Expected(g, digits)
         == if Matches(g, digits, k) then PinState(g.Unlocked(), "", k, false)
            else PinState(PinMode, "", k + 1, k + 1 >= MAX_ATTEMPTS)
  {
    assert digits[|digits|..] == "";
  }

  // Digits behind the first undecided block of a token: the gate would still count them.
  lemma {:induction false} RestCounts(g: Gate, digits: string, more: string)
    requires !Decided(g, digits) && |digits| % PIN_LENGTH == 0 && more != ""
    ensures Expected(g, digits + more) != Expected(g, digits)
  {
    if |digits| >= PIN_LENGTH { MatchKept(g, digits, more, 0); }
    if |digits| >= 2 * PIN_LENGTH { MatchKept(g, digits, more, 1); }
  }

  lemma {:induction false} RestExactly(g: Gate, digits: string, more: string)
    requires |digits| % PIN_LENGTH == 0 && more != ""
    ensures Expected(g, digits) == Expected(g, digits + more) <==> Decided(g, digits)
  {
    if Decided(g, digits) {
      DecidedStays(g, digits, more);
    } else {
      RestCounts(g, digits, more);
    }
  }

  // One token moves the gate to what the longer digits define exactly when it is harmless.
  lemma {:induction false} TypedExactly(g: Gate, digits: string, token: string)
    requires g.IsDigits(token)
    ensures Step(g, Expected(g, digits), Key(token)) == Expected(g, digits + token) <==> Harmless(g, digits, token)
  {
    if Decided(g, digits) {
      DecidedStays(g, digits, token);
    } else if |digits| % PIN_LENGTH + |token| < PIN_LENGTH {
      BlockOpen(g, digits, token);
    } else {
      var cut := PIN_LENGTH - |digits| % PIN_LENGTH;
      BlockTried(g, digits, token, cut);
      OverrunExactly(g, digits, token, cut);
    }
  }

  // A token that reaches past the block is harmless exactly when that block decides.
  lemma {:induction false} HarmlessExactly(g: Gate, digits: string, token: string, cut: nat)
    requires !Decided(g, digits) && cut < |token| && |digits| % PIN_LENGTH + cut == PIN_LENGTH
    ensures Harmless(g, digits, token) <==> Decided(g, digits + token[..cut])
  {
    var typed, rest := digits + token[..cut], token[cut..];
    assert typed + rest == digits + token;
    BlockCompleted(g, digits, token[..cut]);
    MatchKept(g, typed, rest, |digits| / PIN_LENGTH);
  }

  lemma {:induction false} OverrunExactly(g: Gate, digits: string, token: string, cut: nat)
    requires !Decided(g, digits) && cut <= |token| && |digits| % PIN_LENGTH + cut == PIN_LENGTH
    ensures Expected(g, digits + token[..cut]) == Expected(g, digits + token) <==> Harmless(g, digits, token)
  {
    if cut == |token| {
      assert token[..cut] == token;
    } else {
      HarmlessExactly(g, digits, token, cut);
      RestExactly(g, digits + token[..cut], token[cut..]);
      assert digits + token[..cut] + token[cut..] == digits + token;
    }
  }

  // ------------------------------------------------------- whole runs

  predicate ExpectedThroughout(g: Gate, events: seq<Event>) {
    forall n | 0 <= n <= |events| :: Run(g, events[..n]) == Expected(g, DigitsOf(g, events[..n]))
  }

  lemma {:induction false} NextExactly(g: Gate, events: seq<Event>, n: nat)
    requires n < |events| && Run(g, events[..n]) == Expected(g, DigitsOf(g, events[..n]))
    ensures Run(g, events[..n + 1]) == Expected(g, DigitsOf(g, events[..n + 1]))
       <==> (events[n].Key? && g.IsDigits(events[n].token) ==>
               Harmless(g, DigitsOf(g, events[..n]), events[n].token))
  {
    assert events[..n + 1][..n] == events[..n];
    if events[n].Key? && g.IsDigits(events[n].token) {
      TypedExactly(g, DigitsOf(g, events[..n]), events[n].token);
    }
  }

  // While the tokens are harmless the gate is what the digits typed define.
  lemma {:induction false} ExpectedAfter(g: Gate, events: seq<Event>, n: nat)
    requires KeysHarmless(g, events) && n <= |events|
    ensures Run(g, events[..n]) == Expected(g, DigitsOf(g, events[..n]))
  {
    if n > 0 {
      ExpectedAfter(g, events, n - 1);
      NextExactly(g, events, n - 1);
    }
  }

  /** At every moment the gate is the one the digits typed so far define (the blocks tried are the
      consecutive six-digit blocks, the first good one of three opens, the third bad one closes)
      exactly when every key pressed is harmless. */
  lemma {:induction false} RunIsExpectedExactly(g: Gate, events: seq<Event>)
    ensures ExpectedThroughout(g, events) <==> KeysHarmless(g, events)
  {
    if KeysHarmless(g, events) {
      forall n | 0 <= n <= |events| ensures Run(g, events[..n]) == Expected(g, DigitsOf(g, events[..n])) {
        ExpectedAfter(g, events, n);
      }
    }
    if ExpectedThroughout(g, events) {
      forall i | 0 <= i < |events| && events[i].Key? && g.IsDigits(events[i].token)
        ensures Harmless(g, DigitsOf(g, events[..i]), events[i].token)
      {
        NextExactly(g, events, i);
      }
    }
  }

  lemma {:induction false} SomeMatch(g: Gate, digits: string)
    ensures FirstMatch(g, digits).Some? <==> exists k: nat | k < MAX_ATTEMPTS :: Matches(g, digits, k)
  {
    assert Matches(g, digits, 0) || Matches(g, digits, 1) || Matches(g, digits, 2) <==> FirstMatch(g, digits).Some?;
  }

  lemma {:induction false} NoneEarlier(g: Gate, digits: string, k: nat)
    requires FirstMatch(g, digits) == Some(k)
    ensures Matches(g, digits, k) && forall j: nat | j < k :: !Matches(g, digits, j)
  {}

  /** In the reader's terms: where the gate stands after n digits. */
  lemma {:induction false} GateAfterDigits(g: Gate, events: seq<Event>)
    requires KeysHarmless(g, events)
    ensures var d, s := DigitsOf(g, events), Run(g, events);
            && (s.mode != PinMode <==> exists k: nat | k < MAX_ATTEMPTS :: Matches(g, d, k))
            && (s.mode != PinMode ==> (s.mode == MenuMode <==> g.menuEnabled))
            && (s.closed <==> s.mode == PinMode && |d| >= PIN_LENGTH * MAX_ATTEMPTS)
            && (s.mode == PinMode && !s.closed ==>
                  s.attempts == |d| / PIN_LENGTH && s.digits == d[|d| - |d| % PIN_LENGTH..])
            && (s.mode != PinMode ==> Matches(g, d, s.attempts) && forall k: nat | k < s.attempts :: !Matches(g, d, k))
  {
    assert events[..|events|] == events;
    ExpectedAfter(g, events, |events|);
    var d := DigitsOf(g, events);
    SomeMatch(g, d);
    if FirstMatch(g, d).Some? {
      NoneEarlier(g, d, FirstMatch(g, d).value);
    }
  }

  /** The digits typed are digits, and a key adds to them exactly when it is nothing but digits. */
  lemma {:induction false} DigitsTyped(g: Gate, events: seq<Event>, token: string)
    ensures forall c | c in DigitsOf(g, events) :: c in g.digitChars
    ensures DigitsOf(g, events + [Key(token)])
         == DigitsOf(g, events) + if forall c | c in token :: c in g.digitChars then token else ""
    ensures DigitsOf(g, events + [Speech]) == DigitsOf(g, events)
  {
    assert (events + [Key(token)])[..|events|] == events && (events + [Speech])[..|events|] == events;
    if events != [] {
      DigitsTyped(g, events[..|events| - 1], token);
    }
    assert DigitsOf(g, events) + "" == DigitsOf(g, events);
  }

  /** A token that is not harmless: the seventh digit of this one is never tried. */
  lemma {:induction false} OverlongTokenLosesDigits(g: Gate)
    requires {'1', '2'} <= g.digitChars && !g.accepts("111111")
    ensures var events := [Key("1111112")];
            && DigitsOf(g, events) == "1111112"
            && Run(g, events).digits == "" && Expected(g, "1111112").digits == "2"
            && !KeysHarmless(g, events)
  {
    var e := Key("1111112");
    assert [e][..0] == [];
    assert g.IsDigits(e.token);
    assert e.token[..6] == "111111";
    assert Run(g, [e]) == Step(g, START, e);
    assert "" + e.token == e.token;
    assert DigitsOf(g, [e]) == "" + e.token;
    assert Block(e.token, 0) == "111111";
    assert e.token[6..] == "2";
    assert |DigitsOf(g, [e][..0])| == 0;
    assert [e][0] == e;
  }
}
