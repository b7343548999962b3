/** The registry writer: appends with read-back validation, and the newest entries read backwards. */
module RegistryWriter {
  import opened Text
  import opened Utf8
  import opened AffectiveRegistry
  import opened RegistryAgreement

  datatype Validation = Matches | FileTooShort | Differs

  // Blocked: the append waits forever for the lock that its own earlier attempt still holds.
  datatype AppendResult<E> = Appended(entry: E) | WriteError | ValidationError | Blocked

  // How one attempt at an append goes, if it does not block: it fails before it has the lock, or
  // before the line is in the file, or behind that while syncing, or while reading back, or not at
  // all. A transient failure is tried again, before the attempt gives up its lock.
  datatype Attempt =
    | NotLocked(transient: bool)
    | NotWritten(transient: bool)
    | NotSynced(transient: bool)
    | NotReadBack
    | Complete

  predicate Locks(a: Attempt) {
    !a.NotLocked?
  }

  predicate Written(a: Attempt) {
    !a.NotLocked? && !a.NotWritten?
  }

  predicate Transient(a: Attempt) {
    (a.NotLocked? || a.NotWritten? || a.NotSynced?) && a.transient
  }

  // The attempts an append makes, and whether it blocks behind them.
  datatype Course = Course(made: seq<Attempt>, blocked: bool)

  // `held`: the file's lock is held when the first of these attempts begins.
  function CourseOf(attempts: seq<Attempt>, retries: nat, locking: bool, held: bool): (c: Course)
    requires retries < |attempts|
    ensures c.made == [] ==> c.blocked
    decreases retries
  {
    if locking && held && Locks(attempts[0]) then Course([], true)
    else if retries > 0 && Transient(attempts[0]) then
      var rest := CourseOf(attempts[1..], retries - 1, locking, held || Locks(attempts[0]));
      Course([attempts[0]] + rest.made, rest.blocked)
    else Course([attempts[0]], false)
  }

  function Copies<E>(entry: E, attempts: seq<Attempt>): seq<E> {
    if attempts == [] then []
    else (if Written(attempts[0]) then [entry] else []) + Copies(entry, attempts[1..])
  }

  function ResultOf<E>(entry: E, last: Attempt, validateWrites: bool): AppendResult<E> {
    match last
    case NotReadBack => if validateWrites then ValidationError else Appended(entry)
    case Complete => Appended(entry)
    case _ => WriteError
  }

  function Result<E>(entry: E, c: Course, validateWrites: bool): AppendResult<E>
    requires c.made == [] ==> c.blocked
  {
    if c.blocked then Blocked else ResultOf(entry, c.made[|c.made| - 1], validateWrites)
  }

  // The file left by appending these entries in order, one serialised line each.
  function FileOf<E>(toJson: E -> string, entries: seq<E>): seq<Byte> {
    if entries == [] then []
    else FileOf(toJson, entries[..|entries| - 1]) + Encode(toJson(entries[|entries| - 1]) + "\n")
  }

  // How many entries get_latest takes: at least one, however small n is, if there is one.
  function Wanted(n: int, count: nat): (k: nat)
    ensures k <= count && (k == 0 ==> count == 0)
    ensures k < count ==> k == n || (n < 1 && k == 1)
  {
    var atLeastOne := if n < 1 then 1 else n;
    if atLeastOne < count then atLeastOne else count
  }

  function Latest<E>(entries: seq<E>, n: int): seq<E> {
    entries[|entries| - Wanted(n, |entries|)..]
  }

  // Takes items until n are there; the first is taken before the count is looked at.
  method TakeUntil<E>(items: seq<E>, n: int) returns (taken: seq<E>)
    ensures taken == items[..Wanted(n, |items|)]
  {
    taken := [];
    for i := 0 to |items|
      invariant taken == items[..i]
      invariant i == 0 || i < n
    {
      taken := taken + [items[i]];
      if |taken| >= n {
        return;
      }
    }
  }

  // The serialised form is one line that parses back.
  ghost predicate Serialises<E>(parse: Parser<E>, toJson: E -> string, entry: E) {
    '\n' !in toJson(entry) && parse(Strip(toJson(entry))) == Some(entry)
  }

  ghost predicate AllSerialise<E>(parse: Parser<E>, toJson: E -> string, entries: seq<E>) {
    forall i | 0 <= i < |entries| :: Serialises(parse, toJson, entries[i])
  }

  // An append that began with the entries `before` took this course and left `now`.
  ghost predicate Went<E>(entry: E, c: Course, before: seq<E>, now: seq<E>, r: AppendResult<E>, validateWrites: bool)
    requires c.made == [] ==> c.blocked
  {
    now == before + Copies(entry, c.made) && r == Result(entry, c, validateWrites)
  }

  class Writer<E> {
    const parse: Parser<E>
    const toJson: E -> string
    const enableLocking: bool
    const validateWrites: bool
    const maxRetries: nat
    var file: seq<Byte>
    var fileLocked: bool  // an attempt of the append in progress holds the file's lock
    var stuck: bool       // an append blocks, and with it the thread lock is gone
    ghost var appended: seq<E>

    ghost predicate Valid()
      reads this
    {
      file == FileOf(toJson, appended) && (fileLocked ==> enableLocking)
    }

    constructor (parse: Parser<E>, toJson: E -> string, enableLocking: bool, validateWrites: bool, maxRetries: nat)
      ensures Valid() && appended == [] && !fileLocked && !stuck
      ensures this.parse == parse && this.toJson == toJson
      ensures this.enableLocking == enableLocking && this.validateWrites == validateWrites
      ensures this.maxRetries == maxRetries
    {
      this.parse, this.toJson := parse, toJson;
      this.enableLocking, this.validateWrites, this.maxRetries := enableLocking, validateWrites, maxRetries;
      file, fileLocked, stuck, appended := [], false, false, [];
    }

    // Compares the last bytes of the file with what was written.
    method ValidateAppend(expected: seq<Byte>) returns (v: Validation)
      ensures v == Matches <==> |expected| <= |file| && file[|file| - |expected|..] == expected
      ensures v == FileTooShort <==> |file| < |expected|
    {
      if |file| < |expected| {
        return FileTooShort;
      }
      var start := |file| - |expected|;
      v := if file[start..] != expected then Differs else Matches;
    }

    // An attempt that has its lock, or needs none, up to its own failure.
    method TryAppend(entry: E, attempt: Attempt) returns (r: AppendResult<E>)
      requires Valid()
      modifies this`file, this`appended
      ensures Valid()
      ensures file == old(file) + if Written(attempt) then Encode(toJson(entry) + "\n") else []
      ensures appended == old(appended) + Copies(entry, [attempt])
      ensures r == ResultOf(entry, attempt, validateWrites)
    {
      var encoded := Encode(toJson(entry) + "\n");
      if attempt.NotLocked? || attempt.NotWritten? {
        return WriteError;
      }
      file := file + encoded;
      appended := appended + [entry];
      assert appended[..|appended| - 1] == old(appended);
      if attempt.NotSynced? {
        return WriteError;
      }
      if validateWrites {
        assert file[|file| - |encoded|..] == encoded;
        var v := ValidateAppend(encoded);
        if v != Matches || attempt.NotReadBack? {
          return ValidationError;
        }
      }
      return Appended(entry);
    }

    // `attempts` says how each attempt would go; the append itself decides how many are made. The
    // retry comes before the failed attempt gives up its lock.
    method AppendLocked(entry: E, attempts: seq<Attempt>, retries: nat) returns (r: AppendResult<E>)
      requires Valid() && retries < |attempts|
      modifies this`file, this`appended, this`fileLocked
      ensures Valid()
      ensures var c := CourseOf(attempts, retries, enableLocking, old(fileLocked));
              && Went(entry, c, old(appended), appended, r, validateWrites)
              && fileLocked == (c.blocked || old(fileLocked))
      decreases retries
    {
      ghost var held, before := fileLocked, appended;
      CourseWent(entry, attempts, retries, enableLocking, held, before, validateWrites);
      var takes := enableLocking && Locks(attempts[0]);
      if takes && fileLocked {
        return Blocked;
      }
      fileLocked := fileLocked || takes;
      r := TryAppend(entry, attempts[0]);
      if retries > 0 && Transient(attempts[0]) {
        ghost var mid := appended;
        r := AppendLocked(entry, attempts[1..], retries - 1);
        RetryWent(entry, attempts, retries, enableLocking, held, before, mid, appended, r, validateWrites);
      }
      if takes && !r.Blocked? {
        fileLocked := false;
      }
    }

    // One append under the thread lock, which a blocked one never gives back.
    method Append(entry: E, attempts: seq<Attempt>) returns (r: AppendResult<E>)
      requires Valid() && (fileLocked ==> stuck) && maxRetries < |attempts|
      modifies this
      ensures Valid() && (fileLocked ==> stuck) && old(file) <= file
      ensures old(stuck) ==> r == Blocked && appended == old(appended) && stuck
      ensures !old(stuck) ==>
                var c := CourseOf(attempts, maxRetries, enableLocking, false);
                && appended == old(appended) + Copies(entry, c.made)
                && stuck == c.blocked == r.Blocked?
                && (!c.blocked ==> Answered(entry, c.made[|c.made| - 1], r, validateWrites))
    {
      if stuck {
        return Blocked;
      }
      r := AppendLocked(entry, attempts, maxRetries);
      FileGrows(toJson, old(appended), appended);
      WentAnswered(entry, CourseOf(attempts, maxRetries, enableLocking, false), old(appended), appended, r,
                   validateWrites);
      stuck := r.Blocked?;
    }

    // Takes from the backward reader until n entries are there, then restores their order.
    method GetLatest(n: int, chunkSize: nat) returns (results: seq<E>)
      requires chunkSize >= 1
      ensures results == Latest(FileEntries(parse, file), n)
      ensures Valid() && RejectsEmpty(parse) && AllSerialise(parse, toJson, appended)
        ==> results == Latest(appended, n)
    {
      var newestFirst := ReadJsonlReverse(parse, file, chunkSize);
      var taken := TakeUntil(newestFirst, n);
      results := Reverse(taken);
      ReversedTake(FileEntries(parse, file), Wanted(n, |newestFirst|));
      if Valid() && RejectsEmpty(parse) && AllSerialise(parse, toJson, appended) {
        FileOfReadsBack(parse, toJson, appended);
      }
    }
  }

  // More entries only add to the file.
  lemma {:induction false} FileGrows<E>(toJson: E -> string, before: seq<E>, entries: seq<E>)
    requires before <= entries
    ensures FileOf(toJson, before) <= FileOf(toJson, entries)
  {
    if before != entries {
      FileGrows(toJson, before, entries[..|entries| - 1]);
    }
  }

  lemma {:induction false} CopiesFirst<E>(entry: E, attempts: seq<Attempt>)
    requires attempts != []
    ensures Copies(entry, attempts) == Copies(entry, [attempts[0]]) + Copies(entry, attempts[1..])
  {
    assert [attempts[0]][1..] == [];
  }

  // One more attempt in front of a course.
  function Behind(a: Attempt, rest: Course): Course {
    Course([a] + rest.made, rest.blocked)
  }

  lemma {:induction false} BehindLeaves<E>(entry: E, a: Attempt, rest: Course, before: seq<E>, validateWrites: bool)
    requires rest.made == [] ==> rest.blocked
    ensures before + Copies(entry, [a]) + Copies(entry, rest.made) == before + Copies(entry, Behind(a, rest).made)
    ensures Result(entry, rest, validateWrites) == Result(entry, Behind(a, rest), validateWrites)
  {
    var all := [a] + rest.made;
    assert all[1..] == rest.made;
    CopiesFirst(entry, all);
    assert rest.made != [] ==> all[|all| - 1] == rest.made[|rest.made| - 1];
  }

  lemma {:induction false} CourseRest(attempts: seq<Attempt>, retries: nat, locking: bool, held: bool)
    requires 0 < retries < |attempts| && Transient(attempts[0]) && !(locking && held && Locks(attempts[0]))
    ensures var rest := CourseOf(attempts[1..], retries - 1, locking, held || (locking && Locks(attempts[0])));
            CourseOf(attempts, retries, locking, held) == Behind(attempts[0], rest)
  {
    if !locking {
      HeldIgnored(attempts[1..], retries - 1, held, held || Locks(attempts[0]));
    }
  }

  // What the caller is told, read off the attempt the append ended with: success needs a synced line,
  // and a matching read-back where one is made; a failure up to the sync is a write error.
  predicate Answered<E(==)>(entry: E, last: Attempt, r: AppendResult<E>, validateWrites: bool) {
    && (r == Appended(entry) <==> last.Complete? || (last.NotReadBack? && !validateWrites))
    && (r.ValidationError? <==> last.NotReadBack? && validateWrites)
    && (r.WriteError? <==> last.NotLocked? || last.NotWritten? || last.NotSynced?)
  }

  lemma {:induction false} WentAnswered<E>(entry: E, c: Course, before: seq<E>, now: seq<E>, r: AppendResult<E>,
                                            validateWrites: bool)
    requires c.made == [] ==> c.blocked
    requires Went(entry, c, before, now, r, validateWrites)
    ensures now == before + Copies(entry, c.made) && (r.Blocked? <==> c.blocked)
    ensures !c.blocked ==> Answered(entry, c.made[|c.made| - 1], r, validateWrites)
  {}

  const RETRIED := {NotLocked(true), NotWritten(true), NotSynced(true)}

  /** An append gives up with its first failure that is not transient, or with its last retry; every
      attempt before was transient. */
  lemma {:induction false} CourseExactly(attempts: seq<Attempt>, retries: nat, locking: bool, held: bool)
    requires retries < |attempts|
    ensures var c := CourseOf(attempts, retries, locking, held);
            && |c.made| <= retries + 1 && c.made == attempts[..|c.made|]
            && (forall i | 0 <= i < |c.made| - 1 :: c.made[i] in RETRIED)
            && (!c.blocked ==> |c.made| == retries + 1 || c.made[|c.made| - 1] !in RETRIED)
            && (c.blocked ==> |c.made| <= retries && forall i | 0 <= i < |c.made| :: c.made[i] in RETRIED)
    decreases retries
  {
    if !(locking && held && Locks(attempts[0])) && retries > 0 && Transient(attempts[0]) {
      var held' := held || Locks(attempts[0]);
      CourseExactly(attempts[1..], retries - 1, locking, held');
      CourseLonger(attempts, CourseOf(attempts[1..], retries - 1, locking, held'));
    }
  }

  lemma {:induction false} CourseLonger(attempts: seq<Attempt>, rest: Course)
    requires attempts != [] && |rest.made| < |attempts| && rest.made == attempts[1..][..|rest.made|]
    ensures var c := Behind(attempts[0], rest);
            && c.made == attempts[..|c.made|]
            && forall i | 0 < i < |c.made| :: c.made[i] == rest.made[i - 1]
  {}

  // An append that blocks at once, or makes one attempt only.
  lemma {:induction false} CourseWent<E>(entry: E, attempts: seq<Attempt>, retries: nat, locking: bool, held: bool,
                                          before: seq<E>, validateWrites: bool)
    requires retries < |attempts|
    ensures var c := CourseOf(attempts, retries, locking, held);
            if locking && held && Locks(attempts[0]) then
              c.blocked && Went(entry, c, before, before, Blocked, validateWrites)
            else if retries == 0 || !Transient(attempts[0]) then
              !c.blocked && forall r :: r == ResultOf(entry, attempts[0], validateWrites) ==>
                Went(entry, c, before, before + Copies(entry, [attempts[0]]), r, validateWrites)
            else true
  {
    assert before + [] == before;
  }

  // An append whose first attempt was retried.
  lemma {:induction false} RetryWent<E>(entry: E, attempts: seq<Attempt>, retries: nat, locking: bool, held: bool,
                                         before: seq<E>, mid: seq<E>, now: seq<E>, r: AppendResult<E>,
                                         validateWrites: bool)
    requires 0 < retries < |attempts| && Transient(attempts[0]) && !(locking && held && Locks(attempts[0]))
    requires mid == before + Copies(entry, [attempts[0]])
    requires var rest := CourseOf(attempts[1..], retries - 1, locking, held || (locking && Locks(attempts[0])));
             Went(entry, rest, mid, now, r, validateWrites)
    ensures var rest := CourseOf(attempts[1..], retries - 1, locking, held || (locking && Locks(attempts[0])));
            var c := CourseOf(attempts, retries, locking, held);
            Went(entry, c, before, now, r, validateWrites) && c.blocked == rest.blocked == r.Blocked?
  {
    var rest := CourseOf(attempts[1..], retries - 1, locking, held || (locking && Locks(attempts[0])));
    CourseRest(attempts, retries, locking, held);
    BehindLeaves(entry, attempts[0], rest, before, validateWrites);
  }

  // Without locking nobody looks at the lock.
  lemma {:induction false} HeldIgnored(attempts: seq<Attempt>, retries: nat, held: bool, held2: bool)
    requires retries < |attempts|
    ensures CourseOf(attempts, retries, false, held) == CourseOf(attempts, retries, false, held2)
    ensures !CourseOf(attempts, retries, false, held).blocked
    decreases retries
  {
    if retries > 0 && Transient(attempts[0]) {
      HeldIgnored(attempts[1..], retries - 1, held || Locks(attempts[0]), held2 || Locks(attempts[0]));
    }
  }

  // A retry reaches the lock that an earlier attempt, or someone before them, still holds.
  predicate MeetsOwnLock(attempts: seq<Attempt>, retries: nat, held: bool)
    requires retries < |attempts|
  {
    exists k | 0 <= k <= retries ::
      && Locks(attempts[k])
      && (forall j | 0 <= j < k :: Transient(attempts[j]))
      && (held || exists i | 0 <= i < k :: Locks(attempts[i]))
  }

  lemma {:induction false} MeetsLater(attempts: seq<Attempt>, retries: nat, held: bool)
    requires 0 < retries < |attempts| && Transient(attempts[0]) && !(held && Locks(attempts[0]))
    requires MeetsOwnLock(attempts[1..], retries - 1, held || Locks(attempts[0]))
    ensures MeetsOwnLock(attempts, retries, held)
  {
    var rest := attempts[1..];
    var k :| 0 <= k <= retries - 1 && Locks(rest[k]) && (forall j | 0 <= j < k :: Transient(rest[j]))
             && (held || Locks(attempts[0]) || exists i | 0 <= i < k :: Locks(rest[i]));
    assert Locks(attempts[k + 1]);
    assert forall j | 0 < j < k + 1 :: attempts[j] == rest[j - 1];
    if i :| 0 <= i < k && Locks(rest[i]) {
      assert Locks(attempts[i + 1]);
    }
  }

  lemma {:induction false} MeetsNow(attempts: seq<Attempt>, retries: nat, held: bool)
    requires retries < |attempts| && MeetsOwnLock(attempts, retries, held) && !(held && Locks(attempts[0]))
    ensures retries > 0 && Transient(attempts[0])
    ensures MeetsOwnLock(attempts[1..], retries - 1, held || Locks(attempts[0]))
  {
    var rest := attempts[1..];
    var k :| 0 <= k <= retries && Locks(attempts[k]) && (forall j | 0 <= j < k :: Transient(attempts[j]))
             && (held || exists i | 0 <= i < k :: Locks(attempts[i]));
    assert k > 0;
    assert Locks(rest[k - 1]);
    assert forall j | 0 <= j < k - 1 :: rest[j] == attempts[j + 1];
    if i :| 0 < i < k && Locks(attempts[i]) {
      assert Locks(rest[i - 1]);
    }
  }

  /** With locking on an append never returns exactly when, behind transient failures only and with
      retries left, an attempt gets to the lock that an earlier one took. */
  lemma {:induction false} BlocksExactly(attempts: seq<Attempt>, retries: nat, held: bool)
    requires retries < |attempts|
    ensures CourseOf(attempts, retries, true, held).blocked <==> MeetsOwnLock(attempts, retries, held)
    decreases retries
  {
    if held && Locks(attempts[0]) {
      assert MeetsOwnLock(attempts, retries, held);
    } else if retries > 0 && Transient(attempts[0]) {
      BlocksExactly(attempts[1..], retries - 1, held || Locks(attempts[0]));
      if MeetsOwnLock(attempts, retries, held) {
        MeetsNow(attempts, retries, held);
      }
      if MeetsOwnLock(attempts[1..], retries - 1, held || Locks(attempts[0])) {
        MeetsLater(attempts, retries, held);
      }
    } else if MeetsOwnLock(attempts, retries, held) {
      MeetsNow(attempts, retries, held);
    }
  }

  // Once the lock is held, no attempt writes.
  lemma {:induction false} HeldWritesNone<E>(entry: E, attempts: seq<Attempt>, retries: nat, validateWrites: bool)
    requires retries < |attempts|
    ensures var c := CourseOf(attempts, retries, true, true);
            Copies(entry, c.made) == [] && !Result(entry, c, validateWrites).Appended?
    decreases retries
  {
    if !Locks(attempts[0]) && retries > 0 && Transient(attempts[0]) {
      HeldWritesNone(entry, attempts[1..], retries - 1, validateWrites);
      CourseRest(attempts, retries, true, true);
      BehindLeaves(entry, attempts[0], CourseOf(attempts[1..], retries - 1, true, true), [], validateWrites);
    }
  }

  /** With locking on, however an append ends, it leaves its line at most once, and exactly once when
      it succeeds. */
  lemma {:induction false} LockedOnce<E>(entry: E, attempts: seq<Attempt>, retries: nat, validateWrites: bool)
    requires retries < |attempts|
    ensures var c := CourseOf(attempts, retries, true, false);
            && (Copies(entry, c.made) == [] || Copies(entry, c.made) == [entry])
            && (Result(entry, c, validateWrites).Appended? ==> Copies(entry, c.made) == [entry])
    decreases retries
  {
    AloneOnce(entry, attempts[0], validateWrites);
    if retries > 0 && Transient(attempts[0]) {
      var rest := CourseOf(attempts[1..], retries - 1, true, Locks(attempts[0]));
      CourseRest(attempts, retries, true, false);
      BehindLeaves(entry, attempts[0], rest, [], validateWrites);
      if Locks(attempts[0]) {
        HeldWritesNone(entry, attempts[1..], retries - 1, validateWrites);
      } else {
        LockedOnce(entry, attempts[1..], retries - 1, validateWrites);
      }
    }
  }

  lemma {:induction false} AloneOnce<E>(entry: E, a: Attempt, validateWrites: bool)
    ensures Copies(entry, [a]) == if Written(a) then [entry] else []
    ensures ResultOf(entry, a, validateWrites).Appended? ==> Written(a)
  {
    assert [a][1..] == [];
  }

  predicate WroteNone(attempts: seq<Attempt>) {
    forall i | 0 <= i < |attempts| :: !Written(attempts[i])
  }

  lemma {:induction false} NoCopies<E>(entry: E, attempts: seq<Attempt>)
    ensures Copies(entry, attempts) == [] <==> WroteNone(attempts)
  {
    if attempts != [] {
      NoCopies(entry, attempts[1..]);
      assert WroteNone(attempts) <==> !Written(attempts[0]) && WroteNone(attempts[1..]) by {
        assert forall i | 0 < i < |attempts| :: attempts[i] == attempts[1..][i - 1];
      }
    }
  }

  lemma {:induction false} CopiesLast<E>(entry: E, attempts: seq<Attempt>, last: Attempt)
    ensures Copies(entry, attempts + [last]) == Copies(entry, attempts) + Copies(entry, [last])
  {
    if attempts == [] {
      assert attempts + [last] == [last];
    } else {
      assert (attempts + [last])[1..] == attempts[1..] + [last];
      CopiesFirst(entry, attempts);
      CopiesFirst(entry, attempts + [last]);
      CopiesLast(entry, attempts[1..], last);
    }
  }

  /** With locking off an append always returns, and a successful one has left its line once exactly
      when no failed attempt had written it before; a failed one has left the file alone exactly when
      no attempt got as far as writing. */
  lemma {:induction false} UnlockedOnceExactly<E>(entry: E, attempts: seq<Attempt>, retries: nat, validateWrites: bool)
    requires retries < |attempts|
    ensures var c := CourseOf(attempts, retries, false, false);
            && !c.blocked
            && (Copies(entry, c.made) == [] <==> WroteNone(c.made))
            && (Result(entry, c, validateWrites).Appended? ==>
                  (Copies(entry, c.made) == [entry] <==> WroteNone(c.made[..|c.made| - 1])))
  {
    HeldIgnored(attempts, retries, false, false);
    MadeOnceExactly(entry, CourseOf(attempts, retries, false, false).made, validateWrites);
  }

  lemma {:induction false} MadeOnceExactly<E>(entry: E, made: seq<Attempt>, validateWrites: bool)
    requires made != []
    ensures var copies, earlier := Copies(entry, made), made[..|made| - 1];
            && (copies == [] <==> WroteNone(made))
            && (ResultOf(entry, made[|made| - 1], validateWrites).Appended? ==>
                  (copies == [entry] <==> WroteNone(earlier)))
  {
    var n := |made| - 1;
    assert made == made[..n] + [made[n]];
    CopiesLast(entry, made[..n], made[n]);
    NoCopies(entry, made[..n]);
    NoCopies(entry, made);
    AloneOnce(entry, made[n], validateWrites);
  }

  /** A transient failure of the sync: with locking off the retry leaves the line twice, with locking
      on it never gets there. */
  lemma {:induction false} SyncRetried<E>(entry: E, validateWrites: bool)
    ensures var attempts := [NotSynced(true), Complete];
            var off, on := CourseOf(attempts, 1, false, false), CourseOf(attempts, 1, true, false);
            && Result(entry, off, validateWrites) == Appended(entry) && Copies(entry, off.made) == [entry, entry]
            && Result(entry, on, validateWrites) == Blocked && Copies(entry, on.made) == [entry]
  {
    var attempts := [NotSynced(true), Complete];
    assert attempts[1..] == [Complete];
    CourseRest(attempts, 1, false, false);
    CourseRest(attempts, 1, true, false);
    assert [Complete][1..] == [] && [NotSynced(true)][1..] == [];
  }

  // The first entries of the reversed list, reversed again, are the last ones of the list.
  lemma {:induction false} ReversedTake<E>(entries: seq<E>, k: nat)
    requires k <= |entries|
    ensures Reverse(Reverse(entries)[..k]) == entries[|entries| - k..]
  {
    var cut := |entries| - k;
    assert entries == entries[..cut] + entries[cut..];
    ReverseAppend(entries[..cut], entries[cut..]);
    assert Reverse(entries)[..k] == Reverse(entries[cut..]);
    ReverseTwice(entries[cut..]);
  }

  predicate EndsLine(file: seq<Byte>) {
    file == [] || file[|file| - 1] == LF
  }

  lemma {:induction false} SerialisedLine<E>(parse: Parser<E>, toJson: E -> string, entry: E)
    requires RejectsEmpty(parse) && Serialises(parse, toJson, entry)
    ensures FileEntries(parse, Encode(toJson(entry))) == [entry]
  {
    var line := Encode(toJson(entry));
    EncodeNoLineFeed(toJson(entry));
    EncodeDecodes(toJson(entry));
    FileEntriesSingle(parse, line);
    LineAgrees(parse, line);
    TrimIdempotent(toJson(entry), SPACES);
  }

  lemma {:induction false} LineAppended<E>(parse: Parser<E>, file: seq<Byte>, line: seq<Byte>)
    requires EndsLine(file)
    ensures FileEntries(parse, file + line) == FileEntries(parse, file) + FileEntries(parse, line)
  {
    if file == [] {
      FileEntriesSingle<E>(parse, []);
      assert file + line == line;
    } else {
      var before := file[..|file| - 1];
      assert file == before + [LF];
      LineEnded(parse, before);
      FileEntriesCut(parse, before, line);
    }
  }

  lemma {:induction false} LineEnded<E>(parse: Parser<E>, file: seq<Byte>)
    ensures FileEntries(parse, file + [LF]) == FileEntries(parse, file)
  {
    assert file + [LF] == file + [LF] + [];
    FileEntriesCut(parse, file, []);
    FileEntriesSingle<E>(parse, []);
  }

  lemma {:induction false} EncodeLine(t: string)
    ensures Encode(t + "\n") == Encode(t) + [LF]
  {
    EncodeConcat(t, "\n");
    assert Encode("\n") == [LF];
  }

  lemma {:induction false} EntryAppended<E>(parse: Parser<E>, toJson: E -> string, file: seq<Byte>, entry: E)
    requires RejectsEmpty(parse) && Serialises(parse, toJson, entry) && EndsLine(file)
    ensures FileEntries(parse, file + Encode(toJson(entry) + "\n")) == FileEntries(parse, file) + [entry]
  {
    var line := Encode(toJson(entry));
    EncodeLine(toJson(entry));
    assert file + (line + [LF]) == file + line + [LF];
    LineEnded(parse, file + line);
    LineAppended(parse, file, line);
    SerialisedLine(parse, toJson, entry);
  }

  lemma {:induction false} FileOfEnds<E>(toJson: E -> string, entries: seq<E>)
    ensures EndsLine(FileOf(toJson, entries))
  {
    if entries != [] {
      EncodeLine(toJson(entries[|entries| - 1]));
    }
  }

  lemma {:induction false} FileOfGrows<E>(parse: Parser<E>, toJson: E -> string, entries: seq<E>, entry: E)
    requires RejectsEmpty(parse) && Serialises(parse, toJson, entry)
    ensures FileEntries(parse, FileOf(toJson, entries + [entry]))
         == FileEntries(parse, FileOf(toJson, entries)) + [entry]
  {
    assert (entries + [entry])[..|entries|] == entries;
    FileOfEnds(toJson, entries);
    EntryAppended(parse, toJson, FileOf(toJson, entries), entry);
  }

  /** Whatever was appended is what the file holds, in append order. */
  lemma {:induction false} FileOfReadsBack<E>(parse: Parser<E>, toJson: E -> string, entries: seq<E>)
    requires RejectsEmpty(parse) && AllSerialise(parse, toJson, entries)
    ensures FileEntries(parse, FileOf(toJson, entries)) == entries
  {
    if entries == [] {
      FileEntriesSingle<E>(parse, []);
    } else {
      var n := |entries| - 1;
      var before, last := entries[..n], entries[n];
      assert entries == before + [last];
      FileOfReadsBack(parse, toJson, before);
      FileOfGrows(parse, toJson, before, last);
    }
  }

  lemma {:induction false} FileOfIsText<E>(toJson: E -> string, entries: seq<E>)
    requires forall e | e in entries :: '\r' !in toJson(e)
    ensures Utf8.Valid(FileOf(toJson, entries)) && '\r' !in Decoded(FileOf(toJson, entries))
  {
    if entries != [] {
      var n := |entries| - 1;
      var file, line := FileOf(toJson, entries[..n]), toJson(entries[n]) + "\n";
      FileOfIsText(toJson, entries[..n]);
      EncodeDecodes(line);
      ValidConcat(file, Encode(line));
      DecodedConcat(file, Encode(line));
      assert entries[n] in entries;
    }
  }

  /** JSON escapes carriage returns, so the forward reader sees the same entries. */
  lemma {:induction false} ForwardReadsBack<E>(parse: Parser<E>, toJson: E -> string, entries: seq<E>)
    requires RejectsEmpty(parse) && AllSerialise(parse, toJson, entries)
    requires forall e | e in entries :: '\r' !in toJson(e)
    ensures ForwardEntries(parse, FileOf(toJson, entries)) == Some(entries)
  {
    FileOfReadsBack(parse, toJson, entries);
    FileOfIsText(toJson, entries);
    NoCRIsEnough(Decoded(FileOf(toJson, entries)));
    AgreeWithoutInnerCR(parse, FileOf(toJson, entries));
  }
}
