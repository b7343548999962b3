/** Sequence and text helpers with the meaning of the Python built-ins the source uses. */
module Text {

  datatype Option<+T> = None | Some(value: T)

  // The code points for which Python's str.isspace holds, and which str.strip removes.
  predicate IsSpace(c: char) {
    var n := c as int;
    || 9 <= n <= 13
    || 28 <= n <= 32
    || n == 0x85 || n == 0xA0 || n == 0x1680
    || 0x2000 <= n <= 0x200A
    || n == 0x2028 || n == 0x2029 || n == 0x202F || n == 0x205F || n == 0x3000
  }

  const SPACES: set<char> := set c: char | IsSpace(c)

  predicate AllBlank<T(==)>(s: seq<T>, blank: set<T>) {
    forall i | 0 <= i < |s| :: s[i] in blank
  }

  // The first position at or after i that is not blank, or the end.
  function VisibleFrom<T(==)>(s: seq<T>, i: nat, blank: set<T>): (n: nat)
    requires i <= |s|
    ensures i <= n <= |s|
    ensures forall k | i <= k < n :: s[k] in blank
    ensures n < |s| ==> s[n] !in blank
    decreases |s| - i
  {
    if i < |s| && s[i] in blank then VisibleFrom(s, i + 1, blank) else i
  }

  // The position after the last one below i that is not blank, or 0.
  function VisibleTo<T(==)>(s: seq<T>, i: nat, blank: set<T>): (n: nat)
    requires i <= |s|
    ensures n <= i
    ensures forall k | n <= k < i :: s[k] in blank
    ensures n > 0 ==> s[n - 1] !in blank
  {
    if i > 0 && s[i - 1] in blank then VisibleTo(s, i - 1, blank) else i
  }

  // Python's strip: bytes.strip or str.strip according to what counts as blank.
  function Trim<T(==)>(s: seq<T>, blank: set<T>): seq<T> {
    var a, b := VisibleFrom(s, 0, blank), VisibleTo(s, |s|, blank);
    if a < b then s[a..b] else []
  }

  function Strip(s: string): string {
    Trim(s, SPACES)
  }

  predicate Clean<T(==)>(s: seq<T>, blank: set<T>) {
    s == [] || (s[0] !in blank && s[|s| - 1] !in blank)
  }

  // A sequence is a trimmed core between two blank margins.
  lemma {:induction false} TrimParts<T>(s: seq<T>, blank: set<T>) returns (left: seq<T>, right: seq<T>)
    ensures s == left + Trim(s, blank) + right
    ensures AllBlank(left, blank) && AllBlank(right, blank)
    ensures Clean(Trim(s, blank), blank)
  {
    var a, b := VisibleFrom(s, 0, blank), VisibleTo(s, |s|, blank);
    TrimmedClean(s, blank);
    if a < b {
      left, right := s[..a], s[b..];
      ThreeParts(s, a, b);
    } else {
      left, right := s, [];
    }
  }

  lemma {:induction false} TrimmedClean<T>(s: seq<T>, blank: set<T>)
    ensures Clean(Trim(s, blank), blank)
  {}

  lemma {:induction false} Grouped<T>(a: seq<T>, b: seq<T>, c: seq<T>)
    ensures (a + b) + c == a + (b + c)
  {}

  lemma {:induction false} ThreeParts<T>(s: seq<T>, a: nat, b: nat)
    requires a <= b <= |s|
    ensures s == s[..a] + s[a..b] + s[b..]
  {}

  lemma {:induction false} TrimIs<T>(s: seq<T>, a: nat, b: nat, blank: set<T>)
    requires a < b <= |s| && s[a] !in blank && s[b - 1] !in blank
    requires forall k | 0 <= k < a :: s[k] in blank
    requires forall k | b <= k < |s| :: s[k] in blank
    ensures Trim(s, blank) == s[a..b]
  {}

  lemma {:induction false} TrimBlank<T>(s: seq<T>, blank: set<T>)
    requires AllBlank(s, blank)
    ensures Trim(s, blank) == []
  {}

  // Blank margins do not change the trimmed text.
  lemma {:induction false} TrimMargins<T>(left: seq<T>, s: seq<T>, right: seq<T>, blank: set<T>)
    requires AllBlank(left, blank) && AllBlank(right, blank)
    ensures Trim(left + s + right, blank) == Trim(s, blank)
  {
    var whole := left + s + right;
    var a, b := VisibleFrom(s, 0, blank), VisibleTo(s, |s|, blank);
    if a < b {
      TrimIs(whole, |left| + a, |left| + b, blank);
      assert whole[|left| + a..|left| + b] == s[a..b];
    } else {
      TrimBlank(whole, blank);
    }
  }

  lemma {:induction false} TrimClean<T>(s: seq<T>, blank: set<T>)
    requires Clean(s, blank)
    ensures Trim(s, blank) == s
  {}

  lemma {:induction false} TrimIdempotent<T>(s: seq<T>, blank: set<T>)
    ensures Trim(Trim(s, blank), blank) == Trim(s, blank)
  {
    var _, _ := TrimParts(s, blank);
    TrimClean(Trim(s, blank), blank);
  }

  // Puts one element in front of a list of lines.
  function Prepend<T(==)>(e: T, lines: seq<seq<T>>, sep: T): (r: seq<seq<T>>)
    requires lines != []
    ensures r != []
  {
    if e == sep then [[]] + lines else [[e] + lines[0]] + lines[1..]
  }

  // Python's s.split(separator) for a one-element separator.
  function Split<T(==)>(s: seq<T>, sep: T): (lines: seq<seq<T>>)
    ensures lines != []
  {
    if s == [] then [[]] else Prepend(s[0], Split(s[1..], sep), sep)
  }

  lemma {:induction false} SplitPure<T>(s: seq<T>, sep: T)
    ensures forall i | 0 <= i < |Split(s, sep)| :: sep !in Split(s, sep)[i]
  {
    if s != [] {
      SplitPure(s[1..], sep);
    }
  }

  lemma {:induction false} SplitHead<T>(s: seq<T>, sep: T)
    ensures sep !in Split(s, sep)[0]
  {
    SplitPure(s, sep);
  }

  lemma {:induction false} SplitWhole<T>(s: seq<T>, sep: T)
    requires sep !in s
    ensures Split(s, sep) == [s]
  {
    if s != [] {
      SplitWhole(s[1..], sep);
      assert s == [s[0]] + s[1..];
    }
  }

  // Joins two lists of lines by gluing the last line of one to the first line of the other.
  function Glue<T>(x: seq<seq<T>>, y: seq<seq<T>>): seq<seq<T>>
    requires x != [] && y != []
  {
    x[..|x| - 1] + [x[|x| - 1] + y[0]] + y[1..]
  }

  lemma {:induction false} GluePrepend<T>(e: T, z: seq<seq<T>>, y: seq<seq<T>>, sep: T)
    requires z != [] && y != []
    ensures Glue(Prepend(e, z, sep), y) == Prepend(e, Glue(z, y), sep)
  {
    if e == sep {
      assert ([[]] + z)[..|z|] == [[]] + z[..|z| - 1];
    } else if |z| == 1 {
      assert [e] + (z[0] + y[0]) == [e] + z[0] + y[0];
    } else {
      assert Glue(z, y)[0] == z[0];
    }
  }

  lemma {:induction false} SplitGlue<T>(a: seq<T>, b: seq<T>, sep: T)
    ensures Split(a + b, sep) == Glue(Split(a, sep), Split(b, sep))
  {
    if a == [] {
      assert a + b == b;
      assert [] + Split(b, sep)[0] == Split(b, sep)[0];
    } else {
      SplitGlue(a[1..], b, sep);
      assert (a + b)[1..] == a[1..] + b;
      GluePrepend(a[0], Split(a[1..], sep), Split(b, sep), sep);
    }
  }

  lemma {:induction false} SplitAt<T>(a: seq<T>, sep: T, b: seq<T>)
    ensures Split(a + [sep] + b, sep) == Split(a, sep) + Split(b, sep)
  {
    var x, y := Split(a, sep), Split(b, sep);
    assert ([sep] + b)[1..] == b;
    assert Split([sep] + b, sep) == [[]] + y;
    SplitGlue(a, [sep] + b, sep);
    assert a + [sep] + b == a + ([sep] + b);
    assert x[|x| - 1] + [] == x[|x| - 1];
    assert Glue(x, [[]] + y) == x + y;
  }

  // A sequence is cut at the first occurrence of an element.
  lemma {:induction false} FirstIndex<T>(s: seq<T>, e: T) returns (i: nat)
    requires e in s
    ensures i < |s| && s[i] == e && e !in s[..i]
    ensures s == s[..i] + [e] + s[i + 1..]
  {
    i := 0;
    while s[i] != e
      invariant i < |s| && e !in s[..i]
      decreases |s| - i
    {
      assert s[..i + 1] == s[..i] + [s[i]];
      i := i + 1;
    }
  }

  function Reverse<T>(s: seq<T>): (r: seq<T>)
    ensures |r| == |s|
  {
    if s == [] then [] else Reverse(s[1..]) + [s[0]]
  }

  lemma {:induction false} ReverseAppend<T>(a: seq<T>, b: seq<T>)
    ensures Reverse(a + b) == Reverse(b) + Reverse(a)
  {
    if a == [] {
      assert a + b == b;
    } else {
      assert (a + b)[1..] == a[1..] + b;
      ReverseAppend(a[1..], b);
    }
  }

  lemma {:induction false} ReverseTwice<T>(s: seq<T>)
    ensures Reverse(Reverse(s)) == s
  {
    if s != [] {
      ReverseAppend(Reverse(s[1..]), [s[0]]);
      ReverseTwice(s[1..]);
      assert Reverse([s[0]]) == [s[0]];
    }
  }

  // Gluing needs only the first line of what follows.
  lemma {:induction false} GlueTail<T>(x: seq<seq<T>>, y: seq<seq<T>>)
    requires x != [] && y != []
    ensures Glue(x, y) == Glue(x, [y[0]]) + y[1..]
  {}
}
