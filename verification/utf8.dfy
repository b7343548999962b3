/** Strict UTF-8, as Python's "utf-8" codec reads and writes it (RFC 3629, section 4). */
module Utf8 {
  import opened Text

  type Byte = b: int | 0 <= b < 256

  const LF: Byte := 10

  predicate Continuation(b: Byte) {
    0x80 <= b < 0xC0
  }

  // How many bytes the character led by this byte takes; 0 when no character starts with it.
  function Width(lead: Byte): (n: nat)
    ensures n <= 4
  {
    if lead < 0x80 then 1
    else if 0xC2 <= lead < 0xE0 then 2
    else if 0xE0 <= lead < 0xF0 then 3
    else if 0xF0 <= lead < 0xF5 then 4
    else 0
  }

  // One well-formed character: neither overlong, nor a surrogate, nor above U+10FFFF.
  predicate WellFormed(b: seq<Byte>) {
    && b != [] && |b| == Width(b[0])
    && (|b| >= 2 ==>
      && Continuation(b[1])
      && (b[0] == 0xE0 ==> b[1] >= 0xA0)
      && (b[0] == 0xED ==> b[1] < 0xA0)
      && (b[0] == 0xF0 ==> b[1] >= 0x90)
      && (b[0] == 0xF4 ==> b[1] < 0x90))
    && (|b| >= 3 ==> Continuation(b[2]))
    && (|b| >= 4 ==> Continuation(b[3]))
  }

  function Scalar(b: seq<Byte>): (c: char)
    requires WellFormed(b)
    ensures |b| == 1 ==> c as int == b[0]
    ensures |b| > 1 ==> c as int >= 0x80
  {
    var lead: int := b[0];
    if |b| == 1 then lead as char
    else
      var second: int := b[1];
      if |b| == 2 then ((lead - 0xC0) * 64 + (second - 0x80)) as char
      else
        var third: int := b[2];
        if |b| == 3 then ((lead - 0xE0) * 4096 + (second - 0x80) * 64 + (third - 0x80)) as char
        else
          var fourth: int := b[3];
          ((lead - 0xF0) * 262144 + (second - 0x80) * 4096 + (third - 0x80) * 64 + (fourth - 0x80)) as char
  }

  // The first character's bytes, when the sequence starts with a well-formed one.
  predicate Starts(b: seq<Byte>) {
    b != [] && 0 < Width(b[0]) <= |b| && WellFormed(b[..Width(b[0])])
  }

  predicate Valid(b: seq<Byte>)
    decreases |b|
  {
    b == [] || (Starts(b) && Valid(b[Width(b[0])..]))
  }

  function Decoded(b: seq<Byte>): string
    requires Valid(b)
    decreases |b|
  {
    if b == [] then "" else [Scalar(b[..Width(b[0])])] + Decoded(b[Width(b[0])..])
  }

  function Decode(b: seq<Byte>): Option<string> {
    if Valid(b) then Some(Decoded(b)) else None
  }

  // The code point in base 64, lowest digit first.
  function Digit(n: nat, position: nat): (d: nat)
    requires position < 3
    ensures d < 64
  {
    if position == 0 then n % 64 else if position == 1 then n / 64 % 64 else n / 4096 % 64
  }

  function EncodeChar(c: char): (b: seq<Byte>)
    ensures b != []
  {
    var n := c as int;
    if n < 0x80 then [n]
    else if n < 0x800 then [0xC0 + n / 64, 0x80 + Digit(n, 0)]
    else if n < 0x10000 then [0xE0 + n / 4096, 0x80 + Digit(n, 1), 0x80 + Digit(n, 0)]
    else [0xF0 + n / 262144, 0x80 + Digit(n, 2), 0x80 + Digit(n, 1), 0x80 + Digit(n, 0)]
  }

  function Encode(t: string): seq<Byte> {
    if t == "" then [] else EncodeChar(t[0]) + Encode(t[1..])
  }

  lemma {:induction false} EncodeShortDecodes(c: char)
    requires c as int < 0x10000
    ensures WellFormed(EncodeChar(c)) && Scalar(EncodeChar(c)) == c
  {
    var n := c as int;
    assert n == n / 4096 * 4096 + Digit(n, 1) * 64 + Digit(n, 0);
  }

  lemma {:induction false} EncodeLongDecodes(c: char)
    requires c as int >= 0x10000
    ensures WellFormed(EncodeChar(c)) && Scalar(EncodeChar(c)) == c
  {
    var n := c as int;
    assert n == n / 262144 * 262144 + Digit(n, 2) * 4096 + Digit(n, 1) * 64 + Digit(n, 0);
  }

  lemma {:induction false} EncodeCharDecodes(c: char)
    ensures WellFormed(EncodeChar(c)) && Scalar(EncodeChar(c)) == c
  {
    if c as int < 0x10000 {
      EncodeShortDecodes(c);
    } else {
      EncodeLongDecodes(c);
    }
  }

  lemma {:induction false} EncodeDecodes(t: string)
    ensures Decode(Encode(t)) == Some(t)
  {
    if t != "" {
      var head, rest := EncodeChar(t[0]), Encode(t[1..]);
      EncodeCharDecodes(t[0]);
      EncodeDecodes(t[1..]);
      assert (head + rest)[..|head|] == head && (head + rest)[|head|..] == rest;
      assert [t[0]] + t[1..] == t;
    }
  }

  // Encoding never produces a line feed byte for any other character.
  lemma {:induction false} EncodeNoLineFeed(t: string)
    requires '\n' !in t
    ensures LF !in Encode(t)
  {
    if t != "" {
      assert t[0] in t;
      EncodeNoLineFeed(t[1..]);
    }
  }

  lemma {:induction false} EncodeConcat(s: string, t: string)
    ensures Encode(s + t) == Encode(s) + Encode(t)
  {
    if s == "" {
      assert s + t == t;
    } else {
      assert (s + t)[1..] == s[1..] + t;
      EncodeConcat(s[1..], t);
    }
  }

  // A byte that continues no character is not inside the first one.
  lemma {:induction false} HeadEnds(b: seq<Byte>, k: nat)
    requires Starts(b) && 0 < k < |b| && !Continuation(b[k])
    ensures Width(b[0]) <= k
  {}

  // What follows does not change the first character.
  lemma {:induction false} HeadStays(a: seq<Byte>, b: seq<Byte>)
    requires a != [] && 0 < Width(a[0]) <= |a|
    ensures var n := Width(a[0]);
            (a + b)[..n] == a[..n] && (a + b)[n..] == a[n..] + b
    ensures Starts(a) <==> Starts(a + b)
  {
    assert (a + b)[0] == a[0];
    assert (a + b)[..Width(a[0])] == a[..Width(a[0])];
  }

  lemma {:induction false} ValidConcat(a: seq<Byte>, b: seq<Byte>)
    requires Valid(a)
    ensures Valid(a + b) <==> Valid(b)
    decreases |a|
  {
    if a == [] {
      assert a + b == b;
    } else {
      HeadStays(a, b);
      ValidConcat(a[Width(a[0])..], b);
    }
  }

  // Text decoded so far is kept whatever follows it.
  lemma {:induction false} DecodedConcat(a: seq<Byte>, b: seq<Byte>)
    requires Valid(a) && Valid(b) && Valid(a + b)
    ensures Decoded(a + b) == Decoded(a) + Decoded(b)
    decreases |a|
  {
    if a == [] {
      assert a + b == b;
    } else {
      HeadStays(a, b);
      var n := Width(a[0]);
      DecodedConcat(a[n..], b);
      var head, x, y := [Scalar(a[..n])], Decoded(a[n..]), Decoded(b);
      assert head + (x + y) == head + x + y;
    }
  }

  // Valid text cut before a byte that continues no character leaves valid text on both sides.
  lemma {:induction false} ValidCut(a: seq<Byte>, b: seq<Byte>)
    requires Valid(a + b) && (b != [] ==> !Continuation(b[0]))
    ensures Valid(a) && Valid(b)
    decreases |a|
  {
    if a == [] {
      assert a + b == b;
    } else if b == [] {
      assert a + b == a;
    } else {
      assert (a + b)[|a|] == b[0] && (a + b)[0] == a[0];
      HeadEnds(a + b, |a|);
      HeadStays(a, b);
      ValidCut(a[Width(a[0])..], b);
    }
  }

  // In particular valid text can be cut at a line feed.
  lemma {:induction false} DecodeCut(a: seq<Byte>, b: seq<Byte>)
    requires Valid(a + [LF] + b)
    ensures Valid(a) && Valid(b)
    ensures Decoded(a + [LF] + b) == Decoded(a) + "\n" + Decoded(b)
  {
    assert a + [LF] + b == a + ([LF] + b);
    ValidCut(a, [LF] + b);
    assert Valid([LF]);
    ValidConcat([LF], b);
    DecodedConcat(a, [LF] + b);
    DecodedConcat([LF], b);
    assert [LF][1..] == [] && [LF][..1] == [LF];
    assert Decoded([LF]) == "\n";
    assert Decoded(a) + ("\n" + Decoded(b)) == Decoded(a) + "\n" + Decoded(b);
  }

  lemma {:induction false} DecodedNoLineFeed(b: seq<Byte>)
    requires Valid(b) && LF !in b
    ensures '\n' !in Decoded(b)
    decreases |b|
  {
    if b != [] {
      var n := Width(b[0]);
      assert b[..n][0] == b[0];
      DecodedNoLineFeed(b[n..]);
    }
  }

  // The bytes that bytes.strip removes.
  const BLANK_BYTES: set<Byte> := {9, 10, 11, 12, 13, 32}

  lemma {:induction false} DecodedBlank(b: seq<Byte>)
    requires AllBlank(b, BLANK_BYTES)
    ensures Valid(b) && AllBlank(Decoded(b), SPACES)
  {
    if b != [] {
      assert b[0] in BLANK_BYTES;
      DecodedBlank(b[1..]);
    }
  }

  // Blank margins neither make nor break valid text.
  lemma {:induction false} ValidMargins(left: seq<Byte>, core: seq<Byte>, right: seq<Byte>)
    requires AllBlank(left, BLANK_BYTES) && AllBlank(right, BLANK_BYTES)
    ensures Valid(left) && Valid(right)
    ensures Valid(left + core + right) <==> Valid(core)
    ensures Valid(core) ==> Decoded(left + core + right) == Decoded(left) + Decoded(core) + Decoded(right)
    ensures AllBlank(Decoded(left), SPACES) && AllBlank(Decoded(right), SPACES)
  {
    DecodedBlank(left);
    DecodedBlank(right);
    assert left + core + right == left + (core + right);
    ValidConcat(left, core + right);
    if right != [] {
      assert right[0] in BLANK_BYTES;
    }
    if Valid(core + right) {
      ValidCut(core, right);
    }
    if Valid(core) {
      ValidConcat(core, right);
      DecodedConcat(left, core + right);
      DecodedConcat(core, right);
      assert Decoded(left) + (Decoded(core) + Decoded(right)) == Decoded(left) + Decoded(core) + Decoded(right);
    }
  }
}
