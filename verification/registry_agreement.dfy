/**
 The backward chunked reader against the forward reader: they agree for every parser exactly on
 valid UTF-8 files in which no stripped line still contains a carriage return.
 */
module RegistryAgreement {
  import opened Text
  import opened Utf8
  import opened AffectiveRegistry

  ghost predicate RejectsEmpty<E>(parse: Parser<E>) {
    parse("") == None
  }

  // ------------------------------------------------------- bytes against decoded text

  // Stripping ASCII blanks from the bytes leaves the same text to strip.
  lemma {:induction false} StripDecoded(line: seq<Byte>)
    requires Valid(line)
    ensures Valid(Trim(line, BLANK_BYTES))
    ensures Strip(Decoded(line)) == Strip(Decoded(Trim(line, BLANK_BYTES)))
  {
    var left, right := TrimParts(line, BLANK_BYTES);
    var core := Trim(line, BLANK_BYTES);
    ValidMargins(left, core, right);
    TrimMargins(Decoded(left), Decoded(core), Decoded(right), SPACES);
  }

  // Stripping bytes first and text later selects the same entry as stripping the text.
  lemma {:induction false} LineAgrees<E>(parse: Parser<E>, line: seq<Byte>)
    requires RejectsEmpty(parse) && Valid(line)
    ensures ByteEntry(parse, line) == TextEntry(parse, Decoded(line))
  {
    StripDecoded(line);
    TrimIdempotent(Decoded(line), SPACES);
  }

  lemma {:induction false} LineEntriesCut<E>(parse: Parser<E>, a: string, b: string)
    ensures LineEntries(parse, a + "\n" + b) == LineEntries(parse, a) + LineEntries(parse, b)
  {
    SplitAt(a, '\n', b);
    TextEntriesConcat(parse, Split(a, '\n'), Split(b, '\n'));
  }

  lemma {:induction false} LineEntriesSingle<E>(parse: Parser<E>, line: string)
    requires '\n' !in line
    ensures LineEntries(parse, line) == TextEntry(parse, line)
  {
    SplitWhole(line, '\n');
    assert TextEntries(parse, [line]) == TextEntry(parse, line) + TextEntries(parse, []);
  }

  lemma {:induction false} FileEntriesSingle<E>(parse: Parser<E>, line: seq<Byte>)
    requires LF !in line
    ensures FileEntries(parse, line) == ByteEntry(parse, line)
  {
    SplitWhole(line, LF);
    assert ByteEntries(parse, [line]) == ByteEntry(parse, line) + ByteEntries(parse, []);
  }

  lemma {:induction false} FileEntriesCut<E>(parse: Parser<E>, a: seq<Byte>, b: seq<Byte>)
    ensures FileEntries(parse, a + [LF] + b) == FileEntries(parse, a) + FileEntries(parse, b)
  {
    SplitAt(a, LF, b);
    ByteEntriesConcat(parse, Split(a, LF), Split(b, LF));
  }

  // Splitting bytes and decoding the lines, or decoding and splitting the text, is the same.
  lemma {:induction false} BytesAgreeWithText<E>(parse: Parser<E>, file: seq<Byte>)
    requires RejectsEmpty(parse) && Valid(file)
    ensures FileEntries(parse, file) == LineEntries(parse, Decoded(file))
    decreases |file|
  {
    if LF in file {
      var i := FirstIndex(file, LF);
      var a, b := file[..i], file[i + 1..];
      DecodeCut(a, b);
      FileEntriesCut(parse, a, b);
      LineEntriesCut(parse, Decoded(a), Decoded(b));
      BytesAgreeWithText(parse, a);
      BytesAgreeWithText(parse, b);
    } else {
      FileEntriesSingle(parse, file);
      DecodedNoLineFeed(file);
      LineEntriesSingle(parse, Decoded(file));
      LineAgrees(parse, file);
    }
  }

  // ------------------------------------------------------- universal newlines

  predicate NoInnerCR(t: string) {
    forall i | 0 <= i < |Split(t, '\n')| :: '\r' !in Strip(Split(t, '\n')[i])
  }

  function LinesForCRs(t: string): (r: string)
    ensures |r| == |t|
    ensures forall i | 0 <= i < |t| :: r[i] == if t[i] == '\r' then '\n' else t[i]
  {
    if t == "" then "" else [if t[0] == '\r' then '\n' else t[0]] + LinesForCRs(t[1..])
  }

  lemma {:induction false} UniversalPrefix(a: string, b: string)
    requires '\r' !in a
    ensures UniversalNewlines(a + b) == a + UniversalNewlines(b)
  {
    if a == "" {
      assert a + b == b;
    } else {
      assert a[0] in a;
      assert (a + b)[1..] == a[1..] + b;
      UniversalPrefix(a[1..], b);
    }
  }

  lemma {:induction false} EmptyLine<E>(parse: Parser<E>)
    ensures LineEntries(parse, "") == []
  {
    LineEntriesSingle(parse, "");
  }

  // The text behind the first newline that a carriage return begins.
  function BehindCR(b: string): string {
    if b != "" && b[0] == '\n' then b[1..] else b
  }

  lemma {:induction false} UniversalFirst(b: string)
    ensures UniversalNewlines("\r" + b) == "\n" + UniversalNewlines(BehindCR(b))
  {
    assert ("\r" + b)[1..] == b;
    assert b != "" ==> ("\r" + b)[2..] == b[1..];
  }

  lemma {:induction false} UniversalCut(a: string, b: string)
    requires '\r' !in a
    ensures UniversalNewlines(a + "\r" + b) == a + "\n" + UniversalNewlines(BehindCR(b))
  {
    assert a + "\r" + b == a + ("\r" + b);
    UniversalPrefix(a, "\r" + b);
    UniversalFirst(b);
    assert a + ("\n" + UniversalNewlines(BehindCR(b))) == a + "\n" + UniversalNewlines(BehindCR(b));
  }

  lemma {:induction false} LinesBehindCR<E>(parse: Parser<E>, b: string)
    ensures LineEntries(parse, LinesForCRs(b)) == LineEntries(parse, LinesForCRs(BehindCR(b)))
  {
    if b != "" && b[0] == '\n' {
      assert LinesForCRs(b) == "" + "\n" + LinesForCRs(b[1..]);
      LineEntriesCut(parse, "", LinesForCRs(b[1..]));
      EmptyLine(parse);
    }
  }

  lemma {:induction false} LinesForCRsCut<E>(parse: Parser<E>, a: string, b: string)
    requires '\r' !in a
    ensures LineEntries(parse, LinesForCRs(a + "\r" + b))
         == LineEntries(parse, a) + LineEntries(parse, LinesForCRs(BehindCR(b)))
  {
    LinesForCRsInMargins("", a, "\r" + b);
    assert "" + a + ("\r" + b) == a + "\r" + b;
    assert ("\r" + b)[1..] == b;
    assert "" + a + ("\n" + LinesForCRs(b)) == a + "\n" + LinesForCRs(b);
    LineEntriesCut(parse, a, LinesForCRs(b));
    LinesBehindCR(parse, b);
  }

  // "\r\n" as one newline or as two: the extra line is blank.
  lemma {:induction false} NewlinesAsLines<E>(parse: Parser<E>, t: string)
    ensures LineEntries(parse, UniversalNewlines(t)) == LineEntries(parse, LinesForCRs(t))
    decreases |t|
  {
    if '\r' !in t {
      UniversalPrefix(t, "");
      assert t + "" == t;
      assert LinesForCRs(t) == t;
    } else {
      var i := FirstIndex(t, '\r');
      var a, b := t[..i], t[i + 1..];
      UniversalCut(a, b);
      LineEntriesCut(parse, a, UniversalNewlines(BehindCR(b)));
      NewlinesAsLines(parse, BehindCR(b));
      LinesForCRsCut(parse, a, b);
    }
  }

  lemma {:induction false} BlankEntries<E>(parse: Parser<E>, t: string)
    requires AllBlank(t, SPACES)
    ensures LineEntries(parse, t) == []
    decreases |t|
  {
    if '\n' in t {
      var i := FirstIndex(t, '\n');
      LineEntriesCut(parse, t[..i], t[i + 1..]);
      BlankEntries(parse, t[..i]);
      BlankEntries(parse, t[i + 1..]);
    } else {
      LineEntriesSingle(parse, t);
      TrimBlank(t, SPACES);
    }
  }

  lemma {:induction false} BlankBehind<E>(parse: Parser<E>, t: string, right: string)
    requires AllBlank(right, SPACES) && '\n' in right
    ensures forall i | 0 <= i < |right| && right[i] == '\n' ::
              LineEntries(parse, t + right) == LineEntries(parse, t + right[..i])
  {
    forall i | 0 <= i < |right| && right[i] == '\n'
      ensures LineEntries(parse, t + right) == LineEntries(parse, t + right[..i])
    {
      assert t + right == (t + right[..i]) + "\n" + right[i + 1..];
      LineEntriesCut(parse, t + right[..i], right[i + 1..]);
      BlankEntries(parse, right[i + 1..]);
    }
  }

  // Blank text around one line adds nothing, whatever newlines it holds.
  lemma {:induction false} BlankAround<E>(parse: Parser<E>, left: string, core: string, right: string)
    requires AllBlank(left, SPACES) && AllBlank(right, SPACES) && '\n' !in core
    ensures LineEntries(parse, left + core + right) == TextEntry(parse, core)
    decreases |left| + |right|
  {
    if '\n' in left {
      var i := FirstIndex(left, '\n');
      var rest := left[i + 1..] + core + right;
      assert left + core + right == left[..i] + "\n" + rest;
      LineEntriesCut(parse, left[..i], rest);
      BlankEntries(parse, left[..i]);
      BlankAround(parse, left[i + 1..], core, right);
    } else if '\n' in right {
      BlankBehind(parse, left + core, right);
      var i := FirstIndex(right, '\n');
      BlankAround(parse, left, core, right[..i]);
      assert left + core + right[..i] == (left + core) + right[..i];
    } else {
      LineEntriesSingle(parse, left + core + right);
      TrimMargins(left, core, right, SPACES);
    }
  }

  lemma {:induction false} BlankLinesForCRs(t: string)
    requires AllBlank(t, SPACES)
    ensures AllBlank(LinesForCRs(t), SPACES)
  {}

  lemma {:induction false} LinesForCRsInMargins(left: string, core: string, right: string)
    requires '\r' !in core
    ensures LinesForCRs(left + core + right) == LinesForCRs(left) + core + LinesForCRs(right)
  {
    assert forall i | 0 <= i < |core| :: core[i] in core;
  }

  // A line whose only carriage returns are in its margins is unharmed by them.
  lemma {:induction false} MarginCRs<E>(parse: Parser<E>, line: string)
    requires '\n' !in line && '\r' !in Strip(line)
    ensures LineEntries(parse, LinesForCRs(line)) == TextEntry(parse, line)
  {
    var left, right := TrimParts(line, SPACES);
    var core := Strip(line);
    LinesForCRsInMargins(left, core, right);
    BlankLinesForCRs(left);
    BlankLinesForCRs(right);
    if '\n' in core {
      StripInside(line, '\n');
    }
    BlankAround(parse, LinesForCRs(left), core, LinesForCRs(right));
    TrimIdempotent(line, SPACES);
  }

  lemma {:induction false} InnerCRCut(a: string, b: string)
    requires '\n' !in a
    ensures NoInnerCR(a + "\n" + b) <==> '\r' !in Strip(a) && NoInnerCR(b)
  {
    SplitAt(a, '\n', b);
    SplitWhole(a, '\n');
    var lines, rest := Split(a + "\n" + b, '\n'), Split(b, '\n');
    assert lines == [a] + rest;
    assert lines[0] == a;
    assert forall k | 0 <= k < |rest| :: rest[k] == lines[k + 1];
  }

  lemma {:induction false} LinesForCRsAround<E>(parse: Parser<E>, a: string, b: string)
    ensures LineEntries(parse, LinesForCRs(a + "\n" + b))
         == LineEntries(parse, LinesForCRs(a)) + LineEntries(parse, LinesForCRs(b))
  {
    LinesForCRsInMargins(a, "\n", b);
    LineEntriesCut(parse, LinesForCRs(a), LinesForCRs(b));
  }

  lemma {:induction false} MarginCRsEverywhere<E>(parse: Parser<E>, t: string)
    requires NoInnerCR(t)
    ensures LineEntries(parse, LinesForCRs(t)) == LineEntries(parse, t)
    decreases |t|
  {
    if '\n' in t {
      var i := FirstIndex(t, '\n');
      var a, b := t[..i], t[i + 1..];
      InnerCRCut(a, b);
      LinesForCRsAround(parse, a, b);
      LineEntriesCut(parse, a, b);
      MarginCRs(parse, a);
      LineEntriesSingle(parse, a);
      MarginCRsEverywhere(parse, b);
    } else {
      SplitWhole(t, '\n');
      assert Split(t, '\n')[0] == t;
      MarginCRs(parse, t);
      LineEntriesSingle(parse, t);
    }
  }

  // ------------------------------------------------------- the condition is exact

  ghost predicate ReadersAgree<E>(parse: Parser<E>, file: seq<Byte>) {
    ForwardEntries(parse, file) == Some(FileEntries(parse, file))
  }

  lemma {:induction false} AgreeWithoutInnerCR<E>(parse: Parser<E>, file: seq<Byte>)
    requires RejectsEmpty(parse) && Valid(file) && NoInnerCR(Decoded(file))
    ensures ReadersAgree(parse, file)
  {
    BytesAgreeWithText(parse, file);
    NewlinesAsLines(parse, Decoded(file));
    MarginCRsEverywhere(parse, Decoded(file));
  }

  // A parser that takes documents with a carriage return between tokens, which JSON allows.
  function CRParser<E>(e: E): Parser<E> {
    (t: string) => if '\r' in t then Some(e) else None
  }

  lemma {:induction false} UniversalHasNoCR(t: string)
    ensures '\r' !in UniversalNewlines(t)
    decreases |t|
  {
    if t != "" {
      if t[0] == '\r' {
        UniversalHasNoCR(if |t| > 1 && t[1] == '\n' then t[2..] else t[1..]);
      } else {
        UniversalHasNoCR(t[1..]);
      }
    }
  }

  lemma {:induction false} StripInside(s: string, c: char)
    requires c in Strip(s)
    ensures c in s
  {
    var left, right := TrimParts(s, SPACES);
  }

  lemma {:induction false} NoCRNoEntries<E>(e: E, t: string)
    requires '\r' !in t
    ensures LineEntries(CRParser(e), t) == []
    decreases |t|
  {
    if '\n' in t {
      var i := FirstIndex(t, '\n');
      LineEntriesCut(CRParser(e), t[..i], t[i + 1..]);
      NoCRNoEntries(e, t[..i]);
      NoCRNoEntries(e, t[i + 1..]);
    } else {
      LineEntriesSingle(CRParser(e), t);
      var s := Strip(t);
      if '\r' in Strip(s) {
        StripInside(s, '\r');
        StripInside(t, '\r');
      }
    }
  }

  lemma {:induction false} InnerCREntries<E>(e: E, lines: seq<string>, i: nat)
    requires i < |lines| && '\r' in Strip(lines[i])
    ensures TextEntries(CRParser(e), lines) != []
  {
    if i == 0 {
      TrimIdempotent(lines[0], SPACES);
    } else {
      InnerCREntries(e, lines[1..], i - 1);
    }
  }

  lemma {:induction false} DisagreeWithInnerCR<E>(e: E, file: seq<Byte>)
    requires Valid(file)
    ensures !NoInnerCR(Decoded(file)) ==> RejectsEmpty(CRParser(e)) && !ReadersAgree(CRParser(e), file)
  {
    if !NoInnerCR(Decoded(file)) {
      InnerCRSeen(e, file);
    }
  }

  lemma {:induction false} InnerCRSeen<E>(e: E, file: seq<Byte>)
    requires Valid(file) && !NoInnerCR(Decoded(file))
    ensures !ReadersAgree(CRParser(e), file)
  {
    var t := Decoded(file);
    var lines := Split(t, '\n');
    var i :| 0 <= i < |lines| && '\r' in Strip(lines[i]);
    BytesAgreeWithText(CRParser(e), file);
    InnerCREntries(e, lines, i);
    UniversalHasNoCR(t);
    NoCRNoEntries(e, UniversalNewlines(t));
  }

  /** The backward reader yields the forward reader's entries in reverse, for every parser and
      chunk size, exactly when the file is valid text and no stripped line holds a carriage return. */
  lemma {:induction false} ReadersAgreeExactly<E(!new)>(e: E, file: seq<Byte>)
    ensures (forall parse: Parser<E> | RejectsEmpty(parse) :: ReadersAgree(parse, file))
       <==> Valid(file) && NoInnerCR(Decoded(file))
  {
    assert RejectsEmpty(CRParser(e));
    if Valid(file) {
      if NoInnerCR(Decoded(file)) {
        forall parse: Parser<E> | RejectsEmpty(parse)
          ensures ReadersAgree(parse, file)
        {
          AgreeWithoutInnerCR(parse, file);
        }
      } else {
        DisagreeWithInnerCR(e, file);
      }
    } else {
      assert !ReadersAgree(CRParser(e), file);
    }
  }

  /** A file of the failing family: "{", a carriage return and "}", which JSON takes for one object. */
  lemma {:induction false} CarriageReturnFile()
    ensures var file := [0x7B, 13, 0x7D]; Valid(file) && !NoInnerCR(Decoded(file))
  {
    var t := "{\r}";
    assert Encode(t) == [0x7B, 13, 0x7D];
    EncodeDecodes(t);
    SplitWhole(t, '\n');
    TrimClean(t, SPACES);
    assert Split(t, '\n')[0] == t && t[1] == '\r';
  }

  // A file without carriage returns is in the good case.
  lemma {:induction false} NoCRIsEnough(t: string)
    requires '\r' !in t
    ensures NoInnerCR(t)
    decreases |t|
  {
    if '\n' in t {
      var k := FirstIndex(t, '\n');
      InnerCRCut(t[..k], t[k + 1..]);
      NoCRIsEnough(t[k + 1..]);
      if '\r' in Strip(t[..k]) { StripInside(t[..k], '\r'); }
    } else {
      SplitWhole(t, '\n');
      if '\r' in Strip(t) { StripInside(t, '\r'); }
    }
  }
}
