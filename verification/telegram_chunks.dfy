/** Cutting a reply into Telegram messages of bounded length. */
module TelegramChunks {
  import opened Text

  predicate NonSpaceEnds(s: string) {
    s != "" && s[0] !in SPACES && s[|s| - 1] !in SPACES
  }

  // Python's s.rfind(c, 0, end): the last position of c below end, or -1.
  function RFind(s: string, c: char, end: nat): (k: int)
    requires end <= |s|
    ensures -1 <= k < end
    ensures k >= 0 ==> s[k] == c
    ensures forall i | k < i < end && i >= 0 :: s[i] != c
  {
    if end == 0 then -1 else if s[end - 1] == c then end - 1 else RFind(s, c, end - 1)
  }

  // Where a too long text is cut: behind its last line, else its last word, else at the limit.
  function CutAt(s: string, limit: nat): (k: nat)
    requires 1 <= limit < |s|
    ensures 1 <= k <= limit
  {
    var line := RFind(s, '\n', limit);
    if line > 0 then line
    else
      var word := RFind(s, ' ', limit);
      if word > 0 then word else limit
  }

  // The last of these characters behind the first and below the limit stands at k.
  predicate LastAt(s: string, k: nat, c: char, limit: nat)
    requires limit < |s|
  {
    0 < k < limit && s[k] == c && forall i | k < i < limit :: s[i] != c
  }

  predicate NoneBelow(s: string, c: char, limit: nat)
    requires limit < |s|
  {
    forall i | 0 < i < limit :: s[i] != c
  }

  // A cut prefers the last line end below the limit, then the last word end, and then the limit.
  predicate CutsWell(s: string, k: nat, limit: nat)
    requires limit < |s|
  {
    || LastAt(s, k, '\n', limit)
    || (NoneBelow(s, '\n', limit) && LastAt(s, k, ' ', limit))
    || (NoneBelow(s, '\n', limit) && NoneBelow(s, ' ', limit) && k == limit)
  }

  // The chunks in order, each followed by its gap, spell the text.
  function Woven(chunks: seq<string>, gaps: seq<string>): string
    requires |chunks| == |gaps|
  {
    if chunks == [] then ""
    else Woven(chunks[..|chunks| - 1], gaps[..|gaps| - 1]) + chunks[|chunks| - 1] + gaps[|gaps| - 1]
  }

  // A too long text begins with this chunk and gap: the gap is white space around the preferred cut.
  // It is empty only where the chunk fills the limit and offers no line or word end to cut at.
  ghost predicate GoodCut(s: string, chunk: string, gap: string, limit: nat) {
    && chunk + gap <= s && NonSpaceEnds(chunk) && |chunk| <= limit < |s|
    && AllBlank(gap, SPACES)
    && (gap == "" ==> |chunk| == limit && forall i | 0 < i < |chunk| :: chunk[i] != '\n' && chunk[i] != ' ')
    && exists k :: |chunk| <= k <= |chunk| + |gap| && CutsWell(s, k, limit)
  }

  // What is left of a text behind these chunks and gaps.
  function Remaining(text: string, chunks: seq<string>, gaps: seq<string>): string
    requires |chunks| == |gaps|
  {
    var n := |Woven(chunks, gaps)|;
    if n <= |text| then text[n..] else ""
  }

  // The i-th chunk and gap are a good cut of what the earlier ones have left.
  ghost predicate CutFits(text: string, chunks: seq<string>, gaps: seq<string>, i: nat, limit: nat)
    requires |chunks| == |gaps| && i < |chunks|
  {
    GoodCut(Remaining(text, chunks[..i], gaps[..i]), chunks[i], gaps[i], limit)
  }

  lemma {:induction false} FitsKept(text: string, chunks: seq<string>, gaps: seq<string>, chunk: string, gap: string,
                                    i: nat, limit: nat)
    requires |chunks| == |gaps| && i < |chunks|
    ensures CutFits(text, chunks + [chunk], gaps + [gap], i, limit) <==> CutFits(text, chunks, gaps, i, limit)
  {
    assert (chunks + [chunk])[..i] == chunks[..i] && (gaps + [gap])[..i] == gaps[..i];
  }

  lemma {:induction false} FitsNew(text: string, chunks: seq<string>, gaps: seq<string>, chunk: string, gap: string,
                                   limit: nat)
    requires |chunks| == |gaps| && GoodCut(Remaining(text, chunks, gaps), chunk, gap, limit)
    ensures CutFits(text, chunks + [chunk], gaps + [gap], |chunks|, limit)
  {
    assert (chunks + [chunk])[..|chunks|] == chunks && (gaps + [gap])[..|gaps|] == gaps;
  }

  // These cuts spell all of the text before the remaining part.
  ghost predicate CutSoFar(chunks: seq<string>, gaps: seq<string>, remaining: string, text: string, limit: nat) {
    && |chunks| == |gaps| && Woven(chunks, gaps) + remaining == text
    && forall i | 0 <= i < |chunks| :: CutFits(text, chunks, gaps, i, limit)
  }

  // The cuts spell the text: every chunk but the last is a good cut, the last one ends the text.
  ghost predicate Chunked(chunks: seq<string>, gaps: seq<string>, text: string, limit: nat) {
    && |chunks| == |gaps| && Woven(chunks, gaps) == text
    && (chunks == [] <==> text == "")
    && (forall i | 0 <= i < |chunks| - 1 :: CutFits(text, chunks, gaps, i, limit))
    && (chunks != [] ==>
         NonSpaceEnds(chunks[|chunks| - 1]) && |chunks[|chunks| - 1]| <= limit && gaps[|gaps| - 1] == "")
  }

  method ChunkTelegramText(text: string, limit: nat) returns (chunks: seq<string>, ghost gaps: seq<string>)
    requires limit >= 1
    ensures Chunked(chunks, gaps, Strip(text), limit)
    ensures Visible(Joined(chunks)) == Visible(Strip(text))
  {
    var normalized := Strip(text);
    StrippedEnds(text);
    chunks, gaps := [], [];
    if normalized == "" {
      return;
    }
    var remaining := normalized;
    while remaining != ""
      invariant if remaining == "" then Chunked(chunks, gaps, normalized, limit)
                else CutSoFar(chunks, gaps, remaining, normalized, limit) && NonSpaceEnds(remaining)
      decreases |remaining|
    {
      if |remaining| <= limit {
        LastChunk(chunks, gaps, remaining, normalized, limit);
        chunks, gaps := chunks + [remaining], gaps + [""];
        remaining := "";
        break;
      }
      var splitAt := CutAt(remaining, limit);
      var chunk, gap, rest := Cut(remaining, splitAt, limit);
      NextChunk(chunks, gaps, chunk, gap, rest, normalized, limit);
      if chunk != "" {
        chunks, gaps := chunks + [chunk], gaps + [gap];
      }
      remaining := rest;
    }
    ChunkedVisible(chunks, gaps, normalized, limit);
  }

  lemma {:induction false} LastChunk(chunks: seq<string>, gaps: seq<string>, last: string, text: string, limit: nat)
    requires CutSoFar(chunks, gaps, last, text, limit) && NonSpaceEnds(last) && |last| <= limit
    ensures Chunked(chunks + [last], gaps + [""], text, limit)
  {
    WovenNext(chunks, gaps, last, "");
    assert Woven(chunks, gaps) + last + "" == Woven(chunks, gaps) + last;
    forall i | 0 <= i < |chunks| ensures CutFits(text, chunks + [last], gaps + [""], i, limit) {
      FitsKept(text, chunks, gaps, last, "", i, limit);
    }
  }

  lemma {:induction false} RemainingIs(chunks: seq<string>, gaps: seq<string>, remaining: string, text: string)
    requires |chunks| == |gaps| && Woven(chunks, gaps) + remaining == text
    ensures Remaining(text, chunks, gaps) == remaining
  {}

  lemma {:induction false} NextChunk(chunks: seq<string>, gaps: seq<string>, chunk: string, gap: string, rest: string,
                                     text: string, limit: nat)
    requires CutSoFar(chunks, gaps, chunk + gap + rest, text, limit)
    requires GoodCut(chunk + gap + rest, chunk, gap, limit)
    ensures CutSoFar(chunks + [chunk], gaps + [gap], rest, text, limit)
  {
    RemainingIs(chunks, gaps, chunk + gap + rest, text);
    FitsNew(text, chunks, gaps, chunk, gap, limit);
    forall i | 0 <= i < |chunks| ensures CutFits(text, chunks + [chunk], gaps + [gap], i, limit) {
      FitsKept(text, chunks, gaps, chunk, gap, i, limit);
    }
    NextWoven(chunks, gaps, chunk, gap, rest);
  }

  lemma {:induction false} NextWoven(chunks: seq<string>, gaps: seq<string>, chunk: string, gap: string, rest: string)
    requires |chunks| == |gaps|
    ensures Woven(chunks + [chunk], gaps + [gap]) + rest == Woven(chunks, gaps) + (chunk + gap + rest)
  {
    WovenNext(chunks, gaps, chunk, gap);
    assert Woven(chunks, gaps) + chunk + gap + rest == Woven(chunks, gaps) + (chunk + gap + rest);
  }

  lemma {:induction false} ChunkedVisible(chunks: seq<string>, gaps: seq<string>, text: string, limit: nat)
    requires Chunked(chunks, gaps, text, limit)
    ensures Visible(Joined(chunks)) == Visible(text)
  {
    assert forall i | 0 <= i < |chunks| - 1 :: CutFits(text, chunks, gaps, i, limit) && AllBlank(gaps[i], SPACES);
    VisibleKept(chunks, gaps);
  }

  lemma {:induction false} WovenNext(chunks: seq<string>, gaps: seq<string>, chunk: string, gap: string)
    requires |chunks| == |gaps|
    ensures Woven(chunks + [chunk], gaps + [gap]) == Woven(chunks, gaps) + chunk + gap
  {
    assert (chunks + [chunk])[..|chunks|] == chunks && (gaps + [gap])[..|gaps|] == gaps;
  }

  lemma {:induction false} StrippedEnds(text: string)
    ensures Strip(text) != "" ==> NonSpaceEnds(Strip(text))
  {
    var left, right := TrimParts(text, SPACES);
  }

  // One cut: the chunk loses trailing white space, the rest loses leading white space.
  method Cut(s: string, k: nat, limit: nat) returns (chunk: string, ghost gap: string, rest: string)
    requires NonSpaceEnds(s) && 1 <= limit < |s| && k == CutAt(s, limit)
    ensures s == chunk + gap + rest && GoodCut(s, chunk, gap, limit)
    ensures NonSpaceEnds(rest) && |rest| < |s|
  {
    var a := VisibleTo(s[..k], k, SPACES);
    var b := VisibleFrom(s, k, SPACES);
    chunk, rest := s[..a], s[b..];
    gap := s[a..b];
    assert s[..k][0] == s[0];
    assert a >= 1;
    assert s == s[..a] + s[a..b] + s[b..];
    CutGood(s, a, b, k, limit);
  }

  lemma {:induction false} CutGood(s: string, a: nat, b: nat, k: nat, limit: nat)
    requires NonSpaceEnds(s) && 1 <= limit < |s| && k == CutAt(s, limit)
    requires 1 <= a <= k <= b <= |s| && s[a - 1] !in SPACES && (b < |s| ==> s[b] !in SPACES)
    requires (forall i | a <= i < k :: s[i] in SPACES) && forall i | k <= i < b :: s[i] in SPACES
    ensures GoodCut(s, s[..a], s[a..b], limit)
  {
    CutAtPrefers(s, limit);
    assert s[..a] + s[a..b] == s[..b];
    assert CutsWell(s, k, limit);
    assert forall i | 0 <= i < b - a :: s[a..b][i] == s[a + i];
    if a == b {
      FullCut(s, k, limit);
    }
  }

  // Without a gap the cut is no line or word end, so it is the limit.
  lemma {:induction false} FullCut(s: string, k: nat, limit: nat)
    requires 1 <= limit < |s| && CutsWell(s, k, limit) && k <= |s| && (k < |s| ==> s[k] !in SPACES || k == limit)
    ensures k == limit && forall i | 0 < i < limit :: s[i] != '\n' && s[i] != ' '
  {}

  lemma {:induction false} CutAtPrefers(s: string, limit: nat)
    requires 1 <= limit < |s|
    ensures forall k :: CutsWell(s, k, limit) <==> k == CutAt(s, limit)
  {}

  // The characters of a text that are not white space.
  function Visible(s: string): string {
    if s == "" then ""
    else Visible(s[..|s| - 1]) + if s[|s| - 1] in SPACES then "" else [s[|s| - 1]]
  }

  function Joined(chunks: seq<string>): string {
    if chunks == [] then "" else Joined(chunks[..|chunks| - 1]) + chunks[|chunks| - 1]
  }

  lemma {:induction false} VisibleConcat(s: string, t: string)
    ensures Visible(s + t) == Visible(s) + Visible(t)
  {
    if t == "" {
      assert s + t == s;
    } else {
      var n := |t| - 1;
      assert (s + t)[..|s| + n] == s + t[..n];
      VisibleConcat(s, t[..n]);
    }
  }

  lemma {:induction false} VisibleBlank(s: string)
    requires AllBlank(s, SPACES)
    ensures Visible(s) == ""
  {
    if s != "" {
      VisibleBlank(s[..|s| - 1]);
    }
  }

  /** No visible character is lost, repeated or moved. */
  lemma {:induction false} VisibleKept(chunks: seq<string>, gaps: seq<string>)
    requires |chunks| == |gaps| && forall i | 0 <= i < |gaps| :: AllBlank(gaps[i], SPACES)
    ensures Visible(Joined(chunks)) == Visible(Woven(chunks, gaps))
  {
    if chunks != [] {
      var n := |chunks| - 1;
      VisibleKept(chunks[..n], gaps[..n]);
      VisibleBlank(gaps[n]);
      VisibleConcat(Joined(chunks[..n]), chunks[n]);
      var woven := Woven(chunks[..n], gaps[..n]);
      VisibleConcat(woven + chunks[n], gaps[n]);
      VisibleConcat(woven, chunks[n]);
    }
  }
}
