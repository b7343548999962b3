/**
 The affective registry: an append-only JSON-lines file with a forward reader, a reader that
 walks backwards in fixed-size chunks, and an appender that reads back what it wrote.
 The JSON parser is a parameter that accepts no empty document.
 */
module AffectiveRegistry {
  import opened Text
  import opened Utf8

  type Parser<!E> = string -> Option<E>

  function FromJsonl<E>(parse: Parser<E>, line: string): Option<E> {
    parse(Strip(line))
  }

  function Listed<E>(e: Option<E>): seq<E> {
    match e case None => [] case Some(v) => [v]
  }

  // What one text line contributes to the forward reader.
  function TextEntry<E>(parse: Parser<E>, line: string): seq<E> {
    var s := Strip(line);
    if s == "" then [] else Listed(FromJsonl(parse, s))
  }

  // What one byte line contributes to the reverse reader.
  function ByteEntry<E>(parse: Parser<E>, line: seq<Byte>): seq<E> {
    var s := Trim(line, BLANK_BYTES);
    if s == [] then []
    else match Decode(s)
      case None => []
      case Some(t) => Listed(FromJsonl(parse, t))
  }

  function TextEntries<E>(parse: Parser<E>, lines: seq<string>): seq<E> {
    if lines == [] then [] else TextEntry(parse, lines[0]) + TextEntries(parse, lines[1..])
  }

  function ByteEntries<E>(parse: Parser<E>, lines: seq<seq<Byte>>): seq<E> {
    if lines == [] then [] else ByteEntry(parse, lines[0]) + ByteEntries(parse, lines[1..])
  }

  // Text mode turns "\r\n" and "\r" into "\n".
  function UniversalNewlines(t: string): string
    decreases |t|
  {
    if t == "" then ""
    else if t[0] == '\r' then
      "\n" + UniversalNewlines(if |t| > 1 && t[1] == '\n' then t[2..] else t[1..])
    else [t[0]] + UniversalNewlines(t[1..])
  }

  // The entries of a text, line by line.
  function LineEntries<E>(parse: Parser<E>, t: string): seq<E> {
    TextEntries(parse, Split(t, '\n'))
  }

  // The forward reader's whole outcome; None when decoding the file raises.
  function ForwardEntries<E>(parse: Parser<E>, file: seq<Byte>): Option<seq<E>> {
    match Decode(file)
    case None => None
    case Some(t) => Some(LineEntries(parse, UniversalNewlines(t)))
  }

  // The file's entries line by line at byte level, oldest first.
  function FileEntries<E>(parse: Parser<E>, file: seq<Byte>): seq<E> {
    ByteEntries(parse, Split(file, LF))
  }

  // ---------------------------------------------------------------- the readers

  lemma {:induction false} TextEntriesSnoc<E>(parse: Parser<E>, lines: seq<string>, i: nat)
    requires i < |lines|
    ensures TextEntries(parse, lines[..i + 1]) == TextEntries(parse, lines[..i]) + TextEntry(parse, lines[i])
  {
    assert lines[..i + 1] == lines[..i] + [lines[i]];
    TextEntriesConcat(parse, lines[..i], [lines[i]]);
    assert TextEntries(parse, [lines[i]]) == TextEntry(parse, lines[i]) + TextEntries(parse, []);
  }

  lemma {:induction false} TextEntriesConcat<E>(parse: Parser<E>, x: seq<string>, y: seq<string>)
    ensures TextEntries(parse, x + y) == TextEntries(parse, x) + TextEntries(parse, y)
  {
    if x == [] {
      assert x + y == y;
    } else {
      assert (x + y)[1..] == x[1..] + y;
      TextEntriesConcat(parse, x[1..], y);
      var head, a, b := TextEntry(parse, x[0]), TextEntries(parse, x[1..]), TextEntries(parse, y);
      assert head + (a + b) == head + a + b;
    }
  }

  lemma {:induction false} ByteEntriesConcat<E>(parse: Parser<E>, x: seq<seq<Byte>>, y: seq<seq<Byte>>)
    ensures ByteEntries(parse, x + y) == ByteEntries(parse, x) + ByteEntries(parse, y)
  {
    if x == [] {
      assert x + y == y;
    } else {
      assert (x + y)[1..] == x[1..] + y;
      ByteEntriesConcat(parse, x[1..], y);
      var head, a, b := ByteEntry(parse, x[0]), ByteEntries(parse, x[1..]), ByteEntries(parse, y);
      assert head + (a + b) == head + a + b;
    }
  }

  method ReadJsonl<E>(parse: Parser<E>, file: seq<Byte>) returns (entries: Option<seq<E>>)
    ensures entries == ForwardEntries(parse, file)
  {
    var decoded := Decode(file);
    if decoded.None? {
      return None;
    }
    var lines := Split(UniversalNewlines(decoded.value), '\n');
    var found := [];
    for i := 0 to |lines|
      invariant found == TextEntries(parse, lines[..i])
    {
      TextEntriesSnoc(parse, lines, i);
      found := found + TextEntry(parse, lines[i]);
    }
    assert lines[..|lines|] == lines;
    return Some(found);
  }

  // After the part of the file behind `offset`: its first line waits in the buffer, the others are out.
  ghost predicate Pending<E>(parse: Parser<E>, tail: seq<Byte>, buffer: seq<Byte>, entries: seq<E>) {
    var lines := Split(tail, LF);
    buffer == lines[0] && entries == Reverse(ByteEntries(parse, lines[1..]))
  }

  // Reads the file from its end, chunk by chunk, carrying the cut first line to the next chunk.
  method ReadJsonlReverse<E>(parse: Parser<E>, file: seq<Byte>, chunkSize: nat) returns (entries: seq<E>)
    requires chunkSize >= 1
    ensures entries == Reverse(FileEntries(parse, file))
  {
    entries := [];
    var buffer: seq<Byte> := [];
    var offset := |file|;
    assert file[offset..] == [];
    while offset > 0
      invariant offset <= |file|
      invariant Pending(parse, file[offset..], buffer, entries)
    {
      var readSize := if chunkSize < offset then chunkSize else offset;
      ghost var rest, carried, before := file[offset..], buffer, entries;
      offset := offset - readSize;
      var chunk := file[offset..offset + readSize];
      assert file[offset..] == chunk + rest;
      PendingStep(parse, chunk, rest, buffer, entries);
      buffer := chunk + buffer;
      var lines := Split(buffer, LF);
      buffer := lines[0];
      var found := TakeCompleteLines(parse, lines);
      entries := entries + found;
    }
    assert file[0..] == file;
    PendingLast(parse, file, buffer, entries);
    entries := entries + ByteEntry(parse, buffer);
  }

  // The complete lines of a buffer, last one first; the first line may still be cut.
  method TakeCompleteLines<E>(parse: Parser<E>, lines: seq<seq<Byte>>) returns (entries: seq<E>)
    requires lines != []
    ensures entries == Reverse(ByteEntries(parse, lines[1..]))
  {
    entries := [];
    for i := |lines| downto 1
      invariant entries == Reverse(ByteEntries(parse, lines[i..]))
    {
      LineBefore(parse, lines, i);
      entries := entries + ByteEntry(parse, lines[i]);
    }
  }

  lemma {:induction false} LineBefore<E>(parse: Parser<E>, lines: seq<seq<Byte>>, i: nat)
    requires i < |lines|
    ensures Reverse(ByteEntries(parse, lines[i..]))
         == Reverse(ByteEntries(parse, lines[i + 1..])) + ByteEntry(parse, lines[i])
  {
    ByteEntriesCons(parse, lines[i], lines[i + 1..]);
    assert lines[i..] == [lines[i]] + lines[i + 1..];
  }

  lemma {:induction false} ByteEntriesCons<E>(parse: Parser<E>, line: seq<Byte>, lines: seq<seq<Byte>>)
    ensures ByteEntries(parse, [line] + lines) == ByteEntry(parse, line) + ByteEntries(parse, lines)
    ensures Reverse(ByteEntries(parse, [line] + lines)) == Reverse(ByteEntries(parse, lines)) + ByteEntry(parse, line)
  {
    assert ([line] + lines)[1..] == lines;
    var first := ByteEntry(parse, line);
    assert |first| <= 1 && Reverse(first) == first;
    ReverseAppend(first, ByteEntries(parse, lines));
  }

  lemma {:induction false} PendingLast<E>(parse: Parser<E>, file: seq<Byte>, buffer: seq<Byte>, entries: seq<E>)
    requires Pending(parse, file, buffer, entries)
    ensures entries + ByteEntry(parse, buffer) == Reverse(FileEntries(parse, file))
  {
    var lines := Split(file, LF);
    assert lines == [buffer] + lines[1..];
    ByteEntriesCons(parse, buffer, lines[1..]);
  }

  // Further back by a chunk, the lines of the rest of the file are those of the chunk and the
  // carried buffer, then the lines already read.
  lemma {:induction false} CarriedLines(chunk: seq<Byte>, rest: seq<Byte>)
    ensures var y := Split(rest, LF);
            Split(chunk + rest, LF) == Split(chunk + y[0], LF) + y[1..]
  {
    var x, y := Split(chunk, LF), Split(rest, LF);
    SplitHead(rest, LF);
    SplitWhole(y[0], LF);
    SplitGlue(chunk, y[0], LF);
    SplitGlue(chunk, rest, LF);
    GlueTail(x, y);
  }

  lemma {:induction false} ReverseLines<E>(parse: Parser<E>, x: seq<seq<Byte>>, y: seq<seq<Byte>>)
    ensures Reverse(ByteEntries(parse, x + y)) == Reverse(ByteEntries(parse, y)) + Reverse(ByteEntries(parse, x))
  {
    ByteEntriesConcat(parse, x, y);
    ReverseAppend(ByteEntries(parse, x), ByteEntries(parse, y));
  }

  lemma {:induction false} PendingStep<E>(parse: Parser<E>, chunk: seq<Byte>, rest: seq<Byte>, buffer: seq<Byte>,
                                          entries: seq<E>)
    requires Pending(parse, rest, buffer, entries)
    ensures var lines := Split(chunk + buffer, LF);
            Pending(parse, chunk + rest, lines[0], entries + Reverse(ByteEntries(parse, lines[1..])))
  {
    CarriedLines(chunk, rest);
    var lines, done := Split(chunk + buffer, LF), Split(rest, LF)[1..];
    assert (lines + done)[1..] == lines[1..] + done;
    ReverseLines(parse, lines[1..], done);
  }
}
