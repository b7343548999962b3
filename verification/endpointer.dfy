/**
 The speech endpointer of a live phone session: audio chunks go into a pre-roll buffer until
 speech starts, then into the utterance buffer until a monitor tick finds enough silence.
 Whether a chunk contains speech, and the clock, come from outside.
 */
module SpeechEndpointer {
  import opened Text
  import opened Utf8

  // Audio, whether it holds speech, and when it arrived.
  datatype Chunk = Chunk(data: seq<Byte>, speech: bool, at: int)

  function Data(chunks: seq<Chunk>): seq<Byte> {
    if chunks == [] then [] else Data(chunks[..|chunks| - 1]) + chunks[|chunks| - 1].data
  }

  function LastBytes(b: seq<Byte>, limit: nat): (r: seq<Byte>)
    ensures |r| == if |b| < limit then |b| else limit
  {
    if |b| <= limit then b else b[|b| - limit..]
  }

  predicate HasSpeech(chunks: seq<Chunk>) {
    exists i | 0 <= i < |chunks| :: chunks[i].speech
  }

  // The first speech chunk, or the end when there is none.
  function Onset(chunks: seq<Chunk>): (n: nat)
    ensures n <= |chunks|
    ensures forall i | 0 <= i < n :: !chunks[i].speech
    ensures n < |chunks| ==> chunks[n].speech
  {
    if chunks == [] then 0
    else
      var n := Onset(chunks[..|chunks| - 1]);
      if n < |chunks| - 1 || chunks[n].speech then n else |chunks|
  }

  // When the last speech chunk arrived.
  function LastSpeech(chunks: seq<Chunk>): int {
    if chunks == [] then 0
    else if chunks[|chunks| - 1].speech then chunks[|chunks| - 1].at
    else LastSpeech(chunks[..|chunks| - 1])
  }

  // What an utterance is: the end of the gap before the onset, then everything from the onset on.
  function Utterance(chunks: seq<Chunk>, preroll: nat): seq<Byte> {
    LastBytes(Data(chunks[..Onset(chunks)]), preroll) + Data(chunks[Onset(chunks)..])
  }

  // The part of the gap that is older than the pre-roll.
  function Lost(chunks: seq<Chunk>, preroll: nat): seq<Byte> {
    var gap := Data(chunks[..Onset(chunks)]);
    if |gap| <= preroll then [] else gap[..|gap| - preroll]
  }

  // The live buffers: an utterance being collected, or the end of a gap.
  datatype Buffers = Buffers(input: seq<Byte>, preSpeech: seq<Byte>, heard: bool, lastSpeechAt: int)

  function Next(b: Buffers, c: Chunk, preroll: nat): Buffers {
    if c.speech then
      Buffers((if !b.heard && b.preSpeech != [] then b.input + b.preSpeech else b.input) + c.data, [], true, c.at)
    else if b.heard then b.(input := b.input + c.data)
    else b.(preSpeech := if preroll == 0 then b.preSpeech else LastBytes(b.preSpeech + c.data, preroll))
  }

  // Which chunks the two live buffers hold.
  ghost predicate Buffered(pending: seq<Chunk>, b: Buffers, preroll: nat) {
    && b.heard == HasSpeech(pending)
    && b.input == (if b.heard then Utterance(pending, preroll) else [])
    && b.preSpeech == (if b.heard then [] else LastBytes(Data(pending), preroll))
    && (b.heard ==> b.lastSpeechAt == LastSpeech(pending))
  }

  class Endpointer {
    const preroll: nat
    const minUtterance: int
    const silenceGap: int

    var inputBuffer: seq<Byte>
    var preSpeechBuffer: seq<Byte>
    var heardSpeech: bool
    var lastSpeechAt: int
    var utterances: seq<seq<Byte>>

    ghost var pending: seq<Chunk>       // the chunks since the last flush
    ghost var flushed: seq<seq<Chunk>>  // the chunks of each earlier flush
    ghost var flushTimes: seq<int>      // and when it happened

    function Live(): Buffers
      reads this
    {
      Buffers(inputBuffer, preSpeechBuffer, heardSpeech, lastSpeechAt)
    }

    ghost predicate Valid()
      reads this
    {
      && Buffered(pending, Live(), preroll)
      && Delivered(flushed, utterances, preroll, minUtterance)
      && Quiet(flushed, flushTimes, silenceGap)
    }

    constructor (preroll: nat, minUtterance: int, silenceGap: int)
      ensures Valid() && pending == [] && flushed == []
      ensures this.preroll == preroll && this.minUtterance == minUtterance && this.silenceGap == silenceGap
    {
      this.preroll, this.minUtterance, this.silenceGap := preroll, minUtterance, silenceGap;
      inputBuffer, preSpeechBuffer, heardSpeech, lastSpeechAt, utterances := [], [], false, 0, [];
      pending, flushed, flushTimes := [], [], [];
    }

    method AppendPreroll(data: seq<Byte>)
      modifies this`preSpeechBuffer
      ensures preSpeechBuffer == if preroll == 0 then old(preSpeechBuffer)
                                 else LastBytes(old(preSpeechBuffer) + data, preroll)
    {
      if preroll <= 0 {
        return;
      }
      preSpeechBuffer := preSpeechBuffer + data;
      if |preSpeechBuffer| > preroll {
        preSpeechBuffer := preSpeechBuffer[|preSpeechBuffer| - preroll..];
      }
    }

    method HandleMedia(chunk: Chunk)
      requires Valid()
      modifies this`inputBuffer, this`preSpeechBuffer, this`heardSpeech, this`lastSpeechAt, this`pending
      ensures Valid()
      ensures pending == if chunk.data == [] then old(pending) else old(pending) + [chunk]
    {
      if chunk.data == [] {
        return;
      }
      NextHolds(pending, Live(), chunk, preroll);
      Buffer(chunk);
      pending := pending + [chunk];
    }

    // The branches of the handler, on the buffers alone.
    method Buffer(chunk: Chunk)
      modifies this`inputBuffer, this`preSpeechBuffer, this`heardSpeech, this`lastSpeechAt
      ensures Live() == Next(old(Live()), chunk, preroll)
    {
      if chunk.speech {
        if !heardSpeech && preSpeechBuffer != [] {
          inputBuffer := inputBuffer + preSpeechBuffer;
        }
        preSpeechBuffer := [];
        inputBuffer := inputBuffer + chunk.data;
        heardSpeech := true;
        lastSpeechAt := chunk.at;
        return;
      }
      if heardSpeech {
        inputBuffer := inputBuffer + chunk.data;
        return;
      }
      AppendPreroll(chunk.data);
    }

    // `busy`: the assistant is playing or an earlier utterance is still being processed.
    method Tick(now: int, busy: bool) returns (flush: bool)
      requires Valid()
      modifies this
      ensures Valid()
      ensures flush <==> !busy && HasSpeech(old(pending)) && |Utterance(old(pending), preroll)| >= minUtterance
                         && now - LastSpeech(old(pending)) >= silenceGap
      ensures flush ==> pending == [] && flushed == old(flushed) + [old(pending)]
                        && utterances == old(utterances) + [old(inputBuffer)]
                        && flushTimes == old(flushTimes) + [now]
      ensures !flush ==> pending == old(pending) && flushed == old(flushed) && utterances == old(utterances)
                         && inputBuffer == old(inputBuffer) && preSpeechBuffer == old(preSpeechBuffer)
                         && flushTimes == old(flushTimes)
    {
      if busy || !heardSpeech {
        return false;
      }
      if |inputBuffer| < minUtterance {
        return false;
      }
      if now - lastSpeechAt < silenceGap {
        return false;
      }
      Flush(now);
      return true;
    }

    // Hands on the utterance and empties the buffers.
    method Flush(now: int)
      requires Valid() && heardSpeech && |inputBuffer| >= minUtterance && now - lastSpeechAt >= silenceGap
      modifies this
      ensures Valid() && pending == []
      ensures flushed == old(flushed) + [old(pending)] && flushTimes == old(flushTimes) + [now]
      ensures utterances == old(utterances) + [old(inputBuffer)]
    {
      FlushKeeps(flushed, flushTimes, utterances, pending, inputBuffer, now, preroll, minUtterance, silenceGap);
      NothingBuffered(lastSpeechAt, preroll);
      utterances := utterances + [inputBuffer];
      flushed, flushTimes := flushed + [pending], flushTimes + [now];
      pending := [];
      inputBuffer := [];
      heardSpeech := false;
      preSpeechBuffer := [];
    }
  }

  // Every flush comes at least the silence gap after the last speech it hands on.
  ghost predicate Quiet(flushed: seq<seq<Chunk>>, flushTimes: seq<int>, silenceGap: int) {
    && |flushTimes| == |flushed|
    && forall k | 0 <= k < |flushed| :: flushTimes[k] - LastSpeech(flushed[k]) >= silenceGap
  }

  // What a flush adds to the earlier ones.
  lemma {:induction false} FlushKeeps(flushed: seq<seq<Chunk>>, flushTimes: seq<int>, utterances: seq<seq<Byte>>,
                                      pending: seq<Chunk>, utterance: seq<Byte>, now: int, preroll: nat,
                                      minUtterance: int, silenceGap: int)
    requires Delivered(flushed, utterances, preroll, minUtterance) && Quiet(flushed, flushTimes, silenceGap)
    requires HasSpeech(pending) && utterance == Utterance(pending, preroll) && |utterance| >= minUtterance
    requires now - LastSpeech(pending) >= silenceGap
    ensures Delivered(flushed + [pending], utterances + [utterance], preroll, minUtterance)
    ensures Quiet(flushed + [pending], flushTimes + [now], silenceGap)
  {}

  lemma {:induction false} NothingBuffered(lastSpeechAt: int, preroll: nat)
    ensures Buffered([], Buffers([], [], false, lastSpeechAt), preroll)
  {}

  lemma {:induction false} LastSpeechAppend(chunks: seq<Chunk>, c: Chunk)
    ensures LastSpeech(chunks + [c]) == if c.speech then c.at else LastSpeech(chunks)
  {
    assert (chunks + [c])[..|chunks|] == chunks;
  }

  // Every utterance handed on is the one its chunks define, and long enough.
  ghost predicate Delivered(flushed: seq<seq<Chunk>>, utterances: seq<seq<Byte>>, preroll: nat,
                            minUtterance: int) {
    && |flushed| == |utterances|
    && forall k | 0 <= k < |flushed| ::
         HasSpeech(flushed[k]) && utterances[k] == Utterance(flushed[k], preroll) && |utterances[k]| >= minUtterance
  }

  lemma {:induction false} DataAppend(chunks: seq<Chunk>, c: Chunk)
    ensures Data(chunks + [c]) == Data(chunks) + c.data
  {
    assert (chunks + [c])[..|chunks|] == chunks;
  }

  lemma {:induction false} DataConcat(a: seq<Chunk>, b: seq<Chunk>)
    ensures Data(a + b) == Data(a) + Data(b)
  {
    if b == [] {
      assert a + b == a;
    } else {
      var n := |b| - 1;
      assert (a + b)[..|a| + n] == a + b[..n];
      DataConcat(a, b[..n]);
      Grouped(Data(a), Data(b[..n]), b[n].data);
    }
  }

  lemma {:induction false} OnsetUnique(chunks: seq<Chunk>, n: nat)
    requires n <= |chunks| && (forall i | 0 <= i < n :: !chunks[i].speech)
    requires n < |chunks| ==> chunks[n].speech
    ensures Onset(chunks) == n
  {}

  // One chunk more, in each of the three situations the handler distinguishes.
  lemma {:induction false} SpeechContinues(chunks: seq<Chunk>, c: Chunk, preroll: nat)
    requires HasSpeech(chunks)
    ensures HasSpeech(chunks + [c])
    ensures Utterance(chunks + [c], preroll) == Utterance(chunks, preroll) + c.data
  {
    SpeechAdded(chunks, c);
    OnsetKept(chunks, c);
    var n := Onset(chunks);
    assert (chunks + [c])[n..] == chunks[n..] + [c];
    assert (chunks + [c])[..n] == chunks[..n];
    DataAppend(chunks[n..], c);
  }

  lemma {:induction false} SpeechStarts(chunks: seq<Chunk>, c: Chunk, preroll: nat)
    requires !HasSpeech(chunks) && c.speech
    ensures HasSpeech(chunks + [c])
    ensures Utterance(chunks + [c], preroll) == LastBytes(Data(chunks), preroll) + c.data
  {
    SpeechAdded(chunks, c);
    OnsetUnique(chunks + [c], |chunks|);
    assert (chunks + [c])[..|chunks|] == chunks;
    assert (chunks + [c])[|chunks|..] == [] + [c];
    DataAppend([], c);
  }

  lemma {:induction false} LastBytesTwice(b: seq<Byte>, more: seq<Byte>, limit: nat)
    ensures LastBytes(b + more, limit) == LastBytes(LastBytes(b, limit) + more, limit)
  {
    if |b| > limit {
      var kept := b[|b| - limit..];
      assert (b + more)[|b| - limit..] == kept + more;
      assert (b + more)[|b| + |more| - limit..] == (kept + more)[|more|..];
    }
  }

  lemma {:induction false} SpeechBuffered(pending: seq<Chunk>, c: Chunk, b: Buffers, preroll: nat)
    requires Buffered(pending, b, preroll) && c.speech
    ensures Buffered(pending + [c], Next(b, c, preroll), preroll)
  {
    LastSpeechAppend(pending, c);
    if b.heard {
      SpeechContinues(pending, c, preroll);
    } else {
      assert [] + b.preSpeech == b.preSpeech;
      SpeechStarts(pending, c, preroll);
    }
  }

  lemma {:induction false} TailBuffered(pending: seq<Chunk>, c: Chunk, b: Buffers, preroll: nat)
    requires Buffered(pending, b, preroll) && !c.speech && b.heard
    ensures Buffered(pending + [c], Next(b, c, preroll), preroll)
  {
    LastSpeechAppend(pending, c);
    SpeechContinues(pending, c, preroll);
  }

  lemma {:induction false} GapBuffered(pending: seq<Chunk>, c: Chunk, b: Buffers, preroll: nat)
    requires Buffered(pending, b, preroll) && !c.speech && !b.heard
    ensures Buffered(pending + [c], Next(b, c, preroll), preroll)
  {
    SpeechAdded(pending, c);
    DataAppend(pending, c);
    LastBytesTwice(Data(pending), c.data, preroll);
  }

  // The handler's three branches keep the buffers in step with the chunks.
  lemma {:induction false} NextHolds(pending: seq<Chunk>, b: Buffers, c: Chunk, preroll: nat)
    requires Buffered(pending, b, preroll)
    ensures Buffered(pending + [c], Next(b, c, preroll), preroll)
  {
    if c.speech {
      SpeechBuffered(pending, c, b, preroll);
    } else if b.heard {
      TailBuffered(pending, c, b, preroll);
    } else {
      GapBuffered(pending, c, b, preroll);
    }
  }

  lemma {:induction false} SpeechAdded(chunks: seq<Chunk>, c: Chunk)
    ensures HasSpeech(chunks + [c]) <==> HasSpeech(chunks) || c.speech
  {
    if HasSpeech(chunks) {
      var i :| 0 <= i < |chunks| && chunks[i].speech;
      assert (chunks + [c])[i].speech;
    }
    if c.speech {
      assert (chunks + [c])[|chunks|].speech;
    }
  }

  lemma {:induction false} OnsetKept(chunks: seq<Chunk>, c: Chunk)
    requires HasSpeech(chunks)
    ensures Onset(chunks) < |chunks| && Onset(chunks + [c]) == Onset(chunks)
  {
    assert (chunks + [c])[..|chunks|] == chunks;
  }

  // ------------------------------------------------------- conservation

  /** A flushed stretch of audio is its lost old gap followed by its utterance; nothing is lost
      from a gap that fits the pre-roll, and nothing from the onset on. */
  lemma {:induction false} StretchConserved(chunks: seq<Chunk>, preroll: nat)
    ensures Data(chunks) == Lost(chunks, preroll) + Utterance(chunks, preroll)
    ensures Lost(chunks, preroll) <= Data(chunks[..Onset(chunks)])
    ensures |Data(chunks[..Onset(chunks)])| <= preroll ==> Lost(chunks, preroll) == []
    ensures |Utterance(chunks, preroll)| - |Data(chunks[Onset(chunks)..])| <= preroll
  {
    var n := Onset(chunks);
    var before, after := chunks[..n], chunks[n..];
    DataConcat(before, after);
    assert chunks == before + after;
    LostThenKept(Data(before), Data(after), preroll);
  }

  lemma {:induction false} LostThenKept(gap: seq<Byte>, rest: seq<Byte>, preroll: nat)
    ensures gap + rest == (if |gap| <= preroll then [] else gap[..|gap| - preroll]) + (LastBytes(gap, preroll) + rest)
  {}

  function Flatten(stretches: seq<seq<Chunk>>): seq<Chunk> {
    if stretches == [] then [] else Flatten(stretches[..|stretches| - 1]) + stretches[|stretches| - 1]
  }

  // The lost gaps and the utterances in turn.
  function Interleaved(stretches: seq<seq<Chunk>>, utterances: seq<seq<Byte>>, preroll: nat): seq<Byte>
    requires |stretches| == |utterances|
  {
    if stretches == [] then []
    else
      var n := |stretches| - 1;
      Interleaved(stretches[..n], utterances[..n], preroll) + Lost(stretches[n], preroll) + utterances[n]
  }

  /** The whole stream, byte for byte: lost gaps and utterances in order, then what is still buffered. */
  lemma {:induction false} StreamConserved(flushed: seq<seq<Chunk>>, utterances: seq<seq<Byte>>, preroll: nat,
                                          minUtterance: int)
    requires Delivered(flushed, utterances, preroll, minUtterance)
    ensures Data(Flatten(flushed)) == Interleaved(flushed, utterances, preroll)
  {
    if flushed != [] {
      var n := |flushed| - 1;
      StreamConserved(flushed[..n], utterances[..n], preroll, minUtterance);
      DataConcat(Flatten(flushed[..n]), flushed[n]);
      StretchConserved(flushed[n], preroll);
      var x, l, u := Data(Flatten(flushed[..n])), Lost(flushed[n], preroll), utterances[n];
      assert x + (l + u) == x + l + u;
    }
  }

  /** Before the next flush the live buffers hold everything but the old gap. */
  lemma {:induction false} PendingConserved(e: Endpointer)
    requires e.Valid()
    ensures Data(e.pending) == Lost(e.pending, e.preroll) + e.preSpeechBuffer + e.inputBuffer
    ensures !e.heardSpeech ==> e.inputBuffer == []
    ensures e.heardSpeech ==> e.preSpeechBuffer == []
  {
    BufferedConserved(e.pending, e.Live(), e.preroll);
  }

  lemma {:induction false} BufferedConserved(pending: seq<Chunk>, b: Buffers, preroll: nat)
    requires Buffered(pending, b, preroll)
    ensures Data(pending) == Lost(pending, preroll) + b.preSpeech + b.input
  {
    StretchConserved(pending, preroll);
    if b.heard {
      assert Lost(pending, preroll) + [] == Lost(pending, preroll);
    } else {
      GapOnly(pending, preroll);
      assert Lost(pending, preroll) + b.preSpeech + [] == Lost(pending, preroll) + b.preSpeech;
    }
  }

  lemma {:induction false} GapOnly(pending: seq<Chunk>, preroll: nat)
    requires !HasSpeech(pending)
    ensures Utterance(pending, preroll) == LastBytes(Data(pending), preroll)
  {
    OnsetUnique(pending, |pending|);
    assert pending[..|pending|] == pending && pending[|pending|..] == [];
    assert LastBytes(Data(pending), preroll) + [] == LastBytes(Data(pending), preroll);
  }

  // ------------------------------------------------------- whole runs

  datatype Event = Media(chunk: Chunk) | MonitorTick(at: int, busy: bool)

  // The audio an event brings; an empty media event brings none.
  function Brought(event: Event): seq<Chunk> {
    if event.Media? && event.chunk.data != [] then [event.chunk] else []
  }

  function ChunksOf(events: seq<Event>): seq<Chunk> {
    if events == [] then [] else ChunksOf(events[..|events| - 1]) + Brought(events[|events| - 1])
  }

  method Apply(e: Endpointer, event: Event)
    requires e.Valid()
    modifies e
    ensures e.Valid()
    ensures Flatten(e.flushed) + e.pending == old(Flatten(e.flushed) + e.pending) + Brought(event)
  {
    ghost var flushed, pending := e.flushed, e.pending;
    match event {
      case Media(c) =>
        e.HandleMedia(c);
        assert e.pending == pending + Brought(event);
        Grouped(Flatten(flushed), pending, Brought(event));
      case MonitorTick(at, busy) =>
        FlattenFlush(flushed, pending);
        var _ := e.Tick(at, busy);
        assert Brought(event) == [];
    }
  }

  /** Any interleaving of media and ticks: the stream is the lost old gaps and the utterances in
      order, then the old gap and the buffers of the stretch that is still open. */
  method RunSession(preroll: nat, minUtterance: int, silenceGap: int, events: seq<Event>) returns (e: Endpointer)
    ensures fresh(e) && e.Valid()
    ensures e.preroll == preroll && e.minUtterance == minUtterance && e.silenceGap == silenceGap
    ensures Flatten(e.flushed) + e.pending == ChunksOf(events)
    ensures Delivered(e.flushed, e.utterances, preroll, minUtterance)
    ensures Quiet(e.flushed, e.flushTimes, silenceGap)
    ensures Data(ChunksOf(events)) == Interleaved(e.flushed, e.utterances, preroll)
                                      + (Lost(e.pending, preroll) + e.preSpeechBuffer + e.inputBuffer)
  {
    e := new Endpointer(preroll, minUtterance, silenceGap);
    Feed(e, events);
    RunConserved(e);
  }

  // The events of a session, one after the other.
  method Feed(e: Endpointer, events: seq<Event>)
    requires e.Valid() && e.pending == [] && e.flushed == []
    modifies e
    ensures e.Valid() && Flatten(e.flushed) + e.pending == ChunksOf(events)
  {
    for i := 0 to |events|
      invariant e.Valid() && Flatten(e.flushed) + e.pending == ChunksOf(events[..i])
    {
      assert events[..i + 1][..i] == events[..i];
      Apply(e, events[i]);
    }
    assert events[..|events|] == events;
  }

  lemma {:induction false} FlattenFlush(flushed: seq<seq<Chunk>>, pending: seq<Chunk>)
    ensures Flatten(flushed + [pending]) + [] == Flatten(flushed) + pending
  {
    assert (flushed + [pending])[..|flushed|] == flushed;
  }

  lemma {:induction false} RunConserved(e: Endpointer)
    requires e.Valid()
    ensures |e.flushed| == |e.utterances|
    ensures Data(Flatten(e.flushed) + e.pending)
         == Interleaved(e.flushed, e.utterances, e.preroll)
            + (Lost(e.pending, e.preroll) + e.preSpeechBuffer + e.inputBuffer)
  {
    StreamConserved(e.flushed, e.utterances, e.preroll, e.minUtterance);
    PendingConserved(e);
    DataConcat(Flatten(e.flushed), e.pending);
  }
}
