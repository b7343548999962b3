/** The bounded store of recent outbound Telegram messages, against its unbounded history. */
module TelegramContext {
  import opened Text

  const MAX_AGE := 3 * 60 * 60
  const MAX_ENTRIES := 80

  datatype Entry = Entry(chatId: string, messageId: string, text: string, fullText: string, createdAt: int)

  // Drops what is older than the cutoff.
  function Fresh(entries: seq<Entry>, now: int): seq<Entry> {
    if entries == [] then []
    else
      var kept := Fresh(entries[..|entries| - 1], now);
      var e := entries[|entries| - 1];
      if e.createdAt >= now - MAX_AGE then kept + [e] else kept
  }

  function Pruned(entries: seq<Entry>, now: int): seq<Entry> {
    var kept := Fresh(entries, now);
    if |kept| <= MAX_ENTRIES then kept else kept[|kept| - MAX_ENTRIES..]
  }

  predicate Chronological(h: seq<Entry>) {
    forall i, j | 0 <= i < j < |h| :: h[i].createdAt <= h[j].createdAt
  }

  // The first entry of the history that is not too old.
  function FirstFresh(h: seq<Entry>, now: int): (n: nat)
    ensures n <= |h|
    ensures Chronological(h) ==> forall i | 0 <= i < |h| :: h[i].createdAt >= now - MAX_AGE <==> n <= i
  {
    if h == [] || h[|h| - 1].createdAt < now - MAX_AGE then |h|
    else FirstFresh(h[..|h| - 1], now)
  }

  // Where the window of the store starts in the history.
  function WindowStart(h: seq<Entry>, now: int): (n: nat)
    ensures n <= |h| && |h| - n <= MAX_ENTRIES
  {
    var young := FirstFresh(h, now);
    if |h| - young <= MAX_ENTRIES then young else |h| - MAX_ENTRIES
  }

  lemma {:induction false} FreshIsSuffix(h: seq<Entry>, now: int)
    requires Chronological(h)
    ensures Fresh(h, now) == h[FirstFresh(h, now)..]
  {
    if h != [] {
      var n := |h| - 1;
      FreshIsSuffix(h[..n], now);
      if h[n].createdAt >= now - MAX_AGE {
        assert h[FirstFresh(h, now)..] == h[..n][FirstFresh(h, now)..] + [h[n]];
      } else {
        assert FirstFresh(h[..n], now) == n;
      }
    }
  }

  lemma {:induction false} PrunedIsWindow(h: seq<Entry>, now: int)
    requires Chronological(h)
    ensures Pruned(h, now) == h[WindowStart(h, now)..]
  {
    FreshIsSuffix(h, now);
  }

  /** Pruning on the way and pruning once at the end leave the same entries. */
  lemma {:induction false} PruneAgain(h: seq<Entry>, more: seq<Entry>, earlier: int, now: int)
    requires Chronological(h + more) && earlier <= now
    ensures Pruned(Pruned(h, earlier) + more, now) == Pruned(h + more, now)
  {
    var all := h + more;
    ChronologicalParts(h, more);
    var s := WindowStart(h, earlier);
    EarlierWindow(h, more, earlier, now);
    PrunedIsWindow(h, earlier);
    assert h[s..] + more == all[s..];
    PrunedIsWindow(all, now);
    PrunedSuffix(all, s, now);
  }

  lemma {:induction false} ChronologicalParts(h: seq<Entry>, more: seq<Entry>)
    requires Chronological(h + more)
    ensures Chronological(h)
  {
    assert forall i | 0 <= i < |h| :: h[i] == (h + more)[i];
  }

  lemma {:induction false} PrunedSuffix(h: seq<Entry>, s: nat, now: int)
    requires Chronological(h) && s <= WindowStart(h, now)
    ensures Pruned(h[s..], now) == h[WindowStart(h, now)..]
  {
    PrunedIsWindow(h[s..], now);
    SuffixWindow(h, s, now);
  }

  lemma {:induction false} FirstFreshIs(h: seq<Entry>, now: int, n: nat)
    requires Chronological(h) && n <= |h|
    requires forall i | 0 <= i < |h| :: h[i].createdAt >= now - MAX_AGE <==> n <= i
    ensures FirstFresh(h, now) == n
  {
    var m := FirstFresh(h, now);
    if n < |h| {
      assert h[n].createdAt >= now - MAX_AGE;
    }
    if m < |h| {
      assert h[m].createdAt >= now - MAX_AGE;
    }
  }

  // The window of a suffix, in positions of the whole history.
  lemma {:induction false} SuffixWindow(h: seq<Entry>, s: nat, now: int)
    requires Chronological(h) && s <= WindowStart(h, now)
    ensures s + WindowStart(h[s..], now) == WindowStart(h, now)
  {
    var n := FirstFresh(h, now);
    FirstFreshIs(h[s..], now, if n < s then 0 else n - s);
  }

  lemma {:induction false} EarlierWindow(h: seq<Entry>, more: seq<Entry>, earlier: int, now: int)
    requires Chronological(h) && Chronological(h + more) && earlier <= now
    ensures WindowStart(h, earlier) <= WindowStart(h + more, now)
  {
    var m := FirstFresh(h + more, now);
    if m < |h| {
      assert (h + more)[m].createdAt >= now - MAX_AGE;
      assert h[m] == (h + more)[m];
    }
  }

  predicate IsFor(e: Entry, chatId: string, messageId: string) {
    e.chatId == chatId && e.messageId == messageId
  }

  predicate IsRecent(e: Entry, chatId: string, maxAge: int, readAt: int) {
    e.chatId == chatId && readAt - e.createdAt <= maxAge
  }

  lemma {:induction false} SuffixChronological(h: seq<Entry>, n: nat)
    requires Chronological(h) && n <= |h|
    ensures Chronological(h[n..])
  {}

  lemma {:induction false} NewerIsYounger(h: seq<Entry>, i: nat)
    requires Chronological(h) && i < |h|
    ensures forall k | i < k < |h| :: h[k].createdAt >= h[i].createdAt
  {}

  predicate Blank(chatId: string, messageId: string, text: string) {
    Strip(chatId) == "" || Strip(messageId) == "" || Strip(text) == ""
  }

  // The entry is this message; its full text is the text where none was given.
  predicate Carries(e: Entry, chatId: string, messageId: string, text: string, fullText: string, createdAt: int) {
    && e.chatId == chatId && e.messageId == messageId && e.text == text && e.createdAt == createdAt
    && (e.fullText == fullText || (fullText == "" && e.fullText == text))
  }

  function Recorded(chatId: string, messageId: string, text: string, fullText: string, createdAt: int): Entry {
    Entry(chatId, messageId, text, if fullText == "" then text else fullText, createdAt)
  }

  class OutboundContextStore {
    var entries: seq<Entry>
    ghost var history: seq<Entry>  // everything ever recorded
    ghost var prunedAt: int

    ghost predicate Valid()
      reads this
    {
      && Chronological(history)
      && entries == Pruned(history, prunedAt)
    }

    // No recorded entry and no pruning is later than this clock reading.
    ghost predicate ClockAt(now: int)
      reads this
    {
      prunedAt <= now && forall i | 0 <= i < |history| :: history[i].createdAt <= now
    }

    constructor (now: int)
      ensures Valid() && ClockAt(now) && history == []
    {
      entries, history, prunedAt := [], [], now;
    }

    // The clock is read for the entry, then again for the pruning.
    method Record(chatId: string, messageId: string, text: string, fullText: string, createdAt: int, now: int)
      requires Valid() && ClockAt(createdAt) && createdAt <= now
      modifies this
      ensures Valid() && ClockAt(now)
      ensures Strip(chatId) == "" || Strip(messageId) == "" || Strip(text) == "" ==>
                history == old(history) && entries == old(entries)
      ensures Strip(chatId) != "" && Strip(messageId) != "" && Strip(text) != "" ==>
                && |history| == |old(history)| + 1 && old(history) <= history
                && Carries(history[|history| - 1], chatId, messageId, text, fullText, createdAt)
                && entries == Pruned(history, now)
    {
      if Blank(chatId, messageId, text) {
        return;
      }
      var e := Recorded(chatId, messageId, text, fullText, createdAt);
      PruneAgain(history, [e], prunedAt, now);
      entries := Pruned(entries + [e], now);
      history := history + [e];
      prunedAt := now;
    }

    method Refresh(now: int)
      requires Valid() && ClockAt(now)
      modifies this
      ensures Valid() && ClockAt(now) && history == old(history)
      ensures entries == Pruned(history, now)
    {
      assert history + [] == history && Pruned(history, prunedAt) + [] == Pruned(history, prunedAt);
      PruneAgain(history, [], prunedAt, now);
      entries := Pruned(entries, now);
      prunedAt := now;
    }

    // The newest matching message among the last 80 that are at most three hours old.
    method Lookup(chatId: string, messageId: string, now: int) returns (found: Option<Entry>)
      requires Valid() && ClockAt(now)
      modifies this
      ensures Valid() && ClockAt(now) && history == old(history) && entries == history[WindowStart(history, now)..]
      ensures found.None? ==> forall e | e in entries :: e.chatId != chatId || e.messageId != messageId
      ensures found.Some? ==> exists i | 0 <= i < |entries| ::
                && entries[i] == found.value && found.value.chatId == chatId && found.value.messageId == messageId
                && forall k | i < k < |entries| :: entries[k].chatId != chatId || entries[k].messageId != messageId
    {
      Refresh(now);
      PrunedIsWindow(history, now);
      for i := |entries| downto 0
        invariant forall k | i <= k < |entries| :: !IsFor(entries[k], chatId, messageId)
      {
        if IsFor(entries[i], chatId, messageId) {
          return Some(entries[i]);
        }
      }
      return None;
    }

    // The newest message of a chat, unless it is older than maxAge at the second clock reading.
    method Latest(chatId: string, maxAge: int, now: int, readAt: int) returns (found: Option<Entry>)
      requires Valid() && ClockAt(now) && now <= readAt
      modifies this
      ensures Valid() && ClockAt(readAt) && history == old(history) && entries == history[WindowStart(history, now)..]
      ensures found.None? ==> forall e | e in entries :: e.chatId != chatId || readAt - e.createdAt > maxAge
      ensures found.Some? ==> exists i | 0 <= i < |entries| ::
                && entries[i] == found.value && found.value.chatId == chatId
                && readAt - found.value.createdAt <= maxAge
                && forall k | i < k < |entries| :: entries[k].chatId != chatId
    {
      Refresh(now);
      PrunedIsWindow(history, now);
      SuffixChronological(history, WindowStart(history, now));
      for i := |entries| downto 0
        invariant forall k | i <= k < |entries| :: !IsRecent(entries[k], chatId, maxAge, readAt)
      {
        if IsRecent(entries[i], chatId, maxAge, readAt) {
          NewerIsYounger(entries, i);
          return Some(entries[i]);
        }
      }
      return None;
    }
  }
}
