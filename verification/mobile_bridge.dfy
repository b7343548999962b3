/** Mobile event ingest: idempotent by (device, key), acknowledged by growing ids, read back in pages. */
module MobileBridge {
  import opened Text

  datatype Confidence = Absent | NotNumeric | Numeric(value: real)

  // An event as sent; `complete` says that every required field is there and not empty.
  datatype Envelope = Envelope(
    complete: bool,
    deviceId: string,
    eventId: string,
    kind: string,
    idempotencyKey: string,
    payloadIsObject: bool,
    confidence: Confidence)

  datatype Error = MissingFields | WrongDevice | BadPayload | BadConfidence

  datatype Row = Row(ackId: nat, deviceId: string, idempotencyKey: string, eventId: string, kind: string)

  datatype Ack = Ack(ackId: nat, idempotencyKey: string, duplicate: bool)

  datatype Result<T> = Ok(value: T) | Err(error: Error)

  datatype Receipt = Receipt(accepted: nat, duplicates: nat, acks: seq<Ack>)

  // The event table; ids come from a counter that never goes back.
  datatype Table = Table(rows: seq<Row>, lastAck: nat)

  function Rejection(device: string, e: Envelope): Option<Error> {
    if !e.complete then Some(MissingFields)
    else if e.deviceId != device then Some(WrongDevice)
    else if !e.payloadIsObject then Some(BadPayload)
    else match e.confidence
      case Absent => None
      case NotNumeric => Some(BadConfidence)
      case Numeric(c) => if c < 0.0 || c > 1.0 then Some(BadConfidence) else None
  }

  predicate Keyed(r: Row, device: string, key: string) {
    r.deviceId == device && r.idempotencyKey == key
  }

  // SELECT ack_id ... WHERE device_id = ? AND idempotency_key = ?
  function FindAck(rows: seq<Row>, device: string, key: string): (a: Option<nat>)
    ensures a.None? <==> forall i | 0 <= i < |rows| :: !Keyed(rows[i], device, key)
    ensures a.Some? ==> exists i | 0 <= i < |rows| :: Keyed(rows[i], device, key) && rows[i].ackId == a.value
  {
    if rows == [] then None
    else if Keyed(rows[0], device, key) then Some(rows[0].ackId)
    else
      var a := FindAck(rows[1..], device, key);
      assert a.Some? ==>
          exists i | 0 <= i < |rows| - 1 :: Keyed(rows[1..][i], device, key) && rows[1..][i] == rows[i + 1];
      assert forall i | 1 <= i < |rows| :: rows[i] == rows[1..][i - 1];
      a
  }

  function Insert(t: Table, device: string, e: Envelope): Table {
    Table(t.rows + [Row(t.lastAck + 1, device, e.idempotencyKey, e.eventId, e.kind)], t.lastAck + 1)
  }

  // One event: the unique index turns a repeated key into a duplicate.
  function RecordedTable(t: Table, device: string, e: Envelope): Table {
    if Rejection(device, e).Some? || FindAck(t.rows, device, e.idempotencyKey).Some? then t else Insert(t, device, e)
  }

  function RecordedAck(t: Table, device: string, e: Envelope): Result<Ack> {
    match Rejection(device, e)
    case Some(error) => Err(error)
    case None =>
      match FindAck(t.rows, device, e.idempotencyKey)
      case Some(id) => Ok(Ack(id, e.idempotencyKey, true))
      case None => Ok(Ack(t.lastAck + 1, e.idempotencyKey, false))
  }

  // One row per device and key, ids growing down the table and never above the counter.
  predicate Sound(t: Table) {
    && (forall i, j | 0 <= i < j < |t.rows| :: t.rows[i].ackId < t.rows[j].ackId)
    && (forall i | 0 <= i < |t.rows| :: 1 <= t.rows[i].ackId <= t.lastAck)
    && (forall i, j | 0 <= i < j < |t.rows| :: !Keyed(t.rows[j], t.rows[i].deviceId, t.rows[i].idempotencyKey))
  }

  lemma {:induction false} RecordSound(t: Table, device: string, e: Envelope)
    requires Sound(t)
    ensures Sound(RecordedTable(t, device, e))
    ensures t.rows <= RecordedTable(t, device, e).rows
  {}

  // The table and the outcome of a batch; it stops at the first rejected event and keeps what came before.
  function IngestedTable(t: Table, device: string, events: seq<Envelope>): Table
    decreases |events|
  {
    if events == [] then t
    else if Rejection(device, events[0]).Some? then t
    else IngestedTable(RecordedTable(t, device, events[0]), device, events[1..])
  }

  class MobileBridgeStore {
    var table: Table

    constructor ()
      ensures table == Table([], 0)
    {
      table := Table([], 0);
    }

    method RecordEvent(device: string, e: Envelope) returns (r: Result<Ack>)
      modifies this
      ensures table == RecordedTable(old(table), device, e)
      ensures r == RecordedAck(old(table), device, e)
      ensures r.Err? <==> Rejection(device, e).Some?
      ensures r.Ok? ==> FindAck(table.rows, device, e.idempotencyKey) == Some(r.value.ackId)
      ensures r.Ok? && !r.value.duplicate <==> table != old(table)
    {
      if Rejection(device, e).None? {
        AckFound(table, device, e);
      }
      var rejection := Rejection(device, e);
      if rejection.Some? {
        return Err(rejection.value);
      }
      var existing := FindAck(table.rows, device, e.idempotencyKey);
      if existing.Some? {
        return Ok(Ack(existing.value, e.idempotencyKey, true));
      }
      table := Insert(table, device, e);
      return Ok(Ack(table.lastAck, e.idempotencyKey, false));
    }

    // A rejected event raises out of the batch: no receipt, but the rows before it stay.
    method IngestEvents(device: string, events: seq<Envelope>) returns (r: Result<Receipt>)
      requires Sound(table)
      modifies this
      ensures Sound(table) && old(table.rows) <= table.rows
      ensures table == IngestedTable(old(table), device, events)
      ensures r.Err? <==> exists i | 0 <= i < |events| :: Rejection(device, events[i]).Some?
      ensures r.Err? ==> exists i | 0 <= i < |events| ::
                && Rejection(device, events[i]) == Some(r.error)
                && forall k | 0 <= k < i :: Rejection(device, events[k]).None?
      ensures r.Ok? ==> r.value.accepted + r.value.duplicates == |events|
                        && r.value.accepted == |table.rows| - |old(table.rows)|
                        && Answers(table.rows, device, events, r.value.acks)
    {
      var acks := [];
      var duplicates := 0;
      var i := 0;
      assert events[0..] == events && events[..0] == [];
      while i < |events|
        invariant 0 <= i <= |events| && duplicates <= i
        invariant Ingesting(old(table), table, device, events, i, acks, duplicates)
      {
        IngestStep(old(table), table, device, events, i, acks, duplicates);
        var ack := RecordEvent(device, events[i]);
        if ack.Err? {
          return Err(ack.error);
        }
        acks := acks + [ack.value];
        duplicates := duplicates + if ack.value.duplicate then 1 else 0;
        i := i + 1;
      }
      assert events[..i] == events && events[i..] == [];
      return Ok(Receipt(|acks| - duplicates, duplicates, acks));
    }

    // SELECT ... WHERE device_id = ? AND ack_id > ? ORDER BY ack_id LIMIT ?
    method ListAcks(device: string, after: int, limit: int) returns (page: seq<Row>)
      ensures page == Page(table.rows, device, after, limit)
    {
      var wanted := PageSize(limit);
      var start := if after < 0 then 0 else after;
      page := [];
      for i := 0 to |table.rows|
        invariant page == First(Behind(table.rows[..i], device, start), wanted)
      {
        assert table.rows[..i + 1][..i] == table.rows[..i];
        var row := table.rows[i];
        if row.deviceId == device && row.ackId > start && |page| < wanted {
          page := page + [row];
        }
      }
      assert table.rows[..|table.rows|] == table.rows;
    }
  }

  // A batch that started on table t0 has recorded its first i events, none of them rejected.
  ghost predicate Ingesting(t0: Table, t: Table, device: string, events: seq<Envelope>, i: nat, acks: seq<Ack>,
                            duplicates: nat)
    requires i <= |events|
  {
    && Sound(t) && t0.rows <= t.rows
    && (forall k | 0 <= k < i :: Rejection(device, events[k]).None?)
    && IngestedTable(t0, device, events) == IngestedTable(t, device, events[i..])
    && i - duplicates == |t.rows| - |t0.rows|
    && Answers(t.rows, device, events[..i], acks)
  }

  lemma {:induction false} IngestStep(t0: Table, t: Table, device: string, events: seq<Envelope>, i: nat,
                                      acks: seq<Ack>, duplicates: nat)
    requires i < |events| && Ingesting(t0, t, device, events, i, acks, duplicates)
    ensures var t', ack := RecordedTable(t, device, events[i]), RecordedAck(t, device, events[i]);
            if ack.Err? then IngestedTable(t0, device, events) == t' && Sound(t') && t0.rows <= t'.rows
            else Ingesting(t0, t', device, events, i + 1, acks + [ack.value],
                           duplicates + if ack.value.duplicate then 1 else 0)
  {
    assert events[i..][0] == events[i] && events[i..][1..] == events[i + 1..];
    assert events[..i + 1] == events[..i] + [events[i]];
    RecordSound(t, device, events[i]);
    if Rejection(device, events[i]).None? {
      AnswerAdded(t, device, events[..i], acks, events[i]);
    }
  }

  // Every acknowledgement names the stored row of its event.
  ghost predicate Answers(rows: seq<Row>, device: string, events: seq<Envelope>, acks: seq<Ack>) {
    && |acks| == |events|
    && forall k | 0 <= k < |acks| ::
         acks[k].idempotencyKey == events[k].idempotencyKey
         && FindAck(rows, device, events[k].idempotencyKey) == Some(acks[k].ackId)
  }

  function PageSize(limit: int): (n: nat)
    ensures 1 <= n <= 500 && (n < limit ==> n == 500) && (n > limit ==> n == 1)
  {
    if limit < 1 then 1 else if limit > 500 then 500 else limit
  }

  // A device's rows with a larger ack id, in table order.
  function Behind(rows: seq<Row>, device: string, after: int): seq<Row> {
    if rows == [] then []
    else
      var before, r := Behind(rows[..|rows| - 1], device, after), rows[|rows| - 1];
      if r.deviceId == device && r.ackId > after then before + [r] else before
  }

  function First<T>(s: seq<T>, n: nat): seq<T> {
    if |s| <= n then s else s[..n]
  }

  function Page(rows: seq<Row>, device: string, after: int, limit: int): seq<Row> {
    First(Behind(rows, device, if after < 0 then 0 else after), PageSize(limit))
  }

  // ------------------------------------------------------- acknowledgements stay what they were

  /** An acknowledged id never changes: later rows leave the first match alone. */
  lemma {:induction false} AckStable(rows: seq<Row>, more: seq<Row>, device: string, key: string)
    requires FindAck(rows, device, key).Some?
    ensures FindAck(rows + more, device, key) == FindAck(rows, device, key)
  {
    if !Keyed(rows[0], device, key) {
      assert (rows + more)[1..] == rows[1..] + more;
      AckStable(rows[1..], more, device, key);
    }
  }

  lemma {:induction false} AckNew(rows: seq<Row>, row: Row)
    requires FindAck(rows, row.deviceId, row.idempotencyKey).None?
    ensures FindAck(rows + [row], row.deviceId, row.idempotencyKey) == Some(row.ackId)
  {
    if rows == [] {
      assert rows + [row] == [row];
    } else {
      assert !Keyed(rows[0], row.deviceId, row.idempotencyKey);
      assert (rows + [row])[1..] == rows[1..] + [row];
      assert forall i | 0 <= i < |rows| - 1 :: rows[1..][i] == rows[i + 1];
      AckNew(rows[1..], row);
    }
  }

  lemma {:induction false} AckFound(t: Table, device: string, e: Envelope)
    requires Rejection(device, e).None?
    ensures FindAck(RecordedTable(t, device, e).rows, device, e.idempotencyKey)
         == Some(RecordedAck(t, device, e).value.ackId)
  {
    if FindAck(t.rows, device, e.idempotencyKey).None? {
      AckNew(t.rows, Row(t.lastAck + 1, device, e.idempotencyKey, e.eventId, e.kind));
    }
  }

  lemma {:induction false} AnswerAdded(t: Table, device: string, events: seq<Envelope>, acks: seq<Ack>, e: Envelope)
    requires Answers(t.rows, device, events, acks) && Rejection(device, e).None?
    ensures Answers(RecordedTable(t, device, e).rows, device, events + [e], acks + [RecordedAck(t, device, e).value])
  {
    var t' := RecordedTable(t, device, e);
    AckFound(t, device, e);
    forall k | 0 <= k < |acks|
      ensures FindAck(t'.rows, device, events[k].idempotencyKey) == Some(acks[k].ackId)
    {
      AckStable(t.rows, t'.rows[|t.rows|..], device, events[k].idempotencyKey);
      assert t'.rows == t.rows + t'.rows[|t.rows|..];
    }
  }

  /** Sending an event again is a duplicate with the same id, and changes nothing. */
  lemma {:induction false} RetryIsDuplicate(t: Table, device: string, e: Envelope)
    requires Rejection(device, e).None?
    ensures var t' := RecordedTable(t, device, e);
            && RecordedTable(t', device, e) == t'
            && RecordedAck(t', device, e) == Ok(Ack(RecordedAck(t, device, e).value.ackId, e.idempotencyKey, true))
  {
    AckFound(t, device, e);
  }

  // ------------------------------------------------------- paging while events arrive

  function DeviceRows(rows: seq<Row>, device: string): seq<Row> {
    Behind(rows, device, 0)
  }

  lemma {:induction false} BehindGrows(rows: seq<Row>, more: seq<Row>, device: string, after: int)
    ensures Behind(rows, device, after) <= Behind(rows + more, device, after)
  {
    if more == [] {
      assert rows + more == rows;
    } else {
      var n := |more| - 1;
      assert (rows + more)[..|rows| + n] == rows + more[..n];
      BehindGrows(rows, more[..n], device, after);
    }
  }

  predicate Growing(rows: seq<Row>) {
    forall i, j | 0 <= i < j < |rows| :: rows[i].ackId < rows[j].ackId
  }

  lemma {:induction false} GrowingSnoc(rows: seq<Row>, r: Row)
    requires Growing(rows) && forall i | 0 <= i < |rows| :: rows[i].ackId < r.ackId
    ensures Growing(rows + [r])
  {}

  lemma {:induction false} GrowingBefore(rows: seq<Row>, n: nat)
    requires Growing(rows) && n < |rows|
    ensures Growing(rows[..n]) && forall r | r in rows[..n] :: r.ackId < rows[n].ackId
  {}

  lemma {:induction false} BehindFacts(rows: seq<Row>, device: string, after: int)
    requires Growing(rows)
    ensures Growing(Behind(rows, device, after))
    ensures forall i | 0 <= i < |Behind(rows, device, after)| :: Behind(rows, device, after)[i] in rows
  {
    BehindWithin(rows, device, after);
    if rows != [] {
      var n := |rows| - 1;
      var before := Behind(rows[..n], device, after);
      GrowingBefore(rows, n);
      BehindFacts(rows[..n], device, after);
      assert forall i | 0 <= i < |before| :: before[i] in rows[..n];
      GrowingSnoc(before, rows[n]);
    }
  }

  lemma {:induction false} BehindWithin(rows: seq<Row>, device: string, after: int)
    ensures forall i | 0 <= i < |Behind(rows, device, after)| :: Behind(rows, device, after)[i] in rows
  {
    if rows != [] {
      BehindWithin(rows[..|rows| - 1], device, after);
    }
  }

  /** A device's rows are exactly the table rows that carry its id. */
  lemma {:induction false} DeviceRowsAre(rows: seq<Row>, device: string, r: Row)
    requires forall i | 0 <= i < |rows| :: rows[i].ackId >= 1
    ensures r in DeviceRows(rows, device) <==> r in rows && r.deviceId == device
  {
    if rows != [] {
      var n := |rows| - 1;
      assert rows == rows[..n] + [rows[n]];
      DeviceRowsAre(rows[..n], device, r);
    }
  }

  // The rows behind the k-th row of a device are its rows from the next one on.
  lemma {:induction false} BehindCursor(rows: seq<Row>, device: string, k: nat)
    requires Growing(rows) && k < |DeviceRows(rows, device)|
    ensures Behind(rows, device, DeviceRows(rows, device)[k].ackId) == DeviceRows(rows, device)[k + 1..]
  {
    var all := DeviceRows(rows, device);
    var n := |rows| - 1;
    var before := DeviceRows(rows[..n], device);
    BehindFacts(rows, device, 0);
    assert forall i | 0 <= i < n :: rows[..n][i] == rows[i];
    if k < |before| {
      BehindCursor(rows[..n], device, k);
      BehindFacts(rows[..n], device, 0);
      assert before[k] in rows[..n];
    } else {
      BehindNothing(rows, device, rows[n].ackId);
    }
  }

  lemma {:induction false} BehindNothing(rows: seq<Row>, device: string, after: int)
    requires forall i | 0 <= i < |rows| :: rows[i].ackId <= after
    ensures Behind(rows, device, after) == []
  {
    if rows != [] {
      BehindNothing(rows[..|rows| - 1], device, after);
    }
  }

  // Where a client that has read these rows continues.
  function Cursor(seen: seq<Row>): int {
    if seen == [] then 0 else seen[|seen| - 1].ackId
  }

  /** A page is the next rows of the device, and it is empty only when none are left. */
  lemma {:induction false} PageContinues(rows: seq<Row>, device: string, seen: seq<Row>, limit: int)
    requires Growing(rows) && seen <= DeviceRows(rows, device)
    ensures var page := Page(rows, device, Cursor(seen), limit);
            && seen + page <= DeviceRows(rows, device)
            && (page == [] <==> seen == DeviceRows(rows, device))
  {
    var all := DeviceRows(rows, device);
    if seen != [] {
      BehindCursor(rows, device, |seen| - 1);
      assert all[|seen| - 1] == seen[|seen| - 1];
    }
    assert Behind(rows, device, Cursor(seen)) == all[|seen|..];
    assert all == seen + all[|seen|..];
  }

  datatype Op = Ingest(device: string, events: seq<Envelope>) | NextPage(limit: int)

  datatype Session = Session(table: Table, seen: seq<Row>)

  function Do(s: Session, device: string, op: Op): Session {
    match op
    case Ingest(d, events) => s.(table := IngestedTable(s.table, d, events))
    case NextPage(limit) => s.(seen := s.seen + Page(s.table.rows, device, Cursor(s.seen), limit))
  }

  function DoAll(device: string, ops: seq<Op>): Session {
    if ops == [] then Session(Table([], 0), []) else Do(DoAll(device, ops[..|ops| - 1]), device, ops[|ops| - 1])
  }

  lemma {:induction false} IngestSound(t: Table, device: string, events: seq<Envelope>)
    requires Sound(t)
    ensures Sound(IngestedTable(t, device, events)) && t.rows <= IngestedTable(t, device, events).rows
    decreases |events|
  {
    if events != [] && Rejection(device, events[0]).None? {
      RecordSound(t, device, events[0]);
      IngestSound(RecordedTable(t, device, events[0]), device, events[1..]);
    }
  }

  /** Under any interleaving of batches, failed batches, retries and pages of any size, a client has
      read exactly the first rows of its device, each once and in order. */
  lemma {:induction false} PagingListsOnce(device: string, ops: seq<Op>)
    ensures var s := DoAll(device, ops);
            Sound(s.table) && s.seen <= DeviceRows(s.table.rows, device)
  {
    if ops != [] {
      PagingListsOnce(device, ops[..|ops| - 1]);
      var s := DoAll(device, ops[..|ops| - 1]);
      match ops[|ops| - 1] {
        case Ingest(d, events) =>
          IngestSound(s.table, d, events);
          var rows := IngestedTable(s.table, d, events).rows;
          assert rows == s.table.rows + rows[|s.table.rows|..];
          BehindGrows(s.table.rows, rows[|s.table.rows|..], device, 0);
        case NextPage(limit) =>
          PageContinues(s.table.rows, device, s.seen, limit);
      }
    }
  }

  // ------------------------------------------------------- which events are stored

  predicate Confident(c: Confidence) {
    c.Absent? || (c.Numeric? && 0.0 <= c.value <= 1.0)
  }

  // An event this device may send.
  predicate Acceptable(device: string, e: Envelope) {
    e.complete && e.deviceId == device && e.payloadIsObject && Confident(e.confidence)
  }

  // The row of this envelope, under some id.
  predicate RowOf(r: Row, e: Envelope) {
    r.deviceId == e.deviceId && r.idempotencyKey == e.idempotencyKey && r.eventId == e.eventId && r.kind == e.kind
  }

  // Some batch of this device brought an acceptable envelope with this row.
  ghost predicate Brought(ops: seq<Op>, r: Row) {
    exists k, i | 0 <= k < |ops| && ops[k].Ingest? && 0 <= i < |ops[k].events| ::
      ops[k].device == r.deviceId && RowOf(r, ops[k].events[i]) && Acceptable(r.deviceId, ops[k].events[i])
  }

  /** Which events a store refuses, with which error: the first of the four checks that fails names it.
      What passes them all is answered with the id of a row of its own key. */
  lemma {:induction false} RefusedExactly(t: Table, device: string, e: Envelope)
    ensures var r := RecordedAck(t, device, e);
            && (r.Ok? <==> Acceptable(device, e))
            && (r == Err(MissingFields) <==> !e.complete)
            && (r == Err(WrongDevice) <==> e.complete && e.deviceId != device)
            && (r == Err(BadPayload) <==> e.complete && e.deviceId == device && !e.payloadIsObject)
            && (r == Err(BadConfidence) <==>
                  e.complete && e.deviceId == device && e.payloadIsObject && !Confident(e.confidence))
            && (r.Err? ==> RecordedTable(t, device, e) == t)
            && (r.Ok? ==> exists i | 0 <= i < |RecordedTable(t, device, e).rows| ::
                  var row := RecordedTable(t, device, e).rows[i];
                  row.ackId == r.value.ackId && Keyed(row, device, e.idempotencyKey))
  {
    if Acceptable(device, e) {
      AckFound(t, device, e);
    }
  }

  // A batch only adds rows of acceptable events of its own.
  lemma {:induction false} BatchBrings(t: Table, device: string, events: seq<Envelope>, r: Row)
    requires r in IngestedTable(t, device, events).rows && r !in t.rows
    ensures r.deviceId == device
    ensures exists i | 0 <= i < |events| :: RowOf(r, events[i]) && Acceptable(device, events[i])
    decreases |events|
  {
    var next := RecordedTable(t, device, events[0]);
    RefusedExactly(t, device, events[0]);
    if r in next.rows {
      assert next.rows == t.rows + [r];
      assert RowOf(r, events[0]) && Acceptable(device, events[0]);
    } else {
      BatchBrings(next, device, events[1..], r);
      var i :| 0 <= i < |events| - 1 && RowOf(r, events[1..][i]) && Acceptable(device, events[1..][i]);
      assert RowOf(r, events[i + 1]) && Acceptable(device, events[i + 1]);
    }
  }

  /** In every run each stored row was brought by a complete event that names the row's own device,
      has an object as payload and a confidence that is absent or between 0 and 1. */
  lemma {:induction false} RowsBrought(device: string, ops: seq<Op>, r: Row)
    requires r in DoAll(device, ops).table.rows
    ensures Brought(ops, r)
  {
    var n := |ops| - 1;
    var before := DoAll(device, ops[..n]);
    if r in before.table.rows {
      RowsBrought(device, ops[..n], r);
      BroughtEarlier(ops, r);
    } else {
      BatchBrings(before.table, ops[n].device, ops[n].events, r);
    }
  }

  lemma {:induction false} BroughtEarlier(ops: seq<Op>, r: Row)
    requires ops != [] && Brought(ops[..|ops| - 1], r)
    ensures Brought(ops, r)
  {
    var before := ops[..|ops| - 1];
    var k, i :| 0 <= k < |before| && before[k].Ingest? && 0 <= i < |before[k].events|
                && before[k].device == r.deviceId && RowOf(r, before[k].events[i])
                && Acceptable(r.deviceId, before[k].events[i]);
    assert ops[k] == before[k];
  }

  /** What a batch stores: after it every key of its events up to the first refused one has a row. */
  lemma {:induction false} BatchStores(t: Table, device: string, events: seq<Envelope>, n: nat)
    requires n < |events| && forall i | 0 <= i <= n :: Acceptable(device, events[i])
    ensures exists r | r in IngestedTable(t, device, events).rows :: Keyed(r, device, events[n].idempotencyKey)
    decreases |events|
  {
    var next := RecordedTable(t, device, events[0]);
    RefusedExactly(t, device, events[0]);
    if n == 0 {
      var i :| 0 <= i < |next.rows| && Keyed(next.rows[i], device, events[0].idempotencyKey);
      RowsStay(next, device, events[1..]);
      assert next.rows[i] in IngestedTable(next, device, events[1..]).rows;
    } else {
      assert forall i | 0 <= i <= n - 1 :: events[1..][i] == events[i + 1];
      BatchStores(next, device, events[1..], n - 1);
    }
  }

  lemma {:induction false} RowsStay(t: Table, device: string, events: seq<Envelope>)
    ensures t.rows <= IngestedTable(t, device, events).rows
    decreases |events|
  {
    if events != [] && Rejection(device, events[0]).None? {
      RowsStay(RecordedTable(t, device, events[0]), device, events[1..]);
    }
  }
}
