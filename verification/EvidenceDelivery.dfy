/** One pass of the evidence pump over a trial's event file, as a step on its cursor and the event table. */
module EvidenceDelivery {
  import opened Outcomes
  import opened ByteStrings
  import opened EvidenceLines
  import opened EvidenceReader

  /** The primary key of `event_rows` (the account is fixed). */
  datatype Key = Key(coreRunId: string, trialId: string, scheduleIdx: int, attempt: int, rowSeq: nat)

  type Table = map<Key, EventRow>

  function KeyAt(run: string, identity: Identity, i: nat): Key {
    Key(run, identity.trialId, identity.scheduleIdx, identity.attempt, i)
  }

  function KeyOf(row: EventRow): Key { KeyAt(row.coreRunId, row.identity, row.rowSeq) }

  /** `insert ... on conflict do update`. */
  function Upsert(table: Table, rows: seq<EventRow>): Table {
    if rows == [] then table else
      var last := rows[|rows| - 1];
      Upsert(table, rows[..|rows| - 1])[KeyOf(last) := last]
  }

  /** What the pump sees of a post. A post that times out may be applied at any later moment, or never. */
  datatype Posting = Acked | Rejected | TimedOut

  datatype Options = Options(maxBatchRows: nat, maxBytesPerRead: nat, maxLineBytes: nat)

  datatype Posted = Posted(ok: bool, table: Table, inFlight: seq<seq<EventRow>>, batches: nat, sent: nat)

  /** The rows in batches, in order, up to the first batch that is not acknowledged. */
  function PostRows(max: nat, rows: seq<EventRow>, outcomes: seq<Posting>, table: Table, inFlight: seq<seq<EventRow>>): Posted
    requires max >= 1
    decreases |rows|
  {
    if rows == [] then Posted(true, table, inFlight, 0, 0) else
      var (batch, rest) := NextBatch(max, rows);
      match Head(outcomes)
      case Acked =>
        var posted := PostRows(max, rest, Later(outcomes), Upsert(table, batch), inFlight);
        posted.(batches := posted.batches + 1, sent := posted.sent + |batch|)
      case Rejected => Posted(false, table, inFlight, 0, 0)
      case TimedOut => Posted(false, table, inFlight + [batch], 0, 0)
  }

  function NextBatch(max: nat, rows: seq<EventRow>): (r: (seq<EventRow>, seq<EventRow>))
    requires max >= 1
    ensures r.0 + r.1 == rows && (rows != [] ==> |r.1| < |rows|)
    ensures |r.0| == if |rows| <= max then |rows| else max
  {
    if |rows| <= max then (rows, []) else (rows[..max], rows[max..])
  }

  function Head(outcomes: seq<Posting>): Posting { if outcomes == [] then Acked else outcomes[0] }

  function Later(outcomes: seq<Posting>): seq<Posting> { if outcomes == [] then [] else outcomes[1..] }

  // ---- what a series of posts comes to ----

  /** How many posts it takes: the quotient, rounded up. */
  function Posts(max: nat, n: nat): nat
    requires max >= 1
  {
    (n + max - 1) / max
  }

  /** The outcome of the post with the given number; posts beyond the list are acknowledged. */
  function OutcomeAt(outcomes: seq<Posting>, i: nat): Posting { if i < |outcomes| then outcomes[i] else Acked }

  /** How many of `n` posts are acknowledged before the first that is not. */
  function Acks(outcomes: seq<Posting>, n: nat): (k: nat)
    ensures k <= n && (forall i: nat :: i < k ==> OutcomeAt(outcomes, i) == Acked)
    ensures k < n ==> OutcomeAt(outcomes, k) != Acked
    decreases n
  {
    if n == 0 then 0
    else
      var before := Acks(outcomes, n - 1);
      if before == n - 1 && OutcomeAt(outcomes, n - 1) == Acked then n else before
  }

  /** The first row that `k` posts leave unsent. */
  function SentBy(max: nat, k: nat, n: nat): (sent: nat)
    ensures sent <= n
  {
    if k * max <= n then k * max else n
  }

  lemma {:induction false} AcksUnique(outcomes: seq<Posting>, n: nat, k: nat)
    requires k <= n && (forall i: nat :: i < k ==> OutcomeAt(outcomes, i) == Acked)
    requires k < n ==> OutcomeAt(outcomes, k) != Acked
    ensures Acks(outcomes, n) == k
  {
    var j := Acks(outcomes, n);
  }

  lemma {:induction false} AcksLater(outcomes: seq<Posting>, n: nat)
    requires n >= 1
    ensures Acks(outcomes, n) == if Head(outcomes) == Acked then 1 + Acks(Later(outcomes), n - 1) else 0
  {
    var k := if Head(outcomes) == Acked then 1 + Acks(Later(outcomes), n - 1) else 0;
    assert Head(outcomes) == OutcomeAt(outcomes, 0);
    forall i: nat ensures OutcomeAt(Later(outcomes), i) == OutcomeAt(outcomes, i + 1) { LaterOutcome(outcomes, i); }
    if k > 0 {
      forall i: nat | i < k ensures OutcomeAt(outcomes, i) == Acked {
        if i > 0 { assert OutcomeAt(Later(outcomes), i - 1) == OutcomeAt(outcomes, i); }
      }
    }
    AcksUnique(outcomes, n, k);
  }

  lemma {:induction false} PostsNext(max: nat, n: nat)
    requires max >= 1
    ensures Posts(max, 0) == 0
    ensures 0 < n <= max ==> Posts(max, n) == 1
    ensures n > max ==> Posts(max, n) == 1 + Posts(max, n - max)
    ensures n > 0 ==> Posts(max, n) >= 1
  {
    if n > max { QuotientNext(n - 1, max); } else if n > 0 { QuotientNext(n - 1, max); SmallQuotient(n - 1, max); }
    SmallQuotient(max - 1, max);
  }

  lemma SmallQuotient(x: nat, max: nat)
    requires x < max
    ensures x / max == 0
  {
  }

  lemma {:induction false} QuotientNext(x: nat, max: nat)
    requires max >= 1
    ensures (x + max) / max == x / max + 1
  {
    var q, r := x / max, x % max;
    assert x == q * max + r && r < max;
    assert x + max == (q + 1) * max + r;
    QuotientIs(x + max, max, q + 1, r);
  }

  lemma {:induction false} QuotientIs(x: nat, max: nat, q: nat, r: nat)
    requires max >= 1 && r < max && x == q * max + r
    ensures x / max == q
  {
    var p := x / max;
    assert x == p * max + x % max;
    assert p < q ==> (p + 1) * max <= q * max;
    assert q < p ==> (q + 1) * max <= p * max;
  }

  lemma {:induction false} UpsertConcat(table: Table, a: seq<EventRow>, b: seq<EventRow>)
    ensures Upsert(table, a + b) == Upsert(Upsert(table, a), b)
  {
    if b == [] {
      assert a + b == a;
    } else {
      assert (a + b)[..|a + b| - 1] == a + b[..|b| - 1];
      UpsertConcat(table, a, b[..|b| - 1]);
    }
  }

  /** The rows that are stored, and the batch that may still arrive, once `k` posts of at most `max` rows have been
      acknowledged and the next, if there is one, has not. */
  ghost predicate PostedAs(max: nat, rows: seq<EventRow>, outcomes: seq<Posting>, before: Table,
                           flight: seq<seq<EventRow>>, ok: bool, after: Table, flightAfter: seq<seq<EventRow>>, k: nat)
    requires max >= 1
  {
    var sent, next := SentBy(max, k, |rows|), SentBy(max, k + 1, |rows|);
    && k == Acks(outcomes, Posts(max, |rows|))
    && (ok <==> k == Posts(max, |rows|)) && (ok <==> sent == |rows|)
    && (!ok ==> sent == k * max && sent < next <= sent + max)
    && after == Upsert(before, rows[..sent])
    && sent <= next
    && flightAfter == flight + if !ok && OutcomeAt(outcomes, k) == TimedOut then [rows[sent..next]] else []
  }

  lemma {:induction false} SentNext(max: nat, k: nat, n: nat)
    requires max >= 1
    ensures SentBy(max, 0, n) == 0
    ensures n > max ==> SentBy(max, k + 1, n) == max + SentBy(max, k, n - max)
    ensures n <= max ==> SentBy(max, k + 1, n) == n
  {
    assert (k + 1) * max == k * max + max && k * max >= 0;
    assert 0 * max == 0;
  }

  lemma {:induction false} PostCounts(max: nat, rows: seq<EventRow>, outcomes: seq<Posting>, table: Table,
                                      inFlight: seq<seq<EventRow>>)
    requires max >= 1
    ensures var p, n := PostRows(max, rows, outcomes, table, inFlight), Posts(max, |rows|);
            p.batches == Acks(outcomes, n) && p.sent == SentBy(max, p.batches, |rows|) && (p.ok <==> p.batches == n)
  {
    PostRowsAs(max, rows, outcomes, table, inFlight);
    hide PostRows, Acks, SentBy, Posts, Upsert;
  }

  /** After `k` acknowledged posts of `sent` rows, the rest comes to what is wanted. */
  ghost predicate Remains(wanted: Posted, k: nat, sent: nat, max: nat, rest: seq<EventRow>, left: seq<Posting>, table: Table,
                          inFlight: seq<seq<EventRow>>)
    requires max >= 1
  {
    var posted := PostRows(max, rest, left, table, inFlight);
    wanted == posted.(batches := k + posted.batches, sent := sent + posted.sent)
  }

  lemma RemainsStep(wanted: Posted, k: nat, sent: nat, max: nat, rest: seq<EventRow>, left: seq<Posting>, table: Table,
                    inFlight: seq<seq<EventRow>>)
    requires max >= 1 && Remains(wanted, k, sent, max, rest, left, table, inFlight)
    ensures rest == [] ==> wanted == Posted(true, table, inFlight, k, sent)
    ensures rest != [] && Head(left) != Acked ==>
              wanted == Posted(false, table, if Head(left) == TimedOut then inFlight + [NextBatch(max, rest).0] else inFlight, k, sent)
    ensures rest != [] && Head(left) == Acked ==>
              Remains(wanted, k + 1, sent + |NextBatch(max, rest).0|, max, NextBatch(max, rest).1, Later(left),
                      Upsert(table, NextBatch(max, rest).0), inFlight)
  {
  }

  lemma {:induction false} SlicesOfRest(max: nat, rows: seq<EventRow>, a: nat, b: nat)
    requires |rows| > max && a <= b <= |rows| - max
    ensures rows[max..][a..b] == rows[max + a..max + b]
    ensures rows[..max] + rows[max..][..a] == rows[..max + a]
  {
  }

  /** One acknowledged post, and what the rest comes to. */
  lemma {:induction false} AckedAs(max: nat, rows: seq<EventRow>, outcomes: seq<Posting>, before: Table,
                                   flight: seq<seq<EventRow>>, ok: bool, after: Table, flightAfter: seq<seq<EventRow>>, k: nat)
    requires max >= 1 && |rows| > max && Head(outcomes) == Acked
    requires PostedAs(max, rows[max..], Later(outcomes), Upsert(before, rows[..max]), flight, ok, after, flightAfter, k)
    ensures PostedAs(max, rows, outcomes, before, flight, ok, after, flightAfter, k + 1)
  {
    hide Posts, Acks, SentBy, Upsert, OutcomeAt, Head, Later;
    var n, rest := |rows|, rows[max..];
    var sent, next := SentBy(max, k, n - max), SentBy(max, k + 1, n - max);
    PostsNext(max, n);
    AcksLater(outcomes, Posts(max, n));
    SentNext(max, k, n);
    SentNext(max, k + 1, n);
    assert (k + 1) * max == k * max + max;
    LaterOutcome(outcomes, k);
    SlicesOfRest(max, rows, sent, next);
    UpsertConcat(before, rows[..max], rest[..sent]);
  }

  lemma LaterOutcome(outcomes: seq<Posting>, i: nat)
    ensures OutcomeAt(Later(outcomes), i) == OutcomeAt(outcomes, i + 1)
  {
  }

  lemma PostRowsAcked(max: nat, rows: seq<EventRow>, outcomes: seq<Posting>, table: Table, inFlight: seq<seq<EventRow>>)
    requires max >= 1 && |rows| > max && Head(outcomes) == Acked
    ensures var q := PostRows(max, rows[max..], Later(outcomes), Upsert(table, rows[..max]), inFlight);
            PostRows(max, rows, outcomes, table, inFlight) == q.(batches := q.batches + 1, sent := q.sent + max)
  {
  }

  /** What the posts of one read come to. */
  lemma {:induction false} PostRowsAs(max: nat, rows: seq<EventRow>, outcomes: seq<Posting>, table: Table,
                                      inFlight: seq<seq<EventRow>>)
    requires max >= 1
    ensures var p := PostRows(max, rows, outcomes, table, inFlight);
            PostedAs(max, rows, outcomes, table, inFlight, p.ok, p.table, p.inFlight, p.batches) && p.sent == SentBy(max, p.batches, |rows|)
    decreases |rows|
  {
    hide *;
    if |rows| > max && Head(outcomes) == Acked {
      var q := PostRows(max, rows[max..], Later(outcomes), Upsert(table, rows[..max]), inFlight);
      PostRowsAs(max, rows[max..], Later(outcomes), Upsert(table, rows[..max]), inFlight);
      PostRowsAcked(max, rows, outcomes, table, inFlight);
      AckedAs(max, rows, outcomes, table, inFlight, q.ok, q.table, q.inFlight, q.batches);
      SentNext(max, q.batches, |rows|);
    } else {
      FirstPostAs(max, rows, outcomes, table, inFlight);
    }
  }

  /** No post, the only post, or a first post that is not acknowledged. */
  lemma {:induction false} FirstPostAs(max: nat, rows: seq<EventRow>, outcomes: seq<Posting>, table: Table,
                                       inFlight: seq<seq<EventRow>>)
    requires max >= 1 && !(|rows| > max && Head(outcomes) == Acked)
    ensures var p := PostRows(max, rows, outcomes, table, inFlight);
            PostedAs(max, rows, outcomes, table, inFlight, p.ok, p.table, p.inFlight, p.batches) && p.sent == SentBy(max, p.batches, |rows|)
  {
    var n := |rows|;
    PostsNext(max, n);
    SentNext(max, 0, n);
    assert inFlight + [] == inFlight && rows[..0] == [] && rows[..n] == rows && 0 * max == 0 && 1 * max == max;
    if rows != [] {
      AcksLater(outcomes, Posts(max, n));
      assert Head(outcomes) == OutcomeAt(outcomes, 0);
      hide Posts;
    }
  }

  datatype Pump = Pump(cursor: Option<Cursor>, table: Table, inFlight: seq<seq<EventRow>>)

  /** The identity of a trial whose contract trace or summary has not appeared. */
  function Unknown(trialName: string): Identity { Identity(trialName, 0, 0, "unknown", "unknown", 0, false) }

  /** The saved cursor, or a fresh one; rewound when the identity appears. */
  function Start(saved: Option<Cursor>, trialName: string, found: Option<Identity>): Cursor {
    var cursor := if saved.Some? then saved.value else FreshCursor(Unknown(trialName));
    if !cursor.identity.enriched && found.Some? then FreshCursor(found.value) else cursor
  }

  /** A file that shrank is read again from its beginning. */
  function Restart(cursor: Cursor, size: nat): Cursor {
    if size < cursor.offset then FreshCursor(cursor.identity) else cursor
  }

  /** The bytes a read returns: at most the limit, and possibly fewer. */
  function Chunk(options: Options, file: Bytes, offset: nat, readLength: nat): Bytes
    requires offset <= |file|
  {
    var limit := if options.maxBytesPerRead < |file| - offset then options.maxBytesPerRead else |file| - offset;
    file[offset..offset + (if readLength < limit then readLength else limit)]
  }

  /** Reads on from a cursor and posts the rows; the new cursor is saved once every batch is acknowledged. */
  function PassFrom(decode: Decode, options: Options, run: string, p: Pump, cursor: Cursor, file: Bytes, readLength: nat,
                    outcomes: seq<Posting>): Pump
    requires options.maxBatchRows >= 1 && cursor.offset <= |file|
  {
    var (next, contents) := Read(decode, options.maxLineBytes, cursor, Chunk(options, file, cursor.offset, readLength));
    var posted := PostRows(options.maxBatchRows, Numbered(run, cursor.identity, cursor.rowSeq, contents), outcomes, p.table, p.inFlight);
    Pump(if posted.ok then Some(next) else p.cursor, posted.table, posted.inFlight)
  }

  /** `pumpTrial`: the file is `None` while it does not exist. */
  function PumpPass(decode: Decode, options: Options, run: string, trialName: string, p: Pump, found: Option<Identity>,
                     file: Option<Bytes>, readLength: nat, outcomes: seq<Posting>): Pump
    requires options.maxBatchRows >= 1
  {
    if file.None? then p else
      var cursor := Restart(Start(p.cursor, trialName, found), |file.value|);
      if cursor.offset == |file.value| then p.(cursor := Some(cursor))
      else PassFrom(decode, options, run, p, cursor, file.value, readLength, outcomes)
  }

  /** Where a pass begins to read, if there is anything to read. */
  function StartReading(saved: Option<Cursor>, trialName: string, found: Option<Identity>, file: Option<Bytes>): (cur: Option<Cursor>)
    ensures cur.Some? ==> file.Some? && cur.value.offset < |file.value|
  {
    if file.None? then None else
      var cursor := Restart(Start(saved, trialName, found), |file.value|);
      if cursor.offset == |file.value| then None else Some(cursor)
  }

  /** The rows of one read. */
  function RowsRead(decode: Decode, options: Options, run: string, cur: Cursor, file: Bytes, readLength: nat): seq<EventRow>
    requires cur.offset <= |file|
  {
    Numbered(run, cur.identity, cur.rowSeq, Read(decode, options.maxLineBytes, cur, Chunk(options, file, cur.offset, readLength)).1)
  }

  // ---- the pump and the table as objects ----

  /** The event table of the control plane, and the posts that may still reach it. */
  class EventTable {
    var rows: Table
    ghost var inFlight: seq<seq<EventRow>>

    constructor ()
      ensures rows == map[] && inFlight == []
    {
      rows, inFlight := map[], [];
    }

    /** `upsertEventRows`. */
    method UpsertRows(batch: seq<EventRow>)
      modifies this`rows
      ensures rows == Upsert(old(rows), batch)
    {
      assert batch[..0] == [];
      for i := 0 to |batch|
        invariant rows == Upsert(old(rows), batch[..i])
      {
        assert batch[..i + 1][..i] == batch[..i];
        rows := rows[KeyOf(batch[i]) := batch[i]];
      }
      assert batch[..|batch|] == batch;
    }

    /** A post as the pump sees it: false when it fails or times out. */
    method PostEventRows(batch: seq<EventRow>, outcome: Posting) returns (acked: bool)
      modifies this
      ensures acked == (outcome == Acked)
      ensures rows == if outcome == Acked then Upsert(old(rows), batch) else old(rows)
      ensures inFlight == if outcome == TimedOut then old(inFlight) + [batch] else old(inFlight)
    {
      if outcome == Acked {
        UpsertRows(batch);
      } else if outcome == TimedOut {
        inFlight := inFlight + [batch];
      }
      return outcome == Acked;
    }
  }

  class EvidencePump {
    const decode: Decode
    const options: Options
    var cursors: map<string, Cursor>
    var rowsPosted: nat
    var batchesPosted: nat
    var postFailures: nat

    ghost predicate Valid() { options.maxBatchRows >= 1 }

    constructor (decode: Decode, options: Options)
      requires options.maxBatchRows >= 1
      ensures Valid() && this.decode == decode && this.options == options
      ensures cursors == map[] && rowsPosted == batchesPosted == postFailures == 0
    {
      this.decode, this.options := decode, options;
      cursors, rowsPosted, batchesPosted, postFailures := map[], 0, 0, 0;
    }

    function CursorAt(path: string): Option<Cursor>
      reads this
    {
      if path in cursors then Some(cursors[path]) else None
    }

    ghost function State(path: string, table: EventTable): Pump
      reads this, table
    {
      Pump(CursorAt(path), table.rows, table.inFlight)
    }

    /** The loop over the batches of one pass. */
    method PostBatches(rows: seq<EventRow>, table: EventTable, outcomes: seq<Posting>) returns (ok: bool)
      requires Valid()
      modifies table, this`rowsPosted, this`batchesPosted, this`postFailures
      ensures batchesPosted >= old(batchesPosted) && rowsPosted >= old(rowsPosted)
      ensures Posted(ok, table.rows, table.inFlight, batchesPosted - old(batchesPosted), rowsPosted - old(rowsPosted))
              == PostRows(options.maxBatchRows, rows, outcomes, old(table.rows), old(table.inFlight))
      ensures postFailures == old(postFailures) + (if ok then 0 else 1)
    {
      var rest, left := rows, outcomes;
      ghost var k: nat, sent: nat := 0, 0;
      ghost var wanted := PostRows(options.maxBatchRows, rows, outcomes, table.rows, table.inFlight);
      assert Remains(wanted, k, sent, options.maxBatchRows, rest, left, table.rows, table.inFlight);
      hide *;
      while rest != []
        invariant batchesPosted == old(batchesPosted) + k && rowsPosted == old(rowsPosted) + sent
        invariant postFailures == old(postFailures)
        invariant Remains(wanted, k, sent, options.maxBatchRows, rest, left, table.rows, table.inFlight)
        decreases |rest|
      {
        RemainsStep(wanted, k, sent, options.maxBatchRows, rest, left, table.rows, table.inFlight);
        var (batch, others) := NextBatch(options.maxBatchRows, rest);
        var acked := table.PostEventRows(batch, Head(left));
        if !acked {
          postFailures := postFailures + 1;
          return false;
        }
        batchesPosted := batchesPosted + 1;
        rowsPosted := rowsPosted + |batch|;
        rest, left := others, Later(left);
        k, sent := k + 1, sent + |batch|;
      }
      RemainsStep(wanted, k, sent, options.maxBatchRows, rest, left, table.rows, table.inFlight);
      return true;
    }

    /** `pumpTrial`. */
    method PumpTrial(table: EventTable, run: string, path: string, trialName: string, found: Option<Identity>,
                     file: Option<Bytes>, readLength: nat, outcomes: seq<Posting>)
      requires Valid()
      modifies this, table
      ensures State(path, table) ==
              PumpPass(decode, options, run, trialName, old(State(path, table)), found, file, readLength, outcomes)
      ensures forall other :: other != path ==> CursorAt(other) == old(CursorAt(other))
      ensures var cur := StartReading(old(CursorAt(path)), trialName, found, file);
              if cur.None? then rowsPosted == old(rowsPosted) && batchesPosted == old(batchesPosted) && postFailures == old(postFailures)
              else
                var n := |RowsRead(decode, options, run, cur.value, file.value, readLength)|;
                var k := Acks(outcomes, Posts(options.maxBatchRows, n));
                && batchesPosted == old(batchesPosted) + k
                && rowsPosted == old(rowsPosted) + SentBy(options.maxBatchRows, k, n)
                && postFailures == old(postFailures) + if k == Posts(options.maxBatchRows, n) then 0 else 1
    {
      hide Read, PostRows, Numbered, Chunk, Posts, Acks, SentBy;
      var cursor := if path in cursors then cursors[path] else FreshCursor(Unknown(trialName));
      if !cursor.identity.enriched && found.Some? {
        cursor := FreshCursor(found.value);
      }
      if file.None? { return; }
      var size := |file.value|;
      if size < cursor.offset {
        cursor := FreshCursor(cursor.identity);
      }
      assert cursor == Restart(Start(old(CursorAt(path)), trialName, found), size);
      hide Start, Restart, FreshCursor, Unknown;
      if size == cursor.offset {
        cursors := cursors[path := cursor];
        return;
      }
      var chunk := Chunk(options, file.value, cursor.offset, readLength);
      var rows, next := ReadRows(decode, options.maxLineBytes, run, cursor, chunk);
      PostCounts(options.maxBatchRows, rows, outcomes, table.rows, table.inFlight);
      var ok := PostBatches(rows, table, outcomes);
      if ok {
        cursors := cursors[path := next];
      }
    }
  }
}
