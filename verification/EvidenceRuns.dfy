/** Whole runs of the evidence pump over one growing event file: what the event table holds, whatever
    passes fail, time out, or are applied late. */
module EvidenceRuns {
  import opened Outcomes
  import opened ByteStrings
  import opened EvidenceLines
  import opened EvidenceReader
  import opened EvidenceChunks
  import opened EvidenceDelivery

  /** One trial of one core run, and the identity that appears when the runner writes it. */
  datatype Trial = Trial(options: Options, run: string, name: string, known: Identity) {
    predicate Valid() { options.maxBatchRows >= 1 && known.enriched }

    function Cap(): nat { options.maxLineBytes }
  }

  /** The event file, and the pump's view of it. */
  datatype World = World(file: Bytes, pump: Pump)

  datatype Step =
    | Grow(more: Bytes)
    | Pass(identified: bool, readLength: nat, outcomes: seq<Posting>)
    | Deliver(post: nat)
    | Foreign(rows: seq<EventRow>)

  const START: World := World([], Pump(None, map[], []))

  predicate SameSlot(a: Identity, b: Identity) {
    a.trialId == b.trialId && a.scheduleIdx == b.scheduleIdx && a.attempt == b.attempt
  }

  /** The keys under which this trial's rows can be stored. */
  predicate Owned(t: Trial, k: Key) {
    k == KeyAt(t.run, Unknown(t.name), k.rowSeq) || k == KeyAt(t.run, t.known, k.rowSeq)
  }

  predicate Ours(t: Trial, identity: Identity) { identity == Unknown(t.name) || identity == t.known }

  function Next(decode: Decode, t: Trial, w: World, step: Step): World
    requires t.Valid()
  {
    match step
    case Grow(more) => w.(file := w.file + more)
    case Pass(identified, readLength, outcomes) =>
      w.(pump := PumpPass(decode, t.options, t.run, t.name, w.pump, if identified then Some(t.known) else None,
                          Some(w.file), readLength, outcomes))
    case Deliver(k) =>
      if k >= |w.pump.inFlight| then w else
        w.(pump := w.pump.(table := Upsert(w.pump.table, w.pump.inFlight[k]),
                           inFlight := w.pump.inFlight[..k] + w.pump.inFlight[k + 1..]))
    case Foreign(rows) =>
      if exists r :: r in rows && Owned(t, KeyOf(r)) then w
      else w.(pump := w.pump.(table := Upsert(w.pump.table, rows)))
  }

  function After(decode: Decode, t: Trial, steps: seq<Step>): World
    requires t.Valid()
  {
    if steps == [] then START else Next(decode, t, After(decode, t, steps[..|steps| - 1]), steps[|steps| - 1])
  }

  // ---- the invariant ----

  /** A row of this trial: it is the row of its number in the final file `w`, and that line has been seen. */
  ghost predicate Good(decode: Decode, t: Trial, w: Bytes, limit: nat, row: EventRow) {
    && row.coreRunId == t.run && Ours(t, row.identity)
    && row.rowSeq < limit && RowTrue(decode, t.Cap(), w, row.rowSeq, row.content)
  }

  ghost predicate AllGood(decode: Decode, t: Trial, w: Bytes, limit: nat, rows: seq<EventRow>) {
    forall j :: 0 <= j < |rows| ==> Good(decode, t, w, limit, rows[j])
  }

  ghost predicate TableGood(decode: Decode, t: Trial, w: Bytes, limit: nat, table: Table) {
    forall k :: k in table ==> KeyOf(table[k]) == k && (Owned(t, k) ==> Good(decode, t, w, limit, table[k]))
  }

  ghost predicate FlightGood(decode: Decode, t: Trial, w: Bytes, limit: nat, inFlight: seq<seq<EventRow>>) {
    forall b :: 0 <= b < |inFlight| ==> AllGood(decode, t, w, limit, inFlight[b])
  }

  /** Every row below `n` is stored. */
  ghost predicate Stored(t: Trial, identity: Identity, n: nat, table: Table) {
    forall i: nat :: i < n ==> KeyAt(t.run, identity, i) in table
  }

  /** The cursor has read a prefix of the file and counts its rows. */
  ghost predicate CursorGood(decode: Decode, t: Trial, file: Bytes, cur: Cursor) {
    && cur.offset <= |file| && At(t.Cap(), cur, file[..cur.offset])
    && cur.rowSeq == RowCount(decode, t.Cap(), file[..cur.offset]) && Ours(t, cur.identity)
  }

  ghost predicate PumpGood(decode: Decode, t: Trial, w: Bytes, limit: nat, p: Pump) {
    && TableGood(decode, t, w, limit, p.table)
    && FlightGood(decode, t, w, limit, p.inFlight)
    && (p.cursor.Some? ==> Stored(t, p.cursor.value.identity, p.cursor.value.rowSeq, p.table))
  }

  ghost predicate Inv(decode: Decode, t: Trial, w: Bytes, s: World) {
    && s.file <= w
    && PumpGood(decode, t, w, RowCount(decode, t.Cap(), s.file), s.pump)
    && (s.pump.cursor.Some? ==> CursorGood(decode, t, s.file, s.pump.cursor.value))
  }

  // ---- storing rows ----

  lemma {:induction false} UpsertGood(decode: Decode, t: Trial, w: Bytes, limit: nat, table: Table, rows: seq<EventRow>)
    requires TableGood(decode, t, w, limit, table)
    requires AllGood(decode, t, w, limit, rows) || NoneOwned(t, rows)
    ensures TableGood(decode, t, w, limit, Upsert(table, rows))
  {
    if rows != [] {
      UpsertGood(decode, t, w, limit, table, rows[..|rows| - 1]);
      hide Good, Owned;
    }
  }

  ghost predicate NoneOwned(t: Trial, rows: seq<EventRow>) {
    forall j :: 0 <= j < |rows| ==> !Owned(t, KeyOf(rows[j]))
  }

  /** Stored rows are never removed, and the rows of a batch are stored. */
  lemma {:induction false} UpsertKeys(table: Table, rows: seq<EventRow>)
    ensures table.Keys <= Upsert(table, rows).Keys
    ensures forall j :: 0 <= j < |rows| ==> KeyOf(rows[j]) in Upsert(table, rows)
  {
    if rows != [] { UpsertKeys(table, rows[..|rows| - 1]); }
  }

  lemma {:induction false} PostGood(decode: Decode, t: Trial, w: Bytes, limit: nat, rows: seq<EventRow>, outcomes: seq<Posting>,
                                    table: Table, inFlight: seq<seq<EventRow>>)
    requires t.Valid() && AllGood(decode, t, w, limit, rows)
    requires TableGood(decode, t, w, limit, table) && FlightGood(decode, t, w, limit, inFlight)
    ensures var posted := PostRows(t.options.maxBatchRows, rows, outcomes, table, inFlight);
            TableGood(decode, t, w, limit, posted.table) && FlightGood(decode, t, w, limit, posted.inFlight)
    decreases |rows|
  {
    if rows != [] {
      var (batch, rest) := NextBatch(t.options.maxBatchRows, rows);
      PartsGood(decode, t, w, limit, batch, rest);
      hide NextBatch, Upsert, TableGood, AllGood;
      match Head(outcomes)
      case Acked =>
        UpsertGood(decode, t, w, limit, table, batch);
        PostGood(decode, t, w, limit, rest, Later(outcomes), Upsert(table, batch), inFlight);
      case Rejected =>
      case TimedOut =>
    }
  }

  lemma {:induction false} PartsGood(decode: Decode, t: Trial, w: Bytes, limit: nat, a: seq<EventRow>, b: seq<EventRow>)
    requires AllGood(decode, t, w, limit, a + b)
    ensures AllGood(decode, t, w, limit, a) && AllGood(decode, t, w, limit, b)
  {
    hide Good;
    forall j | 0 <= j < |a| ensures Good(decode, t, w, limit, a[j]) { assert (a + b)[j] == a[j]; }
    forall j | 0 <= j < |b| ensures Good(decode, t, w, limit, b[j]) { assert (a + b)[|a| + j] == b[j]; }
  }

  /** Posting keeps what is stored, and an acknowledged series of batches is stored completely. */
  lemma {:induction false} PostKeys(max: nat, rows: seq<EventRow>, outcomes: seq<Posting>, table: Table,
                                    inFlight: seq<seq<EventRow>>)
    requires max >= 1
    ensures var posted := PostRows(max, rows, outcomes, table, inFlight);
            && table.Keys <= posted.table.Keys
            && (posted.ok ==> forall j :: 0 <= j < |rows| ==> KeyOf(rows[j]) in posted.table)
    decreases |rows|
  {
    if rows != [] && Head(outcomes) == Acked {
      var (batch, rest) := NextBatch(max, rows);
      UpsertKeys(table, batch);
      PostKeys(max, rest, Later(outcomes), Upsert(table, batch), inFlight);
      var posted := PostRows(max, rest, Later(outcomes), Upsert(table, batch), inFlight);
      hide NextBatch, Upsert, KeyOf, PostRows;
      forall j | posted.ok && 0 <= j < |rows| ensures KeyOf(rows[j]) in posted.table {
        if j < |batch| { assert rows[j] == batch[j]; } else { assert rows[j] == rest[j - |batch|]; }
      }
    }
  }

  // ---- each step keeps the invariant ----

  lemma {:induction false} RowCountGrows(decode: Decode, cap: nat, v: Bytes, c: Bytes, w: Bytes)
    requires v + c <= w && NoBlankGiant(decode, cap, Split(w))
    ensures RowCount(decode, cap, v) <= RowCount(decode, cap, v + c)
  {
    var giant := |Tail(v)| > cap;
    var cur := Cursor(|v|, 0, if giant then [] else Tail(v), giant, Unknown(""));
    assert At(cap, cur, v);
    hide *;
    FinishedNotBlank(decode, cap, cur, v, c, w);
    ReadCountsExactly(decode, cap, cur, v, c);
  }

  lemma {:induction false} RowCountOfPrefix(decode: Decode, cap: nat, file: Bytes, n: nat, w: Bytes)
    requires n <= |file| && file <= w && NoBlankGiant(decode, cap, Split(w))
    ensures RowCount(decode, cap, file[..n]) <= RowCount(decode, cap, file)
  {
    hide *;
    assert file[..n] + file[n..] == file;
    RowCountGrows(decode, cap, file[..n], file[n..], w);
  }

  lemma {:induction false} GoodBelow(decode: Decode, t: Trial, w: Bytes, limit: nat, more: nat, p: Pump)
    requires PumpGood(decode, t, w, limit, p) && limit <= more
    ensures PumpGood(decode, t, w, more, p)
  {
    hide Owned, RowTrue, Ours, Stored, KeyOf;
    forall b | 0 <= b < |p.inFlight| ensures AllGood(decode, t, w, more, p.inFlight[b]) {
      assert AllGood(decode, t, w, limit, p.inFlight[b]);
    }
  }

  lemma {:induction false} CursorStaysGood(decode: Decode, t: Trial, file: Bytes, more: Bytes, cur: Cursor)
    requires CursorGood(decode, t, file, cur)
    ensures CursorGood(decode, t, file + more, cur)
  {
    hide At, RowCount, Ours;
    assert (file + more)[..cur.offset] == file[..cur.offset];
  }

  lemma {:induction false} InvGrow(decode: Decode, t: Trial, w: Bytes, s: World, more: Bytes)
    requires Inv(decode, t, w, s) && s.file + more <= w && NoBlankGiant(decode, t.Cap(), Split(w))
    ensures Inv(decode, t, w, s.(file := s.file + more))
  {
    RowCountGrows(decode, t.Cap(), s.file, more, w);
    GoodBelow(decode, t, w, RowCount(decode, t.Cap(), s.file), RowCount(decode, t.Cap(), s.file + more), s.pump);
    if s.pump.cursor.Some? { CursorStaysGood(decode, t, s.file, more, s.pump.cursor.value); }
    hide CursorGood, PumpGood, RowCount, NoBlankGiant;
  }

  lemma {:induction false} InvUpsert(decode: Decode, t: Trial, w: Bytes, limit: nat, p: Pump, rows: seq<EventRow>,
                                     inFlight: seq<seq<EventRow>>)
    requires PumpGood(decode, t, w, limit, p) && FlightGood(decode, t, w, limit, inFlight)
    requires AllGood(decode, t, w, limit, rows) || NoneOwned(t, rows)
    ensures PumpGood(decode, t, w, limit, p.(table := Upsert(p.table, rows), inFlight := inFlight))
  {
    UpsertGood(decode, t, w, limit, p.table, rows);
    UpsertKeys(p.table, rows);
    hide Upsert, TableGood, AllGood, NoneOwned, FlightGood, KeyAt;
  }

  lemma {:induction false} FreshGood(decode: Decode, t: Trial, file: Bytes, identity: Identity, table: Table)
    requires Ours(t, identity)
    ensures CursorGood(decode, t, file, FreshCursor(identity)) && Stored(t, identity, 0, table)
  {
    assert file[..0] == [];
    assert NonBlank(decode, []) == [];
  }

  /** Where a pass starts reading: at the saved cursor, or at the beginning under the known identity. */
  lemma {:induction false} StartGood(decode: Decode, t: Trial, file: Bytes, p: Pump, identified: bool)
    requires t.Valid()
    requires p.cursor.Some? ==>
               CursorGood(decode, t, file, p.cursor.value) && Stored(t, p.cursor.value.identity, p.cursor.value.rowSeq, p.table)
    ensures var cur := Restart(Start(p.cursor, t.name, if identified then Some(t.known) else None), |file|);
            CursorGood(decode, t, file, cur) && Stored(t, cur.identity, cur.rowSeq, p.table)
  {
    FreshGood(decode, t, file, Unknown(t.name), p.table);
    FreshGood(decode, t, file, t.known, p.table);
    var cur := Start(p.cursor, t.name, if identified then Some(t.known) else None);
    assert cur.offset <= |file|;
    hide At, Stored, Ours, Unknown;
  }

  lemma {:induction false} ChunkIs(options: Options, file: Bytes, offset: nat, readLength: nat) returns (n: nat)
    requires offset <= |file|
    ensures offset <= n <= |file| && file[..offset] + Chunk(options, file, offset, readLength) == file[..n]
    ensures options.maxBytesPerRead <= readLength ==>
              n == if |file| - offset <= options.maxBytesPerRead then |file| else offset + options.maxBytesPerRead
  {
    n := offset + |Chunk(options, file, offset, readLength)|;
  }

  lemma {:induction false} NumberedGood(decode: Decode, t: Trial, w: Bytes, limit: nat, identity: Identity, start: nat,
                                        contents: seq<Content>)
    requires RowsTrue(decode, t.Cap(), w, start, contents) && start + |contents| <= limit && Ours(t, identity)
    ensures AllGood(decode, t, w, limit, Numbered(t.run, identity, start, contents))
  {
    hide RowTrue, Ours;
  }

  lemma {:induction false} StoredMore(t: Trial, identity: Identity, start: nat, contents: seq<Content>, before: Table,
                                      table: Table, next: nat)
    requires Stored(t, identity, start, before) && before.Keys <= table.Keys && next == start + |contents|
    requires var rows := Numbered(t.run, identity, start, contents);
             forall j :: 0 <= j < |rows| ==> KeyOf(rows[j]) in table
    ensures Stored(t, identity, next, table)
  {
    var rows := Numbered(t.run, identity, start, contents);
    forall i: nat | i < next ensures KeyAt(t.run, identity, i) in table {
      if i < start {
        assert KeyAt(t.run, identity, i) in before.Keys;
      } else {
        assert KeyOf(rows[i - start]) == KeyAt(t.run, identity, i);
      }
    }
  }

  lemma {:induction false} StoredStays(t: Trial, identity: Identity, n: nat, before: Table, table: Table)
    requires Stored(t, identity, n, before) && before.Keys <= table.Keys
    ensures Stored(t, identity, n, table)
  {
    forall i: nat | i < n ensures KeyAt(t.run, identity, i) in table {
      assert KeyAt(t.run, identity, i) in before.Keys;
    }
  }

  /** A pass that reads from the cursor `cur`. */
  lemma {:induction false} PassGood(decode: Decode, t: Trial, w: Bytes, file: Bytes, p: Pump, cur: Cursor,
                                    readLength: nat, outcomes: seq<Posting>)
    requires t.Valid() && file <= w && NoBlankGiant(decode, t.Cap(), Split(w))
    requires PumpGood(decode, t, w, RowCount(decode, t.Cap(), file), p)
    requires CursorGood(decode, t, file, cur) && Stored(t, cur.identity, cur.rowSeq, p.table)
    requires p.cursor.Some? ==> CursorGood(decode, t, file, p.cursor.value)
    ensures var q := PassFrom(decode, t.options, t.run, p, cur, file, readLength, outcomes);
            && PumpGood(decode, t, w, RowCount(decode, t.Cap(), file), q)
            && (q.cursor.Some? ==> CursorGood(decode, t, file, q.cursor.value))
  {
    var limit := RowCount(decode, t.Cap(), file);
    var chunk := Chunk(t.options, file, cur.offset, readLength);
    var n := ChunkIs(t.options, file, cur.offset, readLength);
    var (next, contents) := Read(decode, t.Cap(), cur, chunk);
    var rows := Numbered(t.run, cur.identity, cur.rowSeq, contents);
    hide Read, Chunk, NoBlankGiant, RowCount, Numbered, PostRows, TableGood, FlightGood, AllGood, RowsTrue, Ours, Stored;
    assert file[..n] <= w;
    ReadTrue(decode, t.Cap(), w, cur, file[..cur.offset], chunk);
    RowCountOfPrefix(decode, t.Cap(), file, n, w);
    assert next.offset == n;
    NumberedGood(decode, t, w, limit, cur.identity, cur.rowSeq, contents);
    PostGood(decode, t, w, limit, rows, outcomes, p.table, p.inFlight);
    PostKeys(t.options.maxBatchRows, rows, outcomes, p.table, p.inFlight);
    var posted := PostRows(t.options.maxBatchRows, rows, outcomes, p.table, p.inFlight);
    if posted.ok {
      StoredMore(t, cur.identity, cur.rowSeq, contents, p.table, posted.table, next.rowSeq);
    } else if p.cursor.Some? {
      StoredStays(t, p.cursor.value.identity, p.cursor.value.rowSeq, p.table, posted.table);
    }
  }

  /** The cursor a pass reads from. */
  function Begin(t: Trial, s: World, identified: bool): Cursor {
    Restart(Start(s.pump.cursor, t.name, if identified then Some(t.known) else None), |s.file|)
  }

  lemma {:induction false} PassIs(decode: Decode, t: Trial, s: World, identified: bool, readLength: nat, outcomes: seq<Posting>)
    requires t.Valid()
    ensures var cur, next := Begin(t, s, identified), Next(decode, t, s, Pass(identified, readLength, outcomes));
            && cur.offset <= |s.file| && next.file == s.file
            && next.pump == if cur.offset == |s.file| then s.pump.(cursor := Some(cur))
                            else PassFrom(decode, t.options, t.run, s.pump, cur, s.file, readLength, outcomes)
  {
    hide Start, PassFrom;
  }

  lemma {:induction false} InvParts(decode: Decode, t: Trial, w: Bytes, s: World)
    ensures Inv(decode, t, w, s) <==>
              && s.file <= w
              && PumpGood(decode, t, w, RowCount(decode, t.Cap(), s.file), s.pump)
              && (s.pump.cursor.Some? ==> CursorGood(decode, t, s.file, s.pump.cursor.value))
    ensures Inv(decode, t, w, s) && s.pump.cursor.Some? ==> Stored(t, s.pump.cursor.value.identity, s.pump.cursor.value.rowSeq, s.pump.table)
  {
    hide RowCount, TableGood, FlightGood, CursorGood, Stored;
  }

  lemma {:induction false} CursorSaved(decode: Decode, t: Trial, w: Bytes, limit: nat, p: Pump, cur: Cursor)
    requires PumpGood(decode, t, w, limit, p) && Stored(t, cur.identity, cur.rowSeq, p.table)
    ensures PumpGood(decode, t, w, limit, p.(cursor := Some(cur)))
  {
    hide TableGood, FlightGood, Stored;
  }

  lemma {:induction false} InvPass(decode: Decode, t: Trial, w: Bytes, s: World, identified: bool, readLength: nat,
                                   outcomes: seq<Posting>)
    requires t.Valid() && Inv(decode, t, w, s) && NoBlankGiant(decode, t.Cap(), Split(w))
    ensures Inv(decode, t, w, Next(decode, t, s, Pass(identified, readLength, outcomes)))
  {
    var cur := Begin(t, s, identified);
    InvParts(decode, t, w, s);
    StartGood(decode, t, s.file, s.pump, identified);
    hide *;
    PassIs(decode, t, s, identified, readLength, outcomes);
    InvParts(decode, t, w, Next(decode, t, s, Pass(identified, readLength, outcomes)));
    if cur.offset == |s.file| {
      CursorSaved(decode, t, w, RowCount(decode, t.Cap(), s.file), s.pump, cur);
    } else {
      PassGood(decode, t, w, s.file, s.pump, cur, readLength, outcomes);
    }
  }

  lemma {:induction false} InvNext(decode: Decode, t: Trial, w: Bytes, s: World, step: Step)
    requires t.Valid() && Inv(decode, t, w, s) && Next(decode, t, s, step).file <= w && NoBlankGiant(decode, t.Cap(), Split(w))
    ensures Inv(decode, t, w, Next(decode, t, s, step))
  {
    match step
    case Grow(more) => InvGrow(decode, t, w, s, more);
    case Pass(identified, readLength, outcomes) => InvPass(decode, t, w, s, identified, readLength, outcomes);
    case Deliver(k) =>
      if k < |s.pump.inFlight| {
        hide TableGood, AllGood, RowCount, Stored, CursorGood, NoBlankGiant, Upsert;
        InvUpsert(decode, t, w, RowCount(decode, t.Cap(), s.file), s.pump, s.pump.inFlight[k], s.pump.inFlight[..k] + s.pump.inFlight[k + 1..]);
      }
    case Foreign(rows) =>
      if !exists r :: r in rows && Owned(t, KeyOf(r)) {
        assert NoneOwned(t, rows);
        hide TableGood, AllGood, RowCount, Stored, CursorGood, NoBlankGiant, Upsert, NoneOwned, FlightGood;
        InvUpsert(decode, t, w, RowCount(decode, t.Cap(), s.file), s.pump, rows, s.pump.inFlight);
      }
  }

  /** The invariant holds after every history whose file is a prefix of `w`. */
  lemma {:induction false} InvAfter(decode: Decode, t: Trial, w: Bytes, steps: seq<Step>)
    requires t.Valid() && After(decode, t, steps).file <= w && NoBlankGiant(decode, t.Cap(), Split(w))
    ensures Inv(decode, t, w, After(decode, t, steps))
  {
    if steps != [] {
      var s := After(decode, t, steps[..|steps| - 1]);
      FileGrows(decode, t, s, steps[|steps| - 1]);
      InvAfter(decode, t, w, steps[..|steps| - 1]);
      InvNext(decode, t, w, s, steps[|steps| - 1]);
      hide Next, Inv, NoBlankGiant;
    }
  }

  lemma {:induction false} FileGrows(decode: Decode, t: Trial, s: World, step: Step)
    requires t.Valid()
    ensures s.file <= Next(decode, t, s, step).file
  {
    hide PumpPass, Upsert;
  }
}
