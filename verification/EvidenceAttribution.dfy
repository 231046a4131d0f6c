/** Attribution of live evidence: which rows a pump that has learnt a trial's identity leaves stored under it. */
module EvidenceAttribution {
  import opened Outcomes
  import opened ByteStrings
  import opened EvidenceLines
  import opened EvidenceReader
  import opened EvidenceChunks
  import opened EvidenceDelivery
  import opened EvidenceRuns
  import opened EvidenceResults

  /** A pump that knows the identity has every row below its cursor stored under that identity. */
  ghost predicate Attributed(t: Trial, p: Pump) {
    p.cursor.Some? && p.cursor.value.identity == t.known ==> AttributedBelow(t, p.cursor.value.rowSeq, p.table)
  }

  ghost predicate AttributedBelow(t: Trial, n: nat, table: Table) {
    forall i: nat :: i < n ==> KeyAt(t.run, t.known, i) in table && table[KeyAt(t.run, t.known, i)].identity == t.known
  }

  ghost predicate AllFrom(identity: Identity, rows: seq<EventRow>) {
    forall j :: 0 <= j < |rows| ==> rows[j].identity == identity
  }

  lemma {:induction false} UpsertKnown(t: Trial, n: nat, table: Table, rows: seq<EventRow>)
    requires AttributedBelow(t, n, table) && AllFrom(t.known, rows)
    ensures AttributedBelow(t, n, Upsert(table, rows))
  {
    if rows != [] {
      UpsertKnown(t, n, table, rows[..|rows| - 1]);
      hide KeyAt, KeyOf;
    }
  }

  lemma {:induction false} UpsertOwn(table: Table, rows: seq<EventRow>, identity: Identity, j: nat)
    requires AllFrom(identity, rows) && j < |rows|
    ensures KeyOf(rows[j]) in Upsert(table, rows) && Upsert(table, rows)[KeyOf(rows[j])].identity == identity
  {
    if j < |rows| - 1 { UpsertOwn(table, rows[..|rows| - 1], identity, j); }
  }

  lemma {:induction false} UpsertOther(table: Table, rows: seq<EventRow>, k: Key)
    requires forall j :: 0 <= j < |rows| ==> KeyOf(rows[j]) != k
    ensures k in Upsert(table, rows) <==> k in table
    ensures k in table ==> Upsert(table, rows)[k] == table[k]
  {
    if rows != [] { UpsertOther(table, rows[..|rows| - 1], k); }
  }

  /** A late batch of one pass leaves the attribution intact exactly when it was sent under the known identity,
      or touches no row below the cursor. */
  lemma {:induction false} LateBatchAttributionIff(t: Trial, n: nat, table: Table, rows: seq<EventRow>, identity: Identity)
    requires AttributedBelow(t, n, table) && AllFrom(identity, rows)
    ensures AttributedBelow(t, n, Upsert(table, rows)) <==>
              identity == t.known || forall i: nat, j :: i < n && 0 <= j < |rows| ==> KeyOf(rows[j]) != KeyAt(t.run, t.known, i)
  {
    if identity == t.known {
      UpsertKnown(t, n, table, rows);
    } else if j, i: nat :| i < n && 0 <= j < |rows| && KeyOf(rows[j]) == KeyAt(t.run, t.known, i) {
      UpsertOwn(table, rows, identity, j);
    } else {
      hide KeyAt, KeyOf, Upsert;
      forall i: nat | i < n
        ensures KeyAt(t.run, t.known, i) in Upsert(table, rows) && Upsert(table, rows)[KeyAt(t.run, t.known, i)].identity == t.known
      {
        UpsertOther(table, rows, KeyAt(t.run, t.known, i));
      }
    }
  }

  lemma {:induction false} PostKnown(t: Trial, max: nat, rows: seq<EventRow>, outcomes: seq<Posting>, table: Table,
                                     inFlight: seq<seq<EventRow>>, n: nat)
    requires max >= 1 && AllFrom(t.known, rows) && AttributedBelow(t, n, table)
    ensures AttributedBelow(t, n, PostRows(max, rows, outcomes, table, inFlight).table)
    decreases |rows|
  {
    if rows != [] && Head(outcomes) == Acked {
      var (batch, rest) := NextBatch(max, rows);
      FromParts(t.known, batch, rest);
      UpsertKnown(t, n, table, batch);
      PostKnown(t, max, rest, Later(outcomes), Upsert(table, batch), inFlight, n);
      hide NextBatch, Upsert, AttributedBelow, AllFrom;
    }
  }

  lemma {:induction false} FromParts(identity: Identity, a: seq<EventRow>, b: seq<EventRow>)
    requires AllFrom(identity, a + b)
    ensures AllFrom(identity, a) && AllFrom(identity, b)
  {
    forall j | 0 <= j < |a| ensures a[j].identity == identity { assert (a + b)[j] == a[j]; }
    forall j | 0 <= j < |b| ensures b[j].identity == identity { assert (a + b)[|a| + j] == b[j]; }
  }

  /** Numbered rows under the known identity extend the attributed range. */
  lemma {:induction false} UpsertExtends(t: Trial, n: nat, table: Table, rows: seq<EventRow>)
    requires AttributedBelow(t, n, table) && AllFrom(t.known, rows) && Follows(t, n, rows)
    ensures AttributedBelow(t, n + |rows|, Upsert(table, rows))
  {
    UpsertKnown(t, n, table, rows);
    forall i: nat | i < n + |rows|
      ensures KeyAt(t.run, t.known, i) in Upsert(table, rows) && Upsert(table, rows)[KeyAt(t.run, t.known, i)].identity == t.known
    {
      if i >= n { UpsertOwn(table, rows, t.known, i - n); }
    }
  }

  ghost predicate Follows(t: Trial, n: nat, rows: seq<EventRow>) {
    forall j :: 0 <= j < |rows| ==> KeyOf(rows[j]) == KeyAt(t.run, t.known, n + j)
  }

  lemma {:induction false} PostExtends(t: Trial, max: nat, rows: seq<EventRow>, outcomes: seq<Posting>, table: Table,
                                       inFlight: seq<seq<EventRow>>, n: nat)
    requires max >= 1 && AllFrom(t.known, rows) && Follows(t, n, rows) && AttributedBelow(t, n, table)
    ensures var posted := PostRows(max, rows, outcomes, table, inFlight);
            posted.ok ==> AttributedBelow(t, n + |rows|, posted.table)
    decreases |rows|
  {
    if rows != [] && Head(outcomes) == Acked {
      var (batch, rest) := NextBatch(max, rows);
      FromParts(t.known, batch, rest);
      FollowsParts(t, n, batch, rest);
      hide NextBatch, Upsert, AttributedBelow, AllFrom, Follows;
      UpsertExtends(t, n, table, batch);
      PostExtends(t, max, rest, Later(outcomes), Upsert(table, batch), inFlight, n + |batch|);
    }
  }

  lemma {:induction false} FollowsParts(t: Trial, n: nat, a: seq<EventRow>, b: seq<EventRow>)
    requires Follows(t, n, a + b)
    ensures Follows(t, n, a) && Follows(t, n + |a|, b)
  {
    hide KeyAt, KeyOf;
    forall j | 0 <= j < |a| ensures KeyOf(a[j]) == KeyAt(t.run, t.known, n + j) { assert (a + b)[j] == a[j]; }
    forall j | 0 <= j < |b| ensures KeyOf(b[j]) == KeyAt(t.run, t.known, n + |a| + j) { assert (a + b)[|a| + j] == b[j]; }
  }

  lemma NumberedKnown(t: Trial, start: nat, contents: seq<Content>)
    ensures var rows := Numbered(t.run, t.known, start, contents);
            |rows| == |contents| && AllFrom(t.known, rows) && Follows(t, start, rows)
  {
  }

  lemma {:induction false} PassFromAttributes(decode: Decode, t: Trial, p: Pump, cur: Cursor, file: Bytes,
                                              readLength: nat, outcomes: seq<Posting>)
    requires t.Valid() && cur.offset <= |file| && Attributed(t, p)
    requires cur.identity == t.known ==> AttributedBelow(t, cur.rowSeq, p.table)
    requires p.cursor.Some? && p.cursor.value.identity == t.known ==> cur.identity == t.known
    ensures Attributed(t, PassFrom(decode, t.options, t.run, p, cur, file, readLength, outcomes))
  {
    var chunk := Chunk(t.options, file, cur.offset, readLength);
    var (next, contents) := Read(decode, t.Cap(), cur, chunk);
    var rows := Numbered(t.run, cur.identity, cur.rowSeq, contents);
    ReadOn(decode, t.Cap(), cur, chunk);
    hide Read, Chunk, Numbered, PostRows, AttributedBelow, AllFrom, Follows;
    if cur.identity == t.known {
      NumberedKnown(t, cur.rowSeq, contents);
      PostExtends(t, t.options.maxBatchRows, rows, outcomes, p.table, p.inFlight, cur.rowSeq);
      if p.cursor.Some? && p.cursor.value.identity == t.known {
        PostKnown(t, t.options.maxBatchRows, rows, outcomes, p.table, p.inFlight, p.cursor.value.rowSeq);
      }
    }
  }

  lemma BeginAttributes(t: Trial, s: World, identified: bool)
    requires t.Valid() && Attributed(t, s.pump)
    ensures var cur := Begin(t, s, identified);
            && (cur.identity == t.known ==> AttributedBelow(t, cur.rowSeq, s.pump.table))
            && (s.pump.cursor.Some? && s.pump.cursor.value.identity == t.known ==> cur.identity == t.known)
  {
  }

  lemma {:induction false} PassAttributes(decode: Decode, t: Trial, s: World, identified: bool, readLength: nat,
                                          outcomes: seq<Posting>)
    requires t.Valid() && Attributed(t, s.pump)
    ensures Attributed(t, Next(decode, t, s, Pass(identified, readLength, outcomes)).pump)
  {
    PassIs(decode, t, s, identified, readLength, outcomes);
    BeginAttributes(t, s, identified);
    var cur := Begin(t, s, identified);
    hide Next, Begin, PassFrom, AttributedBelow;
    if cur.offset != |s.file| {
      PassFromAttributes(decode, t, s.pump, cur, s.file, readLength, outcomes);
    }
  }

  lemma {:induction false} ForeignAttributes(t: Trial, p: Pump, rows: seq<EventRow>)
    requires Attributed(t, p) && NoneOwned(t, rows)
    ensures Attributed(t, p.(table := Upsert(p.table, rows)))
  {
    if p.cursor.Some? && p.cursor.value.identity == t.known {
      var n := p.cursor.value.rowSeq;
      forall i: nat | i < n
        ensures KeyAt(t.run, t.known, i) in Upsert(p.table, rows) && Upsert(p.table, rows)[KeyAt(t.run, t.known, i)].identity == t.known
      {
        assert Owned(t, KeyAt(t.run, t.known, i));
        UpsertOther(p.table, rows, KeyAt(t.run, t.known, i));
      }
    }
  }

  // ---- batches in flight ----

  /** The batch was sent for this trial under one identity. */
  ghost predicate SentAs(t: Trial, identity: Identity, rows: seq<EventRow>) {
    AllFrom(identity, rows) && forall j :: 0 <= j < |rows| ==> rows[j].coreRunId == t.run
  }

  /** Every batch in flight was sent under one of the trial's two identities. */
  ghost predicate FlightSingle(t: Trial, p: Pump) {
    && (p.cursor.Some? ==> Ours(t, p.cursor.value.identity))
    && forall b :: 0 <= b < |p.inFlight| ==> SentAs(t, Unknown(t.name), p.inFlight[b]) || SentAs(t, t.known, p.inFlight[b])
  }

  lemma {:induction false} PostFlight(t: Trial, identity: Identity, max: nat, rows: seq<EventRow>, outcomes: seq<Posting>,
                                      table: Table, inFlight: seq<seq<EventRow>>)
    requires max >= 1 && SentAs(t, identity, rows)
    ensures var flight := PostRows(max, rows, outcomes, table, inFlight).inFlight;
            flight == inFlight || (|flight| == |inFlight| + 1 && flight[..|inFlight|] == inFlight && SentAs(t, identity, flight[|inFlight|]))
    decreases |rows|
  {
    if rows != [] {
      var (batch, rest) := NextBatch(max, rows);
      assert forall j :: 0 <= j < |batch| ==> batch[j] == rows[j];
      assert forall j :: 0 <= j < |rest| ==> rest[j] == rows[|batch| + j];
      hide NextBatch, Upsert;
      if Head(outcomes) == Acked {
        PostFlight(t, identity, max, rest, Later(outcomes), Upsert(table, batch), inFlight);
      }
    }
  }

  lemma {:induction false} FlightPass(decode: Decode, t: Trial, s: World, identified: bool, readLength: nat, outcomes: seq<Posting>)
    requires t.Valid() && FlightSingle(t, s.pump)
    ensures FlightSingle(t, Next(decode, t, s, Pass(identified, readLength, outcomes)).pump)
  {
    PassIs(decode, t, s, identified, readLength, outcomes);
    var cur := Begin(t, s, identified);
    assert Ours(t, cur.identity);
    hide Next, Begin, Read, Chunk, PostRows, Ours;
    if cur.offset != |s.file| {
      var chunk := Chunk(t.options, s.file, cur.offset, readLength);
      ReadOn(decode, t.Cap(), cur, chunk);
      var rows := Numbered(t.run, cur.identity, cur.rowSeq, Read(decode, t.Cap(), cur, chunk).1);
      assert SentAs(t, cur.identity, rows);
      hide Numbered;
      PostFlight(t, cur.identity, t.options.maxBatchRows, rows, outcomes, s.pump.table, s.pump.inFlight);
      OneMore(t, cur.identity, s.pump, Next(decode, t, s, Pass(identified, readLength, outcomes)).pump);
    }
  }

  lemma {:induction false} OneMore(t: Trial, identity: Identity, p: Pump, q: Pump)
    requires FlightSingle(t, p) && Ours(t, identity)
    requires q.cursor == p.cursor || (q.cursor.Some? && q.cursor.value.identity == identity)
    requires q.inFlight == p.inFlight
             || (|q.inFlight| == |p.inFlight| + 1 && q.inFlight[..|p.inFlight|] == p.inFlight && SentAs(t, identity, q.inFlight[|p.inFlight|]))
    ensures FlightSingle(t, q)
  {
    hide SentAs;
    forall b | 0 <= b < |q.inFlight| ensures SentAs(t, Unknown(t.name), q.inFlight[b]) || SentAs(t, t.known, q.inFlight[b]) {
      if b < |p.inFlight| { assert q.inFlight[b] == p.inFlight[b]; }
    }
  }

  /** In every reachable state each batch in flight comes from a single identity. */
  lemma {:induction false} FlightSingleAfter(decode: Decode, t: Trial, steps: seq<Step>)
    requires t.Valid()
    ensures FlightSingle(t, After(decode, t, steps).pump)
  {
    if steps != [] {
      var s, step := After(decode, t, steps[..|steps| - 1]), steps[|steps| - 1];
      FlightSingleAfter(decode, t, steps[..|steps| - 1]);
      hide PumpPass, Upsert, SentAs, Ours;
      match step
      case Pass(identified, readLength, outcomes) => FlightPass(decode, t, s, identified, readLength, outcomes);
      case _ =>
    }
  }

  // ---- late batches ----

  /** The batch was sent under the known identity, or writes no row below `n` of the known slot. */
  ghost predicate Harmless(t: Trial, n: nat, rows: seq<EventRow>) {
    || AllFrom(t.known, rows)
    || !SameSlot(Unknown(t.name), t.known)
    || forall j :: 0 <= j < |rows| ==> rows[j].rowSeq >= n
  }

  lemma {:induction false} HarmlessIff(t: Trial, n: nat, rows: seq<EventRow>)
    requires t.Valid() && (SentAs(t, Unknown(t.name), rows) || SentAs(t, t.known, rows))
    ensures Harmless(t, n, rows) <==>
            AllFrom(t.known, rows) || forall i: nat, j :: i < n && 0 <= j < |rows| ==> KeyOf(rows[j]) != KeyAt(t.run, t.known, i)
  {
    if SentAs(t, Unknown(t.name), rows) {
      if j :| 0 <= j < |rows| && rows[j].rowSeq < n && SameSlot(Unknown(t.name), t.known) {
        assert KeyOf(rows[j]) == KeyAt(t.run, t.known, rows[j].rowSeq);
      }
    }
  }

  /** In every reachable state in which the pump knows the identity and its rows bear it, applying a batch that is in
      flight leaves them so exactly when the batch is harmless: sent under the known identity, or numbered from the
      cursor on, or for another slot than the known one. */
  lemma {:induction false} LateDeliveryIff(decode: Decode, t: Trial, steps: seq<Step>, k: nat)
    requires t.Valid()
    requires var p := After(decode, t, steps).pump;
             p.cursor.Some? && p.cursor.value.identity == t.known && Attributed(t, p) && k < |p.inFlight|
    ensures var s := After(decode, t, steps);
            Attributed(t, Next(decode, t, s, Deliver(k)).pump) <==> Harmless(t, s.pump.cursor.value.rowSeq, s.pump.inFlight[k])
  {
    var s := After(decode, t, steps);
    var n, rows := s.pump.cursor.value.rowSeq, s.pump.inFlight[k];
    FlightSingleAfter(decode, t, steps);
    assert SentAs(t, Unknown(t.name), rows) || SentAs(t, t.known, rows);
    HarmlessIff(t, n, rows);
    assert t.known != Unknown(t.name);
    hide After, Upsert, Harmless, AttributedBelow, KeyAt, KeyOf;
    LateBatchAttributionIff(t, n, s.pump.table, rows, if SentAs(t, t.known, rows) then t.known else Unknown(t.name));
    if rows != [] && SentAs(t, Unknown(t.name), rows) { assert rows[0].identity == Unknown(t.name); }
  }

  // ---- every history ----

  /** Every batch that is applied once the pump knows the identity is harmless at that moment. */
  ghost predicate Timely(decode: Decode, t: Trial, steps: seq<Step>)
    requires t.Valid()
  {
    steps == [] || (
      && Timely(decode, t, steps[..|steps| - 1])
      && var (p, last) := (After(decode, t, steps[..|steps| - 1]).pump, steps[|steps| - 1]);
      last.Deliver? && last.post < |p.inFlight| && p.cursor.Some? && p.cursor.value.identity == t.known ==>
        Harmless(t, p.cursor.value.rowSeq, p.inFlight[last.post]))
  }

  /** In every timely history, the pump that knows the identity leaves the rows below its cursor attributed to it. */
  lemma {:induction false} AttributedAfter(decode: Decode, t: Trial, steps: seq<Step>)
    requires t.Valid() && Timely(decode, t, steps)
    ensures Attributed(t, After(decode, t, steps).pump)
  {
    if steps != [] {
      var s, step := After(decode, t, steps[..|steps| - 1]), steps[|steps| - 1];
      AttributedAfter(decode, t, steps[..|steps| - 1]);
      hide PumpPass, Upsert, AttributedBelow, Harmless, Timely;
      match step
      case Grow(_) =>
      case Pass(identified, readLength, outcomes) => PassAttributes(decode, t, s, identified, readLength, outcomes);
      case Deliver(k) =>
        if k < |s.pump.inFlight| && s.pump.cursor.Some? && s.pump.cursor.value.identity == t.known {
          DeliveredInTime(decode, t, steps, k);
          LateDeliveryIff(decode, t, steps[..|steps| - 1], k);
        }
      case Foreign(rows) =>
        if !exists r :: r in rows && Owned(t, KeyOf(r)) {
          assert NoneOwned(t, rows);
          ForeignAttributes(t, s.pump, rows);
        }
    }
  }

  lemma {:induction false} DeliveredInTime(decode: Decode, t: Trial, steps: seq<Step>, k: nat)
    requires t.Valid() && Timely(decode, t, steps) && steps != [] && steps[|steps| - 1] == Deliver(k)
    requires var p := After(decode, t, steps[..|steps| - 1]).pump;
             k < |p.inFlight| && p.cursor.Some? && p.cursor.value.identity == t.known
    ensures var p := After(decode, t, steps[..|steps| - 1]).pump; Harmless(t, p.cursor.value.rowSeq, p.inFlight[k])
  {
    hide After, Harmless;
  }

  /** Where the two identities name different slots, every history is timely. */
  lemma {:induction false} OtherSlotTimely(decode: Decode, t: Trial, steps: seq<Step>)
    requires t.Valid() && !SameSlot(Unknown(t.name), t.known)
    ensures Timely(decode, t, steps)
  {
    if steps != [] {
      OtherSlotTimely(decode, t, steps[..|steps| - 1]);
      hide After, SameSlot;
    }
  }

  // ---- a history that is not timely ----

  lemma {:induction false} AckedFlight(max: nat, rows: seq<EventRow>, table: Table, inFlight: seq<seq<EventRow>>)
    requires max >= 1
    ensures PostRows(max, rows, [], table, inFlight).ok && PostRows(max, rows, [], table, inFlight).inFlight == inFlight
    decreases |rows|
  {
    if rows != [] {
      var (batch, rest) := NextBatch(max, rows);
      AckedFlight(max, rest, Upsert(table, batch), inFlight);
    }
  }

  /** The rows of the first read of a file under an identity. */
  function FirstRows(decode: Decode, t: Trial, w: Bytes, identity: Identity): seq<EventRow> {
    Numbered(t.run, identity, 0, Read(decode, t.Cap(), FreshCursor(identity), w).1)
  }

  lemma {:induction false} SameContents(decode: Decode, cap: nat, w: Bytes, a: Identity, b: Identity)
    ensures Read(decode, cap, FreshCursor(a), w).1 == Read(decode, cap, FreshCursor(b), w).1
  {
    hide Texts, Split, Cut, StubOf, IndexOfNewline;
  }

  /** The file is read once before the identity is known, but that post times out. */
  function Unanswered(w: Bytes): seq<Step> { [Grow(w), Pass(false, |w|, [TimedOut])] }

  /** Then it is read under the known identity. */
  function Overtaken(w: Bytes): seq<Step> { Unanswered(w) + [Pass(true, |w|, [])] }

  lemma {:induction false} AfterOne(decode: Decode, t: Trial, steps: seq<Step>, step: Step)
    requires t.Valid()
    ensures After(decode, t, steps + [step]) == Next(decode, t, After(decode, t, steps), step)
  {
    assert (steps + [step])[..|steps|] == steps;
    hide Next;
  }

  lemma NumberedSize(t: Trial, identity: Identity, contents: seq<Content>)
    ensures |Numbered(t.run, identity, 0, contents)| == |contents|
    ensures contents != [] ==> Numbered(t.run, identity, 0, contents)[0] == EventRow(t.run, identity, 0, contents[0])
  {
  }

  lemma {:induction false} GrownState(decode: Decode, t: Trial, w: Bytes)
    requires t.Valid()
    ensures After(decode, t, [Grow(w)]) == World(w, Pump(None, map[], []))
  {
    assert [] + w == w;
    hide PumpPass, Upsert;
  }

  lemma {:induction false} TimedOutPost(max: nat, rows: seq<EventRow>)
    requires max >= 1 && rows != []
    ensures PostRows(max, rows, [TimedOut], map[], []) == Posted(false, map[], [NextBatch(max, rows).0], 0, 0)
  {
    hide NextBatch;
  }

  lemma {:induction false} UnansweredState(decode: Decode, t: Trial, w: Bytes)
    requires t.Valid() && 0 < |w| <= t.options.maxBytesPerRead && FirstRows(decode, t, w, Unknown(t.name)) != []
    ensures After(decode, t, Unanswered(w))
            == World(w, Pump(None, map[], [NextBatch(t.options.maxBatchRows, FirstRows(decode, t, w, Unknown(t.name))).0]))
  {
    hide After, Next, Read, Numbered, NextBatch, PostRows, Unanswered;
    GrownState(decode, t, w);
    AfterOne(decode, t, [Grow(w)], Pass(false, |w|, [TimedOut]));
    assert [Grow(w)] + [Pass(false, |w|, [TimedOut])] == Unanswered(w) by { UnansweredIs(w); }
    PassIs(decode, t, World(w, Pump(None, map[], [])), false, |w|, [TimedOut]);
    assert Chunk(t.options, w, 0, |w|) == w;
    TimedOutPost(t.options.maxBatchRows, FirstRows(decode, t, w, Unknown(t.name)));
  }

  lemma UnansweredIs(w: Bytes)
    ensures Unanswered(w) == [Grow(w)] + [Pass(false, |w|, [TimedOut])]
  {
  }

  lemma {:induction false} OvertakenState(decode: Decode, t: Trial, w: Bytes)
    requires t.Valid() && 0 < |w| <= t.options.maxBytesPerRead && FirstRows(decode, t, w, Unknown(t.name)) != []
    ensures var p := After(decode, t, Overtaken(w)).pump;
            && p.inFlight == [NextBatch(t.options.maxBatchRows, FirstRows(decode, t, w, Unknown(t.name))).0]
            && p.cursor.Some? && p.cursor.value.identity == t.known
            && p.cursor.value.rowSeq == |FirstRows(decode, t, w, Unknown(t.name))|
  {
    hide After, Next, Read, Numbered, NextBatch, PostRows;
    UnansweredState(decode, t, w);
    var s := After(decode, t, Unanswered(w));
    AfterOne(decode, t, Unanswered(w), Pass(true, |w|, []));
    PassIs(decode, t, s, true, |w|, []);
    assert Chunk(t.options, w, 0, |w|) == w;
    ReadOn(decode, t.Cap(), FreshCursor(t.known), w);
    SameContents(decode, t.Cap(), w, t.known, Unknown(t.name));
    AckedFlight(t.options.maxBatchRows, FirstRows(decode, t, w, t.known), map[], s.pump.inFlight);
    NumberedSize(t, Unknown(t.name), Read(decode, t.Cap(), FreshCursor(Unknown(t.name)), w).1);
  }

  lemma {:induction false} TimelyWithoutDeliveries(decode: Decode, t: Trial, steps: seq<Step>)
    requires t.Valid() && forall i :: 0 <= i < |steps| ==> !steps[i].Deliver?
    ensures Timely(decode, t, steps)
  {
    if steps != [] {
      TimelyWithoutDeliveries(decode, t, steps[..|steps| - 1]);
      hide After, Harmless;
    }
  }

  /** Where both identities name the same slot and the first read yields a row, the post that was overtaken
      puts the unknown identity back when it is applied after all. */
  lemma {:induction false} OvertakenPostTakesBack(decode: Decode, t: Trial, w: Bytes)
    requires t.Valid() && 0 < |w| <= t.options.maxBytesPerRead && SameSlot(Unknown(t.name), t.known)
    requires FirstRows(decode, t, w, Unknown(t.name)) != []
    ensures Attributed(t, After(decode, t, Overtaken(w)).pump)
    ensures !Attributed(t, After(decode, t, Overtaken(w) + [Deliver(0)]).pump)
  {
    var rows := FirstRows(decode, t, w, Unknown(t.name));
    var batch := NextBatch(t.options.maxBatchRows, rows).0;
    NumberedSize(t, Unknown(t.name), Read(decode, t.Cap(), FreshCursor(Unknown(t.name)), w).1);
    assert batch[0] == rows[0] && rows[0].rowSeq == 0 && rows[0].identity == Unknown(t.name) != t.known;
    assert !Harmless(t, |rows|, batch);
    TimelyWithoutDeliveries(decode, t, Overtaken(w));
    hide *;
    OvertakenState(decode, t, w);
    AttributedAfter(decode, t, Overtaken(w));
    LateDeliveryIff(decode, t, Overtaken(w), 0);
    AfterOne(decode, t, Overtaken(w), Deliver(0));
  }
}
