/** The guarantees of live evidence: an exactly-once effect of at-least-once posting, and what a final drain reaches. */
module EvidenceResults {
  import opened Outcomes
  import opened ByteStrings
  import opened EvidenceLines
  import opened EvidenceReader
  import opened EvidenceChunks
  import opened EvidenceDelivery
  import opened EvidenceRuns

  ghost predicate CaughtUp(s: World) {
    s.pump.cursor.Some? && s.pump.cursor.value.offset == |s.file|
  }

  // ---- exactly once ----

  /** After every history of growth, passes, failed and timed-out posts and late deliveries: each stored row of
      the trial is the row of its number in the file, and every row below the saved cursor is stored.
      `w` is what the file will have become. */
  lemma {:induction false} TableIsTrue(decode: Decode, t: Trial, steps: seq<Step>, w: Bytes)
    requires t.Valid() && After(decode, t, steps).file <= w && NoBlankGiant(decode, t.Cap(), Split(w))
    ensures var s := After(decode, t, steps);
            && (forall k :: k in s.pump.table && Owned(t, k) ==>
                  k.rowSeq < RowCount(decode, t.Cap(), s.file) && RowTrue(decode, t.Cap(), w, k.rowSeq, s.pump.table[k].content))
            && (s.pump.cursor.Some? ==>
                  && Stored(t, s.pump.cursor.value.identity, s.pump.cursor.value.rowSeq, s.pump.table)
                  && |s.pump.cursor.value.remainder| <= t.Cap())
  {
    var s := After(decode, t, steps);
    InvAfter(decode, t, w, steps);
    hide RowTrue, RowCount, Owned, NoBlankGiant, Stored, FlightGood;
    forall k | k in s.pump.table && Owned(t, k)
      ensures k.rowSeq < RowCount(decode, t.Cap(), s.file) && RowTrue(decode, t.Cap(), w, k.rowSeq, s.pump.table[k].content)
    {
      assert KeyOf(s.pump.table[k]) == k;
    }
  }

  /** Once the saved cursor is at the end of the file, the rows stored under its identity are exactly those of the
      file: one for each finished line that is not blank, and one for an unfinished line over the cap. */
  lemma {:induction false} CaughtUpExactly(decode: Decode, t: Trial, steps: seq<Step>)
    requires t.Valid() && NoBlankGiant(decode, t.Cap(), Split(After(decode, t, steps).file))
    requires CaughtUp(After(decode, t, steps))
    ensures var s := After(decode, t, steps);
            && s.pump.cursor.value.rowSeq == RowCount(decode, t.Cap(), s.file)
            && forall i: nat :: KeyAt(t.run, s.pump.cursor.value.identity, i) in s.pump.table <==> i < RowCount(decode, t.Cap(), s.file)
  {
    var s := After(decode, t, steps);
    InvAfter(decode, t, s.file, steps);
    assert s.file[..|s.file|] == s.file;
    TableIsTrue(decode, t, steps, s.file);
    var identity := s.pump.cursor.value.identity;
    OursOwned(t, identity);
    hide RowTrue, RowCount, Owned, NoBlankGiant, FlightGood, TableGood, At, After, Ours;
  }

  lemma OursOwned(t: Trial, identity: Identity)
    requires Ours(t, identity)
    ensures forall i: nat :: Owned(t, KeyAt(t.run, identity, i))
  {
  }

  /** For a file whose lines are all within the cap and whose last line is finished, the stored contents are
      then those of all its lines. */
  lemma {:induction false} CaughtUpStoresFile(decode: Decode, t: Trial, steps: seq<Step>)
    requires t.Valid() && NoGiants(t.Cap(), Split(After(decode, t, steps).file))
    requires CaughtUp(After(decode, t, steps)) && Tail(After(decode, t, steps).file) == []
    ensures var s := After(decode, t, steps);
            var rows, identity := Texts(decode, Split(s.file)), s.pump.cursor.value.identity;
            && (forall i: nat :: KeyAt(t.run, identity, i) in s.pump.table <==> i < |rows|)
            && (forall i: nat :: i < |rows| ==> s.pump.table[KeyAt(t.run, identity, i)].content == rows[i])
  {
    var s := After(decode, t, steps);
    var identity := s.pump.cursor.value.identity;
    assert NoBlankGiant(decode, t.Cap(), Split(s.file));
    hide After, NoGiants, NoBlankGiant, RowTrue;
    CaughtUpExactly(decode, t, steps);
    TableIsTrue(decode, t, steps, s.file);
    InvAfter(decode, t, s.file, steps);
    OursOwned(t, identity);
    WholeFileRows(decode, s.file);
    SmallTail(decode, t.Cap(), s.file);
    TextsAt(decode, Completed(s.file));
    TextsAt(decode, [Tail(s.file)]);
    hide Texts, Completed, Tail, Split, NonBlank, RowCount, Owned, PumpGood, CursorGood;
    var rows := Texts(decode, Split(s.file));
    assert rows == Texts(decode, Completed(s.file));
    forall i: nat | i < |rows| ensures s.pump.table[KeyAt(t.run, identity, i)].content == rows[i] {
      assert Owned(t, KeyAt(t.run, identity, i));
      SmallRow(decode, t.Cap(), s.file, i, s.pump.table[KeyAt(t.run, identity, i)].content);
    }
  }

  /** What the end-of-run snapshot keeps of such a file is then stored, under the same numbers; it is everything that
      is stored exactly when the snapshot is not truncated. */
  lemma {:induction false} CaughtUpMatchesSnapshot(decode: Decode, t: Trial, steps: seq<Step>, maxLines: nat)
    requires t.Valid() && NoGiants(t.Cap(), Split(After(decode, t, steps).file))
    requires CaughtUp(After(decode, t, steps)) && Tail(After(decode, t, steps).file) == []
    ensures var s := After(decode, t, steps);
            var r, identity := ReadSnapshotLines(decode, s.file, maxLines), s.pump.cursor.value.identity;
            && (r.TooLarge? <==> |s.file| > MAX_JSON_BYTES)
            && (r.FirstRows? ==>
                  && (forall i: nat :: i < |r.items| ==>
                        && KeyAt(t.run, identity, i) in s.pump.table
                        && s.pump.table[KeyAt(t.run, identity, i)].content == r.items[i])
                  && (r.truncated <==> KeyAt(t.run, identity, maxLines) in s.pump.table)
                  && (!r.truncated <==> forall i: nat :: KeyAt(t.run, identity, i) in s.pump.table ==> i < |r.items|))
  {
    CaughtUpStoresFile(decode, t, steps);
    var s := After(decode, t, steps);
    var identity := s.pump.cursor.value.identity;
    var r, rows := ReadSnapshotLines(decode, s.file, maxLines), Texts(decode, Split(s.file));
    hide After, NoGiants, Tail, Split, Texts, KeyAt;
    if r.FirstRows? && r.truncated {
      assert |r.items| == maxLines && KeyAt(t.run, identity, maxLines) in s.pump.table;
    }
  }

  // ---- the identity that appears late ----

  lemma {:induction false} KeysStay(max: nat, rows: seq<EventRow>, outcomes: seq<Posting>, table: Table,
                                    inFlight: seq<seq<EventRow>>)
    requires max >= 1
    ensures table.Keys <= PostRows(max, rows, outcomes, table, inFlight).table.Keys
  {
    PostKeys(max, rows, outcomes, table, inFlight);
  }

  lemma {:induction false} KeysStayNext(decode: Decode, t: Trial, s: World, step: Step)
    requires t.Valid()
    ensures s.pump.table.Keys <= Next(decode, t, s, step).pump.table.Keys
  {
    match step
    case Grow(_) =>
    case Pass(identified, readLength, outcomes) =>
      PassIs(decode, t, s, identified, readLength, outcomes);
      var cur := Begin(t, s, identified);
      hide Next, Begin, PostRows, Read, Chunk, Numbered;
      if cur.offset != |s.file| {
        var contents := Read(decode, t.Cap(), cur, Chunk(t.options, s.file, cur.offset, readLength)).1;
        KeysStay(t.options.maxBatchRows, Numbered(t.run, cur.identity, cur.rowSeq, contents), outcomes, s.pump.table, s.pump.inFlight);
      }
    case Deliver(k) =>
      if k < |s.pump.inFlight| { UpsertKeys(s.pump.table, s.pump.inFlight[k]); }
    case Foreign(rows) =>
      UpsertKeys(s.pump.table, rows);
  }

  lemma {:induction false} KeysStayAfter(decode: Decode, t: Trial, steps: seq<Step>, more: seq<Step>)
    requires t.Valid()
    ensures After(decode, t, steps).pump.table.Keys <= After(decode, t, steps + more).pump.table.Keys
  {
    if more == [] {
      assert steps + more == steps;
    } else {
      var init := more[..|more| - 1];
      assert (steps + more)[..|steps + more| - 1] == steps + init;
      KeysStayAfter(decode, t, steps, init);
      KeysStayNext(decode, t, After(decode, t, steps + init), more[|more| - 1]);
      hide Next;
    }
  }

  lemma {:induction false} FileGrowsAfter(decode: Decode, t: Trial, steps: seq<Step>, more: seq<Step>)
    requires t.Valid()
    ensures After(decode, t, steps).file <= After(decode, t, steps + more).file
  {
    if more == [] {
      assert steps + more == steps;
    } else {
      var init := more[..|more| - 1];
      assert (steps + more)[..|steps + more| - 1] == steps + init;
      FileGrowsAfter(decode, t, steps, init);
      FileGrows(decode, t, After(decode, t, steps + init), more[|more| - 1]);
      hide Next;
    }
  }

  /** Rows saved before the identity appeared are still stored after the rewound pump has caught up under the known
      identity. They have been replaced in place exactly when both identities name the same slot; otherwise
      every such line is stored twice. */
  lemma {:induction false} RewindReplacesIffSameSlot(decode: Decode, t: Trial, steps: seq<Step>, more: seq<Step>, i: nat)
    requires t.Valid() && NoBlankGiant(decode, t.Cap(), Split(After(decode, t, steps + more).file))
    requires var c := After(decode, t, steps).pump.cursor; c.Some? && c.value.identity == Unknown(t.name) && i < c.value.rowSeq
    requires CaughtUp(After(decode, t, steps + more)) && After(decode, t, steps + more).pump.cursor.value.identity == t.known
    ensures var table := After(decode, t, steps + more).pump.table;
            && KeyAt(t.run, Unknown(t.name), i) in table && KeyAt(t.run, t.known, i) in table
            && (KeyAt(t.run, Unknown(t.name), i) == KeyAt(t.run, t.known, i) <==>
                  t.known.trialId == t.name && t.known.scheduleIdx == 0 && t.known.attempt == 0)
  {
    hide After, RowTrue, NoBlankGiant, RowCount;
    var s, s' := After(decode, t, steps), After(decode, t, steps + more);
    FileGrowsAfter(decode, t, steps, more);
    TableIsTrue(decode, t, steps, s'.file);
    assert KeyAt(t.run, Unknown(t.name), i) in s.pump.table.Keys;
    OursOwned(t, Unknown(t.name));
    KeysStayAfter(decode, t, steps, more);
    CaughtUpExactly(decode, t, steps + more);
    assert s'.file[..|s.file|] == s.file;
    RowCountOfPrefix(decode, t.Cap(), s'.file, |s.file|, s'.file);
  }

  // ---- the posts of a pass ----

  function Min(a: int, b: int): int { if a < b then a else b }

  /** A pass goes on from the saved cursor, except that the known identity begins the file again once it appears, and a
      file that has become shorter is begun again under the identity of the cursor. */
  lemma {:induction false} BeginsWhere(t: Trial, s: World, identified: bool)
    requires t.Valid()
    ensures var saved, cur := s.pump.cursor, Begin(t, s, identified);
            var asKnown := identified && (saved.None? || !saved.value.identity.enriched);
            && cur.identity == (if asKnown then t.known else if saved.Some? then saved.value.identity else Unknown(t.name))
            && (if asKnown || saved.None? || saved.value.offset > |s.file|
                then cur.offset == cur.rowSeq == 0 && cur.remainder == [] && !cur.skipping
                else cur == saved.value)
  {
  }

  /** The rows a pass reads. */
  function PassRows(decode: Decode, t: Trial, s: World, identified: bool, readLength: nat): seq<EventRow>
    requires t.Valid() && Begin(t, s, identified).offset <= |s.file|
  {
    RowsRead(decode, t.options, t.run, Begin(t, s, identified), s.file, readLength)
  }

  /** A pass posts the rows it reads in batches of `maxBatchRows`, the last one possibly smaller. With `k` posts
      acknowledged before the first that is not, exactly the rows of those are stored; the next batch may still arrive if
      its post timed out; and the cursor moves, past all the rows, exactly when every post was acknowledged. */
  lemma {:induction false} PassPosts(decode: Decode, t: Trial, s: World, identified: bool, readLength: nat, outcomes: seq<Posting>)
    requires t.Valid() && Begin(t, s, identified).offset < |s.file|
    ensures var max, rows, next := t.options.maxBatchRows, PassRows(decode, t, s, identified, readLength),
              Next(decode, t, s, Pass(identified, readLength, outcomes)).pump;
            var k := Acks(outcomes, Posts(max, |rows|));
            var ok := k == Posts(max, |rows|);
            && PostedAs(max, rows, outcomes, s.pump.table, s.pump.inFlight, ok, next.table, next.inFlight, k)
            && (if !ok then next.cursor == s.pump.cursor
                else next.cursor.Some? && next.cursor.value.identity == Begin(t, s, identified).identity
                     && next.cursor.value.rowSeq == Begin(t, s, identified).rowSeq + |rows|
                     && next.cursor.value.offset == Begin(t, s, identified).offset
                        + Min(readLength, Min(t.options.maxBytesPerRead, |s.file| - Begin(t, s, identified).offset)))
  {
    var cur := Begin(t, s, identified);
    var chunk := Chunk(t.options, s.file, cur.offset, readLength);
    PassIs(decode, t, s, identified, readLength, outcomes);
    ReadOn(decode, t.Cap(), cur, chunk);
    hide Next, Begin, PostRows, Read, Chunk, Numbered, Acks, Posts, SentBy, Upsert;
    var rows := PassRows(decode, t, s, identified, readLength);
    PostRowsAs(t.options.maxBatchRows, rows, outcomes, s.pump.table, s.pump.inFlight);
    NumberedLength(t, cur.identity, cur.rowSeq, Read(decode, t.Cap(), cur, chunk).1);
  }

  lemma NumberedLength(t: Trial, identity: Identity, start: nat, contents: seq<Content>)
    ensures |Numbered(t.run, identity, start, contents)| == |contents|
  {
  }

  ghost predicate BatchSizes(max: nat, inFlight: seq<seq<EventRow>>) {
    forall b :: 0 <= b < |inFlight| ==> 1 <= |inFlight[b]| <= max
  }

  /** In every reachable state each batch in flight has between one and `maxBatchRows` rows. */
  lemma {:induction false} BatchSizesAfter(decode: Decode, t: Trial, steps: seq<Step>)
    requires t.Valid()
    ensures BatchSizes(t.options.maxBatchRows, After(decode, t, steps).pump.inFlight)
  {
    if steps != [] {
      var s, step := After(decode, t, steps[..|steps| - 1]), steps[|steps| - 1];
      BatchSizesAfter(decode, t, steps[..|steps| - 1]);
      hide PumpPass, Upsert;
      if step.Pass? { BatchSizesPass(decode, t, s, step.identified, step.readLength, step.outcomes); }
    }
  }

  lemma {:induction false} BatchSizesPass(decode: Decode, t: Trial, s: World, identified: bool, readLength: nat, outcomes: seq<Posting>)
    requires t.Valid() && BatchSizes(t.options.maxBatchRows, s.pump.inFlight)
    ensures BatchSizes(t.options.maxBatchRows, Next(decode, t, s, Pass(identified, readLength, outcomes)).pump.inFlight)
  {
    PassIs(decode, t, s, identified, readLength, outcomes);
    hide Next, Begin, PassFrom, Acks, Posts, SentBy, Upsert, PassRows;
    if Begin(t, s, identified).offset != |s.file| {
      PassPosts(decode, t, s, identified, readLength, outcomes);
    }
  }

  // ---- the final drain ----

  ghost predicate AllAcked(outcomes: seq<Posting>) {
    forall k :: 0 <= k < |outcomes| ==> outcomes[k] == Acked
  }

  lemma {:induction false} AckedPosts(max: nat, rows: seq<EventRow>, outcomes: seq<Posting>, table: Table,
                                      inFlight: seq<seq<EventRow>>)
    requires max >= 1 && AllAcked(outcomes)
    ensures PostRows(max, rows, outcomes, table, inFlight).ok
    decreases |rows|
  {
    if rows != [] {
      var (batch, rest) := NextBatch(max, rows);
      AckedPosts(max, rest, Later(outcomes), Upsert(table, batch), inFlight);
    }
  }

  /** A pass whose posts are all acknowledged and whose read is not short advances by the read limit. */
  lemma {:induction false} CleanPass(decode: Decode, t: Trial, s: World, identified: bool, readLength: nat,
                                     outcomes: seq<Posting>)
    requires t.Valid() && AllAcked(outcomes) && t.options.maxBytesPerRead <= readLength
    ensures var c := Next(decode, t, s, Pass(identified, readLength, outcomes)).pump.cursor;
            && c.Some? && c.value.identity == Begin(t, s, identified).identity
            && c.value.offset == Min(|s.file|, Begin(t, s, identified).offset + t.options.maxBytesPerRead)
  {
    PassIs(decode, t, s, identified, readLength, outcomes);
    var cur := Begin(t, s, identified);
    hide Next, Begin, PostRows, Read, Chunk, Numbered;
    if cur.offset != |s.file| {
      var chunk := Chunk(t.options, s.file, cur.offset, readLength);
      var n := ChunkIs(t.options, s.file, cur.offset, readLength);
      ReadOn(decode, t.Cap(), cur, chunk);
      var contents := Read(decode, t.Cap(), cur, chunk).1;
      AckedPosts(t.options.maxBatchRows, Numbered(t.run, cur.identity, cur.rowSeq, contents), outcomes, s.pump.table, s.pump.inFlight);
      assert |s.file[..cur.offset] + chunk| == n;
    }
  }

  /** A pass that reads to the limit, with every post acknowledged. */
  function FullPass(decode: Decode, t: Trial, s: World, readLength: nat): World
    requires t.Valid()
  {
    Next(decode, t, s, Pass(true, readLength, []))
  }

  /** `n` such passes in a row while the file does not change. */
  function Passes(decode: Decode, t: Trial, s: World, n: nat, readLength: nat): World
    requires t.Valid()
  {
    if n == 0 then s else FullPass(decode, t, Passes(decode, t, s, n - 1, readLength), readLength)
  }

  lemma {:induction false} FullPassAdvances(decode: Decode, t: Trial, s: World, readLength: nat)
    requires t.Valid() && t.options.maxBytesPerRead <= readLength && NoOther(t, s)
    ensures var next, from := FullPass(decode, t, s, readLength), Begin(t, s, true).offset;
            && next.file == s.file && from <= |s.file| && NoOther(t, next)
            && next.pump.cursor.Some? && next.pump.cursor.value.identity == t.known
            && next.pump.cursor.value.offset == Min(|s.file|, from + t.options.maxBytesPerRead) == Begin(t, next, true).offset
  {
    var next := FullPass(decode, t, s, readLength);
    CleanPass(decode, t, s, true, readLength, []);
    PassIs(decode, t, s, true, readLength, []);
    BeginBelow(t, s);
    BeginAgain(t, next);
    hide Next, Begin, PassFrom;
  }

  /** The saved cursor has no identity yet, or the known one. */
  ghost predicate NoOther(t: Trial, s: World) {
    s.pump.cursor.Some? && s.pump.cursor.value.identity.enriched ==> s.pump.cursor.value.identity == t.known
  }

  /** After `n` clean passes the pump has caught up exactly when they could read what was left; the final drain
      of a stopping pump is one such pass. */
  lemma {:induction false} DrainCatchesUpIff(decode: Decode, t: Trial, s: World, n: nat, readLength: nat)
    requires t.Valid() && n >= 1 && t.options.maxBytesPerRead <= readLength && NoOther(t, s)
    ensures var from, last := Begin(t, s, true).offset, Passes(decode, t, s, n, readLength);
            && last.file == s.file && NoOther(t, last)
            && last.pump.cursor.Some? && last.pump.cursor.value.identity == t.known
            && Begin(t, last, true).offset == last.pump.cursor.value.offset == Min(|s.file|, from + n * t.options.maxBytesPerRead)
            && (CaughtUp(last) <==> from + n * t.options.maxBytesPerRead >= |s.file|)
  {
    hide FullPass, Begin, NoOther;
    if n > 1 {
      DrainCatchesUpIff(decode, t, s, n - 1, readLength);
      TimesNext(n - 1, t.options.maxBytesPerRead);
    }
    FullPassAdvances(decode, t, Passes(decode, t, s, n - 1, readLength), readLength);
  }

  lemma TimesNext(n: nat, m: nat)
    ensures (n + 1) * m == n * m + m && n * m >= 0
  {
  }

  lemma BeginAgain(t: Trial, s: World)
    requires t.Valid() && s.pump.cursor.Some? && s.pump.cursor.value.identity == t.known && s.pump.cursor.value.offset <= |s.file|
    ensures Begin(t, s, true) == s.pump.cursor.value
  {
  }

  lemma BeginBelow(t: Trial, s: World)
    requires t.Valid()
    requires NoOther(t, s)
    ensures Begin(t, s, true).offset <= |s.file| && Begin(t, s, true).identity == t.known
  {
  }
}
