/** `readRows` of the evidence pump: one bounded read of a growing event file, and what any
    series of reads makes of the file. */
module EvidenceReader {
  import opened Outcomes
  import opened ByteStrings
  import opened EvidenceLines

  datatype Identity = Identity(
    trialId: string,
    scheduleIdx: int,
    attempt: int,
    variantId: string,
    taskId: string,
    replIdx: int,
    enriched: bool)

  datatype Cursor = Cursor(offset: nat, rowSeq: nat, remainder: Bytes, skipping: bool, identity: Identity)

  /** A parsed line, or the stub that stands for a line over the cap. */
  datatype Content = Line(text: string) | Stub(observed: nat, limit: nat)

  datatype EventRow = EventRow(coreRunId: string, identity: Identity, rowSeq: nat, content: Content)

  function FreshCursor(identity: Identity): Cursor { Cursor(0, 0, [], false, identity) }

  /** The rows of the lines that are not blank. */
  function Texts(decode: Decode, lines: seq<Bytes>): seq<Content> {
    var kept := NonBlank(decode, lines);
    seq(|kept|, i requires 0 <= i < |kept| => Line(TextOf(decode, kept[i])))
  }

  /** The text up to the last newline, and what follows it. */
  function Cut(buffer: Bytes): (Bytes, Bytes) {
    var last := LastIndexOfNewline(buffer);
    if last.None? then ([], buffer) else (buffer[..last.value], buffer[last.value + 1..])
  }

  function StubOf(cap: nat, remainder: Bytes): seq<Content> {
    if |remainder| > cap then [Stub(|remainder|, cap)] else []
  }

  /** The rows of a buffer that begins a line, and the cursor after it. */
  function Emit(decode: Decode, cap: nat, cur: Cursor, chunk: Bytes, buffer: Bytes): (Cursor, seq<Content>) {
    var (complete, remainder) := Cut(buffer);
    var rows := Texts(decode, Split(complete)) + StubOf(cap, remainder);
    (Onward(cap, cur, chunk, rows, remainder), rows)
  }

  function Onward(cap: nat, cur: Cursor, chunk: Bytes, rows: seq<Content>, remainder: Bytes): Cursor {
    Cursor(cur.offset + |chunk|, cur.rowSeq + |rows|, if |remainder| > cap then [] else remainder, |remainder| > cap, cur.identity)
  }

  /** One read: the cursor after it, and the contents of the rows it emits. */
  function Read(decode: Decode, cap: nat, cur: Cursor, chunk: Bytes): (Cursor, seq<Content>) {
    var buffer := cur.remainder + chunk;
    var newline := IndexOfNewline(buffer);
    if !cur.skipping then Emit(decode, cap, cur, chunk, buffer)
    else if newline.None? then (cur.(offset := cur.offset + |chunk|, remainder := []), [])
    else Emit(decode, cap, cur, chunk, buffer[newline.value + 1..])
  }

  function Numbered(run: string, identity: Identity, start: nat, contents: seq<Content>): seq<EventRow> {
    seq(|contents|, j requires 0 <= j < |contents| => EventRow(run, identity, start + j, contents[j]))
  }

  lemma NothingYet(decode: Decode, run: string, identity: Identity, start: nat)
    ensures Texts(decode, []) == [] && Numbered(run, identity, start, []) == []
  {
  }

  lemma NumberedSnoc(run: string, identity: Identity, start: nat, contents: seq<Content>, x: Content)
    ensures Numbered(run, identity, start, contents + [x]) == Numbered(run, identity, start, contents) + [EventRow(run, identity, start + |contents|, x)]
  {
  }

  lemma {:induction false} TextsStep(decode: Decode, lines: seq<Bytes>, i: nat)
    requires i < |lines|
    ensures Texts(decode, lines[..i + 1]) ==
            Texts(decode, lines[..i]) + if Blank(decode, lines[i]) then [] else [Line(TextOf(decode, lines[i]))]
  {
    assert lines[..i + 1][..i] == lines[..i];
  }

  /** The loop over the complete lines: one numbered row for each that is not blank. */
  method ReadLines(decode: Decode, run: string, identity: Identity, start: nat,
                   lines: seq<Bytes>) returns (rows: seq<EventRow>, rowSeq: nat)
    ensures rows == Numbered(run, identity, start, Texts(decode, lines)) && rowSeq == start + |Texts(decode, lines)|
  {
    rows, rowSeq := [], start;
    ghost var texts := [];
    assert lines[..0] == [];
    NothingYet(decode, run, identity, start);
    hide Texts, Numbered;
    for i := 0 to |lines|
      invariant texts == Texts(decode, lines[..i])
      invariant rows == Numbered(run, identity, start, texts) && rowSeq == start + |texts|
    {
      TextsStep(decode, lines, i);
      if TextOf(decode, lines[i]) != "" {
        NumberedSnoc(run, identity, start, texts, Line(TextOf(decode, lines[i])));
        texts := texts + [Line(TextOf(decode, lines[i]))];
        rows := rows + [EventRow(run, identity, rowSeq, Line(TextOf(decode, lines[i])))];
        rowSeq := rowSeq + 1;
      }
    }
    assert lines[..|lines|] == lines;
  }

  /** `readRows`. */
  method ReadRows(decode: Decode, cap: nat, run: string, cur: Cursor, chunk: Bytes) returns (rows: seq<EventRow>, next: Cursor)
    ensures next == Read(decode, cap, cur, chunk).0
    ensures rows == Numbered(run, cur.identity, cur.rowSeq, Read(decode, cap, cur, chunk).1)
  {
    var buffer := cur.remainder + chunk;
    var skipping := cur.skipping;
    hide Texts, Split, Cut, IndexOfNewline, Numbered;
    NothingYet(decode, run, cur.identity, cur.rowSeq);
    if skipping {
      var newline := IndexOfNewline(buffer);
      if newline.None? {
        return [], cur.(offset := cur.offset + |chunk|, remainder := []);
      }
      buffer := buffer[newline.value + 1..];
      skipping := false;
    }
    var (complete, remainder) := Cut(buffer);
    var rowSeq;
    rows, rowSeq := ReadLines(decode, run, cur.identity, cur.rowSeq, Split(complete));
    ghost var texts := Texts(decode, Split(complete));
    if |remainder| > cap {
      NumberedSnoc(run, cur.identity, cur.rowSeq, texts, Stub(|remainder|, cap));
      rows := rows + [EventRow(run, cur.identity, rowSeq, Stub(|remainder|, cap))];
      rowSeq := rowSeq + 1;
      remainder := [];
      skipping := true;
    } else {
      assert texts + [] == texts;
    }
    next := Cursor(cur.offset + |chunk|, rowSeq, remainder, skipping, cur.identity);
  }

  // ---- the place of a cursor in the file ----

  /** The cursor has consumed exactly `w`, and remembers its unfinished line unless that is over the cap. */
  ghost predicate At(cap: nat, cur: Cursor, w: Bytes) {
    && cur.offset == |w|
    && cur.skipping == (|Tail(w)| > cap)
    && cur.remainder == if cur.skipping then [] else Tail(w)
  }

  /** One row per finished line that is not blank, and one for an unfinished line over the cap. */
  function RowCount(decode: Decode, cap: nat, w: Bytes): nat {
    |NonBlank(decode, Completed(w))| + if |Tail(w)| > cap then 1 else 0
  }

  /** The line over the cap that this read finishes, if it finishes one. */
  function Finished(cur: Cursor, w: Bytes, c: Bytes): seq<Bytes> {
    var newline := IndexOfNewline(c);
    if cur.skipping && newline.Some? then [Tail(w) + c[..newline.value]] else []
  }

  /** The other lines that this read finishes. */
  function Fresh(cur: Cursor, w: Bytes, c: Bytes): seq<Bytes> {
    var newline := IndexOfNewline(c);
    if !cur.skipping then Completed(Tail(w) + c)
    else if newline.None? then []
    else Completed(c[newline.value + 1..])
  }

  function Stubs(cap: nat, cur: Cursor, w: Bytes, c: Bytes): seq<Content> {
    if cur.skipping && IndexOfNewline(c).None? then [] else StubOf(cap, Tail(w + c))
  }

  lemma {:induction false} CutRows(decode: Decode, buffer: Bytes)
    ensures Texts(decode, Split(Cut(buffer).0)) == Texts(decode, Completed(buffer)) && Cut(buffer).1 == Tail(buffer)
  {
    CutAtLastNewline(buffer);
    if LastIndexOfNewline(buffer).None? {
      assert NonBlank(decode, [[]]) == [];
    }
  }

  lemma {:induction false} ReadPlain(decode: Decode, cap: nat, cur: Cursor, w: Bytes, c: Bytes)
    requires At(cap, cur, w) && !cur.skipping
    ensures ReadExplained(decode, cap, cur, w, c)
  {
    SplitFromTail(w, c);
    EmitExplained(decode, cap, cur, c, Tail(w) + c);
    hide Emit, Split, Texts, Completed, Tail, IndexOfNewline, StubOf;
    EmptyMiddle(Completed(w), Completed(Tail(w) + c));
  }

  lemma {:induction false} ReadSkipsOn(decode: Decode, cap: nat, cur: Cursor, w: Bytes, c: Bytes)
    requires At(cap, cur, w) && cur.skipping && IndexOfNewline(c).None?
    ensures ReadExplained(decode, cap, cur, w, c)
  {
    FirstNewline(c);
    hide Emit, Split, Texts, Completed, Tail, IndexOfNewline;
    TailGrows(w, c);
    EmptyFirst(c);
    NothingYet(decode, "", cur.identity, 0);
    EmptyMiddle(Completed(w), []);
  }

  lemma {:induction false} ReadResumes(decode: Decode, cap: nat, cur: Cursor, w: Bytes, c: Bytes)
    requires At(cap, cur, w) && cur.skipping && IndexOfNewline(c).Some?
    ensures ReadExplained(decode, cap, cur, w, c)
  {
    var k := IndexOfNewline(c).value;
    assert cur.remainder == [];
    hide *;
    var line, rest := LineResumes(cur, w, c, k);
    ReadFrom(decode, cap, cur, c, k, rest);
    ResumeExplained(decode, cap, cur, w, c, line, rest);
  }

  lemma {:induction false} LineResumes(cur: Cursor, w: Bytes, c: Bytes, k: nat) returns (line: Bytes, rest: Bytes)
    requires cur.skipping && IndexOfNewline(c) == Some(k)
    ensures rest == c[k + 1..] && Finished(cur, w, c) == [line] && Fresh(cur, w, c) == Completed(rest)
    ensures Completed(w + c) == Completed(w) + [line] + Completed(rest) && Tail(w + c) == Tail(rest)
  {
    line, rest := Tail(w) + c[..k], c[k + 1..];
    SkippedLine(cur, w, c, k);
    hide *;
    LineEnds(w, c, k);
  }

  lemma {:induction false} SkippedLine(cur: Cursor, w: Bytes, c: Bytes, k: nat)
    requires cur.skipping && IndexOfNewline(c) == Some(k)
    ensures Finished(cur, w, c) == [Tail(w) + c[..k]] && Fresh(cur, w, c) == Completed(c[k + 1..])
  {
    hide Completed, Tail, IndexOfNewline;
  }

  lemma {:induction false} ResumeExplained(decode: Decode, cap: nat, cur: Cursor, w: Bytes, c: Bytes, line: Bytes, rest: Bytes)
    requires At(cap, cur, w) && cur.skipping && IndexOfNewline(c).Some?
    requires Finished(cur, w, c) == [line] && Fresh(cur, w, c) == Completed(rest)
    requires Completed(w + c) == Completed(w) + [line] + Completed(rest) && Tail(w + c) == Tail(rest)
    requires Read(decode, cap, cur, c) == Emit(decode, cap, cur, c, rest)
    ensures ReadExplained(decode, cap, cur, w, c)
  {
    EmitExplained(decode, cap, cur, c, rest);
    hide Read, Emit, Texts, Completed, Tail, Finished, Fresh, IndexOfNewline, StubOf;
  }

  /** A read that meets the end of the skipped line goes on with what follows it. */
  lemma {:induction false} ReadFrom(decode: Decode, cap: nat, cur: Cursor, c: Bytes, k: nat, rest: Bytes)
    requires cur.skipping && cur.remainder == [] && IndexOfNewline(c) == Some(k) && rest == c[k + 1..]
    ensures Read(decode, cap, cur, c) == Emit(decode, cap, cur, c, rest)
  {
    hide Emit, IndexOfNewline;
    EmptyFirst(c);
  }

  lemma {:induction false} EmitExplained(decode: Decode, cap: nat, cur: Cursor, chunk: Bytes, buffer: Bytes)
    ensures var rows := Texts(decode, Completed(buffer)) + StubOf(cap, Tail(buffer));
            Emit(decode, cap, cur, chunk, buffer) == (Onward(cap, cur, chunk, rows, Tail(buffer)), rows)
  {
    CutRows(decode, buffer);
    hide Cut, Split, Texts, Completed, Tail, StubOf, Onward;
  }

  lemma EmptyMiddle(a: seq<Bytes>, b: seq<Bytes>)
    ensures a + [] + b == a + b
  {
  }

  lemma EmptyFirst(c: Bytes)
    ensures [] + c == c
  {
  }

  /** What one read does, in terms of the lines of the file. */
  ghost predicate ReadExplained(decode: Decode, cap: nat, cur: Cursor, w: Bytes, c: Bytes) {
    var (next, rows) := Read(decode, cap, cur, c);
    && At(cap, next, w + c)
    && next.identity == cur.identity
    && next.rowSeq == cur.rowSeq + |rows|
    && Completed(w + c) == Completed(w) + Finished(cur, w, c) + Fresh(cur, w, c)
    && rows == Texts(decode, Fresh(cur, w, c)) + Stubs(cap, cur, w, c)
    && (cur.skipping && IndexOfNewline(c).None? ==> next.skipping)
  }

  lemma {:induction false} ReadExplains(decode: Decode, cap: nat, cur: Cursor, w: Bytes, c: Bytes)
    requires At(cap, cur, w)
    ensures ReadExplained(decode, cap, cur, w, c)
  {
    hide *;
    if !cur.skipping {
      ReadPlain(decode, cap, cur, w, c);
    } else if IndexOfNewline(c).None? {
      ReadSkipsOn(decode, cap, cur, w, c);
    } else {
      ReadResumes(decode, cap, cur, w, c);
    }
  }

  lemma {:induction false} NoStubs(decode: Decode, cap: nat, lines: seq<Bytes>, stubs: seq<Content>)
    requires |stubs| <= 1 && forall i :: 0 <= i < |stubs| ==> stubs[i].Stub?
    ensures var rows := Texts(decode, lines) + stubs;
            && (forall j :: 0 <= j < |rows| && rows[j].Stub? ==> j == |rows| - 1 && stubs == [rows[j]])
            && (stubs != [] <==> rows != [] && rows[|rows| - 1].Stub?)
  {
    hide NonBlank;
  }

  /** A read emits a stub exactly when the line it leaves unfinished is over the cap and not skipped since before; the
      stub is its last row and reports how much of the line has been read, and the cap. */
  lemma {:induction false} StubReported(decode: Decode, cap: nat, cur: Cursor, w: Bytes, c: Bytes)
    requires At(cap, cur, w)
    ensures var rows, line := Read(decode, cap, cur, c).1, Tail(w + c);
            && (forall j :: 0 <= j < |rows| && rows[j].Stub? ==> j == |rows| - 1 && rows[j] == Stub(|line|, cap))
            && (rows != [] && rows[|rows| - 1].Stub? <==> |line| > cap && (|Tail(w)| > cap ==> NEWLINE in c))
  {
    ReadExplains(decode, cap, cur, w, c);
    FirstNewline(c);
    hide Read, Texts, Tail, IndexOfNewline, Completed, Fresh, Finished;
    if IndexOfNewline(c).Some? { assert c[IndexOfNewline(c).value] == NEWLINE; }
    NoStubs(decode, cap, Fresh(cur, w, c), Stubs(cap, cur, w, c));
  }

  lemma {:induction false} ReadOn(decode: Decode, cap: nat, cur: Cursor, chunk: Bytes)
    ensures var (next, contents) := Read(decode, cap, cur, chunk);
            && next.identity == cur.identity && next.offset == cur.offset + |chunk|
            && next.rowSeq == cur.rowSeq + |contents|
  {
    hide Cut, Texts, Split, StubOf, IndexOfNewline;
  }
}
