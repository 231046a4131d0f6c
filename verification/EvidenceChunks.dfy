/** What a series of reads makes of an event file, however the file is cut into reads. */
module EvidenceChunks {
  import opened Outcomes
  import opened ByteStrings
  import opened EvidenceLines
  import opened EvidenceReader

  ghost predicate NoBlankGiant(decode: Decode, cap: nat, lines: seq<Bytes>) {
    forall i :: 0 <= i < |lines| && |lines[i]| > cap ==> !Blank(decode, lines[i])
  }

  ghost predicate NoGiants(cap: nat, lines: seq<Bytes>) {
    forall i :: 0 <= i < |lines| ==> |lines[i]| <= cap
  }

  function Concat(chunks: seq<Bytes>): Bytes {
    if chunks == [] then [] else Concat(chunks[..|chunks| - 1]) + chunks[|chunks| - 1]
  }

  /** The cursor and all rows after reading the chunks in order. */
  function Feed(decode: Decode, cap: nat, identity: Identity, chunks: seq<Bytes>): (Cursor, seq<Content>) {
    if chunks == [] then (FreshCursor(identity), []) else
      var (cur, rows) := Feed(decode, cap, identity, chunks[..|chunks| - 1]);
      var (next, more) := Read(decode, cap, cur, chunks[|chunks| - 1]);
      (next, rows + more)
  }

  // ---- counting ----

  function Surplus(decode: Decode, cur: Cursor, w: Bytes, c: Bytes): nat {
    if Finished(cur, w, c) != [] && Blank(decode, Finished(cur, w, c)[0]) then 1 else 0
  }

  /** A read emits one row per line it finishes that is not blank, and one per line over the cap that it
      begins to skip; so a skipped line that turns out to be blank leaves one row too many. */
  lemma {:induction false} ReadCounts(decode: Decode, cap: nat, cur: Cursor, w: Bytes, c: Bytes)
    requires At(cap, cur, w)
    ensures |Read(decode, cap, cur, c).1| + RowCount(decode, cap, w) == RowCount(decode, cap, w + c) + Surplus(decode, cur, w, c)
  {
    ReadSizes(decode, cap, cur, w, c);
    ReadExplains(decode, cap, cur, w, c);
    NonBlankOne(decode, Finished(cur, w, c));
    hide Read, Texts, Fresh, Completed, Tail, NonBlank;
  }

  lemma {:induction false} ReadSizes(decode: Decode, cap: nat, cur: Cursor, w: Bytes, c: Bytes)
    requires At(cap, cur, w)
    ensures |Read(decode, cap, cur, c).1| == |NonBlank(decode, Fresh(cur, w, c))| + |Stubs(cap, cur, w, c)|
    ensures |NonBlank(decode, Completed(w + c))| ==
            |NonBlank(decode, Completed(w))| + |NonBlank(decode, Finished(cur, w, c))| + |NonBlank(decode, Fresh(cur, w, c))|
  {
    ReadExplains(decode, cap, cur, w, c);
    NonBlankConcat(decode, Completed(w) + Finished(cur, w, c), Fresh(cur, w, c));
    NonBlankConcat(decode, Completed(w), Finished(cur, w, c));
    hide Read, Fresh, Finished, Completed, Tail, NonBlank, Stubs;
  }

  lemma {:induction false} NonBlankOne(decode: Decode, lines: seq<Bytes>)
    requires |lines| <= 1
    ensures |NonBlank(decode, lines)| == if lines != [] && !Blank(decode, lines[0]) then 1 else 0
    ensures lines != [] && !Blank(decode, lines[0]) ==> NonBlank(decode, lines) == lines
  {
    if lines != [] {
      OneLine(decode, lines[0]);
      hide NonBlank, Blank;
      assert lines == [lines[0]];
    }
  }

  lemma {:induction false} OneLine(decode: Decode, line: Bytes)
    ensures NonBlank(decode, [line]) == if Blank(decode, line) then [] else [line]
  {
    assert [line][..0] == [];
    assert NonBlank(decode, []) == [];
  }

  /** The line that a read finishes is a finished line of the file. */
  lemma {:induction false} FinishedLine(decode: Decode, cap: nat, cur: Cursor, w: Bytes, c: Bytes)
    requires At(cap, cur, w) && Finished(cur, w, c) != []
    ensures |Completed(w)| < |Completed(w + c)|
    ensures Finished(cur, w, c) == [Completed(w + c)[|Completed(w)|]] && |Finished(cur, w, c)[0]| > cap
  {
    ReadExplains(decode, cap, cur, w, c);
    hide Fresh, Completed, Tail, Read;
  }

  lemma {:induction false} ReadCountsExactly(decode: Decode, cap: nat, cur: Cursor, w: Bytes, c: Bytes)
    requires At(cap, cur, w) && NoBlankGiant(decode, cap, Completed(w + c))
    ensures |Read(decode, cap, cur, c).1| + RowCount(decode, cap, w) == RowCount(decode, cap, w + c)
  {
    ReadCounts(decode, cap, cur, w, c);
    if Finished(cur, w, c) != [] { FinishedLine(decode, cap, cur, w, c); }
  }

  lemma {:induction false} PrefixKeepsNoBlankGiant(decode: Decode, cap: nat, v: Bytes, c: Bytes)
    requires NoBlankGiant(decode, cap, Completed(v + c))
    ensures NoBlankGiant(decode, cap, Completed(v))
  {
    SplitPrefix(v, v + c);
    hide Completed;
  }

  /** Whatever the chunks, the cursor ends at the end of the bytes read, and remembers at most `cap` of them. */
  lemma {:induction false} FeedPlace(decode: Decode, cap: nat, identity: Identity, chunks: seq<Bytes>)
    ensures var (cur, rows) := Feed(decode, cap, identity, chunks);
            && At(cap, cur, Concat(chunks)) && |cur.remainder| <= cap
            && cur.rowSeq == |rows| && cur.identity == identity
  {
    if chunks != [] {
      var init, last := chunks[..|chunks| - 1], chunks[|chunks| - 1];
      FeedPlace(decode, cap, identity, init);
      ReadExplains(decode, cap, Feed(decode, cap, identity, init).0, Concat(init), last);
      hide Read, Completed;
    }
  }

  /** Without blank lines over the cap, the number of rows depends on the bytes alone. */
  lemma {:induction false} FeedCounts(decode: Decode, cap: nat, identity: Identity, chunks: seq<Bytes>)
    requires NoBlankGiant(decode, cap, Completed(Concat(chunks)))
    ensures |Feed(decode, cap, identity, chunks).1| == RowCount(decode, cap, Concat(chunks))
  {
    if chunks != [] {
      var init, last := chunks[..|chunks| - 1], chunks[|chunks| - 1];
      PrefixKeepsNoBlankGiant(decode, cap, Concat(init), last);
      FeedCounts(decode, cap, identity, init);
      FeedPlace(decode, cap, identity, init);
      ReadCountsExactly(decode, cap, Feed(decode, cap, identity, init).0, Concat(init), last);
      hide Read, RowCount, Completed;
    } else {
      assert NonBlank(decode, []) == [];
    }
  }

  lemma {:induction false} FeedOne(decode: Decode, cap: nat, identity: Identity, w: Bytes)
    ensures Concat([w]) == w
    ensures Feed(decode, cap, identity, [w]) == Read(decode, cap, FreshCursor(identity), w)
  {
    assert [w][..0] == [];
    assert [] + w == w;
    var rows := Read(decode, cap, FreshCursor(identity), w).1;
    assert [] + rows == rows;
  }

  lemma {:induction false} FeedTwo(decode: Decode, cap: nat, identity: Identity, u: Bytes, c: Bytes)
    ensures Concat([u, c]) == u + c
    ensures var (cur, rows) := Read(decode, cap, FreshCursor(identity), u);
            Feed(decode, cap, identity, [u, c]).1 == rows + Read(decode, cap, cur, c).1
  {
    assert [u, c][..1] == [u];
    FeedOne(decode, cap, identity, u);
    hide Read;
  }

  /** A cut just before the newline of a blank line over the cap costs one row more than no cut. */
  lemma {:induction false} CutBeforeNewline(decode: Decode, cap: nat, identity: Identity, u: Bytes, c: Bytes)
    requires |Tail(u)| > cap && Blank(decode, Tail(u)) && c != [] && c[0] == NEWLINE
    ensures |Feed(decode, cap, identity, [u, c]).1| == |Feed(decode, cap, identity, [u + c]).1| + 1
  {
    var start, cur := FreshCursor(identity), Read(decode, cap, FreshCursor(identity), u).0;
    hide *;
    FeedOne(decode, cap, identity, u + c);
    FeedTwo(decode, cap, identity, u, c);
    ReadFirst(decode, cap, identity, u);
    ReadFirst(decode, cap, identity, u + c);
    ReadCounts(decode, cap, cur, u, c);
    NewlineFirst(cap, cur, u, c);
    SurplusOne(decode, cur, u, c);
  }

  lemma {:induction false} SurplusOne(decode: Decode, cur: Cursor, u: Bytes, c: Bytes)
    requires Finished(cur, u, c) == [Tail(u)] && Blank(decode, Tail(u))
    ensures Surplus(decode, cur, u, c) == 1
  {
    hide Finished, Tail, Blank;
  }

  lemma {:induction false} NewlineFirst(cap: nat, cur: Cursor, u: Bytes, c: Bytes)
    requires At(cap, cur, u) && |Tail(u)| > cap && c != [] && c[0] == NEWLINE
    ensures Finished(cur, u, c) == [Tail(u)]
  {
    assert IndexOfNewline(c) == Some(0) && Tail(u) + c[..0] == Tail(u);
    hide Tail, IndexOfNewline;
  }

  lemma {:induction false} ReadFirst(decode: Decode, cap: nat, identity: Identity, w: Bytes)
    ensures |Read(decode, cap, FreshCursor(identity), w).1| == RowCount(decode, cap, w)
    ensures At(cap, Read(decode, cap, FreshCursor(identity), w).0, w)
  {
    var start := FreshCursor(identity);
    EmptyFirst(w);
    ReadCounts(decode, cap, start, [], w);
    ReadExplains(decode, cap, start, [], w);
    assert NonBlank(decode, []) == [];
    assert RowCount(decode, cap, []) == 0;
    assert Surplus(decode, start, [], w) == 0;
    hide Read, RowCount, Tail, Completed, IndexOfNewline;
  }

  lemma {:induction false} JoinConcat(a: seq<Bytes>, b: seq<Bytes>)
    requires |a| >= 1 && |b| >= 1
    ensures Join(a + b) == Join(a) + ([NEWLINE] + Join(b))
  {
    var n := |b| - 1;
    if n == 0 {
      assert (a + b)[..|a|] == a;
      ConcatAssociates(Join(a), [NEWLINE], b[0]);
    } else {
      JoinConcat(a, b[..n]);
      assert (a + b)[..|a + b| - 1] == a + b[..n];
      assert Join(a) + ([NEWLINE] + Join(b[..n])) + [NEWLINE] + b[n] == Join(a) + ([NEWLINE] + (Join(b[..n]) + [NEWLINE] + b[n]));
    }
  }

  ghost predicate ChunkIndependent(decode: Decode, cap: nat, identity: Identity, w: Bytes) {
    forall a, b :: Concat(a) == w && Concat(b) == w ==>
      |Feed(decode, cap, identity, a).1| == |Feed(decode, cap, identity, b).1|
  }

  /** The number of rows is the same for every way of cutting `w` into reads exactly when no finished
      line over the cap is blank. */
  lemma {:induction false} NumberingChunkIndependentIff(decode: Decode, cap: nat, identity: Identity, w: Bytes)
    ensures ChunkIndependent(decode, cap, identity, w) <==> NoBlankGiant(decode, cap, Completed(w))
  {
    hide NoBlankGiant, Feed, Completed;
    if NoBlankGiant(decode, cap, Completed(w)) {
      forall a, b | Concat(a) == w && Concat(b) == w
        ensures |Feed(decode, cap, identity, a).1| == |Feed(decode, cap, identity, b).1|
      {
        FeedCounts(decode, cap, identity, a);
        FeedCounts(decode, cap, identity, b);
      }
    } else {
      BlankGiantShifts(decode, cap, identity, w);
    }
  }

  lemma {:induction false} BlankGiantShifts(decode: Decode, cap: nat, identity: Identity, w: Bytes)
    requires !NoBlankGiant(decode, cap, Completed(w))
    ensures !ChunkIndependent(decode, cap, identity, w)
  {
    hide Split, Completed, Tail, Feed, Concat, Blank, ChunkIndependent;
    var j :| 0 <= j < |Completed(w)| && |Completed(w)[j]| > cap && Blank(decode, Completed(w)[j]);
    var u, c := CutAfterLine(w, j);
    CutBeforeNewline(decode, cap, identity, u, c);
    FeedOne(decode, cap, identity, w);
    FeedTwo(decode, cap, identity, u, c);
    TwoWays(decode, cap, identity, w, [u, c], [w]);
  }

  lemma {:induction false} TwoWays(decode: Decode, cap: nat, identity: Identity, w: Bytes, a: seq<Bytes>, b: seq<Bytes>)
    requires Concat(a) == w && Concat(b) == w && |Feed(decode, cap, identity, a).1| != |Feed(decode, cap, identity, b).1|
    ensures !ChunkIndependent(decode, cap, identity, w)
  {
    hide Concat, Feed;
  }

  lemma {:induction false} CutAfterLine(w: Bytes, j: nat) returns (u: Bytes, c: Bytes)
    requires j < |Completed(w)|
    ensures w == u + c && c != [] && c[0] == NEWLINE && Tail(u) == Completed(w)[j]
  {
    var lines := Split(w);
    var head := lines[..j + 1];
    u, c := Join(head), [NEWLINE] + Join(lines[j + 1..]);
    assert lines == head + lines[j + 1..];
    JoinSplit(w);
    JoinConcat(head, lines[j + 1..]);
    SplitNoNewlines(w);
    SplitJoin(head);
    hide Join, Split;
  }

  // ---- contents ----

  /** Row `i` of the file `w`: the text of its `i`-th line that is not blank, or a stub for that line
      when it is over the cap. */
  ghost predicate RowTrue(decode: Decode, cap: nat, w: Bytes, i: nat, content: Content) {
    var lines := NonBlank(decode, Split(w));
    && i < |lines|
    && match content
       case Line(text) => text == TextOf(decode, lines[i])
       case Stub(observed, limit) => limit == cap && cap < observed <= |lines[i]|
  }

  /** The rows are those numbered from `start` on. */
  ghost predicate RowsTrue(decode: Decode, cap: nat, w: Bytes, start: nat, rows: seq<Content>) {
    forall j :: 0 <= j < |rows| ==> RowTrue(decode, cap, w, start + j, rows[j])
  }

  lemma {:induction false} RowsTrueConcat(decode: Decode, cap: nat, w: Bytes, start: nat, a: seq<Content>,
                                          b: seq<Content>, middle: nat)
    requires RowsTrue(decode, cap, w, start, a) && middle == start + |a| && RowsTrue(decode, cap, w, middle, b)
    ensures RowsTrue(decode, cap, w, start, a + b)
  {
    hide RowTrue;
    forall j | 0 <= j < |a + b| ensures RowTrue(decode, cap, w, start + j, (a + b)[j]) {
      if j >= |a| { assert RowTrue(decode, cap, w, middle + (j - |a|), b[j - |a|]); }
    }
  }

  lemma {:induction false} NonBlankPrefix(decode: Decode, a: seq<Bytes>, b: seq<Bytes>)
    requires a <= b
    ensures NonBlank(decode, a) <= NonBlank(decode, b)
  {
    assert b == a + b[|a|..];
    NonBlankConcat(decode, a, b[|a|..]);
  }

  /** The unfinished line over the cap comes right after the finished lines. */
  lemma {:induction false} TailRow(decode: Decode, cap: nat, v: Bytes, w: Bytes)
    requires v <= w && NoBlankGiant(decode, cap, Split(w)) && |Tail(v)| > cap
    ensures var n := |NonBlank(decode, Completed(v))|;
            n < |NonBlank(decode, Split(w))| && |Tail(v)| <= |NonBlank(decode, Split(w))[n]|
  {
    hide *;
    SplitPrefix(v, w);
    var k := |Completed(v)|;
    var line := Split(w)[k];
    GiantNotBlank(decode, cap, Split(w), k);
    PrefixThen(Completed(v), Split(w));
    NonBlankPrefix(decode, Completed(v) + [line], Split(w));
    NonBlankConcat(decode, Completed(v), [line]);
    NonBlankOne(decode, [line]);
    assert (NonBlank(decode, Completed(v)) + [line])[|NonBlank(decode, Completed(v))|] == line;
  }

  lemma GiantNotBlank(decode: Decode, cap: nat, lines: seq<Bytes>, k: nat)
    requires NoBlankGiant(decode, cap, lines) && k < |lines| && |lines[k]| > cap
    ensures !Blank(decode, lines[k])
  {
  }

  lemma PrefixThen(a: seq<Bytes>, b: seq<Bytes>)
    requires a <= b && |a| < |b|
    ensures a + [b[|a|]] <= b
  {
  }

  lemma {:induction false} FinishedNotBlank(decode: Decode, cap: nat, cur: Cursor, v: Bytes, c: Bytes, w: Bytes)
    requires At(cap, cur, v) && v + c <= w && NoBlankGiant(decode, cap, Split(w))
    ensures NoBlankGiant(decode, cap, Completed(v + c))
    ensures NonBlank(decode, Finished(cur, v, c)) == Finished(cur, v, c)
  {
    SplitPrefix(v + c, w);
    if Finished(cur, v, c) != [] { FinishedLine(decode, cap, cur, v, c); }
    hide Completed, Split, Tail;
    NonBlankOne(decode, Finished(cur, v, c));
  }

  /** Every row a read emits is the row of that number. */
  lemma {:induction false} ReadTrue(decode: Decode, cap: nat, w: Bytes, cur: Cursor, v: Bytes, c: Bytes)
    requires At(cap, cur, v) && cur.rowSeq == RowCount(decode, cap, v)
    requires v + c <= w && NoBlankGiant(decode, cap, Split(w))
    ensures var (next, rows) := Read(decode, cap, cur, c);
            && At(cap, next, v + c) && next.rowSeq == RowCount(decode, cap, v + c) == cur.rowSeq + |rows|
            && next.identity == cur.identity
            && RowsTrue(decode, cap, w, cur.rowSeq, rows)
  {
    hide *;
    FinishedNotBlank(decode, cap, cur, v, c, w);
    ReadCountsExactly(decode, cap, cur, v, c);
    ReadPlace(decode, cap, cur, v, c);
    ReadRowsTrue(decode, cap, w, cur, v, c);
  }

  lemma {:induction false} ReadPlace(decode: Decode, cap: nat, cur: Cursor, w: Bytes, c: Bytes)
    requires At(cap, cur, w)
    ensures var (next, rows) := Read(decode, cap, cur, c);
            At(cap, next, w + c) && next.identity == cur.identity && next.rowSeq == cur.rowSeq + |rows|
  {
    ReadExplains(decode, cap, cur, w, c);
  }

  lemma {:induction false} ReadRowsTrue(decode: Decode, cap: nat, w: Bytes, cur: Cursor, v: Bytes, c: Bytes)
    requires At(cap, cur, v) && cur.rowSeq == RowCount(decode, cap, v)
    requires v + c <= w && NoBlankGiant(decode, cap, Split(w))
    ensures RowsTrue(decode, cap, w, cur.rowSeq, Read(decode, cap, cur, c).1)
  {
    var rows := Read(decode, cap, cur, c).1;
    hide RowTrue, Read, RowCount, NoBlankGiant, At;
    forall j | 0 <= j < |rows| ensures RowTrue(decode, cap, w, cur.rowSeq + j, rows[j]) {
      ReadRowTrue(decode, cap, w, cur, v, c, j);
    }
  }

  lemma {:induction false} ReadRowTrue(decode: Decode, cap: nat, w: Bytes, cur: Cursor, v: Bytes, c: Bytes, j: nat)
    requires At(cap, cur, v) && cur.rowSeq == RowCount(decode, cap, v)
    requires v + c <= w && NoBlankGiant(decode, cap, Split(w))
    requires j < |Read(decode, cap, cur, c).1|
    ensures RowTrue(decode, cap, w, cur.rowSeq + j, Read(decode, cap, cur, c).1[j])
  {
    hide *;
    FinishedNotBlank(decode, cap, cur, v, c, w);
    RowAt(decode, cap, cur, v, c, j);
    if j < |NonBlank(decode, Fresh(cur, v, c))| {
      RowsPlace(decode, cap, cur, v, c, w, j);
      CountWithFinished(decode, cap, cur, v, c);
      LineTrue(decode, cap, w, cur.rowSeq + j);
    } else {
      ReadCountsExactly(decode, cap, cur, v, c);
      TailRow(decode, cap, v + c, w);
      CountWithTail(decode, cap, v + c);
      StubTrue(decode, cap, w, cur.rowSeq + j, |Tail(v + c)|);
    }
  }

  lemma LineTrue(decode: Decode, cap: nat, w: Bytes, i: nat)
    requires i < |NonBlank(decode, Split(w))|
    ensures RowTrue(decode, cap, w, i, Line(TextOf(decode, NonBlank(decode, Split(w))[i])))
  {
  }

  lemma StubTrue(decode: Decode, cap: nat, w: Bytes, i: nat, observed: nat)
    requires i < |NonBlank(decode, Split(w))| && cap < observed <= |NonBlank(decode, Split(w))[i]|
    ensures RowTrue(decode, cap, w, i, Stub(observed, cap))
  {
  }

  lemma CountWithTail(decode: Decode, cap: nat, v: Bytes)
    requires |Tail(v)| > cap
    ensures RowCount(decode, cap, v) == |NonBlank(decode, Completed(v))| + 1
  {
  }

  lemma CountWithFinished(decode: Decode, cap: nat, cur: Cursor, v: Bytes, c: Bytes)
    requires At(cap, cur, v) && Fresh(cur, v, c) != []
    ensures RowCount(decode, cap, v) == |NonBlank(decode, Completed(v))| + |Finished(cur, v, c)|
  {
  }

  lemma {:induction false} RowAt(decode: Decode, cap: nat, cur: Cursor, v: Bytes, c: Bytes, j: nat)
    requires At(cap, cur, v) && j < |Read(decode, cap, cur, c).1|
    ensures var added, rows := NonBlank(decode, Fresh(cur, v, c)), Read(decode, cap, cur, c).1;
            if j < |added| then Fresh(cur, v, c) != [] && rows[j] == Line(TextOf(decode, added[j]))
            else |Tail(v + c)| > cap && j == |rows| - 1 && rows[j] == Stub(|Tail(v + c)|, cap)
  {
    ReadExplains(decode, cap, cur, v, c);
    TextsAt(decode, Fresh(cur, v, c));
    hide Fresh, Read, Texts, Completed, Tail, NonBlank, Finished;
    assert Read(decode, cap, cur, c).1 == Texts(decode, Fresh(cur, v, c)) + Stubs(cap, cur, v, c);
  }

  lemma TextsAt(decode: Decode, lines: seq<Bytes>)
    ensures |Texts(decode, lines)| == |NonBlank(decode, lines)| && (lines == [] ==> NonBlank(decode, lines) == [])
    ensures forall j :: 0 <= j < |Texts(decode, lines)| ==> Texts(decode, lines)[j] == Line(TextOf(decode, NonBlank(decode, lines)[j]))
  {
  }

  /** The lines a read finishes stand, in the file, right after those already counted. */
  lemma {:induction false} RowsPlace(decode: Decode, cap: nat, cur: Cursor, v: Bytes, c: Bytes, w: Bytes, j: nat)
    requires At(cap, cur, v) && v + c <= w && j < |NonBlank(decode, Fresh(cur, v, c))|
    requires NonBlank(decode, Finished(cur, v, c)) == Finished(cur, v, c)
    ensures var n := |NonBlank(decode, Completed(v))| + |Finished(cur, v, c)|;
            n + j < |NonBlank(decode, Split(w))| && NonBlank(decode, Split(w))[n + j] == NonBlank(decode, Fresh(cur, v, c))[j]
  {
    hide *;
    LinesAfterRead(decode, cap, cur, v, c);
    SplitPrefix(v + c, w);
    NonBlankConcat(decode, Completed(v) + Finished(cur, v, c), Fresh(cur, v, c));
    NonBlankConcat(decode, Completed(v), Finished(cur, v, c));
    NonBlankPrefix(decode, Completed(v + c), Split(w));
    ThirdPart(NonBlank(decode, Completed(v)), Finished(cur, v, c), NonBlank(decode, Fresh(cur, v, c)), NonBlank(decode, Split(w)), j);
  }

  lemma {:induction false} LinesAfterRead(decode: Decode, cap: nat, cur: Cursor, v: Bytes, c: Bytes)
    requires At(cap, cur, v)
    ensures Completed(v + c) == Completed(v) + Finished(cur, v, c) + Fresh(cur, v, c)
  {
    ReadExplains(decode, cap, cur, v, c);
  }

  lemma {:induction false} ThirdPart(a: seq<Bytes>, b: seq<Bytes>, c: seq<Bytes>, all: seq<Bytes>, j: nat)
    requires a + b + c <= all && j < |c|
    ensures |a| + |b| + j < |all| && all[|a| + |b| + j] == c[j]
  {
    assert (a + b + c)[|a| + |b| + j] == c[j];
  }

  /** However a prefix of the file `w` is cut into reads, row `j` is the row of its `j`-th line that is not
      blank; in particular a line over the cap makes exactly one row. */
  lemma {:induction false} FeedTrue(decode: Decode, cap: nat, identity: Identity, chunks: seq<Bytes>, w: Bytes)
    requires Concat(chunks) <= w && NoBlankGiant(decode, cap, Split(w))
    ensures var (cur, rows) := Feed(decode, cap, identity, chunks);
            && cur.rowSeq == |rows| == RowCount(decode, cap, Concat(chunks))
            && RowsTrue(decode, cap, w, 0, rows)
  {
    if chunks == [] {
      assert NonBlank(decode, []) == [];
    } else {
      var init, last := chunks[..|chunks| - 1], chunks[|chunks| - 1];
      var (cur, rows) := Feed(decode, cap, identity, init);
      assert Concat(chunks) == Concat(init) + last;
      assert Feed(decode, cap, identity, chunks) == (Read(decode, cap, cur, last).0, rows + Read(decode, cap, cur, last).1);
      hide *;
      FeedTrue(decode, cap, identity, init, w);
      FeedPlace(decode, cap, identity, init);
      ReadTrue(decode, cap, w, cur, Concat(init), last);
      RowsTrueConcat(decode, cap, w, 0, rows, Read(decode, cap, cur, last).1, cur.rowSeq);
    }
  }

  /** Without lines over the cap, any series of reads emits exactly the finished lines that are not blank. */
  lemma {:induction false} FeedExact(decode: Decode, cap: nat, identity: Identity, chunks: seq<Bytes>)
    requires NoGiants(cap, Split(Concat(chunks)))
    ensures Feed(decode, cap, identity, chunks).1 == Texts(decode, Completed(Concat(chunks)))
  {
    var w := Concat(chunks);
    FeedTrue(decode, cap, identity, chunks, w);
    SmallTail(decode, cap, w);
    var rows := Feed(decode, cap, identity, chunks).1;
    TextsAt(decode, Completed(w));
    hide Texts, Split, Completed, Tail, NonBlank, NoGiants, RowTrue, Feed, Concat;
    forall j | 0 <= j < |rows| ensures rows[j] == Texts(decode, Completed(w))[j] {
      SmallRow(decode, cap, w, j, rows[j]);
    }
  }

  lemma SmallTail(decode: Decode, cap: nat, w: Bytes)
    requires NoGiants(cap, Split(w))
    ensures RowCount(decode, cap, w) == |NonBlank(decode, Completed(w))|
  {
  }

  lemma {:induction false} SmallRow(decode: Decode, cap: nat, w: Bytes, j: nat, content: Content)
    requires NoGiants(cap, Split(w)) && RowTrue(decode, cap, w, j, content) && j < |NonBlank(decode, Completed(w))|
    ensures content == Line(TextOf(decode, NonBlank(decode, Completed(w))[j]))
  {
    NonBlankPrefix(decode, Completed(w), Split(w));
    NonBlankFrom(decode, Split(w), j);
    hide Split, NonBlank;
  }

  lemma {:induction false} NonBlankFrom(decode: Decode, lines: seq<Bytes>, j: nat)
    requires j < |NonBlank(decode, lines)|
    ensures NonBlank(decode, lines)[j] in lines
  {
    if j < |NonBlank(decode, lines[..|lines| - 1])| { NonBlankFrom(decode, lines[..|lines| - 1], j); }
  }

  /** What the end-of-run snapshot reads of an event file: at most so many lines, of a file that is not too large. */
  datatype SnapshotLines = TooLarge | FirstRows(items: seq<Content>, truncated: bool)

  const MAX_JSON_BYTES: nat := 2 * 1024 * 1024

  function ReadSnapshotLines(decode: Decode, w: Bytes, maxLines: nat): SnapshotLines {
    if |w| > MAX_JSON_BYTES then TooLarge
    else
      var rows := Texts(decode, Split(w));
      FirstRows(if |rows| > maxLines then rows[..maxLines] else rows, |rows| > maxLines)
  }

  /** The end-of-run snapshot splits the whole file; what it keeps of a file it reads are the first live rows, and
      after all of them one more for an unfinished last line. */
  lemma {:induction false} SnapshotAgrees(decode: Decode, w: Bytes, maxLines: nat)
    ensures var live, last := Texts(decode, Completed(w)), Texts(decode, [Tail(w)]);
            var r := ReadSnapshotLines(decode, w, maxLines);
            && |last| == (if Blank(decode, Tail(w)) then 0 else 1)
            && (r.FirstRows? <==> |w| <= MAX_JSON_BYTES)
            && (r.FirstRows? ==>
                  && r.items <= live + last && (r.truncated <==> |live| + |last| > maxLines)
                  && |r.items| == if r.truncated then maxLines else |live| + |last|)
  {
    WholeFileRows(decode, w);
    hide Texts, Split, Completed, Tail;
  }

  lemma {:induction false} WholeFileRows(decode: Decode, w: Bytes)
    ensures Texts(decode, Split(w)) == Texts(decode, Completed(w)) + Texts(decode, [Tail(w)])
    ensures |Texts(decode, [Tail(w)])| == if Blank(decode, Tail(w)) then 0 else 1
  {
    assert Split(w) == Completed(w) + [Tail(w)];
    hide *;
    NonBlankConcat(decode, Completed(w), [Tail(w)]);
    NonBlankOne(decode, [Tail(w)]);
    TextsConcat(decode, Completed(w), [Tail(w)]);
    TextsAt(decode, [Tail(w)]);
  }

  lemma {:induction false} TextsConcat(decode: Decode, a: seq<Bytes>, b: seq<Bytes>)
    ensures Texts(decode, a + b) == Texts(decode, a) + Texts(decode, b)
  {
    NonBlankConcat(decode, a, b);
    hide NonBlank;
  }
}
