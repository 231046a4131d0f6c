/** Newline-separated byte streams: splitting, blank lines, and how splitting behaves
    when a stream grows. */
module EvidenceLines {
  import opened Outcomes
  import opened ByteStrings

  /** UTF-8 decoding of a line followed by `trim`. */
  type Decode = Bytes -> string

  const NEWLINE: Byte := 10

  /** The pieces of a stream between its newlines; the last one is not terminated. */
  function Split(b: Bytes): (lines: seq<Bytes>)
    ensures |lines| >= 1
  {
    if b == [] then [[]] else
      var init, last := Split(b[..|b| - 1]), b[|b| - 1];
      if last == NEWLINE then init + [[]] else Extend(init, last)
  }

  /** One more byte on the last piece. */
  function Extend(lines: seq<Bytes>, x: Byte): seq<Bytes>
    requires |lines| >= 1
  {
    lines[..|lines| - 1] + [lines[|lines| - 1] + [x]]
  }

  /** The pieces of a stream followed by those of another: the two at the seam become one. */
  function Glue(s: seq<Bytes>, t: seq<Bytes>): seq<Bytes>
    requires |s| >= 1 && |t| >= 1
  {
    s[..|s| - 1] + [s[|s| - 1] + t[0]] + t[1..]
  }

  /** The lines that a newline has ended. */
  function Completed(b: Bytes): seq<Bytes> { Split(b)[..|Split(b)| - 1] }

  /** What follows the last newline. */
  function Tail(b: Bytes): Bytes { Split(b)[|Split(b)| - 1] }

  function Join(lines: seq<Bytes>): Bytes
    requires |lines| >= 1
  {
    if |lines| == 1 then lines[0] else Join(lines[..|lines| - 1]) + [NEWLINE] + lines[|lines| - 1]
  }

  ghost predicate NoNewlines(lines: seq<Bytes>) {
    forall i :: 0 <= i < |lines| ==> NEWLINE !in lines[i]
  }

  /** Splitting loses no byte. */
  lemma {:induction false} JoinSplit(b: Bytes)
    ensures Join(Split(b)) == b
  {
    if b != [] {
      var init, last := b[..|b| - 1], b[|b| - 1];
      JoinSplit(init);
      assert b == init + [last];
      if last == NEWLINE {
        JoinSnoc(Split(init), []);
        assert init + [NEWLINE] + [] == b;
      } else {
        JoinExtend(Split(init), last);
      }
    }
  }

  lemma {:induction false} JoinSnoc(lines: seq<Bytes>, line: Bytes)
    requires |lines| >= 1
    ensures Join(lines + [line]) == Join(lines) + [NEWLINE] + line
  {
    assert (lines + [line])[..|lines|] == lines;
  }

  lemma {:induction false} JoinExtend(lines: seq<Bytes>, x: Byte)
    requires |lines| >= 1
    ensures Join(Extend(lines, x)) == Join(lines) + [x]
  {
    hide Join, Extend;
    var init, last := InitLast(lines);
    ExtendSnoc(init, last, x);
    JoinSnocExtend(init, last, x);
  }

  lemma {:induction false} InitLast(lines: seq<Bytes>) returns (init: seq<Bytes>, last: Bytes)
    requires |lines| >= 1
    ensures lines == init + [last]
  {
    init, last := lines[..|lines| - 1], lines[|lines| - 1];
  }

  lemma ExtendSnoc(init: seq<Bytes>, last: Bytes, x: Byte)
    ensures Extend(init + [last], x) == init + [last + [x]]
  {
  }

  lemma {:induction false} JoinSnocExtend(init: seq<Bytes>, last: Bytes, x: Byte)
    ensures Join(init + [last + [x]]) == Join(init + [last]) + [x]
  {
    if init != [] {
      hide Join;
      JoinSnoc(init, last);
      JoinSnoc(init, last + [x]);
      ConcatAssociates(Join(init) + [NEWLINE], last, [x]);
    }
  }

  lemma ConcatAssociates(a: Bytes, b: Bytes, c: Bytes)
    ensures a + (b + c) == a + b + c
  {
  }

  /** The pieces hold no newline. */
  lemma {:induction false} SplitNoNewlines(b: Bytes)
    ensures NoNewlines(Split(b))
  {
    if b != [] { SplitNoNewlines(b[..|b| - 1]); }
  }

  /** Splitting a sequence of pieces joined by newlines finds them again. */
  lemma {:induction false} SplitJoin(lines: seq<Bytes>)
    requires |lines| >= 1 && NoNewlines(lines)
    ensures Split(Join(lines)) == lines
  {
    var n := |lines| - 1;
    SplitPlain(lines[n]);
    if n > 0 {
      SplitJoin(lines[..n]);
      SplitAtNewline(Join(lines[..n]), lines[n]);
      assert lines == lines[..n] + [lines[n]];
    }
  }

  lemma {:induction false} SplitPlain(b: Bytes)
    requires NEWLINE !in b
    ensures Split(b) == [b]
  {
    if b != [] {
      SplitPlain(b[..|b| - 1]);
      assert b == b[..|b| - 1] + [b[|b| - 1]];
    }
  }

  /** A stream that grows completes its tail with the first piece of what is added. */
  lemma {:induction false} SplitConcat(a: Bytes, b: Bytes)
    ensures Split(a + b) == Glue(Split(a), Split(b))
  {
    hide Glue, Extend;
    if b == [] {
      assert a + b == a;
      GlueEmpty(Split(a));
    } else {
      var init, last := b[..|b| - 1], b[|b| - 1];
      SplitConcat(a, init);
      assert (a + b)[..|a + b| - 1] == a + init;
      GlueExtend(Split(a), Split(init), last);
    }
  }

  lemma {:induction false} GlueEmpty(s: seq<Bytes>)
    requires |s| >= 1
    ensures Glue(s, [[]]) == s
  {
    assert s[|s| - 1] + [] == s[|s| - 1];
  }

  lemma {:induction false} GlueExtend(s: seq<Bytes>, t: seq<Bytes>, x: Byte)
    requires |s| >= 1 && |t| >= 1
    ensures |Glue(s, t)| >= 1 && Glue(s, Extend(t, x)) == Extend(Glue(s, t), x) && Glue(s, t + [[]]) == Glue(s, t) + [[]]
  {
    var n := |s| - 1;
    if |t| == 1 {
      assert s[n] + (t[0] + [x]) == (s[n] + t[0]) + [x];
    }
  }

  lemma {:induction false} SplitAtNewline(a: Bytes, b: Bytes)
    ensures Split(a + [NEWLINE] + b) == Split(a) + Split(b)
  {
    var c := a + [NEWLINE];
    assert c[..|c| - 1] == a;
    SplitConcat(c, b);
    assert Split(c) == Split(a) + [[]];
    assert [] + Split(b)[0] == Split(b)[0];
  }

  lemma {:induction false} TailPlain(b: Bytes)
    ensures NEWLINE !in Tail(b) && Split(Tail(b)) == [Tail(b)]
  {
    SplitNoNewlines(b);
    SplitPlain(Tail(b));
  }

  /** The unread part of a stream can be split on its own. */
  lemma {:induction false} SplitFromTail(w: Bytes, c: Bytes)
    ensures Split(w + c) == Completed(w) + Split(Tail(w) + c)
    ensures Completed(w + c) == Completed(w) + Completed(Tail(w) + c) && Tail(w + c) == Tail(Tail(w) + c)
  {
    SplitConcat(w, c);
    SplitConcat(Tail(w), c);
    TailPlain(w);
    hide Split;
  }

  lemma {:induction false} TailGrows(w: Bytes, c: Bytes)
    requires NEWLINE !in c
    ensures Completed(w + c) == Completed(w) && Tail(w + c) == Tail(w) + c
  {
    SplitFromTail(w, c);
    TailPlain(w);
    SplitPlain(Tail(w) + c);
  }

  /** The lines of a prefix are lines of the whole, and its tail begins the next one. */
  lemma {:induction false} SplitPrefix(v: Bytes, w: Bytes)
    requires v <= w
    ensures Completed(v) <= Split(w) && |Completed(v)| < |Split(w)|
    ensures Tail(v) <= Split(w)[|Completed(v)|]
    ensures Completed(v) <= Completed(w)
  {
    var c := w[|v|..];
    assert w == v + c;
    SplitConcat(v, c);
  }

  // ---- blank lines ----

  function TextOf(decode: Decode, line: Bytes): string {
    if line == [] then "" else decode(line)
  }

  predicate Blank(decode: Decode, line: Bytes) { TextOf(decode, line) == "" }

  function NonBlank(decode: Decode, lines: seq<Bytes>): seq<Bytes> {
    if lines == [] then [] else
      var kept, last := NonBlank(decode, lines[..|lines| - 1]), lines[|lines| - 1];
      if Blank(decode, last) then kept else kept + [last]
  }

  lemma {:induction false} NonBlankConcat(decode: Decode, a: seq<Bytes>, b: seq<Bytes>)
    ensures NonBlank(decode, a + b) == NonBlank(decode, a) + NonBlank(decode, b)
  {
    if b == [] {
      assert a + b == a;
    } else {
      NonBlankConcat(decode, a, b[..|b| - 1]);
      assert (a + b)[..|a + b| - 1] == a + b[..|b| - 1];
    }
  }

  // ---- newline positions ----

  function IndexOfNewline(b: Bytes): (i: Option<nat>)
    ensures i.Some? ==> i.value < |b|
  {
    if b == [] then None
    else if b[0] == NEWLINE then Some(0)
    else
      var i := IndexOfNewline(b[1..]);
      if i.None? then None else Some(i.value + 1)
  }

  function LastIndexOfNewline(b: Bytes): (i: Option<nat>)
    ensures i.Some? ==> i.value < |b|
  {
    if b == [] then None
    else if b[|b| - 1] == NEWLINE then Some(|b| - 1)
    else LastIndexOfNewline(b[..|b| - 1])
  }

  lemma {:induction false} FirstNewline(b: Bytes)
    ensures var i := IndexOfNewline(b);
            if i.None? then NEWLINE !in b
            else NEWLINE !in b[..i.value] && b == b[..i.value] + [NEWLINE] + b[i.value + 1..]
  {
    if b != [] && b[0] != NEWLINE {
      FirstNewline(b[1..]);
      var i := IndexOfNewline(b);
      assert b == [b[0]] + b[1..];
      if i.Some? { assert b[..i.value] == [b[0]] + b[1..][..i.value - 1]; }
    }
  }

  lemma {:induction false} LastNewline(b: Bytes)
    ensures var i := LastIndexOfNewline(b);
            if i.None? then NEWLINE !in b
            else NEWLINE !in b[i.value + 1..] && b == b[..i.value] + [NEWLINE] + b[i.value + 1..]
  {
    if b != [] && b[|b| - 1] != NEWLINE {
      LastNewline(b[..|b| - 1]);
      var i := LastIndexOfNewline(b);
      if i.Some? {
        assert b[i.value + 1..] == b[..|b| - 1][i.value + 1..] + [b[|b| - 1]];
      } else {
        assert b == b[..|b| - 1] + [b[|b| - 1]];
      }
    }
  }

  /** Cutting at the last newline separates the completed lines from the tail. */
  lemma {:induction false} CutAtLastNewline(b: Bytes)
    ensures var i := LastIndexOfNewline(b);
            if i.None? then Split(b) == [b] else Completed(b) == Split(b[..i.value]) && Tail(b) == b[i.value + 1..]
  {
    LastNewline(b);
    var i := LastIndexOfNewline(b);
    if i.None? {
      SplitPlain(b);
    } else {
      SplitAtNewline(b[..i.value], b[i.value + 1..]);
      SplitPlain(b[i.value + 1..]);
    }
  }

  /** A line that ends in what is added. */
  lemma {:induction false} LineEnds(w: Bytes, c: Bytes, k: nat)
    requires IndexOfNewline(c) == Some(k)
    ensures Completed(w + c) == Completed(w) + [Tail(w) + c[..k]] + Completed(c[k + 1..])
    ensures Tail(w + c) == Tail(c[k + 1..])
  {
    FirstNewline(c);
    hide *;
    LineEndsWith(w, c[..k], c[k + 1..]);
  }

  lemma {:induction false} LineEndsWith(w: Bytes, head: Bytes, rest: Bytes)
    requires NEWLINE !in head
    ensures Completed(w + (head + [NEWLINE] + rest)) == Completed(w) + [Tail(w) + head] + Completed(rest)
    ensures Tail(w + (head + [NEWLINE] + rest)) == Tail(rest)
  {
    var line := Tail(w) + head;
    TailPlain(w);
    LinePlain(Tail(w), head);
    SplitFromTail(w, head + [NEWLINE] + rest);
    hide *;
    ConcatAssociates(Tail(w), head + [NEWLINE], rest);
    ConcatAssociates(Tail(w), head, [NEWLINE]);
    CompletedAtNewline(line, rest);
    AppendAssociates(Completed(w), [line], Completed(rest));
  }

  lemma {:induction false} LinePlain(a: Bytes, b: Bytes)
    requires NEWLINE !in a && NEWLINE !in b
    ensures Split(a + b) == [a + b]
  {
    SplitPlain(a + b);
  }

  lemma {:induction false} CompletedAtNewline(a: Bytes, b: Bytes)
    ensures Completed(a + [NEWLINE] + b) == Split(a) + Completed(b) && Tail(a + [NEWLINE] + b) == Tail(b)
  {
    SplitAtNewline(a, b);
    hide Split;
  }

  lemma AppendAssociates(a: seq<Bytes>, b: seq<Bytes>, c: seq<Bytes>)
    ensures a + (b + c) == a + b + c
  {
  }
}
