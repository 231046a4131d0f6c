/** The path patterns of a project manifest, against a declarative meaning of `*` and `**`. */
module Glob {
  import opened Outcomes
  import opened Texts

  const STAR: CodeUnit := 0x2A

  predicate EndsWithStar(p: Text) { p != [] && p[|p| - 1] == STAR }

  /** `rest.indexOf(part)`. */
  function IndexOf(rest: Text, part: Text): (i: Option<nat>)
    ensures i.Some? ==> i.value + |part| <= |rest|
  {
    if part <= rest then Some(0)
    else if rest == [] then None
    else
      var i := IndexOf(rest[1..], part);
      if i.None? then None else Some(i.value + 1)
  }

  /** What is left of `rest` after the parts have been found one after another, each as far left as
      possible; the first part of a pattern must stand at the beginning. */
  function Leftover(parts: seq<Text>, first: bool, rest: Text): Option<Text> {
    if parts == [] then Some(rest)
    else if parts[0] == [] then Leftover(parts[1..], false, rest)
    else if first then
      if parts[0] <= rest then Leftover(parts[1..], false, rest[|parts[0]|..]) else None
    else
      var found := IndexOf(rest, parts[0]);
      if found.None? then None
      else Leftover(parts[1..], false, rest[found.value + |parts[0]|..])
  }

  predicate GlobSegmentMatch(pattern: Text, value: Text) {
    if pattern == [STAR] then true
    else
      var parts := SplitOn(pattern, STAR);
      if |parts| == 1 then pattern == value
      else
        var left := Leftover(parts, true, value);
        left.Some? && (EndsWithStar(pattern) || left.value == [])
  }

  /** `globSegmentMatch`: the loop that shrinks `rest`. */
  method MatchSegment(pattern: Text, value: Text) returns (r: bool)
    ensures r == GlobSegmentMatch(pattern, value)
  {
    if pattern == [STAR] { return true; }
    var parts := SplitOn(pattern, STAR);
    if |parts| == 1 { return pattern == value; }
    var rest := value;
    for index := 0 to |parts|
      invariant Leftover(parts[index..], index == 0, rest) == Leftover(parts, true, value)
    {
      assert parts[index..][1..] == parts[index + 1..];
      var part := parts[index];
      if |part| == 0 { continue; }
      if index == 0 {
        if !(part <= rest) { return false; }
        rest := rest[|part|..];
        continue;
      }
      var found := IndexOf(rest, part);
      if found.None? { return false; }
      rest := rest[found.value + |part|..];
    }
    return EndsWithStar(pattern) || rest == [];
  }

  predicate GlobSegmentsMatch(pattern: seq<Text>, path: seq<Text>)
    decreases |pattern| + |path|
  {
    if pattern == [] then path == []
    else if pattern[0] == [STAR, STAR] then
      GlobSegmentsMatch(pattern[1..], path) || (path != [] && GlobSegmentsMatch(pattern, path[1..]))
    else path != [] && GlobSegmentMatch(pattern[0], path[0]) && GlobSegmentsMatch(pattern[1..], path[1..])
  }

  const ANY_SUFFIX: Text := [SLASH, STAR, STAR]

  predicate EndsWith(t: Text, suffix: Text) { |suffix| <= |t| && t[|t| - |suffix|..] == suffix }

  predicate UnderPrefix(prefix: Text, path: Text) { path == prefix || LiesUnder(prefix, path) }

  predicate ManifestPatternMatches(pattern: Text, path: Text) {
    if pattern == [STAR, STAR] then true
    else if EndsWith(pattern, ANY_SUFFIX) && |pattern| > 3 then UnderPrefix(pattern[..|pattern| - 3], path)
    else GlobSegmentsMatch(SplitOn(pattern, SLASH), SplitOn(path, SLASH))
  }

  // ---- the meaning of a segment pattern ----

  /** A star stands for any text, every other unit for itself. */
  predicate Matches(p: Text, v: Text)
    decreases |p| + |v|
  {
    if p == [] then v == []
    else if p[0] == STAR then Matches(p[1..], v) || (v != [] && Matches(p, v[1..]))
    else v != [] && v[0] == p[0] && Matches(p[1..], v[1..])
  }

  predicate PrefixMatches(p: Text, v: Text, n: int) { 0 <= n <= |v| && Matches(p, v[..n]) }

  /** A star absorbs any text in front of a match. */
  lemma {:induction false} StarAbsorbs(p: Text, x: Text, v: Text)
    requires p != [] && p[0] == STAR && Matches(p, v)
    ensures Matches(p, x + v)
  {
    if x == [] {
      assert x + v == v;
    } else {
      StarAbsorbs(p, x[1..], v);
      assert (x + v)[1..] == x[1..] + v;
    }
  }

  /** A match of a star and the rest of the pattern: the rest matches some suffix. */
  lemma {:induction false} StarSplit(p: Text, v: Text) returns (k: nat)
    requires p != [] && p[0] == STAR && Matches(p, v)
    ensures k <= |v| && Matches(p[1..], v[k..])
    decreases |v|
  {
    if Matches(p[1..], v) {
      k := 0;
    } else {
      var j := StarSplit(p, v[1..]);
      k := j + 1;
      assert v[1..][j..] == v[k..];
    }
  }

  lemma {:induction false} LiteralMatches(lit: Text, p: Text, v: Text)
    requires STAR !in lit
    ensures Matches(lit + p, v) <==> lit <= v && Matches(p, v[|lit|..])
  {
    if lit == [] {
      assert lit + p == p;
    } else {
      assert (lit + p)[1..] == lit[1..] + p;
      if v != [] && v[0] == lit[0] {
        LiteralMatches(lit[1..], p, v[1..]);
        LiteralPrefix(lit, v);
      }
    }
  }

  lemma {:induction false} LiteralPrefix(lit: Text, v: Text)
    requires lit != [] && v != [] && lit[0] == v[0]
    ensures lit <= v <==> lit[1..] <= v[1..]
    ensures lit <= v ==> v[|lit|..] == v[1..][|lit| - 1..]
  {
    if lit[1..] <= v[1..] {
      assert lit == [lit[0]] + lit[1..] && v == [v[0]] + v[1..];
      assert v[1..][..|lit| - 1] == lit[1..];
      assert v[..|lit|] == lit;
    }
  }

  lemma {:induction false} IndexOfLeftmost(rest: Text, part: Text)
    ensures var i := IndexOf(rest, part);
            && (i.Some? ==> i.value <= |rest| && part <= rest[i.value..])
            && (forall k :: 0 <= k <= |rest| && part <= rest[k..] ==> i.Some? && i.value <= k)
  {
    if !(part <= rest) && rest != [] {
      IndexOfLeftmost(rest[1..], part);
      forall k | 0 <= k <= |rest| && part <= rest[k..]
        ensures IndexOf(rest, part).Some? && IndexOf(rest, part).value <= k
      {
        assert rest[0..] == rest;
        assert rest[1..][k - 1..] == rest[k..];
      }
      var i := IndexOf(rest, part);
      if i.Some? { assert rest[i.value..] == rest[1..][i.value - 1..]; }
    } else {
      assert rest[0..] == rest;
    }
  }

  // ---- leftmost search finds the shortest matching prefix ----

  ghost predicate StarFree(parts: seq<Text>) { forall i :: 0 <= i < |parts| ==> STAR !in parts[i] }

  /** The pattern with a star before each part. */
  function Starred(parts: seq<Text>): Text {
    if parts == [] then [] else [STAR] + (parts[0] + Starred(parts[1..]))
  }

  /** `left` remains after the shortest prefix of `v` that matches `p`; nothing, if no prefix does. */
  ghost predicate Shortest(p: Text, v: Text, left: Option<Text>) {
    if left.None? then forall m :: !PrefixMatches(p, v, m)
    else
      && |left.value| <= |v| && left.value == v[|v| - |left.value|..]
      && PrefixMatches(p, v, |v| - |left.value|)
      && forall m :: PrefixMatches(p, v, m) ==> m >= |v| - |left.value|
  }

  /** A star and a literal found at `at`, then a match of the rest. */
  lemma {:induction false} StarredFound(lit: Text, p: Text, v: Text, at: nat, m: int)
    requires STAR !in lit && at + |lit| <= |v| && lit <= v[at..] && PrefixMatches(p, v[at + |lit|..], m)
    ensures PrefixMatches([STAR] + (lit + p), v, at + |lit| + m)
  {
    var u, q := v[..at + |lit| + m], [STAR] + (lit + p);
    assert u[at..][|lit|..] == v[at + |lit|..][..m];
    assert lit <= u[at..];
    LiteralMatches(lit, p, u[at..]);
    assert q[1..] == lit + p;
    StarAbsorbs(q, u[..at], u[at..]);
    assert u[..at] + u[at..] == u;
  }

  /** Every match of a star, a literal and the rest has the literal at some place `k`, and then a match of the rest. */
  lemma {:induction false} StarredMatch(lit: Text, p: Text, v: Text, m: int) returns (k: nat)
    requires STAR !in lit && PrefixMatches([STAR] + (lit + p), v, m)
    ensures k + |lit| <= m && lit <= v[k..] && Matches(p, v[k + |lit|..m])
  {
    var q, u := [STAR] + (lit + p), v[..m];
    k := StarSplit(q, u);
    assert q[1..] == lit + p;
    LiteralMatches(lit, p, u[k..]);
    assert u[k..][|lit|..] == v[k + |lit|..m];
    assert u[k..][..|lit|] == v[k..][..|lit|];
  }

  /** A match later in the text is also a match from an earlier point, if the pattern begins with a star. */
  lemma {:induction false} MatchFromEarlier(p: Text, v: Text, early: nat, late: nat, m: nat)
    requires early <= late <= m <= |v| && Matches(p, v[late..m]) && (p == [] || p[0] == STAR)
    ensures p != [] ==> PrefixMatches(p, v[early..], m - early)
    ensures p == [] ==> m == late
  {
    if p != [] {
      StarAbsorbs(p, v[early..late], v[late..m]);
      assert v[early..late] + v[late..m] == v[early..][..m - early];
    }
  }

  lemma {:induction false} GreedyIsShortest(parts: seq<Text>, v: Text)
    requires StarFree(parts)
    ensures Shortest(Starred(parts), v, Leftover(parts, false, v))
  {
    hide Shortest, IndexOf;
    if parts == [] {
      NothingShortest(v);
    } else if parts[0] == [] {
      GreedyIsShortest(parts[1..], v);
      EmptyPart(parts, v);
    } else {
      var found := IndexOf(v, parts[0]);
      if found.Some? { GreedyIsShortest(parts[1..], v[found.value + |parts[0]|..]); }
      GreedyStep(parts[0], Starred(parts[1..]), v, if found.None? then None else Leftover(parts[1..], false, v[found.value + |parts[0]|..]));
    }
  }

  lemma {:induction false} NothingShortest(v: Text)
    ensures Shortest([], v, Some(v))
  {
    assert v[..0] == [];
  }

  /** Two stars in a row mean one. */
  lemma {:induction false} EmptyPart(parts: seq<Text>, v: Text)
    requires parts != [] && parts[0] == [] && Shortest(Starred(parts[1..]), v, Leftover(parts[1..], false, v))
    ensures Shortest(Starred(parts), v, Leftover(parts, false, v))
  {
    var p, q := Starred(parts[1..]), Starred(parts);
    assert q[1..] == p;
    forall m ensures p != [] ==> (PrefixMatches(q, v, m) <==> PrefixMatches(p, v, m)) {
      if p != [] && PrefixMatches(q, v, m) {
        var k := StarSplit(q, v[..m]);
        StarAbsorbs(p, v[..m][..k], v[..m][k..]);
        assert v[..m][..k] + v[..m][k..] == v[..m];
      }
    }
    assert v[..0] == [];
  }

  /** Every match begins with the leftmost occurrence of the literal, or can be made to. */
  lemma {:induction false} MatchAfterLeftmost(lit: Text, p: Text, v: Text, m: int)
    requires STAR !in lit && (p == [] || p[0] == STAR) && PrefixMatches([STAR] + (lit + p), v, m)
    ensures var found := IndexOf(v, lit);
            && found.Some? && found.value + |lit| <= m
            && PrefixMatches(p, v[found.value + |lit|..], if p == [] then 0 else m - found.value - |lit|)
  {
    var k := StarredMatch(lit, p, v, m);
    IndexOfLeftmost(v, lit);
    var start := IndexOf(v, lit).value + |lit|;
    MatchFromEarlier(p, v, start, k + |lit|, m);
    assert v[start..][..0] == [];
  }

  /** A literal found leftmost, followed by the shortest match of the rest, is the shortest match of both. */
  lemma {:induction false} GreedyStep(lit: Text, p: Text, v: Text, left: Option<Text>)
    requires STAR !in lit && (p == [] || p[0] == STAR)
    requires var found := IndexOf(v, lit);
             if found.None? then left.None? else Shortest(p, v[found.value + |lit|..], left)
    ensures Shortest([STAR] + (lit + p), v, left)
  {
    var found := IndexOf(v, lit);
    hide PrefixMatches, IndexOf;
    forall m | PrefixMatches([STAR] + (lit + p), v, m)
      ensures left.Some? && m >= |v| - |left.value|
    {
      MatchAfterLeftmost(lit, p, v, m);
    }
    if left.Some? {
      var rest := v[found.value + |lit|..];
      IndexOfLeftmost(v, lit);
      StarredFound(lit, p, v, found.value, |rest| - |left.value|);
    }
  }

  // ---- what a segment pattern accepts ----

  lemma {:induction false} PartsOf(p: Text)
    ensures var parts := SplitOn(p, STAR);
            && StarFree(parts) && p == parts[0] + Starred(parts[1..])
            && (|parts| == 1 <==> STAR !in p)
  {
    if p != [] {
      PartsOf(p[1..]);
      var rest := SplitOn(p[1..], STAR);
      if p[0] == STAR {
        assert SplitOn(p, STAR)[1..] == rest;
        assert p == [STAR] + p[1..];
      } else {
        assert SplitOn(p, STAR)[1..] == rest[1..];
        assert p == [p[0]] + (rest[0] + Starred(rest[1..]));
      }
    }
  }

  lemma {:induction false} GreedyWhole(p: Text, v: Text)
    ensures Shortest(p, v, Leftover(SplitOn(p, STAR), true, v))
  {
    var parts := SplitOn(p, STAR);
    var lit, tail := parts[0], Starred(parts[1..]);
    PartsOf(p);
    if lit == [] {
      assert [] + tail == tail;
      GreedyIsShortest(parts[1..], v);
    } else {
      if lit <= v { GreedyIsShortest(parts[1..], v[|lit|..]); }
      LiteralShortest(lit, tail, v, if lit <= v then Leftover(parts[1..], false, v[|lit|..]) else None);
    }
  }

  lemma {:induction false} LiteralShortest(lit: Text, p: Text, v: Text, left: Option<Text>)
    requires STAR !in lit && if lit <= v then Shortest(p, v[|lit|..], left) else left.None?
    ensures Shortest(lit + p, v, left)
  {
    hide Matches;
    forall m | 0 <= m <= |v|
      ensures PrefixMatches(lit + p, v, m) <==> lit <= v && PrefixMatches(p, v[|lit|..], m - |lit|)
    {
      LiteralMatches(lit, p, v[..m]);
      if lit <= v && |lit| <= m {
        assert v[..m][|lit|..] == v[|lit|..][..m - |lit|];
        assert v[..m][..|lit|] == v[..|lit|];
      } else if lit <= v[..m] {
        assert v[..m][..|lit|] == v[..|lit|];
      }
    }
  }

  lemma {:induction false} TrailingStarAbsorbs(p: Text, v: Text, x: Text)
    requires EndsWithStar(p) && Matches(p, v)
    ensures Matches(p, v + x)
    decreases |p| + |v|
  {
    if p == [STAR] {
      AnyMatchesStar(v + x);
    } else if p[0] == STAR && Matches(p[1..], v) {
      TrailingStarAbsorbs(p[1..], v, x);
    } else {
      TrailingStarAbsorbs(if p[0] == STAR then p else p[1..], v[1..], x);
      assert (v + x)[1..] == v[1..] + x;
    }
  }

  lemma {:induction false} AnyMatchesStar(v: Text)
    ensures Matches([STAR], v)
  {
    if v != [] { AnyMatchesStar(v[1..]); }
  }

  lemma {:induction false} LiteralIs(p: Text, v: Text)
    requires STAR !in p
    ensures Matches(p, v) <==> p == v
  {
    LiteralMatches(p, [], v);
    assert p + [] == p;
    if p <= v && v[|p|..] == [] { assert v == p; }
  }

  /** The pattern matches no proper prefix of the text. */
  ghost predicate NoProperPrefix(p: Text, v: Text) {
    forall m :: 0 <= m < |v| ==> !PrefixMatches(p, v, m)
  }

  /** The matcher accepts exactly the matching texts, except that a pattern with a literal at its end accepts
      a text only when no proper prefix of it matches already. */
  lemma {:induction false} SegmentMatchIff(p: Text, v: Text)
    ensures GlobSegmentMatch(p, v) <==> Matches(p, v) && (EndsWithStar(p) || NoProperPrefix(p, v))
  {
    PartsOf(p);
    GreedyWhole(p, v);
    assert v[..|v|] == v;
    if p == [STAR] {
      AnyMatchesStar(v);
    } else if STAR !in p {
      LiteralIs(p, v);
      forall m | 0 <= m < |v| && Matches(p, v) ensures !PrefixMatches(p, v, m) { LiteralIs(p, v[..m]); }
    } else if EndsWithStar(p) {
      var left := Leftover(SplitOn(p, STAR), true, v);
      if left.Some? {
        var m := |v| - |left.value|;
        TrailingStarAbsorbs(p, v[..m], v[m..]);
        assert v[..m] + v[m..] == v;
      } else {
        assert !PrefixMatches(p, v, |v|);
      }
    } else {
      hide Matches;
      var left := Leftover(SplitOn(p, STAR), true, v);
      if Matches(p, v) { assert PrefixMatches(p, v, |v|); }
    }
  }

  /** A text that the pattern matches, with nothing for each star. */
  function Strip(p: Text): Text {
    if p == [] then [] else if p[0] == STAR then Strip(p[1..]) else [p[0]] + Strip(p[1..])
  }

  lemma {:induction false} StripMatches(p: Text)
    ensures Matches(p, Strip(p)) && |Strip(p)| <= |p| && (STAR in p ==> |Strip(p)| < |p|)
  {
    if p != [] {
      StripMatches(p[1..]);
      assert p == [p[0]] + p[1..];
    }
  }

  lemma {:induction false} MatchesConcat(a: Text, x: Text, b: Text, y: Text)
    requires Matches(a, x) && Matches(b, y)
    ensures Matches(a + b, x + y)
    decreases |a| + |x|
  {
    if a == [] {
      assert a + b == b && x + y == y;
    } else {
      assert (a + b)[1..] == a[1..] + b;
      if a[0] == STAR && Matches(a[1..], x) {
        MatchesConcat(a[1..], x, b, y);
      } else {
        MatchesConcat(if a[0] == STAR then a else a[1..], x[1..], b, y);
        assert (x + y)[1..] == x[1..] + y;
      }
    }
  }

  lemma {:induction false} LastStar(p: Text) returns (j: nat)
    requires STAR in p
    ensures j < |p| && p[j] == STAR && STAR !in p[j + 1..]
  {
    if p[|p| - 1] == STAR {
      j := |p| - 1;
    } else {
      assert p == p[..|p| - 1] + [p[|p| - 1]];
      j := LastStar(p[..|p| - 1]);
      assert p[j + 1..] == p[..|p| - 1][j + 1..] + [p[|p| - 1]];
    }
  }

  /** With the last literal twice, the text matches, and so does its prefix with that literal once. */
  lemma {:induction false} LastLiteralTwice(p: Text) returns (v: Text)
    requires STAR in p && !EndsWithStar(p)
    ensures Matches(p, v) && !NoProperPrefix(p, v)
  {
    var j := LastStar(p);
    var head, lit := p[..j], p[j + 1..];
    var q := [STAR] + lit;
    assert p == head + q && q[1..] == lit;
    LiteralIs(lit, lit);
    StripMatches(head);
    MatchesConcat(head, Strip(head), q, lit);
    StarAbsorbs(q, lit, lit);
    MatchesConcat(head, Strip(head), q, lit + lit);
    v := Strip(head) + (lit + lit);
    var m := |Strip(head)| + |lit|;
    assert v[..m] == Strip(head) + lit;
    assert PrefixMatches(p, v, m);
  }

  ghost predicate Complete(p: Text) { forall v :: GlobSegmentMatch(p, v) <==> Matches(p, v) }

  /** The matcher is exact for precisely the patterns that have no star or end in one. */
  lemma {:induction false} SegmentCompleteIff(p: Text)
    ensures Complete(p) <==> STAR !in p || EndsWithStar(p)
  {
    if STAR !in p || EndsWithStar(p) {
      forall v ensures GlobSegmentMatch(p, v) <==> Matches(p, v) {
        SegmentMatchIff(p, v);
        if STAR !in p { LiteralSegment(p, v); }
      }
    } else {
      var v := LastLiteralTwice(p);
      SegmentMatchIff(p, v);
    }
  }

  lemma {:induction false} LiteralSegment(p: Text, v: Text)
    requires STAR !in p
    ensures GlobSegmentMatch(p, v) <==> p == v
    ensures Matches(p, v) <==> p == v
  {
    PartsOf(p);
    LiteralIs(p, v);
  }

  // ---- sequences of segments ----

  /** A stretch of the path that one pattern segment accepts: one segment it matches, or any stretch for `**`. */
  predicate Fits(segment: Text, stretch: seq<Text>) {
    segment == [STAR, STAR] || (|stretch| == 1 && GlobSegmentMatch(segment, stretch[0]))
  }

  function Flatten(stretches: seq<seq<Text>>): seq<Text> {
    if stretches == [] then [] else stretches[0] + Flatten(stretches[1..])
  }

  /** The path cut into one stretch for each pattern segment. */
  ghost predicate Aligned(pattern: seq<Text>, path: seq<Text>, stretches: seq<seq<Text>>) {
    && |stretches| == |pattern| && Flatten(stretches) == path
    && forall i :: 0 <= i < |pattern| ==> Fits(pattern[i], stretches[i])
  }

  ghost predicate CanBeCut(pattern: seq<Text>, path: seq<Text>) {
    exists stretches :: Aligned(pattern, path, stretches)
  }

  /** The recursive matcher accepts exactly the paths that can be cut to fit the pattern. */
  lemma {:induction false} SegmentsMatchIff(pattern: seq<Text>, path: seq<Text>)
    ensures GlobSegmentsMatch(pattern, path) <==> CanBeCut(pattern, path)
  {
    if GlobSegmentsMatch(pattern, path) {
      var stretches := AlignmentOf(pattern, path);
    }
    if stretches :| Aligned(pattern, path, stretches) {
      AlignedMatches(pattern, path, stretches);
    }
  }

  lemma {:induction false} AlignmentOf(pattern: seq<Text>, path: seq<Text>) returns (stretches: seq<seq<Text>>)
    requires GlobSegmentsMatch(pattern, path)
    ensures Aligned(pattern, path, stretches)
    decreases |pattern| + |path|
  {
    hide GlobSegmentMatch;
    if pattern == [] {
      stretches := [];
    } else if pattern[0] == [STAR, STAR] && GlobSegmentsMatch(pattern[1..], path) {
      var rest := AlignmentOf(pattern[1..], path);
      stretches := [[]] + rest;
    } else if pattern[0] == [STAR, STAR] {
      var rest := AlignmentOf(pattern, path[1..]);
      stretches := [[path[0]] + rest[0]] + rest[1..];
      assert Flatten(stretches) == [path[0]] + (rest[0] + Flatten(rest[1..]));
    } else {
      var rest := AlignmentOf(pattern[1..], path[1..]);
      stretches := [[path[0]]] + rest;
      assert Flatten(stretches) == [path[0]] + Flatten(rest);
    }
  }

  lemma {:induction false} AlignedMatches(pattern: seq<Text>, path: seq<Text>, stretches: seq<seq<Text>>)
    requires Aligned(pattern, path, stretches)
    ensures GlobSegmentsMatch(pattern, path)
    decreases |pattern| + |path|
  {
    hide GlobSegmentMatch;
    if pattern != [] {
      var first, rest := stretches[0], stretches[1..];
      assert Fits(pattern[0], first);
      if first == [] {
        assert [] + Flatten(rest) == Flatten(rest);
        AlignedMatches(pattern[1..], path, rest);
      } else if pattern[0] == [STAR, STAR] {
        assert path[1..] == first[1..] + Flatten(rest);
        AlignedMatches(pattern, path[1..], [first[1..]] + rest);
      } else {
        assert path[1..] == Flatten(rest);
        AlignedMatches(pattern[1..], path[1..], rest);
      }
    }
  }

  // ---- the shortcut for a subtree ----

  /** What the general matcher says of a pattern that ends in a slash and two stars. */
  predicate SubtreeMatches(prefix: Text, path: Text) {
    GlobSegmentsMatch(SplitOn(prefix + ANY_SUFFIX, SLASH), SplitOn(path, SLASH))
  }

  lemma {:induction false} AnySuffixMatches(path: seq<Text>)
    ensures GlobSegmentsMatch([[STAR, STAR]], path)
  {
    if path != [] { AnySuffixMatches(path[1..]); }
  }

  lemma {:induction false} SplitSubtree(prefix: Text)
    ensures SplitOn(prefix + ANY_SUFFIX, SLASH) == SplitOn(prefix, SLASH) + [[STAR, STAR]]
  {
    SplitConcat(prefix, [STAR, STAR], SLASH);
    assert prefix + ANY_SUFFIX == prefix + ([SLASH] + [STAR, STAR]);
    SplitAnySegments();
  }

  lemma {:induction false} SplitAnySegments()
    ensures SplitOn([STAR, STAR], SLASH) == [[STAR, STAR]]
  {
    SplitAfter([STAR, STAR], [], SLASH);
    assert [STAR, STAR] + [] == [STAR, STAR];
  }

  lemma {:induction false} LiteralSegments(parts: seq<Text>, path: seq<Text>)
    requires StarFree(parts)
    ensures GlobSegmentsMatch(parts + [[STAR, STAR]], path) <==> parts <= path
  {
    if parts == [] {
      assert parts + [[STAR, STAR]] == [[STAR, STAR]];
      AnySuffixMatches(path);
    } else {
      assert (parts + [[STAR, STAR]])[1..] == parts[1..] + [[STAR, STAR]];
      if path != [] {
        LiteralSegment(parts[0], path[0]);
        LiteralSegments(parts[1..], path[1..]);
        assert parts == [parts[0]] + parts[1..] && path == [path[0]] + path[1..];
      }
    }
  }

  lemma {:induction false} StarFreeParts(t: Text)
    requires STAR !in t
    ensures StarFree(SplitOn(t, SLASH))
  {
    if t != [] { StarFreeParts(t[1..]); }
  }

  /** Each segment of a pattern accepts itself without its stars. */
  lemma {:induction false} StripAccepted(segment: Text)
    ensures GlobSegmentMatch(segment, Strip(segment))
  {
    StripMatches(segment);
    SegmentMatchIff(segment, Strip(segment));
    forall m | 0 <= m < |Strip(segment)| ensures !PrefixMatches(segment, Strip(segment), m) {
      if Matches(segment, Strip(segment)[..m]) { MatchIsLong(segment, Strip(segment)[..m]); }
    }
  }

  lemma {:induction false} MatchIsLong(p: Text, v: Text)
    requires Matches(p, v)
    ensures |v| >= |Strip(p)|
    decreases |p| + |v|
  {
    if p != [] {
      if p[0] != STAR { MatchIsLong(p[1..], v[1..]); }
      else if Matches(p[1..], v) { MatchIsLong(p[1..], v); }
      else { MatchIsLong(p, v[1..]); }
    }
  }

  function StripAll(parts: seq<Text>): seq<Text> {
    if parts == [] then [] else [Strip(parts[0])] + StripAll(parts[1..])
  }

  lemma {:induction false} SplitStrip(t: Text)
    ensures SplitOn(Strip(t), SLASH) == StripAll(SplitOn(t, SLASH))
  {
    if t != [] {
      SplitStrip(t[1..]);
      var rest := SplitOn(t[1..], SLASH);
      if t[0] == SLASH {
        SplitLeading(Strip(t[1..]), SLASH);
        assert SplitOn(t, SLASH)[1..] == rest;
      } else {
        assert SplitOn(t, SLASH)[0] == [t[0]] + rest[0] && SplitOn(t, SLASH)[1..] == rest[1..];
        assert ([t[0]] + rest[0])[1..] == rest[0];
        if t[0] != STAR { SplitAfter([t[0]], Strip(t[1..]), SLASH); }
      }
    }
  }

  lemma {:induction false} StrippedSegmentsMatch(parts: seq<Text>)
    ensures GlobSegmentsMatch(parts + [[STAR, STAR]], StripAll(parts))
  {
    if parts == [] {
      AnySuffixMatches([]);
      assert parts + [[STAR, STAR]] == [[STAR, STAR]];
    } else {
      var pattern, path := parts + [[STAR, STAR]], StripAll(parts);
      assert pattern[1..] == parts[1..] + [[STAR, STAR]] && path[1..] == StripAll(parts[1..]);
      StrippedSegmentsMatch(parts[1..]);
      if pattern[0] == [STAR, STAR] {
        assert GlobSegmentsMatch(pattern[1..], path[1..]);
        assert GlobSegmentsMatch(pattern, path[1..]);
      } else {
        StripAccepted(parts[0]);
      }
    }
  }

  ghost predicate ShortcutExact(prefix: Text) {
    forall path :: UnderPrefix(prefix, path) <==> SubtreeMatches(prefix, path)
  }

  /** Comparing the prefix literally agrees with the general matcher on every path exactly when the prefix has no star. */
  lemma {:induction false} ShortcutExactIff(prefix: Text)
    ensures ShortcutExact(prefix) <==> STAR !in prefix
  {
    SplitSubtree(prefix);
    hide GlobSegmentsMatch;
    if STAR !in prefix {
      StarFreeParts(prefix);
      forall path ensures UnderPrefix(prefix, path) <==> SubtreeMatches(prefix, path) {
        LiteralSegments(SplitOn(prefix, SLASH), SplitOn(path, SLASH));
        PrefixSegments(prefix, path);
      }
    } else {
      var path := Strip(prefix);
      StripMatches(prefix);
      SplitStrip(prefix);
      StrippedSegmentsMatch(SplitOn(prefix, SLASH));
      assert SubtreeMatches(prefix, path);
    }
  }

  /** What a whole pattern accepts: with a subtree suffix, the prefix literally and all that lies under it;
      otherwise, the paths whose segments can be cut to fit. */
  lemma {:induction false} PatternMeaning(pattern: Text, path: Text)
    ensures ManifestPatternMatches(pattern, path) <==>
              if EndsWith(pattern, ANY_SUFFIX) && |pattern| > 3 then UnderPrefix(pattern[..|pattern| - 3], path)
              else CanBeCut(SplitOn(pattern, SLASH), SplitOn(path, SLASH))
  {
    SegmentsMatchIff(SplitOn(pattern, SLASH), SplitOn(path, SLASH));
    if pattern == [STAR, STAR] { AnyPathMatches(pattern, path); }
    hide GlobSegmentsMatch, SplitOn, CanBeCut;
  }

  lemma {:induction false} AnyPathMatches(pattern: Text, path: Text)
    requires pattern == [STAR, STAR]
    ensures GlobSegmentsMatch(SplitOn(pattern, SLASH), SplitOn(path, SLASH))
  {
    SplitAnySegments();
    AnySuffixMatches(SplitOn(path, SLASH));
    hide GlobSegmentsMatch, SplitOn;
    assert pattern == [STAR, STAR];
  }
}
