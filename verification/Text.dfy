/** JavaScript strings: sequences of UTF-16 code units, their `<` order,
    the sort the control plane applies to object keys, `trim`, and decimal numerals. */
module Texts {

  newtype CodeUnit = u: int | 0 <= u < 0x1_0000
  type Text = seq<CodeUnit>

  /** JavaScript's `<` on strings. */
  predicate LexLess(a: Text, b: Text) {
    b != [] && (a == [] || a[0] < b[0] || (a[0] == b[0] && LexLess(a[1..], b[1..])))
  }

  lemma {:induction false} LexIrreflexive(a: Text)
    ensures !LexLess(a, a)
  {
    if a != [] { LexIrreflexive(a[1..]); }
  }

  lemma {:induction false} LexTotal(a: Text, b: Text)
    ensures LexLess(a, b) || a == b || LexLess(b, a)
  {
    if a != [] && b != [] && a[0] == b[0] {
      LexTotal(a[1..], b[1..]);
      assert a == [a[0]] + a[1..] && b == [b[0]] + b[1..];
    }
  }

  lemma {:induction false} LexTransitive(a: Text, b: Text, c: Text)
    requires LexLess(a, b) && LexLess(b, c)
    ensures LexLess(a, c)
  {
    if a != [] && a[0] == b[0] == c[0] {
      LexTransitive(a[1..], b[1..], c[1..]);
    }
  }

  predicate Distinct<T(==)>(s: seq<T>) {
    forall i, j :: 0 <= i < j < |s| ==> s[i] != s[j]
  }

  predicate LexSorted(keys: seq<Text>) {
    forall i, j :: 0 <= i < j < |keys| ==> LexLess(keys[i], keys[j])
  }

  /** Puts `key` before the first larger key. */
  function InsertKey(key: Text, sorted: seq<Text>): (r: seq<Text>) {
    if sorted != [] && LexLess(sorted[0], key) then [sorted[0]] + InsertKey(key, sorted[1..])
    else [key] + sorted
  }

  /** `keys.sort()` for distinct keys. */
  function SortKeys(keys: seq<Text>): (r: seq<Text>) {
    if keys == [] then [] else InsertKey(keys[0], SortKeys(keys[1..]))
  }

  lemma {:induction false} InsertKeySorted(key: Text, sorted: seq<Text>)
    requires LexSorted(sorted) && key !in sorted
    ensures LexSorted(InsertKey(key, sorted))
    ensures forall k :: k in InsertKey(key, sorted) <==> k == key || k in sorted
  {
    if sorted == [] {
    } else if LexLess(sorted[0], key) {
      assert sorted == [sorted[0]] + sorted[1..];
      var rest := InsertKey(key, sorted[1..]);
      InsertKeySorted(key, sorted[1..]);
      forall i | 0 <= i < |rest|
        ensures LexLess(sorted[0], rest[i])
      {
        assert rest[i] in rest;
      }
    } else {
      LexTotal(sorted[0], key);
      forall i | 0 <= i < |sorted|
        ensures LexLess(key, sorted[i])
      {
        if i > 0 { LexTransitive(key, sorted[0], sorted[i]); }
      }
    }
  }

  /** Sorting distinct keys keeps exactly those keys and leaves them strictly ascending. */
  lemma {:induction false} SortKeysSorted(keys: seq<Text>)
    requires Distinct(keys)
    ensures LexSorted(SortKeys(keys))
    ensures forall k :: k in SortKeys(keys) <==> k in keys
  {
    if keys != [] {
      assert keys == [keys[0]] + keys[1..];
      SortKeysSorted(keys[1..]);
      InsertKeySorted(keys[0], SortKeys(keys[1..]));
    }
  }

  lemma {:induction false} LexSortedDistinct(keys: seq<Text>)
    requires LexSorted(keys)
    ensures Distinct(keys)
  {
    forall i, j | 0 <= i < j < |keys|
      ensures keys[i] != keys[j]
    {
      LexIrreflexive(keys[i]);
    }
  }

  // ---- splitting ----

  const SLASH: CodeUnit := 0x2F

  /** `t.split(separator)` for a separator of one unit. */
  function SplitOn(t: Text, separator: CodeUnit): (parts: seq<Text>)
    ensures parts != []
  {
    if t == [] then [[]]
    else if t[0] == separator then [[]] + SplitOn(t[1..], separator)
    else
      var parts := SplitOn(t[1..], separator);
      [[t[0]] + parts[0]] + parts[1..]
  }

  /** `parts.join(separator)`. */
  function JoinWith(parts: seq<Text>, separator: CodeUnit): Text
    requires parts != []
  {
    if |parts| == 1 then parts[0] else parts[0] + [separator] + JoinWith(parts[1..], separator)
  }

  lemma {:induction false} SplitAfter(a: Text, b: Text, separator: CodeUnit)
    requires separator !in a
    ensures SplitOn(a + b, separator) == [a + SplitOn(b, separator)[0]] + SplitOn(b, separator)[1..]
  {
    if a == [] {
      assert a + b == b && a + SplitOn(b, separator)[0] == SplitOn(b, separator)[0];
    } else {
      assert (a + b)[1..] == a[1..] + b;
      SplitAfter(a[1..], b, separator);
      assert [a[0]] + (a[1..] + SplitOn(b, separator)[0]) == a + SplitOn(b, separator)[0];
    }
  }

  lemma {:induction false} SplitLeading(t: Text, separator: CodeUnit)
    ensures SplitOn([], separator) == [[]] && SplitOn([separator] + t, separator) == [[]] + SplitOn(t, separator)
  {
    assert ([separator] + t)[1..] == t;
  }

  lemma {:induction false} SplitConcat(a: Text, b: Text, separator: CodeUnit)
    ensures SplitOn(a + ([separator] + b), separator) == SplitOn(a, separator) + SplitOn(b, separator)
  {
    if a == [] {
      assert a + ([separator] + b) == [separator] + b;
      SplitLeading(b, separator);
    } else {
      assert (a + ([separator] + b))[1..] == a[1..] + ([separator] + b);
      SplitConcat(a[1..], b, separator);
    }
  }

  /** Joining undoes splitting. */
  lemma {:induction false} JoinSplit(t: Text, separator: CodeUnit)
    ensures JoinWith(SplitOn(t, separator), separator) == t
  {
    if t != [] {
      JoinSplit(t[1..], separator);
      JoinGrows(SplitOn(t[1..], separator), t[0], separator);
      hide JoinWith;
      assert t == [t[0]] + t[1..];
    }
  }

  lemma {:induction false} JoinGrows(parts: seq<Text>, u: CodeUnit, separator: CodeUnit)
    requires parts != []
    ensures JoinWith([[]] + parts, separator) == [separator] + JoinWith(parts, separator)
    ensures JoinWith([[u] + parts[0]] + parts[1..], separator) == [u] + JoinWith(parts, separator)
  {
    assert ([[]] + parts)[1..] == parts;
    assert ([[u] + parts[0]] + parts[1..])[1..] == parts[1..];
    if |parts| > 1 {
      var rest := JoinWith(parts[1..], separator);
      assert [u] + parts[0] + [separator] + rest == [u] + (parts[0] + [separator] + rest);
    }
  }

  lemma {:induction false} JoinConcat(a: seq<Text>, b: seq<Text>, separator: CodeUnit)
    requires a != [] && b != []
    ensures JoinWith(a + b, separator) == JoinWith(a, separator) + ([separator] + JoinWith(b, separator))
  {
    assert (a + b)[1..] == a[1..] + b;
    if |a| > 1 {
      JoinConcat(a[1..], b, separator);
    } else {
      assert a[1..] + b == b;
    }
  }

  // ---- slash-separated paths ----

  /** `path` lies under the directory `prefix`. */
  predicate LiesUnder(prefix: Text, path: Text) { prefix + [SLASH] <= path }

  /** The segments of a path begin with those of another exactly when it is that path or lies under it. */
  lemma {:induction false} PrefixSegments(prefix: Text, path: Text)
    ensures SplitOn(prefix, SLASH) <= SplitOn(path, SLASH) <==> path == prefix || LiesUnder(prefix, path)
  {
    var a, b := SplitOn(prefix, SLASH), SplitOn(path, SLASH);
    JoinSplit(prefix, SLASH);
    JoinSplit(path, SLASH);
    hide SplitOn, JoinWith;
    if a <= b && |a| < |b| {
      JoinLonger(a, b);
    } else if a <= b {
      assert a == b;
    } else if LiesUnder(prefix, path) {
      SplitLonger(prefix, path);
    }
  }

  lemma {:induction false} JoinLonger(a: seq<Text>, b: seq<Text>)
    requires a != [] && a <= b && |a| < |b|
    ensures JoinWith(a, SLASH) + [SLASH] <= JoinWith(b, SLASH)
  {
    var rest := b[|a|..];
    assert b == a + rest;
    JoinConcat(a, rest, SLASH);
    hide *;
    BeginsWith(JoinWith(a, SLASH), JoinWith(rest, SLASH), SLASH);
  }

  lemma {:induction false} BeginsWith(a: Text, b: Text, separator: CodeUnit)
    ensures a + [separator] <= a + ([separator] + b)
  {
    assert a + ([separator] + b) == a + [separator] + b;
  }

  lemma {:induction false} SplitLonger(prefix: Text, path: Text)
    requires LiesUnder(prefix, path)
    ensures SplitOn(prefix, SLASH) <= SplitOn(path, SLASH)
    ensures |SplitOn(prefix, SLASH)| < |SplitOn(path, SLASH)|
  {
    var rest := path[|prefix| + 1..];
    assert path == prefix + [SLASH] + rest;
    assert prefix + [SLASH] + rest == prefix + ([SLASH] + rest);
    SplitConcat(prefix, rest, SLASH);
  }

  // ---- trim ----

  /** White space and line terminators of ECMA-262, section 12.2 and 12.3, as `trim` removes them. */
  predicate IsSpace(u: CodeUnit) {
    || 0x09 <= u <= 0x0d || u == 0x20 || u == 0xa0 || u == 0x1680 || 0x2000 <= u <= 0x200a
    || u == 0x2028 || u == 0x2029 || u == 0x202f || u == 0x205f || u == 0x3000 || u == 0xfeff
  }

  function TrimStart(t: Text): Text {
    if t != [] && IsSpace(t[0]) then TrimStart(t[1..]) else t
  }

  function TrimEnd(t: Text): Text {
    if t != [] && IsSpace(t[|t| - 1]) then TrimEnd(t[..|t| - 1]) else t
  }

  function Trim(t: Text): Text { TrimEnd(TrimStart(t)) }

  lemma {:induction false} TrimStartParts(t: Text) returns (spaces: Text)
    ensures t == spaces + TrimStart(t) && forall i :: 0 <= i < |spaces| ==> IsSpace(spaces[i])
    ensures TrimStart(t) != [] ==> !IsSpace(TrimStart(t)[0])
  {
    if t != [] && IsSpace(t[0]) {
      var more := TrimStartParts(t[1..]);
      spaces := [t[0]] + more;
      assert t == [t[0]] + (more + TrimStart(t[1..]));
    } else {
      spaces := [];
    }
  }

  lemma {:induction false} TrimEndParts(t: Text) returns (spaces: Text)
    ensures t == TrimEnd(t) + spaces && forall i :: 0 <= i < |spaces| ==> IsSpace(spaces[i])
    ensures TrimEnd(t) != [] ==> !IsSpace(TrimEnd(t)[|TrimEnd(t)| - 1])
  {
    if t != [] && IsSpace(t[|t| - 1]) {
      var more := TrimEndParts(t[..|t| - 1]);
      spaces := more + [t[|t| - 1]];
      assert t == TrimEnd(t[..|t| - 1]) + more + [t[|t| - 1]];
    } else {
      spaces := [];
    }
  }

  /** Trimming takes white space off both ends, all of it and nothing else. */
  lemma {:induction false} TrimParts(t: Text) returns (before: Text, after: Text)
    ensures t == before + Trim(t) + after
    ensures forall i :: 0 <= i < |before| ==> IsSpace(before[i])
    ensures forall i :: 0 <= i < |after| ==> IsSpace(after[i])
    ensures Trim(t) != [] ==> !IsSpace(Trim(t)[0]) && !IsSpace(Trim(t)[|Trim(t)| - 1])
  {
    before := TrimStartParts(t);
    after := TrimEndParts(TrimStart(t));
    if Trim(t) != [] { assert Trim(t)[0] == TrimStart(t)[0]; }
  }

  // ---- decimal numerals ----

  predicate IsDigit(u: CodeUnit) { 0x30 <= u <= 0x39 }

  predicate AllDigits(s: Text) { forall i :: 0 <= i < |s| ==> IsDigit(s[i]) }

  function DigitsValue(s: Text): nat
    requires AllDigits(s)
  {
    if s == [] then 0 else 10 * DigitsValue(s[..|s| - 1]) + (s[|s| - 1] as nat - 0x30)
  }

  /** `String(n)` for a natural number. */
  function Decimal(n: nat): (s: Text)
    ensures s != [] && AllDigits(s)
  {
    if n < 10 then [(0x30 + n) as CodeUnit] else Decimal(n / 10) + [(0x30 + n % 10) as CodeUnit]
  }

  /** A numeral without superfluous leading zeros. */
  predicate CanonicalNumeral(s: Text) {
    s != [] && AllDigits(s) && (|s| > 1 ==> s[0] != 0x30)
  }

  lemma {:induction false} DecimalValue(n: nat)
    ensures CanonicalNumeral(Decimal(n)) && DigitsValue(Decimal(n)) == n
    ensures n > 0 ==> Decimal(n)[0] != 0x30
  {
    if n >= 10 {
      DecimalValue(n / 10);
      assert Decimal(n)[..|Decimal(n)| - 1] == Decimal(n / 10);
    }
  }

  lemma {:induction false} NumeralPositive(s: Text)
    requires s != [] && AllDigits(s) && s[0] != 0x30
    ensures DigitsValue(s) > 0
  {
    if |s| > 1 {
      NumeralPositive(s[..|s| - 1]);
    }
  }

  /** Only one canonical numeral has a given value. */
  lemma {:induction false} NumeralUnique(s: Text, t: Text)
    requires CanonicalNumeral(s) && CanonicalNumeral(t) && DigitsValue(s) == DigitsValue(t)
    ensures s == t
  {
    var a, b := s[..|s| - 1], t[..|t| - 1];
    assert s == a + [s[|s| - 1]] && t == b + [t[|t| - 1]];
    if |s| > 1 { NumeralPositive(a); }
    if |t| > 1 { NumeralPositive(b); }
    if |s| > 1 && |t| > 1 {
      NumeralUnique(a, b);
    }
  }
}
