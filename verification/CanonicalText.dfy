/** The text of canonical JSON, a parser for it, and injectivity of `canonicalJsonStringify`. */
module CanonicalText {
  import opened Outcomes
  import opened Texts
  import opened Json
  import opened Canonical

  const QUOTE: CodeUnit := 0x22
  const BACKSLASH: CodeUnit := 0x5c
  const COMMA: CodeUnit := 0x2c
  const COLON: CodeUnit := 0x3a
  const NULL_TEXT: Text := [0x6e, 0x75, 0x6c, 0x6c]
  const TRUE_TEXT: Text := [0x74, 0x72, 0x75, 0x65]
  const FALSE_TEXT: Text := [0x66, 0x61, 0x6c, 0x73, 0x65]

  // ---- JSON.stringify on strings ----

  predicate IsLead(u: CodeUnit) { 0xd800 <= u < 0xdc00 }

  predicate IsTrail(u: CodeUnit) { 0xdc00 <= u < 0xe000 }

  function HexDigit(n: nat): CodeUnit
    requires n < 16
  {
    if n < 10 then (0x30 + n) as CodeUnit else (0x61 + n - 10) as CodeUnit
  }

  function HexValue(u: CodeUnit): Option<nat> {
    if IsDigit(u) then Some(u as nat - 0x30)
    else if 0x61 <= u <= 0x66 then Some(u as nat - 0x61 + 10)
    else if 0x41 <= u <= 0x46 then Some(u as nat - 0x41 + 10)
    else None
  }

  function HexEscape(n: nat): (t: Text)
    requires n < 0x1_0000
  {
    [BACKSLASH, 0x75, HexDigit(n / 0x1000), HexDigit(n / 0x100 % 16), HexDigit(n / 0x10 % 16), HexDigit(n % 16)]
  }

  /** The escape of one code unit that is not half of a surrogate pair. */
  function EscapeUnit(u: CodeUnit): (t: Text)
    ensures t != []
  {
    if u == QUOTE || u == BACKSLASH then [BACKSLASH, u]
    else if u == 0x08 then [BACKSLASH, 0x62]
    else if u == 0x09 then [BACKSLASH, 0x74]
    else if u == 0x0a then [BACKSLASH, 0x6e]
    else if u == 0x0c then [BACKSLASH, 0x66]
    else if u == 0x0d then [BACKSLASH, 0x72]
    else if u < 0x20 || IsLead(u) || IsTrail(u) then
      HexEscape(u as nat)
    else [u]
  }

  function Escape(s: Text): Text {
    if s == [] then []
    else if IsLead(s[0]) && |s| > 1 && IsTrail(s[1]) then s[..2] + Escape(s[2..])
    else EscapeUnit(s[0]) + Escape(s[1..])
  }

  function Quoted(s: Text): Text { [QUOTE] + Escape(s) + [QUOTE] }

  // ---- stringifyCanonicalJson ----

  function Stringify(v: Json): (t: Text)
    decreases v, 1, 0
  {
    match v
    case Null => NULL_TEXT
    case Bool(b) => if b then TRUE_TEXT else FALSE_TEXT
    case Num(n) => (match n case Finite(token) => token case NegativeZero => [0x30] case _ => NULL_TEXT)
    case Str(s) => Quoted(s)
    case Arr(items) => [0x5b] + StringifyItems(items) + [0x5d]
    case Obj(es) => [0x7b] + StringifyEntries(es) + [0x7d]
  }

  function StringifyItems(items: seq<Json>): Text
    decreases items, 0, |items|
  {
    if items == [] then []
    else if |items| == 1 then Stringify(items[0])
    else Stringify(items[0]) + [COMMA] + StringifyItems(items[1..])
  }

  function StringifyEntry(e: Entry): Text
    decreases e, 2, 0
  {
    Quoted(e.key) + [COLON] + Stringify(e.value)
  }

  function StringifyEntries(es: seq<Entry>): Text
    decreases es, 0, |es|
  {
    if es == [] then []
    else if |es| == 1 then StringifyEntry(es[0])
    else StringifyEntry(es[0]) + [COMMA] + StringifyEntries(es[1..])
  }

  /** `canonicalJsonStringify`. */
  function CanonicalJsonStringify(v: Json): Result<Text, CanonicalError>
    requires WellFormed(v)
  {
    var c :- Canonicalize(v);
    Ok(Stringify(c))
  }

  // ---- a parser for JSON text without insignificant space ----

  datatype Parsed<T> = Parsed(value: T, rest: Text)

  /** Reads a string body up to its closing quotation mark (section 7 of RFC 8259). */
  function ParseString(t: Text): (r: Option<Parsed<Text>>)
    ensures r.Some? ==> |r.value.rest| < |t|
  {
    if t == [] || t[0] < 0x20 then None
    else if t[0] == QUOTE then Some(Parsed([], t[1..]))
    else
      match ParseUnit(t)
      case None => None
      case Some(unit) =>
        match ParseString(unit.rest)
        case None => None
        case Some(p) => Some(Parsed([unit.value] + p.value, p.rest))
  }

  function ParseUnit(t: Text): (r: Option<Parsed<CodeUnit>>)
    requires t != []
    ensures r.Some? ==> |r.value.rest| < |t|
  {
    if t[0] != BACKSLASH then Some(Parsed(t[0], t[1..]))
    else if |t| < 2 then None
    else if t[1] == 0x75 then
      if |t| < 6 then None else
        match (HexValue(t[2]), HexValue(t[3]), HexValue(t[4]), HexValue(t[5]))
        case (Some(a), Some(b), Some(c), Some(d)) =>
          var u := 0x1000 * a + 0x100 * b + 0x10 * c + d;
          if u < 0x1_0000 then Some(Parsed(u as CodeUnit, t[6..])) else None
        case _ => None
    else
      match SimpleEscape(t[1])
      case None => None
      case Some(u) => Some(Parsed(u, t[2..]))
  }

  function SimpleEscape(u: CodeUnit): Option<CodeUnit> {
    if u == QUOTE || u == BACKSLASH || u == 0x2f then Some(u)
    else if u == 0x62 then Some(0x08)
    else if u == 0x74 then Some(0x09)
    else if u == 0x6e then Some(0x0a)
    else if u == 0x66 then Some(0x0c)
    else if u == 0x72 then Some(0x0d)
    else None
  }

  function NumberPrefix(t: Text): (n: nat)
    ensures n <= |t| && forall i :: 0 <= i < n ==> IsNumberUnit(t[i])
  {
    if t == [] || !IsNumberUnit(t[0]) then 0 else 1 + NumberPrefix(t[1..])
  }

  function ParseValue(t: Text): (r: Option<Parsed<Json>>)
    ensures r.Some? ==> |r.value.rest| < |t|
    decreases |t|, 0
  {
    if t == [] then None
    else if NULL_TEXT <= t then Some(Parsed(Null, t[4..]))
    else if TRUE_TEXT <= t then Some(Parsed(Bool(true), t[4..]))
    else if FALSE_TEXT <= t then Some(Parsed(Bool(false), t[5..]))
    else if IsNumberUnit(t[0]) then
      var n := NumberPrefix(t);
      Some(Parsed(Num(Finite(t[..n])), t[n..]))
    else if t[0] == QUOTE then
      match ParseString(t[1..])
      case None => None
      case Some(p) => Some(Parsed(Str(p.value), p.rest))
    else if t[0] == 0x5b then
      if |t| > 1 && t[1] == 0x5d then Some(Parsed(Arr([]), t[2..])) else
        match ParseItems(t[1..])
        case None => None
        case Some(p) => Some(Parsed(Arr(p.value), p.rest))
    else if t[0] == 0x7b then
      if |t| > 1 && t[1] == 0x7d then Some(Parsed(Obj([]), t[2..])) else
        match ParseEntries(t[1..])
        case None => None
        case Some(p) => Some(Parsed(Obj(p.value), p.rest))
    else None
  }

  /** One or more items up to the closing bracket. */
  function ParseItems(t: Text): (r: Option<Parsed<seq<Json>>>)
    ensures r.Some? ==> |r.value.rest| < |t|
    decreases |t|, 1
  {
    match ParseValue(t)
    case None => None
    case Some(p) =>
      if p.rest == [] then None
      else if p.rest[0] == 0x5d then Some(Parsed([p.value], p.rest[1..]))
      else if p.rest[0] != COMMA then None
      else
        match ParseItems(p.rest[1..])
        case None => None
        case Some(q) => Some(Parsed([p.value] + q.value, q.rest))
  }

  function ParseEntry(t: Text): (r: Option<Parsed<Entry>>)
    ensures r.Some? ==> |r.value.rest| < |t|
    decreases |t|, 0
  {
    if t == [] || t[0] != QUOTE then None else
      match ParseString(t[1..])
      case None => None
      case Some(k) =>
        if k.rest == [] || k.rest[0] != COLON then None else
          match ParseValue(k.rest[1..])
          case None => None
          case Some(v) => Some(Parsed(Entry(k.value, v.value), v.rest))
  }

  /** One or more members up to the closing brace. */
  function ParseEntries(t: Text): (r: Option<Parsed<seq<Entry>>>)
    ensures r.Some? ==> |r.value.rest| < |t|
    decreases |t|, 1
  {
    match ParseEntry(t)
    case None => None
    case Some(p) =>
      if p.rest == [] then None
      else if p.rest[0] == 0x7d then Some(Parsed([p.value], p.rest[1..]))
      else if p.rest[0] != COMMA then None
      else
        match ParseEntries(p.rest[1..])
        case None => None
        case Some(q) => Some(Parsed([p.value] + q.value, q.rest))
  }

  // ---- parsing undoes printing ----

  lemma HexRoundTrip(n: nat)
    requires n < 16
    ensures HexValue(HexDigit(n)) == Some(n)
  {
  }

  lemma HexDigitsSum(n: nat)
    requires n < 0x1_0000
    ensures n / 0x1000 < 16
    ensures 0x1000 * (n / 0x1000) + 0x100 * (n / 0x100 % 16) + 0x10 * (n / 0x10 % 16) + n % 16 == n
  {
  }

  lemma {:induction false} ParseHexEscape(n: nat, rest: Text)
    requires n < 0x1_0000
    ensures ParseUnit(HexEscape(n) + rest) == Some(Parsed(n as CodeUnit, rest))
  {
    HexDigitsSum(n);
    var e := HexEscape(n);
    assert (e + rest)[6..] == rest;
    HexRoundTrip(n / 0x1000);
    HexRoundTrip(n / 0x100 % 16);
    HexRoundTrip(n / 0x10 % 16);
    HexRoundTrip(n % 16);
  }

  lemma {:induction false} ParseUnitEscape(u: CodeUnit, rest: Text)
    ensures ParseUnit(EscapeUnit(u) + rest) == Some(Parsed(u, rest))
    ensures (EscapeUnit(u) + rest)[0] >= 0x20 && (EscapeUnit(u) + rest)[0] != QUOTE
  {
    var e := EscapeUnit(u);
    if |e| == 6 {
      ParseHexEscape(u as nat, rest);
    } else {
      assert (e + rest)[|e|..] == rest;
    }
  }

  lemma ParseStringCons(t: Text, u: CodeUnit, tail: Text, p: Parsed<Text>)
    requires t != [] && t[0] >= 0x20 && t[0] != QUOTE
    requires ParseUnit(t) == Some(Parsed(u, tail)) && ParseString(tail) == Some(p)
    ensures ParseString(t) == Some(Parsed([u] + p.value, p.rest))
  {
  }

  lemma {:induction false} ParseStringEnd(rest: Text)
    ensures ParseString([QUOTE] + rest) == Some(Parsed([], rest))
  {
    assert ([QUOTE] + rest)[1..] == rest;
  }

  lemma {:induction false} ParseRaw(u: CodeUnit, tail: Text)
    requires u != BACKSLASH
    ensures ParseUnit([u] + tail) == Some(Parsed(u, tail))
  {
    assert ([u] + tail)[1..] == tail;
  }

  lemma {:induction false} ParseStringEscape(s: Text, rest: Text)
    ensures ParseString(Escape(s) + [QUOTE] + rest) == Some(Parsed(s, rest))
  {
    hide ParseString, ParseUnit, EscapeUnit;
    var t := Escape(s) + [QUOTE] + rest;
    if s == [] {
      assert t == [QUOTE] + rest;
      ParseStringEnd(rest);
    } else if IsLead(s[0]) && |s| > 1 && IsTrail(s[1]) {
      var tail := Escape(s[2..]) + [QUOTE] + rest;
      ParseStringEscape(s[2..], rest);
      var t1 := [s[1]] + tail;
      assert t == [s[0]] + t1;
      ParseRaw(s[1], tail);
      ParseStringCons(t1, s[1], tail, Parsed(s[2..], rest));
      ParseRaw(s[0], t1);
      ParseStringCons(t, s[0], t1, Parsed([s[1]] + s[2..], rest));
      assert s == [s[0]] + ([s[1]] + s[2..]);
    } else {
      var tail := Escape(s[1..]) + [QUOTE] + rest;
      assert t == EscapeUnit(s[0]) + tail;
      ParseUnitEscape(s[0], tail);
      ParseStringEscape(s[1..], rest);
      ParseStringCons(t, s[0], tail, Parsed(s[1..], rest));
      assert s == [s[0]] + s[1..];
    }
  }

  /** What may follow a value inside a larger text. */
  predicate EndsNumber(rest: Text) {
    rest == [] || !IsNumberUnit(rest[0])
  }

  lemma {:induction false} NumberPrefixExact(token: Text, rest: Text)
    requires forall i :: 0 <= i < |token| ==> IsNumberUnit(token[i])
    requires EndsNumber(rest)
    ensures NumberPrefix(token + rest) == |token|
  {
    if token == [] {
      assert token + rest == rest;
    } else {
      assert (token + rest)[1..] == token[1..] + rest;
      NumberPrefixExact(token[1..], rest);
    }
  }

  lemma {:induction false} StringifyFirst(v: Json)
    requires AllFinite(v)
    ensures Stringify(v) != [] && Stringify(v)[0] != 0x5d
  {
    if v.Num? { assert IsNumberUnit(v.n.token[0]); }
  }

  lemma {:induction false} ParseWord(v: Json, rest: Text)
    requires v.Null? || v.Bool?
    ensures ParseValue(Stringify(v) + rest) == Some(Parsed(v, rest))
  {
    var w := Stringify(v);
    var t := w + rest;
    assert w <= t && t[|w|..] == rest;
    assert w[0] == t[0];
  }

  lemma {:induction false} ParseNumber(n: NumberText, rest: Text)
    requires EndsNumber(rest)
    ensures ParseValue(n + rest) == Some(Parsed(Num(Finite(n)), rest))
  {
    var t := n + rest;
    NumberPrefixExact(n, rest);
    assert t[0] == n[0];
    assert IsNumberUnit(t[0]);
    assert t[..|n|] == n && t[|n|..] == rest;
  }

  lemma {:induction false} ParseQuoted(s: Text, rest: Text)
    ensures ParseValue(Quoted(s) + rest) == Some(Parsed(Str(s), rest))
  {
    var t := Quoted(s) + rest;
    assert t[0] == QUOTE && t[1..] == Escape(s) + [QUOTE] + rest;
    ParseStringEscape(s, rest);
  }

  lemma {:induction false} ParseArray(body: Text, items: seq<Json>, rest: Text)
    requires body != [] && body[0] != 0x5d
    requires ParseItems(body + [0x5d] + rest) == Some(Parsed(items, rest))
    ensures ParseValue([0x5b] + body + [0x5d] + rest) == Some(Parsed(Arr(items), rest))
  {
    hide ParseItems, ParseEntries, ParseString;
    var t := [0x5b] + body + [0x5d] + rest;
    assert t[0] != NULL_TEXT[0] && t[0] != TRUE_TEXT[0] && t[0] != FALSE_TEXT[0];
    assert t[0] == 0x5b && t[1] == body[0] && t[1..] == body + [0x5d] + rest;
  }

  lemma {:induction false} ParseObject(body: Text, es: seq<Entry>, rest: Text)
    requires body != [] && body[0] == QUOTE
    requires ParseEntries(body + [0x7d] + rest) == Some(Parsed(es, rest))
    ensures ParseValue([0x7b] + body + [0x7d] + rest) == Some(Parsed(Obj(es), rest))
  {
    hide ParseItems, ParseEntries, ParseString;
    var t := [0x7b] + body + [0x7d] + rest;
    assert t[0] != NULL_TEXT[0] && t[0] != TRUE_TEXT[0] && t[0] != FALSE_TEXT[0];
    assert t[0] == 0x7b && t[1] == body[0] && t[1..] == body + [0x7d] + rest;
  }

  lemma {:induction false} EntriesStart(es: seq<Entry>)
    requires es != []
    ensures StringifyEntries(es) != [] && StringifyEntries(es)[0] == QUOTE
  {
    assert StringifyEntry(es[0])[0] == QUOTE;
  }

  lemma {:induction false} ParseEmpty(rest: Text)
    ensures ParseValue([0x5b, 0x5d] + rest) == Some(Parsed(Arr([]), rest))
    ensures ParseValue([0x7b, 0x7d] + rest) == Some(Parsed(Obj([]), rest))
  {
    assert ([0x5b, 0x5d] + rest)[2..] == rest && ([0x7b, 0x7d] + rest)[2..] == rest;
  }

  lemma {:induction false} ParseStringify(v: Json, rest: Text)
    requires AllFinite(v) && EndsNumber(rest)
    ensures ParseValue(Stringify(v) + rest) == Some(Parsed(v, rest))
    decreases v, 1, 0
  {
    hide ParseValue, ParseItems, ParseEntries;
    match v
    case Null => ParseWord(v, rest);
    case Bool(b) => ParseWord(v, rest);
    case Num(n) => ParseNumber(n.token, rest);
    case Str(s) => ParseQuoted(s, rest);
    case Arr(items) =>
      ParseEmpty(rest);
      if items != [] {
        StringifyFirst(items[0]);
        ParseStringifyItems(items, rest);
        ParseArray(StringifyItems(items), items, rest);
      } else {
        assert [0x5b] + [] + [0x5d] == [0x5b, 0x5d];
      }
    case Obj(es) =>
      ParseEmpty(rest);
      if es != [] {
        EntriesStart(es);
        ParseStringifyEntries(es, rest);
        ParseObject(StringifyEntries(es), es, rest);
      } else {
        assert [0x7b] + [] + [0x7d] == [0x7b, 0x7d];
      }
  }

  lemma {:induction false} ParseItemsCons(t: Text, first: Json, tail: Text, q: Parsed<seq<Json>>)
    requires ParseValue(t) == Some(Parsed(first, [COMMA] + tail)) && ParseItems(tail) == Some(q)
    ensures ParseItems(t) == Some(Parsed([first] + q.value, q.rest))
  {
    assert ([COMMA] + tail)[1..] == tail;
  }

  lemma {:induction false} ParseItemsLast(t: Text, last: Json, rest: Text)
    requires ParseValue(t) == Some(Parsed(last, [0x5d] + rest))
    ensures ParseItems(t) == Some(Parsed([last], rest))
  {
    assert ([0x5d] + rest)[1..] == rest;
  }

  lemma {:induction false} ParseStringifyItems(items: seq<Json>, rest: Text)
    requires items != [] && forall i :: 0 <= i < |items| ==> AllFinite(items[i])
    ensures ParseItems(StringifyItems(items) + [0x5d] + rest) == Some(Parsed(items, rest))
    decreases items, 0, |items|
  {
    hide Stringify, ParseValue, ParseItems;
    var t := StringifyItems(items) + [0x5d] + rest;
    if |items| == 1 {
      ParseStringify(items[0], [0x5d] + rest);
      assert t == Stringify(items[0]) + ([0x5d] + rest);
      ParseItemsLast(t, items[0], rest);
      assert items == [items[0]];
    } else {
      var tail := StringifyItems(items[1..]) + [0x5d] + rest;
      ParseStringify(items[0], [COMMA] + tail);
      assert t == Stringify(items[0]) + ([COMMA] + tail);
      ParseStringifyItems(items[1..], rest);
      ParseItemsCons(t, items[0], tail, Parsed(items[1..], rest));
      assert items == [items[0]] + items[1..];
    }
  }

  lemma {:induction false} ParseEntryCons(t: Text, e: Entry, tail: Text, rest: Text)
    requires t != [] && t[0] == QUOTE
    requires ParseString(t[1..]) == Some(Parsed(e.key, [COLON] + tail)) && ParseValue(tail) == Some(Parsed(e.value, rest))
    ensures ParseEntry(t) == Some(Parsed(e, rest))
  {
    hide ParseString, ParseValue;
    assert ([COLON] + tail)[1..] == tail;
  }

  lemma {:induction false} ParseStringifyEntry(e: Entry, rest: Text)
    requires AllFinite(e.value) && EndsNumber(rest)
    ensures ParseEntry(StringifyEntry(e) + rest) == Some(Parsed(e, rest))
    decreases e, 2, 0
  {
    hide ParseString, ParseValue, ParseEntry, Stringify;
    var t := StringifyEntry(e) + rest;
    var tail := Stringify(e.value) + rest;
    assert t[1..] == Escape(e.key) + [QUOTE] + ([COLON] + tail);
    ParseStringEscape(e.key, [COLON] + tail);
    ParseStringify(e.value, rest);
    ParseEntryCons(t, e, tail, rest);
  }

  lemma {:induction false} ParseEntriesCons(t: Text, first: Entry, tail: Text, q: Parsed<seq<Entry>>)
    requires ParseEntry(t) == Some(Parsed(first, [COMMA] + tail)) && ParseEntries(tail) == Some(q)
    ensures ParseEntries(t) == Some(Parsed([first] + q.value, q.rest))
  {
    assert ([COMMA] + tail)[1..] == tail;
  }

  lemma {:induction false} ParseEntriesLast(t: Text, last: Entry, rest: Text)
    requires ParseEntry(t) == Some(Parsed(last, [0x7d] + rest))
    ensures ParseEntries(t) == Some(Parsed([last], rest))
  {
    assert ([0x7d] + rest)[1..] == rest;
  }

  lemma {:induction false} ParseStringifyEntries(es: seq<Entry>, rest: Text)
    requires es != [] && forall i :: 0 <= i < |es| ==> AllFinite(es[i].value)
    ensures ParseEntries(StringifyEntries(es) + [0x7d] + rest) == Some(Parsed(es, rest))
    decreases es, 0, |es|
  {
    hide Stringify, StringifyEntry, ParseValue, ParseEntries, ParseEntry, Escape;
    var t := StringifyEntries(es) + [0x7d] + rest;
    if |es| == 1 {
      ParseStringifyEntry(es[0], [0x7d] + rest);
      assert t == StringifyEntry(es[0]) + ([0x7d] + rest);
      ParseEntriesLast(t, es[0], rest);
      assert es == [es[0]];
    } else {
      var tail := StringifyEntries(es[1..]) + [0x7d] + rest;
      ParseStringifyEntry(es[0], [COMMA] + tail);
      assert t == StringifyEntry(es[0]) + ([COMMA] + tail);
      ParseStringifyEntries(es[1..], rest);
      ParseEntriesCons(t, es[0], tail, Parsed(es[1..], rest));
      assert es == [es[0]] + es[1..];
    }
  }

  /** Printing is injective on values JSON can carry. */
  lemma {:induction false} StringifyInjective(a: Json, b: Json)
    requires AllFinite(a) && AllFinite(b) && Stringify(a) == Stringify(b)
    ensures a == b
  {
    ParseStringify(a, []);
    ParseStringify(b, []);
    assert Stringify(a) + [] == Stringify(a) && Stringify(b) + [] == Stringify(b);
  }

  /** Parsing the canonical text of a value gives back its canonical form, with nothing left over. */
  lemma {:induction false} ParseCanonicalText(v: Json)
    requires WellFormed(v) && AllFinite(v)
    ensures Canonicalize(v).Ok? && CanonicalJsonStringify(v).Ok?
    ensures ParseValue(CanonicalJsonStringify(v).value) == Some(Parsed(Canonicalize(v).value, []))
  {
    CanonicalizeOkIff(v);
    CanonicalFormOf(v);
    var c := Canonicalize(v).value;
    ParseStringify(c, []);
    assert Stringify(c) + [] == Stringify(c);
  }

  /** Canonical JSON texts are equal exactly when the values are the same up to property
      order and `__proto__` properties: order independence and injectivity in one. */
  lemma {:induction false} CanonicalJsonEqualIffSame(a: Json, b: Json)
    requires WellFormed(a) && WellFormed(b) && AllFinite(a) && AllFinite(b)
    ensures CanonicalJsonStringify(a).Ok? && CanonicalJsonStringify(b).Ok?
    ensures CanonicalJsonStringify(a) == CanonicalJsonStringify(b) <==> Same(a, b)
  {
    CanonicalEqualIffSame(a, b);
    CanonicalFormOf(a);
    CanonicalFormOf(b);
    if CanonicalJsonStringify(a) == CanonicalJsonStringify(b) {
      StringifyInjective(Canonicalize(a).value, Canonicalize(b).value);
    }
  }
}
