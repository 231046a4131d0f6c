/** JSON pointers as the draft tools write and read them (RFC 6901). */
module Pointers {
  import opened Outcomes
  import opened Texts
  import opened Json

  const TILDE: CodeUnit := 0x7e

  /** What reading a property gives: nothing, an own JSON value, or a function inherited from
      `Object.prototype`. */
  datatype Slot = Missing | Own(v: Json) | Inherited

  function Ascii(s: string): Text {
    seq(|s|, i requires 0 <= i < |s| => if s[i] < '~' then (s[i] as int) as CodeUnit else TILDE)
  }

  /** The function-valued properties every plain object inherits. */
  predicate IsInheritedName(k: Text) {
    || k == Ascii("constructor") || k == Ascii("hasOwnProperty") || k == Ascii("isPrototypeOf")
    || k == Ascii("propertyIsEnumerable") || k == Ascii("toLocaleString") || k == Ascii("toString")
    || k == Ascii("valueOf") || k == Ascii("__defineGetter__") || k == Ascii("__defineSetter__")
    || k == Ascii("__lookupGetter__") || k == Ascii("__lookupSetter__")
  }

  /** `object[key]`; reading `__proto__` where it is no own property is not modelled. */
  function GetSlot(es: seq<Entry>, k: Text): Slot {
    if HasKey(es, k) then Own(Get(es, k))
    else if IsInheritedName(k) then Inherited
    else Missing
  }

  function ItemSlot(xs: seq<Json>, i: nat): Slot {
    if i < |xs| then Own(xs[i]) else Missing
  }

  // ---- escaping ----

  /** `s.replaceAll(u, sub)` for a single code unit. */
  function ReplaceUnit(s: Text, u: CodeUnit, sub: Text): Text {
    if s == [] then [] else (if s[0] == u then sub else [s[0]]) + ReplaceUnit(s[1..], u, sub)
  }

  /** `s.replaceAll(first second, sub)` for a pair of different code units. */
  function ReplacePair(s: Text, first: CodeUnit, second: CodeUnit, sub: CodeUnit): Text {
    if s == [] then []
    else if |s| > 1 && s[0] == first && s[1] == second then [sub] + ReplacePair(s[2..], first, second, sub)
    else [s[0]] + ReplacePair(s[1..], first, second, sub)
  }

  function EscapeJsonPointer(segment: Text): Text {
    ReplaceUnit(ReplaceUnit(segment, TILDE, [TILDE, 0x30]), SLASH, [TILDE, 0x31])
  }

  function UnescapeSegment(raw: Text): Text {
    ReplacePair(ReplacePair(raw, TILDE, 0x31, SLASH), TILDE, 0x30, TILDE)
  }

  /** Escaping goes unit by unit: a tilde becomes `~0`, a slash `~1`, everything else stays. */
  lemma {:induction false} EscapeStep(s: Text)
    requires s != []
    ensures EscapeJsonPointer([]) == []
    ensures EscapeJsonPointer(s) ==
            (if s[0] == 0x7e then [0x7e, 0x30] else if s[0] == 0x2f then [0x7e, 0x31] else [s[0]])
            + EscapeJsonPointer(s[1..])
  {
    var tail := ReplaceUnit(s[1..], TILDE, [TILDE, 0x30]);
    if s[0] == TILDE {
      var once := [TILDE] + ([0x30] + tail);
      assert ReplaceUnit(s, TILDE, [TILDE, 0x30]) == once;
      assert once[1..] == [0x30] + tail && ([0x30] + tail)[1..] == tail;
      assert ReplaceUnit([0x30] + tail, SLASH, [TILDE, 0x31]) == [0x30] + ReplaceUnit(tail, SLASH, [TILDE, 0x31]);
    } else {
      assert ReplaceUnit(s, TILDE, [TILDE, 0x30]) == [s[0]] + tail;
    }
  }

  /** An escaped segment holds no slash, and unescaping undoes escaping. */
  lemma {:induction false} UnescapeEscape(s: Text)
    ensures SLASH !in EscapeJsonPointer(s)
    ensures ReplacePair(EscapeJsonPointer(s), TILDE, 0x31, SLASH) == ReplaceUnit(s, TILDE, [TILDE, 0x30])
    ensures UnescapeSegment(EscapeJsonPointer(s)) == s
  {
    if s != [] {
      EscapeStep(s);
      UnescapeEscape(s[1..]);
      var e, tail := EscapeJsonPointer(s), EscapeJsonPointer(s[1..]);
      var once := ReplaceUnit(s[1..], TILDE, [TILDE, 0x30]);
      if s[0] == TILDE {
        assert e[1..] == [0x30] + tail && ([0x30] + tail)[1..] == tail;
        assert ReplacePair(e, TILDE, 0x31, SLASH) == [TILDE] + ([0x30] + once);
        assert ([TILDE, 0x30] + once)[2..] == once;
      } else if s[0] == SLASH {
        assert e[2..] == tail;
        assert ([SLASH] + once)[1..] == once;
      } else {
        assert e[1..] == tail;
        assert ([s[0]] + once)[1..] == once;
      }
    }
  }

  // ---- paths and pointers ----

  /** The pointer of a path of unescaped segments. */
  function Pointer(path: seq<Text>): Text {
    if path == [] then [] else [SLASH] + EscapeJsonPointer(path[0]) + Pointer(path[1..])
  }

  function Unescaped(raw: seq<Text>): seq<Text> {
    seq(|raw|, i requires 0 <= i < |raw| => UnescapeSegment(raw[i]))
  }

  /** Splitting and unescaping a pointer gives back the path it was made from. */
  lemma {:induction false} PointerRoundTrip(path: seq<Text>)
    ensures SplitOn(Pointer(path), SLASH)[0] == []
    ensures Unescaped(SplitOn(Pointer(path), SLASH)[1..]) == path
  {
    hide EscapeJsonPointer, UnescapeSegment, SplitOn;
    SplitLeading([], SLASH);
    if path != [] {
      var e, rest := EscapeJsonPointer(path[0]), Pointer(path[1..]);
      PointerRoundTrip(path[1..]);
      UnescapeEscape(path[0]);
      SplitAfter(e, rest, SLASH);
      assert Pointer(path) == [SLASH] + (e + rest);
      SplitLeading(e + rest, SLASH);
      assert e + [] == e;
      assert SplitOn(Pointer(path), SLASH)[1..] == [e] + SplitOn(rest, SLASH)[1..];
      assert path == [path[0]] + path[1..];
    }
  }

  /** Different paths have different pointers. */
  lemma {:induction false} PointerInjective(p: seq<Text>, q: seq<Text>)
    requires Pointer(p) == Pointer(q)
    ensures p == q
  {
    PointerRoundTrip(p);
    PointerRoundTrip(q);
  }

  // ---- Number.parseInt(segment, 10) as an array index ----

  function DigitPrefix(s: Text): (n: nat)
    ensures n <= |s| && AllDigits(s[..n])
  {
    if s == [] || !IsDigit(s[0]) then 0 else
      assert s[..1 + DigitPrefix(s[1..])] == [s[0]] + s[1..][..DigitPrefix(s[1..])];
      1 + DigitPrefix(s[1..])
  }

  /** The index the parsed number selects, if it can select one. */
  function ParseIndex(segment: Text): Option<nat> {
    var s := TrimStart(segment);
    var negative := s != [] && s[0] == 0x2d;
    var digits := if s != [] && (s[0] == 0x2d || s[0] == 0x2b) then s[1..] else s;
    var n := DigitPrefix(digits);
    if n == 0 then None
    else if negative && DigitsValue(digits[..n]) > 0 then None
    else Some(DigitsValue(digits[..n]))
  }

  lemma {:induction false} DigitPrefixAll(s: Text)
    requires AllDigits(s)
    ensures DigitPrefix(s) == |s|
  {
    if s != [] { DigitPrefixAll(s[1..]); }
  }

  lemma {:induction false} ParseIndexDecimal(n: nat)
    ensures ParseIndex(Decimal(n)) == Some(n)
  {
    DecimalValue(n);
    var s := Decimal(n);
    assert IsDigit(s[0]);
    DigitPrefixAll(s);
    assert s[..|s|] == s;
  }

  lemma {:induction false} DecimalInjective(m: nat, n: nat)
    requires Decimal(m) == Decimal(n)
    ensures m == n
  {
    DecimalValue(m);
    DecimalValue(n);
  }

  lemma {:induction false} ReplaceAbsent(s: Text, u: CodeUnit, sub: Text)
    requires u !in s
    ensures ReplaceUnit(s, u, sub) == s
  {
    if s != [] { ReplaceAbsent(s[1..], u, sub); }
  }

  /** Index segments need no escape. */
  lemma {:induction false} EscapeDecimal(n: nat)
    ensures EscapeJsonPointer(Decimal(n)) == Decimal(n)
  {
    var s := Decimal(n);
    assert forall i :: 0 <= i < |s| ==> IsDigit(s[i]);
    ReplaceAbsent(s, TILDE, [TILDE, 0x30]);
    ReplaceAbsent(s, SLASH, [TILDE, 0x31]);
  }

  // ---- what the index reader makes of a segment ----

  const PLUS: Text := [0x2b]
  const MINUS: Text := [0x2d]

  /** A segment taken apart as `parseInt` reads it: white space, a sign or none, digits, and what is ignored. */
  predicate ReadAsInteger(segment: Text, spaces: Text, sign: Text, digits: Text, rest: Text) {
    && segment == spaces + sign + digits + rest
    && (forall i :: 0 <= i < |spaces| ==> IsSpace(spaces[i]))
    && sign in {[], PLUS, MINUS} && AllDigits(digits)
    && (rest != [] ==> !IsDigit(rest[0]))
    && (rest != [] && sign == digits == [] ==> !IsSpace(rest[0]) && rest[0] != 0x2b && rest[0] != 0x2d)
  }

  lemma {:induction false} DigitPrefixLongest(s: Text)
    ensures DigitPrefix(s) < |s| ==> !IsDigit(s[DigitPrefix(s)])
  {
    if s != [] && IsDigit(s[0]) { DigitPrefixLongest(s[1..]); }
  }

  lemma {:induction false} SignedParts(s: Text) returns (sign: Text, digits: Text, rest: Text)
    ensures s == sign + (digits + rest) && sign in {[], PLUS, MINUS} && AllDigits(digits)
    ensures rest != [] ==> !IsDigit(rest[0])
    ensures rest != [] && sign == digits == [] ==> rest[0] != 0x2b && rest[0] != 0x2d
    ensures sign == MINUS <==> s != [] && s[0] == 0x2d
    ensures var tail := if s != [] && (s[0] == 0x2d || s[0] == 0x2b) then s[1..] else s;
            digits == tail[..DigitPrefix(tail)]
  {
    sign := if s != [] && (s[0] == 0x2d || s[0] == 0x2b) then [s[0]] else [];
    var tail := s[|sign|..];
    assert sign == [] ==> tail == s;
    DigitPrefixLongest(tail);
    digits, rest := tail[..DigitPrefix(tail)], tail[DigitPrefix(tail)..];
    hide DigitPrefix;
    assert tail == digits + rest;
    assert s == sign + tail;
  }

  /** Every segment can be taken apart in that way, and selects the index its digits stand for; none without digits, and
      none for a negative number. */
  lemma {:induction false} ParseIndexRead(segment: Text) returns (spaces: Text, sign: Text, digits: Text, rest: Text)
    ensures ReadAsInteger(segment, spaces, sign, digits, rest)
    ensures ParseIndex(segment) ==
            if digits == [] || (sign == MINUS && DigitsValue(digits) > 0) then None else Some(DigitsValue(digits))
  {
    spaces := TrimStartParts(segment);
    sign, digits, rest := SignedParts(TrimStart(segment));
    hide TrimStart, IsSpace, IsDigit, DigitsValue, DigitPrefix;
    Joined(spaces, sign, digits, rest);
    assert digits == [] && sign == [] ==> TrimStart(segment) == rest;
  }

  lemma Joined(a: Text, b: Text, c: Text, d: Text)
    ensures a + (b + (c + d)) == a + b + c + d
  {
  }

  // ---- valueAt ----

  function Child(v: Slot, segment: Text): Slot {
    match v
    case Own(Arr(xs)) => (match ParseIndex(segment) case Some(i) => ItemSlot(xs, i) case None => Missing)
    case Own(Obj(es)) => GetSlot(es, segment)
    case _ => Missing
  }

  /** Following a path from a value. */
  function Walk(v: Slot, path: seq<Text>): Slot
    decreases |path|
  {
    if path == [] then v else Walk(Child(v, path[0]), path[1..])
  }

  /** What a pointer selects; the pointer `/` means the root here, not the empty key. */
  function Resolve(root: Json, pointer: Text): Slot {
    if pointer == [] || pointer == [SLASH] then Own(root)
    else Walk(Own(root), Unescaped(SplitOn(pointer, SLASH)[1..]))
  }

  /** `valueAt`. */
  method ValueAt(root: Json, pointer: Text) returns (r: Slot)
    ensures r == Resolve(root, pointer)
  {
    if pointer == [] || pointer == [SLASH] { return Own(root); }
    var raw := SplitOn(pointer, SLASH)[1..];
    var current := Own(root);
    for i := 0 to |raw|
      invariant Walk(Own(root), Unescaped(raw)) == Walk(current, Unescaped(raw)[i..])
    {
      var segment := UnescapeSegment(raw[i]);
      assert Unescaped(raw)[i..][1..] == Unescaped(raw)[i + 1..];
      if !(current.Own? && (current.v.Arr? || current.v.Obj?)) {
        WalkMissing(Unescaped(raw)[i + 1..]);
        return Missing;
      }
      current := Child(current, segment);
    }
    return current;
  }

  lemma {:induction false} WalkMissing(path: seq<Text>)
    ensures Walk(Missing, path) == Missing
  {
    if path != [] { WalkMissing(path[1..]); }
  }

  /** What `valueAt` reads at the pointer of a path: the value the path leads to,
      except that the one path consisting of an empty key reads the root. */
  lemma {:induction false} ResolvePointer(root: Json, path: seq<Text>)
    ensures Resolve(root, Pointer(path)) == if path == [[]] then Own(root) else Walk(Own(root), path)
  {
    PointerRoundTrip(path);
    if Pointer(path) == [SLASH] {
      assert Pointer([[]]) == [SLASH];
      PointerInjective(path, [[]]);
    }
    if Pointer(path) == [] {
      PointerInjective(path, []);
    }
    if path == [[]] {
      assert Pointer([[]]) == [SLASH];
    }
  }
}
