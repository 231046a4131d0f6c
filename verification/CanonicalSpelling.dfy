/** How canonical JSON is spelled, unit by unit, in terms of literal texts only. */
module CanonicalSpelling {
  import opened Texts
  import opened Json
  import opened Canonical
  import opened CanonicalText
  import opened Pointers

  // ---- strings ----

  const HEX_DIGITS: Text := Ascii("0123456789abcdef")

  /** The unit is half of a surrogate pair without its other half. */
  predicate Lone(s: Text, i: nat)
    requires i < |s|
  {
    || (0xd800 <= s[i] <= 0xdbff && (i + 1 == |s| || !(0xdc00 <= s[i + 1] <= 0xdfff)))
    || (0xdc00 <= s[i] <= 0xdfff && (i == 0 || !(0xd800 <= s[i - 1] <= 0xdbff)))
  }

  /** What a unit of a string comes out as: one of seven short escapes, an escape with four lower-case hexadecimal digits
      for other control units and lone surrogates, or itself. */
  function Piece(s: Text, i: nat): Text
    requires i < |s|
  {
    var u := s[i];
    if u == 0x22 then [0x5c, 0x22]
    else if u == 0x5c then [0x5c, 0x5c]
    else if u == 0x08 then Ascii("\\b")
    else if u == 0x09 then Ascii("\\t")
    else if u == 0x0a then Ascii("\\n")
    else if u == 0x0c then Ascii("\\f")
    else if u == 0x0d then Ascii("\\r")
    else if u < 0x20 || Lone(s, i) then
      var n := u as nat;
      HexSpelled(n);
      Ascii("\\u") + [HEX_DIGITS[n / 4096], HEX_DIGITS[n / 256 % 16], HEX_DIGITS[n / 16 % 16], HEX_DIGITS[n % 16]]
    else [u]
  }

  lemma HexSpelled(n: nat)
    requires n < 0x1_0000
    ensures |HEX_DIGITS| == 16 && n / 4096 < 16
  {
  }

  /** The pieces of the units from `i` on, one after the other. */
  function Pieces(s: Text, i: nat): Text
    requires i <= |s|
    decreases |s| - i
  {
    if i == |s| then [] else Piece(s, i) + Pieces(s, i + 1)
  }

  lemma DigitSpelled(n: nat)
    requires n < 16
    ensures |HEX_DIGITS| == 16 && HexDigit(n) == HEX_DIGITS[n]
  {
  }

  lemma {:induction false} UnitSpelled(s: Text, i: nat)
    requires i < |s| && !(IsLead(s[i]) && !Lone(s, i)) && !(IsTrail(s[i]) && !Lone(s, i))
    ensures EscapeUnit(s[i]) == Piece(s, i)
  {
    var n := s[i] as nat;
    HexSpelled(n);
    DigitSpelled(n / 4096);
    DigitSpelled(n / 256 % 16);
    DigitSpelled(n / 16 % 16);
    DigitSpelled(n % 16);
    assert Ascii("\\u") == [0x5c, 0x75] && Ascii("\\b") == [0x5c, 0x62] && Ascii("\\t") == [0x5c, 0x74];
    assert Ascii("\\n") == [0x5c, 0x6e] && Ascii("\\f") == [0x5c, 0x66] && Ascii("\\r") == [0x5c, 0x72];
  }

  predicate PairAt(s: Text, i: nat) { i + 1 < |s| && IsLead(s[i]) && IsTrail(s[i + 1]) }

  lemma {:induction false} EscapeFrom(s: Text, i: nat)
    requires i < |s|
    ensures Escape(s[i..]) == if PairAt(s, i) then [s[i], s[i + 1]] + Escape(s[i + 2..]) else EscapeUnit(s[i]) + Escape(s[i + 1..])
  {
    var t := s[i..];
    assert t[1..] == s[i + 1..];
    if PairAt(s, i) {
      assert t[2..] == s[i + 2..] && t[..2] == [s[i], s[i + 1]];
    }
  }

  lemma {:induction false} PiecesFrom(s: Text, i: nat)
    requires i < |s|
    ensures Pieces(s, i) == Piece(s, i) + Pieces(s, i + 1)
    ensures PairAt(s, i) ==> Pieces(s, i) == [s[i], s[i + 1]] + Pieces(s, i + 2)
  {
    hide Piece;
    if PairAt(s, i) {
      PairSpelled(s, i);
      assert [s[i], s[i + 1]] + Pieces(s, i + 2) == [s[i]] + ([s[i + 1]] + Pieces(s, i + 2));
    }
  }

  lemma {:induction false} EscapeSpelled(s: Text, i: nat)
    requires i <= |s| && (i > 0 ==> !PairAt(s, i - 1))
    ensures Escape(s[i..]) == Pieces(s, i)
    decreases |s| - i
  {
    hide Piece, EscapeUnit, Escape, Pieces;
    if i < |s| {
      EscapeFrom(s, i);
      PiecesFrom(s, i);
      if PairAt(s, i) {
        EscapeSpelled(s, i + 2);
      } else {
        EscapeSpelled(s, i + 1);
        UnitSpelled(s, i);
      }
    } else {
      NothingSpelled(s);
    }
  }

  lemma NothingSpelled(s: Text)
    ensures Escape(s[|s|..]) == [] == Pieces(s, |s|)
  {
  }

  lemma PairSpelled(s: Text, i: nat)
    requires i + 1 < |s| && IsLead(s[i]) && IsTrail(s[i + 1])
    ensures Piece(s, i) == [s[i]] && Piece(s, i + 1) == [s[i + 1]]
  {
  }

  /** A string comes out as its pieces between quotation marks. */
  lemma {:induction false} StringSpelled(s: Text)
    ensures Stringify(Str(s)) == Ascii("\"") + Pieces(s, 0) + Ascii("\"")
  {
    EscapeSpelled(s, 0);
    assert s[0..] == s;
    assert Ascii("\"") == [0x22];
  }

  // ---- values ----

  function Separated(texts: seq<Text>): Text { if texts == [] then [] else JoinWith(texts, 0x2c) }

  function ItemTexts(items: seq<Json>): seq<Text> {
    seq(|items|, i requires 0 <= i < |items| => Stringify(items[i]))
  }

  /** Each property as its name, a colon, and its value. */
  function EntryTexts(es: seq<Entry>): seq<Text> {
    seq(|es|, i requires 0 <= i < |es| => Stringify(Str(es[i].key)) + Ascii(":") + Stringify(es[i].value))
  }

  lemma {:induction false} ItemsSpelled(items: seq<Json>)
    ensures StringifyItems(items) == Separated(ItemTexts(items))
  {
    hide Stringify;
    if |items| > 1 {
      ItemsSpelled(items[1..]);
      assert ItemTexts(items)[1..] == ItemTexts(items[1..]);
    }
  }

  lemma {:induction false} EntriesSpelled(es: seq<Entry>)
    ensures StringifyEntries(es) == Separated(EntryTexts(es))
  {
    assert Ascii(":") == [0x3a];
    if es != [] { assert StringifyEntry(es[0]) == Stringify(Str(es[0].key)) + Ascii(":") + Stringify(es[0].value); }
    hide Stringify, Ascii, StringifyEntry;
    if |es| > 1 {
      EntriesSpelled(es[1..]);
      assert EntryTexts(es)[1..] == EntryTexts(es[1..]);
    }
  }

  /** The words, the numbers, and the punctuation of arrays and objects. */
  lemma {:induction false} ValueSpelled(v: Json)
    ensures v.Null? ==> Stringify(v) == Ascii("null")
    ensures v.Bool? ==> Stringify(v) == Ascii(if v.b then "true" else "false")
    ensures v.Num? && v.n.Finite? ==> Stringify(v) == v.n.token
    ensures v.Num? && !v.n.Finite? ==> Stringify(v) == Ascii(if v.n.NegativeZero? then "0" else "null")
    ensures v.Arr? ==> Stringify(v) == Ascii("[") + Separated(ItemTexts(v.items)) + Ascii("]")
    ensures v.Obj? ==> Stringify(v) == Ascii("{") + Separated(EntryTexts(v.entries)) + Ascii("}")
  {
    assert Ascii("null") == [0x6e, 0x75, 0x6c, 0x6c] && Ascii("true") == [0x74, 0x72, 0x75, 0x65];
    assert Ascii("false") == [0x66, 0x61, 0x6c, 0x73, 0x65];
    assert Ascii("0") == [0x30] && Ascii("[") == [0x5b] && Ascii("]") == [0x5d] && Ascii("{") == [0x7b];
    match v
    case Arr(items) => ItemsSpelled(items);
    case Obj(es) => EntriesSpelled(es);
    case _ =>
  }
}
