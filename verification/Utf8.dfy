/** The size of a JSON text is the number of bytes of its UTF-8 encoding. */
module Utf8 {
  import opened Outcomes
  import opened Texts
  import opened Json
  import opened CanonicalText
  import opened Snapshot

  type Octet = n: int | 0 <= n < 256

  /** The code point of a surrogate pair (section 2.2 of RFC 2781). */
  function PairPoint(lead: CodeUnit, trail: CodeUnit): int
    requires IsLead(lead) && IsTrail(trail)
  {
    0x1_0000 + (lead as int - 0xd800) * 0x400 + (trail as int - 0xdc00)
  }

  /** The octets of a code point, section 3 of RFC 3629. */
  function Encode(point: int): seq<Octet>
    requires 0 <= point < 0x11_0000
  {
    if point < 0x80 then [point]
    else if point < 0x800 then [0xc0 + point / 0x40, 0x80 + point % 0x40]
    else if point < 0x1_0000 then [0xe0 + point / 0x1000, 0x80 + point / 0x40 % 0x40, 0x80 + point % 0x40]
    else [0xf0 + point / 0x4_0000, 0x80 + point / 0x1000 % 0x40, 0x80 + point / 0x40 % 0x40, 0x80 + point % 0x40]
  }

  /** `Buffer.from(t, "utf8")`: half a surrogate pair becomes the replacement character. */
  function Utf8Of(t: Text): seq<Octet> {
    if t == [] then []
    else if IsLead(t[0]) && |t| > 1 && IsTrail(t[1]) then Encode(PairPoint(t[0], t[1])) + Utf8Of(t[2..])
    else Encode(if IsLead(t[0]) || IsTrail(t[0]) then 0xfffd else t[0] as int) + Utf8Of(t[1..])
  }

  /** Surrogates come in pairs only. */
  predicate Paired(t: Text) {
    t == []
    || (IsLead(t[0]) && |t| > 1 && IsTrail(t[1]) && Paired(t[2..]))
    || (!IsLead(t[0]) && !IsTrail(t[0]) && Paired(t[1..]))
  }

  lemma {:induction false} PairedBytes(t: Text)
    requires Paired(t)
    ensures |Utf8Of(t)| == ByteLength(t)
  {
    if t != [] {
      if IsLead(t[0]) {
        PairedBytes(t[2..]);
        assert t[1..][1..] == t[2..];
      } else {
        PairedBytes(t[1..]);
      }
    }
  }

  lemma {:induction false} PairedConcat(a: Text, b: Text)
    requires Paired(a) && Paired(b)
    ensures Paired(a + b)
  {
    if a == [] {
      assert a + b == b;
    } else if IsLead(a[0]) {
      PairedConcat(a[2..], b);
      assert (a + b)[2..] == a[2..] + b;
    } else {
      PairedConcat(a[1..], b);
      assert (a + b)[1..] == a[1..] + b;
    }
  }

  lemma {:induction false} PlainPaired(t: Text)
    requires forall i :: 0 <= i < |t| ==> t[i] < 0x80
    ensures Paired(t)
  {
    if t != [] { PlainPaired(t[1..]); }
  }

  lemma {:induction false} HexPlain(n: nat)
    requires n < 0x1_0000
    ensures forall i :: 0 <= i < |HexEscape(n)| ==> HexEscape(n)[i] < 0x80
  {
  }

  lemma {:induction false} UnitPaired(u: CodeUnit)
    ensures Paired(EscapeUnit(u))
  {
    if u < 0x20 || IsLead(u) || IsTrail(u) { HexPlain(u as nat); }
    if EscapeUnit(u) == [u] {
      assert [u][1..] == [];
    } else {
      PlainPaired(EscapeUnit(u));
    }
  }

  /** `JSON.stringify` escapes every lone surrogate. */
  lemma {:induction false} EscapePaired(s: Text)
    ensures Paired(Escape(s))
  {
    if s == [] {
    } else if IsLead(s[0]) && |s| > 1 && IsTrail(s[1]) {
      EscapePaired(s[2..]);
      assert (s[..2] + Escape(s[2..]))[2..] == Escape(s[2..]);
    } else {
      EscapePaired(s[1..]);
      UnitPaired(s[0]);
      PairedConcat(EscapeUnit(s[0]), Escape(s[1..]));
    }
  }

  lemma {:induction false} EnclosedPaired(first: CodeUnit, body: Text, last: CodeUnit)
    requires first < 0x80 && last < 0x80 && Paired(body)
    ensures Paired([first] + body + [last])
  {
    PlainPaired([first]);
    PlainPaired([last]);
    PairedConcat([first], body);
    PairedConcat([first] + body, [last]);
  }

  lemma {:induction false} JoinedPaired(a: Text, middle: CodeUnit, b: Text)
    requires middle < 0x80 && Paired(a) && Paired(b)
    ensures Paired(a + [middle] + b)
  {
    PlainPaired([middle]);
    PairedConcat(a, [middle]);
    PairedConcat(a + [middle], b);
  }

  lemma {:induction false} QuotedPaired(s: Text)
    ensures Paired(Quoted(s))
  {
    EscapePaired(s);
    EnclosedPaired(QUOTE, Escape(s), QUOTE);
  }

  lemma {:induction false} StringifyPaired(v: Json)
    ensures Paired(Stringify(v))
    decreases v, 1, 0
  {
    hide Paired, Quoted;
    match v
    case Str(s) => QuotedPaired(s);
    case Arr(items) =>
      ItemsPaired(items);
      EnclosedPaired(0x5b, StringifyItems(items), 0x5d);
    case Obj(es) =>
      EntriesPaired(es);
      EnclosedPaired(0x7b, StringifyEntries(es), 0x7d);
    case _ => PlainPaired(Stringify(v));
  }

  lemma {:induction false} ItemsPaired(items: seq<Json>)
    ensures Paired(StringifyItems(items))
    decreases items, 0, |items|
  {
    hide Paired, Stringify;
    if items == [] {
      PlainPaired([]);
    } else {
      StringifyPaired(items[0]);
      if |items| > 1 {
        ItemsPaired(items[1..]);
        JoinedPaired(Stringify(items[0]), COMMA, StringifyItems(items[1..]));
      }
    }
  }

  lemma {:induction false} EntryPaired(e: Entry)
    ensures Paired(StringifyEntry(e))
    decreases e, 2, 0
  {
    hide Paired, Stringify, Quoted;
    QuotedPaired(e.key);
    StringifyPaired(e.value);
    JoinedPaired(Quoted(e.key), COLON, Stringify(e.value));
  }

  lemma {:induction false} EntriesPaired(es: seq<Entry>)
    ensures Paired(StringifyEntries(es))
    decreases es, 0, |es|
  {
    hide Paired, StringifyEntry;
    if es == [] {
      PlainPaired([]);
    } else {
      EntryPaired(es[0]);
      if |es| > 1 {
        EntriesPaired(es[1..]);
        JoinedPaired(StringifyEntry(es[0]), COMMA, StringifyEntries(es[1..]));
      }
    }
  }

  /** The size that the snapshot budget charges for a value is the number of bytes of its JSON text in UTF-8. */
  lemma {:induction false} SizeIsUtf8(v: Json)
    ensures Size(v) == |Utf8Of(Stringify(v))|
  {
    StringifyPaired(v);
    PairedBytes(Stringify(v));
  }
}
