/** Canonicalization of parsed JSON: the property order of canonical JSON, and which values share a canonical form.
    A value is taken by its own properties here; `InMemory` adds the prototypes. */
module Canonical {
  import opened Outcomes
  import opened Texts
  import opened Json

  datatype CanonicalError = NotFinite | NegativeZeroNumber | UnsupportedType

  // ---- the order in which a JavaScript object enumerates its own properties ----

  /** An array index: a canonical numeral below 2^32 - 1. */
  predicate IsIndexKey(k: Text) {
    CanonicalNumeral(k) && DigitsValue(k) < 0xFFFF_FFFF
  }

  /** Index keys first, by number; then the other keys by `<`. */
  predicate KeyLess(a: Text, b: Text) {
    if IsIndexKey(a) then IsIndexKey(b) ==> DigitsValue(a) < DigitsValue(b)
    else !IsIndexKey(b) && LexLess(a, b)
  }

  lemma {:induction false} KeyLessStrictTotal(a: Text, b: Text)
    ensures !KeyLess(a, a)
    ensures KeyLess(a, b) || a == b || KeyLess(b, a)
    ensures !(KeyLess(a, b) && KeyLess(b, a))
  {
    LexIrreflexive(a);
    LexTotal(a, b);
    if IsIndexKey(a) && IsIndexKey(b) && DigitsValue(a) == DigitsValue(b) {
      NumeralUnique(a, b);
    }
    if LexLess(a, b) && LexLess(b, a) {
      LexTransitive(a, b, a);
    }
  }

  predicate KeysAscend<V>(es: seq<Property<V>>) {
    forall i, j :: 0 <= i < j < |es| ==> KeyLess(es[i].key, es[j].key)
  }

  /** Puts a new index key among the index keys at the front. */
  function InsertIndexed<V>(out: seq<Property<V>>, e: Property<V>): (r: seq<Property<V>>)
    requires IsIndexKey(e.key)
  {
    if out != [] && IsIndexKey(out[0].key) && DigitsValue(out[0].key) < DigitsValue(e.key)
    then [out[0]] + InsertIndexed(out[1..], e)
    else [e] + out
  }

  /** `out[key] = value` on an object literal. */
  function SetProperty<V>(out: seq<Property<V>>, key: Text, value: V): (r: seq<Property<V>>) {
    if key == PROTO then out
    else if HasKey(out, key) then out[IndexOfKey(out, key) := Entry(key, value)]
    else if IsIndexKey(key) then InsertIndexed(out, Entry(key, value))
    else out + [Entry(key, value)]
  }

  // ---- canonicalizeJsonValue ----

  function Canonicalize(v: Json): (r: Result<Json, CanonicalError>)
    requires WellFormed(v)
    decreases v, 1, 0
  {
    match v
    case Num(NotANumber) => Err(NotFinite)
    case Num(Infinite) => Err(NotFinite)
    case Num(NegativeZero) => Err(NegativeZeroNumber)
    case Arr(items) =>
      var out :- CanonicalItems(items);
      Ok(Arr(out))
    case Obj(es) =>
      SortKeysSorted(Keys(es));
      assert forall k :: k in SortKeys(Keys(es)) ==> HasKey(es, k) by {
        forall k | k in SortKeys(Keys(es)) { KeysHave(es, k); }
      }
      var out :- CanonicalProperties(v, SortKeys(Keys(es)), []);
      Ok(Obj(out))
    case _ => Ok(v)
  }

  /** `value.map(canonicalize)`. */
  function CanonicalItems(items: seq<Json>): (r: Result<seq<Json>, CanonicalError>)
    requires forall i :: 0 <= i < |items| ==> WellFormed(items[i])
    decreases items, 0, 0
  {
    if items == [] then Ok([]) else
      var first :- Canonicalize(items[0]);
      var rest :- CanonicalItems(items[1..]);
      Ok([first] + rest)
  }

  /** What the loop over the sorted keys still has to put into `out`. */
  function CanonicalProperties(ctx: Json, keys: seq<Text>, out: seq<Entry>): (r: Result<seq<Entry>, CanonicalError>)
    requires ctx.Obj? && WellFormed(ctx)
    requires forall k :: k in keys ==> HasKey(ctx.entries, k)
    decreases ctx, 0, |keys|
  {
    if keys == [] then Ok(out) else
      assert keys[0] in keys;
      var value :- Canonicalize(Get(ctx.entries, keys[0]));
      CanonicalProperties(ctx, keys[1..], SetProperty(out, keys[0], value))
  }

  // ---- the emitted order ----

  lemma {:induction false} InsertIndexedAscends(out: seq<Entry>, e: Entry)
    requires IsIndexKey(e.key) && KeysAscend(out) && !HasKey(out, e.key)
    ensures KeysAscend(InsertIndexed(out, e))
    ensures forall x :: x in InsertIndexed(out, e) <==> x == e || x in out
  {
    var r := InsertIndexed(out, e);
    if out != [] && IsIndexKey(out[0].key) && DigitsValue(out[0].key) < DigitsValue(e.key) {
      assert out == [out[0]] + out[1..];
      var rest := InsertIndexed(out[1..], e);
      InsertIndexedAscends(out[1..], e);
      forall i | 0 <= i < |rest|
        ensures KeyLess(out[0].key, rest[i].key)
      {
        assert rest[i] in rest;
      }
    } else if out != [] {
      forall i | 0 <= i < |out|
        ensures KeyLess(e.key, out[i].key)
      {
        assert out[0].key != e.key && out[i].key != e.key;
        KeyLessStrictTotal(e.key, out[0].key);
        KeyLessStrictTotal(out[0].key, out[i].key);
      }
    }
  }

  /** Setting a new property whose name follows every other name of its kind keeps the order. */
  lemma {:induction false} SetPropertyAscends(out: seq<Entry>, key: Text, value: Json)
    requires KeysAscend(out) && !HasKey(out, key) && key != PROTO
    requires forall e :: e in out && !IsIndexKey(e.key) && !IsIndexKey(key) ==> LexLess(e.key, key)
    ensures KeysAscend(SetProperty(out, key, value))
    ensures forall x :: x in SetProperty(out, key, value) <==> x == Entry(key, value) || x in out
  {
    if IsIndexKey(key) {
      InsertIndexedAscends(out, Entry(key, value));
    }
  }

  /** The loop leaves exactly the canonicalized properties, except `__proto__`, in enumeration order. */
  lemma {:induction false} CanonicalPropertiesResult(ctx: Json, keys: seq<Text>, out: seq<Entry>)
    requires ctx.Obj? && WellFormed(ctx)
    requires forall k :: k in keys ==> HasKey(ctx.entries, k)
    requires LexSorted(keys) && KeysAscend(out)
    requires forall e, k :: e in out && k in keys ==>
               e.key != k && (IsIndexKey(e.key) || LexLess(e.key, k))
    requires CanonicalProperties(ctx, keys, out).Ok?
    ensures var r := CanonicalProperties(ctx, keys, out).value;
            KeysAscend(r) && forall e :: e in r <==>
              e in out || (e.key in keys && e.key != PROTO && Canonicalize(Get(ctx.entries, e.key)) == Ok(e.value))
  {
    if keys != [] {
      var key := keys[0];
      assert keys == [key] + keys[1..];
      assert key in keys;
      var value := Canonicalize(Get(ctx.entries, key)).value;
      var next := SetProperty(out, key, value);
      if key != PROTO {
        assert forall i :: 0 <= i < |out| ==> out[i] in out;
        SetPropertyAscends(out, key, value);
      }
      LexSortedDistinct(keys);
      forall k | k in keys[1..]
        ensures LexLess(key, k) && key != k
      {
        var i :| 0 <= i < |keys[1..]| && keys[1..][i] == k;
        assert keys[i + 1] == k;
      }
      forall e, k | e in next && k in keys[1..]
        ensures e.key != k && (IsIndexKey(e.key) || LexLess(e.key, k))
      {
        assert k in keys;
        if e !in out { assert e == Entry(key, value); }
      }
      CanonicalPropertiesResult(ctx, keys[1..], next);
    }
  }

  lemma {:induction false} CanonicalItemsResult(items: seq<Json>)
    requires forall i :: 0 <= i < |items| ==> WellFormed(items[i])
    ensures var r := CanonicalItems(items);
            && (r.Ok? <==> forall i :: 0 <= i < |items| ==> Canonicalize(items[i]).Ok?)
            && (r.Ok? ==> |r.value| == |items| && forall i :: 0 <= i < |items| ==> Canonicalize(items[i]) == Ok(r.value[i]))
  {
    if items != [] {
      CanonicalItemsResult(items[1..]);
      assert forall i :: 1 <= i < |items| ==> items[i] == items[1..][i - 1];
    }
  }

  /** A canonical object: names ascend, `__proto__` is gone, and every other property is canonicalized. */
  lemma {:induction false} CanonicalObject(es: seq<Entry>)
    requires WellFormed(Obj(es)) && Canonicalize(Obj(es)).Ok?
    ensures var r := Canonicalize(Obj(es)).value;
            r.Obj? && KeysAscend(r.entries) && forall e :: e in r.entries <==>
              HasKey(es, e.key) && e.key != PROTO && Canonicalize(Get(es, e.key)) == Ok(e.value)
  {
    SortKeysSorted(Keys(es));
    forall k { KeysHave(es, k); }
    CanonicalPropertiesResult(Obj(es), SortKeys(Keys(es)), []);
  }

  // ---- which values have a canonical form ----

  lemma {:induction false} CanonicalPropertiesOk(ctx: Json, keys: seq<Text>, out: seq<Entry>)
    requires ctx.Obj? && WellFormed(ctx)
    requires forall k :: k in keys ==> HasKey(ctx.entries, k)
    ensures CanonicalProperties(ctx, keys, out).Ok? <==>
            forall k :: k in keys ==> Canonicalize(Get(ctx.entries, k)).Ok?
  {
    if keys != [] {
      assert keys == [keys[0]] + keys[1..];
      assert keys[0] in keys;
      if Canonicalize(Get(ctx.entries, keys[0])).Ok? {
        CanonicalPropertiesOk(ctx, keys[1..], SetProperty(out, keys[0], Canonicalize(Get(ctx.entries, keys[0])).value));
      }
    }
  }

  /** Canonicalization fails exactly on NaN, infinities and negative zero, at any depth and under any key. */
  lemma {:induction false} CanonicalizeOkIff(v: Json)
    requires WellFormed(v)
    ensures Canonicalize(v).Ok? <==> AllFinite(v)
  {
    match v
    case Arr(items) =>
      CanonicalItemsResult(items);
      forall i | 0 <= i < |items| { CanonicalizeOkIff(items[i]); }
    case Obj(es) =>
      SortKeysSorted(Keys(es));
      forall k { KeysHave(es, k); }
      CanonicalPropertiesOk(v, SortKeys(Keys(es)), []);
      forall i | 0 <= i < |es|
        ensures HasKey(es, es[i].key) && (Canonicalize(Get(es, es[i].key)).Ok? <==> AllFinite(es[i].value))
      {
        GetDistinct(es, i);
        CanonicalizeOkIff(es[i].value);
      }
    case _ =>
  }

  /** The number occurs in the value, at any depth. */
  ghost predicate Holds(v: Json, n: Number) {
    match v
    case Num(m) => m == n
    case Arr(items) => exists i :: 0 <= i < |items| && Holds(items[i], n)
    case Obj(es) => exists i :: 0 <= i < |es| && Holds(es[i].value, n)
    case _ => false
  }

  ghost predicate ErrorHeld(v: Json, error: CanonicalError) {
    match error
    case NotFinite => Holds(v, NotANumber) || Holds(v, Infinite)
    case NegativeZeroNumber => Holds(v, NegativeZero)
    case UnsupportedType => false
  }

  /** A refusal names a defect of a number that occurs in the value. */
  lemma {:induction false} ErrorExplained(v: Json)
    requires WellFormed(v) && Canonicalize(v).Err?
    ensures ErrorHeld(v, Canonicalize(v).error)
    decreases v, 1, 0
  {
    match v
    case Arr(items) => ItemsErrorExplained(items);
    case Obj(es) =>
      SortKeysSorted(Keys(es));
      forall k | k in SortKeys(Keys(es)) ensures HasKey(es, k) { KeysHave(es, k); }
      PropertiesErrorExplained(v, SortKeys(Keys(es)), []);
    case _ =>
  }

  lemma {:induction false} ItemsErrorExplained(items: seq<Json>)
    requires (forall i :: 0 <= i < |items| ==> WellFormed(items[i])) && CanonicalItems(items).Err?
    ensures ErrorHeld(Arr(items), CanonicalItems(items).error)
    decreases items, 0, 0
  {
    if Canonicalize(items[0]).Err? {
      ErrorExplained(items[0]);
      HeldInside(items, 0, Canonicalize(items[0]).error);
    } else {
      ItemsErrorExplained(items[1..]);
      HeldInRest(items, CanonicalItems(items).error);
    }
  }

  lemma HeldInside(items: seq<Json>, i: nat, error: CanonicalError)
    requires i < |items| && ErrorHeld(items[i], error)
    ensures ErrorHeld(Arr(items), error)
  {
  }

  lemma {:induction false} HeldInRest(items: seq<Json>, error: CanonicalError)
    requires items != [] && ErrorHeld(Arr(items[1..]), error)
    ensures ErrorHeld(Arr(items), error)
  {
    forall n | Holds(Arr(items[1..]), n) ensures Holds(Arr(items), n) {
      var i :| 0 <= i < |items[1..]| && Holds(items[1..][i], n);
      assert Holds(items[i + 1], n);
    }
  }

  lemma {:induction false} PropertiesErrorExplained(ctx: Json, keys: seq<Text>, out: seq<Entry>)
    requires ctx.Obj? && WellFormed(ctx) && forall k :: k in keys ==> HasKey(ctx.entries, k)
    requires CanonicalProperties(ctx, keys, out).Err?
    ensures ErrorHeld(ctx, CanonicalProperties(ctx, keys, out).error)
    decreases ctx, 0, |keys|
  {
    assert keys[0] in keys;
    var value := Get(ctx.entries, keys[0]);
    var i := IndexOfKey(ctx.entries, keys[0]);
    assert value == ctx.entries[i].value;
    if Canonicalize(value).Err? {
      ErrorExplained(value);
      HeldInEntry(ctx.entries, i, Canonicalize(value).error);
    } else {
      PropertiesErrorExplained(ctx, keys[1..], SetProperty(out, keys[0], Canonicalize(value).value));
    }
  }

  lemma HeldInEntry(es: seq<Entry>, i: nat, error: CanonicalError)
    requires i < |es| && ErrorHeld(es[i].value, error)
    ensures ErrorHeld(Obj(es), error)
  {
  }

  // ---- order independence and injectivity of the canonical form ----

  /** Property lists in ascending order are determined by their entries. */
  lemma {:induction false} AscendingUnique(a: seq<Entry>, b: seq<Entry>)
    requires KeysAscend(a) && KeysAscend(b) && forall e :: e in a <==> e in b
    ensures a == b
  {
    if a == [] {
      assert forall i :: 0 <= i < |b| ==> b[i] in b;
    } else {
      assert a[0] in b && (b == [] || b[0] in a);
      if a[0] != b[0] {
        var i :| 0 <= i < |a| && a[i] == b[0];
        var j :| 0 <= j < |b| && b[j] == a[0];
        KeyLessStrictTotal(a[0].key, b[0].key);
        assert false;
      }
      assert a == [a[0]] + a[1..] && b == [b[0]] + b[1..];
      KeyLessStrictTotal(a[0].key, a[0].key);
      assert a[0] !in a[1..] && b[0] !in b[1..];
      assert forall e :: e in a[1..] <==> e in a && e != a[0];
      assert forall e :: e in b[1..] <==> e in b && e != b[0];
      AscendingUnique(a[1..], b[1..]);
    }
  }

  lemma {:induction false} SameObjectsSameEntries(es: seq<Entry>, fs: seq<Entry>, r: seq<Entry>, q: seq<Entry>)
    requires WellFormed(Obj(es)) && WellFormed(Obj(fs)) && Same(Obj(es), Obj(fs))
    requires forall e :: e in r <==> HasKey(es, e.key) && e.key != PROTO && Canonicalize(Get(es, e.key)) == Ok(e.value)
    requires forall e :: e in q <==> HasKey(fs, e.key) && e.key != PROTO && Canonicalize(Get(fs, e.key)) == Ok(e.value)
    requires forall i :: 0 <= i < |es| && HasKey(fs, es[i].key) ==>
               (Same(es[i].value, Get(fs, es[i].key)) ==> Canonicalize(es[i].value) == Canonicalize(Get(fs, es[i].key)))
    ensures forall e :: e in r <==> e in q
  {
    forall e
      ensures e in r <==> e in q
    {
      if HasKey(es, e.key) && e.key != PROTO {
        var i := IndexOfKey(es, e.key);
        GetDistinct(es, i);
      }
      if HasKey(fs, e.key) && e.key != PROTO {
        var j := IndexOfKey(fs, e.key);
        assert HasKey(es, fs[j].key);
      }
    }
  }

  lemma {:induction false} SameEntriesSameObjects(es: seq<Entry>, fs: seq<Entry>, r: seq<Entry>)
    requires WellFormed(Obj(es)) && WellFormed(Obj(fs))
    requires forall i :: 0 <= i < |es| ==> Canonicalize(es[i].value).Ok?
    requires forall i :: 0 <= i < |fs| ==> Canonicalize(fs[i].value).Ok?
    requires forall e :: e in r <==> HasKey(es, e.key) && e.key != PROTO && Canonicalize(Get(es, e.key)) == Ok(e.value)
    requires forall e :: e in r <==> HasKey(fs, e.key) && e.key != PROTO && Canonicalize(Get(fs, e.key)) == Ok(e.value)
    requires forall i :: 0 <= i < |es| && HasKey(fs, es[i].key) ==>
               (Canonicalize(es[i].value) == Canonicalize(Get(fs, es[i].key)) ==> Same(es[i].value, Get(fs, es[i].key)))
    ensures Same(Obj(es), Obj(fs))
  {
    forall i | 0 <= i < |es| && es[i].key != PROTO
      ensures HasKey(fs, es[i].key) && Same(es[i].value, Get(fs, es[i].key))
    {
      GetDistinct(es, i);
      assert Entry(es[i].key, Canonicalize(es[i].value).value) in r;
    }
    forall i | 0 <= i < |fs| && fs[i].key != PROTO
      ensures HasKey(es, fs[i].key)
    {
      GetDistinct(fs, i);
      assert Entry(fs[i].key, Canonicalize(fs[i].value).value) in r;
    }
  }

  lemma {:induction false} SameItems(xs: seq<Json>, ys: seq<Json>)
    requires WellFormed(Arr(xs)) && WellFormed(Arr(ys)) && |xs| == |ys|
    requires CanonicalItems(xs).Ok? && CanonicalItems(ys).Ok?
    requires forall i :: 0 <= i < |xs| ==> (Canonicalize(xs[i]) == Canonicalize(ys[i]) <==> Same(xs[i], ys[i]))
    ensures CanonicalItems(xs) == CanonicalItems(ys) <==> Same(Arr(xs), Arr(ys))
  {
    CanonicalItemsResult(xs);
    CanonicalItemsResult(ys);
    var r, q := CanonicalItems(xs).value, CanonicalItems(ys).value;
    assert forall i :: 0 <= i < |xs| ==> (r[i] == q[i] <==> Canonicalize(xs[i]) == Canonicalize(ys[i]));
    assert r == q <==> forall i :: 0 <= i < |xs| ==> r[i] == q[i];
  }

  lemma {:induction false} SameObjects(es: seq<Entry>, fs: seq<Entry>)
    requires WellFormed(Obj(es)) && WellFormed(Obj(fs)) && AllFinite(Obj(es)) && AllFinite(Obj(fs))
    requires Canonicalize(Obj(es)).Ok? && Canonicalize(Obj(fs)).Ok?
    requires forall i :: 0 <= i < |es| && HasKey(fs, es[i].key) ==>
               (Canonicalize(es[i].value) == Canonicalize(Get(fs, es[i].key)) <==> Same(es[i].value, Get(fs, es[i].key)))
    ensures Canonicalize(Obj(es)) == Canonicalize(Obj(fs)) <==> Same(Obj(es), Obj(fs))
  {
    CanonicalObject(es);
    CanonicalObject(fs);
    var r, q := Canonicalize(Obj(es)).value.entries, Canonicalize(Obj(fs)).value.entries;
    if Same(Obj(es), Obj(fs)) {
      SameObjectsSameEntries(es, fs, r, q);
      AscendingUnique(r, q);
    }
    if r == q {
      forall i | 0 <= i < |es| { CanonicalizeOkIff(es[i].value); }
      forall i | 0 <= i < |fs| { CanonicalizeOkIff(fs[i].value); }
      SameEntriesSameObjects(es, fs, r);
    }
  }

  /** Two values have the same canonical form exactly when they are the same value
      up to property order and `__proto__` properties. */
  lemma {:induction false} CanonicalEqualIffSame(a: Json, b: Json)
    requires WellFormed(a) && WellFormed(b) && AllFinite(a) && AllFinite(b)
    ensures Canonicalize(a).Ok? && Canonicalize(b).Ok?
    ensures Canonicalize(a) == Canonicalize(b) <==> Same(a, b)
  {
    CanonicalizeOkIff(a);
    CanonicalizeOkIff(b);
    if a.Arr? && b.Arr? {
      if |a.items| == |b.items| {
        forall i | 0 <= i < |a.items| { CanonicalEqualIffSame(a.items[i], b.items[i]); }
        SameItems(a.items, b.items);
      } else {
        CanonicalItemsResult(a.items);
        CanonicalItemsResult(b.items);
      }
    } else if a.Obj? && b.Obj? {
      forall i | 0 <= i < |a.entries| && HasKey(b.entries, a.entries[i].key)
        ensures Canonicalize(a.entries[i].value) == Canonicalize(Get(b.entries, a.entries[i].key))
                <==> Same(a.entries[i].value, Get(b.entries, a.entries[i].key))
      {
        var j := IndexOfKey(b.entries, a.entries[i].key);
        CanonicalEqualIffSame(a.entries[i].value, b.entries[j].value);
      }
      SameObjects(a.entries, b.entries);
    }
  }

  // ---- the canonical form is a fixed point ----

  /** No object in the value has a property named `__proto__`. */
  ghost predicate NoProto(v: Json) {
    match v
    case Arr(items) => forall i :: 0 <= i < |items| ==> NoProto(items[i])
    case Obj(es) => forall i :: 0 <= i < |es| ==> es[i].key != PROTO && NoProto(es[i].value)
    case _ => true
  }

  lemma {:induction false} AscendingDistinct(es: seq<Entry>)
    requires KeysAscend(es)
    ensures Distinct(Keys(es))
  {
    forall i, j | 0 <= i < j < |es|
      ensures Keys(es)[i] != Keys(es)[j]
    {
      KeyLessStrictTotal(es[i].key, es[j].key);
      KeyLessStrictTotal(es[i].key, es[i].key);
    }
  }

  /** The canonical form is well formed, carries only finite numbers, has no `__proto__`
      property left, and is the same value as the original. */
  lemma {:induction false} CanonicalFormOf(v: Json)
    requires WellFormed(v) && Canonicalize(v).Ok?
    ensures var c := Canonicalize(v).value;
            WellFormed(c) && AllFinite(c) && NoProto(c) && Same(v, c)
  {
    CanonicalizeOkIff(v);
    match v
    case Arr(items) =>
      CanonicalItemsResult(items);
      forall i | 0 <= i < |items| { CanonicalFormOf(items[i]); }
    case Obj(es) =>
      CanonicalObject(es);
      var r := Canonicalize(v).value.entries;
      AscendingDistinct(r);
      forall i | 0 <= i < |r|
        ensures r[i].key != PROTO && HasKey(es, r[i].key)
        ensures WellFormed(r[i].value) && AllFinite(r[i].value) && NoProto(r[i].value)
        ensures Same(Get(es, r[i].key), r[i].value)
      {
        assert r[i] in r;
        var j := IndexOfKey(es, r[i].key);
        CanonicalFormOf(es[j].value);
      }
      forall i | 0 <= i < |es| && es[i].key != PROTO
        ensures HasKey(r, es[i].key) && Same(es[i].value, Get(r, es[i].key))
      {
        GetDistinct(es, i);
        CanonicalizeOkIff(es[i].value);
        assert Entry(es[i].key, Canonicalize(es[i].value).value) in r;
        var j := IndexOfKey(r, es[i].key);
      }
    case _ =>
  }

  /** Canonicalizing the value that a canonical text parses to changes nothing. */
  lemma {:induction false} CanonicalizeIdempotent(v: Json)
    requires WellFormed(v) && Canonicalize(v).Ok?
    ensures WellFormed(Canonicalize(v).value)
    ensures Canonicalize(Canonicalize(v).value) == Canonicalize(v)
  {
    CanonicalFormOf(v);
    CanonicalizeOkIff(v);
    CanonicalEqualIffSame(v, Canonicalize(v).value);
  }

  /** A property named `__proto__` becomes no own property of the canonical form, and so no part of its text. */
  lemma {:induction false} ProtoPropertyVanishes(value: Json)
    requires WellFormed(value) && AllFinite(value)
    ensures WellFormed(Obj([Entry(PROTO, value)])) && WellFormed(Obj([]))
    ensures Canonicalize(Obj([Entry(PROTO, value)])) == Canonicalize(Obj([])) == Ok(Obj([]))
  {
    CanonicalEqualIffSame(Obj([Entry(PROTO, value)]), Obj([]));
  }
}
