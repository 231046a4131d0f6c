/** The values `canonicalizeJsonValue` reads and builds, with their prototypes: assigning to `__proto__` on an object
    literal sets its prototype, and an object whose prototype is neither `Object.prototype` nor null is refused. */
module InMemory {
  import opened Outcomes
  import opened Texts
  import opened Json
  import opened Canonical

  datatype Prototype = Default | NoPrototype | Replaced(with: Value)

  datatype Value =
    | NullValue
    | BoolValue(b: bool)
    | NumValue(n: Number)
    | StrValue(s: Text)
    | ArrValue(items: seq<Value>)
    | ObjValue(own: seq<Property<Value>>, prototype: Prototype)
  {
    /** `typeof value === "object"` and not null: what can be a prototype. */
    predicate Structured() { ArrValue? || ObjValue? }
  }

  /** The value by its own properties, as `Object.keys` and `Object.entries` show it. */
  function OwnJson(v: Value): Json
    decreases v, 1
  {
    match v
    case NullValue => Null
    case BoolValue(b) => Bool(b)
    case NumValue(n) => Num(n)
    case StrValue(s) => Str(s)
    case ArrValue(items) => Arr(OwnItems(items))
    case ObjValue(own, _) => Obj(OwnEntries(own))
  }

  function OwnItems(items: seq<Value>): (js: seq<Json>)
    ensures |js| == |items| && forall i :: 0 <= i < |items| ==> js[i] == OwnJson(items[i])
    decreases items, 0
  {
    seq(|items|, i requires 0 <= i < |items| => OwnJson(items[i]))
  }

  function OwnEntries(own: seq<Property<Value>>): (es: seq<Entry>)
    ensures |es| == |own|
    ensures forall i :: 0 <= i < |own| ==> es[i] == Entry(own[i].key, OwnJson(own[i].value))
    decreases own, 0
  {
    seq(|own|, i requires 0 <= i < |own| => Entry(own[i].key, OwnJson(own[i].value)))
  }

  /** What `JSON.parse` returns: even `__proto__` is an own property. */
  function Parsed(j: Json): Value {
    match j
    case Null => NullValue
    case Bool(b) => BoolValue(b)
    case Num(n) => NumValue(n)
    case Str(s) => StrValue(s)
    case Arr(items) => ArrValue(seq(|items|, i requires 0 <= i < |items| => Parsed(items[i])))
    case Obj(es) => ObjValue(seq(|es|, i requires 0 <= i < |es| => Entry(es[i].key, Parsed(es[i].value))), Default)
  }

  /** `isPlainObject`. */
  predicate IsPlainObject(v: Value) { v.ObjValue? && !v.prototype.Replaced? }

  /** Own properties of one object have different names, at every depth. */
  ghost predicate Proper(v: Value) {
    match v
    case ArrValue(items) => forall i :: 0 <= i < |items| ==> Proper(items[i])
    case ObjValue(own, _) => Distinct(Keys(own)) && forall i :: 0 <= i < |own| ==> Proper(own[i].value)
    case _ => true
  }

  // ---- canonicalizeJsonValue ----

  /** `out[key] = value` on an object literal. */
  function Assign(out: Value, key: Text, value: Value): (r: Value)
    requires out.ObjValue?
    ensures r.ObjValue?
  {
    if key != PROTO then out.(own := SetProperty(out.own, key, value))
    else if value.NullValue? then out.(prototype := NoPrototype)
    else if value.Structured() then out.(prototype := Replaced(value))
    else out
  }

  function CanonicalizeValue(v: Value): (r: Result<Value, CanonicalError>)
    requires Proper(v)
    decreases v, 1, 0
  {
    match v
    case NumValue(NotANumber) => Err(NotFinite)
    case NumValue(Infinite) => Err(NotFinite)
    case NumValue(NegativeZero) => Err(NegativeZeroNumber)
    case ArrValue(items) =>
      var out :- CanonicalizeItems(items);
      Ok(ArrValue(out))
    case ObjValue(own, _) =>
      if !IsPlainObject(v) then Err(UnsupportedType) else
        SortedKeysOwn(v);
        CanonicalizeProperties(v, SortKeys(Keys(own)), ObjValue([], Default))
    case _ => Ok(v)
  }

  function CanonicalizeItems(items: seq<Value>): (r: Result<seq<Value>, CanonicalError>)
    requires forall i :: 0 <= i < |items| ==> Proper(items[i])
    decreases items, 0, 0
  {
    if items == [] then Ok([]) else
      var first :- CanonicalizeValue(items[0]);
      var rest :- CanonicalizeItems(items[1..]);
      Ok([first] + rest)
  }

  /** What the loop over the sorted keys still has to assign to `out`. */
  function CanonicalizeProperties(v: Value, keys: seq<Text>, out: Value): (r: Result<Value, CanonicalError>)
    requires v.ObjValue? && Proper(v) && out.ObjValue?
    requires forall k :: k in keys ==> HasKey(v.own, k)
    ensures r.Ok? ==> r.value.ObjValue?
    decreases v, 0, |keys|
  {
    if keys == [] then Ok(out) else
      assert keys[0] in keys;
      var value :- CanonicalizeValue(Get(v.own, keys[0]));
      CanonicalizeProperties(v, keys[1..], Assign(out, keys[0], value))
  }

  lemma {:induction false} SortedKeysOwn(v: Value)
    requires v.ObjValue? && Proper(v)
    ensures forall k :: k in SortKeys(Keys(v.own)) <==> HasKey(v.own, k)
  {
    SortKeysSorted(Keys(v.own));
    forall k { KeysHave(v.own, k); }
  }

  lemma {:induction false} OwnKeys(own: seq<Property<Value>>)
    ensures Keys(OwnEntries(own)) == Keys(own)
    ensures forall k :: HasKey(OwnEntries(own), k) <==> HasKey(own, k)
  {
    assert Keys(OwnEntries(own)) == Keys(own);
    forall k ensures HasKey(OwnEntries(own), k) <==> HasKey(own, k) {
      KeysHave(own, k);
      KeysHave(OwnEntries(own), k);
    }
  }

  lemma {:induction false} ProperIff(v: Value)
    ensures Proper(v) <==> WellFormed(OwnJson(v))
  {
    match v
    case ArrValue(items) => forall i | 0 <= i < |items| ensures Proper(items[i]) <==> WellFormed(OwnItems(items)[i]) { ProperIff(items[i]); }
    case ObjValue(own, _) =>
      OwnKeys(own);
      forall i | 0 <= i < |own| { ProperIff(own[i].value); }
    case _ =>
  }

  lemma {:induction false} OwnGet(own: seq<Property<Value>>, k: Text)
    requires HasKey(own, k)
    ensures HasKey(OwnEntries(own), k)
    ensures IndexOfKey(OwnEntries(own), k) == IndexOfKey(own, k)
    ensures Get(OwnEntries(own), k) == OwnJson(Get(own, k))
  {
    OwnKeys(own);
    if own[0].key != k {
      assert HasKey(own[1..], k) by {
        var j :| 0 <= j < |own| && own[j].key == k;
        assert own[1..][j - 1] == own[j];
      }
      OwnGet(own[1..], k);
      assert OwnEntries(own)[1..] == OwnEntries(own[1..]);
    }
    hide OwnJson, HasKey, Keys;
  }

  lemma {:induction false} OwnInsert(own: seq<Property<Value>>, e: Property<Value>)
    requires IsIndexKey(e.key)
    ensures OwnEntries(InsertIndexed(own, e)) == InsertIndexed(OwnEntries(own), Entry(e.key, OwnJson(e.value)))
  {
    if own != [] && IsIndexKey(own[0].key) && DigitsValue(own[0].key) < DigitsValue(e.key) {
      OwnInsert(own[1..], e);
      assert OwnEntries(own)[1..] == OwnEntries(own[1..]);
    }
  }

  lemma {:induction false} OwnSet(own: seq<Property<Value>>, key: Text, value: Value)
    ensures OwnEntries(SetProperty(own, key, value)) == SetProperty(OwnEntries(own), key, OwnJson(value))
  {
    OwnKeys(own);
    if key != PROTO {
      if HasKey(own, key) {
        OwnGet(own, key);
      } else if IsIndexKey(key) {
        OwnInsert(own, Entry(key, value));
      }
    }
  }

  // ---- what the loop computes by own properties ----

  /** No object that own properties lead to has a replaced prototype. */
  ghost predicate Usable(v: Value) {
    match v
    case ArrValue(items) => forall i :: 0 <= i < |items| ==> Usable(items[i])
    case ObjValue(own, prototype) => !prototype.Replaced? && forall i :: 0 <= i < |own| ==> Usable(own[i].value)
    case _ => true
  }

  ghost predicate Agree(r: Result<Value, CanonicalError>, j: Result<Json, CanonicalError>) {
    match r
    case Ok(v) => j == Ok(OwnJson(v))
    case Err(e) => j == Err(e)
  }

  /** On values it can use, the loop over in-memory values computes `Canonicalize` of their own properties. */
  lemma {:induction false} CanonicalizesOwn(v: Value)
    requires Proper(v) && Usable(v)
    ensures WellFormed(OwnJson(v)) && Agree(CanonicalizeValue(v), Canonicalize(OwnJson(v)))
    decreases v, 1, 0
  {
    ProperIff(v);
    match v
    case ArrValue(items) => ItemsOwn(items);
    case ObjValue(own, _) =>
      OwnKeys(own);
      SortedKeysOwn(v);
      PropertiesOwn(v, SortKeys(Keys(own)), ObjValue([], Default));
    case _ =>
  }

  lemma {:induction false} ItemsOwn(items: seq<Value>)
    requires forall i :: 0 <= i < |items| ==> Proper(items[i]) && Usable(items[i])
    ensures forall i :: 0 <= i < |items| ==> WellFormed(OwnJson(items[i]))
    ensures Agree(CanonicalizeValue(ArrValue(items)), Canonicalize(OwnJson(ArrValue(items))))
    decreases items, 0, 0
  {
    if items != [] {
      CanonicalizesOwn(items[0]);
      ItemsOwn(items[1..]);
      assert OwnItems(items)[1..] == OwnItems(items[1..]);
      var rest := CanonicalizeItems(items[1..]);
      if CanonicalizeValue(items[0]).Ok? && rest.Ok? {
        assert OwnItems([CanonicalizeValue(items[0]).value] + rest.value) == [OwnJson(CanonicalizeValue(items[0]).value)] + OwnItems(rest.value);
      }
    }
  }

  ghost predicate AgreeOwn(r: Result<Value, CanonicalError>, es: Result<seq<Entry>, CanonicalError>) {
    match r
    case Ok(v) => v.ObjValue? && es == Ok(OwnEntries(v.own))
    case Err(e) => es == Err(e)
  }

  lemma {:induction false} PropertiesOwn(v: Value, keys: seq<Text>, out: Value)
    requires v.ObjValue? && Proper(v) && Usable(v) && out.ObjValue?
    requires OwnJson(v) == Obj(OwnEntries(v.own)) && WellFormed(OwnJson(v))
    requires forall k :: k in keys ==> HasKey(v.own, k) && HasKey(OwnEntries(v.own), k)
    ensures AgreeOwn(CanonicalizeProperties(v, keys, out), CanonicalProperties(OwnJson(v), keys, OwnEntries(out.own)))
    decreases v, 0, |keys|
  {
    if keys != [] {
      var key := keys[0];
      assert key in keys;
      var value := Get(v.own, key);
      assert value < v;
      CanonicalizesOwn(value);
      OwnGet(v.own, key);
      if CanonicalizeValue(value).Ok? {
        OwnSet(out.own, key, CanonicalizeValue(value).value);
        PropertiesOwn(v, keys[1..], Assign(out, key, CanonicalizeValue(value).value));
      }
    }
  }

  // ---- which values it accepts ----

  /** A value that is accepted is usable; a value with finite numbers only is refused for its prototypes, if at all. */
  lemma {:induction false} AcceptedIsUsable(v: Value)
    requires Proper(v)
    ensures CanonicalizeValue(v).Ok? ==> Usable(v)
    ensures CanonicalizeValue(v).Err? && AllFinite(OwnJson(v)) ==> CanonicalizeValue(v).error == UnsupportedType
    decreases v, 1, 0
  {
    match v
    case ArrValue(items) => ItemsUsable(items);
    case ObjValue(own, _) =>
      SortedKeysOwn(v);
      PropertiesUsable(v, SortKeys(Keys(own)), ObjValue([], Default));
      forall i | 0 <= i < |own| && CanonicalizeValue(v).Ok? ensures Usable(own[i].value) {
        GetDistinct(own, i);
      }
    case _ =>
  }

  lemma {:induction false} ItemsUsable(items: seq<Value>)
    requires forall i :: 0 <= i < |items| ==> Proper(items[i])
    ensures CanonicalizeItems(items).Ok? ==> forall i :: 0 <= i < |items| ==> Usable(items[i])
    ensures CanonicalizeItems(items).Err? && AllFinite(Arr(OwnItems(items))) ==> CanonicalizeItems(items).error == UnsupportedType
    decreases items, 0, 0
  {
    if items != [] {
      AcceptedIsUsable(items[0]);
      ItemsUsable(items[1..]);
      assert forall i :: 1 <= i < |items| ==> items[i] == items[1..][i - 1];
      assert OwnItems(items)[1..] == OwnItems(items[1..]);
      assert OwnItems(items)[0] == OwnJson(items[0]);
    }
  }

  lemma {:induction false} PropertiesUsable(v: Value, keys: seq<Text>, out: Value)
    requires v.ObjValue? && Proper(v) && out.ObjValue?
    requires forall k :: k in keys ==> HasKey(v.own, k)
    ensures CanonicalizeProperties(v, keys, out).Ok? ==> forall k :: k in keys ==> Usable(Get(v.own, k))
    ensures CanonicalizeProperties(v, keys, out).Err? && AllFinite(OwnJson(v)) ==>
              CanonicalizeProperties(v, keys, out).error == UnsupportedType
    decreases v, 0, |keys|
  {
    if keys != [] {
      assert keys == [keys[0]] + keys[1..];
      assert keys[0] in keys;
      var value := Get(v.own, keys[0]);
      assert value < v;
      AcceptedIsUsable(value);
      OwnGet(v.own, keys[0]);
      if CanonicalizeValue(value).Ok? {
        PropertiesUsable(v, keys[1..], Assign(out, keys[0], CanonicalizeValue(value).value));
      }
    }
  }

  /** `canonicalizeJsonValue` accepts exactly the values with finite numbers and no replaced prototype. */
  lemma {:induction false} CanonicalizeValueOkIff(v: Value)
    requires Proper(v)
    ensures CanonicalizeValue(v).Ok? <==> Usable(v) && AllFinite(OwnJson(v))
    ensures CanonicalizeValue(v).Ok? ==> OwnOf(v, CanonicalizeValue(v).value)
  {
    AcceptedIsUsable(v);
    if Usable(v) {
      CanonicalizesOwn(v);
      CanonicalizeOkIff(OwnJson(v));
      if CanonicalizeValue(v).Ok? {
        CanonicalFormOf(OwnJson(v));
        ProperIff(CanonicalizeValue(v).value);
      }
    }
  }

  /** `c` has the own properties of the canonical form of `v`. */
  ghost predicate OwnOf(v: Value, c: Value) {
    Proper(c) && WellFormed(OwnJson(v)) && Canonicalize(OwnJson(v)) == Ok(OwnJson(c))
  }

  // ---- canonicalizing twice ----

  /** No property named `__proto__` has an object or an array as its value, at any depth. */
  ghost predicate PlainProtos(j: Json) {
    match j
    case Arr(items) => forall i :: 0 <= i < |items| ==> PlainProtos(items[i])
    case Obj(es) =>
      forall i :: 0 <= i < |es| ==>
        (es[i].key == PROTO ==> !es[i].value.Arr? && !es[i].value.Obj?) && PlainProtos(es[i].value)
    case _ => true
  }

  lemma {:induction false} InsertIndexedHas<V>(out: seq<Property<V>>, e: Property<V>)
    requires IsIndexKey(e.key)
    ensures forall x :: x in InsertIndexed(out, e) <==> x == e || x in out
  {
    if out != [] && IsIndexKey(out[0].key) && DigitsValue(out[0].key) < DigitsValue(e.key) {
      InsertIndexedHas(out[1..], e);
      assert out == [out[0]] + out[1..];
    }
  }

  lemma {:induction false} SetPropertyHas<V>(out: seq<Property<V>>, key: Text, value: V)
    requires !HasKey(out, key) && key != PROTO
    ensures forall x :: x in SetProperty(out, key, value) <==> x == Entry(key, value) || x in out
  {
    if IsIndexKey(key) { InsertIndexedHas(out, Entry(key, value)); }
  }

  lemma {:induction false} UsableMembers(v: Value)
    requires v.ObjValue?
    ensures Usable(v) <==> !v.prototype.Replaced? && forall e :: e in v.own ==> Usable(e.value)
  {
    assert forall e :: e in v.own ==> exists i :: 0 <= i < |v.own| && v.own[i] == e;
  }

  lemma {:induction false} AssignUsable(out: Value, key: Text, value: Value)
    requires out.ObjValue? && !HasKey(out.own, key) && (key == PROTO ==> out.prototype == Default)
    ensures Usable(Assign(out, key, value)) <==> Usable(out) && if key == PROTO then !value.Structured() else Usable(value)
    ensures forall e :: e in Assign(out, key, value).own <==> e in out.own || (e == Entry(key, value) && key != PROTO)
    ensures key != PROTO ==> Assign(out, key, value).prototype == out.prototype
  {
    var r := Assign(out, key, value);
    UsableMembers(out);
    UsableMembers(r);
    if key != PROTO {
      SetPropertyHas(out.own, key, value);
    }
    hide Usable, SetProperty, HasKey, IsIndexKey;
  }

  /** The property leaves an object that can be canonicalized again. */
  ghost predicate KeepsUsable(key: Text, j: Json) {
    (key == PROTO ==> !j.Arr? && !j.Obj?) && PlainProtos(j)
  }

  /** The result of canonicalizing can be canonicalized again exactly when no `__proto__` property replaced a prototype. */
  lemma {:induction false} ResultUsableIff(v: Value)
    requires Proper(v) && CanonicalizeValue(v).Ok?
    ensures Usable(CanonicalizeValue(v).value) <==> PlainProtos(OwnJson(v))
    ensures CanonicalizeValue(v).value.Structured() <==> OwnJson(v).Arr? || OwnJson(v).Obj?
    decreases v, 1, 0
  {
    match v
    case ArrValue(items) => ItemsResultUsable(items);
    case ObjValue(own, _) =>
      SortedKeysOwn(v);
      SortKeysSorted(Keys(own));
      LexSortedDistinct(SortKeys(Keys(own)));
      PropertiesResultUsable(v, SortKeys(Keys(own)), ObjValue([], Default));
      PlainProtosByKey(own);
      hide PlainProtos, KeepsUsable, CanonicalizeProperties, SortKeys, HasKey, OwnJson;
    case _ =>
  }

  lemma {:induction false} ItemsResultUsable(items: seq<Value>)
    requires (forall i :: 0 <= i < |items| ==> Proper(items[i])) && CanonicalizeItems(items).Ok?
    ensures var r := CanonicalizeItems(items).value;
            |r| == |items| && forall i :: 0 <= i < |r| ==> (Usable(r[i]) <==> PlainProtos(OwnJson(items[i])))
    decreases items, 0, 0
  {
    if items != [] {
      ResultUsableIff(items[0]);
      ItemsResultUsable(items[1..]);
      var r, rest := CanonicalizeItems(items).value, CanonicalizeItems(items[1..]).value;
      assert r == [CanonicalizeValue(items[0]).value] + rest;
      hide *;
      forall i | 0 <= i < |r| ensures Usable(r[i]) <==> PlainProtos(OwnJson(items[i])) {
        if i > 0 { assert r[i] == rest[i - 1] && items[i] == items[1..][i - 1]; }
      }
    }
  }

  lemma {:induction false} PlainProtosByKey(own: seq<Property<Value>>)
    requires Distinct(Keys(own))
    ensures PlainProtos(Obj(OwnEntries(own))) <==> forall k :: HasKey(own, k) ==> KeepsUsable(k, OwnJson(Get(own, k)))
  {
    var es := OwnEntries(own);
    assert PlainProtos(Obj(es)) <==> forall i :: 0 <= i < |es| ==> KeepsUsable(es[i].key, es[i].value);
    hide KeepsUsable, PlainProtos, OwnJson, OwnEntries;
    forall i | 0 <= i < |own| ensures HasKey(own, own[i].key) && Get(own, own[i].key) == own[i].value {
      GetDistinct(own, i);
    }
    forall k | HasKey(own, k) ensures KeepsUsable(k, OwnJson(Get(own, k))) <==> KeepsUsable(es[IndexOfKey(own, k)].key, es[IndexOfKey(own, k)].value) {}
  }

  lemma {:induction false} RestOfKeys(keys: seq<Text>, own: seq<Property<Value>>, next: seq<Property<Value>>, e: Property<Value>)
    requires keys != [] && Distinct(keys) && e.key == keys[0]
    requires forall k :: k in keys ==> !HasKey(own, k)
    requires forall x :: x in next ==> x in own || x == e
    ensures Distinct(keys[1..])
    ensures forall k :: k in keys[1..] ==> k in keys && k != keys[0] && !HasKey(next, k)
    ensures forall k :: k in keys <==> k == keys[0] || k in keys[1..]
  {
    var rest := keys[1..];
    assert keys == [keys[0]] + rest;
    assert forall i :: 0 <= i < |rest| ==> rest[i] == keys[i + 1];
    forall k | k in rest ensures !HasKey(next, k) {
      assert k in keys;
      forall i | 0 <= i < |next| ensures next[i].key != k { assert next[i] in next; }
    }
  }

  lemma {:induction false} PropertiesResultUsable(v: Value, keys: seq<Text>, out: Value)
    requires v.ObjValue? && Proper(v) && out.ObjValue? && Distinct(keys)
    requires forall k :: k in keys ==> HasKey(v.own, k)
    requires forall k :: k in keys ==> !HasKey(out.own, k)
    requires PROTO in keys ==> out.prototype == Default
    requires CanonicalizeProperties(v, keys, out).Ok?
    ensures Usable(CanonicalizeProperties(v, keys, out).value)
            <==> Usable(out) && forall k :: k in keys ==> KeepsUsable(k, OwnJson(Get(v.own, k)))
    decreases v, 0, |keys|
  {
    if keys != [] {
      var key := keys[0];
      assert key in keys;
      var value := Get(v.own, key);
      assert value < v;
      ResultUsableIff(value);
      var c := CanonicalizeValue(value).value;
      AssignUsable(out, key, c);
      hide Usable, PlainProtos, CanonicalizeValue, HasKey, Distinct, OwnJson;
      RestOfKeys(keys, out.own, Assign(out, key, c).own, Entry(key, c));
      assert PROTO in keys[1..] ==> Assign(out, key, c).prototype == Default;
      hide Assign;
      PropertiesResultUsable(v, keys[1..], Assign(out, key, c));
    }
  }

  lemma {:induction false} ParsedIs(j: Json)
    ensures OwnJson(Parsed(j)) == j && Usable(Parsed(j))
  {
    match j
    case Arr(items) =>
      forall i | 0 <= i < |items| ensures OwnJson(Parsed(items[i])) == items[i] && Usable(Parsed(items[i])) {
        ParsedIs(items[i]);
      }
      assert OwnJson(Parsed(j)).items == items;
    case Obj(es) =>
      forall i | 0 <= i < |es| ensures OwnJson(Parsed(es[i].value)) == es[i].value && Usable(Parsed(es[i].value)) {
        ParsedIs(es[i].value);
      }
      assert OwnJson(Parsed(j)).entries == es;
    case _ =>
  }

  /** Canonicalizing the result once more succeeds, with the same own properties, exactly when no property of the
      input named `__proto__` has an object or an array as its value, at any depth; otherwise it is refused. */
  lemma {:induction false} CanonicalizeTwiceIff(v: Value)
    requires Proper(v) && Usable(v) && AllFinite(OwnJson(v))
    ensures CanonicalizeValue(v).Ok? && OwnOf(v, CanonicalizeValue(v).value)
    ensures var c := CanonicalizeValue(v).value;
            && (PlainProtos(OwnJson(v)) ==> CanonicalizeValue(c).Ok? && OwnJson(CanonicalizeValue(c).value) == OwnJson(c))
            && (!PlainProtos(OwnJson(v)) ==> CanonicalizeValue(c) == Err(UnsupportedType))
  {
    CanonicalizeValueOkIff(v);
    ResultUsableIff(v);
    var c := CanonicalizeValue(v).value;
    CanonicalFormOf(OwnJson(v));
    CanonicalizeValueOkIff(c);
    AcceptedIsUsable(c);
    CanonicalizeIdempotent(OwnJson(v));
  }

  /** `{"__proto__": {}}` canonicalizes to an object that cannot be canonicalized. */
  lemma {:induction false} ReplacedPrototypeFails()
    ensures var v := Parsed(Obj([Entry(PROTO, Obj([]))]));
            && Proper(v) && CanonicalizeValue(v).Ok? && Proper(CanonicalizeValue(v).value)
            && OwnJson(CanonicalizeValue(v).value) == Obj([])
            && CanonicalizeValue(CanonicalizeValue(v).value) == Err(UnsupportedType)
  {
    var j := Obj([Entry(PROTO, Obj([]))]);
    ParsedIs(j);
    ProtoPropertyVanishes(Obj([]));
    assert j.entries[0].value == Obj([]);
    ProperIff(Parsed(j));
    CanonicalizeTwiceIff(Parsed(j));
  }

  // ---- the loops ----

  /** `canonicalizeJsonValue`. */
  method CanonicalizeJsonValue(v: Value) returns (r: Result<Value, CanonicalError>)
    requires Proper(v)
    ensures r == CanonicalizeValue(v)
    decreases v
  {
    match v
    case NumValue(NotANumber) => return Err(NotFinite);
    case NumValue(Infinite) => return Err(NotFinite);
    case NumValue(NegativeZero) => return Err(NegativeZeroNumber);
    case ArrValue(items) =>
      var out: seq<Value> := [];
      assert items[0..] == items && forall rest: seq<Value> :: out + rest == rest;
      for i := 0 to |items|
        invariant CanonicalizeItems(items) ==
                  match CanonicalizeItems(items[i..]) case Ok(rest) => Ok(out + rest) case Err(e) => Err(e)
      {
        var item := CanonicalizeJsonValue(items[i]);
        assert items[i..][1..] == items[i + 1..];
        if item.Err? { return Err(item.error); }
        ghost var before := out;
        out := out + [item.value];
        assert forall rest: seq<Value> :: before + ([item.value] + rest) == out + rest;
      }
      assert out + [] == out;
      return Ok(ArrValue(out));
    case ObjValue(own, _) =>
      if !IsPlainObject(v) { return Err(UnsupportedType); }
      SortedKeysOwn(v);
      var keys := SortKeys(Keys(own));
      var out := ObjValue([], Default);
      for i := 0 to |keys|
        invariant out.ObjValue?
        invariant CanonicalizeValue(v) == CanonicalizeProperties(v, keys[i..], out)
      {
        assert keys[i] in keys && keys[i..][1..] == keys[i + 1..];
        var value := CanonicalizeJsonValue(Get(own, keys[i]));
        if value.Err? { return Err(value.error); }
        out := Assign(out, keys[i], value.value);
      }
      return Ok(out);
    case _ => return Ok(v);
  }
}
