/** JSON values as the control plane holds them in memory. */
module Json {
  import opened Texts

  /** The text of a finite number is a token over the number alphabet;
      which token a number prints as is not modelled. */
  type NumberText = t: Text | t != [] && forall i :: 0 <= i < |t| ==> IsNumberUnit(t[i]) witness [0x30]

  /** `0-9`, `+`, `-`, `.`, `E`, `e`. */
  predicate IsNumberUnit(u: CodeUnit) {
    IsDigit(u) || u == 0x2b || u == 0x2d || u == 0x2e || u == 0x45 || u == 0x65
  }

  datatype Number = NotANumber | Infinite | NegativeZero | Finite(token: NumberText)

  /** An object lists its own properties in enumeration order. */
  datatype Json =
    | Null
    | Bool(b: bool)
    | Num(n: Number)
    | Str(s: Text)
    | Arr(items: seq<Json>)
    | Obj(entries: seq<Entry>)

  datatype Property<V> = Entry(key: Text, value: V)

  type Entry = Property<Json>

  predicate HasKey<V>(es: seq<Property<V>>, k: Text) {
    exists i :: 0 <= i < |es| && es[i].key == k
  }

  function IndexOfKey<V>(es: seq<Property<V>>, k: Text): (i: nat)
    requires HasKey(es, k)
    ensures i < |es| && es[i].key == k
  {
    if es[0].key == k then 0 else
      assert HasKey(es[1..], k) by {
        var j :| 0 <= j < |es| && es[j].key == k;
        assert es[1..][j - 1] == es[j];
      }
      1 + IndexOfKey(es[1..], k)
  }

  /** The value of an own property. */
  function Get<V>(es: seq<Property<V>>, k: Text): (v: V)
    requires HasKey(es, k)
    ensures Entry(k, v) in es
  {
    es[IndexOfKey(es, k)].value
  }

  /** `Object.keys`. */
  function Keys<V>(es: seq<Property<V>>): (ks: seq<Text>)
    ensures |ks| == |es| && forall i :: 0 <= i < |es| ==> ks[i] == es[i].key
  {
    seq(|es|, i requires 0 <= i < |es| => es[i].key)
  }

  /** Own properties of one object have different names, at every depth. */
  ghost predicate WellFormed(v: Json) {
    match v
    case Arr(items) => forall i :: 0 <= i < |items| ==> WellFormed(items[i])
    case Obj(es) => Distinct(Keys(es)) && forall i :: 0 <= i < |es| ==> WellFormed(es[i].value)
    case _ => true
  }

  lemma {:induction false} KeysHave<V>(es: seq<Property<V>>, k: Text)
    ensures k in Keys(es) <==> HasKey(es, k)
  {
    if HasKey(es, k) {
      var i :| 0 <= i < |es| && es[i].key == k;
      assert Keys(es)[i] == k;
    }
  }

  lemma {:induction false} GetDistinct<V>(es: seq<Property<V>>, i: nat)
    requires Distinct(Keys(es)) && i < |es|
    ensures HasKey(es, es[i].key) && Get(es, es[i].key) == es[i].value
  {
    var j := IndexOfKey(es, es[i].key);
    assert Keys(es)[j] == Keys(es)[i];
  }

  /** `__proto__`: assigning to it on an object literal sets the prototype instead of a property. */
  const PROTO: Text := [0x5f, 0x5f, 0x70, 0x72, 0x6f, 0x74, 0x6f, 0x5f, 0x5f]

  /** The same value up to the order of object properties, reading every object
      without a property named `__proto__`. */
  ghost predicate Same(a: Json, b: Json) {
    match (a, b)
    case (Arr(xs), Arr(ys)) => |xs| == |ys| && forall i :: 0 <= i < |xs| ==> Same(xs[i], ys[i])
    case (Obj(es), Obj(fs)) =>
      && (forall i :: 0 <= i < |es| && es[i].key != PROTO ==>
            HasKey(fs, es[i].key) && Same(es[i].value, Get(fs, es[i].key)))
      && (forall i :: 0 <= i < |fs| && fs[i].key != PROTO ==> HasKey(es, fs[i].key))
    case _ => a == b
  }

  lemma {:induction false} SameReflexive(v: Json)
    requires WellFormed(v)
    ensures Same(v, v)
  {
    match v
    case Arr(items) =>
      forall i | 0 <= i < |items| { SameReflexive(items[i]); }
    case Obj(es) =>
      forall i | 0 <= i < |es|
        ensures HasKey(es, es[i].key) && Same(es[i].value, Get(es, es[i].key))
      {
        GetDistinct(es, i);
        SameReflexive(es[i].value);
      }
    case _ =>
  }

  /** Every number is one JSON can carry: finite and not negative zero. */
  ghost predicate AllFinite(v: Json) {
    match v
    case Num(n) => n.Finite?
    case Arr(items) => forall i :: 0 <= i < |items| ==> AllFinite(items[i])
    case Obj(es) => forall i :: 0 <= i < |es| ==> AllFinite(es[i].value)
    case _ => true
  }
}
