/** Canonical entities: the object canonicalized once, and once more inside the envelope whose text is digested. */
module Entities {
  import opened Outcomes
  import opened Texts
  import opened Json
  import opened Canonical
  import opened CanonicalText
  import opened InMemory
  import opened Pointers

  const ENTITY_KINDS: seq<Text> := [
    Ascii("agent_app"), Ascii("benchmark"), Ascii("case"), Ascii("dataset"), Ascii("experiment_package"), Ascii("grader"),
    Ascii("metric"), Ascii("runtime_profile"), Ascii("task_boundary"), Ascii("trial_contract"), Ascii("variant")]

  datatype EntityError = UnsupportedKind | EmptySchemaVersion | NotAnObject | NotCanonical(error: CanonicalError)

  datatype CanonicalEntity = CanonicalEntity(canonicalJson: Value, canonicalText: Text)

  function EnvelopeOf(canonicalJson: Value, kind: Text, schemaVersion: Text): Value {
    ObjValue([Entry(Ascii("canonical_json"), canonicalJson),
              Entry(Ascii("kind"), StrValue(kind)),
              Entry(Ascii("protocol"), StrValue(Ascii("bucephalus-canonical-json-v1"))),
              Entry(Ascii("schema_version"), StrValue(schemaVersion))], Default)
  }

  /** The envelope by its own properties. */
  function EnvelopeJson(canonicalJson: Json, kind: Text, schemaVersion: Text): Json {
    Obj([Entry(Ascii("canonical_json"), canonicalJson),
         Entry(Ascii("kind"), Str(kind)),
         Entry(Ascii("protocol"), Str(Ascii("bucephalus-canonical-json-v1"))),
         Entry(Ascii("schema_version"), Str(schemaVersion))])
  }

  lemma {:induction false} EnvelopeKeys(es: seq<Text>)
    requires es == [Ascii("canonical_json"), Ascii("kind"), Ascii("protocol"), Ascii("schema_version")]
    ensures Distinct(es) && PROTO !in es
  {
    assert es[0][0] == 0x63 && es[1][0] == 0x6b && es[2][0] == 0x70 && es[3][0] == 0x73 && PROTO[0] == 0x5f;
  }

  lemma {:induction false} EnvelopeProper(c: Value, kind: Text, schemaVersion: Text)
    requires Proper(c)
    ensures Proper(EnvelopeOf(c, kind, schemaVersion))
    ensures OwnJson(EnvelopeOf(c, kind, schemaVersion)) == EnvelopeJson(OwnJson(c), kind, schemaVersion)
    ensures Usable(EnvelopeOf(c, kind, schemaVersion)) <==> Usable(c)
    ensures AllFinite(EnvelopeJson(OwnJson(c), kind, schemaVersion)) <==> AllFinite(OwnJson(c))
  {
    var envelope := EnvelopeOf(c, kind, schemaVersion);
    EnvelopeKeys(Keys(envelope.own));
    hide Ascii;
    assert envelope.own[0].value == c;
    assert EnvelopeJson(OwnJson(c), kind, schemaVersion).entries[0].value == OwnJson(c);
    assert OwnEntries(envelope.own) == EnvelopeJson(OwnJson(c), kind, schemaVersion).entries;
  }

  /** `canonicalizeEntity`; the digest is a hash of the text. */
  function CanonicalizeEntity(kind: Text, schemaVersion: Text, subject: Value): Result<CanonicalEntity, EntityError>
    requires Proper(subject)
  {
    if kind !in ENTITY_KINDS then Err(UnsupportedKind)
    else if Trim(schemaVersion) == [] then Err(EmptySchemaVersion)
    else if !IsPlainObject(subject) then Err(NotAnObject)
    else
      match CanonicalizeValue(subject)
      case Err(e) => Err(NotCanonical(e))
      case Ok(canonicalJson) =>
        CanonicalizeValueOkIff(subject);
        EnvelopeProper(canonicalJson, kind, schemaVersion);
        match CanonicalizeValue(EnvelopeOf(canonicalJson, kind, schemaVersion))
        case Err(e) => Err(NotCanonical(e))
        case Ok(form) =>
          FormPrintable(EnvelopeOf(canonicalJson, kind, schemaVersion));
          Ok(CanonicalEntity(canonicalJson, Stringify(OwnJson(form))))
  }

  lemma {:induction false} FormPrintable(v: Value)
    requires Proper(v) && CanonicalizeValue(v).Ok?
    ensures WellFormed(OwnJson(v)) && AllFinite(OwnJson(CanonicalizeValue(v).value))
    ensures CanonicalJsonStringify(OwnJson(v)) == Ok(Stringify(OwnJson(CanonicalizeValue(v).value)))
  {
    CanonicalizeValueOkIff(v);
    CanonicalFormOf(OwnJson(v));
  }

  /** An entity has a canonical form exactly for a known kind, a schema version that is not blank, and an object with
      finite numbers in which no property named `__proto__` has an object or an array as its value; nor may the
      object it is given have a replaced prototype in it already. */
  lemma {:induction false} EntityOkIff(kind: Text, schemaVersion: Text, subject: Value)
    requires Proper(subject)
    ensures CanonicalizeEntity(kind, schemaVersion, subject).Ok? <==>
            && kind in ENTITY_KINDS && Trim(schemaVersion) != [] && subject.ObjValue? && Usable(subject)
            && AllFinite(OwnJson(subject)) && PlainProtos(OwnJson(subject))
  {
    CanonicalizeValueOkIff(subject);
    if CanonicalizeValue(subject).Ok? {
      var c := CanonicalizeValue(subject).value;
      ResultUsableIff(subject);
      CanonicalFormOf(OwnJson(subject));
      EnvelopeProper(c, kind, schemaVersion);
      CanonicalizeValueOkIff(EnvelopeOf(c, kind, schemaVersion));
    }
    hide CanonicalizeValue, PlainProtos, Proper, ENTITY_KINDS, Trim, AllFinite, EnvelopeOf;
  }

  /** Objects with the same names in the same order are the same exactly position by position. */
  lemma {:induction false} SameByPosition(es: seq<Entry>, fs: seq<Entry>)
    requires Distinct(Keys(es)) && Keys(fs) == Keys(es) && PROTO !in Keys(es)
    ensures Same(Obj(es), Obj(fs)) <==> forall i :: 0 <= i < |es| ==> Same(es[i].value, fs[i].value)
  {
    forall i | 0 <= i < |es|
      ensures es[i].key == fs[i].key && es[i].key != PROTO && HasKey(es, es[i].key)
      ensures HasKey(fs, es[i].key) && Get(fs, es[i].key) == fs[i].value
    {
      assert Keys(es)[i] in Keys(es) && Keys(fs)[i] == Keys(es)[i];
      GetDistinct(fs, i);
    }
    hide HasKey, Keys, Get, Distinct;
  }

  lemma {:induction false} EnvelopeWellFormed(x: Json, kind: Text, schemaVersion: Text)
    requires WellFormed(x)
    ensures WellFormed(EnvelopeJson(x, kind, schemaVersion))
  {
    EnvelopeKeys(Keys(EnvelopeJson(x, kind, schemaVersion).entries));
    hide Ascii;
  }

  lemma {:induction false} SameEnvelopes(x: Json, k: Text, s: Text, y: Json, l: Text, t: Text)
    ensures Same(EnvelopeJson(x, k, s), EnvelopeJson(y, l, t)) <==> Same(x, y) && k == l && s == t
  {
    hide Same, Ascii;
    var es, fs := EnvelopeJson(x, k, s).entries, EnvelopeJson(y, l, t).entries;
    EnvelopeKeys(Keys(es));
    assert Keys(fs) == Keys(es);
    SameByPosition(es, fs);
    FieldsSame(es, fs);
  }

  lemma FieldsSame(es: seq<Entry>, fs: seq<Entry>)
    requires |es| == |fs| == 4 && es[2].value == fs[2].value && es[2].value.Str? && es[1].value.Str? && es[3].value.Str?
    ensures (forall i :: 0 <= i < |es| ==> Same(es[i].value, fs[i].value))
            <==> Same(es[0].value, fs[0].value) && es[1].value == fs[1].value && es[3].value == fs[3].value
  {
  }

  lemma {:induction false} EnvelopeAscends(x: Json, kind: Text, schemaVersion: Text)
    ensures KeysAscend(EnvelopeJson(x, kind, schemaVersion).entries)
  {
    var es := EnvelopeJson(x, kind, schemaVersion).entries;
    assert es[0].key[0] == 0x63 && es[1].key[0] == 0x6b && es[2].key[0] == 0x70 && es[3].key[0] == 0x73;
    hide Ascii;
    forall i | 0 <= i < 4 ensures es[i].key != [] && !IsIndexKey(es[i].key) { LettersNoIndex(es[i].key); }
    forall i, j | 0 <= i < j < 4 ensures KeyLess(es[i].key, es[j].key) { assert es[i].key[0] < es[j].key[0]; }
  }

  lemma LettersNoIndex(k: Text)
    requires k != [] && k[0] > 0x39
    ensures !IsIndexKey(k)
  {
    assert !IsDigit(k[0]);
  }

  /** An envelope around a canonical form is canonical. */
  lemma {:induction false} EnvelopeCanonical(c: Json, kind: Text, schemaVersion: Text)
    requires WellFormed(c) && AllFinite(c) && Canonicalize(c) == Ok(c)
    ensures WellFormed(EnvelopeJson(c, kind, schemaVersion))
    ensures Canonicalize(EnvelopeJson(c, kind, schemaVersion)) == Ok(EnvelopeJson(c, kind, schemaVersion))
  {
    var es := EnvelopeJson(c, kind, schemaVersion).entries;
    EnvelopeWellFormed(c, kind, schemaVersion);
    EnvelopeAscends(c, kind, schemaVersion);
    EnvelopeKeys(Keys(es));
    EnvelopeFinite(c, kind, schemaVersion);
    CanonicalizeOkIff(Obj(es));
    CanonicalObject(es);
    var r := Canonicalize(Obj(es)).value.entries;
    EnvelopeFixed(c, kind, schemaVersion);
    hide Ascii, Canonicalize, KeysAscend, WellFormed, AllFinite, EnvelopeJson;
    SameMembers(es, r);
    AscendingUnique(es, r);
  }

  lemma {:induction false} EnvelopeFinite(c: Json, kind: Text, schemaVersion: Text)
    requires AllFinite(c)
    ensures AllFinite(EnvelopeJson(c, kind, schemaVersion))
  {
    hide Ascii;
  }

  lemma {:induction false} EnvelopeFixed(c: Json, kind: Text, schemaVersion: Text)
    requires WellFormed(c) && Canonicalize(c) == Ok(c)
    ensures var es := EnvelopeJson(c, kind, schemaVersion).entries;
            forall i :: 0 <= i < |es| ==> WellFormed(es[i].value) && Canonicalize(es[i].value) == Ok(es[i].value)
  {
    hide Ascii;
  }

  /** A canonical object keeps the properties that are canonical already. */
  lemma {:induction false} SameMembers(es: seq<Entry>, r: seq<Entry>)
    requires WellFormed(Obj(es)) && Distinct(Keys(es)) && PROTO !in Keys(es)
    requires forall i :: 0 <= i < |es| ==> WellFormed(es[i].value) && Canonicalize(es[i].value) == Ok(es[i].value)
    requires forall e :: e in r <==> HasKey(es, e.key) && e.key != PROTO && Canonicalize(Get(es, e.key)) == Ok(e.value)
    ensures forall e :: e in es <==> e in r
  {
    forall i | 0 <= i < |es| ensures HasKey(es, es[i].key) && Get(es, es[i].key) == es[i].value && es[i].key != PROTO {
      GetDistinct(es, i);
      assert Keys(es)[i] in Keys(es);
    }
    forall e ensures e in es <==> e in r {
      if HasKey(es, e.key) { var i := IndexOfKey(es, e.key); }
    }
  }

  /** The digested text is that of one object with these four properties, in this order. */
  lemma {:induction false} EntityTextIs(kind: Text, schemaVersion: Text, subject: Value)
    requires Proper(subject) && CanonicalizeEntity(kind, schemaVersion, subject).Ok?
    ensures WellFormed(OwnJson(subject)) && Canonicalize(OwnJson(subject)).Ok?
    ensures CanonicalizeEntity(kind, schemaVersion, subject).value.canonicalText
            == Stringify(Obj([Entry(Ascii("canonical_json"), Canonicalize(OwnJson(subject)).value),
                              Entry(Ascii("kind"), Str(kind)),
                              Entry(Ascii("protocol"), Str(Ascii("bucephalus-canonical-json-v1"))),
                              Entry(Ascii("schema_version"), Str(schemaVersion))]))
  {
    TextOfEnvelope(kind, schemaVersion, subject);
    var c := OwnJson(CanonicalizeValue(subject).value);
    assert EnvelopeJson(c, kind, schemaVersion)
        == Obj([Entry(Ascii("canonical_json"), c), Entry(Ascii("kind"), Str(kind)),
                Entry(Ascii("protocol"), Str(Ascii("bucephalus-canonical-json-v1"))), Entry(Ascii("schema_version"), Str(schemaVersion))]);
    hide CanonicalizeEntity, EnvelopeJson, CanonicalizeValue, WellFormed, AllFinite, Ascii, Stringify, Canonicalize;
    EnvelopeCanonical(c, kind, schemaVersion);
  }

  /** The digested texts of two entities are equal exactly for the same kind, the same schema version and the same
      object up to property order and `__proto__` properties. */
  lemma {:induction false} EntityEqualIffSame(kind: Text, schemaVersion: Text, subject: Value, otherKind: Text,
                                              otherVersion: Text, other: Value)
    requires Proper(subject) && CanonicalizeEntity(kind, schemaVersion, subject).Ok?
    requires Proper(other) && CanonicalizeEntity(otherKind, otherVersion, other).Ok?
    ensures CanonicalizeEntity(kind, schemaVersion, subject).value.canonicalText
            == CanonicalizeEntity(otherKind, otherVersion, other).value.canonicalText
            <==> kind == otherKind && schemaVersion == otherVersion && Same(OwnJson(subject), OwnJson(other))
  {
    var c, d := CanonicalizeValue(subject).value, CanonicalizeValue(other).value;
    TextOfEnvelope(kind, schemaVersion, subject);
    TextOfEnvelope(otherKind, otherVersion, other);
    hide CanonicalizeEntity, EnvelopeJson, CanonicalJsonStringify, CanonicalizeValue, Same, WellFormed, AllFinite;
    CanonicalJsonEqualIffSame(EnvelopeJson(OwnJson(c), kind, schemaVersion), EnvelopeJson(OwnJson(d), otherKind, otherVersion));
    SameEnvelopes(OwnJson(c), kind, schemaVersion, OwnJson(d), otherKind, otherVersion);
    CanonicalEqualIffSame(OwnJson(c), OwnJson(d));
    CanonicalEqualIffSame(OwnJson(subject), OwnJson(other));
  }

  lemma {:induction false} TextOfEnvelope(kind: Text, schemaVersion: Text, subject: Value)
    requires Proper(subject) && CanonicalizeEntity(kind, schemaVersion, subject).Ok?
    ensures CanonicalizeValue(subject).Ok?
    ensures var j, c := OwnJson(subject), OwnJson(CanonicalizeValue(subject).value);
            && WellFormed(j) && AllFinite(j) && Canonicalize(j) == Ok(c)
            && WellFormed(c) && AllFinite(c) && Canonicalize(c) == Ok(c)
            && WellFormed(EnvelopeJson(c, kind, schemaVersion)) && AllFinite(EnvelopeJson(c, kind, schemaVersion))
            && CanonicalJsonStringify(EnvelopeJson(c, kind, schemaVersion))
               == Ok(CanonicalizeEntity(kind, schemaVersion, subject).value.canonicalText)
  {
    var c := CanonicalizeValue(subject).value;
    CanonicalizeValueOkIff(subject);
    CanonicalFormOf(OwnJson(subject));
    CanonicalizeIdempotent(OwnJson(subject));
    EnvelopeProper(c, kind, schemaVersion);
    EnvelopeWellFormed(OwnJson(c), kind, schemaVersion);
    FormPrintable(EnvelopeOf(c, kind, schemaVersion));
    hide CanonicalJsonStringify, WellFormed, AllFinite, ENTITY_KINDS, Trim, CanonicalizeValue, Canonicalize, EnvelopeOf, EnvelopeJson;
  }
}
