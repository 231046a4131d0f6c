/** The structural diff of two drafts, and the patch it stands for. */
module DraftDiff {
  import opened Outcomes
  import opened Texts
  import opened Json
  import opened Canonical
  import opened CanonicalText
  import opened Pointers

  datatype Op = Add(right: Json) | Remove(left: Json) | Replace(left: Json, right: Json)

  datatype Change = Change(pointer: Text, op: Op)

  /** A change below some value, with the path to it instead of a pointer. */
  datatype Delta = Delta(path: seq<Text>, op: Op)

  /** The changes below one property or item. */
  datatype Group = Group(segment: Text, deltas: seq<Delta>)

  /** Canonical text of a leaf fails on a number JSON cannot carry and on an inherited function. */
  datatype DiffError = Uncanonical(error: CanonicalError) | UnsupportedValue

  /** A draft: distinct own properties, none named `__proto__`. */
  ghost predicate Document(v: Json) { WellFormed(v) && NoProto(v) }

  // ---- collectDiffChanges ----

  function Extend(segment: Text, ds: seq<Delta>): (r: seq<Delta>)
    ensures |r| == |ds|
    ensures forall i :: 0 <= i < |ds| ==> r[i] == Delta([segment] + ds[i].path, ds[i].op)
  {
    seq(|ds|, i requires 0 <= i < |ds| => Delta([segment] + ds[i].path, ds[i].op))
  }

  function Flatten(groups: seq<Group>): seq<Delta> {
    if groups == [] then [] else Extend(groups[0].segment, groups[0].deltas) + Flatten(groups[1..])
  }

  /** The keys of `ks` that `es` does not have. */
  function NewKeys(es: seq<Entry>, ks: seq<Text>): (r: seq<Text>) {
    if ks == [] then []
    else if HasKey(es, ks[0]) then NewKeys(es, ks[1..])
    else [ks[0]] + NewKeys(es, ks[1..])
  }

  /** The keys of either object, sorted. */
  function UnionKeys(l: seq<Entry>, r: seq<Entry>): seq<Text> {
    SortKeys(Keys(l) + NewKeys(l, Keys(r)))
  }

  lemma {:induction false} NewKeysAre(es: seq<Entry>, ks: seq<Text>)
    requires Distinct(ks)
    ensures Distinct(NewKeys(es, ks))
    ensures forall k :: k in NewKeys(es, ks) <==> k in ks && !HasKey(es, k)
  {
    if ks != [] {
      assert ks == [ks[0]] + ks[1..];
      NewKeysAre(es, ks[1..]);
    }
  }

  lemma {:induction false} UnionKeysAre(l: seq<Entry>, r: seq<Entry>)
    requires Distinct(Keys(l)) && Distinct(Keys(r))
    ensures Distinct(UnionKeys(l, r)) && LexSorted(UnionKeys(l, r))
    ensures forall k :: k in UnionKeys(l, r) <==> HasKey(l, k) || HasKey(r, k)
  {
    NewKeysAre(l, Keys(r));
    forall k
      ensures (k in Keys(l) <==> HasKey(l, k)) && (k in Keys(r) <==> HasKey(r, k))
    {
      KeysHave(l, k);
      KeysHave(r, k);
    }
    var ks := Keys(l) + NewKeys(l, Keys(r));
    forall i, j | 0 <= i < j < |ks|
      ensures ks[i] != ks[j]
    {
      if i < |Keys(l)| <= j {
        assert ks[i] in Keys(l) && ks[j] in NewKeys(l, Keys(r));
      }
    }
    SortKeysSorted(ks);
    LexSortedDistinct(SortKeys(ks));
  }

  function LeafText(v: Json): Result<Text, DiffError>
    requires WellFormed(v)
  {
    match CanonicalJsonStringify(v)
    case Ok(t) => Ok(t)
    case Err(e) => Err(Uncanonical(e))
  }

  /** The changes between two present values, with paths relative to them. */
  function DiffValues(l: Json, r: Json): (d: Result<seq<Delta>, DiffError>)
    requires WellFormed(l) && WellFormed(r)
    decreases l, 1, 0
  {
    if l.Obj? && r.Obj? then
      UnionKeysAre(l.entries, r.entries);
      var groups :- DiffKeys(l, r, UnionKeys(l.entries, r.entries));
      Ok(Flatten(groups))
    else if l.Arr? && r.Arr? then
      var groups :- DiffItems(l, r, 0);
      Ok(Flatten(groups))
    else
      var lt :- LeafText(l);
      var rt :- LeafText(r);
      Ok(if lt != rt then [Delta([], Replace(l, r))] else [])
  }

  /** The changes from a present value to a slot. */
  function DiffPresent(l: Json, r: Slot): (d: Result<seq<Delta>, DiffError>)
    requires WellFormed(l) && (r.Own? ==> WellFormed(r.v))
    decreases l, 2, 0
  {
    match r
    case Own(rv) => DiffValues(l, rv)
    case Missing => Ok([Delta([], Remove(l))])
    case Inherited => var _ :- LeafText(l); Err(UnsupportedValue)
  }

  /** The changes from a slot without a JSON value to a present value. */
  function DiffAbsent(l: Slot, r: Slot): Result<seq<Delta>, DiffError>
    requires !l.Own? && r.Own?
  {
    if l.Missing? then Ok([Delta([], Add(r.v))]) else Err(UnsupportedValue)
  }

  /** The changes between two slots, one of which holds a value. */
  function DiffSlots(l: Slot, r: Slot): Result<seq<Delta>, DiffError>
    requires l.Own? || r.Own?
    requires (l.Own? ==> WellFormed(l.v)) && (r.Own? ==> WellFormed(r.v))
  {
    if l.Own? then DiffPresent(l.v, r) else DiffAbsent(l, r)
  }

  function DiffKeys(l: Json, r: Json, keys: seq<Text>): (d: Result<seq<Group>, DiffError>)
    requires l.Obj? && r.Obj? && WellFormed(l) && WellFormed(r)
    requires forall k :: k in keys ==> HasKey(l.entries, k) || HasKey(r.entries, k)
    decreases l, 0, |keys|
  {
    if keys == [] then Ok([]) else
      assert keys[0] in keys;
      var ls, rs := GetSlot(l.entries, keys[0]), GetSlot(r.entries, keys[0]);
      var first :- if ls.Own? then DiffPresent(ls.v, rs) else DiffAbsent(ls, rs);
      var rest :- DiffKeys(l, r, keys[1..]);
      Ok([Group(keys[0], first)] + rest)
  }

  function DiffItems(l: Json, r: Json, i: nat): (d: Result<seq<Group>, DiffError>)
    requires l.Arr? && r.Arr? && WellFormed(l) && WellFormed(r)
    decreases l, 0, |l.items| + |r.items| - i
  {
    if i >= |l.items| && i >= |r.items| then Ok([]) else
      var ls, rs := ItemSlot(l.items, i), ItemSlot(r.items, i);
      var first :- if ls.Own? then DiffPresent(ls.v, rs) else DiffAbsent(ls, rs);
      var rest :- DiffItems(l, r, i + 1);
      Ok([Group(Decimal(i), first)] + rest)
  }

  // ---- grouping ----

  /** The changes below one property or item, with paths relative to it. */
  function Below(ds: seq<Delta>, segment: Text): (r: seq<Delta>)
    ensures |r| <= |ds|
  {
    if ds == [] then []
    else if ds[0].path != [] && ds[0].path[0] == segment
    then [Delta(ds[0].path[1..], ds[0].op)] + Below(ds[1..], segment)
    else Below(ds[1..], segment)
  }

  ghost predicate DistinctSegments(groups: seq<Group>) {
    forall i, j :: 0 <= i < j < |groups| ==> groups[i].segment != groups[j].segment
  }

  lemma {:induction false} BelowConcat(a: seq<Delta>, b: seq<Delta>, segment: Text)
    ensures Below(a + b, segment) == Below(a, segment) + Below(b, segment)
  {
    if a == [] {
      assert a + b == b;
    } else {
      assert (a + b)[1..] == a[1..] + b;
      BelowConcat(a[1..], b, segment);
    }
  }

  lemma {:induction false} BelowExtend(segment: Text, ds: seq<Delta>, other: Text)
    ensures Below(Extend(segment, ds), other) == if other == segment then ds else []
  {
    if ds != [] {
      var e := Extend(segment, ds);
      assert e[1..] == Extend(segment, ds[1..]);
      BelowExtend(segment, ds[1..], other);
      assert e[0].path[1..] == ds[0].path;
      assert ds == [ds[0]] + ds[1..];
    }
  }

  /** Flattened groups fall apart into the same groups again. */
  lemma {:induction false} BelowFlatten(groups: seq<Group>, segment: Text)
    requires DistinctSegments(groups)
    ensures forall i :: 0 <= i < |groups| && groups[i].segment == segment ==> Below(Flatten(groups), segment) == groups[i].deltas
    ensures (forall i :: 0 <= i < |groups| ==> groups[i].segment != segment) ==> Below(Flatten(groups), segment) == []
  {
    if groups != [] {
      var g := groups[0];
      BelowConcat(Extend(g.segment, g.deltas), Flatten(groups[1..]), segment);
      BelowExtend(g.segment, g.deltas, segment);
      BelowFlatten(groups[1..], segment);
      assert forall i :: 1 <= i < |groups| ==> groups[i] == groups[1..][i - 1];
    }
  }

  lemma {:induction false} FlattenDescends(groups: seq<Group>)
    ensures forall i :: 0 <= i < |Flatten(groups)| ==> Flatten(groups)[i].path != []
  {
    if groups != [] { FlattenDescends(groups[1..]); }
  }

  // ---- the groups a diff is made of ----

  predicate Present(l: Slot, r: Slot) { l.Own? || r.Own? }

  ghost predicate WellFormedSlot(s: Slot) { s.Own? ==> WellFormed(s.v) }

  lemma {:induction false} GetSlotWellFormed(es: seq<Entry>, k: Text)
    requires WellFormed(Obj(es))
    ensures WellFormedSlot(GetSlot(es, k))
  {
    if HasKey(es, k) { var i := IndexOfKey(es, k); }
  }

  ghost predicate KeyGroup(l: Json, r: Json, key: Text, g: Group)
    requires l.Obj? && r.Obj?
  {
    var ls, rs := GetSlot(l.entries, key), GetSlot(r.entries, key);
    g.segment == key && WellFormedSlot(ls) && WellFormedSlot(rs) && Present(ls, rs) && DiffSlots(ls, rs) == Ok(g.deltas)
  }

  /** One group per key, in order, holding the changes of that key. */
  lemma {:induction false} DiffKeysGroups(l: Json, r: Json, keys: seq<Text>)
    requires l.Obj? && r.Obj? && WellFormed(l) && WellFormed(r)
    requires forall k :: k in keys ==> HasKey(l.entries, k) || HasKey(r.entries, k)
    requires DiffKeys(l, r, keys).Ok?
    ensures var groups := DiffKeys(l, r, keys).value;
            |groups| == |keys| && forall i :: 0 <= i < |keys| ==> KeyGroup(l, r, keys[i], groups[i])
  {
    if keys != [] {
      assert keys[0] in keys;
      GetSlotWellFormed(l.entries, keys[0]);
      GetSlotWellFormed(r.entries, keys[0]);
      DiffKeysGroups(l, r, keys[1..]);
      var groups, rest := DiffKeys(l, r, keys).value, DiffKeys(l, r, keys[1..]).value;
      assert groups == [groups[0]] + rest && KeyGroup(l, r, keys[0], groups[0]);
      hide *;
      forall i | 0 <= i < |keys|
        ensures KeyGroup(l, r, keys[i], groups[i])
      {
        if i > 0 { assert keys[i] == keys[1..][i - 1] && groups[i] == rest[i - 1]; }
      }
    }
  }

  /** One group per index of the longer array. */
  lemma {:induction false} DiffItemsGroups(l: Json, r: Json, i: nat)
    requires l.Arr? && r.Arr? && WellFormed(l) && WellFormed(r) && DiffItems(l, r, i).Ok?
    ensures var groups := DiffItems(l, r, i).value;
            (forall n :: i <= n < i + |groups| ==>
               && Present(ItemSlot(l.items, n), ItemSlot(r.items, n))
               && groups[n - i].segment == Decimal(n)
               && DiffSlots(ItemSlot(l.items, n), ItemSlot(r.items, n)) == Ok(groups[n - i].deltas))
            && (i <= |l.items| || i <= |r.items| ==>
                  i + |groups| == if |l.items| > |r.items| then |l.items| else |r.items|)
    decreases |l.items| + |r.items| - i
  {
    if i < |l.items| || i < |r.items| {
      DiffItemsGroups(l, r, i + 1);
    }
  }

  /** Both kinds of containers: distinct segments, each holding the changes of its child slots. */
  ghost predicate GroupsOf(l: Json, r: Json, groups: seq<Group>) {
    && DistinctSegments(groups)
    && (forall i :: 0 <= i < |groups| ==> Reaches(l, r, groups[i]))
    && (l.Obj? && r.Obj? ==> CoversKeys(l, r, groups))
    && (l.Arr? && r.Arr? ==>
          && |groups| == (if |l.items| > |r.items| then |l.items| else |r.items|)
          && forall i :: 0 <= i < |groups| ==> groups[i].segment == Decimal(i))
  }

  ghost predicate CoversKeys(l: Json, r: Json, groups: seq<Group>)
    requires l.Obj? && r.Obj?
  {
    forall k :: HasKey(l.entries, k) || HasKey(r.entries, k) ==>
      exists i :: 0 <= i < |groups| && groups[i].segment == k
  }

  ghost predicate Reaches(l: Json, r: Json, g: Group) {
    var ls, rs := Child(Own(l), g.segment), Child(Own(r), g.segment);
    && Present(ls, rs) && WellFormedSlot(ls) && WellFormedSlot(rs)
    && (ls.Own? ==> ls.v < l) && (rs.Own? ==> rs.v < r)
    && DiffSlots(ls, rs) == Ok(g.deltas)
  }

  predicate Containers(l: Json, r: Json) { (l.Obj? && r.Obj?) || (l.Arr? && r.Arr?) }

  lemma {:induction false} ReachesKey(l: Json, r: Json, g: Group)
    requires l.Obj? && r.Obj?
    requires var ls, rs := GetSlot(l.entries, g.segment), GetSlot(r.entries, g.segment);
             Present(ls, rs) && WellFormedSlot(ls) && WellFormedSlot(rs) && DiffSlots(ls, rs) == Ok(g.deltas)
    ensures Reaches(l, r, g)
  {
    hide DiffSlots, WellFormed;
    GetSmaller(l, g.segment);
    GetSmaller(r, g.segment);
  }

  lemma {:induction false} DiffObjectGroups(l: Json, r: Json) returns (groups: seq<Group>)
    requires WellFormed(l) && WellFormed(r) && l.Obj? && r.Obj? && DiffValues(l, r).Ok?
    ensures GroupsOf(l, r, groups) && DiffValues(l, r) == Ok(Flatten(groups))
  {
    var keys := UnionKeys(l.entries, r.entries);
    UnionKeysAre(l.entries, r.entries);
    assert DiffKeys(l, r, keys).Ok?;
    groups := DiffKeys(l, r, keys).value;
    hide *;
    KeyGroups(l, r, keys, groups);
  }

  lemma {:induction false} KeyGroups(l: Json, r: Json, keys: seq<Text>, groups: seq<Group>)
    requires WellFormed(l) && WellFormed(r) && l.Obj? && r.Obj? && Distinct(keys)
    requires forall k :: k in keys <==> HasKey(l.entries, k) || HasKey(r.entries, k)
    requires DiffKeys(l, r, keys) == Ok(groups)
    ensures GroupsOf(l, r, groups)
  {
    hide DiffKeys, DiffSlots, Reaches, GetSlot;
    DiffKeysGroups(l, r, keys);
    forall i | 0 <= i < |groups|
      ensures Reaches(l, r, groups[i])
    {
      assert KeyGroup(l, r, keys[i], groups[i]);
      ReachesKey(l, r, groups[i]);
    }
    forall k | HasKey(l.entries, k) || HasKey(r.entries, k)
      ensures exists i :: 0 <= i < |groups| && groups[i].segment == k
    {
      assert k in keys;
      var i :| 0 <= i < |keys| && keys[i] == k;
      assert KeyGroup(l, r, keys[i], groups[i]);
    }
  }

  lemma {:induction false} ReachesItem(l: Json, r: Json, i: nat, g: Group)
    requires l.Arr? && r.Arr? && WellFormed(l) && WellFormed(r) && g.segment == Decimal(i)
    requires Present(ItemSlot(l.items, i), ItemSlot(r.items, i))
    requires DiffSlots(ItemSlot(l.items, i), ItemSlot(r.items, i)) == Ok(g.deltas)
    ensures Reaches(l, r, g)
  {
    hide DiffSlots, Decimal, ParseIndex;
    ParseIndexDecimal(i);
    assert Child(Own(l), g.segment) == ItemSlot(l.items, i);
    assert Child(Own(r), g.segment) == ItemSlot(r.items, i);
  }

  lemma {:induction false} DiffArrayGroups(l: Json, r: Json) returns (groups: seq<Group>)
    requires WellFormed(l) && WellFormed(r) && l.Arr? && r.Arr? && DiffValues(l, r).Ok?
    ensures GroupsOf(l, r, groups) && DiffValues(l, r) == Ok(Flatten(groups))
  {
    assert DiffItems(l, r, 0).Ok?;
    groups := DiffItems(l, r, 0).value;
    hide DiffItems, DiffValues, DiffSlots, Decimal, Reaches;
    DiffItemsGroups(l, r, 0);
    forall i | 0 <= i < |groups|
      ensures groups[i].segment == Decimal(i) && Reaches(l, r, groups[i])
    {
      assert groups[i - 0].segment == Decimal(i);
      ReachesItem(l, r, i, groups[i]);
    }
    forall i, j | 0 <= i < j < |groups|
      ensures groups[i].segment != groups[j].segment
    {
      if Decimal(i) == Decimal(j) { DecimalInjective(i, j); }
    }
  }

  lemma {:induction false} DiffGroups(l: Json, r: Json) returns (groups: seq<Group>)
    requires WellFormed(l) && WellFormed(r) && Containers(l, r) && DiffValues(l, r).Ok?
    ensures GroupsOf(l, r, groups) && DiffValues(l, r) == Ok(Flatten(groups))
  {
    if l.Obj? { groups := DiffObjectGroups(l, r); } else { groups := DiffArrayGroups(l, r); }
  }

  lemma {:induction false} GetSmaller(v: Json, k: Text)
    requires v.Obj?
    ensures HasKey(v.entries, k) ==> Get(v.entries, k) < v
  {
    if HasKey(v.entries, k) { var i := IndexOfKey(v.entries, k); }
  }

  /** Every flattened delta comes from one group. */
  lemma {:induction false} FlattenAt(groups: seq<Group>, n: nat) returns (i: nat, m: nat)
    requires n < |Flatten(groups)|
    ensures i < |groups| && m < |groups[i].deltas|
    ensures Flatten(groups)[n] == Delta([groups[i].segment] + groups[i].deltas[m].path, groups[i].deltas[m].op)
  {
    var head := Extend(groups[0].segment, groups[0].deltas);
    if n < |head| {
      i, m := 0, n;
    } else {
      i, m := FlattenAt(groups[1..], n - |head|);
      i := i + 1;
    }
  }

  // ---- every change is read back by its own pointer ----

  function LeftOf(op: Op): Slot { if op.Add? then Missing else Own(op.left) }

  function RightOf(op: Op): Slot { if op.Remove? then Missing else Own(op.right) }

  ghost predicate Locates(l: Slot, r: Slot, d: Delta) {
    Walk(l, d.path) == LeftOf(d.op) && Walk(r, d.path) == RightOf(d.op)
  }

  ghost predicate GroupLocated(l: Slot, r: Slot, g: Group) {
    forall m :: 0 <= m < |g.deltas| ==> Locates(Child(l, g.segment), Child(r, g.segment), g.deltas[m])
  }

  lemma {:induction false} LocatesBelow(l: Slot, r: Slot, segment: Text, d: Delta)
    requires Locates(Child(l, segment), Child(r, segment), d)
    ensures Locates(l, r, Delta([segment] + d.path, d.op))
  {
    assert ([segment] + d.path)[1..] == d.path;
  }

  lemma {:induction false} FlattenLocated(l: Slot, r: Slot, groups: seq<Group>)
    requires forall i :: 0 <= i < |groups| ==> GroupLocated(l, r, groups[i])
    ensures forall n :: 0 <= n < |Flatten(groups)| ==> Locates(l, r, Flatten(groups)[n])
  {
    hide Locates, Child, Flatten;
    forall n | 0 <= n < |Flatten(groups)|
      ensures Locates(l, r, Flatten(groups)[n])
    {
      var i, m := FlattenAt(groups, n);
      assert GroupLocated(l, r, groups[i]);
      LocatesBelow(l, r, groups[i].segment, groups[i].deltas[m]);
    }
  }

  /** Where the diff does not descend, it reports the two slots themselves or nothing. */
  lemma {:induction false} LeafDelta(l: Slot, r: Slot)
    requires Present(l, r) && WellFormedSlot(l) && WellFormedSlot(r) && DiffSlots(l, r).Ok?
    requires !(l.Own? && r.Own? && Containers(l.v, r.v))
    ensures var ds := DiffSlots(l, r).value;
            |ds| <= 1 && forall n :: 0 <= n < |ds| ==> ds[n].path == [] && LeftOf(ds[n].op) == l && RightOf(ds[n].op) == r
  {
    if l.Own? {
      assert DiffSlots(l, r) == DiffPresent(l.v, r);
      if r.Own? { assert DiffPresent(l.v, r) == DiffValues(l.v, r.v); }
    }
  }

  /** Along its path, every change finds its own left value on the left and its right value on the right. */
  lemma {:induction false} DeltasLocate(l: Slot, r: Slot)
    requires Present(l, r) && WellFormedSlot(l) && WellFormedSlot(r) && DiffSlots(l, r).Ok?
    ensures forall n :: 0 <= n < |DiffSlots(l, r).value| ==> Locates(l, r, DiffSlots(l, r).value[n])
    decreases if l.Own? then l.v else Null, if l.Own? then 1 else 0
  {
    if l.Own? && r.Own? && Containers(l.v, r.v) {
      var groups := DiffGroups(l.v, r.v);
      assert DiffSlots(l, r) == Ok(Flatten(groups));
      forall i | 0 <= i < |groups|
        ensures GroupLocated(l, r, groups[i])
      {
        assert Reaches(l.v, r.v, groups[i]);
        var ls, rs := Child(l, groups[i].segment), Child(r, groups[i].segment);
        if ls.Own? { DeltasLocate(ls, rs); } else { LeafDelta(ls, rs); }
      }
      FlattenLocated(l, r, groups);
    } else {
      LeafDelta(l, r);
    }
  }

  // ---- no change lies at or below another ----

  ghost predicate Incomparable(ds: seq<Delta>) {
    forall i, j :: 0 <= i < j < |ds| ==> !(ds[i].path <= ds[j].path) && !(ds[j].path <= ds[i].path)
  }

  lemma {:induction false} IncomparableBelow(p: seq<Text>, q: seq<Text>, s: Text, t: Text)
    ensures [s] + p <= [t] + q <==> s == t && p <= q
  {
    var a, b := [s] + p, [t] + q;
    if a <= b {
      assert a[0] == b[0];
      assert forall i :: 0 <= i < |p| ==> p[i] == a[i + 1] && q[i] == b[i + 1];
    }
    if s == t && p <= q {
      assert b == a + q[|p|..];
    }
  }

  lemma {:induction false} FlattenIncomparable(groups: seq<Group>)
    requires DistinctSegments(groups)
    requires forall i :: 0 <= i < |groups| ==> Incomparable(groups[i].deltas)
    ensures Incomparable(Flatten(groups))
  {
    if groups != [] {
      var rest := groups[1..];
      FlattenIncomparable(rest);
      var head := Extend(groups[0].segment, groups[0].deltas);
      var ds := Flatten(groups);
      forall i, j | 0 <= i < j < |ds|
        ensures !(ds[i].path <= ds[j].path) && !(ds[j].path <= ds[i].path)
      {
        if j < |head| {
          IncomparableBelow(groups[0].deltas[i].path, groups[0].deltas[j].path, groups[0].segment, groups[0].segment);
          IncomparableBelow(groups[0].deltas[j].path, groups[0].deltas[i].path, groups[0].segment, groups[0].segment);
        } else if i < |head| {
          var g, m := FlattenAt(rest, j - |head|);
          assert groups[g + 1] == rest[g];
          IncomparableBelow(groups[0].deltas[i].path, rest[g].deltas[m].path, groups[0].segment, rest[g].segment);
          IncomparableBelow(rest[g].deltas[m].path, groups[0].deltas[i].path, rest[g].segment, groups[0].segment);
        } else {
          assert ds[i] == Flatten(rest)[i - |head|] && ds[j] == Flatten(rest)[j - |head|];
        }
      }
    }
  }

  /** The pointers of a diff are pairwise different and none extends another segment by segment. */
  lemma {:induction false} DeltasIncomparable(l: Slot, r: Slot)
    requires Present(l, r) && WellFormedSlot(l) && WellFormedSlot(r) && DiffSlots(l, r).Ok?
    ensures Incomparable(DiffSlots(l, r).value)
    decreases if l.Own? then l.v else Null, if l.Own? then 1 else 0
  {
    if l.Own? && r.Own? && Containers(l.v, r.v) {
      var groups := DiffGroups(l.v, r.v);
      assert DiffSlots(l, r) == Ok(Flatten(groups));
      forall i | 0 <= i < |groups|
        ensures Incomparable(groups[i].deltas)
      {
        var ls, rs := Child(l, groups[i].segment), Child(r, groups[i].segment);
        assert Reaches(l.v, r.v, groups[i]);
        if ls.Own? { DeltasIncomparable(ls, rs); }
      }
      FlattenIncomparable(groups);
    } else {
      LeafDelta(l, r);
    }
  }

  // ---- empty diffs ----

  lemma {:induction false} FlattenEmpty(groups: seq<Group>)
    ensures Flatten(groups) == [] <==> forall i :: 0 <= i < |groups| ==> groups[i].deltas == []
  {
    if groups != [] { FlattenEmpty(groups[1..]); }
  }

  ghost predicate SameAt(l: Json, r: Json, segment: Text) {
    var ls, rs := Child(Own(l), segment), Child(Own(r), segment);
    ls.Own? && rs.Own? && Same(ls.v, rs.v)
  }

  /** There are no changes exactly when the documents are the same value. */
  lemma {:induction false} EmptyIffSame(l: Json, r: Json)
    requires Document(l) && Document(r) && DiffValues(l, r).Ok?
    ensures DiffValues(l, r).value == [] <==> Same(l, r)
  {
    if Containers(l, r) {
      var groups := DiffGroups(l, r);
      FlattenEmpty(groups);
      forall i | 0 <= i < |groups|
        ensures groups[i].deltas == [] <==> SameAt(l, r, groups[i].segment)
      {
        assert Reaches(l, r, groups[i]);
        var ls, rs := Child(Own(l), groups[i].segment), Child(Own(r), groups[i].segment);
        if ls.Own? && rs.Own? {
          ChildDocument(l, groups[i].segment);
          ChildDocument(r, groups[i].segment);
          EmptyIffSame(ls.v, rs.v);
          assert DiffSlots(ls, rs) == DiffPresent(ls.v, rs) == DiffValues(ls.v, rs.v);
        }
      }
      if l.Obj? {
        ObjectsSameByKey(l, r, groups);
      } else {
        ArraysSameByIndex(l, r, groups);
      }
    } else {
      LeafSame(l, r);
    }
  }

  lemma {:induction false} ChildDocument(v: Json, segment: Text)
    requires Document(v)
    ensures Child(Own(v), segment).Own? ==> Document(Child(Own(v), segment).v)
  {
    if v.Obj? && HasKey(v.entries, segment) { var i := IndexOfKey(v.entries, segment); }
  }

  lemma {:induction false} LeafSame(l: Json, r: Json)
    requires Document(l) && Document(r) && !Containers(l, r) && DiffValues(l, r).Ok?
    ensures DiffValues(l, r).value == [] <==> Same(l, r)
  {
    CanonicalizeOkIff(l);
    CanonicalizeOkIff(r);
    CanonicalJsonEqualIffSame(l, r);
  }

  lemma {:induction false} ObjectsSameByKey(l: Json, r: Json, groups: seq<Group>)
    requires Document(l) && Document(r) && l.Obj? && r.Obj? && GroupsOf(l, r, groups)
    ensures Same(l, r) <==> forall i :: 0 <= i < |groups| ==> SameAt(l, r, groups[i].segment)
  {
    if forall i :: 0 <= i < |groups| ==> SameAt(l, r, groups[i].segment) { SameFromKeys(l, r, groups); }
    if Same(l, r) {
      forall i | 0 <= i < |groups|
        ensures SameAt(l, r, groups[i].segment)
      {
        assert Reaches(l, r, groups[i]);
        SameKey(l, r, groups[i].segment);
      }
    }
  }

  lemma {:induction false} SameFromKeys(l: Json, r: Json, groups: seq<Group>)
    requires Document(l) && Document(r) && l.Obj? && r.Obj? && GroupsOf(l, r, groups)
    requires forall i :: 0 <= i < |groups| ==> SameAt(l, r, groups[i].segment)
    ensures Same(l, r)
  {
    hide DiffSlots, Reaches;
    var es, fs := l.entries, r.entries;
    forall i | 0 <= i < |es|
      ensures HasKey(fs, es[i].key) && Same(es[i].value, Get(fs, es[i].key))
    {
      GetDistinct(es, i);
      var j :| 0 <= j < |groups| && groups[j].segment == es[i].key;
      assert SameAt(l, r, groups[j].segment);
    }
    forall i | 0 <= i < |fs|
      ensures HasKey(es, fs[i].key)
    {
      assert HasKey(fs, fs[i].key);
      var j :| 0 <= j < |groups| && groups[j].segment == fs[i].key;
      assert SameAt(l, r, groups[j].segment);
    }
  }

  lemma {:induction false} SameKey(l: Json, r: Json, k: Text)
    requires Document(l) && Document(r) && l.Obj? && r.Obj? && Same(l, r)
    requires HasKey(l.entries, k) || HasKey(r.entries, k)
    ensures SameAt(l, r, k)
  {
    if HasKey(r.entries, k) { var j := IndexOfKey(r.entries, k); }
    var i := IndexOfKey(l.entries, k);
    GetDistinct(l.entries, i);
  }

  lemma {:induction false} SameIndex(l: Json, r: Json, i: nat)
    requires l.Arr? && r.Arr?
    ensures SameAt(l, r, Decimal(i)) <==> i < |l.items| && i < |r.items| && Same(l.items[i], r.items[i])
  {
    hide Decimal, ParseIndex;
    ParseIndexDecimal(i);
  }

  lemma {:induction false} ArraysSameByIndex(l: Json, r: Json, groups: seq<Group>)
    requires l.Arr? && r.Arr? && GroupsOf(l, r, groups)
    ensures Same(l, r) <==> forall i :: 0 <= i < |groups| ==> SameAt(l, r, groups[i].segment)
  {
    hide DiffSlots, Decimal, Reaches, SameAt;
    var xs, ys := l.items, r.items;
    forall i | 0 <= i < |groups|
      ensures SameAt(l, r, groups[i].segment) <==> i < |xs| && i < |ys| && Same(xs[i], ys[i])
    {
      assert groups[i].segment == Decimal(i);
      SameIndex(l, r, i);
    }
    if |xs| != |ys| {
      var n := if |xs| < |ys| then |xs| else |ys|;
      assert !SameAt(l, r, groups[n].segment);
    }
  }
}
