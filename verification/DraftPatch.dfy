/** What a list of changes means: applying all of them at once. Applying a diff to its left side
    gives its right side. */
module DraftPatch {
  import opened Outcomes
  import opened Texts
  import opened Json
  import opened Pointers
  import opened DraftDiff

  function Depth(ds: seq<Delta>): nat {
    if ds == [] then 0
    else if |ds[0].path| > Depth(ds[1..]) then |ds[0].path| else Depth(ds[1..])
  }

  lemma {:induction false} BelowShallower(ds: seq<Delta>, segment: Text)
    ensures Depth(Below(ds, segment)) < Depth(ds) || Below(ds, segment) == []
  {
    if ds != [] {
      BelowShallower(ds[1..], segment);
      var below := Below(ds, segment);
      if ds[0].path != [] && ds[0].path[0] == segment {
        assert below[1..] == Below(ds[1..], segment);
      }
    }
  }

  /** The segments changes start with, each once. */
  function Heads(ds: seq<Delta>): (r: seq<Text>)
    ensures Distinct(r)
  {
    if ds == [] then []
    else
      var rest := Heads(ds[1..]);
      if ds[0].path == [] || ds[0].path[0] in rest then rest else [ds[0].path[0]] + rest
  }

  lemma {:induction false} HeadsCover(ds: seq<Delta>, segment: Text)
    requires Below(ds, segment) != []
    ensures segment in Heads(ds)
  {
    if !(ds[0].path != [] && ds[0].path[0] == segment) {
      HeadsCover(ds[1..], segment);
    }
  }

  /** All changes applied to a slot at once: a change of the slot itself decides it,
      otherwise each property or item takes the changes below it, and what is removed drops out. */
  function Patch(v: Slot, ds: seq<Delta>): Slot
    decreases Depth(ds), 1, 0
  {
    if ds == [] then v
    else if ds[0].path == [] then (if ds[0].op.Remove? then Missing else Own(ds[0].op.right))
    else match v
      case Own(Obj(es)) => Own(Obj(PatchKeys(es, ds, Keys(es) + NewKeys(es, Heads(ds)))))
      case Own(Arr(xs)) => Own(Arr(PatchItems(xs, ds, 0, |xs| + |ds|)))
      case _ => v
  }

  function OwnSlot(es: seq<Entry>, k: Text): Slot {
    if HasKey(es, k) then Own(Get(es, k)) else Missing
  }

  function PatchKeys(es: seq<Entry>, ds: seq<Delta>, keys: seq<Text>): (r: seq<Entry>)
    requires Depth(ds) > 0
    decreases Depth(ds), 0, |keys|
  {
    if keys == [] then [] else
      BelowShallower(ds, keys[0]);
      var child := Patch(OwnSlot(es, keys[0]), Below(ds, keys[0]));
      var rest := PatchKeys(es, ds, keys[1..]);
      if child.Own? then [Entry(keys[0], child.v)] + rest else rest
  }

  function PatchItems(xs: seq<Json>, ds: seq<Delta>, i: nat, n: nat): (r: seq<Json>)
    requires Depth(ds) > 0 && i <= n
    decreases Depth(ds), 0, n - i
  {
    if i == n then [] else
      BelowShallower(ds, Decimal(i));
      var child := Patch(ItemSlot(xs, i), Below(ds, Decimal(i)));
      var rest := PatchItems(xs, ds, i + 1, n);
      if child.Own? then [child.v] + rest else rest
  }

  /** What patching leaves at a key, and at an index. */
  function PatchedKey(es: seq<Entry>, ds: seq<Delta>, k: Text): Slot {
    Patch(OwnSlot(es, k), Below(ds, k))
  }

  function PatchedItem(xs: seq<Json>, ds: seq<Delta>, i: nat): Slot {
    Patch(ItemSlot(xs, i), Below(ds, Decimal(i)))
  }

  // ---- the entries a patched object keeps ----

  lemma PatchKeysStep(es: seq<Entry>, ds: seq<Delta>, keys: seq<Text>)
    requires Depth(ds) > 0 && keys != []
    ensures var c, rest := PatchedKey(es, ds, keys[0]), PatchKeys(es, ds, keys[1..]);
            PatchKeys(es, ds, keys) == if c.Own? then [Entry(keys[0], c.v)] + rest else rest
  {
  }

  ghost predicate KeepsPatched(es: seq<Entry>, ds: seq<Delta>, keys: seq<Text>, r: seq<Entry>) {
    && Distinct(Keys(r))
    && (forall i :: 0 <= i < |r| ==> r[i].key in keys && PatchedKey(es, ds, r[i].key) == Own(r[i].value))
    && (forall k :: k in keys && PatchedKey(es, ds, k).Own? ==> HasKey(r, k))
  }

  lemma {:induction false} PatchKeysAre(es: seq<Entry>, ds: seq<Delta>, keys: seq<Text>)
    requires Depth(ds) > 0 && Distinct(keys)
    ensures KeepsPatched(es, ds, keys, PatchKeys(es, ds, keys))
  {
    hide PatchedKey;
    if keys != [] {
      assert keys == [keys[0]] + keys[1..];
      PatchKeysAre(es, ds, keys[1..]);
      PatchKeysStep(es, ds, keys);
      var r, rest := PatchKeys(es, ds, keys), PatchKeys(es, ds, keys[1..]);
      hide PatchKeys, Depth;
      var c := PatchedKey(es, ds, keys[0]);
      if c.Own? {
        KeepsOneMore(es, ds, keys[0], keys[1..], rest);
      }
    }
  }

  lemma {:induction false} KeepsOneMore(es: seq<Entry>, ds: seq<Delta>, key: Text, keys: seq<Text>, rest: seq<Entry>)
    requires KeepsPatched(es, ds, keys, rest) && key !in keys && PatchedKey(es, ds, key).Own?
    ensures KeepsPatched(es, ds, [key] + keys, [Entry(key, PatchedKey(es, ds, key).v)] + rest)
  {
    hide PatchedKey;
    var r := [Entry(key, PatchedKey(es, ds, key).v)] + rest;
    assert Keys(r) == [key] + Keys(rest);
    assert forall i :: 0 <= i < |rest| ==> Keys(rest)[i] == rest[i].key && Keys(rest)[i] in keys;
    assert r[0].key == key;
    forall k | HasKey(rest, k)
      ensures HasKey(r, k)
    {
      var i :| 0 <= i < |rest| && rest[i].key == k;
      assert r[i + 1].key == k;
    }
  }

  lemma {:induction false} PatchItemsAre(xs: seq<Json>, ds: seq<Delta>, i: nat, n: nat, ys: seq<Json>)
    requires Depth(ds) > 0 && i <= n && |ys| <= n
    requires forall j: nat :: Restores(PatchedItem(xs, ds, j), ItemSlot(ys, j))
    ensures var r := PatchItems(xs, ds, i, n);
            i <= |ys| ==> |r| == |ys| - i && forall j :: 0 <= j < |r| ==> WellFormed(r[j]) && Same(r[j], ys[i + j])
    ensures i > |ys| ==> PatchItems(xs, ds, i, n) == []
    decreases n - i
  {
    if i < n {
      PatchItemsAre(xs, ds, i + 1, n, ys);
      var c := PatchedItem(xs, ds, i);
      assert Restores(c, ItemSlot(ys, i));
      var r, rest := PatchItems(xs, ds, i, n), PatchItems(xs, ds, i + 1, n);
      assert r == if c.Own? then [c.v] + rest else rest;
      hide PatchItems, PatchedItem;
      if i < |ys| {
        forall j | 0 <= j < |r|
          ensures WellFormed(r[j]) && Same(r[j], ys[i + j])
        {
          if j > 0 { assert r[j] == rest[j - 1] && ys[i + j] == ys[(i + 1) + (j - 1)]; }
        }
      }
    }
  }

  // ---- the round trip ----

  /** What is left of the right slot after patching. */
  ghost predicate Restores(p: Slot, r: Slot) {
    (p.Own? <==> r.Own?) && (p.Own? ==> WellFormed(p.v) && Same(p.v, r.v))
  }

  ghost predicate DocumentSlot(s: Slot) { s.Own? ==> Document(s.v) }

  lemma {:induction false} ObjectRestored(l: Json, r: Json, groups: seq<Group>)
    requires l.Obj? && r.Obj? && Document(l) && Document(r) && GroupsOf(l, r, groups)
    requires Flatten(groups) != []
    requires forall i :: 0 <= i < |groups| ==>
               Restores(Patch(OwnSlot(l.entries, groups[i].segment), groups[i].deltas), OwnSlot(r.entries, groups[i].segment))
    ensures Restores(Patch(Own(l), Flatten(groups)), Own(r))
  {
    var ds := Flatten(groups);
    FlattenDescends(groups);
    var keys := Keys(l.entries) + NewKeys(l.entries, Heads(ds));
    KeysAndNewDistinct(l.entries, Heads(ds));
    var es := PatchKeys(l.entries, ds, keys);
    PatchKeysAre(l.entries, ds, keys);
    PatchObject(l, ds);
    forall k
      ensures Restores(PatchedKey(l.entries, ds, k), OwnSlot(r.entries, k))
      ensures HasKey(r.entries, k) ==> k in keys
    {
      ChildRestored(l, r, groups, k);
      if HasKey(r.entries, k) { KeyCovered(l, r, groups, k); }
    }
    EntriesRestored(l.entries, ds, keys, es, r.entries);
  }

  lemma {:induction false} EntriesRestored(base: seq<Entry>, ds: seq<Delta>, keys: seq<Text>, es: seq<Entry>, fs: seq<Entry>)
    requires KeepsPatched(base, ds, keys, es)
    requires forall k :: Restores(PatchedKey(base, ds, k), OwnSlot(fs, k))
    requires forall k :: HasKey(fs, k) ==> k in keys
    ensures Restores(Own(Obj(es)), Own(Obj(fs)))
  {
    hide PatchedKey;
    forall i | 0 <= i < |es|
      ensures HasKey(fs, es[i].key) && WellFormed(es[i].value) && Same(es[i].value, Get(fs, es[i].key))
    {
      assert Restores(PatchedKey(base, ds, es[i].key), OwnSlot(fs, es[i].key));
    }
    forall i | 0 <= i < |fs|
      ensures HasKey(es, fs[i].key)
    {
      assert HasKey(fs, fs[i].key);
      assert Restores(PatchedKey(base, ds, fs[i].key), OwnSlot(fs, fs[i].key));
    }
  }

  lemma PatchObject(l: Json, ds: seq<Delta>)
    requires l.Obj? && ds != [] && ds[0].path != []
    ensures Patch(Own(l), ds) == Own(Obj(PatchKeys(l.entries, ds, Keys(l.entries) + NewKeys(l.entries, Heads(ds)))))
  {
  }

  lemma {:induction false} KeysAndNewDistinct(es: seq<Entry>, ks: seq<Text>)
    requires Distinct(Keys(es)) && Distinct(ks)
    ensures Distinct(Keys(es) + NewKeys(es, ks))
  {
    NewKeysAre(es, ks);
    var all := Keys(es) + NewKeys(es, ks);
    forall i, j | 0 <= i < j < |all|
      ensures all[i] != all[j]
    {
      if i < |Keys(es)| <= j {
        KeysHave(es, all[i]);
        assert all[i] in Keys(es) && all[j] in NewKeys(es, ks);
      }
    }
  }

  lemma {:induction false} ChildRestored(l: Json, r: Json, groups: seq<Group>, k: Text)
    requires l.Obj? && r.Obj? && DistinctSegments(groups) && CoversKeys(l, r, groups)
    requires forall i :: 0 <= i < |groups| ==>
               Restores(Patch(OwnSlot(l.entries, groups[i].segment), groups[i].deltas), OwnSlot(r.entries, groups[i].segment))
    ensures Restores(PatchedKey(l.entries, Flatten(groups), k), OwnSlot(r.entries, k))
  {
    BelowFlatten(groups, k);
    hide Flatten, Below;
    if i :| 0 <= i < |groups| && groups[i].segment == k {
      assert Below(Flatten(groups), k) == groups[i].deltas;
    } else {
      assert Patch(OwnSlot(l.entries, k), []) == OwnSlot(l.entries, k);
      assert !HasKey(l.entries, k) && !HasKey(r.entries, k);
    }
  }

  lemma {:induction false} KeyCovered(l: Json, r: Json, groups: seq<Group>, k: Text)
    requires l.Obj? && r.Obj? && GroupsOf(l, r, groups) && HasKey(r.entries, k)
    ensures k in Keys(l.entries) + NewKeys(l.entries, Heads(Flatten(groups)))
  {
    hide Flatten, Below, Heads, NewKeys;
    KeysHave(l.entries, k);
    if !HasKey(l.entries, k) {
      var i :| 0 <= i < |groups| && groups[i].segment == k;
      assert groups[i].deltas != [] by { AbsentAdds(l, r, groups[i]); }
      BelowFlatten(groups, k);
      HeadsCover(Flatten(groups), k);
      NewKeysAre(l.entries, Heads(Flatten(groups)));
    }
  }

  lemma AbsentAdds(l: Json, r: Json, g: Group)
    requires l.Obj? && r.Obj? && Reaches(l, r, g) && !HasKey(l.entries, g.segment)
    ensures g.deltas != []
  {
  }

  lemma {:induction false} FlattenLength(groups: seq<Group>, a: nat)
    requires a <= |groups| && forall i :: a <= i < |groups| ==> groups[i].deltas != []
    ensures |Flatten(groups)| >= |groups| - a
  {
    if groups != [] {
      FlattenLength(groups[1..], if a == 0 then 0 else a - 1);
    }
  }

  lemma {:induction false} ArrayRestored(l: Json, r: Json, groups: seq<Group>)
    requires l.Arr? && r.Arr? && GroupsOf(l, r, groups) && Flatten(groups) != []
    requires forall i :: 0 <= i < |groups| ==>
               Restores(Patch(ItemSlot(l.items, i), groups[i].deltas), ItemSlot(r.items, i))
    ensures Restores(Patch(Own(l), Flatten(groups)), Own(r))
  {
    hide Patch, PatchItems, Flatten, Reaches, Decimal, PatchedItem, Restores, GroupsOf;
    var ds := Flatten(groups);
    FlattenDescends(groups);
    assert Depth(ds) > 0;
    forall j: nat ensures Restores(PatchedItem(l.items, ds, j), ItemSlot(r.items, j)) { ItemRestored(l, r, groups, j); }
    ArrayLongEnough(l, r, groups);
    PatchArray(l, ds);
    PatchItemsAre(l.items, ds, 0, |l.items| + |ds|, r.items);
    SameArrays(Patch(Own(l), ds).v, r);
  }

  lemma SameArrays(a: Json, b: Json)
    requires a.Arr? && b.Arr? && |a.items| == |b.items|
    requires forall j :: 0 <= j < |a.items| ==> WellFormed(a.items[j]) && Same(a.items[j], b.items[j])
    ensures Restores(Own(a), Own(b))
  {
  }

  lemma PatchArray(l: Json, ds: seq<Delta>)
    requires l.Arr? && ds != [] && ds[0].path != []
    ensures Patch(Own(l), ds) == Own(Arr(PatchItems(l.items, ds, 0, |l.items| + |ds|)))
  {
  }

  lemma {:induction false} ArrayLongEnough(l: Json, r: Json, groups: seq<Group>)
    requires l.Arr? && r.Arr? && GroupsOf(l, r, groups)
    ensures |r.items| <= |l.items| + |Flatten(groups)|
  {
    forall i | |l.items| <= i < |groups|
      ensures groups[i].deltas != []
    {
      assert Reaches(l, r, groups[i]);
      ParseIndexDecimal(i);
      assert Child(Own(l), groups[i].segment) == Missing;
    }
    FlattenLength(groups, if |l.items| < |groups| then |l.items| else |groups|);
  }

  lemma {:induction false} ItemRestored(l: Json, r: Json, groups: seq<Group>, j: nat)
    requires l.Arr? && r.Arr? && GroupsOf(l, r, groups)
    requires forall i :: 0 <= i < |groups| ==>
               Restores(Patch(ItemSlot(l.items, i), groups[i].deltas), ItemSlot(r.items, i))
    ensures Restores(PatchedItem(l.items, Flatten(groups), j), ItemSlot(r.items, j))
  {
    BelowFlatten(groups, Decimal(j));
    forall i | 0 <= i < |groups| && groups[i].segment == Decimal(j)
      ensures i == j
    {
      DecimalInjective(i, j);
    }
  }

  lemma {:induction false} ContainerRestored(l: Json, r: Json, groups: seq<Group>)
    requires Containers(l, r) && Document(l) && Document(r) && GroupsOf(l, r, groups) && Flatten(groups) != []
    requires forall i :: 0 <= i < |groups| ==>
               var ls, rs := Child(Own(l), groups[i].segment), Child(Own(r), groups[i].segment);
               Restores(Patch(if ls.Own? then ls else Missing, groups[i].deltas), rs)
    ensures Restores(Patch(Own(l), Flatten(groups)), Own(r))
  {
    hide Patch, Flatten, Reaches, Decimal;
    if l.Obj? {
      ObjectRestored(l, r, groups);
    } else {
      forall i | 0 <= i < |groups|
        ensures Child(Own(l), groups[i].segment) == ItemSlot(l.items, i)
        ensures Child(Own(r), groups[i].segment) == ItemSlot(r.items, i)
      {
        assert groups[i].segment == Decimal(i);
        ParseIndexDecimal(i);
      }
      ArrayRestored(l, r, groups);
    }
  }

  lemma {:induction false} LeafRestored(l: Slot, r: Slot)
    requires Present(l, r) && DocumentSlot(l) && DocumentSlot(r) && DiffSlots(l, r).Ok?
    requires !(l.Own? && r.Own? && Containers(l.v, r.v))
    ensures Restores(Patch(l, DiffSlots(l, r).value), r)
  {
    LeafDelta(l, r);
    if r.Own? { SameReflexive(r.v); }
    if l.Own? && r.Own? {
      assert DiffSlots(l, r) == DiffPresent(l.v, r) == DiffValues(l.v, r.v);
      LeafSame(l.v, r.v);
    }
  }

  /** Applying a diff to its left side gives its right side. */
  lemma {:induction false} PatchRestores(l: Slot, r: Slot)
    requires Present(l, r) && DocumentSlot(l) && DocumentSlot(r) && DiffSlots(l, r).Ok?
    ensures Restores(Patch(l, DiffSlots(l, r).value), r)
    decreases if l.Own? then l.v else Null, if l.Own? then 1 else 0
  {
    if l.Own? && r.Own? && Containers(l.v, r.v) {
      var groups := DiffGroups(l.v, r.v);
      assert DiffSlots(l, r) == DiffValues(l.v, r.v) == Ok(Flatten(groups));
      if Flatten(groups) == [] {
        EmptyIffSame(l.v, r.v);
        assert Patch(l, []) == l;
      } else {
        forall i | 0 <= i < |groups|
          ensures var ls, rs := Child(l, groups[i].segment), Child(r, groups[i].segment);
                  Restores(Patch(if ls.Own? then ls else Missing, groups[i].deltas), rs)
        {
          assert Reaches(l.v, r.v, groups[i]);
          hide Patch, DiffSlots, GroupsOf;
          var ls, rs := Child(l, groups[i].segment), Child(r, groups[i].segment);
          ChildDocument(l.v, groups[i].segment);
          ChildDocument(r.v, groups[i].segment);
          assert ls != Inherited by { InheritedFails(ls, rs); }
          if ls.Own? {
            PatchRestores(ls, rs);
          } else {
            LeafRestored(ls, rs);
          }
        }
        ContainerRestored(l.v, r.v, groups);
      }
    } else {
      LeafRestored(l, r);
    }
  }

  lemma {:induction false} InheritedFails(l: Slot, r: Slot)
    requires Present(l, r) && WellFormedSlot(l) && WellFormedSlot(r) && DiffSlots(l, r).Ok?
    ensures l != Inherited && r != Inherited
  {
    if l.Own? && !r.Own? { assert DiffSlots(l, r) == DiffPresent(l.v, r); }
  }
}
