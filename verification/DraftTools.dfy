/** `diffDraftJson`: the loop that collects changes into one shared list, and what the list promises. */
module DraftTools {
  import opened Outcomes
  import opened Texts
  import opened Json
  import opened Canonical
  import opened CanonicalText
  import opened Pointers
  import opened DraftDiff
  import opened DraftPatch

  class ChangeList {
    var items: seq<Change>

    constructor ()
      ensures items == []
    {
      items := [];
    }

    method Push(change: Change)
      modifies this
      ensures items == old(items) + [change]
    {
      items := items + [change];
    }
  }

  /** Changes with pointers, below the value that `pointer` selects. */
  function Rendered(pointer: Text, ds: seq<Delta>): (r: seq<Change>)
    ensures |r| == |ds|
  {
    seq(|ds|, i requires 0 <= i < |ds| => Change(pointer + Pointer(ds[i].path), ds[i].op))
  }

  lemma RenderedConcat(pointer: Text, a: seq<Delta>, b: seq<Delta>)
    ensures Rendered(pointer, a + b) == Rendered(pointer, a) + Rendered(pointer, b)
  {
  }

  lemma {:induction false} RenderedExtend(pointer: Text, segment: Text, ds: seq<Delta>)
    ensures Rendered(pointer, Extend(segment, ds)) == Rendered(pointer + [SLASH] + EscapeJsonPointer(segment), ds)
  {
    var a := Rendered(pointer, Extend(segment, ds));
    var b := Rendered(pointer + [SLASH] + EscapeJsonPointer(segment), ds);
    forall i | 0 <= i < |ds|
      ensures a[i] == b[i]
    {
      assert ([segment] + ds[i].path)[1..] == ds[i].path;
      assert pointer + ([SLASH] + EscapeJsonPointer(segment) + Pointer(ds[i].path))
          == pointer + [SLASH] + EscapeJsonPointer(segment) + Pointer(ds[i].path);
    }
  }

  ghost predicate Collects(before: seq<Change>, after: seq<Change>, error: Option<DiffError>,
                           pointer: Text, d: Result<seq<Delta>, DiffError>) {
    match d
    case Ok(ds) => error == None && after == before + Rendered(pointer, ds)
    case Err(e) => error == Some(e)
  }

  /** What the loop over keys or indices still has to do, in terms of the groups left. */
  ghost predicate Collected(before: seq<Change>, now: seq<Change>, pointer: Text,
                            whole: Result<seq<Group>, DiffError>, left: Result<seq<Group>, DiffError>) {
    match left
    case Err(e) => whole == Err(e)
    case Ok(rest) => whole.Ok? && before + Rendered(pointer, Flatten(whole.value)) == now + Rendered(pointer, Flatten(rest))
  }

  lemma {:induction false} CollectedNext(before: seq<Change>, now: seq<Change>, next: seq<Change>, pointer: Text,
                                         whole: Result<seq<Group>, DiffError>,
                      g: Group, rest: Result<seq<Group>, DiffError>, left: Result<seq<Group>, DiffError>)
    requires left == match rest case Ok(gs) => Ok([g] + gs) case Err(e) => Err(e)
    requires Collected(before, now, pointer, whole, left)
    requires next == now + Rendered(pointer + [SLASH] + EscapeJsonPointer(g.segment), g.deltas)
    ensures Collected(before, next, pointer, whole, rest)
  {
    if rest.Ok? {
      assert ([g] + rest.value)[1..] == rest.value;
      RenderedExtend(pointer, g.segment, g.deltas);
      RenderedConcat(pointer, Extend(g.segment, g.deltas), Flatten(rest.value));
    }
  }

  /** `collectDiffChanges`. */
  method CollectDiffChanges(left: Slot, right: Slot, pointer: Text, changes: ChangeList) returns (error: Option<DiffError>)
    requires Present(left, right) && WellFormedSlot(left) && WellFormedSlot(right)
    modifies changes
    ensures Collects(old(changes.items), changes.items, error, pointer, DiffSlots(left, right))
    decreases if left.Own? then 1 else 0, if left.Own? then left.v else Null
  {
    DiffCases(left, right, pointer);
    assert Rendered(pointer, []) == [];
    assert changes.items + [] == changes.items;
    if left.Missing? {
      changes.Push(Change(pointer, Add(right.v)));
      return None;
    }
    if right.Missing? {
      changes.Push(Change(pointer, Remove(left.v)));
      return None;
    }
    if left.Own? && right.Own? && left.v.Obj? && right.v.Obj? {
      error := CollectKeys(left.v, right.v, pointer, changes);
      return;
    }
    if left.Own? && right.Own? && left.v.Arr? && right.v.Arr? {
      error := CollectItems(left.v, right.v, pointer, changes);
      return;
    }
    if left.Inherited? { return Some(UnsupportedValue); }
    var lt := LeafText(left.v);
    if lt.Err? { return Some(lt.error); }
    if right.Inherited? { return Some(UnsupportedValue); }
    var rt := LeafText(right.v);
    if rt.Err? { return Some(rt.error); }
    if lt != rt {
      changes.Push(Change(pointer, Replace(left.v, right.v)));
    }
    return None;
  }

  lemma {:induction false} DiffCases(left: Slot, right: Slot, pointer: Text)
    requires Present(left, right) && WellFormedSlot(left) && WellFormedSlot(right)
    ensures pointer + Pointer([]) == pointer
    ensures left.Own? ==> DiffSlots(left, right) == DiffPresent(left.v, right)
    ensures left.Own? && right.Own? ==> DiffSlots(left, right) == DiffValues(left.v, right.v)
    ensures left.Own? && right.Own? && !Containers(left.v, right.v) ==>
              var lt, rt := LeafText(left.v), LeafText(right.v);
              DiffValues(left.v, right.v) ==
                if lt.Err? then Err(lt.error) else if rt.Err? then Err(rt.error)
                else Ok(if lt != rt then [Delta([], Replace(left.v, right.v))] else [])
  {
    if left.Own? && right.Own? { assert DiffPresent(left.v, right) == DiffValues(left.v, right.v); }
  }

  method CollectKeys(left: Json, right: Json, pointer: Text, changes: ChangeList) returns (error: Option<DiffError>)
    requires left.Obj? && right.Obj? && WellFormed(left) && WellFormed(right)
    modifies changes
    ensures Collects(old(changes.items), changes.items, error, pointer, DiffValues(left, right))
    decreases 1, left, 0
  {
    UnionKeysAre(left.entries, right.entries);
    var keys := UnionKeys(left.entries, right.entries);
    ghost var before := changes.items;
    ghost var whole := DiffKeys(left, right, keys);
    for i := 0 to |keys|
      invariant Collected(before, changes.items, pointer, whole, DiffKeys(left, right, keys[i..]))
    {
      assert keys[i] in keys && keys[i..][0] == keys[i] && keys[i..][1..] == keys[i + 1..];
      var ls, rs := GetSlot(left.entries, keys[i]), GetSlot(right.entries, keys[i]);
      GetSmaller(left, keys[i]);
      GetSlotWellFormed(left.entries, keys[i]);
      GetSlotWellFormed(right.entries, keys[i]);
      ghost var now := changes.items;
      error := CollectDiffChanges(ls, rs, pointer + [SLASH] + EscapeJsonPointer(keys[i]), changes);
      if error.Some? { return; }
      CollectedNext(before, now, changes.items, pointer, whole, Group(keys[i], DiffSlots(ls, rs).value),
                    DiffKeys(left, right, keys[i + 1..]), DiffKeys(left, right, keys[i..]));
    }
    return None;
  }

  method CollectItems(left: Json, right: Json, pointer: Text, changes: ChangeList) returns (error: Option<DiffError>)
    requires left.Arr? && right.Arr? && WellFormed(left) && WellFormed(right)
    modifies changes
    ensures Collects(old(changes.items), changes.items, error, pointer, DiffValues(left, right))
    decreases 1, left, 0
  {
    var length := if |left.items| > |right.items| then |left.items| else |right.items|;
    ghost var before := changes.items;
    ghost var whole := DiffItems(left, right, 0);
    for i := 0 to length
      invariant Collected(before, changes.items, pointer, whole, DiffItems(left, right, i))
    {
      var ls, rs := ItemSlot(left.items, i), ItemSlot(right.items, i);
      ghost var now := changes.items;
      EscapeDecimal(i);
      error := CollectDiffChanges(ls, rs, pointer + [SLASH] + Decimal(i), changes);
      if error.Some? { return; }
      CollectedNext(before, now, changes.items, pointer, whole, Group(Decimal(i), DiffSlots(ls, rs).value),
                    DiffItems(left, right, i + 1), DiffItems(left, right, i));
    }
    return None;
  }

  /** The changes `diffDraftJson` reports. */
  function DraftChanges(left: Json, right: Json): Result<seq<Change>, DiffError>
    requires WellFormed(left) && WellFormed(right)
  {
    var ds :- DiffValues(left, right);
    Ok(Rendered([], ds))
  }

  method DiffDraftJson(left: Json, right: Json) returns (r: Result<seq<Change>, DiffError>)
    requires WellFormed(left) && WellFormed(right)
    ensures r == DraftChanges(left, right)
  {
    var changes := new ChangeList();
    var error := CollectDiffChanges(Own(left), Own(right), [], changes);
    DiffCases(Own(left), Own(right), []);
    ghost var ds := DiffValues(left, right);
    if ds.Ok? { assert [] + Rendered([], ds.value) == Rendered([], ds.value); }
    r := if error.Some? then Err(error.value) else Ok(changes.items);
  }

  // ---- what the reported changes promise ----

  /** Changes with their pointers read back as paths. */
  function Decoded(changes: seq<Change>): (r: seq<Delta>)
    ensures |r| == |changes|
  {
    seq(|changes|, i requires 0 <= i < |changes| =>
      Delta(Unescaped(SplitOn(changes[i].pointer, SLASH)[1..]), changes[i].op))
  }

  lemma {:induction false} DecodedRendered(ds: seq<Delta>)
    ensures Decoded(Rendered([], ds)) == ds
  {
    forall i | 0 <= i < |ds|
      ensures Decoded(Rendered([], ds))[i] == ds[i]
    {
      assert [] + Pointer(ds[i].path) == Pointer(ds[i].path);
      PointerRoundTrip(ds[i].path);
    }
  }

  /** Reading the reported pointers back and applying all changes to the left draft gives the right draft. */
  lemma {:induction false} DraftDiffRoundTrip(left: Json, right: Json)
    requires Document(left) && Document(right) && DraftChanges(left, right).Ok?
    ensures var p := Patch(Own(left), Decoded(DraftChanges(left, right).value));
            p.Own? && WellFormed(p.v) && Same(p.v, right)
  {
    DiffCases(Own(left), Own(right), []);
    DecodedRendered(DiffValues(left, right).value);
    PatchRestores(Own(left), Own(right));
  }

  /** Nothing is reported exactly when the two drafts have the same canonical JSON. */
  lemma {:induction false} DraftDiffEmptyIffCanonicalEqual(left: Json, right: Json)
    requires Document(left) && Document(right) && AllFinite(left) && AllFinite(right) && DraftChanges(left, right).Ok?
    ensures DraftChanges(left, right).value == [] <==> CanonicalJsonStringify(left) == CanonicalJsonStringify(right)
  {
    EmptyIffSame(left, right);
    CanonicalJsonEqualIffSame(left, right);
  }

  lemma {:induction false} PrefixPointers(a: seq<Text>, b: seq<Text>)
    requires SplitOn(Pointer(a), SLASH) <= SplitOn(Pointer(b), SLASH)
    ensures a <= b
  {
    PointerRoundTrip(a);
    PointerRoundTrip(b);
    forall n | 0 <= n < |a|
      ensures n < |b| && a[n] == b[n]
    {
      assert SplitOn(Pointer(a), SLASH)[n + 1] == SplitOn(Pointer(b), SLASH)[n + 1];
      assert Unescaped(SplitOn(Pointer(a), SLASH)[1..])[n] == UnescapeSegment(SplitOn(Pointer(a), SLASH)[n + 1]);
      assert Unescaped(SplitOn(Pointer(b), SLASH)[1..])[n] == UnescapeSegment(SplitOn(Pointer(b), SLASH)[n + 1]);
    }
  }

  /** The pointer of a reported change is that of its path. */
  lemma {:induction false} PointerOfDelta(left: Json, right: Json, i: nat)
    requires WellFormed(left) && WellFormed(right) && DraftChanges(left, right).Ok? && i < |DraftChanges(left, right).value|
    ensures DiffValues(left, right).Ok? && i < |DiffValues(left, right).value|
    ensures DraftChanges(left, right).value[i] == Change(Pointer(DiffValues(left, right).value[i].path), DiffValues(left, right).value[i].op)
  {
    hide DiffValues, Pointer;
    var p := Pointer(DiffValues(left, right).value[i].path);
    assert [] + p == p;
  }

  /** No two reported changes have the same pointer, and none lies below another. */
  lemma {:induction false} DraftDiffPointersApart(left: Json, right: Json, i: nat, j: nat)
    requires Document(left) && Document(right) && DraftChanges(left, right).Ok?
    requires i < |DraftChanges(left, right).value| && j < |DraftChanges(left, right).value| && i != j
    ensures var p, q := DraftChanges(left, right).value[i].pointer, DraftChanges(left, right).value[j].pointer;
            p != q && !(SplitOn(p, SLASH) <= SplitOn(q, SLASH))
  {
    assert WellFormed(left) && WellFormed(right);
    hide *;
    PointerOfDelta(left, right, i);
    PointerOfDelta(left, right, j);
    PathsApart(left, right, i, j);
    PointersApart(DiffValues(left, right).value[i].path, DiffValues(left, right).value[j].path);
  }

  lemma {:induction false} PathsApart(left: Json, right: Json, i: nat, j: nat)
    requires WellFormed(left) && WellFormed(right) && DiffValues(left, right).Ok?
    requires i < |DiffValues(left, right).value| && j < |DiffValues(left, right).value| && i != j
    ensures !(DiffValues(left, right).value[i].path <= DiffValues(left, right).value[j].path)
  {
    hide DiffValues, WellFormed;
    DeltasIncomparable(Own(left), Own(right));
  }

  lemma {:induction false} PointersApart(a: seq<Text>, b: seq<Text>)
    requires !(a <= b)
    ensures Pointer(a) != Pointer(b) && !(SplitOn(Pointer(a), SLASH) <= SplitOn(Pointer(b), SLASH))
  {
    hide *;
    if SplitOn(Pointer(a), SLASH) <= SplitOn(Pointer(b), SLASH) { PrefixPointers(a, b); }
  }

  lemma {:induction false} ChildIsNotParent(v: Json, segment: Text)
    ensures Child(Own(v), segment) != Own(v)
  {
    match v
    case Arr(items) => if Child(Own(v), segment).Own? { var i :| 0 <= i < |items| && Child(Own(v), segment).v == items[i]; }
    case Obj(_) => GetSmaller(v, segment);
    case _ =>
  }

  /** A reported pointer reads its own left value in the left draft and its own right value in the right draft,
      exactly unless it is the pointer `/`, which `valueAt` takes for the root. */
  lemma {:induction false} DraftDiffPointersResolveIff(left: Json, right: Json, i: nat)
    requires Document(left) && Document(right) && DraftChanges(left, right).Ok?
    requires i < |DraftChanges(left, right).value|
    ensures var c := DraftChanges(left, right).value[i];
            Resolve(left, c.pointer) == LeftOf(c.op) && Resolve(right, c.pointer) == RightOf(c.op) <==> c.pointer != [SLASH]
  {
    DiffCases(Own(left), Own(right), []);
    DeltasLocate(Own(left), Own(right));
    var d := DiffValues(left, right).value[i];
    assert Locates(Own(left), Own(right), d);
    assert [] + Pointer(d.path) == Pointer(d.path);
    assert Pointer([[]]) == [SLASH];
    if Pointer(d.path) == [SLASH] { PointerInjective(d.path, [[]]); }
    hide DiffValues, EscapeJsonPointer, Unescaped, SplitOn, Child;
    ResolvePointer(left, d.path);
    ResolvePointer(right, d.path);
    if d.path == [[]] { ChildIsNotParent(left, []); }
  }

  lemma {:induction false} OnlyEmptyKey(keys: seq<Text>)
    requires Distinct(keys) && [] in keys && forall k :: k in keys ==> k == []
    ensures keys == [[]]
  {
    if |keys| >= 2 { FirstTwoDiffer(keys); }
    assert keys[0] in keys;
  }

  lemma FirstTwoDiffer(keys: seq<Text>)
    requires Distinct(keys) && |keys| >= 2
    ensures keys[0] in keys && keys[1] in keys && keys[0] != keys[1]
  {
  }

  lemma {:induction false} EmptyRootKeyGroup(v: Json)
    requires WellFormed(v)
    ensures WellFormed(Obj([])) && WellFormed(Obj([Entry([], v)])) && HasKey([Entry([], v)], [])
    ensures DiffKeys(Obj([]), Obj([Entry([], v)]), [[]]) == Ok([Group([], [Delta([], Add(v))])])
  {
    var left, right, g := Obj([]), Obj([Entry([], v)]), Group([], [Delta([], Add(v))]);
    assert right.entries[0].key == [];
    assert !IsInheritedName([]);
    var keys: seq<Text> := [[]];
    assert keys[1..] == [] && DiffKeys(left, right, []) == Ok([]);
    assert GetSlot(left.entries, []) == Missing && GetSlot(right.entries, []) == Own(v);
    assert DiffAbsent(Missing, Own(v)) == Ok([Delta([], Add(v))]);
    assert [g] + [] == [g];
  }

  /** At an empty root key the reported pointer reads the root instead of the value there. */
  lemma {:induction false} EmptyRootKeyMisread(v: Json)
    requires WellFormed(v)
    ensures WellFormed(Obj([])) && WellFormed(Obj([Entry([], v)]))
    ensures var left, right := Obj([]), Obj([Entry([], v)]);
            DraftChanges(left, right) == Ok([Change([SLASH], Add(v))]) && Resolve(right, [SLASH]) == Own(right) != Own(v)
  {
    var left, right := Obj([]), Obj([Entry([], v)]);
    assert right.entries[0].key == [];
    UnionKeysAre([], right.entries);
    assert HasKey(right.entries, []);
    var keys := UnionKeys([], right.entries);
    assert forall k :: k in keys ==> k == [];
    OnlyEmptyKey(keys);
    var g := Group([], [Delta([], Add(v))]);
    EmptyRootKeyGroup(v);
    assert Flatten([g]) == [Delta([[]], Add(v))];
    assert DiffValues(left, right) == Ok([Delta([[]], Add(v))]);
    assert [] + Pointer([[]]) == [SLASH];
    assert Rendered([], [Delta([[]], Add(v))]) == [Change([SLASH], Add(v))];
    assert Pointer([[]]) == [SLASH];
    assert right.entries[0].value < right;
  }

  // ---- when a diff exists ----

  /** Wherever the diff descends into two objects, a name that only one of them has is not one that every object
      inherits, and wherever it compares two leaves, they carry JSON numbers only. */
  ghost predicate Diffable(left: Json, right: Json)
    decreases left
  {
    if left.Obj? && right.Obj? then forall k :: DiffableAt(left, right, k)
    else if left.Arr? && right.Arr? then
      forall i :: 0 <= i < |left.items| && i < |right.items| ==> Diffable(left.items[i], right.items[i])
    else AllFinite(left) && AllFinite(right)
  }

  ghost predicate DiffableAt(left: Json, right: Json, k: Text)
    requires left.Obj? && right.Obj?
    decreases left, 0
  {
    if HasKey(left.entries, k) && HasKey(right.entries, k) then Diffable(Get(left.entries, k), Get(right.entries, k))
    else (HasKey(left.entries, k) || HasKey(right.entries, k)) ==> !IsInheritedName(k)
  }

  lemma {:induction false} DiffOkIff(left: Json, right: Json)
    requires WellFormed(left) && WellFormed(right)
    ensures DiffValues(left, right).Ok? <==> Diffable(left, right)
    decreases left, 1, 0
  {
    if left.Obj? && right.Obj? {
      UnionKeysAre(left.entries, right.entries);
      DiffKeysOkIff(left, right, UnionKeys(left.entries, right.entries));
    } else if left.Arr? && right.Arr? {
      DiffItemsOkIff(left, right, 0);
    } else {
      CanonicalizeOkIff(left);
      CanonicalizeOkIff(right);
    }
  }

  lemma {:induction false} DiffKeysOkIff(left: Json, right: Json, keys: seq<Text>)
    requires left.Obj? && right.Obj? && WellFormed(left) && WellFormed(right)
    requires forall k :: k in keys ==> HasKey(left.entries, k) || HasKey(right.entries, k)
    ensures DiffKeys(left, right, keys).Ok? <==> forall k :: k in keys ==> DiffableAt(left, right, k)
    decreases left, 0, |keys|
  {
    if keys != [] {
      assert keys == [keys[0]] + keys[1..];
      assert keys[0] in keys;
      DiffKeysOkIff(left, right, keys[1..]);
      if HasKey(left.entries, keys[0]) && HasKey(right.entries, keys[0]) {
        DiffOkIff(Get(left.entries, keys[0]), Get(right.entries, keys[0]));
      }
      hide Diffable, DiffValues, IsInheritedName, LeafText;
    }
  }

  ghost predicate DiffableFrom(left: Json, right: Json, i: nat)
    requires left.Arr? && right.Arr?
  {
    forall n :: i <= n < |left.items| && n < |right.items| ==> Diffable(left.items[n], right.items[n])
  }

  lemma DiffableFromNext(left: Json, right: Json, i: nat)
    requires left.Arr? && right.Arr?
    ensures DiffableFrom(left, right, i) <==>
            (i < |left.items| && i < |right.items| ==> Diffable(left.items[i], right.items[i])) && DiffableFrom(left, right, i + 1)
  {
  }

  lemma {:induction false} DiffItemsOkIff(left: Json, right: Json, i: nat)
    requires left.Arr? && right.Arr? && WellFormed(left) && WellFormed(right)
    ensures DiffItems(left, right, i).Ok? <==> DiffableFrom(left, right, i)
    decreases left, 0, |left.items| + |right.items| - i
  {
    if i < |left.items| || i < |right.items| {
      DiffItemsOkIff(left, right, i + 1);
      DiffableFromNext(left, right, i);
      if i < |left.items| && i < |right.items| {
        DiffOkIff(left.items[i], right.items[i]);
      }
      hide Diffable, DiffValues, DiffableFrom, LeafText;
    }
  }

  /** Two drafts have a diff exactly when no two objects that it descends into differ in a name such as
      `constructor`, and the leaves it compares carry JSON numbers only. */
  lemma {:induction false} DraftDiffOkIff(left: Json, right: Json)
    requires Document(left) && Document(right)
    ensures DraftChanges(left, right).Ok? <==> Diffable(left, right)
  {
    DiffCases(Own(left), Own(right), []);
    DiffOkIff(left, right);
  }
}
