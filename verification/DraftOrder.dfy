/** Which changes the diff of two drafts reports, and in which order. */
module DraftOrder {
  import opened Outcomes
  import opened Texts
  import opened Json
  import opened Canonical
  import opened Pointers
  import opened DraftDiff
  import opened DraftTools

  /** A change belongs to the diff of two slots: all along its path both sides are objects or both are arrays, and where
      the path ends a value is there on one side only, or two values that are not both objects or both arrays differ. */
  ghost predicate Differs(l: Slot, r: Slot, d: Delta)
    decreases |d.path|
  {
    if d.path == [] then
      || (l.Missing? && r.Own? && d.op == Add(r.v))
      || (l.Own? && r.Missing? && d.op == Remove(l.v))
      || (l.Own? && r.Own? && !BothContainers(l.v, r.v) && !Same(l.v, r.v) && d.op == Replace(l.v, r.v))
    else
      && l.Own? && r.Own? && BothContainers(l.v, r.v)
      && (l.v.Arr? ==> IsIndex(d.path[0]))
      && Differs(Child(l, d.path[0]), Child(r, d.path[0]), Delta(d.path[1..], d.op))
  }

  predicate BothContainers(l: Json, r: Json) { if l.Obj? then r.Obj? else l.Arr? && r.Arr? }

  /** An index as the diff writes it. */
  ghost predicate IsIndex(segment: Text) { exists i: nat :: segment == Decimal(i) }

  /** Paths are ordered by the first segment in which they differ: keys as strings, indices as numbers. */
  predicate Before(l: Slot, p: seq<Text>, q: seq<Text>)
    decreases |p|
  {
    && p != [] && q != [] && l.Own?
    && if p[0] == q[0] then Before(Child(l, p[0]), p[1..], q[1..])
       else if l.v.Arr? then IndexLess(ParseIndex(p[0]), ParseIndex(q[0]))
       else LexLess(p[0], q[0])
  }

  predicate IndexLess(a: Option<nat>, b: Option<nat>) { a.Some? && b.Some? && a.value < b.value }

  ghost predicate DocumentSlot(s: Slot) { s.Own? ==> Document(s.v) }

  // ---- exactly these changes ----

  ghost predicate InGroup(g: Group, d: Delta) {
    d.path != [] && d.path[0] == g.segment && Delta(d.path[1..], d.op) in g.deltas
  }

  lemma {:induction false} InExtend(g: Group, d: Delta)
    ensures d in Extend(g.segment, g.deltas) <==> InGroup(g, d)
  {
    var e := Extend(g.segment, g.deltas);
    if d in e {
      var i :| 0 <= i < |e| && e[i] == d;
      assert d.path[1..] == g.deltas[i].path;
    }
    if InGroup(g, d) {
      var i :| 0 <= i < |g.deltas| && g.deltas[i] == Delta(d.path[1..], d.op);
      assert d.path == [g.segment] + d.path[1..];
      assert e[i] == d;
    }
  }

  lemma {:induction false} InFlatten(groups: seq<Group>, d: Delta)
    ensures d in Flatten(groups) <==> exists i :: 0 <= i < |groups| && InGroup(groups[i], d)
  {
    if groups != [] {
      InExtend(groups[0], d);
      InFlatten(groups[1..], d);
      hide InGroup, Extend;
      if i :| 0 <= i < |groups| && InGroup(groups[i], d) && i > 0 { assert groups[1..][i - 1] == groups[i]; }
      if i :| 0 <= i < |groups[1..]| && InGroup(groups[1..][i], d) { assert groups[i + 1] == groups[1..][i]; }
    }
  }

  /** Where the diff does not descend. */
  lemma {:induction false} LeafExact(l: Slot, r: Slot, d: Delta)
    requires Present(l, r) && DocumentSlot(l) && DocumentSlot(r) && DiffSlots(l, r).Ok?
    requires !(l.Own? && r.Own? && Containers(l.v, r.v))
    ensures d in DiffSlots(l, r).value <==> Differs(l, r, d)
  {
    if l.Own? {
      assert DiffSlots(l, r) == DiffPresent(l.v, r);
      if r.Own? {
        assert DiffPresent(l.v, r) == DiffValues(l.v, r.v);
        LeafSame(l.v, r.v);
      }
    }
  }

  lemma {:induction false} GroupExact(l: Json, r: Json, g: Group, d: Delta)
    requires Document(l) && Document(r) && Containers(l, r) && Reaches(l, r, g) && (l.Arr? ==> IsIndex(g.segment))
    requires d.path != [] && d.path[0] == g.segment
    requires var below := Delta(d.path[1..], d.op);
             below in g.deltas <==> Differs(Child(Own(l), g.segment), Child(Own(r), g.segment), below)
    ensures InGroup(g, d) <==> Differs(Own(l), Own(r), d)
  {
  }

  /** A path that starts at a property or an index of neither side carries no change. */
  lemma {:induction false} NoGroup(l: Json, r: Json, groups: seq<Group>, d: Delta)
    requires Containers(l, r) && GroupsOf(l, r, groups) && Differs(Own(l), Own(r), d)
    ensures d.path != [] && exists i :: 0 <= i < |groups| && groups[i].segment == d.path[0]
  {
    assert d.path != [];
    var s := d.path[0];
    assert Child(Own(l), s).Own? || Child(Own(r), s).Own?;
    if l.Arr? {
      var n: nat :| s == Decimal(n);
      ParseIndexDecimal(n);
      assert groups[n].segment == s;
    }
  }

  /** The diff of two slots holds exactly the changes that belong to it. */
  lemma {:induction false} DeltasExact(l: Slot, r: Slot, d: Delta)
    requires Present(l, r) && DocumentSlot(l) && DocumentSlot(r) && DiffSlots(l, r).Ok?
    ensures d in DiffSlots(l, r).value <==> Differs(l, r, d)
    decreases |d.path|
  {
    if l.Own? && r.Own? && Containers(l.v, r.v) {
      var groups := DiffGroups(l.v, r.v);
      assert DiffSlots(l, r) == Ok(Flatten(groups));
      InFlatten(groups, d);
      forall i | 0 <= i < |groups| && d.path != [] && d.path[0] == groups[i].segment
        ensures InGroup(groups[i], d) <==> Differs(l, r, d)
      {
        var ls, rs := Child(l, groups[i].segment), Child(r, groups[i].segment);
        assert Reaches(l.v, r.v, groups[i]);
        ChildDocument(l.v, groups[i].segment);
        ChildDocument(r.v, groups[i].segment);
        DeltasExact(ls, rs, Delta(d.path[1..], d.op));
        GroupExact(l.v, r.v, groups[i], d);
      }
      hide DiffSlots, Flatten, Reaches, Child;
      if Differs(l, r, d) { NoGroup(l.v, r.v, groups, d); }
    } else {
      LeafExact(l, r, d);
    }
  }

  // ---- in this order ----

  ghost predicate Ordered(l: Slot, ds: seq<Delta>) {
    forall i, j :: 0 <= i < j < |ds| ==> Before(l, ds[i].path, ds[j].path)
  }

  predicate SegmentBefore(l: Json, a: Text, b: Text) {
    a != b && if l.Arr? then IndexLess(ParseIndex(a), ParseIndex(b)) else LexLess(a, b)
  }

  ghost predicate Ascend(l: Json, groups: seq<Group>) {
    forall i, j :: 0 <= i < j < |groups| ==> SegmentBefore(l, groups[i].segment, groups[j].segment)
  }

  lemma {:induction false} OrderedKeyGroups(l: Json, r: Json) returns (groups: seq<Group>)
    requires WellFormed(l) && WellFormed(r) && l.Obj? && r.Obj? && DiffValues(l, r).Ok?
    ensures GroupsOf(l, r, groups) && DiffValues(l, r) == Ok(Flatten(groups)) && Ascend(l, groups)
  {
    var keys := UnionKeys(l.entries, r.entries);
    UnionKeysAre(l.entries, r.entries);
    assert DiffKeys(l, r, keys).Ok?;
    groups := DiffKeys(l, r, keys).value;
    hide DiffKeys, DiffSlots, DiffValues, Reaches, GetSlot, GroupsOf, UnionKeys, SegmentBefore;
    KeyGroups(l, r, keys, groups);
    DiffKeysGroups(l, r, keys);
    forall i, j | 0 <= i < j < |groups|
      ensures SegmentBefore(l, groups[i].segment, groups[j].segment)
    {
      assert KeyGroup(l, r, keys[i], groups[i]) && KeyGroup(l, r, keys[j], groups[j]);
      KeyBefore(l, keys, i, j);
    }
  }

  lemma {:induction false} KeyBefore(l: Json, keys: seq<Text>, i: nat, j: nat)
    requires l.Obj? && LexSorted(keys) && i < j < |keys|
    ensures SegmentBefore(l, keys[i], keys[j])
  {
    LexIrreflexive(keys[i]);
  }

  lemma {:induction false} OrderedGroups(l: Json, r: Json) returns (groups: seq<Group>)
    requires WellFormed(l) && WellFormed(r) && Containers(l, r) && DiffValues(l, r).Ok?
    ensures GroupsOf(l, r, groups) && DiffValues(l, r) == Ok(Flatten(groups)) && Ascend(l, groups)
  {
    if l.Obj? {
      groups := OrderedKeyGroups(l, r);
    } else {
      groups := DiffArrayGroups(l, r);
      hide DiffValues, Decimal, ParseIndex, Reaches;
      forall i, j | 0 <= i < j < |groups|
        ensures SegmentBefore(l, groups[i].segment, groups[j].segment)
      {
        ParseIndexDecimal(i);
        ParseIndexDecimal(j);
      }
    }
  }

  lemma {:induction false} FlattenOrdered(l: Json, groups: seq<Group>)
    requires Ascend(l, groups)
    requires forall i :: 0 <= i < |groups| ==> Ordered(Child(Own(l), groups[i].segment), groups[i].deltas)
    ensures Ordered(Own(l), Flatten(groups))
  {
    hide Before, SegmentBefore, Child, Extend;
    if groups != [] {
      var g, rest := groups[0], groups[1..];
      var head, tail := Extend(g.segment, g.deltas), Flatten(rest);
      assert forall i :: 0 <= i < |rest| ==> rest[i] == groups[i + 1];
      FlattenOrdered(l, rest);
      forall i, j | 0 <= i < |head| && 0 <= j < |tail|
        ensures Before(Own(l), head[i].path, tail[j].path)
      {
        var k, m := FlattenAt(rest, j);
        assert SegmentBefore(l, groups[0].segment, groups[k + 1].segment);
        BeforeApart(l, g.segment, rest[k].segment, g.deltas[i].path, rest[k].deltas[m].path);
      }
      HeadOrdered(l, g);
      hide Flatten, Ascend;
      OrderedJoin(Own(l), head, tail);
    }
  }

  lemma {:induction false} HeadOrdered(l: Json, g: Group)
    requires Ordered(Child(Own(l), g.segment), g.deltas)
    ensures Ordered(Own(l), Extend(g.segment, g.deltas))
  {
    hide Before, Child;
    var head := Extend(g.segment, g.deltas);
    forall i, j | 0 <= i < j < |head|
      ensures Before(Own(l), head[i].path, head[j].path)
    {
      BeforeBelow(l, g.segment, g.deltas[i].path, g.deltas[j].path);
    }
  }

  lemma {:induction false} OrderedJoin(l: Slot, a: seq<Delta>, b: seq<Delta>)
    requires Ordered(l, a) && Ordered(l, b)
    requires forall i, j :: 0 <= i < |a| && 0 <= j < |b| ==> Before(l, a[i].path, b[j].path)
    ensures Ordered(l, a + b)
  {
    hide Before;
  }

  lemma {:induction false} BeforeBelow(l: Json, s: Text, p: seq<Text>, q: seq<Text>)
    requires Before(Child(Own(l), s), p, q)
    ensures Before(Own(l), [s] + p, [s] + q)
  {
    assert ([s] + p)[1..] == p && ([s] + q)[1..] == q;
  }

  lemma BeforeApart(l: Json, s: Text, t: Text, p: seq<Text>, q: seq<Text>)
    requires SegmentBefore(l, s, t)
    ensures Before(Own(l), [s] + p, [t] + q)
  {
  }

  lemma {:induction false} DeltasOrdered(l: Slot, r: Slot)
    requires Present(l, r) && WellFormedSlot(l) && WellFormedSlot(r) && DiffSlots(l, r).Ok?
    ensures Ordered(l, DiffSlots(l, r).value)
    decreases if l.Own? then l.v else Null, if l.Own? then 1 else 0
  {
    if l.Own? && r.Own? && Containers(l.v, r.v) {
      var groups := OrderedGroups(l.v, r.v);
      assert DiffSlots(l, r) == Ok(Flatten(groups));
      forall i | 0 <= i < |groups|
        ensures Ordered(Child(l, groups[i].segment), groups[i].deltas)
      {
        var ls, rs := Child(l, groups[i].segment), Child(r, groups[i].segment);
        assert Reaches(l.v, r.v, groups[i]);
        if ls.Own? { DeltasOrdered(ls, rs); } else { LeafDelta(ls, rs); }
      }
      hide DiffSlots, Child, GroupsOf;
      FlattenOrdered(l.v, groups);
    } else {
      LeafDelta(l, r);
    }
  }

  // ---- of the reported changes ----

  /** The reported changes are exactly those that belong to the diff, each under the pointer of its path and with the
      values both drafts have there, in ascending order of keys and indices: the list is determined. */
  lemma {:induction false} DraftDiffExact(left: Json, right: Json)
    requires Document(left) && Document(right) && DraftChanges(left, right).Ok?
    ensures var changes := DraftChanges(left, right).value;
            var ds := Decoded(changes);
            && (forall i :: 0 <= i < |changes| ==> changes[i] == Change(Pointer(ds[i].path), ds[i].op))
            && (forall d :: d in ds <==> Differs(Own(left), Own(right), d))
            && Ordered(Own(left), ds)
  {
    var ds := DiffValues(left, right).value;
    DiffCases(Own(left), Own(right), []);
    DecodedRendered(ds);
    assert Decoded(DraftChanges(left, right).value) == ds;
    forall i | 0 <= i < |ds|
      ensures DraftChanges(left, right).value[i] == Change(Pointer(ds[i].path), ds[i].op)
    {
      PointerOfDelta(left, right, i);
    }
    forall d ensures d in ds <==> Differs(Own(left), Own(right), d) { DeltasExact(Own(left), Own(right), d); }
    DeltasOrdered(Own(left), Own(right));
  }
}
