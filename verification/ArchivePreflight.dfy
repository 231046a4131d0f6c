/** The check an authoring context archive passes before it is unpacked. */
module ArchivePreflight {
  import opened Outcomes
  import opened Texts

  /** An entry that passed path validation, or one that did not. */
  datatype Entry =
    | Unsafe
    | Accepted(path: Text, isDirectory: bool, size: nat)

  datatype Limits = Limits(maxEntries: nat, maxExpandedBytes: nat)

  datatype Inspection = Inspection(entries: nat, expandedBytes: nat, files: seq<Text>)

  datatype Violation =
    | TooManyEntries
    | UnsafePath
    | DuplicatePath(path: Text)
    | HasDescendant(path: Text)
    | UnderFile(path: Text, parent: Text)
    | TooManyBytes

  datatype Progress = Progress(inspection: Inspection, seenPaths: set<Text>, seenFilePaths: set<Text>)

  const START: Progress := Progress(Inspection(0, 0, []), {}, {})

  predicate HasDescendantPath(seenPaths: set<Text>, path: Text) {
    exists seen :: seen in seenPaths && LiesUnder(path, seen)
  }

  /** The first of the proper ancestors of a path, from the top, that is a seen file. */
  function ParentFileFrom(seenFilePaths: set<Text>, parts: seq<Text>, index: nat): Option<Text>
    requires 1 <= index <= |parts|
    decreases |parts| - index
  {
    if index == |parts| then None
    else if JoinWith(parts[..index], SLASH) in seenFilePaths then Some(JoinWith(parts[..index], SLASH))
    else ParentFileFrom(seenFilePaths, parts, index + 1)
  }

  function ParentFileConflict(seenFilePaths: set<Text>, path: Text): Option<Text> {
    ParentFileFrom(seenFilePaths, SplitOn(path, SLASH), 1)
  }

  /** `onentry` for one entry. */
  function Visit(limits: Limits, p: Progress, e: Entry): Result<Progress, Violation> {
    var entries := p.inspection.entries + 1;
    if entries > limits.maxEntries then Err(TooManyEntries)
    else if e.Unsafe? then Err(UnsafePath)
    else if e.path in p.seenPaths then Err(DuplicatePath(e.path))
    else if HasDescendantPath(p.seenPaths, e.path) then Err(HasDescendant(e.path))
    else if ParentFileConflict(p.seenFilePaths, e.path).Some? then
      Err(UnderFile(e.path, ParentFileConflict(p.seenFilePaths, e.path).value))
    else if e.isDirectory then
      Ok(p.(inspection := p.inspection.(entries := entries), seenPaths := p.seenPaths + {e.path}))
    else if p.inspection.expandedBytes + e.size > limits.maxExpandedBytes then Err(TooManyBytes)
    else
      Ok(Progress(Inspection(entries, p.inspection.expandedBytes + e.size, p.inspection.files + [e.path]),
                  p.seenPaths + {e.path}, p.seenFilePaths + {e.path}))
  }

  function VisitAll(limits: Limits, entries: seq<Entry>): Result<Progress, Violation> {
    if entries == [] then Ok(START) else
      var p :- VisitAll(limits, entries[..|entries| - 1]);
      Visit(limits, p, entries[|entries| - 1])
  }

  method FindParentFile(seenFilePaths: set<Text>, path: Text) returns (parent: Option<Text>)
    ensures parent == ParentFileConflict(seenFilePaths, path)
  {
    var parts := SplitOn(path, SLASH);
    for index := 1 to |parts|
      invariant ParentFileFrom(seenFilePaths, parts, index) == ParentFileConflict(seenFilePaths, path)
    {
      var candidate := JoinWith(parts[..index], SLASH);
      if candidate in seenFilePaths { return Some(candidate); }
    }
    return None;
  }

  /** `preflightAuthoringContextArchive`: the callback keeps the first violation and ignores what follows. */
  method Preflight(limits: Limits, entries: seq<Entry>) returns (r: Result<Inspection, Violation>)
    ensures r == match VisitAll(limits, entries) case Ok(p) => Ok(p.inspection) case Err(v) => Err(v)
  {
    var count: nat, expandedBytes: nat, files := 0, 0, [];
    var seenPaths, seenFilePaths: set<Text> := {}, {};
    var violation: Option<Violation> := None;
    assert entries[..0] == [];
    for i := 0 to |entries|
      invariant match VisitAll(limits, entries[..i])
                case Ok(p) => violation.None? && p == Progress(Inspection(count, expandedBytes, files), seenPaths, seenFilePaths)
                case Err(v) => violation == Some(v)
    {
      assert entries[..i + 1][..i] == entries[..i];
      if violation.Some? { continue; }
      var entry := entries[i];
      count := count + 1;
      if count > limits.maxEntries {
        violation := Some(TooManyEntries);
        continue;
      }
      if entry.Unsafe? {
        violation := Some(UnsafePath);
        continue;
      }
      if entry.path in seenPaths {
        violation := Some(DuplicatePath(entry.path));
        continue;
      }
      if HasDescendantPath(seenPaths, entry.path) {
        violation := Some(HasDescendant(entry.path));
        continue;
      }
      var parent := FindParentFile(seenFilePaths, entry.path);
      if parent.Some? {
        violation := Some(UnderFile(entry.path, parent.value));
        continue;
      }
      seenPaths := seenPaths + {entry.path};
      if entry.isDirectory { continue; }
      seenFilePaths := seenFilePaths + {entry.path};
      files := files + [entry.path];
      expandedBytes := expandedBytes + entry.size;
      if expandedBytes > limits.maxExpandedBytes {
        violation := Some(TooManyBytes);
      }
    }
    assert entries[..|entries|] == entries;
    if violation.Some? { return Err(violation.value); }
    return Ok(Inspection(count, expandedBytes, files));
  }

  // ---- what is accepted ----

  function Total(entries: seq<Entry>): nat {
    if entries == [] then 0 else
      var last := entries[|entries| - 1];
      Total(entries[..|entries| - 1]) + if last.Accepted? && !last.isDirectory then last.size else 0
  }

  function Files(entries: seq<Entry>): seq<Text> {
    if entries == [] then [] else
      var last := entries[|entries| - 1];
      Files(entries[..|entries| - 1]) + if last.Accepted? && !last.isDirectory then [last.path] else []
  }

  /** An earlier and a later entry that can stand in one archive. */
  predicate Compatible(earlier: Entry, later: Entry) {
    && earlier.Accepted? && later.Accepted?
    && earlier.path != later.path
    && !LiesUnder(later.path, earlier.path)
    && (earlier.isDirectory || !LiesUnder(earlier.path, later.path))
  }

  ghost predicate AllCompatible(entries: seq<Entry>) {
    && (forall i :: 0 <= i < |entries| ==> entries[i].Accepted?)
    && (forall i, j :: 0 <= i < j < |entries| ==> Compatible(entries[i], entries[j]))
  }

  ghost predicate Acceptable(limits: Limits, entries: seq<Entry>) {
    |entries| <= limits.maxEntries && AllCompatible(entries) && Total(entries) <= limits.maxExpandedBytes
  }

  /** What the two sets hold after the entries. */
  ghost predicate Tracks(p: Progress, entries: seq<Entry>) {
    && p.inspection == Inspection(|entries|, Total(entries), Files(entries))
    && (forall path :: path in p.seenPaths <==> exists i :: 0 <= i < |entries| && entries[i].Accepted? && entries[i].path == path)
    && (forall path :: path in p.seenFilePaths <==>
          exists i :: 0 <= i < |entries| && entries[i].Accepted? && entries[i].path == path && !entries[i].isDirectory)
  }

  /** The loop over ancestors finds a file exactly when the path lies under one. */
  lemma {:induction false} ParentFileIff(seenFilePaths: set<Text>, path: Text)
    ensures ParentFileConflict(seenFilePaths, path).Some? <==> exists f :: f in seenFilePaths && LiesUnder(f, path)
    ensures var parent := ParentFileConflict(seenFilePaths, path);
            parent.Some? ==> parent.value in seenFilePaths && LiesUnder(parent.value, path)
  {
    ParentFrom(seenFilePaths, path, 1);
    if f :| f in seenFilePaths && LiesUnder(f, path) {
      SplitLonger(f, path);
      var parts, n := SplitOn(path, SLASH), |SplitOn(f, SLASH)|;
      assert parts[..n] == SplitOn(f, SLASH);
      JoinSplit(f, SLASH);
    }
  }

  lemma {:induction false} ParentFrom(seenFilePaths: set<Text>, path: Text, index: nat)
    requires 1 <= index <= |SplitOn(path, SLASH)|
    ensures var parts, parent := SplitOn(path, SLASH), ParentFileFrom(seenFilePaths, SplitOn(path, SLASH), index);
            && (parent.Some? ==> parent.value in seenFilePaths && LiesUnder(parent.value, path))
            && (forall n: nat :: index <= n < |parts| && JoinWith(parts[..n], SLASH) in seenFilePaths ==> parent.Some?)
    decreases |SplitOn(path, SLASH)| - index
  {
    var parts := SplitOn(path, SLASH);
    if index < |parts| {
      ParentFrom(seenFilePaths, path, index + 1);
      JoinLonger(parts[..index], parts);
      JoinSplit(path, SLASH);
      hide SplitOn, JoinWith;
    }
  }

  lemma {:induction false} VisitOkIff(limits: Limits, p: Progress, init: seq<Entry>, e: Entry)
    requires Tracks(p, init)
    ensures Visit(limits, p, e).Ok? <==>
              && |init| < limits.maxEntries && e.Accepted?
              && (forall i :: 0 <= i < |init| && init[i].Accepted? ==> Compatible(init[i], e))
              && (e.isDirectory || Total(init) + e.size <= limits.maxExpandedBytes)
  {
    if e.Accepted? {
      ParentFileIff(p.seenFilePaths, e.path);
      hide ParentFileConflict, Total, Files, LiesUnder;
      if i :| 0 <= i < |init| && init[i].Accepted? && !Compatible(init[i], e) {
        assert init[i].path in p.seenPaths;
      }
    }
  }

  lemma {:induction false} VisitTracks(limits: Limits, p: Progress, init: seq<Entry>, e: Entry)
    requires Tracks(p, init) && Visit(limits, p, e).Ok?
    ensures Tracks(Visit(limits, p, e).value, init + [e])
  {
    var q, all := Visit(limits, p, e).value, init + [e];
    assert all[..|all| - 1] == init;
    hide ParentFileConflict, HasDescendantPath;
    forall path
      ensures path in q.seenPaths <==> exists i :: 0 <= i < |all| && all[i].Accepted? && all[i].path == path
      ensures path in q.seenFilePaths <==> exists i :: 0 <= i < |all| && all[i].Accepted? && all[i].path == path && !all[i].isDirectory
    {
      assert all[|init|] == e;
      assert forall i :: 0 <= i < |init| ==> all[i] == init[i];
    }
  }

  lemma {:induction false} AcceptableSnoc(limits: Limits, init: seq<Entry>, e: Entry)
    ensures Acceptable(limits, init + [e]) <==>
              && Acceptable(limits, init) && |init| < limits.maxEntries && e.Accepted?
              && (forall i :: 0 <= i < |init| && init[i].Accepted? ==> Compatible(init[i], e))
              && (e.isDirectory || Total(init) + e.size <= limits.maxExpandedBytes)
  {
    var all := init + [e];
    assert all[..|all| - 1] == init && all[|init|] == e;
    assert forall i :: 0 <= i < |init| ==> all[i] == init[i];
    hide Compatible, LiesUnder;
    if Acceptable(limits, all) {
      forall i, j | 0 <= i < j < |init| ensures Compatible(init[i], init[j]) { assert Compatible(all[i], all[j]); }
      forall i | 0 <= i < |init| ensures Compatible(init[i], e) { assert Compatible(all[i], all[|init|]); }
    }
  }

  /** An archive is accepted exactly when its entries are safe, within both limits, and pairwise compatible:
      no two paths equal, no entry after something below it, and nothing below an earlier file. */
  lemma {:induction false} PreflightIff(limits: Limits, entries: seq<Entry>)
    ensures VisitAll(limits, entries).Ok? <==> Acceptable(limits, entries)
    ensures VisitAll(limits, entries).Ok? ==> Tracks(VisitAll(limits, entries).value, entries)
  {
    if entries != [] {
      var init, e := entries[..|entries| - 1], entries[|entries| - 1];
      assert entries == init + [e];
      PreflightIff(limits, init);
      AcceptableSnoc(limits, init, e);
      if VisitAll(limits, init).Ok? {
        var p := VisitAll(limits, init).value;
        VisitOkIff(limits, p, init, e);
        if Visit(limits, p, e).Ok? { VisitTracks(limits, p, init, e); }
      }
      hide Acceptable, Tracks, Visit, Compatible;
    }
  }

  /** An accepted archive is a file tree: paths are distinct, only directories have anything below them, and a
      directory entry comes before all that is below it. */
  lemma {:induction false} AcceptedIsTree(limits: Limits, entries: seq<Entry>, i: nat, j: nat)
    requires VisitAll(limits, entries).Ok? && i < |entries| && j < |entries|
    ensures entries[i].Accepted? && entries[j].Accepted?
    ensures entries[i].path == entries[j].path ==> i == j
    ensures LiesUnder(entries[i].path, entries[j].path) ==> i < j && entries[i].isDirectory
  {
    PreflightIff(limits, entries);
    if i < j {
      assert Compatible(entries[i], entries[j]);
    } else if j < i {
      assert Compatible(entries[j], entries[i]);
    }
  }

  /** Why entry `e` cannot follow the accepted entries `init`: each reason stands for the absence of those before it. */
  ghost predicate Explains(limits: Limits, init: seq<Entry>, e: Entry, v: Violation) {
    match v
    case TooManyEntries => |init| + 1 > limits.maxEntries
    case UnsafePath => |init| < limits.maxEntries && e.Unsafe?
    case DuplicatePath(path) => |init| < limits.maxEntries && e.Accepted? && path == e.path && Listed(init, path)
    case HasDescendant(path) =>
      |init| < limits.maxEntries && e.Accepted? && path == e.path && !Listed(init, path) && ListedBelow(init, path)
    case UnderFile(path, parent) =>
      && |init| < limits.maxEntries && e.Accepted? && path == e.path && !Listed(init, path) && !ListedBelow(init, path)
      && LiesUnder(parent, path)
      && exists i :: 0 <= i < |init| && init[i].Accepted? && init[i].path == parent && !init[i].isDirectory
    case TooManyBytes =>
      && |init| < limits.maxEntries && e.Accepted? && !e.isDirectory && Total(init) + e.size > limits.maxExpandedBytes
      && forall i :: 0 <= i < |init| && init[i].Accepted? ==> Compatible(init[i], e)
  }

  ghost predicate Listed(init: seq<Entry>, path: Text) {
    exists i :: 0 <= i < |init| && init[i].Accepted? && init[i].path == path
  }

  ghost predicate ListedBelow(init: seq<Entry>, path: Text) {
    exists i :: 0 <= i < |init| && init[i].Accepted? && LiesUnder(path, init[i].path)
  }

  lemma {:induction false} VisitExplains(limits: Limits, p: Progress, init: seq<Entry>, e: Entry)
    requires Tracks(p, init) && Visit(limits, p, e).Err?
    ensures Explains(limits, init, e, Visit(limits, p, e).error)
  {
    if e.Accepted? {
      ParentFileIff(p.seenFilePaths, e.path);
      hide ParentFileConflict, Total, Files, LiesUnder;
    }
  }

  /** A refusal names the first entry that makes the archive unacceptable, and why. */
  lemma {:induction false} RefusalExplained(limits: Limits, entries: seq<Entry>) returns (i: nat)
    requires VisitAll(limits, entries).Err?
    ensures i < |entries| && Acceptable(limits, entries[..i]) && !Acceptable(limits, entries[..i + 1])
    ensures Explains(limits, entries[..i], entries[i], VisitAll(limits, entries).error)
  {
    var n := |entries| - 1;
    var init := entries[..n];
    if VisitAll(limits, init).Err? {
      i := RefusalExplained(limits, init);
      assert init[..i] == entries[..i] && init[..i + 1] == entries[..i + 1];
    } else {
      i := n;
      PreflightIff(limits, init);
      PreflightIff(limits, entries);
      assert entries[..n + 1] == entries;
      VisitExplains(limits, VisitAll(limits, init).value, init, entries[n]);
    }
  }
}
