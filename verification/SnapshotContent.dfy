/** What a runtime snapshot holds: which part of which file stands where, and which paths are reported instead. */
module SnapshotContent {
  import opened Outcomes
  import opened Texts
  import opened Json
  import opened CanonicalText
  import opened Pointers
  import opened Snapshot

  /** The payload limit less what is kept for the envelope. */
  const LIMIT: nat := 4_194_304 - 131_072

  predicate FitsIn(t: Tally, v: Json) { t.used + Size(v) <= LIMIT }

  /** From `t` to `u` the path is charged and reported, if it fits. */
  predicate Reports(t: Tally, u: Tally, path: Text) {
    if t.used + Size(Str(path)) <= LIMIT then u == Tally(t.used + Size(Str(path)), t.omitted + [path]) else u == t
  }

  // ---- one trial ----

  /** What becomes of a trial: nothing of it is included, or its summary, and perhaps its trace and its events. */
  datatype Part = Left | Kept(traced: bool, evented: bool)

  predicate PartOf(trial: Trial, part: Part) {
    part.Kept? ==> trial.summary.Read? && (part.traced ==> trial.trace.Read?) && (part.evented ==> trial.events.Lines?)
  }

  /** The item of a trial: its own identifier, summary, trace and events, each under its name. */
  function ItemOf(trial: Trial, traced: bool, evented: bool): Json
    requires PartOf(trial, Kept(traced, evented))
  {
    Obj([Entry(Ascii("trial_id"), Str(trial.id)), Entry(Ascii("summary"), trial.summary.value)]
        + (if traced then [Entry(Ascii("contract_trace"), trial.trace.value)] else [])
        + (if evented then [Entry(Ascii("trial_events"), Arr(trial.events.items))] else []))
  }

  function SummaryPath(id: Text): Text { Ascii("trials/") + id + Ascii("/summary.json") }

  function TracePath(id: Text): Text { Ascii("trials/") + id + Ascii("/runner/contract_trace.json") }

  function EventsPath(id: Text): Text { Ascii("trials/") + id + Ascii("/agent/events.jsonl") }

  /** The trace is included exactly if it was read and the candidate with it fits, and reported if it was read or left out
      and is not included; then the events likewise, and once more if they were cut; then the item as a whole. */
  ghost predicate ReadOutcome(before: Tally, after: Tally, trial: Trial, part: Part, traced: bool, evented: bool,
                              m1: Tally, m2: Tally, m3: Tally)
    requires trial.summary.Read?
  {
    && (traced <==> trial.trace.Read? && FitsIn(before, ItemOf(trial, true, false)))
    && (if trial.trace.Missing? || traced then m1 == before else Reports(before, m1, TracePath(trial.id)))
    && (evented <==> trial.events.Lines? && FitsIn(m1, ItemOf(trial, traced, true)))
    && (if trial.events.NoLines? || evented then m2 == m1 else Reports(m1, m2, EventsPath(trial.id)))
    && (if trial.events.Lines? && trial.events.truncated then Reports(m2, m3, EventsPath(trial.id)) else m3 == m2)
    && if FitsIn(m3, ItemOf(trial, traced, evented))
       then part == Kept(traced, evented) && after == Tally(m3.used + Size(ItemOf(trial, traced, evented)), m3.omitted)
       else part == Left && Reports(m3, after, SummaryPath(trial.id))
  }

  ghost predicate TrialOutcome(before: Tally, after: Tally, trial: Trial, part: Part) {
    match trial.summary
    case Missing => part == Left && after == before
    case Omitted => part == Left && Reports(before, after, SummaryPath(trial.id))
    case Read(_) => exists traced, evented, m1, m2, m3 :: ReadOutcome(before, after, trial, part, traced, evented, m1, m2, m3)
  }

  function IncludedItem(trial: Trial, part: Part): Option<Json>
    requires PartOf(trial, part)
  {
    if part.Left? then None else Some(ItemOf(trial, part.traced, part.evented))
  }

  lemma OmitReports(t: Tally, path: Text)
    ensures Reports(t, Omit(t, path), path)
  {
  }

  lemma {:induction false} TraceOutcome(t: Tally, trial: Trial) returns (traced: bool, m1: Tally)
    requires trial.summary.Read?
    ensures traced <==> trial.trace.Read? && FitsIn(t, ItemOf(trial, true, false))
    ensures if trial.trace.Missing? || traced then m1 == t else Reports(t, m1, TracePath(trial.id))
    ensures var start := [Entry(Ascii("trial_id"), Str(trial.id)), Entry(Ascii("summary"), trial.summary.value)];
            && WithTrace(t, start, trial).0 == m1 && Obj(WithTrace(t, start, trial).1) == ItemOf(trial, traced, false)
  {
    hide Size, Ascii, Omit;
    var start := [Entry(Ascii("trial_id"), Str(trial.id)), Entry(Ascii("summary"), trial.summary.value)];
    traced := trial.trace.Read? && FitsIn(t, ItemOf(trial, true, false));
    m1 := WithTrace(t, start, trial).0;
    OmitReports(t, TracePath(trial.id));
    assert start + [] == start;
    if trial.trace.Read? { assert ItemOf(trial, true, false) == Obj(start + [Entry(Ascii("contract_trace"), trial.trace.value)]); }
    assert TrialPath(trial.id, "/runner/contract_trace.json") == TracePath(trial.id);
  }

  lemma {:induction false} EventsOutcome(t: Tally, trial: Trial, traced: bool) returns (evented: bool, m2: Tally, m3: Tally)
    requires PartOf(trial, Kept(traced, false))
    ensures evented <==> trial.events.Lines? && FitsIn(t, ItemOf(trial, traced, true))
    ensures if trial.events.NoLines? || evented then m2 == t else Reports(t, m2, EventsPath(trial.id))
    ensures if trial.events.Lines? && trial.events.truncated then Reports(m2, m3, EventsPath(trial.id)) else m3 == m2
    ensures var item := ItemOf(trial, traced, false).entries;
            && WithEvents(t, item, trial).0 == m3 && Obj(WithEvents(t, item, trial).1) == ItemOf(trial, traced, evented)
  {
    var item := ItemOf(trial, traced, false).entries;
    assert trial.events.Lines? ==> ItemOf(trial, traced, true).entries == item + [Entry(Ascii("trial_events"), Arr(trial.events.items))];
    assert TrialPath(trial.id, "/agent/events.jsonl") == EventsPath(trial.id);
    hide Size, Ascii, Omit, ItemOf, TrialPath, EventsPath;
    evented := trial.events.Lines? && FitsIn(t, ItemOf(trial, traced, true));
    m2 := if trial.events.NoLines? || evented then t else Omit(t, EventsPath(trial.id));
    m3 := WithEvents(t, item, trial).0;
    OmitReports(t, EventsPath(trial.id));
    OmitReports(m2, EventsPath(trial.id));
  }

  lemma {:induction false} CollectRead(t: Tally, trial: Trial, item: seq<Entry>, m3: Tally)
    requires trial.summary.Read?
    requires var start := [Entry(Ascii("trial_id"), Str(trial.id)), Entry(Ascii("summary"), trial.summary.value)];
             var traced := WithTrace(t, start, trial);
             WithEvents(traced.0, traced.1, trial) == (m3, item)
    ensures CollectTrial(t, trial) == if FitsIn(m3, Obj(item)) then (Tally(m3.used + Size(Obj(item)), m3.omitted), Some(Obj(item)))
                                      else (Omit(m3, TrialPath(trial.id, "/summary.json")), None)
  {
    hide Size, Ascii, Omit, TrialPath, WithTrace, WithEvents;
  }

  lemma SummaryPathIs(trial: Trial)
    ensures TrialPath(trial.id, "/summary.json") == SummaryPath(trial.id)
  {
  }

  lemma ItemIsObject(trial: Trial, traced: bool, evented: bool)
    requires PartOf(trial, Kept(traced, evented))
    ensures ItemOf(trial, traced, evented).Obj?
  {
  }

  lemma {:induction false} ReadOutcomeIs(t: Tally, trial: Trial) returns (part: Part)
    requires trial.summary.Read?
    ensures PartOf(trial, part) && CollectTrial(t, trial).1 == IncludedItem(trial, part)
    ensures TrialOutcome(t, CollectTrial(t, trial).0, trial, part)
  {
    SummaryPathIs(trial);
    var after := CollectTrial(t, trial).0;
    hide Size, Ascii, Omit, TrialPath, SummaryPath, TracePath, EventsPath, WithTrace, WithEvents, ItemOf, CollectTrial, Reports, FitsIn;
    var traced, m1 := TraceOutcome(t, trial);
    var evented, m2, m3 := EventsOutcome(m1, trial, traced);
    var item := ItemOf(trial, traced, evented);
    ItemIsObject(trial, traced, evented);
    CollectRead(t, trial, item.entries, m3);
    OmitReports(m3, SummaryPath(trial.id));
    part := if FitsIn(m3, item) then Kept(traced, evented) else Left;
    assert ReadOutcome(t, after, trial, part, traced, evented, m1, m2, m3);
  }

  lemma {:induction false} TrialOutcomeIs(t: Tally, trial: Trial) returns (part: Part)
    ensures PartOf(trial, part) && CollectTrial(t, trial).1 == IncludedItem(trial, part)
    ensures TrialOutcome(t, CollectTrial(t, trial).0, trial, part)
  {
    if trial.summary.Read? {
      part := ReadOutcomeIs(t, trial);
    } else {
      assert TrialPath(trial.id, "/summary.json") == SummaryPath(trial.id);
      OmitReports(t, SummaryPath(trial.id));
      part := Left;
    }
  }

  // ---- the trials of a run ----

  /** The items that are included, in the order of their trials. */
  function Items(trials: seq<Trial>, parts: seq<Part>): seq<Json>
    requires |parts| == |trials| && forall n :: 0 <= n < |trials| ==> PartOf(trials[n], parts[n])
  {
    if trials == [] then [] else
      var k := |trials| - 1;
      Items(trials[..k], parts[..k]) + if parts[k].Left? then [] else [ItemOf(trials[k], parts[k].traced, parts[k].evented)]
  }

  /** The tallies before each trial and after the last. */
  ghost predicate Course(trials: seq<Trial>, parts: seq<Part>, tallies: seq<Tally>) {
    && |parts| == |trials| && |tallies| == |trials| + 1
    && forall n :: 0 <= n < |trials| ==> PartOf(trials[n], parts[n]) && TrialOutcome(tallies[n], tallies[n + 1], trials[n], parts[n])
  }

  lemma {:induction false} CourseGrows(trials: seq<Trial>, parts: seq<Part>, tallies: seq<Tally>, part: Part, after: Tally)
    requires trials != [] && Course(trials[..|trials| - 1], parts, tallies)
    requires PartOf(trials[|trials| - 1], part)
    requires TrialOutcome(tallies[|trials| - 1], after, trials[|trials| - 1], part)
    ensures Course(trials, parts + [part], tallies + [after])
    ensures var item := IncludedItem(trials[|trials| - 1], part);
            Items(trials, parts + [part]) == Items(trials[..|trials| - 1], parts) + if item.None? then [] else [item.value]
  {
    var k := |trials| - 1;
    var allParts, all := parts + [part], tallies + [after];
    assert allParts[..k] == parts;
    hide TrialOutcome, ItemOf, PartOf;
    forall n | 0 <= n < |trials| ensures PartOf(trials[n], allParts[n]) && TrialOutcome(all[n], all[n + 1], trials[n], allParts[n]) {
      if n < k { assert trials[..k][n] == trials[n]; }
    }
  }

  lemma {:induction false} CollectTrialsStep(t: Tally, trials: seq<Trial>, before: Tally, items: seq<Json>)
    requires trials != [] && CollectTrials(t, trials[..|trials| - 1]) == (before, items)
    ensures var (after, item) := CollectTrial(before, trials[|trials| - 1]);
            CollectTrials(t, trials) == (after, items + if item.None? then [] else [item.value])
  {
    assert items + [] == items;
    hide CollectTrial;
  }

  /** The state after some turns of the loop is reached by outcomes of its trials, and the items are those included. */
  lemma {:induction false} TrialsCourse(t: Tally, trials: seq<Trial>) returns (parts: seq<Part>, tallies: seq<Tally>)
    ensures Course(trials, parts, tallies) && tallies[0] == t
    ensures CollectTrials(t, trials) == (tallies[|trials|], Items(trials, parts))
  {
    parts, tallies := [], [t];
    if trials != [] {
      var k := |trials| - 1;
      parts, tallies := TrialsCourse(t, trials[..k]);
      var part := TrialOutcomeIs(tallies[k], trials[k]);
      var after := CollectTrial(tallies[k], trials[k]).0;
      CollectTrialsStep(t, trials, tallies[k], Items(trials[..k], parts));
      CourseGrows(trials, parts, tallies, part, after);
      hide CollectTrials, CollectTrial, TrialOutcome, ItemOf, PartOf, Items, Course;
      parts, tallies := parts + [part], tallies + [after];
    }
  }

  // ---- the runtime files ----

  predicate RuntimeOutcome(before: Tally, after: Tally, file: RuntimeFile, kept: bool) {
    match file.content
    case Missing => !kept && after == before
    case Omitted => !kept && Reports(before, after, file.path)
    case Read(value) =>
      if FitsIn(before, value) then kept && after == Tally(before.used + Size(value), before.omitted)
      else !kept && Reports(before, after, file.path)
  }

  ghost predicate RuntimeCourse(files: seq<RuntimeFile>, kept: seq<bool>, tallies: seq<Tally>) {
    && |kept| == |files| && |tallies| == |files| + 1
    && forall n :: 0 <= n < |files| ==> (kept[n] ==> files[n].content.Read?) && RuntimeOutcome(tallies[n], tallies[n + 1], files[n], kept[n])
  }

  /** The values that are included, each under the key of its own file, in the order of the files. */
  function Values(files: seq<RuntimeFile>, kept: seq<bool>): seq<Entry>
    requires |kept| == |files| && forall n :: 0 <= n < |files| ==> kept[n] ==> files[n].content.Read?
  {
    if files == [] then [] else
      var k := |files| - 1;
      Values(files[..k], kept[..k]) + if kept[k] then [Entry(files[k].key, files[k].content.value)] else []
  }

  function OneIf(included: bool, name: string, file: ObjectFile): seq<Entry>
    requires included ==> file.Read?
  {
    if included then [Entry(Ascii(name), file.value)] else []
  }

  /** The three runtime files of a run: where each is looked for, and under which name its value stands. */
  lemma {:induction false} RuntimeNamed(control: ObjectFile, progress: ObjectFile, session: ObjectFile, kept: seq<bool>)
    requires var files := [control, progress, session];
             |kept| == 3 && forall n :: 0 <= n < 3 ==> kept[n] ==> files[n].Read?
    ensures var files := RuntimeFiles(control, progress, session);
            && |files| == 3 && files[0].content == control && files[1].content == progress && files[2].content == session
            && files[0].path == Ascii("runtime/run_control.json") && files[1].path == Ascii("runtime/schedule_progress.json")
            && files[2].path == Ascii("runtime/run_session_state.json")
            && Values(files, kept) == OneIf(kept[0], "run_control_v2", control) + OneIf(kept[1], "schedule_progress_v2", progress)
                                      + OneIf(kept[2], "run_session_state_v1", session)
  {
    var files := RuntimeFiles(control, progress, session);
    hide Ascii;
    assert files[..2][..1] == files[..1] && kept[..2][..1] == kept[..1] && files[..1][..0] == [];
    assert Values(files[..1], kept[..1]) == OneIf(kept[0], "run_control_v2", control);
    assert Values(files[..2], kept[..2]) == Values(files[..1], kept[..1]) + OneIf(kept[1], "schedule_progress_v2", progress);
  }

  lemma {:induction false} RuntimeCourseGrows(files: seq<RuntimeFile>, kept: seq<bool>, tallies: seq<Tally>, last: bool, after: Tally)
    requires files != [] && RuntimeCourse(files[..|files| - 1], kept, tallies) && (last ==> files[|files| - 1].content.Read?)
    requires RuntimeOutcome(tallies[|files| - 1], after, files[|files| - 1], last)
    ensures RuntimeCourse(files, kept + [last], tallies + [after])
    ensures var file := files[|files| - 1];
            Values(files, kept + [last]) == Values(files[..|files| - 1], kept) + if last then [Entry(file.key, file.content.value)] else []
  {
    var k := |files| - 1;
    var allKept, all := kept + [last], tallies + [after];
    assert allKept[..k] == kept;
    hide RuntimeOutcome;
    forall n | 0 <= n < |files|
      ensures (allKept[n] ==> files[n].content.Read?) && RuntimeOutcome(all[n], all[n + 1], files[n], allKept[n])
    {
      if n < k { assert files[..k][n] == files[n]; }
    }
  }

  lemma {:induction false} RuntimeTurn(t: Tally, files: seq<RuntimeFile>, before: Tally, values: seq<Entry>) returns (kept: bool)
    requires files != [] && CollectRuntime(t, files[..|files| - 1]) == (before, values)
    ensures var file := files[|files| - 1];
            && (kept ==> file.content.Read?) && RuntimeOutcome(before, CollectRuntime(t, files).0, file, kept)
            && CollectRuntime(t, files).1 == values + if kept then [Entry(file.key, file.content.value)] else []
  {
    var file := files[|files| - 1];
    hide Size, Omit;
    OmitReports(before, file.path);
    kept := file.content.Read? && FitsIn(before, file.content.value);
    assert values + [] == values;
  }

  lemma {:induction false} RuntimeCourseIs(t: Tally, files: seq<RuntimeFile>) returns (kept: seq<bool>, tallies: seq<Tally>)
    ensures RuntimeCourse(files, kept, tallies) && tallies[0] == t
    ensures CollectRuntime(t, files) == (tallies[|files|], Values(files, kept))
  {
    kept, tallies := [], [t];
    if files != [] {
      var k := |files| - 1;
      kept, tallies := RuntimeCourseIs(t, files[..k]);
      var last := RuntimeTurn(t, files, tallies[k], Values(files[..k], kept));
      var after := CollectRuntime(t, files).0;
      RuntimeCourseGrows(files, kept, tallies, last, after);
      hide CollectRuntime, RuntimeOutcome, Values, RuntimeCourse;
      kept, tallies := kept + [last], tallies + [after];
    }
  }

  // ---- what is reported ----

  predicate Grows(t: Tally, u: Tally) { t.used <= u.used && t.omitted <= u.omitted }

  /** The path is reported, unless there is no room for it in the end. */
  predicate Noted(end: Tally, path: Text) { path in end.omitted || end.used + Size(Str(path)) > LIMIT }

  lemma {:induction false} ReportsNoted(t: Tally, u: Tally, end: Tally, path: Text)
    requires Reports(t, u, path) && Grows(u, end)
    ensures Grows(t, end) && Noted(end, path)
  {
    hide Size;
    if path in u.omitted {
      var i :| 0 <= i < |u.omitted| && u.omitted[i] == path;
      assert end.omitted[i] == path;
    }
  }

  lemma {:induction false} NotedLater(t: Tally, u: Tally, path: Text)
    requires Grows(t, u) && Noted(t, path)
    ensures Noted(u, path)
  {
    hide Size;
    if path in t.omitted {
      var i :| 0 <= i < |t.omitted| && t.omitted[i] == path;
      assert u.omitted[i] == path;
    }
  }

  lemma GrowsOn(t: Tally, u: Tally, v: Tally)
    requires Grows(t, u) && Grows(u, v)
    ensures Grows(t, v)
  {
  }

  /** Every part of the trial that is there and is not included has its path noted, and so have events that were cut. */
  predicate TrialNoted(end: Tally, trial: Trial, part: Part) {
    && (part.Left? && !trial.summary.Missing? ==> Noted(end, SummaryPath(trial.id)))
    && (trial.summary.Read? && trial.trace.Omitted? ==> Noted(end, TracePath(trial.id)))
    && (part.Kept? && !part.traced && trial.trace.Read? ==> Noted(end, TracePath(trial.id)))
    && (trial.summary.Read? && trial.events.LinesOmitted? ==> Noted(end, EventsPath(trial.id)))
    && (trial.summary.Read? && trial.events.Lines? && trial.events.truncated ==> Noted(end, EventsPath(trial.id)))
    && (part.Kept? && !part.evented && trial.events.Lines? ==> Noted(end, EventsPath(trial.id)))
  }

  lemma {:induction false} ReadNoted(before: Tally, after: Tally, trial: Trial, part: Part, traced: bool, evented: bool,
                                     m1: Tally, m2: Tally, m3: Tally, end: Tally)
    requires trial.summary.Read? && ReadOutcome(before, after, trial, part, traced, evented, m1, m2, m3) && Grows(after, end)
    ensures Grows(before, end) && TrialNoted(end, trial, part)
  {
    hide Size, Reports, Noted, ItemOf, FitsIn, TracePath, EventsPath, SummaryPath;
    if part.Left? { ReportsNoted(m3, after, end, SummaryPath(trial.id)); }
    if part.Kept? { GrowsOn(m3, after, end); }
    if trial.events.Lines? && trial.events.truncated { ReportsNoted(m2, m3, end, EventsPath(trial.id)); }
    if !(trial.events.NoLines? || evented) { ReportsNoted(m1, m2, end, EventsPath(trial.id)); }
    if !(trial.trace.Missing? || traced) { ReportsNoted(before, m1, end, TracePath(trial.id)); }
  }

  lemma {:induction false} TrialIsNoted(before: Tally, after: Tally, trial: Trial, part: Part, end: Tally)
    requires TrialOutcome(before, after, trial, part) && Grows(after, end)
    ensures Grows(before, end) && TrialNoted(end, trial, part)
  {
    hide Size, Reports, Noted, ItemOf, FitsIn, TracePath, EventsPath, SummaryPath, ReadOutcome, Grows;
    match trial.summary
    case Missing =>
    case Omitted => ReportsNoted(before, after, end, SummaryPath(trial.id));
    case Read(_) =>
      var traced, evented, m1, m2, m3 :| ReadOutcome(before, after, trial, part, traced, evented, m1, m2, m3);
      ReadNoted(before, after, trial, part, traced, evented, m1, m2, m3, end);
  }

  lemma {:induction false} CourseNoted(trials: seq<Trial>, parts: seq<Part>, tallies: seq<Tally>, n: nat, end: Tally)
    requires Course(trials, parts, tallies) && n <= |trials| && Grows(tallies[|trials|], end)
    ensures Grows(tallies[n], end) && forall m :: n <= m < |trials| ==> TrialNoted(end, trials[m], parts[m])
    decreases |trials| - n
  {
    hide TrialOutcome, TrialNoted, Grows, PartOf;
    if n < |trials| {
      CourseNoted(trials, parts, tallies, n + 1, end);
      TrialIsNoted(tallies[n], tallies[n + 1], trials[n], parts[n], end);
    }
  }

  lemma {:induction false} RuntimeNoted(files: seq<RuntimeFile>, kept: seq<bool>, tallies: seq<Tally>, n: nat, end: Tally)
    requires RuntimeCourse(files, kept, tallies) && n <= |files| && Grows(tallies[|files|], end)
    ensures Grows(tallies[n], end)
    ensures forall m :: n <= m < |files| && !kept[m] && !files[m].content.Missing? ==> Noted(end, files[m].path)
    decreases |files| - n
  {
    hide Noted, Size;
    if n < |files| {
      RuntimeNoted(files, kept, tallies, n + 1, end);
      assert RuntimeOutcome(tallies[n], tallies[n + 1], files[n], kept[n]);
      if !kept[n] && !files[n].content.Missing? { ReportsNoted(tallies[n], tallies[n + 1], end, files[n].path); }
      hide Reports;
    }
  }

  lemma {:induction false} OmitAllNoted(t: Tally, paths: seq<Text>, end: Tally)
    requires Grows(OmitAll(t, paths), end)
    ensures Grows(t, end) && forall i :: 0 <= i < |paths| ==> Noted(end, paths[i])
    decreases |paths|
  {
    hide Noted, Grows, Omit, Reports;
    if paths != [] {
      OmitAllNoted(Omit(t, paths[0]), paths[1..], end);
      OmitReports(t, paths[0]);
      ReportsNoted(t, Omit(t, paths[0]), end, paths[0]);
      assert forall i :: 1 <= i < |paths| ==> paths[i] == paths[1..][i - 1];
    }
  }

  // ---- the evidence records ----

  /** The records kept are the first of the file, up to one for which there was no room; the file is noted if any is
      missing, if it was cut, or if it was left out. */
  ghost predicate EvidenceHeld(end: Tally, evidence: LinesFile, kept: seq<Json>) {
    match evidence
    case NoLines => kept == []
    case LinesOmitted => kept == [] && Noted(end, EVIDENCE_FILE)
    case Lines(items, truncated) =>
      && kept <= items
      && (|kept| < |items| ==> end.used + Size(items[|kept|]) > LIMIT)
      && (truncated || |kept| < |items| ==> Noted(end, EVIDENCE_FILE))
  }

  const EVIDENCE_FILE: Text := Ascii("evidence/evidence_records.jsonl")

  lemma {:induction false} RecordsHeld(t: Tally, records: seq<Json>, end: Tally)
    requires Grows(CollectRecords(t, records).0, end)
    ensures var kept := CollectRecords(t, records).1;
            && Grows(t, end) && kept <= records
            && (|kept| < |records| ==> end.used + Size(records[|kept|]) > LIMIT && Noted(end, EVIDENCE_FILE))
    decreases |records|
  {
    hide Size, Omit, Noted, Reports;
    if records != [] {
      if Fits(t, records[0]) {
        var rest := CollectRecords(Charge(t, records[0]), records[1..]).1;
        RecordsHeld(Charge(t, records[0]), records[1..], end);
        assert ([records[0]] + rest)[1..] == rest && records == [records[0]] + records[1..];
        GrowsOn(t, Charge(t, records[0]), end);
      } else {
        OmitReports(t, EVIDENCE_FILE);
        ReportsNoted(t, Omit(t, EVIDENCE_FILE), end, EVIDENCE_FILE);
      }
    }
  }

  lemma {:induction false} EvidenceIsHeld(t: Tally, evidence: LinesFile, end: Tally)
    requires Grows(CollectEvidence(t, evidence).0, end)
    ensures Grows(t, end) && EvidenceHeld(end, evidence, CollectEvidence(t, evidence).1)
  {
    hide Size, Omit, Noted, Reports, CollectRecords, Grows;
    match evidence
    case NoLines =>
    case LinesOmitted =>
      OmitReports(t, EVIDENCE_FILE);
      ReportsNoted(t, Omit(t, EVIDENCE_FILE), end, EVIDENCE_FILE);
    case Lines(items, truncated) =>
      var after := CollectRecords(t, items).0;
      if truncated {
        OmitReports(after, EVIDENCE_FILE);
        ReportsNoted(after, Omit(after, EVIDENCE_FILE), end, EVIDENCE_FILE);
      }
      RecordsHeld(t, items, end);
  }

  // ---- the whole snapshot ----

  /** The first 200 trials. */
  function Considered(trials: seq<Trial>): seq<Trial> { if |trials| > 200 then trials[..200] else trials }

  /** What the snapshot holds: each runtime value under the key of its own file; the items of a subsequence of the first
      200 trials; the first evidence records; and the paths of whatever else was there, as far as there is room. */
  ghost predicate Holds(s: Snapshot, coreRunId: Text, runtime: seq<RuntimeFile>, trials: seq<Trial>, evidence: LinesFile,
                        kept: seq<bool>, before: seq<Tally>, parts: seq<Part>, tallies: seq<Tally>) {
    var end := Tally(s.used, s.omitted);
    && s.coreRunId == coreRunId
    && RuntimeCourse(runtime, kept, before) && before[0] == Tally(0, []) && s.runtimeValues == Values(runtime, kept)
    && Course(Considered(trials), parts, tallies) && tallies[0] == Tally(before[|runtime|].used, [])
    && s.trialSummaries == Items(Considered(trials), parts)
    && (forall n :: 0 <= n < |runtime| && !kept[n] && !runtime[n].content.Missing? ==> Noted(end, runtime[n].path))
    && (forall n :: 0 <= n < |Considered(trials)| ==> TrialNoted(end, Considered(trials)[n], parts[n]))
    && (|trials| > 200 ==> Noted(end, Ascii("trials")))
    && EvidenceHeld(end, evidence, s.evidenceRecords)
  }

  lemma {:induction false} NotedOuter(t2: Tally, t4: Tally, t5: Tally, end: Tally, path: Text)
    requires t5 == OmitAll(t4, t2.omitted) && t2.used <= t4.used && Grows(t5, end) && Noted(t2, path)
    ensures Noted(end, path)
  {
    OmitAllNoted(t4, t2.omitted, end);
    hide OmitAll, Size;
  }

  lemma {:induction false} TrialNotedOuter(t2: Tally, t4: Tally, t5: Tally, end: Tally, trial: Trial, part: Part)
    requires t5 == OmitAll(t4, t2.omitted) && t2.used <= t4.used && Grows(t5, end) && TrialNoted(t2, trial, part)
    ensures TrialNoted(end, trial, part)
  {
    forall path | Noted(t2, path) ensures Noted(end, path) { NotedOuter(t2, t4, t5, end, path); }
    hide Noted, OmitAll, SummaryPath, TracePath, EventsPath;
  }

  lemma {:induction false} AllTrialsNoted(trials: seq<Trial>, parts: seq<Part>, tallies: seq<Tally>, t4: Tally, t5: Tally, end: Tally)
    requires Course(trials, parts, tallies)
    requires t5 == OmitAll(t4, tallies[|trials|].omitted) && tallies[|trials|].used <= t4.used && Grows(t5, end)
    ensures forall n :: 0 <= n < |trials| ==> TrialNoted(end, trials[n], parts[n])
  {
    CourseNoted(trials, parts, tallies, 0, tallies[|trials|]);
    hide TrialNoted, Course, OmitAll;
    forall n | 0 <= n < |trials| ensures TrialNoted(end, trials[n], parts[n]) {
      TrialNotedOuter(tallies[|trials|], t4, t5, end, trials[n], parts[n]);
    }
  }

  /** The notes of the three collectors, through the reports that follow them. */
  lemma {:induction false} AllNoted(runtime: seq<RuntimeFile>, kept: seq<bool>, before: seq<Tally>, first: seq<Trial>, parts: seq<Part>,
                                    tallies: seq<Tally>, cut: bool, evidence: LinesFile, t4: Tally, end: Tally)
    requires RuntimeCourse(runtime, kept, before) && Course(first, parts, tallies)
    requires tallies[0] == Tally(before[|runtime|].used, [])
    requires var t3 := Tally(tallies[|first|].used, before[|runtime|].omitted); t4 == if cut then Omit(t3, Ascii("trials")) else t3
    requires end == CollectEvidence(OmitAll(t4, tallies[|first|].omitted), evidence).0
    ensures forall n :: 0 <= n < |runtime| && !kept[n] && !runtime[n].content.Missing? ==> Noted(end, runtime[n].path)
    ensures forall n :: 0 <= n < |first| ==> TrialNoted(end, first[n], parts[n])
    ensures cut ==> Noted(end, Ascii("trials"))
    ensures EvidenceHeld(end, evidence, CollectEvidence(OmitAll(t4, tallies[|first|].omitted), evidence).1)
  {
    var t2 := tallies[|first|];
    var t3, t5 := Tally(t2.used, before[|runtime|].omitted), OmitAll(t4, t2.omitted);
    hide CollectEvidence, OmitAll, Omit, Size, RuntimeCourse, Course, Noted, TrialNoted, Grows, Ascii, EvidenceHeld;
    GrowsSelf(end);
    EvidenceIsHeld(t5, evidence, end);
    OmitAllNoted(t4, t2.omitted, end);
    OmitReports(t3, Ascii("trials"));
    if cut { ReportsNoted(t3, t4, end, Ascii("trials")); }
    UsedGrows(t3, t4);
    AllTrialsNoted(first, parts, tallies, t4, t5, end);
    GrowsSelf(t2);
    CourseNoted(first, parts, tallies, 0, t2);
    GrowsThrough(before[|runtime|], tallies[0], t2, t3, end);
    RuntimeNoted(runtime, kept, before, 0, end);
  }

  lemma {:induction false} SnapshotHolds(coreRunId: Text, runtime: seq<RuntimeFile>, trials: seq<Trial>, evidence: LinesFile)
    returns (kept: seq<bool>, before: seq<Tally>, parts: seq<Part>, tallies: seq<Tally>)
    ensures Holds(Collect(coreRunId, runtime, trials, evidence), coreRunId, runtime, trials, evidence, kept, before, parts, tallies)
  {
    kept, before := RuntimeCourseIs(Tally(0, []), runtime);
    var t1, first, cut := before[|runtime|], Considered(trials), |trials| > 200;
    parts, tallies := TrialsCourse(Tally(t1.used, []), first);
    var t2 := tallies[|first|];
    var t3 := Tally(t2.used, t1.omitted);
    var t4 := if cut then Omit(t3, Ascii("trials")) else t3;
    var t5 := OmitAll(t4, t2.omitted);
    var (t6, records) := CollectEvidence(t5, evidence);
    assert Collect(coreRunId, runtime, trials, evidence)
        == Snapshot(coreRunId, Values(runtime, kept), Items(first, parts), records, t6.omitted, t6.used);
    hide CollectRuntime, CollectTrials, CollectEvidence, OmitAll, Omit, Size, RuntimeCourse, Course, Values, Items, Noted, TrialNoted, Collect,
      Considered, Ascii, EvidenceHeld;
    AllNoted(runtime, kept, before, first, parts, tallies, cut, evidence, t4, t6);
  }

  lemma GrowsSelf(t: Tally)
    ensures Grows(t, t)
  {
  }

  lemma UsedGrows(t3: Tally, t4: Tally)
    ensures (t4 == t3 || Reports(t3, t4, Ascii("trials"))) ==> t3.used <= t4.used
  {
  }

  lemma GrowsThrough(t1: Tally, start: Tally, t2: Tally, t3: Tally, end: Tally)
    requires start == Tally(t1.used, []) && Grows(start, t2) && t3 == Tally(t2.used, t1.omitted) && Grows(t3, end)
    ensures Grows(t1, end)
  {
  }
}
