/** The runtime snapshot a worker posts at the end of a run: what is included under a byte budget,
    and the size of the resulting JSON text. */
module Snapshot {
  import opened Outcomes
  import opened Texts
  import opened Json
  import opened CanonicalText
  import opened Pointers

  const MAX_PAYLOAD: nat := 4 * 1024 * 1024
  const ENVELOPE: nat := 128 * 1024
  const BUDGET: nat := MAX_PAYLOAD - ENVELOPE
  const MAX_TRIALS: nat := 200

  // ---- sizes ----

  /** Bytes of a code unit in UTF-8; each half of a surrogate pair accounts for two of the four bytes. */
  function UnitBytes(u: CodeUnit): nat {
    if u < 0x80 then 1 else if u < 0x800 || IsLead(u) || IsTrail(u) then 2 else 3
  }

  /** `Buffer.byteLength` of a text without lone surrogates, which is what `JSON.stringify` writes. */
  function ByteLength(t: Text): nat {
    if t == [] then 0 else UnitBytes(t[0]) + ByteLength(t[1..])
  }

  function Size(v: Json): nat { ByteLength(Stringify(v)) }

  function PathSize(path: Text): nat { Size(Str(path)) }

  // ---- what the files of a run give ----

  /** A bounded JSON file: absent, left out for its size or shape, or read. */
  datatype ObjectFile = Missing | Omitted | Read(value: Json)

  datatype LinesFile = NoLines | LinesOmitted | Lines(items: seq<Json>, truncated: bool)

  datatype Trial = Trial(id: Text, summary: ObjectFile, trace: ObjectFile, events: LinesFile)

  datatype RuntimeFile = RuntimeFile(key: Text, path: Text, content: ObjectFile)

  datatype Snapshot = Snapshot(
    coreRunId: Text,
    runtimeValues: seq<Entry>,
    trialSummaries: seq<Json>,
    evidenceRecords: seq<Json>,
    omitted: seq<Text>,
    used: nat)

  // ---- the budget ----

  /** The bytes charged so far and the paths reported as omitted. */
  datatype Tally = Tally(used: nat, omitted: seq<Text>)

  predicate Fits(t: Tally, v: Json) { t.used + Size(v) <= BUDGET }

  function Charge(t: Tally, v: Json): Tally { t.(used := t.used + Size(v)) }

  /** A path is reported only if it fits. */
  function Omit(t: Tally, path: Text): Tally {
    if Fits(t, Str(path)) then Charge(t, Str(path)).(omitted := t.omitted + [path]) else t
  }

  function OmitAll(t: Tally, paths: seq<Text>): Tally
    decreases |paths|
  {
    if paths == [] then t else OmitAll(Omit(t, paths[0]), paths[1..])
  }

  // ---- trials ----

  function TrialPath(id: Text, file: string): Text { Ascii("trials/") + id + Ascii(file) }

  function WithTrace(t: Tally, item: seq<Entry>, trial: Trial): (Tally, seq<Entry>) {
    match trial.trace
    case Missing => (t, item)
    case Omitted => (Omit(t, TrialPath(trial.id, "/runner/contract_trace.json")), item)
    case Read(value) =>
      var more := item + [Entry(Ascii("contract_trace"), value)];
      if Fits(t, Obj(more)) then (t, more) else (Omit(t, TrialPath(trial.id, "/runner/contract_trace.json")), item)
  }

  function WithEvents(t: Tally, item: seq<Entry>, trial: Trial): (Tally, seq<Entry>) {
    var path := TrialPath(trial.id, "/agent/events.jsonl");
    match trial.events
    case NoLines => (t, item)
    case LinesOmitted => (Omit(t, path), item)
    case Lines(items, truncated) =>
      var more := item + [Entry(Ascii("trial_events"), Arr(items))];
      var fits := Fits(t, Obj(more));
      var once := if fits then t else Omit(t, path);
      (if truncated then Omit(once, path) else once, if fits then more else item)
  }

  function CollectTrial(t: Tally, trial: Trial): (Tally, Option<Json>) {
    match trial.summary
    case Missing => (t, None)
    case Omitted => (Omit(t, TrialPath(trial.id, "/summary.json")), None)
    case Read(value) =>
      var (t1, traced) := WithTrace(t, [Entry(Ascii("trial_id"), Str(trial.id)), Entry(Ascii("summary"), value)], trial);
      var (t2, item) := WithEvents(t1, traced, trial);
      if Fits(t2, Obj(item)) then (Charge(t2, Obj(item)), Some(Obj(item)))
      else (Omit(t2, TrialPath(trial.id, "/summary.json")), None)
  }

  function CollectTrials(t: Tally, trials: seq<Trial>): (Tally, seq<Json>) {
    if trials == [] then (t, []) else
      var (before, items) := CollectTrials(t, trials[..|trials| - 1]);
      var (after, item) := CollectTrial(before, trials[|trials| - 1]);
      (after, if item.Some? then items + [item.value] else items)
  }

  // ---- runtime values and evidence ----

  function CollectRuntime(t: Tally, files: seq<RuntimeFile>): (Tally, seq<Entry>) {
    if files == [] then (t, []) else
      var (before, values) := CollectRuntime(t, files[..|files| - 1]);
      var file := files[|files| - 1];
      match file.content
      case Missing => (before, values)
      case Omitted => (Omit(before, file.path), values)
      case Read(value) =>
        if Fits(before, value) then (Charge(before, value), values + [Entry(file.key, value)]) else (Omit(before, file.path), values)
  }

  const EVIDENCE_PATH: Text := Ascii("evidence/evidence_records.jsonl")

  /** Records in order, up to the first that does not fit. */
  function CollectRecords(t: Tally, records: seq<Json>): (Tally, seq<Json>)
    decreases |records|
  {
    if records == [] then (t, [])
    else if !Fits(t, records[0]) then (Omit(t, EVIDENCE_PATH), [])
    else
      var (after, rest) := CollectRecords(Charge(t, records[0]), records[1..]);
      (after, [records[0]] + rest)
  }

  function CollectEvidence(t: Tally, evidence: LinesFile): (Tally, seq<Json>) {
    match evidence
    case NoLines => (t, [])
    case LinesOmitted => (Omit(t, EVIDENCE_PATH), [])
    case Lines(items, truncated) =>
      var (after, records) := CollectRecords(t, items);
      (if truncated then Omit(after, EVIDENCE_PATH) else after, records)
  }

  function FirstTrials(trials: seq<Trial>): seq<Trial> { if |trials| > MAX_TRIALS then trials[..MAX_TRIALS] else trials }

  /** The three files of the runtime directory. */
  function RuntimeFiles(control: ObjectFile, progress: ObjectFile, session: ObjectFile): seq<RuntimeFile> {
    [RuntimeFile(Ascii("run_control_v2"), Ascii("runtime/run_control.json"), control),
     RuntimeFile(Ascii("schedule_progress_v2"), Ascii("runtime/schedule_progress.json"), progress),
     RuntimeFile(Ascii("run_session_state_v1"), Ascii("runtime/run_session_state.json"), session)]
  }

  /** `collectRuntimeSnapshot`. Paths omitted among the trials are charged once there and once more when they are reported. */
  function Collect(coreRunId: Text, runtime: seq<RuntimeFile>, trials: seq<Trial>, evidence: LinesFile): Snapshot {
    var (t1, values) := CollectRuntime(Tally(0, []), runtime);
    var (t2, items) := CollectTrials(Tally(t1.used, []), FirstTrials(trials));
    var t3 := Tally(t2.used, t1.omitted);
    var t4 := if |trials| > MAX_TRIALS then Omit(t3, Ascii("trials")) else t3;
    var t5 := OmitAll(t4, t2.omitted);
    var (t6, records) := CollectEvidence(t5, evidence);
    Snapshot(coreRunId, values, items, records, t6.omitted, t6.used)
  }

  // ---- the budget as an object, and the collectors as they run ----

  class RuntimeSnapshotBudget {
    var usedBytes: nat

    constructor ()
      ensures usedBytes == 0
    {
      usedBytes := 0;
    }

    predicate FitsNow(v: Json)
      reads this
    {
      usedBytes + Size(v) <= BUDGET
    }

    method TryAdd(v: Json) returns (added: bool)
      modifies this
      ensures added == old(FitsNow(v))
      ensures usedBytes == if added then old(usedBytes) + Size(v) else old(usedBytes)
    {
      var bytes := Size(v);
      if usedBytes + bytes > BUDGET { return false; }
      usedBytes := usedBytes + bytes;
      return true;
    }

    method OmitPath(omitted: seq<Text>, path: Text) returns (r: seq<Text>)
      modifies this
      ensures Tally(usedBytes, r) == Omit(Tally(old(usedBytes), omitted), path)
    {
      var added := TryAdd(Str(path));
      return if added then omitted + [path] else omitted;
    }

    method AddTrace(omitted: seq<Text>, item: seq<Entry>, trial: Trial) returns (r: seq<Text>, entries: seq<Entry>)
      modifies this
      ensures (Tally(usedBytes, r), entries) == WithTrace(Tally(old(usedBytes), omitted), item, trial)
    {
      hide Size, TrialPath, Omit;
      r, entries := omitted, item;
      var path := TrialPath(trial.id, "/runner/contract_trace.json");
      if trial.trace.Read? {
        var candidate := item + [Entry(Ascii("contract_trace"), trial.trace.value)];
        if FitsNow(Obj(candidate)) { entries := candidate; } else { r := OmitPath(r, path); }
      } else if trial.trace.Omitted? {
        r := OmitPath(r, path);
      }
    }

    method AddEvents(omitted: seq<Text>, item: seq<Entry>, trial: Trial) returns (r: seq<Text>, entries: seq<Entry>)
      modifies this
      ensures (Tally(usedBytes, r), entries) == WithEvents(Tally(old(usedBytes), omitted), item, trial)
    {
      hide Size, TrialPath, Omit;
      r, entries := omitted, item;
      var path := TrialPath(trial.id, "/agent/events.jsonl");
      if trial.events.Lines? {
        var candidate := item + [Entry(Ascii("trial_events"), Arr(trial.events.items))];
        if FitsNow(Obj(candidate)) { entries := candidate; } else { r := OmitPath(r, path); }
        if trial.events.truncated { r := OmitPath(r, path); }
      } else if trial.events.LinesOmitted? {
        r := OmitPath(r, path);
      }
    }

    /** One turn of the loop of `collectTrialSummaries`. */
    method AddTrial(omitted: seq<Text>, trial: Trial) returns (r: seq<Text>, item: Option<Json>)
      modifies this
      ensures (Tally(usedBytes, r), item) == CollectTrial(Tally(old(usedBytes), omitted), trial)
    {
      hide Size, TrialPath, Omit, WithTrace, WithEvents;
      r, item := omitted, None;
      if trial.summary.Omitted? { r := OmitPath(r, TrialPath(trial.id, "/summary.json")); }
      if !trial.summary.Read? { return; }
      var entries := [Entry(Ascii("trial_id"), Str(trial.id)), Entry(Ascii("summary"), trial.summary.value)];
      r, entries := AddTrace(r, entries, trial);
      r, entries := AddEvents(r, entries, trial);
      var added := TryAdd(Obj(entries));
      if added { item := Some(Obj(entries)); } else { r := OmitPath(r, TrialPath(trial.id, "/summary.json")); }
    }

    method AddTrials(trials: seq<Trial>) returns (omitted: seq<Text>, items: seq<Json>)
      modifies this
      ensures (Tally(usedBytes, omitted), items) == CollectTrials(Tally(old(usedBytes), []), trials)
    {
      omitted, items := [], [];
      assert trials[..0] == [];
      for i := 0 to |trials|
        invariant (Tally(usedBytes, omitted), items) == CollectTrials(Tally(old(usedBytes), []), trials[..i])
      {
        assert trials[..i + 1][..i] == trials[..i];
        var item;
        omitted, item := AddTrial(omitted, trials[i]);
        if item.Some? { items := items + [item.value]; }
      }
      assert trials[..|trials|] == trials;
    }

    method AddRecords(omitted: seq<Text>, records: seq<Json>) returns (r: seq<Text>, kept: seq<Json>)
      modifies this
      ensures (Tally(usedBytes, r), kept) == CollectRecords(Tally(old(usedBytes), omitted), records)
    {
      hide Size, Omit;
      r, kept := omitted, [];
      ghost var whole := CollectRecords(Tally(usedBytes, omitted), records);
      assert records[0..] == records && [] + whole.1 == whole.1;
      for i := 0 to |records|
        invariant r == omitted
        invariant CollectRecords(Tally(usedBytes, omitted), records[i..]).0 == whole.0
        invariant kept + CollectRecords(Tally(usedBytes, omitted), records[i..]).1 == whole.1
      {
        assert records[i..][1..] == records[i + 1..];
        ghost var before := Tally(usedBytes, omitted);
        var added := TryAdd(records[i]);
        if !added {
          assert kept + [] == kept;
          r := OmitPath(r, EVIDENCE_PATH);
          return;
        }
        ghost var rest := CollectRecords(Tally(usedBytes, omitted), records[i + 1..]).1;
        assert kept + ([records[i]] + rest) == kept + [records[i]] + rest;
        kept := kept + [records[i]];
      }
      assert kept + [] == kept;
    }

    method AddRuntime(files: seq<RuntimeFile>) returns (omitted: seq<Text>, values: seq<Entry>)
      modifies this
      ensures (Tally(usedBytes, omitted), values) == CollectRuntime(Tally(old(usedBytes), []), files)
    {
      hide Size, Omit;
      omitted, values := [], [];
      assert files[..0] == [];
      for i := 0 to |files|
        invariant (Tally(usedBytes, omitted), values) == CollectRuntime(Tally(old(usedBytes), []), files[..i])
      {
        assert files[..i + 1][..i] == files[..i];
        var file := files[i];
        if file.content.Read? {
          var added := TryAdd(file.content.value);
          if added { values := values + [Entry(file.key, file.content.value)]; } else { omitted := OmitPath(omitted, file.path); }
        } else if file.content.Omitted? {
          omitted := OmitPath(omitted, file.path);
        }
      }
      assert files[..|files|] == files;
    }

    method OmitPaths(omitted: seq<Text>, paths: seq<Text>) returns (r: seq<Text>)
      modifies this
      ensures Tally(usedBytes, r) == OmitAll(Tally(old(usedBytes), omitted), paths)
    {
      hide Size, Omit;
      r := omitted;
      assert paths[0..] == paths;
      for i := 0 to |paths|
        invariant OmitAll(Tally(usedBytes, r), paths[i..]) == OmitAll(Tally(old(usedBytes), omitted), paths)
      {
        assert paths[i..][1..] == paths[i + 1..];
        r := OmitPath(r, paths[i]);
      }
    }
  }

  method CollectRuntimeSnapshot(coreRunId: Text, runtime: seq<RuntimeFile>, trials: seq<Trial>,
                                evidence: LinesFile) returns (s: Snapshot)
    ensures s == Collect(coreRunId, runtime, trials, evidence)
  {
    hide CollectRuntime, CollectTrials, CollectRecords, OmitAll, Omit, Size, FirstTrials;
    var budget := new RuntimeSnapshotBudget();
    var omitted, values := budget.AddRuntime(runtime);
    var trialOmitted, items := budget.AddTrials(FirstTrials(trials));
    if |trials| > MAX_TRIALS { omitted := budget.OmitPath(omitted, Ascii("trials")); }
    omitted := budget.OmitPaths(omitted, trialOmitted);
    var records: seq<Json> := [];
    if evidence.Lines? {
      omitted, records := budget.AddRecords(omitted, evidence.items);
      if evidence.truncated { omitted := budget.OmitPath(omitted, EVIDENCE_PATH); }
    } else if evidence.LinesOmitted? {
      omitted := budget.OmitPath(omitted, EVIDENCE_PATH);
    }
    s := Snapshot(coreRunId, values, items, records, omitted, budget.usedBytes);
  }

  // ---- every included byte is charged ----

  function SumSizes(values: seq<Json>): nat { if values == [] then 0 else Size(values[0]) + SumSizes(values[1..]) }

  function EntryValues(es: seq<Entry>): nat { if es == [] then 0 else Size(es[0].value) + EntryValues(es[1..]) }

  function SumPaths(paths: seq<Text>): nat { if paths == [] then 0 else PathSize(paths[0]) + SumPaths(paths[1..]) }

  lemma {:induction false} SumSnoc(values: seq<Json>, v: Json)
    ensures SumSizes(values + [v]) == SumSizes(values) + Size(v)
  {
    hide Size;
    if values != [] {
      assert (values + [v])[1..] == values[1..] + [v];
      SumSnoc(values[1..], v);
    }
  }

  lemma {:induction false} EntrySnoc(es: seq<Entry>, e: Entry)
    ensures EntryValues(es + [e]) == EntryValues(es) + Size(e.value)
  {
    hide Size;
    if es != [] {
      assert (es + [e])[1..] == es[1..] + [e];
      EntrySnoc(es[1..], e);
    }
  }

  lemma {:induction false} PathSnoc(paths: seq<Text>, path: Text)
    ensures SumPaths(paths + [path]) == SumPaths(paths) + PathSize(path)
  {
    hide PathSize;
    if paths != [] {
      assert (paths + [path])[1..] == paths[1..] + [path];
      PathSnoc(paths[1..], path);
    }
  }

  /** The charges that are not for reported paths. */
  function Content(t: Tally): int { t.used - SumPaths(t.omitted) }

  /** From `t` to `u`, `bytes` were charged for content and at most `paths` paths were reported, all within the budget. */
  ghost predicate Charged(t: Tally, u: Tally, bytes: int, paths: int) {
    && Content(u) == Content(t) + bytes && t.used <= u.used && (t.used <= BUDGET ==> u.used <= BUDGET)
    && |t.omitted| <= |u.omitted| <= |t.omitted| + paths
  }

  lemma {:induction false} OmitCharged(t: Tally, path: Text)
    ensures Charged(t, Omit(t, path), 0, 1)
  {
    PathSnoc(t.omitted, path);
    hide Size, SumPaths;
  }

  lemma {:induction false} ChargedTwice(t: Tally, u: Tally, v: Tally, a: int, b: int, m: int, n: int)
    requires Charged(t, u, a, m) && Charged(u, v, b, n)
    ensures Charged(t, v, a + b, m + n)
  {
    hide Content;
  }

  lemma {:induction false} ChargedMore(t: Tally, u: Tally, a: int, m: int, n: int)
    requires Charged(t, u, a, m) && m <= n
    ensures Charged(t, u, a, n)
  {
    hide Content;
  }

  lemma {:induction false} FitCharged(t: Tally, v: Json)
    requires Fits(t, v)
    ensures Charged(t, Charge(t, v), Size(v), 0)
  {
    hide Size, SumPaths;
  }

  lemma Unchanged(t: Tally)
    ensures Charged(t, t, 0, 0)
  {
  }

  lemma {:induction false} OmitAllCharged(t: Tally, paths: seq<Text>)
    ensures Charged(t, OmitAll(t, paths), 0, |paths|)
    decreases |paths|
  {
    hide Omit, Charged;
    if paths == [] {
      Unchanged(t);
    } else {
      OmitCharged(t, paths[0]);
      OmitAllCharged(Omit(t, paths[0]), paths[1..]);
      ChargedTwice(t, Omit(t, paths[0]), OmitAll(t, paths), 0, 0, 1, |paths| - 1);
    }
  }

  lemma {:induction false} TraceCharged(t: Tally, item: seq<Entry>, trial: Trial)
    ensures Charged(t, WithTrace(t, item, trial).0, 0, 1)
  {
    var path := TrialPath(trial.id, "/runner/contract_trace.json");
    OmitCharged(t, path);
    Unchanged(t);
    ChargedMore(t, t, 0, 0, 1);
    hide Omit, Charged, Size;
  }

  lemma {:induction false} EventsCharged(t: Tally, item: seq<Entry>, trial: Trial)
    ensures Charged(t, WithEvents(t, item, trial).0, 0, 2)
  {
    var path := TrialPath(trial.id, "/agent/events.jsonl");
    var once := Omit(t, path);
    OmitCharged(t, path);
    OmitCharged(once, path);
    Unchanged(t);
    ChargedMore(t, t, 0, 0, 2);
    ChargedMore(t, once, 0, 1, 2);
    ChargedTwice(t, once, Omit(once, path), 0, 0, 1, 1);
    hide Omit, Charged, Size;
  }

  function ItemSize(item: Option<Json>): int { if item.Some? then Size(item.value) else 0 }

  lemma {:induction false} TrialCharged(t: Tally, trial: Trial)
    ensures Charged(t, CollectTrial(t, trial).0, ItemSize(CollectTrial(t, trial).1), 4)
  {
    hide Omit, Charged, Size, WithTrace, WithEvents, Fits;
    match trial.summary
    case Missing =>
      Unchanged(t);
      ChargedMore(t, t, 0, 0, 4);
    case Omitted =>
      OmitCharged(t, TrialPath(trial.id, "/summary.json"));
      ChargedMore(t, Omit(t, TrialPath(trial.id, "/summary.json")), 0, 1, 4);
    case Read(value) =>
      var start := [Entry(Ascii("trial_id"), Str(trial.id)), Entry(Ascii("summary"), value)];
      var (t1, traced) := WithTrace(t, start, trial);
      var (t2, item) := WithEvents(t1, traced, trial);
      TraceCharged(t, start, trial);
      EventsCharged(t1, traced, trial);
      ChargedTwice(t, t1, t2, 0, 0, 1, 2);
      if Fits(t2, Obj(item)) {
        FitCharged(t2, Obj(item));
        ChargedTwice(t, t2, Charge(t2, Obj(item)), 0, Size(Obj(item)), 3, 0);
        ChargedMore(t, Charge(t2, Obj(item)), Size(Obj(item)), 3, 4);
      } else {
        OmitCharged(t2, TrialPath(trial.id, "/summary.json"));
        ChargedTwice(t, t2, Omit(t2, TrialPath(trial.id, "/summary.json")), 0, 0, 3, 1);
      }
  }

  lemma {:induction false} TrialsCharged(t: Tally, trials: seq<Trial>)
    ensures var (after, items) := CollectTrials(t, trials);
            Charged(t, after, SumSizes(items), 4 * |trials|) && |items| <= |trials|
  {
    if trials == [] {
      Unchanged(t);
    } else {
      var (before, items) := CollectTrials(t, trials[..|trials| - 1]);
      var (after, item) := CollectTrial(before, trials[|trials| - 1]);
      TrialsCharged(t, trials[..|trials| - 1]);
      TrialCharged(before, trials[|trials| - 1]);
      hide Charged, CollectTrial, SumSizes, Size;
      ChargedTwice(t, before, after, SumSizes(items), ItemSize(item), 4 * (|trials| - 1), 4);
      if item.Some? { SumSnoc(items, item.value); }
    }
  }

  lemma {:induction false} RuntimeCharged(t: Tally, files: seq<RuntimeFile>)
    ensures var (after, values) := CollectRuntime(t, files);
            Charged(t, after, EntryValues(values), |files|) && |values| <= |files|
  {
    if files == [] {
      Unchanged(t);
    } else {
      var (before, values) := CollectRuntime(t, files[..|files| - 1]);
      var file := files[|files| - 1];
      RuntimeCharged(t, files[..|files| - 1]);
      hide Charged, EntryValues, Size, Omit;
      RuntimeFileCharged(t, before, values, file, |files| - 1);
    }
  }

  lemma {:induction false} RuntimeFileCharged(t: Tally, before: Tally, values: seq<Entry>, file: RuntimeFile, n: int)
    requires Charged(t, before, EntryValues(values), n)
    ensures Charged(t, before, EntryValues(values), n + 1)
    ensures Charged(t, Omit(before, file.path), EntryValues(values), n + 1)
    ensures file.content.Read? && Fits(before, file.content.value) ==>
              Charged(t, Charge(before, file.content.value), EntryValues(values + [Entry(file.key, file.content.value)]), n + 1)
  {
    hide Charged, EntryValues, Size, Omit, Fits;
    ChargedMore(t, before, EntryValues(values), n, n + 1);
    OmitCharged(before, file.path);
    ChargedTwice(t, before, Omit(before, file.path), EntryValues(values), 0, n, 1);
    if file.content.Read? && Fits(before, file.content.value) {
      var v := file.content.value;
      FitCharged(before, v);
      ChargedTwice(t, before, Charge(before, v), EntryValues(values), Size(v), n, 0);
      ChargedMore(t, Charge(before, v), EntryValues(values) + Size(v), n, n + 1);
      EntrySnoc(values, Entry(file.key, v));
    }
  }

  lemma {:induction false} RecordsCharged(t: Tally, records: seq<Json>)
    ensures var (after, kept) := CollectRecords(t, records);
            Charged(t, after, SumSizes(kept), 1) && kept <= records
    decreases |records|
  {
    hide Charged, Size, Omit;
    if records == [] {
      Unchanged(t);
      ChargedMore(t, t, 0, 0, 1);
    } else if !Fits(t, records[0]) {
      OmitCharged(t, EVIDENCE_PATH);
    } else {
      var (after, rest) := CollectRecords(Charge(t, records[0]), records[1..]);
      FitCharged(t, records[0]);
      RecordsCharged(Charge(t, records[0]), records[1..]);
      ChargedTwice(t, Charge(t, records[0]), after, Size(records[0]), SumSizes(rest), 0, 1);
      assert ([records[0]] + rest)[1..] == rest;
      assert records == [records[0]] + records[1..];
    }
  }

  /** The records kept are the longest run of records, from the first on, that fits what is left of the budget. */
  lemma {:induction false} RecordsMaximal(t: Tally, records: seq<Json>)
    requires t.used <= BUDGET
    ensures var kept := CollectRecords(t, records).1;
            && kept <= records && t.used + SumSizes(kept) <= BUDGET
            && (|kept| < |records| ==> t.used + SumSizes(kept) + Size(records[|kept|]) > BUDGET)
    decreases |records|
  {
    hide Size, Omit;
    if records != [] && Fits(t, records[0]) {
      var rest := CollectRecords(Charge(t, records[0]), records[1..]).1;
      RecordsMaximal(Charge(t, records[0]), records[1..]);
      assert ([records[0]] + rest)[1..] == rest;
      assert records == [records[0]] + records[1..];
    }
  }

  lemma {:induction false} EvidenceCharged(t: Tally, evidence: LinesFile)
    ensures var (after, kept) := CollectEvidence(t, evidence);
            && Charged(t, after, SumSizes(kept), 2)
            && (if evidence.Lines? then kept <= evidence.items else kept == [])
  {
    hide Charged, Size, Omit, CollectRecords;
    Unchanged(t);
    ChargedMore(t, t, 0, 0, 2);
    OmitCharged(t, EVIDENCE_PATH);
    ChargedMore(t, Omit(t, EVIDENCE_PATH), 0, 1, 2);
    if evidence.Lines? {
      var (after, kept) := CollectRecords(t, evidence.items);
      RecordsCharged(t, evidence.items);
      OmitCharged(after, EVIDENCE_PATH);
      ChargedTwice(t, after, Omit(after, EVIDENCE_PATH), SumSizes(kept), 0, 1, 1);
      ChargedMore(t, after, SumSizes(kept), 1, 2);
    }
  }

  /** All that a snapshot includes has been charged, within the budget, and the numbers of its parts are bounded. */
  lemma {:induction false} CollectCharges(coreRunId: Text, runtime: seq<RuntimeFile>, trials: seq<Trial>, evidence: LinesFile)
    ensures var s := Collect(coreRunId, runtime, trials, evidence);
            && EntryValues(s.runtimeValues) + SumSizes(s.trialSummaries) + SumSizes(s.evidenceRecords) + SumPaths(s.omitted) <= s.used <= BUDGET
            && |s.runtimeValues| <= |runtime| && |s.trialSummaries| <= MAX_TRIALS
            && |s.evidenceRecords| <= (if evidence.Lines? then |evidence.items| else 0)
            && |s.omitted| <= |runtime| + 4 * MAX_TRIALS + 3
  {
    var start := Tally(0, []);
    var (t1, values) := CollectRuntime(start, runtime);
    var (t2, items) := CollectTrials(Tally(t1.used, []), FirstTrials(trials));
    var t3 := Tally(t2.used, t1.omitted);
    var t4 := if |trials| > MAX_TRIALS then Omit(t3, Ascii("trials")) else t3;
    var t5 := OmitAll(t4, t2.omitted);
    var (t6, records) := CollectEvidence(t5, evidence);
    var first := FirstTrials(trials);
    assert |first| <= MAX_TRIALS;
    assert Collect(coreRunId, runtime, trials, evidence) == Snapshot(coreRunId, values, items, records, t6.omitted, t6.used);
    hide *;
    RuntimeCharged(start, runtime);
    TrialsCharged(Tally(t1.used, []), first);
    OmitCharged(t3, Ascii("trials"));
    Unchanged(t3);
    ChargedMore(t3, t3, 0, 0, 1);
    OmitAllCharged(t4, t2.omitted);
    EvidenceCharged(t5, evidence);
    ChargesAddUp(t1, t2, t3, t4, t5, t6, EntryValues(values), SumSizes(items), SumSizes(records), |runtime|, 4 * |first|);
  }

  lemma {:induction false} ChargesAddUp(t1: Tally, t2: Tally, t3: Tally, t4: Tally, t5: Tally, t6: Tally, values: nat,
                                        items: nat, records: nat, m: int, n: int)
    requires Charged(Tally(0, []), t1, values, m) && Charged(Tally(t1.used, []), t2, items, n)
    requires t3 == Tally(t2.used, t1.omitted) && Charged(t3, t4, 0, 1) && Charged(t4, t5, 0, |t2.omitted|) && Charged(t5, t6, records, 2)
    ensures values + items + records + SumPaths(t6.omitted) <= t6.used <= BUDGET
    ensures |t6.omitted| <= m + n + 3
  {
    assert SumPaths([]) == 0;
    hide SumPaths;
  }
}
