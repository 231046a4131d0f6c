/** The JSON text of a runtime snapshot stays within the payload limit. */
module SnapshotText {
  import opened Outcomes
  import opened Texts
  import opened Json
  import opened CanonicalText
  import opened Pointers
  import opened Snapshot

  // ---- sizes of JSON texts ----

  lemma {:induction false} ByteConcat(a: Text, b: Text)
    ensures ByteLength(a + b) == ByteLength(a) + ByteLength(b)
  {
    if a == [] {
      assert a + b == b;
    } else {
      assert (a + b)[1..] == a[1..] + b;
      ByteConcat(a[1..], b);
    }
  }

  /** Commas between `n` parts. */
  function Commas(n: int): int { if n > 0 then n - 1 else 0 }

  lemma {:induction false} ItemsBytes(items: seq<Json>)
    ensures ByteLength(StringifyItems(items)) == SumSizes(items) + Commas(|items|)
  {
    if |items| == 1 {
      assert SumSizes(items[1..]) == 0;
    } else if |items| > 1 {
      ItemsBytes(items[1..]);
      ThreeParts(Stringify(items[0]), COMMA, StringifyItems(items[1..]));
      hide ByteLength, Stringify;
    }
  }

  lemma {:induction false} ThreeParts(a: Text, middle: CodeUnit, b: Text)
    requires middle < 0x80
    ensures ByteLength(a + [middle] + b) == ByteLength(a) + 1 + ByteLength(b)
  {
    ByteConcat(a + [middle], b);
    ByteConcat(a, [middle]);
  }

  /** An ordinary printable ASCII text needs no escapes. */
  ghost predicate IsPlain(t: Text) { forall i :: 0 <= i < |t| ==> 0x20 <= t[i] < 0x7f && t[i] != QUOTE && t[i] != BACKSLASH }

  lemma {:induction false} PlainBytes(t: Text)
    requires IsPlain(t)
    ensures Escape(t) == t && ByteLength(t) == |t|
  {
    if t != [] {
      PlainBytes(t[1..]);
      assert t == [t[0]] + t[1..];
    }
  }

  lemma {:induction false} QuotedBytes(t: Text)
    requires IsPlain(t)
    ensures ByteLength(Quoted(t)) == |t| + 2
  {
    PlainBytes(t);
    Enclosed(QUOTE, t, QUOTE);
  }

  lemma {:induction false} Enclosed(open0: CodeUnit, body: Text, close: CodeUnit)
    requires open0 < 0x80 && close < 0x80
    ensures ByteLength([open0] + body + [close]) == ByteLength(body) + 2
  {
    ByteConcat([open0] + body, [close]);
    ByteConcat([open0], body);
  }

  function KeyBytes(es: seq<Entry>): nat { if es == [] then 0 else |es[0].key| + 3 + KeyBytes(es[1..]) }

  ghost predicate PlainKeys(es: seq<Entry>) { forall i :: 0 <= i < |es| ==> IsPlain(es[i].key) }

  lemma {:induction false} EntryBytes(e: Entry)
    requires IsPlain(e.key)
    ensures ByteLength(StringifyEntry(e)) == |e.key| + 3 + Size(e.value)
  {
    QuotedBytes(e.key);
    ThreeParts(Quoted(e.key), COLON, Stringify(e.value));
    hide ByteLength, Stringify, Quoted;
  }

  lemma {:induction false} EntriesBytes(es: seq<Entry>)
    requires PlainKeys(es)
    ensures ByteLength(StringifyEntries(es)) == KeyBytes(es) + EntryValues(es) + Commas(|es|)
  {
    if es != [] {
      EntryBytes(es[0]);
      EntriesBytes(es[1..]);
      ThreeParts(StringifyEntry(es[0]), COMMA, StringifyEntries(es[1..]));
      hide ByteLength, StringifyEntry, Size;
    }
  }

  lemma {:induction false} ObjectBytes(es: seq<Entry>)
    requires PlainKeys(es)
    ensures Size(Obj(es)) == KeyBytes(es) + EntryValues(es) + Commas(|es|) + 2
  {
    EntriesBytes(es);
    Enclosed(0x7b, StringifyEntries(es), 0x7d);
    hide ByteLength, StringifyEntries;
  }

  lemma {:induction false} ArrayBytes(items: seq<Json>)
    ensures Size(Arr(items)) == SumSizes(items) + Commas(|items|) + 2
  {
    ItemsBytes(items);
    Enclosed(0x5b, StringifyItems(items), 0x5d);
    hide ByteLength, StringifyItems;
  }

  // ---- numbers ----

  lemma {:induction false} DigitBytes(digits: Text)
    requires AllDigits(digits)
    ensures ByteLength(digits) == |digits|
  {
    if digits != [] { DigitBytes(digits[1..]); }
  }

  lemma {:induction false} DecimalLength(n: nat)
    requires n < 10_000_000
    ensures |Decimal(n)| <= 7
  {
    assert |Decimal(n / 1_000_000)| == 1;
    assert |Decimal(n / 100_000)| <= 2 by { assert n / 100_000 / 10 == n / 1_000_000; }
    assert |Decimal(n / 10_000)| <= 3 by { assert n / 10_000 / 10 == n / 100_000; }
    assert |Decimal(n / 1000)| <= 4 by { assert n / 1000 / 10 == n / 10_000; }
    assert |Decimal(n / 100)| <= 5 by { assert n / 100 / 10 == n / 1000; }
    assert |Decimal(n / 10)| <= 6 by { assert n / 10 / 10 == n / 100; }
  }

  function Number(n: nat): Json {
    var t := Decimal(n);
    Num(Finite(t))
  }

  lemma {:induction false} NumberBytes(n: nat)
    requires n < 10_000_000
    ensures Size(Number(n)) <= 7
  {
    DecimalLength(n);
    DigitBytes(Decimal(n));
  }

  // ---- the payload ----

  function Strings(paths: seq<Text>): seq<Json> { if paths == [] then [] else [Str(paths[0])] + Strings(paths[1..]) }

  lemma {:induction false} StringsBytes(paths: seq<Text>)
    ensures |Strings(paths)| == |paths| && SumSizes(Strings(paths)) == SumPaths(paths)
  {
    hide Size;
    if paths != [] {
      StringsBytes(paths[1..]);
      assert Strings(paths)[1..] == Strings(paths[1..]);
    }
  }

  function BudgetEntries(used: nat): seq<Entry> {
    [Entry(Ascii("max_payload_bytes"), Number(MAX_PAYLOAD)),
     Entry(Ascii("estimated_payload_bytes"), Number(used)),
     Entry(Ascii("envelope_reserve_bytes"), Number(ENVELOPE))]
  }

  /** The event payload of a snapshot. */
  function Payload(s: Snapshot): Json {
    Obj([
      Entry(Ascii("core_run_id"), Str(s.coreRunId)),
      Entry(Ascii("run_dir_name"), Str(s.coreRunId)),
      Entry(Ascii("runtime_values"), Obj(s.runtimeValues)),
      Entry(Ascii("trial_summaries"), Arr(s.trialSummaries)),
      Entry(Ascii("evidence_records"), Arr(s.evidenceRecords)),
      Entry(Ascii("omitted"), Arr(Strings(s.omitted))),
      Entry(Ascii("snapshot_budget"), Obj(BudgetEntries(s.used)))])
  }

  predicate PlainString(s: string) { forall i :: 0 <= i < |s| ==> ' ' <= s[i] < '~' && s[i] != '"' && s[i] != '\\' }

  lemma AsciiPlain(s: string)
    requires PlainString(s)
    ensures IsPlain(Ascii(s)) && |Ascii(s)| == |s|
  {
  }

  lemma FieldNames()
    ensures PlainString("core_run_id") && PlainString("run_dir_name") && PlainString("runtime_values") && PlainString("trial_summaries")
    ensures PlainString("evidence_records") && PlainString("omitted") && PlainString("snapshot_budget")
  {
  }

  lemma BudgetNames()
    ensures PlainString("max_payload_bytes") && PlainString("estimated_payload_bytes") && PlainString("envelope_reserve_bytes")
  {
  }

  lemma RuntimeNames()
    ensures PlainString("run_control_v2") && PlainString("schedule_progress_v2") && PlainString("run_session_state_v1")
  {
  }

  lemma {:induction false} BudgetBytes(used: nat)
    requires used <= BUDGET
    ensures Size(Obj(BudgetEntries(used))) <= 96
  {
    hide Ascii, Size, Number, IsPlain, PlainString, KeyBytes, EntryValues;
    var es := BudgetEntries(used);
    BudgetNames();
    AsciiPlain("max_payload_bytes");
    AsciiPlain("estimated_payload_bytes");
    AsciiPlain("envelope_reserve_bytes");
    NumberBytes(MAX_PAYLOAD);
    NumberBytes(used);
    NumberBytes(ENVELOPE);
    ThreeNumbers(es[0], es[1], es[2]);
  }

  lemma {:induction false} ThreeNumbers(a: Entry, b: Entry, c: Entry)
    requires IsPlain(a.key) && IsPlain(b.key) && IsPlain(c.key) && |a.key| + |b.key| + |c.key| <= 62
    requires Size(a.value) <= 7 && Size(b.value) <= 7 && Size(c.value) <= 7
    ensures Size(Obj([a, b, c])) <= 96
  {
    hide Size, IsPlain;
    ThreeEntries(a, b, c);
    ObjectBytes([a, b, c]);
  }

  lemma {:induction false} ThreeEntries(a: Entry, b: Entry, c: Entry)
    ensures KeyBytes([a, b, c]) == |a.key| + |b.key| + |c.key| + 9
    ensures EntryValues([a, b, c]) == Size(a.value) + Size(b.value) + Size(c.value)
  {
    OneMore(c, []);
    OneMore(b, [c]);
    OneMore(a, [b, c]);
    assert [c] + [] == [c] && [b] + [c] == [b, c] && [a] + [b, c] == [a, b, c];
    hide Size, KeyBytes, EntryValues;
    assert KeyBytes([]) == 0 && EntryValues([]) == 0 by { NoEntries(); }
  }

  lemma NoEntries()
    ensures KeyBytes([]) == 0 && EntryValues([]) == 0
  {
  }

  lemma {:induction false} OneMore(e: Entry, rest: seq<Entry>)
    ensures KeyBytes([e] + rest) == |e.key| + 3 + KeyBytes(rest)
    ensures EntryValues([e] + rest) == Size(e.value) + EntryValues(rest)
  {
    hide Size;
    assert ([e] + rest)[1..] == rest;
  }

  lemma {:induction false} FourMore(a: Entry, b: Entry, c: Entry, d: Entry, rest: seq<Entry>)
    ensures KeyBytes([a, b, c, d] + rest) == |a.key| + |b.key| + |c.key| + |d.key| + 12 + KeyBytes(rest)
    ensures EntryValues([a, b, c, d] + rest) == Size(a.value) + Size(b.value) + Size(c.value) + Size(d.value) + EntryValues(rest)
  {
    hide Size, KeyBytes, EntryValues;
    OneMore(d, rest);
    OneMore(c, [d] + rest);
    OneMore(b, [c] + ([d] + rest));
    OneMore(a, [b] + ([c] + ([d] + rest)));
    assert [a] + ([b] + ([c] + ([d] + rest))) == [a, b, c, d] + rest;
  }

  /** Runtime values stand under the keys of their files. */
  lemma {:induction false} RuntimeKeys(t: Tally, files: seq<RuntimeFile>)
    requires forall i :: 0 <= i < |files| ==> IsPlain(files[i].key) && |files[i].key| <= 20
    ensures var values := CollectRuntime(t, files).1;
            PlainKeys(values) && KeyBytes(values) <= 23 * |values|
  {
    hide IsPlain, Size, Omit, Fits;
    if files != [] {
      var (before, values) := CollectRuntime(t, files[..|files| - 1]);
      var file := files[|files| - 1];
      RuntimeKeys(t, files[..|files| - 1]);
      if file.content.Read? { KeySnoc(values, Entry(file.key, file.content.value)); }
    }
  }

  lemma {:induction false} KeySnoc(es: seq<Entry>, e: Entry)
    ensures KeyBytes(es + [e]) == KeyBytes(es) + |e.key| + 3
  {
    if es == [] {
      assert es + [e] == [e];
    } else {
      assert (es + [e])[1..] == es[1..] + [e];
      KeySnoc(es[1..], e);
    }
  }

  /** The size of the payload text: what was charged, twice the run identifier, and a fixed allowance. */
  lemma {:induction false} PayloadBytes(s: Snapshot)
    requires IsPlain(s.coreRunId) && PlainKeys(s.runtimeValues) && KeyBytes(s.runtimeValues) <= 69 && |s.runtimeValues| <= 3
    requires |s.trialSummaries| <= 200 && |s.evidenceRecords| <= 500 && |s.omitted| <= 806 && s.used <= BUDGET
    ensures var charged := EntryValues(s.runtimeValues) + SumSizes(s.trialSummaries) + SumSizes(s.evidenceRecords) + SumPaths(s.omitted);
            charged + 2 * |s.coreRunId| <= Size(Payload(s)) <= charged + 2 * |s.coreRunId| + 1820
  {
    StringsBytes(s.omitted);
    ObjectBytes(s.runtimeValues);
    ArrayBytes(s.trialSummaries);
    ArrayBytes(s.evidenceRecords);
    ArrayBytes(Strings(s.omitted));
    BudgetBytes(s.used);
    IdBytes(s.coreRunId);
    PayloadParts(s);
    hide *;
    CommasBelow(|s.runtimeValues|, 3);
    CommasBelow(|s.trialSummaries|, 200);
    CommasBelow(|s.evidenceRecords|, 500);
    CommasBelow(|s.omitted|, 806);
  }

  lemma CommasBelow(n: int, m: int)
    requires 0 <= n <= m
    ensures 0 <= Commas(n) <= m
  {
  }

  lemma {:induction false} IdBytes(id: Text)
    requires IsPlain(id)
    ensures Size(Str(id)) == |id| + 2
  {
    QuotedBytes(id);
  }

  lemma {:induction false} PayloadParts(s: Snapshot)
    ensures Size(Payload(s)) == 119 + 2 * Size(Str(s.coreRunId)) + Size(Obj(s.runtimeValues)) + Size(Arr(s.trialSummaries))
                                + Size(Arr(s.evidenceRecords)) + Size(Arr(Strings(s.omitted))) + Size(Obj(BudgetEntries(s.used)))
  {
    var es := Payload(s).entries;
    FieldNames();
    AsciiPlain("core_run_id");
    AsciiPlain("run_dir_name");
    AsciiPlain("runtime_values");
    AsciiPlain("trial_summaries");
    AsciiPlain("evidence_records");
    AsciiPlain("omitted");
    AsciiPlain("snapshot_budget");
    hide Ascii, Size, IsPlain, PlainString, BudgetEntries, Strings;
    assert [es[0], es[1], es[2], es[3]] + [es[4], es[5], es[6]] == es;
    FourMore(es[0], es[1], es[2], es[3], [es[4], es[5], es[6]]);
    ThreeEntries(es[4], es[5], es[6]);
    ObjectBytes(es);
  }

  predicate FieldIs(v: Json, name: string, value: Json) {
    v.Obj? && HasKey(v.entries, Ascii(name)) && Get(v.entries, Ascii(name)) == value
  }

  lemma {:induction false} AsciiApart(a: string, b: string)
    requires |a| != |b| || (a != "" && b != "" && a[0] != b[0])
    requires PlainString(a) && PlainString(b)
    ensures Ascii(a) != Ascii(b)
  {
    if |a| == |b| { assert Ascii(a)[0] != Ascii(b)[0]; }
  }

  const NAMES: seq<string> := ["core_run_id", "run_dir_name", "runtime_values", "trial_summaries", "evidence_records", "omitted",
                               "snapshot_budget"]

  lemma {:induction false} NamesApart(i: nat, j: nat)
    requires i < j < 7
    ensures Ascii(NAMES[i]) != Ascii(NAMES[j])
  {
    FieldNames();
    hide Ascii, PlainString;
    AsciiApart(NAMES[i], NAMES[j]);
  }

  lemma {:induction false} NamedDistinct(es: seq<Entry>)
    requires |es| == 7 && forall i :: 0 <= i < 7 ==> es[i].key == Ascii(NAMES[i])
    ensures Distinct(Keys(es))
  {
    var keys := Keys(es);
    assert forall i :: 0 <= i < 7 ==> keys[i] == Ascii(NAMES[i]);
    hide Ascii, Keys;
    forall i, j | 0 <= i < j < 7 ensures keys[i] != keys[j] { NamesApart(i, j); }
  }

  predicate NamedEntries(es: seq<Entry>, a: Json, b: Json, c: Json, d: Json, e: Json, f: Json, g: Json) {
    && |es| == 7 && es[0] == Entry(Ascii(NAMES[0]), a) && es[1] == Entry(Ascii(NAMES[1]), b) && es[2] == Entry(Ascii(NAMES[2]), c)
    && es[3] == Entry(Ascii(NAMES[3]), d) && es[4] == Entry(Ascii(NAMES[4]), e) && es[5] == Entry(Ascii(NAMES[5]), f)
    && es[6] == Entry(Ascii(NAMES[6]), g)
  }

  /** The posted payload has each part of the snapshot under its own name, and no other property. */
  lemma {:induction false} PayloadFields(s: Snapshot)
    ensures var p := Payload(s);
            && FieldIs(p, "core_run_id", Str(s.coreRunId)) && FieldIs(p, "run_dir_name", Str(s.coreRunId))
            && FieldIs(p, "runtime_values", Obj(s.runtimeValues)) && FieldIs(p, "trial_summaries", Arr(s.trialSummaries))
            && FieldIs(p, "evidence_records", Arr(s.evidenceRecords)) && FieldIs(p, "omitted", Arr(Strings(s.omitted)))
            && FieldIs(p, "snapshot_budget", Obj(BudgetEntries(s.used))) && |p.entries| == 7
    ensures |Strings(s.omitted)| == |s.omitted| && forall i :: 0 <= i < |s.omitted| ==> Strings(s.omitted)[i] == Str(s.omitted[i])
  {
    var es := Payload(s).entries;
    StringsAre(s.omitted);
    hide Ascii, Strings, BudgetEntries, Keys, FieldIs, Distinct, Get, HasKey;
    assert Payload(s) == Obj(es);
    assert NamedEntries(es, Str(s.coreRunId), Str(s.coreRunId), Obj(s.runtimeValues), Arr(s.trialSummaries), Arr(s.evidenceRecords),
                        Arr(Strings(s.omitted)), Obj(BudgetEntries(s.used)));
    hide Payload;
    NamedFields(es, Str(s.coreRunId), Str(s.coreRunId), Obj(s.runtimeValues), Arr(s.trialSummaries), Arr(s.evidenceRecords),
                Arr(Strings(s.omitted)), Obj(BudgetEntries(s.used)));
  }

  lemma {:induction false} NamedFields(es: seq<Entry>, a: Json, b: Json, c: Json, d: Json, e: Json, f: Json, g: Json)
    requires NamedEntries(es, a, b, c, d, e, f, g)
    ensures FieldIs(Obj(es), "core_run_id", a) && FieldIs(Obj(es), "run_dir_name", b) && FieldIs(Obj(es), "runtime_values", c)
    ensures FieldIs(Obj(es), "trial_summaries", d) && FieldIs(Obj(es), "evidence_records", e) && FieldIs(Obj(es), "omitted", f)
    ensures FieldIs(Obj(es), "snapshot_budget", g)
  {
    hide Ascii, Keys, FieldIs, Distinct, Get, HasKey;
    NamedDistinct(es);
    FieldAt(es, 0, "core_run_id", a);
    FieldAt(es, 1, "run_dir_name", b);
    FieldAt(es, 2, "runtime_values", c);
    FieldAt(es, 3, "trial_summaries", d);
    FieldAt(es, 4, "evidence_records", e);
    FieldAt(es, 5, "omitted", f);
    FieldAt(es, 6, "snapshot_budget", g);
  }

  lemma {:induction false} FieldAt(es: seq<Entry>, i: nat, name: string, value: Json)
    requires Distinct(Keys(es)) && i < |es| && es[i] == Entry(Ascii(name), value)
    ensures FieldIs(Obj(es), name, value)
  {
    GetDistinct(es, i);
  }

  lemma {:induction false} StringsAre(paths: seq<Text>)
    ensures |Strings(paths)| == |paths| && forall i :: 0 <= i < |paths| ==> Strings(paths)[i] == Str(paths[i])
  {
    if paths != [] {
      StringsAre(paths[1..]);
      assert forall i :: 1 <= i < |paths| ==> paths[i] == paths[1..][i - 1] && Strings(paths)[i] == Strings(paths[1..])[i - 1];
    }
  }

  /** The budget that the payload reports: the limit, what was charged, and what is kept for the envelope. */
  lemma {:induction false} BudgetFields(used: nat)
    ensures var b := Obj(BudgetEntries(used));
            && FieldIs(b, "max_payload_bytes", Num(Finite(Decimal(4_194_304))))
            && FieldIs(b, "estimated_payload_bytes", Num(Finite(Decimal(used))))
            && FieldIs(b, "envelope_reserve_bytes", Num(Finite(Decimal(131_072)))) && |b.entries| == 3
  {
    var es := BudgetEntries(used);
    var max, reserve: nat := 4_194_304, 131_072;
    assert MAX_PAYLOAD == max && ENVELOPE == reserve;
    BudgetNames();
    AsciiApart("max_payload_bytes", "estimated_payload_bytes");
    AsciiApart("max_payload_bytes", "envelope_reserve_bytes");
    AsciiApart("estimated_payload_bytes", "envelope_reserve_bytes");
    hide Ascii, Decimal, FieldIs;
    assert Keys(es) == [es[0].key, es[1].key, es[2].key];
    FieldAt(es, 0, "max_payload_bytes", Num(Finite(Decimal(max))));
    FieldAt(es, 1, "estimated_payload_bytes", Num(Finite(Decimal(used))));
    FieldAt(es, 2, "envelope_reserve_bytes", Num(Finite(Decimal(reserve))));
  }

  lemma {:induction false} RuntimeFilesPlain(control: ObjectFile, progress: ObjectFile, session: ObjectFile)
    ensures var files := RuntimeFiles(control, progress, session);
            |files| == 3 && forall i :: 0 <= i < |files| ==> IsPlain(files[i].key) && |files[i].key| <= 20
  {
    RuntimeNames();
    AsciiPlain("run_control_v2");
    AsciiPlain("schedule_progress_v2");
    AsciiPlain("run_session_state_v1");
    hide Ascii, PlainString, IsPlain;
  }

  /** The JSON text of the snapshot of any run whose identifier leaves room in the envelope is within the payload limit. */
  lemma {:induction false} SnapshotWithinLimit(coreRunId: Text, control: ObjectFile, progress: ObjectFile,
                                               session: ObjectFile, trials: seq<Trial>, evidence: LinesFile)
    requires IsPlain(coreRunId) && (evidence.Lines? ==> |evidence.items| <= 500)
    requires 2 * |coreRunId| + 1820 <= ENVELOPE
    ensures Size(Payload(Collect(coreRunId, RuntimeFiles(control, progress, session), trials, evidence))) <= MAX_PAYLOAD
  {
    var files := RuntimeFiles(control, progress, session);
    var s := Collect(coreRunId, files, trials, evidence);
    RuntimeFilesPlain(control, progress, session);
    hide Ascii, RuntimeFiles, IsPlain, Size;
    CollectCharges(coreRunId, files, trials, evidence);
    RuntimeKeys(Tally(0, []), files);
    assert s.runtimeValues == CollectRuntime(Tally(0, []), files).1 && s.coreRunId == coreRunId;
    hide *;
    PayloadBytes(s);
  }

  // ---- identifiers of run directories ----

  /** `/^run_[A-Za-z0-9_.-]+$/`. */
  predicate IsCoreRunId(id: Text) {
    && |id| > 4 && id[..4] == RUN_PREFIX
    && forall i :: 4 <= i < |id| ==> IsDigit(id[i]) || 0x41 <= id[i] <= 0x5a || 0x61 <= id[i] <= 0x7a || id[i] in {0x5f, 0x2e, 0x2d}
  }

  const RUN_PREFIX: Text := [0x72, 0x75, 0x6e, 0x5f]

  /** No longer path resolves: `stat` fails with `ENAMETOOLONG`, which the collector throws on. */
  const PATH_MAX: nat := 4096

  lemma {:induction false} CoreRunIdPlain(id: Text)
    requires IsCoreRunId(id)
    ensures IsPlain(id)
  {
    forall i | 0 <= i < |id| ensures 0x20 <= id[i] < 0x7f && id[i] != QUOTE && id[i] != BACKSLASH {
      if i < 4 { assert id[i] == id[..4][i]; }
    }
  }

  /** So every payload the collector returns, for a run directory that can exist, is within the limit. */
  lemma {:induction false} EveryPayloadWithinLimit(coreRunId: Text, control: ObjectFile, progress: ObjectFile,
                                                   session: ObjectFile, trials: seq<Trial>, evidence: LinesFile)
    requires IsCoreRunId(coreRunId) && |coreRunId| <= PATH_MAX && (evidence.Lines? ==> |evidence.items| <= 500)
    ensures Size(Payload(Collect(coreRunId, RuntimeFiles(control, progress, session), trials, evidence))) <= MAX_PAYLOAD
  {
    CoreRunIdPlain(coreRunId);
    hide *;
    EnvelopeHoldsPaths();
    SnapshotWithinLimit(coreRunId, control, progress, session, trials, evidence);
  }

  lemma EnvelopeHoldsPaths()
    ensures 2 * PATH_MAX + 1820 <= ENVELOPE
  {
  }
}
