/** The integrity check of a sealed package, and what an accepted package digest determines. */
module SealedPackage {
  import opened Outcomes
  import opened ByteStrings
  import opened Texts
  import opened Json
  import opened CanonicalText
  import opened Pointers

  /** What `lstat` says of a path in the unpacked directory. */
  datatype Node = Directory | Symlink | File(content: Bytes) | Special

  /** Every entry below the package root, by its slash-separated relative path. */
  type Package = map<Text, Node>

  datatype CasPointer = CasPointer(digest: Text, sizeBytes: nat)

  /** The library functions the check calls, and the two validators that are not modelled further. */
  datatype Env = Env(
    hash: Bytes -> Text,
    hashText: Text -> Text,
    parse: Bytes -> Option<Json>,
    casPointer: Bytes -> Option<CasPointer>,
    checksPass: Json -> bool,
    stagingValid: (Package, Json) -> bool)

  /** A hash with lower-case digests, and a parser that yields objects. */
  ghost predicate Sound(env: Env) {
    && (forall b :: IsDigest(env.hash(b)))
    && (forall b :: env.parse(b).Some? ==> env.parse(b).value.Obj? && WellFormed(env.parse(b).value))
  }

  datatype InspectionError =
    | MissingString(field: Text)
    | UnsafePath(field: Text)
    | RefInsidePayload(field: Text)
    | BadJsonFile(path: Text)
    | InvalidSchema(path: Text)
    | MissingChecksumsFiles
    | InvalidChecksumDigest(rel: Text)
    | ChecksummedFileMissing(rel: Text)
    | ChecksumMismatch(rel: Text)
    | MissingRequiredFile(rel: Text)
    | UnsealedSymlink(rel: Text)
    | UnsupportedEntry(rel: Text)
    | UnchecksummedFile(rel: Text)
    | MissingBlob(rel: Text)
    | BlobSizeMismatch(rel: Text)
    | BlobDigestMismatch(rel: Text)
    | BlobChecksumMismatch(rel: Text)
    | NotCanonical
    | PackageDigestMismatch
    | LockDigestMismatch
    | PackageChecksRejected
    | ExperimentMismatch
    | StagingRejected

  // ---- digests and paths ----

  const SHA_PREFIX: Text := Ascii("sha256:")

  predicate IsLowerHex(u: CodeUnit) { IsDigit(u) || 0x61 <= u <= 0x66 }

  /** `/^sha256:[0-9a-f]{64}$/`. */
  predicate IsDigest(t: Text) {
    |t| == 71 && SHA_PREFIX <= t && forall i :: 7 <= i < 71 ==> IsLowerHex(t[i])
  }

  /** `toLowerCase` on ASCII letters. */
  function Lower(t: Text): Text {
    seq(|t|, i requires 0 <= i < |t| => if 0x41 <= t[i] <= 0x5a then t[i] + 0x20 else t[i])
  }

  const DOT: CodeUnit := 0x2e

  /** The parts of a path without empty and `.` parts. */
  function RealParts(parts: seq<Text>): seq<Text> {
    if parts == [] then []
    else if parts[0] == [] || parts[0] == [DOT] then RealParts(parts[1..])
    else [parts[0]] + RealParts(parts[1..])
  }

  predicate UnsafeRel(trimmed: Text) {
    trimmed == [] || BACKSLASH in trimmed || trimmed[0] == SLASH || [DOT, DOT] in SplitOn(trimmed, SLASH)
  }

  /** Where a relative path of the package leads; the root itself is the empty path. */
  function PackagePath(raw: Text): Option<Text> {
    var trimmed := Trim(raw);
    if UnsafeRel(trimmed) then None
    else
      var parts := RealParts(SplitOn(trimmed, SLASH));
      Some(if parts == [] then [] else JoinWith(parts, SLASH))
  }

  predicate IsRealPart(part: Text) { part != [] && part != [0x2e] }

  ghost predicate IsAmong(positions: seq<nat>, n: nat) { exists i :: 0 <= i < |positions| && positions[i] == n }

  predicate Rising(positions: seq<nat>) { forall i, j :: 0 <= i < j < |positions| ==> positions[i] < positions[j] }

  /** `positions` are, in order, those from `start` on of the parts that are neither empty nor a dot. */
  ghost predicate RealPositions(parts: seq<Text>, start: nat, positions: seq<nat>) {
    && Rising(positions)
    && (forall i :: 0 <= i < |positions| ==> start <= positions[i] < |parts| && IsRealPart(parts[positions[i]]))
    && forall n :: start <= n < |parts| && IsRealPart(parts[n]) ==> IsAmong(positions, n)
  }

  lemma {:induction false} PositionsFrom(parts: seq<Text>, start: nat, below: seq<nat>)
    requires start < |parts| && RealPositions(parts, start + 1, below)
    ensures RealPositions(parts, start, if IsRealPart(parts[start]) then [start] + below else below)
  {
    hide IsRealPart, IsAmong, Rising;
    if IsRealPart(parts[start]) {
      var positions := [start] + below;
      forall n | start <= n < |parts| && IsRealPart(parts[n]) ensures IsAmong(positions, n) {
        if n == start || IsAmong(below, n) { AmongMore(start, below, n); }
      }
      forall i | 0 <= i < |positions| ensures start <= positions[i] < |parts| && IsRealPart(parts[positions[i]]) {
        if i > 0 { assert positions[i] == below[i - 1]; }
      }
      RisingMore(start, below);
    }
  }

  lemma {:induction false} AmongMore(first: nat, below: seq<nat>, n: nat)
    requires n == first || IsAmong(below, n)
    ensures IsAmong([first] + below, n)
  {
    var positions := [first] + below;
    if n == first { assert positions[0] == n; } else {
      var i :| 0 <= i < |below| && below[i] == n;
      assert positions[i + 1] == n;
    }
  }

  lemma {:induction false} RisingMore(first: nat, below: seq<nat>)
    requires Rising(below) && forall i :: 0 <= i < |below| ==> first < below[i]
    ensures Rising([first] + below)
  {
    var positions := [first] + below;
    forall i, j | 0 <= i < j < |positions| ensures positions[i] < positions[j] {
      assert positions[j] == below[j - 1];
      if i > 0 { assert positions[i] == below[i - 1]; }
    }
  }

  /** The real parts from `start` on are those at the positions. */
  ghost predicate PartsAt(parts: seq<Text>, start: nat, positions: seq<nat>)
    requires start <= |parts|
  {
    && |RealParts(parts[start..])| == |positions|
    && forall i :: 0 <= i < |positions| ==> positions[i] < |parts| && RealParts(parts[start..])[i] == parts[positions[i]]
  }

  lemma {:induction false} RealPartsAt(parts: seq<Text>, start: nat) returns (positions: seq<nat>)
    requires start <= |parts|
    ensures RealPositions(parts, start, positions) && PartsAt(parts, start, positions)
    decreases |parts| - start
  {
    positions := [];
    if start < |parts| {
      hide *;
      var below := RealPartsAt(parts, start + 1);
      PositionsFrom(parts, start, below);
      PartsFrom(parts, start, below);
      positions := if IsRealPart(parts[start]) then [start] + below else below;
    }
  }

  lemma {:induction false} PartsFrom(parts: seq<Text>, start: nat, below: seq<nat>)
    requires start < |parts| && PartsAt(parts, start + 1, below)
    ensures PartsAt(parts, start, if IsRealPart(parts[start]) then [start] + below else below)
  {
    assert parts[start..][1..] == parts[start + 1..];
    RealPartsStep(parts[start..]);
    hide RealParts, IsRealPart;
  }

  lemma RealPartsStep(parts: seq<Text>)
    requires parts != []
    ensures RealParts(parts) == if IsRealPart(parts[0]) then [parts[0]] + RealParts(parts[1..]) else RealParts(parts[1..])
  {
  }

  /** A path is refused exactly when, trimmed, it is empty, holds a backslash, begins with a slash or has a part `..`.
      Any other keeps its parts in order, except the empty ones and single dots. */
  lemma {:induction false} PackagePathIs(raw: Text) returns (positions: seq<nat>)
    ensures var t := Trim(raw);
            && (PackagePath(raw).None? <==> t == [] || 0x5c in t || t[0] == 0x2f || [0x2e, 0x2e] in SplitOn(t, 0x2f))
            && (PackagePath(raw).Some? ==>
                  && RealPositions(SplitOn(t, 0x2f), 0, positions)
                  && var kept := seq(|positions|, i requires 0 <= i < |positions| => SplitOn(t, 0x2f)[positions[i]]);
                     PackagePath(raw).value == if kept == [] then [] else JoinWith(kept, 0x2f))
  {
    var parts := SplitOn(Trim(raw), SLASH);
    positions := RealPartsAt(parts, 0);
    assert parts[0..] == parts;
    hide Trim, SplitOn, JoinWith, RealParts;
    var kept := seq(|positions|, i requires 0 <= i < |positions| => parts[positions[i]]);
    assert kept == RealParts(parts);
  }

  /** `normalizePackageRel`: as above, but a final slash stays and the root is a dot. */
  function NormalizeRel(raw: Text): Option<Text> {
    var path := PackagePath(raw);
    if path.None? then None
    else if path.value == [] then Some([DOT])
    else if Trim(raw)[|Trim(raw)| - 1] == SLASH then Some(path.value + [SLASH])
    else path
  }

  function FileAt(pkg: Package, raw: Text): Option<Bytes> {
    var path := PackagePath(raw);
    if path.Some? && path.value in pkg && pkg[path.value].File? then Some(pkg[path.value].content) else None
  }

  // ---- fields of JSON objects ----

  function Field(v: Json, key: Text): Option<Json> {
    if v.Obj? && HasKey(v.entries, key) then Some(Get(v.entries, key)) else None
  }

  function TextField(v: Json, key: Text): Option<Text> {
    var f := Field(v, key);
    if f.Some? && f.value.Str? then Some(f.value.s) else None
  }

  // ---- the loops of the check ----

  /** One entry of `checksums.files`. */
  function CheckEntry(env: Env, pkg: Package, e: Entry): Option<InspectionError> {
    if !e.value.Str? || !IsDigest(e.value.s) then Some(InvalidChecksumDigest(e.key))
    else if PackagePath(e.key).None? then Some(UnsafePath(e.key))
    else if FileAt(pkg, e.key).None? then Some(ChecksummedFileMissing(e.key))
    else if Lower(env.hash(FileAt(pkg, e.key).value)) != Lower(e.value.s) then Some(ChecksumMismatch(e.key))
    else None
  }

  function CheckEntries(env: Env, pkg: Package, entries: seq<Entry>): Option<InspectionError> {
    if entries == [] then None
    else if CheckEntry(env, pkg, entries[0]).Some? then CheckEntry(env, pkg, entries[0])
    else CheckEntries(env, pkg, entries[1..])
  }

  /** One path of the directory listing: sealed means a directory, metadata, or checksummed. */
  function CheckSealed(pkg: Package, metadata: set<Text>, files: seq<Entry>, rel: Text): Option<InspectionError>
    requires rel in pkg
  {
    match pkg[rel]
    case Directory => None
    case Symlink => Some(UnsealedSymlink(rel))
    case Special => Some(UnsupportedEntry(rel))
    case File(_) => if rel in metadata || HasKey(files, rel) then None else Some(UnchecksummedFile(rel))
  }

  function CheckAllSealed(pkg: Package, metadata: set<Text>, files: seq<Entry>, listing: seq<Text>): Option<InspectionError>
    requires forall rel :: rel in listing ==> rel in pkg
  {
    if listing == [] then None
    else if CheckSealed(pkg, metadata, files, listing[0]).Some? then CheckSealed(pkg, metadata, files, listing[0])
    else CheckAllSealed(pkg, metadata, files, listing[1..])
  }

  function BlobRel(digest: Text): Text {
    Ascii("blobs/sha256/") + Lower(if |digest| < 7 then [] else digest[7..]) + Ascii("/blob")
  }

  /** One path of the listing as a content-addressed pointer: its blob must exist, fit, and be checksummed. */
  function CheckPointer(env: Env, pkg: Package, files: seq<Entry>, rel: Text): Option<InspectionError>
    requires rel in pkg
  {
    if !pkg[rel].File? || env.casPointer(pkg[rel].content).None? then None
    else
      var pointer := env.casPointer(pkg[rel].content).value;
      if !IsDigest(pointer.digest) then None
      else
        var blobRel := BlobRel(pointer.digest);
        var blob := FileAt(pkg, blobRel);
        var checksum := TextField(Obj(files), blobRel);
        if blob.None? then Some(MissingBlob(rel))
        else if |blob.value| != pointer.sizeBytes then Some(BlobSizeMismatch(rel))
        else if Lower(env.hash(blob.value)) != Lower(pointer.digest) then Some(BlobDigestMismatch(rel))
        else if checksum.None? || Lower(checksum.value) != Lower(pointer.digest) then Some(BlobChecksumMismatch(rel))
        else None
  }

  function CheckPointers(env: Env, pkg: Package, files: seq<Entry>, listing: seq<Text>): Option<InspectionError>
    requires forall rel :: rel in listing ==> rel in pkg
  {
    if listing == [] then None
    else if CheckPointer(env, pkg, files, listing[0]).Some? then CheckPointer(env, pkg, files, listing[0])
    else CheckPointers(env, pkg, files, listing[1..])
  }

  // ---- the whole check ----

  const CHECKSUMS_REF: Text := Ascii("checksums_ref")
  const PACKAGE_CHECKS_REF: Text := Ascii("package_checks_ref")
  const PACKAGE_DIGEST: Text := Ascii("package_digest")
  const RESOLVED_EXPERIMENT: Text := Ascii("resolved_experiment.json")
  const STAGING_MANIFEST: Text := Ascii("staging_manifest.json")
  const PACKAGE_LOCK: Text := Ascii("package.lock")
  const SCHEMA_VERSION: Text := Ascii("schema_version")

  /** `validateMetadataRefOutsideRuntimePayload`. */
  function CheckRef(raw: Text, field: Text): Option<InspectionError> {
    var rel := NormalizeRel(raw);
    if rel.None? then Some(UnsafePath(field))
    else if SplitOn(rel.value, SLASH)[0] in PayloadRoots() then Some(RefInsidePayload(field))
    else None
  }

  function PayloadRoots(): set<Text> {
    { Ascii("tasks"), Ascii("files"), Ascii("agent_builds"), Ascii("blobs"), Ascii("runtime_assets"), Ascii("host_grader_capabilities") }
  }

  function MetadataPaths(manifest: Json): set<Text> {
    var checksumsRef, checksRef := TextField(manifest, CHECKSUMS_REF), TextField(manifest, PACKAGE_CHECKS_REF);
    { Ascii("manifest.json"), PACKAGE_LOCK, Ascii("checksums.json"), Ascii("package_checks.json") }
    + (if checksumsRef.Some? && NormalizeRel(checksumsRef.value).Some? then { NormalizeRel(checksumsRef.value).value } else {})
    + (if checksRef.Some? && NormalizeRel(checksRef.value).Some? then { NormalizeRel(checksRef.value).value } else {})
  }

  /** A small JSON object file, as the parser reads it. */
  function ReadObject(env: Env, pkg: Package, rel: Text): Result<Json, InspectionError> {
    var content := FileAt(pkg, rel);
    if content.None? then Err(BadJsonFile(rel))
    else
      var parsed := env.parse(content.value);
      if parsed.None? || !parsed.value.Obj? then Err(BadJsonFile(rel)) else Ok(parsed.value)
  }

  /** A non-blank string property of the manifest. */
  function RequiredText(manifest: Json, key: Text): Result<Text, InspectionError> {
    var t := TextField(manifest, key);
    if t.None? || Trim(t.value) == [] then Err(MissingString(key)) else Ok(t.value)
  }

  function Passes(e: Option<InspectionError>): Result<bool, InspectionError> {
    if e.Some? then Err(e.value) else Ok(true)
  }

  function HasSchema(v: Json, name: string): bool { TextField(v, SCHEMA_VERSION) == Some(Ascii(name)) }

  /** The entries of `checksums.files`. */
  function ChecksumFiles(env: Env, pkg: Package, manifest: Json): Result<seq<Entry>, InspectionError> {
    var ref :- RequiredText(manifest, CHECKSUMS_REF);
    var outside :- Passes(CheckRef(ref, CHECKSUMS_REF));
    var checksums :- ReadObject(env, pkg, ref);
    if !HasSchema(checksums, "sealed_package_checksums_v2") then Err(InvalidSchema(ref))
    else
      var files := Field(checksums, Ascii("files"));
      if files.None? || !files.value.Obj? then Err(MissingChecksumsFiles) else Ok(files.value.entries)
  }

  ghost predicate IsListing(pkg: Package, listing: seq<Text>) {
    forall rel :: rel in listing <==> rel in pkg
  }

  /** Everything up to the comparison with the declared digest. */
  function CheckPayload(env: Env, pkg: Package, manifest: Json, files: seq<Entry>,
                        listing: seq<Text>): Result<bool, InspectionError>
    requires forall rel :: rel in listing ==> rel in pkg
  {
    var checksummed :- Passes(CheckEntries(env, pkg, files));
    if !HasKey(files, RESOLVED_EXPERIMENT) then Err(MissingRequiredFile(RESOLVED_EXPERIMENT))
    else if !HasKey(files, STAGING_MANIFEST) then Err(MissingRequiredFile(STAGING_MANIFEST))
    else
      var isSealed :- Passes(CheckAllSealed(pkg, MetadataPaths(manifest), files, listing));
      Passes(CheckPointers(env, pkg, files, listing))
  }

  /** The declared digest, once it equals the computed one. */
  function CheckDigest(env: Env, manifest: Json, files: seq<Entry>): Result<Text, InspectionError>
    requires WellFormed(Obj(files))
  {
    var text := CanonicalJsonStringify(Obj(files));
    if text.Err? then Err(NotCanonical)
    else
      var declared :- RequiredText(manifest, PACKAGE_DIGEST);
      if env.hashText(text.value) != declared then Err(PackageDigestMismatch) else Ok(declared)
  }

  lemma {:induction false} FilesWellFormed(env: Env, pkg: Package, manifest: Json)
    requires Sound(env) && ChecksumFiles(env, pkg, manifest).Ok?
    ensures WellFormed(Obj(ChecksumFiles(env, pkg, manifest).value))
  {
    var checksums := ReadObject(env, pkg, TextField(manifest, CHECKSUMS_REF).value).value;
    FieldWellFormed(checksums, Ascii("files"));
    hide Ascii, CheckRef;
  }

  lemma {:induction false} FieldWellFormed(v: Json, key: Text)
    requires WellFormed(v) && Field(v, key).Some?
    ensures WellFormed(Field(v, key).value)
  {
    var i := IndexOfKey(v.entries, key);
  }

  function CheckLock(env: Env, pkg: Package, digest: Text): Result<bool, InspectionError> {
    var lock :- ReadObject(env, pkg, PACKAGE_LOCK);
    if !HasSchema(lock, "sealed_package_lock_v1") then Err(InvalidSchema(PACKAGE_LOCK))
    else if TextField(lock, PACKAGE_DIGEST) != Some(digest) then Err(LockDigestMismatch)
    else Ok(true)
  }

  function CheckReport(env: Env, pkg: Package, manifest: Json, digest: Text): Result<bool, InspectionError> {
    var ref := TextField(manifest, PACKAGE_CHECKS_REF);
    if ref.None? then Err(MissingString(PACKAGE_CHECKS_REF)) else
      var outside :- Passes(CheckRef(ref.value, PACKAGE_CHECKS_REF));
      var report :- ReadObject(env, pkg, ref.value);
      if HasSchema(report, "package_checks_v1") && TextField(report, PACKAGE_DIGEST) == Some(digest) && env.checksPass(report)
      then Ok(true) else Err(PackageChecksRejected)
  }

  /** The resolved experiment of the package, equal to the one in the manifest as canonical JSON. */
  function CheckExperiment(env: Env, pkg: Package, manifest: Json): Result<Json, InspectionError>
    requires Sound(env) && WellFormed(manifest)
  {
    var experiment :- ReadObject(env, pkg, RESOLVED_EXPERIMENT);
    var declared := Field(manifest, Ascii("resolved_experiment"));
    if declared.None? || !declared.value.Obj? then Err(ExperimentMismatch)
    else
      FieldWellFormed(manifest, Ascii("resolved_experiment"));
      var (left, right) := (CanonicalJsonStringify(declared.value), CanonicalJsonStringify(experiment));
      if left.Err? || right.Err? then Err(NotCanonical)
      else if left != right then Err(ExperimentMismatch)
      else Ok(experiment)
  }

  /** The files beside the payload: the lock, the report of the package checks, the experiment and the staging manifest. */
  function CheckClaims(env: Env, pkg: Package, manifest: Json, digest: Text): Result<Json, InspectionError>
    requires Sound(env) && WellFormed(manifest)
  {
    var lock :- CheckLock(env, pkg, digest);
    var report :- CheckReport(env, pkg, manifest, digest);
    var experiment :- CheckExperiment(env, pkg, manifest);
    var staging :- ReadObject(env, pkg, STAGING_MANIFEST);
    if env.stagingValid(pkg, staging) then Ok(experiment) else Err(StagingRejected)
  }

  /** `verifySealedPackageIntegrity`: the resolved experiment of an accepted package. */
  function Verify(env: Env, pkg: Package, manifest: Json, listing: seq<Text>): Result<Json, InspectionError>
    requires Sound(env) && WellFormed(manifest) && IsListing(pkg, listing)
  {
    var files :- ChecksumFiles(env, pkg, manifest);
    FilesWellFormed(env, pkg, manifest);
    var payload :- CheckPayload(env, pkg, manifest, files, listing);
    var digest :- CheckDigest(env, manifest, files);
    CheckClaims(env, pkg, manifest, digest)
  }

  // ---- the check as it runs ----

  method VerifyChecksums(env: Env, pkg: Package, files: seq<Entry>) returns (e: Option<InspectionError>)
    ensures e == CheckEntries(env, pkg, files)
  {
    for i := 0 to |files|
      invariant CheckEntries(env, pkg, files[i..]) == CheckEntries(env, pkg, files)
    {
      assert files[i..][1..] == files[i + 1..];
      var rel, expected := files[i].key, files[i].value;
      if !expected.Str? || !IsDigest(expected.s) { return Some(InvalidChecksumDigest(rel)); }
      if PackagePath(rel).None? { return Some(UnsafePath(rel)); }
      var content := FileAt(pkg, rel);
      if content.None? { return Some(ChecksummedFileMissing(rel)); }
      var actual := env.hash(content.value);
      if Lower(actual) != Lower(expected.s) { return Some(ChecksumMismatch(rel)); }
    }
    return None;
  }

  method VerifyNoUnsealed(pkg: Package, manifest: Json, files: seq<Entry>,
                          listing: seq<Text>) returns (e: Option<InspectionError>)
    requires forall rel :: rel in listing ==> rel in pkg
    ensures e == CheckAllSealed(pkg, MetadataPaths(manifest), files, listing)
  {
    var metadata := MetadataPaths(manifest);
    hide MetadataPaths;
    for i := 0 to |listing|
      invariant CheckAllSealed(pkg, metadata, files, listing[i..]) == CheckAllSealed(pkg, metadata, files, listing)
    {
      assert listing[i..][1..] == listing[i + 1..];
      var rel := listing[i];
      if pkg[rel].Directory? { continue; }
      if pkg[rel].Symlink? { return Some(UnsealedSymlink(rel)); }
      if !pkg[rel].File? { return Some(UnsupportedEntry(rel)); }
      if rel in metadata || HasKey(files, rel) { continue; }
      return Some(UnchecksummedFile(rel));
    }
    return None;
  }

  method VerifyCasPointers(env: Env, pkg: Package, files: seq<Entry>, listing: seq<Text>) returns (e: Option<InspectionError>)
    requires forall rel :: rel in listing ==> rel in pkg
    ensures e == CheckPointers(env, pkg, files, listing)
  {
    hide CheckPointer;
    for i := 0 to |listing|
      invariant CheckPointers(env, pkg, files, listing[i..]) == CheckPointers(env, pkg, files, listing)
    {
      assert listing[i..][1..] == listing[i + 1..];
      var checked := CheckPointer(env, pkg, files, listing[i]);
      if checked.Some? { return checked; }
    }
    return None;
  }

  /** `verifySealedPackageIntegrity`. */
  method VerifyIntegrity(env: Env, pkg: Package, manifest: Json, listing: seq<Text>) returns (r: Result<Json, InspectionError>)
    requires Sound(env) && WellFormed(manifest) && IsListing(pkg, listing)
    ensures r == Verify(env, pkg, manifest, listing)
  {
    hide CheckEntries, CheckAllSealed, CheckPointers, MetadataPaths, CheckDigest, CheckClaims, ChecksumFiles, HasKey;
    var files :- ChecksumFiles(env, pkg, manifest);
    FilesWellFormed(env, pkg, manifest);
    var violation := VerifyChecksums(env, pkg, files);
    if violation.Some? { return Err(violation.value); }
    if !HasKey(files, RESOLVED_EXPERIMENT) { return Err(MissingRequiredFile(RESOLVED_EXPERIMENT)); }
    if !HasKey(files, STAGING_MANIFEST) { return Err(MissingRequiredFile(STAGING_MANIFEST)); }
    violation := VerifyNoUnsealed(pkg, manifest, files, listing);
    if violation.Some? { return Err(violation.value); }
    violation := VerifyCasPointers(env, pkg, files, listing);
    if violation.Some? { return Err(violation.value); }
    var digest :- CheckDigest(env, manifest, files);
    r := CheckClaims(env, pkg, manifest, digest);
  }

  // ---- what acceptance means ----

  lemma {:induction false} EntriesChecked(env: Env, pkg: Package, entries: seq<Entry>, i: nat)
    requires CheckEntries(env, pkg, entries).None? && i < |entries|
    ensures CheckEntry(env, pkg, entries[i]).None?
  {
    hide CheckEntry;
    if i > 0 { EntriesChecked(env, pkg, entries[1..], i - 1); }
  }

  lemma {:induction false} ListingSealed(pkg: Package, metadata: set<Text>, files: seq<Entry>, listing: seq<Text>, rel: Text)
    requires (forall r :: r in listing ==> r in pkg) && rel in listing && CheckAllSealed(pkg, metadata, files, listing).None?
    ensures CheckSealed(pkg, metadata, files, rel).None?
  {
    hide CheckSealed;
    if listing[0] != rel { ListingSealed(pkg, metadata, files, listing[1..], rel); }
  }

  lemma {:induction false} PointersChecked(env: Env, pkg: Package, files: seq<Entry>, listing: seq<Text>, rel: Text)
    requires (forall r :: r in listing ==> r in pkg) && rel in listing && CheckPointers(env, pkg, files, listing).None?
    ensures CheckPointer(env, pkg, files, rel).None?
  {
    hide CheckPointer;
    if listing[0] != rel { PointersChecked(env, pkg, files, listing[1..], rel); }
  }

  lemma {:induction false} VerifyOk(env: Env, pkg: Package, manifest: Json, listing: seq<Text>)
    requires Sound(env) && WellFormed(manifest) && IsListing(pkg, listing) && Verify(env, pkg, manifest, listing).Ok?
    ensures ChecksumFiles(env, pkg, manifest).Ok?
    ensures var files := ChecksumFiles(env, pkg, manifest).value;
            && WellFormed(Obj(files)) && CheckPayload(env, pkg, manifest, files, listing).Ok? && CheckDigest(env, manifest, files).Ok?
            && Verify(env, pkg, manifest, listing) == CheckClaims(env, pkg, manifest, CheckDigest(env, manifest, files).value)
  {
    FilesWellFormed(env, pkg, manifest);
    hide ChecksumFiles, CheckPayload, CheckDigest, CheckClaims;
  }

  lemma {:induction false} ClaimsOk(env: Env, pkg: Package, manifest: Json, digest: Text)
    requires Sound(env) && WellFormed(manifest) && CheckClaims(env, pkg, manifest, digest).Ok?
    ensures CheckExperiment(env, pkg, manifest).Ok? && CheckClaims(env, pkg, manifest, digest) == CheckExperiment(env, pkg, manifest)
  {
    hide CheckLock, CheckReport, CheckExperiment, ReadObject;
  }

  lemma {:induction false} PayloadParts(env: Env, pkg: Package, manifest: Json, files: seq<Entry>, listing: seq<Text>)
    requires (forall rel :: rel in listing ==> rel in pkg) && CheckPayload(env, pkg, manifest, files, listing).Ok?
    ensures CheckEntries(env, pkg, files).None?
    ensures HasKey(files, RESOLVED_EXPERIMENT) && HasKey(files, STAGING_MANIFEST)
    ensures CheckAllSealed(pkg, MetadataPaths(manifest), files, listing).None?
    ensures CheckPointers(env, pkg, files, listing).None?
  {
    hide CheckEntries, CheckAllSealed, CheckPointers, MetadataPaths, Ascii, HasKey;
  }

  lemma {:induction false} DigestParts(env: Env, manifest: Json, files: seq<Entry>)
    requires WellFormed(Obj(files)) && CheckDigest(env, manifest, files).Ok?
    ensures CanonicalJsonStringify(Obj(files)).Ok?
    ensures TextField(manifest, PACKAGE_DIGEST) == Some(env.hashText(CanonicalJsonStringify(Obj(files)).value))
  {
    hide CanonicalJsonStringify, Ascii, TextField;
  }

  lemma {:induction false} ExperimentParts(env: Env, pkg: Package, manifest: Json)
    requires Sound(env) && WellFormed(manifest) && CheckExperiment(env, pkg, manifest).Ok?
    ensures CheckExperiment(env, pkg, manifest) == ReadObject(env, pkg, RESOLVED_EXPERIMENT)
  {
    hide CanonicalJsonStringify, Ascii, ReadObject, Field;
  }

  /** The facts an accepted package has passed. */
  lemma {:induction false} VerifyParts(env: Env, pkg: Package, manifest: Json, listing: seq<Text>)
    requires Sound(env) && WellFormed(manifest) && IsListing(pkg, listing) && Verify(env, pkg, manifest, listing).Ok?
    ensures ChecksumFiles(env, pkg, manifest).Ok?
    ensures var files := ChecksumFiles(env, pkg, manifest).value;
            && WellFormed(Obj(files))
            && CheckEntries(env, pkg, files).None?
            && HasKey(files, RESOLVED_EXPERIMENT) && HasKey(files, STAGING_MANIFEST)
            && CheckAllSealed(pkg, MetadataPaths(manifest), files, listing).None?
            && CheckPointers(env, pkg, files, listing).None?
            && CanonicalJsonStringify(Obj(files)).Ok?
            && TextField(manifest, PACKAGE_DIGEST) == Some(env.hashText(CanonicalJsonStringify(Obj(files)).value))
            && ReadObject(env, pkg, RESOLVED_EXPERIMENT) == Verify(env, pkg, manifest, listing)
  {
    assert forall rel :: rel in listing ==> rel in pkg;
    hide *;
    VerifyOk(env, pkg, manifest, listing);
    var files := ChecksumFiles(env, pkg, manifest).value;
    PayloadParts(env, pkg, manifest, files, listing);
    DigestParts(env, manifest, files);
    ClaimsOk(env, pkg, manifest, CheckDigest(env, manifest, files).value);
    ExperimentParts(env, pkg, manifest);
  }

  lemma {:induction false} LowerDigest(t: Text)
    requires IsDigest(t)
    ensures Lower(t) == t
  {
    hide Ascii;
    assert SHA_PREFIX == Ascii("sha256:");
    forall i | 0 <= i < |t| ensures Lower(t)[i] == t[i] {
      if i < 7 { PrefixLower(i); }
    }
  }

  lemma PrefixLower(i: nat)
    requires i < 7
    ensures |SHA_PREFIX| == 7 && !(0x41 <= SHA_PREFIX[i] <= 0x5a)
  {
  }

  /** In an accepted package every file that is not metadata is checksummed under its own path, nothing is a symlink or
      a special file, and every checksummed path leads to a file with that digest. */
  lemma {:induction false} AcceptedIsSealed(env: Env, pkg: Package, manifest: Json, listing: seq<Text>)
    requires Sound(env) && WellFormed(manifest) && IsListing(pkg, listing) && Verify(env, pkg, manifest, listing).Ok?
    ensures var files := ChecksumFiles(env, pkg, manifest).value;
            && (forall rel :: rel in pkg ==> pkg[rel].Directory? || pkg[rel].File?)
            && (forall rel :: rel in pkg && pkg[rel].File? ==> rel in MetadataPaths(manifest) || HasKey(files, rel))
            && (forall i :: 0 <= i < |files| ==>
                  FileAt(pkg, files[i].key).Some? && files[i].value == Str(env.hash(FileAt(pkg, files[i].key).value)))
  {
    assert forall rel :: rel in listing <==> rel in pkg;
    assert forall b :: IsDigest(env.hash(b));
    hide *;
    VerifyParts(env, pkg, manifest, listing);
    var files := ChecksumFiles(env, pkg, manifest).value;
    NodesSealed(pkg, MetadataPaths(manifest), files, listing);
    ChecksumsHold(env, pkg, files);
  }

  lemma {:induction false} NodesSealed(pkg: Package, metadata: set<Text>, files: seq<Entry>, listing: seq<Text>)
    requires (forall rel :: rel in listing <==> rel in pkg) && CheckAllSealed(pkg, metadata, files, listing).None?
    ensures forall rel :: rel in pkg ==> pkg[rel].Directory? || pkg[rel].File?
    ensures forall rel :: rel in pkg && pkg[rel].File? ==> rel in metadata || HasKey(files, rel)
  {
    hide HasKey;
    forall rel | rel in pkg
      ensures pkg[rel].Directory? || pkg[rel].File?
      ensures pkg[rel].File? ==> rel in metadata || HasKey(files, rel)
    {
      ListingSealed(pkg, metadata, files, listing, rel);
    }
  }

  lemma {:induction false} ChecksumsHold(env: Env, pkg: Package, files: seq<Entry>)
    requires CheckEntries(env, pkg, files).None? && forall b :: IsDigest(env.hash(b))
    ensures forall i :: 0 <= i < |files| ==>
              FileAt(pkg, files[i].key).Some? && files[i].value == Str(env.hash(FileAt(pkg, files[i].key).value))
  {
    hide FileAt, PackagePath, IsDigest, Lower;
    forall i | 0 <= i < |files|
      ensures FileAt(pkg, files[i].key).Some? && files[i].value == Str(env.hash(FileAt(pkg, files[i].key).value))
    {
      EntriesChecked(env, pkg, files, i);
      LowerDigest(files[i].value.s);
      LowerDigest(env.hash(FileAt(pkg, files[i].key).value));
    }
  }

  lemma DigestsAreFinite(files: seq<Entry>)
    requires forall i :: 0 <= i < |files| ==> files[i].value.Str?
    ensures AllFinite(Obj(files))
  {
  }

  /** Two accepted packages with the same declared digest list the same checksums, except under `__proto__`. */
  lemma {:induction false} SameDigestSameChecksums(env: Env, p: Package, manifestP: Json, listingP: seq<Text>,
        q: Package, manifestQ: Json, listingQ: seq<Text>,
                                rel: Text)
    requires Sound(env) && WellFormed(manifestP) && IsListing(p, listingP) && Verify(env, p, manifestP, listingP).Ok?
    requires WellFormed(manifestQ) && IsListing(q, listingQ) && Verify(env, q, manifestQ, listingQ).Ok?
    requires NoCollision(env, p, manifestP, q, manifestQ) && TextField(manifestP, PACKAGE_DIGEST) == TextField(manifestQ, PACKAGE_DIGEST)
    requires ChecksumFiles(env, p, manifestP).Ok? && rel != PROTO && HasKey(ChecksumFiles(env, p, manifestP).value, rel)
    ensures ChecksumFiles(env, q, manifestQ).Ok? && HasKey(ChecksumFiles(env, q, manifestQ).value, rel)
    ensures Get(ChecksumFiles(env, p, manifestP).value, rel) == Get(ChecksumFiles(env, q, manifestQ).value, rel)
    ensures Get(ChecksumFiles(env, p, manifestP).value, rel).Str?
  {
    hide *;
    AcceptedIsSealed(env, p, manifestP, listingP);
    AcceptedIsSealed(env, q, manifestQ, listingQ);
    VerifyParts(env, p, manifestP, listingP);
    VerifyParts(env, q, manifestQ, listingQ);
    var fp, fq := ChecksumFiles(env, p, manifestP).value, ChecksumFiles(env, q, manifestQ).value;
    SameText(env, p, manifestP, q, manifestQ);
    DigestsAreFinite(fp);
    DigestsAreFinite(fq);
    CanonicalJsonEqualIffSame(Obj(fp), Obj(fq));
    SameStrings(fp, fq, rel);
  }

  /** The hash tells apart the checksum texts of the two packages, and the contents of their files. */
  ghost predicate NoCollision(env: Env, p: Package, manifestP: Json, q: Package, manifestQ: Json)
    requires Sound(env)
  {
    && (var (s, t) := (ChecksumText(env, p, manifestP), ChecksumText(env, q, manifestQ));
        s.Some? && t.Some? && env.hashText(s.value) == env.hashText(t.value) ==> s == t)
    && (forall x, y :: x in p && y in q && p[x].File? && q[y].File? && env.hash(p[x].content) == env.hash(q[y].content) ==>
          p[x].content == q[y].content)
  }

  /** The text that the package digest is taken of. */
  function ChecksumText(env: Env, pkg: Package, manifest: Json): Option<Text>
    requires Sound(env)
  {
    var files := ChecksumFiles(env, pkg, manifest);
    if files.Err? then None
    else
      FilesWellFormed(env, pkg, manifest);
      var text := CanonicalJsonStringify(Obj(files.value));
      if text.Err? then None else Some(text.value)
  }

  lemma {:induction false} SameText(env: Env, p: Package, manifestP: Json, q: Package, manifestQ: Json)
    requires Sound(env) && NoCollision(env, p, manifestP, q, manifestQ)
    requires ChecksumFiles(env, p, manifestP).Ok? && ChecksumFiles(env, q, manifestQ).Ok?
    requires WellFormed(Obj(ChecksumFiles(env, p, manifestP).value)) && WellFormed(Obj(ChecksumFiles(env, q, manifestQ).value))
    requires var (s, t) := (CanonicalJsonStringify(Obj(ChecksumFiles(env, p, manifestP).value)), CanonicalJsonStringify(Obj(ChecksumFiles(env, q, manifestQ).value)));
             s.Ok? && t.Ok? && env.hashText(s.value) == env.hashText(t.value)
    ensures CanonicalJsonStringify(Obj(ChecksumFiles(env, p, manifestP).value)) == CanonicalJsonStringify(Obj(ChecksumFiles(env, q, manifestQ).value))
  {
    hide CanonicalJsonStringify, ChecksumFiles;
  }

  lemma {:induction false} SameContent(env: Env, p: Package, manifestP: Json, q: Package, manifestQ: Json, rel: Text)
    requires Sound(env) && NoCollision(env, p, manifestP, q, manifestQ) && FileAt(p, rel).Some? && FileAt(q, rel).Some?
    requires env.hash(FileAt(p, rel).value) == env.hash(FileAt(q, rel).value)
    ensures FileAt(p, rel) == FileAt(q, rel)
  {
    hide PackagePath, ChecksumText;
  }

  lemma {:induction false} SameStrings(fp: seq<Entry>, fq: seq<Entry>, rel: Text)
    requires Same(Obj(fp), Obj(fq)) && HasKey(fp, rel) && rel != PROTO && WellFormed(Obj(fp))
    requires (forall i :: 0 <= i < |fp| ==> fp[i].value.Str?) && (forall i :: 0 <= i < |fq| ==> fq[i].value.Str?)
    ensures HasKey(fq, rel) && Get(fp, rel) == Get(fq, rel) && Get(fp, rel).Str?
  {
    var i := IndexOfKey(fp, rel);
    GetDistinct(fp, i);
  }

  /** The package digest determines the payload: where the hash makes no collision, two accepted packages with the
      same declared digest have the same bytes wherever a checksummed path other than `__proto__` leads; in particular
      at every file that is metadata in neither and whose path stands for itself. */
  lemma {:induction false} DigestDeterminesPayload(env: Env, p: Package, manifestP: Json, listingP: seq<Text>,
        q: Package, manifestQ: Json, listingQ: seq<Text>,
                                rel: Text)
    requires Sound(env) && WellFormed(manifestP) && IsListing(p, listingP) && Verify(env, p, manifestP, listingP).Ok?
    requires WellFormed(manifestQ) && IsListing(q, listingQ) && Verify(env, q, manifestQ, listingQ).Ok?
    requires NoCollision(env, p, manifestP, q, manifestQ) && TextField(manifestP, PACKAGE_DIGEST) == TextField(manifestQ, PACKAGE_DIGEST) && rel != PROTO
    ensures ChecksumFiles(env, p, manifestP).Ok?
    ensures HasKey(ChecksumFiles(env, p, manifestP).value, rel) ==> FileAt(p, rel).Some? && FileAt(p, rel) == FileAt(q, rel)
    ensures rel in p && p[rel].File? && rel !in MetadataPaths(manifestP) && PackagePath(rel) == Some(rel) ==>
              rel in q && q[rel] == p[rel]
  {
    AcceptedIsSealed(env, p, manifestP, listingP);
    AcceptedIsSealed(env, q, manifestQ, listingQ);
    VerifyParts(env, p, manifestP, listingP);
    var fp := ChecksumFiles(env, p, manifestP).value;
    hide Verify, ChecksumFiles, MetadataPaths, CheckEntries, CheckAllSealed, CheckPointers, CanonicalJsonStringify, TextField, ReadObject, Ascii, PackagePath,
      NoCollision;
    if HasKey(fp, rel) {
      SameDigestSameChecksums(env, p, manifestP, listingP, q, manifestQ, listingQ, rel);
      ChecksumAt(env, p, fp, rel);
      ChecksumAt(env, q, ChecksumFiles(env, q, manifestQ).value, rel);
      SameContent(env, p, manifestP, q, manifestQ, rel);
    }
  }

  lemma {:induction false} ChecksumAt(env: Env, pkg: Package, files: seq<Entry>, rel: Text)
    requires HasKey(files, rel)
    requires forall i :: 0 <= i < |files| ==>
               FileAt(pkg, files[i].key).Some? && files[i].value == Str(env.hash(FileAt(pkg, files[i].key).value))
    ensures FileAt(pkg, rel).Some? && Get(files, rel) == Str(env.hash(FileAt(pkg, rel).value))
  {
    var i := IndexOfKey(files, rel);
  }

  /** Hence the two resolved experiments are equal. */
  lemma {:induction false} DigestDeterminesExperiment(env: Env, p: Package, manifestP: Json, listingP: seq<Text>,
        q: Package, manifestQ: Json, listingQ: seq<Text>)
    requires Sound(env) && WellFormed(manifestP) && IsListing(p, listingP) && Verify(env, p, manifestP, listingP).Ok?
    requires WellFormed(manifestQ) && IsListing(q, listingQ) && Verify(env, q, manifestQ, listingQ).Ok?
    requires NoCollision(env, p, manifestP, q, manifestQ) && TextField(manifestP, PACKAGE_DIGEST) == TextField(manifestQ, PACKAGE_DIGEST)
    ensures Verify(env, p, manifestP, listingP) == Verify(env, q, manifestQ, listingQ)
  {
    VerifyParts(env, p, manifestP, listingP);
    VerifyParts(env, q, manifestQ, listingQ);
    NotProto();
    DigestDeterminesPayload(env, p, manifestP, listingP, q, manifestQ, listingQ, RESOLVED_EXPERIMENT);
    hide Verify, ChecksumFiles, MetadataPaths, FileAt, CheckEntries, CheckAllSealed, CheckPointers, CanonicalJsonStringify, TextField, Ascii,
      NoCollision;
  }

  lemma {:induction false} NotProto()
    ensures RESOLVED_EXPERIMENT != PROTO
  {
    assert |RESOLVED_EXPERIMENT| == 24;
  }

  /** Every pointer file of an accepted package has its blob, of the declared size and digest, among the checksummed files. */
  lemma {:induction false} PointersLeadToBlobs(env: Env, pkg: Package, manifest: Json, listing: seq<Text>, rel: Text)
    requires Sound(env) && WellFormed(manifest) && IsListing(pkg, listing) && Verify(env, pkg, manifest, listing).Ok?
    requires rel in pkg && pkg[rel].File? && env.casPointer(pkg[rel].content).Some?
    requires IsDigest(env.casPointer(pkg[rel].content).value.digest)
    ensures ChecksumFiles(env, pkg, manifest).Ok?
    ensures var pointer, files := env.casPointer(pkg[rel].content).value, ChecksumFiles(env, pkg, manifest).value;
            var blob := FileAt(pkg, BlobRel(pointer.digest));
            && blob.Some? && |blob.value| == pointer.sizeBytes && env.hash(blob.value) == pointer.digest
            && HasKey(files, BlobRel(pointer.digest)) && Get(files, BlobRel(pointer.digest)) == Str(pointer.digest)
  {
    assert forall r :: r in listing <==> r in pkg;
    assert forall b :: IsDigest(env.hash(b));
    hide *;
    VerifyParts(env, pkg, manifest, listing);
    var files := ChecksumFiles(env, pkg, manifest).value;
    PointersChecked(env, pkg, files, listing, rel);
    ChecksumsHold(env, pkg, files);
    PointerParts(env, pkg, files, rel);
    ChecksumAt(env, pkg, files, BlobRel(env.casPointer(pkg[rel].content).value.digest));
  }

  lemma {:induction false} PointerParts(env: Env, pkg: Package, files: seq<Entry>, rel: Text)
    requires rel in pkg && pkg[rel].File? && env.casPointer(pkg[rel].content).Some? && CheckPointer(env, pkg, files, rel).None?
    requires IsDigest(env.casPointer(pkg[rel].content).value.digest) && forall b :: IsDigest(env.hash(b))
    ensures var pointer := env.casPointer(pkg[rel].content).value;
            var blob := FileAt(pkg, BlobRel(pointer.digest));
            && blob.Some? && |blob.value| == pointer.sizeBytes && env.hash(blob.value) == pointer.digest
            && HasKey(files, BlobRel(pointer.digest))
  {
    hide FileAt, PackagePath, IsDigest, Lower, BlobRel;
    var pointer := env.casPointer(pkg[rel].content).value;
    LowerDigest(pointer.digest);
    LowerDigest(env.hash(FileAt(pkg, BlobRel(pointer.digest)).value));
  }
}
