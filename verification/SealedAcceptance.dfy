/** Which packages the integrity check accepts, and what a refusal says, without the steps of the check. */
module SealedAcceptance {
  import opened Outcomes
  import opened ByteStrings
  import opened Texts
  import opened Json
  import opened Canonical
  import opened CanonicalText
  import opened Pointers
  import opened SealedPackage

  // ---- acceptance ----

  const RUNTIME_PAYLOAD_ROOTS: seq<string> := ["tasks", "files", "agent_builds", "blobs", "runtime_assets", "host_grader_capabilities"]

  /** The path is a safe path of the package, and neither a root of the runtime payload nor below one. */
  ghost predicate OutsidePayload(raw: Text) {
    && PackagePath(raw).Some?
    && forall i :: 0 <= i < |RUNTIME_PAYLOAD_ROOTS| ==>
         var root := Ascii(RUNTIME_PAYLOAD_ROOTS[i]); PackagePath(raw).value != root && !LiesUnder(root, PackagePath(raw).value)
  }

  /** The path leads to a file that parses to this object. */
  ghost predicate ReadsAs(env: Env, pkg: Package, raw: Text, v: Json) {
    FileAt(pkg, raw).Some? && env.parse(FileAt(pkg, raw).value) == Some(v) && v.Obj?
  }

  /** The manifest refers to a file of checksums, outside the payload, that lists these. */
  ghost predicate ChecksumsAre(env: Env, pkg: Package, manifest: Json, files: seq<Entry>) {
    var ref := TextField(manifest, CHECKSUMS_REF);
    && ref.Some? && Trim(ref.value) != [] && OutsidePayload(ref.value)
    && exists v :: ReadsAs(env, pkg, ref.value, v) && HasSchema(v, "sealed_package_checksums_v2")
                   && Field(v, Ascii("files")) == Some(Obj(files))
  }

  /** Every file is metadata or checksummed under its own name, and there is nothing else but directories. */
  ghost predicate Sealed(pkg: Package, manifest: Json, files: seq<Entry>) {
    && (forall rel :: rel in pkg ==> !pkg[rel].Symlink? && !pkg[rel].Special?)
    && (forall rel :: rel in pkg && pkg[rel].File? ==> rel in MetadataPaths(manifest) || HasKey(files, rel))
  }

  /** Every checksum is the digest of the file that its path leads to. */
  ghost predicate ChecksumsTrue(env: Env, pkg: Package, files: seq<Entry>) {
    forall i :: 0 <= i < |files| ==>
      FileAt(pkg, files[i].key).Some? && files[i].value == Str(env.hash(FileAt(pkg, files[i].key).value))
  }

  /** Every pointer has its blob, of its size and digest, under that checksum. */
  ghost predicate PointersBacked(env: Env, pkg: Package, files: seq<Entry>) {
    forall rel :: rel in pkg && pkg[rel].File? && env.casPointer(pkg[rel].content).Some?
                  && IsDigest(env.casPointer(pkg[rel].content).value.digest) ==>
      Backed(env, pkg, files, env.casPointer(pkg[rel].content).value)
  }

  ghost predicate Backed(env: Env, pkg: Package, files: seq<Entry>, pointer: CasPointer)
    requires IsDigest(pointer.digest)
  {
    var blobRel := Ascii("blobs/sha256/") + pointer.digest[7..] + Ascii("/blob");
    var blob := FileAt(pkg, blobRel);
    && blob.Some? && |blob.value| == pointer.sizeBytes && env.hash(blob.value) == pointer.digest
    && TextField(Obj(files), blobRel) == Some(pointer.digest)
  }

  /** The lock, the report of the checks, the experiment and the staging manifest agree with the manifest and its digest. */
  ghost predicate Vouched(env: Env, pkg: Package, manifest: Json, digest: Text)
    requires WellFormed(manifest)
  {
    && (exists lock :: ReadsAs(env, pkg, Ascii("package.lock"), lock) && HasSchema(lock, "sealed_package_lock_v1")
                       && TextField(lock, PACKAGE_DIGEST) == Some(digest))
    && (var ref := TextField(manifest, PACKAGE_CHECKS_REF);
        ref.Some? && OutsidePayload(ref.value)
        && exists report :: ReadsAs(env, pkg, ref.value, report) && HasSchema(report, "package_checks_v1")
                            && TextField(report, PACKAGE_DIGEST) == Some(digest) && env.checksPass(report))
    && (exists experiment :: ReadsAs(env, pkg, Ascii("resolved_experiment.json"), experiment) && SameExperiment(manifest, experiment))
    && exists staging :: ReadsAs(env, pkg, Ascii("staging_manifest.json"), staging) && env.stagingValid(pkg, staging)
  }

  /** The experiment of the manifest is the same value, with numbers JSON can carry. */
  ghost predicate SameExperiment(manifest: Json, experiment: Json)
    requires WellFormed(manifest)
  {
    var declared := Field(manifest, Ascii("resolved_experiment"));
    declared.Some? && declared.value.Obj? && AllFinite(declared.value) && AllFinite(experiment) && Same(declared.value, experiment)
  }

  ghost predicate Acceptable(env: Env, pkg: Package, manifest: Json, files: seq<Entry>)
    requires WellFormed(manifest)
  {
    && ChecksumsAre(env, pkg, manifest, files)
    && ChecksumsTrue(env, pkg, files)
    && HasKey(files, Ascii("resolved_experiment.json")) && HasKey(files, Ascii("staging_manifest.json"))
    && Sealed(pkg, manifest, files)
    && PointersBacked(env, pkg, files)
    && WellFormed(Obj(files))
    && (var text := CanonicalJsonStringify(Obj(files));
        text.Ok? && Trim(env.hashText(text.value)) != [] && TextField(manifest, PACKAGE_DIGEST) == Some(env.hashText(text.value))
        && Vouched(env, pkg, manifest, env.hashText(text.value)))
  }

  // ---- each step of the check ----

  lemma {:induction false} FirstSegment(t: Text, root: Text)
    requires SLASH !in root
    ensures SplitOn(t, SLASH)[0] == root <==> t == root || LiesUnder(root, t)
  {
    SplitAfter(root, [], SLASH);
    assert root + [] == root && SplitOn([], SLASH) == [[]];
    PrefixSegments(root, t);
    hide SplitOn;
  }

  /** The roots have no slash, and are not the package itself. */
  lemma {:induction false} RootsPlain(i: nat)
    requires i < |RUNTIME_PAYLOAD_ROOTS|
    ensures SLASH !in Ascii(RUNTIME_PAYLOAD_ROOTS[i]) && Ascii(RUNTIME_PAYLOAD_ROOTS[i]) != [DOT] && Ascii(RUNTIME_PAYLOAD_ROOTS[i]) != []
    ensures Ascii(RUNTIME_PAYLOAD_ROOTS[i]) in PayloadRoots()
  {
    var root := RUNTIME_PAYLOAD_ROOTS[i];
    assert |root| > 1 && forall j :: 0 <= j < |root| ==> root[j] != '/' && root[j] < '~';
  }

  lemma {:induction false} RootsAll(t: Text)
    requires t in PayloadRoots()
    ensures exists i :: 0 <= i < |RUNTIME_PAYLOAD_ROOTS| && t == Ascii(RUNTIME_PAYLOAD_ROOTS[i])
  {
    var roots := RUNTIME_PAYLOAD_ROOTS;
    assert roots[0] == "tasks" && roots[1] == "files" && roots[2] == "agent_builds" && roots[3] == "blobs";
    assert roots[4] == "runtime_assets" && roots[5] == "host_grader_capabilities";
    hide Ascii;
  }

  /** The segments of a normalized path: a final slash adds nothing to the first, and the package itself is a dot. */
  lemma {:induction false} NormalizedFirst(raw: Text, root: Text)
    requires PackagePath(raw).Some? && SLASH !in root && root != [DOT] && root != []
    ensures NormalizeRel(raw).Some?
    ensures SplitOn(NormalizeRel(raw).value, SLASH)[0] == root <==> PackagePath(raw).value == root || LiesUnder(root, PackagePath(raw).value)
  {
    var path, rel := PackagePath(raw).value, NormalizeRel(raw).value;
    hide PackagePath, SplitOn;
    FirstSegment(path, root);
    FirstSegment(rel, root);
    if rel == path + [SLASH] {
      assert LiesUnder(root, rel) <==> path == root || LiesUnder(root, path) by { UnderOrAt(root, path); }
    }
  }

  lemma {:induction false} UnderOrAt(root: Text, path: Text)
    ensures LiesUnder(root, path + [SLASH]) <==> path == root || LiesUnder(root, path)
    ensures SLASH !in root ==> path + [SLASH] != root
  {
    var t, p := path + [SLASH], root + [SLASH];
    if p <= t && |p| == |t| { assert path == t[..|path|] == p[..|root|] == root; }
    if p <= t && |p| < |t| { assert p == t[..|p|] == path[..|p|]; }
    assert t[|path|] == SLASH;
  }

  lemma {:induction false} RefIff(raw: Text, field: Text)
    ensures CheckRef(raw, field).None? <==> OutsidePayload(raw)
  {
    hide PackagePath, SplitOn, Ascii, PayloadRoots, NormalizeRel;
    NormalizedNone(raw);
    if PackagePath(raw).Some? {
      forall i | 0 <= i < |RUNTIME_PAYLOAD_ROOTS| ensures Ascii(RUNTIME_PAYLOAD_ROOTS[i]) in PayloadRoots()
        ensures SplitOn(NormalizeRel(raw).value, SLASH)[0] == Ascii(RUNTIME_PAYLOAD_ROOTS[i]) <==>
                PackagePath(raw).value == Ascii(RUNTIME_PAYLOAD_ROOTS[i]) || LiesUnder(Ascii(RUNTIME_PAYLOAD_ROOTS[i]), PackagePath(raw).value)
      {
        RootsPlain(i);
        NormalizedFirst(raw, Ascii(RUNTIME_PAYLOAD_ROOTS[i]));
      }
      if SplitOn(NormalizeRel(raw).value, SLASH)[0] in PayloadRoots() { RootsAll(SplitOn(NormalizeRel(raw).value, SLASH)[0]); }
    }
  }

  lemma NormalizedNone(raw: Text)
    ensures PackagePath(raw).None? <==> NormalizeRel(raw).None?
  {
  }

  lemma {:induction false} ReadIff(env: Env, pkg: Package, raw: Text, v: Json)
    ensures ReadObject(env, pkg, raw) == Ok(v) <==> ReadsAs(env, pkg, raw, v)
    ensures ReadObject(env, pkg, raw).Err? ==> ReadObject(env, pkg, raw).error == BadJsonFile(raw)
  {
    hide FileAt;
  }

  lemma {:induction false} ChecksumFilesIff(env: Env, pkg: Package, manifest: Json, files: seq<Entry>)
    ensures ChecksumFiles(env, pkg, manifest) == Ok(files) <==> ChecksumsAre(env, pkg, manifest, files)
  {
    var ref := TextField(manifest, CHECKSUMS_REF);
    hide TextField, OutsidePayload, ReadObject, ReadsAs, CheckRef, HasSchema, Field, Ascii, Trim;
    if ref.Some? {
      RefIff(ref.value, CHECKSUMS_REF);
      forall v ensures ReadObject(env, pkg, ref.value) == Ok(v) <==> ReadsAs(env, pkg, ref.value, v) {
        ReadIff(env, pkg, ref.value, v);
      }
    }
  }

  lemma {:induction false} EntryIff(env: Env, pkg: Package, e: Entry)
    requires IsDigest(env.hash(if FileAt(pkg, e.key).Some? then FileAt(pkg, e.key).value else []))
    ensures CheckEntry(env, pkg, e).None? <==> FileAt(pkg, e.key).Some? && e.value == Str(env.hash(FileAt(pkg, e.key).value))
  {
    FileHasPath(pkg, e.key);
    hide FileAt, PackagePath, Lower, IsDigest;
    if FileAt(pkg, e.key).Some? {
      LowerDigest(env.hash(FileAt(pkg, e.key).value));
      if e.value.Str? && IsDigest(e.value.s) { LowerDigest(e.value.s); }
    }
  }

  lemma FileHasPath(pkg: Package, raw: Text)
    ensures FileAt(pkg, raw).Some? ==> PackagePath(raw).Some?
  {
  }

  /** The first entry that is refused, if any. */
  lemma {:induction false} EntriesFirst(env: Env, pkg: Package, entries: seq<Entry>)
    ensures CheckEntries(env, pkg, entries).None? <==> forall i :: 0 <= i < |entries| ==> CheckEntry(env, pkg, entries[i]).None?
    ensures CheckEntries(env, pkg, entries).Some? ==>
              exists i :: 0 <= i < |entries| && CheckEntry(env, pkg, entries[i]) == CheckEntries(env, pkg, entries)
  {
    hide CheckEntry;
    if entries != [] {
      EntriesFirst(env, pkg, entries[1..]);
      assert forall i :: 1 <= i < |entries| ==> entries[i] == entries[1..][i - 1];
    }
  }

  lemma {:induction false} SealedFirst(pkg: Package, metadata: set<Text>, files: seq<Entry>, listing: seq<Text>)
    requires forall rel :: rel in listing ==> rel in pkg
    ensures CheckAllSealed(pkg, metadata, files, listing).None? <==> forall rel :: rel in listing ==> CheckSealed(pkg, metadata, files, rel).None?
    ensures CheckAllSealed(pkg, metadata, files, listing).Some? ==>
              exists rel :: rel in listing && CheckSealed(pkg, metadata, files, rel) == CheckAllSealed(pkg, metadata, files, listing)
  {
    hide CheckSealed;
    if listing != [] {
      assert listing == [listing[0]] + listing[1..];
      SealedFirst(pkg, metadata, files, listing[1..]);
    }
  }

  lemma {:induction false} PointersFirst(env: Env, pkg: Package, files: seq<Entry>, listing: seq<Text>)
    requires forall rel :: rel in listing ==> rel in pkg
    ensures CheckPointers(env, pkg, files, listing).None? <==> forall rel :: rel in listing ==> CheckPointer(env, pkg, files, rel).None?
    ensures CheckPointers(env, pkg, files, listing).Some? ==>
              exists rel :: rel in listing && CheckPointer(env, pkg, files, rel) == CheckPointers(env, pkg, files, listing)
  {
    hide CheckPointer;
    if listing != [] {
      assert listing == [listing[0]] + listing[1..];
      PointersFirst(env, pkg, files, listing[1..]);
    }
  }

  lemma {:induction false} BlobRelIs(digest: Text)
    requires IsDigest(digest)
    ensures BlobRel(digest) == Ascii("blobs/sha256/") + digest[7..] + Ascii("/blob")
  {
    LowerDigest(digest);
    hide Ascii;
    assert Lower(digest[7..]) == digest[7..] by {
      forall i | 0 <= i < |digest[7..]| ensures Lower(digest[7..])[i] == digest[7..][i] { assert Lower(digest)[i + 7] == digest[i + 7]; }
    }
  }

  /** The checksums that have passed are digests themselves. */
  ghost predicate DigestsListed(files: seq<Entry>) {
    forall i :: 0 <= i < |files| ==> files[i].value.Str? && IsDigest(files[i].value.s)
  }

  lemma {:induction false} PointerIff(env: Env, pkg: Package, files: seq<Entry>, rel: Text)
    requires rel in pkg && pkg[rel].File? && env.casPointer(pkg[rel].content).Some? && DigestsListed(files)
    requires IsDigest(env.casPointer(pkg[rel].content).value.digest) && forall b :: IsDigest(env.hash(b))
    ensures CheckPointer(env, pkg, files, rel).None? <==> Backed(env, pkg, files, env.casPointer(pkg[rel].content).value)
  {
    var pointer := env.casPointer(pkg[rel].content).value;
    BlobRelIs(pointer.digest);
    LowerDigest(pointer.digest);
    ListedDigest(files, BlobRel(pointer.digest));
    var blob := FileAt(pkg, BlobRel(pointer.digest));
    if blob.Some? { LowerDigest(env.hash(blob.value)); }
    hide FileAt, Lower, IsDigest, Ascii, BlobRel, TextField;
  }

  lemma {:induction false} ListedDigest(files: seq<Entry>, k: Text)
    requires DigestsListed(files)
    ensures var t := TextField(Obj(files), k); t.Some? ==> IsDigest(t.value) && Lower(t.value) == t.value
  {
    if HasKey(files, k) {
      var i := IndexOfKey(files, k);
      LowerDigest(files[i].value.s);
    }
  }

  lemma {:induction false} EntriesIff(env: Env, pkg: Package, files: seq<Entry>)
    requires forall b :: IsDigest(env.hash(b))
    ensures CheckEntries(env, pkg, files).None? <==> ChecksumsTrue(env, pkg, files)
    ensures ChecksumsTrue(env, pkg, files) ==> DigestsListed(files)
  {
    EntriesFirst(env, pkg, files);
    hide CheckEntry, CheckEntries, FileAt, IsDigest;
    forall i | 0 <= i < |files|
      ensures CheckEntry(env, pkg, files[i]).None? <==>
              FileAt(pkg, files[i].key).Some? && files[i].value == Str(env.hash(FileAt(pkg, files[i].key).value))
    {
      EntryIff(env, pkg, files[i]);
    }
  }

  lemma {:induction false} SealedIff(pkg: Package, manifest: Json, files: seq<Entry>, listing: seq<Text>)
    requires forall rel :: rel in listing <==> rel in pkg
    ensures CheckAllSealed(pkg, MetadataPaths(manifest), files, listing).None? <==> Sealed(pkg, manifest, files)
  {
    hide MetadataPaths, HasKey, CheckAllSealed;
    SealedFirst(pkg, MetadataPaths(manifest), files, listing);
  }

  lemma {:induction false} PointersIff(env: Env, pkg: Package, files: seq<Entry>, listing: seq<Text>)
    requires (forall rel :: rel in listing <==> rel in pkg) && DigestsListed(files) && forall b :: IsDigest(env.hash(b))
    ensures CheckPointers(env, pkg, files, listing).None? <==> PointersBacked(env, pkg, files)
  {
    PointersFirst(env, pkg, files, listing);
    hide CheckPointers, DigestsListed, IsDigest, Backed;
    forall rel | rel in pkg
      ensures CheckPointer(env, pkg, files, rel).None? <==>
              (pkg[rel].File? && env.casPointer(pkg[rel].content).Some? && IsDigest(env.casPointer(pkg[rel].content).value.digest) ==>
                 Backed(env, pkg, files, env.casPointer(pkg[rel].content).value))
    {
      if pkg[rel].File? && env.casPointer(pkg[rel].content).Some? && IsDigest(env.casPointer(pkg[rel].content).value.digest) {
        PointerIff(env, pkg, files, rel);
      } else {
        NoPointer(env, pkg, files, rel);
      }
    }
    hide CheckPointer;
  }

  lemma NoPointer(env: Env, pkg: Package, files: seq<Entry>, rel: Text)
    requires rel in pkg
    requires !(pkg[rel].File? && env.casPointer(pkg[rel].content).Some? && IsDigest(env.casPointer(pkg[rel].content).value.digest))
    ensures CheckPointer(env, pkg, files, rel).None?
  {
  }

  lemma {:induction false} PayloadIff(env: Env, pkg: Package, manifest: Json, files: seq<Entry>, listing: seq<Text>)
    requires (forall rel :: rel in listing <==> rel in pkg) && forall b :: IsDigest(env.hash(b))
    ensures CheckPayload(env, pkg, manifest, files, listing).Ok? <==>
            && ChecksumsTrue(env, pkg, files) && HasKey(files, RESOLVED_EXPERIMENT) && HasKey(files, STAGING_MANIFEST)
            && Sealed(pkg, manifest, files) && PointersBacked(env, pkg, files)
  {
    hide CheckEntries, CheckAllSealed, CheckPointers, MetadataPaths, HasKey, ChecksumsTrue, Sealed, PointersBacked, DigestsListed, IsDigest, Ascii;
    EntriesIff(env, pkg, files);
    SealedIff(pkg, manifest, files, listing);
    if ChecksumsTrue(env, pkg, files) { PointersIff(env, pkg, files, listing); }
  }

  lemma {:induction false} DigestIff(env: Env, manifest: Json, files: seq<Entry>)
    requires WellFormed(Obj(files))
    ensures var text := CanonicalJsonStringify(Obj(files));
            && (CheckDigest(env, manifest, files).Ok? <==>
                  text.Ok? && Trim(env.hashText(text.value)) != [] && TextField(manifest, PACKAGE_DIGEST) == Some(env.hashText(text.value)))
            && (CheckDigest(env, manifest, files).Ok? ==> CheckDigest(env, manifest, files).value == env.hashText(text.value))
  {
    hide CanonicalJsonStringify, TextField, Trim, Ascii;
  }

  lemma {:induction false} LockIff(env: Env, pkg: Package, digest: Text)
    ensures CheckLock(env, pkg, digest).Ok? <==>
            exists lock :: ReadsAs(env, pkg, PACKAGE_LOCK, lock) && HasSchema(lock, "sealed_package_lock_v1")
                           && TextField(lock, PACKAGE_DIGEST) == Some(digest)
  {
    hide ReadObject, ReadsAs, HasSchema, TextField, Ascii;
    forall v ensures ReadObject(env, pkg, PACKAGE_LOCK) == Ok(v) <==> ReadsAs(env, pkg, PACKAGE_LOCK, v) { ReadIff(env, pkg, PACKAGE_LOCK, v); }
  }

  lemma {:induction false} ReportIff(env: Env, pkg: Package, manifest: Json, digest: Text)
    ensures CheckReport(env, pkg, manifest, digest).Ok? <==>
            var ref := TextField(manifest, PACKAGE_CHECKS_REF);
            ref.Some? && OutsidePayload(ref.value)
            && exists report :: ReadsAs(env, pkg, ref.value, report) && HasSchema(report, "package_checks_v1")
                                && TextField(report, PACKAGE_DIGEST) == Some(digest) && env.checksPass(report)
  {
    hide ReadObject, ReadsAs, HasSchema, TextField, Ascii, CheckRef, OutsidePayload;
    var ref := TextField(manifest, PACKAGE_CHECKS_REF);
    if ref.Some? {
      RefIff(ref.value, PACKAGE_CHECKS_REF);
      forall v ensures ReadObject(env, pkg, ref.value) == Ok(v) <==> ReadsAs(env, pkg, ref.value, v) { ReadIff(env, pkg, ref.value, v); }
    }
  }

  lemma {:induction false} SameExperimentIff(manifest: Json, experiment: Json)
    requires WellFormed(manifest) && WellFormed(experiment)
    requires var declared := Field(manifest, Ascii("resolved_experiment"));
             declared.Some? && declared.value.Obj? && WellFormed(declared.value)
    ensures var declared := Field(manifest, Ascii("resolved_experiment")).value;
            SameExperiment(manifest, experiment) <==>
            && CanonicalJsonStringify(declared).Ok? && CanonicalJsonStringify(experiment).Ok?
            && CanonicalJsonStringify(declared) == CanonicalJsonStringify(experiment)
  {
    var declared := Field(manifest, Ascii("resolved_experiment")).value;
    CanonicalizeOkIff(declared);
    CanonicalizeOkIff(experiment);
    if AllFinite(declared) && AllFinite(experiment) { CanonicalJsonEqualIffSame(declared, experiment); }
    hide Ascii, Field, WellFormed, Canonicalize, Stringify;
  }

  lemma {:induction false} ExperimentIff(env: Env, pkg: Package, manifest: Json)
    requires Sound(env) && WellFormed(manifest)
    ensures CheckExperiment(env, pkg, manifest).Ok? <==>
            exists experiment :: ReadsAs(env, pkg, RESOLVED_EXPERIMENT, experiment) && SameExperiment(manifest, experiment)
    ensures CheckExperiment(env, pkg, manifest).Ok? ==> ReadsAs(env, pkg, RESOLVED_EXPERIMENT, CheckExperiment(env, pkg, manifest).value)
  {
    hide ReadObject, ReadsAs, Ascii, CanonicalJsonStringify, SameExperiment, Field, Sound;
    forall v ensures ReadObject(env, pkg, RESOLVED_EXPERIMENT) == Ok(v) <==> ReadsAs(env, pkg, RESOLVED_EXPERIMENT, v) {
      ReadIff(env, pkg, RESOLVED_EXPERIMENT, v);
    }
    var declared := Field(manifest, Ascii("resolved_experiment"));
    var experiment := ReadObject(env, pkg, RESOLVED_EXPERIMENT);
    if experiment.Ok? {
      ReadWellFormed(env, pkg, RESOLVED_EXPERIMENT, experiment.value);
      if declared.Some? && declared.value.Obj? {
        FieldWellFormed(manifest, Ascii("resolved_experiment"));
        SameExperimentIff(manifest, experiment.value);
      } else {
        NotDeclared(manifest, experiment.value);
      }
    }
  }

  lemma NotDeclared(manifest: Json, experiment: Json)
    requires WellFormed(manifest)
    requires var declared := Field(manifest, Ascii("resolved_experiment")); !(declared.Some? && declared.value.Obj?)
    ensures !SameExperiment(manifest, experiment)
  {
  }

  lemma ReadWellFormed(env: Env, pkg: Package, raw: Text, v: Json)
    requires Sound(env) && ReadsAs(env, pkg, raw, v)
    ensures WellFormed(v)
  {
  }

  lemma {:induction false} ClaimsIff(env: Env, pkg: Package, manifest: Json, digest: Text)
    requires Sound(env) && WellFormed(manifest)
    ensures CheckClaims(env, pkg, manifest, digest).Ok? <==> Vouched(env, pkg, manifest, digest)
    ensures CheckClaims(env, pkg, manifest, digest).Ok? ==> ReadsAs(env, pkg, RESOLVED_EXPERIMENT, CheckClaims(env, pkg, manifest, digest).value)
  {
    hide ReadObject, ReadsAs, Ascii, CheckLock, CheckReport, CheckExperiment, SameExperiment, HasSchema, TextField, OutsidePayload, Sound;
    LockIff(env, pkg, digest);
    ReportIff(env, pkg, manifest, digest);
    ExperimentIff(env, pkg, manifest);
    forall v ensures ReadObject(env, pkg, STAGING_MANIFEST) == Ok(v) <==> ReadsAs(env, pkg, STAGING_MANIFEST, v) {
      ReadIff(env, pkg, STAGING_MANIFEST, v);
    }
  }

  /** A package is accepted exactly when it is acceptable, and the answer is its resolved experiment. */
  lemma {:induction false} AcceptedIff(env: Env, pkg: Package, manifest: Json, listing: seq<Text>)
    requires Sound(env) && WellFormed(manifest) && IsListing(pkg, listing)
    ensures Verify(env, pkg, manifest, listing).Ok? <==> exists files :: Acceptable(env, pkg, manifest, files)
    ensures Verify(env, pkg, manifest, listing).Ok? ==>
              ReadsAs(env, pkg, Ascii("resolved_experiment.json"), Verify(env, pkg, manifest, listing).value)
  {
    var r := ChecksumFiles(env, pkg, manifest);
    assert forall rel :: rel in listing <==> rel in pkg;
    assert forall b :: IsDigest(env.hash(b));
    forall files ensures r == Ok(files) <==> ChecksumsAre(env, pkg, manifest, files) { ChecksumFilesIff(env, pkg, manifest, files); }
    if r.Ok? {
      AcceptedWith(env, pkg, manifest, listing, r.value);
      hide *;
      AcceptableChecksums(env, pkg, manifest);
    } else {
      hide *;
      AcceptableChecksums(env, pkg, manifest);
      NotRead(env, pkg, manifest, listing);
    }
  }

  lemma AcceptableChecksums(env: Env, pkg: Package, manifest: Json)
    requires WellFormed(manifest)
    ensures forall files :: Acceptable(env, pkg, manifest, files) ==> ChecksumsAre(env, pkg, manifest, files)
  {
  }

  lemma {:induction false} NotRead(env: Env, pkg: Package, manifest: Json, listing: seq<Text>)
    requires Sound(env) && WellFormed(manifest) && IsListing(pkg, listing) && ChecksumFiles(env, pkg, manifest).Err?
    ensures Verify(env, pkg, manifest, listing).Err?
  {
    hide ChecksumFiles;
  }

  lemma {:induction false} AcceptedWith(env: Env, pkg: Package, manifest: Json, listing: seq<Text>, files: seq<Entry>)
    requires Sound(env) && WellFormed(manifest) && IsListing(pkg, listing) && ChecksumFiles(env, pkg, manifest) == Ok(files)
    requires ChecksumsAre(env, pkg, manifest, files)
    ensures Verify(env, pkg, manifest, listing).Ok? <==> Acceptable(env, pkg, manifest, files)
    ensures Verify(env, pkg, manifest, listing).Ok? ==>
              ReadsAs(env, pkg, RESOLVED_EXPERIMENT, Verify(env, pkg, manifest, listing).value)
  {
    assert forall rel :: rel in listing <==> rel in pkg;
    assert forall b :: IsDigest(env.hash(b));
    FilesWellFormed(env, pkg, manifest);
    hide Sound, IsListing, ChecksumFiles, CheckPayload, CheckDigest, CheckClaims, ChecksumsAre, ChecksumsTrue, Sealed, PointersBacked, Vouched, ReadsAs,
      CanonicalJsonStringify, TextField, Trim, HasKey, WellFormed, Ascii;
    PayloadIff(env, pkg, manifest, files, listing);
    DigestIff(env, manifest, files);
    if CheckDigest(env, manifest, files).Ok? { ClaimsIff(env, pkg, manifest, CheckDigest(env, manifest, files).value); }
  }

  // ---- refusals ----

  /** What is wrong with the reference to the checksums, or with the file it leads to. */
  ghost predicate NoChecksums(env: Env, pkg: Package, manifest: Json, e: InspectionError) {
    var ref := TextField(manifest, CHECKSUMS_REF);
    match e
    case MissingString(field) => field == CHECKSUMS_REF && (ref.None? || Trim(ref.value) == [])
    case UnsafePath(field) => field == CHECKSUMS_REF && ref.Some? && PackagePath(ref.value).None?
    case RefInsidePayload(field) => field == CHECKSUMS_REF && ref.Some? && PackagePath(ref.value).Some? && !OutsidePayload(ref.value)
    case BadJsonFile(path) => ref == Some(path) && forall v :: !ReadsAs(env, pkg, path, v)
    case InvalidSchema(path) => ref == Some(path) && exists v :: ReadsAs(env, pkg, path, v) && !HasSchema(v, "sealed_package_checksums_v2")
    case MissingChecksumsFiles =>
      ref.Some? && exists v :: ReadsAs(env, pkg, ref.value, v) && (Field(v, Ascii("files")).None? || !Field(v, Ascii("files")).value.Obj?)
    case _ => false
  }

  ghost predicate EntryDefect(env: Env, pkg: Package, e: Entry, error: InspectionError) {
    match error
    case InvalidChecksumDigest(rel) => e.key == rel && (!e.value.Str? || !IsDigest(e.value.s))
    case UnsafePath(rel) => e.key == rel && PackagePath(rel).None?
    case ChecksummedFileMissing(rel) => e.key == rel && PackagePath(rel).Some? && FileAt(pkg, rel).None?
    case ChecksumMismatch(rel) => e.key == rel && FileAt(pkg, rel).Some? && e.value != Str(env.hash(FileAt(pkg, rel).value))
    case _ => false
  }

  ghost predicate PathDefect(pkg: Package, manifest: Json, files: seq<Entry>, rel: Text, error: InspectionError)
    requires rel in pkg
  {
    match error
    case UnsealedSymlink(path) => path == rel && pkg[rel].Symlink?
    case UnsupportedEntry(path) => path == rel && pkg[rel].Special?
    case UnchecksummedFile(path) => path == rel && pkg[rel].File? && rel !in MetadataPaths(manifest) && !HasKey(files, rel)
    case _ => false
  }

  ghost predicate PointerDefect(env: Env, pkg: Package, files: seq<Entry>, rel: Text, error: InspectionError)
    requires rel in pkg
  {
    && pkg[rel].File? && env.casPointer(pkg[rel].content).Some? && IsDigest(env.casPointer(pkg[rel].content).value.digest)
    && var pointer := env.casPointer(pkg[rel].content).value;
    var blobRel := Ascii("blobs/sha256/") + pointer.digest[7..] + Ascii("/blob");
    var blob := FileAt(pkg, blobRel);
    match error
    case MissingBlob(path) => path == rel && blob.None?
    case BlobSizeMismatch(path) => path == rel && blob.Some? && |blob.value| != pointer.sizeBytes
    case BlobDigestMismatch(path) => path == rel && blob.Some? && env.hash(blob.value) != pointer.digest
    case BlobChecksumMismatch(path) => path == rel && TextField(Obj(files), blobRel) != Some(pointer.digest)
    case _ => false
  }

  ghost predicate PayloadDefect(env: Env, pkg: Package, manifest: Json, files: seq<Entry>, e: InspectionError) {
    || (exists i :: 0 <= i < |files| && EntryDefect(env, pkg, files[i], e))
    || (e == MissingRequiredFile(RESOLVED_EXPERIMENT) && !HasKey(files, Ascii("resolved_experiment.json")))
    || (e == MissingRequiredFile(STAGING_MANIFEST) && !HasKey(files, Ascii("staging_manifest.json")))
    || (exists rel :: rel in pkg && PathDefect(pkg, manifest, files, rel, e))
    || (exists rel :: rel in pkg && PointerDefect(env, pkg, files, rel, e))
  }

  lemma {:induction false} EntryExplained(env: Env, pkg: Package, e: Entry)
    requires forall b :: IsDigest(env.hash(b))
    ensures var error := CheckEntry(env, pkg, e); error.Some? ==> EntryDefect(env, pkg, e, error.value)
  {
    FileHasPath(pkg, e.key);
    hide FileAt, PackagePath, IsDigest, Lower;
  }

  lemma {:induction false} PointerExplained(env: Env, pkg: Package, files: seq<Entry>, rel: Text)
    requires rel in pkg && DigestsListed(files) && forall b :: IsDigest(env.hash(b))
    ensures var error := CheckPointer(env, pkg, files, rel); error.Some? ==> PointerDefect(env, pkg, files, rel, error.value)
  {
    if CheckPointer(env, pkg, files, rel).Some? {
      var pointer := env.casPointer(pkg[rel].content).value;
      BlobRelIs(pointer.digest);
      LowerDigest(pointer.digest);
      ListedDigest(files, BlobRel(pointer.digest));
      var blob := FileAt(pkg, BlobRel(pointer.digest));
      if blob.Some? { LowerDigest(env.hash(blob.value)); }
      hide FileAt, Lower, IsDigest, Ascii, BlobRel, TextField;
    }
  }

  lemma {:induction false} PayloadExplained(env: Env, pkg: Package, manifest: Json, files: seq<Entry>, listing: seq<Text>)
    requires (forall rel :: rel in listing <==> rel in pkg) && forall b :: IsDigest(env.hash(b))
    ensures var r := CheckPayload(env, pkg, manifest, files, listing); r.Err? ==> PayloadDefect(env, pkg, manifest, files, r.error)
  {
    hide CheckEntry, CheckPointer, CheckEntries, CheckAllSealed, CheckPointers, MetadataPaths, HasKey, EntryDefect, PointerDefect, Ascii, IsDigest,
      ChecksumsTrue, DigestsListed;
    EntriesFirst(env, pkg, files);
    EntriesIff(env, pkg, files);
    if i :| 0 <= i < |files| && CheckEntry(env, pkg, files[i]) == CheckEntries(env, pkg, files) && CheckEntries(env, pkg, files).Some? {
      EntryExplained(env, pkg, files[i]);
    } else {
      SealedFirst(pkg, MetadataPaths(manifest), files, listing);
      PointersFirst(env, pkg, files, listing);
      if rel :| rel in listing && CheckPointers(env, pkg, files, listing).Some?
                && CheckPointer(env, pkg, files, rel) == CheckPointers(env, pkg, files, listing) {
        PointerExplained(env, pkg, files, rel);
      }
    }
  }

  /** What is wrong with the digest, or with a file that vouches for it. */
  ghost predicate ClaimDefect(env: Env, pkg: Package, manifest: Json, files: seq<Entry>, e: InspectionError)
    requires WellFormed(manifest) && WellFormed(Obj(files))
  {
    var text := CanonicalJsonStringify(Obj(files));
    var declared, ref := TextField(manifest, PACKAGE_DIGEST), TextField(manifest, PACKAGE_CHECKS_REF);
    match e
    case MissingString(field) =>
      (field == PACKAGE_DIGEST && (declared.None? || Trim(declared.value) == [])) || (field == PACKAGE_CHECKS_REF && ref.None?)
    case PackageDigestMismatch => text.Ok? && declared.Some? && declared.value != env.hashText(text.value)
    case BadJsonFile(path) =>
      && (path in {PACKAGE_LOCK, RESOLVED_EXPERIMENT, STAGING_MANIFEST} || ref == Some(path))
      && forall v :: !ReadsAs(env, pkg, path, v)
    case InvalidSchema(path) => path == PACKAGE_LOCK && exists v :: ReadsAs(env, pkg, path, v) && !HasSchema(v, "sealed_package_lock_v1")
    case LockDigestMismatch => exists v :: ReadsAs(env, pkg, PACKAGE_LOCK, v) && TextField(v, PACKAGE_DIGEST) != declared
    case UnsafePath(field) => field == PACKAGE_CHECKS_REF && ref.Some? && PackagePath(ref.value).None?
    case RefInsidePayload(field) => field == PACKAGE_CHECKS_REF && ref.Some? && PackagePath(ref.value).Some? && !OutsidePayload(ref.value)
    case PackageChecksRejected =>
      ref.Some? && (exists v :: ReadsAs(env, pkg, ref.value, v)
                                && !(HasSchema(v, "package_checks_v1") && TextField(v, PACKAGE_DIGEST) == declared && env.checksPass(v)))
    case NotCanonical => text.Err? || exists v :: ReadsAs(env, pkg, RESOLVED_EXPERIMENT, v) && !SameExperiment(manifest, v)
    case ExperimentMismatch => exists v :: ReadsAs(env, pkg, RESOLVED_EXPERIMENT, v) && !SameExperiment(manifest, v)
    case StagingRejected => exists v :: ReadsAs(env, pkg, STAGING_MANIFEST, v) && !env.stagingValid(pkg, v)
    case _ => false
  }

  lemma {:induction false} ReadFails(env: Env, pkg: Package, raw: Text)
    ensures ReadObject(env, pkg, raw).Err? <==> forall v :: !ReadsAs(env, pkg, raw, v)
    ensures ReadObject(env, pkg, raw).Err? ==> ReadObject(env, pkg, raw).error == BadJsonFile(raw)
    ensures ReadObject(env, pkg, raw).Ok? ==> ReadsAs(env, pkg, raw, ReadObject(env, pkg, raw).value)
  {
    forall v ensures ReadObject(env, pkg, raw) == Ok(v) <==> ReadsAs(env, pkg, raw, v) { ReadIff(env, pkg, raw, v); }
    ReadIff(env, pkg, raw, Null);
    hide ReadObject, ReadsAs;
  }

  lemma {:induction false} RefExplained(raw: Text, field: Text)
    ensures var error := CheckRef(raw, field);
            error.Some? ==> (error == Some(UnsafePath(field)) && PackagePath(raw).None?)
                            || (error == Some(RefInsidePayload(field)) && PackagePath(raw).Some? && !OutsidePayload(raw))
  {
    RefIff(raw, field);
    NormalizedNone(raw);
    hide PackagePath, NormalizeRel, SplitOn, PayloadRoots, OutsidePayload;
  }

  lemma {:induction false} ChecksumsExplained(env: Env, pkg: Package, manifest: Json)
    ensures var r := ChecksumFiles(env, pkg, manifest); r.Err? ==> NoChecksums(env, pkg, manifest, r.error)
  {
    var ref := TextField(manifest, CHECKSUMS_REF);
    hide TextField, OutsidePayload, ReadObject, ReadsAs, CheckRef, HasSchema, Field, Ascii, Trim, PackagePath;
    if ref.Some? {
      RefExplained(ref.value, CHECKSUMS_REF);
      ReadFails(env, pkg, ref.value);
    }
  }

  lemma {:induction false} LockExplained(env: Env, pkg: Package, manifest: Json, files: seq<Entry>, digest: Text)
    requires WellFormed(manifest) && WellFormed(Obj(files)) && TextField(manifest, PACKAGE_DIGEST) == Some(digest)
    ensures var r := CheckLock(env, pkg, digest); r.Err? ==> ClaimDefect(env, pkg, manifest, files, r.error)
  {
    ReadFails(env, pkg, PACKAGE_LOCK);
    hide ReadObject, ReadsAs, HasSchema, TextField, Ascii, OutsidePayload, PackagePath, CanonicalJsonStringify, Trim, SameExperiment;
  }

  lemma {:induction false} ReportExplained(env: Env, pkg: Package, manifest: Json, files: seq<Entry>, digest: Text)
    requires WellFormed(manifest) && WellFormed(Obj(files)) && TextField(manifest, PACKAGE_DIGEST) == Some(digest)
    ensures var r := CheckReport(env, pkg, manifest, digest); r.Err? ==> ClaimDefect(env, pkg, manifest, files, r.error)
  {
    var ref := TextField(manifest, PACKAGE_CHECKS_REF);
    hide ReadObject, ReadsAs, HasSchema, TextField, Ascii, OutsidePayload, PackagePath, CanonicalJsonStringify, Trim, SameExperiment, CheckRef;
    if ref.Some? {
      RefExplained(ref.value, PACKAGE_CHECKS_REF);
      ReadFails(env, pkg, ref.value);
    }
  }

  lemma {:induction false} ExperimentExplained(env: Env, pkg: Package, manifest: Json, files: seq<Entry>)
    requires Sound(env) && WellFormed(manifest) && WellFormed(Obj(files))
    ensures var r := CheckExperiment(env, pkg, manifest); r.Err? ==> ClaimDefect(env, pkg, manifest, files, r.error)
  {
    ReadFails(env, pkg, RESOLVED_EXPERIMENT);
    ExperimentIff(env, pkg, manifest);
    ExperimentErrors(env, pkg, manifest);
    hide ReadObject, ReadsAs, TextField, Ascii, OutsidePayload, PackagePath, CanonicalJsonStringify, Trim, SameExperiment, HasSchema, CheckExperiment;
  }

  lemma {:induction false} ExperimentErrors(env: Env, pkg: Package, manifest: Json)
    requires Sound(env) && WellFormed(manifest)
    ensures var r, read := CheckExperiment(env, pkg, manifest), ReadObject(env, pkg, RESOLVED_EXPERIMENT);
            r.Err? ==> if read.Err? then r.error == read.error else r.error in {NotCanonical, ExperimentMismatch}
  {
    hide ReadObject, Ascii, Field, CanonicalJsonStringify, Sound;
  }

  lemma {:induction false} StagingExplained(env: Env, pkg: Package, manifest: Json, files: seq<Entry>)
    requires WellFormed(manifest) && WellFormed(Obj(files))
    ensures var staging := ReadObject(env, pkg, STAGING_MANIFEST);
            if staging.Err? then ClaimDefect(env, pkg, manifest, files, staging.error)
            else !env.stagingValid(pkg, staging.value) ==> ClaimDefect(env, pkg, manifest, files, StagingRejected)
  {
    ReadFails(env, pkg, STAGING_MANIFEST);
    hide ReadObject, ReadsAs, TextField, Ascii, OutsidePayload, PackagePath, CanonicalJsonStringify, Trim, SameExperiment, HasSchema;
  }

  lemma {:induction false} ClaimsExplained(env: Env, pkg: Package, manifest: Json, files: seq<Entry>, digest: Text)
    requires Sound(env) && WellFormed(manifest) && WellFormed(Obj(files)) && TextField(manifest, PACKAGE_DIGEST) == Some(digest)
    ensures var r := CheckClaims(env, pkg, manifest, digest); r.Err? ==> ClaimDefect(env, pkg, manifest, files, r.error)
  {
    hide ClaimDefect, ReadObject, Ascii, CheckLock, CheckReport, CheckExperiment, Sound, WellFormed, TextField;
    LockExplained(env, pkg, manifest, files, digest);
    ReportExplained(env, pkg, manifest, files, digest);
    ExperimentExplained(env, pkg, manifest, files);
    StagingExplained(env, pkg, manifest, files);
  }

  lemma {:induction false} DigestExplained(env: Env, pkg: Package, manifest: Json, files: seq<Entry>)
    requires WellFormed(manifest) && WellFormed(Obj(files))
    ensures var r := CheckDigest(env, manifest, files);
            if r.Err? then ClaimDefect(env, pkg, manifest, files, r.error) else TextField(manifest, PACKAGE_DIGEST) == Some(r.value)
  {
    hide ReadsAs, TextField, Ascii, OutsidePayload, PackagePath, CanonicalJsonStringify, Trim, SameExperiment, HasSchema;
  }

  /** A refusal names a reference, file, checksum, path or pointer that has the very defect it says. */
  lemma {:induction false} RefusalExplained(env: Env, pkg: Package, manifest: Json, listing: seq<Text>)
    requires Sound(env) && WellFormed(manifest) && IsListing(pkg, listing) && Verify(env, pkg, manifest, listing).Err?
    ensures var e := Verify(env, pkg, manifest, listing).error;
            || NoChecksums(env, pkg, manifest, e)
            || exists files :: ChecksumsAre(env, pkg, manifest, files) && WellFormed(Obj(files))
                               && (PayloadDefect(env, pkg, manifest, files, e) || ClaimDefect(env, pkg, manifest, files, e))
  {
    assert forall rel :: rel in listing <==> rel in pkg;
    assert forall b :: IsDigest(env.hash(b));
    var r := ChecksumFiles(env, pkg, manifest);
    if r.Err? {
      hide *;
      ChecksumsExplained(env, pkg, manifest);
      StopsAtChecksums(env, pkg, manifest, listing);
    } else {
      FilesWellFormed(env, pkg, manifest);
      hide *;
      ChecksumFilesIff(env, pkg, manifest, r.value);
      PayloadExplained(env, pkg, manifest, r.value, listing);
      DigestExplained(env, pkg, manifest, r.value);
      if CheckDigest(env, manifest, r.value).Ok? { ClaimsExplained(env, pkg, manifest, r.value, CheckDigest(env, manifest, r.value).value); }
      StopsLater(env, pkg, manifest, listing);
    }
  }

  lemma {:induction false} StopsAtChecksums(env: Env, pkg: Package, manifest: Json, listing: seq<Text>)
    requires Sound(env) && WellFormed(manifest) && IsListing(pkg, listing) && ChecksumFiles(env, pkg, manifest).Err?
    ensures Verify(env, pkg, manifest, listing) == Err(ChecksumFiles(env, pkg, manifest).error)
  {
    hide ChecksumFiles;
  }

  lemma {:induction false} StopsLater(env: Env, pkg: Package, manifest: Json, listing: seq<Text>)
    requires Sound(env) && WellFormed(manifest) && IsListing(pkg, listing) && ChecksumFiles(env, pkg, manifest).Ok?
    requires WellFormed(Obj(ChecksumFiles(env, pkg, manifest).value)) && Verify(env, pkg, manifest, listing).Err?
    ensures forall rel :: rel in listing ==> rel in pkg
    ensures var files, e := ChecksumFiles(env, pkg, manifest).value, Verify(env, pkg, manifest, listing).error;
            || CheckPayload(env, pkg, manifest, files, listing) == Err(e)
            || CheckDigest(env, manifest, files) == Err(e)
            || (CheckDigest(env, manifest, files).Ok? && CheckClaims(env, pkg, manifest, CheckDigest(env, manifest, files).value) == Err(e))
  {
    hide ChecksumFiles, CheckPayload, CheckDigest, CheckClaims;
  }
}
