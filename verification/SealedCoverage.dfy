/** What the package digest does not cover: files that no checksummed path leads to, and the checksum named `__proto__`. */
module SealedCoverage {
  import opened Outcomes
  import opened ByteStrings
  import opened Texts
  import opened Json
  import opened CanonicalText
  import opened Pointers
  import opened SealedPackage

  // ---- packages that differ in some files ----

  /** `q` is `p` with other contents in the files `changed`, none of them a content-addressed pointer. */
  ghost predicate DiffersIn(env: Env, p: Package, q: Package, changed: set<Text>) {
    && p.Keys == q.Keys
    && (forall rel :: rel in p && rel !in changed ==> q[rel] == p[rel])
    && (forall rel :: rel in changed ==> rel in p && p[rel].File? && q[rel].File? && env.casPointer(q[rel].content).None?)
  }

  predicate LeadsInto(raw: Text, changed: set<Text>) {
    PackagePath(raw).Some? && PackagePath(raw).value in changed
  }

  lemma FileElsewhere(env: Env, p: Package, q: Package, changed: set<Text>, raw: Text)
    requires DiffersIn(env, p, q, changed) && !LeadsInto(raw, changed)
    ensures FileAt(q, raw) == FileAt(p, raw) && ReadObject(env, q, raw) == ReadObject(env, p, raw)
  {
  }

  /** No path that the check reads beside the checksums leads into the files. */
  ghost predicate OutsideClaims(manifest: Json, changed: set<Text>) {
    && !LeadsInto(RESOLVED_EXPERIMENT, changed) && !LeadsInto(STAGING_MANIFEST, changed) && !LeadsInto(PACKAGE_LOCK, changed)
    && (TextField(manifest, PACKAGE_CHECKS_REF).Some? ==> !LeadsInto(TextField(manifest, PACKAGE_CHECKS_REF).value, changed))
  }

  lemma {:induction false} EntriesElsewhere(env: Env, p: Package, q: Package, changed: set<Text>, files: seq<Entry>)
    requires DiffersIn(env, p, q, changed) && forall i :: 0 <= i < |files| ==> !LeadsInto(files[i].key, changed)
    ensures CheckEntries(env, q, files) == CheckEntries(env, p, files)
  {
    if files != [] {
      FileElsewhere(env, p, q, changed, files[0].key);
      EntriesElsewhere(env, p, q, changed, files[1..]);
      hide PackagePath, FileAt, IsDigest, Lower;
    }
  }

  /** The same names, and the same checksum under every name but `__proto__`. */
  ghost predicate SameChecksums(fp: seq<Entry>, fq: seq<Entry>) {
    && (forall k :: HasKey(fq, k) <==> HasKey(fp, k))
    && (forall k :: k != PROTO && HasKey(fp, k) ==> TextField(Obj(fq), k) == TextField(Obj(fp), k))
  }

  lemma {:induction false} SealedElsewhere(env: Env, p: Package, q: Package, changed: set<Text>, metadata: set<Text>,
                                           fp: seq<Entry>, fq: seq<Entry>, listing: seq<Text>)
    requires DiffersIn(env, p, q, changed) && SameChecksums(fp, fq) && forall rel :: rel in listing ==> rel in p && rel in q
    ensures CheckAllSealed(q, metadata, fq, listing) == CheckAllSealed(p, metadata, fp, listing)
  {
    if listing != [] {
      SealedElsewhere(env, p, q, changed, metadata, fp, fq, listing[1..]);
      assert listing[0] in listing;
      hide HasKey, TextField;
    }
  }

  lemma {:induction false} BlobRelNotProto(digest: Text)
    ensures BlobRel(digest) != PROTO
  {
    assert BlobRel(digest)[0] == 0x62 && PROTO[0] == 0x5f;
  }

  lemma {:induction false} PointerElsewhere(env: Env, p: Package, q: Package, changed: set<Text>, fp: seq<Entry>,
                                            fq: seq<Entry>, rel: Text)
    requires DiffersIn(env, p, q, changed) && SameChecksums(fp, fq) && rel in p && rel in q
    requires forall i :: 0 <= i < |fp| && fp[i].key != PROTO ==> !LeadsInto(fp[i].key, changed)
    requires CheckPointer(env, p, fp, rel).None?
    ensures CheckPointer(env, q, fq, rel).None?
  {
    hide PackagePath, FileAt, IsDigest, Lower, BlobRel, LeadsInto;
    if rel !in changed && p[rel].File? && env.casPointer(p[rel].content).Some? {
      var pointer := env.casPointer(p[rel].content).value;
      if IsDigest(pointer.digest) {
        BlobRelNotProto(pointer.digest);
        var i := IndexOfKey(fp, BlobRel(pointer.digest));
        FileElsewhere(env, p, q, changed, fp[i].key);
      }
    }
  }

  lemma {:induction false} PointersElsewhere(env: Env, p: Package, q: Package, changed: set<Text>, fp: seq<Entry>,
                                             fq: seq<Entry>, listing: seq<Text>)
    requires DiffersIn(env, p, q, changed) && SameChecksums(fp, fq) && forall rel :: rel in listing ==> rel in p && rel in q
    requires forall i :: 0 <= i < |fp| && fp[i].key != PROTO ==> !LeadsInto(fp[i].key, changed)
    requires CheckPointers(env, p, fp, listing).None?
    ensures CheckPointers(env, q, fq, listing).None?
  {
    hide CheckPointer, DiffersIn, SameChecksums, LeadsInto;
    if listing != [] {
      assert listing[0] in listing;
      PointersElsewhere(env, p, q, changed, fp, fq, listing[1..]);
      PointerElsewhere(env, p, q, changed, fp, fq, listing[0]);
    }
  }

  lemma {:induction false} ClaimsElsewhere(env: Env, p: Package, q: Package, changed: set<Text>, manifest: Json, digest: Text)
    requires Sound(env) && WellFormed(manifest) && DiffersIn(env, p, q, changed) && OutsideClaims(manifest, changed)
    requires forall staging :: env.stagingValid(q, staging) == env.stagingValid(p, staging)
    ensures CheckClaims(env, q, manifest, digest) == CheckClaims(env, p, manifest, digest)
  {
    assert !LeadsInto(PACKAGE_LOCK, changed) && !LeadsInto(RESOLVED_EXPERIMENT, changed) && !LeadsInto(STAGING_MANIFEST, changed);
    hide LeadsInto, DiffersIn, FileAt, PackagePath, ReadObject;
    FileElsewhere(env, p, q, changed, PACKAGE_LOCK);
    FileElsewhere(env, p, q, changed, RESOLVED_EXPERIMENT);
    FileElsewhere(env, p, q, changed, STAGING_MANIFEST);
    if TextField(manifest, PACKAGE_CHECKS_REF).Some? {
      FileElsewhere(env, p, q, changed, TextField(manifest, PACKAGE_CHECKS_REF).value);
    }
    LockAlike(env, p, q, digest);
    ReportAlike(env, p, q, manifest, digest);
    ExperimentAlike(env, p, q, manifest);
    ClaimsAlike(env, p, q, manifest, digest);
  }

  lemma {:induction false} ClaimsAlike(env: Env, p: Package, q: Package, manifest: Json, digest: Text)
    requires Sound(env) && WellFormed(manifest)
    requires CheckLock(env, q, digest) == CheckLock(env, p, digest)
    requires CheckReport(env, q, manifest, digest) == CheckReport(env, p, manifest, digest)
    requires CheckExperiment(env, q, manifest) == CheckExperiment(env, p, manifest)
    requires ReadObject(env, q, STAGING_MANIFEST) == ReadObject(env, p, STAGING_MANIFEST)
    requires forall staging :: env.stagingValid(q, staging) == env.stagingValid(p, staging)
    ensures CheckClaims(env, q, manifest, digest) == CheckClaims(env, p, manifest, digest)
  {
    hide CheckLock, CheckReport, CheckExperiment, ReadObject, Sound;
  }

  lemma {:induction false} LockAlike(env: Env, p: Package, q: Package, digest: Text)
    requires ReadObject(env, q, PACKAGE_LOCK) == ReadObject(env, p, PACKAGE_LOCK)
    ensures CheckLock(env, q, digest) == CheckLock(env, p, digest)
  {
    hide ReadObject, HasSchema, TextField, Ascii;
  }

  lemma {:induction false} ExperimentAlike(env: Env, p: Package, q: Package, manifest: Json)
    requires Sound(env) && WellFormed(manifest)
    requires ReadObject(env, q, RESOLVED_EXPERIMENT) == ReadObject(env, p, RESOLVED_EXPERIMENT)
    ensures CheckExperiment(env, q, manifest) == CheckExperiment(env, p, manifest)
  {
    hide ReadObject, CanonicalJsonStringify, Field, Ascii;
  }

  lemma {:induction false} ReportAlike(env: Env, p: Package, q: Package, manifest: Json, digest: Text)
    requires TextField(manifest, PACKAGE_CHECKS_REF).Some? ==>
               ReadObject(env, q, TextField(manifest, PACKAGE_CHECKS_REF).value) == ReadObject(env, p, TextField(manifest, PACKAGE_CHECKS_REF).value)
    ensures CheckReport(env, q, manifest, digest) == CheckReport(env, p, manifest, digest)
  {
    hide ReadObject, CheckRef, HasSchema, TextField, Ascii, PackagePath;
  }

  /** What keeps a package accepted when some of its files change, and perhaps the checksum named `__proto__`. */
  lemma {:induction false} VerifyAlike(env: Env, p: Package, q: Package, changed: set<Text>, manifest: Json, listing: seq<Text>,
                                       fp: seq<Entry>, fq: seq<Entry>)
    requires Sound(env) && WellFormed(manifest) && IsListing(p, listing) && Verify(env, p, manifest, listing).Ok?
    requires DiffersIn(env, p, q, changed) && OutsideClaims(manifest, changed)
    requires ChecksumFiles(env, p, manifest) == Ok(fp) && ChecksumFiles(env, q, manifest) == Ok(fq) && SameChecksums(fp, fq)
    requires forall i :: 0 <= i < |fp| && fp[i].key != PROTO ==> !LeadsInto(fp[i].key, changed)
    requires WellFormed(Obj(fp)) && WellFormed(Obj(fq))
    requires CheckEntries(env, q, fq).None? && CanonicalJsonStringify(Obj(fq)) == CanonicalJsonStringify(Obj(fp))
    requires forall staging :: env.stagingValid(q, staging) == env.stagingValid(p, staging)
    ensures IsListing(q, listing) && Verify(env, q, manifest, listing) == Verify(env, p, manifest, listing)
  {
    assert forall rel :: rel in listing ==> rel in p && rel in q;
    hide *;
    assert IsListing(q, listing) by { ListingAlike(env, p, q, changed, listing); }
    VerifyOk(env, p, manifest, listing);
    PayloadParts(env, p, manifest, fp, listing);
    SealedElsewhere(env, p, q, changed, MetadataPaths(manifest), fp, fq, listing);
    PointersElsewhere(env, p, q, changed, fp, fq, listing);
    SameNames(fp, fq, RESOLVED_EXPERIMENT);
    SameNames(fp, fq, STAGING_MANIFEST);
    PayloadHolds(env, q, manifest, fq, listing);
    DigestAlike(env, manifest, fp, fq);
    ClaimsElsewhere(env, p, q, changed, manifest, CheckDigest(env, manifest, fp).value);
    VerifyFrom(env, q, manifest, listing, fq);
  }

  lemma ListingAlike(env: Env, p: Package, q: Package, changed: set<Text>, listing: seq<Text>)
    requires DiffersIn(env, p, q, changed) && IsListing(p, listing)
    ensures IsListing(q, listing)
  {
  }

  lemma {:induction false} PayloadHolds(env: Env, pkg: Package, manifest: Json, files: seq<Entry>, listing: seq<Text>)
    requires (forall rel :: rel in listing ==> rel in pkg) && CheckEntries(env, pkg, files).None?
    requires HasKey(files, RESOLVED_EXPERIMENT) && HasKey(files, STAGING_MANIFEST)
    requires CheckAllSealed(pkg, MetadataPaths(manifest), files, listing).None? && CheckPointers(env, pkg, files, listing).None?
    ensures CheckPayload(env, pkg, manifest, files, listing).Ok?
  {
    hide CheckEntries, CheckAllSealed, CheckPointers, MetadataPaths, Ascii, HasKey;
  }

  lemma SameNames(fp: seq<Entry>, fq: seq<Entry>, k: Text)
    requires SameChecksums(fp, fq) && HasKey(fp, k)
    ensures HasKey(fq, k)
  {
  }

  lemma {:induction false} DigestAlike(env: Env, manifest: Json, fp: seq<Entry>, fq: seq<Entry>)
    requires WellFormed(Obj(fp)) && WellFormed(Obj(fq)) && CanonicalJsonStringify(Obj(fq)) == CanonicalJsonStringify(Obj(fp))
    ensures CheckDigest(env, manifest, fq) == CheckDigest(env, manifest, fp)
  {
    hide CanonicalJsonStringify, Ascii, TextField;
  }

  lemma {:induction false} VerifyFrom(env: Env, q: Package, manifest: Json, listing: seq<Text>, fq: seq<Entry>)
    requires Sound(env) && WellFormed(manifest) && IsListing(q, listing) && ChecksumFiles(env, q, manifest) == Ok(fq)
    requires WellFormed(Obj(fq)) && CheckDigest(env, manifest, fq).Ok?
    requires (forall rel :: rel in listing ==> rel in q) && CheckPayload(env, q, manifest, fq, listing).Ok?
    ensures Verify(env, q, manifest, listing) == CheckClaims(env, q, manifest, CheckDigest(env, manifest, fq).value)
  {
    hide ChecksumFiles, CheckPayload, CheckDigest, CheckClaims;
  }

  // ---- files that no checksummed path leads to ----

  const MANIFEST: Text := Ascii("manifest.json")

  /** The file is not the manifest, and no path that the check reads leads to it. */
  ghost predicate Unread(manifest: Json, files: seq<Entry>, x: Text) {
    && x != MANIFEST
    && (forall i :: 0 <= i < |files| ==> !LeadsInto(files[i].key, {x}))
    && !LeadsInto(PACKAGE_LOCK, {x})
    && (TextField(manifest, CHECKSUMS_REF).Some? ==> !LeadsInto(TextField(manifest, CHECKSUMS_REF).value, {x}))
    && (TextField(manifest, PACKAGE_CHECKS_REF).Some? ==> !LeadsInto(TextField(manifest, PACKAGE_CHECKS_REF).value, {x}))
  }

  lemma {:induction false} UnreadOutsideClaims(manifest: Json, files: seq<Entry>, x: Text)
    requires Unread(manifest, files, x) && HasKey(files, RESOLVED_EXPERIMENT) && HasKey(files, STAGING_MANIFEST)
    ensures OutsideClaims(manifest, {x})
  {
    hide LeadsInto, TextField, Ascii;
    var i, j := IndexOfKey(files, RESOLVED_EXPERIMENT), IndexOfKey(files, STAGING_MANIFEST);
    assert !LeadsInto(files[i].key, {x}) && !LeadsInto(files[j].key, {x});
  }

  lemma {:induction false} FilesElsewhere(env: Env, p: Package, q: Package, changed: set<Text>, manifest: Json)
    requires DiffersIn(env, p, q, changed)
    requires TextField(manifest, CHECKSUMS_REF).Some? ==> !LeadsInto(TextField(manifest, CHECKSUMS_REF).value, changed)
    ensures ChecksumFiles(env, q, manifest) == ChecksumFiles(env, p, manifest)
  {
    hide ReadObject, CheckRef, HasSchema, TextField, Ascii, PackagePath, Trim, LeadsInto, DiffersIn;
    if TextField(manifest, CHECKSUMS_REF).Some? {
      FileElsewhere(env, p, q, changed, TextField(manifest, CHECKSUMS_REF).value);
    }
  }

  /** A file that no checksummed path leads to is not covered by the digest: any other content that is not itself a
      pointer is accepted in its place. */
  lemma {:induction false} UnreadFileUnchecked(env: Env, p: Package, manifest: Json, listing: seq<Text>, x: Text,
                                               content: Bytes)
    requires Sound(env) && WellFormed(manifest) && IsListing(p, listing) && Verify(env, p, manifest, listing).Ok?
    requires x in p && p[x].File? && env.casPointer(content).None?
    requires ChecksumFiles(env, p, manifest).Ok? && Unread(manifest, ChecksumFiles(env, p, manifest).value, x)
    requires forall staging :: env.stagingValid(p[x := File(content)], staging) == env.stagingValid(p, staging)
    ensures IsListing(p[x := File(content)], listing)
    ensures Verify(env, p[x := File(content)], manifest, listing) == Verify(env, p, manifest, listing)
  {
    hide *;
    var files, q := ChecksumFiles(env, p, manifest).value, p[x := File(content)];
    OneFileDiffers(env, p, x, content);
    VerifyParts(env, p, manifest, listing);
    UnreadOutsideClaims(manifest, files, x);
    UnreadPaths(manifest, files, x);
    FilesElsewhere(env, p, q, {x}, manifest);
    EntriesElsewhere(env, p, q, {x}, files);
    ChecksumsSameAsThemselves(files);
    VerifyAlike(env, p, q, {x}, manifest, listing, files, files);
  }

  lemma OneFileDiffers(env: Env, p: Package, x: Text, content: Bytes)
    requires x in p && p[x].File? && env.casPointer(content).None?
    ensures DiffersIn(env, p, p[x := File(content)], {x})
  {
  }

  lemma UnreadPaths(manifest: Json, files: seq<Entry>, x: Text)
    requires Unread(manifest, files, x)
    ensures forall i :: 0 <= i < |files| ==> !LeadsInto(files[i].key, {x})
    ensures TextField(manifest, CHECKSUMS_REF).Some? ==> !LeadsInto(TextField(manifest, CHECKSUMS_REF).value, {x})
  {
  }

  lemma ChecksumsSameAsThemselves(files: seq<Entry>)
    ensures SameChecksums(files, files)
  {
  }

  // ---- names that stand for themselves ----

  predicate IsNameUnit(u: CodeUnit) { 0x61 <= u <= 0x7a || u == 0x5f || u == DOT }

  predicate IsPlainName(t: Text) { t != [] && t[0] != DOT && forall i :: 0 <= i < |t| ==> IsNameUnit(t[i]) }

  /** A name of letters, underscores and dots leads to itself. */
  lemma {:induction false} PlainNamePath(t: Text)
    requires IsPlainName(t)
    ensures SplitOn(t, SLASH) == [t] && PackagePath(t) == Some(t) && NormalizeRel(t) == Some(t)
  {
    assert SLASH !in t && BACKSLASH !in t;
    assert IsNameUnit(t[0]) && IsNameUnit(t[|t| - 1]);
    assert Trim(t) == t;
    SplitAfter(t, [], SLASH);
    assert t + [] == t && SplitOn([], SLASH) == [[]];
    assert RealParts([t]) == [t] by { assert [t][1..] == []; }
    assert [DOT, DOT] != t;
  }

  /** A name that begins with white space is checked as the name without it. */
  lemma {:induction false} LeadingSpaceLeadsElsewhere(space: CodeUnit, name: Text)
    requires IsSpace(space)
    ensures PackagePath([space] + name) == PackagePath(name)
  {
    assert ([space] + name)[1..] == name;
  }

  // ---- the checksum named `__proto__` ----

  /** `q` is `p` with another content in the file `__proto__` and, in its checksum file, another checksum for it. */
  ghost predicate OnlyProtoDiffers(env: Env, p: Package, q: Package, manifest: Json, i: nat, content: Bytes)
    requires TextField(manifest, CHECKSUMS_REF).Some? && PackagePath(TextField(manifest, CHECKSUMS_REF).value).Some?
    requires ChecksumFiles(env, p, manifest).Ok?
  {
    var fp, ref := ChecksumFiles(env, p, manifest).value, PackagePath(TextField(manifest, CHECKSUMS_REF).value).value;
    && i < |fp| && fp[i].key == PROTO
    && DiffersIn(env, p, q, {PROTO, ref}) && q[PROTO] == File(content)
    && ChecksumFiles(env, q, manifest) == Ok(fp[i := Entry(PROTO, Str(env.hash(content)))])
    && OutsideClaims(manifest, {PROTO, ref})
    && forall j :: 0 <= j < |fp| && j != i ==> !LeadsInto(fp[j].key, {PROTO, ref})
  }

  lemma {:induction false} ProtoName()
    ensures PackagePath(PROTO) == Some(PROTO)
  {
    PlainNamePath(PROTO);
  }

  lemma {:induction false} ProtoLookups(fp: seq<Entry>, i: nat, value: Json)
    requires WellFormed(Obj(fp)) && i < |fp| && fp[i].key == PROTO && value.Str?
    ensures var fq := fp[i := Entry(PROTO, value)];
            && Keys(fq) == Keys(fp)
            && (forall k :: HasKey(fq, k) <==> HasKey(fp, k))
            && (forall k :: HasKey(fp, k) && k != PROTO ==> Get(fq, k) == Get(fp, k))
            && (forall j :: 0 <= j < |fp| && j != i ==> fp[j].key != PROTO && HasKey(fq, fp[j].key) && Get(fq, fp[j].key) == fp[j].value)
  {
    var fq := fp[i := Entry(PROTO, value)];
    assert Keys(fq) == Keys(fp);
    forall k ensures HasKey(fq, k) <==> HasKey(fp, k) {
      KeysHave(fp, k);
      KeysHave(fq, k);
    }
    forall j | 0 <= j < |fp| && j != i ensures fp[j].key != PROTO && HasKey(fq, fp[j].key) && Get(fq, fp[j].key) == fp[j].value {
      assert Keys(fp)[j] != Keys(fp)[i];
      GetDistinct(fq, j);
    }
    forall k | HasKey(fp, k) && k != PROTO ensures Get(fq, k) == Get(fp, k) {
      var j := IndexOfKey(fp, k);
      assert fq[j] == fp[j];
    }
  }

  lemma {:induction false} ProtoChecksumsSame(fp: seq<Entry>, i: nat, value: Json)
    requires WellFormed(Obj(fp)) && i < |fp| && fp[i].key == PROTO && value.Str?
    requires forall j :: 0 <= j < |fp| ==> fp[j].value.Str?
    ensures var fq := fp[i := Entry(PROTO, value)];
            && WellFormed(Obj(fq)) && SameChecksums(fp, fq) && AllFinite(Obj(fp)) && AllFinite(Obj(fq)) && Same(Obj(fp), Obj(fq))
  {
    var fq := fp[i := Entry(PROTO, value)];
    ProtoLookups(fp, i, value);
    assert WellFormed(Obj(fq)) by { hide HasKey, Get, Same; }
    hide HasKey, Get, Keys, WellFormed, PROTO;
  }

  lemma {:induction false} ProtoEntries(env: Env, p: Package, q: Package, changed: set<Text>, fp: seq<Entry>, fq: seq<Entry>,
                                        content: Bytes)
    requires DiffersIn(env, p, q, changed) && |fq| == |fp| && CheckEntries(env, p, fp).None? && Sound(env)
    requires PROTO in changed && q[PROTO] == File(content)
    requires forall j :: 0 <= j < |fp| ==>
               fq[j] == Entry(PROTO, Str(env.hash(content))) || (fq[j] == fp[j] && !LeadsInto(fp[j].key, changed))
    ensures CheckEntries(env, q, fq).None?
  {
    if fq != [] {
      ProtoEntries(env, p, q, changed, fp[1..], fq[1..], content);
      ProtoName();
      assert IsDigest(env.hash(content));
      hide PackagePath, IsDigest, Lower, ReadObject, Sound, PROTO;
      if fq[0] == fp[0] && !LeadsInto(fp[0].key, changed) { FileElsewhere(env, p, q, changed, fp[0].key); }
    }
  }

  /** The checksum named `__proto__` is no part of the digest: a package that differs from an accepted one only in the
      file of that name and its checksum has the same text to digest, and is accepted. */
  lemma {:induction false} ProtoChecksumUncovered(env: Env, p: Package, q: Package, manifest: Json, listing: seq<Text>,
                                                  i: nat, content: Bytes)
    requires Sound(env) && WellFormed(manifest) && IsListing(p, listing) && Verify(env, p, manifest, listing).Ok?
    requires TextField(manifest, CHECKSUMS_REF).Some? && PackagePath(TextField(manifest, CHECKSUMS_REF).value).Some?
    requires ChecksumFiles(env, p, manifest).Ok? && OnlyProtoDiffers(env, p, q, manifest, i, content)
    requires forall staging :: env.stagingValid(q, staging) == env.stagingValid(p, staging)
    ensures ChecksumText(env, q, manifest) == ChecksumText(env, p, manifest)
    ensures IsListing(q, listing) && Verify(env, q, manifest, listing) == Verify(env, p, manifest, listing)
  {
    hide *;
    var fp := ChecksumFiles(env, p, manifest).value;
    var changed := {PROTO, PackagePath(TextField(manifest, CHECKSUMS_REF).value).value};
    OnlyProtoFacts(env, p, q, manifest, i, content, changed, fp);
    var fq := fp[i := Entry(PROTO, Str(env.hash(content)))];
    VerifyParts(env, p, manifest, listing);
    AcceptedIsSealed(env, p, manifest, listing);
    ProtoChecksumsSame(fp, i, Str(env.hash(content)));
    CanonicalJsonEqualIffSame(Obj(fp), Obj(fq));
    ProtoEntries(env, p, q, changed, fp, fq, content);
    OtherKeysOutside(fp, i, changed);
    VerifyAlike(env, p, q, changed, manifest, listing, fp, fq);
    TextOf(env, p, manifest, fp);
    TextOf(env, q, manifest, fq);
  }

  lemma OnlyProtoFacts(env: Env, p: Package, q: Package, manifest: Json, i: nat, content: Bytes, changed: set<Text>, fp: seq<Entry>)
    requires TextField(manifest, CHECKSUMS_REF).Some? && PackagePath(TextField(manifest, CHECKSUMS_REF).value).Some?
    requires ChecksumFiles(env, p, manifest) == Ok(fp) && OnlyProtoDiffers(env, p, q, manifest, i, content)
    requires changed == {PROTO, PackagePath(TextField(manifest, CHECKSUMS_REF).value).value}
    ensures i < |fp| && fp[i].key == PROTO && DiffersIn(env, p, q, changed) && PROTO in changed && PROTO in q && q[PROTO] == File(content)
    ensures OutsideClaims(manifest, changed) && ChecksumFiles(env, q, manifest) == Ok(fp[i := Entry(PROTO, Str(env.hash(content)))])
    ensures forall j :: 0 <= j < |fp| && j != i ==> !LeadsInto(fp[j].key, changed)
  {
  }

  lemma {:induction false} OtherKeysOutside(fp: seq<Entry>, i: nat, changed: set<Text>)
    requires i < |fp| && fp[i].key == PROTO && forall j :: 0 <= j < |fp| && j != i ==> !LeadsInto(fp[j].key, changed)
    ensures forall j :: 0 <= j < |fp| && fp[j].key != PROTO ==> !LeadsInto(fp[j].key, changed)
  {
    hide *;
  }

  lemma {:induction false} TextOf(env: Env, p: Package, manifest: Json, files: seq<Entry>)
    requires Sound(env) && ChecksumFiles(env, p, manifest) == Ok(files) && WellFormed(Obj(files))
    ensures ChecksumText(env, p, manifest) == match CanonicalJsonStringify(Obj(files)) case Ok(t) => Some(t) case Err(_) => None
  {
    hide ChecksumFiles, CanonicalJsonStringify;
  }

  // ---- an accepted package with a file that is not covered ----

  const CHECKSUMS: Text := Ascii("checksums.json")
  const CHECKS: Text := Ascii("package_checks.json")
  const PLAIN: Text := [0x78]
  const SPACED: Text := [0x20, 0x78]

  /** The contents of a package that holds a file `x` and another file whose name is a space and `x`. */
  datatype Contents = Contents(manifest: Bytes, lock: Bytes, checksums: Bytes, checks: Bytes, experiment: Bytes,
                               staging: Bytes, plain: Bytes, spaced: Bytes)

  function Twins(c: Contents): Package {
    map[MANIFEST := File(c.manifest), PACKAGE_LOCK := File(c.lock), CHECKSUMS := File(c.checksums), CHECKS := File(c.checks),
        RESOLVED_EXPERIMENT := File(c.experiment), STAGING_MANIFEST := File(c.staging), PLAIN := File(c.plain),
        SPACED := File(c.spaced)]
  }

  /** Both names bear the checksum of `x`. */
  function TwinFiles(env: Env, c: Contents): seq<Entry> {
    [Entry(RESOLVED_EXPERIMENT, Str(env.hash(c.experiment))), Entry(STAGING_MANIFEST, Str(env.hash(c.staging))),
     Entry(PLAIN, Str(env.hash(c.plain))), Entry(SPACED, Str(env.hash(c.plain)))]
  }

  lemma {:induction false} NamesDiffer()
    ensures |MANIFEST| == 13 && |PACKAGE_LOCK| == 12 && |CHECKSUMS| == 14 && |CHECKS| == 19
    ensures |RESOLVED_EXPERIMENT| == 24 && |STAGING_MANIFEST| == 21 && |PLAIN| == 1 && |SPACED| == 2
  {
    assert |PACKAGE_LOCK| == 12 && |CHECKS| == 19 && |STAGING_MANIFEST| == 21;
  }

  lemma {:induction false} TwinFilesProper(env: Env, c: Contents)
    ensures WellFormed(Obj(TwinFiles(env, c))) && CanonicalJsonStringify(Obj(TwinFiles(env, c))).Ok?
    ensures HasKey(TwinFiles(env, c), RESOLVED_EXPERIMENT) && HasKey(TwinFiles(env, c), STAGING_MANIFEST)
    ensures HasKey(TwinFiles(env, c), PLAIN) && HasKey(TwinFiles(env, c), SPACED)
  {
    var files := TwinFiles(env, c);
    NamesDiffer();
    hide Ascii;
    assert files[0].key == RESOLVED_EXPERIMENT && files[1].key == STAGING_MANIFEST && files[2].key == PLAIN && files[3].key == SPACED;
    assert Distinct(Keys(files));
    assert WellFormed(Obj(files));
    DigestsAreFinite(files);
    CanonicalJsonEqualIffSame(Obj(files), Obj(files));
  }

  function TwinDigest(env: Env, c: Contents): Text {
    TwinFilesProper(env, c);
    env.hashText(CanonicalJsonStringify(Obj(TwinFiles(env, c))).value)
  }

  /** The files parse to a manifest, checksums, a lock, a report and an experiment that agree with each other. */
  ghost predicate Consistent(env: Env, c: Contents, manifest: Json) {
    && env.parse(c.manifest) == Some(manifest)
    && TextField(manifest, CHECKSUMS_REF) == Some(CHECKSUMS) && TextField(manifest, PACKAGE_CHECKS_REF) == Some(CHECKS)
    && TextField(manifest, PACKAGE_DIGEST) == Some(TwinDigest(env, c)) && IsDigest(TwinDigest(env, c))
    && var (checksums, lock, checks, experiment, staging) :=
         (env.parse(c.checksums), env.parse(c.lock), env.parse(c.checks), env.parse(c.experiment), env.parse(c.staging));
    && checksums.Some? && HasSchema(checksums.value, "sealed_package_checksums_v2")
    && Field(checksums.value, Ascii("files")) == Some(Obj(TwinFiles(env, c)))
    && lock.Some? && HasSchema(lock.value, "sealed_package_lock_v1") && TextField(lock.value, PACKAGE_DIGEST) == Some(TwinDigest(env, c))
    && checks.Some? && HasSchema(checks.value, "package_checks_v1") && TextField(checks.value, PACKAGE_DIGEST) == Some(TwinDigest(env, c))
    && env.checksPass(checks.value)
    && experiment.Some? && AllFinite(experiment.value) && Field(manifest, Ascii("resolved_experiment")) == experiment
    && staging.Some? && env.stagingValid(Twins(c), staging.value)
    && NoPointers(env, c)
  }

  ghost predicate NoPointers(env: Env, c: Contents) {
    forall b :: b in {c.manifest, c.lock, c.checksums, c.checks, c.experiment, c.staging, c.plain, c.spaced} ==>
      env.casPointer(b).None?
  }

  lemma {:induction false} PlainNames()
    ensures IsPlainName(PACKAGE_LOCK) && IsPlainName(CHECKSUMS) && IsPlainName(CHECKS)
  {
  }

  lemma {:induction false} PlainPayloadNames()
    ensures IsPlainName(RESOLVED_EXPERIMENT) && IsPlainName(STAGING_MANIFEST) && IsPlainName(PLAIN)
  {
  }

  lemma {:induction false} TwinPaths()
    ensures forall t :: t in {PACKAGE_LOCK, CHECKSUMS, CHECKS, RESOLVED_EXPERIMENT, STAGING_MANIFEST, PLAIN} ==>
              PackagePath(t) == Some(t) && NormalizeRel(t) == Some(t) && SplitOn(t, SLASH) == [t]
    ensures PackagePath(SPACED) == Some(PLAIN)
  {
    PlainNames();
    PlainPayloadNames();
    assert SPACED == [0x20] + PLAIN;
    LeadingSpaceLeadsElsewhere(0x20, PLAIN);
    hide *;
    forall t | t in {PACKAGE_LOCK, CHECKSUMS, CHECKS, RESOLVED_EXPERIMENT, STAGING_MANIFEST, PLAIN}
      ensures PackagePath(t) == Some(t) && NormalizeRel(t) == Some(t) && SplitOn(t, SLASH) == [t]
    {
      PlainNamePath(t);
    }
  }

  lemma {:induction false} TwinReads(c: Contents)
    ensures FileAt(Twins(c), PACKAGE_LOCK) == Some(c.lock) && FileAt(Twins(c), CHECKSUMS) == Some(c.checksums)
    ensures FileAt(Twins(c), CHECKS) == Some(c.checks) && FileAt(Twins(c), RESOLVED_EXPERIMENT) == Some(c.experiment)
    ensures FileAt(Twins(c), STAGING_MANIFEST) == Some(c.staging)
    ensures FileAt(Twins(c), PLAIN) == Some(c.plain) && FileAt(Twins(c), SPACED) == Some(c.plain)
  {
    hide Ascii, PackagePath, NormalizeRel, SplitOn;
    TwinPaths();
    NamesDiffer();
  }

  lemma {:induction false} RefsOutside()
    ensures CheckRef(CHECKSUMS, CHECKSUMS_REF).None? && CheckRef(CHECKS, PACKAGE_CHECKS_REF).None?
  {
    assert forall t: Text :: t in PayloadRoots() ==> |t| != 19 && (|t| == 14 ==> t[0] == 0x72) by {
      assert |Ascii("runtime_assets")| == 14 && Ascii("runtime_assets")[0] == 0x72;
    }
    assert CHECKSUMS[0] == 0x63;
    NamesDiffer();
    hide PayloadRoots, Ascii, PackagePath, NormalizeRel;
    TwinPaths();
  }

  lemma {:induction false} ChecksumFilesAre(env: Env, pkg: Package, manifest: Json, ref: Text, content: Bytes, files: seq<Entry>)
    requires TextField(manifest, CHECKSUMS_REF) == Some(ref) && Trim(ref) != [] && CheckRef(ref, CHECKSUMS_REF).None?
    requires FileAt(pkg, ref) == Some(content) && env.parse(content).Some?
    requires HasSchema(env.parse(content).value, "sealed_package_checksums_v2")
    requires Field(env.parse(content).value, Ascii("files")) == Some(Obj(files))
    ensures ChecksumFiles(env, pkg, manifest) == Ok(files)
  {
    hide CheckRef, FileAt, Ascii, HasSchema, PackagePath, Trim;
  }

  lemma {:induction false} TwinChecksumFiles(env: Env, c: Contents, manifest: Json)
    requires Consistent(env, c, manifest)
    ensures ChecksumFiles(env, Twins(c), manifest) == Ok(TwinFiles(env, c))
  {
    RefsOutside();
    TwinReads(c);
    TwinPaths();
    assert Trim(CHECKSUMS) != [];
    hide CheckRef, FileAt, Ascii, HasSchema, TwinFiles, TwinDigest, PackagePath, Trim, Twins, NoPointers, CanonicalJsonStringify, IsDigest,
      Field, TextField;
    ChecksumFilesAre(env, Twins(c), manifest, CHECKSUMS, c.checksums, TwinFiles(env, c));
  }

  lemma {:induction false} EntriesFromEach(env: Env, pkg: Package, e: Entry, f: Entry, g: Entry, h: Entry)
    requires CheckEntry(env, pkg, e).None? && CheckEntry(env, pkg, f).None?
    requires CheckEntry(env, pkg, g).None? && CheckEntry(env, pkg, h).None?
    ensures CheckEntries(env, pkg, [e, f, g, h]).None?
  {
    hide CheckEntry;
    assert CheckEntries(env, pkg, [h]).None? by { assert [h][1..] == []; }
    assert CheckEntries(env, pkg, [g, h]).None? by { assert [g, h][1..] == [h]; }
    assert CheckEntries(env, pkg, [f, g, h]).None? by { assert [f, g, h][1..] == [g, h]; }
    assert [e, f, g, h][1..] == [f, g, h];
  }

  lemma EntryHolds(env: Env, pkg: Package, key: Text, content: Bytes)
    requires PackagePath(key).Some? && FileAt(pkg, key) == Some(content) && IsDigest(env.hash(content))
    ensures CheckEntry(env, pkg, Entry(key, Str(env.hash(content)))).None?
  {
  }

  lemma {:induction false} TwinEntries(env: Env, c: Contents)
    requires Sound(env)
    ensures CheckEntries(env, Twins(c), TwinFiles(env, c)).None?
  {
    SoundHash(env, c.experiment);
    SoundHash(env, c.staging);
    SoundHash(env, c.plain);
    var pkg := Twins(c);
    var e, f := Entry(RESOLVED_EXPERIMENT, Str(env.hash(c.experiment))), Entry(STAGING_MANIFEST, Str(env.hash(c.staging)));
    var g, h := Entry(PLAIN, Str(env.hash(c.plain))), Entry(SPACED, Str(env.hash(c.plain)));
    assert TwinFiles(env, c) == [e, f, g, h];
    hide *;
    TwinReads(c);
    TwinPaths();
    EntryHolds(env, pkg, RESOLVED_EXPERIMENT, c.experiment);
    EntryHolds(env, pkg, STAGING_MANIFEST, c.staging);
    EntryHolds(env, pkg, PLAIN, c.plain);
    EntryHolds(env, pkg, SPACED, c.plain);
    EntriesFromEach(env, pkg, e, f, g, h);
  }

  lemma SoundHash(env: Env, content: Bytes)
    requires Sound(env)
    ensures IsDigest(env.hash(content))
  {
  }

  lemma SoundParse(env: Env, content: Bytes)
    requires Sound(env) && env.parse(content).Some?
    ensures env.parse(content).value.Obj? && WellFormed(env.parse(content).value)
  {
  }

  lemma {:induction false} SealedFromEach(pkg: Package, metadata: set<Text>, files: seq<Entry>, listing: seq<Text>)
    requires forall rel :: rel in listing ==> rel in pkg && pkg[rel].File? && (rel in metadata || HasKey(files, rel))
    ensures CheckAllSealed(pkg, metadata, files, listing).None?
  {
    hide HasKey;
    if listing != [] {
      assert listing[0] in listing;
      SealedFromEach(pkg, metadata, files, listing[1..]);
    }
  }

  lemma {:induction false} TwinSealed(env: Env, c: Contents, manifest: Json, listing: seq<Text>)
    requires forall rel :: rel in listing ==> rel in Twins(c)
    ensures CheckAllSealed(Twins(c), MetadataPaths(manifest), TwinFiles(env, c), listing).None?
  {
    hide Ascii, TextField, NormalizeRel, HasKey, TwinFiles, MetadataPaths, CheckAllSealed;
    MetadataHas(manifest);
    TwinFilesProper(env, c);
    SealedFromEach(Twins(c), MetadataPaths(manifest), TwinFiles(env, c), listing);
  }

  lemma MetadataHas(manifest: Json)
    ensures {MANIFEST, PACKAGE_LOCK, CHECKSUMS, CHECKS} <= MetadataPaths(manifest)
  {
  }

  lemma {:induction false} PointersFromEach(env: Env, pkg: Package, files: seq<Entry>, listing: seq<Text>)
    requires forall rel :: rel in listing ==> rel in pkg && pkg[rel].File? && env.casPointer(pkg[rel].content).None?
    ensures CheckPointers(env, pkg, files, listing).None?
  {
    if listing != [] {
      assert listing[0] in listing;
      PointersFromEach(env, pkg, files, listing[1..]);
      hide IsDigest, Lower, FileAt, TextField, BlobRel;
    }
  }

  lemma {:induction false} TwinPointers(env: Env, c: Contents, listing: seq<Text>)
    requires NoPointers(env, c) && forall rel :: rel in listing ==> rel in Twins(c)
    ensures CheckPointers(env, Twins(c), TwinFiles(env, c), listing).None?
  {
    hide Ascii, TwinFiles, CheckPointers;
    PointersFromEach(env, Twins(c), TwinFiles(env, c), listing);
  }

  lemma {:induction false} LockHolds(env: Env, pkg: Package, content: Bytes, digest: Text)
    requires FileAt(pkg, PACKAGE_LOCK) == Some(content) && env.parse(content).Some? && env.parse(content).value.Obj?
    requires HasSchema(env.parse(content).value, "sealed_package_lock_v1")
    requires TextField(env.parse(content).value, PACKAGE_DIGEST) == Some(digest)
    ensures CheckLock(env, pkg, digest) == Ok(true)
  {
    hide FileAt, Ascii, HasSchema, TextField;
  }

  lemma {:induction false} ReportHolds(env: Env, pkg: Package, manifest: Json, ref: Text, content: Bytes, digest: Text)
    requires TextField(manifest, PACKAGE_CHECKS_REF) == Some(ref) && CheckRef(ref, PACKAGE_CHECKS_REF).None?
    requires FileAt(pkg, ref) == Some(content) && env.parse(content).Some? && env.parse(content).value.Obj?
    requires HasSchema(env.parse(content).value, "package_checks_v1") && env.checksPass(env.parse(content).value)
    requires TextField(env.parse(content).value, PACKAGE_DIGEST) == Some(digest)
    ensures CheckReport(env, pkg, manifest, digest) == Ok(true)
  {
    hide FileAt, Ascii, HasSchema, TextField, CheckRef;
  }

  lemma {:induction false} ExperimentHolds(env: Env, pkg: Package, manifest: Json, content: Bytes)
    requires Sound(env) && WellFormed(manifest) && FileAt(pkg, RESOLVED_EXPERIMENT) == Some(content) && env.parse(content).Some?
    requires Field(manifest, Ascii("resolved_experiment")) == env.parse(content) && AllFinite(env.parse(content).value)
    ensures CheckExperiment(env, pkg, manifest) == Ok(env.parse(content).value)
  {
    SoundParse(env, content);
    CanonicalJsonEqualIffSame(env.parse(content).value, env.parse(content).value);
    hide FileAt, Ascii, Field, CanonicalJsonStringify, Sound;
  }

  lemma {:induction false} ClaimsHold(env: Env, pkg: Package, manifest: Json, staging: Bytes, digest: Text)
    requires Sound(env) && WellFormed(manifest) && CheckLock(env, pkg, digest).Ok? && CheckReport(env, pkg, manifest, digest).Ok?
    requires CheckExperiment(env, pkg, manifest).Ok? && FileAt(pkg, STAGING_MANIFEST) == Some(staging)
    requires env.parse(staging).Some? && env.stagingValid(pkg, env.parse(staging).value)
    ensures CheckClaims(env, pkg, manifest, digest) == CheckExperiment(env, pkg, manifest)
  {
    SoundParse(env, staging);
    hide Sound, CheckLock, CheckReport, CheckExperiment, FileAt, Ascii;
  }

  lemma {:induction false} TwinClaims(env: Env, c: Contents, manifest: Json)
    requires Sound(env) && WellFormed(manifest) && Consistent(env, c, manifest)
    ensures CheckClaims(env, Twins(c), manifest, TwinDigest(env, c)) == Ok(env.parse(c.experiment).value)
  {
    hide CheckRef, FileAt, Ascii, HasSchema, TwinFiles, TwinDigest, Twins, NoPointers, IsDigest, TextField, Field, CheckLock, CheckReport,
      CheckExperiment, CheckClaims, PACKAGE_LOCK, CHECKS, CHECKSUMS, RESOLVED_EXPERIMENT, STAGING_MANIFEST, Sound;
    RefsOutside();
    TwinReads(c);
    SoundParse(env, c.lock);
    SoundParse(env, c.checks);
    LockHolds(env, Twins(c), c.lock, TwinDigest(env, c));
    ReportHolds(env, Twins(c), manifest, CHECKS, c.checks, TwinDigest(env, c));
    ExperimentHolds(env, Twins(c), manifest, c.experiment);
    ClaimsHold(env, Twins(c), manifest, c.staging, TwinDigest(env, c));
  }

  lemma {:induction false} DigestIs(env: Env, manifest: Json, files: seq<Entry>, digest: Text)
    requires WellFormed(Obj(files)) && CanonicalJsonStringify(Obj(files)).Ok? && IsDigest(digest)
    requires digest == env.hashText(CanonicalJsonStringify(Obj(files)).value) && TextField(manifest, PACKAGE_DIGEST) == Some(digest)
    ensures CheckDigest(env, manifest, files) == Ok(digest)
  {
    DigestNotBlank(digest);
    hide CanonicalJsonStringify, IsDigest, TextField, Ascii, Trim;
  }

  lemma DigestNotBlank(digest: Text)
    requires IsDigest(digest)
    ensures Trim(digest) != []
  {
    assert IsLowerHex(digest[70]) && !IsSpace(digest[70]);
    assert digest[0] == 0x73;
  }

  lemma {:induction false} TwinUnread(env: Env, c: Contents, manifest: Json)
    requires TextField(manifest, CHECKSUMS_REF) == Some(CHECKSUMS) && TextField(manifest, PACKAGE_CHECKS_REF) == Some(CHECKS)
    ensures Unread(manifest, TwinFiles(env, c), SPACED)
  {
    hide PackagePath, Ascii, TextField, NormalizeRel, SplitOn;
    TwinPaths();
    NamesDiffer();
    assert PLAIN != SPACED && CHECKSUMS != SPACED && CHECKS != SPACED && PACKAGE_LOCK != SPACED;
  }

  lemma {:induction false} SpacedNotMetadata(manifest: Json)
    requires TextField(manifest, CHECKSUMS_REF) == Some(CHECKSUMS) && TextField(manifest, PACKAGE_CHECKS_REF) == Some(CHECKS)
    ensures SPACED !in MetadataPaths(manifest)
  {
    hide PackagePath, TextField, NormalizeRel, SplitOn;
    TwinPaths();
    NamesDiffer();
    assert MetadataPaths(manifest) == {MANIFEST, PACKAGE_LOCK, CHECKSUMS, CHECKS};
  }

  lemma ConsistentParts(env: Env, c: Contents, manifest: Json)
    requires Consistent(env, c, manifest)
    ensures TextField(manifest, CHECKSUMS_REF) == Some(CHECKSUMS) && TextField(manifest, PACKAGE_CHECKS_REF) == Some(CHECKS)
    ensures TextField(manifest, PACKAGE_DIGEST) == Some(TwinDigest(env, c)) && IsDigest(TwinDigest(env, c)) && NoPointers(env, c)
  {
    hide TextField, Ascii, TwinFiles, Twins, IsDigest, NoPointers, TwinDigest, HasSchema, Field;
  }

  /** A package whose files `x` and ` x` both bear the checksum of `x` is accepted, whatever the second one holds,
      which is no metadata and which nothing reads. */
  lemma {:induction false} UncoveredFileAccepted(env: Env, c: Contents, manifest: Json, listing: seq<Text>)
    requires Sound(env) && WellFormed(manifest) && Consistent(env, c, manifest) && IsListing(Twins(c), listing)
    ensures Verify(env, Twins(c), manifest, listing) == Ok(env.parse(c.experiment).value)
    ensures Unread(manifest, TwinFiles(env, c), SPACED) && SPACED !in MetadataPaths(manifest)
  {
    assert forall rel :: rel in listing ==> rel in Twins(c);
    TwinFilesProper(env, c);
    assert TwinDigest(env, c) == env.hashText(CanonicalJsonStringify(Obj(TwinFiles(env, c))).value);
    hide *;
    ConsistentParts(env, c, manifest);
    TwinUnread(env, c, manifest);
    SpacedNotMetadata(manifest);
    var files := TwinFiles(env, c);
    TwinChecksumFiles(env, c, manifest);
    TwinEntries(env, c);
    TwinSealed(env, c, manifest, listing);
    TwinPointers(env, c, listing);
    PayloadHolds(env, Twins(c), manifest, files, listing);
    DigestIs(env, manifest, files, TwinDigest(env, c));
    TwinClaims(env, c, manifest);
    VerifyFrom(env, Twins(c), manifest, listing, files);
  }
}
