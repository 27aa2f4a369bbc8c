/** The durable state behind the KeyPackage lifecycle of one device (keypackage_rotation.rs):
    what is on disk, when it is consistent, and which changes keep it consistent. */
module KeyPackageStore {
  import opened Outcomes
  import opened GenerationIds

  const INVENTORY_SCHEMA := "carbonstack-keypackage-inventory/v1"
  const MANIFEST_SCHEMA := "carbonstack-keypackage-generation-manifest/v1"
  const LEGACY_REQUEST_ID := "legacy-public-bundle-import"
  const CIPHERSUITE_LABEL := "MLS_128_DHKEMX25519_AES128GCM_SHA256_Ed25519"
  const CREDENTIAL_TYPE := "BasicCredential"
  const ARTIFACT_FILE := "keypackage.bin"
  const MANIFEST_FILE := "manifest.json"

  /** Error codes of the sidecar's refusals. */
  datatype ErrorCode =
    | IdentityUnavailable
    | KeypackageStateWriteFailed
    | KeypackageStateReadFailed
    | KeypackageStateInvalid
    | KeypackageLifecycleBusy
    | KeypackageLifecycleLockFailed
    | KeypackageInventoryMissing
    | KeypackageInventoryInvalid
    | KeypackageInventoryWriteFailed
    | KeypackageInventoryRecoveryAmbiguous
    | IncompleteKeypackageState
    | IncompleteLegacyKeypackageState
    | LegacyArtifactReadFailed
    | LegacyImportConflict
    | LegacyImportFailed
    | GenerationScanFailed
    | GenerationStateInvalid
    | GenerationManifestMissing
    | GenerationManifestMismatch
    | GenerationArtifactMissing
    | GenerationArtifactReadFailed
    | GenerationArtifactMismatch
    | GenerationRecoveryConflict
    | GenerationPathCollision
    | GenerationStagingFailed
    | GenerationPublishFailed
    | GenerationNotFound
    | CurrentGenerationRetirementRefused
    | ProviderStorageLoadFailed
    | ProviderStorageWriteFailed
    | KeypackageBuildFailed
    | KeypackageDeserializeFailed
    | KeypackageTrailingData
    | KeypackageValidationFailed
    | KeypackageRefFailed
    | KeypackageRefInvalid
    | SystemTimeInvalid
  {
    /** Codes that only a failing disk, clock, OpenMLS build or lock wait produces; every other
        code reports something about the stored state or the request. */
    predicate Environmental() {
      this in {IdentityUnavailable, KeypackageStateWriteFailed, KeypackageStateReadFailed,
               KeypackageLifecycleBusy, KeypackageLifecycleLockFailed,
               KeypackageInventoryWriteFailed, LegacyArtifactReadFailed, LegacyImportFailed,
               GenerationScanFailed, GenerationArtifactReadFailed, GenerationStagingFailed,
               GenerationPublishFailed, ProviderStorageLoadFailed, ProviderStorageWriteFailed,
               KeypackageBuildFailed, SystemTimeInvalid}
    }

    /** Refusals of a serialized KeyPackage that cannot be read back. */
    predicate Unreadable() {
      this in {KeypackageDeserializeFailed, KeypackageTrailingData, KeypackageValidationFailed,
               KeypackageRefFailed}
    }
  }

  /** What OpenMLS reports for a readable KeyPackage (sections 5.2 and 10 of RFC 9420). References
      are printed as `sha256:` and hexadecimal digits. */
  type KeyPackageRef = s: string | WellFormedRef(s) witness "sha256:0123456789abcdef"
  datatype KeyPackage = KeyPackage(ref: KeyPackageRef, notBefore: nat, notAfter: nat)
  type UnreadableCode = c: ErrorCode | c.Unreadable() witness KeypackageDeserializeFailed
  datatype Reading = Readable(keyPackage: KeyPackage) | Rejected(code: UnreadableCode)

  /** OpenMLS validation and SHA-256, about which only determinism is assumed. */
  datatype OpenMls = OpenMls(parse: Bytes -> Reading, digest: Bytes -> string)

  /** A KeyPackage as the OpenMLS builder returns it. */
  datatype Built = Built(keyPackage: KeyPackage, artifact: Bytes)

  /** What is built reads back as what was built. */
  ghost predicate Faithful(mls: OpenMls, built: Built) {
    mls.parse(built.artifact) == Readable(built.keyPackage)
  }

  // ---- Files ----

  datatype Manifest = Manifest(
    schemaVersion: string, deviceLabel: string, generationId: string, sequence: nat,
    requestId: string, keyPackageRef: string, artifactFile: string, artifactSha256: string,
    artifactSize: nat, notBefore: nat, notAfter: nat, createdAt: nat, origin: string,
    ciphersuite: string, credentialType: string, privateMaterialIncluded: bool)

  /** A file below the generations directory. */
  datatype FilePath = FilePath(directory: string, file: string)

  datatype Record = Record(
    generationId: string, sequence: nat, requestId: string, keyPackageRef: string,
    artifactPath: FilePath, artifactSha256: string, artifactSize: nat, manifestPath: FilePath,
    notBefore: nat, notAfter: nat, createdAt: nat, status: string, retiredAt: Option<nat>,
    origin: string)

  datatype Inventory = Inventory(
    schemaVersion: string, deviceLabel: string, nextSequence: nat, current: Option<string>,
    generations: seq<Record>)

  /** `Torn` is what a write leaves that was cut short. */
  datatype File = Artifact(bytes: Bytes) | ManifestJson(manifest: Manifest) | Torn
  type Files = map<string, File>
  datatype Entry = Directory(files: Files) | OtherEntry
  type Generations = map<string, Entry>

  /** The fields `adopt_legacy` reads from a public bundle summary or manifest; `None` is a field
      that is missing or has the wrong type, and `TornDoc` a document that does not parse. */
  datatype BundleDoc =
    | BundleDoc(
        deviceLabel: Option<string>, keyPackageRef: Option<string>,
        artifactSha256: Option<string>, artifactSize: Option<nat>)
    | TornDoc
  datatype Legacy = Legacy(artifact: Option<Bytes>, summary: Option<BundleDoc>, manifest: Option<BundleDoc>)

  /** The state that outlives every process. `provider` is the set of KeyPackage references whose
      private material the persisted provider storage holds. */
  datatype Store = Store(
    inventory: Option<Inventory>, provider: Option<set<string>>, generations: Generations,
    legacy: Legacy)

  function LegacyCount(legacy: Legacy): nat {
    (if legacy.artifact.Some? then 1 else 0) + (if legacy.summary.Some? then 1 else 0)
    + (if legacy.manifest.Some? then 1 else 0)
  }

  function FileAt(gens: Generations, path: FilePath): Option<File> {
    if path.directory in gens && gens[path.directory].Directory? && path.file in gens[path.directory].files
    then Some(gens[path.directory].files[path.file])
    else None
  }

  /** `record_from_manifest` */
  function RecordOf(directory: string, m: Manifest): Record {
    Record(m.generationId, m.sequence, m.requestId, m.keyPackageRef,
           FilePath(directory, m.artifactFile), m.artifactSha256, m.artifactSize,
           FilePath(directory, MANIFEST_FILE), m.notBefore, m.notAfter, m.createdAt,
           "active", None, m.origin)
  }

  /** A record with the two fields retirement changes put back. */
  function Unretired(r: Record): Record {
    r.(status := "active", retiredAt := None)
  }

  // ---- What validate_record_files and validate_inventory accept ----

  predicate ManifestMatches(device: string, r: Record, m: Manifest) {
    && m.schemaVersion == MANIFEST_SCHEMA
    && m.deviceLabel == device
    && m.generationId == r.generationId
    && m.sequence == r.sequence
    && m.requestId == r.requestId
    && m.keyPackageRef == r.keyPackageRef
    && m.artifactFile == ARTIFACT_FILE
    && m.artifactSha256 == r.artifactSha256
    && m.artifactSize == r.artifactSize
    && m.notBefore == r.notBefore
    && m.notAfter == r.notAfter
    && m.createdAt == r.createdAt
    && m.origin == r.origin
    && m.ciphersuite == CIPHERSUITE_LABEL
    && m.credentialType == CREDENTIAL_TYPE
    && !m.privateMaterialIncluded
  }

  predicate ArtifactMatches(mls: OpenMls, r: Record, bytes: Bytes) {
    && |bytes| == r.artifactSize
    && mls.digest(bytes) == r.artifactSha256
    && var reading := mls.parse(bytes);
       && reading.Readable?
       && reading.keyPackage.ref == r.keyPackageRef
       && reading.keyPackage.notBefore == r.notBefore
       && reading.keyPackage.notAfter == r.notAfter
  }

  predicate RecordFilesValid(mls: OpenMls, device: string, gens: Generations, r: Record) {
    var artifact, manifest := FileAt(gens, r.artifactPath), FileAt(gens, r.manifestPath);
    var suffix := RefSuffix(r.keyPackageRef);
    && artifact.Some? && manifest.Some? && manifest.value.ManifestJson?
    && suffix.Some?
    && r.artifactPath == FilePath(DirectoryName(r.generationId, suffix.value), ARTIFACT_FILE)
    && r.manifestPath == FilePath(DirectoryName(r.generationId, suffix.value), MANIFEST_FILE)
    && ManifestMatches(device, r, manifest.value.manifest)
    && artifact.value.Artifact?
    && ArtifactMatches(mls, r, artifact.value.bytes)
  }

  predicate CurrentValid(inv: Inventory) {
    match inv.current
    case Some(id) => exists k | 0 <= k < |inv.generations| ::
                       inv.generations[k].generationId == id && inv.generations[k].status == "active"
    case None => inv.generations == []
  }

  function IdsOf(records: seq<Record>): set<string> {
    set r | r in records :: r.generationId
  }

  function RequestsOf(records: seq<Record>): set<string> {
    set r | r in records :: r.requestId
  }

  predicate RecordsDistinct(records: seq<Record>) {
    forall i, j | 0 <= i < j < |records| ::
      records[i].generationId != records[j].generationId && records[i].requestId != records[j].requestId
  }

  predicate RecordsValid(mls: OpenMls, device: string, gens: Generations, records: seq<Record>) {
    forall i | 0 <= i < |records| ::
      && (records[i].status == "active" || records[i].status == "retired")
      && RecordFilesValid(mls, device, gens, records[i])
  }

  predicate InventoryValid(mls: OpenMls, device: string, gens: Generations, inv: Inventory) {
    && inv.schemaVersion == INVENTORY_SCHEMA
    && inv.deviceLabel == device
    && RecordsDistinct(inv.generations)
    && RecordsValid(mls, device, gens, inv.generations)
    && CurrentValid(inv)
  }

  lemma RecordsSnoc(records: seq<Record>, r: Record)
    ensures IdsOf(records + [r]) == IdsOf(records) + {r.generationId}
    ensures RequestsOf(records + [r]) == RequestsOf(records) + {r.requestId}
    ensures RecordsDistinct(records + [r]) <==>
            RecordsDistinct(records) && r.generationId !in IdsOf(records) && r.requestId !in RequestsOf(records)
  {
    var more := records + [r];
    assert more[|records|] == r;
    assert forall x :: x in more <==> x in records || x == r;
    if r.generationId in IdsOf(records) {
      var i :| 0 <= i < |records| && records[i].generationId == r.generationId;
      assert more[i].generationId == more[|records|].generationId;
    }
    if r.requestId in RequestsOf(records) {
      var i :| 0 <= i < |records| && records[i].requestId == r.requestId;
      assert more[i].requestId == more[|records|].requestId;
    }
    if RecordsDistinct(more) {
      assert forall i :: 0 <= i < |records| ==> more[i] == records[i];
    }
  }

  /** A record passes the file check exactly when it is, up to retirement, the record of the manifest in the
      directory named after it, that manifest is of this device and kind, and the artifact beside it is the
      KeyPackage the record describes. */
  lemma ValidRecordIsItsManifest(mls: OpenMls, device: string, gens: Generations, r: Record)
    ensures RecordFilesValid(mls, device, gens, r)
            <==> && RefSuffix(r.keyPackageRef).Some?
                 && var directory := DirectoryName(r.generationId, RefSuffix(r.keyPackageRef).value);
                    var manifest := FileAt(gens, FilePath(directory, "manifest.json"));
                    var artifact := FileAt(gens, FilePath(directory, "keypackage.bin"));
                    && manifest.Some? && manifest.value.ManifestJson? && artifact.Some? && artifact.value.Artifact?
                    && var m, bytes := manifest.value.manifest, artifact.value.bytes;
                       && r.(status := "active", retiredAt := None) == RecordOf(directory, m)
                       && r.artifactPath.file == "keypackage.bin"
                       && m.schemaVersion == "carbonstack-keypackage-generation-manifest/v1" && m.deviceLabel == device
                       && m.ciphersuite == "MLS_128_DHKEMX25519_AES128GCM_SHA256_Ed25519"
                       && m.credentialType == "BasicCredential" && !m.privateMaterialIncluded
                       && |bytes| == r.artifactSize && mls.digest(bytes) == r.artifactSha256
                       && mls.parse(bytes).Readable?
                       && mls.parse(bytes).keyPackage == KeyPackage(r.keyPackageRef, r.notBefore, r.notAfter)
  {
  }

  // ---- Consistency of the store ----

  predicate HasManifest(gens: Generations, name: string) {
    && name in gens && gens[name].Directory?
    && MANIFEST_FILE in gens[name].files && gens[name].files[MANIFEST_FILE].ManifestJson?
  }

  function ManifestAt(gens: Generations, name: string): Manifest
    requires HasManifest(gens, name)
  {
    gens[name].files[MANIFEST_FILE].manifest
  }

  /** A complete generation directory: its own manifest, read back, passes the file check. */
  predicate Published(mls: OpenMls, device: string, gens: Generations, name: string) {
    && HasManifest(gens, name)
    && var m := ManifestAt(gens, name);
       && m.sequence >= 1
       && m.generationId == GenerationId(m.sequence)
       && RecordFilesValid(mls, device, gens, RecordOf(name, m))
  }

  /** A directory belongs to the request its manifest names. */
  predicate Owns(gens: Generations, name: string, requestId: string) {
    HasManifest(gens, name) && ManifestAt(gens, name).requestId == requestId
  }

  /** A record is the manifest of a published directory, up to retirement. */
  predicate Indexed(gens: Generations, r: Record) {
    && HasManifest(gens, r.manifestPath.directory)
    && Unretired(r) == RecordOf(r.manifestPath.directory, ManifestAt(gens, r.manifestPath.directory))
  }

  predicate RecordsIndexed(gens: Generations, records: seq<Record>) {
    forall i | 0 <= i < |records| ::
      Indexed(gens, records[i]) && (records[i].status == "active" || records[i].status == "retired")
  }

  predicate Ascending(records: seq<Record>) {
    forall i, j | 0 <= i < j < |records| :: records[i].sequence < records[j].sequence
  }

  /** What every inventory on disk satisfies: more than `validate_inventory` asks. Records ascend
      without repetition; the last one is current, active and just below `next_sequence`. */
  predicate InventoryOk(device: string, gens: Generations, inv: Inventory) {
    && inv.schemaVersion == INVENTORY_SCHEMA
    && inv.deviceLabel == device
    && RecordsIndexed(gens, inv.generations)
    && Ascending(inv.generations)
    && inv.generations != []
    && var last := inv.generations[|inv.generations| - 1];
       inv.current == Some(last.generationId) && last.status == "active" && inv.nextSequence == last.sequence + 1
  }

  /** Before the first inventory: no generation, or the first one alone, left by a crash between
      publishing it and writing the inventory. */
  predicate FirstGenerationOnly(mls: OpenMls, device: string, s: Store) {
    && (forall a, b | a in s.generations && b in s.generations :: a == b)
    && forall name | name in s.generations ::
         && HasManifest(s.generations, name)
         && var m := ManifestAt(s.generations, name);
            && m.sequence == 1
            && (if LegacyCount(s.legacy) == 0 then m.origin == "generated" else IsLegacyImport(mls, device, s.legacy, m))
  }

  /** A directory imported from a legacy bundle whose documents agree with its artifact. */
  predicate IsLegacyImport(mls: OpenMls, device: string, legacy: Legacy, m: Manifest) {
    && LegacyAgrees(mls, device, legacy)
    && m.requestId == LEGACY_REQUEST_ID
    && m.origin == "legacy_import"
    && mls.parse(legacy.artifact.value).keyPackage.ref == m.keyPackageRef
  }

  /** A complete legacy export: a readable artifact, and both documents describing it. */
  predicate LegacyAgrees(mls: OpenMls, device: string, legacy: Legacy) {
    LegacyCount(legacy) == 3
    && mls.parse(legacy.artifact.value).Readable?
    && BundleAgrees(mls, device, legacy.artifact.value, mls.parse(legacy.artifact.value).keyPackage, legacy.summary.value)
    && BundleAgrees(mls, device, legacy.artifact.value, mls.parse(legacy.artifact.value).keyPackage, legacy.manifest.value)
  }

  predicate BundleAgrees(mls: OpenMls, device: string, artifact: Bytes, kp: KeyPackage, doc: BundleDoc) {
    && doc.BundleDoc?
    && doc.deviceLabel == Some(device)
    && doc.keyPackageRef == Some(kp.ref)
    && doc.artifactSha256 == Some(mls.digest(artifact))
    && doc.artifactSize == Some(|artifact|)
  }

  /** A legacy export is adopted exactly when it is complete, its artifact reads back, and both documents
      state its device, reference, digest and size. */
  lemma LegacyAgreesExactly(mls: OpenMls, device: string, legacy: Legacy)
    ensures LegacyAgrees(mls, device, legacy)
            <==> && legacy.artifact.Some? && mls.parse(legacy.artifact.value).Readable?
                 && var artifact := legacy.artifact.value;
                    var right := BundleDoc(Some(device), Some(mls.parse(artifact).keyPackage.ref), Some(mls.digest(artifact)),
                                           Some(|artifact|));
                    legacy.summary == Some(right) && legacy.manifest == Some(right)
  {
  }

  /** Private material of an exported legacy bundle went to the provider storage with it. */
  predicate LegacyBacked(mls: OpenMls, s: Store) {
    s.legacy.artifact.Some? && s.provider.Some? && mls.parse(s.legacy.artifact.value).Readable? ==>
      mls.parse(s.legacy.artifact.value).keyPackage.ref in s.provider.value
  }

  /** Every directory under the generations root is complete. */
  predicate AllPublished(mls: OpenMls, device: string, gens: Generations) {
    forall name | name in gens :: Published(mls, device, gens, name)
  }

  /** One directory for a sequence, one directory for a request. */
  predicate OneDirectoryEach(gens: Generations)
    requires forall name | name in gens :: HasManifest(gens, name)
  {
    forall a, b | a in gens && b in gens && a != b ::
      && ManifestAt(gens, a).sequence != ManifestAt(gens, b).sequence
      && ManifestAt(gens, a).requestId != ManifestAt(gens, b).requestId
  }

  /** Every directory, listed or not, has its private material in the provider storage. */
  predicate PrivateMaterialStored(gens: Generations, provider: Option<set<string>>)
    requires forall name | name in gens :: HasManifest(gens, name)
  {
    forall name | name in gens :: provider.Some? && ManifestAt(gens, name).keyPackageRef in provider.value
  }

  predicate Listed(mls: OpenMls, device: string, s: Store) {
    if s.inventory.Some? then InventoryOk(device, s.generations, s.inventory.value)
    else FirstGenerationOnly(mls, device, s)
  }

  /** The invariant of every reachable store. */
  predicate Inv(mls: OpenMls, device: string, s: Store) {
    && AllPublished(mls, device, s.generations)
    && OneDirectoryEach(s.generations)
    && PrivateMaterialStored(s.generations, s.provider)
    && LegacyBacked(mls, s)
    && Listed(mls, device, s)
  }

  /** Before the first lifecycle command: nothing but what `public-bundle-export` may have left,
      finished or not. */
  predicate Initial(mls: OpenMls, s: Store) {
    s.inventory == None && s.generations == map[] && LegacyBacked(mls, s)
  }

  // ---- How the store may change ----

  predicate InventoryGrows(old_: Inventory, new_: Inventory) {
    && |old_.generations| <= |new_.generations|
    && old_.nextSequence <= new_.nextSequence
    && forall i | 0 <= i < |old_.generations| ::
         && Unretired(old_.generations[i]) == Unretired(new_.generations[i])
         && (old_.generations[i].status == "retired" ==> old_.generations[i] == new_.generations[i])
  }

  /** Directories and provider storage only grow, the inventory keeps its records in place, and
      retirement is final. */
  predicate Grows(s: Store, t: Store) {
    && (forall name | name in s.generations :: name in t.generations && t.generations[name] == s.generations[name])
    && (s.provider.Some? ==> t.provider.Some? && s.provider.value <= t.provider.value)
    && t.legacy == s.legacy
    && (s.inventory.Some? ==> t.inventory.Some? && InventoryGrows(s.inventory.value, t.inventory.value))
  }

  lemma GrowsTransitive(s: Store, t: Store, u: Store)
    requires Grows(s, t) && Grows(t, u)
    ensures Grows(s, u)
  {
    if s.inventory.Some? {
      var a, b, c := s.inventory.value, t.inventory.value, u.inventory.value;
      forall i | 0 <= i < |a.generations|
        ensures Unretired(a.generations[i]) == Unretired(c.generations[i])
        ensures a.generations[i].status == "retired" ==> a.generations[i] == c.generations[i]
      {
        assert Unretired(a.generations[i]) == Unretired(b.generations[i]);
        assert Unretired(b.generations[i]) == Unretired(c.generations[i]);
      }
    }
  }

  lemma GrowsReflexive(s: Store)
    ensures Grows(s, s)
  {
  }

  /** An accepted record stays accepted however the store grows. */
  lemma RecordFilesStayValid(mls: OpenMls, device: string, s: Store, t: Store, r: Record)
    requires Grows(s, t) && RecordFilesValid(mls, device, s.generations, r)
    ensures RecordFilesValid(mls, device, t.generations, r)
  {
    assert FileAt(t.generations, r.artifactPath) == FileAt(s.generations, r.artifactPath);
    assert FileAt(t.generations, r.manifestPath) == FileAt(s.generations, r.manifestPath);
  }

  lemma RecordsStayValid(mls: OpenMls, device: string, s: Store, t: Store, records: seq<Record>)
    requires Grows(s, t) && RecordsValid(mls, device, s.generations, records)
    ensures RecordsValid(mls, device, t.generations, records)
  {
    forall i | 0 <= i < |records|
      ensures RecordFilesValid(mls, device, t.generations, records[i])
    {
      RecordFilesStayValid(mls, device, s, t, records[i]);
    }
  }

  lemma IndexedRecordFilesValid(mls: OpenMls, device: string, s: Store, r: Record)
    requires Inv(mls, device, s) && Indexed(s.generations, r)
    ensures RecordFilesValid(mls, device, s.generations, r)
  {
    var name := r.manifestPath.directory;
    assert Published(mls, device, s.generations, name);
    assert RecordFilesValid(mls, device, s.generations, Unretired(r));
  }

  /** Records of one sequence, or of one request, are records of one directory. */
  lemma RecordsOfOneDirectory(mls: OpenMls, device: string, s: Store, q: Record, r: Record)
    requires Inv(mls, device, s) && Indexed(s.generations, q) && Indexed(s.generations, r)
    ensures q.sequence == r.sequence || q.requestId == r.requestId || q.generationId == r.generationId
            ==> Unretired(q) == Unretired(r)
  {
    var a, b := q.manifestPath.directory, r.manifestPath.directory;
    assert Published(mls, device, s.generations, a) && Published(mls, device, s.generations, b);
    if q.generationId == r.generationId {
      GenerationIdInjective(q.sequence, r.sequence);
    }
  }

  /** Every inventory the code keeps passes the check it makes on loading. */
  lemma InventoryOkIsValid(mls: OpenMls, device: string, s: Store, inv: Inventory)
    requires Inv(mls, device, s) && InventoryOk(device, s.generations, inv)
    ensures InventoryValid(mls, device, s.generations, inv)
  {
    forall i | 0 <= i < |inv.generations|
      ensures RecordFilesValid(mls, device, s.generations, inv.generations[i])
    {
      IndexedRecordFilesValid(mls, device, s, inv.generations[i]);
    }
    forall i, j | 0 <= i < j < |inv.generations|
      ensures inv.generations[i].generationId != inv.generations[j].generationId
      ensures inv.generations[i].requestId != inv.generations[j].requestId
    {
      RecordsOfOneDirectory(mls, device, s, inv.generations[i], inv.generations[j]);
    }
  }
}
