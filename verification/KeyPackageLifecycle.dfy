/** What one completed `keypackage-generate` or `keypackage-retire` does to the store, stated
    without the steps that do it, and why those effects keep the store consistent. */
module KeyPackageLifecycle {
  import opened Outcomes
  import opened GenerationIds
  import opened KeyPackageStore

  // ---- Inventories in memory ----

  function EmptyInventory(device: string): Inventory {
    Inventory(INVENTORY_SCHEMA, device, 1, None, [])
  }

  /** Appends the newest record and makes it current. */
  function Extend(inv: Inventory, r: Record): Inventory {
    inv.(nextSequence := if inv.nextSequence <= r.sequence then r.sequence + 1 else inv.nextSequence,
         current := Some(r.generationId),
         generations := inv.generations + [r])
  }

  /** The inventory `load_or_initialize_inventory` hands on; the empty one is not written yet. */
  function Loaded(device: string, s: Store): Inventory {
    if s.inventory.Some? then s.inventory.value else EmptyInventory(device)
  }

  function FindRequest(records: seq<Record>, requestId: string): (found: Option<Record>)
    ensures found.Some? ==> found.value in records && found.value.requestId == requestId
    ensures found.None? ==> forall i :: 0 <= i < |records| ==> records[i].requestId != requestId
  {
    if records == [] then None
    else if records[0].requestId == requestId then Some(records[0])
    else FindRequest(records[1..], requestId)
  }

  /** The position of the first record with this generation id. */
  function FindGeneration(records: seq<Record>, generationId: string): (found: Option<nat>)
    ensures found.Some? ==> found.value < |records| && records[found.value].generationId == generationId
    ensures found.Some? ==> forall i :: 0 <= i < found.value ==> records[i].generationId != generationId
    ensures found.None? ==> forall i :: 0 <= i < |records| ==> records[i].generationId != generationId
  {
    if records == [] then None
    else if records[0].generationId == generationId then Some(0)
    else
      var rest := FindGeneration(records[1..], generationId);
      if rest.Some? then Some(rest.value + 1) else None
  }

  lemma CurrentLookup(inv: Inventory)
    requires inv.current.Some? && RecordsDistinct(inv.generations)
    ensures var found := FindGeneration(inv.generations, inv.current.value);
            CurrentValid(inv) <==> found.Some? && inv.generations[found.value].status == "active"
  {
  }

  // ---- sort_by_key(|record| record.sequence) ----

  function InsertRecord(r: Record, sorted: seq<Record>): seq<Record> {
    if sorted == [] || r.sequence < sorted[0].sequence then [r] + sorted
    else [sorted[0]] + InsertRecord(r, sorted[1..])
  }

  function SortBySequence(records: seq<Record>): seq<Record> {
    if records == [] then []
    else InsertRecord(records[|records| - 1], SortBySequence(records[..|records| - 1]))
  }

  ghost predicate DistinctSequences(records: seq<Record>) {
    forall i, j :: 0 <= i < j < |records| ==> records[i].sequence != records[j].sequence
  }

  lemma {:induction false} InsertKeepsOrder(r: Record, sorted: seq<Record>)
    requires Ascending(sorted)
    requires forall x :: x in sorted ==> x.sequence != r.sequence
    ensures Ascending(InsertRecord(r, sorted))
    ensures forall x :: x in InsertRecord(r, sorted) <==> x in sorted || x == r
  {
    if sorted != [] && sorted[0].sequence < r.sequence {
      assert sorted == [sorted[0]] + sorted[1..];
      InsertKeepsOrder(r, sorted[1..]);
      var rest := InsertRecord(r, sorted[1..]);
      forall i | 0 <= i < |rest|
        ensures sorted[0].sequence < rest[i].sequence
      {
        assert rest[i] in rest;
      }
    }
  }

  /** Sorting keeps the elements and, when no two sequences are equal, puts them in strict order. */
  lemma {:induction false} SortOrders(records: seq<Record>)
    requires DistinctSequences(records)
    ensures Ascending(SortBySequence(records))
    ensures forall x :: x in SortBySequence(records) <==> x in records
  {
    if records != [] {
      var front, last := records[..|records| - 1], records[|records| - 1];
      assert records == front + [last];
      SortOrders(front);
      InsertKeepsOrder(last, SortBySequence(front));
    }
  }

  lemma {:induction false} InsertAtEnd(r: Record, sorted: seq<Record>)
    requires forall x :: x in sorted ==> x.sequence < r.sequence
    ensures InsertRecord(r, sorted) == sorted + [r]
  {
    if sorted != [] {
      InsertAtEnd(r, sorted[1..]);
      assert sorted == [sorted[0]] + sorted[1..];
    }
  }

  /** Sorting after appending the newest record moves nothing. */
  lemma {:induction false} SortOfAscending(records: seq<Record>)
    requires Ascending(records)
    ensures SortBySequence(records) == records
  {
    if records != [] {
      var front, last := records[..|records| - 1], records[|records| - 1];
      assert records == front + [last];
      SortOfAscending(front);
      InsertAtEnd(last, front);
    }
  }

  /** `records` are the manifests of all directories, in order of sequence. */
  ghost predicate ScanOf(gens: Generations, records: seq<Record>) {
    && Ascending(records)
    && (forall r | r in records ::
          HasManifest(gens, r.manifestPath.directory)
          && r == RecordOf(r.manifestPath.directory, ManifestAt(gens, r.manifestPath.directory)))
    && (forall name | name in gens :: HasManifest(gens, name) && RecordOf(name, ManifestAt(gens, name)) in records)
  }

  lemma ScanDistinct(mls: OpenMls, device: string, s: Store, records: seq<Record>)
    requires Inv(mls, device, s) && ScanOf(s.generations, records)
    ensures RecordsDistinct(records) && DistinctSequences(records)
  {
    hide RecordFilesValid, LegacyBacked, Listed, PrivateMaterialStored;
    forall i, j | 0 <= i < j < |records|
      ensures records[i].generationId != records[j].generationId && records[i].requestId != records[j].requestId
    {
      RecordsOfOneDirectory(mls, device, s, records[i], records[j]);
    }
  }

  // ---- The new generation ----

  function NewManifest(mls: OpenMls, device: string, sequence: nat, requestId: string, built: Built,
                       createdAt: nat, origin: string): Manifest
  {
    Manifest(MANIFEST_SCHEMA, device, GenerationId(sequence), sequence, requestId,
             built.keyPackage.ref, ARTIFACT_FILE, mls.digest(built.artifact), |built.artifact|,
             built.keyPackage.notBefore, built.keyPackage.notAfter, createdAt, origin,
             CIPHERSUITE_LABEL, CREDENTIAL_TYPE, false)
  }

  function GenerationName(sequence: nat, ref: KeyPackageRef): string {
    DirectoryName(GenerationId(sequence), RefSuffix(ref).value)
  }

  function NewEntry(m: Manifest, artifact: Bytes): Entry {
    Directory(map[ARTIFACT_FILE := Artifact(artifact), MANIFEST_FILE := ManifestJson(m)])
  }

  function Publish(s: Store, name: string, m: Manifest, artifact: Bytes): Store {
    s.(generations := s.generations[name := NewEntry(m, artifact)])
  }

  /** A sequence above every directory and not below the inventory, and the least such. */
  ghost predicate IsNextFree(s: Store, inv: Inventory, n: nat) {
    && inv.nextSequence <= n
    && (forall name | HasManifest(s.generations, name) :: ManifestAt(s.generations, name).sequence < n)
    && (n == inv.nextSequence
        || exists name :: HasManifest(s.generations, name) && ManifestAt(s.generations, name).sequence + 1 == n)
  }

  // ---- Effects ----

  /** What the caller of `keypackage-generate` is told. */
  datatype Generated = Generated(record: Record, current: Option<string>, count: nat,
                                 idempotentReplay: bool, recoveredFromManifest: bool)

  /** `name` is the only directory of `t`, and either the only one `s` had or the import of the
      legacy bundle of `s`. */
  ghost predicate FirstGeneration(mls: OpenMls, device: string, s: Store, gens: Generations, name: string) {
    && HasManifest(gens, name) && (forall other | other in gens :: other == name)
    && ManifestAt(gens, name).sequence == 1
    && (if s.generations != map[] then gens == s.generations
        else
          && IsLegacyImport(mls, device, s.legacy, ManifestAt(gens, name))
          && gens[name] == NewEntry(ManifestAt(gens, name), s.legacy.artifact.value))
  }

  /** Loading the inventory turns `s` into `t`: nothing happens unless the inventory is missing and
      provider storage exists; then the one first generation, found or imported from the legacy
      bundle, becomes the inventory. */
  ghost predicate Settles(mls: OpenMls, device: string, s: Store, t: Store) {
    if s.inventory.Some? || s.provider.None? then t == s
    else
      exists name ::
        && FirstGeneration(mls, device, s, t.generations, name)
        && t == s.(generations := t.generations,
                   inventory := Some(Extend(EmptyInventory(device), RecordOf(name, ManifestAt(t.generations, name)))))
  }

  /** A completed generate, from a store whose inventory is loaded. Exactly one of: the request is
      in the inventory; the request owns a directory the inventory does not list yet; the request is
      new and its key is stored, published and listed. */
  ghost predicate Generates(mls: OpenMls, device: string, s: Store, requestId: string, built: Option<Built>,
                            t: Store, result: Generated)
  {
    var inv := Loaded(device, s);
    && t.inventory.Some?
    && result.current == t.inventory.value.current
    && result.count == |t.inventory.value.generations|
    && (if FindRequest(inv.generations, requestId).Some? then
          && t == s && result.idempotentReplay
          && result.record == FindRequest(inv.generations, requestId).value
        else if exists name :: Owns(s.generations, name, requestId) then
          Recovers(s, inv, requestId, t, result)
        else
          built.Some? && Creates(mls, device, s, inv, requestId, built.value, t, result))
  }

  ghost predicate Recovers(s: Store, inv: Inventory, requestId: string, t: Store, result: Generated) {
    exists name ::
      && Owns(s.generations, name, requestId)
      && inv.nextSequence <= ManifestAt(s.generations, name).sequence
      && result.record == RecordOf(name, ManifestAt(s.generations, name))
      && result.idempotentReplay && result.recoveredFromManifest
      && t == s.(inventory := Some(Extend(inv, result.record)))
  }

  ghost predicate Creates(mls: OpenMls, device: string, s: Store, inv: Inventory, requestId: string,
                          built: Built, t: Store, result: Generated)
  {
    var r := result.record;
    var m := NewManifest(mls, device, r.sequence, requestId, built, r.createdAt, "generated");
    var name := GenerationName(r.sequence, built.keyPackage.ref);
    && IsNextFree(s, inv, r.sequence)
    && r == RecordOf(name, m)
    && !result.idempotentReplay && !result.recoveredFromManifest
    && t == Publish(s.(provider := Some(WithKey(s.provider, built.keyPackage.ref))), name, m, built.artifact)
              .(inventory := Some(Extend(inv, r)))
  }

  /** The loaded provider storage with the new private material added. */
  function WithKey(provider: Option<set<string>>, ref: string): set<string> {
    (if provider.Some? then provider.value else {}) + {ref}
  }

  /** The request is unlisted and its directory lies below the loaded `next_sequence`. */
  ghost predicate StaleClaim(s: Store, inv: Inventory, requestId: string) {
    && FindRequest(inv.generations, requestId).None?
    && exists name :: Owns(s.generations, name, requestId) && ManifestAt(s.generations, name).sequence < inv.nextSequence
  }

  /** The request owns a directory that a later request overtook before it was listed. */
  ghost predicate Overtaken(s: Store, requestId: string) {
    s.inventory.Some? && StaleClaim(s, s.inventory.value, requestId)
  }

  /** Inventory-free stores that generate refuses for good: a provider storage or a legacy bundle
      without the rest of its files, or a legacy bundle whose files disagree. */
  ghost predicate LegacyUnusable(mls: OpenMls, device: string, s: Store) {
    && s.inventory.None?
    && (if s.provider.None? then LegacyCount(s.legacy) != 0
        else if LegacyCount(s.legacy) == 3 then !LegacyAgrees(mls, device, s.legacy)
        else LegacyCount(s.legacy) != 0 || s.generations == map[])
  }

  /** With which code: the first complaint in the order `adopt_legacy` reads its files. */
  function LegacyCode(mls: OpenMls, s: Store): ErrorCode {
    if s.provider.None? || LegacyCount(s.legacy) != 3 then IncompleteLegacyKeypackageState
    else
      match mls.parse(s.legacy.artifact.value)
      case Rejected(code) => code
      case Readable(_) =>
        if s.legacy.summary.value.TornDoc? || s.legacy.manifest.value.TornDoc? then KeypackageStateInvalid
        else IncompleteLegacyKeypackageState
  }

  /** Which fault each code reports: an artifact that does not read back, then a document that does not
      parse, then everything else: a missing file, or a document that says anything but device, reference,
      digest and size of the artifact. */
  lemma LegacyCodeMeans(mls: OpenMls, device: string, s: Store)
    requires LegacyUnusable(mls, device, s)
    ensures var code := LegacyCode(mls, s);
            var complete := s.provider.Some? && s.legacy.artifact.Some? && s.legacy.summary.Some? && s.legacy.manifest.Some?;
            && (code.Unreadable()
                <==> && complete && mls.parse(s.legacy.artifact.value).Rejected?
                     && mls.parse(s.legacy.artifact.value).code == code)
            && (code == KeypackageStateInvalid
                <==> && complete && mls.parse(s.legacy.artifact.value).Readable?
                     && (s.legacy.summary == Some(TornDoc) || s.legacy.manifest == Some(TornDoc)))
            && (code == IncompleteLegacyKeypackageState ==>
                  complete ==>
                    && mls.parse(s.legacy.artifact.value).Readable?
                    && var artifact := s.legacy.artifact.value;
                       var right := BundleDoc(Some(device), Some(mls.parse(artifact).keyPackage.ref), Some(mls.digest(artifact)),
                                              Some(|artifact|));
                       s.legacy.summary != Some(right) || s.legacy.manifest != Some(right))
            && (code.Unreadable() || code == KeypackageStateInvalid || code == IncompleteLegacyKeypackageState)
  {
  }

  /** The only refusals of generate that are not a failing disk, clock, build or lock wait. */
  ghost predicate Refusable(mls: OpenMls, device: string, s: Store, requestId: string, code: ErrorCode) {
    if code == GenerationRecoveryConflict then Overtaken(s, requestId)
    else LegacyUnusable(mls, device, s) && code == LegacyCode(mls, s)
  }

  /** Some directory belongs to the request. */
  ghost predicate Claimed(s: Store, requestId: string) {
    exists name :: Owns(s.generations, name, requestId)
  }

  /** The inventory lists the record for the request. */
  predicate Reports(s: Store, requestId: string, r: Record) {
    s.inventory.Some? && r in s.inventory.value.generations && r.requestId == requestId
  }

  /** The inventory lists the record for the request, retired since or not. */
  ghost predicate Kept(s: Store, requestId: string, r: Record) {
    && s.inventory.Some? && r.requestId == requestId
    && exists q :: q in s.inventory.value.generations && Unretired(q) == Unretired(r)
  }

  /** What the caller of `keypackage-retire` is told. */
  datatype Retired = Retired(retiredAt: Option<nat>, idempotentReplay: bool)

  /** Why a retirement is refused, if it is, when disk and clock work. */
  function RetireRefusal(s: Store, generationId: string): Option<ErrorCode> {
    if s.inventory.None? then Some(KeypackageInventoryMissing)
    else if s.inventory.value.current == Some(generationId) then Some(CurrentGenerationRetirementRefused)
    else if FindGeneration(s.inventory.value.generations, generationId).None? then Some(GenerationNotFound)
    else None
  }

  /** A completed retirement marks exactly one record, and that one only once. */
  ghost predicate Retires(s: Store, generationId: string, t: Store, result: Retired) {
    && RetireRefusal(s, generationId).None?
    && var inv := s.inventory.value;
       var k := FindGeneration(inv.generations, generationId).value;
       if inv.generations[k].status == "retired" then
         t == s && result == Retired(inv.generations[k].retiredAt, true)
       else
         && !result.idempotentReplay && result.retiredAt.Some?
         && t == s.(inventory := Some(RetireAt(inv, k, result.retiredAt.value)))
  }

  /** What a retirement leaves, field by field: the first record with the id says retired and carries the
      reported time, and nothing else in the inventory differs. */
  ghost predicate MarkedRetired(before: Inventory, after: Inventory, generationId: string, result: Retired) {
    && after.schemaVersion == before.schemaVersion && after.deviceLabel == before.deviceLabel
    && after.nextSequence == before.nextSequence && after.current == before.current
    && |after.generations| == |before.generations|
    && exists k :: 0 <= k < |before.generations| && MarkedAt(before.generations, after.generations, k, generationId, result)
  }

  ghost predicate MarkedAt(before: seq<Record>, after: seq<Record>, k: nat, generationId: string, result: Retired)
    requires k < |before| == |after|
  {
    && before[k].generationId == generationId && (forall i | 0 <= i < k :: before[i].generationId != generationId)
    && (forall i | 0 <= i < |before| && i != k :: after[i] == before[i])
    && after[k].status == "retired" && after[k].retiredAt == result.retiredAt
    && before[k] == after[k].(status := before[k].status, retiredAt := before[k].retiredAt)
    && (result.idempotentReplay <==> before[k].status == "retired")
    && (result.idempotentReplay ==> after[k] == before[k])
  }

  lemma RetiresMarks(s: Store, generationId: string, t: Store, result: Retired)
    requires Retires(s, generationId, t, result)
    ensures t == s.(inventory := t.inventory) && s.inventory.Some? && t.inventory.Some?
    ensures MarkedRetired(s.inventory.value, t.inventory.value, generationId, result)
  {
    var before, after := s.inventory.value.generations, t.inventory.value.generations;
    var k := FindGeneration(before, generationId).value;
    assert MarkedAt(before, after, k, generationId, result);
  }

  /** Retiring a generation again, however often, is a replay that reports the same time and changes
      nothing. */
  lemma RetiringAgainReplays(s: Store, generationId: string, t: Store, result: Retired)
    requires Retires(s, generationId, t, result)
    ensures RetireRefusal(t, generationId).None?
    ensures Retires(t, generationId, t, Retired(result.retiredAt, true))
    ensures forall u, again :: Retires(t, generationId, u, again) ==> u == t && again == Retired(result.retiredAt, true)
  {
    RetiresMarks(s, generationId, t, result);
    var before, after := s.inventory.value.generations, t.inventory.value.generations;
    var k :| 0 <= k < |before| && MarkedAt(before, after, k, generationId, result);
    var j := FindGeneration(after, generationId);
    assert forall i | 0 <= i < |before| :: after[i].generationId == before[i].generationId;
    assert j == Some(k);
  }

  function RetireAt(inv: Inventory, index: nat, at: nat): Inventory
    requires index < |inv.generations|
  {
    inv.(generations := inv.generations[index := inv.generations[index].(status := "retired", retiredAt := Some(at))])
  }

  /** What is recorded of a new key, field by field. */
  predicate DescribesKey(mls: OpenMls, r: Record, requestId: string, built: Built, createdAt: nat) {
    && r.requestId == requestId && r.generationId == GenerationId(r.sequence)
    && r.keyPackageRef == built.keyPackage.ref
    && r.artifactSha256 == mls.digest(built.artifact) && r.artifactSize == |built.artifact|
    && r.notBefore == built.keyPackage.notBefore && r.notAfter == built.keyPackage.notAfter
    && r.createdAt == createdAt && r.origin == "generated" && r.status == "active" && r.retiredAt == None
  }

  /** A new generation: the artifact lies where its record says, in a directory named after the id and the
      reference, beside the manifest; the record is listed last and current. */
  lemma NewKeyIsDescribed(mls: OpenMls, device: string, s: Store, inv: Inventory, requestId: string, built: Built, t: Store,
                          result: Generated)
    requires Creates(mls, device, s, inv, requestId, built, t, result) && inv.nextSequence <= result.record.sequence
    ensures var r := result.record;
            && DescribesKey(mls, r, requestId, built, r.createdAt)
            && RefSuffix(built.keyPackage.ref).Some?
            && r.artifactPath == FilePath(r.generationId + "-" + RefSuffix(built.keyPackage.ref).value, "keypackage.bin")
            && r.manifestPath == FilePath(r.artifactPath.directory, "manifest.json")
            && FileAt(t.generations, r.artifactPath) == Some(Artifact(built.artifact))
            && FileAt(t.generations, r.manifestPath).Some? && FileAt(t.generations, r.manifestPath).value.ManifestJson?
            && ManifestMatches(device, r, FileAt(t.generations, r.manifestPath).value.manifest)
            && t.inventory.Some? && t.inventory.value.generations == inv.generations + [r]
            && t.inventory.value.current == Some(r.generationId) && t.inventory.value.nextSequence == r.sequence + 1
            && t.provider.Some? && built.keyPackage.ref in t.provider.value
  {
  }

  // ---- Where a command may stop ----

  /** The stores loading the inventory may leave: nothing changed, the legacy bundle imported but not
      listed, or the first generation listed. */
  ghost predicate SettlePoint(mls: OpenMls, device: string, s: Store, t: Store) {
    t == s
    || (&& s.inventory.None? && s.provider.Some?
        && exists name ::
             && FirstGeneration(mls, device, s, t.generations, name)
             && (t == s.(generations := t.generations)
                 || t == s.(generations := t.generations,
                            inventory := Some(Extend(EmptyInventory(device), RecordOf(name, ManifestAt(t.generations, name)))))))
  }

  /** The provider storage with the new key saved, and nothing else. */
  function WithSavedKey(s: Store, built: Built): Store {
    s.(provider := Some(WithKey(s.provider, built.keyPackage.ref)))
  }

  /** The stores creating a generation may leave once it has changed anything: the key saved, the
      directory published as well, or all of it and listed. */
  ghost predicate CreatePoint(mls: OpenMls, device: string, s: Store, requestId: string, built: Built, t: Store) {
    var saved := WithSavedKey(s, built);
    t == saved
    || exists sequence, createdAt ::
         && IsNextFree(s, Loaded(device, s), sequence)
         && var m := NewManifest(mls, device, sequence, requestId, built, createdAt, "generated");
            var name := GenerationName(sequence, built.keyPackage.ref);
            var published := Publish(saved, name, m, built.artifact);
            t == published || t == published.(inventory := Some(Extend(Loaded(device, s), RecordOf(name, m))))
  }

  lemma CreatedAsSpecified(mls: OpenMls, device: string, s: Store, inv: Inventory, requestId: string, built: Built, sequence: nat,
                           createdAt: nat, t: Store, result: Generated)
    requires IsNextFree(s, inv, sequence) && !result.idempotentReplay && !result.recoveredFromManifest
    requires var m := NewManifest(mls, device, sequence, requestId, built, createdAt, "generated");
             var name := GenerationName(sequence, built.keyPackage.ref);
             && result.record == RecordOf(name, m)
             && t == Publish(WithSavedKey(s, built), name, m, built.artifact).(inventory := Some(Extend(inv, result.record)))
    ensures Creates(mls, device, s, inv, requestId, built, t, result)
    ensures DescribesKey(mls, result.record, requestId, built, createdAt)
  {
    hide IsNextFree, Extend, Publish;
  }

  lemma CreatePoints(mls: OpenMls, device: string, s: Store, requestId: string, built: Built, sequence: nat, createdAt: nat)
    requires IsNextFree(s, Loaded(device, s), sequence)
    ensures var m := NewManifest(mls, device, sequence, requestId, built, createdAt, "generated");
            var name := GenerationName(sequence, built.keyPackage.ref);
            var published := Publish(WithSavedKey(s, built), name, m, built.artifact);
            && CreatePoint(mls, device, s, requestId, built, WithSavedKey(s, built))
            && CreatePoint(mls, device, s, requestId, built, published)
            && CreatePoint(mls, device, s, requestId, built,
                           published.(inventory := Some(Extend(Loaded(device, s), RecordOf(name, m)))))
  {
    hide IsNextFree, NewManifest, GenerationName, WithKey, Extend;
  }

  /** The stores answering a request from a loaded inventory may leave. */
  ghost predicate AnswerPoint(mls: OpenMls, device: string, s: Store, requestId: string, built: Option<Built>, t: Store) {
    t == s
    || (&& FindRequest(Loaded(device, s).generations, requestId).None?
        && if exists name :: Owns(s.generations, name, requestId) then
             exists name ::
               && Owns(s.generations, name, requestId)
               && t == s.(inventory := Some(Extend(Loaded(device, s), RecordOf(name, ManifestAt(s.generations, name)))))
           else built.Some? && CreatePoint(mls, device, s, requestId, built.value, t))
  }

  /** The stores one `keypackage-generate` may leave, however it ends: it stops while settling, or it
      settles and stops while answering. */
  ghost predicate GeneratePoint(mls: OpenMls, device: string, s: Store, requestId: string, built: Option<Built>, t: Store) {
    exists settled ::
      && SettlePoint(mls, device, s, settled)
      && (t == settled
          || (&& Settles(mls, device, s, settled) && !LegacyUnusable(mls, device, s)
              && AnswerPoint(mls, device, settled, requestId, built, t)))
  }

  /** The stores one `keypackage-retire` may leave. */
  ghost predicate RetirePoint(s: Store, generationId: string, t: Store) {
    t == s || exists result :: Retires(s, generationId, t, result)
  }

  /** What one critical section, finished or cut short, does to the store. */
  ghost predicate CriticalSection(mls: OpenMls, device: string, s: Store, t: Store) {
    || (exists requestId, built :: GeneratePoint(mls, device, s, requestId, built, t))
    || (exists generationId :: RetirePoint(s, generationId, t))
  }

  function EndOfWrites(s: Store, writes: seq<Store>): Store {
    if writes == [] then s else writes[|writes| - 1]
  }

  ghost predicate GenerateWrites(mls: OpenMls, device: string, s: Store, requestId: string, built: Option<Built>,
                                 writes: seq<Store>)
  {
    forall w | w in writes :: GenerateEnds(mls, device, s, requestId, built, w)
  }

  ghost predicate RetireWrites(s: Store, generationId: string, writes: seq<Store>) {
    forall w | w in writes :: RetirePoint(s, generationId, w)
  }

  /** The stores the critical section of one command writes, in order: each is one where that command may
      stop, is consistent and larger than the one the section found. */
  ghost predicate SectionWrites(mls: OpenMls, device: string, s: Store, writes: seq<Store>) {
    && (|| (exists requestId, built :: GenerateWrites(mls, device, s, requestId, built, writes))
        || (exists generationId :: RetireWrites(s, generationId, writes)))
    && forall w | w in writes :: Inv(mls, device, w) && Grows(s, w)
  }

  /** The first key of an empty device is saved and nothing is published for it. */
  ghost predicate SavedOnly(s: Store, built: Option<Built>, t: Store) {
    s.inventory.None? && s.provider.None? && LegacyCount(s.legacy) == 0 && built.Some? && t == WithSavedKey(s, built.value)
  }

  /** One generate from `s` to `t`, and when `t` is unusable: when `s` was, or when the generate stopped
      right after saving the first key of an empty device. */
  ghost predicate GenerateEnds(mls: OpenMls, device: string, s: Store, requestId: string, built: Option<Built>, t: Store) {
    && GeneratePoint(mls, device, s, requestId, built, t)
    && (LegacyUnusable(mls, device, t) <==> LegacyUnusable(mls, device, s) || SavedOnly(s, built, t))
  }

  lemma SectionEnds(mls: OpenMls, device: string, s: Store, writes: seq<Store>)
    requires SectionWrites(mls, device, s, writes)
    ensures CriticalSection(mls, device, s, EndOfWrites(s, writes))
  {
    hide GeneratePoint, Retires, Inv, Grows;
    if writes == [] {
      assert RetirePoint(s, "", s);
    } else {
      assert writes[|writes| - 1] in writes;
    }
  }

  lemma SettlingKeepsUnusable(mls: OpenMls, device: string, s: Store, t: Store)
    requires Inv(mls, device, s) && SettlePoint(mls, device, s, t)
    ensures LegacyUnusable(mls, device, t) <==> LegacyUnusable(mls, device, s)
    ensures LegacyUnusable(mls, device, s) ==> t == s
    ensures s.provider == t.provider && s.legacy == t.legacy
  {
    hide BundleAgrees, RecordFilesValid;
  }

  lemma AnswerUnusable(mls: OpenMls, device: string, s: Store, requestId: string, built: Option<Built>, t: Store)
    requires Inv(mls, device, s) && !LegacyUnusable(mls, device, s) && AnswerPoint(mls, device, s, requestId, built, t)
    ensures LegacyUnusable(mls, device, t) <==> SavedOnly(s, built, t)
    ensures s.inventory.Some? ==> t.inventory.Some?
  {
    hide RecordFilesValid, LegacyAgrees, IsNextFree, GenerationName, InventoryOk;
    DirectoriesHaveManifests(mls, device, s);
    assert s.provider.None? ==> s.generations == map[];
  }

  lemma NothingIsAPoint(mls: OpenMls, device: string, s: Store, requestId: string, built: Option<Built>)
    ensures GenerateEnds(mls, device, s, requestId, built, s)
  {
    assert SettlePoint(mls, device, s, s);
  }

  /** A generate, however it ends, leaves a store that generate refuses exactly when it found one or
      stopped right after saving the first key of an empty device. */
  lemma UnusableExactlyAfterSave(mls: OpenMls, device: string, s: Store, settled: Store, requestId: string, built: Option<Built>,
                                 t: Store)
    requires Inv(mls, device, s) && Inv(mls, device, settled) && SettlePoint(mls, device, s, settled)
    requires t == settled || (&& Settles(mls, device, s, settled) && !LegacyUnusable(mls, device, s)
                              && AnswerPoint(mls, device, settled, requestId, built, t))
    ensures GenerateEnds(mls, device, s, requestId, built, t)
    ensures LegacyUnusable(mls, device, s) ==> t == s
  {
    hide Inv, LegacyUnusable, AnswerPoint, SettlePoint, FirstGeneration;
    SettlingKeepsUnusable(mls, device, s, settled);
    if t != settled {
      AnswerUnusable(mls, device, settled, requestId, built, t);
    }
  }

  /** Refused for good: no critical section, finished or cut short, changes an unusable store. */
  lemma UnusableForever(mls: OpenMls, device: string, s: Store, t: Store)
    requires Inv(mls, device, s) && LegacyUnusable(mls, device, s) && CriticalSection(mls, device, s, t)
    ensures t == s
  {
    hide LegacyUnusable, Inv, SettlePoint, AnswerPoint, Settles;
    UnusableHasNoInventory(mls, device, s);
    if requestId, built :| GeneratePoint(mls, device, s, requestId, built, t) {
      var settled :| SettlePoint(mls, device, s, settled) && t == settled;
      SettlingKeepsUnusable(mls, device, s, settled);
    }
  }

  lemma UnusableHasNoInventory(mls: OpenMls, device: string, s: Store)
    requires LegacyUnusable(mls, device, s)
    ensures s.inventory.None?
  {
  }

  // ---- Consistency is kept ----

  lemma NewRecordIsValid(mls: OpenMls, device: string, gens: Generations, sequence: nat, requestId: string,
                         built: Built, createdAt: nat, origin: string)
    requires Faithful(mls, built) && sequence >= 1
    ensures var m := NewManifest(mls, device, sequence, requestId, built, createdAt, origin);
            var name := GenerationName(sequence, built.keyPackage.ref);
            Published(mls, device, gens[name := NewEntry(m, built.artifact)], name)
  {
  }

  lemma OtherDirectoriesUntouched(mls: OpenMls, device: string, s: Store, t: Store, name: string)
    requires Grows(s, t) && name in s.generations && Published(mls, device, s.generations, name)
    ensures Published(mls, device, t.generations, name)
    ensures ManifestAt(t.generations, name) == ManifestAt(s.generations, name)
  {
    RecordFilesStayValid(mls, device, s, t, RecordOf(name, ManifestAt(s.generations, name)));
  }

  /** No directory yet has the name of a new generation. */
  lemma NewNameIsFree(mls: OpenMls, device: string, s: Store, sequence: nat, ref: KeyPackageRef)
    requires Inv(mls, device, s)
    requires forall name | name in s.generations :: ManifestAt(s.generations, name).sequence != sequence
    ensures GenerationName(sequence, ref) !in s.generations
  {
    var name := GenerationName(sequence, ref);
    if name in s.generations {
      assert Published(mls, device, s.generations, name);
      var m := ManifestAt(s.generations, name);
      DirectoryNamesNeverCollide(sequence, m.sequence, RefSuffix(ref).value, RefSuffix(m.keyPackageRef).value);
    }
  }

  /** The request and the sequence of no directory. */
  predicate Unused(gens: Generations, sequence: nat, requestId: string)
    requires forall name | name in gens :: HasManifest(gens, name)
  {
    forall name | name in gens ::
      ManifestAt(gens, name).sequence != sequence && ManifestAt(gens, name).requestId != requestId
  }

  lemma DirectoriesHaveManifests(mls: OpenMls, device: string, s: Store)
    requires Inv(mls, device, s)
    ensures forall name | name in s.generations :: HasManifest(s.generations, name)
  {
    forall name | name in s.generations
      ensures HasManifest(s.generations, name)
    {
      assert Published(mls, device, s.generations, name);
    }
  }

  /** A first directory beside a legacy bundle is that bundle's import, under its name. */
  lemma LegacyDirectory(mls: OpenMls, device: string, s: Store)
    requires Inv(mls, device, s) && s.inventory.None? && LegacyCount(s.legacy) == 3 && s.generations != map[]
    ensures var reading := mls.parse(s.legacy.artifact.value);
            && reading.Readable?
            && var name := GenerationName(1, reading.keyPackage.ref);
               && HasManifest(s.generations, name) && ManifestAt(s.generations, name).sequence == 1
               && (forall other | other in s.generations :: other == name)
               && IsLegacyImport(mls, device, s.legacy, ManifestAt(s.generations, name))
  {
    var name :| name in s.generations;
    assert Published(mls, device, s.generations, name);
  }

  lemma DirectoryRecordIsValid(mls: OpenMls, device: string, s: Store, name: string)
    requires Inv(mls, device, s) && name in s.generations
    ensures HasManifest(s.generations, name)
    ensures RecordFilesValid(mls, device, s.generations, RecordOf(name, ManifestAt(s.generations, name)))
  {
    assert Published(mls, device, s.generations, name);
  }

  lemma LegacyIsPublishable(mls: OpenMls, device: string, s: Store, m: Manifest, built: Built)
    requires Inv(mls, device, s) && s.inventory.None? && s.provider.Some? && s.generations == map[]
    requires LegacyAgrees(mls, device, s.legacy)
    requires built == Built(mls.parse(s.legacy.artifact.value).keyPackage, s.legacy.artifact.value)
    requires m == NewManifest(mls, device, 1, LEGACY_REQUEST_ID, built, m.createdAt, "legacy_import")
    ensures Publishable(mls, device, s, m, built)
  {
  }

  lemma StoredInventoryIsValid(mls: OpenMls, device: string, s: Store)
    requires Inv(mls, device, s)
    ensures s.inventory.Some? ==> InventoryValid(mls, device, s.generations, s.inventory.value)
  {
    if s.inventory.Some? {
      InventoryOkIsValid(mls, device, s, s.inventory.value);
    }
  }

  /** Without an inventory, a scan finds nothing or the one first generation. */
  lemma FirstScan(mls: OpenMls, device: string, s: Store, records: seq<Record>)
    requires Inv(mls, device, s) && s.inventory.None? && ScanOf(s.generations, records)
    ensures records == [] <==> s.generations == map[]
    ensures s.provider.None? ==> records == []
    ensures records != [] ==>
              && |records| == 1
              && var r := records[0];
                 && (forall name | name in s.generations :: name == r.manifestPath.directory)
                 && HasManifest(s.generations, r.manifestPath.directory)
                 && r == RecordOf(r.manifestPath.directory, ManifestAt(s.generations, r.manifestPath.directory))
                 && r.sequence == 1 && r.generationId == GenerationId(1)
                 && (LegacyCount(s.legacy) == 0 || LegacyCount(s.legacy) == 3)
                 && (LegacyCount(s.legacy) == 0 ==> r.origin == "generated")
  {
    hide RecordFilesValid;
    DirectoriesHaveManifests(mls, device, s);
    if s.generations != map[] {
      var name :| name in s.generations;
      assert Published(mls, device, s.generations, name);
      assert RecordOf(name, ManifestAt(s.generations, name)) in records;
    }
    if records != [] {
      var r := records[0];
      assert r in records;
      assert Published(mls, device, s.generations, r.manifestPath.directory);
      forall i | 0 <= i < |records|
        ensures records[i] == r
      {
        assert records[i] in records;
      }
      assert |records| <= 1 || records[0].sequence < records[1].sequence;
    }
  }

  lemma FirstInventoryIsOk(mls: OpenMls, device: string, s: Store, name: string)
    requires Inv(mls, device, s) && HasManifest(s.generations, name) && ManifestAt(s.generations, name).sequence == 1
    ensures InventoryOk(device, s.generations, Extend(EmptyInventory(device), RecordOf(name, ManifestAt(s.generations, name))))
  {
    ExtendIsOk(mls, device, s, EmptyInventory(device), name);
  }

  lemma NewestSortsLast(mls: OpenMls, device: string, s: Store, r: Record)
    requires Inv(mls, device, s) && Loaded(device, s).nextSequence <= r.sequence
    ensures var records := Loaded(device, s).generations;
            SortBySequence(records + [r]) == records + [r]
  {
    var records := Loaded(device, s).generations;
    AscendingSnoc(records, r);
    SortOfAscending(records + [r]);
  }

  /** Everything publishing a directory asks for: a complete directory for a sequence and a request
      that no other directory has, its private material stored first, and, before the first
      inventory, nothing published yet. */
  ghost predicate Publishable(mls: OpenMls, device: string, s: Store, m: Manifest, built: Built) {
    && Faithful(mls, built) && m.sequence >= 1
    && m == NewManifest(mls, device, m.sequence, m.requestId, built, m.createdAt, m.origin)
    && s.provider.Some? && built.keyPackage.ref in s.provider.value
    && (forall name | name in s.generations :: HasManifest(s.generations, name))
    && Unused(s.generations, m.sequence, m.requestId)
    && (s.inventory.None? ==>
          && s.generations == map[] && m.sequence == 1
          && if LegacyCount(s.legacy) == 0 then m.origin == "generated" else IsLegacyImport(mls, device, s.legacy, m))
  }

  /** Publishing keeps the store consistent. */
  lemma PublishKeepsInv(mls: OpenMls, device: string, s: Store, m: Manifest, built: Built, name: string, t: Store)
    requires Inv(mls, device, s) && Publishable(mls, device, s, m, built)
    requires name == GenerationName(m.sequence, built.keyPackage.ref)
    requires t == Publish(s, name, m, built.artifact)
    ensures name !in s.generations && Inv(mls, device, t) && Grows(s, t)
    ensures HasManifest(t.generations, name) && ManifestAt(t.generations, name) == m
  {
    hide RecordFilesValid, Published, OneDirectoryEach, PrivateMaterialStored, InventoryOk, IsLegacyImport, LegacyCount;
    NewNameIsFree(mls, device, s, m.sequence, built.keyPackage.ref);
    assert Grows(s, t);
    PublishKeepsDirectories(mls, device, s, t, name, m, built);
    PublishKeepsListed(mls, device, s, t, name, m);
  }

  lemma PublishKeepsListed(mls: OpenMls, device: string, s: Store, t: Store, name: string, m: Manifest)
    requires Listed(mls, device, s) && Grows(s, t)
    requires t == s.(generations := t.generations) && t.generations.Keys == s.generations.Keys + {name}
    requires HasManifest(t.generations, name) && ManifestAt(t.generations, name) == m
    requires s.inventory.None? ==>
               && s.generations == map[] && m.sequence == 1
               && if LegacyCount(s.legacy) == 0 then m.origin == "generated" else IsLegacyImport(mls, device, s.legacy, m)
    ensures Listed(mls, device, t)
  {
    if s.inventory.Some? {
      InventoryStaysOk(mls, device, s, t, s.inventory.value);
    }
  }

  lemma PublishKeepsDirectories(mls: OpenMls, device: string, s: Store, t: Store, name: string, m: Manifest, built: Built)
    requires AllPublished(mls, device, s.generations) && OneDirectoryEach(s.generations)
    requires PrivateMaterialStored(s.generations, s.provider)
    requires Publishable(mls, device, s, m, built)
    requires name == GenerationName(m.sequence, built.keyPackage.ref)
    requires t == Publish(s, name, m, built.artifact) && Grows(s, t) && name !in s.generations
    ensures AllPublished(mls, device, t.generations) && OneDirectoryEach(t.generations)
    ensures PrivateMaterialStored(t.generations, t.provider)
    ensures HasManifest(t.generations, name) && ManifestAt(t.generations, name) == m
  {
    NewRecordIsValid(mls, device, s.generations, m.sequence, m.requestId, built, m.createdAt, m.origin);
    OldDirectoriesUntouched(mls, device, s, t, name);
    OneMoreDirectory(s.generations, t.generations, s.provider, name);
  }

  lemma OneMoreDirectory(gens: Generations, more: Generations, provider: Option<set<string>>, name: string)
    requires (forall n | n in gens :: HasManifest(gens, n)) && (forall n | n in more :: HasManifest(more, n))
    requires OneDirectoryEach(gens) && PrivateMaterialStored(gens, provider)
    requires more.Keys == gens.Keys + {name} && name !in gens
    requires forall n | n in gens :: ManifestAt(more, n) == ManifestAt(gens, n)
    requires Unused(gens, ManifestAt(more, name).sequence, ManifestAt(more, name).requestId)
    requires provider.Some? && ManifestAt(more, name).keyPackageRef in provider.value
    ensures OneDirectoryEach(more) && PrivateMaterialStored(more, provider)
  {
  }

  lemma OldDirectoriesUntouched(mls: OpenMls, device: string, s: Store, t: Store, name: string)
    requires Grows(s, t) && AllPublished(mls, device, s.generations)
    requires forall n | n in t.generations :: n in s.generations || n == name
    requires Published(mls, device, t.generations, name)
    ensures AllPublished(mls, device, t.generations)
    ensures forall n | n in s.generations :: ManifestAt(t.generations, n) == ManifestAt(s.generations, n)
  {
    forall n | n in s.generations
      ensures Published(mls, device, t.generations, n)
      ensures ManifestAt(t.generations, n) == ManifestAt(s.generations, n)
    {
      OtherDirectoriesUntouched(mls, device, s, t, n);
    }
  }

  lemma InventoryStaysOk(mls: OpenMls, device: string, s: Store, t: Store, inv: Inventory)
    requires Grows(s, t) && InventoryOk(device, s.generations, inv)
    ensures InventoryOk(device, t.generations, inv)
  {
    forall i | 0 <= i < |inv.generations|
      ensures Indexed(t.generations, inv.generations[i])
    {
      assert Indexed(s.generations, inv.generations[i]);
      assert inv.generations[i].manifestPath.directory in t.generations;
    }
  }

  /** Writing an inventory keeps the store consistent when it is in order and extends the old one. */
  lemma IndexKeepsInv(mls: OpenMls, device: string, s: Store, inv: Inventory)
    requires Inv(mls, device, s) && InventoryOk(device, s.generations, inv)
    requires s.inventory.Some? ==> InventoryGrows(s.inventory.value, inv)
    ensures Inv(mls, device, s.(inventory := Some(inv)))
    ensures Grows(s, s.(inventory := Some(inv)))
  {
  }

  /** Saving more private material keeps the store consistent. */
  lemma SaveProviderKeepsInv(mls: OpenMls, device: string, s: Store, refs: set<string>)
    requires Inv(mls, device, s)
    requires if s.provider.Some? then s.provider.value <= refs else s.legacy.artifact == None
    ensures Inv(mls, device, s.(provider := Some(refs)))
    ensures Grows(s, s.(provider := Some(refs)))
  {
  }

  /** Listing a published directory that is not below `next_sequence`. */
  lemma ExtendIsOk(mls: OpenMls, device: string, s: Store, inv: Inventory, name: string)
    requires Inv(mls, device, s) && name in s.generations
    requires InventoryOk(device, s.generations, inv) || inv == EmptyInventory(device)
    requires inv.nextSequence <= ManifestAt(s.generations, name).sequence
    ensures var r := RecordOf(name, ManifestAt(s.generations, name));
            InventoryOk(device, s.generations, Extend(inv, r)) && InventoryGrows(inv, Extend(inv, r))
  {
    hide Inv, Ascending;
    DirectoriesHaveManifests(mls, device, s);
    var r := RecordOf(name, ManifestAt(s.generations, name));
    assert Indexed(s.generations, r);
    AscendingSnoc(inv.generations, r);
  }

  lemma AscendingSnoc(records: seq<Record>, r: Record)
    requires Ascending(records)
    requires records == [] || records[|records| - 1].sequence < r.sequence
    ensures Ascending(records + [r])
  {
    forall i | 0 <= i < |records|
      ensures records[i].sequence < r.sequence
    {
      if i < |records| - 1 {
        assert records[i].sequence < records[|records| - 1].sequence;
      }
    }
  }

  lemma RetireIsOk(device: string, s: Store, inv: Inventory, index: nat, at: nat)
    requires InventoryOk(device, s.generations, inv)
    requires index < |inv.generations| - 1 && inv.generations[index].status == "active"
    ensures InventoryOk(device, s.generations, RetireAt(inv, index, at))
    ensures InventoryGrows(inv, RetireAt(inv, index, at))
  {
    var ret := RetireAt(inv, index, at);
    forall i | 0 <= i < |ret.generations|
      ensures Indexed(s.generations, ret.generations[i])
      ensures Unretired(ret.generations[i]) == Unretired(inv.generations[i])
    {
      assert Indexed(s.generations, inv.generations[i]);
    }
  }

  /** A generation with the next free sequence is publishable once its key is stored. */
  lemma NextIsPublishable(mls: OpenMls, device: string, s: Store, m: Manifest, built: Built, refs: set<string>)
    requires Inv(mls, device, s) && Faithful(mls, built)
    requires s.inventory.None? ==> s.generations == map[] && LegacyCount(s.legacy) == 0
    requires forall name :: !Owns(s.generations, name, m.requestId)
    requires IsNextFree(s, Loaded(device, s), m.sequence)
    requires m == NewManifest(mls, device, m.sequence, m.requestId, built, m.createdAt, "generated")
    requires refs == WithKey(s.provider, built.keyPackage.ref)
    ensures Publishable(mls, device, s.(provider := Some(refs)), m, built)
    ensures GenerationName(m.sequence, built.keyPackage.ref) !in s.generations
    ensures if s.provider.Some? then s.provider.value <= refs else s.legacy.artifact == None
  {
    hide RecordFilesValid;
    DirectoriesHaveManifests(mls, device, s);
    forall name | name in s.generations
      ensures ManifestAt(s.generations, name).requestId != m.requestId
    {
      assert !Owns(s.generations, name, m.requestId);
    }
    NewNameIsFree(mls, device, s, m.sequence, built.keyPackage.ref);
  }

  lemma NewRecordIsListed(mls: OpenMls, device: string, s: Store, t: Store, inv: Inventory, name: string)
    requires Inv(mls, device, s) && Inv(mls, device, t) && Grows(s, t)
    requires inv == Loaded(device, s) && t.inventory == s.inventory && name in t.generations
    requires HasManifest(t.generations, name) && inv.nextSequence <= ManifestAt(t.generations, name).sequence
    ensures var r := RecordOf(name, ManifestAt(t.generations, name));
            && InventoryOk(device, t.generations, Extend(inv, r))
            && InventoryGrows(inv, Extend(inv, r))
  {
    ExtendIsOk(mls, device, t, inv, name);
  }

  lemma NextFreeIsNotBelow(s: Store, inv: Inventory, n: nat)
    requires IsNextFree(s, inv, n)
    ensures inv.nextSequence <= n
  {
  }

  /** The directory just published can be listed. */
  lemma PublishedIsListed(mls: OpenMls, device: string, s: Store, t: Store, requestId: string, built: Built, r: Record)
    requires Inv(mls, device, s) && Inv(mls, device, t) && t.inventory == s.inventory
    requires Loaded(device, s).nextSequence <= r.sequence
    requires var m := NewManifest(mls, device, r.sequence, requestId, built, r.createdAt, "generated");
             var name := GenerationName(r.sequence, built.keyPackage.ref);
             r == RecordOf(name, m) && t.generations == s.generations[name := NewEntry(m, built.artifact)]
    ensures InventoryOk(device, t.generations, Extend(Loaded(device, s), r))
    ensures s.inventory.Some? ==> InventoryGrows(s.inventory.value, Extend(Loaded(device, s), r))
  {
    hide RecordFilesValid;
    ExtendIsOk(mls, device, t, Loaded(device, s), GenerationName(r.sequence, built.keyPackage.ref));
  }

  /** The one directory of a request is not stale while it is not below `next_sequence`. */
  lemma NotStale(mls: OpenMls, device: string, s: Store, name: string, requestId: string)
    requires Inv(mls, device, s) && Owns(s.generations, name, requestId)
    requires Loaded(device, s).nextSequence <= ManifestAt(s.generations, name).sequence
    ensures !StaleClaim(s, Loaded(device, s), requestId)
  {
  }

  lemma ListedRecordIsValid(mls: OpenMls, device: string, s: Store, r: Record)
    requires Inv(mls, device, s) && r in Loaded(device, s).generations
    ensures RecordFilesValid(mls, device, s.generations, r)
  {
    hide RecordFilesValid;
    IndexedRecordFilesValid(mls, device, s, r);
  }

  lemma ClaimsStay(s: Store, t: Store, requestId: string)
    requires Grows(s, t)
    ensures Claimed(s, requestId) ==> Claimed(t, requestId)
  {
    if Claimed(s, requestId) {
      var name :| Owns(s.generations, name, requestId);
      assert Owns(t.generations, name, requestId);
    }
  }

  /** A completed generate leaves its record in the inventory; it is a replay for every request that
      owned a directory before, and a new key only for one that did not. */
  lemma GenerateReports(mls: OpenMls, device: string, s: Store, settled: Store, t: Store, requestId: string,
                        built: Option<Built>, result: Generated)
    requires Settles(mls, device, s, settled) && Generates(mls, device, settled, requestId, built, t, result)
    ensures Reports(t, requestId, result.record)
    ensures Claimed(s, requestId) ==> result.idempotentReplay
  {
    var inv := Loaded(device, settled);
    if FindRequest(inv.generations, requestId).None? {
      assert t.inventory.value.generations == inv.generations + [result.record];
    }
    if Claimed(s, requestId) {
      var name :| Owns(s.generations, name, requestId);
      assert Owns(settled.generations, name, requestId);
    }
  }

  /** A stale directory is only ever found where an inventory was already there to overtake it. */
  lemma ConflictMeansOvertaken(mls: OpenMls, device: string, s: Store, settled: Store, requestId: string)
    requires Settles(mls, device, s, settled)
    requires settled.inventory.None? ==> settled.generations == map[]
    requires StaleClaim(settled, Loaded(device, settled), requestId)
    ensures Overtaken(s, requestId)
  {
  }

  /** A generation that is not current is not the last one. */
  lemma RetirableIsNotLast(device: string, s: Store, generationId: string)
    requires s.inventory.Some? && InventoryOk(device, s.generations, s.inventory.value)
    requires RetireRefusal(s, generationId).None?
    ensures FindGeneration(s.inventory.value.generations, generationId).value < |s.inventory.value.generations| - 1
  {
  }

  lemma RetirementIsOk(mls: OpenMls, device: string, s: Store, generationId: string, at: nat)
    requires Inv(mls, device, s) && RetireRefusal(s, generationId).None?
    requires var inv := s.inventory.value;
             inv.generations[FindGeneration(inv.generations, generationId).value].status != "retired"
    ensures var inv := s.inventory.value;
            var k := FindGeneration(inv.generations, generationId).value;
            InventoryOk(device, s.generations, RetireAt(inv, k, at)) && InventoryGrows(inv, RetireAt(inv, k, at))
  {
    hide RecordFilesValid;
    RetirableIsNotLast(device, s, generationId);
    RetireIsOk(device, s, s.inventory.value, FindGeneration(s.inventory.value.generations, generationId).value, at);
  }

  /** An accepted inventory stays accepted however the store grows. */
  lemma InventoryStaysValid(mls: OpenMls, device: string, s: Store, t: Store, inv: Inventory)
    requires Grows(s, t) && InventoryValid(mls, device, s.generations, inv)
    ensures InventoryValid(mls, device, t.generations, inv)
  {
    RecordsStayValid(mls, device, s, t, inv.generations);
  }

  lemma ReportedIsKept(s: Store, requestId: string, r: Record)
    requires Reports(s, requestId, r)
    ensures Kept(s, requestId, r)
  {
  }

  lemma KeptStays(s: Store, t: Store, requestId: string, r: Record)
    requires Grows(s, t) && Kept(s, requestId, r)
    ensures Kept(t, requestId, r)
  {
    var i :| 0 <= i < |s.inventory.value.generations| && Unretired(s.inventory.value.generations[i]) == Unretired(r);
    assert t.inventory.value.generations[i] in t.inventory.value.generations;
  }

  lemma KeptIsClaimed(mls: OpenMls, device: string, s: Store, requestId: string, r: Record)
    requires Inv(mls, device, s) && Kept(s, requestId, r)
    ensures Claimed(s, requestId)
  {
    hide RecordFilesValid;
    var q :| q in s.inventory.value.generations && Unretired(q) == Unretired(r);
    assert Indexed(s.generations, q);
    assert Owns(s.generations, q.manifestPath.directory, requestId);
  }
}
