/** The KeyPackage lifecycle commands of the OpenMLS sidecar, step by step, for one device
    (keypackage_rotation.rs).

    Every step on the disk may fail, and the process may stop after any step. While a process does
    not hold the lifecycle lock, other processes may change the disk between its steps in any way
    that keeps the store consistent and growing. */
module KeyPackageSidecar {
  import opened Outcomes
  import opened GenerationIds
  import opened KeyPackageStore
  import opened KeyPackageLifecycle
  import opened LockedSections
  import opened KeyPackageProcesses

  const LOCK_RETRIES := 500

  datatype TempFile = TornTemp | InventoryTemp(inventory: Inventory) | ProviderTemp(refs: set<string>)

  /** The durable store, and what only its writer looks at: staging directories, temporary files and
      the lock directory. Processes see only whether the lock is free; that its maker has stopped is
      for the operator to find out. */
  datatype Disk = Disk(store: Store, staging: map<string, Files>, temps: map<string, TempFile>, lock: Lock)

  /** Every store a device has been in, in order. */
  ghost predicate History(mls: OpenMls, device: string, trace: seq<Store>) {
    && (forall i | 0 <= i < |trace| :: Inv(mls, device, trace[i]))
    && (forall i, j | 0 <= i <= j < |trace| :: Grows(trace[i], trace[j]))
  }

  lemma HistoryExtends(mls: OpenMls, device: string, trace: seq<Store>, s: Store)
    requires History(mls, device, trace) && trace != []
    requires Inv(mls, device, s) && Grows(trace[|trace| - 1], s)
    ensures History(mls, device, trace + [s])
  {
    forall i | 0 <= i < |trace|
      ensures Grows(trace[i], s)
    {
      GrowsTransitive(trace[i], trace[|trace| - 1], s);
    }
  }

  lemma FileStays(s: Store, t: Store, path: FilePath)
    requires Grows(s, t) && FileAt(s.generations, path).Some?
    ensures FileAt(t.generations, path) == FileAt(s.generations, path)
  {
  }

  lemma StillRefused(mls: OpenMls, device: string, s: Store, t: Store, r: Record)
    requires Grows(s, t)
    ensures !RecordFilesValid(mls, device, t.generations, r) ==> !RecordFilesValid(mls, device, s.generations, r)
  {
    if RecordFilesValid(mls, device, s.generations, r) {
      RecordFilesStayValid(mls, device, s, t, r);
    }
  }

  lemma NotDistinct(records: seq<Record>, k: nat)
    requires k <= |records| && !RecordsDistinct(records[..k])
    ensures !RecordsDistinct(records)
  {
    var i, j :| 0 <= i < j < k && (records[..k][i].generationId == records[..k][j].generationId
                                   || records[..k][i].requestId == records[..k][j].requestId);
    assert records[i] == records[..k][i] && records[j] == records[..k][j];
  }

  lemma NoRecords(records: seq<Record>)
    ensures RecordsDistinct(records[..0]) && IdsOf(records[..0]) == {} && RequestsOf(records[..0]) == {}
  {
  }

  /** What the clock says when a run asks for the time of an import, and of a new key. */
  datatype Clock = Clock(imported: nat, created: nat)

  method UnixNow(now: nat) returns (o: Outcome<nat, ErrorCode>)
    ensures o.Done? ==> o.value == now
    ensures o.Refused? ==> o.error == SystemTimeInvalid
  {
    if * {
      return Done(now);
    } else {
      return Refused(SystemTimeInvalid);
    }
  }

  /** The duplicate check that ends a scan. */
  method RefuseDuplicates(records: seq<Record>) returns (o: Outcome<(), ErrorCode>)
    ensures o.Done? ==> RecordsDistinct(records) && DistinctSequences(records)
    ensures o.Refused? ==> o.error == GenerationStateInvalid && !(RecordsDistinct(records) && DistinctSequences(records))
  {
    var generationIds: set<string>, sequences: set<nat>, requestIds: set<string> := {}, {}, {};
    for k := 0 to |records|
      invariant generationIds == IdsOf(records[..k]) && requestIds == RequestsOf(records[..k])
      invariant sequences == set r | r in records[..k] :: r.sequence
      invariant RecordsDistinct(records[..k]) && DistinctSequences(records[..k])
    {
      assert records[..k + 1] == records[..k] + [records[k]];
      RecordsSnoc(records[..k], records[k]);
      if records[k].generationId in generationIds || records[k].sequence in sequences || records[k].requestId in requestIds {
        if records[k].generationId in generationIds || records[k].requestId in requestIds {
          NotDistinct(records, k + 1);
        }
        return Refused(GenerationStateInvalid);
      }
      generationIds := generationIds + {records[k].generationId};
      sequences := sequences + {records[k].sequence};
      requestIds := requestIds + {records[k].requestId};
    }
    assert records[..|records|] == records;
    return Done(());
  }

  /** One process run. `ClearLock` is the operator removing a lock a stopped process left. */
  datatype Command =
    | Generate(process: Process, requestId: string, built: Option<Built>, clock: Clock)
    | Retire(process: Process, generationId: string, now: nat)
    | Inspect(process: Process)
    | ClearLock

  /** The answers agree with each other and with the store: one request always gets one generation,
      different requests different ones, and only the first answer to a request can report a new key. */
  ghost predicate Consistent(s: Store, commands: seq<Command>, answers: seq<Option<Generated>>)
    requires |answers| <= |commands|
  {
    && (forall k | 0 <= k < |answers| && answers[k].Some? ::
          commands[k].Generate? && Kept(s, commands[k].requestId, answers[k].value.record))
    && (forall i, j | 0 <= i < j < |answers| && answers[i].Some? && answers[j].Some? ::
          Agree(commands[i].requestId, answers[i].value, commands[j].requestId, answers[j].value))
  }

  ghost predicate Agree(requestId: string, earlier: Generated, other: string, later: Generated) {
    if requestId == other then
      Unretired(later.record) == Unretired(earlier.record) && later.idempotentReplay
    else
      later.record.generationId != earlier.record.generationId && later.record.sequence != earlier.record.sequence
  }

  lemma AnswersAgree(mls: OpenMls, device: string, s: Store, requestId: string, earlier: Generated,
                     other: string, later: Generated)
    requires Inv(mls, device, s) && Kept(s, requestId, earlier.record) && Kept(s, other, later.record)
    requires requestId == other ==> later.idempotentReplay
    ensures Agree(requestId, earlier, other, later)
  {
    hide RecordFilesValid;
    var q :| q in s.inventory.value.generations && Unretired(q) == Unretired(earlier.record);
    var r :| r in s.inventory.value.generations && Unretired(r) == Unretired(later.record);
    assert Indexed(s.generations, q) && Indexed(s.generations, r);
    RecordsOfOneDirectory(mls, device, s, q, r);
  }

  lemma AnswersStay(s: Store, t: Store, commands: seq<Command>, answers: seq<Option<Generated>>)
    requires Grows(s, t) && |answers| <= |commands| && Consistent(s, commands, answers)
    ensures Consistent(t, commands, answers)
  {
    forall k | 0 <= k < |answers| && answers[k].Some?
      ensures Kept(t, commands[k].requestId, answers[k].value.record)
    {
      KeptStays(s, t, commands[k].requestId, answers[k].value.record);
    }
  }

  class Sidecar {
    const mls: OpenMls
    const device: string
    /** The processes that run the commands below; of all others only the lock and the consistency of
        their writes is known. */
    const ours: set<Process>
    var disk: Disk
    /** Every store so far, and every event that touched lock or store. */
    ghost var trace: seq<Store>
    ghost var events: seq<Event<Store>>

    ghost predicate Valid()
      reads this
    {
      && trace != [] && trace[|trace| - 1] == disk.store
      && History(mls, device, trace)
    }

    /** The events account for the lock and for every store, and each section of one of ours wrote what
        one lifecycle command writes. Inside a section the events are behind by its writes. */
    ghost predicate Recorded()
      reads this
    {
      && Valid() && Legal(events) && LockAfter(events) == disk.lock
      && trace == [trace[0]] + Stores(events)
      && LifecycleSections(mls, device, trace[0], Sections(events), ours)
    }

    /** None of ours has the lock. */
    ghost predicate Outside()
      reads this
    {
      Recorded() && !(disk.lock.Held? && disk.lock.process in ours)
    }

    /** The device as `identity-create` and possibly `public-bundle-export` left it. */
    constructor (mls: OpenMls, device: string, ours: set<Process>, disk: Disk)
      requires Initial(mls, disk.store) && disk.lock == Free
      ensures Outside() && this.mls == mls && this.device == device && this.ours == ours && this.disk == disk
      ensures trace == [disk.store] && events == []
    {
      this.mls, this.device, this.ours, this.disk, this.trace, this.events := mls, device, ours, disk, [disk.store], [];
    }

    /** The one place where the store changes. */
    method Commit(d: Disk)
      requires Valid() && Inv(mls, device, d.store) && Grows(disk.store, d.store)
      modifies `disk, `trace
      ensures Valid() && disk == d && trace == old(trace) + [d.store]
    {
      HistoryExtends(mls, device, trace, d.store);
      disk := d;
      trace := trace + [d.store];
    }

    /** A change that leaves the store alone. */
    method Scratch(d: Disk)
      requires Valid() && d.store == disk.store
      modifies `disk
      ensures Valid() && disk == d
    {
      disk := d;
    }

    /** A step on the lock, or one that changes nothing. */
    method Note(e: Event<Store>)
      requires Recorded() && Allowed(disk.lock, e) && !e.Wrote?
      modifies `disk, `events
      ensures Valid() && Recorded() && events == old(events) + [e] && disk == old(disk).(lock := Next(old(disk.lock), e))
    {
      hide History, LifecycleSections;
      Snoc(events, e);
      StepKeepsSections(mls, device, trace[0], events, e, ours);
      disk := disk.(lock := Next(disk.lock, e));
      events := events + [e];
    }

    /** Another process that has the lock writes: something consistent and larger, as ours do. */
    method OtherWrites(p: Process, s: Store)
      requires Outside() && disk.lock == Held(p) && Inv(mls, device, s) && Grows(disk.store, s)
      modifies this
      ensures Valid() && Outside() && trace == old(trace) + [s] && events == old(events) + [Wrote(p, s)] && disk.store == s
    {
      hide History, Inv, LifecycleSections;
      Snoc(events, Wrote(p, s));
      StepKeepsSections(mls, device, trace[0], events, Wrote(p, s), ours);
      Commit(disk.(store := s));
      events := events + [Wrote(p, s)];
    }

    /** One step of another process, or of the operator, who removes a lock only when its maker has
        stopped. */
    method OtherStep()
      requires Outside()
      modifies this
      ensures Valid() && Outside() && old(trace) <= trace && Grows(old(disk.store), disk.store)
      ensures OthersActed(old(events), events, ours)
    {
      hide History, Inv, Grows, Recorded;
      GrowsReflexive(disk.store);
      RecordedIsValid();
      var q: Process, d: Disk := *, *;
      if q in ours {
        return;
      }
      match disk.lock
      case Free =>
        Note(Acquired(q));
      case Left =>
        Note(Cleared);
      case Held(p) =>
        if * {
          Note(Released(p));
        } else if * {
          Note(Abandoned(p));
        } else if Inv(mls, device, d.store) && Grows(disk.store, d.store) {
          OtherWrites(p, d.store);
        }
    }

    lemma RecordedIsValid()
      requires Recorded()
      ensures Valid()
    {
    }

    /** Steps of other processes; what they do to staging directories and temporary files is arbitrary. */
    method Interfere()
      requires Outside()
      modifies this
      ensures Valid() && Outside() && old(trace) <= trace && Grows(old(disk.store), disk.store)
      ensures OthersActed(old(events), events, ours)
    {
      hide History, Inv, Grows, Recorded;
      GrowsReflexive(disk.store);
      RecordedIsValid();
      var steps: int := *;
      for k := 0 to if steps < 0 then 0 else steps
        invariant Valid() && Outside() && old(trace) <= trace && Grows(old(disk.store), disk.store)
        invariant OthersActed(old(events), events, ours)
      {
        ghost var s := disk.store;
        OtherStep();
        GrowsTransitive(old(disk.store), s, disk.store);
      }
      OthersStage();
    }

    method OthersStage()
      requires Outside()
      modifies `disk
      ensures Valid() && Outside() && disk.store == old(disk.store)
    {
      hide History, LifecycleSections;
      var d: Disk := *;
      Scratch(disk.(staging := d.staging, temps := d.temps));
    }

    /** A read by the unlocked inventory command. */
    method Peek(p: Process)
      requires Outside()
      modifies `disk, `events
      ensures Outside() && Valid() && disk == old(disk) && OthersActed(old(events), events, ours)
    {
      hide History, LifecycleSections, Legal, Sections, Stores;
      Note(Peeked(p));
    }

    // ---- The lock ----

    method AcquireLock(p: Process) returns (o: Outcome<(), ErrorCode>, ghost entry: seq<Event<Store>>)
      requires Outside() && p in ours
      modifies this
      ensures Valid() && Recorded() && old(trace) <= trace && Grows(old(disk.store), disk.store)
      ensures OthersActed(old(events), entry, ours)
      ensures if o.Done? then disk.lock == Held(p) && events == entry + [Acquired(p)] else Outside() && events == entry
      ensures o.Refused? ==> o.error.Environmental()
    {
      hide History, Inv, Grows, Recorded;
      Interfere();
      entry := events;
      var _ :- Io(KeypackageStateWriteFailed);
      for attempt := 0 to LOCK_RETRIES
        invariant Valid() && Outside() && old(trace) <= trace && Grows(old(disk.store), disk.store)
        invariant OthersActed(old(events), events, ours) && entry == events
      {
        ghost var s := disk.store;
        Interfere();
        GrowsTransitive(old(disk.store), s, disk.store);
        entry := events;
        if disk.lock == Free {
          var _ :- Io(KeypackageLifecycleLockFailed);
          Note(Acquired(p));
          return Done(()), entry;
        }
        Note(Blocked(p));
        entry := events;
      }
      return Refused(KeypackageLifecycleBusy), entry;
    }

    /** Dropping the guard, or stopping with it; a failing removal is ignored and leaves the lock behind. */
    method LeaveSection(p: Process, stopped: bool, ghost entry: seq<Event<Store>>, ghost writes: seq<Store>)
        returns (ghost run: Run)
      requires Valid() && p in ours && disk.lock == Held(p)
      requires events == entry + [Acquired(p)] && Legal(events) && trace == [trace[0]] + Stores(entry) + writes
      requires LifecycleSections(mls, device, trace[0], Sections(entry), ours)
      requires SectionWrites(mls, device, StoreAfter(trace[0], entry), writes)
      modifies `disk, `events
      ensures Valid() && Outside() && disk.store == old(disk.store)
      ensures events == run.Events() && run.entry == entry && run.found == StoreAfter(trace[0], entry)
      ensures run.section.Some? && run.section.value.process == p && run.section.value.writes == writes
      ensures run.section.value.ending.LeftBehind? || (run.section.value.ending.Closed? && !stopped)
    {
      hide History, SectionWrites, LifecycleSections, Events, StoreAfter, Sections, Stores;
      ghost var taken: Event<Store> := Acquired(p);
      Snoc(entry, taken);
      ghost var section := Section(p, writes, LeftBehind);
      disk := disk.(lock := Left);
      if !stopped {
        if * {
          disk := disk.(lock := Free);
          section := Section(p, writes, Closed);
        }
      }
      SectionAppended(entry, section);
      OwnSection(mls, device, trace[0], entry, section, ours);
      run := Run(entry, StoreAfter(trace[0], entry), Some(section));
      events := run.Events();
    }

    // ---- Checks ----

    method ValidateRecordFiles(r: Record, shared: bool) returns (o: Outcome<(), ErrorCode>)
      requires Valid() && (shared ==> Outside())
      modifies `disk, `trace, if shared then {this} else {}
      ensures Valid() && old(trace) <= trace && Grows(old(disk.store), disk.store)
      ensures shared ==> Outside() && OthersActed(old(events), events, ours)
      ensures !shared ==> disk == old(disk) && trace == old(trace)
      ensures o.Done? ==> RecordFilesValid(mls, device, disk.store.generations, r)
      ensures o.Refused? && !o.error.Environmental() ==> !RecordFilesValid(mls, device, old(disk.store.generations), r)
    {
      hide Outside, History, Grows;
      GrowsReflexive(disk.store);
      if FileAt(disk.store.generations, r.artifactPath).None? || FileAt(disk.store.generations, r.manifestPath).None? {
        return Refused(GenerationArtifactMissing);
      }
      ghost var s := disk.store;
      if shared {
        Interfere();
      }
      FileStays(s, disk.store, r.artifactPath);
      FileStays(s, disk.store, r.manifestPath);
      var _ :- Io(KeypackageStateReadFailed);
      var manifest := FileAt(disk.store.generations, r.manifestPath).value;
      if !manifest.ManifestJson? {
        return Refused(KeypackageStateInvalid);
      }
      var suffix := RefSuffix(r.keyPackageRef);
      if suffix.None? {
        return Refused(KeypackageRefInvalid);
      }
      var directory := DirectoryName(r.generationId, suffix.value);
      if r.artifactPath != FilePath(directory, ARTIFACT_FILE) || r.manifestPath != FilePath(directory, MANIFEST_FILE)
        || !ManifestMatches(device, r, manifest.manifest)
      {
        return Refused(GenerationManifestMismatch);
      }
      ghost var t := disk.store;
      if shared {
        Interfere();
      }
      GrowsTransitive(s, t, disk.store);
      FileStays(t, disk.store, r.artifactPath);
      FileStays(t, disk.store, r.manifestPath);
      var _ :- Io(GenerationArtifactReadFailed);
      var artifact := FileAt(disk.store.generations, r.artifactPath).value;
      if !artifact.Artifact? || |artifact.bytes| != r.artifactSize || mls.digest(artifact.bytes) != r.artifactSha256 {
        return Refused(GenerationArtifactMismatch);
      }
      match mls.parse(artifact.bytes)
      case Rejected(code) =>
        return Refused(code);
      case Readable(kp) =>
        if kp.ref != r.keyPackageRef || kp.notBefore != r.notBefore || kp.notAfter != r.notAfter {
          return Refused(GenerationArtifactMismatch);
        }
        return Done(());
    }

    method ValidateRecords(records: seq<Record>, shared: bool) returns (o: Outcome<(), ErrorCode>)
      requires Valid() && (shared ==> Outside())
      modifies `disk, `trace, if shared then {this} else {}
      ensures Valid() && old(trace) <= trace && Grows(old(disk.store), disk.store)
      ensures shared ==> Outside() && OthersActed(old(events), events, ours)
      ensures !shared ==> disk == old(disk) && trace == old(trace)
      ensures o.Done? ==> RecordsDistinct(records) && RecordsValid(mls, device, disk.store.generations, records)
      ensures o.Refused? && !o.error.Environmental() ==>
                !RecordsDistinct(records) || !RecordsValid(mls, device, old(disk.store.generations), records)
    {
      hide History, Outside, RecordFilesValid, Grows, IdsOf, RequestsOf, RecordsDistinct;
      assert RecordsDistinct(records[..0]) && IdsOf(records[..0]) == {} && RequestsOf(records[..0]) == {} by { NoRecords(records); }
      GrowsReflexive(disk.store);
      var seenGeneration: set<string>, seenRequest: set<string> := {}, {};
      ghost var start := disk.store;
      for k := 0 to |records|
        invariant Valid() && old(trace) <= trace && Grows(start, disk.store)
        invariant shared ==> Outside() && OthersActed(old(events), events, ours)
        invariant !shared ==> disk == old(disk) && trace == old(trace)
        invariant seenGeneration == IdsOf(records[..k]) && seenRequest == RequestsOf(records[..k])
        invariant RecordsDistinct(records[..k])
        invariant RecordsValid(mls, device, disk.store.generations, records[..k])
      {
        assert records[..k + 1] == records[..k] + [records[k]];
        RecordsSnoc(records[..k], records[k]);
        if records[k].generationId in seenGeneration || records[k].requestId in seenRequest {
          NotDistinct(records, k + 1);
          return Refused(KeypackageInventoryInvalid);
        }
        seenGeneration := seenGeneration + {records[k].generationId};
        seenRequest := seenRequest + {records[k].requestId};
        if records[k].status != "active" && records[k].status != "retired" {
          return Refused(KeypackageInventoryInvalid);
        }
        ghost var s := disk.store;
        var checked := ValidateRecordFiles(records[k], shared);
        GrowsTransitive(start, s, disk.store);
        if !checked.Done? {
          StillRefused(mls, device, start, s, records[k]);
          return checked;
        }
        RecordsStayValid(mls, device, s, disk.store, records[..k]);
      }
      assert records[..|records|] == records;
      return Done(());
    }

    method ValidateInventory(inv: Inventory, shared: bool) returns (o: Outcome<(), ErrorCode>)
      requires Valid() && (shared ==> Outside())
      modifies `disk, `trace, if shared then {this} else {}
      ensures Valid() && old(trace) <= trace && Grows(old(disk.store), disk.store)
      ensures shared ==> Outside() && OthersActed(old(events), events, ours)
      ensures !shared ==> disk == old(disk) && trace == old(trace)
      ensures o.Done? ==> InventoryValid(mls, device, disk.store.generations, inv)
      ensures o.Refused? && !o.error.Environmental() ==> !InventoryValid(mls, device, old(disk.store.generations), inv)
    {
      hide History, RecordsValid, RecordsDistinct, Grows;
      GrowsReflexive(disk.store);
      if inv.schemaVersion != INVENTORY_SCHEMA || inv.deviceLabel != device {
        return Refused(KeypackageInventoryInvalid);
      }
      var _ :- ValidateRecords(inv.generations, shared);
      if inv.current.Some? {
        CurrentLookup(inv);
        var found := FindGeneration(inv.generations, inv.current.value);
        if found.None? || inv.generations[found.value].status != "active" {
          return Refused(KeypackageInventoryInvalid);
        }
      } else if inv.generations != [] {
        return Refused(KeypackageInventoryInvalid);
      }
      return Done(());
    }

    // ---- Writes ----

    /** Creates, writes and syncs one file of a staging directory; a failure may leave it torn. */
    method WriteStaged(staging: string, file: string, content: File) returns (o: Outcome<(), ErrorCode>)
      requires Valid() && staging in disk.staging
      modifies `disk, `trace
      ensures Valid() && trace == old(trace)
      ensures disk == old(disk).(staging := disk.staging) && staging in disk.staging
      ensures o.Done? ==> disk.staging == old(disk).staging[staging := old(disk).staging[staging][file := content]]
      ensures o.Refused? ==> o.error == KeypackageStateWriteFailed
    {
      hide History;
      var files := disk.staging[staging];
      var _ :- Io(KeypackageStateWriteFailed);
      Scratch(disk.(staging := disk.staging[staging := files[file := Torn]]));
      var _ :- Io(KeypackageStateWriteFailed);
      Scratch(disk.(staging := disk.staging[staging := files[file := content]]));
      var _ :- Io(KeypackageStateWriteFailed);
      return Done(());
    }

    method CreateStaging(staging: string, code: ErrorCode) returns (o: Outcome<(), ErrorCode>)
      requires Valid()
      modifies `disk, `trace
      ensures Valid() && trace == old(trace)
      ensures disk == old(disk).(staging := disk.staging)
      ensures o.Done? ==> staging in disk.staging && disk.staging[staging] == map[]
      ensures o.Refused? ==> o.error == code
    {
      hide History;
      if staging in disk.staging {
        return Refused(code);
      }
      var _ :- Io(code);
      Scratch(disk.(staging := disk.staging[staging := map[]]));
      return Done(());
    }

    /** `let _ = remove_dir_all(..)`: errors are ignored, but the process may stop here. */
    method DiscardStaging(staging: string) returns (o: Outcome<(), ErrorCode>)
      requires Valid()
      modifies `disk, `trace
      ensures Valid() && trace == old(trace) && !o.Refused?
      ensures disk == old(disk).(staging := disk.staging)
    {
      hide History;
      if * {
        Scratch(disk.(staging := disk.staging - {staging}));
      }
      if * {
        return Crashed;
      }
      return Done(());
    }

    /** Fills a staging directory with the artifact and its manifest. */
    method FillStaging(staging: string, m: Manifest, artifact: Bytes) returns (o: Outcome<(), ErrorCode>)
      requires Valid() && staging in disk.staging && disk.staging[staging] == map[]
      modifies `disk, `trace
      ensures Valid() && trace == old(trace)
      ensures disk == old(disk).(staging := disk.staging)
      ensures o.Done? ==> staging in disk.staging && Directory(disk.staging[staging]) == NewEntry(m, artifact)
      ensures o.Refused? ==> o.error == KeypackageStateWriteFailed
    {
      hide History;
      var _ :- WriteStaged(staging, ARTIFACT_FILE, Artifact(artifact));
      var _ :- WriteStaged(staging, MANIFEST_FILE, ManifestJson(m));
      return Done(());
    }

    /** Renames a filled staging directory to its published name. */
    method PublishStaging(staging: string, m: Manifest, built: Built, name: string, code: ErrorCode)
        returns (o: Outcome<(), ErrorCode>)
      requires Valid() && staging in disk.staging && Directory(disk.staging[staging]) == NewEntry(m, built.artifact)
      requires Publishable(mls, device, disk.store, m, built)
      requires name == GenerationName(m.sequence, built.keyPackage.ref)
      modifies `disk, `trace
      ensures Valid() && old(trace) <= trace
      ensures disk == old(disk).(staging := disk.staging, store := disk.store)
      ensures || (trace == old(trace) && disk.store == old(disk.store))
              || (trace == old(trace) + [disk.store] && disk.store == Publish(old(disk.store), name, m, built.artifact))
      ensures o.Done? ==> disk.store == Publish(old(disk.store), name, m, built.artifact) && staging !in disk.staging
      ensures o.Refused? ==> o.error == code && disk.store == old(disk.store)
    {
      hide History, Publishable, Inv, Grows;
      var _ :- Io(code);
      ghost var t := Publish(disk.store, name, m, built.artifact);
      assert Inv(mls, device, disk.store) by {
        StoreIsConsistent();
      }
      PublishKeepsInv(mls, device, disk.store, m, built, name, t);
      Commit(disk.(staging := disk.staging - {staging},
                   store := disk.store.(generations := disk.store.generations[name := Directory(disk.staging[staging])])));
      if * {
        return Crashed;
      }
      return Done(());
    }

    lemma StoreIsConsistent()
      requires Valid()
      ensures Inv(mls, device, disk.store)
    {
    }

    /** Writes a temporary file and renames it over the provider storage. */
    method SaveProviderAtomic(refs: set<string>) returns (o: Outcome<(), ErrorCode>)
      requires Valid()
      requires if disk.store.provider.Some? then disk.store.provider.value <= refs else disk.store.legacy.artifact == None
      modifies `disk, `trace
      ensures Valid() && old(trace) <= trace
      ensures disk == old(disk).(temps := disk.temps, store := disk.store)
      ensures || (trace == old(trace) && disk.store == old(disk.store))
              || (trace == old(trace) + [disk.store] && disk.store == old(disk.store).(provider := Some(refs)))
      ensures o.Done? ==> disk.store == old(disk.store).(provider := Some(refs)) && disk.temps.Keys <= old(disk.temps.Keys)
      ensures o.Refused? ==> o.error.Environmental() && disk.store == old(disk.store)
    {
      hide History, Inv, Grows;
      var temp: string := *;
      if * {
        return Refused(SystemTimeInvalid);
      }
      var _ :- Io(ProviderStorageWriteFailed);
      Scratch(disk.(temps := disk.temps[temp := TornTemp]));
      var _ :- Io(ProviderStorageWriteFailed);
      Scratch(disk.(temps := disk.temps[temp := ProviderTemp(refs)]));
      var renamed := Io(ProviderStorageWriteFailed);
      if renamed.Refused? {
        Scratch(disk.(temps := disk.temps - {temp}));
      }
      var _ :- renamed;
      StoreIsConsistent();
      SaveProviderKeepsInv(mls, device, disk.store, refs);
      Commit(disk.(temps := disk.temps - {temp}, store := disk.store.(provider := Some(disk.temps[temp].refs))));
      if * {
        return Crashed;
      }
      return Done(());
    }

    /** Checks an inventory, writes it to a temporary file and renames it over the old one. */
    method WriteInventoryAtomic(inv: Inventory) returns (o: Outcome<(), ErrorCode>)
      requires Valid()
      requires InventoryOk(device, disk.store.generations, inv)
      requires disk.store.inventory.Some? ==> InventoryGrows(disk.store.inventory.value, inv)
      modifies `disk, `trace
      ensures Valid() && old(trace) <= trace
      ensures disk == old(disk).(temps := disk.temps, store := disk.store)
      ensures || (trace == old(trace) && disk.store == old(disk.store))
              || (trace == old(trace) + [disk.store] && disk.store == old(disk.store).(inventory := Some(inv)))
      ensures o.Done? ==> disk.store == old(disk.store).(inventory := Some(inv)) && disk.temps.Keys <= old(disk.temps.Keys)
      ensures o.Refused? ==> o.error.Environmental() && disk.store == old(disk.store)
    {
      hide History, Inv, Grows, InventoryOk, InventoryValid, InventoryGrows;
      StoreIsConsistent();
      InventoryOkIsValid(mls, device, disk.store, inv);
      var _ :- ValidateInventory(inv, false);
      var temp: string := *;
      if * {
        return Refused(SystemTimeInvalid);
      }
      var _ :- Io(KeypackageInventoryWriteFailed);
      Scratch(disk.(temps := disk.temps[temp := TornTemp]));
      var _ :- Io(KeypackageStateWriteFailed);
      Scratch(disk.(temps := disk.temps[temp := InventoryTemp(inv)]));
      var _ :- Io(KeypackageStateWriteFailed);
      var renamed := Io(KeypackageInventoryWriteFailed);
      if renamed.Refused? {
        Scratch(disk.(temps := disk.temps - {temp}));
      }
      var _ :- renamed;
      IndexKeepsInv(mls, device, disk.store, inv);
      Commit(disk.(temps := disk.temps - {temp}, store := disk.store.(inventory := Some(disk.temps[temp].inventory))));
      if * {
        return Crashed;
      }
      return Done(());
    }

    // ---- Reading the generation directories ----

    method ReadManifest(name: string) returns (o: Outcome<Manifest, ErrorCode>)
      requires name in disk.store.generations && disk.store.generations[name].Directory?
      requires MANIFEST_FILE in disk.store.generations[name].files
      ensures o.Done? ==> HasManifest(disk.store.generations, name) && o.value == ManifestAt(disk.store.generations, name)
      ensures o.Refused? && !o.error.Environmental() ==> !HasManifest(disk.store.generations, name)
    {
      var _ :- Io(KeypackageStateReadFailed);
      var file := disk.store.generations[name].files[MANIFEST_FILE];
      if !file.ManifestJson? {
        return Refused(KeypackageStateInvalid);
      }
      return Done(file.manifest);
    }

    /** One directory of a scan. */
    method ReadGeneration(name: string) returns (o: Outcome<Record, ErrorCode>)
      requires Valid() && name in disk.store.generations
      modifies `disk, `trace
      ensures Valid() && disk == old(disk) && trace == old(trace)
      ensures o.Done? ==> HasManifest(disk.store.generations, name)
                          && o.value == RecordOf(name, ManifestAt(disk.store.generations, name))
      ensures o.Refused? ==> o.error.Environmental()
    {
      hide History, RecordFilesValid, Listed, LegacyBacked, Grows, OneDirectoryEach, PrivateMaterialStored;
      StoreIsConsistent();
      var gens := disk.store.generations;
      assert Published(mls, device, gens, name);
      var _ :- Io(GenerationScanFailed);
      if !gens[name].Directory? {
        return Refused(GenerationStateInvalid);
      }
      if MANIFEST_FILE !in gens[name].files {
        return Refused(GenerationManifestMissing);
      }
      var m :- ReadManifest(name);
      var _ :- ValidateRecordFiles(RecordOf(name, m), false);
      return Done(RecordOf(name, m));
    }

    /** `scan_generation_records`: in an arbitrary directory order, with the result sorted. */
    method ScanGenerationRecords() returns (o: Outcome<seq<Record>, ErrorCode>)
      requires Valid()
      modifies `disk, `trace
      ensures Valid() && disk == old(disk) && trace == old(trace)
      ensures o.Done? ==> ScanOf(disk.store.generations, o.value)
      ensures o.Refused? ==> o.error.Environmental()
    {
      hide History, Published, Listed, LegacyBacked, Grows, PrivateMaterialStored;
      StoreIsConsistent();
      var gens := disk.store.generations;
      var records: seq<Record> := [];
      var todo := gens.Keys;
      var _ :- Io(GenerationScanFailed);
      while todo != {}
        invariant Valid() && disk == old(disk) && trace == old(trace)
        invariant todo <= gens.Keys
        invariant forall r | r in records ::
                    && r.manifestPath.directory in gens.Keys - todo
                    && HasManifest(gens, r.manifestPath.directory)
                    && r == RecordOf(r.manifestPath.directory, ManifestAt(gens, r.manifestPath.directory))
        invariant forall name | name in gens.Keys - todo ::
                    HasManifest(gens, name) && RecordOf(name, ManifestAt(gens, name)) in records
        invariant DistinctSequences(records)
        decreases |todo|
      {
        var name :| name in todo;
        todo := todo - {name};
        var record :- ReadGeneration(name);
        records := records + [record];
      }
      SortOrders(records);
      records := SortBySequence(records);
      ScanDistinct(mls, device, disk.store, records);
      var _ :- RefuseDuplicates(records);
      return Done(records);
    }

    /** `recover_request_from_generation_dirs`: the updated inventory is returned beside the record. */
    method RecoverRequest(requestId: string, inv: Inventory)
        returns (o: Outcome<Option<Record>, ErrorCode>, updated: Inventory)
      requires Valid() && inv == Loaded(device, disk.store)
      modifies `disk, `trace
      ensures Valid() && disk == old(disk) && trace == old(trace)
      ensures o.Done? && FindRequest(inv.generations, requestId).None? ==>
                match o.value
                case None => updated == inv && forall name :: !Owns(disk.store.generations, name, requestId)
                case Some(r) =>
                  && r.manifestPath.directory in disk.store.generations
                  && Owns(disk.store.generations, r.manifestPath.directory, requestId)
                  && r == RecordOf(r.manifestPath.directory, ManifestAt(disk.store.generations, r.manifestPath.directory))
                  && inv.nextSequence <= r.sequence && updated == Extend(inv, r)
      ensures o.Refused? && !o.error.Environmental() ==>
                o.error == GenerationRecoveryConflict && StaleClaim(disk.store, inv, requestId)
    {
      hide History, Inv, Ascending, SortBySequence;
      StoreIsConsistent();
      updated := inv;
      var records :- ScanGenerationRecords();
      for k := 0 to |records|
        invariant Valid() && disk == old(disk) && trace == old(trace) && updated == inv
        invariant forall i | 0 <= i < k :: records[i].requestId != requestId
      {
        var record := records[k];
        assert record in records;
        if record.requestId != requestId {
          continue;
        }
        if FindRequest(inv.generations, requestId).Some? {
          return Done(None), inv;
        }
        if record.sequence < inv.nextSequence {
          return Refused(GenerationRecoveryConflict), inv;
        }
        NewestSortsLast(mls, device, disk.store, record);
        updated := updated.(nextSequence := if inv.nextSequence <= record.sequence + 1 then record.sequence + 1 else inv.nextSequence);
        updated := updated.(current := Some(record.generationId));
        updated := updated.(generations := SortBySequence(inv.generations + [record]));
        return Done(Some(record)), updated;
      }
      return Done(None), inv;
    }

    method NextAvailableSequence(inv: Inventory) returns (o: Outcome<nat, ErrorCode>)
      requires Valid() && inv == Loaded(device, disk.store)
      ensures o.Done? ==> IsNextFree(disk.store, inv, o.value)
      ensures o.Refused? ==> o.error.Environmental()
    {
      hide History, Published, LegacyBacked, Grows, PrivateMaterialStored, OneDirectoryEach, Indexed;
      StoreIsConsistent();
      DirectoriesHaveManifests(mls, device, disk.store);
      var gens := disk.store.generations;
      var maximum := 0;
      for k := 0 to |inv.generations|
        invariant maximum < inv.nextSequence
      {
        if k < |inv.generations| - 1 {
          assert inv.generations[k].sequence < inv.generations[|inv.generations| - 1].sequence;
        }
        if maximum < inv.generations[k].sequence {
          maximum := inv.generations[k].sequence;
        }
      }
      var todo := gens.Keys;
      var _ :- Io(GenerationScanFailed);
      while todo != {}
        invariant todo <= gens.Keys
        invariant forall name | name in gens.Keys - todo && HasManifest(gens, name) :: ManifestAt(gens, name).sequence <= maximum
        invariant maximum < inv.nextSequence
                  || exists name :: HasManifest(gens, name) && ManifestAt(gens, name).sequence == maximum
        decreases |todo|
      {
        var name :| name in todo;
        todo := todo - {name};
        var _ :- Io(GenerationScanFailed);
        if gens[name].Directory? && MANIFEST_FILE in gens[name].files {
          var m :- ReadManifest(name);
          if maximum < m.sequence {
            maximum := m.sequence;
          }
        }
      }
      return Done(if inv.nextSequence <= maximum + 1 then maximum + 1 else inv.nextSequence);
    }

    // ---- First use ----

    /** Imports the legacy public bundle as the first generation, or finds it imported already. */
    method AdoptLegacy(importedAt: nat) returns (o: Outcome<Record, ErrorCode>)
      requires Valid() && disk.store.inventory.None? && disk.store.provider.Some? && LegacyCount(disk.store.legacy) == 3
      modifies `disk, `trace
      ensures Valid() && old(trace) <= trace
      ensures disk == old(disk).(staging := disk.staging, store := old(disk.store).(generations := disk.store.generations))
      ensures old(disk.store.generations) != map[] ==> disk.store.generations == old(disk.store.generations)
      ensures o.Done? ==> FirstGeneration(mls, device, old(disk.store), disk.store.generations, o.value.manifestPath.directory)
                          && o.value == RecordOf(o.value.manifestPath.directory,
                                                 ManifestAt(disk.store.generations, o.value.manifestPath.directory))
      ensures o.Done? && old(disk.store.generations) == map[] ==> o.value.createdAt == importedAt
      ensures !LegacyAgrees(mls, device, old(disk.store.legacy)) ==> disk.store == old(disk.store)
      ensures !LegacyAgrees(mls, device, old(disk.store.legacy)) ==> !o.Done?
      ensures o.Refused? && !o.error.Environmental() ==>
                !LegacyAgrees(mls, device, old(disk.store.legacy)) && o.error == LegacyCode(mls, old(disk.store))
      ensures || (trace == old(trace) && disk.store == old(disk.store))
              || (trace == old(trace) + [disk.store]
                  && exists name :: FirstGeneration(mls, device, old(disk.store), disk.store.generations, name))
    {
      hide History, Inv, Grows, Publishable, RecordFilesValid;
      StoreIsConsistent();
      var legacy := disk.store.legacy;
      var _ :- Io(LegacyArtifactReadFailed);
      var artifact := legacy.artifact.value;
      var reading := mls.parse(artifact);
      if reading.Rejected? {
        return Refused(reading.code);
      }
      var kp := reading.keyPackage;
      var _ :- ReadBundleDoc(legacy.summary.value);
      var _ :- ReadBundleDoc(legacy.manifest.value);
      if !BundleAgrees(mls, device, artifact, kp, legacy.summary.value)
        || !BundleAgrees(mls, device, artifact, kp, legacy.manifest.value)
      {
        return Refused(IncompleteLegacyKeypackageState);
      }
      var name := GenerationName(1, kp.ref);
      var createdAt :- UnixNow(importedAt);
      if name in disk.store.generations {
        o := ReuseImport(name);
      } else {
        o := PublishImport(Built(kp, artifact), name, createdAt);
      }
    }

    method ReadBundleDoc(doc: BundleDoc) returns (o: Outcome<(), ErrorCode>)
      ensures o.Done? ==> !doc.TornDoc?
      ensures o.Refused? && !o.error.Environmental() ==> doc.TornDoc? && o.error == KeypackageStateInvalid
    {
      var _ :- Io(KeypackageStateReadFailed);
      if doc.TornDoc? {
        return Refused(KeypackageStateInvalid);
      }
      return Done(());
    }

    method ReuseImport(name: string) returns (o: Outcome<Record, ErrorCode>)
      requires Valid() && disk.store.inventory.None? && LegacyCount(disk.store.legacy) == 3
      requires name in disk.store.generations
      modifies `disk, `trace
      ensures Valid() && trace == old(trace) && disk == old(disk)
      ensures o.Done? ==> FirstGeneration(mls, device, disk.store, disk.store.generations, name)
                          && o.value == RecordOf(name, ManifestAt(disk.store.generations, name))
      ensures o.Refused? ==> o.error.Environmental()
    {
      hide History, Inv, Grows, RecordFilesValid;
      StoreIsConsistent();
      LegacyDirectory(mls, device, disk.store);
      DirectoryRecordIsValid(mls, device, disk.store, name);
      var m :- ReadManifest(name);
      if m.requestId != LEGACY_REQUEST_ID || m.origin != "legacy_import" {
        return Refused(LegacyImportConflict);
      }
      var record := RecordOf(name, m);
      var _ :- ValidateRecordFiles(record, false);
      return Done(record);
    }

    method PublishImport(built: Built, name: string, createdAt: nat) returns (o: Outcome<Record, ErrorCode>)
      requires Valid() && disk.store.inventory.None? && disk.store.provider.Some?
      requires LegacyAgrees(mls, device, disk.store.legacy)
      requires built == Built(mls.parse(disk.store.legacy.artifact.value).keyPackage, disk.store.legacy.artifact.value)
      requires name == GenerationName(1, built.keyPackage.ref) && name !in disk.store.generations
      modifies `disk, `trace
      ensures Valid() && old(trace) <= trace
      ensures disk == old(disk).(staging := disk.staging, store := old(disk.store).(generations := disk.store.generations))
      ensures old(disk.store.generations) == map[]
      ensures o.Done? ==> FirstGeneration(mls, device, old(disk.store), disk.store.generations, name)
                          && o.value == RecordOf(name, ManifestAt(disk.store.generations, name))
      ensures o.Done? ==> o.value.createdAt == createdAt
      ensures o.Refused? ==> o.error.Environmental()
      ensures || (trace == old(trace) && disk.store == old(disk.store))
              || (trace == old(trace) + [disk.store] && FirstGeneration(mls, device, old(disk.store), disk.store.generations, name))
    {
      hide History, Inv, Grows, Publishable, RecordFilesValid;
      StoreIsConsistent();
      if disk.store.generations != map[] {
        LegacyDirectory(mls, device, disk.store);
      }
      var m := NewManifest(mls, device, 1, LEGACY_REQUEST_ID, built, createdAt, "legacy_import");
      LegacyIsPublishable(mls, device, disk.store, m, built);
      var token: string := *;
      var staging := ".staging-" + LEGACY_REQUEST_ID + "-" + token;
      var _ :- CreateStaging(staging, LegacyImportFailed);
      var imported := ImportLegacy(staging, m, built, name);
      if imported.Refused? && staging in disk.staging {
        var _ :- DiscardStaging(staging);
      }
      var _ :- imported;
      var record := RecordOf(name, m);
      StoreIsConsistent();
      DirectoryRecordIsValid(mls, device, disk.store, name);
      var _ :- ValidateRecordFiles(record, false);
      return Done(record);
    }

    /** The fallible part of an import; the caller removes the staging directory when it fails. */
    method ImportLegacy(staging: string, m: Manifest, built: Built, name: string) returns (o: Outcome<(), ErrorCode>)
      requires Valid() && staging in disk.staging && disk.staging[staging] == map[]
      requires Publishable(mls, device, disk.store, m, built) && name == GenerationName(m.sequence, built.keyPackage.ref)
      modifies `disk, `trace
      ensures Valid() && old(trace) <= trace
      ensures disk == old(disk).(staging := disk.staging, store := disk.store)
      ensures || (trace == old(trace) && disk.store == old(disk.store))
              || (trace == old(trace) + [disk.store] && disk.store == Publish(old(disk.store), name, m, built.artifact))
      ensures o.Done? ==> disk.store == Publish(old(disk.store), name, m, built.artifact)
      ensures o.Refused? ==> o.error.Environmental() && disk.store == old(disk.store)
    {
      hide History, Publishable;
      var _ :- FillStaging(staging, m, built.artifact);
      o := PublishStaging(staging, m, built, name, LegacyImportFailed);
    }

    method LoadOrInitializeInventory(importedAt: nat) returns (o: Outcome<Inventory, ErrorCode>)
      requires Valid()
      modifies `disk, `trace
      ensures Valid() && old(trace) <= trace && disk.lock == old(disk.lock)
      ensures forall i :: |old(trace)| <= i < |trace| ==> SettlePoint(mls, device, old(disk.store), trace[i])
      ensures disk.store.provider == old(disk.store.provider) && disk.store.legacy == old(disk.store.legacy)
      ensures old(disk.store.generations) != map[] ==> disk.store.generations == old(disk.store.generations)
      ensures old(disk.store.inventory).Some? ==> disk.store == old(disk.store)
      ensures o.Done? ==> Settles(mls, device, old(disk.store), disk.store) && o.value == Loaded(device, disk.store)
                          && (disk.store.inventory.None? ==> disk.store.generations == map[] && LegacyCount(disk.store.legacy) == 0)
      ensures LegacyUnusable(mls, device, old(disk.store)) ==> disk.store == old(disk.store)
      ensures LegacyUnusable(mls, device, old(disk.store)) ==> !o.Done?
      ensures o.Refused? && !o.error.Environmental() ==>
                LegacyUnusable(mls, device, old(disk.store)) && o.error == LegacyCode(mls, old(disk.store))
      ensures SettlePoint(mls, device, old(disk.store), disk.store)
    {
      hide History, Inv, Grows, RecordFilesValid, InventoryValid, InventoryOk, IsLegacyImport, ScanOf, LegacyAgrees, NewManifest, Publish;
      StoreIsConsistent();
      StoredInventoryIsValid(mls, device, disk.store);
      if disk.store.inventory.Some? {
        var _ :- Io(KeypackageStateReadFailed);
        var inventory := disk.store.inventory.value;
        var _ :- ValidateInventory(inventory, false);
        return Done(inventory);
      }
      var providerExists := disk.store.provider.Some?;
      var legacyCount := LegacyCount(disk.store.legacy);
      var records :- ScanGenerationRecords();
      FirstScan(mls, device, disk.store, records);
      if !providerExists && records != [] {
        return Refused(IncompleteKeypackageState);
      }
      if providerExists && legacyCount == 0 && records != [] {
        if |records| != 1 {
          return Refused(KeypackageInventoryRecoveryAmbiguous);
        }
        var record := records[0];
        if record.sequence != 1 || record.generationId != GenerationId(1) || record.origin != "generated" {
          return Refused(KeypackageInventoryRecoveryAmbiguous);
        }
        var inventory := Inventory(INVENTORY_SCHEMA, device, 2, Some(record.generationId), [record]);
        FirstInventoryIsOk(mls, device, disk.store, record.manifestPath.directory);
        assert inventory == Extend(EmptyInventory(device), record);
        var _ :- WriteInventoryAtomic(inventory);
        return Done(inventory);
      }
      if providerExists && legacyCount != 3 {
        return Refused(IncompleteLegacyKeypackageState);
      }
      if !providerExists && legacyCount != 0 {
        return Refused(IncompleteLegacyKeypackageState);
      }
      var inventory := EmptyInventory(device);
      if providerExists {
        inventory :- AdoptFirst(inventory, importedAt);
      }
      return Done(inventory);
    }

    /** Adopts the legacy bundle as the first generation and writes the inventory that lists it. */
    method AdoptFirst(empty: Inventory, importedAt: nat) returns (o: Outcome<Inventory, ErrorCode>)
      requires Valid() && disk.store.inventory.None? && disk.store.provider.Some? && LegacyCount(disk.store.legacy) == 3
      requires empty == EmptyInventory(device)
      modifies `disk, `trace
      ensures Valid() && old(trace) <= trace && disk.lock == old(disk.lock)
      ensures forall i :: |old(trace)| <= i < |trace| ==> SettlePoint(mls, device, old(disk.store), trace[i])
      ensures disk.store.provider == old(disk.store.provider) && disk.store.legacy == old(disk.store.legacy)
      ensures old(disk.store.generations) != map[] ==> disk.store.generations == old(disk.store.generations)
      ensures o.Done? ==> Settles(mls, device, old(disk.store), disk.store) && disk.store.inventory == Some(o.value)
      ensures LegacyUnusable(mls, device, old(disk.store)) ==> disk.store == old(disk.store) && !o.Done?
      ensures o.Refused? && !o.error.Environmental() ==>
                LegacyUnusable(mls, device, old(disk.store)) && o.error == LegacyCode(mls, old(disk.store))
      ensures SettlePoint(mls, device, old(disk.store), disk.store)
    {
      hide History, Inv, Grows, RecordFilesValid, InventoryValid, InventoryOk, IsLegacyImport, ScanOf, LegacyAgrees, NewManifest, Publish;
      var record :- AdoptLegacy(importedAt);
      var inventory := empty.(nextSequence := 2, current := Some(record.generationId));
      inventory := inventory.(generations := inventory.generations + [record]);
      StoreIsConsistent();
      FirstInventoryIsOk(mls, device, disk.store, record.manifestPath.directory);
      assert inventory == Extend(EmptyInventory(device), record);
      var _ :- WriteInventoryAtomic(inventory);
      return Done(inventory);
    }

    // ---- keypackage-generate ----

    /** Persists the new private material, then publishes the staged directory. */
    method MaterializeGeneration(staging: string, m: Manifest, built: Built, refs: set<string>, name: string)
        returns (o: Outcome<(), ErrorCode>)
      requires Valid() && staging in disk.staging && disk.staging[staging] == map[]
      requires if disk.store.provider.Some? then disk.store.provider.value <= refs else disk.store.legacy.artifact == None
      requires Publishable(mls, device, disk.store.(provider := Some(refs)), m, built)
      requires name == GenerationName(m.sequence, built.keyPackage.ref)
      modifies `disk, `trace
      ensures Valid() && old(trace) <= trace && disk.lock == old(disk.lock)
      ensures var saved := old(disk.store).(provider := Some(refs));
              forall i :: |old(trace)| <= i < |trace| ==>
                trace[i] == saved || trace[i] == Publish(saved, name, m, built.artifact)
      ensures disk.store.inventory == old(disk.store.inventory)
      ensures o.Done? ==> disk.store == Publish(old(disk.store).(provider := Some(refs)), name, m, built.artifact)
      ensures o.Refused? ==> o.error.Environmental()
      ensures var saved := old(disk.store).(provider := Some(refs));
              disk.store == old(disk.store) || disk.store == saved || disk.store == Publish(saved, name, m, built.artifact)
    {
      hide History, Publishable;
      var _ :- FillStaging(staging, m, built.artifact);
      var _ :- SaveProviderAtomic(refs);
      o := PublishStaging(staging, m, built, name, GenerationPublishFailed);
    }

    /** Stages, stores and publishes a built KeyPackage under the next free sequence. */
    method PublishGeneration(requestId: string, built: Built, sequence: nat, createdAt: nat, stored: set<string>)
        returns (o: Outcome<Record, ErrorCode>)
      requires Valid() && Faithful(mls, built) && IsNextFree(disk.store, Loaded(device, disk.store), sequence)
      requires disk.store.inventory.None? ==> disk.store.generations == map[] && LegacyCount(disk.store.legacy) == 0
      requires forall name :: !Owns(disk.store.generations, name, requestId)
      requires stored == if disk.store.provider.Some? then disk.store.provider.value else {}
      modifies `disk, `trace
      ensures Valid() && old(trace) <= trace && disk.lock == old(disk.lock)
      ensures var saved := WithSavedKey(old(disk.store), built);
              var m := NewManifest(mls, device, sequence, requestId, built, createdAt, "generated");
              forall i :: |old(trace)| <= i < |trace| ==>
                trace[i] == saved || trace[i] == Publish(saved, GenerationName(sequence, built.keyPackage.ref), m, built.artifact)
      ensures disk.store.inventory == old(disk.store.inventory)
      ensures o.Done? ==>
                var m := NewManifest(mls, device, sequence, requestId, built, createdAt, "generated");
                var name := GenerationName(sequence, built.keyPackage.ref);
                && o.value == RecordOf(name, m) && o.value.sequence == sequence && o.value.createdAt == createdAt
                && o.value.generationId == GenerationId(sequence)
                && disk.store == Publish(old(disk.store).(provider := Some(WithKey(old(disk.store).provider, built.keyPackage.ref))),
                                         name, m, built.artifact)
      ensures o.Refused? ==> o.error.Environmental()
      ensures var saved := WithSavedKey(old(disk.store), built);
              var m := NewManifest(mls, device, sequence, requestId, built, createdAt, "generated");
              disk.store == old(disk.store) || disk.store == saved
              || disk.store == Publish(saved, GenerationName(sequence, built.keyPackage.ref), m, built.artifact)
    {
      hide History, Inv, Grows, Publishable, IsNextFree, NewEntry;
      StoreIsConsistent();
      var refs := stored + {built.keyPackage.ref};
      var name := GenerationName(sequence, built.keyPackage.ref);
      var m := NewManifest(mls, device, sequence, requestId, built, createdAt, "generated");
      NextIsPublishable(mls, device, disk.store, m, built, refs);
      if name in disk.store.generations {
        return Refused(GenerationPathCollision);
      }
      var token: string := *;
      var staging := ".staging-" + requestId + "-" + token;
      var _ :- CreateStaging(staging, GenerationStagingFailed);
      var made := MaterializeGeneration(staging, m, built, refs, name);
      if made.Refused? && staging in disk.staging {
        var _ :- DiscardStaging(staging);
      }
      var _ :- made;
      return Done(RecordOf(name, m));
    }

    /** Adds the newest published record to the inventory, makes it current and writes the inventory. */
    method ListNewest(inventory: Inventory, record: Record) returns (o: Outcome<Inventory, ErrorCode>)
      requires Valid() && inventory == Loaded(device, disk.store) && inventory.nextSequence <= record.sequence
      requires InventoryOk(device, disk.store.generations, Extend(inventory, record))
      requires disk.store.inventory.Some? ==> InventoryGrows(disk.store.inventory.value, Extend(inventory, record))
      requires record.generationId == GenerationId(record.sequence)
      modifies `disk, `trace
      ensures Valid() && old(trace) <= trace && disk.lock == old(disk.lock)
      ensures || (trace == old(trace) && disk.store == old(disk.store))
              || (trace == old(trace) + [disk.store]
                  && disk.store == old(disk.store).(inventory := Some(Extend(inventory, record))))
      ensures o.Done? ==> o.value == Extend(inventory, record) && disk.store.inventory == Some(o.value)
      ensures o.Refused? ==> o.error.Environmental() && disk.store == old(disk.store)
    {
      hide History, Inv, Grows, InventoryOk, InventoryGrows, SortBySequence;
      assert Inv(mls, device, disk.store) by {
        StoreIsConsistent();
      }
      var updated := inventory.(nextSequence := record.sequence + 1, current := Some(record.generationId));
      updated := updated.(generations := SortBySequence(inventory.generations + [record]));
      NewestSortsLast(mls, device, disk.store, record);
      assert updated == Extend(inventory, record);
      var _ :- WriteInventoryAtomic(updated);
      return Done(updated);
    }

    /** Builds, publishes and lists the generation of a request that owns no directory yet. */
    method CreateGeneration(requestId: string, inventory: Inventory, built: Option<Built>, now: nat)
        returns (o: Outcome<Generated, ErrorCode>)
      requires Valid() && inventory == Loaded(device, disk.store)
      requires disk.store.inventory.None? ==> disk.store.generations == map[] && LegacyCount(disk.store.legacy) == 0
      requires forall name :: !Owns(disk.store.generations, name, requestId)
      requires built.Some? ==> Faithful(mls, built.value)
      modifies `disk, `trace
      ensures Valid() && old(trace) <= trace && disk.lock == old(disk.lock)
      ensures forall i :: |old(trace)| <= i < |trace| ==>
                built.Some? && CreatePoint(mls, device, old(disk.store), requestId, built.value, trace[i])
      ensures o.Done? ==>
                && built.Some?
                && Creates(mls, device, old(disk.store), inventory, requestId, built.value, disk.store, o.value)
                && disk.store.inventory.Some?
                && o.value.current == disk.store.inventory.value.current
                && o.value.count == |disk.store.inventory.value.generations|
      ensures o.Done? ==> DescribesKey(mls, o.value.record, requestId, built.value, now)
      ensures o.Refused? ==> o.error.Environmental()
      ensures disk.store == old(disk.store)
              || (built.Some? && CreatePoint(mls, device, old(disk.store), requestId, built.value, disk.store))
    {
      hide History, Inv, Grows, IsNextFree, InventoryOk, InventoryGrows, NewEntry, SortBySequence, GenerationName, WithKey,
        CreatePoint, Creates, DescribesKey, NewManifest, RecordOf, Extend;
      ghost var s := disk.store;
      StoreIsConsistent();
      var sequence :- NextAvailableSequence(inventory);
      NextFreeIsNotBelow(s, inventory, sequence);
      var createdAt :- UnixNow(now);
      var stored: set<string> := {};
      if disk.store.provider.Some? {
        var _ :- Io(ProviderStorageLoadFailed);
        stored := disk.store.provider.value;
      }
      if built.None? {
        return Refused(KeypackageBuildFailed);
      }
      CreatePoints(mls, device, s, requestId, built.value, sequence, createdAt);
      var record :- PublishGeneration(requestId, built.value, sequence, createdAt, stored);
      assert Inv(mls, device, disk.store) by {
        StoreIsConsistent();
      }
      PublishedIsListed(mls, device, s, disk.store, requestId, built.value, record);
      var updated :- ListNewest(inventory, record);
      var result := Generated(record, updated.current, |updated.generations|, false, false);
      CreatedAsSpecified(mls, device, s, inventory, requestId, built.value, sequence, createdAt, disk.store, result);
      return Done(result);
    }

    /** Answers a request from a loaded inventory: replay, recovery or a new generation. */
    method AnswerRequest(requestId: string, inventory: Inventory, inventoryWasMissing: bool, built: Option<Built>, now: nat)
        returns (o: Outcome<Generated, ErrorCode>)
      requires Valid() && inventory == Loaded(device, disk.store)
      requires disk.store.inventory.None? ==> disk.store.generations == map[] && LegacyCount(disk.store.legacy) == 0
      requires built.Some? ==> Faithful(mls, built.value)
      modifies `disk, `trace
      ensures Valid() && old(trace) <= trace && disk.lock == old(disk.lock)
      ensures forall i :: |old(trace)| <= i < |trace| ==>
                AnswerPoint(mls, device, old(disk.store), requestId, built, trace[i])
      ensures o.Done? ==> Generates(mls, device, old(disk.store), requestId, built, disk.store, o.value)
      ensures o.Done? && !o.value.idempotentReplay ==>
                built.Some? && DescribesKey(mls, o.value.record, requestId, built.value, now)
      ensures o.Done? ==> !StaleClaim(old(disk.store), inventory, requestId)
      ensures o.Refused? && !o.error.Environmental() ==>
                o.error == GenerationRecoveryConflict && StaleClaim(old(disk.store), inventory, requestId)
      ensures Claimed(old(disk.store), requestId) ==>
                disk.store.generations == old(disk.store.generations) && disk.store.provider == old(disk.store.provider)
      ensures AnswerPoint(mls, device, old(disk.store), requestId, built, disk.store)
      ensures o.Done? && FindRequest(inventory.generations, requestId).Some? ==>
                (o.value.recoveredFromManifest <==> inventoryWasMissing && o.value.record.origin == "generated")
    {
      hide History, Inv, Grows, InventoryOk, Creates, InventoryGrows, RecordFilesValid, DescribesKey, Extend;
      var existing := FindRequest(inventory.generations, requestId);
      StoreIsConsistent();
      if existing.Some? {
        ListedRecordIsValid(mls, device, disk.store, existing.value);
        var _ :- ValidateRecordFiles(existing.value, false);
        return Done(Generated(existing.value, inventory.current, |inventory.generations|, true,
                              inventoryWasMissing && existing.value.origin == "generated"));
      }
      var recovered, updated := RecoverRequest(requestId, inventory);
      var found :- recovered;
      if found.Some? {
        GrowsReflexive(disk.store);
        NewRecordIsListed(mls, device, disk.store, disk.store, inventory, found.value.manifestPath.directory);
        NotStale(mls, device, disk.store, found.value.manifestPath.directory, requestId);
        var _ :- WriteInventoryAtomic(updated);
        return Done(Generated(found.value, updated.current, |updated.generations|, true, true));
      }
      o := CreateGeneration(requestId, inventory, built, now);
    }

    /** A generate writes while settling, up to `middle`, and then while answering. */
    lemma WritesOfGenerate(start: nat, middle: nat, requestId: string, built: Option<Built>)
      requires Valid() && start <= middle < |trace| && SettlePoint(mls, device, trace[start], trace[middle])
      requires forall i | start < i <= middle :: SettlePoint(mls, device, trace[start], trace[i])
      requires middle == |trace| - 1
               || (Settles(mls, device, trace[start], trace[middle]) && !LegacyUnusable(mls, device, trace[start]))
      requires forall i | middle < i < |trace| :: AnswerPoint(mls, device, trace[middle], requestId, built, trace[i])
      ensures GenerateWrites(mls, device, trace[start], requestId, built, trace[start + 1..])
    {
      hide Inv, Grows, Settles, LegacyUnusable, SettlePoint, AnswerPoint, GenerateEnds;
      forall i | start < i < |trace|
        ensures GenerateEnds(mls, device, trace[start], requestId, built, trace[i])
      {
        var settled := if i <= middle then trace[i] else trace[middle];
        UnusableExactlyAfterSave(mls, device, trace[start], settled, requestId, built, trace[i]);
      }
    }

    /** The critical section of `keypackage-generate`. `settled` is the store once the inventory is
        loaded. */
    method GenerateLocked(requestId: string, built: Option<Built>, clock: Clock)
        returns (o: Outcome<Generated, ErrorCode>, ghost settled: Store)
      requires Valid() && disk.lock.Held?
      requires built.Some? ==> Faithful(mls, built.value)
      modifies `disk, `trace
      ensures Valid() && old(trace) <= trace && disk.lock == old(disk.lock)
      ensures GenerateWrites(mls, device, old(disk.store), requestId, built, trace[|old(trace)|..])
      ensures o.Done? ==>
                && Settles(mls, device, old(disk.store), settled)
                && Generates(mls, device, settled, requestId, built, disk.store, o.value)
      ensures o.Done? && !o.value.idempotentReplay ==>
                built.Some? && DescribesKey(mls, o.value.record, requestId, built.value, clock.created)
      ensures LegacyUnusable(mls, device, old(disk.store)) ==> disk.store == old(disk.store)
      ensures o.Done? ==> !Overtaken(old(disk.store), requestId) && !LegacyUnusable(mls, device, old(disk.store))
      ensures o.Refused? && !o.error.Environmental() ==> Refusable(mls, device, old(disk.store), requestId, o.error)
      ensures Claimed(old(disk.store), requestId) ==>
                disk.store.generations == old(disk.store.generations) && disk.store.provider == old(disk.store.provider)
      ensures o.Done? && FindRequest(Loaded(device, settled).generations, requestId).Some? ==>
                (o.value.recoveredFromManifest <==> old(disk.store.inventory).None? && o.value.record.origin == "generated")
      ensures GenerateEnds(mls, device, old(disk.store), requestId, built, disk.store)
    {
      hide History, Inv, Grows, InventoryOk, Settles, Generates, StaleClaim, LegacyUnusable, SettlePoint,
        AnswerPoint, GenerateEnds;
      settled := disk.store;
      NothingIsAPoint(mls, device, disk.store, requestId, built);
      var _ :- Io(KeypackageStateWriteFailed);
      var inventoryWasMissing := disk.store.inventory.None?;
      StoreIsConsistent();
      var loaded := LoadOrInitializeInventory(clock.imported);
      settled := disk.store;
      StoreIsConsistent();
      ghost var start, middle := |old(trace)| - 1, |trace| - 1;
      UnusableExactlyAfterSave(mls, device, old(disk.store), settled, requestId, built, settled);
      WritesOfGenerate(start, middle, requestId, built);
      var inventory :- loaded;
      o := AnswerRequest(requestId, inventory, inventoryWasMissing, built, clock.created);
      UnusableExactlyAfterSave(mls, device, old(disk.store), settled, requestId, built, disk.store);
      WritesOfGenerate(start, middle, requestId, built);
      if o.Refused? && !o.error.Environmental() {
        ConflictMeansOvertaken(mls, device, old(disk.store), settled, requestId);
      }
    }

    /** `keypackage-generate`: the lock is held for the whole critical section and released on every
        return, but not when the process stops. */
    method GenerateKeypackage(p: Process, requestId: string, built: Option<Built>, clock: Clock)
        returns (o: Outcome<Generated, ErrorCode>, ghost run: Run)
      requires Outside() && p in ours
      requires built.Some? ==> Faithful(mls, built.value)
      modifies this
      ensures Valid() && Outside() && old(trace) <= trace
      ensures RunOf(p, trace[0], old(events), events, ours, run)
      ensures run.section.Some? ==> GenerateWrites(mls, device, run.found, requestId, built, run.section.value.writes)
      ensures disk.store == if run.section.Some? then EndOfWrites(run.found, run.section.value.writes) else run.found
      ensures GenerateEnds(mls, device, run.found, requestId, built, disk.store)
      ensures o.Done? ==> run.section.Some? && Reports(disk.store, requestId, o.value.record)
      ensures o.Done? && (Claimed(run.found, requestId) || Claimed(old(disk.store), requestId)) ==> o.value.idempotentReplay
      ensures o.Done? && !o.value.idempotentReplay ==>
                built.Some? && DescribesKey(mls, o.value.record, requestId, built.value, clock.created)
      ensures o.Refused? && !o.error.Environmental() ==>
                run.section.Some? && Refusable(mls, device, run.found, requestId, o.error)
    {
      hide History, Inv, Grows, LegacyUnusable, Claimed, Reports, GenerateEnds, Recorded, StoreAfter, Events;
      Interfere();
      run := StillOutside();
      ghost var s := disk.store;
      NothingIsAPoint(mls, device, s, requestId, built);
      var _ :- Io(IdentityUnavailable);
      var acquired, entry := AcquireLock(p);
      GrowsTransitive(old(disk.store), s, disk.store);
      ClaimsStay(old(disk.store), disk.store, requestId);
      NothingIsAPoint(mls, device, disk.store, requestId, built);
      if !acquired.Done? {
        run := StillOutside();
      }
      var _ :- acquired;
      EntersWith(p, entry);
      o, run := GenerateInside(p, entry, requestId, built, clock);
    }

    /** The critical section of `keypackage-generate` and giving the lock back. */
    method GenerateInside(p: Process, ghost entry: seq<Event<Store>>, requestId: string, built: Option<Built>, clock: Clock)
        returns (o: Outcome<Generated, ErrorCode>, ghost run: Run)
      requires Valid() && p in ours && disk.lock == Held(p)
      requires events == entry + [Acquired(p)] && Legal(events) && trace == [trace[0]] + Stores(entry)
      requires LifecycleSections(mls, device, trace[0], Sections(entry), ours) && StoreAfter(trace[0], entry) == disk.store
      requires built.Some? ==> Faithful(mls, built.value)
      modifies this
      ensures Valid() && Outside() && old(trace) <= trace
      ensures events == run.Events() && run.entry == entry && run.found == old(disk.store) && run.section.Some?
      ensures var section := run.section.value;
              && section.process == p && (section.ending.Closed? || section.ending.LeftBehind?)
              && GenerateWrites(mls, device, run.found, requestId, built, section.writes)
              && disk.store == EndOfWrites(run.found, section.writes)
      ensures GenerateEnds(mls, device, run.found, requestId, built, disk.store)
      ensures o.Done? ==> Reports(disk.store, requestId, o.value.record)
      ensures o.Done? && Claimed(run.found, requestId) ==> o.value.idempotentReplay
      ensures o.Done? && !o.value.idempotentReplay ==>
                built.Some? && DescribesKey(mls, o.value.record, requestId, built.value, clock.created)
      ensures o.Refused? && !o.error.Environmental() ==> Refusable(mls, device, run.found, requestId, o.error)
    {
      hide History, Inv, Grows, Settles, Generates, Overtaken, LegacyUnusable, Claimed, Reports, GenerateEnds, GenerateWrites,
        SectionWrites, LifecycleSections, Sections, Stores, Recorded, StoreAfter, Legal, Events;
      ghost var first := |trace| - 1;
      ghost var settled;
      o, settled := GenerateLocked(requestId, built, clock);
      if o.Done? {
        GenerateReports(mls, device, old(disk.store), settled, disk.store, requestId, built, o.value);
      }
      GenerateSection(first, requestId, built);
      run := LeaveSection(p, o.Crashed?, entry, trace[first + 1..]);
    }

    /** What was written since a store was found is the section of a generate. */
    lemma GenerateSection(i: nat, requestId: string, built: Option<Built>)
      requires Valid() && i < |trace| && GenerateWrites(mls, device, trace[i], requestId, built, trace[i + 1..])
      ensures SectionWrites(mls, device, trace[i], trace[i + 1..])
    {
      hide Inv, Grows, GenerateWrites;
    }

    lemma RetireSection(i: nat, generationId: string)
      requires Valid() && i < |trace| && RetireWrites(trace[i], generationId, trace[i + 1..])
      ensures SectionWrites(mls, device, trace[i], trace[i + 1..])
    {
      hide Inv, Grows, RetireWrites;
    }

    /** A run without a section, so far. */
    ghost method StillOutside() returns (run: Run)
      requires Outside()
      ensures run == Run(events, disk.store, None) && StoreAfter(trace[0], events) == disk.store
    {
      hide History, LifecycleSections;
      StoreAfterIsLast(trace[0], events);
      run := Run(events, disk.store, None);
    }

    /** The store a process finds when it has taken the lock. */
    lemma EntersWith(p: Process, entry: seq<Event<Store>>)
      requires Recorded() && events == entry + [Acquired(p)] && p in ours
      ensures StoreAfter(trace[0], entry) == disk.store && trace == [trace[0]] + Stores(entry)
      ensures Legal(events) && LifecycleSections(mls, device, trace[0], Sections(entry), ours)
    {
      hide History, SectionWrites, StoreAfterSections;
      ghost var taken: Event<Store> := Acquired(p);
      Snoc(entry, taken);
      StoreAfterIsLast(trace[0], entry);
      var before, after := Sections(entry), Sections(events);
      forall i | 0 <= i < |before| && before[i].process in ours
        ensures SectionWrites(mls, device, StoreAfterSections(trace[0], before[..i]), before[i].writes)
      {
        assert after[..i] == before[..i] && after[i] == before[i];
      }
    }

    lemma HistoryGrows(s: Store, i: nat, j: nat)
      requires Valid() && i <= j < |trace| && trace[i] == s
      ensures Grows(s, trace[j])
    {
    }

    // ---- keypackage-retire and keypackage-inventory ----

    method RetireLocked(generationId: string, now: nat) returns (o: Outcome<Retired, ErrorCode>)
      requires Valid() && disk.lock.Held?
      modifies `disk, `trace
      ensures Valid() && old(trace) <= trace && disk.lock == old(disk.lock)
      ensures RetireWrites(old(disk.store), generationId, trace[|old(trace)|..])
      ensures o.Done? ==> Retires(old(disk.store), generationId, disk.store, o.value)
      ensures o.Done? ==>
                && old(disk.store).inventory.Some? && disk.store.inventory.Some?
                && MarkedRetired(old(disk.store).inventory.value, disk.store.inventory.value, generationId, o.value)
                && (!o.value.idempotentReplay ==> o.value.retiredAt == Some(now))
      ensures old(disk.store.inventory).None? <==> o == Refused(KeypackageInventoryMissing)
      ensures o == Refused(CurrentGenerationRetirementRefused) ==> old(disk.store).inventory.value.current == Some(generationId)
      ensures o == Refused(GenerationNotFound) ==>
                forall r | r in old(disk.store).inventory.value.generations :: r.generationId != generationId
      ensures o.Done? ==> old(disk.store).inventory.value.current != Some(generationId)
      ensures o.Refused? ==> disk.store == old(disk.store)
                             && (o.error.Environmental() || RetireRefusal(old(disk.store), generationId) == Some(o.error))
      ensures disk.store == old(disk.store).(inventory := disk.store.inventory)
      ensures RetirePoint(old(disk.store), generationId, disk.store)
    {
      hide History, Inv, Grows, InventoryOk, InventoryValid, RecordFilesValid, MarkedRetired, InventoryGrows;
      if disk.store.inventory.None? {
        return Refused(KeypackageInventoryMissing);
      }
      StoreIsConsistent();
      StoredInventoryIsValid(mls, device, disk.store);
      var _ :- Io(KeypackageStateReadFailed);
      var inventory := disk.store.inventory.value;
      var _ :- ValidateInventory(inventory, false);
      if inventory.current == Some(generationId) {
        return Refused(CurrentGenerationRetirementRefused);
      }
      var found := FindGeneration(inventory.generations, generationId);
      if found.None? {
        return Refused(GenerationNotFound);
      }
      var index := found.value;
      if inventory.generations[index].status == "retired" {
        RetiresMarks(disk.store, generationId, disk.store, Retired(inventory.generations[index].retiredAt, true));
        return Done(Retired(inventory.generations[index].retiredAt, true));
      }
      ListedRecordIsValid(mls, device, disk.store, inventory.generations[index]);
      var _ :- ValidateRecordFiles(inventory.generations[index], false);
      var retiredAt :- UnixNow(now);
      var updated := inventory.(generations := inventory.generations[index := inventory.generations[index].(
                                                 status := "retired", retiredAt := Some(retiredAt))]);
      RetirementIsOk(mls, device, disk.store, generationId, retiredAt);
      assert Retires(disk.store, generationId, disk.store.(inventory := Some(updated)), Retired(Some(retiredAt), false));
      RetiresMarks(disk.store, generationId, disk.store.(inventory := Some(updated)), Retired(Some(retiredAt), false));
      var _ :- WriteInventoryAtomic(updated);
      return Done(Retired(Some(retiredAt), false));
    }

    method RetireKeypackage(p: Process, generationId: string, now: nat) returns (o: Outcome<Retired, ErrorCode>, ghost run: Run)
      requires Outside() && p in ours
      modifies this
      ensures Valid() && Outside() && old(trace) <= trace
      ensures RunOf(p, trace[0], old(events), events, ours, run)
      ensures run.section.Some? ==> RetireWrites(run.found, generationId, run.section.value.writes)
      ensures disk.store == if run.section.Some? then EndOfWrites(run.found, run.section.value.writes) else run.found
      ensures o.Done? ==> run.section.Some? && Retires(run.found, generationId, disk.store, o.value)
      ensures o.Done? ==>
                && run.found.inventory.Some? && disk.store.inventory.Some?
                && MarkedRetired(run.found.inventory.value, disk.store.inventory.value, generationId, o.value)
                && (!o.value.idempotentReplay ==> o.value.retiredAt == Some(now))
      ensures o.Refused? ==> disk.store == run.found
                             && (o.error.Environmental() || RetireRefusal(run.found, generationId) == Some(o.error))
    {
      hide History, Inv, Grows, Retires, RetireRefusal, MarkedRetired, Recorded, StoreAfter, Events;
      Interfere();
      run := StillOutside();
      var acquired, entry := AcquireLock(p);
      if !acquired.Done? {
        run := StillOutside();
      }
      var _ :- acquired;
      EntersWith(p, entry);
      o, run := RetireInside(p, entry, generationId, now);
    }

    /** The critical section of `keypackage-retire` and giving the lock back. */
    method RetireInside(p: Process, ghost entry: seq<Event<Store>>, generationId: string, now: nat)
        returns (o: Outcome<Retired, ErrorCode>, ghost run: Run)
      requires Valid() && p in ours && disk.lock == Held(p)
      requires events == entry + [Acquired(p)] && Legal(events) && trace == [trace[0]] + Stores(entry)
      requires LifecycleSections(mls, device, trace[0], Sections(entry), ours) && StoreAfter(trace[0], entry) == disk.store
      modifies this
      ensures Valid() && Outside() && old(trace) <= trace
      ensures events == run.Events() && run.entry == entry && run.found == old(disk.store) && run.section.Some?
      ensures var section := run.section.value;
              && section.process == p && (section.ending.Closed? || section.ending.LeftBehind?)
              && RetireWrites(run.found, generationId, section.writes)
              && disk.store == EndOfWrites(run.found, section.writes)
      ensures o.Done? ==> Retires(run.found, generationId, disk.store, o.value)
      ensures o.Done? ==>
                && run.found.inventory.Some? && disk.store.inventory.Some?
                && MarkedRetired(run.found.inventory.value, disk.store.inventory.value, generationId, o.value)
                && (!o.value.idempotentReplay ==> o.value.retiredAt == Some(now))
      ensures o.Refused? ==> disk.store == run.found
                             && (o.error.Environmental() || RetireRefusal(run.found, generationId) == Some(o.error))
    {
      hide History, Inv, Grows, Retires, RetireRefusal, MarkedRetired, RetireWrites, SectionWrites, LifecycleSections, Sections, Stores,
        Recorded, StoreAfter, Legal, Events;
      ghost var first := |trace| - 1;
      o := RetireLocked(generationId, now);
      RetireSection(first, generationId);
      run := LeaveSection(p, o.Crashed?, entry, trace[first + 1..]);
    }

    /** `keypackage-inventory` takes no lock: other processes may run between any two of its reads, and
        still it only ever reports an inventory that was on disk and whose every record checks. */
    method InventoryValue(p: Process) returns (o: Outcome<Inventory, ErrorCode>)
      requires Outside()
      modifies this
      ensures Valid() && Outside() && old(trace) <= trace && OthersActed(old(events), events, ours)
      ensures o.Done? ==> InventoryValid(mls, device, disk.store.generations, o.value)
                          && exists i :: |old(trace)| - 1 <= i < |trace| && trace[i].inventory == Some(o.value)
      ensures o.Refused? && !o.error.Environmental() ==>
                && o.error == KeypackageInventoryMissing
                && exists i :: |old(trace)| - 1 <= i < |trace| && trace[i].inventory == None
    {
      hide History, Inv, InventoryOk, InventoryValid, RecordFilesValid, Outside;
      Interfere();
      var _ :- Io(IdentityUnavailable);
      Interfere();
      Peek(p);
      ghost var probe := |trace| - 1;
      assert trace[probe] == disk.store;
      if disk.store.inventory.None? {
        return Refused(KeypackageInventoryMissing);
      }
      Interfere();
      var _ :- Io(KeypackageStateReadFailed);
      Peek(p);
      ghost var read := |trace| - 1;
      assert trace[read] == disk.store;
      var inventory := disk.store.inventory.value;
      StoreIsConsistent();
      StoredInventoryIsValid(mls, device, disk.store);
      ghost var seen := disk.store;
      Interfere();
      InventoryStaysValid(mls, device, seen, disk.store, inventory);
      var _ :- ValidateInventory(inventory, true);
      return Done(inventory);
    }

    // ---- Whole runs ----

    /** Any sequence of commands, each possibly cut short, with other processes in between. */
    method RunCommands(commands: seq<Command>) returns (answers: seq<Option<Generated>>)
      requires Outside()
      requires forall c | c in commands && !c.ClearLock? :: c.process in ours
      requires forall k | 0 <= k < |commands| && commands[k].Generate? && commands[k].built.Some? ::
                 Faithful(mls, commands[k].built.value)
      modifies this
      ensures Valid() && Outside() && old(trace) <= trace
      ensures |answers| == |commands| && Consistent(disk.store, commands, answers)
      ensures disk.store == StoreAfterSections(trace[0], Sections(events))
    {
      hide History, Inv, Grows, Kept, Claimed, Reports, InventoryValid, Retires, RetireRefusal, Refusable, Agree, GenerateEnds,
        GenerateWrites, RetireWrites, RunOf, Legal, Sections, Stores, LifecycleSections, OthersActed, EndOfWrites,
        Recorded, StoreAfterSections, Faithful;
      RecordedIsValid();
      answers := [];
      for k := 0 to |commands|
        invariant Valid() && Outside() && old(trace) <= trace
        invariant |answers| == k && Consistent(disk.store, commands, answers)
      {
        assert commands[k] in commands;
        ghost var before := disk.store;
        StoreIsConsistent();
        ghost var index := |trace| - 1;
        match commands[k]
        case Generate(p, requestId, built, clock) =>
          var o, _ := GenerateKeypackage(p, requestId, built, clock);
          HistoryGrows(before, index, |trace| - 1);
          StoreIsConsistent();
          AnswersStay(before, disk.store, commands, answers);
          if o.Done? {
            ReportedIsKept(disk.store, requestId, o.value.record);
            forall i | 0 <= i < k && answers[i].Some?
              ensures Agree(commands[i].requestId, answers[i].value, requestId, o.value)
            {
              KeptIsClaimed(mls, device, before, commands[i].requestId, answers[i].value.record);
              AnswersAgree(mls, device, disk.store, commands[i].requestId, answers[i].value, requestId, o.value);
            }
          }
          answers := answers + [if o.Done? then Some(o.value) else None];
        case Retire(p, generationId, now) =>
          var _, _ := RetireKeypackage(p, generationId, now);
          HistoryGrows(before, index, |trace| - 1);
          AnswersStay(before, disk.store, commands, answers);
          answers := answers + [None];
        case Inspect(p) =>
          var _ := InventoryValue(p);
          HistoryGrows(before, index, |trace| - 1);
          AnswersStay(before, disk.store, commands, answers);
          answers := answers + [None];
        case ClearLock =>
          if disk.lock == Left {
            Note(Cleared);
          }
          answers := answers + [None];
      }
      RunsOneByOne();
    }

    /** When all sections are of ours, the events meet what `ProcessesRunOneByOne` asks for. */
    lemma OursRunOneByOne()
      requires Recorded() && forall section | section in Sections(events) :: section.process in ours
      ensures Core(events) == Serial(Sections(events))
      ensures disk.store == StoreAfterSections(trace[0], Sections(events))
      ensures LegacyUnusable(mls, device, trace[0]) ==> disk.store == trace[0]
    {
      hide LifecycleSections, LegacyUnusable, Sections, Legal;
      InterleavingsAreSerial(events);
      StoreAfterIsLast(trace[0], events);
      ProcessesRunOneByOne(mls, device, trace[0], events, ours);
    }

    lemma RunsOneByOne()
      requires Recorded()
      ensures disk.store == StoreAfterSections(trace[0], Sections(events))
    {
      hide History, LifecycleSections, Sections;
      StoreAfterIsLast(trace[0], events);
      SectionsRunOneByOne(trace[0], events);
    }
  }
}
