/** What holds of every history of a device: any run of the lifecycle commands, cut at any step, with
    other processes in between, from any state `public-bundle-export` can leave. `Sidecar.Valid`
    says that the stores a device has been in form such a history. */
module KeyPackageHistory {
  import opened Outcomes
  import opened GenerationIds
  import opened KeyPackageStore
  import opened KeyPackageLifecycle
  import opened KeyPackageSidecar

  /** Any inventory ever on disk passes `validate_inventory`, ascends strictly, and its last record is
      current, active and one below `next_sequence`. */
  lemma EveryInventoryIsInOrder(mls: OpenMls, device: string, trace: seq<Store>, i: nat)
    requires History(mls, device, trace) && i < |trace| && trace[i].inventory.Some?
    ensures var inv := trace[i].inventory.value;
            var n := |inv.generations|;
            && InventoryValid(mls, device, trace[i].generations, inv)
            && n >= 1
            && (forall j, k | 0 <= j < k < n :: inv.generations[j].sequence < inv.generations[k].sequence)
            && inv.current == Some(inv.generations[n - 1].generationId)
            && inv.generations[n - 1].status == "active"
            && inv.nextSequence == inv.generations[n - 1].sequence + 1
  {
    hide RecordFilesValid;
    StoredInventoryIsValid(mls, device, trace[i]);
  }

  /** A reader that loads the inventory at one moment and checks its files at later ones finds every
      record valid. */
  lemma UnlockedReadersSeeValidRecords(mls: OpenMls, device: string, trace: seq<Store>, i: nat, j: nat, r: Record)
    requires History(mls, device, trace) && i <= j < |trace|
    requires trace[i].inventory.Some? && r in trace[i].inventory.value.generations
    ensures RecordFilesValid(mls, device, trace[j].generations, r)
  {
    hide RecordFilesValid;
    ListedRecordIsValid(mls, device, trace[i], r);
    RecordFilesStayValid(mls, device, trace[i], trace[j], r);
  }

  /** Over a whole history a request, or a sequence, owns at most one directory, and that directory
      never changes. */
  lemma OneDirectoryForever(mls: OpenMls, device: string, trace: seq<Store>, i: nat, j: nat, a: string, b: string)
    requires History(mls, device, trace) && i <= j < |trace|
    requires HasManifest(trace[i].generations, a) && HasManifest(trace[j].generations, b)
    requires var m, n := ManifestAt(trace[i].generations, a), ManifestAt(trace[j].generations, b);
             m.requestId == n.requestId || m.sequence == n.sequence
    ensures a == b && trace[i].generations[a] == trace[j].generations[b]
  {
    hide RecordFilesValid;
    assert Grows(trace[i], trace[j]);
  }

  /** Private material of a published generation, listed or not, is never lost. */
  lemma KeysAreNeverLost(mls: OpenMls, device: string, trace: seq<Store>, i: nat, j: nat, name: string)
    requires History(mls, device, trace) && i <= j < |trace| && name in trace[i].generations
    ensures HasManifest(trace[i].generations, name) && trace[j].provider.Some?
    ensures ManifestAt(trace[i].generations, name).keyPackageRef in trace[j].provider.value
  {
    hide RecordFilesValid;
    DirectoriesHaveManifests(mls, device, trace[i]);
  }

  /** A listed generation stays listed with the same identity, and a retired one stays retired. */
  lemma RecordsStayListed(mls: OpenMls, device: string, trace: seq<Store>, i: nat, j: nat, k: nat)
    requires History(mls, device, trace) && i <= j < |trace|
    requires trace[i].inventory.Some? && k < |trace[i].inventory.value.generations|
    ensures trace[j].inventory.Some? && k < |trace[j].inventory.value.generations|
    ensures var r, q := trace[i].inventory.value.generations[k], trace[j].inventory.value.generations[k];
            Unretired(r) == Unretired(q) && (r.status == "retired" ==> q == r)
  {
    assert Grows(trace[i], trace[j]);
  }

  /** An overtaken request is refused for good. */
  lemma OvertakenForever(mls: OpenMls, device: string, trace: seq<Store>, i: nat, j: nat, requestId: string)
    requires History(mls, device, trace) && i <= j < |trace| && Overtaken(trace[i], requestId)
    ensures Overtaken(trace[j], requestId)
  {
    hide RecordFilesValid;
    var s, t := trace[i], trace[j];
    assert Grows(s, t);
    var name :| Owns(s.generations, name, requestId)
                && ManifestAt(s.generations, name).sequence < s.inventory.value.nextSequence;
    assert Owns(t.generations, name, requestId);
    var found := FindRequest(t.inventory.value.generations, requestId);
    if found.Some? {
      StaleStaysUnlisted(mls, device, s, t, name, found.value);
    }
  }

  /** Records added later lie above the old `next_sequence`. */
  lemma StaleStaysUnlisted(mls: OpenMls, device: string, s: Store, t: Store, name: string, r: Record)
    requires Inv(mls, device, s) && Inv(mls, device, t) && Grows(s, t) && s.inventory.Some?
    requires r in t.inventory.value.generations && Owns(s.generations, name, r.requestId)
    requires ManifestAt(s.generations, name).sequence < s.inventory.value.nextSequence
    ensures exists q :: q in s.inventory.value.generations && q.requestId == r.requestId
  {
    hide RecordFilesValid;
    var old_, new_ := s.inventory.value.generations, t.inventory.value.generations;
    assert Unretired(old_[|old_| - 1]) == Unretired(new_[|old_| - 1]);
    forall i | |old_| <= i < |new_|
      ensures s.inventory.value.nextSequence <= new_[i].sequence
    {
      assert new_[|old_| - 1].sequence < new_[i].sequence;
    }
    var k :| 0 <= k < |new_| && new_[k] == r;
    assert Indexed(t.generations, r);
    assert r.manifestPath.directory == name by {
      assert Owns(t.generations, r.manifestPath.directory, r.requestId) && Owns(t.generations, name, r.requestId);
    }
    assert k < |old_| && Unretired(old_[k]) == Unretired(new_[k]);
    assert old_[k] in old_;
  }

  /** Retrying a request whose directory was published but not listed, before another request
      publishes: nothing but a failing disk, clock or lock can refuse it, and success lists exactly
      that directory. The inventory may be missing still, after an interrupted first generation or
      legacy adoption. */
  lemma RetryRecoversTheDirectory(mls: OpenMls, device: string, s: Store, name: string, requestId: string)
    requires Inv(mls, device, s) && Owns(s.generations, name, requestId)
    requires FindRequest(Loaded(device, s).generations, requestId).None?
    requires Loaded(device, s).nextSequence <= ManifestAt(s.generations, name).sequence
    ensures forall code :: !Refusable(mls, device, s, requestId, code)
    ensures forall built, settled, t, result ::
              Settles(mls, device, s, settled) && Generates(mls, device, settled, requestId, built, t, result) ==>
                var r := RecordOf(name, ManifestAt(s.generations, name));
                && result.record == r && result.idempotentReplay
                && (s.inventory.Some? ==> result.recoveredFromManifest)
                && t == s.(inventory := Some(Extend(Loaded(device, s), r)))
  {
    hide Inv, Refusable, Settles, Generates;
    RetryIsAccepted(mls, device, s, name, requestId);
    forall built, settled, t, result | Settles(mls, device, s, settled) && Generates(mls, device, settled, requestId, built, t, result)
      ensures result.record == RecordOf(name, ManifestAt(s.generations, name)) && result.idempotentReplay
      ensures s.inventory.Some? ==> result.recoveredFromManifest
      ensures t == s.(inventory := Some(Extend(Loaded(device, s), result.record)))
    {
      RetryAnswers(mls, device, s, name, requestId, built, settled, t, result);
    }
  }

  lemma RetryIsAccepted(mls: OpenMls, device: string, s: Store, name: string, requestId: string)
    requires Inv(mls, device, s) && Owns(s.generations, name, requestId)
    requires FindRequest(Loaded(device, s).generations, requestId).None?
    requires Loaded(device, s).nextSequence <= ManifestAt(s.generations, name).sequence
    ensures forall code :: !Refusable(mls, device, s, requestId, code)
  {
    hide RecordFilesValid, InventoryOk, BundleAgrees;
    NotStale(mls, device, s, name, requestId);
    DirectoriesHaveManifests(mls, device, s);
  }

  lemma RetryAnswers(mls: OpenMls, device: string, s: Store, name: string, requestId: string, built: Option<Built>,
                     settled: Store, t: Store, result: Generated)
    requires Inv(mls, device, s) && Owns(s.generations, name, requestId)
    requires FindRequest(Loaded(device, s).generations, requestId).None?
    requires Loaded(device, s).nextSequence <= ManifestAt(s.generations, name).sequence
    requires Settles(mls, device, s, settled) && Generates(mls, device, settled, requestId, built, t, result)
    ensures result.record == RecordOf(name, ManifestAt(s.generations, name)) && result.idempotentReplay
    ensures s.inventory.Some? ==> result.recoveredFromManifest
    ensures t == s.(inventory := Some(Extend(Loaded(device, s), result.record)))
  {
    hide RecordFilesValid, InventoryOk, Creates, LegacyAgrees;
    DirectoriesHaveManifests(mls, device, s);
    if s.inventory.Some? {
      assert settled == s && Recovers(s, s.inventory.value, requestId, t, result);
    } else {
      InterruptedFirstGenerationConverges(mls, device, s, settled, name);
    }
  }

  /** An adoption or first generation that was interrupted before the inventory was written: every
      later generate is accepted, and settles in one way only, with the directory that is there. */
  lemma InterruptedFirstGenerationConverges(mls: OpenMls, device: string, s: Store, t: Store, name: string)
    requires Inv(mls, device, s) && s.inventory.None? && name in s.generations && Settles(mls, device, s, t)
    ensures forall requestId, code :: !Refusable(mls, device, s, requestId, code)
    ensures HasManifest(s.generations, name) && ManifestAt(s.generations, name).sequence == 1
    ensures t == s.(inventory := Some(Extend(EmptyInventory(device), RecordOf(name, ManifestAt(s.generations, name)))))
  {
    hide RecordFilesValid;
    DirectoriesHaveManifests(mls, device, s);
  }

  /** Where the very first generate on an empty device may stop, and which of these stores every later
      generate refuses: exactly the one with the key saved and nothing published. */
  lemma FirstGenerateCrashPoints(mls: OpenMls, device: string, built: Built, requestId: string, t: Store)
    ensures var empty := Store(None, None, map[], Legacy(None, None, None));
            && Inv(mls, device, empty)
            && GeneratePoint(mls, device, empty, requestId, Some(built), WithSavedKey(empty, built))
            && (GeneratePoint(mls, device, empty, requestId, Some(built), t) ==>
                  (LegacyUnusable(mls, device, t) <==> t == WithSavedKey(empty, built)))
  {
    hide RecordFilesValid;
    var empty := Store(None, None, map[], Legacy(None, None, None));
    assert SettlePoint(mls, device, empty, empty) && Settles(mls, device, empty, empty);
    assert AnswerPoint(mls, device, empty, requestId, Some(built), WithSavedKey(empty, built));
    if settled :| && SettlePoint(mls, device, empty, settled)
                  && (t == settled || (&& Settles(mls, device, empty, settled) && !LegacyUnusable(mls, device, empty)
                                       && AnswerPoint(mls, device, settled, requestId, Some(built), t)))
    {
      UnusableExactlyAfterSave(mls, device, empty, settled, requestId, Some(built), t);
    }
  }

  /** A new key always goes to a request without one and takes a sequence no directory has had. */
  lemma NewKeysTakeFreshSequences(mls: OpenMls, device: string, s: Store, requestId: string, built: Option<Built>,
                                  t: Store, result: Generated, name: string)
    requires Inv(mls, device, s) && Generates(mls, device, s, requestId, built, t, result)
    requires !result.idempotentReplay && name in s.generations
    ensures HasManifest(s.generations, name)
    ensures ManifestAt(s.generations, name).sequence < result.record.sequence
    ensures ManifestAt(s.generations, name).requestId != requestId
  {
    hide RecordFilesValid;
    DirectoriesHaveManifests(mls, device, s);
    assert Creates(mls, device, s, Loaded(device, s), requestId, built.value, t, result);
    assert !Owns(s.generations, name, requestId);
  }
}
