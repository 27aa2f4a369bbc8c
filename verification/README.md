# CarbonStackComms: a verified model of its durable protocols

CarbonStackComms drives an OpenMLS sidecar and an HTTP relay from command-line tools. Most of its code is
plumbing; what is hard is the state it keeps on disk and the order in which it changes it. This project models
that state and proves what the commands keep, over every run, every crash point and every reply.

Every step that touches the disk, the clock, the server or the sidecar may succeed, fail with an error return
(deferred clean-up still runs), or be the last step of its process (nothing after it runs; a lock directory stays
behind until an operator removes it). These three endings are `Outcome` in `Outcomes.dfy`. Failures and replies
are arbitrary, so a contract holds whatever they are. Directory renames and `mkdir` are atomic; a write that is
cut short leaves a torn file. Classes stand for what the commands mutate; a ghost field records every state or
event, and invariants over that record are what the theorems speak about.

## The parts

- **KeyPackage lifecycle** (`GenerationIds`, `KeyPackageStore`, `KeyPackageLifecycle`, `KeyPackageSidecar`,
  `KeyPackageHistory`, `LockedSections`, `KeyPackageProcesses`): a small crash-safe store with a lock directory,
  staging directories, private provider storage, immutable generation directories and an inventory replaced by
  rename. `Inv` is the invariant of every reachable store and `Grows` the only way it changes; a device's `History`
  starts from whatever `public-bundle-export` left, finished or not. While a process does not hold the lock, other
  processes may take it, write such changes, give it back or stop, and the operator may clear it; every such step is
  an event. `LockedSections` shows why critical sections may be read one at a time. Each command ensures that of the
  events since its start at most one section is its own, and that it writes what that command may write; `Recorded`
  keeps this for all commands run so far, which is what `KeyPackageProcesses` asks for.
- **Receipts** (`Text`, `Receipts`, `KeyPackageConsume`, `WelcomeConsume`): the consume commands as step machines
  over receipt directories, with a log of saves, joins and acknowledgements. A command holds its lock directory
  for its whole run, so runs are taken one at a time.
- **Onboarding** (`Onboarding`, `OnboardingEndToEnd`, `OnboardingReports`): the two evaluators that read those
  receipts, the composition, which is what they conclude after any runs of the consume commands, and the command
  that stores its first report and replays it.
- **Trust** (`TrustEvents`, `IdentityCandidates`, `TrustStore`): `trust.json` changed in place, the append-only
  history shared with candidate, recovery and provider events, and the candidate store. The store is the replay of
  the device events that were due; the history holds exactly those as long as no write failed or was cut off and no
  process stopped between the two writes of an operation on a device.
- **Conversation join** (`ConversationJoin`), **local trust binding** (`LocalTrustBinding`), **message inbox**
  (`MessageInbox`) and **JSON escaping** (`JsonEscape`).

## What the model says about the code

Some plausible properties are false, and the model states where they stop holding:

- A first `keypackage-generate` that stops after saving provider storage and before publishing its directory leaves
  a device that refuses every later generate (`FirstGenerateCrashPoints`, `UnusableForever`). Safety holds, progress
  does not, and this is the only way a generate brings it about (`UnusableExactlyAfterSave`).
- A request whose directory was published but not listed, and which a later request overtook, is refused for good
  (`OvertakenForever`); before that, retrying recovers it (`RetryRecoversTheDirectory`).
- The Welcome command acknowledges whenever the sidecar answers success, also when the answer says `joined: false`
  (`AckFollowsRecordedJoin` is exact, `UnreportedJoinIsStillAcknowledged` gives the family).
- Receipt directory names are injective on plain ids and on nothing more (`SharedExactlyWhenNotPlain`,
  `SafeReceiptIdCollides`); the first envelope keeps the directory (`DirectoryStaysBound`).
- A KeyPackage acknowledgement that the server answers without a time is recorded but not final: a repeated consume
  acknowledges again and may take it back (`RecordedAckStaysExactly`, `UntimedAckIsForgotten`).
- A receipt stores the relay space its envelope names, not the one requested; when they differ, repeating the request
  is refused (`RepeatIsAcceptedExactly`). A run that stops between artifact and manifest leaves a directory that is
  refused from then on (`RunAll`).
- A stored workflow report answers for every later state under its id. It is out of date exactly when member, group
  or the record of an acknowledgement has changed (`ReplayIsFreshExactly`, `DisabledMemberIsStillAllowed`,
  `ForgottenAckIsStillAllowed`). What it allows was still earned (`OnboardingReports.RunCommands`).
- A join reports the group held in memory while its summaries describe the group as reloaded
  (`ReportAgreesWithSummaries`).
- When `trust.json` cannot be read during a first observation, the candidate never gets its event, although no write
  failed (`UnreadableStoreLosesTheObservation`). Overlapping device operations lose an update and break the chain of
  states (`OverlapLosesAnUpdate`, `OverlapBreaksTheChain`).
- A trust event whose line is lost makes store and history differ unless it repeats the last event of its device
  (`LostEventShows`). The provider append by itself does not filter reserved types
  (`UnfilteredDraftCanBeADeviceEvent`); every caller in the repository goes through the filters.
- Candidates are told apart by joining three fields with a bar; with a bar inside a field, candidates that claim
  different devices share a key (`SharedKeyExactly`, `SeparatorsConfuseKeys`).
- Applying the same binding change twice keeps the state only when its differences ask for at most one warning
  state (`ChangeSettlesExactly`). Neither revocation is final: a revoked device can be verified again.
- `json_escape` is inverted by a conforming decoder only for strings without other control characters
  (`DecodeInvertsEscapeExactly`).

Cryptography, hashing, base64, Unicode case and letter tables are function values about which nothing is assumed
but that white space is neither letter nor digit, and what `Faithful` states of a built KeyPackage: what OpenMLS
builds reads back as built (KeyPackage and its reference are sections 10 and 5.2 of RFC 9420; Welcome is section
12.4.3.1). Clock readings are inputs; process ids and random tokens are arbitrary. `public-bundle-export` takes no
lock, so it is assumed not to overlap a generate; nothing outside the program changes its directories, except that
an operator may remove a lock left behind.

## Model

| member | source | states |
|---|---|---|
| KeyPackageHistory.EveryInventoryIsInOrder | internal/protocol/mls/openmls-sidecar/src/keypackage_rotation.rs:969-1040 | In every state a device can reach, whatever steps were cut short, an inventory on disk passes the check made on loading, ascends strictly in sequence, names its last record current and active, and has the next sequence one above it |
| KeyPackageHistory.UnlockedReadersSeeValidRecords | internal/protocol/mls/openmls-sidecar/src/keypackage_rotation.rs:421-432 | A record loaded without the lock at one moment still passes the file check at every later moment, because directories are published before they are listed and never removed |
| KeyPackageHistory.OneDirectoryForever | internal/protocol/mls/openmls-sidecar/src/keypackage_rotation.rs:288-338 | Over a whole history one request, and one sequence number, own at most one published directory, and its content never changes |
| KeyPackageHistory.KeysAreNeverLost | internal/protocol/mls/openmls-sidecar/src/keypackage_rotation.rs:370-391 | Every published generation, listed or orphaned, has its private material in the persisted provider storage from then on |
| KeyPackageHistory.RecordsStayListed | internal/protocol/mls/openmls-sidecar/src/keypackage_rotation.rs:453-513 | A listed generation keeps its place and identity for ever, and a retired one stays retired with its first retirement time |
| KeyPackageHistory.OvertakenForever | internal/protocol/mls/openmls-sidecar/src/keypackage_rotation.rs:821-830 | An orphaned request that a later one has overtaken is refused as stale in every later state |
| KeyPackageHistory.StaleStaysUnlisted | internal/protocol/mls/openmls-sidecar/src/keypackage_rotation.rs:821-835 | A record whose directory lay below the next sequence is only ever listed if it was listed then |
| KeyPackageHistory.RetryRecoversTheDirectory | internal/protocol/mls/openmls-sidecar/src/keypackage_rotation.rs:304-309 | After a crash between publishing and listing, also of the very first generation or of a legacy adoption, retrying before another request publishes cannot be refused except by a failing environment, answers with the record of exactly that directory, and only lists it |
| KeyPackageHistory.InterruptedFirstGenerationConverges | internal/protocol/mls/openmls-sidecar/src/keypackage_rotation.rs:543-574 | After an interrupted first generation or legacy adoption every generate is accepted, and settles in one way only: with the directory that is there as the first record |
| KeyPackageHistory.FirstGenerateCrashPoints | internal/protocol/mls/openmls-sidecar/src/keypackage_rotation.rs:576-587 | Of all stores a first generate on an empty device may stop in, exactly the one with the key saved and nothing published is refused by every later generate, and a generate can stop there |
| KeyPackageLifecycle.UnusableExactlyAfterSave | internal/protocol/mls/openmls-sidecar/src/keypackage_rotation.rs:576-594 | However a generate ends, it leaves a store that generate refuses exactly when it found one or stopped right after saving the first key of an empty device |
| KeyPackageLifecycle.UnusableForever | internal/protocol/mls/openmls-sidecar/src/keypackage_rotation.rs:576-594 | A store that generate refuses for its legacy files is changed by no critical section, finished or cut short |
| KeyPackageProcesses.ProcessesRunOneByOne | internal/protocol/mls/openmls-sidecar/src/keypackage_rotation.rs:1199-1228 | Any interleaving of our processes that the lock permits, with crashes inside sections, ends in the store of their sections one after the other; so what every section keeps by itself (consistency, growth, an unusable store) the interleaving keeps |
| KeyPackageProcesses.SectionsKeepTheStore | internal/protocol/mls/openmls-sidecar/src/keypackage_rotation.rs:276-416 | Over any chain of critical sections, cut anywhere, what each keeps adds up: the end is consistent and larger than the start, and a store that generate refuses stays as it is |
| KeyPackageProcesses.StoreAfterSerial | internal/protocol/mls/openmls-sidecar/src/keypackage_rotation.rs:1199-1228 | The store after serial sections depends only on what they write |
| KeyPackageHistory.NewKeysTakeFreshSequences | internal/protocol/mls/openmls-sidecar/src/keypackage_rotation.rs:311-332 | A new key is made only for a request without a directory, under a sequence above every directory that exists |
| KeyPackageSidecar.Sidecar.RunCommands | internal/protocol/mls/openmls-sidecar/src/keypackage_rotation.rs:271-513 | Over any commands, each possibly cut short and with other processes in between: every answer to one request names the same generation, different requests get different ones, and only a first answer reports a new key; all events so far are permitted by the lock, every section of these commands wrote what one command writes, and the store is that of the sections one after the other |
| KeyPackageSidecar.Sidecar.GenerateKeypackage | internal/protocol/mls/openmls-sidecar/src/keypackage_rotation.rs:271-419 | One run adds to the events steps of others and then at most one section of its own, whose every write is a store where a generate may stop on the store it found; a success had a section and is listed on disk for its request, a claimed request is only replayed, a new record describes the key built for it and the time it was made at, and the only refusals beyond a failing environment are an overtaken request and an unusable legacy export of the store found |
| KeyPackageSidecar.Sidecar.GenerateLocked | internal/protocol/mls/openmls-sidecar/src/keypackage_rotation.rs:276-419 | Under the lock, a generate first settles the inventory and then replays, recovers or creates, exactly as specified; every store it writes is one it may stop in; a run on a claimed request adds neither directory nor key |
| KeyPackageSidecar.Sidecar.AnswerRequest | internal/protocol/mls/openmls-sidecar/src/keypackage_rotation.rs:288-310 | From a loaded inventory the answer is one of replay, recovery and creation, and it is refused for the stored state exactly as a stale claim |
| KeyPackageSidecar.Sidecar.CreateGeneration | internal/protocol/mls/openmls-sidecar/src/keypackage_rotation.rs:311-419 | A created generation takes the least free sequence, is published complete with its key stored first, describes that key (request, reference, digest, size, lifetime, time made) and becomes the current record |
| KeyPackageSidecar.Sidecar.ListNewest | internal/protocol/mls/openmls-sidecar/src/keypackage_rotation.rs:412-416 | The newest record goes last in the sorted inventory, becomes current, and the next sequence is one above it; the inventory on disk is that one or the old one |
| KeyPackageSidecar.Sidecar.PublishGeneration | internal/protocol/mls/openmls-sidecar/src/keypackage_rotation.rs:315-391 | Staging, provider save and rename together add exactly one complete directory, or the run fails without listing anything |
| KeyPackageSidecar.Sidecar.MaterializeGeneration | internal/protocol/mls/openmls-sidecar/src/keypackage_rotation.rs:370-391 | The private material is durable before the directory it belongs to can appear |
| KeyPackageSidecar.Sidecar.PublishStaging | internal/protocol/mls/openmls-sidecar/src/keypackage_rotation.rs:374-386 | The rename is the one step that publishes: before it nothing is visible, after it the whole directory is |
| KeyPackageSidecar.Sidecar.SaveProviderAtomic | internal/protocol/mls/openmls-sidecar/src/keypackage_rotation.rs:1230-1250 | Provider storage is the old one or the complete new one, never less than before |
| KeyPackageSidecar.Sidecar.WriteInventoryAtomic | internal/protocol/mls/openmls-sidecar/src/keypackage_rotation.rs:1252-1275 | The inventory on disk is the old one or the complete new one; the check before writing never refuses what the lifecycle writes |
| KeyPackageSidecar.Sidecar.RecoverRequest | internal/protocol/mls/openmls-sidecar/src/keypackage_rotation.rs:805-838 | An unlisted request is recovered as the newest record, absent, or refused exactly when it is stale |
| KeyPackageSidecar.Sidecar.ScanGenerationRecords | internal/protocol/mls/openmls-sidecar/src/keypackage_rotation.rs:733-803 | The loop over directories in any order, sorted, yields exactly the manifests of all directories, and its duplicate refusal cannot occur |
| KeyPackageSidecar.RefuseDuplicates | internal/protocol/mls/openmls-sidecar/src/keypackage_rotation.rs:787-801 | The seen-set loop refuses exactly lists in which an id, sequence or request occurs twice |
| KeyPackageSidecar.Sidecar.NextAvailableSequence | internal/protocol/mls/openmls-sidecar/src/keypackage_rotation.rs:1128-1168 | The running-maximum loops yield the least number not below the inventory and above every directory |
| KeyPackageSidecar.Sidecar.ValidateRecordFiles | internal/protocol/mls/openmls-sidecar/src/keypackage_rotation.rs:1042-1126 | Acceptance means the record, its manifest and its artifact agree; refusal for the stored state means they do not, also while other processes run |
| KeyPackageSidecar.Sidecar.ValidateRecords | internal/protocol/mls/openmls-sidecar/src/keypackage_rotation.rs:987-1012 | The seen-set loop accepts only distinct records whose files check, and refuses only when one of these fails |
| KeyPackageSidecar.Sidecar.ValidateInventory | internal/protocol/mls/openmls-sidecar/src/keypackage_rotation.rs:969-1040 | Accepts only valid inventories and refuses for the stored state only invalid ones |
| KeyPackageSidecar.Sidecar.LoadOrInitializeInventory | internal/protocol/mls/openmls-sidecar/src/keypackage_rotation.rs:515-613 | Loading settles an interrupted first use in the one possible way; the ambiguous-recovery and missing-provider refusals are unreachable, and only an unusable legacy export is refused, with the code of its first fault |
| KeyPackageSidecar.Sidecar.AdoptLegacy | internal/protocol/mls/openmls-sidecar/src/keypackage_rotation.rs:615-731 | A legacy bundle whose documents agree becomes the first generation, made at the time of the import, an interrupted import is found again, and one that disagrees or was cut short changes nothing and is refused with the code of the first file that is at fault |
| KeyPackageSidecar.Sidecar.AdoptFirst | internal/protocol/mls/openmls-sidecar/src/keypackage_rotation.rs:604-610 | Adopting a legacy bundle settles the store with that bundle as the only record, or leaves it at a point from which it can be settled |
| KeyPackageSidecar.Sidecar.ReuseImport | internal/protocol/mls/openmls-sidecar/src/keypackage_rotation.rs:654-669 | A directory at the import path always is the import of this bundle: the conflict refusal cannot occur |
| KeyPackageSidecar.Sidecar.PublishImport | internal/protocol/mls/openmls-sidecar/src/keypackage_rotation.rs:670-730 | An import publishes exactly one directory holding the legacy artifact, and passes the file check that follows |
| KeyPackageSidecar.Sidecar.RetireLocked | internal/protocol/mls/openmls-sidecar/src/keypackage_rotation.rs:454-512 | On success the first record with the id is retired on disk with the reported time (the time of this run, or of the first retirement when repeated), and every other record and field is as before; it is refused exactly for a missing inventory, the current generation or an unknown one |
| KeyPackageSidecar.Sidecar.RetireKeypackage | internal/protocol/mls/openmls-sidecar/src/keypackage_rotation.rs:453-513 | One run adds to the events steps of others and then at most one section of its own; on success the inventory it found has become one in which exactly the first record with the id differs, retired with the reported time, and only a repetition reports an earlier time and changes nothing |
| KeyPackageSidecar.Sidecar.InventoryValue | internal/protocol/mls/openmls-sidecar/src/keypackage_rotation.rs:421-451 | The lock-free reader, with other processes between any two reads, only reports an inventory that was on disk and whose records all check, and is refused only when there was none; it neither takes the lock nor writes |
| KeyPackageSidecar.Sidecar.AcquireLock | internal/protocol/mls/openmls-sidecar/src/keypackage_rotation.rs:1199-1228 | A success holds the lock, taken when it was free; otherwise the environment failed or the lock stayed busy, and the store is as others left it |
| KeyPackageSidecar.Sidecar.LeaveSection | internal/protocol/mls/openmls-sidecar/src/keypackage_rotation.rs:1199-1228 | The section ends by giving the lock back or leaving it behind, always the latter when the process stops; the events then account for exactly the stores written since the lock was taken |
| KeyPackageSidecar.Sidecar.OursRunOneByOne | internal/protocol/mls/openmls-sidecar/src/keypackage_rotation.rs:1199-1228 | The events of runs without foreign sections meet what the theorem on processes asks for: up to waiting and reading they are the sections one after the other, and an unusable store never changes |
| KeyPackageSidecar.AnswersAgree | internal/protocol/mls/openmls-sidecar/src/keypackage_rotation.rs:288-302 | Two answers kept by one store agree when they answer one request and differ in id and sequence otherwise |
| KeyPackageLifecycle.PublishKeepsInv | internal/protocol/mls/openmls-sidecar/src/keypackage_rotation.rs:374-384 | Publishing a directory for an unused sequence and request keeps every store consistent |
| KeyPackageLifecycle.SaveProviderKeepsInv | internal/protocol/mls/openmls-sidecar/src/keypackage_rotation.rs:1230-1250 | Saving larger provider storage keeps every store consistent |
| KeyPackageLifecycle.IndexKeepsInv | internal/protocol/mls/openmls-sidecar/src/keypackage_rotation.rs:1252-1275 | Replacing the inventory by a grown one in order keeps every store consistent |
| KeyPackageLifecycle.ExtendIsOk | internal/protocol/mls/openmls-sidecar/src/keypackage_rotation.rs:412-416 | Appending the newest published record keeps the inventory in order and growing |
| KeyPackageLifecycle.RetireIsOk | internal/protocol/mls/openmls-sidecar/src/keypackage_rotation.rs:499-501 | Retiring any record but the last keeps the inventory in order and growing |
| KeyPackageLifecycle.FirstScan | internal/protocol/mls/openmls-sidecar/src/keypackage_rotation.rs:533-563 | Without an inventory a scan finds nothing or the one first generation, which rules out the ambiguous recoveries |
| KeyPackageLifecycle.SortOrders | internal/protocol/mls/openmls-sidecar/src/keypackage_rotation.rs:785 | Sorting by sequence keeps the records and puts distinct sequences in strict order |
| KeyPackageLifecycle.SortOfAscending | internal/protocol/mls/openmls-sidecar/src/keypackage_rotation.rs:415 | Sorting after appending the newest record moves nothing |
| KeyPackageLifecycle.NextIsPublishable | internal/protocol/mls/openmls-sidecar/src/keypackage_rotation.rs:311-338 | A generation under the next free sequence may be published once its key is stored |
| KeyPackageLifecycle.GenerateReports | internal/protocol/mls/openmls-sidecar/src/keypackage_rotation.rs:288-418 | What a completed generate reports is listed for its request, and is a replay when the request was claimed before |
| KeyPackageLifecycle.ConflictMeansOvertaken | internal/protocol/mls/openmls-sidecar/src/keypackage_rotation.rs:821-830 | The stale-sequence refusal occurs only for a request already overtaken when the lock was taken |
| KeyPackageLifecycle.RetirementIsOk | internal/protocol/mls/openmls-sidecar/src/keypackage_rotation.rs:464-501 | A permitted retirement never hits the current record, so the inventory stays in order |
| KeyPackageLifecycle.RetiresMarks | internal/protocol/mls/openmls-sidecar/src/keypackage_rotation.rs:464-512 | What a retirement does, record by record: the first with the id is retired at the reported time and everything else in the store is as it was; it counts as a repetition exactly when that record was retired before |
| KeyPackageLifecycle.RetiringAgainReplays | internal/protocol/mls/openmls-sidecar/src/keypackage_rotation.rs:479-490 | From the store a retirement leaves, retiring the same id again is never refused, changes nothing and can only report the same time |
| KeyPackageLifecycle.NewKeyIsDescribed | internal/protocol/mls/openmls-sidecar/src/keypackage_rotation.rs:315-418 | A new record names the request, the printed sequence and reference, digest, size and lifetime of the key made for it; its artifact and matching manifest lie in the directory named after id and reference, and it is listed last and current |
| KeyPackageLifecycle.LegacyCodeMeans | internal/protocol/mls/openmls-sidecar/src/keypackage_rotation.rs:625-652 | Which fault of a legacy export each refusal code reports: unreadable bytes with the code of their reading, a document that does not parse, or a missing file or disagreeing document |
| KeyPackageStore.RecordFilesStayValid | internal/protocol/mls/openmls-sidecar/src/keypackage_rotation.rs:1042-1126 | A record that passes the file check passes it in every larger store |
| KeyPackageStore.RecordsOfOneDirectory | internal/protocol/mls/openmls-sidecar/src/keypackage_rotation.rs:987-1003 | Records that share a sequence, a request or a generation id are the same record up to retirement |
| KeyPackageStore.InventoryOkIsValid | internal/protocol/mls/openmls-sidecar/src/keypackage_rotation.rs:969-1040 | Every inventory the lifecycle keeps passes the check it makes on loading |
| KeyPackageStore.ValidRecordIsItsManifest | internal/protocol/mls/openmls-sidecar/src/keypackage_rotation.rs:1042-1126 | A record passes the file check exactly when it is, up to retirement, the record of the manifest in the directory named after it, that manifest is of this device and kind, and the artifact beside it is the KeyPackage described |
| KeyPackageStore.LegacyAgreesExactly | internal/protocol/mls/openmls-sidecar/src/keypackage_rotation.rs:625-652 | A legacy export is adopted exactly when it reads back and both documents state its device, reference, digest and size |
| KeyPackageStore.GrowsTransitive | internal/protocol/mls/openmls-sidecar/src/keypackage_rotation.rs:370-416 | Growth of the store composes over any number of steps |
| LockedSections.InterleavingsAreSerial | internal/protocol/mls/openmls-sidecar/src/keypackage_rotation.rs:1199-1228 | Every interleaving of processes the lock directory permits, with crashes and operator clean-ups, is its critical sections one after the other, each with contiguous writes and at most the last one unfinished |
| LockedSections.SerialRunAgrees | internal/protocol/mls/openmls-sidecar/src/keypackage_rotation.rs:111-119 | The serial order is itself permitted by the lock and ends in the same store |
| LockedSections.SectionAppended | internal/protocol/mls/openmls-sidecar/src/keypackage_rotation.rs:1199-1228 | Taking the free lock, writing and giving it back or stopping is permitted and adds exactly one section with those writes |
| GenerationIds.GenerationIdInjective | internal/protocol/mls/openmls-sidecar/src/keypackage_rotation.rs:312 | Printing a sequence as a generation id is injective over all naturals |
| GenerationIds.ValidGenerationIdsAreExactlyThePrints | internal/protocol/mls/openmls-sidecar/src/keypackage_rotation.rs:1392-1398 | The validator accepts exactly the printed ids of 0 to 999999, and each of them parses back |
| GenerationIds.PrintOfValue | internal/protocol/mls/openmls-sidecar/src/keypackage_rotation.rs:312 | Printing the value of a padded decimal string gives the string back |
| GenerationIds.DirectoryNamesNeverCollide | internal/protocol/mls/openmls-sidecar/src/keypackage_rotation.rs:330-332 | Directory names of different sequences differ, whatever their reference suffixes |
| GenerationIds.RefSuffixIsTheFirstSixteen | internal/protocol/mls/openmls-sidecar/src/keypackage_rotation.rs:1400-1416 | A reference suffix exists exactly for sha256: and at least sixteen hexadecimal digits, and is the first sixteen of them in lower case |
| Receipts.BuildSafeReceiptId | internal/app/openmls_keypackage_consume_dev.go:262-281 | The builder loop computes the specified directory name |
| Receipts.SafeReceiptIdIsOneComponent | internal/app/openmls_keypackage_consume_dev.go:262-281 | A receipt directory is always one ordinary path component: not empty, no separator, never a lock directory |
| Receipts.SafeReceiptIdCollides | internal/app/openmls_keypackage_consume_dev.go:262-281 | The failing family: an id with a character the sanitizer replaces has the same directory as the id with the replacement, unless only punctuation is left |
| Receipts.SharedExactlyWhenNotPlain | internal/app/openmls_keypackage_consume_dev.go:262-281 | An id is its own directory name exactly when it is plain (letters, digits and punctuation, a letter or digit at either end), and shares its directory with a plain id other than itself exactly when it is not |
| Receipts.NameIsPlain | internal/app/openmls_keypackage_consume_dev.go:262-281 | Every directory name, digests and the name for blank ids included, is itself a plain id, so every directory is the one of exactly one plain id |
| Receipts.UnnamedIds | internal/app/openmls_keypackage_consume_dev.go:262-281 | A blank id is named empty, and an id without letters and digits is named by the digest of its trimmed text |
| Receipts.FilterInbox | internal/relay/cypher_bridge.go:173-180 | The inbox filter keeps exactly the envelopes of the kind, in order |
| Receipts.OfTypeKeepsExactly | internal/relay/cypher_bridge.go:173-180 | What the filter keeps: each envelope of the kind as often as it occurs, and no other |
| Receipts.OfTypeKeepsOrder | internal/relay/cypher_bridge.go:173-180 | Filtering two stretches of an inbox is filtering them one after the other, so order is kept |
| Receipts.SelectEnvelope | internal/app/openmls_keypackage_consume_dev.go:142-159 | Selection succeeds only on the one envelope with the id, addressed to this device and still queued; missing and ambiguous ids are refused exactly |
| Receipts.FetchArtifact | internal/app/openmls_keypackage_consume_dev.go:137-170 | Fetching succeeds only with the artifact of the one envelope asked for, and is refused only with the error that names what is wrong with the inbox, the envelope or its bytes |
| Receipts.IsLetterOrDigitExactly | internal/app/openmls_keypackage_consume_dev.go:262-281 | The ASCII letters and digits by code point; white space is neither |
| Receipts.ArtifactOf | internal/relay/cypher_bridge.go:183-248 | An accepted artifact has the digest its envelope states, if any |
| Receipts.ArtifactOfExactly | internal/relay/cypher_bridge.go:183-248 | An artifact is accepted exactly when type, version and relay space are right and its bytes decode and have the size and digest stated, as far as they are stated |
| KeyPackageConsume.RunAll | internal/app/openmls_keypackage_consume_dev.go:63-232 | Over any runs, crashes and replies, receipts on record are only ever extended and the acknowledgement invariants hold; a directory cut between artifact and manifest is never touched again while its artifact can be seen |
| KeyPackageConsume.Consumer.Consume | internal/app/openmls_keypackage_consume_dev.go:63-232 | One run adds to a receipt directory only a prefix of persist, acknowledge, record, or of acknowledge, record over a receipt it finds; a completed run returns the receipt on disk, acknowledged exactly when the reply says so, with its state and time, or the settled one it found; a conflict is reported only for a receipt of another request, an incomplete consume only for an artifact whose manifest is not found, and such a directory is refused and left alone; every other refusal names what is the case, and a run that stops after a change leaves the lock |
| KeyPackageConsume.Consumer.Fresh | internal/app/openmls_keypackage_consume_dev.go:137-232 | Without a receipt the manifest of the selected envelope is durable before its acknowledgement is sent, and the reply is recorded in it |
| KeyPackageConsume.Consumer.Replay | internal/app/openmls_keypackage_consume_dev.go:112-135 | Over a found receipt nothing happens unless it matches and is unsettled; then at most one acknowledgement and its record |
| KeyPackageConsume.Consumer.SendAck | internal/app/openmls_keypackage_consume_dev.go:218-221 | What is acknowledged, by the id and relay space sent, is the envelope of the durable receipt |
| KeyPackageConsume.RepeatIsAcceptedExactly | internal/app/openmls_keypackage_consume_dev.go:301-306 | Repeating the request that wrote a receipt is accepted exactly when the envelope named the relay space it was fetched from |
| KeyPackageConsume.FirstAckNamesItsSpace | internal/app/openmls_keypackage_consume_dev.go:218 | A first run acknowledges in the relay space of its receipt exactly when repeating the request is accepted |
| KeyPackageConsume.RecordedAckStaysExactly | internal/app/openmls_keypackage_consume_dev.go:119-129 | A recorded acknowledgement stays on record over whatever later runs do exactly when its time was recorded with it |
| KeyPackageConsume.NoAckAfterASettledSave | internal/app/openmls_keypackage_consume_dev.go:119-129 | Once a settled receipt was saved, no acknowledgement follows for its directory and the receipt is still there |
| KeyPackageConsume.AcknowledgedRunIsTheLast | internal/app/openmls_keypackage_consume_dev.go:119-129 | After a completed run whose acknowledgement the server confirmed with a time, no later run sends another for that directory and the receipt stays acknowledged |
| KeyPackageConsume.FirstRunRecords | internal/app/openmls_keypackage_consume_dev.go:186-228 | What a first run writes, step by step: the fields of the envelope and the request, then the reply to the acknowledgement, and nothing else changes between the two |
| KeyPackageConsume.AcceptedLaterExactly | internal/app/openmls_keypackage_consume_dev.go:301-318 | A receipt accepts exactly the requests for its envelope, device and the relay space the envelope names, whose expected digest and reference are blank or those on record |
| KeyPackageConsume.UntimedAckIsForgotten | internal/app/openmls_keypackage_consume_dev.go:119-129 | The failing run: a receipt acknowledged without a time, repeated when the server answers otherwise, is acknowledged again and ends up unacknowledged |
| KeyPackageConsume.Consumer.StoreArtifact | internal/app/openmls_keypackage_consume_dev.go:165-184 | The artifact is replaced only by one with the digest the caller expects, and a mismatch leaves it alone |
| KeyPackageConsume.Consumer.WriteReceipt | internal/app/openmls_keypackage_consume_dev.go:320-334 | The manifest on disk is the old one or the complete new one |
| KeyPackageConsume.SaveKeepsInv | internal/app/openmls_keypackage_consume_dev.go:214-228 | Saving the next state of a receipt keeps all receipt invariants |
| KeyPackageConsume.AckKeepsInv | internal/app/openmls_keypackage_consume_dev.go:218-221 | Acknowledging an unsettled durable receipt keeps all receipt invariants |
| KeyPackageConsume.ReplayAcceptsWhatFreshAccepts | internal/app/openmls_keypackage_consume_dev.go:301-318 | In every reachable state the replay check of an expected digest accepts exactly what the fresh check accepts |
| KeyPackageConsume.AcknowledgedIsDurable | internal/app/openmls_keypackage_consume_dev.go:214-232 | Whenever an acknowledgement was sent, the matching manifest and an artifact with its recorded digest were durable and still are, unchanged |
| KeyPackageConsume.DirectoryStaysBound | internal/app/openmls_keypackage_consume_dev.go:101-117 | A run for another envelope that maps to an occupied directory is refused and changes neither manifest, artifact nor log |
| WelcomeConsume.RunAll | internal/app/openmls_welcome_lifecycle_dev.go:74-279 | Over any runs, crashes and replies of server and sidecar, receipts are only extended and the join and acknowledgement invariants hold; a directory cut between artifact and manifest is never touched again while its artifact can be seen |
| WelcomeConsume.Consumer.Consume | internal/app/openmls_welcome_lifecycle_dev.go:74-279 | One run adds only a prefix of persist, attempt, join, record, acknowledge, record, or over a joined receipt of acknowledge, record; a completed run returns the receipt on disk, acknowledged exactly when the reply says so, with its state and time, or the acknowledged one it found; an incomplete consume is reported only for an artifact whose manifest is not found or a matching receipt without a recorded join, and both are refused and left alone; every other refusal names what is the case, and a run that stops after a change leaves the lock |
| WelcomeConsume.Consumer.Fresh | internal/app/openmls_welcome_lifecycle_dev.go:157-279 | Without a receipt every step is durable before the next one is taken, and each records what it learned and nothing else |
| WelcomeConsume.Consumer.Replay | internal/app/openmls_welcome_lifecycle_dev.go:130-155 | Over a found receipt the sidecar is never asked to join again; only a joined, unacknowledged one is acknowledged, and the reply is recorded in it |
| WelcomeConsume.Consumer.SendAck | internal/app/openmls_welcome_lifecycle_dev.go:264-267 | What is acknowledged, by the id and relay space sent, is the envelope of the durable receipt, after an answered join |
| WelcomeConsume.RepeatIsAcceptedExactly | internal/app/openmls_welcome_lifecycle_dev.go:348-356 | A receipt belongs to the request that wrote it exactly when the envelope named the relay space it was fetched from |
| WelcomeConsume.FirstAckNamesItsSpace | internal/app/openmls_welcome_lifecycle_dev.go:264 | A first run acknowledges in the relay space of its receipt exactly when the receipt matches its request |
| WelcomeConsume.Consumer.JoinAndRecord | internal/app/openmls_welcome_lifecycle_dev.go:235-262 | The attempt is on disk before the join and the sidecar's answer after it |
| WelcomeConsume.JoinsAtMostOnce | internal/app/openmls_welcome_lifecycle_dev.go:130-155 | For one receipt directory the sidecar is asked to join at most once over any number of runs |
| WelcomeConsume.AckFollowsRecordedJoin | internal/app/openmls_welcome_lifecycle_dev.go:251-267 | Every acknowledgement follows a durable manifest of its envelope, and that manifest records joined exactly when the sidecar's successful answer was not joined=false |
| WelcomeConsume.NoSecondAck | internal/app/openmls_welcome_lifecycle_dev.go:136-149 | A manifest that records the acknowledgement is never followed by another and never changes |
| WelcomeConsume.AcknowledgedRunIsTheLast | internal/app/openmls_welcome_lifecycle_dev.go:136-155 | After a completed run whose acknowledgement the server confirmed, no later run sends another for that directory and the receipt stays acknowledged |
| WelcomeConsume.FirstRunRecords | internal/app/openmls_welcome_lifecycle_dev.go:197-276 | What a first run writes, step by step: the fields of the envelope and the labels, the attempt, the answer of the sidecar, the reply of the server, and nothing else changes in between |
| WelcomeConsume.AcceptedLaterExactly | internal/app/openmls_welcome_lifecycle_dev.go:348-356 | A receipt accepts exactly the requests for its envelope, device, labels and the relay space the envelope names |
| WelcomeConsume.UnreportedJoinIsStillAcknowledged | internal/app/openmls_welcome_lifecycle_dev.go:253-267 | The one family the equivalence excludes: a sidecar answering joined=false makes a completed run acknowledge a manifest that does not say joined |
| WelcomeConsume.SaveKeepsInv | internal/app/openmls_welcome_lifecycle_dev.go:231-262 | Saving the next state of a receipt keeps all receipt invariants |
| WelcomeConsume.JoinKeepsInv | internal/app/openmls_welcome_lifecycle_dev.go:240-249 | The first join for a directory with a receipt keeps all receipt invariants |
| WelcomeConsume.AckKeepsInv | internal/app/openmls_welcome_lifecycle_dev.go:264-267 | Acknowledging after a successful, recorded join keeps all receipt invariants |
| Onboarding.EvaluateMismatch | internal/app/openmls_cypher_mls_mismatch_dev.go:153-299 | The report in full, over input and files: member and group as found, the flags of the receipts that were read and whether they name something else, each reason exactly when it applies, the classification, allowed exactly when aligned, and an error exactly for a missing space or device; a group token left open allows only with an existing state path |
| Onboarding.CompareReceipts | internal/app/openmls_cypher_mls_mismatch_dev.go:199-298 | Reading the receipts step by step, up to an unreadable one, and concluding gives the verdict stated over the files, and shows what was read |
| Onboarding.AlignedMeans | internal/app/openmls_cypher_mls_mismatch_dev.go:256-293 | Aligned means exactly: supported tokens and readable receipts, active member, group present, nothing contradicted, nothing unfinished or impossible |
| Onboarding.AllowedExactly | internal/app/openmls_cypher_mls_mismatch_dev.go:180-293 | Over the fields of input and files alone: aligned and ready exactly for an active member, a group given as present or found at a path that exists, and receipts that are readable, of this device and space, possible and finished; ready asks for both of them acknowledged besides |
| Onboarding.RefusedExactly | internal/app/openmls_cypher_mls_mismatch_dev.go:256-293 | Which input and files give which refusal, in the order the source tests them |
| Onboarding.RefusedByMembership | internal/app/openmls_cypher_mls_mismatch_dev.go:256-293 | A member who is not active, or a group that is not there, is refused under the name of that mismatch |
| Onboarding.GroupIsFoundOut | internal/app/openmls_cypher_mls_mismatch_dev.go:187-196 | The group is present, absent or unknown exactly as its token says, or, when the token leaves it open, as the state path does: an existing one present, a blank or missing one absent, any other unknown |
| Onboarding.IncompleteMeansUnfinished | internal/app/openmls_cypher_mls_mismatch_dev.go:338-345 | Searching the reasons' words for incomplete, not joined or impossible finds exactly the unfinished or impossible receipts; a failing probe alone does not count |
| Onboarding.ReasonsAreSorted | internal/app/openmls_cypher_mls_mismatch_dev.go:338-345 | Which of the reasons' texts the search finds |
| Onboarding.ContainsIncompleteReason | internal/app/openmls_cypher_mls_mismatch_dev.go:338-345 | The loop finds a reason exactly when there is one |
| Onboarding.NormalizeTwice | internal/app/openmls_cypher_mls_mismatch_dev.go:301-332 | Normalizing a normalized member or group state changes nothing |
| Onboarding.ForwardedAgrees | internal/app/workflow_relay_onboarding_dev.go:222-233 | Handing trimmed, normalized values to the inner evaluator does not change its verdict |
| Onboarding.EvaluateWorkflow | internal/app/workflow_relay_onboarding_dev.go:180-336 | The workflow is ready if and only if the member is active, the group present, names agree and both receipts are persisted, joined and acknowledged; partial exactly when aligned but not ready; allowed exactly when every stage allows; and each stage reports what its receipt says |
| Onboarding.AllowedIsReady | internal/app/workflow_relay_onboarding_dev.go:317-327 | The mismatch and the two receipt stages allow together exactly when everything is ready |
| OnboardingEndToEnd.WrittenReceiptsArePossible | internal/app/openmls_cypher_mls_mismatch_dev.go:216-253 | No receipt the consume commands write, wherever they stopped, is unreadable, incomplete, impossible or about another device |
| OnboardingEndToEnd.ReadyExactlyWhenAcknowledged | internal/app/workflow_relay_onboarding_dev.go:257-327 | Over receipts the commands wrote, ready means exactly: both acknowledged, the Welcome joined, names agreeing, member active, group present |
| OnboardingEndToEnd.IntermediateReceiptsAreIncomplete | internal/app/openmls_cypher_mls_mismatch_dev.go:251-271 | With an active member and the group present, a Welcome receipt cut before its recorded join is classified incomplete, and aligned from then on |
| OnboardingEndToEnd.ReadyWasEarned | internal/app/workflow_relay_onboarding_dev.go:317-327 | Ready onboarding implies both acknowledgements were sent and the sidecar reported the join before the Welcome's |
| OnboardingEndToEnd.ConsumeThenEvaluate | internal/app/workflow_relay_onboarding_dev.go:163-177 | Any runs of both commands, cut anywhere, followed by a first evaluation: allowed exactly when ready, and then earned |
| OnboardingReports.Reports.Run | internal/app/workflow_relay_onboarding_dev.go:103-178 | The command evaluates and stores a report once per id and answers from it ever after; a stored report always is the evaluation of the input and files it was made from |
| OnboardingReports.ReplayIsFreshExactly | internal/app/workflow_relay_onboarding_dev.go:149-161 | A stored report that allows says what a fresh one over the receipts as they are now would exactly when the member is active, the group present and the KeyPackage acknowledgement still on record, the last being so whenever its time was recorded; a stored refusal does exactly when member, group, a receipt or one of its flags is still missing |
| OnboardingReports.ReadyThenIsReadyNow | internal/app/workflow_relay_onboarding_dev.go:149-161 | Once ready, and over receipts that the consume commands have only gone on with, only member, group and a KeyPackage acknowledgement taken back can make a workflow not ready |
| OnboardingReports.DerivedIdIgnoresStates | internal/app/workflow_relay_onboarding_dev.go:353-364 | The derived id is the same whatever the member, group and conversation state |
| OnboardingReports.DerivedIdNamesItself | internal/app/workflow_relay_onboarding_dev.go:353-364 | A derived id is a name of its own: the directory of the report is the id |
| OnboardingReports.HashedTextSeparates | internal/app/workflow_relay_onboarding_dev.go:353-364 | The text hashed for a derived id is the same exactly for the same space, device, device and conversation labels and receipt paths, as long as none of these contains the separator |
| OnboardingReports.DisabledMemberIsStillAllowed | internal/app/workflow_relay_onboarding_dev.go:149-161 | The failing input: a workflow once ready is still allowed by its stored report after the member was disabled |
| OnboardingReports.ForgottenAckIsStillAllowed | internal/app/workflow_relay_onboarding_dev.go:149-161 | The other failing input: a workflow ready over an acknowledgement without its time, taken back by a repeated consume, is still allowed by its stored report |
| OnboardingReports.RunCommands | internal/app/workflow_relay_onboarding_dev.go:149-178 | Over any consume and onboarding commands, every answer is the report stored under its id, a report that allows, replayed or not, was earned by both acknowledgements and the join, and the receipts every stored report was made from have only been gone on with |
| TrustEvents.FilteredDraftIsNoDeviceEvent | internal/trust/identity_candidate_events.go:136-162 | No draft that passes the reserved-type filter becomes a device event, although its type is trimmed before and after the filter |
| TrustEvents.UnfilteredDraftCanBeADeviceEvent | internal/trust/provider_events.go:36-64 | The provider builder itself does not filter: a revocation can be drafted through it |
| TrustEvents.ReplayIsLastEvent | internal/trust/trust.go:142-317 | Replaying a history knows exactly the devices with device events, each as its last event says and first seen at its first |
| TrustEvents.ReplayIsDistinct | internal/trust/trust.go:162-193 | A replay knows each device once |
| TrustEvents.ChainedStates | internal/trust/trust.go:158-214 | In a chained history a device is verified, changed or revoked exactly by the type of its last device event |
| TrustEvents.ChainExtends | internal/trust/trust.go:199-210 | An event that starts where the last one of its device ended extends the chain |
| TrustEvents.ReplayOfOther | internal/trust/identity_candidate_events.go:118-125 | Candidate, recovery and provider events do not change the replay |
| TrustStore.Trust.VerifyDevice | internal/trust/trust.go:142-217 | Verification replaces or adds exactly one record and appends the event whose previous state is where the device's last event ended |
| TrustStore.Trust.MarkDeviceChanged | internal/trust/trust.go:219-270 | A key change touches key, fingerprint, state and last time of the known device only, with a chained event; an unknown device changes nothing |
| TrustStore.Trust.RevokeDevice | internal/trust/trust.go:272-317 | A revocation touches state and last time of the known device only, with a chained event; an unknown device changes nothing |
| TrustStore.Trust.LookupDevice | internal/trust/trust.go:127-140 | The loop finds the record of the device, which exists exactly when the device has device events |
| TrustStore.Trust.EvaluateSend | internal/trust/trust.go:319-380 | Strict sending is allowed exactly when the recipient's last device event is a verification; otherwise only a revocation blocks it |
| TrustStore.LoadEvents | internal/trust/trust.go:408-439 | Loading skips blank lines, keeps the order, and fails exactly on a damaged line |
| TrustStore.Trust.Commit | internal/trust/trust.go:195-214 | Saving the store and then appending: whatever fails, the store stays the replay of the events that were due |
| TrustStore.PutReplays | internal/trust/trust.go:162-197 | Changing the record in place is what replaying its event does |
| TrustStore.StoreIsLastEvent | internal/trust/trust.go:127-140 | What the store says of a device is what the last due device event says |
| TrustStore.LostEventShows | internal/trust/trust.go:195-214 | When an event's line is lost, the store differs from the replay of the history unless the event repeats the last one of its device |
| TrustStore.Trust.AppendProviderEvent | internal/trust/provider_events.go:70-81 | One line is appended, or at most part of one; only a reserved type given directly breaks the correspondence with the store |
| TrustStore.Trust.AppendFiltered | internal/trust/identity_candidate_events.go:118-125 | Whatever the draft, no device event is appended through the candidate and recovery doors |
| TrustStore.Trust.OrchestrateRecovery | internal/trust/identity_recovery_orchestration.go:33-67 | Recovery never changes the store or the candidates; it appends one event of the classified type, never a device event nor an observation, exactly when appending is not disabled and the classification is not the clean one or the caller asks for that too |
| TrustStore.RunCommands | internal/trust/trust.go:142-317 | Over any sequence of verify, change, revoke, send, observe, review and recover, each cut anywhere: while no write failed, the store is the replay of the history on disk, states chain, and observation events are as many as stored candidates exactly when no first observation ended before recording its event; candidates stay one per key and only evolve; the history is only appended to |
| TrustStore.OverlapLosesAnUpdate | internal/trust/trust.go:153-214 | Two overlapping device operations: the later save leaves the replay of both events exactly when the first event changed nothing or, for one device, the first time seen does not depend on their order |
| TrustStore.OverlapBreaksTheChain | internal/trust/trust.go:158-214 | Overlapping operations keep the chain of states exactly for different devices or when the second happens to start where the first ended |
| TrustStore.RecoveryIsNoObservation | internal/trust/identity_recovery_events.go:32-96 | Recovery events are never counted as observations |
| IdentityCandidates.NormalizeResult | internal/trust/identity_candidates.go:134-164 | Normalizing keeps the deduplication key and fills in a trimmed candidate in an allowed state |
| IdentityCandidates.SharedKeyExactly | internal/trust/identity_candidates.go:179-189 | Candidates share a key exactly when claimed device, fingerprint and source agree up to white space, as long as none of these contains the separator |
| IdentityCandidates.SeparatorsConfuseKeys | internal/trust/identity_candidates.go:179-189 | The failing family: with the separator in a fingerprint, candidates that claim different devices share a key |
| IdentityCandidates.NormalizeFields | internal/trust/identity_candidates.go:134-164 | What normalizing does to each field, and that it refuses exactly a blank fingerprint or source or a state outside the list |
| IdentityCandidates.ReviewTargets | internal/trust/identity_candidate_review.go:207-213 | A review without an id is about at most one stored candidate |
| IdentityCandidates.ReviewedNoteLaws | internal/trust/identity_candidate_review.go:69-93 | A reviewed note begins with the old one, mentions what the review gave, and the same review adds nothing again |
| IdentityCandidates.NormalIsAccepted | internal/trust/identity_candidates.go:134-164 | A stored candidate is accepted whenever it is normalized again |
| IdentityCandidates.TransitionsAreByRank | internal/trust/identity_candidate_review.go:136-177 | For any two strings, a review step is allowed exactly between known states, blank counting as observed, when it changes the state, does not go back to observed and does not raise the rank, except from a conflict to unverified |
| IdentityCandidates.ReviewStepEvolves | internal/trust/identity_candidate_review.go:69-93 | A review step keeps the identity and the key of its candidate |
| IdentityCandidates.EvolvedTransitive | internal/trust/identity_candidate_review.go:36-177 | Evolution composes: ranks never rise, rejected is final, observed is never entered again |
| IdentityCandidates.DecisionsFollowTrust | internal/trust/identity_mismatch.go:54-150 | Only a match with a verified device does not block sending; promotion is blocked exactly by a revoked or compromised device; reverification is asked for exactly by a changed device or a mismatch with a verified one; and the name of the decision for each case |
| IdentityCandidates.ObservationsAreAppended | internal/trust/identity_candidate_events.go:44-116 | Every observation draft passes the filter and becomes an observation event |
| TrustStore.Trust.AddCandidate | internal/trust/identity_candidates.go:108-132 | A candidate is added exactly when no stored one has its key; otherwise the stored one is returned and nothing changes |
| TrustStore.Trust.ObserveCandidate | internal/trust/identity_candidate_orchestration.go:31-94 | For a known device sending is not blocked exactly when its last device event is a verification and the candidate's fingerprint or material is the device's own; reverification, promotion, previous state and the type of the appended event follow the same facts; a first observation stores one candidate and appends one event, a repeated one changes nothing; while no write failed, the candidates without an event are exactly the first observations that ended before recording it |
| TrustStore.DecidesOn | internal/trust/identity_mismatch.go:66-164 | Classifying against the record of a device in a chained history decides as its last device event and the recorded fingerprint and key say |
| TrustStore.UnreadableStoreLosesTheObservation | internal/trust/identity_candidate_orchestration.go:36-73 | The failing input: when trust.json cannot be read during a first observation, the candidate is stored without an event although no write failed, and observing again does not repair it |
| TrustStore.Trust.UpdateCandidateState | internal/trust/identity_candidate_review.go:36-102 | A review changes state and note of exactly the first matching candidate by an allowed transition; otherwise nothing changes and the refusal says why |
| ConversationJoin.ValidateSafeLabel | internal/protocol/mls/openmls-sidecar/src/labels.rs:9-33 | The checks accept exactly non-empty labels of at most 96 letters, digits, hyphens and underscores, although length is counted in bytes |
| ConversationJoin.SafeLabelsExactly | internal/protocol/mls/openmls-sidecar/src/labels.rs:9-33 | The accepted labels in code points: 1 to 96 of 0-9, A-Z, a-z, hyphen and underscore |
| ConversationJoin.Utf8LengthCounts | internal/protocol/mls/openmls-sidecar/src/labels.rs:18-20 | The length that is bounded counts UTF-8 bytes, one to four for each character |
| ConversationJoin.StagingIsNoLabel | internal/protocol/mls/openmls-sidecar/src/state.rs:1192 | No valid label names a staging directory |
| ConversationJoin.StagingNamesDiffer | internal/protocol/mls/openmls-sidecar/src/state.rs:1192-1193 | Joins of different conversations or processes never share a staging directory |
| ConversationJoin.JoinIsAllOrNothing | internal/protocol/mls/openmls-sidecar/src/state.rs:1336-1347 | Over any joins, a conversation that was not there before is at every moment absent or holds storage that reloads and both summaries, and no join changes it once it is published |
| ConversationJoin.Store.Join | internal/protocol/mls/openmls-sidecar/src/state.rs:1169-1366 | A success publishes a complete conversation under a free name from the stored keys and the Welcome, whose summaries describe the group as reloaded, and reports the group held in memory; any failure or crash leaves every conversation as it was |
| ConversationJoin.Store.StageAndPublish | internal/protocol/mls/openmls-sidecar/src/state.rs:1249-1366 | Success means the storage reloaded, both summaries describe the reloaded group, and the report is of the group in memory |
| ConversationJoin.ReportAgreesWithSummaries | internal/protocol/mls/openmls-sidecar/src/state.rs:1249-1366 | The report of a join agrees with the summaries it published exactly when the group in memory is the group as reloaded |
| ConversationJoin.OthersKeepAway | internal/protocol/mls/openmls-sidecar/src/state.rs:1192-1347 | Through any stretch of the history in which only other joins take steps, a join finds its staging directory as it left it |
| ConversationJoin.Store.Change | internal/protocol/mls/openmls-sidecar/src/state.rs:1192-1347 | Every change of the directory, by this or another process, is a step of the join that owns it and keeps existing conversations |
| ConversationJoin.Store.Interfere | internal/protocol/mls/openmls-sidecar/src/state.rs:1192-1347 | Any steps of other joins keep conversations and this join's staging directory |
| ConversationJoin.Store.Materialize | internal/protocol/mls/openmls-sidecar/src/state.rs:1259-1326 | The staged files describe the group as reloaded from the file, not as held in memory |
| ConversationJoin.Store.Publish | internal/protocol/mls/openmls-sidecar/src/state.rs:1344-1347 | The rename publishes the whole staging directory under a free name or nothing |
| ConversationJoin.RunJoins | internal/protocol/mls/openmls-sidecar/src/state.rs:1169-1360 | Over any joins, failing or cut short, with joins of other processes between any two steps, existing conversations stay as they are |
| ConversationJoin.StepsAreElsewhere | internal/protocol/mls/openmls-sidecar/src/state.rs:1192-1347 | Every step of one join is one that every other join tolerates |
| ConversationJoin.HistoryExtends | internal/protocol/mls/openmls-sidecar/src/state.rs:1344-1347 | A sound step that keeps existing conversations extends the history |
| LocalTrustBinding.AppendStableUnique | internal/trust/local_trust_binding_v1.go:285-299 | The two loops yield the trimmed non-empty values in order of first occurrence |
| LocalTrustBinding.StableUniqueIsStable | internal/trust/local_trust_binding_v1.go:285-299 | The result has no duplicates and exactly the trimmed non-empty values |
| LocalTrustBinding.StablePrefixStays | internal/trust/local_trust_binding_v1.go:285-299 | Appending to a clean list keeps it as a prefix |
| LocalTrustBinding.DifferencesExactly | internal/trust/local_trust_binding_v1.go:113-117 | A change contradicts a part exactly when both name something there and not the same, up to white space |
| LocalTrustBinding.ChangedStateIsFirstOther | internal/trust/local_trust_binding_v1.go:119-136 | A change leads to the first of the warning states it asks for, in the order of the tests, that the binding is not in already |
| LocalTrustBinding.WarnedExactly | internal/trust/local_trust_binding_v1.go:113-143 | The warnings after a change are exactly the old ones and those of its differences |
| LocalTrustBinding.HashedTextSeparates | internal/trust/local_trust_binding_v1.go:248-262 | Two pieces of evidence hash the same text exactly when they agree in everything but times and event ids, as long as no field contains the separator |
| LocalTrustBinding.TrimEvidenceFields | internal/trust/local_trust_binding_v1.go:206-246 | Every field is trimmed into its own place |
| LocalTrustBinding.NewCandidate | internal/trust/local_trust_binding_v1.go:65-85 | A candidate is made exactly from complete evidence and starts with clean warnings |
| LocalTrustBinding.Promote | internal/trust/local_trust_binding_v1.go:87-109 | Promotion succeeds exactly on a candidate with the schema, an event id and a method |
| LocalTrustBinding.ApplyChange | internal/trust/local_trust_binding_v1.go:111-144 | A change leaves evidence and fingerprint and adds the warnings of exactly the contradicted parts |
| LocalTrustBinding.ChangesAreLoud | internal/trust/local_trust_binding_v1.go:115-136 | A different signer, device, key or account always leaves a changed state; a different relay space alone never does |
| LocalTrustBinding.ChangeSettlesExactly | internal/trust/local_trust_binding_v1.go:119-136 | Applying the same change again leaves the state alone exactly when its differences ask for at most one warning state; otherwise it flips between two for ever |
| LocalTrustBinding.WarningsSettle | internal/trust/local_trust_binding_v1.go:141 | Applying the same change again never adds warnings |
| LocalTrustBinding.RunChain | internal/trust/local_trust_binding_v1.go:87-168 | Along any chain evidence and fingerprint stay fixed, warnings stay clean with the old list as a prefix, and at most one promotion succeeds |
| MessageInbox.Receive | internal/app/message_wrappers_dev.go:210-293 | Over whatever can be written, opened and acknowledged: an envelope among the first handled is opened exactly when it is supported, was written and opened, failed exactly when supported and one of the two failed, and acknowledged exactly when opened and asked for, with the server's answer counted; the loop goes in order, opens at most the limit, stops early only at it, and labels opened messages in order |
| MessageInbox.HandlesEach | internal/app/message_wrappers_dev.go:215-293 | Each index below the counters was handled as its answers say |
| MessageInbox.IndicesInLog | internal/app/message_wrappers_dev.go:215-293 | What the lists of opened and acknowledged indices say about the log |
| MessageInbox.AcksAreSingleAndOpened | internal/app/message_wrappers_dev.go:268-283 | No envelope is acknowledged twice or without having been opened before |
| MessageInbox.HandledOnce | internal/app/message_wrappers_dev.go:215-259 | No envelope is handled twice |
| JsonEscape.EscapeIsPerCharacter | internal/protocol/mls/openmls-sidecar/src/envelope.rs:72-79 | Five whole-string replacements are one replacement of each character |
| JsonEscape.DecodeInvertsEscapeExactly | internal/protocol/mls/openmls-sidecar/src/envelope.rs:72-79 | A conforming decoder gives the string back exactly when it holds no control character but newline, carriage return and tab; otherwise it rejects the escaped string |
| JsonEscape.AnyEscapeIsRead | internal/protocol/mls/openmls-sidecar/src/envelope.rs:72-79 | The decoder of the law above reads every character written as one or two escapes by code unit, as a conforming decoder must |

## Left out

- KeyPackageSidecar.Sidecar.NextAvailableSequence: sequences are unbounded, so the overflow of the 64-bit counter is not modelled.
- GenerationIds.DirectoryNamesNeverCollide: file names are compared as strings; file systems that fold case are not modelled.
- KeyPackageSidecar.Sidecar.SaveProviderAtomic: the rename is taken as durable; reordering of unsynced writes by a power failure is not modelled.
- KeyPackageSidecar.Sidecar.GenerateKeypackage: the validation of the request id and the exit codes of the command handlers belong to argument handling and are not modelled.
- KeyPackageSidecar.Sidecar.ValidateRecordFiles: record paths are modelled relative to the generations directory; paths to files elsewhere are all the same invalid path.
- KeyPackageConsume.Consumer.Consume: path strings and the command name stored in receipts, and an unreadable or undecodable manifest, are covered only as input failures.
- WelcomeConsume.Consumer.Consume: the sidecar's path hints copied into the receipt are not modelled.
- Onboarding.EvaluateMismatch: the texts of file errors are one reason; the default conversation path the command derives is an input.
- OnboardingReports.Reports.Run: a stored report that cannot be read or decoded is an input failure, and the report root is one directory.
- TrustStore.RunCommands: commands are taken one at a time although the store has no lock; what two overlapping device operations lose is stated by OverlapLosesAnUpdate and OverlapBreaksTheChain.
- TrustStore.LoadEvents: the line-length limit of the scanner and the JSON decoder are not modelled; an undecodable line is a damaged one.
- TrustStore.Trust.Commit: a line appended behind a damaged one counts as a line of its own, although on disk it would join it; loading fails in both cases.
- TrustStore.Trust.ObserveCandidate: the text of history notes is an input.
- TrustStore.Trust.OrchestrateRecovery: the classification of the local files is an input; its table is a list of cases.
- ConversationJoin.Store.Join: conversations created in place by `conversation-create` count as present from the start; creating one at the same time under the same name is not modelled.
- ConversationJoin.JoinIsAllOrNothing: only joins take steps; adding members and protecting or opening messages later rewrite a conversation's provider storage and are not modelled.
- KeyPackageSidecar.Sidecar.Interfere: of processes other than those whose commands are run, only the lock and the consistency and growth of what they write is assumed, which is less than their own contracts ensure.
- MessageInbox.Receive: message plaintext and the printed lines are not modelled.
- JsonEscape.DecodeInvertsEscapeExactly: strings are sequences of Unicode scalar values; UTF-8 is not modelled.
- The export of a public bundle itself: only what it may leave behind is modelled, as the initial state.
- The inventory, path-policy, write-policy and schema reports, the gate models and the provider trust tables: flat classification tables.
- Command-line flags, HTTP, process execution and printing.
- The lists of non-claims and fields that are always false, apart from those the evaluators read.
- The stub message path and the copies under `research/`.
