/** The consume command for a delivered KeyPackage: persist the artifact and a receipt, then
    acknowledge (openmls_keypackage_consume_dev.go).

    Every step may fail or be the last one of its process; the server's replies are arbitrary. */
module KeyPackageConsume {
  import opened Outcomes
  import opened Text
  import opened Receipts

  const RECEIPT_SCHEMA := "carbonstack-keypackage-consume-receipt/v0"

  datatype Receipt = Receipt(
    schemaVersion: string, classification: string, envelopeId: string, relaySpaceId: string,
    senderDeviceId: string, recipientDeviceId: string, contentType: string, protocolVersion: string,
    deliveryStateBeforeAck: string, payloadSha256: string, payloadSize: int, artifactSha256: string,
    artifactSize: int, expectedKeyPackageRef: string, keyPackageRefVerified: bool,
    consumedAt: string, ackedAt: string, ackDeliveryState: string, localReceiptPersisted: bool,
    keyPackageAcked: bool, addMemberRun: bool, welcomeSubmitted: bool,
    trustOrCandidateStateMutated: bool, publicDirectoryMutated: bool)

  datatype TempReceipt = TornReceipt | WholeReceipt(receipt: Receipt)

  /** One receipt directory: `keypackage.bin`, `receipt.json` and their temporary files. */
  datatype ReceiptDir = ReceiptDir(
    artifactTemp: Option<Bytes>, artifact: Option<Bytes>, manifestTemp: Option<TempReceipt>,
    manifest: Option<Receipt>)

  const EMPTY_DIR := ReceiptDir(None, None, None, None)

  type Root = map<string, ReceiptDir>

  function DirAt(root: Root, name: string): ReceiptDir {
    if name in root then root[name] else EMPTY_DIR
  }

  /** What happened, in order: a receipt was saved in a directory, or an acknowledgement was sent for an
      envelope while its directory held `held`. */
  datatype Event =
    | Saved(directory: string, receipt: Receipt)
    | Acked(directory: string, relaySpaceId: string, envelopeId: string, held: ReceiptDir)

  datatype Request = Request(
    relaySpaceId: string, envelopeId: string, expectedPayloadSha256: string, expectedKeyPackageRef: string)

  // ---- Receipts ----

  /** The acknowledgement is on record: the command will not send another. */
  predicate Settled(r: Receipt) {
    r.ackedAt != "" && r.keyPackageAcked
  }

  /** Everything but the acknowledgement fields. */
  function Identity(r: Receipt): Receipt {
    r.(classification := "", ackedAt := "", ackDeliveryState := "", keyPackageAcked := false)
  }

  function WithAck(r: Receipt, classification: string, reply: AckReply): Receipt {
    r.(classification := classification, ackedAt := reply.acknowledgedAt,
       ackDeliveryState := reply.deliveryState, keyPackageAcked := reply.deliveryState == ACKNOWLEDGED)
  }

  /** The check of an expected digest on a fresh artifact. */
  predicate FreshExpectationMet(expected: string, artifactSha256: string) {
    TrimSpace(expected) == "" || artifactSha256 == TrimSpace(expected)
  }

  /** The check of an expected digest on a stored receipt. */
  predicate ReplayExpectationMet(expected: string, r: Receipt) {
    TrimSpace(expected) == "" || r.artifactSha256 == TrimSpace(expected) || r.payloadSha256 == TrimSpace(expected)
  }

  /** `validateExistingKeyPackageConsumeReceipt` */
  predicate ReceiptMatches(r: Receipt, request: Request, deviceId: string) {
    && r.envelopeId == request.envelopeId
    && r.relaySpaceId == request.relaySpaceId
    && r.recipientDeviceId == deviceId
    && ReplayExpectationMet(request.expectedPayloadSha256, r)
    && (TrimSpace(request.expectedKeyPackageRef) == "" || r.expectedKeyPackageRef == ""
        || r.expectedKeyPackageRef == TrimSpace(request.expectedKeyPackageRef))
  }

  function NewReceipt(lib: Library, e: Envelope, payload: Bytes, request: Request, now: string): Receipt {
    Receipt(RECEIPT_SCHEMA, "consumed_and_receipt_persisted_before_ack", e.envelopeId, e.relaySpaceId,
            e.senderDeviceId, e.recipientDeviceId, e.contentType, e.protocolVersion, e.deliveryState,
            e.payloadSha256, e.payloadSize, lib.digest(payload), |payload|,
            TrimSpace(request.expectedKeyPackageRef), false, now, "", "", true, false, false, false, false, false)
  }

  // ---- What the receipts say ----

  /** The receipt describes the envelope, its artifact and the request, and claims nothing else. */
  predicate RecordsEnvelope(lib: Library, e: Envelope, payload: Bytes, request: Request, r: Receipt) {
    && r.schemaVersion == "carbonstack-keypackage-consume-receipt/v0"
    && r.envelopeId == e.envelopeId && r.relaySpaceId == e.relaySpaceId
    && r.senderDeviceId == e.senderDeviceId && r.recipientDeviceId == e.recipientDeviceId
    && r.contentType == e.contentType && r.protocolVersion == e.protocolVersion
    && r.deliveryStateBeforeAck == e.deliveryState
    && r.payloadSha256 == e.payloadSha256 && r.payloadSize == e.payloadSize
    && r.artifactSha256 == lib.digest(payload) && r.artifactSize == |payload|
    && r.expectedKeyPackageRef == TrimSpace(request.expectedKeyPackageRef) && !r.keyPackageRefVerified
    && r.localReceiptPersisted && !r.addMemberRun && !r.welcomeSubmitted
    && !r.trustOrCandidateStateMutated && !r.publicDirectoryMutated
  }

  lemma FirstReceiptRecords(lib: Library, e: Envelope, payload: Bytes, request: Request, now: string)
    ensures var r := NewReceipt(lib, e, payload, request, now);
            && RecordsEnvelope(lib, e, payload, request, r) && r.consumedAt == now
            && r.classification == "consumed_and_receipt_persisted_before_ack"
            && r.ackedAt == "" && r.ackDeliveryState == "" && !r.keyPackageAcked
  {
  }

  /** `after` records the server's answer: acknowledged exactly when its delivery state says so. */
  predicate RecordsAck(before: Receipt, after: Receipt, classification: string, reply: AckReply) {
    && (after.keyPackageAcked <==> reply.deliveryState == "acknowledged")
    && after.ackedAt == reply.acknowledgedAt && after.ackDeliveryState == reply.deliveryState
    && after.classification == classification
    && before == after.(classification := before.classification, keyPackageAcked := before.keyPackageAcked,
                        ackedAt := before.ackedAt, ackDeliveryState := before.ackDeliveryState)
  }

  lemma AckIsRecorded(r: Receipt, classification: string, reply: AckReply)
    ensures RecordsAck(r, WithAck(r, classification, reply), classification, reply)
  {
  }

  // ---- What every reachable receipt root satisfies ----

  /** A receipt is backed by its artifact, sits in the directory of its envelope, and claims nothing
      the command does not do. */
  predicate Backed(lib: Library, deviceId: string, name: string, artifact: Option<Bytes>, r: Receipt) {
    && artifact.Some?
    && lib.digest(artifact.value) == r.artifactSha256 && |artifact.value| == r.artifactSize
    && (r.payloadSha256 == "" || r.payloadSha256 == r.artifactSha256)
    && r.schemaVersion == RECEIPT_SCHEMA
    && SafeReceiptId(lib, r.envelopeId) == name
    && r.recipientDeviceId == deviceId
    && r.localReceiptPersisted
    && !r.addMemberRun && !r.welcomeSubmitted && !r.trustOrCandidateStateMutated && !r.publicDirectoryMutated
  }

  predicate AllBacked(lib: Library, deviceId: string, root: Root) {
    forall name | name in root && root[name].manifest.Some? ::
      Backed(lib, deviceId, name, root[name].artifact, root[name].manifest.value)
  }

  /** Each acknowledgement was sent for the envelope of a durable receipt with a durable artifact, and
      neither has been lost or replaced since. */
  predicate AcksJustified(lib: Library, deviceId: string, root: Root, log: seq<Event>) {
    forall k | 0 <= k < |log| && log[k].Acked? ::
      var e := log[k];
      && e.held.manifest.Some? && e.held.manifest.value.envelopeId == e.envelopeId
      && Backed(lib, deviceId, e.directory, e.held.artifact, e.held.manifest.value)
      && Extends(e.held, DirAt(root, e.directory))
  }

  /** A receipt on record stays, with its artifact; only its acknowledgement fields may change, and
      those only until it is settled. */
  predicate Extends(before: ReceiptDir, after: ReceiptDir) {
    before.manifest.Some? ==>
      && after.manifest.Some? && after.artifact == before.artifact
      && Identity(after.manifest.value) == Identity(before.manifest.value)
      && (Settled(before.manifest.value) ==> after.manifest == before.manifest)
  }

  predicate NoAckAfterSettled(root: Root, log: seq<Event>) {
    && (forall j, k | 0 <= j < k < |log| && log[j].Saved? && Settled(log[j].receipt) && log[k].Acked? ::
          log[k].directory != log[j].directory)
    && (forall j | 0 <= j < |log| && log[j].Saved? && Settled(log[j].receipt) ::
          DirAt(root, log[j].directory).manifest == Some(log[j].receipt))
  }

  predicate AckSent(log: seq<Event>, name: string) {
    exists k | 0 <= k < |log| :: log[k].Acked? && log[k].directory == name
  }

  /** A receipt records an acknowledgement only after one was sent. */
  predicate RecordedAcksWereSent(root: Root, log: seq<Event>) {
    forall name | name in root && root[name].manifest.Some? && root[name].manifest.value.keyPackageAcked :: AckSent(log, name)
  }

  predicate Inv(lib: Library, deviceId: string, root: Root, log: seq<Event>) {
    && AllBacked(lib, deviceId, root)
    && AcksJustified(lib, deviceId, root, log)
    && NoAckAfterSettled(root, log)
    && RecordedAcksWereSent(root, log)
  }

  predicate RootExtends(before: Root, after: Root) {
    forall name | name in before :: name in after && Extends(before[name], after[name])
  }

  /** An artifact without a receipt beside it: what a run leaves that stops between the two. */
  predicate Stuck(dir: ReceiptDir) {
    dir.artifact.Some? && dir.manifest.None?
  }

  /** The command finds an artifact and not the manifest. */
  predicate LooksIncomplete(dir: ReceiptDir, stat: Stat) {
    dir.artifact.Some? && stat.artifact && (dir.manifest.None? || !stat.manifest)
  }

  // ---- The steps that matter ----

  lemma SaveKeepsInv(lib: Library, deviceId: string, root: Root, log: seq<Event>, name: string, after: ReceiptDir, r: Receipt)
    requires Inv(lib, deviceId, root, log)
    requires after.manifest == Some(r) && after.artifact == DirAt(root, name).artifact
    requires Backed(lib, deviceId, name, after.artifact, r)
    requires var old_ := DirAt(root, name).manifest;
             old_.Some? ==> Identity(old_.value) == Identity(r) && !Settled(old_.value)
    requires r.keyPackageAcked ==> AckSent(log, name)
    ensures Inv(lib, deviceId, root[name := after], log + [Saved(name, r)])
    ensures RootExtends(root, root[name := after])
  {
    hide AckSent, Backed, Identity;
    AckSentStays(log, log + [Saved(name, r)]);
  }

  lemma AckKeepsInv(lib: Library, deviceId: string, root: Root, log: seq<Event>, name: string, relaySpaceId: string, envelopeId: string)
    requires Inv(lib, deviceId, root, log)
    requires name in root && root[name].manifest.Some? && !Settled(root[name].manifest.value)
    requires root[name].manifest.value.envelopeId == envelopeId
    ensures Inv(lib, deviceId, root, log + [Acked(name, relaySpaceId, envelopeId, root[name])])
  {
    hide AckSent, Identity;
    AckSentStays(log, log + [Acked(name, relaySpaceId, envelopeId, root[name])]);
  }

  /** Files that are not the receipt, and the artifact as long as there is no receipt. */
  lemma PreparationKeepsInv(lib: Library, deviceId: string, root: Root, log: seq<Event>, name: string, after: ReceiptDir)
    requires Inv(lib, deviceId, root, log)
    requires after.manifest == DirAt(root, name).manifest
    requires after.manifest.Some? ==> after.artifact == DirAt(root, name).artifact
    ensures Inv(lib, deviceId, root[name := after], log)
    ensures RootExtends(root, root[name := after])
  {
  }

  lemma AckSentStays(log: seq<Event>, more: seq<Event>)
    requires log <= more
    ensures forall name :: AckSent(log, name) ==> AckSent(more, name)
  {
    forall name | AckSent(log, name)
      ensures AckSent(more, name)
    {
      var k :| 0 <= k < |log| && log[k].Acked? && log[k].directory == name;
      assert more[k] == log[k];
    }
  }

  lemma RootExtendsItself(root: Root)
    ensures RootExtends(root, root)
  {
  }

  lemma RootExtendsTransitive(a: Root, b: Root, c: Root)
    requires RootExtends(a, b) && RootExtends(b, c)
    ensures RootExtends(a, c)
  {
  }

  /** A stored receipt accepts exactly the expected digests that its artifact accepted when fresh. */
  lemma ReplayAcceptsWhatFreshAccepts(lib: Library, deviceId: string, root: Root, log: seq<Event>, name: string, expected: string)
    requires Inv(lib, deviceId, root, log) && name in root && root[name].manifest.Some?
    ensures root[name].artifact.Some?
    ensures ReplayExpectationMet(expected, root[name].manifest.value)
            <==> FreshExpectationMet(expected, lib.digest(root[name].artifact.value))
  {
  }

  // ---- The command ----

  class Consumer {
    const lib: Library
    const deviceId: string
    var root: Root
    var locked: bool
    ghost var log: seq<Event>

    ghost predicate Valid()
      reads this
    {
      Inv(lib, deviceId, root, log)
    }

    constructor (lib: Library, deviceId: string)
      ensures Valid() && this.lib == lib && this.deviceId == deviceId && root == map[] && log == [] && !locked
    {
      this.lib, this.deviceId, this.root, this.locked, this.log := lib, deviceId, map[], false, [];
    }

    method Prepare(name: string, dir: ReceiptDir)
      requires Valid() && dir.manifest == DirAt(root, name).manifest
      requires dir.manifest.Some? ==> dir.artifact == DirAt(root, name).artifact
      modifies this
      ensures Valid() && root == old(root)[name := dir] && RootExtends(old(root), root)
      ensures log == old(log) && locked == old(locked)
    {
      PreparationKeepsInv(lib, deviceId, root, log, name, dir);
      root := root[name := dir];
    }

    method WriteTemporary(name: string, r: Receipt) returns (o: Outcome<(), ConsumeError>)
      requires Valid()
      modifies this
      ensures Valid() && RootExtends(old(root), root) && log == old(log) && locked == old(locked)
      ensures forall other :: other != name ==> DirAt(root, other) == DirAt(old(root), other)
      ensures DirAt(root, name) == DirAt(old(root), name).(manifestTemp := DirAt(root, name).manifestTemp)
      ensures o.Done? ==> DirAt(root, name).manifestTemp == Some(WholeReceipt(r))
      ensures o.Refused? ==> o.error == IoError
    {
      hide Inv, RootExtends;
      ghost var before := root;
      RootExtendsItself(root);
      var _ :- Io(IoError);
      Prepare(name, DirAt(root, name).(manifestTemp := Some(TornReceipt)));
      ghost var torn := root;
      var _ :- Io(IoError);
      Prepare(name, DirAt(root, name).(manifestTemp := Some(WholeReceipt(r))));
      RootExtendsTransitive(before, torn, root);
      return Done(());
    }

    /** Writes `receipt.json.tmp` and renames it over `receipt.json`. */
    method WriteReceipt(name: string, r: Receipt) returns (o: Outcome<(), ConsumeError>)
      requires Valid() && Backed(lib, deviceId, name, DirAt(root, name).artifact, r)
      requires DirAt(root, name).manifest.Some? ==>
                 Identity(DirAt(root, name).manifest.value) == Identity(r) && !Settled(DirAt(root, name).manifest.value)
      requires r.keyPackageAcked ==> AckSent(log, name)
      modifies this
      ensures Valid() && RootExtends(old(root), root) && locked == old(locked)
      ensures log == old(log) || log == old(log) + [Saved(name, r)]
      ensures forall other :: other != name ==> DirAt(root, other) == DirAt(old(root), other)
      ensures DirAt(root, name).artifact == DirAt(old(root), name).artifact
      ensures DirAt(root, name).manifest == if log == old(log) then DirAt(old(root), name).manifest else Some(r)
      ensures o.Done? ==> log != old(log) && DirAt(root, name).manifestTemp.None?
      ensures o.Refused? ==> o.error == IoError && log == old(log)
    {
      hide Inv, Backed, RootExtends, Identity;
      ghost var before := root;
      var _ :- WriteTemporary(name, r);
      ghost var whole := root;
      var _ :- Io(IoError);
      var dir := DirAt(root, name);
      var after := dir.(manifestTemp := None, manifest := Some(dir.manifestTemp.value.receipt));
      SaveKeepsInv(lib, deviceId, root, log, name, after, r);
      root, log := root[name := after], log + [Saved(name, r)];
      RootExtendsTransitive(before, whole, root);
      if * {
        return Crashed;
      }
      return Done(());
    }

    /** Asks the server to acknowledge an envelope, which has to be that of the receipt in this directory. */
    method SendAck(name: string, relaySpaceId: string, envelopeId: string, reply: Option<AckReply>)
        returns (o: Outcome<AckReply, ConsumeError>)
      requires Valid() && name in root && root[name].manifest.Some? && !Settled(root[name].manifest.value)
      requires root[name].manifest.value.envelopeId == envelopeId
      modifies this
      ensures Valid() && root == old(root) && locked == old(locked) && old(log) <= log
      ensures log == old(log) || log == old(log) + [Acked(name, relaySpaceId, envelopeId, root[name])]
      ensures o.Done? ==> reply == Some(o.value) && log != old(log)
      ensures log != old(log) ==> AckSent(log, name)
      ensures o.Refused? ==> o.error == AckFailed && reply.None?
    {
      if * {
        return Crashed;
      }
      AckKeepsInv(lib, deviceId, root, log, name, relaySpaceId, envelopeId);
      log := log + [Acked(name, relaySpaceId, envelopeId, root[name])];
      assert log[|log| - 1].Acked? && log[|log| - 1].directory == name;
      if * {
        return Crashed;
      }
      if reply.None? {
        return Refused(AckFailed);
      }
      return Done(reply.value);
    }

    /** A run that finds a receipt. */
    method Replay(name: string, request: Request, reply: Option<AckReply>) returns (o: Outcome<Receipt, ConsumeError>)
      requires Valid() && name in root && root[name].manifest.Some?
      modifies this
      ensures old(log) <= log
      ensures Valid() && RootExtends(old(root), root) && locked == old(locked)
      ensures forall other :: other != name ==> DirAt(root, other) == DirAt(old(root), other)
      ensures DirAt(root, name).artifact == DirAt(old(root), name).artifact
      ensures ReplayLog(old(log), log, name, old(root[name]), request, deviceId, reply, o)
      ensures log == old(log) ==> DirAt(root, name).manifest == old(root[name]).manifest
      ensures o.Done? && log != old(log) ==> DirAt(root, name).manifest == Some(o.value)
      ensures o.Refused? ==> o.error in {ReceiptConflict, AckFailed, IoError} && (o.error == AckFailed ==> reply.None?)
      ensures o == Refused(ReceiptConflict) <==> !ReceiptMatches(old(root[name]).manifest.value, request, deviceId)
    {
      hide Inv, RootExtends, Backed, ReplayExpectationMet, Identity;
      RootExtendsItself(root);
      var receipt := root[name].manifest.value;
      if !ReceiptMatches(receipt, request, deviceId) {
        return Refused(ReceiptConflict);
      }
      if receipt.ackedAt == "" || !receipt.keyPackageAcked {
        var answered :- SendAck(name, request.relaySpaceId, request.envelopeId, reply);
        var updated := WithAck(receipt, "ack_retried_after_persisted_receipt", answered);
        SameIdentityWithAck(receipt, "ack_retried_after_persisted_receipt", answered);
        StaysBacked(lib, deviceId, root, log, name, updated);
        var _ :- WriteReceipt(name, updated);
        return Done(updated);
      }
      return Done(receipt.(classification := "already_consumed"));
    }

    /** Fetches, stores and records the artifact of the requested envelope. */
    method PersistReceipt(name: string, request: Request, inbox: Option<seq<Envelope>>, now: string)
        returns (o: Outcome<Receipt, ConsumeError>, selectedId: string)
      requires Valid() && DirAt(root, name).manifest.None? && name == SafeReceiptId(lib, request.envelopeId)
      modifies this
      ensures Valid() && RootExtends(old(root), root) && locked == old(locked)
      ensures forall other :: other != name ==> DirAt(root, other) == DirAt(old(root), other)
      ensures log == old(log)
              || (&& |log| == |old(log)| + 1 && old(log) <= log
                  && log[|old(log)|].Saved? && log[|old(log)|].directory == name
                  && inbox.Some? && FreshReceipt(lib, deviceId, request, inbox.value, log[|old(log)|].receipt)
                  && log[|old(log)|].receipt.consumedAt == now)
      ensures o.Done? ==> log == old(log) + [Saved(name, o.value)] && DirAt(root, name).manifest == Some(o.value)
                          && o.value.envelopeId == request.envelopeId == selectedId && !Settled(o.value)
      ensures o.Refused? ==> log == old(log)
                             && o.error !in {ReceiptConflict, LockUnavailable, IncompleteConsume, MissingArgument,
                                             UnsupportedReceiptSchema, JoinFailed, AckFailed}
                             && RefusalHolds(o.error, lib, inbox, CONTENT_TYPE_KEYPACKAGE, request.envelopeId, deviceId,
                                             request.expectedPayloadSha256, true, true)
    {
      hide Inv, RootExtends, Backed, ReplayLog, FreshExpectationMet, ArtifactOf;
      RootExtendsItself(root);
      ghost var before := root;
      selectedId := "";
      var fetched :- FetchArtifact(lib, inbox, CONTENT_TYPE_KEYPACKAGE, request.envelopeId, deviceId, request.expectedPayloadSha256);
      var (e, payload) := fetched;
      selectedId := e.envelopeId;
      var _ :- StoreArtifact(name, payload, request.expectedPayloadSha256);
      ghost var stored := root;
      var receipt := NewReceipt(lib, e, payload, request, now);
      FreshIsBacked(lib, deviceId, name, e, payload, request, now);
      var written := WriteReceipt(name, receipt);
      RootExtendsTransitive(before, stored, root);
      var _ :- written;
      return Done(receipt), selectedId;
    }

    /** A run that finds no receipt. */
    method Fresh(name: string, request: Request, inbox: Option<seq<Envelope>>, reply: Option<AckReply>, now: string)
        returns (o: Outcome<Receipt, ConsumeError>)
      requires Valid() && DirAt(root, name).manifest.None? && name == SafeReceiptId(lib, request.envelopeId)
      modifies this
      ensures old(log) <= log
      ensures Valid() && RootExtends(old(root), root) && locked == old(locked)
      ensures forall other :: other != name ==> DirAt(root, other) == DirAt(old(root), other)
      ensures FreshLog(lib, old(log), log, name, request, deviceId, inbox, reply, now, o)
      ensures o.Done? ==> log != old(log) && DirAt(root, name).manifest == Some(o.value)
      ensures o.Refused? ==> o.error !in {ReceiptConflict, LockUnavailable, IncompleteConsume, MissingArgument,
                                          UnsupportedReceiptSchema, JoinFailed}
                             && RefusalHolds(o.error, lib, inbox, CONTENT_TYPE_KEYPACKAGE, request.envelopeId, deviceId,
                                             request.expectedPayloadSha256, true, reply.Some?)
    {
      hide Inv, RootExtends, Backed, ReplayLog, FreshReceipt, Settled, Identity;
      ghost var before := root;
      var persisted, selectedId := PersistReceipt(name, request, inbox, now);
      var receipt :- persisted;
      ghost var first := root;
      var answered :- SendAck(name, request.relaySpaceId, selectedId, reply);
      var updated := WithAck(receipt, "consumed_and_acked", answered);
      SameIdentityWithAck(receipt, "consumed_and_acked", answered);
      StaysBacked(lib, deviceId, root, log, name, updated);
      var written := WriteReceipt(name, updated);
      RootExtendsTransitive(before, first, root);
      var _ :- written;
      return Done(updated);
    }

    /** Writes the temporary artifact, checks the digest the caller expects, and renames it into place. */
    method StoreArtifact(name: string, payload: Bytes, expected: string) returns (o: Outcome<(), ConsumeError>)
      requires Valid() && DirAt(root, name).manifest.None?
      modifies this
      ensures Valid() && RootExtends(old(root), root) && log == old(log) && locked == old(locked)
      ensures forall other :: other != name ==> DirAt(root, other) == DirAt(old(root), other)
      ensures DirAt(root, name).manifest.None?
      ensures o.Done? || o == Refused(ExpectedPayloadMismatch) ==> DirAt(root, name).artifactTemp.None?
      ensures o.Done? ==> DirAt(root, name).artifact == Some(payload) && FreshExpectationMet(expected, lib.digest(payload))
      ensures o.Refused? ==> o.error in {IoError, ExpectedPayloadMismatch} && DirAt(root, name).artifact == DirAt(old(root), name).artifact
      ensures o == Refused(ExpectedPayloadMismatch) ==> TrimSpace(expected) !in {"", lib.digest(payload)}
    {
      hide Inv, RootExtends;
      RootExtendsItself(root);
      ghost var before := root;
      var torn: Bytes := *;
      Prepare(name, DirAt(root, name).(artifactTemp := Some(torn)));
      ghost var half := root;
      var _ :- Io(IoError);
      Prepare(name, DirAt(root, name).(artifactTemp := Some(payload)));
      RootExtendsTransitive(before, half, root);
      var _ :- Io(IoError);
      var artifactSha256 := lib.digest(DirAt(root, name).artifactTemp.value);
      ghost var whole := root;
      if TrimSpace(expected) != "" && artifactSha256 != TrimSpace(expected) {
        Prepare(name, DirAt(root, name).(artifactTemp := None));
        RootExtendsTransitive(before, whole, root);
        return Refused(ExpectedPayloadMismatch);
      }
      var _ :- Io(IoError);
      var dir := DirAt(root, name);
      Prepare(name, dir.(artifactTemp := None, artifact := dir.artifactTemp));
      RootExtendsTransitive(before, whole, root);
      if * {
        return Crashed;
      }
      return Done(());
    }

    /** `openmls-relay-keypackage-consume-dev`. `inbox` and `reply` are what the server would answer. */
    method Consume(request: Request, inbox: Option<seq<Envelope>>, reply: Option<AckReply>, stat: Stat, now: string)
        returns (o: Outcome<Receipt, ConsumeError>)
      requires Valid()
      modifies this
      ensures old(log) <= log
      ensures Valid() && RootExtends(old(root), root)
      ensures var name := SafeReceiptId(lib, request.envelopeId);
              && (forall other :: other != name ==> DirAt(root, other) == DirAt(old(root), other))
              && (if DirAt(old(root), name).manifest.Some? then
                    ReplayLog(old(log), log, name, DirAt(old(root), name), request, deviceId, reply, o)
                  else FreshLog(lib, old(log), log, name, request, deviceId, inbox, reply, now, o))
              && (o.Done? ==>
                    DirAt(root, name).manifest == if log == old(log) then DirAt(old(root), name).manifest else Some(o.value))
      ensures o.Done? && log != old(log) ==>
                && reply.Some? && (o.value.keyPackageAcked <==> reply.value.deliveryState == "acknowledged")
                && o.value.ackedAt == reply.value.acknowledgedAt && o.value.ackDeliveryState == reply.value.deliveryState
      ensures o.Done? && log == old(log) ==>
                var held := DirAt(old(root), SafeReceiptId(lib, request.envelopeId)).manifest;
                && held.Some? && held.value.keyPackageAcked && held.value.ackedAt != ""
                && o.value == held.value.(classification := "already_consumed")
      ensures o == Refused(MissingArgument) <==> TrimSpace(request.relaySpaceId) == "" || TrimSpace(request.envelopeId) == ""
      ensures old(locked) ==> locked && !o.Done? && root == old(root) && log == old(log)
      ensures o.Crashed? && (root != old(root) || log != old(log)) ==> locked
      ensures o == Refused(ReceiptConflict) ==>
                var held := DirAt(old(root), SafeReceiptId(lib, request.envelopeId));
                held.manifest.Some? && !ReceiptMatches(held.manifest.value, request, deviceId)
      ensures o.Refused? ==>
                && o.error != UnsupportedReceiptSchema
                && RefusalHolds(o.error, lib, inbox, CONTENT_TYPE_KEYPACKAGE, request.envelopeId, deviceId,
                                request.expectedPayloadSha256, true, reply.Some?)
      ensures o == Refused(IncompleteConsume) ==> LooksIncomplete(DirAt(old(root), SafeReceiptId(lib, request.envelopeId)), stat)
      ensures LooksIncomplete(DirAt(old(root), SafeReceiptId(lib, request.envelopeId)), stat) ==>
                !o.Done? && root == old(root) && log == old(log)
    {
      hide Inv, RootExtends, Backed;
      RootExtendsItself(root);
      if TrimSpace(request.relaySpaceId) == "" || TrimSpace(request.envelopeId) == "" {
        return Refused(MissingArgument);
      }
      var _ :- Io(IoError);
      if locked {
        return Refused(LockUnavailable);
      }
      var _ :- Io(LockUnavailable);
      locked := true;
      var name := BuildSafeReceiptId(lib, request.envelopeId);
      o := ConsumeLocked(name, request, inbox, reply, stat, now);
      if !o.Crashed? {
        locked := *;
      }
    }

    method ConsumeLocked(name: string, request: Request, inbox: Option<seq<Envelope>>, reply: Option<AckReply>, stat: Stat, now: string)
        returns (o: Outcome<Receipt, ConsumeError>)
      requires Valid() && locked && name == SafeReceiptId(lib, request.envelopeId)
      modifies this
      ensures old(log) <= log
      ensures Valid() && RootExtends(old(root), root) && locked == old(locked)
      ensures forall other :: other != name ==> DirAt(root, other) == DirAt(old(root), other)
      ensures if DirAt(old(root), name).manifest.Some? then
                ReplayLog(old(log), log, name, DirAt(old(root), name), request, deviceId, reply, o)
              else FreshLog(lib, old(log), log, name, request, deviceId, inbox, reply, now, o)
      ensures o.Done? ==> DirAt(root, name).manifest == if log == old(log) then DirAt(old(root), name).manifest else Some(o.value)
      ensures o != Refused(MissingArgument)
      ensures o == Refused(ReceiptConflict) ==>
                DirAt(old(root), name).manifest.Some? && !ReceiptMatches(DirAt(old(root), name).manifest.value, request, deviceId)
      ensures o.Refused? ==>
                && o.error != UnsupportedReceiptSchema
                && RefusalHolds(o.error, lib, inbox, CONTENT_TYPE_KEYPACKAGE, request.envelopeId, deviceId,
                                request.expectedPayloadSha256, true, reply.Some?)
      ensures o == Refused(IncompleteConsume) <==> LooksIncomplete(DirAt(old(root), name), stat)
      ensures LooksIncomplete(DirAt(old(root), name), stat) ==> root == old(root) && log == old(log)
    {
      hide Inv, RootExtends, Backed, FreshLog;
      RootExtendsItself(root);
      NothingYet(lib, log, name, request, deviceId, inbox, reply, now);
      var dir := DirAt(root, name);
      if dir.artifact.Some? && stat.artifact {
        if dir.manifest.None? || !stat.manifest {
          return Refused(IncompleteConsume);
        }
      }
      var _ :- Io(IoError);
      if dir.manifest.Some? {
        ManifestSchema(lib, deviceId, root, log, name);
        if dir.manifest.value.schemaVersion != RECEIPT_SCHEMA {
          return Refused(UnsupportedReceiptSchema);
        }
        o := Replay(name, request, reply);
      } else {
        o := Fresh(name, request, inbox, reply, now);
      }
    }
  }

  /** What a run over an existing receipt `held` adds to the log: nothing when the receipt belongs to
      another request or is settled, otherwise at most one acknowledgement and then its record. */
  ghost predicate ReplayLog(before: seq<Event>, after: seq<Event>, name: string, held: ReceiptDir, request: Request,
                            deviceId: string, reply: Option<AckReply>, o: Outcome<Receipt, ConsumeError>)
    requires held.manifest.Some?
  {
    var r := held.manifest.value;
    if !ReceiptMatches(r, request, deviceId) then after == before && !o.Done?
    else if Settled(r) then after == before && (o.Done? ==> o.value == r.(classification := "already_consumed"))
    else
      var acked := before + [Acked(name, request.relaySpaceId, request.envelopeId, held)];
      && (after == before || after == acked
          || (reply.Some? && after == acked + [Saved(name, WithAck(r, "ack_retried_after_persisted_receipt", reply.value))]))
      && (o.Done? ==> reply.Some? && o.value == WithAck(r, "ack_retried_after_persisted_receipt", reply.value)
                      && after == acked + [Saved(name, o.value)])
  }

  /** The first receipt of an envelope the run may consume: in the inbox, for this device, of the right
      type, decodable, and with the digest the caller expects if any. */
  ghost predicate FreshReceipt(lib: Library, deviceId: string, request: Request, inbox: seq<Envelope>, r: Receipt) {
    exists e ::
      && e in OfType(inbox, CONTENT_TYPE_KEYPACKAGE)
      && e.envelopeId == request.envelopeId && e.recipientDeviceId == deviceId
      && ArtifactOf(lib, e, CONTENT_TYPE_KEYPACKAGE).Done?
      && var payload := ArtifactOf(lib, e, CONTENT_TYPE_KEYPACKAGE).value;
         && FreshExpectationMet(request.expectedPayloadSha256, lib.digest(payload))
         && r == NewReceipt(lib, e, payload, request, r.consumedAt)
  }

  /** What a run without a receipt adds to the log: nothing, or a fresh receipt, then at most one
      acknowledgement of its envelope, then the record of the reply. */
  ghost predicate FreshLog(lib: Library, before: seq<Event>, after: seq<Event>, name: string, request: Request,
                           deviceId: string, inbox: Option<seq<Envelope>>, reply: Option<AckReply>,
                           now: string, o: Outcome<Receipt, ConsumeError>)
  {
    var n := |before|;
    && before <= after && |after| <= n + 3
    && (after == before ==> !o.Done?)
    && (n < |after| ==>
          && after[n].Saved? && after[n].directory == name
          && inbox.Some? && FreshReceipt(lib, deviceId, request, inbox.value, after[n].receipt)
          && after[n].receipt.consumedAt == now)
    && (n + 1 < |after| ==>
          && after[n + 1].Acked? && after[n + 1].directory == name
          && after[n + 1].relaySpaceId == request.relaySpaceId && after[n + 1].envelopeId == request.envelopeId
          && after[n + 1].held.manifest == Some(after[n].receipt))
    && (n + 2 < |after| ==>
          reply.Some? && after[n + 2] == Saved(name, WithAck(after[n].receipt, "consumed_and_acked", reply.value)))
    && (o.Done? ==> |after| == n + 3 && o.value == after[n + 2].receipt)
  }

  lemma StaysBacked(lib: Library, deviceId: string, root: Root, log: seq<Event>, name: string, r: Receipt)
    requires Inv(lib, deviceId, root, log) && name in root && root[name].manifest.Some?
    requires Identity(r) == Identity(root[name].manifest.value)
    ensures Backed(lib, deviceId, name, root[name].artifact, r)
  {
    assert Backed(lib, deviceId, name, root[name].artifact, root[name].manifest.value);
  }

  lemma FreshIsBacked(lib: Library, deviceId: string, name: string, e: Envelope, payload: Bytes, request: Request, now: string)
    requires name == SafeReceiptId(lib, e.envelopeId) && e.recipientDeviceId == deviceId
    requires ArtifactOf(lib, e, CONTENT_TYPE_KEYPACKAGE) == Done(payload)
    ensures Backed(lib, deviceId, name, Some(payload), NewReceipt(lib, e, payload, request, now))
  {
  }

  lemma NothingYet(lib: Library, log: seq<Event>, name: string, request: Request, deviceId: string,
                   inbox: Option<seq<Envelope>>, reply: Option<AckReply>, now: string)
    ensures forall o: Outcome<Receipt, ConsumeError> :: !o.Done? ==>
              FreshLog(lib, log, log, name, request, deviceId, inbox, reply, now, o)
  {
  }

  lemma ManifestSchema(lib: Library, deviceId: string, root: Root, log: seq<Event>, name: string)
    requires Inv(lib, deviceId, root, log) && name in root && root[name].manifest.Some?
    ensures root[name].manifest.value.schemaVersion == RECEIPT_SCHEMA
  {
    assert Backed(lib, deviceId, name, root[name].artifact, root[name].manifest.value);
  }

  lemma SameIdentityWithAck(r: Receipt, classification: string, reply: AckReply)
    ensures Identity(WithAck(r, classification, reply)) == Identity(r)
  {
  }

  /** One invocation, with what the server would answer. */
  datatype Run = Run(request: Request, inbox: Option<seq<Envelope>>, reply: Option<AckReply>, stat: Stat, now: string)

  /** Any number of runs, each possibly cut short; an operator may clear a lock in between. A directory
      with an artifact and no receipt is never touched again while its artifact can be seen. */
  method RunAll(c: Consumer, runs: seq<Run>)
    requires c.Valid()
    modifies c
    ensures c.Valid() && RootExtends(old(c.root), c.root) && old(c.log) <= c.log
    ensures forall name | DirAt(old(c.root), name).manifest.Some? && Settled(DirAt(old(c.root), name).manifest.value) ::
              NoAckSince(c.log, |old(c.log)|, name)
    ensures (forall run | run in runs :: run.stat.artifact) ==>
              forall name | Stuck(DirAt(old(c.root), name)) :: DirAt(c.root, name) == DirAt(old(c.root), name)
  {
    hide Inv, RootExtends, ReplayLog, FreshLog, SafeReceiptId;
    RootExtendsItself(c.root);
    for k := 0 to |runs|
      invariant c.Valid() && RootExtends(old(c.root), c.root) && old(c.log) <= c.log
      invariant forall name | DirAt(old(c.root), name).manifest.Some? && Settled(DirAt(old(c.root), name).manifest.value) ::
                  NoAckSince(c.log, |old(c.log)|, name)
      invariant (forall run | run in runs :: run.stat.artifact) ==>
                  forall name | Stuck(DirAt(old(c.root), name)) :: DirAt(c.root, name) == DirAt(old(c.root), name)
    {
      ghost var before, log := c.root, c.log;
      if * {
        c.locked := false;
      }
      var o := c.Consume(runs[k].request, runs[k].inbox, runs[k].reply, runs[k].stat, runs[k].now);
      forall name | DirAt(old(c.root), name).manifest.Some? && Settled(DirAt(old(c.root), name).manifest.value)
        ensures NoAckSince(c.log, |old(c.log)|, name)
      {
        SettledStays(old(c.root), before, name);
        QuietRun(c.lib, before, log, c.log, runs[k], c.deviceId, o, name);
      }
      RootExtendsTransitive(old(c.root), before, c.root);
    }
  }

  /** A recorded acknowledgement stays on record exactly when its time was recorded with it. */
  lemma RecordedAckStaysExactly(dir: ReceiptDir)
    requires dir.manifest.Some? && dir.manifest.value.keyPackageAcked
    ensures (forall after | Extends(dir, after) :: after.manifest.value.keyPackageAcked) <==> dir.manifest.value.ackedAt != ""
  {
    var r := dir.manifest.value;
    if r.ackedAt == "" {
      var forgotten := dir.(manifest := Some(WithAck(r, "ack_retried_after_persisted_receipt", AckReply("", ""))));
      assert Extends(dir, forgotten);
    }
  }

  /** The failing run: a receipt that records an acknowledgement without its time, repeated when the server
      answers anything but "acknowledged". The envelope is acknowledged again and the record is gone. */
  method UntimedAckIsForgotten(c: Consumer, request: Request, inbox: Option<seq<Envelope>>, reply: AckReply, stat: Stat, now: string)
      returns (o: Outcome<Receipt, ConsumeError>)
    requires c.Valid() && reply.deliveryState != ACKNOWLEDGED
    requires var held := DirAt(c.root, SafeReceiptId(c.lib, request.envelopeId)).manifest;
             held.Some? && held.value.keyPackageAcked && held.value.ackedAt == ""
    modifies c
    ensures c.Valid()
    ensures o.Done? ==>
              var name := SafeReceiptId(c.lib, request.envelopeId);
              && c.log == old(c.log) + [Acked(name, request.relaySpaceId, request.envelopeId, DirAt(old(c.root), name)),
                                        Saved(name, o.value)]
              && DirAt(c.root, name).manifest == Some(o.value) && !o.value.keyPackageAcked
  {
    hide Inv, RootExtends, ReceiptMatches, SafeReceiptId;
    o := c.Consume(request, inbox, Some(reply), stat, now);
  }

  // ---- Over whole runs ----

  /** From the event `n` on no acknowledgement is sent for this directory. */
  predicate NoAckSince(log: seq<Event>, n: nat, name: string) {
    forall k | n <= k < |log| && log[k].Acked? :: log[k].directory != name
  }

  lemma SettledStays(before: Root, after: Root, name: string)
    requires RootExtends(before, after)
    requires DirAt(before, name).manifest.Some? && Settled(DirAt(before, name).manifest.value)
    ensures DirAt(after, name).manifest == DirAt(before, name).manifest
  {
    assert name in before && Extends(before[name], after[name]);
  }

  ghost predicate RunLog(lib: Library, root: Root, before: seq<Event>, after: seq<Event>, run: Run, deviceId: string,
                         o: Outcome<Receipt, ConsumeError>)
  {
    var own := SafeReceiptId(lib, run.request.envelopeId);
    if DirAt(root, own).manifest.Some? then ReplayLog(before, after, own, DirAt(root, own), run.request, deviceId, run.reply, o)
    else FreshLog(lib, before, after, own, run.request, deviceId, run.inbox, run.reply, run.now, o)
  }

  /** One run sends no acknowledgement for a directory whose receipt is settled. */
  lemma QuietRun(lib: Library, root: Root, before: seq<Event>, after: seq<Event>, run: Run, deviceId: string,
                 o: Outcome<Receipt, ConsumeError>, name: string)
    requires before <= after && DirAt(root, name).manifest.Some? && Settled(DirAt(root, name).manifest.value)
    requires RunLog(lib, root, before, after, run, deviceId, o)
    ensures NoAckSince(after, |before|, name)
  {
    hide SafeReceiptId, FreshReceipt, WithAck, ReceiptMatches, Settled;
  }

  lemma RunEnds(lib: Library, root: Root, before: seq<Event>, after: seq<Event>, run: Run, deviceId: string,
                o: Outcome<Receipt, ConsumeError>)
    requires RunLog(lib, root, before, after, run, deviceId, o) && o.Done?
    ensures |before| <= |after| <= |before| + 3
    ensures after == before || after[|after| - 1] == Saved(SafeReceiptId(lib, run.request.envelopeId), o.value)
  {
    hide SafeReceiptId, FreshReceipt, WithAck, ReceiptMatches;
  }

  /** After a completed run to which the server answered "acknowledged" with a time, no later run sends
      another acknowledgement for that directory, and its receipt stays. */
  method AcknowledgedRunIsTheLast(c: Consumer, run: Run, later: seq<Run>)
      returns (o: Outcome<Receipt, ConsumeError>, ghost own: nat)
    requires c.Valid()
    modifies c
    ensures c.Valid() && old(c.log) <= c.log && |old(c.log)| <= own <= |c.log|
    ensures o.Done? ==>
              && own <= |old(c.log)| + 3
              && (own == |old(c.log)| || c.log[own - 1] == Saved(SafeReceiptId(c.lib, run.request.envelopeId), o.value))
    ensures o.Done? && run.reply.Some? && run.reply.value.deliveryState == "acknowledged" && run.reply.value.acknowledgedAt != "" ==>
              var name := SafeReceiptId(c.lib, run.request.envelopeId);
              && DirAt(c.root, name).manifest.Some? && DirAt(c.root, name).manifest.value.keyPackageAcked
              && NoAckSince(c.log, own, name)
  {
    hide Inv, RootExtends, ReplayLog, FreshLog, SafeReceiptId, LooksIncomplete, ReceiptMatches, NoAckSince;
    o := c.Consume(run.request, run.inbox, run.reply, run.stat, run.now);
    own := |c.log|;
    ghost var name, first := SafeReceiptId(c.lib, run.request.envelopeId), c.root;
    if o.Done? {
      RunEnds(c.lib, old(c.root), old(c.log), c.log, run, c.deviceId, o);
    }
    RunAll(c, later);
    if o.Done? && run.reply.Some? && run.reply.value.deliveryState == "acknowledged" && run.reply.value.acknowledgedAt != "" {
      assert NoAckSince(c.log, own, name);
      SettledStays(first, c.root, name);
    }
  }

  predicate StepByStep(lib: Library, steps: seq<Event>, name: string, request: Request, deviceId: string,
                       inbox: seq<Envelope>, reply: AckReply, now: string)
    requires |steps| == 3
  {
    && steps[0].Saved? && steps[2].Saved? && steps[0].directory == name == steps[2].directory
    && (exists e | e in inbox ::
          && e.contentType == CONTENT_TYPE_KEYPACKAGE && e.envelopeId == request.envelopeId && e.recipientDeviceId == deviceId
          && ArtifactOf(lib, e, CONTENT_TYPE_KEYPACKAGE).Done?
          && RecordsEnvelope(lib, e, ArtifactOf(lib, e, CONTENT_TYPE_KEYPACKAGE).value, request, steps[0].receipt))
    && steps[0].receipt.consumedAt == now && !steps[0].receipt.keyPackageAcked
    && steps[1].Acked? && steps[1].relaySpaceId == request.relaySpaceId && steps[1].envelopeId == request.envelopeId
    && RecordsAck(steps[0].receipt, steps[2].receipt, "consumed_and_acked", reply)
  }

  /** What the receipts of a first run say: the envelope, then the server's answer, and nothing else differs. */
  lemma FirstRunRecords(lib: Library, before: seq<Event>, after: seq<Event>, name: string, request: Request, deviceId: string,
                        inbox: Option<seq<Envelope>>, reply: Option<AckReply>, now: string, o: Outcome<Receipt, ConsumeError>)
    requires FreshLog(lib, before, after, name, request, deviceId, inbox, reply, now, o) && o.Done?
    ensures inbox.Some? && reply.Some? && |after| == |before| + 3
    ensures StepByStep(lib, after[|before|..], name, request, deviceId, inbox.value, reply.value, now)
    ensures after[|after| - 1] == Saved(name, o.value)
  {
    hide RecordsEnvelope, RecordsAck, WithAck, NewReceipt, ArtifactOf, OfType, FreshExpectationMet;
    var n := |before|;
    var e :| && e in OfType(inbox.value, CONTENT_TYPE_KEYPACKAGE)
             && e.envelopeId == request.envelopeId && e.recipientDeviceId == deviceId
             && ArtifactOf(lib, e, CONTENT_TYPE_KEYPACKAGE).Done?
             && after[n].receipt == NewReceipt(lib, e, ArtifactOf(lib, e, CONTENT_TYPE_KEYPACKAGE).value, request,
                                               after[n].receipt.consumedAt);
    FirstReceiptRecords(lib, e, ArtifactOf(lib, e, CONTENT_TYPE_KEYPACKAGE).value, request, after[n].receipt.consumedAt);
    OfTypeHas(inbox.value, CONTENT_TYPE_KEYPACKAGE, e);
    AckIsRecorded(after[n].receipt, "consumed_and_acked", reply.value);
  }

  /** Which later requests a receipt accepts: those for the same envelope and device that name the relay
      space of the envelope, expect no digest or that of the artifact, and expect no reference, where the
      first request gave none, or the same. */
  lemma AcceptedLaterExactly(lib: Library, deviceId: string, request: Request, inbox: seq<Envelope>, r: Receipt, other: Request,
                             otherDevice: string)
    requires FreshReceipt(lib, deviceId, request, inbox, r)
    ensures ReceiptMatches(r, other, otherDevice)
            <==> && other.envelopeId == request.envelopeId && otherDevice == deviceId && other.relaySpaceId == r.relaySpaceId
                 && TrimSpace(other.expectedPayloadSha256) in {"", r.artifactSha256}
                 && (TrimSpace(other.expectedKeyPackageRef) == "" || TrimSpace(request.expectedKeyPackageRef) == ""
                     || TrimSpace(other.expectedKeyPackageRef) == TrimSpace(request.expectedKeyPackageRef))
  {
    hide OfType, TrimSpace;
  }

  /** Repeating the request that wrote a receipt is accepted exactly when the envelope named the relay
      space it was fetched from. */
  lemma RepeatIsAcceptedExactly(lib: Library, deviceId: string, request: Request, inbox: seq<Envelope>, r: Receipt)
    requires FreshReceipt(lib, deviceId, request, inbox, r)
    ensures ReceiptMatches(r, request, deviceId) <==> r.relaySpaceId == request.relaySpaceId
  {
    hide ArtifactOf, OfType, TrimSpace;
  }

  /** The relay space a first run acknowledges in is that of its receipt exactly when repeating the
      request is accepted. */
  lemma FirstAckNamesItsSpace(lib: Library, before: seq<Event>, after: seq<Event>, name: string, request: Request, deviceId: string,
                              inbox: Option<seq<Envelope>>, reply: Option<AckReply>, now: string,
                              o: Outcome<Receipt, ConsumeError>)
    requires FreshLog(lib, before, after, name, request, deviceId, inbox, reply, now, o) && |after| > |before| + 1
    ensures after[|before| + 1].Acked? && after[|before|].Saved?
    ensures after[|before| + 1].relaySpaceId == after[|before|].receipt.relaySpaceId
            <==> ReceiptMatches(after[|before|].receipt, request, deviceId)
  {
    hide FreshReceipt, ReceiptMatches;
    RepeatIsAcceptedExactly(lib, deviceId, request, inbox.value, after[|before|].receipt);
  }

  /** Over any log the command can leave: once a settled receipt was saved, no acknowledgement follows for
      its directory, and the receipt is still there. */
  lemma NoAckAfterASettledSave(lib: Library, deviceId: string, root: Root, log: seq<Event>, j: nat)
    requires Inv(lib, deviceId, root, log) && j < |log| && log[j].Saved?
    requires log[j].receipt.keyPackageAcked && log[j].receipt.ackedAt != ""
    ensures NoAckSince(log, j, log[j].directory) && DirAt(root, log[j].directory).manifest == Some(log[j].receipt)
  {
    assert Settled(log[j].receipt);
  }

  /** Whenever an acknowledgement was sent, the receipt of its envelope and the artifact with the
      recorded digest were durable, and both still are, unchanged. */
  lemma AcknowledgedIsDurable(lib: Library, deviceId: string, root: Root, log: seq<Event>, k: nat)
    requires Inv(lib, deviceId, root, log) && k < |log| && log[k].Acked?
    ensures var e := log[k];
            && e.held.manifest.Some? && e.held.artifact.Some?
            && e.held.manifest.value.envelopeId == e.envelopeId
            && lib.digest(e.held.artifact.value) == e.held.manifest.value.artifactSha256
            && e.directory == SafeReceiptId(lib, e.envelopeId)
            && e.directory in root && root[e.directory].artifact == e.held.artifact
            && root[e.directory].manifest.Some?
            && root[e.directory].manifest.value.envelopeId == e.envelopeId
            && root[e.directory].manifest.value.artifactSha256 == e.held.manifest.value.artifactSha256
  {
    var e := log[k];
    assert Identity(DirAt(root, e.directory).manifest.value) == Identity(e.held.manifest.value);
  }

  /** A directory stays with the first envelope that has a receipt in it: a run for another envelope
      that maps to the same directory changes neither the receipt nor the log. */
  lemma DirectoryStaysBound(lib: Library, deviceId: string, before: Root, after: Root, log: seq<Event>, more: seq<Event>,
                            first: string, second: Request, reply: Option<AckReply>, o: Outcome<Receipt, ConsumeError>)
    requires first != second.envelopeId
    requires var name := SafeReceiptId(lib, first);
             && name == SafeReceiptId(lib, second.envelopeId)
             && name in before && before[name].manifest.Some? && before[name].manifest.value.envelopeId == first
             && RootExtends(before, after)
             && ReplayLog(log, more, name, before[name], second, deviceId, reply, o)
    ensures more == log && !o.Done?
    ensures var name := SafeReceiptId(lib, first);
            && name in after && after[name].manifest.Some?
            && after[name].manifest.value.envelopeId == first && after[name].artifact == before[name].artifact
  {
    var name := SafeReceiptId(lib, first);
    assert Identity(after[name].manifest.value).envelopeId == Identity(before[name].manifest.value).envelopeId;
  }
}
