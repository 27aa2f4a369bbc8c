/** The consume command for a Welcome: persist the artifact and a receipt, record the attempt, join
    once through the sidecar, record the join, then acknowledge (openmls_welcome_lifecycle_dev.go).

    Every step may fail or be the last one of its process; replies of server and sidecar are
    arbitrary. */
module WelcomeConsume {
  import opened Outcomes
  import opened Text
  import opened Receipts

  const RECEIPT_SCHEMA := "carbonstack-welcome-consume-receipt/v0"

  datatype Receipt = Receipt(
    schemaVersion: string, classification: string, envelopeId: string, relaySpaceId: string,
    senderDeviceId: string, recipientDeviceId: string, contentType: string, protocolVersion: string,
    deliveryStateBeforeAck: string, payloadSha256: string, payloadSize: int, artifactSha256: string,
    artifactSize: int, sidecarDeviceLabel: string, conversationLabel: string,
    welcomePersistedAt: string, joinAttemptedAt: string, joinedAt: string, ackedAt: string,
    ackDeliveryState: string, groupReloadable: bool, joined: bool, localWelcomePersisted: bool,
    welcomeAcked: bool, ackAfterJoin: bool, addMemberRun: bool, trustOrCandidateStateMutated: bool,
    verifiedIdentityClaimed: bool, cypherMlsReconciled: bool, publicDirectoryMutated: bool)

  /** The fields of a successful sidecar reply the command reads. */
  datatype JoinReply = JoinReply(joined: Option<bool>, groupReloadable: Option<bool>)

  datatype TempReceipt = TornReceipt | WholeReceipt(receipt: Receipt)

  /** One receipt directory: `welcome.bin`, `receipt.json` and their temporary files. */
  datatype ReceiptDir = ReceiptDir(
    artifactTemp: Option<Bytes>, artifact: Option<Bytes>, manifestTemp: Option<TempReceipt>,
    manifest: Option<Receipt>)

  const EMPTY_DIR := ReceiptDir(None, None, None, None)

  type Root = map<string, ReceiptDir>

  function DirAt(root: Root, name: string): ReceiptDir {
    if name in root then root[name] else EMPTY_DIR
  }

  /** What happened, in order: a receipt was saved; the sidecar was asked to join with the Welcome of a
      directory; an acknowledgement was sent while its directory held `held`. */
  datatype Event =
    | Saved(directory: string, receipt: Receipt)
    | Joined(directory: string, reply: Option<JoinReply>)
    | Acked(directory: string, relaySpaceId: string, envelopeId: string, held: ReceiptDir)

  datatype Request = Request(
    relaySpaceId: string, envelopeId: string, sidecarDeviceLabel: string, conversationLabel: string)

  /** What the clock says when a run persists, attempts and records. */
  datatype Times = Times(persisted: string, attempted: string, joined: string)

  /** What server, sidecar, file system and clock would answer in one run. */
  datatype World = World(inbox: Option<seq<Envelope>>, join: Option<JoinReply>, ack: Option<AckReply>, stat: Stat, times: Times)

  // ---- Receipts ----

  function BoolOr(field: Option<bool>, fallback: bool): bool {
    if field.Some? then field.value else fallback
  }

  /** Whether a successful reply counts as joined. */
  function ReportsJoined(reply: JoinReply): bool {
    BoolOr(reply.joined, true)
  }

  function NewReceipt(lib: Library, e: Envelope, payload: Bytes, request: Request, now: string): Receipt {
    Receipt(RECEIPT_SCHEMA, "welcome_persisted_before_join", e.envelopeId, e.relaySpaceId, e.senderDeviceId,
            e.recipientDeviceId, e.contentType, e.protocolVersion, e.deliveryState, e.payloadSha256,
            e.payloadSize, lib.digest(payload), |payload|, TrimSpace(request.sidecarDeviceLabel),
            TrimSpace(request.conversationLabel), now, "", "", "", "", false, false, true, false, true,
            false, false, false, false, false)
  }

  function WithAttempt(r: Receipt, now: string): Receipt {
    r.(joinAttemptedAt := now)
  }

  function WithJoin(r: Receipt, reply: JoinReply, now: string): Receipt {
    r.(classification := "joined_receipt_persisted_before_ack", joined := ReportsJoined(reply),
       groupReloadable := BoolOr(reply.groupReloadable, false), joinedAt := now)
  }

  function WithAck(r: Receipt, classification: string, reply: AckReply): Receipt {
    r.(classification := classification, ackedAt := reply.acknowledgedAt,
       ackDeliveryState := reply.deliveryState, welcomeAcked := reply.deliveryState == ACKNOWLEDGED)
  }

  // ---- What the receipts say ----

  /** The receipt describes the envelope, its artifact and the request, and claims nothing else. */
  predicate RecordsEnvelope(lib: Library, e: Envelope, payload: Bytes, request: Request, r: Receipt) {
    && r.schemaVersion == "carbonstack-welcome-consume-receipt/v0"
    && r.envelopeId == e.envelopeId && r.relaySpaceId == e.relaySpaceId
    && r.senderDeviceId == e.senderDeviceId && r.recipientDeviceId == e.recipientDeviceId
    && r.contentType == e.contentType && r.protocolVersion == e.protocolVersion
    && r.deliveryStateBeforeAck == e.deliveryState
    && r.payloadSha256 == e.payloadSha256 && r.payloadSize == e.payloadSize
    && r.artifactSha256 == lib.digest(payload) && r.artifactSize == |payload|
    && r.sidecarDeviceLabel == TrimSpace(request.sidecarDeviceLabel)
    && r.conversationLabel == TrimSpace(request.conversationLabel)
    && r.localWelcomePersisted && r.ackAfterJoin && !r.addMemberRun && !r.trustOrCandidateStateMutated
    && !r.verifiedIdentityClaimed && !r.cypherMlsReconciled && !r.publicDirectoryMutated
  }

  lemma FirstReceiptRecords(lib: Library, e: Envelope, payload: Bytes, request: Request, now: string)
    ensures var r := NewReceipt(lib, e, payload, request, now);
            && RecordsEnvelope(lib, e, payload, request, r) && r.welcomePersistedAt == now
            && r.classification == "welcome_persisted_before_join" && r.joinAttemptedAt == "" && r.joinedAt == ""
            && r.ackedAt == "" && r.ackDeliveryState == "" && !r.groupReloadable && !r.joined && !r.welcomeAcked
  {
  }

  /** `after` adds the time of the attempt to `before`, and nothing else. */
  predicate RecordsAttempt(before: Receipt, after: Receipt, now: string) {
    after.joinAttemptedAt == now && before == after.(joinAttemptedAt := before.joinAttemptedAt)
  }

  /** `after` records the sidecar's answer: joined unless it says otherwise, reloadable only if it says so. */
  predicate RecordsJoin(before: Receipt, after: Receipt, reply: JoinReply, now: string) {
    && (after.joined <==> reply.joined != Some(false)) && (after.groupReloadable <==> reply.groupReloadable == Some(true))
    && after.joinedAt == now && after.classification == "joined_receipt_persisted_before_ack"
    && before == after.(classification := before.classification, joined := before.joined,
                        groupReloadable := before.groupReloadable, joinedAt := before.joinedAt)
  }

  /** `after` records the server's answer: acknowledged exactly when its delivery state says so. */
  predicate RecordsAck(before: Receipt, after: Receipt, classification: string, reply: AckReply) {
    && (after.welcomeAcked <==> reply.deliveryState == "acknowledged")
    && after.ackedAt == reply.acknowledgedAt && after.ackDeliveryState == reply.deliveryState
    && after.classification == classification
    && before == after.(classification := before.classification, welcomeAcked := before.welcomeAcked,
                        ackedAt := before.ackedAt, ackDeliveryState := before.ackDeliveryState)
  }

  lemma AttemptIsRecorded(r: Receipt, now: string)
    ensures RecordsAttempt(r, WithAttempt(r, now), now)
  {
  }

  lemma JoinIsRecorded(r: Receipt, reply: JoinReply, now: string)
    ensures RecordsJoin(r, WithJoin(r, reply, now), reply, now)
  {
  }

  lemma AckIsRecorded(r: Receipt, classification: string, reply: AckReply)
    ensures RecordsAck(r, WithAck(r, classification, reply), classification, reply)
  {
  }

  /** Everything the later steps of the command leave alone. */
  function Identity(r: Receipt): Receipt {
    r.(classification := "", joinAttemptedAt := "", joinedAt := "", ackedAt := "", ackDeliveryState := "",
       groupReloadable := false, joined := false, welcomeAcked := false)
  }

  /** `validateExistingWelcomeConsumeReceipt` */
  predicate ReceiptMatches(r: Receipt, request: Request, deviceId: string) {
    && r.envelopeId == request.envelopeId
    && r.relaySpaceId == request.relaySpaceId
    && r.recipientDeviceId == deviceId
    && r.sidecarDeviceLabel == TrimSpace(request.sidecarDeviceLabel)
    && r.conversationLabel == TrimSpace(request.conversationLabel)
  }

  // ---- What every reachable receipt root satisfies ----

  /** A receipt is backed by its artifact, sits in the directory of its envelope, and claims nothing
      the command does not do. */
  predicate Backed(lib: Library, deviceId: string, name: string, artifact: Option<Bytes>, r: Receipt) {
    && artifact.Some?
    && lib.digest(artifact.value) == r.artifactSha256 && |artifact.value| == r.artifactSize
    && r.schemaVersion == RECEIPT_SCHEMA
    && SafeReceiptId(lib, r.envelopeId) == name
    && r.recipientDeviceId == deviceId
    && r.localWelcomePersisted && r.ackAfterJoin
    && !r.addMemberRun && !r.trustOrCandidateStateMutated && !r.verifiedIdentityClaimed
    && !r.cypherMlsReconciled && !r.publicDirectoryMutated
  }

  predicate AllBacked(lib: Library, deviceId: string, root: Root) {
    forall name | name in root && root[name].manifest.Some? ::
      Backed(lib, deviceId, name, root[name].artifact, root[name].manifest.value)
  }

  /** Among the first `n` events the sidecar was asked to join with the Welcome of this directory and
      answered with success; `joined` says whether the reply counts as joined. */
  predicate JoinAnswered(log: seq<Event>, n: nat, name: string, joined: bool) {
    exists k | 0 <= k < n && k < |log| ::
      log[k].Joined? && log[k].directory == name && log[k].reply.Some? && ReportsJoined(log[k].reply.value) == joined
  }

  /** No directory sees two joins, and one that has seen a join has a receipt. */
  predicate JoinedOnce(root: Root, log: seq<Event>) {
    && (forall i, j | 0 <= i < j < |log| && log[i].Joined? && log[j].Joined? :: log[i].directory != log[j].directory)
    && (forall i | 0 <= i < |log| && log[i].Joined? :: DirAt(root, log[i].directory).manifest.Some?)
  }

  /** A receipt says joined only after the sidecar said so. */
  predicate JoinsReported(root: Root, log: seq<Event>) {
    forall name | name in root && root[name].manifest.Some? && root[name].manifest.value.joined ::
      JoinAnswered(log, |log|, name, true)
  }

  /** A receipt on record stays, with its artifact; a recorded join stays; an acknowledged receipt does
      not change any more. */
  predicate Extends(before: ReceiptDir, after: ReceiptDir) {
    before.manifest.Some? ==>
      && after.manifest.Some? && after.artifact == before.artifact
      && Identity(after.manifest.value) == Identity(before.manifest.value)
      && (before.manifest.value.joined ==> after.manifest.value.joined)
      && (before.manifest.value.welcomeAcked ==> after.manifest == before.manifest)
  }

  /** Each acknowledgement was sent for the envelope of a durable receipt with a durable artifact,
      after a successful join, whose result that receipt records. */
  predicate AcksJustified(lib: Library, deviceId: string, root: Root, log: seq<Event>) {
    forall k | 0 <= k < |log| && log[k].Acked? :: AckJustified(lib, deviceId, root, log, k)
  }

  predicate AckJustified(lib: Library, deviceId: string, root: Root, log: seq<Event>, k: nat)
    requires k < |log| && log[k].Acked?
  {
    var e := log[k];
    && e.held.manifest.Some? && e.held.manifest.value.envelopeId == e.envelopeId
    && Backed(lib, deviceId, e.directory, e.held.artifact, e.held.manifest.value)
    && Extends(e.held, DirAt(root, e.directory))
    && JoinAnswered(log, k, e.directory, e.held.manifest.value.joined)
  }

  predicate NoAckAfterAcked(root: Root, log: seq<Event>) {
    && (forall j, k | 0 <= j < k < |log| && log[j].Saved? && log[j].receipt.welcomeAcked && log[k].Acked? ::
          log[k].directory != log[j].directory)
    && (forall j | 0 <= j < |log| && log[j].Saved? && log[j].receipt.welcomeAcked ::
          DirAt(root, log[j].directory).manifest == Some(log[j].receipt))
  }

  predicate AckSent(log: seq<Event>, name: string) {
    exists k | 0 <= k < |log| :: log[k].Acked? && log[k].directory == name
  }

  /** A receipt records an acknowledgement only after one was sent. */
  predicate RecordedAcksWereSent(root: Root, log: seq<Event>) {
    forall name | name in root && root[name].manifest.Some? && root[name].manifest.value.welcomeAcked :: AckSent(log, name)
  }

  predicate Inv(lib: Library, deviceId: string, root: Root, log: seq<Event>) {
    && AllBacked(lib, deviceId, root)
    && JoinedOnce(root, log)
    && JoinsReported(root, log)
    && AcksJustified(lib, deviceId, root, log)
    && NoAckAfterAcked(root, log)
    && RecordedAcksWereSent(root, log)
  }

  predicate RootExtends(before: Root, after: Root) {
    forall name | name in before :: name in after && Extends(before[name], after[name])
  }

  /** An artifact without a receipt beside it: what a run leaves that stops between the two. */
  predicate Stuck(dir: ReceiptDir) {
    dir.artifact.Some? && dir.manifest.None?
  }

  /** The command finds an artifact and not the manifest. */
  predicate LooksIncomplete(dir: ReceiptDir, stat: Stat) {
    dir.artifact.Some? && stat.artifact && (dir.manifest.None? || !stat.manifest)
  }

  /** A receipt of this request that was persisted and never joined. */
  predicate Unjoined(dir: ReceiptDir, request: Request, deviceId: string) {
    dir.manifest.Some? && ReceiptMatches(dir.manifest.value, request, deviceId) && !dir.manifest.value.joined
  }

  // ---- The steps that matter ----

  lemma JoinAnsweredStays(log: seq<Event>, more: seq<Event>, n: nat, name: string, joined: bool)
    requires log <= more && n <= |log| && JoinAnswered(log, n, name, joined)
    ensures forall m: nat :: n <= m ==> JoinAnswered(more, m, name, joined)
  {
    var k :| 0 <= k < n && k < |log| && log[k].Joined? && log[k].directory == name && log[k].reply.Some?
             && ReportsJoined(log[k].reply.value) == joined;
    assert more[k] == log[k];
  }

  lemma AcksStayJustified(lib: Library, deviceId: string, root: Root, log: seq<Event>, after: Root, more: seq<Event>)
    requires AcksJustified(lib, deviceId, root, log) && RootExtends(root, after) && log <= more
    ensures forall k | 0 <= k < |log| && log[k].Acked? :: AckJustified(lib, deviceId, after, more, k)
  {
    forall k | 0 <= k < |log| && log[k].Acked?
      ensures AckJustified(lib, deviceId, after, more, k)
    {
      assert AckJustified(lib, deviceId, root, log, k);
      JoinAnsweredStays(log, more, k, log[k].directory, log[k].held.manifest.value.joined);
      assert more[k] == log[k];
      ExtendsTransitive(log[k].held, DirAt(root, log[k].directory), DirAt(after, log[k].directory));
    }
  }

  lemma ExtendsTransitive(a: ReceiptDir, b: ReceiptDir, c: ReceiptDir)
    requires Extends(a, b) && Extends(b, c)
    ensures Extends(a, c)
  {
  }

  /** Saving the next state of a receipt. */
  lemma SaveKeepsInv(lib: Library, deviceId: string, root: Root, log: seq<Event>, name: string, after: ReceiptDir, r: Receipt)
    requires Inv(lib, deviceId, root, log)
    requires after.manifest == Some(r) && after.artifact == DirAt(root, name).artifact
    requires Backed(lib, deviceId, name, after.artifact, r)
    requires var old_ := DirAt(root, name).manifest;
             old_.Some? ==> Identity(old_.value) == Identity(r) && !old_.value.welcomeAcked && (old_.value.joined ==> r.joined)
    requires r.joined ==> JoinAnswered(log, |log|, name, true)
    requires r.welcomeAcked ==> AckSent(log, name)
    ensures Inv(lib, deviceId, root[name := after], log + [Saved(name, r)])
    ensures RootExtends(root, root[name := after])
  {
    hide JoinAnswered, Identity, AckJustified, Backed, AckSent;
    var next, more := root[name := after], log + [Saved(name, r)];
    assert RootExtends(root, next);
    AcksStayJustified(lib, deviceId, root, log, next, more);
    AckSentStays(log, more);
    assert AcksJustified(lib, deviceId, next, more);
    forall other | other in next && next[other].manifest.Some? && next[other].manifest.value.joined
      ensures JoinAnswered(more, |more|, other, true)
    {
      JoinAnsweredStays(log, more, |log|, other, true);
    }
  }

  /** Asking the sidecar to join, the first time for this directory. */
  lemma JoinKeepsInv(lib: Library, deviceId: string, root: Root, log: seq<Event>, name: string, reply: Option<JoinReply>)
    requires Inv(lib, deviceId, root, log)
    requires DirAt(root, name).manifest.Some?
    requires forall i | 0 <= i < |log| && log[i].Joined? :: log[i].directory != name
    ensures Inv(lib, deviceId, root, log + [Joined(name, reply)])
  {
    hide JoinAnswered, Identity, AckJustified, Backed, AckSent;
    var more := log + [Joined(name, reply)];
    RootExtendsItself(root);
    AcksStayJustified(lib, deviceId, root, log, root, more);
    AckSentStays(log, more);
    assert AcksJustified(lib, deviceId, root, more);
    forall other | other in root && root[other].manifest.Some? && root[other].manifest.value.joined
      ensures JoinAnswered(more, |more|, other, true)
    {
      JoinAnsweredStays(log, more, |log|, other, true);
    }
  }

  /** Sending an acknowledgement after a successful join. */
  lemma AckKeepsInv(lib: Library, deviceId: string, root: Root, log: seq<Event>, name: string, relaySpaceId: string, envelopeId: string)
    requires Inv(lib, deviceId, root, log)
    requires name in root && root[name].manifest.Some? && !root[name].manifest.value.welcomeAcked
    requires root[name].manifest.value.envelopeId == envelopeId
    requires JoinAnswered(log, |log|, name, root[name].manifest.value.joined)
    ensures Inv(lib, deviceId, root, log + [Acked(name, relaySpaceId, envelopeId, root[name])])
  {
    hide JoinAnswered, AckSent;
    var more := log + [Acked(name, relaySpaceId, envelopeId, root[name])];
    RootExtendsItself(root);
    AcksStayJustified(lib, deviceId, root, log, root, more);
    AckSentStays(log, more);
    JoinAnsweredStays(log, more, |log|, name, root[name].manifest.value.joined);
    assert AckJustified(lib, deviceId, root, more, |log|);
    forall other | other in root && root[other].manifest.Some? && root[other].manifest.value.joined
      ensures JoinAnswered(more, |more|, other, true)
    {
      JoinAnsweredStays(log, more, |log|, other, true);
    }
  }

  /** Files that are not the receipt, and the artifact as long as there is no receipt. */
  lemma PreparationKeepsInv(lib: Library, deviceId: string, root: Root, log: seq<Event>, name: string, after: ReceiptDir)
    requires Inv(lib, deviceId, root, log)
    requires after.manifest == DirAt(root, name).manifest
    requires after.manifest.Some? ==> after.artifact == DirAt(root, name).artifact
    ensures Inv(lib, deviceId, root[name := after], log)
    ensures RootExtends(root, root[name := after])
  {
    hide JoinAnswered, AckJustified, Backed, Identity, AckSent;
    assert RootExtends(root, root[name := after]);
    AcksStayJustified(lib, deviceId, root, log, root[name := after], log);
  }

  lemma AckSentStays(log: seq<Event>, more: seq<Event>)
    requires log <= more
    ensures forall name :: AckSent(log, name) ==> AckSent(more, name)
  {
    forall name | AckSent(log, name)
      ensures AckSent(more, name)
    {
      var k :| 0 <= k < |log| && log[k].Acked? && log[k].directory == name;
      assert more[k] == log[k];
    }
  }

  lemma RootExtendsItself(root: Root)
    ensures RootExtends(root, root)
  {
  }

  lemma RootExtendsTransitive(a: Root, b: Root, c: Root)
    requires RootExtends(a, b) && RootExtends(b, c)
    ensures RootExtends(a, c)
  {
  }

  // ---- What one run may add to the log ----

  /** Over an existing receipt `held`: nothing unless it matches, is joined and is not acknowledged;
      then at most one acknowledgement and its record. Never a join. */
  ghost predicate ReplayLog(before: seq<Event>, after: seq<Event>, name: string, held: ReceiptDir, request: Request,
                            deviceId: string, world: World, o: Outcome<Receipt, ConsumeError>)
    requires held.manifest.Some?
  {
    var r := held.manifest.value;
    if !ReceiptMatches(r, request, deviceId) || !r.joined then after == before && !o.Done?
    else if r.welcomeAcked then after == before && (o.Done? ==> o.value == r.(classification := "already_joined"))
    else
      var acked := before + [Acked(name, request.relaySpaceId, request.envelopeId, held)];
      && (after == before || after == acked
          || (world.ack.Some? && after == acked + [Saved(name, WithAck(r, "ack_retried_after_join", world.ack.value))]))
      && (o.Done? ==> world.ack.Some? && o.value == WithAck(r, "ack_retried_after_join", world.ack.value)
                      && after == acked + [Saved(name, o.value)])
  }

  /** The first receipt of an envelope the run may consume: in the inbox, for this device, of the right
      type and decodable. */
  ghost predicate FreshReceipt(lib: Library, deviceId: string, request: Request, inbox: seq<Envelope>, r: Receipt) {
    exists e ::
      && e in OfType(inbox, CONTENT_TYPE_WELCOME)
      && e.envelopeId == request.envelopeId && e.recipientDeviceId == deviceId
      && ArtifactOf(lib, e, CONTENT_TYPE_WELCOME).Done?
      && r == NewReceipt(lib, e, ArtifactOf(lib, e, CONTENT_TYPE_WELCOME).value, request, r.welcomePersistedAt)
  }

  /** Without a receipt: a prefix of receipt, attempt, join, join record, acknowledgement, record. */
  ghost predicate FreshLog(lib: Library, before: seq<Event>, after: seq<Event>, name: string, request: Request,
                           deviceId: string, world: World, o: Outcome<Receipt, ConsumeError>)
  {
    var n := |before|;
    && before <= after && |after| <= n + 6
    && (n < |after| ==>
          && after[n].Saved? && after[n].directory == name
          && world.inbox.Some? && FreshReceipt(lib, deviceId, request, world.inbox.value, after[n].receipt)
          && after[n].receipt.welcomePersistedAt == world.times.persisted)
    && (n + 1 < |after| ==>
          && after[n + 1].Saved? && after[n + 1].directory == name
          && after[n + 1].receipt == WithAttempt(after[n].receipt, world.times.attempted))
    && (n + 2 < |after| ==> after[n + 2] == Joined(name, world.join))
    && (n + 3 < |after| ==>
          && after[n + 3].Saved? && after[n + 3].directory == name && world.join.Some?
          && after[n + 3].receipt == WithJoin(after[n + 1].receipt, world.join.value, world.times.joined))
    && (n + 4 < |after| ==>
          && after[n + 4].Acked? && after[n + 4].directory == name
          && after[n + 4].relaySpaceId == request.relaySpaceId && after[n + 4].envelopeId == request.envelopeId
          && after[n + 4].held.manifest == Some(after[n + 3].receipt))
    && (n + 5 < |after| ==>
          world.ack.Some? && after[n + 5] == Saved(name, WithAck(after[n + 3].receipt, "joined_and_acked", world.ack.value)))
    && (o.Done? ==> |after| == n + 6 && o.value == after[n + 5].receipt)
  }

  /** What a run adds after it has persisted the receipt of its envelope. */
  ghost predicate JoinAndAckLog(before: seq<Event>, after: seq<Event>, name: string, receipt: Receipt, request: Request, world: World,
                                o: Outcome<Receipt, ConsumeError>)
  {
    var n := |before|;
    && before <= after && |after| <= n + 5
    && (n < |after| ==>
          && after[n].Saved? && after[n].directory == name
          && after[n].receipt == WithAttempt(receipt, world.times.attempted))
    && (n + 1 < |after| ==> after[n + 1] == Joined(name, world.join))
    && (n + 2 < |after| ==>
          && after[n + 2].Saved? && after[n + 2].directory == name && world.join.Some?
          && after[n + 2].receipt == WithJoin(after[n].receipt, world.join.value, world.times.joined))
    && (n + 3 < |after| ==>
          && after[n + 3].Acked? && after[n + 3].directory == name
          && after[n + 3].relaySpaceId == request.relaySpaceId && after[n + 3].envelopeId == request.envelopeId
          && after[n + 3].held.manifest == Some(after[n + 2].receipt))
    && (n + 4 < |after| ==>
          world.ack.Some? && after[n + 4] == Saved(name, WithAck(after[n + 2].receipt, "joined_and_acked", world.ack.value)))
    && (o.Done? ==> |after| == n + 5 && o.value == after[n + 4].receipt)
  }

  lemma PersistedThenJoined(lib: Library, before: seq<Event>, after: seq<Event>, name: string, receipt: Receipt, request: Request,
                            deviceId: string, world: World, o: Outcome<Receipt, ConsumeError>)
    requires world.inbox.Some? && FreshReceipt(lib, deviceId, request, world.inbox.value, receipt)
    requires receipt.welcomePersistedAt == world.times.persisted
    requires JoinAndAckLog(before + [Saved(name, receipt)], after, name, receipt, request, world, o)
    ensures FreshLog(lib, before, after, name, request, deviceId, world, o)
  {
    hide FreshReceipt, WithAttempt, WithJoin, WithAck;
    assert after[|before|] == (before + [Saved(name, receipt)])[|before|];
  }

  // ---- The command ----

  class Consumer {
    const lib: Library
    const deviceId: string
    var root: Root
    var locked: bool
    ghost var log: seq<Event>

    ghost predicate Valid()
      reads this
    {
      Inv(lib, deviceId, root, log)
    }

    constructor (lib: Library, deviceId: string)
      ensures Valid() && this.lib == lib && this.deviceId == deviceId && root == map[] && log == [] && !locked
    {
      this.lib, this.deviceId, this.root, this.locked, this.log := lib, deviceId, map[], false, [];
    }

    method Prepare(name: string, dir: ReceiptDir)
      requires Valid() && dir.manifest == DirAt(root, name).manifest
      requires dir.manifest.Some? ==> dir.artifact == DirAt(root, name).artifact
      modifies this
      ensures Valid() && root == old(root)[name := dir] && RootExtends(old(root), root)
      ensures log == old(log) && locked == old(locked)
    {
      PreparationKeepsInv(lib, deviceId, root, log, name, dir);
      root := root[name := dir];
    }

    method WriteTemporary(name: string, r: Receipt) returns (o: Outcome<(), ConsumeError>)
      requires Valid()
      modifies this
      ensures Valid() && RootExtends(old(root), root) && log == old(log) && locked == old(locked)
      ensures forall other :: other != name ==> DirAt(root, other) == DirAt(old(root), other)
      ensures DirAt(root, name) == DirAt(old(root), name).(manifestTemp := DirAt(root, name).manifestTemp)
      ensures o.Done? ==> DirAt(root, name).manifestTemp == Some(WholeReceipt(r))
      ensures o.Refused? ==> o.error == IoError
    {
      hide Inv, RootExtends;
      ghost var before := root;
      RootExtendsItself(root);
      var _ :- Io(IoError);
      Prepare(name, DirAt(root, name).(manifestTemp := Some(TornReceipt)));
      ghost var torn := root;
      var _ :- Io(IoError);
      Prepare(name, DirAt(root, name).(manifestTemp := Some(WholeReceipt(r))));
      RootExtendsTransitive(before, torn, root);
      return Done(());
    }

    /** Writes `receipt.json.tmp` and renames it over `receipt.json`. */
    method WriteReceipt(name: string, r: Receipt) returns (o: Outcome<(), ConsumeError>)
      requires Valid() && Backed(lib, deviceId, name, DirAt(root, name).artifact, r)
      requires var old_ := DirAt(root, name).manifest;
               old_.Some? ==> Identity(old_.value) == Identity(r) && !old_.value.welcomeAcked && (old_.value.joined ==> r.joined)
      requires r.joined ==> JoinAnswered(log, |log|, name, true)
      requires r.welcomeAcked ==> AckSent(log, name)
      modifies this
      ensures Valid() && RootExtends(old(root), root) && locked == old(locked)
      ensures log == old(log) || log == old(log) + [Saved(name, r)]
      ensures forall other :: other != name ==> DirAt(root, other) == DirAt(old(root), other)
      ensures DirAt(root, name).artifact == DirAt(old(root), name).artifact
      ensures DirAt(root, name).manifest == if log == old(log) then DirAt(old(root), name).manifest else Some(r)
      ensures o.Done? ==> log != old(log) && DirAt(root, name).manifestTemp.None?
      ensures o.Refused? ==> o.error == IoError && log == old(log)
    {
      hide Inv, Backed, RootExtends, Identity, JoinAnswered;
      ghost var before := root;
      var _ :- WriteTemporary(name, r);
      ghost var whole := root;
      var _ :- Io(IoError);
      var dir := DirAt(root, name);
      var after := dir.(manifestTemp := None, manifest := Some(dir.manifestTemp.value.receipt));
      SaveKeepsInv(lib, deviceId, root, log, name, after, r);
      root, log := root[name := after], log + [Saved(name, r)];
      RootExtendsTransitive(before, whole, root);
      if * {
        return Crashed;
      }
      return Done(());
    }

    /** Runs `conversation-join` in the sidecar. */
    method RunJoin(name: string, reply: Option<JoinReply>) returns (o: Outcome<JoinReply, ConsumeError>)
      requires Valid() && DirAt(root, name).manifest.Some?
      requires forall i | 0 <= i < |log| && log[i].Joined? :: log[i].directory != name
      modifies this
      ensures Valid() && root == old(root) && locked == old(locked)
      ensures log == old(log) || log == old(log) + [Joined(name, reply)]
      ensures o.Done? ==> reply == Some(o.value) && log != old(log)
                          && JoinAnswered(log, |log|, name, ReportsJoined(o.value))
      ensures o.Refused? ==> o.error == JoinFailed && reply.None?
    {
      hide Inv;
      if * {
        return Crashed;
      }
      JoinKeepsInv(lib, deviceId, root, log, name, reply);
      log := log + [Joined(name, reply)];
      assert log[|log| - 1] == Joined(name, reply);
      if * {
        return Crashed;
      }
      if reply.None? {
        return Refused(JoinFailed);
      }
      return Done(reply.value);
    }

    /** Asks the server to acknowledge an envelope, which has to be that of the receipt in this directory. */
    method SendAck(name: string, relaySpaceId: string, envelopeId: string, reply: Option<AckReply>)
        returns (o: Outcome<AckReply, ConsumeError>)
      requires Valid() && name in root && root[name].manifest.Some? && !root[name].manifest.value.welcomeAcked
      requires JoinAnswered(log, |log|, name, root[name].manifest.value.joined)
      requires root[name].manifest.value.envelopeId == envelopeId
      modifies this
      ensures Valid() && root == old(root) && locked == old(locked)
      ensures log == old(log) || log == old(log) + [Acked(name, relaySpaceId, envelopeId, root[name])]
      ensures o.Done? ==> reply == Some(o.value) && log != old(log)
      ensures log != old(log) ==> AckSent(log, name)
      ensures o.Refused? ==> o.error == AckFailed && reply.None?
      ensures forall joined :: old(JoinAnswered(log, |log|, name, joined)) ==> JoinAnswered(log, |log|, name, joined)
    {
      hide Inv;
      if * {
        return Crashed;
      }
      AckKeepsInv(lib, deviceId, root, log, name, relaySpaceId, envelopeId);
      ghost var before := log;
      log := log + [Acked(name, relaySpaceId, envelopeId, root[name])];
      assert log[|log| - 1].Acked? && log[|log| - 1].directory == name;
      forall joined | JoinAnswered(before, |before|, name, joined)
        ensures JoinAnswered(log, |log|, name, joined)
      {
        JoinAnsweredStays(before, log, |before|, name, joined);
      }
      if * {
        return Crashed;
      }
      if reply.None? {
        return Refused(AckFailed);
      }
      return Done(reply.value);
    }

    /** Acknowledges a recorded join and records the reply. */
    method AckAndRecord(name: string, receipt: Receipt, classification: string, relaySpaceId: string, envelopeId: string,
                        reply: Option<AckReply>)
        returns (o: Outcome<Receipt, ConsumeError>)
      requires Valid() && name in root && root[name].manifest == Some(receipt) && !receipt.welcomeAcked
      requires receipt.envelopeId == envelopeId
      requires JoinAnswered(log, |log|, name, receipt.joined)
      modifies this
      ensures Valid() && RootExtends(old(root), root) && locked == old(locked)
      ensures forall other :: other != name ==> DirAt(root, other) == DirAt(old(root), other)
      ensures var acked := old(log) + [Acked(name, relaySpaceId, envelopeId, old(root[name]))];
              && (log == old(log) || log == acked
                  || (reply.Some? && log == acked + [Saved(name, WithAck(receipt, classification, reply.value))]))
              && (o.Done? ==> reply.Some? && o.value == WithAck(receipt, classification, reply.value)
                              && log == acked + [Saved(name, o.value)])
      ensures o.Done? ==> DirAt(root, name).manifest == Some(o.value)
      ensures o.Refused? ==> o.error in {AckFailed, IoError} && (o.error == AckFailed ==> reply.None?)
    {
      hide Inv, RootExtends, Backed, Identity, JoinAnswered;
      RootExtendsItself(root);
      var answered :- SendAck(name, relaySpaceId, envelopeId, reply);
      var updated := WithAck(receipt, classification, answered);
      StaysBacked(lib, deviceId, root, log, name, updated, receipt, classification, answered);
      var _ :- WriteReceipt(name, updated);
      return Done(updated);
    }

    /** A run that finds a receipt. */
    method Replay(name: string, request: Request, world: World) returns (o: Outcome<Receipt, ConsumeError>)
      requires Valid() && name in root && root[name].manifest.Some?
      modifies this
      ensures old(log) <= log
      ensures Valid() && RootExtends(old(root), root) && locked == old(locked)
      ensures forall other :: other != name ==> DirAt(root, other) == DirAt(old(root), other)
      ensures ReplayLog(old(log), log, name, old(root[name]), request, deviceId, world, o)
      ensures o.Done? ==> DirAt(root, name).manifest == if log == old(log) then DirAt(old(root), name).manifest else Some(o.value)
      ensures o.Refused? ==> o.error in {ReceiptConflict, IncompleteConsume, AckFailed, IoError}
                             && (o.error == AckFailed ==> world.ack.None?)
      ensures o == Refused(ReceiptConflict) <==> !ReceiptMatches(old(root[name]).manifest.value, request, deviceId)
      ensures o == Refused(IncompleteConsume) <==>
                ReceiptMatches(old(root[name]).manifest.value, request, deviceId) && !old(root[name]).manifest.value.joined
      ensures !ReceiptMatches(old(root[name]).manifest.value, request, deviceId) || !old(root[name]).manifest.value.joined ==>
                root == old(root)
    {
      hide Inv, RootExtends, Backed, Identity, JoinAnswered;
      RootExtendsItself(root);
      var receipt := root[name].manifest.value;
      if !ReceiptMatches(receipt, request, deviceId) {
        return Refused(ReceiptConflict);
      }
      if receipt.joined && !receipt.welcomeAcked {
        JoinedWasReported(lib, deviceId, root, log, name);
        o := AckAndRecord(name, receipt, "ack_retried_after_join", request.relaySpaceId, request.envelopeId, world.ack);
      } else if receipt.joined && receipt.welcomeAcked {
        return Done(receipt.(classification := "already_joined"));
      } else {
        return Refused(IncompleteConsume);
      }
    }

    /** Writes the temporary artifact and renames it into place. */
    method StoreArtifact(name: string, payload: Bytes) returns (o: Outcome<(), ConsumeError>)
      requires Valid() && DirAt(root, name).manifest.None?
      modifies this
      ensures Valid() && RootExtends(old(root), root) && log == old(log) && locked == old(locked)
      ensures forall other :: other != name ==> DirAt(root, other) == DirAt(old(root), other)
      ensures DirAt(root, name).manifest.None?
      ensures o.Done? ==> DirAt(root, name).artifact == Some(payload) && DirAt(root, name).artifactTemp.None?
      ensures o.Refused? ==> o.error == IoError && DirAt(root, name).artifact == DirAt(old(root), name).artifact
    {
      hide Inv, RootExtends;
      RootExtendsItself(root);
      ghost var before := root;
      var torn: Bytes := *;
      Prepare(name, DirAt(root, name).(artifactTemp := Some(torn)));
      ghost var half := root;
      var _ :- Io(IoError);
      Prepare(name, DirAt(root, name).(artifactTemp := Some(payload)));
      RootExtendsTransitive(before, half, root);
      var _ :- Io(IoError);
      ghost var whole := root;
      var dir := DirAt(root, name);
      Prepare(name, dir.(artifactTemp := None, artifact := dir.artifactTemp));
      RootExtendsTransitive(before, whole, root);
      if * {
        return Crashed;
      }
      return Done(());
    }

    /** Fetches, stores and records the Welcome of the requested envelope. */
    method PersistReceipt(name: string, request: Request, inbox: Option<seq<Envelope>>, now: string)
        returns (o: Outcome<Receipt, ConsumeError>, selectedId: string)
      requires Valid() && DirAt(root, name).manifest.None? && name == SafeReceiptId(lib, request.envelopeId)
      modifies this
      ensures Valid() && RootExtends(old(root), root) && locked == old(locked)
      ensures forall other :: other != name ==> DirAt(root, other) == DirAt(old(root), other)
      ensures log == old(log)
              || (&& |log| == |old(log)| + 1 && old(log) <= log
                  && log[|old(log)|].Saved? && log[|old(log)|].directory == name
                  && inbox.Some? && FreshReceipt(lib, deviceId, request, inbox.value, log[|old(log)|].receipt)
                  && log[|old(log)|].receipt.welcomePersistedAt == now)
      ensures o.Done? ==> log == old(log) + [Saved(name, o.value)] && DirAt(root, name).manifest == Some(o.value)
                          && o.value.envelopeId == request.envelopeId == selectedId && !o.value.welcomeAcked && !o.value.joined
      ensures o.Refused? ==> o.error !in {ReceiptConflict, LockUnavailable, IncompleteConsume, MissingArgument,
                                          UnsupportedReceiptSchema, ExpectedPayloadMismatch, JoinFailed, AckFailed}
                             && RefusalHolds(o.error, lib, inbox, CONTENT_TYPE_WELCOME, request.envelopeId, deviceId, "", true, true)
    {
      hide Inv, RootExtends, Backed, ArtifactOf, JoinAnswered;
      RootExtendsItself(root);
      ghost var before := root;
      selectedId := "";
      var fetched :- FetchArtifact(lib, inbox, CONTENT_TYPE_WELCOME, request.envelopeId, deviceId, "");
      var (e, payload) := fetched;
      selectedId := e.envelopeId;
      var _ :- StoreArtifact(name, payload);
      ghost var stored := root;
      var receipt := NewReceipt(lib, e, payload, request, now);
      FreshIsBacked(lib, deviceId, name, e, payload, request, now);
      var written := WriteReceipt(name, receipt);
      RootExtendsTransitive(before, stored, root);
      var _ :- written;
      return Done(receipt), selectedId;
    }

    /** Records the attempt, joins, and records what the sidecar reported. */
    method JoinAndRecord(name: string, receipt: Receipt, reply: Option<JoinReply>, times: Times)
        returns (o: Outcome<Receipt, ConsumeError>)
      requires Valid() && DirAt(root, name).manifest == Some(receipt) && !receipt.welcomeAcked && !receipt.joined
      requires forall i | 0 <= i < |log| && log[i].Joined? :: log[i].directory != name
      modifies this
      ensures Valid() && RootExtends(old(root), root) && locked == old(locked)
      ensures forall other :: other != name ==> DirAt(root, other) == DirAt(old(root), other)
      ensures JoinLog(old(log), log, name, receipt, reply, times)
      ensures o.Done? ==>
                && |log| == |old(log)| + 3 && o.value == log[|old(log)| + 2].receipt
                && name in root && root[name].manifest == Some(o.value)
                && o.value.envelopeId == receipt.envelopeId && !o.value.welcomeAcked
                && JoinAnswered(log, |log|, name, o.value.joined)
      ensures o.Refused? ==> o.error in {IoError, JoinFailed} && (o.error == JoinFailed ==> reply.None?)
    {
      hide Inv, RootExtends, Backed, Identity, JoinAnswered, AckSent;
      RootExtendsItself(root);
      ghost var before := root;
      var attempt := WithAttempt(receipt, times.attempted);
      StillBacked(lib, deviceId, root, log, name, attempt, receipt);
      var _ :- WriteReceipt(name, attempt);
      ghost var recorded, start := root, log;
      var answer :- RunJoin(name, reply);
      var joined := WithJoin(attempt, answer, times.joined);
      StillBacked(lib, deviceId, root, log, name, joined, attempt);
      var written := WriteReceipt(name, joined);
      RootExtendsTransitive(before, recorded, root);
      var _ :- written;
      JoinAnsweredStays(start + [Joined(name, reply)], log, |start| + 1, name, joined.joined);
      return Done(joined);
    }

    /** A run that finds no receipt. */
    method Fresh(name: string, request: Request, world: World) returns (o: Outcome<Receipt, ConsumeError>)
      requires Valid() && DirAt(root, name).manifest.None? && name == SafeReceiptId(lib, request.envelopeId)
      modifies this
      ensures old(log) <= log
      ensures Valid() && RootExtends(old(root), root) && locked == old(locked)
      ensures forall other :: other != name ==> DirAt(root, other) == DirAt(old(root), other)
      ensures FreshLog(lib, old(log), log, name, request, deviceId, world, o)
      ensures o.Done? ==> log != old(log) && DirAt(root, name).manifest == Some(o.value)
      ensures o.Refused? ==> o.error !in {ReceiptConflict, LockUnavailable, IncompleteConsume, MissingArgument,
                                          UnsupportedReceiptSchema, ExpectedPayloadMismatch}
                             && RefusalHolds(o.error, lib, world.inbox, CONTENT_TYPE_WELCOME, request.envelopeId, deviceId, "",
                                             world.join.Some?, world.ack.Some?)
    {
      hide Inv, RootExtends, Backed, Identity, JoinAnswered, FreshReceipt, ReplayLog, WithAttempt, WithJoin, WithAck, AckSent,
        JoinsReported, RefusalHolds;
      ghost var before := root;
      NoReceiptNoJoin(lib, deviceId, root, log, name);
      var persisted, selectedId := PersistReceipt(name, request, world.inbox, world.times.persisted);
      if persisted.Refused? {
        EarlyRefusalHolds(persisted.error, lib, world.inbox, CONTENT_TYPE_WELCOME, request.envelopeId, deviceId, "",
                          world.join.Some?, world.ack.Some?);
      }
      var receipt :- persisted;
      ghost var first := root;
      o := JoinAndAck(name, receipt, request, world, selectedId);
      RootExtendsTransitive(before, first, root);
      PersistedThenJoined(lib, old(log), log, name, receipt, request, deviceId, world, o);
    }

    /** Joins, records the answer, acknowledges, and records the reply. */
    method JoinAndAck(name: string, receipt: Receipt, request: Request, world: World, selectedId: string)
        returns (o: Outcome<Receipt, ConsumeError>)
      requires Valid() && DirAt(root, name).manifest == Some(receipt) && !receipt.welcomeAcked && !receipt.joined
      requires forall i | 0 <= i < |log| && log[i].Joined? :: log[i].directory != name
      requires receipt.envelopeId == request.envelopeId == selectedId
      modifies this
      ensures Valid() && RootExtends(old(root), root) && locked == old(locked)
      ensures forall other :: other != name ==> DirAt(root, other) == DirAt(old(root), other)
      ensures JoinAndAckLog(old(log), log, name, receipt, request, world, o)
      ensures o.Done? ==> DirAt(root, name).manifest == Some(o.value)
      ensures o.Refused? ==> o.error in {IoError, JoinFailed, AckFailed}
                             && RefusalHolds(o.error, lib, world.inbox, CONTENT_TYPE_WELCOME, request.envelopeId, deviceId, "",
                                             world.join.Some?, world.ack.Some?)
    {
      hide Inv, RootExtends, Backed, Identity, JoinAnswered, WithAttempt, WithJoin, WithAck, AckSent, JoinsReported, RefusalHolds;
      ghost var first := root;
      var attempted := JoinAndRecord(name, receipt, world.join, world.times);
      if attempted.Refused? {
        LateRefusalHolds(attempted.error, lib, world.inbox, CONTENT_TYPE_WELCOME, request.envelopeId, deviceId, "",
                         world.join.Some?, world.ack.Some?);
      }
      var joined :- attempted;
      ghost var second := root;
      o := AckAndRecord(name, joined, "joined_and_acked", request.relaySpaceId, selectedId, world.ack);
      if o.Refused? {
        LateRefusalHolds(o.error, lib, world.inbox, CONTENT_TYPE_WELCOME, request.envelopeId, deviceId, "",
                         world.join.Some?, world.ack.Some?);
      }
      RootExtendsTransitive(first, second, root);
    }

    method ConsumeLocked(name: string, request: Request, world: World) returns (o: Outcome<Receipt, ConsumeError>)
      requires Valid() && locked && name == SafeReceiptId(lib, request.envelopeId)
      modifies this
      ensures old(log) <= log
      ensures Valid() && RootExtends(old(root), root) && locked == old(locked)
      ensures forall other :: other != name ==> DirAt(root, other) == DirAt(old(root), other)
      ensures if DirAt(old(root), name).manifest.Some? then
                ReplayLog(old(log), log, name, DirAt(old(root), name), request, deviceId, world, o)
              else FreshLog(lib, old(log), log, name, request, deviceId, world, o)
      ensures o.Done? ==> DirAt(root, name).manifest == if log == old(log) then DirAt(old(root), name).manifest else Some(o.value)
      ensures o != Refused(MissingArgument)
      ensures o.Refused? ==>
                && o.error !in {UnsupportedReceiptSchema, ExpectedPayloadMismatch}
                && RefusalHolds(o.error, lib, world.inbox, CONTENT_TYPE_WELCOME, request.envelopeId, deviceId, "",
                                world.join.Some?, world.ack.Some?)
      ensures o == Refused(ReceiptConflict) ==>
                DirAt(old(root), name).manifest.Some? && !ReceiptMatches(DirAt(old(root), name).manifest.value, request, deviceId)
      ensures LooksIncomplete(DirAt(old(root), name), world.stat) ==>
                o == Refused(IncompleteConsume) && root == old(root) && log == old(log)
      ensures o == Refused(IncompleteConsume) ==>
                LooksIncomplete(DirAt(old(root), name), world.stat) || Unjoined(DirAt(old(root), name), request, deviceId)
      ensures Unjoined(DirAt(old(root), name), request, deviceId) ==> !o.Done? && root == old(root) && log == old(log)
    {
      hide Inv, RootExtends, Backed;
      RootExtendsItself(root);
      var dir := DirAt(root, name);
      if dir.artifact.Some? && world.stat.artifact {
        if dir.manifest.None? || !world.stat.manifest {
          return Refused(IncompleteConsume);
        }
      }
      var _ :- Io(IoError);
      if dir.manifest.Some? {
        ManifestSchema(lib, deviceId, root, log, name);
        if dir.manifest.value.schemaVersion != RECEIPT_SCHEMA {
          return Refused(UnsupportedReceiptSchema);
        }
        o := Replay(name, request, world);
      } else {
        o := Fresh(name, request, world);
      }
    }

    /** `openmls-relay-welcome-consume-dev` */
    method Consume(request: Request, world: World) returns (o: Outcome<Receipt, ConsumeError>)
      requires Valid()
      modifies this
      ensures old(log) <= log
      ensures Valid() && RootExtends(old(root), root)
      ensures var name := SafeReceiptId(lib, request.envelopeId);
              && (forall other :: other != name ==> DirAt(root, other) == DirAt(old(root), other))
              && (if DirAt(old(root), name).manifest.Some? then
                    ReplayLog(old(log), log, name, DirAt(old(root), name), request, deviceId, world, o)
                  else FreshLog(lib, old(log), log, name, request, deviceId, world, o))
              && (o.Done? ==>
                    DirAt(root, name).manifest == if log == old(log) then DirAt(old(root), name).manifest else Some(o.value))
      ensures o.Done? && log != old(log) ==>
                && world.ack.Some? && (o.value.welcomeAcked <==> world.ack.value.deliveryState == "acknowledged")
                && o.value.ackedAt == world.ack.value.acknowledgedAt && o.value.ackDeliveryState == world.ack.value.deliveryState
      ensures o.Done? && log == old(log) ==>
                var held := DirAt(old(root), SafeReceiptId(lib, request.envelopeId)).manifest;
                held.Some? && held.value.joined && held.value.welcomeAcked && o.value == held.value.(classification := "already_joined")
      ensures o == Refused(MissingArgument) <==>
                || TrimSpace(request.relaySpaceId) == "" || TrimSpace(request.envelopeId) == ""
                || TrimSpace(request.sidecarDeviceLabel) == "" || TrimSpace(request.conversationLabel) == ""
      ensures o == Refused(ReceiptConflict) ==>
                var held := DirAt(old(root), SafeReceiptId(lib, request.envelopeId));
                held.manifest.Some? && !ReceiptMatches(held.manifest.value, request, deviceId)
      ensures o.Refused? ==>
                && o.error !in {UnsupportedReceiptSchema, ExpectedPayloadMismatch}
                && RefusalHolds(o.error, lib, world.inbox, CONTENT_TYPE_WELCOME, request.envelopeId, deviceId, "",
                                world.join.Some?, world.ack.Some?)
      ensures old(locked) ==> locked && !o.Done? && root == old(root) && log == old(log)
      ensures o.Crashed? && (root != old(root) || log != old(log)) ==> locked
      ensures var held := DirAt(old(root), SafeReceiptId(lib, request.envelopeId));
              && (o == Refused(IncompleteConsume) ==> LooksIncomplete(held, world.stat) || Unjoined(held, request, deviceId))
              && (LooksIncomplete(held, world.stat) || Unjoined(held, request, deviceId) ==>
                    !o.Done? && root == old(root) && log == old(log))
    {
      hide Inv, RootExtends, Backed;
      RootExtendsItself(root);
      if TrimSpace(request.relaySpaceId) == "" || TrimSpace(request.envelopeId) == ""
        || TrimSpace(request.sidecarDeviceLabel) == "" || TrimSpace(request.conversationLabel) == ""
      {
        return Refused(MissingArgument);
      }
      var _ :- Io(IoError);
      if locked {
        return Refused(LockUnavailable);
      }
      var _ :- Io(LockUnavailable);
      locked := true;
      var name := BuildSafeReceiptId(lib, request.envelopeId);
      o := ConsumeLocked(name, request, world);
      if !o.Crashed? {
        locked := *;
      }
    }
  }

  lemma ManifestSchema(lib: Library, deviceId: string, root: Root, log: seq<Event>, name: string)
    requires Inv(lib, deviceId, root, log) && name in root && root[name].manifest.Some?
    ensures root[name].manifest.value.schemaVersion == RECEIPT_SCHEMA
  {
    assert Backed(lib, deviceId, name, root[name].artifact, root[name].manifest.value);
  }

  /** What joining adds to the log: a prefix of attempt, join, join record. */
  ghost predicate JoinLog(before: seq<Event>, after: seq<Event>, name: string, receipt: Receipt, reply: Option<JoinReply>,
                          times: Times)
  {
    var n := |before|;
    && before <= after && |after| <= n + 3
    && (n < |after| ==>
          && after[n].Saved? && after[n].directory == name
          && after[n].receipt == WithAttempt(receipt, times.attempted))
    && (n + 1 < |after| ==> after[n + 1] == Joined(name, reply))
    && (n + 2 < |after| ==>
          && after[n + 2].Saved? && after[n + 2].directory == name && reply.Some?
          && after[n + 2].receipt == WithJoin(after[n].receipt, reply.value, times.joined))
  }

  /** One invocation, with what the outside world would answer. */
  datatype Run = Run(request: Request, world: World)

  /** Any number of runs, each possibly cut short; an operator may clear a lock in between. A directory
      with an artifact and no receipt is never touched again while its artifact can be seen. */
  method RunAll(c: Consumer, runs: seq<Run>)
    requires c.Valid()
    modifies c
    ensures c.Valid() && RootExtends(old(c.root), c.root) && old(c.log) <= c.log
    ensures forall name | DirAt(old(c.root), name).manifest.Some? && DirAt(old(c.root), name).manifest.value.welcomeAcked ::
              NoAckSince(c.log, |old(c.log)|, name)
    ensures (forall run | run in runs :: run.world.stat.artifact) ==>
              forall name | Stuck(DirAt(old(c.root), name)) :: DirAt(c.root, name) == DirAt(old(c.root), name)
  {
    hide Inv, RootExtends, ReplayLog, FreshLog, SafeReceiptId, ReceiptMatches;
    RootExtendsItself(c.root);
    for k := 0 to |runs|
      invariant c.Valid() && RootExtends(old(c.root), c.root) && old(c.log) <= c.log
      invariant forall name | DirAt(old(c.root), name).manifest.Some? && DirAt(old(c.root), name).manifest.value.welcomeAcked ::
                  NoAckSince(c.log, |old(c.log)|, name)
      invariant (forall run | run in runs :: run.world.stat.artifact) ==>
                  forall name | Stuck(DirAt(old(c.root), name)) :: DirAt(c.root, name) == DirAt(old(c.root), name)
    {
      ghost var before, log := c.root, c.log;
      if * {
        c.locked := false;
      }
      var o := c.Consume(runs[k].request, runs[k].world);
      forall name | DirAt(old(c.root), name).manifest.Some? && DirAt(old(c.root), name).manifest.value.welcomeAcked
        ensures NoAckSince(c.log, |old(c.log)|, name)
      {
        AckedStays(old(c.root), before, name);
        QuietRun(c.lib, before, log, c.log, runs[k].request, c.deviceId, runs[k].world, o, name);
      }
      RootExtendsTransitive(old(c.root), before, c.root);
    }
  }

  lemma NoReceiptNoJoin(lib: Library, deviceId: string, root: Root, log: seq<Event>, name: string)
    requires Inv(lib, deviceId, root, log) && DirAt(root, name).manifest.None?
    ensures forall i | 0 <= i < |log| && log[i].Joined? :: log[i].directory != name
  {
  }

  lemma FreshIsBacked(lib: Library, deviceId: string, name: string, e: Envelope, payload: Bytes, request: Request, now: string)
    requires name == SafeReceiptId(lib, e.envelopeId) && e.recipientDeviceId == deviceId
    requires ArtifactOf(lib, e, CONTENT_TYPE_WELCOME) == Done(payload)
    ensures Backed(lib, deviceId, name, Some(payload), NewReceipt(lib, e, payload, request, now))
  {
  }

  lemma StillBacked(lib: Library, deviceId: string, root: Root, log: seq<Event>, name: string, updated: Receipt, r: Receipt)
    requires Inv(lib, deviceId, root, log) && DirAt(root, name).manifest == Some(r)
    requires (exists now :: updated == WithAttempt(r, now)) || (exists reply, now :: updated == WithJoin(r, reply, now))
    ensures Backed(lib, deviceId, name, DirAt(root, name).artifact, updated) && Identity(updated) == Identity(r)
  {
    assert Backed(lib, deviceId, name, root[name].artifact, root[name].manifest.value);
  }

  lemma JoinedWasReported(lib: Library, deviceId: string, root: Root, log: seq<Event>, name: string)
    requires Inv(lib, deviceId, root, log) && name in root && root[name].manifest.Some? && root[name].manifest.value.joined
    ensures JoinAnswered(log, |log|, name, true)
  {
  }

  lemma StaysBacked(lib: Library, deviceId: string, root: Root, log: seq<Event>, name: string, updated: Receipt,
                    r: Receipt, classification: string, reply: AckReply)
    requires Inv(lib, deviceId, root, log) && name in root && root[name].manifest == Some(r)
    requires updated == WithAck(r, classification, reply)
    ensures Backed(lib, deviceId, name, root[name].artifact, updated) && Identity(updated) == Identity(r)
    ensures updated.joined == r.joined
  {
    assert Backed(lib, deviceId, name, root[name].artifact, root[name].manifest.value);
  }

  // ---- Over any number of runs, crashes and replies ----

  /** Which later requests a receipt accepts: those for the same envelope, device and labels that name the
      relay space of the envelope. */
  lemma AcceptedLaterExactly(lib: Library, deviceId: string, request: Request, inbox: seq<Envelope>, r: Receipt, other: Request,
                             otherDevice: string)
    requires FreshReceipt(lib, deviceId, request, inbox, r)
    ensures ReceiptMatches(r, other, otherDevice)
            <==> && other.envelopeId == request.envelopeId && otherDevice == deviceId && other.relaySpaceId == r.relaySpaceId
                 && TrimSpace(other.sidecarDeviceLabel) == TrimSpace(request.sidecarDeviceLabel)
                 && TrimSpace(other.conversationLabel) == TrimSpace(request.conversationLabel)
  {
    hide ArtifactOf, OfType, TrimSpace;
  }

  /** The receipt a run wrote is that of its request exactly when the envelope named the relay space it
      was fetched from; repeating the request is refused otherwise. */
  lemma RepeatIsAcceptedExactly(lib: Library, deviceId: string, request: Request, inbox: seq<Envelope>, r: Receipt)
    requires FreshReceipt(lib, deviceId, request, inbox, r)
    ensures ReceiptMatches(r, request, deviceId) <==> r.relaySpaceId == request.relaySpaceId
  {
    hide ArtifactOf, OfType, TrimSpace;
  }

  /** The relay space a first run acknowledges in is that of its receipt exactly when the receipt matches
      the request. */
  lemma FirstAckNamesItsSpace(lib: Library, before: seq<Event>, after: seq<Event>, name: string, request: Request, deviceId: string,
                              world: World, o: Outcome<Receipt, ConsumeError>)
    requires FreshLog(lib, before, after, name, request, deviceId, world, o) && |after| > |before| + 4
    ensures after[|before| + 4].Acked? && after[|before|].Saved?
    ensures after[|before| + 4].relaySpaceId == after[|before|].receipt.relaySpaceId
            <==> ReceiptMatches(after[|before|].receipt, request, deviceId)
  {
    hide FreshReceipt, ReceiptMatches;
    RepeatIsAcceptedExactly(lib, deviceId, request, world.inbox.value, after[|before|].receipt);
  }

  predicate StepByStep(lib: Library, steps: seq<Event>, name: string, request: Request, deviceId: string, world: World)
    requires |steps| == 6 && world.inbox.Some? && world.join.Some? && world.ack.Some?
  {
    && steps[0].Saved? && steps[1].Saved? && steps[3].Saved? && steps[5].Saved?
    && (exists e | e in world.inbox.value ::
          && e.contentType == CONTENT_TYPE_WELCOME && e.envelopeId == request.envelopeId && e.recipientDeviceId == deviceId
          && ArtifactOf(lib, e, CONTENT_TYPE_WELCOME).Done?
          && RecordsEnvelope(lib, e, ArtifactOf(lib, e, CONTENT_TYPE_WELCOME).value, request, steps[0].receipt))
    && steps[0].receipt.welcomePersistedAt == world.times.persisted && !steps[0].receipt.joined && !steps[0].receipt.welcomeAcked
    && RecordsAttempt(steps[0].receipt, steps[1].receipt, world.times.attempted)
    && steps[2] == Joined(name, world.join)
    && RecordsJoin(steps[1].receipt, steps[3].receipt, world.join.value, world.times.joined)
    && steps[4].Acked? && steps[4].relaySpaceId == request.relaySpaceId && steps[4].envelopeId == request.envelopeId
    && RecordsAck(steps[3].receipt, steps[5].receipt, "joined_and_acked", world.ack.value)
  }

  /** What the receipts of a first run say, step by step: the envelope, then the attempt, then the sidecar's
      answer, then the server's; nothing else differs between them. */
  lemma FirstRunRecords(lib: Library, before: seq<Event>, after: seq<Event>, name: string, request: Request, deviceId: string,
                        world: World, o: Outcome<Receipt, ConsumeError>)
    requires FreshLog(lib, before, after, name, request, deviceId, world, o) && o.Done?
    ensures world.inbox.Some? && world.join.Some? && world.ack.Some? && |after| == |before| + 6
    ensures StepByStep(lib, after[|before|..], name, request, deviceId, world) && after[|after| - 1] == Saved(name, o.value)
  {
    hide RecordsEnvelope, RecordsAttempt, RecordsJoin, RecordsAck, WithAttempt, WithJoin, WithAck, NewReceipt, ArtifactOf, OfType;
    var n := |before|;
    var e :| && e in OfType(world.inbox.value, CONTENT_TYPE_WELCOME)
             && e.envelopeId == request.envelopeId && e.recipientDeviceId == deviceId
             && ArtifactOf(lib, e, CONTENT_TYPE_WELCOME).Done?
             && after[n].receipt == NewReceipt(lib, e, ArtifactOf(lib, e, CONTENT_TYPE_WELCOME).value, request,
                                               after[n].receipt.welcomePersistedAt);
    FirstReceiptRecords(lib, e, ArtifactOf(lib, e, CONTENT_TYPE_WELCOME).value, request, after[n].receipt.welcomePersistedAt);
    OfTypeHas(world.inbox.value, CONTENT_TYPE_WELCOME, e);
    AttemptIsRecorded(after[n].receipt, world.times.attempted);
    JoinIsRecorded(after[n + 1].receipt, world.join.value, world.times.joined);
    AckIsRecorded(after[n + 3].receipt, "joined_and_acked", world.ack.value);
  }

  /** After a completed run to which the server answered "acknowledged", no later run sends another
      acknowledgement for that directory, and its receipt stays. */
  method AcknowledgedRunIsTheLast(c: Consumer, request: Request, world: World, later: seq<Run>)
      returns (o: Outcome<Receipt, ConsumeError>, ghost own: nat)
    requires c.Valid()
    modifies c
    ensures c.Valid() && old(c.log) <= c.log && |old(c.log)| <= own <= |c.log|
    ensures o.Done? ==>
              && own <= |old(c.log)| + 6
              && (own == |old(c.log)| || c.log[own - 1] == Saved(SafeReceiptId(c.lib, request.envelopeId), o.value))
    ensures o.Done? && world.ack.Some? && world.ack.value.deliveryState == "acknowledged" ==>
              var name := SafeReceiptId(c.lib, request.envelopeId);
              && DirAt(c.root, name).manifest.Some? && DirAt(c.root, name).manifest.value.welcomeAcked
              && NoAckSince(c.log, own, name)
  {
    hide Inv, RootExtends, ReplayLog, FreshLog, SafeReceiptId, LooksIncomplete, Unjoined, ReceiptMatches, NoAckSince, RefusalHolds;
    o := c.Consume(request, world);
    own := |c.log|;
    ghost var name, first := SafeReceiptId(c.lib, request.envelopeId), c.root;
    ghost var acked := o.Done? && world.ack.Some? && world.ack.value.deliveryState == "acknowledged";
    assert acked ==> DirAt(first, name).manifest.Some? && DirAt(first, name).manifest.value.welcomeAcked;
    if o.Done? {
      RunEnds(c.lib, old(c.root), old(c.log), c.log, request, c.deviceId, world, o);
    }
    ghost var ran := c.log;
    RunAll(c, later);
    assert c.log[..own] == ran;
    if acked {
      AckedStays(first, c.root, name);
    }
  }

  /** From the event `n` on no acknowledgement is sent for this directory. */
  predicate NoAckSince(log: seq<Event>, n: nat, name: string) {
    forall k | n <= k < |log| && log[k].Acked? :: log[k].directory != name
  }

  lemma RunEnds(lib: Library, root: Root, before: seq<Event>, after: seq<Event>, request: Request, deviceId: string,
                world: World, o: Outcome<Receipt, ConsumeError>)
    requires var own := SafeReceiptId(lib, request.envelopeId);
             if DirAt(root, own).manifest.Some? then ReplayLog(before, after, own, DirAt(root, own), request, deviceId, world, o)
             else FreshLog(lib, before, after, own, request, deviceId, world, o)
    requires o.Done?
    ensures |before| <= |after| <= |before| + 6
    ensures after == before || after[|after| - 1] == Saved(SafeReceiptId(lib, request.envelopeId), o.value)
  {
    hide SafeReceiptId, FreshReceipt, WithAttempt, WithJoin, WithAck, ReceiptMatches;
  }

  lemma AckedStays(before: Root, after: Root, name: string)
    requires RootExtends(before, after)
    requires DirAt(before, name).manifest.Some? && DirAt(before, name).manifest.value.welcomeAcked
    ensures DirAt(after, name).manifest == DirAt(before, name).manifest
  {
    assert name in before && Extends(before[name], after[name]);
  }

  /** One run sends no acknowledgement for a directory whose receipt records one. */
  lemma QuietRun(lib: Library, root: Root, before: seq<Event>, after: seq<Event>, request: Request, deviceId: string,
                 world: World, o: Outcome<Receipt, ConsumeError>, name: string)
    requires before <= after && DirAt(root, name).manifest.Some? && DirAt(root, name).manifest.value.welcomeAcked
    requires var own := SafeReceiptId(lib, request.envelopeId);
             if DirAt(root, own).manifest.Some? then ReplayLog(before, after, own, DirAt(root, own), request, deviceId, world, o)
             else FreshLog(lib, before, after, own, request, deviceId, world, o)
    ensures NoAckSince(after, |before|, name)
  {
    hide SafeReceiptId, FreshReceipt, WithAttempt, WithJoin, WithAck, ReceiptMatches;
  }

  /** The sidecar is asked to join at most once per receipt directory. */
  lemma JoinsAtMostOnce(lib: Library, deviceId: string, root: Root, log: seq<Event>, i: nat, j: nat)
    requires Inv(lib, deviceId, root, log) && i < |log| && j < |log| && log[i].Joined? && log[j].Joined?
    requires log[i].directory == log[j].directory
    ensures i == j
  {
  }

  /** An acknowledgement follows a receipt on disk that says joined exactly when the sidecar did not
      answer its one join with `joined: false`; the sidecar's own success reply says true. In either
      case the receipt, its artifact and its envelope are the right ones and are still there. */
  lemma AckFollowsRecordedJoin(lib: Library, deviceId: string, root: Root, log: seq<Event>, k: nat)
    requires Inv(lib, deviceId, root, log) && k < |log| && log[k].Acked?
    ensures var e := log[k];
            && e.held.manifest.Some? && e.held.artifact.Some?
            && e.held.manifest.value.envelopeId == e.envelopeId
            && lib.digest(e.held.artifact.value) == e.held.manifest.value.artifactSha256
            && e.directory in root && root[e.directory].artifact == e.held.artifact
            && (e.held.manifest.value.joined <==>
                  exists j :: 0 <= j < k && log[j].Joined? && log[j].directory == e.directory
                              && log[j].reply.Some? && log[j].reply.value.joined != Some(false))
  {
    hide SafeReceiptId, Identity, JoinsReported, NoAckAfterAcked, RecordedAcksWereSent, AllBacked;
    var e := log[k];
    assert AckJustified(lib, deviceId, root, log, k);
    var j :| 0 <= j < k && log[j].Joined? && log[j].directory == e.directory && log[j].reply.Some?
             && ReportsJoined(log[j].reply.value) == e.held.manifest.value.joined;
  }

  /** After a receipt that records the acknowledgement no other is sent for its directory, and that
      receipt stays as it is. */
  lemma NoSecondAck(lib: Library, deviceId: string, root: Root, log: seq<Event>, j: nat, k: nat)
    requires Inv(lib, deviceId, root, log) && j < k < |log|
    requires log[j].Saved? && log[j].receipt.welcomeAcked && log[k].Acked?
    ensures log[k].directory != log[j].directory
    ensures DirAt(root, log[j].directory).manifest == Some(log[j].receipt)
  {
  }

  /** A sidecar that answers success with `joined: false` makes every completed first run acknowledge
      without a record of a join: the one case the equivalence above excludes. */
  lemma UnreportedJoinIsStillAcknowledged(lib: Library, deviceId: string, before: seq<Event>, after: seq<Event>, name: string,
                                          request: Request, world: World, o: Outcome<Receipt, ConsumeError>)
    requires FreshLog(lib, before, after, name, request, deviceId, world, o) && o.Done?
    requires world.join.Some? && world.join.value.joined == Some(false)
    ensures exists k :: |before| <= k < |after| && after[k].Acked? && after[k].envelopeId == request.envelopeId
                        && after[k].held.manifest.Some? && !after[k].held.manifest.value.joined
  {
    assert after[|before| + 4].Acked?;
  }
}
