/** The evaluators over what the two consume commands leave behind, after any runs cut at any point. */
module OnboardingEndToEnd {
  import opened Outcomes
  import opened Text
  import opened Onboarding
  import opened Receipts
  import K = KeyPackageConsume
  import W = WelcomeConsume

  /** The fields the evaluators decode of a receipt on disk. */
  function KeyPackageViewOf(r: K.Receipt): KeyPackageView {
    KeyPackageView(r.schemaVersion, r.relaySpaceId, r.recipientDeviceId, r.localReceiptPersisted, r.keyPackageAcked,
                   r.addMemberRun, r.welcomeSubmitted, r.trustOrCandidateStateMutated)
  }

  function WelcomeViewOf(r: W.Receipt): WelcomeView {
    WelcomeView(r.schemaVersion, r.relaySpaceId, r.recipientDeviceId, r.sidecarDeviceLabel, r.conversationLabel,
                r.localWelcomePersisted, r.joined, r.welcomeAcked, r.trustOrCandidateStateMutated,
                r.verifiedIdentityClaimed, r.cypherMlsReconciled, r.publicDirectoryMutated)
  }

  /** The files as the evaluators find them: the manifests of one directory of each kind. */
  function FilesFrom(probe: Probe, k: K.ReceiptDir, w: W.ReceiptDir): Files {
    Files(probe,
          if k.manifest.Some? then Decoded(KeyPackageViewOf(k.manifest.value)) else Unreadable,
          if w.manifest.Some? then Decoded(WelcomeViewOf(w.manifest.value)) else Unreadable)
  }

  /** Labels and space of the input agree with the receipts, as far as both are filled in. */
  predicate Agrees(input: Input, k: K.Receipt, w: W.Receipt) {
    && !Contradicts(k.relaySpaceId, TrimSpace(input.relaySpaceId))
    && !Contradicts(w.relaySpaceId, TrimSpace(input.relaySpaceId))
    && (TrimSpace(input.sidecarDeviceLabel) != "" ==> !Contradicts(w.sidecarDeviceLabel, TrimSpace(input.sidecarDeviceLabel)))
    && (TrimSpace(input.conversationLabel) != "" ==> !Contradicts(w.conversationLabel, TrimSpace(input.conversationLabel)))
  }

  /** No receipt the commands write, at whatever point they stopped, is unreadable, incomplete,
      impossible or about another device. */
  lemma WrittenReceiptsArePossible(lib: Library, deviceId: string, keyPackages: K.Root, keyPackageLog: seq<K.Event>,
                                   welcomes: W.Root, welcomeLog: seq<W.Event>, kName: string, wName: string,
                                   input: Input, probe: Probe)
    requires K.Inv(lib, deviceId, keyPackages, keyPackageLog) && W.Inv(lib, deviceId, welcomes, welcomeLog)
    requires TrimSpace(input.localDeviceId) == deviceId
    ensures var k, w := K.DirAt(keyPackages, kName), W.DirAt(welcomes, wName);
            var files := FilesFrom(probe, k, w);
            && (k.manifest.Some? ==>
                  && KeyPackageReadable(files) && !KeyPackageImpossible(files.keyPackage.receipt)
                  && files.keyPackage.receipt.localReceiptPersisted)
            && (w.manifest.Some? ==>
                  && WelcomeReadable(files) && !WelcomeImpossible(files.welcome.receipt)
                  && files.welcome.receipt.localWelcomePersisted)
            && !NamesOtherDevice(input, files)
  {
    hide K.AcksJustified, K.NoAckAfterSettled, K.RecordedAcksWereSent, W.JoinedOnce, W.JoinsReported, W.AcksJustified,
      W.NoAckAfterAcked, W.RecordedAcksWereSent, TrimSpace, SafeReceiptId;
    if kName in keyPackages && keyPackages[kName].manifest.Some? {
      assert K.Backed(lib, deviceId, kName, keyPackages[kName].artifact, keyPackages[kName].manifest.value);
    }
    if wName in welcomes && welcomes[wName].manifest.Some? {
      assert W.Backed(lib, deviceId, wName, welcomes[wName].artifact, welcomes[wName].manifest.value);
    }
  }

  /** Over such receipts the workflow is ready exactly when both exist, both are acknowledged, the
      Welcome is joined, names agree, the member is active and the group is present. */
  lemma ReadyExactlyWhenAcknowledged(lib: Library, deviceId: string, keyPackages: K.Root, keyPackageLog: seq<K.Event>,
                                     welcomes: W.Root, welcomeLog: seq<W.Event>, kName: string, wName: string,
                                     input: Input, probe: Probe, lower: char -> char)
    requires K.Inv(lib, deviceId, keyPackages, keyPackageLog) && W.Inv(lib, deviceId, welcomes, welcomeLog)
    requires TrimSpace(input.localDeviceId) == deviceId && KeyPackageGiven(input) && WelcomeGiven(input)
    ensures var k, w := K.DirAt(keyPackages, kName).manifest, W.DirAt(welcomes, wName).manifest;
            var files := FilesFrom(probe, K.DirAt(keyPackages, kName), W.DirAt(welcomes, wName));
            Ready(input, files, lower) <==>
            && NormalizeMember(input.cypherMemberState, lower) == Active && GroupState(input, files, lower) == Present
            && k.Some? && w.Some? && Agrees(input, k.value, w.value)
            && k.value.keyPackageAcked && w.value.joined && w.value.welcomeAcked
  {
    hide K.Inv, W.Inv, TrimSpace, NormalizeMember, GroupState;
    WrittenReceiptsArePossible(lib, deviceId, keyPackages, keyPackageLog, welcomes, welcomeLog, kName, wName, input, probe);
  }

  /** An aligned member with both receipts, in whatever state the commands left them: aligned once the
      join is recorded, incomplete before. */
  lemma IntermediateReceiptsAreIncomplete(lib: Library, deviceId: string, keyPackages: K.Root, keyPackageLog: seq<K.Event>,
                                          welcomes: W.Root, welcomeLog: seq<W.Event>, kName: string, wName: string,
                                          input: Input, probe: Probe, lower: char -> char)
    requires K.Inv(lib, deviceId, keyPackages, keyPackageLog) && W.Inv(lib, deviceId, welcomes, welcomeLog)
    requires TrimSpace(input.localDeviceId) == deviceId && KeyPackageGiven(input) && WelcomeGiven(input)
    requires var k, w := K.DirAt(keyPackages, kName).manifest, W.DirAt(welcomes, wName).manifest;
             k.Some? && w.Some? && Agrees(input, k.value, w.value)
    requires NormalizeMember(input.cypherMemberState, lower) == Active
    requires GroupState(input, FilesFrom(probe, K.DirAt(keyPackages, kName), W.DirAt(welcomes, wName)), lower) == Present
    ensures var files := FilesFrom(probe, K.DirAt(keyPackages, kName), W.DirAt(welcomes, wName));
            Verdict(input, files, lower)
            == if W.DirAt(welcomes, wName).manifest.value.joined then Aligned else IncompleteLocalConsumeOrJoin
  {
    hide K.Inv, W.Inv, TrimSpace, NormalizeMember;
    WrittenReceiptsArePossible(lib, deviceId, keyPackages, keyPackageLog, welcomes, welcomeLog, kName, wName, input, probe);
  }

  /** Ready onboarding was earned: both acknowledgements were sent and the sidecar reported the join,
      once, before. So every state the commands can stop in before that is refused. */
  lemma ReadyWasEarned(lib: Library, deviceId: string, keyPackages: K.Root, keyPackageLog: seq<K.Event>,
                       welcomes: W.Root, welcomeLog: seq<W.Event>, kName: string, wName: string,
                       input: Input, probe: Probe, lower: char -> char)
    requires K.Inv(lib, deviceId, keyPackages, keyPackageLog) && W.Inv(lib, deviceId, welcomes, welcomeLog)
    requires Ready(input, FilesFrom(probe, K.DirAt(keyPackages, kName), W.DirAt(welcomes, wName)), lower)
    ensures K.AckSent(keyPackageLog, kName)
    ensures exists i, j ::
              && 0 <= i < j < |welcomeLog| && welcomeLog[i].Joined? && welcomeLog[j].Acked?
              && welcomeLog[i].directory == wName == welcomeLog[j].directory
              && welcomeLog[i].reply.Some? && W.ReportsJoined(welcomeLog[i].reply.value)
  {
    hide K.AcksJustified, K.NoAckAfterSettled, W.NoAckAfterAcked, TrimSpace, NormalizeMember, GroupState, W.Backed, W.Extends;
    assert K.DirAt(keyPackages, kName).manifest.Some? && W.DirAt(welcomes, wName).manifest.Some?;
    assert W.AckSent(welcomeLog, wName) && W.JoinAnswered(welcomeLog, |welcomeLog|, wName, true);
    var j :| 0 <= j < |welcomeLog| && welcomeLog[j].Acked? && welcomeLog[j].directory == wName;
    assert W.AckJustified(lib, deviceId, welcomes, welcomeLog, j);
    var i :| 0 <= i < j && welcomeLog[i].Joined? && welcomeLog[i].directory == wName && welcomeLog[i].reply.Some?;
    var m :| 0 <= m < |welcomeLog| && welcomeLog[m].Joined? && welcomeLog[m].directory == wName
             && welcomeLog[m].reply.Some? && W.ReportsJoined(welcomeLog[m].reply.value);
    W.JoinsAtMostOnce(lib, deviceId, welcomes, welcomeLog, i, m);
  }

  /** Any runs of both commands, each possibly cut short, and then the evaluation. */
  method ConsumeThenEvaluate(k: K.Consumer, w: W.Consumer, kRuns: seq<K.Run>, wRuns: seq<W.Run>, kName: string, wName: string,
                             input: Input, probe: Probe, lower: char -> char)
      returns (o: Outcome<Workflow, EvaluationError>)
    requires k.Valid() && w.Valid() && k.lib == w.lib && k.deviceId == w.deviceId
    modifies k, w
    ensures k.Valid() && w.Valid()
    ensures o.Done? ==>
              (o.value.action == Allow
               <==> Ready(input, FilesFrom(probe, K.DirAt(k.root, kName), W.DirAt(w.root, wName)), lower))
    ensures o.Done? && o.value.action == Allow ==>
              K.AckSent(k.log, kName) && W.AckSent(w.log, wName) && W.JoinAnswered(w.log, |w.log|, wName, true)
  {
    hide K.Inv, W.Inv, Ready;
    K.RunAll(k, kRuns);
    W.RunAll(w, wRuns);
    var files := FilesFrom(probe, K.DirAt(k.root, kName), W.DirAt(w.root, wName));
    o := EvaluateWorkflow(input, files, lower);
    if o.Done? && o.value.action == Allow {
      ReadyWasEarned(k.lib, k.deviceId, k.root, k.log, w.root, w.log, kName, wName, input, probe, lower);
    }
  }
}
