/** The workflow command around the evaluator: it stores its first report under an id and replays it from
    then on (workflow_relay_onboarding_dev.go). */
module OnboardingReports {
  import opened Outcomes
  import opened Text
  import opened Receipts
  import opened Onboarding
  import OnboardingEndToEnd
  import K = KeyPackageConsume
  import W = WelcomeConsume

  datatype Report = Report(workflowId: string, relaySpaceId: string, localDeviceId: string, workflow: Workflow)

  datatype Answer = Answer(report: Report, replayed: bool)

  datatype CommandError = MissingOption | ReportIo | ReportConflict | NotEvaluated(error: EvaluationError)

  /** Two receipt directories and what was in them. */
  datatype Source = Source(keyPackageDir: string, welcomeDir: string, keyPackage: K.ReceiptDir, welcome: W.ReceiptDir)

  /** What a stored report was evaluated over, and where the files were from. */
  datatype Origin = Origin(input: Input, files: Files, source: Source)

  /** `deriveWorkflowRelayOnboardingID` */
  function DerivedId(lib: Library, input: Input): string {
    "workflow-" + lib.textDigest(Join([input.relaySpaceId, input.localDeviceId, input.sidecarDeviceLabel, input.conversationLabel,
                                             input.keyPackageReceiptPath, input.welcomeReceiptPath], "\0"))[..24]
  }

  function WorkflowId(lib: Library, workflowId: string, input: Input): string {
    if TrimSpace(workflowId) == "" then DerivedId(lib, input) else TrimSpace(workflowId)
  }

  /** Where the command keeps the report of a workflow; the sanitizer is that of the receipts. */
  function ReportName(lib: Library, workflowId: string, input: Input): string {
    SafeReceiptId(lib, WorkflowId(lib, workflowId, input))
  }

  /** `validateExistingWorkflowRelayOnboardingReport` */
  predicate ReportMatches(r: Report, workflowId: string, input: Input) {
    r.workflowId == workflowId && r.relaySpaceId == input.relaySpaceId && r.localDeviceId == input.localDeviceId
  }

  /** The report is the evaluation of its origin. */
  ghost predicate Evaluated(r: Report, origin: Origin, lower: char -> char) {
    && ConcludesReadiness(r.workflow, origin.input, origin.files, lower)
    && r.relaySpaceId == TrimSpace(origin.input.relaySpaceId) && r.localDeviceId == TrimSpace(origin.input.localDeviceId)
  }

  class Reports {
    const lib: Library
    const lower: char -> char
    var stored: map<string, Report>
    ghost var origins: map<string, Origin>

    ghost predicate Valid()
      reads this
    {
      && stored.Keys == origins.Keys
      && forall name :: name in stored ==> Evaluated(stored[name], origins[name], lower)
    }

    constructor (lib: Library, lower: char -> char)
      ensures Valid() && this.lib == lib && this.lower == lower && stored == map[]
    {
      this.lib, this.lower, this.stored, this.origins := lib, lower, map[], map[];
    }

    /** `workflow-relay-onboarding-dev` over trimmed input. A stored report is never evaluated again. */
    method Run(workflowId: string, input: Input, files: Files, ghost source: Source)
        returns (o: Outcome<Answer, CommandError>)
      requires Valid()
      modifies this
      ensures Valid()
      ensures var name := ReportName(lib, workflowId, input);
              && (forall other :: other in old(stored) ==> other in stored && stored[other] == old(stored)[other]
                                                           && origins[other] == old(origins)[other])
              && (forall other :: other in stored ==> other in old(stored) || other == name)
              && (if name in old(stored) then
                    && stored == old(stored)
                    && (o.Done? ==> o.value == Answer(old(stored)[name], true)
                                    && ReportMatches(o.value.report, WorkflowId(lib, workflowId, input), input))
                    && (o.Done? ==> o.value.report.relaySpaceId == input.relaySpaceId
                                    && o.value.report.localDeviceId == input.localDeviceId
                                    && o.value.report.workflowId == WorkflowId(lib, workflowId, input))
                    && (o == Refused(ReportConflict) ==>
                          || old(stored)[name].relaySpaceId != input.relaySpaceId
                          || old(stored)[name].localDeviceId != input.localDeviceId
                          || old(stored)[name].workflowId != WorkflowId(lib, workflowId, input))
                    && (o == Refused(ReportConflict) ==> !ReportMatches(old(stored)[name], WorkflowId(lib, workflowId, input), input))
                  else
                    && o != Refused(ReportConflict)
                    && (name in stored ==> origins[name] == Origin(input, files, source)
                                           && stored[name].workflowId == WorkflowId(lib, workflowId, input))
                    && (o.Done? ==> name in stored && o.value == Answer(stored[name], false)))
      ensures o == Refused(MissingOption) <==> TrimSpace(input.relaySpaceId) == "" || TrimSpace(input.cypherMemberState) == ""
    {
      hide TrimSpace, SafeReceiptId, DerivedId, ConcludesReadiness;
      if TrimSpace(input.relaySpaceId) == "" || TrimSpace(input.cypherMemberState) == "" {
        return Refused(MissingOption);
      }
      var _ :- Io(ReportIo);
      var id := TrimSpace(workflowId);
      if id == "" {
        id := DerivedId(lib, input);
      }
      var name := SafeReceiptId(lib, id);
      var _ :- Io(ReportIo);
      if name in stored {
        if !ReportMatches(stored[name], id, input) {
          return Refused(ReportConflict);
        }
        return Done(Answer(stored[name], true));
      }
      var evaluated := EvaluateWorkflow(input, files, lower);
      if evaluated.Refused? {
        return Refused(NotEvaluated(evaluated.error));
      }
      var report := Report(id, TrimSpace(input.relaySpaceId), TrimSpace(input.localDeviceId), evaluated.value);
      var _ :- Io(ReportIo);
      stored, origins := stored[name := report], origins[name := Origin(input, files, source)];
      if * {
        return Crashed;
      }
      return Done(Answer(report, false));
    }
  }

  // ---- Ids ----

  /** What the derived id hashes. */
  function HashedText(input: Input): string {
    Join([input.relaySpaceId, input.localDeviceId, input.sidecarDeviceLabel, input.conversationLabel,
                input.keyPackageReceiptPath, input.welcomeReceiptPath], "\0")
  }

  /** Two workflows hash the same text exactly when space, device, labels and receipt paths are the same, as
      long as no field contains the separator. */
  lemma HashedTextSeparates(a: Input, b: Input)
    requires forall field | field in [a.relaySpaceId, a.localDeviceId, a.sidecarDeviceLabel, a.conversationLabel, a.keyPackageReceiptPath,
                                      a.welcomeReceiptPath, b.relaySpaceId, b.localDeviceId, b.sidecarDeviceLabel, b.conversationLabel,
                                      b.keyPackageReceiptPath, b.welcomeReceiptPath] :: '\0' !in field
    ensures HashedText(a) == HashedText(b)
            <==> && a.relaySpaceId == b.relaySpaceId && a.localDeviceId == b.localDeviceId
                 && a.sidecarDeviceLabel == b.sidecarDeviceLabel && a.conversationLabel == b.conversationLabel
                 && a.keyPackageReceiptPath == b.keyPackageReceiptPath && a.welcomeReceiptPath == b.welcomeReceiptPath
  {
    hide Join;
    var fa := [a.relaySpaceId, a.localDeviceId, a.sidecarDeviceLabel, a.conversationLabel, a.keyPackageReceiptPath, a.welcomeReceiptPath];
    var fb := [b.relaySpaceId, b.localDeviceId, b.sidecarDeviceLabel, b.conversationLabel, b.keyPackageReceiptPath, b.welcomeReceiptPath];
    if HashedText(a) == HashedText(b) {
      JoinSeparates(fa, fb, '\0');
      assert fa[0] == fb[0] && fa[1] == fb[1] && fa[2] == fb[2] && fa[3] == fb[3] && fa[4] == fb[4] && fa[5] == fb[5];
    }
  }

  /** A derived id shows 24 digits of the digest of that text, and is its own directory name, as every
      plain id is: a workflow without an id is kept under its derived one. */
  lemma DerivedIdNamesItself(lib: Library, input: Input)
    ensures var id := DerivedId(lib, input);
            && |id| == 33 && id[..9] == "workflow-" && id[9..] <= lib.textDigest(HashedText(input))
            && Plain(lib, id) && ReportName(lib, "", input) == id
  {
    hide Join;
    var id, digest := DerivedId(lib, input), lib.textDigest(HashedText(input));
    assert id[9..] == digest[..24];
    forall c | c in id
      ensures IsLetterOrDigit(lib, c) || IsPunctuation(c)
    {
      if c in digest {
      } else {
        assert c in "workflow-";
      }
    }
    assert id[32] == digest[23] && digest[23] in digest;
    PlainIsItsName(lib, id);
    assert TrimSpace("") == "";
  }

  /** A given id is used as it is, up to white space around it. */
  lemma GivenIdIsKept(lib: Library, workflowId: string, input: Input)
    requires TrimSpace(workflowId) != ""
    ensures WorkflowId(lib, workflowId, input) == TrimSpace(workflowId)
    ensures Plain(lib, TrimSpace(workflowId)) ==> ReportName(lib, workflowId, input) == TrimSpace(workflowId)
  {
    hide DerivedId, TrimSpace;
    if Plain(lib, TrimSpace(workflowId)) {
      PlainIsItsName(lib, TrimSpace(workflowId));
    }
  }

  // ---- Replayed and fresh verdicts ----

  /** The input of a later command under the same derived id: member, group and state path may differ. */
  function Later(input: Input, member: string, group: string, path: string): Input {
    input.(cypherMemberState := member, mlsGroupState := group, conversationStatePath := path)
  }

  /** A workflow that was ready, over receipts the consume commands have gone on with: it is ready now
      exactly when the member is active, the group is present and the KeyPackage receipt still records its
      acknowledgement. Nothing else can have changed. */
  lemma ReadyThenIsReadyNow(k0: K.ReceiptDir, k1: K.ReceiptDir, w0: W.ReceiptDir, w1: W.ReceiptDir, input: Input, p0: Probe,
                            p1: Probe, member: string, group: string, path: string, lower: char -> char)
    requires K.Extends(k0, k1) && W.Extends(w0, w1)
    requires Ready(input, OnboardingEndToEnd.FilesFrom(p0, k0, w0), lower)
    ensures k1.manifest.Some?
    ensures var now, files := Later(input, member, group, path), OnboardingEndToEnd.FilesFrom(p1, k1, w1);
            Ready(now, files, lower)
            <==> && NormalizeMember(member, lower) == Active && GroupState(now, files, lower) == Present
                 && k1.manifest.value.keyPackageAcked
  {
    hide TrimSpace, NormalizeMember, GroupState;
    assert k0.manifest.Some? && K.Identity(k1.manifest.value) == K.Identity(k0.manifest.value);
    assert w0.manifest.Some? && w1.manifest == w0.manifest;
  }

  /** A stored report that allows says what a fresh one would exactly when the member is still active, the
      group still present and the KeyPackage acknowledgement still on record; the last is so whenever its
      time was recorded. A stored refusal says what a fresh one would exactly when something is still
      missing. */
  lemma ReplayIsFreshExactly(lib: Library, deviceId: string, keyPackages: K.Root, keyPackageLog: seq<K.Event>,
                             welcomes: W.Root, welcomeLog: seq<W.Event>, stored: Workflow, origin: Origin, current: Workflow,
                             member: string, group: string, path: string, probe: Probe, lower: char -> char)
    requires K.Inv(lib, deviceId, keyPackages, keyPackageLog) && W.Inv(lib, deviceId, welcomes, welcomeLog)
    requires TrimSpace(origin.input.localDeviceId) == deviceId
    requires Continues(origin, keyPackages, welcomes)
    requires ConcludesReadiness(stored, origin.input, origin.files, lower)
    requires ConcludesReadiness(current, Later(origin.input, member, group, path), FilesNow(probe, origin, keyPackages, welcomes), lower)
    ensures var k, w := K.DirAt(keyPackages, origin.source.keyPackageDir).manifest, W.DirAt(welcomes, origin.source.welcomeDir).manifest;
            var now := Later(origin.input, member, group, path);
            var here := NormalizeMember(member, lower) == Active
                        && GroupState(now, FilesNow(probe, origin, keyPackages, welcomes), lower) == Present;
            if stored.action == Allow then
              && k.Some?
              && (current.action == stored.action <==> here && k.value.keyPackageAcked)
              && (origin.source.keyPackage.manifest.value.ackedAt != "" ==> k.value.keyPackageAcked)
            else
              current.action == stored.action
              <==> !(&& here && KeyPackageGiven(origin.input) && WelcomeGiven(origin.input)
                     && k.Some? && w.Some? && OnboardingEndToEnd.Agrees(origin.input, k.value, w.value)
                     && k.value.keyPackageAcked && w.value.joined && w.value.welcomeAcked)
  {
    hide K.Inv, W.Inv, Ready, TrimSpace, NormalizeMember, GroupState, Verdict;
    var source := origin.source;
    var k, w := K.DirAt(keyPackages, source.keyPackageDir), W.DirAt(welcomes, source.welcomeDir);
    if stored.action == Allow {
      ReadyThenIsReadyNow(source.keyPackage, k, source.welcome, w, origin.input, origin.files.conversationState, probe,
                          member, group, path, lower);
      ReadyHasReceipts(origin.input, origin.files, lower);
    } else if !KeyPackageGiven(origin.input) || !WelcomeGiven(origin.input) {
      NeverReadyWithoutReceipts(Later(origin.input, member, group, path), FilesNow(probe, origin, keyPackages, welcomes), lower);
    } else {
      OnboardingEndToEnd.ReadyExactlyWhenAcknowledged(lib, deviceId, keyPackages, keyPackageLog, welcomes, welcomeLog,
        source.keyPackageDir, source.welcomeDir, Later(origin.input, member, group, path), probe, lower);
    }
  }

  lemma ReadyHasReceipts(input: Input, files: Files, lower: char -> char)
    requires Ready(input, files, lower)
    ensures files.keyPackage.Decoded? && files.keyPackage.receipt.keyPackageAcked
  {
  }

  lemma NeverReadyWithoutReceipts(input: Input, files: Files, lower: char -> char)
    ensures Ready(input, files, lower) ==> KeyPackageGiven(input) && WelcomeGiven(input)
  {
  }

  /** The files were those of the source, whose directories the consume commands have gone on with. */
  ghost predicate Continues(origin: Origin, keyPackages: K.Root, welcomes: W.Root) {
    var source := origin.source;
    && origin.files == OnboardingEndToEnd.FilesFrom(origin.files.conversationState, source.keyPackage, source.welcome)
    && K.Extends(source.keyPackage, K.DirAt(keyPackages, source.keyPackageDir))
    && W.Extends(source.welcome, W.DirAt(welcomes, source.welcomeDir))
  }

  function FilesNow(probe: Probe, origin: Origin, keyPackages: K.Root, welcomes: W.Root): Files {
    OnboardingEndToEnd.FilesFrom(probe, K.DirAt(keyPackages, origin.source.keyPackageDir), W.DirAt(welcomes, origin.source.welcomeDir))
  }

  /** The derived id does not depend on member, group or conversation state. */
  lemma DerivedIdIgnoresStates(lib: Library, input: Input, member: string, group: string, path: string)
    ensures var later := input.(cypherMemberState := member, mlsGroupState := group, conversationStatePath := path);
            later == Later(input, member, group, path) && DerivedId(lib, later) == DerivedId(lib, input)
  {
  }

  /** The failing input: a workflow found ready, asked for again after the member was disabled. The stored
      report answers, and it still allows. */
  lemma DisabledMemberIsStillAllowed(lib: Library, stored: Workflow, input: Input, files: Files, lower: char -> char)
    requires ConcludesReadiness(stored, input, files, lower) && Ready(input, files, lower)
    ensures var disabled := input.(cypherMemberState := "disabled");
            && ReportName(lib, "", disabled) == ReportName(lib, "", input)
            && stored.action == Allow && !Ready(disabled, files, lower)
  {
    hide TrimSpace, NormalizeGroup;
    assert Disabled.Token() == "disabled";
    NormalizeTwice(Disabled, Auto, lower);
  }

  /** The other failing input: a workflow found ready over an acknowledgement without its time, which a
      repeated consume has taken back. The stored report still allows. */
  lemma ForgottenAckIsStillAllowed(stored: Workflow, k: K.ReceiptDir, w: W.ReceiptDir, reply: AckReply, input: Input,
                                   probe: Probe, lower: char -> char)
    requires ConcludesReadiness(stored, input, OnboardingEndToEnd.FilesFrom(probe, k, w), lower)
    requires Ready(input, OnboardingEndToEnd.FilesFrom(probe, k, w), lower)
    requires k.manifest.Some? && k.manifest.value.ackedAt == "" && reply.deliveryState != ACKNOWLEDGED
    ensures var repeated := k.(manifest := Some(K.WithAck(k.manifest.value, "ack_retried_after_persisted_receipt", reply)));
            && K.Extends(k, repeated)
            && stored.action == Allow && !Ready(input, OnboardingEndToEnd.FilesFrom(probe, repeated, w), lower)
  {
    hide TrimSpace, NormalizeMember, GroupState;
  }

  // ---- Whole runs ----

  datatype Command =
    | ConsumeKeyPackage(keyPackageRun: K.Run)
    | ConsumeWelcome(welcomeRun: W.Run)
    | Onboard(workflowId: string, input: Input, probe: Probe, keyPackageDir: string, welcomeDir: string)

  /** Both acknowledgements were sent and the sidecar reported the join. */
  ghost predicate Earned(keyPackageLog: seq<K.Event>, welcomeLog: seq<W.Event>, kName: string, wName: string) {
    && K.AckSent(keyPackageLog, kName) && W.AckSent(welcomeLog, wName)
    && W.JoinAnswered(welcomeLog, |welcomeLog|, wName, true)
  }

  /** Stored reports that allow were earned in the directories they were evaluated over. */
  ghost predicate AllowsAreEarned(r: Reports, keyPackageLog: seq<K.Event>, welcomeLog: seq<W.Event>)
    requires r.Valid()
    reads r
  {
    forall name :: name in r.stored && r.stored[name].workflow.action == Allow ==>
      Earned(keyPackageLog, welcomeLog, r.origins[name].source.keyPackageDir, r.origins[name].source.welcomeDir)
  }

  /** Every stored report was evaluated over receipts the commands have gone on with. */
  ghost predicate AllContinue(r: Reports, keyPackages: K.Root, welcomes: W.Root)
    requires r.Valid()
    reads r
  {
    forall name :: name in r.stored ==> Continues(r.origins[name], keyPackages, welcomes)
  }

  lemma FirstContinues(input: Input, probe: Probe, kName: string, wName: string, keyPackages: K.Root, welcomes: W.Root)
    ensures var source := Source(kName, wName, K.DirAt(keyPackages, kName), W.DirAt(welcomes, wName));
            var files := OnboardingEndToEnd.FilesFrom(probe, source.keyPackage, source.welcome);
            Continues(Origin(input, files, source), keyPackages, welcomes)
  {
  }

  lemma AllContinueStay(r: Reports, k1: K.Root, w1: W.Root, k2: K.Root, w2: W.Root)
    requires r.Valid() && AllContinue(r, k1, w1) && K.RootExtends(k1, k2) && W.RootExtends(w1, w2)
    ensures AllContinue(r, k2, w2)
  {
    hide OnboardingEndToEnd.FilesFrom;
  }

  lemma EarnedStays(k1: seq<K.Event>, w1: seq<W.Event>, k2: seq<K.Event>, w2: seq<W.Event>)
    requires k1 <= k2 && w1 <= w2
    ensures forall kName, wName :: Earned(k1, w1, kName, wName) ==> Earned(k2, w2, kName, wName)
  {
    hide K.AckSent, W.AckSent, W.JoinAnswered;
    K.AckSentStays(k1, k2);
    W.AckSentStays(w1, w2);
    forall kName, wName | Earned(k1, w1, kName, wName)
      ensures Earned(k2, w2, kName, wName)
    {
      W.JoinAnsweredStays(w1, w2, |w1|, wName, true);
    }
  }

  /** One onboarding command over the receipts as they are. Whenever its answer allows, stored or fresh,
      the acknowledgements and the join have happened in the directories the report is about. */
  method OnboardOnce(k: K.Consumer, w: W.Consumer, r: Reports, workflowId: string, input: Input, probe: Probe,
                     kName: string, wName: string) returns (o: Outcome<Answer, CommandError>)
    requires k.Valid() && w.Valid() && r.Valid() && k.lib == w.lib && k.deviceId == w.deviceId
    requires AllowsAreEarned(r, k.log, w.log) && AllContinue(r, k.root, w.root)
    modifies r
    ensures r.Valid() && AllowsAreEarned(r, k.log, w.log) && AllContinue(r, k.root, w.root)
    ensures forall name :: name in old(r.stored) ==>
              name in r.stored && r.stored[name] == old(r.stored)[name] && r.origins[name] == old(r.origins)[name]
    ensures o.Done? ==> var name := ReportName(r.lib, workflowId, input);
                        && name in r.stored && o.value.report == r.stored[name]
                        && (!o.value.replayed ==>
                              r.origins[name].source == Source(kName, wName, K.DirAt(k.root, kName), W.DirAt(w.root, wName)))
  {
    hide K.Inv, W.Inv, Ready, ReportName, WorkflowId, ReportMatches, Earned, Evaluated, Continues,
      OnboardingEndToEnd.FilesFrom, K.DirAt, W.DirAt;
    var files := OnboardingEndToEnd.FilesFrom(probe, K.DirAt(k.root, kName), W.DirAt(w.root, wName));
    FirstContinues(input, probe, kName, wName, k.root, w.root);
    ghost var before := r.stored;
    o := r.Run(workflowId, input, files, Source(kName, wName, K.DirAt(k.root, kName), W.DirAt(w.root, wName)));
    ghost var name := ReportName(r.lib, workflowId, input);
    if name !in before && name in r.stored && r.stored[name].workflow.action == Allow {
      AllowedIsReadyThen(r, name);
      ReadyEarns(k, w, input, probe, r.lower, kName, wName);
    }
  }

  lemma AllowedIsReadyThen(r: Reports, name: string)
    requires r.Valid() && name in r.stored && r.stored[name].workflow.action == Allow
    ensures Ready(r.origins[name].input, r.origins[name].files, r.lower)
  {
    hide Ready;
  }

  lemma ReadyEarns(k: K.Consumer, w: W.Consumer, input: Input, probe: Probe, lower: char -> char, kName: string, wName: string)
    requires k.Valid() && w.Valid() && k.lib == w.lib && k.deviceId == w.deviceId
    requires Ready(input, OnboardingEndToEnd.FilesFrom(probe, K.DirAt(k.root, kName), W.DirAt(w.root, wName)), lower)
    ensures Earned(k.log, w.log, kName, wName)
  {
    hide K.Inv, W.Inv, Ready;
    OnboardingEndToEnd.ReadyWasEarned(k.lib, k.deviceId, k.root, k.log, w.root, w.log, kName, wName, input, probe, lower);
  }

  /** Any consume and onboarding commands in any order, each possibly cut short: every answer that allows,
      also one replayed from a stored report, comes after both acknowledgements and the join in the
      directories the report was evaluated over. */
  method RunCommands(k: K.Consumer, w: W.Consumer, r: Reports, commands: seq<Command>) returns (answers: seq<Option<Answer>>)
    requires k.Valid() && w.Valid() && r.Valid() && k.lib == w.lib && k.deviceId == w.deviceId
    requires AllowsAreEarned(r, k.log, w.log) && AllContinue(r, k.root, w.root)
    modifies k, w, r
    ensures k.Valid() && w.Valid() && r.Valid() && AllowsAreEarned(r, k.log, w.log) && AllContinue(r, k.root, w.root)
    ensures |answers| == |commands|
    ensures forall i :: 0 <= i < |answers| && answers[i].Some? ==> AnswerIsStored(r, commands[i], answers[i].value)
  {
    hide K.Inv, W.Inv, K.RootExtends, W.RootExtends, Continues, K.ReplayLog, K.FreshLog, W.ReplayLog, W.FreshLog, Ready,
      Earned, K.LooksIncomplete, W.LooksIncomplete, ReportName, Evaluated;
    answers := [];
    for i := 0 to |commands|
      invariant k.Valid() && w.Valid() && r.Valid() && AllowsAreEarned(r, k.log, w.log) && AllContinue(r, k.root, w.root)
      invariant |answers| == i
      invariant forall j :: 0 <= j < i && answers[j].Some? ==> AnswerIsStored(r, commands[j], answers[j].value)
    {
      ghost var kLog, wLog, kRoot, wRoot := k.log, w.log, k.root, w.root;
      K.RootExtendsItself(kRoot);
      W.RootExtendsItself(wRoot);
      match commands[i] {
        case ConsumeKeyPackage(run) =>
          var _ := k.Consume(run.request, run.inbox, run.reply, run.stat, run.now);
          AllContinueStay(r, kRoot, wRoot, k.root, w.root);
          answers := answers + [None];
        case ConsumeWelcome(run) =>
          var _ := w.Consume(run.request, run.world);
          AllContinueStay(r, kRoot, wRoot, k.root, w.root);
          answers := answers + [None];
        case Onboard(workflowId, input, probe, kName, wName) =>
          var o := OnboardOnce(k, w, r, workflowId, input, probe, kName, wName);
          answers := answers + [if o.Done? then Some(o.value) else None];
      }
      EarnedStays(kLog, wLog, k.log, w.log);
    }
  }

  /** The answer to a command is the report stored under its id. */
  ghost predicate AnswerIsStored(r: Reports, command: Command, answer: Answer)
    reads r
  {
    && command.Onboard?
    && var name := ReportName(r.lib, command.workflowId, command.input);
       name in r.stored && r.stored[name] == answer.report
  }
}
