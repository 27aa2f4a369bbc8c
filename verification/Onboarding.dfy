/** The evaluators that read the receipts: whether relay membership and local MLS state are aligned
    (openmls_cypher_mls_mismatch_dev.go), and whether onboarding is complete
    (workflow_relay_onboarding_dev.go). Files are inputs: what reading or probing them would yield. */
module Onboarding {
  import opened Outcomes
  import opened Text
  import KeyPackageConsume
  import WelcomeConsume

  datatype Action = Allow | Refuse

  datatype Input = Input(
    relaySpaceId: string, localDeviceId: string, cypherMemberState: string, mlsGroupState: string,
    sidecarDeviceLabel: string, conversationLabel: string, conversationStatePath: string,
    keyPackageReceiptPath: string, welcomeReceiptPath: string)

  datatype Probe = Exists | Missing | Unknown
  datatype ReceiptFile<T> = Unreadable | Decoded(receipt: T)

  /** The fields of a receipt the evaluators decode. */
  datatype KeyPackageView = KeyPackageView(
    schemaVersion: string, relaySpaceId: string, recipientDeviceId: string, localReceiptPersisted: bool,
    keyPackageAcked: bool, addMemberRun: bool, welcomeSubmitted: bool, trustOrCandidateStateMutated: bool)
  datatype WelcomeView = WelcomeView(
    schemaVersion: string, relaySpaceId: string, recipientDeviceId: string, sidecarDeviceLabel: string,
    conversationLabel: string, localWelcomePersisted: bool, joined: bool, welcomeAcked: bool,
    trustOrCandidateStateMutated: bool, verifiedIdentityClaimed: bool, cypherMlsReconciled: bool,
    publicDirectoryMutated: bool)

  datatype Files = Files(
    conversationState: Probe, keyPackage: ReceiptFile<KeyPackageView>, welcome: ReceiptFile<WelcomeView>)

  datatype EvaluationError = RelaySpaceRequired | LocalDeviceRequired

  datatype Classification =
    | Aligned
    | LocalDeviceIdMismatch
    | SidecarDeviceLabelMismatch
    | ConversationLabelMismatch
    | MlsConversationPresentWrongRelaySpace
    | IncompleteLocalConsumeOrJoin
    | RelayMemberActiveButMlsGroupAbsent
    | WelcomeReceiptJoinedButCypherMemberInactive
    | KeyPackageReceiptExistsButCypherMemberInactive
    | RelayMemberInactiveButMlsGroupPresent
    | StaleOrAmbiguous
    | UnsupportedOrUnknownStateVersion

  datatype Mismatch = Mismatch(
    classification: Classification, action: Action, member: Member, group: Group,
    keyPackagePresent: bool, keyPackagePersisted: bool, keyPackageAcked: bool,
    welcomePresent: bool, welcomePersisted: bool, welcomeJoined: bool, welcomeAcked: bool,
    relaySpaceMismatch: bool, deviceMismatch: bool, deviceLabelMismatch: bool,
    conversationLabelMismatch: bool, reasons: seq<Reason>)

  // ---- Normalizers ----

  datatype Member = Active | Disabled | Left | Absent | Pending | UnknownMember | UnsupportedMember
  {
    /** The normalized token. */
    function Token(): string {
      match this
      case Active => "active"
      case Disabled => "disabled"
      case Left => "left"
      case Absent => "absent"
      case Pending => "pending"
      case UnknownMember => "unknown"
      case UnsupportedMember => "unsupported"
    }

    predicate Inactive() {
      Disabled? || Left? || Absent?
    }
  }

  datatype Group = Present | NoGroup | Auto | UnknownGroup | UnsupportedGroup
  {
    function Token(): string {
      match this
      case Present => "present"
      case NoGroup => "absent"
      case Auto => "auto"
      case UnknownGroup => "unknown"
      case UnsupportedGroup => "unsupported"
    }
  }

  /** `normalizeCypherMemberState` */
  function NormalizeMember(value: string, lower: char -> char): Member {
    var v := ToLower(TrimSpace(value), lower);
    if v == "active" then Active
    else if v == "disabled" then Disabled
    else if v == "left" then Left
    else if v == "absent" || v == "removed" then Absent
    else if v == "pending" then Pending
    else if v == "unknown" || v == "" then UnknownMember
    else UnsupportedMember
  }

  /** `normalizeMLSGroupState` */
  function NormalizeGroup(value: string, lower: char -> char): Group {
    var v := ToLower(TrimSpace(value), lower);
    if v == "present" || v == "joined" || v == "exists" then Present
    else if v == "absent" || v == "missing" then NoGroup
    else if v == "auto" || v == "" then Auto
    else if v == "unknown" then UnknownGroup
    else UnsupportedGroup
  }

  /** Which tokens mean what: white space around them and ASCII case do not matter. */
  lemma MemberTokens(value: string, lower: char -> char)
    ensures var v, member := ToLower(TrimSpace(value), lower), NormalizeMember(value, lower);
            && (member == Active <==> v == "active") && (member == Disabled <==> v == "disabled")
            && (member == Left <==> v == "left") && (member == Absent <==> v in {"absent", "removed"})
            && (member == Pending <==> v == "pending") && (member == UnknownMember <==> v in {"unknown", ""})
            && (member.Inactive() <==> v in {"disabled", "left", "absent", "removed"})
  {
  }

  lemma GroupTokens(value: string, lower: char -> char)
    ensures var v, group := ToLower(TrimSpace(value), lower), NormalizeGroup(value, lower);
            && (group == Present <==> v in {"present", "joined", "exists"}) && (group == NoGroup <==> v in {"absent", "missing"})
            && (group == Auto <==> v in {"auto", ""}) && (group == UnknownGroup <==> v == "unknown")
  {
  }

  // ---- Reasons ----

  datatype Reason =
    | UnsupportedStateToken
    | ReceiptUnreadable
    | NotInspected
    | KeyPackageIncomplete
    | KeyPackageClaimsTooMuch
    | WelcomeClaimsTooMuch
    | WelcomeNotJoined
    | NotAligned
  {
    /** The words the report shows, which the evaluator searches again. */
    function Words(): string {
      match this
      case UnsupportedStateToken => "unsupported state token"
      case ReceiptUnreadable => "read receipt"
      case NotInspected => "conversation " + "state path " + "could not be " + "inspected"
      case KeyPackageIncomplete => "KeyPackage receipt is " + "incomplete" + ""
      case KeyPackageClaimsTooMuch => "KeyPackage receipt contains " + "impossible" + " B5d nonclaim mutation"
      case WelcomeClaimsTooMuch => "Welcome receipt contains " + "impossible" + " B6 nonclaim mutation"
      case WelcomeNotJoined => "Welcome receipt is persisted but " + "not joined" + ""
      case NotAligned => "Cypher routing membership and local MLS state are not aligned"
    }
  }

  predicate IsIncompleteReason(reason: Reason) {
    || Contains(reason.Words(), "incomplete")
    || Contains(reason.Words(), "not joined")
    || Contains(reason.Words(), "impossible")
  }

  method ContainsIncompleteReason(reasons: seq<Reason>) returns (found: bool)
    ensures found <==> exists r :: r in reasons && IsIncompleteReason(r)
  {
    hide IsIncompleteReason;
    for i := 0 to |reasons|
      invariant forall k :: 0 <= k < i ==> !IsIncompleteReason(reasons[k])
    {
      if IsIncompleteReason(reasons[i]) {
        return true;
      }
    }
    return false;
  }

  lemma ReasonsAreSorted()
    ensures !IsIncompleteReason(NotInspected)
    ensures IsIncompleteReason(KeyPackageIncomplete) && IsIncompleteReason(KeyPackageClaimsTooMuch)
    ensures IsIncompleteReason(WelcomeClaimsTooMuch) && IsIncompleteReason(WelcomeNotJoined)
  {
    OccursBetween("KeyPackage receipt is ", "incomplete", "");
    OccursBetween("KeyPackage receipt contains ", "impossible", " B5d nonclaim mutation");
    OccursBetween("Welcome receipt contains ", "impossible", " B6 nonclaim mutation");
    OccursBetween("Welcome receipt is persisted but ", "not joined", "");
    NotInspectedIsNotIncomplete();
  }

  lemma NotInspectedIsNotIncomplete()
    ensures !IsIncompleteReason(NotInspected)
  {
    var words := NotInspected.Words();
    assert 'm' !in "conversation " && 'm' !in "state path " && 'm' !in "could not be " && 'm' !in "inspected";
    assert 'j' !in "conversation " && 'j' !in "state path " && 'j' !in "could not be " && 'j' !in "inspected";
    assert "incomplete"[4] == 'm' && "impossible"[1] == 'm' && "not joined"[4] == 'j';
    DoesNotOccur(words, "incomplete", 4);
    DoesNotOccur(words, "impossible", 1);
    DoesNotOccur(words, "not joined", 4);
  }

  /** A part with a character the string does not have does not occur in it. */
  lemma DoesNotOccur(s: string, part: string, k: nat)
    requires k < |part| && part[k] !in s
    ensures !Contains(s, part)
  {
    forall i: nat | i <= |s|
      ensures !OccursAt(s, part, i)
    {
      if i + |part| <= |s| {
        assert s[i..i + |part|][k] == s[i + k];
      }
    }
  }

  lemma OccursBetween(before: string, part: string, after: string)
    ensures Contains(before + part + after, part)
  {
    assert OccursAt(before + part + after, part, |before|);
  }

  // ---- What the files say about the input ----

  predicate KeyPackageGiven(input: Input) {
    TrimSpace(input.keyPackageReceiptPath) != ""
  }

  predicate WelcomeGiven(input: Input) {
    TrimSpace(input.welcomeReceiptPath) != ""
  }

  predicate KeyPackageReadable(files: Files) {
    files.keyPackage.Decoded?
    && (files.keyPackage.receipt.schemaVersion == "" || files.keyPackage.receipt.schemaVersion == KeyPackageConsume.RECEIPT_SCHEMA)
  }

  predicate WelcomeReadable(files: Files) {
    files.welcome.Decoded?
    && (files.welcome.receipt.schemaVersion == "" || files.welcome.receipt.schemaVersion == WelcomeConsume.RECEIPT_SCHEMA)
  }

  lemma ReadableIsDecoded(files: Files)
    ensures KeyPackageReadable(files) ==> files.keyPackage.Decoded?
    ensures WelcomeReadable(files) ==> files.welcome.Decoded?
  {
  }

  /** A field that is filled in and names something else. */
  predicate Contradicts(field: string, expected: string) {
    field != "" && field != expected
  }

  predicate NamesOtherDevice(input: Input, files: Files) {
    || (KeyPackageGiven(input) && files.keyPackage.Decoded?
        && Contradicts(files.keyPackage.receipt.recipientDeviceId, TrimSpace(input.localDeviceId)))
    || (WelcomeGiven(input) && files.welcome.Decoded?
        && Contradicts(files.welcome.receipt.recipientDeviceId, TrimSpace(input.localDeviceId)))
  }

  predicate NamesOtherRelaySpace(input: Input, files: Files) {
    || (KeyPackageGiven(input) && files.keyPackage.Decoded?
        && Contradicts(files.keyPackage.receipt.relaySpaceId, TrimSpace(input.relaySpaceId)))
    || (WelcomeGiven(input) && files.welcome.Decoded?
        && Contradicts(files.welcome.receipt.relaySpaceId, TrimSpace(input.relaySpaceId)))
  }

  predicate NamesOtherDeviceLabel(input: Input, files: Files) {
    WelcomeGiven(input) && files.welcome.Decoded? && TrimSpace(input.sidecarDeviceLabel) != ""
    && Contradicts(files.welcome.receipt.sidecarDeviceLabel, TrimSpace(input.sidecarDeviceLabel))
  }

  predicate NamesOtherConversation(input: Input, files: Files) {
    WelcomeGiven(input) && files.welcome.Decoded? && TrimSpace(input.conversationLabel) != ""
    && Contradicts(files.welcome.receipt.conversationLabel, TrimSpace(input.conversationLabel))
  }

  /** A receipt claims something no consume command does. */
  predicate KeyPackageImpossible(r: KeyPackageView) {
    r.addMemberRun || r.welcomeSubmitted || r.trustOrCandidateStateMutated
  }

  predicate WelcomeImpossible(r: WelcomeView) {
    r.trustOrCandidateStateMutated || r.verifiedIdentityClaimed || r.cypherMlsReconciled || r.publicDirectoryMutated
  }

  function KeyPackageReasons(r: KeyPackageView): seq<Reason> {
    (if !r.localReceiptPersisted then [KeyPackageIncomplete] else [])
    + if KeyPackageImpossible(r) then [KeyPackageClaimsTooMuch] else []
  }

  function WelcomeReasons(r: WelcomeView): seq<Reason> {
    (if WelcomeImpossible(r) then [WelcomeClaimsTooMuch] else [])
    + if r.localWelcomePersisted && !r.joined then [WelcomeNotJoined] else []
  }

  /** A receipt is unfinished or impossible. */
  predicate Unfinished(input: Input, files: Files) {
    || (KeyPackageGiven(input) && files.keyPackage.Decoded?
        && (!files.keyPackage.receipt.localReceiptPersisted || KeyPackageImpossible(files.keyPackage.receipt)))
    || (WelcomeGiven(input) && files.welcome.Decoded?
        && (WelcomeImpossible(files.welcome.receipt)
            || (files.welcome.receipt.localWelcomePersisted && !files.welcome.receipt.joined)))
  }

  /** The MLS group state, found out by probing the conversation state path when not given. */
  function GroupState(input: Input, files: Files, lower: char -> char): Group {
    var given := NormalizeGroup(input.mlsGroupState, lower);
    if given == Auto then ProbedGroup(input, files) else given
  }

  function ProbedGroup(input: Input, files: Files): Group {
    if TrimSpace(input.conversationStatePath) == "" || files.conversationState.Missing? then NoGroup
    else if files.conversationState.Exists? then Present
    else UnknownGroup
  }

  /** What the group is, over the token and the probe: a group is present when the token says so, or when
      the token leaves it to the files and the state path exists. */
  lemma GroupIsFoundOut(input: Input, files: Files, lower: char -> char)
    ensures var v, group := ToLower(TrimSpace(input.mlsGroupState), lower), GroupState(input, files, lower);
            var probed := v in {"auto", ""};
            var blank := TrimSpace(input.conversationStatePath) == "";
            && (group == Present
                <==> v in {"present", "joined", "exists"} || (probed && !blank && files.conversationState == Exists))
            && (group == NoGroup
                <==> v in {"absent", "missing"} || (probed && (blank || files.conversationState == Missing)))
            && (group == UnknownGroup <==> v == "unknown" || (probed && !blank && files.conversationState == Unknown))
            && group != Auto
  {
    hide ToLower, TrimSpace;
    GroupTokens(input.mlsGroupState, lower);
  }

  predicate Supported(input: Input, files: Files, lower: char -> char) {
    && NormalizeMember(input.cypherMemberState, lower) != UnsupportedMember
    && NormalizeGroup(input.mlsGroupState, lower) != UnsupportedGroup
    && (KeyPackageGiven(input) ==> KeyPackageReadable(files))
    && (WelcomeGiven(input) ==> WelcomeReadable(files))
  }

  /** The cascade that ends the evaluation: the first case that applies. */
  function Classify(otherDevice: bool, otherDeviceLabel: bool, otherConversation: bool, otherRelaySpace: bool,
                    unfinished: bool, member: Member, group: Group, welcomeJoined: bool, keyPackagePersisted: bool): Classification
  {
    if otherDevice then LocalDeviceIdMismatch
    else if otherDeviceLabel then SidecarDeviceLabelMismatch
    else if otherConversation then ConversationLabelMismatch
    else if otherRelaySpace then MlsConversationPresentWrongRelaySpace
    else if unfinished then IncompleteLocalConsumeOrJoin
    else if member == Active && group == NoGroup then RelayMemberActiveButMlsGroupAbsent
    else if member.Inactive() && welcomeJoined then WelcomeReceiptJoinedButCypherMemberInactive
    else if member.Inactive() && keyPackagePersisted then KeyPackageReceiptExistsButCypherMemberInactive
    else if member.Inactive() && group == Present then RelayMemberInactiveButMlsGroupPresent
    else if member == Active && group == Present then Aligned
    else if member == Pending || group == UnknownGroup || member == UnknownMember then StaleOrAmbiguous
    else UnsupportedOrUnknownStateVersion
  }

  /** The classification of an input by what its files say. */
  function Verdict(input: Input, files: Files, lower: char -> char): Classification {
    if !Supported(input, files, lower) then UnsupportedOrUnknownStateVersion
    else
      Classify(NamesOtherDevice(input, files), NamesOtherDeviceLabel(input, files), NamesOtherConversation(input, files),
               NamesOtherRelaySpace(input, files), Unfinished(input, files),
               NormalizeMember(input.cypherMemberState, lower), GroupState(input, files, lower),
               WelcomeGiven(input) && files.welcome.receipt.joined,
               KeyPackageGiven(input) && files.keyPackage.receipt.localReceiptPersisted)
  }

  // ---- The evaluators ----

  /** What an evaluation reports about the receipts it read. */
  ghost predicate ReportsReceipts(report: Mismatch, input: Input, files: Files) {
    && (report.keyPackagePresent ==>
          && KeyPackageGiven(input) && files.keyPackage.Decoded?
          && report.keyPackagePersisted == files.keyPackage.receipt.localReceiptPersisted
          && report.keyPackageAcked == files.keyPackage.receipt.keyPackageAcked)
    && (report.welcomePresent ==>
          && WelcomeGiven(input) && files.welcome.Decoded?
          && report.welcomePersisted == files.welcome.receipt.localWelcomePersisted
          && report.welcomeJoined == files.welcome.receipt.joined
          && report.welcomeAcked == files.welcome.receipt.welcomeAcked)
  }

  /** The group state to work with, and the reason given when the state path cannot be probed. */
  method ResolveGroup(input: Input, files: Files, given: Group) returns (group: Group, reasons: seq<Reason>)
    ensures group == if given == Auto then ProbedGroup(input, files) else given
    ensures reasons == if given == Auto && ProbedGroup(input, files) == UnknownGroup then [NotInspected] else []
  {
    hide TrimSpace;
    group, reasons := given, [];
    if group == Auto {
      group := NoGroup;
      if TrimSpace(input.conversationStatePath) != "" {
        if files.conversationState.Exists? {
          group := Present;
        } else if !files.conversationState.Missing? {
          group := UnknownGroup;
          reasons := reasons + [NotInspected];
        }
      }
    }
  }

  lemma UnsupportedVerdict(input: Input, files: Files, lower: char -> char)
    ensures !Supported(input, files, lower) ==> Verdict(input, files, lower) == UnsupportedOrUnknownStateVersion
  {
  }

  lemma ConcludesVerdict(input: Input, files: Files, lower: char -> char, report: Mismatch, unfinished: bool)
    requires Supported(input, files, lower)
    requires report.deviceMismatch == NamesOtherDevice(input, files)
    requires report.relaySpaceMismatch == NamesOtherRelaySpace(input, files)
    requires report.deviceLabelMismatch == NamesOtherDeviceLabel(input, files)
    requires report.conversationLabelMismatch == NamesOtherConversation(input, files)
    requires unfinished == Unfinished(input, files)
    requires report.member == NormalizeMember(input.cypherMemberState, lower)
    requires report.group == GroupState(input, files, lower)
    requires report.keyPackagePresent == KeyPackageGiven(input) && report.welcomePresent == WelcomeGiven(input)
    requires ReportsReceipts(report, input, files)
    ensures Evaluates(Conclude(report, unfinished), input, files, lower)
  {
    hide TrimSpace, NormalizeMember, GroupState, Unfinished, NamesOtherDevice, NamesOtherConversation, NamesOtherDeviceLabel,
      NamesOtherRelaySpace, Classify, KeyPackageGiven, WelcomeGiven, KeyPackageReadable, WelcomeReadable, Conclude;
    ReadableIsDecoded(files);
    ConcludesOnly(report, unfinished);
  }

  /** Concluding sets classification, action and reasons, and leaves the rest of the report. */
  lemma ConcludesOnly(report: Mismatch, unfinished: bool)
    ensures var o := Conclude(report, unfinished);
            && o.classification
               == Classify(report.deviceMismatch, report.deviceLabelMismatch, report.conversationLabelMismatch,
                           report.relaySpaceMismatch, unfinished, report.member, report.group,
                           report.welcomePresent && report.welcomeJoined,
                           report.keyPackagePresent && report.keyPackagePersisted)
            && o.action == (if o.classification == Aligned then Allow else Refuse)
            && (o.action == Refuse ==> o.reasons != [])
            && o.member == report.member && o.group == report.group
            && o.keyPackagePresent == report.keyPackagePresent && o.welcomePresent == report.welcomePresent
            && o.keyPackagePersisted == report.keyPackagePersisted && o.keyPackageAcked == report.keyPackageAcked
            && o.welcomePersisted == report.welcomePersisted && o.welcomeJoined == report.welcomeJoined
            && o.welcomeAcked == report.welcomeAcked
            && o.relaySpaceMismatch == report.relaySpaceMismatch && o.deviceMismatch == report.deviceMismatch
            && o.deviceLabelMismatch == report.deviceLabelMismatch
            && o.conversationLabelMismatch == report.conversationLabelMismatch
            && o.reasons == if report.reasons == [] && o.classification != Aligned then [NotAligned] else report.reasons
  {
    hide Classify;
  }

  lemma ReadWhenReadable(input: Input, files: Files)
    ensures KeyPackageRead(input, files) <==> KeyPackageGiven(input) && KeyPackageReadable(files)
    ensures WelcomeRead(input, files)
            <==> WelcomeGiven(input) && WelcomeReadable(files) && (KeyPackageGiven(input) ==> KeyPackageReadable(files))
  {
    hide TrimSpace;
  }

  /** The report of receipts read as `kp` and `wr`, before it is concluded. */
  function Collected(input: Input, member: Member, group: Group, readK: bool, readW: bool, kp: KeyPackageView, wr: WelcomeView,
                     reasons: seq<Reason>): Mismatch
  {
    var space, device := TrimSpace(input.relaySpaceId), TrimSpace(input.localDeviceId);
    var label_, conversation := TrimSpace(input.sidecarDeviceLabel), TrimSpace(input.conversationLabel);
    Mismatch(UnsupportedOrUnknownStateVersion, Refuse, member, group, readK, kp.localReceiptPersisted, kp.keyPackageAcked,
             readW, wr.localWelcomePersisted, wr.joined, wr.welcomeAcked,
             Contradicts(kp.relaySpaceId, space) || Contradicts(wr.relaySpaceId, space),
             Contradicts(kp.recipientDeviceId, device) || Contradicts(wr.recipientDeviceId, device),
             label_ != "" && Contradicts(wr.sidecarDeviceLabel, label_),
             conversation != "" && Contradicts(wr.conversationLabel, conversation), reasons)
  }

  lemma CollectedShows(input: Input, files: Files, member: Member, group: Group, readK: bool, readW: bool, kp: KeyPackageView,
                       wr: WelcomeView, reasons: seq<Reason>)
    requires (readK ==> files.keyPackage.Decoded?) && (readW ==> files.welcome.Decoded?)
    requires kp == (if readK then files.keyPackage.receipt else NO_KEYPACKAGE)
    requires wr == (if readW then files.welcome.receipt else NO_WELCOME)
    ensures ShowsFindings(Collected(input, member, group, readK, readW, kp, wr, reasons), input, files, readK, readW)
  {
    hide TrimSpace;
  }

  /** Which reasons the receipts give. */
  lemma ReceiptReasons(kp: KeyPackageView, wr: WelcomeView)
    ensures forall r :: r in KeyPackageReasons(kp)
                        <==> || (r == KeyPackageIncomplete && !kp.localReceiptPersisted)
                             || (r == KeyPackageClaimsTooMuch && KeyPackageImpossible(kp))
    ensures forall r :: r in WelcomeReasons(wr)
                        <==> || (r == WelcomeClaimsTooMuch && WelcomeImpossible(wr))
                             || (r == WelcomeNotJoined && wr.localWelcomePersisted && !wr.joined)
  {
  }

  /** The reasons collected from what was read, with `ReceiptUnreadable` behind them if something was not. */
  predicate Collects(reasons: seq<Reason>, files: Files, probe: seq<Reason>, readK: bool, readW: bool, unreadable: bool)
    requires (readK ==> files.keyPackage.Decoded?) && (readW ==> files.welcome.Decoded?)
  {
    var kp := if readK then KeyPackageReasons(files.keyPackage.receipt) else [];
    var wr := if readW then WelcomeReasons(files.welcome.receipt) else [];
    reasons == probe + kp + wr + if unreadable then [ReceiptUnreadable] else []
  }

  /** Which reasons were collected. */
  lemma CollectedMembers(reasons: seq<Reason>, files: Files, probe: seq<Reason>, readK: bool, readW: bool, unreadable: bool,
                         kp: KeyPackageView, wr: WelcomeView)
    requires (readK ==> files.keyPackage.Decoded? && kp == files.keyPackage.receipt)
    requires (readW ==> files.welcome.Decoded? && wr == files.welcome.receipt)
    requires Collects(reasons, files, probe, readK, readW, unreadable)
    ensures forall r :: r in reasons
                        <==> || r in probe
                             || (readK && r == KeyPackageIncomplete && !kp.localReceiptPersisted)
                             || (readK && r == KeyPackageClaimsTooMuch && KeyPackageImpossible(kp))
                             || (readW && r == WelcomeClaimsTooMuch && WelcomeImpossible(wr))
                             || (readW && r == WelcomeNotJoined && wr.localWelcomePersisted && !wr.joined)
                             || (unreadable && r == ReceiptUnreadable)
  {
    hide KeyPackageReasons, WelcomeReasons, KeyPackageImpossible, WelcomeImpossible;
    ReceiptReasons(kp, wr);
  }

  lemma CollectedReasons(report: Mismatch, reasons: seq<Reason>, input: Input, files: Files, probe: seq<Reason>, readK: bool, readW: bool,
                         unreadable: bool)
    requires (readK ==> files.keyPackage.Decoded?) && (readW ==> files.welcome.Decoded?)
    requires Collects(reasons, files, probe, readK, readW, unreadable) && (probe == [] || probe == [NotInspected])
    requires report.reasons == if reasons == [] && report.action == Refuse then [NotAligned] else reasons
    requires unreadable <==> (TrimSpace(input.keyPackageReceiptPath) != "" && !readK)
                             || (TrimSpace(input.welcomeReceiptPath) != "" && !readW)
    ensures GivesReasons(report, input, files, readK, readW, true, probe != [])
  {
    hide TrimSpace, Collects;
    CollectedMembers(reasons, files, probe, readK, readW, unreadable, if readK then files.keyPackage.receipt else NO_KEYPACKAGE,
                     if readW then files.welcome.receipt else NO_WELCOME);
    if NotAligned in report.reasons {
      assert NotAligned !in reasons;
    }
  }

  /** What an evaluation that gets as far as a report says. */
  ghost predicate Evaluates(report: Mismatch, input: Input, files: Files, lower: char -> char) {
    && report.classification == Verdict(input, files, lower)
    && report.action == (if report.classification == Aligned then Allow else Refuse)
    && (report.action == Refuse ==> report.reasons != [])
    && ReportsReceipts(report, input, files)
    && report.member == NormalizeMember(input.cypherMemberState, lower)
    && (report.member != UnsupportedMember && NormalizeGroup(input.mlsGroupState, lower) != UnsupportedGroup ==>
          report.group == GroupState(input, files, lower))
    && (Supported(input, files, lower) ==>
          report.keyPackagePresent == KeyPackageGiven(input) && report.welcomePresent == WelcomeGiven(input))
  }

  predicate KeyPackageRead(input: Input, files: Files) {
    TrimSpace(input.keyPackageReceiptPath) != "" && files.keyPackage.Decoded?
    && files.keyPackage.receipt.schemaVersion in {"", "carbonstack-keypackage-consume-receipt/v0"}
  }

  /** The Welcome receipt is read after the KeyPackage receipt, and not at all behind an unreadable one. */
  predicate WelcomeRead(input: Input, files: Files) {
    TrimSpace(input.welcomeReceiptPath) != "" && files.welcome.Decoded?
    && files.welcome.receipt.schemaVersion in {"", "carbonstack-welcome-consume-receipt/v0"}
    && (TrimSpace(input.keyPackageReceiptPath) != "" ==> KeyPackageRead(input, files))
  }

  /** What a report shows of the receipts that were read: their flags, and whether they name something else
      than the input. */
  predicate ShowsFindings(report: Mismatch, input: Input, files: Files, readK: bool, readW: bool)
    requires (readK ==> files.keyPackage.Decoded?) && (readW ==> files.welcome.Decoded?)
  {
    var kp, wr := if readK then files.keyPackage.receipt else NO_KEYPACKAGE, if readW then files.welcome.receipt else NO_WELCOME;
    var space, device := {"", TrimSpace(input.relaySpaceId)}, {"", TrimSpace(input.localDeviceId)};
    && report.keyPackagePresent == readK && report.welcomePresent == readW
    && report.keyPackagePersisted == kp.localReceiptPersisted && report.keyPackageAcked == kp.keyPackageAcked
    && report.welcomePersisted == wr.localWelcomePersisted && report.welcomeJoined == wr.joined
    && report.welcomeAcked == wr.welcomeAcked
    && (report.relaySpaceMismatch <==> kp.relaySpaceId !in space || wr.relaySpaceId !in space)
    && (report.deviceMismatch <==> kp.recipientDeviceId !in device || wr.recipientDeviceId !in device)
    && (report.deviceLabelMismatch
        <==> TrimSpace(input.sidecarDeviceLabel) != "" && wr.sidecarDeviceLabel !in {"", TrimSpace(input.sidecarDeviceLabel)})
    && (report.conversationLabelMismatch
        <==> TrimSpace(input.conversationLabel) != "" && wr.conversationLabel !in {"", TrimSpace(input.conversationLabel)})
  }

  /** Which reasons a report gives: each exactly when it applies, and the general one only without another. */
  predicate GivesReasons(report: Mismatch, input: Input, files: Files, readK: bool, readW: bool, tokens: bool, uninspected: bool)
    requires (readK ==> files.keyPackage.Decoded?) && (readW ==> files.welcome.Decoded?)
  {
    var givenK, givenW := TrimSpace(input.keyPackageReceiptPath) != "", TrimSpace(input.welcomeReceiptPath) != "";
    && (UnsupportedStateToken in report.reasons <==> !tokens)
    && (NotInspected in report.reasons <==> tokens && uninspected)
    && (ReceiptUnreadable in report.reasons <==> tokens && ((givenK && !readK) || (givenW && !readW)))
    && (KeyPackageIncomplete in report.reasons <==> readK && !files.keyPackage.receipt.localReceiptPersisted)
    && (KeyPackageClaimsTooMuch in report.reasons
        <==> && readK
             && var r := files.keyPackage.receipt; r.addMemberRun || r.welcomeSubmitted || r.trustOrCandidateStateMutated)
    && (WelcomeClaimsTooMuch in report.reasons
        <==> && readW
             && var r := files.welcome.receipt;
                r.trustOrCandidateStateMutated || r.verifiedIdentityClaimed || r.cypherMlsReconciled || r.publicDirectoryMutated)
    && (WelcomeNotJoined in report.reasons
        <==> readW && files.welcome.receipt.localWelcomePersisted && !files.welcome.receipt.joined)
    && (NotAligned in report.reasons <==> report.reasons == [NotAligned])
    && (report.reasons == [] ==> report.action == Allow)
  }

  /** `evaluateCypherMLSMismatch` */
  method EvaluateMismatch(input: Input, files: Files, lower: char -> char) returns (o: Outcome<Mismatch, EvaluationError>)
    ensures !o.Crashed?
    ensures o == Refused(RelaySpaceRequired) <==> TrimSpace(input.relaySpaceId) == ""
    ensures o == Refused(LocalDeviceRequired) <==> TrimSpace(input.relaySpaceId) != "" && TrimSpace(input.localDeviceId) == ""
    ensures o.Done? ==> Evaluates(o.value, input, files, lower)
    ensures o.Done? && o.value.action == Allow ==> o.value.member == Active && o.value.group == Present
    ensures o.Done? && ToLower(TrimSpace(input.mlsGroupState), lower) in {"auto", ""} && o.value.member != UnsupportedMember ==>
              o.value.group == if TrimSpace(input.conversationStatePath) == "" || files.conversationState == Missing then NoGroup
                               else if files.conversationState == Exists then Present else UnknownGroup
    ensures o.Done? && o.value.member != UnsupportedMember
            && ToLower(TrimSpace(input.mlsGroupState), lower) in {"present", "joined", "exists"} ==>
              o.value.group == Present
    ensures o.Done? ==>
              var tokens := NormalizeMember(input.cypherMemberState, lower) != UnsupportedMember
                            && NormalizeGroup(input.mlsGroupState, lower) != UnsupportedGroup;
              var readK, readW := tokens && KeyPackageRead(input, files), tokens && WelcomeRead(input, files);
              var uninspected := ToLower(TrimSpace(input.mlsGroupState), lower) in {"auto", ""}
                                 && TrimSpace(input.conversationStatePath) != "" && files.conversationState == Unknown;
              && ShowsFindings(o.value, input, files, readK, readW)
              && GivesReasons(o.value, input, files, readK, readW, tokens, uninspected)
  {
    hide ToLower, TrimSpace, NormalizeMember, NormalizeGroup, Verdict, ProbedGroup;
    UnsupportedVerdict(input, files, lower);
    GroupTokens(input.mlsGroupState, lower);
    GroupIsFoundOut(input, files, lower);
    AlignedMeans(input, files, lower);
    var member, group := NormalizeMember(input.cypherMemberState, lower), NormalizeGroup(input.mlsGroupState, lower);
    if TrimSpace(input.relaySpaceId) == "" {
      return Refused(RelaySpaceRequired);
    }
    if TrimSpace(input.localDeviceId) == "" {
      return Refused(LocalDeviceRequired);
    }
    if member == UnsupportedMember || group == UnsupportedGroup {
      return Done(EmptyReport(member, group, [UnsupportedStateToken]));
    }
    var probe;
    group, probe := ResolveGroup(input, files, group);
    var report := CompareReceipts(input, files, lower, member, group, probe);
    return Done(report);
  }

  /** The part of `evaluateCypherMLSMismatch` that reads the receipts and concludes. */
  method CompareReceipts(input: Input, files: Files, ghost lower: char -> char, member: Member, group: Group, probe: seq<Reason>)
      returns (report: Mismatch)
    requires member == NormalizeMember(input.cypherMemberState, lower) != UnsupportedMember
    requires NormalizeGroup(input.mlsGroupState, lower) != UnsupportedGroup && group == GroupState(input, files, lower)
    requires probe == [] || probe == [NotInspected]
    ensures Evaluates(report, input, files, lower)
    ensures ShowsFindings(report, input, files, KeyPackageRead(input, files), WelcomeRead(input, files))
    ensures GivesReasons(report, input, files, KeyPackageRead(input, files), WelcomeRead(input, files), true, probe != [])
  {
    hide ToLower, TrimSpace, NormalizeMember, NormalizeGroup, KeyPackageReasons, WelcomeReasons, Unfinished,
      KeyPackageReadable, WelcomeReadable, Verdict, Conclude, GroupState, Classify, KeyPackageRead, WelcomeRead, GivesReasons,
      ShowsFindings, Evaluates, NamesOtherDevice, NamesOtherConversation, NamesOtherDeviceLabel, NamesOtherRelaySpace, Collects;
    ReadableIsDecoded(files);
    ReadWhenReadable(input, files);
    var readable;
    report, readable := ReadReceipts(input, files, member, group, probe);
    if !readable {
      UnreadableEvaluates(input, files, lower, report, probe);
      CollectedReasons(report, report.reasons, input, files, probe, KeyPackageRead(input, files), WelcomeRead(input, files), true);
      return;
    }
    CollectedInOrder(report.reasons, input, files, probe);
    var unfinished := SearchReasons(input, files, probe, report.reasons);
    ShownIsNamed(report, input, files);
    ConcludesVerdict(input, files, lower, report, unfinished);
    ConcludesOnly(report, unfinished);
    ShownAlike(report, Conclude(report, unfinished), input, files, KeyPackageRead(input, files), WelcomeRead(input, files));
    CollectedReasons(Conclude(report, unfinished), report.reasons, input, files, probe, KeyPackageRead(input, files),
                     WelcomeRead(input, files), false);
    report := Conclude(report, unfinished);
  }

  lemma UnreadableEvaluates(input: Input, files: Files, lower: char -> char, report: Mismatch, probe: seq<Reason>)
    requires !Supported(input, files, lower) && report.classification == UnsupportedOrUnknownStateVersion && report.action == Refuse
    requires Collects(report.reasons, files, probe, KeyPackageRead(input, files), WelcomeRead(input, files), true)
    requires ShowsFindings(report, input, files, KeyPackageRead(input, files), WelcomeRead(input, files))
    requires report.member == NormalizeMember(input.cypherMemberState, lower) && report.group == GroupState(input, files, lower)
    ensures Evaluates(report, input, files, lower) && report.reasons != []
  {
    hide TrimSpace, ToLower, NormalizeMember, GroupState, Supported;
    UnsupportedVerdict(input, files, lower);
  }

  lemma CollectedInOrder(reasons: seq<Reason>, input: Input, files: Files, probe: seq<Reason>)
    requires KeyPackageRead(input, files) == KeyPackageGiven(input) && WelcomeRead(input, files) == WelcomeGiven(input)
    requires Collects(reasons, files, probe, KeyPackageRead(input, files), WelcomeRead(input, files), false)
    ensures var collected := if KeyPackageGiven(input) then probe + KeyPackageReasons(files.keyPackage.receipt) else probe;
            reasons == if WelcomeGiven(input) then collected + WelcomeReasons(files.welcome.receipt) else collected
  {
    hide TrimSpace, KeyPackageReasons, WelcomeReasons;
  }

  lemma ShownIsNamed(report: Mismatch, input: Input, files: Files)
    requires KeyPackageRead(input, files) == KeyPackageGiven(input) && WelcomeRead(input, files) == WelcomeGiven(input)
    requires ShowsFindings(report, input, files, KeyPackageRead(input, files), WelcomeRead(input, files))
    ensures report.deviceMismatch == NamesOtherDevice(input, files)
    ensures report.relaySpaceMismatch == NamesOtherRelaySpace(input, files)
    ensures report.deviceLabelMismatch == NamesOtherDeviceLabel(input, files)
    ensures report.conversationLabelMismatch == NamesOtherConversation(input, files)
    ensures ReportsReceipts(report, input, files)
    ensures report.keyPackagePresent == KeyPackageGiven(input) && report.welcomePresent == WelcomeGiven(input)
  {
    hide TrimSpace;
  }

  lemma ShownAlike(report: Mismatch, other: Mismatch, input: Input, files: Files, readK: bool, readW: bool)
    requires (readK ==> files.keyPackage.Decoded?) && (readW ==> files.welcome.Decoded?)
    requires ShowsFindings(report, input, files, readK, readW)
    requires other == report.(classification := other.classification, action := other.action, reasons := other.reasons)
    ensures ShowsFindings(other, input, files, readK, readW)
  {
    hide TrimSpace;
  }

  lemma CollectsInOrder(reasons: seq<Reason>, files: Files, probe: seq<Reason>, readK: bool, readW: bool, unreadable: bool,
                        kp: seq<Reason>, wr: seq<Reason>)
    requires (readK ==> files.keyPackage.Decoded?) && (readW ==> files.welcome.Decoded?)
    requires kp == (if readK then KeyPackageReasons(files.keyPackage.receipt) else [])
    requires wr == (if readW then WelcomeReasons(files.welcome.receipt) else [])
    requires reasons == probe + kp + wr + if unreadable then [ReceiptUnreadable] else []
    ensures Collects(reasons, files, probe, readK, readW, unreadable)
  {
    hide KeyPackageReasons, WelcomeReasons;
  }

  /** Reads the KeyPackage receipt if one is given. */
  method ReadKeyPackage(input: Input, files: Files)
      returns (readable: bool, kp: KeyPackageView, otherSpace: bool, otherDevice: bool, reasons: seq<Reason>)
    ensures readable <==> (KeyPackageGiven(input) ==> KeyPackageReadable(files))
    ensures KeyPackageRead(input, files) == (KeyPackageGiven(input) && readable)
    ensures kp == if KeyPackageRead(input, files) then files.keyPackage.receipt else NO_KEYPACKAGE
    ensures otherSpace == Contradicts(kp.relaySpaceId, TrimSpace(input.relaySpaceId))
    ensures otherDevice == Contradicts(kp.recipientDeviceId, TrimSpace(input.localDeviceId))
    ensures reasons == if KeyPackageRead(input, files) then KeyPackageReasons(kp) else []
  {
    hide TrimSpace, KeyPackageReasons;
    readable, kp, otherSpace, otherDevice, reasons := true, NO_KEYPACKAGE, false, false, [];
    if KeyPackageGiven(input) {
      if !KeyPackageReadable(files) {
        readable := false;
        return;
      }
      kp := files.keyPackage.receipt;
      otherSpace, otherDevice, reasons := InspectKeyPackage(kp, TrimSpace(input.relaySpaceId), TrimSpace(input.localDeviceId));
    }
  }

  /** Reads the Welcome receipt if one is given. */
  method ReadWelcome(input: Input, files: Files)
      returns (readable: bool, wr: WelcomeView, otherSpace: bool, otherDevice: bool, otherLabel: bool, otherConversation: bool,
               reasons: seq<Reason>)
    ensures readable <==> (WelcomeGiven(input) ==> WelcomeReadable(files))
    ensures wr == if WelcomeGiven(input) && WelcomeReadable(files) then files.welcome.receipt else NO_WELCOME
    ensures otherSpace == Contradicts(wr.relaySpaceId, TrimSpace(input.relaySpaceId))
    ensures otherDevice == Contradicts(wr.recipientDeviceId, TrimSpace(input.localDeviceId))
    ensures otherLabel
            == (TrimSpace(input.sidecarDeviceLabel) != "" && Contradicts(wr.sidecarDeviceLabel, TrimSpace(input.sidecarDeviceLabel)))
    ensures otherConversation
            == (TrimSpace(input.conversationLabel) != "" && Contradicts(wr.conversationLabel, TrimSpace(input.conversationLabel)))
    ensures reasons == if WelcomeGiven(input) && WelcomeReadable(files) then WelcomeReasons(wr) else []
  {
    hide TrimSpace, WelcomeReasons;
    readable, wr, otherSpace, otherDevice, otherLabel, otherConversation := true, NO_WELCOME, false, false, false, false;
    reasons := [];
    if WelcomeGiven(input) {
      if !WelcomeReadable(files) {
        readable := false;
        return;
      }
      wr := files.welcome.receipt;
      otherSpace, otherDevice, otherLabel, otherConversation, reasons :=
        InspectWelcome(wr, TrimSpace(input.relaySpaceId), TrimSpace(input.localDeviceId), TrimSpace(input.sidecarDeviceLabel),
                       TrimSpace(input.conversationLabel));
    }
  }

  /** Reads the receipts in order, up to an unreadable one. */
  method ReadReceipts(input: Input, files: Files, member: Member, group: Group, probe: seq<Reason>)
      returns (report: Mismatch, readable: bool)
    ensures report.classification == UnsupportedOrUnknownStateVersion && report.action == Refuse
    ensures report.member == member && report.group == group
    ensures readable <==> (KeyPackageGiven(input) ==> KeyPackageReadable(files)) && (WelcomeGiven(input) ==> WelcomeReadable(files))
    ensures ShowsFindings(report, input, files, KeyPackageRead(input, files), WelcomeRead(input, files))
    ensures Collects(report.reasons, files, probe, KeyPackageRead(input, files), WelcomeRead(input, files), !readable)
  {
    hide TrimSpace, KeyPackageReasons, WelcomeReasons, KeyPackageReadable, WelcomeReadable, KeyPackageRead, WelcomeRead, ShowsFindings,
      Collects, Contradicts, KeyPackageGiven, WelcomeGiven;
    ReadableIsDecoded(files);
    ReadWhenReadable(input, files);
    var kpReadable, kp, kpSpace, kpDevice, kpReasons := ReadKeyPackage(input, files);
    if !kpReadable {
      report, readable := EmptyReport(member, group, probe + [ReceiptUnreadable]), false;
      NothingCollected(input, member, group, report.reasons);
      CollectedShows(input, files, member, group, false, false, NO_KEYPACKAGE, NO_WELCOME, report.reasons);
      AppendNothing(probe);
      CollectsInOrder(report.reasons, files, probe, false, false, true, [], []);
      return;
    }
    var wrReadable, wr, wrSpace, wrDevice, otherLabel, otherConversation, wrReasons := ReadWelcome(input, files);
    report := Mismatch(UnsupportedOrUnknownStateVersion, Refuse, member, group,
                       KeyPackageGiven(input), kp.localReceiptPersisted, kp.keyPackageAcked,
                       WelcomeGiven(input) && wrReadable, wr.localWelcomePersisted, wr.joined, wr.welcomeAcked,
                       kpSpace || wrSpace, kpDevice || wrDevice, otherLabel, otherConversation,
                       probe + kpReasons + wrReasons + if wrReadable then [] else [ReceiptUnreadable]);
    readable := wrReadable;
    ghost var readK, readW := KeyPackageRead(input, files), WelcomeRead(input, files);
    assert report == Collected(input, member, group, readK, readW, kp, wr, report.reasons);
    CollectedShows(input, files, member, group, readK, readW, kp, wr, report.reasons);
    CollectsInOrder(report.reasons, files, probe, readK, readW, !wrReadable, kpReasons, wrReasons);
  }

  lemma AppendNothing(reasons: seq<Reason>)
    ensures reasons + [] == reasons
  {
  }

  lemma NothingCollected(input: Input, member: Member, group: Group, reasons: seq<Reason>)
    ensures EmptyReport(member, group, reasons) == Collected(input, member, group, false, false, NO_KEYPACKAGE, NO_WELCOME, reasons)
  {
    hide TrimSpace;
  }

  /** What the report shows for a receipt that was not given. */
  const NO_KEYPACKAGE := KeyPackageView("", "", "", false, false, false, false, false)
  const NO_WELCOME := WelcomeView("", "", "", "", "", false, false, false, false, false, false, false)

  /** The classification, the action it implies, and at least one reason for a refusal. */
  function Conclude(report: Mismatch, unfinished: bool): Mismatch {
    var classification := Classify(report.deviceMismatch, report.deviceLabelMismatch, report.conversationLabelMismatch,
                                   report.relaySpaceMismatch, unfinished, report.member, report.group,
                                   report.welcomePresent && report.welcomeJoined,
                                   report.keyPackagePresent && report.keyPackagePersisted);
    report.(classification := classification, action := if classification == Aligned then Allow else Refuse,
            reasons := if report.reasons == [] && classification != Aligned then [NotAligned] else report.reasons)
  }

  method SearchReasons(input: Input, files: Files, ghost probe: seq<Reason>, reasons: seq<Reason>) returns (unfinished: bool)
    requires KeyPackageGiven(input) ==> files.keyPackage.Decoded?
    requires WelcomeGiven(input) ==> files.welcome.Decoded?
    requires probe == [] || probe == [NotInspected]
    requires var collected := if KeyPackageGiven(input) then probe + KeyPackageReasons(files.keyPackage.receipt) else probe;
             reasons == if WelcomeGiven(input) then collected + WelcomeReasons(files.welcome.receipt) else collected
    ensures unfinished == Unfinished(input, files)
  {
    IncompleteMeansUnfinished(input, files, probe, reasons);
    unfinished := ContainsIncompleteReason(reasons);
  }

  function EmptyReport(member: Member, group: Group, reasons: seq<Reason>): Mismatch {
    Mismatch(UnsupportedOrUnknownStateVersion, Refuse, member, group, false, false, false, false, false,
             false, false, false, false, false, false, reasons)
  }

  /** The reasons collected from readable receipts contain an incomplete one exactly when a receipt is
      unfinished or impossible; a failing probe alone does not count. */
  lemma IncompleteMeansUnfinished(input: Input, files: Files, probe: seq<Reason>, reasons: seq<Reason>)
    requires KeyPackageGiven(input) ==> files.keyPackage.Decoded?
    requires WelcomeGiven(input) ==> files.welcome.Decoded?
    requires probe == [] || probe == [NotInspected]
    requires var collected := if KeyPackageGiven(input) then probe + KeyPackageReasons(files.keyPackage.receipt) else probe;
             reasons == if WelcomeGiven(input) then collected + WelcomeReasons(files.welcome.receipt) else collected
    ensures (exists r :: r in reasons && IsIncompleteReason(r)) <==> Unfinished(input, files)
  {
    hide IsIncompleteReason, TrimSpace;
    ReasonsAreSorted();
    assert forall r :: r in reasons ==>
      r in [NotInspected, KeyPackageIncomplete, KeyPackageClaimsTooMuch, WelcomeClaimsTooMuch, WelcomeNotJoined];
    if Unfinished(input, files) {
      assert KeyPackageIncomplete in reasons || KeyPackageClaimsTooMuch in reasons
             || WelcomeClaimsTooMuch in reasons || WelcomeNotJoined in reasons;
    }
  }

  /** The findings about a KeyPackage receipt. */
  method InspectKeyPackage(kp: KeyPackageView, relaySpaceId: string, localDeviceId: string)
      returns (otherSpace: bool, otherDevice: bool, reasons: seq<Reason>)
    ensures otherSpace == Contradicts(kp.relaySpaceId, relaySpaceId)
    ensures otherDevice == Contradicts(kp.recipientDeviceId, localDeviceId)
    ensures reasons == KeyPackageReasons(kp)
  {
    otherSpace, otherDevice, reasons := false, false, [];
    if kp.relaySpaceId != "" && kp.relaySpaceId != relaySpaceId {
      otherSpace := true;
    }
    if kp.recipientDeviceId != "" && kp.recipientDeviceId != localDeviceId {
      otherDevice := true;
    }
    if !kp.localReceiptPersisted {
      reasons := reasons + [KeyPackageIncomplete];
    }
    if kp.addMemberRun || kp.welcomeSubmitted || kp.trustOrCandidateStateMutated {
      reasons := reasons + [KeyPackageClaimsTooMuch];
    }
  }

  /** The findings about a Welcome receipt. */
  method InspectWelcome(wr: WelcomeView, relaySpaceId: string, localDeviceId: string, sidecarDeviceLabel: string,
                        conversationLabel: string)
      returns (otherSpace: bool, otherDevice: bool, otherLabel: bool, otherConversation: bool, reasons: seq<Reason>)
    ensures otherSpace == Contradicts(wr.relaySpaceId, relaySpaceId)
    ensures otherDevice == Contradicts(wr.recipientDeviceId, localDeviceId)
    ensures otherLabel == (sidecarDeviceLabel != "" && Contradicts(wr.sidecarDeviceLabel, sidecarDeviceLabel))
    ensures otherConversation == (conversationLabel != "" && Contradicts(wr.conversationLabel, conversationLabel))
    ensures reasons == WelcomeReasons(wr)
  {
    otherSpace, otherDevice, otherLabel, otherConversation, reasons := false, false, false, false, [];
    if wr.relaySpaceId != "" && wr.relaySpaceId != relaySpaceId {
      otherSpace := true;
    }
    if wr.recipientDeviceId != "" && wr.recipientDeviceId != localDeviceId {
      otherDevice := true;
    }
    if sidecarDeviceLabel != "" && wr.sidecarDeviceLabel != "" && wr.sidecarDeviceLabel != sidecarDeviceLabel {
      otherLabel := true;
    }
    if conversationLabel != "" && wr.conversationLabel != "" && wr.conversationLabel != conversationLabel {
      otherConversation := true;
    }
    if wr.trustOrCandidateStateMutated || wr.verifiedIdentityClaimed || wr.cypherMlsReconciled || wr.publicDirectoryMutated {
      reasons := reasons + [WelcomeClaimsTooMuch];
    }
    if wr.localWelcomePersisted && !wr.joined {
      reasons := reasons + [WelcomeNotJoined];
    }
  }

  // ---- The workflow evaluator ----

  datatype StageName = StateReady | CypherMlsMismatch | KeyPackageReceiptStage | WelcomeReceiptStage | WorkflowResult
  datatype Status = Complete | Incomplete | Partial | MissingStatus | RefusedStatus

  datatype StageClass =
    | ReadyDeviceStateLoaded
    | MismatchClass(classification: Classification)
    | KeyPackageMissing | KeyPackageUnreadable | KeyPackageNotPersisted | KeyPackageNotAcked | KeyPackageReady
    | WelcomeMissing | WelcomeUnreadable | WelcomeNotPersisted | WelcomeNotJoinedStage | WelcomeNotAcked | WelcomeReady
    | PartialOnboardingState
    | WorkflowReady

  datatype Stage = Stage(name: StageName, status: Status, classification: StageClass, action: Action)

  datatype Workflow = Workflow(classification: StageClass, action: Action, stages: seq<Stage>)

  function StatusOf(action: Action): Status {
    if action == Allow then Complete else RefusedStatus
  }

  /** Everything onboarding needs: an active member with the group on disk, and both receipts given,
      readable, about this device, space and conversation, complete, and claiming nothing impossible. */
  predicate Ready(input: Input, files: Files, lower: char -> char) {
    && NormalizeMember(input.cypherMemberState, lower) == Active
    && GroupState(input, files, lower) == Present
    && KeyPackageGiven(input) && KeyPackageReadable(files)
    && WelcomeGiven(input) && WelcomeReadable(files)
    && !NamesOtherDevice(input, files) && !NamesOtherRelaySpace(input, files)
    && !NamesOtherDeviceLabel(input, files) && !NamesOtherConversation(input, files)
    && !KeyPackageImpossible(files.keyPackage.receipt) && !WelcomeImpossible(files.welcome.receipt)
    && files.keyPackage.receipt.localReceiptPersisted && files.keyPackage.receipt.keyPackageAcked
    && files.welcome.receipt.localWelcomePersisted && files.welcome.receipt.joined && files.welcome.receipt.welcomeAcked
  }

  /** The input as the workflow evaluator hands it on: trimmed, with normalized tokens. */
  function Forwarded(input: Input, lower: char -> char): Input {
    Input(TrimSpace(input.relaySpaceId), TrimSpace(input.localDeviceId),
          NormalizeMember(input.cypherMemberState, lower).Token(), NormalizeGroup(input.mlsGroupState, lower).Token(),
          TrimSpace(input.sidecarDeviceLabel), TrimSpace(input.conversationLabel), TrimSpace(input.conversationStatePath),
          TrimSpace(input.keyPackageReceiptPath), TrimSpace(input.welcomeReceiptPath))
  }

  lemma TokenIsNormal(token: string, lower: char -> char)
    requires token != "" && forall c <- token :: 'a' <= c <= 'z'
    ensures ToLower(TrimSpace(token), lower) == token
  {
    assert token[0] in token && token[|token| - 1] in token;
    assert TrimSpace(token) == token;
    forall i | 0 <= i < |token|
      ensures ToLower(token, lower)[i] == token[i]
    {
      assert token[i] in token;
    }
    assert ToLower(token, lower) == token;
  }

  /** Normalizing a normalized state again changes nothing. */
  lemma NormalizeTwice(member: Member, group: Group, lower: char -> char)
    ensures NormalizeMember(member.Token(), lower) == member
    ensures NormalizeGroup(group.Token(), lower) == group
  {
    hide ToLower, TrimSpace;
    TokenIsNormal(member.Token(), lower);
    TokenIsNormal(group.Token(), lower);
  }

  /** Handing on the trimmed, normalized input does not change what is found. */
  lemma ForwardedAgrees(input: Input, files: Files, lower: char -> char)
    ensures var f := Forwarded(input, lower);
            && Verdict(f, files, lower) == Verdict(input, files, lower)
            && KeyPackageGiven(f) == KeyPackageGiven(input) && WelcomeGiven(f) == WelcomeGiven(input)
            && Supported(f, files, lower) == Supported(input, files, lower)
  {
    hide ToLower, TrimSpace, NormalizeMember, NormalizeGroup, Classify, KeyPackageReadable, WelcomeReadable, Contradicts;
    NormalizeTwice(NormalizeMember(input.cypherMemberState, lower), NormalizeGroup(input.mlsGroupState, lower), lower);
    TrimSpaceTwice(input.relaySpaceId);
    TrimSpaceTwice(input.localDeviceId);
    TrimSpaceTwice(input.sidecarDeviceLabel);
    TrimSpaceTwice(input.conversationLabel);
    TrimSpaceTwice(input.conversationStatePath);
    TrimSpaceTwice(input.keyPackageReceiptPath);
    TrimSpaceTwice(input.welcomeReceiptPath);
  }

  /** The KeyPackage receipt stage. */
  method KeyPackageStage(given: bool, report: Mismatch) returns (stage: Stage)
    ensures stage.name == KeyPackageReceiptStage && (stage.status == Complete <==> stage.action == Allow)
    ensures stage.classification == KeyPackageMissing <==> !given
    ensures stage.classification == KeyPackageUnreadable <==> given && !report.keyPackagePresent
    ensures stage.classification == KeyPackageNotPersisted <==> given && report.keyPackagePresent && !report.keyPackagePersisted
    ensures stage.classification == KeyPackageNotAcked
            <==> given && report.keyPackagePresent && report.keyPackagePersisted && !report.keyPackageAcked
    ensures stage.classification == KeyPackageReady <==> stage.action == Allow
    ensures stage.status == MissingStatus <==> !given || !report.keyPackagePresent
    ensures stage.status == Incomplete <==> stage.classification == KeyPackageNotPersisted
    ensures stage.status == Partial <==> stage.classification == KeyPackageNotAcked
    ensures stage.action == Allow <==>
              given && report.keyPackagePresent && report.keyPackagePersisted && report.keyPackageAcked
  {
    if !given {
      return Stage(KeyPackageReceiptStage, MissingStatus, KeyPackageMissing, Refuse);
    } else if !report.keyPackagePresent {
      return Stage(KeyPackageReceiptStage, MissingStatus, KeyPackageUnreadable, Refuse);
    } else if !report.keyPackagePersisted {
      return Stage(KeyPackageReceiptStage, Incomplete, KeyPackageNotPersisted, Refuse);
    } else if !report.keyPackageAcked {
      return Stage(KeyPackageReceiptStage, Partial, KeyPackageNotAcked, Refuse);
    }
    return Stage(KeyPackageReceiptStage, Complete, KeyPackageReady, Allow);
  }

  /** The Welcome receipt stage. */
  method WelcomeStage(given: bool, report: Mismatch) returns (stage: Stage)
    ensures stage.name == WelcomeReceiptStage && (stage.status == Complete <==> stage.action == Allow)
    ensures stage.classification == WelcomeMissing <==> !given
    ensures stage.classification == WelcomeUnreadable <==> given && !report.welcomePresent
    ensures stage.classification == WelcomeNotPersisted <==> given && report.welcomePresent && !report.welcomePersisted
    ensures stage.classification == WelcomeNotJoinedStage
            <==> given && report.welcomePresent && report.welcomePersisted && !report.welcomeJoined
    ensures stage.classification == WelcomeNotAcked
            <==> given && report.welcomePresent && report.welcomePersisted && report.welcomeJoined && !report.welcomeAcked
    ensures stage.classification == WelcomeReady <==> stage.action == Allow
    ensures stage.status == MissingStatus <==> !given || !report.welcomePresent
    ensures stage.status == Incomplete <==> stage.classification == WelcomeNotPersisted
    ensures stage.status == Partial <==> stage.classification in {WelcomeNotJoinedStage, WelcomeNotAcked}
    ensures stage.action == Allow <==>
              given && report.welcomePresent && report.welcomePersisted && report.welcomeJoined && report.welcomeAcked
  {
    if !given {
      return Stage(WelcomeReceiptStage, MissingStatus, WelcomeMissing, Refuse);
    } else if !report.welcomePresent {
      return Stage(WelcomeReceiptStage, MissingStatus, WelcomeUnreadable, Refuse);
    } else if !report.welcomePersisted {
      return Stage(WelcomeReceiptStage, Incomplete, WelcomeNotPersisted, Refuse);
    } else if !report.welcomeJoined {
      return Stage(WelcomeReceiptStage, Partial, WelcomeNotJoinedStage, Refuse);
    } else if !report.welcomeAcked {
      return Stage(WelcomeReceiptStage, Partial, WelcomeNotAcked, Refuse);
    }
    return Stage(WelcomeReceiptStage, Complete, WelcomeReady, Allow);
  }

  /** What a workflow evaluation concludes: ready, partial, or the mismatch. */
  predicate ConcludesReadiness(w: Workflow, input: Input, files: Files, lower: char -> char) {
    && (w.action == Allow <==> Ready(input, files, lower))
    && (w.classification == WorkflowReady <==> Ready(input, files, lower))
    && (w.classification == PartialOnboardingState <==> Verdict(input, files, lower) == Aligned && !Ready(input, files, lower))
    && (Verdict(input, files, lower) != Aligned ==> w.classification == MismatchClass(Verdict(input, files, lower)))
  }

  /** Readiness implies alignment. */
  lemma ReadyIsAligned(input: Input, files: Files, lower: char -> char)
    ensures Ready(input, files, lower) ==> Verdict(input, files, lower) == Aligned
  {
    hide TrimSpace, NormalizeMember, Contradicts, KeyPackageReadable, WelcomeReadable;
    ReadableIsDecoded(files);
    AlignedMeans(input, files, lower);
  }

  predicate AllAllow(stages: seq<Stage>) {
    forall stage <- stages :: stage.action == Allow
  }

  predicate CompleteMeansAllow(stages: seq<Stage>) {
    forall stage <- stages :: stage.status == Complete <==> stage.action == Allow
  }

  lemma FiveStages(s0: Stage, s1: Stage, s2: Stage, s3: Stage, s4: Stage)
    ensures AllAllow([s0, s1, s2, s3, s4])
            <==> s0.action == Allow && s1.action == Allow && s2.action == Allow && s3.action == Allow && s4.action == Allow
    ensures (s0.status == Complete <==> s0.action == Allow) && (s1.status == Complete <==> s1.action == Allow)
            && (s2.status == Complete <==> s2.action == Allow) && (s3.status == Complete <==> s3.action == Allow)
            && (s4.status == Complete <==> s4.action == Allow)
            ==> CompleteMeansAllow([s0, s1, s2, s3, s4])
  {
    var all := [s0, s1, s2, s3, s4];
    assert s0 in all && s1 in all && s2 in all && s3 in all && s4 in all;
  }

  /** `evaluateWorkflowRelayOnboarding` */
  method EvaluateWorkflow(input: Input, files: Files, lower: char -> char) returns (o: Outcome<Workflow, EvaluationError>)
    ensures !o.Crashed?
    ensures o == Refused(RelaySpaceRequired) <==> TrimSpace(input.relaySpaceId) == ""
    ensures o == Refused(LocalDeviceRequired) <==> TrimSpace(input.relaySpaceId) != "" && TrimSpace(input.localDeviceId) == ""
    ensures o.Done? ==> ConcludesReadiness(o.value, input, files, lower)
    ensures o.Done? ==>
              && |o.value.stages| == 5
              && (o.value.action == Allow <==> AllAllow(o.value.stages)) && CompleteMeansAllow(o.value.stages)
    ensures o.Done? ==>
              var verdict, refused := Verdict(input, files, lower), o.value.action == Refuse;
              && o.value.stages[0] == Stage(StateReady, Complete, ReadyDeviceStateLoaded, Allow)
              && o.value.stages[1] == (if verdict == Aligned then Stage(CypherMlsMismatch, Complete, MismatchClass(Aligned), Allow)
                                       else Stage(CypherMlsMismatch, RefusedStatus, MismatchClass(verdict), Refuse))
              && o.value.stages[2].name == KeyPackageReceiptStage && o.value.stages[3].name == WelcomeReceiptStage
              && o.value.stages[4] == Stage(WorkflowResult, if refused then RefusedStatus else Complete, o.value.classification,
                                            o.value.action)
    ensures o.Done? && o.value.action == Allow ==>
              var v := ToLower(TrimSpace(input.mlsGroupState), lower);
              && ToLower(TrimSpace(input.cypherMemberState), lower) == "active"
              && (|| v in {"present", "joined", "exists"}
                  || (v in {"auto", ""} && TrimSpace(input.conversationStatePath) != "" && files.conversationState == Exists))
  {
    hide TrimSpace, NormalizeMember, NormalizeGroup, Verdict, GroupState, Ready, Supported, Evaluates, Forwarded, KeyPackageGiven,
      WelcomeGiven, AllAllow, CompleteMeansAllow;
    ForwardedAgrees(input, files, lower);
    ForwardedNames(input, lower);
    if Ready(input, files, lower) {
      ReadyMeansPresent(input, files, lower);
    }
    if TrimSpace(input.relaySpaceId) == "" {
      return Refused(RelaySpaceRequired);
    }
    if TrimSpace(input.localDeviceId) == "" {
      return Refused(LocalDeviceRequired);
    }
    var stages := [Stage(StateReady, Complete, ReadyDeviceStateLoaded, Allow)];
    var forwarded := Forwarded(input, lower);
    var report :- EvaluateMismatch(forwarded, files, lower);
    stages := stages + [Stage(CypherMlsMismatch, StatusOf(report.action), MismatchClass(report.classification), report.action)];
    var kpStage := KeyPackageStage(KeyPackageGiven(forwarded), report);
    stages := stages + [kpStage];
    var welcomeStage := WelcomeStage(WelcomeGiven(forwarded), report);
    stages := stages + [welcomeStage];
    var classification, action := WorkflowReady, Allow;
    if report.action == Refuse {
      classification, action := MismatchClass(report.classification), Refuse;
    } else if kpStage.action == Refuse || welcomeStage.action == Refuse {
      classification, action := PartialOnboardingState, Refuse;
    }
    stages := stages + [Stage(WorkflowResult, StatusOf(action), classification, action)];
    AllowedIsReady(input, files, lower, report, kpStage.action, welcomeStage.action);
    FiveStages(stages[0], stages[1], kpStage, welcomeStage, stages[4]);
    assert stages == [stages[0], stages[1], kpStage, welcomeStage, stages[4]];
    return Done(Workflow(classification, action, stages));
  }

  lemma ReadyMeansPresent(input: Input, files: Files, lower: char -> char)
    requires Ready(input, files, lower)
    ensures ToLower(TrimSpace(input.cypherMemberState), lower) == "active"
    ensures var v := ToLower(TrimSpace(input.mlsGroupState), lower);
            || v in {"present", "joined", "exists"}
            || (v in {"auto", ""} && TrimSpace(input.conversationStatePath) != "" && files.conversationState == Exists)
  {
    hide ToLower, TrimSpace, NormalizeMember, GroupState;
    MemberTokens(input.cypherMemberState, lower);
    GroupIsFoundOut(input, files, lower);
  }

  lemma ForwardedNames(input: Input, lower: char -> char)
    ensures var f := Forwarded(input, lower);
            TrimSpace(f.relaySpaceId) == TrimSpace(input.relaySpaceId) && TrimSpace(f.localDeviceId) == TrimSpace(input.localDeviceId)
  {
    hide TrimSpace, NormalizeMember, NormalizeGroup;
    TrimSpaceTwice(input.relaySpaceId);
    TrimSpaceTwice(input.localDeviceId);
  }

  /** The three actions allow together exactly when everything is ready. */
  lemma AllowedIsReady(input: Input, files: Files, lower: char -> char, report: Mismatch, kpAction: Action, welcomeAction: Action)
    requires Evaluates(report, Forwarded(input, lower), files, lower)
    requires kpAction == Allow <==> KeyPackageGiven(Forwarded(input, lower)) && report.keyPackagePresent
                                    && report.keyPackagePersisted && report.keyPackageAcked
    requires welcomeAction == Allow <==> WelcomeGiven(Forwarded(input, lower)) && report.welcomePresent
                                         && report.welcomePersisted && report.welcomeJoined && report.welcomeAcked
    ensures report.classification == Verdict(input, files, lower)
    ensures report.action == Allow <==> Verdict(input, files, lower) == Aligned
    ensures report.action == Allow && kpAction == Allow && welcomeAction == Allow <==> Ready(input, files, lower)
  {
    hide TrimSpace, NormalizeMember, NormalizeGroup, Forwarded, Verdict, Contradicts, KeyPackageGiven, WelcomeGiven,
      KeyPackageReadable, WelcomeReadable, KeyPackageImpossible, WelcomeImpossible;
    ReadableIsDecoded(files);
    ForwardedAgrees(input, files, lower);
    AlignedMeans(input, files, lower);
  }

  /** When the verdict is `Aligned`. */
  lemma AlignedMeans(input: Input, files: Files, lower: char -> char)
    ensures Verdict(input, files, lower) == Aligned
            <==> && Supported(input, files, lower)
                 && NormalizeMember(input.cypherMemberState, lower) == Active && GroupState(input, files, lower) == Present
                 && !NamesOtherDevice(input, files) && !NamesOtherRelaySpace(input, files)
                 && !NamesOtherDeviceLabel(input, files) && !NamesOtherConversation(input, files)
                 && !Unfinished(input, files)
  {
    hide TrimSpace, NormalizeMember, NormalizeGroup, GroupState, Contradicts, KeyPackageReadable, WelcomeReadable;
    ReadableIsDecoded(files);
  }

  // ---- The verdict over input and files ----

  /** The receipt says nothing against the input: a field it leaves empty contradicts nothing. */
  predicate KeyPackageFits(input: Input, r: KeyPackageView) {
    && r.schemaVersion in {"", "carbonstack-keypackage-consume-receipt/v0"}
    && r.recipientDeviceId in {"", TrimSpace(input.localDeviceId)} && r.relaySpaceId in {"", TrimSpace(input.relaySpaceId)}
    && r.localReceiptPersisted && !r.addMemberRun && !r.welcomeSubmitted && !r.trustOrCandidateStateMutated
  }

  predicate WelcomeFits(input: Input, r: WelcomeView) {
    && r.schemaVersion in {"", "carbonstack-welcome-consume-receipt/v0"}
    && r.recipientDeviceId in {"", TrimSpace(input.localDeviceId)} && r.relaySpaceId in {"", TrimSpace(input.relaySpaceId)}
    && (TrimSpace(input.sidecarDeviceLabel) == "" || r.sidecarDeviceLabel in {"", TrimSpace(input.sidecarDeviceLabel)})
    && (TrimSpace(input.conversationLabel) == "" || r.conversationLabel in {"", TrimSpace(input.conversationLabel)})
    && (r.localWelcomePersisted ==> r.joined)
    && !r.trustOrCandidateStateMutated && !r.verifiedIdentityClaimed && !r.cypherMlsReconciled && !r.publicDirectoryMutated
  }

  /** Aligned and ready, over the fields of input and files: active, with a group, and no receipt given that
      is unreadable or speaks against it; ready asks for both receipts and their acknowledgements besides. */
  lemma AllowedExactly(input: Input, files: Files, lower: char -> char)
    ensures var kGiven, wGiven := TrimSpace(input.keyPackageReceiptPath) != "", TrimSpace(input.welcomeReceiptPath) != "";
            var v := ToLower(TrimSpace(input.mlsGroupState), lower);
            var aligned := && ToLower(TrimSpace(input.cypherMemberState), lower) == "active"
                           && (v in {"present", "joined", "exists"}
                               || (v in {"auto", ""} && TrimSpace(input.conversationStatePath) != "" && files.conversationState == Exists))
                           && (kGiven ==> files.keyPackage.Decoded? && KeyPackageFits(input, files.keyPackage.receipt))
                           && (wGiven ==> files.welcome.Decoded? && WelcomeFits(input, files.welcome.receipt));
            && (Verdict(input, files, lower) == Aligned <==> aligned)
            && (Ready(input, files, lower)
                <==> && aligned && kGiven && wGiven && files.keyPackage.receipt.keyPackageAcked
                     && files.welcome.receipt.localWelcomePersisted && files.welcome.receipt.welcomeAcked)
  {
    hide ToLower, TrimSpace, NormalizeMember, NormalizeGroup, GroupState, Verdict;
    AlignedMeans(input, files, lower);
    MemberTokens(input.cypherMemberState, lower);
    GroupIsFoundOut(input, files, lower);
    GroupTokens(input.mlsGroupState, lower);
    SupportedGroup(input, files, lower);
  }

  lemma SupportedGroup(input: Input, files: Files, lower: char -> char)
    ensures GroupState(input, files, lower) == Present ==> NormalizeGroup(input.mlsGroupState, lower) != UnsupportedGroup
  {
    hide ToLower, TrimSpace;
  }

  /** Which refusal is given: another device, then another device label, conversation or space, then an
      unfinished or impossible receipt, then what member and group say. */
  lemma RefusedExactly(input: Input, files: Files, lower: char -> char)
    requires Supported(input, files, lower)
    ensures var c := Verdict(input, files, lower);
            var kGiven, wGiven := TrimSpace(input.keyPackageReceiptPath) != "", TrimSpace(input.welcomeReceiptPath) != "";
            var k, w := files.keyPackage, files.welcome;
            var otherDevice := || (kGiven && k.receipt.recipientDeviceId !in {"", TrimSpace(input.localDeviceId)})
                               || (wGiven && w.receipt.recipientDeviceId !in {"", TrimSpace(input.localDeviceId)});
            var otherLabel := wGiven && TrimSpace(input.sidecarDeviceLabel) != ""
                              && w.receipt.sidecarDeviceLabel !in {"", TrimSpace(input.sidecarDeviceLabel)};
            var otherConversation := wGiven && TrimSpace(input.conversationLabel) != ""
                                     && w.receipt.conversationLabel !in {"", TrimSpace(input.conversationLabel)};
            var otherSpace := || (kGiven && k.receipt.relaySpaceId !in {"", TrimSpace(input.relaySpaceId)})
                              || (wGiven && w.receipt.relaySpaceId !in {"", TrimSpace(input.relaySpaceId)});
            && (c == LocalDeviceIdMismatch <==> otherDevice)
            && (c == SidecarDeviceLabelMismatch <==> !otherDevice && otherLabel)
            && (c == ConversationLabelMismatch <==> !otherDevice && !otherLabel && otherConversation)
            && (c == MlsConversationPresentWrongRelaySpace
                <==> !otherDevice && !otherLabel && !otherConversation && otherSpace)
            && (c == IncompleteLocalConsumeOrJoin
                <==> && !otherDevice && !otherLabel && !otherConversation && !otherSpace
                     && ((kGiven && (!k.receipt.localReceiptPersisted || k.receipt.addMemberRun || k.receipt.welcomeSubmitted
                                     || k.receipt.trustOrCandidateStateMutated))
                         || (wGiven && ((w.receipt.localWelcomePersisted && !w.receipt.joined)
                                        || w.receipt.trustOrCandidateStateMutated || w.receipt.verifiedIdentityClaimed
                                        || w.receipt.cypherMlsReconciled || w.receipt.publicDirectoryMutated))))
  {
    hide ToLower, TrimSpace, NormalizeMember, NormalizeGroup, GroupState;
  }

  /** The refusals that follow from member and group, when no receipt given speaks against the input. */
  lemma RefusedByMembership(input: Input, files: Files, lower: char -> char)
    requires Supported(input, files, lower)
    requires TrimSpace(input.keyPackageReceiptPath) != "" ==> KeyPackageFits(input, files.keyPackage.receipt)
    requires TrimSpace(input.welcomeReceiptPath) != "" ==> WelcomeFits(input, files.welcome.receipt)
    ensures var c, group := Verdict(input, files, lower), GroupState(input, files, lower);
            var member := ToLower(TrimSpace(input.cypherMemberState), lower);
            var inactive := member in {"disabled", "left", "absent", "removed"};
            var joined := TrimSpace(input.welcomeReceiptPath) != "" && files.welcome.receipt.joined;
            var persisted := TrimSpace(input.keyPackageReceiptPath) != "";
            && (c == Aligned <==> member == "active" && group == Present)
            && (c == RelayMemberActiveButMlsGroupAbsent <==> member == "active" && group == NoGroup)
            && (c == WelcomeReceiptJoinedButCypherMemberInactive <==> inactive && joined)
            && (c == KeyPackageReceiptExistsButCypherMemberInactive <==> inactive && !joined && persisted)
            && (c == RelayMemberInactiveButMlsGroupPresent <==> inactive && !joined && !persisted && group == Present)
            && (c == StaleOrAmbiguous
                <==> || member in {"pending", "unknown", ""} || (member == "active" && group == UnknownGroup)
                     || (inactive && !joined && !persisted && group == UnknownGroup))
            && (c == UnsupportedOrUnknownStateVersion <==> inactive && !joined && !persisted && group == NoGroup)
  {
    hide ToLower, TrimSpace, NormalizeMember, NormalizeGroup, GroupState;
    MemberTokens(input.cypherMemberState, lower);
    GroupIsFoundOut(input, files, lower);
    SupportedGroupIsKnown(input, files, lower);
  }

  lemma SupportedGroupIsKnown(input: Input, files: Files, lower: char -> char)
    requires NormalizeGroup(input.mlsGroupState, lower) != UnsupportedGroup
    ensures GroupState(input, files, lower) in {Present, NoGroup, UnknownGroup}
  {
    hide ToLower, TrimSpace;
  }
}
