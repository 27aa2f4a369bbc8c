/** The local trust binding: evidence observed once, then promoted, changed, demoted or revoked
    (local_trust_binding_v1.go). Every operation returns a changed copy. */
module LocalTrustBinding {
  import opened Outcomes
  import opened Text

  const SCHEMA := "carbonstack-comms-local-trust-binding-v1"

  datatype State =
    | CandidateObserved
    | PromotedLocalTrust
    | ChangedSigner
    | ChangedDevice
    | ChangedKeyLineage
    | Demoted
    | Revoked
  {
    predicate IsChanged() {
      ChangedSigner? || ChangedDevice? || ChangedKeyLineage?
    }
  }

  datatype Evidence = Evidence(
    subjectLabel: string, accountId: string, deviceId: string, relaySpaceId: string, credentialFingerprint: string,
    signerFingerprint: string, keyPackageFingerprint: string, keyPackageLineage: string, firstObservedAt: string,
    lastObservedAt: string, candidateSource: string, providerObservationEventId: string, relayMembershipEventId: string,
    mlsJoinEventId: string)

  datatype Binding = Binding(
    schemaVersion: string, state: State, evidence: Evidence, fingerprint: string, promotionEventId: string,
    verificationMethod: string, demotionOrRevocationId: string, warnings: seq<string>)

  datatype Change = Change(
    accountId: string, deviceId: string, relaySpaceId: string, credentialFingerprint: string, signerFingerprint: string,
    keyPackageFingerprint: string, keyPackageLineage: string)

  datatype BindingError = EvidenceMissing | UnsupportedSchema | NotACandidate | EventIdRequired | MethodRequired

  // ---- appendStableUnique ----

  /** The trimmed values in order of first occurrence, without the empty ones. */
  function StableUnique(values: seq<string>): seq<string> {
    if values == [] then []
    else
      var before, value := StableUnique(values[..|values| - 1]), TrimSpace(values[|values| - 1]);
      if value == "" || value in before then before else before + [value]
  }

  /** A list `StableUnique` has nothing to do on. */
  predicate IsStable(values: seq<string>) {
    && (forall v :: v in values ==> v != "" && TrimSpace(v) == v)
    && (forall i, j :: 0 <= i < j < |values| ==> values[i] != values[j])
  }

  function Flatten(groups: seq<seq<string>>): seq<string> {
    if groups == [] then [] else Flatten(groups[..|groups| - 1]) + groups[|groups| - 1]
  }

  /** `appendStableUnique`, with its two loops. */
  method AppendStableUnique(groups: seq<seq<string>>) returns (out: seq<string>)
    ensures out == StableUnique(Flatten(groups))
  {
    hide TrimSpace, StableUnique, Flatten;
    StableUniqueNothing();
    var seen: set<string> := {};
    out := [];
    for g := 0 to |groups|
      invariant out == StableUnique(Flatten(groups[..g])) && forall v :: v in seen <==> v in out
    {
      var group := groups[g];
      ghost var before := Flatten(groups[..g]);
      assert before + group[..0] == before;
      for i := 0 to |group|
        invariant out == StableUnique(before + group[..i]) && forall v :: v in seen <==> v in out
      {
        assert before + group[..i + 1] == before + group[..i] + [group[i]];
        StableUniqueSnoc(before + group[..i], group[i]);
        var value := TrimSpace(group[i]);
        if value == "" || value in seen {
          continue;
        }
        seen := seen + {value};
        out := out + [value];
      }
      assert group[..|group|] == group;
      FlattenSnoc(groups, g);
    }
    assert groups[..|groups|] == groups;
  }

  lemma StableUniqueNothing()
    ensures StableUnique([]) == [] && Flatten([]) == []
  {
  }

  lemma StableUniqueSnoc(values: seq<string>, last: string)
    ensures var before, value := StableUnique(values), TrimSpace(last);
            StableUnique(values + [last]) == if value == "" || value in before then before else before + [value]
  {
    assert (values + [last])[..|values|] == values;
  }

  lemma FlattenSnoc(groups: seq<seq<string>>, g: nat)
    requires g < |groups|
    ensures Flatten(groups[..g + 1]) == Flatten(groups[..g]) + groups[g]
  {
    assert groups[..g + 1][..g] == groups[..g];
  }

  lemma {:induction false} StableUniqueIsStable(values: seq<string>)
    ensures IsStable(StableUnique(values))
    ensures forall v :: v in StableUnique(values) <==> v != "" && exists k :: 0 <= k < |values| && TrimSpace(values[k]) == v
  {
    hide TrimSpace;
    if values != [] {
      var prefix, last := values[..|values| - 1], TrimSpace(values[|values| - 1]);
      StableUniqueIsStable(prefix);
      TrimSpaceTwice(values[|values| - 1]);
      forall v
        ensures v in StableUnique(values) <==> v != "" && exists k :: 0 <= k < |values| && TrimSpace(values[k]) == v
      {
        if v in StableUnique(prefix) {
          var k :| 0 <= k < |prefix| && TrimSpace(prefix[k]) == v;
          assert TrimSpace(values[k]) == v;
        } else if k :| 0 <= k < |values| && TrimSpace(values[k]) == v {
          assert k < |prefix| ==> TrimSpace(prefix[k]) == v;
        }
      }
    }
  }

  /** What comes first stays first: more values only add at the end. */
  lemma {:induction false} FirstOccurrencesStay(values: seq<string>, more: seq<string>)
    ensures StableUnique(values) <= StableUnique(values + more)
  {
    hide TrimSpace;
    if more == [] {
      assert values + more == values;
    } else {
      var all := values + more;
      assert all[..|all| - 1] == values + more[..|more| - 1];
      FirstOccurrencesStay(values, more[..|more| - 1]);
    }
  }

  /** Appending to a stable list keeps it as a prefix. */
  lemma {:induction false} StablePrefixStays(old_: seq<string>, more: seq<string>)
    requires IsStable(old_)
    ensures old_ <= StableUnique(old_ + more)
  {
    hide TrimSpace;
    if more == [] {
      StableIsFixed(old_);
      assert old_ + more == old_;
    } else {
      var all := old_ + more;
      assert all[..|all| - 1] == old_ + more[..|more| - 1];
      StablePrefixStays(old_, more[..|more| - 1]);
    }
  }

  lemma {:induction false} StableIsFixed(values: seq<string>)
    requires IsStable(values)
    ensures StableUnique(values) == values
  {
    hide TrimSpace;
    if values != [] {
      var prefix := values[..|values| - 1];
      assert forall v :: v in prefix ==> v in values;
      StableIsFixed(prefix);
      assert values[|values| - 1] in values && values == prefix + [values[|values| - 1]];
    }
  }

  /** Values already there change nothing. */
  lemma {:induction false} NothingNewChangesNothing(old_: seq<string>, more: seq<string>)
    requires IsStable(old_) && forall v :: v in more ==> TrimSpace(v) == "" || TrimSpace(v) in old_
    ensures StableUnique(old_ + more) == old_
  {
    hide TrimSpace;
    if more == [] {
      StableIsFixed(old_);
      assert old_ + more == old_;
    } else {
      var all := old_ + more;
      assert all[..|all| - 1] == old_ + more[..|more| - 1];
      assert more[|more| - 1] in more;
      NothingNewChangesNothing(old_, more[..|more| - 1]);
    }
  }

  // ---- Evidence ----

  function TrimEvidence(e: Evidence): Evidence {
    Evidence(TrimSpace(e.subjectLabel), TrimSpace(e.accountId), TrimSpace(e.deviceId), TrimSpace(e.relaySpaceId),
             TrimSpace(e.credentialFingerprint), TrimSpace(e.signerFingerprint), TrimSpace(e.keyPackageFingerprint),
             TrimSpace(e.keyPackageLineage), TrimSpace(e.firstObservedAt), TrimSpace(e.lastObservedAt),
             TrimSpace(e.candidateSource), TrimSpace(e.providerObservationEventId), TrimSpace(e.relayMembershipEventId),
             TrimSpace(e.mlsJoinEventId))
  }

  /** Every field is trimmed, each into its own place. */
  lemma TrimEvidenceFields(e: Evidence)
    ensures var t := TrimEvidence(e);
            && t.subjectLabel == TrimSpace(e.subjectLabel) && t.accountId == TrimSpace(e.accountId)
            && t.deviceId == TrimSpace(e.deviceId) && t.relaySpaceId == TrimSpace(e.relaySpaceId)
            && t.credentialFingerprint == TrimSpace(e.credentialFingerprint)
            && t.signerFingerprint == TrimSpace(e.signerFingerprint)
            && t.keyPackageFingerprint == TrimSpace(e.keyPackageFingerprint)
            && t.keyPackageLineage == TrimSpace(e.keyPackageLineage)
            && t.firstObservedAt == TrimSpace(e.firstObservedAt) && t.lastObservedAt == TrimSpace(e.lastObservedAt)
            && t.candidateSource == TrimSpace(e.candidateSource)
            && t.providerObservationEventId == TrimSpace(e.providerObservationEventId)
            && t.relayMembershipEventId == TrimSpace(e.relayMembershipEventId) && t.mlsJoinEventId == TrimSpace(e.mlsJoinEventId)
            && TrimEvidence(t) == t
  {
    hide TrimSpace;
    TrimSpaceTwice(e.subjectLabel);
    TrimSpaceTwice(e.accountId);
    TrimSpaceTwice(e.deviceId);
    TrimSpaceTwice(e.relaySpaceId);
    TrimSpaceTwice(e.credentialFingerprint);
    TrimSpaceTwice(e.signerFingerprint);
    TrimSpaceTwice(e.keyPackageFingerprint);
    TrimSpaceTwice(e.keyPackageLineage);
    TrimSpaceTwice(e.firstObservedAt);
    TrimSpaceTwice(e.lastObservedAt);
    TrimSpaceTwice(e.candidateSource);
    TrimSpaceTwice(e.providerObservationEventId);
    TrimSpaceTwice(e.relayMembershipEventId);
    TrimSpaceTwice(e.mlsJoinEventId);
  }

  predicate Required(e: Evidence) {
    && e.subjectLabel != "" && e.accountId != "" && e.deviceId != "" && e.relaySpaceId != ""
    && e.credentialFingerprint != "" && e.signerFingerprint != "" && e.keyPackageFingerprint != ""
    && e.keyPackageLineage != "" && e.firstObservedAt != "" && e.lastObservedAt != "" && e.candidateSource != ""
  }

  /** What the fingerprint of a binding hashes. */
  function HashedText(e: Evidence): string {
    Join([e.subjectLabel, e.accountId, e.deviceId, e.relaySpaceId, e.credentialFingerprint, e.signerFingerprint,
          e.keyPackageFingerprint, e.keyPackageLineage, e.candidateSource], "\0")
  }

  function FingerprintOf(e: Evidence, digest: string -> string): string {
    "sha256:" + digest(HashedText(e))
  }

  /** Two pieces of evidence hash the same text exactly when they agree in everything but the times they
      were observed at and the event ids, as long as no field contains the separator. */
  lemma HashedTextSeparates(a: Evidence, b: Evidence)
    requires forall part | part in [a.subjectLabel, a.accountId, a.deviceId, a.relaySpaceId, a.credentialFingerprint,
                                    a.signerFingerprint, a.keyPackageFingerprint, a.keyPackageLineage, a.candidateSource,
                                    b.subjectLabel, b.accountId, b.deviceId, b.relaySpaceId, b.credentialFingerprint,
                                    b.signerFingerprint, b.keyPackageFingerprint, b.keyPackageLineage, b.candidateSource] ::
               '\0' !in part
    ensures HashedText(a) == HashedText(b)
            <==> b == a.(firstObservedAt := b.firstObservedAt, lastObservedAt := b.lastObservedAt,
                         providerObservationEventId := b.providerObservationEventId,
                         relayMembershipEventId := b.relayMembershipEventId, mlsJoinEventId := b.mlsJoinEventId)
  {
    hide Join;
    var fa := [a.subjectLabel, a.accountId, a.deviceId, a.relaySpaceId, a.credentialFingerprint, a.signerFingerprint,
               a.keyPackageFingerprint, a.keyPackageLineage, a.candidateSource];
    var fb := [b.subjectLabel, b.accountId, b.deviceId, b.relaySpaceId, b.credentialFingerprint, b.signerFingerprint,
               b.keyPackageFingerprint, b.keyPackageLineage, b.candidateSource];
    if HashedText(a) == HashedText(b) {
      JoinSeparates(fa, fb, '\0');
      assert fa[0] == fb[0] && fa[1] == fb[1] && fa[2] == fb[2] && fa[3] == fb[3] && fa[4] == fb[4] && fa[5] == fb[5]
             && fa[6] == fb[6] && fa[7] == fb[7] && fa[8] == fb[8];
    }
  }

  const CANDIDATE_ONLY := "candidate evidence only"
  const MEMBERSHIP_IS_NO_TRUST := "relay membership is not trust"
  const JOIN_IS_NO_TRUST := "MLS join is not trust"
  const OBSERVATION_IS_NO_TRUST := "provider observation is not trust"
  const PUBLICATION_IS_NO_TRUST := "KeyPackage publication is not trust"
  const CANDIDATE_WARNINGS := [
    CANDIDATE_ONLY, MEMBERSHIP_IS_NO_TRUST, JOIN_IS_NO_TRUST, OBSERVATION_IS_NO_TRUST, PUBLICATION_IS_NO_TRUST]
  const PROMOTION_WARNINGS := [
    "promoted local trust is local/manual trust only", "not verified identity", "not secure enrollment"]
  const LOUD := "changed signer/device/key lineage is loud"
  const SIGNER_CHANGED := "changed OpenMLS signer fingerprint"
  const DEVICE_CHANGED := "changed Cypher device ID"
  const KEY_CHANGED := "changed key lineage or OpenMLS credential"
  const ACCOUNT_CHANGED := "changed Cypher account ID"
  const RELAY_SPACE_CHANGED := "Relay Space change is routing " + "context change, " + "not trust promotion"

  function SignerWarnings(): seq<string> {
    [LOUD, SIGNER_CHANGED]
  }

  function DeviceWarnings(): seq<string> {
    [LOUD, DEVICE_CHANGED]
  }

  function KeyWarnings(): seq<string> {
    [LOUD, KEY_CHANGED]
  }

  function AccountWarnings(): seq<string> {
    [ACCOUNT_CHANGED]
  }

  function RelaySpaceWarnings(): seq<string> {
    [RELAY_SPACE_CHANGED]
  }

  lemma CandidateWarningsAreStable()
    ensures IsStable(CANDIDATE_WARNINGS)
  {
    WarningIsTrimmed(CANDIDATE_ONLY, 23, 'c', 'y');
    WarningIsTrimmed(MEMBERSHIP_IS_NO_TRUST, 29, 'r', 't');
    WarningIsTrimmed(JOIN_IS_NO_TRUST, 21, 'M', 't');
    WarningIsTrimmed(OBSERVATION_IS_NO_TRUST, 33, 'p', 't');
    WarningIsTrimmed(PUBLICATION_IS_NO_TRUST, 35, 'K', 't');
    hide *;
  }

  lemma WarningIsTrimmed(s: string, n: nat, first: char, last: char)
    requires |s| == n > 0 && s[0] == first && s[n - 1] == last && !IsSpace(first) && !IsSpace(last)
    ensures TrimSpace(s) == s
  {
    TrimmedWord(s);
  }

  // ---- The operations ----

  /** `NewLocalTrustBindingCandidateV1` */
  method NewCandidate(e: Evidence, digest: string -> string) returns (o: Outcome<Binding, BindingError>)
    ensures !o.Crashed?
    ensures o.Done?
            <==> && TrimSpace(e.subjectLabel) != "" && TrimSpace(e.accountId) != "" && TrimSpace(e.deviceId) != ""
                 && TrimSpace(e.relaySpaceId) != "" && TrimSpace(e.credentialFingerprint) != ""
                 && TrimSpace(e.signerFingerprint) != "" && TrimSpace(e.keyPackageFingerprint) != ""
                 && TrimSpace(e.keyPackageLineage) != "" && TrimSpace(e.firstObservedAt) != ""
                 && TrimSpace(e.lastObservedAt) != "" && TrimSpace(e.candidateSource) != ""
    ensures o.Done? ==>
              && o.value.promotionEventId == "" && o.value.verificationMethod == "" && o.value.demotionOrRevocationId == ""
    ensures o.Done? ==>
              && o.value.state == CandidateObserved && o.value.schemaVersion == SCHEMA
              && o.value.evidence == TrimEvidence(e) && o.value.fingerprint == "sha256:" + digest(HashedText(TrimEvidence(e)))
              && o.value.warnings == CANDIDATE_WARNINGS && IsStable(o.value.warnings)
  {
    hide TrimSpace, HashedText;
    TrimEvidenceFields(e);
    CandidateWarningsAreStable();
    var normalized := TrimEvidence(e);
    if !Required(normalized) {
      return Refused(EvidenceMissing);
    }
    return Done(Binding(SCHEMA, CandidateObserved, normalized, FingerprintOf(normalized, digest), "", "", "", CANDIDATE_WARNINGS));
  }

  /** `PromoteLocalTrustBindingV1` */
  method Promote(b: Binding, eventId: string, verificationMethod: string) returns (o: Outcome<Binding, BindingError>)
    ensures !o.Crashed?
    ensures o.Done? <==>
              && b.schemaVersion == SCHEMA && b.state == CandidateObserved
              && TrimSpace(eventId) != "" && TrimSpace(verificationMethod) != ""
    ensures o.Done? ==> o.value == b.(state := PromotedLocalTrust, promotionEventId := TrimSpace(eventId),
                                      verificationMethod := TrimSpace(verificationMethod),
                                      warnings := StableUnique(b.warnings + PROMOTION_WARNINGS))
  {
    hide TrimSpace, StableUnique;
    if b.schemaVersion != SCHEMA {
      return Refused(UnsupportedSchema);
    }
    if b.state != CandidateObserved {
      return Refused(NotACandidate);
    }
    if TrimSpace(eventId) == "" {
      return Refused(EventIdRequired);
    }
    if TrimSpace(verificationMethod) == "" {
      return Refused(MethodRequired);
    }
    FlattenTwo(b.warnings, PROMOTION_WARNINGS);
    var warnings := AppendStableUnique([b.warnings, PROMOTION_WARNINGS]);
    return Done(b.(state := PromotedLocalTrust, promotionEventId := TrimSpace(eventId),
                   verificationMethod := TrimSpace(verificationMethod), warnings := warnings));
  }

  lemma FlattenTwo(a: seq<string>, b: seq<string>)
    ensures Flatten([a, b]) == a + b
  {
    assert [a, b][..1] == [a] && [a][..0] == [];
    assert Flatten([a]) == [] + a;
  }

  lemma FlattenOne(a: seq<string>)
    ensures Flatten([a]) == a
  {
    assert [a][..0] == [] && Flatten([a]) == [] + a;
  }

  /** `changed` */
  predicate Changed(next: string, current: string) {
    TrimSpace(next) != "" && TrimSpace(current) != "" && TrimSpace(next) != TrimSpace(current)
  }

  /** Which parts of a binding's evidence a change contradicts. */
  datatype Differences = Differences(signer: bool, device: bool, key: bool, account: bool, relaySpace: bool) {

    predicate Any() {
      signer || device || key || account
    }

    /** How many different warning states the differences ask for; device and account ask for the same. */
    function Targets(): nat {
      (if signer then 1 else 0) + (if device || account then 1 else 0) + if key then 1 else 0
    }
  }

  function DifferencesOf(e: Evidence, c: Change): Differences {
    Differences(Changed(c.signerFingerprint, e.signerFingerprint), Changed(c.deviceId, e.deviceId),
                Changed(c.keyPackageFingerprint, e.keyPackageFingerprint) || Changed(c.keyPackageLineage, e.keyPackageLineage)
                || Changed(c.credentialFingerprint, e.credentialFingerprint),
                Changed(c.accountId, e.accountId), Changed(c.relaySpaceId, e.relaySpaceId))
  }

  /** The state after a change: signer first, and a later part only where the state is still the old one. */
  function StateAfter(state: State, d: Differences): State {
    var s1 := if d.signer then ChangedSigner else state;
    var s2 := if d.device && s1 == state then ChangedDevice else s1;
    var s3 := if d.key && s2 == state then ChangedKeyLineage else s2;
    if d.account && s3 == state then ChangedDevice else s3
  }

  function WarningsFor(d: Differences): seq<string> {
    (if d.signer then SignerWarnings() else []) + (if d.device then DeviceWarnings() else [])
    + (if d.key then KeyWarnings() else []) + (if d.account then AccountWarnings() else [])
    + if d.relaySpace then RelaySpaceWarnings() else []
  }

  function Extended(warnings: seq<string>, differs: bool, more: seq<string>): seq<string> {
    if differs then warnings + more else warnings
  }

  lemma WarningsInOrder(old_: seq<string>, d: Differences)
    ensures old_ + WarningsFor(d)
            == Extended(Extended(Extended(Extended(Extended(old_, d.signer, SignerWarnings()), d.device, DeviceWarnings()),
                                          d.key, KeyWarnings()), d.account, AccountWarnings()), d.relaySpace, RelaySpaceWarnings())
  {
    hide SignerWarnings, DeviceWarnings, KeyWarnings, AccountWarnings, RelaySpaceWarnings, Extended;
    var a, b := if d.signer then SignerWarnings() else [], if d.device then DeviceWarnings() else [];
    var c, e := if d.key then KeyWarnings() else [], if d.account then AccountWarnings() else [];
    var f := if d.relaySpace then RelaySpaceWarnings() else [];
    ExtendedIs(old_, d.signer, SignerWarnings());
    ExtendedIs(old_ + a, d.device, DeviceWarnings());
    ExtendedIs(old_ + a + b, d.key, KeyWarnings());
    ExtendedIs(old_ + a + b + c, d.account, AccountWarnings());
    ExtendedIs(old_ + a + b + c + e, d.relaySpace, RelaySpaceWarnings());
    Associates(old_, a, b, c, e, f);
  }

  lemma Associates(s: seq<string>, a: seq<string>, b: seq<string>, c: seq<string>, d: seq<string>, e: seq<string>)
    ensures s + (a + b + c + d + e) == s + a + b + c + d + e
  {
  }

  lemma ExtendedIs(warnings: seq<string>, differs: bool, more: seq<string>)
    ensures Extended(warnings, differs, more) == warnings + if differs then more else []
  {
  }

  /** `ApplyLocalTrustBindingChangeV1` */
  method ApplyChange(b: Binding, c: Change) returns (out: Binding)
    ensures var d := DifferencesOf(b.evidence, c);
            out == b.(state := StateAfter(b.state, d), warnings := StableUnique(b.warnings + WarningsFor(d)))
  {
    hide Changed, StableUnique, WarningsFor, Flatten, SignerWarnings, DeviceWarnings, KeyWarnings, AccountWarnings, RelaySpaceWarnings;
    var state, warnings, e := b.state, b.warnings, b.evidence;
    if Changed(c.signerFingerprint, e.signerFingerprint) {
      state := ChangedSigner;
      warnings := warnings + SignerWarnings();
    }
    if Changed(c.deviceId, e.deviceId) {
      if state == b.state {
        state := ChangedDevice;
      }
      warnings := warnings + DeviceWarnings();
    }
    if Changed(c.keyPackageFingerprint, e.keyPackageFingerprint) || Changed(c.keyPackageLineage, e.keyPackageLineage)
      || Changed(c.credentialFingerprint, e.credentialFingerprint)
    {
      if state == b.state {
        state := ChangedKeyLineage;
      }
      warnings := warnings + KeyWarnings();
    }
    if Changed(c.accountId, e.accountId) {
      if state == b.state {
        state := ChangedDevice;
      }
      warnings := warnings + AccountWarnings();
    }
    if Changed(c.relaySpaceId, e.relaySpaceId) {
      warnings := warnings + RelaySpaceWarnings();
    }
    WarningsInOrder(b.warnings, DifferencesOf(e, c));
    FlattenOne(warnings);
    warnings := AppendStableUnique([warnings]);
    out := b.(state := state, warnings := warnings);
  }

  /** `DemoteLocalTrustBindingV1` */
  method Demote(b: Binding, eventId: string) returns (o: Outcome<Binding, BindingError>)
    ensures !o.Crashed?
    ensures o.Done? <==> TrimSpace(eventId) != ""
    ensures o.Done? ==> o.value == b.(state := Demoted, demotionOrRevocationId := TrimSpace(eventId),
                                      warnings := StableUnique(b.warnings + ["local trust binding demoted"]))
  {
    hide TrimSpace, StableUnique;
    if TrimSpace(eventId) == "" {
      return Refused(EventIdRequired);
    }
    FlattenTwo(b.warnings, ["local trust binding demoted"]);
    var warnings := AppendStableUnique([b.warnings, ["local trust binding demoted"]]);
    return Done(b.(state := Demoted, demotionOrRevocationId := TrimSpace(eventId), warnings := warnings));
  }

  /** `RevokeLocalTrustBindingV1` */
  method Revoke(b: Binding, eventId: string) returns (o: Outcome<Binding, BindingError>)
    ensures !o.Crashed?
    ensures o.Done? <==> TrimSpace(eventId) != ""
    ensures o.Done? ==> o.value == b.(state := Revoked, demotionOrRevocationId := TrimSpace(eventId),
                                      warnings := StableUnique(b.warnings + ["local trust binding revoked"]))
  {
    hide TrimSpace, StableUnique;
    if TrimSpace(eventId) == "" {
      return Refused(EventIdRequired);
    }
    FlattenTwo(b.warnings, ["local trust binding revoked"]);
    var warnings := AppendStableUnique([b.warnings, ["local trust binding revoked"]]);
    return Done(b.(state := Revoked, demotionOrRevocationId := TrimSpace(eventId), warnings := warnings));
  }

  // ---- Chains of operations ----

  /** Differences in signer, device, key or account always leave a changed state; a different relay space
      alone never changes the state. */
  lemma ChangesAreLoud(state: State, d: Differences)
    ensures d.Any() ==> StateAfter(state, d).IsChanged()
    ensures !d.Any() ==> StateAfter(state, d) == state
  {
  }

  /** The first of these states that is not the current one, or that. */
  function FirstOther(asked: seq<State>, state: State): State {
    if asked == [] then state else if asked[0] != state then asked[0] else FirstOther(asked[1..], state)
  }

  /** Which state a change leads to: of the warning states asked for, in the order signer, device, key,
      account, the first that the binding is not in already. */
  lemma ChangedStateIsFirstOther(state: State, d: Differences)
    ensures StateAfter(state, d)
            == FirstOther((if d.signer then [ChangedSigner] else []) + (if d.device then [ChangedDevice] else [])
                          + (if d.key then [ChangedKeyLineage] else []) + if d.account then [ChangedDevice] else [], state)
  {
    var s1: seq<State> := if d.signer then [ChangedSigner] else [];
    var s2: seq<State> := if d.device then [ChangedDevice] else [];
    var s3: seq<State> := if d.key then [ChangedKeyLineage] else [];
    var s4: seq<State> := if d.account then [ChangedDevice] else [];
    assert s1 + s2 + s3 + s4 == s1 + (s2 + (s3 + s4));
    FirstOtherOfTwo(s1, s2 + (s3 + s4), state);
    FirstOtherOfTwo(s2, s3 + s4, state);
    FirstOtherOfTwo(s3, s4, state);
  }

  lemma FirstOtherOfTwo(a: seq<State>, b: seq<State>, state: State)
    requires |a| <= 1
    ensures FirstOther(a + b, state) == if a != [] && a[0] != state then a[0] else FirstOther(b, state)
  {
    if a == [] {
      assert a + b == b;
    } else {
      assert (a + b)[1..] == b;
    }
  }

  /** A change contradicts a field exactly when both name something and not the same. */
  lemma DifferencesExactly(e: Evidence, c: Change)
    ensures var d := DifferencesOf(e, c);
            && (d.signer
                <==> TrimSpace(c.signerFingerprint) !in {"", TrimSpace(e.signerFingerprint)} && TrimSpace(e.signerFingerprint) != "")
            && (d.device <==> TrimSpace(c.deviceId) !in {"", TrimSpace(e.deviceId)} && TrimSpace(e.deviceId) != "")
            && (d.account <==> TrimSpace(c.accountId) !in {"", TrimSpace(e.accountId)} && TrimSpace(e.accountId) != "")
            && (d.relaySpace <==> TrimSpace(c.relaySpaceId) !in {"", TrimSpace(e.relaySpaceId)} && TrimSpace(e.relaySpaceId) != "")
            && (d.key
                <==> || (TrimSpace(c.keyPackageFingerprint) !in {"", TrimSpace(e.keyPackageFingerprint)}
                         && TrimSpace(e.keyPackageFingerprint) != "")
                     || (TrimSpace(c.keyPackageLineage) !in {"", TrimSpace(e.keyPackageLineage)} && TrimSpace(e.keyPackageLineage) != "")
                     || (TrimSpace(c.credentialFingerprint) !in {"", TrimSpace(e.credentialFingerprint)}
                         && TrimSpace(e.credentialFingerprint) != ""))
  {
    hide TrimSpace;
  }

  lemma WarningsOf(d: Differences, v: string)
    ensures v in WarningsFor(d)
            <==> || (v == LOUD && (d.signer || d.device || d.key))
                 || (v == SIGNER_CHANGED && d.signer) || (v == DEVICE_CHANGED && d.device) || (v == KEY_CHANGED && d.key)
                 || (v == ACCOUNT_CHANGED && d.account) || (v == RELAY_SPACE_CHANGED && d.relaySpace)
  {
    var a: seq<string> := if d.signer then SignerWarnings() else [];
    var b: seq<string> := if d.device then DeviceWarnings() else [];
    var c: seq<string> := if d.key then KeyWarnings() else [];
    var e: seq<string> := if d.account then AccountWarnings() else [];
    var f: seq<string> := if d.relaySpace then RelaySpaceWarnings() else [];
    assert WarningsFor(d) == a + b + c + e + f;
    assert v in a + b + c + e + f <==> v in a || v in b || v in c || v in e || v in f;
  }

  /** Which warnings a change adds to those there were: exactly those of its differences. */
  lemma WarnedExactly(warnings: seq<string>, d: Differences, v: string)
    ensures v in StableUnique(warnings + WarningsFor(d))
            <==> || v in StableUnique(warnings)
                 || (v == LOUD && (d.signer || d.device || d.key))
                 || (v == SIGNER_CHANGED && d.signer) || (v == DEVICE_CHANGED && d.device) || (v == KEY_CHANGED && d.key)
                 || (v == ACCOUNT_CHANGED && d.account) || (v == RELAY_SPACE_CHANGED && d.relaySpace)
  {
    hide TrimSpace, StableUnique, WarningsFor;
    WarningsOf(d, v);
    WarningWordsAreTrimmed(d);
    MembersOfTwo(warnings, WarningsFor(d), v);
  }

  lemma MembersOfTwo(a: seq<string>, b: seq<string>, v: string)
    requires forall w :: w in b ==> TrimSpace(w) == w && w != ""
    ensures v in StableUnique(a + b) <==> v in StableUnique(a) || v in b
  {
    hide TrimSpace, StableUnique;
    StableUniqueIsStable(a);
    StableUniqueIsStable(a + b);
    if v in StableUnique(a) {
      var k :| 0 <= k < |a| && TrimSpace(a[k]) == v;
      assert TrimSpace((a + b)[k]) == v;
    }
    if v in b {
      var k :| 0 <= k < |b| && b[k] == v;
      assert TrimSpace((a + b)[|a| + k]) == v;
    }
    if v in StableUnique(a + b) {
      var k :| 0 <= k < |a + b| && TrimSpace((a + b)[k]) == v;
      if k < |a| {
        assert TrimSpace(a[k]) == v;
      } else {
        assert (a + b)[k] == b[k - |a|] && b[k - |a|] in b;
      }
    }
  }

  lemma WarningWordsAreTrimmed(d: Differences)
    ensures forall v :: v in WarningsFor(d) ==> TrimSpace(v) == v && v != ""
  {
    hide TrimSpace, WarningsFor;
    WordsAreTrimmed();
    forall v | v in WarningsFor(d)
      ensures TrimSpace(v) == v && v != ""
    {
      WarningsOf(d, v);
    }
  }

  lemma WordsAreTrimmed()
    ensures TrimSpace(LOUD) == LOUD != "" && TrimSpace(SIGNER_CHANGED) == SIGNER_CHANGED != ""
    ensures TrimSpace(DEVICE_CHANGED) == DEVICE_CHANGED != "" && TrimSpace(KEY_CHANGED) == KEY_CHANGED != ""
    ensures TrimSpace(ACCOUNT_CHANGED) == ACCOUNT_CHANGED != "" && TrimSpace(RELAY_SPACE_CHANGED) == RELAY_SPACE_CHANGED != ""
  {
    WarningIsTrimmed(LOUD, 41, 'c', 'd');
    WarningIsTrimmed(SIGNER_CHANGED, 34, 'c', 't');
    WarningIsTrimmed(DEVICE_CHANGED, 24, 'c', 'D');
    WarningIsTrimmed(KEY_CHANGED, 41, 'c', 'l');
    WarningIsTrimmed(ACCOUNT_CHANGED, 25, 'c', 'D');
    WarningIsTrimmed(RELAY_SPACE_CHANGED, 65, 'R', 'n');
  }

  /** Applying the same change again leaves the state alone exactly when its differences ask for at most
      one warning state; otherwise it flips between two. */
  lemma ChangeSettlesExactly(state: State, d: Differences)
    ensures StateAfter(StateAfter(state, d), d) == StateAfter(state, d) <==> d.Targets() <= 1
    ensures StateAfter(StateAfter(StateAfter(state, d), d), d) == StateAfter(state, d)
  {
  }

  /** The warnings, unlike the state, always settle after one application. */
  lemma WarningsSettle(warnings: seq<string>, d: Differences)
    ensures var once := StableUnique(warnings + WarningsFor(d)); StableUnique(once + WarningsFor(d)) == once
  {
    hide TrimSpace, WarningsFor;
    var all := warnings + WarningsFor(d);
    var once := StableUnique(all);
    StableUniqueIsStable(all);
    forall v | v in WarningsFor(d)
      ensures TrimSpace(v) == "" || TrimSpace(v) in once
    {
      var k :| 0 <= k < |WarningsFor(d)| && WarningsFor(d)[k] == v;
      assert all[|warnings| + k] == v;
    }
    NothingNewChangesNothing(once, WarningsFor(d));
  }

  datatype Op =
    | PromoteOp(eventId: string, verificationMethod: string)
    | ChangeOp(change: Change)
    | DemoteOp(eventId: string)
    | RevokeOp(eventId: string)

  /** Any chain of operations: evidence and fingerprint never change, the warnings stay free of
      duplicates with the old ones as a prefix, and at most one promotion succeeds, none at all once the
      binding has been anything but a candidate. */
  method RunChain(start: Binding, ops: seq<Op>) returns (b: Binding, promotions: nat)
    requires IsStable(start.warnings)
    ensures b.evidence == start.evidence && b.fingerprint == start.fingerprint && b.schemaVersion == start.schemaVersion
    ensures IsStable(b.warnings) && start.warnings <= b.warnings
    ensures promotions <= 1 && (start.state != CandidateObserved ==> promotions == 0)
    ensures b.state == CandidateObserved ==> start.state == CandidateObserved && promotions == 0
  {
    hide TrimSpace, StableUnique, IsStable, DifferencesOf, WarningsFor;
    b, promotions := start, 0;
    for k := 0 to |ops|
      invariant b.evidence == start.evidence && b.fingerprint == start.fingerprint && b.schemaVersion == start.schemaVersion
      invariant IsStable(b.warnings) && start.warnings <= b.warnings
      invariant promotions <= 1 && (start.state != CandidateObserved ==> promotions == 0)
      invariant b.state == CandidateObserved ==> start.state == CandidateObserved && promotions == 0
    {
      match ops[k] {
        case PromoteOp(eventId, verificationMethod) =>
          AppendingIsStable(b.warnings, PROMOTION_WARNINGS);
          var promoted := Promote(b, eventId, verificationMethod);
          if promoted.Done? {
            b, promotions := promoted.value, promotions + 1;
          }
        case ChangeOp(change) =>
          ChangesAreLoud(b.state, DifferencesOf(b.evidence, change));
          AppendingIsStable(b.warnings, WarningsFor(DifferencesOf(b.evidence, change)));
          b := ApplyChange(b, change);
        case DemoteOp(eventId) =>
          AppendingIsStable(b.warnings, ["local trust binding demoted"]);
          var demoted := Demote(b, eventId);
          if demoted.Done? {
            b := demoted.value;
          }
        case RevokeOp(eventId) =>
          AppendingIsStable(b.warnings, ["local trust binding revoked"]);
          var revoked := Revoke(b, eventId);
          if revoked.Done? {
            b := revoked.value;
          }
      }
    }
  }

  lemma AppendingIsStable(old_: seq<string>, more: seq<string>)
    requires IsStable(old_)
    ensures IsStable(StableUnique(old_ + more)) && old_ <= StableUnique(old_ + more)
  {
    StableUniqueIsStable(old_ + more);
    StablePrefixStays(old_, more);
  }
}
