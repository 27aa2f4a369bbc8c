/** Candidate identities: what is stored, which review steps are allowed, and how an observation is
    classified and drafted for the history (identity_candidates.go, identity_candidate_review.go,
    identity_mismatch.go, identity_candidate_events.go). */
module IdentityCandidates {
  import opened Outcomes
  import opened Text
  import opened TrustEvents

  const OBSERVED := "observed"
  const PENDING_REVIEW := "pending_review"
  const UNVERIFIED := "unverified"
  const CONFLICTS_KNOWN_DEVICE := "conflicts_known_device"
  const REJECTED := "rejected"

  datatype Candidate = Candidate(
    candidateId: string, accountId: string, claimedDeviceId: string, sidecarDeviceLabel: string,
    providerIdentityLabel: string, publicIdentityMaterial: string, fingerprint: string, candidateState: string,
    conflictStatus: string, observedAt: string, source: string, sourceDetail: string, providerEventName: string,
    conversationLabel: string, envelopeId: string, keyPackageRef: string, welcomeRef: string, note: string)

  /** The first eight bytes of a SHA-256 digest, in hexadecimal. */
  type ShortDigest = s: string | |s| == 16 && forall c <- s :: '0' <= c <= '9' || 'a' <= c <= 'f'
    witness seq(16, _ => '0')

  predicate IsAllowedState(state: string) {
    state in [OBSERVED, PENDING_REVIEW, UNVERIFIED, CONFLICTS_KNOWN_DEVICE, REJECTED]
  }

  /** `IdentityCandidateDedupeKey` */
  function DedupeKey(c: Candidate): string {
    var fingerprint, source, device := TrimSpace(c.fingerprint), TrimSpace(c.source), TrimSpace(c.claimedDeviceId);
    if device == "" then fingerprint + "|" + source else device + "|" + fingerprint + "|" + source
  }

  lemma BarAt(a: string, b: string, c: string, d: string)
    requires a + "|" + b == c + "|" + d && '|' !in a && '|' !in c
    ensures a == c && b == d
  {
    if |a| < |c| {
      LongerHeadHas(c, d, a, b, '|');
    } else if |c| < |a| {
      LongerHeadHas(a, b, c, d, '|');
    }
    var x, y := a + "|" + b, c + "|" + d;
    assert x[..|a|] == a && y[..|c|] == c && x[|a| + 1..] == b && y[|c| + 1..] == d;
  }

  lemma HasBar(a: string, b: string)
    ensures '|' in a + "|" + b
  {
    assert (a + "|" + b)[|a|] == '|';
  }

  /** Candidates share a key exactly when claimed device, fingerprint and source are the same up to white
      space around them, as long as none of these contains the separator. */
  lemma SharedKeyExactly(a: Candidate, b: Candidate)
    requires forall field | field in [a.claimedDeviceId, a.fingerprint, a.source, b.claimedDeviceId, b.fingerprint, b.source] ::
               '|' !in TrimSpace(field)
    ensures DedupeKey(a) == DedupeKey(b)
            <==> && TrimSpace(a.claimedDeviceId) == TrimSpace(b.claimedDeviceId)
                 && TrimSpace(a.fingerprint) == TrimSpace(b.fingerprint) && TrimSpace(a.source) == TrimSpace(b.source)
  {
    hide TrimSpace;
    var da, fa, sa := TrimSpace(a.claimedDeviceId), TrimSpace(a.fingerprint), TrimSpace(a.source);
    var db, fb, sb := TrimSpace(b.claimedDeviceId), TrimSpace(b.fingerprint), TrimSpace(b.source);
    assert forall field | field in [a.claimedDeviceId, a.fingerprint, a.source, b.claimedDeviceId, b.fingerprint, b.source] ::
      '|' !in TrimSpace(field);
    assert '|' !in da && '|' !in fa && '|' !in sa && '|' !in db && '|' !in fb && '|' !in sb by {
      var fields := [a.claimedDeviceId, a.fingerprint, a.source, b.claimedDeviceId, b.fingerprint, b.source];
      assert fields[0] in fields && fields[1] in fields && fields[2] in fields && fields[3] in fields && fields[4] in fields
             && fields[5] in fields;
    }
    if DedupeKey(a) == DedupeKey(b) {
      var restA := if da == "" then sa else fa + "|" + sa;
      var restB := if db == "" then sb else fb + "|" + sb;
      var headA := if da == "" then fa else da;
      var headB := if db == "" then fb else db;
      assert DedupeKey(a) == headA + "|" + restA && DedupeKey(b) == headB + "|" + restB;
      BarAt(headA, restA, headB, restB);
      if da != "" && db != "" {
        BarAt(fa, sa, fb, sb);
      } else if da != "" {
        HasBar(fa, sa);
      } else if db != "" {
        HasBar(fb, sb);
      }
    }
  }

  /** With the separator in a fingerprint, candidates that claim different devices share a key. */
  lemma SeparatorsConfuseKeys(a: Candidate, b: Candidate)
    requires TrimSpace(a.claimedDeviceId) == "" && TrimSpace(b.claimedDeviceId) != ""
    requires TrimSpace(a.fingerprint) == TrimSpace(b.claimedDeviceId) + "|" + TrimSpace(b.fingerprint)
    requires TrimSpace(a.source) == TrimSpace(b.source)
    ensures DedupeKey(a) == DedupeKey(b)
  {
    hide TrimSpace;
  }

  /** `NormalizeIdentityCandidate` */
  function Normalize(c: Candidate, digest: string -> ShortDigest, now: Timestamp): Outcome<Candidate, TrustError> {
    var t := c.(fingerprint := TrimSpace(c.fingerprint), source := TrimSpace(c.source),
                claimedDeviceId := TrimSpace(c.claimedDeviceId),
                candidateState := OrElse(TrimSpace(c.candidateState), OBSERVED),
                candidateId := TrimSpace(c.candidateId), observedAt := OrElse(TrimSpace(c.observedAt), now));
    if t.fingerprint == "" || t.source == "" || !IsAllowedState(t.candidateState) then Refused(InvalidCandidate)
    else Done(t.(candidateId := OrElse(t.candidateId, "candidate-" + digest(DedupeKey(t)))))
  }

  /** What is stored of every candidate: trimmed fields, filled in, in an allowed state. */
  predicate IsNormal(c: Candidate) {
    && c.fingerprint != "" && TrimSpace(c.fingerprint) == c.fingerprint
    && c.source != "" && TrimSpace(c.source) == c.source
    && TrimSpace(c.claimedDeviceId) == c.claimedDeviceId
    && IsAllowedState(c.candidateState)
    && c.candidateId != "" && TrimSpace(c.candidateId) == c.candidateId
    && c.observedAt != ""
  }

  lemma StatesDiffer()
    ensures OBSERVED != PENDING_REVIEW && OBSERVED != UNVERIFIED && OBSERVED != CONFLICTS_KNOWN_DEVICE && OBSERVED != REJECTED
    ensures PENDING_REVIEW != UNVERIFIED && PENDING_REVIEW != CONFLICTS_KNOWN_DEVICE && PENDING_REVIEW != REJECTED
    ensures UNVERIFIED != CONFLICTS_KNOWN_DEVICE && UNVERIFIED != REJECTED && CONFLICTS_KNOWN_DEVICE != REJECTED
  {
    assert OBSERVED[0] == 'o' && PENDING_REVIEW[0] == 'p' && UNVERIFIED[0] == 'u' && CONFLICTS_KNOWN_DEVICE[0] == 'c'
           && REJECTED[0] == 'r';
  }

  lemma AllowedStateIsTrimmed(state: string)
    requires IsAllowedState(state)
    ensures TrimSpace(state) == state && state != ""
  {
    assert OBSERVED[|OBSERVED| - 1] == 'd' && PENDING_REVIEW[|PENDING_REVIEW| - 1] == 'w' && UNVERIFIED[|UNVERIFIED| - 1] == 'd'
           && CONFLICTS_KNOWN_DEVICE[|CONFLICTS_KNOWN_DEVICE| - 1] == 'e' && REJECTED[|REJECTED| - 1] == 'd';
    TrimmedWord(state);
  }

  /** Normalizing keeps the key a candidate is deduplicated by, and its result is normal. */
  lemma NormalizeResult(c: Candidate, digest: string -> ShortDigest, now: Timestamp)
    requires Normalize(c, digest, now).Done?
    ensures var n := Normalize(c, digest, now).value; IsNormal(n) && DedupeKey(n) == DedupeKey(c)
  {
    hide TrimSpace, IsAllowedState;
    TrimSpaceTwice(c.fingerprint);
    TrimSpaceTwice(c.source);
    TrimSpaceTwice(c.claimedDeviceId);
    TrimSpaceTwice(c.candidateId);
    var t := c.(fingerprint := TrimSpace(c.fingerprint), source := TrimSpace(c.source),
                claimedDeviceId := TrimSpace(c.claimedDeviceId),
                candidateState := OrElse(TrimSpace(c.candidateState), OBSERVED),
                candidateId := TrimSpace(c.candidateId), observedAt := OrElse(TrimSpace(c.observedAt), now));
    var id := "candidate-" + digest(DedupeKey(t));
    assert id[|id| - 1] in digest(DedupeKey(t));
    TrimmedWord(id);
  }

  /** What normalizing does to each field, and exactly what it refuses. */
  lemma NormalizeFields(c: Candidate, digest: string -> ShortDigest, now: Timestamp)
    ensures Normalize(c, digest, now).Done?
            <==> && TrimSpace(c.fingerprint) != "" && TrimSpace(c.source) != ""
                 && TrimSpace(c.candidateState) in {"", "observed", "pending_review", "unverified", "conflicts_known_device", "rejected"}
    ensures Normalize(c, digest, now).Done? ==>
              var n := Normalize(c, digest, now).value;
              && n.fingerprint == TrimSpace(c.fingerprint) && n.source == TrimSpace(c.source)
              && n.claimedDeviceId == TrimSpace(c.claimedDeviceId)
              && n.candidateState == (if TrimSpace(c.candidateState) == "" then "observed" else TrimSpace(c.candidateState))
              && n.observedAt == (if TrimSpace(c.observedAt) == "" then now else TrimSpace(c.observedAt))
              && (TrimSpace(c.candidateId) != "" ==> n.candidateId == TrimSpace(c.candidateId))
              && (TrimSpace(c.candidateId) == "" ==> n.candidateId == "candidate-" + digest(DedupeKey(c)))
              && c == n.(fingerprint := c.fingerprint, source := c.source, claimedDeviceId := c.claimedDeviceId,
                         candidateState := c.candidateState, observedAt := c.observedAt, candidateId := c.candidateId)
  {
    hide TrimSpace;
    TrimSpaceTwice(c.fingerprint);
    TrimSpaceTwice(c.source);
    TrimSpaceTwice(c.claimedDeviceId);
  }

  /** A normal candidate is accepted whenever it is normalized again. */
  lemma NormalIsAccepted(c: Candidate, digest: string -> ShortDigest, now: Timestamp)
    requires IsNormal(c)
    ensures Normalize(c, digest, now).Done?
    ensures Normalize(c, digest, now).value == c.(observedAt := OrElse(TrimSpace(c.observedAt), now))
  {
    AllowedStateIsTrimmed(c.candidateState);
  }

  // ---- Review ----

  /** `IsAllowedIdentityCandidateTransition` */
  predicate IsAllowedTransition(fromState: string, toState: string) {
    var source, target := OrElse(TrimSpace(fromState), OBSERVED), TrimSpace(toState);
    if !IsAllowedState(source) || !IsAllowedState(target) then false
    else if target == STATE_VERIFIED then false
    else if source == OBSERVED then target in [PENDING_REVIEW, REJECTED, UNVERIFIED, CONFLICTS_KNOWN_DEVICE]
    else if source == PENDING_REVIEW then target in [REJECTED, UNVERIFIED, CONFLICTS_KNOWN_DEVICE]
    else if source == CONFLICTS_KNOWN_DEVICE then target in [PENDING_REVIEW, REJECTED]
    else if source == UNVERIFIED then target == REJECTED
    else false
  }

  /** How far a candidate still is from rejection. */
  function Rank(state: string): nat {
    if state == OBSERVED then 3
    else if state == PENDING_REVIEW || state == CONFLICTS_KNOWN_DEVICE then 2
    else if state == UNVERIFIED then 1
    else 0
  }

  /** A review step is a change between known states that does not raise the rank, into a state other than
      observed, with one exception: a conflict cannot be marked unverified without another review. White
      space does not matter, and a blank state counts as observed. */
  lemma TransitionsAreByRank(fromState: string, toState: string)
    ensures var source, target := if TrimSpace(fromState) == "" then "observed" else TrimSpace(fromState), TrimSpace(toState);
            var known := {"observed", "pending_review", "unverified", "conflicts_known_device", "rejected"};
            IsAllowedTransition(fromState, toState) <==>
              && source in known && target in known
              && source != target && target != "observed" && Rank(target) <= Rank(source)
              && !(source == "conflicts_known_device" && target == "unverified")
  {
    StatesDiffer();
    var target := TrimSpace(toState);
    assert STATE_VERIFIED[0] == 'v' && (target in [OBSERVED, PENDING_REVIEW, UNVERIFIED, CONFLICTS_KNOWN_DEVICE, REJECTED] ==>
                                          target[0] != 'v');
  }

  /** What reviews may do to a stored candidate over time. */
  predicate Evolves(before: Candidate, after: Candidate) {
    && after == before.(candidateState := after.candidateState, note := after.note)
    && Rank(after.candidateState) <= Rank(before.candidateState)
    && (before.candidateState == REJECTED ==> after == before)
    && (after.candidateState == OBSERVED ==> before.candidateState == OBSERVED)
  }

  /** A later list of candidates holds the earlier ones, evolved, in place, and possibly more. */
  ghost predicate Evolved(before: seq<Candidate>, after: seq<Candidate>) {
    |before| <= |after| && forall i :: 0 <= i < |before| ==> Evolves(before[i], after[i])
  }

  lemma EvolvedTransitive(a: seq<Candidate>, b: seq<Candidate>, c: seq<Candidate>)
    requires Evolved(a, b) && Evolved(b, c)
    ensures Evolved(a, c)
  {
    forall i | 0 <= i < |a|
      ensures Evolves(a[i], c[i])
    {
      assert Evolves(a[i], b[i]) && Evolves(b[i], c[i]);
    }
  }

  /** No two stored candidates share a key, and all are normal. */
  ghost predicate Deduplicated(candidates: seq<Candidate>) {
    && (forall i, j :: 0 <= i < j < |candidates| ==> DedupeKey(candidates[i]) != DedupeKey(candidates[j]))
    && (forall c :: c in candidates ==> IsNormal(c))
  }

  /** The note after a review, which adds each part at most once. */
  function WithPart(note: string, part: string, marker: string): string {
    if part == "" then note
    else if note == "" then part
    else if Contains(note, marker) then note
    else note + " " + part
  }

  datatype Review = Review(
    candidateId: string, dedupeCandidate: Candidate, newState: string, reviewer: string, reviewNote: string, updatedAt: string)

  function Prefixed(prefix: string, value: string): string {
    if value == "" then "" else prefix + value
  }

  function ReviewedNote(note: string, review: Review): string {
    var updated := WithPart(note, Prefixed("updated_at=", review.updatedAt), "updated_at=");
    var reviewed := WithPart(updated, Prefixed("reviewer=", review.reviewer), "reviewer=");
    WithPart(reviewed, review.reviewNote, review.reviewNote)
  }

  /** `normalizeIdentityCandidateReviewUpdate` */
  function NormalizeReview(review: Review, digest: string -> ShortDigest, now: Timestamp): Outcome<Review, TrustError> {
    var t := review.(candidateId := TrimSpace(review.candidateId), newState := TrimSpace(review.newState),
                     reviewer := TrimSpace(review.reviewer), reviewNote := TrimSpace(review.reviewNote),
                     updatedAt := TrimSpace(review.updatedAt));
    if t.newState == "" || !IsAllowedState(t.newState) || t.newState == STATE_VERIFIED then Refused(InvalidCandidate)
    else if t.candidateId != "" then Done(t)
    else
      match Normalize(t.dedupeCandidate, digest, now)
      case Done(c) => Done(t.(dedupeCandidate := c))
      case _ => Refused(InvalidCandidate)
  }

  /** `identityCandidateMatchesReviewTarget` */
  predicate MatchesReview(c: Candidate, review: Review) {
    if review.candidateId != "" then TrimSpace(c.candidateId) == review.candidateId
    else DedupeKey(c) == DedupeKey(review.dedupeCandidate)
  }

  /** What normalizing does to a review, and exactly what it refuses. */
  lemma NormalizeReviewFields(review: Review, digest: string -> ShortDigest, now: Timestamp)
    ensures NormalizeReview(review, digest, now).Done?
            <==> && TrimSpace(review.newState) in {"observed", "pending_review", "unverified", "conflicts_known_device", "rejected"}
                 && (TrimSpace(review.candidateId) != "" || Normalize(review.dedupeCandidate, digest, now).Done?)
    ensures NormalizeReview(review, digest, now).Done? ==>
              var n := NormalizeReview(review, digest, now).value;
              && n.candidateId == TrimSpace(review.candidateId) && n.newState == TrimSpace(review.newState)
              && n.reviewer == TrimSpace(review.reviewer) && n.reviewNote == TrimSpace(review.reviewNote)
              && n.updatedAt == TrimSpace(review.updatedAt)
              && (n.candidateId == "" ==> Normalize(review.dedupeCandidate, digest, now) == Done(n.dedupeCandidate))
  {
    hide TrimSpace, Normalize;
    StatesDiffer();
    assert STATE_VERIFIED[0] == 'v' && OBSERVED[0] == 'o' && PENDING_REVIEW[0] == 'p' && UNVERIFIED[0] == 'u'
           && CONFLICTS_KNOWN_DEVICE[0] == 'c' && REJECTED[0] == 'r';
  }

  /** Which stored candidates a review is about: those with its id if it names one, and else the only one
      with the key of its candidate. */
  lemma ReviewTargets(items: seq<Candidate>, review: Review, i: nat, j: nat)
    requires Deduplicated(items) && i < |items| && j < |items|
    ensures review.candidateId != "" ==> (MatchesReview(items[i], review) <==> items[i].candidateId == review.candidateId)
    ensures review.candidateId == "" && MatchesReview(items[i], review) && MatchesReview(items[j], review) ==> i == j
    ensures review.candidateId == "" && items[i] == review.dedupeCandidate ==> MatchesReview(items[i], review)
  {
    hide DedupeKey, TrimSpace;
    assert items[i] in items;
  }

  lemma ContainsAppended(s: string, t: string, part: string)
    ensures Contains(s, part) ==> Contains(s + t, part)
    ensures Contains(s + part, part)
  {
    if Contains(s, part) {
      var i: nat :| i <= |s| && OccursAt(s, part, i);
      assert (s + t)[i..i + |part|] == s[i..i + |part|] == part;
      assert OccursAt(s + t, part, i);
    }
    assert OccursAt(s + part, part, |s|);
  }

  /** A part is added once: the note keeps what it said, then contains the marker of the part, and adding
      the part again changes nothing. */
  lemma PartIsAddedOnce(note: string, part: string, marker: string)
    requires part == "" || marker <= part
    ensures var after := WithPart(note, part, marker);
            && note <= after && (part != "" ==> Contains(after, marker)) && WithPart(after, part, marker) == after
            && (part != "" && !Contains(note, marker) ==>
                  Contains(after, part) && after == (if note == "" then part else note + " " + part))
            && (part == "" || (note != "" && Contains(note, marker)) ==> after == note)
            && (forall other :: Contains(note, other) ==> Contains(after, other))
  {
    var after := WithPart(note, part, marker);
    if part != "" {
      assert OccursAt(part, marker, 0);
      assert OccursAt(part, part, 0);
      if note != "" && !Contains(note, marker) {
        ContainsAppended(note + " ", part, part);
        var k := |note| + 1;
        assert after[k..k + |marker|] == part[..|marker|] == marker;
        assert OccursAt(after, marker, k);
      }
      forall other | Contains(note, other)
        ensures Contains(after, other)
      {
        if note != "" && !Contains(note, marker) {
          assert after == note + (" " + part);
          ContainsAppended(note, " " + part, other);
        } else if note == "" {
          assert other == "" by {
            var i: nat :| i <= |note| && OccursAt(note, other, i);
          }
          assert OccursAt(after, other, 0);
        }
      }
    }
  }

  /** A reviewed note begins with the old one, mentions what the review gave, and reviewing again with the
      same review adds nothing. */
  lemma ReviewedNoteLaws(note: string, review: Review)
    ensures var after := ReviewedNote(note, review);
            && note <= after && ReviewedNote(after, review) == after
            && (review.updatedAt != "" ==> Contains(after, "updated_at=")) && (review.reviewer != "" ==> Contains(after, "reviewer="))
            && (review.reviewNote != "" ==> Contains(after, review.reviewNote))
            && (review.updatedAt == "" && review.reviewer == "" && review.reviewNote == "" ==> after == note)
            && (note == "" && review.updatedAt == "" && review.reviewer != "" && review.reviewNote == "" ==>
                  after == "reviewer=" + review.reviewer)
            && (note == "" && review.updatedAt != "" && review.reviewer == "" && review.reviewNote == "" ==>
                  after == "updated_at=" + review.updatedAt)
  {
    hide WithPart, Contains;
    var p1, p2, p3 := Prefixed("updated_at=", review.updatedAt), Prefixed("reviewer=", review.reviewer), review.reviewNote;
    var n1 := WithPart(note, p1, "updated_at=");
    var n2 := WithPart(n1, p2, "reviewer=");
    var n3 := WithPart(n2, p3, review.reviewNote);
    PartIsAddedOnce(note, p1, "updated_at=");
    PartIsAddedOnce(n1, p2, "reviewer=");
    PartIsAddedOnce(n2, p3, review.reviewNote);
    AddedAgain(n3, p1, "updated_at=");
    AddedAgain(n3, p2, "reviewer=");
    AddedAgain(n3, p3, review.reviewNote);
    NothingToAdd("updated_at=");
    NothingToAdd("reviewer=");
    NothingToAdd(p3);
  }

  lemma AddedAgain(note: string, part: string, marker: string)
    requires part == "" || (Contains(note, marker) && marker != "")
    ensures WithPart(note, part, marker) == note
  {
  }

  lemma NothingToAdd(marker: string)
    ensures marker != "" ==> !Contains("", marker)
  {
  }

  lemma ReviewStepEvolves(c: Candidate, toState: string, note: string)
    requires IsNormal(c) && IsAllowedState(toState) && IsAllowedTransition(c.candidateState, toState)
    ensures var after := c.(candidateState := toState, note := note);
            Evolves(c, after) && IsNormal(after) && DedupeKey(after) == DedupeKey(c)
  {
    AllowedStateIsTrimmed(c.candidateState);
    AllowedStateIsTrimmed(toState);
    TransitionsAreByRank(c.candidateState, toState);
    StatesDiffer();
  }

  // ---- Classification of an observation ----

  datatype Mismatch =
    | CandidateOnly
    | Continuity
    | ReviewRequiredConflict
    | ReverifyRequired
    | ChangedCandidate
    | BlockedRevoked
    | BlockedCompromised
  {
    /** `identityMismatchEventType` */
    function EventType(): string {
      match this
      case CandidateOnly => "provider_identity_candidate_observed"
      case Continuity => "provider_identity_continuity_observed"
      case ReviewRequiredConflict => "provider_identity_candidate_conflict"
      case ReverifyRequired => "provider_identity_reverify_required"
      case ChangedCandidate => "provider_identity_changed_candidate"
      case BlockedRevoked => "provider_identity_promotion_blocked_" + "revoked"
      case BlockedCompromised => "provider_identity_promotion_blocked_" + "compromised"
    }
  }

  datatype Decision = Decision(
    mismatch: Mismatch, knownTrustState: string, requiresReview: bool, requiresReverify: bool, blocksSend: bool,
    blocksPromotion: bool)

  /** `identityCandidateMatchesKnownDevice` */
  predicate MaterialMatches(c: Candidate, knownFingerprint: string, knownKey: string) {
    || (TrimSpace(c.fingerprint) != "" && TrimSpace(c.fingerprint) == TrimSpace(knownFingerprint))
    || (TrimSpace(c.publicIdentityMaterial) != "" && TrimSpace(c.publicIdentityMaterial) == TrimSpace(knownKey))
  }

  /** `ClassifyIdentityMismatch` for a candidate whose claimed device is known with this state. */
  function ClassifyKnown(matches: bool, state: string): Decision {
    if state == STATE_VERIFIED then
      if matches then Decision(Continuity, state, false, false, false, false)
      else Decision(ReverifyRequired, state, true, true, true, false)
    else if state == STATE_UNVERIFIED || state == STATE_UNKNOWN || state == "" then
      if matches then Decision(Continuity, state, false, false, true, false)
      else Decision(ReviewRequiredConflict, state, true, false, true, false)
    else if state == STATE_CHANGED then Decision(ChangedCandidate, state, true, true, true, false)
    else if state == STATE_REVOKED then Decision(BlockedRevoked, state, true, false, true, true)
    else if state == STATE_COMPROMISED then Decision(BlockedCompromised, state, true, false, true, true)
    else if matches then Decision(Continuity, state, false, false, true, false)
    else Decision(ReviewRequiredConflict, state, true, false, true, false)
  }

  function ClassifyUnknown(): Decision {
    Decision(CandidateOnly, STATE_UNKNOWN, false, false, true, false)
  }

  /** A candidate never blocks sending only when it matches a verified device; promotion is blocked
      exactly by a revoked or compromised one. */
  lemma DecisionsFollowTrust(matches: bool, state: string)
    ensures var d := ClassifyKnown(matches, state);
            && (!d.blocksSend <==> state == STATE_VERIFIED && matches)
            && (d.blocksPromotion <==> state == STATE_REVOKED || state == STATE_COMPROMISED)
            && (d.requiresReverify <==> state == STATE_CHANGED || (state == STATE_VERIFIED && !matches))
            && (d.requiresReview <==> !matches || state in {STATE_CHANGED, STATE_REVOKED, STATE_COMPROMISED})
            && d.knownTrustState == state
            && d.mismatch == (if state == STATE_CHANGED then ChangedCandidate
                              else if state == STATE_REVOKED then BlockedRevoked
                              else if state == STATE_COMPROMISED then BlockedCompromised
                              else if matches then Continuity
                              else if state == STATE_VERIFIED then ReverifyRequired
                              else ReviewRequiredConflict)
  {
    TrustEvents.StatesDiffer();
    assert STATE_UNVERIFIED[1] == 'n' && STATE_UNKNOWN[1] == 'n' && STATE_VERIFIED[1] == 'e' && STATE_CHANGED[1] == 'h'
           && STATE_REVOKED[1] == 'e' && STATE_COMPROMISED[1] == 'o';
  }

  const CANDIDATE_SOURCE := "identity_candidate"
  const CLASSIFIER_SOURCE := "identity_mismatch_classifier"
  const HISTORY_FALLBACK := "identity_candidate_history"

  /** `BuildIdentityCandidateObservedHistoryDraft` and `BuildIdentityMismatchHistoryDraft` */
  function ObservationDraft(c: Candidate, known: bool, decision: Decision, note: string): Draft {
    if known then
      Draft(decision.mismatch.EventType(), c.accountId, c.claimedDeviceId, decision.knownTrustState, c.candidateState,
            c.fingerprint, CLASSIFIER_SOURCE, note, c.observedAt)
    else
      Draft(CandidateOnly.EventType(), c.accountId, c.claimedDeviceId, "", OBSERVED, c.fingerprint, CANDIDATE_SOURCE, note,
            c.observedAt)
  }

  /** The event of a first observation: that of the decision when the claimed device is known, and else the
      plain observation. */
  predicate ObservedAs(e: Event, c: Candidate, known: bool, d: Decision, note: string, eventId: string, now: Timestamp) {
    && e.eventId == eventId && e.accountId == c.accountId && e.deviceId == c.claimedDeviceId && e.fingerprint == c.fingerprint
    && e.note == note && e.eventTime == (if TrimSpace(c.observedAt) == "" then now else TrimSpace(c.observedAt))
    && if known then
         && e.eventType == (match d.mismatch
                            case CandidateOnly => "provider_identity_candidate_observed"
                            case Continuity => "provider_identity_continuity_observed"
                            case ReviewRequiredConflict => "provider_identity_candidate_conflict"
                            case ReverifyRequired => "provider_identity_reverify_required"
                            case ChangedCandidate => "provider_identity_changed_candidate"
                            case BlockedRevoked => "provider_identity_promotion_blocked_" + "revoked"
                            case BlockedCompromised => "provider_identity_promotion_blocked_" + "compromised")
         && e.previousTrustState == d.knownTrustState
         && e.newTrustState == c.candidateState && e.source == "identity_mismatch_classifier"
       else
         && e.eventType == "provider_identity_candidate_observed" && e.previousTrustState == ""
         && e.newTrustState == "observed" && e.source == "identity_candidate"
  }

  /** An event an observation adds to the history. */
  predicate IsObservation(e: Event) {
    !IsDeviceEvent(e) && (e.source == CANDIDATE_SOURCE || e.source == CLASSIFIER_SOURCE)
  }

  function Observations(events: seq<Event>): nat {
    if events == [] then 0
    else Observations(events[..|events| - 1]) + if IsObservation(events[|events| - 1]) then 1 else 0
  }

  lemma MismatchTypesAreFree(m: Mismatch)
    ensures var t := m.EventType(); t != "" && TrimSpace(t) == t && !IsReserved(t)
  {
    var t := m.EventType();
    match m {
      case CandidateOnly => assert t[0] == 'p' && t[|t| - 1] == 'd';
      case Continuity => assert t[0] == 'p' && t[|t| - 1] == 'd';
      case ReviewRequiredConflict => assert t[0] == 'p' && t[|t| - 1] == 't';
      case ReverifyRequired => assert t[0] == 'p' && t[|t| - 1] == 'd';
      case ChangedCandidate => assert t[0] == 'p' && t[|t| - 1] == 'e';
      case BlockedRevoked => assert t[0] == 'p' && t[|t| - 1] == "revoked"[6] == 'd';
      case BlockedCompromised => assert t[0] == 'p' && t[|t| - 1] == "compromised"[10] == 'd';
    }
    assert DEVICE_VERIFIED[0] == 'd' && DEVICE_KEY_CHANGED[0] == 'd' && DEVICE_REVOKED[0] == 'd';
    TrimmedWord(t);
  }

  lemma SourcesAreTrimmed()
    ensures CANDIDATE_SOURCE != "" && TrimSpace(CANDIDATE_SOURCE) == CANDIDATE_SOURCE
    ensures CLASSIFIER_SOURCE != "" && TrimSpace(CLASSIFIER_SOURCE) == CLASSIFIER_SOURCE
    ensures HISTORY_FALLBACK != "" && TrimSpace(HISTORY_FALLBACK) == HISTORY_FALLBACK
  {
    assert CANDIDATE_SOURCE[0] == 'i' && CANDIDATE_SOURCE[|CANDIDATE_SOURCE| - 1] == 'e';
    assert CLASSIFIER_SOURCE[0] == 'i' && CLASSIFIER_SOURCE[|CLASSIFIER_SOURCE| - 1] == 'r';
    assert HISTORY_FALLBACK[0] == 'i' && HISTORY_FALLBACK[|HISTORY_FALLBACK| - 1] == 'y';
    TrimmedWord(CANDIDATE_SOURCE);
    TrimmedWord(CLASSIFIER_SOURCE);
    TrimmedWord(HISTORY_FALLBACK);
  }

  /** Drafts of observations always pass the filter and become observation events. */
  lemma ObservationsAreAppended(c: Candidate, known: bool, decision: Decision, note: string, eventId: string, now: Timestamp)
    ensures var filtered := ProviderDraft(ObservationDraft(c, known, decision, note), HISTORY_FALLBACK);
            && filtered.Done?
            && var built := BuildProviderEvent(filtered.value, eventId, now);
               built.Done? && IsObservation(built.value)
  {
    hide TrimSpace, IsReserved;
    MismatchTypesAreFree(decision.mismatch);
    MismatchTypesAreFree(CandidateOnly);
    SourcesAreTrimmed();
    FilteredDraftIsNoDeviceEvent(ObservationDraft(c, known, decision, note), HISTORY_FALLBACK, eventId, now);
  }
}
