/** The trust history: its events, how provider drafts become events, and what replaying the history
    yields (trust.go, provider_events.go, identity_candidate_events.go, identity_recovery_events.go). */
module TrustEvents {
  import opened Outcomes
  import opened Text

  const STATE_UNKNOWN := "unknown"
  const STATE_UNVERIFIED := "unverified"
  const STATE_VERIFIED := "verified"
  const STATE_CHANGED := "changed"
  const STATE_REVOKED := "revoked"
  const STATE_COMPROMISED := "compromised"

  const DEVICE_VERIFIED := "device_verified"
  const DEVICE_KEY_CHANGED := "device_key_changed"
  const DEVICE_REVOKED := "device_revoked"

  /** A formatted wall-clock time. */
  type Timestamp = s: string | s != "" witness "1970-01-01T00:00:00Z"

  datatype Event = Event(
    eventId: string, eventType: string, accountId: string, deviceId: string, previousTrustState: string,
    newTrustState: string, fingerprint: string, eventTime: string, source: string, note: string)

  datatype TrustError =
    | MissingArgument
    | UnreadableStore
    | UnreadableHistory
    | WriteFailed
    | DeviceNotFound
    | InvalidDraft
    | InvalidCandidate
    | CandidateNotFound
    | InvalidTransition

  // ---- Drafts ----

  datatype Draft = Draft(
    eventType: string, accountId: string, deviceId: string, previousTrustState: string, newTrustState: string,
    fingerprint: string, source: string, note: string, nowUtc: string)

  predicate IsReserved(eventType: string) {
    eventType == DEVICE_VERIFIED || eventType == DEVICE_KEY_CHANGED || eventType == DEVICE_REVOKED
  }

  function OrElse(s: string, fallback: string): string {
    if s == "" then fallback else s
  }

  /** `BuildProviderEvent`; the event id and the current time are given. */
  function BuildProviderEvent(draft: Draft, eventId: string, now: Timestamp): Outcome<Event, TrustError> {
    var eventType := TrimSpace(draft.eventType);
    if eventType == "" then Refused(InvalidDraft)
    else
      Done(Event(eventId, eventType, draft.accountId, draft.deviceId, draft.previousTrustState, draft.newTrustState,
                 draft.fingerprint, OrElse(TrimSpace(draft.nowUtc), now),
                 OrElse(TrimSpace(draft.source), "provider_event_append"), draft.note))
  }

  /** `identityCandidateHistoryProviderDraft` and `identityRecoveryHistoryProviderDraft`, which differ in
      the fallback source: a draft may not carry a reserved type. */
  function ProviderDraft(draft: Draft, fallbackSource: string): Outcome<Draft, TrustError> {
    var eventType := TrimSpace(draft.eventType);
    if eventType == "" then Refused(InvalidDraft)
    else if IsReserved(eventType) then Refused(InvalidDraft)
    else Done(draft.(eventType := eventType, source := OrElse(TrimSpace(draft.source), fallbackSource)))
  }

  /** What passes the filter becomes an event that is not a device event, although the type is trimmed
      once before the filter and once after it. */
  lemma FilteredDraftIsNoDeviceEvent(draft: Draft, fallbackSource: string, eventId: string, now: Timestamp)
    requires fallbackSource != "" && TrimSpace(fallbackSource) == fallbackSource
    requires ProviderDraft(draft, fallbackSource).Done?
    ensures var provider := ProviderDraft(draft, fallbackSource).value;
            var built := BuildProviderEvent(provider, eventId, now);
            && built.Done? && !IsDeviceEvent(built.value)
            && built.value.eventType == TrimSpace(draft.eventType)
            && built.value.source == OrElse(TrimSpace(draft.source), fallbackSource)
  {
    TrimTwice(draft.eventType, IsSpace);
    TrimTwice(draft.source, IsSpace);
  }

  /** The type given directly to a provider draft is not filtered. */
  lemma UnfilteredDraftCanBeADeviceEvent(eventId: string, now: Timestamp)
    ensures var draft := Draft(DEVICE_REVOKED, "", "device", "", STATE_REVOKED, "", "test", "", "");
            var built := BuildProviderEvent(draft, eventId, now);
            built.Done? && IsDeviceEvent(built.value)
  {
    var word := DEVICE_REVOKED;
    assert word[0] == 'd' && word[|word| - 1] == 'd';
    assert TrimSpace(word) == word;
  }

  // ---- Replaying ----

  predicate IsDeviceEvent(e: Event) {
    IsReserved(e.eventType)
  }

  /** What the history knows of a device. */
  datatype View = View(
    accountId: string, deviceId: string, fingerprint: string, trustState: string, firstSeenAt: string, lastSeenAt: string)

  function IndexIn(views: seq<View>, deviceId: string): Option<nat> {
    if views == [] then None
    else
      var before := IndexIn(views[..|views| - 1], deviceId);
      if before.Some? then before
      else if views[|views| - 1].deviceId == deviceId then Some(|views| - 1)
      else None
  }

  lemma {:induction false} IndexInFinds(views: seq<View>, deviceId: string)
    ensures match IndexIn(views, deviceId)
            case Some(i) => i < |views| && views[i].deviceId == deviceId && forall k :: 0 <= k < i ==> views[k].deviceId != deviceId
            case None => forall k :: 0 <= k < |views| ==> views[k].deviceId != deviceId
  {
    if views != [] {
      IndexInFinds(views[..|views| - 1], deviceId);
    }
  }

  /** The device as one of its events leaves it: everything but the first time seen is that of the event. */
  function Seen(e: Event, firstSeenAt: string): View {
    View(e.accountId, e.deviceId, e.fingerprint, e.newTrustState, firstSeenAt, e.eventTime)
  }

  function Apply(views: seq<View>, e: Event): (r: seq<View>) {
    IndexInFinds(views, e.deviceId);
    if !IsDeviceEvent(e) then views
    else
      match IndexIn(views, e.deviceId)
      case Some(i) => views[i := Seen(e, views[i].firstSeenAt)]
      case None => views + [Seen(e, e.eventTime)]
  }

  /** What a history says of every device, in the order of their first events. */
  function Replay(events: seq<Event>): seq<View> {
    if events == [] then [] else Apply(Replay(events[..|events| - 1]), events[|events| - 1])
  }

  /** The last device event of a device. */
  function LastFor(events: seq<Event>, deviceId: string): Option<Event> {
    if events == [] then None
    else
      var last := events[|events| - 1];
      if IsDeviceEvent(last) && last.deviceId == deviceId then Some(last) else LastFor(events[..|events| - 1], deviceId)
  }

  /** The first device event of a device. */
  function FirstFor(events: seq<Event>, deviceId: string): Option<Event> {
    if events == [] then None
    else
      var before := FirstFor(events[..|events| - 1], deviceId);
      var last := events[|events| - 1];
      if before.Some? then before
      else if IsDeviceEvent(last) && last.deviceId == deviceId then Some(last)
      else None
  }

  function StateAfter(events: seq<Event>, deviceId: string): string {
    match LastFor(events, deviceId)
    case None => STATE_UNKNOWN
    case Some(e) => e.newTrustState
  }

  predicate Distinct(views: seq<View>) {
    forall i, j :: 0 <= i < j < |views| ==> views[i].deviceId != views[j].deviceId
  }

  /** The new state an event of a reserved type announces. */
  predicate TypeMatchesState(e: Event) {
    && (e.eventType == DEVICE_VERIFIED ==> e.newTrustState == STATE_VERIFIED)
    && (e.eventType == DEVICE_KEY_CHANGED ==> e.newTrustState == STATE_CHANGED)
    && (e.eventType == DEVICE_REVOKED ==> e.newTrustState == STATE_REVOKED)
  }

  /** Each device event starts in the state the previous one of its device ended in, and the first one of
      a device is a verification. */
  predicate Chained(events: seq<Event>) {
    forall i :: 0 <= i < |events| && IsDeviceEvent(events[i]) ==>
      && events[i].previousTrustState == StateAfter(events[..i], events[i].deviceId)
      && TypeMatchesState(events[i])
      && (events[i].eventType != DEVICE_VERIFIED ==> LastFor(events[..i], events[i].deviceId).Some?)
  }

  lemma {:induction false} ReplayIsDistinct(events: seq<Event>)
    ensures Distinct(Replay(events))
  {
    if events != [] {
      var before, e := Replay(events[..|events| - 1]), events[|events| - 1];
      ReplayIsDistinct(events[..|events| - 1]);
      IndexInFinds(before, e.deviceId);
    }
  }

  /** An event changes what is known of its own device and of no other. */
  lemma ApplyLooksUp(views: seq<View>, e: Event, deviceId: string)
    requires Distinct(views)
    ensures var before, after := IndexIn(views, deviceId), IndexIn(Apply(views, e), deviceId);
            && (before.Some? ==> before.value < |views|)
            && (after.Some? ==> after.value < |Apply(views, e)|)
            && (if IsDeviceEvent(e) && e.deviceId == deviceId then
                  && after.Some?
                  && Apply(views, e)[after.value]
                     == Seen(e, if before.Some? then views[before.value].firstSeenAt else e.eventTime)
                else
                  && after.Some? == before.Some?
                  && (after.Some? ==> Apply(views, e)[after.value] == views[before.value]))
  {
    IndexInFinds(views, deviceId);
    IndexInFinds(views, e.deviceId);
    IndexInFinds(Apply(views, e), deviceId);
    var after := Apply(views, e);
    if IsDeviceEvent(e) && IndexIn(views, e.deviceId).None? {
      assert after[|views|].deviceId == e.deviceId;
    }
    if before: nat :| before < |views| && IndexIn(views, deviceId) == Some(before) {
      assert after[before].deviceId == deviceId;
    }
  }

  /** Replaying knows exactly the devices with device events; each is as its last event says, first seen
      at its first. */
  lemma {:induction false} ReplayIsLastEvent(events: seq<Event>, deviceId: string)
    ensures match IndexIn(Replay(events), deviceId)
            case None => LastFor(events, deviceId).None? && FirstFor(events, deviceId).None?
            case Some(i) =>
              && LastFor(events, deviceId).Some? && FirstFor(events, deviceId).Some? && i < |Replay(events)|
              && Replay(events)[i] == Seen(LastFor(events, deviceId).value, FirstFor(events, deviceId).value.eventTime)
  {
    hide Apply;
    if events != [] {
      ReplayIsLastEvent(events[..|events| - 1], deviceId);
      ReplayIsDistinct(events[..|events| - 1]);
      ApplyLooksUp(Replay(events[..|events| - 1]), events[|events| - 1], deviceId);
    }
  }

  lemma ReplayOfOther(events: seq<Event>, e: Event)
    requires !IsDeviceEvent(e)
    ensures Replay(events + [e]) == Replay(events)
    ensures forall d :: LastFor(events + [e], d) == LastFor(events, d)
  {
    assert (events + [e])[..|events|] == events;
  }

  lemma ChainExtends(events: seq<Event>, e: Event)
    requires Chained(events)
    requires IsDeviceEvent(e) ==>
               && e.previousTrustState == StateAfter(events, e.deviceId) && TypeMatchesState(e)
               && (e.eventType != DEVICE_VERIFIED ==> LastFor(events, e.deviceId).Some?)
    ensures Chained(events + [e])
  {
    var more := events + [e];
    forall i | 0 <= i < |more| && IsDeviceEvent(more[i])
      ensures more[i].previousTrustState == StateAfter(more[..i], more[i].deviceId)
      ensures TypeMatchesState(more[i])
      ensures more[i].eventType != DEVICE_VERIFIED ==> LastFor(more[..i], more[i].deviceId).Some?
    {
      if i < |events| {
        assert more[..i] == events[..i] && more[i] == events[i];
      } else {
        assert more[..i] == events;
      }
    }
  }

  /** In a chained history a device ends verified exactly when its last device event is a verification,
      and in no state but verified, changed, revoked, or unknown. */
  lemma {:induction false} ChainedStates(events: seq<Event>, deviceId: string)
    requires Chained(events)
    ensures match LastFor(events, deviceId)
            case None => StateAfter(events, deviceId) == STATE_UNKNOWN
            case Some(e) =>
              && IsDeviceEvent(e) && e.deviceId == deviceId && TypeMatchesState(e)
              && (StateAfter(events, deviceId) == STATE_VERIFIED <==> e.eventType == DEVICE_VERIFIED)
              && (StateAfter(events, deviceId) == STATE_CHANGED <==> e.eventType == DEVICE_KEY_CHANGED)
              && (StateAfter(events, deviceId) == STATE_REVOKED <==> e.eventType == DEVICE_REVOKED)
  {
    if events != [] {
      var before, last := events[..|events| - 1], events[|events| - 1];
      if !(IsDeviceEvent(last) && last.deviceId == deviceId) {
        assert Chained(before) by {
          forall i | 0 <= i < |before|
            ensures before[..i] == events[..i] && before[i] == events[i]
          {
          }
        }
        ChainedStates(before, deviceId);
      } else {
        StatesDiffer();
      }
    }
  }

  lemma StatesDiffer()
    ensures STATE_VERIFIED != STATE_CHANGED && STATE_VERIFIED != STATE_REVOKED && STATE_CHANGED != STATE_REVOKED
    ensures STATE_UNKNOWN != STATE_VERIFIED && STATE_UNKNOWN != STATE_CHANGED && STATE_UNKNOWN != STATE_REVOKED
    ensures STATE_COMPROMISED != STATE_VERIFIED && STATE_COMPROMISED != STATE_CHANGED && STATE_COMPROMISED != STATE_REVOKED
    ensures STATE_COMPROMISED != STATE_UNKNOWN
    ensures DEVICE_VERIFIED != DEVICE_KEY_CHANGED && DEVICE_VERIFIED != DEVICE_REVOKED && DEVICE_KEY_CHANGED != DEVICE_REVOKED
  {
    assert STATE_VERIFIED[0] == 'v' && STATE_CHANGED[0] == 'c' && STATE_REVOKED[0] == 'r' && STATE_UNKNOWN[0] == 'u';
    assert STATE_COMPROMISED[1] == 'o' && STATE_CHANGED[1] == 'h' && STATE_COMPROMISED[0] == 'c';
    assert DEVICE_VERIFIED[7] == 'v' && DEVICE_KEY_CHANGED[7] == 'k' && DEVICE_REVOKED[7] == 'r';
  }
}
