/** The local trust store: `trust.json` changed in place, `trust-events.jsonl` only appended to, and
    `identity-candidates.json` beside them (trust.go, provider_events.go, identity_candidates.go,
    identity_candidate_orchestration.go, identity_candidate_review.go, identity_recovery_orchestration.go).

    Any write may fail part-way or be the last one of its process. */
module TrustStore {
  import opened Outcomes
  import opened Text
  import opened TrustEvents
  import opened C = IdentityCandidates

  datatype DeviceRecord = DeviceRecord(
    accountId: string, deviceId: string, displayLabel: string, publicIdentityKey: string, fingerprint: string,
    trustState: string, firstSeenAt: string, lastSeenAt: string)

  /** A JSON file holding a list; a missing file reads as the empty list. */
  datatype File<T> = Readable(items: seq<T>) | Torn

  /** A line of the history file. */
  datatype Line = Entry(event: Event) | Blank | Damaged

  datatype Library = Library(fingerprint: string -> string, digest: string -> ShortDigest)

  datatype SendDecision = SendDecision(allowed: bool, trustState: string)

  // ---- The history file ----

  function Entries(lines: seq<Line>): seq<Event> {
    if lines == [] then []
    else
      var last := lines[|lines| - 1];
      Entries(lines[..|lines| - 1]) + if last.Entry? then [last.event] else []
  }

  /** `LoadEvents` */
  method LoadEvents(lines: seq<Line>) returns (o: Outcome<seq<Event>, TrustError>)
    ensures !o.Crashed?
    ensures o.Done? <==> Damaged !in lines
    ensures o.Done? ==> o.value == Entries(lines)
  {
    var events: seq<Event> := [];
    for i := 0 to |lines|
      invariant events == Entries(lines[..i]) && Damaged !in lines[..i]
    {
      assert lines[..i + 1][..i] == lines[..i];
      match lines[i] {
        case Blank =>
        case Damaged => return Refused(UnreadableHistory);
        case Entry(event) => events := events + [event];
      }
    }
    assert lines[..|lines|] == lines;
    return Done(events);
  }

  lemma EntriesAppend(lines: seq<Line>, line: Line)
    ensures Entries(lines + [line]) == Entries(lines) + if line.Entry? then [line.event] else []
  {
    assert (lines + [line])[..|lines|] == lines;
  }

  lemma ObservationsAppend(events: seq<Event>, e: Event)
    ensures Observations(events + [e]) == Observations(events) + if IsObservation(e) then 1 else 0
  {
    assert (events + [e])[..|events|] == events;
  }

  /** What a failed append of an event may have left: nothing, part of its line, or its line. */
  predicate WroteAtMost(before: seq<Line>, after: seq<Line>, e: Event) {
    after == before || after == before + [Damaged] || after == before + [Entry(e)]
  }

  /** The event a draft becomes after the filter. */
  function FilteredEvent(draft: Draft, fallbackSource: string, eventId: string, now: Timestamp): Outcome<Event, TrustError> {
    match ProviderDraft(draft, fallbackSource)
    case Done(provider) => BuildProviderEvent(provider, eventId, now)
    case Refused(e) => Refused(e)
    case Crashed => Crashed
  }

  // ---- Records and views ----

  function ViewOf(r: DeviceRecord): View {
    View(r.accountId, r.deviceId, r.fingerprint, r.trustState, r.firstSeenAt, r.lastSeenAt)
  }

  function Project(records: seq<DeviceRecord>): (views: seq<View>)
    ensures |views| == |records| && forall i :: 0 <= i < |records| ==> views[i] == ViewOf(records[i])
  {
    seq(|records|, i requires 0 <= i < |records| => ViewOf(records[i]))
  }

  function IndexOf(records: seq<DeviceRecord>, deviceId: string): Option<nat> {
    IndexIn(Project(records), deviceId)
  }

  lemma IndexOfFinds(records: seq<DeviceRecord>, deviceId: string)
    ensures match IndexOf(records, deviceId)
            case Some(i) => i < |records| && records[i].deviceId == deviceId && forall k :: 0 <= k < i ==> records[k].deviceId != deviceId
            case None => forall k :: 0 <= k < |records| ==> records[k].deviceId != deviceId
  {
    IndexInFinds(Project(records), deviceId);
  }

  /** The records with this one replacing its device's, or added last. */
  function Put(records: seq<DeviceRecord>, r: DeviceRecord): seq<DeviceRecord> {
    IndexOfFinds(records, r.deviceId);
    match IndexOf(records, r.deviceId)
    case Some(i) => records[i := r]
    case None => records + [r]
  }

  /** When a device was first seen: what its record says, or now. */
  function FirstSeenOf(records: seq<DeviceRecord>, deviceId: string, now: string): string {
    IndexOfFinds(records, deviceId);
    match IndexOf(records, deviceId)
    case Some(i) => records[i].firstSeenAt
    case None => now
  }

  ghost predicate Consistent(lib: Library, records: seq<DeviceRecord>) {
    forall r :: r in records ==> r.firstSeenAt != "" && r.fingerprint == lib.fingerprint(r.publicIdentityKey)
  }

  /** Putting the record an event describes is what replaying that event does. */
  lemma PutReplays(events: seq<Event>, records: seq<DeviceRecord>, r: DeviceRecord, e: Event)
    requires Project(records) == Replay(events)
    requires IsDeviceEvent(e) && e.deviceId == r.deviceId
    requires ViewOf(r) == Seen(e, FirstSeenOf(records, r.deviceId, e.eventTime))
    ensures Project(Put(records, r)) == Replay(events + [e])
  {
    IndexOfFinds(records, r.deviceId);
    assert (events + [e])[..|events|] == events;
    assert Replay(events + [e]) == Apply(Project(records), e);
  }

  /** What the store says of a device is what the history's last device event says of it. */
  lemma StoreIsLastEvent(events: seq<Event>, records: seq<DeviceRecord>, deviceId: string)
    requires Project(records) == Replay(events)
    ensures match IndexOf(records, deviceId)
            case None => LastFor(events, deviceId).None? && StateAfter(events, deviceId) == STATE_UNKNOWN
            case Some(i) =>
              && i < |records| && LastFor(events, deviceId).Some?
              && records[i].trustState == StateAfter(events, deviceId)
              && records[i].fingerprint == LastFor(events, deviceId).value.fingerprint
              && records[i].accountId == LastFor(events, deviceId).value.accountId
              && records[i].lastSeenAt == LastFor(events, deviceId).value.eventTime
  {
    IndexOfFinds(records, deviceId);
    ReplayIsLastEvent(events, deviceId);
  }

  /** What is decided of a candidate, over the last device event of the device it claims and that device's
      record: it may be sent to only if that event is a verification and fingerprint or key are the
      device's own. */
  ghost predicate DecidedBy(last: Option<Event>, file: File<DeviceRecord>, c: Candidate, d: Decision) {
    if TrimSpace(c.claimedDeviceId) == "" || last.None? then d == Decision(CandidateOnly, "unknown", false, false, true, false)
    else file.Readable? && exists r :: r in file.items && DecidedOn(last.value, r, c, d)
  }

  predicate DecidedOn(last: Event, r: DeviceRecord, c: Candidate, d: Decision) {
    var same := || (TrimSpace(c.fingerprint) != "" && TrimSpace(c.fingerprint) == TrimSpace(r.fingerprint))
                || (TrimSpace(c.publicIdentityMaterial) != ""
                    && TrimSpace(c.publicIdentityMaterial) == TrimSpace(r.publicIdentityKey));
    var verified, changed, revoked := last.eventType == "device_verified", last.eventType == "device_key_changed",
                                      last.eventType == "device_revoked";
    && r.deviceId == c.claimedDeviceId && r.fingerprint == last.fingerprint
    && d.knownTrustState == last.newTrustState
    && (d.blocksSend <==> !(verified && same)) && (d.requiresReview <==> !(verified && same))
    && (d.requiresReverify <==> changed || (verified && !same)) && (d.blocksPromotion <==> revoked)
    && d.mismatch == (if revoked then BlockedRevoked else if changed then ChangedCandidate
                      else if same then Continuity else ReverifyRequired)
  }

  // ---- The store ----

  class Trust {
    const lib: Library
    var devices: File<DeviceRecord>
    var history: seq<Line>
    var candidates: File<Candidate>

    /** Every event that was due, whether or not its line was written. */
    ghost var due: seq<Event>
    /** No write failed or was cut off so far, no process stopped between the two writes of a device
        operation, and no device event came in unfiltered. */
    ghost var clean: bool
    /** First observations that stored their candidate and ended before their event was due to be
        appended: `trust.json` could not be read, or the process stopped. */
    ghost var unrecorded: nat

    ghost predicate Valid()
      reads this
    {
      && Chained(due)
      && (devices.Readable? ==> Project(devices.items) == Replay(due) && Consistent(lib, devices.items))
      && (candidates.Readable? ==> Deduplicated(candidates.items))
      && (clean ==> devices.Readable? && candidates.Readable? && Damaged !in history && Entries(history) == due)
    }

    constructor (lib: Library)
      ensures Valid() && Accounted() && clean && this.lib == lib
      ensures devices == Readable([]) && history == [] && candidates == Readable([]) && due == [] && unrecorded == 0
    {
      this.lib, devices, history, candidates := lib, Readable([]), [], Readable([]);
      this.due, this.clean, this.unrecorded := [], true, 0;
    }

    /** `SaveStore` and then `AppendEvent`. */
    method Commit(updated: seq<DeviceRecord>, event: Event) returns (o: Outcome<(), TrustError>)
      requires Valid() && devices.Readable?
      requires Project(updated) == Replay(due + [event]) && Consistent(lib, updated) && Chained(due + [event])
      modifies this
      ensures unrecorded == old(unrecorded)
      ensures Valid() && candidates == old(candidates)
      ensures o.Done? ==>
                && devices == Readable(updated) && history == old(history) + [Entry(event)]
                && due == old(due) + [event] && clean == old(clean)
      ensures !o.Done? ==>
                && !clean && WroteAtMost(old(history), history, event)
                && (devices == old(devices) || devices == Torn || devices == Readable(updated))
      ensures o.Refused? ==> o.error == WriteFailed
    {
      hide Chained, Replay, Consistent, Deduplicated, Entries, Project;
      EntriesAppend(history, Entry(event));
      if * {
        clean := false;
        if * {
          devices := Torn;
        }
        o := Failed();
        return;
      }
      devices, due := Readable(updated), due + [event];
      if * {
        clean := false;
        if * {
          history := history + [Damaged];
        } else if * {
          history := history + [Entry(event)];
        }
        o := Failed();
        return;
      }
      history := history + [Entry(event)];
      return Done(());
    }

    static method Failed() returns (o: Outcome<(), TrustError>)
      ensures !o.Done? && (o.Refused? ==> o.error == WriteFailed)
    {
      if * {
        return Crashed;
      }
      return Refused(WriteFailed);
    }

    /** `LoadStore`; `readable` says whether the file can be read at this moment. */
    method LoadDevices(readable: bool) returns (o: Outcome<seq<DeviceRecord>, TrustError>)
      ensures o.Done? ==> readable && devices == Readable(o.value)
      ensures o.Refused? ==> o.error == UnreadableStore && (devices.Torn? || !readable)
    {
      if * {
        return Crashed;
      }
      if devices.Torn? || !readable {
        return Refused(UnreadableStore);
      }
      return Done(devices.items);
    }

    /** `LookupDevice`, with its loop. */
    method LookupDevice(deviceId: string, readable: bool) returns (o: Outcome<Option<DeviceRecord>, TrustError>)
      requires Valid()
      ensures o.Done? ==>
                && readable && devices.Readable?
                && match IndexOf(devices.items, deviceId)
                   case None => o.value == None && LastFor(due, deviceId).None?
                   case Some(i) => i < |devices.items| && o.value == Some(devices.items[i])
                                   && LastFor(due, deviceId).Some? && o.value.value.trustState == StateAfter(due, deviceId)
      ensures o.Refused? ==> o.error == UnreadableStore && (devices.Torn? || !readable)
    {
      hide Chained, Replay, LastFor;
      var records :- LoadDevices(readable);
      StoreIsLastEvent(due, records, deviceId);
      IndexOfFinds(records, deviceId);
      for i := 0 to |records|
        invariant forall k :: 0 <= k < i ==> records[k].deviceId != deviceId
      {
        if records[i].deviceId == deviceId {
          return Done(Some(records[i]));
        }
      }
      return Done(None);
    }

    /** `VerifyDevice` */
    method VerifyDevice(accountId: string, deviceId: string, displayLabel: string, publicIdentityKey: string, source: string,
                        eventId: string, now: Timestamp) returns (o: Outcome<DeviceRecord, TrustError>)
      requires Valid()
      modifies this
      ensures unrecorded == old(unrecorded)
      ensures old(history) <= history
      ensures Valid() && candidates == old(candidates)
      ensures o == Refused(MissingArgument) <==> TrimSpace(deviceId) == "" || TrimSpace(publicIdentityKey) == ""
      ensures o.Done? ==>
                && old(devices).Readable? && clean == old(clean)
                && o.value == DeviceRecord(accountId, deviceId, displayLabel, publicIdentityKey, lib.fingerprint(publicIdentityKey),
                                           STATE_VERIFIED, FirstSeenOf(old(devices).items, deviceId, now), now)
                && devices == Readable(Put(old(devices).items, o.value))
                && history == old(history) + [Entry(Event(eventId, DEVICE_VERIFIED, accountId, deviceId,
                                                          StateAfter(old(due), deviceId), STATE_VERIFIED,
                                                          o.value.fingerprint, now, source, "manual fingerprint verification"))]
      ensures Observations(Entries(history)) == Observations(Entries(old(history))) && (clean ==> old(clean))
    {
      hide Chained, Replay, LastFor, TrimSpace, Observations, Entries;
      if TrimSpace(deviceId) == "" {
        return Refused(MissingArgument);
      }
      if TrimSpace(publicIdentityKey) == "" {
        return Refused(MissingArgument);
      }
      var fp := lib.fingerprint(publicIdentityKey);
      var readable: bool := *;
      var records :- LoadDevices(readable);
      StoreIsLastEvent(due, records, deviceId);
      IndexOfFinds(records, deviceId);
      var previous, updated := STATE_UNKNOWN, false;
      var record := DeviceRecord(accountId, deviceId, displayLabel, publicIdentityKey, fp, STATE_VERIFIED, now, now);
      var store := records;
      for i := 0 to |records|
        invariant !updated && store == records && previous == STATE_UNKNOWN && record.firstSeenAt == now
        invariant record == DeviceRecord(accountId, deviceId, displayLabel, publicIdentityKey, fp, STATE_VERIFIED, now, now)
        invariant forall k :: 0 <= k < i ==> records[k].deviceId != deviceId
      {
        if records[i].deviceId == deviceId {
          var existing := records[i];
          previous := existing.trustState;
          if existing.firstSeenAt == "" {
            existing := existing.(firstSeenAt := now);
          }
          record := existing.(lastSeenAt := now, accountId := accountId, displayLabel := displayLabel,
                              publicIdentityKey := publicIdentityKey, fingerprint := fp, trustState := STATE_VERIFIED);
          store := store[i := record];
          updated := true;
          break;
        }
      }
      if !updated {
        store := store + [record];
      }
      var event := Event(eventId, DEVICE_VERIFIED, accountId, deviceId, previous, STATE_VERIFIED, fp, now, source,
                         "manual fingerprint verification");
      VerificationExtends(due, event);
      PutReplays(due, records, record, event);
      CommitKeepsObservations(history, event);
      var _ :- Commit(store, event);
      return Done(record);
    }

    /** `MarkDeviceChanged` */
    method MarkDeviceChanged(deviceId: string, newPublicIdentityKey: string, source: string, eventId: string, now: Timestamp)
        returns (o: Outcome<DeviceRecord, TrustError>)
      requires Valid()
      modifies this
      ensures unrecorded == old(unrecorded)
      ensures old(history) <= history
      ensures Valid() && candidates == old(candidates)
      ensures o == Refused(MissingArgument) <==> TrimSpace(deviceId) == "" || TrimSpace(newPublicIdentityKey) == ""
      ensures o == Refused(DeviceNotFound) ==> LastFor(old(due), deviceId).None? && history == old(history) && devices == old(devices)
      ensures o.Done? ==>
                && old(devices).Readable? && clean == old(clean) && LastFor(old(due), deviceId).Some?
                && (exists before ::
                      && before in old(devices).items && before.deviceId == deviceId
                      && o.value == before.(publicIdentityKey := newPublicIdentityKey,
                                            fingerprint := lib.fingerprint(newPublicIdentityKey),
                                            trustState := STATE_CHANGED, lastSeenAt := now))
                && devices == Readable(Put(old(devices).items, o.value))
                && history == old(history) + [Entry(Event(eventId, DEVICE_KEY_CHANGED, o.value.accountId, deviceId,
                                                          StateAfter(old(due), deviceId), STATE_CHANGED,
                                                          o.value.fingerprint, now, source, "simulated device key change"))]
      ensures Observations(Entries(history)) == Observations(Entries(old(history))) && (clean ==> old(clean))
    {
      hide Chained, Replay, LastFor, TrimSpace, Observations, Entries;
      if TrimSpace(deviceId) == "" {
        return Refused(MissingArgument);
      }
      if TrimSpace(newPublicIdentityKey) == "" {
        return Refused(MissingArgument);
      }
      var newFingerprint := lib.fingerprint(newPublicIdentityKey);
      var readable: bool := *;
      var records :- LoadDevices(readable);
      StoreIsLastEvent(due, records, deviceId);
      IndexOfFinds(records, deviceId);
      for i := 0 to |records|
        invariant forall k :: 0 <= k < i ==> records[k].deviceId != deviceId
        invariant unchanged(this)
      {
        if records[i].deviceId == deviceId {
          var existing := records[i].(publicIdentityKey := newPublicIdentityKey, fingerprint := newFingerprint,
                                      trustState := STATE_CHANGED, lastSeenAt := now);
          var event := Event(eventId, DEVICE_KEY_CHANGED, existing.accountId, deviceId, records[i].trustState, STATE_CHANGED,
                             newFingerprint, now, source, "simulated device key change");
          KnownDeviceExtends(due, event);
          PutReplays(due, records, existing, event);
          CommitKeepsObservations(history, event);
          var _ :- Commit(records[i := existing], event);
          return Done(existing);
        }
      }
      return Refused(DeviceNotFound);
    }

    /** `RevokeDevice` */
    method RevokeDevice(deviceId: string, source: string, eventId: string, now: Timestamp)
        returns (o: Outcome<DeviceRecord, TrustError>)
      requires Valid()
      modifies this
      ensures unrecorded == old(unrecorded)
      ensures old(history) <= history
      ensures Valid() && candidates == old(candidates)
      ensures o == Refused(MissingArgument) <==> TrimSpace(deviceId) == ""
      ensures o == Refused(DeviceNotFound) ==> LastFor(old(due), deviceId).None? && history == old(history) && devices == old(devices)
      ensures o.Done? ==>
                && old(devices).Readable? && clean == old(clean) && LastFor(old(due), deviceId).Some?
                && (exists before ::
                      && before in old(devices).items && before.deviceId == deviceId
                      && o.value == before.(trustState := STATE_REVOKED, lastSeenAt := now))
                && devices == Readable(Put(old(devices).items, o.value))
                && history == old(history) + [Entry(Event(eventId, DEVICE_REVOKED, o.value.accountId, deviceId,
                                                          StateAfter(old(due), deviceId), STATE_REVOKED,
                                                          o.value.fingerprint, now, source, "manual development revocation"))]
      ensures Observations(Entries(history)) == Observations(Entries(old(history))) && (clean ==> old(clean))
    {
      hide Chained, Replay, LastFor, TrimSpace, Observations, Entries;
      if TrimSpace(deviceId) == "" {
        return Refused(MissingArgument);
      }
      var readable: bool := *;
      var records :- LoadDevices(readable);
      StoreIsLastEvent(due, records, deviceId);
      IndexOfFinds(records, deviceId);
      for i := 0 to |records|
        invariant forall k :: 0 <= k < i ==> records[k].deviceId != deviceId
        invariant unchanged(this)
      {
        if records[i].deviceId == deviceId {
          var existing := records[i].(trustState := STATE_REVOKED, lastSeenAt := now);
          var event := Event(eventId, DEVICE_REVOKED, existing.accountId, deviceId, records[i].trustState, STATE_REVOKED,
                             existing.fingerprint, now, source, "manual development revocation");
          KnownDeviceExtends(due, event);
          PutReplays(due, records, existing, event);
          CommitKeepsObservations(history, event);
          var _ :- Commit(records[i := existing], event);
          return Done(existing);
        }
      }
      return Refused(DeviceNotFound);
    }

    /** `EvaluateSend`. Strict sending is allowed exactly to a device whose last device event is a
        verification; otherwise only a revoked device blocks it. */
    method EvaluateSend(recipientDeviceId: string, strict: bool) returns (o: Outcome<SendDecision, TrustError>)
      requires Valid()
      ensures o.Done? ==>
                && o.value.trustState == StateAfter(due, recipientDeviceId)
                && var last := LastFor(due, recipientDeviceId);
                   && (strict ==> (o.value.allowed <==> last.Some? && last.value.eventType == DEVICE_VERIFIED))
                   && (!strict ==> (o.value.allowed <==> !(last.Some? && last.value.eventType == DEVICE_REVOKED)))
      ensures clean ==> due == Entries(history)
      ensures o.Refused? ==> o.error == UnreadableStore
    {
      hide Chained, Replay, LastFor;
      ChainedStates(due, recipientDeviceId);
      var readable: bool := *;
      var found :- LookupDevice(recipientDeviceId, readable);
      TrustEvents.StatesDiffer();
      if found.None? {
        return Done(SendDecision(!strict, STATE_UNKNOWN));
      }
      var record := found.value;
      if record.trustState == STATE_VERIFIED {
        return Done(SendDecision(true, STATE_VERIFIED));
      } else if record.trustState == STATE_REVOKED || record.trustState == STATE_COMPROMISED {
        return Done(SendDecision(false, record.trustState));
      } else if record.trustState == STATE_CHANGED {
        return Done(SendDecision(!strict, STATE_CHANGED));
      }
      return Done(SendDecision(!strict, record.trustState));
    }

    /** `AppendProviderEvent`, which does not filter. */
    method AppendProviderEvent(draft: Draft, eventId: string, now: Timestamp) returns (o: Outcome<Event, TrustError>)
      requires Valid()
      modifies this
      ensures unrecorded == old(unrecorded)
      ensures old(history) <= history
      ensures Valid() && devices == old(devices) && candidates == old(candidates)
      ensures o == Refused(InvalidDraft) <==> TrimSpace(draft.eventType) == ""
      ensures o.Done? ==>
                && o.value.eventId == eventId && o.value.eventType == TrimSpace(draft.eventType)
                && o.value.accountId == draft.accountId && o.value.deviceId == draft.deviceId
                && o.value.previousTrustState == draft.previousTrustState && o.value.newTrustState == draft.newTrustState
                && o.value.fingerprint == draft.fingerprint && o.value.note == draft.note
                && o.value.eventTime == (if TrimSpace(draft.nowUtc) == "" then now else TrimSpace(draft.nowUtc))
                && o.value.source == (if TrimSpace(draft.source) == "" then "provider_event_append" else TrimSpace(draft.source))
      ensures o.Done? ==>
                && BuildProviderEvent(draft, eventId, now) == Done(o.value)
                && history == old(history) + [Entry(o.value)]
                && clean == (old(clean) && !IsDeviceEvent(o.value))
      ensures !o.Done? ==>
                || (o == Refused(InvalidDraft) && history == old(history) && clean == old(clean) && due == old(due))
                || (!clean && BuildProviderEvent(draft, eventId, now).Done?
                    && WroteAtMost(old(history), history, BuildProviderEvent(draft, eventId, now).value))
    {
      hide Chained, Replay, Deduplicated, Consistent, TrimSpace, Entries, LastFor, Project;
      var event :- BuildProviderEvent(draft, eventId, now);
      EntriesAppend(history, Entry(event));
      if * {
        clean := false;
        if * {
          history := history + [Damaged];
        } else if * {
          history := history + [Entry(event)];
        }
        if * {
          return Crashed;
        }
        return Refused(WriteFailed);
      }
      history := history + [Entry(event)];
      if IsDeviceEvent(event) {
        clean := false;
      } else {
        OtherEventExtends(due, event);
        due := due + [event];
      }
      return Done(event);
    }

    /** `AppendIdentityCandidateHistoryEvent` and `AppendIdentityRecoveryHistoryEvent`: whatever the draft
        says, no device event is appended. */
    method AppendFiltered(draft: Draft, fallbackSource: string, eventId: string, now: Timestamp)
        returns (o: Outcome<Event, TrustError>)
      requires Valid() && fallbackSource != "" && TrimSpace(fallbackSource) == fallbackSource
      modifies this
      ensures unrecorded == old(unrecorded)
      ensures old(history) <= history
      ensures Valid() && devices == old(devices) && candidates == old(candidates)
      ensures o == Refused(InvalidDraft)
              <==> TrimSpace(draft.eventType) in {"", "device_verified", "device_key_changed", "device_revoked"}
      ensures o.Done? ==>
                && o.value.eventId == eventId && o.value.eventType == TrimSpace(draft.eventType)
                && o.value.accountId == draft.accountId && o.value.deviceId == draft.deviceId
                && o.value.previousTrustState == draft.previousTrustState && o.value.newTrustState == draft.newTrustState
                && o.value.fingerprint == draft.fingerprint && o.value.note == draft.note
                && o.value.eventTime == (if TrimSpace(draft.nowUtc) == "" then now else TrimSpace(draft.nowUtc))
                && o.value.source == (if TrimSpace(draft.source) == "" then fallbackSource else TrimSpace(draft.source))
      ensures o.Done? ==>
                && FilteredEvent(draft, fallbackSource, eventId, now) == Done(o.value)
                && !IsDeviceEvent(o.value) && o.value.eventType == TrimSpace(draft.eventType)
                && o.value.source == OrElse(TrimSpace(draft.source), fallbackSource)
                && history == old(history) + [Entry(o.value)] && clean == old(clean)
      ensures !o.Done? ==>
                || (o == Refused(InvalidDraft) && history == old(history) && clean == old(clean))
                || (!clean && FilteredEvent(draft, fallbackSource, eventId, now).Done?
                    && WroteAtMost(old(history), history, FilteredEvent(draft, fallbackSource, eventId, now).value))
    {
      hide Chained, Replay, Deduplicated, Consistent, TrimSpace, Entries, LastFor, Project;
      TrimSpaceTwice(draft.eventType);
      TrimSpaceTwice(draft.source);
      var provider :- ProviderDraft(draft, fallbackSource);
      FilteredDraftIsNoDeviceEvent(draft, fallbackSource, eventId, now);
      o := AppendProviderEvent(provider, eventId, now);
    }

    /** `LoadIdentityCandidateStore` */
    method LoadCandidates() returns (o: Outcome<seq<Candidate>, TrustError>)
      ensures o.Done? ==> candidates == Readable(o.value)
      ensures o.Refused? ==> o.error == UnreadableStore
    {
      if * {
        return Crashed;
      }
      var readable: bool := *;
      if candidates.Torn? || !readable {
        return Refused(UnreadableStore);
      }
      return Done(candidates.items);
    }

    /** `SaveIdentityCandidateStore` */
    method SaveCandidates(updated: seq<Candidate>) returns (o: Outcome<(), TrustError>)
      requires Valid() && Deduplicated(updated)
      modifies this
      ensures unrecorded == old(unrecorded)
      ensures Valid() && devices == old(devices) && history == old(history) && due == old(due)
      ensures o.Done? ==> candidates == Readable(updated) && clean == old(clean)
      ensures !o.Done? ==> !clean && (candidates == old(candidates) || candidates == Torn || candidates == Readable(updated))
      ensures o.Refused? ==> o.error == WriteFailed
    {
      hide Chained, Replay, Deduplicated, Consistent, Entries, Project;
      if * {
        clean := false;
        if * {
          candidates := Torn;
        } else if * {
          candidates := Readable(updated);
        }
        o := Failed();
        return;
      }
      candidates := Readable(updated);
      return Done(());
    }

    /** `AddIdentityCandidate`: the candidate stored under this key, and whether it is new. */
    method AddCandidate(c: Candidate, now: Timestamp) returns (o: Outcome<(Candidate, bool), TrustError>)
      requires Valid()
      modifies this
      ensures unrecorded == old(unrecorded)
      ensures Valid() && devices == old(devices) && history == old(history) && due == old(due)
      ensures o == Refused(InvalidCandidate) <==> !Normalize(c, lib.digest, now).Done?
      ensures o.Done? ==>
                && old(candidates).Readable? && clean == old(clean)
                && IsNormal(o.value.0) && DedupeKey(o.value.0) == DedupeKey(c)
                && (o.value.1 <==> forall e :: e in old(candidates).items ==> DedupeKey(e) != DedupeKey(c))
                && (o.value.1 ==> Normalize(c, lib.digest, now) == Done(o.value.0)
                                  && candidates == Readable(old(candidates).items + [o.value.0]))
                && (!o.value.1 ==> o.value.0 in old(candidates).items && candidates == old(candidates))
      ensures clean ==> old(clean)
      ensures !o.Done? && candidates != old(candidates) ==>
                && !clean && old(candidates).Readable? && Normalize(c, lib.digest, now).Done?
                && (forall e :: e in old(candidates).items ==> DedupeKey(e) != DedupeKey(c))
                && (candidates == Torn || candidates == Readable(old(candidates).items + [Normalize(c, lib.digest, now).value]))
    {
      hide Chained, Replay, Consistent, Entries, Project, DedupeKey, IsNormal, Normalize;
      NormalizeRefuses(c, lib.digest, now);
      var normalized :- Normalize(c, lib.digest, now);
      NormalizeResult(c, lib.digest, now);
      var stored :- LoadCandidates();
      for i := 0 to |stored|
        invariant forall k :: 0 <= k < i ==> DedupeKey(stored[k]) != DedupeKey(normalized)
        invariant unchanged(this)
      {
        if DedupeKey(stored[i]) == DedupeKey(normalized) {
          return Done((stored[i], false));
        }
      }
      var _ :- SaveCandidates(stored + [normalized]);
      return Done((normalized, true));
    }

    /** How many stored candidates have no observation event. */
    ghost function Gap(): int
      requires candidates.Readable?
      reads this
    {
      |candidates.items| - Observations(Entries(history))
    }

    /** Each observation event belongs to a stored candidate. While no write failed, the candidates
        without one are exactly the first observations that ended before recording it. */
    ghost predicate Accounted()
      reads this
    {
      candidates.Readable? ==> Gap() >= 0 && (clean ==> Gap() == unrecorded)
    }

    /** `ObserveIdentityCandidate`; `trustReadable` says whether `trust.json` can be read in it. */
    method ObserveCandidate(c: Candidate, note: string, trustReadable: bool, eventId: string, now: Timestamp)
        returns (o: Outcome<(Candidate, bool, Decision), TrustError>)
      requires Valid() && Accounted()
      modifies this
      ensures old(history) <= history && (clean ==> old(clean))
      ensures Valid() && Accounted() && devices == old(devices)
      ensures CandidatesGrow(old(candidates), candidates)
      ensures candidates.Readable? ==> Gap() >= old(Gap())
      ensures unrecorded == old(unrecorded) || unrecorded == old(unrecorded) + 1
      ensures clean && unrecorded != old(unrecorded) ==>
                && !o.Done? && history == old(history) && due == old(due)
                && old(candidates).Readable? && Normalize(c, lib.digest, now).Done?
                && candidates == Readable(old(candidates).items + [Normalize(c, lib.digest, now).value])
                && (forall e :: e in old(candidates).items ==> DedupeKey(e) != DedupeKey(c))
                && (o.Refused? ==> !trustReadable && TrimSpace(c.claimedDeviceId) != "")
      ensures clean && candidates != old(candidates) && !trustReadable && TrimSpace(c.claimedDeviceId) != "" ==>
                unrecorded == old(unrecorded) + 1
      ensures o.Done? ==>
                && old(candidates).Readable? && DedupeKey(o.value.0) == DedupeKey(c) && unrecorded == old(unrecorded)
                && DecidedBy(LastFor(old(due), o.value.0.claimedDeviceId), old(devices), o.value.0, o.value.2)
                && (o.value.1 <==> forall e :: e in old(candidates).items ==> DedupeKey(e) != DedupeKey(c))
                && (!o.value.1 ==> o.value.0 in old(candidates).items
                                   && candidates == old(candidates) && history == old(history) && due == old(due))
                && (o.value.1 ==> |history| == |old(history)| + 1 && history[..|old(history)|] == old(history)
                                  && history[|old(history)|].Entry? && IsObservation(history[|old(history)|].event)
                                  && ObservedAs(history[|old(history)|].event, o.value.0,
                                                TrimSpace(o.value.0.claimedDeviceId) != ""
                                                && LastFor(old(due), o.value.0.claimedDeviceId).Some?, o.value.2, note, eventId, now)
                                  && candidates == Readable(old(candidates).items + [o.value.0]))
      ensures old(candidates).Readable? && (exists e :: e in old(candidates).items && DedupeKey(e) == DedupeKey(c)) ==>
                candidates == old(candidates) && history == old(history) && due == old(due) && unrecorded == old(unrecorded)
    {
      hide Chained, Replay, Consistent, Project, DedupeKey, IsNormal, Normalize, LastFor, ClassifyKnown, Deduplicated,
        Observations, Entries, FilteredEvent, ProviderDraft, IsObservation, IsDeviceEvent, Evolves, TrimSpace;
      SourcesAreTrimmed();
      AddingEvolves(candidates);
      NormalizeClaims(c, lib.digest, now);
      var stored :- AddCandidate(c, now);
      var classified := ClassifyStored(stored.0, trustReadable);
      if !classified.Done? {
        if stored.1 {
          unrecorded := unrecorded + 1;
        }
        return classified.PropagateFailure();
      }
      o := RecordObservation(stored.0, stored.1, classified.value.0, classified.value.1, note, eventId, now);
    }

    /** The middle of `ObserveIdentityCandidate`: whether the claimed device is known, and the decision. */
    method ClassifyStored(c: Candidate, trustReadable: bool) returns (o: Outcome<(bool, Decision), TrustError>)
      requires Valid()
      ensures !o.Done? ==> TrimSpace(c.claimedDeviceId) != ""
      ensures !trustReadable && TrimSpace(c.claimedDeviceId) != "" ==> !o.Done?
      ensures o.Refused? ==> devices.Torn? || !trustReadable
      ensures o.Done? ==> DecidedBy(LastFor(due, c.claimedDeviceId), devices, c, o.value.1)
      ensures o.Done? ==>
                && (o.value.0 <==> TrimSpace(c.claimedDeviceId) != "" && LastFor(due, c.claimedDeviceId).Some?)
                && (o.value.0 ==> o.value.1.knownTrustState == StateAfter(due, c.claimedDeviceId))
                && (!o.value.0 ==> o.value.1 == ClassifyUnknown())
    {
      hide Chained, Replay, Consistent, Project, LastFor, TrimSpace, MaterialMatches, Deduplicated, Entries;
      if TrimSpace(c.claimedDeviceId) != "" {
        var found :- LookupDevice(c.claimedDeviceId, trustReadable);
        if found.Some? {
          var known := found.value;
          StoreIsLastEvent(due, devices.items, c.claimedDeviceId);
          IndexOfFinds(devices.items, c.claimedDeviceId);
          ChainedStates(due, c.claimedDeviceId);
          DecidesOn(LastFor(due, c.claimedDeviceId).value, known, c);
          return Done((true, ClassifyKnown(MaterialMatches(c, known.fingerprint, known.publicIdentityKey), known.trustState)));
        }
      }
      return Done((false, ClassifyUnknown()));
    }

    /** The end of `ObserveIdentityCandidate`: a new candidate is recorded in the history. */
    method RecordObservation(c: Candidate, added: bool, known: bool, decision: Decision, note: string, eventId: string, now: Timestamp)
        returns (o: Outcome<(Candidate, bool, Decision), TrustError>)
      requires Valid() && IsNormal(c)
      modifies this
      ensures unrecorded == old(unrecorded)
      ensures old(history) <= history && (clean ==> old(clean))
      ensures Valid() && devices == old(devices) && candidates == old(candidates)
      ensures !added ==> history == old(history) && due == old(due) && clean == old(clean)
      ensures o.Done? ==> o.value == (c, added, decision) && clean == old(clean)
      ensures o.Done? && added ==>
                && |history| == |old(history)| + 1 && history[..|old(history)|] == old(history)
                && history[|old(history)|].Entry? && IsObservation(history[|old(history)|].event)
                && ObservedAs(history[|old(history)|].event, c, known, decision, note, eventId, now)
                && Observations(Entries(history)) == Observations(Entries(old(history))) + 1
      ensures !o.Done? && added ==> !clean && Observations(Entries(history)) <= Observations(Entries(old(history))) + 1
    {
      hide Chained, Replay, Consistent, Project, IsNormal, LastFor, Deduplicated, Observations, Entries, ProviderDraft,
        BuildProviderEvent, IsObservation, TrimSpace, IsReserved;
      if !added {
        return Done((c, added, decision));
      }
      SourcesAreTrimmed();
      ObservationsAreAppended(c, known, decision, note, eventId, now);
      var draft := ObservationDraft(c, known, decision, note);
      OneMoreObservation(history, FilteredEvent(draft, HISTORY_FALLBACK, eventId, now).value);
      MismatchTypesAreFree(decision.mismatch);
      MismatchTypesAreFree(CandidateOnly);
      var _ :- AppendFiltered(draft, HISTORY_FALLBACK, eventId, now);
      return Done((c, added, decision));
    }

    /** `UpdateIdentityCandidateState` */
    method UpdateCandidateState(review: Review, now: Timestamp) returns (o: Outcome<Candidate, TrustError>)
      requires Valid()
      modifies this
      ensures unrecorded == old(unrecorded)
      ensures Valid() && devices == old(devices) && history == old(history) && due == old(due) && (clean ==> old(clean))
      ensures CandidatesGrow(old(candidates), candidates)
      ensures candidates.Readable? ==> |candidates.items| == |old(candidates).items|
      ensures o.Done? ==>
                && old(candidates).Readable? && clean == old(clean)
                && NormalizeReview(review, lib.digest, now).Done?
                && var update := NormalizeReview(review, lib.digest, now).value;
                   exists i ::
                     && IsFirstMatch(old(candidates).items, update, i)
                     && IsAllowedTransition(old(candidates).items[i].candidateState, update.newState)
                     && o.value == old(candidates).items[i].(candidateState := update.newState,
                                                             note := ReviewedNote(old(candidates).items[i].note, update))
                     && candidates == Readable(old(candidates).items[i := o.value])
      ensures o == Refused(CandidateNotFound) || o == Refused(InvalidTransition) ==>
                && candidates == old(candidates) && old(candidates).Readable?
                && NormalizeReview(review, lib.digest, now).Done?
                && var update := NormalizeReview(review, lib.digest, now).value;
                   && (o.error == CandidateNotFound ==> forall c :: c in candidates.items ==> !MatchesReview(c, update))
                   && (o.error == InvalidTransition ==>
                         exists i :: IsFirstMatch(candidates.items, update, i)
                                     && !IsAllowedTransition(candidates.items[i].candidateState, update.newState))
    {
      hide Chained, Replay, Consistent, Project, NormalizeReview, MatchesReview, IsAllowedTransition, ReviewedNote, IsNormal, DedupeKey,
        Entries, Evolves, TrimSpace;
      ReviewRefuses(review, lib.digest, now);
      NothingEvolves(candidates);
      var update :- NormalizeReview(review, lib.digest, now);
      var stored :- LoadCandidates();
      var index := -1;
      for i := 0 to |stored|
        invariant index == -1 && forall k :: 0 <= k < i ==> !MatchesReview(stored[k], update)
        invariant unchanged(this)
      {
        if MatchesReview(stored[i], update) {
          index := i;
          break;
        }
      }
      if index < 0 {
        return Refused(CandidateNotFound);
      }
      assert IsFirstMatch(stored, update, index);
      var current := stored[index];
      NormalState(current);
      var currentState := OrElse(TrimSpace(current.candidateState), OBSERVED);
      if !IsAllowedTransition(currentState, update.newState) {
        return Refused(InvalidTransition);
      }
      var reviewed := current.(candidateState := update.newState, note := ReviewedNote(current.note, update));
      ReviewStepEvolves(current, update.newState, reviewed.note);
      ReplacingEvolves(stored, index, reviewed);
      var _ :- SaveCandidates(stored[index := reviewed]);
      return Done(reviewed);
    }

    /** `OrchestrateIdentityRecovery`, given its classification: whether an event was appended. */
    method OrchestrateRecovery(classification: string, note: string, disableAppend: bool, appendClean: bool,
                               eventId: string, now: Timestamp) returns (o: Outcome<bool, TrustError>)
      requires Valid()
      modifies this
      ensures unrecorded == old(unrecorded)
      ensures old(history) <= history
      ensures Valid() && devices == old(devices) && candidates == old(candidates) && (clean ==> old(clean))
      ensures Observations(Entries(history)) == Observations(Entries(old(history)))
      ensures o.Done? && !o.value ==> history == old(history) && clean == old(clean)
      ensures disableAppend ==> o == Done(false)
      ensures !disableAppend && !appendClean && (TrimSpace(classification) == "" || classification == "recovery_clean_local_state") ==>
                o == Done(false)
      ensures o.Done? ==>
                (o.value <==> && !disableAppend
                              && (appendClean || (TrimSpace(classification) != "" && classification != "recovery_clean_local_state")))
      ensures o == Refused(InvalidDraft) <==>
                && !disableAppend && TrimSpace(classification) !in RECOVERY_TYPES
                && (appendClean || (TrimSpace(classification) != "" && classification != "recovery_clean_local_state"))
      ensures o.Done? && o.value ==>
                && |history| == |old(history)| + 1
                && history[|old(history)|] == Entry(Event(eventId, TrimSpace(classification), "", "", "", classification, "", now,
                                                          "identity_recovery_classifier", note))
      ensures o.Done? && o.value ==>
                && |history| == |old(history)| + 1 && history[..|old(history)|] == old(history)
                && history[|old(history)|].Entry? && !IsDeviceEvent(history[|old(history)|].event)
                && history[|old(history)|].event.eventType == TrimSpace(classification)
    {
      hide Chained, Replay, Consistent, Project, LastFor, Deduplicated, Observations, Entries, ProviderDraft,
        BuildProviderEvent, IsReserved, TrimSpace;
      if disableAppend {
        return Done(false);
      }
      if (TrimSpace(classification) == "" || classification == CLEAN_LOCAL_STATE) && !appendClean {
        return Done(false);
      }
      if TrimSpace(classification) !in RECOVERY_TYPES {
        return Refused(InvalidDraft);
      }
      RecoveryIsNoObservation(classification, note, eventId, now);
      RecoveryTypesAreFree(TrimSpace(classification));
      RecoverySources();
      TrimSpaceTwice(classification);
      var draft := RecoveryDraft(classification, note);
      NoObservation(history, FilteredEvent(draft, RECOVERY_FALLBACK, eventId, now));
      var _ :- AppendFiltered(draft, RECOVERY_FALLBACK, eventId, now);
      return Done(true);
    }
  }

  const CLEAN_LOCAL_STATE := "recovery_clean_local_state"
  const RECOVERY_TYPES := [
    CLEAN_LOCAL_STATE, "recovery_missing_trust_store", "recovery_missing_trust_history", "recovery_missing_candidate_store",
    "recovery_corrupt_trust_store", "recovery_corrupt_trust_history", "recovery_corrupt_candidate_store",
    "recovery_provider_identity_mismatch", "recovery_candidate_conflict", "recovery_requires_reverify",
    "recovery_requires_reenrollment", "recovery_blocked_revoked", "recovery_blocked_compromised"]
  const RECOVERY_SOURCE := "identity_recovery_classifier"
  const RECOVERY_FALLBACK := "identity_recovery_history"

  /** `BuildIdentityRecoveryHistoryDraft` */
  function RecoveryDraft(classification: string, note: string): Draft {
    Draft(TrimSpace(classification), "", "", "", classification, "", RECOVERY_SOURCE, note, "")
  }

  ghost predicate IsFirstMatch(items: seq<Candidate>, update: Review, i: int) {
    0 <= i < |items| && MatchesReview(items[i], update) && forall k :: 0 <= k < i ==> !MatchesReview(items[k], update)
  }

  lemma ReviewRefuses(review: Review, digest: string -> ShortDigest, now: Timestamp)
    ensures var n := NormalizeReview(review, digest, now);
            && !n.Crashed? && (n.Refused? ==> n.error == InvalidCandidate)
            && (n.Done? ==> IsAllowedState(n.value.newState))
  {
  }

  lemma NothingEvolves(file: File<Candidate>)
    ensures CandidatesGrow(file, file) && CandidatesGrow(file, Torn)
  {
  }

  lemma NormalState(c: Candidate)
    requires IsNormal(c)
    ensures OrElse(TrimSpace(c.candidateState), OBSERVED) == c.candidateState
  {
    AllowedStateIsTrimmed(c.candidateState);
  }

  lemma ReplacingEvolves(items: seq<Candidate>, i: nat, c: Candidate)
    requires i < |items| && Deduplicated(items) && Evolves(items[i], c) && IsNormal(c) && DedupeKey(c) == DedupeKey(items[i])
    ensures Deduplicated(items[i := c]) && Evolved(items, items[i := c])
  {
    hide DedupeKey, IsNormal;
  }

  lemma RecoveryIsNoObservation(classification: string, note: string, eventId: string, now: Timestamp)
    ensures RECOVERY_FALLBACK != "" && TrimSpace(RECOVERY_FALLBACK) == RECOVERY_FALLBACK
    ensures TrimSpace(TrimSpace(classification)) == TrimSpace(classification)
    ensures var e := FilteredEvent(RecoveryDraft(classification, note), RECOVERY_FALLBACK, eventId, now);
            e.Done? ==> !IsObservation(e.value)
  {
    hide TrimSpace, IsReserved;
    TrimSpaceTwice(classification);
    RecoverySources();
    var draft := RecoveryDraft(classification, note);
    if ProviderDraft(draft, RECOVERY_FALLBACK).Done? {
      FilteredDraftIsNoDeviceEvent(draft, RECOVERY_FALLBACK, eventId, now);
    }
  }

  lemma RecoveryTypesAreFree(t: string)
    requires t in RECOVERY_TYPES
    ensures t !in {"", "device_verified", "device_key_changed", "device_revoked"}
  {
    assert t[0] == 'r' && "device_verified"[0] == 'd' && "device_key_changed"[0] == 'd' && "device_revoked"[0] == 'd';
  }

  lemma RecoverySources()
    ensures RECOVERY_FALLBACK != "" && TrimSpace(RECOVERY_FALLBACK) == RECOVERY_FALLBACK
    ensures RECOVERY_SOURCE != "" && TrimSpace(RECOVERY_SOURCE) == RECOVERY_SOURCE && TrimSpace("") == ""
    ensures RECOVERY_SOURCE != CANDIDATE_SOURCE && RECOVERY_SOURCE != CLASSIFIER_SOURCE
  {
    assert RECOVERY_FALLBACK[0] == 'i' && RECOVERY_FALLBACK[|RECOVERY_FALLBACK| - 1] == 'y';
    assert RECOVERY_SOURCE[0] == 'i' && RECOVERY_SOURCE[|RECOVERY_SOURCE| - 1] == 'r';
    assert RECOVERY_SOURCE[9] == 'r' && CANDIDATE_SOURCE[9] == 'c' && CLASSIFIER_SOURCE[9] == 'm';
    TrimmedWord(RECOVERY_FALLBACK);
    TrimmedWord(RECOVERY_SOURCE);
  }

  lemma NoObservation(lines: seq<Line>, e: Outcome<Event, TrustError>)
    requires e.Done? ==> !IsObservation(e.value)
    ensures e.Done? ==> Observations(Entries(lines + [Entry(e.value)])) == Observations(Entries(lines))
    ensures Observations(Entries(lines + [Damaged])) == Observations(Entries(lines))
  {
    EntriesAppend(lines, Damaged);
    assert Entries(lines) + [] == Entries(lines);
    if e.Done? {
      EntriesAppend(lines, Entry(e.value));
      ObservationsAppend(Entries(lines), e.value);
    }
  }

  /** What may become of the candidate file. */
  ghost predicate CandidatesGrow(before: File<Candidate>, after: File<Candidate>) {
    after.Readable? ==> before.Readable? && Evolved(before.items, after.items)
  }

  lemma AddingEvolves(file: File<Candidate>)
    ensures CandidatesGrow(file, file)
    ensures file.Readable? ==> forall c :: CandidatesGrow(file, Readable(file.items + [c]))
  {
  }

  lemma NormalizeRefuses(c: Candidate, digest: string -> ShortDigest, now: Timestamp)
    ensures var n := Normalize(c, digest, now); !n.Crashed? && (n.Refused? ==> n.error == InvalidCandidate)
  {
  }

  lemma NormalizeClaims(c: Candidate, digest: string -> ShortDigest, now: Timestamp)
    ensures Normalize(c, digest, now).Done? ==>
              TrimSpace(Normalize(c, digest, now).value.claimedDeviceId) == TrimSpace(c.claimedDeviceId)
  {
    TrimSpaceTwice(c.claimedDeviceId);
  }

  lemma OneMoreObservation(lines: seq<Line>, e: Event)
    requires IsObservation(e)
    ensures Observations(Entries(lines + [Entry(e)])) == Observations(Entries(lines)) + 1
    ensures Observations(Entries(lines + [Damaged])) == Observations(Entries(lines))
  {
    EntriesAppend(lines, Entry(e));
    EntriesAppend(lines, Damaged);
    assert Entries(lines) + [] == Entries(lines);
    ObservationsAppend(Entries(lines), e);
  }

  /** One command, with what its caller gives. */
  datatype Command =
    | Verify(accountId: string, deviceId: string, displayLabel: string, key: string, source: string)
    | Change(deviceId: string, key: string, source: string)
    | Revoke(deviceId: string, source: string)
    | Send(deviceId: string, strict: bool)
    | Observe(candidate: Candidate, note: string, trustReadable: bool)
    | UpdateState(review: Review)
    | Recover(classification: string, note: string, disableAppend: bool, appendClean: bool)

  method RunCommand(t: Trust, command: Command)
    requires t.Valid() && t.Accounted()
    modifies t
    ensures t.Valid() && t.Accounted() && (t.clean ==> old(t.clean))
    ensures CandidatesGrow(old(t.candidates), t.candidates) && old(t.history) <= t.history
    ensures t.candidates.Readable? ==> old(t.candidates).Readable? && t.Gap() >= old(t.Gap())
    ensures old(t.unrecorded) <= t.unrecorded
  {
    hide Chained, Replay, Consistent, Project, LastFor, Deduplicated, Observations, Entries, ProviderDraft, BuildProviderEvent,
      FilteredEvent, IsReserved, TrimSpace, NormalizeReview, MatchesReview, IsAllowedTransition, ReviewedNote, DedupeKey, Evolves,
      FirstSeenOf, Put, IsDeviceEvent, IsObservation, Trust.Valid;
    NothingEvolves(t.candidates);
    var eventId: string, now: Timestamp := *, *;
    match command {
      case Verify(accountId, deviceId, displayLabel, key, source) =>
        var _ := t.VerifyDevice(accountId, deviceId, displayLabel, key, source, eventId, now);
      case Change(deviceId, key, source) =>
        var _ := t.MarkDeviceChanged(deviceId, key, source, eventId, now);
      case Revoke(deviceId, source) =>
        var _ := t.RevokeDevice(deviceId, source, eventId, now);
      case Send(deviceId, strict) =>
        var _ := t.EvaluateSend(deviceId, strict);
      case Observe(candidate, note, trustReadable) =>
        var _ := t.ObserveCandidate(candidate, note, trustReadable, eventId, now);
      case UpdateState(review) =>
        var _ := t.UpdateCandidateState(review, now);
      case Recover(classification, note, disableAppend, appendClean) =>
        var _ := t.OrchestrateRecovery(classification, note, disableAppend, appendClean, eventId, now);
    }
  }

  /** Any commands, each possibly failing or cut short at any write. As long as no write failed, the store
      is the replay of the history on disk, whose states chain, and observation events are as many as
      stored candidates exactly when no first observation ended before recording its event. Candidates
      stay, one per key, and only evolve; the history is only appended to; and a candidate without an
      event never gets one. */
  method RunCommands(t: Trust, commands: seq<Command>)
    requires t.Valid() && t.Accounted()
    modifies t
    ensures t.Valid() && t.Accounted()
    ensures t.clean ==>
              && t.devices.Readable? && Damaged !in t.history
              && Project(t.devices.items) == Replay(Entries(t.history)) && Chained(Entries(t.history))
              && (Observations(Entries(t.history)) == |t.candidates.items| <==> t.unrecorded == 0)
    ensures t.candidates.Readable? ==>
              && Observations(Entries(t.history)) <= |t.candidates.items|
              && old(t.candidates).Readable? && t.Gap() >= old(t.Gap())
    ensures CandidatesGrow(old(t.candidates), t.candidates) && old(t.history) <= t.history
    ensures t.candidates.Readable? ==> Deduplicated(t.candidates.items)
  {
    hide Chained, Replay, Consistent, Project, Deduplicated, Observations, Entries, Evolves, Evolved;
    NothingEvolves(t.candidates);
    for k := 0 to |commands|
      invariant t.Valid() && t.Accounted() && CandidatesGrow(old(t.candidates), t.candidates) && old(t.history) <= t.history
      invariant t.candidates.Readable? ==> old(t.candidates).Readable? && t.Gap() >= old(t.Gap())
    {
      ghost var before := t.candidates;
      RunCommand(t, commands[k]);
      CandidatesGrowTransitive(old(t.candidates), before, t.candidates);
    }
  }

  /** The failing input: a first observation during which `trust.json` cannot be read. Although no write
      fails, its candidate is stored without an event, and observing again when the file can be read
      finds the candidate and appends nothing. */
  method UnreadableStoreLosesTheObservation(t: Trust, c: Candidate, note: string)
      returns (first: Outcome<(Candidate, bool, Decision), TrustError>, again: Outcome<(Candidate, bool, Decision), TrustError>)
    requires t.Valid() && t.Accounted()
    requires TrimSpace(c.claimedDeviceId) != "" && t.candidates.Readable?
    modifies t
    ensures t.Valid() && t.Accounted()
    ensures t.clean && t.candidates != old(t.candidates) && first.Refused? ==>
              && t.candidates.Readable? && |t.candidates.items| == |old(t.candidates).items| + 1
              && t.history == old(t.history) && t.Gap() == old(t.Gap()) + 1
              && (again.Done? ==> !again.value.1)
  {
    hide Chained, Replay, Consistent, Project, Observations, Entries, TrimSpace, Evolves, IsObservation, Deduplicated, DedupeKey,
      Trust.Valid;
    var eventId: string, now: Timestamp := *, *;
    var before := t.candidates;
    first := t.ObserveCandidate(c, note, false, eventId, now);
    again := first;
    if first.Refused? && t.candidates.Readable? && t.candidates != before {
      if Normalize(c, t.lib.digest, now).Done? {
        NormalizeResult(c, t.lib.digest, now);
        assert t.clean && t.candidates != before ==> t.candidates.items[|before.items|] in t.candidates.items;
      }
      again := t.ObserveCandidate(c, note, true, eventId, now);
    }
  }

  lemma CandidatesGrowTransitive(a: File<Candidate>, b: File<Candidate>, c: File<Candidate>)
    requires CandidatesGrow(a, b) && CandidatesGrow(b, c)
    ensures CandidatesGrow(a, c)
  {
    if c.Readable? {
      EvolvedTransitive(a.items, b.items, c.items);
    }
  }

  /** A device event whose line is lost shows: the store then differs from the replay of the history,
      unless the event repeats the last one of its device. */
  lemma LostEventShows(events: seq<Event>, records: seq<DeviceRecord>, e: Event)
    requires IsDeviceEvent(e) && Project(records) == Replay(events + [e])
    ensures Project(records) == Replay(events)
            <==> && LastFor(events, e.deviceId).Some?
                 && var last := LastFor(events, e.deviceId).value;
                    && last.accountId == e.accountId && last.fingerprint == e.fingerprint
                    && last.newTrustState == e.newTrustState && last.eventTime == e.eventTime
  {
    assert (events + [e])[..|events|] == events;
    ReplayIsLastEvent(events, e.deviceId);
    IndexInFinds(Replay(events), e.deviceId);
    LastForIsFor(events, e.deviceId);
    var views := Replay(events);
    match IndexIn(views, e.deviceId) {
      case None => assert |Apply(views, e)| == |views| + 1;
      case Some(i) =>
        assert Apply(views, e)[i] == Seen(e, views[i].firstSeenAt);
        if Seen(e, views[i].firstSeenAt) == views[i] {
          assert views[i := views[i]] == views;
        }
    }
  }

  lemma {:induction false} LastForIsFor(events: seq<Event>, deviceId: string)
    ensures LastFor(events, deviceId).Some? ==> LastFor(events, deviceId).value.deviceId == deviceId
  {
    if events != [] {
      LastForIsFor(events[..|events| - 1], deviceId);
    }
  }

  /** Two device operations that overlap: both load the same records, and the second save overwrites the
      first. The store is still the replay of both events exactly when the first event changed nothing or,
      for one device, its first time seen does not depend on which came first. */
  lemma OverlapLosesAnUpdate(events: seq<Event>, records: seq<DeviceRecord>, r2: DeviceRecord, e1: Event, e2: Event)
    requires Project(records) == Replay(events) && IsDeviceEvent(e1) && IsDeviceEvent(e2) && e2.deviceId == r2.deviceId
    requires ViewOf(r2) == Seen(e2, FirstSeenOf(records, r2.deviceId, e2.eventTime))
    ensures Project(Put(records, r2)) == Replay(events + [e1] + [e2])
            <==> if e1.deviceId == e2.deviceId then IndexOf(records, e2.deviceId).Some? || e1.eventTime == e2.eventTime
                 else Replay(events + [e1]) == Replay(events)
  {
    var views := Replay(events);
    PutReplays(events, records, r2, e2);
    assert (events + [e1])[..|events|] == events && (events + [e1] + [e2])[..|events| + 1] == events + [e1];
    assert (events + [e2])[..|events|] == events;
    ReplayIsDistinct(events);
    ReplayIsDistinct(events + [e1]);
    IndexInFinds(views, e1.deviceId);
    IndexInFinds(views, e2.deviceId);
    IndexInFinds(Apply(views, e1), e2.deviceId);
    var one, both := Apply(views, e2), Apply(Apply(views, e1), e2);
    assert Project(Put(records, r2)) == one && Replay(events + [e1] + [e2]) == both;
    if e1.deviceId == e2.deviceId {
      SameDeviceTwice(views, e1, e2);
    } else {
      OtherDeviceBetween(views, e1, e2);
    }
  }

  lemma SameDeviceTwice(views: seq<View>, e1: Event, e2: Event)
    requires Distinct(views) && IsDeviceEvent(e1) && IsDeviceEvent(e2) && e1.deviceId == e2.deviceId
    ensures Apply(views, e2) == Apply(Apply(views, e1), e2)
            <==> IndexIn(views, e2.deviceId).Some? || e1.eventTime == e2.eventTime
  {
    IndexInFinds(views, e1.deviceId);
    var once := Apply(views, e1);
    IndexInFinds(once, e2.deviceId);
    match IndexIn(views, e1.deviceId) {
      case Some(i) =>
        assert once[i].deviceId == e2.deviceId;
        assert Apply(once, e2) == views[i := Seen(e2, views[i].firstSeenAt)];
      case None =>
        assert once[|views|].deviceId == e2.deviceId;
        assert Apply(once, e2) == views + [Seen(e2, e1.eventTime)];
        assert Apply(views, e2) == views + [Seen(e2, e2.eventTime)];
        assert Apply(once, e2)[|views|] == Seen(e2, e1.eventTime) && Apply(views, e2)[|views|] == Seen(e2, e2.eventTime);
    }
  }

  lemma OtherDeviceBetween(views: seq<View>, e1: Event, e2: Event)
    requires Distinct(views) && IsDeviceEvent(e1) && IsDeviceEvent(e2) && e1.deviceId != e2.deviceId
    ensures Apply(views, e2) == Apply(Apply(views, e1), e2) <==> Apply(views, e1) == views
  {
    IndexInFinds(views, e1.deviceId);
    IndexInFinds(views, e2.deviceId);
    var once := Apply(views, e1);
    IndexInFinds(once, e2.deviceId);
    match IndexIn(views, e1.deviceId) {
      case None => assert |Apply(once, e2)| == |Apply(views, e2)| + 1;
      case Some(i) =>
        assert Apply(once, e2)[i] == Seen(e1, views[i].firstSeenAt) && Apply(views, e2)[i] == views[i];
        if Seen(e1, views[i].firstSeenAt) == views[i] {
          assert once == views;
        }
    }
  }

  /** Overlapping operations also break the chain of states, unless they are for different devices or the
      second happens to start where the first one ended. */
  lemma OverlapBreaksTheChain(events: seq<Event>, e1: Event, e2: Event)
    requires Chained(events + [e1]) && IsDeviceEvent(e1) && IsDeviceEvent(e2) && TypeMatchesState(e2)
    requires e2.previousTrustState == StateAfter(events, e2.deviceId)
    requires e2.eventType != DEVICE_VERIFIED ==> LastFor(events, e2.deviceId).Some?
    ensures Chained(events + [e1] + [e2]) <==> e1.deviceId != e2.deviceId || e2.previousTrustState == e1.newTrustState
  {
    var one, both := events + [e1], events + [e1] + [e2];
    assert one[..|events|] == events && both[..|one|] == one && both[|one|] == e2;
    if e1.deviceId != e2.deviceId || e2.previousTrustState == e1.newTrustState {
      ChainExtends(one, e2);
    } else {
      assert StateAfter(both[..|one|], e2.deviceId) == e1.newTrustState;
    }
  }

  lemma KnownDeviceExtends(events: seq<Event>, e: Event)
    requires Chained(events) && LastFor(events, e.deviceId).Some? && e.previousTrustState == StateAfter(events, e.deviceId)
    requires (e.eventType == DEVICE_KEY_CHANGED && e.newTrustState == STATE_CHANGED)
             || (e.eventType == DEVICE_REVOKED && e.newTrustState == STATE_REVOKED)
    ensures Chained(events + [e])
  {
    TrustEvents.StatesDiffer();
    ChainExtends(events, e);
  }

  lemma OtherEventExtends(events: seq<Event>, e: Event)
    requires Chained(events) && !IsDeviceEvent(e)
    ensures Chained(events + [e]) && Replay(events + [e]) == Replay(events)
  {
    ChainExtends(events, e);
    ReplayOfOther(events, e);
  }

  lemma VerificationExtends(events: seq<Event>, e: Event)
    requires Chained(events) && e.eventType == DEVICE_VERIFIED && e.newTrustState == STATE_VERIFIED
    requires e.previousTrustState == StateAfter(events, e.deviceId)
    ensures Chained(events + [e])
  {
    TrustEvents.StatesDiffer();
    ChainExtends(events, e);
  }

  lemma CommitKeepsObservations(lines: seq<Line>, e: Event)
    requires IsDeviceEvent(e)
    ensures Observations(Entries(lines + [Entry(e)])) == Observations(Entries(lines))
    ensures Observations(Entries(lines + [Damaged])) == Observations(Entries(lines))
  {
    EntriesAppend(lines, Entry(e));
    EntriesAppend(lines, Damaged);
    assert Entries(lines) + [] == Entries(lines);
    ObservationsAppend(Entries(lines), e);
  }

  /** Classifying on the record of a device in a chained history decides as the last event does. */
  lemma DecidesOn(last: Event, r: DeviceRecord, c: Candidate)
    requires IsDeviceEvent(last) && TypeMatchesState(last) && r.trustState == last.newTrustState
    requires r.deviceId == c.claimedDeviceId && r.fingerprint == last.fingerprint
    ensures DecidedOn(last, r, c, ClassifyKnown(MaterialMatches(c, r.fingerprint, r.publicIdentityKey), r.trustState))
  {
    hide TrimSpace;
    DecisionsFollowTrust(MaterialMatches(c, r.fingerprint, r.publicIdentityKey), r.trustState);
    TrustEvents.StatesDiffer();
  }
}
