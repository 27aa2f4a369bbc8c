/** The receive loop of the message inbox command (message_wrappers_dev.go): queued envelopes are opened
    one after the other up to a limit, and acknowledged only after they were opened. */
module MessageInbox {
  import opened Outcomes
  import opened Text
  import opened GenerationIds
  import opened Receipts

  /** What the loop does about the envelope at an index of the queue. */
  datatype Event =
    | Unsupported(index: nat)
    | OpenFailed(index: nat)
    | Opened(index: nat, messageLabel: string)
    | Acked(index: nat, succeeded: bool)

  datatype Summary = Summary(opened_: nat, unsupported: nat, openFailures: nat, ackFailures: nat, events: seq<Event>)

  /** What would come of an envelope: whether its artifact can be written, the sidecar opens it, and the
      server takes the acknowledgement. */
  datatype Answer = Answer(written: bool, opens: bool, acknowledged: bool)

  datatype InboxError = MissingArgument | LimitTooSmall

  predicate IsSupported(e: Envelope) {
    e.contentType == CONTENT_TYPE_MESSAGE && e.protocolVersion == PROTOCOL_VERSION
  }

  /** The label of the n-th opened message, counting from zero. */
  function LabelFor(given: string, n: nat): string {
    if TrimSpace(given) == "" then "inbox-" + Decimal(n + 1) else TrimSpace(given)
  }

  /** The indices of the envelopes a log deals with other than by acknowledging. */
  function Handled(events: seq<Event>): seq<nat> {
    if events == [] then []
    else
      var last := events[|events| - 1];
      Handled(events[..|events| - 1]) + if last.Acked? then [] else [last.index]
  }

  function OpenedIndices(events: seq<Event>): seq<nat> {
    if events == [] then []
    else
      var last := events[|events| - 1];
      OpenedIndices(events[..|events| - 1]) + if last.Opened? then [last.index] else []
  }

  function Labels(events: seq<Event>): seq<string> {
    if events == [] then []
    else
      var last := events[|events| - 1];
      Labels(events[..|events| - 1]) + if last.Opened? then [last.messageLabel] else []
  }

  function AckedIndices(events: seq<Event>): seq<nat> {
    if events == [] then []
    else
      var last := events[|events| - 1];
      AckedIndices(events[..|events| - 1]) + if last.Acked? then [last.index] else []
  }

  function Count(events: seq<Event>, p: Event -> bool): nat {
    if events == [] then 0 else Count(events[..|events| - 1], p) + if p(events[|events| - 1]) then 1 else 0
  }

  predicate IsUnsupported(e: Event) {
    e.Unsupported?
  }

  predicate IsFailure(e: Event) {
    e.OpenFailed?
  }

  predicate IsFailedAck(e: Event) {
    e.Acked? && !e.succeeded
  }

  lemma Snoc(events: seq<Event>, e: Event)
    ensures Count(events + [e], IsUnsupported) == Count(events, IsUnsupported) + if e.Unsupported? then 1 else 0
    ensures Count(events + [e], IsFailure) == Count(events, IsFailure) + if e.OpenFailed? then 1 else 0
    ensures Count(events + [e], IsFailedAck) == Count(events, IsFailedAck) + if e.Acked? && !e.succeeded then 1 else 0
    ensures Handled(events + [e]) == Handled(events) + if e.Acked? then [] else [e.index]
    ensures OpenedIndices(events + [e]) == OpenedIndices(events) + if e.Opened? then [e.index] else []
    ensures Labels(events + [e]) == Labels(events) + if e.Opened? then [e.messageLabel] else []
    ensures AckedIndices(events + [e]) == AckedIndices(events) + if e.Acked? then [e.index] else []
  {
    assert (events + [e])[..|events|] == events;
  }

  function UpTo(n: nat): (s: seq<nat>)
    ensures |s| == n && forall i :: 0 <= i < n ==> s[i] == i
  {
    seq(n, i requires 0 <= i < n => i)
  }

  function LabelsFor(given: string, n: nat): (s: seq<string>)
    ensures |s| == n && forall i :: 0 <= i < n ==> s[i] == LabelFor(given, i)
  {
    seq(n, i requires 0 <= i < n => LabelFor(given, i))
  }

  /** Each acknowledgement directly follows the opening of its envelope. */
  predicate AckFollowsOpen(events: seq<Event>) {
    forall k :: 0 <= k < |events| && events[k].Acked? ==>
      k > 0 && events[k - 1].Opened? && events[k - 1].index == events[k].index
  }

  lemma OneMore(n: nat, given: string, labels: nat)
    ensures UpTo(n + 1) == UpTo(n) + [n]
    ensures LabelsFor(given, labels + 1) == LabelsFor(given, labels) + [LabelFor(given, labels)]
  {
  }

  lemma AckFollowsOpenSnoc(events: seq<Event>, e: Event)
    requires AckFollowsOpen(events)
    requires e.Acked? ==> events != [] && events[|events| - 1].Opened? && events[|events| - 1].index == e.index
    ensures AckFollowsOpen(events + [e])
  {
  }

  /** The event is what envelope and answer lead to. */
  predicate Truthful(e: Event, envelope: Envelope, answer: Answer) {
    var supported := envelope.contentType == "carbonstack.mls.application-message.v0"
                     && envelope.protocolVersion == "carbonstack-openmls-sidecar-v0";
    match e
    case Unsupported(_) => !supported
    case OpenFailed(_) => supported && !(answer.written && answer.opens)
    case Opened(_, _) => supported && answer.written && answer.opens
    case Acked(_, succeeded) => supported && answer.written && answer.opens && succeeded == answer.acknowledged
  }

  lemma TellsTheTruth(envelope: Envelope, answer: Answer, i: nat, label_: string)
    ensures !IsSupported(envelope) ==> Truthful(Unsupported(i), envelope, answer)
    ensures IsSupported(envelope) && !(answer.written && answer.opens) ==> Truthful(OpenFailed(i), envelope, answer)
    ensures IsSupported(envelope) && answer.written && answer.opens ==>
              Truthful(Opened(i, label_), envelope, answer) && Truthful(Acked(i, answer.acknowledged), envelope, answer)
  {
  }

  ghost predicate AllTruthful(events: seq<Event>, envelopes: seq<Envelope>, answers: nat -> Answer) {
    forall e :: e in events ==> e.index < |envelopes| && Truthful(e, envelopes[e.index], answers(e.index))
  }

  lemma AllTruthfulSnoc(events: seq<Event>, e: Event, envelopes: seq<Envelope>, answers: nat -> Answer)
    requires AllTruthful(events, envelopes, answers)
    requires e.index < |envelopes| && Truthful(e, envelopes[e.index], answers(e.index))
    ensures AllTruthful(events + [e], envelopes, answers)
  {
  }

  /** The counters agree with the log, the log with the queue, and a prefix of the queue is handled. */
  ghost predicate Accounts(s: Summary, envelopes: seq<Envelope>, given: string, ack: bool, answers: nat -> Answer) {
    && Handled(s.events) == UpTo(s.opened_ + s.unsupported + s.openFailures)
    && s.opened_ + s.unsupported + s.openFailures <= |envelopes|
    && |OpenedIndices(s.events)| == s.opened_
    && Labels(s.events) == LabelsFor(given, s.opened_)
    && AckFollowsOpen(s.events)
    && AckedIndices(s.events) == (if ack then OpenedIndices(s.events) else [])
    && Count(s.events, IsUnsupported) == s.unsupported && Count(s.events, IsFailure) == s.openFailures
    && Count(s.events, IsFailedAck) == s.ackFailures
    && AllTruthful(s.events, envelopes, answers)
  }

  /** What a summary says of the envelope at `i`, if the loop got there. */
  ghost predicate HandledRightly(s: Summary, envelopes: seq<Envelope>, ack: bool, answers: nat -> Answer, i: nat)
    requires i < |envelopes|
  {
    var supported := envelopes[i].contentType == "carbonstack.mls.application-message.v0"
                     && envelopes[i].protocolVersion == "carbonstack-openmls-sidecar-v0";
    var openable := supported && answers(i).written && answers(i).opens;
    && (Unsupported(i) in s.events <==> !supported)
    && (OpenFailed(i) in s.events <==> supported && !openable)
    && (i in OpenedIndices(s.events) <==> openable)
    && (Acked(i, true) in s.events <==> ack && openable && answers(i).acknowledged)
    && (Acked(i, false) in s.events <==> ack && openable && !answers(i).acknowledged)
  }

  /** The loop of `cmdMessageInboxDev` over what writing, opening and acknowledging each envelope would
      come to. It handles a prefix of the queue, the whole of it unless the limit of openings is reached
      with its last envelope; each envelope is skipped, failed, or opened and acknowledged as it deserves. */
  method Receive(envelopes: seq<Envelope>, messageLabel: string, limit: int, ack: bool, answers: nat -> Answer)
      returns (o: Outcome<Summary, InboxError>)
    ensures !o.Crashed?
    ensures o.Done? <==> limit >= 1
    ensures o.Done? ==>
              var handled := o.value.opened_ + o.value.unsupported + o.value.openFailures;
              && Accounts(o.value, envelopes, messageLabel, ack, answers)
              && o.value.opened_ <= limit
              && (handled < |envelopes| ==> o.value.opened_ == limit)
              && (o.value.opened_ == limit ==> (handled - 1) in OpenedIndices(o.value.events))
              && (forall i: nat | i < handled :: HandledRightly(o.value, envelopes, ack, answers, i))
              && (forall e | e in o.value.events :: e.index < handled)
              && |Labels(o.value.events)| == o.value.opened_
              && forall k | 0 <= k < o.value.opened_ ::
                   Labels(o.value.events)[k] == if TrimSpace(messageLabel) == "" then "inbox-" + Decimal(k + 1) else TrimSpace(messageLabel)
  {
    hide TrimSpace, Decimal, Handled, OpenedIndices, Labels, AckedIndices, Truthful, HandledRightly;
    if limit < 1 {
      return Refused(LimitTooSmall);
    }
    NothingAccounts(envelopes, messageLabel, ack, answers);
    var s := Summary(0, 0, 0, 0, []);
    for i := 0 to |envelopes|
      invariant Accounts(s, envelopes, messageLabel, ack, answers) && s.opened_ <= limit
      invariant s.opened_ + s.unsupported + s.openFailures == i
      invariant s.opened_ == limit ==> (i - 1) in OpenedIndices(s.events)
    {
      if s.opened_ >= limit {
        break;
      }
      if !IsSupported(envelopes[i]) {
        s := CountUnsupported(s, envelopes, messageLabel, ack, answers);
        continue;
      }
      if !answers(i).written {
        s := CountFailure(s, envelopes, messageLabel, ack, answers);
        continue;
      }
      if !answers(i).opens {
        s := CountFailure(s, envelopes, messageLabel, ack, answers);
        continue;
      }
      s := CountOpened(s, envelopes, messageLabel, ack, answers);
    }
    forall i: nat | i < s.opened_ + s.unsupported + s.openFailures
      ensures HandledRightly(s, envelopes, ack, answers, i)
    {
      HandlesEach(s, envelopes, messageLabel, ack, answers, i);
    }
    NothingElse(s, envelopes, messageLabel, ack, answers);
    return Done(s);
  }

  lemma HandlesEach(s: Summary, envelopes: seq<Envelope>, given: string, ack: bool, answers: nat -> Answer, i: nat)
    requires Accounts(s, envelopes, given, ack, answers) && i < s.opened_ + s.unsupported + s.openFailures
    ensures HandledRightly(s, envelopes, ack, answers, i)
  {
    assert UpTo(s.opened_ + s.unsupported + s.openFailures)[i] == i;
    IndicesInLog(s.events, i);
  }

  lemma NothingElse(s: Summary, envelopes: seq<Envelope>, given: string, ack: bool, answers: nat -> Answer)
    requires Accounts(s, envelopes, given, ack, answers)
    ensures forall e | e in s.events :: e.index < s.opened_ + s.unsupported + s.openFailures
  {
    hide Handled, OpenedIndices, Labels, AckedIndices, Count, AckFollowsOpen, LabelsFor, HandledRightly, IsSupported;
    forall e | e in s.events
      ensures e.index < s.opened_ + s.unsupported + s.openFailures
    {
      IndicesInLog(s.events, e.index);
      assert e.index in Handled(s.events);
    }
  }

  /** What the lists of indices say about the log. */
  lemma {:induction false} IndicesInLog(events: seq<Event>, i: nat)
    ensures i in OpenedIndices(events) <==> exists label_ :: Opened(i, label_) in events
    ensures i in AckedIndices(events) <==> Acked(i, true) in events || Acked(i, false) in events
    ensures i in Handled(events) <==> Unsupported(i) in events || OpenFailed(i) in events || i in OpenedIndices(events)
  {
    if events != [] {
      var before, last := events[..|events| - 1], events[|events| - 1];
      IndicesInLog(before, i);
      assert events == before + [last];
    }
  }

  lemma NothingAccounts(envelopes: seq<Envelope>, given: string, ack: bool, answers: nat -> Answer)
    ensures Accounts(Summary(0, 0, 0, 0, []), envelopes, given, ack, answers)
  {
  }

  method CountUnsupported(s: Summary, envelopes: seq<Envelope>, given: string, ack: bool, answers: nat -> Answer) returns (r: Summary)
    requires Accounts(s, envelopes, given, ack, answers) && s.opened_ + s.unsupported + s.openFailures < |envelopes|
    requires !IsSupported(envelopes[s.opened_ + s.unsupported + s.openFailures])
    ensures r == s.(unsupported := s.unsupported + 1, events := r.events) && Accounts(r, envelopes, given, ack, answers)
  {
    hide TrimSpace, Decimal, LabelFor, Handled, OpenedIndices, Labels, AckedIndices, Count;
    hide UpTo, LabelsFor, AckFollowsOpen, AllTruthful, IsSupported, Truthful;
    var e := Unsupported(s.opened_ + s.unsupported + s.openFailures);
    TellsTheTruth(envelopes[e.index], answers(e.index), e.index, "");
    OneMore(e.index, given, s.opened_);
    AckFollowsOpenSnoc(s.events, e);
    AllTruthfulSnoc(s.events, e, envelopes, answers);
    Snoc(s.events, e);
    r := s.(unsupported := s.unsupported + 1, events := s.events + [e]);
  }

  method CountFailure(s: Summary, envelopes: seq<Envelope>, given: string, ack: bool, answers: nat -> Answer) returns (r: Summary)
    requires Accounts(s, envelopes, given, ack, answers) && s.opened_ + s.unsupported + s.openFailures < |envelopes|
    requires var i := s.opened_ + s.unsupported + s.openFailures; IsSupported(envelopes[i]) && !(answers(i).written && answers(i).opens)
    ensures r == s.(openFailures := s.openFailures + 1, events := r.events) && Accounts(r, envelopes, given, ack, answers)
  {
    hide TrimSpace, Decimal, LabelFor, Handled, OpenedIndices, Labels, AckedIndices, Count;
    hide UpTo, LabelsFor, AckFollowsOpen, AllTruthful, IsSupported, Truthful;
    var e := OpenFailed(s.opened_ + s.unsupported + s.openFailures);
    TellsTheTruth(envelopes[e.index], answers(e.index), e.index, "");
    OneMore(e.index, given, s.opened_);
    AckFollowsOpenSnoc(s.events, e);
    AllTruthfulSnoc(s.events, e, envelopes, answers);
    Snoc(s.events, e);
    r := s.(openFailures := s.openFailures + 1, events := s.events + [e]);
  }

  method CountOpened(s: Summary, envelopes: seq<Envelope>, given: string, ack: bool, answers: nat -> Answer) returns (r: Summary)
    requires Accounts(s, envelopes, given, ack, answers) && s.opened_ + s.unsupported + s.openFailures < |envelopes|
    requires var i := s.opened_ + s.unsupported + s.openFailures; IsSupported(envelopes[i]) && answers(i).written && answers(i).opens
    ensures Accounts(r, envelopes, given, ack, answers)
    ensures (s.opened_ + s.unsupported + s.openFailures) in OpenedIndices(r.events)
    ensures r.opened_ == s.opened_ + 1 && r.unsupported == s.unsupported && r.openFailures == s.openFailures
  {
    hide TrimSpace, Decimal, Handled, OpenedIndices, Labels, AckedIndices, Count;
    var index := s.opened_ + s.unsupported + s.openFailures;
    var label_ := TrimSpace(given);
    if label_ == "" {
      label_ := "inbox-" + Decimal(s.opened_ + 1);
    }
    hide LabelFor, UpTo, LabelsFor, AckFollowsOpen, AllTruthful, IsSupported, Truthful;
    var e := Opened(index, label_);
    TellsTheTruth(envelopes[index], answers(index), index, label_);
    OneMore(index, given, s.opened_);
    AckFollowsOpenSnoc(s.events, e);
    AllTruthfulSnoc(s.events, e, envelopes, answers);
    Snoc(s.events, e);
    var events := s.events + [e];
    var ackFailures := s.ackFailures;
    if ack {
      var acked := Acked(index, answers(index).acknowledged);
      AckFollowsOpenSnoc(events, acked);
      AllTruthfulSnoc(events, acked, envelopes, answers);
      Snoc(events, acked);
      events := events + [acked];
      if !answers(index).acknowledged {
        ackFailures := ackFailures + 1;
      }
    }
    r := Summary(s.opened_ + 1, s.unsupported, s.openFailures, ackFailures, events);
  }

  /** So every envelope is acknowledged at most once, and only one that was opened before. */
  lemma AcksAreSingleAndOpened(s: Summary, envelopes: seq<Envelope>, given: string, ack: bool, answers: nat -> Answer, j: nat, k: nat)
    requires Accounts(s, envelopes, given, ack, answers) && j < |s.events| && k < |s.events| && s.events[j].Acked? && s.events[k].Acked?
    ensures s.events[j].index == s.events[k].index ==> j == k
    ensures exists m :: 0 <= m < k && s.events[m].Opened? && s.events[m].index == s.events[k].index
  {
    assert s.events[k - 1].Opened? && s.events[j - 1].Opened?;
    if j < k && s.events[j].index == s.events[k].index {
      HandledOnce(s.events, j - 1, k - 1);
    } else if k < j && s.events[j].index == s.events[k].index {
      HandledOnce(s.events, k - 1, j - 1);
    }
  }

  /** In a log that handles a prefix in order, no index is handled twice. */
  lemma {:induction false} HandledOnce(events: seq<Event>, j: nat, k: nat)
    requires j < k < |events| && !events[j].Acked? && !events[k].Acked?
    requires Handled(events) == UpTo(|Handled(events)|)
    ensures events[j].index < events[k].index
  {
    var before, last := events[..|events| - 1], events[|events| - 1];
    assert Handled(before) == UpTo(|Handled(before)|) by {
      assert forall i :: 0 <= i < |Handled(before)| ==> Handled(before)[i] == Handled(events)[i];
    }
    if k < |events| - 1 {
      HandledOnce(before, j, k);
    } else {
      InHandled(before, j);
      assert last.index == Handled(events)[|Handled(before)|] == |Handled(before)|;
    }
  }

  lemma {:induction false} InHandled(events: seq<Event>, j: nat)
    requires j < |events| && !events[j].Acked?
    ensures events[j].index in Handled(events)
  {
    if j < |events| - 1 {
      InHandled(events[..|events| - 1], j);
    }
  }
}
