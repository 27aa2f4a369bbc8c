/** What the KeyPackage and the Welcome consume commands share: where a receipt is kept, how the
    envelope is chosen and how its artifact is checked (openmls_keypackage_consume_dev.go,
    openmls_welcome_lifecycle_dev.go, cypher_bridge.go). */
module Receipts {
  import opened Outcomes
  import opened Text

  const PROTOCOL_VERSION := "carbonstack-openmls-sidecar-v0"
  const CONTENT_TYPE_KEYPACKAGE := "carbonstack.mls.keypackage.v0"
  const CONTENT_TYPE_WELCOME := "carbonstack.mls.welcome.v0"
  const CONTENT_TYPE_MESSAGE := "carbonstack.mls.application-message.v0"
  const ACKNOWLEDGED := "acknowledged"

  /** A SHA-256 digest in hexadecimal. */
  type HexDigest = s: string | |s| == 64 && forall c <- s :: '0' <= c <= '9' || 'a' <= c <= 'f'
    witness seq(64, _ => '0')

  /** The library functions whose results are not computed here: Unicode letters and digits beyond
      ASCII, SHA-256 of text and bytes, and base64 decoding. */
  datatype Library = Library(
    otherLetterOrDigit: char -> bool, textDigest: string -> HexDigest, digest: Bytes -> HexDigest,
    decode: string -> Option<Bytes>)

  // ---- Receipt directories ----

  /** `unicode.IsLetter` or `unicode.IsDigit`; no white space is either. */
  predicate IsLetterOrDigit(lib: Library, c: char) {
    if c < '\U{80}' then '0' <= c <= '9' || 'a' <= c <= 'z' || 'A' <= c <= 'Z' else !IsSpace(c) && lib.otherLetterOrDigit(c)
  }

  /** Among ASCII exactly the letters and digits, by code point; beyond, what the table says, but white space. */
  lemma IsLetterOrDigitExactly(lib: Library, c: char)
    ensures IsLetterOrDigit(lib, c)
            <==> var n := c as int;
                 if n < 128 then 48 <= n <= 57 || 65 <= n <= 90 || 97 <= n <= 122 else lib.otherLetterOrDigit(c) && !IsSpace(c)
  {
  }

  predicate IsPunctuation(c: char) {
    c == '.' || c == '_' || c == '-'
  }

  function SafeChar(lib: Library, c: char): char {
    if IsLetterOrDigit(lib, c) || IsPunctuation(c) then c else '_'
  }

  function SafeChars(lib: Library, s: string): (t: string)
    ensures |t| == |s| && forall i :: 0 <= i < |s| ==> t[i] == SafeChar(lib, s[i])
  {
    seq(|s|, i requires 0 <= i < |s| => SafeChar(lib, s[i]))
  }

  /** The directory name of an envelope's receipt. */
  function SafeReceiptId(lib: Library, envelopeId: string): string {
    var value := TrimSpace(envelopeId);
    if value == "" then "empty"
    else
      var cleaned := Trim(SafeChars(lib, value), IsPunctuation);
      if cleaned == "" then lib.textDigest(value) else cleaned
  }

  /** `safeKeyPackageReceiptID` and `safeWelcomeReceiptID`, with their builder loop. */
  method BuildSafeReceiptId(lib: Library, envelopeId: string) returns (name: string)
    ensures name == SafeReceiptId(lib, envelopeId)
  {
    var value := TrimSpace(envelopeId);
    if value == "" {
      return "empty";
    }
    var b := "";
    for i := 0 to |value|
      invariant b == SafeChars(lib, value[..i])
    {
      assert value[..i + 1] == value[..i] + [value[i]];
      if IsLetterOrDigit(lib, value[i]) || value[i] == '-' || value[i] == '_' || value[i] == '.' {
        b := b + [value[i]];
      } else {
        b := b + ['_'];
      }
    }
    assert value[..|value|] == value;
    var cleaned := Trim(b, IsPunctuation);
    if cleaned == "" {
      return lib.textDigest(value);
    }
    return cleaned;
  }

  /** Every receipt directory is one ordinary path component: not empty, without separators, and not
      starting with the full stop that `.`, `..` and the lock directories start with. */
  lemma SafeReceiptIdIsOneComponent(lib: Library, envelopeId: string)
    ensures var name := SafeReceiptId(lib, envelopeId);
            && name != "" && name[0] != '.'
            && '/' !in name && '\\' !in name && '\0' !in name
            && name != "." && name != ".."
            && name != ".keypackage-consume-lock" && name != ".welcome-consume-lock"
  {
    NameIsPlain(lib, envelopeId);
    var name := SafeReceiptId(lib, envelopeId);
    assert forall c :: c in name ==> c !in "/\\\0";
  }

  /** Ids with nothing to keep: a blank one, and one of other characters only, which is named by its digest. */
  lemma UnnamedIds(lib: Library, envelopeId: string)
    ensures TrimSpace(envelopeId) == "" ==> SafeReceiptId(lib, envelopeId) == "empty"
    ensures TrimSpace(envelopeId) != "" && (forall c <- TrimSpace(envelopeId) :: !IsLetterOrDigit(lib, c)) ==>
              SafeReceiptId(lib, envelopeId) == lib.textDigest(TrimSpace(envelopeId))
  {
    var value := TrimSpace(envelopeId);
    var mapped := SafeChars(lib, value);
    TrimResult(mapped, IsPunctuation);
    if forall c <- value :: !IsLetterOrDigit(lib, c) {
      forall c | c in mapped
        ensures IsPunctuation(c)
      {
        var i :| 0 <= i < |mapped| && mapped[i] == c;
        assert value[i] in value;
      }
      assert Trim(mapped, IsPunctuation) == "";
    }
  }

  /** An id that the sanitizer has no reason to touch: letters, digits and punctuation, with a letter or
      a digit at either end. */
  predicate Plain(lib: Library, id: string) {
    && id != "" && (forall c <- id :: IsLetterOrDigit(lib, c) || IsPunctuation(c))
    && IsLetterOrDigit(lib, id[0]) && IsLetterOrDigit(lib, id[|id| - 1])
  }

  lemma PlainIsItsName(lib: Library, id: string)
    requires Plain(lib, id)
    ensures SafeReceiptId(lib, id) == id
  {
    assert id[0] in id && id[|id| - 1] in id;
    TrimmedWord(id);
    assert SafeChars(lib, id) == id by {
      forall i | 0 <= i < |id|
        ensures SafeChars(lib, id)[i] == id[i]
      {
        assert id[i] in id;
      }
    }
    assert Trim(id, IsPunctuation) == id;
  }

  lemma NameIsPlain(lib: Library, id: string)
    ensures Plain(lib, SafeReceiptId(lib, id))
  {
    var value := TrimSpace(id);
    var mapped := SafeChars(lib, value);
    assert forall c :: c in mapped ==> IsLetterOrDigit(lib, c) || IsPunctuation(c);
    TrimResult(mapped, IsPunctuation);
    var name := SafeReceiptId(lib, id);
    assert name != "";
    assert name[0] in name && name[|name| - 1] in name;
  }

  /** A plain id names its own directory, and every directory is the one of exactly one plain id. So plain
      ids never share a directory, and an id shares one with a plain id other than itself exactly when it
      is not plain. */
  lemma SharedExactlyWhenNotPlain(lib: Library, id: string)
    ensures SafeReceiptId(lib, id) == id <==> Plain(lib, id)
    ensures (exists other :: other != id && Plain(lib, other) && SafeReceiptId(lib, other) == SafeReceiptId(lib, id))
            <==> !Plain(lib, id)
  {
    hide SafeReceiptId, Plain;
    var name := SafeReceiptId(lib, id);
    NameIsPlain(lib, id);
    PlainIsItsName(lib, name);
    if Plain(lib, id) {
      PlainIsItsName(lib, id);
      forall other | Plain(lib, other) && SafeReceiptId(lib, other) == name
        ensures other == id
      {
        PlainIsItsName(lib, other);
      }
    }
  }

  /** Different envelopes can share a directory: whatever character the sanitizer replaces, the id with the
      replacement in its place has the same directory, unless nothing but punctuation is left. */
  lemma SafeReceiptIdCollides(lib: Library, id: string, i: nat, k: nat)
    requires TrimSpace(id) == id && i < |id| && !IsLetterOrDigit(lib, id[i]) && !IsPunctuation(id[i])
    requires k < |id| && IsLetterOrDigit(lib, id[k])
    ensures id[i := '_'] != id && SafeReceiptId(lib, id[i := '_']) == SafeReceiptId(lib, id)
  {
    var other := id[i := '_'];
    EndsAreNoSpace(id);
    TrimmedWord(other);
    assert SafeChars(lib, other) == SafeChars(lib, id);
    assert SafeChars(lib, id)[k] == id[k];
    KeepsLetters(SafeChars(lib, id), k);
  }

  lemma EndsAreNoSpace(id: string)
    requires TrimSpace(id) == id && id != ""
    ensures !IsSpace(id[0]) && !IsSpace(id[|id| - 1])
  {
    TrimResult(id, IsSpace);
  }

  lemma {:induction false} KeepsLettersAtStart(s: string, k: nat)
    requires k < |s| && !IsPunctuation(s[k])
    ensures var t := TrimStart(s, IsPunctuation); |s| - |t| <= k && |t| <= |s| && t[k - (|s| - |t|)] == s[k]
  {
    if IsPunctuation(s[0]) {
      KeepsLettersAtStart(s[1..], k - 1);
    }
  }

  lemma {:induction false} KeepsLettersAtEnd(s: string, k: nat)
    requires k < |s| && !IsPunctuation(s[k])
    ensures TrimEnd(s, IsPunctuation) != ""
  {
    if IsPunctuation(s[|s| - 1]) {
      KeepsLettersAtEnd(s[..|s| - 1], k);
    }
  }

  lemma KeepsLetters(s: string, k: nat)
    requires k < |s| && !IsPunctuation(s[k])
    ensures Trim(s, IsPunctuation) != ""
  {
    KeepsLettersAtStart(s, k);
    var t := TrimStart(s, IsPunctuation);
    KeepsLettersAtEnd(t, k - (|s| - |t|));
  }

  // ---- Envelopes ----

  datatype Envelope = Envelope(
    envelopeId: string, relaySpaceId: string, senderDeviceId: string, recipientDeviceId: string,
    contentType: string, protocolVersion: string, ciphertextB64: string,
    payloadSha256: string, payloadSize: int, deliveryState: string)

  datatype AckReply = AckReply(acknowledgedAt: string, deliveryState: string)

  /** Whether asking the file system about an existing artifact or manifest succeeds. */
  datatype Stat = Stat(artifact: bool, manifest: bool)

  datatype ConsumeError =
    | MissingArgument
    | IoError
    | LockUnavailable
    | IncompleteConsume
    | UnsupportedReceiptSchema
    | ReceiptConflict
    | InboxUnavailable
    | EnvelopeNotFound
    | AmbiguousSelection
    | RecipientMismatch
    | UnsupportedDeliveryState
    | UnsupportedArtifact
    | PayloadMismatch
    | ExpectedPayloadMismatch
    | JoinFailed
    | AckFailed

  /** The envelopes of one content type, in inbox order. */
  function OfType(envelopes: seq<Envelope>, contentType: string): seq<Envelope> {
    if envelopes == [] then []
    else
      var last := envelopes[|envelopes| - 1];
      OfType(envelopes[..|envelopes| - 1], contentType) + if last.contentType == contentType then [last] else []
  }

  /** `OfType` keeps exactly the elements of the type, each as often as before, and their order. */
  lemma {:induction false} OfTypeKeepsExactly(envelopes: seq<Envelope>, contentType: string, e: Envelope)
    ensures multiset(OfType(envelopes, contentType))[e] == if e.contentType == contentType then multiset(envelopes)[e] else 0
  {
    if envelopes != [] {
      var before, last := envelopes[..|envelopes| - 1], envelopes[|envelopes| - 1];
      OfTypeKeepsExactly(before, contentType, e);
      assert envelopes == before + [last];
    }
  }

  lemma {:induction false} OfTypeHas(envelopes: seq<Envelope>, contentType: string, e: Envelope)
    ensures e in OfType(envelopes, contentType) <==> e in envelopes && e.contentType == contentType
  {
    if envelopes != [] {
      OfTypeHas(envelopes[..|envelopes| - 1], contentType, e);
      assert envelopes == envelopes[..|envelopes| - 1] + [envelopes[|envelopes| - 1]];
    }
  }

  lemma {:induction false} OfTypeKeepsOrder(a: seq<Envelope>, b: seq<Envelope>, contentType: string)
    ensures OfType(a + b, contentType) == OfType(a, contentType) + OfType(b, contentType)
  {
    if b == [] {
      assert a + b == a;
    } else {
      assert (a + b)[..|a + b| - 1] == a + b[..|b| - 1];
      OfTypeKeepsOrder(a, b[..|b| - 1], contentType);
    }
  }

  method FilterInbox(envelopes: seq<Envelope>, contentType: string) returns (filtered: seq<Envelope>)
    ensures filtered == OfType(envelopes, contentType)
  {
    filtered := [];
    for i := 0 to |envelopes|
      invariant filtered == OfType(envelopes[..i], contentType)
    {
      assert envelopes[..i + 1][..i] == envelopes[..i];
      if envelopes[i].contentType == contentType {
        filtered := filtered + [envelopes[i]];
      }
    }
    assert envelopes[..|envelopes|] == envelopes;
  }

  /** The selection loop, and the checks on the one envelope it selects. */
  method SelectEnvelope(envelopes: seq<Envelope>, envelopeId: string, deviceId: string)
      returns (o: Outcome<Envelope, ConsumeError>)
    ensures !o.Crashed?
    ensures o.Refused? ==> o.error in {EnvelopeNotFound, AmbiguousSelection, RecipientMismatch, UnsupportedDeliveryState}
    ensures o.Done? ==>
              && o.value in envelopes && o.value.envelopeId == envelopeId
              && o.value.recipientDeviceId == deviceId
              && (o.value.deliveryState == "" || o.value.deliveryState == "queued")
    ensures o == Refused(RecipientMismatch) ==>
              exists e :: e in envelopes && e.envelopeId == envelopeId && e.recipientDeviceId != deviceId
    ensures o == Refused(UnsupportedDeliveryState) ==>
              exists e :: e in envelopes && e.envelopeId == envelopeId && e.deliveryState !in {"", "queued"}
    ensures o == Refused(EnvelopeNotFound) <==> forall e :: e in envelopes ==> e.envelopeId != envelopeId
    ensures o == Refused(AmbiguousSelection) <==>
              exists i, j :: 0 <= i < j < |envelopes| && envelopes[i].envelopeId == envelopeId == envelopes[j].envelopeId
  {
    var selected: Option<Envelope> := None;
    for i := 0 to |envelopes|
      invariant selected.None? ==> forall k :: 0 <= k < i ==> envelopes[k].envelopeId != envelopeId
      invariant selected.Some? ==>
                  exists k :: 0 <= k < i && envelopes[k] == selected.value && selected.value.envelopeId == envelopeId
                              && forall m :: 0 <= m < i && m != k ==> envelopes[m].envelopeId != envelopeId
    {
      if envelopes[i].envelopeId == envelopeId {
        if selected.Some? {
          return Refused(AmbiguousSelection);
        }
        selected := Some(envelopes[i]);
      }
    }
    if selected.None? {
      return Refused(EnvelopeNotFound);
    }
    if selected.value.recipientDeviceId != deviceId {
      return Refused(RecipientMismatch);
    }
    if selected.value.deliveryState != "" && selected.value.deliveryState != "queued" {
      return Refused(UnsupportedDeliveryState);
    }
    return Done(selected.value);
  }

  /** What is written as the artifact of an envelope, if the envelope is acceptable: right type and
      version, decodable, and agreeing with whatever size and digest its metadata states. */
  function ArtifactOf(lib: Library, e: Envelope, contentType: string): (r: Outcome<Bytes, ConsumeError>)
    ensures !r.Crashed? && (r.Refused? ==> r.error in {UnsupportedArtifact, PayloadMismatch})
    ensures r.Done? ==> e.payloadSha256 == "" || e.payloadSha256 == lib.digest(r.value)
  {
    if e.contentType != contentType || TrimSpace(e.relaySpaceId) == "" then Refused(UnsupportedArtifact)
    else if e.contentType !in {CONTENT_TYPE_KEYPACKAGE, CONTENT_TYPE_WELCOME, CONTENT_TYPE_MESSAGE} then Refused(UnsupportedArtifact)
    else if e.protocolVersion != PROTOCOL_VERSION then Refused(UnsupportedArtifact)
    else
      match lib.decode(e.ciphertextB64)
      case None => Refused(UnsupportedArtifact)
      case Some(payload) =>
        if e.payloadSize != 0 && e.payloadSize != |payload| then Refused(PayloadMismatch)
        else if e.payloadSha256 != "" && lib.digest(payload) != e.payloadSha256 then Refused(PayloadMismatch)
        else Done(payload)
  }

  /** An envelope's artifact is accepted exactly when its type is the wanted one, its relay space is not
      blank, its version is the sidecar's, and its text decodes to bytes that have the size and digest its
      metadata states, as far as it states any. */
  lemma ArtifactOfExactly(lib: Library, e: Envelope, contentType: string, payload: Bytes)
    requires contentType in {"carbonstack.mls.keypackage.v0", "carbonstack.mls.welcome.v0", "carbonstack.mls.application-message.v0"}
    ensures ArtifactOf(lib, e, contentType) == Done(payload)
            <==> && e.contentType == contentType && TrimSpace(e.relaySpaceId) != ""
                 && e.protocolVersion == "carbonstack-openmls-sidecar-v0"
                 && lib.decode(e.ciphertextB64) == Some(payload)
                 && (e.payloadSize == 0 || e.payloadSize == |payload|)
                 && (e.payloadSha256 == "" || e.payloadSha256 == lib.digest(payload))
    ensures ArtifactOf(lib, e, contentType) == Refused(PayloadMismatch) ==> lib.decode(e.ciphertextB64).Some?
  {
    hide TrimSpace;
  }

  predicate Offered(e: Envelope, inbox: Option<seq<Envelope>>, kind: string, envelopeId: string) {
    inbox.Some? && e in inbox.value && e.contentType == kind && e.envelopeId == envelopeId
  }

  /** What is the case when a consume command is refused with an error about the inbox, the envelope asked
      for, the digest expected of it, or an answer. */
  ghost predicate RefusalHolds(error: ConsumeError, lib: Library, inbox: Option<seq<Envelope>>, kind: string, envelopeId: string,
                               deviceId: string, expected: string, joinAnswered: bool, ackAnswered: bool)
  {
    match error
    case InboxUnavailable => inbox.None?
    case EnvelopeNotFound => inbox.Some? && forall e :: e in inbox.value ==> !Offered(e, inbox, kind, envelopeId)
    case AmbiguousSelection =>
      && inbox.Some?
      && var es := OfType(inbox.value, kind); exists i, j :: 0 <= i < j < |es| && es[i].envelopeId == envelopeId == es[j].envelopeId
    case RecipientMismatch => exists e :: Offered(e, inbox, kind, envelopeId) && e.recipientDeviceId != deviceId
    case UnsupportedDeliveryState => exists e :: Offered(e, inbox, kind, envelopeId) && e.deliveryState !in {"", "queued"}
    case UnsupportedArtifact => exists e :: Offered(e, inbox, kind, envelopeId) && ArtifactOf(lib, e, kind) == Refused(UnsupportedArtifact)
    case PayloadMismatch => exists e :: Offered(e, inbox, kind, envelopeId) && ArtifactOf(lib, e, kind) == Refused(PayloadMismatch)
    case ExpectedPayloadMismatch =>
      exists e :: Offered(e, inbox, kind, envelopeId) && ArtifactOf(lib, e, kind).Done?
                  && TrimSpace(expected) !in {"", lib.digest(ArtifactOf(lib, e, kind).value)}
    case JoinFailed => !joinAnswered
    case AckFailed => !ackAnswered
    case _ => true
  }

  lemma TypedAreOffered(inbox: seq<Envelope>, kind: string, envelopeId: string)
    ensures forall e :: Offered(e, Some(inbox), kind, envelopeId) <==> e in OfType(inbox, kind) && e.envelopeId == envelopeId
  {
    forall e: Envelope
      ensures Offered(e, Some(inbox), kind, envelopeId) <==> e in OfType(inbox, kind) && e.envelopeId == envelopeId
    {
      OfTypeHas(inbox, kind, e);
    }
  }

  lemma LateRefusalHolds(error: ConsumeError, lib: Library, inbox: Option<seq<Envelope>>, kind: string, envelopeId: string,
                         deviceId: string, expected: string, joinAnswered: bool, ackAnswered: bool)
    requires error in {IoError, JoinFailed, AckFailed}
    requires (error == JoinFailed ==> !joinAnswered) && (error == AckFailed ==> !ackAnswered)
    ensures RefusalHolds(error, lib, inbox, kind, envelopeId, deviceId, expected, joinAnswered, ackAnswered)
  {
  }

  lemma EarlyRefusalHolds(error: ConsumeError, lib: Library, inbox: Option<seq<Envelope>>, kind: string, envelopeId: string,
                          deviceId: string, expected: string, joinAnswered: bool, ackAnswered: bool)
    requires error !in {JoinFailed, AckFailed}
    requires RefusalHolds(error, lib, inbox, kind, envelopeId, deviceId, expected, true, true)
    ensures RefusalHolds(error, lib, inbox, kind, envelopeId, deviceId, expected, joinAnswered, ackAnswered)
  {
  }

  /** The part the consume commands share: selects the envelope asked for in what the server sent, and takes
      its artifact. */
  method FetchArtifact(lib: Library, inbox: Option<seq<Envelope>>, kind: string, envelopeId: string, deviceId: string,
                       ghost expected: string)
      returns (o: Outcome<(Envelope, Bytes), ConsumeError>)
    ensures o.Done? ==>
              var (e, payload) := o.value;
              && Offered(e, inbox, kind, envelopeId) && e in OfType(inbox.value, kind) && e.recipientDeviceId == deviceId
              && e.deliveryState in {"", "queued"} && ArtifactOf(lib, e, kind) == Done(payload)
    ensures o.Refused? ==>
              && o.error in {IoError, InboxUnavailable, EnvelopeNotFound, AmbiguousSelection, RecipientMismatch,
                             UnsupportedDeliveryState, UnsupportedArtifact, PayloadMismatch}
              && RefusalHolds(o.error, lib, inbox, kind, envelopeId, deviceId, expected, true, true)
  {
    hide ArtifactOf;
    if inbox.None? {
      return Refused(InboxUnavailable);
    }
    var envelopes := FilterInbox(inbox.value, kind);
    TypedAreOffered(inbox.value, kind, envelopeId);
    var e :- SelectEnvelope(envelopes, envelopeId, deviceId);
    assert Offered(e, inbox, kind, envelopeId);
    var _ :- Io(IoError);
    var payload :- ArtifactOf(lib, e, kind);
    return Done((e, payload));
  }
}
