/** Joining a conversation from a Welcome: everything is written to a staging directory, reloaded, and
    published by one rename (state.rs, labels.rs, paths.rs).

    The model is one device's `conversations` directory. Each step may fail or be the last one of its
    process, and joins of other processes may run between any two steps. */
module ConversationJoin {
  import opened Outcomes
  import opened GenerationIds

  // ---- Labels ----

  predicate IsLabelChar(c: char) {
    '0' <= c <= '9' || 'a' <= c <= 'z' || 'A' <= c <= 'Z' || c == '-' || c == '_'
  }

  predicate IsSafeLabel(label_: string) {
    0 < |label_| <= 96 && forall c <- label_ :: IsLabelChar(c)
  }

  datatype LabelError = LabelRequired | DotLabel | LabelTooLong | UnsupportedCharacter

  /** The length of a string in UTF-8. */
  function Utf8Length(s: string): nat {
    if s == [] then 0
    else
      var c := s[|s| - 1];
      Utf8Length(s[..|s| - 1]) + if c < '\U{80}' then 1 else if c < '\U{800}' then 2 else if c < '\U{10000}' then 3 else 4
  }

  lemma {:induction false} Utf8LengthBounds(s: string)
    ensures Utf8Length(s) >= |s|
    ensures (forall c <- s :: IsLabelChar(c)) ==> Utf8Length(s) == |s|
  {
    if s != [] {
      Utf8LengthBounds(s[..|s| - 1]);
      assert s[|s| - 1] in s;
    }
  }

  /** Bytes are counted character by character: one below U+0080, two below U+0800, three below U+10000,
      and four from there on. */
  lemma {:induction false} Utf8LengthCounts(s: string, t: string, c: char)
    ensures Utf8Length(s + t) == Utf8Length(s) + Utf8Length(t)
    ensures Utf8Length([c])
            == if (c as int) < 128 then 1 else if (c as int) < 2048 then 2 else if (c as int) < 65536 then 3 else 4
  {
    if t == [] {
      assert s + t == s;
    } else {
      Utf8LengthCounts(s, t[..|t| - 1], c);
      assert (s + t)[..|s + t| - 1] == s + t[..|t| - 1];
    }
  }

  /** `validate_safe_label` accepts exactly the safe labels. */
  method ValidateSafeLabel(label_: string) returns (o: Outcome<(), LabelError>)
    ensures !o.Crashed?
    ensures o.Done? <==> IsSafeLabel(label_)
    ensures o == Refused(LabelRequired) <==> label_ == ""
    ensures o == Refused(DotLabel) <==> label_ == "." || label_ == ".."
    ensures o == Refused(LabelTooLong) <==> Utf8Length(label_) > 96
    ensures o == Refused(UnsupportedCharacter) ==> exists c <- label_ :: !IsLabelChar(c)
  {
    Utf8LengthBounds(label_);
    if label_ == "" {
      return Refused(LabelRequired);
    }
    if label_ == "." || label_ == ".." {
      assert label_[0] == '.' && label_[0] in label_;
      assert Utf8Length(".") == 1 && ".."[..1] == "." && Utf8Length("..") == 2;
      return Refused(DotLabel);
    }
    if Utf8Length(label_) > 96 {
      return Refused(LabelTooLong);
    }
    for i := 0 to |label_|
      invariant forall k :: 0 <= k < i ==> IsLabelChar(label_[k])
    {
      if !IsLabelChar(label_[i]) {
        assert label_[i] in label_;
        return Refused(UnsupportedCharacter);
      }
    }
    return Done(());
  }

  /** Labels are 1 to 96 ASCII letters, digits, hyphens and underscores. */
  lemma SafeLabelsExactly(label_: string)
    ensures IsSafeLabel(label_)
            <==> && 1 <= |label_| <= 96
                 && forall i | 0 <= i < |label_| ::
                      var c := label_[i] as int;
                      48 <= c <= 57 || 65 <= c <= 90 || 97 <= c <= 122 || c == 45 || c == 95
  {
    forall i | 0 <= i < |label_|
      ensures IsLabelChar(label_[i])
              <==> var c := label_[i] as int; 48 <= c <= 57 || 65 <= c <= 90 || 97 <= c <= 122 || c == 45 || c == 95
    {
    }
    if IsSafeLabel(label_) {
      forall i | 0 <= i < |label_|
        ensures IsLabelChar(label_[i])
      {
        assert label_[i] in label_;
      }
    }
  }

  const STAGING_PREFIX := ".join-staging-"

  /** The directory a process stages a join in. */
  function StagingName(label_: string, pid: nat): string {
    STAGING_PREFIX + label_ + "-" + Decimal(pid)
  }

  /** No valid label names a staging directory. */
  lemma StagingIsNoLabel(label_: string, pid: nat)
    ensures !IsSafeLabel(StagingName(label_, pid))
  {
    var name := StagingName(label_, pid);
    assert name[0] == STAGING_PREFIX[0] == '.' && name[0] in name;
  }

  /** Joins of different conversations or processes stage in different directories. */
  lemma StagingNamesDiffer(label1: string, pid1: nat, label2: string, pid2: nat)
    requires StagingName(label1, pid1) == StagingName(label2, pid2)
    ensures label1 == label2 && pid1 == pid2
  {
    var n1, n2 := StagingName(label1, pid1), StagingName(label2, pid2);
    DigitsEndAtTheDash(label1, pid1, label2, pid2);
    DigitsEndAtTheDash(label2, pid2, label1, pid1);
    var k := |n1| - |Decimal(pid1)|;
    assert n1[k..] == Decimal(pid1) && n2[k..] == Decimal(pid2);
    ValueOfDecimal(pid1);
    ValueOfDecimal(pid2);
    var p := |STAGING_PREFIX|;
    assert n1[p..k - 1] == label1 && n2[p..k - 1] == label2;
  }

  lemma DigitsEndAtTheDash(label1: string, pid1: nat, label2: string, pid2: nat)
    requires StagingName(label1, pid1) == StagingName(label2, pid2)
    ensures |Decimal(pid1)| >= |Decimal(pid2)|
  {
    var n1, n2 := StagingName(label1, pid1), StagingName(label2, pid2);
    var d1, d2 := Decimal(pid1), Decimal(pid2);
    var dash1, dash2 := |n1| - |d1| - 1, |n2| - |d2| - 1;
    assert forall i :: dash2 < i < |n2| ==> n2[i] == d2[i - dash2 - 1] && IsDigit(n2[i]);
    assert n1[dash1] == '-' && !IsDigit('-');
  }

  // ---- The conversations directory ----

  datatype Group = Group(memberCount: nat, epoch: string)

  /** What joining yields: provider storage to save, and the group as it is held in memory. */
  datatype Joined = Joined(storage: Bytes, groupId: string, group: Group)

  /** OpenMLS, with serialized provider storage: joining with a Welcome, and loading a group from storage,
      which finds it or not. That the two yield the same group is not assumed. */
  datatype OpenMls = OpenMls(
    join: (Bytes, Bytes) -> Option<Joined>, load: (Bytes, string) -> Option<Group>, groupIdRef: string -> string)

  /** One run of `conversation-join`: the conversation it is for, and its process. */
  datatype Attempt = Attempt(conversation: string, pid: nat) {

    function Staging(): string {
      StagingName(conversation, pid)
    }
  }

  datatype Summary = Summary(deviceLabel: string, conversationLabel: string, groupIdRef: string, group: Group)

  datatype File = TornFile | ProviderStorage(storage: Bytes) | ConversationSummary(summary: Summary) | JoinSummary(summary: Summary)

  const PROVIDER_STORAGE := "provider-storage.json"
  const CONVERSATION_SUMMARY := "conversation-summary.json"
  const JOIN_SUMMARY := "join-summary.json"

  type Dir = map<string, File>
  type Conversations = map<string, Dir>

  /** Provider storage in which the group loads, and both summaries describing that group. */
  ghost predicate Complete(mls: OpenMls, deviceLabel: string, label_: string, dir: Dir) {
    && PROVIDER_STORAGE in dir && CONVERSATION_SUMMARY in dir && JOIN_SUMMARY in dir
    && dir[PROVIDER_STORAGE].ProviderStorage?
    && exists groupId, group ::
         && mls.load(dir[PROVIDER_STORAGE].storage, groupId) == Some(group)
         && var summary := Summary(deviceLabel, label_, mls.groupIdRef(groupId), group);
            dir[CONVERSATION_SUMMARY] == ConversationSummary(summary) && dir[JOIN_SUMMARY] == JoinSummary(summary)
  }

  /** Every conversation directory was there before the joins under consideration or is complete. */
  ghost predicate Sound(mls: OpenMls, deviceLabel: string, preexisting: set<string>, c: Conversations) {
    && (forall name :: name in preexisting && IsSafeLabel(name) ==> name in c)
    && (forall name :: name in c && IsSafeLabel(name) && name !in preexisting ==> Complete(mls, deviceLabel, name, c[name]))
  }

  /** Existing conversations stay as they are. */
  ghost predicate Keeps(before: Conversations, after: Conversations) {
    forall name :: name in before && IsSafeLabel(name) ==> name in after && after[name] == before[name]
  }

  /** What joins that stage elsewhere may do: conversations stay as they are, and `own` is not touched. */
  ghost predicate Elsewhere(before: Conversations, after: Conversations, own: string) {
    && Keeps(before, after)
    && (own in after <==> own in before) && (own in after ==> after[own] == before[own])
  }

  /** The ways one step of a join changes the directory: its staging directory is set or removed, or is
      renamed to its conversation's name when that is free. */
  ghost predicate Step(before: Conversations, after: Conversations, a: Attempt) {
    var own := a.Staging();
    && IsSafeLabel(a.conversation)
    && (|| (own in after && after == before[own := after[own]])
        || after == before - {own}
        || (own in before && a.conversation !in before && after == (before - {own})[a.conversation := before[own]]))
  }

  lemma StepKeeps(before: Conversations, after: Conversations, a: Attempt)
    requires Step(before, after, a)
    ensures Keeps(before, after)
  {
    StagingIsNoLabel(a.conversation, a.pid);
  }

  /** Every step of one join is something any other join tolerates. */
  lemma StepsAreElsewhere(before: Conversations, after: Conversations, a: Attempt, other: Attempt)
    requires Step(before, after, a) && a != other
    ensures Elsewhere(before, after, other.Staging())
  {
    StagingIsNoLabel(a.conversation, a.pid);
    StagingIsNoLabel(other.conversation, other.pid);
    if a.Staging() == other.Staging() {
      StagingNamesDiffer(a.conversation, a.pid, other.conversation, other.pid);
    }
  }

  /** Every state so far was sound, each followed from the one before by a step of the join that owns it,
      conversations only ever came to be, and `now` is the last state. */
  ghost predicate History(mls: OpenMls, deviceLabel: string, preexisting: set<string>, trace: seq<Conversations>,
                          owners: seq<Attempt>, now: Conversations)
  {
    && (forall c :: c in trace ==> Sound(mls, deviceLabel, preexisting, c))
    && |trace| == |owners| + 1 && trace[|owners|] == now
    && (forall i :: 0 <= i < |owners| ==> Step(trace[i], trace[i + 1], owners[i]))
    && (forall i, j :: 0 <= i < j < |trace| ==> Keeps(trace[i], trace[j]))
  }

  lemma HistoryExtends(mls: OpenMls, deviceLabel: string, preexisting: set<string>, trace: seq<Conversations>,
                       owners: seq<Attempt>, now: Conversations, updated: Conversations, a: Attempt)
    requires History(mls, deviceLabel, preexisting, trace, owners, now)
    requires Sound(mls, deviceLabel, preexisting, updated) && Step(now, updated, a)
    ensures History(mls, deviceLabel, preexisting, trace + [updated], owners + [a], updated)
  {
    hide Sound, Step;
    StepKeeps(now, updated, a);
    var more := trace + [updated];
    forall i, j | 0 <= i < j < |more|
      ensures Keeps(more[i], more[j])
    {
      if j == |trace| && i < |trace| - 1 {
        assert Keeps(trace[i], now);
      }
    }
  }

  /** While only other joins take steps, a join finds its staging directory as it left it. */
  lemma {:induction false} OthersKeepAway(mls: OpenMls, deviceLabel: string, preexisting: set<string>, trace: seq<Conversations>,
                                          owners: seq<Attempt>, now: Conversations, a: Attempt, i: nat, j: nat)
    requires History(mls, deviceLabel, preexisting, trace, owners, now) && i <= j < |trace|
    requires forall k :: i <= k < j ==> owners[k] != a
    ensures Elsewhere(trace[i], trace[j], a.Staging())
    decreases j
  {
    hide Sound, Step;
    if i < j {
      OthersKeepAway(mls, deviceLabel, preexisting, trace, owners, now, a, i, j - 1);
      StepsAreElsewhere(trace[j - 1], trace[j], owners[j - 1], a);
    }
  }

  // ---- The command ----

  datatype JoinError =
    | IdentityMissing
    | InvalidWelcome
    | AlreadyExists
    | IoError
    | DeviceStorageMissing
    | JoinRejected
    | ReloadFailed

  datatype JoinResult = JoinResult(groupIdRef: string, group: Group)

  const MAX_WELCOME_BYTES := 1024 * 1024

  class Store {
    const mls: OpenMls
    const deviceLabel: string
    /** `provider-storage.json` of the device, which a join only reads. */
    const deviceStorage: Option<Bytes>
    var conversations: Conversations

    ghost const preexisting: set<string>
    /** Every state the directory has been in, and the joins whose steps led from each to the next. */
    ghost var trace: seq<Conversations>
    ghost var owners: seq<Attempt>

    ghost predicate Valid()
      reads this
    {
      && Sound(mls, deviceLabel, preexisting, conversations)
      && History(mls, deviceLabel, preexisting, trace, owners, conversations)
    }

    constructor (mls: OpenMls, deviceLabel: string, deviceStorage: Option<Bytes>, conversations: Conversations)
      ensures Valid() && this.mls == mls && this.deviceLabel == deviceLabel && this.deviceStorage == deviceStorage
      ensures this.conversations == conversations && preexisting == conversations.Keys && trace == [conversations]
    {
      this.mls, this.deviceLabel, this.deviceStorage, this.conversations := mls, deviceLabel, deviceStorage, conversations;
      this.preexisting, this.trace, this.owners := conversations.Keys, [conversations], [];
    }

    /** One atomic change of the directory: a step of some join. */
    method Change(a: Attempt, updated: Conversations)
      requires Valid() && Sound(mls, deviceLabel, preexisting, updated) && Step(conversations, updated, a)
      modifies this
      ensures Valid() && conversations == updated && trace == old(trace) + [updated] && owners == old(owners) + [a]
      ensures Keeps(old(conversations), conversations)
    {
      StepKeeps(conversations, updated, a);
      HistoryExtends(mls, deviceLabel, preexisting, trace, owners, conversations, updated, a);
      conversations, trace, owners := updated, trace + [updated], owners + [a];
    }

    /** Steps of other processes' joins: they set, remove and fill their own staging directories and rename
        them when they are complete. */
    method Interfere(a: Attempt)
      requires Valid()
      modifies this
      ensures Valid() && Elsewhere(old(conversations), conversations, a.Staging()) && old(trace) <= trace
      ensures old(owners) <= owners && forall k :: |old(owners)| <= k < |owners| ==> owners[k] != a
    {
      hide Complete, History, Step, Sound, StagingName;
      var steps: int := *;
      for k := 0 to if steps < 0 then 0 else steps
        invariant Valid() && Elsewhere(old(conversations), conversations, a.Staging()) && old(trace) <= trace
        invariant old(owners) <= owners && forall k :: |old(owners)| <= k < |owners| ==> owners[k] != a
      {
        var other: Attempt, dir: Dir, storage: Bytes, groupId: string := *, *, *, *;
        if IsSafeLabel(other.conversation) && other != a {
          StepOfOther(other, a, dir, storage, groupId);
        }
      }
    }

    method StepOfOther(other: Attempt, a: Attempt, dir: Dir, storage: Bytes, groupId: string)
      requires Valid() && IsSafeLabel(other.conversation) && other != a
      modifies this
      ensures Valid() && Elsewhere(old(conversations), conversations, a.Staging()) && old(trace) <= trace
      ensures owners == old(owners) || owners == old(owners) + [other]
    {
      hide Complete, History;
      var staging, label_ := other.Staging(), other.conversation;
      StagingIsNoLabel(label_, other.pid);
      ghost var before := conversations;
      if * {
        Change(other, conversations[staging := dir]);
        StepsAreElsewhere(before, conversations, other, a);
      } else if * {
        Change(other, conversations - {staging});
        StepsAreElsewhere(before, conversations, other, a);
      } else if staging in conversations && label_ !in conversations && mls.load(storage, groupId).Some?
        && conversations[staging] == Materialized(mls, deviceLabel, label_, storage, groupId, mls.load(storage, groupId).value)
      {
        MaterializedIsComplete(mls, deviceLabel, label_, storage, groupId);
        Change(other, (conversations - {staging})[label_ := conversations[staging]]);
        StepsAreElsewhere(before, conversations, other, a);
      }
    }

    /** Sets this join's staging directory, and lets others go on. */
    method Stage(a: Attempt, dir: Dir)
      requires Valid() && IsSafeLabel(a.conversation)
      modifies this
      ensures Valid() && Keeps(old(conversations), conversations) && old(trace) <= trace
      ensures a.Staging() in conversations && conversations[a.Staging()] == dir
    {
      hide Complete, History;
      StagingIsNoLabel(a.conversation, a.pid);
      Change(a, conversations[a.Staging() := dir]);
      Interfere(a);
    }

    /** Removes this join's staging directory, if that succeeds. */
    method Unstage(a: Attempt) returns (o: Outcome<(), JoinError>)
      requires Valid() && IsSafeLabel(a.conversation)
      modifies this
      ensures Valid() && Keeps(old(conversations), conversations) && old(trace) <= trace
      ensures o.Done? ==> a.Staging() !in conversations
      ensures o.Refused? ==> o.error == IoError
    {
      hide Complete, History;
      StagingIsNoLabel(a.conversation, a.pid);
      var partial: Dir := *;
      if a.Staging() in conversations {
        if * {
          Change(a, conversations[a.Staging() := partial]);
          o := Io(IoError);
          if !o.Done? {
            return;
          }
        }
        Change(a, conversations - {a.Staging()});
      }
      Interfere(a);
      return Done(());
    }

    /** Creates and fills one file of the staging directory. */
    method WriteFile(a: Attempt, file: string, content: File) returns (o: Outcome<(), JoinError>)
      requires Valid() && IsSafeLabel(a.conversation) && a.Staging() in conversations
      modifies this
      ensures Valid() && Keeps(old(conversations), conversations) && old(trace) <= trace
      ensures a.Staging() in conversations
      ensures o.Done? ==> conversations[a.Staging()] == old(conversations[a.Staging()])[file := content]
      ensures o.Refused? ==> o.error == IoError
    {
      hide Complete, History, StagingName;
      var dir := conversations[a.Staging()];
      var _ :- Io(IoError);
      Stage(a, dir[file := TornFile]);
      var _ :- Io(IoError);
      Stage(a, dir[file := content]);
      return Done(());
    }

    /** Reloads the group from the storage file and writes both summaries. */
    method Materialize(a: Attempt, storage: Bytes, groupId: string) returns (o: Outcome<Group, JoinError>)
      requires Valid() && IsSafeLabel(a.conversation) && a.Staging() in conversations && conversations[a.Staging()] == map[]
      modifies this
      ensures Valid() && Keeps(old(conversations), conversations) && old(trace) <= trace
      ensures a.Staging() in conversations
      ensures o.Done? ==>
                && mls.load(storage, groupId) == Some(o.value)
                && conversations[a.Staging()] == Materialized(mls, deviceLabel, a.conversation, storage, groupId, o.value)
      ensures o.Refused? ==> o.error in {IoError, ReloadFailed}
      ensures o == Refused(ReloadFailed) ==> mls.load(storage, groupId).None?
    {
      hide Complete, History, StagingName;
      var _ :- WriteFile(a, PROVIDER_STORAGE, ProviderStorage(storage));
      var _ :- Io(IoError);
      var reloaded := mls.load(conversations[a.Staging()][PROVIDER_STORAGE].storage, groupId);
      if reloaded.None? {
        return Refused(ReloadFailed);
      }
      var summary := Summary(deviceLabel, a.conversation, mls.groupIdRef(groupId), reloaded.value);
      var _ :- WriteFile(a, CONVERSATION_SUMMARY, ConversationSummary(summary));
      var _ :- WriteFile(a, JOIN_SUMMARY, JoinSummary(summary));
      return Done(reloaded.value);
    }

    /** Renames the staging directory to the conversation's name, which fails when that is taken. */
    method Publish(a: Attempt) returns (o: Outcome<(), JoinError>)
      requires Valid() && IsSafeLabel(a.conversation) && a.Staging() in conversations
      requires Complete(mls, deviceLabel, a.conversation, conversations[a.Staging()])
      modifies this
      ensures Valid() && Keeps(old(conversations), conversations) && old(trace) <= trace
      ensures o.Done? ==> a.conversation !in old(conversations) && a.conversation in conversations
                          && conversations[a.conversation] == old(conversations[a.Staging()])
      ensures o.Refused? ==> o.error == IoError
    {
      hide Complete, History;
      StagingIsNoLabel(a.conversation, a.pid);
      var _ :- Io(IoError);
      if a.conversation in conversations {
        return Refused(IoError);
      }
      Change(a, (conversations - {a.Staging()})[a.conversation := conversations[a.Staging()]]);
      Interfere(a);
      if * {
        return Crashed;
      }
      return Done(());
    }

    /** `join_dev_conversation`. What is reported is the group held in memory; what the summaries describe
        is the group as reloaded. */
    method Join(identityReady: bool, a: Attempt, welcome: Option<Bytes>) returns (o: Outcome<JoinResult, JoinError>)
      requires Valid() && IsSafeLabel(a.conversation)
      modifies this
      ensures Valid() && Keeps(old(conversations), conversations) && old(trace) <= trace
      ensures o.Done? ==>
                && a.conversation !in old(conversations) && a.conversation in conversations
                && Complete(mls, deviceLabel, a.conversation, conversations[a.conversation])
                && welcome.Some? && 0 < |welcome.value| <= MAX_WELCOME_BYTES && deviceStorage.Some?
                && mls.join(deviceStorage.value, welcome.value).Some?
                && var joined := mls.join(deviceStorage.value, welcome.value).value;
                   && Publishes(mls, deviceLabel, a.conversation, joined, conversations[a.conversation])
                   && o.value == JoinResult(mls.groupIdRef(joined.groupId), joined.group)
      ensures a.conversation in old(conversations) ==> !o.Done?
      ensures o == Refused(IdentityMissing) ==> !identityReady
      ensures o == Refused(InvalidWelcome) ==> welcome.None? || |welcome.value| == 0 || |welcome.value| > 1048576
      ensures o == Refused(DeviceStorageMissing) ==> deviceStorage.None?
      ensures o == Refused(JoinRejected) ==>
                welcome.Some? && deviceStorage.Some? && mls.join(deviceStorage.value, welcome.value).None?
      ensures o == Refused(ReloadFailed) ==>
                && welcome.Some? && deviceStorage.Some? && mls.join(deviceStorage.value, welcome.value).Some?
                && var joined := mls.join(deviceStorage.value, welcome.value).value;
                   mls.load(joined.storage, joined.groupId).None?
      ensures !identityReady || welcome.None? || |welcome.value| == 0 || |welcome.value| > 1048576 ==>
                !o.Done? && conversations == old(conversations) && trace == old(trace)
    {
      hide Complete, Sound, History, Publishes, StagingName;
      var _ :- Io(IoError);
      if !identityReady {
        return Refused(IdentityMissing);
      }
      if welcome.None? || |welcome.value| == 0 || |welcome.value| > MAX_WELCOME_BYTES {
        return Refused(InvalidWelcome);
      }
      Interfere(a);
      if a.conversation in conversations {
        return Refused(AlreadyExists);
      }
      var _ :- Unstage(a);
      var _ :- Io(IoError);
      if deviceStorage.None? {
        return Refused(DeviceStorageMissing);
      }
      var _ :- Io(IoError);
      var joined := mls.join(deviceStorage.value, welcome.value);
      if joined.None? {
        return Refused(JoinRejected);
      }
      o := StageAndPublish(a, joined.value);
      if o.Done? {
        PublishedIsComplete(mls, deviceLabel, a.conversation, joined.value, conversations[a.conversation]);
      }
    }

    /** The part of `join_dev_conversation` that writes. */
    method StageAndPublish(a: Attempt, joined: Joined) returns (o: Outcome<JoinResult, JoinError>)
      requires Valid() && IsSafeLabel(a.conversation)
      modifies this
      ensures Valid() && Keeps(old(conversations), conversations) && old(trace) <= trace
      ensures o.Done? ==>
                && a.conversation !in old(conversations) && a.conversation in conversations
                && Publishes(mls, deviceLabel, a.conversation, joined, conversations[a.conversation])
                && o.value == JoinResult(mls.groupIdRef(joined.groupId), joined.group)
      ensures o.Refused? ==> o.error in {IoError, ReloadFailed, AlreadyExists}
      ensures o == Refused(ReloadFailed) ==> mls.load(joined.storage, joined.groupId).None?
    {
      hide Complete, Sound, History, Materialized, Publishes, StagingName;
      var memberCount, epoch := joined.group.memberCount, joined.group.epoch;
      var groupIdRef := mls.groupIdRef(joined.groupId);
      var _ :- Io(IoError);
      Stage(a, map[]);
      var materialized := Materialize(a, joined.storage, joined.groupId);
      if materialized.Crashed? {
        return Crashed;
      }
      if materialized.Refused? {
        o := GiveUp(a, materialized.error);
        return;
      }
      MaterializedIsComplete(mls, deviceLabel, a.conversation, joined.storage, joined.groupId);
      MaterializedIsPublished(mls, deviceLabel, a.conversation, joined);
      if a.conversation in conversations {
        o := GiveUp(a, AlreadyExists);
        return;
      }
      var published := Publish(a);
      if published.Crashed? {
        return Crashed;
      }
      if published.Refused? {
        o := GiveUp(a, published.error);
        return;
      }
      return Done(JoinResult(groupIdRef, Group(memberCount, epoch)));
    }

    /** Tries to remove the staging directory and reports the error. */
    method GiveUp(a: Attempt, error: JoinError) returns (o: Outcome<JoinResult, JoinError>)
      requires Valid() && IsSafeLabel(a.conversation)
      modifies this
      ensures Valid() && Keeps(old(conversations), conversations) && old(trace) <= trace && !o.Done?
      ensures o.Refused? ==> o.error == error
    {
      var removed := Unstage(a);
      return if removed.Crashed? then Crashed else Refused(error);
    }
  }

  datatype Request = Request(identityReady: bool, conversation: string, welcome: Option<Bytes>, pid: nat)

  /** Any joins, each possibly failing or cut short, with joins of other processes in between. */
  method RunJoins(store: Store, requests: seq<Request>)
    requires store.Valid()
    modifies store
    ensures store.Valid() && Keeps(old(store.conversations), store.conversations) && old(store.trace) <= store.trace
  {
    hide Complete, History, Sound;
    for k := 0 to |requests|
      invariant store.Valid() && Keeps(old(store.conversations), store.conversations) && old(store.trace) <= store.trace
    {
      var label_ := requests[k].conversation;
      var valid := ValidateSafeLabel(label_);
      if valid.Done? {
        var _ := store.Join(requests[k].identityReady, Attempt(label_, requests[k].pid), requests[k].welcome);
      }
    }
  }

  /** Joining is all or nothing: at every moment a conversation that was not there to begin with is either
      absent or complete, and no step of a join changes it from then on. */
  lemma JoinIsAllOrNothing(mls: OpenMls, deviceLabel: string, preexisting: set<string>, trace: seq<Conversations>,
                           owners: seq<Attempt>, now: Conversations, label_: string, i: nat)
    requires History(mls, deviceLabel, preexisting, trace, owners, now) && i < |trace|
    requires IsSafeLabel(label_) && label_ !in preexisting
    ensures label_ in trace[i] ==>
              && Complete(mls, deviceLabel, label_, trace[i][label_])
              && forall j :: i <= j < |trace| ==> label_ in trace[j] && trace[j][label_] == trace[i][label_]
  {
    hide Complete;
    assert trace[i] in trace;
    forall j | i < j < |trace|
      ensures Keeps(trace[i], trace[j])
    {
    }
  }

  /** The directory a join publishes. */
  function Materialized(mls: OpenMls, deviceLabel: string, label_: string, storage: Bytes, groupId: string, group: Group): Dir {
    var summary := Summary(deviceLabel, label_, mls.groupIdRef(groupId), group);
    map[PROVIDER_STORAGE := ProviderStorage(storage)][CONVERSATION_SUMMARY := ConversationSummary(summary)]
       [JOIN_SUMMARY := JoinSummary(summary)]
  }

  /** What a join publishes: the group reloads from the published storage, and both summaries describe it
      as reloaded. */
  ghost predicate Publishes(mls: OpenMls, deviceLabel: string, label_: string, joined: Joined, dir: Dir) {
    && mls.load(joined.storage, joined.groupId).Some?
    && var reloaded := Summary(deviceLabel, label_, mls.groupIdRef(joined.groupId), mls.load(joined.storage, joined.groupId).value);
       && dir.Keys == {"provider-storage.json", "conversation-summary.json", "join-summary.json"}
       && dir["provider-storage.json"] == ProviderStorage(joined.storage)
       && dir["conversation-summary.json"] == ConversationSummary(reloaded) && dir["join-summary.json"] == JoinSummary(reloaded)
  }

  lemma MaterializedIsPublished(mls: OpenMls, deviceLabel: string, label_: string, joined: Joined)
    requires mls.load(joined.storage, joined.groupId).Some?
    ensures Publishes(mls, deviceLabel, label_, joined,
                      Materialized(mls, deviceLabel, label_, joined.storage, joined.groupId,
                                   mls.load(joined.storage, joined.groupId).value))
  {
    assert PROVIDER_STORAGE[0] == 'p' && CONVERSATION_SUMMARY[0] == 'c' && JOIN_SUMMARY[0] == 'j';
  }

  lemma PublishedIsComplete(mls: OpenMls, deviceLabel: string, label_: string, joined: Joined, dir: Dir)
    requires Publishes(mls, deviceLabel, label_, joined, dir)
    ensures Complete(mls, deviceLabel, label_, dir)
  {
  }

  /** The report of a join agrees with the summaries it published exactly when the group held in memory
      is the group as reloaded. */
  lemma ReportAgreesWithSummaries(mls: OpenMls, deviceLabel: string, label_: string, joined: Joined, dir: Dir, r: JoinResult)
    requires Publishes(mls, deviceLabel, label_, joined, dir) && r == JoinResult(mls.groupIdRef(joined.groupId), joined.group)
    ensures var reported := Summary(deviceLabel, label_, r.groupIdRef, r.group);
            && CONVERSATION_SUMMARY in dir && JOIN_SUMMARY in dir
            && (dir[CONVERSATION_SUMMARY] == ConversationSummary(reported) && dir[JOIN_SUMMARY] == JoinSummary(reported)
                <==> mls.load(joined.storage, joined.groupId) == Some(joined.group))
  {
  }

  lemma MaterializedIsComplete(mls: OpenMls, deviceLabel: string, label_: string, storage: Bytes, groupId: string)
    requires mls.load(storage, groupId).Some?
    ensures Complete(mls, deviceLabel, label_,
                     Materialized(mls, deviceLabel, label_, storage, groupId, mls.load(storage, groupId).value))
  {
    assert PROVIDER_STORAGE[0] == 'p' && CONVERSATION_SUMMARY[0] == 'c' && JOIN_SUMMARY[0] == 'j';
  }
}
