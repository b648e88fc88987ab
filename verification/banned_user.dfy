/**
 * `BannedUser`: lifting a ban relabels the message that caused it as ham.
 */
module BannedUsers {
  import opened Wrappers
  import opened TrainedMessages

  datatype BannedUser = BannedUser(
    groupId: Option<int>,
    senderChatId: Option<int>,
    senderUserName: Option<string>,
    groupName: Option<string>,
    messageId: int)

  /** The `where(group_id:, sender_chat_id:, message_id:)` filter; a NULL matches only NULL. */
  predicate Matches(ban: BannedUser, m: TrainedMessage) {
    m.groupId == ban.groupId && m.senderChatId == ban.senderChatId && m.messageId == ban.messageId
  }

  /** The number of matching records that are not ham yet. */
  function PendingRelabels(db: Store, ban: BannedUser): nat {
    if db == [] then 0
    else (if Matches(ban, db[0]) && db[0].messageType != Some(Ham) then 1 else 0) + PendingRelabels(db[1..], ban)
  }

  /**
   * `mark_message_as_ham` (after destroy): `update!(message_type: :ham)` on
   * each matching record in turn, each running its own update callback.
   */
  function MarkMessageAsHam(db: Store, ban: BannedUser, now: int): (r: (Store, seq<RetrainJob>))
    ensures |r.0| == |db|
    ensures forall i :: 0 <= i < |db| && Matches(ban, db[i]) ==> r.0[i] == SetType(db[i], Ham, now)
    ensures forall i :: 0 <= i < |db| && !Matches(ban, db[i]) ==> r.0[i] == db[i]
    ensures forall j :: 0 <= j < |r.1| ==> r.1[j].groupId == ban.groupId
    decreases |db|
  {
    if db == [] then ([], [])
    else
      var (rest, jobs) := MarkMessageAsHam(db[1..], ban, now);
      if Matches(ban, db[0]) then
        var m := SetType(db[0], Ham, now);
        ([m] + rest, OnUpdate(db[0], m) + jobs)
      else
        ([db[0]] + rest, jobs)
  }

  /** One retrain request per matching record that actually changed label, none for the rest. */
  lemma {:induction false} RelabelJobs(db: Store, ban: BannedUser, now: int)
    ensures |MarkMessageAsHam(db, ban, now).1| == PendingRelabels(db, ban)
    decreases |db|
  {
    if db != [] {
      RelabelJobs(db[1..], ban, now);
    }
  }

  /** After lifting the ban every matching record is ham, and no other record changed. */
  lemma RelabelledAreHam(db: Store, ban: BannedUser, now: int)
    ensures var db' := MarkMessageAsHam(db, ban, now).0;
            && (forall i :: 0 <= i < |db| && Matches(ban, db[i]) ==> db'[i].messageType == Some(Ham))
            && (forall i :: 0 <= i < |db| && Matches(ban, db[i]) && db[i].messageType == Some(Ham) ==> db'[i] == db[i])
            && PendingRelabels(db', ban) == 0
  {
    NothingPending(db, ban, now);
  }

  lemma {:induction false} NothingPending(db: Store, ban: BannedUser, now: int)
    ensures PendingRelabels(MarkMessageAsHam(db, ban, now).0, ban) == 0
    decreases |db|
  {
    if db != [] {
      NothingPending(db[1..], ban, now);
      var db' := MarkMessageAsHam(db, ban, now).0;
      assert db'[1..] == MarkMessageAsHam(db[1..], ban, now).0;
    }
  }
}
