/**
 * `TrainedMessage`: a labelled example, its validations and the
 * callbacks that ask for the classifier to be retrained.
 */
module TrainedMessages {
  import opened Wrappers
  import opened Strings

  /** The label of an example; the `maybe_*` labels are tentative ones written by detection. */
  datatype MessageType = Spam | Ham | Untrained | MaybeSpam | MaybeHam

  /** What the example's text is: a message body or a sender's display name. */
  datatype TrainingTarget = MessageContent | UserName

  /** Who set the label. */
  datatype MarkedBy = NotMarkedYet | GroupAdmin | AdminDashboard | AutoSync

  /**
   * The SHA-256 hex digest of a text. Only its injectivity matters, so the
   * digest is the text itself behind a tag.
   */
  datatype Digest = Digest(content: string)

  function HashOf(content: string): (d: Digest)
    ensures d.content == content
  {
    Digest(content)
  }

  /** Two texts share a digest exactly when they are equal. */
  lemma HashInjective(a: string, b: string)
    ensures HashOf(a) == HashOf(b) <==> a == b
  {
  }

  datatype TrainedMessage = TrainedMessage(
    groupId: Option<int>,
    groupName: Option<string>,
    message: Option<string>,
    messageHash: Option<Digest>,
    messageType: Option<MessageType>,
    trainingTarget: TrainingTarget,
    senderChatId: Option<int>,
    senderUserName: Option<string>,
    messageId: int,
    markedBy: MarkedBy,
    updatedAt: int)

  /** The store of examples, in id order. */
  type Store = seq<TrainedMessage>

  /** The presence validations on `group_id`, `message` and `message_type`. */
  predicate Valid(m: TrainedMessage) {
    m.groupId.Some? && m.message.Some? && !IsBlank(m.message.value) && m.messageType.Some?
  }

  /** `trainable?`: the label is a confirmed one. */
  predicate Trainable(m: TrainedMessage) {
    m.messageType == Some(Spam) || m.messageType == Some(Ham)
  }

  /** The retrain request `ClassifierTrainerJob.perform_later(group_id, group_name)`. */
  datatype RetrainJob = RetrainJob(groupId: Option<int>, groupName: Option<string>)

  /** `retrain_classifier`: a request for the record's group unless it is `untrained`. */
  function Retrain(m: TrainedMessage): (jobs: seq<RetrainJob>)
    ensures |jobs| <= 1
    ensures jobs != [] <==> m.messageType != Some(Untrained)
    ensures jobs != [] ==> jobs[0].groupId == m.groupId && jobs[0].groupName == m.groupName
  {
    if m.messageType == Some(Untrained) then [] else [RetrainJob(m.groupId, m.groupName)]
  }

  /** `trainable_type_changed?` on the saved change of `message_type`. */
  predicate TypeChanged(before: Option<MessageType>, after: Option<MessageType>) {
    before != after && (before != Some(Untrained) || after != Some(Untrained))
  }

  /** The second disjunct adds nothing: a real change is always a trainable one. */
  lemma TypeChangedIff(before: Option<MessageType>, after: Option<MessageType>)
    ensures TypeChanged(before, after) <==> before != after
  {
  }

  /** `after_create :retrain_classifier, if: :trainable?`. */
  function OnCreate(m: TrainedMessage): (jobs: seq<RetrainJob>)
    ensures |jobs| <= 1
    ensures jobs != [] <==> Trainable(m)
    ensures jobs != [] ==> jobs[0] == RetrainJob(m.groupId, m.groupName)
  {
    if Trainable(m) then Retrain(m) else []
  }

  /** `after_update :retrain_classifier, if: :trainable_type_changed?`. */
  function OnUpdate(before: TrainedMessage, after: TrainedMessage): (jobs: seq<RetrainJob>)
    ensures |jobs| <= 1
    ensures jobs != [] <==> before.messageType != after.messageType && after.messageType != Some(Untrained)
    ensures jobs != [] ==> jobs[0] == RetrainJob(after.groupId, after.groupName)
  {
    if TypeChanged(before.messageType, after.messageType) then Retrain(after) else []
  }

  /** `after_destroy :retrain_classifier, if: :trainable?`. */
  function OnDestroy(m: TrainedMessage): (jobs: seq<RetrainJob>)
    ensures |jobs| <= 1
    ensures jobs != [] <==> Trainable(m)
    ensures jobs != [] ==> jobs[0] == RetrainJob(m.groupId, m.groupName)
  {
    if Trainable(m) then Retrain(m) else []
  }

  /** Relabelling between the two confirmed labels always retrains; dropping to `untrained` never does. */
  lemma RelabelRetrains(m: TrainedMessage, t: MessageType, u: MessageType)
    ensures |OnUpdate(m.(messageType := Some(t)), m.(messageType := Some(u)))| == 1 <==> t != u && u != Untrained
    ensures OnUpdate(m.(messageType := Some(Spam)), m.(messageType := Some(Ham))) != []
    ensures OnUpdate(m.(messageType := Some(Ham)), m.(messageType := Some(Spam))) != []
    ensures OnUpdate(m.(messageType := Some(t)), m.(messageType := Some(Untrained))) == []
  {
  }

  /**
   * `TrainedMessage.create(attrs)`: an invalid record is not saved and runs no
   * callback; a valid one is appended and runs the create callback.
   */
  function Create(db: Store, m: TrainedMessage): (r: (Store, seq<RetrainJob>))
    ensures Valid(m) ==> r.0 == db + [m] && r.1 == OnCreate(m)
    ensures !Valid(m) ==> r.0 == db && r.1 == []
  {
    if Valid(m) then (db + [m], OnCreate(m)) else (db, [])
  }

  /**
   * `record.update!(message_type: t)` at time `now`: no change leaves the
   * record (and its `updated_at`) alone; a change stamps it.
   */
  function SetType(m: TrainedMessage, t: MessageType, now: int): (r: TrainedMessage)
    ensures r.messageType == Some(t)
    ensures m.messageType == Some(t) ==> r == m
    ensures m.messageType != Some(t) ==> r.updatedAt == now && r.(updatedAt := m.updatedAt, messageType := m.messageType) == m
  {
    if m.messageType == Some(t) then m else m.(messageType := Some(t), updatedAt := now)
  }
}
