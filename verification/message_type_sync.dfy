/**
 * `MessageTypeSyncJob`: give every record sharing a content hash the same
 * label, then queue the relabelled confirmed examples for retraining.
 */
module MessageTypeSync {
  import opened Wrappers
  import opened Strings
  import opened TrainedMessages
  import opened Batches

  const TrainingBatchKey: string := "classifier_training_batch_key"
  const TrainerJobClass: string := "ClassifierTrainerJob"
  const TrainingBatchSize: int := 100
  /** `5.minutes`, in seconds. */
  const TrainingBatchWindow: int := 300

  /**
   * `where(message_hash: h).where.not(message_type: t)`: records with that
   * hash and a different label. In SQL a NULL label is not "different", so
   * such records are not selected.
   */
  predicate ToSync(m: TrainedMessage, h: Digest, t: MessageType) {
    m.messageHash == Some(h) && m.messageType.Some? && m.messageType.value != t
  }

  /** The relation, evaluated against a store. */
  function Selection(db: Store, h: Digest, t: MessageType): (r: Store)
    ensures forall m :: m in r <==> m in db && ToSync(m, h, t)
    ensures forall m :: multiset(r)[m] == if ToSync(m, h, t) then multiset(db)[m] else 0
    ensures IsSubseq(r, db)
  {
    if db == [] then []
    else
      var rest := Selection(db[1..], h, t);
      assert db == [db[0]] + db[1..];
      if ToSync(db[0], h, t) then
        SubseqCons(db[0], rest, db[1..]);
        [db[0]] + rest
      else
        SubseqSkip(rest, db);
        rest
  }

  /** `update_all(message_type:, updated_at:)`: one statement, no callbacks. */
  function UpdateAll(db: Store, h: Digest, t: MessageType, now: int): (r: Store)
    ensures |r| == |db|
    ensures forall i :: 0 <= i < |db| && ToSync(db[i], h, t) ==>
              r[i] == db[i].(messageType := Some(t), updatedAt := now)
    ensures forall i :: 0 <= i < |db| && !ToSync(db[i], h, t) ==> r[i] == db[i]
  {
    if db == [] then []
    else
      var m := if ToSync(db[0], h, t) then db[0].(messageType := Some(t), updatedAt := now) else db[0];
      [m] + UpdateAll(db[1..], h, t, now)
  }

  /** The items the loop hands to `add_to_batch`: the confirmed examples, in order. */
  function Confirmed(ms: Store): (r: Store)
    ensures forall m :: m in r <==> m in ms && Trainable(m)
  {
    if ms == [] then []
    else if Trainable(ms[0]) then [ms[0]] + Confirmed(ms[1..])
    else Confirmed(ms[1..])
  }

  /** One `add_to_batch(TrainingBatchKey, ClassifierTrainerJob, m, …)` call. */
  function AddTraining(sys: System<TrainedMessage>, m: TrainedMessage, now: int): (r: System<TrainedMessage>)
    ensures Delivered(r, TrainingBatchKey) == Delivered(sys, TrainingBatchKey) + [m]
    ensures forall k :: k != TrainingBatchKey ==> Delivered(r, k) == Delivered(sys, k)
  {
    AddDelivers(sys, TrainingBatchKey, TrainerJobClass, m, map[], TrainingBatchSize, TrainingBatchWindow, now);
    AddToBatch(sys, TrainingBatchKey, TrainerJobClass, m, map[], TrainingBatchSize, TrainingBatchWindow, now)
  }

  /** The `each { add_to_batch }` loop, one record at a time. */
  function EnqueueEach(sys: System<TrainedMessage>, ms: Store, now: int): System<TrainedMessage>
    decreases |ms|
  {
    if ms == [] then sys
    else if Trainable(ms[0]) then EnqueueEach(AddTraining(sys, ms[0], now), ms[1..], now)
    else EnqueueEach(sys, ms[1..], now)
  }

  lemma {:induction false} EnqueueDelivers(sys: System<TrainedMessage>, ms: Store, now: int)
    ensures Delivered(EnqueueEach(sys, ms, now), TrainingBatchKey) == Delivered(sys, TrainingBatchKey) + Confirmed(ms)
    ensures forall k :: k != TrainingBatchKey ==> Delivered(EnqueueEach(sys, ms, now), k) == Delivered(sys, k)
    decreases |ms|
  {
    if ms != [] {
      var sys' := if Trainable(ms[0]) then AddTraining(sys, ms[0], now) else sys;
      EnqueueDelivers(sys', ms[1..], now);
    }
  }

  /**
   * `add_to_batch` of each confirmed example on the training batch, in order.
   * Exactly the confirmed examples reach the training batch, in order; no
   * other key receives anything.
   */
  function Enqueue(sys: System<TrainedMessage>, ms: Store, now: int): (r: System<TrainedMessage>)
    ensures Delivered(r, TrainingBatchKey) == Delivered(sys, TrainingBatchKey) + Confirmed(ms)
    ensures forall k :: k != TrainingBatchKey ==> Delivered(r, k) == Delivered(sys, k)
  {
    EnqueueDelivers(sys, ms, now);
    EnqueueEach(sys, ms, now)
  }

  /** After the update no record is left for the relation to select. */
  lemma NothingLeftToSync(db: Store, h: Digest, t: MessageType, now: int)
    ensures Selection(UpdateAll(db, h, t, now), h, t) == []
  {
  }

  /**
   * `perform(h, t)` as written: relabel, then iterate the same relation —
   * which runs its query again, now against the relabelled store. Every
   * labelled record with the hash ends up with the new label, the others
   * (and records already carrying it) are untouched, and since the relation
   * is empty by the time it is iterated, nothing is queued.
   */
  function Perform(db: Store, sys: System<TrainedMessage>, h: Digest, t: MessageType, now: int)
    : (r: (Store, System<TrainedMessage>))
    ensures |r.0| == |db|
    ensures forall i :: 0 <= i < |db| && db[i].messageHash == Some(h) && db[i].messageType.Some?
              ==> r.0[i].messageType == Some(t)
    ensures forall i :: 0 <= i < |db| && db[i].messageHash != Some(h) ==> r.0[i] == db[i]
    ensures forall i :: 0 <= i < |db| && db[i].messageType == Some(t) ==> r.0[i] == db[i]
    ensures r.1 == sys
  {
    var db' := UpdateAll(db, h, t, now);
    NothingLeftToSync(db, h, t, now);
    (db', Enqueue(sys, Selection(db', h, t), now))
  }

  /** The selected records as the update leaves them. */
  function Relabelled(ms: Store, t: MessageType, now: int): (r: Store)
    ensures |r| == |ms|
    ensures forall i :: 0 <= i < |ms| ==> r[i] == ms[i].(messageType := Some(t), updatedAt := now)
  {
    if ms == [] then [] else [ms[0].(messageType := Some(t), updatedAt := now)] + Relabelled(ms[1..], t, now)
  }

  lemma {:induction false} ConfirmedRelabelled(ms: Store, t: MessageType, now: int)
    ensures Confirmed(Relabelled(ms, t, now)) == if t == Spam || t == Ham then Relabelled(ms, t, now) else []
    decreases |ms|
  {
    if ms != [] {
      ConfirmedRelabelled(ms[1..], t, now);
      assert Relabelled(ms, t, now)[1..] == Relabelled(ms[1..], t, now);
    }
  }

  /**
   * `perform(h, t)` as the retraining comment intends: the records the
   * relation selects before the update are the ones relabelled, and those
   * are queued when their new label is a confirmed one.
   */
  function PerformIntended(db: Store, sys: System<TrainedMessage>, h: Digest, t: MessageType, now: int)
    : (r: (Store, System<TrainedMessage>))
    ensures r.0 == Perform(db, sys, h, t, now).0
    ensures Delivered(r.1, TrainingBatchKey)
            == Delivered(sys, TrainingBatchKey)
               + (if t == Spam || t == Ham then Relabelled(Selection(db, h, t), t, now) else [])
    ensures forall k :: k != TrainingBatchKey ==> Delivered(r.1, k) == Delivered(sys, k)
  {
    var changed := Relabelled(Selection(db, h, t), t, now);
    ConfirmedRelabelled(Selection(db, h, t), t, now);
    (UpdateAll(db, h, t, now), Enqueue(sys, changed, now))
  }

  /** A ham record relabelled as spam: the job as written queues nothing, the intended one queues it. */
  lemma SyncDropsRetraining(m: TrainedMessage, sys: System<TrainedMessage>, now: int)
    requires m.messageHash.Some? && m.messageType == Some(Ham)
    ensures Perform([m], sys, m.messageHash.value, Spam, now).1 == sys
    ensures Delivered(PerformIntended([m], sys, m.messageHash.value, Spam, now).1, TrainingBatchKey)
            == Delivered(sys, TrainingBatchKey) + [m.(messageType := Some(Spam), updatedAt := now)]
  {
    var h := m.messageHash.value;
    assert Selection([m], h, Spam) == [m];
  }
}
