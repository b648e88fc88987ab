/**
 * `SpamClassifierService`: bootstrapping a group's state, Naive Bayes
 * training, rebuilding from the labelled store, and the cold-start guard
 * of classification.
 */
module Classifier {
  import opened Wrappers
  import opened Strings
  import opened Counts
  import opened ClassifierStates
  import opened TrainedMessages
  import opened Tokenizer

  // ------------------------------------------------------------ bootstrap

  /** The template of a new state: the most recently updated group-chat state. */
  function Template(states: seq<State>): (t: Option<State>)
    ensures t.None? <==> forall s :: s in states ==> s.groupId >= 0
    ensures t.Some? ==> t.value in states && t.value.groupId < 0
    ensures t.Some? ==> forall s :: s in states && s.groupId < 0 ==> s.updatedAt <= t.value.updatedAt
  {
    var t := MostRecent(ForGroup(states));
    assert t.None? ==> forall s :: s in states ==> s !in ForGroup(states);
    t
  }

  /**
   * `initialize`: `find_or_create_by!(group_id:)`. A stored state is reused
   * untouched; otherwise a new one is appended that copies the template's
   * counters (or starts from zero) and takes the caller's group name.
   */
  function FindOrCreate(states: seq<State>, groupId: int, groupName: Option<string>, now: int)
    : (r: (seq<State>, State))
    ensures r.1.groupId == groupId
    ensures Find(states, groupId).Some? ==> r.0 == states && r.1 == states[Find(states, groupId).value]
    ensures Find(states, groupId).None? ==> r.0 == states + [r.1] && r.1.groupName == groupName
    ensures Find(states, groupId).None? && Template(states).Some? ==> r.1.counters == Template(states).value.counters
    ensures Find(states, groupId).None? && Template(states).None? ==> r.1.counters == ZeroCounters
  {
    match Find(states, groupId)
    case Some(i) => (states, states[i])
    case None =>
      var counters := match Template(states)
        case Some(t) => t.counters
        case None => ZeroCounters;
      var s := State(groupId, groupName, counters, now);
      (states + [s], s)
  }

  /** Creating on demand keeps `group_id` unique and never touches the stored states. */
  lemma FindOrCreateUnique(states: seq<State>, groupId: int, groupName: Option<string>, now: int)
    requires UniqueGroupIds(states)
    ensures UniqueGroupIds(FindOrCreate(states, groupId, groupName, now).0)
    ensures states <= FindOrCreate(states, groupId, groupName, now).0
  {
  }

  /** A second call for the same group finds what the first one stored. */
  lemma FindOrCreateReuses(states: seq<State>, groupId: int, name1: Option<string>, name2: Option<string>, now1: int, now2: int)
    ensures var (states1, s1) := FindOrCreate(states, groupId, name1, now1);
            FindOrCreate(states1, groupId, name2, now2) == (states1, s1)
  {
    var (states1, s1) := FindOrCreate(states, groupId, name1, now1);
    if Find(states, groupId).None? {
      assert states1[|states|] == s1;
      var f := Find(states1, groupId);
      assert f == Some(|states|);
    }
  }

  // ------------------------------------------------------------- training

  /** The distinct tokens known to either side. */
  function Vocabulary(c: Counters): set<string> {
    c.spamCounts.Keys + c.hamCounts.Keys
  }

  /** The side a message trains: spam for a spam label, ham for every other one. */
  predicate TrainsSpam(m: TrainedMessage) {
    m.messageType == Some(Spam)
  }

  /** Adding one message's tokens to the spam side or to the ham side. */
  function Learn(c: Counters, spam: bool, toks: seq<string>): (r: Counters)
    ensures r.vocabularySize == |Vocabulary(r)|
    ensures Vocabulary(r) == Vocabulary(c) + TokenSet(toks)
  {
    var learnt :=
      if spam then
        c.(spamCounts := Bump(c.spamCounts, toks),
           totalSpamWords := c.totalSpamWords + |toks|,
           totalSpamMessages := c.totalSpamMessages + 1)
      else
        c.(hamCounts := Bump(c.hamCounts, toks),
           totalHamWords := c.totalHamWords + |toks|,
           totalHamMessages := c.totalHamMessages + 1);
    learnt.(vocabularySize := |Vocabulary(learnt)|)
  }

  /** `train_only`: tokenise the message and learn it on the side its label selects. */
  function TrainOnly(env: TokenizerEnv, s: State, m: TrainedMessage): (r: State)
    ensures r.groupId == s.groupId && r.groupName == s.groupName && r.updatedAt == s.updatedAt
    ensures r.counters.vocabularySize == |Vocabulary(r.counters)|
    ensures Vocabulary(r.counters) == Vocabulary(s.counters) + TokenSet(Tokenize(env, m.message))
  {
    s.(counters := Learn(s.counters, TrainsSpam(m), Tokenize(env, m.message)))
  }

  /** Learning a spam example: one more message, |tokens| more words, each token counted; ham side untouched. */
  lemma LearnSpam(c: Counters, toks: seq<string>)
    ensures var r := Learn(c, true, toks);
            && r.totalSpamMessages == c.totalSpamMessages + 1
            && r.totalSpamWords == c.totalSpamWords + |toks|
            && (forall w :: Get(r.spamCounts, w) == Get(c.spamCounts, w) + multiset(toks)[w])
            && r.hamCounts == c.hamCounts && r.totalHamWords == c.totalHamWords
            && r.totalHamMessages == c.totalHamMessages
  {
    BumpCounts(c.spamCounts, toks);
  }

  /** Learning a ham example mirrors `LearnSpam` on the other side. */
  lemma LearnHam(c: Counters, toks: seq<string>)
    ensures var r := Learn(c, false, toks);
            && r.totalHamMessages == c.totalHamMessages + 1
            && r.totalHamWords == c.totalHamWords + |toks|
            && (forall w :: Get(r.hamCounts, w) == Get(c.hamCounts, w) + multiset(toks)[w])
            && r.spamCounts == c.spamCounts && r.totalSpamWords == c.totalSpamWords
            && r.totalSpamMessages == c.totalSpamMessages
  {
    BumpCounts(c.hamCounts, toks);
  }

  /** A spam-labelled message goes to the spam side; every other label, `untrained` and the tentative ones included, to the ham side. */
  lemma TrainSide(env: TokenizerEnv, s: State, m: TrainedMessage)
    ensures m.messageType == Some(Spam) ==> TrainOnly(env, s, m).counters == Learn(s.counters, true, Tokenize(env, m.message))
    ensures m.messageType != Some(Spam) ==> TrainOnly(env, s, m).counters == Learn(s.counters, false, Tokenize(env, m.message))
  {
  }

  /** The word totals keep their distance to the count sums. */
  lemma LearnKeepsDrift(c: Counters, spam: bool, toks: seq<string>)
    ensures var r := Learn(c, spam, toks);
            && r.totalSpamWords - Sum(r.spamCounts) == c.totalSpamWords - Sum(c.spamCounts)
            && r.totalHamWords - Sum(r.hamCounts) == c.totalHamWords - Sum(c.hamCounts)
  {
    if spam {
      BumpSum(c.spamCounts, toks);
    } else {
      BumpSum(c.hamCounts, toks);
    }
  }

  /** Counters that agree with their tables: word totals are the sums, the vocabulary the key union. */
  ghost predicate Consistent(c: Counters) {
    && c.totalSpamWords == Sum(c.spamCounts)
    && c.totalHamWords == Sum(c.hamCounts)
    && c.vocabularySize == |Vocabulary(c)|
  }

  lemma ZeroConsistent()
    ensures Consistent(ZeroCounters)
  {
    assert Vocabulary(ZeroCounters) == {};
  }

  lemma LearnConsistent(c: Counters, spam: bool, toks: seq<string>)
    requires Consistent(c)
    ensures Consistent(Learn(c, spam, toks))
  {
    LearnKeepsDrift(c, spam, toks);
  }

  /** `train_only` over a list of messages, in order, on the counters alone. */
  function TrainAll(env: TokenizerEnv, c: Counters, ms: seq<TrainedMessage>): Counters
    decreases |ms|
  {
    if ms == [] then c else TrainAll(env, Learn(c, TrainsSpam(ms[0]), Tokenize(env, ms[0].message)), ms[1..])
  }

  lemma {:induction false} TrainAllConsistent(env: TokenizerEnv, c: Counters, ms: seq<TrainedMessage>)
    requires Consistent(c)
    ensures Consistent(TrainAll(env, c, ms))
    decreases |ms|
  {
    if ms != [] {
      var toks := Tokenize(env, ms[0].message);
      LearnConsistent(c, TrainsSpam(ms[0]), toks);
      TrainAllConsistent(env, Learn(c, TrainsSpam(ms[0]), toks), ms[1..]);
    }
  }

  /**
   * The `updated_at` stamping of `save!`: a record whose attributes did not
   * change keeps its timestamp, a changed one gets `now`.
   */
  function Saved(before: State, after: State, now: int): (r: State)
    ensures r.counters == after.counters && r.groupId == after.groupId && r.groupName == after.groupName
    ensures r.updatedAt == if after.(updatedAt := before.updatedAt) == before then before.updatedAt else now
  {
    if after.(updatedAt := before.updatedAt) == before then before else after.(updatedAt := now)
  }

  /** `train`: `train_only` and a save, which always stamps since a message total grows. */
  function Train(env: TokenizerEnv, s: State, m: TrainedMessage, now: int): (r: State)
    ensures r.counters == TrainOnly(env, s, m).counters
    ensures r.groupId == s.groupId && r.groupName == s.groupName
    ensures r.updatedAt == now
  {
    Saved(s, TrainOnly(env, s, m), now)
  }

  /** Every learnt message adds one to exactly one of the message totals. */
  lemma LearnCountsMessage(c: Counters, spam: bool, toks: seq<string>)
    ensures var r := Learn(c, spam, toks);
            r.totalSpamMessages + r.totalHamMessages == c.totalSpamMessages + c.totalHamMessages + 1
  {
  }

  /** `train_batch`: `train_only` for each message in order, then one save. */
  method TrainBatch(env: TokenizerEnv, s: State, ms: seq<TrainedMessage>, now: int) returns (r: State)
    ensures r.counters == TrainAll(env, s.counters, ms)
    ensures r.groupId == s.groupId && r.groupName == s.groupName
    ensures r.updatedAt == if ms == [] then s.updatedAt else now
  {
    var c := s.counters;
    var i := 0;
    while i < |ms|
      invariant i <= |ms|
      invariant TrainAll(env, c, ms[i..]) == TrainAll(env, s.counters, ms)
      invariant c.totalSpamMessages + c.totalHamMessages == s.counters.totalSpamMessages + s.counters.totalHamMessages + i
    {
      assert ms[i..][1..] == ms[i + 1..];
      var toks := Tokenize(env, ms[i].message);
      LearnCountsMessage(c, TrainsSpam(ms[i]), toks);
      c := Learn(c, TrainsSpam(ms[i]), toks);
      i := i + 1;
    }
    r := Saved(s, s.(counters := c), now);
  }

  // ------------------------------------------------------------- rebuild

  /** `trainable.for_user_name` / `trainable.for_message_content`: confirmed examples of one target, any group. */
  function Selected(db: Store, target: TrainingTarget): (r: seq<TrainedMessage>)
    ensures |r| <= |db|
    ensures forall m :: m in r <==> m in db && Trainable(m) && m.trainingTarget == target
    ensures forall m :: multiset(r)[m] == if Trainable(m) && m.trainingTarget == target then multiset(db)[m] else 0
    ensures IsSubseq(r, db)
  {
    if db == [] then []
    else
      var rest := Selected(db[1..], target);
      assert db == [db[0]] + db[1..];
      if Trainable(db[0]) && db[0].trainingTarget == target then
        SubseqCons(db[0], rest, db[1..]);
        [db[0]] + rest
      else
        SubseqSkip(rest, db);
        rest
  }

  /** The user-name state learns from user names, every other state from message content. */
  function RebuildTarget(groupId: int): (t: TrainingTarget)
    ensures t == UserName <==> groupId == UserNameGroupId
  {
    if groupId == UserNameGroupId then UserName else MessageContent
  }

  /**
   * `rebuild_classifier`: reset the name and every counter, save, retrain on
   * the selected examples in id order, save again.
   */
  function Rebuild(env: TokenizerEnv, s: State, groupName: Option<string>, db: Store, now: int): (r: State)
    ensures r.groupId == s.groupId && r.groupName == groupName
    ensures r.counters == TrainAll(env, ZeroCounters, Selected(db, RebuildTarget(s.groupId)))
  {
    var reset := Saved(s, s.(groupName := groupName, counters := ZeroCounters), now);
    Saved(reset, reset.(counters := TrainAll(env, ZeroCounters, Selected(db, RebuildTarget(s.groupId)))), now)
  }

  /** Whatever the state held before, a rebuilt one is consistent. */
  lemma RebuildConsistent(env: TokenizerEnv, s: State, groupName: Option<string>, db: Store, now: int)
    ensures Consistent(Rebuild(env, s, groupName, db, now).counters)
  {
    ZeroConsistent();
    TrainAllConsistent(env, ZeroCounters, Selected(db, RebuildTarget(s.groupId)));
  }

  /** The rebuilt counters do not depend on the counters held before. */
  lemma RebuildForgets(env: TokenizerEnv, s: State, t: State, groupName: Option<string>, db: Store, now: int)
    requires s.groupId == t.groupId
    ensures Rebuild(env, s, groupName, db, now).counters == Rebuild(env, t, groupName, db, now).counters
  {
  }

  /** Rebuilding twice from the same store gives the counters of rebuilding once. */
  lemma RebuildIdempotent(env: TokenizerEnv, s: State, groupName: Option<string>, db: Store, now: int, later: int)
    ensures Rebuild(env, Rebuild(env, s, groupName, db, now), groupName, db, later).counters
            == Rebuild(env, s, groupName, db, now).counters
  {
  }

  // -------------------------------------------------------------- classify

  /** The value of `classify`: the decision, the spam log-score and the ham log-score. */
  datatype Verdict = Verdict(isSpam: bool, spamScore: real, hamScore: real)

  /**
   * `classify`: no verdict before both labels have been seen; otherwise the
   * Naive Bayes score of the message's tokens, given as `score`.
   */
  function Classify(env: TokenizerEnv, s: State, text: Option<string>, score: (Counters, seq<string>) -> Verdict)
    : (v: Verdict)
    ensures s.counters.totalSpamMessages == 0 || s.counters.totalHamMessages == 0 ==> v == Verdict(false, 0.0, 0.0)
    ensures s.counters.totalSpamMessages != 0 && s.counters.totalHamMessages != 0
            ==> v == score(s.counters, Tokenize(env, text))
  {
    if s.counters.totalHamMessages == 0 || s.counters.totalSpamMessages == 0 then Verdict(false, 0.0, 0.0)
    else score(s.counters, Tokenize(env, text))
  }

  /** A state that has only ever learnt non-spam examples never flags anything, whatever the scorer. */
  lemma ColdStartNeverSpam(env: TokenizerEnv, s: State, ms: seq<TrainedMessage>, text: Option<string>,
                           score: (Counters, seq<string>) -> Verdict)
    requires forall i :: 0 <= i < |ms| ==> ms[i].messageType != Some(Spam)
    ensures !Classify(env, s.(counters := TrainAll(env, ZeroCounters, ms)), text, score).isSpam
  {
    assert forall m :: m in ms ==> !TrainsSpam(m);
    HamOnlyNoSpam(env, ZeroCounters, ms);
  }

  lemma {:induction false} HamOnlyNoSpam(env: TokenizerEnv, c: Counters, ms: seq<TrainedMessage>)
    requires forall m :: m in ms ==> !TrainsSpam(m)
    ensures TrainAll(env, c, ms).totalSpamMessages == c.totalSpamMessages
    decreases |ms|
  {
    if ms != [] {
      var c' := Learn(c, TrainsSpam(ms[0]), Tokenize(env, ms[0].message));
      assert ms[0] in ms;
      HamOnlyNoSpam(env, c', ms[1..]);
    }
  }
}
