/**
 * `SpamDetectionService`: assembling the text to check from an incoming
 * message, then the decision pipeline — blank check, rule pre-filter,
 * memo lookup by content hash, Bayesian fallback per target, and the
 * tentative records it writes back.
 */
module Detection {
  import opened Wrappers
  import opened Chars
  import opened Strings
  import opened TextCleaner
  import opened TrainedMessages
  import opened RuleClassifier
  import Classifier

  datatype Chat = Chat(id: Option<int>, title: Option<string>)
  datatype Sender = Sender(id: Option<int>, firstName: Option<string>, lastName: Option<string>)

  /** The fields of an incoming message the service reads. */
  datatype IncomingMessage = IncomingMessage(
    chat: Option<Chat>,
    from: Option<Sender>,
    text: Option<string>,
    signals: Option<seq<string>>,
    messageId: int)

  /** What `initialize` extracts from the message. */
  datatype Detector = Detector(
    groupId: Option<int>,
    groupName: Option<string>,
    userId: Option<int>,
    userName: string,
    text: string,
    messageId: int)

  /** Ruby's `nil` for an absent receiver of a method call. */
  datatype Error = NoMethodError

  /** `Array#join(" ")`. */
  function JoinSpace(parts: seq<string>): (r: string)
    ensures parts == [] ==> r == ""
    ensures |parts| == 1 ==> r == parts[0]
  {
    if parts == [] then ""
    else if |parts| == 1 then parts[0]
    else parts[0] + " " + JoinSpace(parts[1..])
  }

  /** `[first, last].compact.join(" ")`. */
  function DisplayName(from: Option<Sender>): (r: string)
    ensures from.None? ==> r == ""
    ensures from.Some? && from.value.firstName.Some? && from.value.lastName.Some?
            ==> r == from.value.firstName.value + " " + from.value.lastName.value
    ensures from.Some? && from.value.firstName.Some? && from.value.lastName.None? ==> r == from.value.firstName.value
    ensures from.Some? && from.value.firstName.None? && from.value.lastName.Some? ==> r == from.value.lastName.value
    ensures from.Some? && from.value.firstName.None? && from.value.lastName.None? ==> r == ""
  {
    match from
    case None => ""
    case Some(u) =>
      var names := (if u.firstName.Some? then [u.firstName.value] else [])
                 + (if u.lastName.Some? then [u.lastName.value] else []);
      JoinSpace(names)
  }

  /**
   * `initialize`: the text checked is the forwarded body (or the raw text),
   * followed by a space and the space-joined signals when there are any. A
   * message without text makes the extraction call fail.
   */
  function Initialize(m: IncomingMessage): (r: Result<Detector, Error>)
    ensures m.text.None? <==> r.Failure?
    ensures r.Success? ==> var body := ExtractFoundMessage(m.text.value);
                           var signals := m.signals.GetOr([]);
                           r.value.text == if signals == [] then body else body + " " + JoinSpace(signals)
    ensures r.Success? ==> r.value.userName == DisplayName(m.from) && r.value.messageId == m.messageId
    ensures r.Success? ==> r.value.groupId == (if m.chat.Some? then m.chat.value.id else None)
    ensures r.Success? ==> r.value.groupName == (if m.chat.Some? then m.chat.value.title else None)
    ensures r.Success? ==> r.value.userId == (if m.from.Some? then m.from.value.id else None)
  {
    match m.text
    case None => Failure(NoMethodError)
    case Some(t) =>
      var raw := ExtractFoundMessage(t);
      var signals := m.signals.GetOr([]);
      var text := if |signals| > 0 then raw + " " + JoinSpace(signals) else raw;
      Success(Detector(
        if m.chat.Some? then m.chat.value.id else None,
        if m.chat.Some? then m.chat.value.title else None,
        if m.from.Some? then m.from.value.id else None,
        DisplayName(m.from),
        text,
        m.messageId))
  }

  /** A forwarded report without signals is checked on its body alone. */
  lemma InitializeForwarded(chat: Option<Chat>, from: Option<Sender>, messageId: int,
                            keyword: string, group: string, groupHandle: string,
                            sender: string, senderId: string, body: string)
    requires FieldWithout(keyword, '"') && FieldWithout(group, '(')
    requires FieldWithout(groupHandle, ')') && FieldWithout(senderId, ')')
    requires forall k :: 0 <= k < |sender| ==> sender[k] != '('
    requires body != [] ==> !IsRegexSpace(body[0])
    ensures var m := IncomingMessage(chat, from, Some(Forwarded(keyword, group, groupHandle, sender, senderId, body)),
                                     None, messageId);
            Initialize(m).Success? && Initialize(m).value.text == body
  {
    ExtractFoundMessageOfForwarded(keyword, group, groupHandle, sender, senderId, body);
  }

  // ------------------------------------------------------------- records

  /** `valid_message?`: something is left after stripping. */
  predicate ValidMessage(d: Detector)
    ensures ValidMessage(d) <==> exists k :: 0 <= k < |d.text| && !IsStripSpace(d.text[k])
  {
    Strip(d.text) != []
  }

  /** The record `create_trained_message` builds. */
  function NewRecord(d: Detector, content: string, target: TrainingTarget, t: MessageType, now: int)
    : (m: TrainedMessage)
    ensures m.messageHash == Some(HashOf(content)) && m.message == Some(content)
    ensures m.markedBy == AutoSync <==> t == Spam || t == Ham
    ensures m.markedBy != AutoSync ==> m.markedBy == NotMarkedYet
    ensures m.messageType == Some(t) && m.trainingTarget == target
    ensures m.groupId == d.groupId && m.senderChatId == d.userId && m.messageId == d.messageId
  {
    TrainedMessage(
      d.groupId, d.groupName, Some(content), Some(HashOf(content)), Some(t), target,
      d.userId, Some(d.userName), d.messageId,
      if t == Spam || t == Ham then AutoSync else NotMarkedYet,
      now)
  }

  /** The state the pipeline threads: the result so far, the store and the retrain requests. */
  datatype Outcome = Outcome(result: ClassificationResult, db: Store, jobs: seq<RetrainJob>)

  /** `TrainedMessage.create` of a new record, which validation may refuse. */
  function Record(o: Outcome, m: TrainedMessage): (r: Outcome)
    ensures r.result == o.result
    ensures Valid(m) ==> r.db == o.db + [m] && r.jobs == o.jobs + OnCreate(m)
    ensures !Valid(m) ==> r.db == o.db && r.jobs == o.jobs
  {
    var (db, jobs) := Create(o.db, m);
    Outcome(o.result, db, o.jobs + jobs)
  }

  // ------------------------------------------------------------ lookups

  /** `find_by(message_hash:)`: the first record with that hash, from any group and target. */
  function FindByHash(db: Store, h: Digest): (r: Option<TrainedMessage>)
    ensures r.None? <==> forall i :: 0 <= i < |db| ==> db[i].messageHash != Some(h)
    ensures r.Some? ==> r.value in db && r.value.messageHash == Some(h)
  {
    if db == [] then None
    else if db[0].messageHash == Some(h) then Some(db[0])
    else FindByHash(db[1..], h)
  }

  /** A record of `target` whose label is one of `types`; a NULL label matches no `where(message_type:)`. */
  predicate Labelled(m: TrainedMessage, types: set<MessageType>, target: TrainingTarget) {
    m.trainingTarget == target && m.messageType.Some? && m.messageType.value in types
  }

  /** `where(message_type: types, training_target: target).count`. */
  function CountLabelled(db: Store, types: set<MessageType>, target: TrainingTarget): (n: nat)
    ensures n <= |db|
    ensures n == 0 <==> forall i :: 0 <= i < |db| ==> !Labelled(db[i], types, target)
  {
    if db == [] then 0
    else
      assert forall i :: 1 <= i < |db| ==> db[i] == db[1..][i - 1];
      (if Labelled(db[0], types, target) then 1 else 0) + CountLabelled(db[1..], types, target)
  }

  /** Storing one more record raises a count by one exactly when that record is counted. */
  lemma {:induction false} CountLabelledSnoc(db: Store, m: TrainedMessage, types: set<MessageType>,
                                             target: TrainingTarget)
    ensures CountLabelled(db + [m], types, target)
            == CountLabelled(db, types, target) + (if Labelled(m, types, target) then 1 else 0)
    decreases |db|
  {
    if db == [] {
      assert [m][1..] == [];
    } else {
      assert (db + [m])[1..] == db[1..] + [m];
      CountLabelledSnoc(db[1..], m, types, target);
    }
  }

  /** Counts over disjoint label sets add up. */
  lemma {:induction false} CountLabelledUnion(db: Store, a: set<MessageType>, b: set<MessageType>,
                                              target: TrainingTarget)
    requires a !! b
    ensures CountLabelled(db, a + b, target) == CountLabelled(db, a, target) + CountLabelled(db, b, target)
    decreases |db|
  {
    if db != [] {
      CountLabelledUnion(db[1..], a, b, target);
    }
  }

  /**
   * `get_message_count_by_target`: the (spam + maybe_spam, ham + maybe_ham)
   * counts of a target. The two never count the same record, so together they
   * count the target's records with any of the four labels.
   */
  function CountByTarget(db: Store, target: TrainingTarget): (r: (nat, nat))
    ensures r.0 + r.1 == CountLabelled(db, {Spam, MaybeSpam, Ham, MaybeHam}, target)
    ensures r.0 + r.1 <= |db|
  {
    CountLabelledUnion(db, {Spam, MaybeSpam}, {Ham, MaybeHam}, target);
    assert {Spam, MaybeSpam} + {Ham, MaybeHam} == {Spam, MaybeSpam, Ham, MaybeHam};
    (CountLabelled(db, {Spam, MaybeSpam}, target), CountLabelled(db, {Ham, MaybeHam}, target))
  }

  /** The ham-balancing rule: more spam than ham examples for the target, and a clearly low score. */
  predicate Balances(db: Store, target: TrainingTarget, r: ClassificationResult) {
    var (spam, ham) := CountByTarget(db, target);
    spam > ham && r.pSpam < 0.1
  }

  /** `handle_existing_message`: a memo verdict for confirmed labels, none for any other. */
  function HandleExisting(existing: TrainedMessage): (r: Option<ClassificationResult>)
    ensures existing.messageType == Some(Spam) <==> r.Some? && r.value.isSpam
    ensures existing.messageType == Some(Ham) <==> r == Some(NonSpam)
    ensures existing.messageType !in {Some(Spam), Some(Ham)} <==> r.None?
    ensures r.Some? && r.value.isSpam ==> r.value == ClassificationResult(true, Some(existing.trainingTarget), 1.0)
  {
    match existing.messageType
    case Some(Spam) => Some(ClassificationResult(true, Some(existing.trainingTarget), 1.0))
    case Some(Ham) => Some(NonSpam)
    case _ => None
  }

  /**
   * `classify_with_bayesian`: the classifier of the target (the group's for
   * content, the shared one for user names), whose second value is reported
   * as the score.
   */
  function ClassifyWithBayesian(target: TrainingTarget, value: string,
                                classify: (TrainingTarget, string) -> Classifier.Verdict)
    : (r: ClassificationResult)
    ensures r.isSpam == classify(target, value).isSpam
    ensures r.pSpam == classify(target, value).spamScore
    ensures r.target == Some(target)
  {
    var v := classify(target, value);
    ClassificationResult(v.isSpam, Some(target), v.spamScore)
  }

  /**
   * `check_target`: the memo verdict when the value's hash is known with a
   * confirmed label, the classifier's otherwise. The flag tells whether the
   * verdict came from a confirmed spam record.
   */
  function CheckTarget(db: Store, target: TrainingTarget, value: string,
                       classify: (TrainingTarget, string) -> Classifier.Verdict)
    : (r: (ClassificationResult, bool))
    ensures r.1 <==> FindByHash(db, HashOf(value)).Some? && FindByHash(db, HashOf(value)).value.messageType == Some(Spam)
    ensures r.1 ==> r.0.isSpam && r.0.pSpam == 1.0
    ensures r.1 ==> r.0 == ClassificationResult(true, Some(FindByHash(db, HashOf(value)).value.trainingTarget), 1.0)
    ensures FindByHash(db, HashOf(value)).Some? && FindByHash(db, HashOf(value)).value.messageType == Some(Ham)
            ==> r.0 == NonSpam
    ensures (FindByHash(db, HashOf(value)).None?
             || FindByHash(db, HashOf(value)).value.messageType !in {Some(Spam), Some(Ham)})
            ==> r.0 == ClassifyWithBayesian(target, value, classify)
  {
    var existing := FindByHash(db, HashOf(value));
    if existing.Some? && HandleExisting(existing.value).Some? then
      (HandleExisting(existing.value).value, existing.value.messageType == Some(Spam))
    else
      (ClassifyWithBayesian(target, value, classify), false)
  }

  // ------------------------------------------------------------ pipeline

  /** The targets in the order they are checked. */
  function Targets(d: Detector): seq<(TrainingTarget, string)> {
    [(MessageContent, d.text), (UserName, d.userName)]
  }

  /**
   * The loop over targets. A spam verdict records the target (as `spam` once
   * a confirmed spam record was seen, `maybe_spam` otherwise) and stops; a
   * clean one may record a `maybe_ham` example and goes on.
   */
  function CheckTargets(d: Detector, targets: seq<(TrainingTarget, string)>, o: Outcome, confident: bool,
                        classify: (TrainingTarget, string) -> Classifier.Verdict, now: int)
    : (r: Outcome)
    ensures o.db <= r.db && |r.db| <= |o.db| + |targets|
    ensures !r.result.isSpam ==> r.result == o.result
    decreases |targets|
  {
    if targets == [] then o
    else
      var (target, value) := targets[0];
      var (result, memoSpam) := CheckTarget(o.db, target, value, classify);
      var confident' := confident || memoSpam;
      if result.isSpam then
        Record(o.(result := result), NewRecord(d, value, target, if confident' then Spam else MaybeSpam, now))
      else
        var o' := if Balances(o.db, target, result) then Record(o, NewRecord(d, value, target, MaybeHam, now)) else o;
        CheckTargets(d, targets[1..], o', confident', classify, now)
  }

  /** `process`, with the store, the `\p{Han}` class, the classifiers and the clock as parameters. */
  function Process(d: Detector, db: Store, han: char -> bool,
                   classify: (TrainingTarget, string) -> Classifier.Verdict, now: int)
    : (r: Outcome)
    ensures db <= r.db && |r.db| <= |db| + 2
    ensures !r.result.isSpam ==> r.result == NonSpam
    ensures !ValidMessage(d) ==> r == Outcome(NonSpam, db, [])
  {
    if !ValidMessage(d) then Outcome(NonSpam, db, [])
    else
      var rule := RuleClassifier.Classify(d.text, han);
      if rule.isSpam then
        Record(Outcome(rule, db, []), NewRecord(d, d.text, MessageContent, MaybeSpam, now))
      else
        CheckTargets(d, Targets(d), Outcome(NonSpam, db, []), false, classify, now)
  }

  /** A rule hit stores the text as a tentative spam example and never consults the classifiers. */
  lemma RuleHitShortCircuits(d: Detector, db: Store, han: char -> bool,
                             c1: (TrainingTarget, string) -> Classifier.Verdict,
                             c2: (TrainingTarget, string) -> Classifier.Verdict, now: int)
    requires ValidMessage(d) && RuleClassifier.Classify(d.text, han).isSpam
    ensures var r := Process(d, db, han, c1, now);
            && r == Process(d, db, han, c2, now)
            && r.result == ClassificationResult(true, Some(MessageContent), 1.0)
            && r.db == Create(db, NewRecord(d, d.text, MessageContent, MaybeSpam, now)).0
            && r.jobs == []
  {
  }

  /**
   * A clean verdict for the first target in the memo or the classifier never
   * hides a spam verdict on the second: the content is always checked first,
   * and a spam verdict on it stops before the user name is looked at.
   */
  lemma ContentFirst(d: Detector, db: Store, han: char -> bool,
                     classify: (TrainingTarget, string) -> Classifier.Verdict, now: int)
    requires ValidMessage(d) && !RuleClassifier.Classify(d.text, han).isSpam
    requires CheckTarget(db, MessageContent, d.text, classify).0.isSpam
    ensures var (result, memoSpam) := CheckTarget(db, MessageContent, d.text, classify);
            var r := Process(d, db, han, classify, now);
            && r.result == result
            && r.db == Create(db, NewRecord(d, d.text, MessageContent, if memoSpam then Spam else MaybeSpam, now)).0
  {
  }

  /** At most one retrain request per call: only a memo spam hit writes a trainable record, and it ends the loop. */
  lemma {:induction false} CheckTargetsJobs(d: Detector, targets: seq<(TrainingTarget, string)>, o: Outcome,
                                           confident: bool,
                                           classify: (TrainingTarget, string) -> Classifier.Verdict, now: int)
    ensures var r := CheckTargets(d, targets, o, confident, classify, now);
            |r.jobs| <= |o.jobs| + 1
    decreases |targets|
  {
    if targets != [] {
      var (target, value) := targets[0];
      var (result, memoSpam) := CheckTarget(o.db, target, value, classify);
      if !result.isSpam {
        var o' := if Balances(o.db, target, result) then Record(o, NewRecord(d, value, target, MaybeHam, now)) else o;
        assert o'.jobs == o.jobs;
        CheckTargetsJobs(d, targets[1..], o', confident || memoSpam, classify, now);
      }
    }
  }

  lemma ProcessJobs(d: Detector, db: Store, han: char -> bool,
                    classify: (TrainingTarget, string) -> Classifier.Verdict, now: int)
    ensures |Process(d, db, han, classify, now).jobs| <= 1
  {
    if ValidMessage(d) && !RuleClassifier.Classify(d.text, han).isSpam {
      CheckTargetsJobs(d, Targets(d), Outcome(NonSpam, db, []), false, classify, now);
    }
  }

  /**
   * One clean target: a `maybe_ham` example is written exactly when the
   * balancing rule holds and the record passes validation.
   */
  lemma CleanTargetBalances(d: Detector, target: TrainingTarget, value: string, rest: seq<(TrainingTarget, string)>,
                            o: Outcome, confident: bool,
                            classify: (TrainingTarget, string) -> Classifier.Verdict, now: int)
    requires !CheckTarget(o.db, target, value, classify).0.isSpam
    ensures var m := NewRecord(d, value, target, MaybeHam, now);
            var o' := if Balances(o.db, target, CheckTarget(o.db, target, value, classify).0) && Valid(m)
                      then Outcome(o.result, o.db + [m], o.jobs) else o;
            CheckTargets(d, [(target, value)] + rest, o, confident, classify, now)
            == CheckTargets(d, rest, o', confident || CheckTarget(o.db, target, value, classify).1, classify, now)
  {
    var targets := [(target, value)] + rest;
    assert targets[0] == (target, value) && targets[1..] == rest;
    var m := NewRecord(d, value, target, MaybeHam, now);
    assert o.jobs + OnCreate(m) == o.jobs;
  }

  /**
   * After a clean content verdict the user name is checked, against the
   * store as the content step left it. A spam verdict on the user name is
   * returned and recorded once, for the user name; a clean one may add a
   * `maybe_ham` example and ends with the non-spam result.
   */
  lemma UserNameChecked(d: Detector, db: Store, han: char -> bool,
                        classify: (TrainingTarget, string) -> Classifier.Verdict, now: int)
    requires ValidMessage(d) && !RuleClassifier.Classify(d.text, han).isSpam
    requires !CheckTarget(db, MessageContent, d.text, classify).0.isSpam
    ensures var c := CheckTarget(db, MessageContent, d.text, classify).0;
            var hc := NewRecord(d, d.text, MessageContent, MaybeHam, now);
            var db1 := if Balances(db, MessageContent, c) && Valid(hc) then db + [hc] else db;
            var (u, memoSpam) := CheckTarget(db1, UserName, d.userName, classify);
            var hu := NewRecord(d, d.userName, UserName, MaybeHam, now);
            var r := Process(d, db, han, classify, now);
            && (u.isSpam ==>
                  && r.result == u
                  && r.db == Create(db1, NewRecord(d, d.userName, UserName, if memoSpam then Spam else MaybeSpam, now)).0)
            && (!u.isSpam ==>
                  && r.result == NonSpam
                  && r.db == if Balances(db1, UserName, u) && Valid(hu) then db1 + [hu] else db1)
  {
    var o := Outcome(NonSpam, db, []);
    var c := CheckTarget(db, MessageContent, d.text, classify).0;
    var hc := NewRecord(d, d.text, MessageContent, MaybeHam, now);
    var o1 := if Balances(db, MessageContent, c) && Valid(hc) then Outcome(NonSpam, db + [hc], []) else o;
    var user := [(UserName, d.userName)];
    assert Targets(d) == [(MessageContent, d.text)] + user;
    CleanTargetBalances(d, MessageContent, d.text, user, o, false, classify, now);
    var (u, memoSpam) := CheckTarget(o1.db, UserName, d.userName, classify);
    if u.isSpam {
      assert user[0] == (UserName, d.userName);
    } else {
      CleanTargetBalances(d, UserName, d.userName, [], o1, false, classify, now);
      assert user == [(UserName, d.userName)] + [];
    }
  }
}
