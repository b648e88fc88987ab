/**
 * `GroupClassifierState`: the persisted Naive Bayes counters of one group,
 * the sentinel groups, the query scopes and the read-only helpers.
 */
module ClassifierStates {
  import opened Wrappers
  import opened Chars
  import opened Strings
  import opened Counts

  /** The state that collects training data from every group. */
  const DataCollectorGroupId: int := -1
  const DataCollectorGroupName: string := "Telegram Data Collector Group"

  /** The shared state of the user-name classifier. */
  const UserNameGroupId: int := 0
  const UserNameGroupName: string := "User Name Classifier"

  /** The seven Naive Bayes counters of a state. */
  datatype Counters = Counters(
    spamCounts: Table,
    hamCounts: Table,
    totalSpamWords: int,
    totalHamWords: int,
    totalSpamMessages: int,
    totalHamMessages: int,
    vocabularySize: int)

  /** Every counter zero and both tables empty. */
  const ZeroCounters: Counters := Counters(map[], map[], 0, 0, 0, 0, 0)

  /** A classifier state once loaded: tables present, counters non-nil. */
  datatype State = State(
    groupId: int,
    groupName: Option<string>,
    counters: Counters,
    updatedAt: int)

  /** A row as stored: the count columns and the counters may be NULL. */
  datatype Row = Row(
    groupId: int,
    groupName: Option<string>,
    spamCounts: Option<Table>,
    hamCounts: Option<Table>,
    totalSpamWords: Option<int>,
    totalHamWords: Option<int>,
    totalSpamMessages: Option<int>,
    totalHamMessages: Option<int>,
    vocabularySize: Option<int>,
    updatedAt: int)

  /** Whether `x ||= d` left `r` correct: `d` for NULL, the stored value otherwise. */
  predicate Defaulted<T(==)>(x: Option<T>, d: T, r: T) {
    (x.None? ==> r == d) && (x.Some? ==> r == x.value)
  }

  /** The `after_initialize` callbacks: NULL maps become `{}`, NULL counters 0. */
  function AfterInitialize(row: Row): (s: State)
    ensures s.groupId == row.groupId && s.groupName == row.groupName && s.updatedAt == row.updatedAt
    ensures Defaulted(row.spamCounts, map[], s.counters.spamCounts)
    ensures Defaulted(row.hamCounts, map[], s.counters.hamCounts)
    ensures Defaulted(row.totalSpamWords, 0, s.counters.totalSpamWords)
    ensures Defaulted(row.totalHamWords, 0, s.counters.totalHamWords)
    ensures Defaulted(row.totalSpamMessages, 0, s.counters.totalSpamMessages)
    ensures Defaulted(row.totalHamMessages, 0, s.counters.totalHamMessages)
    ensures Defaulted(row.vocabularySize, 0, s.counters.vocabularySize)
  {
    var c := Counters(
      row.spamCounts.GetOr(map[]), row.hamCounts.GetOr(map[]),
      row.totalSpamWords.GetOr(0), row.totalHamWords.GetOr(0),
      row.totalSpamMessages.GetOr(0), row.totalHamMessages.GetOr(0),
      row.vocabularySize.GetOr(0));
    State(row.groupId, row.groupName, c, row.updatedAt)
  }

  /** How a loaded state is saved: every column written. */
  function ToRow(s: State): (row: Row)
    ensures row.spamCounts.Some? && row.hamCounts.Some? && row.totalSpamWords.Some?
    ensures row.totalHamWords.Some? && row.totalSpamMessages.Some?
    ensures row.totalHamMessages.Some? && row.vocabularySize.Some?
  {
    var c := s.counters;
    Row(s.groupId, s.groupName, Some(c.spamCounts), Some(c.hamCounts),
        Some(c.totalSpamWords), Some(c.totalHamWords),
        Some(c.totalSpamMessages), Some(c.totalHamMessages),
        Some(c.vocabularySize), s.updatedAt)
  }

  /** Saving and reloading a state gives it back: the defaults touch only NULLs. */
  lemma LoadSaved(s: State)
    ensures AfterInitialize(ToRow(s)) == s
  {
  }

  /** Loading twice is loading once. */
  lemma LoadIdempotent(row: Row)
    ensures AfterInitialize(ToRow(AfterInitialize(row))) == AfterInitialize(row)
  {
    LoadSaved(AfterInitialize(row));
  }

  // ---------------------------------------------------------------- scopes

  predicate IsGroupChat(groupId: int) {
    groupId < 0
  }

  predicate IsPublic(groupId: int) {
    groupId <= 0
  }

  predicate IsUserName(groupId: int) {
    groupId == UserNameGroupId
  }

  /** The states whose group id satisfies `p`, in store order. */
  function Select(states: seq<State>, p: int -> bool): (r: seq<State>)
    ensures |r| <= |states|
    ensures forall s :: s in r <==> s in states && p(s.groupId)
  {
    if states == [] then []
    else if p(states[0].groupId) then [states[0]] + Select(states[1..], p)
    else Select(states[1..], p)
  }

  /** `for_group`: group and channel chats, whose ids are negative. */
  function ForGroup(states: seq<State>): (r: seq<State>)
    ensures forall s :: s in r <==> s in states && s.groupId < 0
  {
    Select(states, IsGroupChat)
  }

  /** `for_public`: every chat that is not private, the user-name state included. */
  function ForPublic(states: seq<State>): (r: seq<State>)
    ensures forall s :: s in r <==> s in states && s.groupId <= 0
  {
    Select(states, IsPublic)
  }

  /** `username`: the user-name classifier's state. */
  function ForUserName(states: seq<State>): (r: seq<State>)
    ensures forall s :: s in r <==> s in states && s.groupId == 0
  {
    Select(states, IsUserName)
  }

  /** The data collector group is a group chat; the user-name state is public but not a group. */
  lemma SentinelScopes(states: seq<State>)
    ensures forall s :: s in ForGroup(states) ==> s in ForPublic(states)
    ensures forall s :: s in ForUserName(states) ==> s in ForPublic(states) && s !in ForGroup(states)
    ensures IsGroupChat(DataCollectorGroupId) && !IsGroupChat(UserNameGroupId) && IsPublic(UserNameGroupId)
  {
  }

  /** The uniqueness validation on `group_id`. */
  predicate UniqueGroupIds(states: seq<State>) {
    forall i, j :: 0 <= i < j < |states| ==> states[i].groupId != states[j].groupId
  }

  /** The position of the state of `groupId`, if stored. */
  function Find(states: seq<State>, groupId: int): (r: Option<nat>)
    ensures r.None? <==> forall i :: 0 <= i < |states| ==> states[i].groupId != groupId
    ensures r.Some? ==> r.value < |states| && states[r.value].groupId == groupId
  {
    if states == [] then None
    else if states[0].groupId == groupId then Some(0)
    else match Find(states[1..], groupId)
      case None => None
      case Some(i) => Some(i + 1)
  }

  /** `order(updated_at: :desc).first`: the most recently updated state, first in store order on ties. */
  function MostRecent(states: seq<State>): (r: Option<State>)
    ensures r.None? <==> states == []
    ensures r.Some? ==> r.value in states
    ensures r.Some? ==> forall s :: s in states ==> s.updatedAt <= r.value.updatedAt
  {
    if states == [] then None
    else match MostRecent(states[1..])
      case None => Some(states[0])
      case Some(t) => if t.updatedAt > states[0].updatedAt then Some(t) else Some(states[0])
  }

  // ---------------------------------------------------------------- helpers

  /** `get_k_value`: a present parameter is parsed with `to_i`, absent gives 20; clamped to [5, 50]. */
  function KValue(paramsK: Option<string>): (k: int)
    ensures 5 <= k <= 50
    ensures paramsK.None? ==> k == 20
    ensures paramsK.Some? && IsBlank(paramsK.value) ==> k == 20
  {
    var k := if paramsK.Some? && !IsBlank(paramsK.value) then StrToI(paramsK.value) else 20;
    if k > 50 then 50 else if k < 5 then 5 else k
  }

  /** `to_i` reads a single underscore between digits as a digit separator. */
  lemma KValueUnderscore()
    ensures KValue(Some("1_0")) == 10
  {
    var t := "1_0";
    assert !IsRegexSpace(t[0]);
    RunEndIs(t, 0, IsRegexSpace, 0);
    assert t[0..] == t;
    assert t[2..] == "0";
    assert LeadingDigits("0") == "0";
    assert LeadingDigits(t) == "10";
    assert "10"[..1] == "1";
    assert "1"[..0] == "";
    assert DigitsValue("10") == 10;
  }

  /** `to_i` stops at a doubled underscore: "4__0" reads as 4, clamped to 5. */
  lemma KValueDoubleUnderscore()
    ensures KValue(Some("4__0")) == 5
  {
    var t := "4__0";
    assert !IsRegexSpace(t[0]);
    RunEndIs(t, 0, IsRegexSpace, 0);
    assert t[0..] == t;
    assert t[1..] == "__0";
    assert LeadingDigits(t) == "4";
    assert "4"[..0] == "";
    assert DigitsValue("4") == 4;
  }

  /** Text without leading digits reads as 0, clamped to 5. */
  lemma KValueWord()
    ensures KValue(Some("many")) == 5
  {
    var t := "many";
    assert !IsRegexSpace(t[0]);
    RunEndIs(t, 0, IsRegexSpace, 0);
    assert t[0..] == t;
    assert LeadingDigits(t) == "";
  }

  /** `to_i` skips a `0d` decimal prefix: "0d30" reads as 30. */
  lemma KValueDecimalPrefix()
    ensures KValue(Some("0d30")) == 30
  {
    var t := "0d30";
    assert !IsRegexSpace(t[0]);
    RunEndIs(t, 0, IsRegexSpace, 0);
    assert t[0..] == t;
    assert t[2..] == "30";
    assert "30"[1..] == "0";
    assert LeadingDigits("0") == "0";
    assert LeadingDigits("30") == "30";
    assert "30"[..1] == "3";
    assert "3"[..0] == "";
    assert DigitsValue("30") == 30;
  }

  /** After a `0D` prefix, "0D100" reads as 100, clamped to 50. */
  lemma KValueUpperDecimalPrefix()
    ensures KValue(Some("0D100")) == 50
  {
    var t := "0D100";
    assert !IsRegexSpace(t[0]);
    RunEndIs(t, 0, IsRegexSpace, 0);
    assert t[0..] == t;
    assert t[2..] == "100";
    LeadingDigitsAll("100");
    assert "100"[..2] == "10";
    assert "10"[..1] == "1";
    assert "1"[..0] == "";
    assert DigitsValue("100") == 100;
  }

  /** A written-out number comes back as itself when in range, and as the nearest bound otherwise. */
  lemma KValueOfNumber(n: int)
    ensures 5 <= n <= 50 ==> KValue(Some(IntToS(n))) == n
    ensures n > 50 ==> KValue(Some(IntToS(n))) == 50
    ensures n < 5 ==> KValue(Some(IntToS(n))) == 5
  {
    var s := IntToS(n);
    assert !IsUnicodeSpace(s[0]);
    StrToIOfIntToS(n);
  }

  /** The words of a ranked list. */
  function Words(r: seq<(string, int)>): set<string> {
    set i | 0 <= i < |r| :: r[i].0
  }

  lemma WordsSnoc(r: seq<(string, int)>, e: (string, int))
    ensures Words(r + [e]) == Words(r) + {e.0}
  {
    var r' := r + [e];
    forall w | w in Words(r')
      ensures w in Words(r) + {e.0}
    {
      var i :| 0 <= i < |r'| && r'[i].0 == w;
      if i < |r| {
        assert r[i].0 == w;
      }
    }
    forall w | w in Words(r) + {e.0}
      ensures w in Words(r')
    {
      if w == e.0 {
        assert r'[|r|].0 == w;
      } else {
        var i :| 0 <= i < |r| && r[i].0 == w;
        assert r'[i].0 == w;
      }
    }
  }

  /**
   * `r` lists entries of `m` with their counts, no word twice, in
   * non-increasing order of count.
   */
  predicate Ranked(m: Table, r: seq<(string, int)>) {
    && (forall i :: 0 <= i < |r| ==> r[i].0 in m && m[r[i].0] == r[i].1)
    && (forall i, j :: 0 <= i < j < |r| ==> r[i].0 != r[j].0 && r[i].1 >= r[j].1)
  }

  /** `rest` holds exactly the entries of `m` not yet in `r`, none above any ranked count. */
  ghost predicate Unranked(m: Table, r: seq<(string, int)>, rest: Table) {
    && (forall w :: w in rest <==> w in m && w !in Words(r))
    && (forall w :: w in rest ==> rest[w] == m[w])
    && (forall w, i :: w in rest && 0 <= i < |r| ==> rest[w] <= r[i].1)
  }

  /** Moving a largest remaining entry to the end of the ranking keeps both invariants. */
  lemma TopStep(m: Table, r: seq<(string, int)>, rest: Table, k: string)
    requires Ranked(m, r) && Unranked(m, r, rest)
    requires k in rest && forall j :: j in rest ==> rest[j] <= rest[k]
    ensures |rest - {k}| == |rest| - 1
    ensures Ranked(m, r + [(k, rest[k])]) && Unranked(m, r + [(k, rest[k])], rest - {k})
  {
    TopStepRanked(m, r, rest, k);
    TopStepUnranked(m, r, rest, k);
    assert (rest - {k}).Keys == rest.Keys - {k};
  }

  lemma TopStepRanked(m: Table, r: seq<(string, int)>, rest: Table, k: string)
    requires Ranked(m, r) && Unranked(m, r, rest)
    requires k in rest
    ensures Ranked(m, r + [(k, rest[k])])
  {
    var r' := r + [(k, rest[k])];
    forall i | 0 <= i < |r| ensures r[i].0 != k && r[i].1 >= rest[k] {
      assert r[i].0 in Words(r);
    }
    forall i, j | 0 <= i < j < |r'| ensures r'[i].0 != r'[j].0 && r'[i].1 >= r'[j].1 {
      if j == |r| { assert r'[i] == r[i]; } else { assert r'[i] == r[i] && r'[j] == r[j]; }
    }
  }

  lemma TopStepUnranked(m: Table, r: seq<(string, int)>, rest: Table, k: string)
    requires Ranked(m, r) && Unranked(m, r, rest)
    requires k in rest && forall j :: j in rest ==> rest[j] <= rest[k]
    ensures Unranked(m, r + [(k, rest[k])], rest - {k})
  {
    var r' := r + [(k, rest[k])];
    WordsSnoc(r, (k, rest[k]));
    forall w, i | w in rest - {k} && 0 <= i < |r'| ensures (rest - {k})[w] <= r'[i].1 {
      if i < |r| { assert r'[i] == r[i]; }
    }
  }

  /** A key of `m` with the largest count. */
  method MaxEntry(m: Table) returns (k: string)
    requires m != map[]
    ensures k in m
    ensures forall j :: j in m ==> m[j] <= m[k]
  {
    var todo := m.Keys;
    k :| k in todo;
    todo := todo - {k};
    while todo != {}
      invariant todo <= m.Keys && k in m
      invariant forall j :: j in m && j !in todo ==> m[j] <= m[k]
      decreases |todo|
    {
      var j :| j in todo;
      if m[j] > m[k] {
        k := j;
      }
      todo := todo - {j};
    }
  }

  /**
   * `to_a.sort_by { |w, c| -c }.first(limit)`: the `limit` most frequent
   * entries, most frequent first (ties in no particular order).
   */
  method TopWords(m: Table, limit: nat) returns (r: seq<(string, int)>)
    ensures |r| == if limit < |m| then limit else |m|
    ensures Ranked(m, r)
    ensures forall w, i :: w in m && w !in Words(r) && 0 <= i < |r| ==> m[w] <= r[i].1
  {
    r := [];
    var rest := m;
    while |r| < limit && rest != map[]
      invariant |r| <= limit
      invariant |r| + |rest| == |m|
      invariant Ranked(m, r) && Unranked(m, r, rest)
      decreases |rest|
    {
      var k := MaxEntry(rest);
      TopStep(m, r, rest, k);
      r := r + [(k, rest[k])];
      rest := rest - {k};
    }
  }

  /** `top_spam_words(limit)`. */
  method TopSpamWords(s: State, limit: nat) returns (r: seq<(string, int)>)
    ensures |r| == if limit < |s.counters.spamCounts| then limit else |s.counters.spamCounts|
    ensures Ranked(s.counters.spamCounts, r)
    ensures forall w, i :: w in s.counters.spamCounts && w !in Words(r) && 0 <= i < |r| ==> s.counters.spamCounts[w] <= r[i].1
  {
    r := TopWords(s.counters.spamCounts, limit);
  }

  /** `top_ham_words(limit)`. */
  method TopHamWords(s: State, limit: nat) returns (r: seq<(string, int)>)
    ensures |r| == if limit < |s.counters.hamCounts| then limit else |s.counters.hamCounts|
    ensures Ranked(s.counters.hamCounts, r)
    ensures forall w, i :: w in s.counters.hamCounts && w !in Words(r) && 0 <= i < |r| ==> s.counters.hamCounts[w] <= r[i].1
  {
    r := TopWords(s.counters.hamCounts, limit);
  }

  /** `total_spam_words_count`. */
  method TotalSpamWordsCount(s: State) returns (n: int)
    ensures n == Sum(s.counters.spamCounts)
  {
    n := SumValues(s.counters.spamCounts);
  }

  /** `total_ham_words_count`. */
  method TotalHamWordsCount(s: State) returns (n: int)
    ensures n == Sum(s.counters.hamCounts)
  {
    n := SumValues(s.counters.hamCounts);
  }
}
