/**
 * The text normaliser `TextCleaner.clean` and its twin `clean_text` in the
 * classifier service. Each `gsub` is modelled as one left-to-right pass that
 * rewrites non-overlapping matches and resumes after each match, exactly as
 * Ruby's regular-expression engine scans; the two `while previous != cleaned`
 * loops iterate such a pass to its fixpoint.
 */
module TextCleaner {
  import opened Chars
  import opened Strings
  import opened Wrappers

  // ---------------------------------------------------------------------------
  // Flanked runs: the shape /(E)(G+)(E)/ shared by steps 1 and 2
  // ---------------------------------------------------------------------------

  /** `s[i]` and `s[j]` are edge characters and everything strictly between them is a non-empty gap run. */
  predicate FlankedRunAt(s: string, i: int, j: int, edge: char -> bool, gap: char -> bool) {
    && 0 <= i && i + 1 < j < |s|
    && edge(s[i]) && edge(s[j])
    && forall k :: i < k < j ==> gap(s[k])
  }

  ghost predicate NoFlankedRun(s: string, edge: char -> bool, gap: char -> bool) {
    forall i, j :: !FlankedRunAt(s, i, j, edge, gap)
  }

  /** No character is both an edge and a gap character (true of both uses below). */
  ghost predicate Disjoint(edge: char -> bool, gap: char -> bool) {
    forall c :: edge(c) ==> !gap(c)
  }

  /**
   * One `gsub(/(E)G+(E)/, '\1\2')` pass: at each position, if an edge character is
   * followed by a maximal non-empty gap run and another edge character, keep the
   * two edges, drop the run and resume after the second edge; otherwise keep the
   * character and move one position on.
   */
  function CollapsePass(s: string, edge: char -> bool, gap: char -> bool): (r: string)
    ensures |r| <= |s|
    ensures r == s || |r| < |s|
    decreases |s|
  {
    if s == [] then []
    else
      var j := RunEnd(s, 1, gap);
      if edge(s[0]) && 1 < j < |s| && edge(s[j]) then
        [s[0], s[j]] + CollapsePass(s[j + 1..], edge, gap)
      else
        assert s == [s[0]] + s[1..];
        [s[0]] + CollapsePass(s[1..], edge, gap)
  }

  /** A pass only deletes characters. */
  lemma {:induction false} CollapsePassSubseq(s: string, edge: char -> bool, gap: char -> bool)
    ensures IsSubseq(CollapsePass(s, edge, gap), s)
    decreases |s|
  {
    if s != [] {
      var j := RunEnd(s, 1, gap);
      if edge(s[0]) && 1 < j < |s| && edge(s[j]) {
        var rest := CollapsePass(s[j + 1..], edge, gap);
        CollapsePassSubseq(s[j + 1..], edge, gap);
        assert s[j..] == [s[j]] + s[j + 1..];
        SubseqCons(s[j], rest, s[j + 1..]);
        assert s[1..][j - 1..] == s[j..];
        SubseqSuffix([s[j]] + rest, s[1..], j - 1);
        SubseqCons(s[0], [s[j]] + rest, s[1..]);
        assert [s[0], s[j]] + rest == [s[0]] + ([s[j]] + rest);
        assert s == [s[0]] + s[1..];
      } else {
        CollapsePassSubseq(s[1..], edge, gap);
        SubseqCons(s[0], CollapsePass(s[1..], edge, gap), s[1..]);
        assert s == [s[0]] + s[1..];
      }
    }
  }

  /** A flanked run of `s[1..]` is one of `s`, shifted by one. */
  lemma FlankedRunShift(s: string, i: int, j: int, edge: char -> bool, gap: char -> bool)
    requires s != []
    ensures FlankedRunAt(s[1..], i, j, edge, gap) ==> FlankedRunAt(s, i + 1, j + 1, edge, gap)
    ensures 0 <= i && FlankedRunAt(s, i + 1, j + 1, edge, gap) ==> FlankedRunAt(s[1..], i, j, edge, gap)
  {
    if 0 <= i && i + 1 < j < |s| - 1 {
      assert s[i + 1] == s[1..][i] && s[j + 1] == s[1..][j];
      assert forall k :: i < k < j ==> s[1..][k] == s[k + 1];
    }
  }

  /** A flanked run starting at position 0 is exactly what the pass rewrites first. */
  lemma FlankedRunAtStart(s: string, k: int, edge: char -> bool, gap: char -> bool)
    requires Disjoint(edge, gap)
    ensures FlankedRunAt(s, 0, k, edge, gap) ==> RunEnd(s, 1, gap) == k
  {
    if FlankedRunAt(s, 0, k, edge, gap) {
      RunEndIs(s, 1, gap, k);
    }
  }

  /** If no flanked run remains, the pass changes nothing. */
  lemma {:induction false} NoFlankedRunIsFixpoint(s: string, edge: char -> bool, gap: char -> bool)
    requires NoFlankedRun(s, edge, gap)
    ensures CollapsePass(s, edge, gap) == s
    decreases |s|
  {
    if s != [] {
      var j := RunEnd(s, 1, gap);
      if edge(s[0]) && 1 < j < |s| && edge(s[j]) {
        assert FlankedRunAt(s, 0, j, edge, gap);
      } else {
        forall i, k ensures !FlankedRunAt(s[1..], i, k, edge, gap) {
          FlankedRunShift(s, i, k, edge, gap);
        }
        NoFlankedRunIsFixpoint(s[1..], edge, gap);
        assert s == [s[0]] + s[1..];
      }
    }
  }

  /** If the pass changes nothing, no flanked run remains. */
  lemma {:induction false} FixpointHasNoFlankedRun(s: string, edge: char -> bool, gap: char -> bool)
    requires Disjoint(edge, gap) && CollapsePass(s, edge, gap) == s
    ensures NoFlankedRun(s, edge, gap)
    decreases |s|
  {
    if s != [] {
      var j := RunEnd(s, 1, gap);
      var tail := CollapsePass(s[1..], edge, gap);
      assert !(edge(s[0]) && 1 < j < |s| && edge(s[j]));
      assert tail == s[1..] by {
        assert CollapsePass(s, edge, gap) == [s[0]] + tail;
        assert CollapsePass(s, edge, gap)[1..] == tail;
      }
      FixpointHasNoFlankedRun(s[1..], edge, gap);
      NoFlankedRunCons(s, edge, gap);
    }
  }

  /** No flanked run starts at the head, and none lies in the tail: none at all. */
  lemma NoFlankedRunCons(s: string, edge: char -> bool, gap: char -> bool)
    requires Disjoint(edge, gap) && s != [] && NoFlankedRun(s[1..], edge, gap)
    requires var j := RunEnd(s, 1, gap); !(edge(s[0]) && 1 < j < |s| && edge(s[j]))
    ensures NoFlankedRun(s, edge, gap)
  {
    forall i, k ensures !FlankedRunAt(s, i, k, edge, gap) {
      if i == 0 {
        FlankedRunAtStart(s, k, edge, gap);
      } else {
        FlankedRunShift(s, i - 1, k - 1, edge, gap);
      }
    }
  }

  /** A pass leaves the string unchanged exactly when no flanked run remains. */
  lemma CollapsePassFixpointIff(s: string, edge: char -> bool, gap: char -> bool)
    requires Disjoint(edge, gap)
    ensures CollapsePass(s, edge, gap) == s <==> NoFlankedRun(s, edge, gap)
  {
    if CollapsePass(s, edge, gap) == s {
      FixpointHasNoFlankedRun(s, edge, gap);
    }
    if NoFlankedRun(s, edge, gap) {
      NoFlankedRunIsFixpoint(s, edge, gap);
    }
  }

  /** The recursive reading of `while previous != cleaned; previous = cleaned; cleaned = gsub(cleaned)`. */
  function Fixpoint(s: string, edge: char -> bool, gap: char -> bool): (r: string)
    ensures CollapsePass(r, edge, gap) == r
    ensures |r| <= |s|
    decreases |s|
  {
    var t := CollapsePass(s, edge, gap);
    if t == s then s else Fixpoint(t, edge, gap)
  }

  lemma {:induction false} FixpointSubseq(s: string, edge: char -> bool, gap: char -> bool)
    ensures IsSubseq(Fixpoint(s, edge, gap), s)
    decreases |s|
  {
    var t := CollapsePass(s, edge, gap);
    if t == s {
      SubseqRefl(s);
    } else {
      FixpointSubseq(t, edge, gap);
      CollapsePassSubseq(s, edge, gap);
      SubseqTrans(Fixpoint(t, edge, gap), t, s);
    }
  }

  /**
   * The source's fixpoint loop as written: `previous` starts as "" and the loop
   * runs until a pass changes nothing. Every pass that is not the last one
   * strictly shortens the string, which is the loop's termination measure.
   */
  method FixpointLoop(text: string, edge: char -> bool, gap: char -> bool) returns (cleaned: string)
    requires Disjoint(edge, gap)
    ensures cleaned == Fixpoint(text, edge, gap)
    ensures NoFlankedRun(cleaned, edge, gap)
  {
    var previous := "";
    cleaned := text;
    while previous != cleaned
      invariant Fixpoint(cleaned, edge, gap) == Fixpoint(text, edge, gap)
      invariant cleaned == CollapsePass(previous, edge, gap) || (previous == "" && cleaned == text)
      decreases |cleaned| + (if previous == cleaned then 0 else 1)
    {
      previous := cleaned;
      cleaned := CollapsePass(cleaned, edge, gap);
    }
    CollapsePassFixpointIff(cleaned, edge, gap);
  }

  // ---------------------------------------------------------------------------
  // Step 1: separators between word characters
  // ---------------------------------------------------------------------------

  /** The gap class of step 1, `[^一-龯A-Za-z0-9\s]`. */
  predicate IsSeparator(c: char) {
    !IsWordChar(c) && !IsRegexSpace(c)
  }

  /**
   * Step 1 (and `remove_separators`): repeat
   * `gsub(/([一-龯A-Za-z0-9])[^一-龯A-Za-z0-9\s]+([一-龯A-Za-z0-9])/, '\1\2')`
   * until nothing changes.
   */
  function RemoveSeparators(s: string): (r: string)
    ensures NoFlankedRun(r, IsWordChar, IsSeparator)
    ensures IsSubseq(r, s)
  {
    var r := Fixpoint(s, IsWordChar, IsSeparator);
    CollapsePassFixpointIff(r, IsWordChar, IsSeparator);
    FixpointSubseq(s, IsWordChar, IsSeparator);
    r
  }

  // ---------------------------------------------------------------------------
  // Step 2: white space between CJK characters
  // ---------------------------------------------------------------------------

  /**
   * Step 2 (and `remove_chinese_spaces`): repeat `gsub(/([一-龯])(\s+)([一-龯])/, '\1\3')`
   * until nothing changes.
   */
  function RemoveChineseSpaces(s: string): (r: string)
    ensures NoFlankedRun(r, IsCjk, IsRegexSpace)
    ensures IsSubseq(r, s)
  {
    var r := Fixpoint(s, IsCjk, IsRegexSpace);
    CollapsePassFixpointIff(r, IsCjk, IsRegexSpace);
    FixpointSubseq(s, IsCjk, IsRegexSpace);
    r
  }

  // ---------------------------------------------------------------------------
  // Step 3: a space at every CJK / ASCII-alphanumeric boundary
  // ---------------------------------------------------------------------------

  /** No `x` character is immediately followed by a `y` character. */
  predicate NoAdjacent(s: string, x: char -> bool, y: char -> bool) {
    forall i :: 0 <= i < |s| - 1 ==> !(x(s[i]) && y(s[i + 1]))
  }

  lemma NoAdjacentCons(c: char, t: string, x: char -> bool, y: char -> bool)
    requires NoAdjacent(t, x, y)
    requires t != [] ==> !(x(c) && y(t[0]))
    ensures NoAdjacent([c] + t, x, y)
  {
    var s := [c] + t;
    forall i | 0 <= i < |s| - 1 ensures !(x(s[i]) && y(s[i + 1])) {
      if i > 0 {
        assert s[i] == t[i - 1] && s[i + 1] == t[i];
      }
    }
  }

  lemma NoAdjacentTail(s: string, x: char -> bool, y: char -> bool)
    requires s != [] && NoAdjacent(s, x, y)
    ensures NoAdjacent(s[1..], x, y)
  {
    forall i | 0 <= i < |s[1..]| - 1 ensures !(x(s[1..][i]) && y(s[1..][i + 1])) {
      assert s[1..][i] == s[i + 1] && s[1..][i + 1] == s[i + 2];
    }
  }

  lemma NoAdjacentSlice(s: string, i: nat, j: nat, x: char -> bool, y: char -> bool)
    requires i <= j <= |s| && NoAdjacent(s, x, y)
    ensures NoAdjacent(s[i..j], x, y)
  {
    forall k | 0 <= k < |s[i..j]| - 1 ensures !(x(s[i..j][k]) && y(s[i..j][k + 1])) {
      assert s[i..j][k] == s[i + k] && s[i..j][k + 1] == s[i + k + 1];
    }
  }

  /** One `gsub(/(L)(R)/, '\1 \2')` pass: a space between every `L` character and a following `R` character. */
  function InsertSpaces(s: string, left: char -> bool, right: char -> bool): (r: string)
    ensures s != [] ==> r != [] && r[0] == s[0]
    ensures s == [] ==> r == []
    decreases |s|
  {
    if |s| < 2 then s
    else if left(s[0]) && right(s[1]) then [s[0], ' ', s[1]] + InsertSpaces(s[2..], left, right)
    else [s[0]] + InsertSpaces(s[1..], left, right)
  }

  /** The pass only inserts white space. */
  lemma {:induction false} InsertSpacesNonSpace(s: string, left: char -> bool, right: char -> bool)
    ensures NonSpace(InsertSpaces(s, left, right)) == NonSpace(s)
    decreases |s|
  {
    if |s| >= 2 {
      if left(s[0]) && right(s[1]) {
        var rest := InsertSpaces(s[2..], left, right);
        InsertSpacesNonSpace(s[2..], left, right);
        FilterConcat([s[0], ' ', s[1]], rest, NotRegexSpace);
        FilterConcat([s[0], s[1]], s[2..], NotRegexSpace);
        assert Filter([s[0], ' ', s[1]], NotRegexSpace) == Filter([s[0], s[1]], NotRegexSpace) by {
          assert [s[0], ' ', s[1]][1..] == [' ', s[1]];
          assert [' ', s[1]][1..] == [s[1]];
          assert [s[0], s[1]][1..] == [s[1]];
        }
        assert s == [s[0], s[1]] + s[2..];
      } else {
        InsertSpacesNonSpace(s[1..], left, right);
        FilterConcat([s[0]], InsertSpaces(s[1..], left, right), NotRegexSpace);
        FilterConcat([s[0]], s[1..], NotRegexSpace);
        assert s == [s[0]] + s[1..];
      }
    }
  }

  /** After the pass, no `L` character is directly followed by an `R` character. */
  lemma {:induction false} InsertSpacesSeparates(s: string, left: char -> bool, right: char -> bool)
    requires Disjoint(left, right) && !left(' ') && !right(' ')
    ensures NoAdjacent(InsertSpaces(s, left, right), left, right)
    decreases |s|
  {
    if |s| >= 2 {
      if left(s[0]) && right(s[1]) {
        var rest := InsertSpaces(s[2..], left, right);
        InsertSpacesSeparates(s[2..], left, right);
        NoAdjacentCons(s[1], rest, left, right);
        NoAdjacentCons(' ', [s[1]] + rest, left, right);
        NoAdjacentCons(s[0], [' '] + ([s[1]] + rest), left, right);
        assert [s[0], ' ', s[1]] + rest == [s[0]] + ([' '] + ([s[1]] + rest));
      } else {
        InsertSpacesSeparates(s[1..], left, right);
        NoAdjacentCons(s[0], InsertSpaces(s[1..], left, right), left, right);
      }
    }
  }

  /** The pass creates no new adjacency between non-space classes. */
  lemma {:induction false} InsertSpacesKeepsNoAdjacent(s: string, left: char -> bool, right: char -> bool,
                                                       x: char -> bool, y: char -> bool)
    requires NoAdjacent(s, x, y) && !x(' ') && !y(' ')
    ensures NoAdjacent(InsertSpaces(s, left, right), x, y)
    decreases |s|
  {
    if |s| >= 2 {
      if left(s[0]) && right(s[1]) {
        var rest := InsertSpaces(s[2..], left, right);
        NoAdjacentTail(s, x, y);
        NoAdjacentTail(s[1..], x, y);
        assert s[1..][1..] == s[2..];
        InsertSpacesKeepsNoAdjacent(s[2..], left, right, x, y);
        if |s| > 2 {
          assert !(x(s[1]) && y(s[2]));
        }
        NoAdjacentCons(s[1], rest, x, y);
        NoAdjacentCons(' ', [s[1]] + rest, x, y);
        NoAdjacentCons(s[0], [' '] + ([s[1]] + rest), x, y);
        assert [s[0], ' ', s[1]] + rest == [s[0]] + ([' '] + ([s[1]] + rest));
      } else {
        NoAdjacentTail(s, x, y);
        InsertSpacesKeepsNoAdjacent(s[1..], left, right, x, y);
        NoAdjacentCons(s[0], InsertSpaces(s[1..], left, right), x, y);
      }
    }
  }

  /**
   * Step 3 (and `add_tokenization_spaces`): `gsub(/([一-龯])([A-Za-z0-9])/, '\1 \2')`
   * followed by `gsub(/([A-Za-z0-9])([一-龯])/, '\1 \2')`.
   */
  function AddTokenizationSpaces(s: string): (r: string)
    ensures NoAdjacent(r, IsCjk, IsAsciiAlnum) && NoAdjacent(r, IsAsciiAlnum, IsCjk)
    ensures NonSpace(r) == NonSpace(s)
  {
    var t := InsertSpaces(s, IsCjk, IsAsciiAlnum);
    var r := InsertSpaces(t, IsAsciiAlnum, IsCjk);
    InsertSpacesSeparates(s, IsCjk, IsAsciiAlnum);
    InsertSpacesKeepsNoAdjacent(t, IsAsciiAlnum, IsCjk, IsCjk, IsAsciiAlnum);
    InsertSpacesSeparates(t, IsAsciiAlnum, IsCjk);
    InsertSpacesNonSpace(s, IsCjk, IsAsciiAlnum);
    InsertSpacesNonSpace(t, IsAsciiAlnum, IsCjk);
    r
  }

  // ---------------------------------------------------------------------------
  // Step 4: single spaces, trimmed
  // ---------------------------------------------------------------------------

  /** Every `\s` character is a plain space and is not followed by another `\s` character. */
  predicate SingleSpaced(s: string) {
    forall i :: 0 <= i < |s| && IsRegexSpace(s[i]) ==> s[i] == ' ' && (i + 1 < |s| ==> !IsRegexSpace(s[i + 1]))
  }

  /** `gsub(/\s+/, " ")`. */
  function SquashSpaces(s: string): (r: string)
    ensures s != [] ==> r != [] && r[0] == (if IsRegexSpace(s[0]) then ' ' else s[0])
    ensures s == [] ==> r == []
    decreases |s|
  {
    if s == [] then []
    else if IsRegexSpace(s[0]) then [' '] + SquashSpaces(s[RunEnd(s, 0, IsRegexSpace)..])
    else [s[0]] + SquashSpaces(s[1..])
  }

  lemma {:induction false} SquashSpacesProperties(s: string)
    ensures SingleSpaced(SquashSpaces(s))
    ensures NonSpace(SquashSpaces(s)) == NonSpace(s)
    decreases |s|
  {
    if s != [] {
      var r := SquashSpaces(s);
      if IsRegexSpace(s[0]) {
        var j := RunEnd(s, 0, IsRegexSpace);
        var rest := SquashSpaces(s[j..]);
        SquashSpacesProperties(s[j..]);
        assert r == [' '] + rest;
        forall i | 0 <= i < |r| && IsRegexSpace(r[i])
          ensures r[i] == ' ' && (i + 1 < |r| ==> !IsRegexSpace(r[i + 1]))
        {
          if i > 0 {
            assert r[i] == rest[i - 1];
            if i + 1 < |r| { assert r[i + 1] == rest[i]; }
          } else if i + 1 < |r| {
            assert r[1] == rest[0] == s[j];
          }
        }
        FilterConcat([' '], rest, NotRegexSpace);
        FilterNone(s[..j], NotRegexSpace);
        FilterConcat(s[..j], s[j..], NotRegexSpace);
        assert s == s[..j] + s[j..];
        assert Filter([' '], NotRegexSpace) == [];
      } else {
        var rest := SquashSpaces(s[1..]);
        SquashSpacesProperties(s[1..]);
        forall i | 0 <= i < |r| && IsRegexSpace(r[i])
          ensures r[i] == ' ' && (i + 1 < |r| ==> !IsRegexSpace(r[i + 1]))
        {
          assert i > 0;
          assert r[i] == rest[i - 1];
          if i + 1 < |r| { assert r[i + 1] == rest[i]; }
        }
        FilterConcat([s[0]], rest, NotRegexSpace);
        FilterConcat([s[0]], s[1..], NotRegexSpace);
        assert s == [s[0]] + s[1..];
      }
    }
  }

  lemma {:induction false} SquashSpacesKeepsNoAdjacent(s: string, x: char -> bool, y: char -> bool)
    requires NoAdjacent(s, x, y) && !x(' ') && !y(' ')
    requires forall c :: IsRegexSpace(c) ==> !x(c) && !y(c)
    ensures NoAdjacent(SquashSpaces(s), x, y)
    decreases |s|
  {
    if s != [] {
      if IsRegexSpace(s[0]) {
        var j := RunEnd(s, 0, IsRegexSpace);
        NoAdjacentSlice(s, j, |s|, x, y);
        SquashSpacesKeepsNoAdjacent(s[j..], x, y);
        NoAdjacentCons(' ', SquashSpaces(s[j..]), x, y);
      } else {
        NoAdjacentTail(s, x, y);
        SquashSpacesKeepsNoAdjacent(s[1..], x, y);
        if |s| > 1 {
          assert !(x(s[0]) && y(s[1]));
          assert !IsRegexSpace(s[1]) ==> SquashSpaces(s[1..])[0] == s[1];
        }
        NoAdjacentCons(s[0], SquashSpaces(s[1..]), x, y);
      }
    }
  }

  lemma SingleSpacedSlice(s: string, i: nat, j: nat)
    requires i <= j <= |s| && SingleSpaced(s)
    ensures SingleSpaced(s[i..j])
  {
    var t := s[i..j];
    forall k | 0 <= k < |t| && IsRegexSpace(t[k]) ensures t[k] == ' ' && (k + 1 < |t| ==> !IsRegexSpace(t[k + 1])) {
      assert t[k] == s[i + k];
      if k + 1 < |t| { assert t[k + 1] == s[i + k + 1]; }
    }
  }

  /** Step 4: `gsub(/\s+/, " ").strip`. */
  function NormalizeSpaces(s: string): (r: string)
    ensures r != [] ==> !IsStripSpace(r[0]) && !IsStripSpace(r[|r| - 1])
    ensures SingleSpaced(r)
    ensures IsSubseq(NonSpace(r), NonSpace(s))
  {
    var t := SquashSpaces(s);
    var r := Strip(t);
    SquashSpacesProperties(s);
    var i := StripStart(t, 0);
    var j := StripEnd(t, i, |t|);
    assert r == t[i..j];
    SingleSpacedSlice(t, i, j);
    FilterSubseq(r, t, NotRegexSpace);
    r
  }

  lemma NormalizeSpacesKeepsNoAdjacent(s: string, x: char -> bool, y: char -> bool)
    requires NoAdjacent(s, x, y) && !x(' ') && !y(' ')
    requires forall c :: IsRegexSpace(c) ==> !x(c) && !y(c)
    ensures NoAdjacent(NormalizeSpaces(s), x, y)
  {
    var t := SquashSpaces(s);
    SquashSpacesKeepsNoAdjacent(s, x, y);
    var i := StripStart(t, 0);
    var j := StripEnd(t, i, |t|);
    NoAdjacentSlice(t, i, j, x, y);
  }

  // ---------------------------------------------------------------------------
  // The `#FOUND` forwarding prefix
  // ---------------------------------------------------------------------------

  predicate NotQuote(c: char) { c != '"' }
  predicate NotOpenParen(c: char) { c != '(' }
  predicate NotCloseParen(c: char) { c != ')' }

  /** The literal `w` at position `p`. */
  function Lit(s: string, p: nat, w: string): (r: Option<nat>)
    requires p <= |s|
    ensures r.Some? ==> r.value == p + |w| <= |s| && s[p..r.value] == w
  {
    if p + |w| <= |s| && s[p..p + |w|] == w then Some(p + |w|) else None
  }

  /** `\s+`, greedy. */
  function Spaces1(s: string, p: nat): (r: Option<nat>)
    requires p <= |s|
    ensures r.Some? ==> p < r.value <= |s|
  {
    var j := RunEnd(s, p, IsRegexSpace);
    if j > p then Some(j) else None
  }

  /** `"[^"]+"`. */
  function Quoted(s: string, p: nat): (r: Option<nat>)
    requires p <= |s|
    ensures r.Some? ==> p < r.value <= |s|
  {
    if p < |s| && s[p] == '"' then
      var j := RunEnd(s, p + 1, NotQuote);
      if p + 1 < j < |s| then Some(j + 1) else None
    else None
  }

  /**
   * `\s+[^(]+` (when `least` is 2) or `\s+[^(]*` (when `least` is 1), stopping in
   * front of the next `(`: the run up to the first `(` must start with white space
   * and be at least `least` characters long, because `\s+` can give characters back.
   */
  function SpacedUpToParen(s: string, p: nat, least: nat): (r: Option<nat>)
    requires p <= |s|
    ensures r.Some? ==> p < r.value < |s| && s[r.value] == '('
  {
    if p < |s| && IsRegexSpace(s[p]) then
      var k := RunEnd(s, p, NotOpenParen);
      if p + least <= k < |s| && p < k then Some(k) else None
    else None
  }

  /** `\(@?[^)]+\)`: a parenthesised, non-empty handle (a lone `@` is a handle too). */
  function Handle(s: string, p: nat): (r: Option<nat>)
    requires p <= |s|
    ensures r.Some? ==> p < r.value <= |s|
  {
    if p < |s| && s[p] == '(' then
      var k := RunEnd(s, p + 1, NotCloseParen);
      if p + 1 < k < |s| then Some(k + 1) else None
    else None
  }

  /** `#FOUND\s+"[^"]+"\s+IN\s+[^(]+\(@?[^)]+\)` at `p`: where the group part ends. */
  function FoundHead(s: string, p: nat): (r: Option<nat>)
    requires p <= |s|
    ensures r.Some? ==> p < r.value <= |s|
  {
    var a :- Lit(s, p, "#FOUND");
    var b :- Spaces1(s, a);
    var c :- Quoted(s, b);
    var d :- Spaces1(s, c);
    var e :- Lit(s, d, "IN");
    var f :- SpacedUpToParen(s, e, 2);
    Handle(s, f)
  }

  /** `\s+FROM\s+[^(]*\(@?[^)]+\)\s*` at `g`: where the capture group `(.*)` begins. */
  function FoundTail(s: string, g: nat): (r: Option<nat>)
    requires g <= |s|
    ensures r.Some? ==> g < r.value <= |s|
  {
    var h :- Spaces1(s, g);
    var i :- Lit(s, h, "FROM");
    var j :- SpacedUpToParen(s, i, 1);
    var k :- Handle(s, j);
    Some(RunEnd(s, k, IsRegexSpace))
  }

  /**
   * Where the capture group of
   * `#FOUND\s+"[^"]+"\s+IN\s+[^(]+\(@?[^)]+\)\s+FROM\s+[^(]*\(@?[^)]+\)\s*(.*)`
   * begins, when the pattern matches at `p`.
   */
  function FoundCaptureAt(s: string, p: nat): (r: Option<nat>)
    requires p <= |s|
    ensures r.Some? ==> p < r.value <= |s|
  {
    var g :- FoundHead(s, p);
    FoundTail(s, g)
  }

  /** Where `^` can match: the start of the text or just after a line feed. */
  predicate LineStart(s: string, p: nat) {
    p == 0 || (0 < p <= |s| && s[p - 1] == '\n')
  }

  /** The capture of the leftmost match starting at a line start at or after `p`. */
  function FirstFoundCapture(s: string, p: nat): (r: Option<nat>)
    requires p <= |s|
    ensures r.Some? ==> p < r.value <= |s|
    decreases |s| - p
  {
    if LineStart(s, p) && FoundCaptureAt(s, p).Some? then FoundCaptureAt(s, p)
    else if p == |s| then None
    else FirstFoundCapture(s, p + 1)
  }

  /**
   * `TextCleaner.extract_found_message`: the text after a `#FOUND "…" IN …(…) FROM …(…)`
   * prefix, or the text unchanged when there is no such prefix.
   */
  function ExtractFoundMessage(s: string): (r: string)
    ensures FirstFoundCapture(s, 0).None? ==> r == s
    ensures FirstFoundCapture(s, 0).Some? ==> |r| < |s| && r == s[|s| - |r|..]
  {
    var c := FirstFoundCapture(s, 0);
    if c.None? then s
    else
      assert s[|s| - |s[c.value..]|..] == s[c.value..];
      s[c.value..]
  }

  // The forwarding header the pattern is written for, and its inverse reading.

  /** A character-class-free field: non-empty and free of the character `c`. */
  predicate FieldWithout(w: string, c: char) {
    w != [] && forall k :: 0 <= k < |w| ==> w[k] != c
  }

  /**
   * A relayed message as a forwarding bot writes it:
   * `#FOUND "<keyword>" IN <group>(<group handle>) FROM <sender>(<sender id>) <body>`.
   */
  function Forwarded(keyword: string, group: string, groupHandle: string, sender: string, senderId: string,
                     body: string): string
  {
    var from := " " + ("FROM" + (" " + sender + ("(" + senderId + ")" + (" " + body))));
    "#FOUND" + (" " + ("\"" + keyword + "\"" + (" " + ("IN" + (" " + group + ("(" + groupHandle + ")" + from))))))
  }

  lemma LitAt(s: string, p: nat, w: string, rest: string, q: nat)
    requires p <= |s| && s[p..] == w + rest && q == p + |w|
    ensures Lit(s, p, w) == Some(q) && s[q..] == rest
  {
    assert s[p..p + |w|] == s[p..][..|w|];
    assert s[p + |w|..] == s[p..][|w|..];
  }

  lemma Spaces1At(s: string, p: nat, rest: string)
    requires p <= |s| && s[p..] == " " + rest
    requires rest != [] ==> !IsRegexSpace(rest[0])
    ensures Spaces1(s, p) == Some(p + 1) && RunEnd(s, p, IsRegexSpace) == p + 1 && s[p + 1..] == rest
  {
    assert s[p] == s[p..][0];
    if rest != [] { assert s[p + 1] == s[p..][1]; }
    RunEndIs(s, p, IsRegexSpace, p + 1);
    assert s[p + 1..] == s[p..][1..];
  }

  lemma QuotedAt(s: string, p: nat, w: string, rest: string, q: nat)
    requires FieldWithout(w, '"') && q == p + |w| + 2
    requires p <= |s| && s[p..] == "\"" + w + "\"" + rest
    ensures Quoted(s, p) == Some(q) && s[q..] == rest
  {
    assert s[p] == s[p..][0];
    assert s[p + 1 + |w|] == s[p..][1 + |w|];
    forall k | p + 1 <= k < p + 1 + |w| ensures NotQuote(s[k]) {
      assert s[k] == s[p..][k - p] == w[k - p - 1];
    }
    RunEndIs(s, p + 1, NotQuote, p + 1 + |w|);
    assert s[p + |w| + 2..] == s[p..][|w| + 2..];
  }

  lemma SpacedUpToParenAt(s: string, p: nat, w: string, least: nat, rest: string, q: nat)
    requires forall k :: 0 <= k < |w| ==> w[k] != '('
    requires 1 + |w| >= least && q == p + 1 + |w|
    requires p <= |s| && s[p..] == " " + w + rest && rest != [] && rest[0] == '('
    ensures SpacedUpToParen(s, p, least) == Some(q) && s[q..] == rest
  {
    assert s[p] == s[p..][0];
    assert s[p + 1 + |w|] == s[p..][1 + |w|];
    forall k | p <= k < p + 1 + |w| ensures NotOpenParen(s[k]) {
      if k > p { assert s[k] == s[p..][k - p] == w[k - p - 1]; }
    }
    RunEndIs(s, p, NotOpenParen, p + 1 + |w|);
    assert s[p + 1 + |w|..] == s[p..][1 + |w|..];
  }

  lemma HandleAt(s: string, p: nat, w: string, rest: string, q: nat)
    requires FieldWithout(w, ')') && q == p + |w| + 2
    requires p <= |s| && s[p..] == "(" + w + ")" + rest
    ensures Handle(s, p) == Some(q) && s[q..] == rest
  {
    assert s[p] == s[p..][0];
    assert s[p + 1 + |w|] == s[p..][1 + |w|];
    forall k | p + 1 <= k < p + 1 + |w| ensures NotCloseParen(s[k]) {
      assert s[k] == s[p..][k - p] == w[k - p - 1];
    }
    RunEndIs(s, p + 1, NotCloseParen, p + 1 + |w|);
    assert s[p + |w| + 2..] == s[p..][|w| + 2..];
  }

  lemma FoundHeadSteps(s: string, a: nat, b: nat, c: nat, d: nat, e: nat, f: nat, g: nat)
    requires Lit(s, 0, "#FOUND") == Some(a) && a <= |s| && Spaces1(s, a) == Some(b) && b <= |s|
    requires Quoted(s, b) == Some(c) && c <= |s| && Spaces1(s, c) == Some(d) && d <= |s|
    requires Lit(s, d, "IN") == Some(e) && e <= |s| && SpacedUpToParen(s, e, 2) == Some(f) && f <= |s|
    requires Handle(s, f) == Some(g)
    ensures FoundHead(s, 0) == Some(g)
  {
  }

  lemma FoundTailSteps(s: string, g: nat, h: nat, i: nat, j: nat, k: nat, m: nat)
    requires g <= |s| && Spaces1(s, g) == Some(h) && h <= |s| && Lit(s, h, "FROM") == Some(i) && i <= |s|
    requires SpacedUpToParen(s, i, 1) == Some(j) && j <= |s| && Handle(s, j) == Some(k) && k <= |s|
    requires RunEnd(s, k, IsRegexSpace) == m
    ensures FoundTail(s, g) == Some(m)
  {
  }

  lemma FoundCaptureSteps(s: string, g: nat, k: nat)
    requires FoundHead(s, 0) == Some(g) && g <= |s| && FoundTail(s, g) == Some(k)
    ensures ExtractFoundMessage(s) == s[k..]
  {
    assert FoundCaptureAt(s, 0) == Some(k);
    assert LineStart(s, 0);
  }

  /** `#FOUND\s+"<keyword>"` at the start: where the quoted keyword ends. */
  lemma FoundKeywordAt(s: string, keyword: string, rest: string) returns (c: nat)
    requires FieldWithout(keyword, '"')
    requires s == "#FOUND" + (" " + ("\"" + keyword + "\"" + rest))
    ensures c == 9 + |keyword| <= |s| && s[c..] == rest
    ensures Lit(s, 0, "#FOUND") == Some(6) && Spaces1(s, 6) == Some(7) && Quoted(s, 7) == Some(c)
  {
    var r1 := "\"" + keyword + "\"" + rest;
    assert s[0..] == s;
    c := 9 + |keyword|;
    LitAt(s, 0, "#FOUND", " " + r1, 6);
    Spaces1At(s, 6, r1);
    QuotedAt(s, 7, keyword, rest, c);
  }

  /** `\s+IN\s+<group>(<group handle>)` at `c`: where the group part ends. */
  lemma FoundGroupAt(s: string, c: nat, group: string, groupHandle: string, rest: string) returns (f: nat, g: nat)
    requires FieldWithout(group, '(') && FieldWithout(groupHandle, ')')
    requires c <= |s| && s[c..] == " " + ("IN" + (" " + group + ("(" + groupHandle + ")" + rest)))
    ensures g <= |s| && s[g..] == rest
    ensures Spaces1(s, c) == Some(c + 1) && Lit(s, c + 1, "IN") == Some(c + 3)
    ensures SpacedUpToParen(s, c + 3, 2) == Some(f) && f <= |s| && Handle(s, f) == Some(g)
  {
    var r5 := "(" + groupHandle + ")" + rest;
    var r4 := " " + group + r5;
    f := c + 4 + |group|;
    g := f + 2 + |groupHandle|;
    Spaces1At(s, c, "IN" + r4);
    LitAt(s, c + 1, "IN", r4, c + 3);
    SpacedUpToParenAt(s, c + 3, group, 2, r5, f);
    HandleAt(s, f, groupHandle, rest, g);
  }

  /** The head of the pattern reads `#FOUND "<keyword>" IN <group>(<group handle>)`. */
  lemma FoundHeadAt(s: string, keyword: string, group: string, groupHandle: string, rest: string) returns (g: nat)
    requires FieldWithout(keyword, '"') && FieldWithout(group, '(') && FieldWithout(groupHandle, ')')
    requires s == "#FOUND" + (" " + ("\"" + keyword + "\"" + (" " + ("IN" + (" " + group + ("(" + groupHandle + ")" + rest))))))
    ensures g <= |s| && FoundHead(s, 0) == Some(g) && s[g..] == rest
  {
    var c := FoundKeywordAt(s, keyword, " " + ("IN" + (" " + group + ("(" + groupHandle + ")" + rest))));
    var f;
    f, g := FoundGroupAt(s, c, group, groupHandle, rest);
    FoundHeadSteps(s, 6, 7, c, c + 1, c + 3, f, g);
  }

  /** ` <sender>(<sender id>) <body>` after `FROM`: the positions of the `(` and of the capture. */
  lemma FoundSenderAt(s: string, i: nat, sender: string, senderId: string, body: string) returns (j: nat, k: nat)
    requires forall k :: 0 <= k < |sender| ==> sender[k] != '('
    requires FieldWithout(senderId, ')')
    requires body != [] ==> !IsRegexSpace(body[0])
    requires i <= |s| && s[i..] == " " + sender + ("(" + senderId + ")" + (" " + body))
    ensures j <= |s| && SpacedUpToParen(s, i, 1) == Some(j)
    ensures k <= |s| && Handle(s, j) == Some(k)
    ensures RunEnd(s, k, IsRegexSpace) == k + 1 && s[k + 1..] == body
  {
    var r10 := " " + body;
    var r9 := "(" + senderId + ")" + r10;
    j := i + 1 + |sender|;
    k := j + 2 + |senderId|;
    SpacedUpToParenAt(s, i, sender, 1, r9, j);
    HandleAt(s, j, senderId, r10, k);
    Spaces1At(s, k, body);
  }

  /** `\s+FROM` over ` FROM<rest>`. */
  lemma FoundFromAt(s: string, g: nat, rest: string)
    requires g <= |s| && s[g..] == " " + ("FROM" + rest)
    ensures g + 5 <= |s| && Spaces1(s, g) == Some(g + 1) && Lit(s, g + 1, "FROM") == Some(g + 5) && s[g + 5..] == rest
  {
    Spaces1At(s, g, "FROM" + rest);
    LitAt(s, g + 1, "FROM", rest, g + 5);
  }

  /** The tail of the pattern reads ` FROM <sender>(<sender id>) ` and captures the body. */
  lemma FoundTailAt(s: string, g: nat, sender: string, senderId: string, body: string) returns (m: nat)
    requires forall k :: 0 <= k < |sender| ==> sender[k] != '('
    requires FieldWithout(senderId, ')')
    requires body != [] ==> !IsRegexSpace(body[0])
    requires g <= |s| && s[g..] == " " + ("FROM" + (" " + sender + ("(" + senderId + ")" + (" " + body))))
    ensures m <= |s| && FoundTail(s, g) == Some(m) && s[m..] == body
  {
    FoundFromAt(s, g, " " + sender + ("(" + senderId + ")" + (" " + body)));
    var j, k := FoundSenderAt(s, g + 5, sender, senderId, body);
    m := k + 1;
    FoundTailSteps(s, g, g + 1, g + 5, j, k, m);
  }

  /**
   * Dropping a well-formed header gives back exactly the relayed message (when the
   * message does not itself begin with white space, which `\s*` would swallow).
   */
  lemma ExtractFoundMessageOfForwarded(keyword: string, group: string, groupHandle: string,
                                       sender: string, senderId: string, body: string)
    requires FieldWithout(keyword, '"') && FieldWithout(group, '(')
    requires FieldWithout(groupHandle, ')') && FieldWithout(senderId, ')')
    requires forall k :: 0 <= k < |sender| ==> sender[k] != '('
    requires body != [] ==> !IsRegexSpace(body[0])
    ensures ExtractFoundMessage(Forwarded(keyword, group, groupHandle, sender, senderId, body)) == body
  {
    var rest := " " + ("FROM" + (" " + sender + ("(" + senderId + ")" + (" " + body))));
    var s := Forwarded(keyword, group, groupHandle, sender, senderId, body);
    var g := FoundHeadAt(s, keyword, group, groupHandle, rest);
    var m := FoundTailAt(s, g, sender, senderId, body);
    FoundCaptureSteps(s, g, m);
  }

  // ---------------------------------------------------------------------------
  // Steps 2 to 4 let no flanked run back in
  // ---------------------------------------------------------------------------

  /**
   * A left-to-right reading of "no flanked run". The state is 0 at the start and
   * after a character of neither class, 1 just after an edge character, and 2
   * inside a gap run that follows an edge character.
   */
  function NextState(st: nat, c: char, edge: char -> bool, gap: char -> bool): (n: nat)
    ensures n <= 2
    ensures edge(c) ==> n == 1
    ensures !edge(c) && !gap(c) ==> n == 0
  {
    if edge(c) then 1 else if gap(c) then (if st >= 1 then 2 else 0) else 0
  }

  /** An edge character read in state 2 closes a flanked run. */
  predicate Closes(st: nat, c: char, edge: char -> bool) {
    st == 2 && edge(c)
  }

  /** Reading `s` from state `st` never closes a flanked run. */
  predicate NoRunFrom(s: string, st: nat, edge: char -> bool, gap: char -> bool)
    decreases |s|
  {
    s != [] ==> !Closes(st, s[0], edge) && NoRunFrom(s[1..], NextState(st, s[0], edge, gap), edge, gap)
  }

  /** `s` starts with `j` gap characters followed by an edge character. */
  predicate GapsThenEdge(s: string, j: int, edge: char -> bool, gap: char -> bool) {
    0 <= j < |s| && edge(s[j]) && forall k :: 0 <= k < j ==> gap(s[k])
  }

  lemma NoRunFromCons(c: char, t: string, st: nat, edge: char -> bool, gap: char -> bool)
    ensures NoRunFrom([c] + t, st, edge, gap)
        <==> !Closes(st, c, edge) && NoRunFrom(t, NextState(st, c, edge, gap), edge, gap)
  {
    assert ([c] + t)[1..] == t;
  }

  /** A flanked run starting at `s[0]` is an edge followed by a non-empty gap run and an edge. */
  lemma FlankedRunFromHead(s: string, j: int, edge: char -> bool, gap: char -> bool)
    requires s != []
    ensures FlankedRunAt(s, 0, j + 1, edge, gap) <==> edge(s[0]) && j >= 1 && GapsThenEdge(s[1..], j, edge, gap)
  {
    if 1 <= j < |s| - 1 {
      assert s[j + 1] == s[1..][j];
      assert forall k :: 0 <= k < j ==> s[1..][k] == s[k + 1];
    }
  }

  /** The flanked runs of `s` are those of its tail, shifted, and those starting at `s[0]`. */
  lemma FlankedRunsOfCons(s: string, edge: char -> bool, gap: char -> bool)
    requires s != []
    ensures NoFlankedRun(s, edge, gap)
        <==> NoFlankedRun(s[1..], edge, gap)
             && (edge(s[0]) ==> forall j :: GapsThenEdge(s[1..], j, edge, gap) ==> j == 0)
  {
    var t := s[1..];
    if NoFlankedRun(s, edge, gap) {
      forall i, j ensures !FlankedRunAt(t, i, j, edge, gap) {
        FlankedRunShift(s, i, j, edge, gap);
      }
      if edge(s[0]) {
        forall j | GapsThenEdge(t, j, edge, gap) ensures j == 0 {
          FlankedRunFromHead(s, j, edge, gap);
        }
      }
    }
    if NoFlankedRun(t, edge, gap) && (edge(s[0]) ==> forall j :: GapsThenEdge(t, j, edge, gap) ==> j == 0) {
      forall i, j ensures !FlankedRunAt(s, i, j, edge, gap) {
        if i > 0 {
          FlankedRunShift(s, i - 1, j - 1, edge, gap);
        } else {
          FlankedRunFromHead(s, j - 1, edge, gap);
        }
      }
    }
  }

  lemma GapsThenEdgeOfCons(s: string, edge: char -> bool, gap: char -> bool)
    requires s != []
    ensures forall j :: (GapsThenEdge(s, j, edge, gap)
        <==> (j == 0 && edge(s[0])) || (j >= 1 && gap(s[0]) && GapsThenEdge(s[1..], j - 1, edge, gap)))
  {
    forall j ensures GapsThenEdge(s, j, edge, gap)
        <==> (j == 0 && edge(s[0])) || (j >= 1 && gap(s[0]) && GapsThenEdge(s[1..], j - 1, edge, gap))
    {
      if 1 <= j < |s| {
        assert s[j] == s[1..][j - 1];
        assert forall k :: 0 <= k < j - 1 ==> s[1..][k] == s[k + 1];
      }
    }
  }

  /** The automaton reading agrees with the quantified one, in every state. */
  lemma {:induction false} NoRunFromIff(s: string, st: nat, edge: char -> bool, gap: char -> bool)
    requires Disjoint(edge, gap) && st <= 2
    ensures NoRunFrom(s, st, edge, gap)
        <==> && NoFlankedRun(s, edge, gap)
             && (st == 1 ==> forall j :: GapsThenEdge(s, j, edge, gap) ==> j == 0)
             && (st == 2 ==> forall j :: !GapsThenEdge(s, j, edge, gap))
    decreases |s|
  {
    if s != [] {
      var t := s[1..];
      NoRunFromIff(t, NextState(st, s[0], edge, gap), edge, gap);
      FlankedRunsOfCons(s, edge, gap);
      GapsThenEdgeOfCons(s, edge, gap);
      if edge(s[0]) {
        assert !gap(s[0]);
        assert GapsThenEdge(s, 0, edge, gap);
      } else if gap(s[0]) {
        assert forall j :: GapsThenEdge(s, j + 1, edge, gap) <==> GapsThenEdge(t, j, edge, gap);
      } else {
        assert forall j :: !GapsThenEdge(s, j, edge, gap);
      }
    }
  }

  lemma NoFlankedRunIsNoRunFrom(s: string, edge: char -> bool, gap: char -> bool)
    requires Disjoint(edge, gap)
    ensures NoFlankedRun(s, edge, gap) <==> NoRunFrom(s, 0, edge, gap)
  {
    NoRunFromIff(s, 0, edge, gap);
  }

  /** A later state is never easier to continue from. */
  lemma {:induction false} NoRunFromMonotone(s: string, lo: nat, hi: nat, edge: char -> bool, gap: char -> bool)
    requires lo <= hi <= 2 && NoRunFrom(s, hi, edge, gap)
    ensures NoRunFrom(s, lo, edge, gap)
    decreases |s|
  {
    if s != [] {
      NoRunFromMonotone(s[1..], NextState(lo, s[0], edge, gap), NextState(hi, s[0], edge, gap), edge, gap);
    }
  }

  /** Characters of neither class reset the reading to state 0. */
  lemma {:induction false} SkipOthers(s: string, m: nat, st: nat, edge: char -> bool, gap: char -> bool)
    requires 1 <= m <= |s| && NoRunFrom(s, st, edge, gap)
    requires forall k :: 0 <= k < m ==> !edge(s[k]) && !gap(s[k])
    ensures NoRunFrom(s[m..], 0, edge, gap)
    decreases m
  {
    if m > 1 {
      SkipOthers(s[1..], m - 1, 0, edge, gap);
      assert s[1..][m - 1..] == s[m..];
    }
  }

  /** Reading an edge, a run of neither class and an edge leaves state 1 after the second edge. */
  lemma JoinedRunBefore(s: string, j: nat, st: nat, edge: char -> bool, gap: char -> bool)
    requires 1 < j < |s| && edge(s[0]) && edge(s[j]) && NoRunFrom(s, st, edge, gap)
    requires forall k :: 1 <= k < j ==> !edge(s[k]) && !gap(s[k])
    ensures !Closes(st, s[0], edge) && NoRunFrom(s[j + 1..], 1, edge, gap)
  {
    SkipOthers(s[1..], j - 1, 1, edge, gap);
    assert s[1..][j - 1..] == [s[j]] + s[j + 1..];
    NoRunFromCons(s[j], s[j + 1..], 0, edge, gap);
  }

  /** Two adjacent edges, read from a state the first does not close, leave state 1. */
  lemma JoinedRunAfter(a: char, b: char, y: string, st: nat, edge: char -> bool, gap: char -> bool)
    requires edge(a) && edge(b) && !Closes(st, a, edge) && NoRunFrom(y, 1, edge, gap)
    ensures NoRunFrom([a, b] + y, st, edge, gap)
  {
    NoRunFromCons(b, y, 1, edge, gap);
    NoRunFromCons(a, [b] + y, st, edge, gap);
    assert [a, b] + y == [a] + ([b] + y);
  }

  /**
   * A deletion pass of one shape lets no run of another shape in when its edges
   * are edges of the other shape and its gap characters belong to neither class.
   */
  lemma {:induction false} CollapsePassKeepsNoRun(s: string, st: nat, e: char -> bool, g: char -> bool,
                                                  edge: char -> bool, gap: char -> bool)
    requires st <= 2 && NoRunFrom(s, st, edge, gap)
    requires forall c :: e(c) ==> edge(c)
    requires forall c :: g(c) ==> !edge(c) && !gap(c)
    ensures NoRunFrom(CollapsePass(s, e, g), st, edge, gap)
    decreases |s|
  {
    if s != [] {
      var j := RunEnd(s, 1, g);
      if e(s[0]) && 1 < j < |s| && e(s[j]) {
        JoinedRunBefore(s, j, st, edge, gap);
        CollapsePassKeepsNoRun(s[j + 1..], 1, e, g, edge, gap);
        JoinedRunAfter(s[0], s[j], CollapsePass(s[j + 1..], e, g), st, edge, gap);
      } else {
        CollapsePassKeepsNoRun(s[1..], NextState(st, s[0], edge, gap), e, g, edge, gap);
        NoRunFromCons(s[0], CollapsePass(s[1..], e, g), st, edge, gap);
      }
    }
  }

  lemma {:induction false} FixpointKeepsNoRun(s: string, e: char -> bool, g: char -> bool,
                                              edge: char -> bool, gap: char -> bool)
    requires NoRunFrom(s, 0, edge, gap)
    requires forall c :: e(c) ==> edge(c)
    requires forall c :: g(c) ==> !edge(c) && !gap(c)
    ensures NoRunFrom(Fixpoint(s, e, g), 0, edge, gap)
    decreases |s|
  {
    var t := CollapsePass(s, e, g);
    CollapsePassKeepsNoRun(s, 0, e, g, edge, gap);
    if t != s {
      FixpointKeepsNoRun(t, e, g, edge, gap);
    }
  }

  /**
   * Step 2 deletes only white space between two CJK characters, so it joins no
   * word characters across a separator run: step 1's result stays intact.
   */
  lemma RemoveChineseSpacesKeepsNoFlankedRun(s: string)
    requires NoFlankedRun(s, IsWordChar, IsSeparator)
    ensures NoFlankedRun(RemoveChineseSpaces(s), IsWordChar, IsSeparator)
  {
    NoFlankedRunIsNoRunFrom(s, IsWordChar, IsSeparator);
    FixpointKeepsNoRun(s, IsCjk, IsRegexSpace, IsWordChar, IsSeparator);
    NoFlankedRunIsNoRunFrom(RemoveChineseSpaces(s), IsWordChar, IsSeparator);
  }

  /** The state after reading `a`, a space and `b`. */
  function SpacedState(st: nat, a: char, b: char, edge: char -> bool, gap: char -> bool): nat {
    NextState(NextState(NextState(st, a, edge, gap), ' ', edge, gap), b, edge, gap)
  }

  /**
   * Reading a space between `a` and `b` closes no run that reading `a` then `b`
   * would not, and ends in a state no later than theirs.
   */
  predicate SpaceFitsAt(st: nat, a: char, b: char, edge: char -> bool, gap: char -> bool) {
    var n := NextState(st, a, edge, gap);
    !Closes(n, b, edge) ==> && !Closes(n, ' ', edge)
                            && !Closes(NextState(n, ' ', edge, gap), b, edge)
                            && SpacedState(st, a, b, edge, gap) <= NextState(n, b, edge, gap)
  }

  ghost predicate SpaceFits(left: char -> bool, right: char -> bool, edge: char -> bool, gap: char -> bool) {
    forall st: nat, a, b :: st <= 2 && left(a) && right(b) ==> SpaceFitsAt(st, a, b, edge, gap)
  }

  lemma InsertSpaceBefore(s: string, st: nat, edge: char -> bool, gap: char -> bool)
    requires |s| >= 2 && st <= 2 && SpaceFitsAt(st, s[0], s[1], edge, gap) && NoRunFrom(s, st, edge, gap)
    ensures !Closes(st, s[0], edge) && !Closes(NextState(st, s[0], edge, gap), s[1], edge)
    ensures NoRunFrom(s[2..], SpacedState(st, s[0], s[1], edge, gap), edge, gap)
  {
    var n := NextState(st, s[0], edge, gap);
    assert s[1..][1..] == s[2..];
    NoRunFromMonotone(s[2..], SpacedState(st, s[0], s[1], edge, gap), NextState(n, s[1], edge, gap), edge, gap);
  }

  lemma InsertSpaceAfter(a: char, b: char, y: string, st: nat, edge: char -> bool, gap: char -> bool)
    requires SpaceFitsAt(st, a, b, edge, gap)
    requires !Closes(st, a, edge) && !Closes(NextState(st, a, edge, gap), b, edge)
    requires NoRunFrom(y, SpacedState(st, a, b, edge, gap), edge, gap)
    ensures NoRunFrom([a, ' ', b] + y, st, edge, gap)
  {
    var n := NextState(st, a, edge, gap);
    NoRunFromCons(b, y, NextState(n, ' ', edge, gap), edge, gap);
    NoRunFromCons(' ', [b] + y, n, edge, gap);
    NoRunFromCons(a, [' '] + ([b] + y), st, edge, gap);
    assert [a, ' ', b] + y == [a] + ([' '] + ([b] + y));
  }

  lemma {:induction false} InsertSpacesKeepsNoRun(s: string, st: nat, left: char -> bool, right: char -> bool,
                                                  edge: char -> bool, gap: char -> bool)
    requires st <= 2 && NoRunFrom(s, st, edge, gap) && SpaceFits(left, right, edge, gap)
    ensures NoRunFrom(InsertSpaces(s, left, right), st, edge, gap)
    decreases |s|
  {
    if |s| >= 2 {
      if left(s[0]) && right(s[1]) {
        assert SpaceFitsAt(st, s[0], s[1], edge, gap);
        InsertSpaceBefore(s, st, edge, gap);
        InsertSpacesKeepsNoRun(s[2..], SpacedState(st, s[0], s[1], edge, gap), left, right, edge, gap);
        InsertSpaceAfter(s[0], s[1], InsertSpaces(s[2..], left, right), st, edge, gap);
      } else {
        InsertSpacesKeepsNoRun(s[1..], NextState(st, s[0], edge, gap), left, right, edge, gap);
        NoRunFromCons(s[0], InsertSpaces(s[1..], left, right), st, edge, gap);
      }
    }
  }

  /**
   * A space inserted by step 3 sits between two word characters, so it is never
   * inside a separator run, and it always has an ASCII neighbour, so it never
   * joins two CJK characters.
   */
  lemma StepThreeSpacesFit()
    ensures SpaceFits(IsCjk, IsAsciiAlnum, IsWordChar, IsSeparator)
    ensures SpaceFits(IsAsciiAlnum, IsCjk, IsWordChar, IsSeparator)
    ensures SpaceFits(IsCjk, IsAsciiAlnum, IsCjk, IsRegexSpace)
    ensures SpaceFits(IsAsciiAlnum, IsCjk, IsCjk, IsRegexSpace)
  {
  }

  /** Step 3 lets no run of either shape back in. */
  lemma AddTokenizationSpacesKeepsNoFlankedRun(s: string, edge: char -> bool, gap: char -> bool)
    requires Disjoint(edge, gap) && NoFlankedRun(s, edge, gap)
    requires SpaceFits(IsCjk, IsAsciiAlnum, edge, gap) && SpaceFits(IsAsciiAlnum, IsCjk, edge, gap)
    ensures NoFlankedRun(AddTokenizationSpaces(s), edge, gap)
  {
    var t := InsertSpaces(s, IsCjk, IsAsciiAlnum);
    NoFlankedRunIsNoRunFrom(s, edge, gap);
    InsertSpacesKeepsNoRun(s, 0, IsCjk, IsAsciiAlnum, edge, gap);
    InsertSpacesKeepsNoRun(t, 0, IsAsciiAlnum, IsCjk, edge, gap);
    NoFlankedRunIsNoRunFrom(AddTokenizationSpaces(s), edge, gap);
  }

  /** Reading a white-space run is reading one space, when all white space is in one class. */
  lemma {:induction false} SkipSpaces(s: string, m: nat, st: nat, edge: char -> bool, gap: char -> bool)
    requires 1 <= m <= |s| && st <= 2 && NoRunFrom(s, st, edge, gap)
    requires forall k :: 0 <= k < m ==> IsRegexSpace(s[k])
    requires forall c :: IsRegexSpace(c) ==> !edge(c) && gap(c) == gap(' ')
    ensures NoRunFrom(s[m..], NextState(st, ' ', edge, gap), edge, gap)
    decreases m
  {
    assert IsRegexSpace(' ');
    if m > 1 {
      SkipSpaces(s[1..], m - 1, NextState(st, ' ', edge, gap), edge, gap);
      assert s[1..][m - 1..] == s[m..];
    }
  }

  lemma {:induction false} SquashSpacesKeepsNoRun(s: string, st: nat, edge: char -> bool, gap: char -> bool)
    requires st <= 2 && NoRunFrom(s, st, edge, gap)
    requires forall c :: IsRegexSpace(c) ==> !edge(c) && gap(c) == gap(' ')
    ensures NoRunFrom(SquashSpaces(s), st, edge, gap)
    decreases |s|
  {
    if s != [] {
      if IsRegexSpace(s[0]) {
        var j := RunEnd(s, 0, IsRegexSpace);
        SkipSpaces(s, j, st, edge, gap);
        SquashSpacesKeepsNoRun(s[j..], NextState(st, ' ', edge, gap), edge, gap);
        NoRunFromCons(' ', SquashSpaces(s[j..]), st, edge, gap);
      } else {
        SquashSpacesKeepsNoRun(s[1..], NextState(st, s[0], edge, gap), edge, gap);
        NoRunFromCons(s[0], SquashSpaces(s[1..]), st, edge, gap);
      }
    }
  }

  /** A flanked run of a slice is a flanked run of the whole, shifted. */
  lemma FlankedRunOfSlice(s: string, i: nat, j: nat, a: int, b: int, edge: char -> bool, gap: char -> bool)
    requires i <= j <= |s|
    ensures FlankedRunAt(s[i..j], a, b, edge, gap) ==> FlankedRunAt(s, a + i, b + i, edge, gap)
  {
    if 0 <= a && a + 1 < b < j - i {
      assert s[a + i] == s[i..j][a] && s[b + i] == s[i..j][b];
      assert forall k :: a + i < k < b + i ==> s[k] == s[i..j][k - i];
    }
  }

  lemma NoFlankedRunSlice(s: string, i: nat, j: nat, edge: char -> bool, gap: char -> bool)
    requires i <= j <= |s| && NoFlankedRun(s, edge, gap)
    ensures NoFlankedRun(s[i..j], edge, gap)
  {
    forall a, b ensures FlankedRunAt(s[i..j], a, b, edge, gap) ==> FlankedRunAt(s, a + i, b + i, edge, gap) {
      FlankedRunOfSlice(s, i, j, a, b, edge, gap);
    }
  }

  /**
   * Step 4 maps each white-space run to one space and trims the ends, so a run
   * of either shape in its result was one in its input.
   */
  lemma NormalizeSpacesKeepsNoFlankedRun(s: string, edge: char -> bool, gap: char -> bool)
    requires Disjoint(edge, gap) && NoFlankedRun(s, edge, gap)
    requires forall c :: IsRegexSpace(c) ==> !edge(c) && gap(c) == gap(' ')
    ensures NoFlankedRun(NormalizeSpaces(s), edge, gap)
  {
    var t := SquashSpaces(s);
    NoFlankedRunIsNoRunFrom(s, edge, gap);
    SquashSpacesKeepsNoRun(s, 0, edge, gap);
    NoFlankedRunIsNoRunFrom(t, edge, gap);
    var i, j :| 0 <= i <= j <= |t| && Strip(t) == t[i..j];
    NoFlankedRunSlice(t, i, j, edge, gap);
  }

  /**
   * The results of steps 1 and 2 survive steps 2 to 4: no separator run
   * between word characters, and no white space between CJK characters.
   */
  lemma CleanStepsNoFlankedRun(s: string)
    ensures var r := NormalizeSpaces(AddTokenizationSpaces(RemoveChineseSpaces(RemoveSeparators(s))));
            NoFlankedRun(r, IsWordChar, IsSeparator) && NoFlankedRun(r, IsCjk, IsRegexSpace)
  {
    var s2 := RemoveChineseSpaces(RemoveSeparators(s));
    var s3 := AddTokenizationSpaces(s2);
    StepThreeSpacesFit();
    RemoveChineseSpacesKeepsNoFlankedRun(RemoveSeparators(s));
    AddTokenizationSpacesKeepsNoFlankedRun(s2, IsWordChar, IsSeparator);
    AddTokenizationSpacesKeepsNoFlankedRun(s2, IsCjk, IsRegexSpace);
    NormalizeSpacesKeepsNoFlankedRun(s3, IsWordChar, IsSeparator);
    NormalizeSpacesKeepsNoFlankedRun(s3, IsCjk, IsRegexSpace);
  }

  // ---------------------------------------------------------------------------
  // The whole cleaner
  // ---------------------------------------------------------------------------

  /** Steps 1 to 4 of `clean`, shared with the classifier's `clean_text`. */
  function CleanSteps(s: string): (r: string)
    ensures r != [] ==> !IsStripSpace(r[0]) && !IsStripSpace(r[|r| - 1])
    ensures SingleSpaced(r)
    ensures NoAdjacent(r, IsCjk, IsAsciiAlnum) && NoAdjacent(r, IsAsciiAlnum, IsCjk)
    ensures NoFlankedRun(r, IsWordChar, IsSeparator) && NoFlankedRun(r, IsCjk, IsRegexSpace)
    ensures IsSubseq(NonSpace(r), NonSpace(s))
  {
    var s3 := AddTokenizationSpaces(RemoveChineseSpaces(RemoveSeparators(s)));
    SpacesAreNotWords();
    NormalizeSpacesKeepsNoAdjacent(s3, IsCjk, IsAsciiAlnum);
    NormalizeSpacesKeepsNoAdjacent(s3, IsAsciiAlnum, IsCjk);
    CleanStepsSubseq(s);
    CleanStepsNoFlankedRun(s);
    NormalizeSpaces(s3)
  }

  lemma SpacesAreNotWords()
    ensures forall c :: IsRegexSpace(c) ==> !IsCjk(c) && !IsAsciiAlnum(c)
  {
  }

  /** Steps 1 to 4 only delete characters other than white space, or add white space. */
  lemma CleanStepsSubseq(s: string)
    ensures IsSubseq(NonSpace(NormalizeSpaces(AddTokenizationSpaces(RemoveChineseSpaces(RemoveSeparators(s))))),
                     NonSpace(s))
  {
    var s1 := RemoveSeparators(s);
    var s2 := RemoveChineseSpaces(s1);
    var s3 := AddTokenizationSpaces(s2);
    SubseqTrans(s2, s1, s);
    FilterSubseq(s2, s, NotRegexSpace);
    SubseqTrans(NonSpace(NormalizeSpaces(s3)), NonSpace(s3), NonSpace(s));
  }

  /** Stripping and dropping the `#FOUND` prefix only delete characters. */
  lemma ExtractedSubseq(t: string)
    ensures IsSubseq(NonSpace(ExtractFoundMessage(Strip(t))), NonSpace(t))
  {
    var stripped := Strip(t);
    var extracted := ExtractFoundMessage(stripped);
    var k := |stripped| - |extracted|;
    SliceSubseq(stripped, k, |stripped|);
    assert extracted == stripped[k..|stripped|];
    SubseqTrans(extracted, stripped, t);
    FilterSubseq(extracted, t, NotRegexSpace);
  }

  /**
   * `TextCleaner#clean`: nil gives "", otherwise strip, drop a `#FOUND` prefix and
   * run steps 1 to 4.
   */
  function Clean(text: Option<string>): (r: string)
    ensures text.None? ==> r == ""
    ensures r != [] ==> !IsStripSpace(r[0]) && !IsStripSpace(r[|r| - 1])
    ensures SingleSpaced(r)
    ensures NoAdjacent(r, IsCjk, IsAsciiAlnum) && NoAdjacent(r, IsAsciiAlnum, IsCjk)
    ensures NoFlankedRun(r, IsWordChar, IsSeparator) && NoFlankedRun(r, IsCjk, IsRegexSpace)
    ensures text.Some? ==> IsSubseq(NonSpace(r), NonSpace(text.value))
  {
    match text
    case None => ""
    case Some(t) =>
      CleanSubseq(t);
      CleanSteps(ExtractFoundMessage(Strip(t)))
  }

  /** `SpamClassifierService#clean_text`: the same steps without the `#FOUND` extraction. */
  function CleanText(text: Option<string>): (r: string)
    ensures text.None? ==> r == ""
    ensures r != [] ==> !IsStripSpace(r[0]) && !IsStripSpace(r[|r| - 1])
    ensures SingleSpaced(r)
    ensures NoAdjacent(r, IsCjk, IsAsciiAlnum) && NoAdjacent(r, IsAsciiAlnum, IsCjk)
    ensures NoFlankedRun(r, IsWordChar, IsSeparator) && NoFlankedRun(r, IsCjk, IsRegexSpace)
    ensures text.Some? ==> IsSubseq(NonSpace(r), NonSpace(text.value))
  {
    match text
    case None => ""
    case Some(t) =>
      CleanTextSubseq(t);
      CleanSteps(Strip(t))
  }

  lemma CleanSubseq(t: string)
    ensures IsSubseq(NonSpace(CleanSteps(ExtractFoundMessage(Strip(t)))), NonSpace(t))
  {
    var extracted := ExtractFoundMessage(Strip(t));
    ExtractedSubseq(t);
    SubseqTrans(NonSpace(CleanSteps(extracted)), NonSpace(extracted), NonSpace(t));
  }

  lemma CleanTextSubseq(t: string)
    ensures IsSubseq(NonSpace(CleanSteps(Strip(t))), NonSpace(t))
  {
    var stripped := Strip(t);
    FilterSubseq(stripped, t, NotRegexSpace);
    SubseqTrans(NonSpace(CleanSteps(stripped)), NonSpace(stripped), NonSpace(t));
  }
}
