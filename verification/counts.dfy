/**
 * Token frequency tables: the `spam_counts` / `ham_counts` hashes of a
 * classifier state, as maps from token to count.
 */
module Counts {

  type Table = map<string, int>

  /** `table.fetch(token, 0)`. */
  function Get(m: Table, k: string): int {
    if k in m then m[k] else 0
  }

  /** Some key of a non-empty table. */
  ghost function Pick(m: Table): (k: string)
    requires m != map[]
    ensures k in m
  {
    var k :| k in m; k
  }

  /** The sum of all counts (`table.values.sum`), as a specification. */
  ghost function Sum(m: Table): int
    decreases |m|
  {
    if m == map[] then 0
    else m[Pick(m)] + Sum(m - {Pick(m)})
  }

  /** The sum does not depend on which key is taken out first. */
  lemma {:induction false} SumRemove(m: Table, k: string)
    requires k in m
    ensures Sum(m) == m[k] + Sum(m - {k})
    decreases |m|
  {
    var j := Pick(m);
    if j != k {
      SumRemove(m - {j}, k);
      SumRemove(m - {k}, j);
      assert (m - {j}) - {k} == (m - {k}) - {j};
    }
  }

  /** Setting one entry changes the sum by the difference of the counts. */
  lemma SumUpdate(m: Table, k: string, v: int)
    ensures Sum(m[k := v]) == Sum(m) - Get(m, k) + v
  {
    SumRemove(m[k := v], k);
    if k in m {
      SumRemove(m, k);
      assert m[k := v] - {k} == m - {k};
    } else {
      assert m[k := v] - {k} == m;
    }
  }

  /** The set of tokens occurring in `toks`. */
  function TokenSet(toks: seq<string>): set<string> {
    set t | t in toks
  }

  /**
   * `toks.each { |t| m[t] = m.fetch(t, 0) + 1 }`: one increment per
   * occurrence, left to right.
   */
  function Bump(m: Table, toks: seq<string>): (r: Table)
    ensures r.Keys == m.Keys + TokenSet(toks)
    decreases |toks|
  {
    if toks == [] then m
    else
      var r := Bump(m[toks[0] := Get(m, toks[0]) + 1], toks[1..]);
      assert TokenSet(toks) == {toks[0]} + TokenSet(toks[1..]);
      r
  }

  /** Each token's count grows by its multiplicity in `toks`; others keep theirs. */
  lemma {:induction false} BumpCounts(m: Table, toks: seq<string>)
    ensures forall w :: Get(Bump(m, toks), w) == Get(m, w) + multiset(toks)[w]
    decreases |toks|
  {
    if toks != [] {
      var m' := m[toks[0] := Get(m, toks[0]) + 1];
      BumpCounts(m', toks[1..]);
      assert toks == [toks[0]] + toks[1..];
      assert multiset(toks) == multiset{toks[0]} + multiset(toks[1..]);
    }
  }

  /** The total grows by exactly the number of tokens. */
  lemma {:induction false} BumpSum(m: Table, toks: seq<string>)
    ensures Sum(Bump(m, toks)) == Sum(m) + |toks|
    decreases |toks|
  {
    if toks != [] {
      var m' := m[toks[0] := Get(m, toks[0]) + 1];
      SumUpdate(m, toks[0], Get(m, toks[0]) + 1);
      BumpSum(m', toks[1..]);
    }
  }

  /** `table.values.sum`, computed key by key. */
  method SumValues(m: Table) returns (total: int)
    ensures total == Sum(m)
  {
    total := 0;
    var rest := m;
    while rest != map[]
      invariant total + Sum(rest) == Sum(m)
      decreases |rest|
    {
      var k :| k in rest;
      SumRemove(rest, k);
      total := total + rest[k];
      rest := rest - {k};
    }
  }
}
