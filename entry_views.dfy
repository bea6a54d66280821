/**
 * What the dashboard and the statistics panel both derive from a list of
 * entries: the score total and average (`reduce` over `e.score || 0`) and
 * the stable sort by a key that `Array.prototype.sort` performs with a
 * comparator of the form `key(a) - key(b)`.
 */
module EntryViews {
  import opened Optional
  import opened Types

  // ---------------------------------------------------------------
  // Score total and average
  // ---------------------------------------------------------------

  /** `es.reduce((s, e) => s + (e.score || 0), 0)`, left to right. */
  function SumScores(es: seq<Entry>): real
  {
    if es == [] then 0.0 else SumScores(es[..|es| - 1]) + ScoreOrZero(es[|es| - 1])
  }

  /** Every score, a null one counted as 0, lies in [0, 5]. */
  ghost predicate ScoresInRange(es: seq<Entry>)
  {
    forall k :: 0 <= k < |es| ==> 0.0 <= ScoreOrZero(es[k]) <= 5.0
  }

  /** The average score, before `toFixed(1)`; `None` for an empty list,
      which the dashboard shows as '0.0' and the panel does not show. */
  function Average(es: seq<Entry>): (r: Option<real>)
    ensures r.None? <==> es == []
  {
    if es == [] then None else Some(SumScores(es) / (|es| as real))
  }

  lemma {:induction false} SumScoresBounds(es: seq<Entry>)
    requires ScoresInRange(es)
    ensures 0.0 <= SumScores(es) <= 5.0 * (|es| as real)
  {
    if es != [] {
      var init := es[..|es| - 1];
      assert ScoresInRange(init) by {
        forall k | 0 <= k < |init| ensures 0.0 <= ScoreOrZero(init[k]) <= 5.0 {
          assert init[k] == es[k];
        }
      }
      SumScoresBounds(init);
    }
  }

  /** With every score in [0, 5] the average is in [0, 5] too. */
  lemma AverageInRange(es: seq<Entry>)
    requires es != [] && ScoresInRange(es)
    ensures 0.0 <= Average(es).value <= 5.0
  {
    SumScoresBounds(es);
    var n := |es| as real;
    assert SumScores(es) / n <= 5.0 * n / n;
  }

  // ---------------------------------------------------------------
  // Stable sort by a key
  // ---------------------------------------------------------------

  ghost predicate SortedBy(s: seq<Entry>, key: Entry -> real)
  {
    forall i, j :: 0 <= i < j < |s| ==> key(s[i]) <= key(s[j])
  }

  /** Puts `x` before the first element whose key is not smaller, so that
      `x`, which came first in the input, stays ahead of its equals. */
  function Insert(x: Entry, s: seq<Entry>, key: Entry -> real): (r: seq<Entry>)
    ensures |r| == |s| + 1
    ensures multiset(r) == multiset{x} + multiset(s)
  {
    if s == [] then [x]
    else if key(x) <= key(s[0]) then [x] + s
    else
      var rest := Insert(x, s[1..], key);
      assert s == [s[0]] + s[1..];
      [s[0]] + rest
  }

  lemma {:induction false} InsertSorted(x: Entry, s: seq<Entry>, key: Entry -> real)
    requires SortedBy(s, key)
    ensures SortedBy(Insert(x, s, key), key)
  {
    if s != [] && key(s[0]) < key(x) {
      var rest := Insert(x, s[1..], key);
      InsertSorted(x, s[1..], key);
      var r := [s[0]] + rest;
      forall j | 1 <= j < |r| ensures key(s[0]) <= key(r[j]) {
        assert r[j] in multiset(rest);
        assert r[j] in multiset{x} + multiset(s[1..]);
        if r[j] != x {
          assert r[j] in s[1..];
        }
      }
    }
  }

  /** `[...s].sort((a, b) => key(a) - key(b))`: a sorted permutation of
      `s`; `s` itself is a value and is not reordered. */
  function SortByKey(s: seq<Entry>, key: Entry -> real): (r: seq<Entry>)
    ensures |r| == |s|
    ensures multiset(r) == multiset(s)
    ensures SortedBy(r, key)
  {
    if s == [] then []
    else
      var rest := SortByKey(s[1..], key);
      InsertSorted(s[0], rest, key);
      assert s == [s[0]] + s[1..];
      Insert(s[0], rest, key)
  }

  /** `(e.score || 0)` negated: sorting by it puts the highest score first,
      as the comparator `(b.score || 0) - (a.score || 0)` does. */
  function ScoreDescending(e: Entry): real
  {
    -ScoreOrZero(e)
  }

  /** Sorted by the negated score, the scores do not increase. */
  lemma DescendingScores(s: seq<Entry>, i: int, j: int)
    requires SortedBy(s, ScoreDescending) && 0 <= i < j < |s|
    ensures ScoreOrZero(s[i]) >= ScoreOrZero(s[j])
  {
    assert ScoreDescending(s[i]) <= ScoreDescending(s[j]);
  }
}
