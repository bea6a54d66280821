/**
 * The statistics panel of src/components/StatsDashboard.tsx: counts by
 * category and by rating bucket, the three best-rated entries, and the
 * tally of entries per platform with the platform that has the most.
 */
module Stats {
  import opened Optional
  import opened JsStrings
  import opened Types
  import opened Seqs
  import opened EntryViews

  // ---------------------------------------------------------------
  // Counts
  // ---------------------------------------------------------------

  function IsMovie(e: Entry): bool { e.category == "Movie" }
  function IsSeries(e: Entry): bool { e.category == "Series" }
  function IsAnime(e: Entry): bool { e.category == "Anime" }

  /** `e.score === 5`: a strict comparison, so a null score is not 5. */
  function IsFiveStars(e: Entry): bool { e.score == Some(5.0) }
  function IsFourStars(e: Entry): bool { 4.0 <= ScoreOrZero(e) < 5.0 }
  function IsThreeStars(e: Entry): bool { 3.0 <= ScoreOrZero(e) < 4.0 }
  function IsLowStars(e: Entry): bool { ScoreOrZero(e) < 3.0 }

  /** Counting over a non-empty list: its first element, then the rest. */
  lemma CountCons<T>(s: seq<T>, p: T -> bool)
    requires s != []
    ensures Count(s, p) == (if p(s[0]) then 1 else 0) + Count(s[1..], p)
  {
  }

  /** The three category counts never exceed the total, and reach it
      exactly when every entry is a Movie, a Series or an Anime. */
  lemma {:induction false} CategoryCounts(es: seq<Entry>)
    ensures Count(es, IsMovie) + Count(es, IsSeries) + Count(es, IsAnime) <= |es|
    ensures Count(es, IsMovie) + Count(es, IsSeries) + Count(es, IsAnime) == |es|
      <==> forall k :: 0 <= k < |es| ==> es[k].category in {"Movie", "Series", "Anime"}
  {
    if es != [] {
      CategoryCounts(es[1..]);
      CountCons(es, IsMovie);
      CountCons(es, IsSeries);
      CountCons(es, IsAnime);
      var known := forall k :: 0 <= k < |es| ==> es[k].category in {"Movie", "Series", "Anime"};
      if known {
        assert forall k :: 0 <= k < |es[1..]| ==> es[1..][k] == es[k + 1];
      } else {
        var k :| 0 <= k < |es| && es[k].category !in {"Movie", "Series", "Anime"};
        if k > 0 {
          assert es[1..][k - 1] == es[k];
        }
      }
    }
  }

  /** When no score, a null one counted as 0, exceeds 5, the four rating
      buckets split the entries: each entry is in exactly one. */
  lemma {:induction false} BucketsPartition(es: seq<Entry>)
    requires forall k :: 0 <= k < |es| ==> ScoreOrZero(es[k]) <= 5.0
    ensures Count(es, IsFiveStars) + Count(es, IsFourStars)
      + Count(es, IsThreeStars) + Count(es, IsLowStars) == |es|
  {
    if es != [] {
      assert forall k :: 0 <= k < |es[1..]| ==> es[1..][k] == es[k + 1];
      BucketsPartition(es[1..]);
      CountCons(es, IsFiveStars);
      CountCons(es, IsFourStars);
      CountCons(es, IsThreeStars);
      CountCons(es, IsLowStars);
    }
  }

  /** The buckets are disjoint whatever the scores. */
  lemma BucketsDisjoint(e: Entry)
    ensures (if IsFiveStars(e) then 1 else 0) + (if IsFourStars(e) then 1 else 0)
      + (if IsThreeStars(e) then 1 else 0) + (if IsLowStars(e) then 1 else 0) <= 1
  {
  }

  // ---------------------------------------------------------------
  // Top rated
  // ---------------------------------------------------------------

  function Min(a: nat, b: nat): nat
  {
    if a <= b then a else b
  }

  /** `[...entries].sort((a, b) => (b.score || 0) - (a.score || 0)).slice(0, 3)` */
  function TopRated(es: seq<Entry>): (r: seq<Entry>)
    ensures |r| == Min(3, |es|)
  {
    SortByKey(es, ScoreDescending)[..Min(3, |es|)]
  }

  /** The top entries come from the list, best first, and no entry left
      out scores higher than the last one shown. */
  lemma TopRatedSpec(es: seq<Entry>)
    ensures var r := TopRated(es);
      && multiset(r) <= multiset(es)
      && (forall i, j :: 0 <= i < j < |r| ==> ScoreOrZero(r[i]) >= ScoreOrZero(r[j]))
      && (forall e :: e in multiset(es) - multiset(r) ==> ScoreOrZero(e) <= ScoreOrZero(r[|r| - 1]))
  {
    TopRatedSplit(es);
    TopRatedOrdered(es);
    forall e | e in multiset(es) - multiset(TopRated(es))
      ensures ScoreOrZero(e) <= ScoreOrZero(TopRated(es)[|TopRated(es)| - 1])
    {
      TopRatedOmitted(es, e);
    }
  }

  /** The sorted copy is the top entries followed by the rest. */
  lemma TopRatedSplit(es: seq<Entry>)
    ensures var s := SortByKey(es, ScoreDescending);
      multiset(es) == multiset(TopRated(es)) + multiset(s[Min(3, |es|)..])
  {
    var s := SortByKey(es, ScoreDescending);
    MultisetOfCut(s, Min(3, |es|));
  }

  /** A sequence cut in two holds the elements of both parts. */
  lemma MultisetOfCut(s: seq<Entry>, m: nat)
    requires m <= |s|
    ensures multiset(s) == multiset(s[..m]) + multiset(s[m..])
  {
    assert s == s[..m] + s[m..];
  }

  /** The top entries are in non-increasing score order. */
  lemma TopRatedOrdered(es: seq<Entry>)
    ensures var r := TopRated(es);
      forall i, j :: 0 <= i < j < |r| ==> ScoreOrZero(r[i]) >= ScoreOrZero(r[j])
  {
    var s := SortByKey(es, ScoreDescending);
    var r := TopRated(es);
    forall i, j | 0 <= i < j < |r| ensures ScoreOrZero(r[i]) >= ScoreOrZero(r[j]) {
      DescendingScores(s, i, j);
    }
  }

  /** An entry left out scores no higher than the last one shown. */
  lemma TopRatedOmitted(es: seq<Entry>, e: Entry)
    requires e in multiset(es) - multiset(TopRated(es))
    ensures |TopRated(es)| > 0 && ScoreOrZero(e) <= ScoreOrZero(TopRated(es)[|TopRated(es)| - 1])
  {
    var s := SortByKey(es, ScoreDescending);
    var m := Min(3, |es|);
    TopRatedSplit(es);
    assert e in multiset(s[m..]);
    var j :| 0 <= j < |s[m..]| && s[m..][j] == e;
    DescendingScores(s, m - 1, m + j);
  }

  // ---------------------------------------------------------------
  // The panel
  // ---------------------------------------------------------------

  datatype Summary = Summary(
    total: nat,
    average: real,
    movies: nat,
    series: nat,
    anime: nat,
    fiveStars: nat,
    fourStars: nat,
    threeStars: nat,
    lowStars: nat,
    topRated: seq<Entry>)

  /** Everything the panel computes except the platform tally; `None`
      for an empty list, which renders nothing. */
  function Summarize(es: seq<Entry>): (r: Option<Summary>)
    ensures r.None? <==> es == []
    ensures r.Some? ==> r.value.total == |es| && Some(r.value.average) == Average(es)
  {
    if es == [] then None
    else Some(Summary(
      |es|,
      Average(es).value,
      Count(es, IsMovie), Count(es, IsSeries), Count(es, IsAnime),
      Count(es, IsFiveStars), Count(es, IsFourStars), Count(es, IsThreeStars), Count(es, IsLowStars),
      TopRated(es)))
  }

  /** The figures of a summary add up: the three categories and the four
      buckets account for the total as stated above. */
  lemma SummaryTotals(es: seq<Entry>)
    requires es != []
    requires forall k :: 0 <= k < |es| ==> ScoreOrZero(es[k]) <= 5.0
    ensures var s := Summarize(es).value;
      && s.movies + s.series + s.anime <= s.total
      && s.fiveStars + s.fourStars + s.threeStars + s.lowStars == s.total
      && |s.topRated| == Min(3, s.total)
  {
    CategoryCounts(es);
    BucketsPartition(es);
  }

  // ---------------------------------------------------------------
  // Platforms
  // ---------------------------------------------------------------

  function HasLabel(p: string): Entry -> bool
  {
    (e: Entry) => PlatformLabel(e) == p
  }

  /** The number of entries shown under platform `p`, counted from the
      left as the tally does. */
  function Occurrences(es: seq<Entry>, p: string): nat
  {
    if es == [] then 0
    else Occurrences(es[..|es| - 1], p) + (if PlatformLabel(es[|es| - 1]) == p then 1 else 0)
  }

  /** The tally's count of a label is the number of entries with that
      label, `entries.filter(e => (e.platform || 'Unknown') === p).length`. */
  lemma {:induction false} OccurrencesIsCount(es: seq<Entry>, p: string)
    ensures Occurrences(es, p) == Count(es, HasLabel(p))
  {
    if es != [] {
      var init := es[..|es| - 1];
      OccurrencesIsCount(init, p);
      assert es == init + [es[|es| - 1]];
      CountSnoc(init, es[|es| - 1], HasLabel(p));
    }
  }

  /** No label occurs twice, checked from the right. */
  predicate NoDuplicates(s: seq<string>)
  {
    s == [] || (s[|s| - 1] !in s[..|s| - 1] && NoDuplicates(s[..|s| - 1]))
  }

  lemma {:induction false} NoDuplicatesDistinct(s: seq<string>)
    requires NoDuplicates(s)
    ensures forall i, j :: 0 <= i < j < |s| ==> s[i] != s[j]
  {
    if s != [] {
      var init := s[..|s| - 1];
      NoDuplicatesDistinct(init);
      forall i, j | 0 <= i < j < |s| ensures s[i] != s[j] {
        assert s[i] == init[i];
        if j < |s| - 1 {
          assert s[j] == init[j];
        }
      }
    }
  }

  /** The keys of the `platforms` object in insertion order: each label
      at its first appearance. */
  function PlatformOrder(es: seq<Entry>): (r: seq<string>)
    ensures NoDuplicates(r)
  {
    if es == [] then []
    else
      var o := PlatformOrder(es[..|es| - 1]);
      var p := PlatformLabel(es[|es| - 1]);
      if p in o then o else o + [p]
  }

  /** The keys are exactly the labels that occur. */
  lemma {:induction false} PlatformOrderKeys(es: seq<Entry>, p: string)
    ensures p in PlatformOrder(es) <==> Occurrences(es, p) > 0
  {
    if es != [] {
      PlatformOrderKeys(es[..|es| - 1], p);
    }
  }

  /** The counts of the labels in `order`, added up. */
  function SumOver(order: seq<string>, counts: map<string, nat>): nat
    requires forall k :: 0 <= k < |order| ==> order[k] in counts
  {
    if order == [] then 0
    else SumOver(order[..|order| - 1], counts) + counts[order[|order| - 1]]
  }

  lemma {:induction false} SumOverBump(order: seq<string>, counts: map<string, nat>, p: string)
    requires forall k :: 0 <= k < |order| ==> order[k] in counts
    requires NoDuplicates(order)
    requires p in counts
    ensures SumOver(order, counts[p := counts[p] + 1]) == SumOver(order, counts) + (if p in order then 1 else 0)
  {
    if order != [] {
      var init := order[..|order| - 1];
      assert forall k :: 0 <= k < |init| ==> init[k] == order[k];
      SumOverBump(init, counts, p);
      assert p in order <==> p in init || p == order[|order| - 1];
    }
  }

  lemma {:induction false} SumOverFresh(order: seq<string>, counts: map<string, nat>, p: string, v: nat)
    requires forall k :: 0 <= k < |order| ==> order[k] in counts
    requires p !in order
    ensures SumOver(order, counts[p := v]) == SumOver(order, counts)
  {
    if order != [] {
      var init := order[..|order| - 1];
      assert forall k :: 0 <= k < |init| ==> init[k] == order[k];
      SumOverFresh(init, counts, p, v);
    }
  }

  /** The tally's keys are the labels in `order`. */
  ghost predicate KeysAre(counts: map<string, nat>, order: seq<string>)
  {
    forall p :: p in counts <==> p in order
  }

  /** The tally's counts are those of the first `i` entries. */
  ghost predicate CountsOf(es: seq<Entry>, i: nat, counts: map<string, nat>)
    requires i <= |es|
  {
    forall p :: p in counts ==> counts[p] == Occurrences(es[..i], p)
  }

  /** `(platforms[p] || 0) + 1` */
  function Bumped(counts: map<string, nat>, p: string): map<string, nat>
  {
    counts[p := (if p in counts then counts[p] else 0) + 1]
  }

  /** The key order after counting label `p`. */
  function Appended(order: seq<string>, counts: map<string, nat>, p: string): seq<string>
  {
    if p in counts then order else order + [p]
  }

  /** The order of first appearance, one entry further. */
  lemma {:induction false} OrderStep(es: seq<Entry>, i: nat, counts: map<string, nat>, order: seq<string>)
    requires i < |es| && order == PlatformOrder(es[..i]) && KeysAre(counts, order)
    ensures Appended(order, counts, PlatformLabel(es[i])) == PlatformOrder(es[..i + 1])
  {
    assert es[..i + 1][..i] == es[..i];
  }

  /** The counts, one entry further. */
  lemma {:induction false} CountsStep(es: seq<Entry>, i: nat, counts: map<string, nat>, order: seq<string>)
    requires i < |es| && order == PlatformOrder(es[..i]) && KeysAre(counts, order)
    requires CountsOf(es, i, counts)
    ensures CountsOf(es, i + 1, Bumped(counts, PlatformLabel(es[i])))
  {
    var p := PlatformLabel(es[i]);
    assert es[..i + 1][..i] == es[..i];
    if p !in counts {
      PlatformOrderKeys(es[..i], p);
    }
  }

  /** The sum of the counts, one entry further. */
  lemma {:induction false} SumStep(counts: map<string, nat>, order: seq<string>, p: string, n: nat)
    requires KeysAre(counts, order) && NoDuplicates(order) && SumOver(order, counts) == n
    ensures KeysAre(Bumped(counts, p), Appended(order, counts, p))
    ensures SumOver(Appended(order, counts, p), Bumped(counts, p)) == n + 1
  {
    if p in counts {
      SumOverBump(order, counts, p);
    } else {
      SumOverFresh(order, counts, p, 1);
      assert (order + [p])[..|order|] == order;
    }
  }

  /** `entries.forEach(e => { platforms[p] = (platforms[p] || 0) + 1 })`
      with `p = e.platform || 'Unknown'`: one key per distinct label in
      order of first appearance, each counting the entries with that
      label, the counts adding up to the number of entries. */
  method PlatformTally(es: seq<Entry>) returns (counts: map<string, nat>, order: seq<string>)
    ensures order == PlatformOrder(es)
    ensures forall p :: p in counts <==> p in order
    ensures forall p :: p in counts ==> counts[p] == Occurrences(es, p)
    ensures SumOver(order, counts) == |es|
  {
    counts := map[];
    order := [];
    for i := 0 to |es|
      invariant order == PlatformOrder(es[..i])
      invariant KeysAre(counts, order)
      invariant CountsOf(es, i, counts)
      invariant SumOver(order, counts) == i
    {
      var p := PlatformLabel(es[i]);
      OrderStep(es, i, counts, order);
      CountsStep(es, i, counts, order);
      SumStep(counts, order, p, i);
      if p !in counts {
        order := order + [p];
      }
      counts := counts[p := (if p in counts then counts[p] else 0) + 1];
    }
    assert es[..|es|] == es;
  }

  /** `Object.entries(platforms).sort((a, b) => b[1] - a[1])[0]`: the
      sort is stable, so this is the first key in insertion order whose
      count is maximal; `None` (shown as 'N/A') when there are no keys. */
  function TopPlatform(order: seq<string>, counts: map<string, nat>): (r: Option<(string, nat)>)
    requires forall k :: 0 <= k < |order| ==> order[k] in counts
    ensures r.None? <==> order == []
    ensures r.Some? ==> r.value.0 in order && r.value.1 == counts[r.value.0]
    ensures r.Some? ==> forall k :: 0 <= k < |order| ==> counts[order[k]] <= r.value.1
    ensures r.Some? ==> forall k :: 0 <= k < IndexOf(order, r.value.0) ==> counts[order[k]] < r.value.1
  {
    if order == [] then None
    else
      var first := (order[0], counts[order[0]]);
      var rest := TopPlatform(order[1..], counts);
      if rest.None? || first.1 >= rest.value.1 then Some(first)
      else rest
  }

  /** The label of every entry occurs. */
  lemma {:induction false} LabelOccurs(es: seq<Entry>, k: nat)
    requires k < |es|
    ensures Occurrences(es, PlatformLabel(es[k])) > 0
  {
    var init := es[..|es| - 1];
    if k < |init| {
      assert init[k] == es[k];
      LabelOccurs(init, k);
    }
  }

  /** `topPlatform`: the tally's leader. It exists exactly when there are
      entries, and no platform has more entries than it. */
  method TopPlatformOf(es: seq<Entry>) returns (top: Option<(string, nat)>)
    ensures es != [] <==> top.Some?
    ensures top.Some? ==> top.value.1 == Count(es, HasLabel(top.value.0))
    ensures top.Some? ==> forall p :: Count(es, HasLabel(p)) <= top.value.1
  {
    var counts, order := PlatformTally(es);
    top := TopPlatform(order, counts);
    if es != [] {
      LabelOccurs(es, 0);
      PlatformOrderKeys(es, PlatformLabel(es[0]));
    }
    if top.Some? {
      OccurrencesIsCount(es, top.value.0);
      forall p ensures Count(es, HasLabel(p)) <= top.value.1 {
        OccurrencesIsCount(es, p);
        PlatformOrderKeys(es, p);
        if p in order {
          var i := IndexOf(order, p);
          assert order[i] == p;
        }
      }
    }
  }
}
