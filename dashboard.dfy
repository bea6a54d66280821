/**
 * The dashboard of src/components/Dashboard.tsx: the entries list and the
 * entry being edited are state that the add, update and delete handlers
 * replace once the backend has answered; the list on screen is the
 * category filter followed by a sort on a copy, and the header shows the
 * count and the average score.
 *
 * Each backend call is an input: `inserted` is the row `insert … select
 * single` returns (`None` on an error or no row), `failed` says whether
 * `update`/`delete` reported an error.
 */
module Dashboard {
  import opened Optional
  import opened JsStrings
  import opened Types
  import opened Seqs
  import opened EntryViews

  const AllCategories: string := "All"

  /** `entries.map(e => e.id === id ? { ...e, ...updates } : e)` */
  function UpdateById(es: seq<Entry>, id: string, updates: Patch): (r: seq<Entry>)
    ensures |r| == |es|
    ensures forall k :: 0 <= k < |es| && es[k].id != id ==> r[k] == es[k]
    ensures forall k :: 0 <= k < |es| && es[k].id == id ==> r[k] == ApplyPatch(es[k], updates)
  {
    seq(|es|, k requires 0 <= k < |es| => if es[k].id == id then ApplyPatch(es[k], updates) else es[k])
  }

  function HasOtherId(id: string): Entry -> bool
  {
    (e: Entry) => e.id != id
  }

  /** `entries.filter(e => e.id !== id)` */
  function DeleteById(es: seq<Entry>, id: string): seq<Entry>
  {
    Filter(es, HasOtherId(id))
  }

  /** No entry with the id is left, and every other entry is kept. */
  lemma DeleteByIdSpec(es: seq<Entry>, id: string)
    ensures var r := DeleteById(es, id);
      && (forall k :: 0 <= k < |r| ==> r[k].id != id && r[k] in es)
      && (forall k :: 0 <= k < |es| && es[k].id != id ==> es[k] in r)
  {
    FilterSpec(es, HasOtherId(id));
  }

  /** The delete keeps the other entries in their order: deleting from a
      concatenation deletes from each part. */
  lemma DeleteByIdAppend(a: seq<Entry>, b: seq<Entry>, id: string)
    ensures DeleteById(a + b, id) == DeleteById(a, id) + DeleteById(b, id)
  {
    FilterAppend(a, b, HasOtherId(id));
  }

  /** A list without the id is left as it is by the delete. */
  lemma DeleteAbsent(es: seq<Entry>, id: string)
    requires forall k :: 0 <= k < |es| ==> es[k].id != id
    ensures DeleteById(es, id) == es
  {
    FilterAll(es, HasOtherId(id));
  }

  /** An update whose patch does not carry an id keeps every id, so a
      later update or delete by id meets the same entries. */
  lemma UpdateKeepsIds(es: seq<Entry>, id: string, updates: Patch)
    requires updates.id.None?
    ensures var r := UpdateById(es, id, updates);
      forall k :: 0 <= k < |es| ==> r[k].id == es[k].id
  {
  }

  function CategoryTest(filter: string): Entry -> bool
  {
    (e: Entry) => filter == AllCategories || e.category == filter
  }

  /** `entries.filter(e => filter === 'All' || e.category === filter)` */
  function FilterByCategory(es: seq<Entry>, filter: string): seq<Entry>
  {
    Filter(es, CategoryTest(filter))
  }

  /** 'All' keeps every entry; any other filter keeps exactly the entries
      of that category. */
  lemma {:induction false} FilterByCategorySpec(es: seq<Entry>, filter: string)
    ensures filter == AllCategories ==> FilterByCategory(es, filter) == es
    ensures filter != AllCategories ==>
      var r := FilterByCategory(es, filter);
      && (forall k :: 0 <= k < |r| ==> r[k].category == filter && r[k] in es)
      && (forall k :: 0 <= k < |es| && es[k].category == filter ==> es[k] in r)
  {
    if filter == AllCategories {
      FilterAll(es, CategoryTest(filter));
    } else {
      FilterSpec(es, CategoryTest(filter));
    }
  }

  /** `new Date(e.date_finished || 0)`: `None` stands for the number 0
      that replaces a null or empty date. */
  function DateArgument(e: Entry): (r: Option<string>)
    ensures r.Some? <==> e.dateFinished.Some? && e.dateFinished.value != ""
  {
    if e.dateFinished.Some? && e.dateFinished.value != "" then e.dateFinished else None
  }

  /** The comparator chosen by `sortBy`, as the key it subtracts: `time`
      is `getTime()` of the date and `collate` ranks titles the way
      `localeCompare` orders them. Unknown values sort newest first. */
  function SortKey(sortBy: string, time: Option<string> -> int, collate: string -> int): Entry -> real
  {
    match sortBy
    case "oldest" => (e: Entry) => time(DateArgument(e)) as real
    case "rating-high" => ScoreDescending
    case "rating-low" => ScoreOrZero
    case "title-az" => (e: Entry) => collate(e.title) as real
    case "title-za" => (e: Entry) => -(collate(e.title) as real)
    case _ => (e: Entry) => -(time(DateArgument(e)) as real)
  }

  /** `filteredEntries`: the entries the filter keeps, and only those,
      ordered by the chosen key. */
  function Displayed(es: seq<Entry>, filter: string, sortBy: string,
                     time: Option<string> -> int, collate: string -> int): (r: seq<Entry>)
    ensures SortedBy(r, SortKey(sortBy, time, collate))
    ensures forall k :: 0 <= k < |r| ==> r[k] in es && (filter == AllCategories || r[k].category == filter)
    ensures forall k :: 0 <= k < |es| && (filter == AllCategories || es[k].category == filter) ==> es[k] in r
  {
    var f := FilterByCategory(es, filter);
    var r := SortByKey(f, SortKey(sortBy, time, collate));
    SameElements(r, f);
    FilteredElements(es, filter);
    r
  }

  /** An entry is kept by the filter exactly when it is in the list and
      passes the category test. */
  lemma FilteredElements(es: seq<Entry>, filter: string)
    ensures forall x :: x in FilterByCategory(es, filter) <==>
      x in es && (filter == AllCategories || x.category == filter)
  {
    var f := FilterByCategory(es, filter);
    FilterSpec(es, CategoryTest(filter));
    forall x
      ensures x in f <==> x in es && (filter == AllCategories || x.category == filter)
    {
      if x in f {
        var j :| 0 <= j < |f| && f[j] == x;
      }
      if x in es {
        var j :| 0 <= j < |es| && es[j] == x;
      }
    }
  }

  /** Two lists with the same multiset hold the same elements. */
  lemma SameElements(r: seq<Entry>, f: seq<Entry>)
    requires multiset(r) == multiset(f)
    ensures forall x :: x in r <==> x in f
  {
    forall x
      ensures x in r <==> x in f
    {
      assert x in r <==> x in multiset(r);
      assert x in f <==> x in multiset(f);
    }
  }

  /** The displayed list is a permutation of the filtered one. */
  lemma DisplayedIsPermutation(es: seq<Entry>, filter: string, sortBy: string,
                               time: Option<string> -> int, collate: string -> int)
    ensures multiset(Displayed(es, filter, sortBy, time, collate)) == multiset(FilterByCategory(es, filter))
  {
  }

  /** 'rating-high' shows non-increasing scores, a null score being 0. */
  lemma RatingHighOrder(es: seq<Entry>, filter: string,
                        time: Option<string> -> int, collate: string -> int, i: int, j: int)
    requires var d := Displayed(es, filter, "rating-high", time, collate); 0 <= i < j < |d|
    ensures var d := Displayed(es, filter, "rating-high", time, collate);
      ScoreOrZero(d[i]) >= ScoreOrZero(d[j])
  {
    var d := Displayed(es, filter, "rating-high", time, collate);
    DescendingScores(d, i, j);
  }

  /** 'rating-low' shows non-decreasing scores, a null score being 0. */
  lemma RatingLowOrder(es: seq<Entry>, filter: string,
                       time: Option<string> -> int, collate: string -> int, i: int, j: int)
    requires var d := Displayed(es, filter, "rating-low", time, collate); 0 <= i < j < |d|
    ensures var d := Displayed(es, filter, "rating-low", time, collate);
      ScoreOrZero(d[i]) <= ScoreOrZero(d[j])
  {
    var d := Displayed(es, filter, "rating-low", time, collate);
    assert SortedBy(d, ScoreOrZero);
  }

  class Dashboard {
    var entries: seq<Entry>
    var editing: Option<Entry>
    var filter: string
    var sortBy: string

    /** The page's initial entries, no entry being edited, every category
        shown, newest first. */
    constructor(initial: seq<Entry>)
      ensures entries == initial && editing == None
      ensures filter == AllCategories && sortBy == "newest"
    {
      entries := initial;
      editing := None;
      filter := AllCategories;
      sortBy := "newest";
    }

    /** `handleAddEntry`: the returned row goes to the front. */
    method AddEntry(inserted: Option<Entry>)
      modifies this
      ensures inserted.Some? ==> entries == [inserted.value] + old(entries)
      ensures inserted.None? ==> entries == old(entries)
      ensures editing == old(editing) && filter == old(filter) && sortBy == old(sortBy)
    {
      if inserted.Some? {
        entries := [inserted.value] + entries;
      }
    }

    /** `handleUpdateEntry`: the entries with that id take the updates and
        the edit dialog closes; on an error nothing changes. */
    method UpdateEntry(id: string, updates: Patch, failed: bool)
      modifies this
      ensures failed ==> entries == old(entries) && editing == old(editing)
      ensures !failed ==> entries == UpdateById(old(entries), id, updates) && editing == None
      ensures filter == old(filter) && sortBy == old(sortBy)
    {
      if !failed {
        entries := UpdateById(entries, id, updates);
        editing := None;
      }
    }

    /** `handleDeleteEntry`: the entries with that id are removed. */
    method DeleteEntry(id: string, failed: bool)
      modifies this
      ensures failed ==> entries == old(entries)
      ensures !failed ==> entries == DeleteById(old(entries), id)
      ensures editing == old(editing) && filter == old(filter) && sortBy == old(sortBy)
    {
      if !failed {
        entries := DeleteById(entries, id);
      }
    }

    method StartEditing(e: Option<Entry>)
      modifies this
      ensures editing == e
      ensures entries == old(entries) && filter == old(filter) && sortBy == old(sortBy)
    {
      editing := e;
    }

    method ChooseView(newFilter: string, newSortBy: string)
      modifies this
      ensures filter == newFilter && sortBy == newSortBy
      ensures entries == old(entries) && editing == old(editing)
    {
      filter := newFilter;
      sortBy := newSortBy;
    }

    /** `filteredEntries`: computed from a copy, `entries` keeps its order. */
    function Shown(time: Option<string> -> int, collate: string -> int): seq<Entry>
      reads this
    {
      Displayed(entries, filter, sortBy, time, collate)
    }

    /** `totalEntries` */
    function TotalEntries(): (r: nat)
      reads this
      ensures r == |entries|
    {
      |entries|
    }

    /** `avgRating` before formatting; `None` is shown as '0.0'. */
    function AvgRating(): (r: Option<real>)
      reads this
      ensures r.None? <==> entries == []
    {
      Average(entries)
    }
  }
}
