/** The archives page: a list of case reports narrowed by a free-text search
    (case-insensitive, over target, case id and investigator), an optional
    calendar day, and two case-sensitive field filters. "Clear Filters"
    resets all four. The day is given already formatted as `yyyy-MM-dd`. */
module Archives {
  import opened Util
  import opened Text

  datatype ArchiveItem = ArchiveItem(
    caseId: string, targetName: string, investigatorName: string,
    timestamp: string, pdfUrl: string)

  /** The page's state: `searchQuery`, `date` and `filters`. */
  datatype ArchiveFilters = ArchiveFilters(
    searchQuery: string, date: Option<string>, caseId: string, investigatorName: string)

  predicate MatchesSearch(item: ArchiveItem, query: string) {
    var q := Lower(query);
    Contains(Lower(item.targetName), q) || Contains(Lower(item.caseId), q)
    || Contains(Lower(item.investigatorName), q)
  }

  predicate MatchesDate(item: ArchiveItem, day: Option<string>) {
    day.None? || Contains(item.timestamp, day.value)
  }

  /** An empty filter field imposes nothing; a non-empty one must occur,
      with its case, in the item's field. */
  predicate MatchesFilters(item: ArchiveItem, f: ArchiveFilters) {
    && (f.caseId == "" || Contains(item.caseId, f.caseId))
    && (f.investigatorName == "" || Contains(item.investigatorName, f.investigatorName))
  }

  predicate Matches(item: ArchiveItem, f: ArchiveFilters) {
    MatchesSearch(item, f.searchQuery) && MatchesDate(item, f.date) && MatchesFilters(item, f)
  }

  /** `filteredArchives`: the matching items, in list order. */
  function FilteredArchives(items: seq<ArchiveItem>, f: ArchiveFilters): (r: seq<ArchiveItem>)
    ensures forall i :: 0 <= i < |r| ==> r[i] in items && Matches(r[i], f)
    ensures forall i :: 0 <= i < |items| && Matches(items[i], f) ==> items[i] in r
    ensures IsSubsequence(r, items)
    ensures forall x :: multiset(r)[x] == if Matches(x, f) then multiset(items)[x] else 0
  {
    var p := (item: ArchiveItem) => Matches(item, f);
    assert forall x :: multiset(Filter(items, p))[x] == if Matches(x, f) then multiset(items)[x] else 0 by {
      forall x ensures multiset(Filter(items, p))[x] == if p(x) then multiset(items)[x] else 0 {
        FilterCounts(items, p, x);
      }
    }
    Filter(items, p)
  }

  /** The state "Clear Filters" sets. */
  const Cleared: ArchiveFilters := ArchiveFilters("", None, "", "")

  /** After "Clear Filters" every item is shown, in order. */
  lemma ClearedShowsEverything(items: seq<ArchiveItem>)
    ensures FilteredArchives(items, Cleared) == items
  {
    assert Lower("") == "";
    forall i | 0 <= i < |items| ensures Matches(items[i], Cleared) {
      ContainsEmpty(Lower(items[i].targetName));
    }
    FilterKeepsAll(items, (item: ArchiveItem) => Matches(item, Cleared));
  }

  /** The search ignores case: lower-casing the query changes nothing. */
  lemma SearchIgnoresCase(items: seq<ArchiveItem>, f: ArchiveFilters)
    ensures FilteredArchives(items, f.(searchQuery := Lower(f.searchQuery))) == FilteredArchives(items, f)
  {
    LowerIdempotent(f.searchQuery);
    var g := f.(searchQuery := Lower(f.searchQuery));
    FilterExtensional(items, (item: ArchiveItem) => Matches(item, g), (item: ArchiveItem) => Matches(item, f));
  }

  /** `g` asks at least as much as `f`: its query and field filters contain
      `f`'s, and it picks the same day if `f` picks one. */
  predicate Narrows(g: ArchiveFilters, f: ArchiveFilters) {
    && Contains(Lower(g.searchQuery), Lower(f.searchQuery))
    && (f.date.None? || g.date == f.date)
    && Contains(g.caseId, f.caseId)
    && Contains(g.investigatorName, f.investigatorName)
  }

  lemma NarrowedFieldFilter(field: string, g: string, f: string)
    requires Contains(g, f)
    requires g == "" || Contains(field, g)
    ensures f == "" || Contains(field, f)
  {
    if g == "" {
      InEmptyOnlyEmpty(f);
    } else {
      ContainsTransitive(field, g, f);
    }
  }

  lemma NarrowedMatch(item: ArchiveItem, g: ArchiveFilters, f: ArchiveFilters)
    requires Narrows(g, f) && Matches(item, g)
    ensures Matches(item, f)
  {
    var qg, qf := Lower(g.searchQuery), Lower(f.searchQuery);
    if Contains(Lower(item.targetName), qg) {
      ContainsTransitive(Lower(item.targetName), qg, qf);
    } else if Contains(Lower(item.caseId), qg) {
      ContainsTransitive(Lower(item.caseId), qg, qf);
    } else {
      ContainsTransitive(Lower(item.investigatorName), qg, qf);
    }
    NarrowedFieldFilter(item.caseId, g.caseId, f.caseId);
    NarrowedFieldFilter(item.investigatorName, g.investigatorName, f.investigatorName);
  }

  /** Typing more into any field, or picking a day, can only hide items:
      the narrower result is a subsequence of the wider one. */
  lemma NarrowingHidesOnly(items: seq<ArchiveItem>, g: ArchiveFilters, f: ArchiveFilters)
    requires Narrows(g, f)
    ensures IsSubsequence(FilteredArchives(items, g), FilteredArchives(items, f))
  {
    forall i | 0 <= i < |items| && Matches(items[i], g) ensures Matches(items[i], f) {
      NarrowedMatch(items[i], g, f);
    }
    FilterMonotone(items, (item: ArchiveItem) => Matches(item, g), (item: ArchiveItem) => Matches(item, f));
  }

  /** Applying the filters to their own result changes nothing: every shown
      item already matches. */
  lemma FilteringTwiceChangesNothing(items: seq<ArchiveItem>, f: ArchiveFilters)
    ensures FilteredArchives(FilteredArchives(items, f), f) == FilteredArchives(items, f)
  {
    FilterIdempotent(items, (item: ArchiveItem) => Matches(item, f));
  }

  /** Every state narrows the cleared one. */
  lemma EveryStateNarrowsCleared(f: ArchiveFilters)
    ensures Narrows(f, Cleared)
  {
    assert Lower("") == "";
    ContainsEmpty(Lower(f.searchQuery));
    ContainsEmpty(f.caseId);
    ContainsEmpty(f.investigatorName);
  }
}
