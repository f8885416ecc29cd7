/**
 * The public listing (the `filteredEvents` memo of src/pages/Events.jsx):
 * approved events only, a text search, a category filter and a date order.
 */
module EventsPage {
  import opened Entities
  import opened Strings
  import Seqs

  /** The category select's "no filter" value. */
  const ALL_CATEGORIES: string := "All"
  /** The sort select's value for newest first; any other value sorts oldest first. */
  const NEWEST: string := "newest"

  /** The search test on one event: the lowercased, untrimmed query inside a lowercased title, location or description. */
  predicate MatchesSearch(e: Event, search: string): (b: bool)
    ensures b <==> exists field :: field in [e.title, e.location, e.description] && Contains(Lower(field), Lower(search))
    ensures search == "" ==> b
  {
    var q := Lower(search);
    Contains(Lower(e.title), q) || Contains(Lower(e.location), q) || Contains(Lower(e.description), q)
  }

  /** The search is case-insensitive: the query's own case does not matter. */
  lemma SearchIgnoresCase(e: Event, search: string)
    ensures MatchesSearch(e, Lower(search)) <==> MatchesSearch(e, search)
  {
    LowerIdempotent(search);
  }

  /** `if (search.trim()) filtered = filtered.filter(...)`. */
  function SearchFilter(events: seq<Event>, search: string): (r: seq<Event>)
    ensures AllWhitespace(search) ==> r == events
    ensures !AllWhitespace(search) ==> forall e :: e in r <==> e in events && MatchesSearch(e, search)
    ensures !AllWhitespace(search) ==> forall e :: multiset(r)[e] == if MatchesSearch(e, search) then multiset(events)[e] else 0
  {
    TrimBlank(search);
    if Trim(search) == "" then events else Seqs.Filter(events, (e: Event) => MatchesSearch(e, search))
  }

  /** `if (filterCategory !== "All") filtered = filtered.filter(e => e.category === filterCategory)`. */
  function CategoryFilter(events: seq<Event>, category: string): (r: seq<Event>)
    ensures category == ALL_CATEGORIES ==> r == events
    ensures category != ALL_CATEGORIES ==> forall e :: e in r <==> e in events && e.category == category
    ensures category != ALL_CATEGORIES ==> forall e :: multiset(r)[e] == if e.category == category then multiset(events)[e] else 0
  {
    if category == ALL_CATEGORIES then events else Seqs.Filter(events, (e: Event) => e.category == category)
  }

  /**
   * The comparator's order: with `newest`, a later date first. Dates are the
   * date input's `YYYY-MM-DD` strings, whose text order is their date order.
   */
  predicate InOrder(a: Event, b: Event, newest: bool) {
    if newest then LexLeq(b.date, a.date) else LexLeq(a.date, b.date)
  }

  predicate SortedByDate(s: seq<Event>, newest: bool) {
    forall i :: 0 <= i < |s| - 1 ==> InOrder(s[i], s[i + 1], newest)
  }

  /** Puts `x` in front of the first element it may precede, so it stays ahead of equal dates. */
  function Insert(x: Event, s: seq<Event>, newest: bool): (r: seq<Event>)
    requires SortedByDate(s, newest)
    ensures |r| == |s| + 1
    ensures r[0] == x || (s != [] && r[0] == s[0])
    ensures SortedByDate(r, newest)
    ensures multiset(r) == multiset(s) + multiset{x}
  {
    if s == [] || InOrder(x, s[0], newest) then [x] + s
    else
      LexLeqTotal(x.date, s[0].date);
      var rest := Insert(x, s[1..], newest);
      assert s == [s[0]] + s[1..];
      [s[0]] + rest
  }

  /** `filtered.sort(...)`, a stable sort by date. */
  function SortByDate(s: seq<Event>, newest: bool): (r: seq<Event>)
    ensures SortedByDate(r, newest)
    ensures multiset(r) == multiset(s)
  {
    if s == [] then []
    else
      assert s == [s[0]] + s[1..];
      Insert(s[0], SortByDate(s[1..], newest), newest)
  }

  /** Order between neighbours gives order between any two positions. */
  lemma {:induction false} SortedAllPairs(s: seq<Event>, newest: bool, i: nat, j: nat)
    requires SortedByDate(s, newest) && i < j < |s|
    ensures InOrder(s[i], s[j], newest)
    decreases j - i
  {
    if i + 1 < j {
      SortedAllPairs(s, newest, i + 1, j);
      if newest {
        LexLeqTransitive(s[j].date, s[i + 1].date, s[i].date);
      } else {
        LexLeqTransitive(s[i].date, s[i + 1].date, s[j].date);
      }
    }
  }

  /** The memo's result. */
  function Listing(events: seq<Event>, search: string, category: string, sortOrder: string): (r: seq<Event>)
    ensures multiset(r) == multiset(CategoryFilter(SearchFilter(Approved(events), search), category))
    ensures SortedByDate(r, sortOrder == NEWEST)
  {
    SortByDate(CategoryFilter(SearchFilter(Approved(events), search), category), sortOrder == NEWEST)
  }

  /**
   * An event is listed exactly when it is stored, approved, matches a
   * non-blank search and has the chosen category; nothing is added or lost.
   */
  lemma ListingMembers(events: seq<Event>, search: string, category: string, sortOrder: string, e: Event)
    ensures e in Listing(events, search, category, sortOrder) <==>
      (e in events && e.approved &&
       (AllWhitespace(search) || MatchesSearch(e, search)) &&
       (category == ALL_CATEGORIES || e.category == category))
  {
    var kept := CategoryFilter(SearchFilter(Approved(events), search), category);
    var r := Listing(events, search, category, sortOrder);
    assert e in r <==> multiset(r)[e] > 0;
    assert e in kept <==> multiset(kept)[e] > 0;
  }

  /** Newest first lists dates in non-increasing order; any other order, non-decreasing. */
  lemma ListingDateOrder(events: seq<Event>, search: string, category: string, sortOrder: string, i: nat, j: nat)
    requires i < j < |Listing(events, search, category, sortOrder)|
    ensures var r := Listing(events, search, category, sortOrder);
      if sortOrder == NEWEST then LexLeq(r[j].date, r[i].date) else LexLeq(r[i].date, r[j].date)
  {
    SortedAllPairs(Listing(events, search, category, sortOrder), sortOrder == NEWEST, i, j);
  }
}
