/** The listing logic of the movies page (public/js/movies.js): the page
    slice shown, the pagination bar, the search / category / sort pipeline,
    and the favourites list kept in the browser's storage. */
module Listing {
  import opened JsValues
  import opened Text
  import Seqs
  import Sorting
  import ClientHelpers

  /** `moviesPerPage`. */
  const PerPage: nat := 12

  // ---------------------------------------------------------------------
  // The page slice of displayMovies
  // ---------------------------------------------------------------------

  /** A `slice` bound: a negative one counts back from the end; both are
      clipped to the sequence. */
  function SliceBound(len: nat, k: int): (r: nat)
    ensures r <= len
  {
    if k < 0 then (if len + k < 0 then 0 else len + k)
    else if k < len then k else len
  }

  /** `s.slice(start, end)`. */
  function JsSlice<T>(s: seq<T>, start: int, end: int): seq<T> {
    var from, to := SliceBound(|s|, start), SliceBound(|s|, end);
    if from < to then s[from..to] else []
  }

  /** `movies.slice((page - 1) * 12, (page - 1) * 12 + 12)`. */
  function PageSlice<T>(movies: seq<T>, page: int): seq<T> {
    var start := (page - 1) * PerPage;
    JsSlice(movies, start, start + PerPage)
  }

  /** A page never holds more than twelve movies, whatever the page number. */
  lemma PageSliceBound<T>(movies: seq<T>, page: int)
    ensures |PageSlice(movies, page)| <= PerPage
  {
  }

  /** From page 1 on, a page is the run of the list that starts at
      `(page - 1) * 12`, cut off at the end of the list. */
  lemma PageSliceItems<T>(movies: seq<T>, page: int)
    requires page >= 1
    ensures var start := (page - 1) * PerPage;
      var r := PageSlice(movies, page);
      && |r| == (if start >= |movies| then 0 else if |movies| - start < PerPage then |movies| - start else PerPage)
      && forall i :: 0 <= i < |r| ==> r[i] == movies[start + i]
  {
  }

  /** Every movie is shown on exactly the page its position puts it on. */
  lemma PageOfMovie<T>(movies: seq<T>, k: nat)
    requires k < |movies|
    ensures var p := k / PerPage + 1;
      k % PerPage < |PageSlice(movies, p)| && PageSlice(movies, p)[k % PerPage] == movies[k]
  {
    var p := k / PerPage + 1;
    assert (p - 1) * PerPage == k - k % PerPage;
    PageSliceItems(movies, p);
  }

  // ---------------------------------------------------------------------
  // The page count and the pagination bar of setupPagination
  // ---------------------------------------------------------------------

  /** `Math.ceil(n / 12)`. */
  function TotalPages(n: nat): nat {
    (n + PerPage - 1) / PerPage
  }

  /** The count is the least number of pages of twelve that hold the list. */
  lemma TotalPagesCeil(n: nat)
    ensures TotalPages(n) == 0 <==> n == 0
    ensures n <= TotalPages(n) * PerPage
    ensures n > 0 ==> (TotalPages(n) - 1) * PerPage < n
  {
  }

  /** A page from 1 to the count shows some movies, and one past it none. */
  lemma PageSliceNonEmpty<T>(movies: seq<T>, page: int)
    requires page >= 1
    ensures PageSlice(movies, page) != [] <==> page <= TotalPages(|movies|)
  {
    TotalPagesCeil(|movies|);
    PageSliceItems(movies, page);
    if page <= TotalPages(|movies|) {
      assert (page - 1) * PerPage <= (TotalPages(|movies|) - 1) * PerPage;
    } else {
      assert (page - 1) * PerPage >= TotalPages(|movies|) * PerPage;
    }
  }

  /** One control of the pagination bar, with the page its button goes to. */
  datatype PageItem =
    | Prev(target: int, disabled: bool)
    | PageButton(page: int, active: bool)
    | Ellipsis
    | Next(target: int, disabled: bool)

  /** The rule for a numbered button: the first and last page, and every
      page within two of the current one. */
  predicate Shown(i: int, total: nat, current: int) {
    i == 1 || i == total || (current - 2 <= i && i <= current + 2)
  }

  /** What the loop appends for page `i`. */
  function Slot(i: int, total: nat, current: int): seq<PageItem> {
    if Shown(i, total, current) then [PageButton(i, i == current)]
    else if i == current - 3 || i == current + 3 then [Ellipsis]
    else []
  }

  /** What the loop has appended after pages 1 to `k`. */
  function Slots(total: nat, current: int, k: nat): seq<PageItem> {
    if k == 0 then [] else Slots(total, current, k - 1) + Slot(k, total, current)
  }

  /** The whole bar for `count` movies on page `current`: nothing for a
      single page, otherwise Previous, the page slots and Next. */
  function PaginationItems(count: nat, current: int): seq<PageItem> {
    var total := TotalPages(count);
    if total <= 1 then []
    else [Prev(current - 1, current == 1)] + Slots(total, current, total) + [Next(current + 1, current == total)]
  }

  /** `setupPagination`: the loop over the pages, appending to the bar. */
  method SetupPagination(count: nat, current: int) returns (items: seq<PageItem>)
    ensures items == PaginationItems(count, current)
  {
    var total := (count + PerPage - 1) / PerPage;
    if total <= 1 {
      return [];
    }
    items := [Prev(current - 1, current == 1)];
    for i := 1 to total + 1
      invariant items == [Prev(current - 1, current == 1)] + Slots(total, current, i - 1)
    {
      if i == 1 || i == total || (i >= current - 2 && i <= current + 2) {
        items := items + [PageButton(i, i == current)];
      } else if i == current - 3 || i == current + 3 {
        items := items + [Ellipsis];
      }
    }
    items := items + [Next(current + 1, current == total)];
  }

  /** The numbered buttons among the slots of pages 1 to `k`. */
  lemma {:induction false} SlotsButtons(total: nat, current: int, k: nat, i: int, active: bool)
    ensures PageButton(i, active) in Slots(total, current, k) <==>
              1 <= i <= k && Shown(i, total, current) && active == (i == current)
  {
    if k > 0 {
      SlotsButtons(total, current, k - 1, i, active);
    }
  }

  /** Page `i` has a button exactly when it lies in range and the rule shows
      it, and only the current page's button is marked active. */
  lemma PaginationButtons(count: nat, current: int, i: int, active: bool)
    requires TotalPages(count) > 1
    ensures PageButton(i, active) in PaginationItems(count, current) <==>
              1 <= i <= TotalPages(count) && Shown(i, TotalPages(count), current) && active == (i == current)
  {
    SlotsButtons(TotalPages(count), current, TotalPages(count), i, active);
  }

  function EllipsisCount(items: seq<PageItem>): nat {
    if items == [] then 0
    else EllipsisCount(items[..|items| - 1]) + (if items[|items| - 1] == Ellipsis then 1 else 0)
  }

  lemma {:induction false} EllipsisCountAppend(a: seq<PageItem>, b: seq<PageItem>)
    ensures EllipsisCount(a + b) == EllipsisCount(a) + EllipsisCount(b)
  {
    if b == [] {
      assert a + b == a;
    } else {
      assert (a + b)[..|a + b| - 1] == a + b[..|b| - 1];
      EllipsisCountAppend(a, b[..|b| - 1]);
    }
  }

  /** Whether page `i` is replaced by an ellipsis: it is three away from the
      current page, in range, and has no button. */
  predicate Gap(i: int, total: nat, current: int, k: nat) {
    1 <= i <= k && !Shown(i, total, current) && (i == current - 3 || i == current + 3)
  }

  /** The slot of page `i` is an ellipsis exactly when `i` is three away
      from the current page and has no button. */
  lemma SlotEllipsis(i: int, total: nat, current: int)
    ensures EllipsisCount(Slot(i, total, current)) ==
              if !Shown(i, total, current) && (i == current - 3 || i == current + 3) then 1 else 0
  {
    var s := Slot(i, total, current);
    if s != [] {
      assert s[..|s| - 1] == [];
    }
  }

  lemma {:induction false} SlotsEllipses(total: nat, current: int, k: nat)
    ensures EllipsisCount(Slots(total, current, k)) ==
              (if Gap(current - 3, total, current, k) then 1 else 0) + (if Gap(current + 3, total, current, k) then 1 else 0)
  {
    if k > 0 {
      SlotsEllipses(total, current, k - 1);
      EllipsisCountAppend(Slots(total, current, k - 1), Slot(k, total, current));
      SlotEllipsis(k, total, current);
    }
  }

  /** An ellipsis appears exactly for the pages three before and three after
      the current one that are in range and have no button: never more than
      two. */
  lemma PaginationEllipses(count: nat, current: int)
    requires TotalPages(count) > 1
    ensures var total := TotalPages(count);
      EllipsisCount(PaginationItems(count, current)) ==
        (if Gap(current - 3, total, current, total) then 1 else 0) + (if Gap(current + 3, total, current, total) then 1 else 0)
  {
    var total := TotalPages(count);
    var middle := Slots(total, current, total);
    SlotsEllipses(total, current, total);
    EllipsisCountAppend([Prev(current - 1, current == 1)], middle);
    EllipsisCountAppend([Prev(current - 1, current == 1)] + middle, [Next(current + 1, current == total)]);
    assert EllipsisCount([Prev(current - 1, current == 1)]) == 0 by {
      assert [Prev(current - 1, current == 1)][..0] == [];
    }
    assert EllipsisCount([Next(current + 1, current == total)]) == 0 by {
      assert [Next(current + 1, current == total)][..0] == [];
    }
  }

  /** No bar for at most one page; otherwise Previous comes first, disabled
      exactly on page 1, and Next last, disabled exactly on the last page. */
  lemma PaginationEnds(count: nat, current: int)
    ensures PaginationItems(count, current) == [] <==> TotalPages(count) <= 1
    ensures var items := PaginationItems(count, current);
      items != [] ==> items[0] == Prev(current - 1, current == 1)
                      && items[|items| - 1] == Next(current + 1, current == TotalPages(count))
  {
  }

  // ---------------------------------------------------------------------
  // displayMovies
  // ---------------------------------------------------------------------

  /** What the movies container holds. */
  datatype Content = Message(text: string) | Cards(movies: seq<Record>)

  /** The page's state: the current page number, the container and the
      pagination bar. */
  class ListingView {
    var currentPage: int
    var content: Content
    var pagination: seq<PageItem>

    constructor()
      ensures currentPage == 1 && content == Message("") && pagination == []
    {
      currentPage := 1;
      content := Message("");
      pagination := [];
    }

    /** `displayMovies(movies, page)`: an empty list or an empty page shows a
        message and leaves the page number and bar alone; otherwise the page's
        cards are shown, the page becomes current and the bar is rebuilt. */
    method DisplayMovies(movies: seq<Record>, page: int)
      modifies this
      ensures |movies| == 0 ==>
        content == Message("No movies to display.") && currentPage == old(currentPage) && pagination == old(pagination)
      ensures |movies| > 0 && PageSlice(movies, page) == [] ==>
        content == Message("No movies found.") && currentPage == old(currentPage) && pagination == old(pagination)
      ensures |movies| > 0 && PageSlice(movies, page) != [] ==>
        content == Cards(PageSlice(movies, page)) && currentPage == page
        && pagination == PaginationItems(|movies|, page)
    {
      if |movies| == 0 {
        content := Message("No movies to display.");
        return;
      }
      var start := (page - 1) * PerPage;
      var pageMovies := JsSlice(movies, start, start + PerPage);
      if |pageMovies| == 0 {
        content := Message("No movies found.");
        return;
      }
      content := Cards(pageMovies);
      currentPage := page;
      pagination := SetupPagination(|movies|, page);
    }
  }

  // ---------------------------------------------------------------------
  // Search, category and sort
  // ---------------------------------------------------------------------

  /** `v.toLowerCase().includes(term)`; `None` when `v` is not a string and
      the call throws. */
  function LowerIncludes(v: Option<Value>, term: string): Option<bool> {
    if v.Some? && v.value.Str? then Some(Contains(ToLower(v.value.s), term)) else None
  }

  /** `(v && v.toLowerCase().includes(term))` taken as a test. */
  function OptionalIncludes(v: Option<Value>, term: string): Option<bool> {
    if !Truthy(v) then Some(false) else LowerIncludes(v, term)
  }

  /** JavaScript's `a || b` on tests that may throw: `b` is evaluated only
      when `a` is false. */
  function OrElse(a: Option<bool>, b: Option<bool>): Option<bool> {
    match a
    case None => None
    case Some(true) => Some(true)
    case Some(false) => b
  }

  /** The search test on one movie: the title, then the director, the cast
      and the genre string, in that order. */
  function SearchMatch(m: Record, term: string): Option<bool> {
    OrElse(LowerIncludes(Get(m, "title"), term),
      OrElse(OptionalIncludes(Get(m, "director"), term),
        OrElse(OptionalIncludes(Get(m, "cast"), term),
          LowerIncludes(Some(ClientHelpers.GenresString(m)), term))))
  }

  /** A movie with a string title and genre string and no non-string
      director or cast is matched exactly when one of the four texts,
      lower-cased, contains the term. */
  lemma SearchMatchFacts(m: Record, term: string)
    requires "title" in m && m["title"].Str? && ClientHelpers.GenresString(m).Str?
    requires !Truthy(Get(m, "director")) || m["director"].Str?
    requires !Truthy(Get(m, "cast")) || m["cast"].Str?
    ensures SearchMatch(m, term).Some?
    ensures SearchMatch(m, term) == Some(true) <==>
      Contains(ToLower(m["title"].s), term)
      || (Truthy(Get(m, "director")) && Contains(ToLower(m["director"].s), term))
      || (Truthy(Get(m, "cast")) && Contains(ToLower(m["cast"].s), term))
      || Contains(ToLower(ClientHelpers.GenresString(m).s), term)
  {
  }

  /** A movie without a string title makes the search throw. */
  lemma SearchNeedsTitle(m: Record, term: string)
    requires !("title" in m && m["title"].Str?)
    ensures SearchMatch(m, term) == None
  {
  }

  function Matches(term: string): Record -> bool {
    (m: Record) => SearchMatch(m, term) == Some(true)
  }

  /** `filtered.filter(...)` with a test that may throw: the filter throws if
      the test does on any movie. */
  function SearchStep(movies: seq<Record>, term: string): Option<seq<Record>> {
    if term == "" then Some(movies)
    else if exists i :: 0 <= i < |movies| && SearchMatch(movies[i], term).None? then None
    else Some(Seqs.Filter(movies, Matches(term)))
  }

  /** `movie.category === category`: exact equality. */
  function InCategory(category: string): Record -> bool {
    (m: Record) => Get(m, "category") == Some(Str(category))
  }

  function CategoryStep(movies: seq<Record>, category: string): seq<Record> {
    if category == "" then movies else Seqs.Filter(movies, InCategory(category))
  }

  /** The search throws only when its test throws on some movie; otherwise it
      keeps every copy of the movies it matches and no other, in their order:
      cutting the list anywhere cuts the result at the matching place. */
  lemma SearchStepFacts(movies: seq<Record>, term: string)
    requires term != ""
    ensures SearchStep(movies, term).None? <==> exists i :: 0 <= i < |movies| && SearchMatch(movies[i], term).None?
    ensures SearchStep(movies, term).Some? ==> forall m: Record ::
              m in SearchStep(movies, term).value <==> m in movies && SearchMatch(m, term) == Some(true)
    ensures SearchStep(movies, term).Some? ==> forall m: Record ::
              multiset(SearchStep(movies, term).value)[m] ==
                if SearchMatch(m, term) == Some(true) then multiset(movies)[m] else 0
    ensures SearchStep(movies, term).Some? ==> forall i :: 0 <= i <= |movies| ==>
              SearchStep(movies[..i], term).Some? && SearchStep(movies[i..], term).Some?
              && SearchStep(movies, term).value == SearchStep(movies[..i], term).value + SearchStep(movies[i..], term).value
  {
    if SearchStep(movies, term).Some? {
      forall m: Record ensures m in SearchStep(movies, term).value <==> m in movies && SearchMatch(m, term) == Some(true) {
        Seqs.FilterMember(movies, Matches(term), m);
      }
      Seqs.FilterCount(movies, Matches(term));
      forall i | 0 <= i <= |movies|
        ensures SearchStep(movies[..i], term).Some? && SearchStep(movies[i..], term).Some?
        ensures SearchStep(movies, term).value == SearchStep(movies[..i], term).value + SearchStep(movies[i..], term).value
      {
        SearchStepCut(movies, term, i);
      }
    }
  }

  /** A list the search accepts is accepted in any two pieces, and the
      result is the two pieces' results one after the other. */
  lemma SearchStepCut(movies: seq<Record>, term: string, i: nat)
    requires term != "" && SearchStep(movies, term).Some? && i <= |movies|
    ensures SearchStep(movies[..i], term).Some? && SearchStep(movies[i..], term).Some?
    ensures SearchStep(movies, term).value == SearchStep(movies[..i], term).value + SearchStep(movies[i..], term).value
  {
    var a, b := movies[..i], movies[i..];
    forall j | 0 <= j < |a| ensures SearchMatch(a[j], term).Some? {
      assert a[j] == movies[j];
    }
    forall j | 0 <= j < |b| ensures SearchMatch(b[j], term).Some? {
      assert b[j] == movies[i + j];
    }
    Seqs.FilterSplit(movies, Matches(term), i);
  }

  /** No choice keeps everything; a chosen category keeps every copy of the
      movies whose category is that string and no other, in their order:
      cutting the list anywhere cuts the result at the matching place. */
  lemma CategoryStepFacts(movies: seq<Record>, category: string)
    ensures category == "" ==> CategoryStep(movies, category) == movies
    ensures category != "" ==> forall m: Record ::
              m in CategoryStep(movies, category) <==> m in movies && Get(m, "category") == Some(Str(category))
    ensures category != "" ==> forall m: Record ::
              multiset(CategoryStep(movies, category))[m] ==
                if Get(m, "category") == Some(Str(category)) then multiset(movies)[m] else 0
    ensures forall i :: 0 <= i <= |movies| ==>
              CategoryStep(movies, category) == CategoryStep(movies[..i], category) + CategoryStep(movies[i..], category)
  {
    if category != "" {
      forall m: Record ensures m in CategoryStep(movies, category) <==> m in movies && Get(m, "category") == Some(Str(category)) {
        Seqs.FilterMember(movies, InCategory(category), m);
      }
      Seqs.FilterCount(movies, InCategory(category));
    }
    forall i | 0 <= i <= |movies|
      ensures CategoryStep(movies, category) == CategoryStep(movies[..i], category) + CategoryStep(movies[i..], category)
    {
      if category == "" {
        assert movies[..i] + movies[i..] == movies;
      } else {
        Seqs.FilterSplit(movies, InCategory(category), i);
      }
    }
  }

  /** `getGrossAmount(m, currency)` as the comparator's number. */
  function GrossKey(currency: string): Record -> real {
    (m: Record) => AsNumber(ClientHelpers.GrossAmount(m, currency, currency))
  }

  /** `m.year` as the comparator's number. */
  function YearKey(m: Record): real { AsNumber(Get(m, "year")) }

  /** `m.imdb_rating || 0`. */
  function RatingKey(m: Record): real { NumberOrZero(m, "imdb_rating") }

  /** The title text `localeCompare` is given. */
  function TitleOf(m: Record): string {
    if "title" in m && m["title"].Str? then m["title"].s else ""
  }

  /** The sort modes; `collate` is `localeCompare`, and any other mode leaves
      the order as it is. */
  function SortStep(movies: seq<Record>, sortBy: string, currency: string, collate: (string, string) -> real): seq<Record> {
    if sortBy == "gross" then Sorting.Sort(movies, Sorting.ByKeyDesc(GrossKey(currency)))
    else if sortBy == "year" then Sorting.Sort(movies, Sorting.ByKeyDesc(YearKey))
    else if sortBy == "title" then Sorting.Sort(movies, (a: Record, b: Record) => collate(TitleOf(a), TitleOf(b)))
    else if sortBy == "rating" then Sorting.Sort(movies, Sorting.ByKeyDesc(RatingKey))
    else movies
  }

  /** Every mode reorders without adding or losing a movie; gross, year and
      rating order by non-increasing key. */
  lemma SortStepFacts(movies: seq<Record>, sortBy: string, currency: string, collate: (string, string) -> real)
    ensures multiset(SortStep(movies, sortBy, currency, collate)) == multiset(movies)
    ensures sortBy == "gross" ==> Sorting.SortedDesc(SortStep(movies, sortBy, currency, collate), GrossKey(currency))
    ensures sortBy == "year" ==> Sorting.SortedDesc(SortStep(movies, sortBy, currency, collate), YearKey)
    ensures sortBy == "rating" ==> Sorting.SortedDesc(SortStep(movies, sortBy, currency, collate), RatingKey)
  {
    Sorting.SortPermutes(movies, Sorting.ByKeyDesc(GrossKey(currency)));
    Sorting.SortPermutes(movies, Sorting.ByKeyDesc(YearKey));
    Sorting.SortPermutes(movies, (a: Record, b: Record) => collate(TitleOf(a), TitleOf(b)));
    Sorting.SortPermutes(movies, Sorting.ByKeyDesc(RatingKey));
    Sorting.SortSorted(movies, GrossKey(currency));
    Sorting.SortSorted(movies, YearKey);
    Sorting.SortSorted(movies, RatingKey);
  }

  /** `applyFilters`, run only when the search box, the category select and
      the sort select all exist; `None` when the search throws. */
  function ApplyFilters(movies: seq<Record>, input: string, category: string, sortBy: string,
                        currency: string, collate: (string, string) -> real): Option<seq<Record>> {
    match SearchStep(movies, ToLower(input))
    case None => None
    case Some(found) => Some(SortStep(CategoryStep(found, category), sortBy, currency, collate))
  }

  /** `getFilteredMovies`, where each control may be missing (`None`) and a
      missing one is skipped. */
  function FilteredMovies(movies: seq<Record>, input: Option<string>, category: Option<string>, sortBy: Option<string>,
                          currency: string, collate: (string, string) -> real): Option<seq<Record>> {
    var found := if input.Some? then SearchStep(movies, ToLower(input.value)) else Some(movies);
    match found
    case None => None
    case Some(s) =>
      var kept := if category.Some? then CategoryStep(s, category.value) else s;
      Some(if sortBy.Some? then SortStep(kept, sortBy.value, currency, collate) else kept)
  }

  /** With all three controls present both compute the same selection in the
      same order, and with none present the list is unchanged. */
  lemma FilteredMatchesApply(movies: seq<Record>, input: string, category: string, sortBy: string,
                             currency: string, collate: (string, string) -> real)
    ensures FilteredMovies(movies, Some(input), Some(category), Some(sortBy), currency, collate)
            == ApplyFilters(movies, input, category, sortBy, currency, collate)
    ensures FilteredMovies(movies, None, None, None, currency, collate) == Some(movies)
  {
  }

  /** The result of `applyFilters` is a reordering of the movies that pass
      the search and the category filter. */
  lemma ApplyFiltersSelection(movies: seq<Record>, input: string, category: string, sortBy: string,
                              currency: string, collate: (string, string) -> real)
    ensures var r := ApplyFilters(movies, input, category, sortBy, currency, collate);
      r.Some? ==> SearchStep(movies, ToLower(input)).Some?
                  && multiset(r.value) == multiset(CategoryStep(SearchStep(movies, ToLower(input)).value, category))
    ensures var r := ApplyFilters(movies, input, category, sortBy, currency, collate);
      r.Some? ==> forall m :: m in r.value ==> m in movies
  {
    var r := ApplyFilters(movies, input, category, sortBy, currency, collate);
    if r.Some? {
      var found := SearchStep(movies, ToLower(input)).value;
      var kept := CategoryStep(found, category);
      SortStepFacts(kept, sortBy, currency, collate);
      forall m | m in r.value ensures m in movies {
        assert m in multiset(kept);
        assert m in found;
      }
    }
  }

  // ---------------------------------------------------------------------
  // Favourites
  // ---------------------------------------------------------------------

  /** `s.indexOf(x)`. */
  function IndexOf(s: seq<real>, x: real): (r: int)
    ensures -1 <= r < |s|
    ensures r >= 0 ==> s[r] == x && forall j :: 0 <= j < r ==> s[j] != x
    ensures r == -1 <==> x !in s
  {
    if s == [] then -1
    else if s[0] == x then 0
    else
      var k := IndexOf(s[1..], x);
      assert forall j :: 1 <= j < |s| ==> s[j] == s[1..][j - 1];
      if k == -1 then -1 else k + 1
  }

  /** The list after toggling `x`: its first occurrence spliced out, or `x`
      pushed on the end. */
  function Toggled(s: seq<real>, x: real): seq<real> {
    var i := IndexOf(s, x);
    if i > -1 then s[..i] + s[i + 1..] else s + [x]
  }

  predicate NoDuplicates(s: seq<real>) {
    forall i, j :: 0 <= i < j < |s| ==> s[i] != s[j]
  }

  /** On a list without duplicates a toggle flips `x`'s membership, leaves
      every other id's membership alone and keeps the list free of
      duplicates. */
  lemma ToggledFacts(s: seq<real>, x: real)
    requires NoDuplicates(s)
    ensures x in Toggled(s, x) <==> x !in s
    ensures forall y :: y != x ==> (y in Toggled(s, x) <==> y in s)
    ensures NoDuplicates(Toggled(s, x))
  {
    var i := IndexOf(s, x);
    var t := Toggled(s, x);
    if i > -1 {
      assert forall j :: 0 <= j < |t| ==> t[j] == if j < i then s[j] else s[j + 1];
      forall y ensures y in s <==> y in t || y == x {
        if y in s {
          var k :| 0 <= k < |s| && s[k] == y;
          if k < i { assert t[k] == y; } else if k > i { assert t[k - 1] == y; }
        }
      }
    }
  }

  /** Toggling an id that is not a favourite twice gives the list back. */
  lemma ToggledTwice(s: seq<real>, x: real)
    requires x !in s
    ensures Toggled(Toggled(s, x), x) == s
  {
    var t := s + [x];
    assert IndexOf(t, x) == |s| by {
      assert t[|s|] == x;
      assert forall j :: 0 <= j < |s| ==> t[j] == s[j];
    }
    assert t[..|s|] == s;
  }

  /** The `favorites` list in the browser's storage.  Nothing stored reads
      as `'[]'`, the empty list (`Empty`); a stored list is read back as it
      is (`Load`).  Only `Toggle` writes it, so a list that starts without
      duplicates keeps none. */
  class Favorites {
    var ids: seq<real>

    constructor Empty()
      ensures ids == []
      ensures NoDuplicates(ids)
    {
      ids := [];
    }

    constructor Load(stored: seq<real>)
      ensures ids == stored
    {
      ids := stored;
    }

    /** `isMovieFavorite`. */
    predicate IsFavorite(id: real)
      reads this
    {
      id in ids
    }

    /** `toggleFavorite`: splices out the first occurrence, or pushes the id,
        and reports which it did. */
    method Toggle(id: real) returns (notice: string)
      modifies this
      ensures ids == Toggled(old(ids), id)
      ensures notice == if id in old(ids) then "Removed from Favorites" else "Added to Favorites"
      ensures NoDuplicates(old(ids)) ==>
        && NoDuplicates(ids)
        && (IsFavorite(id) <==> !old(IsFavorite(id)))
        && (forall y :: y != id ==> (IsFavorite(y) <==> old(IsFavorite(y))))
    {
      if NoDuplicates(ids) {
        ToggledFacts(ids, id);
      }
      var index := IndexOf(ids, id);
      if index > -1 {
        ids := ids[..index] + ids[index + 1..];
      } else {
        ids := ids + [id];
      }
      notice := if index > -1 then "Removed from Favorites" else "Added to Favorites";
    }
  }
}
