/**
 * The listing query of the browse page (app/browse/page.tsx): approved items
 * only, a case-insensitive search over title, brand and description,
 * category and condition filters, one of three orders, and pages of three.
 * The filter values and the page number are state cells of the page, kept
 * in `BrowseView`.
 */
module Browse {
  import opened Collections
  import opened Domain
  import opened Text

  const ItemsPerPage: nat := 3

  predicate IsApproved(it: Item) {
    it.status == Approved
  }

  /** The search test of one item, given the lower-cased search string. */
  predicate MatchesQuery(it: Item, query: string) {
    Includes(Lower(it.title), query) || Includes(Lower(it.brand), query) || Includes(Lower(it.description), query)
  }

  function QueryFilter(query: string): Item -> bool {
    (it: Item) => MatchesQuery(it, query)
  }

  function CategoryIs(category: string): Item -> bool {
    (it: Item) => it.category == category
  }

  function ConditionIs(condition: string): Item -> bool {
    (it: Item) => it.condition == condition
  }

  function PriceKey(it: Item): int { it.price }
  function PriceDescKey(it: Item): int { -it.price }
  function NewestKey(it: Item): int { -it.createdAt }

  function SearchStep(items: seq<Item>, search: string): (r: seq<Item>)
    ensures forall it :: it in r ==> it in items
  {
    if search == "" then items else Filter(items, QueryFilter(Lower(search)))
  }

  function CategoryStep(items: seq<Item>, category: string): (r: seq<Item>)
    ensures forall it :: it in r ==> it in items
  {
    if category == "all" then items else Filter(items, CategoryIs(category))
  }

  function ConditionStep(items: seq<Item>, condition: string): (r: seq<Item>)
    ensures forall it :: it in r ==> it in items
  {
    if condition == "all" then items else Filter(items, ConditionIs(condition))
  }

  /** The `switch (sortBy)`: any other value leaves the order as it is. */
  function SortStep(items: seq<Item>, sortBy: string): (r: seq<Item>)
    ensures multiset(r) == multiset(items)
    ensures forall it :: it in r ==> it in items
  {
    var r :=
      if sortBy == "price-low" then SortBy(items, PriceKey)
      else if sortBy == "price-high" then SortBy(items, PriceDescKey)
      else if sortBy == "newest" then SortBy(items, NewestKey)
      else items;
    assert forall it :: it in r ==> it in multiset(r);
    r
  }

  /** `filteredItems`: the whole pipeline; it shows approved items of the store only. */
  function FilteredItems(items: seq<Item>, search: string, category: string, condition: string, sortBy: string): (r: seq<Item>)
    ensures forall it :: it in r ==> it in items && it.status == Approved
  {
    var approved := Filter(items, IsApproved);
    var searched := SearchStep(approved, search);
    var byCategory := CategoryStep(searched, category);
    SortStep(ConditionStep(byCategory, condition), sortBy)
  }

  /** The reference definition of a result: what the pipeline is meant to keep. */
  predicate Selected(it: Item, search: string, category: string, condition: string) {
    && it.status == Approved
    && (search == "" || MatchesQuery(it, Lower(search)))
    && (category == "all" || it.category == category)
    && (condition == "all" || it.condition == condition)
  }

  function SelectedBy(search: string, category: string, condition: string): Item -> bool {
    (it: Item) => Selected(it, search, category, condition)
  }

  lemma SortStepPermutes(items: seq<Item>, sortBy: string)
    ensures multiset(SortStep(items, sortBy)) == multiset(items)
    ensures sortBy == "price-low" ==>
      forall i, j :: 0 <= i < j < |SortStep(items, sortBy)| ==>
        SortStep(items, sortBy)[i].price <= SortStep(items, sortBy)[j].price
    ensures sortBy == "price-high" ==>
      forall i, j :: 0 <= i < j < |SortStep(items, sortBy)| ==>
        SortStep(items, sortBy)[i].price >= SortStep(items, sortBy)[j].price
    ensures sortBy == "newest" ==>
      forall i, j :: 0 <= i < j < |SortStep(items, sortBy)| ==>
        SortStep(items, sortBy)[i].createdAt >= SortStep(items, sortBy)[j].createdAt
    ensures sortBy !in {"price-low", "price-high", "newest"} ==> SortStep(items, sortBy) == items
  {
    var r := SortStep(items, sortBy);
    if sortBy == "price-high" {
      forall i, j | 0 <= i < j < |r| ensures r[i].price >= r[j].price {
        assert PriceDescKey(r[i]) <= PriceDescKey(r[j]);
      }
    } else if sortBy == "newest" {
      forall i, j | 0 <= i < j < |r| ensures r[i].createdAt >= r[j].createdAt {
        assert NewestKey(r[i]) <= NewestKey(r[j]);
      }
    }
  }

  /**
   * The results are a permutation of exactly the approved items that pass
   * the search, category and condition tests, each as often as in `items`.
   * Their order is the sort step's, which `SortStepPermutes` describes.
   */
  lemma FilteredItemsSpec(items: seq<Item>, search: string, category: string, condition: string, sortBy: string)
    ensures multiset(FilteredItems(items, search, category, condition, sortBy))
         == multiset(Filter(items, SelectedBy(search, category, condition)))
    ensures forall it :: it in FilteredItems(items, search, category, condition, sortBy) <==>
      it in items && Selected(it, search, category, condition)
  {
    var byCondition := ConditionStep(CategoryStep(SearchStep(Filter(items, IsApproved), search), category), condition);
    var want := Filter(items, SelectedBy(search, category, condition));
    FiltersSelect(items, search, category, condition);
    forall it ensures it in FilteredItems(items, search, category, condition, sortBy) <==>
      it in items && Selected(it, search, category, condition)
    {
      assert it in FilteredItems(items, search, category, condition, sortBy) <==> it in multiset(want);
      assert SelectedBy(search, category, condition)(it) == Selected(it, search, category, condition);
    }
  }

  /** The three filter steps after the approval filter keep exactly the selected items. */
  lemma FiltersSelect(items: seq<Item>, search: string, category: string, condition: string)
    ensures multiset(ConditionStep(CategoryStep(SearchStep(Filter(items, IsApproved), search), category), condition))
         == multiset(Filter(items, SelectedBy(search, category, condition)))
  {
    var approved := Filter(items, IsApproved);
    var searched := SearchStep(approved, search);
    var byCategory := CategoryStep(searched, category);
    var byCondition := ConditionStep(byCategory, condition);
    var want := Filter(items, SelectedBy(search, category, condition));
    forall it ensures multiset(byCondition)[it] == multiset(want)[it] {
      assert SelectedBy(search, category, condition)(it) == Selected(it, search, category, condition);
      if search != "" {
        assert QueryFilter(Lower(search))(it) == MatchesQuery(it, Lower(search));
      }
      if category != "all" {
        assert CategoryIs(category)(it) == (it.category == category);
      }
      if condition != "all" {
        assert ConditionIs(condition)(it) == (it.condition == condition);
      }
    }
    assert multiset(byCondition) == multiset(want);
  }

  /** An empty search keeps every approved item that passes the other two tests. */
  lemma EmptySearchKeepsAll(items: seq<Item>, category: string, condition: string, sortBy: string)
    ensures forall it ::
      (it in items && it.status == Approved
       && (category == "all" || it.category == category) && (condition == "all" || it.condition == condition))
      ==> it in FilteredItems(items, "", category, condition, sortBy)
  {
    FilteredItemsSpec(items, "", category, condition, sortBy);
  }

  // ---------------------------------------------------------------------
  // Pagination.

  /** `Math.ceil(n / itemsPerPage)` */
  function TotalPages(n: nat): (r: nat)
    ensures r * ItemsPerPage >= n
    ensures r == 0 || (r - 1) * ItemsPerPage < n
  {
    (n + ItemsPerPage - 1) / ItemsPerPage
  }

  /**
   * A `slice` bound: a negative index counts back from the end but not
   * past the start, and any other index is clamped to the length.
   */
  function SliceBound(i: int, len: nat): (r: nat)
    ensures r <= len
    ensures i < 0 ==> r == Max(0, len + i)
    ensures 0 <= i ==> r == Min(i, len)
  {
    if i < 0 then (if len + i < 0 then 0 else len + i)
    else if i > len then len
    else i
  }

  /** `s.slice(start, end)`: the elements from the start bound up to, not including, the end bound. */
  function Slice<T>(s: seq<T>, start: int, end: int): (r: seq<T>)
    ensures |r| == Max(0, SliceBound(end, |s|) - SliceBound(start, |s|))
    ensures forall k :: 0 <= k < |r| ==> r[k] == s[SliceBound(start, |s|) + k]
  {
    var a := SliceBound(start, |s|);
    var b := SliceBound(end, |s|);
    if a < b then s[a..b] else []
  }

  /** `paginatedItems` for page `page`: at most three of the results. */
  function PageItems<T>(results: seq<T>, page: int): (r: seq<T>)
    ensures |r| <= ItemsPerPage
    ensures forall x :: x in r ==> x in results
  {
    var start := (page - 1) * ItemsPerPage;
    Slice(results, start, start + ItemsPerPage)
  }

  function Min(a: int, b: int): int { if a <= b then a else b }
  function Max(a: int, b: int): int { if a <= b then b else a }

  /** Page `p` holds elements `(p-1)*3` up to `(p-1)*3+3` of the results, so never more than three. */
  lemma PageItemsSpec<T>(results: seq<T>, page: int)
    requires page >= 1
    ensures var start := (page - 1) * ItemsPerPage;
      PageItems(results, page) ==
        results[Min(start, |results|)..Min(start + ItemsPerPage, |results|)]
    ensures |PageItems(results, page)| <= ItemsPerPage
    ensures 1 <= page <= TotalPages(|results|) ==> |PageItems(results, page)| > 0
  {
  }

  /** Every result appears on exactly the page and at the position its index says. */
  lemma PagesCoverResults<T>(results: seq<T>, k: nat)
    requires k < |results|
    ensures 1 <= k / ItemsPerPage + 1 <= TotalPages(|results|)
    ensures var page := PageItems(results, k / ItemsPerPage + 1);
      k % ItemsPerPage < |page| && page[k % ItemsPerPage] == results[k]
  {
    PageItemsSpec(results, k / ItemsPerPage + 1);
  }

  // ---------------------------------------------------------------------
  // The page's state cells.

  /** `activeFiltersCount`: how many of category and condition are set. */
  function ActiveFiltersCount(category: string, condition: string): (r: nat)
    ensures r <= 2
    ensures r == 0 <==> category == "all" && condition == "all"
    ensures r == 2 <==> category != "all" && condition != "all"
  {
    |Filter([category != "all", condition != "all"], (b: bool) => b)|
  }

  class BrowseView {
    var search: string
    var category: string
    var condition: string
    var sortBy: string
    var currentPage: int

    /** The initial state; the category comes from the URL when it is given and not empty. */
    constructor (categoryParam: Option<string>)
      ensures search == "" && condition == "all" && sortBy == "newest" && currentPage == 1
      ensures category == if categoryParam.Some? && categoryParam.value != "" then categoryParam.value else "all"
    {
      search := "";
      category := if categoryParam.Some? && categoryParam.value != "" then categoryParam.value else "all";
      condition := "all";
      sortBy := "newest";
      currentPage := 1;
    }

    /** `paginatedItems`: the results the page shows, at most three approved items of the store. */
    function Visible(items: seq<Item>): (r: seq<Item>)
      reads this
      ensures |r| <= ItemsPerPage
      ensures forall it :: it in r ==> it in items && it.status == Approved
    {
      PageItems(FilteredItems(items, search, category, condition, sortBy), currentPage)
    }

    /** Any change of search, category, condition or order sends the view back to page 1. */
    method SetSearch(s: string)
      modifies this
      ensures search == s && category == old(category) && condition == old(condition) && sortBy == old(sortBy)
      ensures currentPage == if s != old(search) then 1 else old(currentPage)
    {
      if s != search {
        search := s;
        currentPage := 1;
      }
    }

    method SetCategory(c: string)
      modifies this
      ensures category == c && search == old(search) && condition == old(condition) && sortBy == old(sortBy)
      ensures currentPage == if c != old(category) then 1 else old(currentPage)
    {
      if c != category {
        category := c;
        currentPage := 1;
      }
    }

    method SetCondition(c: string)
      modifies this
      ensures condition == c && search == old(search) && category == old(category) && sortBy == old(sortBy)
      ensures currentPage == if c != old(condition) then 1 else old(currentPage)
    {
      if c != condition {
        condition := c;
        currentPage := 1;
      }
    }

    method SetSortBy(s: string)
      modifies this
      ensures sortBy == s && search == old(search) && category == old(category) && condition == old(condition)
      ensures currentPage == if s != old(sortBy) then 1 else old(currentPage)
    {
      if s != sortBy {
        sortBy := s;
        currentPage := 1;
      }
    }

    /** The previous-page button: never below page 1. */
    method PreviousPage()
      modifies this`currentPage
      ensures currentPage == if old(currentPage) - 1 < 1 then 1 else old(currentPage) - 1
      ensures currentPage >= 1
      ensures 1 <= old(currentPage) ==> currentPage <= old(currentPage)
    {
      currentPage := if currentPage - 1 < 1 then 1 else currentPage - 1;
    }

    /** The next-page button: never beyond the last page. */
    method NextPage(totalPages: int)
      modifies this`currentPage
      ensures currentPage == Min(totalPages, old(currentPage) + 1)
      ensures currentPage <= totalPages
      ensures 1 <= old(currentPage) <= totalPages ==> 1 <= currentPage <= totalPages
    {
      currentPage := Min(totalPages, currentPage + 1);
    }

    /** A numbered page button. */
    method GoToPage(page: int)
      modifies this`currentPage
      ensures currentPage == page
    {
      currentPage := page;
    }

    /** `clearFilters`: both filters back to "all" and the search emptied; the order stays. */
    method ClearFilters()
      modifies this
      ensures category == "all" && condition == "all" && search == "" && sortBy == old(sortBy)
      ensures ActiveFiltersCount(category, condition) == 0
      ensures currentPage ==
        if old(category) != "all" || old(condition) != "all" || old(search) != "" then 1 else old(currentPage)
    {
      if category != "all" || condition != "all" || search != "" {
        currentPage := 1;
      }
      category := "all";
      condition := "all";
      search := "";
    }
  }
}
