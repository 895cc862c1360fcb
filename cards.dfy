/**
 * The paging and filter state of the transaction list in
 * frontend/src/components/shared/custom/Cards.tsx. Each `useState` field is
 * a field of Pager, each handler a method; the data effect runs when a
 * page of results (and the total count) arrives. The query the component
 * asks for is always {offset, limit, filter: appliedFilter} (Variables),
 * and the handlers that refetch return the variables they send.
 */
module Cards {
  import opened Domain

  /** Page size: the fixed `limit`. */
  const Limit: nat := 6

  datatype Direction = Next | Prev

  datatype QueryVariables = QueryVariables(offset: int, limit: int, filter: string)

  /** Math.ceil(total / limit): the number of pages needed for total rows. */
  function PageCount(total: nat): (r: nat)
    ensures r * Limit >= total
    ensures r == 0 || (r - 1) * Limit < total
  {
    (total + Limit - 1) / Limit
  }

  /** Math.floor(offset / limit) + 1: the 1-based page an offset falls on. */
  function PageOf(offset: nat): (r: nat)
    ensures r >= 1
    ensures (r - 1) * Limit <= offset < r * Limit
  {
    offset / Limit + 1
  }

  /** The offset the data effect keeps: when it is past the end, Math.max(0, total - limit). */
  function SettledOffset(offset: nat, total: nat): (r: nat)
    ensures offset < total ==> r == offset
    ensures total > 0 ==> r < total
    ensures total == 0 ==> r == 0
    ensures offset >= total ==> r + Limit >= total
  {
    if offset >= total then (if total >= Limit then total - Limit else 0) else offset
  }

  /** `category.slice(0, 3)`: the filter a category button applies. */
  function CategoryFilter(c: Category): (r: string)
    ensures |r| == 3 && r <= CategoryName(c)
  {
    CategoryName(c)[..3]
  }

  /** The three category buttons apply "inv", "sav" and "exp", and no two apply the same filter. */
  lemma CategoryFilters()
    ensures CategoryFilter(Investment) == "inv"
    ensures CategoryFilter(Saving) == "sav"
    ensures CategoryFilter(Expense) == "exp"
    ensures forall c, d :: CategoryFilter(c) == CategoryFilter(d) ==> c == d
  {
    forall c, d | CategoryFilter(c) == CategoryFilter(d) ensures c == d {
      assert CategoryFilter(c)[0] == CategoryFilter(d)[0];
    }
  }

  /** React runs the effect again after it changes offset; that second run changes offset no more. */
  lemma SettledOffsetIsFixedPoint(offset: nat, total: nat)
    ensures SettledOffset(SettledOffset(offset, total), total) == SettledOffset(offset, total)
  {
  }

  /** Once settled on a row that exists, the page shown is within the page count. */
  lemma PageWithinCount(offset: nat, total: nat)
    requires offset < total
    ensures 1 <= PageOf(offset) <= PageCount(total)
  {
  }

  /**
   * On an offset that is a whole number of pages, the Next button is shown
   * exactly when it is enabled (there are rows past the current page).
   */
  lemma {:induction false} NextShownIffEnabled(offset: nat, total: nat)
    requires offset % Limit == 0
    ensures PageOf(offset) < PageCount(total) <==> offset + Limit < total
  {
    var k := offset / Limit;
    assert offset == k * Limit;
    var n := PageCount(total);
    if offset + Limit < total {
      assert (k + 1) * Limit < total <= n * Limit;
    }
    if k + 1 < n {
      assert (k + 1) * Limit <= (n - 1) * Limit < total;
    }
  }

  /**
   * The clamp can settle on an offset that is not a whole number of pages:
   * 12 rows shrinking to 10 leaves offset 4 on page 1 of 2, where Prev is
   * hidden although rows 0 to 3 are not shown.
   */
  lemma ClampLeavesPartialPage()
    ensures SettledOffset(12, 10) == 4 && PageOf(4) == 1 && PageCount(10) == 2
  {
  }

  class Pager {
    var offset: int
    var filter: string
    var appliedFilter: string
    var shown: seq<Transaction>
    var total: int
    var totalPages: int
    var currentPage: int
    var customTags: seq<CustomTag>

    ghost predicate Valid()
      reads this
    {
      offset >= 0 && total >= 0 && totalPages >= 0 && currentPage >= 1
    }

    /** The initial state of every useState. */
    constructor ()
      ensures Valid()
      ensures offset == 0 && filter == "" && appliedFilter == "" && shown == []
      ensures total == 0 && totalPages == 1 && currentPage == 1 && customTags == []
    {
      offset, filter, appliedFilter, shown := 0, "", "", [];
      total, totalPages, currentPage, customTags := 0, 1, 1, [];
    }

    /** The variables of the transactions query. */
    function Variables(): (v: QueryVariables)
      reads this
      ensures v.limit == Limit && v.offset == offset && v.filter == appliedFilter
    {
      QueryVariables(offset, Limit, appliedFilter)
    }

    /** `handleFilterChange`: typing changes only the pending filter. */
    method FilterChange(text: string)
      requires Valid()
      modifies this
      ensures Valid() && filter == text
      ensures offset == old(offset) && appliedFilter == old(appliedFilter) && shown == old(shown)
      ensures total == old(total) && totalPages == old(totalPages) && currentPage == old(currentPage)
      ensures customTags == old(customTags)
    {
      filter := text;
    }

    /** `handleFilterSubmit`: applies the typed filter and goes back to the first page. */
    method FilterSubmit() returns (request: QueryVariables)
      requires Valid()
      modifies this
      ensures Valid() && appliedFilter == old(filter) && offset == 0 && request == Variables()
      ensures filter == old(filter) && shown == old(shown) && total == old(total)
      ensures totalPages == old(totalPages) && currentPage == old(currentPage) && customTags == old(customTags)
    {
      appliedFilter := filter;
      offset := 0;
      request := QueryVariables(0, Limit, filter);
    }

    /** `handleFilterReset`: clears the typed and the applied filter and goes back to the first page. */
    method FilterReset() returns (request: QueryVariables)
      requires Valid()
      modifies this
      ensures Valid() && filter == "" && appliedFilter == "" && offset == 0 && request == Variables()
      ensures shown == old(shown) && total == old(total)
      ensures totalPages == old(totalPages) && currentPage == old(currentPage) && customTags == old(customTags)
    {
      filter := "";
      appliedFilter := "";
      offset := 0;
      request := QueryVariables(0, Limit, "");
    }

    /** `handleCategoryClick`: applies the first three letters of the category; the typed filter stays. */
    method CategoryClick(c: Category) returns (request: QueryVariables)
      requires Valid()
      modifies this
      ensures Valid() && appliedFilter == CategoryFilter(c) && offset == 0 && request == Variables()
      ensures filter == old(filter) && shown == old(shown) && total == old(total)
      ensures totalPages == old(totalPages) && currentPage == old(currentPage) && customTags == old(customTags)
    {
      var partial := CategoryFilter(c);
      appliedFilter := partial;
      offset := 0;
      request := QueryVariables(0, Limit, partial);
    }

    /** `handleAllCategoriesClick`: drops the applied filter; the typed filter stays. */
    method AllCategoriesClick() returns (request: QueryVariables)
      requires Valid()
      modifies this
      ensures Valid() && appliedFilter == "" && offset == 0 && request == Variables()
      ensures filter == old(filter) && shown == old(shown) && total == old(total)
      ensures totalPages == old(totalPages) && currentPage == old(currentPage) && customTags == old(customTags)
    {
      appliedFilter := "";
      offset := 0;
      request := QueryVariables(0, Limit, "");
    }

    /** `handleCustomTagClick`: applies the tag's saved search term. */
    method CustomTagClick(searchTerm: string) returns (request: QueryVariables)
      requires Valid()
      modifies this
      ensures Valid() && appliedFilter == searchTerm && offset == 0 && request == Variables()
      ensures filter == old(filter) && shown == old(shown) && total == old(total)
      ensures totalPages == old(totalPages) && currentPage == old(currentPage) && customTags == old(customTags)
    {
      appliedFilter := searchTerm;
      offset := 0;
      request := QueryVariables(0, Limit, searchTerm);
    }

    /** `loadMoreTransactions`: one page forward, or one page back but never below 0. */
    method LoadMore(direction: Direction) returns (request: QueryVariables)
      requires Valid()
      modifies this
      ensures Valid() && request == Variables()
      ensures direction == Next ==> offset == old(offset) + Limit
      ensures direction == Prev ==> offset == if old(offset) >= Limit then old(offset) - Limit else 0
      ensures filter == old(filter) && appliedFilter == old(appliedFilter) && shown == old(shown)
      ensures total == old(total) && totalPages == old(totalPages) && currentPage == old(currentPage)
      ensures customTags == old(customTags)
    {
      var newOffset := if direction == Next then offset + Limit
                       else if offset - Limit > 0 then offset - Limit else 0;
      offset := newOffset;
      request := QueryVariables(newOffset, Limit, appliedFilter);
    }

    /**
     * The data effect: stores the page and the total, recomputes the page
     * count and the current page from the offset it ran with, and pulls an
     * offset that is past the end back to the last page.
     */
    method DataArrived(page: seq<Transaction>, count: nat)
      requires Valid()
      modifies this
      ensures Valid()
      ensures shown == page && total == count
      ensures totalPages == PageCount(count) && currentPage == PageOf(old(offset))
      ensures offset == SettledOffset(old(offset), count)
      ensures count > 0 ==> offset < count
      ensures count == 0 ==> offset == 0
      ensures filter == old(filter) && appliedFilter == old(appliedFilter) && customTags == old(customTags)
    {
      shown := page;
      total := count;
      totalPages := (count + Limit - 1) / Limit;
      currentPage := offset / Limit + 1;
      if offset >= count {
        offset := if count - Limit > 0 then count - Limit else 0;
      }
    }

    /** The custom-tags effect: stores the fetched custom tags. */
    method CustomTagsArrived(fetched: seq<CustomTag>)
      requires Valid()
      modifies this
      ensures Valid() && customTags == fetched
      ensures offset == old(offset) && filter == old(filter) && appliedFilter == old(appliedFilter)
      ensures shown == old(shown) && total == old(total)
      ensures totalPages == old(totalPages) && currentPage == old(currentPage)
    {
      customTags := fetched;
    }

    /** The pagination bar is rendered only with more than one page. */
    predicate ShowsPagination()
      reads this
      ensures total >= 0 && totalPages == PageCount(total) ==> (ShowsPagination() <==> total > Limit)
    {
      totalPages > 1
    }

    /** Prev is rendered past the first page and disabled at offset 0. */
    predicate ShowsPrev()
      reads this
      ensures ShowsPrev() ==> ShowsPagination()
    {
      ShowsPagination() && currentPage > 1
    }

    /** Prev is disabled exactly where a Prev click would leave the offset where it is. */
    predicate PrevDisabled()
      reads this
      ensures offset >= 0 ==> (PrevDisabled() <==> (if offset >= Limit then offset - Limit else 0) == offset)
    {
      offset == 0
    }

    /** Next is rendered before the last page and disabled when no row lies past this page. */
    predicate ShowsNext()
      reads this
      ensures ShowsNext() ==> ShowsPagination()
    {
      ShowsPagination() && currentPage < totalPages
    }

    /**
     * Next is disabled exactly where the offset a Next click asks for lies
     * past the last row, so that the data effect would pull it back.
     */
    predicate NextDisabled()
      reads this
      ensures offset >= 0 && total >= 0 ==> (NextDisabled() <==> SettledOffset(offset + Limit, total) != offset + Limit)
    {
      offset + Limit >= total
    }

    /**
     * After the data effect has run (page count and current page computed
     * from total and offset), the bar is rendered exactly when there are
     * more than six rows, Prev exactly when the offset is past the first
     * page, and a rendered Prev is never disabled.
     */
    lemma {:induction false} PaginationGuards()
      requires Valid() && totalPages == PageCount(total) && currentPage == PageOf(offset)
      ensures ShowsPagination() <==> total > Limit
      ensures ShowsPrev() <==> total > Limit && offset >= Limit
      ensures ShowsPrev() ==> !PrevDisabled()
    {
      var n := PageCount(total);
      if n > 1 {
        assert Limit <= (n - 1) * Limit < total;
      }
      if total > Limit {
        assert n * Limit > Limit;
      }
    }

    /**
     * After the data effect has run on a whole-page offset that lies on an
     * existing row, a rendered Prev is enabled, Next is rendered exactly
     * when it is enabled, and a rendered bar holds an enabled button.
     */
    lemma ConsistentControls()
      requires Valid() && offset % Limit == 0 && offset < total
      requires totalPages == PageCount(total) && currentPage == PageOf(offset)
      ensures ShowsPrev() ==> !PrevDisabled()
      ensures ShowsNext() <==> ShowsPagination() && !NextDisabled()
      ensures ShowsPagination() ==> (ShowsPrev() && !PrevDisabled()) || (ShowsNext() && !NextDisabled())
    {
      NextShownIffEnabled(offset, total);
      PageWithinCount(offset, total);
    }
  }
}
