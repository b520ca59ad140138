/** The paging fields every listing reports next to its rows: the page and
    page size it was asked for, and how many pages the matching rows fill. */
module Paging {
  import opened Base

  /** `usize::MAX` on a 64-bit target. */
  const UsizeMax: nat := 0x1_0000_0000_0000_0000 - 1

  /** A listing result: the rows, the number of matching rows, and the paging
      fields. */
  datatype Paged<T> = Paged(data: seq<T>, total: nat, page: nat, perPage: nat, pageCounts: nat)

  /** `(total as f64 / limit as f64).ceil() as usize`: the number of pages of
      `limit` rows that hold `total` rows. With a page size of 0 the division
      yields NaN for no rows (cast to 0) and infinity otherwise (cast to
      `usize::MAX`). */
  function PageCount(total: nat, limit: nat): (c: nat)
    ensures limit > 0 ==> total <= c * limit && (c == 0 || (c - 1) * limit < total)
    ensures c == 0 <==> total == 0
    ensures limit == 0 && total > 0 ==> c == UsizeMax
  {
    if limit == 0 then (if total == 0 then 0 else UsizeMax)
    else (total + limit - 1) / limit
  }

  /** Every matching row falls on one of the counted pages. */
  lemma RowsOnPages(total: nat, limit: nat, i: nat)
    requires limit > 0 && i < total
    ensures i / limit < PageCount(total, limit)
  {
  }

  /** The current page, the page size and the page count: all three stay 0
      unless the request gives both a page and a page size. */
  datatype PageInfo = PageInfo(current: nat, limit: nat, counts: nat)

  function PageFields(page: Option<nat>, perPage: Option<nat>, total: nat): (f: PageInfo)
    ensures page.None? || perPage.None? ==> f == PageInfo(0, 0, 0)
    ensures page.Some? && perPage.Some? ==>
              f.current == page.value && f.limit == perPage.value &&
              (f.counts == 0 <==> total == 0) &&
              (f.limit > 0 ==> total <= f.counts * f.limit && (f.counts == 0 || (f.counts - 1) * f.limit < total))
  {
    if page.Some? && perPage.Some? then PageInfo(page.value, perPage.value, PageCount(total, perPage.value))
    else PageInfo(0, 0, 0)
  }

  /** The listing result for `rows` matching rows: all of them, their count
      as the total, the requested page and page size when both are given
      (all paging fields 0 otherwise), and the fewest pages of that size
      that hold the total. */
  function PagedResult<T>(rows: seq<T>, page: Option<nat>, perPage: Option<nat>): (p: Paged<T>)
    ensures p.data == rows && p.total == |rows|
    ensures page.None? || perPage.None? ==> p.page == 0 && p.perPage == 0 && p.pageCounts == 0
    ensures page.Some? && perPage.Some? ==> p.page == page.value && p.perPage == perPage.value
    ensures p.perPage > 0 ==>
              p.total <= p.pageCounts * p.perPage && (p.pageCounts == 0 || (p.pageCounts - 1) * p.perPage < p.total)
    ensures page.Some? && perPage == Some(0) ==> p.pageCounts == (if p.total == 0 then 0 else UsizeMax)
    ensures PagedFor(p, page, perPage)
  {
    var f := PageFields(page, perPage, |rows|);
    Paged(rows, |rows|, f.current, f.limit, f.counts)
  }

  /** `p` reports all its rows as the total and the paging fields of the
      request. */
  predicate PagedFor<T>(p: Paged<T>, page: Option<nat>, perPage: Option<nat>)
  {
    var f := PageFields(page, perPage, |p.data|);
    p.total == |p.data| && p.page == f.current && p.perPage == f.limit && p.pageCounts == f.counts
  }

  /** The `ORDER BY` a listing hands to the pagination helper: by name, newest
      first, or by price type. */
  datatype SortKey = ByName | NewestFirst | ByPriceType

  /** The `ORDER BY` of `get_products` and `get_discounts`: by name for the
      role "Distributor", newest first for every other role. */
  function RoleOrder(role: string): (k: SortKey)
    ensures k == ByName <==> role == "Distributor"
    ensures k != ByName ==> k == NewestFirst
  {
    if role == "Distributor" then ByName else NewestFirst
  }
}
