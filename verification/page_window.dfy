/** The pagination the admin tables share (menu.js for menus and for
    flavours, user-management.js for users): the page count, the clamp of
    the current page, the prev/next moves and the window of at most five
    numbered buttons around the current page. */
module PageWindow {
  import opened Wrappers

  const MaxVisiblePages: int := 5

  /** `Math.ceil(n / size)` for a positive page size. */
  function CeilDiv(n: nat, size: nat): (t: nat)
    requires size > 0
    ensures (t - 1) * size < n <= t * size
  {
    (n + size - 1) / size
  }

  /** The page count of a list of `n` rows: the ceiling, but never 0. */
  function PageCount(n: nat, size: nat): (t: nat)
    requires size > 0
    ensures t >= 1
    ensures n > 0 ==> (t - 1) * size < n <= t * size
    ensures n == 0 ==> t == 1
  {
    var t := CeilDiv(n, size);
    if t == 0 then 1 else t
  }

  function Max(a: int, b: int): int { if a >= b then a else b }
  function Min(a: int, b: int): int { if a <= b then a else b }

  /** The first and last numbered button: two either side of the current
      page, shifted left when the right side runs out of pages. */
  function Window(current: int, total: int): (w: (int, int))
    ensures 1 <= current <= total ==> 1 <= w.0 <= current <= w.1 <= total
    ensures 1 <= current <= total ==> w.1 - w.0 + 1 == Min(total, MaxVisiblePages)
  {
    var start := Max(1, current - MaxVisiblePages / 2);
    var end := Min(total, start + MaxVisiblePages - 1);
    if end - start + 1 < MaxVisiblePages then (Max(1, end - MaxVisiblePages + 1), end) else (start, end)
  }

  /** The numbered buttons, in order. */
  function WindowPages(current: int, total: int): (pages: seq<int>)
    ensures forall k :: 0 <= k < |pages| ==> pages[k] == Window(current, total).0 + k
    ensures 1 <= current <= total ==> current in pages && |pages| <= MaxVisiblePages
    ensures 1 <= current <= total ==> forall p :: p in pages ==> 1 <= p <= total
  {
    var (start, end) := Window(current, total);
    var pages := seq(Max(0, end - start + 1), k requires 0 <= k => start + k);
    assert 1 <= current <= total ==> pages[current - start] == current;
    pages
  }

  /** Where a prev (-1) or next (+1) press goes: nowhere outside the
      pages. */
  function Target(current: int, total: int, direction: int): (r: Option<int>)
    ensures r.Some? <==> 1 <= current + direction <= total
    ensures r.Some? ==> r.value == current + direction
  {
    if 1 <= current + direction <= total then Some(current + direction) else None
  }

  /** The prev button is disabled on the first page and the next button on
      the last: exactly the pages where that press goes nowhere. */
  lemma DisabledButtonsGoNowhere(current: int, total: int)
    requires 1 <= current <= total
    ensures (current == 1) <==> Target(current, total, -1) == None
    ensures (current == total) <==> Target(current, total, 1) == None
  {
  }

  /** The pagination state of one table. */
  class Pager {
    var currentPage: int
    var totalPages: int
    var pageSize: nat

    /** The page size is positive and the current page is one of the
        pages. */
    ghost predicate Valid()
      reads this
    {
      pageSize > 0 && 1 <= currentPage <= totalPages
    }

    constructor (size: nat)
      requires size > 0
      ensures Valid()
      ensures currentPage == 1 && totalPages == 1 && pageSize == size
    {
      currentPage, totalPages, pageSize := 1, 1, size;
    }

    /** updateMenuPagination / updateUserPagination after the rows changed:
        recount the pages and pull the current page back onto the last one
        when it lies beyond. */
    method Update(rows: nat)
      requires pageSize > 0 && currentPage >= 1
      modifies this
      ensures Valid()
      ensures totalPages == PageCount(rows, pageSize) && pageSize == old(pageSize)
      ensures currentPage == Min(old(currentPage), totalPages)
    {
      totalPages := CeilDiv(rows, pageSize);
      if totalPages == 0 {
        totalPages := 1;
      }
      if currentPage > totalPages {
        currentPage := totalPages;
      }
    }

    /** changeMenuPage / changeUserPage: the page moves only onto a page
        that exists. */
    method ChangePage(direction: int)
      requires Valid()
      modifies this
      ensures Valid()
      ensures currentPage == (if Target(old(currentPage), totalPages, direction).Some? then old(currentPage) + direction else old(currentPage))
      ensures totalPages == old(totalPages) && pageSize == old(pageSize)
    {
      var newPage := currentPage + direction;
      if newPage >= 1 && newPage <= totalPages {
        currentPage := newPage;
      }
    }

    /** A numbered button. */
    method SelectPage(page: int)
      requires Valid() && page in WindowPages(currentPage, totalPages)
      modifies this
      ensures Valid()
      ensures currentPage == page && totalPages == old(totalPages) && pageSize == old(pageSize)
    {
      currentPage := page;
    }

    /** changeMenuPageSize / changeUserPageSize: the new size, back to the
        first page, pages recounted. */
    method ChangePageSize(size: nat, rows: nat)
      requires size > 0
      modifies this
      ensures Valid()
      ensures pageSize == size && currentPage == 1 && totalPages == PageCount(rows, size)
    {
      pageSize := size;
      currentPage := 1;
      Update(rows);
    }

    /** The filters go back to the first page before recounting. */
    method Restart(rows: nat)
      requires pageSize > 0
      modifies this
      ensures Valid()
      ensures currentPage == 1 && totalPages == PageCount(rows, pageSize) && pageSize == old(pageSize)
    {
      currentPage := 1;
      Update(rows);
    }
  }
}
