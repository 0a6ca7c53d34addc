/**
 * Page arithmetic shared by the three booking tables: the page count
 * (`Math.ceil(n / ITEMS_PER_PAGE)`), the rows of one page
 * (`slice((page - 1) * ITEMS_PER_PAGE, page * ITEMS_PER_PAGE)`) and what a
 * clamped cursor guarantees about them.
 */
module Pagination {

  /** CONFIG.ITEMS_PER_PAGE in js/config.js. */
  const ItemsPerPage: nat := 10

  /** `Math.ceil(n / ITEMS_PER_PAGE)`: the fewest pages of ITEMS_PER_PAGE rows that hold `n` rows. */
  function PageCount(n: nat): (r: nat)
    ensures r * ItemsPerPage >= n
    ensures r > 0 ==> (r - 1) * ItemsPerPage < n
  {
    (n + ItemsPerPage - 1) / ItemsPerPage
  }

  /** The highest page a clamped cursor can hold: the page count, or 1 for an empty table. */
  function LastPage(n: nat): (r: nat)
    ensures r >= 1
    ensures n == 0 ==> r == 1
    ensures n > 0 ==> r == PageCount(n)
  {
    if PageCount(n) == 0 then 1 else PageCount(n)
  }

  /** Where `slice` puts an argument: negative positions count from the end; both are clamped into the array. */
  function SlicePosition(i: int, n: nat): (p: nat)
    ensures p <= n
    ensures 0 <= i <= n ==> p == i
  {
    if i < 0 then (if n + i < 0 then 0 else n + i)
    else if i > n then n
    else i
  }

  /** `Array.prototype.slice(start, end)`. */
  function JsSlice<T>(s: seq<T>, start: int, end: int): seq<T>
  {
    var from, to := SlicePosition(start, |s|), SlicePosition(end, |s|);
    if from < to then s[from..to] else []
  }

  /** The rows of page `page`, counting pages from 1. */
  function PageOf<T>(s: seq<T>, page: int): seq<T>
  {
    JsSlice(s, (page - 1) * ItemsPerPage, page * ItemsPerPage)
  }

  function Min(a: int, b: int): int
  {
    if a < b then a else b
  }

  /** A page from 1 on is the window of rows it covers, cut short at the end of the table. */
  lemma PageWindow<T>(s: seq<T>, page: int)
    requires page >= 1
    ensures PageOf(s, page) == s[Min((page - 1) * ItemsPerPage, |s|)..Min(page * ItemsPerPage, |s|)]
    ensures |PageOf(s, page)| <= ItemsPerPage
  {
  }

  /** Pages 1 to `k`, one after the other. */
  function Pages<T>(s: seq<T>, k: nat): seq<T>
  {
    if k == 0 then [] else Pages(s, k - 1) + PageOf(s, k)
  }

  lemma {:induction false} PagesPrefix<T>(s: seq<T>, k: nat)
    ensures Pages(s, k) == s[..Min(k * ItemsPerPage, |s|)]
  {
    if k > 0 {
      PagesPrefix(s, k - 1);
      PageWindow(s, k);
      var a, b := Min((k - 1) * ItemsPerPage, |s|), Min(k * ItemsPerPage, |s|);
      assert s[..a] + s[a..b] == s[..b];
    }
  }

  /** Pages 1 to the page count, one after the other, are the whole table: nothing lost, nothing repeated. */
  lemma PagesRebuildTable<T>(s: seq<T>)
    ensures Pages(s, PageCount(|s|)) == s
  {
    PagesPrefix(s, PageCount(|s|));
  }

  /** A cursor clamped into range shows at least one row whenever the table has any. */
  lemma ClampedPageNotEmpty<T>(s: seq<T>, page: int)
    requires 1 <= page <= LastPage(|s|)
    ensures |s| > 0 ==> PageOf(s, page) != []
  {
    PageWindow(s, page);
  }

  /** A cursor past the last page would show nothing: this is what the clamp prevents. */
  lemma PagePastEndEmpty<T>(s: seq<T>, page: int)
    requires page > PageCount(|s|)
    ensures PageOf(s, page) == []
  {
    PageWindow(s, page);
  }

  /** Twenty-five rows make three pages; the third holds the last five. */
  lemma TwentyFiveRows<T>(s: seq<T>)
    requires |s| == 25
    ensures PageCount(|s|) == 3
    ensures PageOf(s, 3) == s[20..]
    ensures |PageOf(s, 1)| == 10 && |PageOf(s, 2)| == 10 && |PageOf(s, 3)| == 5
  {
    PageWindow(s, 1);
    PageWindow(s, 2);
    PageWindow(s, 3);
  }
}
