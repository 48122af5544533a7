/**
 * Client-side pagination as the portal's list pages compute it: the page's
 * items by `Array.prototype.slice`, the page count by `Math.ceil`, and the
 * list of page numbers shown.
 */
module Pagination {

  /** How `slice` reads an index: negative counts from the end, then clamped to `[0, len]`. */
  function SliceIndex(i: int, len: nat): (k: nat)
    ensures k <= len
    ensures 0 <= i <= len ==> k == i
    ensures i > len ==> k == len
  {
    if i < 0 then (if len + i < 0 then 0 else len + i)
    else if i > len then len
    else i
  }

  /** `s.slice(start, end)`. */
  function JsSlice<T>(s: seq<T>, start: int, end: int): seq<T> {
    var a := SliceIndex(start, |s|);
    var b := SliceIndex(end, |s|);
    if a < b then s[a..b] else []
  }

  /** `Math.ceil(n / d)` for a count `n` and a positive page size `d`. */
  function CeilDiv(n: nat, d: nat): (r: nat)
    requires d > 0
    ensures r * d >= n
    ensures r > 0 ==> (r - 1) * d < n
  {
    (n + d - 1) / d
  }

  /** The items of page `page` (from 1): `items.slice(page * perPage - perPage, page * perPage)`. */
  function PageItems<T>(items: seq<T>, page: int, perPage: nat): seq<T>
    requires perPage > 0
  {
    JsSlice(items, page * perPage - perPage, page * perPage)
  }

  function Min(a: int, b: int): int { if a <= b then a else b }
  function Max(a: int, b: int): int { if a >= b then a else b }

  /**
   * A page holds at most `perPage` items: the run starting at item
   * `(page - 1) * perPage`, cut short by the end of the list.
   */
  lemma PageItemsMeaning<T>(items: seq<T>, page: int, perPage: nat)
    requires perPage > 0 && page >= 1
    ensures |PageItems(items, page, perPage)| <= perPage
    ensures (page - 1) * perPage < |items| ==>
      PageItems(items, page, perPage) == items[(page - 1) * perPage..Min(page * perPage, |items|)]
    ensures (page - 1) * perPage >= |items| ==> PageItems(items, page, perPage) == []
  {
    assert page * perPage - perPage == (page - 1) * perPage;
    assert (page - 1) * perPage >= 0;
  }

  /** Pages 1 to `k`, one after the other. */
  function PagesUpTo<T>(items: seq<T>, k: nat, perPage: nat): seq<T>
    requires perPage > 0
  {
    if k == 0 then [] else PagesUpTo(items, k - 1, perPage) + PageItems(items, k, perPage)
  }

  lemma {:induction false} PagesUpToIsPrefix<T>(items: seq<T>, k: nat, perPage: nat)
    requires perPage > 0
    ensures PagesUpTo(items, k, perPage) == items[..Min(k * perPage, |items|)]
  {
    if k > 0 {
      PagesUpToIsPrefix(items, k - 1, perPage);
      NextPage(items, k, perPage, PagesUpTo(items, k - 1, perPage));
    }
  }

  /** Appending page `k` to the prefix that pages 1 to `k - 1` cover gives the prefix pages 1 to `k` cover. */
  lemma NextPage<T>(items: seq<T>, k: nat, perPage: nat, before: seq<T>)
    requires perPage > 0 && k > 0
    requires before == items[..Min((k - 1) * perPage, |items|)]
    ensures before + PageItems(items, k, perPage) == items[..Min(k * perPage, |items|)]
  {
    PageItemsMeaning(items, k, perPage);
    var a := (k - 1) * perPage;
    var hi := Min(k * perPage, |items|);
    assert a <= k * perPage;
    if a < |items| {
      assert items[..a] + items[a..hi] == items[..hi];
    }
  }

  /** The pages 1 to `ceil(n / perPage)`, laid end to end, give back the whole list. */
  lemma AllPagesGiveTheList<T>(items: seq<T>, perPage: nat)
    requires perPage > 0
    ensures PagesUpTo(items, CeilDiv(|items|, perPage), perPage) == items
  {
    PagesUpToIsPrefix(items, CeilDiv(|items|, perPage), perPage);
  }

  /** `Array.from({ length: total }, (_, i) => i + 1)`. */
  function PageRange(total: nat): seq<int>
  {
    seq(total, i requires 0 <= i < total => i + 1)
  }

  /** The page-number window: `PageRange(total).slice(max(0, page - 4), min(total, page + 4))`. */
  function PageWindow(page: int, total: nat): seq<int> {
    JsSlice(PageRange(total), Max(0, page - 4), Min(total, page + 4))
  }

  /**
   * The window runs consecutively from `max(1, page - 3)` to
   * `min(total, page + 4)`, has at most 8 entries, and holds `page`
   * whenever it is a page that exists.
   */
  lemma PageWindowMeaning(page: int, total: nat)
    requires page >= 1
    ensures var w := PageWindow(page, total);
      && |w| <= 8
      && (forall i :: 0 <= i < |w| ==> w[i] == Max(1, page - 3) + i)
      && (|w| > 0 ==> w[|w| - 1] == Min(total, page + 4))
      && (Max(1, page - 3) <= Min(total, page + 4) ==> |w| == Min(total, page + 4) - Max(1, page - 3) + 1)
      && (page <= total ==> page in w)
  {
    var w := PageWindow(page, total);
    if page <= total {
      assert w[page - Max(1, page - 3)] == page;
    }
  }
}
