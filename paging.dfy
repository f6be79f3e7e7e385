/** Page arithmetic shared by the tables: the number of pages, the clamp of a
    requested page index, and the page slice, as `Array.prototype.slice`
    computes it. */
module Paging {
  import opened Common

  /** `Math.ceil(n / r)` for a count n and a positive page size r. */
  function CeilDiv(n: nat, r: nat): nat
    requires r > 0
  {
    (n + r - 1) / r
  }

  /** CeilDiv is the least number of pages of size r that hold n rows. */
  lemma CeilDivBounds(n: nat, r: nat)
    requires r > 0
    ensures CeilDiv(n, r) * r >= n
    ensures CeilDiv(n, r) > 0 ==> (CeilDiv(n, r) - 1) * r < n
    ensures CeilDiv(n, r) == 0 <==> n == 0
  {
    var q := (n + r - 1) / r;
    var m := (n + r - 1) % r;
    assert n + r - 1 == q * r + m;
    if q > 0 {
      assert (q - 1) * r == q * r - r;
    }
  }

  /** `Math.ceil(n / r) || 1`: zero pages is shown as one page. */
  function NumberOfPages(n: nat, r: nat): (pages: nat)
    requires r > 0
    ensures pages >= 1
    ensures pages * r >= n
    ensures pages == 1 || (pages - 1) * r < n
    ensures n > 0 ==> pages == CeilDiv(n, r)
  {
    CeilDivBounds(n, r);
    var q := CeilDiv(n, r);
    if q == 0 then 1 else q
  }

  /** The shown page: the requested page, or the last page when the request
      is past it. */
  function ShownPage(page: nat, numberOfPages: nat): (shown: nat)
    requires numberOfPages >= 1
    ensures shown < numberOfPages
    ensures shown <= page
    ensures shown == page <==> page < numberOfPages
  {
    if page > numberOfPages - 1 then numberOfPages - 1 else page
  }

  /** Page p (from 0) of s with r rows per page: `s.slice(p * r, r * (p + 1))`. */
  function Page<T>(s: seq<T>, p: nat, r: nat): (rows: seq<T>)
    ensures |rows| <= r
    ensures p * r <= |s| ==> rows == s[p * r..if r * (p + 1) <= |s| then r * (p + 1) else |s|]
    ensures p * r >= |s| ==> rows == []
  {
    assert r * (p + 1) == p * r + r;
    Slice(s, p * r, r * (p + 1))
  }

  /** Pages 0 .. k - 1 of s, concatenated. */
  function Pages<T>(s: seq<T>, k: nat, r: nat): seq<T>
  {
    if k == 0 then [] else Pages(s, k - 1, r) + Page(s, k - 1, r)
  }

  /** The first k pages are the first k * r rows (or all of them). */
  lemma {:induction false} PagesPrefix<T>(s: seq<T>, k: nat, r: nat)
    ensures Pages(s, k, r) == s[..if k * r <= |s| then k * r else |s|]
  {
    if k > 0 {
      PagesPrefix(s, k - 1, r);
      assert (k - 1) * r == k * r - r;
      assert r * (k - 1 + 1) == k * r;
      var lo := if (k - 1) * r <= |s| then (k - 1) * r else |s|;
      var hi := if k * r <= |s| then k * r else |s|;
      assert s[..hi] == s[..lo] + s[lo..hi];
    }
  }

  /** The pages 0 .. numberOfPages - 1 of a list no longer than the counted
      n rows, concatenated, are the list itself: every row is on exactly one
      page, in order. */
  lemma PagesCover<T>(s: seq<T>, n: nat, r: nat)
    requires r > 0 && |s| <= n
    ensures Pages(s, NumberOfPages(n, r), r) == s
  {
    PagesPrefix(s, NumberOfPages(n, r), r);
  }

  /** When the counted rows are the listed rows, the last page is not empty. */
  lemma LastPageNonEmpty<T>(s: seq<T>, r: nat)
    requires r > 0 && |s| > 0
    ensures Page(s, NumberOfPages(|s|, r) - 1, r) != []
  {
  }
}
