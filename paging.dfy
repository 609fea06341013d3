/**
 * The window the listing cuts out of the (possibly ordered) records:
 * `Skip(pageSize * (pageNumber - 1)).Take(pageSize)`.
 */
module Paging {
  import opened Runtime

  /** A page number or page size that passed validation: a positive Int32. */
  type pos32 = x: int | 1 <= x <= IntMaxValue witness 1

  datatype Page = Page(number: pos32, size: pos32)

  function Min(a: int, b: int): int { if a <= b then a else b }
  function Max(a: int, b: int): int { if a <= b then b else a }

  /**
   * `Skip(skip).Take(take)` on a sequence. LINQ's Skip and SQLite's OFFSET
   * treat a negative skip as zero; a negative take is empty in LINQ (SQLite
   * would read a negative LIMIT as no limit, but the listing always takes a
   * positive pageSize, so that case is never reached).
   */
  function SkipTake<T>(s: seq<T>, skip: int, take: int): (r: seq<T>)
    ensures |r| == Min(Max(take, 0), Max(0, |s| - Max(skip, 0)))
    ensures forall k :: 0 <= k < |r| ==> r[k] == s[Max(skip, 0) + k]
  {
    var from := Min(Max(skip, 0), |s|);
    var to := Min(from + Max(take, 0), |s|);
    s[from..to]
  }

  /** The zero-based position of the page's first record, computed without overflow. */
  function Offset(page: Page): nat {
    page.size * (page.number - 1)
  }

  /** The records on `page`: min(pageSize, what remains after the offset) of them, read from the offset on. */
  function Window<T>(s: seq<T>, page: Page): (r: seq<T>)
    ensures |r| == Min(page.size, Max(0, |s| - Offset(page)))
    ensures forall k :: 0 <= k < |r| ==> r[k] == s[Offset(page) + k]
  {
    SkipTake(s, Offset(page), page.size)
  }

  /** A page is the slice of the records between its offset and the next page's, cut at the end. */
  lemma WindowShape<T>(s: seq<T>, page: Page)
    ensures Window(s, page) == s[Min(Offset(page), |s|)..Min(Offset(page) + page.size, |s|)]
  {
  }

  /** A page that starts at or after the end of the records is empty. */
  lemma PageBeyondEndIsEmpty<T>(s: seq<T>, page: Page)
    requires Offset(page) >= |s|
    ensures Window(s, page) == []
  {
  }

  /** Record `i` is entry `i % size` of page `i / size + 1`. */
  lemma {:induction false} RecordOnItsPage<T>(s: seq<T>, size: pos32, i: nat)
    requires i < |s| && i / size + 1 <= IntMaxValue
    ensures var page := Page(i / size + 1, size);
      i % size < |Window(s, page)| && Window(s, page)[i % size] == s[i]
  {
    var page := Page(i / size + 1, size);
    assert Offset(page) == size * (i / size);
    assert i == size * (i / size) + i % size;
  }

  /**
   * Conversely, entry `k` of page `n` sits at position size*(n-1)+k, whose
   * page and entry are `n` and `k` again: no position is on two pages.
   */
  lemma {:induction false} PositionOnOnePage(size: pos32, n: pos32, k: nat)
    requires k < size
    ensures (Offset(Page(n, size)) + k) / size == n - 1
    ensures (Offset(Page(n, size)) + k) % size == k
  {
    var i := Offset(Page(n, size)) + k;
    var d, m := i / size, i % size;
    assert i == size * d + m && 0 <= m < size;
    assert size * (n - 1) - size * d == m - k;
    if n - 1 > d {
      MulAtLeast(size, n - 1 - d);
    } else if n - 1 < d {
      MulAtLeast(size, d - (n - 1));
    }
  }

  lemma MulAtLeast(a: nat, x: int)
    requires x >= 1
    ensures a * x >= a
  {
    assert a * x == a * (x - 1) + a;
  }

  // The offset as the source computes it.

  /**
   * `pageSize * (pageNumber - 1)` in 32-bit unchecked arithmetic: the exact
   * offset when it fits in an Int32, and otherwise a value that differs from
   * it by a multiple of 2^32.
   */
  function OffsetAsWritten(page: Page): (r: int32)
    ensures (r - Offset(page)) % 0x1_0000_0000 == 0
    ensures Offset(page) <= IntMaxValue ==> r == Offset(page)
  {
    Unchecked(page.size * (page.number - 1))
  }

  /**
   * The records on `page` when the offset is computed in 32 bits. A wrapped
   * offset that comes out negative skips nothing, so the page is then the
   * first page's records.
   */
  function WindowAsWritten<T>(s: seq<T>, page: Page): (r: seq<T>)
    ensures |r| == Min(page.size, Max(0, |s| - Max(OffsetAsWritten(page), 0)))
    ensures forall k :: 0 <= k < |r| ==> r[k] == s[Max(OffsetAsWritten(page), 0) + k]
    ensures OffsetAsWritten(page) <= 0 ==> r == s[..Min(page.size, |s|)]
  {
    SkipTake(s, OffsetAsWritten(page), page.size)
  }

  /** The two agree whenever the product fits in an Int32. */
  lemma WindowAsWrittenAgrees<T>(s: seq<T>, page: Page)
    requires Offset(page) <= IntMaxValue
    ensures WindowAsWritten(s, page) == Window(s, page)
  {
  }

  /**
   * Page 32769 of size 65536 starts at record 2^31. In 32 bits that offset
   * wraps to -2^31, Skip treats it as zero, and the page repeats the first
   * records of the listing instead of being empty.
   */
  lemma OffsetOverflow<T>(s: seq<T>)
    requires 0 < |s| <= 65536
    ensures OffsetAsWritten(Page(32769, 65536)) == IntMinValue
    ensures WindowAsWritten(s, Page(32769, 65536)) == s
    ensures Window(s, Page(32769, 65536)) == []
  {
  }
}
