/** Offset pagination: `take` and `skip` over a fixed ordered result. */
module Pagination {

  function Min(a: nat, b: nat): nat {
    if a < b then a else b
  }

  /** findMany with `skip` and `take`. */
  function Window<T>(rows: seq<T>, skip: nat, take: nat): seq<T> {
    rows[Min(skip, |rows|)..Min(skip + take, |rows|)]
  }

  function SkipOf(page: int, limit: int): int {
    (page - 1) * limit
  }

  function PageOf<T>(rows: seq<T>, page: nat, limit: nat): seq<T>
    requires page >= 1 && limit >= 1
  {
    SkipNonNegative(page, limit);
    Window(rows, SkipOf(page, limit), limit)
  }

  /** Math.ceil(total / limit). */
  function TotalPages(total: nat, limit: nat): nat
    requires limit >= 1
  {
    if total % limit == 0 then total / limit else total / limit + 1
  }

  /** Pages 1 to `pages`, one after the other. */
  function PagesUpTo<T>(rows: seq<T>, pages: nat, limit: nat): seq<T>
    requires limit >= 1
  {
    if pages == 0 then [] else PagesUpTo(rows, pages - 1, limit) + PageOf(rows, pages, limit)
  }

  lemma SkipNonNegative(page: nat, limit: nat)
    requires page >= 1
    ensures 0 <= SkipOf(page, limit)
    ensures SkipOf(page, limit) + limit == page * limit
  {
  }

  lemma MulMonotone(a: nat, b: nat, limit: nat)
    requires a <= b
    ensures a * limit <= b * limit
  {
  }

  /** The number of pages is the least one whose pages hold every row. */
  lemma TotalPagesIsLeast(total: nat, limit: nat)
    requires limit >= 1
    ensures total <= TotalPages(total, limit) * limit
    ensures total > 0 ==> TotalPages(total, limit) >= 1 && SkipOf(TotalPages(total, limit), limit) < total
    ensures total == 0 ==> TotalPages(total, limit) == 0
  {
    var q := total / limit;
    assert total == q * limit + total % limit;
    assert (q + 1) * limit == q * limit + limit;
    if total > 0 && q == 0 {
      assert total % limit == total;
    }
    if total > 0 && total % limit == 0 {
      assert SkipOf(q, limit) == q * limit - limit;
    }
  }

  lemma {:induction false} PagesUpToIsPrefix<T>(rows: seq<T>, pages: nat, limit: nat)
    requires limit >= 1
    ensures PagesUpTo(rows, pages, limit) == rows[..Min(pages * limit, |rows|)]
  {
    if pages > 0 {
      PagesUpToIsPrefix(rows, pages - 1, limit);
      SkipNonNegative(pages, limit);
      var a, b := Min((pages - 1) * limit, |rows|), Min(pages * limit, |rows|);
      assert rows[..b] == rows[..a] + rows[a..b];
    }
  }

  /**
   Pages 1 to totalPages, in order, are the whole result: no row is lost or shown twice.
   Every page but the last is full, the last is not empty, and later pages are.
   */
  lemma PagesPartition<T>(rows: seq<T>, limit: nat)
    requires limit >= 1
    ensures PagesUpTo(rows, TotalPages(|rows|, limit), limit) == rows
    ensures forall page | 1 <= page < TotalPages(|rows|, limit) :: |PageOf(rows, page, limit)| == limit
    ensures rows != [] ==> 1 <= TotalPages(|rows|, limit) && 1 <= |PageOf(rows, TotalPages(|rows|, limit), limit)| <= limit
    ensures forall page | page > TotalPages(|rows|, limit) :: PageOf(rows, page, limit) == []
  {
    var last := TotalPages(|rows|, limit);
    TotalPagesIsLeast(|rows|, limit);
    PagesUpToIsPrefix(rows, last, limit);
    assert rows[..|rows|] == rows;
    forall page | 1 <= page < last ensures |PageOf(rows, page, limit)| == limit {
      SkipNonNegative(page, limit);
      MulMonotone(page, last - 1, limit);
    }
    if rows != [] {
      SkipNonNegative(last, limit);
    }
    forall page: nat | page > last ensures PageOf(rows, page, limit) == [] {
      SkipNonNegative(page, limit);
      MulMonotone(last, page - 1, limit);
    }
  }

  lemma MulPositive(a: int, b: int)
    requires a >= 1 && b >= 1
    ensures a * b >= 1
  {
  }

  /** For a positive limit, the number of skipped rows tells the page. */
  lemma SkipDeterminesPage(page: int, other: int, limit: int)
    requires limit >= 1 && SkipOf(page, limit) == SkipOf(other, limit)
    ensures page == other
  {
    assert (page - other) * limit == 0;
    if page > other {
      MulPositive(page - other, limit);
    } else if other > page {
      MulPositive(other - page, limit);
    }
  }
}
