/**
 * The paging arithmetic of `getVirtualCardTransactions`
 * (src/app/virtual-cards/services/virtual-cards.service.ts): ten records a page,
 * page `p` skipping the first (p - 1) * 10, and ceil(total / 10) pages.
 */
module Paging {

  const RecordsPerPage: nat := 10

  /** The number of records a page skips. */
  function Skip(page: nat): (n: nat)
    requires page >= 1
    ensures n % RecordsPerPage == 0 && n / RecordsPerPage == page - 1
  {
    (page - 1) * RecordsPerPage
  }

  /** `Math.ceil(totalRecords / 10)`. */
  function TotalPages(totalRecords: nat): (pages: nat)
    ensures totalRecords <= pages * RecordsPerPage
    ensures pages == 0 || (pages - 1) * RecordsPerPage < totalRecords
    ensures pages == 0 <==> totalRecords == 0
  {
    if totalRecords % RecordsPerPage == 0 then totalRecords / RecordsPerPage
    else totalRecords / RecordsPerPage + 1
  }

  function Min(a: int, b: int): int
  {
    if a < b then a else b
  }

  /** The records on one page: `skip` then `limit` applied to the sorted records. */
  function Window<T>(records: seq<T>, page: nat): (w: seq<T>)
    requires page >= 1
    ensures |w| <= RecordsPerPage
    ensures page <= TotalPages(|records|) ==> |w| > 0
    ensures page > TotalPages(|records|) ==> w == []
  {
    var from := Min(Skip(page), |records|);
    var to := Min(Skip(page) + RecordsPerPage, |records|);
    records[from..to]
  }

  /** Pages 1 to n, one after the other. */
  function FirstPages<T>(records: seq<T>, n: nat): seq<T>
  {
    if n == 0 then [] else FirstPages(records, n - 1) + Window(records, n)
  }

  lemma {:induction false} FirstPagesArePrefix<T>(records: seq<T>, n: nat)
    ensures FirstPages(records, n) == records[..Min(n * RecordsPerPage, |records|)]
  {
    if n > 0 {
      FirstPagesArePrefix(records, n - 1);
      var a := Min((n - 1) * RecordsPerPage, |records|);
      var b := Min(n * RecordsPerPage, |records|);
      assert records[..a] + records[a..b] == records[..b];
    }
  }

  /** Reading pages 1 to TotalPages in turn yields every record once, in order. */
  lemma PagesPartitionRecords<T>(records: seq<T>)
    ensures FirstPages(records, TotalPages(|records|)) == records
  {
    FirstPagesArePrefix(records, TotalPages(|records|));
  }
}
