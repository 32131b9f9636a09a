/** The page batches of app.py:53-54: `for start_page in range(1,
    total_pages + 1, 3)` with `end_page = min(start_page + 2, total_pages)`. */
module Batching {

  /** The pages handled together in one rasterization call. */
  const BatchSize: nat := 3

  /** The 1-based page range `[first, last]` of one batch. */
  datatype Batch = Batch(first: nat, last: nat)

  function Min(a: int, b: int): (m: int) {
    if a < b then a else b
  }

  predicate Contains(b: Batch, page: int) {
    b.first <= page <= b.last
  }

  /** The index (from 0) of the batch that page `page` (from 1) belongs to. */
  function BatchIndexOf(page: int): (k: int) {
    (page - 1) / BatchSize
  }

  /** The batch starting at `start` for a document of `totalPages` pages. */
  function BatchAt(start: nat, totalPages: nat): (b: Batch) {
    Batch(start, Min(start + BatchSize - 1, totalPages))
  }

  /** The batches whose start is `start`, `start + 3`, ... up to `totalPages`,
      as the `range` of the loop enumerates them. */
  function BatchesFrom(start: nat, totalPages: nat): (bs: seq<Batch>)
    decreases totalPages + 1 - start
  {
    if start > totalPages then []
    else [BatchAt(start, totalPages)] + BatchesFrom(start + BatchSize, totalPages)
  }

  function Batches(totalPages: nat): (bs: seq<Batch>) {
    BatchesFrom(1, totalPages)
  }

  lemma {:induction false} BatchesFromShape(start: nat, totalPages: nat)
    ensures |BatchesFrom(start, totalPages)| ==
            (if start > totalPages then 0 else (totalPages - start) / BatchSize + 1)
    ensures forall k | 0 <= k < |BatchesFrom(start, totalPages)| ::
            BatchesFrom(start, totalPages)[k] == BatchAt(start + BatchSize * k, totalPages)
    decreases totalPages + 1 - start
  {
    if start <= totalPages {
      var bs := BatchesFrom(start, totalPages);
      var rest := BatchesFrom(start + BatchSize, totalPages);
      BatchesFromShape(start + BatchSize, totalPages);
      forall k | 0 < k < |bs|
        ensures bs[k] == BatchAt(start + BatchSize * k, totalPages)
      {
        assert bs[k] == rest[k - 1];
      }
    }
  }

  /** There are ceil(N / 3) batches, and the k-th (from 0) is
      `[3k + 1, min(3k + 3, N)]`. */
  lemma BatchesShape(totalPages: nat)
    ensures |Batches(totalPages)| == (totalPages + BatchSize - 1) / BatchSize
    ensures forall k | 0 <= k < |Batches(totalPages)| ::
            Batches(totalPages)[k] == Batch(BatchSize * k + 1, Min(BatchSize * k + BatchSize, totalPages))
  {
    BatchesFromShape(1, totalPages);
  }

  /** Every batch holds one to three pages within `[1, N]`, and only the last
      batch may hold fewer than three. */
  lemma BatchSizes(totalPages: nat)
    ensures forall b | b in Batches(totalPages) ::
            1 <= b.first <= b.last <= totalPages && b.last - b.first + 1 <= BatchSize
    ensures forall k | 0 <= k < |Batches(totalPages)| - 1 ::
            Batches(totalPages)[k].last - Batches(totalPages)[k].first + 1 == BatchSize
  {
    BatchesShape(totalPages);
    var bs := Batches(totalPages);
    forall b | b in bs
      ensures 1 <= b.first <= b.last <= totalPages && b.last - b.first + 1 <= BatchSize
    {
      var k :| 0 <= k < |bs| && bs[k] == b;
    }
  }

  /** The batches partition `[1, N]`: page p lies in the batch of index
      `BatchIndexOf(p)` and in no other, and consecutive batches are adjacent. */
  lemma BatchesPartition(totalPages: nat)
    ensures forall p, k | 1 <= p <= totalPages && 0 <= k < |Batches(totalPages)| ::
            (Contains(Batches(totalPages)[k], p) <==> k == BatchIndexOf(p))
    ensures forall p | 1 <= p <= totalPages :: 0 <= BatchIndexOf(p) < |Batches(totalPages)|
    ensures totalPages > 0 ==> Batches(totalPages)[0].first == 1
    ensures totalPages > 0 ==> Batches(totalPages)[|Batches(totalPages)| - 1].last == totalPages
    ensures forall k | 0 <= k < |Batches(totalPages)| - 1 ::
            Batches(totalPages)[k + 1].first == Batches(totalPages)[k].last + 1
  {
    BatchesShape(totalPages);
  }
}
