/** `BigQuery.batch_generator`: split the row indices `0 .. data_size - 1`
    into contiguous inclusive `(start, end)` ranges of at most `batch_size`. */
module Batching {
  import opened Common

  /** Default batch size of the source. */
  const DefaultBatchSize: int := 50000

  /** `math.ceil(a / b)` for a non-zero divisor, on exact rationals. */
  function CeilDiv(a: int, b: int): (q: int)
    requires b != 0
    ensures b > 0 ==> (q - 1) * b < a <= q * b
    ensures b < 0 ==> q * b <= a < (q - 1) * b
  {
    if b > 0 then (a + b - 1) / b else (-a - b - 1) / (-b)
  }

  /** The number of loop iterations: `range(n)` is empty for `n <= 0`. */
  function NumBatches(dataSize: int, batchSize: int): (n: nat)
    requires batchSize != 0
  {
    var q := CeilDiv(dataSize, batchSize);
    if q > 0 then q else 0
  }

  /** The pair the loop appends for batch number `i` out of `n`: the last
      batch ends at the last index, every other one after `batchSize` rows. */
  function BatchAt(i: int, n: int, dataSize: int, batchSize: int): (int, int)
  {
    (i * batchSize, if i == n - 1 then dataSize - 1 else (i + 1) * batchSize - 1)
  }

  /** The ranges cover `0 .. dataSize - 1` in order, without gap or overlap,
      none of them empty. */
  ghost predicate Tiles(pairs: seq<(int, int)>, dataSize: int)
  {
    && (|pairs| == 0 <==> dataSize == 0)
    && (|pairs| > 0 ==> pairs[0].0 == 0 && pairs[|pairs| - 1].1 == dataSize - 1)
    && (forall i :: 0 <= i < |pairs| ==> pairs[i].0 <= pairs[i].1)
    && (forall i :: 0 <= i < |pairs| - 1 ==> pairs[i + 1].0 == pairs[i].1 + 1)
  }

  /** The generator as the source writes it: a `ZeroDivisionError` for a zero
      batch size, otherwise one pair per batch number. */
  method BatchGenerator(dataSize: int, batchSize: int) returns (r: Result<seq<(int, int)>>)
    ensures batchSize == 0 <==> r == Raise(ZeroDivisionError)
    ensures batchSize != 0 ==> r.Ok? && |r.value| == NumBatches(dataSize, batchSize)
    ensures batchSize != 0 ==> forall i :: 0 <= i < |r.value| ==>
              r.value[i] == BatchAt(i, |r.value|, dataSize, batchSize)
    ensures dataSize >= 0 && batchSize > 0 ==> r.value == Batches(dataSize, batchSize)
    ensures dataSize >= 0 && batchSize > 0 ==> Tiles(r.value, dataSize)
  {
    if batchSize == 0 {
      return Raise(ZeroDivisionError);
    }
    var n := NumBatches(dataSize, batchSize);
    var pairs: seq<(int, int)> := [];
    var batchNo := 0;
    while batchNo < n
      invariant 0 <= batchNo <= n
      invariant |pairs| == batchNo
      invariant forall i :: 0 <= i < batchNo ==> pairs[i] == BatchAt(i, n, dataSize, batchSize)
    {
      var batchStart := batchNo * batchSize;
      var batchEnd := (batchNo + 1) * batchSize - 1;
      if batchNo == n - 1 {
        batchEnd := dataSize - 1;
      }
      pairs := pairs + [(batchStart, batchEnd)];
      batchNo := batchNo + 1;
    }
    if dataSize >= 0 && batchSize > 0 {
      assert pairs == Batches(dataSize, batchSize);
      BatchesTile(dataSize, batchSize);
    }
    return Ok(pairs);
  }

  /** The list of pairs built for a count of rows and a positive batch size. */
  function Batches(dataSize: nat, batchSize: nat): seq<(int, int)>
    requires batchSize > 0
  {
    var n := NumBatches(dataSize, batchSize);
    seq(n, i requires 0 <= i < n => BatchAt(i, n, dataSize, batchSize))
  }

  /** For a count of rows and a positive batch size the pairs tile the
      indices, every batch but the last holds exactly `batchSize` rows, the
      last at most that many, and an empty input gives no pairs. */
  lemma BatchesTile(dataSize: nat, batchSize: nat)
    requires batchSize > 0
    ensures Tiles(Batches(dataSize, batchSize), dataSize)
    ensures var p := Batches(dataSize, batchSize);
      forall i :: 0 <= i < |p| ==> p[i].1 - p[i].0 + 1 <= batchSize
    ensures var p := Batches(dataSize, batchSize);
      forall i :: 0 <= i < |p| - 1 ==> p[i].1 - p[i].0 + 1 == batchSize
  {
    var p := Batches(dataSize, batchSize);
    var n := |p|;
    var q := CeilDiv(dataSize, batchSize);
    if dataSize == 0 {
      assert q <= 0 by {
        if q >= 1 {
          MulMono(1, q - 1, batchSize);
        }
      }
    } else {
      assert q >= 1;
      assert n == q;
      var last := p[n - 1];
      assert last.0 == (n - 1) * batchSize;
    }
  }

  /** Every index `k` of the data lies in exactly one range: the one numbered
      `k / batchSize`. */
  lemma BatchesCover(dataSize: nat, batchSize: nat, k: int)
    requires batchSize > 0
    requires 0 <= k < dataSize
    ensures var p := Batches(dataSize, batchSize);
      k / batchSize < |p| && p[k / batchSize].0 <= k <= p[k / batchSize].1
    ensures var p := Batches(dataSize, batchSize);
      forall i :: 0 <= i < |p| && p[i].0 <= k <= p[i].1 ==> i == k / batchSize
  {
    var p := Batches(dataSize, batchSize);
    var n := |p|;
    var i := k / batchSize;
    assert i * batchSize <= k < (i + 1) * batchSize;
    assert n * batchSize >= dataSize;
    if i >= n {
      MulMono(n, i, batchSize);
    }
    forall j | 0 <= j < n && p[j].0 <= k <= p[j].1
      ensures j == i
    {
      if j < i {
        MulMono(j + 1, i, batchSize);
      } else if i < j {
        MulMono(i + 1, j, batchSize);
      }
    }
  }

  /** `batch_generator(120000)` with its default batch size: two full batches
      of 50000 and a last one of 20000. */
  lemma DefaultBatchSizeExample()
    ensures Batches(120000, DefaultBatchSize) == [(0, 49999), (50000, 99999), (100000, 119999)]
  {
    assert NumBatches(120000, DefaultBatchSize) == 3;
  }
}
