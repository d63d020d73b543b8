/** The block split at the end of `wavloader` (data.py:57-59): the
    concatenated, pre-emphasised signal is cut into D blocks of L samples,
    L being half the network's input length, and the samples that do not
    fill a last block are dropped. The file reading before it is not modelled. */
module WavBlocks {
  import opened Results
  import opened NumpyOps

  /** `L = length // 2; D = len(flat) // L; flat[:D * L].reshape(D, L)`. */
  function SplitBlocks<T>(flat: seq<T>, length: int): (r: Result<Array2<T>>)
    ensures length / 2 == 0 ==> r == Failure(ZeroDivisionError)
    ensures length / 2 < 0 ==> r == Failure(ValueError)
    ensures length / 2 > 0 ==> r == Success(Blocks(flat, length / 2))
  {
    var L := FloorDiv(length, 2);
    if L == 0 then Failure(ZeroDivisionError)
    else
      var D := FloorDiv(|flat|, L);
      if L < 0 then
        NegativeBlockFails(flat, L);
        Reshape(Slice(flat, 0, D * L), D, L)
      else Success(Blocks(flat, L))
  }

  /** A negative block length makes `reshape` refuse the shape. */
  lemma NegativeBlockFails<T>(flat: seq<T>, L: int)
    requires L < 0
    ensures Reshape(Slice(flat, 0, FloorDiv(|flat|, L) * L), FloorDiv(|flat|, L), L) == Failure(ValueError)
  {
    ReshapeSpec(Slice(flat, 0, FloorDiv(|flat|, L) * L), FloorDiv(|flat|, L), L);
  }

  /** The D = N // L whole blocks of L samples at the front of `flat`. */
  function Blocks<T>(flat: seq<T>, L: int): (r: Array2<T>)
    requires L > 0
    ensures r.Shaped() && r.cols == L
    ensures |r.rows| == |flat| / L
    ensures Flatten(r.rows) == flat[..|r.rows| * L]
  {
    WholeBlocks(|flat|, L);
    var D := FloorDiv(|flat|, L);
    var whole := Slice(flat, 0, D * L);
    assert whole == flat[..D * L];
    ReshapeSpec(whole, D, L);
    Reshape(whole, D, L).value
  }

  /** D = N // L whole blocks fit in N samples. */
  lemma WholeBlocks(n: nat, L: int)
    requires L > 0
    ensures 0 <= FloorDiv(n, L) == n / L
    ensures 0 <= FloorDiv(n, L) * L <= n
  {
    var D := n / L;
    assert D * L <= n;
    assert 0 <= D * L;
  }

  /** Sample j of block d is sample d * L + j of the signal. */
  lemma BlockSample<T>(flat: seq<T>, L: int, d: int, j: int)
    requires L > 0
    requires 0 <= d < |flat| / L && 0 <= j < L
    ensures d * L + j < |flat|
    ensures Blocks(flat, L).rows[d][j] == flat[d * L + j]
  {
    var b := Blocks(flat, L);
    FlattenAt(b.rows, L, d, j);
  }

  /** Exactly the last `N mod L` samples are discarded; no block is partial. */
  lemma SplitDropsRemainder<T>(flat: seq<T>, L: int)
    requires L > 0
    ensures |Flatten(Blocks(flat, L).rows)| == |flat| - |flat| % L
    ensures Flatten(Blocks(flat, L).rows) == flat[..|flat| - |flat| % L]
  {
    DivRemainder(|flat|, L);
  }

  lemma DivRemainder(n: nat, L: int)
    requires L > 0
    ensures (n / L) * L == n - n % L
  {
  }
}
