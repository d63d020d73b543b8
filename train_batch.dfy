/** The training windower `create_batch` (data.py:131-167). The constructor
    normalises both arrays, takes the shuffled start indices and stores the
    wrap-around extension `rnd`; `Next(i)` reads those fields only and
    returns batch i: for every start index k, block k followed by block
    k + 1, for the clean and for the noisy array with the same indices. */
module TrainBatch {
  import opened Results
  import opened NumpyOps
  import opened TrainIndex
  import opened BlockWindow

  /** `out` holds, in order, the windows starting at the entries of `idx`. */
  ghost predicate WindowsAt<T>(out: Tensor3<T>, data: Array2<T>, normalize: T -> T, idx: seq<int>) {
    && |out| == |idx|
    && forall j :: 0 <= j < |idx| ==>
         0 <= idx[j] && idx[j] + 1 < |data.rows| && out[j] == Window(data, normalize, idx[j])
  }

  /** `out` has numpy shape (n, 1, m). */
  predicate HasShape<T>(out: Tensor3<T>, n: int, m: int) {
    |out| == n && forall j :: 0 <= j < |out| ==> |out[j]| == 1 && |out[j][0]| == m
  }

  /** `np.concatenate((blocks[idx], blocks[idx + 1]), axis=2)` on blocks of
      shape (n, 1, m): for each start k, block k followed by block k + 1. */
  function Pairs<T>(blocks: Tensor3<T>, idx: seq<int>): (r: Result<Tensor3<T>>)
    requires forall k :: 0 <= k < |blocks| ==> |blocks[k]| == 1
    ensures r.Success? <==> forall j :: 0 <= j < |idx| ==> -|blocks| <= idx[j] && idx[j] + 1 < |blocks|
    ensures r.Failure? ==> r.error == IndexError
    ensures r.Success? ==> |r.value| == |idx| && forall j :: 0 <= j < |idx| && 0 <= idx[j] ==>
      r.value[j] == [blocks[idx[j]][0] + blocks[idx[j] + 1][0]]
  {
    var first :- Take(blocks, idx);
    var second :- Take(blocks, Shift(idx));
    var joined := Concat3(first, second);
    assert joined.Success?;
    joined
  }

  /** `Pairs` over the normalised, expanded blocks of an array is the
      sequence of windows at `idx`. */
  lemma PairsAreWindows<T>(data: Array2<T>, normalize: T -> T, idx: seq<int>)
    requires data.Shaped()
    requires forall j :: 0 <= j < |idx| ==> 0 <= idx[j]
    ensures var blocks := ExpandDims(ElementWise(data.rows, normalize));
      && (forall k :: 0 <= k < |blocks| ==> |blocks[k]| == 1)
      && (Pairs(blocks, idx).Success? ==>
            WindowsAt(Pairs(blocks, idx).value, data, normalize, idx)
            && HasShape(Pairs(blocks, idx).value, |idx|, 2 * data.cols))
  {
  }

  /** The fields are assigned once, by the constructor, and nothing in the
      core assigns them again, so they are constants here. */
  class BatchWindower<T> {
    const clean: Tensor3<T>     // normalised clean blocks, shape (D, 1, L)
    const noisy: Tensor3<T>     // normalised noisy blocks, shape (D', 1, L')
    const batch: int            // batch size
    const batchNum: int         // batches per epoch
    const rnd: seq<int>         // start indices, read `batch` at a time
    const len: int              // D, the number of clean blocks
    const index: int            // read position, set to 0 and never used

    // The arrays the object was built from, the normalisation and the
    // shuffled permutation: constructor arguments and locals of the source.
    ghost const cleanData: Array2<T>
    ghost const noisyData: Array2<T>
    ghost const normalize: T -> T
    ghost const ind: seq<int>

    ghost predicate Valid()
    {
      && cleanData.Shaped() && noisyData.Shaped()
      && len == |cleanData.rows|
      && IsPermutation(ind, len - 1)
      && batch != 0
      && BatchCount(len, batch) == Success(batchNum)
      && rnd == Rnd(ind, len, batch, batchNum)
      && clean == ExpandDims(ElementWise(cleanData.rows, normalize))
      && noisy == ExpandDims(ElementWise(noisyData.rows, normalize))
      && index == 0
    }

    /** `create_batch(clean_data, noisy_data, batches)`, with `ind` the
        permutation `rd.shuffle` left behind. The shapes of the two arrays
        are not compared, as in the source. A batch size of 0 would raise
        ZeroDivisionError at data.py:153 (see `BatchCount`). */
    constructor (cleanData: Array2<T>, noisyData: Array2<T>, batches: int, ind: seq<int>, normalize: T -> T)
      requires cleanData.Shaped() && noisyData.Shaped()
      requires BatchCount(|cleanData.rows|, batches).Success?
      requires IsPermutation(ind, |cleanData.rows| - 1)
      ensures Valid()
      ensures this.cleanData == cleanData && this.noisyData == noisyData
      ensures this.normalize == normalize && this.ind == ind
      ensures batch == batches && len == |cleanData.rows| && index == 0
      ensures batchNum == CeilDiv(|cleanData.rows|, batches)
      ensures rnd == Rnd(ind, |cleanData.rows|, batches, batchNum)
      ensures clean == ExpandDims(ElementWise(cleanData.rows, normalize))
      ensures noisy == ExpandDims(ElementWise(noisyData.rows, normalize))
    {
      this.cleanData := cleanData;
      this.noisyData := noisyData;
      this.normalize := normalize;
      this.ind := ind;
      clean := ExpandDims(ElementWise(cleanData.rows, normalize));
      noisy := ExpandDims(ElementWise(noisyData.rows, normalize));
      batch := batches;
      var d := |cleanData.rows|;
      var count := CeilDiv(d, batches);
      batchNum := count;
      rnd := ind + Slice(ind, 0, count * batches - d + 1);
      len := d;
      index := 0;
    }

    /** `next(i)`: the start indices are `BatchIndex(rnd, batch, i)`; batch
        i consists of the windows at those starts, clean and noisy alike, of
        shape (n, 1, 2L). The clean side never fails; the noisy side raises
        IndexError exactly when the noisy array has fewer blocks than some
        k + 1 needs. Being a function, it changes nothing. */
    function Next(i: int): (r: Result<(Tensor3<T>, Tensor3<T>)>)
      requires Valid()
      ensures var idx := BatchIndex(rnd, batch, i);
        && (r.Success? <==> forall j :: 0 <= j < |idx| ==> idx[j] + 1 < |noisyData.rows|)
        && (r.Failure? ==> r.error == IndexError)
        && (r.Success? ==>
              && WindowsAt(r.value.0, cleanData, normalize, idx)
              && WindowsAt(r.value.1, noisyData, normalize, idx)
              && HasShape(r.value.0, |idx|, 2 * cleanData.cols)
              && HasShape(r.value.1, |idx|, 2 * noisyData.cols))
    {
      var idx := BatchIndex(rnd, batch, i);
      RndInRange(ind, len, batch, batchNum);
      PairsAreWindows(cleanData, normalize, idx);
      PairsAreWindows(noisyData, normalize, idx);
      var c := Pairs(clean, idx).value;  // never fails: every start k has k + 1 < D
      var n :- Pairs(noisy, idx);
      Success((c, n))
    }
  }

  /** When the noisy array has at least as many blocks as the clean one,
      every batch number yields a batch. */
  lemma NextSucceeds<T>(w: BatchWindower<T>, i: int)
    requires w.Valid()
    requires |w.noisyData.rows| >= w.len
    ensures w.Next(i).Success?
  {
    RndInRange(w.ind, w.len, w.batch, w.batchNum);
  }

  /** For a positive batch size, batch i has exactly `batch` windows while
      i * batch + batch <= |rnd|, fewer at the end of `rnd`, and none past it. */
  lemma NextSize<T>(w: BatchWindower<T>, i: int)
    requires w.Valid() && w.batch > 0 && i >= 0
    requires |w.noisyData.rows| >= w.len
    ensures w.Next(i).Success?
    ensures |w.Next(i).value.0| == |w.Next(i).value.1|
      == if i * w.batch >= |w.rnd| then 0 else Min(w.batch, |w.rnd| - i * w.batch)
  {
    BatchSize(w.rnd, w.batch, i);
    NextSucceeds(w, i);
  }

  /** One epoch of `Next(0) .. Next(batchNum - 1)` serves the window at
      every start 0 .. D - 2, for clean and noisy alike. */
  lemma EpochServesEveryWindow<T>(w: BatchWindower<T>, k: int)
    requires w.Valid() && w.batch > 0 && w.len >= 2
    requires |w.noisyData.rows| >= w.len
    requires 0 <= k <= w.len - 2
    ensures exists i, j :: 0 <= i < w.batchNum && ServedAt(w, i, j, k)
  {
    EveryWindowServed(w.ind, w.len, w.batch, k);
    var i :| 0 <= i < w.batchNum && k in BatchIndex(w.rnd, w.batch, i);
    NextSucceeds(w, i);
    var idx := BatchIndex(w.rnd, w.batch, i);
    var j :| 0 <= j < |idx| && idx[j] == k;
    assert ServedAt(w, i, j, k);
  }

  /** Window j of `Next(i)` is the clean and the noisy window starting at block k. */
  ghost predicate ServedAt<T>(w: BatchWindower<T>, i: int, j: int, k: int)
    requires w.Valid()
  {
    && w.Next(i).Success?
    && 0 <= j < |w.Next(i).value.0|
    && 0 <= k && k + 1 < |w.cleanData.rows| && k + 1 < |w.noisyData.rows|
    && w.Next(i).value.0[j] == Window(w.cleanData, w.normalize, k)
    && w.Next(i).value.1[j] == Window(w.noisyData, w.normalize, k)
  }
}
