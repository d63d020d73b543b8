/** The evaluation windower `create_batch_test` (data.py:170-192): the
    frame range is defaulted, shortened to an even number of blocks, sliced
    out of both arrays, normalised and folded into windows of 2L samples,
    each of two consecutive blocks; nothing is shuffled or batched. */
module TestBatch {
  import opened Results
  import opened NumpyOps
  import opened BlockWindow

  /** The object's fields: the clean and noisy windows, shape (n, 1, 2L),
      and the number of blocks of the clean input. */
  datatype TestSet<T> = TestSet(clean: Tensor3<T>, noisy: Tensor3<T>, len: int)

  /** `start_frame` and `stop_frame`, defaulted to 0 and D (data.py:182-185). */
  function FrameRange<T>(cleanData: Array2<T>, startFrame: Option<int>, stopFrame: Option<int>): (r: (int, int))
    ensures r.0 == (if startFrame.Some? then startFrame.value else 0)
    ensures r.1 == (if stopFrame.Some? then stopFrame.value else |cleanData.rows|)
  {
    (startFrame.GetOr(0), stopFrame.GetOr(|cleanData.rows|))
  }

  /** `np.expand_dims(normalize(data[start:stop]).reshape(-1, fLen), axis=1)`. */
  function Fold<T>(data: Array2<T>, start: int, stop: int, fLen: int, normalize: T -> T): Result<Tensor3<T>>
  {
    var w :- Reshape(Flatten(ElementWise(Slice(data.rows, start, stop), normalize)), -1, fLen);
    Success(ExpandDims(w.rows))
  }

  /** Lines 190-191 for the block range [start, end) of both arrays, with
      `f_len = clean_data.shape[1] * 2`; `len` is the clean array's D. */
  function Windows<T>(cleanData: Array2<T>, noisyData: Array2<T>, start: int, end: int,
                      normalize: T -> T): Result<TestSet<T>>
  {
    var fLen := cleanData.cols * 2;
    var clean :- Fold(cleanData, start, end, fLen, normalize);
    var noisy :- Fold(noisyData, start, end, fLen, normalize);
    Success(TestSet(clean, noisy, |cleanData.rows|))
  }

  /** Two arrays of blocks of the same non-empty length and count, as the
      loader produces for a clean and a noisy recording of one utterance. */
  predicate Comparable<T>(cleanData: Array2<T>, noisyData: Array2<T>) {
    && cleanData.Shaped() && noisyData.Shaped()
    && cleanData.cols == noisyData.cols > 0
    && |noisyData.rows| == |cleanData.rows|
  }

  /** `out` is the `count` windows of `data` from block `offset` on: window
      n is the window of blocks offset + 2n and offset + 2n + 1. */
  ghost predicate PairedWindows<T>(out: Tensor3<T>, data: Array2<T>, offset: int, count: int, normalize: T -> T) {
    && |out| == count
    && forall n :: 0 <= n < count ==>
         0 <= offset + 2 * n && offset + 2 * n + 1 < |data.rows|
         && out[n] == Window(data, normalize, offset + 2 * n)
  }

  /** `r` is the windowing of blocks [s, end) of both arrays: it succeeds
      exactly when that slice has an even number of blocks, fails only with
      ValueError, and window n of each array is its blocks s + 2n and
      s + 2n + 1; `len` is the clean array's D. */
  ghost predicate WindowedFrom<T>(r: Result<TestSet<T>>, cleanData: Array2<T>, noisyData: Array2<T>,
                                  s: int, end: int, normalize: T -> T) {
    var sl := Slice(cleanData.rows, s, end);
    && (r.Success? <==> |sl| % 2 == 0)
    && (r.Failure? ==> r.error == ValueError)
    && (r.Success? ==>
          && PairedWindows(r.value.clean, cleanData, s, |sl| / 2, normalize)
          && PairedWindows(r.value.noisy, noisyData, s, |sl| / 2, normalize)
          && r.value.len == |cleanData.rows|)
  }

  /** The block range [start, end) that lines 186-191 slice, as written:
      the even length `2 * floor((stop - start) / 2)` is used as the
      absolute end. */
  function AsWrittenBounds<T>(cleanData: Array2<T>, startFrame: Option<int>, stopFrame: Option<int>): (int, int) {
    var range := FrameRange(cleanData, startFrame, stopFrame);
    (range.0, 2 * FloorDiv(range.1 - range.0, 2))
  }

  /** The evidently intended range: the start is kept and the end is the
      start plus the even length. */
  function IntendedBounds<T>(cleanData: Array2<T>, startFrame: Option<int>, stopFrame: Option<int>): (int, int) {
    var range := FrameRange(cleanData, startFrame, stopFrame);
    (range.0, range.0 + 2 * FloorDiv(range.1 - range.0, 2))
  }

  /** `create_batch_test(clean_data, noisy_data, start_frame, stop_frame)` as
      written. It fails only in `reshape`, with ValueError; `AsWrittenWindow`
      says when it succeeds and what it then holds. */
  function CreateBatchTest<T>(cleanData: Array2<T>, noisyData: Array2<T>, startFrame: Option<int>,
                              stopFrame: Option<int>, normalize: T -> T): (r: Result<TestSet<T>>)
    ensures r.Failure? ==> r.error == ValueError
    ensures r.Success? ==> r.value.len == |cleanData.rows|
  {
    Windows(cleanData, noisyData, AsWrittenBounds(cleanData, startFrame, stopFrame).0,
            AsWrittenBounds(cleanData, startFrame, stopFrame).1, normalize)
  }

  /** The evidently intended windower, slicing `IntendedBounds`;
      `IntendedRangeWindows` says what it holds. */
  function CreateBatchTestIntended<T>(cleanData: Array2<T>, noisyData: Array2<T>, startFrame: Option<int>,
                                      stopFrame: Option<int>, normalize: T -> T): (r: Result<TestSet<T>>)
    ensures r.Failure? ==> r.error == ValueError
    ensures r.Success? ==> r.value.len == |cleanData.rows|
  {
    Windows(cleanData, noisyData, IntendedBounds(cleanData, startFrame, stopFrame).0,
            IntendedBounds(cleanData, startFrame, stopFrame).1, normalize)
  }

  /** Pointwise reading of `WindowsFrom`: for comparable arrays and s >= 0,
      `Windows` on [s, end) succeeds exactly when the slice has an even
      number m of blocks, and then holds m / 2 windows on each side, window
      k being the window of blocks s + 2k and s + 2k + 1. */
  lemma WindowAt<T>(cleanData: Array2<T>, noisyData: Array2<T>, s: int, end: int, normalize: T -> T, k: int)
    requires Comparable(cleanData, noisyData) && 0 <= s
    ensures var r := Windows(cleanData, noisyData, s, end, normalize);
      var m := |Slice(cleanData.rows, s, end)|;
      && (r.Success? <==> m % 2 == 0)
      && (r.Success? ==>
            && |r.value.clean| == |r.value.noisy| == m / 2
            && (0 <= k < m / 2 ==>
                  && s + 2 * k + 1 < |cleanData.rows|
                  && r.value.clean[k] == Window(cleanData, normalize, s + 2 * k)
                  && r.value.noisy[k] == Window(noisyData, normalize, s + 2 * k)))
  {
    WindowsFrom(cleanData, noisyData, s, end, normalize);
  }

  /** For comparable arrays and a start block s >= 0, `Windows` pairs up the
      blocks of [s, end) when there is an even number of them. */
  lemma WindowsFrom<T>(cleanData: Array2<T>, noisyData: Array2<T>, s: int, end: int, normalize: T -> T)
    ensures Comparable(cleanData, noisyData) && 0 <= s ==>
      WindowedFrom(Windows(cleanData, noisyData, s, end, normalize), cleanData, noisyData, s, end, normalize)
  {
    if Comparable(cleanData, noisyData) && 0 <= s {
      assert |Slice(cleanData.rows, s, end)| == |Slice(noisyData.rows, s, end)|;
      FoldWindows(cleanData, s, end, normalize);
      FoldWindows(noisyData, s, end, normalize);
    }
  }

  /** Folding the blocks [s, end) of an array of blocks of L > 0 samples,
      s >= 0, into rows of 2L succeeds exactly when the slice has an even
      number of blocks, and then row n is the window of blocks s + 2n and
      s + 2n + 1. */
  lemma FoldWindows<T>(data: Array2<T>, s: int, end: int, normalize: T -> T)
    requires data.Shaped() && data.cols > 0 && 0 <= s
    ensures var sl := Slice(data.rows, s, end);
      var r := Fold(data, s, end, data.cols * 2, normalize);
      && (r.Success? <==> |sl| % 2 == 0)
      && (r.Failure? ==> r.error == ValueError)
      && (r.Success? ==> PairedWindows(r.value, data, s, |sl| / 2, normalize))
  {
    var c := data.cols;
    assert c * 2 == 2 * c;
    var sl := Slice(data.rows, s, end);
    var e := ElementWise(sl, normalize);
    var flat := Flatten(e);
    assert forall i :: 0 <= i < |e| ==> |e[i]| == c;
    FlattenLength(e, c);
    var m := |sl|;
    ReshapeSpec(flat, -1, 2 * c);
    if m % 2 == 0 {
      EvenFold(m, c);
      var w := Reshape(flat, -1, 2 * c);
      assert w.Success?;
      var out := w.value.rows;
      assert |out| == m / 2;
      assert forall j :: 0 <= j < m ==> s + j < |data.rows| && sl[j] == data.rows[s + j];
      forall n | 0 <= n < m / 2
        ensures 0 <= s + 2 * n && s + 2 * n + 1 < |data.rows|
        ensures [out[n]] == Window(data, normalize, s + 2 * n)
      {
        FoldPair(data, sl, s, normalize, out, n);
      }
    } else {
      OddFold(m, c);
    }
  }

  /** Row n of a refolding of the normalised blocks of `sl`, which are
      blocks s, s + 1, ... of `data`, is the window of blocks s + 2n and
      s + 2n + 1. */
  lemma FoldPair<T>(data: Array2<T>, sl: seq<seq<T>>, s: int, normalize: T -> T, out: seq<seq<T>>, n: int)
    requires data.Shaped() && data.cols > 0 && 0 <= s
    requires forall j :: 0 <= j < |sl| ==> s + j < |data.rows| && sl[j] == data.rows[s + j]
    requires forall i :: 0 <= i < |out| ==> |out[i]| == 2 * data.cols
    requires Flatten(out) == Flatten(ElementWise(sl, normalize))
    requires 0 <= n < |out| && 2 * n + 1 < |sl|
    ensures s + 2 * n + 1 < |data.rows|
    ensures [out[n]] == Window(data, normalize, s + 2 * n)
  {
    var e := ElementWise(sl, normalize);
    assert forall i :: 0 <= i < |e| ==> |e[i]| == data.cols;
    FoldRow(e, data.cols, out, n);
  }

  /** Row n of a refolding of `e` into rows of 2c samples is rows 2n and 2n + 1 of `e`. */
  lemma FoldRow<T>(e: seq<seq<T>>, c: nat, out: seq<seq<T>>, n: int)
    requires c > 0
    requires forall i :: 0 <= i < |e| ==> |e[i]| == c
    requires forall i :: 0 <= i < |out| ==> |out[i]| == 2 * c
    requires Flatten(out) == Flatten(e)
    requires 0 <= n < |out| && 2 * n + 1 < |e|
    ensures out[n] == e[2 * n] + e[2 * n + 1]
  {
    forall t | 0 <= t < 2 * c
      ensures out[n][t] == (e[2 * n] + e[2 * n + 1])[t]
    {
      FlattenAt(out, 2 * c, n, t);
      Distribute(n, c);
      if t < c {
        FlattenAt(e, c, 2 * n, t);
      } else {
        FlattenAt(e, c, 2 * n + 1, t - c);
      }
    }
  }

  lemma Distribute(n: int, c: int)
    ensures n * (2 * c) == (2 * n) * c
    ensures (2 * n + 1) * c == (2 * n) * c + c
  {
  }

  /** An even number m of rows of c > 0 samples refolds into m / 2 rows of 2c. */
  lemma EvenFold(m: nat, c: int)
    requires c > 0 && m % 2 == 0
    ensures (m * c) % (2 * c) == 0 && (m * c) / (2 * c) == m / 2
  {
    assert m * c == (m / 2) * (2 * c);
    DivUnique(m * c, 2 * c, m / 2, 0);
  }

  /** An odd number of rows of c > 0 samples does not refold into rows of 2c. */
  lemma OddFold(m: nat, c: int)
    requires c > 0 && m % 2 == 1
    ensures (m * c) % (2 * c) != 0
  {
    if (m * c) % (2 * c) == 0 {
      var q := (m * c) / (2 * c);
      assert m * c == (2 * q) * c;
      MulCancel(m, 2 * q, c);
    }
  }

  lemma DivUnique(a: int, b: int, q: int, r: int)
    requires b > 0 && 0 <= r < b && a == q * b + r
    ensures a / b == q && a % b == r
  {
    var q', r' := a / b, a % b;
    assert (q - q') * b == r' - r;
    if q > q' {
      MulMono(1, q - q', b);
    } else if q < q' {
      MulMono(1, q' - q, b);
    }
  }

  lemma MulCancel(a: int, b: int, c: int)
    requires c > 0 && a * c == b * c
    ensures a == b
  {
    assert (a - b) * c == 0;
  }

  /** As written, for comparable arrays and a start s >= 0, the windower
      succeeds exactly when the slice [s, 2 * floor((stop - s) / 2)) holds
      an even number m of blocks; it then holds m / 2 windows on each side,
      window k being the window of blocks s + 2k and s + 2k + 1. */
  lemma AsWrittenWindow<T>(cleanData: Array2<T>, noisyData: Array2<T>, startFrame: Option<int>,
                           stopFrame: Option<int>, normalize: T -> T, k: int)
    requires Comparable(cleanData, noisyData)
    requires 0 <= AsWrittenBounds(cleanData, startFrame, stopFrame).0
    ensures var b := AsWrittenBounds(cleanData, startFrame, stopFrame);
      var m := |Slice(cleanData.rows, b.0, b.1)|;
      var r := CreateBatchTest(cleanData, noisyData, startFrame, stopFrame, normalize);
      && (r.Success? <==> m % 2 == 0)
      && (r.Success? ==>
            && |r.value.clean| == |r.value.noisy| == m / 2
            && (0 <= k < m / 2 ==>
                  && b.0 + 2 * k + 1 < |cleanData.rows|
                  && r.value.clean[k] == Window(cleanData, normalize, b.0 + 2 * k)
                  && r.value.noisy[k] == Window(noisyData, normalize, b.0 + 2 * k)))
  {
    var b := AsWrittenBounds(cleanData, startFrame, stopFrame);
    WindowAt(cleanData, noisyData, b.0, b.1, normalize, k);
  }

  /** With the default range and comparable arrays of D blocks, the
      windower yields floor(D / 2) windows, window k being the window of
      blocks 2k and 2k + 1 of each array; an odd last block is dropped. */
  lemma DefaultRangeWindows<T>(cleanData: Array2<T>, noisyData: Array2<T>, normalize: T -> T, k: int)
    requires Comparable(cleanData, noisyData)
    ensures var r := CreateBatchTest(cleanData, noisyData, None, None, normalize);
      && r.Success?
      && |r.value.clean| == |r.value.noisy| == |cleanData.rows| / 2
      && (0 <= k < |cleanData.rows| / 2 ==>
            && r.value.clean[k] == Window(cleanData, normalize, 2 * k)
            && r.value.noisy[k] == Window(noisyData, normalize, 2 * k))
  {
    DefaultSlice(cleanData);
    AsWrittenWindow(cleanData, noisyData, None, None, normalize, k);
  }

  /** The intended windower, for comparable arrays and a start s >= 0,
      succeeds exactly when the slice [s, s + 2 * floor((stop - s) / 2))
      holds an even number m of blocks; it then holds m / 2 windows on each
      side, window k being the window of blocks s + 2k and s + 2k + 1. */
  lemma IntendedWindow<T>(cleanData: Array2<T>, noisyData: Array2<T>, startFrame: Option<int>,
                          stopFrame: Option<int>, normalize: T -> T, k: int)
    requires Comparable(cleanData, noisyData)
    requires 0 <= IntendedBounds(cleanData, startFrame, stopFrame).0
    ensures var b := IntendedBounds(cleanData, startFrame, stopFrame);
      var m := |Slice(cleanData.rows, b.0, b.1)|;
      var r := CreateBatchTestIntended(cleanData, noisyData, startFrame, stopFrame, normalize);
      && (r.Success? <==> m % 2 == 0)
      && (r.Success? ==>
            && |r.value.clean| == |r.value.noisy| == m / 2
            && (0 <= k < m / 2 ==>
                  && b.0 + 2 * k + 1 < |cleanData.rows|
                  && r.value.clean[k] == Window(cleanData, normalize, b.0 + 2 * k)
                  && r.value.noisy[k] == Window(noisyData, normalize, b.0 + 2 * k)))
  {
    var b := IntendedBounds(cleanData, startFrame, stopFrame);
    WindowAt(cleanData, noisyData, b.0, b.1, normalize, k);
  }

  /** The intended windower, for any range 0 <= start <= stop <= D, always
      succeeds and yields floor((stop - start) / 2) windows, window k being
      the window of blocks start + 2k and start + 2k + 1 of each array. */
  lemma IntendedRangeWindows<T>(cleanData: Array2<T>, noisyData: Array2<T>, startFrame: Option<int>,
                                stopFrame: Option<int>, normalize: T -> T, k: int)
    requires Comparable(cleanData, noisyData)
    requires 0 <= FrameRange(cleanData, startFrame, stopFrame).0
    requires FrameRange(cleanData, startFrame, stopFrame).0 <= FrameRange(cleanData, startFrame, stopFrame).1
    requires FrameRange(cleanData, startFrame, stopFrame).1 <= |cleanData.rows|
    ensures var range := FrameRange(cleanData, startFrame, stopFrame);
      var r := CreateBatchTestIntended(cleanData, noisyData, startFrame, stopFrame, normalize);
      && r.Success?
      && |r.value.clean| == |r.value.noisy| == (range.1 - range.0) / 2
      && (0 <= k < (range.1 - range.0) / 2 ==>
            && r.value.clean[k] == Window(cleanData, normalize, range.0 + 2 * k)
            && r.value.noisy[k] == Window(noisyData, normalize, range.0 + 2 * k))
  {
    IntendedSlice(cleanData, startFrame, stopFrame);
    IntendedWindow(cleanData, noisyData, startFrame, stopFrame, normalize, k);
  }

  /** The even length 2 * floor((stop - start) / 2) fits in [start, stop]. */
  lemma EvenPrefix(start: int, stop: int)
    requires start <= stop
    ensures var q := FloorDiv(stop - start, 2);
      && q == (stop - start) / 2 && 0 <= q
      && start <= start + 2 * q <= stop
      && (2 * q) % 2 == 0 && (2 * q) / 2 == q
  {
  }

  /** The discrepancy: as written, an odd start frame s whose shortened end
      2 * floor((D - s) / 2) lies beyond s leaves an odd number of blocks in
      the slice, so `reshape(-1, f_len)` raises ValueError, while the
      intended windower returns floor((D - s) / 2) windows. Four blocks and
      s = 1 are the smallest case: the slice [1:2] holds one block. */
  lemma OddStartFails<T>(cleanData: Array2<T>, noisyData: Array2<T>, s: int, normalize: T -> T)
    requires Comparable(cleanData, noisyData)
    requires 0 < s && s % 2 == 1 && s < 2 * ((|cleanData.rows| - s) / 2)
    ensures CreateBatchTest(cleanData, noisyData, Some(s), None, normalize) == Failure(ValueError)
    ensures CreateBatchTestIntended(cleanData, noisyData, Some(s), None, normalize).Success?
    ensures |CreateBatchTestIntended(cleanData, noisyData, Some(s), None, normalize).value.clean|
      == (|cleanData.rows| - s) / 2
  {
    OddStartSlice(cleanData, s);
    AsWrittenWindow(cleanData, noisyData, Some(s), None, normalize, 0);
    IntendedRangeWindows(cleanData, noisyData, Some(s), None, normalize, 0);
  }

  /** The default range slices an even number of blocks, floor(D / 2) pairs, from block 0. */
  lemma DefaultSlice<T>(cleanData: Array2<T>)
    ensures var b := AsWrittenBounds(cleanData, None, None);
      var m := |Slice(cleanData.rows, b.0, b.1)|;
      b.0 == 0 && m % 2 == 0 && m / 2 == |cleanData.rows| / 2
  {
    var d := |cleanData.rows|;
    EvenPrefix(0, d);
    var b := AsWrittenBounds(cleanData, None, None);
    assert b == (0, 2 * (d / 2));
  }

  /** Within the array, the intended range slices floor((stop - start) / 2) pairs from block start. */
  lemma IntendedSlice<T>(cleanData: Array2<T>, startFrame: Option<int>, stopFrame: Option<int>)
    requires 0 <= FrameRange(cleanData, startFrame, stopFrame).0
    requires FrameRange(cleanData, startFrame, stopFrame).0 <= FrameRange(cleanData, startFrame, stopFrame).1
    requires FrameRange(cleanData, startFrame, stopFrame).1 <= |cleanData.rows|
    ensures var range := FrameRange(cleanData, startFrame, stopFrame);
      var b := IntendedBounds(cleanData, startFrame, stopFrame);
      var m := |Slice(cleanData.rows, b.0, b.1)|;
      b.0 == range.0 && m % 2 == 0 && m / 2 == (range.1 - range.0) / 2
  {
    var range := FrameRange(cleanData, startFrame, stopFrame);
    EvenPrefix(range.0, range.1);
    var q := FloorDiv(range.1 - range.0, 2);
    var b := IntendedBounds(cleanData, startFrame, stopFrame);
    assert b == (range.0, range.0 + 2 * q);
    assert |Slice(cleanData.rows, b.0, b.1)| == 2 * q;
  }

  /** As written, an odd start s below the shortened end slices an odd number of blocks. */
  lemma OddStartSlice<T>(cleanData: Array2<T>, s: int)
    requires 0 < s && s % 2 == 1 && s < 2 * ((|cleanData.rows| - s) / 2)
    ensures var b := AsWrittenBounds(cleanData, Some(s), None);
      b.0 == s && |Slice(cleanData.rows, b.0, b.1)| % 2 == 1
    ensures s <= |cleanData.rows|
  {
    var d := |cleanData.rows|;
    EvenPrefix(s, d);
    var b := AsWrittenBounds(cleanData, Some(s), None);
    assert b == (s, 2 * FloorDiv(d - s, 2));
    OddLength(s, FloorDiv(d - s, 2));
    assert |Slice(cleanData.rows, b.0, b.1)| == b.1 - s;
  }

  /** An even end minus an odd start is odd. */
  lemma OddLength(s: int, q: int)
    requires s % 2 == 1 && s < 2 * q
    ensures (2 * q - s) % 2 == 1
  {
  }

  /** From the first block the two windowers agree: the shortened length is
      then also the absolute end. */
  lemma AgreesFromFirstBlock<T>(cleanData: Array2<T>, noisyData: Array2<T>, stopFrame: Option<int>,
                                normalize: T -> T)
    ensures CreateBatchTest(cleanData, noisyData, None, stopFrame, normalize)
      == CreateBatchTestIntended(cleanData, noisyData, None, stopFrame, normalize)
    ensures CreateBatchTest(cleanData, noisyData, Some(0), stopFrame, normalize)
      == CreateBatchTestIntended(cleanData, noisyData, Some(0), stopFrame, normalize)
  {
    assert AsWrittenBounds(cleanData, None, stopFrame) == IntendedBounds(cleanData, None, stopFrame);
    assert AsWrittenBounds(cleanData, Some(0), stopFrame) == IntendedBounds(cleanData, Some(0), stopFrame);
  }
}
