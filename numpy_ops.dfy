/** The Python and numpy operations the windowing code is built from:
    integer division, slicing with step 1, integer-array indexing along the
    first axis, `reshape`, `ravel`, `expand_dims(axis=1)`, concatenation
    along the last axis of a three-dimensional array, and an element-wise map. */
module NumpyOps {
  import opened Results

  /** A two-dimensional numpy array: its rows and its column count. The
      count is kept apart from the rows because an array of shape (0, L)
      still has `shape[1] == L`. */
  datatype Array2<T> = Array2(rows: seq<seq<T>>, cols: nat) {
    /** Every row has `cols` entries, as in any numpy array. */
    predicate Shaped() {
      forall i :: 0 <= i < |rows| ==> |rows[i]| == cols
    }
  }

  /** A three-dimensional array, indexed `[i][j][k]`. */
  type Tensor3<T> = seq<seq<seq<T>>>

  function Min(a: int, b: int): int {
    if a <= b then a else b
  }

  /** Python's `a // b`, rounding the quotient towards negative infinity. */
  function FloorDiv(a: int, b: int): (q: int)
    requires b != 0
    ensures b > 0 ==> q * b <= a < q * b + b
    ensures b < 0 ==> q * b + b < a <= q * b
  {
    if b > 0 then a / b else (-a) / (-b)
  }

  /** `math.ceil(a / b)`: the least q with q * b >= a when b > 0. */
  function CeilDiv(a: int, b: int): (q: int)
    requires b != 0
    ensures b > 0 ==> q * b - b < a <= q * b
    ensures b < 0 ==> q * b <= a < q * b - b
  {
    -FloorDiv(-a, b)
  }

  /** Where a Python slice bound `i` lands in a sequence of length `n`:
      a negative bound counts from the end, then the bound is clamped to [0, n]. */
  function SliceBound(i: int, n: nat): (r: nat)
    ensures r <= n
    ensures 0 <= i ==> r == Min(i, n)
    ensures i < 0 ==> r == (if i + n < 0 then 0 else i + n)
  {
    if i < 0 then (if i + n < 0 then 0 else i + n) else Min(i, n)
  }

  /** Python's `s[start:stop]`: never fails, clamps both bounds, and is empty
      when the clamped start is not below the clamped stop. */
  function Slice<X>(s: seq<X>, start: int, stop: int): (r: seq<X>)
    ensures 0 <= start <= stop ==> r == if start < |s| then s[start..Min(stop, |s|)] else []
    ensures |r| <= |s|
    ensures forall j {:trigger r[j]} :: 0 <= j < |r| ==> SliceBound(start, |s|) + j < |s| && r[j] == s[SliceBound(start, |s|) + j]
  {
    var a, b := SliceBound(start, |s|), SliceBound(stop, |s|);
    if a < b then s[a..b] else []
  }

  /** numpy's `m[idx]` for an integer index array `idx`: entry j is row
      `idx[j]`, a negative index counting from the end; any index outside
      [-|m|, |m|) raises IndexError. */
  function Take<X>(m: seq<X>, idx: seq<int>): (r: Result<seq<X>>)
    ensures r.Success? <==> forall j :: 0 <= j < |idx| ==> -|m| <= idx[j] < |m|
    ensures r.Failure? ==> r.error == IndexError
    ensures r.Success? ==> |r.value| == |idx|
    ensures r.Success? ==> forall j :: 0 <= j < |idx| && 0 <= idx[j] ==> r.value[j] == m[idx[j]]
  {
    if forall j :: 0 <= j < |idx| ==> -|m| <= idx[j] < |m| then
      Success(seq(|idx|, j requires 0 <= j < |idx| => m[if idx[j] < 0 then idx[j] + |m| else idx[j]]))
    else
      Failure(IndexError)
  }

  /** numpy's `idx + 1` on an integer array. */
  function Shift(idx: seq<int>): (r: seq<int>)
    ensures |r| == |idx|
    ensures forall j {:trigger r[j]} :: 0 <= j < |idx| ==> r[j] == idx[j] + 1
  {
    seq(|idx|, j requires 0 <= j < |idx| => idx[j] + 1)
  }

  /** An element-wise function applied to one row. */
  function MapRow<T>(row: seq<T>, f: T -> T): (r: seq<T>)
    ensures |r| == |row|
    ensures forall j {:trigger r[j]} :: 0 <= j < |row| ==> r[j] == f(row[j])
  {
    seq(|row|, j requires 0 <= j < |row| => f(row[j]))
  }

  /** An element-wise function applied to every sample of a two-dimensional array. */
  function ElementWise<T>(rows: seq<seq<T>>, f: T -> T): (r: seq<seq<T>>)
    ensures |r| == |rows|
    ensures forall i {:trigger r[i]} :: 0 <= i < |rows| ==> r[i] == MapRow(rows[i], f)
  {
    seq(|rows|, i requires 0 <= i < |rows| => MapRow(rows[i], f))
  }

  /** `np.expand_dims(a, axis=1)`: shape (n, m) becomes (n, 1, m). */
  function ExpandDims<T>(rows: seq<seq<T>>): (r: Tensor3<T>)
    ensures |r| == |rows|
    ensures forall i {:trigger r[i]} :: 0 <= i < |rows| ==> r[i] == [rows[i]]
  {
    seq(|rows|, i requires 0 <= i < |rows| => [rows[i]])
  }

  /** `np.concatenate((a, b), axis=2)`: the first two axes must agree
      (ValueError otherwise); the last axes are joined. */
  function Concat3<T>(a: Tensor3<T>, b: Tensor3<T>): (r: Result<Tensor3<T>>)
    ensures r.Success? <==> |a| == |b| && forall i :: 0 <= i < |a| ==> |a[i]| == |b[i]|
    ensures r.Failure? ==> r.error == ValueError
    ensures r.Success? ==> |r.value| == |a| && forall i :: 0 <= i < |a| ==>
      |r.value[i]| == |a[i]| && forall j :: 0 <= j < |a[i]| ==> r.value[i][j] == a[i][j] + b[i][j]
  {
    if |a| == |b| && forall i :: 0 <= i < |a| ==> |a[i]| == |b[i]| then
      Success(seq(|a|, i requires 0 <= i < |a| =>
        seq(|a[i]|, j requires 0 <= j < |a[i]| => a[i][j] + b[i][j])))
    else
      Failure(ValueError)
  }

  /** Row-major flattening of a two-dimensional array (what `reshape` reads). */
  function Flatten<X>(rows: seq<seq<X>>): seq<X>
  {
    if rows == [] then [] else rows[0] + Flatten(rows[1..])
  }

  lemma {:induction false} FlattenLength<X>(rows: seq<seq<X>>, c: nat)
    requires forall i :: 0 <= i < |rows| ==> |rows[i]| == c
    ensures |Flatten(rows)| == |rows| * c
  {
    if rows != [] {
      FlattenLength(rows[1..], c);
      assert |rows| * c == c + (|rows| - 1) * c;
    }
  }

  /** Entry j of row i sits at position i * c + j of the flattened array. */
  lemma {:induction false} FlattenAt<X>(rows: seq<seq<X>>, c: nat, i: int, j: int)
    requires forall k :: 0 <= k < |rows| ==> |rows[k]| == c
    requires 0 <= i < |rows| && 0 <= j < c
    ensures i * c + j < |Flatten(rows)|
    ensures Flatten(rows)[i * c + j] == rows[i][j]
  {
    if i == 0 {
      assert Flatten(rows) == rows[0] + Flatten(rows[1..]);
    } else {
      FlattenAt(rows[1..], c, i - 1, j);
      var q := (i - 1) * c + j;
      assert i * c + j == q + c by {
        MulSucc(i - 1, c);
      }
      assert Flatten(rows) == rows[0] + Flatten(rows[1..]);
    }
  }

  /** `flat.reshape(nrows, ncols)`, where a row count of -1 asks numpy to
      infer it. Any other negative dimension, an inferred row count with
      zero columns, or a size mismatch raises ValueError. When it succeeds
      and what it returns is `ReshapeSpec`. */
  function Reshape<X>(flat: seq<X>, nrows: int, ncols: int): (r: Result<Array2<X>>)
    decreases if nrows == -1 then 1 else 0
    ensures r.Failure? ==> r.error == ValueError
    ensures r.Success? ==> r.value.Shaped() && r.value.cols == ncols
  {
    if nrows == -1 then
      if ncols <= 0 || |flat| % ncols != 0 then Failure(ValueError)
      else Reshape(flat, |flat| / ncols, ncols)
    else if nrows < 0 || ncols < 0 || nrows * ncols != |flat| then Failure(ValueError)
    else Success(Array2(Rows(flat, nrows, ncols), ncols))
  }

  /** `reshape` succeeds exactly when the dimensions are non-negative (or
      -1 for an inferred row count, with columns dividing the length) and
      account for every entry; the rows then read back, row after row, as
      `flat`. */
  lemma {:induction false} ReshapeSpec<X>(flat: seq<X>, nrows: int, ncols: int)
    decreases if nrows == -1 then 1 else 0
    ensures var r := Reshape(flat, nrows, ncols);
      && (r.Success? <==>
            0 <= ncols && (if nrows == -1 then 0 < ncols && |flat| % ncols == 0 else 0 <= nrows && nrows * ncols == |flat|))
      && (r.Success? ==> |r.value.rows| == (if nrows == -1 then |flat| / ncols else nrows))
      && (r.Success? ==> Flatten(r.value.rows) == flat)
  {
    if nrows == -1 && 0 < ncols && |flat| % ncols == 0 {
      ReshapeSpec(flat, |flat| / ncols, ncols);
    }
  }

  /** `flat` cut into `nrows` consecutive rows of `ncols` entries. */
  function Rows<X>(flat: seq<X>, nrows: nat, ncols: nat): (r: seq<seq<X>>)
    requires nrows * ncols == |flat|
    ensures |r| == nrows
    ensures forall i :: 0 <= i < nrows ==> |r[i]| == ncols
    ensures Flatten(r) == flat
  {
    if nrows == 0 then []
    else
      MulSucc(nrows - 1, ncols);
      [flat[..ncols]] + Rows(flat[ncols..], nrows - 1, ncols)
  }

  lemma MulSucc(a: int, c: int)
    ensures (a + 1) * c == a * c + c
  {
  }

  lemma MulMono(a: int, b: int, c: nat)
    requires a <= b
    ensures a * c <= b * c
  {
  }
}
