/** The index arithmetic of the training windower `create_batch`
    (data.py:148-163): the shuffled start indices are extended by a prefix of
    themselves, and batch i takes the i-th run of `batches` of them. A start
    index k stands for the window made of blocks k and k + 1. */
module TrainIndex {
  import opened Results
  import opened NumpyOps

  /** `np.array(range(n))`: 0, 1, ..., n - 1, and empty when n <= 0. */
  function Range(n: int): (r: seq<int>)
    ensures |r| == if n > 0 then n else 0
    ensures forall j :: 0 <= j < |r| ==> r[j] == j
  {
    seq(if n > 0 then n else 0, j => j)
  }

  /** `ind` holds each of 0 .. n - 1 exactly once: the result of shuffling
      `Range(n)` in place (data.py:148-149). */
  predicate IsPermutation(ind: seq<int>, n: int) {
    multiset(ind) == multiset(Range(n))
  }

  /** A permutation of `Range(n)` has n entries, all in [0, n), and holds every one of them. */
  lemma PermutationEntries(ind: seq<int>, n: int)
    requires IsPermutation(ind, n)
    ensures |ind| == if n > 0 then n else 0
    ensures forall j :: 0 <= j < |ind| ==> 0 <= ind[j] < n
    ensures forall k :: 0 <= k < n ==> k in ind
  {
    assert |ind| == |multiset(ind)| == |multiset(Range(n))| == |Range(n)|;
    forall j | 0 <= j < |ind|
      ensures 0 <= ind[j] < n
    {
      assert ind[j] in multiset(ind);
      assert ind[j] in Range(n);
    }
    forall k | 0 <= k < n
      ensures k in ind
    {
      assert Range(n)[k] == k;
      assert k in multiset(Range(n));
    }
  }

  /** `math.ceil(d / batches)` (data.py:153); `batches == 0` raises. */
  function BatchCount(d: int, batches: int): (r: Result<int>)
    ensures batches == 0 <==> r == Failure(ZeroDivisionError)
    ensures batches > 0 ==> r.Success? && r.value * batches >= d && (r.value - 1) * batches < d
    ensures batches > 0 && d >= 0 ==> r.Success? && r.value >= 0
  {
    if batches == 0 then Failure(ZeroDivisionError) else Success(CeilDiv(d, batches))
  }

  /** `np.r_[ind, ind[:batchNum * batches - d + 1]]` (data.py:154). */
  function Rnd(ind: seq<int>, d: int, batches: int, batchNum: int): seq<int>
  {
    ind + Slice(ind, 0, batchNum * batches - d + 1)
  }

  /** Every entry of `rnd` is a start index in [0, d - 2], so block k + 1 exists. */
  lemma RndInRange(ind: seq<int>, d: int, batches: int, batchNum: int)
    requires IsPermutation(ind, d - 1)
    ensures forall j :: 0 <= j < |Rnd(ind, d, batches, batchNum)| ==>
      0 <= Rnd(ind, d, batches, batchNum)[j] && Rnd(ind, d, batches, batchNum)[j] + 1 < d
  {
    PermutationEntries(ind, d - 1);
    var rnd := Rnd(ind, d, batches, batchNum);
    forall j | 0 <= j < |rnd|
      ensures 0 <= rnd[j] && rnd[j] + 1 < d
    {
      if j >= |ind| {
        var tail := Slice(ind, 0, batchNum * batches - d + 1);
        assert rnd[j] == tail[j - |ind|] == ind[j - |ind|];
      }
    }
  }

  /** Extending a sequence by its own prefix `ind[:t]`, t > 0: the result
      starts with `ind`, grows by the clamped prefix length, and repeats
      itself with period |ind| after that. */
  lemma ExtendByPrefix(ind: seq<int>, t: int)
    requires t > 0
    ensures var rnd := ind + Slice(ind, 0, t);
      && |rnd| == |ind| + Min(t, |ind|)
      && rnd[..|ind|] == ind
      && (forall j :: |ind| <= j < |rnd| ==> rnd[j] == rnd[j - |ind|])
  {
    var rnd := ind + Slice(ind, 0, t);
    assert rnd[..|ind|] == ind;
    forall j | |ind| <= j < |rnd|
      ensures rnd[j] == rnd[j - |ind|]
    {
      assert rnd[j] == Slice(ind, 0, t)[j - |ind|];
    }
  }

  /** The length of `rnd` for a positive batch size and at least one block:
      `batchNum * batches` unless the slice `ind[:...]` is clamped at the
      end of `ind`, in which case `ind` is repeated whole; never more. */
  lemma RndLength(ind: seq<int>, d: int, batches: int)
    requires batches > 0 && d >= 1
    requires IsPermutation(ind, d - 1)
    ensures var bn := CeilDiv(d, batches); var rnd := Rnd(ind, d, batches, bn);
      && |rnd| == (if bn * batches - d + 1 <= d - 1 then bn * batches else 2 * (d - 1))
      && |rnd| <= bn * batches
  {
    PermutationEntries(ind, d - 1);
    var bn := CeilDiv(d, batches);
    var n := bn * batches;
    assert n >= d;
    ExtendByPrefix(ind, n - d + 1);
  }

  /** The shape of `rnd` for a positive batch size and at least one block:
      the permutation itself followed by a repeat of its own prefix, of the
      length `RndLength` gives. */
  lemma RndShape(ind: seq<int>, d: int, batches: int)
    requires batches > 0 && d >= 1
    requires IsPermutation(ind, d - 1)
    ensures var bn := CeilDiv(d, batches); var rnd := Rnd(ind, d, batches, bn);
      && |rnd| == (if bn * batches - d + 1 <= d - 1 then bn * batches else 2 * (d - 1))
      && |rnd| <= bn * batches
      && rnd[..d - 1] == ind
      && (forall j :: d - 1 <= j < |rnd| ==> rnd[j] == rnd[j - (d - 1)])
  {
    PermutationEntries(ind, d - 1);
    assert |ind| == d - 1;
    RndLength(ind, d, batches);
    var n := CeilDiv(d, batches) * batches;
    assert n >= d;
    ExtendByPrefix(ind, n - d + 1);
  }

  /** The start indices of batch i: `rnd[i * batches : (i + 1) * batches]`
      (data.py:163). For i >= 0 and a positive batch size this is the
      clamped run of `rnd` from i * batches, and empty, not an error, once
      i * batches reaches the end of `rnd`. */
  function BatchIndex(rnd: seq<int>, batches: int, i: int): (r: seq<int>)
    ensures batches > 0 && i >= 0 ==>
      r == if i * batches < |rnd| then rnd[i * batches .. Min((i + 1) * batches, |rnd|)] else []
  {
    assert batches > 0 && i >= 0 ==> i * batches <= (i + 1) * batches by {
      if batches > 0 && i >= 0 {
        MulSucc(i, batches);
      }
    }
    Slice(rnd, i * batches, (i + 1) * batches)
  }

  /** Batch i holds `batches` start indices while (i + 1) * batches fits in
      `rnd`, the rest of `rnd` at its end, and none past it. */
  lemma BatchSize(rnd: seq<int>, batches: int, i: int)
    requires batches > 0 && i >= 0
    ensures |BatchIndex(rnd, batches, i)| == if i * batches >= |rnd| then 0 else Min(batches, |rnd| - i * batches)
  {
    MulSucc(i, batches);
  }

  /** The index sets of batches 0 .. n - 1, in order. */
  function EpochIndices(rnd: seq<int>, batches: int, n: int): seq<int>
    decreases n
  {
    if n <= 0 then [] else EpochIndices(rnd, batches, n - 1) + BatchIndex(rnd, batches, n - 1)
  }

  /** Batches 0 .. n - 1 read the first `min(n * batches, |rnd|)` entries of
      `rnd`, each exactly once and in order. */
  lemma {:induction false} EpochIndicesPrefix(rnd: seq<int>, batches: int, n: int)
    requires batches > 0 && n >= 0
    ensures EpochIndices(rnd, batches, n) == rnd[..Min(n * batches, |rnd|)]
  {
    if n > 0 {
      EpochIndicesPrefix(rnd, batches, n - 1);
      MulSucc(n - 1, batches);
      var lo := (n - 1) * batches;
      if lo < |rnd| {
        var hi := Min(n * batches, |rnd|);
        assert rnd[..hi] == rnd[..lo] + rnd[lo..hi];
      }
    }
  }

  /** One epoch, batches 0 .. batchNum - 1, reads all of `rnd`. */
  lemma EpochReadsRnd(ind: seq<int>, d: int, batches: int)
    requires batches > 0 && d >= 1
    requires IsPermutation(ind, d - 1)
    ensures var bn := CeilDiv(d, batches);
      EpochIndices(Rnd(ind, d, batches, bn), batches, bn) == Rnd(ind, d, batches, bn)
  {
    var bn := CeilDiv(d, batches);
    var rnd := Rnd(ind, d, batches, bn);
    RndLength(ind, d, batches);
    EpochIndicesPrefix(rnd, batches, bn);
    assert Min(bn * batches, |rnd|) == |rnd|;
    assert rnd[..|rnd|] == rnd;
  }

  /** Every window start 0 .. d - 2 is served by some batch of the epoch. */
  lemma EveryWindowServed(ind: seq<int>, d: int, batches: int, k: int)
    requires batches > 0 && d >= 2
    requires IsPermutation(ind, d - 1)
    requires 0 <= k <= d - 2
    ensures var bn := CeilDiv(d, batches);
      exists i :: 0 <= i < bn && k in BatchIndex(Rnd(ind, d, batches, bn), batches, i)
  {
    var bn := CeilDiv(d, batches);
    var rnd := Rnd(ind, d, batches, bn);
    PermutationEntries(ind, d - 1);
    assert k in ind;
    var p :| 0 <= p < |ind| && ind[p] == k;
    assert rnd[p] == k;
    assert p < bn * batches;
    EntryServed(rnd, batches, bn, p);
  }

  /** Entry p of `rnd`, for p < n * batches, is read by one of batches
      0 .. n - 1, namely batch p / batches, at position p mod batches. */
  lemma EntryServed(rnd: seq<int>, batches: int, n: int, p: int)
    requires batches > 0 && 0 <= p < |rnd| && p < n * batches
    ensures 0 <= p / batches < n
    ensures p % batches < |BatchIndex(rnd, batches, p / batches)|
    ensures BatchIndex(rnd, batches, p / batches)[p % batches] == rnd[p]
    ensures exists i :: 0 <= i < n && rnd[p] in BatchIndex(rnd, batches, i)
  {
    QuotientBounds(p, batches);
    QuotientBelow(p, batches, n);
    EntryInBatch(rnd, batches, p / batches, p);
  }

  lemma QuotientBounds(p: int, b: int)
    requires b > 0 && 0 <= p
    ensures (p / b) * b <= p < (p / b) * b + b
    ensures p % b == p - (p / b) * b
  {
  }

  /** An entry whose position p lies in batch i's run is read by batch i,
      at position p - i * batches. */
  lemma EntryInBatch(rnd: seq<int>, batches: int, i: int, p: int)
    requires batches > 0 && 0 <= i && i * batches <= p < i * batches + batches && p < |rnd|
    ensures p - i * batches < |BatchIndex(rnd, batches, i)|
    ensures BatchIndex(rnd, batches, i)[p - i * batches] == rnd[p]
    ensures rnd[p] in BatchIndex(rnd, batches, i)
  {
    var lo := i * batches;
    var batch := BatchIndex(rnd, batches, i);
    MulSucc(i, batches);
    assert batch == rnd[lo .. Min(lo + batches, |rnd|)];
    assert batch[p - lo] == rnd[p];
  }

  lemma QuotientBelow(p: int, b: int, n: int)
    requires b > 0 && 0 <= p < n * b
    ensures p / b < n
  {
    if p / b >= n {
      MulMono(n, p / b, b);
    }
  }

  /** Every batch of the epoch holds exactly `batches` start indices if and
      only if the slice `ind[:batchNum * batches - d + 1]` is not clamped. */
  lemma FullBatchesIff(ind: seq<int>, d: int, batches: int)
    requires batches > 0 && d >= 1
    requires IsPermutation(ind, d - 1)
    ensures var bn := CeilDiv(d, batches); var rnd := Rnd(ind, d, batches, bn);
      (forall i :: 0 <= i < bn ==> |BatchIndex(rnd, batches, i)| == batches)
      <==> bn * batches - d + 1 <= d - 1
  {
    var bn := CeilDiv(d, batches);
    var rnd := Rnd(ind, d, batches, bn);
    RndLength(ind, d, batches);
    if bn * batches - d + 1 <= d - 1 {
      forall i | 0 <= i < bn
        ensures |BatchIndex(rnd, batches, i)| == batches
      {
        BatchFull(rnd, batches, bn, i);
      }
    } else {
      LastBatchShort(rnd, batches, bn);
    }
  }

  /** When `rnd` holds exactly n runs, each of batches 0 .. n - 1 is full. */
  lemma BatchFull(rnd: seq<int>, batches: int, n: int, i: int)
    requires batches > 0 && 0 <= i < n && |rnd| == n * batches
    ensures |BatchIndex(rnd, batches, i)| == batches
  {
    MulSucc(i, batches);
    MulMono(i + 1, n, batches);
  }

  /** When `rnd` is shorter than n runs, batch n - 1 is not full. */
  lemma LastBatchShort(rnd: seq<int>, batches: int, n: int)
    requires batches > 0 && n >= 1 && |rnd| < n * batches
    ensures |BatchIndex(rnd, batches, n - 1)| < batches
  {
    MulSucc(n - 1, batches);
  }
}
