# Window-index arithmetic of the segan data pipeline

This project models the integer and slice arithmetic that `data.py` of the
segan speech-enhancement repository uses to cut recordings into the blocks
and the two-block windows the network trains and evaluates on, and proves
properties of that model in Dafny. It covers three pieces:

- **the block split** at the end of `wavloader` (`WavBlocks`): the
  concatenated signal is cut into D blocks of L = length // 2 samples, and
  the remainder is dropped;
- **the training windower** `create_batch` (`TrainIndex`, `TrainBatch`):
  - the constructor takes a permutation `ind` of the start indices
    0 .. D - 2 and computes `batch_num = ceil(D / batches)`;
  - it stores the wrap-around extension `rnd = ind ++ ind[:batch_num * batches - D + 1]`;
  - `next(i)` returns, for each start k in `rnd[i*b : (i+1)*b]`, block k
    followed by block k + 1 of the clean and of the noisy array;
- **the evaluation windower** `create_batch_test` (`TestBatch`): the frame
  range is defaulted, the stop frame is recomputed as an even length, the
  slice is normalised and reshaped into rows of 2L samples.

`NumpyOps` models the numpy and Python operations involved, as data.py
uses them. Slices wrap negative bounds and clamp. Integer-array indexing
raises IndexError outside [-n, n). `reshape` raises ValueError on a size
mismatch, and infers only a row count given as -1, the only inferred
dimension data.py asks for. `//` floors and `math.ceil(a / b)` is the
ceiling quotient, both on exact integers. Failures are values of `Results.Result`, with the
Python exception as the error.

The sample type is a type parameter. The normalisation `(1 / 32767) * x`
is an arbitrary element-wise function `normalize: T -> T`. The shuffled
permutation is an input of the constructor, required to be a permutation
of `range(D - 1)`. `create_batch` is a class: its fields are assigned once
by the constructor and are `const`. `next` is a function of them, so it
changes nothing and returns the same batch for the same `i`.
`create_batch_test` only computes its fields from its arguments, so it is
a function returning those fields (`TestSet`).

The model follows the code as written:
- `create_batch` does not reject D < 2 or a negative batch size. With
  D < 2, `rnd` is an empty floating-point array and numpy's `next(i)`
  raises IndexError; the model returns an empty batch instead (see
  "## Left out").
- `next(i)` with `i * batch` past the end of `rnd` indexes with an empty slice of `rnd`.
- `rnd` holds exactly `batch_num * batches` entries only when the slice
  `ind[:batch_num * batches - D + 1]` is not clamped. Otherwise it holds
  2(D - 1) entries and the last batch is short (`FullBatchesIff`).
- The test windower's recomputed stop frame is an absolute slice end, not a
  bound within the range (see Findings).

## Model

| member | source | states |
|---|---|---|
| WavBlocks.SplitBlocks | data.py:57-59 | L = length // 2. A zero L raises ZeroDivisionError, a negative L makes `reshape` raise ValueError, and a positive L yields the D = N // L whole blocks |
| WavBlocks.NegativeBlockFails | data.py:57-59 | with a negative block length, `flat[:D*L].reshape(D, L)` raises ValueError |
| WavBlocks.Blocks | data.py:58-59 | the split has N // L rows of L samples each, and read row after row they are the first D*L samples |
| WavBlocks.BlockSample | data.py:57-59 | sample j of block d is sample d*L + j of the signal, for d < D and j < L |
| WavBlocks.SplitDropsRemainder | data.py:58-59 | the blocks hold the signal minus exactly its last N mod L samples |
| NumpyOps.FloorDiv | data.py:58 | Python `//`: q*b <= a < q*b + b for b > 0, and the mirror bounds for b < 0 |
| NumpyOps.CeilDiv | data.py:153 | `math.ceil(a / b)`: the least q with q*b >= a for b > 0 |
| NumpyOps.Slice | data.py:163 | `s[i:j]`: for 0 <= i <= j it is `s[i..min(j, n)]`, or empty when i >= n; its entry t is always `s[bound(i) + t]` |
| NumpyOps.ReshapeSpec | data.py:190-191 | `reshape(nrows, ncols)` succeeds iff the dimensions are non-negative, or -1 with ncols > 0 dividing the length, and account for every entry; the rows then flatten back to the input |
| NumpyOps.FlattenAt | data.py:190-191 | entry j of row i is entry i*c + j of the row-major flattening |
| TrainIndex.PermutationEntries | data.py:148-149 | a permutation of `range(n)` has n entries, all in [0, n), and contains each of them |
| TrainIndex.BatchCount | data.py:153 | batches == 0 raises ZeroDivisionError; for batches > 0 it is the least q with q*batches >= D, and non-negative |
| TrainIndex.RndInRange | data.py:148-154 | every entry k of `rnd` satisfies 0 <= k and k + 1 < D, so block k + 1 exists |
| TrainIndex.ExtendByPrefix | data.py:154 | `ind ++ ind[:t]`, t > 0, starts with `ind`, grows by min(t, \|ind\|) entries and repeats `ind` after it |
| TrainIndex.RndLength | data.py:153-154 | \|rnd\| is batch_num*batches when the tail slice is not clamped and 2(D - 1) when it is; never more than batch_num*batches |
| TrainIndex.RndShape | data.py:148-154 | the first D - 1 entries of `rnd` are the permutation, and entry D - 1 + j repeats entry j |
| TrainIndex.BatchIndex | data.py:163 | batch i's starts are `rnd[i*b .. min((i+1)*b, \|rnd\|))`, and empty once i*b reaches \|rnd\| |
| TrainIndex.BatchSize | data.py:163 | batch i holds b starts while they fit, the rest of `rnd` at its end, and none past it |
| TrainIndex.EpochIndicesPrefix | data.py:163 | batches 0 .. n - 1 read exactly the first min(n*b, \|rnd\|) entries of `rnd`, in order |
| TrainIndex.EpochReadsRnd | data.py:153-163 | one epoch, batches 0 .. batch_num - 1, reads all of `rnd` in order |
| TrainIndex.EveryWindowServed | data.py:148-163 | every start 0 .. D - 2 occurs in some batch of the epoch |
| TrainIndex.EntryServed | data.py:163 | entry p < n*b of `rnd` is read by batch p // b, one of batches 0 .. n - 1, at position p mod b |
| TrainIndex.EntryInBatch | data.py:163 | entry p of `rnd`, lying in batch i's run, is entry p - i*b of batch i |
| TrainIndex.FullBatchesIff | data.py:153-154 | every batch of the epoch is full iff the tail slice of `rnd` is not clamped |
| TrainIndex.BatchFull | data.py:163 | when `rnd` holds exactly n runs of b, each of batches 0 .. n - 1 is full |
| TrainIndex.LastBatchShort | data.py:163 | when `rnd` is shorter than n runs of b, batch n - 1 is short |
| TrainBatch.Pairs | data.py:166-167 | `concatenate((x[idx], x[idx+1]), axis=2)` succeeds iff every k in idx has -\|x\| <= k and k + 1 < \|x\|, fails with IndexError otherwise, and entry j is block k followed by block k + 1 |
| TrainBatch.PairsAreWindows | data.py:144-167 | normalising, `expand_dims`, the two integer-array indexings at `idx` and `idx + 1` and the concatenation together give, entry j, the window of blocks idx[j] and idx[j] + 1, of shape (\|idx\|, 1, 2L) |
| TrainBatch.BatchWindower.constructor | data.py:137-156 | the fields are the normalised expanded arrays, the batch size, batch_num = ceil(D / b), `rnd = ind ++ ind[:batch_num*b - D + 1]`, len = D and index = 0 |
| TrainBatch.BatchWindower.Next | data.py:159-167 | `next(i)` succeeds iff every k + 1 fits in the noisy array (IndexError otherwise); window j of each output is the window at the j-th start of `rnd[i*b:(i+1)*b]`, with shape (n, 1, 2L) |
| TrainBatch.NextSucceeds | data.py:166-167 | when the noisy array has at least D blocks, every `next(i)` succeeds |
| TrainBatch.NextSize | data.py:163-167 | for b > 0 and i >= 0, both outputs hold b windows while they fit, the rest at the end of `rnd`, and none past it |
| TrainBatch.EpochServesEveryWindow | data.py:148-167 | every window start 0 .. D - 2 is served by some `next(i)`, i < batch_num, at the same position in the clean and the noisy output |
| TestBatch.CreateBatchTest | data.py:176-192 | `create_batch_test` as written fails only with ValueError, and `len` is D whatever the range |
| TestBatch.AsWrittenWindow | data.py:186-191 | for comparable arrays and start s >= 0, it succeeds iff the slice [s, 2*floor((stop - s)/2)) has an even block count m; it then has m/2 windows, window k being blocks s + 2k and s + 2k + 1 of each array |
| TestBatch.DefaultRangeWindows | data.py:182-192 | with the default range it succeeds with floor(D/2) windows, window k being blocks 2k and 2k + 1 of each array; an odd last block is dropped |
| TestBatch.DefaultSlice | data.py:182-189 | the default range slices an even number of blocks, floor(D/2) pairs, from block 0 |
| TestBatch.WindowAt | data.py:188-191 | slicing [s, end) of both arrays and folding into rows of 2L succeeds iff the block count m is even; it then gives m/2 windows per array, window k being blocks s + 2k and s + 2k + 1 |
| TestBatch.WindowsFrom | data.py:188-191 | the same for all windows at once: both outputs pair up the blocks of [s, end), with `len` = D |
| TestBatch.FoldWindows | data.py:190-191 | `normalize(data[s:end]).reshape(-1, 2L)` succeeds iff the slice has an even block count (ValueError otherwise), and, after `expand_dims`, window n is blocks s + 2n and s + 2n + 1 |
| TestBatch.FoldPair | data.py:190-191 | row n of the refolded slice is the window of blocks s + 2n and s + 2n + 1 |
| TestBatch.FoldRow | data.py:190 | row n of a refolding into rows of 2c samples is rows 2n and 2n + 1 of the input |
| TestBatch.EvenFold | data.py:190 | m rows of c samples refold into m/2 rows of 2c when m is even |
| TestBatch.OddFold | data.py:190 | m rows of c samples do not refold into rows of 2c when m is odd |
| TestBatch.EvenPrefix | data.py:189 | 2*floor((stop - start)/2) is even and fits in [0, stop - start] |
| TestBatch.OddStartSlice | data.py:189-190 | as written, an odd start s below 2*floor((D - s)/2) slices an odd number of blocks |
| TestBatch.OddStartFails | data.py:189-191 | as written, such an odd start raises ValueError, while the intended windower succeeds with floor((D - s)/2) windows |
| TestBatch.CreateBatchTestIntended | data.py:189-191 | the corrected windower slices [start, start + 2*floor((stop - start)/2)); it fails only with ValueError and `len` is D |
| TestBatch.IntendedWindow | data.py:189-191 | the corrected windower succeeds iff its slice has an even block count m, and then window k is blocks start + 2k and start + 2k + 1 |
| TestBatch.IntendedSlice | data.py:189 | within the array, the corrected range slices floor((stop - start)/2) pairs from the start block |
| TestBatch.IntendedRangeWindows | data.py:189-191 | for any 0 <= start <= stop <= D the corrected windower succeeds with floor((stop - start)/2) windows, window k being blocks start + 2k and start + 2k + 1 of each array |
| TestBatch.AgreesFromFirstBlock | data.py:182-191 | from block 0, with the start defaulted or given as 0, the as-written and the corrected windower are equal |

## Left out

- File handling in `data_loader` and `wavloader` is not modelled: globbing, folder creation, wave reading, and the joblib cache.
- Pre-emphasis, the float32 cast and `de_emph` are floating-point filtering and are not modelled. The block split starts from the concatenated signal.
- The value of `normalize`, scaling by 1/32767 in floating point, is a parameter. Only its element-wise shape is modelled.
- `rd.shuffle` is random. Its result is an input of the constructor, required to be a permutation.
- `wav_write` and `settings.py` are not modelled. The input length `len = 2**14` only fixes L, which is a parameter.
- `math.floor((stop - start) / 2)` and `math.ceil(D / batches)` divide in floating point. The model uses the exact integer quotients, which agree for any realistic block count.
- `np.array(range(0))` has a floating-point dtype (data.py:148). When D <= 1, indexing with the empty, non-integer `rnd` raises in numpy; the model gives an empty batch.
- TrainBatch.BatchWindower.constructor: requires a batch size other than 0, because a constructor cannot fail. The ZeroDivisionError the source raises at data.py:153 is modelled by `TrainIndex.BatchCount`.
- TrainBatch.NextSize: stated for a positive batch size and i >= 0 only. Negative values slice `rnd` with Python's wrap-around bounds, which `Next` models but no lemma describes.
- TrainBatch.EpochServesEveryWindow: stated for a positive batch size and D >= 2.
- TestBatch.AsWrittenWindow: stated for a start frame >= 0 and comparable clean and noisy arrays. A negative start wraps from the end, which `CreateBatchTest` models but no lemma describes.
- TestBatch.IntendedRangeWindows: stated for ranges inside the array.
- `NumpyOps.Reshape` infers a row count given as -1 but refuses -1 as the column count, which numpy would infer. data.py only reshapes with an inferred row count (line 190) or with two given dimensions (line 59).
- Shapes of the two arrays are not compared by the source. `Next` models the noisy-side IndexError; the test-windower lemmas assume comparable arrays.

## Findings

| source | as written | input that shows it | evidently intended | confidence | as-written member | corrected member |
|---|---|---|---|---|---|---|
| data.py:189-190 | `stop_frame = 2 * math.floor((stop_frame - start_frame) / 2)` recomputes the stop as a length, and line 190 uses it as the absolute slice end `clean_data[start_frame:stop_frame]` | D = 4 blocks, start_frame = 1: the end is 2*floor(3/2) = 2, the slice [1:2] holds one block, and `reshape(-1, 2L)` raises ValueError | the end is `start_frame + 2 * floor((stop_frame - start_frame) / 2)`, which always slices an even number of blocks | not executed | TestBatch.OddStartFails | TestBatch.IntendedRangeWindows |
