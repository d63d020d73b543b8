/** The two-block window both windowers of data.py hand to the network:
    blocks k and k + 1, normalised and joined (data.py:144-145, 166-167 for
    training; 190-191 for evaluation). */
module BlockWindow {
  import opened NumpyOps

  /** The network's input unit: blocks k and k + 1 of `data`, normalised and
      joined into 2L samples, with the singleton middle axis of a (n, 1, 2L)
      batch. */
  function Window<T>(data: Array2<T>, normalize: T -> T, k: int): (r: seq<seq<T>>)
    requires 0 <= k && k + 1 < |data.rows|
    ensures |r| == 1 && |r[0]| == |data.rows[k]| + |data.rows[k + 1]|
  {
    [MapRow(data.rows[k], normalize) + MapRow(data.rows[k + 1], normalize)]
  }
}
