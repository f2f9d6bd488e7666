/** Image dimensions and sample grids shared by the inference and dataset modules. */
module Images {

  /** Rows and columns of a single-channel image, as numpy's `img.shape` gives them. */
  datatype Dims = Dims(rows: nat, cols: nat)

  /** `a` and `b` have the same number of rows and each row the same length. */
  predicate SameDims<S, T>(a: seq<seq<S>>, b: seq<seq<T>>)
  {
    |a| == |b| && forall i :: 0 <= i < |a| ==> |a[i]| == |b[i]|
  }

  /** Every sample lies in the range of `np.uint8`. */
  predicate IsUint8(g: seq<seq<int>>)
  {
    forall i, j :: 0 <= i < |g| && 0 <= j < |g[i]| ==> 0 <= g[i][j] <= 255
  }
}
