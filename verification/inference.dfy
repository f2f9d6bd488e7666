/**
 The stages around the network in `process_image_advanced`: reading and
 rounding the input size, the clip-and-cast to 8 bits after the network, and
 the sharpen / blend / equalize sequence. OpenCV's filters are parameters:
 only their shape and range behaviour is assumed.
 */
module Inference {
  import opened Results
  import opened Images
  import opened Layers
  import opened Architectures

  /** Why `advanced_preprocess_image` raises. */
  datatype PreprocessError =
    /** `cv2.imread` returned `None`: the `ValueError` "Could not read image". */
    | CouldNotRead
    /** Rounding left a zero dimension, which `cv2.resize` rejects. */
    | EmptyResize

  /** The dimension `advanced_preprocess_image` rounds to: always a multiple of 4, whatever the scale. */
  function RoundDownToFour(n: nat): nat
  {
    (n / 4) * 4
  }

  /**
   The output dimensions of `advanced_preprocess_image`, given what
   `cv2.imread` decoded. Equalization and blurring keep the size; the image
   is then RESIZED (not cropped) to the dimensions rounded down to multiples of 4.
   */
  function AdvancedPreprocess(decoded: Option<Dims>): (r: Result<Dims, PreprocessError>)
    ensures r == Err(CouldNotRead) <==> decoded.None?
    ensures r == Err(EmptyResize) <==> decoded.Some? && (decoded.value.rows < 4 || decoded.value.cols < 4)
    ensures r.Ok? ==>
      && decoded.Some?
      && r.value.rows % 4 == 0 && r.value.rows <= decoded.value.rows < r.value.rows + 4
      && r.value.cols % 4 == 0 && r.value.cols <= decoded.value.cols < r.value.cols + 4
      && r.value.rows >= 4 && r.value.cols >= 4
  {
    if decoded.None? then Err(CouldNotRead)
    else
      var d := Dims(RoundDownToFour(decoded.value.rows), RoundDownToFour(decoded.value.cols));
      if d.rows == 0 || d.cols == 0 then Err(EmptyResize) else Ok(d)
  }

  /** Rounding is idempotent: an image whose sides are already multiples of 4 keeps its size. */
  lemma PreprocessKeepsMultiplesOfFour(d: Dims)
    requires d.rows >= 4 && d.cols >= 4 && d.rows % 4 == 0 && d.cols % 4 == 0
    ensures AdvancedPreprocess(Some(d)) == Ok(d)
  {
  }

  /** `np.squeeze`: drops every axis of length 1. */
  function Squeeze(dims: seq<int>): (r: seq<int>)
    ensures |r| <= |dims|
    ensures 1 !in r
    ensures forall d :: d != 1 ==> multiset(r)[d] == multiset(dims)[d]
  {
    if |dims| == 0 then []
    else
      assert dims == [dims[0]] + dims[1..];
      if dims[0] == 1 then Squeeze(dims[1..])
      else [dims[0]] + Squeeze(dims[1..])
  }

  /** Squeezing works axis by axis, so the kept axes stay in their original order. */
  lemma {:induction false} SqueezeAppend(a: seq<int>, b: seq<int>)
    ensures Squeeze(a + b) == Squeeze(a) + Squeeze(b)
    decreases |a|
  {
    if |a| > 0 {
      assert (a + b)[0] == a[0];
      assert (a + b)[1..] == a[1..] + b;
      SqueezeAppend(a[1..], b);
    } else {
      assert a + b == b;
    }
  }

  /** A shape without unit axes is left exactly as it is. */
  lemma {:induction false} SqueezeWithoutUnitAxes(dims: seq<int>)
    requires 1 !in dims
    ensures Squeeze(dims) == dims
    decreases |dims|
  {
    if |dims| > 0 {
      assert 1 !in dims[1..] by {
        forall i | 0 <= i < |dims[1..]| ensures dims[1..][i] != 1 {
          assert dims[1..][i] == dims[i + 1];
        }
      }
      SqueezeWithoutUnitAxes(dims[1..]);
    }
  }

  /** Squeezing a batch of one single-channel image leaves its two sides when neither is 1. */
  lemma SqueezeBatchAndChannel(rows: int, cols: int)
    requires rows != 1 && cols != 1
    ensures Squeeze([1, rows, cols, 1]) == [rows, cols]
  {
    assert Squeeze([1]) == [] by { assert [1][1..] == []; }
    assert Squeeze([cols, 1]) == [cols] by { assert [cols, 1][1..] == [1]; }
    assert Squeeze([rows, cols, 1]) == [rows, cols] by { assert [rows, cols, 1][1..] == [cols, 1]; }
    assert [1, rows, cols, 1][1..] == [rows, cols, 1];
  }

  /**
   With any default-built network, a readable image of at least 4 by 4 goes
   through the network as `(1, h', w', 1)` with `h'`, `w'` the rounded sides,
   and comes out as a 2-D image of `4h'` by `4w'` after squeezing.
   */
  lemma DefaultPipelineDims(decoded: Dims, arch: Architecture)
    requires decoded.rows >= 4 && decoded.cols >= 4
    ensures AdvancedPreprocess(Some(decoded)).Ok?
    ensures var p := AdvancedPreprocess(Some(decoded)).value;
      && Build(arch, DefaultScale, DefaultChannels).Some?
      && OutputShape(Build(arch, DefaultScale, DefaultChannels).value, Shape(p.rows, p.cols, 1)) == Some(Shape(4 * p.rows, 4 * p.cols, 1))
      && Squeeze([1, 4 * p.rows, 4 * p.cols, 1]) == [4 * p.rows, 4 * p.cols]
  {
    var p := AdvancedPreprocess(Some(decoded)).value;
    DefaultBuildUpscalesByFour(arch, p.rows, p.cols);
    SqueezeBatchAndChannel(4 * p.rows, 4 * p.cols);
  }

  /** A 255 by 255 image is resized to 252 by 252 and a 260 by 260 image keeps its size. */
  lemma PreprocessScenarios()
    ensures AdvancedPreprocess(Some(Dims(255, 255))) == Ok(Dims(252, 252))
    ensures AdvancedPreprocess(Some(Dims(260, 260))) == Ok(Dims(260, 260))
    ensures AdvancedPreprocess(Some(Dims(3, 300))) == Err(EmptyResize)
  {
  }

  /** `np.clip(x, 0, 1)`. */
  function Clip01(x: real): (y: real)
    ensures 0.0 <= y <= 1.0
    ensures 0.0 <= x <= 1.0 ==> y == x
  {
    if x < 0.0 then 0.0 else if x > 1.0 then 1.0 else x
  }

  /**
   `(np.clip(x, 0, 1) * 255).astype(np.uint8)`: the cast truncates, and the
   clip keeps the product in [0, 255], so the sample is the whole part of it.
   */
  function ToUint8(x: real): (b: int)
    ensures 0 <= b <= 255
    ensures b as real <= Clip01(x) * 255.0 < b as real + 1.0
  {
    (Clip01(x) * 255.0).Floor
  }

  /** Converting a stored 8-bit sample to [0, 1] and back gives the same sample. */
  lemma Uint8RoundTrip(b: int)
    requires 0 <= b <= 255
    ensures ToUint8(b as real / 255.0) == b
  {
    assert Clip01(b as real / 255.0) * 255.0 == b as real;
  }

  /** Brighter network output never gives a darker 8-bit sample. */
  lemma ToUint8Monotone(x: real, y: real)
    requires x <= y
    ensures ToUint8(x) <= ToUint8(y)
  {
    assert Clip01(x) <= Clip01(y);
  }

  /** The clip-and-cast applied to every sample of the squeezed network output. */
  function Quantize(g: seq<seq<real>>): (q: seq<seq<int>>)
    ensures SameDims(q, g) && IsUint8(q)
    ensures forall i, j :: 0 <= i < |g| && 0 <= j < |g[i]| ==>
      q[i][j] as real <= Clip01(g[i][j]) * 255.0 < q[i][j] as real + 1.0
  {
    seq(|g|, i requires 0 <= i < |g| => seq(|g[i]|, j requires 0 <= j < |g[i]| => ToUint8(g[i][j])))
  }

  /** The 3x3 sharpening kernel. */
  const SharpenKernel: seq<seq<int>> := [[-1, -1, -1], [-1, 9, -1], [-1, -1, -1]]

  /** The blend weights of the sharpened and the unsharpened image. */
  const SharpenedWeight: real := 0.8
  const OriginalWeight: real := 0.2

  /** The sum of all coefficients of a kernel. */
  function KernelSum(k: seq<seq<int>>): int
  {
    if |k| == 0 then 0 else RowSum(k[0]) + KernelSum(k[1..])
  }

  function RowSum(row: seq<int>): int
  {
    if |row| == 0 then 0 else row[0] + RowSum(row[1..])
  }

  /** The sharpening kernel's coefficients sum to 1, and so do the two blend weights. */
  lemma KernelAndBlendWeightsSumToOne()
    ensures KernelSum(SharpenKernel) == 1
    ensures SharpenedWeight + OriginalWeight == 1.0
  {
    assert RowSum([-1, -1, -1]) == -3;
    assert RowSum([-1, 9, -1]) == 7;
    assert SharpenKernel[1..][1..][1..] == [];
  }

  /** The OpenCV routines the postprocessor calls. */
  datatype OpenCv = OpenCv(
    filter2D: (seq<seq<int>>, seq<seq<int>>) -> seq<seq<int>>,
    addWeighted: (seq<seq<int>>, real, seq<seq<int>>, real, real) -> seq<seq<int>>,
    equalizeHist: seq<seq<int>> -> seq<seq<int>>)

  /**
   What the postprocessor needs of OpenCV: on 8-bit images each routine
   returns an 8-bit image of its input's size (`filter2D` with depth -1 and
   `addWeighted` saturate to the input depth).
   */
  ghost predicate ShapePreserving(cv: OpenCv)
  {
    && (forall g, k :: IsUint8(g) ==> SameDims(cv.filter2D(g, k), g) && IsUint8(cv.filter2D(g, k)))
    && (forall a, wa, b, wb, gamma :: IsUint8(a) && IsUint8(b) && SameDims(a, b) ==>
          SameDims(cv.addWeighted(a, wa, b, wb, gamma), a) && IsUint8(cv.addWeighted(a, wa, b, wb, gamma)))
    && (forall g :: IsUint8(g) ==> SameDims(cv.equalizeHist(g), g) && IsUint8(cv.equalizeHist(g)))
  }

  /** The two images `process_image_advanced` returns. */
  datatype Postprocessed = Postprocessed(uint8: seq<seq<int>>, final: seq<seq<int>>)

  /**
   The part of `process_image_advanced` after `model.predict` and
   `np.squeeze`: clip, cast to 8 bits, sharpen, blend 0.8/0.2 with the
   unsharpened image, equalize. Both returned images have the network
   output's 2-D shape and only 8-bit samples.
   */
  function PostprocessAdvanced(sr: seq<seq<real>>, cv: OpenCv): (r: Postprocessed)
    requires ShapePreserving(cv)
    ensures SameDims(r.uint8, sr) && SameDims(r.final, sr)
    ensures IsUint8(r.uint8) && IsUint8(r.final)
    ensures forall i, j :: 0 <= i < |sr| && 0 <= j < |sr[i]| ==>
      r.uint8[i][j] as real <= Clip01(sr[i][j]) * 255.0 < r.uint8[i][j] as real + 1.0
  {
    var q := Quantize(sr);
    var sharpened := cv.filter2D(q, SharpenKernel);
    var blended := cv.addWeighted(sharpened, SharpenedWeight, q, OriginalWeight, 0.0);
    Postprocessed(q, cv.equalizeHist(blended))
  }
}
