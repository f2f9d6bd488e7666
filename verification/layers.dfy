/**
 The shape structure of a Keras functional model. A model is a list of layers
 run against a frame holding the current tensor `x` and the tensors the
 builder keeps in Python variables (`residual`, `skip_connection`, `branch1`,
 ...). Only shapes are tracked: weights, activations and normalisation are
 numerics that never change a shape.
 */
module Layers {
  import opened Results

  /** Height, width and channel count of a tensor, without the batch axis. */
  datatype Shape = Shape(height: nat, width: nat, channels: nat)

  datatype Layer =
    /** `Conv2D(filters, kernel_size, padding="same")`, stride 1, with or without a fused activation. */
    | Conv(filters: int, kernel: nat)
    /** `Activation` or `BatchNormalization`: element-wise, shape-preserving. */
    | Pointwise
    /**
     `PReLU`: element-wise and shape-preserving once built. With `sharedSpatial`
     (`shared_axes=[1, 2]`) it holds one slope per channel; without it (the
     default `shared_axes=None`) it holds one slope per position, so its
     weight needs a known height and width.
     */
    | Prelu(sharedSpatial: bool)
    /** `name = x`: keep the current tensor for later use. */
    | Save(name: string)
    /** Continue from a kept tensor (a second branch reading the same input). */
    | Restore(name: string)
    /** `x = Add()([x, name])`. */
    | Add(name: string)
    /** `x = Concatenate()([names...])` along the channel axis. */
    | Concat(names: seq<string>)
    /** `x = tf.nn.depth_to_space(x, block)`. */
    | DepthToSpace(block: int)

  /** The current tensor and the tensors kept under names. */
  datatype Frame = Frame(x: Shape, kept: map<string, Shape>)

  /** The frame a model starts from: its input tensor and nothing kept. */
  function Start(input: Shape): Frame
  {
    Frame(input, map[])
  }

  /** Every named tensor is kept and all have height `h` and width `w`. */
  predicate SameSpatial(names: seq<string>, kept: map<string, Shape>, h: nat, w: nat)
  {
    forall i :: 0 <= i < |names| ==> names[i] in kept && kept[names[i]].height == h && kept[names[i]].width == w
  }

  /** The total channel count of the named kept tensors. */
  function ChannelSum(names: seq<string>, kept: map<string, Shape>): nat
    requires forall i :: 0 <= i < |names| ==> names[i] in kept
  {
    if |names| == 0 then 0 else kept[names[0]].channels + ChannelSum(names[1..], kept)
  }

  /**
   The shape effect of one layer, or `None` where Keras or TensorFlow
   rejects the layer: a convolution needs a positive filter count, `Add` needs
   both operands of one shape, `Concatenate` needs at least two kept inputs of
   one height and width (the current tensor plays no part), and `depth_to_space` needs a block of at least 2 that
   divides the channels into `block * block` groups. Whether a layer's weights
   can be created on an input of unknown size is `BuildsForAnySize`.
   */
  function Step(layer: Layer, f: Frame): (r: Option<Frame>)
    ensures r.Some? ==> r.value.kept.Keys >= f.kept.Keys
    ensures layer.Add? ==> (r.Some? <==> layer.name in f.kept && f.kept[layer.name] == f.x)
    ensures layer.Add? && r.Some? ==> r.value.x == f.x
    ensures layer.Concat? ==> (r.Some? <==> (
      && |layer.names| >= 2
      && layer.names[0] in f.kept
      && SameSpatial(layer.names, f.kept, f.kept[layer.names[0]].height, f.kept[layer.names[0]].width)))
    ensures layer.Concat? && r.Some? ==>
      && r.value.x.height == f.kept[layer.names[0]].height
      && r.value.x.width == f.kept[layer.names[0]].width
      && r.value.x.channels == ChannelSum(layer.names, f.kept)
    ensures layer.Save? ==> r.Some? && r.value.x == f.x && layer.name in r.value.kept && r.value.kept[layer.name] == f.x
    ensures layer.Restore? ==> (r.Some? <==> layer.name in f.kept)
    ensures layer.Restore? && r.Some? ==> r.value.x == f.kept[layer.name]
    ensures layer.Pointwise? || layer.Prelu? ==> r == Some(f)
    ensures layer.DepthToSpace? ==> (r.Some? <==> layer.block >= 2 && f.x.channels % (layer.block * layer.block) == 0)
    ensures layer.DepthToSpace? && r.Some? ==>
      r.value.x.height == f.x.height * layer.block && r.value.x.width == f.x.width * layer.block
      && r.value.x.channels * layer.block * layer.block == f.x.channels
    ensures layer.Conv? ==> (r.Some? <==> layer.filters > 0)
    ensures layer.Conv? && r.Some? ==> r.value.x == Shape(f.x.height, f.x.width, layer.filters)
  {
    match layer
    case Conv(filters, _) =>
      if filters > 0 then Some(Frame(Shape(f.x.height, f.x.width, filters), f.kept)) else None
    case Pointwise => Some(f)
    case Prelu(_) => Some(f)
    case Save(name) => Some(Frame(f.x, f.kept[name := f.x]))
    case Restore(name) => if name in f.kept then Some(Frame(f.kept[name], f.kept)) else None
    case Add(name) => if name in f.kept && f.kept[name] == f.x then Some(f) else None
    case Concat(names) =>
      if |names| >= 2 && names[0] in f.kept then
        var first := f.kept[names[0]];
        if SameSpatial(names, f.kept, first.height, first.width) then
          Some(Frame(Shape(first.height, first.width, ChannelSum(names, f.kept)), f.kept))
        else None
      else None
    case DepthToSpace(b) =>
      if b >= 2 && f.x.channels % (b * b) == 0 then
        Some(Frame(Shape(f.x.height * b, f.x.width * b, f.x.channels / (b * b)), f.kept))
      else None
  }

  /** `depth_to_space` only rearranges samples: their number is unchanged. */
  lemma DepthToSpaceKeepsSamples(f: Frame, b: int)
    requires Step(DepthToSpace(b), f).Some?
    ensures var y := Step(DepthToSpace(b), f).value.x;
      y.height * y.width * y.channels == f.x.height * f.x.width * f.x.channels
  {
    var y := Step(DepthToSpace(b), f).value.x;
    calc {
      y.height * y.width * y.channels;
      (f.x.height * b) * (f.x.width * b) * y.channels;
      { assert (f.x.height * b) * (f.x.width * b) * y.channels == f.x.height * f.x.width * (y.channels * b * b); }
      f.x.height * f.x.width * (y.channels * b * b);
    }
  }

  /** Runs the layers in order; `None` as soon as one is rejected. */
  function Run(layers: seq<Layer>, f: Frame): Option<Frame>
    decreases |layers|
  {
    if |layers| == 0 then Some(f)
    else
      match Step(layers[0], f)
      case None => None
      case Some(g) => Run(layers[1..], g)
  }

  /** The output shape of a model applied to an input shape, or `None` when it cannot be built. */
  function OutputShape(layers: seq<Layer>, input: Shape): Option<Shape>
  {
    match Run(layers, Start(input))
    case None => None
    case Some(f) => Some(f.x)
  }

  /** Running two layer lists one after the other is running their concatenation. */
  lemma {:induction false} RunAppend(a: seq<Layer>, b: seq<Layer>, f: Frame)
    ensures Run(a + b, f) == (match Run(a, f) case None => None case Some(g) => Run(b, g))
    decreases |a|
  {
    if |a| > 0 {
      assert (a + b)[0] == a[0];
      assert (a + b)[1..] == a[1..] + b;
      match Step(a[0], f)
      case None =>
        assert Run(a + b, f) == None;
        assert Run(a, f) == None;
      case Some(g) =>
        assert Run(a + b, f) == Run(a[1..] + b, g);
        assert Run(a, f) == Run(a[1..], g);
        RunAppend(a[1..], b, g);
    } else {
      assert a + b == b;
    }
  }

  /** `block` repeated `n` times: the builders' `for i in range(n)` loops. */
  function Repeat(block: seq<Layer>, n: nat): seq<Layer>
  {
    if n == 0 then [] else block + Repeat(block, n - 1)
  }

  /**
   Whether Keras can create every layer's weights when the model input is
   `Input(shape=(None, None, c))`. Convolutions, normalisation, `Add`,
   `Concatenate` and `depth_to_space` keep an unknown height and width
   unknown, so every layer sees them unknown, and only a `PReLU` with a slope
   per position cannot be built.
   */
  predicate BuildsForAnySize(layers: seq<Layer>)
  {
    forall i :: 0 <= i < |layers| ==> layers[i] != Prelu(false)
  }

  /** Two layer lists that build on any size build in sequence. */
  lemma BuildsForAnySizeAppend(a: seq<Layer>, b: seq<Layer>)
    requires BuildsForAnySize(a) && BuildsForAnySize(b)
    ensures BuildsForAnySize(a + b)
  {
    forall i | 0 <= i < |a + b|
      ensures (a + b)[i] != Prelu(false)
    {
      if i >= |a| {
        assert (a + b)[i] == b[i - |a|];
      }
    }
  }

  /** A block that builds on any size does so however often it is repeated. */
  lemma {:induction false} BuildsForAnySizeRepeat(block: seq<Layer>, n: nat)
    requires BuildsForAnySize(block)
    ensures BuildsForAnySize(Repeat(block, n))
  {
    if n > 0 {
      BuildsForAnySizeRepeat(block, n - 1);
      BuildsForAnySizeAppend(block, Repeat(block, n - 1));
    }
  }

  /** A block that leaves a frame unchanged leaves it unchanged however often it is repeated. */
  lemma {:induction false} RunRepeatFixed(block: seq<Layer>, n: nat, f: Frame)
    requires Run(block, f) == Some(f)
    ensures Run(Repeat(block, n), f) == Some(f)
  {
    if n > 0 {
      RunAppend(block, Repeat(block, n - 1), f);
      RunRepeatFixed(block, n - 1, f);
    }
  }

  /** Running a block maps `f` to `g`, and `g` to itself: any number of repetitions ends in `g`. */
  lemma RunRepeatSettles(block: seq<Layer>, n: nat, f: Frame, g: Frame)
    requires n >= 1
    requires Run(block, f) == Some(g) && Run(block, g) == Some(g)
    ensures Run(Repeat(block, n), f) == Some(g)
  {
    RunAppend(block, Repeat(block, n - 1), f);
    RunRepeatFixed(block, n - 1, g);
  }

  /**
   A residual block of `width` channels: `residual = x`, two convolutions,
   `Add()([x, residual])`, then an activation.
   */
  function ResidualBlock(width: int): seq<Layer>
  {
    [Save("residual"), Conv(width, 3), Conv(width, 3), Add("residual"), Pointwise]
  }

  /** On a `width`-channel tensor the residual block's `Add` joins equal shapes, and the shape is kept. */
  lemma ResidualBlockKeepsShape(width: int, f: Frame)
    requires width > 0 && f.x.channels == width
    ensures Run(ResidualBlock(width), f) == Some(Frame(f.x, f.kept["residual" := f.x]))
  {
    var g := Frame(f.x, f.kept["residual" := f.x]);
    var block := ResidualBlock(width);
    assert Run(block[5..], g) == Some(g);
    assert Run(block[4..], g) == Some(g) by { assert block[4..][1..] == block[5..]; }
    assert Run(block[3..], g) == Some(g) by { assert block[3..][1..] == block[4..]; }
    assert Run(block[2..], g) == Some(g) by { assert block[2..][1..] == block[3..]; }
    assert Run(block[1..], g) == Some(g) by { assert block[1..][1..] == block[2..]; }
    assert Step(block[0], f) == Some(g);
  }

  /** Any number (at least one) of residual blocks keeps the tensor shape. */
  lemma ResidualStackKeepsShape(width: int, n: nat, f: Frame)
    requires n >= 1 && width > 0 && f.x.channels == width
    ensures Run(Repeat(ResidualBlock(width), n), f) == Some(Frame(f.x, f.kept["residual" := f.x]))
  {
    var g := Frame(f.x, f.kept["residual" := f.x]);
    ResidualBlockKeepsShape(width, f);
    ResidualBlockKeepsShape(width, g);
    assert g.kept["residual" := g.x] == g.kept;
    RunRepeatSettles(ResidualBlock(width), n, f, g);
  }
}
