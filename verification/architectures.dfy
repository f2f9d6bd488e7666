/**
 The three super-resolution networks and `load_model`'s choice among them,
 as layer lists whose shapes the `Layers` machine propagates.
 */
module Architectures {
  import opened Results
  import opened Layers
  import opened PyNum

  /** The builders' default `scale_factor` and `channels`, which `load_model` relies on. */
  const DefaultScale: int := 4
  const DefaultChannels: nat := 1

  /**
   Sub-pixel reconstruction: a convolution to `channels * scale**2` maps,
   then `depth_to_space(scale)`.
   */
  function SubPixel(scale: int, channels: nat): seq<Layer>
  {
    [Conv(channels * (scale * scale), 3), DepthToSpace(scale)]
  }

  /** A multiple of a positive `k` divides evenly by `k`, giving back the multiplier. */
  lemma MultipleDivides(c: int, k: int)
    requires k > 0
    ensures (c * k) % k == 0 && (c * k) / k == c
  {
    var q, r := (c * k) / k, (c * k) % k;
    assert 0 <= r < k;
    assert c * k == q * k + r;
    var d := c - q;
    assert d * k == c * k - q * k;
  }

  /** Multiplying by a common non-zero factor is injective. */
  lemma CancelFactor(a: int, b: int, k: int)
    requires k != 0 && a * k == b * k
    ensures a == b
  {
    assert (a - b) * k == 0;
  }

  /** `channels * scale**2` maps rearranged by `scale` give `channels` maps at `scale` times the size. */
  lemma SubPixelShape(scale: int, channels: nat, f: Frame)
    ensures Run(SubPixel(scale, channels), f).Some? <==> scale >= 2 && channels >= 1
    ensures Run(SubPixel(scale, channels), f).Some? ==>
      Run(SubPixel(scale, channels), f).value.x == Shape(f.x.height * scale, f.x.width * scale, channels)
  {
    var layers := SubPixel(scale, channels);
    var sq := scale * scale;
    var filters := channels * sq;
    assert layers[1..][1..] == [];
    assert sq >= 0;
    assert scale != 0 ==> sq > 0;
    if channels >= 1 && scale != 0 {
      assert filters >= sq > 0;
      var g := Frame(Shape(f.x.height, f.x.width, filters), f.kept);
      assert Step(layers[0], f) == Some(g);
      assert Run(layers, f) == Run([DepthToSpace(scale)], g);
      assert [DepthToSpace(scale)][1..] == [];
      assert Run([DepthToSpace(scale)], g) == Step(DepthToSpace(scale), g);
      if scale >= 2 {
        MultipleDivides(channels, sq);
        var y := Step(DepthToSpace(scale), g).value.x;
        assert y.channels * scale * scale == filters;
        CancelFactor(y.channels, channels, sq);
      }
    } else {
      assert filters == 0;
    }
  }

  /** `create_enhanced_espcn_model(scale_factor, channels)`. */
  function EnhancedEspcn(scale: int, channels: nat): seq<Layer>
  {
    [Conv(128, 9)]
    + Repeat(ResidualBlock(128), 6)
    + [Conv(64, 3), Conv(32, 3)]
    + SubPixel(scale, channels)
  }

  /**
   The enhanced ESPCN maps an `(H, W, channels)` input to `(H*s, W*s, channels)`,
   every residual `Add` joining two 128-channel tensors of one size; it cannot
   be built when `s < 2` or `channels == 0`.
   */
  lemma {:induction false} EnhancedEspcnShape(scale: int, channels: nat, h: nat, w: nat)
    ensures OutputShape(EnhancedEspcn(scale, channels), Shape(h, w, channels))
      == if scale >= 2 && channels >= 1 then Some(Shape(h * scale, w * scale, channels)) else None
  {
    var f0 := Start(Shape(h, w, channels));
    var f1 := Frame(Shape(h, w, 128), map[]);
    var f2 := Frame(Shape(h, w, 128), map["residual" := Shape(h, w, 128)]);
    var f3 := Frame(Shape(h, w, 32), f2.kept);
    var head, body, mid, tail := [Conv(128, 9)], Repeat(ResidualBlock(128), 6), [Conv(64, 3), Conv(32, 3)], SubPixel(scale, channels);
    assert EnhancedEspcn(scale, channels) == head + (body + (mid + tail));
    assert Run(head, f0) == Some(f1) by { assert head[1..] == []; }
    ResidualStackKeepsShape(128, 6, f1);
    assert Run(mid, f2) == Some(f3) by {
      assert mid[1..][1..] == [];
      assert Step(mid[0], f2) == Some(Frame(Shape(h, w, 64), f2.kept));
    }
    RunAppend(head, body + (mid + tail), f0);
    RunAppend(body, mid + tail, f1);
    RunAppend(mid, tail, f2);
    SubPixelShape(scale, channels, f3);
  }

  /**
   One SRGAN residual block: two convolutions with normalisation, PReLU
   between them, then `Add`. `shared` says whether PReLU shares its slopes
   across height and width.
   */
  function SrganResidualBlock(shared: bool): seq<Layer>
  {
    [Save("residual"), Conv(64, 3), Pointwise, Prelu(shared), Conv(64, 3), Pointwise, Add("residual")]
  }

  /** One SRGAN upsampling step: a 256-map convolution, `depth_to_space(2)` and PReLU. */
  function UpsampleBlock(shared: bool): seq<Layer>
  {
    [Conv(256, 3), DepthToSpace(2), Prelu(shared)]
  }

  /** The SRGAN entry: the 9x9 convolution with PReLU, kept as the skip connection. */
  function SrganHead(shared: bool): seq<Layer>
  {
    [Conv(64, 9), Prelu(shared), Save("skip_connection")]
  }

  /** The post-residual convolution and normalisation, and the `Add` of the skip connection. */
  function SrganJoin(): seq<Layer>
  {
    [Conv(64, 3), Pointwise, Add("skip_connection")]
  }

  /** The SRGAN trunk: the entry, sixteen residual blocks and the join. */
  function SrganTrunk(shared: bool): seq<Layer>
  {
    SrganHead(shared) + Repeat(SrganResidualBlock(shared), 16) + SrganJoin()
  }

  /** The generator's layers once `int(np.log2(scale_factor))` has succeeded. */
  function SrganLayers(scale: int, channels: nat, shared: bool): seq<Layer>
    requires scale >= 1
  {
    SrganTrunk(shared) + Repeat(UpsampleBlock(shared), Log2Floor(scale)) + [Conv(channels, 9)]
  }

  /**
   Building the generator: `None` when `int(np.log2(scale_factor))` raises,
   which it does for `scale_factor < 1`, or when some PReLU cannot create its
   weight on the input's unknown height and width.
   */
  function SrganBuild(scale: int, channels: nat, shared: bool): Option<seq<Layer>>
  {
    if scale < 1 || !BuildsForAnySize(SrganLayers(scale, channels, shared)) then None
    else Some(SrganLayers(scale, channels, shared))
  }

  /** `create_srgan_generator(scale_factor, channels)` as written: every `PReLU()` keeps the default `shared_axes`. */
  function SrganGeneratorAsWritten(scale: int, channels: nat): Option<seq<Layer>>
  {
    SrganBuild(scale, channels, false)
  }

  /** The generator with `PReLU(shared_axes=[1, 2])`, one slope per channel, as the builders use it. */
  function SrganGenerator(scale: int, channels: nat): Option<seq<Layer>>
  {
    SrganBuild(scale, channels, true)
  }

  /** As written, the first PReLU already has a slope per position, so no argument builds. */
  lemma SrganAsWrittenNeverBuilds(scale: int, channels: nat)
    ensures SrganGeneratorAsWritten(scale, channels) == None
  {
    if scale >= 1 {
      var trunk := SrganTrunk(false);
      var rest := Repeat(UpsampleBlock(false), Log2Floor(scale)) + [Conv(channels, 9)];
      assert trunk[1] == Prelu(false);
      assert SrganLayers(scale, channels, false) == trunk + rest;
      assert (trunk + rest)[1] == trunk[1];
    }
  }

  /** With per-channel PReLU slopes every layer of the generator can be built. */
  lemma SrganSharedBuilds(scale: int, channels: nat)
    requires scale >= 1
    ensures BuildsForAnySize(SrganLayers(scale, channels, true))
  {
    var ups := Repeat(UpsampleBlock(true), Log2Floor(scale));
    BuildsForAnySizeRepeat(SrganResidualBlock(true), 16);
    BuildsForAnySizeRepeat(UpsampleBlock(true), Log2Floor(scale));
    BuildsForAnySizeAppend(SrganHead(true), Repeat(SrganResidualBlock(true), 16));
    BuildsForAnySizeAppend(SrganHead(true) + Repeat(SrganResidualBlock(true), 16), SrganJoin());
    BuildsForAnySizeAppend(SrganTrunk(true), ups);
    BuildsForAnySizeAppend(SrganTrunk(true) + ups, [Conv(channels, 9)]);
  }

  /** On a 64-channel tensor the SRGAN residual block joins equal shapes and keeps the shape. */
  lemma SrganResidualBlockKeepsShape(shared: bool, f: Frame)
    requires f.x.channels == 64
    ensures Run(SrganResidualBlock(shared), f) == Some(Frame(f.x, f.kept["residual" := f.x]))
  {
    var b := SrganResidualBlock(shared);
    var g := Frame(f.x, f.kept["residual" := f.x]);
    assert Run(b, f) == Run(b[1..], g);
    assert Run(b[1..], g) == Run(b[2..], g);
    assert Run(b[2..], g) == Run(b[3..], g);
    assert Run(b[3..], g) == Run(b[4..], g);
    assert Run(b[4..], g) == Run(b[5..], g);
    assert Run(b[5..], g) == Run(b[6..], g);
    assert Run(b[6..], g) == Run(b[7..], g);
    assert b[7..] == [];
  }

  /** Each upsampling step turns 64 maps into 256 and back into 64 at twice the height and width. */
  lemma UpsampleBlockDoubles(shared: bool, f: Frame)
    requires f.x.channels == 64
    ensures Run(UpsampleBlock(shared), f) == Some(Frame(Shape(2 * f.x.height, 2 * f.x.width, 64), f.kept))
  {
    var b := UpsampleBlock(shared);
    var g := Frame(Shape(f.x.height, f.x.width, 256), f.kept);
    var d := Frame(Shape(f.x.height * 2, f.x.width * 2, 64), f.kept);
    assert Step(b[0], f) == Some(g);
    assert Step(b[1], g) == Some(d);
    assert Step(b[2], d) == Some(d);
    assert Run(b, f) == Run(b[1..], g);
    assert Run(b[1..], g) == Run(b[1..][1..], d);
    assert Run(b[1..][1..], d) == Run(b[1..][1..][1..], d);
    assert b[1..][1..][1..] == [];
    assert d == Frame(Shape(2 * f.x.height, 2 * f.x.width, 64), f.kept);
  }

  /** `k` upsampling steps multiply the height and width by `2**k`. */
  lemma {:induction false} UpsamplingScales(shared: bool, k: nat, f: Frame)
    requires f.x.channels == 64
    ensures Run(Repeat(UpsampleBlock(shared), k), f)
      == Some(Frame(Shape(f.x.height * Pow2(k), f.x.width * Pow2(k), 64), f.kept))
  {
    if k > 0 {
      var g := Frame(Shape(2 * f.x.height, 2 * f.x.width, 64), f.kept);
      UpsampleBlockDoubles(shared, f);
      RunAppend(UpsampleBlock(shared), Repeat(UpsampleBlock(shared), k - 1), f);
      UpsamplingScales(shared, k - 1, g);
      assert 2 * f.x.height * Pow2(k - 1) == f.x.height * Pow2(k);
      assert 2 * f.x.width * Pow2(k - 1) == f.x.width * Pow2(k);
    }
  }

  /** The SRGAN entry gives 64 maps of the input's height and width and keeps them as the skip connection. */
  lemma SrganHeadShape(shared: bool, f: Frame)
    ensures var s64 := Shape(f.x.height, f.x.width, 64);
      Run(SrganHead(shared), f) == Some(Frame(s64, f.kept["skip_connection" := s64]))
  {
    var b := SrganHead(shared);
    var g := Frame(Shape(f.x.height, f.x.width, 64), f.kept);
    assert Step(b[0], f) == Some(g);
    assert Step(b[1], g) == Some(g);
    assert Run(b, f) == Run(b[1..], g);
    assert Run(b[1..], g) == Run(b[1..][1..], g);
    var kept := Frame(g.x, g.kept["skip_connection" := g.x]);
    assert Step(b[2], g) == Some(kept);
    assert Run(b[1..][1..], g) == Run(b[1..][1..][1..], kept);
    assert b[1..][1..][1..] == [];
  }

  /** Sixteen SRGAN residual blocks on a 64-channel tensor keep its shape. */
  lemma SrganBodyShape(shared: bool, f: Frame)
    requires f.x.channels == 64
    ensures Run(Repeat(SrganResidualBlock(shared), 16), f) == Some(Frame(f.x, f.kept["residual" := f.x]))
  {
    var g := Frame(f.x, f.kept["residual" := f.x]);
    SrganResidualBlockKeepsShape(shared, f);
    SrganResidualBlockKeepsShape(shared, g);
    assert g.kept["residual" := g.x] == g.kept;
    RunRepeatSettles(SrganResidualBlock(shared), 16, f, g);
  }

  /** The join adds the kept skip connection back to a tensor of its shape. */
  lemma SrganJoinShape(f: Frame)
    requires f.x.channels == 64 && "skip_connection" in f.kept && f.kept["skip_connection"] == f.x
    ensures Run(SrganJoin(), f) == Some(f)
  {
  }

  /** The SRGAN trunk turns `(H, W, c)` into 64 maps of `H` by `W`, every `Add` joining equal shapes. */
  lemma SrganTrunkShape(shared: bool, channels: nat, h: nat, w: nat)
    ensures Run(SrganTrunk(shared), Start(Shape(h, w, channels)))
      == Some(Frame(Shape(h, w, 64), map["skip_connection" := Shape(h, w, 64), "residual" := Shape(h, w, 64)]))
  {
    var s64 := Shape(h, w, 64);
    var f0 := Start(Shape(h, w, channels));
    var f1 := Frame(s64, map["skip_connection" := s64]);
    var f2 := Frame(s64, f1.kept["residual" := s64]);
    var head := SrganHead(shared);
    var body := Repeat(SrganResidualBlock(shared), 16);
    var join := SrganJoin();
    assert SrganTrunk(shared) == head + (body + join);
    SrganHeadShape(shared, f0);
    SrganBodyShape(shared, f1);
    SrganJoinShape(f2);
    RunAppend(head, body + join, f0);
    RunAppend(body, join, f1);
  }

  /**
   The SRGAN generator builds for every scale of at least 1 and scales height
   and width by `2**floor(log2 s)`, which is `s` itself only when `s` is a
   power of two, ending with `channels` maps. The layers as written have the
   same shapes; they only fail to build.
   */
  lemma {:induction false} SrganGeneratorShape(shared: bool, scale: int, channels: nat, h: nat, w: nat)
    requires scale >= 1
    ensures SrganGenerator(scale, channels) == Some(SrganLayers(scale, channels, true))
    ensures OutputShape(SrganLayers(scale, channels, shared), Shape(h, w, channels))
      == if channels >= 1 then Some(Shape(h * Pow2(Log2Floor(scale)), w * Pow2(Log2Floor(scale)), channels)) else None
  {
    var k := Log2Floor(scale);
    var s64 := Shape(h, w, 64);
    var f0 := Start(Shape(h, w, channels));
    var f2 := Frame(s64, map["skip_connection" := s64, "residual" := s64]);
    var ups := Repeat(UpsampleBlock(shared), k);
    var last := [Conv(channels, 9)];
    SrganSharedBuilds(scale, channels);
    assert SrganLayers(scale, channels, shared) == SrganTrunk(shared) + (ups + last);
    SrganTrunkShape(shared, channels, h, w);
    UpsamplingScales(shared, k, f2);
    RunAppend(SrganTrunk(shared), ups + last, f0);
    RunAppend(ups, last, f2);
    assert last[1..] == [];
  }

  /** The total SRGAN factor equals the requested scale exactly for powers of two. */
  lemma SrganScaleExactIffPowerOfTwo(scale: int, channels: nat, h: nat, w: nat)
    requires scale >= 1 && channels >= 1 && h >= 1
    ensures SrganGenerator(scale, channels) == Some(SrganLayers(scale, channels, true))
    ensures OutputShape(SrganLayers(scale, channels, true), Shape(h, w, channels)) == Some(Shape(h * scale, w * scale, channels))
      <==> IsPowerOfTwo(scale)
  {
    SrganGeneratorShape(true, scale, channels, h, w);
    Log2FloorExact(scale);
    var p := Pow2(Log2Floor(scale));
    if h * p == h * scale {
      CancelFactor(p, scale, h);
    }
  }

  /** One branch of the medical model: two convolutions of one kernel size reading `x`. */
  function Branch(kernel: nat, name: string): seq<Layer>
  {
    [Restore("x"), Conv(32, kernel), Conv(32, kernel), Save(name)]
  }

  /** A branch reads the kept `x` and keeps a 32-channel tensor of the same height and width. */
  lemma BranchShape(kernel: nat, name: string, f: Frame)
    requires "x" in f.kept
    ensures Run(Branch(kernel, name), f)
      == Some(Frame(Shape(f.kept["x"].height, f.kept["x"].width, 32), f.kept[name := Shape(f.kept["x"].height, f.kept["x"].width, 32)]))
  {
    var b := Branch(kernel, name);
    var s32 := Shape(f.kept["x"].height, f.kept["x"].width, 32);
    var y := Frame(s32, f.kept[name := s32]);
    var g := Frame(s32, f.kept);
    assert Run(b[4..], y) == Some(y);
    assert Run(b[3..], g) == Some(y) by { assert b[3..][1..] == b[4..]; }
    assert Run(b[2..], g) == Some(y) by { assert b[2..][1..] == b[3..]; }
    assert Step(b[1], Frame(f.kept["x"], f.kept)) == Some(g);
    assert Run(b[1..], Frame(f.kept["x"], f.kept)) == Some(y) by { assert b[1..][1..] == b[2..]; }
  }

  /** The three branches, each reading the kept `x`, run one after another. */
  lemma ThreeBranchesShape(f: Frame)
    requires "x" in f.kept
    ensures var s32 := Shape(f.kept["x"].height, f.kept["x"].width, 32);
      Run(Branch(3, "branch1") + Branch(5, "branch2") + Branch(7, "branch3"), f)
        == Some(Frame(s32, f.kept["branch1" := s32]["branch2" := s32]["branch3" := s32]))
  {
    var s32 := Shape(f.kept["x"].height, f.kept["x"].width, 32);
    var k1 := f.kept["branch1" := s32];
    var k2 := k1["branch2" := s32];
    assert Branch(3, "branch1") + Branch(5, "branch2") + Branch(7, "branch3")
      == Branch(3, "branch1") + (Branch(5, "branch2") + Branch(7, "branch3"));
    BranchShape(3, "branch1", f);
    BranchShape(5, "branch2", Frame(s32, k1));
    BranchShape(7, "branch3", Frame(s32, k2));
    RunAppend(Branch(3, "branch1"), Branch(5, "branch2") + Branch(7, "branch3"), f);
    RunAppend(Branch(5, "branch2"), Branch(7, "branch3"), Frame(s32, k1));
  }

  /** Concatenating three kept 32-channel tensors of one size gives 96 channels of that size. */
  lemma ConcatBranchesShape(s32: Shape, kept: map<string, Shape>)
    requires s32.channels == 32
    requires "branch1" in kept && "branch2" in kept && "branch3" in kept
    requires kept["branch1"] == s32 && kept["branch2"] == s32 && kept["branch3"] == s32
    ensures Run([Concat(["branch1", "branch2", "branch3"])], Frame(s32, kept))
      == Some(Frame(Shape(s32.height, s32.width, 96), kept))
  {
    var names := ["branch1", "branch2", "branch3"];
    assert ChannelSum(names[1..][1..][1..], kept) == 0;
    assert ChannelSum(names[1..][1..], kept) == 32;
    assert ChannelSum(names[1..], kept) == 64;
    assert ChannelSum(names, kept) == 96;
    assert SameSpatial(names, kept, s32.height, s32.width);
  }

  /** The medical model's three parallel branches and their concatenation. */
  function MedicalBranches(): seq<Layer>
  {
    Branch(3, "branch1") + Branch(5, "branch2") + Branch(7, "branch3") + [Concat(["branch1", "branch2", "branch3"])]
  }

  /** Concatenating the three 32-channel branches gives 96 channels at the size of `x`. */
  lemma MedicalBranchesShape(f: Frame)
    requires "x" in f.kept
    ensures Run(MedicalBranches(), f).Some?
    ensures Run(MedicalBranches(), f).value.x == Shape(f.kept["x"].height, f.kept["x"].width, 96)
  {
    var s32 := Shape(f.kept["x"].height, f.kept["x"].width, 32);
    var k3 := f.kept["branch1" := s32]["branch2" := s32]["branch3" := s32];
    ThreeBranchesShape(f);
    ConcatBranchesShape(s32, k3);
    RunAppend(Branch(3, "branch1") + Branch(5, "branch2") + Branch(7, "branch3"), [Concat(["branch1", "branch2", "branch3"])], f);
  }

  /** `create_medical_specific_model(scale_factor, channels)`. */
  function MedicalSpecific(scale: int, channels: nat): seq<Layer>
  {
    [Conv(64, 7), Save("x")]
    + MedicalBranches()
    + Repeat(ResidualBlock(96), 8)
    + [Conv(64, 3)]
    + SubPixel(scale, channels)
  }

  /** The medical model's first convolution and branches turn `(H, W, c)` into 96 channels of `H` by `W`. */
  lemma {:induction false} MedicalFrontShape(h: nat, w: nat, channels: nat)
    ensures Run([Conv(64, 7), Save("x")] + MedicalBranches(), Start(Shape(h, w, channels))).Some?
    ensures Run([Conv(64, 7), Save("x")] + MedicalBranches(), Start(Shape(h, w, channels))).value.x == Shape(h, w, 96)
  {
    var f0 := Start(Shape(h, w, channels));
    var s64 := Shape(h, w, 64);
    var f1 := Frame(s64, map["x" := s64]);
    var head := [Conv(64, 7), Save("x")];
    assert Run(head, f0) == Some(f1) by {
      assert head[1..][1..] == [];
      assert Step(head[0], f0) == Some(Frame(s64, map[]));
    }
    MedicalBranchesShape(f1);
    RunAppend(head, MedicalBranches(), f0);
  }

  /**
   The medical model maps `(H, W, channels)` to `(H*s, W*s, channels)`: the
   96 concatenated channels match the 96-channel residual blocks, so every
   `Add` is well-shaped; it cannot be built when `s < 2` or `channels == 0`.
   */
  lemma {:induction false} MedicalSpecificShape(scale: int, channels: nat, h: nat, w: nat)
    ensures OutputShape(MedicalSpecific(scale, channels), Shape(h, w, channels))
      == if scale >= 2 && channels >= 1 then Some(Shape(h * scale, w * scale, channels)) else None
  {
    var f0 := Start(Shape(h, w, channels));
    var front, body, mid, tail := [Conv(64, 7), Save("x")] + MedicalBranches(), Repeat(ResidualBlock(96), 8), [Conv(64, 3)], SubPixel(scale, channels);
    assert MedicalSpecific(scale, channels) == front + (body + (mid + tail));
    MedicalFrontShape(h, w, channels);
    var f2 := Run(front, f0).value;
    ResidualStackKeepsShape(96, 8, f2);
    var f3 := Frame(f2.x, f2.kept["residual" := f2.x]);
    var f4 := Frame(Shape(h, w, 64), f3.kept);
    assert Run(mid, f3) == Some(f4) by { assert mid[1..] == []; }
    RunAppend(front, body + (mid + tail), f0);
    RunAppend(body, mid + tail, f2);
    RunAppend(mid, tail, f3);
    SubPixelShape(scale, channels, f4);
  }

  /** The architectures `load_model` can build. */
  datatype Architecture = Enhanced | Srgan | Medical

  /** Builds an architecture; `None` when its builder raises before returning. */
  function Build(arch: Architecture, scale: int, channels: nat): Option<seq<Layer>>
  {
    match arch
    case Enhanced => Some(EnhancedEspcn(scale, channels))
    case Srgan => SrganGenerator(scale, channels)
    case Medical => Some(MedicalSpecific(scale, channels))
  }

  /** Every architecture built with the defaults is a 4x upscaler of single-channel images. */
  lemma DefaultBuildUpscalesByFour(arch: Architecture, h: nat, w: nat)
    ensures Build(arch, DefaultScale, DefaultChannels).Some?
    ensures OutputShape(Build(arch, DefaultScale, DefaultChannels).value, Shape(h, w, 1)) == Some(Shape(4 * h, 4 * w, 1))
  {
    assert Shape(h * 4, w * 4, 1) == Shape(4 * h, 4 * w, 1);
    match arch
    case Enhanced => EnhancedEspcnShape(4, 1, h, w);
    case Medical => MedicalSpecificShape(4, 1, h, w);
    case Srgan => DefaultSrganUpscalesByFour(h, w);
  }

  /** The default SRGAN generator takes two upsampling steps, a factor of exactly 4. */
  lemma DefaultSrganUpscalesByFour(h: nat, w: nat)
    ensures SrganGenerator(4, 1) == Some(SrganLayers(4, 1, true))
    ensures OutputShape(SrganLayers(4, 1, true), Shape(h, w, 1)) == Some(Shape(4 * h, 4 * w, 1))
  {
    var p := Pow2(Log2Floor(4));
    assert p == 4 by {
      assert Log2Floor(4) == 2 by { assert Log2Floor(2) == 1; }
      assert Pow2(2) == 4 by { assert Pow2(1) == 2; }
    }
    assert Shape(h * p, w * p, 1) == Shape(4 * h, 4 * w, 1);
    SrganGeneratorShape(true, 4, 1, h, w);
  }

  /** The architecture `load_model` builds for a tag; unknown tags fall back to the enhanced ESPCN. */
  function ArchitectureForTag(modelType: string): (a: Architecture)
    ensures a == Srgan <==> modelType == "srgan"
    ensures a == Medical <==> modelType == "medical"
  {
    if modelType == "enhanced" then Enhanced
    else if modelType == "srgan" then Srgan
    else if modelType == "medical" then Medical
    else Enhanced
  }

  /** What `load_model` returns: the model saved at the path, or a freshly built one. */
  datatype LoadedModel = Restored(path: string) | Fresh(arch: Architecture, layers: seq<Layer>)

  /**
   `load_model(model_path, model_type)`: `pathExists` is `os.path.exists(model_path)`.
   A missing checkpoint is not an error: a new, untrained model of the tagged
   architecture is built with the default scale and channels.
   */
  function LoadModel(modelPath: string, pathExists: bool, modelType: string): (m: LoadedModel)
    ensures pathExists ==> m == Restored(modelPath)
    ensures !pathExists ==> m.Fresh?
    ensures !pathExists && modelType == "srgan" ==> m.arch == Srgan
    ensures !pathExists && modelType == "medical" ==> m.arch == Medical
    ensures !pathExists && modelType != "srgan" && modelType != "medical" ==> m.arch == Enhanced
    ensures !pathExists ==> forall h: nat, w: nat :: OutputShape(m.layers, Shape(h, w, 1)) == Some(Shape(4 * h, 4 * w, 1))
    ensures m.Fresh? ==> Build(m.arch, DefaultScale, DefaultChannels) == Some(m.layers)
  {
    if pathExists then Restored(modelPath)
    else
      var arch := ArchitectureForTag(modelType);
      DefaultBuildUpscalesByFour(arch, 0, 0);
      assert forall h: nat, w: nat :: OutputShape(Build(arch, DefaultScale, DefaultChannels).value, Shape(h, w, 1)) == Some(Shape(4 * h, 4 * w, 1)) by {
        forall h: nat, w: nat ensures OutputShape(Build(arch, DefaultScale, DefaultChannels).value, Shape(h, w, 1)) == Some(Shape(4 * h, 4 * w, 1)) {
          DefaultBuildUpscalesByFour(arch, h, w);
        }
      }
      Fresh(arch, Build(arch, DefaultScale, DefaultChannels).value)
  }
}
