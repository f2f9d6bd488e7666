/**
 `train_enhanced_model`: pairs the prepared high- and low-resolution images
 by file name, shuffles and splits them into training and validation sets,
 and trains the medical and the enhanced architectures in turn.
 */
module Training {
  import opened Results
  import opened PyStr
  import opened PyNum
  import opened Layers
  import opened Architectures
  import opened DatasetPrep

  /** The suffixes the `high_res` listing is filtered on, after lower-casing. */
  const TrainExtensions: seq<string> := [".png", ".jpg", ".jpeg"]

  predicate IsTrainImageName(name: string)
  {
    EndsWithAny(Lower(name), TrainExtensions)
  }

  /** Every name the training loader accepts was also accepted by the preparation step. */
  lemma TrainFilterWithinPrepFilter(name: string)
    ensures IsTrainImageName(name) ==> IsPrepImageName(name)
  {
    if IsTrainImageName(name) {
      var k :| 0 <= k < |TrainExtensions| && EndsWith(Lower(name), TrainExtensions[k]);
      assert PrepExtensions[k] == TrainExtensions[k];
    }
  }

  /** A `.tif` image is prepared but never loaded for training. */
  lemma TifIsPreparedButNotTrained()
    ensures IsPrepImageName("scan.tif")
    ensures !IsTrainImageName("scan.tif")
  {
    assert Lower("scan.tif") == "scan.tif";
    assert EndsWith(Lower("scan.tif"), PrepExtensions[3]);
  }

  /** The `target_size` argument, in `cv2.resize`'s (width, height) order. */
  datatype TargetSize = TargetSize(width: int, height: int)

  const DefaultTarget := TargetSize(256, 256)

  /** One training example: the shared file name and the shapes of its low- and high-resolution arrays. */
  datatype Pair = Pair(name: string, lr: Shape, hr: Shape)

  /**
   What one file of the listing contributes: nothing when the filter rejects
   it, when either folder cannot decode it, or when a resize raises (a
   non-positive size, caught and skipped); otherwise a pair with the target
   size and its quarter, each with one channel.
   */
  function PairFor(name: string, data: Folders, target: TargetSize): (r: Option<Pair>)
    ensures r.Some? <==>
      && IsTrainImageName(name)
      && name in data.highRes && name in data.lowRes
      && target.width >= 4 && target.height >= 4
    ensures r.Some? ==>
      && r.value.name == name
      && r.value.hr == Shape(target.height, target.width, 1)
      && 4 * r.value.lr.height <= target.height < 4 * r.value.lr.height + 4
      && 4 * r.value.lr.width <= target.width < 4 * r.value.lr.width + 4
      && r.value.lr.channels == 1
  {
    if !IsTrainImageName(name) then None
    else if name !in data.highRes || name !in data.lowRes then None
    else if target.width <= 0 || target.height <= 0 then None
    else
      var lrWidth := FloorDiv(target.width, 4);
      var lrHeight := FloorDiv(target.height, 4);
      if lrWidth <= 0 || lrHeight <= 0 then None
      else Some(Pair(name, Shape(lrHeight, lrWidth, 1), Shape(target.height, target.width, 1)))
  }

  /** The pairs kept from a listing, in listing order. */
  function KeptPairs(listing: seq<string>, data: Folders, target: TargetSize): (r: seq<Pair>)
    ensures |r| <= |listing|
    ensures forall k :: 0 <= k < |r| ==> r[k].name in listing && PairFor(r[k].name, data, target) == Some(r[k])
    ensures forall i :: 0 <= i < |listing| && PairFor(listing[i], data, target).Some? ==> PairFor(listing[i], data, target).value in r
    decreases |listing|
  {
    if |listing| == 0 then []
    else
      var init := listing[..|listing| - 1];
      var last := listing[|listing| - 1];
      assert forall i :: 0 <= i < |init| ==> init[i] == listing[i];
      KeptPairs(init, data, target) + (match PairFor(last, data, target) case None => [] case Some(p) => [p])
  }

  /** The pair one listed file contributes: none, or the one `PairFor` yields. */
  lemma KeptPairsOne(name: string, data: Folders, target: TargetSize)
    ensures KeptPairs([name], data, target)
      == if PairFor(name, data, target).Some? then [PairFor(name, data, target).value] else []
  {
    assert [name][..0] == [];
  }

  /** The pairs of a listing split in two are those of the first part followed by those of the second. */
  lemma {:induction false} KeptPairsAppend(a: seq<string>, b: seq<string>, data: Folders, target: TargetSize)
    ensures KeptPairs(a + b, data, target) == KeptPairs(a, data, target) + KeptPairs(b, data, target)
    decreases |b|
  {
    if |b| == 0 {
      assert a + b == a;
    } else {
      var init := b[..|b| - 1];
      assert (a + b)[..|a + b| - 1] == a + init;
      assert (a + b)[|a + b| - 1] == b[|b| - 1];
      KeptPairsAppend(a, init, data, target);
    }
  }

  /** The positions of the listing whose file yields a pair. */
  function YieldingIndices(listing: seq<string>, data: Folders, target: TargetSize): set<int>
  {
    set i | 0 <= i < |listing| && PairFor(listing[i], data, target).Some?
  }

  /** One pair is kept per listed file that yields one: `successful_pairs` counts them. */
  lemma {:induction false} KeptPairsCount(listing: seq<string>, data: Folders, target: TargetSize)
    ensures |KeptPairs(listing, data, target)| == |YieldingIndices(listing, data, target)|
    decreases |listing|
  {
    if |listing| > 0 {
      var init := listing[..|listing| - 1];
      KeptPairsCount(init, data, target);
      YieldingIndicesOfInit(listing, data, target);
    }
  }

  /** The yielding positions of a listing are those of all but its last file, plus the last when it yields. */
  lemma YieldingIndicesOfInit(listing: seq<string>, data: Folders, target: TargetSize)
    requires |listing| > 0
    ensures var n := |listing|;
      var before := YieldingIndices(listing[..n - 1], data, target);
      && n - 1 !in before
      && YieldingIndices(listing, data, target)
         == before + (if PairFor(listing[n - 1], data, target).Some? then {n - 1} else {})
  {
    var n := |listing|;
    var init := listing[..n - 1];
    var all := YieldingIndices(listing, data, target);
    var before := YieldingIndices(init, data, target);
    var last: set<int> := if PairFor(listing[n - 1], data, target).Some? then {n - 1} else {};
    forall i | i in all
      ensures i in before + last
    {
      if i < n - 1 {
        assert init[i] == listing[i];
      }
    }
    forall i | i in before + last
      ensures i in all
    {
      if i in before {
        assert init[i] == listing[i];
      }
    }
  }

  /** Why `load_and_preprocess_images` raises. */
  datatype LoadError = NoValidPairs

  /** `load_and_preprocess_images(data_dir, target_size)` over the `high_res` listing. */
  method LoadAndPreprocessImages(listing: seq<string>, data: Folders, target: TargetSize) returns (r: Result<seq<Pair>, LoadError>)
    ensures r.Err? <==> KeptPairs(listing, data, target) == []
    ensures r.Ok? ==> r.value == KeptPairs(listing, data, target)
    ensures r.Ok? ==> |r.value| == |YieldingIndices(listing, data, target)| > 0
  {
    var pairs: seq<Pair> := [];
    var successful := 0;
    for i := 0 to |listing|
      invariant pairs == KeptPairs(listing[..i], data, target)
      invariant successful == |pairs|
    {
      assert listing[..i + 1][..i] == listing[..i];
      match PairFor(listing[i], data, target)
      case None =>
      case Some(p) =>
        pairs := pairs + [p];
        successful := successful + 1;
    }
    assert listing[..|listing|] == listing;
    if successful == 0 {
      return Err(NoValidPairs);
    }
    KeptPairsCount(listing, data, target);
    return Ok(pairs);
  }

  /**
   A kept pair fits the networks it trains: the 4x model maps its
   low-resolution shape exactly onto its high-resolution shape when, and only
   when, both target sides are multiples of 4.
   */
  lemma PairFitsDefaultModel(name: string, data: Folders, target: TargetSize, arch: Architecture)
    requires PairFor(name, data, target).Some?
    ensures Build(arch, DefaultScale, DefaultChannels).Some?
    ensures var p := PairFor(name, data, target).value;
      OutputShape(Build(arch, DefaultScale, DefaultChannels).value, p.lr) == Some(p.hr)
      <==> target.width % 4 == 0 && target.height % 4 == 0
  {
    var p := PairFor(name, data, target).value;
    DefaultBuildUpscalesByFour(arch, p.lr.height, p.lr.width);
    assert p.lr == Shape(p.lr.height, p.lr.width, 1);
    QuarterIsExact(target.height, p.lr.height);
    QuarterIsExact(target.width, p.lr.width);
  }

  /** A side `t` whose quarter rounds down to `q` is exactly `4 * q` when, and only when, 4 divides it. */
  lemma QuarterIsExact(t: int, q: int)
    requires 4 * q <= t < 4 * q + 4
    ensures t == 4 * q <==> t % 4 == 0
  {
    if t % 4 == 0 {
      assert t == 4 * (t / 4);
    }
  }

  /** With the default target every kept pair is a 64x64 input for a 256x256 output. */
  lemma DefaultTargetPairs(name: string, data: Folders)
    requires PairFor(name, data, DefaultTarget).Some?
    ensures PairFor(name, data, DefaultTarget).value.lr == Shape(64, 64, 1)
    ensures PairFor(name, data, DefaultTarget).value.hr == Shape(256, 256, 1)
  {
  }

  /**
   What the preparation step writes with its defaults is loaded back as a
   training pair, provided its name also passes the narrower training filter.
   */
  lemma PreparedImagesAreLoaded(files: seq<SourceFile>, name: string)
    requires name in ProcessableNames(files)
    requires IsTrainImageName(name)
    ensures PairFor(name, PreprocessImages(files, Folders(map[], map[]), 4, 256).folders, DefaultTarget)
            == Some(Pair(name, Shape(64, 64, 1), Shape(256, 256, 1)))
  {
    DefaultSizes();
  }

  // ----- create_dataset -----

  /** `indices` is a permutation of `0 .. n-1`: the right length, in range, without repeats. */
  predicate IsPermutation(perm: seq<int>, n: nat)
  {
    && |perm| == n
    && (forall i :: 0 <= i < n ==> 0 <= perm[i] < n)
    && (forall i, j :: 0 <= i < j < n ==> perm[i] != perm[j])
  }

  /** The integers `0 .. n-1`. */
  function Below(n: nat): (r: set<int>)
    ensures |r| == n
    ensures forall k :: k in r <==> 0 <= k < n
  {
    if n == 0 then {} else Below(n - 1) + {n - 1}
  }

  /** A sequence without repeats drawn from `b` is no longer than `b` is large. */
  lemma {:induction false} DistinctWithin(s: seq<int>, b: set<int>)
    requires forall i, j :: 0 <= i < j < |s| ==> s[i] != s[j]
    requires forall i :: 0 <= i < |s| ==> s[i] in b
    ensures |s| <= |b|
    decreases |s|
  {
    if |s| > 0 {
      var last := s[|s| - 1];
      DistinctWithin(s[..|s| - 1], b - {last});
    }
  }

  /** By pigeonhole, a permutation of `0 .. n-1` hits every index. */
  lemma PermutationCovers(perm: seq<int>, n: nat)
    requires IsPermutation(perm, n)
    ensures forall k :: 0 <= k < n ==> k in perm
  {
    forall k | 0 <= k < n
      ensures k in perm
    {
      if k !in perm {
        DistinctWithin(perm, Below(n) - {k});
        assert false;
      }
    }
  }

  /** `lr_images[indices]`. */
  function Shuffle<T>(s: seq<T>, perm: seq<int>): (r: seq<T>)
    requires forall i :: 0 <= i < |perm| ==> 0 <= perm[i] < |s|
    ensures |r| == |perm|
    ensures forall i :: 0 <= i < |perm| ==> r[i] == s[perm[i]]
  {
    seq(|perm|, i requires 0 <= i < |perm| => s[perm[i]])
  }

  /** The four arrays `create_dataset` batches. */
  datatype Split<T> = Split(lrTrain: seq<T>, lrVal: seq<T>, hrTrain: seq<T>, hrVal: seq<T>)

  /** `train_size = n - int(n * validation_split)`, clamped as a slice bound. */
  function TrainCount(n: nat, split: real): (t: nat)
    ensures t <= n
    ensures split <= 0.0 ==> t == n
  {
    SliceIndex(n, n - Trunc(n as real * split))
  }

  /** `create_dataset(lr_images, hr_images, validation_split=split)` for the permutation `perm` drawn by numpy. */
  function CreateDataset<T>(lr: seq<T>, hr: seq<T>, perm: seq<int>, split: real): (r: Split<T>)
    requires |lr| == |hr|
    requires IsPermutation(perm, |lr|)
    ensures |r.lrTrain| == |r.hrTrain| == TrainCount(|lr|, split)
    ensures |r.lrVal| == |r.hrVal| == |lr| - TrainCount(|lr|, split)
    ensures forall i :: 0 <= i < |r.lrTrain| ==> r.lrTrain[i] == lr[perm[i]] && r.hrTrain[i] == hr[perm[i]]
    ensures forall i :: 0 <= i < |r.lrVal| ==>
      r.lrVal[i] == lr[perm[|r.lrTrain| + i]] && r.hrVal[i] == hr[perm[|r.lrTrain| + i]]
    ensures 0.0 <= split <= 1.0 ==> |r.lrVal| == (|lr| as real * split).Floor
  {
    var n := |lr|;
    var lrs := Shuffle(lr, perm);
    var hrs := Shuffle(hr, perm);
    var t := TrainCount(n, split);
    ValidationCount(n, split);
    Split(lrs[..t], lrs[t..], hrs[..t], hrs[t..])
  }

  /** For a split in [0, 1], the validation set holds `floor(n * split)` samples. */
  lemma ValidationCount(n: nat, split: real)
    ensures 0.0 <= split <= 1.0 ==> n - TrainCount(n, split) == (n as real * split).Floor
  {
    if 0.0 <= split <= 1.0 {
      var x := n as real * split;
      assert 0.0 <= x <= n as real by {
        assert n as real * (1.0 - split) >= 0.0;
        assert n as real * split >= 0.0;
      }
      var v := Trunc(x);
      assert 0 <= v <= n;
    }
  }

  /**
   Every sample lands in exactly one of the two sets: the training indices
   `perm[..t]` and the validation indices `perm[t..]` partition `0 .. n-1`.
   */
  lemma SplitPartitionsSamples(perm: seq<int>, n: nat, split: real, k: int)
    requires IsPermutation(perm, n)
    requires 0 <= k < n
    ensures var t := TrainCount(n, split);
      (k in perm[..t]) != (k in perm[t..])
  {
    var t := TrainCount(n, split);
    PermutationCovers(perm, n);
    assert perm == perm[..t] + perm[t..];
    assert k in perm[..t] + perm[t..];
    forall i, j | 0 <= i < t && 0 <= j < n - t
      ensures perm[..t][i] != perm[t..][j]
    {
      assert perm[..t][i] == perm[i] && perm[t..][j] == perm[t + j];
    }
  }

  /** Ten pairs with the default 0.2 split give eight training and two validation samples. */
  lemma DefaultSplitOfTen()
    ensures TrainCount(10, 0.2) == 8
  {
    assert (10 as real * 0.2) == 2.0;
  }

  // ----- train_single_model and main -----

  /** The architecture `train_single_model` builds for a type, or `None` for the `ValueError`. */
  function TrainingArchitecture(modelType: string): (r: Option<Architecture>)
    ensures r.Some? <==> modelType == "medical" || modelType == "enhanced"
    ensures r.Some? ==> r.value == ArchitectureForTag(modelType)
  {
    if modelType == "medical" then Some(Medical)
    else if modelType == "enhanced" then Some(Enhanced)
    else None
  }

  /** The checkpoint path of a model type. */
  function ModelPath(modelType: string): (p: string)
    ensures |p| == |modelType| + 25
    ensures p[16..16 + |modelType|] == modelType
  {
    "models/enhanced_" + modelType + "_model.h5"
  }

  /** Different model types never share a checkpoint. */
  lemma ModelPathInjective(a: string, b: string)
    requires ModelPath(a) == ModelPath(b)
    ensures a == b
  {
    var p := "models/enhanced_";
    var s := "_model.h5";
    assert a == ModelPath(a)[|p|..|ModelPath(a)| - |s|];
    assert b == ModelPath(b)[|p|..|ModelPath(b)| - |s|];
  }

  /**
   `train_single_model`: the checkpoint path, or `None` when any step raises.
   `completes` says whether compiling, splitting, fitting and plotting finish
   without an exception.
   */
  function TrainSingleModel(modelType: string, completes: bool): (r: Option<string>)
    ensures r.Some? <==> (modelType == "medical" || modelType == "enhanced") && completes
    ensures r.Some? ==> r.value == ModelPath(modelType)
  {
    match TrainingArchitecture(modelType)
    case None => None
    case Some(_) => if completes then Some(ModelPath(modelType)) else None
  }

  /** The model a successful `train_single_model` trains maps every kept pair's input onto its target shape. */
  lemma TrainedModelFitsPairs(modelType: string, name: string, data: Folders)
    requires TrainingArchitecture(modelType).Some?
    requires PairFor(name, data, DefaultTarget).Some?
    ensures var p := PairFor(name, data, DefaultTarget).value;
      OutputShape(Build(TrainingArchitecture(modelType).value, DefaultScale, DefaultChannels).value, p.lr) == Some(p.hr)
  {
    PairFitsDefaultModel(name, data, DefaultTarget, TrainingArchitecture(modelType).value);
  }

  /** The model types `main` trains, in order. */
  const ModelsToTrain: seq<string> := ["medical", "enhanced"]

  /** The loop of `main`: the paths of the runs that succeeded, in order. */
  function CollectTrained(types: seq<string>, completes: string -> bool): (paths: seq<string>)
    ensures |paths| <= |types|
    ensures forall i :: 0 <= i < |paths| ==> exists j :: 0 <= j < |types| && paths[i] == ModelPath(types[j])
    decreases |types|
  {
    if |types| == 0 then []
    else
      var rest := CollectTrained(types[1..], completes);
      assert forall i :: 0 <= i < |rest| ==> exists j :: 0 <= j < |types| && rest[i] == ModelPath(types[j]) by {
        forall i | 0 <= i < |rest|
          ensures exists j :: 0 <= j < |types| && rest[i] == ModelPath(types[j])
        {
          var j :| 0 <= j < |types[1..]| && rest[i] == ModelPath(types[1..][j]);
          assert types[1..][j] == types[j + 1];
        }
      }
      match TrainSingleModel(types[0], completes(types[0]))
      case Some(p) => [p] + rest
      case None => rest
  }

  /**
   `main`: `None` when it returns early (no data folder, or loading raised),
   otherwise the list of trained checkpoints.
   */
  function TrainingMain(dataExists: bool, loaded: Result<seq<Pair>, LoadError>, completes: string -> bool): (r: Option<seq<string>>)
    ensures r.Some? <==> dataExists && loaded.Ok?
    ensures r.Some? ==> |r.value| <= |ModelsToTrain|
    ensures r.Some? ==>
      r.value == (if completes("medical") then [ModelPath("medical")] else [])
                 + (if completes("enhanced") then [ModelPath("enhanced")] else [])
  {
    if !dataExists then None
    else if loaded.Err? then None
    else Some(CollectTrained(ModelsToTrain, completes))
  }

  /** The summary of `main` never lists a checkpoint twice. */
  lemma TrainingMainDistinct(dataExists: bool, loaded: Result<seq<Pair>, LoadError>, completes: string -> bool)
    requires TrainingMain(dataExists, loaded, completes).Some?
    ensures var paths := TrainingMain(dataExists, loaded, completes).value;
      forall i, j :: 0 <= i < j < |paths| ==> paths[i] != paths[j]
  {
    if ModelPath("medical") == ModelPath("enhanced") {
      ModelPathInjective("medical", "enhanced");
    }
  }
}
