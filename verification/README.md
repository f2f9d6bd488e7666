# Medical image super-resolution: a Dafny model of the discrete core

MedicalImageImprovement is a small Flask back end plus three Python scripts
that prepare grayscale X-ray images, train 4x super-resolution networks and
run them. This project models the logic those files decide, rather than the
numerics they delegate to TensorFlow and OpenCV:

- **Upload and improve endpoints** (`FileStore`). The upload folder is a map
  from file name to bytes. `upload_file` has three 400 paths and builds a
  unique name from the sanitized file name, a token and the extension.
  `improve_image` has a 400 and a 404 path and stores a byte-identical copy
  as `improved_<name>`. `allowed_file`, `os.path.splitext` and
  `str.rfind` are modelled with Python's exact edge cases, and `str.lower`
  for ASCII letters only (`PyStr`).
- **The three network builders** (`Layers`, `Architectures`), at the level of
  tensor shapes. A network is a list of layers run over a register frame
  that holds the current tensor and the tensors kept for skip connections.
  `Add` requires equal shapes. `Concatenate` sums channels.
  `depth_to_space(b)` needs `b >= 2` and a channel count divisible by `b*b`.
  A bad scale or channel count makes the build fail, shown as `None`.
  A `PReLU` with a slope per position cannot be built on the builders'
  `Input(shape=(None, None, c))`; see the Findings section.
- **`load_model`'s dispatch** (`Architectures.LoadModel`).
- **The inference helpers** (`Inference`):
  - `advanced_preprocess_image` rounds the image size down to multiples of 4,
    and fails on unreadable images and on images too small for that.
  - `process_image_advanced` handles the squeeze, clip and `uint8`
    conversion, then applies the sharpening kernel and blend weights.
- **`preprocess_images`** (`DatasetPrep`): the filter, skipping unreadable
  files, and the high- and low-resolution images written under the input's
  own name.
- **`train_enhanced_model`** (`Training`):
  - the filter and the pairing of the two folders by file name, with
    `target_size` and its quarter;
  - the shuffle-and-split of `create_dataset`;
  - the `medical`/`enhanced` dispatch and checkpoint path of
    `train_single_model`;
  - the early returns and result list of `main`.

Python semantics are explicit where they matter:

- floor division (`PyNum.FloorDiv`);
- `int()` of a float truncates toward zero (`PyNum.Trunc`);
- a negative slice bound counts from the end, then bounds are clamped into `0..n` (`PyNum.SliceIndex`);
- `int(np.log2(s))` is the floor of the base-2 logarithm (`PyNum.Log2Floor`);
- `cv2.resize(img, (width, height))` swaps to `(rows, cols)`.

Three behaviours of the code are easy to miss:

- the images are resized to multiples of 4, not cropped;
- `improve_image` copies the file inside the upload folder and runs no
  network;
- `app.py` never loads a model at all.

## Model

| member | source | states |
|---|---|---|
| PyStr.Lower | backend/app.py:18 | lower-casing keeps the length |
| PyStr.LowerAt | backend/app.py:18 | each character of the lower-cased text is the lower-cased character at the same position |
| PyStr.LowerCharDot | backend/app.py:18 | lower-casing yields a dot exactly from a dot |
| PyStr.RFind | backend/app.py:17-18 | `rfind` returns -1 or an index holding the character, and no occurrence of the character follows it |
| PyStr.RFindAbsent | backend/app.py:17-18 | `rfind` returns -1 exactly when the character does not occur |
| PyStr.RFindIsUnique | backend/app.py:17-18 | an occurrence with none after it is the one `rfind` returns |
| PyStr.RFindAppend | backend/app.py:17-18 | appending text without the character does not move its last occurrence |
| PyStr.OnlyDotsMeaning | backend/app.py:32 | the scan over the base name before the last dot succeeds exactly when every character there is a dot |
| PyStr.SplitExt | backend/app.py:32 | `splitext` cuts the path into a root and an extension that concatenate back to the path; the extension is empty or a dot followed by no further dot or slash |
| PyStr.SplitExtMeaning | backend/app.py:32 | `splitext` finds an extension exactly when a non-dot character lies between the last slash and the last dot, and then the root is everything before the last dot |
| PyStr.SplitExtAt | backend/app.py:32 | when a non-dot character of the base name precedes the last dot, the extension is everything from that dot |
| PyNum.FloorDiv | backend/preprocess_images.py:43 | Python's `//` rounds toward negative infinity for either sign of the divisor |
| PyNum.Trunc | backend/train_enhanced_model.py:87 | `int()` of a float truncates toward zero on both sides of zero |
| PyNum.SliceIndex | backend/train_enhanced_model.py:90-91 | a bound inside `0..n` is kept, a negative bound down to `-n` counts from the end, and bounds beyond either end are clamped to 0 or `n` |
| PyNum.Pow2 | backend/enhanced_model_loader.py:70 | the definition of `2^k`, the scale `k` doubling steps give; every such power is at least 1 |
| PyNum.Log2Floor | backend/enhanced_model_loader.py:70 | `int(np.log2(n))` is the exponent k with `2^k <= n < 2^(k+1)`, for n below 2^49 - 1 where the float logarithm is exact enough |
| PyNum.Pow2Increasing | backend/enhanced_model_loader.py:70 | a larger exponent gives at least twice the power |
| PyNum.Log2FloorExact | backend/enhanced_model_loader.py:70 | `2^int(log2 n)` equals `n` exactly when `n` is a power of two |
| FileStore.AllowedFile | backend/app.py:16-18 | `allowed_file`: a dot is present and the lower-cased text after the last one is in the allow-list; its meaning as a suffix test is `FileStore.AllowedFileBySuffix` |
| FileStore.SuffixGivesLastDot | backend/app.py:16-18 | a name whose lower-cased end is a suffix with a single leading dot has its last dot where that suffix starts, and the lower-cased text after it is the rest of the suffix |
| FileStore.AllowedFileBySuffix | backend/app.py:16-18 | a name is allowed exactly when its lower-cased form ends in `.png`, `.jpg`, `.jpeg` or `.gif` |
| FileStore.ExtensionAfterLastDot | backend/app.py:16-18 | given the position of the last dot, the allow-list decision depends only on the text after it |
| FileStore.UpperCaseExtensionAllowed | backend/app.py:16-18 | `x.PNG` passes: the extension is compared in lower case |
| FileStore.BareExtensionAllowed | backend/app.py:16-18 | `.png` passes, although nothing precedes its dot |
| FileStore.OnlyLastExtensionCounts | backend/app.py:16-18 | `x.png.exe` is refused: only the text after the last dot counts |
| FileStore.NameWithoutDotRefused | backend/app.py:16-18 | `png` is refused: a name without a dot never passes |
| FileStore.UniqueName | backend/app.py:31-33 | the stored name is one separator and the token longer than the sanitized name |
| FileStore.TokenSeparatorIsPlain | backend/app.py:33 | `_` followed by a uuid token holds no dot and no slash |
| FileStore.AppendKeepsNoExtension | backend/app.py:32-33 | appending dot-free, slash-free text to an extensionless name leaves it extensionless |
| FileStore.InsertBeforeExtension | backend/app.py:32-33 | inserting dot-free, slash-free text between root and extension keeps the extension and lengthens the root |
| FileStore.UniqueNameKeepsExtension | backend/app.py:31-33 | the stored name splits into the sanitized root plus `_token` and the original extension, so the upload keeps its file type |
| FileStore.DistinctTokensDistinctNames | backend/app.py:33 | two different tokens never give the same stored name for one upload name |
| FileStore.DotfileUploadLosesExtension | backend/app.py:16-43 | uploading `.png` succeeds, but the stored name has no extension, whether the sanitizer keeps the name or strips its leading dot |
| FileStore.Upload | backend/app.py:20-43 | the three 400 replies leave the folder unchanged; success happens exactly for a present, allowed file; it replies with the unique name, stores the content under it, keeps every other file and grows the folder by one fresh name |
| FileStore.ImprovedName | backend/app.py:57 | the improved name is strictly longer than the original, so it never overwrites its source |
| FileStore.Improve | backend/app.py:45-66 | a missing body or key gives 400, a missing file 404, both with the folder unchanged; otherwise the folder gains `improved_<name>` holding the original's bytes, and every other file, the original included, is unchanged |
| FileStore.ImproveIdempotent | backend/app.py:57-61 | repeating an improve request gives the same folder and reply |
| FileStore.ServeKeepsFilesAndContent | backend/app.py:20-66 | one request never deletes a file, and every stored byte string was already there or was uploaded by that request |
| FileStore.ServeAllKeepsFilesAndContent | backend/app.py:20-66 | over any sequence of requests no file disappears and no content appears that was not uploaded |
| Layers.Step | backend/enhanced_model_loader.py:21-39 | a convolution needs a positive filter count and keeps height and width; `Add` needs the kept tensor to have the current shape; `Concatenate` needs at least two kept inputs of one height and width, the first input's, and the result takes that height and width with the inputs' channels summed; saving keeps the current tensor under its name; activations, normalisation and `PReLU` keep the frame; restoring needs the name to be kept and brings that tensor back; `depth_to_space(b)` needs `b >= 2` and channels divisible by `b*b`, multiplies height and width by `b` and divides channels by `b*b`; kept tensors are never dropped |
| Layers.DepthToSpaceKeepsSamples | backend/enhanced_model_loader.py:39 | `depth_to_space` rearranges values without changing their number |
| Layers.RunAppend | backend/enhanced_model_loader.py:18-41 | running two layer lists in sequence is running their concatenation |
| Layers.RunRepeatFixed | backend/enhanced_model_loader.py:24 | a block that leaves a frame unchanged leaves it unchanged however often it is repeated |
| Layers.RunRepeatSettles | backend/enhanced_model_loader.py:24 | a block that reaches a frame it fixes ends there after one or more repetitions |
| Layers.BuildsForAnySizeAppend | backend/enhanced_model_loader.py:47-73 | two layer lists whose weights can be created on an input of unknown height and width can be built in sequence |
| Layers.BuildsForAnySizeRepeat | backend/enhanced_model_loader.py:55-73 | a block that can be built on an unknown height and width can be repeated any number of times |
| Layers.ResidualBlockKeepsShape | backend/enhanced_model_loader.py:24-29 | a residual block of matching width keeps the tensor shape and always succeeds |
| Layers.ResidualStackKeepsShape | backend/enhanced_model_loader.py:24-29 | any positive number of such blocks keeps the shape |
| Architectures.SubPixelShape | backend/enhanced_model_loader.py:36-39 | the sub-pixel tail succeeds exactly when the scale is at least 2 and there is at least one channel, and then scales height and width by the scale with the requested channels |
| Architectures.EnhancedEspcn | backend/enhanced_model_loader.py:7-41 | the enhanced ESPCN's layers: a 9x9 entry convolution, six 128-wide residual blocks, two 3x3 convolutions and the sub-pixel tail; its shapes are stated by `Architectures.EnhancedEspcnShape` |
| Architectures.EnhancedEspcnShape | backend/enhanced_model_loader.py:7-41 | the enhanced ESPCN maps `h x w x c` to `(h*s) x (w*s) x c`, and fails to build exactly when `s < 2` or `c < 1` |
| Architectures.SrganResidualBlockKeepsShape | backend/enhanced_model_loader.py:55-62 | an SRGAN residual block keeps a 64-channel shape |
| Architectures.UpsampleBlockDoubles | backend/enhanced_model_loader.py:70-73 | one upsampling block doubles height and width and keeps 64 channels |
| Architectures.UpsamplingScales | backend/enhanced_model_loader.py:70-73 | `k` upsampling blocks scale height and width by `2^k` |
| Architectures.SrganHeadShape | backend/enhanced_model_loader.py:50-52 | the entry convolution gives 64 maps of the input's height and width and keeps them as the skip connection |
| Architectures.SrganBodyShape | backend/enhanced_model_loader.py:55-62 | sixteen residual blocks keep a 64-channel shape |
| Architectures.SrganJoinShape | backend/enhanced_model_loader.py:65-67 | the post-residual convolution keeps the shape, so adding the skip connection succeeds |
| Architectures.SrganTrunkShape | backend/enhanced_model_loader.py:47-67 | every input reaches the upsampling stage as 64 maps of its own height and width |
| Architectures.SrganGenerator | backend/enhanced_model_loader.py:43-78 | the SRGAN generator with `PReLU(shared_axes=[1, 2])`, or nothing for a scale below 1, where `int(np.log2(scale))` raises; its shapes are stated by `Architectures.SrganGeneratorShape` |
| Architectures.SrganGeneratorAsWritten | backend/enhanced_model_loader.py:43-78 | the SRGAN generator as written, with `PReLU()` at the default `shared_axes`; `Architectures.SrganAsWrittenNeverBuilds` states that it never builds |
| Architectures.SrganAsWrittenNeverBuilds | backend/enhanced_model_loader.py:47-51 | as written, no scale and channel count give a model: the first `PReLU()` needs a slope per position of an input whose height and width are unknown |
| Architectures.SrganSharedBuilds | backend/enhanced_model_loader.py:43-78 | with one slope per channel, every layer of the generator can be created on an input of unknown size |
| Architectures.SrganLayers | backend/enhanced_model_loader.py:43-78 | the generator's layers for either PReLU: the trunk, `int(log2 s)` upsampling blocks and a 9x9 output convolution |
| Architectures.SrganGeneratorShape | backend/enhanced_model_loader.py:43-78 | for a scale of at least 1 the generator with per-channel PReLU slopes builds; with either PReLU the layers scale by `2^floor(log2 s)`, failing only for zero channels |
| Architectures.SrganScaleExactIffPowerOfTwo | backend/enhanced_model_loader.py:70 | the generator upsamples by exactly the requested scale if and only if that scale is a power of two |
| Architectures.BranchShape | backend/enhanced_model_loader.py:91-100 | each multi-scale branch reads the shared features and keeps a 32-channel tensor of the same height and width |
| Architectures.ThreeBranchesShape | backend/enhanced_model_loader.py:90-100 | the three branches leave three 32-channel tensors of the input's height and width |
| Architectures.ConcatBranchesShape | backend/enhanced_model_loader.py:103 | concatenating the three branches gives 96 channels |
| Architectures.MedicalBranchesShape | backend/enhanced_model_loader.py:90-103 | the multi-scale stage always succeeds with 96 channels at the input's height and width |
| Architectures.MedicalFrontShape | backend/enhanced_model_loader.py:84-103 | the medical front end maps any `h x w x c` input to `h x w x 96` |
| Architectures.MedicalSpecific | backend/enhanced_model_loader.py:80-122 | the medical model's layers: the multi-scale front end, eight 96-wide residual blocks, a 64-map 3x3 convolution and the sub-pixel tail; its shapes are stated by `Architectures.MedicalSpecificShape` |
| Architectures.MedicalSpecificShape | backend/enhanced_model_loader.py:80-122 | the medical model maps `h x w x c` to `(h*s) x (w*s) x c`, and fails to build exactly when `s < 2` or `c < 1` |
| Architectures.DefaultSrganUpscalesByFour | backend/enhanced_model_loader.py:43-78 | the default generator with per-channel PReLU slopes builds, takes two upsampling steps and is a 4x upscaler of one-channel images |
| Architectures.DefaultBuildUpscalesByFour | backend/enhanced_model_loader.py:7-122 | each of the three builders, with its default arguments, is a 4x upscaler of one-channel images |
| Architectures.ArchitectureForTag | backend/enhanced_model_loader.py:139-146 | only `srgan` selects the SRGAN generator and only `medical` the medical model; every other tag falls back to the enhanced ESPCN |
| Architectures.LoadModel | backend/enhanced_model_loader.py:124-146 | an existing file is restored; otherwise `srgan` and `medical` pick their builders and every other tag picks the enhanced ESPCN, the fresh model is exactly that builder's output for scale 4 and one channel, and it maps `h x w x 1` to `4h x 4w x 1` |
| Inference.AdvancedPreprocess | backend/enhanced_model_loader.py:148-172 | unreadable input fails, and so does input under 4 pixels on a side; otherwise each side is rounded down to a multiple of 4, at most 3 pixels smaller and at least 4 |
| Inference.PreprocessKeepsMultiplesOfFour | backend/enhanced_model_loader.py:167-170 | an image whose sides are already multiples of 4 keeps its size |
| Inference.Squeeze | backend/enhanced_model_loader.py:189 | `np.squeeze` drops exactly the unit axes: no 1 is left, and every other axis length keeps its multiplicity |
| Inference.SqueezeAppend | backend/enhanced_model_loader.py:189 | squeezing works axis by axis, so squeezing a concatenation is concatenating the squeezed parts, and the kept axes stay in order |
| Inference.SqueezeWithoutUnitAxes | backend/enhanced_model_loader.py:189 | a shape without unit axes is left unchanged |
| Inference.SqueezeBatchAndChannel | backend/enhanced_model_loader.py:182-189 | squeezing the `(1, rows, cols, 1)` prediction leaves `(rows, cols)` when neither side is 1 |
| Inference.DefaultPipelineDims | backend/enhanced_model_loader.py:174-189 | a readable image of at least 4x4 goes through every default model to a 2-D result four times the preprocessed size |
| Inference.PreprocessScenarios | backend/enhanced_model_loader.py:167-170 | 255x255 becomes 252x252, 260x260 is kept, and 3x300 fails on the empty resize |
| Inference.Clip01 | backend/enhanced_model_loader.py:190 | clipping lands in [0, 1] and leaves values already there alone |
| Inference.ToUint8 | backend/enhanced_model_loader.py:194 | `(x*255).astype(uint8)` on a clipped value is the integer part of `255x`, between 0 and 255 |
| Inference.Uint8RoundTrip | backend/enhanced_model_loader.py:190-194 | every 8-bit value survives dividing by 255 and converting back |
| Inference.ToUint8Monotone | backend/enhanced_model_loader.py:190-194 | the conversion preserves order |
| Inference.Quantize | backend/enhanced_model_loader.py:194 | the 8-bit image has the float image's shape and each sample is the truncated, clipped value times 255 |
| Inference.KernelAndBlendWeightsSumToOne | backend/enhanced_model_loader.py:193-198 | the sharpening kernel's coefficients sum to 1 and the two blend weights sum to 1 |
| Inference.PostprocessAdvanced | backend/enhanced_model_loader.py:188-203 | both returned images have the network output's 2-D shape and only 8-bit samples, and the first is the quantized clipped output |
| DatasetPrep.SizeError | backend/preprocess_images.py:40-44 | the sizes raise nothing exactly when `0 < scale <= img_size`, and a zero scale with a positive image size raises `ZeroDivisionError` |
| DatasetPrep.LowResSide | backend/preprocess_images.py:43 | with valid sizes the low-resolution side lies between 1 and `img_size`, and for a positive scale it is the largest side that fits `scale` times into `img_size` |
| DatasetPrep.PreprocessImages | backend/preprocess_images.py:7-56 | with valid sizes every readable, filtered file is written to both folders under its own name at `size x size` and `(size//scale)` square, and nothing else changes; with invalid sizes the run raises exactly when some file would be processed, and nothing is written |
| DatasetPrep.DefaultSizes | backend/preprocess_images.py:7-43 | the defaults raise nothing and give 64-pixel low-resolution images |
| DatasetPrep.SkippedFilesAreNotWritten | backend/preprocess_images.py:25-37 | a name whose files are all filtered out or unreadable never appears in the output folders |
| DatasetPrep.ProcessableNamesMeaning | backend/preprocess_images.py:25-37 | a name is processed exactly when some file carrying it passes the filter and can be read |
| Training.TrainFilterWithinPrepFilter | backend/train_enhanced_model.py:23-24 | every name the training loader accepts was also accepted by the preparation step |
| Training.TifIsPreparedButNotTrained | backend/train_enhanced_model.py:23-24 | a `.tif` image is prepared but never loaded for training |
| Training.PairFor | backend/train_enhanced_model.py:30-61 | a file becomes a pair exactly when it passes the filter, both folders can decode it and both resizes have positive sizes; the pair has the target size, its floor-quarter and one channel |
| Training.KeptPairs | backend/train_enhanced_model.py:30-61 | the kept pairs come from the listing, each is what its file yields, and every file that yields a pair is present |
| Training.KeptPairsOne | backend/train_enhanced_model.py:30-61 | a one-file listing keeps that file's pair, or nothing when the file yields none |
| Training.KeptPairsAppend | backend/train_enhanced_model.py:30-61 | the kept pairs of two listings in sequence are those of the first followed by those of the second, so listing order is kept |
| Training.YieldingIndicesOfInit | backend/train_enhanced_model.py:30-61 | the positions that yield a pair are those of the listing without its last file, plus the last position when that file yields one |
| Training.KeptPairsCount | backend/train_enhanced_model.py:30-61 | one pair is kept per listed file that yields a pair, no more and no fewer |
| Training.LoadAndPreprocessImages | backend/train_enhanced_model.py:13-75 | the loop collects exactly the kept pairs, one per listed file that yields a pair, and the call raises exactly when there are none |
| Training.PairFitsDefaultModel | backend/train_enhanced_model.py:44-45 | the 4x model maps a pair's input shape exactly onto its target shape if and only if both target sides are multiples of 4 |
| Training.QuarterIsExact | backend/train_enhanced_model.py:44-45 | a side whose quarter rounds down to `q` is exactly `4q` if and only if 4 divides it |
| Training.DefaultTargetPairs | backend/train_enhanced_model.py:13-53 | with the default target, every pair is a 64x64x1 input for a 256x256x1 output |
| Training.PreparedImagesAreLoaded | backend/train_enhanced_model.py:30-53 | every image the preparation step writes with its defaults, under a name the loader accepts, loads back as a 64x64 to 256x256 pair |
| Training.Below | backend/train_enhanced_model.py:82 | the index set `0..n-1` has `n` elements |
| Training.DistinctWithin | backend/train_enhanced_model.py:82 | a sequence without repeats drawn from a set is no longer than the set |
| Training.PermutationCovers | backend/train_enhanced_model.py:82 | a permutation of `0..n-1` contains every index |
| Training.Shuffle | backend/train_enhanced_model.py:83-84 | fancy indexing by the permutation puts sample `perm[i]` at position `i` |
| Training.TrainCount | backend/train_enhanced_model.py:87-90 | the training part never holds more than the `n` samples, and a split of at most 0 keeps all of them for training |
| Training.CreateDataset | backend/train_enhanced_model.py:77-91 | both arrays are shuffled by the same permutation, so pairs stay together; the training part holds the first `n - int(n*split)` shuffled samples and the validation part the rest, which is `floor(n*split)` samples for a split in [0, 1] |
| Training.ValidationCount | backend/train_enhanced_model.py:87-88 | for a split in [0, 1] the validation set holds `floor(n*split)` samples |
| Training.SplitPartitionsSamples | backend/train_enhanced_model.py:82-91 | every sample index lands in exactly one of the training and validation sets |
| Training.DefaultSplitOfTen | backend/train_enhanced_model.py:87-88 | ten pairs split 8/2 under the default 0.2 |
| Training.ModelPath | backend/train_enhanced_model.py:134 | the checkpoint path is 25 characters longer than the type and holds the type from position 16, so the type can be read back from it |
| Training.TrainingArchitecture | backend/train_enhanced_model.py:113-118 | only `medical` and `enhanced` are trained, and each gets the same architecture `load_model` builds for that tag |
| Training.ModelPathInjective | backend/train_enhanced_model.py:134 | different model types never share a checkpoint path |
| Training.TrainSingleModel | backend/train_enhanced_model.py:105-204 | a path is returned exactly for `medical` or `enhanced` when training finishes without an exception, and it is `models/enhanced_<type>_model.h5` |
| Training.TrainedModelFitsPairs | backend/train_enhanced_model.py:113-116 | the network `train_single_model` builds maps each default pair's input shape onto its target shape |
| Training.CollectTrained | backend/train_enhanced_model.py:229-242 | the collected paths are no more than the types tried, and each is the checkpoint path of one of them |
| Training.TrainingMain | backend/train_enhanced_model.py:206-242 | `main` stops early exactly when the data folder is missing or loading raises; otherwise it lists the medical and then the enhanced checkpoint, each present exactly when its training succeeded |
| Training.TrainingMainDistinct | backend/train_enhanced_model.py:229-242 | the summary never lists a checkpoint twice |

## Findings

| source | as written | input that shows it | evidently intended | confidence | as-written member | corrected member |
|---|---|---|---|---|---|---|
| backend/enhanced_model_loader.py:47-51 | every `layers.PReLU()` keeps the default `shared_axes`, so Keras sizes its slope weight as the input shape `(None, None, 64)`, which it cannot create | `create_srgan_generator()` with the defaults, and `load_model(path, "srgan")` with no checkpoint: the first `PReLU()` raises | `PReLU(shared_axes=[1, 2])`, one slope per channel, so the fully convolutional generator builds for any input size | medium; follows Keras's documented weight shape for `PReLU`, not executed | Architectures.SrganAsWrittenNeverBuilds | Architectures.SrganGeneratorShape |

## Left out

- Network weights, training, prediction and every floating-point computation inside TensorFlow are not modelled. Models are described by tensor shapes only, and `model.predict` is represented by the output shape it must have.
- Training outcomes: whether compiling, fitting and plotting finish is a boolean parameter (`completes`) of `Training.TrainSingleModel` and `Training.TrainingMain`, not a computation.
- OpenCV's histogram equalization, Gaussian blur, `filter2D`, `addWeighted` and bicubic resampling are opaque. `Inference.PostprocessAdvanced` takes them as functions assumed to preserve shape and the 8-bit range. Only the sizes `cv2.resize` produces are modelled.
- `secure_filename` and `uuid.uuid4` are parameters: the sanitizer as a function, and the token as any string of hex digits and dashes.
- File-system effects: only the upload folder (`FileStore.Store`) and the two folders `cv2.imwrite` fills (`DatasetPrep.Folders`) are modelled, as maps. `os.makedirs`, the `/api/images/<filename>` route (`send_from_directory`), reading and writing checkpoint files, and the plots are not modelled; a checkpoint appears only as its path. Flask routing, CORS and the 16 MB upload limit are not modelled.
- `FileStore.Improve`: a JSON body whose `filename` is not a string, or is a path reaching outside the upload folder, is not modelled. File names are plain strings. A name that denotes a directory, such as `""` or `"."` (the upload folder itself), exists on disk, so the source goes on to `shutil.copy`, which raises and gives a 500; the model's folder holds only files and replies 404. A request with no JSON body is refused by Flask before the handler runs (415 or 400, by version); the model's `None` body is a JSON `null`.
- `Architectures.LoadModel`: reading a checkpoint, including a corrupt one, is represented only by the path it reads. With no checkpoint and the tag `srgan` it builds the corrected generator, while the code as written raises at enhanced_model_loader.py:51 (see the Findings section).
- `Architectures.SrganGeneratorShape`: its build claim is for the corrected generator (`PReLU(shared_axes=[1, 2])`); the code as written raises for every argument, which `Architectures.SrganAsWrittenNeverBuilds` states.
- `Architectures.DefaultSrganUpscalesByFour`: the 4x generator it describes is the corrected one; as written, `create_srgan_generator()` raises on its first `PReLU()`.
- `Architectures.DefaultBuildUpscalesByFour`: its SRGAN case is the corrected generator; as written, building it raises.
- `Inference.DefaultPipelineDims`: its SRGAN case runs the corrected generator; as written, no SRGAN model can be built without a checkpoint.
- `PyNum.Log2Floor`: the exact floor of the base-2 logarithm; from 2^49 - 1 on, float rounding can make `int(np.log2(n))` one larger, as the next line explains.
- `Architectures.SrganGenerator`: models the corrected generator (see the Findings section). `np.log2` is taken as exact. It is exact for powers of two, but for integers just below a power of two (the first is 2^49 - 1) the float logarithm rounds up to the next integer, so `int(np.log2(n))` is one larger than the model's value.
- `Training.CreateDataset`: `int(n * 0.2)` is computed in exact arithmetic. A float product just below an integer would give one sample fewer in Python. The random draw of `np.random.permutation` is a parameter, and the batching and prefetching of `tf.data` are not modelled.
- `DatasetPrep.PreprocessImages`: pixel values are not modelled. That includes the `/255` and `*255` round trip before `astype(uint8)`.
- `PyStr.Lower` lowers ASCII letters only; Unicode case mapping is not modelled.
- `train_model.py`, `setup_project.py` and the front end are not part of this model.
- `app.py` never loads a model and keeps no model-lifecycle state; none is modelled.
