/**
 `preprocess_images`: every readable image of the input folder is resized to
 a square high-resolution version and a smaller low-resolution version, both
 written under the input file's own name.
 */
module DatasetPrep {
  import opened Results
  import opened PyStr
  import opened PyNum
  import opened Images

  /** The suffixes the input folder is filtered on, after lower-casing. */
  const PrepExtensions: seq<string> := [".png", ".jpg", ".jpeg", ".tif", ".tiff"]

  predicate IsPrepImageName(name: string)
  {
    EndsWithAny(Lower(name), PrepExtensions)
  }

  /** An entry of an input folder and what `cv2.imread` decodes from it (`None` when unreadable). */
  datatype SourceFile = SourceFile(name: string, image: Option<Dims>)

  /** The readable images in the `high_res` and `low_res` folders, by name. */
  datatype Folders = Folders(highRes: map<string, Dims>, lowRes: map<string, Dims>)

  /** The exceptions that abort `preprocess_images`. */
  datatype PrepError =
    /** `cv2.resize` to a non-positive size. */
    | ResizeFailed
    /** `img_size // scale_factor` with a zero factor. */
    | DivisionByZero

  /** The folders as the run leaves them, and the exception that ended it early, if any. */
  datatype PrepOutcome = PrepOutcome(folders: Folders, error: Option<PrepError>)

  /** A file the loop writes: its name passes the filter and it can be read. */
  predicate Processable(f: SourceFile)
  {
    IsPrepImageName(f.name) && f.image.Some?
  }

  /** The names of the processable files. */
  function ProcessableNames(files: seq<SourceFile>): set<string>
  {
    if |files| == 0 then {}
    else (if Processable(files[0]) then {files[0].name} else {}) + ProcessableNames(files[1..])
  }

  /**
   The exception the first processable file raises, which depends only on
   the parameters: the high-resolution resize, then the floor division, then
   the low-resolution resize.
   */
  function SizeError(scale: int, imgSize: int): (e: Option<PrepError>)
    ensures e.None? <==> 0 < scale <= imgSize
    ensures e == Some(DivisionByZero) <==> scale == 0 < imgSize
  {
    if imgSize <= 0 then Some(ResizeFailed)
    else if scale == 0 then Some(DivisionByZero)
    else if FloorDiv(imgSize, scale) <= 0 then Some(ResizeFailed)
    else None
  }

  /** `img_size // scale_factor`, the side of the low-resolution images. */
  function LowResSide(scale: int, imgSize: int): (side: int)
    requires scale != 0
    ensures SizeError(scale, imgSize).None? ==> 1 <= side <= imgSize
    ensures scale > 0 ==> side * scale <= imgSize < side * scale + scale
  {
    if 0 < scale <= imgSize then
      FloorDivWithinDividend(imgSize, scale);
      FloorDiv(imgSize, scale)
    else
      FloorDiv(imgSize, scale)
  }

  /** Dividing by a divisor no larger than the dividend leaves at least 1 and at most the dividend. */
  lemma FloorDivWithinDividend(a: int, b: int)
    requires 0 < b <= a
    ensures 1 <= FloorDiv(a, b) <= a
  {
    var q := FloorDiv(a, b);
    assert q * b > 0;
    assert q >= 1;
    AtMostProduct(q, b);
  }

  /** A positive factor is at most its product with another positive factor. */
  lemma {:induction false} AtMostProduct(q: nat, b: int)
    requires b >= 1
    ensures q <= q * b
    decreases q
  {
    if q > 0 {
      AtMostProduct(q - 1, b);
      assert q * b == (q - 1) * b + b;
    }
  }

  /** `preprocess_images(input_folder, output_folder, scale_factor, img_size)` over the listing `files`. */
  function PreprocessImages(files: seq<SourceFile>, out: Folders, scale: int, imgSize: int): (r: PrepOutcome)
    ensures SizeError(scale, imgSize).Some? ==>
      && r.folders == out
      && (r.error.Some? <==> ProcessableNames(files) != {})
      && (r.error.Some? ==> r.error == SizeError(scale, imgSize))
    ensures SizeError(scale, imgSize).None? ==>
      && r.error.None?
      && (forall n :: n in r.folders.highRes <==> n in out.highRes || n in ProcessableNames(files))
      && (forall n :: n in r.folders.lowRes <==> n in out.lowRes || n in ProcessableNames(files))
      && (forall n :: n in ProcessableNames(files) ==>
            && r.folders.highRes[n] == Dims(imgSize, imgSize)
            && r.folders.lowRes[n] == Dims(LowResSide(scale, imgSize), LowResSide(scale, imgSize)))
      && (forall n :: n in out.highRes && n !in ProcessableNames(files) ==> r.folders.highRes[n] == out.highRes[n])
      && (forall n :: n in out.lowRes && n !in ProcessableNames(files) ==> r.folders.lowRes[n] == out.lowRes[n])
    decreases |files|
  {
    if |files| == 0 then PrepOutcome(out, None)
    else if !Processable(files[0]) then PreprocessImages(files[1..], out, scale, imgSize)
    else if SizeError(scale, imgSize).Some? then PrepOutcome(out, SizeError(scale, imgSize))
    else
      var name := files[0].name;
      var lr := LowResSide(scale, imgSize);
      var written := Folders(out.highRes[name := Dims(imgSize, imgSize)], out.lowRes[name := Dims(lr, lr)]);
      PreprocessImages(files[1..], written, scale, imgSize)
  }

  /** With the defaults (scale 4, size 256) nothing raises and the low-resolution side is 64. */
  lemma DefaultSizes()
    ensures SizeError(4, 256).None?
    ensures LowResSide(4, 256) == 64
  {
  }

  /** An unreadable file, or one the filter rejects, leaves no trace in either output folder. */
  lemma SkippedFilesAreNotWritten(files: seq<SourceFile>, out: Folders, scale: int, imgSize: int, name: string)
    requires forall k :: 0 <= k < |files| && files[k].name == name ==> !Processable(files[k])
    requires name !in out.highRes && name !in out.lowRes
    ensures name !in PreprocessImages(files, out, scale, imgSize).folders.highRes
    ensures name !in PreprocessImages(files, out, scale, imgSize).folders.lowRes
  {
    assert name !in ProcessableNames(files) by { ProcessableNamesMeaning(files, name); }
  }

  /** A name is processable exactly when some processable file carries it. */
  lemma {:induction false} ProcessableNamesMeaning(files: seq<SourceFile>, name: string)
    ensures name in ProcessableNames(files) <==> exists k :: 0 <= k < |files| && files[k].name == name && Processable(files[k])
    decreases |files|
  {
    if |files| > 0 {
      ProcessableNamesMeaning(files[1..], name);
      if name in ProcessableNames(files[1..]) {
        var k :| 0 <= k < |files[1..]| && files[1..][k].name == name && Processable(files[1..][k]);
        assert files[k + 1] == files[1..][k];
      }
      if exists k :: 0 <= k < |files| && files[k].name == name && Processable(files[k]) {
        var k :| 0 <= k < |files| && files[k].name == name && Processable(files[k]);
        if k > 0 {
          assert files[1..][k - 1] == files[k];
        }
      }
    }
  }
}
