/**
 The upload folder of the web backend as a state machine over a map from
 file name to file bytes. Uploads store a copy under a collision-proofed name;
 "improving" a stored image stores a byte-identical copy under a derived name
 in the same folder.
 */
module FileStore {
  import opened Results
  import opened PyStr

  type Bytes = seq<bv8>

  /** The upload folder: file name to file contents. */
  type Store = map<string, Bytes>

  /** The extensions the upload handler accepts, compared in lower case. */
  const AllowedExtensions: set<string> := {"png", "jpg", "jpeg", "gif"}

  /** The prefix of the name an improved copy is stored under. */
  const ImprovedPrefix: string := "improved_"

  /**
   `allowed_file`: the name contains a dot and the text after the LAST dot,
   lower-cased, is an allowed extension.
   */
  predicate AllowedFile(filename: string)
  {
    '.' in filename && Lower(filename[RFind(filename, '.') + 1..]) in AllowedExtensions
  }

  /** The allowed extensions as the suffixes they make, dot included. */
  const AllowedSuffixes: seq<string> := [".png", ".jpg", ".jpeg", ".gif"]

  /**
   A name whose last `|suffix|` characters lower-case to `suffix`, a suffix
   that starts with its only dot, has its last dot where that suffix starts.
   */
  lemma SuffixGivesLastDot(filename: string, suffix: string)
    requires 1 <= |suffix| <= |filename| && suffix[0] == '.'
    requires forall j :: 0 < j < |suffix| ==> suffix[j] != '.'
    requires forall j :: 0 <= j < |suffix| ==> LowerChar(filename[|filename| - |suffix| + j]) == suffix[j]
    ensures RFind(filename, '.') == |filename| - |suffix|
    ensures Lower(filename[|filename| - |suffix| + 1..]) == suffix[1..]
  {
    var i := |filename| - |suffix|;
    assert LowerChar(filename[i + 0]) == suffix[0];
    LowerCharDot(filename[i]);
    forall j | i < j < |filename|
      ensures filename[j] != '.'
    {
      assert LowerChar(filename[i + (j - i)]) == suffix[j - i];
      LowerCharDot(filename[j]);
    }
    RFindIsUnique(filename, '.', i);
    forall k | 0 <= k < |suffix| - 1
      ensures LowerChar(filename[i + 1 + k]) == suffix[1..][k]
    {
      assert LowerChar(filename[i + (k + 1)]) == suffix[k + 1];
    }
    LowerOfTail(filename, i + 1, suffix[1..]);
  }

  /**
   `allowed_file` accepts exactly the names whose lower-cased form ends in
   ".png", ".jpg", ".jpeg" or ".gif".
   */
  lemma AllowedFileBySuffix(filename: string)
    ensures AllowedFile(filename) <==> EndsWithAny(Lower(filename), AllowedSuffixes)
  {
    if AllowedFile(filename) {
      AllowedFileHasSuffix(filename);
    }
    if EndsWithAny(Lower(filename), AllowedSuffixes) {
      var k :| 0 <= k < |AllowedSuffixes| && EndsWith(Lower(filename), AllowedSuffixes[k]);
      SuffixMakesAllowedFile(filename, k);
    }
  }

  /** The "only if" half of `AllowedFileBySuffix`. */
  lemma AllowedFileHasSuffix(filename: string)
    requires AllowedFile(filename)
    ensures EndsWithAny(Lower(filename), AllowedSuffixes)
  {
    var i := RFind(filename, '.');
    RFindAbsent(filename, '.');
    EndsWithDotExtension(filename, i);
    var k := ExtensionSuffix(Lower(filename[i + 1..]));
    assert EndsWith(Lower(filename), AllowedSuffixes[k]);
  }

  /** The "if" half of `AllowedFileBySuffix`. */
  lemma SuffixMakesAllowedFile(filename: string, k: int)
    requires 0 <= k < |AllowedSuffixes| && EndsWith(Lower(filename), AllowedSuffixes[k])
    ensures AllowedFile(filename)
  {
    AllowedSuffixShape(k);
    LowerEndsWithAt(filename, AllowedSuffixes[k]);
    SuffixGivesLastDot(filename, AllowedSuffixes[k]);
  }

  /** Each allowed extension, with its dot, is one of the allowed suffixes. */
  lemma ExtensionSuffix(e: string) returns (k: int)
    requires e in AllowedExtensions
    ensures 0 <= k < |AllowedSuffixes| && AllowedSuffixes[k] == "." + e
  {
    k := if e == "png" then 0 else if e == "jpg" then 1 else if e == "jpeg" then 2 else 3;
  }

  /** Every allowed suffix is a dot followed by an allowed extension and no other dot. */
  lemma AllowedSuffixShape(k: int)
    requires 0 <= k < |AllowedSuffixes|
    ensures |AllowedSuffixes[k]| >= 1 && AllowedSuffixes[k][0] == '.'
    ensures forall j :: 0 < j < |AllowedSuffixes[k]| ==> AllowedSuffixes[k][j] != '.'
    ensures AllowedSuffixes[k][1..] in AllowedExtensions
  {
  }

  /** The extension `allowed_file` looks at in a name whose last dot is at `i`. */
  lemma ExtensionAfterLastDot(filename: string, i: int)
    requires 0 <= i < |filename| && filename[i] == '.'
    requires forall j :: i < j < |filename| ==> filename[j] != '.'
    ensures AllowedFile(filename) <==> Lower(filename[i + 1..]) in AllowedExtensions
  {
    RFindIsUnique(filename, '.', i);
  }

  /** Upper-case extensions pass. */
  lemma UpperCaseExtensionAllowed()
    ensures AllowedFile("x.PNG")
  {
    ExtensionAfterLastDot("x.PNG", 1);
    assert Lower("PNG") == "png";
  }

  /** A name that is nothing but ".png" passes. */
  lemma BareExtensionAllowed()
    ensures AllowedFile(".png")
  {
    ExtensionAfterLastDot(".png", 0);
    assert Lower("png") == "png";
  }

  /** Only the last extension counts. */
  lemma OnlyLastExtensionCounts()
    ensures !AllowedFile("x.png.exe")
  {
    ExtensionAfterLastDot("x.png.exe", 5);
    assert Lower("exe") == "exe";
  }

  /** A name without a dot is refused, whatever it spells. */
  lemma NameWithoutDotRefused()
    ensures !AllowedFile("png")
  {
    RFindAbsent("png", '.');
  }

  /** The characters of `str(uuid.uuid4())`: lower-case hex digits and dashes. */
  predicate IsToken(token: string)
  {
    forall i :: 0 <= i < |token| ==> ('0' <= token[i] <= '9' || 'a' <= token[i] <= 'f' || token[i] == '-')
  }

  /** The stored name of an upload: `f"{root}_{token}{ext}"` of the sanitized name. */
  function UniqueName(sanitized: string, token: string): (r: string)
    ensures |r| == |sanitized| + 1 + |token|
  {
    var parts := SplitExt(sanitized);
    parts.root + "_" + token + parts.ext
  }

  /** Neither the "_" separator nor a token contains a dot or a slash. */
  lemma TokenSeparatorIsPlain(token: string)
    requires IsToken(token)
    ensures '.' !in "_" + token && '/' !in "_" + token
  {
    var middle := "_" + token;
    forall k | 0 <= k < |middle| ensures middle[k] != '.' && middle[k] != '/' {
      if k > 0 { assert middle[k] == token[k - 1]; }
    }
  }

  /** A name without an extension keeps having none when plain text is appended. */
  lemma {:induction false} AppendKeepsNoExtension(p: string, middle: string)
    requires SplitExt(p).ext == []
    requires '.' !in middle && '/' !in middle
    ensures SplitExt(p + middle) == PathParts(p + middle, "")
  {
    RFindAppend(p, middle, '/');
    RFindAppend(p, middle, '.');
    SplitExtMeaning(p);
    SplitExtMeaning(p + middle);
    assert forall k :: 0 <= k < |p| ==> (p + middle)[k] == p[k];
  }

  /** Inserting plain text between a name's root and its extension keeps the extension. */
  lemma {:induction false} InsertBeforeExtension(p: string, middle: string)
    requires SplitExt(p).ext != []
    requires '.' !in middle && '/' !in middle && |middle| > 0
    ensures SplitExt(SplitExt(p).root + middle + SplitExt(p).ext) == PathParts(SplitExt(p).root + middle, SplitExt(p).ext)
  {
    var root := SplitExt(p).root;
    var ext := SplitExt(p).ext;
    var q := root + middle + ext;
    var sep := RFind(p, '/');
    SplitExtMeaning(p);
    var k :| sep < k < RFind(p, '.') && p[k] != '.';
    assert RFind(q, '/') == sep by {
      RFindAppend(root, ext, '/');
      RFindAppend(root, middle, '/');
      RFindAppend(root + middle, ext, '/');
    }
    var qdot := |root + middle|;
    assert RFind(q, '.') == qdot by {
      assert q[qdot] == ext[0];
      forall j | qdot < j < |q|
        ensures q[j] != '.'
      {
        assert q[j] == ext[j - qdot];
      }
      RFindIsUnique(q, '.', qdot);
    }
    assert q[k] == p[k];
    SplitExtAt(q, k);
    assert q[..qdot] == root + middle;
    assert q[qdot..] == ext;
  }

  /**
   The stored name splits back into the sanitized root extended by "_" and
   the token, and the sanitized name's own extension.
   */
  lemma UniqueNameKeepsExtension(sanitized: string, token: string)
    requires IsToken(token)
    ensures SplitExt(UniqueName(sanitized, token)) == PathParts(SplitExt(sanitized).root + "_" + token, SplitExt(sanitized).ext)
  {
    TokenSeparatorIsPlain(token);
    var parts := SplitExt(sanitized);
    if parts.ext == [] {
      assert UniqueName(sanitized, token) == sanitized + ("_" + token);
      AppendKeepsNoExtension(sanitized, "_" + token);
    } else {
      assert UniqueName(sanitized, token) == parts.root + ("_" + token) + parts.ext;
      InsertBeforeExtension(sanitized, "_" + token);
    }
  }

  /** Two uploads of the same file with different tokens get different names. */
  lemma DistinctTokensDistinctNames(sanitized: string, t1: string, t2: string)
    requires t1 != t2
    ensures UniqueName(sanitized, t1) != UniqueName(sanitized, t2)
  {
    var parts := SplitExt(sanitized);
    var n := |parts.root| + 1;
    assert UniqueName(sanitized, t1)[n..n + |t1|] == t1;
    assert UniqueName(sanitized, t2)[n..n + |t2|] == t2;
  }

  /** One part of a multipart request: the client's file name and the bytes. */
  datatype FilePart = FilePart(filename: string, content: Bytes)

  /** A JSON reply: success with one named field, or an error with an HTTP status. */
  datatype Reply = Success(field: string, name: string) | Failure(status: int, message: string)

  /** The folder after a request, and the reply sent back. */
  datatype Outcome = Outcome(store: Store, reply: Reply)

  /**
   `upload_file`: `image` is the request's `image` part, if any; `sanitize`
   stands for werkzeug's `secure_filename` and `token` for the fresh uuid4 text.
   */
  function Upload(store: Store, image: Option<FilePart>, sanitize: string -> string, token: string): (r: Outcome)
    ensures image.None? ==> r == Outcome(store, Failure(400, "No image part"))
    ensures image.Some? && image.value.filename == "" ==> r == Outcome(store, Failure(400, "No selected file"))
    ensures image.Some? && !AllowedFile(image.value.filename) ==> r.store == store && r.reply.Failure? && r.reply.status == 400
    ensures r.reply.Success? <==> image.Some? && AllowedFile(image.value.filename)
    ensures r.reply.Success? ==>
      && r.reply == Success("original_image", UniqueName(sanitize(image.value.filename), token))
      && r.store.Keys == store.Keys + {r.reply.name}
      && r.store[r.reply.name] == image.value.content
      && (forall k :: k in store && k != r.reply.name ==> r.store[k] == store[k])
      && (r.reply.name !in store ==> |r.store| == |store| + 1)
  {
    if image.None? then Outcome(store, Failure(400, "No image part"))
    else if image.value.filename == "" then Outcome(store, Failure(400, "No selected file"))
    else if AllowedFile(image.value.filename) then
      var name := UniqueName(sanitize(image.value.filename), token);
      Outcome(store[name := image.value.content], Success("original_image", name))
    else Outcome(store, Failure(400, "File type not allowed"))
  }

  /**
   Uploading `.png` succeeds, since the name passes `allowed_file`, yet the
   stored name has no extension. That holds whether the sanitizer keeps the
   name or strips its leading dot, as werkzeug's `secure_filename` does:
   `splitext` finds no extension in `.png` (all dots before its dot) nor in `png`.
   */
  lemma DotfileUploadLosesExtension(store: Store, content: Bytes, sanitize: string -> string, token: string)
    requires IsToken(token)
    requires sanitize(".png") == ".png" || sanitize(".png") == "png"
    ensures Upload(store, Some(FilePart(".png", content)), sanitize, token).reply.Success?
    ensures SplitExt(Upload(store, Some(FilePart(".png", content)), sanitize, token).reply.name).ext == ""
  {
    BareExtensionAllowed();
    var kept := sanitize(".png");
    if kept == ".png" {
      assert SplitExt(kept) == PathParts(kept, "") by {
        RFindIsUnique(kept, '.', 0);
        RFindAbsent(kept, '/');
      }
    } else {
      assert SplitExt(kept) == PathParts(kept, "") by {
        RFindAbsent(kept, '.');
        RFindAbsent(kept, '/');
      }
    }
    UniqueNameKeepsExtension(kept, token);
  }

  /** The name an improved copy of `name` is stored under. */
  function ImprovedName(name: string): (r: string)
    ensures |r| > |name| && r != name
  {
    ImprovedPrefix + name
  }

  /**
   `improve_image`: `body` is `request.json`, `None` for a JSON `null` body
   (a request with no JSON body at all is refused by Flask before the handler
   runs). The only enhancement performed is a byte-identical copy in the same
   folder.
   */
  function Improve(store: Store, body: Option<map<string, string>>): (r: Outcome)
    ensures body.None? || "filename" !in body.value ==> r == Outcome(store, Failure(400, "No filename provided"))
    ensures body.Some? && "filename" in body.value && body.value["filename"] !in store ==>
      r == Outcome(store, Failure(404, "Original image not found"))
    ensures r.reply.Success? <==> body.Some? && "filename" in body.value && body.value["filename"] in store
    ensures r.reply.Success? ==>
      var n := body.value["filename"];
      && r.reply == Success("improved_image", ImprovedName(n))
      && r.store.Keys == store.Keys + {ImprovedName(n)}
      && r.store[ImprovedName(n)] == store[n]
      && r.store[n] == store[n]
      && (forall k :: k in store && k != ImprovedName(n) ==> r.store[k] == store[k])
  {
    if body.None? || "filename" !in body.value then Outcome(store, Failure(400, "No filename provided"))
    else
      var n := body.value["filename"];
      if n !in store then Outcome(store, Failure(404, "Original image not found"))
      else Outcome(store[ImprovedName(n) := store[n]], Success("improved_image", ImprovedName(n)))
  }

  /** Improving the same name twice leaves the folder and the reply as improving it once did. */
  lemma ImproveIdempotent(store: Store, body: Option<map<string, string>>)
    ensures Improve(Improve(store, body).store, body) == Improve(store, body)
  {
    if body.Some? && "filename" in body.value && body.value["filename"] in store {
      var n := body.value["filename"];
      var once := Improve(store, body).store;
      assert once[ImprovedName(n) := once[n]] == once;
    }
  }

  /** A request the backend serves against the folder. */
  datatype Request =
    | UploadRequest(image: Option<FilePart>, token: string)
    | ImproveRequest(body: Option<map<string, string>>)

  /** Serves one request. */
  function Serve(store: Store, req: Request, sanitize: string -> string): Outcome
  {
    match req
    case UploadRequest(image, token) => Upload(store, image, sanitize, token)
    case ImproveRequest(body) => Improve(store, body)
  }

  /** The folder after serving `reqs` in order. */
  function ServeAll(store: Store, reqs: seq<Request>, sanitize: string -> string): Store
    decreases |reqs|
  {
    if |reqs| == 0 then store else ServeAll(Serve(store, reqs[0], sanitize).store, reqs[1..], sanitize)
  }

  /** Every byte string some request in `reqs` uploads. */
  function UploadedContents(reqs: seq<Request>): set<Bytes>
    decreases |reqs|
  {
    if |reqs| == 0 then {} else UploadedBy(reqs[0]) + UploadedContents(reqs[1..])
  }

  /** The bytes request `req` uploads, if any. */
  function UploadedBy(req: Request): set<Bytes>
  {
    if req.UploadRequest? && req.image.Some? then {req.image.value.content} else {}
  }

  /** One request keeps every file and only stores bytes already present or uploaded by it. */
  lemma ServeKeepsFilesAndContent(store: Store, req: Request, sanitize: string -> string)
    ensures store.Keys <= Serve(store, req, sanitize).store.Keys
    ensures Serve(store, req, sanitize).store.Values <= store.Values + UploadedBy(req)
  {
    var next := Serve(store, req, sanitize).store;
    forall v | v in next.Values ensures v in store.Values + UploadedBy(req) {
      var k :| k in next && next[k] == v;
      if k in store && next[k] == store[k] {
      } else if req.ImproveRequest? {
        assert v == store[req.body.value["filename"]];
      }
    }
  }

  /**
   No request removes a file, and every file in the folder afterwards holds
   bytes that were in the folder before or were uploaded: improving never
   fabricates content.
   */
  lemma {:induction false} ServeAllKeepsFilesAndContent(store: Store, reqs: seq<Request>, sanitize: string -> string)
    ensures store.Keys <= ServeAll(store, reqs, sanitize).Keys
    ensures ServeAll(store, reqs, sanitize).Values <= store.Values + UploadedContents(reqs)
    decreases |reqs|
  {
    if |reqs| > 0 {
      var next := Serve(store, reqs[0], sanitize).store;
      ServeKeepsFilesAndContent(store, reqs[0], sanitize);
      ServeAllKeepsFilesAndContent(next, reqs[1..], sanitize);
      assert UploadedContents(reqs) == UploadedBy(reqs[0]) + UploadedContents(reqs[1..]);
    }
  }
}
