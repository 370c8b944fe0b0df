/**
 * The per-item pipeline of `handle`: classify the reference, obtain its bytes
 * (HTTP GET behind a content-type guard, or a local file read), encode them
 * with the configured format's encoder, measure the original, and build the
 * output record, keeping the original bytes when the encoding came out larger.
 */
module Pipeline {
  import opened Wrappers
  import opened Strings
  import PosixPath
  import opened Formats
  import opened Settings

  newtype byte = x: int | 0 <= x < 256

  type Bytes = seq<byte>

  /** An HTTP response as axios hands it over: lower-case header names and a binary body. */
  datatype Response = Response(headers: map<string, string>, data: Bytes)

  /** What `imageSize` reports for a buffer. */
  datatype Dimensions = Dimensions(width: int, height: int)

  /** The arguments of one encoder call: format, input buffer, output options, input options. */
  datatype EncodeCall = EncodeCall(
    format: TransformType,
    buffer: Bytes,
    outputOptions: Option<OptionBag>,
    inputOptions: Option<OptionBag>)

  /**
   * The outside world, as tables of the answers each collaborator would give;
   * a missing entry is a failure (the promise rejects or the call throws).
   *   responses - axios GET with `responseType: "arraybuffer"`, by URL
   *   files     - `fs/promises.readFile`, by path
   *   encodings - `sharp(buffer, inputOptions)[format](outputOptions).toBuffer()`
   *   sizes     - the `image-size` header parser, by buffer
   */
  datatype Env = Env(
    responses: map<string, Response>,
    files: map<string, Bytes>,
    encodings: map<EncodeCall, Bytes>,
    sizes: map<Bytes, Dimensions>)
  {
    function HttpGet(url: string): Option<Response>
    {
      if url in responses then Some(responses[url]) else None
    }

    function ReadFile(path: string): Option<Bytes>
    {
      if path in files then Some(files[path]) else None
    }

    function Encode(call: EncodeCall): Option<Bytes>
    {
      if call in encodings then Some(encodings[call]) else None
    }

    function ImageSize(buffer: Bytes): Option<Dimensions>
    {
      if buffer in sizes then Some(sizes[buffer]) else None
    }
  }

  /** Why an item contributes nothing; every one of these is caught per item. */
  datatype ItemError =
    | RequestFailed                     // axios rejected (network error, non-2xx status)
    | MissingContentType                // `contentType.includes` on undefined throws
    | NotAnImage(contentType: string)   // content type without "image"
    | ReadFailed                        // readFile rejected
    | ConvertFailed                     // no encoder under the key, or sharp rejected
    | MeasureFailed                     // imageSize threw

  /** `{ buffer, fileName, width, height, extname }`, pushed onto `ctx.output`. */
  datatype OutputRecord = OutputRecord(
    buffer: Bytes,
    fileName: string,
    width: int,
    height: int,
    extname: string)

  // ---------------------------------------------------------------- naming

  /** `realBaseName`: the part before the first `?`, last segment, extension cut off. */
  function RealBaseName(url: string): (r: string)
    ensures '/' !in r && '?' !in r
    ensures r + PosixPath.ExtName(BeforeFirst(url, '?')) == PosixPath.LastSegment(BeforeFirst(url, '?'))
  {
    var path := BeforeFirst(url, '?');
    PosixPath.StemAvoids(path, '?');
    PosixPath.Stem(path)
  }

  /** The worked example: `https://site/a/photo.JPG?x=1` has base name `photo`. */
  lemma RealBaseNameExample()
    ensures RealBaseName("https://site/a/photo.JPG?x=1") == "photo"
  {
    ExampleQueryCut();
    ExampleStem();
  }

  lemma ExampleQueryCut()
    ensures BeforeFirst("https://site/a/photo.JPG?x=1", '?') == "https://site/a/photo.JPG"
  {
    assert "https://site/a/photo.JPG?x=1" == "https://site/a/photo.JPG" + ['?'] + "x=1";
    BeforeFirstSplit("https://site/a/photo.JPG", '?', "x=1");
  }

  lemma ExampleSegment()
    ensures PosixPath.LastSegment("https://site/a/photo.JPG") == "photo.JPG"
  {
    assert PosixPath.TrimTrailingSlashes("https://site/a/photo.JPG") == "https://site/a/photo.JPG";
    LastIndexOfIs("https://site/a/photo.JPG", '/', 14);
  }

  lemma ExampleStem()
    ensures PosixPath.Stem("https://site/a/photo.JPG") == "photo"
  {
    ExampleSegment();
    LastIndexOfIs("photo.JPG", '.', 5);
    assert PosixPath.ExtName("https://site/a/photo.JPG") == ".JPG";
  }

  // ------------------------------------------------------- source resolver

  /** The regular expression `https?:\/\/` matches at the very start of `s`. */
  predicate SchemeHere(s: string)
  {
    StartsWith(s, "http") && (StartsWith(s[4..], "://") || StartsWith(s[4..], "s://"))
  }

  /** The pattern matches at the start exactly when `http://` or `https://` begins there. */
  lemma SchemeHereMeans(s: string)
    ensures SchemeHere(s) <==> OccursAt(s, "http://", 0) || OccursAt(s, "https://", 0)
  {
    if |s| >= 7 {
      assert s[..7] == s[..4] + s[4..][..3];
    }
    if |s| >= 8 {
      assert s[..8] == s[..4] + s[4..][..4];
    }
  }

  /**
   * `/https?:\/\//.test(item)`: an unanchored search, so the reference is
   * remote when `http://` or `https://` occurs anywhere in it.
   */
  function IsRemote(item: string): (r: bool)
    ensures r <==> Occurs(item, "http://") || Occurs(item, "https://")
    decreases |item|
  {
    if item == [] then
      false
    else
      OccursCons(item, "http://");
      OccursCons(item, "https://");
      SchemeHereMeans(item);
      SchemeHere(item) || IsRemote(item[1..])
  }

  lemma IsRemoteUnanchored()
    ensures IsRemote("/tmp/https://cache/a.png")
    ensures !IsRemote("HTTPS://site/a.png")
    ensures !IsRemote("/home/u/photo.png")
  {
    assert OccursAt("/tmp/https://cache/a.png", "https://", 5);
    NoOccurrenceWithout("HTTPS://site/a.png", "http://", 'h');
    NoOccurrenceWithout("HTTPS://site/a.png", "https://", 'h');
    NoOccurrenceWithout("/home/u/photo.png", "http://", ':');
    NoOccurrenceWithout("/home/u/photo.png", "https://", ':');
  }

  // -------------------------------------------------- content-type guard

  /** The guard inside `fetch`: a `content-type` header that contains "image". */
  predicate IsImageResponse(resp: Response)
  {
    "content-type" in resp.headers && Includes(resp.headers["content-type"], "image")
  }

  /** `fetch`: the body of a successful GET whose content type names an image. */
  function Fetch(env: Env, url: string): (r: Result<Bytes, ItemError>)
    ensures r.Ok? <==> env.HttpGet(url).Some? && IsImageResponse(env.HttpGet(url).value)
    ensures r.Ok? ==> r.value == env.HttpGet(url).value.data
    ensures r.Err? ==> r.error.RequestFailed? || r.error.MissingContentType? || r.error.NotAnImage?
    ensures r == Err(MissingContentType) <==>
              env.HttpGet(url).Some? && "content-type" !in env.HttpGet(url).value.headers
  {
    match env.HttpGet(url)
    case None => Err(RequestFailed)
    case Some(resp) =>
      if "content-type" !in resp.headers then Err(MissingContentType)
      else if !Includes(resp.headers["content-type"], "image") then Err(NotAnImage(resp.headers["content-type"]))
      else Ok(resp.data)
  }

  /** `readFile(item)`: the whole file, or a read failure. */
  function ReadLocal(env: Env, path: string): (r: Result<Bytes, ItemError>)
    ensures r.Ok? <==> env.ReadFile(path).Some?
    ensures r.Ok? ==> r.value == env.ReadFile(path).value
    ensures r.Err? ==> r.error == ReadFailed
  {
    match env.ReadFile(path)
    case None => Err(ReadFailed)
    case Some(b) => Ok(b)
  }

  /** The original buffer: fetched when the reference is remote, read from disk otherwise. */
  function Retrieve(env: Env, item: string): (r: Result<Bytes, ItemError>)
    ensures IsRemote(item) ==> r == Fetch(env, item)
    ensures !IsRemote(item) ==> r == ReadLocal(env, item)
  {
    if IsRemote(item) then Fetch(env, item) else ReadLocal(env, item)
  }

  /**
   * A remote reference never touches the file system and a local one never
   * touches the network: the result depends only on the collaborator chosen.
   */
  lemma RetrieveUsesOneCollaborator(env: Env, other: Env, item: string)
    ensures (Occurs(item, "http://") || Occurs(item, "https://")) && other.responses == env.responses
            ==> Retrieve(other, item) == Retrieve(env, item)
    ensures !(Occurs(item, "http://") || Occurs(item, "https://")) && other.files == env.files
            ==> Retrieve(other, item) == Retrieve(env, item)
  {
  }

  // ------------------------------------------------- dispatch and encoding

  /**
   * `transformFn(originBuffer, outputOptions, inputOptions)` where
   * `transformFn = transformFnMap[outputType]`: a key with no encoder makes
   * the call throw, which the inner `catch` turns into a conversion failure.
   */
  function Convert(env: Env, run: RunSettings, origin: Bytes): (r: Result<Bytes, ItemError>)
    ensures Dispatch(run.outputType).None? ==> r == Err(ConvertFailed)
    ensures Dispatch(run.outputType).Some? ==>
              (r.Ok? <==> env.Encode(EncodeCall(Dispatch(run.outputType).value, origin, run.outputOptions, run.inputOptions)).Some?)
    ensures r.Ok? ==> exists t :: Name(t) == run.outputType
                        && Some(r.value) == env.Encode(EncodeCall(t, origin, run.outputOptions, run.inputOptions))
    ensures r.Err? ==> r.error == ConvertFailed
  {
    match Dispatch(run.outputType)
    case None => Err(ConvertFailed)
    case Some(t) =>
      match env.Encode(EncodeCall(t, origin, run.outputOptions, run.inputOptions))
      case None => Err(ConvertFailed)
      case Some(b) => Ok(b)
  }

  // ------------------------------------------------------ output selection

  /** The buffer to emit and whether the "bigger than origin" warning is logged. */
  datatype Selection = Selection(buffer: Bytes, warned: bool)

  /**
   * The size guard: keep the original only when it is strictly shorter than
   * the encoding (ties go to the encoding), and warn exactly then.
   */
  function SelectBuffer(origin: Bytes, transformed: Bytes): (s: Selection)
    ensures s.buffer == origin || s.buffer == transformed
    ensures |origin| < |transformed| ==> s.buffer == origin
    ensures |transformed| <= |origin| ==> s.buffer == transformed
    ensures |s.buffer| == if |origin| < |transformed| then |origin| else |transformed|
    ensures |s.buffer| <= |origin| && |s.buffer| <= |transformed|
    ensures s.warned <==> |s.buffer| < |transformed|
  {
    if |origin| < |transformed| then Selection(origin, true) else Selection(transformed, false)
  }

  // ------------------------------------------------------------ one item

  /** A record together with whether its item logged the size warning. */
  datatype Processed = Processed(record: OutputRecord, warned: bool)

  /**
   * One `ctx.input.map` task up to the `push`: retrieve, encode, name,
   * measure the original, select. Any failure becomes the item's error.
   */
  function ProcessItem(env: Env, run: RunSettings, item: string): (r: Result<Processed, ItemError>)
    ensures Retrieve(env, item).Err? ==> r == Err(Retrieve(env, item).error)
    ensures Retrieve(env, item).Ok? && Convert(env, run, Retrieve(env, item).value).Err? ==> r == Err(ConvertFailed)
    ensures r.Ok? <==>
              (Retrieve(env, item).Ok?
               && Convert(env, run, Retrieve(env, item).value).Ok?
               && env.ImageSize(Retrieve(env, item).value).Some?)
    ensures r.Ok? ==>
              r.value.record.extname == "." + run.outputType
              && r.value.record.fileName == RealBaseName(item) + r.value.record.extname
    ensures r.Ok? ==>
              var origin := Retrieve(env, item).value;
              var transformed := Convert(env, run, origin).value;
              && r.value.record.width == env.ImageSize(origin).value.width
              && r.value.record.height == env.ImageSize(origin).value.height
              && r.value.record.buffer == SelectBuffer(origin, transformed).buffer
              && r.value.warned == SelectBuffer(origin, transformed).warned
  {
    match Retrieve(env, item)
    case Err(e) => Err(e)
    case Ok(origin) =>
      match Convert(env, run, origin)
      case Err(e) => Err(e)
      case Ok(transformed) =>
        var name := RealBaseName(item);
        var extname := "." + run.outputType;
        match env.ImageSize(origin)
        case None => Err(MeasureFailed)
        case Some(size) =>
          var selected := SelectBuffer(origin, transformed);
          Ok(Processed(OutputRecord(selected.buffer, name + extname, size.width, size.height, extname), selected.warned))
  }

  /**
   * A remote item whose response lacks an image content type is rejected
   * before the encoder: its result is the same whatever the encoder and the
   * image-size parser would do.
   */
  lemma NonImageNeverEncoded(env: Env, other: Env, run: RunSettings, item: string)
    requires IsRemote(item)
    requires env.HttpGet(item).Some? && !IsImageResponse(env.HttpGet(item).value)
    requires other.responses == env.responses
    ensures ProcessItem(env, run, item).Err?
    ensures ProcessItem(env, run, item).error.MissingContentType? || ProcessItem(env, run, item).error.NotAnImage?
    ensures ProcessItem(other, run, item) == ProcessItem(env, run, item)
  {
  }

  /**
   * Name, extension and dimensions of a record do not depend on the encoder:
   * the same item under any two encoders gets the same metadata; only the
   * emitted bytes may differ.
   */
  lemma MetadataIndependentOfEncoder(env: Env, other: Env, run: RunSettings, item: string)
    requires other.responses == env.responses && other.files == env.files && other.sizes == env.sizes
    ensures ProcessItem(env, run, item).Ok? && ProcessItem(other, run, item).Ok? ==>
              var a := ProcessItem(env, run, item).value.record;
              var b := ProcessItem(other, run, item).value.record;
              a.fileName == b.fileName && a.extname == b.extname && a.width == b.width && a.height == b.height
  {
    RetrieveUsesOneCollaborator(env, other, item);
    if ProcessItem(env, run, item).Ok? && ProcessItem(other, run, item).Ok? {
      var origin := Retrieve(env, item).value;
      assert Retrieve(other, item).value == origin;
      assert other.ImageSize(origin) == env.ImageSize(origin);
    }
  }

  /** The emitted buffer is the shorter of the two candidates, ties going to the encoding. */
  lemma EmittedBufferIsShorter(env: Env, run: RunSettings, item: string)
    requires ProcessItem(env, run, item).Ok?
    ensures var origin := Retrieve(env, item).value;
            var transformed := Convert(env, run, origin).value;
            var p := ProcessItem(env, run, item).value;
            && |p.record.buffer| <= |origin| && |p.record.buffer| <= |transformed|
            && (p.warned <==> p.record.buffer != transformed)
  {
  }
}
