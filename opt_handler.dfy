/** The GET /api/opt handler of the image service (api/main.go): it resolves a
    source URL, validates the transform parameters, fetches the source image,
    negotiates the output format, builds the libvips options and answers with
    the processed image or a JSON error. Each stage of the handler's straight-line
    code is one function here; `Handle` strings them together in the handler's
    order. The environment variable BUCKET_HOST is the parameter `bucketHost`;
    strconv.ParseFloat, the HTTP fetch and the image library are oracles
    passed in by the caller. */
module OptHandler {
  import opened Wrappers
  import GoStrings
  import GoStrconv

  newtype byte = b: int | 0 <= b < 256

  type Bytes = seq<byte>

  /** net/http status codes the handler answers with. */
  const StatusOK: int := 200
  const StatusBadRequest: int := 400
  const StatusInternalServerError: int := 500

  /** Encoding quality the handler always asks the image library for. */
  const Quality: int := 85

  /** Content type of the switch's default branch. */
  const OctetStream: string := "application/octet-stream"

  // ---------------------------------------------------------------- request

  /** One request as the handler sees it: its query parameters (the first value
      of each key, already URL-decoded) and its Accept header ("" when absent,
      as gin's GetHeader gives it). */
  datatype Request = Request(query: map<string, string>, accept: string)

  /** gin's Context.Query: the value of key, or "" when the key is absent. */
  function Query(req: Request, key: string): (v: string)
    ensures key in req.query ==> v == req.query[key]
    ensures key !in req.query ==> v == ""
  {
    if key in req.query then req.query[key] else ""
  }

  /** gin's Context.DefaultQuery: the value of key even when it is empty; the
      default only when the key is absent. */
  function DefaultQuery(req: Request, key: string, default: string): (v: string)
    ensures key in req.query ==> v == Query(req, key)
    ensures key !in req.query ==> v == default
  {
    if key in req.query then req.query[key] else default
  }

  // ----------------------------------------------------------------- errors

  /** Each early return of the handler, named after the condition that causes it. */
  datatype Failure =
    | MissingSource     // neither rel nor abs
    | MissingWidth      // no w
    | InvalidWidth      // w not an int, or not positive
    | InvalidHeight     // h not an int, or negative
    | InvalidBlur       // b not a float, or negative
    | FetchFailed       // transport error or status other than 200
    | ReadFailed        // body could not be read
    | ProcessingFailed  // the image library failed

  /** The HTTP status each failure is answered with. */
  function StatusOf(e: Failure): (status: int)
    ensures status == StatusBadRequest || status == StatusInternalServerError
    ensures status == StatusInternalServerError <==> e == ReadFailed || e == ProcessingFailed
  {
    match e
    case ReadFailed => StatusInternalServerError
    case ProcessingFailed => StatusInternalServerError
    case _ => StatusBadRequest
  }

  /** The "error" field of the JSON body each failure is answered with. */
  function MessageOf(e: Failure): (message: string)
    ensures message != ""
  {
    match e
    case MissingSource => "rel or abs parameter required"
    case MissingWidth => "url and w (width) are required"
    case InvalidWidth => "invalid width"
    case InvalidHeight => "invalid height"
    case InvalidBlur => "invalid blur value"
    case FetchFailed => "failed to fetch image"
    case ReadFailed => "failed to read image"
    case ProcessingFailed => "image processing failed"
  }

  // ------------------------------------------------------- source resolution

  /** url is host and path joined by exactly one '/': some prefix of host
      followed by only slashes, then '/', then what is left of path after a run
      of leading slashes — with no slash on either side of the joining one. */
  ghost predicate JoinedWithOneSlash(host: string, path: string, url: string) {
    exists k: nat, m: nat | k <= |host| && m <= |path| ::
      && url == host[..k] + "/" + path[m..]
      && GoStrings.OnlyChar(host[k..], '/') && (k == 0 || host[k - 1] != '/')
      && GoStrings.OnlyChar(path[..m], '/') && (m == |path| || path[m] != '/')
  }

  /** The bucket-relative URL: TrimRight(host, "/") + "/" + TrimLeft(rel, "/"). */
  function JoinBucketPath(host: string, rel: string): (url: string)
    ensures JoinedWithOneSlash(host, rel, url)
  {
    var a := GoStrings.TrimRight(host, '/');
    var b := GoStrings.TrimLeft(rel, '/');
    assert a == host[..|a|] && b == rel[|rel| - |b|..];
    assert JoinedWithOneSlash(host, rel, a + "/" + b) by {
      var k, m := |a|, |rel| - |b|;
      assert a + "/" + b == host[..k] + "/" + rel[m..];
    }
    a + "/" + b
  }

  /** Lines 19-30: a non-empty rel wins and is joined to the bucket host; else a
      non-empty abs is used as it is; else the request has no source. The
      resolved URL is never empty. */
  function ResolveSource(rel: string, abs: string, bucketHost: string): (r: Result<string, Failure>)
    ensures r.Failure? <==> rel == "" && abs == ""
    ensures r.Failure? ==> r.error == MissingSource
    ensures r.Success? ==> r.value != ""
    ensures rel != "" ==> r.Success? && JoinedWithOneSlash(bucketHost, rel, r.value)
    ensures rel == "" && abs != "" ==> r == Success(abs)
  {
    if rel != "" then Success(JoinBucketPath(bucketHost, rel))
    else if abs != "" then Success(abs)
    else Failure(MissingSource)
  }

  // ---------------------------------------------------- parameter validation

  /** Lines 44-48: w must be a 64-bit int greater than zero. */
  function ParseWidth(w: string): (r: Result<int, Failure>)
    ensures r.Success? <==> (GoStrconv.IsIntegerLiteral(w) && 0 < GoStrconv.LiteralValue(w) <= GoStrconv.MaxInt64)
    ensures r.Success? ==> r.value == GoStrconv.LiteralValue(w) && r.value > 0
    ensures r.Failure? ==> r.error == InvalidWidth
  {
    match GoStrconv.Atoi(w)
    case None => Failure(InvalidWidth)
    case Some(n) => if n <= 0 then Failure(InvalidWidth) else Success(n)
  }

  /** Lines 50-58: an empty h means height 0 (proportional scaling); otherwise
      h must be a 64-bit int that is not negative. */
  function ParseHeight(h: string): (r: Result<int, Failure>)
    ensures h == "" ==> r == Success(0)
    ensures h != "" ==>
              (r.Success? <==> (GoStrconv.IsIntegerLiteral(h) && 0 <= GoStrconv.LiteralValue(h) <= GoStrconv.MaxInt64))
    ensures h != "" && r.Success? ==> r.value == GoStrconv.LiteralValue(h)
    ensures r.Success? ==> r.value >= 0
    ensures r.Failure? ==> r.error == InvalidHeight
  {
    if h == "" then Success(0)
    else
      match GoStrconv.Atoi(h)
      case None => Failure(InvalidHeight)
      case Some(n) => if n < 0 then Failure(InvalidHeight) else Success(n)
  }

  /** Lines 60-68: an empty b means sigma 0; otherwise b must parse as a
      float64 that does not compare below zero. parseFloat stands for
      strconv.ParseFloat(_, 64), None for a non-nil error. */
  function ParseBlur(b: string, parseFloat: string -> Option<GoStrconv.Float64>): (r: Result<GoStrconv.Float64, Failure>)
    ensures b == "" ==> r == Success(GoStrconv.Finite(0.0))
    ensures b != "" ==> (r.Success? <==> parseFloat(b).Some? && !GoStrconv.IsNegative(parseFloat(b).value))
    ensures b != "" && r.Success? ==> r.value == parseFloat(b).value
    ensures r.Success? ==> !GoStrconv.IsNegative(r.value)
    ensures r.Failure? ==> r.error == InvalidBlur
  {
    if b == "" then Success(GoStrconv.Finite(0.0))
    else
      match parseFloat(b)
      case None => Failure(InvalidBlur)
      case Some(x) => if GoStrconv.IsNegative(x) then Failure(InvalidBlur) else Success(x)
  }

  /** Lines 85 and 89: a flag is set by the exact string "true" only. */
  predicate ParseFlag(s: string): (on: bool)
    ensures on <==> s == "true"
  {
    s == "true"
  }

  /** The request once every check has passed: crop, format and gray are kept
      as the strings the handler reads, as the handler itself keeps them. */
  datatype Validated = Validated(
    url: string,
    width: int,
    height: int,
    crop: string,
    format: string,
    blur: GoStrconv.Float64,
    gray: string)

  /** Lines 19-68: the checks in the handler's order — source, then the
      "url and w required" test, then width, height and blur. The first one that
      fails decides the error; parameters after it are not examined. */
  function Validate(req: Request, bucketHost: string, parseFloat: string -> Option<GoStrconv.Float64>): (r: Result<Validated, Failure>)
    ensures r == Failure(MissingSource) <==> Query(req, "rel") == "" && Query(req, "abs") == ""
    ensures r == Failure(MissingWidth) <==>
              (Query(req, "rel") != "" || Query(req, "abs") != "") && Query(req, "w") == ""
    ensures r == Failure(InvalidWidth) <==>
              && ResolveSource(Query(req, "rel"), Query(req, "abs"), bucketHost).Success?
              && Query(req, "w") != ""
              && ParseWidth(Query(req, "w")).Failure?
    ensures r == Failure(InvalidHeight) <==>
              && ResolveSource(Query(req, "rel"), Query(req, "abs"), bucketHost).Success?
              && ParseWidth(Query(req, "w")).Success?
              && ParseHeight(Query(req, "h")).Failure?
    ensures r == Failure(InvalidBlur) <==>
              && ResolveSource(Query(req, "rel"), Query(req, "abs"), bucketHost).Success?
              && ParseWidth(Query(req, "w")).Success?
              && ParseHeight(Query(req, "h")).Success?
              && ParseBlur(DefaultQuery(req, "b", "0"), parseFloat).Failure?
    ensures r.Failure? ==> r.error in {MissingSource, MissingWidth, InvalidWidth, InvalidHeight, InvalidBlur}
    ensures r.Success? <==>
              && ResolveSource(Query(req, "rel"), Query(req, "abs"), bucketHost).Success?
              && ParseWidth(Query(req, "w")).Success?
              && ParseHeight(Query(req, "h")).Success?
              && ParseBlur(DefaultQuery(req, "b", "0"), parseFloat).Success?
    ensures r.Success? ==>
              && r.value.url == ResolveSource(Query(req, "rel"), Query(req, "abs"), bucketHost).value
              && r.value.url != ""
              && r.value.width > 0 && r.value.width == ParseWidth(Query(req, "w")).value
              && r.value.height >= 0 && r.value.height == ParseHeight(Query(req, "h")).value
              && !GoStrconv.IsNegative(r.value.blur)
              && r.value.blur == ParseBlur(DefaultQuery(req, "b", "0"), parseFloat).value
              && r.value.crop == DefaultQuery(req, "c", "false")
              && r.value.format == DefaultQuery(req, "f", "auto")
              && r.value.gray == DefaultQuery(req, "g", "false")
  {
    var url :- ResolveSource(Query(req, "rel"), Query(req, "abs"), bucketHost);
    var widthStr := Query(req, "w");
    var heightStr := Query(req, "h");
    var crop := DefaultQuery(req, "c", "false");
    var format := DefaultQuery(req, "f", "auto");
    var blurStr := DefaultQuery(req, "b", "0");
    var gray := DefaultQuery(req, "g", "false");
    if url == "" || widthStr == "" then Failure(MissingWidth)
    else
      var width :- ParseWidth(widthStr);
      var height :- ParseHeight(heightStr);
      var blur :- ParseBlur(blurStr, parseFloat);
      Success(Validated(url, width, height, crop, format, blur, gray))
  }

  // ------------------------------------------------------------------ fetch

  /** What http.Get and io.ReadAll report for a URL: a transport error, or a
      response with its status code and its body (None when reading it fails). */
  datatype FetchResult = TransportError | Response(statusCode: int, body: Option<Bytes>)

  /** Lines 70-80: only a response with status exactly 200 counts as fetched;
      its body must then be read in full. */
  function FetchImage(fetch: string -> FetchResult, url: string): (r: Result<Bytes, Failure>)
    ensures r.Success? <==> fetch(url).Response? && fetch(url).statusCode == StatusOK && fetch(url).body.Some?
    ensures r.Success? ==> r.value == fetch(url).body.value
    ensures r == Failure(FetchFailed) <==> fetch(url).TransportError? || fetch(url).statusCode != StatusOK
    ensures r == Failure(ReadFailed) <==> fetch(url).Response? && fetch(url).statusCode == StatusOK && fetch(url).body.None?
  {
    match fetch(url)
    case TransportError => Failure(FetchFailed)
    case Response(code, body) =>
      if code != StatusOK then Failure(FetchFailed)
      else
        match body
        case None => Failure(ReadFailed)
        case Some(bytes) => Success(bytes)
  }

  // ----------------------------------------------------- format negotiation

  /** bimg's image types: the four the handler can choose, and Other for the
      library's remaining ones, which the handler never chooses. */
  datatype ImageType = JPEG | PNG | WEBP | AVIF | Other

  /** The value of f that names each type the handler can choose. */
  function FormatName(t: ImageType): string
    requires t != Other
  {
    match t
    case JPEG => "jpeg"
    case PNG => "png"
    case WEBP => "webp"
    case AVIF => "avif"
  }

  /** Lines 96-121: with f=auto the Accept header is compared as a whole string
      with "image/avif" and "image/webp" (no list, no q-values, no wildcards)
      and JPEG is the fallback; otherwise f names the type, with JPEG for any
      name the switch does not know. */
  function NegotiateFormat(format: string, accept: string): (t: ImageType)
    ensures t != Other
    ensures format == "auto" ==> (t == AVIF <==> accept == "image/avif")
    ensures format == "auto" ==> (t == WEBP <==> accept == "image/webp")
    ensures format == "auto" ==> t != PNG
    ensures format != "auto" ==> (t == JPEG || format == FormatName(t))
    ensures format != "auto" ==> (format in {"jpeg", "png", "webp", "avif"} <==> format == FormatName(t))
  {
    if format == "auto" then
      if accept != "" && (accept == "image/avif" || accept == "image/webp") then
        if accept == "image/avif" then AVIF else WEBP
      else JPEG
    else
      match format
      case "jpeg" => JPEG
      case "png" => PNG
      case "webp" => WEBP
      case "avif" => AVIF
      case _ => JPEG
  }

  // ------------------------------------------------------------ spec building

  /** bimg.Interpretation as the handler sets it. */
  datatype Interpretation = InterpretationBW | InterpretationSRGB

  /** The fields of bimg.Options the handler sets. */
  datatype Options = Options(
    width: int,
    height: int,
    crop: bool,
    quality: int,
    blurSigma: GoStrconv.Float64,
    interpretation: Interpretation,
    imageType: ImageType)

  /** Lines 82-94 with the Type chosen at lines 96-121: sizes and blur copied
      from the validated request, crop and black-and-white only for "true",
      quality fixed at 85. */
  function BuildSpec(v: Validated, t: ImageType): (o: Options)
    ensures o.width == v.width && o.height == v.height && o.blurSigma == v.blur
    ensures o.crop <==> v.crop == "true"
    ensures o.interpretation == InterpretationBW <==> v.gray == "true"
    ensures o.quality == Quality
    ensures o.imageType == t
  {
    Options(
      width := v.width,
      height := v.height,
      crop := ParseFlag(v.crop),
      quality := Quality,
      blurSigma := v.blur,
      interpretation := if ParseFlag(v.gray) then InterpretationBW else InterpretationSRGB,
      imageType := t)
  }

  // ------------------------------------------------------------ response

  /** Lines 129-141: the MIME type of each selectable type is "image/" followed
      by its format name; any other type falls to application/octet-stream. */
  function ContentTypeOf(t: ImageType): (mime: string)
    ensures t != Other ==> mime == "image/" + FormatName(t)
    ensures t == Other ==> mime == OctetStream
  {
    match t
    case JPEG => "image/jpeg"
    case PNG => "image/png"
    case WEBP => "image/webp"
    case AVIF => "image/avif"
    case Other => OctetStream
  }

  /** What the handler writes: reqRes.JSON with {"error": ...}, or reqRes.Data
      with a content type and the image. */
  datatype Reply =
    | Json(status: int, error: string)
    | Data(status: int, contentType: string, body: Bytes)

  function ErrorReply(e: Failure): (reply: Reply)
    ensures reply.Json? && reply.status != StatusOK
    ensures reply.status == StatusOf(e) && reply.error == MessageOf(e)
  {
    Json(StatusOf(e), MessageOf(e))
  }

  /** The whole handler, lines 18-144. process stands for
      bimg.NewImage(bytes).Process(options), None for a non-nil error. */
  function Handle(
    req: Request,
    bucketHost: string,
    parseFloat: string -> Option<GoStrconv.Float64>,
    fetch: string -> FetchResult,
    process: (Bytes, Options) -> Option<Bytes>): (reply: Reply)
    ensures reply.status == StatusOK <==> reply.Data?
    ensures reply.Json? ==> reply.status == StatusBadRequest || reply.status == StatusInternalServerError
    ensures Validate(req, bucketHost, parseFloat).Failure? ==>
              reply == ErrorReply(Validate(req, bucketHost, parseFloat).error)
    ensures reply.Data? ==>
              && Validate(req, bucketHost, parseFloat).Success?
              && FetchImage(fetch, Validate(req, bucketHost, parseFloat).value.url).Success?
              && reply.contentType == ContentTypeOf(NegotiateFormat(Validate(req, bucketHost, parseFloat).value.format, req.accept))
              && reply.contentType != OctetStream
    ensures Validate(req, bucketHost, parseFloat).Success? ==>
              var v := Validate(req, bucketHost, parseFloat).value;
              FetchImage(fetch, v.url).Failure? ==> reply == ErrorReply(FetchImage(fetch, v.url).error)
    ensures Validate(req, bucketHost, parseFloat).Success? ==>
              var v := Validate(req, bucketHost, parseFloat).value;
              var t := NegotiateFormat(v.format, req.accept);
              FetchImage(fetch, v.url).Success? ==>
                (process(FetchImage(fetch, v.url).value, BuildSpec(v, t)).None? ==>
                   reply == ErrorReply(ProcessingFailed))
                && (process(FetchImage(fetch, v.url).value, BuildSpec(v, t)).Some? ==>
                   reply == Data(StatusOK, ContentTypeOf(t), process(FetchImage(fetch, v.url).value, BuildSpec(v, t)).value))
  {
    match Validate(req, bucketHost, parseFloat)
    case Failure(e) => ErrorReply(e)
    case Success(v) =>
      match FetchImage(fetch, v.url)
      case Failure(e) => ErrorReply(e)
      case Success(src) =>
        var options := BuildSpec(v, NegotiateFormat(v.format, req.accept));
        match process(src, options)
        case None => ErrorReply(ProcessingFailed)
        case Some(image) => Data(StatusOK, ContentTypeOf(options.imageType), image)
  }
}
