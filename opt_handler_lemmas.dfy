/** Properties of the /api/opt handler that relate several stages or several
    calls: what the source join does with slashes, the order of the checks,
    that nothing after a failed check depends on the oracles, the format and
    content-type tables, and a few example requests end to end. */
module OptHandlerLemmas {
  import opened Wrappers
  import GoStrings
  import GoStrconv
  import opened OptHandler

  // ------------------------------------------------------- source resolution

  /** The join is determined by host and path: at most one URL joins them with
      exactly one slash, so the "one slash" reading of line 24 pins the URL down. */
  lemma JoinedWithOneSlashUnique(host: string, path: string, u1: string, u2: string)
    requires JoinedWithOneSlash(host, path, u1)
    requires JoinedWithOneSlash(host, path, u2)
    ensures u1 == u2
  {
    var k1: nat, m1: nat :|
      && k1 <= |host| && m1 <= |path|
      && u1 == host[..k1] + "/" + path[m1..]
      && GoStrings.OnlyChar(host[k1..], '/') && (k1 == 0 || host[k1 - 1] != '/')
      && GoStrings.OnlyChar(path[..m1], '/') && (m1 == |path| || path[m1] != '/');
    var k2: nat, m2: nat :|
      && k2 <= |host| && m2 <= |path|
      && u2 == host[..k2] + "/" + path[m2..]
      && GoStrings.OnlyChar(host[k2..], '/') && (k2 == 0 || host[k2 - 1] != '/')
      && GoStrings.OnlyChar(path[..m2], '/') && (m2 == |path| || path[m2] != '/');
    SlashSuffix(host, k1);
    SlashSuffix(host, k2);
    SlashPrefix(path, m1);
    SlashPrefix(path, m2);
    assert k1 == k2;
    assert m1 == m2;
  }

  /** A slice made only of slashes says every position it covers holds one. */
  lemma SlashSuffix(s: string, k: nat)
    requires k <= |s| && GoStrings.OnlyChar(s[k..], '/')
    ensures forall i | k <= i < |s| :: s[i] == '/'
  {
    forall i | k <= i < |s| ensures s[i] == '/' {
      assert s[k..][i - k] == s[i];
    }
  }

  lemma SlashPrefix(s: string, m: nat)
    requires m <= |s| && GoStrings.OnlyChar(s[..m], '/')
    ensures forall i | 0 <= i < m :: s[i] == '/'
  {
    forall i | 0 <= i < m ensures s[i] == '/' {
      assert s[..m][i] == s[i];
    }
  }

  /** Extra trailing slashes on the bucket host and extra leading slashes on rel
      do not change the resolved URL. */
  lemma {:induction false} ResolveIgnoresSlashPadding(rel: string, abs: string, bucketHost: string, p: nat, q: nat)
    requires rel != ""
    ensures ResolveSource(GoStrings.Repeat('/', q) + rel, abs, bucketHost + GoStrings.Repeat('/', p))
         == ResolveSource(rel, abs, bucketHost)
  {
    GoStrings.TrimRightPadded(bucketHost, '/', p);
    GoStrings.TrimLeftPadded(rel, '/', q);
  }

  /** Example joins: "http://h/" with "/x" and "http://h" with "x" both
      resolve to "http://h/x"; rel wins over abs; abs is taken verbatim. */
  lemma ResolveExamples()
    ensures ResolveSource("/x", "", "http://h/") == Success("http://h/x")
    ensures ResolveSource("x", "", "http://h") == Success("http://h/x")
    ensures ResolveSource("x", "http://other/y", "http://h") == Success("http://h/x")
    ensures ResolveSource("", "not a url", "http://h") == Success("not a url")
    ensures ResolveSource("", "", "http://h") == Failure(MissingSource)
  {
    TrimExamples();
    assert "http://h" + "/" + "x" == "http://h/x";
  }

  lemma TrimExamples()
    ensures GoStrings.TrimRight("http://h/", '/') == "http://h"
    ensures GoStrings.TrimRight("http://h", '/') == "http://h"
    ensures GoStrings.TrimLeft("/x", '/') == "x"
    ensures GoStrings.TrimLeft("x", '/') == "x"
  {
    assert "http://h/"[..8] == "http://h";
    assert "/x"[1..] == "x";
  }

  // ---------------------------------------------------- parameter validation

  /** Width accepts exactly the canonical positive 64-bit ints (and their other
      spellings); zero, negatives, non-numbers and overflow are refused. */
  lemma WidthAcceptsPositive(n: int)
    requires 0 < n <= GoStrconv.MaxInt64
    ensures ParseWidth(GoStrconv.FormatInt(n)) == Success(n)
  {
  }

  lemma WidthRefusals()
    ensures ParseWidth("0") == Failure(InvalidWidth)
    ensures ParseWidth("-5") == Failure(InvalidWidth)
    ensures ParseWidth("abc") == Failure(InvalidWidth)
    ensures ParseWidth("12px") == Failure(InvalidWidth)
    ensures ParseWidth(GoStrconv.FormatInt(GoStrconv.MaxInt64 + 1)) == Failure(InvalidWidth)
    ensures ParseWidth("+100") == Success(100)
  {
    assert !GoStrconv.IsDigit("12px"[2]);
  }

  /** The `imageURL == ""` half of the "url and w required" test never fires,
      so that error always means w was empty or absent. */
  lemma MissingWidthMeansNoW(req: Request, bucketHost: string, parseFloat: string -> Option<GoStrconv.Float64>)
    requires Validate(req, bucketHost, parseFloat) == Failure(MissingWidth)
    ensures Query(req, "w") == ""
    ensures ResolveSource(Query(req, "rel"), Query(req, "abs"), bucketHost).Success?
  {
  }

  /** A request with neither rel nor abs is refused with 400 and the source
      message, whatever else it carries and whatever the oracles would do. */
  lemma MissingSourceShortCircuits(
    req: Request, bucketHost: string,
    parseFloat: string -> Option<GoStrconv.Float64>,
    fetch: string -> FetchResult,
    process: (Bytes, Options) -> Option<Bytes>)
    requires Query(req, "rel") == "" && Query(req, "abs") == ""
    ensures Handle(req, bucketHost, parseFloat, fetch, process)
         == Json(StatusBadRequest, "rel or abs parameter required")
  {
  }

  /** A width error is reported whatever h and b say: height and blur are not
      examined once width has failed. */
  lemma WidthCheckedBeforeHeightAndBlur(
    req: Request, bucketHost: string,
    parseFloat: string -> Option<GoStrconv.Float64>,
    h: string, b: string)
    ensures Validate(req, bucketHost, parseFloat) == Failure(InvalidWidth) ==>
              Validate(Request(req.query["h" := h]["b" := b], req.accept), bucketHost, parseFloat)
              == Failure(InvalidWidth)
  {
    var req' := Request(req.query["h" := h]["b" := b], req.accept);
    assert Query(req', "rel") == Query(req, "rel");
    assert Query(req', "abs") == Query(req, "abs");
    assert Query(req', "w") == Query(req, "w");
  }

  /** A height error is reported whatever b says. */
  lemma HeightCheckedBeforeBlur(
    req: Request, bucketHost: string,
    parseFloat: string -> Option<GoStrconv.Float64>,
    b: string)
    ensures Validate(req, bucketHost, parseFloat) == Failure(InvalidHeight) ==>
              Validate(Request(req.query["b" := b], req.accept), bucketHost, parseFloat)
              == Failure(InvalidHeight)
  {
    var req' := Request(req.query["b" := b], req.accept);
    assert Query(req', "rel") == Query(req, "rel");
    assert Query(req', "abs") == Query(req, "abs");
    assert Query(req', "w") == Query(req, "w");
    assert Query(req', "h") == Query(req, "h");
    assert ResolveSource(Query(req', "rel"), Query(req', "abs"), bucketHost)
        == ResolveSource(Query(req, "rel"), Query(req, "abs"), bucketHost);
    assert ParseWidth(Query(req', "w")) == ParseWidth(Query(req, "w"));
    assert ParseHeight(Query(req', "h")) == ParseHeight(Query(req, "h"));
  }

  /** Without h, or with an empty h, the height is 0: proportional scaling. */
  lemma AbsentHeightIsProportional(req: Request, bucketHost: string, parseFloat: string -> Option<GoStrconv.Float64>)
    ensures Validate(req, bucketHost, parseFloat).Success? && ("h" !in req.query || req.query["h"] == "") ==>
              Validate(req, bucketHost, parseFloat).value.height == 0
  {
  }

  /** An empty b gives sigma 0 whatever the float parser does; an absent b
      is the default "0", which gives sigma 0 when the parser reads "0" as 0. */
  lemma AbsentBlurIsZero(req: Request, bucketHost: string, parseFloat: string -> Option<GoStrconv.Float64>)
    ensures Validate(req, bucketHost, parseFloat).Success? && "b" in req.query && req.query["b"] == "" ==>
              Validate(req, bucketHost, parseFloat).value.blur == GoStrconv.Finite(0.0)
    ensures Validate(req, bucketHost, parseFloat).Success? && "b" !in req.query
            && parseFloat("0") == Some(GoStrconv.Finite(0.0)) ==>
              Validate(req, bucketHost, parseFloat).value.blur == GoStrconv.Finite(0.0)
  {
  }

  /** The blur test is Go's `b < 0`: NaN and +Inf pass it, -Inf does not. */
  lemma BlurSpecialValues(b: string, parseFloat: string -> Option<GoStrconv.Float64>)
    requires b != ""
    ensures parseFloat(b) == Some(GoStrconv.NaN) ==> ParseBlur(b, parseFloat) == Success(GoStrconv.NaN)
    ensures parseFloat(b) == Some(GoStrconv.Infinity(false)) ==> ParseBlur(b, parseFloat).Success?
    ensures parseFloat(b) == Some(GoStrconv.Infinity(true)) ==> ParseBlur(b, parseFloat) == Failure(InvalidBlur)
    ensures parseFloat(b) == None ==> ParseBlur(b, parseFloat) == Failure(InvalidBlur)
  {
  }

  /** Flags are case-sensitive and default to off. */
  lemma FlagsAreExact()
    ensures ParseFlag("true")
    ensures !ParseFlag("True") && !ParseFlag("TRUE") && !ParseFlag("1") && !ParseFlag("")
    ensures !ParseFlag("false")
  {
  }

  // ------------------------------------------------------------------ fetch

  /** Once validation has failed the reply does not depend on the fetch or the
      image library: no fetch happens. */
  lemma ValidationFailureSkipsFetch(
    req: Request, bucketHost: string,
    parseFloat: string -> Option<GoStrconv.Float64>,
    fetch1: string -> FetchResult, process1: (Bytes, Options) -> Option<Bytes>,
    fetch2: string -> FetchResult, process2: (Bytes, Options) -> Option<Bytes>)
    requires Validate(req, bucketHost, parseFloat).Failure?
    ensures Handle(req, bucketHost, parseFloat, fetch1, process1)
         == Handle(req, bucketHost, parseFloat, fetch2, process2)
    ensures Handle(req, bucketHost, parseFloat, fetch1, process1).status == StatusBadRequest
  {
  }

  /** Only status 200 is a successful fetch: 201, 404 and a transport error are
      all answered 400 "failed to fetch image", and the body is not looked at. */
  lemma FetchSucceedsOnlyOn200(
    req: Request, bucketHost: string,
    parseFloat: string -> Option<GoStrconv.Float64>,
    fetch: string -> FetchResult,
    process: (Bytes, Options) -> Option<Bytes>)
    ensures Validate(req, bucketHost, parseFloat).Success? ==>
              var f := fetch(Validate(req, bucketHost, parseFloat).value.url);
              (f.TransportError? || f.statusCode != StatusOK) ==>
                Handle(req, bucketHost, parseFloat, fetch, process) == Json(StatusBadRequest, "failed to fetch image")
  {
  }

  /** Status 201 and 404 get the same answer. */
  lemma Fetch201And404Alike(
    req: Request, bucketHost: string,
    parseFloat: string -> Option<GoStrconv.Float64>,
    body1: Option<Bytes>, body2: Option<Bytes>,
    process: (Bytes, Options) -> Option<Bytes>)
    ensures Handle(req, bucketHost, parseFloat, _ => Response(201, body1), process)
         == Handle(req, bucketHost, parseFloat, _ => Response(404, body2), process)
         == Handle(req, bucketHost, parseFloat, _ => TransportError, process)
  {
  }

  /** A body that cannot be read, or an image the library cannot process, is
      answered 500, each with its own message. */
  lemma ServerSideFailures(
    req: Request, bucketHost: string,
    parseFloat: string -> Option<GoStrconv.Float64>,
    fetch: string -> FetchResult,
    process: (Bytes, Options) -> Option<Bytes>)
    ensures Validate(req, bucketHost, parseFloat).Success? ==>
            var v := Validate(req, bucketHost, parseFloat).value;
            fetch(v.url) == Response(StatusOK, None) ==>
              Handle(req, bucketHost, parseFloat, fetch, process)
              == Json(StatusInternalServerError, "failed to read image")
    ensures Validate(req, bucketHost, parseFloat).Success? ==>
            var v := Validate(req, bucketHost, parseFloat).value;
            (fetch(v.url).Response? && fetch(v.url).statusCode == StatusOK && fetch(v.url).body.Some?
             && process(fetch(v.url).body.value, BuildSpec(v, NegotiateFormat(v.format, req.accept))).None?) ==>
              Handle(req, bucketHost, parseFloat, fetch, process)
              == Json(StatusInternalServerError, "image processing failed")
  {
  }

  /** Every failure has its own message, so the JSON body names the check. */
  lemma MessagesDistinct(e1: Failure, e2: Failure)
    requires e1 != e2
    ensures MessageOf(e1) != MessageOf(e2)
  {
  }

  // ----------------------------------------------------- format negotiation

  /** An explicit f decides the type by itself: the Accept header is not read. */
  lemma ExplicitFormatIgnoresAccept(format: string, accept1: string, accept2: string)
    requires format != "auto"
    ensures NegotiateFormat(format, accept1) == NegotiateFormat(format, accept2)
  {
  }

  /** With f=auto the reply's content type is the Accept header itself when it
      is exactly image/avif or image/webp, and image/jpeg otherwise. */
  lemma AutoEchoesAccept(accept: string)
    ensures ContentTypeOf(NegotiateFormat("auto", accept))
         == if accept == "image/avif" || accept == "image/webp" then accept else "image/jpeg"
  {
  }

  /** A header listing several types, or one with a q-value, gets JPEG. */
  lemma AutoIgnoresAcceptGrammar()
    ensures NegotiateFormat("auto", "image/avif,image/webp") == JPEG
    ensures NegotiateFormat("auto", "image/webp;q=0.9") == JPEG
    ensures NegotiateFormat("auto", "*/*") == JPEG
    ensures NegotiateFormat("auto", "") == JPEG
  {
  }

  /** f=jpeg, png, webp or avif gives the content type image/<f>; any other
      value, including "" and differently cased names, gives image/jpeg. */
  lemma ExplicitFormatContentType(format: string, accept: string)
    requires format != "auto"
    ensures format in {"jpeg", "png", "webp", "avif"} ==>
              ContentTypeOf(NegotiateFormat(format, accept)) == "image/" + format
    ensures format !in {"jpeg", "png", "webp", "avif"} ==>
              NegotiateFormat(format, accept) == JPEG
  {
  }

  /** Distinct selectable types have distinct content types, none of them the
      octet-stream default. */
  lemma ContentTypeInjective(t1: ImageType, t2: ImageType)
    requires t1 != Other && t2 != Other
    ensures ContentTypeOf(t1) != OctetStream
    ensures ContentTypeOf(t1) == ContentTypeOf(t2) ==> t1 == t2
  {
    if ContentTypeOf(t1) == ContentTypeOf(t2) {
      assert FormatName(t1) == ContentTypeOf(t1)[6..];
      assert FormatName(t2) == ContentTypeOf(t2)[6..];
    }
  }

  // ------------------------------------------------------------ end to end

  /** A successful reply carries the library's output for the fetched bytes
      and the options built from the request, with the content type of the
      negotiated type. */
  lemma SuccessfulReply(
    req: Request, bucketHost: string,
    parseFloat: string -> Option<GoStrconv.Float64>,
    fetch: string -> FetchResult,
    process: (Bytes, Options) -> Option<Bytes>)
    ensures Handle(req, bucketHost, parseFloat, fetch, process).Data? ==>
            var v := Validate(req, bucketHost, parseFloat).value;
            var t := NegotiateFormat(v.format, req.accept);
            var options := BuildSpec(v, t);
            && fetch(v.url) == Response(StatusOK, Some(FetchImage(fetch, v.url).value))
            && options.quality == Quality && options.width > 0 && options.height >= 0
            && process(FetchImage(fetch, v.url).value, options).Some?
            && Handle(req, bucketHost, parseFloat, fetch, process)
               == Data(StatusOK, "image/" + FormatName(t), process(FetchImage(fetch, v.url).value, options).value)
  {
  }

  /** w=100&f=jpeg&abs=http://example/img.png with a 200 OK source: a 200
      reply of type image/jpeg carrying the library's non-empty output. */
  lemma ScenarioExplicitJpeg(src: Bytes, fetch: string -> FetchResult, process: (Bytes, Options) -> Option<Bytes>,
                             parseFloat: string -> Option<GoStrconv.Float64>, bucketHost: string)
    requires fetch("http://example/img.png") == Response(StatusOK, Some(src))
    requires parseFloat("0") == Some(GoStrconv.Finite(0.0))
    requires forall o :: process(src, o).Some? && |process(src, o).value| > 0
    ensures var req := Request(map["w" := "100", "f" := "jpeg", "abs" := "http://example/img.png"], "");
            var reply := Handle(req, bucketHost, parseFloat, fetch, process);
            && reply.Data? && reply.status == StatusOK && reply.contentType == "image/jpeg" && |reply.body| > 0
  {
    var req := Request(map["w" := "100", "f" := "jpeg", "abs" := "http://example/img.png"], "");
    assert Query(req, "rel") == "";
    assert Query(req, "h") == "";
    assert ParseWidth("100") == Success(100);
  }

  /** w=50&f=auto with Accept: image/webp: the library is asked for WEBP at
      width 50, proportional height, quality 85, and the reply is image/webp. */
  lemma ScenarioAutoWebp(src: Bytes, out: Bytes, fetch: string -> FetchResult, process: (Bytes, Options) -> Option<Bytes>,
                         parseFloat: string -> Option<GoStrconv.Float64>, bucketHost: string)
    requires fetch("http://example/img.png") == Response(StatusOK, Some(src))
    requires parseFloat("0") == Some(GoStrconv.Finite(0.0))
    requires process(src, Options(50, 0, false, 85, GoStrconv.Finite(0.0), InterpretationSRGB, WEBP)) == Some(out)
    ensures var req := Request(map["w" := "50", "f" := "auto", "abs" := "http://example/img.png"], "image/webp");
            Handle(req, bucketHost, parseFloat, fetch, process) == Data(StatusOK, "image/webp", out)
  {
    var req := Request(map["w" := "50", "f" := "auto", "abs" := "http://example/img.png"], "image/webp");
    assert Query(req, "rel") == "";
    assert Query(req, "h") == "";
    assert ParseWidth("50") == Success(50);
  }

  /** w=0 with a source is refused with 400 "invalid width"; w=0 without a
      source is refused for the missing source, which is checked first. */
  lemma ScenarioZeroWidth(fetch: string -> FetchResult, process: (Bytes, Options) -> Option<Bytes>,
                          parseFloat: string -> Option<GoStrconv.Float64>, bucketHost: string)
    ensures Handle(Request(map["w" := "0", "abs" := "http://example/img.png"], ""), bucketHost, parseFloat, fetch, process)
         == Json(StatusBadRequest, "invalid width")
    ensures Handle(Request(map["w" := "0"], ""), bucketHost, parseFloat, fetch, process)
         == Json(StatusBadRequest, "rel or abs parameter required")
  {
    var req := Request(map["w" := "0", "abs" := "http://example/img.png"], "");
    assert Query(req, "rel") == "";
    assert ParseWidth("0") == Failure(InvalidWidth);
  }
}
