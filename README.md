# imagery `/api/opt` handler, modelled in Dafny

The image service answers `GET /api/opt` with a resized, cropped, blurred,
grey-scaled or re-encoded copy of a source image. The whole request pipeline is
one closure in `api/main.go`. This project models that closure stage by stage,
with one function per stage:

- **source resolution** (`ResolveSource`): a bucket-relative `rel` joined to
  the `BUCKET_HOST` with one slash, or an absolute `abs` taken verbatim;
- **parameter validation** (`ParseWidth`, `ParseHeight`, `ParseBlur`,
  `ParseFlag`, `Validate`): the checks in the handler's order;
- **fetch** (`FetchImage`): only HTTP 200 with a readable body succeeds;
- **format negotiation** (`NegotiateFormat`): explicit `f`, or `f=auto` with an
  exact-string match on the `Accept` header;
- **spec building** (`BuildSpec`): the fields of `bimg.Options` the handler
  sets, with quality fixed at 85;
- **content type** (`ContentTypeOf`);
- **the handler** (`Handle`): either a JSON error (status, message) or a 200
  reply with the content type and the processed bytes.

The handler's pure logic is written as datatypes and functions, because the
code is straight-line `if`/`switch` logic with no state kept between requests.
Its collaborators are parameters:

- the `BUCKET_HOST` environment variable is `bucketHost`;
- `strconv.ParseFloat` is `parseFloat` (None for a non-nil error);
- `http.Get` with `io.ReadAll` is `fetch`, which reports a transport error or
  a status code with a body that may fail to read;
- `bimg.NewImage(..).Process(..)` is `process` (None for a non-nil error).

`strconv.Atoi` is modelled exactly, in `GoStrconv`, for a 64-bit `int`: an
optional sign, one or more ASCII digits, and a range error outside
[-2^63, 2^63-1]. `strings.TrimRight` and `strings.TrimLeft` with the cutset
`"/"` are modelled in `GoStrings`.

Files: `wrappers.dfy` (Option, Result), `go_strings.dfy`, `go_strconv.dfy`,
`opt_handler.dfy` (the stages and `Handle`), `opt_handler_lemmas.dfy`
(properties that span stages, and a few example requests end to end).

Behaviour of the code that the model keeps:

- When both `rel` and `abs` are given, `rel` wins. This is not an error.
- The source is checked first. So `w=0` without a source is answered with
  "rel or abs parameter required", not "invalid width" (`ScenarioZeroWidth`).
- The `imageURL == ""` half of the test at line 39 can never fire. A resolved
  URL is never empty (`ResolveSource`, `MissingWidthMeansNoW`).
- `DefaultQuery` applies its default only to an absent key. An empty `h` or `b`
  still gives 0 because of the `!= ""` guards. An absent `b` is the string
  `"0"`, which goes through `ParseFloat`.
- The blur test is Go's `b < 0` on a float64, so NaN and +Inf are accepted and
  only finite negatives and -Inf are refused (`BlurSpecialValues`). An accepted
  blur is therefore "not below zero" rather than "at least zero".
- Flags are on only for the exact string `"true"`.
- `Accept` is compared as a whole string, not parsed as the list with
  q-values and wildcards of section 12.5.1 of RFC 9110.

## Model

| member | source | states |
|---|---|---|
| GoStrings.TrimRight | api/main.go:24 | the result is the prefix of the host left after dropping every trailing '/': only slashes were dropped and the result does not end in '/' |
| GoStrings.TrimLeft | api/main.go:24 | the result is the suffix of rel left after dropping every leading '/': only slashes were dropped and the result does not start with '/' |
| GoStrings.TrimRightPadded | api/main.go:24 | any number of extra trailing slashes on the host leaves TrimRight unchanged |
| GoStrings.TrimLeftPadded | api/main.go:24 | any number of extra leading slashes on rel leaves TrimLeft unchanged |
| GoStrconv.ScanDigits | api/main.go:44 | Atoi's left-to-right digit loop succeeds exactly on all-digit strings and yields their positional decimal value |
| GoStrconv.Atoi | api/main.go:44 | Some exactly for an optional sign plus one or more digits whose value fits a 64-bit int, and then that value; a syntax or range error is None |
| GoStrconv.FormatInt | api/main.go:44 | not called by the handler: the reference inverse (strconv.Itoa) that the Atoi of line 44 is checked against; the canonical spelling of every integer is an integer literal whose value is that integer |
| GoStrconv.IsNegative | api/main.go:63 | Go's `b < 0` on a float64: false for NaN and +Inf, true for -Inf, and for a finite value exactly when it is below zero |
| GoStrconv.AtoiFormatInt | api/main.go:44 | round trip: Atoi reads back the canonical spelling of every 64-bit int |
| GoStrconv.AtoiRangeError | api/main.go:44-45 | 2^63 and -2^63-1 are range errors; the two extreme 64-bit ints are accepted |
| GoStrconv.AtoiExamples | api/main.go:44 | "+42", "-7" and "007" parse; "", "+", "-", "1.5", " 1" and "1_000" do not |
| OptHandler.Query | api/main.go:19-33 | gin's Query: the value of a present key, and "" for an absent one |
| OptHandler.DefaultQuery | api/main.go:34-37 | gin's DefaultQuery: the value of a present key even when it is empty, and the default only for an absent key |
| OptHandler.MessageOf | api/main.go:28-125 | every failure has a non-empty message, the text passed to reqRes.JSON (MessagesDistinct shows they differ) |
| OptHandler.ErrorReply | api/main.go:28-126 | a failure is answered with a JSON reply, never status 200, carrying the failure's status and message |
| OptHandler.ParseFlag | api/main.go:85-93 | a flag is on exactly for the string "true" |
| OptHandler.StatusOf | api/main.go:28-125 | every failure is answered 400 or 500, and 500 exactly for a read failure or a processing failure |
| OptHandler.JoinBucketPath | api/main.go:22-24 | the URL is the host and rel joined by exactly one '/', with no slash on either side of it |
| OptHandler.ResolveSource | api/main.go:19-30 | fails (MissingSource) exactly when rel and abs are both empty; a non-empty rel wins and is slash-joined to the host; otherwise abs is returned unchanged; the URL is never empty |
| OptHandler.ParseWidth | api/main.go:44-48 | succeeds exactly on an integer literal with value in 1..2^63-1, giving that value; every failure is InvalidWidth |
| OptHandler.ParseHeight | api/main.go:50-58 | empty gives 0; otherwise succeeds exactly on an integer literal with value in 0..2^63-1; accepted heights are never negative; every failure is InvalidHeight |
| OptHandler.ParseBlur | api/main.go:60-68 | empty gives sigma 0; otherwise succeeds exactly when the float parser succeeds with a value that is not below zero; every failure is InvalidBlur |
| OptHandler.Validate | api/main.go:19-68 | MissingSource exactly when there is no source; MissingWidth exactly when there is a source and w is empty; InvalidWidth exactly when the source resolves, w is non-empty and ParseWidth fails; InvalidHeight exactly when source and width pass and ParseHeight fails; InvalidBlur exactly when source, width and height pass and ParseBlur fails (so the checks run in that order); success exactly when every stage succeeds; the accepted request has a non-empty URL, width > 0, height >= 0, a blur that is not negative, and c, f, g with their defaults |
| OptHandler.FetchImage | api/main.go:70-80 | succeeds exactly on a response with status 200 and a readable body; FetchFailed exactly on a transport error or any other status; ReadFailed exactly on status 200 with an unreadable body |
| OptHandler.NegotiateFormat | api/main.go:96-121 | always one of the four types; with auto, AVIF exactly for Accept "image/avif", WEBP exactly for "image/webp", never PNG; otherwise a known format name gives its type and anything else gives JPEG |
| OptHandler.BuildSpec | api/main.go:82-94 | width, height and blur copied; crop exactly for c = "true"; black-and-white exactly for g = "true"; quality 85; the negotiated type |
| OptHandler.ContentTypeOf | api/main.go:129-141 | each selectable type maps to "image/" + its format name; only the other library types map to application/octet-stream |
| OptHandler.Handle | api/main.go:18-144 | status 200 exactly for a data reply; errors are 400 or 500; a validation failure is answered with its own status and message; a data reply implies validation and fetch succeeded and carries the negotiated content type, never octet-stream; after validation passes, a failed fetch is answered with that fetch failure, a processing failure with 500 "image processing failed", and a processed image `out` with Data(200, ContentTypeOf(t), out) for the negotiated type t |
| OptHandlerLemmas.JoinedWithOneSlashUnique | api/main.go:24 | at most one URL joins a host and a path with exactly one slash, so that property fixes the join |
| OptHandlerLemmas.ResolveIgnoresSlashPadding | api/main.go:22-24 | extra trailing slashes on the host and extra leading slashes on a non-empty rel do not change the resolved URL |
| OptHandlerLemmas.ResolveExamples | api/main.go:19-30 | "http://h/" with "/x" and "http://h" with "x" both give "http://h/x"; rel wins over abs; abs is verbatim; no source is MissingSource |
| OptHandlerLemmas.TrimExamples | api/main.go:24 | TrimRight and TrimLeft on the example host and path |
| OptHandlerLemmas.WidthAcceptsPositive | api/main.go:44-48 | every positive 64-bit int, in its canonical spelling, is accepted as the width |
| OptHandlerLemmas.WidthRefusals | api/main.go:44-48 | "0", "-5", "abc", "12px" and 2^63 are invalid widths; "+100" is 100 |
| OptHandlerLemmas.MissingWidthMeansNoW | api/main.go:39-42 | the "url and w required" error always means w was empty or absent, never an empty URL |
| OptHandlerLemmas.MissingSourceShortCircuits | api/main.go:22-30 | with neither rel nor abs, the reply is 400 "rel or abs parameter required" whatever else the request holds and whatever the oracles do |
| OptHandlerLemmas.WidthCheckedBeforeHeightAndBlur | api/main.go:44-68 | a width failure is reported whatever h and b are |
| OptHandlerLemmas.HeightCheckedBeforeBlur | api/main.go:50-68 | a height failure is reported whatever b is |
| OptHandlerLemmas.AbsentHeightIsProportional | api/main.go:50-58 | an absent or empty h gives height 0 |
| OptHandlerLemmas.AbsentBlurIsZero | api/main.go:60-68 | an empty b gives sigma 0; an absent b does too when "0" parses as 0 |
| OptHandlerLemmas.BlurSpecialValues | api/main.go:62-67 | NaN and +Inf pass the `b < 0` test, -Inf and parse errors are InvalidBlur |
| OptHandlerLemmas.FlagsAreExact | api/main.go:85-93 | only "true" turns a flag on; "True", "TRUE", "1", "" and the default "false" do not |
| OptHandlerLemmas.ValidationFailureSkipsFetch | api/main.go:22-70 | after a validation failure the reply is 400 and does not depend on the fetch or the image library |
| OptHandlerLemmas.FetchSucceedsOnlyOn200 | api/main.go:70-74 | a transport error or any status other than 200 gives 400 "failed to fetch image" |
| OptHandlerLemmas.Fetch201And404Alike | api/main.go:70-74 | status 201, status 404 and a transport error give the same reply |
| OptHandlerLemmas.ServerSideFailures | api/main.go:76-127 | an unreadable body gives 500 "failed to read image"; a library failure gives 500 "image processing failed" |
| OptHandlerLemmas.MessagesDistinct | api/main.go:28-125 | different failures carry different messages |
| OptHandlerLemmas.ExplicitFormatIgnoresAccept | api/main.go:108-121 | an explicit f decides the type whatever the Accept header is |
| OptHandlerLemmas.AutoEchoesAccept | api/main.go:97-141 | with f=auto the content type is the Accept value when it is exactly image/avif or image/webp, and image/jpeg otherwise |
| OptHandlerLemmas.AutoIgnoresAcceptGrammar | api/main.go:97-107 | lists, q-values, wildcards and an empty header all give JPEG |
| OptHandlerLemmas.ExplicitFormatContentType | api/main.go:108-141 | f = jpeg, png, webp or avif gives content type image/f; any other f gives JPEG |
| OptHandlerLemmas.ContentTypeInjective | api/main.go:129-141 | selectable types have distinct content types, none of them octet-stream |
| OptHandlerLemmas.SuccessfulReply | api/main.go:70-143 | a 200 reply means the fetch returned 200 with a body, and the library got that body with options of quality 85, width > 0 and height >= 0; the reply carries its output and image/<negotiated format> |
| OptHandlerLemmas.ScenarioExplicitJpeg | api/main.go:18-144 | w=100&f=jpeg&abs=... with a 200 source gives a 200 image/jpeg reply with a non-empty body |
| OptHandlerLemmas.ScenarioAutoWebp | api/main.go:18-144 | w=50&f=auto with Accept image/webp asks the library for WEBP at 50x0, quality 85, and replies image/webp |
| OptHandlerLemmas.ScenarioZeroWidth | api/main.go:22-48 | w=0 with a source gives 400 "invalid width"; without a source it gives the missing-source error |

## Left out

- gin's server, routing, trusted proxies and `server.Run(":8080")` (lines 15-18, 146): framework plumbing with no decision logic.
- The network fetch and body read (`http.Get`, `io.ReadAll`, `resp.Body.Close`): I/O, replaced by the `fetch` oracle. Only the decisions taken on its result are modelled. Closing the body has no effect on the reply.
- Image processing (`bimg ... Process`): a native library, replaced by the `process` oracle.
- `strconv.ParseFloat`: floating-point parsing, replaced by the `parseFloat` oracle. The `Float64` result keeps NaN and the infinities but not the sign of zero, which the `b < 0` test cannot see.
- `os.Getenv("BUCKET_HOST")`: environment lookup, replaced by the `bucketHost` parameter.
- Concurrency between requests: handled by the server. The handler shares no mutable state.
- Repeated query keys: the request holds one value per key, the first one, which is the value gin's `Query` returns.
- JSON encoding of the error body and the writing of the reply: `Reply` holds the status with the message or content type and bytes.
- The order of the Accept-header read relative to the fetch: the source reads the header after fetching; the read has no effect, so the model reads it from the request value.
- bimg's other image types are one `Other` constructor. It exists so that the octet-stream default of the content-type switch can be expressed.
