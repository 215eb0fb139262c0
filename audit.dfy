/**
 * The audit client: turning an image reference into the raw base64
 * payload the vision model needs, and checking the model's reply.
 *
 * The network fetch, the `FileReader` callbacks and the model call are
 * not modelled as code: their outcomes are inputs (`FetchOutcome`,
 * `ModelOutcome`), and `JSON.parse` is a parameter from text to an
 * optional parsed reply.
 */
module Audit {
  import opened Wrappers
  import opened Strings
  import opened Seqs

  /**
   * The parsed reply. The source casts the parsed JSON to this shape
   * without checking it, so `status` holds whatever string the reply had.
   */
  datatype AuditResult = AuditResult(
    complianceScore: int,
    observations: seq<string>,
    recommendations: seq<string>,
    status: string)

  /** The three statuses the result type declares. */
  const STATUSES: seq<string> := ["Pass", "Attention Required", "Fail"]

  /** A result within the declared domain: a score from 0 to 100 and a declared status. */
  predicate InDeclaredDomain(r: AuditResult)
  {
    0 <= r.complianceScore <= 100 && r.status in STATUSES
  }

  /** The errors an audit can fail with. */
  datatype AuditError =
    | ImageNotAccessible   // fetch threw, the status was not ok, or the body could not be read
    | Base64ExtractFailed  // the reader's data URL had no payload after its first comma
    | ReadAsBase64Failed   // the reader reported an error
    | ModelCallFailed      // the model request itself was rejected
    | EmptyResponse        // the model's reply had no text
    | InvalidFormat        // the model's reply text was not JSON

  /** The message the source throws with; a rejected model call carries the client library's own error. */
  function Message(e: AuditError): Option<string>
  {
    match e
    case ImageNotAccessible =>
      Some("Could not access image URL for analysis. Please ensure the image is accessible via CORS or upload a local file.")
    case Base64ExtractFailed => Some("Failed to extract base64 data from reader")
    case ReadAsBase64Failed => Some("Failed to read image as base64")
    case ModelCallFailed => None
    case EmptyResponse => Some("The AI model returned an empty response.")
    case InvalidFormat => Some("The AI model returned an invalid format. Please try again.")
  }

  /** How fetching a remote image and reading it as a data URL went. */
  datatype FetchOutcome =
    | FetchThrew
    | NotOk
    | BodyFailed
    | ReaderFailed
    | ReaderLoaded(dataUrl: string)

  /**
   * `processImageInput`. A `data:` string keeps the piece after its first
   * comma (up to the next comma), or the whole string without a comma.
   * An `http` string is fetched: failures of the fetch or of the body map
   * to one "could not access" error, while the reader's own rejections
   * escape that mapping, because the reader's promise is returned, not
   * awaited, inside the `try`. Anything else is passed through.
   */
  function ProcessImageInput(input: string, fetch: FetchOutcome): (r: Result<string, AuditError>)
    ensures StartsWith(input, "data:") ==> r.Ok?
    ensures r.Err? ==> StartsWith(input, "http") && !StartsWith(input, "data:")
    ensures r.Err? ==> r.error in {ImageNotAccessible, ReadAsBase64Failed, Base64ExtractFailed}
    ensures StartsWith(input, "http") && r.Ok? ==> r.value != "" && ',' !in r.value
    ensures !StartsWith(input, "data:") && !StartsWith(input, "http") ==> r == Ok(input)
  {
    HttpIsNotData(input);
    if StartsWith(input, "data:") then
      var split := Split(input, ',');
      Ok(if |split| > 1 then split[1] else split[0])
    else if StartsWith(input, "http") then
      match fetch
      case FetchThrew => Err(ImageNotAccessible)
      case NotOk => Err(ImageNotAccessible)
      case BodyFailed => Err(ImageNotAccessible)
      case ReaderFailed => Err(ReadAsBase64Failed)
      case ReaderLoaded(result) =>
        var parts := Split(result, ',');
        if |parts| > 1 && parts[1] != "" then Ok(parts[1]) else Err(Base64ExtractFailed)
    else
      Ok(input)
  }

  /**
   * A `data:` string with a comma yields the longest comma-free stretch
   * right after its first comma, and never fails.
   */
  lemma DataUrlPayload(input: string, fetch: FetchOutcome)
    requires StartsWith(input, "data:") && ',' in input
    ensures ProcessImageInput(input, fetch).Ok?
    ensures var i := FirstIndex(input, ',');
            var p := ProcessImageInput(input, fetch).value;
            && ',' !in p
            && i + 1 + |p| <= |input|
            && input[i + 1..i + 1 + |p|] == p
            && (i + 1 + |p| == |input| || input[i + 1 + |p|] == ',')
  {
    SplitSecondPiece(input, ',');
  }

  /** A `data:` string without a comma is returned unchanged. */
  lemma DataUrlWithoutComma(input: string, fetch: FetchOutcome)
    requires StartsWith(input, "data:") && ',' !in input
    ensures ProcessImageInput(input, fetch) == Ok(input)
  {
    SplitNoSeparator(input, ',');
  }

  /**
   * A `data:` string whose first comma is directly followed by another
   * comma or by the end yields the empty payload, without an error.
   */
  lemma DataUrlEmptyPayload(input: string, fetch: FetchOutcome)
    requires StartsWith(input, "data:") && ',' in input
    requires var i := FirstIndex(input, ','); i + 1 == |input| || input[i + 1] == ','
    ensures ProcessImageInput(input, fetch) == Ok("")
  {
    var i := FirstIndex(input, ',');
    var rest := input[i + 1..];
    assert Split(input, ',') == [input[..i]] + Split(rest, ',');
    if i + 1 == |input| {
      assert rest == "";
    } else {
      assert rest[0] == ',';
      assert FirstIndex(rest, ',') == 0;
    }
  }

  /** The `data:` test comes first: a data URL never reaches the fetch, whatever it would return. */
  lemma DataUrlNeverFetched(input: string, f: FetchOutcome, g: FetchOutcome)
    requires StartsWith(input, "data:")
    ensures ProcessImageInput(input, f) == ProcessImageInput(input, g)
    ensures ProcessImageInput(input, f).Ok?
  {
  }

  /** Input with neither prefix is passed through unchanged, whatever a fetch would return. */
  lemma FallbackIsIdentity(input: string, fetch: FetchOutcome)
    requires !StartsWith(input, "data:") && !StartsWith(input, "http")
    ensures ProcessImageInput(input, fetch) == Ok(input)
  {
  }

  /** On the http branch, a thrown fetch, a non-ok status and an unreadable body all become the one access error. */
  lemma HttpFailuresMapToAccessError(input: string, fetch: FetchOutcome)
    requires StartsWith(input, "http")
    requires fetch.FetchThrew? || fetch.NotOk? || fetch.BodyFailed?
    ensures ProcessImageInput(input, fetch) == Err(ImageNotAccessible)
  {
    HttpIsNotData(input);
  }

  /**
   * On the http branch, a reader result whose first comma is followed by
   * a non-comma character yields the non-empty, comma-free stretch right
   * after that comma.
   */
  lemma HttpPayload(url: string, dataUrl: string)
    requires StartsWith(url, "http")
    requires ',' in dataUrl
    requires var i := FirstIndex(dataUrl, ','); i + 1 < |dataUrl| && dataUrl[i + 1] != ','
    ensures ProcessImageInput(url, ReaderLoaded(dataUrl)).Ok?
    ensures var i := FirstIndex(dataUrl, ',');
            var p := ProcessImageInput(url, ReaderLoaded(dataUrl)).value;
            && p != "" && ',' !in p
            && i + 1 + |p| <= |dataUrl|
            && dataUrl[i + 1..i + 1 + |p|] == p
            && (i + 1 + |p| == |dataUrl| || dataUrl[i + 1 + |p|] == ',')
  {
    HttpIsNotData(url);
    SplitSecondPiece(dataUrl, ',');
  }

  /**
   * A reader error on the http branch is not mapped to the access error:
   * it rejects with its own "Failed to read image as base64".
   */
  lemma ReaderErrorEscapes(url: string)
    requires StartsWith(url, "http")
    ensures ProcessImageInput(url, ReaderFailed) == Err(ReadAsBase64Failed)
    ensures Message(ReadAsBase64Failed) != Message(ImageNotAccessible)
  {
    HttpIsNotData(url);
  }

  /** No string starts with both prefixes. */
  lemma HttpIsNotData(s: string)
    ensures StartsWith(s, "http") ==> !StartsWith(s, "data:")
  {
    if StartsWith(s, "http") {
      assert s[0] == "http"[0];
    }
  }

  /**
   * On the http branch the payload must be non-empty: a reader result
   * that ends at its first comma is rejected, where the same text given
   * directly as a `data:` string yields the empty payload.
   */
  lemma EmptyPayloadOnlyRejectedAfterFetch(dataUrl: string, url: string, fetch: FetchOutcome)
    requires StartsWith(dataUrl, "data:") && ',' in dataUrl && FirstIndex(dataUrl, ',') == |dataUrl| - 1
    requires StartsWith(url, "http")
    ensures ProcessImageInput(dataUrl, fetch) == Ok("")
    ensures ProcessImageInput(url, ReaderLoaded(dataUrl)) == Err(Base64ExtractFailed)
  {
    DataUrlEmptyPayload(dataUrl, fetch);
    SplitSecondPiece(dataUrl, ',');
    var parts := Split(dataUrl, ',');
    assert |parts| > 1 && parts[1] == "";
    HttpIsNotData(url);
  }

  /** The model call: rejected outright, or answered with optional text. */
  datatype ModelOutcome = CallRejected | Responded(text: Option<string>)

  /**
   * What `JSON.parse` gives for reply text that is JSON, after the source
   * casts it to the result type without a check: a value of the declared
   * shape, or JSON of any other shape (`{}`, `[]`, `42`, `null`, ...),
   * whose content the model does not represent.
   */
  datatype Reply = WellShaped(result: AuditResult) | OtherShape

  /**
   * The checks on the model's reply text: missing or empty text is one
   * error, text that is not JSON is another; any JSON is returned as it is.
   * `parse` gives `None` for text that is not JSON.
   */
  function CheckResponse(text: Option<string>, parse: string -> Option<Reply>): (r: Result<Reply, AuditError>)
    ensures r.Ok? <==> text.Some? && text.value != "" && parse(text.value).Some?
    ensures r.Ok? ==> parse(text.value) == Some(r.value)
    ensures r.Err? ==> (r.error == EmptyResponse <==> text.None? || text.value == "")
    ensures r.Err? ==> r.error in {EmptyResponse, InvalidFormat}
  {
    if text.None? || text.value == "" then Err(EmptyResponse)
    else
      match parse(text.value)
      case None => Err(InvalidFormat)
      case Some(reply) => Ok(reply)
  }

  /**
   * No shape, range or enum check: JSON of another shape, and a result
   * with a score and status outside the declared domain, are both
   * returned as a successful audit; the two errors have different messages.
   */
  lemma OutOfDomainPassesThrough()
    ensures var odd := AuditResult(150, [], [], "Maybe");
            && !InDeclaredDomain(odd)
            && CheckResponse(Some("{}"), (t: string) => Some(WellShaped(odd))) == Ok(WellShaped(odd))
    ensures CheckResponse(Some("null"), (t: string) => Some(OtherShape)) == Ok(OtherShape)
    ensures Message(EmptyResponse) != Message(InvalidFormat)
  {
    var odd := AuditResult(150, [], [], "Maybe");
    assert !InDeclaredDomain(odd);
  }

  /** `auditWiringImage`: normalise the image, call the model, check the reply. */
  function AuditWiringImage(
    imageInput: string,
    fetch: FetchOutcome,
    model: ModelOutcome,
    parse: string -> Option<Reply>
  ): (r: Result<Reply, AuditError>)
    ensures ProcessImageInput(imageInput, fetch).Err? ==> r == Err(ProcessImageInput(imageInput, fetch).error)
    ensures model.CallRejected? && ProcessImageInput(imageInput, fetch).Ok? ==> r == Err(ModelCallFailed)
    ensures ProcessImageInput(imageInput, fetch).Ok? && model.Responded? ==> r == CheckResponse(model.text, parse)
    ensures r.Ok? ==>
              && ProcessImageInput(imageInput, fetch).Ok?
              && model.Responded? && model.text.Some? && model.text.value != ""
              && parse(model.text.value) == Some(r.value)
  {
    match ProcessImageInput(imageInput, fetch)
    case Err(e) => Err(e)
    case Ok(_) =>
      match model
      case CallRejected => Err(ModelCallFailed)
      case Responded(text) => CheckResponse(text, parse)
  }

  /** A failed fetch and a malformed reply are told apart by their errors and messages. */
  lemma FetchFailureDistinctFromBadReply(
    url: string, raw: string, text: string, parse: string -> Option<Reply>)
    requires StartsWith(url, "http")
    requires !StartsWith(raw, "data:") && !StartsWith(raw, "http")
    requires text != "" && parse(text).None?
    ensures AuditWiringImage(url, NotOk, Responded(Some(text)), parse) == Err(ImageNotAccessible)
    ensures AuditWiringImage(raw, NotOk, Responded(Some(text)), parse) == Err(InvalidFormat)
    ensures Message(ImageNotAccessible) != Message(InvalidFormat)
  {
    HttpFailuresMapToAccessError(url, NotOk);
  }
}
