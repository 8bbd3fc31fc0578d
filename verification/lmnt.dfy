/**
 * The speech-synthesis client of config/lmnt.js (`synthesizeSpeech`): the
 * missing-key check, the merge of default and caller options, the
 * stringification of `conversational`, the single GET request (an abstract
 * function from query parameters to a reply), the metadata read from the
 * response headers, and the classification of failures into messages.
 */
module Lmnt {
  import opened Wrappers
  import Decimal

  /** A JavaScript value as it can appear in a JSON body or an options object. */
  datatype Value = Undefined | Null | Bool(b: bool) | Num(n: int) | Str(s: string)

  /** A plain object of named values: options, query parameters, request bodies. */
  type Params = map<string, Value>

  const TextKey: string := "text"
  const ApiKeyKey: string := "X-API-Key"
  const ConversationalKey: string := "conversational"

  /** The client's defaults, overridden key by key by the caller's options. */
  const DefaultOptions: Params := map[
    "voice" := Str("lily"),
    "format" := Str("wav"),
    "model" := Str("aurora"),
    "language" := Str("en"),
    "sample_rate" := Num(24000),
    "speed" := Num(1),
    "conversational" := Bool(false)]

  /** `process.env.LMNT_API_KEY` is truthy: present and not the empty string. */
  predicate Configured(apiKey: Option<string>) {
    apiKey.Some? && |apiKey.value| > 0
  }

  // ---------------------------------------------------------------------------
  // Error taxonomy

  const NotConfiguredText: string := "LMNT API key not configured"
  // The two-sentence messages are written as two literals so that the
  // verifier can read their first characters when telling messages apart.
  const CannotConnectText: string := "Unable to connect to LMNT API." + " Please check your internet connection."
  const TimedOutText: string := "Connection to LMNT API timed out." + " Please try again."
  const BadRequestText: string := "Invalid request parameters"
  const BadKeyText: string := "Invalid API key"
  const ForbiddenText: string := "API key lacks permission"
  const RateLimitedText: string := "Rate limit exceeded"
  const StatusPrefix: string := "LMNT API Error: "
  const FailedPrefix: string := "Synthesis failed: "

  /** The engine's message for `null.toString()`, thrown inside the client's `try`. */
  const NullToStringText: string := "Cannot read properties of null (reading 'toString')"

  /** Why a synthesis failed, one case per message the client throws. */
  datatype Kind =
    | NotConfigured
    | CannotConnect
    | TimedOut
    | BadRequest
    | BadKey
    | Forbidden
    | RateLimited
    | UpstreamStatus(status: int)
    | Other(cause: string)

  /** The human-readable message thrown for each kind. */
  function KindText(k: Kind): string {
    match k
    case NotConfigured => NotConfiguredText
    case CannotConnect => CannotConnectText
    case TimedOut => TimedOutText
    case BadRequest => BadRequestText
    case BadKey => BadKeyText
    case Forbidden => ForbiddenText
    case RateLimited => RateLimitedText
    case UpstreamStatus(s) => StatusPrefix + Decimal.IntText(s)
    case Other(cause) => FailedPrefix + cause
  }

  predicate HasPrefix(s: string, prefix: string) {
    |prefix| <= |s| && s[..|prefix|] == prefix
  }

  /** Reads the kind back from a thrown message: the inverse of `Message`. */
  function Recognise(m: string): Option<Kind> {
    if m == NotConfiguredText then Some(NotConfigured)
    else if m == CannotConnectText then Some(CannotConnect)
    else if m == TimedOutText then Some(TimedOut)
    else if m == BadRequestText then Some(BadRequest)
    else if m == BadKeyText then Some(BadKey)
    else if m == ForbiddenText then Some(Forbidden)
    else if m == RateLimitedText then Some(RateLimited)
    else if HasPrefix(m, StatusPrefix) && Decimal.ParseInt(m[|StatusPrefix|..]).Some? then
      Some(UpstreamStatus(Decimal.ParseInt(m[|StatusPrefix|..]).value))
    else if HasPrefix(m, FailedPrefix) then Some(Other(m[|FailedPrefix|..]))
    else None
  }

  lemma UpstreamStatusMessage(s: int)
    ensures Recognise(KindText(UpstreamStatus(s))) == Some(UpstreamStatus(s))
  {
    var m := KindText(UpstreamStatus(s));
    assert m[0] == 'L' && m[9] == 'E';
    assert NotConfiguredText[9] == 'k';
    assert m[..|StatusPrefix|] == StatusPrefix;
    assert m[|StatusPrefix|..] == Decimal.IntText(s);
    Decimal.IntTextRoundTrip(s);
  }

  lemma OtherMessage(cause: string)
    ensures Recognise(KindText(Other(cause))) == Some(Other(cause))
  {
    var m := KindText(Other(cause));
    assert m[0] == 'S';
    assert NotConfiguredText[0] == 'L' && CannotConnectText[0] == 'U' && TimedOutText[0] == 'C';
    assert BadRequestText[0] == 'I' && BadKeyText[0] == 'I' && ForbiddenText[0] == 'A' && RateLimitedText[0] == 'R';
    assert !HasPrefix(m, StatusPrefix) by {
      assert StatusPrefix[0] == 'L';
    }
    assert m[..|FailedPrefix|] == FailedPrefix;
    assert m[|FailedPrefix|..] == cause;
  }

  /** Every kind's message reads back as that kind. */
  lemma MessageRecognised(k: Kind)
    ensures Recognise(KindText(k)) == Some(k)
  {
    match k
    case UpstreamStatus(s) => UpstreamStatusMessage(s);
    case Other(cause) => OtherMessage(cause);
    case _ =>
  }

  /** Distinct kinds throw distinct messages, so a caller can tell every case apart. */
  lemma MessagesDistinct(k1: Kind, k2: Kind)
    ensures KindText(k1) == KindText(k2) <==> k1 == k2
  {
    MessageRecognised(k1);
    MessageRecognised(k2);
  }

  /** An error as the client throws it: a message, and the `response.status` it carries if any. */
  datatype SynthError = SynthError(message: string, responseStatus: Option<int>)

  /** The client always throws a fresh `Error` built from a message alone. */
  function Thrown(k: Kind): (e: SynthError)
    ensures e.responseStatus.None?
    ensures e.message == KindText(k)
    ensures |e.message| > 0
    ensures Recognise(e.message) == Some(k)
  {
    MessageRecognised(k);
    SynthError(KindText(k), None)
  }

  // ---------------------------------------------------------------------------
  // Classification of a rejected request

  /** What the HTTP layer rejects with: its `code`, the status of the response it carries, and its message. */
  datatype AxiosError = AxiosError(code: Option<string>, responseStatus: Option<int>, message: string)

  /** The statuses that have a message of their own. */
  predicate Dedicated(status: int) {
    status == 400 || status == 401 || status == 403 || status == 429
  }

  /**
   * The catch block: transport codes first, then the response status, then
   * the catch-all carrying the original message.
   */
  function Classify(e: AxiosError): (k: Kind)
    ensures e.code == Some("ENOTFOUND") ==> k == CannotConnect
    ensures e.code == Some("ETIMEDOUT") ==> k == TimedOut
    ensures e.code != Some("ENOTFOUND") && e.code != Some("ETIMEDOUT") && e.responseStatus.Some? ==>
      var s := e.responseStatus.value;
      && (s == 400 ==> k == BadRequest)
      && (s == 401 ==> k == BadKey)
      && (s == 403 ==> k == Forbidden)
      && (s == 429 ==> k == RateLimited)
      && (!Dedicated(s) ==> k == UpstreamStatus(s))
    ensures e.code != Some("ENOTFOUND") && e.code != Some("ETIMEDOUT") && e.responseStatus.None? ==> k == Other(e.message)
    ensures k != NotConfigured
    ensures k.UpstreamStatus? ==> !Dedicated(k.status)
  {
    if e.code == Some("ENOTFOUND") then CannotConnect
    else if e.code == Some("ETIMEDOUT") then TimedOut
    else if e.responseStatus.Some? then
      match e.responseStatus.value
      case 400 => BadRequest
      case 401 => BadKey
      case 403 => Forbidden
      case 429 => RateLimited
      case s => UpstreamStatus(s)
    else Other(e.message)
  }

  // ---------------------------------------------------------------------------
  // Request parameters

  /** `{ ...defaultOptions, ...options, text, 'X-API-Key': key }`: later sources win. */
  function MergeParams(text: Value, options: Params, apiKey: string): (p: Params)
    ensures p.Keys == DefaultOptions.Keys + options.Keys + {TextKey, ApiKeyKey}
    ensures forall k | k in options && k != TextKey && k != ApiKeyKey :: p[k] == options[k]
    ensures forall k | k in DefaultOptions && k !in options :: p[k] == DefaultOptions[k]
    ensures p[TextKey] == text && p[ApiKeyKey] == Str(apiKey)
  {
    DefaultOptions + options + map[TextKey := text, ApiKeyKey := Str(apiKey)]
  }

  /** `value.toString()` for a defined value; `null` has no such method and throws. */
  function Stringify(v: Value): (r: Result<string, string>)
    requires v != Undefined
    ensures r.Failure? <==> v == Null
    ensures v.Bool? ==> r == Success(if v.b then "true" else "false")
    ensures v.Num? ==> r == Success(Decimal.IntText(v.n))
    ensures v.Str? ==> r == Success(v.s)
  {
    match v
    case Null => Failure(NullToStringText)
    case Bool(b) => Success(if b then "true" else "false")
    case Num(n) => Success(Decimal.IntText(n))
    case Str(s) => Success(s)
  }

  /**
   * The query parameters of the request: the merge, then `conversational`
   * replaced by its string form whenever it is defined. Converting `null`
   * throws, which the client reports like any other failure.
   */
  function BuildParams(text: Value, options: Params, apiKey: string): (r: Result<Params, string>)
    ensures var merged := MergeParams(text, options, apiKey);
      && (r.Failure? <==> merged[ConversationalKey] == Null)
      && (r.Failure? ==> r.error == NullToStringText)
      && (r.Success? ==> r.value.Keys == merged.Keys)
      && (r.Success? ==> forall k | k in merged && k != ConversationalKey :: r.value[k] == merged[k])
      && (r.Success? && merged[ConversationalKey] == Undefined ==> r.value[ConversationalKey] == Undefined)
      && (r.Success? && merged[ConversationalKey] != Undefined ==>
            r.value[ConversationalKey].Str? && Stringify(merged[ConversationalKey]) == Success(r.value[ConversationalKey].s))
  {
    var merged := MergeParams(text, options, apiKey);
    var c := merged[ConversationalKey];
    if c == Undefined then Success(merged)
    else
      match Stringify(c)
      case Failure(e) => Failure(e)
      case Success(s) => Success(merged[ConversationalKey := Str(s)])
  }

  /** Without a caller override, `conversational` is sent as the text "false". */
  lemma ConversationalDefaultsToFalse(text: Value, options: Params, apiKey: string)
    requires ConversationalKey !in options
    ensures BuildParams(text, options, apiKey).Success?
    ensures BuildParams(text, options, apiKey).value[ConversationalKey] == Str("false")
  {
  }

  /** The caller's options win over the defaults, but never over `text` and the key. */
  lemma ParamsFavourCaller(text: Value, options: Params, apiKey: string)
    requires BuildParams(text, options, apiKey).Success?
    ensures var p := BuildParams(text, options, apiKey).value;
      && p[TextKey] == text
      && p[ApiKeyKey] == Str(apiKey)
      && (forall k | k in options && k != TextKey && k != ApiKeyKey && k != ConversationalKey :: p[k] == options[k])
      && (forall k | k in DefaultOptions && k !in options && k != ConversationalKey :: p[k] == DefaultOptions[k])
  {
  }

  // ---------------------------------------------------------------------------
  // The request

  /** What the GET produced: a response of any status, or a failure with no response. */
  datatype HttpReply =
    | Response(status: int, headers: map<string, string>, data: seq<bv8>)
    | NoResponse(code: Option<string>, message: string)

  /** The audio format details read from the response headers (names as lower-cased by the HTTP layer). */
  datatype Metadata = Metadata(sampleRate: Option<string>, durationSamples: Option<string>, contentType: Option<string>)

  /** A successful synthesis: the response body and its metadata. */
  datatype Speech = Speech(audioData: seq<bv8>, metadata: Metadata)

  /** The request that was sent, if any, and what the client returned or threw. */
  datatype Synthesis = Synthesis(request: Option<Params>, result: Result<Speech, SynthError>)

  function Header(headers: map<string, string>, name: string): Option<string> {
    if name in headers then Some(headers[name]) else None
  }

  function ExtractMetadata(headers: map<string, string>): Metadata {
    Metadata(Header(headers, "x-sample-rate"), Header(headers, "x-duration-samples"), Header(headers, "content-type"))
  }

  /** The rejection the HTTP layer produces for a reply: only status 200 is accepted. */
  function Rejection(reply: HttpReply): AxiosError
    requires !(reply.Response? && reply.status == 200)
  {
    match reply
    case Response(status, _, _) => AxiosError(None, Some(status), "Request failed with status code " + Decimal.IntText(status))
    case NoResponse(code, message) => AxiosError(code, None, message)
  }

  /**
   * `synthesizeSpeech(text, options)` with the configured key `apiKey` and
   * the HTTP GET `http`.
   */
  function SynthesizeSpeech(apiKey: Option<string>, text: Value, options: Params, http: Params -> HttpReply): (r: Synthesis)
    ensures !Configured(apiKey) ==> r == Synthesis(None, Failure(SynthError(NotConfiguredText, None)))
    ensures Configured(apiKey) ==>
      (r.request.Some? <==> BuildParams(text, options, apiKey.value).Success?)
    ensures r.request.Some? ==> r.request == Some(BuildParams(text, options, apiKey.value).value)
    ensures r.result.Success? <==> r.request.Some? && http(r.request.value).Response? && http(r.request.value).status == 200
    ensures r.result.Success? ==>
      var reply := http(r.request.value);
      && r.result.value.audioData == reply.data
      && r.result.value.metadata == Metadata(
           Header(reply.headers, "x-sample-rate"),
           Header(reply.headers, "x-duration-samples"),
           Header(reply.headers, "content-type"))
    ensures r.result.Failure? ==> r.result.error.responseStatus.None? && |r.result.error.message| > 0
    ensures Configured(apiKey) && BuildParams(text, options, apiKey.value).Failure? ==>
      r.result == Failure(SynthError(FailedPrefix + NullToStringText, None))
    ensures r.result.Failure? && r.request.Some? ==>
      && r.result.error.message == KindText(Classify(Rejection(http(r.request.value))))
      && Recognise(r.result.error.message) == Some(Classify(Rejection(http(r.request.value))))
  {
    if !Configured(apiKey) then Synthesis(None, Failure(Thrown(NotConfigured)))
    else
      match BuildParams(text, options, apiKey.value)
      case Failure(e) => Synthesis(None, Failure(Thrown(Other(e))))
      case Success(params) =>
        var reply := http(params);
        if reply.Response? && reply.status == 200 then
          Synthesis(Some(params), Success(Speech(reply.data, ExtractMetadata(reply.headers))))
        else
          Synthesis(Some(params), Failure(Thrown(Classify(Rejection(reply)))))
  }

  /** A missing key fails the same way whatever the text, options or HTTP layer, and sends nothing. */
  lemma MissingKeyFailsFast(apiKey: Option<string>, t1: Value, o1: Params, h1: Params -> HttpReply,
                            t2: Value, o2: Params, h2: Params -> HttpReply)
    requires !Configured(apiKey)
    ensures SynthesizeSpeech(apiKey, t1, o1, h1) == SynthesizeSpeech(apiKey, t2, o2, h2)
    ensures SynthesizeSpeech(apiKey, t1, o1, h1).request.None?
  {
  }

  /** A transport code wins over any response status. */
  lemma TransportCodeFirst(code: string, status: Option<int>, message: string)
    requires code == "ENOTFOUND" || code == "ETIMEDOUT"
    ensures Classify(AxiosError(Some(code), status, message)) == Classify(AxiosError(Some(code), None, ""))
  {
  }
}
