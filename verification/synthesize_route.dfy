/**
 * The `POST /synthesize` handler of routes/chat.js: body defaults, the
 * ordered validation (key, then text present, then text length), the call
 * into the synthesis client, the response headers, and the status chosen
 * when the client throws.
 */
module SynthesizeRoute {
  import opened Wrappers
  import opened Lmnt

  const MaxTextLength: nat := 5000

  const NoTextText: string := "No text provided for synthesis"
  const TooLongText: string := "Text exceeds maximum length of 5000 characters"
  const FallbackErrorText: string := "Failed to synthesize speech"
  const NoCache: string := "no-cache"

  /** The handler's own destructuring defaults for the synthesis fields. */
  const RouteDefaults: Params := map[
    "voice" := Str("lily"),
    "language" := Str("en"),
    "model" := Str("aurora"),
    "format" := Str("wav"),
    "conversational" := Bool(false),
    "sample_rate" := Num(24000),
    "speed" := Num(1)]

  /** Content types of the requested audio formats. */
  const ContentTypes: map<string, string> := map[
    "mp3" := "audio/mpeg",
    "wav" := "audio/wav",
    "aac" := "audio/aac",
    "mulaw" := "audio/basic",
    "raw" := "audio/raw"]

  /** The response headers of a successful synthesis. */
  datatype Headers = Headers(
    contentType: Option<string>,
    contentLength: nat,
    sampleRate: Option<string>,
    durationSamples: Option<string>,
    cacheControl: string)

  /** Either the audio bytes with their headers, or a JSON `{ error }` with a status. */
  datatype SynthResponse =
    | Audio(headers: Headers, body: seq<bv8>)
    | JsonError(status: int, error: string)
  {
    function Status(): int {
      if Audio? then 200 else status
    }
  }

  /** The request the synthesis client sent, if any, and the handler's response. */
  datatype SynthExchange = SynthExchange(upstream: Option<Params>, response: SynthResponse)

  /** A body field, where a destructuring default replaces only a missing or `undefined` value. */
  function Field(body: Params, name: string, default: Value): (v: Value)
    ensures name !in body ==> v == default
    ensures name in body && body[name] == Undefined ==> v == default
    ensures name in body && body[name] != Undefined ==> v == body[name]
  {
    if name in body && body[name] != Undefined then body[name] else default
  }

  /** JavaScript truthiness of a value. */
  predicate Truthy(v: Value) {
    match v
    case Undefined => false
    case Null => false
    case Bool(b) => b
    case Num(n) => n != 0
    case Str(s) => |s| > 0
  }

  /**
   * `text.length > 5000`: only strings have a length; for any other value the
   * comparison is with `undefined` and is false.
   */
  predicate TooLong(text: Value) {
    text.Str? && |text.s| > MaxTextLength
  }

  /** The validation, in the handler's order. `None` means the request goes on to synthesis. */
  function CheckRequest(apiKey: Option<string>, text: Value): (r: Option<SynthResponse>)
    ensures !Configured(apiKey) ==> r == Some(JsonError(500, NotConfiguredText))
    ensures Configured(apiKey) && !Truthy(text) ==> r == Some(JsonError(400, NoTextText))
    ensures Configured(apiKey) && Truthy(text) && TooLong(text) ==> r == Some(JsonError(400, TooLongText))
    ensures r.None? <==> Configured(apiKey) && Truthy(text) && !TooLong(text)
  {
    if !Configured(apiKey) then Some(JsonError(500, NotConfiguredText))
    else if !Truthy(text) then Some(JsonError(400, NoTextText))
    else if TooLong(text) then Some(JsonError(400, TooLongText))
    else None
  }

  /** A string of exactly the maximum length passes; one character more is refused. */
  lemma LengthBoundary(apiKey: Option<string>, s: string)
    requires Configured(apiKey)
    ensures |s| == MaxTextLength ==> CheckRequest(apiKey, Str(s)).None?
    ensures |s| == MaxTextLength + 1 ==> CheckRequest(apiKey, Str(s)) == Some(JsonError(400, TooLongText))
  {
  }

  /** The options object the handler passes to the synthesis client: every field, defaulted. */
  function RouteOptions(body: Params): (o: Params)
    ensures o.Keys == RouteDefaults.Keys
    ensures forall k | k in o :: o[k] != Undefined
    ensures forall k | k in o && k in body && body[k] != Undefined :: o[k] == body[k]
    ensures forall k | k in o && (k !in body || body[k] == Undefined) :: o[k] == RouteDefaults[k]
  {
    map k | k in RouteDefaults :: Field(body, k, RouteDefaults[k])
  }

  /** The handler's defaults are the client's defaults. */
  lemma RouteDefaultsAreClientDefaults()
    ensures RouteDefaults == DefaultOptions
  {
  }

  /** `contentTypes[format] || metadata.contentType`. */
  function ContentTypeFor(format: Value, upstream: Option<string>): (t: Option<string>)
    ensures format.Str? && format.s in ContentTypes ==> t == Some(ContentTypes[format.s])
    ensures !(format.Str? && format.s in ContentTypes) ==> t == upstream
  {
    if format.Str? && format.s in ContentTypes then Some(ContentTypes[format.s]) else upstream
  }

  /** `error.response?.status || 500`: an attached non-zero status, else 500. */
  function FailureStatus(e: SynthError): (s: int)
    ensures e.responseStatus.None? ==> s == 500
    ensures e.responseStatus.Some? && e.responseStatus.value != 0 ==> s == e.responseStatus.value
    ensures e.responseStatus == Some(0) ==> s == 500
  {
    if e.responseStatus.Some? && e.responseStatus.value != 0 then e.responseStatus.value else 500
  }

  /** `error.message || 'Failed to synthesize speech'`. */
  function ErrorText(e: SynthError): (t: string)
    ensures |e.message| > 0 ==> t == e.message
    ensures |e.message| == 0 ==> t == FallbackErrorText
  {
    if |e.message| > 0 then e.message else FallbackErrorText
  }

  /**
   * The handler: validate, synthesize with the defaulted options, and answer
   * with the audio and its headers, or with the thrown error's message. Every
   * error the client throws lacks a response, so a synthesis failure always
   * answers 500.
   */
  function Synthesize(apiKey: Option<string>, body: Params, http: Params -> HttpReply): (r: SynthExchange)
    ensures var text := Field(body, TextKey, Undefined);
      && (!Configured(apiKey) ==> r == SynthExchange(None, JsonError(500, NotConfiguredText)))
      && (Configured(apiKey) && !Truthy(text) ==> r == SynthExchange(None, JsonError(400, NoTextText)))
      && (Configured(apiKey) && Truthy(text) && TooLong(text) ==> r == SynthExchange(None, JsonError(400, TooLongText)))
      && (r.upstream.Some? ==>
            && Configured(apiKey)
            && TextKey in r.upstream.value && r.upstream.value[TextKey] == text
            && ApiKeyKey in r.upstream.value && r.upstream.value[ApiKeyKey] == Str(apiKey.value))
      && (CheckRequest(apiKey, text).None? ==>
            r.upstream == SynthesizeSpeech(apiKey, text, RouteOptions(body), http).request)
      && (CheckRequest(apiKey, text).None? && r.upstream.None? ==>
            r.response == JsonError(500, FailedPrefix + NullToStringText))
    ensures r.response.Audio? <==>
      r.upstream.Some? && http(r.upstream.value).Response? && http(r.upstream.value).status == 200
    ensures r.upstream.Some? && !(http(r.upstream.value).Response? && http(r.upstream.value).status == 200) ==>
      r.response == JsonError(500, KindText(Classify(Rejection(http(r.upstream.value)))))
    ensures r.response.JsonError? ==> r.response.status == 400 || r.response.status == 500
    ensures r.response.JsonError? && r.response.status == 400 ==> r.upstream.None?
    ensures r.response.JsonError? && r.upstream.Some? ==> r.response.status == 500
    ensures r.response.Audio? ==>
      && r.upstream.Some?
      && var reply := http(r.upstream.value);
      && reply.Response? && reply.status == 200
      && r.response.body == reply.data
      && r.response.headers == Headers(
           ContentTypeFor(Field(body, "format", Str("wav")), Header(reply.headers, "content-type")),
           |reply.data|,
           Header(reply.headers, "x-sample-rate"),
           Header(reply.headers, "x-duration-samples"),
           NoCache)
  {
    var text := Field(body, TextKey, Undefined);
    match CheckRequest(apiKey, text)
    case Some(refusal) => SynthExchange(None, refusal)
    case None =>
      var s := SynthesizeSpeech(apiKey, text, RouteOptions(body), http);
      match s.result
      case Success(speech) =>
        var headers := Headers(
          ContentTypeFor(Field(body, "format", Str("wav")), speech.metadata.contentType),
          |speech.audioData|,
          speech.metadata.sampleRate,
          speech.metadata.durationSamples,
          NoCache);
        SynthExchange(s.request, Audio(headers, speech.audioData))
      case Failure(e) => SynthExchange(s.request, JsonError(FailureStatus(e), ErrorText(e)))
  }

  /** A valid text with no other fields sends the client's defaults, `conversational` as "false". */
  lemma DefaultsReachUpstream(apiKey: Option<string>, text: string, http: Params -> HttpReply)
    requires Configured(apiKey) && 0 < |text| <= MaxTextLength
    ensures var r := Synthesize(apiKey, map[TextKey := Str(text)], http);
      && r.upstream.Some?
      && r.upstream.value.Keys == DefaultOptions.Keys + {TextKey, ApiKeyKey}
      && (forall k | k in DefaultOptions && k != ConversationalKey :: r.upstream.value[k] == DefaultOptions[k])
      && r.upstream.value[ConversationalKey] == Str("false")
      && r.upstream.value[TextKey] == Str(text)
      && r.upstream.value[ApiKeyKey] == Str(apiKey.value)
  {
    var body := map[TextKey := Str(text)];
    TextOnlyBodyOptions(text);
    DefaultQuery(Str(text), apiKey.value);
    assert Field(body, TextKey, Undefined) == Str(text);
    assert CheckRequest(apiKey, Str(text)).None?;
  }

  lemma TextOnlyBodyOptions(text: string)
    ensures RouteOptions(map[TextKey := Str(text)]) == DefaultOptions
  {
    var body := map[TextKey := Str(text)];
    var options := RouteOptions(body);
    forall k | k in options
      ensures options[k] == DefaultOptions[k]
    {
      assert k != TextKey;
    }
  }

  lemma DefaultQuery(text: Value, apiKey: string)
    ensures BuildParams(text, DefaultOptions, apiKey).Success?
    ensures var p := BuildParams(text, DefaultOptions, apiKey).value;
      && p.Keys == DefaultOptions.Keys + {TextKey, ApiKeyKey}
      && (forall k | k in DefaultOptions && k != ConversationalKey :: p[k] == DefaultOptions[k])
      && p[ConversationalKey] == Str("false")
      && p[TextKey] == text
      && p[ApiKeyKey] == Str(apiKey)
  {
    assert MergeParams(text, DefaultOptions, apiKey)[ConversationalKey] == Bool(false);
    ParamsFavourCaller(text, DefaultOptions, apiKey);
  }

  /**
   * Any attached status would be passed through, but the synthesis client
   * never attaches one: an upstream 401, say, still answers 500.
   */
  lemma UpstreamStatusNeverPassedThrough(apiKey: Option<string>, body: Params, http: Params -> HttpReply)
    ensures var r := Synthesize(apiKey, body, http);
      r.upstream.Some? && http(r.upstream.value).Response? && http(r.upstream.value).status != 200 ==>
        && r.response.Status() == 500
        && r.response.error == KindText(Classify(Rejection(http(r.upstream.value))))
        && Recognise(r.response.error) == Some(Classify(Rejection(http(r.upstream.value))))
  {
  }
}
