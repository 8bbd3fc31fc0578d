/**
 * The `POST /transcribe` handler of routes/chat.js: checks on the uploaded
 * file, the call into the transcription service (an abstract function from
 * audio bytes to the service's reply), and the extraction of the first
 * channel's first alternative transcript.
 */
module TranscribeRoute {
  import opened Wrappers

  const NoFileText: string := "No audio file provided"
  const EmptyFileText: string := "Empty audio file received"
  const ServiceErrorText: string := "Transcription service error"
  const NoTranscriptText: string := "No transcript received from service"
  const ServerErrorText: string := "Server error during transcription"

  /** The uploaded `audio` file, held in memory; its size is the buffer's length. */
  datatype Upload = Upload(buffer: seq<bv8>)

  /** The parts of the service's result the handler reads; every level may be missing. */
  datatype Alternative = Alternative(transcript: Option<string>)
  datatype Channel = Channel(alternatives: Option<seq<Alternative>>)
  datatype Results = Results(channels: Option<seq<Channel>>)
  datatype Transcription = Transcription(results: Option<Results>)

  /** What the service call gave back: `{ result, error }`, or an exception. */
  datatype ServiceReply =
    | Returned(result: Option<Transcription>, failed: bool)
    | Threw(message: string)

  /** Either `{ transcript }` or a JSON `{ error }` with a status. */
  datatype TranscribeResponse =
    | Transcript(transcript: string)
    | JsonError(status: int, error: string)
  {
    function Status(): int {
      if Transcript? then 200 else status
    }
  }

  /** The bytes sent to the service, if any, and the handler's response. */
  datatype TranscribeExchange = TranscribeExchange(sent: Option<seq<bv8>>, response: TranscribeResponse)

  /**
   * `result?.results?.channels?.[0]?.alternatives?.[0]?.transcript`: present
   * exactly when every level down to the first alternative's transcript is.
   */
  function FirstTranscript(result: Option<Transcription>): (t: Option<string>)
    ensures t.Some? <==>
      && result.Some? && result.value.results.Some?
      && result.value.results.value.channels.Some? && |result.value.results.value.channels.value| > 0
      && result.value.results.value.channels.value[0].alternatives.Some?
      && |result.value.results.value.channels.value[0].alternatives.value| > 0
      && result.value.results.value.channels.value[0].alternatives.value[0].transcript.Some?
    ensures t.Some? ==> t == result.value.results.value.channels.value[0].alternatives.value[0].transcript
  {
    match result
    case None => None
    case Some(Transcription(results)) =>
      match results
      case None => None
      case Some(Results(channels)) =>
        if channels.None? || |channels.value| == 0 then None
        else
          var alternatives := channels.value[0].alternatives;
          if alternatives.None? || |alternatives.value| == 0 then None
          else alternatives.value[0].transcript
  }

  /** The service's result for a recognised `transcript`: a single channel with a single alternative. */
  function ResultFor(transcript: string): Transcription {
    Transcription(Some(Results(Some([Channel(Some([Alternative(Some(transcript))]))]))))
  }

  /** Extraction reads back the transcript of the one-channel, one-alternative result. */
  lemma FirstTranscriptOfResult(transcript: string)
    ensures FirstTranscript(Some(ResultFor(transcript))) == Some(transcript)
  {
  }

  /**
   * The handler: refuse a missing or empty file before any call, then map a
   * service error, a missing or empty transcript, or an exception to 500.
   */
  function Transcribe(file: Option<Upload>, service: seq<bv8> -> ServiceReply): (r: TranscribeExchange)
    ensures file.None? ==> r == TranscribeExchange(None, JsonError(400, NoFileText))
    ensures file.Some? && |file.value.buffer| == 0 ==> r == TranscribeExchange(None, JsonError(400, EmptyFileText))
    ensures r.sent.Some? <==> file.Some? && |file.value.buffer| > 0
    ensures r.sent.Some? ==> r.sent.value == file.value.buffer
    ensures r.sent.Some? ==>
      var reply := service(r.sent.value);
      && (reply.Threw? ==> r.response == JsonError(500, ServerErrorText))
      && (reply.Returned? && reply.failed ==> r.response == JsonError(500, ServiceErrorText))
      && (reply.Returned? && !reply.failed ==>
            var t := FirstTranscript(reply.result);
            if t.Some? && |t.value| > 0 then r.response == Transcript(t.value)
            else r.response == JsonError(500, NoTranscriptText))
  {
    match file
    case None => TranscribeExchange(None, JsonError(400, NoFileText))
    case Some(upload) =>
      if |upload.buffer| == 0 then TranscribeExchange(None, JsonError(400, EmptyFileText))
      else
        var sent := Some(upload.buffer);
        match service(upload.buffer)
        case Threw(_) => TranscribeExchange(sent, JsonError(500, ServerErrorText))
        case Returned(result, failed) =>
          if failed then TranscribeExchange(sent, JsonError(500, ServiceErrorText))
          else
            var t := FirstTranscript(result);
            if t.None? || |t.value| == 0 then TranscribeExchange(sent, JsonError(500, NoTranscriptText))
            else TranscribeExchange(sent, Transcript(t.value))
  }

  /**
   * Client-input errors (400) are exactly the requests that never reach the
   * service; everything that reaches it answers 200 or 500.
   */
  lemma ClientErrorsNeverCallService(file: Option<Upload>, service: seq<bv8> -> ServiceReply)
    ensures var r := Transcribe(file, service);
      && (r.response.Status() == 400 <==> r.sent.None?)
      && (r.sent.Some? ==> r.response.Status() == 200 || r.response.Status() == 500)
  {
  }

  /** A non-empty file whose service result carries a non-empty transcript gets that transcript back. */
  lemma TranscriptReturned(audio: seq<bv8>, transcript: string, service: seq<bv8> -> ServiceReply)
    requires |audio| > 0 && |transcript| > 0
    requires service(audio) == Returned(Some(ResultFor(transcript)), false)
    ensures Transcribe(Some(Upload(audio)), service) == TranscribeExchange(Some(audio), Transcript(transcript))
  {
    FirstTranscriptOfResult(transcript);
  }
}
