/** The mock speech-recognition server: a health check and a transcription endpoint that
    validates the upload and answers a fixed simulated transcription. */
module TranscriptionServer {
  import opened Http

  /** One part of a multipart upload: the client's file name and the content. */
  datatype Upload = Upload(filename: string, content: seq<bv8>)

  /** A request as the endpoint sees it: the uploaded parts by field name, or a request whose
      parts cannot be read (reading `request.files` raises, with the given message). */
  datatype Request = Request(files: map<string, Upload>) | Unreadable(reason: string)

  const AudioField := "audio"
  const NoAudioMessage := "No audio file provided"
  const NoFileMessage := "No file selected"
  const SimulatedText := "Hello, this is a simulated transcription of your speech."
  const SimulatedConfidence := 0.9
  const ErrorPrefix := "An error occurred: "

  function ClientError(message: string): Response
  {
    Response(BadRequest, map["error" := JString(message)])
  }

  /** `GET /health`: always answers 200 with status "healthy". */
  function HealthCheck(): (resp: Response)
    ensures resp.status == Ok
    ensures resp.body.Keys == {"status", "message"}
    ensures resp.body["status"] == JString("healthy")
  {
    Response(Ok, map["status" := JString("healthy"),
                     "message" := JString("Speech recognition server is running")])
  }

  /** `POST /transcribe`: 400 when the `audio` part is missing, 400 when its file name is
      empty, otherwise 200 with the simulated transcription; any exception is answered 500
      with its message behind a fixed prefix. */
  function TranscribeAudio(req: Request): (resp: Response)
    ensures req.Unreadable? ==>
      resp.status == InternalServerError
      && resp.body == map["success" := JBool(false), "error" := JString(ErrorPrefix + req.reason)]
    ensures req.Request? && AudioField !in req.files ==> resp == ClientError(NoAudioMessage)
    ensures req.Request? && AudioField in req.files && req.files[AudioField].filename == "" ==>
      resp == ClientError(NoFileMessage)
    ensures resp.status == Ok <==>
      req.Request? && AudioField in req.files && req.files[AudioField].filename != ""
    ensures resp.status == Ok ==>
      resp.body == map["success" := JBool(true), "transcribed_text" := JString(SimulatedText),
                       "confidence" := JNumber(SimulatedConfidence)]
  {
    match req
    case Unreadable(reason) =>
      Response(InternalServerError, map["success" := JBool(false), "error" := JString(ErrorPrefix + reason)])
    case Request(files) =>
      if AudioField !in files then ClientError(NoAudioMessage)
      else if files[AudioField].filename == "" then ClientError(NoFileMessage)
      else Response(Ok, map["success" := JBool(true), "transcribed_text" := JString(SimulatedText),
                            "confidence" := JNumber(SimulatedConfidence)])
  }

  /** The answer does not depend on what was uploaded: any two requests that both carry a
      named `audio` part get the same response, whatever the content, the file name or the
      other parts. */
  lemma TranscriptionIgnoresContent(a: Request, b: Request)
    requires a.Request? && AudioField in a.files && a.files[AudioField].filename != ""
    requires b.Request? && AudioField in b.files && b.files[AudioField].filename != ""
    ensures TranscribeAudio(a) == TranscribeAudio(b)
  {
  }

  /** The missing-part check comes first: without an `audio` part the answer is the
      missing-file error, whatever else the request carries. */
  lemma MissingPartTakesPrecedence(files: map<string, Upload>, other: string, upload: Upload)
    requires other != AudioField
    ensures TranscribeAudio(Request(files - {AudioField}))
      == TranscribeAudio(Request(files - {AudioField} + map[other := upload]))
      == ClientError(NoAudioMessage)
  {
  }

  /** Every answer has one of three shapes: `success` is true exactly under status 200,
      an `error` key is present exactly when the status is not 200, and client errors
      carry no `success` key. */
  lemma TranscribeResponseShape(req: Request)
    ensures var resp := TranscribeAudio(req);
      && resp.status in {Ok, BadRequest, InternalServerError}
      && ("error" in resp.body <==> resp.status != Ok)
      && ("success" in resp.body && resp.body["success"] == JBool(true) <==> resp.status == Ok)
      && (resp.status == BadRequest ==> "success" !in resp.body)
  {
  }
}
