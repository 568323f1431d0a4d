/** The inference server's two endpoints, `/detect-video` and `/detect-sign`: each runs a
    straight-line pipeline inside one try block and answers either a label with its
    confidence or, for any exception, status 500 with the exception's message. */
module SignDetection {
  import opened Wrappers
  import opened Http
  import opened FrameSampling
  import opened FeaturePadding
  import VideoTraining

  /** MAX_FRAMES of the inference server. */
  const InferenceMaxFrames := 5

  /** What a classifier reports for one input: the arg-max class index and the top score.
      The scores themselves are floating point and stay inside the classifier. */
  datatype Prediction = Prediction(index: nat, confidence: real)

  function LabelResponse(name: string, confidence: real): Response
  {
    Response(Ok, map["label" := JString(name), "confidence" := JNumber(confidence)])
  }

  function ErrorResponse(message: string): Response
  {
    Response(InternalServerError, map["error" := JString(message)])
  }

  /** The two shapes a detection endpoint answers with: a label and its confidence under
      status 200, or an error message alone under status 500. */
  predicate IsDetectionResponse(resp: Response)
  {
    || (resp.status == Ok && resp.body.Keys == {"label", "confidence"})
    || (resp.status == InternalServerError && resp.body.Keys == {"error"})
  }

  /** The label list lookup `class_names[index]`, which raises IndexError past the end. */
  function LabelAt(labels: seq<string>, index: nat): (r: Result<string, string>)
    ensures r.Success? <==> index < |labels|
    ensures r.Success? ==> r.value == labels[index]
    ensures r.Failure? ==> r.error == IndexOutOfRange
  {
    if index < |labels| then Success(labels[index]) else Failure(IndexOutOfRange)
  }

  /** The answer of a detection endpoint once its input is ready: classify, look the index
      up in the label list, and turn any failure into status 500. */
  function Answer(prediction: Result<Prediction, string>, labels: seq<string>): (resp: Response)
    ensures IsDetectionResponse(resp)
    ensures resp.status == Ok <==> prediction.Success? && prediction.value.index < |labels|
    ensures resp.status == Ok ==>
      resp == LabelResponse(labels[prediction.value.index], prediction.value.confidence)
    ensures prediction.Failure? ==> resp == ErrorResponse(prediction.error)
    ensures prediction.Success? && prediction.value.index >= |labels| ==> resp == ErrorResponse(IndexOutOfRange)
  {
    match prediction
    case Failure(message) => ErrorResponse(message)
    case Success(p) =>
      match LabelAt(labels, p.index)
      case Failure(message) => ErrorResponse(message)
      case Success(name) => LabelResponse(name, p.confidence)
  }

  /** The rest of `/detect-video` once the frames are sampled: one feature row per frame,
      padded to the window, classified, and the index looked up in the label list. */
  function ClassifyFrames<F, V>(frames: seq<F>, maxFrames: int, extract: F -> V,
                                classify: seq<V> -> Result<Prediction, string>,
                                labels: seq<string>): (resp: Response)
    requires maxFrames > 0
    ensures IsDetectionResponse(resp)
    ensures frames == [] ==> resp == ErrorResponse(IndexOutOfRange)
    ensures frames != [] ==>
      var window := PadFeatures(FeatureRows(extract, frames), maxFrames).value;
      |window| == maxFrames && resp == Answer(classify(window), labels)
  {
    match PadFeatures(FeatureRows(extract, frames), maxFrames)
    case Failure(message) => ErrorResponse(message)
    case Success(window) => Answer(classify(window), labels)
  }

  /** `/detect-video`. The upload is Failure when writing it to a temporary file raises;
      otherwise it is the video that file holds. */
  method DetectVideo<F, V>(upload: Result<Video<F>, string>, maxFrames: int, blank: F,
                           extract: F -> V, classify: seq<V> -> Result<Prediction, string>,
                           labels: seq<string>) returns (resp: Response)
    requires maxFrames > 0
    ensures IsDetectionResponse(resp)
    ensures upload.Failure? ==> resp == ErrorResponse(upload.error)
    ensures upload.Success? ==>
      resp == ClassifyFrames(Sampled(upload.value, maxFrames, blank), maxFrames, extract, classify, labels)
  {
    if upload.Failure? {
      return ErrorResponse(upload.error);
    }
    var frames, _ := SampleFrames(upload.value, maxFrames, blank);
    resp := ClassifyFrames(frames, maxFrames, extract, classify, labels);
  }

  /** `/detect-sign`. The image is Failure when writing the upload raises or when the
      decoded image cannot be converted (`cv2.imread` returns None for an unreadable file). */
  function DetectSign<I>(image: Result<I, string>, classify: I -> Result<Prediction, string>,
                         labels: seq<string>): (resp: Response)
    ensures IsDetectionResponse(resp)
    ensures resp.status == Ok <==>
      image.Success? && classify(image.value).Success? && classify(image.value).value.index < |labels|
    ensures resp.status == Ok ==> resp.body["label"] == JString(labels[classify(image.value).value.index])
    ensures image.Failure? ==> resp == ErrorResponse(image.error)
    ensures image.Success? ==> resp == Answer(classify(image.value), labels)
  {
    match image
    case Failure(message) => ErrorResponse(message)
    case Success(img) => Answer(classify(img), labels)
  }

  /** Any failure of a detection endpoint answers status 500 with an "error" key and no
      "label"; a success answers 200 with a "label" and no "error". */
  lemma FailuresCarryOnlyError(resp: Response)
    requires IsDetectionResponse(resp)
    ensures resp.status != Ok ==>
      resp.status == InternalServerError && "error" in resp.body && "label" !in resp.body
    ensures resp.status == Ok ==> "label" in resp.body && "error" !in resp.body
  {
  }

  /** A video with a nonzero frame count whose every scheduled read fails reaches the
      padding step with no rows and is answered 500 with IndexError's message. */
  lemma UnreadableVideoFails<F, V>(video: Video<F>, maxFrames: int, blank: F, extract: F -> V,
                                   classify: seq<V> -> Result<Prediction, string>, labels: seq<string>)
    requires maxFrames > 0 && video.frameCount != 0
    requires forall k :: 0 <= k < |Schedule(video.frameCount, maxFrames)| ==>
      video.frameAt(Schedule(video.frameCount, maxFrames)[k]).None?
    ensures ClassifyFrames(Sampled(video, maxFrames, blank), maxFrames, extract, classify, labels)
      == ErrorResponse(IndexOutOfRange)
  {
    NothingSampled(video, maxFrames, blank);
  }

  /** A video that reports no frames (which is also what OpenCV reports for a file it cannot
      open) is not rejected: the classifier is shown maxFrames copies of the blank frame's
      features. */
  lemma EmptyVideoClassifiesBlankFrame<F, V>(video: Video<F>, maxFrames: int, blank: F,
                                             extract: F -> V,
                                             classify: seq<V> -> Result<Prediction, string>,
                                             labels: seq<string>)
    requires maxFrames > 0 && video.frameCount == 0
    ensures ClassifyFrames(Sampled(video, maxFrames, blank), maxFrames, extract, classify, labels)
      == Answer(classify(Repeat(extract(blank), maxFrames)), labels)
  {
    var rows := FeatureRows(extract, [blank]);
    var window := PadFeatures(rows, maxFrames).value;
    assert window == Repeat(extract(blank), maxFrames);
  }

  /** As written, the inference window is InferenceMaxFrames = 5 rows while the sequence
      model was built for VideoTraining.TrainingMaxFrames = 10 rows. If the model rejects an
      input of another length, every video that yields frames is answered 500. */
  lemma InferenceWindowMismatch<F, V>(frames: seq<F>, blank: F, extract: F -> V,
                                      classify: seq<V> -> Result<Prediction, string>,
                                      labels: seq<string>)
    requires forall w :: |w| != VideoTraining.TrainingMaxFrames ==> classify(w).Failure?
    ensures InferenceMaxFrames != VideoTraining.TrainingMaxFrames
    ensures ClassifyFrames(frames, InferenceMaxFrames, extract, classify, labels).status == InternalServerError
  {
    if frames != [] {
      var window := PadFeatures(FeatureRows(extract, frames), InferenceMaxFrames).value;
      assert |window| == InferenceMaxFrames;
    }
  }

  /** With the training window length shared by inference, the classifier receives exactly
      the row count the model was built for, so a video that yields frames is answered by
      the classifier's own verdict. */
  lemma SharedWindowReachesModel<F, V>(frames: seq<F>, extract: F -> V,
                                       classify: seq<V> -> Result<Prediction, string>,
                                       labels: seq<string>)
    requires frames != []
    ensures var window := PadFeatures(FeatureRows(extract, frames), VideoTraining.TrainingMaxFrames).value;
      |window| == VideoTraining.TrainingMaxFrames
      && ClassifyFrames(frames, VideoTraining.TrainingMaxFrames, extract, classify, labels)
         == Answer(classify(window), labels)
  {
  }
}
