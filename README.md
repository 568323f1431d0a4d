# Sign and speech back end, language picker: a Dafny model

This project models the deterministic core of a sign-language and speech app.

- **Sign detection server** (`backend/main.py`). `sample_frames` chooses which frames of an uploaded video are read. `pad_features` fits the per-frame feature rows to the fixed window the sequence model reads. The `/detect-video` and `/detect-sign` endpoints answer either a label with its confidence or, for any exception, status 500 with the exception's message.
- **Video training script** (`backend/train_video_model.py`). It holds the same two helpers with a window of 10 rows. The loop builds the samples `X`, the labels `y` and `class_names` from a folder listing. The train/validation split falls back to the whole data set when there is a single class.
- **Mock transcription server** (`backend/app.py`). It has a health check and a transcription endpoint. The endpoint validates the upload and answers a fixed simulated text.
- **Language picker screen** (`app/select-language.tsx`). It holds a constant table of 81 languages. Its only state is the selected language code.

Modules:

- `Wrappers` (`Option`, `Result`).
- `Http` (JSON response values and status codes).
- `FrameSampling`: `SampleFrames` is a method with its loop, proved against the function `Sampled`.
- `FeaturePadding`.
- `SignDetection`.
- `VideoTraining`: the assembly loop is the method `AssembleDataset`, with its inner loop in `SampleFolder`. Both are proved against the job list `Jobs` and the window function `Window`.
- `TranscriptionServer`.
- `LanguageSelection`: the table, the picker items, and the class `SelectLanguageScreen` holding the selection.

Frames and feature rows are opaque type parameters. Reading the frame at a position is an oracle `int -> Option<F>`. The feature extractor and the classifiers are function parameters.

The two app screens that call a transcription endpoint expect different answers. `app/(tabs)/index.tsx:182-183` reads `text` and `detectedLanguage`, while `app/(tabs)/speech.tsx:119` reads `transcribed_text`. The model follows the server, `backend/app.py:30-34`, which answers `success`, `transcribed_text` and `confidence`.

The `/detect-video` endpoint is `SignDetection.DetectVideo` with `maxFrames` set to `SignDetection.InferenceMaxFrames` (5, `backend/main.py:35`). The training script's data preparation is `VideoTraining.PrepareTrainingData`, which fixes the window to `VideoTraining.TrainingMaxFrames` (10).

## Model

| member | source | states |
|---|---|---|
| FrameSampling.Step | backend/main.py:64 | The stride is at least 1. |
| FrameSampling.StepBounds | backend/main.py:64 | A video of at least one window gets the stride total // maxFrames: step·maxFrames ≤ total < (step+1)·maxFrames. Videos shorter than two windows get stride 1. Together these fix the stride for every input. |
| FrameSampling.Successes | backend/main.py:65-70 | Failed reads are skipped, so there are never more frames than positions. |
| FrameSampling.SuccessesCount | backend/main.py:67-70 | One frame per position when every read succeeds, and none exactly when every read fails. |
| FrameSampling.Sampled | backend/main.py:57-74 | At most maxFrames frames; a video reporting zero frames yields exactly the one blank frame. |
| FrameSampling.SampleFrames | backend/main.py:57-74 | The loop returns `Sampled`. It performs no read for a zero frame count. The positions it seeks to are a prefix of the schedule 0, step, 2·step, …. It stops before the end of the schedule only once the window is full. |
| FrameSampling.WindowFilled | backend/main.py:71-72 | Once maxFrames frames are collected, later reads cannot change the result, so stopping early is sound. |
| FrameSampling.PositionsShape | backend/main.py:65 | The k-th position of `range(start, limit, step)` is start + k·step, below limit. The count is the least that covers limit − start. |
| FrameSampling.PositionsIncreasing | backend/main.py:65 | The positions of `range` are strictly increasing and not below start. |
| FrameSampling.ScheduleIsStrided | backend/main.py:64-66 | The stride is at least 1. The positions read are k·step, strictly increasing, inside [0, total). |
| FrameSampling.ScheduleLength | backend/main.py:64-65 | The schedule has at least min(total, maxFrames) positions, and exactly total when total < maxFrames. |
| FrameSampling.AllReadsSucceed | backend/main.py:64-72 | When every scheduled read succeeds and total > 0, exactly min(total, maxFrames) frames are returned. |
| FrameSampling.NothingSampled | backend/main.py:61-72 | No frame is returned exactly when the count is nonzero and every scheduled read fails. A negative count is such a case. |
| FeaturePadding.FeatureRows | backend/main.py:100 | One row per frame, row i extracted from frame i. |
| FeaturePadding.PadFeatures | backend/main.py:77-85 | Empty input fails with IndexError's message. Otherwise the result has exactly maxFrames rows. Short input is a prefix of the result, and each added row repeats its last row. Long input yields its first maxFrames rows. |
| FeaturePadding.PadIdempotent | backend/main.py:77-85 | Padding an already padded window returns it unchanged. |
| FeaturePadding.PadDependsOnPrefix | backend/main.py:83-84 | Inputs that agree on their first maxFrames rows pad to the same window. |
| FeaturePadding.PadRowsComeFromInput | backend/main.py:80-84 | Row i of the window is input row min(i, n − 1). |
| SignDetection.LabelAt | backend/main.py:111 | The label lookup succeeds exactly for an index inside the list, and fails with IndexError's message past its end. |
| SignDetection.Answer | backend/main.py:104-116 | Status 200 with that label and confidence exactly when the classifier succeeds with an in-range index. A classifier failure passes its message through. An out-of-range index answers 500 with IndexError's message. |
| SignDetection.ClassifyFrames | backend/main.py:99-116 | No frames gives 500 with IndexError's message. Otherwise the classifier sees a window of exactly maxFrames rows. |
| SignDetection.DetectVideo | backend/main.py:92-116 | A failed upload answers 500 with its message. Otherwise the answer is the classification of the sampled frames, always in one of the two response shapes. |
| SignDetection.DetectSign | backend/main.py:119-142 | 200 exactly when the image decodes, the classifier succeeds and its index is in range. A failed image answers 500 with its message. Otherwise the answer is `Answer` of the classifier's verdict: the indexed label with the classifier's confidence, the classifier's own message, or IndexError's message. |
| SignDetection.FailuresCarryOnlyError | backend/main.py:115-116 | Every non-200 detection answer is 500 with an "error" key and no "label". Every 200 answer has a "label" and no "error". |
| SignDetection.UnreadableVideoFails | backend/main.py:99-101 | A video whose scheduled reads all fail reaches `pad_features` empty and is answered 500 with IndexError's message. |
| SignDetection.EmptyVideoClassifiesBlankFrame | backend/main.py:61-63 | A video reporting zero frames is not rejected: the classifier sees maxFrames copies of the blank frame's features. |
| SignDetection.InferenceWindowMismatch | backend/main.py:35 | The inference window (5) differs from the training window (10). If the model rejects other lengths, every video that yields frames is answered 500. |
| SignDetection.SharedWindowReachesModel | backend/train_video_model.py:96 | With the training window shared, the classifier receives exactly the row count the model was built for. |
| VideoTraining.FolderJobs | backend/train_video_model.py:75-81 | A folder contributes one sample per video. |
| VideoTraining.FilterMembers | backend/train_video_model.py:65 | A list comprehension with a condition keeps exactly the elements that satisfy it. |
| VideoTraining.OnlyMp4Contribute | backend/train_video_model.py:71 | A file is one of a folder's videos exactly when its name ends in `.mp4`. |
| VideoTraining.ClassNamesPrefix | backend/train_video_model.py:72-74 | `class_names` only grows as the listing is walked. |
| VideoTraining.ClassNamePosition | backend/train_video_model.py:72-74 | A folder with videos is in `class_names`, at the position equal to the number of earlier folders with videos. |
| VideoTraining.ClassNamesInListingOrder | backend/train_video_model.py:72-74 | Of two folders with videos, the earlier one comes first in `class_names`. |
| VideoTraining.ClassNamesFromFolders | backend/train_video_model.py:72-74 | Every entry of `class_names` is the name of a folder with videos. |
| VideoTraining.ClassNamesCount | backend/train_video_model.py:72-74 | `class_names` is as long as the folder list exactly when no folder is skipped. |
| VideoTraining.JobFacts | backend/train_video_model.py:69-81 | Each sample's stored label is the position of a folder with videos whose name and `.mp4` file it carries. |
| VideoTraining.ClassIndexNamesFolder | backend/train_video_model.py:74 | A label counted among folders with videos always indexes the sample's own folder name in `class_names`. |
| VideoTraining.LabelsAgreeIffNoEarlierSkip | backend/train_video_model.py:81 | The stored label equals the position in `class_names` exactly when no earlier folder was skipped. |
| VideoTraining.SkippedFolderShiftsLabels | backend/train_video_model.py:81 | Listing [empty folder, folder "hello" with a.mp4] stores label 1 while `class_names` is ["hello"]. |
| VideoTraining.SingleClassOneLabel | backend/train_video_model.py:88-91 | With a single class name, every sample carries the same label. |
| VideoTraining.HoldsComplete | backend/train_video_model.py:78-80 | When every sample is recorded, every sample's window was built. |
| VideoTraining.WindowsHaveMaxFrames | backend/train_video_model.py:78-80 | Every recorded window has exactly maxFrames rows. |
| VideoTraining.SampleFolder | backend/train_video_model.py:75-81 | The inner loop records, in order, each video's window with the folder's label. Otherwise it returns the position of a video that yields no frame. |
| VideoTraining.AssembleDataset | backend/train_video_model.py:69-81 | Succeeds exactly when every sample's window builds. Otherwise it fails with IndexError's message. `class_names` is the folders with videos, in order. `X` and `y` hold each sample's window and folder position, in lockstep. Every window has maxFrames rows. |
| VideoTraining.TrainValSplit | backend/train_video_model.py:88-91 | With at most one class name, training and validation sets are both the whole data set. Otherwise the stratified split is used. |
| VideoTraining.PrepareTrainingData | backend/train_video_model.py:63-91 | With the 10-row training window: a single class trains and validates on all samples, each of 10 rows, under one label. |
| TranscriptionServer.HealthCheck | backend/app.py:9-12 | Always 200 with status "healthy" and a message. |
| TranscriptionServer.TranscribeAudio | backend/app.py:14-40 | No `audio` part: 400 "No audio file provided". Empty file name: 400 "No file selected". 200 exactly for a named `audio` part, with success true and the fixed text. Unreadable request: 500, success false, error "An error occurred: " + message. |
| TranscriptionServer.TranscriptionIgnoresContent | backend/app.py:26-34 | Any two valid requests get the same answer, whatever the audio content. |
| TranscriptionServer.MissingPartTakesPrecedence | backend/app.py:18-24 | Without an `audio` part the answer is the missing-file error, whatever other parts are present. |
| TranscriptionServer.TranscribeResponseShape | backend/app.py:17-40 | The status is 200, 400 or 500. "error" is present exactly when not 200. success is true exactly under 200. Client errors carry no success key. |
| LanguageSelection.TableSize | app/select-language.tsx:5-87 | The table has exactly 81 entries. |
| LanguageSelection.CodesDistinct | app/select-language.tsx:6-86 | The language codes are pairwise distinct. |
| LanguageSelection.LexLessTransitive | app/select-language.tsx:6-86 | Lexicographic order of names is transitive. |
| LanguageSelection.NamesAscendingAndDistinct | app/select-language.tsx:6-86 | The names are in strictly ascending order, hence pairwise distinct. |
| LanguageSelection.PickerItems | app/select-language.tsx:102-104 | One item per table row, in table order, keyed and valued by the code and showing the name. |
| LanguageSelection.PickerKeysDistinct | app/select-language.tsx:103 | The picker has 81 items and no two share a key. |
| LanguageSelection.PickerValuesAreCodes | app/select-language.tsx:97-104 | Every value the picker reports is a table code. |
| LanguageSelection.SelectLanguageScreen.constructor | app/select-language.tsx:90 | The selection starts undefined. |
| LanguageSelection.SelectLanguageScreen.OnValueChange | app/select-language.tsx:97-99 | After a change the selection is the chosen item's code, which is a table code. |
| LanguageSelection.SelectLanguageScreen.Caption | app/select-language.tsx:106 | The caption is "Selected: " followed by the code, or nothing while undefined. |

## Left out

- TensorFlow and Keras are parameters here: MobileNetV2 feature extraction, `model.predict`, the LSTM definition, `fit` and early stopping. `classify` yields an arg-max index and a confidence, or the exception message.
- Floating point is not modelled. The `/255.0` normalisation and argmax/max are inside the classifier. The row width that `features[0].shape[0]` reads, and the `np.vstack` row shapes, are not modelled.
- OpenCV is not modelled. Decoding, colour conversion, resizing and training-time random augmentation are replaced by the read oracle. A frame is an opaque value.
- Temporary files are not modelled. Writing the upload, `os.unlink`, and the fact that the temporary file is not removed on the exception path are left out. So are saving the model and `labels.json`.
- `sklearn.train_test_split` stratification is a parameter. Only the single-class fallback is modelled.
- Flask and FastAPI routing, CORS, server start-up and console output are not modelled.
- `backend/setup.py`, the image training script and the app's UI-only screens are not part of this model.
- FrameSampling.SampleFrames: requires maxFrames > 0. The scripts pass 5 or 10. A zero window would raise ZeroDivisionError, and a negative one would change Python's slicing, so neither is modelled. The same holds for `Step`, `Sampled`, `PadFeatures` and the members that call them.
- VideoTraining.AssembleDataset: the video listing is given as data, entry by entry. File-system errors are not modelled. The only script-ending exception modelled is the IndexError that `pad_features` raises for a video that yields no frame; it is a Failure result carrying that message.
- FeaturePadding.FeatureRows: frame preprocessing (`preprocess_frame`) and the feature extractor (`base_model.predict`) are assumed not to raise. In the source, an exception there is answered 500 by `/detect-video` (`backend/main.py:115-116`) and ends the training script. The model's `extract` is total, so it does not capture those paths. The same holds for `SignDetection.DetectVideo`, `SignDetection.ClassifyFrames`, `VideoTraining.Window` and `VideoTraining.AssembleDataset`.
- SignDetection.DetectSign: an unreadable image (`cv2.imread` returning None, then raising in conversion) is an image Failure carrying an abstract message.
- TranscriptionServer.TranscribeAudio: the only exception modelled is an unreadable request body. Its message is a parameter.
- LanguageSelection.SelectLanguageScreen.OnValueChange: the picker is assumed to report one of its own items and that item's position. The React state hook and re-rendering are not modelled.

## Findings

| source | as written | input that shows it | evidently intended | confidence | as-written member | corrected member |
|---|---|---|---|---|---|---|
| backend/train_video_model.py:81 | The label is the folder's position among all class folders. `class_names` skips folders without `.mp4` files. | Listing [empty folder, folder "hello" holding a.mp4]: y = [1] while class_names = ["hello"]. | The label is the folder's position in `class_names`. | high, not executed | VideoTraining.SkippedFolderShiftsLabels | VideoTraining.ClassIndexNamesFolder |
| backend/main.py:35 | The inference window is 5 rows. The model's input shape is built from the training window of 10 rows. | Any video that yields at least one frame: a 5-row window reaches a model that expects 10. | One window length shared by training and inference. | medium, not executed | SignDetection.InferenceWindowMismatch | SignDetection.SharedWindowReachesModel |
