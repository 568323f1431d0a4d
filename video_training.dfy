/** The data-set assembly of the video training script: one sample per `.mp4` file of every
    class folder, each sample a window of feature rows, labelled by its folder. */
module VideoTraining {
  import opened Wrappers
  import opened FrameSampling
  import opened FeaturePadding

  /** MAX_FRAMES of the training script; the model's input shape is built from it. */
  const TrainingMaxFrames := 10

  const VideoSuffix := ".mp4"

  /** An entry of the `video` directory listing: its name, whether it is a directory, and the
      names that listing the entry yields (empty for a plain file). */
  datatype Entry = Entry(name: string, isDir: bool, files: seq<string>)

  /** One sample to be built: the video's folder position in the class-folder listing (the
      label the script stores), the position the folder's name takes in `class_names`, the
      folder name and the video file name. */
  datatype Job = Job(folderIndex: nat, classIndex: nat, folder: string, video: string)

  /** The arrays the script hands to training, and the class names it saves. */
  datatype Dataset<V> = Dataset(x: seq<seq<V>>, y: seq<nat>, classNames: seq<string>)

  /** The elements of s that satisfy p, in order. */
  function Filter<T>(p: T -> bool, s: seq<T>): (r: seq<T>)
    ensures |r| <= |s|
    decreases |s|
  {
    if s == [] then []
    else Filter(p, s[..|s| - 1]) + (if p(s[|s| - 1]) then [s[|s| - 1]] else [])
  }

  /** Python's `str.endswith`. */
  predicate EndsWith(s: string, suffix: string)
  {
    |suffix| <= |s| && s[|s| - |suffix|..] == suffix
  }

  /** The directories of the listing, in listing order (`class_folders`). */
  function ClassFolders(entries: seq<Entry>): seq<Entry>
  {
    Filter((e: Entry) => e.isDir, entries)
  }

  /** The names in a folder that end in `.mp4`, in listing order. */
  function Videos(files: seq<string>): seq<string>
  {
    Filter((f: string) => EndsWith(f, VideoSuffix), files)
  }

  predicate HasVideos(folder: Entry)
  {
    Videos(folder.files) != []
  }

  /** `class_names`: the names of the folders that hold at least one video, in order. */
  function ClassNames(folders: seq<Entry>): seq<string>
    decreases |folders|
  {
    if folders == [] then []
    else
      var last := folders[|folders| - 1];
      ClassNames(folders[..|folders| - 1]) + (if HasVideos(last) then [last.name] else [])
  }

  /** The samples a folder contributes, one per video, in listing order. */
  function FolderJobs(folderIndex: nat, classIndex: nat, folder: Entry): (jobs: seq<Job>)
    ensures |jobs| == |Videos(folder.files)|
  {
    var videos := Videos(folder.files);
    seq(|videos|, k requires 0 <= k < |videos| => Job(folderIndex, classIndex, folder.name, videos[k]))
  }

  /** All samples, folder by folder, in the order the script appends them. */
  function Jobs(folders: seq<Entry>): seq<Job>
    decreases |folders|
  {
    if folders == [] then []
    else
      var init := folders[..|folders| - 1];
      Jobs(init) + FolderJobs(|init|, |ClassNames(init)|, folders[|folders| - 1])
  }

  /** The window built for one sample: sample the video's frames, extract one feature row
      per frame, pad to maxFrames rows. Fails when the video yields no frame. */
  function Window<F, V>(job: Job, videoAt: (string, string) -> Video<F>, blank: F,
                        extract: F -> V, maxFrames: int): Result<seq<V>, string>
    requires maxFrames > 0
  {
    PadFeatures(FeatureRows(extract, Sampled(videoAt(job.folder, job.video), maxFrames, blank)), maxFrames)
  }

  /** The window builder of the script for a given set of videos, extractor and window. */
  function WindowOf<F, V>(videoAt: (string, string) -> Video<F>, blank: F, extract: F -> V,
                          maxFrames: int): (build: Job -> Result<seq<V>, string>)
    requires maxFrames > 0
  {
    (job: Job) => Window(job, videoAt, blank, extract, maxFrames)
  }

  /** x and y hold, position by position, the window built for each job and its folder index. */
  ghost predicate Holds<V>(jobs: seq<Job>, x: seq<seq<V>>, y: seq<nat>, build: Job -> Result<seq<V>, string>)
  {
    && |x| == |jobs|
    && |y| == |jobs|
    && forall k :: 0 <= k < |jobs| ==> y[k] == jobs[k].folderIndex && build(jobs[k]) == Success(x[k])
  }

  lemma HoldsExtend<V>(jobs: seq<Job>, x: seq<seq<V>>, y: seq<nat>, build: Job -> Result<seq<V>, string>,
                       job: Job, w: seq<V>)
    requires Holds(jobs, x, y, build)
    requires build(job) == Success(w)
    ensures Holds(jobs + [job], x + [w], y + [job.folderIndex], build)
  {
  }

  /** The one-folder step of Jobs and ClassNames. */
  lemma JobsSnoc(folders: seq<Entry>, i: nat)
    requires i < |folders|
    ensures Jobs(folders[..i + 1]) ==
      Jobs(folders[..i]) + FolderJobs(i, |ClassNames(folders[..i])|, folders[i])
    ensures ClassNames(folders[..i + 1]) ==
      ClassNames(folders[..i]) + (if HasVideos(folders[i]) then [folders[i].name] else [])
  {
    assert folders[..i + 1][..i] == folders[..i];
  }

  /** Jobs of a longer listing extend the jobs of a shorter one. */
  lemma {:induction false} JobsPrefix(folders: seq<Entry>, i: nat)
    requires i <= |folders|
    ensures Jobs(folders[..i]) <= Jobs(folders)
    decreases |folders| - i
  {
    if i < |folders| {
      JobsSnoc(folders, i);
      JobsPrefix(folders, i + 1);
    } else {
      assert folders[..i] == folders;
    }
  }

  /** Video j of folder idx is job |Jobs(folders[..idx])| + j of the whole listing. */
  lemma JobPosition(folders: seq<Entry>, idx: nat, j: nat)
    requires idx < |folders|
    requires j < |FolderJobs(idx, |ClassNames(folders[..idx])|, folders[idx])|
    ensures |Jobs(folders[..idx])| + j < |Jobs(folders)|
    ensures Jobs(folders)[|Jobs(folders[..idx])| + j] == FolderJobs(idx, |ClassNames(folders[..idx])|, folders[idx])[j]
  {
    var current := FolderJobs(idx, |ClassNames(folders[..idx])|, folders[idx]);
    var upTo := Jobs(folders[..idx + 1]);
    JobsSnoc(folders, idx);
    JobsPrefix(folders, idx + 1);
    var k := |Jobs(folders[..idx])| + j;
    assert upTo[k] == current[j];
  }

  /** Filter keeps exactly the elements that satisfy p. */
  lemma {:induction false} FilterMembers<T>(p: T -> bool, s: seq<T>)
    ensures forall i :: 0 <= i < |Filter(p, s)| ==> p(Filter(p, s)[i]) && Filter(p, s)[i] in s
    ensures forall i :: 0 <= i < |s| && p(s[i]) ==> s[i] in Filter(p, s)
    decreases |s|
  {
    if s != [] {
      var init := s[..|s| - 1];
      FilterMembers(p, init);
      forall i | 0 <= i < |s| && p(s[i]) ensures s[i] in Filter(p, s) {
        if i < |s| - 1 {
          assert s[i] == init[i];
        }
      }
      forall i | 0 <= i < |Filter(p, s)| ensures p(Filter(p, s)[i]) && Filter(p, s)[i] in s {
        if i < |Filter(p, init)| {
          assert Filter(p, s)[i] == Filter(p, init)[i];
          assert Filter(p, init)[i] in init;
        }
      }
    }
  }

  /** A file of a folder is one of its videos exactly when its name ends in `.mp4`. */
  lemma OnlyMp4Contribute(files: seq<string>)
    ensures forall f :: f in Videos(files) <==> f in files && EndsWith(f, VideoSuffix)
  {
    FilterMembers((f: string) => EndsWith(f, VideoSuffix), files);
  }

  lemma {:induction false} ClassNamesPrefix(folders: seq<Entry>, i: nat)
    requires i <= |folders|
    ensures ClassNames(folders[..i]) <= ClassNames(folders)
    decreases |folders| - i
  {
    if i < |folders| {
      JobsSnoc(folders, i);
      ClassNamesPrefix(folders, i + 1);
    } else {
      assert folders[..i] == folders;
    }
  }

  /** A folder with videos has its name in `class_names` at the position equal to the number
      of earlier folders with videos. */
  lemma ClassNamePosition(folders: seq<Entry>, i: nat)
    requires i < |folders| && HasVideos(folders[i])
    ensures |ClassNames(folders[..i])| < |ClassNames(folders)|
    ensures ClassNames(folders)[|ClassNames(folders[..i])|] == folders[i].name
  {
    JobsSnoc(folders, i);
    ClassNamesPrefix(folders, i + 1);
  }

  /** `class_names` keeps folder-listing order: of two folders with videos, the earlier one
      comes first. */
  lemma ClassNamesInListingOrder(folders: seq<Entry>, i: nat, j: nat)
    requires i < j < |folders| && HasVideos(folders[i])
    ensures |ClassNames(folders[..i])| < |ClassNames(folders[..j])|
  {
    JobsSnoc(folders, i);
    assert folders[..j][..i + 1] == folders[..i + 1];
    ClassNamesPrefix(folders[..j], i + 1);
  }

  /** Every name in `class_names` is the name of a folder with videos, at the position that
      folder's predecessors with videos leave for it. */
  lemma {:induction false} ClassNamesFromFolders(folders: seq<Entry>, k: nat)
    requires k < |ClassNames(folders)|
    ensures exists i :: (0 <= i < |folders| && HasVideos(folders[i])
                         && folders[i].name == ClassNames(folders)[k] && |ClassNames(folders[..i])| == k)
    decreases |folders|
  {
    var init := folders[..|folders| - 1];
    if k < |ClassNames(init)| {
      ClassNamesFromFolders(init, k);
      var i :| 0 <= i < |init| && HasVideos(init[i])
        && init[i].name == ClassNames(init)[k] && |ClassNames(init[..i])| == k;
      assert init[..i] == folders[..i];
      assert init[i] == folders[i];
    } else {
      assert folders[..|folders| - 1] == init;
    }
  }

  /** What a job records: its folder index is the position, in the class-folder listing, of a
      folder with videos whose name the job carries; its class index is the number of earlier
      folders with videos; its video is one of that folder's videos. */
  lemma {:induction false} JobFacts(folders: seq<Entry>, k: nat)
    requires k < |Jobs(folders)|
    ensures var job := Jobs(folders)[k];
      && job.folderIndex < |folders|
      && folders[job.folderIndex].name == job.folder
      && HasVideos(folders[job.folderIndex])
      && job.classIndex == |ClassNames(folders[..job.folderIndex])|
      && job.video in Videos(folders[job.folderIndex].files)
    decreases |folders|
  {
    var init := folders[..|folders| - 1];
    var job := Jobs(folders)[k];
    if k < |Jobs(init)| {
      JobFacts(init, k);
      assert job == Jobs(init)[k];
      assert init[..job.folderIndex] == folders[..job.folderIndex];
      assert init[job.folderIndex] == folders[job.folderIndex];
    } else {
      var current := FolderJobs(|init|, |ClassNames(init)|, folders[|folders| - 1]);
      assert job == current[k - |Jobs(init)|];
    }
  }

  /** The class index of every job names the job's folder in `class_names`, so a label taken
      from it would always point at the right class. */
  lemma ClassIndexNamesFolder(folders: seq<Entry>, k: nat)
    requires k < |Jobs(folders)|
    ensures Jobs(folders)[k].classIndex < |ClassNames(folders)|
    ensures ClassNames(folders)[Jobs(folders)[k].classIndex] == Jobs(folders)[k].folder
  {
    JobFacts(folders, k);
    ClassNamePosition(folders, Jobs(folders)[k].folderIndex);
  }

  /** The stored label (the folder's position in the listing) agrees with the folder's position
      in `class_names` exactly when no earlier folder was skipped for having no video. */
  lemma LabelsAgreeIffNoEarlierSkip(folders: seq<Entry>, k: nat)
    requires k < |Jobs(folders)|
    ensures Jobs(folders)[k].folderIndex == Jobs(folders)[k].classIndex <==>
      forall i :: 0 <= i < Jobs(folders)[k].folderIndex && i < |folders| ==> HasVideos(folders[i])
  {
    var job := Jobs(folders)[k];
    JobFacts(folders, k);
    var prefix := folders[..job.folderIndex];
    ClassNamesCount(prefix);
    assert forall i :: 0 <= i < job.folderIndex ==> prefix[i] == folders[i];
  }

  /** `class_names` is as long as its folder list exactly when every folder has videos. */
  lemma {:induction false} ClassNamesCount(folders: seq<Entry>)
    ensures |ClassNames(folders)| <= |folders|
    ensures |ClassNames(folders)| == |folders| <==> forall i :: 0 <= i < |folders| ==> HasVideos(folders[i])
    decreases |folders|
  {
    if folders != [] {
      var init := folders[..|folders| - 1];
      ClassNamesCount(init);
      assert forall i :: 0 <= i < |init| ==> init[i] == folders[i];
    }
  }

  /** The smallest listing that shows the misalignment: an empty folder listed before a folder
      with one video. The only sample is labelled 1 while `class_names` has one entry, so the
      label points past the end of the saved class list. */
  lemma SkippedFolderShiftsLabels()
    ensures var entries := [Entry("empty", true, []), Entry("hello", true, ["a.mp4"])];
      && ClassNames(ClassFolders(entries)) == ["hello"]
      && Jobs(ClassFolders(entries)) == [Job(1, 0, "hello", "a.mp4")]
      && Jobs(ClassFolders(entries))[0].folderIndex >= |ClassNames(ClassFolders(entries))|
  {
  }

  /** With a single class name, every sample carries the same label. */
  lemma SingleClassOneLabel(folders: seq<Entry>, k: nat, l: nat)
    requires |ClassNames(folders)| == 1
    requires k < |Jobs(folders)| && l < |Jobs(folders)|
    ensures Jobs(folders)[k].folderIndex == Jobs(folders)[l].folderIndex
  {
    var a, b := Jobs(folders)[k].folderIndex, Jobs(folders)[l].folderIndex;
    ClassIndexNamesFolder(folders, k);
    ClassIndexNamesFolder(folders, l);
    JobFacts(folders, k);
    JobFacts(folders, l);
    if a < b {
      ClassNamesInListingOrder(folders, a, b);
    } else if b < a {
      ClassNamesInListingOrder(folders, b, a);
    }
  }

  /** Every job's window can be built. */
  ghost predicate AllBuild<V>(jobs: seq<Job>, build: Job -> Result<seq<V>, string>)
  {
    forall k :: 0 <= k < |jobs| ==> build(jobs[k]).Success?
  }

  /** A video of folder idx whose window cannot be built is a job of the whole listing whose
      window cannot be built. */
  lemma FailedJobBlocksAll<V>(folders: seq<Entry>, idx: nat, j: nat, build: Job -> Result<seq<V>, string>)
    requires idx < |folders|
    requires j < |FolderJobs(idx, |ClassNames(folders[..idx])|, folders[idx])|
    requires build(FolderJobs(idx, |ClassNames(folders[..idx])|, folders[idx])[j]).Failure?
    ensures !AllBuild(Jobs(folders), build)
  {
    JobPosition(folders, idx, j);
    assert !build(Jobs(folders)[|Jobs(folders[..idx])| + j]).Success?;
  }

  lemma HoldsComplete<V>(jobs: seq<Job>, x: seq<seq<V>>, y: seq<nat>, build: Job -> Result<seq<V>, string>)
    requires Holds(jobs, x, y, build)
    ensures AllBuild(jobs, build)
  {
  }

  /** Every window the script records has exactly maxFrames rows. */
  lemma WindowsHaveMaxFrames<F, V>(jobs: seq<Job>, x: seq<seq<V>>, y: seq<nat>,
                                   videoAt: (string, string) -> Video<F>, blank: F,
                                   extract: F -> V, maxFrames: int)
    requires maxFrames > 0
    requires Holds(jobs, x, y, WindowOf(videoAt, blank, extract, maxFrames))
    ensures forall k :: 0 <= k < |x| ==> |x[k]| == maxFrames
  {
    forall k | 0 <= k < |x| ensures |x[k]| == maxFrames {
      assert Window(jobs[k], videoAt, blank, extract, maxFrames) == Success(x[k]);
    }
  }

  lemma HoldsConcat<V>(a: seq<Job>, xa: seq<seq<V>>, ya: seq<nat>,
                       b: seq<Job>, xb: seq<seq<V>>, yb: seq<nat>, build: Job -> Result<seq<V>, string>)
    requires Holds(a, xa, ya, build) && Holds(b, xb, yb, build)
    ensures Holds(a + b, xa + xb, ya + yb, build)
  {
    forall k | |a| <= k < |a| + |b|
      ensures (ya + yb)[k] == (a + b)[k].folderIndex && build((a + b)[k]) == Success((xa + xb)[k])
    {
      var m := k - |a|;
      assert (a + b)[k] == b[m] && (xa + xb)[k] == xb[m] && (ya + yb)[k] == yb[m];
    }
  }

  /** The inner loop of the assembly: for each video of one folder, sample it, pad it and
      record the window with the folder's index. Fails, giving the position of the video,
      as soon as a video yields no frame. */
  method SampleFolder<F, V>(folderIndex: nat, classIndex: nat, folder: Entry,
                            videoAt: (string, string) -> Video<F>, blank: F, extract: F -> V,
                            maxFrames: int)
    returns (r: Result<(seq<seq<V>>, seq<nat>), nat>)
    requires maxFrames > 0
    ensures r.Success? ==>
      Holds(FolderJobs(folderIndex, classIndex, folder), r.value.0, r.value.1, WindowOf(videoAt, blank, extract, maxFrames))
    ensures r.Failure? ==>
      && r.error < |Videos(folder.files)|
      && Window(FolderJobs(folderIndex, classIndex, folder)[r.error], videoAt, blank, extract, maxFrames).Failure?
  {
    var videos := Videos(folder.files);
    ghost var jobs := FolderJobs(folderIndex, classIndex, folder);
    ghost var build := WindowOf(videoAt, blank, extract, maxFrames);
    var x: seq<seq<V>>, y: seq<nat> := [], [];
    for j := 0 to |videos|
      invariant Holds(jobs[..j], x, y, build)
    {
      var frames, _ := SampleFrames(videoAt(folder.name, videos[j]), maxFrames, blank);
      var padded := PadFeatures(FeatureRows(extract, frames), maxFrames);
      if padded.Failure? {
        return Failure(j);
      }
      assert jobs[..j + 1] == jobs[..j] + [jobs[j]];
      HoldsExtend(jobs[..j], x, y, build, jobs[j], padded.value);
      x, y := x + [padded.value], y + [folderIndex];
    }
    assert jobs[..|videos|] == jobs;
    return Success((x, y));
  }

  /** The assembly loop: for each class folder, skip it when it holds no `.mp4` file,
      otherwise record its name and, for each of its videos, append the padded window to x
      and the folder's position in the listing to y. A video that yields no frame makes
      `pad_features` raise, which ends the script. */
  method AssembleDataset<F, V>(entries: seq<Entry>, videoAt: (string, string) -> Video<F>,
                               blank: F, extract: F -> V, maxFrames: int)
    returns (r: Result<Dataset<V>, string>)
    requires maxFrames > 0
    ensures r.Success? <==> AllBuild(Jobs(ClassFolders(entries)), WindowOf(videoAt, blank, extract, maxFrames))
    ensures r.Failure? ==> r.error == IndexOutOfRange
    ensures r.Success? ==>
      && r.value.classNames == ClassNames(ClassFolders(entries))
      && Holds(Jobs(ClassFolders(entries)), r.value.x, r.value.y, WindowOf(videoAt, blank, extract, maxFrames))
    ensures r.Success? ==> |r.value.x| == |r.value.y|
    ensures r.Success? ==> forall k :: 0 <= k < |r.value.x| ==> |r.value.x[k]| == maxFrames
  {
    var folders := ClassFolders(entries);
    ghost var build := WindowOf(videoAt, blank, extract, maxFrames);
    var x: seq<seq<V>>, y: seq<nat>, names: seq<string> := [], [], [];
    for idx := 0 to |folders|
      invariant names == ClassNames(folders[..idx])
      invariant Holds(Jobs(folders[..idx]), x, y, build)
    {
      JobsSnoc(folders, idx);
      var folder := folders[idx];
      if Videos(folder.files) != [] {
        var sampled := SampleFolder(idx, |names|, folder, videoAt, blank, extract, maxFrames);
        if sampled.Failure? {
          FailedJobBlocksAll(folders, idx, sampled.error, build);
          return Failure(IndexOutOfRange);
        }
        HoldsConcat(Jobs(folders[..idx]), x, y, FolderJobs(idx, |names|, folder), sampled.value.0, sampled.value.1, build);
        x, y, names := x + sampled.value.0, y + sampled.value.1, names + [folder.name];
      }
    }
    assert folders[..|folders|] == folders;
    HoldsComplete(Jobs(folders), x, y, build);
    WindowsHaveMaxFrames(Jobs(folders), x, y, videoAt, blank, extract, maxFrames);
    return Success(Dataset(x, y, names));
  }

  /** The four arrays handed to `model.fit`. */
  datatype Split<V> = Split(xTrain: seq<seq<V>>, xVal: seq<seq<V>>, yTrain: seq<nat>, yVal: seq<nat>)

  /** The train/validation split: the stratified library split when there is more than one
      class name, and otherwise the whole data set used as both halves. */
  function TrainValSplit<V>(data: Dataset<V>, stratified: (seq<seq<V>>, seq<nat>) -> Split<V>): (s: Split<V>)
    ensures |data.classNames| <= 1 ==>
      s.xTrain == s.xVal == data.x && s.yTrain == s.yVal == data.y
    ensures |data.classNames| > 1 ==> s == stratified(data.x, data.y)
  {
    if |data.classNames| > 1 then stratified(data.x, data.y)
    else Split(data.x, data.x, data.y, data.y)
  }

  /** The data preparation of the training script: assemble the samples with the training
      window of TrainingMaxFrames rows, then split. With a single class the model validates
      on its own training data, all of it under one label. */
  method PrepareTrainingData<F, V>(entries: seq<Entry>, videoAt: (string, string) -> Video<F>,
                                   blank: F, extract: F -> V,
                                   stratified: (seq<seq<V>>, seq<nat>) -> Split<V>)
    returns (r: Result<Split<V>, string>)
    ensures r.Success? <==>
      AllBuild(Jobs(ClassFolders(entries)), WindowOf(videoAt, blank, extract, TrainingMaxFrames))
    ensures r.Failure? ==> r.error == IndexOutOfRange
    ensures r.Success? && |ClassNames(ClassFolders(entries))| <= 1 ==>
      && r.value.xTrain == r.value.xVal
      && r.value.yTrain == r.value.yVal
      && |r.value.xTrain| == |r.value.yTrain| == |Jobs(ClassFolders(entries))|
      && (forall k :: 0 <= k < |r.value.xTrain| ==> |r.value.xTrain[k]| == TrainingMaxFrames)
    ensures r.Success? && |ClassNames(ClassFolders(entries))| <= 1 ==>
      Holds(Jobs(ClassFolders(entries)), r.value.xTrain, r.value.yTrain, WindowOf(videoAt, blank, extract, TrainingMaxFrames))
    ensures r.Success? && |ClassNames(ClassFolders(entries))| == 1 ==>
      forall k, l :: 0 <= k < |r.value.yTrain| && 0 <= l < |r.value.yTrain| ==> r.value.yTrain[k] == r.value.yTrain[l]
  {
    var data := AssembleDataset(entries, videoAt, blank, extract, TrainingMaxFrames);
    if data.Failure? {
      return Failure(data.error);
    }
    var folders := ClassFolders(entries);
    if |data.value.classNames| == 1 {
      forall k, l | 0 <= k < |data.value.y| && 0 <= l < |data.value.y|
        ensures data.value.y[k] == data.value.y[l]
      {
        SingleClassOneLabel(folders, k, l);
      }
    }
    return Success(TrainValSplit(data.value, stratified));
  }
}
