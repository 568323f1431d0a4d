/** Which frames of an uploaded or training video the sign-detection back end reads
    (`sample_frames`, present twice: once for inference and once for training). */
module FrameSampling {
  import opened Wrappers

  /** A video as the sampler sees it through its capture object: the frame count the
      container reports (OpenCV may report zero, or a negative number for an unknown count)
      and, for each position, the frame that seeking there and reading yields, or None
      when that read fails. Decoding, colour conversion and resizing are not modelled:
      a frame is an opaque value of type F. */
  datatype Video<F> = Video(frameCount: int, frameAt: int -> Option<F>)

  /** The sampling stride `max(1, total // maxFrames)`. Python's `//` rounds down, and so
      does Dafny's `/` for a positive divisor. */
  function Step(totalFrames: int, maxFrames: int): (step: int)
    requires maxFrames > 0
    ensures step >= 1
  {
    var q := totalFrames / maxFrames;
    if q > 1 then q else 1
  }

  /** A video of at least one window gets the number of whole windows in it as its stride
      (maxFrames strides fit in it, maxFrames + 1 do not); a video shorter than two windows is
      read frame by frame. */
  lemma StepBounds(totalFrames: int, maxFrames: int)
    requires maxFrames > 0
    ensures totalFrames >= maxFrames ==>
      Step(totalFrames, maxFrames) * maxFrames <= totalFrames < (Step(totalFrames, maxFrames) + 1) * maxFrames
    ensures totalFrames < 2 * maxFrames ==> Step(totalFrames, maxFrames) == 1
  {
    var q := totalFrames / maxFrames;
    var r := totalFrames % maxFrames;
    assert totalFrames == q * maxFrames + r && 0 <= r < maxFrames;
    assert (q + 1) * maxFrames == q * maxFrames + maxFrames;
    if q >= 2 {
      MultiplyAtMost(2, q, maxFrames);
    } else if q <= 0 {
      MultiplyAtMost(q, 0, maxFrames);
    }
  }

  /** The positions `range(start, limit, step)` produces. */
  function Positions(start: int, limit: int, step: int): seq<int>
    requires step >= 1
    decreases limit - start
  {
    if start >= limit then [] else [start] + Positions(start + step, limit, step)
  }

  /** The positions the sampler seeks to, in order, when it does not stop early. */
  function Schedule(totalFrames: int, maxFrames: int): seq<int>
    requires maxFrames > 0
  {
    Positions(0, totalFrames, Step(totalFrames, maxFrames))
  }

  /** The frames that reads at the positions ps yield, in order, skipping failed reads. */
  function Successes<F>(frameAt: int -> Option<F>, ps: seq<int>): (frames: seq<F>)
    ensures |frames| <= |ps|
    decreases |ps|
  {
    if ps == [] then []
    else
      var last := frameAt(ps[|ps| - 1]);
      Successes(frameAt, ps[..|ps| - 1]) + (if last.Some? then [last.value] else [])
  }

  /** Reads that all succeed yield one frame per position; no frame at all is yielded exactly
      when every read fails. */
  lemma {:induction false} SuccessesCount<F>(frameAt: int -> Option<F>, ps: seq<int>)
    ensures (forall k :: 0 <= k < |ps| ==> frameAt(ps[k]).Some?) ==> |Successes(frameAt, ps)| == |ps|
    ensures Successes(frameAt, ps) == [] <==> forall k :: 0 <= k < |ps| ==> frameAt(ps[k]).None?
    decreases |ps|
  {
    if ps != [] {
      var init := ps[..|ps| - 1];
      SuccessesCount(frameAt, init);
      assert forall k :: 0 <= k < |init| ==> init[k] == ps[k];
    }
  }

  /** The first n elements of s, or all of s when it is shorter. */
  function Take<T>(s: seq<T>, n: nat): (t: seq<T>)
    ensures t <= s
    ensures |t| == if |s| <= n then |s| else n
  {
    if |s| <= n then s else s[..n]
  }

  /** What `sample_frames` returns: one blank frame for a video that reports no frames,
      otherwise the first maxFrames successful reads along the schedule. */
  function Sampled<F>(video: Video<F>, maxFrames: int, blank: F): (frames: seq<F>)
    requires maxFrames > 0
    ensures |frames| <= maxFrames
    ensures video.frameCount == 0 ==> frames == [blank]
  {
    if video.frameCount == 0 then [blank]
    else Take(Successes(video.frameAt, Schedule(video.frameCount, maxFrames)), maxFrames)
  }

  /** `sample_frames`: seeks to 0, step, 2 * step, ... below the frame count, skips failed
      reads, and stops as soon as maxFrames frames are collected. Besides the frames it
      returns the positions it sought to, in order. */
  method SampleFrames<F>(video: Video<F>, maxFrames: int, blank: F) returns (frames: seq<F>, visited: seq<int>)
    requires maxFrames > 0
    ensures frames == Sampled(video, maxFrames, blank)
    ensures video.frameCount == 0 ==> visited == []
    ensures visited <= Schedule(video.frameCount, maxFrames)
    ensures video.frameCount != 0 ==> frames == Successes(video.frameAt, visited)
    ensures visited != [] ==> |Successes(video.frameAt, visited[..|visited| - 1])| < maxFrames
    ensures video.frameCount != 0 && visited != Schedule(video.frameCount, maxFrames) ==> |frames| == maxFrames
  {
    if video.frameCount == 0 {
      return [blank], [];
    }
    var step := Step(video.frameCount, maxFrames);
    ghost var schedule := Schedule(video.frameCount, maxFrames);
    frames, visited := [], [];
    var i := 0;
    while i < video.frameCount
      invariant visited + Positions(i, video.frameCount, step) == schedule
      invariant frames == Successes(video.frameAt, visited)
      invariant |frames| < maxFrames
      decreases video.frameCount - i
    {
      ghost var before := visited;
      ghost var rest := Positions(i + step, video.frameCount, step);
      assert Positions(i, video.frameCount, step) == [i] + rest;
      visited := visited + [i];
      assert visited + rest == schedule;
      SuccessesSnoc(video.frameAt, before, i);
      var read := video.frameAt(i);
      if read.Some? {
        frames := frames + [read.value];
        if |frames| >= maxFrames {
          WindowFilled(video.frameAt, visited, rest, maxFrames);
          break;
        }
      }
      i := i + step;
    }
    if i >= video.frameCount {
      assert visited == schedule;
    }
  }

  /** Once the positions visited so far have filled the window, later positions do not
      change the first maxFrames frames. */
  lemma WindowFilled<F>(frameAt: int -> Option<F>, visited: seq<int>, rest: seq<int>, maxFrames: nat)
    requires |Successes(frameAt, visited)| == maxFrames
    ensures Take(Successes(frameAt, visited + rest), maxFrames) == Successes(frameAt, visited)
  {
    SuccessesAppend(frameAt, visited, rest);
    var frames := Successes(frameAt, visited);
    assert (frames + Successes(frameAt, rest))[..maxFrames] == frames;
  }

  lemma SuccessesSnoc<F>(frameAt: int -> Option<F>, ps: seq<int>, p: int)
    ensures Successes(frameAt, ps + [p]) ==
      Successes(frameAt, ps) + (if frameAt(p).Some? then [frameAt(p).value] else [])
  {
    assert (ps + [p])[..|ps|] == ps;
  }

  lemma {:induction false} SuccessesAppend<F>(frameAt: int -> Option<F>, a: seq<int>, b: seq<int>)
    ensures Successes(frameAt, a + b) == Successes(frameAt, a) + Successes(frameAt, b)
    decreases |b|
  {
    if b == [] {
      assert a + b == a;
    } else {
      assert (a + b)[..|a + b| - 1] == a + b[..|b| - 1];
      SuccessesAppend(frameAt, a, b[..|b| - 1]);
    }
  }

  /** The positions of `range(start, limit, step)` are start + k * step, all below limit,
      and there are exactly as many as it takes to cover limit - start in strides of step. */
  lemma {:induction false} PositionsShape(start: int, limit: int, step: int)
    requires step >= 1
    ensures forall k :: 0 <= k < |Positions(start, limit, step)| ==>
      Positions(start, limit, step)[k] == start + k * step < limit
    ensures |Positions(start, limit, step)| * step >= limit - start
    ensures start < limit ==> (|Positions(start, limit, step)| - 1) * step < limit - start
    decreases limit - start
  {
    if start < limit {
      PositionsShape(start + step, limit, step);
      var ps := Positions(start, limit, step);
      var tail := Positions(start + step, limit, step);
      assert |ps| * step == |tail| * step + step by {
        assert |ps| == |tail| + 1;
      }
      forall k | 0 <= k < |ps| ensures ps[k] == start + k * step < limit {
        if k > 0 {
          assert ps[k] == tail[k - 1];
          assert (k - 1) * step + step == k * step;
        }
      }
    }
  }

  lemma {:induction false} PositionsIncreasing(start: int, limit: int, step: int)
    requires step >= 1
    ensures forall k :: 0 <= k < |Positions(start, limit, step)| ==> start <= Positions(start, limit, step)[k]
    ensures forall j, k :: 0 <= j < k < |Positions(start, limit, step)| ==>
      Positions(start, limit, step)[j] < Positions(start, limit, step)[k]
    decreases limit - start
  {
    if start < limit {
      PositionsIncreasing(start + step, limit, step);
      var ps := Positions(start, limit, step);
      assert ps[1..] == Positions(start + step, limit, step);
    }
  }

  /** The stride is at least one, and the positions read are 0, step, 2 * step, ...:
      strictly increasing and all inside [0, totalFrames). */
  lemma ScheduleIsStrided(totalFrames: int, maxFrames: int)
    requires maxFrames > 0
    ensures Step(totalFrames, maxFrames) >= 1
    ensures forall k :: 0 <= k < |Schedule(totalFrames, maxFrames)| ==>
      Schedule(totalFrames, maxFrames)[k] == k * Step(totalFrames, maxFrames)
      && 0 <= Schedule(totalFrames, maxFrames)[k] < totalFrames
    ensures forall j, k :: 0 <= j < k < |Schedule(totalFrames, maxFrames)| ==>
      Schedule(totalFrames, maxFrames)[j] < Schedule(totalFrames, maxFrames)[k]
  {
    PositionsShape(0, totalFrames, Step(totalFrames, maxFrames));
    PositionsIncreasing(0, totalFrames, Step(totalFrames, maxFrames));
  }

  /** The schedule has at least min(totalFrames, maxFrames) positions, and exactly
      totalFrames when the video is shorter than the window. */
  lemma ScheduleLength(totalFrames: int, maxFrames: int)
    requires maxFrames > 0 && totalFrames > 0
    ensures |Schedule(totalFrames, maxFrames)| >= if totalFrames < maxFrames then totalFrames else maxFrames
    ensures totalFrames < maxFrames ==> |Schedule(totalFrames, maxFrames)| == totalFrames
  {
    var step := Step(totalFrames, maxFrames);
    var n := |Schedule(totalFrames, maxFrames)|;
    PositionsShape(0, totalFrames, step);
    StepBounds(totalFrames, maxFrames);
    if totalFrames >= maxFrames && n < maxFrames {
      MultiplyBelow(n, maxFrames, step);
    }
  }

  lemma MultiplyBelow(a: int, b: int, c: int)
    requires a < b && c > 0
    ensures a * c < b * c
  {
  }

  lemma MultiplyAtMost(a: int, b: int, c: int)
    requires a <= b && c > 0
    ensures a * c <= b * c
  {
  }

  /** When every scheduled read succeeds on a video with a positive frame count, the sampler returns
      exactly min(totalFrames, maxFrames) frames. */
  lemma AllReadsSucceed<F>(video: Video<F>, maxFrames: int, blank: F)
    requires maxFrames > 0 && video.frameCount > 0
    requires forall k :: 0 <= k < |Schedule(video.frameCount, maxFrames)| ==>
      video.frameAt(Schedule(video.frameCount, maxFrames)[k]).Some?
    ensures |Sampled(video, maxFrames, blank)| ==
      if video.frameCount < maxFrames then video.frameCount else maxFrames
  {
    ScheduleLength(video.frameCount, maxFrames);
    SuccessesCount(video.frameAt, Schedule(video.frameCount, maxFrames));
  }

  /** The sampler returns no frame at all exactly when the video reports a nonzero frame
      count and every scheduled read fails; a negative frame count is one such case. */
  lemma NothingSampled<F>(video: Video<F>, maxFrames: int, blank: F)
    requires maxFrames > 0
    ensures Sampled(video, maxFrames, blank) == [] <==>
      video.frameCount != 0
      && forall k :: 0 <= k < |Schedule(video.frameCount, maxFrames)| ==>
           video.frameAt(Schedule(video.frameCount, maxFrames)[k]).None?
    ensures video.frameCount < 0 ==> Sampled(video, maxFrames, blank) == []
  {
    SuccessesCount(video.frameAt, Schedule(video.frameCount, maxFrames));
  }
}
