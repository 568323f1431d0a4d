/** Fitting a clip's per-frame feature rows to the fixed window the sequence model reads
    (`pad_features`, present twice: once for inference and once for training). */
module FeaturePadding {
  import opened Wrappers

  /** The message of the IndexError that `features[0]` raises on an empty list. */
  const IndexOutOfRange := "list index out of range"

  /** n copies of x. */
  function Repeat<T>(x: T, n: nat): (r: seq<T>)
    ensures |r| == n
    ensures forall i :: 0 <= i < n ==> r[i] == x
  {
    seq(n, _ => x)
  }

  /** One feature row per frame, in frame order: the list that the feature extractor builds
      from the sampled frames. The extractor itself is a parameter. */
  function FeatureRows<F, V>(extract: F -> V, frames: seq<F>): (rows: seq<V>)
    ensures |rows| == |frames|
    ensures forall i :: 0 <= i < |frames| ==> rows[i] == extract(frames[i])
  {
    seq(|frames|, i requires 0 <= i < |frames| => extract(frames[i]))
  }

  /** `pad_features`: a non-empty list of rows shorter than the window is extended by
      repeating its last row, a longer one is cut to its first maxFrames rows; an empty
      list fails, because the row width is read from `features[0]`. */
  function PadFeatures<T>(features: seq<T>, maxFrames: int): (r: Result<seq<T>, string>)
    requires maxFrames > 0
    ensures r.Failure? <==> features == []
    ensures r.Failure? ==> r.error == IndexOutOfRange
    ensures r.Success? ==> |r.value| == maxFrames
    ensures r.Success? && |features| <= maxFrames ==>
      features <= r.value
      && forall i :: |features| <= i < maxFrames ==> r.value[i] == features[|features| - 1]
    ensures r.Success? && |features| >= maxFrames ==> r.value == features[..maxFrames]
  {
    if features == [] then Failure(IndexOutOfRange)
    else if |features| < maxFrames then
      Success(features + Repeat(features[|features| - 1], maxFrames - |features|))
    else Success(features[..maxFrames])
  }

  /** Padding is idempotent: a window that already has maxFrames rows comes back unchanged. */
  lemma PadIdempotent<T>(features: seq<T>, maxFrames: int)
    requires maxFrames > 0 && features != []
    ensures PadFeatures(PadFeatures(features, maxFrames).value, maxFrames) == PadFeatures(features, maxFrames)
  {
    var w := PadFeatures(features, maxFrames).value;
    assert w[..maxFrames] == w;
  }

  /** The window depends only on the first maxFrames rows and, for a shorter list, on the
      rows themselves: two lists that agree on their first maxFrames rows pad alike. */
  lemma PadDependsOnPrefix<T>(a: seq<T>, b: seq<T>, maxFrames: int)
    requires maxFrames > 0 && |a| >= maxFrames && |b| >= maxFrames
    requires a[..maxFrames] == b[..maxFrames]
    ensures PadFeatures(a, maxFrames) == PadFeatures(b, maxFrames)
  {
  }

  /** Every row of the window is a row of the input, and the input's rows keep their order:
      row i of the window is input row min(i, |features| - 1). */
  lemma PadRowsComeFromInput<T>(features: seq<T>, maxFrames: int)
    requires maxFrames > 0 && features != []
    ensures forall i :: 0 <= i < maxFrames ==>
      PadFeatures(features, maxFrames).value[i] ==
        features[if i < |features| then i else |features| - 1]
  {
  }
}
