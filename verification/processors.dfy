/** The three feed kinds (`FeedSlice`, `FeedAverage`, `FeedInterval`) as one
    state machine: `Ingest` is their `newFrame`, `Reset` their `reset`. */
module Processors {
  import opened Results
  import opened PyOps
  import opened Images
  import opened FeedSpecs

  /** A camera frame: the camera it came from, its number and its samples. */
  datatype RawFrame = RawFrame(camera: string, number: int, image: Image)

  /** A frame a feed emits (`frame.Frame(data, number, x_pixels, y_pixels, feed_name)`). */
  datatype DerivedFrame = DerivedFrame(image: Image, number: int, xPixels: int, yPixels: int, feedName: string)

  /** The processing a feed applies, with its type-specific parameters. */
  datatype Policy =
    | Slice
    | Average(framesToAverage: int)
    | Interval(cycleLength: int, captureFrames: seq<int>)

  /** `frame_number`, plus `average_frame` and `counts` (used by averaging feeds only). */
  datatype FeedState = FeedState(frameNumber: int, sum: Option<Image>, counts: int)

  datatype Feed = Feed(spec: FeedSpec, policy: Policy, state: FeedState)

  /** The state after construction or `reset()`. */
  const Initial: FeedState := FeedState(-1, None, 0)

  /** The states a feed can reach from `Initial`: the running sum exists
      exactly while some frames are counted, and an averaging feed with a
      positive batch size never holds a whole batch between calls. */
  predicate Valid(feed: Feed) {
    && feed.state.counts >= 0
    && (feed.state.sum.Some? <==> feed.state.counts > 0)
    && (feed.policy.Average? && feed.policy.framesToAverage >= 1 ==>
          feed.state.counts < feed.policy.framesToAverage)
    && (!feed.policy.Average? ==> feed.state.counts == 0)
  }

  /** `sliceFrame`: `None` for a frame of another camera. */
  function SliceFrame(spec: FeedSpec, raw: RawFrame): (r: Option<Image>)
    ensures r.Some? <==> raw.camera == spec.cameraName
    ensures r.Some? && spec.frameSlice.None? ==> r.value == raw.image
    ensures r.Some? && spec.frameSlice.Some? ==> r.value == Crop(raw.image, spec.frameSlice.value)
  {
    if raw.camera == spec.cameraName then Some(Cropped(spec, raw.image)) else None
  }

  function Emit(spec: FeedSpec, img: Image, number: int): DerivedFrame {
    DerivedFrame(img, number, spec.xPixels, spec.yPixels, spec.feedName)
  }

  /** `newFrame` of the feed's kind: the updated feed and the frames it emits. */
  function Ingest(feed: Feed, raw: RawFrame): (r: Result<(Feed, seq<DerivedFrame>), FeedError>)
    ensures r.Ok? ==> r.value.0.spec == feed.spec && r.value.0.policy == feed.policy
    ensures r.Ok? ==> |r.value.1| <= 1
    ensures r.Ok? && |r.value.1| == 1 ==>
      r.value.1[0].feedName == feed.spec.feedName &&
      r.value.1[0].xPixels == feed.spec.xPixels && r.value.1[0].yPixels == feed.spec.yPixels
    ensures Valid(feed) && r.Ok? ==> Valid(r.value.0)
  {
    var sliced := SliceFrame(feed.spec, raw);
    match feed.policy
    case Slice =>
      if sliced.Some? then Ok((feed, [Emit(feed.spec, sliced.value, raw.number)]))
      else Ok((feed, []))
    case Interval(cycle, capture) =>
      if sliced.None? then Ok((feed, []))
      else if cycle == 0 then Err(ZeroCycleLength(feed.spec.feedName))
      else if PyMod(raw.number, cycle) in capture then
        var n := feed.state.frameNumber + 1;
        Ok((feed.(state := feed.state.(frameNumber := n)), [Emit(feed.spec, sliced.value, n)]))
      else Ok((feed, []))
    case Average(k) =>
      var acc := Accumulate(feed, sliced);
      if acc.Err? then Err(acc.error)
      else
        var (sum, counts) := acc.value;
        if counts == k then
          // `None / k` raises; a running sum with k < 1 cannot occur in a Valid state.
          if sum.None? || k < 1 then Err(AverageOfNothing(feed.spec.feedName))
          else
            var n := feed.state.frameNumber + 1;
            Ok((feed.(state := FeedState(n, None, 0)), [Emit(feed.spec, DivideToU16(sum.value, k), n)]))
        else Ok((feed.(state := feed.state.(sum := sum, counts := counts)), []))
  }

  /** Lines 302-307: add the sliced frame, if any, to the `uint32` running sum. */
  function Accumulate(feed: Feed, sliced: Option<Image>): (r: Result<(Option<Image>, int), FeedError>)
    ensures r.Err? <==>
      sliced.Some? && feed.state.sum.Some? && !SameShape(feed.state.sum.value, sliced.value)
    ensures r.Err? ==> r.error == ShapeMismatch(feed.spec.feedName)
    ensures r.Ok? ==> r.value.1 == feed.state.counts + (if sliced.Some? then 1 else 0)
    ensures r.Ok? && sliced.None? ==> r.value.0 == feed.state.sum
    ensures r.Ok? && sliced.Some? ==> r.value.0.Some? && SameShape(r.value.0.value, sliced.value)
  {
    match sliced
    case None => Ok((feed.state.sum, feed.state.counts))
    case Some(img) =>
      match feed.state.sum
      case None => Ok((Some(Widen(img)), feed.state.counts + 1))
      case Some(acc) =>
        if SameShape(acc, img) then Ok((Some(AddWrap(acc, img)), feed.state.counts + 1))
        else Err(ShapeMismatch(feed.spec.feedName))
  }

  /** `reset()`: numbering restarts and any partial average is discarded. */
  function Reset(feed: Feed): (r: Feed)
    ensures r.spec == feed.spec && r.policy == feed.policy
    ensures r.state.frameNumber == -1 && r.state.sum.None? && r.state.counts == 0
    ensures Valid(r)
  {
    feed.(state := Initial)
  }

  /** An averaging feed whose batch size is 0 raises on a frame of another
      camera while it holds no frames (`None / 0` at line 310). */
  predicate CrashesOnForeignFrame(feed: Feed) {
    feed.policy == Average(0) && feed.state.counts == 0
  }

  /** A frame from another camera changes no feed and yields nothing, except
      for the zero-batch averaging feed of `CrashesOnForeignFrame`. */
  lemma ForeignFrameIgnored(feed: Feed, raw: RawFrame)
    requires Valid(feed)
    requires raw.camera != feed.spec.cameraName
    ensures CrashesOnForeignFrame(feed) ==> Ingest(feed, raw) == Err(AverageOfNothing(feed.spec.feedName))
    ensures !CrashesOnForeignFrame(feed) ==> Ingest(feed, raw) == Ok((feed, []))
  {
  }

  /** `newFrame` over a stream of frames, stopping at the first exception. */
  function Run(feed: Feed, frames: seq<RawFrame>): Result<(Feed, seq<DerivedFrame>), FeedError>
    decreases |frames|
  {
    if |frames| == 0 then Ok((feed, []))
    else
      match Ingest(feed, frames[0])
      case Err(e) => Err(e)
      case Ok((next, out)) =>
        match Run(next, frames[1..])
        case Err(e) => Err(e)
        case Ok((last, rest)) => Ok((last, out + rest))
  }

  /** The frames of a stream that come from the feed's camera. */
  function Matching(spec: FeedSpec, frames: seq<RawFrame>): (m: seq<RawFrame>)
    ensures forall i :: 0 <= i < |m| ==> m[i].camera == spec.cameraName
    decreases |frames|
  {
    if |frames| == 0 then []
    else if frames[0].camera == spec.cameraName then [frames[0]] + Matching(spec, frames[1..])
    else Matching(spec, frames[1..])
  }

  /** The crops of `frames`, each carrying its own source number. */
  function Passed(spec: FeedSpec, frames: seq<RawFrame>): seq<DerivedFrame> {
    seq(|frames|, i requires 0 <= i < |frames| => Emit(spec, Cropped(spec, frames[i].image), frames[i].number))
  }

  /** A slicing feed emits one frame per frame of its camera, carrying that
      frame's own number and its cropped data, and never changes state. */
  lemma {:induction false} SliceRun(feed: Feed, frames: seq<RawFrame>)
    requires feed.policy == Slice
    ensures Run(feed, frames) == Ok((feed, Passed(feed.spec, Matching(feed.spec, frames))))
    decreases |frames|
  {
    if |frames| == 0 {
      assert Passed(feed.spec, []) == [];
    } else {
      SliceRun(feed, frames[1..]);
      SliceStep(feed, frames);
    }
  }

  lemma SliceStep(feed: Feed, frames: seq<RawFrame>)
    requires feed.policy == Slice && |frames| > 0
    requires Run(feed, frames[1..]) == Ok((feed, Passed(feed.spec, Matching(feed.spec, frames[1..]))))
    ensures Run(feed, frames) == Ok((feed, Passed(feed.spec, Matching(feed.spec, frames))))
  {
    if frames[0].camera == feed.spec.cameraName {
      SliceKeep(feed, frames);
    } else {
      SliceDrop(feed, frames);
    }
  }

  lemma SliceKeep(feed: Feed, frames: seq<RawFrame>)
    requires feed.policy == Slice && |frames| > 0 && frames[0].camera == feed.spec.cameraName
    requires Run(feed, frames[1..]) == Ok((feed, Passed(feed.spec, Matching(feed.spec, frames[1..]))))
    ensures Run(feed, frames) == Ok((feed, Passed(feed.spec, Matching(feed.spec, frames))))
  {
    var m' := Matching(feed.spec, frames[1..]);
    var out0 := [Emit(feed.spec, Cropped(feed.spec, frames[0].image), frames[0].number)];
    RunStep(feed, frames, feed, out0);
    assert Passed(feed.spec, [frames[0]] + m') == out0 + Passed(feed.spec, m');
  }

  lemma SliceDrop(feed: Feed, frames: seq<RawFrame>)
    requires feed.policy == Slice && |frames| > 0 && frames[0].camera != feed.spec.cameraName
    requires Run(feed, frames[1..]) == Ok((feed, Passed(feed.spec, Matching(feed.spec, frames[1..]))))
    ensures Run(feed, frames) == Ok((feed, Passed(feed.spec, Matching(feed.spec, frames))))
  {
    RunStep(feed, frames, feed, []);
    var out := Passed(feed.spec, Matching(feed.spec, frames[1..]));
    assert [] + out == out;
  }

  /** The frames of the feed's camera whose number, taken `%` the cycle
      length, is one of the capture positions. */
  function Captured(spec: FeedSpec, cycle: int, capture: seq<int>, frames: seq<RawFrame>): seq<RawFrame>
    requires cycle != 0
    decreases |frames|
  {
    if |frames| == 0 then []
    else if frames[0].camera == spec.cameraName && PyMod(frames[0].number, cycle) in capture then
      [frames[0]] + Captured(spec, cycle, capture, frames[1..])
    else Captured(spec, cycle, capture, frames[1..])
  }

  /** The crops of `frames`, numbered consecutively from `first`. */
  function Renumbered(spec: FeedSpec, frames: seq<RawFrame>, first: int): seq<DerivedFrame> {
    seq(|frames|, i requires 0 <= i < |frames| => Emit(spec, Cropped(spec, frames[i].image), first + i))
  }

  /** What an interval feed does with a stream: it emits the captured
      frames, in order, numbered consecutively after its current number
      whatever their source numbers, and only its number changes. */
  predicate IntervalsAs(feed: Feed, frames: seq<RawFrame>)
    requires feed.policy.Interval? && feed.policy.cycleLength != 0
  {
    var c := Captured(feed.spec, feed.policy.cycleLength, feed.policy.captureFrames, frames);
    var n := feed.state.frameNumber;
    Run(feed, frames) == Ok((feed.(state := feed.state.(frameNumber := n + |c|)), Renumbered(feed.spec, c, n + 1)))
  }

  /** An interval feed with a non-zero cycle length takes in any stream as
      `IntervalsAs` describes. */
  lemma {:induction false} IntervalRun(feed: Feed, frames: seq<RawFrame>)
    requires feed.policy.Interval? && feed.policy.cycleLength != 0
    ensures IntervalsAs(feed, frames)
    decreases |frames|
  {
    if |frames| == 0 {
      assert Renumbered(feed.spec, [], feed.state.frameNumber + 1) == [];
    } else if frames[0].camera == feed.spec.cameraName &&
              PyMod(frames[0].number, feed.policy.cycleLength) in feed.policy.captureFrames {
      IntervalRun(feed.(state := feed.state.(frameNumber := feed.state.frameNumber + 1)), frames[1..]);
      CaptureStep(feed, frames);
    } else {
      IntervalRun(feed, frames[1..]);
      SkipStep(feed, frames);
    }
  }

  lemma CaptureStep(feed: Feed, frames: seq<RawFrame>)
    requires feed.policy.Interval? && feed.policy.cycleLength != 0
    requires |frames| > 0 && frames[0].camera == feed.spec.cameraName
    requires PyMod(frames[0].number, feed.policy.cycleLength) in feed.policy.captureFrames
    requires IntervalsAs(feed.(state := feed.state.(frameNumber := feed.state.frameNumber + 1)), frames[1..])
    ensures IntervalsAs(feed, frames)
  {
    var spec := feed.spec;
    var n := feed.state.frameNumber;
    var c' := Captured(spec, feed.policy.cycleLength, feed.policy.captureFrames, frames[1..]);
    var next := feed.(state := feed.state.(frameNumber := n + 1));
    var out0 := [Emit(spec, Cropped(spec, frames[0].image), n + 1)];
    IntervalCapture(feed, frames[0]);
    RunStep(feed, frames, next, out0);
    RenumberedCons(spec, frames[0], c', n + 1);
  }

  /** A captured frame is passed on under the next number. */
  lemma IntervalCapture(feed: Feed, raw: RawFrame)
    requires feed.policy.Interval? && feed.policy.cycleLength != 0
    requires raw.camera == feed.spec.cameraName
    requires PyMod(raw.number, feed.policy.cycleLength) in feed.policy.captureFrames
    ensures Ingest(feed, raw) ==
      Ok((feed.(state := feed.state.(frameNumber := feed.state.frameNumber + 1)),
          [Emit(feed.spec, Cropped(feed.spec, raw.image), feed.state.frameNumber + 1)]))
  {
  }

  lemma RenumberedCons(spec: FeedSpec, f: RawFrame, rest: seq<RawFrame>, first: int)
    ensures Renumbered(spec, [f] + rest, first) == [Emit(spec, Cropped(spec, f.image), first)] + Renumbered(spec, rest, first + 1)
  {
  }

  lemma SkipStep(feed: Feed, frames: seq<RawFrame>)
    requires feed.policy.Interval? && feed.policy.cycleLength != 0
    requires |frames| > 0
    requires !(frames[0].camera == feed.spec.cameraName &&
               PyMod(frames[0].number, feed.policy.cycleLength) in feed.policy.captureFrames)
    requires IntervalsAs(feed, frames[1..])
    ensures IntervalsAs(feed, frames)
  {
    var c' := Captured(feed.spec, feed.policy.cycleLength, feed.policy.captureFrames, frames[1..]);
    var n := feed.state.frameNumber;
    assert Ingest(feed, frames[0]) == Ok((feed, []));
    RunStep(feed, frames, feed, []);
    assert [] + Renumbered(feed.spec, c', n + 1) == Renumbered(feed.spec, c', n + 1);
  }

  /** Six frames of the feed's camera numbered 0 to 5 into an interval feed
      with `cycle_length = 4` and `capture_frames = "0,2"`: frames 0, 2 and 4
      are passed on, renumbered 0, 1 and 2. */
  lemma IntervalExample(spec: FeedSpec, a: Image, b: Image, c: Image, d: Image, e: Image, f: Image)
    ensures var cam := spec.cameraName;
      var frames := [RawFrame(cam, 0, a), RawFrame(cam, 1, b), RawFrame(cam, 2, c),
                     RawFrame(cam, 3, d), RawFrame(cam, 4, e), RawFrame(cam, 5, f)];
      Run(Feed(spec, Interval(4, [0, 2]), Initial), frames) ==
        Ok((Feed(spec, Interval(4, [0, 2]), FeedState(2, None, 0)),
            [Emit(spec, Cropped(spec, a), 0), Emit(spec, Cropped(spec, c), 1), Emit(spec, Cropped(spec, e), 2)]))
  {
    var cam := spec.cameraName;
    var frames := [RawFrame(cam, 0, a), RawFrame(cam, 1, b), RawFrame(cam, 2, c),
                   RawFrame(cam, 3, d), RawFrame(cam, 4, e), RawFrame(cam, 5, f)];
    var feed := Feed(spec, Interval(4, [0, 2]), Initial);
    IntervalRun(feed, frames);
    CapturedExample(spec, frames);
    var out := Renumbered(spec, [frames[0], frames[2], frames[4]], 0);
    assert out == [out[0], out[1], out[2]];
  }

  lemma CapturedExample(spec: FeedSpec, frames: seq<RawFrame>)
    requires |frames| == 6
    requires forall t :: 0 <= t < 6 ==> frames[t].camera == spec.cameraName && frames[t].number == t
    ensures Captured(spec, 4, [0, 2], frames) == [frames[0], frames[2], frames[4]]
  {
    assert PyMod(0, 4) == 0 && PyMod(1, 4) == 1 && PyMod(2, 4) == 2;
    assert PyMod(3, 4) == 3 && PyMod(4, 4) == 0 && PyMod(5, 4) == 1;
    assert frames[5..][1..] == [];
    assert Captured(spec, 4, [0, 2], frames[5..]) == [];
    assert frames[4..][1..] == frames[5..];
    assert Captured(spec, 4, [0, 2], frames[4..]) == [frames[4]];
    assert frames[3..][1..] == frames[4..];
    assert Captured(spec, 4, [0, 2], frames[3..]) == [frames[4]];
    assert frames[2..][1..] == frames[3..];
    assert Captured(spec, 4, [0, 2], frames[2..]) == [frames[2], frames[4]];
    assert frames[1..][1..] == frames[2..];
    assert Captured(spec, 4, [0, 2], frames[1..]) == [frames[2], frames[4]];
  }

  /** The crops of the frames of the feed's camera, in stream order. */
  function CropsOf(spec: FeedSpec, frames: seq<RawFrame>): seq<Image>
    decreases |frames|
  {
    if |frames| == 0 then []
    else
      var rest := CropsOf(spec, frames[1..]);
      if frames[0].camera == spec.cameraName then [Cropped(spec, frames[0].image)] + rest else rest
  }

  /** The state of an averaging feed holding the crops `left` of an
      unfinished batch, with `number` the last number it emitted. */
  function Holding(number: int, left: seq<Image>, shape: Image): FeedState {
    FeedState(number, if |left| == 0 then None else Some(Sum(left, shape)), |left|)
  }

  /** The output an averaging feed is meant to produce from a run of crops:
      the floor mean of each consecutive whole batch of `k`, numbered from `first`. */
  function Batches(spec: FeedSpec, crops: seq<Image>, shape: Image, k: nat, first: int): seq<DerivedFrame>
    requires k >= 1
    decreases |crops|
  {
    if |crops| < k then []
    else [Emit(spec, Mean(crops[..k], shape, k), first)] + Batches(spec, crops[k..], shape, k, first + 1)
  }

  /** The crops after the last whole batch. */
  function Leftover(crops: seq<Image>, k: nat): seq<Image>
    requires k >= 1
    decreases |crops|
  {
    if |crops| < k then crops else Leftover(crops[k..], k)
  }

  /** `Batches` by index: there are `|crops| / k` outputs, and output `i` is
      the mean of crops `i*k` to `(i+1)*k - 1`, numbered `first + i`. */
  lemma BatchesIndex(spec: FeedSpec, crops: seq<Image>, shape: Image, k: nat, first: int)
    requires k >= 1
    ensures |Batches(spec, crops, shape, k, first)| == |crops| / k
    ensures forall i :: 0 <= i < |crops| / k ==>
      (i + 1) * k <= |crops| &&
      Batches(spec, crops, shape, k, first)[i] == Emit(spec, Mean(crops[i * k..(i + 1) * k], shape, k), first + i)
  {
    BatchCount(spec, crops, shape, k, first);
    forall i | 0 <= i < |crops| / k {
      BatchInside(spec, crops, shape, k, first, i);
    }
  }

  lemma BatchInside(spec: FeedSpec, crops: seq<Image>, shape: Image, k: nat, first: int, i: nat)
    requires k >= 1 && i < |crops| / k
    ensures (i + 1) * k <= |crops| && i < |Batches(spec, crops, shape, k, first)|
    ensures Batches(spec, crops, shape, k, first)[i] == Emit(spec, Mean(crops[i * k..(i + 1) * k], shape, k), first + i)
  {
    DivBounds(|crops|, k);
    MulLe(i + 1, |crops| / k, k);
    BatchAt(spec, crops, shape, k, first, i);
  }

  /** The number of whole batches, and the leftover is what follows the last of them. */
  lemma {:induction false} BatchCount(spec: FeedSpec, crops: seq<Image>, shape: Image, k: nat, first: int)
    requires k >= 1
    ensures |Batches(spec, crops, shape, k, first)| == |crops| / k
    ensures |crops| / k * k <= |crops| && Leftover(crops, k) == crops[|crops| / k * k..]
    decreases |crops|
  {
    var n := |crops|;
    if n < k {
      DivUnique(n, k, 0);
    } else {
      var rest := crops[k..];
      BatchCount(spec, rest, shape, k, first + 1);
      assert |Batches(spec, crops, shape, k, first)| == 1 + |Batches(spec, rest, shape, k, first + 1)|;
      assert Leftover(crops, k) == Leftover(rest, k);
      DivStep(n, k);
      var j := |rest| / k * k;
      assert n / k * k == k + j;
      assert crops[k + j..] == rest[j..];
    }
  }

  lemma {:induction false} BatchAt(spec: FeedSpec, crops: seq<Image>, shape: Image, k: nat, first: int, i: nat)
    requires k >= 1 && (i + 1) * k <= |crops|
    ensures i < |Batches(spec, crops, shape, k, first)|
    ensures Batches(spec, crops, shape, k, first)[i] == Emit(spec, Mean(crops[i * k..(i + 1) * k], shape, k), first + i)
    decreases i
  {
    if i == 0 {
      assert crops[0..k] == crops[..k];
    } else {
      var rest := crops[k..];
      assert (i + 1) * k == i * k + k;
      assert i * k == (i - 1) * k + k;
      BatchAt(spec, rest, shape, k, first + 1, i - 1);
      assert crops[i * k..(i + 1) * k] == rest[(i - 1) * k..i * k];
    }
  }

  lemma MulLe(a: nat, b: nat, c: nat)
    requires a <= b
    ensures a * c <= b * c
  {
    assert b * c == a * c + (b - a) * c;
  }

  /** One frame of the feed's camera into an averaging feed with batch size
      `k` that holds `hist`: the `k`-th crop of a batch emits the floor mean of
      the batch and empties the feed; any other crop is only added to the
      running sum. */
  lemma AverageStep(feed: Feed, hist: seq<Image>, raw: RawFrame, shape: Image)
    requires feed.policy.Average? && 1 <= feed.policy.framesToAverage <= U16 + 1
    requires feed.state == Holding(feed.state.frameNumber, hist, shape) && |hist| < feed.policy.framesToAverage
    requires Uniform(hist, shape) && AllBelow(hist, U16)
    requires raw.camera == feed.spec.cameraName
    requires SameShape(Cropped(feed.spec, raw.image), shape) && Below(Cropped(feed.spec, raw.image), U16)
    ensures var k := feed.policy.framesToAverage;
      var c := Cropped(feed.spec, raw.image);
      var n := feed.state.frameNumber;
      Ingest(feed, raw) ==
        if |hist| + 1 == k then
          Ok((feed.(state := Holding(n + 1, [], shape)), [Emit(feed.spec, Mean(hist + [c], shape, k), n + 1)]))
        else
          Ok((feed.(state := Holding(n, hist + [c], shape)), []))
  {
    var k := feed.policy.framesToAverage;
    var c := Cropped(feed.spec, raw.image);
    if |hist| == 0 {
      WidenIsSum(c, shape);
      assert hist + [c] == [c];
    } else {
      AddWrapIsSum(hist, c, shape);
    }
    assert Accumulate(feed, Some(c)) == Ok((Some(Sum(hist + [c], shape)), |hist| + 1));
    if |hist| + 1 == k {
      assert AllBelow(hist + [c], U16);
      DivideIsMean(hist + [c], shape, k);
    }
  }

  /** What an averaging feed holding `hist` does with a stream: it emits the
      batch means of `hist` followed by the crops of its camera, numbered on
      from its current number, and is left holding the crops after the last
      whole batch. */
  predicate AveragesAs(feed: Feed, hist: seq<Image>, frames: seq<RawFrame>, shape: Image)
    requires feed.policy.Average? && feed.policy.framesToAverage >= 1
  {
    var k := feed.policy.framesToAverage;
    var all := hist + CropsOf(feed.spec, frames);
    var out := Batches(feed.spec, all, shape, k, feed.state.frameNumber + 1);
    Run(feed, frames) == Ok((feed.(state := Holding(feed.state.frameNumber + |out|, Leftover(all, k), shape)), out))
  }

  /** An averaging feed holding `hist` takes in a stream of frames whose
      crops have one shape and `uint16` samples: its outputs and final state
      are those `AveragesAs` describes. */
  lemma {:induction false} AverageRunFrom(feed: Feed, hist: seq<Image>, frames: seq<RawFrame>, shape: Image)
    requires feed.policy.Average? && 1 <= feed.policy.framesToAverage <= U16 + 1
    requires feed.state == Holding(feed.state.frameNumber, hist, shape) && |hist| < feed.policy.framesToAverage
    requires Uniform(hist, shape) && AllBelow(hist, U16)
    requires Uniform(CropsOf(feed.spec, frames), shape) && AllBelow(CropsOf(feed.spec, frames), U16)
    ensures AveragesAs(feed, hist, frames, shape)
    decreases |frames|
  {
    var k := feed.policy.framesToAverage;
    var n := feed.state.frameNumber;
    if |frames| == 0 {
      assert hist + CropsOf(feed.spec, frames) == hist;
    } else {
      var raw := frames[0];
      if raw.camera != feed.spec.cameraName {
        assert CropsOf(feed.spec, frames) == CropsOf(feed.spec, frames[1..]);
        AverageRunFrom(feed, hist, frames[1..], shape);
        ForeignStep(feed, hist, frames, shape);
      } else {
        var c := Cropped(feed.spec, raw.image);
        CropsOfHead(feed.spec, frames, shape);
        AverageStep(feed, hist, raw, shape);
        if |hist| + 1 == k {
          AverageRunFrom(feed.(state := Holding(n + 1, [], shape)), [], frames[1..], shape);
          CloseStep(feed, hist, frames, shape);
        } else {
          assert AllBelow(hist + [c], U16) && Uniform(hist + [c], shape);
          AverageRunFrom(feed.(state := Holding(n, hist + [c], shape)), hist + [c], frames[1..], shape);
          AddStep(feed, hist, frames, shape);
        }
      }
    }
  }

  /** The crops of a stream that starts with a frame of the feed's camera. */
  lemma CropsOfHead(spec: FeedSpec, frames: seq<RawFrame>, shape: Image)
    requires |frames| > 0 && frames[0].camera == spec.cameraName
    requires Uniform(CropsOf(spec, frames), shape) && AllBelow(CropsOf(spec, frames), U16)
    ensures CropsOf(spec, frames) == [Cropped(spec, frames[0].image)] + CropsOf(spec, frames[1..])
    ensures SameShape(Cropped(spec, frames[0].image), shape) && Below(Cropped(spec, frames[0].image), U16)
    ensures Uniform(CropsOf(spec, frames[1..]), shape) && AllBelow(CropsOf(spec, frames[1..]), U16)
  {
    var cs := CropsOf(spec, frames);
    var cs' := CropsOf(spec, frames[1..]);
    assert cs[0] == Cropped(spec, frames[0].image);
    assert forall t :: 0 <= t < |cs'| ==> cs'[t] == cs[t + 1];
  }

  /** `Run` of a non-empty stream is the first step followed by the rest. */
  lemma RunStep(feed: Feed, frames: seq<RawFrame>, next: Feed, out0: seq<DerivedFrame>)
    requires |frames| > 0 && Ingest(feed, frames[0]) == Ok((next, out0))
    ensures Run(next, frames[1..]).Ok? ==>
      Run(feed, frames) == Ok((Run(next, frames[1..]).value.0, out0 + Run(next, frames[1..]).value.1))
  {
  }

  lemma ForeignStep(feed: Feed, hist: seq<Image>, frames: seq<RawFrame>, shape: Image)
    requires feed.policy.Average? && feed.policy.framesToAverage >= 1 && Valid(feed)
    requires |frames| > 0 && frames[0].camera != feed.spec.cameraName
    requires AveragesAs(feed, hist, frames[1..], shape)
    ensures AveragesAs(feed, hist, frames, shape)
  {
    ForeignFrameIgnored(feed, frames[0]);
    RunStep(feed, frames, feed, []);
    assert CropsOf(feed.spec, frames) == CropsOf(feed.spec, frames[1..]);
    assert [] + Run(feed, frames[1..]).value.1 == Run(feed, frames[1..]).value.1;
  }

  lemma CloseStep(feed: Feed, hist: seq<Image>, frames: seq<RawFrame>, shape: Image)
    requires feed.policy.Average? && |hist| + 1 == feed.policy.framesToAverage
    requires |frames| > 0 && frames[0].camera == feed.spec.cameraName
    requires var c := Cropped(feed.spec, frames[0].image);
      var n := feed.state.frameNumber;
      Ingest(feed, frames[0]) ==
        Ok((feed.(state := Holding(n + 1, [], shape)),
            [Emit(feed.spec, Mean(hist + [c], shape, feed.policy.framesToAverage), n + 1)]))
    requires AveragesAs(feed.(state := Holding(feed.state.frameNumber + 1, [], shape)), [], frames[1..], shape)
    ensures AveragesAs(feed, hist, frames, shape)
  {
    var k := feed.policy.framesToAverage;
    var n := feed.state.frameNumber;
    var c := Cropped(feed.spec, frames[0].image);
    var next := feed.(state := Holding(n + 1, [], shape));
    var cs' := CropsOf(feed.spec, frames[1..]);
    var all := hist + CropsOf(feed.spec, frames);
    RunStep(feed, frames, next, [Emit(feed.spec, Mean(hist + [c], shape, k), n + 1)]);
    assert CropsOf(feed.spec, frames) == [c] + cs';
    assert all[..k] == hist + [c] && all[k..] == cs';
    assert [] + cs' == cs';
  }

  lemma AddStep(feed: Feed, hist: seq<Image>, frames: seq<RawFrame>, shape: Image)
    requires feed.policy.Average? && |hist| + 1 < feed.policy.framesToAverage
    requires |frames| > 0 && frames[0].camera == feed.spec.cameraName
    requires var c := Cropped(feed.spec, frames[0].image);
      Ingest(feed, frames[0]) == Ok((feed.(state := Holding(feed.state.frameNumber, hist + [c], shape)), []))
    requires var c := Cropped(feed.spec, frames[0].image);
      AveragesAs(feed.(state := Holding(feed.state.frameNumber, hist + [c], shape)), hist + [c], frames[1..], shape)
    ensures AveragesAs(feed, hist, frames, shape)
  {
    var c := Cropped(feed.spec, frames[0].image);
    var next := feed.(state := Holding(feed.state.frameNumber, hist + [c], shape));
    RunStep(feed, frames, next, []);
    assert CropsOf(feed.spec, frames) == [c] + CropsOf(feed.spec, frames[1..]);
    assert hist + CropsOf(feed.spec, frames) == (hist + [c]) + CropsOf(feed.spec, frames[1..]);
    assert [] + Run(next, frames[1..]).value.1 == Run(next, frames[1..]).value.1;
  }

  /** After `reset()`, an averaging feed forgets any partial batch: the crops
      of its camera that follow are averaged in batches of `k` from the first
      one, and the outputs are numbered 0, 1, 2, ... */
  lemma AverageAfterReset(feed: Feed, frames: seq<RawFrame>, rawShape: Image)
    requires feed.policy.Average? && 1 <= feed.policy.framesToAverage <= U16 + 1
    requires forall t :: 0 <= t < |frames| ==> SameShape(frames[t].image, rawShape) && Below(frames[t].image, U16)
    ensures var k := feed.policy.framesToAverage;
      var cs := CropsOf(feed.spec, frames);
      var out := Batches(feed.spec, cs, Cropped(feed.spec, rawShape), k, 0);
      Run(Reset(feed), frames) ==
        Ok((feed.(state := Holding(|out| - 1, Leftover(cs, k), Cropped(feed.spec, rawShape))), out))
  {
    var shape := Cropped(feed.spec, rawShape);
    CropsOfShape(feed.spec, frames, rawShape);
    AverageRunFrom(Reset(feed), [], frames, shape);
    assert [] + CropsOf(feed.spec, frames) == CropsOf(feed.spec, frames);
  }

  /** Crops of equally shaped camera samples are equally shaped and stay below `U16`. */
  lemma {:induction false} CropsOfShape(spec: FeedSpec, frames: seq<RawFrame>, rawShape: Image)
    requires forall t :: 0 <= t < |frames| ==> SameShape(frames[t].image, rawShape) && Below(frames[t].image, U16)
    ensures Uniform(CropsOf(spec, frames), Cropped(spec, rawShape)) && AllBelow(CropsOf(spec, frames), U16)
    decreases |frames|
  {
    if |frames| > 0 {
      CropsOfShape(spec, frames[1..], rawShape);
      CroppedShape(spec, frames[0].image, rawShape);
    }
  }

  lemma CroppedShape(spec: FeedSpec, img: Image, rawShape: Image)
    requires SameShape(img, rawShape) && Below(img, U16)
    ensures SameShape(Cropped(spec, img), Cropped(spec, rawShape)) && Below(Cropped(spec, img), U16)
  {
    if spec.frameSlice.Some? {
      CropSameShape(img, rawShape, spec.frameSlice.value);
      CropBelow(img, spec.frameSlice.value, U16);
    }
  }
}
