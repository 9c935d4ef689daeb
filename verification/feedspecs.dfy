/** Construction of one feed (`FeedNC.__init__`): the crop window with its
    defaults, the derived pixel counts and frame size, the multiple-of-4 check
    on the width and the feed-information record handed to the display and
    film-saving modules. */
module FeedSpecs {
  import opened Results
  import opened PyOps
  import opened Images

  /** The camera parameters a feed reads. */
  datatype CameraParams = CameraParams(
    xPixels: int,
    yPixels: int,
    defaultMax: int,
    defaultMin: int,
    maxIntensity: int,
    flipHorizontal: bool,
    flipVertical: bool,
    transpose: bool)

  /** One entry of the `feeds` parameter block; `None` is an absent key. */
  datatype FeedParams = FeedParams(
    source: string,
    feedType: string,
    xStart: Option<int>,
    xEnd: Option<int>,
    yStart: Option<int>,
    yEnd: Option<int>,
    colortable: Option<string>,
    defaultMax: Option<int>,
    defaultMin: Option<int>,
    maxIntensity: Option<int>,
    save: Option<bool>,
    framesToAverage: Option<int>,
    captureFrames: Option<string>,
    cycleLength: Option<int>)

  /** The `feed_info` dictionary of a feed. */
  datatype FeedInfo = FeedInfo(
    bytesPerFrame: int,
    colortable: string,
    defaultMax: int,
    defaultMin: int,
    extension: string,
    feedName: string,
    flipHorizontal: bool,
    flipVertical: bool,
    isCamera: bool,
    isMaster: bool,
    isSaved: bool,
    maxIntensity: int,
    transpose: bool,
    xPixels: int,
    yPixels: int)

  /** What a built feed keeps: its camera, its full name, the slice to apply
      to each camera frame (`None` when the frame is passed through) and its
      size. */
  datatype FeedSpec = FeedSpec(
    cameraName: string,
    feedName: string,
    frameSlice: Option<Window>,
    xPixels: int,
    yPixels: int,
    info: FeedInfo)

  /** The exceptions feed construction and frame processing can raise. */
  datatype FeedError =
    | XSizeNotMultipleOf4(xPixels: int, feed: string)  // FeedException, line 251
    | UnknownFeedType(feedType: string, feed: string)  // FeedException, line 458
    | LastFilmUndefined(feed: string)                  // NameError: FeedLastFilm exists only in a string
    | MissingCamera(camera: string)                    // the `source` names no camera parameters
    | MissingParameter(name: string, feed: string)     // a type-specific parameter is absent
    | BadCaptureFrames(text: string, feed: string)     // ValueError from int() on capture_frames
    | ZeroCycleLength(feed: string)                    // ZeroDivisionError from % cycle_length
    | ShapeMismatch(feed: string)                      // numpy cannot add the slice to the running sum
    | AverageOfNothing(feed: string)                   // TypeError: None / frames_to_average

  /** `camera_name + "-" + feed_name`. */
  function FeedId(camera: string, feed: string): string {
    camera + "-" + feed
  }

  /** The crop bounds, 1-based and inclusive, with absent ones defaulted to
      the whole camera frame. */
  datatype Bounds = Bounds(xStart: int, xEnd: int, yStart: int, yEnd: int)

  function CropBounds(cam: CameraParams, fp: FeedParams): Bounds {
    Bounds(
      match fp.xStart case Some(v) => v case None => 1,
      match fp.xEnd case Some(v) => v case None => cam.xPixels,
      match fp.yStart case Some(v) => v case None => 1,
      match fp.yEnd case Some(v) => v case None => cam.yPixels)
  }

  /** The zero-based slice `(slice(y_start-1, y_end), slice(x_start-1, x_end))`. */
  function WindowOf(b: Bounds): Window {
    Window(b.yStart - 1, b.yEnd, b.xStart - 1, b.xEnd)
  }

  /** The "do we need to slice" test of line 241 as written: its last term
      compares `y_start`, not `y_end`, with the camera height. */
  predicate NeedsSliceAsWritten(cam: CameraParams, b: Bounds) {
    b.xStart != 1 || b.xEnd != cam.xPixels || b.yStart != 1 || b.yStart != cam.yPixels
  }

  /** The test line 241 evidently intends: slice unless the window is the whole frame. */
  predicate NeedsSliceCorrected(cam: CameraParams, b: Bounds) {
    b.xStart != 1 || b.xEnd != cam.xPixels || b.yStart != 1 || b.yEnd != cam.yPixels
  }

  /** `FeedNC.__init__`: builds the feed or raises when the width is not a multiple of 4. */
  function BuildSpec(cameraName: string, cam: CameraParams, feedName: string, fp: FeedParams)
    : (r: Result<FeedSpec, FeedError>)
    ensures var b := CropBounds(cam, fp);
      r.Ok? <==> (b.xEnd - b.xStart + 1) % 4 == 0
    ensures var b := CropBounds(cam, fp);
      r.Err? ==> r.error == XSizeNotMultipleOf4(b.xEnd - b.xStart + 1, feedName)
    ensures r.Ok? ==> r.value.xPixels % 4 == 0
    ensures var b := CropBounds(cam, fp);
      r.Ok? ==> r.value.xPixels == b.xEnd - b.xStart + 1 && r.value.yPixels == b.yEnd - b.yStart + 1
    ensures var b := CropBounds(cam, fp);
      r.Ok? ==> r.value.frameSlice == if NeedsSliceAsWritten(cam, b) then Some(WindowOf(b)) else None
    ensures r.Ok? ==> r.value.cameraName == cameraName
    ensures r.Ok? ==> r.value.feedName == FeedId(cameraName, feedName) == r.value.info.feedName
    ensures r.Ok? ==> r.value.info.bytesPerFrame == 2 * r.value.xPixels * r.value.yPixels
    ensures r.Ok? ==> r.value.info.xPixels == r.value.xPixels && r.value.info.yPixels == r.value.yPixels
    ensures r.Ok? ==> !r.value.info.isCamera && !r.value.info.isMaster
    // Display and saving settings: the feed's own value when given, else the default.
    ensures r.Ok? ==> r.value.info.colortable == (if fp.colortable.Some? then fp.colortable.value else "none")
    ensures r.Ok? ==> r.value.info.isSaved == (fp.save.None? || fp.save.value)
    ensures r.Ok? ==> r.value.info.defaultMax == (if fp.defaultMax.Some? then fp.defaultMax.value else cam.defaultMax)
    ensures r.Ok? ==> r.value.info.defaultMin == (if fp.defaultMin.Some? then fp.defaultMin.value else cam.defaultMin)
    ensures r.Ok? ==>
      r.value.info.maxIntensity == (if fp.maxIntensity.Some? then fp.maxIntensity.value else cam.maxIntensity)
    // The file extension is the bare feed name, without the camera prefix.
    ensures r.Ok? ==> r.value.info.extension == feedName
    // The orientation is the camera's: a feed cannot flip or transpose on its own.
    ensures r.Ok? ==>
      && r.value.info.flipHorizontal == cam.flipHorizontal
      && r.value.info.flipVertical == cam.flipVertical
      && r.value.info.transpose == cam.transpose
  {
    var b := CropBounds(cam, fp);
    var frameSlice := if NeedsSliceAsWritten(cam, b) then Some(WindowOf(b)) else None;
    var xPixels := b.xEnd - b.xStart + 1;
    var yPixels := b.yEnd - b.yStart + 1;
    if xPixels % 4 != 0 then
      Err(XSizeNotMultipleOf4(xPixels, feedName))
    else
      var id := FeedId(cameraName, feedName);
      var info := InfoFor(cam, fp, feedName, id, xPixels, yPixels);
      Ok(FeedSpec(cameraName, id, frameSlice, xPixels, yPixels, info))
  }

  /** The `feed_info` record of a built feed: sizes, names and flags it is
      given, the display and saving settings the feed may override (else the
      camera's or a fixed default), and the camera's orientation. */
  function InfoFor(cam: CameraParams, fp: FeedParams, feedName: string, id: string, xPixels: int, yPixels: int)
    : (info: FeedInfo)
    ensures info.bytesPerFrame == 2 * xPixels * yPixels
    ensures info.xPixels == xPixels && info.yPixels == yPixels
    ensures info.feedName == id && info.extension == feedName
    ensures !info.isCamera && !info.isMaster
    ensures info.colortable == (if fp.colortable.Some? then fp.colortable.value else "none")
    ensures info.isSaved == (fp.save.None? || fp.save.value)
    ensures info.defaultMax == (if fp.defaultMax.Some? then fp.defaultMax.value else cam.defaultMax)
    ensures info.defaultMin == (if fp.defaultMin.Some? then fp.defaultMin.value else cam.defaultMin)
    ensures info.maxIntensity == (if fp.maxIntensity.Some? then fp.maxIntensity.value else cam.maxIntensity)
    ensures info.flipHorizontal == cam.flipHorizontal && info.flipVertical == cam.flipVertical
    ensures info.transpose == cam.transpose
  {
    FeedInfo(
      bytesPerFrame := 2 * xPixels * yPixels,
      colortable := match fp.colortable case Some(v) => v case None => "none",
      defaultMax := match fp.defaultMax case Some(v) => v case None => cam.defaultMax,
      defaultMin := match fp.defaultMin case Some(v) => v case None => cam.defaultMin,
      extension := feedName,
      feedName := id,
      flipHorizontal := cam.flipHorizontal,
      flipVertical := cam.flipVertical,
      isCamera := false,
      isMaster := false,
      isSaved := match fp.save case Some(v) => v case None => true,
      maxIntensity := match fp.maxIntensity case Some(v) => v case None => cam.maxIntensity,
      transpose := cam.transpose,
      xPixels := xPixels,
      yPixels := yPixels)
  }

  /** The data `sliceFrame` hands on for a frame of the feed's own camera. */
  function Cropped(spec: FeedSpec, img: Image): Image {
    match spec.frameSlice
    case None => img
    case Some(w) => Crop(img, w)
  }

  /** For a camera frame and a non-empty crop window inside it, the data a feed passes
      on is exactly the window, `x_pixels` wide and `y_pixels` high, and the
      declared frame size is two bytes per sample of it. */
  lemma DeclaredSizeMatchesCrop(cameraName: string, cam: CameraParams, feedName: string,
                                fp: FeedParams, spec: FeedSpec, img: Image)
    requires BuildSpec(cameraName, cam, feedName, fp) == Ok(spec)
    requires cam.xPixels >= 0 && cam.yPixels >= 0
    requires Rectangular(img, cam.xPixels, cam.yPixels)
    requires var b := CropBounds(cam, fp);
      1 <= b.xStart <= b.xEnd <= cam.xPixels && 1 <= b.yStart <= b.yEnd <= cam.yPixels
    ensures Rectangular(Cropped(spec, img), spec.xPixels, spec.yPixels)
    ensures spec.info.bytesPerFrame == 2 * |Cropped(spec, img)| * spec.xPixels
    ensures var b := CropBounds(cam, fp);
      forall i, j :: 0 <= i < spec.yPixels && 0 <= j < spec.xPixels ==>
        Cropped(spec, img)[i][j] == img[b.yStart - 1 + i][b.xStart - 1 + j]
  {
    var b := CropBounds(cam, fp);
    var w := WindowOf(b);
    assert spec.xPixels == w.colStop - w.colStart && spec.yPixels == w.rowStop - w.rowStart;
    CropInRange(img, w, cam.xPixels, cam.yPixels);
    if spec.frameSlice.None? {
      assert w == Window(0, cam.yPixels, 0, cam.xPixels);
      CropWhole(img, cam.xPixels, cam.yPixels);
    }
    assert Cropped(spec, img) == Crop(img, w);
  }

  /** Counterexample for line 241: a one-row camera and a feed with
      `y_end = 0`. The window is empty, yet the as-written test skips the
      slice and the feed passes the whole row on while declaring zero rows. */
  lemma SkippedSliceKeepsRows()
    ensures var cam := CameraParams(4, 1, 100, 0, 100, false, false, false);
      var fp := FeedParams("camera1", "slice", None, None, None, Some(0),
                           None, None, None, None, None, None, None, None);
      var img: Image := [[1, 2, 3, 4]];
      var spec := BuildSpec("camera1", cam, "f", fp);
      && spec.Ok?
      && !NeedsSliceAsWritten(cam, CropBounds(cam, fp))
      && NeedsSliceCorrected(cam, CropBounds(cam, fp))
      && spec.value.yPixels == 0
      && Cropped(spec.value, img) == img
      && Crop(img, WindowOf(CropBounds(cam, fp))) == []
  {
  }

  /** The other face of line 241: with `y_start` left at its default, every
      feed of a camera whose height is not 1 is sliced, even a feed that
      covers the whole frame and that the corrected test passes through. */
  lemma AsWrittenSlicesTallCameras(cameraName: string, cam: CameraParams, feedName: string, fp: FeedParams)
    requires fp.yStart.None? && cam.yPixels != 1
    requires BuildSpec(cameraName, cam, feedName, fp).Ok?
    ensures BuildSpec(cameraName, cam, feedName, fp).value.frameSlice.Some?
    ensures fp.xStart.None? && fp.xEnd.None? && fp.yEnd.None? ==> !NeedsSliceCorrected(cam, CropBounds(cam, fp))
  {
  }

  /** With the corrected test, skipping the slice never changes the data: a
      feed that is not sliced covers the whole camera frame. */
  lemma SkippedSliceCorrectedIsWhole(cam: CameraParams, b: Bounds, img: Image)
    requires cam.xPixels >= 0 && cam.yPixels >= 0
    requires Rectangular(img, cam.xPixels, cam.yPixels)
    requires !NeedsSliceCorrected(cam, b)
    ensures Crop(img, WindowOf(b)) == img
  {
    CropWhole(img, cam.xPixels, cam.yPixels);
  }

  /** The as-written test only matters when `y_end < 1`: otherwise the data a
      feed passes on is the crop of its window, as the corrected test gives. */
  lemma AsWrittenSliceAgrees(cameraName: string, cam: CameraParams, feedName: string,
                             fp: FeedParams, img: Image)
    requires BuildSpec(cameraName, cam, feedName, fp).Ok?
    requires cam.xPixels >= 0 && cam.yPixels >= 0
    requires Rectangular(img, cam.xPixels, cam.yPixels)
    requires CropBounds(cam, fp).yEnd >= 1
    ensures Cropped(BuildSpec(cameraName, cam, feedName, fp).value, img)
         == Crop(img, WindowOf(CropBounds(cam, fp)))
  {
    var spec := BuildSpec(cameraName, cam, feedName, fp).value;
    var b := CropBounds(cam, fp);
    if spec.frameSlice.None? {
      // Unsliced means a full-width window on a one-row camera starting at row 1.
      assert cam.yPixels == 1 && b.yStart == 1;
      var w := WindowOf(b);
      var r := Crop(img, w);
      assert PySlice(img, w.rowStart, w.rowStop) == img;
      forall i | 0 <= i < |r|
        ensures r[i] == img[i]
      {
        PySliceInRange(img[i], 0, cam.xPixels);
      }
    }
  }
}
