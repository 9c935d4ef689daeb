# Camera feeds of HAL-4000, modelled in Dafny

HAL-4000 is the acquisition program of the storm-control microscopy suite.
Its feeds module (`storm_control/hal4000/feeds/feeds.py`) derives secondary
image streams, called *feeds*, from the frames the cameras produce. Each
feed is configured in the `feeds` parameter block and names a source camera,
a type and an optional crop window. There are three types:

- a **slice** feed passes every frame of its camera on, cropped to the window;
- an **average** feed emits one frame per `frames_to_average` frames: the
  `uint16` cast of the `uint32` running sum divided by the batch size;
- an **interval** feed passes on the frames whose number, taken modulo
  `cycle_length`, is in the comma-separated list `capture_frames`. It
  renumbers the frames it emits consecutively.

The `FeedController` builds the feeds from the parameters. It fans every
camera frame out to them in configuration order, resets them and reports
their feed-information records. A small helper splits a feed identifier
`camera-feed` back into its parts. `CameraFeedInfo` supplies the coordinate
transforms between chip, display and frame coordinates.

The model is pure functions over immutable datatypes:

| module | models |
|---|---|
| `Results` | `Option` and `Result`; a raised exception is `Err` |
| `PyOps` | Python's floored `%`, `int(a / b)` and slice clamping |
| `Text` | `str.split`, `str.join` and `int()` on the `capture_frames` text |
| `Images` | images as rows of samples; numpy 2-D slicing, the wrapping `uint32` accumulator and the `uint16` cast |
| `Geometry` | the `CameraFeedInfo` coordinate helpers |
| `FeedSpecs` | `FeedNC.__init__`: the crop window, sizes, the multiple-of-4 check and the `feed_info` record |
| `Processors` | `newFrame` and `reset` of the three feed types as one state machine, plus whole-stream behaviour |
| `FeedNames` | `getCameraFeedName` |
| `Controller` | `FeedController`: construction, `newFrame`, `resetFeeds`, `getFeedsInfo`, `haveFeeds` |

Every operation is stated against a partner:

- the display transforms against their inverses, and the as-written
  frame transform against the corrected one;
- splitting and parsing against joining and printing;
- a feed's `newFrame` over a whole stream against a reference description
  of what the feed type is meant to output;
- the controller against the per-feed steps it combines.

Two places keep the code as written, and each has a corrected definition
beside it (see Findings):

- the line-241 slice test;
- the line-188 coordinate transform.

The controller builds feeds with the line-241 test as written, because that
is what the program does. `FeedSpecs.AsWrittenSliceAgrees` shows this gives
the same data as the corrected test whenever `y_end >= 1`.

Points where the model departs from the code's literal text, or where the
code has a problem that is not claimed as a finding:

- **Indentation in `getFrameSize`.** At feeds.py:146-150, the `if` of line 147
  is indented one column less than the `else:` of line 149, so Python's parser
  would reject the module. The model takes the evident meaning: a swapped
  pair when `transpose` is set.
- **Bin factor in `frameZeroZero`/`frameCenter`.** Both multiply
  `feed_x_start` by the bin factor (feeds.py:156-157 and 164-165).
  `transformChipToFrame` subtracts it unmultiplied (feeds.py:187-188). Which
  one is intended cannot be settled from this file, so the model keeps each
  as written.
- **A missing source camera** is reported as `MissingCamera` before the type
  is examined. The camera's parameters are looked up (feeds.py:444) before
  the class is chosen. The parameter library that does the lookup is not part
  of this model.

## Model

| member | source | states |
|---|---|---|
| Text.Split | storm_control/hal4000/feeds/feeds.py:336 | `s.split(",")` gives at least one piece, and no piece contains the separator |
| Text.JoinSplit | storm_control/hal4000/feeds/feeds.py:336 | joining the pieces of a split with the separator gives back the original string, so splitting loses no character |
| Text.SplitJoin | storm_control/hal4000/feeds/feeds.py:336 | splitting a join of separator-free pieces gives back the same pieces |
| Text.ParseInt | storm_control/hal4000/feeds/feeds.py:336 | `int()` of a piece: a blank piece is rejected; an accepted piece is, after stripping whitespace, an optional sign followed by digits only; a negative value comes from a leading `-` |
| Text.ParseIntAccepts | storm_control/hal4000/feeds/feeds.py:336 | `int()` accepts `" 7\n"`, `"-12"` and `"+3"`, giving 7, -12 and 3 |
| Text.ParseIntRejects | storm_control/hal4000/feeds/feeds.py:336 | `int()` rejects `""`, `" "`, `"+"` and `"1.5"` (the `ValueError` case) |
| Text.ParseShowInt | storm_control/hal4000/feeds/feeds.py:336 | `int(str(i)) == i` for every integer, negative ones included |
| Text.ParseAll | storm_control/hal4000/feeds/feeds.py:336 | `list(map(int, pieces))` succeeds exactly when every piece is an integer literal; it then has one value per piece, each the parse of its piece |
| Text.ParseShowIntList | storm_control/hal4000/feeds/feeds.py:335-336 | any non-empty list of integers written comma-separated is read back by the `capture_frames` parse as the same list |
| PyOps.PyMod | storm_control/hal4000/feeds/feeds.py:342 | Python's `%`: the remainder lies between 0 and the divisor, on the divisor's side (negative divisors included), and differs from the dividend by a multiple of the divisor |
| PyOps.TruncDiv | storm_control/hal4000/feeds/feeds.py:189-190 | `int(a / b)`: the magnitude is the floor of the magnitudes' quotient, and the sign is the product of the operands' signs (zero when `|a| < |b|`) |
| PyOps.PySlice | storm_control/hal4000/feeds/feeds.py:284 | `s[start:stop]` with negative and out-of-range bounds clamped as Python does: length and every element given in terms of the clamped bounds |
| PyOps.PySliceInRange | storm_control/hal4000/feeds/feeds.py:284 | with bounds inside the sequence, a Python slice is the plain subsequence |
| Images.Crop | storm_control/hal4000/feeds/feeds.py:284-285 | `array[rows, cols]` keeps the clamped row slice, and each row is the column slice of the matching source row |
| Images.CropInRange | storm_control/hal4000/feeds/feeds.py:284-285 | an in-range window of a rectangular image is the sub-rectangle of the window's size, and its `(i, j)` is the image's `(rowStart+i, colStart+j)` |
| Images.CropWhole | storm_control/hal4000/feeds/feeds.py:279-285 | slicing the whole extent returns the image unchanged, so skipping the slice for a whole-frame feed is harmless |
| Images.CropBelow | storm_control/hal4000/feeds/feeds.py:284 | cropping introduces no sample that was not already in the image |
| Images.Widen | storm_control/hal4000/feeds/feeds.py:304 | `astype(numpy.uint32)` keeps the image's shape (its values are `Images.WidenIsSum`) |
| Images.AddWrap | storm_control/hal4000/feeds/feeds.py:306 | the in-place `uint32` add keeps the accumulator's shape (its values are `Images.AddWrapIsSum`) |
| Images.DivideToU16 | storm_control/hal4000/feeds/feeds.py:310-314 | `(sum / k).astype(numpy.uint16)` keeps the shape (its values are `Images.DivideIsMean`) |
| Images.PixelSumBound | storm_control/hal4000/feeds/feeds.py:302-307 | summing one pixel of `n` `uint16` frames gives at most `n * 65535` |
| Images.WidenIsSum | storm_control/hal4000/feeds/feeds.py:303-304 | the first frame converted to `uint32` is the exact sum of the one-frame batch |
| Images.AddWrapIsSum | storm_control/hal4000/feeds/feeds.py:302-307 | while a batch has at most 65537 `uint16` frames, the wrapping `uint32` accumulator equals the exact per-pixel sum |
| Images.DivideIsMean | storm_control/hal4000/feeds/feeds.py:309-314 | dividing the exact sum of `k` `uint16` frames by `k` and casting to `uint16` gives the per-pixel floor mean, with no wrap-around |
| Geometry.ChipToDisplay | storm_control/hal4000/feeds/feeds.py:168-179 | for every flip and transpose setting, `transfromDisplayToChip` undoes the transform at every point, and points of the chip land inside the reported chip size |
| Geometry.DisplayToChipInverse | storm_control/hal4000/feeds/feeds.py:193-204 | `transformChipToDisplay` undoes `transfromDisplayToChip`, so the two are inverse bijections |
| Geometry.DisplayToChip | storm_control/hal4000/feeds/feeds.py:193-204 | `transfromDisplayToChip` sends every point inside the reported chip size to a point of the chip (its inverse relation is in `Geometry.ChipToDisplay` and `Geometry.DisplayToChipInverse`) |
| Geometry.ChipSizeInDisplayAxes | storm_control/hal4000/feeds/feeds.py:134-138 | `getChipSize` is the chip's extent put in display axis order, the order `transformChipToDisplay` gives coordinates in |
| Geometry.FrameScaleInDisplayAxes | storm_control/hal4000/feeds/feeds.py:140-144 | `getFrameScale` is the bin factors put in display axis order |
| Geometry.FrameSizeInDisplayAxes | storm_control/hal4000/feeds/feeds.py:146-150 | `getFrameSize` is the feed's pixel counts put in display axis order |
| Geometry.OrientedSwapsIffTranspose | storm_control/hal4000/feeds/feeds.py:134-150 | display axis order swaps a pair exactly when `transpose` is set, so all three getters swap exactly then |
| Geometry.FrameZeroZero | storm_control/hal4000/feeds/feeds.py:160-166 | the display point returned maps back to the chip position of the feed's first pixel |
| Geometry.FrameCenter | storm_control/hal4000/feeds/feeds.py:152-158 | for non-negative offsets and sizes, the display point returned maps back to the first pixel's chip position plus half the feed's size, rounded down |
| Geometry.HalfUp | storm_control/hal4000/feeds/feeds.py:156-157 | `int(a + 0.5 * b)` equals `a + b // 2` for non-negative `a` and `b` |
| Geometry.ChipToFrame | storm_control/hal4000/feeds/feeds.py:181-191 | as written: gives a result exactly when both bin factors are non-zero, and is the `ZeroDivisionError` case otherwise (its value is given by `Geometry.ChipToFrameShiftsRows`) |
| Geometry.ChipToFrameShiftsRows | storm_control/hal4000/feeds/feeds.py:181-191 | on every input, the as-written transform equals the corrected one applied to the chip row shifted by `(camera_y_start + feed_y_start) - (camera_x_start + feed_x_start)`: x is always right and y is off by exactly that difference |
| Geometry.ChipToFrameUsesXOffsetForY | storm_control/hal4000/feeds/feeds.py:188 | with the camera window starting at chip row 10, the as-written transform reports row 10 for the feed's first pixel; the corrected one reports row 0 |
| Geometry.ChipToFrameCorrected | storm_control/hal4000/feeds/feeds.py:181-191 | with the y offsets on y: gives a result exactly when both bin factors are non-zero |
| Geometry.ChipToFrameCorrectedFindsPixel | storm_control/hal4000/feeds/feeds.py:181-191 | every chip point inside the bin of frame pixel `(i, j)` is mapped to `(i, j)` |
| FeedNames.GetCameraFeedName | storm_control/hal4000/feeds/feeds.py:44-52 | a name without `-` gives `[name, None]`; otherwise every piece is present and free of `-`; at least two entries either way |
| FeedNames.SplitHasSep | storm_control/hal4000/feeds/feeds.py:48-49 | the split has more than one piece exactly when the name contains `-` |
| FeedNames.GetCameraFeedNameJoins | storm_control/hal4000/feeds/feeds.py:44-52 | for a name with `-`, the pieces joined with `-` give back the name |
| FeedNames.FeedIdRoundTrip | storm_control/hal4000/feeds/feeds.py:44-52 | the identifier `camera + "-" + feed` splits back into `[camera, feed]` when neither part contains `-` |
| FeedSpecs.BuildSpec | storm_control/hal4000/feeds/feeds.py:216-269 | the construction succeeds exactly when the window width (defaults filled in) is a multiple of 4, and raises otherwise with that width and the feed name. On success it gives the window's pixel counts, the slice chosen by the line-241 test, the `camera-feed` name, two bytes per pixel, and a record marked neither camera nor master. In the record, `colortable` defaults to `"none"` and `is_saved` to true; `default_max`, `default_min` and `max_intensity` are the feed's own values if given, else the camera's; `extension` is the bare feed name; the flips and `transpose` are the camera's |
| FeedSpecs.InfoFor | storm_control/hal4000/feeds/feeds.py:255-269 | the `feed_info` record: two bytes per pixel, the given sizes and full name, the bare feed name as extension, neither camera nor master; `colortable` defaults to `"none"` and `is_saved` to true; `default_max`, `default_min` and `max_intensity` are the feed's own if given, else the camera's; flips and `transpose` are the camera's |
| FeedSpecs.DeclaredSizeMatchesCrop | storm_control/hal4000/feeds/feeds.py:235-247 | for a non-empty window inside the camera frame, the data the feed passes on is `x_pixels` by `y_pixels`, each sample is the camera's sample at the window offset, and `bytes_per_frame` is two bytes per sample |
| FeedSpecs.SkippedSliceKeepsRows | storm_control/hal4000/feeds/feeds.py:241 | a one-row camera and `y_end = 0`: the as-written test skips the slice, so the feed passes on the whole row while declaring zero rows; the corrected test would slice |
| FeedSpecs.AsWrittenSlicesTallCameras | storm_control/hal4000/feeds/feeds.py:241-243 | with `y_start` defaulted, the as-written test slices every feed of a camera whose height is not 1, including a whole-frame feed the corrected test passes through |
| FeedSpecs.SkippedSliceCorrectedIsWhole | storm_control/hal4000/feeds/feeds.py:241 | with the corrected test, a feed that skips the slice covers the whole camera frame, so skipping changes no data |
| FeedSpecs.AsWrittenSliceAgrees | storm_control/hal4000/feeds/feeds.py:240-243 | whenever `y_end >= 1`, the as-written test gives the same data as cropping to the window |
| Processors.SliceFrame | storm_control/hal4000/feeds/feeds.py:277-285 | `sliceFrame` gives data exactly for frames of the feed's camera: the frame itself when the feed has no slice, else the frame cropped by the feed's slice |
| Processors.Accumulate | storm_control/hal4000/feeds/feeds.py:302-307 | adding a slice raises `ShapeMismatch` exactly when a running sum of another shape exists; otherwise the count goes up by one per slice added, no slice leaves the sum as it was, and a new sum has the slice's shape (its values are `Processors.AverageStep`) |
| Processors.Ingest | storm_control/hal4000/feeds/feeds.py:277-418 | `newFrame` of any feed type keeps the feed's window and type, emits at most one frame, labels it with the feed's name and declared size, and keeps the feed in a reachable state |
| Processors.Reset | storm_control/hal4000/feeds/feeds.py:322-325 | `reset` restarts numbering at -1 and drops any partial average, changing nothing else |
| Processors.ForeignFrameIgnored | storm_control/hal4000/feeds/feeds.py:277-285 | a frame of another camera changes no feed and yields nothing, with one exception: an averaging feed with `frames_to_average = 0` and nothing counted raises (`None / 0`) |
| Processors.SliceRun | storm_control/hal4000/feeds/feeds.py:405-418 | over any stream, a slice feed emits exactly one frame per frame of its camera, in order, carrying that frame's own number and cropped data, and its state never changes |
| Processors.IntervalRun | storm_control/hal4000/feeds/feeds.py:339-352 | over any stream, an interval feed with a non-zero cycle emits exactly the frames of its camera whose number `%` the cycle is a capture position, in order, numbered consecutively after its current number; only its number changes |
| Processors.IntervalExample | storm_control/hal4000/feeds/feeds.py:332-352 | frames 0 to 5 with `cycle_length = 4` and `capture_frames = "0,2"`: frames 0, 2 and 4 come out, numbered 0, 1 and 2 |
| Processors.BatchesIndex | storm_control/hal4000/feeds/feeds.py:309-318 | the reference output has one frame per whole batch of `k` crops, and output `i` is the floor mean of crops `i*k` to `(i+1)*k - 1`, numbered consecutively |
| Processors.BatchCount | storm_control/hal4000/feeds/feeds.py:309-318 | there are `len(crops) // k` outputs, and the crops left over are those after the last whole batch |
| Processors.AverageStep | storm_control/hal4000/feeds/feeds.py:300-320 | one frame into an averaging feed: the `k`-th crop of a batch emits the floor mean of the batch, numbered one on, and empties the feed; any other crop is only added to the running sum |
| Processors.AverageRunFrom | storm_control/hal4000/feeds/feeds.py:300-320 | over any stream, an averaging feed emits the floor means of consecutive whole batches of `k` crops of its camera, numbered consecutively, and keeps the exact sum of the crops after the last batch |
| Processors.AverageAfterReset | storm_control/hal4000/feeds/feeds.py:300-325 | after `reset`, batches start with the next frame of the camera and the outputs are numbered 0, 1, 2, ... |
| Controller.PolicyFor | storm_control/hal4000/feeds/feeds.py:293-337 | slice feeds need nothing more; average feeds succeed exactly when `frames_to_average` is given; interval feeds succeed exactly when `capture_frames` parses as integers and `cycle_length` is given, and then keep both values |
| Controller.BuildFeed | storm_control/hal4000/feeds/feeds.py:441-463 | a missing camera and an unknown type raise with the offending name; `lastfilm` always raises; a feed that is built has the `FeedNC` construction and type parameters of its entry, starts reset, has a width divisible by 4 and is in a reachable state |
| Controller.BuildController | storm_control/hal4000/feeds/feeds.py:425-441 | no `feeds` block gives no feeds; otherwise the result is that of building every entry |
| Controller.BuildAll | storm_control/hal4000/feeds/feeds.py:441-463 | construction succeeds exactly when every entry builds; feed `i` is then entry `i`'s feed; otherwise the error is that of the first entry that fails |
| Controller.BuiltController | storm_control/hal4000/feeds/feeds.py:475-476 | `haveFeeds` (`Controller.HaveFeeds`) holds exactly when the `feeds` block exists and is non-empty; every feed built has a width divisible by 4 and starts reset |
| Controller.UnknownTypeRejected | storm_control/hal4000/feeds/feeds.py:447-458 | an unknown feed type after entries that all build makes construction raise, naming that type and feed |
| Controller.NewFrame | storm_control/hal4000/feeds/feeds.py:478-482 | succeeds exactly when every feed accepts the frame; each feed becomes its own `newFrame` result; the outputs are the feeds' outputs concatenated in configuration order |
| Controller.ForeignFrameIgnoredByAll | storm_control/hal4000/feeds/feeds.py:478-482 | a frame from a camera no feed uses changes nothing and yields nothing, unless some feed is a zero-batch averaging feed with nothing counted |
| Controller.NewFrameBound | storm_control/hal4000/feeds/feeds.py:478-482 | one camera frame yields at most one output per feed |
| Controller.ResetFeeds | storm_control/hal4000/feeds/feeds.py:484-486 | every feed is reset, and each keeps its window and type parameters |
| Controller.ResetFeedsIdempotent | storm_control/hal4000/feeds/feeds.py:484-486 | resetting twice is resetting once, and a freshly built controller is already reset |
| Controller.FeedsInfo | storm_control/hal4000/feeds/feeds.py:465-470 | the record map has exactly the feeds' names as keys, and each name maps to the record of the last feed with that name |
| Controller.FeedsInfoKeys | storm_control/hal4000/feeds/feeds.py:465-470 | for a built controller, the keys are exactly the `source-name` identifiers of the configured entries |

## Left out

- `Feeds` (feeds.py:489-619), the HAL module that carries messages between the controller and the rest of the program, is left out: it is message plumbing.
- `CameraFeedInfo.__init__` and `addFeedInfo` (feeds.py:61-132) copy parameter objects. They are left out: `Geometry.FeedGeometry` takes the fields they would fill as given. Line 75 also writes `self.paremeters`, which would raise `AttributeError`.
- `FeedLastFilm` (feeds.py:356-403) exists only inside a string literal. Asking for a `lastfilm` feed therefore raises `NameError`, which is modelled as `LastFilmUndefined`.
- `getParameters` (feeds.py:472-473) and `getFeedInfo` (feeds.py:271-272) are left out: they only return stored values. The latter is the `info` field of `FeedSpec`.
- The camera frame arrives as a flat buffer that `sliceFrame` reshapes (feeds.py:284). The model takes the frame as rows, so a buffer of the wrong size is out of scope.
- An unsliced feed hands on the flat buffer (feeds.py:279-280). The model represents it with the same samples, in rows.
- numpy broadcasting is not modelled. A running sum and a new slice of different shapes are the `ShapeMismatch` error, including shapes numpy would broadcast.
- Floating point is modelled as exact integer arithmetic:
  - `int(cx / bin)` in the geometry;
  - `0.5 * pixels` in `frameCenter`;
  - the true division before the `uint16` cast.
  These agree for values below 2^53 (for the division, below 2^32 with batches up to 2^17). Casting a float of 65536 or more to `uint16` depends on the platform; the model takes it modulo 2^16.
- `int()` is modelled for ASCII whitespace, an optional sign and ASCII digits. Python also accepts underscores between digits and non-ASCII digits and spaces.
- The parameter library is not part of this model. Parameters arrive already typed. An absent key is an error: `MissingCamera` or `MissingParameter`.
- When a later feed raises in `newFrame`, the earlier feeds have already updated their state in the source. The model returns only the error.
- Processors.AverageRunFrom: stated only for batches of at most 65537 frames of `uint16` samples with one crop shape. Beyond that, the `uint32` sum wraps as `Images.AddWrap` describes, and the emitted frame is no longer the mean.
- Processors.AverageStep: carries the same bounds as `Processors.AverageRunFrom`, for the same reason.
- Processors.AverageAfterReset: carries the same bounds as `Processors.AverageRunFrom`, for the same reason.
- Processors.IntervalRun: stated for a non-zero `cycle_length`. A zero cycle raises on the first frame of the camera, which `Processors.Ingest` models as `ZeroCycleLength`.
- Geometry.FrameCenter: its result is only characterised for non-negative offsets and sizes. Elsewhere the float truncation toward zero is modelled (`Geometry.HalfUp`) but not summarised.
- FeedSpecs.DeclaredSizeMatchesCrop: stated only for non-empty windows inside the camera frame. Elsewhere Python's slice clamping gives less data than the declared `x_pixels` and `y_pixels`, and the source promises nothing.

## Findings

| source | as written | input that shows it | evidently intended | confidence | as-written member | corrected member |
|---|---|---|---|---|---|---|
| storm_control/hal4000/feeds/feeds.py:241 | the no-slice test's last term compares `y_start` with the camera's `y_pixels` | one-row camera 4 pixels wide, feed with `y_end = 0` and other bounds defaulted: the slice is skipped, the whole row is passed on, and the feed declares `y_pixels = 0`. Conversely, with `y_start` defaulted, every feed of a camera taller than one row is sliced (`FeedSpecs.AsWrittenSlicesTallCameras`), which changes no data | compare `y_end` with `y_pixels`, so only whole-frame feeds skip the slice | not executed; high | FeedSpecs.SkippedSliceKeepsRows | FeedSpecs.SkippedSliceCorrectedIsWhole |
| storm_control/hal4000/feeds/feeds.py:188 | the y coordinate has `camera_x_start + feed_x_start` subtracted | camera window starting at chip row 10 (`camera_y_start = 10`, x offsets 0, bins 1), chip point `(0, 10)`: the result is row 10, not row 0 | subtract `camera_y_start + feed_y_start` from the y coordinate | not executed; high | Geometry.ChipToFrameUsesXOffsetForY | Geometry.ChipToFrameCorrectedFindsPixel |
