/** The coordinate helpers of `CameraFeedInfo`: mapping between chip
    coordinates (the camera sensor), display coordinates (after the camera's
    horizontal flip, vertical flip and transpose) and frame coordinates (pixel
    indices inside one feed's binned, cropped buffer). */
module Geometry {
  import opened Results
  import opened PyOps

  /** The geometry fields `CameraFeedInfo` keeps for one camera or feed. */
  datatype FeedGeometry = FeedGeometry(
    chipX: int,            // maximum of the camera's x_end
    chipY: int,            // maximum of the camera's y_end
    xBin: int,
    yBin: int,
    cameraXStart: int,
    cameraYStart: int,
    feedXPixels: int,
    feedYPixels: int,
    feedXStart: int,
    feedYStart: int,
    flipHorizontal: bool,
    flipVertical: bool,
    transpose: bool)

  /** The same geometry with both flips cleared: only the axis order remains. */
  function Unflipped(g: FeedGeometry): FeedGeometry {
    g.(flipHorizontal := false, flipVertical := false)
  }

  /** Orders a pair `(a, b)` given along the chip axes as display axes. */
  function Oriented(g: FeedGeometry, a: int, b: int): (int, int) {
    ChipToDisplay(Unflipped(g), a, b)
  }

  /** Chip to display: horizontal flip, then vertical flip, then transpose. */
  function ChipToDisplay(g: FeedGeometry, cx: int, cy: int): (d: (int, int))
    ensures DisplayToChip(g, d.0, d.1) == (cx, cy)
    ensures 0 <= cx <= g.chipX && 0 <= cy <= g.chipY ==>
      0 <= d.0 <= GetChipSize(g).0 && 0 <= d.1 <= GetChipSize(g).1
  {
    var x := if g.flipHorizontal then g.chipX - cx else cx;
    var y := if g.flipVertical then g.chipY - cy else cy;
    if g.transpose then (y, x) else (x, y)
  }

  /** Display to chip: the steps of `ChipToDisplay` undone in reverse order.
      (The source spells this method `transfromDisplayToChip`.) */
  function DisplayToChip(g: FeedGeometry, dx: int, dy: int): (c: (int, int))
    ensures 0 <= dx <= GetChipSize(g).0 && 0 <= dy <= GetChipSize(g).1 ==>
      0 <= c.0 <= g.chipX && 0 <= c.1 <= g.chipY
  {
    var (x, y) := if g.transpose then (dy, dx) else (dx, dy);
    var y' := if g.flipVertical then g.chipY - y else y;
    var x' := if g.flipHorizontal then g.chipX - x else x;
    (x', y')
  }

  /** `DisplayToChip` is also a right inverse: every display point comes from a chip point. */
  lemma DisplayToChipInverse(g: FeedGeometry, dx: int, dy: int)
    ensures ChipToDisplay(g, DisplayToChip(g, dx, dy).0, DisplayToChip(g, dx, dy).1) == (dx, dy)
  {
  }

  function GetChipSize(g: FeedGeometry): (int, int) {
    if g.transpose then (g.chipY, g.chipX) else (g.chipX, g.chipY)
  }

  function GetFrameScale(g: FeedGeometry): (int, int) {
    if g.transpose then (g.yBin, g.xBin) else (g.xBin, g.yBin)
  }

  function GetFrameSize(g: FeedGeometry): (int, int) {
    if g.transpose then (g.feedYPixels, g.feedXPixels) else (g.feedXPixels, g.feedYPixels)
  }

  /** `getChipSize` reports the chip's extent in display axis order: the
      chip-axis pair put through the transpose of `ChipToDisplay`. */
  lemma ChipSizeInDisplayAxes(g: FeedGeometry)
    ensures GetChipSize(g) == Oriented(g, g.chipX, g.chipY)
  {
  }

  /** `getFrameScale` reports the bin factors in display axis order. */
  lemma FrameScaleInDisplayAxes(g: FeedGeometry)
    ensures GetFrameScale(g) == Oriented(g, g.xBin, g.yBin)
  {
  }

  /** `getFrameSize` reports the feed's pixel counts in display axis order. */
  lemma FrameSizeInDisplayAxes(g: FeedGeometry)
    ensures GetFrameSize(g) == Oriented(g, g.feedXPixels, g.feedYPixels)
  {
  }

  /** Display axis order swaps a chip-axis pair exactly when `transpose` is set. */
  lemma OrientedSwapsIffTranspose(g: FeedGeometry)
    ensures g.transpose <==> forall a, b :: Oriented(g, a, b) == (b, a)
  {
    if !g.transpose {
      assert Oriented(g, 0, 1) != (1, 0);
    }
  }

  /** Chip position of the feed's first pixel. */
  function FrameOriginOnChip(g: FeedGeometry): (int, int) {
    (g.cameraXStart + g.xBin * g.feedXStart, g.cameraYStart + g.yBin * g.feedYStart)
  }

  /** `frameZeroZero`: where the frame's first pixel is drawn. */
  function FrameZeroZero(g: FeedGeometry): (d: (int, int))
    ensures DisplayToChip(g, d.0, d.1) == FrameOriginOnChip(g)
  {
    ChipToDisplay(g, FrameOriginOnChip(g).0, FrameOriginOnChip(g).1)
  }

  /** `frameCenter`. The source adds `0.5 * pixels` as a float and truncates
      with `int(...)`; `int(a + b / 2) == TruncDiv(2 * a + b, 2)` exactly. */
  function FrameCenter(g: FeedGeometry): (d: (int, int))
    ensures var o := FrameOriginOnChip(g);
      o.0 >= g.cameraXStart && o.1 >= g.cameraYStart && g.feedXPixels >= 0 && g.feedYPixels >= 0 ==>
        DisplayToChip(g, d.0, d.1) == (o.0 + g.feedXPixels / 2, o.1 + g.feedYPixels / 2)
  {
    var cx := g.cameraXStart + HalfUp(g.xBin * g.feedXStart, g.feedXPixels);
    var cy := g.cameraYStart + HalfUp(g.yBin * g.feedYStart, g.feedYPixels);
    ChipToDisplay(g, cx, cy)
  }

  /** `int(a + 0.5 * b)` for integers `a` and `b`. */
  function HalfUp(a: int, b: int): (r: int)
    ensures a >= 0 && b >= 0 ==> r == a + b / 2
  {
    TruncDiv(2 * a + b, 2)
  }

  /** `transformChipToFrame` as written: line 188 subtracts the x offsets
      (`camera_x_start + feed_x_start`) from the y coordinate. `None` stands
      for the `ZeroDivisionError` of a zero bin factor. */
  function ChipToFrame(g: FeedGeometry, cx: int, cy: int): (r: Option<(int, int)>)
    ensures r.Some? <==> g.xBin != 0 && g.yBin != 0
  {
    if g.xBin == 0 || g.yBin == 0 then None
    else
      Some((TruncDiv(cx - (g.cameraXStart + g.feedXStart), g.xBin),
            TruncDiv(cy - (g.cameraXStart + g.feedXStart), g.yBin)))
  }

  /** Counterexample for line 188: with the camera window starting at
      chip row 10, the chip point (0, 10) is the frame's pixel (0, 0), but the
      as-written transform reports row 10. */
  lemma ChipToFrameUsesXOffsetForY()
    ensures var g := FeedGeometry(100, 100, 1, 1, 0, 10, 8, 8, 0, 0, false, false, false);
      ChipToFrame(g, 0, 10) == Some((0, 10)) && ChipToFrameCorrected(g, 0, 10) == Some((0, 0))
  {
  }

  /** On every input the as-written transform gets x right and is off on y
      by exactly the difference between the y and the x offsets: it is the
      corrected transform applied to a shifted chip row. */
  lemma ChipToFrameShiftsRows(g: FeedGeometry, cx: int, cy: int)
    ensures ChipToFrame(g, cx, cy) ==
      ChipToFrameCorrected(g, cx, cy + (g.cameraYStart + g.feedYStart) - (g.cameraXStart + g.feedXStart))
  {
  }

  /** `transformChipToFrame` with the y offsets on the y coordinate. */
  function ChipToFrameCorrected(g: FeedGeometry, cx: int, cy: int): (r: Option<(int, int)>)
    ensures r.Some? <==> g.xBin != 0 && g.yBin != 0
  {
    if g.xBin == 0 || g.yBin == 0 then None
    else
      Some((TruncDiv(cx - (g.cameraXStart + g.feedXStart), g.xBin),
            TruncDiv(cy - (g.cameraYStart + g.feedYStart), g.yBin)))
  }

  /** The corrected transform sends every chip point inside the bin of frame
      pixel (i, j) to (i, j). */
  lemma ChipToFrameCorrectedFindsPixel(g: FeedGeometry, i: nat, j: nat, rx: nat, ry: nat)
    requires g.xBin >= 1 && g.yBin >= 1
    requires rx < g.xBin && ry < g.yBin
    ensures ChipToFrameCorrected(g,
              g.cameraXStart + g.feedXStart + g.xBin * i + rx,
              g.cameraYStart + g.feedYStart + g.yBin * j + ry) == Some((i, j))
  {
    BinIndex(i, rx, g.xBin);
    BinIndex(j, ry, g.yBin);
  }

  lemma BinIndex(i: nat, r: nat, b: int)
    requires b >= 1 && r < b
    ensures TruncDiv(b * i + r, b) == i
  {
    var n := b * i + r;
    assert i * b <= n < (i + 1) * b;
    DivUnique(n, b, i);
  }
}
