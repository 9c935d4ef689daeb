/** Camera images as rows of samples, with the numpy operations the feeds
    apply to them: two-dimensional basic slicing, the `uint32` accumulator
    (`astype(numpy.uint32)` and in-place `+=`, both wrapping modulo 2^32) and
    the final `(sum / k).astype(numpy.uint16)`. */
module Images {
  import opened PyOps

  /** One past the largest `uint16` sample. */
  const U16: nat := 0x1_0000
  /** One past the largest `uint32` accumulator value. */
  const U32: nat := 0x1_0000_0000

  /** Row-major samples: `img[row][column]`. */
  type Image = seq<seq<nat>>

  predicate Rectangular(img: Image, width: nat, height: nat) {
    |img| == height && forall r :: 0 <= r < |img| ==> |img[r]| == width
  }

  predicate SameShape(a: Image, b: Image) {
    |a| == |b| && forall r :: 0 <= r < |a| ==> |a[r]| == |b[r]|
  }

  /** Every sample is below `bound` (`U16` for camera data). */
  predicate Below(img: Image, bound: nat) {
    forall r, c :: 0 <= r < |img| && 0 <= c < |img[r]| ==> img[r][c] < bound
  }

  /** The row slice and column slice of `array[rowStart:rowStop, colStart:colStop]`. */
  datatype Window = Window(rowStart: int, rowStop: int, colStart: int, colStop: int)

  /** `array[window]` followed by `ascontiguousarray`: Python slice rules on both axes. */
  function Crop(img: Image, w: Window): (r: Image)
    ensures |r| == |PySlice(img, w.rowStart, w.rowStop)|
    ensures forall i :: 0 <= i < |r| ==>
      r[i] == PySlice(img[SliceIndex(w.rowStart, |img|) + i], w.colStart, w.colStop)
  {
    var rows := PySlice(img, w.rowStart, w.rowStop);
    seq(|rows|, i requires 0 <= i < |rows| => PySlice(rows[i], w.colStart, w.colStop))
  }

  /** An in-range window of a rectangular image is the sub-rectangle it names. */
  lemma CropInRange(img: Image, w: Window, width: nat, height: nat)
    requires Rectangular(img, width, height)
    requires 0 <= w.rowStart <= w.rowStop <= height
    requires 0 <= w.colStart <= w.colStop <= width
    ensures Rectangular(Crop(img, w), w.colStop - w.colStart, w.rowStop - w.rowStart)
    ensures forall i, j :: 0 <= i < w.rowStop - w.rowStart && 0 <= j < w.colStop - w.colStart ==>
      Crop(img, w)[i][j] == img[w.rowStart + i][w.colStart + j]
  {
  }

  /** Slicing the whole extent changes nothing. */
  lemma CropWhole(img: Image, width: nat, height: nat)
    requires Rectangular(img, width, height)
    ensures Crop(img, Window(0, height, 0, width)) == img
  {
    var r := Crop(img, Window(0, height, 0, width));
    assert |r| == |img|;
    forall i | 0 <= i < |r|
      ensures r[i] == img[i]
    {
      PySliceInRange(img[i], 0, width);
    }
  }

  /** The shape of a crop depends only on the shape of the image. */
  lemma CropSameShape(a: Image, b: Image, w: Window)
    requires SameShape(a, b)
    ensures SameShape(Crop(a, w), Crop(b, w))
  {
  }

  /** Cropping never introduces a sample that was not in the image. */
  lemma CropBelow(img: Image, w: Window, bound: nat)
    requires Below(img, bound)
    ensures Below(Crop(img, w), bound)
  {
    var r := Crop(img, w);
    forall i, j | 0 <= i < |r| && 0 <= j < |r[i]|
      ensures r[i][j] < bound
    {
      var row := img[SliceIndex(w.rowStart, |img|) + i];
      assert r[i][j] == row[SliceIndex(w.colStart, |row|) + j];
    }
  }

  /** `img.astype(numpy.uint32)`. */
  function Widen(img: Image): (r: Image)
    ensures SameShape(r, img)
  {
    seq(|img|, i requires 0 <= i < |img| =>
      seq(|img[i]|, j requires 0 <= j < |img[i]| => img[i][j] % U32))
  }

  /** `acc += img` on a `uint32` accumulator. */
  function AddWrap(acc: Image, img: Image): (r: Image)
    requires SameShape(acc, img)
    ensures SameShape(r, acc)
  {
    seq(|acc|, i requires 0 <= i < |acc| =>
      seq(|acc[i]|, j requires 0 <= j < |acc[i]| => (acc[i][j] + img[i][j]) % U32))
  }

  /** `(acc / k).astype(numpy.uint16)` for a positive integer `k`. */
  function DivideToU16(acc: Image, k: int): (r: Image)
    requires k >= 1
    ensures SameShape(r, acc)
  {
    seq(|acc|, i requires 0 <= i < |acc| =>
      seq(|acc[i]|, j requires 0 <= j < |acc[i]| => (acc[i][j] / k) % U16))
  }

  /** Every image of `imgs` has the shape of `shape`. */
  predicate Uniform(imgs: seq<Image>, shape: Image) {
    forall t :: 0 <= t < |imgs| ==> SameShape(imgs[t], shape)
  }

  predicate AllBelow(imgs: seq<Image>, bound: nat) {
    forall t :: 0 <= t < |imgs| ==> Below(imgs[t], bound)
  }

  /** The sample at `(r, c)`, or 0 where the image has none. */
  function At(img: Image, r: nat, c: nat): nat {
    if r < |img| && c < |img[r]| then img[r][c] else 0
  }

  /** The exact (unbounded) sum of one sample position over a run of images. */
  function PixelSum(imgs: seq<Image>, r: nat, c: nat): nat
    decreases |imgs|
  {
    if |imgs| == 0 then 0
    else PixelSum(imgs[..|imgs| - 1], r, c) + At(imgs[|imgs| - 1], r, c)
  }

  /** The per-pixel exact sum of a run of images, laid out on `shape`. */
  function Sum(imgs: seq<Image>, shape: Image): (s: Image)
    ensures SameShape(s, shape)
  {
    seq(|shape|, r requires 0 <= r < |shape| =>
      seq(|shape[r]|, c requires 0 <= c < |shape[r]| => PixelSum(imgs, r, c)))
  }

  /** The per-pixel floor mean of a run of `k` images, laid out on `shape`:
      the image an averaging feed is meant to emit. */
  function Mean(imgs: seq<Image>, shape: Image, k: nat): (m: Image)
    requires k >= 1
    ensures SameShape(m, shape)
  {
    seq(|shape|, r requires 0 <= r < |shape| =>
      seq(|shape[r]|, c requires 0 <= c < |shape[r]| => PixelSum(imgs, r, c) / k))
  }

  /** Summing `uint16` samples over `n` images stays below `n * 65535`. */
  lemma {:induction false} PixelSumBound(imgs: seq<Image>, r: nat, c: nat)
    requires AllBelow(imgs, U16)
    ensures PixelSum(imgs, r, c) <= |imgs| * (U16 - 1)
    decreases |imgs|
  {
    if |imgs| > 0 {
      var n := |imgs| - 1;
      PixelSumBound(imgs[..n], r, c);
      assert At(imgs[n], r, c) < U16;
    }
  }

  /** The first frame converted to `uint32` is the sum of a one-frame run. */
  lemma WidenIsSum(img: Image, shape: Image)
    requires Below(img, U16) && SameShape(img, shape)
    ensures Widen(img) == Sum([img], shape)
  {
    var lhs := Widen(img);
    var rhs := Sum([img], shape);
    assert [img][..0] == [];
    forall r | 0 <= r < |img|
      ensures lhs[r] == rhs[r]
    {
      forall c | 0 <= c < |img[r]|
        ensures lhs[r][c] == rhs[r][c]
      {
        assert PixelSum([img], r, c) == PixelSum([], r, c) + At(img, r, c);
      }
    }
  }

  /** While no more than 65537 `uint16` frames are added, the wrapping
      accumulator equals the exact sum (65537 * 65535 == 2^32 - 1). */
  lemma AddWrapIsSum(hist: seq<Image>, img: Image, shape: Image)
    requires SameShape(img, shape)
    requires AllBelow(hist, U16) && Below(img, U16)
    requires |hist| + 1 <= U16 + 1
    ensures SameShape(Sum(hist, shape), img)
    ensures AddWrap(Sum(hist, shape), img) == Sum(hist + [img], shape)
  {
    var all := hist + [img];
    assert all[..|hist|] == hist;
    assert forall t :: 0 <= t < |all| ==> all[t] == if t < |hist| then hist[t] else img;
    assert AllBelow(all, U16);
    var lhs := AddWrap(Sum(hist, shape), img);
    var rhs := Sum(all, shape);
    forall r | 0 <= r < |shape|
      ensures lhs[r] == rhs[r]
    {
      forall c | 0 <= c < |shape[r]|
        ensures lhs[r][c] == rhs[r][c]
      {
        PixelSumBound(all, r, c);
        assert |all| * (U16 - 1) < U32;
        assert PixelSum(all, r, c) == PixelSum(hist, r, c) + img[r][c];
      }
    }
  }

  /** Dividing the exact sum of `k` frames and casting to `uint16` is the floor mean. */
  lemma DivideIsMean(batch: seq<Image>, shape: Image, k: nat)
    requires AllBelow(batch, U16)
    requires |batch| == k >= 1
    ensures DivideToU16(Sum(batch, shape), k) == Mean(batch, shape, k)
  {
    var lhs := DivideToU16(Sum(batch, shape), k);
    var rhs := Mean(batch, shape, k);
    forall r | 0 <= r < |shape|
      ensures lhs[r] == rhs[r]
    {
      forall c | 0 <= c < |shape[r]|
        ensures lhs[r][c] == rhs[r][c]
      {
        var s := PixelSum(batch, r, c);
        PixelSumBound(batch, r, c);
        DivBelow(s, k, U16 - 1);
      }
    }
  }

  lemma DivBelow(s: nat, k: nat, m: nat)
    requires k >= 1 && s <= k * m
    ensures s / k <= m
  {
    DivBounds(s, k);
  }
}
