/** Pixel buffers as the photobooth handles them: numpy arrays of 8-bit RGB
    samples, RGBA frame images, the BGR-to-RGB conversion of the camera
    library, resizing and alpha compositing. Only what the application relies
    on is stated: resizing fixes the dimensions, compositing keeps them and
    lets opaque frame pixels win over the photo. */
module Imaging {

  predicate IsByte(x: int) { 0 <= x < 256 }

  datatype Rgb = Rgb(r: int, g: int, b: int)
  datatype Rgba = Rgba(r: int, g: int, b: int, a: int)

  predicate ValidRgb(p: Rgb) { IsByte(p.r) && IsByte(p.g) && IsByte(p.b) }
  predicate ValidRgba(p: Rgba) { IsByte(p.r) && IsByte(p.g) && IsByte(p.b) && IsByte(p.a) }

  /** `g` is a raster of `h` rows of `w` pixels each. */
  predicate IsGrid<T>(g: seq<seq<T>>, h: nat, w: nat) {
    |g| == h && forall i :: 0 <= i < h ==> |g[i]| == w
  }

  predicate ValidRgbGrid(g: seq<seq<Rgb>>, h: nat, w: nat) {
    IsGrid(g, h, w) && forall i, j :: 0 <= i < h && 0 <= j < w ==> ValidRgb(g[i][j])
  }

  predicate ValidRgbaGrid(g: seq<seq<Rgba>>, h: nat, w: nat) {
    IsGrid(g, h, w) && forall i, j :: 0 <= i < h && 0 <= j < w ==> ValidRgba(g[i][j])
  }

  /** A numpy buffer: an RGB picture of shape (height, width, 3), or an array
      the image library cannot read as a picture, known only by its shape. */
  datatype NdArray =
    | Picture(height: nat, width: nat, pixels: seq<seq<Rgb>>)
    | Other(dims: seq<nat>)

  predicate WellFormed(a: NdArray) {
    a.Picture? ==> ValidRgbGrid(a.pixels, a.height, a.width)
  }

  /** `a.shape` */
  function Shape(a: NdArray): seq<nat> {
    match a
    case Picture(h, w, _) => [h, w, 3]
    case Other(dims) => dims
  }

  /** A decorative frame as the image library loads it from its path: absent
      from the disk, present but not decodable, or decoded to RGBA. */
  datatype FrameFile =
    | Missing
    | Unreadable
    | Decoded(height: nat, width: nat, pixels: seq<seq<Rgba>>)

  predicate ValidFrameFile(f: FrameFile) {
    f.Decoded? ==> f.height > 0 && f.width > 0 && ValidRgbaGrid(f.pixels, f.height, f.width)
  }

  /** `os.path.exists(frame_path)` */
  predicate Exists(f: FrameFile) { !f.Missing? }

  /** `cv2.cvtColor(frame, COLOR_BGR2RGB)`: the first and third channel of
      every pixel trade places. */
  function SwapRedBlue(g: seq<seq<Rgb>>): (r: seq<seq<Rgb>>)
    ensures |r| == |g|
    ensures forall i :: 0 <= i < |g| ==> |r[i]| == |g[i]|
    ensures forall i, j :: 0 <= i < |g| && 0 <= j < |g[i]| ==>
              r[i][j] == Rgb(g[i][j].b, g[i][j].g, g[i][j].r)
  {
    seq(|g|, i requires 0 <= i < |g| =>
      seq(|g[i]|, j requires 0 <= j < |g[i]| => Rgb(g[i][j].b, g[i][j].g, g[i][j].r)))
  }

  /** Converting there and back gives the buffer back. */
  lemma SwapRedBlueInvolution(g: seq<seq<Rgb>>)
    ensures SwapRedBlue(SwapRedBlue(g)) == g
  {
    var r := SwapRedBlue(SwapRedBlue(g));
    forall i | 0 <= i < |g| ensures r[i] == g[i] { }
  }

  lemma MulMonotone(x: int, y: int, k: int)
    requires x <= y && k >= 0
    ensures x * k <= y * k
  { }

  lemma ScaledIndex(i: nat, n: nat, size: nat)
    requires i < n && size > 0
    ensures i * size / n < size
  {
    var p := i * size;
    MulMonotone(i, n - 1, size);
    assert p <= n * size - size;
    var q := p / n;
    assert q * n <= p;
    if q >= size {
      MulMonotone(size, q, n);
    }
  }

  function Sample(src: seq<seq<Rgba>>, sh: nat, sw: nat, h: nat, w: nat, i: nat, j: nat): (p: Rgba)
    requires ValidRgbaGrid(src, sh, sw) && sh > 0 && sw > 0 && i < h && j < w
    ensures ValidRgba(p)
  {
    ScaledIndex(i, h, sh);
    ScaledIndex(j, w, sw);
    src[i * sh / h][j * sw / w]
  }

  /** `frame.resize((w, h), LANCZOS)`: the result is exactly `h` rows of `w`
      pixels of the source's kind. The filter itself is not modelled (the body
      samples the nearest pixel); nothing beyond the size is claimed. */
  function Resample(src: seq<seq<Rgba>>, sh: nat, sw: nat, h: nat, w: nat): (r: seq<seq<Rgba>>)
    requires ValidRgbaGrid(src, sh, sw) && sh > 0 && sw > 0
    ensures ValidRgbaGrid(r, h, w)
  {
    seq(h, i requires 0 <= i < h => seq(w, j requires 0 <= j < w => Sample(src, sh, sw, h, w, i, j)))
  }

  /** One channel of "frame over photo" at opacity `a` out of 255, rounded. */
  function Mix(front: int, back: int, a: int): int
    requires IsByte(front) && IsByte(back) && IsByte(a)
  {
    (front * a + back * (255 - a) + 127) / 255
  }

  lemma {:induction false} MixBetween(front: int, back: int, a: int)
    requires IsByte(front) && IsByte(back) && IsByte(a)
    ensures a == 255 ==> Mix(front, back, a) == front
    ensures a == 0 ==> Mix(front, back, a) == back
    ensures front <= back ==> front <= Mix(front, back, a) <= back
    ensures back <= front ==> back <= Mix(front, back, a) <= front
  {
    if front <= back {
      MixBounds(front, back, front, back, a);
    } else {
      MixBounds(front, back, back, front, a);
    }
  }

  lemma MixBounds(front: int, back: int, lo: int, hi: int, a: int)
    requires IsByte(front) && IsByte(back) && IsByte(a)
    requires lo <= front <= hi && lo <= back <= hi
    ensures lo <= Mix(front, back, a) <= hi
    ensures a == 255 ==> Mix(front, back, a) == front
    ensures a == 0 ==> Mix(front, back, a) == back
  {
    var v := front * a + back * (255 - a);
    MulMonotone(lo, front, a);
    MulMonotone(front, hi, a);
    MulMonotone(lo, back, 255 - a);
    MulMonotone(back, hi, 255 - a);
    assert 255 * lo <= v <= 255 * hi;
  }

  /** Alpha compositing of an RGBA frame pixel over an opaque photo pixel. */
  function Over(f: Rgba, p: Rgb): (r: Rgb)
    requires ValidRgba(f) && ValidRgb(p)
    ensures ValidRgb(r)
    ensures f.a == 255 ==> r == Rgb(f.r, f.g, f.b)
    ensures f.a == 0 ==> r == p
  {
    MixBetween(f.r, p.r, f.a);
    MixBetween(f.g, p.g, f.a);
    MixBetween(f.b, p.b, f.a);
    Rgb(Mix(f.r, p.r, f.a), Mix(f.g, p.g, f.a), Mix(f.b, p.b, f.a))
  }

  /** `Image.alpha_composite(photo, frame)` converted back to RGB: the frame,
      already resized to the photo, laid pixel by pixel over it. */
  function Composite(photo: seq<seq<Rgb>>, frame: seq<seq<Rgba>>, h: nat, w: nat): (r: seq<seq<Rgb>>)
    requires ValidRgbGrid(photo, h, w) && ValidRgbaGrid(frame, h, w)
    ensures ValidRgbGrid(r, h, w)
    ensures forall i, j :: 0 <= i < h && 0 <= j < w ==> r[i][j] == Over(frame[i][j], photo[i][j])
  {
    seq(h, i requires 0 <= i < h => seq(w, j requires 0 <= j < w => Over(frame[i][j], photo[i][j])))
  }

  /** Where the frame is opaque the frame shows; where it is transparent the
      photo shows. */
  lemma CompositeOpaqueAndClear(photo: seq<seq<Rgb>>, frame: seq<seq<Rgba>>, h: nat, w: nat, i: nat, j: nat)
    requires ValidRgbGrid(photo, h, w) && ValidRgbaGrid(frame, h, w) && i < h && j < w
    ensures frame[i][j].a == 255 ==>
              Composite(photo, frame, h, w)[i][j] == Rgb(frame[i][j].r, frame[i][j].g, frame[i][j].b)
    ensures frame[i][j].a == 0 ==> Composite(photo, frame, h, w)[i][j] == photo[i][j]
  { }

  /** A wholly transparent frame leaves the photo as it was. */
  lemma {:induction false} CompositeClearFrame(photo: seq<seq<Rgb>>, frame: seq<seq<Rgba>>, h: nat, w: nat)
    requires ValidRgbGrid(photo, h, w) && ValidRgbaGrid(frame, h, w)
    requires forall i, j :: 0 <= i < h && 0 <= j < w ==> frame[i][j].a == 0
    ensures Composite(photo, frame, h, w) == photo
  {
    var r := Composite(photo, frame, h, w);
    forall i | 0 <= i < h ensures r[i] == photo[i] {
      assert forall j :: 0 <= j < w ==> r[i][j] == photo[i][j];
    }
  }
}
