/** src/controllers/photo_controller.py: laying a decorative frame over a
    photo (on a raw buffer, and in place on a `Photo`), naming the saved
    file after the capture time, and the thumbnail size. Reading images,
    resizing filters and JPEG encoding belong to the image libraries and are
    represented only by the dimensions they produce. */
module PhotoControl {
  import opened Wrappers
  import opened Text
  import opened Imaging
  import opened Photos

  /** The exception `apply_frame_to_array` lets escape. */
  datatype ImageError = CannotOpenFrame | NotAPicture | EmptyPicture

  /** `apply_frame_to_array(image_data, frame_path)`, where `frame` is what
      lies at `frame_path` on the disk. */
  function ApplyFrameToArray(data: Option<NdArray>, framePath: string, frame: FrameFile)
    : (r: Result<Option<NdArray>, ImageError>)
    requires ValidFrameFile(frame)
    requires data.Some? ==> WellFormed(data.value)
    ensures data.None? || framePath == "" || !Exists(frame) ==> r == Ok(data)
    ensures r.Err? <==>
              data.Some? && framePath != "" && Exists(frame)
              && (frame.Unreadable? || data.value.Other? || data.value.height == 0 || data.value.width == 0)
    ensures r.Ok? ==> r.value.Some? == data.Some?
    ensures r.Ok? && data.Some? ==> WellFormed(r.value.value) && Shape(r.value.value) == Shape(data.value)
  {
    if data.None? || framePath == "" || !Exists(frame) then Ok(data)
    else if frame.Unreadable? then Err(CannotOpenFrame)
    else
      match data.value
      case Other(_) => Err(NotAPicture)
      case Picture(h, w, pixels) =>
        if h == 0 || w == 0 then Err(EmptyPicture)
        else
          var stretched := Resample(frame.pixels, frame.height, frame.width, h, w);
          Ok(Some(Picture(h, w, Composite(pixels, stretched, h, w))))
  }

  /** When a frame is laid over a picture, the frame is first stretched to the
      picture's own size; then wherever the stretched frame is opaque its
      pixel is the result, and wherever it is fully transparent the photo's
      pixel is. */
  lemma ApplyFrameToArrayComposites(photo: NdArray, framePath: string, frame: FrameFile, i: nat, j: nat)
    requires ValidFrameFile(frame) && frame.Decoded? && framePath != ""
    requires WellFormed(photo) && photo.Picture? && i < photo.height && j < photo.width
    ensures var r := ApplyFrameToArray(Some(photo), framePath, frame);
            var stretched := Resample(frame.pixels, frame.height, frame.width, photo.height, photo.width);
            && r.Ok? && r.value.Some? && r.value.value.Picture?
            && r.value.value.height == photo.height && r.value.value.width == photo.width
            && (stretched[i][j].a == 255 ==>
                  r.value.value.pixels[i][j] == Rgb(stretched[i][j].r, stretched[i][j].g, stretched[i][j].b))
            && (stretched[i][j].a == 0 ==> r.value.value.pixels[i][j] == photo.pixels[i][j])
  {
    var stretched := Resample(frame.pixels, frame.height, frame.width, photo.height, photo.width);
    CompositeOpaqueAndClear(photo.pixels, stretched, photo.height, photo.width, i, j);
  }

  /** `"photo_" + timestamp.strftime("%Y%m%d_%H%M%S") + ".jpg"` */
  function PhotoFileName(t: DateTime): (name: string)
    requires ValidDateTime(t)
    ensures StartsWith(name, "photo_") && EndsWith(name, ".jpg")
  {
    NameAffixes(ZeroPad(t.year, 4) + ZeroPad(t.month, 2) + ZeroPad(t.day, 2) + "_"
                + ZeroPad(t.hour, 2) + ZeroPad(t.minute, 2) + ZeroPad(t.second, 2));
    "photo_" + ZeroPad(t.year, 4) + ZeroPad(t.month, 2) + ZeroPad(t.day, 2) + "_"
    + ZeroPad(t.hour, 2) + ZeroPad(t.minute, 2) + ZeroPad(t.second, 2) + ".jpg"
  }

  lemma NameAffixes(middle: string)
    ensures StartsWith("photo_" + middle + ".jpg", "photo_") && EndsWith("photo_" + middle + ".jpg", ".jpg")
  {
    var name := "photo_" + middle + ".jpg";
    assert name[..6] == "photo_";
    assert name[|name| - 4..] == ".jpg";
  }

  /** Reads the capture time back out of a generated file name. */
  function ParsePhotoFileName(name: string): Option<DateTime> {
    if |name| != 25 || name[..6] != "photo_" || name[14] != '_' || name[21..] != ".jpg" then None
    else
      var y, mo, d := ParseDecimal(name[6..10]), ParseDecimal(name[10..12]), ParseDecimal(name[12..14]);
      var h, mi, s := ParseDecimal(name[15..17]), ParseDecimal(name[17..19]), ParseDecimal(name[19..21]);
      if y.None? || mo.None? || d.None? || h.None? || mi.None? || s.None? then None
      else Some(DateTime(y.value, mo.value, d.value, h.value, mi.value, s.value))
  }

  /** A padded field of the file name: `k` digits, so no '/' either. */
  lemma PaddedField(n: nat, k: nat)
    requires k >= 1 && n < Pow10(k)
    ensures |ZeroPad(n, k)| == k && '/' !in ZeroPad(n, k)
    ensures ParseDecimal(ZeroPad(n, k)) == Some(n)
  {
    DigitsFit(n, k);
    ParseZeroPad(n, k);
    var z := ZeroPad(n, k);
    assert forall i :: 0 <= i < |z| ==> z[i] != '/';
  }

  /** The generated name is 25 characters long, free of '/', and gives the
      capture time back: distinct seconds give distinct files. */
  lemma {:induction false} PhotoFileNameRoundTrip(t: DateTime)
    requires ValidDateTime(t) && t.year >= 1000
    ensures |PhotoFileName(t)| == 25 && '/' !in PhotoFileName(t)
    ensures ParsePhotoFileName(PhotoFileName(t)) == Some(t)
  {
    assert Pow10(2) == 100 && Pow10(4) == 10000;
    PaddedField(t.year, 4); PaddedField(t.month, 2); PaddedField(t.day, 2);
    PaddedField(t.hour, 2); PaddedField(t.minute, 2); PaddedField(t.second, 2);
    var y, mo, d := ZeroPad(t.year, 4), ZeroPad(t.month, 2), ZeroPad(t.day, 2);
    var h, mi, s := ZeroPad(t.hour, 2), ZeroPad(t.minute, 2), ZeroPad(t.second, 2);
    NameLayout(y, mo, d, h, mi, s);
    ParseOfLayout(PhotoFileName(t), t);
  }

  /** A 25-character name with the fixed parts in place and the fields
      parsing to a time parses to that time. */
  lemma ParseOfLayout(name: string, t: DateTime)
    requires |name| == 25 && name[..6] == "photo_" && name[14] == '_' && name[21..] == ".jpg"
    requires ParseDecimal(name[6..10]) == Some(t.year) && ParseDecimal(name[10..12]) == Some(t.month)
    requires ParseDecimal(name[12..14]) == Some(t.day) && ParseDecimal(name[15..17]) == Some(t.hour)
    requires ParseDecimal(name[17..19]) == Some(t.minute) && ParseDecimal(name[19..21]) == Some(t.second)
    ensures ParsePhotoFileName(name) == Some(t)
  {
  }

  /** Where each field sits in a name built from fields of the right widths. */
  lemma NameLayout(y: string, mo: string, d: string, h: string, mi: string, s: string)
    requires |y| == 4 && |mo| == 2 && |d| == 2 && |h| == 2 && |mi| == 2 && |s| == 2
    ensures var name := "photo_" + y + mo + d + "_" + h + mi + s + ".jpg";
      |name| == 25 && name[..6] == "photo_" && name[14] == '_' && name[21..] == ".jpg"
      && name[6..10] == y && name[10..12] == mo && name[12..14] == d
      && name[15..17] == h && name[17..19] == mi && name[19..21] == s
  {
  }

  function Abs(x: int): nat { if x < 0 then -x else x }

  /** `a * k < b * k` with `k > 0` gives `a < b`. */
  lemma CancelFactor(a: int, b: int, k: int)
    requires k > 0 && a * k < b * k
    ensures a < b
  {
  }

  /** When the box's height limits the image (`w / h >= maxW / maxH`), the
      image is taller than the box. */
  lemma HeightLimits(w: nat, h: nat, maxW: nat, maxH: nat)
    requires w > 0 && h > 0 && maxW > 0 && maxH > 0
    requires !(w <= maxW && h <= maxH) && w * maxH <= maxW * h
    ensures maxH < h && w * maxH <= w * h
  {
    if maxH >= h {
      MulMonotone(h, maxH, w);
      assert w * h <= maxW * h;
      if maxW < w {
        MulMonotone(maxW + 1, w, h);
      }
    }
    MulMonotone(maxH, h, w);
  }

  /** A length less than a pixel off `e / k`, where `e <= bound * k`, is at
      most `bound`. */
  lemma SideBound(n: nat, k: nat, e: int, bound: nat)
    requires k > 0 && Abs(n * k - e) < k && e <= bound * k
    ensures n <= bound
  {
    assert (n - 1) * k == n * k - k;
    CancelFactor(n - 1, bound, k);
  }

  /** Integer division brackets its dividend. */
  lemma DivBounds(e: nat, k: nat)
    requires k > 0
    ensures (e / k) * k <= e < (e / k) * k + k
  {
  }

  /** The floor or the ceiling of `e / k` is less than `k` away from `e`
      once multiplied back, and so is 1 when the floor is 0. */
  lemma NeighbourClose(e: nat, k: nat, n: nat)
    requires k > 0 && e > 0
    requires n == e / k || (n == e / k + 1 && (e / k) * k != e) || (n == 1 && e / k == 0)
    ensures Abs(n * k - e) < k
  {
    DivBounds(e, k);
    if n == e / k + 1 {
      assert n * k == (e / k) * k + k;
    }
  }

  /** The width `Image.thumbnail` picks when the box's height is the limit:
      `round_aspect(maxH * w / h)`, the floor or the ceiling of the exact
      width, whichever is nearer to the image's aspect ratio (the floor on a
      tie), and at least 1. It is less than one pixel off the exact width. */
  function RoundWidth(w: nat, h: nat, maxH: nat): (n: nat)
    requires w > 0 && h > 0 && maxH > 0
    ensures n >= 1
    ensures Abs(n * h - w * maxH) < h
  {
    var e := w * maxH;
    var f := e / h;
    var c := if f * h == e then f else f + 1;
    var pick := if e - f * h <= c * h - e then f else c;
    var n := if pick < 1 then 1 else pick;
    NeighbourClose(e, h, n);
    n
  }

  /** The height `Image.thumbnail` picks when the box's width is the limit:
      `round_aspect(maxW * h / w)`, where the floor or the ceiling is chosen
      by how close `maxW / n` comes to the image's aspect ratio (the floor on
      a tie, and always when it is 0), and at least 1. It is less than one
      pixel off the exact height. */
  function RoundHeight(w: nat, h: nat, maxW: nat): (n: nat)
    requires w > 0 && h > 0 && maxW > 0
    ensures n >= 1
    ensures Abs(n * w - h * maxW) < w
  {
    var e := h * maxW;
    var f := e / w;
    var c := if f * w == e then f else f + 1;
    var pick := if f == 0 || (e - w * f) * c <= (w * c - e) * f then f else c;
    var n := if pick < 1 then 1 else pick;
    NeighbourClose(e, w, n);
    n
  }

  /** The rounded width of a height-limited image fits the image and the box. */
  lemma RoundWidthFits(w: nat, h: nat, maxW: nat, maxH: nat)
    requires w > 0 && h > 0 && maxW > 0 && maxH > 0
    requires !(w <= maxW && h <= maxH) && w * maxH <= maxW * h
    ensures maxH < h && RoundWidth(w, h, maxH) <= w && RoundWidth(w, h, maxH) <= maxW
  {
    var n := RoundWidth(w, h, maxH);
    HeightLimits(w, h, maxW, maxH);
    SideBound(n, h, w * maxH, w);
    SideBound(n, h, w * maxH, maxW);
  }

  /** The rounded height of a width-limited image fits the image and the box. */
  lemma RoundHeightFits(w: nat, h: nat, maxW: nat, maxH: nat)
    requires w > 0 && h > 0 && maxW > 0 && maxH > 0
    requires !(w <= maxW && h <= maxH) && w * maxH > maxW * h
    ensures maxW < w && RoundHeight(w, h, maxW) <= h && RoundHeight(w, h, maxW) <= maxH
  {
    var n := RoundHeight(w, h, maxW);
    assert h * maxW <= maxH * w;
    HeightLimits(h, w, maxH, maxW);
    SideBound(n, w, h * maxW, h);
    SideBound(n, w, h * maxW, maxH);
  }

  /** `PIL.Image.thumbnail(size)`: an image that already fits keeps its size.
      A larger one fills the box along the side that limits it, and the other
      side is the aspect-preserving length rounded to a neighbouring whole
      pixel; it is never enlarged and keeps at least one pixel a side. */
  function ThumbnailSize(w: nat, h: nat, maxW: nat, maxH: nat): (r: (nat, nat))
    requires w > 0 && h > 0 && maxW > 0 && maxH > 0
    ensures w <= maxW && h <= maxH ==> r == (w, h)
    ensures 1 <= r.0 <= w && 1 <= r.1 <= h
    ensures !(w <= maxW && h <= maxH) ==> r.0 <= maxW && r.1 <= maxH
    ensures !(w <= maxW && h <= maxH) && w * maxH <= maxW * h ==> r.1 == maxH && Abs(r.0 * h - w * maxH) < h
    ensures !(w <= maxW && h <= maxH) && w * maxH > maxW * h ==> r.0 == maxW && Abs(r.1 * w - h * maxW) < w
  {
    if w <= maxW && h <= maxH then (w, h)
    else if w * maxH <= maxW * h then
      RoundWidthFits(w, h, maxW, maxH);
      (RoundWidth(w, h, maxH), maxH)
    else
      RoundHeightFits(w, h, maxW, maxH);
      (maxW, RoundHeight(w, h, maxW))
  }

  /** A 10 by 7 picture in a 5 by 5 box becomes 5 by 4: 3.5 rounds to the
      height whose aspect ratio is nearer, not down. */
  lemma ThumbnailRoundsToNearestAspect()
    ensures ThumbnailSize(10, 7, 5, 5) == (5, 4)
    ensures ThumbnailSize(4000, 3000, 300, 200) == (267, 200)
  {
  }

  class PhotoController {
    const photosDirectory: string

    constructor (photosDirectory: string := "assets/photos")
      ensures this.photosDirectory == photosDirectory
    {
      this.photosDirectory := photosDirectory;
    }

    /** `apply_frame(photo, frame_path)`: composites in place and marks the
        photo framed, or leaves it exactly as it was when the path is empty,
        the file is missing, or compositing fails. */
    method ApplyFrame(photo: Photo, framePath: string, frame: FrameFile) returns (result: Photo)
      requires ValidFrameFile(frame)
      requires photo.imageData.Some? ==> WellFormed(photo.imageData.value)
      modifies photo
      ensures result == photo
      ensures photo.width == old(photo.width) && photo.height == old(photo.height)
      ensures photo.timestamp == old(photo.timestamp)
      ensures var out := ApplyFrameToArray(old(photo.imageData), framePath, frame);
              if framePath != "" && Exists(frame) && out.Ok? then
                photo.imageData == out.value && photo.framePath == Some(framePath) && photo.frameApplied
              else
                photo.imageData == old(photo.imageData) && photo.framePath == old(photo.framePath)
                && photo.frameApplied == old(photo.frameApplied)
      ensures old(photo.DimensionsMatch()) ==> photo.DimensionsMatch()
    {
      if framePath == "" || !Exists(frame) {
        return photo;
      }
      var out := ApplyFrameToArray(photo.imageData, framePath, frame);
      if out.Ok? {
        photo.imageData := out.value;
        photo.framePath := Some(framePath);
        photo.frameApplied := true;
      }
      return photo;
    }

    /** `save_photo(photo, filename)`: the path the photo is written to. */
    method SavePhoto(photo: Photo, filename: Option<string> := None) returns (path: string)
      requires filename.None? ==> ValidDateTime(photo.timestamp) && photo.timestamp.year >= 1000
      ensures filename.Some? ==> path == JoinPath(photosDirectory, filename.value)
      ensures filename.Some? && '/' !in filename.value ==> Basename(path) == filename.value
      ensures filename.None? ==> path == JoinPath(photosDirectory, PhotoFileName(photo.timestamp))
      ensures filename.None? ==> ParsePhotoFileName(Basename(path)) == Some(photo.timestamp)
    {
      var name := if filename.None? then PhotoFileName(photo.timestamp) else filename.value;
      if filename.None? {
        PhotoFileNameRoundTrip(photo.timestamp);
      }
      if '/' !in name {
        BasenameOfJoin(photosDirectory, name);
      }
      path := JoinPath(photosDirectory, name);
    }

    /** `get_photo_thumbnail(photo, size)`: the (width, height) of the
        thumbnail; its pixels are the image library's business. */
    method GetPhotoThumbnail(photo: Photo, size: (nat, nat) := (300, 200))
      returns (r: Result<(nat, nat), ImageError>)
      requires size.0 > 0 && size.1 > 0
      ensures r.Ok? <==> photo.imageData.Some? && photo.imageData.value.Picture?
                         && photo.imageData.value.width > 0 && photo.imageData.value.height > 0
      ensures r.Ok? ==> r.value == ThumbnailSize(photo.imageData.value.width, photo.imageData.value.height, size.0, size.1)
      ensures r.Ok? ==> r.value.0 <= photo.imageData.value.width && r.value.1 <= photo.imageData.value.height
      ensures r.Ok? && !(photo.imageData.value.width <= size.0 && photo.imageData.value.height <= size.1) ==>
                r.value.0 <= size.0 && r.value.1 <= size.1
    {
      if photo.imageData.None? || photo.imageData.value.Other? {
        return Err(NotAPicture);
      }
      var picture := photo.imageData.value;
      if picture.width == 0 || picture.height == 0 {
        return Err(EmptyPicture);
      }
      r := Ok(ThumbnailSize(picture.width, picture.height, size.0, size.1));
    }
  }
}
