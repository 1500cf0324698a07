/** The `Photo` record of src/models/photo.py: a pixel buffer, the capture
    time, the frame path it was taken for, and its width and height, which
    are read off the buffer's shape once, when the record is built. */
module Photos {
  import opened Wrappers
  import opened Imaging

  /** `datetime` down to the second. */
  datatype DateTime = DateTime(year: int, month: int, day: int, hour: int, minute: int, second: int)

  predicate ValidDateTime(t: DateTime) {
    1 <= t.year <= 9999 && 1 <= t.month <= 12 && 1 <= t.day <= 31
    && 0 <= t.hour < 24 && 0 <= t.minute < 60 && 0 <= t.second < 60
  }

  /** `image_data is not None and len(image_data.shape) >= 2` */
  predicate HasPlane(data: Option<NdArray>) {
    data.Some? && |Shape(data.value)| >= 2
  }

  class Photo {
    var imageData: Option<NdArray>
    var timestamp: DateTime
    var framePath: Option<string>
    var width: int
    var height: int
    /** Whether the frame has been composited into `imageData`. The source
        sets this attribute without declaring it; here it is declared with
        the default `false`. */
    var frameApplied: bool

    /** Records the buffer height and width as `height` and `width`
        when the buffer has at least two dimensions. */
    predicate DimensionsMatch()
      reads this
    {
      HasPlane(imageData) ==>
        height == Shape(imageData.value)[0] && width == Shape(imageData.value)[1]
    }

    /** The dataclass constructor followed by `__post_init__`. */
    constructor (imageData: Option<NdArray>, timestamp: DateTime,
                 framePath: Option<string> := None, width: int := 0, height: int := 0)
      ensures this.imageData == imageData && this.timestamp == timestamp
      ensures this.framePath == framePath && !frameApplied
      ensures HasPlane(imageData) ==>
                this.height == Shape(imageData.value)[0] && this.width == Shape(imageData.value)[1]
      ensures !HasPlane(imageData) ==> this.height == height && this.width == width
      ensures DimensionsMatch()
    {
      this.imageData := imageData;
      this.timestamp := timestamp;
      this.framePath := framePath;
      this.width := width;
      this.height := height;
      this.frameApplied := false;
      new;
      if HasPlane(imageData) {
        var shape := Shape(imageData.value);
        this.height := shape[0];
        this.width := shape[1];
      }
    }

    /** Plain assignment of `photo.image_data`: the dimensions are not
        derived again. */
    method SetImageData(data: Option<NdArray>)
      modifies this
      ensures imageData == data
      ensures width == old(width) && height == old(height)
      ensures timestamp == old(timestamp) && framePath == old(framePath)
      ensures frameApplied == old(frameApplied)
    {
      imageData := data;
    }
  }
}
