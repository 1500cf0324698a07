/** src/controllers/camera_controller.py: a webcam reached through the
    computer-vision library. The device is an oracle: whether opening it
    succeeds and what a read returns are parameters of the operations. */
module Camera {
  import opened Wrappers
  import opened Text
  import opened Imaging
  import opened Photos

  /** The capture handle held in `self.camera`: the index it was opened on and
      whether it is open (a handle that failed to open, or was released, is
      not). */
  datatype Device = Device(id: int, open: bool)

  /** What constructing the capture handle did. */
  datatype OpenOutcome = Opened | NotOpened | Raised

  /** `f"Camera {i}"` */
  function CameraName(i: nat): string {
    "Camera " + Digits(i)
  }

  /** The cameras found when probing indices 0 .. n-1, where `opens[i]` tells
      whether index i opened. */
  function Probe(opens: seq<bool>, n: nat): seq<(int, string)>
    requires n <= |opens|
  {
    if n == 0 then []
    else Probe(opens, n - 1) + (if opens[n - 1] then [(n - 1, CameraName(n - 1))] else [])
  }

  /** Every entry probing lists is an index below n that opened, under its own
      name. */
  lemma {:induction false} ProbeEntriesOpened(opens: seq<bool>, n: nat)
    requires n <= |opens|
    ensures forall k :: 0 <= k < |Probe(opens, n)| ==>
              0 <= Probe(opens, n)[k].0 < n && opens[Probe(opens, n)[k].0]
              && Probe(opens, n)[k].1 == CameraName(Probe(opens, n)[k].0)
  {
    if n > 0 {
      ProbeEntriesOpened(opens, n - 1);
      var prev := Probe(opens, n - 1);
      var r := Probe(opens, n);
      forall k | 0 <= k < |r|
        ensures 0 <= r[k].0 < n && opens[r[k].0] && r[k].1 == CameraName(r[k].0)
      {
        if k < |prev| {
          assert r[k] == prev[k];
        }
      }
    }
  }

  /** Probing lists indices in strictly ascending order, so none twice. */
  lemma {:induction false} ProbeAscending(opens: seq<bool>, n: nat)
    requires n <= |opens|
    ensures forall a, b :: 0 <= a < b < |Probe(opens, n)| ==> Probe(opens, n)[a].0 < Probe(opens, n)[b].0
  {
    if n > 0 {
      ProbeAscending(opens, n - 1);
      ProbeEntriesOpened(opens, n - 1);
      var prev := Probe(opens, n - 1);
      var r := Probe(opens, n);
      forall a, b | 0 <= a < b < |r| ensures r[a].0 < r[b].0 {
        assert r[a] == prev[a];
        if b < |prev| {
          assert r[b] == prev[b];
        } else {
          assert r[b].0 == n - 1;
        }
      }
    }
  }

  /** Every index below n that opened is listed. */
  lemma {:induction false} ProbeFindsOpened(opens: seq<bool>, n: nat)
    requires n <= |opens|
    ensures forall i :: 0 <= i < n && opens[i] ==> (i, CameraName(i)) in Probe(opens, n)
  {
    if n > 0 {
      ProbeFindsOpened(opens, n - 1);
      var prev := Probe(opens, n - 1);
      var r := Probe(opens, n);
      assert r[..|prev|] == prev;
      forall i | 0 <= i < n && opens[i] ensures (i, CameraName(i)) in r {
        if i < n - 1 {
          assert (i, CameraName(i)) in r[..|prev|];
        } else {
          assert r[|r| - 1] == (i, CameraName(i));
        }
      }
    }
  }

  class CameraController {
    const deviceId: int
    const resolution: (int, int)
    var device: Option<Device>
    var isActive: bool

    constructor (deviceId: int := 0, resolution: (int, int) := (1920, 1080))
      ensures this.deviceId == deviceId && this.resolution == resolution
      ensures device == None && !isActive
    {
      this.deviceId := deviceId;
      this.resolution := resolution;
      device := None;
      isActive := false;
    }

    /** Whether a read reaches the device. */
    predicate Readable()
      reads this
    {
      isActive && device.Some? && device.value.open
    }

    /** `start()`: opens a fresh handle on `deviceId`. Only a handle that opens
        makes the controller active; a failure leaves `isActive` as it was. */
    method Start(outcome: OpenOutcome) returns (ok: bool)
      modifies this
      ensures ok <==> outcome == Opened
      ensures ok ==> isActive && device == Some(Device(deviceId, true))
      ensures outcome == NotOpened ==> device == Some(Device(deviceId, false)) && isActive == old(isActive)
      ensures outcome == Raised ==> device == old(device) && isActive == old(isActive)
    {
      if outcome == Raised {
        return false;
      }
      device := Some(Device(deviceId, outcome == Opened));
      if outcome == NotOpened {
        return false;
      }
      isActive := true;
      return true;
    }

    /** `stop()`: releases the handle, if there is one, and only then becomes
        inactive. */
    method Stop()
      modifies this
      ensures old(device).Some? ==> !isActive && device == Some(Device(old(device).value.id, false))
      ensures old(device).None? ==> isActive == old(isActive) && device == None
    {
      if device.Some? {
        device := Some(Device(device.value.id, false));
        isActive := false;
      }
    }

    /** `get_frame()`, where `read` is what the device delivers (in BGR order)
        or `None` when the read fails. */
    method GetFrame(read: Option<NdArray>) returns (frame: Option<NdArray>)
      requires read.Some? ==> read.value.Picture? && WellFormed(read.value)
      ensures !isActive || device.None? ==> frame == None
      ensures frame.Some? <==> Readable() && read.Some?
      ensures frame.Some? ==> frame.value.Picture? && WellFormed(frame.value)
                              && Shape(frame.value) == Shape(read.value)
                              && frame.value.pixels == SwapRedBlue(read.value.pixels)
    {
      if !isActive || device.None? {
        return None;
      }
      if !device.value.open || read.None? {
        return None;
      }
      var raw := read.value;
      frame := Some(Picture(raw.height, raw.width, SwapRedBlue(raw.pixels)));
    }

    /** `capture_photo(frame_path)`: a fresh photo of the current frame taken
        at `now`, or `null` exactly when `get_frame` gives nothing. */
    method CapturePhoto(framePath: Option<string>, read: Option<NdArray>, now: DateTime) returns (photo: Photo?)
      requires read.Some? ==> read.value.Picture? && WellFormed(read.value)
      ensures photo == null <==> !(Readable() && read.Some?)
      ensures photo != null ==>
                fresh(photo) && photo.framePath == framePath && photo.timestamp == now && !photo.frameApplied
                && photo.imageData == Some(Picture(read.value.height, read.value.width, SwapRedBlue(read.value.pixels)))
                && WellFormed(photo.imageData.value)
                && photo.height == read.value.height && photo.width == read.value.width
                && photo.DimensionsMatch()
    {
      var frame := GetFrame(read);
      if frame.None? {
        return null;
      }
      photo := new Photo(frame, now, framePath);
    }

    /** `list_available_cameras()`, where `opens[i]` tells whether index i
        opened when probed. */
    static method ListAvailableCameras(opens: seq<bool>) returns (cameras: seq<(int, string)>)
      requires |opens| == 10
      ensures cameras == Probe(opens, 10)
      ensures forall k :: 0 <= k < |cameras| ==>
                0 <= cameras[k].0 < 10 && opens[cameras[k].0] && cameras[k].1 == CameraName(cameras[k].0)
      ensures forall a, b :: 0 <= a < b < |cameras| ==> cameras[a].0 < cameras[b].0
      ensures forall i :: 0 <= i < 10 && opens[i] ==> (i, CameraName(i)) in cameras
    {
      cameras := [];
      for i := 0 to 10
        invariant cameras == Probe(opens, i)
      {
        if opens[i] {
          cameras := cameras + [(i, CameraName(i))];
        }
      }
      ProbeEntriesOpened(opens, 10);
      ProbeAscending(opens, 10);
      ProbeFindsOpened(opens, 10);
    }
  }
}
