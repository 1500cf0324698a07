/** src/controllers/dslr_controller.py: a DSLR driven through the gphoto2
    command-line tool. Running the tool and the temporary file it writes are
    oracles: their outcomes are parameters of the operations. */
module Dslr {
  import opened Wrappers
  import opened Text
  import opened Imaging
  import opened Photos

  /** How one run of the gphoto2 binary ended: it completed (whatever its exit
      status) with the captured output, the binary was not found, it timed
      out, or another exception was raised with the given message. */
  datatype RunOutcome =
    | Completed(stdout: string, stderr: string)
    | NotFound(message: string)
    | TimedOut
    | Failed(message: string)

  /** The temporary image file after the run: absent, empty, present but not
      decodable (with the decoder's message), or a decoded RGB picture. */
  datatype TempFile = Absent | Empty | Undecodable(message: string) | Jpeg(picture: NdArray)

  predicate ValidTempFile(f: TempFile) {
    f.Jpeg? ==> f.picture.Picture? && WellFormed(f.picture)
  }

  const DefaultBinary: string := "gphoto2"
  const NoCameraMessage: string := "Aucun appareil détecté par gphoto2"
  const StartTimeoutMessage: string := "gphoto2 n'a pas répondu (timeout)"
  const CaptureTimeoutMessage: string := "Délai dépassé lors de la capture"
  const NoFileMessage: string := "Aucun fichier reçu"

  function NotFoundMessage(path: string): string {
    "gphoto2 introuvable : " + path
  }

  /** Whether a line of the auto-detect listing names a camera: it is not
      blank and is none of the header lines. */
  predicate IsCameraLine(stripped: string) {
    stripped != [] && !Contains(stripped, "-----") && !Contains(stripped, "Model") && !Contains(stripped, "Port")
  }

  /** Each line with surrounding whitespace removed. */
  function StrippedLines(lines: seq<string>): (r: seq<string>)
    ensures |r| == |lines| && forall i :: 0 <= i < |lines| ==> r[i] == Strip(lines[i])
  {
    seq(|lines|, i requires 0 <= i < |lines| => Strip(lines[i]))
  }

  /** The camera lines among already stripped lines, in order. */
  function CameraLines(stripped: seq<string>): seq<string> {
    if stripped == [] then []
    else
      var rest := CameraLines(stripped[..|stripped| - 1]);
      var last := stripped[|stripped| - 1];
      if IsCameraLine(last) then rest + [last] else rest
  }

  /** The camera entries among `lines`, each stripped of surrounding
      whitespace, in order. */
  function CameraEntries(lines: seq<string>): seq<string> {
    CameraLines(StrippedLines(lines))
  }

  /** The filter keeps only camera lines, each taken from its input, and
      never yields more than it is given. */
  lemma {:induction false} CameraLinesSound(stripped: seq<string>)
    ensures |CameraLines(stripped)| <= |stripped|
    ensures forall c :: c in CameraLines(stripped) ==> IsCameraLine(c) && c in stripped
  {
    if stripped != [] {
      var init := stripped[..|stripped| - 1];
      CameraLinesSound(init);
      assert forall c :: c in init ==> c in stripped;
    }
  }

  /** The filter drops no camera line. */
  lemma {:induction false} CameraLinesComplete(stripped: seq<string>, i: nat)
    requires i < |stripped| && IsCameraLine(stripped[i])
    ensures stripped[i] in CameraLines(stripped)
  {
    var init := stripped[..|stripped| - 1];
    if i < |init| {
      assert stripped[i] == init[i];
      CameraLinesComplete(init, i);
    }
  }

  /** Every entry is a stripped camera line, and there are never more
      entries than lines. */
  lemma CameraEntriesAreCameraLines(lines: seq<string>)
    ensures |CameraEntries(lines)| <= |lines|
    ensures forall c :: c in CameraEntries(lines) ==> IsCameraLine(c) && Strip(c) == c
  {
    var stripped := StrippedLines(lines);
    CameraLinesSound(stripped);
    forall c | c in CameraEntries(lines) ensures Strip(c) == c {
      var i :| 0 <= i < |stripped| && stripped[i] == c;
      StripIdempotent(lines[i]);
    }
  }

  /** Every entry comes from one of the input lines. */
  lemma CameraEntriesComeFromLines(lines: seq<string>)
    ensures forall c :: c in CameraEntries(lines) ==> exists i :: 0 <= i < |lines| && Strip(lines[i]) == c
  {
    var stripped := StrippedLines(lines);
    CameraLinesSound(stripped);
    forall c | c in CameraEntries(lines) ensures exists i :: 0 <= i < |lines| && Strip(lines[i]) == c {
      var i :| 0 <= i < |stripped| && stripped[i] == c;
      assert Strip(lines[i]) == c;
    }
  }

  /** No camera line is dropped. */
  lemma CameraEntriesKeepCameraLines(lines: seq<string>, i: nat)
    requires i < |lines| && IsCameraLine(Strip(lines[i]))
    ensures Strip(lines[i]) in CameraEntries(lines)
  {
    CameraLinesComplete(StrippedLines(lines), i);
  }

  /** `_parse_camera_list(stdout)`. */
  method ParseCameraList(stdout: string) returns (cameras: seq<string>)
    ensures cameras == CameraEntries(SplitLines(Strip(stdout)))
    ensures forall c :: c in cameras ==> IsCameraLine(c) && Strip(c) == c
  {
    var lines := SplitLines(Strip(stdout));
    cameras := CollectCameraLines(lines);
    CameraEntriesAreCameraLines(lines);
  }

  /** The loop of `_parse_camera_list` over the listing's lines. */
  method CollectCameraLines(lines: seq<string>) returns (cameras: seq<string>)
    ensures cameras == CameraEntries(lines)
  {
    ghost var all := StrippedLines(lines);
    cameras := [];
    for n := 0 to |lines|
      invariant cameras == CameraLines(all[..n])
    {
      ghost var prefix := all[..n + 1];
      assert prefix[..|prefix| - 1] == all[..n];
      var stripped := Strip(lines[n]);
      assert prefix[|prefix| - 1] == stripped;
      assert CameraLines(prefix) == CameraLines(all[..n]) + (if IsCameraLine(stripped) then [stripped] else []);
      if IsCameraLine(stripped) {
        cameras := cameras + [stripped];
      }
    }
    assert all[..|lines|] == all;
  }

  /** `detect_cameras(gphoto2_path)`: the cameras the auto-detect run lists,
      and none when the run fails in any way. */
  method DetectCameras(outcome: RunOutcome) returns (cameras: seq<string>)
    ensures !outcome.Completed? ==> cameras == []
    ensures outcome.Completed? ==> cameras == CameraEntries(SplitLines(Strip(outcome.stdout)))
  {
    if outcome.Completed? {
      cameras := ParseCameraList(outcome.stdout);
    } else {
      cameras := [];
    }
  }

  /** The message `capture_photo` records when the run completed without
      producing a usable photo: the decoder's message when the file could not
      be decoded, otherwise the tool's stripped error output, or a fixed
      message when that is blank. Outside the decoder case the message is
      never blank and has no surrounding whitespace. */
  function MissingFileError(stderr: string, file: TempFile): (m: string)
    ensures file.Undecodable? ==> m == file.message
    ensures !file.Undecodable? ==> m != [] && !IsSpace(m[0]) && !IsSpace(m[|m| - 1])
    ensures !file.Undecodable? && !AllSpace(stderr) ==> m == Strip(stderr)
  {
    StripIsTrimmedSlice(stderr);
    StripEnds(stderr);
    StripEmptyIffAllSpace(stderr);
    if file.Undecodable? then file.message
    else if Strip(stderr) != [] then Strip(stderr) else NoFileMessage
  }

  class DslrController {
    const binary: string
    var isActive: bool
    var lastError: string

    /** An empty path falls back to the default binary name. */
    constructor (gphoto2Path: string := DefaultBinary)
      ensures binary == (if gphoto2Path == [] then DefaultBinary else gphoto2Path)
      ensures !isActive && lastError == []
    {
      binary := if gphoto2Path == [] then DefaultBinary else gphoto2Path;
      isActive := false;
      lastError := [];
    }

    /** `start()`: active exactly when auto-detect lists at least one camera;
        every failure records its reason. */
    method Start(outcome: RunOutcome) returns (ok: bool)
      modifies this
      ensures ok <==> outcome.Completed? && CameraEntries(SplitLines(Strip(outcome.stdout))) != []
      ensures outcome.Completed? ==> isActive == ok
      ensures !outcome.Completed? ==> isActive == old(isActive)
      ensures ok ==> lastError == old(lastError)
      ensures outcome.Completed? && !ok ==> lastError == NoCameraMessage
      ensures outcome.NotFound? ==> lastError == NotFoundMessage(binary)
      ensures outcome.TimedOut? ==> lastError == StartTimeoutMessage
      ensures outcome.Failed? ==> lastError == outcome.message
    {
      match outcome {
        case Completed(stdout, _) =>
          var cameras := ParseCameraList(stdout);
          isActive := |cameras| > 0;
          if !isActive {
            lastError := NoCameraMessage;
          }
          ok := isActive;
        case NotFound(_) =>
          lastError := NotFoundMessage(binary);
          ok := false;
        case TimedOut =>
          lastError := StartTimeoutMessage;
          ok := false;
        case Failed(message) =>
          lastError := message;
          ok := false;
      }
    }

    method Stop()
      modifies this
      ensures !isActive && lastError == old(lastError)
    {
      isActive := false;
    }

    /** `get_frame()`: a live-view preview. It does not look at `isActive`
        and records no error. */
    method GetFrame(outcome: RunOutcome, file: TempFile) returns (frame: Option<NdArray>)
      requires ValidTempFile(file)
      ensures frame.Some? <==> outcome.Completed? && file.Jpeg?
      ensures frame.Some? ==> frame.value == file.picture && WellFormed(frame.value) && frame.value.Picture?
    {
      if outcome.Completed? && file.Jpeg? {
        return Some(file.picture);
      }
      return None;
    }

    /** `capture_photo(frame_path)`: a fresh photo of the downloaded image
        taken at `now`; otherwise `null` with the reason in `lastError`. */
    method CapturePhoto(framePath: Option<string>, outcome: RunOutcome, file: TempFile, now: DateTime)
      returns (photo: Photo?)
      requires ValidTempFile(file)
      modifies this
      ensures isActive == old(isActive)
      ensures photo != null <==> outcome.Completed? && file.Jpeg?
      ensures photo != null ==>
                fresh(photo) && lastError == old(lastError)
                && photo.imageData == Some(file.picture) && photo.framePath == framePath
                && photo.timestamp == now && !photo.frameApplied && photo.DimensionsMatch()
      ensures outcome.Completed? && !file.Jpeg? ==> lastError == MissingFileError(outcome.stderr, file)
      ensures outcome.TimedOut? ==> lastError == CaptureTimeoutMessage
      ensures outcome.NotFound? ==> lastError == outcome.message
      ensures outcome.Failed? ==> lastError == outcome.message
    {
      photo := null;
      match outcome {
        case Completed(_, stderr) =>
          if file.Jpeg? {
            photo := new Photo(Some(file.picture), now, framePath);
          } else {
            lastError := MissingFileError(stderr, file);
          }
        case TimedOut =>
          lastError := CaptureTimeoutMessage;
        case NotFound(message) =>
          lastError := message;
        case Failed(message) =>
          lastError := message;
      }
    }
  }
}
