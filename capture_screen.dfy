/** src/views/capture_screen.py: the capture screen's countdown. Timer
    callbacks are discrete events: a click of the capture button, a tick of
    the one-second countdown timer, and the firing of the half-second
    single-shot that takes the picture. Widgets and painting are left out;
    the overlay text and the button geometry are modelled as values. */
module Capture {
  import opened Wrappers
  import opened Text
  import opened Imaging
  import opened Photos
  import opened PhotoControl
  import opened Camera

  const ReadyTitle: string := "Préparez-vous!"
  const UnavailableTitle: string := "Caméra indisponible"
  const CameraGlyph: string := "\U{1F4F7}"
  const CountdownStart: int := 3

  /** The part of the screen the countdown drives: the countdown value,
      `is_capturing`, the capture button's enabled flag, whether the
      countdown timer runs, and how many single-shot captures are scheduled
      but have not fired yet. */
  datatype Phase = Phase(countdown: int, capturing: bool, buttonEnabled: bool, timerActive: bool, pending: nat)

  /** The phase of a freshly built screen (Qt buttons start enabled). */
  const InitialPhase: Phase := Phase(0, false, true, false, 0)

  /** `start_countdown`. */
  function StartCountdown(p: Phase): Phase {
    p.(countdown := CountdownStart, capturing := true, buttonEnabled := false, timerActive := true)
  }

  /** A click on the capture button: Qt delivers it only when the button
      is enabled. */
  function Click(p: Phase): Phase {
    if p.buttonEnabled then StartCountdown(p) else p
  }

  /** `update_countdown`, delivered only while the countdown timer runs. */
  function Tick(p: Phase): Phase
    requires p.timerActive
  {
    var c := p.countdown - 1;
    if c > 0 then p.(countdown := c)
    else p.(countdown := c, timerActive := false, pending := p.pending + 1)
  }

  /** The part of `capture_photo` that resets the screen, after one of the
      scheduled single-shots fires. */
  function Fire(p: Phase): Phase
    requires p.pending > 0
  {
    p.(pending := p.pending - 1, buttonEnabled := true, capturing := false)
  }

  /** `stop_camera`: only the button is touched. */
  function Stop(p: Phase): Phase {
    p.(buttonEnabled := true)
  }

  /** `n` ticks of the countdown timer, or fewer if it stops first. */
  function Ticks(p: Phase, n: nat): Phase
    decreases n
  {
    if n == 0 || !p.timerActive then p else Ticks(Tick(p), n - 1)
  }

  /** A click starts a three-second countdown: the button is disabled and
      the screen is capturing; the first two ticks only count down, and the
      third stops the timer and schedules exactly one capture, after which
      further ticks change nothing. */
  lemma {:induction false} CountdownRun(p: Phase, n: nat)
    requires p.buttonEnabled
    ensures var s := Click(p);
            s.countdown == 3 && s.capturing && !s.buttonEnabled && s.timerActive && s.pending == p.pending
    ensures n < 3 ==> Ticks(Click(p), n) == Click(p).(countdown := 3 - n)
    ensures n >= 3 ==> Ticks(Click(p), n) == Click(p).(countdown := 0, timerActive := false, pending := p.pending + 1)
  {
    var s := Click(p);
    var s3 := s.(countdown := 0, timerActive := false, pending := p.pending + 1);
    assert Ticks(s, 0) == s;
    if n >= 1 {
      assert Tick(s) == s.(countdown := 2);
      assert Ticks(s, 1) == Ticks(s.(countdown := 2), 0);
    }
    if n >= 2 {
      assert Tick(s.(countdown := 2)) == s.(countdown := 1);
      assert Ticks(s, 2) == Ticks(s.(countdown := 1), 0);
    }
    if n >= 3 {
      assert Tick(s.(countdown := 1)) == s3;
      assert Ticks(s, n) == Ticks(s3, n - 3) by {
        assert Ticks(s, n) == Ticks(s.(countdown := 2), n - 1);
        assert Ticks(s.(countdown := 2), n - 1) == Ticks(s.(countdown := 1), n - 2);
        assert Ticks(s.(countdown := 1), n - 2) == Ticks(s3, n - 3);
      }
    }
  }

  /** The states the countdown goes through when nothing but clicks, ticks
      and captures happen: idle with no capture scheduled; counting down
      from 3 with the button disabled; or waiting for the one scheduled
      capture. */
  predicate Consistent(p: Phase) {
    (!p.capturing && !p.timerActive && p.pending == 0)
    || (p.capturing && !p.buttonEnabled && p.timerActive && 1 <= p.countdown <= CountdownStart && p.pending == 0)
    || (p.capturing && !p.buttonEnabled && !p.timerActive && p.countdown == 0 && p.pending == 1)
  }

  /** Disabling the button during a countdown is what keeps sessions from
      overlapping: clicks, ticks, captures and a camera that cannot open
      keep the phase consistent, so at most one capture is ever pending and
      each capture ends the session it belongs to. */
  lemma ClicksTicksAndCapturesKeepConsistent(p: Phase)
    requires Consistent(p)
    ensures p.pending <= 1
    ensures Consistent(Click(p))
    ensures p.timerActive ==> Consistent(Tick(p))
    ensures p.pending > 0 ==> Consistent(Fire(p)) && Fire(p).pending == 0 && Fire(p).buttonEnabled
    ensures Consistent(p.(buttonEnabled := false))
  {
  }

  /** `stop_camera` re-enables the button without ending the countdown, so
      a second session can start while the first one's capture is pending.
      The first capture fires 500 ms after the third tick, before the second
      countdown's first tick a second after the click: it ends the second
      session's `is_capturing` and re-enables the button while the countdown
      timer still runs. That countdown then runs out with no overlay shown
      and still schedules a capture. */
  lemma StopAllowsOverlappingSessions()
    ensures Consistent(InitialPhase)
    ensures var first := Ticks(Click(InitialPhase), 3);
            var second := Fire(Click(Stop(first)));
            first.pending == 1 && !Consistent(second)
            && second.timerActive && second.buttonEnabled && !second.capturing
            && Ticks(second, 3) == Phase(0, false, true, false, 1)
  {
    CountdownRun(InitialPhase, 3);
    var first := Ticks(Click(InitialPhase), 3);
    assert first == Phase(0, true, false, false, 1);
    var second := Fire(Click(Stop(first)));
    assert second == Phase(3, false, true, true, 0);
    assert Ticks(second, 3) == Ticks(Phase(2, false, true, true, 0), 2);
    assert Ticks(Phase(2, false, true, true, 0), 2) == Ticks(Phase(1, false, true, true, 0), 1);
    assert Ticks(Phase(1, false, true, true, 0), 1) == Ticks(Phase(0, false, true, false, 1), 0);
  }

  /** The text drawn over the preview by `update_frame`: nothing unless
      capturing, then the countdown while it is positive, then the camera
      glyph. */
  function OverlayText(capturing: bool, countdown: int): (r: Option<string>)
    ensures r.Some? <==> capturing
    ensures capturing && countdown > 0 ==> r == Some(Digits(countdown)) && ParseDecimal(r.value) == Some(countdown)
    ensures capturing && countdown <= 0 ==> r == Some(CameraGlyph)
  {
    if !capturing then None
    else if countdown > 0 then (DecimalOfDigits(countdown); Some(Digits(countdown)))
    else Some(CameraGlyph)
  }

  /** The geometry `update_capture_button_style` gives the round button:
      diameter, corner radius, border width and font size. */
  datatype ButtonGeometry = ButtonGeometry(diameter: int, radius: int, border: int, fontSize: int)

  function ButtonStyle(requested: int): (g: ButtonGeometry)
    ensures 150 <= g.diameter <= 240
    ensures 150 <= requested <= 240 ==> g.diameter == requested
    ensures requested < 150 ==> g.diameter == 150
    ensures requested > 240 ==> g.diameter == 240
    ensures g.diameter - 1 <= 2 * g.radius <= g.diameter
    ensures 5 <= g.border <= 8 && 30 * g.border <= g.diameter
    ensures g.fontSize == g.radius && 75 <= g.fontSize <= 120
  {
    var d := if requested < 150 then 150 else if requested > 240 then 240 else requested;
    var border := if d / 30 < 5 then 5 else d / 30;
    var font := if d / 2 < 54 then 54 else d / 2;
    ButtonGeometry(d, d / 2, border, font)
  }

  class CaptureScreen {
    const camera: CameraController
    const photoController: PhotoController
    var selectedFrame: Option<string>
    var countdown: int
    var isCapturing: bool
    var buttonEnabled: bool
    var countdownTimerActive: bool
    var pendingCaptures: nat
    var previewTimerActive: bool
    var previewCache: map<string, NdArray>
    var title: string
    /** Photos sent with `photo_captured`, in order. */
    var captured: seq<Photo>
    /** How many "capture failed" messages were shown. */
    var failures: nat

    function Current(): Phase
      reads this
    {
      Phase(countdown, isCapturing, buttonEnabled, countdownTimerActive, pendingCaptures)
    }

    /** A selected frame is never the empty path. */
    predicate Valid()
      reads this
    {
      selectedFrame.Some? ==> selectedFrame.value != []
    }

    constructor (camera: CameraController, photoController: PhotoController)
      ensures this.camera == camera && this.photoController == photoController
      ensures Current() == InitialPhase && selectedFrame == None && !previewTimerActive
      ensures previewCache == map[] && title == ReadyTitle && captured == [] && failures == 0
      ensures Valid()
    {
      this.camera := camera;
      this.photoController := photoController;
      selectedFrame := None;
      countdown := 0;
      isCapturing := false;
      buttonEnabled := true;
      countdownTimerActive := false;
      pendingCaptures := 0;
      previewTimerActive := false;
      previewCache := map[];
      title := ReadyTitle;
      captured := [];
      failures := 0;
    }

    /** `set_frame(frame_path)`: an empty path selects no frame; the
        preview cache is emptied. */
    method SetFrame(framePath: string)
      modifies this
      ensures selectedFrame == (if framePath == [] then None else Some(framePath))
      ensures previewCache == map[] && Valid()
      ensures Current() == old(Current()) && captured == old(captured) && failures == old(failures)
      ensures title == old(title) && previewTimerActive == old(previewTimerActive)
    {
      selectedFrame := if framePath == [] then None else Some(framePath);
      previewCache := map[];
    }

    /** `start_camera()`: does nothing when the camera is already active;
        otherwise starts the preview when the camera opens, and disables
        the capture button when it does not. */
    method StartCamera(outcome: OpenOutcome)
      requires Valid()
      modifies this, camera
      ensures old(camera.isActive) ==> Current() == old(Current()) && title == old(title)
                                       && previewTimerActive == old(previewTimerActive)
      ensures !old(camera.isActive) && outcome == Opened ==>
                camera.isActive && previewTimerActive && title == ReadyTitle && Current() == old(Current())
      ensures !old(camera.isActive) && outcome != Opened ==>
                Current() == old(Current()).(buttonEnabled := false) && title == UnavailableTitle
                && previewTimerActive == old(previewTimerActive)
      ensures selectedFrame == old(selectedFrame) && captured == old(captured) && failures == old(failures)
      ensures Valid()
    {
      if !camera.isActive {
        var ok := camera.Start(outcome);
        if ok {
          title := ReadyTitle;
          previewTimerActive := true;
        } else {
          buttonEnabled := false;
          title := UnavailableTitle;
        }
      }
    }

    /** `stop_camera()`: stops the preview and the camera and re-enables
        the button, leaving the countdown, `is_capturing` and the countdown
        timer as they were. */
    method StopCamera()
      requires Valid()
      modifies this, camera
      ensures Current() == Stop(old(Current()))
      ensures !previewTimerActive
      ensures old(camera.device).Some? ==> !camera.isActive
      ensures selectedFrame == old(selectedFrame) && captured == old(captured) && failures == old(failures)
      ensures title == old(title) && Valid()
    {
      previewTimerActive := false;
      camera.Stop();
      buttonEnabled := true;
    }

    /** A click of the enabled capture button runs `start_countdown()`. */
    method OnCaptureClicked()
      modifies this
      ensures Current() == Click(old(Current()))
      ensures selectedFrame == old(selectedFrame) && captured == old(captured) && failures == old(failures)
      ensures title == old(title) && previewTimerActive == old(previewTimerActive)
    {
      if buttonEnabled {
        countdown := CountdownStart;
        isCapturing := true;
        buttonEnabled := false;
        countdownTimerActive := true;
      }
    }

    /** `update_countdown()`, on a tick of the running countdown timer. */
    method UpdateCountdown()
      requires countdownTimerActive
      modifies this
      ensures Current() == Tick(old(Current()))
      ensures selectedFrame == old(selectedFrame) && captured == old(captured) && failures == old(failures)
      ensures title == old(title) && previewTimerActive == old(previewTimerActive)
    {
      countdown := countdown - 1;
      if countdown > 0 {
        return;
      }
      countdownTimerActive := false;
      pendingCaptures := pendingCaptures + 1;
    }

    /** `capture_photo()`, when a scheduled single-shot fires: `read` is
        what the camera delivers, `now` the clock and `frame` the selected
        frame file. The photo is sent iff the camera gave one, framed only
        when a frame is selected; either way the button is re-enabled and
        capturing ends. */
    method CapturePhoto(read: Option<NdArray>, now: DateTime, frame: FrameFile) returns (photo: Photo?)
      requires pendingCaptures > 0 && Valid()
      requires read.Some? ==> read.value.Picture? && WellFormed(read.value)
      requires ValidFrameFile(frame)
      modifies this
      ensures Current() == Fire(old(Current()))
      ensures photo == null <==> !(camera.Readable() && read.Some?)
      ensures photo == null ==> captured == old(captured) && failures == old(failures) + 1
      ensures photo != null ==>
                fresh(photo) && captured == old(captured) + [photo] && failures == old(failures)
                && photo.timestamp == now && photo.DimensionsMatch()
      ensures photo != null && selectedFrame.None? ==>
                photo.framePath == None && !photo.frameApplied
                && photo.imageData == Some(Picture(read.value.height, read.value.width, SwapRedBlue(read.value.pixels)))
      ensures photo != null && selectedFrame.Some? ==>
                (photo.frameApplied <==> Exists(frame) && ApplyFrameToArray(
                   Some(Picture(read.value.height, read.value.width, SwapRedBlue(read.value.pixels))), selectedFrame.value, frame).Ok?)
      ensures selectedFrame == old(selectedFrame) && title == old(title) && previewTimerActive == old(previewTimerActive)
      ensures Valid()
    {
      pendingCaptures := pendingCaptures - 1;
      photo := camera.CapturePhoto(selectedFrame, read, now);
      if photo != null {
        if selectedFrame.Some? && selectedFrame.value != [] {
          photo := photoController.ApplyFrame(photo, selectedFrame.value, frame);
        }
        captured := captured + [photo];
      } else {
        failures := failures + 1;
      }
      buttonEnabled := true;
      isCapturing := false;
    }
  }
}
