/** main.py: the main window's event handlers. The window holds the loaded
    configuration, the photo controller and the capture and preview screens;
    the OneDrive upload and the screen switching are recorded rather than
    performed. */
module Photobooth {
  import opened Wrappers
  import opened Text
  import opened Imaging
  import opened Photos
  import opened PhotoControl
  import opened Capture
  import opened Preview
  import opened Config

  datatype Screen = HomeView | CaptureView | GalleryView | PreviewView | AdminView

  /** The keys the window handles itself; every other key is `Other`. */
  datatype Key = F11 | Escape | Other(code: int)

  /** The frame to restore at start-up or after the settings are saved: the
      last selected one, unless its file has gone, in which case none. */
  function RestoredFrame(lastSelected: string, fileExists: bool): (r: string)
    ensures r == [] || (r == lastSelected && fileExists)
    ensures lastSelected != [] && fileExists ==> r == lastSelected
  {
    if lastSelected != [] && !fileExists then [] else lastSelected
  }

  /** A frame chosen and saved comes back on the next start: the saved
      configuration loads with that frame, and the restore keeps it while
      its file exists. */
  lemma SelectedFrameSurvivesRestart(c: AppConfig, framePath: string)
    ensures Load(Parsed(Save(c.(lastSelectedFrame := framePath)))) == Ok(c.(lastSelectedFrame := framePath))
    ensures RestoredFrame(Load(Parsed(Save(c.(lastSelectedFrame := framePath)))).value.lastSelectedFrame, true) == framePath
  {
    LoadSaveRoundTrip(c.(lastSelectedFrame := framePath));
  }

  /** Whether the window composites the photo's frame itself: only when the
      photo names a frame that has not been applied yet. */
  predicate NeedsFrame(framePath: Option<string>, frameApplied: bool) {
    framePath.Some? && framePath.value != [] && !frameApplied
  }

  /** `photo.frame_applied` as the code reads it: the attribute exists only
      once `apply_frame` has succeeded on the photo, since the `Photo`
      dataclass does not declare it. */
  function FrameAppliedAttribute(applied: bool): Option<bool> {
    if applied then Some(true) else None
  }

  /** The test at the top of `on_photo_captured` as written: reading the
      missing attribute raises `AttributeError`. */
  function ReapplyDecisionAsWritten(framePath: Option<string>, attribute: Option<bool>): Result<bool, string> {
    if framePath.None? || framePath.value == [] then Ok(false)
    else match attribute
      case None => Err("AttributeError")
      case Some(applied) => Ok(!applied)
  }

  /** As written, the test raises exactly when the frame still has to be
      applied, and otherwise always says no: the re-application branch can
      never run, and a photo whose frame could not be applied is never saved,
      uploaded or shown. */
  lemma AsWrittenRaisesWhenFrameNeeded(framePath: Option<string>, applied: bool)
    ensures ReapplyDecisionAsWritten(framePath, FrameAppliedAttribute(applied)).Err?
            <==> NeedsFrame(framePath, applied)
    ensures ReapplyDecisionAsWritten(framePath, FrameAppliedAttribute(applied)) != Ok(true)
  {
  }

  /** The counterexample: a photo taken with a frame whose file was
      removed after it was picked. `apply_frame` leaves it unframed, so the
      as-written test raises. */
  lemma MissingFrameFileRaises(photo: Photo, framePath: string)
    requires framePath != [] && photo.framePath == Some(framePath) && !photo.frameApplied
    requires photo.imageData.Some? ==> WellFormed(photo.imageData.value)
    ensures ApplyFrameToArray(photo.imageData, framePath, Missing) == Ok(photo.imageData)
    ensures ReapplyDecisionAsWritten(photo.framePath, FrameAppliedAttribute(photo.frameApplied)).Err?
  {
    AsWrittenRaisesWhenFrameNeeded(photo.framePath, photo.frameApplied);
  }

  class PhotoboothApp {
    var config: AppConfig
    const photoController: PhotoController
    const capture: CaptureScreen
    const preview: PreviewScreen
    /** The OneDrive settings the window reads; the configuration record
        has no such section. */
    const onedriveEnabled: bool
    const onedriveFolder: string
    var currentPhoto: Photo?
    var screen: Screen
    var fullScreen: bool
    /** Configurations written by `config.save()`, in order. */
    var savedConfigs: seq<AppConfig>
    /** Paths photos were saved under, in order. */
    var savedPhotos: seq<string>
    /** Uploads started, as (local path, remote folder). */
    var uploads: seq<(string, string)>

    predicate Valid()
      reads this, capture, preview
    {
      capture.Valid() && preview.Valid()
    }

    constructor (config: AppConfig, photoController: PhotoController, capture: CaptureScreen,
                 preview: PreviewScreen, onedriveEnabled: bool, onedriveFolder: string)
      requires capture.Valid() && preview.Valid()
      ensures this.config == config && this.photoController == photoController
      ensures this.capture == capture && this.preview == preview
      ensures this.onedriveEnabled == onedriveEnabled && this.onedriveFolder == onedriveFolder
      ensures currentPhoto == null && screen == CaptureView && fullScreen == config.startFullscreen
      ensures savedConfigs == [] && savedPhotos == [] && uploads == []
      ensures Valid()
    {
      this.config := config;
      this.photoController := photoController;
      this.capture := capture;
      this.preview := preview;
      this.onedriveEnabled := onedriveEnabled;
      this.onedriveFolder := onedriveFolder;
      currentPhoto := null;
      screen := CaptureView;
      fullScreen := config.startFullscreen;
      savedConfigs := [];
      savedPhotos := [];
      uploads := [];
    }

    /** The last-frame restore of `init_ui` and `on_config_saved`, where
        `fileExists` tells whether the remembered frame is still on disk.
        The configuration itself keeps the remembered path. */
    method RestoreLastFrame(fileExists: bool)
      requires Valid()
      modifies capture
      ensures var frame := RestoredFrame(config.lastSelectedFrame, fileExists);
              capture.selectedFrame == (if frame == [] then None else Some(frame))
      ensures capture.Current() == old(capture.Current()) && capture.captured == old(capture.captured)
      ensures Valid()
    {
      var framePath := config.lastSelectedFrame;
      if framePath != [] && !fileExists {
        framePath := [];
      }
      capture.SetFrame(framePath);
    }

    /** `on_frame_selected(frame_path)`: the capture screen takes the frame,
        the choice is remembered and saved, and the capture screen shows. */
    method OnFrameSelected(framePath: string)
      requires Valid()
      modifies this, capture
      ensures capture.selectedFrame == (if framePath == [] then None else Some(framePath))
      ensures config == old(config).(lastSelectedFrame := framePath)
      ensures savedConfigs == old(savedConfigs) + [config]
      ensures screen == CaptureView
      ensures capture.Current() == old(capture.Current())
      ensures savedPhotos == old(savedPhotos) && uploads == old(uploads) && fullScreen == old(fullScreen)
      ensures currentPhoto == old(currentPhoto)
      ensures Valid()
    {
      capture.SetFrame(framePath);
      config := config.(lastSelectedFrame := framePath);
      savedConfigs := savedConfigs + [config];
      screen := CaptureView;
    }

    /** `on_photo_captured(photo)`, where `frame` is the photo's frame file
        as the disk holds it. The frame is composited only if the photo
        names one that is not applied yet, so at most once; the photo is
        always saved, uploaded only when OneDrive is on, and then shown in
        the preview. */
    method OnPhotoCaptured(photo: Photo, frame: FrameFile)
      requires Valid()
      requires ValidDateTime(photo.timestamp) && photo.timestamp.year >= 1000
      requires photo.imageData.Some? ==> WellFormed(photo.imageData.value)
      requires ValidFrameFile(frame)
      modifies this, photo, preview
      ensures currentPhoto == photo
      ensures !NeedsFrame(old(photo.framePath), old(photo.frameApplied)) ==>
                photo.imageData == old(photo.imageData) && photo.frameApplied == old(photo.frameApplied)
      ensures NeedsFrame(old(photo.framePath), old(photo.frameApplied)) ==>
                (photo.frameApplied <==> Exists(frame) && ApplyFrameToArray(old(photo.imageData), old(photo.framePath).value, frame).Ok?)
      ensures photo.timestamp == old(photo.timestamp)
      ensures preview.savedPath == JoinPath(photoController.photosDirectory, PhotoFileName(photo.timestamp))
      ensures savedPhotos == old(savedPhotos) + [preview.savedPath]
      ensures uploads == (if onedriveEnabled then old(uploads) + [(preview.savedPath, onedriveFolder)] else old(uploads))
      ensures screen == PreviewView
      ensures preview.recentEmails == old(preview.recentEmails) && preview.requests == old(preview.requests)
      ensures config == old(config) && savedConfigs == old(savedConfigs) && fullScreen == old(fullScreen)
      ensures Valid()
    {
      currentPhoto := photo;
      FrameIfNeeded(photo, frame);
      Publish(photo);
    }

    /** Saving, uploading and previewing in `on_photo_captured`. */
    method Publish(photo: Photo)
      requires Valid()
      requires ValidDateTime(photo.timestamp) && photo.timestamp.year >= 1000
      modifies this, preview
      ensures preview.savedPath == JoinPath(photoController.photosDirectory, PhotoFileName(photo.timestamp))
      ensures savedPhotos == old(savedPhotos) + [preview.savedPath]
      ensures uploads == (if onedriveEnabled then old(uploads) + [(preview.savedPath, onedriveFolder)] else old(uploads))
      ensures screen == PreviewView && currentPhoto == old(currentPhoto)
      ensures preview.recentEmails == old(preview.recentEmails) && preview.requests == old(preview.requests)
      ensures config == old(config) && savedConfigs == old(savedConfigs) && fullScreen == old(fullScreen)
      ensures Valid()
    {
      var savedPath := photoController.SavePhoto(photo);
      Present(savedPath);
    }

    /** The steps of `on_photo_captured` after the photo is saved under
        `savedPath`: record it, upload it when OneDrive is on, preview it. */
    method Present(savedPath: string)
      requires Valid()
      modifies this, preview
      ensures preview.savedPath == savedPath
      ensures savedPhotos == old(savedPhotos) + [savedPath]
      ensures uploads == (if onedriveEnabled then old(uploads) + [(savedPath, onedriveFolder)] else old(uploads))
      ensures screen == PreviewView && currentPhoto == old(currentPhoto)
      ensures preview.recentEmails == old(preview.recentEmails) && preview.requests == old(preview.requests)
      ensures config == old(config) && savedConfigs == old(savedConfigs) && fullScreen == old(fullScreen)
      ensures Valid()
    {
      savedPhotos := savedPhotos + [savedPath];
      if onedriveEnabled {
        uploads := uploads + [(savedPath, onedriveFolder)];
      }
      preview.SetPhoto(savedPath);
      screen := PreviewView;
    }

    /** The re-application step of `on_photo_captured`. */
    method FrameIfNeeded(photo: Photo, frame: FrameFile)
      requires photo.imageData.Some? ==> WellFormed(photo.imageData.value)
      requires ValidFrameFile(frame)
      modifies photo
      ensures !NeedsFrame(old(photo.framePath), old(photo.frameApplied)) ==>
                photo.imageData == old(photo.imageData) && photo.frameApplied == old(photo.frameApplied)
      ensures NeedsFrame(old(photo.framePath), old(photo.frameApplied)) ==>
                (photo.frameApplied <==> Exists(frame) && ApplyFrameToArray(old(photo.imageData), old(photo.framePath).value, frame).Ok?)
      ensures photo.timestamp == old(photo.timestamp)
    {
      if NeedsFrame(photo.framePath, photo.frameApplied) {
        var framed := photoController.ApplyFrame(photo, photo.framePath.value, frame);
      }
    }

    /** `keyPressEvent(event)`: F11 toggles full screen; Escape leaves full
        screen; anything else, Escape in a normal window included, goes on to
        the default handler (`handled` is false). */
    method KeyPress(key: Key) returns (handled: bool)
      modifies this
      ensures key == F11 ==> handled && fullScreen == !old(fullScreen)
      ensures key == Escape ==> handled == old(fullScreen) && !fullScreen
      ensures key.Other? ==> !handled && fullScreen == old(fullScreen)
      ensures !handled ==> fullScreen == old(fullScreen)
      ensures screen == old(screen) && config == old(config) && currentPhoto == old(currentPhoto)
      ensures savedConfigs == old(savedConfigs) && savedPhotos == old(savedPhotos) && uploads == old(uploads)
    {
      if key == F11 {
        fullScreen := !fullScreen;
        return true;
      }
      if key == Escape && fullScreen {
        fullScreen := false;
        return true;
      }
      return false;
    }
  }
}
