# Photobooth, modelled in Dafny

A model of the core of a touch-screen photobooth written in Python with Qt.
A visitor picks a decorative frame. A webcam or a DSLR takes the picture
after a three-second countdown. The frame is composited over it, and the
photo is saved under a name built from its capture time. It can then be
uploaded to OneDrive, sent by e-mail or printed. A JSON file holds the
configuration, which remembers the last frame chosen.

One Dafny module per source file:

| module | file |
|---|---|
| `Wrappers` | `Option` and `Result` |
| `Text` | the Python string built-ins the source leans on: `strip`, `splitlines`, `in`, `lower`, `endswith`, `os.path.join`, `os.path.basename`, decimal formatting and `int()` |
| `Imaging` | numpy pixel buffers, the BGR/RGB swap, frame resampling and alpha compositing |
| `Photos` | `src/models/photo.py` |
| `Config` | `src/models/__init__.py` |
| `Camera` | `src/controllers/camera_controller.py` |
| `Dslr` | `src/controllers/dslr_controller.py` |
| `OneDrive` | `src/controllers/onedrive_controller.py` |
| `Printing` | `src/controllers/printer_controller.py` |
| `PhotoControl` | `src/controllers/photo_controller.py` |
| `Grid` | the row-major grid shared by the home and gallery screens |
| `Home` | `src/views/home_screen.py` |
| `Gallery` | `src/views/gallery_screen.py` |
| `Capture` | `src/views/capture_screen.py` |
| `Preview` | `src/views/preview_screen.py` |
| `Overlay` | `src/views/photobooth_overlay.py` |
| `CaptureButton` | `src/views/capture_button_overlay.py` |
| `Photobooth` | `main.py` |

Some objects update their fields in place: the controllers, the screens,
the `Photo` record and the main window. Each one is a Dafny `class` whose
methods are proved against pure functions of the model. Pure code is
modelled with datatypes, functions and lemmas. Examples are the file-name
layout, the configuration codec, colour arithmetic and upload routing.

The model has no hardware, network, clock or file system. Whatever the
program would learn from them comes in as a parameter:
- what the camera delivers (`OpenOutcome`, `read`);
- how a `gphoto2` run ended and what it left behind (`RunOutcome`, `TempFile`);
- what the identity library answers (`MsalReply`);
- what the upload request returns (`Attempt`);
- what the printing environment reports (`Environment`);
- what the configuration file held (`ConfigFile`);
- what a frame file decodes to (`FrameFile`);
- whether files exist, and directory listings;
- the current time.

## Model

| member | source | states |
|---|---|---|
| `Photos.Photo.constructor` | src/models/photo.py:8-19 | The record keeps the buffer, time and frame path it is given. Its height and width are taken from the buffer's shape when the buffer has at least two dimensions, and are otherwise the given ones. It starts with `frameApplied` false, the declared field the corrected model adds. |
| `Photos.Photo.SetImageData` | src/controllers/photo_controller.py:37 | Assigning `image_data` replaces the buffer only: width, height, time, frame path and the applied flag stay as they were. |
| `Imaging.SwapRedBlueInvolution` | src/controllers/camera_controller.py:63 | Swapping twice gives the buffer back, so the conversion loses nothing. |
| `Imaging.Sample` | src/controllers/photo_controller.py:66 | Every resampled pixel is a valid RGBA pixel. |
| `Imaging.Resample` | src/controllers/photo_controller.py:66 | The resized frame has exactly the photo's height and width, and every pixel is a valid RGBA value. |
| `Imaging.MixBetween` | src/controllers/photo_controller.py:69 | One composited channel lies between the frame's and the photo's values. It is the frame's value at full opacity and the photo's at zero opacity. |
| `Imaging.MixBounds` | src/controllers/photo_controller.py:69 | A composited channel stays within any bounds both inputs share, so within a byte. |
| `Imaging.Over` | src/controllers/photo_controller.py:69 | A frame pixel over a photo pixel gives a valid RGB pixel: the frame's colour where it is opaque, the photo's where it is transparent. |
| `Imaging.Composite` | src/controllers/photo_controller.py:69-72 | The composite has the photo's shape, and each pixel is its frame pixel laid over its photo pixel. |
| `Imaging.CompositeOpaqueAndClear` | src/controllers/photo_controller.py:69-72 | Where the frame is opaque the frame shows; where it is transparent the photo shows. |
| `Imaging.CompositeClearFrame` | src/controllers/photo_controller.py:69-72 | A wholly transparent frame leaves the photo unchanged. |
| `PhotoControl.ApplyFrameToArray` | src/controllers/photo_controller.py:46-72 | No buffer, an empty path or a missing file returns the buffer unchanged. An unreadable frame is an error. Otherwise the result keeps the photo's shape. |
| `PhotoControl.ApplyFrameToArrayComposites` | src/controllers/photo_controller.py:60-72 | A decoded frame is stretched to the photo's size and composited pixel by pixel over the photo. |
| `PhotoControl.PaddedField` | src/controllers/photo_controller.py:85 | A zero-padded `strftime` field has its fixed width, holds no `/`, and reads back as its number. |
| `PhotoControl.NameLayout` | src/controllers/photo_controller.py:84-86 | In a generated name, each date and time field sits at its fixed offset, between the `photo_` prefix, the `_` separator and the `.jpg` suffix. |
| `PhotoControl.ParseOfLayout` | src/controllers/photo_controller.py:84-86 | A 25-character name with the fixed parts in place reads back as the time its fields spell. |
| `PhotoControl.PhotoFileName` | src/controllers/photo_controller.py:84-86 | A photo saved without a given name is named `photo_`, then its capture timestamp, then `.jpg`. |
| `PhotoControl.PhotoFileNameRoundTrip` | src/controllers/photo_controller.py:84-86 | The generated file name is 25 characters long and holds no `/`. It gives back the exact capture time, so distinct seconds give distinct names. |
| `PhotoControl.ThumbnailSize` | src/controllers/photo_controller.py:106-108 | An image that fits the box keeps its size. A larger one fills the box along the side that limits it; the other side is less than a pixel off the aspect-preserving length. Neither side grows, and each keeps at least one pixel. |
| `PhotoControl.RoundWidth` | src/controllers/photo_controller.py:107 | The width `thumbnail`'s `round_aspect` picks for a height-limited image is at least 1 and less than a pixel off the exact width. |
| `PhotoControl.RoundHeight` | src/controllers/photo_controller.py:107 | The height `round_aspect` picks for a width-limited image is at least 1 and less than a pixel off the exact height. |
| `PhotoControl.RoundWidthFits` | src/controllers/photo_controller.py:107 | A height-limited image is taller than the box, and its rounded width fits both the image and the box. |
| `PhotoControl.RoundHeightFits` | src/controllers/photo_controller.py:107 | A width-limited image is wider than the box, and its rounded height fits both the image and the box. |
| `PhotoControl.ThumbnailRoundsToNearestAspect` | src/controllers/photo_controller.py:107 | A 10×7 picture in a 5×5 box becomes 5×4, because 3.5 rounds to the height nearer the aspect ratio. A 4000×3000 picture in the default 300×200 box becomes 267×200. |
| `PhotoControl.PhotoController.constructor` | src/controllers/photo_controller.py:14-21 | The controller keeps its photos directory (`assets/photos` by default). |
| `PhotoControl.PhotoController.ApplyFrame` | src/controllers/photo_controller.py:23-44 | It returns the same photo. When the frame was applied, the photo has the composited buffer, the frame path and the applied flag. When it was not (no path, missing file, failure), the photo is unchanged. Dimensions and time are always kept. |
| `PhotoControl.PhotoController.SavePhoto` | src/controllers/photo_controller.py:74-94 | The file is written under the photos directory, under the given name or otherwise under the timestamp name. A given slash-free name is the path's basename, and the timestamp name's basename gives back the photo's time. |
| `PhotoControl.PhotoController.GetPhotoThumbnail` | src/controllers/photo_controller.py:96-108 | A non-empty RGB picture gives the size `ThumbnailSize` computes for the requested box. Anything else is an error. |
| `Camera.ProbeEntriesOpened` | src/controllers/camera_controller.py:87-100 | Every listed camera is an index below the probe bound that opened, under the name `Camera i`. |
| `Camera.ProbeAscending` | src/controllers/camera_controller.py:87-100 | Cameras are listed in strictly ascending index order, so none twice. |
| `Camera.ProbeFindsOpened` | src/controllers/camera_controller.py:87-100 | Every index that opened is listed. |
| `Camera.CameraController.constructor` | src/controllers/camera_controller.py:12-22 | The controller keeps its device index and resolution, and starts with no handle and inactive. |
| `Camera.CameraController.Start` | src/controllers/camera_controller.py:24-43 | It succeeds exactly when the device opens, and only then becomes active on a fresh open handle. A handle that fails to open is kept but closed. An exception leaves everything as it was. |
| `Camera.CameraController.Stop` | src/controllers/camera_controller.py:45-49 | A held handle is released and the controller becomes inactive. Without a handle nothing changes. |
| `Camera.CameraController.GetFrame` | src/controllers/camera_controller.py:51-64 | A frame comes back exactly when the controller is active on an open handle and the read succeeds. It has the read's shape, with red and blue swapped. |
| `Camera.CameraController.CapturePhoto` | src/controllers/camera_controller.py:66-85 | A fresh photo is returned exactly when a frame is available. It holds that frame, the given frame path and the capture time, with matching dimensions and the frame not yet applied. |
| `Camera.CameraController.ListAvailableCameras` | src/controllers/camera_controller.py:87-100 | The listing of indices 0 to 9 holds exactly the indices that opened, ascending, each named `Camera i`. |
| `Dslr.CameraLinesSound` | src/controllers/dslr_controller.py:130-131 | The filter keeps only camera lines, taken from its input, and never more of them. |
| `Dslr.CameraLinesComplete` | src/controllers/dslr_controller.py:130-131 | No camera line is dropped. |
| `Dslr.CameraEntriesAreCameraLines` | src/controllers/dslr_controller.py:123-132 | Every entry is a non-empty stripped line without `-----`, `Model` or `Port`, and there are no more entries than lines. |
| `Dslr.CameraEntriesComeFromLines` | src/controllers/dslr_controller.py:123-132 | Every entry is the stripped form of one of the listing's lines. |
| `Dslr.CameraEntriesKeepCameraLines` | src/controllers/dslr_controller.py:123-132 | Every line whose stripped form is a camera line yields an entry. |
| `Dslr.CollectCameraLines` | src/controllers/dslr_controller.py:127-132 | The loop collects exactly the camera entries of the lines, in order. |
| `Dslr.ParseCameraList` | src/controllers/dslr_controller.py:122-132 | The result is the camera entries of the stripped output's lines, each a stripped camera line. |
| `Dslr.DetectCameras` | src/controllers/dslr_controller.py:134-147 | A completed run yields its parsed camera list. A missing binary, a timeout or any failure yields no camera. |
| `Dslr.MissingFileError` | src/controllers/dslr_controller.py:100-107 | An undecodable image records its own error. Otherwise the stripped stderr is recorded, or the fallback message when stderr is blank, and the recorded message is never blank-padded. |
| `Dslr.DslrController.constructor` | src/controllers/dslr_controller.py:25-28 | An empty binary path falls back to `gphoto2`. The controller starts inactive with no error. |
| `Dslr.DslrController.Start` | src/controllers/dslr_controller.py:48-65 | It succeeds exactly when auto-detect completes and lists a camera. A completed run sets the active flag to that result and records the no-camera message on failure. A missing binary, a timeout or another failure records its own message and leaves the flag. |
| `Dslr.DslrController.Stop` | src/controllers/dslr_controller.py:67-68 | The controller becomes inactive and its error is kept. |
| `Dslr.DslrController.GetFrame` | src/controllers/dslr_controller.py:70-88 | A preview comes back exactly when the run completed and left a decodable image, and it is that image. |
| `Dslr.DslrController.CapturePhoto` | src/controllers/dslr_controller.py:90-116 | A fresh photo of the downloaded image, with the frame path and time, is returned exactly when the run completed and the image decodes. Each failure records its message: missing file, timeout, exception. The active flag is kept. |
| `OneDrive.Authority` | src/controllers/onedrive_controller.py:26-29 | The authority is the login root followed by the stripped tenant, with `common` when none is set. A blank tenant leaves only the root. |
| `OneDrive.RequestedScopes` | src/controllers/onedrive_controller.py:53 | The caller's scopes are used when given, otherwise the non-empty default list. |
| `OneDrive.DeviceFlowStricter` | src/controllers/onedrive_controller.py:81-83 | A token the device flow accepts is also a granted token. An empty granted token is one the device flow refuses. |
| `OneDrive.AuthenticateTokenIsGranted` | src/controllers/onedrive_controller.py:130-143 | A token `authenticate()` obtains needs a started flow, is never empty, and is the token a password or interactive sign-in would be granted from the same reply. An empty `access_token`, which those sign-ins accept, leaves `authenticate()` without a token. |
| `OneDrive.TrimSlashes` | src/controllers/onedrive_controller.py:201 | `rstrip("/")` keeps a prefix that does not end in `/`, and removes only slashes. |
| `OneDrive.NormalizeFolder` | src/controllers/onedrive_controller.py:198-201 | The remote folder is empty or starts with `/`, and never ends with `/`. |
| `OneDrive.NormalizeDefaultFolder` | src/controllers/onedrive_controller.py:198-201 | An empty folder becomes `/Photos/Photobooth`. |
| `OneDrive.TrimSlashesAbsorbs` | src/controllers/onedrive_controller.py:201 | Trailing slashes added to a folder that does not end in one are all removed again. |
| `OneDrive.NormalizeDropsTrailingSlashes` | src/controllers/onedrive_controller.py:198-201 | A rooted folder with any number of trailing slashes normalises to itself. |
| `OneDrive.UploadPathSplits` | src/controllers/onedrive_controller.py:197-203 | The drive path is rooted at `/` and reads back as the normalised folder, exactly one `/` and the file name. No doubled slash appears where the two parts meet. |
| `OneDrive.SlashJoinEnds` | src/controllers/onedrive_controller.py:203-204 | A slash-joined URL starts with its folder part and ends with its file part. |
| `OneDrive.Endpoint` | src/controllers/onedrive_controller.py:204 | The URL starts with the Graph root and the folder, and ends with the file name and `:/content`. |
| `OneDrive.UploadEndpoint` | src/controllers/onedrive_controller.py:197-204 | The upload URL lies in the normalised folder and ends with the file's basename and `:/content`. |
| `OneDrive.UploadEndpointOfName` | src/controllers/onedrive_controller.py:197-204 | A photo saved under a slash-free name is uploaded under that name. |
| `OneDrive.UploadRun` | src/controllers/onedrive_controller.py:179-232 | The upload is declined exactly when the integration is off or the file is missing. A successful upload goes to the endpoint built for the file, and a token is held afterwards. |
| `OneDrive.UploadSuccessNeeds` | src/controllers/onedrive_controller.py:179-232 | An upload succeeds only when the integration is enabled, the file exists and some request was answered 200 or 201. The token used is then held. |
| `OneDrive.UploadRejectedStatus` | src/controllers/onedrive_controller.py:217-229 | Any answer other than 200, 201 and 401 ends the upload, reporting that status, without another request, and the token is kept. |
| `OneDrive.UploadRetriesAfterUnauthorized` | src/controllers/onedrive_controller.py:220-223 | A 401 drops the token and starts over. A fresh sign-in followed by 200 uploads with the new token. |
| `OneDrive.UnauthorizedForever` | src/controllers/onedrive_controller.py:220-223 | With a server that always answers 401, the retries use up every attempt offered, however many there are, and end without a token. |
| `OneDrive.OneDriveController.constructor` | src/controllers/onedrive_controller.py:12-24 | The controller keeps its client id, tenant and enabled flag, and holds no token and no client application. |
| `OneDrive.OneDriveController.GetMsalApp` | src/controllers/onedrive_controller.py:31-38 | The client application for this client id and authority is built once and then reused. |
| `OneDrive.OneDriveController.StartDeviceFlow` | src/controllers/onedrive_controller.py:40-63 | Without a client id, no flow is started, nothing is requested and no client is built. Otherwise the flow is requested for `RequestedScopes(scopes)`, and the result is the flow of the reply. |
| `OneDrive.OneDriveController.CompleteDeviceFlow` | src/controllers/onedrive_controller.py:65-91 | It succeeds exactly when the flow is non-empty and the reply has a non-empty token, and then stores that token. Otherwise the token is kept. |
| `OneDrive.OneDriveController.AuthenticateWithCredentials` | src/controllers/onedrive_controller.py:93-128 | It succeeds exactly when a client id is set and a token is granted. The token is stored and the integration is switched on. With a client id, the password sign-in asks for the `.default` and `offline_access` scopes. |
| `OneDrive.OneDriveController.AuthenticateInteractive` | src/controllers/onedrive_controller.py:145-177 | It succeeds exactly when a client id is set and the browser sign-in grants a token. The token is stored and the integration is switched on. With a client id, the sign-in asks for `RequestedScopes(scopes)`. |
| `OneDrive.OneDriveController.Authenticate` | src/controllers/onedrive_controller.py:130-143 | It succeeds exactly when the device flow with the default scopes yields a token, and stores it. |
| `OneDrive.OneDriveController.UploadPhoto` | src/controllers/onedrive_controller.py:179-232 | The result and the token held afterwards are those of the upload run over the attempts offered. The URL is the one for the file in the normalised folder. |
| `Printing.PaperSizeConstant` | src/controllers/printer_controller.py:88-90 | The size constant is A4, Letter or custom. An unknown name gives A4. Custom is given exactly for the sizes with explicit dimensions. |
| `Printing.PaperTablesAgree` | src/controllers/printer_controller.py:7-22 | A paper name has explicit dimensions exactly when its constant is the custom one, and those dimensions are portrait. |
| `Printing.DevMode.constructor` | src/controllers/printer_controller.py:92-101 | Device settings hold the given size, width and length. |
| `Printing.FitToPage` | src/controllers/printer_controller.py:156-158 | An empty picture has no fit. Otherwise the scaled picture fits the printable area and fills its width or its height, keeping the picture's proportions up to truncation. |
| `Printing.Centred` | src/controllers/printer_controller.py:162-163 | The picture lies inside the page with its own size, and its left and right (top and bottom) margins differ by at most one pixel. |
| `Printing.PrinterController.constructor` | src/controllers/printer_controller.py:28-38 | The controller keeps its printer name, enabled flag and paper size (A4 by default). |
| `Printing.PrinterController.ApplyPaperSize` | src/controllers/printer_controller.py:92-101 | The settings get the size constant. Custom sizes also get their width and length; other sizes keep theirs. |
| `Printing.PrinterController.PrintWindows` | src/controllers/printer_controller.py:103-179 | A job is submitted exactly when the dependencies load, the spooler calls succeed, the image opens and it scales to a size with no zero side (resizing to an empty side raises, and the print is reported failed). It goes to the target printer under the file's basename, scaled to fit and centred. The paper size is applied to the settings when there are any. |
| `Printing.DegenerateFitsNotDrawable` | src/controllers/printer_controller.py:156-159 | A very wide image on a square page, and an empty printable area, both scale to a size with a zero side. Such a size cannot be drawn, so no job is submitted for it. |
| `Printing.PrinterController.PrintPhoto` | src/controllers/printer_controller.py:44-64 | Printing is refused without the integration enabled, the file or Windows, and the settings are then untouched. Otherwise a job is submitted exactly when the Windows print succeeds, which includes the image scaling to a size with no zero side. The job goes to the target printer under the file's basename, scaled to fit the printable area and centred. The device settings get the configured paper size whenever the dependencies load. |
| `Printing.ListAvailablePrinters` | src/controllers/printer_controller.py:66-82 | Off Windows, or when enumeration fails, the list is empty. Otherwise it holds the name of every enumerated local and connected printer, in enumeration order. |
| `Printing.ListedPrintersAreEnumerated` | src/controllers/printer_controller.py:66-82 | When enumeration succeeds, a name is listed exactly when the platform is Windows and some enumerated printer carries that name. |
| `Config.BoolField` | src/models/__init__.py:81 | A missing key gives the default. A present key loads exactly when it holds a boolean. |
| `Config.IntField` | src/models/__init__.py:76 | A missing key gives the default. A present key loads exactly when it holds an integer. |
| `Config.StringField` | src/models/__init__.py:82 | A missing key gives the default. A present key loads exactly when it holds a string. |
| `Config.StringListField` | src/models/__init__.py:80 | A missing `available_frames` gives the empty list. |
| `Config.StringsToJson` | src/models/__init__.py:123 | A string list is written as an array that reads back as the same list. |
| `Config.Load` | src/models/__init__.py:70-112 | No file gives the built-in configuration. An unparsable file is an error, and so is a file whose top level is not an object. |
| `Config.Save` | src/models/__init__.py:114-135 | `save` writes a single JSON object whose keys are exactly the top-level keys `load` reads. |
| `Config.SaveWritesTopKeys` | src/models/__init__.py:114-135 | `save` writes exactly the keys `load` reads at the top level. |
| `Config.CameraRoundTrip` | src/models/__init__.py:76 | A saved camera section loads back unchanged. |
| `Config.EmailRoundTrip` | src/models/__init__.py:77 | A saved e-mail section loads back unchanged. |
| `Config.PrinterRoundTrip` | src/models/__init__.py:78 | A saved printer section loads back unchanged. |
| `Config.ButtonsRoundTrip` | src/models/__init__.py:79 | A saved buttons section loads back unchanged. |
| `Config.SaveSectionLookups` | src/models/__init__.py:119-122 | Each section of a saved configuration is that record's dictionary. |
| `Config.SaveFramesLookup` | src/models/__init__.py:123 | The saved frame list reads back as the configuration's list. |
| `Config.SaveFilesLookups` | src/models/__init__.py:124-127 | The saved disk and sound settings are the configuration's values. |
| `Config.SaveTextsLookups` | src/models/__init__.py:128-131 | The saved screen texts are the configuration's values. |
| `Config.SaveOptionsLookups` | src/models/__init__.py:132-134 | The saved start-up options are the configuration's values. |
| `Config.FilesRoundTrip` | src/models/__init__.py:81-84 | The disk and sound settings load back unchanged. |
| `Config.FilesDecode` | src/models/__init__.py:81-84 | Present values of the right types load as themselves. |
| `Config.TextsRoundTrip` | src/models/__init__.py:85-88 | The screen texts load back unchanged. |
| `Config.TextsDecode` | src/models/__init__.py:85-88 | Present texts load as themselves. |
| `Config.OptionsRoundTrip` | src/models/__init__.py:89-91 | The start-up options load back unchanged. |
| `Config.OptionsDecode` | src/models/__init__.py:89-91 | Present options of the right types load as themselves. |
| `Config.TopRoundTrip` | src/models/__init__.py:80-91 | All top-level fields of a saved configuration load back unchanged. |
| `Config.LoadSaveRoundTrip` | src/models/__init__.py:70-135 | Whatever `save` writes, `load` reads back unchanged. |
| `Config.LoadDecode` | src/models/__init__.py:75-92 | An object whose four sections and top-level keys decode to a configuration loads as that configuration. |
| `Config.MissingSectionsDefault` | src/models/__init__.py:76-79 | Each section missing from the file loads as its record's defaults. |
| `Config.DefaultsAgree` | src/models/__init__.py:8-112 | An absent file and an empty object both load as the dataclasses' declared defaults. |
| `Config.UnknownTopLevelKeyIgnored` | src/models/__init__.py:75-92 | A top-level key the loader does not read changes nothing. |
| `Config.FilesReadOwnKeys` | src/models/__init__.py:81-84 | The disk and sound settings depend only on their own four keys. |
| `Config.TextsReadOwnKeys` | src/models/__init__.py:85-88 | The screen texts depend only on their own four keys. |
| `Config.OptionsReadOwnKeys` | src/models/__init__.py:89-91 | The start-up options depend only on their own three keys. |
| `Config.UnknownSectionKeyRejected` | src/models/__init__.py:76-79 | A camera, e-mail, printer or buttons section holding a key its record does not declare makes loading fail. |
| `Config.LoadOverridesOneKey` | src/models/__init__.py:70-92 | A file holding only a title loads as the defaults with that title. |
| `Grid.CellsDistinct` | src/views/gallery_screen.py:139-141 | Two different positions of a row-major grid fall in different cells, each within the column count. |
| `Home.FrameFiles` | src/views/home_screen.py:178-179 | The frame files are listed names with an image extension, no more of them than names, and every listed image is among them. |
| `Home.FrameFilesDistributes` | src/views/home_screen.py:178-179 | The filter keeps listing order and multiplicity: the frame files of two listings in sequence are those of the first followed by those of the second. |
| `Home.FrameFilesOne` | src/views/home_screen.py:178-179 | One name is kept exactly when it has an image extension, so with the lemma above the frame files are the image names of the listing, in order, each as often as listed. |
| `Home.LastDot` | src/views/home_screen.py:183 | The index found is that of the last dot, and none means the name has no dot. |
| `Home.Stem` | src/views/home_screen.py:183 | The button label is a prefix of the file name. |
| `Home.StemDropsExtension` | src/views/home_screen.py:183 | A name with an extension is labelled without that extension. |
| `Home.FileButtons` | src/views/home_screen.py:180-187 | There is one unchecked button per frame file, selecting its path and labelled with its stem, each in the cell of its number. |
| `Home.GridCellsDistinct` | src/views/home_screen.py:180-187 | No two buttons share a cell, and every column is one of the three. |
| `Home.HomeScreen.constructor` | src/views/home_screen.py:17-19 | The picker starts with no buttons and no frame, start disabled, and the default texts. |
| `Home.HomeScreen.LoadFrames` | src/views/home_screen.py:159-187 | The no-frame button comes first, in cell (0, 0), followed by one button per frame file of a readable directory. A missing directory leaves only the no-frame button. |
| `Home.HomeScreen.OnFrameSelected` | src/views/home_screen.py:249-262 | The chosen button toggles and every other button is unchecked. The selected frame is its path, empty for the no-frame button, and start is enabled. |
| `Home.HomeScreen.OnStartClicked` | src/views/home_screen.py:264-267 | The selected frame is emitted exactly when start is enabled. |
| `Home.HomeScreen.SetHomeTexts` | src/views/home_screen.py:269-279 | Each empty text falls back to its default, so no text is ever empty. |
| `Home.BuildFileButtons` | src/views/home_screen.py:180-187 | The loop builds exactly the buttons for the frame files, numbered from 1. |
| `Home.LoadedButtonsValid` | src/views/home_screen.py:173-187 | A freshly loaded picker is in grid order with nothing checked. |
| `Home.FileButtonsSnoc` | src/views/home_screen.py:180-187 | Adding a file adds its button after the others. |
| `Gallery.LexLeqTotal` | src/views/gallery_screen.py:115 | Python string order is total. |
| `Gallery.LexLeqReflexive` | src/views/gallery_screen.py:115 | Every path is ordered with itself. |
| `Gallery.LexLeqTransitive` | src/views/gallery_screen.py:115 | Python string order is transitive. |
| `Gallery.LexLeqAntisymmetric` | src/views/gallery_screen.py:115 | Python string order is antisymmetric. |
| `Gallery.PicturePaths` | src/views/gallery_screen.py:109-113 | Every picture file of the listing is included, joined to the directory, and every path comes from such a file. |
| `Gallery.CollectPaths` | src/views/gallery_screen.py:109-113 | The loop collects exactly the picture paths, in listing order. |
| `Gallery.InsertionPoint` | src/views/gallery_screen.py:115 | Everything before the point is strictly larger than the new path; everything from it on is no larger. |
| `Gallery.InsertKeepsDescending` | src/views/gallery_screen.py:115 | Inserting at the insertion point keeps the list newest-first and adds exactly the new path. |
| `Gallery.InsertedAt` | src/views/gallery_screen.py:115 | Where each element of the list after insertion comes from. |
| `Gallery.SortDescending` | src/views/gallery_screen.py:115 | `sort(reverse=True)` yields the same paths, newest first. |
| `Gallery.DescendingUnique` | src/views/gallery_screen.py:115 | Two newest-first orderings of the same paths are the same list, so the order shown is determined. |
| `Gallery.SameHead` | src/views/gallery_screen.py:115 | Two newest-first orderings of the same paths start with the same path. |
| `Gallery.SameTail` | src/views/gallery_screen.py:115 | Removing the same first path leaves the same paths. |
| `Gallery.GalleryScreen.constructor` | src/views/gallery_screen.py:16-20 | The gallery starts with no thumbnails and shows its empty label. |
| `Gallery.GalleryScreen.LoadPhotos` | src/views/gallery_screen.py:102-141 | The thumbnails show exactly the listing's pictures, newest first, row by row in four columns. The empty label shows exactly when there are none. |
| `Gallery.GalleryCellsDistinct` | src/views/gallery_screen.py:139-141 | No two thumbnails share a cell. |
| `Capture.CountdownRun` | src/views/capture_screen.py:263-278 | A click starts a countdown from 3 with the button disabled. The first two ticks only count down. The third stops the timer and schedules exactly one capture. Later ticks change nothing. |
| `Capture.ClicksTicksAndCapturesKeepConsistent` | src/views/capture_screen.py:263-295 | Clicks, ticks, captures and a camera that cannot open keep the screen in an idle, counting or waiting phase. At most one capture is pending, and a capture returns to idle with the button enabled. |
| `Capture.StopAllowsOverlappingSessions` | src/views/capture_screen.py:199-279 | Stopping the camera while a capture is pending re-enables the button (lines 199-203), so a second countdown can start. The pending capture then fires before the second countdown's first tick. That leaves the countdown timer running with the button enabled and no session marked as capturing. The second countdown still runs out and schedules a capture. |
| `Capture.OverlayText` | src/views/capture_screen.py:234-240 | Text is drawn exactly while capturing: the countdown's digits while it is positive, then the camera glyph. |
| `Capture.ButtonStyle` | src/views/capture_screen.py:118-127 | The diameter is clamped to 150..240. The radius is half of it, the border 5 to 8 pixels and the font as large as the radius. |
| `Capture.CaptureScreen.constructor` | src/views/capture_screen.py:20-36 | The screen starts idle with the button enabled, no frame, an empty cache and the ready title. |
| `Capture.CaptureScreen.SetFrame` | src/views/capture_screen.py:172-179 | An empty path selects no frame, and the preview cache is emptied. |
| `Capture.CaptureScreen.StartCamera` | src/views/capture_screen.py:181-197 | An active camera is left alone. A camera that opens starts the preview with the ready title. One that does not disables the button and shows the unavailable title. |
| `Capture.CaptureScreen.StopCamera` | src/views/capture_screen.py:199-203 | The preview stops, the camera is released and the button re-enabled. The countdown is left running. |
| `Capture.CaptureScreen.OnCaptureClicked` | src/views/capture_screen.py:263-268 | A click on the enabled button starts the countdown. |
| `Capture.CaptureScreen.UpdateCountdown` | src/views/capture_screen.py:270-278 | A tick counts down, and at zero stops the timer and schedules the capture. |
| `Capture.CaptureScreen.CapturePhoto` | src/views/capture_screen.py:280-295 | A photo is sent exactly when the camera gives one; otherwise a failure is shown. The photo is framed only when a frame is selected, and applied exactly when that frame can be composited. The session then ends with the button enabled. |
| `Preview.HexDigitValue` | src/views/preview_screen.py:387 | A hexadecimal digit is worth less than 16. |
| `Preview.HexChar` | src/views/preview_screen.py:389 | Each value below 16 is written as the lower-case digit worth that value. |
| `Preview.Hex2` | src/views/preview_screen.py:389 | `{:02x}` of a channel is two lower-case hexadecimal digits. |
| `Preview.ParseHexField` | src/views/preview_screen.py:387 | `int(s, 16)` of a slice, when it parses, is between -15 and 255. |
| `Preview.Slice` | src/views/preview_screen.py:387 | A clamped slice is never longer than requested. |
| `Preview.HexColor` | src/views/preview_screen.py:389 | A colour code is `#` followed by six lower-case hexadecimal digits. |
| `Preview.DarkenColor` | src/views/preview_screen.py:375-389 | A darkened colour, when the code parses, is a seven-character `#` code. |
| `Preview.HexValueOfHex2` | src/views/preview_screen.py:389 | Two-digit hexadecimal formatting reads back as the channel. |
| `Preview.ParseHex2` | src/views/preview_screen.py:387-389 | A formatted channel parses back to itself. |
| `Preview.DarkenHexColor` | src/views/preview_screen.py:375-389 | Darkening a colour code lowers each channel by 30, stopping at 0, and never brightens it. |
| `Preview.DimDarkens` | src/views/preview_screen.py:388 | Dimming a channel never brightens it. Only channels of at most 30 go to 0, and a brighter channel stays at least as bright. |
| `Preview.DarkenIgnoresHash` | src/views/preview_screen.py:385-386 | The leading `#` is optional. |
| `Preview.Keyboard.constructor` | src/views/preview_screen.py:14-20 | The keyboard dialog starts with empty text, the addresses offered, and not accepted. |
| `Preview.Keyboard.SelectRecent` | src/views/preview_screen.py:219-220 | Choosing a remembered address replaces the text with it. |
| `Preview.Keyboard.TypeKey` | src/views/preview_screen.py:222-223 | A key appends exactly its text. |
| `Preview.Keyboard.Backspace` | src/views/preview_screen.py:225-226 | The last character is dropped; an empty text stays empty. |
| `Preview.Keyboard.Clear` | src/views/preview_screen.py:170 | The clear key empties the text. |
| `Preview.Keyboard.Send` | src/views/preview_screen.py:228-233 | The dialog is accepted exactly for a non-blank text holding `@`, and the text is kept. |
| `Preview.AcceptedAddress` | src/views/preview_screen.py:228-236 | An accepted text yields a non-empty, stripped address holding `@`. |
| `Preview.TypeThenBackspace` | src/views/preview_screen.py:222-226 | Typing a key and erasing it leaves the text as it was. |
| `Preview.PreviewScreen.constructor` | src/views/preview_screen.py:247-262 | The screen starts with the default title, no saved photo, no remembered address and no request, both actions visible. |
| `Preview.PreviewScreen.SetPreviewTitle` | src/views/preview_screen.py:334-340 | An empty title falls back to `Votre Photo!`, so the title is never empty. |
| `Preview.PreviewScreen.SetEnabledActions` | src/views/preview_screen.py:342-350 | The e-mail and print buttons show exactly when their actions are enabled. |
| `Preview.PreviewScreen.SetPhoto` | src/views/preview_screen.py:391-399 | The screen now refers to the saved path. |
| `Preview.PreviewScreen.OnEmailClicked` | src/views/preview_screen.py:415-427 | A send request is emitted exactly when a photo is saved and a non-blank address is accepted. The address is remembered once, never twice. |
| `Preview.PreviewScreen.OnPrintClicked` | src/views/preview_screen.py:429-439 | A print request for the saved path is emitted exactly when a photo is saved. |
| `Overlay.InjectWebChannel` | src/views/photobooth_overlay.py:371-383 | The script block is inserted right before the first `</head>`. A page without one is left as it is. |
| `Overlay.InjectionIsInsertion` | src/views/photobooth_overlay.py:371-383 | The page grows by exactly the block. The text before and after the insertion point, later `</head>`s included, is kept, and cutting the block out gives the page back. |
| `Overlay.InitialPosition` | src/views/photobooth_overlay.py:347-352 | A given position is used. Otherwise the overlay is centred on the available screen area, rounding towards the top left. |
| `Overlay.CentredMargins` | src/views/photobooth_overlay.py:349-352 | Without a position, the left and right (top and bottom) margins differ by at most one pixel. |
| `Overlay.PhotoboothOverlay.constructor` | src/views/photobooth_overlay.py:331-369 | The overlay has the requested size (280 by 300 unless given) and its initial position, and shows the button page with the web channel injected. |
| `Overlay.PhotoboothOverlay.MoveTo` | src/views/photobooth_overlay.py:385-387 | The overlay moves to the given point. |
| `Overlay.PhotoboothOverlay.OnPhotoTaken` | src/views/photobooth_overlay.py:363-364 | A click from the page runs the callback exactly when one was given. |
| `CaptureButton.CaptureButtonOverlay.constructor` | src/views/capture_button_overlay.py:318-380 | Both variants are fixed at 280 by 300. Only the stand-in without a web engine hides itself, and only the web view loads the button page with the web channel injected. |
| `CaptureButton.CaptureButtonOverlay.OnPhotoTaken` | src/views/capture_button_overlay.py:341 | A click from the page is sent on as exactly one `clicked`. |
| `Photobooth.RestoredFrame` | main.py:164-167 | The frame restored is the remembered one when its file exists, and none otherwise. |
| `Photobooth.SelectedFrameSurvivesRestart` | main.py:203-211 | A frame chosen and saved loads back from the written configuration and is restored while its file exists. |
| `Photobooth.AsWrittenRaisesWhenFrameNeeded` | main.py:222 | As written, the frame test raises exactly when the frame still has to be applied, and otherwise never asks for re-application. |
| `Photobooth.MissingFrameFileRaises` | main.py:222 | A photo whose frame file went missing is left unframed by the controller, and the as-written test then raises. |
| `Photobooth.PhotoboothApp.constructor` | main.py:175-180 | The window starts on the capture screen, in full screen when the configuration asks for it, with nothing saved or uploaded. |
| `Photobooth.PhotoboothApp.RestoreLastFrame` | main.py:280-283 | The capture screen gets the remembered frame while its file exists, and otherwise none. |
| `Photobooth.PhotoboothApp.OnFrameSelected` | main.py:203-212 | The capture screen takes the frame. The choice is stored in the configuration, which is saved, and the capture screen shows. |
| `Photobooth.PhotoboothApp.OnPhotoCaptured` | main.py:214-235 | The frame is composited only when the photo names one not yet applied. The photo is then always saved under its timestamp name, uploaded to the configured folder exactly when OneDrive is on, and shown in the preview. |
| `Photobooth.PhotoboothApp.Publish` | main.py:226-235 | The photo is saved under its timestamp name in the photos directory, then recorded, uploaded when enabled and previewed. |
| `Photobooth.PhotoboothApp.Present` | main.py:229-235 | The saved path is uploaded exactly when OneDrive is on, and the preview shows it. |
| `Photobooth.PhotoboothApp.FrameIfNeeded` | main.py:222-224 | The frame is applied only when needed, and is then applied exactly when it can be composited. Otherwise the photo is unchanged. |
| `Photobooth.PhotoboothApp.KeyPress` | main.py:304-319 | F11 toggles full screen. Escape leaves full screen. Anything else, and Escape in a normal window, goes to the default handler and changes nothing. |

## Left out

- Device I/O: the webcam, the `gphoto2` subprocess and its temporary files, the identity library, HTTP, the spooler and `cv2.imwrite` are oracles given as parameters; their effects are not modelled.
- The file system, `os.makedirs` and the clock: file existence, directory listings and the current time are parameters.
- Qt painting, layouts, style sheets and timers: timer callbacks are discrete events of the capture screen, and only the state they change is modelled.
- `src/views/admin_screen.py`, `src/views/onedrive_setup_wizard.py`, `src/controllers/email_controller.py` and `src/views/photobooth_miss.py` are not part of this model.
- Part of the main window's wiring does not match the classes it uses, and is left out: `main.py:125` passes a buttons configuration the capture screen does not take; `main.py:142-144` connect signals the capture screen does not declare, and `main.py:155` calls a method the home screen does not define; `main.py:86-90` builds the OneDrive controller from `config.onedrive`, and `main.py:169-173` passes three flags to a two-argument method and reads `config.onedrive` again. `AppConfig` has no `onedrive` field, so as written the window's constructor raises `AttributeError`. The model takes whether OneDrive is on, and its folder, as parameters of the window.
- Photobooth.PhotoboothApp: the OneDrive enabled flag and folder, read from a configuration section that does not exist, are constant fields of the window.
- `on_config_saved` rebuilding the controllers (`main.py:237-292`) is left out, apart from its frame restore.
- Imaging.Resample: the LANCZOS filter is replaced by nearest-neighbour sampling, and only the size and byte range of the result are claimed.
- Imaging.Over: partial transparency is blended with exact rounding, not with the image library's fixed-point arithmetic.
- PhotoControl.ApplyFrameToArray: only (h, w, 3) RGB buffers are framed. A greyscale or four-channel buffer, which `Image.fromarray(...).convert('RGBA')` (src/controllers/photo_controller.py:63) would composite into an RGB result, is an error in the model; non-RGB buffers are outside the model.
- OneDrive.OneDriveController.GetMsalApp: always succeeds. Building the msal client (src/controllers/onedrive_controller.py:33-37) can raise, for instance when the authority cannot be validated; that raise is not modelled.
- PhotoControl.PhotoController.GetPhotoThumbnail: only the thumbnail's dimensions are modelled, not its pixels.
- PhotoControl.PhotoController.GetPhotoThumbnail: only (h, w, 3) RGB buffers are sized. A greyscale or four-channel buffer, which `Image.fromarray` and `thumbnail` accept, is an error in the model, and so is a picture with no pixels.
- PhotoControl.ThumbnailSize: the aspect ratio and `round_aspect`'s comparison are computed exactly. The source uses floating point, which can pick the other neighbouring size when the two are almost equally close.
- PhotoControl.PhotoFileName: capture times before the year 1000 are excluded, because how `%Y` pads such years depends on the platform's C library; the clock never gives them.
- PhotoControl.PhotoController.SavePhoto: the image written to disk and its colour conversion are left out; only the path is modelled.
- Printing.FitToPage: the floating-point ratio is computed exactly, truncating like `int()`. A product whose floating-point rounding crosses an integer boundary may differ by one pixel.
- Printing.PrinterController.PrintWindows: a single flag stands for every spooler call succeeding. The paper size is applied whenever device settings are given and the dependencies load, whereas the source reads those settings only after opening the printer succeeded.
- Capture: timer events are ordered by the lemmas, not by the timers' durations. The transition functions accept any order of clicks, ticks, stops and firings. `StopAllowsOverlappingSessions` uses the order the 1 s countdown and the 500 ms single-shot allow.
- Capture.ButtonStyle: the `0.23` factor of `_adapt_capture_button_size` (`src/views/capture_screen.py:164-170`) is floating point, so the requested diameter is a parameter.
- Preview.PreviewScreen.SetPhoto: the pixmap shown is left out; only the saved path is modelled.
- Gallery.GalleryScreen.LoadPhotos: thumbnail pixmaps are left out; only which picture goes in which cell is modelled.
- Gallery.GalleryScreen.LoadPhotos: a photos directory that exists but cannot be read makes `os.listdir` raise (src/views/gallery_screen.py:110). The model's listing is either present or missing, so that raise is not modelled.
- Home.HomeScreen.LoadFrames: button images are left out; only paths, labels and cells are modelled.
- Home.HomeScreen.LoadFrames: a frames directory that exists but cannot be read makes `os.listdir` raise (src/views/home_screen.py:177); the model's listing is either present or missing, so that raise is not modelled.
- Overlay.InjectWebChannel: the script block is a parameter, not the literal script.
- Text: `lower` folds only the ASCII letters and `int()` reads only ASCII digits, not the rest of Unicode.
- Text: `JoinPath` and `Basename` follow POSIX path rules, with `/` as the only separator. On Windows, `os.path` also splits at `\` and at drive letters, so a Windows path's basename differs (src/controllers/printer_controller.py:166, src/controllers/onedrive_controller.py:197, src/controllers/photo_controller.py:88).
- Config.Load: a value of the wrong JSON type is an error, whereas the dataclasses would accept it as it is. Floating-point JSON numbers are not modelled.
- OneDrive.OneDriveController.UploadPhoto: the source retries after 401 without bound. The model takes the sequence of attempts the world offers and ends with `OutOfAttempts` when they run out, so termination is not claimed. Whether the file exists is one flag for every attempt, whereas each recursive call re-checks `os.path.exists` (src/controllers/onedrive_controller.py:190).
- Compositing stretches the frame to the photo's size, as the code does, not a cover-fit of the photo to the frame.

## Findings

| source | as written | input that shows it | evidently intended | confidence | as-written member | corrected member |
|---|---|---|---|---|---|---|
| main.py:222 with src/models/photo.py:8-19 | `on_photo_captured` reads `photo.frame_applied`, which the `Photo` dataclass does not declare; only a successful `apply_frame` sets it, so the read raises `AttributeError` | a frame is selected and its file is removed before the capture: `apply_frame` leaves the photo unframed, and the photo is never saved, uploaded or shown | `Photo` declares `frame_applied: bool = False`, and the window re-applies a frame that was not applied | not executed | `Photobooth.MissingFrameFileRaises` | `Photobooth.PhotoboothApp.FrameIfNeeded` |
