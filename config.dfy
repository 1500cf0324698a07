/** src/models/__init__.py: the application configuration, its defaults,
    and its load and save through a JSON file. The file itself is an oracle:
    `Load` receives what reading and parsing it gave, and `Save` produces the
    JSON value that is written. */
module Config {
  import opened Wrappers

  /** A parsed JSON value (floating-point numbers are not part of it). */
  datatype Json =
    | JNull
    | JBool(b: bool)
    | JInt(i: int)
    | JString(s: string)
    | JArray(items: seq<Json>)
    | JObject(fields: map<string, Json>)

  /** The configuration file as `load` finds it. */
  datatype ConfigFile = NoFile | Unparsable | Parsed(json: Json)

  /** Why loading failed: the file did not parse, a section (or the whole
      file, section "") is not an object, a section has keys its record does
      not declare, or a value has the wrong JSON type. */
  datatype ConfigError =
    | Malformed
    | NotAnObject(section: string)
    | UnknownKeys(section: string, keys: set<string>)
    | WrongType(section: string, key: string)

  datatype CameraConfig = CameraConfig(
    deviceId: int, deviceName: string, resolutionWidth: int, resolutionHeight: int, fps: int)

  datatype EmailConfig = EmailConfig(
    smtpServer: string, smtpPort: int, senderEmail: string, senderPassword: string, useTls: bool, enabled: bool)

  datatype PrinterConfig = PrinterConfig(printerName: string, enabled: bool, paperSize: string)

  datatype ButtonsConfig = ButtonsConfig(
    captureNormal: string, capturePressed: string,
    chooseFrameNormal: string, chooseFramePressed: string,
    galleryNormal: string, galleryPressed: string,
    captureMode: string)

  datatype AppConfig = AppConfig(
    camera: CameraConfig,
    email: EmailConfig,
    printer: PrinterConfig,
    buttons: ButtonsConfig,
    availableFrames: seq<string>,
    saveToDisk: bool,
    photosDirectory: string,
    shutterSoundPath: string,
    countdownSoundPath: string,
    homeTitle: string,
    homeSubtitle: string,
    previewTitle: string,
    homeStartButtonText: string,
    startFullscreen: bool,
    showNoFrameOption: bool,
    lastSelectedFrame: string)

  // The defaults each record declares.

  function CameraDefaults(): CameraConfig {
    CameraConfig(0, "Default Camera", 1920, 1080, 30)
  }

  function EmailDefaults(): EmailConfig {
    EmailConfig("smtp.gmail.com", 587, "", "", true, false)
  }

  function PrinterDefaults(): PrinterConfig {
    PrinterConfig("", false, "A4")
  }

  function ButtonsDefaults(): ButtonsConfig {
    ButtonsConfig("", "", "", "", "", "", "image")
  }

  /** The configuration as the record's declared defaults build it. */
  function DeclaredDefaults(): AppConfig {
    AppConfig(CameraDefaults(), EmailDefaults(), PrinterDefaults(), ButtonsDefaults(), [],
      true, "assets/photos", "assets/sounds/shutter.wav", "assets/sounds/beep.wav",
      "Bienvenue au Photobooth!", "Choisissez votre cadre préféré", "Votre Photo!", "Commencer ➔",
      true, true, "")
  }

  /** The configuration `load` builds when there is no file, written out
      field by field as the loader spells it. */
  function MissingFileConfig(): AppConfig {
    AppConfig(CameraDefaults(), EmailDefaults(), PrinterDefaults(), ButtonsDefaults(),
      availableFrames := [],
      saveToDisk := true,
      photosDirectory := "assets/photos",
      shutterSoundPath := "assets/sounds/shutter.wav",
      countdownSoundPath := "assets/sounds/beep.wav",
      homeTitle := "Bienvenue au Photobooth!",
      homeSubtitle := "Choisissez votre cadre préféré",
      previewTitle := "Votre Photo!",
      homeStartButtonText := "Commencer ➔",
      startFullscreen := true,
      showNoFrameOption := true,
      lastSelectedFrame := "")
  }

  // Typed lookups with a default for a missing key.

  function BoolField(section: string, o: map<string, Json>, key: string, default: bool): (r: Result<bool, ConfigError>)
    ensures key !in o ==> r == Ok(default)
    ensures key in o ==> (r.Ok? <==> o[key].JBool?)
  {
    if key !in o then Ok(default)
    else if o[key].JBool? then Ok(o[key].b)
    else Err(WrongType(section, key))
  }

  function IntField(section: string, o: map<string, Json>, key: string, default: int): (r: Result<int, ConfigError>)
    ensures key !in o ==> r == Ok(default)
    ensures key in o ==> (r.Ok? <==> o[key].JInt?)
  {
    if key !in o then Ok(default)
    else if o[key].JInt? then Ok(o[key].i)
    else Err(WrongType(section, key))
  }

  function StringField(section: string, o: map<string, Json>, key: string, default: string): (r: Result<string, ConfigError>)
    ensures key !in o ==> r == Ok(default)
    ensures key in o ==> (r.Ok? <==> o[key].JString?)
  {
    if key !in o then Ok(default)
    else if o[key].JString? then Ok(o[key].s)
    else Err(WrongType(section, key))
  }

  function Strings(items: seq<Json>): (r: Option<seq<string>>)
    ensures r.Some? <==> forall i :: 0 <= i < |items| ==> items[i].JString?
    ensures r.Some? ==> |r.value| == |items| && forall i :: 0 <= i < |items| ==> r.value[i] == items[i].s
  {
    if forall i :: 0 <= i < |items| ==> items[i].JString? then Some(seq(|items|, i requires 0 <= i < |items| => items[i].s))
    else None
  }

  function StringListField(o: map<string, Json>, key: string): (r: Result<seq<string>, ConfigError>)
    ensures key !in o ==> r == Ok([])
  {
    if key !in o then Ok([])
    else if o[key].JArray? && Strings(o[key].items).Some? then Ok(Strings(o[key].items).value)
    else Err(WrongType("", key))
  }

  function StringsToJson(xs: seq<string>): (r: Json)
    ensures r.JArray? && Strings(r.items) == Some(xs)
  {
    var r := JArray(seq(|xs|, i requires 0 <= i < |xs| => JString(xs[i])));
    assert Strings(r.items).Some?;
    assert Strings(r.items).value == xs;
    r
  }

  /** A section given as keyword arguments to its record: it must be an
      object whose keys the record declares. */
  function SectionFields(section: string, j: Json, declared: set<string>): (r: Result<map<string, Json>, ConfigError>)
    ensures r.Ok? <==> j.JObject? && j.fields.Keys <= declared
    ensures r.Ok? ==> r.value == j.fields
  {
    if !j.JObject? then Err(NotAnObject(section))
    else if !(j.fields.Keys <= declared) then Err(UnknownKeys(section, j.fields.Keys - declared))
    else Ok(j.fields)
  }

  const CameraKeys: set<string> := {"device_id", "device_name", "resolution_width", "resolution_height", "fps"}
  const EmailKeys: set<string> := {"smtp_server", "smtp_port", "sender_email", "sender_password", "use_tls", "enabled"}
  const PrinterKeys: set<string> := {"printer_name", "enabled", "paper_size"}
  const ButtonsKeys: set<string> :=
    {"capture_normal", "capture_pressed", "choose_frame_normal", "choose_frame_pressed",
     "gallery_normal", "gallery_pressed", "capture_mode"}

  /** The keys the record of a section declares. */
  function DeclaredKeys(section: string): set<string> {
    if section == "camera" then CameraKeys
    else if section == "email" then EmailKeys
    else if section == "printer" then PrinterKeys
    else ButtonsKeys
  }

  function DecodeCamera(j: Json): Result<CameraConfig, ConfigError> {
    var o :- SectionFields("camera", j, CameraKeys);
    var d := CameraDefaults();
    var deviceId :- IntField("camera", o, "device_id", d.deviceId);
    var deviceName :- StringField("camera", o, "device_name", d.deviceName);
    var width :- IntField("camera", o, "resolution_width", d.resolutionWidth);
    var height :- IntField("camera", o, "resolution_height", d.resolutionHeight);
    var fps :- IntField("camera", o, "fps", d.fps);
    Ok(CameraConfig(deviceId, deviceName, width, height, fps))
  }

  function DecodeEmail(j: Json): Result<EmailConfig, ConfigError> {
    var o :- SectionFields("email", j, EmailKeys);
    var d := EmailDefaults();
    var server :- StringField("email", o, "smtp_server", d.smtpServer);
    var port :- IntField("email", o, "smtp_port", d.smtpPort);
    var sender :- StringField("email", o, "sender_email", d.senderEmail);
    var password :- StringField("email", o, "sender_password", d.senderPassword);
    var tls :- BoolField("email", o, "use_tls", d.useTls);
    var enabled :- BoolField("email", o, "enabled", d.enabled);
    Ok(EmailConfig(server, port, sender, password, tls, enabled))
  }

  function DecodePrinter(j: Json): Result<PrinterConfig, ConfigError> {
    var o :- SectionFields("printer", j, PrinterKeys);
    var d := PrinterDefaults();
    var name :- StringField("printer", o, "printer_name", d.printerName);
    var enabled :- BoolField("printer", o, "enabled", d.enabled);
    var paper :- StringField("printer", o, "paper_size", d.paperSize);
    Ok(PrinterConfig(name, enabled, paper))
  }

  function DecodeButtons(j: Json): Result<ButtonsConfig, ConfigError> {
    var o :- SectionFields("buttons", j, ButtonsKeys);
    var d := ButtonsDefaults();
    var a :- StringField("buttons", o, "capture_normal", d.captureNormal);
    var b :- StringField("buttons", o, "capture_pressed", d.capturePressed);
    var c :- StringField("buttons", o, "choose_frame_normal", d.chooseFrameNormal);
    var e :- StringField("buttons", o, "choose_frame_pressed", d.chooseFramePressed);
    var f :- StringField("buttons", o, "gallery_normal", d.galleryNormal);
    var g :- StringField("buttons", o, "gallery_pressed", d.galleryPressed);
    var mode :- StringField("buttons", o, "capture_mode", d.captureMode);
    Ok(ButtonsConfig(a, b, c, e, f, g, mode))
  }

  /** `data.get(key, {})` for a section. */
  function Section(o: map<string, Json>, key: string): Json {
    if key in o then o[key] else JObject(map[])
  }

  /** Where photos and sounds go. */
  datatype Files = Files(saveToDisk: bool, photosDirectory: string, shutterSoundPath: string, countdownSoundPath: string)

  /** The texts of the screens. */
  datatype Texts = Texts(homeTitle: string, homeSubtitle: string, previewTitle: string, homeStartButtonText: string)

  /** The start-up options. */
  datatype Options = Options(startFullscreen: bool, showNoFrameOption: bool, lastSelectedFrame: string)

  // The top-level fields, each with the default the loader spells out for a
  // missing key.

  function DecodeFiles(o: map<string, Json>): Result<Files, ConfigError> {
    var saveToDisk :- BoolField("", o, "save_to_disk", true);
    var photos :- StringField("", o, "photos_directory", "assets/photos");
    var shutter :- StringField("", o, "shutter_sound_path", "assets/sounds/shutter.wav");
    var countdown :- StringField("", o, "countdown_sound_path", "assets/sounds/beep.wav");
    Ok(Files(saveToDisk, photos, shutter, countdown))
  }

  function DecodeTexts(o: map<string, Json>): Result<Texts, ConfigError> {
    var title :- StringField("", o, "home_title", "Bienvenue au Photobooth!");
    var subtitle :- StringField("", o, "home_subtitle", "Choisissez votre cadre préféré");
    var preview :- StringField("", o, "preview_title", "Votre Photo!");
    var start :- StringField("", o, "home_start_button_text", "Commencer ➔");
    Ok(Texts(title, subtitle, preview, start))
  }

  function DecodeOptions(o: map<string, Json>): Result<Options, ConfigError> {
    var fullscreen :- BoolField("", o, "start_fullscreen", true);
    var noFrame :- BoolField("", o, "show_no_frame_option", true);
    var last :- StringField("", o, "last_selected_frame", "");
    Ok(Options(fullscreen, noFrame, last))
  }

  function DecodeTop(o: map<string, Json>, camera: CameraConfig, email: EmailConfig, printer: PrinterConfig,
                     buttons: ButtonsConfig): Result<AppConfig, ConfigError>
  {
    var frames :- StringListField(o, "available_frames");
    var files :- DecodeFiles(o);
    var texts :- DecodeTexts(o);
    var options :- DecodeOptions(o);
    Ok(AppConfig(camera, email, printer, buttons, frames,
                 files.saveToDisk, files.photosDirectory, files.shutterSoundPath, files.countdownSoundPath,
                 texts.homeTitle, texts.homeSubtitle, texts.previewTitle, texts.homeStartButtonText,
                 options.startFullscreen, options.showNoFrameOption, options.lastSelectedFrame))
  }

  /** `AppConfig.load(config_path)`: the built-in configuration when the file
      is absent; otherwise the parsed file, section by section, with a
      default for every missing key. A file that does not parse is an
      error, not the defaults. */
  function Load(file: ConfigFile): (r: Result<AppConfig, ConfigError>)
    ensures file.NoFile? ==> r == Ok(MissingFileConfig())
    ensures file.Unparsable? ==> r == Err(Malformed)
    ensures file.Parsed? && !file.json.JObject? ==> r == Err(NotAnObject(""))
  {
    match file
    case NoFile => Ok(MissingFileConfig())
    case Unparsable => Err(Malformed)
    case Parsed(j) =>
      if !j.JObject? then Err(NotAnObject(""))
      else
        var o := j.fields;
        var camera :- DecodeCamera(Section(o, "camera"));
        var email :- DecodeEmail(Section(o, "email"));
        var printer :- DecodePrinter(Section(o, "printer"));
        var buttons :- DecodeButtons(Section(o, "buttons"));
        DecodeTop(o, camera, email, printer, buttons)
  }

  // Saving.

  function CameraToJson(c: CameraConfig): Json {
    JObject(map["device_id" := JInt(c.deviceId), "device_name" := JString(c.deviceName),
                "resolution_width" := JInt(c.resolutionWidth), "resolution_height" := JInt(c.resolutionHeight),
                "fps" := JInt(c.fps)])
  }

  function EmailToJson(c: EmailConfig): Json {
    JObject(map["smtp_server" := JString(c.smtpServer), "smtp_port" := JInt(c.smtpPort),
                "sender_email" := JString(c.senderEmail), "sender_password" := JString(c.senderPassword),
                "use_tls" := JBool(c.useTls), "enabled" := JBool(c.enabled)])
  }

  function PrinterToJson(c: PrinterConfig): Json {
    JObject(map["printer_name" := JString(c.printerName), "enabled" := JBool(c.enabled),
                "paper_size" := JString(c.paperSize)])
  }

  function ButtonsToJson(c: ButtonsConfig): Json {
    JObject(map["capture_normal" := JString(c.captureNormal), "capture_pressed" := JString(c.capturePressed),
                "choose_frame_normal" := JString(c.chooseFrameNormal),
                "choose_frame_pressed" := JString(c.chooseFramePressed),
                "gallery_normal" := JString(c.galleryNormal), "gallery_pressed" := JString(c.galleryPressed),
                "capture_mode" := JString(c.captureMode)])
  }

  /** The keys `load` reads at the top level and `save` writes. */
  predicate IsTopKey(k: string) {
    k == "camera" || k == "email" || k == "printer" || k == "buttons" || k == "available_frames"
    || k == "save_to_disk" || k == "photos_directory" || k == "shutter_sound_path" || k == "countdown_sound_path"
    || k == "home_title" || k == "home_subtitle" || k == "preview_title" || k == "home_start_button_text"
    || k == "start_fullscreen" || k == "show_no_frame_option" || k == "last_selected_frame"
  }

  /** `AppConfig.save(config_path)`: the JSON value written, every field under
      its own key. */
  function Save(c: AppConfig): (j: Json)
    ensures j.JObject? && forall k :: k in j.fields <==> IsTopKey(k)
  {
    JObject(map[
      "camera" := CameraToJson(c.camera),
      "email" := EmailToJson(c.email),
      "printer" := PrinterToJson(c.printer),
      "buttons" := ButtonsToJson(c.buttons),
      "available_frames" := StringsToJson(c.availableFrames),
      "save_to_disk" := JBool(c.saveToDisk),
      "photos_directory" := JString(c.photosDirectory),
      "shutter_sound_path" := JString(c.shutterSoundPath),
      "countdown_sound_path" := JString(c.countdownSoundPath),
      "home_title" := JString(c.homeTitle),
      "home_subtitle" := JString(c.homeSubtitle),
      "preview_title" := JString(c.previewTitle),
      "home_start_button_text" := JString(c.homeStartButtonText),
      "start_fullscreen" := JBool(c.startFullscreen),
      "show_no_frame_option" := JBool(c.showNoFrameOption),
      "last_selected_frame" := JString(c.lastSelectedFrame)])
  }

  // Properties.

  /** `save` writes exactly the keys `load` reads. */
  lemma SaveWritesTopKeys(c: AppConfig, k: string)
    ensures k in Save(c).fields <==> IsTopKey(k)
  {
  }

  lemma CameraRoundTrip(c: CameraConfig)
    ensures DecodeCamera(CameraToJson(c)) == Ok(c)
  {
    assert CameraToJson(c).fields.Keys == CameraKeys;
  }

  lemma EmailRoundTrip(c: EmailConfig)
    ensures DecodeEmail(EmailToJson(c)) == Ok(c)
  {
    assert EmailToJson(c).fields.Keys == EmailKeys;
  }

  lemma PrinterRoundTrip(c: PrinterConfig)
    ensures DecodePrinter(PrinterToJson(c)) == Ok(c)
  {
    assert PrinterToJson(c).fields.Keys == PrinterKeys;
  }

  lemma ButtonsRoundTrip(c: ButtonsConfig)
    ensures DecodeButtons(ButtonsToJson(c)) == Ok(c)
  {
    assert ButtonsToJson(c).fields.Keys == ButtonsKeys;
  }

  // The values `save` writes under each top-level key, group by group.

  lemma SaveSectionLookups(c: AppConfig)
    ensures Section(Save(c).fields, "camera") == CameraToJson(c.camera)
    ensures Section(Save(c).fields, "email") == EmailToJson(c.email)
    ensures Section(Save(c).fields, "printer") == PrinterToJson(c.printer)
    ensures Section(Save(c).fields, "buttons") == ButtonsToJson(c.buttons)
  {
  }

  lemma SaveFramesLookup(c: AppConfig)
    ensures StringListField(Save(c).fields, "available_frames") == Ok(c.availableFrames)
  {
    assert Save(c).fields["available_frames"] == StringsToJson(c.availableFrames);
  }

  lemma SaveFilesLookups(c: AppConfig)
    ensures Save(c).fields["save_to_disk"] == JBool(c.saveToDisk)
    ensures Save(c).fields["photos_directory"] == JString(c.photosDirectory)
    ensures Save(c).fields["shutter_sound_path"] == JString(c.shutterSoundPath)
    ensures Save(c).fields["countdown_sound_path"] == JString(c.countdownSoundPath)
  {
  }

  lemma SaveTextsLookups(c: AppConfig)
    ensures Save(c).fields["home_title"] == JString(c.homeTitle)
    ensures Save(c).fields["home_subtitle"] == JString(c.homeSubtitle)
    ensures Save(c).fields["preview_title"] == JString(c.previewTitle)
    ensures Save(c).fields["home_start_button_text"] == JString(c.homeStartButtonText)
  {
  }

  lemma SaveOptionsLookups(c: AppConfig)
    ensures Save(c).fields["start_fullscreen"] == JBool(c.startFullscreen)
    ensures Save(c).fields["show_no_frame_option"] == JBool(c.showNoFrameOption)
    ensures Save(c).fields["last_selected_frame"] == JString(c.lastSelectedFrame)
  {
  }

  lemma FilesRoundTrip(c: AppConfig)
    ensures DecodeFiles(Save(c).fields) == Ok(Files(c.saveToDisk, c.photosDirectory, c.shutterSoundPath, c.countdownSoundPath))
  {
    SaveFilesLookups(c);
    FilesDecode(Save(c).fields, c.saveToDisk, c.photosDirectory, c.shutterSoundPath, c.countdownSoundPath);
  }

  /** An object holding values of the right types decodes to them. */
  lemma FilesDecode(o: map<string, Json>, saveToDisk: bool, photos: string, shutter: string, countdown: string)
    requires "save_to_disk" in o && o["save_to_disk"] == JBool(saveToDisk)
    requires "photos_directory" in o && o["photos_directory"] == JString(photos)
    requires "shutter_sound_path" in o && o["shutter_sound_path"] == JString(shutter)
    requires "countdown_sound_path" in o && o["countdown_sound_path"] == JString(countdown)
    ensures DecodeFiles(o) == Ok(Files(saveToDisk, photos, shutter, countdown))
  {
  }

  lemma TextsRoundTrip(c: AppConfig)
    ensures DecodeTexts(Save(c).fields) == Ok(Texts(c.homeTitle, c.homeSubtitle, c.previewTitle, c.homeStartButtonText))
  {
    SaveTextsLookups(c);
    TextsDecode(Save(c).fields, c.homeTitle, c.homeSubtitle, c.previewTitle, c.homeStartButtonText);
  }

  lemma TextsDecode(o: map<string, Json>, title: string, subtitle: string, preview: string, start: string)
    requires "home_title" in o && o["home_title"] == JString(title)
    requires "home_subtitle" in o && o["home_subtitle"] == JString(subtitle)
    requires "preview_title" in o && o["preview_title"] == JString(preview)
    requires "home_start_button_text" in o && o["home_start_button_text"] == JString(start)
    ensures DecodeTexts(o) == Ok(Texts(title, subtitle, preview, start))
  {
  }

  lemma OptionsRoundTrip(c: AppConfig)
    ensures DecodeOptions(Save(c).fields) == Ok(Options(c.startFullscreen, c.showNoFrameOption, c.lastSelectedFrame))
  {
    SaveOptionsLookups(c);
    OptionsDecode(Save(c).fields, c.startFullscreen, c.showNoFrameOption, c.lastSelectedFrame);
  }

  lemma OptionsDecode(o: map<string, Json>, fullscreen: bool, noFrame: bool, last: string)
    requires "start_fullscreen" in o && o["start_fullscreen"] == JBool(fullscreen)
    requires "show_no_frame_option" in o && o["show_no_frame_option"] == JBool(noFrame)
    requires "last_selected_frame" in o && o["last_selected_frame"] == JString(last)
    ensures DecodeOptions(o) == Ok(Options(fullscreen, noFrame, last))
  {
  }

  lemma TopRoundTrip(c: AppConfig)
    ensures DecodeTop(Save(c).fields, c.camera, c.email, c.printer, c.buttons) == Ok(c)
  {
    SaveFramesLookup(c);
    FilesRoundTrip(c);
    TextsRoundTrip(c);
    OptionsRoundTrip(c);
  }

  /** Whatever `save` writes, `load` reads back unchanged. */
  lemma LoadSaveRoundTrip(c: AppConfig)
    ensures Load(Parsed(Save(c))) == Ok(c)
  {
    SaveSectionLookups(c);
    CameraRoundTrip(c.camera);
    EmailRoundTrip(c.email);
    PrinterRoundTrip(c.printer);
    ButtonsRoundTrip(c.buttons);
    TopRoundTrip(c);
    LoadDecode(Save(c).fields, c);
  }

  /** An object whose sections and top-level keys decode to a configuration
      loads as that configuration. */
  lemma LoadDecode(o: map<string, Json>, c: AppConfig)
    requires DecodeCamera(Section(o, "camera")) == Ok(c.camera)
    requires DecodeEmail(Section(o, "email")) == Ok(c.email)
    requires DecodePrinter(Section(o, "printer")) == Ok(c.printer)
    requires DecodeButtons(Section(o, "buttons")) == Ok(c.buttons)
    requires DecodeTop(o, c.camera, c.email, c.printer, c.buttons) == Ok(c)
    ensures Load(Parsed(JObject(o))) == Ok(c)
  {
  }

  /** Each section missing from the file loads as its record's defaults. */
  lemma MissingSectionsDefault()
    ensures DecodeCamera(JObject(map[])) == Ok(CameraDefaults())
    ensures DecodeEmail(JObject(map[])) == Ok(EmailDefaults())
    ensures DecodePrinter(JObject(map[])) == Ok(PrinterDefaults())
    ensures DecodeButtons(JObject(map[])) == Ok(ButtonsDefaults())
  {
  }

  /** The three spellings of the defaults agree: an absent file, an empty
      object, and the record's declared defaults give one configuration. */
  lemma DefaultsAgree()
    ensures Load(NoFile) == Ok(DeclaredDefaults())
    ensures Load(Parsed(JObject(map[]))) == Ok(DeclaredDefaults())
  {
    MissingSectionsDefault();
  }

  /** A key the loader does not read at the top level changes nothing. */
  lemma UnknownTopLevelKeyIgnored(o: map<string, Json>, key: string, v: Json)
    requires !IsTopKey(key)
    ensures Load(Parsed(JObject(o[key := v]))) == Load(Parsed(JObject(o)))
  {
    var o' := o[key := v];
    assert Section(o', "camera") == Section(o, "camera");
    assert Section(o', "email") == Section(o, "email");
    assert Section(o', "printer") == Section(o, "printer");
    assert Section(o', "buttons") == Section(o, "buttons");
    assert StringListField(o', "available_frames") == StringListField(o, "available_frames");
    FilesReadOwnKeys(o', o);
    TextsReadOwnKeys(o', o);
    OptionsReadOwnKeys(o', o);
  }

  /** Two objects agree on a key: both lack it, or both map it to one value. */
  predicate AgreeOn(o1: map<string, Json>, o2: map<string, Json>, k: string) {
    (k in o1 <==> k in o2) && (k in o1 ==> o1[k] == o2[k])
  }

  lemma FilesReadOwnKeys(o1: map<string, Json>, o2: map<string, Json>)
    requires AgreeOn(o1, o2, "save_to_disk") && AgreeOn(o1, o2, "photos_directory")
    requires AgreeOn(o1, o2, "shutter_sound_path") && AgreeOn(o1, o2, "countdown_sound_path")
    ensures DecodeFiles(o1) == DecodeFiles(o2)
  {
  }

  lemma TextsReadOwnKeys(o1: map<string, Json>, o2: map<string, Json>)
    requires AgreeOn(o1, o2, "home_title") && AgreeOn(o1, o2, "home_subtitle")
    requires AgreeOn(o1, o2, "preview_title") && AgreeOn(o1, o2, "home_start_button_text")
    ensures DecodeTexts(o1) == DecodeTexts(o2)
  {
  }

  lemma OptionsReadOwnKeys(o1: map<string, Json>, o2: map<string, Json>)
    requires AgreeOn(o1, o2, "start_fullscreen") && AgreeOn(o1, o2, "show_no_frame_option")
    requires AgreeOn(o1, o2, "last_selected_frame")
    ensures DecodeOptions(o1) == DecodeOptions(o2)
  {
  }

  /** A key that a section's record does not declare makes loading fail. */
  lemma UnknownSectionKeyRejected(o: map<string, Json>, section: string, fields: map<string, Json>, key: string)
    requires section == "camera" || section == "email" || section == "printer" || section == "buttons"
    requires section in o && o[section] == JObject(fields)
    requires key in fields && key !in DeclaredKeys(section)
    ensures Load(Parsed(JObject(o))).Err?
  {
    assert key in fields.Keys - DeclaredKeys(section);
    assert SectionFields(section, Section(o, section), DeclaredKeys(section)).Err?;
  }

  /** A file holding only a new title loads as the defaults with that title. */
  lemma LoadOverridesOneKey(title: string)
    ensures Load(Parsed(JObject(map["home_title" := JString(title)]))) == Ok(DeclaredDefaults().(homeTitle := title))
  {
    MissingSectionsDefault();
  }
}
