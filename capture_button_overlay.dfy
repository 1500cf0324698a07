/** src/views/capture_button_overlay.py: the HTML capture button laid over
    the capture screen. With the web engine available it is a web view whose
    page reports clicks through a web channel; without it, a hidden empty
    widget stands in. */
module CaptureButton {
  import opened Overlay

  const FixedWidth: int := 280
  const FixedHeight: int := 300

  class CaptureButtonOverlay {
    /** Whether the web engine could be imported. */
    const webEngine: bool
    const width: int
    const height: int
    /** Whether `hide()` was called on the widget. */
    var hidden: bool
    /** The page given to the web view (empty for the stand-in). */
    const html: string
    /** How many `clicked` signals were sent. */
    var clicks: nat

    /** Either variant's constructor: both are fixed at 280 by 300; only
        the stand-in hides itself, and only the web view loads the page with
        the web-channel block injected. */
    constructor (webEngine: bool, buttonHtml: string, block: string)
      ensures this.webEngine == webEngine
      ensures width == FixedWidth && height == FixedHeight
      ensures hidden <==> !webEngine
      ensures webEngine ==> html == InjectWebChannel(buttonHtml, block)
      ensures !webEngine ==> html == []
      ensures clicks == 0
    {
      this.webEngine := webEngine;
      width, height := FixedWidth, FixedHeight;
      hidden := !webEngine;
      html := if webEngine then InjectWebChannel(buttonHtml, block) else [];
      clicks := 0;
    }

    /** A `photo_taken` from the page's bridge, which only the web view
        has, is sent on as `clicked`. */
    method OnPhotoTaken()
      requires webEngine
      modifies this
      ensures clicks == old(clicks) + 1 && hidden == old(hidden)
    {
      clicks := clicks + 1;
    }
  }
}
