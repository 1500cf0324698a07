/** src/views/photobooth_overlay.py: a frameless web view showing the HTML
    capture button, bridged to Python through a web channel. The web engine
    is left out; what is modelled is the HTML the view is given, its
    geometry, and the forwarding of clicks. */
module Overlay {
  import opened Wrappers
  import opened Text

  const HeadClose: string := "</head>"
  const DefaultSize: (int, int) := (280, 300)

  /** Python's `s.replace(pat, rep, 1)`. */
  function ReplaceFirst(s: string, pat: string, rep: string): string {
    match Find(s, pat)
    case None => s
    case Some(i) => s[..i] + rep + s[i + |pat|..]
  }

  /** `_inject_webchannel(html)`, where `block` is the script block that
      loads qwebchannel.js and binds `window.pybridge`: the block is
      inserted right before the first `</head>`; a page without one is left
      as it is. */
  function InjectWebChannel(html: string, block: string): (r: string)
    ensures Find(html, HeadClose).None? ==> r == html
    ensures Find(html, HeadClose).Some? ==>
              var i := Find(html, HeadClose).value;
              i + |HeadClose| <= |html| && r == html[..i] + block + html[i..]
  {
    var r := ReplaceFirst(html, HeadClose, block + HeadClose);
    if Find(html, HeadClose).Some? then
      var i := Find(html, HeadClose).value;
      assert html[i..][..|HeadClose|] == HeadClose;
      assert html[i..] == HeadClose + html[i + |HeadClose|..];
      r
    else r
  }

  /** The injection only adds: the page grows by exactly the block, the text
      before the first `</head>` and everything from it on (later
      `</head>`s included) are kept, and cutting the block out again gives
      back the page. */
  lemma InjectionIsInsertion(html: string, block: string)
    requires Contains(html, HeadClose)
    ensures var i := Find(html, HeadClose).value;
            var r := InjectWebChannel(html, block);
            |r| == |html| + |block|
            && r[..i] == html[..i]
            && r[i..i + |block|] == block
            && r[i + |block|..] == html[i..]
            && StartsWith(r[i + |block|..], HeadClose)
            && r[..i] + r[i + |block|..] == html
  {
    var i := Find(html, HeadClose).value;
    var r := InjectWebChannel(html, block);
    assert r == html[..i] + block + html[i..];
    assert r[..i] == html[..i];
    assert r[i..i + |block|] == block;
    assert r[i + |block|..] == html[i..];
    assert html[..i] + html[i..] == html;
  }

  /** Where the overlay is placed: at `position` when one is given,
      otherwise centred on the screen's available area, rounding towards
      the top left. */
  function InitialPosition(position: Option<(int, int)>, screenWidth: int, screenHeight: int, size: (int, int)): (p: (int, int))
    ensures position.Some? ==> p == position.value
    ensures position.None? ==>
              2 * p.0 <= screenWidth - size.0 < 2 * p.0 + 2
              && 2 * p.1 <= screenHeight - size.1 < 2 * p.1 + 2
  {
    match position
    case Some(xy) => xy
    case None => ((screenWidth - size.0) / 2, (screenHeight - size.1) / 2)
  }

  /** With no explicit position, the margins left and right (top and
      bottom) of the overlay differ by at most one pixel. */
  lemma CentredMargins(screenWidth: int, screenHeight: int, size: (int, int))
    ensures var p := InitialPosition(None, screenWidth, screenHeight, size);
            var right := screenWidth - (p.0 + size.0);
            var bottom := screenHeight - (p.1 + size.1);
            (right == p.0 || right == p.0 + 1) && (bottom == p.1 || bottom == p.1 + 1)
  {
    var p := InitialPosition(None, screenWidth, screenHeight, size);
    assert 2 * p.0 <= screenWidth - size.0 < 2 * p.0 + 2;
  }

  class PhotoboothOverlay {
    var x: int
    var y: int
    const width: int
    const height: int
    /** The page the view was given. */
    const html: string
    /** Whether an `on_click` callable was given. */
    const hasHandler: bool
    /** How many times `on_click` ran. */
    var handled: nat

    /** `PhotoboothOverlay(parent, size, position, on_click)` on a screen
        whose available area is `screenWidth` by `screenHeight`, showing
        `buttonHtml` with the web-channel block injected. */
    constructor (size: (int, int) := DefaultSize, position: Option<(int, int)> := None, screenWidth: int, screenHeight: int,
                 hasHandler: bool, buttonHtml: string, block: string)
      ensures (width, height) == size
      ensures (x, y) == InitialPosition(position, screenWidth, screenHeight, size)
      ensures html == InjectWebChannel(buttonHtml, block)
      ensures this.hasHandler == hasHandler && handled == 0
    {
      width, height := size.0, size.1;
      var p := InitialPosition(position, screenWidth, screenHeight, size);
      x, y := p.0, p.1;
      html := InjectWebChannel(buttonHtml, block);
      this.hasHandler := hasHandler;
      handled := 0;
    }

    /** `move_to(x, y)`. */
    method MoveTo(newX: int, newY: int)
      modifies this
      ensures x == newX && y == newY && handled == old(handled)
    {
      x, y := newX, newY;
    }

    /** A `photo_taken` from the page runs `on_click` when one was given. */
    method OnPhotoTaken()
      modifies this
      ensures handled == (if hasHandler then old(handled) + 1 else old(handled))
      ensures x == old(x) && y == old(y)
    {
      if hasHandler {
        handled := handled + 1;
      }
    }
  }
}
