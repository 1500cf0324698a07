/** src/views/preview_screen.py: the screen that shows a captured photo and
    offers to e-mail or print it, with its touch keyboard for typing an
    address. The Qt widgets are left out; what is modelled is the text the
    keyboard holds, the addresses remembered, the requests the screen emits,
    and the colour arithmetic of its buttons. */
module Preview {
  import opened Wrappers
  import opened Text

  const DefaultTitle: string := "Votre Photo!"

  // Hexadecimal colours.

  predicate IsHexDigit(c: char) {
    '0' <= c <= '9' || 'a' <= c <= 'f' || 'A' <= c <= 'F'
  }

  predicate IsLowerHexDigit(c: char) {
    '0' <= c <= '9' || 'a' <= c <= 'f'
  }

  function HexDigitValue(c: char): (v: nat)
    requires IsHexDigit(c)
    ensures v < 16
  {
    if '0' <= c <= '9' then (c as int - '0' as int)
    else if 'a' <= c <= 'f' then (c as int - 'a' as int) + 10
    else (c as int - 'A' as int) + 10
  }

  function HexValue(s: string): nat
    requires forall i :: 0 <= i < |s| ==> IsHexDigit(s[i])
  {
    if s == [] then 0 else 16 * HexValue(s[..|s| - 1]) + HexDigitValue(s[|s| - 1])
  }

  function HexChar(d: nat): (c: char)
    requires d < 16
    ensures IsLowerHexDigit(c) && IsHexDigit(c) && HexDigitValue(c) == d
  {
    if d < 10 then ('0' as int + d) as char else ('a' as int + d - 10) as char
  }

  /** `f"{n:02x}"` for a channel value. */
  function Hex2(n: nat): (s: string)
    requires n < 256
    ensures |s| == 2 && IsLowerHexDigit(s[0]) && IsLowerHexDigit(s[1])
  {
    [HexChar(n / 16), HexChar(n % 16)]
  }

  /** `int(s, 16)` for the one- or two-character slices the colour code
      reads: surrounding whitespace and a sign are allowed, and at least one
      hexadecimal digit is needed. */
  function ParseHexField(s: string): (r: Option<int>)
    requires |s| <= 2
    ensures r.Some? ==> -15 <= r.value <= 255
  {
    var t := Strip(s);
    StripIsTrimmedSlice(s);
    StripEnds(s);
    if t == [] then None
    else
      var negative := t[0] == '-';
      var digits := if t[0] == '+' || t[0] == '-' then t[1..] else t;
      if digits == [] || !(forall i :: 0 <= i < |digits| ==> IsHexDigit(digits[i])) then None
      else
        assert |digits| == 1 ==> HexValue(digits) == HexDigitValue(digits[0]);
        assert |digits| == 2 ==> digits[..1] == [digits[0]];
        assert |digits| == 2 ==> HexValue(digits) == 16 * HexDigitValue(digits[0]) + HexDigitValue(digits[1]) by {
          if |digits| == 2 {
            assert digits[..1][..0] == [];
            assert HexValue(digits[..1]) == HexDigitValue(digits[0]);
          }
        }
        assert negative ==> |digits| <= 1;
        var magnitude: int := HexValue(digits);
        var v := if negative then 0 - magnitude else magnitude;
        Some(v)
  }

  /** Python's `s[i:j]` for `0 <= i <= j`: clamped to the string. */
  function Slice(s: string, i: nat, j: nat): (r: string)
    requires i <= j
    ensures |r| <= j - i
  {
    var hi := if j <= |s| then j else |s|;
    var lo := if i <= hi then i else hi;
    s[lo..hi]
  }

  /** A channel darkened by 30, never below 0. */
  function Dim(v: int): nat {
    if v - 30 > 0 then v - 30 else 0
  }

  /** Dimming darkens: a channel never gets brighter, only channels of at
      most 30 go black, and a brighter channel stays at least as bright. */
  lemma DimDarkens(v: int, w: int)
    ensures 0 <= v ==> Dim(v) <= v
    ensures Dim(v) == 0 <==> v <= 30
    ensures v <= w ==> Dim(v) <= Dim(w)
  {
  }

  datatype ColorError = InvalidHex

  /** The colour code of three channels. */
  function HexColor(red: nat, green: nat, blue: nat): (s: string)
    requires red < 256 && green < 256 && blue < 256
    ensures |s| == 7 && s[0] == '#' && forall i :: 1 <= i < 7 ==> IsLowerHexDigit(s[i])
  {
    var r, g, b := Hex2(red), Hex2(green), Hex2(blue);
    var s := "#" + r + g + b;
    assert s[1] == r[0] && s[2] == r[1] && s[3] == g[0] && s[4] == g[1] && s[5] == b[0] && s[6] == b[1];
    s
  }

  /** `_darken_color(color)`: an optional leading `#` is dropped, the first
      six characters are read as three channels, and each is darkened. The
      result is `#` followed by six lowercase hexadecimal digits. */
  function DarkenColor(color: string): (r: Result<string, ColorError>)
    ensures r.Ok? ==> |r.value| == 7 && r.value[0] == '#'
                      && forall i :: 1 <= i < 7 ==> IsLowerHexDigit(r.value[i])
  {
    var c := if StartsWith(color, "#") then color[1..] else color;
    var red := ParseHexField(Slice(c, 0, 2));
    var green := ParseHexField(Slice(c, 2, 4));
    var blue := ParseHexField(Slice(c, 4, 6));
    if red.None? || green.None? || blue.None? then Err(InvalidHex)
    else Ok(HexColor(Dim(red.value), Dim(green.value), Dim(blue.value)))
  }

  lemma HexValueOfHex2(n: nat)
    requires n < 256
    ensures forall i :: 0 <= i < 2 ==> IsHexDigit(Hex2(n)[i])
    ensures HexValue(Hex2(n)) == n
  {
    var s := Hex2(n);
    assert s[..1] == [s[0]];
    assert s[..1][..0] == [];
    assert HexValue(s[..1]) == n / 16;
    assert HexValue(s) == 16 * (n / 16) + n % 16;
  }

  lemma ParseHex2(n: nat)
    requires n < 256
    ensures ParseHexField(Hex2(n)) == Some(n)
  {
    var s := Hex2(n);
    HexValueOfHex2(n);
    StripUnpadded(s);
  }

  /** Darkening a colour code lowers each channel by 30, stopping at 0, so
      no channel ever gets brighter. */
  lemma DarkenHexColor(red: nat, green: nat, blue: nat)
    requires red < 256 && green < 256 && blue < 256
    ensures DarkenColor(HexColor(red, green, blue)) == Ok(HexColor(Dim(red), Dim(green), Dim(blue)))
    ensures Dim(red) <= red && Dim(green) <= green && Dim(blue) <= blue
  {
    var code := HexColor(red, green, blue);
    var c := code[1..];
    assert code == "#" + Hex2(red) + Hex2(green) + Hex2(blue);
    assert StartsWith(code, "#");
    assert c == Hex2(red) + Hex2(green) + Hex2(blue);
    assert Slice(c, 0, 2) == Hex2(red);
    assert Slice(c, 2, 4) == Hex2(green);
    assert Slice(c, 4, 6) == Hex2(blue);
    ParseHex2(red);
    ParseHex2(green);
    ParseHex2(blue);
  }

  /** The leading `#` is optional. */
  lemma DarkenIgnoresHash(color: string)
    requires !StartsWith(color, "#")
    ensures DarkenColor("#" + color) == DarkenColor(color)
  {
    assert StartsWith("#" + color, "#");
    assert ("#" + color)[1..] == color;
  }

  // The touch keyboard.

  /** `VirtualKeyboardDialog`: the text typed so far, the addresses offered
      as shortcuts, and whether the dialog was accepted. */
  class Keyboard {
    var text: string
    const recentEmails: seq<string>
    var accepted: bool

    constructor (recentEmails: seq<string>)
      ensures text == [] && this.recentEmails == recentEmails && !accepted
    {
      text := [];
      this.recentEmails := recentEmails;
      accepted := false;
    }

    /** `_select_recent(email)` */
    method SelectRecent(email: string)
      modifies this
      ensures text == email && accepted == old(accepted)
    {
      text := email;
    }

    /** `_type_key(key)`: appends exactly the key. */
    method TypeKey(key: string)
      modifies this
      ensures text == old(text) + key && accepted == old(accepted)
    {
      text := text + key;
    }

    /** `_backspace()`: drops the last character; an empty text stays empty. */
    method Backspace()
      modifies this
      ensures old(text) == [] ==> text == []
      ensures old(text) != [] ==> text + [old(text)[|old(text)| - 1]] == old(text)
      ensures accepted == old(accepted)
    {
      if text != [] {
        text := text[..|text| - 1];
      }
    }

    /** The clear key. */
    method Clear()
      modifies this
      ensures text == [] && accepted == old(accepted)
    {
      text := [];
    }

    /** `get_email()` */
    function Email(): (e: string)
      reads this
    {
      Strip(text)
    }

    /** `_on_send()`: the dialog closes as accepted only for a non-blank text
        holding an `@`; otherwise it stays open. */
    method Send()
      modifies this
      ensures accepted == (old(accepted) || IsAddress(text))
      ensures text == old(text)
    {
      if IsAddress(text) {
        accepted := true;
      }
    }
  }

  /** What `_on_send` accepts. */
  predicate IsAddress(text: string) {
    Strip(text) != [] && '@' in Strip(text)
  }

  /** An accepted text yields an address that is non-empty, holds an `@` and
      has no surrounding whitespace. */
  lemma AcceptedAddress(text: string)
    requires IsAddress(text)
    ensures Strip(text) != [] && '@' in Strip(text) && Strip(Strip(text)) == Strip(text)
  {
    StripIdempotent(text);
  }

  /** Typing a key and erasing it leaves the text as it was. */
  lemma TypeThenBackspace(text: string, key: char)
    ensures (text + [key])[..|text + [key]| - 1] == text
  {
  }

  // The preview screen.

  /** A request the screen emits. */
  datatype Request = SendEmail(recipient: string, path: string) | PrintPhoto(path: string)

  predicate NoDuplicates(s: seq<string>) {
    forall i, j :: 0 <= i < j < |s| ==> s[i] != s[j]
  }

  class PreviewScreen {
    var title: string
    var savedPath: string
    var recentEmails: seq<string>
    var emailVisible: bool
    var printVisible: bool
    var requests: seq<Request>

    /** Remembered addresses are never repeated, and every request names a
        saved photo. */
    predicate Valid()
      reads this
    {
      NoDuplicates(recentEmails) && forall k :: 0 <= k < |requests| ==> requests[k].path != []
    }

    constructor ()
      ensures title == DefaultTitle && savedPath == [] && recentEmails == [] && requests == []
      ensures emailVisible && printVisible && Valid()
    {
      title := DefaultTitle;
      savedPath := [];
      recentEmails := [];
      emailVisible := true;
      printVisible := true;
      requests := [];
    }

    /** `set_preview_title(title)`: an empty title falls back to the default. */
    method SetPreviewTitle(t: string)
      modifies this
      ensures title == (if t == [] then DefaultTitle else t)
      ensures title != []
      ensures savedPath == old(savedPath) && recentEmails == old(recentEmails) && requests == old(requests)
      ensures emailVisible == old(emailVisible) && printVisible == old(printVisible)
    {
      title := if t == [] then DefaultTitle else t;
    }

    /** `set_enabled_actions(email_enabled, print_enabled)` */
    method SetEnabledActions(emailEnabled: bool, printEnabled: bool)
      modifies this
      ensures emailVisible == emailEnabled && printVisible == printEnabled
      ensures title == old(title) && savedPath == old(savedPath)
      ensures recentEmails == old(recentEmails) && requests == old(requests)
    {
      emailVisible := emailEnabled;
      printVisible := printEnabled;
    }

    /** `set_photo(photo, saved_path)`, as far as the saved path goes. */
    method SetPhoto(path: string)
      requires Valid()
      modifies this
      ensures savedPath == path && Valid()
      ensures title == old(title) && recentEmails == old(recentEmails) && requests == old(requests)
      ensures emailVisible == old(emailVisible) && printVisible == old(printVisible)
    {
      savedPath := path;
    }

    /** `on_email_clicked()`, where `typed` is the keyboard's text when the
        dialog was accepted and `None` when it was cancelled. A new address
        is remembered after the others; a request is sent only for a saved
        photo and a non-blank address. */
    method OnEmailClicked(typed: Option<string>)
      requires Valid()
      modifies this
      ensures Valid()
      ensures savedPath == old(savedPath) && title == old(title)
      ensures emailVisible == old(emailVisible) && printVisible == old(printVisible)
      ensures var sent := old(savedPath) != [] && typed.Some? && Strip(typed.value) != [];
              && (sent ==> requests == old(requests) + [SendEmail(Strip(typed.value), savedPath)])
              && (!sent ==> requests == old(requests) && recentEmails == old(recentEmails))
              && (sent ==> recentEmails == (if Strip(typed.value) in old(recentEmails) then old(recentEmails)
                                            else old(recentEmails) + [Strip(typed.value)]))
    {
      if savedPath == [] {
        return;
      }
      if typed.Some? {
        var email := Strip(typed.value);
        if email != [] {
          if email !in recentEmails {
            recentEmails := recentEmails + [email];
          }
          requests := requests + [SendEmail(email, savedPath)];
        }
      }
    }

    /** `on_print_clicked()`: a print request only for a saved photo. */
    method OnPrintClicked()
      requires Valid()
      modifies this
      ensures Valid()
      ensures requests == (if old(savedPath) != [] then old(requests) + [PrintPhoto(savedPath)] else old(requests))
      ensures savedPath == old(savedPath) && recentEmails == old(recentEmails) && title == old(title)
      ensures emailVisible == old(emailVisible) && printVisible == old(printVisible)
    {
      if savedPath != [] {
        requests := requests + [PrintPhoto(savedPath)];
      }
    }
  }
}
