/** The string operations of Python's `str` and `os.path` that the photobooth
    relies on: `strip`, `in`, `startswith`/`endswith`, ASCII `lower`,
    `splitlines`, `str(int)`, zero padding, and POSIX `join`/`basename`. */
module Text {
  import opened Wrappers

  /** The characters `str.isspace` accepts, which `str.strip()` removes. */
  predicate IsSpace(c: char) {
    c == ' ' || ('\t' <= c <= '\r') || ('\U{1C}' <= c <= '\U{1F}')
    || c == '\U{85}' || c == '\U{A0}' || c == '\U{1680}'
    || ('\U{2000}' <= c <= '\U{200A}') || c == '\U{2028}' || c == '\U{2029}'
    || c == '\U{202F}' || c == '\U{205F}' || c == '\U{3000}'
  }

  predicate AllSpace(s: string) {
    forall i :: 0 <= i < |s| ==> IsSpace(s[i])
  }

  /** `s.lstrip()`: the input once leading whitespace is gone. */
  function TrimStart(s: string): string {
    if s != [] && IsSpace(s[0]) then TrimStart(s[1..]) else s
  }

  /** `lstrip` leaves a suffix and removes only whitespace, all of it. */
  lemma {:induction false} TrimStartSpec(s: string)
    ensures |TrimStart(s)| <= |s| && TrimStart(s) == s[|s| - |TrimStart(s)|..]
    ensures TrimStart(s) == [] || !IsSpace(TrimStart(s)[0])
    ensures AllSpace(s[..|s| - |TrimStart(s)|])
  {
    if s != [] && IsSpace(s[0]) {
      TrimStartSpec(s[1..]);
      var r := TrimStart(s[1..]);
      assert s[..|s| - |r|] == [s[0]] + s[1..][..|s| - 1 - |r|];
    }
  }

  /** `s.rstrip()`: the input once trailing whitespace is gone. */
  function TrimEnd(s: string): string {
    if s != [] && IsSpace(s[|s| - 1]) then TrimEnd(s[..|s| - 1]) else s
  }

  /** `rstrip` leaves a prefix and removes only whitespace, all of it. */
  lemma {:induction false} TrimEndSpec(s: string)
    ensures |TrimEnd(s)| <= |s| && TrimEnd(s) == s[..|TrimEnd(s)|]
    ensures TrimEnd(s) == [] || !IsSpace(TrimEnd(s)[|TrimEnd(s)| - 1])
    ensures AllSpace(s[|TrimEnd(s)|..])
  {
    if s != [] && IsSpace(s[|s| - 1]) {
      TrimEndSpec(s[..|s| - 1]);
      var r := TrimEnd(s[..|s| - 1]);
      assert s[|r|..] == s[..|s| - 1][|r|..] + [s[|s| - 1]];
    }
  }

  /** `s.strip()` */
  function Strip(s: string): string {
    TrimEnd(TrimStart(s))
  }

  /** What `strip` promises: a contiguous piece of the input with whitespace
      only around it... */
  lemma {:induction false} StripIsTrimmedSlice(s: string)
    ensures exists i, j :: 0 <= i <= j <= |s| && Strip(s) == s[i..j]
                           && AllSpace(s[..i]) && AllSpace(s[j..])
  {
    TrimStartSpec(s);
    var t := TrimStart(s);
    TrimEndSpec(t);
    var i := |s| - |t|;
    var r := TrimEnd(t);
    var j := i + |r|;
    assert r == s[i..j];
    assert s[j..] == t[|r|..];
    assert AllSpace(s[..i]) && AllSpace(s[j..]);
  }

  /** ...and no whitespace left at either end. */
  lemma StripEnds(s: string)
    ensures Strip(s) == [] || (!IsSpace(Strip(s)[0]) && !IsSpace(Strip(s)[|Strip(s)| - 1]))
  {
    TrimStartSpec(s);
    var t := TrimStart(s);
    TrimEndSpec(t);
    var r := TrimEnd(t);
    if r != [] {
      assert r[0] == t[0];
    }
  }

  /** A string with no whitespace at either end strips to itself. */
  lemma StripUnpadded(s: string)
    requires s == [] || (!IsSpace(s[0]) && !IsSpace(s[|s| - 1]))
    ensures Strip(s) == s
  {
    if s != [] {
      assert TrimStart(s) == s;
      assert TrimEnd(s) == s;
    }
  }

  /** Stripping twice is stripping once. */
  lemma {:induction false} StripIdempotent(s: string)
    ensures Strip(Strip(s)) == Strip(s)
  {
    StripEnds(s);
    StripUnpadded(Strip(s));
  }

  /** A string strips to nothing exactly when it is all whitespace. */
  lemma {:induction false} StripEmptyIffAllSpace(s: string)
    ensures Strip(s) == [] <==> AllSpace(s)
  {
    TrimStartSpec(s);
    var t := TrimStart(s);
    TrimEndSpec(t);
    var k := |s| - |t|;
    var r := TrimEnd(t);
    if r == [] {
      assert t == [] by { assert t[|r|..] == t; }
      assert s[..k] == s;
    }
    if t != [] {
      assert t[0] == s[k];
    }
  }

  predicate StartsWith(s: string, prefix: string) {
    |prefix| <= |s| && s[..|prefix|] == prefix
  }

  predicate EndsWith(s: string, suffix: string) {
    |suffix| <= |s| && s[|s| - |suffix|..] == suffix
  }

  /** Python's `sub in s`: `sub` starts at some position of `s`. */
  predicate Contains(s: string, sub: string)
    decreases |s|
  {
    StartsWith(s, sub) || (s != [] && Contains(s[1..], sub))
  }

  /** The first index at which `sub` occurs in `s` at or after `from`. */
  function FindFrom(s: string, sub: string, from: nat): (r: Option<nat>)
    requires from <= |s|
    ensures r.Some? ==> from <= r.value <= |s| && StartsWith(s[r.value..], sub)
    ensures r.Some? ==> forall j :: from <= j < r.value ==> !StartsWith(s[j..], sub)
    ensures r.None? ==> forall j :: from <= j <= |s| ==> !StartsWith(s[j..], sub)
    ensures r.Some? <==> Contains(s[from..], sub)
    decreases |s| - from
  {
    if StartsWith(s[from..], sub) then Some(from)
    else if from == |s| then None
    else
      assert s[from..][1..] == s[from + 1..];
      FindFrom(s, sub, from + 1)
  }

  /** `s.find(sub)`, with `None` for Python's -1. */
  function Find(s: string, sub: string): (r: Option<nat>)
    ensures r.Some? <==> Contains(s, sub)
    ensures r.Some? ==> r.value <= |s| && StartsWith(s[r.value..], sub)
    ensures r.Some? ==> forall j :: 0 <= j < r.value ==> !StartsWith(s[j..], sub)
  {
    assert s[0..] == s;
    FindFrom(s, sub, 0)
  }

  function LowerChar(c: char): char {
    if 'A' <= c <= 'Z' then (c as int - 'A' as int + 'a' as int) as char else c
  }

  /** `s.lower()` restricted to ASCII letters. */
  function Lower(s: string): (r: string)
    ensures |r| == |s|
    ensures forall i :: 0 <= i < |s| ==> r[i] == LowerChar(s[i])
  {
    seq(|s|, i requires 0 <= i < |s| => LowerChar(s[i]))
  }

  /** Whether a file name, ignoring ASCII case, ends in `.png`, `.jpg` or
      `.jpeg`: the picture files the frame picker and the gallery list. */
  predicate HasImageExtension(name: string) {
    var lower := Lower(name);
    EndsWith(lower, ".png") || EndsWith(lower, ".jpg") || EndsWith(lower, ".jpeg")
  }

  /** The characters at which `str.splitlines` ends a line. */
  predicate IsLineBreak(c: char) {
    c == '\n' || c == '\r' || c == '\U{0B}' || c == '\U{0C}' || ('\U{1C}' <= c <= '\U{1E}')
    || c == '\U{85}' || c == '\U{2028}' || c == '\U{2029}'
  }

  /** The index of the first line break in `s`, or `|s|` when there is none. */
  function FirstBreak(s: string): (k: nat)
    ensures k <= |s|
    ensures k < |s| ==> IsLineBreak(s[k])
    ensures forall j :: 0 <= j < k ==> !IsLineBreak(s[j])
  {
    if s == [] || IsLineBreak(s[0]) then 0 else 1 + FirstBreak(s[1..])
  }

  /** `s.splitlines()`: lines without their terminators, where "\r\n" ends one
      line and a final terminator does not start an empty line. */
  function SplitLines(s: string): (lines: seq<string>)
    ensures |lines| <= |s|
    ensures forall i :: 0 <= i < |lines| ==> forall c :: c in lines[i] ==> !IsLineBreak(c)
    decreases |s|
  {
    if s == [] then []
    else
      var k := FirstBreak(s);
      if k == |s| then [s]
      else
        var next := if s[k] == '\r' && k + 1 < |s| && s[k + 1] == '\n' then k + 2 else k + 1;
        [s[..k]] + SplitLines(s[next..])
  }

  function DigitChar(d: nat): char
    requires d < 10
  {
    ('0' as int + d) as char
  }

  /** `str(n)` for a non-negative integer. */
  function Digits(n: nat): (r: string)
    ensures |r| >= 1
    ensures forall c :: c in r ==> '0' <= c <= '9'
  {
    if n < 10 then [DigitChar(n)] else Digits(n / 10) + [DigitChar(n % 10)]
  }

  /** `f"{n:0{width}d}"`: the decimal digits of `n`, left-padded with zeros. */
  function ZeroPad(n: nat, width: nat): (r: string)
    ensures |r| == if |Digits(n)| < width then width else |Digits(n)|
  {
    var d := Digits(n);
    if |d| < width then seq(width - |d|, _ => '0') + d else d
  }

  predicate IsDigit(c: char) { '0' <= c <= '9' }

  predicate AllDigits(s: string) { forall i :: 0 <= i < |s| ==> IsDigit(s[i]) }

  /** The number a string of decimal digits denotes, as `int(s)` reads it. */
  function DecimalValue(s: string): nat
    requires AllDigits(s)
  {
    if s == [] then 0 else DecimalValue(s[..|s| - 1]) * 10 + (s[|s| - 1] as int - '0' as int)
  }

  /** `int(s)` for a string that must be a non-empty run of decimal digits. */
  function ParseDecimal(s: string): Option<nat> {
    if s != [] && AllDigits(s) then Some(DecimalValue(s)) else None
  }

  function Pow10(k: nat): (p: nat)
    ensures p >= 1
  {
    if k == 0 then 1 else 10 * Pow10(k - 1)
  }

  /** Reading back the digits of `n` gives `n`. */
  lemma {:induction false} DecimalOfDigits(n: nat)
    ensures AllDigits(Digits(n)) && DecimalValue(Digits(n)) == n
  {
    var d := Digits(n);
    assert forall i :: 0 <= i < |d| ==> d[i] in d;
    if n >= 10 {
      DecimalOfDigits(n / 10);
      assert d[..|d| - 1] == Digits(n / 10);
    }
  }

  /** A number below 10^k has at most k digits. */
  lemma {:induction false} DigitsFit(n: nat, k: nat)
    requires k >= 1 && n < Pow10(k)
    ensures |Digits(n)| <= k
  {
    if n >= 10 {
      DigitsFit(n / 10, k - 1);
    }
  }

  /** Leading zeros do not change the value of a digit string. */
  lemma {:induction false} DecimalLeadingZeros(k: nat, s: string)
    requires AllDigits(s)
    ensures AllDigits(seq(k, _ => '0') + s)
    ensures DecimalValue(seq(k, _ => '0') + s) == DecimalValue(s)
    decreases |s| + k
  {
    var z: string := seq(k, _ => '0');
    var t := z + s;
    assert forall i :: 0 <= i < |t| ==> IsDigit(t[i]) by {
      forall i | 0 <= i < |t| ensures IsDigit(t[i]) {
        if i < k { assert t[i] == z[i]; } else { assert t[i] == s[i - k]; }
      }
    }
    if s == [] {
      if k > 0 {
        assert t[..|t| - 1] == seq(k - 1, _ => '0') + [];
        DecimalLeadingZeros(k - 1, []);
      }
    } else {
      assert t[..|t| - 1] == z + s[..|s| - 1];
      DecimalLeadingZeros(k, s[..|s| - 1]);
    }
  }

  /** A zero-padded number reads back as that number. */
  lemma ParseZeroPad(n: nat, width: nat)
    ensures ParseDecimal(ZeroPad(n, width)) == Some(n)
  {
    var d := Digits(n);
    DecimalOfDigits(n);
    if |d| < width {
      DecimalLeadingZeros(width - |d|, d);
    }
  }

  /** `posixpath.join(a, b)` for two components. */
  function JoinPath(dir: string, name: string): string {
    if StartsWith(name, "/") then name
    else if dir == [] || EndsWith(dir, "/") then dir + name
    else dir + "/" + name
  }

  /** The index just after the last '/' in `p`, or 0 when there is none. */
  function BaseStart(p: string): (k: nat)
    ensures k <= |p|
    ensures k > 0 ==> p[k - 1] == '/'
    ensures forall j :: k <= j < |p| ==> p[j] != '/'
  {
    if p == [] then 0
    else if p[|p| - 1] == '/' then |p|
    else BaseStart(p[..|p| - 1])
  }

  /** `posixpath.basename(p)` */
  function Basename(p: string): string {
    p[BaseStart(p)..]
  }

  /** Joining a directory and a plain file name and taking the base name
      gives the file name back. */
  lemma {:induction false} BasenameOfJoin(dir: string, name: string)
    requires '/' !in name
    ensures Basename(JoinPath(dir, name)) == name
  {
    var p := JoinPath(dir, name);
    if name != [] {
      assert !StartsWith(name, "/") by { assert name[0] != '/'; }
    }
    var prefix := if dir == [] || EndsWith(dir, "/") then dir else dir + "/";
    assert p == prefix + name;
    BaseStartOfSlashFree(prefix, name);
  }

  lemma {:induction false} BaseStartOfSlashFree(prefix: string, name: string)
    requires '/' !in name
    requires prefix == [] || prefix[|prefix| - 1] == '/'
    ensures BaseStart(prefix + name) == |prefix|
    decreases |name|
  {
    var p := prefix + name;
    if name == [] {
      assert p == prefix;
      if prefix != [] {
        assert p[|p| - 1] == '/';
      }
    } else {
      assert p[|p| - 1] == name[|name| - 1];
      assert p[..|p| - 1] == prefix + name[..|name| - 1];
      BaseStartOfSlashFree(prefix, name[..|name| - 1]);
    }
  }
}
