/** src/controllers/printer_controller.py: printing a saved photo through the
    Windows printing interface. The printer, the spooler and the image file
    are oracles: what they report is a parameter of the operations. */
module Printing {
  import opened Wrappers
  import opened Text
  import Imaging

  const PaperA4: int := 9
  const PaperLetter: int := 1
  const PaperCustom: int := 256

  /** The paper-size constant table, by paper name. */
  const PaperConstants: map<string, int> :=
    map["A4" := 9, "Letter" := 1, "4x6" := 256, "10x15" := 256, "5x7" := 256, "100x148" := 256]

  /** The custom paper sizes, (width, height) in tenths of a millimetre. */
  const PaperDimensions: map<string, (int, int)> :=
    map["4x6" := (1016, 1524), "10x15" := (1000, 1500), "5x7" := (1270, 1778), "100x148" := (1000, 1480)]

  /** `_get_paper_size_constant()`: the table entry, A4 for an unknown name. */
  function PaperSizeConstant(paperSize: string): (r: int)
    ensures r == PaperA4 || r == PaperLetter || r == PaperCustom
    ensures paperSize !in PaperConstants ==> r == PaperA4
    ensures r == PaperCustom <==> paperSize in PaperDimensions
  {
    if paperSize in PaperConstants then PaperConstants[paperSize] else PaperA4
  }

  /** The two tables agree: a size has explicit dimensions exactly when its
      constant is the custom one, and every custom size is portrait with
      positive sides. */
  lemma PaperTablesAgree(paperSize: string)
    ensures paperSize in PaperDimensions <==> paperSize in PaperConstants && PaperConstants[paperSize] == PaperCustom
    ensures paperSize in PaperDimensions ==>
              0 < PaperDimensions[paperSize].0 < PaperDimensions[paperSize].1
  {
  }

  /** The printer's device settings that the paper size touches. */
  class DevMode {
    var paperSize: int
    var paperWidth: int
    var paperLength: int

    constructor (paperSize: int, paperWidth: int, paperLength: int)
      ensures this.paperSize == paperSize && this.paperWidth == paperWidth && this.paperLength == paperLength
    {
      this.paperSize := paperSize;
      this.paperWidth := paperWidth;
      this.paperLength := paperLength;
    }
  }

  /** `if a <= b * c` then the quotient `a / c` is at most `b`. */
  lemma QuotientBound(a: nat, b: nat, c: nat)
    requires c > 0 && a <= b * c
    ensures a / c <= b
  {
    if a / c > b {
      Imaging.MulMonotone(b + 1, a / c, c);
    }
  }

  /** The size a picture is scaled to so that it fits the printable area
      (exact arithmetic for the source's floating-point ratio): it fills
      the width or the height, stays within both, and keeps its aspect
      ratio up to the truncation to whole pixels. `None` for a picture with
      no pixels, on which the source divides by zero. */
  function FitToPage(pw: nat, ph: nat, iw: nat, ih: nat): (r: Option<(nat, nat)>)
    ensures r.None? <==> iw == 0 || ih == 0
    ensures r.Some? ==> r.value.0 <= pw && r.value.1 <= ph
    ensures r.Some? ==> r.value.0 == pw || r.value.1 == ph
    ensures r.Some? && r.value.0 == pw ==> r.value.1 * iw <= ih * pw < r.value.1 * iw + iw
    ensures r.Some? && r.value.0 != pw ==> r.value.0 * ih <= iw * ph < r.value.0 * ih + ih
  {
    if iw == 0 || ih == 0 then None
    else if pw * ih <= ph * iw then
      var nh := (ih * pw) / iw;
      QuotientBound(ih * pw, ph, iw);
      Some((pw, nh))
    else
      var nw := (iw * ph) / ih;
      QuotientBound(iw * ph, pw, ih);
      Some((nw, ph))
  }

  /** Whether a scaled size can be drawn: `Image.resize` refuses a side
      below one pixel. */
  predicate Drawable(size: (nat, nat)) {
    size.0 > 0 && size.1 > 0
  }

  /** A picture far wider than the page, or a page with no printable width,
      scales to a side of no pixels: `int()` truncates it to 0 and nothing
      can be printed. */
  lemma DegenerateFitsNotDrawable()
    ensures FitToPage(100, 100, 10000, 1) == Some((100, 0)) && !Drawable((100, 0))
    ensures FitToPage(0, 100, 640, 480) == Some((0, 0)) && !Drawable((0, 0))
  {
  }

  /** The page rectangle the picture is drawn into, centred. */
  datatype Placement = Placement(left: int, top: int, right: int, bottom: int)

  function Centred(pw: nat, ph: nat, nw: nat, nh: nat): (p: Placement)
    requires nw <= pw && nh <= ph
    ensures 0 <= p.left && p.right <= pw && p.right - p.left == nw
    ensures 0 <= p.top && p.bottom <= ph && p.bottom - p.top == nh
    ensures p.left <= pw - p.right <= p.left + 1
    ensures p.top <= ph - p.bottom <= p.top + 1
  {
    var x := (pw - nw) / 2;
    var y := (ph - nh) / 2;
    Placement(x, y, x + nw, y + nh)
  }

  /** A submitted print job: the printer, the document name and where the
      picture lands on the page. */
  datatype PrintJob = PrintJob(printer: string, document: string, placement: Placement)

  /** What the printing environment reports for one job: the default
      printer, the device settings (or `null`), the printable area, the
      picture's size when it opens, and whether the spooler calls
      succeed. */
  datatype Environment = Environment(
    hasDependencies: bool,
    defaultPrinter: string,
    printableWidth: nat,
    printableHeight: nat,
    image: Option<(nat, nat)>,
    spoolerOk: bool)

  class PrinterController {
    var printerName: string
    var enabled: bool
    var paperSize: string

    constructor (printerName: string := "", enabled: bool := false, paperSize: string := "A4")
      ensures this.printerName == printerName && this.enabled == enabled && this.paperSize == paperSize
    {
      this.printerName := printerName;
      this.enabled := enabled;
      this.paperSize := paperSize;
    }

    /** The printer a job goes to: the configured one, or the default. */
    function TargetPrinter(env: Environment): (r: string)
      reads this
      ensures printerName != [] ==> r == printerName
      ensures printerName == [] ==> r == env.defaultPrinter
    {
      if printerName != [] then printerName else env.defaultPrinter
    }

    /** `_apply_paper_size_to_devmode(devmode)`: the size constant always,
        the explicit dimensions only for the custom sizes. */
    method ApplyPaperSize(devmode: DevMode)
      modifies devmode
      ensures devmode.paperSize == PaperSizeConstant(paperSize)
      ensures paperSize in PaperDimensions ==>
                devmode.paperWidth == PaperDimensions[paperSize].0 && devmode.paperLength == PaperDimensions[paperSize].1
      ensures paperSize !in PaperDimensions ==>
                devmode.paperWidth == old(devmode.paperWidth) && devmode.paperLength == old(devmode.paperLength)
    {
      devmode.paperSize := PaperSizeConstant(paperSize);
      if paperSize in PaperDimensions {
        var dims := PaperDimensions[paperSize];
        devmode.paperWidth := dims.0;
        devmode.paperLength := dims.1;
      }
    }

    /** `_print_windows(photo_path)`: the job submitted, scaled to fit and
        centred, or `None` when a dependency, the picture or the spooler
        fails, or when the fit has a side of no pixels, which `resize`
        refuses. The device settings get the paper size whenever they exist
        and the dependencies load. */
    method PrintWindows(photoPath: string, devmode: DevMode?, env: Environment) returns (job: Option<PrintJob>)
      modifies devmode
      ensures job.Some? <==> env.hasDependencies && env.spoolerOk && env.image.Some?
                             && FitToPage(env.printableWidth, env.printableHeight, env.image.value.0, env.image.value.1).Some?
                             && Drawable(FitToPage(env.printableWidth, env.printableHeight, env.image.value.0, env.image.value.1).value)
      ensures job.Some? ==>
                var fit := FitToPage(env.printableWidth, env.printableHeight, env.image.value.0, env.image.value.1).value;
                job.value == PrintJob(TargetPrinter(env), Basename(photoPath),
                                      Centred(env.printableWidth, env.printableHeight, fit.0, fit.1))
      ensures devmode != null && env.hasDependencies ==> devmode.paperSize == PaperSizeConstant(paperSize)
      ensures devmode != null && !env.hasDependencies ==> unchanged(devmode)
    {
      if !env.hasDependencies {
        return None;
      }
      var printer := TargetPrinter(env);
      if devmode != null {
        ApplyPaperSize(devmode);
      }
      if !env.spoolerOk || env.image.None? {
        return None;
      }
      var (iw, ih) := env.image.value;
      var fit := FitToPage(env.printableWidth, env.printableHeight, iw, ih);
      if fit.None? || !Drawable(fit.value) {
        return None;
      }
      var placement := Centred(env.printableWidth, env.printableHeight, fit.value.0, fit.value.1);
      job := Some(PrintJob(printer, Basename(photoPath), placement));
    }

    /** `print_photo(photo_path)`: printing needs the integration enabled, the
        file on disk and a Windows host. */
    method PrintPhoto(photoPath: string, fileExists: bool, onWindows: bool, devmode: DevMode?, env: Environment)
      returns (job: Option<PrintJob>)
      modifies devmode
      ensures !enabled || !fileExists || !onWindows ==> job.None? && (devmode != null ==> unchanged(devmode))
      ensures enabled && fileExists && onWindows ==>
                (job.Some? <==> env.hasDependencies && env.spoolerOk && env.image.Some?
                                && env.image.value.0 > 0 && env.image.value.1 > 0
                                && Drawable(FitToPage(env.printableWidth, env.printableHeight, env.image.value.0, env.image.value.1).value))
      ensures job.Some? ==>
                env.image.Some? && FitToPage(env.printableWidth, env.printableHeight, env.image.value.0, env.image.value.1).Some?
                && var fit := FitToPage(env.printableWidth, env.printableHeight, env.image.value.0, env.image.value.1).value;
                   job.value == PrintJob(TargetPrinter(env), Basename(photoPath),
                                         Centred(env.printableWidth, env.printableHeight, fit.0, fit.1))
      ensures enabled && fileExists && onWindows && devmode != null && env.hasDependencies ==>
                devmode.paperSize == PaperSizeConstant(paperSize)
      ensures enabled && fileExists && onWindows && devmode != null && !env.hasDependencies ==> unchanged(devmode)
    {
      if !enabled || !fileExists || !onWindows {
        return None;
      }
      job := PrintWindows(photoPath, devmode, env);
    }
  }

  /** `list_available_printers()`: the names (third field) of the enumerated
      printers, and none off Windows or when enumeration fails. */
  function ListAvailablePrinters(onWindows: bool, enumerated: Option<seq<(int, string, string)>>): (names: seq<string>)
    ensures !onWindows || enumerated.None? ==> names == []
    ensures onWindows && enumerated.Some? ==>
              |names| == |enumerated.value| && forall i :: 0 <= i < |names| ==> names[i] == enumerated.value[i].2
  {
    if !onWindows || enumerated.None? then []
    else seq(|enumerated.value|, i requires 0 <= i < |enumerated.value| => enumerated.value[i].2)
  }

  /** On Windows, when enumeration succeeds, a name is listed exactly when
      some enumerated printer carries it. */
  lemma ListedPrintersAreEnumerated(onWindows: bool, entries: seq<(int, string, string)>)
    ensures forall n :: n in ListAvailablePrinters(onWindows, Some(entries)) <==>
              onWindows && exists e :: e in entries && e.2 == n
  {
    var names := ListAvailablePrinters(onWindows, Some(entries));
    forall n | n in names ensures onWindows && exists e :: e in entries && e.2 == n {
      var i :| 0 <= i < |names| && names[i] == n;
      assert entries[i] in entries;
    }
    forall n | onWindows && exists e :: e in entries && e.2 == n ensures n in names {
      var e :| e in entries && e.2 == n;
      var i :| 0 <= i < |entries| && entries[i] == e;
      assert names[i] == n;
    }
  }
}
