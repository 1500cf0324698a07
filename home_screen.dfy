/** src/views/home_screen.py: the frame picker. The Qt widgets are left out;
    what is modelled is the list of frame buttons with their grid cells and
    checked states, the selected frame, the start button's enabled state, the
    frames it emits, and the configurable texts. */
module Home {
  import opened Wrappers
  import opened Text
  import opened Grid

  const NoFrameName: string := "Sans Cadre"
  const DefaultTitle: string := "Bienvenue au Photobooth!"
  const DefaultSubtitle: string := "Choisissez votre cadre préféré"
  const DefaultStartText: string := "Commencer ➔"
  const Columns: nat := 3

  /** The frame files of a directory listing, in listing order. */
  function FrameFiles(names: seq<string>): (files: seq<string>)
    ensures |files| <= |names|
    ensures forall f :: f in files ==> f in names && HasImageExtension(f)
    ensures forall n :: n in names && HasImageExtension(n) ==> n in files
  {
    if names == [] then []
    else (if HasImageExtension(names[0]) then [names[0]] else []) + FrameFiles(names[1..])
  }

  /** The filter keeps the listing's order and multiplicity: the frame files
      of two listings in sequence are those of the first followed by those of
      the second. */
  lemma {:induction false} FrameFilesDistributes(a: seq<string>, b: seq<string>)
    ensures FrameFiles(a + b) == FrameFiles(a) + FrameFiles(b)
  {
    if a == [] {
      assert a + b == b;
    } else {
      assert (a + b)[1..] == a[1..] + b;
      FrameFilesDistributes(a[1..], b);
    }
  }

  /** A single name is kept exactly when it has an image extension. */
  lemma FrameFilesOne(n: string)
    ensures FrameFiles([n]) == (if HasImageExtension(n) then [n] else [])
  {
    assert [n][1..] == [];
  }

  /** The index of the last `.` in `s`, if any. */
  function LastDot(s: string): (r: Option<nat>)
    ensures r.Some? ==> r.value < |s| && s[r.value] == '.' && forall j :: r.value < j < |s| ==> s[j] != '.'
    ensures r.None? ==> forall j :: 0 <= j < |s| ==> s[j] != '.'
  {
    if s == [] then None
    else if s[|s| - 1] == '.' then Some(|s| - 1)
    else LastDot(s[..|s| - 1])
  }

  /** `os.path.splitext(name)[0]` for a name without directory part: the
      name without its last extension, where dots leading the name do not
      start an extension. */
  function Stem(name: string): (r: string)
    ensures |r| <= |name| && r == name[..|r|]
  {
    match LastDot(name)
    case None => name
    case Some(d) => if exists j :: 0 <= j < d && name[j] != '.' then name[..d] else name
  }

  /** A file `base + ext`, where the extension starts with the only dot it
      holds and the base is not all dots, is shown under its base name. */
  lemma StemDropsExtension(base: string, ext: string)
    requires ext != [] && ext[0] == '.' && forall j :: 0 < j < |ext| ==> ext[j] != '.'
    requires exists j :: 0 <= j < |base| && base[j] != '.'
    ensures Stem(base + ext) == base
  {
    var name := base + ext;
    var d := LastDot(name).value;
    assert name[|base|] == '.';
    assert forall j :: |base| < j < |name| ==> name[j] == ext[j - |base|];
    assert d == |base|;
    var j :| 0 <= j < |base| && base[j] != '.';
    assert name[j] == base[j];
    assert name[..d] == base;
  }

  /** A button of the picker: the frame it selects (`None` for the no-frame
      button), its label, its grid cell, and whether it is checked. */
  datatype FrameButton = FrameButton(path: Option<string>, name: string, row: nat, col: nat, checked: bool)

  /** The buttons for `files`, numbered from `first`, each in the cell of its
      number in a three-column grid. */
  function FileButtons(dir: string, files: seq<string>, first: nat): (bs: seq<FrameButton>)
    ensures |bs| == |files|
    ensures forall k :: 0 <= k < |bs| ==>
              bs[k] == FrameButton(Some(JoinPath(dir, files[k])), Stem(files[k]),
                                   (first + k) / Columns, (first + k) % Columns, false)
    decreases |files|
  {
    if files == [] then []
    else [FrameButton(Some(JoinPath(dir, files[0])), Stem(files[0]), first / Columns, first % Columns, false)]
         + FileButtons(dir, files[1..], first + 1)
  }

  /** Button k sits in row k div 3, column k mod 3. */
  predicate InGrid(buttons: seq<FrameButton>) {
    forall k :: 0 <= k < |buttons| ==> buttons[k].row == k / Columns && buttons[k].col == k % Columns
  }

  /** Buttons placed by number never share a cell, and every column is
      below 3. */
  lemma GridCellsDistinct(buttons: seq<FrameButton>)
    requires InGrid(buttons)
    ensures forall k :: 0 <= k < |buttons| ==> buttons[k].col < Columns
    ensures forall i, j :: 0 <= i < j < |buttons| ==>
              (buttons[i].row, buttons[i].col) != (buttons[j].row, buttons[j].col)
  {
    forall i, j | 0 <= i < j < |buttons|
      ensures (buttons[i].row, buttons[i].col) != (buttons[j].row, buttons[j].col)
    {
      CellsDistinct(i, j, Columns);
    }
  }

  /** At most one button is checked. */
  predicate SingleSelection(buttons: seq<FrameButton>) {
    forall i, j :: 0 <= i < j < |buttons| ==> !(buttons[i].checked && buttons[j].checked)
  }

  class HomeScreen {
    var buttons: seq<FrameButton>
    var selectedFrame: Option<string>
    var startEnabled: bool
    var title: string
    var subtitle: string
    var startText: string
    var emitted: seq<string>

    /** The start button is enabled only once a frame has been picked, so
        it always has one to emit; the picker keeps its buttons in grid
        order with at most one checked. */
    predicate Valid()
      reads this
    {
      (startEnabled ==> selectedFrame.Some?) && InGrid(buttons) && SingleSelection(buttons)
    }

    constructor ()
      ensures buttons == [] && selectedFrame == None && !startEnabled && emitted == []
      ensures title == DefaultTitle && subtitle == DefaultSubtitle && startText == DefaultStartText
      ensures Valid()
    {
      buttons := [];
      selectedFrame := None;
      startEnabled := false;
      title := DefaultTitle;
      subtitle := DefaultSubtitle;
      startText := DefaultStartText;
      emitted := [];
    }

    /** `load_frames(frames_dir)`, where `listing` is the directory's
        entries, or `None` when it does not exist. The no-frame button comes
        first at (0, 0); every frame file follows in listing order. The
        selection and the start button are left as they were. */
    method LoadFrames(dir: string, listing: Option<seq<string>>)
      requires Valid()
      modifies this
      ensures |buttons| >= 1 && buttons[0] == FrameButton(None, NoFrameName, 0, 0, false)
      ensures listing.None? ==> buttons == [buttons[0]]
      ensures listing.Some? ==> buttons == [buttons[0]] + FileButtons(dir, FrameFiles(listing.value), 1)
      ensures Valid()
      ensures selectedFrame == old(selectedFrame) && startEnabled == old(startEnabled) && emitted == old(emitted)
      ensures title == old(title) && subtitle == old(subtitle) && startText == old(startText)
    {
      var files := if listing.Some? then FrameFiles(listing.value) else [];
      var rest := BuildFileButtons(dir, files);
      LoadedButtonsValid(dir, files);
      buttons := [FrameButton(None, NoFrameName, 0, 0, false)] + rest;
    }

    /** `on_frame_selected(frame_path, button)` for the button at `index`:
        Qt has already toggled it; every other button is unchecked, the
        frame (or "" for none) is selected, and start is enabled. */
    method OnFrameSelected(index: nat)
      requires Valid() && index < |buttons|
      modifies this
      ensures |buttons| == |old(buttons)|
      ensures buttons[index] == old(buttons)[index].(checked := !old(buttons)[index].checked)
      ensures forall k :: 0 <= k < |buttons| && k != index ==> buttons[k] == old(buttons)[k].(checked := false)
      ensures selectedFrame == Some(old(buttons)[index].path.GetOr([]))
      ensures startEnabled && Valid()
      ensures emitted == old(emitted) && title == old(title) && subtitle == old(subtitle) && startText == old(startText)
    {
      var clicked := buttons[index].(checked := !buttons[index].checked);
      var k := 0;
      var updated: seq<FrameButton> := [];
      while k < |buttons|
        invariant 0 <= k <= |buttons| && |updated| == k
        invariant forall m :: 0 <= m < k ==> updated[m] == (if m == index then clicked else buttons[m].(checked := false))
      {
        updated := updated + [if k == index then clicked else buttons[k].(checked := false)];
        k := k + 1;
      }
      buttons := updated;
      selectedFrame := Some(clicked.path.GetOr([]));
      startEnabled := true;
    }

    /** `on_start_clicked()`: emits the selected frame when start is
        enabled. */
    method OnStartClicked()
      requires Valid()
      modifies this
      ensures Valid()
      ensures emitted == (if startEnabled then old(emitted) + [selectedFrame.value] else old(emitted))
      ensures buttons == old(buttons) && selectedFrame == old(selectedFrame) && startEnabled == old(startEnabled)
    {
      if startEnabled {
        emitted := emitted + [selectedFrame.value];
      }
    }

    /** `set_home_texts(title, subtitle, start_button_text)`: each empty text
        falls back to its default. */
    method SetHomeTexts(t: string, s: string, b: string)
      requires Valid()
      modifies this
      ensures title == (if t == [] then DefaultTitle else t)
      ensures subtitle == (if s == [] then DefaultSubtitle else s)
      ensures startText == (if b == [] then DefaultStartText else b)
      ensures title != [] && subtitle != [] && startText != []
      ensures buttons == old(buttons) && selectedFrame == old(selectedFrame) && startEnabled == old(startEnabled)
      ensures emitted == old(emitted) && Valid()
    {
      title := if t == [] then DefaultTitle else t;
      subtitle := if s == [] then DefaultSubtitle else s;
      startText := if b == [] then DefaultStartText else b;
    }
  }

  /** The loop of `load_frames` that creates one button per frame file,
      numbered from 1. */
  method BuildFileButtons(dir: string, files: seq<string>) returns (rest: seq<FrameButton>)
    ensures rest == FileButtons(dir, files, 1)
  {
    rest := [];
    var i := 0;
    while i < |files|
      invariant 0 <= i <= |files|
      invariant rest == FileButtons(dir, files[..i], 1)
    {
      assert files[..i + 1] == files[..i] + [files[i]];
      FileButtonsSnoc(dir, files[..i], files[i], 1);
      rest := rest + [FrameButton(Some(JoinPath(dir, files[i])), Stem(files[i]), (i + 1) / Columns, (i + 1) % Columns, false)];
      i := i + 1;
    }
    assert files[..i] == files;
  }

  /** A freshly loaded picker is in grid order with nothing checked. */
  lemma LoadedButtonsValid(dir: string, files: seq<string>)
    ensures var bs := [FrameButton(None, NoFrameName, 0, 0, false)] + FileButtons(dir, files, 1);
            InGrid(bs) && SingleSelection(bs)
  {
    var rest := FileButtons(dir, files, 1);
    var bs := [FrameButton(None, NoFrameName, 0, 0, false)] + rest;
    forall k | 0 <= k < |bs| ensures bs[k].row == k / Columns && bs[k].col == k % Columns && !bs[k].checked {
      if k > 0 { assert bs[k] == rest[k - 1]; }
    }
  }

  lemma {:induction false} FileButtonsSnoc(dir: string, files: seq<string>, f: string, first: nat)
    ensures FileButtons(dir, files + [f], first)
            == FileButtons(dir, files, first)
               + [FrameButton(Some(JoinPath(dir, f)), Stem(f), (first + |files|) / Columns, (first + |files|) % Columns, false)]
  {
    var l := FileButtons(dir, files + [f], first);
    var r := FileButtons(dir, files, first)
             + [FrameButton(Some(JoinPath(dir, f)), Stem(f), (first + |files|) / Columns, (first + |files|) % Columns, false)];
    assert |l| == |r|;
    forall k | 0 <= k < |l| ensures l[k] == r[k] {
      if k < |files| {
        assert (files + [f])[k] == files[k];
      }
    }
  }
}
