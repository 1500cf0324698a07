/** src/views/gallery_screen.py: the gallery of saved photos. The pixmaps
    and their scaling are left out; what is modelled is which files are
    shown, in which order, in which cell, and whether the "no photos" label
    is visible. */
module Gallery {
  import opened Wrappers
  import opened Text
  import opened Grid

  const Columns: nat := 4

  /** Python's `a <= b` on strings: code-point lexicographic order. */
  predicate LexLeq(a: string, b: string)
    decreases |a|
  {
    a == [] || (b != [] && (a[0] < b[0] || (a[0] == b[0] && LexLeq(a[1..], b[1..]))))
  }

  lemma {:induction false} LexLeqTotal(a: string, b: string)
    ensures LexLeq(a, b) || LexLeq(b, a)
    decreases |a|
  {
    if a != [] && b != [] && a[0] == b[0] {
      LexLeqTotal(a[1..], b[1..]);
    }
  }

  lemma {:induction false} LexLeqReflexive(a: string)
    ensures LexLeq(a, a)
    decreases |a|
  {
    if a != [] { LexLeqReflexive(a[1..]); }
  }

  lemma {:induction false} LexLeqTransitive(a: string, b: string, c: string)
    requires LexLeq(a, b) && LexLeq(b, c)
    ensures LexLeq(a, c)
    decreases |a|
  {
    if a != [] && a[0] == b[0] && b[0] == c[0] {
      LexLeqTransitive(a[1..], b[1..], c[1..]);
    }
  }

  lemma {:induction false} LexLeqAntisymmetric(a: string, b: string)
    requires LexLeq(a, b) && LexLeq(b, a)
    ensures a == b
    decreases |a|
  {
    if a != [] {
      LexLeqAntisymmetric(a[1..], b[1..]);
      assert a == [a[0]] + a[1..] && b == [b[0]] + b[1..];
    }
  }

  /** Newest first: `list.sort(reverse=True)` leaves each path no smaller
      than the ones after it. */
  predicate Descending(s: seq<string>) {
    forall i, j :: 0 <= i < j < |s| ==> LexLeq(s[j], s[i])
  }

  /** The paths of the picture files of a listing, in listing order. */
  function PicturePaths(dir: string, names: seq<string>): (paths: seq<string>)
    ensures |paths| <= |names|
    ensures forall n :: n in names && HasImageExtension(n) ==> JoinPath(dir, n) in paths
    ensures forall p :: p in paths ==> exists n :: n in names && HasImageExtension(n) && p == JoinPath(dir, n)
  {
    if names == [] then []
    else (if HasImageExtension(names[0]) then [JoinPath(dir, names[0])] else []) + PicturePaths(dir, names[1..])
  }

  /** The loop of `load_photos` that collects the picture paths. */
  method CollectPaths(dir: string, names: seq<string>) returns (paths: seq<string>)
    ensures paths == PicturePaths(dir, names)
  {
    paths := [];
    var i := |names|;
    var tail: seq<string> := [];
    // Walking the listing from the end keeps the invariant a suffix
    // property of the recursive definition.
    while i > 0
      invariant 0 <= i <= |names|
      invariant tail == PicturePaths(dir, names[i..])
    {
      i := i - 1;
      assert names[i..][1..] == names[i + 1..];
      tail := (if HasImageExtension(names[i]) then [JoinPath(dir, names[i])] else []) + tail;
    }
    assert names[0..] == names;
    paths := tail;
  }

  /** The position before which `x` goes in a descending list. */
  method InsertionPoint(s: seq<string>, x: string) returns (p: nat)
    requires Descending(s)
    ensures p <= |s|
    ensures forall k :: 0 <= k < p ==> LexLeq(x, s[k]) && s[k] != x
    ensures forall k :: p <= k < |s| ==> LexLeq(s[k], x)
  {
    p := 0;
    while p < |s| && !LexLeq(s[p], x)
      invariant p <= |s|
      invariant forall k :: 0 <= k < p ==> LexLeq(x, s[k]) && s[k] != x
    {
      LexLeqTotal(s[p], x);
      p := p + 1;
    }
    forall k | p <= k < |s| ensures LexLeq(s[k], x) {
      if k > p { LexLeqTransitive(s[k], s[p], x); }
    }
  }

  /** Inserting at the insertion point keeps a list descending and adds
      exactly the inserted path. */
  lemma InsertKeepsDescending(s: seq<string>, p: nat, x: string)
    requires Descending(s) && p <= |s|
    requires forall k :: 0 <= k < p ==> LexLeq(x, s[k])
    requires forall k :: p <= k < |s| ==> LexLeq(s[k], x)
    ensures Descending(s[..p] + [x] + s[p..])
    ensures multiset(s[..p] + [x] + s[p..]) == multiset(s) + multiset{x}
  {
    var next := s[..p] + [x] + s[p..];
    forall i, j | 0 <= i < j < |next| ensures LexLeq(next[j], next[i]) {
      InsertedAt(s, p, x, i);
      InsertedAt(s, p, x, j);
    }
    calc {
      multiset(next);
      multiset(s[..p]) + multiset{x} + multiset(s[p..]);
      { assert s == s[..p] + s[p..]; }
      multiset(s) + multiset{x};
    }
  }

  /** Where each element of a list with `x` inserted at `p` comes from. */
  lemma InsertedAt(s: seq<string>, p: nat, x: string, k: nat)
    requires p <= |s| && k <= |s|
    ensures (s[..p] + [x] + s[p..])[k] == if k < p then s[k] else if k == p then x else s[k - 1]
  {
  }

  /** `image_paths.sort(reverse=True)`: the same paths, newest first. */
  method SortDescending(paths: seq<string>) returns (sorted: seq<string>)
    ensures Descending(sorted)
    ensures multiset(sorted) == multiset(paths)
  {
    sorted := [];
    var i := 0;
    while i < |paths|
      invariant 0 <= i <= |paths|
      invariant Descending(sorted)
      invariant multiset(sorted) == multiset(paths[..i])
    {
      var p := InsertionPoint(sorted, paths[i]);
      InsertKeepsDescending(sorted, p, paths[i]);
      assert paths[..i + 1] == paths[..i] + [paths[i]];
      sorted := sorted[..p] + [paths[i]] + sorted[p..];
      i := i + 1;
    }
    assert paths[..i] == paths;
  }

  /** Two descending orderings of the same paths are the same list, so the
      gallery's order is fully determined by its files. */
  lemma {:induction false} DescendingUnique(a: seq<string>, b: seq<string>)
    requires Descending(a) && Descending(b) && multiset(a) == multiset(b)
    ensures a == b
    decreases |a|
  {
    if a != [] {
      assert |b| == |multiset(b)| == |a|;
      SameHead(a, b);
      SameTail(a, b);
      assert Descending(a[1..]) && Descending(b[1..]);
      DescendingUnique(a[1..], b[1..]);
      assert a == [a[0]] + a[1..] && b == [b[0]] + b[1..];
    }
  }

  /** Both descending orderings start with the largest path. */
  lemma SameHead(a: seq<string>, b: seq<string>)
    requires Descending(a) && Descending(b) && multiset(a) == multiset(b) && a != [] && b != []
    ensures a[0] == b[0]
  {
    assert a[0] in multiset(b) && b[0] in multiset(a);
    var i :| 0 <= i < |b| && b[i] == a[0];
    var j :| 0 <= j < |a| && a[j] == b[0];
    if i == 0 { LexLeqReflexive(b[0]); }
    if j == 0 { LexLeqReflexive(a[0]); }
    assert LexLeq(b[i], b[0]);
    assert LexLeq(a[j], a[0]);
    LexLeqAntisymmetric(a[0], b[0]);
  }

  lemma SameTail(a: seq<string>, b: seq<string>)
    requires multiset(a) == multiset(b) && a != [] && b != [] && a[0] == b[0]
    ensures multiset(a[1..]) == multiset(b[1..])
  {
    assert a == [a[0]] + a[1..] && b == [b[0]] + b[1..];
    assert multiset(a[1..]) == multiset(a) - multiset{a[0]};
    assert multiset(b[1..]) == multiset(b) - multiset{b[0]};
  }

  /** A thumbnail of the grid: the picture it shows and its cell. */
  datatype Thumbnail = Thumbnail(path: string, row: nat, col: nat)

  /** The pictures shown, in grid order. */
  function Paths(thumbnails: seq<Thumbnail>): (paths: seq<string>)
    ensures |paths| == |thumbnails|
    ensures forall k :: 0 <= k < |paths| ==> paths[k] == thumbnails[k].path
  {
    seq(|thumbnails|, k requires 0 <= k < |thumbnails| => thumbnails[k].path)
  }

  class GalleryScreen {
    var thumbnails: seq<Thumbnail>
    var emptyVisible: bool

    constructor ()
      ensures thumbnails == [] && emptyVisible
    {
      thumbnails := [];
      emptyVisible := true;
    }

    /** `load_photos(photos_directory)`, where `listing` is the directory's
        entries, or `None` when it does not exist. The grid is rebuilt from
        nothing: photo k of the descending list goes to cell (k div 4,
        k mod 4), and the "no photos" label shows iff there is none. */
    method LoadPhotos(dir: string, listing: Option<seq<string>>)
      modifies this
      ensures Descending(Paths(thumbnails))
      ensures multiset(Paths(thumbnails)) == multiset(PicturePaths(dir, listing.GetOr([])))
      ensures forall k :: 0 <= k < |thumbnails| ==> thumbnails[k].row == k / Columns && thumbnails[k].col == k % Columns
      ensures emptyVisible <==> thumbnails == []
    {
      var paths := [];
      if listing.Some? {
        paths := CollectPaths(dir, listing.value);
      }
      var sorted := SortDescending(paths);
      emptyVisible := |sorted| == 0;
      var placed: seq<Thumbnail> := [];
      var k := 0;
      while k < |sorted|
        invariant 0 <= k <= |sorted| && |placed| == k
        invariant forall m :: 0 <= m < k ==> placed[m] == Thumbnail(sorted[m], m / Columns, m % Columns)
      {
        placed := placed + [Thumbnail(sorted[k], k / Columns, k % Columns)];
        k := k + 1;
      }
      thumbnails := placed;
      assert Paths(placed) == sorted;
    }
  }

  /** The thumbnails of a loaded gallery occupy distinct cells of a
      four-column grid. */
  lemma GalleryCellsDistinct(thumbnails: seq<Thumbnail>)
    requires forall k :: 0 <= k < |thumbnails| ==> thumbnails[k].row == k / Columns && thumbnails[k].col == k % Columns
    ensures forall k :: 0 <= k < |thumbnails| ==> thumbnails[k].col < Columns
    ensures forall i, j :: 0 <= i < j < |thumbnails| ==>
              (thumbnails[i].row, thumbnails[i].col) != (thumbnails[j].row, thumbnails[j].col)
  {
    forall i, j | 0 <= i < j < |thumbnails|
      ensures (thumbnails[i].row, thumbnails[i].col) != (thumbnails[j].row, thumbnails[j].col)
    {
      CellsDistinct(i, j, Columns);
    }
  }
}
