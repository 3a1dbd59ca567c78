/** Rearranging an image stored by rows into one stored by columns, with 32-bit indices. */
module RowMajor {

  const UINT32 := 0x1_0000_0000

  /** The index of element `minor` of line `major` when lines are `length` long. */
  function Cell(major: nat, minor: nat, length: nat): nat {
    if major == 0 then minor else length + Cell(major - 1, minor, length)
  }

  /** The same as the code computes it. */
  function Cell32(major: nat, minor: nat, length: nat): nat {
    (major * length + minor) % UINT32
  }

  lemma {:induction false} CellIsProduct(major: nat, minor: nat, length: nat)
    ensures Cell(major, minor, length) == major * length + minor
  {
    if major == 0 {
    } else {
      CellIsProduct(major - 1, minor, length);
      assert major * length == (major - 1) * length + length;
    }
  }

  lemma {:induction false} CellBound(major: nat, minor: nat, length: nat, lines: nat)
    requires major < lines && minor < length
    ensures Cell(major, minor, length) < lines * length
  {
    CellIsProduct(major, minor, length);
    LinesGrow(major + 1, lines, length);
    assert (major + 1) * length == major * length + length;
  }

  lemma {:induction false} LinesGrow(a: nat, b: nat, length: nat)
    requires a <= b
    ensures a * length <= b * length
  {
    if a == b {
    } else {
      LinesGrow(a, b - 1, length);
      assert b * length == (b - 1) * length + length;
    }
  }

  lemma {:induction false} CellsDiffer(major: nat, minor: nat, major': nat, minor': nat, length: nat)
    requires minor < length && minor' < length
    ensures Cell(major, minor, length) == Cell(major', minor', length) <==> major == major' && minor == minor'
  {
    if major == 0 || major' == 0 {
    } else {
      CellsDiffer(major - 1, minor, major' - 1, minor', length);
    }
  }

  /** Line and position of a cell. */
  lemma {:induction false} CellParts(c: nat, length: nat, lines: nat) returns (major: nat, minor: nat)
    requires c < lines * length
    ensures major < lines && minor < length && Cell(major, minor, length) == c
    decreases lines
  {
    if c < length {
      major, minor := 0, c;
    } else {
      assert lines * length == (lines - 1) * length + length;
      major, minor := CellParts(c - length, length, lines - 1);
      major := major + 1;
    }
  }

  /** Nothing wraps around while there are no more cells than indices. */
  lemma NoWrap(major: nat, minor: nat, length: nat, lines: nat)
    requires major < lines && minor < length && lines * length <= UINT32
    ensures Cell32(major, minor, length) == Cell(major, minor, length) < lines * length
  {
    CellBound(major, minor, length, lines);
    CellIsProduct(major, minor, length);
  }

  // ----- the code -----

  ghost predicate Copied<T>(dest: array<T>, src: array<T>, width: nat, height: nat, x: nat, y: nat)
    reads dest, src
  {
    && Cell(x, y, height) < dest.Length && Cell(y, x, width) < src.Length
    && dest[Cell(x, y, height)] == src[Cell(y, x, width)]
  }

  method CopyCell<T>(dest: array<T>, src: array<T>, width: nat, height: nat, x: nat, y: nat)
    requires dest != src && dest.Length == src.Length == width * height <= UINT32
    requires x < width && y < height
    modifies dest
    ensures Copied(dest, src, width, height, x, y)
    ensures forall i, j :: 0 <= i && 0 <= j < height && (i != x || j != y) && old(Copied(dest, src, width, height, i, j)) ==>
      Copied(dest, src, width, height, i, j)
  {
    assert width * height == height * width;
    NoWrap(x, y, height, width);
    NoWrap(y, x, width, height);
    dest[(x * height + y) % UINT32] := src[(y * width + x) % UINT32];
    forall i, j | 0 <= i && 0 <= j < height && (i != x || j != y) && old(Copied(dest, src, width, height, i, j))
      ensures Copied(dest, src, width, height, i, j)
    {
      CellsDiffer(i, j, x, y, height);
    }
  }

  /** Every image that 32-bit indices can reach is transposed. */
  method RowMajorToColMajor<T>(dest: array<T>, src: array<T>, width: nat, height: nat)
    requires dest != src && dest.Length == src.Length == width * height <= UINT32
    modifies dest
    ensures IsTransposed(dest[..], src[..], width, height)
  {
    var y := 0;
    while y < height
      invariant 0 <= y <= height
      invariant forall i, j :: 0 <= i < width && 0 <= j < y ==> Copied(dest, src, width, height, i, j)
    {
      var x := 0;
      while x < width
        invariant 0 <= x <= width
        invariant forall i, j :: 0 <= i < width && 0 <= j < y ==> Copied(dest, src, width, height, i, j)
        invariant forall i :: 0 <= i < x ==> Copied(dest, src, width, height, i, y)
      {
        CopyCell(dest, src, width, height, x, y);
        x := x + 1;
      }
      y := y + 1;
    }
    forall i, j | 0 <= i < width && 0 <= j < height
      ensures Cell(i, j, height) < |dest[..]| && Cell(j, i, width) < |src[..]| && dest[..][Cell(i, j, height)] == src[..][Cell(j, i, width)]
    {
      assert Copied(dest, src, width, height, i, j);
    }
  }

  /** Element (x, y) is in column x of the one image and in row y of the other. */
  ghost predicate IsTransposed<T>(columns: seq<T>, rows: seq<T>, width: nat, height: nat) {
    && |columns| == |rows| == width * height
    && forall x, y :: 0 <= x < width && 0 <= y < height ==>
         && Cell(x, y, height) < |columns| && Cell(y, x, width) < |rows|
         && columns[Cell(x, y, height)] == rows[Cell(y, x, width)]
  }

  /** The result is determined by the image: no cell is left as it was. */
  lemma TransposedIsUnique<T>(a: seq<T>, b: seq<T>, rows: seq<T>, width: nat, height: nat)
    requires IsTransposed(a, rows, width, height) && IsTransposed(b, rows, width, height)
    ensures a == b
  {
    forall c | 0 <= c < |a|
      ensures a[c] == b[c]
    {
      var x, y := CellParts(c, height, width);
      assert a[Cell(x, y, height)] == rows[Cell(y, x, width)];
    }
  }

  /** Transposing again with the sizes exchanged restores the image. */
  lemma TransposedTwice<T>(image: seq<T>, once: seq<T>, twice: seq<T>, width: nat, height: nat)
    requires IsTransposed(once, image, width, height) && IsTransposed(twice, once, height, width)
    ensures twice == image
  {
    assert width * height == height * width;
    forall c | 0 <= c < |image|
      ensures twice[c] == image[c]
    {
      var y, x := CellParts(c, width, height);
      assert once[Cell(x, y, height)] == image[Cell(y, x, width)];
      assert twice[Cell(y, x, width)] == once[Cell(x, y, height)];
    }
  }

  // ----- 32-bit indices -----

  ghost predicate Reached(c: nat, width: nat, height: nat) {
    exists x, y :: 0 <= x < width && 0 <= y < height && Cell32(x, y, height) == c
  }

  /** The loops reach every cell of the destination if and only if there are no more cells than
      32-bit indices; then each is written once, for one element. */
  lemma EachCellOnce(width: nat, height: nat)
    ensures (forall c: nat :: c < width * height ==> Reached(c, width, height)) <==> width * height <= UINT32
  {
    if width * height <= UINT32 {
      forall c: nat | c < width * height
        ensures Reached(c, width, height)
      {
        var x, y := CellParts(c, height, width);
        CellIsProduct(x, y, height);
        assert Cell32(x, y, height) == c;
      }
    } else {
      assert !Reached(UINT32, width, height);
    }
  }

  lemma NoCellTwice(width: nat, height: nat, x: nat, y: nat, x': nat, y': nat)
    requires width * height <= UINT32 && x < width && y < height && x' < width && y' < height
    requires Cell32(x, y, height) == Cell32(x', y', height)
    ensures x == x' && y == y'
  {
    NoWrap(x, y, height, width);
    NoWrap(x', y', height, width);
    CellsDiffer(x, y, x', y', height);
  }
}
