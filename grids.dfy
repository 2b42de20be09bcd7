/** The tile map as a value: `g[x][y]` is the tile-type id at column x, row y (the
    source's `int[][] tiles`, indexed x first). Single-cell edits, their undo, and the
    map's string rendering are defined here on values; the manager classes hold the
    grid in an array and are proved against these definitions. */
module Grids {
  import opened Text

  type Grid = seq<seq<int>>

  /** The id the source reserves for "no material": an edit never writes it. */
  const NoMaterial := 0

  /** `g` has `w` columns of `h` cells each. */
  predicate IsRect(g: Grid, w: nat, h: nat)
  {
    |g| == w && forall i :: 0 <= i < w ==> |g[i]| == h
  }

  predicate InBounds(g: Grid, x: nat, y: nat)
  {
    x < |g| && y < |g[x]|
  }

  /** No cell holds the reserved id 0. */
  predicate NoSentinel(g: Grid)
  {
    forall i, j :: 0 <= i < |g| && 0 <= j < |g[i]| ==> g[i][j] != NoMaterial
  }

  /** The cells of a two-dimensional array as a grid value. */
  function Cells(a: array2<int>): (g: Grid)
    reads a
    ensures IsRect(g, a.Length0, a.Length1)
    ensures forall i, j :: 0 <= i < a.Length0 && 0 <= j < a.Length1 ==> g[i][j] == a[i, j]
  {
    seq(a.Length0, i requires 0 <= i < a.Length0 reads a =>
      seq(a.Length1, j requires 0 <= j < a.Length1 reads a => a[i, j]))
  }

  /** Two grids of the same shape that agree cell by cell are equal. */
  lemma SameCells(a: Grid, b: Grid, w: nat, h: nat)
    requires IsRect(a, w, h) && IsRect(b, w, h)
    requires forall i, j :: 0 <= i < w && 0 <= j < h ==> a[i][j] == b[i][j]
    ensures a == b
  {
    forall i | 0 <= i < w
      ensures a[i] == b[i]
    {
      assert |a[i]| == |b[i]| == h;
    }
  }

  /** updateTileAtWith: writes `m` into cell (x, y) unless `m` is the reserved id 0.
      Only that one cell can change. */
  function WriteMaterial(g: Grid, x: nat, y: nat, m: int): (r: Grid)
    requires InBounds(g, x, y)
    ensures |r| == |g| && forall i :: 0 <= i < |g| ==> |r[i]| == |g[i]|
    ensures forall i, j :: 0 <= i < |g| && 0 <= j < |g[i]| ==>
              r[i][j] == (if i == x && j == y && m != NoMaterial then m else g[i][j])
  {
    if m != NoMaterial then g[x := g[x][y := m]] else g
  }

  /** A single-cell edit command: target cell, the id to write, and the id it found
      there when performed (0 until then, as the source's int field). */
  datatype TileEdit = UpdateTileAt(x: nat, y: nat, newMaterial: int, oldMaterial: int)

  /** A new edit, before it is performed. */
  function NewTileEdit(x: nat, y: nat, newMaterial: int): TileEdit
  {
    UpdateTileAt(x, y, newMaterial, 0)
  }

  /** perform: remembers the current cell as the old id, then writes the new id. */
  function PerformEdit(g: Grid, e: TileEdit): (r: (Grid, TileEdit))
    requires InBounds(g, e.x, e.y)
  {
    (WriteMaterial(g, e.x, e.y, e.newMaterial), e.(oldMaterial := g[e.x][e.y]))
  }

  /** undo: writes the remembered old id back. */
  function UndoEdit(g: Grid, e: TileEdit): Grid
    requires InBounds(g, e.x, e.y)
  {
    WriteMaterial(g, e.x, e.y, e.oldMaterial)
  }

  /** Undo reverses perform exactly when the cell did not hold the reserved id 0 or the
      edit wrote nothing: a cell holding 0 is overwritten by perform but never restored,
      because undo skips writing 0. */
  lemma EditRoundTrip(g: Grid, e: TileEdit)
    requires InBounds(g, e.x, e.y)
    ensures var (g', done) := PerformEdit(g, e);
            UndoEdit(g', done) == g <==> g[e.x][e.y] != NoMaterial || e.newMaterial == NoMaterial
  {
    var (g', done) := PerformEdit(g, e);
    if g[e.x][e.y] == NoMaterial && e.newMaterial != NoMaterial {
      assert UndoEdit(g', done)[e.x][e.y] != g[e.x][e.y];
    } else {
      var u := UndoEdit(g', done);
      assert |u| == |g|;
      forall i | 0 <= i < |g|
        ensures u[i] == g[i]
      {
        assert |u[i]| == |g[i]|;
      }
    }
  }

  /** Every edit of the list targets a cell of a w-by-h map. */
  predicate Within(edits: seq<TileEdit>, w: nat, h: nat)
  {
    forall k :: 0 <= k < |edits| ==> edits[k].x < w && edits[k].y < h
  }

  /** The edits of a transaction performed one after the other, each recording the id it
      overwrote; returns the final grid and the performed edits. */
  function PerformEdits(g: Grid, w: nat, h: nat, edits: seq<TileEdit>): (r: (Grid, seq<TileEdit>))
    requires IsRect(g, w, h)
    requires Within(edits, w, h)
    ensures IsRect(r.0, w, h)
    ensures NoSentinel(g) ==> NoSentinel(r.0)
    ensures |r.1| == |edits|
    ensures forall k :: 0 <= k < |edits| ==>
              r.1[k].x == edits[k].x && r.1[k].y == edits[k].y && r.1[k].newMaterial == edits[k].newMaterial
  {
    if edits == [] then (g, [])
    else
      var (g1, done1) := PerformEdits(g, w, h, edits[..|edits| - 1]);
      var (g2, last) := PerformEdit(g1, edits[|edits| - 1]);
      (g2, done1 + [last])
  }

  /** The id cell (i, j) holds after `edits` when it started as `start`: the material
      of the last edit to that cell that writes something, or `start` if none does. */
  function LastWritten(edits: seq<TileEdit>, i: nat, j: nat, start: int): int
  {
    if edits == [] then start
    else
      var e := edits[|edits| - 1];
      if e.x == i && e.y == j && e.newMaterial != NoMaterial then e.newMaterial
      else LastWritten(edits[..|edits| - 1], i, j, start)
  }

  /** After a transaction every cell holds the last id written to it, or its old id
      where nothing was written. */
  lemma {:induction false} PerformEditsCells(g: Grid, w: nat, h: nat, edits: seq<TileEdit>, i: nat, j: nat)
    requires IsRect(g, w, h) && i < w && j < h
    requires Within(edits, w, h)
    ensures PerformEdits(g, w, h, edits).0[i][j] == LastWritten(edits, i, j, g[i][j])
  {
    if edits != [] {
      var n := |edits| - 1;
      PerformEditsCells(g, w, h, edits[..n], i, j);
    }
  }

  /** Each recorded edit remembers the id its cell held just before it: the start
      value, or the one written by the latest earlier edit of the same cell. */
  lemma {:induction false} PerformEditsRecords(g: Grid, w: nat, h: nat, edits: seq<TileEdit>, k: nat)
    requires IsRect(g, w, h) && k < |edits|
    requires Within(edits, w, h)
    ensures PerformEdits(g, w, h, edits).1[k].oldMaterial ==
            LastWritten(edits[..k], edits[k].x, edits[k].y, g[edits[k].x][edits[k].y])
  {
    var n := |edits| - 1;
    if k < n {
      var init := edits[..n];
      PerformEditsRecords(g, w, h, init, k);
      PerformEditsKeepsRecords(g, w, h, edits, k);
      assert init[..k] == edits[..k] && init[k] == edits[k];
    } else {
      PerformEditsLastRecord(g, w, h, edits);
    }
  }

  /** Performing one more edit leaves the earlier records as they were. */
  lemma PerformEditsKeepsRecords(g: Grid, w: nat, h: nat, edits: seq<TileEdit>, k: nat)
    requires IsRect(g, w, h) && k < |edits| - 1
    requires Within(edits, w, h)
    ensures PerformEdits(g, w, h, edits).1[k] == PerformEdits(g, w, h, edits[..|edits| - 1]).1[k]
  {
    PerformEditsSnoc(g, w, h, edits);
  }

  /** One more edit: the stroke so far, then that edit performed on its map. */
  lemma PerformEditsSnoc(g: Grid, w: nat, h: nat, edits: seq<TileEdit>)
    requires IsRect(g, w, h) && edits != []
    requires Within(edits, w, h)
    ensures var init := PerformEdits(g, w, h, edits[..|edits| - 1]);
            var (g', last) := PerformEdit(init.0, edits[|edits| - 1]);
            PerformEdits(g, w, h, edits) == (g', init.1 + [last])
  {
  }

  /** The newest record holds what the cell held after all the earlier edits. */
  lemma PerformEditsLastRecord(g: Grid, w: nat, h: nat, edits: seq<TileEdit>)
    requires IsRect(g, w, h) && edits != []
    requires Within(edits, w, h)
    ensures var n := |edits| - 1;
            PerformEdits(g, w, h, edits).1[n].oldMaterial ==
            LastWritten(edits[..n], edits[n].x, edits[n].y, g[edits[n].x][edits[n].y])
  {
    var n := |edits| - 1;
    var (g1, done1) := PerformEdits(g, w, h, edits[..n]);
    PerformEditsCells(g, w, h, edits[..n], edits[n].x, edits[n].y);
    assert PerformEdits(g, w, h, edits).1 == done1 + [PerformEdit(g1, edits[n]).1];
  }

  /** The performed edits undone from the last one back to the first (MacroCommand.undo). */
  function UndoEdits(g: Grid, w: nat, h: nat, done: seq<TileEdit>): (r: Grid)
    requires IsRect(g, w, h)
    requires Within(done, w, h)
    ensures IsRect(r, w, h)
    decreases |done|
  {
    if done == [] then g
    else UndoEdits(UndoEdit(g, done[|done| - 1]), w, h, done[..|done| - 1])
  }

  /** A transaction of single-cell edits, undone in reverse order, restores the grid it
      started from, cell for cell, provided no cell held the reserved id 0. */
  lemma {:induction false} TransactionRoundTrip(g: Grid, w: nat, h: nat, edits: seq<TileEdit>)
    requires IsRect(g, w, h) && NoSentinel(g)
    requires Within(edits, w, h)
    ensures var (g', done) := PerformEdits(g, w, h, edits);
            UndoEdits(g', w, h, done) == g
  {
    if edits != [] {
      var init := edits[..|edits| - 1];
      var (g1, done1) := PerformEdits(g, w, h, init);
      var (g2, last) := PerformEdit(g1, edits[|edits| - 1]);
      var done := done1 + [last];
      assert PerformEdits(g, w, h, edits) == (g2, done);
      assert done[|done| - 1] == last && done[..|done| - 1] == done1;
      EditRoundTrip(g1, edits[|edits| - 1]);
      assert UndoEdit(g2, last) == g1;
      TransactionRoundTrip(g, w, h, init);
    }
  }

  /** One column as the source renders it: "[" + ids separated by "," + "]". */
  function ColumnString(column: seq<int>): string
  {
    "[" + Join(IdStrings(column), ",") + "]"
  }

  function IdStrings(column: seq<int>): seq<string>
  {
    seq(|column|, j requires 0 <= j < |column| => IntToString(column[j]))
  }

  function ColumnStrings(g: Grid): seq<string>
  {
    seq(|g|, i requires 0 <= i < |g| => ColumnString(g[i]))
  }

  /** getMapStringRepresentation: "[" + one bracketed column per x, with nothing between
      the columns, + "]". */
  function MapString(g: Grid): string
  {
    "[" + Concat(ColumnStrings(g)) + "]"
  }

  lemma {:induction false} JoinWithout(parts: seq<string>, sep: string, c: char)
    requires forall k, i :: 0 <= k < |parts| && 0 <= i < |parts[k]| ==> parts[k][i] != c
    requires forall i :: 0 <= i < |sep| ==> sep[i] != c
    ensures Count(Join(parts, sep), c) == 0
    decreases |parts|
  {
    if |parts| > 1 {
      var init := parts[..|parts| - 1];
      JoinWithout(init, sep, c);
      CountConcat(Join(init, sep), sep, c);
      CountConcat(Join(init, sep) + sep, parts[|parts| - 1], c);
      CountAbsent(sep, c);
      CountAbsent(parts[|parts| - 1], c);
    } else if |parts| == 1 {
      CountAbsent(parts[0], c);
    }
  }

  /** A rendered column holds one opening bracket. */
  lemma ColumnBrackets(column: seq<int>)
    ensures Count(ColumnString(column), '[') == 1
  {
    var parts := IdStrings(column);
    JoinWithout(parts, ",", '[');
    var body := Join(parts, ",");
    CountConcat("[", body, '[');
    CountConcat("[" + body, "]", '[');
    assert Count("[", '[') == 1 by { assert "["[..0] == ""; }
    assert Count("]", '[') == 0 by { assert "]"[..0] == ""; }
  }

  lemma {:induction false} ColumnsBrackets(cols: seq<string>, n: nat)
    requires |cols| == n
    requires forall k :: 0 <= k < n ==> Count(cols[k], '[') == 1
    ensures Count(Concat(cols), '[') == n
    decreases n
  {
    if n > 0 {
      ColumnsBrackets(cols[..n - 1], n - 1);
      CountConcat(Concat(cols[..n - 1]), cols[n - 1], '[');
    }
  }

  /** The rendering holds one opening bracket per column plus the outer one, so the
      number of columns can be read back from it. */
  lemma MapStringBrackets(g: Grid)
    ensures Count(MapString(g), '[') == |g| + 1
  {
    var cols := ColumnStrings(g);
    forall k | 0 <= k < |g|
      ensures Count(cols[k], '[') == 1
    {
      ColumnBrackets(g[k]);
    }
    ColumnsBrackets(cols, |g|);
    CountConcat("[", Concat(cols), '[');
    CountConcat("[" + Concat(cols), "]", '[');
    assert Count("[", '[') == 1 by { assert "["[..0] == ""; }
    assert Count("]", '[') == 0 by { assert "]"[..0] == ""; }
  }

  /** The three-column map of the manager tests renders as "[[1,2][8,10][9,3]]". */
  lemma MapStringExample(g: Grid)
    requires g == [[1, 2], [8, 10], [9, 3]]
    ensures MapString(g) == "[[1,2][8,10][9,3]]"
  {
    ExampleColumns(g);
    MapStringOfThree(g, "[1,2]", "[8,10]", "[9,3]");
    assert "[" + "[1,2]" + "[8,10]" + "[9,3]" + "]" == "[[1,2][8,10][9,3]]";
  }

  lemma MapStringOfThree(g: Grid, a: string, b: string, c: string)
    requires ColumnStrings(g) == [a, b, c]
    ensures MapString(g) == "[" + a + b + c + "]"
  {
    ConcatThree(a, b, c);
  }

  lemma ConcatThree(a: string, b: string, c: string)
    ensures Concat([a, b, c]) == a + b + c
  {
    var parts := [a, b, c];
    assert parts[..2] == [a, b] && parts[..2][..1] == [a] && parts[..2][..1][..0] == [];
    assert Concat([a]) == Concat([]) + a == a;
    assert Concat([a, b]) == Concat([a]) + b;
    assert Concat(parts) == Concat([a, b]) + c;
  }

  lemma ExampleColumns(g: Grid)
    requires g == [[1, 2], [8, 10], [9, 3]]
    ensures ColumnStrings(g) == ["[1,2]", "[8,10]", "[9,3]"]
  {
    SmallIdStrings();
    ColumnExample(g[0], "1", "2");
    ColumnExample(g[1], "8", "10");
    ColumnExample(g[2], "9", "3");
    ColumnStringsOfThree(g, "[1,2]", "[8,10]", "[9,3]");
  }

  lemma SmallIdStrings()
    ensures IntToString(1) == "1" && IntToString(2) == "2" && IntToString(3) == "3"
    ensures IntToString(8) == "8" && IntToString(9) == "9" && IntToString(10) == "10"
  {
    assert NatToString(10) == NatToString(1) + [DigitChar(0)];
  }

  lemma ColumnStringsOfThree(g: Grid, a: string, b: string, c: string)
    requires |g| == 3 && ColumnString(g[0]) == a && ColumnString(g[1]) == b && ColumnString(g[2]) == c
    ensures ColumnStrings(g) == [a, b, c]
  {
  }

  lemma ColumnExample(column: seq<int>, a: string, b: string)
    requires |column| == 2 && IntToString(column[0]) == a && IntToString(column[1]) == b
    ensures ColumnString(column) == "[" + a + "," + b + "]"
  {
    var parts := IdStrings(column);
    assert parts == [a, b] && parts[..1] == [a];
    assert Join(parts, ",") == Join(parts[..1], ",") + "," + b;
  }
}
