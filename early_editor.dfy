/** The first version of the editor's model (src/editor/ModelManager.java) and the
    single-cell edit command written against it (src/editor/model/UpdateTileAtCommand.java).
    The map has a fixed size of 30 by 20 tiles; every edit writes the manager's currently
    selected material into one cell, and the command's undo borrows that selection to
    write the remembered id back. */
module EarlyEditor {
  import opened Grids
  import Zoom

  const MapWidthInTiles := 30
  const MapHeightInTiles := 20
  const InitialTileSizeInPixels := 32
  const InitialSelectedMaterialID := 1
  const ZoomUpperBound := 100
  const ZoomLowerBound := 10
  /** The two grass tile ids the initial map is strewn with. */
  const Grass1 := 1
  const Grass2 := 2

  predicate IsGrass(id: int)
  {
    id == Grass1 || id == Grass2
  }

  /** An assignment to one cell of the map: unlike the later editor, every id is
      written, 0 included. */
  function SetCell(g: Grid, x: nat, y: nat, m: int): (r: Grid)
    requires InBounds(g, x, y)
    ensures |r| == |g| && forall i :: 0 <= i < |g| ==> |r[i]| == |g[i]|
    ensures forall i, j :: 0 <= i < |g| && 0 <= j < |g[i]| ==>
              r[i][j] == (if i == x && j == y then m else g[i][j])
  {
    g[x := g[x][y := m]]
  }

  /** Writing back the id a cell held undoes any write to that cell. */
  lemma SetCellRoundTrip(g: Grid, x: nat, y: nat, m: int)
    requires InBounds(g, x, y)
    ensures SetCell(SetCell(g, x, y, m), x, y, g[x][y]) == g
  {
    var u := SetCell(SetCell(g, x, y, m), x, y, g[x][y]);
    forall i | 0 <= i < |g|
      ensures u[i] == g[i]
    {
      assert |u[i]| == |g[i]|;
    }
  }

  class ModelManager {
    var tileSizeInPixels: int
    var tiles: array2<int>
    var currentSelectedMaterialID: int

    /** The map always has the fixed size. */
    predicate Valid()
      reads this
    {
      tiles.Length0 == MapWidthInTiles && tiles.Length1 == MapHeightInTiles
    }

    /** The private constructor: a random grass map, material 1 selected, tiles of 32
        pixels. Loading the tile types from disk is not part of this model. */
    constructor ()
      ensures Valid() && fresh(tiles)
      ensures tileSizeInPixels == InitialTileSizeInPixels
      ensures currentSelectedMaterialID == InitialSelectedMaterialID
      ensures forall i, j :: 0 <= i < MapWidthInTiles && 0 <= j < MapHeightInTiles ==> IsGrass(tiles[i, j])
    {
      tileSizeInPixels := InitialTileSizeInPixels;
      tiles := new int[0, 0];
      new;
      PrepareTiles();
      currentSelectedMaterialID := InitialSelectedMaterialID;
    }

    /** prepareTiles: a new 30 by 20 array, each cell GRASS1 or GRASS2 by a coin toss. */
    method PrepareTiles()
      modifies this`tiles
      ensures Valid() && fresh(tiles)
      ensures forall i, j :: 0 <= i < MapWidthInTiles && 0 <= j < MapHeightInTiles ==> IsGrass(tiles[i, j])
    {
      var newTiles := new int[MapWidthInTiles, MapHeightInTiles];
      for i := 0 to MapWidthInTiles
        invariant forall i', j' :: 0 <= i' < i && 0 <= j' < MapHeightInTiles ==> IsGrass(newTiles[i', j'])
      {
        for j := 0 to MapHeightInTiles
          invariant forall i', j' :: 0 <= i' < i && 0 <= j' < MapHeightInTiles ==> IsGrass(newTiles[i', j'])
          invariant forall j' :: 0 <= j' < j ==> IsGrass(newTiles[i, j'])
        {
          var heads: bool :| true;
          newTiles[i, j] := if heads then Grass1 else Grass2;
        }
      }
      tiles := newTiles;
    }

    /** increaseTileSizeInPixels: zooming in (a negative value) is allowed below 100
        pixels, zooming out above 10; the size changes by -value exactly when allowed. */
    method IncreaseTileSizeInPixels(value: int) returns (changed: bool)
      modifies this`tileSizeInPixels
      ensures changed <==> Zoom.ZoomedSize(old(tileSizeInPixels), value, ZoomLowerBound).Some?
      ensures tileSizeInPixels ==
        if changed then old(tileSizeInPixels) - value else old(tileSizeInPixels)
    {
      changed := false;
      if value < 0 {
        if tileSizeInPixels < ZoomUpperBound {
          tileSizeInPixels := tileSizeInPixels - value;
          changed := true;
        }
      } else if tileSizeInPixels > ZoomLowerBound {
        tileSizeInPixels := tileSizeInPixels - value;
        changed := true;
      }
    }

    /** getTileAt: the id of cell (x, y) of the map value. */
    function GetTileAt(x: nat, y: nat): (r: int)
      requires x < tiles.Length0 && y < tiles.Length1
      reads this, tiles
      ensures r == Cells(tiles)[x][y]
    {
      tiles[x, y]
    }

    /** The selected id; the getter is commented out in the class but the command's
        undo calls it. */
    function GetCurrentSelectedMaterialID(): int
      reads this
    {
      currentSelectedMaterialID
    }

    /** updateTileAt: the selected material is written into cell (x, y); no other cell
        changes. */
    method UpdateTileAt(x: nat, y: nat)
      requires Valid() && x < MapWidthInTiles && y < MapHeightInTiles
      modifies tiles
      ensures Cells(tiles) == SetCell(old(Cells(tiles)), x, y, currentSelectedMaterialID)
    {
      ghost var before := Cells(tiles);
      tiles[x, y] := currentSelectedMaterialID;
      SameCells(Cells(tiles), SetCell(before, x, y, currentSelectedMaterialID), MapWidthInTiles, MapHeightInTiles);
    }

    /** setCurrentSelectedMaterialID: only the selection changes. */
    method SetCurrentSelectedMaterialID(newID: int)
      modifies this`currentSelectedMaterialID
      ensures currentSelectedMaterialID == newID
    {
      currentSelectedMaterialID := newID;
    }
  }

  /** The single-cell edit command of this version: the target cell is fixed at
      creation, the id found there is remembered by perform. */
  class UpdateTileAtCommand {
    const x: nat
    const y: nat
    var oldMaterial: int

    constructor (x: nat, y: nat)
      ensures this.x == x && this.y == y && oldMaterial == 0
    {
      this.x := x;
      this.y := y;
      oldMaterial := 0;
    }

    /** perform: remember the cell's id, then write the selected material. */
    method Perform(m: ModelManager)
      requires m.Valid() && x < MapWidthInTiles && y < MapHeightInTiles
      modifies this`oldMaterial, m.tiles
      ensures oldMaterial == old(m.tiles[x, y])
      ensures Cells(m.tiles) == SetCell(old(Cells(m.tiles)), x, y, m.currentSelectedMaterialID)
    {
      oldMaterial := m.GetTileAt(x, y);
      m.UpdateTileAt(x, y);
    }

    /** undo: select the remembered id, write it, and select the previous id again. */
    method Undo(m: ModelManager)
      requires m.Valid() && x < MapWidthInTiles && y < MapHeightInTiles
      modifies m`currentSelectedMaterialID, m.tiles
      ensures Cells(m.tiles) == SetCell(old(Cells(m.tiles)), x, y, oldMaterial)
      ensures m.currentSelectedMaterialID == old(m.currentSelectedMaterialID)
    {
      var lastMaterial := m.GetCurrentSelectedMaterialID();
      m.SetCurrentSelectedMaterialID(oldMaterial);
      m.UpdateTileAt(x, y);
      m.SetCurrentSelectedMaterialID(lastMaterial);
    }
  }

  /** A click followed by undo leaves the map and the selection exactly as they were,
      whatever the cell held (including 0). */
  method EditThenUndo(m: ModelManager, x: nat, y: nat)
    requires m.Valid() && x < MapWidthInTiles && y < MapHeightInTiles
    modifies m`currentSelectedMaterialID, m.tiles
    ensures Cells(m.tiles) == old(Cells(m.tiles))
    ensures m.currentSelectedMaterialID == old(m.currentSelectedMaterialID)
  {
    var c := new UpdateTileAtCommand(x, y);
    c.Perform(m);
    c.Undo(m);
    SetCellRoundTrip(old(Cells(m.tiles)), x, y, m.currentSelectedMaterialID);
  }
}
