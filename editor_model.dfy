/** The editor's model manager (src/editor/model/ModelManager.java): the tile map held
    in a two-dimensional array, the zoom level, the primary and secondary brushes, the
    catalog of tile types and the undo history. Its inner commands are values that
    record, when performed, what their undo needs; the composite MacroCommand is an
    object, because the editor pushes it first and adds edits to it afterwards. */
module EditorModel {
  import opened Wrappers
  import opened Text
  import opened Grids
  import opened TileTypes
  import opened Catalog
  import Zoom

  const DefaultTileSizeInPixels := 32
  const MapDefaultWidthInTiles := 30
  const MapDefaultHeightInTiles := 20
  /** The two grass ids a default map is filled with. */
  const Grass1 := 1
  const Grass2 := 2
  /** A tile larger than this cannot be enlarged further. */
  const ZoomUpperBound := 100
  /** A tile at or below this size cannot be shrunk further. */
  const ZoomLowerBound := 10

  /** The two exceptions the manager can raise: the RuntimeException of an empty catalog,
      and Java's NegativeArraySizeException when a map of negative size is asked for. */
  datatype ModelError = EmptyCatalog | NegativeArraySize

  predicate IsDefaultMaterial(v: int)
  {
    v == Grass1 || v == Grass2
  }

  /** createInitiatedByDefaultTiles: a new x-by-y map, each cell grass 1 or grass 2 by a
      coin flip. */
  method CreateInitiatedByDefaultTiles(x: nat, y: nat) returns (newTiles: array2<int>)
    ensures fresh(newTiles)
    ensures newTiles.Length0 == x && newTiles.Length1 == y
    ensures forall i, j :: 0 <= i < x && 0 <= j < y ==> IsDefaultMaterial(newTiles[i, j])
  {
    newTiles := new int[x, y];
    for i := 0 to x
      invariant forall i', j' :: 0 <= i' < i && 0 <= j' < y ==> IsDefaultMaterial(newTiles[i', j'])
    {
      for j := 0 to y
        invariant forall i', j' :: 0 <= i' < i && 0 <= j' < y ==> IsDefaultMaterial(newTiles[i', j'])
        invariant forall j' :: 0 <= j' < j ==> IsDefaultMaterial(newTiles[i, j'])
      {
        var heads: bool :| true;
        newTiles[i, j] := if heads then Grass1 else Grass2;
      }
    }
  }

  /** The commands the manager performs and keeps for undo. The fields after the first
      ones are filled in by perform: the id the edited cell held, or the size and the
      array the map had before a resize or a clear (null until performed). The requested
      size is a Java int and may be negative; such a resize fails. */
  datatype Command =
    | EditTile(edit: TileEdit)
    | UpdateMapSize(newMapWidth: int, newMapHeight: int, oldMapWidth: nat, oldMapHeight: nat,
                    oldTiles: array2?<int>)
    | ClearMap(oldTiles: array2?<int>)
    | Macro(macro: MacroCommand)

  function NewUpdateTileAtCommand(x: nat, y: nat, newMaterial: int): Command
  {
    EditTile(NewTileEdit(x, y, newMaterial))
  }

  function NewUpdateMapSizeCommand(width: int, height: int): Command
  {
    UpdateMapSize(width, height, 0, 0, null)
  }

  function NewClearMapCommand(): Command
  {
    ClearMap(null)
  }

  /** The objects an undo of `c` may touch besides the manager and its map. */
  function MacroOf(c: Command): set<MacroCommand>
  {
    if c.Macro? then {c.macro} else {}
  }

  /** What the column loop has built after `j` of `h` ids: every id so far, each
      followed by a comma unless it is the column's last. */
  function ColumnPrefix(ids: seq<string>, j: nat, h: nat): string
    requires j <= |ids|
  {
    "[" + Join(ids[..j], ",") + (if 0 < j < h then "," else "")
  }

  lemma ColumnPrefixStep(ids: seq<string>, j: nat, h: nat)
    requires j < |ids| == h
    ensures ColumnPrefix(ids, j + 1, h) ==
            ColumnPrefix(ids, j, h) + ids[j] + (if j + 1 < h then "," else "")
  {
    JoinStep(ids, ",", j);
  }

  /** What the row loop has built after column i, plus column i, is what it has built
      after column i + 1. */
  lemma MapPrefixStep(cols: seq<string>, i: nat)
    requires i < |cols|
    ensures "[" + Concat(cols[..i]) + cols[i] == "[" + Concat(cols[..i + 1])
  {
    assert cols[..i + 1][..i] == cols[..i];
    assert Concat(cols[..i + 1]) == Concat(cols[..i]) + cols[i];
  }

  class ModelManager {
    var tileSizeInPixels: int
    var tiles: array2<int>
    var primaryMaterialID: int
    var secondaryMaterialID: int
    const tileTypes: seq<TileType>
    var mapWidth: nat
    var mapHeight: nat
    var commands: seq<Command>

    /** The recorded map size is the size of the array. */
    predicate Valid()
      reads this
    {
      tiles.Length0 == mapWidth && tiles.Length1 == mapHeight
    }

    /** The map was resized to x by y from `prev` (which had `prevHeight` rows): the
        overlapping rectangle kept its ids, and every newly exposed cell holds grass. */
    predicate ResizedFrom(prev: Grid, prevHeight: nat, x: nat, y: nat)
      reads this, tiles
    {
      Valid() && mapWidth == x && mapHeight == y && IsRect(prev, |prev|, prevHeight) &&
      forall i, j :: 0 <= i < x && 0 <= j < y ==>
        if i < |prev| && j < prevHeight then tiles[i, j] == prev[i][j]
        else IsDefaultMaterial(tiles[i, j])
    }

    /** The manager built on a loaded, non-empty catalog: a 30-by-20 grass map, both
        brushes on the first catalog entry, tiles of 32 pixels, no history. The empty
        catalog's exception is raised by NewModelManager before this runs. */
    constructor (tileTypes: seq<TileType>)
      requires tileTypes != []
      ensures Valid() && fresh(tiles)
      ensures this.tileTypes == tileTypes && commands == []
      ensures mapWidth == MapDefaultWidthInTiles && mapHeight == MapDefaultHeightInTiles
      ensures forall i, j :: 0 <= i < mapWidth && 0 <= j < mapHeight ==> IsDefaultMaterial(tiles[i, j])
      ensures primaryMaterialID == tileTypes[0].id && secondaryMaterialID == tileTypes[0].id
      ensures tileSizeInPixels == DefaultTileSizeInPixels
    {
      var t := CreateInitiatedByDefaultTiles(MapDefaultWidthInTiles, MapDefaultHeightInTiles);
      tileSizeInPixels := DefaultTileSizeInPixels;
      this.tileTypes := tileTypes;
      primaryMaterialID := tileTypes[0].id;
      secondaryMaterialID := tileTypes[0].id;
      mapWidth := MapDefaultWidthInTiles;
      mapHeight := MapDefaultHeightInTiles;
      tiles := t;
      commands := [];
    }

    /** setMapSize: a new default map of the new size, into which the overlapping
        rectangle of the old map is copied. A negative size fails when the new array is
        allocated, before anything changes. */
    method SetMapSize(x: int, y: int) returns (r: Outcome<ModelError>)
      requires Valid()
      modifies this`tiles, this`mapWidth, this`mapHeight
      ensures r.Fail? <==> x < 0 || y < 0
      ensures r.Fail? ==>
        r.error == NegativeArraySize && tiles == old(tiles) &&
        mapWidth == old(mapWidth) && mapHeight == old(mapHeight)
      ensures r.Pass? ==> fresh(tiles) && ResizedFrom(old(Cells(tiles)), old(mapHeight), x, y)
    {
      if x < 0 || y < 0 {
        return Fail(NegativeArraySize);
      }
      ghost var prev := Cells(tiles);
      var oldTiles := tiles;
      var newTiles := CreateInitiatedByDefaultTiles(x, y);
      var w := if x < mapWidth then x else mapWidth;
      var h := if y < mapHeight then y else mapHeight;
      for i := 0 to w
        invariant forall i', j' :: 0 <= i' < x && 0 <= j' < y ==>
          if i' < i && j' < h then newTiles[i', j'] == prev[i'][j']
          else IsDefaultMaterial(newTiles[i', j'])
      {
        for j := 0 to h
          invariant forall i', j' :: 0 <= i' < x && 0 <= j' < y ==>
            if (i' < i && j' < h) || (i' == i && j' < j) then newTiles[i', j'] == prev[i'][j']
            else IsDefaultMaterial(newTiles[i', j'])
        {
          newTiles[i, j] := oldTiles[i, j];
        }
      }
      mapWidth := x;
      mapHeight := y;
      tiles := newTiles;
      return Pass;
    }

    /** increaseTileSizeInPixels: the zoom rule with lower bound 10. */
    method IncreaseTileSizeInPixels(value: int) returns (changed: bool)
      modifies this`tileSizeInPixels
      ensures changed <==> Zoom.ZoomedSize(old(tileSizeInPixels), value, ZoomLowerBound).Some?
      ensures tileSizeInPixels ==
        if changed then old(tileSizeInPixels) - value else old(tileSizeInPixels)
    {
      changed := false;
      if value < 0 {
        if tileSizeInPixels < ZoomUpperBound {
          tileSizeInPixels := tileSizeInPixels - value;
          changed := true;
        }
      } else if tileSizeInPixels > ZoomLowerBound {
        tileSizeInPixels := tileSizeInPixels - value;
        changed := true;
      }
    }

    /** getTileAt: the id of cell (x, y) of the map value. */
    function GetTileAt(x: nat, y: nat): (r: int)
      requires x < tiles.Length0 && y < tiles.Length1
      reads this, tiles
      ensures r == Cells(tiles)[x][y]
    {
      tiles[x, y]
    }

    function GetBasicTileTypes(): seq<TileType>
    {
      BasicTileTypes(tileTypes)
    }

    function GetRelatedTileTypes(tileType: TileType): seq<TileType>
    {
      RelatedTileTypes(tileTypes, tileType)
    }

    function GetTileTypesWithTags(commonTags: seq<string>): seq<TileType>
    {
      TileTypesWithTags(tileTypes, commonTags)
    }

    /** getMapStringRepresentation: "[" then, column by column, "[" + the column's ids
        separated by commas + "]", then "]". */
    method GetMapStringRepresentation() returns (s: string)
      requires Valid()
      ensures s == MapString(Cells(tiles))
    {
      ghost var cols := ColumnStrings(Cells(tiles));
      s := "[";
      for i := 0 to mapWidth
        invariant s == "[" + Concat(cols[..i])
      {
        var column := ColumnRepresentation(i);
        MapPrefixStep(cols, i);
        s := s + column;
      }
      assert cols[..mapWidth] == cols;
      s := s + "]";
    }

    /** One column's part of getMapStringRepresentation: "[" + ids joined by "," + "]". */
    method ColumnRepresentation(i: nat) returns (s: string)
      requires Valid() && i < mapWidth
      ensures s == ColumnString(Cells(tiles)[i])
    {
      ghost var ids := IdStrings(Cells(tiles)[i]);
      s := "[";
      for j := 0 to mapHeight
        invariant s == ColumnPrefix(ids, j, mapHeight)
      {
        assert ids[j] == IntToString(tiles[i, j]);
        ColumnPrefixStep(ids, j, mapHeight);
        s := s + IntToString(tiles[i, j]);
        if j + 1 < mapHeight {
          s := s + ",";
        }
      }
      assert ids[..mapHeight] == ids;
      s := s + "]";
    }

    /** The inner UpdateTileAtCommand's updateTileAtWith: id 0 is never written. */
    method UpdateTileAtWith(x: nat, y: nat, materialID: int)
      requires Valid() && x < mapWidth && y < mapHeight
      modifies tiles
      ensures Cells(tiles) == WriteMaterial(old(Cells(tiles)), x, y, materialID)
    {
      ghost var before := Cells(tiles);
      if materialID != NoMaterial {
        tiles[x, y] := materialID;
      }
      SameCells(Cells(tiles), WriteMaterial(before, x, y, materialID), mapWidth, mapHeight);
    }

    /** UpdateTileAtCommand.perform: records the cell's id, then writes the new one. */
    method PerformTileEdit(e: TileEdit) returns (done: TileEdit)
      requires Valid() && e.x < mapWidth && e.y < mapHeight
      modifies tiles
      ensures (Cells(tiles), done) == PerformEdit(old(Cells(tiles)), e)
    {
      done := e.(oldMaterial := tiles[e.x, e.y]);
      UpdateTileAtWith(e.x, e.y, e.newMaterial);
    }

    /** UpdateTileAtCommand.undo: writes the recorded id back. */
    method UndoTileEdit(e: TileEdit)
      requires Valid() && e.x < mapWidth && e.y < mapHeight
      modifies tiles
      ensures Cells(tiles) == UndoEdit(old(Cells(tiles)), e)
    {
      UpdateTileAtWith(e.x, e.y, e.oldMaterial);
    }

    /** What undoing `c` needs from the current state: the edited cells exist, and a
        recorded array has the size the map will have again. The history kept in
        last-in-first-out order always provides this. */
    predicate CanUndo(c: Command)
      reads this, MacroOf(c)
    {
      match c
      case EditTile(e) => e.x < mapWidth && e.y < mapHeight
      case UpdateMapSize(_, _, ow, oh, t) => t != null && t.Length0 == ow && t.Length1 == oh
      case ClearMap(t) => t != null && t.Length0 == mapWidth && t.Length1 == mapHeight
      case Macro(m) => forall e | e in m.commands :: e.x < mapWidth && e.y < mapHeight
    }

    /** performCommand: performs the command, then pushes it (with what perform
        recorded) on the history. A macro's perform does nothing. A resize to a negative
        size throws inside perform, so nothing changes and nothing is pushed. */
    method PerformCommand(c: Command) returns (r: Outcome<ModelError>)
      requires Valid()
      requires c.EditTile? ==> c.edit.x < mapWidth && c.edit.y < mapHeight
      modifies this`tiles, this`mapWidth, this`mapHeight, this`commands
      modifies if c.EditTile? then {tiles} else {}
      ensures Valid()
      ensures r.Fail? <==> c.UpdateMapSize? && (c.newMapWidth < 0 || c.newMapHeight < 0)
      ensures r.Fail? ==>
        r.error == NegativeArraySize && tiles == old(tiles) &&
        mapWidth == old(mapWidth) && mapHeight == old(mapHeight) && commands == old(commands)
      ensures r.Pass? ==> |commands| == |old(commands)| + 1 && commands[..|old(commands)|] == old(commands)
      ensures c.EditTile? ==>
        var (g, done) := PerformEdit(old(Cells(tiles)), c.edit);
        tiles == old(tiles) && Cells(tiles) == g && commands[|old(commands)|] == EditTile(done) &&
        mapWidth == old(mapWidth) && mapHeight == old(mapHeight)
      ensures c.UpdateMapSize? && r.Pass? ==>
        fresh(tiles) && ResizedFrom(old(Cells(tiles)), old(mapHeight), c.newMapWidth, c.newMapHeight) &&
        commands[|old(commands)|] ==
          UpdateMapSize(c.newMapWidth, c.newMapHeight, old(mapWidth), old(mapHeight), old(tiles))
      ensures c.ClearMap? ==>
        fresh(tiles) && mapWidth == old(mapWidth) && mapHeight == old(mapHeight) &&
        (forall i, j :: 0 <= i < mapWidth && 0 <= j < mapHeight ==> IsDefaultMaterial(tiles[i, j])) &&
        commands[|old(commands)|] == ClearMap(old(tiles))
      ensures c.Macro? ==>
        tiles == old(tiles) && mapWidth == old(mapWidth) && mapHeight == old(mapHeight) &&
        commands[|old(commands)|] == c
    {
      var performed := c;
      r := Pass;
      match c {
      case EditTile(e) =>
        var done := PerformTileEdit(e);
        performed := EditTile(done);
      case UpdateMapSize(w, h, _, _, _) =>
        performed := UpdateMapSize(w, h, mapWidth, mapHeight, tiles);
        r := SetMapSize(w, h);
        if r.Fail? {
          return;
        }
      case ClearMap(_) =>
        performed := ClearMap(tiles);
        tiles := CreateInitiatedByDefaultTiles(mapWidth, mapHeight);
      case Macro(_) =>
      }
      commands := commands + [performed];
    }

    /** undoLastCommand: undoes and pops the newest command; an empty history is left
        as it is. */
    method UndoLastCommand()
      requires Valid()
      requires commands != [] ==> CanUndo(commands[|commands| - 1])
      modifies this`tiles, this`mapWidth, this`mapHeight, this`commands
      modifies if commands != [] && (commands[|commands| - 1].EditTile? || commands[|commands| - 1].Macro?)
               then {tiles} else {}
      modifies if commands != [] then MacroOf(commands[|commands| - 1]) else {}
      ensures Valid()
      ensures old(commands) == [] ==>
        commands == [] && tiles == old(tiles) && mapWidth == old(mapWidth) && mapHeight == old(mapHeight)
      ensures old(commands) != [] ==> commands == old(commands[..|commands| - 1])
      ensures old(commands) != [] && old(commands[|commands| - 1]).EditTile? ==>
        tiles == old(tiles) && mapWidth == old(mapWidth) && mapHeight == old(mapHeight) &&
        Cells(tiles) == UndoEdit(old(Cells(tiles)), old(commands[|commands| - 1]).edit)
      ensures old(commands) != [] && old(commands[|commands| - 1]).UpdateMapSize? ==>
        var top := old(commands[|commands| - 1]);
        tiles == top.oldTiles && mapWidth == top.oldMapWidth && mapHeight == top.oldMapHeight
      ensures old(commands) != [] && old(commands[|commands| - 1]).ClearMap? ==>
        tiles == old(commands[|commands| - 1]).oldTiles &&
        mapWidth == old(mapWidth) && mapHeight == old(mapHeight)
      ensures old(commands) != [] && old(commands[|commands| - 1]).Macro? ==>
        var m := old(commands[|commands| - 1]).macro;
        tiles == old(tiles) && mapWidth == old(mapWidth) && mapHeight == old(mapHeight) &&
        m.commands == [] &&
        Cells(tiles) == UndoEdits(old(Cells(tiles)), mapWidth, mapHeight, old(m.commands))
    {
      if |commands| > 0 {
        var top := commands[|commands| - 1];
        match top {
        case EditTile(e) =>
          UndoTileEdit(e);
        case UpdateMapSize(_, _, ow, oh, t) =>
          var resized := SetMapSize(ow, oh);
          tiles := t;
        case ClearMap(t) =>
          tiles := t;
        case Macro(m) =>
          m.Undo(this);
        }
        commands := commands[..|commands| - 1];
      }
    }

    method SetPrimaryMaterialID(id: int)
      modifies this`primaryMaterialID
      ensures primaryMaterialID == id
    {
      primaryMaterialID := id;
    }

    method SetSecondaryMaterialID(id: int)
      modifies this`secondaryMaterialID
      ensures secondaryMaterialID == id
    {
      secondaryMaterialID := id;
    }

    /** swapMaterials: the two brushes trade ids. */
    method SwapMaterials()
      modifies this`primaryMaterialID, this`secondaryMaterialID
      ensures primaryMaterialID == old(secondaryMaterialID)
      ensures secondaryMaterialID == old(primaryMaterialID)
    {
      var tmp := secondaryMaterialID;
      SetSecondaryMaterialID(primaryMaterialID);
      SetPrimaryMaterialID(tmp);
    }
  }

  /** The private constructor with the catalog loaded first: an empty catalog raises
      the RuntimeException, any other gives the default manager. */
  method NewModelManager(tileTypes: seq<TileType>) returns (r: Result<ModelManager, ModelError>)
    ensures r.Failure? <==> tileTypes == []
    ensures r.Failure? ==> r.error == EmptyCatalog
    ensures r.Success? ==>
      var m := r.value;
      fresh(m) && fresh(m.tiles) && m.Valid() && m.tileTypes == tileTypes && m.commands == [] &&
      m.mapWidth == MapDefaultWidthInTiles && m.mapHeight == MapDefaultHeightInTiles &&
      (forall i, j :: 0 <= i < m.mapWidth && 0 <= j < m.mapHeight ==> IsDefaultMaterial(m.tiles[i, j])) &&
      m.primaryMaterialID == tileTypes[0].id && m.secondaryMaterialID == tileTypes[0].id &&
      m.tileSizeInPixels == DefaultTileSizeInPixels
  {
    if tileTypes == [] {
      return Failure(EmptyCatalog);
    }
    var m := new ModelManager(tileTypes);
    return Success(m);
  }

  /** The composite command: each edit is performed as it is added; undo reverts them
      newest first and forgets them. */
  class MacroCommand {
    var commands: seq<TileEdit>

    constructor ()
      ensures commands == []
    {
      commands := [];
    }

    function IsEmpty(): bool
      reads this
    {
      commands == []
    }

    /** addCommand: the edit goes at the end of the list and is performed at once on
        the manager it belongs to. */
    method AddCommand(m: ModelManager, e: TileEdit)
      requires m.Valid() && e.x < m.mapWidth && e.y < m.mapHeight
      modifies this, m.tiles
      ensures var (g, done) := PerformEdit(old(Cells(m.tiles)), e);
              Cells(m.tiles) == g && commands == old(commands) + [done]
    {
      var done := m.PerformTileEdit(e);
      commands := commands + [done];
    }

    /** undo: from the last edit back to the first, undo it and remove it. */
    method Undo(m: ModelManager)
      requires m.Valid()
      requires forall e | e in commands :: e.x < m.mapWidth && e.y < m.mapHeight
      modifies this, m.tiles
      ensures commands == []
      ensures Cells(m.tiles) == UndoEdits(old(Cells(m.tiles)), m.mapWidth, m.mapHeight, old(commands))
    {
      var i := |commands| - 1;
      while i > -1
        invariant -1 <= i < |commands| && |commands| == i + 1
        invariant commands == old(commands)[..i + 1]
        invariant UndoEdits(Cells(m.tiles), m.mapWidth, m.mapHeight, commands) ==
                  UndoEdits(old(Cells(m.tiles)), m.mapWidth, m.mapHeight, old(commands))
      {
        m.UndoTileEdit(commands[i]);
        commands := commands[..i];
        i := i - 1;
      }
    }
  }

  /** A stroke as the editor's working area records it: an empty macro is pushed, the
      edits are added to it (each performed at once), and undoing the last command
      reverts the whole stroke. The map and the history come back exactly, provided no
      cell held the reserved id 0. */
  method StrokeThenUndo(m: ModelManager, edits: seq<TileEdit>)
    requires m.Valid() && NoSentinel(Cells(m.tiles))
    requires forall e | e in edits :: e.x < m.mapWidth && e.y < m.mapHeight
    modifies m, m.tiles
    ensures m.Valid() && m.tiles == old(m.tiles)
    ensures m.mapWidth == old(m.mapWidth) && m.mapHeight == old(m.mapHeight)
    ensures Cells(m.tiles) == old(Cells(m.tiles))
    ensures m.commands == old(m.commands)
  {
    ghost var g0 := Cells(m.tiles);
    var stroke := new MacroCommand();
    var pushed := m.PerformCommand(Macro(stroke));
    for k := 0 to |edits|
      invariant m.Valid() && m.tiles == old(m.tiles)
      invariant m.mapWidth == old(m.mapWidth) && m.mapHeight == old(m.mapHeight)
      invariant m.commands == old(m.commands) + [Macro(stroke)]
      invariant (Cells(m.tiles), stroke.commands) == PerformEdits(g0, m.mapWidth, m.mapHeight, edits[..k])
    {
      assert edits[..k + 1][..k] == edits[..k];
      stroke.AddCommand(m, edits[k]);
    }
    assert edits[..|edits|] == edits;
    m.UndoLastCommand();
    TransactionRoundTrip(g0, m.mapWidth, m.mapHeight, edits);
  }

  /** A single edit performed through the history and undone restores the map and the
      history when the cell did not hold the reserved id 0. */
  method EditThenUndo(m: ModelManager, x: nat, y: nat, material: int)
    requires m.Valid() && x < m.mapWidth && y < m.mapHeight && m.tiles[x, y] != NoMaterial
    modifies m, m.tiles
    ensures m.Valid() && m.tiles == old(m.tiles)
    ensures Cells(m.tiles) == old(Cells(m.tiles))
    ensures m.commands == old(m.commands)
  {
    ghost var g0 := Cells(m.tiles);
    var c := NewUpdateTileAtCommand(x, y, material);
    var performed := m.PerformCommand(c);
    m.UndoLastCommand();
    EditRoundTrip(g0, c.edit);
  }

  /** Resizing through the history and undoing brings back the old size and the very
      array the map had, with its contents untouched. A refused (negative) resize pushes
      nothing, so there is nothing to undo. */
  method ResizeThenUndo(m: ModelManager, width: int, height: int)
    requires m.Valid()
    modifies m
    ensures m.Valid() && m.tiles == old(m.tiles)
    ensures m.mapWidth == old(m.mapWidth) && m.mapHeight == old(m.mapHeight)
    ensures Cells(m.tiles) == old(Cells(m.tiles))
    ensures m.commands == old(m.commands)
  {
    var r := m.PerformCommand(NewUpdateMapSizeCommand(width, height));
    if r.Pass? {
      m.UndoLastCommand();
    }
  }

  /** Clearing through the history keeps the size, and undoing brings back the old map. */
  method ClearThenUndo(m: ModelManager)
    requires m.Valid()
    modifies m
    ensures m.Valid() && m.tiles == old(m.tiles)
    ensures m.mapWidth == old(m.mapWidth) && m.mapHeight == old(m.mapHeight)
    ensures Cells(m.tiles) == old(Cells(m.tiles))
    ensures m.commands == old(m.commands)
  {
    var r := m.PerformCommand(NewClearMapCommand());
    m.UndoLastCommand();
  }
}
