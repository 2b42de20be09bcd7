/** The configuration manager's model manager (src/config_manager/model/ModelManager.java):
    the catalog loaded into a list and an id-to-type map, a default map filled from the
    first two catalog entries, the zoom level with its own lower bound, loading a map
    with validation of every tile id, and an undo history of commands it knows only
    through their perform and undo. */
module ConfigManager {
  import opened Wrappers
  import opened Text
  import opened Grids
  import opened TileTypes
  import opened History
  import Zoom

  const DefaultTileSizeInPixels := 32
  const MapDefaultWidthInTiles := 30
  const MapDefaultHeightInTiles := 20
  const ZoomLowerBound := 3
  const NoTileTypesLoaded := "no tile types loaded :("
  /** The message of the list access that fails when the fill asks for a second entry
      of a one-entry catalog. */
  const SecondEntryMissing := "Index: 1, Size: 1"

  /** The id-to-type map the loading loop builds: a later entry with the same id
      replaces an earlier one. */
  function IdMap(loaded: seq<TileType>): map<int, TileType>
  {
    if loaded == [] then map[]
    else IdMap(loaded[..|loaded| - 1])[loaded[|loaded| - 1].id := loaded[|loaded| - 1]]
  }

  /** The map has a key for exactly the loaded ids. */
  lemma {:induction false} IdMapKeys(loaded: seq<TileType>, id: int)
    ensures id in IdMap(loaded) <==> exists k :: 0 <= k < |loaded| && loaded[k].id == id
  {
    if loaded != [] {
      var n := |loaded| - 1;
      IdMapKeys(loaded[..n], id);
      if exists k :: 0 <= k < |loaded| && loaded[k].id == id {
        var k :| 0 <= k < |loaded| && loaded[k].id == id;
        if k < n {
          assert loaded[..n][k].id == id;
        }
      }
    }
  }

  /** A key leads to the last loaded entry with that id. */
  lemma {:induction false} IdMapLast(loaded: seq<TileType>, id: int, k: nat)
    requires k < |loaded| && loaded[k].id == id
    requires forall k' :: k < k' < |loaded| ==> loaded[k'].id != id
    ensures id in IdMap(loaded) && IdMap(loaded)[id] == loaded[k]
  {
    var n := |loaded| - 1;
    if k < n {
      IdMapLast(loaded[..n], id, k);
    }
  }

  /** getLoadedTileTypesFromJson after parsing: every parsed entry goes into the list and
      the id map; an empty catalog is an error. */
  method LoadTileTypes(parsed: seq<TileType>) returns (r: Result<(seq<TileType>, map<int, TileType>), string>)
    ensures r.Failure? <==> parsed == []
    ensures r.Failure? ==> r.error == NoTileTypesLoaded
    ensures r.Success? ==> r.value.0 == parsed && r.value.1 == IdMap(parsed)
  {
    var loadedTileTypes: seq<TileType> := [];
    var tileIdToTileTypeMap: map<int, TileType> := map[];
    for k := 0 to |parsed|
      invariant loadedTileTypes == parsed[..k]
      invariant tileIdToTileTypeMap == IdMap(parsed[..k])
    {
      var t := parsed[k];
      loadedTileTypes := loadedTileTypes + [t];
      tileIdToTileTypeMap := tileIdToTileTypeMap[t.id := t];
      assert parsed[..k + 1][..k] == parsed[..k];
    }
    assert parsed[..|parsed|] == parsed;
    if loadedTileTypes == [] {
      return Failure(NoTileTypesLoaded);
    }
    return Success((loadedTileTypes, tileIdToTileTypeMap));
  }

  /** An id the default fill may write: the first catalog entry's, or the second's. */
  predicate IsDefaultId(tileTypes: seq<TileType>, v: int)
  {
    (|tileTypes| >= 1 && v == tileTypes[0].id) || (|tileTypes| >= 2 && v == tileTypes[1].id)
  }

  /** createInitiatedByDefaultTiles: each cell gets the first or the second catalog
      entry's id by a coin flip. With a single entry, the first flip that asks for the
      second entry fails. */
  method CreateInitiatedByDefaultTiles(tileTypes: seq<TileType>, x: nat, y: nat) returns (r: Option<array2<int>>)
    requires tileTypes != []
    ensures r.None? ==> |tileTypes| == 1 && x > 0 && y > 0
    ensures r.Some? ==> fresh(r.value) && r.value.Length0 == x && r.value.Length1 == y
    ensures r.Some? ==> forall i, j :: 0 <= i < x && 0 <= j < y ==> IsDefaultId(tileTypes, r.value[i, j])
  {
    var newTiles := new int[x, y];
    for i := 0 to x
      invariant forall i', j' :: 0 <= i' < i && 0 <= j' < y ==> IsDefaultId(tileTypes, newTiles[i', j'])
    {
      for j := 0 to y
        invariant forall i', j' :: 0 <= i' < i && 0 <= j' < y ==> IsDefaultId(tileTypes, newTiles[i', j'])
        invariant forall j' :: 0 <= j' < j ==> IsDefaultId(tileTypes, newTiles[i, j'])
      {
        var heads: bool :| true;
        if heads {
          newTiles[i, j] := tileTypes[0].id;
        } else if |tileTypes| < 2 {
          return None;
        } else {
          newTiles[i, j] := tileTypes[1].id;
        }
      }
    }
    return Some(newTiles);
  }

  /** The text of a Java string that may be null. */
  function ShowConfig(name: Option<string>): string
  {
    if name.None? then "null" else name.value
  }

  /** Why openMapFromJson gives up: a negative size for the new array, a cell missing
      from the parsed rows, or an id the catalog does not know. */
  datatype OpenMapError =
    | NegativeArraySize
    | IndexOutOfBounds(i: nat, j: nat)
    | NoSuchTileType(message: string)

  function NoSuchTileTypeMessage(id: int, currentConfig: Option<string>): string
  {
    "No such tile type with ID=" + IntToString(id) + " exists in currentConfig \"" +
    ShowConfig(currentConfig) + "\"!"
  }

  /** What is wrong with cell (i, j) of the parsed rows, if anything. */
  function CellProblem(s: seq<seq<int>>, known: set<int>, currentConfig: Option<string>, i: nat, j: nat): Option<OpenMapError>
  {
    if i >= |s| || j >= |s[i]| then Some(IndexOutOfBounds(i, j))
    else if s[i][j] !in known then Some(NoSuchTileType(NoSuchTileTypeMessage(s[i][j], currentConfig)))
    else None
  }

  /** (i, j) is the first problem cell of the w-by-h map in the loop's order, column by
      column. */
  predicate FirstProblemAt(s: seq<seq<int>>, known: set<int>, currentConfig: Option<string>, w: nat, h: nat, i: nat, j: nat)
  {
    i < w && j < h && CellProblem(s, known, currentConfig, i, j).Some? &&
    (forall i', j' :: 0 <= i' < i && 0 <= j' < h ==> CellProblem(s, known, currentConfig, i', j').None?) &&
    (forall j' :: 0 <= j' < j ==> CellProblem(s, known, currentConfig, i, j').None?)
  }

  /** The parsed rows have every cell of a w-by-h map. */
  predicate Covers(s: seq<seq<int>>, w: nat, h: nat)
  {
    0 < h ==> w <= |s| && forall i :: 0 <= i < w ==> h <= |s[i]|
  }

  /** A call the history made on a command. */
  datatype Call<C> = Performed(command: C) | Undone(command: C)

  function PerformedAll<C>(cs: seq<C>): (r: seq<Call<C>>)
    ensures |r| == |cs| && forall k :: 0 <= k < |cs| ==> r[k] == Performed(cs[k])
  {
    seq(|cs|, k requires 0 <= k < |cs| => Performed(cs[k]))
  }

  /** The undo calls made by m undos of history h: the newest command first. */
  function UndoneLast<C>(h: seq<C>, m: nat): (r: seq<Call<C>>)
    requires m <= |h|
    ensures |r| == m && forall k :: 0 <= k < m ==> r[k] == Undone(h[|h| - 1 - k])
  {
    seq(m, k requires 0 <= k < m => Undone(h[|h| - 1 - k]))
  }

  class ModelManager<C> {
    var tileSizeInPixels: int
    var tiles: array2<int>
    var mapWidth: nat
    var mapHeight: nat
    var mapAbsolutePath: string
    const currentConfig: Option<string>
    const tileIdToTileTypeMap: map<int, TileType>
    const tileTypes: seq<TileType>
    var commandHistory: seq<C>
    /** The perform and undo calls made on commands, oldest first. */
    var calls: seq<Call<C>>

    predicate Valid()
      reads this
    {
      tiles.Length0 == mapWidth && tiles.Length1 == mapHeight
    }

    constructor (tileTypes: seq<TileType>, tileIdToTileTypeMap: map<int, TileType>, tiles: array2<int>)
      requires tiles.Length0 == MapDefaultWidthInTiles && tiles.Length1 == MapDefaultHeightInTiles
      ensures Valid() && this.tiles == tiles
      ensures this.tileTypes == tileTypes && this.tileIdToTileTypeMap == tileIdToTileTypeMap
      ensures mapWidth == MapDefaultWidthInTiles && mapHeight == MapDefaultHeightInTiles
      ensures tileSizeInPixels == DefaultTileSizeInPixels && mapAbsolutePath == ""
      ensures currentConfig == None && commandHistory == [] && calls == []
    {
      tileSizeInPixels := DefaultTileSizeInPixels;
      mapAbsolutePath := "";
      currentConfig := None;
      mapWidth := MapDefaultWidthInTiles;
      mapHeight := MapDefaultHeightInTiles;
      this.tileIdToTileTypeMap := tileIdToTileTypeMap;
      this.tileTypes := tileTypes;
      this.tiles := tiles;
      commandHistory := [];
      calls := [];
    }

    /** increaseTileSizeInPixels: the zoom rule with lower bound 3. */
    method IncreaseTileSizeInPixels(value: int) returns (changed: bool)
      modifies this`tileSizeInPixels
      ensures changed <==> Zoom.ZoomedSize(old(tileSizeInPixels), value, ZoomLowerBound).Some?
      ensures tileSizeInPixels ==
        if changed then old(tileSizeInPixels) - value else old(tileSizeInPixels)
    {
      changed := false;
      if value < 0 {
        if tileSizeInPixels < 100 {
          tileSizeInPixels := tileSizeInPixels - value;
          changed := true;
        }
      } else if tileSizeInPixels > ZoomLowerBound {
        tileSizeInPixels := tileSizeInPixels - value;
        changed := true;
      }
    }

    /** getTileAt: the id of cell (x, y) of the map value. */
    function GetTileAt(x: nat, y: nat): (r: int)
      requires x < tiles.Length0 && y < tiles.Length1
      reads this, tiles
      ensures r == Cells(tiles)[x][y]
    {
      tiles[x, y]
    }

    /** openMapFromJson after parsing: the new map is built cell by cell, checking each
        id against the catalog; the manager's map, size and path change only when
        every cell passed. */
    method OpenMapFromJson(fileName: string, newMapWidth: int, newMapHeight: int, s: seq<seq<int>>)
      returns (r: Outcome<OpenMapError>)
      requires Valid()
      modifies this`tiles, this`mapWidth, this`mapHeight, this`mapAbsolutePath
      ensures Valid()
      ensures r.Pass? <==>
        newMapWidth >= 0 && newMapHeight >= 0 &&
        forall i, j :: 0 <= i < newMapWidth && 0 <= j < newMapHeight ==>
          CellProblem(s, tileIdToTileTypeMap.Keys, currentConfig, i, j).None?
      ensures r.Fail? && r.error.NegativeArraySize? <==> newMapWidth < 0 || newMapHeight < 0
      ensures r.Fail? && !r.error.NegativeArraySize? ==>
        exists i: nat, j: nat :: FirstProblemAt(s, tileIdToTileTypeMap.Keys, currentConfig, newMapWidth, newMapHeight, i, j) &&
          CellProblem(s, tileIdToTileTypeMap.Keys, currentConfig, i, j) == Some(r.error)
      ensures r.Fail? ==>
        tiles == old(tiles) && mapWidth == old(mapWidth) && mapHeight == old(mapHeight) &&
        mapAbsolutePath == old(mapAbsolutePath)
      ensures r.Pass? ==>
        fresh(tiles) && mapWidth == newMapWidth && mapHeight == newMapHeight && mapAbsolutePath == fileName &&
        Covers(s, mapWidth, mapHeight) &&
        forall i, j :: 0 <= i < mapWidth && 0 <= j < mapHeight ==> tiles[i, j] == s[i][j]
    {
      if newMapWidth < 0 || newMapHeight < 0 {
        return Fail(NegativeArraySize);
      }
      ghost var known := tileIdToTileTypeMap.Keys;
      var newTiles := new int[newMapWidth, newMapHeight];
      for i := 0 to newMapWidth
        invariant tiles == old(tiles) && mapWidth == old(mapWidth) && mapHeight == old(mapHeight)
        invariant mapAbsolutePath == old(mapAbsolutePath)
        invariant forall i', j' :: 0 <= i' < i && 0 <= j' < newMapHeight ==>
          CellProblem(s, known, currentConfig, i', j').None? && newTiles[i', j'] == s[i'][j']
      {
        for j := 0 to newMapHeight
          invariant tiles == old(tiles) && mapWidth == old(mapWidth) && mapHeight == old(mapHeight)
          invariant mapAbsolutePath == old(mapAbsolutePath)
          invariant forall i', j' :: 0 <= i' < i && 0 <= j' < newMapHeight ==>
            CellProblem(s, known, currentConfig, i', j').None? && newTiles[i', j'] == s[i'][j']
          invariant forall j' :: 0 <= j' < j ==>
            CellProblem(s, known, currentConfig, i, j').None? && newTiles[i, j'] == s[i][j']
        {
          if i >= |s| || j >= |s[i]| {
            assert FirstProblemAt(s, known, currentConfig, newMapWidth, newMapHeight, i, j);
            return Fail(IndexOutOfBounds(i, j));
          }
          var tileTypeID := s[i][j];
          if tileTypeID !in tileIdToTileTypeMap {
            assert FirstProblemAt(s, known, currentConfig, newMapWidth, newMapHeight, i, j);
            return Fail(NoSuchTileType(NoSuchTileTypeMessage(tileTypeID, currentConfig)));
          }
          assert CellProblem(s, known, currentConfig, i, j).None?;
          newTiles[i, j] := tileTypeID;
        }
      }
      mapAbsolutePath := fileName;
      mapWidth := newMapWidth;
      mapHeight := newMapHeight;
      tiles := newTiles;
      if 0 < mapWidth && 0 < mapHeight {
        assert CellProblem(s, known, currentConfig, mapWidth - 1, 0).None?;
      }
      forall i | 0 <= i < mapWidth && 0 < mapHeight
        ensures i < |s| && mapHeight <= |s[i]|
      {
        assert CellProblem(s, known, currentConfig, i, mapHeight - 1).None?;
      }
      return Pass;
    }

    /** performCommand: the command is performed, then appended to the history. */
    method PerformCommand(command: C)
      modifies this`commandHistory, this`calls
      ensures commandHistory == Push(old(commandHistory), command)
      ensures calls == old(calls) + [Performed(command)]
    {
      calls := calls + [Performed(command)];
      commandHistory := commandHistory + [command];
    }

    /** undoLastCommand: the newest command is undone and removed; with an empty
        history nothing happens. */
    method UndoLastCommand()
      modifies this`commandHistory, this`calls
      ensures commandHistory == Pop(old(commandHistory))
      ensures calls == old(calls) +
        (if old(commandHistory) == [] then [] else [Undone(old(commandHistory)[|old(commandHistory)| - 1])])
    {
      if |commandHistory| > 0 {
        calls := calls + [Undone(commandHistory[|commandHistory| - 1])];
        commandHistory := commandHistory[..|commandHistory| - 1];
      }
    }

    /** clearCommandHistory: the history is forgotten; no command is undone. */
    method ClearCommandHistory()
      modifies this`commandHistory
      ensures commandHistory == []
    {
      commandHistory := [];
    }

    function GetCommandHistorySize(): nat
      reads this
    {
      |commandHistory|
    }
  }

  /** The manager as its constructor builds it: the catalog is loaded, then a default
      30-by-20 map is filled from it. */
  method NewModelManager<C>(parsed: seq<TileType>) returns (r: Result<ModelManager<C>, string>)
    ensures parsed == [] ==> r == Failure(NoTileTypesLoaded)
    ensures r.Failure? && parsed != [] ==> |parsed| == 1 && r.error == SecondEntryMissing
    ensures r.Success? ==>
      var m := r.value;
      fresh(m) && fresh(m.tiles) && m.Valid() && m.tileTypes == parsed &&
      m.tileIdToTileTypeMap == IdMap(parsed) && m.commandHistory == [] && m.calls == [] &&
      m.tileSizeInPixels == DefaultTileSizeInPixels && m.mapAbsolutePath == "" && m.currentConfig == None &&
      m.mapWidth == MapDefaultWidthInTiles && m.mapHeight == MapDefaultHeightInTiles &&
      forall i, j :: 0 <= i < m.mapWidth && 0 <= j < m.mapHeight ==> IsDefaultId(parsed, m.tiles[i, j])
  {
    var loaded := LoadTileTypes(parsed);
    if loaded.Failure? {
      return Failure(loaded.error);
    }
    var (tileTypes, idMap) := loaded.value;
    var filled := CreateInitiatedByDefaultTiles(tileTypes, MapDefaultWidthInTiles, MapDefaultHeightInTiles);
    if filled.None? {
      return Failure(SecondEntryMissing);
    }
    var m := new ModelManager(tileTypes, idMap, filled.value);
    return Success(m);
  }

  /** N commands performed and then M <= N undone: the history holds its old entries and
      the first N - M new ones, and the undo calls went to the newest commands first. */
  method PerformThenUndo<C>(mgr: ModelManager<C>, cs: seq<C>, undos: nat)
    requires undos <= |cs|
    modifies mgr
    ensures mgr.GetCommandHistorySize() == old(mgr.GetCommandHistorySize()) + |cs| - undos
    ensures mgr.commandHistory == old(mgr.commandHistory) + cs[..|cs| - undos]
    ensures mgr.calls == old(mgr.calls) + PerformedAll(cs) + UndoneLast(cs, undos)
  {
    ghost var h0 := mgr.commandHistory;
    ghost var c0 := mgr.calls;
    for k := 0 to |cs|
      invariant mgr.commandHistory == h0 + cs[..k]
      invariant mgr.calls == c0 + PerformedAll(cs[..k])
    {
      mgr.PerformCommand(cs[k]);
      assert cs[..k + 1] == cs[..k] + [cs[k]];
      assert PerformedAll(cs[..k + 1]) == PerformedAll(cs[..k]) + [Performed(cs[k])];
    }
    assert cs[..|cs|] == cs;
    ghost var c1 := mgr.calls;
    for k := 0 to undos
      invariant mgr.commandHistory == h0 + cs[..|cs| - k]
      invariant mgr.calls == c1 + UndoneLast(cs, k)
    {
      assert mgr.commandHistory[|mgr.commandHistory| - 1] == cs[|cs| - 1 - k];
      mgr.UndoLastCommand();
      assert (h0 + cs[..|cs| - k])[..|h0| + |cs| - k - 1] == h0 + cs[..|cs| - (k + 1)];
      assert UndoneLast(cs, k + 1) == UndoneLast(cs, k) + [Undone(cs[|cs| - 1 - k])];
    }
    HistoryAccounting(h0, cs, undos);
  }
}
