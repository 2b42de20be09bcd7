# Tile-map editor model layer, in Dafny

This project models the model layer of a Swing tile-map editor and of its companion
configuration manager, and proves properties of it. The editor edits a rectangular map of
tile ids. The map is drawn from a catalog of tile types; each type carries tags and eight
"neighbour material" slots.

The model covers:

- **Tile types** (`tile_type.dfy`): the eight sub-edge slots and their mirror pairing, the
  per-slot neighbour materials, the side-by-side compatibility test, and the filter that
  keeps the candidates compatible with a tile type.
- **The editor's model manager** (`editor_model.dfy`, `grids.dfy`, `catalog.dfy`,
  `zoom.dfy`):
  - the map lives in a 2-D array; resizing keeps the overlapping rectangle and fills the
    rest with grass (ids 1 and 2);
  - the zoom rule, the three tag queries over the catalog, and the map's text rendering;
  - the undo history of commands: single-cell edits, resizes, clears and macro strokes.
  - A single-cell edit never writes the reserved id 0. Its undo therefore restores the
    cell exactly when the cell did not hold 0 or the edit itself wrote 0
    (`Grids.EditRoundTrip`).
- **The macro command** (`editor_model.dfy`): children are performed as they are added;
  undo reverses them newest first and empties the list.
- **The configuration manager's model manager** (`config_manager.dfy`, `history.dfy`):
  - loading the catalog, which fails on an empty catalog;
  - the default fill from the first two catalog entries;
  - opening a parsed map, which validates every id before anything is changed;
  - the command history with its size accounting.
- **The catalog serialiser** (`json_configuration_builder.dfy`, `text.dfy`): the
  fixed-column JSON text of a tile-type list, and the refusal of a repeated id.
- **The intersection helper** (`utils.dfy`): an order-preserving list intersection.
- **The first version of the editor's model** (`early_editor.dfy`): a fixed 30-by-20
  map, a selected material, and the edit command whose undo borrows that selection.

How the model represents things:

- Objects whose fields the source updates in place are classes: the managers, the macro
  command, tile types and the early edit command. Their maps are `array2<int>` fields.
- Each method states its new state through `Grids.Cells`, which reads the array as a
  `seq<seq<int>>` indexed column first, like the source's `int[x][y]`. It relates that
  sequence to pure functions (`WriteMaterial`, `PerformEdits`, `MapString`, …), and the
  lemmas are proved about those functions.
- The default fills toss a coin. The coin is an arbitrary boolean chosen with `:|`, and
  the contracts state only that every cell holds one of the two allowed ids.
- Exceptions of the source are error values:
  - `Result` for a failed catalog load or serialisation;
  - `Outcome` for a map that fails to open. The error variants mirror what the JVM
    throws: a negative array size, an index out of bounds, or an unknown tile id.
- Calls into commands whose classes are not shown are an explicit trace of perform and
  undo calls (`ConfigManager.Call`).

## Model

| member | source | states |
|---|---|---|
| TileTypes.OppositeSide | src/editor/model/TileType.java:89-109 | the mirror slot lies on the facing side, covers the same half of the edge, and is never the slot itself |
| TileTypes.OppositeSideIsInvolution | src/editor/model/TileType.java:89-109 | taking the mirror slot twice gives the slot back (pairs WSW/ESE, WNW/ENE, NNW/SSW, NNE/SSE) |
| TileTypes.OppositeSideIsUnique | src/editor/model/TileType.java:86-109 | the mirror slot is the only slot on the facing side that covers the same half |
| TileTypes.AllSidesMatch | src/editor/model/TileType.java:79-83 | the loop holds exactly when every listed slot has a material equal to the one on the other type's mirror slot |
| TileTypes.IsNeighbour | src/editor/model/TileType.java:76-84 | compatible iff the slot list is non-empty and every listed slot and its mirror slot carry equal, present materials |
| TileTypes.NeighbourSymmetry | src/editor/model/TileType.java:76-109 | a is compatible with b across some slots exactly when b is compatible with a across the mirrored slots |
| TileTypes.TileType.constructor | src/editor/model/TileType.java:14-21 | a new tile type keeps its id, name, texture and tags, and has no material on any of its eight slots |
| TileTypes.TileType.SetNeighbourMaterial | src/editor/model/TileType.java:48-61 | a given slot gets the new material and the other slots keep theirs; with no slot (null), all eight slots get it |
| TileTypes.TileType.GetApplicableTileTypes | src/editor/model/TileType.java:67-74 | the result holds exactly the candidates compatible with this type, in candidate order (a subsequence of the candidates), each as often as it occurs among the candidates |
| TileTypes.ScenarioMaterials | src/editor/test/TileTypeTests.java:67-78 | with the materials the tests set, type 1 fits type 2 across its west slots but not type 3, and type 2 fits type 1 across its east slots while type 3 does not |
| Utils.GetIntersection | src/editor/service/Utils.java:37-44 | the result is the elements of the first list that the second contains, in the first list's order, each kept as often as it occurs |
| Utils.IntersectionWithEmpty | src/editor/service/Utils.java:37-44 | intersecting with an empty list gives an empty list |
| Utils.IntersectionWithItself | src/editor/service/Utils.java:37-44 | intersecting a list with itself gives the list back |
| Zoom.ZoomedSize | src/editor/model/ModelManager.java:127-138 | a change is accepted iff zooming in below 100 or zooming out above the lower bound; an accepted size is size - value, larger when zooming in and smaller when zooming out |
| Zoom.ZoomInThenOut | src/editor/model/ModelManager.java:127-138 | from a size above the lower bound, an accepted zoom-in is always reversible: the zoom-out by the same step is accepted and gives the size back |
| Zoom.ZoomOutThenIn | src/editor/model/ModelManager.java:127-138 | an accepted zoom-out to a size below 100 is reversible: the zoom-in by the same step is accepted and gives the size back |
| Catalog.BasicTileTypesSpec | src/editor/model/ModelManager.java:166-173 | a type is basic iff it is in the catalog and tagged COMMON; it appears as often as in the catalog, and in catalog order |
| Catalog.RelatedTileTypesSpec | src/editor/model/ModelManager.java:175-186 | a catalog entry is related iff it shares a tag other than COMMON; each appears as often as in the catalog (once per entry), in catalog order |
| Catalog.RelatedIncludesItself | src/editor/model/ModelManager.java:175-186 | a catalog type with a tag other than COMMON is among its own related types |
| Catalog.OnlyCommonHasNoRelated | src/editor/model/ModelManager.java:175-186 | a type tagged only COMMON has no related types |
| Catalog.TileTypesWithTagsSpec | src/editor/model/ModelManager.java:188-196 | an empty tag list selects nothing; otherwise a type is selected iff it is in the catalog and has every tag; catalog order is kept |
| Catalog.TileTypesWithMoreTags | src/editor/model/ModelManager.java:188-196 | asking for more tags can only narrow the selection |
| Grids.WriteMaterial | src/editor/model/ModelManager.java:314-319 | only cell (x, y) can change, and it takes the new id unless that id is 0 |
| Grids.EditRoundTrip | src/editor/model/ModelManager.java:303-319 | undo after perform restores the map iff the cell did not hold 0 or the edit wrote 0 |
| Grids.PerformEdits | src/editor/model/command/MacroCommand.java:13-16 | performing a stroke keeps the map's shape and the absence of 0, and each recorded edit keeps its cell and its new id |
| Grids.PerformEditsCells | src/editor/model/command/MacroCommand.java:13-16 | after a stroke every cell holds the id of the last edit that wrote to it (an edit of 0 writes nothing), or its old id if none did |
| Grids.PerformEditsRecords | src/editor/model/command/MacroCommand.java:13-16 | each recorded edit remembers the id its cell held just before it: the cell's old id or the id of the latest earlier edit that wrote to it |
| Grids.UndoEdits | src/editor/model/command/MacroCommand.java:28-33 | undoing recorded edits newest first keeps the map's shape |
| Grids.TransactionRoundTrip | src/editor/model/command/MacroCommand.java:13-33 | on a map without 0, performing a stroke and undoing it newest first restores the map exactly |
| Grids.ColumnBrackets | src/editor/model/ModelManager.java:222-230 | a rendered column contains exactly one "[" |
| Grids.MapStringBrackets | src/editor/model/ModelManager.java:219-233 | the rendering of a w-column map contains exactly w + 1 "[" characters: the map's own and one per column, so columns are neither merged nor split |
| Grids.MapStringExample | src/editor/test/ModelManagerTests.java:28-34 | the 3-by-2 map of the loading test is rendered as [[1,2][8,10][9,3]] |
| EditorModel.CreateInitiatedByDefaultTiles | src/editor/model/ModelManager.java:93-102 | a fresh x-by-y array whose every cell holds grass 1 or 2 |
| EditorModel.ModelManager.constructor | src/editor/model/ModelManager.java:30-36 | on a non-empty catalog: a 30-by-20 grass map, an empty history, tiles of 32 pixels, and both materials set to the first catalog entry's id |
| EditorModel.NewModelManager | src/editor/model/ModelManager.java:77-91 | construction fails iff the catalog is empty (the RuntimeException of loadTileTypes); otherwise it gives the default manager: 30-by-20 grass map, tiles of 32 pixels, no history, both materials on the first entry's id |
| EditorModel.ModelManager.SetMapSize | src/editor/model/ModelManager.java:38-47 | a negative size fails (NegativeArraySizeException) with nothing changed; otherwise the map becomes x by y, cells inside both the old and the new rectangle keep their ids, and every other cell holds grass |
| EditorModel.ModelManager.IncreaseTileSizeInPixels | src/editor/model/ModelManager.java:127-138 | returns whether the zoom rule (lower bound 10) accepts the change; the size changes by -value exactly then and is unchanged otherwise |
| EditorModel.ModelManager.GetTileAt | src/editor/model/ModelManager.java:140-142 | the id of cell (x, y) of the map value `Cells(tiles)` |
| EditorModel.ModelManager.GetMapStringRepresentation | src/editor/model/ModelManager.java:219-233 | the text built by the loops is MapString of the map, which the Grids lemmas characterise |
| EditorModel.ModelManager.ColumnRepresentation | src/editor/model/ModelManager.java:223-229 | the inner loop builds the rendering of column i |
| EditorModel.ModelManager.UpdateTileAtWith | src/editor/model/ModelManager.java:314-319 | the array afterwards is WriteMaterial of the array before: only (x, y), and only for a non-zero id |
| EditorModel.ModelManager.PerformTileEdit | src/editor/model/ModelManager.java:303-307 | records the cell's id in the edit, then writes the new id |
| EditorModel.ModelManager.UndoTileEdit | src/editor/model/ModelManager.java:309-312 | writes the recorded id back, under the same no-zero rule |
| EditorModel.ModelManager.PerformCommand | src/editor/model/ModelManager.java:235-239 | the command is performed and pushed with what it recorded. An edit writes one cell; a resize swaps in a fresh map and records the old array and size; a clear swaps in a fresh map and records the old array; a macro changes nothing. A resize to a negative size fails with nothing changed and nothing pushed |
| EditorModel.ModelManager.UndoLastCommand | src/editor/model/ModelManager.java:241-247 | an empty history changes nothing. Otherwise the newest command is popped and undone: an edit writes its old id back, a resize or a clear reinstates the recorded array and size, and a macro undoes its strokes newest first |
| EditorModel.ModelManager.SetPrimaryMaterialID | src/editor/model/ModelManager.java:249-252 | only the primary material changes |
| EditorModel.ModelManager.SetSecondaryMaterialID | src/editor/model/ModelManager.java:254-257 | only the secondary material changes |
| EditorModel.ModelManager.SwapMaterials | src/editor/model/ModelManager.java:267-271 | the primary and secondary materials are exchanged |
| EditorModel.MacroCommand.constructor | src/editor/model/command/MacroCommand.java:9-11 | a new macro has no children |
| EditorModel.MacroCommand.AddCommand | src/editor/model/command/MacroCommand.java:13-16 | the edit is performed on the map at once and appended, with what it recorded, as the last child |
| EditorModel.MacroCommand.Undo | src/editor/model/command/MacroCommand.java:28-33 | the children are undone newest first (the map becomes UndoEdits of the children) and the list ends empty |
| EditorModel.StrokeThenUndo | src/editor/model/command/MacroCommand.java:13-33 | a stroke pushed as a macro and then undone leaves the map, its size and the history as they were, on a map without 0 |
| EditorModel.EditThenUndo | src/editor/model/ModelManager.java:303-319 | a single-cell edit performed and undone through the history restores the map and the history, if the cell did not hold 0 |
| EditorModel.ResizeThenUndo | src/editor/model/ModelManager.java:322-346 | a resize performed and undone restores the very same array, the size and the history; a refused negative resize leaves all three as they were |
| EditorModel.ClearThenUndo | src/editor/model/ModelManager.java:349-366 | a clear performed and undone restores the very same array, the size and the history |
| History.PopUndoesPush | src/config_manager/model/ModelManager.java:276-290 | popping after a push gives the history back |
| History.PushAllAppends | src/config_manager/model/ModelManager.java:276-281 | performing several commands appends them in order |
| History.PopNDrops | src/config_manager/model/ModelManager.java:283-290 | m undos remove the m newest commands |
| History.HistoryAccounting | src/config_manager/model/ModelManager.java:276-301 | after N performs and M <= N undos the history has grown by N - M, keeping the first N - M new commands |
| ConfigManager.IdMapKeys | src/config_manager/model/ModelManager.java:106-128 | an id is a key of the id map iff some loaded tile type has it |
| ConfigManager.IdMapLast | src/config_manager/model/ModelManager.java:111-128 | when two loaded types share an id, the later one is the one kept in the map |
| ConfigManager.LoadTileTypes | src/config_manager/model/ModelManager.java:106-132 | fails with "no tile types loaded :(" iff the catalog is empty; otherwise returns the catalog and its id map |
| ConfigManager.CreateInitiatedByDefaultTiles | src/config_manager/model/ModelManager.java:134-143 | a fresh x-by-y array whose every cell holds the id of catalog entry 0 or 1; it fails only for a one-entry catalog and a non-empty map, where entry 1 is read |
| ConfigManager.ModelManager.constructor | src/config_manager/model/ModelManager.java:35-46 | a 30-by-20 map, an empty path, tiles of 32 pixels, no configuration name and an empty history |
| ConfigManager.ModelManager.IncreaseTileSizeInPixels | src/config_manager/model/ModelManager.java:149-160 | the same zoom rule with lower bound 3 |
| ConfigManager.ModelManager.GetTileAt | src/config_manager/model/ModelManager.java:162-164 | the id of cell (x, y) of the map value `Cells(tiles)` |
| ConfigManager.ModelManager.OpenMapFromJson | src/config_manager/model/ModelManager.java:229-250 | succeeds iff both sizes are non-negative and every cell is present and a catalog id. A failure reports the first offending cell in loop order (i outer, j inner) and leaves the map, size and path untouched. A success installs a fresh map holding exactly the input ids, with the new size and path |
| ConfigManager.ModelManager.PerformCommand | src/config_manager/model/ModelManager.java:276-281 | the command is performed, then pushed |
| ConfigManager.ModelManager.UndoLastCommand | src/config_manager/model/ModelManager.java:283-290 | the newest command is undone and popped; an empty history changes nothing |
| ConfigManager.ModelManager.ClearCommandHistory | src/config_manager/model/ModelManager.java:292-296 | the history becomes empty and no command is undone |
| ConfigManager.NewModelManager | src/config_manager/model/ModelManager.java:35-46 | an empty catalog fails with "no tile types loaded :("; any other failure comes from the default fill and implies a one-entry catalog; a success is a fresh manager with the catalog, its id map, an empty history, tiles of 32 pixels, an empty path, no configuration and a 30-by-20 map of default ids |
| ConfigManager.PerformThenUndo | src/config_manager/model/ModelManager.java:276-301 | N performs then M <= N undos: the size grows by N - M and the calls are the N performs followed by undos of the M newest, newest first |
| JsonConfiguration.NewJsonConfigurationBuilder | src/config_manager/model/JsonConfigurationBuilder.java:13-39 | succeeds iff the ids are pairwise distinct. A failure names the id of the first entry that repeats an earlier id. A success holds IdSet(list), the ids the entries carry, and the text Configuration(EntryLines(list)) |
| JsonConfiguration.AppendEntry | src/config_manager/model/JsonConfigurationBuilder.java:23-32 | one loop round appends the entry line and ",\n" |
| JsonConfiguration.AppendTags | src/config_manager/model/JsonConfigurationBuilder.java:24-30 | the tag loop and the trim leave the quoted tags joined by ", ", with no trailing separator |
| JsonConfiguration.CloseConfiguration | src/config_manager/model/JsonConfigurationBuilder.java:34-37 | the comma after the last entry is removed and the document closed |
| JsonConfiguration.TrimTrailingSeparator | src/config_manager/model/JsonConfigurationBuilder.java:29-30 | the lastIndexOf(", ") test removes exactly the separator after the last tag, and nothing when there are no tags |
| JsonConfiguration.TrimFinalComma | src/config_manager/model/JsonConfigurationBuilder.java:34-37 | the lastIndexOf(",") test removes exactly the comma after the last entry, and nothing when there are no entries |
| JsonConfiguration.IdSetSpec | src/config_manager/model/JsonConfigurationBuilder.java:17-20 | an id is in the collected set exactly when some entry of the list carries it |
| JsonConfiguration.DuplicateFound | src/config_manager/model/JsonConfigurationBuilder.java:18-22 | an id seen earlier, after only distinct ids, is the first duplicate, and the list is not duplicate-free |
| JsonConfiguration.ConfigurationFrame | src/config_manager/model/JsonConfigurationBuilder.java:14-38 | the document starts with the object and list opening and ends with "\t]\n}"; the entries are separated by ",\n" and the last is followed by "\n" |
| JsonConfiguration.ColumnsAligned | src/config_manager/model/JsonConfigurationBuilder.java:23 | with an id of at most three characters and a name and a texture of at most thirty, the head is 114 characters long, so the tag list starts after 114 characters (at 0-based index 114) of every entry line |
| JsonConfiguration.EntryHeadEnd | src/config_manager/model/JsonConfigurationBuilder.java:23 | the formatted head of an entry ends with the "[" that opens its tag list |
| Text.IntToString | src/config_manager/model/JsonConfigurationBuilder.java:22 | Java's decimal rendering of an int: non-empty, digits with a leading minus exactly for negatives |
| Text.IntToStringValue | src/config_manager/model/JsonConfigurationBuilder.java:22 | the rendering reads back as the value: the digits of a non-negative int, or "-" followed by the digits of the magnitude |
| Text.PadRight | src/config_manager/model/JsonConfigurationBuilder.java:23 | the %-Ns format: the text itself, then spaces up to width N, and never truncated |
| Text.LastIndexAtEndIffEndsWith | src/config_manager/model/JsonConfigurationBuilder.java:29 | lastIndexOf(p) == length - length(p) iff the text ends with p |
| Text.LastIndexOfCharIsSecondLast | src/config_manager/model/JsonConfigurationBuilder.java:34 | lastIndexOf(c) == length - 2 iff the last-but-one character is c and the last is not |
| EarlyEditor.SetCell | src/editor/ModelManager.java:80-82 | only cell (x, y) changes, and it takes the given id, 0 included |
| EarlyEditor.SetCellRoundTrip | src/editor/model/UpdateTileAtCommand.java:16-29 | writing back the id a cell held undoes any write to it |
| EarlyEditor.ModelManager.constructor | src/editor/ModelManager.java:26-30 | a fresh 30-by-20 grass map, material 1 selected, tiles of 32 pixels |
| EarlyEditor.ModelManager.PrepareTiles | src/editor/ModelManager.java:43-51 | a fresh 30-by-20 array whose every cell is GRASS1 or GRASS2 (ids 1 and 2) |
| EarlyEditor.ModelManager.IncreaseTileSizeInPixels | src/editor/ModelManager.java:63-74 | the zoom rule with lower bound 10; the size is unchanged when refused |
| EarlyEditor.ModelManager.GetTileAt | src/editor/ModelManager.java:76-78 | the id of cell (x, y) of the map value `Cells(tiles)` |
| EarlyEditor.ModelManager.UpdateTileAt | src/editor/ModelManager.java:80-82 | the selected material is written into (x, y) and no other cell changes |
| EarlyEditor.ModelManager.SetCurrentSelectedMaterialID | src/editor/ModelManager.java:88-90 | only the selected id changes |
| EarlyEditor.UpdateTileAtCommand.constructor | src/editor/model/UpdateTileAtCommand.java:11-14 | the command targets (x, y) and has remembered nothing yet |
| EarlyEditor.UpdateTileAtCommand.Perform | src/editor/model/UpdateTileAtCommand.java:16-20 | remembers the cell's id, then writes the selected material into that cell only |
| EarlyEditor.UpdateTileAtCommand.Undo | src/editor/model/UpdateTileAtCommand.java:22-29 | writes the remembered id into the cell, and the selected material ends as it was before undo |
| EarlyEditor.EditThenUndo | src/editor/model/UpdateTileAtCommand.java:16-29 | perform followed by undo restores the map and the selection exactly, whatever the cell held |

## Left out

- Swing user interface: panels, dialogs, menus, painting, mouse-to-tile translation and the minimap's floating-point scaling.
- The autotile resolver (smart mode). Its command's class is not part of this model; only the compatibility primitives it builds on are.
- File and JSON I/O. Reading files, Gson parsing and `saveMapAsJson` are left out. Catalog loading starts from the parsed list of tile types, and map opening from parsed sizes and rows.
- The rounding of parsed ids (`Math.round`) and the truncation of parsed sizes and ids (`Double.intValue`): the model receives them as integers.
- Observers and their `fire*` notifications, and the singletons (`getInstance`): managers are passed explicitly.
- `Math.random`: modelled as an arbitrary choice; only the set of possible values is stated.
- The editor's `openMapFromJson` (src/editor/model/ModelManager.java:198-209) is left out with the file I/O. Unlike the configuration manager's version it validates nothing, and the model does not capture what follows from that:
  - it sets the map size before it allocates the array, so a negative size throws with the size already changed and no longer matching the array;
  - it copies each parsed row by the row's own length, so short rows leave cells at 0 and over-long rows throw part-way, after the array was replaced;
  - it checks no ids against the catalog;
  - it keeps the undo history, whose commands may then refer to the previous map (the case `EditorModel.ModelManager.UndoLastCommand` excludes below).
- `getTextureForTileID` and the configuration directory listing: lookups with no logic of their own.
- The configuration manager's tag queries and `getMapStringRepresentation` are line-for-line copies of the editor's. They are modelled once, in `Catalog` and `EditorModel.ModelManager.GetMapStringRepresentation`.
- `ClearMapCommand` reaches the manager through the singleton `instance` rather than its own outer manager. The model uses the command's own manager, which is the same object whenever a single manager exists.
- EditorModel.ModelManager.UndoLastCommand: requires the newest command to fit the current map (`CanUndo`), which holds for commands pushed by `PerformCommand`. It does not model undoing a command that was pushed onto a different map.
- EditorModel.MacroCommand.AddCommand: a macro's children are the plain single-cell edits the editor adds outside smart mode; the smart-mode edits it adds otherwise (src/editor/gui/WorkingAreaPanel.java:163) belong to the autotile resolver left out above, and other command kinds inside a macro are not modelled.
- Java exception messages for array errors are not reproduced. `ConfigManager.NewModelManager` reports a one-entry catalog with the list's index message, and `OpenMapFromJson` reports a structured error value instead.
- EarlyEditor.UpdateTileAtCommand: src/editor/model/UpdateTileAtCommand.java is in package `editor.model`, where `ModelManager` names src/editor/model/ModelManager.java. That class has no `updateTileAt(x, y)` and no selected-material accessors. The model pairs the command with the first manager (src/editor/ModelManager.java), whose methods it calls by name; this is a reading of the code, not what the file compiles against.
- EarlyEditor.ModelManager.GetCurrentSelectedMaterialID: the getter is commented out in src/editor/ModelManager.java:114-116, yet the edit command calls it. The model supplies it as a plain read of the field.
- JsonConfiguration.NewJsonConfigurationBuilder: the exact text of the serialiser's two-entry test is not proved character by character. The literal comparison is too costly for the prover. The layout is stated instead, by the postcondition, `ConfigurationFrame` and `ColumnsAligned`. The duplicate-id test's message is checked in `DuplicateExample`.
- EditorModel.ModelManager.constructor: requires a non-empty catalog. The empty catalog's RuntimeException (src/editor/model/ModelManager.java:88-89) is modelled by `EditorModel.NewModelManager`, which runs the constructor only on a non-empty catalog.
- EditorModel.ModelManager.PerformCommand: a resize to a negative size records the old size and array in the command object before it throws; the model returns the failure and drops that command value, since it never reaches the history.
- EarlyEditor.ModelManager.PrepareTiles: `TileTypes.GRASS1` and `TileTypes.GRASS2` are not part of this model; they are taken to be 1 and 2, the ids the later editor writes in their place (src/editor/model/ModelManager.java:98-100).
- EditorModel.ModelManager.GetTileAt: requires an index inside the map; the ArrayIndexOutOfBoundsException of an outside index is not modelled.
- ConfigManager.ModelManager.GetTileAt: requires an index inside the map; the ArrayIndexOutOfBoundsException of an outside index is not modelled.
- EarlyEditor.ModelManager.GetTileAt: requires an index inside the map; the ArrayIndexOutOfBoundsException of an outside index is not modelled.
- Integer width: ids, sizes and the tile size are unbounded integers. A zoom step that would overflow a 32-bit int is not modelled.
