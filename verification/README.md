# Staggered tile-map viewport

A model of the scrolling viewport of `gamewindow.py`: a window onto a
staggered ("brick") hex-style tile map in which even columns sit half a tile
lower than odd ones. The window keeps a *draw list* of tile sprites covering
a `DRAW_X` by `DRAW_Y` block of tiles anchored at the camera index. Scrolling
does four things:

- it moves the camera;
- it repositions every sprite;
- it accumulates the scrolled distance;
- once that distance passes one tile stride, it drops the row or column of
  sprites leaving the window and adds the one entering it.

Around this engine sit the event handlers:

- the per-tick update;
- pointer motion and exit, which set the scroll direction;
- key presses, which toggle the FPS counter and advance the turn;
- the mouse press, which selects the tile whose sprite is nearest the
  pointer and updates the terrain label.

Modules, in dependency order:

- `Common` — `Option` and `Result` (the error path of every fallible step).
- `Geometry` — the window configuration, the shift thresholds, and the
  pixel/grid transforms `MapLocToPixelPos` and `PixelPosToMapLoc`.
- `Direction` — scroll directions, pointer classification (`DetermineScrollDir`),
  offscreen classification, and the per-tick displacement.
- `Tiles` — the map as seen by the window: tiles, terrains, features, and the
  `tileAt` / `row` / `column` lookups. `Exact` says the map answers every
  lookup with exactly the tiles asked for.
- `DrawList` — sprites, and adding and removing a row or column of them.
- `Viewport` — the camera, accumulator and index state; the scroll step;
  the start-up population of the window.
- `Window` — the event handlers over the whole window state.

The central invariant is `Viewport.Consistent`. It has three parts:

- For every map location, the multiset of sprite layers standing on it is
  exactly the tile's terrain plus its feature (if it has one) when the
  location is inside the tile window, and empty otherwise.
- Every sprite sits at its map-space pixel position offset by the camera.
- Every sprite's map-space pixel position is the transform of its map
  location.

The start-up population establishes the invariant when the map is exact
(`Tiles.Exact`: every tile lookup and every row or column slice returns
exactly the tiles asked for) and wide enough for the window. On an exact
map every scroll tick keeps it. A map that returns a short row or column
slice makes the tick fail with a `DrawError`, as the source's length
assertion does; the invariant is not claimed for such maps.

Constants that live outside `gamewindow.py` (window size, draw extent,
scroll margin and speed) are fields of `Geometry.Config`, so every property
holds for all positive settings, unless a lemma states a bound:
`Geometry.RowNotRecovered` needs a window at least 108 pixels high, and
`Viewport.ScrollKeepsAccumulatorsBounded` a scroll speed of at most 54.
The two shift thresholds (54 and 72 pixels),
the 36-pixel offscreen margin, the 5,000,000-pixel pick sentinel and the
(-5000, -5000) hidden selection position are the source's own constants.

The code shifts the window at most once per axis per tick and does not
re-check the thresholds; `Viewport.ShiftColumns` and `Viewport.ShiftRows` do
the same. `Viewport.ScrollKeepsAccumulatorsBounded` shows that one shift
suffices whenever the scroll speed is at most one column stride.

## Model

| member | source | states |
|---|---|---|
| Geometry.MapLocToPixelPos | gamewindow.py:412-426 | a tile centre lies 36 + 54·col pixels from the left edge and 36 + 72·row pixels below the window top, plus a further 36 for even columns; its properties are carried by StaggeredColumns, StridesMatchThresholds, ColumnRoundTrip and PixelPosInjective |
| Geometry.TruncDiv | gamewindow.py:407-409 | the quotient is rounded toward zero, as `int()` of a float quotient: bracketed from below for non-negative and from above for negative dividends |
| Geometry.PixelPosToMapLoc | gamewindow.py:396-409 | the column is the truncated quotient of `x - 36` by 54, bracketed within one column stride on either sign |
| Geometry.ColumnQuotientParity | gamewindow.py:401-405 | the float column quotient of a column's centre x is even exactly when the column is even, so the row correction matches the column's stagger |
| Geometry.ColumnRoundTrip | gamewindow.py:396-425 | every column, negative ones included, survives grid → pixel → grid |
| Geometry.RowRoundTripFromTop | gamewindow.py:403-425 | once y is measured down from the window top, every non-negative row survives grid → pixel → grid |
| Geometry.NegativeRowNotRecovered | gamewindow.py:403-425 | even with that flip a negative row does not survive: tile (1, -1) comes back in row 0, because the quotient truncates toward zero |
| Geometry.RowNotRecovered | gamewindow.py:403-425 | without that flip the row does not survive: in a window at least 108 pixels high, tile (1, 0) comes back with a positive row |
| Geometry.StaggeredColumns | gamewindow.py:419-425 | within a row an even column's tile centre is exactly half a tile below an odd column's |
| Geometry.StridesMatchThresholds | gamewindow.py:16-17 | one row down moves a tile centre by exactly the vertical threshold and one column right by exactly the horizontal one |
| Geometry.PixelPosInjective | gamewindow.py:412-430 | distinct grid locations are drawn at distinct pixel positions |
| Direction.DetermineScrollDir | gamewindow.py:338-363 | no scrolling right of the map display; otherwise the horizontal part is left/none/right by the pointer's side of the x margins and the vertical part down/none/up by its side of the y margins, the low edge taking priority |
| Direction.InteriorPointerIsIdle | gamewindow.py:338-363 | a pointer clear of every margin inside the display does not scroll |
| Direction.CornerPointerIsDownLeft | gamewindow.py:344-346 | the bottom-left corner scrolls down-left |
| Direction.WhereOffscreen | gamewindow.py:365-388 | the horizontal and vertical parts of the result are the sprite's side of the display widened by 36 pixels on each side |
| Direction.IsOffscreen | gamewindow.py:390-394 | a sprite is offscreen exactly when it lies beyond the widened display on some side |
| Direction.ScrollDelta | gamewindow.py:156-168 | each component of the tick displacement is the scroll speed times that component of the direction |
| Direction.ScrollDeltaIdle | gamewindow.py:156-168 | with a positive speed only "no direction" gives a zero displacement |
| DrawList.Place | gamewindow.py:176-177 | a repositioned sprite sits at its map-space position offset by the camera (x against it, y with it) and keeps its location, map-space position and layer |
| DrawList.Reposition | gamewindow.py:175-177 | the same sprites in the same order, each on screen under the new camera, with the per-location layers unchanged; a list already in place is left as it is |
| DrawList.RepositionAnchored | gamewindow.py:175-177 | repositioning keeps every sprite's map-space position equal to its location's transform |
| DrawList.IsInRow | gamewindow.py:323-327 | a sprite is in a row exactly when its location's row index is that row |
| DrawList.IsInColumn | gamewindow.py:329-334 | a sprite is in a column exactly when its location's column index is that column |
| DrawList.RemoveDrawRow | gamewindow.py:248-256 | the result keeps the other sprites in order and holds no sprite of the row |
| DrawList.RemoveDrawColumn | gamewindow.py:258-265 | the result keeps the other sprites in order and holds no sprite of the column |
| DrawList.RemoveDrawRowCounts | gamewindow.py:248-256 | every sprite of the row is removed, every occurrence of every other sprite kept |
| DrawList.RemoveDrawColumnCounts | gamewindow.py:258-265 | every sprite of the column is removed, every occurrence of every other sprite kept |
| DrawList.RemoveDrawRowLayers | gamewindow.py:248-256 | locations on the row end up with no sprite; every other location keeps its layers |
| DrawList.RemoveDrawColumnLayers | gamewindow.py:258-265 | locations on the column end up with no sprite; every other location keeps its layers |
| DrawList.TileSprites | gamewindow.py:273-295 | a tile gets a terrain sprite and, exactly when it has a feature, a feature sprite, both on the tile's location and placed under the camera |
| DrawList.SpritesFor | gamewindow.py:273-295 | every new sprite is placed under the camera at its location's map-space position |
| DrawList.SpritesForLayers | gamewindow.py:273-295 | the new sprites on each location are exactly the layers the tiles there need |
| DrawList.AddDrawColumn | gamewindow.py:267-271 | adding a column succeeds exactly when the map returns at least `drawY` tiles, and always does on an exact map |
| DrawList.AddDrawRow | gamewindow.py:219-223 | adding a row succeeds exactly when the map returns at least `drawX` tiles, and always does on an exact map |
| DrawList.AddDrawColumnKeeps | gamewindow.py:273-295 | the old list is a prefix of the new one, and placement under the camera and anchoring are kept |
| DrawList.AddDrawRowKeeps | gamewindow.py:225-246 | the old list is a prefix of the new one, and placement under the camera and anchoring are kept |
| DrawList.AddDrawColumnExact | gamewindow.py:267-295 | on an exact map, adding a column appends the sprites of exactly the window's slice of that column |
| DrawList.AddDrawRowExact | gamewindow.py:219-246 | on an exact map, adding a row appends the sprites of exactly the window's slice of that row |
| DrawList.AddDrawColumnLayers | gamewindow.py:267-295 | on an exact map each location of the column's window slice gains exactly its tile's layers and no other location changes |
| DrawList.AddDrawRowLayers | gamewindow.py:219-246 | on an exact map each location of the row's window slice gains exactly its tile's layers and no other location changes |
| Viewport.SwapColumn | gamewindow.py:185-201 | a column swap keeps the camera and selection, sets the new index and accumulator, and cannot fail on an exact map |
| Viewport.SwapRow | gamewindow.py:203-217 | a row swap keeps the camera and selection, sets the new index and accumulator, and cannot fail on an exact map |
| Viewport.ShiftColumns | gamewindow.py:184-201 | past +54 the index moves one column left and past -54 one right, each giving back exactly 54; within the thresholds nothing changes; rows, camera and selection are untouched |
| Viewport.ShiftRows | gamewindow.py:203-217 | past +72 the index moves one row down and past -72 one up, each giving back exactly 72; within the thresholds nothing changes; columns, camera and selection are untouched |
| Viewport.SwapColumnKeepsConsistent | gamewindow.py:185-201 | dropping the leaving column and adding the entering one keeps the draw list equal to the moved window |
| Viewport.SwapRowKeepsConsistent | gamewindow.py:203-217 | dropping the leaving row and adding the entering one keeps the draw list equal to the moved window |
| Viewport.SwapColumnKeepsSynced | gamewindow.py:185-201 | a column swap keeps every sprite placed and anchored |
| Viewport.SwapRowKeepsSynced | gamewindow.py:203-217 | a row swap keeps every sprite placed and anchored |
| Viewport.ShiftColumnsLeftKeepsConsistent | gamewindow.py:185-192 | the shift left keeps the viewport invariant |
| Viewport.ShiftColumnsRightKeepsConsistent | gamewindow.py:194-201 | the shift right keeps the viewport invariant |
| Viewport.ShiftRowsDownKeepsConsistent | gamewindow.py:203-210 | the shift down keeps the viewport invariant |
| Viewport.ShiftRowsUpKeepsConsistent | gamewindow.py:212-217 | the shift up keeps the viewport invariant |
| Viewport.ShiftColumnsKeepsConsistent | gamewindow.py:184-201 | the column check keeps the viewport invariant on an exact map |
| Viewport.ShiftRowsKeepsConsistent | gamewindow.py:203-217 | the row check keeps the viewport invariant on an exact map |
| Viewport.ShiftColumnsKeepsSynced | gamewindow.py:184-201 | a successful column check keeps every sprite placed and anchored |
| Viewport.ShiftRowsKeepsSynced | gamewindow.py:203-217 | a successful row check keeps every sprite placed and anchored |
| Viewport.Move | gamewindow.py:170-181 | the camera moves by the speed along each component (y against it), both accumulators and the selection marker move the other way, and the index, the layers on every location and every sprite's place under the new camera are kept |
| Viewport.Scroll | gamewindow.py:156-217 | the camera moves by the speed along each component (y against it), the selection marker moves the other way, each accumulator shifts the index at most once, and the tick cannot fail on an exact map |
| Viewport.ScrollKeepsConsistent | gamewindow.py:156-217 | a scroll tick keeps the viewport invariant |
| Viewport.ScrollKeepsSynced | gamewindow.py:170-217 | after a tick every sprite, new ones included, is placed under the new camera, and anchoring is kept |
| Viewport.ScrollKeepsAccumulatorsBounded | gamewindow.py:170-217 | with a speed of at most 54, accumulators within threshold stay within threshold, so one shift per axis per tick keeps up |
| Viewport.IdleScrollIsIdentity | gamewindow.py:156-217 | a tick with no direction leaves a placed viewport with in-threshold accumulators unchanged |
| Viewport.Nudge | gamewindow.py:69-74 | the index moves two columns left exactly when its column exceeds 1 and one row up exactly when its row exceeds 0, never below zero from a non-negative index |
| Viewport.Populate | gamewindow.py:77-79 | filling the window's columns cannot fail on an exact map |
| Viewport.PopulateKeeps | gamewindow.py:77-79 | filling keeps every sprite placed and anchored |
| Viewport.PopulateLayers | gamewindow.py:77-79 | filling adds exactly the layers of the window tiles in the filled columns |
| Viewport.Init | gamewindow.py:38-79 | the starting viewport has the given camera, zero accumulators, the nudged index under the camera and the selection hidden at (-5000, -5000) |
| Viewport.InitSynced | gamewindow.py:66-79 | every starting sprite is placed under the camera and anchored |
| Viewport.InitConsistent | gamewindow.py:66-79 | when the map is wide enough, the starting viewport satisfies the invariant |
| Window.Start | gamewindow.py:21-79 | a new window starts on turn 1, with the FPS counter shown, no scrolling and nothing selected |
| Window.StartConsistent | gamewindow.py:21-79 | a new window over a wide enough exact map satisfies the viewport invariant |
| Window.Update | gamewindow.py:103-105 | a tick with no direction changes nothing; otherwise only the viewport changes, and a tick cannot fail on an exact map |
| Window.UpdateKeepsConsistent | gamewindow.py:103-105 | ticks keep the viewport invariant |
| Window.OnMouseMotion | gamewindow.py:150-151 | motion sets the direction for the pointer's position and changes nothing else |
| Window.OnMouseLeave | gamewindow.py:153-154 | leaving stops scrolling and changes nothing else |
| Window.PanelPointerFreezesView | gamewindow.py:103-151 | after the pointer moves over the side panel a tick changes nothing |
| Window.LeftWindowFreezesView | gamewindow.py:103-154 | after the pointer leaves a tick changes nothing |
| Window.OnKeyPress | gamewindow.py:107-112 | the grave key toggles the FPS counter, space advances the turn by one, other keys change nothing |
| Window.PressAllEffect | gamewindow.py:107-112 | after any key sequence the turn has advanced by the number of spaces, the FPS flag flipped by the parity of grave presses, and the viewport and selection are untouched |
| Window.TurnNeverDecreases | gamewindow.py:107-112 | key presses never lower the turn |
| Window.FirstBelow | gamewindow.py:115-128 | the scan's pick, when there is one, is a position of the list whose distance is below the sentinel; FirstBelowIsFirstMin characterises it fully |
| Window.Nearest | gamewindow.py:114-128 | the picked sprite, when there is one, is in the draw list and closer than 5,000,000 pixels; NearestIsFirstNearest characterises it fully |
| Window.NearestIsFirstNearest | gamewindow.py:114-128 | nothing is picked exactly when every sprite is at least 5,000,000 pixels away; otherwise the pick is the first sprite at the least distance |
| Window.FirstBelowIsFirstMin | gamewindow.py:115-128 | the scan from the sentinel with a strict comparison finds nothing exactly when no distance is below the sentinel, and otherwise the first position of the least distance, which is below the sentinel |
| Window.FirstMinUnique | gamewindow.py:123-128 | the first position of the least distance is unique, so the pick is determined |
| Window.PickNearest | gamewindow.py:115-128 | the linear search with a strict comparison returns the reference pick |
| Window.TerrainLabel | gamewindow.py:136-142 | every label starts with "Terrain: " |
| Window.TerrainLabelDistinguishes | gamewindow.py:136-142 | two terrains share a label exactly when they are equal or both unlisted |
| Window.TerrainLabelAsWritten | gamewindow.py:136-142 | the handler as written fails exactly for unlisted terrains and otherwise agrees with the corrected label |
| Window.UnlistedTerrainFails | gamewindow.py:141-142 | an unlisted terrain makes the handler as written fail, while the corrected label reads "Terrain: Unknown" |
| Window.Select | gamewindow.py:130-134 | selecting a sprite moves only the marker onto it, selects the tile at its location, sets the label, and leaves turn, FPS flag and direction alone |
| Window.OnMousePress | gamewindow.py:114-142 | the handler as written: a successful press has selected a water or grass tile and labelled it by its terrain, moving only the selection marker and leaving turn, FPS flag and direction alone |
| Window.OnMousePressCorrected | gamewindow.py:114-142 | the handler with the label corrected: it fails only when nothing is picked, and a successful press selects a tile of any terrain and labels it by that terrain, moving only the selection marker |
| Window.PressFailsFarFromSprites | gamewindow.py:114-134 | both handlers report that nothing was picked exactly when no sprite is closer than 5,000,000 pixels, including on an empty draw list; the corrected one fails in no other case |
| Window.PressSelectsFirstNearest | gamewindow.py:123-142 | a press within reach selects exactly the first nearest sprite's tile and puts the marker on it; the handler as written fails with the missing-label error when that tile's terrain is unlisted |
| Window.PressAsWrittenDiffersOnlyOnLabel | gamewindow.py:136-142 | the two handlers differ exactly when the corrected one selects a tile with an unlisted terrain, and there the handler as written fails on the label |

## Left out

- Rendering is not modelled: `on_draw`, the sprite batch and groups, the FPS display, the side-panel quad and the label widgets. Only the terrain label's text and the turn number are kept as state; the turn label's text is not.
- The 1/45-second clock schedule and the tick's `dt` argument are not modelled. A tick is a call to `Window.Update`.
- `sprite.delete()`, which releases video memory, is not modelled. Removing a sprite from the list is all that remains.
- Distances are compared as squared integers against the squared sentinel, not through `math.sqrt` on floats. The square root is monotone, so the comparisons agree when rounding is ignored; float rounding is not modelled.
- `Geometry.MapLocToPixelPos`: the `relative=True` branch is left out. It reads `self` in a free function, which is not defined there, and no caller uses it.
- `centerCameraOnTile` and `centerCameraOnSprite` are not modelled. The starting camera position is a parameter of `Viewport.Init` and `Window.Start`, and positions are integers although the source's halving can produce floats.
- Sprite scaling for forests (`scale = 0.8`) is not modelled. It affects only drawing.
- The debugging `print` calls in the press handler are not modelled.
- The map itself (tile grid, start tile, tile images), `TileSprite`, `isEven`, the constants module, the terrain and feature enumerations and the resources module are not part of this model. The map is a record of lookups (`Tiles.GameMap`). `isEven` is taken to be `n % 2 == 0` (`Geometry.IsEven`); applied to the float column quotient `(x - 36) / 54`, which is even only when it is an even integer, it becomes `(x - 36) % 108 == 0` (`Geometry.ColumnQuotientIsEven`), and that reading decides the row `PixelPosToMapLoc` returns and so the starting row of `Init`. A `TileSprite`'s `pix_pos` is taken to be the tile's `getPixPos()`, that is `MapLocToPixelPos` of its location (`DrawList.TileSprites`): new sprites are placed from the tile and later repositioned from the sprite, and the `Anchored` part of the invariant rests on the two being equal.
- Event-handler arguments the handlers ignore (`button`, `modifiers`, motion `dx`/`dy`) are not modelled.
- Window.OnMousePress: when the draw list is empty, or no sprite is closer than 5,000,000 pixels, the source first moves the selection sprite to (0, 0) and then raises an attribute error on `None`. The model returns `NothingPicked` and leaves the state unchanged, so the marker move is not modelled. Likewise, on an unlisted terrain the source moves the marker and sets the selected tile before the label assignment raises; the model returns `MissingLabelField` without those partial updates.
- Viewport.Populate: the start-up loop's upper bound clips the window to the map's column count. Only `Viewport.InitConsistent`, for a map at least as wide as the window, states the invariant afterwards.

## Findings

| source | as written | input that shows it | evidently intended | confidence | as-written member | corrected member |
|---|---|---|---|---|---|---|
| gamewindow.py:141-142 | for a tile whose terrain is neither water nor grass, the handler assigns to `self.terrain_labe`, a misspelling of `self.terrain_label`; the window has no such attribute, so the press raises an attribute error after the selection has already changed | clicking a tile with any terrain other than water or grass (`Unlisted(0)` in the model) | the label reads "Terrain: Unknown" | not executed | Window.TerrainLabelAsWritten, Window.OnMousePress, Window.PressAsWrittenDiffersOnlyOnLabel | Window.TerrainLabel, Window.OnMousePressCorrected |
