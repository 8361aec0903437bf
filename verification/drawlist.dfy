/**
  The draw list: the live tile sprites, each binding a map location to a
  screen position, and the whole-row / whole-column additions and removals
  the viewport makes as it scrolls.
 */
module DrawList {
  import opened Common
  import opened Geometry
  import opened Tiles

  /** The render layer of a sprite and the image it shows: a tile's terrain, or the feature above it. */
  datatype Layer = Ground(terrain: Terrain) | Overlay(feature: Feature)

  /**
    A tile sprite: the map location it shows, that tile's pixel position in
    map space, its current screen position `(x, y)` and its layer.
   */
  datatype Sprite = Sprite(mapPos: Loc, pixPos: Point, x: int, y: int, layer: Layer)

  /** The screen position of a sprite under camera `cam`: x against the camera, y with it. */
  predicate OnScreen(s: Sprite, cam: Point) {
    s.x == s.pixPos.x - cam.x && s.y == s.pixPos.y + cam.y
  }

  /** Every sprite of the list sits at its screen position under camera `cam`. */
  predicate Synced(dl: seq<Sprite>, cam: Point) {
    forall s :: s in dl ==> OnScreen(s, cam)
  }

  /** Every sprite's map-space pixel position is the one its map location transforms to. */
  predicate Anchored(cfg: Config, dl: seq<Sprite>) {
    forall s :: s in dl ==> s.pixPos == MapLocToPixelPos(cfg, s.mapPos)
  }

  /** The layers of the sprites standing on `loc`, with multiplicity. */
  function LayersAt(dl: seq<Sprite>, loc: Loc): multiset<Layer> {
    if |dl| == 0 then multiset{}
    else (if dl[0].mapPos == loc then multiset{dl[0].layer} else multiset{}) + LayersAt(dl[1..], loc)
  }

  /** The sprites a tile needs: one for its terrain and, if it has one, one for its feature. */
  function ExpectedLayers(t: MapTile): multiset<Layer> {
    multiset{Ground(t.terrain)} + (if t.feature.Some? then multiset{Overlay(t.feature.value)} else multiset{})
  }

  /** The sprites the tiles standing on `loc` need, with multiplicity. */
  function TileLayersAt(tiles: seq<MapTile>, loc: Loc): multiset<Layer> {
    if |tiles| == 0 then multiset{}
    else (if tiles[0].pos == loc then ExpectedLayers(tiles[0]) else multiset{}) + TileLayersAt(tiles[1..], loc)
  }

  lemma {:induction false} LayersAtAppend(a: seq<Sprite>, b: seq<Sprite>, loc: Loc)
    ensures LayersAt(a + b, loc) == LayersAt(a, loc) + LayersAt(b, loc)
    decreases |a|
  {
    if |a| > 0 {
      assert (a + b)[1..] == a[1..] + b;
      LayersAtAppend(a[1..], b, loc);
    } else {
      assert a + b == b;
    }
  }

  /** `a` is `b` with some elements left out, the rest in their original order. */
  predicate IsSubsequence<T(==)>(a: seq<T>, b: seq<T>)
    decreases |b|
  {
    |a| == 0 || (|b| > 0 && ((a[0] == b[0] && IsSubsequence(a[1..], b[1..])) || IsSubsequence(a, b[1..])))
  }

  /** Puts a sprite at its screen position under camera `cam`. */
  function Place(s: Sprite, cam: Point): (r: Sprite)
    ensures OnScreen(r, cam)
    ensures r.mapPos == s.mapPos && r.pixPos == s.pixPos && r.layer == s.layer
  {
    s.(x := s.pixPos.x - cam.x, y := s.pixPos.y + cam.y)
  }

  /**
    The draw list after the camera moved to `cam`: the same sprites in the
    same order, each moved to its screen position under the new camera.
   */
  function Reposition(dl: seq<Sprite>, cam: Point): (r: seq<Sprite>)
    ensures |r| == |dl|
    ensures Synced(r, cam)
    ensures forall i :: 0 <= i < |dl| ==>
      r[i].mapPos == dl[i].mapPos && r[i].pixPos == dl[i].pixPos && r[i].layer == dl[i].layer
    ensures forall loc :: LayersAt(r, loc) == LayersAt(dl, loc)
    ensures Synced(dl, cam) ==> r == dl
  {
    if |dl| == 0 then []
    else
      var rest := Reposition(dl[1..], cam);
      var r := [Place(dl[0], cam)] + rest;
      assert r[1..] == rest;
      assert Synced(dl, cam) ==> Synced(dl[1..], cam) && Place(dl[0], cam) == dl[0] by {
        if Synced(dl, cam) {
          assert dl[0] in dl;
          forall s | s in dl[1..] ensures OnScreen(s, cam) {
            assert s in dl;
          }
        }
      }
      assert Synced(dl, cam) ==> r == [dl[0]] + dl[1..] == dl;
      r
  }

  /** Repositioning keeps every sprite's map-space pixel position. */
  lemma RepositionAnchored(cfg: Config, dl: seq<Sprite>, cam: Point)
    requires Anchored(cfg, dl)
    ensures Anchored(cfg, Reposition(dl, cam))
  {
    var r := Reposition(dl, cam);
    forall s | s in r
      ensures s.pixPos == MapLocToPixelPos(cfg, s.mapPos)
    {
      var i :| 0 <= i < |r| && r[i] == s;
      assert dl[i] in dl;
    }
  }

  /** A whole row or a whole column of the map. */
  datatype Line = MapRow(row: int) | MapColumn(col: int)

  /** Whether `loc` lies on `line`. */
  predicate OnLine(line: Line, loc: Loc) {
    match line
    case MapRow(row) => loc.row == row
    case MapColumn(col) => loc.col == col
  }

  /**
    The draw list without the sprites standing on `line`; the others stay,
    in their original order.
   */
  function Exclude(dl: seq<Sprite>, line: Line): (r: seq<Sprite>)
    ensures forall s :: s in r ==> s in dl && !OnLine(line, s.mapPos)
    ensures IsSubsequence(r, dl)
  {
    if |dl| == 0 then []
    else
      var rest := Exclude(dl[1..], line);
      if OnLine(line, dl[0].mapPos) then rest
      else
        var r := [dl[0]] + rest;
        assert r[1..] == rest;
        r
  }

  /** Exclusion keeps every sprite it does not drop, with its multiplicity. */
  lemma {:induction false} ExcludeCounts(dl: seq<Sprite>, line: Line, s: Sprite)
    ensures multiset(Exclude(dl, line))[s] == if OnLine(line, s.mapPos) then 0 else multiset(dl)[s]
    decreases |dl|
  {
    if |dl| > 0 {
      assert dl == [dl[0]] + dl[1..];
      ExcludeCounts(dl[1..], line, s);
    }
  }

  /** Exclusion empties exactly the dropped locations and leaves the others as they were. */
  lemma {:induction false} ExcludeLayers(dl: seq<Sprite>, line: Line, loc: Loc)
    ensures LayersAt(Exclude(dl, line), loc) == if OnLine(line, loc) then multiset{} else LayersAt(dl, loc)
    decreases |dl|
  {
    if |dl| > 0 {
      ExcludeLayers(dl[1..], line, loc);
      var rest := Exclude(dl[1..], line);
      if !OnLine(line, dl[0].mapPos) {
        assert ([dl[0]] + rest)[1..] == rest;
      }
    }
  }

  /** Whether a sprite stands in map row `row`: its location's row index is `row`. */
  function IsInRow(s: Sprite, row: int): (b: bool)
    ensures b <==> s.mapPos.row == row
  {
    OnLine(MapRow(row), s.mapPos)
  }

  /** Whether a sprite stands in map column `col`: its location's column index is `col`. */
  function IsInColumn(s: Sprite, col: int): (b: bool)
    ensures b <==> s.mapPos.col == col
  {
    OnLine(MapColumn(col), s.mapPos)
  }

  /** The draw list without the sprites of map row `row`, the others kept in order. */
  function RemoveDrawRow(dl: seq<Sprite>, row: int): (r: seq<Sprite>)
    ensures forall s :: s in r ==> s in dl && !IsInRow(s, row)
    ensures IsSubsequence(r, dl)
  {
    Exclude(dl, MapRow(row))
  }

  /** The draw list without the sprites of map column `col`, the others kept in order. */
  function RemoveDrawColumn(dl: seq<Sprite>, col: int): (r: seq<Sprite>)
    ensures forall s :: s in r ==> s in dl && !IsInColumn(s, col)
    ensures IsSubsequence(r, dl)
  {
    Exclude(dl, MapColumn(col))
  }

  /** Removing a row deletes every copy of that row's sprites and keeps every copy of the others. */
  lemma RemoveDrawRowCounts(dl: seq<Sprite>, row: int, s: Sprite)
    ensures multiset(RemoveDrawRow(dl, row))[s] == if IsInRow(s, row) then 0 else multiset(dl)[s]
  {
    ExcludeCounts(dl, MapRow(row), s);
  }

  /** Removing a column deletes every copy of that column's sprites and keeps every copy of the others. */
  lemma RemoveDrawColumnCounts(dl: seq<Sprite>, col: int, s: Sprite)
    ensures multiset(RemoveDrawColumn(dl, col))[s] == if IsInColumn(s, col) then 0 else multiset(dl)[s]
  {
    ExcludeCounts(dl, MapColumn(col), s);
  }

  /** After removing a row nothing is drawn in it, and every other location keeps its layers. */
  lemma RemoveDrawRowLayers(dl: seq<Sprite>, row: int, loc: Loc)
    ensures LayersAt(RemoveDrawRow(dl, row), loc) == if loc.row == row then multiset{} else LayersAt(dl, loc)
  {
    ExcludeLayers(dl, MapRow(row), loc);
  }

  /** After removing a column nothing is drawn in it, and every other location keeps its layers. */
  lemma RemoveDrawColumnLayers(dl: seq<Sprite>, col: int, loc: Loc)
    ensures LayersAt(RemoveDrawColumn(dl, col), loc) == if loc.col == col then multiset{} else LayersAt(dl, loc)
  {
    ExcludeLayers(dl, MapColumn(col), loc);
  }

  /** A tile's sprites: its terrain sprite, then its feature sprite when it has a feature. */
  function TileSprites(cfg: Config, t: MapTile, cam: Point): (r: seq<Sprite>)
    ensures Synced(r, cam)
    ensures Anchored(cfg, r)
    ensures forall loc :: LayersAt(r, loc) == if t.pos == loc then ExpectedLayers(t) else multiset{}
  {
    var pix := MapLocToPixelPos(cfg, t.pos);
    var ground := Place(Sprite(t.pos, pix, 0, 0, Ground(t.terrain)), cam);
    if t.feature.Some? then
      var over := Place(Sprite(t.pos, pix, 0, 0, Overlay(t.feature.value)), cam);
      var r := [ground, over];
      assert r[1..] == [over] && [over][1..] == [];
      assert forall loc :: LayersAt(r, loc) == if t.pos == loc then ExpectedLayers(t) else multiset{} by {
        forall loc ensures LayersAt(r, loc) == if t.pos == loc then ExpectedLayers(t) else multiset{} {
          assert LayersAt([over], loc) == if t.pos == loc then multiset{over.layer} else multiset{};
        }
      }
      r
    else
      var r := [ground];
      assert r[1..] == [];
      r
  }

  /** New sprites for `tiles`, tile by tile, all placed under camera `cam`. */
  function SpritesFor(cfg: Config, tiles: seq<MapTile>, cam: Point): (r: seq<Sprite>)
    ensures Synced(r, cam)
    ensures Anchored(cfg, r)
  {
    if |tiles| == 0 then []
    else TileSprites(cfg, tiles[0], cam) + SpritesFor(cfg, tiles[1..], cam)
  }

  /** The new sprites stand exactly where the tiles are, and are exactly the sprites those tiles need. */
  lemma {:induction false} SpritesForLayers(cfg: Config, tiles: seq<MapTile>, cam: Point, loc: Loc)
    ensures LayersAt(SpritesFor(cfg, tiles, cam), loc) == TileLayersAt(tiles, loc)
    decreases |tiles|
  {
    if |tiles| > 0 {
      LayersAtAppend(TileSprites(cfg, tiles[0], cam), SpritesFor(cfg, tiles[1..], cam), loc);
      SpritesForLayers(cfg, tiles[1..], cam, loc);
    }
  }

  /** A column slice of an exact map holds each tile of the slice once, and nothing else. */
  lemma {:induction false} ColumnSpanLayers(m: GameMap, c: int, start: int, end: int, loc: Loc)
    requires forall l :: m.tileAt(l).pos == l
    ensures TileLayersAt(ColumnSpan(m, c, start, end), loc) ==
      if loc.col == c && start <= loc.row < end then ExpectedLayers(m.tileAt(loc)) else multiset{}
    decreases end - start
  {
    if start < end {
      var span := ColumnSpan(m, c, start, end);
      assert span[1..] == ColumnSpan(m, c, start + 1, end);
      ColumnSpanLayers(m, c, start + 1, end, loc);
      assert span[0].pos == Loc(c, start);
    }
  }

  /** A row slice of an exact map holds each tile of the slice once, and nothing else. */
  lemma {:induction false} RowSpanLayers(m: GameMap, r: int, start: int, end: int, loc: Loc)
    requires forall l :: m.tileAt(l).pos == l
    ensures TileLayersAt(RowSpan(m, r, start, end), loc) ==
      if loc.row == r && start <= loc.col < end then ExpectedLayers(m.tileAt(loc)) else multiset{}
    decreases end - start
  {
    if start < end {
      var span := RowSpan(m, r, start, end);
      assert span[1..] == RowSpan(m, r, start + 1, end);
      RowSpanLayers(m, r, start + 1, end, loc);
      assert span[0].pos == Loc(start, r);
    }
  }

  /**
    Appends sprites for map column `col` across the rows of the window
    anchored at `idx`; fails when the map returns fewer than `drawY` tiles.
   */
  function AddDrawColumn(cfg: Config, m: GameMap, idx: Loc, cam: Point, dl: seq<Sprite>, col: int)
    : (r: Result<seq<Sprite>, DrawError>)
    ensures r.Ok? <==> |m.column(col, idx.row, idx.row + cfg.drawY)| >= cfg.drawY
    ensures Exact(m) ==> r.Ok?
  {
    var tiles := m.column(col, idx.row, idx.row + cfg.drawY);
    if |tiles| < cfg.drawY then Err(ShortColumn(col, |tiles|))
    else
      var added := SpritesFor(cfg, tiles, cam);
      var r := dl + added;
      assert r[|dl|..] == added;
      Ok(r)
  }

  /**
    Appends sprites for map row `row` across the columns of the window
    anchored at `idx`; fails when the map returns fewer than `drawX` tiles.
   */
  function AddDrawRow(cfg: Config, m: GameMap, idx: Loc, cam: Point, dl: seq<Sprite>, row: int)
    : (r: Result<seq<Sprite>, DrawError>)
    ensures r.Ok? <==> |m.row(row, idx.col, idx.col + cfg.drawX)| >= cfg.drawX
    ensures Exact(m) ==> r.Ok?
  {
    var tiles := m.row(row, idx.col, idx.col + cfg.drawX);
    if |tiles| < cfg.drawX then Err(ShortRow(row, |tiles|))
    else
      var added := SpritesFor(cfg, tiles, cam);
      var r := dl + added;
      assert r[|dl|..] == added;
      Ok(r)
  }

  /**
    Adding a column keeps the old draw list as a prefix, and the new
    sprites, like the old ones, stand where the camera and the map put them.
   */
  lemma AddDrawColumnKeeps(cfg: Config, m: GameMap, idx: Loc, cam: Point, dl: seq<Sprite>, col: int)
    requires AddDrawColumn(cfg, m, idx, cam, dl, col).Ok?
    ensures var r := AddDrawColumn(cfg, m, idx, cam, dl, col).value;
      && |r| >= |dl| && r[..|dl|] == dl
      && (Synced(dl, cam) ==> Synced(r, cam))
      && (Anchored(cfg, dl) ==> Anchored(cfg, r))
  {
  }

  /**
    Adding a row keeps the old draw list as a prefix, and the new sprites,
    like the old ones, stand where the camera and the map put them.
   */
  lemma AddDrawRowKeeps(cfg: Config, m: GameMap, idx: Loc, cam: Point, dl: seq<Sprite>, row: int)
    requires AddDrawRow(cfg, m, idx, cam, dl, row).Ok?
    ensures var r := AddDrawRow(cfg, m, idx, cam, dl, row).value;
      && |r| >= |dl| && r[..|dl|] == dl
      && (Synced(dl, cam) ==> Synced(r, cam))
      && (Anchored(cfg, dl) ==> Anchored(cfg, r))
  {
  }

  /** Appending the sprites of `tiles` adds exactly the sprites those tiles need. */
  lemma AppendedLayers(cfg: Config, dl: seq<Sprite>, tiles: seq<MapTile>, cam: Point, loc: Loc)
    ensures LayersAt(dl + SpritesFor(cfg, tiles, cam), loc) == LayersAt(dl, loc) + TileLayersAt(tiles, loc)
  {
    LayersAtAppend(dl, SpritesFor(cfg, tiles, cam), loc);
    SpritesForLayers(cfg, tiles, cam, loc);
  }

  /** On an exact map, adding a column appends the sprites of exactly the requested slice. */
  lemma AddDrawColumnExact(cfg: Config, m: GameMap, idx: Loc, cam: Point, dl: seq<Sprite>, col: int)
    requires Exact(m)
    ensures AddDrawColumn(cfg, m, idx, cam, dl, col) == Ok(dl + SpritesFor(cfg, ColumnSpan(m, col, idx.row, idx.row + cfg.drawY), cam))
  {
  }

  /** On an exact map, adding column `col` adds exactly the sprites of that column's window tiles. */
  lemma AddDrawColumnLayers(cfg: Config, m: GameMap, idx: Loc, cam: Point, dl: seq<Sprite>, col: int, loc: Loc)
    requires Exact(m)
    ensures AddDrawColumn(cfg, m, idx, cam, dl, col).Ok?
    ensures LayersAt(AddDrawColumn(cfg, m, idx, cam, dl, col).value, loc) == LayersAt(dl, loc) +
      (if loc.col == col && idx.row <= loc.row < idx.row + cfg.drawY then ExpectedLayers(m.tileAt(loc)) else multiset{})
  {
    var tiles := ColumnSpan(m, col, idx.row, idx.row + cfg.drawY);
    AddDrawColumnExact(cfg, m, idx, cam, dl, col);
    AppendedLayers(cfg, dl, tiles, cam, loc);
    ColumnSpanLayers(m, col, idx.row, idx.row + cfg.drawY, loc);
  }

  /** On an exact map, adding a row appends the sprites of exactly the requested slice. */
  lemma AddDrawRowExact(cfg: Config, m: GameMap, idx: Loc, cam: Point, dl: seq<Sprite>, row: int)
    requires Exact(m)
    ensures AddDrawRow(cfg, m, idx, cam, dl, row) == Ok(dl + SpritesFor(cfg, RowSpan(m, row, idx.col, idx.col + cfg.drawX), cam))
  {
  }

  /** On an exact map, adding row `row` adds exactly the sprites of that row's window tiles. */
  lemma AddDrawRowLayers(cfg: Config, m: GameMap, idx: Loc, cam: Point, dl: seq<Sprite>, row: int, loc: Loc)
    requires Exact(m)
    ensures AddDrawRow(cfg, m, idx, cam, dl, row).Ok?
    ensures LayersAt(AddDrawRow(cfg, m, idx, cam, dl, row).value, loc) == LayersAt(dl, loc) +
      (if loc.row == row && idx.col <= loc.col < idx.col + cfg.drawX then ExpectedLayers(m.tileAt(loc)) else multiset{})
  {
    var tiles := RowSpan(m, row, idx.col, idx.col + cfg.drawX);
    AddDrawRowExact(cfg, m, idx, cam, dl, row);
    AppendedLayers(cfg, dl, tiles, cam, loc);
    RowSpanLayers(m, row, idx.col, idx.col + cfg.drawX, loc);
  }
}
