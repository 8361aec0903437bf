/**
  The map collaborator as the viewport sees it: tiles with a terrain and an
  optional feature, looked up one at a time or a row / column slice at a time.
 */
module Tiles {
  import opened Common
  import opened Geometry

  /** Terrain kinds; the ones the terrain label does not name are `Unlisted`. */
  datatype Terrain = Water | Grass | Unlisted(code: int)

  /** Features that can stand on a tile (drawn above its terrain). */
  datatype Feature = Forest | OtherFeature(code: int)

  /** A tile of the map: where it is, its terrain, and its feature if any. */
  datatype MapTile = MapTile(pos: Loc, terrain: Terrain, feature: Option<Feature>)

  /**
    The map as three lookups: `tileAt(loc)`, `row(r, startCol, endCol)` and
    `column(c, startRow, endRow)`, plus the number of columns the map has.
   */
  datatype GameMap = GameMap(
    tileAt: Loc -> MapTile,
    row: (int, int, int) -> seq<MapTile>,
    column: (int, int, int) -> seq<MapTile>,
    columnCount: nat)

  /** The tiles `(start, r) .. (end - 1, r)` in column order. */
  function RowSpan(m: GameMap, r: int, start: int, end: int): (tiles: seq<MapTile>)
    ensures |tiles| == if start <= end then end - start else 0
    decreases end - start
  {
    if start >= end then [] else [m.tileAt(Loc(start, r))] + RowSpan(m, r, start + 1, end)
  }

  /** The tiles `(c, start) .. (c, end - 1)` in row order. */
  function ColumnSpan(m: GameMap, c: int, start: int, end: int): (tiles: seq<MapTile>)
    ensures |tiles| == if start <= end then end - start else 0
    decreases end - start
  {
    if start >= end then [] else [m.tileAt(Loc(c, start))] + ColumnSpan(m, c, start + 1, end)
  }

  /**
    The map is exact when every tile reports the location it was looked up
    at and every row or column slice holds exactly the requested tiles.
   */
  ghost predicate Exact(m: GameMap) {
    && (forall loc :: m.tileAt(loc).pos == loc)
    && (forall r, start, end {:trigger m.row(r, start, end)} :: m.row(r, start, end) == RowSpan(m, r, start, end))
    && (forall c, start, end {:trigger m.column(c, start, end)} :: m.column(c, start, end) == ColumnSpan(m, c, start, end))
  }

  /** The fatal condition of adding a row or column: the map returned too few tiles. */
  datatype DrawError = ShortRow(row: int, got: nat) | ShortColumn(col: int, got: nat)
}
