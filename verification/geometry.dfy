/**
  Window configuration and the coordinate transform between map grid
  locations and pixel positions of a staggered (brick-offset) tile map:
  even columns sit half a tile lower than odd ones.
 */
module Geometry {

  /** Horizontal pixel distance between neighbouring columns. */
  const ColumnStride: int := 54
  /** Vertical pixel distance between neighbouring rows (the tile image height). */
  const RowStride: int := 72
  /** Half a tile: the left margin, the top margin and the stagger of even columns. */
  const HalfTile: int := 36
  /** Accumulated horizontal scroll past which the tile window shifts one column. */
  const TileThresholdX: int := 54
  /** Accumulated vertical scroll past which the tile window shifts one row. */
  const TileThresholdY: int := 72

  /**
    The window constants the game is configured with: the tile window is
    `drawX` columns by `drawY` rows, the map is shown in the left
    `mapDisplayWidth` pixels of a window `windowHeight` pixels high, the
    pointer scrolls within `scrollMargin` pixels of an edge, and each tick
    scrolls by `scrollSpeed` pixels.
   */
  datatype Config = Config(
    drawX: int,
    drawY: int,
    mapDisplayWidth: int,
    windowHeight: int,
    scrollMargin: int,
    scrollSpeed: int)
  {
    predicate Valid() {
      && drawX > 0
      && drawY > 0
      && mapDisplayWidth > 0
      && windowHeight > 0
      && scrollMargin > 0
      && scrollSpeed > 0
    }
  }

  /** A map grid location: column and row index. */
  datatype Loc = Loc(col: int, row: int)

  /** A pixel position (or a pixel displacement). */
  datatype Point = Point(x: int, y: int)

  predicate IsEven(n: int) {
    n % 2 == 0
  }

  /** Integer division rounding toward zero, as Python's `int(a / b)` does. */
  function TruncDiv(a: int, b: int): (q: int)
    requires b > 0
    ensures a >= 0 ==> 0 <= q && q * b <= a < q * b + b
    ensures a < 0 ==> q <= 0 && q * b - b < a <= q * b
  {
    if a >= 0 then
      assert a == (a / b) * b + a % b && 0 <= a % b < b;
      a / b
    else
      assert -a == ((-a) / b) * b + (-a) % b && 0 <= (-a) % b < b;
      -((-a) / b)
  }

  /**
    Pixel position of the centre of the tile at `loc`: columns advance by
    54 pixels from a 36-pixel margin; rows descend by 72 pixels from 36
    pixels below the top of the window, and even columns sit a further 36
    pixels lower.
   */
  function MapLocToPixelPos(cfg: Config, loc: Loc): (p: Point)
    ensures p.x - HalfTile == ColumnStride * loc.col
    ensures cfg.windowHeight - p.y == HalfTile + RowStride * loc.row + (if IsEven(loc.col) then HalfTile else 0)
  {
    var top := if IsEven(loc.col) then cfg.windowHeight - HalfTile - HalfTile
               else cfg.windowHeight - HalfTile;
    Point(ColumnStride * loc.col + HalfTile, top - RowStride * loc.row)
  }

  /**
    True when `(x - 36) / 54`, computed as a Python float, is an even
    integer: evenness is decided on the float quotient, before truncation.
   */
  predicate ColumnQuotientIsEven(x: int) {
    (x - HalfTile) % (2 * ColumnStride) == 0
  }

  /**
    The partial inverse of `MapLocToPixelPos` used to seed the camera index.
    The column is the truncated quotient `(x - 36) / 54`; the row subtracts
    36 for an even column quotient and truncates `y / 72`, without measuring
    `y` from the top of the window.
   */
  function PixelPosToMapLoc(p: Point): (loc: Loc)
    ensures p.x >= HalfTile ==> ColumnStride * loc.col <= p.x - HalfTile < ColumnStride * loc.col + ColumnStride
    ensures p.x < HalfTile ==> ColumnStride * loc.col - ColumnStride < p.x - HalfTile <= ColumnStride * loc.col
  {
    var col := TruncDiv(p.x - HalfTile, ColumnStride);
    var y := if ColumnQuotientIsEven(p.x) then p.y - HalfTile else p.y;
    Loc(col, TruncDiv(y, RowStride))
  }

  /** The column quotient's evenness agrees with the column's when the position lies on a column. */
  lemma ColumnQuotientParity(c: int)
    ensures ColumnQuotientIsEven(ColumnStride * c + HalfTile) <==> IsEven(c)
  {
    var x := ColumnStride * c + HalfTile;
    assert x - HalfTile == 54 * c;
    if IsEven(c) {
      var k := c / 2;
      assert c == 2 * k;
      assert x - HalfTile == 108 * k;
    } else {
      var k := c / 2;
      assert c == 2 * k + 1;
      assert x - HalfTile == 108 * k + 54;
    }
  }

  /** Every column index, negative ones included, survives the round trip through pixels. */
  lemma ColumnRoundTrip(cfg: Config, loc: Loc)
    ensures PixelPosToMapLoc(MapLocToPixelPos(cfg, loc)).col == loc.col
  {
    var p := MapLocToPixelPos(cfg, loc);
    assert p.x - HalfTile == ColumnStride * loc.col;
    var q := PixelPosToMapLoc(p).col;
    if loc.col >= 0 {
      assert ColumnStride * q <= ColumnStride * loc.col < ColumnStride * q + ColumnStride;
    } else {
      assert ColumnStride * q - ColumnStride < ColumnStride * loc.col <= ColumnStride * q;
    }
  }

  /**
    Once `y` is measured down from the top of the window, every non-negative
    row survives the round trip (`RowNotRecovered` and
    `NegativeRowNotRecovered` show that neither condition can be dropped).
   */
  lemma RowRoundTripFromTop(cfg: Config, loc: Loc)
    requires loc.row >= 0
    ensures var p := MapLocToPixelPos(cfg, loc);
            PixelPosToMapLoc(Point(p.x, cfg.windowHeight - p.y)).row == loc.row
  {
    var p := MapLocToPixelPos(cfg, loc);
    ColumnQuotientParity(loc.col);
    var q := PixelPosToMapLoc(Point(p.x, cfg.windowHeight - p.y));
    if IsEven(loc.col) {
      assert cfg.windowHeight - p.y - HalfTile == HalfTile + RowStride * loc.row;
    } else {
      assert cfg.windowHeight - p.y == HalfTile + RowStride * loc.row;
    }
    assert RowStride * q.row <= HalfTile + RowStride * loc.row < RowStride * q.row + RowStride;
  }

  /**
    The flip does not rescue negative rows: tile (1, -1) is 36 pixels above
    the window top once flipped, and truncation toward zero gives row 0.
   */
  lemma NegativeRowNotRecovered(cfg: Config)
    ensures var p := MapLocToPixelPos(cfg, Loc(1, -1));
            PixelPosToMapLoc(Point(p.x, cfg.windowHeight - p.y)).row == 0
  {
  }

  /**
    Without that flip the row does not round-trip: in a window at least
    108 pixels high, tile (1, 0) comes back with a positive row.
   */
  lemma RowNotRecovered(cfg: Config)
    requires cfg.windowHeight >= 108
    ensures PixelPosToMapLoc(MapLocToPixelPos(cfg, Loc(1, 0))).row > 0
  {
    var p := MapLocToPixelPos(cfg, Loc(1, 0));
    ColumnQuotientParity(1);
    assert p.y == cfg.windowHeight - HalfTile;
  }

  /** Within one row an even column's tile is exactly half a tile lower than an odd column's. */
  lemma StaggeredColumns(cfg: Config, even: int, odd: int, row: int)
    requires IsEven(even) && !IsEven(odd)
    ensures MapLocToPixelPos(cfg, Loc(even, row)).y == MapLocToPixelPos(cfg, Loc(odd, row)).y - HalfTile
  {
  }

  /**
    Moving one row down lowers the tile by exactly one row stride, and one
    column right moves it by exactly one column stride: the strides equal
    the shift thresholds.
   */
  lemma StridesMatchThresholds(cfg: Config, loc: Loc)
    ensures MapLocToPixelPos(cfg, Loc(loc.col, loc.row + 1)).y == MapLocToPixelPos(cfg, loc).y - TileThresholdY
    ensures MapLocToPixelPos(cfg, Loc(loc.col, loc.row + 1)).x == MapLocToPixelPos(cfg, loc).x
    ensures MapLocToPixelPos(cfg, Loc(loc.col + 1, loc.row)).x == MapLocToPixelPos(cfg, loc).x + TileThresholdX
  {
  }

  /** Distinct tiles are drawn at distinct pixel positions. */
  lemma PixelPosInjective(cfg: Config, a: Loc, b: Loc)
    requires MapLocToPixelPos(cfg, a) == MapLocToPixelPos(cfg, b)
    ensures a == b
  {
    ColumnRoundTrip(cfg, a);
    ColumnRoundTrip(cfg, b);
    assert a.col == b.col;
  }
}
