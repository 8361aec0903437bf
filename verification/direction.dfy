/**
  The scroll controller: classifying a pointer (or a sprite) against the
  edges of the map display, and turning a direction into a per-tick
  displacement.
 */
module Direction {
  import opened Geometry

  /** The eight compass directions plus "no scrolling". */
  datatype DiagDir = NoDir | Up | Down | Left | Right | UL | UR | DL | DR

  /** Horizontal component of a direction: -1 leftward, 1 rightward, 0 neither. */
  function Horizontal(d: DiagDir): int {
    match d
    case Left | UL | DL => -1
    case Right | UR | DR => 1
    case _ => 0
  }

  /** Vertical component of a direction: 1 upward, -1 downward, 0 neither. */
  function Vertical(d: DiagDir): int {
    match d
    case Up | UL | UR => 1
    case Down | DL | DR => -1
    case _ => 0
  }

  /** The direction with the given horizontal and vertical components. */
  function Compose(h: int, v: int): (d: DiagDir)
    requires -1 <= h <= 1 && -1 <= v <= 1
    ensures Horizontal(d) == h && Vertical(d) == v
  {
    if h < 0 then (if v < 0 then DL else if v > 0 then UL else Left)
    else if h > 0 then (if v < 0 then DR else if v > 0 then UR else Right)
    else if v < 0 then Down
    else if v > 0 then Up
    else NoDir
  }

  /** A direction is determined by its two components. */
  lemma ComposeComponents(d: DiagDir)
    ensures Compose(Horizontal(d), Vertical(d)) == d
  {
  }

  /** Which side of the band `[lo, hi]` a coordinate falls on; the low side takes priority. */
  function Side(v: int, lo: int, hi: int): (s: int)
    ensures -1 <= s <= 1
    ensures s == -1 <==> v < lo
    ensures s == 1 <==> lo <= v && hi < v
  {
    if v < lo then -1 else if v > hi then 1 else 0
  }

  /**
    The direction to scroll for a pointer at `(x, y)`: nothing right of the
    map display, otherwise toward every edge the pointer is within the
    scroll margin of, the left edge taking priority over the right and the
    bottom over the top.
   */
  function DetermineScrollDir(cfg: Config, x: int, y: int): (d: DiagDir)
    ensures x > cfg.mapDisplayWidth ==> d == NoDir
    ensures x <= cfg.mapDisplayWidth ==>
      Horizontal(d) == Side(x, cfg.scrollMargin, cfg.mapDisplayWidth - cfg.scrollMargin)
    ensures x <= cfg.mapDisplayWidth ==>
      Vertical(d) == Side(y, cfg.scrollMargin, cfg.windowHeight - cfg.scrollMargin)
  {
    var w := cfg.mapDisplayWidth;
    var h := cfg.windowHeight;
    var m := cfg.scrollMargin;
    if x > w then NoDir
    else if x < m then
      (if y < m then DL else if y > h - m then UL else Left)
    else if x > w - m then
      (if y < m then DR else if y > h - m then UR else Right)
    else if y < m then Down
    else if y > h - m then Up
    else NoDir
  }

  /** A pointer inside the map display and clear of every margin does not scroll. */
  lemma InteriorPointerIsIdle(cfg: Config, x: int, y: int)
    requires cfg.scrollMargin <= x <= cfg.mapDisplayWidth - cfg.scrollMargin
    requires cfg.scrollMargin <= y <= cfg.windowHeight - cfg.scrollMargin
    ensures DetermineScrollDir(cfg, x, y) == NoDir
  {
    ComposeComponents(DetermineScrollDir(cfg, x, y));
  }

  /** In the bottom-left corner of the map display the pointer scrolls down-left. */
  lemma CornerPointerIsDownLeft(cfg: Config, x: int, y: int)
    requires x < cfg.scrollMargin && y < cfg.scrollMargin
    requires x <= cfg.mapDisplayWidth
    ensures DetermineScrollDir(cfg, x, y) == DL
  {
    ComposeComponents(DetermineScrollDir(cfg, x, y));
  }

  /** How far outside the window a sprite must be before it counts as offscreen. */
  const OffMargin: int := 36

  /**
    Which way a sprite at `(x, y)` lies outside the map display widened by
    36 pixels on every side, or `NoDir` when it is on screen.
   */
  function WhereOffscreen(cfg: Config, x: int, y: int): (d: DiagDir)
    ensures Horizontal(d) == Side(x, -OffMargin, cfg.mapDisplayWidth + OffMargin)
    ensures Vertical(d) == Side(y, -OffMargin, cfg.windowHeight + OffMargin)
  {
    var w := cfg.mapDisplayWidth;
    var h := cfg.windowHeight;
    if x < -OffMargin then
      (if y < -OffMargin then DL else if y > h + OffMargin then UL else Left)
    else if x > w + OffMargin then
      (if y < -OffMargin then DR else if y > h + OffMargin then UR else Right)
    else if y < -OffMargin then Down
    else if y > h + OffMargin then Up
    else NoDir
  }

  /** A sprite is offscreen exactly when it lies beyond the widened display on some side. */
  function IsOffscreen(cfg: Config, x: int, y: int): (off: bool)
    ensures off <==>
      x < -OffMargin || x > cfg.mapDisplayWidth + OffMargin ||
      y < -OffMargin || y > cfg.windowHeight + OffMargin
  {
    var d := WhereOffscreen(cfg, x, y);
    ComposeComponents(d);
    d != NoDir
  }

  /**
    The displacement `(dx, dy)` one scroll tick applies for direction `d`:
    `scrollSpeed` pixels along each component of the direction.
   */
  function ScrollDelta(cfg: Config, d: DiagDir): (delta: Point)
    ensures delta.x == cfg.scrollSpeed * Horizontal(d)
    ensures delta.y == cfg.scrollSpeed * Vertical(d)
  {
    var dx := if d == Left || d == UL || d == DL then -cfg.scrollSpeed
              else if d == Right || d == UR || d == DR then cfg.scrollSpeed
              else 0;
    var dy := if d == Up || d == UL || d == UR then cfg.scrollSpeed
              else if d == Down || d == DR || d == DL then -cfg.scrollSpeed
              else 0;
    Point(dx, dy)
  }

  /** With a positive speed, only `NoDir` leaves the camera still. */
  lemma ScrollDeltaIdle(cfg: Config, d: DiagDir)
    requires cfg.Valid()
    ensures ScrollDelta(cfg, d) == Point(0, 0) <==> d == NoDir
  {
    ComposeComponents(d);
  }
}
