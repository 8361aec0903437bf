/**
  The viewport: the camera offset, the scroll accumulated since the last
  tile shift, the tile window's top-left index and the draw list, and the
  scroll step that keeps the draw list equal to the tile window.
 */
module Viewport {
  import opened Common
  import opened Geometry
  import opened Direction
  import opened Tiles
  import opened DrawList

  /**
    The viewport state: camera pixel offset `camPos`, unconsumed scroll
    `camDelta` (the `cam_dx`/`cam_dy` accumulators), top-left tile index
    `camIdx`, the draw list, and the selection marker's screen position.
   */
  datatype View = View(camPos: Point, camDelta: Point, camIdx: Loc, drawList: seq<Sprite>, selection: Point)

  /** Whether `loc` lies in the `drawX` by `drawY` tile window anchored at `idx`. */
  predicate InWindow(cfg: Config, idx: Loc, loc: Loc) {
    && idx.col <= loc.col < idx.col + cfg.drawX
    && idx.row <= loc.row < idx.row + cfg.drawY
  }

  /**
    The draw list mirrors the tile window: each tile of the window has one
    terrain sprite and, exactly when it has a feature, one feature sprite;
    no sprite stands outside the window.
   */
  ghost predicate WindowExact(cfg: Config, m: GameMap, idx: Loc, dl: seq<Sprite>) {
    forall loc :: LayersAt(dl, loc) == if InWindow(cfg, idx, loc) then ExpectedLayers(m.tileAt(loc)) else multiset{}
  }

  /** The viewport invariant: the draw list mirrors the window and every sprite is where the camera puts it. */
  ghost predicate Consistent(cfg: Config, m: GameMap, v: View) {
    && WindowExact(cfg, m, v.camIdx, v.drawList)
    && Synced(v.drawList, v.camPos)
    && Anchored(cfg, v.drawList)
  }

  /**
    One location's view of a one-column window shift: if `dl` mirrors the
    window at `idx` there, dropping column `leaving` and adding column `entering`
    leaves a list that mirrors the window at `idx'` there.
   */
  lemma ColumnSwapAt(cfg: Config, m: GameMap, idx: Loc, idx': Loc, dl: seq<Sprite>, kept: seq<Sprite>,
                     res: seq<Sprite>, leaving: int, entering: int, loc: Loc)
    requires cfg.Valid() && idx'.row == idx.row
    requires || (idx'.col == idx.col - 1 && leaving == idx.col + cfg.drawX - 1 && entering == idx'.col)
             || (idx'.col == idx.col + 1 && leaving == idx.col && entering == idx'.col + cfg.drawX - 1)
    requires LayersAt(dl, loc) == if InWindow(cfg, idx, loc) then ExpectedLayers(m.tileAt(loc)) else multiset{}
    requires LayersAt(kept, loc) == if loc.col == leaving then multiset{} else LayersAt(dl, loc)
    requires LayersAt(res, loc) == LayersAt(kept, loc) +
      (if loc.col == entering && idx.row <= loc.row < idx.row + cfg.drawY then ExpectedLayers(m.tileAt(loc)) else multiset{})
    ensures LayersAt(res, loc) == if InWindow(cfg, idx', loc) then ExpectedLayers(m.tileAt(loc)) else multiset{}
  {
  }

  /**
    One location's view of a one-row window shift: if `dl` mirrors the
    window at `idx` there, dropping row `leaving` and adding row `entering` leaves a
    list that mirrors the window at `idx'` there.
   */
  lemma RowSwapAt(cfg: Config, m: GameMap, idx: Loc, idx': Loc, dl: seq<Sprite>, kept: seq<Sprite>,
                  res: seq<Sprite>, leaving: int, entering: int, loc: Loc)
    requires cfg.Valid() && idx'.col == idx.col
    requires || (idx'.row == idx.row + 1 && leaving == idx.row && entering == idx'.row + cfg.drawY - 1)
             || (idx'.row == idx.row - 1 && leaving == idx.row + cfg.drawY - 1 && entering == idx'.row)
    requires LayersAt(dl, loc) == if InWindow(cfg, idx, loc) then ExpectedLayers(m.tileAt(loc)) else multiset{}
    requires LayersAt(kept, loc) == if loc.row == leaving then multiset{} else LayersAt(dl, loc)
    requires LayersAt(res, loc) == LayersAt(kept, loc) +
      (if loc.row == entering && idx.col <= loc.col < idx.col + cfg.drawX then ExpectedLayers(m.tileAt(loc)) else multiset{})
    ensures LayersAt(res, loc) == if InWindow(cfg, idx', loc) then ExpectedLayers(m.tileAt(loc)) else multiset{}
  {
  }

  /**
    Replaces one column of the window: drops the sprites of column `leaving`,
    moves the window to `idx`, adds the sprites of column `entering` across the
    window's rows, and stores the accumulator `accX`.
   */
  function SwapColumn(cfg: Config, m: GameMap, v: View, idx: Loc, leaving: int, entering: int, accX: int)
    : (r: Result<View, DrawError>)
    ensures r.Ok? ==> && r.value.camPos == v.camPos && r.value.selection == v.selection
                      && r.value.camIdx == idx && r.value.camDelta == Point(accX, v.camDelta.y)
    ensures Exact(m) ==> r.Ok?
  {
    var kept := RemoveDrawColumn(v.drawList, leaving);
    var dl :- AddDrawColumn(cfg, m, idx, v.camPos, kept, entering);
    Ok(v.(camDelta := Point(accX, v.camDelta.y), camIdx := idx, drawList := dl))
  }

  /**
    Replaces one row of the window: drops the sprites of row `leaving`, moves
    the window to `idx`, adds the sprites of row `entering` across the window's
    columns, and stores the accumulator `accY`.
   */
  function SwapRow(cfg: Config, m: GameMap, v: View, idx: Loc, leaving: int, entering: int, accY: int)
    : (r: Result<View, DrawError>)
    ensures r.Ok? ==> && r.value.camPos == v.camPos && r.value.selection == v.selection
                      && r.value.camIdx == idx && r.value.camDelta == Point(v.camDelta.x, accY)
    ensures Exact(m) ==> r.Ok?
  {
    var kept := RemoveDrawRow(v.drawList, leaving);
    var dl :- AddDrawRow(cfg, m, idx, v.camPos, kept, entering);
    Ok(v.(camDelta := Point(v.camDelta.x, accY), camIdx := idx, drawList := dl))
  }

  /**
    Shifts the window by at most one column: past `+TileThresholdX` the
    window moves one column left (the rightmost column is dropped, a new
    leftmost one added), past `-TileThresholdX` one column right; the
    accumulator moves one threshold back toward zero.
   */
  function ShiftColumns(cfg: Config, m: GameMap, v: View): (r: Result<View, DrawError>)
    ensures r.Ok? ==> && r.value.camPos == v.camPos && r.value.selection == v.selection
                      && r.value.camDelta.y == v.camDelta.y && r.value.camIdx.row == v.camIdx.row
    ensures r.Ok? ==> ShiftedOnce(v.camIdx.col, v.camDelta.x, -1, r.value.camIdx.col, r.value.camDelta.x, TileThresholdX)
    ensures -TileThresholdX <= v.camDelta.x <= TileThresholdX ==> r == Ok(v)
    ensures Exact(m) ==> r.Ok?
  {
    if v.camDelta.x > TileThresholdX then
      SwapColumn(cfg, m, v, Loc(v.camIdx.col - 1, v.camIdx.row), v.camIdx.col + cfg.drawX - 1,
                 v.camIdx.col - 1, v.camDelta.x - TileThresholdX)
    else if v.camDelta.x < -TileThresholdX then
      SwapColumn(cfg, m, v, Loc(v.camIdx.col + 1, v.camIdx.row), v.camIdx.col,
                 v.camIdx.col + 1 + cfg.drawX - 1, v.camDelta.x + TileThresholdX)
    else
      Ok(v)
  }

  /**
    Shifts the window by at most one row: past `+TileThresholdY` the window
    moves one row down (the top row is dropped, a new bottom one added),
    past `-TileThresholdY` one row up; the accumulator moves one threshold
    back toward zero.
   */
  function ShiftRows(cfg: Config, m: GameMap, v: View): (r: Result<View, DrawError>)
    ensures r.Ok? ==> && r.value.camPos == v.camPos && r.value.selection == v.selection
                      && r.value.camDelta.x == v.camDelta.x && r.value.camIdx.col == v.camIdx.col
    ensures r.Ok? ==> ShiftedOnce(v.camIdx.row, v.camDelta.y, 1, r.value.camIdx.row, r.value.camDelta.y, TileThresholdY)
    ensures -TileThresholdY <= v.camDelta.y <= TileThresholdY ==> r == Ok(v)
    ensures Exact(m) ==> r.Ok?
  {
    if v.camDelta.y > TileThresholdY then
      SwapRow(cfg, m, v, Loc(v.camIdx.col, v.camIdx.row + 1), v.camIdx.row,
              v.camIdx.row + 1 + cfg.drawY - 1, v.camDelta.y - TileThresholdY)
    else if v.camDelta.y < -TileThresholdY then
      SwapRow(cfg, m, v, Loc(v.camIdx.col, v.camIdx.row - 1), v.camIdx.row + cfg.drawY - 1,
              v.camIdx.row - 1, v.camDelta.y + TileThresholdY)
    else
      Ok(v)
  }

  /**
    The accumulator `acc` moved the index `idx` at most one step: past
    `+threshold` by `sign`, past `-threshold` by `-sign`, each time giving
    back exactly one threshold; otherwise neither changed.
   */
  predicate ShiftedOnce(idx: int, acc: int, sign: int, idx': int, acc': int, threshold: int) {
    if acc > threshold then idx' == idx + sign && acc' == acc - threshold
    else if acc < -threshold then idx' == idx - sign && acc' == acc + threshold
    else idx' == idx && acc' == acc
  }

  /**
    Swapping a column keeps the viewport invariant when the dropped column
    is the one leaving the window and the added column the one entering it.
   */
  lemma SwapColumnKeepsConsistent(cfg: Config, m: GameMap, v: View, idx: Loc, leaving: int, entering: int, accX: int,
                                res: Result<View, DrawError>)
    requires cfg.Valid() && Exact(m) && idx.row == v.camIdx.row
    requires || (idx.col == v.camIdx.col - 1 && leaving == v.camIdx.col + cfg.drawX - 1 && entering == idx.col)
             || (idx.col == v.camIdx.col + 1 && leaving == v.camIdx.col && entering == idx.col + cfg.drawX - 1)
    requires Consistent(cfg, m, v)
    requires res == SwapColumn(cfg, m, v, idx, leaving, entering, accX)
    ensures res.Ok? && Consistent(cfg, m, res.value)
  {
    SwapColumnKeepsSynced(cfg, m, v, idx, leaving, entering, accX);
    var kept := RemoveDrawColumn(v.drawList, leaving);
    var res := SwapColumn(cfg, m, v, idx, leaving, entering, accX).value.drawList;
    assert res == AddDrawColumn(cfg, m, idx, v.camPos, kept, entering).value;
    forall loc
      ensures LayersAt(res, loc) == if InWindow(cfg, idx, loc) then ExpectedLayers(m.tileAt(loc)) else multiset{}
    {
      RemoveDrawColumnLayers(v.drawList, leaving, loc);
      AddDrawColumnLayers(cfg, m, idx, v.camPos, kept, entering, loc);
      ColumnSwapAt(cfg, m, v.camIdx, idx, v.drawList, kept, res, leaving, entering, loc);
    }
  }

  /**
    Swapping a row keeps the viewport invariant when the dropped row is the
    one leaving the window and the added row the one entering it.
   */
  lemma SwapRowKeepsConsistent(cfg: Config, m: GameMap, v: View, idx: Loc, leaving: int, entering: int, accY: int,
                                res: Result<View, DrawError>)
    requires cfg.Valid() && Exact(m) && idx.col == v.camIdx.col
    requires || (idx.row == v.camIdx.row + 1 && leaving == v.camIdx.row && entering == idx.row + cfg.drawY - 1)
             || (idx.row == v.camIdx.row - 1 && leaving == v.camIdx.row + cfg.drawY - 1 && entering == idx.row)
    requires Consistent(cfg, m, v)
    requires res == SwapRow(cfg, m, v, idx, leaving, entering, accY)
    ensures res.Ok? && Consistent(cfg, m, res.value)
  {
    SwapRowKeepsSynced(cfg, m, v, idx, leaving, entering, accY);
    var kept := RemoveDrawRow(v.drawList, leaving);
    var res := SwapRow(cfg, m, v, idx, leaving, entering, accY).value.drawList;
    assert res == AddDrawRow(cfg, m, idx, v.camPos, kept, entering).value;
    forall loc
      ensures LayersAt(res, loc) == if InWindow(cfg, idx, loc) then ExpectedLayers(m.tileAt(loc)) else multiset{}
    {
      RemoveDrawRowLayers(v.drawList, leaving, loc);
      AddDrawRowLayers(cfg, m, idx, v.camPos, kept, entering, loc);
      RowSwapAt(cfg, m, v.camIdx, idx, v.drawList, kept, res, leaving, entering, loc);
    }
  }

  /** Swapping a column, when it succeeds, keeps every sprite where the camera puts it. */
  lemma SwapColumnKeepsSynced(cfg: Config, m: GameMap, v: View, idx: Loc, leaving: int, entering: int, accX: int)
    requires SwapColumn(cfg, m, v, idx, leaving, entering, accX).Ok?
    ensures Synced(v.drawList, v.camPos) ==> Synced(SwapColumn(cfg, m, v, idx, leaving, entering, accX).value.drawList, v.camPos)
    ensures Anchored(cfg, v.drawList) ==> Anchored(cfg, SwapColumn(cfg, m, v, idx, leaving, entering, accX).value.drawList)
  {
    var kept := RemoveDrawColumn(v.drawList, leaving);
    AddDrawColumnKeeps(cfg, m, idx, v.camPos, kept, entering);
    assert SwapColumn(cfg, m, v, idx, leaving, entering, accX).value.drawList == AddDrawColumn(cfg, m, idx, v.camPos, kept, entering).value;
  }

  /** Swapping a row, when it succeeds, keeps every sprite where the camera puts it. */
  lemma SwapRowKeepsSynced(cfg: Config, m: GameMap, v: View, idx: Loc, leaving: int, entering: int, accY: int)
    requires SwapRow(cfg, m, v, idx, leaving, entering, accY).Ok?
    ensures Synced(v.drawList, v.camPos) ==> Synced(SwapRow(cfg, m, v, idx, leaving, entering, accY).value.drawList, v.camPos)
    ensures Anchored(cfg, v.drawList) ==> Anchored(cfg, SwapRow(cfg, m, v, idx, leaving, entering, accY).value.drawList)
  {
    var kept := RemoveDrawRow(v.drawList, leaving);
    AddDrawRowKeeps(cfg, m, idx, v.camPos, kept, entering);
    assert SwapRow(cfg, m, v, idx, leaving, entering, accY).value.drawList == AddDrawRow(cfg, m, idx, v.camPos, kept, entering).value;
  }

  /** Past `+TileThresholdX` the window moves one column left and keeps the invariant. */
  lemma ShiftColumnsLeftKeepsConsistent(cfg: Config, m: GameMap, v: View)
    requires cfg.Valid() && Exact(m) && Consistent(cfg, m, v)
    requires v.camDelta.x > TileThresholdX
    ensures ShiftColumns(cfg, m, v).Ok? && Consistent(cfg, m, ShiftColumns(cfg, m, v).value)
  {
    var idx, leaving, entering, accX := Loc(v.camIdx.col - 1, v.camIdx.row), v.camIdx.col + cfg.drawX - 1,
                                        v.camIdx.col - 1, v.camDelta.x - TileThresholdX;
    assert ShiftColumns(cfg, m, v) == SwapColumn(cfg, m, v, idx, leaving, entering, accX);
    SwapColumnKeepsConsistent(cfg, m, v, idx, leaving, entering, accX, ShiftColumns(cfg, m, v));
  }

  /** Past `-TileThresholdX` the window moves one column right and keeps the invariant. */
  lemma ShiftColumnsRightKeepsConsistent(cfg: Config, m: GameMap, v: View)
    requires cfg.Valid() && Exact(m) && Consistent(cfg, m, v)
    requires v.camDelta.x < -TileThresholdX
    ensures ShiftColumns(cfg, m, v).Ok? && Consistent(cfg, m, ShiftColumns(cfg, m, v).value)
  {
    var idx, leaving, entering, accX := Loc(v.camIdx.col + 1, v.camIdx.row), v.camIdx.col,
                                        v.camIdx.col + 1 + cfg.drawX - 1, v.camDelta.x + TileThresholdX;
    assert ShiftColumns(cfg, m, v) == SwapColumn(cfg, m, v, idx, leaving, entering, accX);
    SwapColumnKeepsConsistent(cfg, m, v, idx, leaving, entering, accX, ShiftColumns(cfg, m, v));
  }

  /** Past `+TileThresholdY` the window moves one row down and keeps the invariant. */
  lemma ShiftRowsDownKeepsConsistent(cfg: Config, m: GameMap, v: View)
    requires cfg.Valid() && Exact(m) && Consistent(cfg, m, v)
    requires v.camDelta.y > TileThresholdY
    ensures ShiftRows(cfg, m, v).Ok? && Consistent(cfg, m, ShiftRows(cfg, m, v).value)
  {
    var idx, leaving, entering, accY := Loc(v.camIdx.col, v.camIdx.row + 1), v.camIdx.row,
                                        v.camIdx.row + 1 + cfg.drawY - 1, v.camDelta.y - TileThresholdY;
    assert ShiftRows(cfg, m, v) == SwapRow(cfg, m, v, idx, leaving, entering, accY);
    SwapRowKeepsConsistent(cfg, m, v, idx, leaving, entering, accY, ShiftRows(cfg, m, v));
  }

  /** Past `-TileThresholdY` the window moves one row up and keeps the invariant. */
  lemma ShiftRowsUpKeepsConsistent(cfg: Config, m: GameMap, v: View)
    requires cfg.Valid() && Exact(m) && Consistent(cfg, m, v)
    requires v.camDelta.y < -TileThresholdY
    ensures ShiftRows(cfg, m, v).Ok? && Consistent(cfg, m, ShiftRows(cfg, m, v).value)
  {
    var idx, leaving, entering, accY := Loc(v.camIdx.col, v.camIdx.row - 1), v.camIdx.row + cfg.drawY - 1,
                                        v.camIdx.row - 1, v.camDelta.y + TileThresholdY;
    assert ShiftRows(cfg, m, v) == SwapRow(cfg, m, v, idx, leaving, entering, accY);
    SwapRowKeepsConsistent(cfg, m, v, idx, leaving, entering, accY, ShiftRows(cfg, m, v));
  }

  /** A column shift keeps the viewport invariant: the draw list mirrors the shifted window. */
  lemma ShiftColumnsKeepsConsistent(cfg: Config, m: GameMap, v: View)
    requires cfg.Valid() && Exact(m)
    requires Consistent(cfg, m, v)
    ensures ShiftColumns(cfg, m, v).Ok?
    ensures Consistent(cfg, m, ShiftColumns(cfg, m, v).value)
  {
    if v.camDelta.x > TileThresholdX {
      ShiftColumnsLeftKeepsConsistent(cfg, m, v);
    } else if v.camDelta.x < -TileThresholdX {
      ShiftColumnsRightKeepsConsistent(cfg, m, v);
    } else {
      assert ShiftColumns(cfg, m, v) == Ok(v);
    }
  }

  /** A row shift keeps the viewport invariant: the draw list mirrors the shifted window. */
  lemma ShiftRowsKeepsConsistent(cfg: Config, m: GameMap, v: View)
    requires cfg.Valid() && Exact(m)
    requires Consistent(cfg, m, v)
    ensures ShiftRows(cfg, m, v).Ok?
    ensures Consistent(cfg, m, ShiftRows(cfg, m, v).value)
  {
    if v.camDelta.y > TileThresholdY {
      ShiftRowsDownKeepsConsistent(cfg, m, v);
    } else if v.camDelta.y < -TileThresholdY {
      ShiftRowsUpKeepsConsistent(cfg, m, v);
    } else {
      assert ShiftRows(cfg, m, v) == Ok(v);
    }
  }

  /** A column shift, when it succeeds, keeps every sprite where the camera puts it. */
  lemma ShiftColumnsKeepsSynced(cfg: Config, m: GameMap, v: View)
    requires ShiftColumns(cfg, m, v).Ok?
    ensures Synced(v.drawList, v.camPos) ==> Synced(ShiftColumns(cfg, m, v).value.drawList, v.camPos)
    ensures Anchored(cfg, v.drawList) ==> Anchored(cfg, ShiftColumns(cfg, m, v).value.drawList)
  {
    if v.camDelta.x > TileThresholdX {
      SwapColumnKeepsSynced(cfg, m, v, Loc(v.camIdx.col - 1, v.camIdx.row), v.camIdx.col + cfg.drawX - 1,
                 v.camIdx.col - 1, v.camDelta.x - TileThresholdX);
    } else if v.camDelta.x < -TileThresholdX {
      SwapColumnKeepsSynced(cfg, m, v, Loc(v.camIdx.col + 1, v.camIdx.row), v.camIdx.col,
                 v.camIdx.col + 1 + cfg.drawX - 1, v.camDelta.x + TileThresholdX);
    }
  }

  /** A row shift, when it succeeds, keeps every sprite where the camera puts it. */
  lemma ShiftRowsKeepsSynced(cfg: Config, m: GameMap, v: View)
    requires ShiftRows(cfg, m, v).Ok?
    ensures Synced(v.drawList, v.camPos) ==> Synced(ShiftRows(cfg, m, v).value.drawList, v.camPos)
    ensures Anchored(cfg, v.drawList) ==> Anchored(cfg, ShiftRows(cfg, m, v).value.drawList)
  {
    if v.camDelta.y > TileThresholdY {
      SwapRowKeepsSynced(cfg, m, v, Loc(v.camIdx.col, v.camIdx.row + 1), v.camIdx.row,
                 v.camIdx.row + 1 + cfg.drawY - 1, v.camDelta.y - TileThresholdY);
    } else if v.camDelta.y < -TileThresholdY {
      SwapRowKeepsSynced(cfg, m, v, Loc(v.camIdx.col, v.camIdx.row - 1), v.camIdx.row + cfg.drawY - 1,
                 v.camIdx.row - 1, v.camDelta.y + TileThresholdY);
    }
  }

  /** The viewport after the camera moved by one tick's displacement, before any tile shift. */
  function Move(cfg: Config, v: View, d: DiagDir): (r: View)
    ensures r.camPos == Point(v.camPos.x + cfg.scrollSpeed * Horizontal(d), v.camPos.y - cfg.scrollSpeed * Vertical(d))
    ensures r.camDelta == Point(v.camDelta.x - cfg.scrollSpeed * Horizontal(d), v.camDelta.y - cfg.scrollSpeed * Vertical(d))
    ensures r.selection == Point(v.selection.x - cfg.scrollSpeed * Horizontal(d), v.selection.y - cfg.scrollSpeed * Vertical(d))
    ensures r.camIdx == v.camIdx
    ensures Synced(r.drawList, r.camPos)
    ensures forall loc :: LayersAt(r.drawList, loc) == LayersAt(v.drawList, loc)
  {
    var delta := ScrollDelta(cfg, d);
    var cam := Point(v.camPos.x + delta.x, v.camPos.y - delta.y);
    View(cam,
         Point(v.camDelta.x - delta.x, v.camDelta.y - delta.y),
         v.camIdx,
         Reposition(v.drawList, cam),
         Point(v.selection.x - delta.x, v.selection.y - delta.y))
  }

  /**
    One scroll tick in direction `d`: the camera moves by the tick's
    displacement (y against it), every sprite and the selection marker
    follow, the displacement is subtracted from the accumulators, and the
    window then shifts by at most one column and at most one row.
   */
  function Scroll(cfg: Config, m: GameMap, v: View, d: DiagDir): (r: Result<View, DrawError>)
    ensures r.Ok? ==>
      r.value.camPos == Point(v.camPos.x + cfg.scrollSpeed * Horizontal(d), v.camPos.y - cfg.scrollSpeed * Vertical(d))
    ensures r.Ok? ==>
      r.value.selection == Point(v.selection.x - cfg.scrollSpeed * Horizontal(d), v.selection.y - cfg.scrollSpeed * Vertical(d))
    ensures r.Ok? ==> ShiftedOnce(v.camIdx.col, v.camDelta.x - cfg.scrollSpeed * Horizontal(d),
                                  -1, r.value.camIdx.col, r.value.camDelta.x, TileThresholdX)
    ensures r.Ok? ==> ShiftedOnce(v.camIdx.row, v.camDelta.y - cfg.scrollSpeed * Vertical(d),
                                  1, r.value.camIdx.row, r.value.camDelta.y, TileThresholdY)
    ensures Exact(m) ==> r.Ok?
  {
    var moved := Move(cfg, v, d);
    var shifted :- ShiftColumns(cfg, m, moved);
    ShiftRows(cfg, m, shifted)
  }

  /** A scroll tick keeps the viewport invariant: the draw list still mirrors the moved tile window. */
  lemma ScrollKeepsConsistent(cfg: Config, m: GameMap, v: View, d: DiagDir)
    requires cfg.Valid() && Exact(m)
    requires Consistent(cfg, m, v)
    ensures Scroll(cfg, m, v, d).Ok?
    ensures Consistent(cfg, m, Scroll(cfg, m, v, d).value)
  {
    var moved := Move(cfg, v, d);
    RepositionAnchored(cfg, v.drawList, moved.camPos);
    assert Consistent(cfg, m, moved);
    ShiftColumnsKeepsConsistent(cfg, m, moved);
    ShiftRowsKeepsConsistent(cfg, m, ShiftColumns(cfg, m, moved).value);
  }

  /**
    After a successful scroll tick every sprite of the draw list, those just
    added included, sits at its map-space pixel position offset by the new
    camera, and keeps its map-space position.
   */
  lemma ScrollKeepsSynced(cfg: Config, m: GameMap, v: View, d: DiagDir)
    ensures Scroll(cfg, m, v, d).Ok? ==>
      Synced(Scroll(cfg, m, v, d).value.drawList, Scroll(cfg, m, v, d).value.camPos)
    ensures Scroll(cfg, m, v, d).Ok? && Anchored(cfg, v.drawList) ==>
      Anchored(cfg, Scroll(cfg, m, v, d).value.drawList)
  {
    if Scroll(cfg, m, v, d).Ok? {
      var moved := Move(cfg, v, d);
      if Anchored(cfg, v.drawList) {
        RepositionAnchored(cfg, v.drawList, moved.camPos);
      }
      ShiftColumnsKeepsSynced(cfg, m, moved);
      var shifted := ShiftColumns(cfg, m, moved).value;
      ShiftRowsKeepsSynced(cfg, m, shifted);
    }
  }

  /**
    With a speed of at most one column stride, the accumulators never drift:
    they stay within one threshold of zero, so the window keeps up with the
    camera even though each tick shifts at most once per axis.
   */
  lemma ScrollKeepsAccumulatorsBounded(cfg: Config, m: GameMap, v: View, d: DiagDir)
    requires cfg.Valid() && cfg.scrollSpeed <= TileThresholdX
    requires -TileThresholdX <= v.camDelta.x <= TileThresholdX
    requires -TileThresholdY <= v.camDelta.y <= TileThresholdY
    ensures Scroll(cfg, m, v, d).Ok? ==>
      var r := Scroll(cfg, m, v, d).value;
      -TileThresholdX <= r.camDelta.x <= TileThresholdX && -TileThresholdY <= r.camDelta.y <= TileThresholdY
  {
    var ax := v.camDelta.x - cfg.scrollSpeed * Horizontal(d);
    var ay := v.camDelta.y - cfg.scrollSpeed * Vertical(d);
    assert -2 * TileThresholdX <= ax <= 2 * TileThresholdX;
    assert -TileThresholdY - TileThresholdX <= ay <= TileThresholdY + TileThresholdX;
  }

  /** With a synced draw list and accumulators within threshold, scrolling in no direction changes nothing. */
  lemma IdleScrollIsIdentity(cfg: Config, m: GameMap, v: View)
    requires Synced(v.drawList, v.camPos)
    requires -TileThresholdX <= v.camDelta.x <= TileThresholdX
    requires -TileThresholdY <= v.camDelta.y <= TileThresholdY
    ensures Scroll(cfg, m, v, NoDir) == Ok(v)
  {
    assert Move(cfg, v, NoDir) == v;
  }

  /**
    The camera index the window starts from: two columns left of the index
    under the camera when that is more than 1, one row up when that is more
    than 0, so the window can scroll seamlessly either way from the start.
   */
  function Nudge(idx: Loc): (r: Loc)
    ensures idx.col >= 0 ==> r.col >= 0
    ensures idx.row >= 0 ==> r.row >= 0
    ensures r.col < idx.col <==> idx.col > 1
    ensures r.row < idx.row <==> idx.row > 0
    ensures r.col == idx.col || r.col == idx.col - 2
    ensures r.row == idx.row || r.row == idx.row - 1
  {
    Loc(if idx.col > 1 then idx.col - 2 else idx.col,
        if idx.row > 0 then idx.row - 1 else idx.row)
  }

  /** Adds columns `lo .. hi - 1` of the window anchored at `idx`, in order. */
  function Populate(cfg: Config, m: GameMap, idx: Loc, cam: Point, dl: seq<Sprite>, lo: int, hi: int)
    : (r: Result<seq<Sprite>, DrawError>)
    ensures Exact(m) ==> r.Ok?
    decreases hi - lo
  {
    if lo >= hi then Ok(dl)
    else
      var next :- AddDrawColumn(cfg, m, idx, cam, dl, lo);
      Populate(cfg, m, idx, cam, next, lo + 1, hi)
  }

  /** Populating keeps every sprite, old and new, where the camera and the map put it. */
  lemma {:induction false} PopulateKeeps(cfg: Config, m: GameMap, idx: Loc, cam: Point, dl: seq<Sprite>,
                                         lo: int, hi: int)
    requires Populate(cfg, m, idx, cam, dl, lo, hi).Ok?
    ensures Synced(dl, cam) ==> Synced(Populate(cfg, m, idx, cam, dl, lo, hi).value, cam)
    ensures Anchored(cfg, dl) ==> Anchored(cfg, Populate(cfg, m, idx, cam, dl, lo, hi).value)
    decreases hi - lo
  {
    if lo < hi {
      AddDrawColumnKeeps(cfg, m, idx, cam, dl, lo);
      var next := AddDrawColumn(cfg, m, idx, cam, dl, lo).value;
      PopulateKeeps(cfg, m, idx, cam, next, lo + 1, hi);
    }
  }

  /** On an exact map, populating adds exactly the sprites of the window tiles in the populated columns. */
  lemma {:induction false} PopulateLayers(cfg: Config, m: GameMap, idx: Loc, cam: Point, dl: seq<Sprite>,
                                          lo: int, hi: int, loc: Loc)
    requires Exact(m)
    ensures Populate(cfg, m, idx, cam, dl, lo, hi).Ok?
    ensures LayersAt(Populate(cfg, m, idx, cam, dl, lo, hi).value, loc) == LayersAt(dl, loc) +
      (if lo <= loc.col < hi && idx.row <= loc.row < idx.row + cfg.drawY then ExpectedLayers(m.tileAt(loc)) else multiset{})
    decreases hi - lo
  {
    if lo < hi {
      AddDrawColumnLayers(cfg, m, idx, cam, dl, lo, loc);
      var next := AddDrawColumn(cfg, m, idx, cam, dl, lo).value;
      PopulateLayers(cfg, m, idx, cam, next, lo + 1, hi, loc);
    }
  }

  /** The selection marker's starting position, well off screen. */
  const HiddenSelection: Point := Point(-5000, -5000)

  /**
    The starting viewport for a camera placed at `camPos`: no accumulated
    scroll, the window index derived from the camera and nudged, and the
    window's columns added up to the last column of the map.
   */
  function Init(cfg: Config, m: GameMap, camPos: Point): (r: Result<View, DrawError>)
    ensures r.Ok? ==> r.value.camPos == camPos && r.value.camDelta == Point(0, 0)
    ensures r.Ok? ==> r.value.camIdx == Nudge(PixelPosToMapLoc(camPos))
    ensures r.Ok? ==> r.value.selection == HiddenSelection
    ensures Exact(m) ==> r.Ok?
  {
    var idx := Nudge(PixelPosToMapLoc(camPos));
    var end := if idx.col + cfg.drawX < m.columnCount then idx.col + cfg.drawX else m.columnCount;
    var dl :- Populate(cfg, m, idx, camPos, [], idx.col, end);
    Ok(View(camPos, Point(0, 0), idx, dl, HiddenSelection))
  }

  /** Every sprite of a starting viewport stands where the camera and the map put it. */
  lemma InitSynced(cfg: Config, m: GameMap, camPos: Point)
    requires Init(cfg, m, camPos).Ok?
    ensures Synced(Init(cfg, m, camPos).value.drawList, camPos)
    ensures Anchored(cfg, Init(cfg, m, camPos).value.drawList)
  {
    var idx := Nudge(PixelPosToMapLoc(camPos));
    var end := if idx.col + cfg.drawX < m.columnCount then idx.col + cfg.drawX else m.columnCount;
    PopulateKeeps(cfg, m, idx, camPos, [], idx.col, end);
  }

  /** When the map is wide enough for the whole window, the starting viewport satisfies the invariant. */
  lemma InitConsistent(cfg: Config, m: GameMap, camPos: Point)
    requires cfg.Valid() && Exact(m)
    requires Nudge(PixelPosToMapLoc(camPos)).col + cfg.drawX <= m.columnCount
    ensures Init(cfg, m, camPos).Ok?
    ensures Consistent(cfg, m, Init(cfg, m, camPos).value)
  {
    var idx := Nudge(PixelPosToMapLoc(camPos));
    var v := Init(cfg, m, camPos).value;
    InitSynced(cfg, m, camPos);
    assert v.drawList == Populate(cfg, m, idx, camPos, [], idx.col, idx.col + cfg.drawX).value;
    forall loc
      ensures LayersAt(v.drawList, loc) == if InWindow(cfg, idx, loc) then ExpectedLayers(m.tileAt(loc)) else multiset{}
    {
      PopulateLayers(cfg, m, idx, camPos, [], idx.col, idx.col + cfg.drawX, loc);
    }
  }
}
