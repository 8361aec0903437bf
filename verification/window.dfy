/**
  The game window's event handlers as state transitions: the per-tick
  update, pointer motion and exit, key presses (turn counter and FPS
  toggle) and the mouse press that selects the tile nearest the pointer.
 */
module Window {
  import opened Common
  import opened Geometry
  import opened Direction
  import opened Tiles
  import opened DrawList
  import opened Viewport

  /** The keys the window reacts to; every other key is ignored. */
  datatype Key = Grave | Space | OtherKey(code: int)

  /**
    The window state: the viewport, the current scroll direction, the turn
    number, whether the FPS counter is shown, the selected tile (none
    before the first click) and the text of the terrain label.
   */
  datatype GameState = GameState(
    view: View,
    scrollDir: DiagDir,
    turn: int,
    showFps: bool,
    selected: Option<MapTile>,
    terrainLabel: string)

  /** Why a mouse press could not complete. */
  datatype PressError =
    | NothingPicked      // no sprite lies closer than the sentinel distance
    | MissingLabelField  // the unlisted-terrain branch writes to a field that does not exist

  /** The turn a new game starts on. */
  const FirstTurn: int := 1

  /** The terrain label's text before anything is selected. */
  const NoTerrainLabel: string := "Terrain: None"

  /**
    The starting window for a camera placed at `camPos`: turn 1, the FPS
    counter shown, no scrolling and nothing selected.
   */
  function Start(cfg: Config, m: GameMap, camPos: Point): (r: Result<GameState, DrawError>)
    ensures r.Ok? ==> r.value.turn == FirstTurn && r.value.showFps && r.value.scrollDir == NoDir
    ensures r.Ok? ==> r.value.selected == None && r.value.view.selection == HiddenSelection
    ensures Exact(m) ==> r.Ok?
  {
    var v :- Init(cfg, m, camPos);
    Ok(GameState(v, NoDir, FirstTurn, true, None, NoTerrainLabel))
  }

  /** A new game on an exact map wide enough for the window starts with the viewport invariant. */
  lemma StartConsistent(cfg: Config, m: GameMap, camPos: Point)
    requires cfg.Valid() && Exact(m)
    requires Nudge(PixelPosToMapLoc(camPos)).col + cfg.drawX <= m.columnCount
    ensures Start(cfg, m, camPos).Ok?
    ensures Consistent(cfg, m, Start(cfg, m, camPos).value.view)
  {
    InitConsistent(cfg, m, camPos);
  }

  /** One clock tick: scroll in the current direction, or do nothing when there is none. */
  function Update(cfg: Config, m: GameMap, g: GameState): (r: Result<GameState, DrawError>)
    ensures g.scrollDir == NoDir ==> r == Ok(g)
    ensures r.Ok? ==> && r.value.scrollDir == g.scrollDir && r.value.turn == g.turn
                      && r.value.showFps == g.showFps && r.value.selected == g.selected
                      && r.value.terrainLabel == g.terrainLabel
    ensures Exact(m) ==> r.Ok?
  {
    if g.scrollDir == NoDir then Ok(g)
    else
      var v :- Scroll(cfg, m, g.view, g.scrollDir);
      Ok(g.(view := v))
  }

  /** Ticks keep the viewport invariant on an exact map. */
  lemma UpdateKeepsConsistent(cfg: Config, m: GameMap, g: GameState)
    requires cfg.Valid() && Exact(m)
    requires Consistent(cfg, m, g.view)
    ensures Update(cfg, m, g).Ok?
    ensures Consistent(cfg, m, Update(cfg, m, g).value.view)
  {
    if g.scrollDir != NoDir {
      ScrollKeepsConsistent(cfg, m, g.view, g.scrollDir);
      assert Update(cfg, m, g).value.view == Scroll(cfg, m, g.view, g.scrollDir).value;
    }
  }

  /** Pointer motion picks the scroll direction for the pointer's position; nothing else changes. */
  function OnMouseMotion(cfg: Config, g: GameState, x: int, y: int): (r: GameState)
    ensures x > cfg.mapDisplayWidth ==> r.scrollDir == NoDir
    ensures x <= cfg.mapDisplayWidth ==>
      && Horizontal(r.scrollDir) == Side(x, cfg.scrollMargin, cfg.mapDisplayWidth - cfg.scrollMargin)
      && Vertical(r.scrollDir) == Side(y, cfg.scrollMargin, cfg.windowHeight - cfg.scrollMargin)
    ensures r.view == g.view && r.turn == g.turn && r.showFps == g.showFps
    ensures r.selected == g.selected && r.terrainLabel == g.terrainLabel
  {
    g.(scrollDir := DetermineScrollDir(cfg, x, y))
  }

  /** The pointer leaving the window stops scrolling; nothing else changes. */
  function OnMouseLeave(g: GameState): (r: GameState)
    ensures r.scrollDir == NoDir
    ensures r.view == g.view && r.turn == g.turn && r.showFps == g.showFps
    ensures r.selected == g.selected && r.terrainLabel == g.terrainLabel
  {
    g.(scrollDir := NoDir)
  }

  /** After the pointer moves over the side panel, a tick leaves the window exactly as it is. */
  lemma PanelPointerFreezesView(cfg: Config, m: GameMap, g: GameState, x: int, y: int)
    requires x > cfg.mapDisplayWidth
    ensures Update(cfg, m, OnMouseMotion(cfg, g, x, y)) == Ok(OnMouseMotion(cfg, g, x, y))
    ensures OnMouseMotion(cfg, g, x, y).view == g.view
  {
  }

  /** After the pointer leaves the window, ticks leave it exactly as it is. */
  lemma LeftWindowFreezesView(cfg: Config, m: GameMap, g: GameState)
    ensures Update(cfg, m, OnMouseLeave(g)) == Ok(OnMouseLeave(g))
  {
  }

  /** A key press: the grave key toggles the FPS counter, space ends the turn, other keys do nothing. */
  function OnKeyPress(g: GameState, k: Key): (r: GameState)
    ensures r.view == g.view && r.scrollDir == g.scrollDir
    ensures r.selected == g.selected && r.terrainLabel == g.terrainLabel
    ensures r.turn == g.turn + (if k == Space then 1 else 0)
    ensures r.showFps == (if k == Grave then !g.showFps else g.showFps)
  {
    match k
    case Grave => g.(showFps := !g.showFps)
    case Space => g.(turn := g.turn + 1)
    case OtherKey(_) => g
  }

  /** The state after pressing `keys` in order. */
  function PressAll(g: GameState, keys: seq<Key>): GameState
    decreases |keys|
  {
    if |keys| == 0 then g else PressAll(OnKeyPress(g, keys[0]), keys[1..])
  }

  /** How many times `k` occurs in `keys`. */
  function Occurrences(keys: seq<Key>, k: Key): nat {
    if |keys| == 0 then 0 else (if keys[0] == k then 1 else 0) + Occurrences(keys[1..], k)
  }

  /**
    After any sequence of key presses the turn has advanced by the number of
    spaces, the FPS counter is toggled exactly when the number of grave
    presses is odd, and the viewport and selection are untouched.
   */
  lemma {:induction false} PressAllEffect(g: GameState, keys: seq<Key>)
    ensures PressAll(g, keys).turn == g.turn + Occurrences(keys, Space)
    ensures PressAll(g, keys).showFps == (if Occurrences(keys, Grave) % 2 == 1 then !g.showFps else g.showFps)
    ensures PressAll(g, keys).view == g.view && PressAll(g, keys).selected == g.selected
    decreases |keys|
  {
    if |keys| > 0 {
      PressAllEffect(OnKeyPress(g, keys[0]), keys[1..]);
    }
  }

  /** Key presses never take the turn below where it started. */
  lemma TurnNeverDecreases(g: GameState, keys: seq<Key>)
    ensures PressAll(g, keys).turn >= g.turn
  {
    PressAllEffect(g, keys);
  }

  /** Squared pixel distance between a sprite's screen position and the pointer. */
  function DistSq(s: Sprite, x: int, y: int): nat {
    (s.x - x) * (s.x - x) + (s.y - y) * (s.y - y)
  }

  /** The distance the search starts from: sprites this far away or farther are never picked. */
  const NoHitDistance: int := 5000000

  /** The starting distance, squared. */
  const NoHitDistSq: nat := NoHitDistance * NoHitDistance

  /** The squared distances from the pointer to the sprites of `dl`, in order. */
  function Distances(dl: seq<Sprite>, x: int, y: int): (ds: seq<nat>)
    ensures |ds| == |dl|
    ensures forall i :: 0 <= i < |dl| ==> ds[i] == DistSq(dl[i], x, y)
  {
    seq(|dl|, i requires 0 <= i < |dl| => DistSq(dl[i], x, y))
  }

  /** `k` is the first position of `ds` holding its least value. */
  predicate IsFirstMin(ds: seq<int>, k: nat) {
    && k < |ds|
    && (forall i :: 0 <= i < |ds| ==> ds[k] <= ds[i])
    && (forall i :: 0 <= i < k ==> ds[k] < ds[i])
  }

  /** `k` is the first sprite of `dl` at the least distance from the pointer. */
  predicate IsFirstNearest(dl: seq<Sprite>, x: int, y: int, k: nat) {
    IsFirstMin(Distances(dl, x, y), k)
  }

  /**
    A left-to-right scan of `ds` that starts from `bound` and moves to a
    position only when its value is strictly below the least seen so far.
   */
  function FirstBelow(ds: seq<int>, bound: int): (k: Option<nat>)
    ensures k.Some? ==> k.value < |ds| && ds[k.value] < bound
  {
    if |ds| == 0 then None
    else
      var best := FirstBelow(ds[..|ds| - 1], bound);
      var least := if best.Some? then ds[best.value] else bound;
      if ds[|ds| - 1] < least then Some(|ds| - 1) else best
  }

  /**
    The scan finds nothing exactly when no value is below `bound`;
    otherwise it finds the first position of the least value, which is
    below `bound`.
   */
  lemma {:induction false} FirstBelowIsFirstMin(ds: seq<int>, bound: int)
    ensures FirstBelow(ds, bound).None? <==> forall i :: 0 <= i < |ds| ==> ds[i] >= bound
    ensures FirstBelow(ds, bound).Some? ==>
      IsFirstMin(ds, FirstBelow(ds, bound).value) && ds[FirstBelow(ds, bound).value] < bound
    decreases |ds|
  {
    if |ds| > 0 {
      var pre := ds[..|ds| - 1];
      FirstBelowIsFirstMin(pre, bound);
      assert forall i :: 0 <= i < |pre| ==> pre[i] == ds[i];
    }
  }

  /** The first position of the least value is unique. */
  lemma FirstMinUnique(ds: seq<int>, j: nat, k: nat)
    requires IsFirstMin(ds, j) && IsFirstMin(ds, k)
    ensures j == k
  {
    assert ds[j] == ds[k];
  }

  /**
    The sprite a press at `(x, y)` picks: the first sprite at the least
    distance, provided it is closer than the starting distance.
   */
  function Nearest(dl: seq<Sprite>, x: int, y: int): (k: Option<nat>)
    ensures k.Some? ==> k.value < |dl| && DistSq(dl[k.value], x, y) < NoHitDistSq
  {
    FirstBelow(Distances(dl, x, y), NoHitDistSq)
  }

  /**
    Nothing is picked exactly when every sprite is at least the starting
    distance away; otherwise the pick is the first nearest sprite, and it
    is closer than the starting distance.
   */
  lemma NearestIsFirstNearest(dl: seq<Sprite>, x: int, y: int)
    ensures Nearest(dl, x, y).None? <==> forall i :: 0 <= i < |dl| ==> DistSq(dl[i], x, y) >= NoHitDistSq
    ensures Nearest(dl, x, y).Some? ==>
      IsFirstNearest(dl, x, y, Nearest(dl, x, y).value) && DistSq(dl[Nearest(dl, x, y).value], x, y) < NoHitDistSq
  {
    FirstBelowIsFirstMin(Distances(dl, x, y), NoHitDistSq);
  }

  /**
    The linear search of the press handler: keeps the least distance seen
    so far and replaces it only when a sprite is strictly closer.
   */
  method PickNearest(dl: seq<Sprite>, x: int, y: int) returns (k: Option<nat>)
    ensures k == Nearest(dl, x, y)
    ensures k.None? <==> forall i :: 0 <= i < |dl| ==> DistSq(dl[i], x, y) >= NoHitDistSq
    ensures k.Some? ==> IsFirstNearest(dl, x, y, k.value)
  {
    var minDist := NoHitDistSq;
    k := None;
    var i := 0;
    while i < |dl|
      invariant 0 <= i <= |dl|
      invariant k == FirstBelow(Distances(dl, x, y)[..i], NoHitDistSq)
      invariant minDist == if k.Some? then Distances(dl, x, y)[k.value] else NoHitDistSq
    {
      assert Distances(dl, x, y)[..i + 1][..i] == Distances(dl, x, y)[..i];
      var d := DistSq(dl[i], x, y);
      if d < minDist {
        minDist := d;
        k := Some(i);
      }
      i := i + 1;
    }
    assert Distances(dl, x, y)[..|dl|] == Distances(dl, x, y);
    NearestIsFirstNearest(dl, x, y);
  }

  /** The terrain label's text for a terrain, with unlisted terrains shown as unknown. */
  function TerrainLabel(t: Terrain): (text: string)
    ensures |text| > 9 && text[..9] == "Terrain: "
  {
    match t
    case Water => "Terrain: Ocean"
    case Grass => "Terrain: Grassland"
    case Unlisted(_) => "Terrain: Unknown"
  }

  /** Different kinds of terrain get different labels; unlisted terrains all share one. */
  lemma TerrainLabelDistinguishes(a: Terrain, b: Terrain)
    ensures TerrainLabel(a) == TerrainLabel(b) <==> (a == b || (a.Unlisted? && b.Unlisted?))
  {
  }

  /**
    The label update as the handler is written: water and grass get their
    labels, and any other terrain fails, because that branch assigns to a
    misspelt attribute.
   */
  function TerrainLabelAsWritten(t: Terrain): (r: Result<string, PressError>)
    ensures r.Err? <==> t.Unlisted?
    ensures r.Ok? ==> r.value == TerrainLabel(t)
  {
    match t
    case Water => Ok("Terrain: Ocean")
    case Grass => Ok("Terrain: Grassland")
    case Unlisted(_) => Err(MissingLabelField)
  }

  /** A tile with an unlisted terrain makes the handler as written fail. */
  lemma UnlistedTerrainFails()
    ensures TerrainLabelAsWritten(Unlisted(0)) == Err(MissingLabelField)
    ensures TerrainLabel(Unlisted(0)) == "Terrain: Unknown"
  {
  }

  /** The window after selecting sprite `s`: the marker moves onto it, its tile is selected and `text` is shown. */
  function Select(m: GameMap, g: GameState, s: Sprite, text: string): (r: GameState)
    ensures r.view == g.view.(selection := Point(s.x, s.y))
    ensures r.selected == Some(m.tileAt(s.mapPos)) && r.terrainLabel == text
    ensures r.turn == g.turn && r.showFps == g.showFps && r.scrollDir == g.scrollDir
  {
    g.(view := g.view.(selection := Point(s.x, s.y)), selected := Some(m.tileAt(s.mapPos)), terrainLabel := text)
  }

  /**
    A mouse press at `(x, y)` as the handler is written: with no sprite
    picked it fails; otherwise the picked sprite's tile is selected and the
    terrain label is updated, which fails for an unlisted terrain.
   */
  function OnMousePress(m: GameMap, g: GameState, x: int, y: int): (r: Result<GameState, PressError>)
    ensures r.Ok? ==> && r.value.selected.Some?
                      && !r.value.selected.value.terrain.Unlisted?
                      && r.value.terrainLabel == TerrainLabel(r.value.selected.value.terrain)
    ensures r.Ok? ==> && r.value.view == g.view.(selection := r.value.view.selection)
                      && r.value.turn == g.turn && r.value.showFps == g.showFps && r.value.scrollDir == g.scrollDir
  {
    match Nearest(g.view.drawList, x, y)
    case None => Err(NothingPicked)
    case Some(k) =>
      var text :- TerrainLabelAsWritten(m.tileAt(g.view.drawList[k].mapPos).terrain);
      Ok(Select(m, g, g.view.drawList[k], text))
  }

  /**
    The press with the label corrected: with no sprite picked it fails;
    otherwise the picked sprite's tile is selected and the label names its
    terrain, unlisted terrains included.
   */
  function OnMousePressCorrected(m: GameMap, g: GameState, x: int, y: int): (r: Result<GameState, PressError>)
    ensures r.Err? ==> r.error == NothingPicked
    ensures r.Ok? ==> && r.value.selected.Some?
                      && r.value.terrainLabel == TerrainLabel(r.value.selected.value.terrain)
    ensures r.Ok? ==> && r.value.view == g.view.(selection := r.value.view.selection)
                      && r.value.turn == g.turn && r.value.showFps == g.showFps && r.value.scrollDir == g.scrollDir
  {
    match Nearest(g.view.drawList, x, y)
    case None => Err(NothingPicked)
    case Some(k) =>
      var s := g.view.drawList[k];
      Ok(Select(m, g, s, TerrainLabel(m.tileAt(s.mapPos).terrain)))
  }

  /**
    Both handlers report that nothing was picked exactly when every sprite
    is at least the starting distance from the pointer; the corrected one
    fails in no other case.
   */
  lemma PressFailsFarFromSprites(m: GameMap, g: GameState, x: int, y: int)
    ensures OnMousePress(m, g, x, y) == Err(NothingPicked) <==>
      forall i :: 0 <= i < |g.view.drawList| ==> DistSq(g.view.drawList[i], x, y) >= NoHitDistSq
    ensures OnMousePressCorrected(m, g, x, y).Err? <==>
      forall i :: 0 <= i < |g.view.drawList| ==> DistSq(g.view.drawList[i], x, y) >= NoHitDistSq
  {
    NearestIsFirstNearest(g.view.drawList, x, y);
  }

  /**
    A press within reach of the first nearest sprite `k` selects exactly
    that sprite in the corrected handler; the handler as written does the
    same unless the sprite's tile has an unlisted terrain, where it fails.
   */
  lemma PressSelectsFirstNearest(m: GameMap, g: GameState, x: int, y: int, k: nat)
    requires IsFirstNearest(g.view.drawList, x, y, k)
    requires DistSq(g.view.drawList[k], x, y) < NoHitDistSq
    ensures OnMousePressCorrected(m, g, x, y) ==
      Ok(Select(m, g, g.view.drawList[k], TerrainLabel(m.tileAt(g.view.drawList[k].mapPos).terrain)))
    ensures OnMousePress(m, g, x, y) ==
      if m.tileAt(g.view.drawList[k].mapPos).terrain.Unlisted? then Err(MissingLabelField)
      else Ok(Select(m, g, g.view.drawList[k], TerrainLabel(m.tileAt(g.view.drawList[k].mapPos).terrain)))
  {
    NearestIsFirstNearest(g.view.drawList, x, y);
    FirstMinUnique(Distances(g.view.drawList, x, y), Nearest(g.view.drawList, x, y).value, k);
  }

  /**
    The handler as written agrees with the corrected one except where the
    corrected one selects a tile with an unlisted terrain; there the
    handler as written fails on the label.
   */
  lemma PressAsWrittenDiffersOnlyOnLabel(m: GameMap, g: GameState, x: int, y: int)
    ensures OnMousePress(m, g, x, y) != OnMousePressCorrected(m, g, x, y) <==>
      && OnMousePressCorrected(m, g, x, y).Ok?
      && OnMousePressCorrected(m, g, x, y).value.selected.value.terrain.Unlisted?
    ensures OnMousePress(m, g, x, y) != OnMousePressCorrected(m, g, x, y) ==>
      OnMousePress(m, g, x, y) == Err(MissingLabelField)
  {
  }
}
