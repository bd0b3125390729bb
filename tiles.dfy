/**
 * The vocabulary shared by the square, the builders and the turn controller: tile types, the
 * per-variant capability flags, level data, the lifecycle hooks, and what each hook does to
 * a square's mutable state.
 */
module Tiles {
  import opened Grid
  import B = ButtonSquare
  import S = SpikeDownSquare

  /** The variants whose behaviour this model gives; every other variant is `Other`. */
  datatype TileType = Button | SpikeDown | Other(id: int)

  /**
   * What a variant's prefab fixes: whether it stores links, whether it stores a state, and
   * (for variants other than buttons and spikes) whether it starts passable.
   */
  datatype Caps = Caps(linkable: bool, multiState: bool, passable: bool)

  /** A level's blueprint for one tile, and the tile paired with its coordinate. */
  datatype TileDesc = TileDesc(tileType: TileType, initialState: int, graphicsVariant: int, links: seq<Coord>)
  datatype TilePos = TilePos(position: Coord, tile: TileDesc)

  function Positions(tiles: seq<TilePos>): (ps: seq<Coord>)
    ensures |ps| == |tiles|
    ensures forall i :: 0 <= i < |tiles| ==> ps[i] == tiles[i].position
  {
    seq(|tiles|, i requires 0 <= i < |tiles| => tiles[i].position)
  }

  /** The positions of a list are those of all but its last tile, then the last one's. */
  lemma PositionsSnoc(tiles: seq<TilePos>)
    requires |tiles| > 0
    ensures Positions(tiles) == Positions(tiles[..|tiles| - 1]) + [tiles[|tiles| - 1].position]
  {
    var n := |tiles| - 1;
    assert forall k :: 0 <= k < n ==> tiles[..n][k] == tiles[k];
  }

  function PositionSet(tiles: seq<TilePos>): (ps: set<Coord>)
    ensures forall i :: 0 <= i < |tiles| ==> tiles[i].position in ps
  {
    set i | 0 <= i < |tiles| :: tiles[i].position
  }

  predicate DistinctPositions(tiles: seq<TilePos>) {
    forall i, j :: 0 <= i < j < |tiles| ==> tiles[i].position != tiles[j].position
  }

  /** The lifecycle hooks the turn controller broadcasts. */
  datatype Hook = LevelStart | PlayerTurnStart | PlayerMove | PlayerLand | PlayerLeave | LevelTurn

  /**
   * The mutable state of a square: the backing stores of the passability and state properties,
   * the valid-move indicator, and the state of the button and spike variants.
   */
  datatype Dynamic = Dynamic(passable: bool, state: int, indicator: bool,
                             button: B.ButtonState, spike: S.SpikeState)

  /** A square as the turn controller sees it: its variant, its capability and its state. */
  datatype Cell = Cell(tileType: TileType, multiState: bool, dyn: Dynamic)

  /** The State getter: the stored value for a multi-state variant, otherwise the default 0. */
  function StateOf(multiState: bool, d: Dynamic): (r: int)
    ensures !multiState ==> r == 0
  {
    if multiState then d.state else 0
  }

  /** The IsPassable getter of each variant. */
  function PassableOf(t: TileType, d: Dynamic): (r: bool)
    ensures t.Button? ==> r == B.IsPassable
    ensures t.SpikeDown? ==> r == S.IsPassable
  {
    match t
    case Button => B.IsPassable
    case SpikeDown => S.IsPassable
    case Other(_) => d.passable
  }

  function Passable(c: Cell): bool {
    PassableOf(c.tileType, c.dyn)
  }

  /**
   * A square whose hooks run without fault: a spike divides by its State, which must therefore
   * be nonzero, and its counter is a C# int.
   */
  predicate Sound(c: Cell) {
    c.tileType.SpikeDown? ==> StateOf(c.multiState, c.dyn) != 0 && S.IsInt32(c.dyn.spike.turnCounter)
  }

  /** What hook `h` does to square `c`; a hook a variant does not override does nothing. */
  function After(h: Hook, c: Cell): (r: Cell)
    requires Sound(c)
    ensures Sound(r)
    ensures r.tileType == c.tileType && r.multiState == c.multiState
    ensures r.dyn.passable == c.dyn.passable && r.dyn.state == c.dyn.state
    ensures r.dyn.indicator == c.dyn.indicator
    ensures Passable(r) == Passable(c)
    ensures c.tileType.Other? ==> r == c
    ensures !c.tileType.Button? ==> r.dyn.button == c.dyn.button
    ensures !c.tileType.SpikeDown? ==> r.dyn.spike == c.dyn.spike
    ensures h != PlayerLand && h != PlayerLeave ==> r.dyn.button == c.dyn.button
    ensures h != LevelStart && h != PlayerMove ==> r.dyn.spike == c.dyn.spike
  {
    match c.tileType
    case Button =>
      if h == PlayerLand then c.(dyn := c.dyn.(button := B.OnPlayerLand(c.dyn.button)))
      else if h == PlayerLeave then c.(dyn := c.dyn.(button := B.OnPlayerLeave(c.dyn.button)))
      else c
    case SpikeDown =>
      var period := StateOf(c.multiState, c.dyn);
      if h == LevelStart then c.(dyn := c.dyn.(spike := S.OnLevelStart(c.dyn.spike, period)))
      else if h == PlayerMove then c.(dyn := c.dyn.(spike := S.OnPlayerMove(c.dyn.spike, period)))
      else c
    case Other(_) => c
  }

  /** Whether landing on `c` kills the player: only an active spike does. */
  function Lethal(c: Cell): (r: bool)
    requires Sound(c)
    ensures r <==> c.tileType.SpikeDown? && S.Active(c.dyn.spike, StateOf(c.multiState, c.dyn))
  {
    c.tileType.SpikeDown? && S.OnPlayerLand(c.dyn.spike, StateOf(c.multiState, c.dyn))
  }

  /** IndicateMoveValidity: shows or hides the square's valid-move indicator. */
  function Indicate(c: Cell, on: bool): (r: Cell)
    ensures r.dyn.indicator == on
    ensures r.tileType == c.tileType && r.multiState == c.multiState
    ensures r.dyn.(indicator := c.dyn.indicator) == c.dyn
  {
    c.(dyn := c.dyn.(indicator := on))
  }

  /** The state of a square just instantiated from its prefab and set up from tile data. */
  function InitialDyn(caps: Caps, tile: TileDesc): (d: Dynamic)
    ensures StateOf(caps.multiState, d) == (if caps.multiState then tile.initialState else 0)
    ensures !d.indicator && d.button == B.Initial && d.spike == S.Initial
  {
    Dynamic(caps.passable, if caps.multiState then tile.initialState else 0, false, B.Initial, S.Initial)
  }

  /** Level data whose spikes all have a nonzero period they can be divided by. */
  predicate SpikesHavePeriods(tiles: seq<TilePos>, catalog: map<TileType, Caps>) {
    forall i :: 0 <= i < |tiles| && tiles[i].tile.tileType.SpikeDown? ==>
      && tiles[i].tile.tileType in catalog
      && catalog[tiles[i].tile.tileType].multiState && tiles[i].tile.initialState != 0
  }
}
