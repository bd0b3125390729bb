/**
 * The square entity. The source's open hierarchy (an abstract Square with ButtonSquare,
 * SpikeDownSquare and further variants) becomes one class over the closed set of variants:
 * the read-only capability flags are constants, the fields of every variant are fields here,
 * and each hook dispatches on the variant. Each hook is proved to perform Tiles.After.
 */
module Squares {
  import opened Grid
  import opened Tiles
  import B = ButtonSquare
  import S = SpikeDownSquare

  class Square {
    /** Type, IsLinkable and IsMultiState: fixed per variant, with no setter. */
    const tileType: TileType
    const linkable: bool
    const multiState: bool

    var position: Coord
    var graphicsVariant: int
    /** Backing store of IsPassable for the variants other than buttons and spikes. */
    var passableField: bool
    /** Backing store of State for multi-state variants. */
    var stateField: int
    /** Backing store of Links for linkable variants. */
    var linksField: seq<Square>
    /** Whether the valid-move indicator child object is active. */
    var indicatorOn: bool

    // ButtonSquare
    var pressed: bool
    var charge: bool
    var chargeUpdates: nat

    // SpikeDownSquare
    var turnCounter: int
    var spikeUp: bool
    var visualUpdates: nat

    constructor (t: TileType, caps: Caps)
      ensures tileType == t && linkable == caps.linkable && multiState == caps.multiState
      ensures Dyn() == Dynamic(caps.passable, 0, false, B.Initial, S.Initial)
      ensures Setup() == (Coord(0, 0), 0, [])
    {
      tileType, linkable, multiState := t, caps.linkable, caps.multiState;
      position, graphicsVariant := Coord(0, 0), 0;
      passableField, stateField, linksField, indicatorOn := caps.passable, 0, [], false;
      pressed, charge, chargeUpdates := false, false, 0;
      turnCounter, spikeUp, visualUpdates := 0, false, 0;
    }

    /** The mutable state the hooks act on. */
    function Dyn(): Dynamic
      reads this
    {
      Dynamic(passableField, stateField, indicatorOn,
              B.ButtonState(pressed, charge, chargeUpdates),
              S.SpikeState(turnCounter, spikeUp, visualUpdates))
    }

    function AsCell(): Cell
      reads this
    {
      Cell(tileType, multiState, Dyn())
    }

    /** What the builders set up and the hooks leave alone. */
    function Setup(): (Coord, int, seq<Square>)
      reads this`position, this`graphicsVariant, this`linksField
    {
      (position, graphicsVariant, linksField)
    }

    /** The square as a builder leaves it for tile `tp`, with links `links`. */
    predicate Built(tp: TilePos, caps: Caps, links: seq<Square>)
      reads this
    {
      && tileType == tp.tile.tileType && linkable == caps.linkable && multiState == caps.multiState
      && Setup() == (tp.position, tp.tile.graphicsVariant, links)
      && Dyn() == InitialDyn(caps, tp.tile)
    }

    /** The square as a builder leaves it for tile `tp`, before its links are wired. */
    predicate Configured(tp: TilePos, caps: Caps)
      reads this
    {
      Built(tp, caps, [])
    }

    function IsPassable(): (r: bool)
      reads this
      ensures !tileType.Other? ==> r
      ensures tileType.Other? ==> r == passableField
    {
      PassableOf(tileType, Dyn())
    }

    /** The State getter; on a variant without states the default warns and yields 0. */
    function State(): (r: int)
      reads this
      ensures !multiState ==> r == 0
      ensures multiState ==> r == stateField
    {
      StateOf(multiState, Dyn())
    }

    /** The State setter; on a variant without states the default warns and stores nothing. */
    method SetState(value: int) returns (warned: bool)
      modifies this`stateField
      ensures warned == !multiState
      ensures State() == (if multiState then value else 0)
      ensures stateField == (if multiState then value else old(stateField))
    {
      warned := !multiState;
      if multiState {
        stateField := value;
      }
    }

    /** The Links getter; on an unlinkable variant the default warns and yields a new empty list. */
    function Links(): (r: seq<Square>)
      reads this
      ensures !linkable ==> r == []
      ensures linkable ==> r == linksField
    {
      if linkable then linksField else []
    }

    /** The Links setter; on an unlinkable variant the default warns and stores nothing. */
    method SetLinks(value: seq<Square>) returns (warned: bool)
      modifies this`linksField
      ensures warned == !linkable
      ensures Links() == (if linkable then value else [])
      ensures linksField == (if linkable then value else old(linksField))
    {
      warned := !linkable;
      if linkable {
        linksField := value;
      }
    }

    /**
     * `Links.Add(s)`: appends to the stored list; on an unlinkable variant the getter hands out
     * a throw-away list, so nothing is kept.
     */
    method AddLink(s: Square) returns (warned: bool)
      modifies this`linksField
      ensures warned == !linkable
      ensures Links() == (if linkable then old(Links()) + [s] else [])
      ensures linksField == (if linkable then old(linksField) + [s] else old(linksField))
    {
      warned := !linkable;
      if linkable {
        linksField := linksField + [s];
      }
    }

    /**
     * The protected IsPassable setter, callable only from a variant's own code: a button
     * warns and keeps being passable, a spike ignores the value, other variants store it.
     */
    method SetPassable(value: bool) returns (warned: bool)
      modifies this`passableField
      ensures warned == tileType.Button?
      ensures tileType.Other? ==> IsPassable() == value
      ensures !tileType.Other? ==> IsPassable() && passableField == old(passableField)
    {
      warned := tileType.Button?;
      if tileType.Other? {
        passableField := value;
      }
    }

    method IndicateMoveValidity(on: bool)
      modifies this`indicatorOn
      ensures AsCell() == Indicate(old(AsCell()), on)
    {
      indicatorOn := on;
    }

    // ---------------------------------------------------------------- ButtonSquare

    /** RecalculateCharge of a button: its charge is whether it is pressed. */
    function RecalculateCharge(): (r: bool)
      reads this
      requires tileType.Button?
      ensures r == B.RecalculateCharge(Dyn().button)
    {
      pressed
    }

    method UpdateOutgoingCharge()
      requires tileType.Button?
      modifies this`charge, this`chargeUpdates
      ensures Dyn().button == B.UpdateOutgoingCharge(old(Dyn().button))
    {
      charge := RecalculateCharge();
      chargeUpdates := chargeUpdates + 1;
    }

    /** The IsPressed setter: every write recomputes the outgoing charge. */
    method SetPressed(value: bool)
      requires tileType.Button?
      modifies this`pressed, this`charge, this`chargeUpdates
      ensures Dyn().button == B.SetPressed(old(Dyn().button), value)
    {
      pressed := value;
      UpdateOutgoingCharge();
    }

    method ButtonOnPlayerLand()
      requires tileType.Button?
      modifies this`pressed, this`charge, this`chargeUpdates
      ensures pressed && charge
      ensures AsCell() == After(PlayerLand, old(AsCell()))
    {
      SetPressed(true);
    }

    method ButtonOnPlayerLeave()
      requires tileType.Button?
      modifies this`pressed, this`charge, this`chargeUpdates
      ensures !pressed && !charge
      ensures AsCell() == After(PlayerLeave, old(AsCell()))
    {
      SetPressed(false);
    }

    // ------------------------------------------------------------- SpikeDownSquare

    /** Sends the spike graphics to the active position iff the counter is a multiple of State. */
    method ApplyVisuals()
      requires tileType.SpikeDown? && State() != 0
      modifies this`spikeUp, this`visualUpdates
      ensures Dyn().spike == S.ApplyVisuals(old(Dyn().spike), State())
    {
      spikeUp := S.Rem(turnCounter, State()) == 0;
      visualUpdates := visualUpdates + 1;
    }

    method SpikeOnLevelStart()
      requires tileType.SpikeDown? && Sound(AsCell())
      modifies this`turnCounter, this`spikeUp, this`visualUpdates
      ensures turnCounter == 1
      ensures AsCell() == After(LevelStart, old(AsCell()))
    {
      turnCounter := 1;
      spikeUp := false;
      ApplyVisuals();
    }

    method SpikeOnPlayerMove()
      requires tileType.SpikeDown? && Sound(AsCell())
      modifies this`turnCounter, this`spikeUp, this`visualUpdates
      ensures turnCounter == S.Increment(old(turnCounter))
      ensures AsCell() == After(PlayerMove, old(AsCell()))
    {
      turnCounter := S.Increment(turnCounter);
      if S.Rem(turnCounter, State()) == 0 {
        ApplyVisuals();
      } else if S.Rem(turnCounter, State()) == 1 {
        ApplyVisuals();
      }
    }

    /** Reports whether the player dies here; the counter is only read. */
    method SpikeOnPlayerLand() returns (lethal: bool)
      requires tileType.SpikeDown? && Sound(AsCell())
      ensures lethal <==> S.Rem(turnCounter, State()) == 0
      ensures lethal == Lethal(AsCell())
    {
      lethal := S.Rem(turnCounter, State()) == 0;
    }

    // ------------------------------------------------------------------ dispatch

    method OnLevelStart()
      requires Sound(AsCell())
      modifies this`pressed, this`charge, this`chargeUpdates, this`turnCounter, this`spikeUp, this`visualUpdates
      ensures AsCell() == After(LevelStart, old(AsCell())) && Setup() == old(Setup())
    {
      if tileType.SpikeDown? {
        SpikeOnLevelStart();
      }
    }

    method OnPlayerTurnStart()
      requires Sound(AsCell())
      ensures AsCell() == After(PlayerTurnStart, AsCell())
    {
    }

    method OnPlayerMove()
      requires Sound(AsCell())
      modifies this`pressed, this`charge, this`chargeUpdates, this`turnCounter, this`spikeUp, this`visualUpdates
      ensures AsCell() == After(PlayerMove, old(AsCell())) && Setup() == old(Setup())
    {
      if tileType.SpikeDown? {
        SpikeOnPlayerMove();
      }
    }

    method OnPlayerLand() returns (lethal: bool)
      requires Sound(AsCell())
      modifies this`pressed, this`charge, this`chargeUpdates, this`turnCounter, this`spikeUp, this`visualUpdates
      ensures lethal == Lethal(old(AsCell()))
      ensures AsCell() == After(PlayerLand, old(AsCell())) && Setup() == old(Setup())
    {
      lethal := false;
      if tileType.Button? {
        ButtonOnPlayerLand();
      } else if tileType.SpikeDown? {
        lethal := SpikeOnPlayerLand();
      }
    }

    method OnPlayerLeave()
      requires Sound(AsCell())
      modifies this`pressed, this`charge, this`chargeUpdates, this`turnCounter, this`spikeUp, this`visualUpdates
      ensures AsCell() == After(PlayerLeave, old(AsCell())) && Setup() == old(Setup())
    {
      if tileType.Button? {
        ButtonOnPlayerLeave();
      }
    }

    method OnLevelTurn()
      requires Sound(AsCell())
      ensures AsCell() == After(LevelTurn, AsCell())
    {
    }

    /** Runs hook `h` on this square, as the turn controller's broadcasts do. */
    method RunHook(h: Hook)
      requires Sound(AsCell())
      modifies this`pressed, this`charge, this`chargeUpdates, this`turnCounter, this`spikeUp, this`visualUpdates
      ensures AsCell() == After(h, old(AsCell())) && Setup() == old(Setup())
    {
      match h
      case LevelStart => OnLevelStart();
      case PlayerTurnStart => OnPlayerTurnStart();
      case PlayerMove => OnPlayerMove();
      case PlayerLand => var _ := OnPlayerLand();
      case PlayerLeave => OnPlayerLeave();
      case LevelTurn => OnLevelTurn();
    }
  }

  /** Instantiates the prefab for a tile and sets it up from the tile's data. */
  method Instantiate(tp: TilePos, caps: Caps) returns (s: Square)
    ensures fresh(s) && s.Configured(tp, caps)
  {
    s := new Square(tp.tile.tileType, caps);
    s.position := tp.position;
    s.IndicateMoveValidity(false);
    if s.multiState {
      var _ := s.SetState(tp.tile.initialState);
    }
    s.graphicsVariant := tp.tile.graphicsVariant;
  }
}
