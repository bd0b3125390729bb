/**
 * The turn controller: it builds the level's squares, broadcasts the lifecycle hooks to them,
 * gates the player's clicks on the knight-move rule and hands the later phases of a move to the
 * action queue. Each operation is proved to perform the matching transition of TurnCycle on
 * Snapshot(), the controller's state read as a value. The methods that run hooks may write only
 * the fields the hooks write, so every square keeps the position, graphics variant and links
 * its build gave it.
 */
module Controller {
  import opened Wrappers
  import opened Grid
  import opened Tiles
  import opened Squares
  import opened Links
  import opened Build
  import L = LevelBuilder
  import T = TurnCycle

  /** The coordinates of a list, as the set `Contains` tests membership in. */
  ghost function Listed(coordinates: seq<Coord>): (r: set<Coord>)
    ensures forall c :: c in r <==> c in coordinates
  {
    set c | c in coordinates
  }

  /** The loop of a hook broadcast: every square runs hook `h`, in an order left open. */
  method RunOnEach(squares: map<Coord, Square>, h: Hook, ghost cells: map<Coord, Cell>)
    requires Holds(squares, cells) && T.SoundBoard(cells)
    modifies squares.Values`pressed, squares.Values`charge, squares.Values`chargeUpdates,
             squares.Values`turnCounter, squares.Values`spikeUp, squares.Values`visualUpdates
    ensures Holds(squares, T.Broadcast(h, cells))
  {
    var todo := squares.Keys;
    while todo != {}
      invariant todo <= squares.Keys
      invariant forall q :: q in squares ==>
                  squares[q].AsCell() == if q in todo then cells[q] else After(h, cells[q])
      decreases |todo|
    {
      var p :| p in todo;
      squares[p].RunHook(h);
      todo := todo - {p};
    }
  }

  /** The loop of HighlightSquares: every square shows whether its coordinate is listed. */
  method IndicateEach(squares: map<Coord, Square>, coordinates: seq<Coord>, ghost cells: map<Coord, Cell>)
    requires Holds(squares, cells)
    modifies squares.Values`indicatorOn
    ensures Holds(squares, T.Highlight(cells, Listed(coordinates)))
  {
    var todo := squares.Keys;
    while todo != {}
      invariant todo <= squares.Keys
      invariant forall q :: q in squares ==>
                  squares[q].AsCell() == if q in todo then cells[q] else Indicate(cells[q], q in coordinates)
      decreases |todo|
    {
      var p :| p in todo;
      squares[p].IndicateMoveValidity(p in coordinates);
      todo := todo - {p};
    }
  }

  class SquareManager {
    var squares: map<Coord, Square>
    var playerPos: Coord
    var isPlayerTurn: bool
    /** The pending entries of the action queue, oldest first. */
    var queue: seq<T.Phase>
    /** The squares read as values, and the hook calls made so far: records the proofs keep. */
    ghost var board: map<Coord, Cell>
    ghost var calls: seq<T.Call>

    constructor ()
      ensures squares == map[] && board == map[] && !isPlayerTurn && queue == [] && calls == []
    {
      squares, playerPos, isPlayerTurn, queue := map[], Coord(0, 0), false, [];
      board, calls := map[], [];
    }

    ghost function Snapshot(): T.Machine
      reads this
    {
      T.Machine(board, playerPos, isPlayerTurn, queue, calls)
    }

    /** What the controller relies on: distinct objects, sound squares, the player on a square. */
    ghost predicate Valid()
      reads this`squares, this`board, this`playerPos, squares.Values
    {
      Holds(squares, board) && T.ValidBoard(board, playerPos)
    }

    /**
     * A `foreach` over the squares running hook `h`. The visiting order is left open, as the
     * dictionary's is: each hook touches only its own square.
     */
    method Broadcast(h: Hook)
      requires Valid()
      modifies this`board, this`calls, squares.Values`pressed, squares.Values`charge, squares.Values`chargeUpdates,
               squares.Values`turnCounter, squares.Values`spikeUp, squares.Values`visualUpdates
      ensures Valid() && Snapshot() == T.BroadcastHook(h, old(Snapshot()))
    {
      RunOnEach(squares, h, board);
      board := T.Broadcast(h, board);
      calls := calls + [T.Each(h)];
    }

    /** Each square's valid-move indicator shows whether its coordinate is listed. */
    method HighlightSquares(coordinates: seq<Coord>)
      requires Valid()
      modifies this`board, squares.Values`indicatorOn
      ensures Valid() && Snapshot() == T.HighlightBoard(old(Snapshot()), Listed(coordinates))
    {
      ghost var cells := board;
      T.HighlightKeepsSound(cells, Listed(coordinates));
      board := T.Highlight(cells, Listed(coordinates));
      IndicateEach(squares, coordinates, cells);
    }

    /** Runs hook `h` on the square under the player alone. */
    method HookPlayerSquare(h: Hook)
      requires Valid()
      modifies this`board, this`calls, squares.Values`pressed, squares.Values`charge, squares.Values`chargeUpdates,
               squares.Values`turnCounter, squares.Values`spikeUp, squares.Values`visualUpdates
      ensures Valid() && Snapshot() == T.HookPlayerSquare(h, old(Snapshot()))
    {
      squares[playerPos].RunHook(h);
      board := T.HookAt(h, board, playerPos);
      calls := calls + [T.One(h, playerPos)];
    }

    /** ActionQueue.QueueAction: the entry runs after every entry already pending. */
    method QueueAction(phase: T.Phase)
      requires Valid()
      modifies this`queue
      ensures Valid() && Snapshot() == T.QueueAction(old(Snapshot()), phase)
    {
      queue := queue + [phase];
    }

    method SetPlayerTurn(value: bool)
      requires Valid()
      modifies this`isPlayerTurn
      ensures Valid() && Snapshot() == old(Snapshot()).(isPlayerTurn := value)
    {
      isPlayerTurn := value;
    }

    /** The squares a knight's move away from the player that are passable, each listed once. */
    method GetValidMoves() returns (moves: seq<Coord>)
      ensures forall p :: p in moves <==> p in squares && IsKnightMove(Sub(p, playerPos)) && squares[p].IsPassable()
      ensures forall i, j :: 0 <= i < j < |moves| ==> moves[i] != moves[j]
      ensures playerPos !in moves
    {
      moves := [];
      var todo := squares.Keys;
      while todo != {}
        invariant todo <= squares.Keys
        invariant forall p :: p in moves <==>
                    p in squares && p !in todo && IsKnightMove(Sub(p, playerPos)) && squares[p].IsPassable()
        invariant forall i, j :: 0 <= i < j < |moves| ==> moves[i] != moves[j]
        decreases |todo|
      {
        var p :| p in todo;
        if IsKnightMove(Sub(p, playerPos)) && squares[p].IsPassable() {
          moves := moves + [p];
        }
        todo := todo - {p};
      }
      KnightMovesDistinctNonZero();
    }

    /** The list GetValidMoves returns holds the valid moves of the turn cycle. */
    lemma MovesAreValidMoves(moves: seq<Coord>)
      requires Valid()
      requires forall p :: p in moves <==> p in squares && IsKnightMove(Sub(p, playerPos)) && squares[p].IsPassable()
      ensures Listed(moves) == T.ValidMoves(board, playerPos)
    {
      forall p | p in squares
        ensures squares[p].IsPassable() == Passable(board[p])
      {
        assert squares[p].AsCell() == board[p];
      }
    }

    method OnPlayerTurnStart()
      requires Valid()
      modifies this`board, this`calls, this`isPlayerTurn,
               squares.Values`indicatorOn, squares.Values`pressed, squares.Values`charge, squares.Values`chargeUpdates,
               squares.Values`turnCounter, squares.Values`spikeUp, squares.Values`visualUpdates
      ensures Valid() && Snapshot() == T.OnPlayerTurnStart(old(Snapshot()))
    {
      SetPlayerTurn(true);
      Broadcast(PlayerTurnStart);
      var moves := GetValidMoves();
      MovesAreValidMoves(moves);
      HighlightSquares(moves);
    }

    method OnPlayerMove()
      requires Valid()
      modifies this`board, this`calls, this`isPlayerTurn,
               squares.Values`indicatorOn, squares.Values`pressed, squares.Values`charge, squares.Values`chargeUpdates,
               squares.Values`turnCounter, squares.Values`spikeUp, squares.Values`visualUpdates
      ensures Valid() && Snapshot() == T.OnPlayerMove(old(Snapshot()))
    {
      HighlightSquares([]);
      assert Listed([]) == {};
      SetPlayerTurn(false);
      Broadcast(PlayerMove);
    }

    method OnPlayerLand()
      requires Valid()
      modifies this`board, this`calls, this`queue,
               squares.Values`indicatorOn, squares.Values`pressed, squares.Values`charge, squares.Values`chargeUpdates,
               squares.Values`turnCounter, squares.Values`spikeUp, squares.Values`visualUpdates
      ensures Valid() && Snapshot() == T.OnPlayerLand(old(Snapshot()))
    {
      HookPlayerSquare(PlayerLand);
      QueueAction(T.QueuedLevelTurn);
    }

    method OnLevelTurn()
      requires Valid()
      modifies this`board, this`calls, this`queue,
               squares.Values`indicatorOn, squares.Values`pressed, squares.Values`charge, squares.Values`chargeUpdates,
               squares.Values`turnCounter, squares.Values`spikeUp, squares.Values`visualUpdates
      ensures Valid() && Snapshot() == T.OnLevelTurn(old(Snapshot()))
    {
      Broadcast(LevelTurn);
      QueueAction(T.QueuedTurnStart);
    }

    /** The action queue's turn in a frame: when `ready`, the oldest entry is popped and run. */
    method ProcessQueue(ready: bool)
      requires Valid()
      modifies this`board, this`calls, this`queue, this`isPlayerTurn,
               squares.Values`indicatorOn, squares.Values`pressed, squares.Values`charge, squares.Values`chargeUpdates,
               squares.Values`turnCounter, squares.Values`spikeUp, squares.Values`visualUpdates
      ensures Valid() && Snapshot() == T.Dispatch(old(Snapshot()), ready)
    {
      if ready && |queue| > 0 {
        var phase := queue[0];
        queue := queue[1..];
        match phase
        case QueuedLand => OnPlayerLand();
        case QueuedLevelTurn => OnLevelTurn();
        case QueuedTurnStart => OnPlayerTurnStart();
      }
    }

    /** The body of an accepted click: leave the square, tell every square, queue the landing. */
    method MakeMove()
      requires Valid()
      modifies this`board, this`calls, this`queue, this`isPlayerTurn,
               squares.Values`indicatorOn, squares.Values`pressed, squares.Values`charge, squares.Values`chargeUpdates,
               squares.Values`turnCounter, squares.Values`spikeUp, squares.Values`visualUpdates
      ensures Valid() && Snapshot() == T.MakeMove(old(Snapshot()))
    {
      HookPlayerSquare(PlayerLeave);
      OnPlayerMove();
      QueueAction(T.QueuedLand);
    }

    /** The click handling of Update: acted on only in the player's turn and for a valid move. */
    method HandleClick(target: Coord)
      requires Valid()
      modifies this`board, this`calls, this`queue, this`isPlayerTurn,
               squares.Values`indicatorOn, squares.Values`pressed, squares.Values`charge, squares.Values`chargeUpdates,
               squares.Values`turnCounter, squares.Values`spikeUp, squares.Values`visualUpdates
      ensures Valid() && Snapshot() == T.Click(old(Snapshot()), target)
    {
      if isPlayerTurn {
        var moves := GetValidMoves();
        MovesAreValidMoves(moves);
        if target in moves {
          MakeMove();
        }
      }
    }

    /**
     * One frame. `click` is the grid coordinate clicked this frame, if any; `ready` says whether
     * the engine lets the action queue run an entry.
     */
    method Update(click: Option<Coord>, ready: bool)
      requires Valid()
      modifies this`board, this`calls, this`queue, this`isPlayerTurn,
               squares.Values`indicatorOn, squares.Values`pressed, squares.Values`charge, squares.Values`chargeUpdates,
               squares.Values`turnCounter, squares.Values`spikeUp, squares.Values`visualUpdates
      ensures Valid() && Snapshot() == T.Update(old(Snapshot()), click, ready)
    {
      if click.Some? {
        HandleClick(click.value);
      }
      ProcessQueue(ready);
    }

    /** SquareManager's link check over its own squares. */
    method ValidateLinks(tiles: seq<TilePos>) returns (v: Verdict)
      requires LookupsDefined(tiles, LinkableOf(squares))
      ensures v == Check(tiles, LinkableOf(squares))
      ensures v.error.Some? <==> HasDanglingLink(tiles, squares.Keys)
    {
      v := Links.ValidateLinks(tiles, LinkableOf(squares));
    }

    /**
     * BuildLevel: a fresh square per tile, set up from the tile's data, then the link check, then
     * the wiring; a failing check (an exception in the engine) leaves the squares unwired.
     */
    method BuildLevel(tiles: seq<TilePos>, catalog: map<TileType, Caps>) returns (verdict: Verdict)
      requires DistinctPositions(tiles) && L.Catalogued(tiles, catalog)
      modifies this`squares, this`board
      ensures forall p :: p in squares ==> fresh(squares[p])
      ensures board == InitialBoard(tiles, catalog) && LevelBuilt(tiles, catalog, squares, verdict)
    {
      var built;
      built, verdict := BuildSquares(tiles, catalog);
      squares, board := built, InitialBoard(tiles, catalog);
    }

    /**
     * Start: the player is put on the level's start coordinate, the level is built, every square
     * is told the level started, and the first turn opens. A failing link check ends Start early.
     */
    method Start(tiles: seq<TilePos>, catalog: map<TileType, Caps>, startPos: Coord) returns (verdict: Verdict)
      requires DistinctPositions(tiles) && L.Catalogued(tiles, catalog) && SpikesHavePeriods(tiles, catalog)
      requires startPos in PositionSet(tiles)
      modifies this
      ensures playerPos == startPos && squares.Keys == PositionSet(tiles)
      ensures forall p :: p in squares ==> fresh(squares[p])
      ensures verdict == Check(tiles, LinkableOf(squares))
      ensures verdict.error.None? ==>
                LevelWired(tiles, catalog, squares, verdict) &&
                Valid() && Snapshot() == T.Start(InitialBoard(tiles, catalog), startPos, old(isPlayerTurn), old(queue), old(calls))
      ensures verdict.error.Some? ==>
                LevelBuilt(tiles, catalog, squares, verdict) &&
                Snapshot() == T.Machine(InitialBoard(tiles, catalog), startPos, old(isPlayerTurn), old(queue), old(calls))
    {
      verdict := Load(tiles, catalog, startPos);
      if verdict.error.Some? {
        return;
      }
      BuiltLevelHolds(tiles, catalog, squares, verdict);
      BuiltIsWired(tiles, catalog, squares, verdict);
      InitialBoardSound(tiles, catalog);
      Open(tiles, catalog, verdict);
    }

    /** The first half of Start: the player placed and the level built. */
    method Load(tiles: seq<TilePos>, catalog: map<TileType, Caps>, startPos: Coord) returns (verdict: Verdict)
      requires DistinctPositions(tiles) && L.Catalogued(tiles, catalog)
      modifies this`squares, this`board, this`playerPos
      ensures forall p :: p in squares ==> fresh(squares[p])
      ensures LevelBuilt(tiles, catalog, squares, verdict)
      ensures Snapshot() == T.Machine(InitialBoard(tiles, catalog), startPos, old(isPlayerTurn), old(queue), old(calls))
    {
      squares := map[];
      playerPos := startPos;
      verdict := BuildLevel(tiles, catalog);
    }

    /** The rest of a Start whose link check passed: the level begins, and stays as it was built. */
    method Open(ghost tiles: seq<TilePos>, ghost catalog: map<TileType, Caps>, ghost verdict: Verdict)
      requires Valid() && LevelWired(tiles, catalog, squares, verdict)
      modifies this`board, this`calls, this`isPlayerTurn, squares.Values
      ensures LevelWired(tiles, catalog, squares, verdict) && Valid()
      ensures squares == old(squares)
      ensures Snapshot() == T.Start(old(board), old(playerPos), old(isPlayerTurn), old(queue), old(calls))
    {
      ghost var built, setups := squares, Setups(squares);
      Launch(built);
      assert squares == built;
      StillWired(tiles, catalog, squares, verdict, setups);
    }

    /** Begin, stated with the set-ups it keeps: the hooks touch no square's set-up. */
    method Launch(ghost built: map<Coord, Square>)
      requires Valid() && built == squares
      modifies this`board, this`calls, this`isPlayerTurn, squares.Values
      ensures forall p :: p in built ==> built[p].Setup() == old(built[p].Setup())
      ensures Valid() && Snapshot() == T.OnPlayerTurnStart(T.BroadcastHook(LevelStart, old(Snapshot())))
    {
      Begin();
    }

    /** The second half of Start: LevelStart told to every square, then the first turn. */
    method Begin()
      requires Valid()
      modifies this`board, this`calls, this`isPlayerTurn,
               squares.Values`indicatorOn, squares.Values`pressed, squares.Values`charge, squares.Values`chargeUpdates,
               squares.Values`turnCounter, squares.Values`spikeUp, squares.Values`visualUpdates
      ensures Valid() && Snapshot() == T.OnPlayerTurnStart(T.BroadcastHook(LevelStart, old(Snapshot())))
    {
      Broadcast(LevelStart);
      OnPlayerTurnStart();
    }
  }
}


