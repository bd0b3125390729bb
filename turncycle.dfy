/**
 * The turn controller as a state machine on values: the board as a map from coordinates to
 * squares, the player's coordinate, the turn flag, the pending entries of the action queue and
 * the log of hook calls made so far. Controller.SquareManager is proved to perform these
 * transitions on its objects.
 */
module TurnCycle {
  import opened Wrappers
  import opened Grid
  import opened Tiles
  import S = SpikeDownSquare

  /** The deferred actions the controller hands to the action queue. */
  datatype Phase = QueuedLand | QueuedLevelTurn | QueuedTurnStart

  /** A hook call: broadcast to every square, or made on the square at one coordinate. */
  datatype Call = Each(hook: Hook) | One(hook: Hook, at: Coord)

  datatype Machine = Machine(board: map<Coord, Cell>, player: Coord, isPlayerTurn: bool,
                             queue: seq<Phase>, calls: seq<Call>)

  predicate SoundBoard(board: map<Coord, Cell>) {
    forall p :: p in board ==> Sound(board[p])
  }

  /** What the controller relies on: every square's hooks run without fault and the player stands on a square. */
  predicate ValidBoard(board: map<Coord, Cell>, player: Coord) {
    SoundBoard(board) && player in board
  }

  predicate Valid(m: Machine) {
    ValidBoard(m.board, m.player)
  }

  /** A `foreach` over the squares running hook `h`; each hook touches only its own square. */
  function Broadcast(h: Hook, board: map<Coord, Cell>): (r: map<Coord, Cell>)
    requires SoundBoard(board)
    ensures r.Keys == board.Keys && SoundBoard(r)
    ensures forall p :: p in board ==> r[p] == After(h, board[p])
  {
    map p | p in board :: After(h, board[p])
  }

  /** Hook `h` run on the square at `p` alone. */
  function HookAt(h: Hook, board: map<Coord, Cell>, p: Coord): (r: map<Coord, Cell>)
    requires SoundBoard(board) && p in board
    ensures r.Keys == board.Keys && SoundBoard(r)
    ensures r[p] == After(h, board[p])
    ensures forall q :: q in board && q != p ==> r[q] == board[q]
  {
    board[p := After(h, board[p])]
  }

  /** HighlightSquares: each square's indicator shows whether its coordinate is in `on`. */
  function Highlight(board: map<Coord, Cell>, on: set<Coord>): (r: map<Coord, Cell>)
    ensures r.Keys == board.Keys
    ensures forall p :: p in r ==> r[p] == Indicate(board[p], p in on)
  {
    map p | p in board :: Indicate(board[p], p in on)
  }

  /** GetValidMoves as a set: the squares a knight's move away from the player that are passable. */
  function ValidMoves(board: map<Coord, Cell>, player: Coord): (r: set<Coord>)
    ensures player !in r
    ensures forall p :: p in r ==> p in board
  {
    set p | p in board && IsKnightMove(Sub(p, player)) && Passable(board[p])
  }

  /** Hook `h` broadcast to every square, and the call logged. */
  function BroadcastHook(h: Hook, m: Machine): (r: Machine)
    requires Valid(m)
    ensures Valid(r) && r.player == m.player && r.isPlayerTurn == m.isPlayerTurn && r.queue == m.queue
    ensures r.calls == m.calls + [Each(h)]
  {
    m.(board := Broadcast(h, m.board), calls := m.calls + [Each(h)])
  }

  /** Hook `h` run on the square under the player, and the call logged. */
  function HookPlayerSquare(h: Hook, m: Machine): (r: Machine)
    requires Valid(m)
    ensures Valid(r) && r.player == m.player && r.isPlayerTurn == m.isPlayerTurn && r.queue == m.queue
    ensures r.calls == m.calls + [One(h, m.player)]
  {
    m.(board := HookAt(h, m.board, m.player), calls := m.calls + [One(h, m.player)])
  }

  /** HighlightSquares on the whole board. */
  function HighlightBoard(m: Machine, on: set<Coord>): (r: Machine)
    requires Valid(m)
    ensures Valid(r) && r.player == m.player && r.isPlayerTurn == m.isPlayerTurn && r.queue == m.queue
    ensures r.calls == m.calls
  {
    HighlightKeepsSound(m.board, on);
    m.(board := Highlight(m.board, on))
  }

  /** ActionQueue.QueueAction: the entry is appended behind every pending one. */
  function QueueAction(m: Machine, ph: Phase): (r: Machine)
    ensures r.board == m.board && r.player == m.player && r.isPlayerTurn == m.isPlayerTurn
    ensures r.queue == m.queue + [ph] && r.calls == m.calls
  {
    m.(queue := m.queue + [ph])
  }

  /** OnPlayerTurnStart: the turn opens, every square is told, and the valid moves are highlighted. */
  function OnPlayerTurnStart(m: Machine): (r: Machine)
    requires Valid(m)
    ensures Valid(r) && r.isPlayerTurn
    ensures r.player == m.player && r.queue == m.queue
    ensures r.calls == m.calls + [Each(PlayerTurnStart)]
  {
    var told := BroadcastHook(PlayerTurnStart, m.(isPlayerTurn := true));
    HighlightBoard(told, ValidMoves(told.board, told.player))
  }

  /** OnPlayerMove: every indicator goes off, the turn closes, and every square is told. */
  function OnPlayerMove(m: Machine): (r: Machine)
    requires Valid(m)
    ensures Valid(r) && !r.isPlayerTurn
    ensures r.player == m.player && r.queue == m.queue
    ensures r.calls == m.calls + [Each(PlayerMove)]
  {
    BroadcastHook(PlayerMove, HighlightBoard(m, {}).(isPlayerTurn := false))
  }

  /** OnPlayerLand: the square under the player is told, then the level's turn is queued. */
  function OnPlayerLand(m: Machine): (r: Machine)
    requires Valid(m)
    ensures Valid(r) && r.player == m.player && r.isPlayerTurn == m.isPlayerTurn
    ensures r.queue == m.queue + [QueuedLevelTurn]
    ensures r.calls == m.calls + [One(PlayerLand, m.player)]
  {
    QueueAction(HookPlayerSquare(PlayerLand, m), QueuedLevelTurn)
  }

  /** OnLevelTurn: every square takes its turn, then the player's next turn is queued. */
  function OnLevelTurn(m: Machine): (r: Machine)
    requires Valid(m)
    ensures Valid(r) && r.player == m.player && r.isPlayerTurn == m.isPlayerTurn
    ensures r.queue == m.queue + [QueuedTurnStart]
    ensures r.calls == m.calls + [Each(LevelTurn)]
  {
    QueueAction(BroadcastHook(LevelTurn, m), QueuedTurnStart)
  }

  /** The entry a queued action queues in its turn: each phase hands over to the next. */
  function FollowUp(ph: Phase): (r: seq<Phase>)
    ensures |r| <= 1 && (r == [] <==> ph == QueuedTurnStart)
    ensures QueuedLand !in r
  {
    match ph
    case QueuedLand => [QueuedLevelTurn]
    case QueuedLevelTurn => [QueuedTurnStart]
    case QueuedTurnStart => []
  }

  /** The hook call a queued action makes, with the player at `player`. */
  function CallOf(ph: Phase, player: Coord): (r: Call)
    ensures r.One? <==> ph == QueuedLand
    ensures r.One? ==> r.at == player && r.hook == PlayerLand
  {
    match ph
    case QueuedLand => One(PlayerLand, player)
    case QueuedLevelTurn => Each(LevelTurn)
    case QueuedTurnStart => Each(PlayerTurnStart)
  }

  /** Runs a queued action: its hook call is made, its follow-up queued, and only a turn start opens the turn. */
  function Run(m: Machine, ph: Phase): (r: Machine)
    requires Valid(m)
    ensures Valid(r) && r.player == m.player
    ensures r.queue == m.queue + FollowUp(ph) && r.calls == m.calls + [CallOf(ph, m.player)]
    ensures r.isPlayerTurn == (ph == QueuedTurnStart || m.isPlayerTurn)
  {
    match ph
    case QueuedLand => OnPlayerLand(m)
    case QueuedLevelTurn => OnLevelTurn(m)
    case QueuedTurnStart => OnPlayerTurnStart(m)
  }

  /**
   * Start, once the squares are built: the player is put on the start coordinate, every square
   * is told the level started, and the first turn opens.
   */
  function Start(board: map<Coord, Cell>, startPos: Coord, isPlayerTurn: bool,
                 queue: seq<Phase>, calls: seq<Call>): (r: Machine)
    requires SoundBoard(board) && startPos in board
    ensures Valid(r) && r.isPlayerTurn && r.player == startPos && r.queue == queue
    ensures r.board.Keys == board.Keys
    ensures r.calls == calls + [Each(LevelStart), Each(PlayerTurnStart)]
  {
    OnPlayerTurnStart(BroadcastHook(LevelStart, Machine(board, startPos, isPlayerTurn, queue, calls)))
  }

  /** Whether a click on `target` is acted on. */
  predicate Accepts(m: Machine, target: Coord)
    ensures Accepts(m, target) ==>
              m.isPlayerTurn && target in m.board && target != m.player && Passable(m.board[target])
  {
    m.isPlayerTurn && target in ValidMoves(m.board, m.player)
  }

  /** An accepted click: the player's square sees it leave, OnPlayerMove runs and the landing is queued. */
  function MakeMove(m: Machine): (r: Machine)
    requires Valid(m)
    ensures Valid(r) && r.player == m.player && !r.isPlayerTurn
    ensures r.queue == m.queue + [QueuedLand]
    ensures r.calls == m.calls + [One(PlayerLeave, m.player), Each(PlayerMove)]
  {
    QueueAction(OnPlayerMove(HookPlayerSquare(PlayerLeave, m)), QueuedLand)
  }

  /** The click handling of Update: an accepted click makes the move; any other click does nothing. */
  function Click(m: Machine, target: Coord): (r: Machine)
    requires Valid(m)
    ensures Valid(r) && r.player == m.player
    ensures !Accepts(m, target) ==> r == m
  {
    if Accepts(m, target) then MakeMove(m) else m
  }

  /** The action queue's turn in a frame: when the engine is ready, the oldest entry is popped and run. */
  function Dispatch(m: Machine, ready: bool): (r: Machine)
    requires Valid(m)
    ensures Valid(r) && r.player == m.player
    ensures !ready || m.queue == [] ==> r == m
    ensures ready && m.queue != [] ==>
              && r.queue == m.queue[1..] + FollowUp(m.queue[0])
              && r.calls == m.calls + [CallOf(m.queue[0], m.player)]
              && r.isPlayerTurn == (m.queue[0] == QueuedTurnStart || m.isPlayerTurn)
  {
    if ready && |m.queue| > 0 then Run(m.(queue := m.queue[1..]), m.queue[0]) else m
  }

  /** One frame: the click this frame, if any, then the action queue. */
  function Update(m: Machine, click: Option<Coord>, ready: bool): (r: Machine)
    requires Valid(m)
    ensures Valid(r) && r.player == m.player
  {
    Dispatch(if click.Some? then Click(m, click.value) else m, ready)
  }

  // ------------------------------------------------------------------ lemmas

  lemma HighlightKeepsSound(board: map<Coord, Cell>, on: set<Coord>)
    requires SoundBoard(board)
    ensures SoundBoard(Highlight(board, on))
  {
    forall p | p in Highlight(board, on)
      ensures Sound(Highlight(board, on)[p])
    {
      assert Indicate(board[p], p in on).dyn.state == board[p].dyn.state;
    }
  }

  /** Indicators do not change passability, so highlighting leaves the valid moves as they were. */
  lemma HighlightKeepsMoves(board: map<Coord, Cell>, on: set<Coord>, player: Coord)
    ensures ValidMoves(Highlight(board, on), player) == ValidMoves(board, player)
  {
    forall p | p in board
      ensures Passable(Highlight(board, on)[p]) == Passable(board[p])
    {
      assert Indicate(board[p], p in on).dyn.passable == board[p].dyn.passable;
    }
  }

  /** Hooks do not change passability either, so broadcasting one leaves the valid moves as they were. */
  lemma BroadcastKeepsMoves(h: Hook, board: map<Coord, Cell>, player: Coord)
    requires SoundBoard(board)
    ensures ValidMoves(Broadcast(h, board), player) == ValidMoves(board, player)
  {
    forall p | p in board
      ensures Passable(Broadcast(h, board)[p]) == Passable(board[p])
    {
      assert Passable(After(h, board[p])) == Passable(board[p]);
    }
  }

  /** At the start of the player's turn the indicators show exactly the valid moves. */
  lemma TurnStartHighlightsMoves(m: Machine)
    requires Valid(m)
    ensures var r := OnPlayerTurnStart(m);
            forall p :: p in r.board ==> (r.board[p].dyn.indicator <==> p in ValidMoves(r.board, r.player))
  {
    var b := Broadcast(PlayerTurnStart, m.board);
    HighlightKeepsMoves(b, ValidMoves(b, m.player), m.player);
  }

  /** Once the move is made every indicator is off, and stays off through the hooks. */
  lemma MoveClearsHighlights(m: Machine)
    requires Valid(m)
    ensures var r := OnPlayerMove(m);
            forall p :: p in r.board ==> !r.board[p].dyn.indicator
  {
    HighlightKeepsSound(m.board, {});
  }

  /** An independent description of the valid moves: one coordinate differs by one, the other by two. */
  lemma ValidMovesShape(board: map<Coord, Cell>, player: Coord, p: Coord)
    ensures p in ValidMoves(board, player) <==>
              && p in board && Passable(board[p])
              && ((Abs(p.x - player.x) == 1 && Abs(p.y - player.y) == 2) ||
                  (Abs(p.x - player.x) == 2 && Abs(p.y - player.y) == 1))
  {
    KnightMoveShape(Sub(p, player));
  }

  /** A click changes anything exactly when it is the player's turn and the target is a valid move. */
  lemma ClickGate(m: Machine, target: Coord)
    requires Valid(m)
    ensures Click(m, target) != m <==> Accepts(m, target)
    ensures Accepts(m, target) ==>
              && !Click(m, target).isPlayerTurn
              && Click(m, target).queue == m.queue + [QueuedLand]
              && Click(m, target).calls == m.calls + [One(PlayerLeave, m.player), Each(PlayerMove)]
  {
    if Accepts(m, target) {
      assert |Click(m, target).queue| == |m.queue| + 1;
    }
  }

  /**
   * Only a popped OnPlayerTurnStart opens the player's turn: in a frame that starts with the turn
   * closed, the turn ends open exactly when the queue was ready with that entry at its head.
   */
  lemma TurnOpensOnlyAtTurnStart(m: Machine, click: Option<Coord>, ready: bool)
    requires Valid(m) && !m.isPlayerTurn
    ensures Update(m, click, ready).isPlayerTurn <==> ready && |m.queue| > 0 && m.queue[0] == QueuedTurnStart
  {
    var c := if click.Some? then Click(m, click.value) else m;
    assert c == m;
    if ready && |m.queue| > 0 {
      assert Update(m, click, ready) == Run(m.(queue := m.queue[1..]), m.queue[0]);
    }
  }

  /** While the turn is closed a click is ignored, whatever its target. */
  lemma NoMoveWhileWaiting(m: Machine, target: Coord, ready: bool)
    requires Valid(m) && !m.isPlayerTurn
    ensures Update(m, Some(target), ready) == Dispatch(m, ready)
    ensures Update(m, Some(target), ready).calls == (if ready && m.queue != [] then Run(m.(queue := m.queue[1..]), m.queue[0]).calls else m.calls)
  {
    assert !Accepts(m, target);
  }

  /** The frame of an accepted click, with the queue not yet ready. */
  lemma ClickFrame(m: Machine, target: Coord)
    requires Valid(m) && m.queue == [] && Accepts(m, target)
    ensures var r := Update(m, Some(target), false);
            && r.player == m.player && !r.isPlayerTurn && r.queue == [QueuedLand]
            && r.calls == m.calls + [One(PlayerLeave, m.player), Each(PlayerMove)]
  {
    ClickGate(m, target);
  }

  /** What the frame of an accepted click does to each square. */
  lemma ClickBoard(m: Machine, target: Coord)
    requires Valid(m) && Accepts(m, target)
    ensures var r := Update(m, Some(target), false);
            && r.board.Keys == m.board.Keys
            && forall p :: p in m.board ==>
                 r.board[p] == After(PlayerMove, Indicate(HookAt(PlayerLeave, m.board, m.player)[p], false))
  {
  }

  /**
   * The states the controller reaches once started: at most one action is pending, and the
   * queue is empty exactly while the player's turn is open.
   */
  predicate Settled(m: Machine) {
    |m.queue| <= 1 && (m.isPlayerTurn <==> m.queue == [])
  }

  /** A start with nothing pending settles the controller. */
  lemma StartSettles(board: map<Coord, Cell>, startPos: Coord, isPlayerTurn: bool, calls: seq<Call>)
    requires SoundBoard(board) && startPos in board
    ensures Settled(Start(board, startPos, isPlayerTurn, [], calls))
  {
  }

  /**
   * Every frame keeps the controller settled: a click is acted on only while the queue is empty
   * and queues one entry, and each popped entry queues at most one more.
   */
  lemma UpdateKeepsSettled(m: Machine, click: Option<Coord>, ready: bool)
    requires Valid(m) && Settled(m)
    ensures Settled(Update(m, click, ready))
  {
    var c := if click.Some? then Click(m, click.value) else m;
    assert Settled(c);
    if ready && c.queue != [] {
      assert c.queue[1..] == [];
    }
  }

  /**
   * A settled state meets MoveCycle's demand that nothing be pending, and one move later the
   * controller is settled again, with the turn open.
   */
  lemma SettledMoveCycle(m: Machine, target: Coord)
    requires Valid(m) && Settled(m) && Accepts(m, target)
    ensures m.queue == []
    ensures var m4 := Update(Update(Update(Update(m, Some(target), false), None, true), None, true), None, true);
            Settled(m4) && m4.isPlayerTurn
  {
    MoveCycle(m, target);
  }

  /** A ready frame with no click runs the one queued entry. */
  lemma PopOnly(m: Machine, ph: Phase)
    requires Valid(m) && m.queue == [ph]
    ensures Update(m, None, true) == Run(m.(queue := []), ph)
  {
    assert m.queue[1..] == [];
  }

  lemma LandFrame(m: Machine)
    requires Valid(m) && m.queue == [QueuedLand]
    ensures var r := Update(m, None, true);
            && r.player == m.player && r.isPlayerTurn == m.isPlayerTurn && r.queue == [QueuedLevelTurn]
            && r.calls == m.calls + [One(PlayerLand, m.player)]
            && r.board == HookAt(PlayerLand, m.board, m.player)
  {
    PopOnly(m, QueuedLand);
  }

  lemma LevelTurnFrame(m: Machine)
    requires Valid(m) && m.queue == [QueuedLevelTurn]
    ensures var r := Update(m, None, true);
            && r.player == m.player && r.isPlayerTurn == m.isPlayerTurn && r.queue == [QueuedTurnStart]
            && r.calls == m.calls + [Each(LevelTurn)]
            && r.board == Broadcast(LevelTurn, m.board)
  {
    PopOnly(m, QueuedLevelTurn);
  }

  lemma TurnStartFrame(m: Machine)
    requires Valid(m) && m.queue == [QueuedTurnStart]
    ensures var r := Update(m, None, true);
            && r.player == m.player && r.isPlayerTurn && r.queue == []
            && r.calls == m.calls + [Each(PlayerTurnStart)]
  {
    PopOnly(m, QueuedTurnStart);
  }

  lemma TurnStartBoard(m: Machine)
    requires Valid(m) && m.queue == [QueuedTurnStart]
    ensures var r := Update(m, None, true);
            && r.board.Keys == m.board.Keys
            && forall p :: p in m.board ==>
                 r.board[p] == Indicate(After(PlayerTurnStart, m.board[p]), r.board[p].dyn.indicator)
  {
    PopOnly(m, QueuedTurnStart);
  }

  /**
   * One move, frame by frame: the accepted click (the queue not yet ready), then three ready
   * frames. The hooks run in the fixed order leave, move, land, level turn, turn start; the turn
   * stays closed until the last frame; and the queue ends as it began.
   */
  lemma MoveCycle(m: Machine, target: Coord)
    requires Valid(m) && m.queue == [] && Accepts(m, target)
    ensures var m1 := Update(m, Some(target), false);
            var m2 := Update(m1, None, true);
            var m3 := Update(m2, None, true);
            var m4 := Update(m3, None, true);
            && m1.queue == [QueuedLand] && m2.queue == [QueuedLevelTurn] && m3.queue == [QueuedTurnStart]
            && m4.queue == []
            && !m1.isPlayerTurn && !m2.isPlayerTurn && !m3.isPlayerTurn && m4.isPlayerTurn
            && m4.calls == m.calls + [One(PlayerLeave, m.player), Each(PlayerMove)] + [One(PlayerLand, m.player)]
                                   + [Each(LevelTurn)] + [Each(PlayerTurnStart)]
  {
    var m1 := Update(m, Some(target), false);
    ClickFrame(m, target);
    var m2 := Update(m1, None, true);
    LandFrame(m1);
    var m3 := Update(m2, None, true);
    LevelTurnFrame(m2);
    TurnStartFrame(m3);
  }

  /**
   * What one move does to the squares: passability is unchanged and every spike's counter has
   * gone up by exactly one.
   */
  lemma MoveCycleSquares(m: Machine, target: Coord)
    requires Valid(m) && m.queue == [] && Accepts(m, target)
    ensures var m4 := Update(Update(Update(Update(m, Some(target), false), None, true), None, true), None, true);
            && m4.board.Keys == m.board.Keys
            && (forall p :: p in m4.board ==> Passable(m4.board[p]) == Passable(m.board[p]))
            && (forall p :: p in m4.board && m.board[p].tileType.SpikeDown? ==>
                  m4.board[p].dyn.spike.turnCounter == S.Increment(m.board[p].dyn.spike.turnCounter))
  {
    var m1 := Update(m, Some(target), false);
    ClickFrame(m, target);
    ClickBoard(m, target);
    var m2 := Update(m1, None, true);
    LandFrame(m1);
    var m3 := Update(m2, None, true);
    LevelTurnFrame(m2);
    var m4 := Update(m3, None, true);
    TurnStartBoard(m3);
    var left := HookAt(PlayerLeave, m.board, m.player);
    forall p | p in m4.board
      ensures Passable(m4.board[p]) == Passable(m.board[p])
      ensures m.board[p].tileType.SpikeDown? ==>
                m4.board[p].dyn.spike.turnCounter == S.Increment(m.board[p].dyn.spike.turnCounter)
    {
      CellThroughCycle(m.board[p], left[p], m1.board[p], m2.board[p], m3.board[p], m4.board[p]);
    }
  }

  /** The per-square part of MoveCycle: only OnPlayerMove touches a spike's counter or passability. */
  lemma CellThroughCycle(c: Cell, c0: Cell, c1: Cell, c2: Cell, c3: Cell, c4: Cell)
    requires Sound(c) && (c0 == c || c0 == After(PlayerLeave, c))
    requires c1 == After(PlayerMove, Indicate(c0, false))
    requires c2 == c1 || c2 == After(PlayerLand, c1)
    requires c3 == After(LevelTurn, c2)
    requires c4 == Indicate(After(PlayerTurnStart, c3), c4.dyn.indicator)
    ensures Passable(c4) == Passable(c)
    ensures c.tileType.SpikeDown? ==> c4.dyn.spike.turnCounter == S.Increment(c.dyn.spike.turnCounter)
  {
    assert Sound(Indicate(c0, false)) by {
      assert Indicate(c0, false).dyn.state == c0.dyn.state;
    }
  }
}
