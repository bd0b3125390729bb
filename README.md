# Rules layer of a grid puzzle with a knight

A Dafny model of the gameplay rules of a Unity puzzle in which the player moves like a chess
knight across a level of typed squares. The model covers these parts:

- The **turn controller** (`SquareManager`):
  - it builds the level's squares and checks and wires their links;
  - it broadcasts the lifecycle hooks;
  - it accepts a click only in the player's turn and only on a valid knight move;
  - it hands the later phases of a move to a FIFO action queue.
- The **level builder** (`LevelBuilder`):
  - it reconciles the squares already in the scene with a level's tile list;
  - it decides for each tile whether its insertion is animated;
  - it calls an optional callback on each new square;
  - it retires the squares that were left over;
  - it checks the links (one hard failure, two warnings) and wires them in descriptor order.
- The **square** (`Square`): capability flags, and the default `Links` and `State` accessors that warn and yield a safe default.
- The **button** square: a pressed flag and the charge it publishes.
- The **retracting spike** square: a turn counter, with landing lethal when the counter is a multiple of the square's state.
- The **rook** enemy: a recursive straight-line capture search, and otherwise a forward, reverse or stay rule with a direction flip.

Modules:

| module | file | what it holds |
|---|---|---|
| `Grid` | grid.dfy | coordinates and the knight offsets |
| `ButtonSquare`, `SpikeDownSquare` | button.dfy, spike.dfy | each variant's hooks as transitions on its local state; C#'s truncating `%` and `int` wrap-around written out |
| `Tiles` | tiles.dfy | tile types, per-variant capabilities, level data, hooks, and `After` (what a hook does to a square's state) |
| `Squares` | square.dfy | the class `Square`, whose hook methods are proved to perform `Tiles.After` |
| `Links` | links.dfy | `ValidateLinks` (a loop proved against the function `Check`) and the wiring loop |
| `LevelBuilder` | levelbuilder.dfy | the reconciling builder, with the engine's object lifecycle recorded as an event log |
| `Build` | build.dfy | the squares as `SquareManager.BuildLevel` leaves them |
| `TurnCycle` | turncycle.dfy | the turn controller as a state machine on values, with the lemmas about a whole move |
| `Controller` | squaremanager.dfy | the class `SquareManager`; every operation is proved to perform the matching `TurnCycle` transition on `Snapshot()` |
| `Enemies` | rook.dfy | the rook's capture search, its decision, and the class `Rook` |

The square hierarchy is modelled as one class over a closed set of variants: `Button`, `SpikeDown` and `Other`.
- The capability flags are constants.
- Every variant's fields are fields of that class.
- Each hook dispatches on the variant.
- A hook that a variant does not override does nothing.

The controller's methods change only the fields the hooks write: the indicator and the button and spike state. Their `modifies` clauses name those fields alone. So no hook broadcast changes a square's position, graphics variant or links. `Build.LevelWired`, the part of a build that the hooks keep, reads only those fields, and `Start` ensures it.

The prefab table enters as a parameter `catalog`. It maps each tile type to its `Caps`, which say whether the prefab's square is linkable, is multi-state, and starts passable.

Four behaviours of the code that the model follows as written:
- **The player's coordinate.** `SquareManager.PlayerPos` is set once in `Start` (SquareManager.cs:66) and never updated afterwards. So in the model the player's coordinate stays constant through a move. `OnPlayerLand`, `OnPlayerLeave` and the next `GetValidMoves` all use the start coordinate. `TurnCycle.MoveCycle` states this: the landing hook goes to the same coordinate as the leaving hook.
- **When `OnPlayerMove` runs.** `OnPlayerMove` runs right away when the click is accepted (SquareManager.cs:95). Only the landing is queued; the move broadcast is not.
- **Rebuilding a square of the same type.** `LevelBuilder.BuildLevel` destroys and re-creates an existing square even when its tile type is unchanged (LevelBuilder.cs:54-58). Only the insertion animation is skipped (`LevelBuilder.SameTypeRecreated`).
- **When the links are checked.** The link check runs after every square has been created and every old one destroyed (LevelBuilder.cs:118). A failing check therefore leaves a rebuilt but unwired level.

## Model

| member | source | states |
|---|---|---|
| Grid.KnightMoveShape | Assets/Scripts/Gameplay/SquareManager.cs:49-59 | an offset is in the knight table iff one coordinate changes by 1 and the other by 2 |
| Grid.KnightMovesDistinctNonZero | Assets/Scripts/Gameplay/SquareManager.cs:49-59 | the table has no zero offset and no repeated entry, so the player's own coordinate is never a move |
| ButtonSquare.SetPressed | Assets/Scripts/Squares/ButtonSquare.cs:30-41 | writing IsPressed stores the value and recomputes the charge, which then equals the pressed flag; one charge update per write |
| ButtonSquare.RecalculateCharge | Assets/Scripts/Squares/ButtonSquare.cs:44-47 | the charge is a function of the pressed flag alone; ButtonSquare.SetPressed shows that after every write it equals that flag |
| ButtonSquare.UpdateOutgoingCharge | Assets/Scripts/Squares/ButtonSquare.cs:39 | recomputes the charge from the pressed flag and counts one update; ButtonSquare.SetPressed states the resulting consistency |
| ButtonSquare.OnPlayerLand | Assets/Scripts/Squares/ButtonSquare.cs:50-56 | after landing the button is pressed and charged |
| ButtonSquare.OnPlayerLeave | Assets/Scripts/Squares/ButtonSquare.cs:59-65 | after leaving the button is neither pressed nor charged |
| ButtonSquare.LandIdempotent | Assets/Scripts/Squares/ButtonSquare.cs:50-56 | landing twice gives the same pressed flag and charge as landing once |
| ButtonSquare.LandThenLeave | Assets/Scripts/Squares/ButtonSquare.cs:50-65 | land then leave returns to the pressed flag and charge of a fresh button |
| SpikeDownSquare.Increment | Assets/Scripts/Squares/SpikeDownSquare.cs:58 | `_turnCounter++` adds one below the int maximum and wraps to the int minimum at it |
| SpikeDownSquare.Rem | Assets/Scripts/Squares/SpikeDownSquare.cs:59 | C#'s `%`: the result is strictly smaller in magnitude than the divisor and has the dividend's sign |
| SpikeDownSquare.RemZeroIffDivides | Assets/Scripts/Squares/SpikeDownSquare.cs:81 | the truncated remainder is zero exactly when the divisor divides the counter, for any signs |
| SpikeDownSquare.ApplyVisuals | Assets/Scripts/Squares/SpikeDownSquare.cs:115-119 | the graphics go to the active position iff counter % State == 0; the counter is unchanged |
| SpikeDownSquare.OnLevelStart | Assets/Scripts/Squares/SpikeDownSquare.cs:97-102 | the counter becomes 1, and the spike shows active iff the period is 1 or -1 |
| SpikeDownSquare.OnPlayerMove | Assets/Scripts/Squares/SpikeDownSquare.cs:56-70 | the counter goes up by one (with int wrap); the visuals are refreshed exactly on the ticks where counter % State is 0 or 1 and are left alone otherwise |
| SpikeDownSquare.OnPlayerLand | Assets/Scripts/Squares/SpikeDownSquare.cs:76-91 | landing is lethal iff counter % State == 0; the state is not changed |
| SpikeDownSquare.CounterAfterMoves | Assets/Scripts/Squares/SpikeDownSquare.cs:56-58 | n moves add exactly n to the counter (below the wrap) |
| SpikeDownSquare.LethalAfterMoves | Assets/Scripts/Squares/SpikeDownSquare.cs:76-102 | after level start and n moves the counter is n+1, and landing kills iff the period divides n+1 |
| SpikeDownSquare.StartsDown | Assets/Scripts/Squares/SpikeDownSquare.cs:5-9 | with a period of magnitude at least 2 the spike starts retracted and landing on it at once is safe |
| SpikeDownSquare.PeriodThree | Assets/Scripts/Squares/SpikeDownSquare.cs:76-91 | period 3, counters 1..6: safe, safe, lethal, safe, safe, lethal |
| Tiles.StateOf | Assets/Scripts/Gameplay/Square.cs:44-50 | the State getter of a variant without states yields 0 |
| Tiles.PassableOf | Assets/Scripts/Squares/ButtonSquare.cs:13-23 | buttons and spikes always report passable; other variants report their stored flag |
| Tiles.After | Assets/Scripts/Squares/SpikeDownSquare.cs:56-110 | a hook never changes a square's variant, stored state, passability or indicator; only landing and leaving touch a button, and only level start and player move touch a spike; other variants are unchanged |
| Tiles.Lethal | Assets/Scripts/Squares/SpikeDownSquare.cs:76-91 | landing kills exactly on an active spike |
| Tiles.Indicate | Assets/Scripts/Gameplay/SquareManager.cs:359 | IndicateMoveValidity sets the indicator and changes nothing else |
| Tiles.InitialDyn | Assets/Scripts/Gameplay/LevelBuilder.cs:85-91 | a new square reads back the tile's initial state only if it is multi-state (otherwise 0); the indicator is off; the button and spike start fresh |
| Squares.Square.constructor | Assets/Scripts/Gameplay/Square.cs:13-39 | the variant, IsLinkable and IsMultiState are fixed at creation and never assigned again |
| Squares.Square.IsPassable | Assets/Scripts/Gameplay/Square.cs:65 | buttons and spikes are passable; other variants report their stored flag |
| Squares.Square.State | Assets/Scripts/Gameplay/Square.cs:44-50 | the getter yields 0 on a variant without states, and the stored value otherwise |
| Squares.Square.SetState | Assets/Scripts/Gameplay/Square.cs:51-54 | the default setter warns and stores nothing, so a read after any write still yields 0 |
| Squares.Square.Links | Assets/Scripts/Gameplay/Square.cs:23-29 | a linkable square yields its stored list (the override the model assumes); any other square yields the default getter's new empty list |
| Squares.Square.SetLinks | Assets/Scripts/Gameplay/Square.cs:30-33 | the default setter warns and stores nothing, so a later read is still empty |
| Squares.Square.AddLink | Assets/Scripts/Gameplay/LevelBuilder.cs:134 | `Links.Add` appends on a linkable square and is lost on any other |
| Squares.Square.SetPassable | Assets/Scripts/Squares/ButtonSquare.cs:19-22 | the protected setter warns on a button, is ignored on a spike, and stores the value on other variants |
| Squares.Square.IndicateMoveValidity | Assets/Scripts/Gameplay/SquareManager.cs:359 | the square performs Tiles.Indicate |
| Squares.Square.RecalculateCharge | Assets/Scripts/Squares/ButtonSquare.cs:44-47 | a button's charge is its pressed flag |
| Squares.Square.UpdateOutgoingCharge | Assets/Scripts/Squares/ButtonSquare.cs:39 | the square performs ButtonSquare.UpdateOutgoingCharge on its button fields |
| Squares.Square.SetPressed | Assets/Scripts/Squares/ButtonSquare.cs:30-41 | the setter performs ButtonSquare.SetPressed on the square's fields |
| Squares.Square.ButtonOnPlayerLand | Assets/Scripts/Squares/ButtonSquare.cs:50-56 | afterwards pressed and charged; the square performs Tiles.After(PlayerLand) |
| Squares.Square.ButtonOnPlayerLeave | Assets/Scripts/Squares/ButtonSquare.cs:59-65 | afterwards neither pressed nor charged; the square performs Tiles.After(PlayerLeave) |
| Squares.Square.ApplyVisuals | Assets/Scripts/Squares/SpikeDownSquare.cs:115-119 | the square performs SpikeDownSquare.ApplyVisuals |
| Squares.Square.SpikeOnLevelStart | Assets/Scripts/Squares/SpikeDownSquare.cs:97-102 | the counter becomes 1; the square performs Tiles.After(LevelStart) |
| Squares.Square.SpikeOnPlayerMove | Assets/Scripts/Squares/SpikeDownSquare.cs:56-70 | the counter is incremented with int wrap; the square performs Tiles.After(PlayerMove) |
| Squares.Square.SpikeOnPlayerLand | Assets/Scripts/Squares/SpikeDownSquare.cs:76-91 | reports death iff counter % State == 0, changing nothing |
| Squares.Square.OnLevelStart | Assets/Scripts/Gameplay/SquareManager.cs:72-75 | the hook performs Tiles.After(LevelStart) and leaves position, graphics variant and links alone |
| Squares.Square.OnPlayerTurnStart | Assets/Scripts/Gameplay/SquareManager.cs:114-117 | no variant overrides it: it changes nothing |
| Squares.Square.OnPlayerMove | Assets/Scripts/Gameplay/SquareManager.cs:132-135 | the hook performs Tiles.After(PlayerMove) and leaves the set-up alone |
| Squares.Square.OnPlayerLand | Assets/Scripts/Gameplay/SquareManager.cs:143 | the hook performs Tiles.After(PlayerLand) and reports death exactly on an active spike |
| Squares.Square.OnPlayerLeave | Assets/Scripts/Gameplay/SquareManager.cs:89 | the hook performs Tiles.After(PlayerLeave) |
| Squares.Square.OnLevelTurn | Assets/Scripts/Squares/SpikeDownSquare.cs:107-110 | no variant modelled here acts on it: it changes nothing |
| Squares.Square.RunHook | Assets/Scripts/Gameplay/SquareManager.cs:155-158 | running hook h performs Tiles.After(h) and keeps the set-up |
| Squares.Instantiate | Assets/Scripts/Gameplay/LevelBuilder.cs:62-91 | a fresh square at the tile's position, with its graphics variant, its state set only if it is multi-state, the indicator off, and no links |
| Links.FirstMissing | Assets/Scripts/Gameplay/LevelBuilder.cs:241-247 | None iff every link names a square; otherwise the earliest link that names none |
| Links.TileWarnings | Assets/Scripts/Gameplay/LevelBuilder.cs:229-238 | the warnings one tile's iteration logs; Links.TileWarningsShape characterises them |
| Links.TileWarningsShape | Assets/Scripts/Gameplay/LevelBuilder.cs:229-238 | a tile's warnings concern only its own coordinate, at most one of each kind: a self-link warning iff it lists itself, an unlinkable warning iff it has links and its square is not linkable |
| Links.Check | Assets/Scripts/Gameplay/LevelBuilder.cs:219-249 | the check over the tiles in order; Links.CheckFailsIffDangling, Links.CheckErrorIsDangling, Links.CheckSelfLinkWarnings, Links.CheckUnlinkableWarnings and Links.CheckStopsAtError characterise it |
| Links.CheckFailsIffDangling | Assets/Scripts/Gameplay/LevelBuilder.cs:219-249 | the check fails iff some tile links to a coordinate with no square; self-links and unlinkable squares never fail it |
| Links.CheckErrorIsDangling | Assets/Scripts/Gameplay/LevelBuilder.cs:245 | the error names a tile's coordinate and one of that tile's links, which has no square |
| Links.CheckSelfLinkWarnings | Assets/Scripts/Gameplay/LevelBuilder.cs:229-232 | a passing check warns of a self-link at p iff some tile at p lists p among its links |
| Links.CheckUnlinkableWarnings | Assets/Scripts/Gameplay/LevelBuilder.cs:235-238 | a passing check warns of links on an unlinkable square at p iff a tile at p has links and its square is not linkable |
| Links.CheckStopsAtError | Assets/Scripts/Gameplay/LevelBuilder.cs:245 | once the tiles so far fail, the whole check fails the same way: the throw ends the loop |
| Links.ValidateLinks | Assets/Scripts/Gameplay/LevelBuilder.cs:219-249 | the loop returns Check's verdict, and it fails iff some link dangles |
| Links.FindMissing | Assets/Scripts/Gameplay/LevelBuilder.cs:241-247 | the inner loop finds the earliest link with no square |
| Links.Resolve | Assets/Scripts/Gameplay/LevelBuilder.cs:131-135 | one square per link coordinate, in descriptor order, duplicates kept |
| Links.LinkableOf | Assets/Scripts/Gameplay/LevelBuilder.cs:235 | the linkability the check reads for each square |
| Links.PassingCheckResolves | Assets/Scripts/Gameplay/LevelBuilder.cs:118-135 | after a passing check every `squares[link]` lookup of the wiring loop is defined |
| Links.WireLinks | Assets/Scripts/Gameplay/LevelBuilder.cs:121-137 | each linkable square's links become its tile's link targets in order; an unlinkable square's links are not assigned; nothing else about any square changes |
| Links.FillLinks | Assets/Scripts/Gameplay/LevelBuilder.cs:130-135 | a new list filled by appending the square at each link coordinate |
| LevelBuilder.InAt | Assets/Scripts/Gameplay/LevelBuilder.cs:48 | FindAll keeps exactly the existing squares at the tile's position |
| LevelBuilder.Animate | Assets/Scripts/Gameplay/LevelBuilder.cs:47-53 | whether a tile's insertion is animated; LevelBuilder.ScaledInIff and LevelBuilder.SameTypeRecreated characterise it |
| LevelBuilder.TileEvents | Assets/Scripts/Gameplay/LevelBuilder.cs:43-106 | one tile's events; LevelBuilder.ScaledInIff, LevelBuilder.CallbackBeforeAdd and LevelBuilder.SameTypeRecreated characterise them |
| LevelBuilder.TilesEvents | Assets/Scripts/Gameplay/LevelBuilder.cs:43-106 | the tile loop's events; LevelBuilder.CallbackOncePerTileInOrder and LevelBuilder.CreateSquares characterise them |
| LevelBuilder.BuildLog | Assets/Scripts/Gameplay/LevelBuilder.cs:43-115 | the whole log, the tile loop and then the fade-outs; LevelBuilder.EveryExistingDestroyed and LevelBuilder.BuildLevel characterise it |
| LevelBuilder.ScaledInIff | Assets/Scripts/Gameplay/LevelBuilder.cs:47-53 | the insertion is animated iff the duration is positive and either no existing square was at the position or the first one listed there had another type |
| LevelBuilder.SameTypeRecreated | Assets/Scripts/Gameplay/LevelBuilder.cs:54-58 | a square replaced by one of the same type is still destroyed and a new one added; only the animation is skipped |
| LevelBuilder.EveryExistingDestroyed | Assets/Scripts/Gameplay/LevelBuilder.cs:54-115 | every square that was in the scene is destroyed: in the tile loop when a tile sits at its position, otherwise after it |
| LevelBuilder.CallbackOncePerTileInOrder | Assets/Scripts/Gameplay/LevelBuilder.cs:94 | with a callback, it receives the new squares once each and in tile order; without one there is no call |
| LevelBuilder.CallbackBeforeAdd | Assets/Scripts/Gameplay/LevelBuilder.cs:94-97 | the callback sees a square immediately before it enters the dictionary |
| LevelBuilder.RemoveConflicting | Assets/Scripts/Gameplay/LevelBuilder.cs:47-59 | the squares at the tile's position leave the list and are destroyed in list order; the animation flag is decided from the first of them |
| LevelBuilder.DestroyEach | Assets/Scripts/Gameplay/LevelBuilder.cs:54-58 | removing each conflicting square in turn leaves the list without exactly those squares, in order |
| LevelBuilder.RemoveFirstWithout | Assets/Scripts/Gameplay/LevelBuilder.cs:56 | List.Remove of a square listed once is filtering it out |
| LevelBuilder.RetireLeftovers | Assets/Scripts/Gameplay/LevelBuilder.cs:109-115 | each remaining square is faded out and destroyed, in list order |
| LevelBuilder.PlaceTile | Assets/Scripts/Gameplay/LevelBuilder.cs:43-106 | one iteration keeps the loop state: the remaining squares are those away from the tiles placed so far, the log holds their events, and each placed tile has its own set-up square |
| LevelBuilder.CreateSquares | Assets/Scripts/Gameplay/LevelBuilder.cs:43-106 | after the tile loop every tile has a fresh square set up from it, the squares left over are exactly those away from every tile, and the log holds the tiles' events |
| LevelBuilder.PlacedAll | Assets/Scripts/Gameplay/LevelBuilder.cs:97 | the dictionary's keys are exactly the tile positions, and distinct tiles have distinct squares |
| LevelBuilder.BuildLevel | Assets/Scripts/Gameplay/LevelBuilder.cs:22-138 | the log is the reconciliation's events; one fresh square per tile position, set up from its tile; the verdict is the check on the new squares; when it passes every linkable square is wired to its targets, otherwise no square is wired |
| Build.InitialBoard | Assets/Scripts/Gameplay/SquareManager.cs:181-216 | the board of a fresh level: each tile position holds its tile's variant and initial state |
| Build.InitialBoardSound | Assets/Scripts/Gameplay/SquareManager.cs:72-75 | when every spike has a nonzero period, every hook of the fresh board runs without fault |
| Build.CreateSquares | Assets/Scripts/Gameplay/SquareManager.cs:181-216 | the creation loop: one fresh square per tile, each set up from its tile, and no other key |
| Build.BuildSquares | Assets/Scripts/Gameplay/SquareManager.cs:168-239 | the squares are fresh and distinct, one per tile, each in its tile's initial state; the verdict is the link check on them; when it passes each linkable square is wired to its targets in order |
| Build.BuiltFromTiles | Assets/Scripts/Gameplay/SquareManager.cs:222-238 | each built square has its tile's position and graphics variant, and the links its tile names exactly when the check passed and it is linkable |
| Build.Setups | Assets/Scripts/Gameplay/SquareManager.cs:222-238 | the position, graphics variant and links of every square, by coordinate |
| Build.BuiltIsWired | Assets/Scripts/Gameplay/SquareManager.cs:181-238 | a built level is wired: each square keeps its tile's position and graphics variant and the links the build gave it |
| Build.StillWired | Assets/Scripts/Gameplay/SquareManager.cs:181-238 | squares still holding the set-ups recorded from a build are wired as that build left them |
| Build.BuiltLevelHolds | Assets/Scripts/Gameplay/SquareManager.cs:181-216 | a build's squares are distinct objects, each at its own coordinate, holding the initial board |
| TurnCycle.Broadcast | Assets/Scripts/Gameplay/SquareManager.cs:132-135 | a broadcast runs the hook on every square and on nothing else, keeping every hook's precondition |
| TurnCycle.HookAt | Assets/Scripts/Gameplay/SquareManager.cs:143 | the hook runs on one square only; every other square is unchanged |
| TurnCycle.BroadcastHook | Assets/Scripts/Gameplay/SquareManager.cs:114-117 | the hook reaches every square, the call is logged once, and the player, the turn flag and the queue are unchanged |
| TurnCycle.HookPlayerSquare | Assets/Scripts/Gameplay/SquareManager.cs:143 | only the player's square is hooked, the call is logged with the player's coordinate, and nothing else changes |
| TurnCycle.HighlightBoard | Assets/Scripts/Gameplay/SquareManager.cs:120 | highlighting keeps the machine sound and changes no player, flag, queue or log |
| TurnCycle.Highlight | Assets/Scripts/Gameplay/SquareManager.cs:354-361 | each indicator is on iff its coordinate is listed |
| TurnCycle.ValidMoves | Assets/Scripts/Gameplay/SquareManager.cs:335-348 | the valid moves are squares of the board and never the player's own coordinate |
| TurnCycle.QueueAction | Assets/Scripts/Gameplay/SquareManager.cs:98 | the entry joins the back of the queue; nothing else changes |
| TurnCycle.FollowUp | Assets/Scripts/Gameplay/SquareManager.cs:98-161 | each queued phase queues at most one follow-up, exactly a turn start queues none, and no follow-up is a landing |
| TurnCycle.CallOf | Assets/Scripts/Gameplay/SquareManager.cs:141-161 | only a queued landing makes a single-square call, PlayerLand on the player's coordinate; the other phases broadcast |
| TurnCycle.OnPlayerTurnStart | Assets/Scripts/Gameplay/SquareManager.cs:110-121 | the turn opens and one PlayerTurnStart broadcast is logged; the queue is unchanged |
| TurnCycle.OnPlayerMove | Assets/Scripts/Gameplay/SquareManager.cs:126-136 | the turn closes and one PlayerMove broadcast is logged |
| TurnCycle.OnPlayerLand | Assets/Scripts/Gameplay/SquareManager.cs:141-147 | only the player's square is hooked, and the level turn is queued |
| TurnCycle.OnLevelTurn | Assets/Scripts/Gameplay/SquareManager.cs:152-162 | every square takes its turn, then the player's turn start is queued |
| TurnCycle.Start | Assets/Scripts/Gameplay/SquareManager.cs:62-78 | the player is on the start coordinate, and LevelStart is broadcast once, immediately followed by PlayerTurnStart; the turn is open |
| TurnCycle.MakeMove | Assets/Scripts/Gameplay/SquareManager.cs:89-98 | leave on the player's square, then the move broadcast, then the landing queued; the turn is closed |
| TurnCycle.Accepts | Assets/Scripts/Gameplay/SquareManager.cs:83-86 | an accepted click is in the player's turn and targets a passable square other than the player's own; TurnCycle.ClickGate gives the converse |
| TurnCycle.Click | Assets/Scripts/Gameplay/SquareManager.cs:83-100 | a click that is not accepted changes nothing |
| TurnCycle.Run | Assets/Scripts/Gameplay/SquareManager.cs:110-162 | a popped entry makes its one hook call, queues its follow-up (land then level turn, level turn then turn start, turn start nothing), and only a turn start opens the turn |
| TurnCycle.Dispatch | Assets/Scripts/Gameplay/SquareManager.cs:103 | when not ready, or with an empty queue, nothing changes; otherwise the oldest entry leaves the front of the queue, its follow-up joins the back, and its hook call is logged |
| TurnCycle.Update | Assets/Scripts/Gameplay/SquareManager.cs:80-104 | one frame keeps the machine sound and the player in place; TurnCycle.UpdateKeepsSettled, TurnCycle.ClickGate and TurnCycle.TurnOpensOnlyAtTurnStart characterise it |
| TurnCycle.StartSettles | Assets/Scripts/Gameplay/SquareManager.cs:62-78 | a Start with nothing pending leaves the turn open and the queue empty |
| TurnCycle.UpdateKeepsSettled | Assets/Scripts/Gameplay/SquareManager.cs:80-104 | every frame keeps at most one entry pending, with the queue empty exactly while the turn is open |
| TurnCycle.SettledMoveCycle | Assets/Scripts/Gameplay/SquareManager.cs:80-162 | in such a state an accepted click finds the queue empty, as MoveCycle requires, and one move later the turn is open again with nothing pending |
| TurnCycle.HighlightKeepsSound | Assets/Scripts/Gameplay/SquareManager.cs:354-361 | highlighting keeps every square's hooks runnable |
| TurnCycle.HighlightKeepsMoves | Assets/Scripts/Gameplay/SquareManager.cs:120 | highlighting does not change which moves are valid |
| TurnCycle.BroadcastKeepsMoves | Assets/Scripts/Gameplay/SquareManager.cs:114-120 | no hook changes passability, so a broadcast leaves the valid moves as they were |
| TurnCycle.TurnStartHighlightsMoves | Assets/Scripts/Gameplay/SquareManager.cs:110-121 | at turn start the indicators show exactly the valid moves |
| TurnCycle.MoveClearsHighlights | Assets/Scripts/Gameplay/SquareManager.cs:126-136 | after OnPlayerMove every indicator is off |
| TurnCycle.ValidMovesShape | Assets/Scripts/Gameplay/SquareManager.cs:335-348 | p is a valid move iff it holds a passable square one step away on one axis and two on the other |
| TurnCycle.ClickGate | Assets/Scripts/Gameplay/SquareManager.cs:83-100 | a click changes the state iff it is the player's turn and the target is a valid move; then the turn closes, the landing is queued and leave and move are logged |
| TurnCycle.TurnOpensOnlyAtTurnStart | Assets/Scripts/Gameplay/SquareManager.cs:110-112 | in a frame that starts with the turn closed, the turn ends open iff the ready queue popped OnPlayerTurnStart |
| TurnCycle.NoMoveWhileWaiting | Assets/Scripts/Gameplay/SquareManager.cs:83 | while the turn is closed a click is ignored whatever its target |
| TurnCycle.ClickFrame | Assets/Scripts/Gameplay/SquareManager.cs:83-103 | the frame of an accepted click logs leave then move and leaves only the landing queued |
| TurnCycle.ClickBoard | Assets/Scripts/Gameplay/SquareManager.cs:89-95 | each square after an accepted click: leave on the player's square, indicator off, then PlayerMove |
| TurnCycle.LandFrame | Assets/Scripts/Gameplay/SquareManager.cs:141-147 | a ready frame with the landing queued hooks the player's square and queues the level turn |
| TurnCycle.LevelTurnFrame | Assets/Scripts/Gameplay/SquareManager.cs:152-162 | a ready frame with the level turn queued broadcasts it and queues the turn start |
| TurnCycle.TurnStartFrame | Assets/Scripts/Gameplay/SquareManager.cs:110-121 | a ready frame with the turn start queued opens the turn and empties the queue |
| TurnCycle.MoveCycle | Assets/Scripts/Gameplay/SquareManager.cs:80-162 | one move over four frames: the hooks run leave, move, land, level turn, turn start; the turn stays closed until the last frame; the queue goes land, level turn, turn start, empty; leave and land are on the same (unchanged) player coordinate |
| TurnCycle.MoveCycleSquares | Assets/Scripts/Gameplay/SquareManager.cs:80-162 | a whole move keeps every square's passability and adds exactly one (with int wrap) to every spike's counter |
| TurnCycle.CellThroughCycle | Assets/Scripts/Squares/SpikeDownSquare.cs:56-110 | of the hooks of one move only OnPlayerMove touches a spike's counter, and none touches passability |
| Controller.RunOnEach | Assets/Scripts/Gameplay/SquareManager.cs:114-117 | the foreach leaves every square in TurnCycle.Broadcast's state, in any visiting order; it writes only the hooks' fields, so no square's position, graphics variant or links change |
| Controller.IndicateEach | Assets/Scripts/Gameplay/SquareManager.cs:357-360 | the foreach leaves each indicator on iff its coordinate is listed, and writes nothing but the indicators |
| Controller.SquareManager.constructor | Assets/Scripts/Gameplay/SquareManager.cs:37-44 | no squares, the turn closed, an empty queue |
| Controller.SquareManager.Broadcast | Assets/Scripts/Gameplay/SquareManager.cs:155-158 | the controller performs TurnCycle.BroadcastHook |
| Controller.SquareManager.HighlightSquares | Assets/Scripts/Gameplay/SquareManager.cs:354-361 | the controller performs TurnCycle.HighlightBoard on the listed coordinates |
| Controller.SquareManager.HookPlayerSquare | Assets/Scripts/Gameplay/SquareManager.cs:143 | the controller performs TurnCycle.HookPlayerSquare |
| Controller.SquareManager.QueueAction | Assets/Scripts/Gameplay/SquareManager.cs:146 | the controller performs TurnCycle.QueueAction |
| Controller.SquareManager.SetPlayerTurn | Assets/Scripts/Gameplay/SquareManager.cs:112 | only the turn flag changes |
| Controller.SquareManager.GetValidMoves | Assets/Scripts/Gameplay/SquareManager.cs:335-348 | the list holds exactly the squares a knight's move from the player that are passable, each once, and never the player's coordinate |
| Controller.SquareManager.MovesAreValidMoves | Assets/Scripts/Gameplay/SquareManager.cs:335-348 | that list is TurnCycle.ValidMoves of the controller's board |
| Controller.SquareManager.OnPlayerTurnStart | Assets/Scripts/Gameplay/SquareManager.cs:110-121 | the controller performs TurnCycle.OnPlayerTurnStart |
| Controller.SquareManager.OnPlayerMove | Assets/Scripts/Gameplay/SquareManager.cs:126-136 | the controller performs TurnCycle.OnPlayerMove |
| Controller.SquareManager.OnPlayerLand | Assets/Scripts/Gameplay/SquareManager.cs:141-147 | the controller performs TurnCycle.OnPlayerLand |
| Controller.SquareManager.OnLevelTurn | Assets/Scripts/Gameplay/SquareManager.cs:152-162 | the controller performs TurnCycle.OnLevelTurn |
| Controller.SquareManager.ProcessQueue | Assets/Scripts/Gameplay/SquareManager.cs:103 | the controller performs TurnCycle.Dispatch |
| Controller.SquareManager.MakeMove | Assets/Scripts/Gameplay/SquareManager.cs:89-98 | the controller performs TurnCycle.MakeMove |
| Controller.SquareManager.HandleClick | Assets/Scripts/Gameplay/SquareManager.cs:83-100 | the controller performs TurnCycle.Click |
| Controller.SquareManager.Update | Assets/Scripts/Gameplay/SquareManager.cs:80-104 | the controller performs TurnCycle.Update for the frame's click and readiness |
| Controller.SquareManager.ValidateLinks | Assets/Scripts/Gameplay/SquareManager.cs:245-272 | the verdict is Check over the controller's squares, and it fails iff some link names no square |
| Controller.SquareManager.BuildLevel | Assets/Scripts/Gameplay/SquareManager.cs:168-239 | the controller's squares are fresh and built from the tiles (Build.LevelBuilt), and its board is the initial board |
| Controller.SquareManager.Load | Assets/Scripts/Gameplay/SquareManager.cs:64-70 | the player is on the start coordinate and the level is built; the turn flag, the queue and the log are unchanged |
| Controller.SquareManager.Begin | Assets/Scripts/Gameplay/SquareManager.cs:72-77 | LevelStart is broadcast, then the first turn opens |
| Controller.SquareManager.Start | Assets/Scripts/Gameplay/SquareManager.cs:62-78 | when the link check passes, the controller performs TurnCycle.Start on the initial board and every square keeps the set-up the build gave it (Build.LevelWired); when it fails, Start ends after the build with no hook called |
| Controller.SquareManager.Open | Assets/Scripts/Gameplay/SquareManager.cs:72-77 | on a wired level, the rest of Start performs TurnCycle.Start and leaves the level wired and the dictionary unchanged |
| Controller.SquareManager.Launch | Assets/Scripts/Gameplay/SquareManager.cs:72-77 | the LevelStart broadcast and the first turn keep every square's position, graphics variant and links |
| Enemies.Opposite | Assets/Scripts/Enemies/Rook.cs:29-36 | the opposite direction is (Direction + 2) mod 4 |
| Enemies.OppositeInvolution | Assets/Scripts/Enemies/Rook.cs:10-36 | the opposite of the opposite is the direction itself, never equal to it, and its step is the reversed step |
| Enemies.AheadShrinks | Assets/Scripts/Enemies/Rook.cs:74-85 | each recursive call leaves fewer board cells ahead, so the search terminates on a finite board |
| Enemies.CheckNextSquareCapture | Assets/Scripts/Enemies/Rook.cs:72-88 | a capture means the player's cell is open; Enemies.CaptureSound and Enemies.CaptureComplete characterise the search both ways |
| Enemies.CaptureSound | Assets/Scripts/Enemies/Rook.cs:72-88 | a capture found in direction d is a straight line to the player whose cells are all present, passable and enemy-free |
| Enemies.CaptureComplete | Assets/Scripts/Enemies/Rook.cs:72-88 | such a line is always found |
| Enemies.Decide | Assets/Scripts/Enemies/Rook.cs:24-70 | the direction stays in 0..3, and the rook captures iff one of the four searches captures |
| Enemies.DecideCases | Assets/Scripts/Enemies/Rook.cs:47-68 | a capture moves onto the player with the facing unchanged; otherwise the rook steps forward onto an open cell, or turns round and steps onto an open cell behind it when the forward cell is closed, or stays |
| Enemies.LineCaptures | Assets/Scripts/Enemies/Rook.cs:38-51 | an open straight line to the player in any direction means a capture onto the player, facing unchanged |
| Enemies.CaptureThreeEast | Assets/Scripts/Enemies/Rook.cs:38-51 | on an open row with the player three cells east, the rook facing east captures |
| Enemies.BounceWest | Assets/Scripts/Enemies/Rook.cs:58-64 | facing east with a closed cell east and an open one west, the rook turns west and steps there |
| Enemies.Rook.constructor | Assets/Scripts/Enemies/Rook.cs:10-16 | set-up for the model: a rook at a given coordinate, facing one of the four directions of the EnemyMove table |
| Enemies.Rook.CalculateNextSquare | Assets/Scripts/Enemies/Rook.cs:24-70 | the next square, the direction and whether Die() is called are Enemies.Decide's; the position is not modified |

## Left out

- Float geometry is not modelled. This covers `GridToWorldPos`, `WorldToGridPos`, `GetMouseWorldPos` and `GetMouseGridPos`. The clicked grid coordinate is an input of `Update`.
- The Unity object lifecycle is not modelled. This covers `Instantiate` of prefabs and indicators, `GetComponent`, `GetComponentsInChildren`, object naming and parenting. `Destroy` and the tweened fade-outs are recorded as events in `LevelBuilder.BuildLevel`'s log.
- The existing squares a rebuild finds are represented by what the builder reads of them: an id, a position and a type.
- Animation and audio are not modelled. This covers LeanTween scaling, `SpikeGraphics.SlideTo`, `player.MoveTo` and every `AudioManager.Play`. The spike's graphics position is kept as one flag plus a count of visual refreshes.
- Debug logging is not modelled. Warnings are returned as a `Verdict`'s warning list, or as `warned` flags on the capability setters.
- `ActionQueue` is not part of this model. It is a FIFO of phase tags, one entry popped per frame. The engine's permission to pop an entry, which waits for the animations to finish, is the `ready` input of `Update`.
- `PlayerController` is not part of this model. It is left out in these ways:
  - The controller's player coordinate is the field `playerPos`, which nothing in SquareManager.cs assigns after `Start`.
  - The rook takes the player's coordinate as a parameter.
  - `Die()` is the `killed` result of `CalculateNextSquare`.
  - The assignment of the player controller to each square (SquareManager.cs:201) is dropped.
- `Enemy.CheckSquareForEnemy` is not part of this model. It is an `enemies` set of occupied coordinates. The rook's view of the square dictionary is a map from coordinate to passability, passed explicitly.
- `Rook.OnEnemyTurn` only calls `CalculateNextSquare` and has no member of its own.
- Enemies.Rook.CalculateNextSquare requires a direction in 0..3. The capture search (Rook.cs:37-44) indexes only the directions 0..3, and a capture (Rook.cs:46-50) is decided before `EnemyMove[Direction]` is read (Rook.cs:51). So with any other direction the source still captures when a capture exists, and throws an index exception only when none does. The model does not represent that exception.
- `Level.ValidateLevel` is not part of this model. Its guarantees that matter here are preconditions:
  - Tile positions are distinct; `Dictionary.Add` throws otherwise.
  - Every tile type has a prefab: the `catalog` covers every tile type.
- `TilePrefabManager.GetPrefab` is not part of this model. Every variant's IsLinkable and IsMultiState flags come from `Caps`, buttons and spikes included. ButtonSquare.cs and SpikeDownSquare.cs override neither abstract flag (Square.cs:18, 39), and neither overrides `State` or `Links` (Square.cs:23-33).
  - Read as written, a spike's `State` is the base getter's 0 (Square.cs:44-50). Every `_turnCounter % State` (SpikeDownSquare.cs:59, 66, 81, 117) would then divide by zero.
  - The model assumes instead that a spike is multi-state and that its `State` is its tile's state. `Tiles.StateOf` yields the stored state exactly when `Caps` says multi-state. Controller.SquareManager.Start demands a multi-state spike with a nonzero state.
  - The hooks of the variants other than buttons and spikes do nothing.
  - Squares.Square.Links, Squares.Square.SetLinks and Squares.Square.AddLink assume that every square whose `Caps` say linkable overrides `Links` with a stored list. Read as written, no variant in the modelled files does. There, `Links = new List<Square>()` only warns (LevelBuilder.cs:130, SquareManager.cs:231), and each `Links.Add` (LevelBuilder.cs:134, SquareManager.cs:235) goes to a new list that is then dropped, so no square keeps its links. The wired links promised by `Links.WireLinks`, `LevelBuilder.BuildLevel`, `Build.BuiltFromTiles` and `Controller.SquareManager.Start` (through `Build.LevelWired`) hold only under that assumption.
- Controller.SquareManager.Start has two preconditions the source lacks:
  - Every spike must have a nonzero state. With a zero state the source's `%` throws at the first LevelStart broadcast, and the model does not represent that fault.
  - The start coordinate must hold a square. Otherwise the source's `squares[PlayerPos]` lookups throw later.
- SpikeDownSquare.CounterAfterMoves and SpikeDownSquare.LethalAfterMoves are stated only below the `int` wrap-around (fewer than 2^31 - 1 moves). `SpikeDownSquare.OnPlayerMove` itself models the wrap.
- The button's `UpdateOutgoingCharge` base implementation is not part of this model. It is a recomputation of the charge from `RecalculateCharge` plus a count of the updates; propagation of the charge to linked squares is not modelled.
- LevelBuilder.BuildLevel records the `onSquareCreated` callback (LevelBuilder.cs:19-22, 94) only as an event in its log. The callback is assumed to leave the square untouched, and the set-up that `BuildLevel`'s ensures state for each new square depends on that.
- SpikeDownSquare.Rem returns 0 for `int.MinValue % -1`, where C# throws an `OverflowException`. This needs a state of -1 and a counter that has wrapped round to `int.MinValue`.
- The commented-out `ApplyLevelUpdates` (LevelBuilder.cs:140-213) is not live code and is not modelled.
- SidebarToolSelector.cs (UI colours and selection callbacks) holds no game logic and is not modelled.
- The order in which a `foreach` visits the dictionary is not modelled. The broadcast loops take squares in an arbitrary order, which is sound because each hook touches only its own square.
