/**
 * The rook enemy: each level turn it looks down its four straight lines for the player and, when
 * one of them is open all the way, captures the player; otherwise it steps one cell forward,
 * turns round and steps back, or stays. The board is what the rook reads of the square
 * dictionary (which coordinates hold a square, and whether that square is passable), the enemy
 * set stands for Enemy.CheckSquareForEnemy, and the player's coordinate is a parameter.
 */
module Enemies {
  import opened Grid

  /** EnemyMove: the four unit steps, indexed by direction. */
  const EnemyMove: seq<Coord> := [Coord(0, 1), Coord(1, 0), Coord(0, -1), Coord(-1, 0)]

  /** A direction index of EnemyMove. */
  predicate IsDirection(d: int) {
    0 <= d < 4
  }

  /** The cell the rook can enter: a square is there, it is passable and no enemy stands on it. */
  predicate Open(board: map<Coord, bool>, enemies: set<Coord>, c: Coord) {
    c in board && board[c] && c !in enemies
  }

  /** The direction the rook turns to when it bounces. */
  function Opposite(d: int): (r: int)
    requires IsDirection(d)
    ensures IsDirection(r) && r == (d + 2) % 4
  {
    if d + 2 < 4 then d + 2 else d - 2
  }

  /** Turning round twice faces the rook the way it started, and turning round reverses its step. */
  lemma OppositeInvolution(d: int)
    requires IsDirection(d)
    ensures Opposite(Opposite(d)) == d && Opposite(d) != d
    ensures EnemyMove[Opposite(d)] == Coord(-EnemyMove[d].x, -EnemyMove[d].y)
  {
  }

  /** How far along direction `d` a cell lies; one step in direction `d` adds one. */
  function Progress(c: Coord, d: int): int
    requires IsDirection(d)
  {
    match d
    case 0 => c.y
    case 1 => c.x
    case 2 => -c.y
    case 3 => -c.x
  }

  /** The cells of the board that lie strictly further along direction `d` than `c`. */
  function Ahead(board: map<Coord, bool>, c: Coord, d: int): set<Coord>
    requires IsDirection(d)
  {
    set b | b in board && Progress(b, d) > Progress(c, d)
  }

  /** A step onto a cell of the board leaves fewer cells ahead: the search below is finite. */
  lemma AheadShrinks(board: map<Coord, bool>, c: Coord, d: int)
    requires IsDirection(d) && Add(c, EnemyMove[d]) in board
    ensures |Ahead(board, Add(c, EnemyMove[d]), d)| < |Ahead(board, c, d)|
  {
    var next := Add(c, EnemyMove[d]);
    var before, after := Ahead(board, c, d), Ahead(board, next, d);
    assert after <= before;
    assert next in before - after;
    assert before == after + (before - after);
  }

  /**
   * CheckNextSquareCapture: walk from `start` one step at a time in direction `d` while the cell
   * is open; the walk captures when it enters the player's cell.
   */
  function CheckNextSquareCapture(board: map<Coord, bool>, enemies: set<Coord>, player: Coord,
                                  start: Coord, d: int): (r: bool)
    requires IsDirection(d)
    ensures r ==> Open(board, enemies, player)
    decreases |Ahead(board, start, d)|
  {
    var next := Add(start, EnemyMove[d]);
    if Open(board, enemies, next) then
      if next == player then true
      else
        AheadShrinks(board, start, d);
        CheckNextSquareCapture(board, enemies, player, next, d)
    else false
  }

  /** The cell `k` steps from `c` in direction `d`. */
  function Along(c: Coord, d: int, k: int): Coord
    requires IsDirection(d)
  {
    Coord(c.x + k * EnemyMove[d].x, c.y + k * EnemyMove[d].y)
  }

  /** The player stands `k` steps away in direction `d`, and every cell up to it is open. */
  ghost predicate Reaches(board: map<Coord, bool>, enemies: set<Coord>, player: Coord, start: Coord, d: int, k: int)
    requires IsDirection(d)
  {
    && k >= 1 && Along(start, d, k) == player
    && forall j :: 1 <= j <= k ==> Open(board, enemies, Along(start, d, j))
  }

  /** Seen from the next cell, the line is the same line one step shorter. */
  lemma AlongStep(c: Coord, d: int, j: int)
    requires IsDirection(d)
    ensures Along(Add(c, EnemyMove[d]), d, j) == Along(c, d, j + 1)
  {
  }

  /** A capture found by the search is a straight, open line to the player. */
  lemma {:induction false} CaptureSound(board: map<Coord, bool>, enemies: set<Coord>, player: Coord, start: Coord, d: int)
    requires IsDirection(d)
    requires CheckNextSquareCapture(board, enemies, player, start, d)
    ensures exists k :: Reaches(board, enemies, player, start, d, k)
    decreases |Ahead(board, start, d)|
  {
    var next := Add(start, EnemyMove[d]);
    assert Along(start, d, 1) == next;
    if next == player {
      assert Reaches(board, enemies, player, start, d, 1);
    } else {
      AheadShrinks(board, start, d);
      CaptureSound(board, enemies, player, next, d);
      var k :| Reaches(board, enemies, player, next, d, k);
      AlongStep(start, d, k);
      forall j | 1 <= j <= k + 1
        ensures Open(board, enemies, Along(start, d, j))
      {
        if j > 1 {
          AlongStep(start, d, j - 1);
        }
      }
      assert Reaches(board, enemies, player, start, d, k + 1);
    }
  }

  /** A straight, open line to the player is always found by the search. */
  lemma {:induction false} CaptureComplete(board: map<Coord, bool>, enemies: set<Coord>, player: Coord,
                                           start: Coord, d: int, k: int)
    requires IsDirection(d) && Reaches(board, enemies, player, start, d, k)
    ensures CheckNextSquareCapture(board, enemies, player, start, d)
    decreases k
  {
    var next := Add(start, EnemyMove[d]);
    assert Along(start, d, 1) == next;
    assert Open(board, enemies, next);
    if next != player {
      assert k > 1;
      AlongStep(start, d, k - 1);
      forall j | 1 <= j <= k - 1
        ensures Open(board, enemies, Along(next, d, j))
      {
        AlongStep(start, d, j);
      }
      assert Reaches(board, enemies, player, next, d, k - 1);
      CaptureComplete(board, enemies, player, next, d, k - 1);
    }
  }

  /** Some direction captures, the four searched in table order. */
  predicate AnyCapture(board: map<Coord, bool>, enemies: set<Coord>, player: Coord, position: Coord) {
    || CheckNextSquareCapture(board, enemies, player, position, 0)
    || CheckNextSquareCapture(board, enemies, player, position, 1)
    || CheckNextSquareCapture(board, enemies, player, position, 2)
    || CheckNextSquareCapture(board, enemies, player, position, 3)
  }

  /** What CalculateNextSquare decides: the next square, the new direction, and whether it captures. */
  datatype Decision = Decision(next: Coord, direction: int, capture: bool)

  /** The decision of CalculateNextSquare, as a value. */
  function Decide(board: map<Coord, bool>, enemies: set<Coord>, player: Coord, position: Coord, direction: int): (r: Decision)
    requires IsDirection(direction)
    ensures IsDirection(r.direction)
    ensures r.capture <==> exists d :: IsDirection(d) && CheckNextSquareCapture(board, enemies, player, position, d)
  {
    var forward := Add(position, EnemyMove[direction]);
    var back := Add(position, EnemyMove[Opposite(direction)]);
    assert AnyCapture(board, enemies, player, position) <==>
           exists d :: IsDirection(d) && CheckNextSquareCapture(board, enemies, player, position, d) by {
      if exists d :: IsDirection(d) && CheckNextSquareCapture(board, enemies, player, position, d) {
        var d :| IsDirection(d) && CheckNextSquareCapture(board, enemies, player, position, d);
        assert d == 0 || d == 1 || d == 2 || d == 3;
      }
    }
    if AnyCapture(board, enemies, player, position) then Decision(player, direction, true)
    else if Open(board, enemies, forward) then Decision(forward, direction, false)
    else if Open(board, enemies, back) then Decision(back, Opposite(direction), false)
    else Decision(position, direction, false)
  }

  /**
   * Every decision is one of four: capture (onto the player, along an open straight line, facing
   * unchanged), a step forward, a turn and a step back, or staying put; the rook only ever steps
   * onto an open cell, and it turns only when the forward cell is closed.
   */
  lemma DecideCases(board: map<Coord, bool>, enemies: set<Coord>, player: Coord, position: Coord, direction: int)
    requires IsDirection(direction)
    ensures var r := Decide(board, enemies, player, position, direction);
            && (r.capture ==>
                  r.next == player && r.direction == direction &&
                  exists d, k :: IsDirection(d) && Reaches(board, enemies, player, position, d, k))
            && (!r.capture ==>
                  || (r.direction == direction && r.next == Add(position, EnemyMove[direction]) && Open(board, enemies, r.next))
                  || (r.direction == Opposite(direction) && r.next == Add(position, EnemyMove[r.direction])
                      && !Open(board, enemies, Add(position, EnemyMove[direction])) && Open(board, enemies, r.next))
                  || (r.direction == direction && r.next == position))
  {
    var r := Decide(board, enemies, player, position, direction);
    if r.capture {
      var d :| IsDirection(d) && CheckNextSquareCapture(board, enemies, player, position, d);
      CaptureSound(board, enemies, player, position, d);
    }
  }

  /** An open straight line to the player in any direction means a capture. */
  lemma LineCaptures(board: map<Coord, bool>, enemies: set<Coord>, player: Coord, position: Coord, direction: int,
                     d: int, k: int)
    requires IsDirection(direction) && IsDirection(d)
    requires Reaches(board, enemies, player, position, d, k)
    ensures var r := Decide(board, enemies, player, position, direction);
            r.capture && r.next == player && r.direction == direction
  {
    CaptureComplete(board, enemies, player, position, d, k);
  }

  /** The player three cells east on an open row: the rook facing east captures at once. */
  lemma CaptureThreeEast()
    ensures var board := map[Coord(1, 1) := true, Coord(2, 1) := true, Coord(3, 1) := true, Coord(4, 1) := true];
            Decide(board, {}, Coord(4, 1), Coord(1, 1), 1) == Decision(Coord(4, 1), 1, true)
  {
    var board := map[Coord(1, 1) := true, Coord(2, 1) := true, Coord(3, 1) := true, Coord(4, 1) := true];
    assert Reaches(board, {}, Coord(4, 1), Coord(1, 1), 1, 3);
    CaptureComplete(board, {}, Coord(4, 1), Coord(1, 1), 1, 3);
  }

  /** A closed cell east and an open cell west: the rook facing east turns and steps west. */
  lemma BounceWest()
    ensures var board := map[Coord(5, 5) := true, Coord(6, 5) := false, Coord(4, 5) := true];
            Decide(board, {}, Coord(1, 1), Coord(5, 5), 1) == Decision(Coord(4, 5), 3, false)
  {
    var board := map[Coord(5, 5) := true, Coord(6, 5) := false, Coord(4, 5) := true];
    assert !CheckNextSquareCapture(board, {}, Coord(1, 1), Coord(5, 5), 0);
    assert !CheckNextSquareCapture(board, {}, Coord(1, 1), Coord(5, 5), 1);
    assert !CheckNextSquareCapture(board, {}, Coord(1, 1), Coord(5, 5), 2);
    assert !CheckNextSquareCapture(board, {}, Coord(1, 1), Coord(4, 5), 3);
    assert !CheckNextSquareCapture(board, {}, Coord(1, 1), Coord(5, 5), 3);
  }

  /** An enemy on the board: where it stands, which way it faces, and the square it moves to next. */
  class Rook {
    var position: Coord
    var direction: int
    var nextSquare: Coord

    constructor (position: Coord, direction: int)
      requires IsDirection(direction)
      ensures this.position == position && this.direction == direction && nextSquare == position
    {
      this.position, this.direction, nextSquare := position, direction, position;
    }

    /**
     * CalculateNextSquare: the four capture searches in table order, stopping at the first that
     * captures; then the forward, backward or stay rule. `killed` says whether the player's
     * Die() was called.
     */
    method CalculateNextSquare(board: map<Coord, bool>, enemies: set<Coord>, player: Coord) returns (killed: bool)
      requires IsDirection(direction)
      modifies this`direction, this`nextSquare
      ensures var r := Decide(board, enemies, player, position, old(direction));
              nextSquare == r.next && direction == r.direction && killed == r.capture
    {
      var oppositeDirection;
      if direction + 2 < 4 {
        oppositeDirection := direction + 2;
      } else {
        oppositeDirection := direction - 2;
      }
      var shouldCapture := false;
      var i := 0;
      while i < 4
        invariant 0 <= i <= 4
        invariant !shouldCapture
        invariant forall d :: 0 <= d < i ==> !CheckNextSquareCapture(board, enemies, player, position, d)
      {
        shouldCapture := CheckNextSquareCapture(board, enemies, player, position, i);
        if shouldCapture {
          break;
        }
        i := i + 1;
      }
      var forward := Add(position, EnemyMove[direction]);
      var back := Add(position, EnemyMove[oppositeDirection]);
      if shouldCapture {
        nextSquare := player;
        killed := true;
      } else if forward in board && board[forward] && forward !in enemies {
        nextSquare := forward;
        killed := false;
      } else if back in board && board[back] && back !in enemies {
        direction := oppositeDirection;
        nextSquare := Add(position, EnemyMove[direction]);
        killed := false;
      } else {
        nextSquare := position;
        killed := false;
      }
    }
  }
}
