/**
 * The behaviour of a retracting spike square ("starts down") as transitions on its local state.
 * The square's multi-state value is the period: the spikes are out, and landing is lethal, on
 * every turn whose counter is a multiple of it.
 */
module SpikeDownSquare {

  const Int32Min: int := -0x8000_0000
  const Int32Max: int := 0x7FFF_FFFF

  predicate IsInt32(n: int) {
    Int32Min <= n <= Int32Max
  }

  /** `n++` on a C# int, which wraps around from the largest value to the smallest. */
  function Increment(n: int): (r: int)
    requires IsInt32(n)
    ensures IsInt32(r)
    ensures n < Int32Max ==> r == n + 1
    ensures n == Int32Max ==> r == Int32Min
  {
    if n == Int32Max then Int32Min else n + 1
  }

  function Abs(n: int): (r: int)
    ensures r >= 0 && (r == n || r == -n)
  {
    if n < 0 then -n else n
  }

  /** The remainder of a non-negative number by a positive one. */
  function Mod(n: int, m: int): (r: int)
    requires n >= 0 && m > 0
    ensures 0 <= r < m
  {
    n % m
  }

  /** C#'s `a % b`: the remainder of division truncated toward zero, signed like `a`. */
  function Rem(a: int, b: int): (r: int)
    requires b != 0
    ensures -Abs(b) < r < Abs(b)
    ensures a >= 0 ==> 0 <= r
    ensures a <= 0 ==> r <= 0
  {
    if a >= 0 then Mod(a, Abs(b)) else -Mod(-a, Abs(b))
  }

  /** On a non-negative dividend the truncated and the Euclidean remainder agree. */
  lemma RemOfNatural(a: int, b: int)
    requires b != 0 && a >= 0
    ensures Rem(a, b) == a % b
  {
  }

  lemma MulBounds(k: int, m: int)
    requires m > 0
    ensures k >= 1 ==> k * m >= m
    ensures k <= -1 ==> k * m <= -m
  {
  }

  /** Euclidean remainders are unique. */
  lemma ModUnique(a: int, m: int, q: int, r: int)
    requires m > 0 && a == q * m + r && 0 <= r < m
    ensures a % m == r
  {
    var q', r' := a / m, a % m;
    assert a == q' * m + r';
    assert (q - q') * m == r' - r;
    MulBounds(q - q', m);
  }

  lemma NegatedDividesIff(a: int, m: int)
    requires m > 0 && a < 0
    ensures (-a) % m == 0 <==> a % m == 0
  {
    var q := (-a) / m;
    var r := (-a) % m;
    assert -a == q * m + r;
    if r == 0 {
      assert a == (-q) * m + 0;
      ModUnique(a, m, -q, 0);
    } else {
      assert a == (-q - 1) * m + (m - r);
      ModUnique(a, m, -q - 1, m - r);
    }
  }

  lemma NegDivisor(a: int, b: int)
    requires b < 0
    ensures a % b == a % -b
  {
  }

  /** The truncated remainder is zero exactly when `b` divides `a`, whatever the signs. */
  lemma RemZeroIffDivides(a: int, b: int)
    requires b != 0
    ensures Rem(a, b) == 0 <==> a % b == 0
  {
    if b < 0 {
      NegDivisor(a, b);
    }
    if a < 0 {
      NegatedDividesIff(a, Abs(b));
    }
  }

  /**
   * `up` is the position the spike graphics were last sent to (true: protruded);
   * `visualUpdates` counts the calls of ApplyVisuals.
   */
  datatype SpikeState = SpikeState(turnCounter: int, up: bool, visualUpdates: nat)

  /** A freshly instantiated spike: the counter field still holds C#'s default 0. */
  const Initial: SpikeState := SpikeState(0, false, 0)

  /** The target ApplyVisuals picks, and the condition under which landing kills the player. */
  predicate Active(s: SpikeState, period: int)
    requires period != 0
  {
    Rem(s.turnCounter, period) == 0
  }

  function ApplyVisuals(s: SpikeState, period: int): (r: SpikeState)
    requires period != 0
    ensures r.turnCounter == s.turnCounter
    ensures r.up == Active(s, period)
    ensures r.visualUpdates == s.visualUpdates + 1
  {
    s.(up := Active(s, period), visualUpdates := s.visualUpdates + 1)
  }

  /** Level start: the counter restarts at 1 and the graphics are put retracted, then refreshed. */
  function OnLevelStart(s: SpikeState, period: int): (r: SpikeState)
    requires period != 0
    ensures r.turnCounter == 1
    ensures r.up <==> Abs(period) == 1
    ensures r.visualUpdates == s.visualUpdates + 1
  {
    ApplyVisuals(s.(turnCounter := 1, up := false), period)
  }

  /** The ticks on which the spike flips: just out (remainder 0) or just back in (remainder 1). */
  predicate Flips(counter: int, period: int)
    requires period != 0
  {
    Rem(counter, period) == 0 || Rem(counter, period) == 1
  }

  function OnPlayerMove(s: SpikeState, period: int): (r: SpikeState)
    requires period != 0 && IsInt32(s.turnCounter)
    ensures r.turnCounter == Increment(s.turnCounter)
    ensures Flips(r.turnCounter, period) ==>
              r.up == Active(r, period) && r.visualUpdates == s.visualUpdates + 1
    ensures !Flips(r.turnCounter, period) ==>
              r.up == s.up && r.visualUpdates == s.visualUpdates
  {
    var t := s.(turnCounter := Increment(s.turnCounter));
    if Rem(t.turnCounter, period) == 0 then
      ApplyVisuals(t, period)
    else if Rem(t.turnCounter, period) == 1 then
      ApplyVisuals(t, period)
    else
      t
  }

  /** Landing reads the counter and reports whether the player dies; it changes nothing. */
  function OnPlayerLand(s: SpikeState, period: int): (lethal: bool)
    requires period != 0
    ensures lethal <==> Active(s, period)
  {
    Rem(s.turnCounter, period) == 0
  }

  /** A spike is always passable (it kills instead of blocking); its setter does nothing. */
  const IsPassable: bool := true

  /** The state after level start followed by `n` player moves. */
  function AfterMoves(s: SpikeState, period: int, n: nat): SpikeState
    requires period != 0 && IsInt32(s.turnCounter)
    requires s.turnCounter + n <= Int32Max
    decreases n
  {
    if n == 0 then s else OnPlayerMove(AfterMoves(s, period, n - 1), period)
  }

  /** Each move adds exactly one to the counter (below the wrap-around). */
  lemma {:induction false} CounterAfterMoves(s: SpikeState, period: int, n: nat)
    requires period != 0 && IsInt32(s.turnCounter)
    requires s.turnCounter + n <= Int32Max
    ensures AfterMoves(s, period, n).turnCounter == s.turnCounter + n
  {
    if n > 0 {
      CounterAfterMoves(s, period, n - 1);
    }
  }

  /**
   * After level start and `n` moves the counter is n + 1, and landing then kills exactly when
   * the period divides n + 1.
   */
  lemma LethalAfterMoves(s: SpikeState, period: int, n: nat)
    requires period != 0 && n < Int32Max
    ensures AfterMoves(OnLevelStart(s, period), period, n).turnCounter == n + 1
    ensures OnPlayerLand(AfterMoves(OnLevelStart(s, period), period, n), period) <==> (n + 1) % period == 0
  {
    CounterAfterMoves(OnLevelStart(s, period), period, n);
    RemOfNatural(n + 1, period);
  }

  /** For a period of at least two the spike starts retracted and landing on the first turn is safe. */
  lemma StartsDown(s: SpikeState, period: int)
    requires Abs(period) >= 2
    ensures !OnLevelStart(s, period).up
    ensures !OnPlayerLand(OnLevelStart(s, period), period)
  {
  }

  /** With period 3, counters 1..6 give safe, safe, lethal, safe, safe, lethal. */
  lemma PeriodThree(s: SpikeState)
    ensures !OnPlayerLand(AfterMoves(OnLevelStart(s, 3), 3, 0), 3)
    ensures !OnPlayerLand(AfterMoves(OnLevelStart(s, 3), 3, 1), 3)
    ensures OnPlayerLand(AfterMoves(OnLevelStart(s, 3), 3, 2), 3)
    ensures !OnPlayerLand(AfterMoves(OnLevelStart(s, 3), 3, 3), 3)
    ensures !OnPlayerLand(AfterMoves(OnLevelStart(s, 3), 3, 4), 3)
    ensures OnPlayerLand(AfterMoves(OnLevelStart(s, 3), 3, 5), 3)
  {
    LethalAfterMoves(s, 3, 0);
    LethalAfterMoves(s, 3, 1);
    LethalAfterMoves(s, 3, 2);
    LethalAfterMoves(s, 3, 3);
    LethalAfterMoves(s, 3, 4);
    LethalAfterMoves(s, 3, 5);
  }
}
