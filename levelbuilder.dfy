/**
 * The level builder: it replaces the squares already under a parent by fresh ones built from a
 * level's tile list, deciding for each tile whether its insertion is animated, optionally hands
 * every new square to a callback, retires the squares no tile replaced, checks the links and
 * wires them. The engine's object lifecycle is recorded as an event log.
 */
module LevelBuilder {
  import opened Wrappers
  import opened Grid
  import opened Tiles
  import opened Squares
  import opened Links

  /** A square found under the parent before the build: what the builder reads of it. */
  datatype Existing = Existing(id: nat, position: Coord, tileType: TileType)

  /** What the build does to the engine's objects, in order. */
  datatype Event =
    | Destroyed(id: nat)          // a square at a tile's position is destroyed at once
    | CallbackInvoked(at: Coord)  // the optional callback receives the new square
    | Added(at: Coord)            // the new square enters the result dictionary
    | ScaledIn(at: Coord)         // the new square's insertion is animated
    | FadedOut(id: nat)           // a square no tile replaced is destroyed and scaled away

  /** Each existing square is listed once. */
  predicate Distinct(xs: seq<Existing>) {
    forall i, j :: 0 <= i < j < |xs| ==> xs[i] != xs[j]
  }

  /** FindAll by position: the squares at `p`, in list order. */
  function At(xs: seq<Existing>, p: Coord): seq<Existing> {
    if |xs| == 0 then []
    else (if xs[0].position == p then [xs[0]] else []) + At(xs[1..], p)
  }

  /** The squares whose position is not in `ps`, in list order. */
  function Outside(xs: seq<Existing>, ps: set<Coord>): seq<Existing> {
    if |xs| == 0 then []
    else (if xs[0].position !in ps then [xs[0]] else []) + Outside(xs[1..], ps)
  }

  /** The squares not in `gone`, in list order. */
  function Without(xs: seq<Existing>, gone: set<Existing>): seq<Existing> {
    if |xs| == 0 then []
    else (if xs[0] !in gone then [xs[0]] else []) + Without(xs[1..], gone)
  }

  /** List.Remove: drops the first occurrence of `x`, if any. */
  function RemoveFirst(xs: seq<Existing>, x: Existing): seq<Existing> {
    if |xs| == 0 then []
    else if xs[0] == x then xs[1..]
    else [xs[0]] + RemoveFirst(xs[1..], x)
  }

  /** `i` is the index of the first square at `p`. */
  ghost predicate FirstAt(xs: seq<Existing>, p: Coord, i: int) {
    0 <= i < |xs| && xs[i].position == p && forall j :: 0 <= j < i ==> xs[j].position != p
  }

  /** Whether a tile's insertion is animated: no square was at its position, or the first one had another type. */
  function Animate(existing: seq<Existing>, tp: TilePos): bool {
    var conflicting := At(existing, tp.position);
    |conflicting| == 0 || tp.tile.tileType != conflicting[0].tileType
  }

  function Destroys(xs: seq<Existing>): (r: seq<Event>)
    ensures |r| == |xs| && forall k :: 0 <= k < |xs| ==> r[k] == Destroyed(xs[k].id)
  {
    seq(|xs|, k requires 0 <= k < |xs| => Destroyed(xs[k].id))
  }

  function FadeOuts(xs: seq<Existing>): (r: seq<Event>)
    ensures |r| == |xs| && forall k :: 0 <= k < |xs| ==> r[k] == FadedOut(xs[k].id)
  {
    seq(|xs|, k requires 0 <= k < |xs| => FadedOut(xs[k].id))
  }

  /** The events of one tile's iteration. */
  function TileEvents(existing: seq<Existing>, tp: TilePos, hasCallback: bool, duration: real): seq<Event> {
    Destroys(At(existing, tp.position))
    + (if hasCallback then [CallbackInvoked(tp.position)] else [])
    + [Added(tp.position)]
    + (if Animate(existing, tp) && duration > 0.0 then [ScaledIn(tp.position)] else [])
  }

  /** The events of the tile loop. */
  function TilesEvents(existing: seq<Existing>, tiles: seq<TilePos>, hasCallback: bool, duration: real): seq<Event>
    decreases |tiles|
  {
    if |tiles| == 0 then []
    else TilesEvents(existing, tiles[..|tiles| - 1], hasCallback, duration)
         + TileEvents(existing, tiles[|tiles| - 1], hasCallback, duration)
  }

  /** The whole event log of a build: the tile loop, then the retirement of the squares left over. */
  function BuildLog(existing: seq<Existing>, tiles: seq<TilePos>, hasCallback: bool, duration: real): seq<Event> {
    TilesEvents(existing, tiles, hasCallback, duration) + FadeOuts(Outside(existing, PositionSet(tiles)))
  }

  // ---------------------------------------------------------------------------------------
  // Lemmas about the list operations the reconciliation uses.

  /** FindAll keeps exactly the squares at the position. */
  lemma {:induction false} InAt(xs: seq<Existing>, p: Coord, e: Existing)
    ensures e in At(xs, p) <==> e in xs && e.position == p
  {
    if |xs| > 0 {
      InAt(xs[1..], p, e);
      assert e in xs <==> e == xs[0] || e in xs[1..];
    }
  }

  /** Filtering by position keeps exactly the squares elsewhere. */
  lemma {:induction false} InOutside(xs: seq<Existing>, ps: set<Coord>, e: Existing)
    ensures e in Outside(xs, ps) <==> e in xs && e.position !in ps
  {
    if |xs| > 0 {
      InOutside(xs[1..], ps, e);
      assert e in xs <==> e == xs[0] || e in xs[1..];
    }
  }

  lemma {:induction false} OutsideDistinct(xs: seq<Existing>, ps: set<Coord>)
    requires Distinct(xs)
    ensures Distinct(Outside(xs, ps))
  {
    if |xs| > 0 {
      OutsideDistinct(xs[1..], ps);
      var rest := Outside(xs[1..], ps);
      assert xs[0] !in rest by {
        assert xs[0] !in xs[1..];
        InOutside(xs[1..], ps, xs[0]);
      }
      var r := Outside(xs, ps);
      forall i, j | 0 <= i < j < |r| ensures r[i] != r[j] {
        if xs[0].position !in ps {
          assert r == [xs[0]] + rest;
          if i == 0 {
            assert r[j] == rest[j - 1];
          } else {
            assert r[i] == rest[i - 1] && r[j] == rest[j - 1];
          }
        } else {
          assert r == rest;
        }
      }
    }
  }

  lemma {:induction false} WithoutAbsent(xs: seq<Existing>, gone: set<Existing>, x: Existing)
    requires x !in xs
    ensures Without(xs, gone + {x}) == Without(xs, gone)
  {
    if |xs| > 0 {
      WithoutAbsent(xs[1..], gone, x);
    }
  }

  /** Removing the first occurrence of a square listed once is filtering it out. */
  lemma {:induction false} RemoveFirstWithout(xs: seq<Existing>, gone: set<Existing>, x: Existing)
    requires Distinct(xs)
    ensures RemoveFirst(Without(xs, gone), x) == Without(xs, gone + {x})
  {
    if |xs| > 0 {
      var tail := xs[1..];
      assert Distinct(tail);
      if xs[0] in gone {
        RemoveFirstWithout(tail, gone, x);
        assert Without(xs, gone) == Without(tail, gone);
        assert Without(xs, gone + {x}) == Without(tail, gone + {x});
      } else if xs[0] == x {
        assert x !in tail;
        WithoutAbsent(tail, gone, x);
        var w := Without(tail, gone);
        assert Without(xs, gone) == [x] + w;
        assert ([x] + w)[0] == x && ([x] + w)[1..] == w;
      } else {
        RemoveFirstWithout(tail, gone, x);
        assert Without(xs, gone) == [xs[0]] + Without(tail, gone);
      }
    }
  }

  lemma {:induction false} WithoutByPosition(xs: seq<Existing>, gone: set<Existing>, ps: set<Coord>)
    requires forall e :: e in xs ==> (e in gone <==> e.position in ps)
    ensures Without(xs, gone) == Outside(xs, ps)
  {
    if |xs| > 0 {
      WithoutByPosition(xs[1..], gone, ps);
    }
  }

  lemma {:induction false} OutsideTwice(xs: seq<Existing>, ps: set<Coord>, qs: set<Coord>)
    ensures Outside(Outside(xs, ps), qs) == Outside(xs, ps + qs)
  {
    if |xs| > 0 {
      OutsideTwice(xs[1..], ps, qs);
      var o := Outside(xs[1..], ps);
      if xs[0].position !in ps {
        assert Outside(xs, ps) == [xs[0]] + o;
        assert ([xs[0]] + o)[0] == xs[0] && ([xs[0]] + o)[1..] == o;
      } else {
        assert Outside(xs, ps) == o;
      }
    }
  }

  /** The squares at a position not yet built over are all still there. */
  lemma {:induction false} AtOutside(xs: seq<Existing>, ps: set<Coord>, p: Coord)
    requires p !in ps
    ensures At(Outside(xs, ps), p) == At(xs, p)
  {
    if |xs| > 0 {
      AtOutside(xs[1..], ps, p);
      var o := Outside(xs[1..], ps);
      if xs[0].position !in ps {
        assert Outside(xs, ps) == [xs[0]] + o;
        assert ([xs[0]] + o)[0] == xs[0] && ([xs[0]] + o)[1..] == o;
      } else {
        assert Outside(xs, ps) == o;
      }
    }
  }

  /** The first square FindAll reports is the first square of the list at that position. */
  lemma {:induction false} AtHeadIsFirst(xs: seq<Existing>, p: Coord)
    requires At(xs, p) != []
    ensures exists i :: FirstAt(xs, p, i) && At(xs, p)[0] == xs[i]
  {
    if xs[0].position == p {
      assert FirstAt(xs, p, 0);
    } else {
      AtHeadIsFirst(xs[1..], p);
      var i :| FirstAt(xs[1..], p, i) && At(xs[1..], p)[0] == xs[1..][i];
      assert FirstAt(xs, p, i + 1);
    }
  }

  lemma FirstAtUnique(xs: seq<Existing>, p: Coord, i: int, j: int)
    requires FirstAt(xs, p, i) && FirstAt(xs, p, j)
    ensures i == j
  {
  }

  // ---------------------------------------------------------------------------------------
  // What the event log promises.

  lemma {:induction false} TileEventsInLog(existing: seq<Existing>, tiles: seq<TilePos>, hasCallback: bool,
                                           duration: real, i: int, ev: Event)
    requires 0 <= i < |tiles| && ev in TileEvents(existing, tiles[i], hasCallback, duration)
    ensures ev in TilesEvents(existing, tiles, hasCallback, duration)
    decreases |tiles|
  {
    var n := |tiles| - 1;
    if i < n {
      assert tiles[..n][i] == tiles[i];
      TileEventsInLog(existing, tiles[..n], hasCallback, duration, i, ev);
    }
  }

  /**
   * Every square that was under the parent is destroyed: at once if a tile sits at its position,
   * even one of the same type, and otherwise after the tile loop.
   */
  lemma EveryExistingDestroyed(existing: seq<Existing>, tiles: seq<TilePos>, hasCallback: bool,
                               duration: real, e: Existing)
    requires e in existing
    ensures e.position in PositionSet(tiles) ==>
              Destroyed(e.id) in TilesEvents(existing, tiles, hasCallback, duration)
    ensures e.position !in PositionSet(tiles) ==>
              FadedOut(e.id) in BuildLog(existing, tiles, hasCallback, duration)
  {
    if e.position in PositionSet(tiles) {
      var i :| 0 <= i < |tiles| && tiles[i].position == e.position;
      var c := At(existing, e.position);
      InAt(existing, e.position, e);
      var k :| 0 <= k < |c| && c[k] == e;
      assert Destroys(c)[k] == Destroyed(e.id);
      TileEventsInLog(existing, tiles, hasCallback, duration, i, Destroyed(e.id));
    } else {
      var left := Outside(existing, PositionSet(tiles));
      InOutside(existing, PositionSet(tiles), e);
      var k :| 0 <= k < |left| && left[k] == e;
      assert FadeOuts(left)[k] == FadedOut(e.id);
    }
  }

  /** The callback positions of a log, in order. */
  function Callbacks(log: seq<Event>): seq<Coord> {
    if |log| == 0 then []
    else (if log[0].CallbackInvoked? then [log[0].at] else []) + Callbacks(log[1..])
  }

  lemma {:induction false} CallbacksAppend(a: seq<Event>, b: seq<Event>)
    ensures Callbacks(a + b) == Callbacks(a) + Callbacks(b)
  {
    if |a| == 0 {
      assert a + b == b;
    } else {
      assert (a + b)[0] == a[0];
      assert (a + b)[1..] == a[1..] + b;
      CallbacksAppend(a[1..], b);
    }
  }

  lemma {:induction false} NoCallbacks(log: seq<Event>)
    requires forall k :: 0 <= k < |log| ==> !log[k].CallbackInvoked?
    ensures Callbacks(log) == []
  {
    if |log| > 0 {
      NoCallbacks(log[1..]);
    }
  }

  lemma TileCallbacks(existing: seq<Existing>, tp: TilePos, hasCallback: bool, duration: real)
    ensures Callbacks(TileEvents(existing, tp, hasCallback, duration)) ==
            if hasCallback then [tp.position] else []
  {
    var d := Destroys(At(existing, tp.position));
    var cb: seq<Event> := if hasCallback then [CallbackInvoked(tp.position)] else [];
    var sc: seq<Event> := if Animate(existing, tp) && duration > 0.0 then [ScaledIn(tp.position)] else [];
    NoCallbacks(d);
    NoCallbacks([Added(tp.position)]);
    NoCallbacks(sc);
    CallbacksAppend(d, cb);
    CallbacksAppend(d + cb, [Added(tp.position)]);
    CallbacksAppend(d + cb + [Added(tp.position)], sc);
  }

  lemma {:induction false} TilesCallbacks(existing: seq<Existing>, tiles: seq<TilePos>, hasCallback: bool, duration: real)
    ensures Callbacks(TilesEvents(existing, tiles, hasCallback, duration)) ==
            if hasCallback then Positions(tiles) else []
    decreases |tiles|
  {
    if |tiles| > 0 {
      var n := |tiles| - 1;
      var tp := tiles[n];
      var before := TilesEvents(existing, tiles[..n], hasCallback, duration);
      var last := TileEvents(existing, tp, hasCallback, duration);
      assert TilesEvents(existing, tiles, hasCallback, duration) == before + last;
      TilesCallbacks(existing, tiles[..n], hasCallback, duration);
      TileCallbacks(existing, tp, hasCallback, duration);
      CallbacksAppend(before, last);
      PositionsSnoc(tiles);
    }
  }

  /** With a callback, it receives every new square exactly once and in tile order; without one, none is invoked. */
  lemma CallbackOncePerTileInOrder(existing: seq<Existing>, tiles: seq<TilePos>, hasCallback: bool, duration: real)
    ensures Callbacks(BuildLog(existing, tiles, hasCallback, duration)) ==
            if hasCallback then Positions(tiles) else []
  {
    var left := FadeOuts(Outside(existing, PositionSet(tiles)));
    TilesCallbacks(existing, tiles, hasCallback, duration);
    NoCallbacks(left);
    CallbacksAppend(TilesEvents(existing, tiles, hasCallback, duration), left);
  }

  /** The callback sees each square just before it enters the dictionary. */
  lemma CallbackBeforeAdd(existing: seq<Existing>, tp: TilePos, duration: real)
    ensures var log := TileEvents(existing, tp, true, duration);
            exists k :: 0 <= k < |log| - 1 && log[k] == CallbackInvoked(tp.position) && log[k + 1] == Added(tp.position)
  {
    var log := TileEvents(existing, tp, true, duration);
    var k := |At(existing, tp.position)|;
    assert log[k] == CallbackInvoked(tp.position) && log[k + 1] == Added(tp.position);
  }

  /**
   * The insertion is animated exactly when the duration is positive and either no square was at
   * the tile's position or the first one listed there had another type.
   */
  lemma ScaledInIff(existing: seq<Existing>, tp: TilePos, hasCallback: bool, duration: real)
    ensures ScaledIn(tp.position) in TileEvents(existing, tp, hasCallback, duration) <==>
            duration > 0.0 &&
            ((forall e :: e in existing ==> e.position != tp.position) ||
             exists i :: FirstAt(existing, tp.position, i) && existing[i].tileType != tp.tile.tileType)
  {
    var p := tp.position;
    var c := At(existing, p);
    assert ScaledIn(p) !in Destroys(c);
    if c != [] {
      AtHeadIsFirst(existing, p);
      var i :| FirstAt(existing, p, i) && c[0] == existing[i];
      assert existing[i] in existing;
      forall j | FirstAt(existing, p, j) ensures j == i {
        FirstAtUnique(existing, p, i, j);
      }
    } else {
      forall e | e in existing ensures e.position != p {
        InAt(existing, p, e);
      }
    }
  }

  /** A square replaced by one of the same type is still destroyed and re-created, only not animated. */
  lemma SameTypeRecreated(existing: seq<Existing>, tp: TilePos, hasCallback: bool, duration: real, i: int)
    requires FirstAt(existing, tp.position, i) && existing[i].tileType == tp.tile.tileType
    ensures var log := TileEvents(existing, tp, hasCallback, duration);
            Destroyed(existing[i].id) in log && Added(tp.position) in log && ScaledIn(tp.position) !in log
  {
    var p := tp.position;
    var c := At(existing, p);
    InAt(existing, p, existing[i]);
    assert existing[i] in c;
    AtHeadIsFirst(existing, p);
    var j :| FirstAt(existing, p, j) && c[0] == existing[j];
    FirstAtUnique(existing, p, i, j);
    var k :| 0 <= k < |c| && c[k] == existing[i];
    assert Destroys(c)[k] == Destroyed(existing[i].id);
    assert ScaledIn(p) !in Destroys(c);
  }

  // ---------------------------------------------------------------------------------------
  // The build itself.

  lemma TilesEventsStep(existing: seq<Existing>, tiles: seq<TilePos>, i: int, hasCallback: bool, duration: real)
    requires 0 <= i < |tiles|
    ensures TilesEvents(existing, tiles[..i + 1], hasCallback, duration) ==
            TilesEvents(existing, tiles[..i], hasCallback, duration) + TileEvents(existing, tiles[i], hasCallback, duration)
  {
    assert tiles[..i + 1][..i] == tiles[..i];
    assert tiles[..i + 1][i] == tiles[i];
  }

  /**
   * One tile's reconciliation: the squares at its position are removed from the list of
   * existing squares and destroyed, and the insertion is animated unless the first of them
   * had the tile's type.
   */
  method RemoveConflicting(remaining: seq<Existing>, tp: TilePos)
    returns (rest: seq<Existing>, destroyed: seq<Event>, animateInsertion: bool)
    requires Distinct(remaining)
    ensures rest == Outside(remaining, {tp.position})
    ensures destroyed == Destroys(At(remaining, tp.position))
    ensures animateInsertion == Animate(remaining, tp)
  {
    rest := remaining;
    destroyed := [];
    animateInsertion := true;
    var conflicting := At(remaining, tp.position);
    if |conflicting| > 0 {
      animateInsertion := tp.tile.tileType != conflicting[0].tileType;
      ghost var gone;
      rest, destroyed, gone := DestroyEach(remaining, conflicting);
      forall e | e in remaining ensures e in gone <==> e.position in {tp.position} {
        InAt(remaining, tp.position, e);
      }
      WithoutByPosition(remaining, gone, {tp.position});
    } else {
      forall e | e in remaining ensures e.position !in {tp.position} {
        InAt(remaining, tp.position, e);
      }
      WithoutByPosition(remaining, {}, {tp.position});
      WithoutEmpty(remaining);
    }
  }

  /** The squares no tile replaced are destroyed and faded out, in list order. */
  method RetireLeftovers(remaining: seq<Existing>) returns (retired: seq<Event>)
    ensures retired == FadeOuts(remaining)
  {
    retired := [];
    var k := 0;
    while k < |remaining|
      invariant 0 <= k <= |remaining|
      invariant retired == FadeOuts(remaining[..k])
    {
      retired := retired + [FadedOut(remaining[k].id)];
      assert FadeOuts(remaining[..k + 1]) == FadeOuts(remaining[..k]) + [FadedOut(remaining[k].id)];
      k := k + 1;
    }
    assert remaining[..k] == remaining;
  }

  /**
   * BuildLevel: every tile gets a fresh square set up from its data; the squares that were under
   * the parent are all destroyed; the links are checked only after that, and wired only if the
   * check passes. A failing check (an exception in the engine) leaves the new squares unwired.
   */
  method BuildLevel(existing: seq<Existing>, tiles: seq<TilePos>, catalog: map<TileType, Caps>,
                    hasCallback: bool, animationDuration: real)
    returns (squares: map<Coord, Square>, log: seq<Event>, verdict: Verdict)
    requires DistinctPositions(tiles) && Distinct(existing)
    requires Catalogued(tiles, catalog)
    ensures log == BuildLog(existing, tiles, hasCallback, animationDuration)
    ensures squares.Keys == PositionSet(tiles)
    ensures forall p :: p in squares ==> fresh(squares[p])
    ensures Injective(tiles, squares)
    ensures verdict == Check(tiles, LinkableOf(squares))
    ensures verdict.error.None? ==> LinksResolve(tiles, squares)
    ensures forall i :: 0 <= i < |tiles| ==>
              var s := squares[tiles[i].position];
              s.Built(tiles[i], catalog[tiles[i].tile.tileType],
                      if verdict.error.None? && s.linkable then Resolve(squares, tiles[i].tile.links) else [])
  {
    var remaining;
    squares, remaining, log := CreateSquares(existing, tiles, catalog, hasCallback, animationDuration);
    LoopDone(existing, tiles, catalog, hasCallback, animationDuration, squares, remaining, log);

    // Retire the squares no tile replaced.
    var retired := RetireLeftovers(remaining);
    log := log + retired;

    // Only now, after every creation and destruction, are the links checked.
    verdict := ValidateLinks(tiles, LinkableOf(squares));
    if verdict.error.None? {
      PassingCheckResolves(tiles, squares);
      WireLinks(squares, tiles);
      forall i | 0 <= i < |tiles|
        ensures var s := squares[tiles[i].position];
                s.Built(tiles[i], catalog[tiles[i].tile.tileType],
                        if s.linkable then Resolve(squares, tiles[i].tile.links) else [])
      {
      }
    }
  }

  /** The prefab table knows the type of every tile. */
  predicate Catalogued(tiles: seq<TilePos>, catalog: map<TileType, Caps>)
  {
    forall k :: 0 <= k < |tiles| ==> tiles[k].tile.tileType in catalog
  }

  /** The positions of the first `n` tiles. */
  ghost function PositionsBefore(tiles: seq<TilePos>, n: int): set<Coord>
    requires 0 <= n <= |tiles|
  {
    set k | 0 <= k < n :: tiles[k].position
  }

  /** What one iteration of the tile loop needs: the squares not yet removed are those elsewhere. */
  lemma Step(existing: seq<Existing>, tiles: seq<TilePos>, i: int, hasCallback: bool, duration: real)
    requires 0 <= i < |tiles| && DistinctPositions(tiles) && Distinct(existing)
    ensures var r := Outside(existing, PositionsBefore(tiles, i));
            && tiles[i].position !in PositionsBefore(tiles, i)
            && Distinct(r)
            && Outside(r, {tiles[i].position}) == Outside(existing, PositionsBefore(tiles, i + 1))
            && TileEvents(r, tiles[i], hasCallback, duration) == TileEvents(existing, tiles[i], hasCallback, duration)
            && PositionsBefore(tiles, i + 1) == PositionsBefore(tiles, i) + {tiles[i].position}
  {
    var tp := tiles[i];
    var done := PositionsBefore(tiles, i);
    AtOutside(existing, done, tp.position);
    OutsideDistinct(existing, done);
    OutsideTwice(existing, done, {tp.position});
    assert PositionsBefore(tiles, i + 1) == done + {tp.position};
  }

  /** Each of the first `n` tiles has its own square, set up from the tile, and there are no others. */
  ghost predicate Placed(squares: map<Coord, Square>, tiles: seq<TilePos>, n: int, catalog: map<TileType, Caps>)
    requires 0 <= n <= |tiles|
    requires Catalogued(tiles, catalog)
    reads squares.Values
  {
    && squares.Keys == PositionsBefore(tiles, n)
    && forall k :: 0 <= k < n ==> squares[tiles[k].position].Configured(tiles[k], catalog[tiles[k].tile.tileType])
  }

  /** Placing the next tile's square keeps the squares of the earlier tiles, whose positions differ. */
  lemma PlacedStep(squares: map<Coord, Square>, s: Square, tiles: seq<TilePos>, i: int, catalog: map<TileType, Caps>)
    requires 0 <= i < |tiles| && DistinctPositions(tiles)
    requires Catalogued(tiles, catalog)
    requires Placed(squares, tiles, i, catalog)
    requires s.Configured(tiles[i], catalog[tiles[i].tile.tileType])
    ensures Placed(squares[tiles[i].position := s], tiles, i + 1, catalog)
  {
    var next := squares[tiles[i].position := s];
    assert PositionsBefore(tiles, i + 1) == PositionsBefore(tiles, i) + {tiles[i].position};
    forall k | 0 <= k < i + 1
      ensures next[tiles[k].position].Configured(tiles[k], catalog[tiles[k].tile.tileType])
    {
      if k < i {
        assert tiles[k].position != tiles[i].position;
      }
    }
  }

  /** Once every tile is placed, the squares are those of BuildLevel, one object per tile. */
  lemma PlacedAll(squares: map<Coord, Square>, tiles: seq<TilePos>, catalog: map<TileType, Caps>)
    requires DistinctPositions(tiles)
    requires Catalogued(tiles, catalog)
    requires Placed(squares, tiles, |tiles|, catalog)
    ensures squares.Keys == PositionSet(tiles)
    ensures Injective(tiles, squares)
  {
    assert PositionsBefore(tiles, |tiles|) == PositionSet(tiles);
    // Squares at distinct positions are distinct objects, since each records its own position.
    assert forall a, b :: 0 <= a < b < |tiles| ==>
             squares[tiles[a].position].position != squares[tiles[b].position].position;
  }

  /** The state of the tile loop after the first `i` tiles. */
  ghost predicate Looping(existing: seq<Existing>, tiles: seq<TilePos>, catalog: map<TileType, Caps>,
                          hasCallback: bool, duration: real, i: int,
                          squares: map<Coord, Square>, remaining: seq<Existing>, log: seq<Event>)
    requires 0 <= i <= |tiles| && Catalogued(tiles, catalog)
    reads squares.Values
  {
    && remaining == Outside(existing, PositionsBefore(tiles, i))
    && log == EventsBefore(existing, tiles, i, hasCallback, duration)
    && Distinct(remaining)
    && Placed(squares, tiles, i, catalog)
  }

  /** One iteration of the tile loop keeps its state. */
  lemma LoopingStep(existing: seq<Existing>, tiles: seq<TilePos>, catalog: map<TileType, Caps>,
                    hasCallback: bool, duration: real, i: int,
                    squares: map<Coord, Square>, remaining: seq<Existing>, log: seq<Event>,
                    next: map<Coord, Square>, rest: seq<Existing>, log': seq<Event>)
    requires 0 <= i < |tiles| && Catalogued(tiles, catalog) && DistinctPositions(tiles) && Distinct(existing)
    requires Looping(existing, tiles, catalog, hasCallback, duration, i, squares, remaining, log)
    requires tiles[i].position in next && next[tiles[i].position].Configured(tiles[i], catalog[tiles[i].tile.tileType])
    requires next == squares[tiles[i].position := next[tiles[i].position]]
    requires rest == Outside(remaining, {tiles[i].position})
    requires log' == log + TileEvents(remaining, tiles[i], hasCallback, duration)
    ensures Looping(existing, tiles, catalog, hasCallback, duration, i + 1, next, rest, log')
  {
    Step(existing, tiles, i, hasCallback, duration);
    OutsideDistinct(remaining, {tiles[i].position});
    PlacedStep(squares, next[tiles[i].position], tiles, i, catalog);
  }

  /** The events of the first `n` tiles. */
  ghost function EventsBefore(existing: seq<Existing>, tiles: seq<TilePos>, n: int, hasCallback: bool, duration: real): seq<Event>
    requires 0 <= n <= |tiles|
  {
    if n == 0 then [] else EventsBefore(existing, tiles, n - 1, hasCallback, duration) + TileEvents(existing, tiles[n - 1], hasCallback, duration)
  }

  lemma {:induction false} EventsBeforeIsPrefix(existing: seq<Existing>, tiles: seq<TilePos>, n: int, hasCallback: bool, duration: real)
    requires 0 <= n <= |tiles|
    ensures EventsBefore(existing, tiles, n, hasCallback, duration) == TilesEvents(existing, tiles[..n], hasCallback, duration)
  {
    if n > 0 {
      EventsBeforeIsPrefix(existing, tiles, n - 1, hasCallback, duration);
      TilesEventsStep(existing, tiles, n - 1, hasCallback, duration);
    }
  }

  /** The tile loop of BuildLevel. */
  method CreateSquares(existing: seq<Existing>, tiles: seq<TilePos>, catalog: map<TileType, Caps>,
                       hasCallback: bool, animationDuration: real)
    returns (squares: map<Coord, Square>, remaining: seq<Existing>, log: seq<Event>)
    requires DistinctPositions(tiles) && Distinct(existing)
    requires Catalogued(tiles, catalog)
    ensures Looping(existing, tiles, catalog, hasCallback, animationDuration, |tiles|, squares, remaining, log)
    ensures forall p :: p in squares ==> fresh(squares[p])
  {
    remaining := existing;
    squares := map[];
    log := [];
    var i := 0;
    assert PositionsBefore(tiles, 0) == {};
    OutsideNone(existing);
    while i < |tiles|
      invariant 0 <= i <= |tiles|
      invariant Looping(existing, tiles, catalog, hasCallback, animationDuration, i, squares, remaining, log)
      invariant forall p :: p in squares ==> fresh(squares[p])
    {
      var square;
      squares, remaining, log, square := PlaceTile(existing, tiles, catalog, hasCallback, animationDuration, i,
                                                   squares, remaining, log);
      i := i + 1;
    }
  }

  /** After the last tile, the loop state is the one BuildLevel promises. */
  lemma LoopDone(existing: seq<Existing>, tiles: seq<TilePos>, catalog: map<TileType, Caps>,
                 hasCallback: bool, duration: real,
                 squares: map<Coord, Square>, remaining: seq<Existing>, log: seq<Event>)
    requires Catalogued(tiles, catalog) && DistinctPositions(tiles) && Distinct(existing)
    requires Looping(existing, tiles, catalog, hasCallback, duration, |tiles|, squares, remaining, log)
    ensures remaining == Outside(existing, PositionSet(tiles))
    ensures log == TilesEvents(existing, tiles, hasCallback, duration)
    ensures squares.Keys == PositionSet(tiles)
    ensures Injective(tiles, squares)
    ensures forall k :: 0 <= k < |tiles| ==> squares[tiles[k].position].Configured(tiles[k], catalog[tiles[k].tile.tileType])
  {
    EventsBeforeIsPrefix(existing, tiles, |tiles|, hasCallback, duration);
    assert tiles[..|tiles|] == tiles;
    PlacedAll(squares, tiles, catalog);
  }

  /**
   * One iteration of the tile loop: the conflicting squares are removed and destroyed, a fresh
   * square is set up from the tile, handed to the callback, added to the dictionary and animated.
   */
  method PlaceTile(ghost existing: seq<Existing>, tiles: seq<TilePos>, catalog: map<TileType, Caps>,
                   hasCallback: bool, animationDuration: real, i: int,
                   squares: map<Coord, Square>, remaining: seq<Existing>, log: seq<Event>)
    returns (next: map<Coord, Square>, rest: seq<Existing>, log': seq<Event>, square: Square)
    requires 0 <= i < |tiles| && Catalogued(tiles, catalog) && DistinctPositions(tiles) && Distinct(existing)
    requires Looping(existing, tiles, catalog, hasCallback, animationDuration, i, squares, remaining, log)
    ensures Looping(existing, tiles, catalog, hasCallback, animationDuration, i + 1, next, rest, log')
    ensures fresh(square) && next == squares[tiles[i].position := square]
  {
    var tp := tiles[i];
    var events, animateInsertion;
    rest, events, animateInsertion := RemoveConflicting(remaining, tp);
    square := Instantiate(tp, catalog[tp.tile.tileType]);
    if hasCallback {
      events := events + [CallbackInvoked(tp.position)];
    }
    next := squares[tp.position := square];
    events := events + [Added(tp.position)];
    if animateInsertion && animationDuration > 0.0 {
      events := events + [ScaledIn(tp.position)];
    }
    log' := log + events;
    LoopingStep(existing, tiles, catalog, hasCallback, animationDuration, i, squares, remaining, log, next, rest, log');
  }

  /** The destruction loop: each conflicting square is destroyed and removed from the list. */
  method DestroyEach(remaining: seq<Existing>, conflicting: seq<Existing>)
    returns (rest: seq<Existing>, destroyed: seq<Event>, ghost gone: set<Existing>)
    requires Distinct(remaining)
    ensures forall e :: e in gone <==> e in conflicting
    ensures rest == Without(remaining, gone)
    ensures destroyed == Destroys(conflicting)
  {
    rest := remaining;
    destroyed := [];
    gone := {};
    WithoutEmpty(remaining);
    var k := 0;
    while k < |conflicting|
      invariant 0 <= k <= |conflicting|
      invariant forall e :: e in gone <==> e in conflicting[..k]
      invariant rest == Without(remaining, gone)
      invariant destroyed == Destroys(conflicting[..k])
    {
      RemoveFirstWithout(remaining, gone, conflicting[k]);
      rest := RemoveFirst(rest, conflicting[k]);
      destroyed := destroyed + [Destroyed(conflicting[k].id)];
      assert conflicting[..k + 1] == conflicting[..k] + [conflicting[k]];
      assert Destroys(conflicting[..k + 1]) == Destroys(conflicting[..k]) + [Destroyed(conflicting[k].id)];
      gone := gone + {conflicting[k]};
      k := k + 1;
    }
    assert conflicting[..k] == conflicting;
  }

  lemma {:induction false} OutsideNone(xs: seq<Existing>)
    ensures Outside(xs, {}) == xs
  {
    if |xs| > 0 {
      OutsideNone(xs[1..]);
    }
  }

  lemma {:induction false} WithoutEmpty(xs: seq<Existing>)
    ensures Without(xs, {}) == xs
  {
    if |xs| > 0 {
      WithoutEmpty(xs[1..]);
    }
  }
}
