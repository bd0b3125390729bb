/**
 * The squares of a level as SquareManager.BuildLevel makes them: one fresh square per tile,
 * the link check over them, and the wiring when that check passes.
 */
module Build {
  import opened Grid
  import opened Tiles
  import opened Squares
  import opened Links
  import L = LevelBuilder
  import T = TurnCycle
  /** The squares a level's tiles start as, by coordinate. */
  function InitialBoard(tiles: seq<TilePos>, catalog: map<TileType, Caps>): (b: map<Coord, Cell>)
    requires DistinctPositions(tiles) && L.Catalogued(tiles, catalog)
    ensures b.Keys == PositionSet(tiles)
    ensures forall i :: 0 <= i < |tiles| ==> b[tiles[i].position] == InitialCell(tiles[i], catalog[tiles[i].tile.tileType])
  {
    map i | 0 <= i < |tiles| :: tiles[i].position := InitialCell(tiles[i], catalog[tiles[i].tile.tileType])
  }

  function InitialCell(tp: TilePos, caps: Caps): Cell {
    Cell(tp.tile.tileType, caps.multiState, InitialDyn(caps, tp.tile))
  }

  /** Level data whose spikes can all be divided by gives a board whose hooks all run without fault. */
  lemma InitialBoardSound(tiles: seq<TilePos>, catalog: map<TileType, Caps>)
    requires DistinctPositions(tiles) && L.Catalogued(tiles, catalog) && SpikesHavePeriods(tiles, catalog)
    ensures T.SoundBoard(InitialBoard(tiles, catalog))
  {
    var b := InitialBoard(tiles, catalog);
    forall p | p in b
      ensures Sound(b[p])
    {
      var i :| 0 <= i < |tiles| && tiles[i].position == p;
      assert b[p] == InitialCell(tiles[i], catalog[tiles[i].tile.tileType]);
    }
  }

  /** The tile loop of BuildLevel: one fresh square per tile, set up from the tile's data. */
  method CreateSquares(tiles: seq<TilePos>, catalog: map<TileType, Caps>) returns (built: map<Coord, Square>)
    requires DistinctPositions(tiles) && L.Catalogued(tiles, catalog)
    ensures L.Placed(built, tiles, |tiles|, catalog)
    ensures forall p :: p in built ==> fresh(built[p])
  {
    built := map[];
    assert L.PositionsBefore(tiles, 0) == {};
    for i := 0 to |tiles|
      invariant L.Placed(built, tiles, i, catalog)
      invariant forall p :: p in built ==> fresh(built[p])
    {
      var square := Instantiate(tiles[i], catalog[tiles[i].tile.tileType]);
      L.PlacedStep(built, square, tiles, i, catalog);
      built := built[tiles[i].position := square];
    }
  }

  /** The fields of a square that a build sets: its set-up and its mutable state. */
  datatype Facet = Facet(setup: (Coord, int, seq<Square>), dyn: Dynamic)

  /** The facets of all squares, by coordinate: everything a build leaves in the heap. */
  ghost function Facets(squares: map<Coord, Square>): (r: map<Coord, Facet>)
    reads squares.Values
    ensures r.Keys == squares.Keys
    ensures forall p :: p in squares ==> r[p] == Facet(squares[p].Setup(), squares[p].Dyn())
  {
    map p | p in squares :: Facet(squares[p].Setup(), squares[p].Dyn())
  }

  /** The links a build gives the square of tile `i`: its resolved targets once the check passed. */
  function WiredLinks(tiles: seq<TilePos>, squares: map<Coord, Square>, verdict: Verdict, i: int): seq<Square>
    requires 0 <= i < |tiles| && tiles[i].position in squares
    requires verdict.error.None? ==> LinksResolve(tiles, squares)
  {
    if verdict.error.None? && squares[tiles[i].position].linkable then Resolve(squares, tiles[i].tile.links) else []
  }

  /** The set-up a build gives the square of tile `i`: the tile's coordinate, variant and wired links. */
  function BuiltSetup(tiles: seq<TilePos>, squares: map<Coord, Square>, verdict: Verdict, i: int): (Coord, int, seq<Square>)
    requires 0 <= i < |tiles| && tiles[i].position in squares
    requires verdict.error.None? ==> LinksResolve(tiles, squares)
  {
    (tiles[i].position, tiles[i].tile.graphicsVariant, WiredLinks(tiles, squares, verdict, i))
  }

  /** The facet a build leaves on the square of tile `i`. */
  function BuiltFacet(tiles: seq<TilePos>, catalog: map<TileType, Caps>,
                      squares: map<Coord, Square>, verdict: Verdict, i: int): Facet
    requires 0 <= i < |tiles| && tiles[i].position in squares && tiles[i].tile.tileType in catalog
    requires verdict.error.None? ==> LinksResolve(tiles, squares)
  {
    Facet(BuiltSetup(tiles, squares, verdict, i), InitialDyn(catalog[tiles[i].tile.tileType], tiles[i].tile))
  }

  /**
   * The part of LevelBuilt that the hooks never change: the squares, their variants and
   * capabilities, the verdict, and each square's coordinate, graphics variant and wired links.
   * It reads only the set-up fields, which no hook writes.
   */
  ghost predicate LevelWired(tiles: seq<TilePos>, catalog: map<TileType, Caps>,
                             squares: map<Coord, Square>, verdict: Verdict)
    reads squares.Values`position, squares.Values`graphicsVariant, squares.Values`linksField
  {
    SetupsWired(tiles, catalog, squares, verdict, Setups(squares))
  }

  /**
   * What a build leaves: one distinct square per tile, at the tile's coordinate, of the tile's
   * variant and in the tile's initial state; the verdict of the link check on them; and, when
   * that check passes, each linkable square wired to the squares its tile names (otherwise no
   * square is wired).
   */
  ghost predicate LevelBuilt(tiles: seq<TilePos>, catalog: map<TileType, Caps>,
                             squares: map<Coord, Square>, verdict: Verdict)
    reads squares.Values
  {
    && DistinctPositions(tiles) && L.Catalogued(tiles, catalog)
    && squares.Keys == PositionSet(tiles)
    && Injective(tiles, squares)
    && (forall i :: 0 <= i < |tiles| ==>
          var s, caps := squares[tiles[i].position], catalog[tiles[i].tile.tileType];
          s.tileType == tiles[i].tile.tileType && s.linkable == caps.linkable && s.multiState == caps.multiState)
    && verdict == Check(tiles, LinkableOf(squares))
    && (verdict.error.None? ==> LinksResolve(tiles, squares))
    && var f := Facets(squares);
       forall i :: 0 <= i < |tiles| ==> f[tiles[i].position] == BuiltFacet(tiles, catalog, squares, verdict, i)
  }

  /** The body of SquareManager.BuildLevel, on the dictionary it fills. */
  method BuildSquares(tiles: seq<TilePos>, catalog: map<TileType, Caps>)
    returns (squares: map<Coord, Square>, verdict: Verdict)
    requires DistinctPositions(tiles) && L.Catalogued(tiles, catalog)
    ensures forall p :: p in squares ==> fresh(squares[p])
    ensures LevelBuilt(tiles, catalog, squares, verdict)
  {
    squares := CreateSquares(tiles, catalog);
    L.PlacedAll(squares, tiles, catalog);
    verdict := Links.ValidateLinks(tiles, LinkableOf(squares));
    if verdict.error.None? {
      PassingCheckResolves(tiles, squares);
      WireLinks(squares, tiles);
    }
    forall i | 0 <= i < |tiles|
      ensures squares[tiles[i].position].Built(tiles[i], catalog[tiles[i].tile.tileType], WiredLinks(tiles, squares, verdict, i))
    {
    }
    FacetsOfBuilt(tiles, catalog, squares, verdict);
  }

  /** Squares each built from their tile have the facets BuiltFacets names. */
  lemma FacetsOfBuilt(tiles: seq<TilePos>, catalog: map<TileType, Caps>, squares: map<Coord, Square>, verdict: Verdict)
    requires DistinctPositions(tiles) && L.Catalogued(tiles, catalog)
    requires squares.Keys == PositionSet(tiles)
    requires verdict.error.None? ==> LinksResolve(tiles, squares)
    requires forall i :: 0 <= i < |tiles| ==>
               squares[tiles[i].position].Built(tiles[i], catalog[tiles[i].tile.tileType], WiredLinks(tiles, squares, verdict, i))
    ensures var f := Facets(squares);
            forall i :: 0 <= i < |tiles| ==> f[tiles[i].position] == BuiltFacet(tiles, catalog, squares, verdict, i)
  {
  }

  /** Each square of a build is set up from its tile, with the links WiredLinks names. */
  lemma BuiltFromTiles(tiles: seq<TilePos>, catalog: map<TileType, Caps>, squares: map<Coord, Square>, verdict: Verdict)
    requires LevelBuilt(tiles, catalog, squares, verdict)
    ensures forall i :: 0 <= i < |tiles| ==>
              squares[tiles[i].position].Built(tiles[i], catalog[tiles[i].tile.tileType], WiredLinks(tiles, squares, verdict, i))
  {
    var f := Facets(squares);
    forall i | 0 <= i < |tiles|
      ensures squares[tiles[i].position].Built(tiles[i], catalog[tiles[i].tile.tileType], WiredLinks(tiles, squares, verdict, i))
    {
      assert f[tiles[i].position] == BuiltFacet(tiles, catalog, squares, verdict, i);
    }
  }

  /** LevelWired with the set-ups read from a record `setups` instead of the squares. */
  predicate SetupsWired(tiles: seq<TilePos>, catalog: map<TileType, Caps>, squares: map<Coord, Square>,
                        verdict: Verdict, setups: map<Coord, (Coord, int, seq<Square>)>)
  {
    && DistinctPositions(tiles) && L.Catalogued(tiles, catalog)
    && squares.Keys == PositionSet(tiles) && setups.Keys == squares.Keys
    && Injective(tiles, squares)
    && (forall i :: 0 <= i < |tiles| ==>
          var s, caps := squares[tiles[i].position], catalog[tiles[i].tile.tileType];
          s.tileType == tiles[i].tile.tileType && s.linkable == caps.linkable && s.multiState == caps.multiState)
    && verdict == Check(tiles, LinkableOf(squares))
    && (verdict.error.None? ==> LinksResolve(tiles, squares))
    && forall i :: 0 <= i < |tiles| ==> setups[tiles[i].position] == BuiltSetup(tiles, squares, verdict, i)
  }

  /** The set-up of every square, by coordinate. */
  ghost function Setups(squares: map<Coord, Square>): (r: map<Coord, (Coord, int, seq<Square>)>)
    reads squares.Values`position, squares.Values`graphicsVariant, squares.Values`linksField
    ensures r.Keys == squares.Keys
    ensures forall p :: p in squares ==> r[p] == squares[p].Setup()
  {
    map p | p in squares :: squares[p].Setup()
  }

  /** A build is wired. */
  lemma BuiltIsWired(tiles: seq<TilePos>, catalog: map<TileType, Caps>, squares: map<Coord, Square>, verdict: Verdict)
    requires LevelBuilt(tiles, catalog, squares, verdict)
    ensures LevelWired(tiles, catalog, squares, verdict)
  {
    BuiltFromTiles(tiles, catalog, squares, verdict);
  }

  /** Squares that still hold the set-ups a build recorded are wired as that build left them. */
  lemma StillWired(tiles: seq<TilePos>, catalog: map<TileType, Caps>, squares: map<Coord, Square>,
                   verdict: Verdict, setups: map<Coord, (Coord, int, seq<Square>)>)
    requires SetupsWired(tiles, catalog, squares, verdict, setups)
    requires forall p :: p in squares ==> squares[p].Setup() == setups[p]
    ensures LevelWired(tiles, catalog, squares, verdict)
  {
    assert Setups(squares) == setups;
  }


  /** A build's squares are distinct objects, each at its own coordinate, holding the initial board. */
  lemma BuiltLevelHolds(tiles: seq<TilePos>, catalog: map<TileType, Caps>, squares: map<Coord, Square>, verdict: Verdict)
    requires LevelBuilt(tiles, catalog, squares, verdict)
    ensures Holds(squares, InitialBoard(tiles, catalog))
    ensures forall p :: p in squares ==> squares[p].position == p
  {
    BuiltFromTiles(tiles, catalog, squares, verdict);
    BuiltDistinct(tiles, squares);
    var b := InitialBoard(tiles, catalog);
    forall p | p in squares
      ensures squares[p].AsCell() == b[p] && squares[p].position == p
    {
      var i :| 0 <= i < |tiles| && tiles[i].position == p;
    }
  }

  /** Squares at the distinct coordinates of distinct tiles are distinct objects. */
  lemma BuiltDistinct(tiles: seq<TilePos>, squares: map<Coord, Square>)
    requires DistinctPositions(tiles) && squares.Keys == PositionSet(tiles) && Injective(tiles, squares)
    ensures forall p, q :: p in squares && q in squares && p != q ==> squares[p] != squares[q]
  {
    forall p, q | p in squares && q in squares && p != q
      ensures squares[p] != squares[q]
    {
      var i :| 0 <= i < |tiles| && tiles[i].position == p;
      var j :| 0 <= j < |tiles| && tiles[j].position == q;
      assert i != j;
    }
  }

  /** The square objects of `squares` are distinct and hold `cells`. */
  ghost predicate Holds(squares: map<Coord, Square>, cells: map<Coord, Cell>)
    reads squares.Values
  {
    && squares.Keys == cells.Keys
    && (forall p, q :: p in squares && q in squares && p != q ==> squares[p] != squares[q])
    && (forall p :: p in squares ==> squares[p].AsCell() == cells[p])
  }
}
