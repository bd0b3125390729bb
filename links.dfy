/**
 * Link validation and wiring, as both level builders run them after every square exists:
 * a self-link or links on an unlinkable square only warn, a link to a coordinate without a
 * square aborts; wiring gives each linkable square the squares its tile links to, in order.
 */
module Links {
  import opened Wrappers
  import opened Grid
  import opened Tiles
  import opened Squares

  datatype Warning = SelfLink(at: Coord) | UnlinkableHasLinks(at: Coord)
  datatype LinkError = MissingTarget(from: Coord, to: Coord)

  /** The warnings logged and, when the check threw, the exception. */
  datatype Verdict = Verdict(warnings: seq<Warning>, error: Option<LinkError>)

  /** Every linkability lookup the check makes is defined. */
  predicate LookupsDefined(tiles: seq<TilePos>, linkable: map<Coord, bool>) {
    forall i :: 0 <= i < |tiles| && tiles[i].tile.links != [] ==> tiles[i].position in linkable
  }

  /** The first link of the list that names no square. */
  function FirstMissing(links: seq<Coord>, keys: set<Coord>): (r: Option<Coord>)
    ensures r.None? <==> forall j :: 0 <= j < |links| ==> links[j] in keys
    ensures r.Some? ==> r.value in links && r.value !in keys
    ensures r.Some? ==> exists j :: 0 <= j < |links| && links[j] == r.value &&
                                    forall k :: 0 <= k < j ==> links[k] in keys
  {
    if |links| == 0 then None
    else if links[0] !in keys then Some(links[0])
    else
      var r := FirstMissing(links[1..], keys);
      if r.Some? then
        ghost var j :| 0 <= j < |links[1..]| && links[1..][j] == r.value &&
                       forall k :: 0 <= k < j ==> links[1..][k] in keys;
        assert links[j + 1] == r.value;
        r
      else r
  }

  /** The warnings the check logs for one tile. */
  function TileWarnings(tp: TilePos, linkable: map<Coord, bool>): seq<Warning>
    requires tp.tile.links != [] ==> tp.position in linkable
  {
    (if tp.position in tp.tile.links then [SelfLink(tp.position)] else []) +
    (if tp.tile.links != [] && !linkable[tp.position] then [UnlinkableHasLinks(tp.position)] else [])
  }

  /** A tile's warnings concern its own coordinate only, one of each kind at most, each for its reason. */
  lemma TileWarningsShape(tp: TilePos, linkable: map<Coord, bool>)
    requires tp.tile.links != [] ==> tp.position in linkable
    ensures |TileWarnings(tp, linkable)| <= 2
    ensures forall w :: w in TileWarnings(tp, linkable) ==> w.at == tp.position
    ensures SelfLink(tp.position) in TileWarnings(tp, linkable) <==> tp.position in tp.tile.links
    ensures UnlinkableHasLinks(tp.position) in TileWarnings(tp, linkable) <==>
              tp.tile.links != [] && !linkable[tp.position]
  {
  }

  /** The check over the tiles in order, stopping at the first missing link target. */
  function Check(tiles: seq<TilePos>, linkable: map<Coord, bool>): Verdict
    requires LookupsDefined(tiles, linkable)
    decreases |tiles|
  {
    if |tiles| == 0 then Verdict([], None)
    else
      var v := Check(tiles[..|tiles| - 1], linkable);
      if v.error.Some? then v
      else
        var t := tiles[|tiles| - 1];
        var w := v.warnings + TileWarnings(t, linkable);
        match FirstMissing(t.tile.links, linkable.Keys)
        case None => Verdict(w, None)
        case Some(l) => Verdict(w, Some(MissingTarget(t.position, l)))
  }

  /** Some tile links to a coordinate that has no square. */
  ghost predicate HasDanglingLink(tiles: seq<TilePos>, keys: set<Coord>) {
    exists i, j :: 0 <= i < |tiles| && 0 <= j < |tiles[i].tile.links| && tiles[i].tile.links[j] !in keys
  }

  /** The check fails exactly when some link dangles; self-links and unlinkable squares never fail it. */
  lemma {:induction false} CheckFailsIffDangling(tiles: seq<TilePos>, linkable: map<Coord, bool>)
    requires LookupsDefined(tiles, linkable)
    ensures Check(tiles, linkable).error.Some? <==> HasDanglingLink(tiles, linkable.Keys)
    decreases |tiles|
  {
    if |tiles| > 0 {
      var n := |tiles| - 1;
      var init := tiles[..n];
      CheckFailsIffDangling(init, linkable);
      if HasDanglingLink(init, linkable.Keys) {
        var i, j :| 0 <= i < |init| && 0 <= j < |init[i].tile.links| && init[i].tile.links[j] !in linkable.Keys;
        assert tiles[i].tile.links[j] !in linkable.Keys;
      }
    }
  }

  /** The error names a tile and one of its links that has no square. */
  lemma {:induction false} CheckErrorIsDangling(tiles: seq<TilePos>, linkable: map<Coord, bool>)
    requires LookupsDefined(tiles, linkable)
    ensures var e := Check(tiles, linkable).error;
            e.Some? ==> e.value.to !in linkable.Keys &&
                        exists i :: 0 <= i < |tiles| && tiles[i].position == e.value.from &&
                                    e.value.to in tiles[i].tile.links
    decreases |tiles|
  {
    if |tiles| > 0 {
      var n := |tiles| - 1;
      CheckErrorIsDangling(tiles[..n], linkable);
      var v := Check(tiles[..n], linkable);
      if v.error.Some? {
        var i :| 0 <= i < n && tiles[..n][i].position == v.error.value.from &&
                 v.error.value.to in tiles[..n][i].tile.links;
        assert tiles[i] == tiles[..n][i];
      }
    }
  }

  /** One tile has a self-link: its own coordinate is among its links. */
  ghost predicate SomeSelfLink(tiles: seq<TilePos>, p: Coord) {
    exists i :: 0 <= i < |tiles| && tiles[i].position == p && p in tiles[i].tile.links
  }

  /** One tile at `p` declares links although its square is not linkable. */
  ghost predicate SomeUnlinkableWithLinks(tiles: seq<TilePos>, linkable: map<Coord, bool>, p: Coord)
    requires LookupsDefined(tiles, linkable)
  {
    exists i :: 0 <= i < |tiles| && tiles[i].position == p && tiles[i].tile.links != [] && !linkable[p]
  }

  /** A passing check is the passing check of all tiles but the last, plus the last tile's warnings. */
  lemma CheckStep(tiles: seq<TilePos>, linkable: map<Coord, bool>)
    requires |tiles| > 0 && LookupsDefined(tiles, linkable)
    requires Check(tiles, linkable).error.None?
    ensures LookupsDefined(tiles[..|tiles| - 1], linkable)
    ensures Check(tiles[..|tiles| - 1], linkable).error.None?
    ensures Check(tiles, linkable).warnings ==
            Check(tiles[..|tiles| - 1], linkable).warnings + TileWarnings(tiles[|tiles| - 1], linkable)
  {
  }

  /** When the check passes, it warns about a self-link at `p` exactly when some tile at `p` links to itself. */
  lemma {:induction false} CheckSelfLinkWarnings(tiles: seq<TilePos>, linkable: map<Coord, bool>, p: Coord)
    requires LookupsDefined(tiles, linkable)
    requires Check(tiles, linkable).error.None?
    ensures SelfLink(p) in Check(tiles, linkable).warnings <==> SomeSelfLink(tiles, p)
    decreases |tiles|
  {
    if |tiles| > 0 {
      var n := |tiles| - 1;
      var init := tiles[..n];
      CheckStep(tiles, linkable);
      CheckSelfLinkWarnings(init, linkable, p);
      var t := tiles[n];
      assert SelfLink(p) in TileWarnings(t, linkable) <==> t.position == p && p in t.tile.links;
      SomeSelfLinkSnoc(tiles, p);
    }
  }

  lemma SomeSelfLinkSnoc(tiles: seq<TilePos>, p: Coord)
    requires |tiles| > 0
    ensures var n := |tiles| - 1;
            SomeSelfLink(tiles, p) <==> SomeSelfLink(tiles[..n], p) || (tiles[n].position == p && p in tiles[n].tile.links)
  {
    var n := |tiles| - 1;
    var init := tiles[..n];
    if SomeSelfLink(init, p) {
      var i :| 0 <= i < |init| && init[i].position == p && p in init[i].tile.links;
      assert tiles[i] == init[i];
    }
    if SomeSelfLink(tiles, p) {
      var i :| 0 <= i < |tiles| && tiles[i].position == p && p in tiles[i].tile.links;
      if i < n { assert tiles[i] == init[i]; }
    }
  }

  /** When the check passes, it warns about links on an unlinkable square at `p` exactly when there is one. */
  lemma {:induction false} CheckUnlinkableWarnings(tiles: seq<TilePos>, linkable: map<Coord, bool>, p: Coord)
    requires LookupsDefined(tiles, linkable)
    requires Check(tiles, linkable).error.None?
    ensures UnlinkableHasLinks(p) in Check(tiles, linkable).warnings <==> SomeUnlinkableWithLinks(tiles, linkable, p)
    decreases |tiles|
  {
    if |tiles| > 0 {
      var n := |tiles| - 1;
      var init := tiles[..n];
      CheckStep(tiles, linkable);
      CheckUnlinkableWarnings(init, linkable, p);
      var t := tiles[n];
      assert UnlinkableHasLinks(p) in TileWarnings(t, linkable) <==>
             t.position == p && t.tile.links != [] && !linkable[p];
      SomeUnlinkableSnoc(tiles, linkable, p);
    }
  }

  lemma SomeUnlinkableSnoc(tiles: seq<TilePos>, linkable: map<Coord, bool>, p: Coord)
    requires |tiles| > 0 && LookupsDefined(tiles, linkable)
    ensures var n := |tiles| - 1;
            LookupsDefined(tiles[..n], linkable) &&
            (SomeUnlinkableWithLinks(tiles, linkable, p) <==>
             SomeUnlinkableWithLinks(tiles[..n], linkable, p) ||
             (tiles[n].position == p && tiles[n].tile.links != [] && !linkable[p]))
  {
    var n := |tiles| - 1;
    var init := tiles[..n];
    assert forall i :: 0 <= i < n ==> init[i] == tiles[i];
    if SomeUnlinkableWithLinks(init, linkable, p) {
      var i :| 0 <= i < |init| && init[i].position == p && init[i].tile.links != [] && !linkable[p];
      assert tiles[i] == init[i];
    }
    if SomeUnlinkableWithLinks(tiles, linkable, p) {
      var i :| 0 <= i < |tiles| && tiles[i].position == p && tiles[i].tile.links != [] && !linkable[p];
      if i < n { assert tiles[i] == init[i]; }
    }
  }

  /**
   * ValidateLinks: warns about self-links and about links on unlinkable squares, and throws
   * (here: returns an error) at the first link to a coordinate that has no square.
   */
  method ValidateLinks(tiles: seq<TilePos>, linkable: map<Coord, bool>) returns (v: Verdict)
    requires LookupsDefined(tiles, linkable)
    ensures v == Check(tiles, linkable)
    ensures v.error.Some? <==> HasDanglingLink(tiles, linkable.Keys)
  {
    var warnings: seq<Warning> := [];
    var i := 0;
    while i < |tiles|
      invariant 0 <= i <= |tiles|
      invariant Check(tiles[..i], linkable) == Verdict(warnings, None)
    {
      var tp := tiles[i];
      var currentPos := tp.position;
      ghost var before := warnings;
      if currentPos in tp.tile.links {
        warnings := warnings + [SelfLink(currentPos)];
      }
      if |tp.tile.links| != 0 && !linkable[currentPos] {
        warnings := warnings + [UnlinkableHasLinks(currentPos)];
      }
      assert warnings == before + TileWarnings(tp, linkable);
      var missing := FindMissing(tp.tile.links, linkable);
      CheckPrefixStep(tiles, i, linkable);
      if missing.Some? {
        v := Verdict(warnings, Some(MissingTarget(currentPos, missing.value)));
        CheckStopsAtError(tiles, i + 1, linkable);
        CheckFailsIffDangling(tiles, linkable);
        return;
      }
      i := i + 1;
    }
    assert tiles[..i] == tiles;
    v := Verdict(warnings, None);
    CheckFailsIffDangling(tiles, linkable);
  }

  /** The inner loop of ValidateLinks: the first link of a tile that names no square. */
  method FindMissing(links: seq<Coord>, linkable: map<Coord, bool>) returns (r: Option<Coord>)
    ensures r == FirstMissing(links, linkable.Keys)
  {
    var j := 0;
    while j < |links|
      invariant 0 <= j <= |links|
      invariant forall k :: 0 <= k < j ==> links[k] in linkable
    {
      var link := links[j];
      if link !in linkable {
        FirstMissingAt(links, linkable.Keys, j);
        return Some(link);
      }
      j := j + 1;
    }
    return None;
  }

  /** The check of one more tile, after a passing check of the tiles before it. */
  lemma CheckPrefixStep(tiles: seq<TilePos>, i: int, linkable: map<Coord, bool>)
    requires 0 <= i < |tiles| && LookupsDefined(tiles, linkable)
    requires Check(tiles[..i], linkable).error.None?
    ensures LookupsDefined(tiles[..i + 1], linkable)
    ensures var w := Check(tiles[..i], linkable).warnings + TileWarnings(tiles[i], linkable);
            Check(tiles[..i + 1], linkable) ==
            match FirstMissing(tiles[i].tile.links, linkable.Keys)
            case None => Verdict(w, None)
            case Some(l) => Verdict(w, Some(MissingTarget(tiles[i].position, l)))
  {
    assert tiles[..i + 1][..i] == tiles[..i];
  }

  lemma {:induction false} FirstMissingAt(links: seq<Coord>, keys: set<Coord>, j: nat)
    requires j < |links| && links[j] !in keys
    requires forall k :: 0 <= k < j ==> links[k] in keys
    ensures FirstMissing(links, keys) == Some(links[j])
    decreases j
  {
    if j > 0 {
      FirstMissingAt(links[1..], keys, j - 1);
    }
  }

  /** Once a prefix of the tiles fails, the whole check fails the same way. */
  lemma {:induction false} CheckStopsAtError(tiles: seq<TilePos>, n: nat, linkable: map<Coord, bool>)
    requires n <= |tiles| && LookupsDefined(tiles, linkable)
    requires Check(tiles[..n], linkable).error.Some?
    ensures Check(tiles, linkable) == Check(tiles[..n], linkable)
    decreases |tiles| - n
  {
    if n < |tiles| {
      assert tiles[..n + 1][..n] == tiles[..n];
      CheckStopsAtError(tiles, n + 1, linkable);
    } else {
      assert tiles[..n] == tiles;
    }
  }

  /** The squares a descriptor's link coordinates resolve to, in order, duplicates kept. */
  function Resolve(squares: map<Coord, Square>, links: seq<Coord>): (r: seq<Square>)
    requires forall j :: 0 <= j < |links| ==> links[j] in squares
    ensures |r| == |links|
    ensures forall j :: 0 <= j < |links| ==> r[j] == squares[links[j]]
  {
    seq(|links|, j requires 0 <= j < |links| => squares[links[j]])
  }

  /** Every link target of every tile has a square (what a passing check guarantees). */
  predicate LinksResolve(tiles: seq<TilePos>, squares: map<Coord, Square>) {
    forall i, j :: 0 <= i < |tiles| && 0 <= j < |tiles[i].tile.links| ==> tiles[i].tile.links[j] in squares
  }

  /** The linkability of each square, as the check looks it up. */
  function LinkableOf(squares: map<Coord, Square>): (r: map<Coord, bool>)
    ensures r.Keys == squares.Keys
    ensures forall p :: p in squares ==> r[p] == squares[p].linkable
  {
    map p | p in squares :: squares[p].linkable
  }

  /** A passing check is what makes every lookup of the wiring loop defined. */
  lemma PassingCheckResolves(tiles: seq<TilePos>, squares: map<Coord, Square>)
    requires LookupsDefined(tiles, LinkableOf(squares))
    requires Check(tiles, LinkableOf(squares)).error.None?
    ensures LinksResolve(tiles, squares)
  {
    CheckFailsIffDangling(tiles, LinkableOf(squares));
  }

  /** The squares at distinct tile positions are distinct objects. */
  predicate Injective(tiles: seq<TilePos>, squares: map<Coord, Square>)
    requires forall i :: 0 <= i < |tiles| ==> tiles[i].position in squares
  {
    forall i, j :: 0 <= i < j < |tiles| ==> squares[tiles[i].position] != squares[tiles[j].position]
  }

  /**
   * The wiring loop: a linkable square gets a new list filled with the squares at its tile's
   * link coordinates; an unlinkable square is not touched.
   */
  method WireLinks(squares: map<Coord, Square>, tiles: seq<TilePos>)
    requires squares.Keys == PositionSet(tiles)
    requires LinksResolve(tiles, squares) && Injective(tiles, squares)
    modifies squares.Values`linksField
    ensures forall i :: 0 <= i < |tiles| ==>
              var s := squares[tiles[i].position];
              s.linksField == (if s.linkable then Resolve(squares, tiles[i].tile.links) else old(s.linksField))
    ensures forall p :: p in squares ==>
              var s := squares[p];
              s.Dyn() == old(s.Dyn()) && s.position == old(s.position) && s.graphicsVariant == old(s.graphicsVariant)
  {
    var i := 0;
    while i < |tiles|
      invariant 0 <= i <= |tiles|
      invariant forall k :: 0 <= k < i ==>
                  var s := squares[tiles[k].position];
                  s.linksField == (if s.linkable then Resolve(squares, tiles[k].tile.links) else old(s.linksField))
      invariant forall k :: i <= k < |tiles| ==>
                  var s := squares[tiles[k].position];
                  s.linksField == old(s.linksField)
      invariant forall p :: p in squares ==>
                  var s := squares[p];
                  s.Dyn() == old(s.Dyn()) && s.position == old(s.position) && s.graphicsVariant == old(s.graphicsVariant)
    {
      var current := squares[tiles[i].position];
      if current.linkable {
        FillLinks(current, squares, tiles[i].tile.links);
      }
      i := i + 1;
    }
  }

  /** A linkable square gets a new list, to which the square at each link coordinate is appended in turn. */
  method FillLinks(current: Square, squares: map<Coord, Square>, links: seq<Coord>)
    requires current.linkable
    requires forall j :: 0 <= j < |links| ==> links[j] in squares
    modifies current`linksField
    ensures current.linksField == Resolve(squares, links)
  {
    var _ := current.SetLinks([]);
    var j := 0;
    while j < |links|
      invariant 0 <= j <= |links|
      invariant current.linksField == Resolve(squares, links[..j])
    {
      var _ := current.AddLink(squares[links[j]]);
      assert links[..j + 1] == links[..j] + [links[j]];
      j := j + 1;
    }
    assert links[..j] == links;
  }
}
