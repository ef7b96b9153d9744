/** scripts/conway.py: a Life-like automaton on the terminal grid. Each cell
    holds its age, 0 for a dead cell; a generation counts every cell's live
    neighbours in the previous generation, then births cells whose count is in
    B = [3, 6], ages the live cells whose count is in S = [2, 3] and kills the
    other live cells. The random first generation and the curses drawing are
    not part of this model. */
module Conway {
  import opened Grid

  type Ages = map<Coord, int>

  const Born: set<int> := {3, 6}
  const Survive: set<int> := {2, 3}

  /** `neighbours(x, y)`: the eight surrounding cells, in the source's order. */
  function Neighbours(x: int, y: int): (r: seq<Coord>)
    ensures |r| == 8 && Distinct(r)
    ensures forall n :: n in r <==> Chebyshev(n, (x, y)) == 1
  {
    var r := [(x + 1, y + 1), (x + 0, y + 1), (x - 1, y + 1),
              (x + 1, y + 0), (x - 1, y + 0),
              (x + 1, y - 1), (x + 0, y - 1), (x - 1, y - 1)];
    assert forall n :: Chebyshev(n, (x, y)) == 1 ==> n in r by {
      forall n | Chebyshev(n, (x, y)) == 1
        ensures n in r
      {
        assert -1 <= n.0 - x <= 1 && -1 <= n.1 - y <= 1;
      }
    }
    r
  }

  /** `world.get(n, False)` read as a truth value: a cell off the grid is dead. */
  predicate AliveAt(world: Ages, n: Coord)
  {
    n in world && world[n] != 0
  }

  /** How many of `ns` are alive. */
  function CountAlive(world: Ages, ns: seq<Coord>): (r: nat)
    ensures r <= |ns|
  {
    if ns == [] then 0
    else CountAlive(world, ns[..|ns| - 1]) + (if AliveAt(world, ns[|ns| - 1]) then 1 else 0)
  }

  /** `alive_neighbours` for the cell `c`. */
  function LiveNeighbours(world: Ages, c: Coord): nat
  {
    CountAlive(world, Neighbours(c.0, c.1))
  }

  /** Counting along a list without repeats counts the set of its live members. */
  lemma {:induction false} CountAliveIsCard(world: Ages, ns: seq<Coord>)
    requires Distinct(ns)
    ensures CountAlive(world, ns) == |set n | n in ns && AliveAt(world, n)|
  {
    if ns != [] {
      var init, last := ns[..|ns| - 1], ns[|ns| - 1];
      assert Distinct(init);
      CountAliveIsCard(world, init);
      var before := set n | n in init && AliveAt(world, n);
      var after := set n | n in ns && AliveAt(world, n);
      assert last !in init;
      if AliveAt(world, last) {
        assert after == before + {last};
      } else {
        assert after == before;
      }
    }
  }

  /** The count is the number of live cells a king's move away: the cell
      itself is never counted and cells off the grid count as dead. */
  lemma LiveNeighboursAre(world: Ages, c: Coord)
    ensures LiveNeighbours(world, c) == |set n | n in world && Chebyshev(n, c) == 1 && world[n] != 0|
    ensures LiveNeighbours(world, c) <= 8
  {
    var ns := Neighbours(c.0, c.1);
    CountAliveIsCard(world, ns);
    assert (set n | n in ns && AliveAt(world, n))
        == (set n | n in world && Chebyshev(n, c) == 1 && world[n] != 0);
  }

  /** The cell's age in the next generation. */
  function NextAge(world: Ages, c: Coord): int
    requires c in world
  {
    var k := LiveNeighbours(world, c);
    if world[c] != 0 then (if k in Survive then world[c] + 1 else 0)
    else if k in Born then 1 else 0
  }

  /** The next generation: every cell's new age from the previous generation. */
  function NextGeneration(world: Ages): (r: Ages)
    ensures r.Keys == world.Keys
  {
    map c | c in world :: NextAge(world, c)
  }

  /** The rules of a generation, each in both directions: a live cell
      survives (one generation older) exactly when its count is 2 or 3, and a
      dead cell is born (age 1) exactly when its count is 3 or 6. */
  lemma GenerationRules(world: Ages, c: Coord)
    requires c in world
    ensures world[c] != 0 && LiveNeighbours(world, c) in Survive ==> NextGeneration(world)[c] == world[c] + 1
    ensures world[c] != 0 && LiveNeighbours(world, c) !in Survive ==> NextGeneration(world)[c] == 0
    ensures world[c] == 0 ==> (NextGeneration(world)[c] == 1 <==> LiveNeighbours(world, c) in Born)
    ensures world[c] == 0 ==> (NextGeneration(world)[c] == 0 <==> LiveNeighbours(world, c) !in Born)
  {
  }

  /** Ages never go negative: a grid of non-negative ages stays so, and a
      cell is alive in the next generation exactly when the rules say so. */
  lemma {:induction false} AgesStayNatural(world: Ages)
    requires forall c :: c in world ==> world[c] >= 0
    ensures forall c :: c in NextGeneration(world) ==> NextGeneration(world)[c] >= 0
    ensures forall c :: c in world ==>
      (NextGeneration(world)[c] != 0 <==>
        if world[c] != 0 then LiveNeighbours(world, c) in Survive else LiveNeighbours(world, c) in Born)
  {
    forall c | c in world
      ensures NextGeneration(world)[c] >= 0
      ensures NextGeneration(world)[c] != 0 <==>
        if world[c] != 0 then LiveNeighbours(world, c) in Survive else LiveNeighbours(world, c) in Born
    {
      assert NextGeneration(world)[c] == NextAge(world, c);
    }
  }

  /** The cells of `cs` that the counting pass puts in `borned`, `survived`
      and `died`. */
  ghost predicate Sorted(world: Ages, cs: seq<Coord>, borned: seq<Coord>, survived: seq<Coord>, died: seq<Coord>)
    requires forall c :: c in cs ==> c in world
  {
    (forall c :: c in borned <==> c in cs && world[c] == 0 && LiveNeighbours(world, c) in Born)
    && (forall c :: c in survived <==> c in cs && world[c] != 0 && LiveNeighbours(world, c) in Survive)
    && (forall c :: c in died <==> c in cs && world[c] != 0 && LiveNeighbours(world, c) !in Survive)
    && Distinct(survived)
  }

  /** One generation of the main loop: the counting pass over every cell
      (`order` is the dict's iteration order) fills `borned`, `survived` and
      `died`, then the three update passes apply them. The outcome is the
      next generation, counted entirely from the previous one. */
  method Generation(world: Ages, order: seq<Coord>) returns (next: Ages)
    requires Distinct(order) && Elems(order) == world.Keys
    ensures next == NextGeneration(world)
  {
    var borned, survived, died := [], [], [];
    var i := 0;
    while i < |order|
      invariant 0 <= i <= |order|
      invariant forall c :: c in order[..i] ==> c in world
      invariant Sorted(world, order[..i], borned, survived, died)
    {
      var c := order[i];
      assert c !in order[..i];
      var alive := CountAlive(world, Neighbours(c.0, c.1));
      if world[c] != 0 {
        if alive in Survive {
          survived := survived + [c];
        } else {
          died := died + [c];
        }
      } else if alive in Born {
        borned := borned + [c];
      }
      assert order[..i + 1] == order[..i] + [c];
      i := i + 1;
    }
    assert order[..i] == order;
    next := Apply(world, order, borned, survived, died);
  }

  /** The three update passes: `borned` cells become 1, `survived` cells age
      by one, `died` cells become 0. */
  method Apply(world: Ages, ghost order: seq<Coord>, borned: seq<Coord>, survived: seq<Coord>, died: seq<Coord>)
    returns (next: Ages)
    requires Elems(order) == world.Keys
    requires Sorted(world, order, borned, survived, died)
    ensures next == NextGeneration(world)
  {
    var born := Assign(world, borned, 1);
    var aged := Age(born, survived);
    next := Assign(aged, died, 0);
    forall c | c in world
      ensures next[c] == NextGeneration(world)[c]
    {
      assert c in order;
      assert c in survived ==> c !in borned;
    }
  }

  /** `for c in cs: world[c] = v`. */
  method Assign(world: Ages, cs: seq<Coord>, v: int) returns (next: Ages)
    requires forall c :: c in cs ==> c in world
    ensures next.Keys == world.Keys
    ensures forall c :: c in world ==> next[c] == if c in cs then v else world[c]
  {
    next := world;
    var j := 0;
    while j < |cs|
      invariant 0 <= j <= |cs| && next.Keys == world.Keys
      invariant forall c :: c in world ==> next[c] == if c in cs[..j] then v else world[c]
    {
      next := next[cs[j] := v];
      assert cs[..j + 1] == cs[..j] + [cs[j]];
      j := j + 1;
    }
    assert cs[..j] == cs;
  }

  /** `for c in cs: world[c] += 1`, each cell listed once. */
  method Age(world: Ages, cs: seq<Coord>) returns (next: Ages)
    requires Distinct(cs) && forall c :: c in cs ==> c in world
    ensures next.Keys == world.Keys
    ensures forall c :: c in world ==> next[c] == if c in cs then world[c] + 1 else world[c]
  {
    next := world;
    var j := 0;
    while j < |cs|
      invariant 0 <= j <= |cs| && next.Keys == world.Keys
      invariant forall c :: c in world ==> next[c] == if c in cs[..j] then world[c] + 1 else world[c]
    {
      var c := cs[j];
      assert c !in cs[..j];
      next := next[c := next[c] + 1];
      assert cs[..j + 1] == cs[..j] + [c];
      j := j + 1;
    }
    assert cs[..j] == cs;
  }
}
