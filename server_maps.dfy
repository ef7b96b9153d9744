/** `ca_maze_map` of the older game server (src/whiteshoe/server.py): a cellular
    automaton with the rules B3/S12345 over a dictionary of cells, started from
    random cells of density 0.35 and run until no cell changes or 300 ticks have
    passed; live cells become walls and dead cells empty floor. The server's
    `empty_map`, `purerandom_map` and `pretty_walls` are the same code as the
    map module's and are modelled there. */
module ServerMaps {
  import opened Grid
  import opened Entities
  import opened Constants
  import opened Maps

  /** The automaton: whether each cell is alive. */
  type Cells = map<Coord, bool>

  const Birth: set<nat> := {3}
  const Survival: set<nat> := {1, 2, 3, 4, 5}
  const StartingDensity: real := 0.35
  const MaxTicks: nat := 300
  /** The `n` of `neighbourhood(coord, n=1)`. */
  const Radius: nat := 1

  /** `sum(ca_world[n] for n in ns if n in ca_world)`. */
  function LiveCount(ca: Cells, ns: seq<Coord>): (r: nat)
    ensures r <= |ns|
  {
    if ns == [] then 0
    else LiveCount(ca, ns[..|ns| - 1]) + (if ns[|ns| - 1] in ca && ca[ns[|ns| - 1]] then 1 else 0)
  }

  /** `neighbourhood(coord, n=1)` with the cell itself removed. */
  function Neighbours(c: Coord): seq<Coord>
  {
    RemoveFirst(NeighbourhoodSeq(c, Radius), c)
  }

  /** The number of live cells of the automaton a king's move away. */
  function Count(ca: Cells, c: Coord): nat
  {
    |set n | n in ca && Chebyshev(n, c) == 1 && ca[n]|
  }

  /** Counting along a list without repeats counts the set of its live members. */
  lemma {:induction false} LiveCountIsCard(ca: Cells, ns: seq<Coord>)
    requires Distinct(ns)
    ensures LiveCount(ca, ns) == |set n | n in ns && n in ca && ca[n]|
  {
    if ns != [] {
      var init, last := ns[..|ns| - 1], ns[|ns| - 1];
      assert Distinct(init);
      LiveCountIsCard(ca, init);
      var before := set n | n in init && n in ca && ca[n];
      var after := set n | n in ns && n in ca && ca[n];
      assert last !in init;
      if last in ca && ca[last] {
        assert after == before + {last};
      } else {
        assert after == before;
      }
    }
  }

  /** Summing over the neighbourhood without the cell itself counts the live
      cells of the automaton a king's move away, at most eight. */
  lemma CountMeaning(ca: Cells, c: Coord)
    ensures LiveCount(ca, Neighbours(c)) == Count(ca, c)
    ensures Count(ca, c) <= 8
  {
    var ring := set m | m in ca && 0 < Chebyshev(m, c) <= Radius && ca[m];
    assert ring == set n | n in ca && Chebyshev(n, c) == 1 && ca[n];
    assert Side(Radius) * Side(Radius) - 1 == 8;
    RingCount(ca, c, Radius);
  }

  lemma RingCount(ca: Cells, c: Coord, n: int)
    requires n >= 0
    ensures LiveCount(ca, RemoveFirst(NeighbourhoodSeq(c, n), c)) == |set m | m in ca && 0 < Chebyshev(m, c) <= n && ca[m]|
    ensures LiveCount(ca, RemoveFirst(NeighbourhoodSeq(c, n), c)) <= Side(n) * Side(n) - 1
  {
    var full := NeighbourhoodSeq(c, n);
    NeighbourhoodMembers(c, n);
    assert c in full;
    var ns := RemoveFirst(full, c);
    LiveCountIsCard(ca, ns);
    assert forall m :: m in ns <==> 0 < Chebyshev(m, c) <= n;
    assert (set m | m in ns && m in ca && ca[m]) == (set m | m in ca && 0 < Chebyshev(m, c) <= n && ca[m]);
  }

  /** The cell goes into `will_birth`. */
  predicate Born(ca: Cells, c: Coord)
    requires c in ca
  {
    !ca[c] && Count(ca, c) in Birth
  }

  /** The cell goes into `will_die`. */
  predicate Dies(ca: Cells, c: Coord)
    requires c in ca
  {
    ca[c] && Count(ca, c) !in Survival
  }

  /** One tick: every cell's fate is decided on the automaton before the
      tick, then the births and deaths are applied. */
  function Tick(ca: Cells): (r: Cells)
    ensures r.Keys == ca.Keys
  {
    map c | c in ca :: Fate(ca[c], Count(ca, c))
  }

  /** Whether a cell is alive after the tick, from whether it was and its
      neighbour count: `will_birth` and `will_die` are applied. */
  function Fate(alive: bool, number: nat): bool
  {
    if !alive && number in Birth then true
    else if alive && number !in Survival then false
    else alive
  }

  /** `will_birth` and `will_die` after the scan. */
  function Births(ca: Cells): set<Coord>
  {
    set c | c in ca && Born(ca, c)
  }

  function Deaths(ca: Cells): set<Coord>
  {
    set c | c in ca && Dies(ca, c)
  }

  /** The automaton with the cells of `cells` set to `value`. */
  function Updated(ca: Cells, cells: set<Coord>, value: bool): (r: Cells)
    ensures r.Keys == ca.Keys
  {
    map c | c in ca :: if c in cells then value else ca[c]
  }

  /** Applying the births, then the deaths, of the scan is the tick. */
  lemma ScanThenApply(ca: Cells)
    ensures Updated(Updated(ca, Births(ca), true), Deaths(ca), false) == Tick(ca)
  {
    var m := Updated(ca, Births(ca), true);
    var r := Updated(m, Deaths(ca), false);
    forall c | c in ca ensures r[c] == Tick(ca)[c] {
      var born, dies := Born(ca, c), Dies(ca, c);
      assert c in Births(ca) <==> born;
      assert c in Deaths(ca) <==> dies;
      assert m[c] == if born then true else ca[c];
      assert r[c] == if dies then false else m[c];
      CellFate(ca, c);
    }
  }

  /** No cell is born or dies: `live` stays false. */
  predicate Quiet(ca: Cells)
  {
    forall c :: c in ca ==> !Born(ca, c) && !Dies(ca, c)
  }

  /** The automaton stops exactly at a fixed point of the tick. */
  lemma QuietIsFixed(ca: Cells)
    ensures Quiet(ca) <==> Tick(ca) == ca
  {
    if Tick(ca) == ca {
      forall c | c in ca ensures !Born(ca, c) && !Dies(ca, c) {
        assert Tick(ca)[c] == ca[c];
      }
    }
  }

  /** A live cell survives exactly when it has between one and five live
      neighbours; a dead cell comes alive exactly when it has three. */
  lemma TickRules(ca: Cells, c: Coord)
    requires c in ca
    ensures ca[c] ==> (Tick(ca)[c] <==> 1 <= Count(ca, c) <= 5)
    ensures !ca[c] ==> (Tick(ca)[c] <==> Count(ca, c) == 3)
  {
    var n := Count(ca, c);
    assert Tick(ca)[c] == Fate(ca[c], n);
    FateRules(ca[c], n);
  }

  lemma CellFate(ca: Cells, c: Coord)
    requires c in ca
    ensures Tick(ca)[c] == if Born(ca, c) then true else if Dies(ca, c) then false else ca[c]
  {
    var n := Count(ca, c);
    assert Tick(ca)[c] == Fate(ca[c], n);
  }

  lemma FateRules(alive: bool, number: nat)
    ensures alive ==> (Fate(alive, number) <==> 1 <= number <= 5)
    ensures !alive ==> (Fate(alive, number) <==> number == 3)
  {
  }

  function Iterate(ca: Cells, n: nat): (r: Cells)
    ensures r.Keys == ca.Keys
  {
    if n == 0 then ca else Tick(Iterate(ca, n - 1))
  }

  /** The first automaton: cell (i, j) of the X by Y rectangle takes the draw
      i * Y + j of the random generator and is alive below the density. */
  function Start(X: int, Y: int, random: int -> real): (r: Cells)
  {
    map c | c in (set i, j | 0 <= i < X && 0 <= j < Y :: (i, j)) :: random(c.0 * Y + c.1) < StartingDensity
  }

  /** The map of an automaton: a wall for a live cell, empty floor for a dead one. */
  function Drawing(ca: Cells): (r: Plan)
    ensures r.Keys == ca.Keys
    ensures forall c :: c in r ==> r[c] == (if ca[c] then [Stone] else [Blank])
  {
    map c | c in ca :: if ca[c] then [Stone] else [Blank]
  }

  /** `ca_maze_map(X, Y, seed)`: the draws of the seeded generator are the
      oracle `random`. The result is the drawing of the automaton after
      `ticks` ticks, where `ticks` is at most 300 and, below 300, the
      automaton has come to rest. */
  method CaMazeMap(X: int, Y: int, random: int -> real) returns (world: Plan, ghost ticks: nat)
    ensures forall c :: c in world <==> InRect(c, X, Y)
    ensures ticks <= MaxTicks && world == Drawing(Iterate(Start(X, Y, random), ticks))
    ensures ticks < MaxTicks ==> Quiet(Iterate(Start(X, Y, random), ticks))
  {
    var ca := Product(X, Y, (c: Coord) => random(c.0 * Y + c.1) < StartingDensity);
    ghost var start := Start(X, Y, random);
    assert ca == start;
    ticks := 0;
    var count := 0;
    var live := true;
    while live && count < MaxTicks
      invariant ticks == count <= MaxTicks
      invariant ca == Iterate(start, ticks)
      invariant !live ==> Quiet(ca)
      decreases MaxTicks - count
    {
      ghost var before := ca;
      ca, live := TickOnce(ca);
      if !live {
        QuietIsFixed(before);
      }
      ticks, count := ticks + 1, count + 1;
    }
    world := Draw(ca);
  }

  /** One pass of the `while live` loop: the scan, then the births, then
      the deaths; `live` tells whether any cell was to change. */
  method TickOnce(ca: Cells) returns (next: Cells, live: bool)
    ensures next == Tick(ca)
    ensures live <==> !Quiet(ca)
  {
    var willBirth, willDie := Scan(ca);
    live := willBirth != {} || willDie != {};
    next := Assign(ca, willBirth, true);
    next := Assign(next, willDie, false);
    ScanThenApply(ca);
    if live {
      if willBirth != {} {
        var c :| c in willBirth;
        assert Born(ca, c);
      } else {
        var c :| c in willDie;
        assert Dies(ca, c);
      }
    }
  }

  /** The scan of one tick: the cells to be born and those to die. */
  method Scan(ca: Cells) returns (willBirth: set<Coord>, willDie: set<Coord>)
    ensures willBirth == Births(ca) && willDie == Deaths(ca)
  {
    willBirth, willDie := {}, {};
    var todo := ca.Keys;
    while todo != {}
      invariant todo <= ca.Keys
      invariant willBirth == set c | c in ca && c !in todo && Born(ca, c)
      invariant willDie == set c | c in ca && c !in todo && Dies(ca, c)
      decreases todo
    {
      var c :| c in todo;
      var number := CountNeighbours(ca, c);
      if !ca[c] && number in Birth {
        willBirth := willBirth + {c};
      } else if ca[c] && number !in Survival {
        willDie := willDie + {c};
      }
      todo := todo - {c};
    }
  }

  /** The neighbour count of one cell. */
  method CountNeighbours(ca: Cells, c: Coord) returns (number: nat)
    ensures number == Count(ca, c)
  {
    CountMeaning(ca, c);
    var ns := Neighbourhood(c, 1);
    ns := RemoveFirst(ns, c);
    number := 0;
    var i := 0;
    while i < |ns|
      invariant 0 <= i <= |ns|
      invariant number == LiveCount(ca, ns[..i])
    {
      assert ns[..i + 1][..i] == ns[..i];
      if ns[i] in ca && ca[ns[i]] {
        number := number + 1;
      }
      i := i + 1;
    }
    assert ns[..i] == ns;
  }

  /** `for coord in cells: ca_world[coord] = value`. */
  method Assign(ca: Cells, cells: set<Coord>, value: bool) returns (r: Cells)
    requires cells <= ca.Keys
    ensures r == Updated(ca, cells, value)
  {
    r := ca;
    var todo := cells;
    while todo != {}
      invariant todo <= cells
      invariant r == map c | c in ca :: if c in cells - todo then value else ca[c]
      decreases todo
    {
      var c :| c in todo;
      r := r[c := value];
      todo := todo - {c};
    }
  }

  /** The final loop turning live cells into walls and dead cells into floor. */
  method Draw(ca: Cells) returns (world: Plan)
    ensures world == Drawing(ca)
  {
    world := map[];
    var todo := ca.Keys;
    while todo != {}
      invariant todo <= ca.Keys
      invariant world == map c | c in ca && c !in todo :: if ca[c] then [Stone] else [Blank]
      decreases todo
    {
      var c :| c in todo;
      world := world[c := if ca[c] then [Stone] else [Blank]];
      todo := todo - {c};
    }
  }
}
