/** src/whiteshoe/maps.py: the map generators and the helpers that post-process
    or print a generated map. A generated map is a dict from (x, y) to a list
    of (kind, attrs) pairs; `dungeon_alpha` instead produces a level keyed by
    (x, y, z) whose cells hold (id, type name) pairs, the form that
    src/whiteshoe/level.py also produces. The random draws of the generators
    are parameters of the model (an oracle or a nondeterministic choice). */
module Maps {
  import opened Wrappers
  import opened Constants
  import opened Grid
  import opened Entities

  /** A generated map: every cell a list of entity values. */
  type Plan = map<Coord, seq<Obj>>

  type Coord3 = (int, int, int)

  /** An entity of a level: its id and its type name. */
  datatype LEntity = LEntity(id: int, kind: string)

  /** `(constants.OBJ_EMPTY, {})` and `(constants.OBJ_WALL, {})`. */
  const Blank := Obj(Empty, map[])
  const Stone := Obj(Wall, map[])

  /** The cells of `itertools.product(range(X), range(Y))`. */
  predicate InRect(c: Coord, X: int, Y: int)
  {
    0 <= c.0 < X && 0 <= c.1 < Y
  }

  // ---- empty and purerandom ----

  /** The nested loop `for i, j in itertools.product(range(X), range(Y)):
      world[i, j] = tile(i, j)` shared by the generators. */
  method Product<T>(X: int, Y: int, tile: Coord -> T) returns (world: map<Coord, T>)
    ensures forall c :: c in world <==> InRect(c, X, Y)
    ensures forall c :: c in world ==> world[c] == tile(c)
  {
    world := map[];
    var i := 0;
    while i < X
      invariant 0 <= i <= if X < 0 then 0 else X
      invariant forall c :: c in world <==> 0 <= c.0 < i && 0 <= c.1 < Y
      invariant forall c :: c in world ==> world[c] == tile(c)
    {
      var j := 0;
      while j < Y
        invariant 0 <= j <= if Y < 0 then 0 else Y
        invariant forall c :: c in world <==> (0 <= c.0 < i && 0 <= c.1 < Y) || (c.0 == i && 0 <= c.1 < j)
        invariant forall c :: c in world ==> world[c] == tile(c)
      {
        world := world[(i, j) := tile((i, j))];
        j := j + 1;
      }
      i := i + 1;
    }
  }

  /** `empty(X, Y)`: every cell of the X by Y rectangle holds one EMPTY. */
  method EmptyMap(X: int, Y: int) returns (world: Plan)
    ensures forall c :: c in world <==> InRect(c, X, Y)
    ensures forall c :: c in world ==> world[c] == [Blank]
  {
    world := Product(X, Y, c => [Blank]);
  }

  /** The tile a draw of `r.random()` makes: a wall below 0.35. */
  function Drawn(draw: real): (r: seq<Obj>)
    ensures r == [Stone] <==> draw < 0.35
    ensures r == [Blank] <==> draw >= 0.35
  {
    if draw < 0.35 then [Stone] else [Blank]
  }

  /** `purerandom(X, Y, seed)`: the draws of `random.Random(seed)` are the
      oracle `random`, the k-th draw deciding the k-th cell of the product,
      so cell (i, j) takes draw i * Y + j. Every cell of the rectangle holds
      a single WALL or EMPTY. */
  method PureRandom(X: int, Y: int, random: int -> real) returns (world: Plan)
    ensures forall c :: c in world <==> InRect(c, X, Y)
    ensures forall c :: c in world ==> world[c] == Drawn(random(c.0 * Y + c.1))
    ensures forall c :: c in world ==> world[c] == [Stone] || world[c] == [Blank]
  {
    world := Product(X, Y, (c: Coord) => Drawn(random(c.0 * Y + c.1)));
  }

  // ---- depth_first ----

  /** `cells`: the half-size grid `product(range(W), range(H))` the maze is
      dug in. */
  function HalfGrid(W: int, H: int): (r: set<Coord>)
    ensures forall c :: c in r <==> InRect(c, W, H)
  {
    set a, b | 0 <= a < W && 0 <= b < H :: (a, b)
  }

  /** `neighbours - visited` is not empty: `v` has a grid neighbour that has
      not been visited yet. */
  ghost predicate Unfinished(v: Coord, grid: set<Coord>, visited: set<Coord>)
  {
    exists n :: n in grid && n !in visited && Manhattan(n, v) == 1
  }

  /** The removed walls form a tree over `visited` rooted at `initial`:
      every visited cell but the root was entered from its `parent`, a
      visited neighbour, through the wall (cell, parent), and these are all
      the removed walls; the root is some cell's parent unless it is all
      there is. */
  ghost predicate Tree(removed: set<(Coord, Coord)>, visited: set<Coord>, initial: Coord, parent: map<Coord, Coord>)
  {
    initial in visited && parent.Keys == visited - {initial}
    && (forall w :: w in removed <==> w.0 in parent && parent[w.0] == w.1)
    && (forall v :: v in parent ==> parent[v] in visited && Manhattan(v, parent[v]) == 1)
    && (visited == {initial} || exists v :: v in parent && parent[v] == initial)
  }

  /** The backtracking invariant of the search: every visited cell that
      still has an unvisited neighbour is the current cell or on the stack. */
  ghost predicate Searching(grid: set<Coord>, current: Coord, visited: set<Coord>, stack: seq<Coord>)
  {
    visited <= grid && current in visited
    && (forall k :: 0 <= k < |stack| ==> stack[k] in visited)
    && (forall v :: v in visited && Unfinished(v, grid, visited) ==> v == current || v in stack)
  }

  /** The half grid is connected: while some cell is unvisited, some visited
      cell has an unvisited neighbour. */
  lemma {:induction false} Connected(W: int, H: int, visited: set<Coord>, v: Coord, u: Coord)
    requires visited <= HalfGrid(W, H)
    requires v in visited && u in HalfGrid(W, H) && u !in visited
    ensures exists x :: x in visited && Unfinished(x, HalfGrid(W, H), visited)
    decreases Manhattan(v, u)
  {
    var grid := HalfGrid(W, H);
    var w := if v.0 < u.0 then (v.0 + 1, v.1) else if v.0 > u.0 then (v.0 - 1, v.1)
             else if v.1 < u.1 then (v.0, v.1 + 1) else (v.0, v.1 - 1);
    assert w in grid && Manhattan(w, v) == 1;
    if w !in visited {
      assert Unfinished(v, grid, visited);
    } else {
      Connected(W, H, visited, w, u);
    }
  }

  /** `neighbours - visited` of the loop is the set of unvisited grid
      neighbours. */
  lemma Frontier(current: Coord, grid: set<Coord>, visited: set<Coord>)
    ensures forall n :: n in Elems(CardinalNeighbourhood(current)) * grid - visited <==>
      n in grid && n !in visited && Manhattan(n, current) == 1
    ensures Elems(CardinalNeighbourhood(current)) * grid - visited != {} <==> Unfinished(current, grid, visited)
  {
    var open := Elems(CardinalNeighbourhood(current)) * grid - visited;
    if Unfinished(current, grid, visited) {
      var n :| n in grid && n !in visited && Manhattan(n, current) == 1;
      assert n in open;
    }
  }

  /** Stepping to an unvisited neighbour keeps the search invariant. */
  lemma AdvanceSearching(grid: set<Coord>, current: Coord, visited: set<Coord>, stack: seq<Coord>, next: Coord)
    requires Searching(grid, current, visited, stack)
    requires next in grid && next !in visited
    ensures Searching(grid, next, visited + {next}, stack + [current])
  {
    var visited', stack' := visited + {next}, stack + [current];
    forall v | v in visited' && Unfinished(v, grid, visited')
      ensures v == next || v in stack'
    {
      if v != next {
        var n :| n in grid && n !in visited' && Manhattan(n, v) == 1;
        assert Unfinished(v, grid, visited);
        assert stack'[|stack|] == current;
        if v != current {
          var k :| 0 <= k < |stack| && stack[k] == v;
          assert stack'[k] == v;
        }
      }
    }
    forall k | 0 <= k < |stack'|
      ensures stack'[k] in visited'
    {
      if k < |stack| {
        assert stack'[k] == stack[k];
      }
    }
  }

  /** Removing the wall to an unvisited neighbour grows the tree by that
      neighbour. */
  lemma AdvanceTree(removed: set<(Coord, Coord)>, visited: set<Coord>, initial: Coord, parent: map<Coord, Coord>,
                    current: Coord, next: Coord)
    requires Tree(removed, visited, initial, parent)
    requires current in visited && next !in visited && Manhattan(next, current) == 1
    ensures Tree(removed + {(next, current)}, visited + {next}, initial, parent[next := current])
  {
    var parent' := parent[next := current];
    if current != initial {
      assert visited != {initial};
      var v :| v in parent && parent[v] == initial;
      assert v in parent' && parent'[v] == initial;
    } else {
      assert next in parent' && parent'[next] == initial;
    }
    assert parent'.Keys == visited + {next} - {initial};
  }

  /** Backtracking from a finished cell keeps the search invariant. */
  lemma Backtrack(grid: set<Coord>, current: Coord, visited: set<Coord>, stack: seq<Coord>)
    requires Searching(grid, current, visited, stack)
    requires !Unfinished(current, grid, visited) && stack != []
    ensures Searching(grid, stack[|stack| - 1], visited, stack[..|stack| - 1])
  {
    var top, rest := stack[|stack| - 1], stack[..|stack| - 1];
    forall v | v in visited && Unfinished(v, grid, visited)
      ensures v == top || v in rest
    {
      assert v in stack;
      var k :| 0 <= k < |stack| && stack[k] == v;
      if k < |rest| {
        assert rest[k] == v;
      }
    }
    forall k | 0 <= k < |rest|
      ensures rest[k] in visited
    {
      assert rest[k] == stack[k];
    }
  }

  /** With the stack empty and the current cell finished, every cell has
      been visited: the restart branch of the loop cannot be reached. */
  lemma {:induction false} NoRestart(W: int, H: int, current: Coord, visited: set<Coord>)
    requires Searching(HalfGrid(W, H), current, visited, [])
    requires !Unfinished(current, HalfGrid(W, H), visited)
    ensures visited == HalfGrid(W, H)
  {
    if u :| u in HalfGrid(W, H) && u !in visited {
      Connected(W, H, visited, current, u);
    }
  }

  /** The search loop of `depth_first`: from a random cell, step to a
      random unvisited neighbour (pushing the current cell and removing the
      wall between them) or backtrack, until every cell is visited. The
      source's third branch (a random restart when the stack is empty) is
      never taken, because the grid is connected (`NoRestart`). */
  method Maze(W: int, H: int) returns (removed: set<(Coord, Coord)>, ghost initial: Coord, ghost parent: map<Coord, Coord>)
    requires W > 0 && H > 0
    ensures Tree(removed, HalfGrid(W, H), initial, parent)
  {
    var grid := HalfGrid(W, H);
    assert (0, 0) in grid;
    var start :| start in grid;
    initial := start;
    var current := start;
    var visited := {start};
    removed := {};
    parent := map[];
    var stack: seq<Coord> := [];
    while grid - visited != {}
      invariant Searching(grid, current, visited, stack)
      invariant Tree(removed, visited, initial, parent)
      decreases grid - visited, |stack|
    {
      var neighbours := Elems(CardinalNeighbourhood(current)) * grid;
      Frontier(current, grid, visited);
      if neighbours - visited != {} {
        var neighbour :| neighbour in neighbours - visited;
        AdvanceSearching(grid, current, visited, stack, neighbour);
        AdvanceTree(removed, visited, initial, parent, current, neighbour);
        parent := parent[neighbour := current];
        stack := stack + [current];
        removed := removed + {(neighbour, current)};
        current := neighbour;
        visited := visited + {current};
      } else if stack != [] {
        Backtrack(grid, current, visited, stack);
        current := stack[|stack| - 1];
        stack := stack[..|stack| - 1];
      } else {
        NoRestart(W, H, current, visited);
        assert false;
      }
    }
  }

  /** The map cell of a half-grid cell. */
  function Double(a: Coord): Coord
  {
    (a.0 * 2, a.1 * 2)
  }

  /** The map cell between the cells of two neighbouring half-grid cells. */
  function Between(w: (Coord, Coord)): Coord
  {
    (w.0.0 + w.1.0, w.0.1 + w.1.1)
  }

  /** The three map cells a removed wall opens. */
  predicate Opens(w: (Coord, Coord), c: Coord)
  {
    c == Double(w.0) || c == Double(w.1) || c == Between(w)
  }

  predicate Opened(removed: set<(Coord, Coord)>, c: Coord)
  {
    exists w :: w in removed && Opens(w, c)
  }

  /** `shared` of the wall-removal loop: the orthogonal neighbours of one
      doubled cell that are in the 3 by 3 square of the other are exactly
      the one cell between them, so the source's `assert len(shared) == 1`
      holds. */
  lemma SharedWall(w: (Coord, Coord), around: seq<Coord>)
    requires Manhattan(w.0, w.1) == 1
    requires around == NeighbourhoodSeq(Double(w.1), 1)
    ensures Elems(CardinalNeighbourhood(Double(w.0))) * Elems(around) == {Between(w)}
  {
    NeighbourhoodMembers(Double(w.1), 1);
    var shared := Elems(CardinalNeighbourhood(Double(w.0))) * Elems(around);
    assert Between(w) in CardinalNeighbourhood(Double(w.0));
    assert Between(w) in shared;
    forall p | p in shared
      ensures p == Between(w)
    {
      assert Manhattan(p, Double(w.0)) == 1 && Chebyshev(p, Double(w.1)) <= 1;
    }
  }

  /** The cells a wall of the half grid opens lie inside the map. */
  lemma OpensInside(X: int, Y: int, w: (Coord, Coord))
    requires w.0 in HalfGrid(X / 2, Y / 2) && w.1 in HalfGrid(X / 2, Y / 2)
    ensures InRect(Double(w.0), X, Y) && InRect(Double(w.1), X, Y) && InRect(Between(w), X, Y)
  {
    assert 2 * (X / 2) <= X && 2 * (Y / 2) <= Y;
  }

  /** Opening one more wall opens its three cells. */
  lemma OpenedAdd(done: set<(Coord, Coord)>, w: (Coord, Coord), c: Coord)
    ensures Opened(done + {w}, c) <==> Opened(done, c) || Opens(w, c)
  {
    if Opened(done + {w}, c) && !Opens(w, c) {
      var w' :| w' in done + {w} && Opens(w', c);
      assert w' in done;
    }
  }

  /** One turn of the wall-removal loop: `shared` is the one cell between
      the two doubled cells, and all three become empty. */
  method OpenWall(X: int, Y: int, world: Plan, w: (Coord, Coord)) returns (world': Plan)
    requires w.0 in HalfGrid(X / 2, Y / 2) && w.1 in HalfGrid(X / 2, Y / 2) && Manhattan(w.0, w.1) == 1
    requires forall c :: c in world <==> InRect(c, X, Y)
    ensures forall c :: c in world' <==> InRect(c, X, Y)
    ensures forall c :: c in world' ==> world'[c] == if Opens(w, c) then [Blank] else world[c]
  {
    var realA, realB := Double(w.0), Double(w.1);
    var around := Neighbourhood(realB, 1);
    var shared := Elems(CardinalNeighbourhood(realA)) * Elems(around);
    SharedWall(w, around);
    OpensInside(X, Y, w);
    var between :| between in shared;
    world' := world[between := [Blank]][realA := [Blank]][realB := [Blank]];
  }

  /** The second half of `depth_first`: every cell a wall, then each removed
      wall opens its two doubled cells and the cell between them. */
  method Carve(X: int, Y: int, removed: set<(Coord, Coord)>) returns (world: Plan)
    requires forall w :: w in removed ==>
      w.0 in HalfGrid(X / 2, Y / 2) && w.1 in HalfGrid(X / 2, Y / 2) && Manhattan(w.0, w.1) == 1
    ensures forall c :: c in world <==> InRect(c, X, Y)
    ensures forall c :: c in world ==> world[c] == if Opened(removed, c) then [Blank] else [Stone]
  {
    world := Product(X, Y, c => [Stone]);
    var todo := removed;
    ghost var done := {};
    while todo != {}
      invariant done + todo == removed
      invariant forall c :: c in world <==> InRect(c, X, Y)
      invariant forall c :: c in world ==> world[c] == if Opened(done, c) then [Blank] else [Stone]
      decreases todo
    {
      var w :| w in todo;
      world := OpenWall(X, Y, world, w);
      todo := todo - {w};
      forall c | c in world
        ensures world[c] == if Opened(done + {w}, c) then [Blank] else [Stone]
      {
        OpenedAdd(done, w, c);
      }
      done := done + {w};
    }
  }

  /** `depth_first(X, Y, seed)` with `r.choice` as a nondeterministic choice:
      an IndexError when the half grid is empty; otherwise the X by Y map of
      single walls and empties in which the removed walls (a spanning tree
      of the half grid) are opened, so every doubled cell is open once the
      half grid has two cells. */
  method DepthFirst(X: int, Y: int)
    returns (world: Option<Plan>, removed: set<(Coord, Coord)>, ghost initial: Coord, ghost parent: map<Coord, Coord>)
    ensures world.None? <==> X / 2 <= 0 || Y / 2 <= 0
    ensures world.Some? ==> Tree(removed, HalfGrid(X / 2, Y / 2), initial, parent)
    ensures world.Some? ==> forall c :: c in world.value <==> InRect(c, X, Y)
    ensures world.Some? ==> forall c :: c in world.value ==>
      world.value[c] == if Opened(removed, c) then [Blank] else [Stone]
    ensures world.Some? ==> forall a :: a in HalfGrid(X / 2, Y / 2) && HalfGrid(X / 2, Y / 2) != {a} ==>
      Double(a) in world.value && world.value[Double(a)] == [Blank]
  {
    var W, H := X / 2, Y / 2;
    if W <= 0 || H <= 0 {
      world, removed, initial, parent := None, {}, (0, 0), map[];
    } else {
      removed, initial, parent := Maze(W, H);
      var carved := Carve(X, Y, removed);
      world := Some(carved);
      forall a | a in HalfGrid(W, H) && HalfGrid(W, H) != {a}
        ensures Double(a) in carved && carved[Double(a)] == [Blank]
      {
        if a != initial {
          assert (a, parent[a]) in removed && Opens((a, parent[a]), Double(a));
        } else {
          var v :| v in parent && parent[v] == initial;
          assert (v, initial) in removed && Opens((v, initial), Double(a));
        }
      }
    }
  }

  // ---- dungeon_alpha ----

  /** One room of `dungeon_alpha`: its two side lengths and its top-left
      cell, as the four `r.randint` draws give them. */
  datatype Room = Room(xLength: int, yLength: int, x1: int, y1: int)

  /** `min_size`, `max_size` and `num_rooms`. */
  const MinSize := 4
  const MaxSize := 9
  const NumRooms := 6

  /** What `r.randint` can draw for a room of an X by Y dungeon. */
  predicate Drawable(room: Room, X: int, Y: int)
  {
    MinSize <= room.xLength <= MaxSize && MinSize <= room.yLength <= MaxSize
    && 0 <= room.x1 <= X - MinSize && 0 <= room.y1 <= Y - MinSize
  }

  predicate InRoom(c: Coord, room: Room)
  {
    room.x1 <= c.0 < room.x1 + room.xLength && room.y1 <= c.1 < room.y1 + room.yLength
  }

  /** The cell lies in one of the rooms. */
  predicate Floored(c: Coord, rooms: seq<Room>)
  {
    exists k :: 0 <= k < |rooms| && InRoom(c, rooms[k])
  }

  /** `level` with its insertion order: `order` lists each key once. */
  ghost predicate Ordered(level: map<Coord, bool>, order: seq<Coord>)
  {
    Distinct(order) && forall c :: c in level <==> c in order
  }

  /** `for x in range(X): for y in range(Y): level[x, y] = False`. */
  method Ground(X: int, Y: int) returns (level: map<Coord, bool>, order: seq<Coord>)
    requires X >= 0 && Y >= 0
    ensures Ordered(level, order)
    ensures forall c :: c in level <==> InRect(c, X, Y)
    ensures forall c :: c in level ==> !level[c]
  {
    ColumnsMembers(0, X, 0, Y);
    order := Columns(0, X, 0, Y);
    level := Product(X, Y, c => false);
  }

  /** The two loops that mark one room: every cell of it becomes floor
      (`True`), and cells outside the X by Y area are added after the
      existing keys. */
  method Paint(level: map<Coord, bool>, order: seq<Coord>, room: Room) returns (level': map<Coord, bool>, order': seq<Coord>)
    requires Ordered(level, order)
    ensures Ordered(level', order') && |order'| >= |order| && order'[..|order|] == order
    ensures forall c :: c in level' <==> c in level || InRoom(c, room)
    ensures forall c :: c in level' ==> level'[c] == (InRoom(c, room) || level[c])
  {
    level', order' := level, order;
    var x := room.x1;
    while x < room.x1 + room.xLength
      invariant room.xLength >= 0 ==> room.x1 <= x <= room.x1 + room.xLength
      invariant room.xLength < 0 ==> x == room.x1
      invariant Ordered(level', order') && |order'| >= |order| && order'[..|order|] == order
      invariant forall c :: c in level' <==> c in level || (InRoom(c, room) && c.0 < x)
      invariant forall c :: c in level' ==> level'[c] == ((InRoom(c, room) && c.0 < x) || level[c])
    {
      ghost var before := order';
      level', order' := PaintColumn(level', order', x, room.y1, room.yLength);
      assert order'[..|order|] == before[..|order|];
      x := x + 1;
    }
  }

  /** The inner loop: the cells (x, y) for y in range(y1, y1 + length)
      become floor. */
  method PaintColumn(level: map<Coord, bool>, order: seq<Coord>, x: int, y1: int, length: int)
    returns (level': map<Coord, bool>, order': seq<Coord>)
    requires Ordered(level, order)
    ensures Ordered(level', order') && |order'| >= |order| && order'[..|order|] == order
    ensures forall c :: c in level' <==> c in level || (c.0 == x && y1 <= c.1 < y1 + length)
    ensures forall c :: c in level' ==> level'[c] == ((c.0 == x && y1 <= c.1 < y1 + length) || level[c])
  {
    level', order' := level, order;
    var y := y1;
    while y < y1 + length
      invariant length >= 0 ==> y1 <= y <= y1 + length
      invariant length < 0 ==> y == y1
      invariant Ordered(level', order') && |order'| >= |order| && order'[..|order|] == order
      invariant forall c :: c in level' <==> c in level || (c.0 == x && y1 <= c.1 < y)
      invariant forall c :: c in level' ==> level'[c] == ((c.0 == x && y1 <= c.1 < y) || level[c])
    {
      if (x, y) !in level' {
        order' := order' + [(x, y)];
      }
      level' := level'[(x, y) := true];
      y := y + 1;
    }
  }

  /** The last loop: every cell becomes one `(id, 'floor' | 'wall')` entity
      at z = 0, ids drawn from `next` in the dict's order. */
  method Lift(level: map<Coord, bool>, order: seq<Coord>, next: int) returns (r: map<Coord3, seq<LEntity>>)
    requires Ordered(level, order)
    ensures forall c3 :: c3 in r <==> c3.2 == 0 && (c3.0, c3.1) in level
    ensures forall k :: 0 <= k < |order| ==>
      r[(order[k].0, order[k].1, 0)] == [LEntity(next + k, if level[order[k]] then "floor" else "wall")]
  {
    r := map[];
    var k := 0;
    while k < |order|
      invariant 0 <= k <= |order|
      invariant forall c3 :: c3 in r <==> c3.2 == 0 && (c3.0, c3.1) in order[..k]
      invariant forall j :: 0 <= j < k ==>
        r[(order[j].0, order[j].1, 0)] == [LEntity(next + j, if level[order[j]] then "floor" else "wall")]
    {
      var c := order[k];
      var kind := if level[c] then "floor" else "wall";
      r := r[(c.0, c.1, 0) := [LEntity(next + k, kind)]];
      assert order[..k + 1] == order[..k] + [c];
      k := k + 1;
    }
    assert order[..k] == order;
  }

  /** One more room floors the cells it covers, and no others. */
  lemma FlooredSnoc(rooms: seq<Room>, room: Room)
    ensures forall c :: Floored(c, rooms + [room]) <==> Floored(c, rooms) || InRoom(c, room)
  {
    forall c | true
      ensures Floored(c, rooms + [room]) <==> Floored(c, rooms) || InRoom(c, room)
    {
      if Floored(c, rooms + [room]) && !InRoom(c, room) {
        var k :| 0 <= k < |rooms| + 1 && InRoom(c, (rooms + [room])[k]);
        assert k < |rooms| && rooms[k] == (rooms + [room])[k];
      }
      if Floored(c, rooms) {
        var k :| 0 <= k < |rooms| && InRoom(c, rooms[k]);
        assert (rooms + [room])[k] == rooms[k];
      }
      if InRoom(c, room) {
        assert (rooms + [room])[|rooms|] == room;
      }
    }
  }

  /** `dungeon_alpha(X, Y, seed)` with the `r.randint` draws given as
      `rooms` and the entity ids drawn consecutively from `next`: the cells
      of the X by Y area and of the six rooms (which may reach past it),
      each one entity at z = 0, a floor exactly when it lies in a room. The
      k-th cell in the dict's order gets id next + k, so the ids are
      distinct. */
  method DungeonAlpha(X: int, Y: int, rooms: seq<Room>, next: int)
    returns (r: map<Coord3, seq<LEntity>>, ghost order: seq<Coord>)
    requires |rooms| == NumRooms && forall k :: 0 <= k < |rooms| ==> Drawable(rooms[k], X, Y)
    ensures Distinct(order)
    ensures forall c3 :: c3 in r <==> c3.2 == 0 && (InRect((c3.0, c3.1), X, Y) || Floored((c3.0, c3.1), rooms))
    ensures forall c :: c in order <==> InRect(c, X, Y) || Floored(c, rooms)
    ensures forall k :: 0 <= k < |order| ==>
      r[(order[k].0, order[k].1, 0)] == [LEntity(next + k, if Floored(order[k], rooms) then "floor" else "wall")]
  {
    assert Drawable(rooms[0], X, Y);
    var level, ord := Ground(X, Y);
    var i := 0;
    ghost var done: seq<Room> := [];
    while i < NumRooms
      invariant 0 <= i <= NumRooms && Ordered(level, ord) && done == rooms[..i]
      invariant forall c :: c in level <==> InRect(c, X, Y) || Floored(c, done)
      invariant forall c :: c in level ==> level[c] == Floored(c, done)
    {
      var painted, ord' := Paint(level, ord, rooms[i]);
      ghost var done' := done + [rooms[i]];
      assert done' == rooms[..i + 1];
      FlooredSnoc(done, rooms[i]);
      forall c | c in painted
        ensures painted[c] == Floored(c, done')
      {
        if c in level {
          assert level[c] == Floored(c, done);
        }
      }
      level, ord, done := painted, ord', done';
      i := i + 1;
    }
    assert rooms[..i] == rooms;
    order := ord;
    r := Lift(level, ord, next);
  }

  // ---- pretty_walls ----

  /** The cell at n is present and its first object is not OBJ_EMPTY. */
  predicate Built(world: Plan, n: Coord)
  {
    n in world && |world[n]| > 0 && world[n][0].kind != Empty
  }

  /** One of the two neighbour loops: neighbours absent from the map are
      skipped, the first one whose first object is not empty ends the loop
      with True. A present neighbour with no objects raises IndexError in the
      source; the model returns None. */
  function Probe(world: Plan, ns: seq<Coord>): (r: Option<bool>)
    ensures r.Some? ==> (r.value <==> exists k :: 0 <= k < |ns| && Built(world, ns[k]))
    ensures (forall k :: 0 <= k < |ns| && ns[k] in world ==> world[ns[k]] != []) ==> r.Some?
    decreases |ns|
  {
    if ns == [] then Some(false)
    else if ns[0] !in world then Probe(world, ns[1..])
    else if world[ns[0]] == [] then None
    else if world[ns[0]][0].kind != Empty then Some(true)
    else
      var rest := Probe(world, ns[1..]);
      assert forall k :: 0 < k < |ns| ==> ns[k] == ns[1..][k - 1];
      rest
  }

  function Vertical(c: Coord): seq<Coord> { [(c.0, c.1 - 1), (c.0, c.1 + 1)] }
  function Horizontal(c: Coord): seq<Coord> { [(c.0 - 1, c.1), (c.0 + 1, c.1)] }

  /** The wall kind that replaces a wall with built neighbours above or below
      (`vertical`) and left or right (`horizontal`). */
  function Shape(vertical: bool, horizontal: bool): (k: Kind)
    requires vertical || horizontal
    ensures k == VWall <==> vertical && !horizontal
    ensures k == HWall <==> !vertical && horizontal
    ensures k == CWall <==> vertical && horizontal
  {
    if vertical && horizontal then CWall else if vertical then VWall else HWall
  }

  /** The body of the loop for one cell: an empty cell is left alone; a cell
      with a built neighbour loses its first object and gains a wall of the
      matching shape at its end. A cell with no objects raises IndexError. */
  function PrettyStep(world: Plan, c: Coord): (r: Option<Plan>)
    requires c in world
    ensures r.Some? ==> r.value.Keys == world.Keys
    ensures r.Some? ==> forall n :: n in world && n != c ==> r.value[n] == world[n]
    ensures r.Some? ==> world[c] != [] && |r.value[c]| == |world[c]|
    ensures r.Some? && world[c] != [] && world[c][0].kind == Empty ==> r.value == world
    ensures r.Some? && world[c] != [] && r.value[c] != world[c] ==>
      r.value[c][..|world[c]| - 1] == world[c][1..] &&
      r.value[c][|world[c]| - 1] in {Obj(VWall, map[]), Obj(HWall, map[]), Obj(CWall, map[])}
    ensures (forall n :: n in world ==> world[n] != []) ==> r.Some?
  {
    if world[c] == [] then None
    else if world[c][0].kind == Empty then Some(world)
    else
      match Probe(world, Vertical(c))
      case None => None
      case Some(v) =>
        match Probe(world, Horizontal(c))
        case None => None
        case Some(h) =>
          if !v && !h then Some(world)
          else Some(world[c := world[c][1..] + [Obj(Shape(v, h), map[])]])
  }

  /** The whole loop: the cells in the dict's iteration order `order`, each
      step seeing the cells already rewritten by the earlier steps. */
  function Pretty(world: Plan, order: seq<Coord>): (r: Option<Plan>)
    requires forall k :: 0 <= k < |order| ==> order[k] in world
    ensures r.Some? ==> r.value.Keys == world.Keys
    ensures (forall n :: n in world ==> world[n] != []) ==> r.Some? && forall n :: n in r.value ==> r.value[n] != []
  {
    if order == [] then Some(world)
    else
      match Pretty(world, order[..|order| - 1])
      case None => None
      case Some(w) => PrettyStep(w, order[|order| - 1])
  }

  /** One more cell of the order: its step applied to the map so far. */
  lemma PrettySnoc(world: Plan, done: seq<Coord>, c: Coord, w: Plan)
    requires c in world && forall k :: 0 <= k < |done| ==> done[k] in world
    requires Pretty(world, done) == Some(w)
    ensures Pretty(world, done + [c]) == PrettyStep(w, c)
  {
    assert (done + [c])[..|done|] == done;
  }

  /** Once a step raises, the whole pass raises. */
  lemma {:induction false} PrettyStuck(world: Plan, order: seq<Coord>, i: nat)
    requires forall k :: 0 <= k < |order| ==> order[k] in world
    requires i <= |order| && Pretty(world, order[..i]) == None
    ensures Pretty(world, order) == None
    decreases |order|
  {
    if i < |order| {
      var prefix := order[..|order| - 1];
      assert prefix[..i] == order[..i];
      PrettyStuck(world, prefix, i);
    } else {
      assert order[..i] == order;
    }
  }

  /** pretty_walls as the source runs it: one pass over the cells in the
      dict's order, the map's object lists rewritten as it goes. */
  method PrettyWalls(world: Plan, order: seq<Coord>) returns (r: Option<Plan>)
    requires Distinct(order) && forall c :: c in world <==> c in order
    ensures r == Pretty(world, order)
  {
    var w, ok := world, true;
    var i := 0;
    ghost var done: seq<Coord> := [];
    while i < |order| && ok
      invariant 0 <= i <= |order| && done == order[..i]
      invariant ok ==> Pretty(world, done) == Some(w)
      invariant !ok ==> Pretty(world, order) == None
      decreases |order| - i, ok
    {
      ghost var done' := done + [order[i]];
      assert done' == order[..i + 1];
      ok, w := PrettyNext(world, order, i, w, done);
      if ok {
        done := done';
        i := i + 1;
      }
    }
    if ok {
      assert done == order;
      r := Some(w);
    } else {
      r := None;
    }
  }

  /** One turn of the `pretty_walls` loop: the cell `order[i]` is reshaped
      on the map rewritten so far; false where that step raises. */
  method PrettyNext(world: Plan, order: seq<Coord>, i: nat, w: Plan, ghost done: seq<Coord>) returns (ok: bool, w': Plan)
    requires forall c :: c in world <==> c in order
    requires i < |order| && done == order[..i] && Pretty(world, done) == Some(w)
    ensures ok ==> Pretty(world, done + [order[i]]) == Some(w')
    ensures !ok ==> Pretty(world, order) == None
  {
    var c := order[i];
    var step := PrettyStep(w, c);
    PrettySnoc(world, done, c, w);
    if step.None? {
      assert done + [c] == order[..i + 1];
      PrettyStuck(world, order, i + 1);
      ok, w' := false, w;
    } else {
      ok, w' := true, step.value;
    }
  }

  /** The result for one cell computed from the original map alone. */
  function Reshaped(world: Plan, c: Coord): seq<Obj>
    requires c in world && world[c] != []
  {
    var v := Built(world, (c.0, c.1 - 1)) || Built(world, (c.0, c.1 + 1));
    var h := Built(world, (c.0 - 1, c.1)) || Built(world, (c.0 + 1, c.1));
    if world[c][0].kind == Empty || (!v && !h) then world[c]
    else world[c][1..] + [Obj(Shape(v, h), map[])]
  }

  /** A map whose every cell holds one object, as the generators produce. */
  predicate Single(world: Plan)
  {
    forall n :: n in world ==> |world[n]| == 1
  }

  /** The cells in `done` reshaped from the original map, the others as they were. */
  function Simultaneous(world: Plan, done: set<Coord>): (r: Plan)
    requires Single(world)
    ensures r.Keys == world.Keys
  {
    map n | n in world :: if n in done then Reshaped(world, n) else world[n]
  }

  /** Reshaping a one-object cell keeps it built or empty as it was. */
  lemma SimultaneousBuilt(world: Plan, done: set<Coord>, n: Coord)
    requires Single(world)
    ensures Built(Simultaneous(world, done), n) == Built(world, n)
    ensures n in world ==> |Simultaneous(world, done)[n]| == 1
  {
  }

  /** For one-object cells the in-place pass gives the same map as reshaping
      every visited cell from the original map: no step sees an earlier
      step's rewrite, since a rewritten wall is still built. */
  lemma {:induction false} PrettySimultaneous(world: Plan, order: seq<Coord>)
    requires Single(world) && Distinct(order)
    requires forall k :: 0 <= k < |order| ==> order[k] in world
    ensures Pretty(world, order) == Some(Simultaneous(world, Elems(order)))
    decreases |order|
  {
    if order == [] {
      assert Elems(order) == {};
      assert Simultaneous(world, {}) == world;
    } else {
      var prefix := order[..|order| - 1];
      var c := order[|order| - 1];
      assert Distinct(prefix) by {
        forall i, j | 0 <= i < j < |prefix| ensures prefix[i] != prefix[j] {
          assert prefix[i] == order[i] && prefix[j] == order[j];
        }
      }
      assert c !in Elems(prefix);
      assert Elems(order) == Elems(prefix) + {c} by {
        assert order == prefix + [c];
      }
      PrettySimultaneous(world, prefix);
      StepSimultaneous(world, Elems(prefix), c);
    }
  }

  /** One step on the partly reshaped map reshapes its cell from the original. */
  lemma StepSimultaneous(world: Plan, done: set<Coord>, c: Coord)
    requires Single(world) && c in world && c !in done
    ensures PrettyStep(Simultaneous(world, done), c) == Some(Simultaneous(world, done + {c}))
  {
    var w := Simultaneous(world, done);
    SimultaneousSingle(world, done);
    ProbePair(w, (c.0, c.1 - 1), (c.0, c.1 + 1));
    ProbePair(w, (c.0 - 1, c.1), (c.0 + 1, c.1));
    SimultaneousBuilt(world, done, (c.0, c.1 - 1));
    SimultaneousBuilt(world, done, (c.0, c.1 + 1));
    SimultaneousBuilt(world, done, (c.0 - 1, c.1));
    SimultaneousBuilt(world, done, (c.0 + 1, c.1));
    assert w[c] == world[c];
    StepReshaped(world, w, c);
    assert Simultaneous(world, done + {c}) == w[c := Reshaped(world, c)];
  }

  /** The step on a map that agrees with the original on the cell and on
      which neighbours are built. */
  lemma StepReshaped(world: Plan, w: Plan, c: Coord)
    requires Single(world) && Single(w) && c in world && c in w && w[c] == world[c]
    requires Probe(w, Vertical(c)) == Some(Built(world, (c.0, c.1 - 1)) || Built(world, (c.0, c.1 + 1)))
    requires Probe(w, Horizontal(c)) == Some(Built(world, (c.0 - 1, c.1)) || Built(world, (c.0 + 1, c.1)))
    ensures PrettyStep(w, c) == Some(w[c := Reshaped(world, c)])
  {
    var v := Built(world, (c.0, c.1 - 1)) || Built(world, (c.0, c.1 + 1));
    var h := Built(world, (c.0 - 1, c.1)) || Built(world, (c.0 + 1, c.1));
    assert |w[c]| == 1;
    StepIs(w, c, v, h);
    ReshapedIs(world, c, v, h);
    if world[c][0].kind == Empty || (!v && !h) {
      assert w[c := w[c]] == w;
    }
  }

  /** PrettyStep on a non-empty cell whose neighbour probes succeed. */
  lemma StepIs(w: Plan, c: Coord, v: bool, h: bool)
    requires c in w && w[c] != []
    requires Probe(w, Vertical(c)) == Some(v) && Probe(w, Horizontal(c)) == Some(h)
    ensures PrettyStep(w, c) == if w[c][0].kind == Empty || (!v && !h) then Some(w)
                                else Some(w[c := w[c][1..] + [Obj(Shape(v, h), map[])]])
  {
  }

  /** Reshaped, given which neighbours are built. */
  lemma ReshapedIs(world: Plan, c: Coord, v: bool, h: bool)
    requires c in world && world[c] != []
    requires v == (Built(world, (c.0, c.1 - 1)) || Built(world, (c.0, c.1 + 1)))
    requires h == (Built(world, (c.0 - 1, c.1)) || Built(world, (c.0 + 1, c.1)))
    ensures Reshaped(world, c) == if world[c][0].kind == Empty || (!v && !h) then world[c]
                                  else world[c][1..] + [Obj(Shape(v, h), map[])]
  {
  }

  lemma SimultaneousSingle(world: Plan, done: set<Coord>)
    requires Single(world)
    ensures Single(Simultaneous(world, done))
  {
  }

  /** Probing two neighbours of a map without empty cells: whether either is built. */
  lemma ProbePair(world: Plan, a: Coord, b: Coord)
    requires Single(world)
    ensures Probe(world, [a, b]) == Some(Built(world, a) || Built(world, b))
  {
    assert [a, b][1..] == [b];
    assert [b][1..] == [];
  }

  /** Hence for one-object cells the result does not depend on the order in
      which the dict yields its cells. */
  lemma PrettyOrderFree(world: Plan, order1: seq<Coord>, order2: seq<Coord>)
    requires Single(world) && Distinct(order1) && Distinct(order2)
    requires forall c :: c in world <==> c in order1
    requires forall c :: c in world <==> c in order2
    ensures Pretty(world, order1) == Pretty(world, order2) == Some(Simultaneous(world, world.Keys))
  {
    assert Elems(order1) == world.Keys == Elems(order2);
    PrettySimultaneous(world, order1);
    PrettySimultaneous(world, order2);
  }

  // ---- world_to_string ----

  /** `'\n'.join(rows)`. */
  function Join(rows: seq<string>): string
  {
    if rows == [] then ""
    else if |rows| == 1 then rows[0]
    else rows[0] + "\n" + Join(rows[1..])
  }

  /** Adding one more row adds a newline and that row at the end. */
  lemma {:induction false} JoinSnoc(rows: seq<string>, row: string)
    requires rows != []
    ensures Join(rows + [row]) == Join(rows) + "\n" + row
    decreases |rows|
  {
    if |rows| > 1 {
      assert (rows + [row])[1..] == rows[1..] + [row];
      JoinSnoc(rows[1..], row);
    }
  }

  /** The character of one cell: a space for a cell with no objects, else
      the display character of its last object's kind, '?' for a kind the
      table lacks. */
  function CellChar(objs: seq<Obj>, display: map<Kind, char>): char
  {
    if objs == [] then ' '
    else if objs[|objs| - 1].kind in display then display[objs[|objs| - 1].kind]
    else '?'
  }

  /** The state of the loop: the finished rows, the row being built and the
      y of the last cell seen. */
  datatype Rendering = Rendering(rows: seq<string>, row: string, lastY: Option<int>)

  /** The loop over the cells `coords`: a cell whose y exceeds the last one
      closes the current row. */
  function Render(coords: seq<Coord>, world: Plan, display: map<Kind, char>): Rendering
    requires forall k :: 0 <= k < |coords| ==> coords[k] in world
    decreases |coords|
  {
    if coords == [] then Rendering([], "", None)
    else
      var r := Render(coords[..|coords| - 1], world, display);
      var c := coords[|coords| - 1];
      var ch := CellChar(world[c], display);
      if r.lastY.Some? && c.1 > r.lastY.value then Rendering(r.rows + [r.row], [ch], Some(c.1))
      else Rendering(r.rows, r.row + [ch], Some(c.1))
  }

  /** The cell characters in the order of `coords`. */
  function Chars(coords: seq<Coord>, world: Plan, display: map<Kind, char>): (r: string)
    requires forall k :: 0 <= k < |coords| ==> coords[k] in world
    ensures |r| == |coords|
    ensures forall k :: 0 <= k < |coords| ==> r[k] == CellChar(world[coords[k]], display)
  {
    seq(|coords|, k requires 0 <= k < |coords| => CellChar(world[coords[k]], display))
  }

  function Flatten(rows: seq<string>): string
  {
    if rows == [] then "" else Flatten(rows[..|rows| - 1]) + rows[|rows| - 1]
  }

  /** The y values of the cells. */
  function Ys(coords: seq<Coord>): set<int>
  {
    set k | 0 <= k < |coords| :: coords[k].1
  }

  /** Nothing is lost: the finished rows and the current one hold every
      cell's character in order. */
  lemma {:induction false} RenderChars(coords: seq<Coord>, world: Plan, display: map<Kind, char>)
    requires forall k :: 0 <= k < |coords| ==> coords[k] in world
    ensures var r := Render(coords, world, display);
      Flatten(r.rows) + r.row == Chars(coords, world, display)
    decreases |coords|
  {
    if coords != [] {
      var prefix := coords[..|coords| - 1];
      var c := coords[|coords| - 1];
      CharsSnoc(coords, world, display);
      RenderChars(prefix, world, display);
      var p := Render(prefix, world, display);
      var r := Render(coords, world, display);
      if p.lastY.Some? && c.1 > p.lastY.value {
        assert r.rows[..|r.rows| - 1] == p.rows;
        assert Flatten(r.rows) == Flatten(p.rows) + p.row;
      }
    }
  }

  lemma CharsSnoc(coords: seq<Coord>, world: Plan, display: map<Kind, char>)
    requires coords != [] && forall k :: 0 <= k < |coords| ==> coords[k] in world
    ensures Chars(coords, world, display)
      == Chars(coords[..|coords| - 1], world, display) + [CellChar(world[coords[|coords| - 1]], display)]
  {
  }

  /** The current row is empty only before the first cell, no finished row
      is empty, and the last y seen is that of the last cell. */
  lemma {:induction false} RenderShape(coords: seq<Coord>, world: Plan, display: map<Kind, char>)
    requires forall k :: 0 <= k < |coords| ==> coords[k] in world
    ensures var r := Render(coords, world, display);
      (r.row == [] <==> coords == [])
      && (forall k :: 0 <= k < |r.rows| ==> r.rows[k] != [])
      && (r.lastY.Some? <==> coords != [])
      && (coords != [] ==> r.lastY.value == coords[|coords| - 1].1)
    decreases |coords|
  {
    if coords != [] {
      RenderShape(coords[..|coords| - 1], world, display);
    }
  }

  /** On row-major sorted cells there is one row, finished or current, per
      distinct y. */
  lemma {:induction false} RenderCount(coords: seq<Coord>, world: Plan, display: map<Kind, char>)
    requires forall k :: 0 <= k < |coords| ==> coords[k] in world
    requires coords != [] && RowMajorSorted(coords)
    ensures |Render(coords, world, display).rows| + 1 == |Ys(coords)|
    decreases |coords|
  {
    var prefix := coords[..|coords| - 1];
    YsSnoc(coords);
    if prefix == [] {
      assert Ys(coords) == {coords[0].1};
    } else {
      assert RowMajorSorted(prefix) by {
        forall i, j | 0 <= i < j < |prefix| ensures RowMajorBefore(prefix[i], prefix[j]) {
          assert prefix[i] == coords[i] && prefix[j] == coords[j];
        }
      }
      RenderCount(prefix, world, display);
      RenderShape(prefix, world, display);
    }
  }

  /** On row-major sorted cells the last cell brings a new y exactly when
      its y exceeds the one before. */
  lemma YsSnoc(coords: seq<Coord>)
    requires |coords| >= 1 && RowMajorSorted(coords)
    ensures var prefix := coords[..|coords| - 1];
      var c := coords[|coords| - 1];
      Ys(coords) == Ys(prefix) + {c.1}
      && (prefix != [] ==> (c.1 in Ys(prefix) <==> c.1 <= prefix[|prefix| - 1].1))
  {
    var prefix := coords[..|coords| - 1];
    var c := coords[|coords| - 1];
    assert forall k :: 0 <= k < |prefix| ==> prefix[k] == coords[k];
    if prefix != [] && c.1 <= prefix[|prefix| - 1].1 {
      assert RowMajorBefore(coords[|prefix| - 1], c);
      assert c.1 in Ys(prefix);
    }
  }

  /** world_to_string as written: the rows list never receives the last row. */
  function WorldToStringAsWritten(coords: seq<Coord>, world: Plan, display: map<Kind, char>): string
    requires forall k :: 0 <= k < |coords| ==> coords[k] in world
  {
    Join(Render(coords, world, display).rows)
  }

  /** The text with the last row appended before joining. */
  function WorldText(coords: seq<Coord>, world: Plan, display: map<Kind, char>): string
    requires forall k :: 0 <= k < |coords| ==> coords[k] in world
  {
    var r := Render(coords, world, display);
    Join(r.rows + [r.row])
  }

  /** The text as written lacks exactly the last row: the full text is the
      written one followed by a newline and that row (or that row alone). */
  lemma LastRowDropped(coords: seq<Coord>, world: Plan, display: map<Kind, char>)
    requires forall k :: 0 <= k < |coords| ==> coords[k] in world
    ensures var r := Render(coords, world, display);
      WorldText(coords, world, display) ==
        if r.rows == [] then r.row else WorldToStringAsWritten(coords, world, display) + "\n" + r.row
  {
    var r := Render(coords, world, display);
    if r.rows != [] {
      JoinSnoc(r.rows, r.row);
    }
  }

  /** A one-cell map prints as nothing at all. */
  lemma OneCellPrintsNothing()
    ensures WorldToStringAsWritten([(0, 0)], map[(0, 0) := [Blank]], map[Empty := '.']) == ""
    ensures WorldText([(0, 0)], map[(0, 0) := [Blank]], map[Empty := '.']) == "."
  {
    var world := map[(0, 0) := [Blank]];
    assert [(0, 0)][..0] == [];
    assert Render([(0, 0)], world, map[Empty := '.']) == Rendering([], ".", Some(0));
  }

  /** world_to_string with the last row appended: the keys in the order of
      `sorted(keys, key=itemgetter(1, 0))`, one text row per y. */
  method WorldToString(world: Plan, display: map<Kind, char>) returns (s: string, ghost coords: seq<Coord>)
    ensures RowMajorSorted(coords) && |coords| == |world| && forall c :: c in coords <==> c in world
    ensures s == WorldText(coords, world, display)
  {
    var rest := world.Keys;
    var keys: seq<Coord> := [];
    while rest != {}
      invariant rest <= world.Keys && |keys| + |rest| == |world.Keys|
      invariant forall c :: c in world ==> (c in keys <==> c !in rest)
      invariant forall c :: c in keys ==> c in world
    {
      var c :| c in rest;
      keys := keys + [c];
      rest := rest - {c};
    }
    var sorted := SortRowMajor(keys);
    assert forall c :: c in sorted <==> c in keys by {
      forall c ensures c in sorted <==> c in keys {
        assert c in sorted <==> c in multiset(sorted);
        assert c in keys <==> c in multiset(keys);
      }
    }
    coords := sorted;
    var rows, row := RenderLoop(sorted, world, display);
    s := Join(rows + [row]);
  }

  /** The loop of world_to_string over the sorted cells. */
  method RenderLoop(coords: seq<Coord>, world: Plan, display: map<Kind, char>) returns (rows: seq<string>, row: string)
    requires forall k :: 0 <= k < |coords| ==> coords[k] in world
    ensures rows == Render(coords, world, display).rows && row == Render(coords, world, display).row
  {
    rows, row := [], "";
    var lastY: Option<int> := None;
    var i := 0;
    while i < |coords|
      invariant 0 <= i <= |coords|
      invariant Render(coords[..i], world, display) == Rendering(rows, row, lastY)
    {
      assert coords[..i + 1][..i] == coords[..i];
      var c := coords[i];
      if lastY.Some? && c.1 > lastY.value {
        rows := rows + [row];
        row := "";
      }
      lastY := Some(c.1);
      row := row + [CellChar(world[c], display)];
      i := i + 1;
    }
    assert coords[..i] == coords;
  }

  // ---- the generator registry ----

  /** The names the `@generator` decorator registers. */
  const Generators: set<string> := {"purerandom", "empty", "ca_maze", "ca_caves", "depth_first", "dungeon_alpha"}

  /** What a generator returns: a map, or a level (dungeon_alpha). */
  datatype Generated = Plain(world: Plan) | Leveled(level: map<Coord3, seq<LEntity>>)

  /** `generators[name](seed=...)` with the default sizes (80 by 24, and 69
      by 16 for dungeon_alpha). An unknown name raises KeyError; the two
      cellular-automaton generators end in a call to a helper that
      src/whiteshoe/utility.py does not define. Both give None. */
  method Generate(name: string, random: int -> real, rooms: seq<Room>, next: int) returns (r: Option<Generated>)
    requires name == "dungeon_alpha" ==> |rooms| == NumRooms && forall k :: 0 <= k < |rooms| ==> Drawable(rooms[k], 69, 16)
    ensures r.Some? <==> name in Generators - {"ca_maze", "ca_caves"}
    ensures r.Some? && name != "dungeon_alpha" ==> r.value.Plain? && forall c :: c in r.value.world <==> InRect(c, 80, 24)
    ensures r.Some? && name == "empty" ==> forall c :: c in r.value.world ==> r.value.world[c] == [Blank]
    ensures r.Some? && name == "dungeon_alpha" ==>
      (r.value.Leveled? && forall c3 :: c3 in r.value.level <==> c3.2 == 0 && (InRect((c3.0, c3.1), 69, 16) || Floored((c3.0, c3.1), rooms)))
  {
    if name == "purerandom" {
      var world := PureRandom(80, 24, random);
      r := Some(Plain(world));
    } else if name == "empty" {
      var world := EmptyMap(80, 24);
      r := Some(Plain(world));
    } else if name == "depth_first" {
      var world, removed, initial, parent := DepthFirst(80, 24);
      r := Some(Plain(world.value));
    } else if name == "dungeon_alpha" {
      var level, order := DungeonAlpha(69, 16, rooms, next);
      r := Some(Leveled(level));
    } else {
      r := None;
    }
  }
}
