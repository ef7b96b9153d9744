/** window.py: a stand-alone toy client whose `FakeNetwork` keeps an 80 x 24
    world of walls and empty floor, with player 0 standing in the top left
    cell, and moves that player one step per command. The curses scene that
    draws the world and reads keys is not part of this model. */
module Window {
  import opened Wrappers
  import opened Grid

  datatype Kind = Wall | PlayerObj | EmptyObj
  /** An object of the toy world: its kind and its attribute dict. */
  datatype Thing = Thing(kind: Kind, attrs: map<string, int>)

  type Cell = seq<Thing>

  const Width := 80
  const Height := 24

  const Player0 := Thing(PlayerObj, map["number" := 0])

  /** `diffs[command]`: the step of each of the four commands; None for the
      KeyError any other command raises. */
  function Diff(command: string): (r: Option<Coord>)
    ensures r.Some? ==> Manhattan(r.value, (0, 0)) == 1
  {
    if command == "up" then Some((0, -1))
    else if command == "down" then Some((0, 1))
    else if command == "left" then Some((-1, 0))
    else if command == "right" then Some((1, 0))
    else None
  }

  /** The keys of the world in the order `itertools.product(range(80),
      range(24))` inserts them: column by column. */
  function Layout(): seq<Coord>
  {
    Columns(0, Width, 0, Height)
  }

  predicate OnScreen(c: Coord)
  {
    0 <= c.0 < Width && 0 <= c.1 < Height
  }

  /** Where the search of `send_command` stops. */
  datatype Search = Found(at: Coord, player: Thing) | Missing | Raised

  /** The search of `send_command` over `cells` (in dict order): the first
      player object whose `number` is 0, looking at each cell's objects in
      turn; it raises on a player object with no `number`. */
  function Locate(world: map<Coord, Cell>, cells: seq<Coord>): Search
    decreases |cells|
  {
    if cells == [] then Missing
    else
      var here := if cells[0] in world then LocateIn(world[cells[0]]) else Missing;
      match here
      case Missing => Locate(world, cells[1..])
      case Raised => Raised
      case Found(_, p) => Found(cells[0], p)
  }

  /** The search inside one cell (the coordinate is filled in by Locate). */
  function LocateIn(objects: Cell): (r: Search)
    ensures r.Found? ==> r.player in objects && IsPlayer0(r.player)
    decreases |objects|
  {
    if objects == [] then Missing
    else if objects[0].kind != PlayerObj then LocateIn(objects[1..])
    else if "number" !in objects[0].attrs then Raised
    else if objects[0].attrs["number"] == 0 then Found((0, 0), objects[0])
    else LocateIn(objects[1..])
  }

  lemma {:induction false} LocateFinds(world: map<Coord, Cell>, cells: seq<Coord>)
    ensures Locate(world, cells).Found? ==>
      var f := Locate(world, cells);
      f.at in cells && f.at in world && f.player in world[f.at] && IsPlayer0(f.player)
    decreases |cells|
  {
    if cells != [] {
      LocateFinds(world, cells[1..]);
    }
  }

  /** The object `send_command` looks for. */
  predicate IsPlayer0(t: Thing)
  {
    t.kind == PlayerObj && "number" in t.attrs && t.attrs["number"] == 0
  }

  /** How many objects of a cell are player 0. */
  function CountIn(objects: Cell): nat
  {
    if objects == [] then 0
    else (if IsPlayer0(objects[0]) then 1 else 0) + CountIn(objects[1..])
  }

  lemma {:induction false} CountInAppend(objects: Cell, x: Thing)
    ensures CountIn(objects + [x]) == CountIn(objects) + (if IsPlayer0(x) then 1 else 0)
  {
    if objects != [] {
      CountInAppend(objects[1..], x);
      assert (objects + [x])[1..] == objects[1..] + [x];
    }
  }

  lemma {:induction false} CountInRemove(objects: Cell, x: Thing)
    requires x in objects
    ensures CountIn(objects) == CountIn(RemoveFirst(objects, x)) + (if IsPlayer0(x) then 1 else 0)
  {
    if objects[0] != x {
      CountInRemove(objects[1..], x);
      var rest := RemoveFirst(objects[1..], x);
      assert RemoveFirst(objects, x) == [objects[0]] + rest;
      assert ([objects[0]] + rest)[1..] == rest;
    }
  }

  /** How many objects of the cells `cells` are player 0. */
  function CountAll(world: map<Coord, Cell>, cells: seq<Coord>): nat
  {
    if cells == [] then 0
    else (if cells[0] in world then CountIn(world[cells[0]]) else 0) + CountAll(world, cells[1..])
  }

  /** Replacing one cell changes the count by that cell's difference. */
  lemma {:induction false} CountAllUpdate(world: map<Coord, Cell>, cells: seq<Coord>, c: Coord, cell: Cell)
    requires Distinct(cells) && c in world
    ensures CountAll(world[c := cell], cells) + (if c in cells then CountIn(world[c]) else 0)
         == CountAll(world, cells) + (if c in cells then CountIn(cell) else 0)
  {
    if cells != [] {
      assert Distinct(cells[1..]);
      assert c in cells <==> c == cells[0] || c in cells[1..];
      assert c == cells[0] ==> c !in cells[1..];
      CountAllUpdate(world, cells[1..], c, cell);
    }
  }

  /** A world whose only player-0 objects are in the cell `c`. */
  lemma {:induction false} CountAllSingle(world: map<Coord, Cell>, cells: seq<Coord>, c: Coord)
    requires Distinct(cells) && forall d :: d in cells && d in world && d != c ==> CountIn(world[d]) == 0
    ensures CountAll(world, cells) == if c in cells && c in world then CountIn(world[c]) else 0
  {
    if cells != [] {
      assert Distinct(cells[1..]);
      assert c == cells[0] ==> c !in cells[1..];
      CountAllSingle(world, cells[1..], c);
    }
  }

  // ---- FakeNetwork ----

  /** A one-object cell of floor or wall. */
  function Ground(wall: bool): Cell
  {
    [Thing(if wall then Wall else EmptyObj, map[])]
  }

  /** The insertion order lists every cell of the screen once, so it is one
      order the constructor accepts. */
  lemma LayoutCovers()
    ensures Distinct(Layout()) && forall c :: c in Layout() <==> OnScreen(c)
  {
    ColumnsMembers(0, Width, 0, Height);
  }

  /** The world `__init__` builds, `wallAt` standing for the seeded draws
      `r.random() < 0.35`: every cell of the screen holds a wall or empty
      floor, and (0, 0) holds empty floor with player 0 on it. */
  function InitialWorld(wallAt: Coord -> bool): map<Coord, Cell>
  {
    map i, j | 0 <= i < Width && 0 <= j < Height ::
      (i, j) := if (i, j) == (0, 0) then [Thing(EmptyObj, map[]), Player0] else Ground(wallAt((i, j)))
  }

  lemma InitialWorldAt(wallAt: Coord -> bool)
    ensures forall c :: c in InitialWorld(wallAt) <==> OnScreen(c)
    ensures forall c :: c in InitialWorld(wallAt) ==>
      InitialWorld(wallAt)[c] == if c == (0, 0) then [Thing(EmptyObj, map[]), Player0] else Ground(wallAt(c))
  {
    var w := InitialWorld(wallAt);
    forall c ensures c in w <==> OnScreen(c) {
      if OnScreen(c) {
        assert c == (c.0, c.1);
      }
    }
  }

  /** Floor and wall are not player 0. */
  lemma GroundCountsNothing(wall: bool)
    ensures CountIn(Ground(wall)) == 0
  {
    assert Ground(wall)[1..] == [];
  }

  /** The initial world covers exactly the 80 x 24 screen and holds exactly
      one player 0, standing on empty floor in (0, 0). */
  lemma InitialWorldShape(wallAt: Coord -> bool, cells: seq<Coord>)
    requires Distinct(cells) && forall c :: c in cells <==> OnScreen(c)
    ensures forall c :: c in InitialWorld(wallAt) <==> OnScreen(c)
    ensures (0, 0) in InitialWorld(wallAt) && InitialWorld(wallAt)[(0, 0)] == [Thing(EmptyObj, map[]), Player0]
    ensures CountAll(InitialWorld(wallAt), cells) == 1
  {
    var w := InitialWorld(wallAt);
    InitialWorldAt(wallAt);
    forall d | d in cells && d in w && d != (0, 0)
      ensures CountIn(w[d]) == 0
    {
      GroundCountsNothing(wallAt(d));
    }
    CountAllSingle(w, cells, (0, 0));
    assert CountIn(w[(0, 0)]) == 1 by {
      assert w[(0, 0)][1..] == [Player0];
      assert w[(0, 0)][1..][1..] == [];
    }
  }

  /** The world after `send_command` found `p` in `at`: `p` is removed from
      `at` and appended to `to` when `to` is a key of the world, whatever it
      holds, and otherwise appended to `at` again. */
  function Moved(world: map<Coord, Cell>, at: Coord, p: Thing, to: Coord): map<Coord, Cell>
    requires at in world
  {
    var rest := world[at := RemoveFirst(world[at], p)];
    if to in rest then rest[to := rest[to] + [p]] else rest[at := rest[at] + [p]]
  }

  /** A move changes only the old cell and the target, and leaves the
      mover last in the target when it is on the map (walls are not
      checked), or last in its old cell when it is not. */
  lemma MovedFrame(world: map<Coord, Cell>, at: Coord, p: Thing, to: Coord)
    requires at in world && to != at
    ensures Moved(world, at, p, to).Keys == world.Keys
    ensures forall c :: c in world && c != at && c != to ==> Moved(world, at, p, to)[c] == world[c]
    ensures to in world ==> Moved(world, at, p, to)[to] == world[to] + [p]
                            && Moved(world, at, p, to)[at] == RemoveFirst(world[at], p)
    ensures to !in world ==> Moved(world, at, p, to)[at] == RemoveFirst(world[at], p) + [p]
  {
  }

  /** A move neither creates nor loses player 0: with exactly one before,
      exactly one remains. */
  lemma MovedCount(world: map<Coord, Cell>, cells: seq<Coord>, at: Coord, p: Thing, to: Coord)
    requires Distinct(cells) && world.Keys == Elems(cells)
    requires at in world && p in world[at]
    ensures CountAll(Moved(world, at, p, to), cells) == CountAll(world, cells)
  {
    var rest := world[at := RemoveFirst(world[at], p)];
    CountInRemove(world[at], p);
    CountAllUpdate(world, cells, at, RemoveFirst(world[at], p));
    assert at in cells;
    if to in rest {
      CountInAppend(rest[to], p);
      CountAllUpdate(rest, cells, to, rest[to] + [p]);
      assert to in cells;
    } else {
      CountInAppend(rest[at], p);
      CountAllUpdate(rest, cells, at, rest[at] + [p]);
    }
  }

  /** `FakeNetwork`: the toy world and its dict iteration order. */
  class FakeNetwork {
    const order: seq<Coord>
    var world: map<Coord, Cell>

    predicate Valid()
      reads this
    {
      Distinct(order) && world.Keys == Elems(order)
    }

    /** `__init__`, `wallAt` standing for the seeded random draws and
        `keyOrder` for the order in which the dict yields the screen's cells
        (a Python 2 dict yields its keys in hash order, which need not be the
        insertion order `Layout()`; any listing of the screen's cells will do). */
    constructor (wallAt: Coord -> bool, keyOrder: seq<Coord>)
      requires Distinct(keyOrder) && forall c :: c in keyOrder <==> OnScreen(c)
      ensures Valid() && order == keyOrder && world == InitialWorld(wallAt)
    {
      var start := Start(wallAt);
      InitialWorldAt(wallAt);
      order := keyOrder;
      world := start;
    }

    /** The world the constructor builds: the screen, then player 0 in (0, 0). */
    static method Start(wallAt: Coord -> bool) returns (start: map<Coord, Cell>)
      ensures start == InitialWorld(wallAt)
    {
      var w := Screen(wallAt);
      start := w[(0, 0) := [Thing(EmptyObj, map[]), Player0]];
      InitialWorldAt(wallAt);
      assert forall c :: c in start ==> start[c] == InitialWorld(wallAt)[c];
    }

    /** The nested loops of `__init__` over `itertools.product(range(80), range(24))`. */
    static method Screen(wallAt: Coord -> bool) returns (w: map<Coord, Cell>)
      ensures forall c :: c in w <==> OnScreen(c)
      ensures forall c :: c in w ==> w[c] == Ground(wallAt(c))
    {
      w := map[];
      var i := 0;
      while i < Width
        invariant 0 <= i <= Width
        invariant forall c :: c in w <==> 0 <= c.0 < i && 0 <= c.1 < Height
        invariant forall c :: c in w ==> w[c] == Ground(wallAt(c))
      {
        var j := 0;
        while j < Height
          invariant 0 <= j <= Height
          invariant forall c :: c in w <==> (0 <= c.0 < i && 0 <= c.1 < Height) || (c.0 == i && 0 <= c.1 < j)
          invariant forall c :: c in w ==> w[c] == Ground(wallAt(c))
        {
          w := w[(i, j) := Ground(wallAt((i, j)))];
          j := j + 1;
        }
        i := i + 1;
      }
    }

    /** The search loop of `send_command`: the first player-0 object in dict
        order, cell by cell and object by object. */
    method Find() returns (f: Search)
      requires Valid()
      ensures f == Locate(world, order)
    {
      f := Missing;
      var i := 0;
      while i < |order| && f.Missing?
        invariant 0 <= i <= |order|
        invariant f.Missing? ==> Locate(world, order) == Locate(world, order[i..])
        invariant !f.Missing? ==> f == Locate(world, order)
      {
        var c := order[i];
        var here := FindIn(world[c]);
        assert order[i..][1..] == order[i + 1..];
        if here.Found? {
          f := Found(c, here.player);
        } else {
          f := here;
        }
        i := i + 1;
      }
    }

    /** The inner loop: the first player-0 object of one cell. */
    static method FindIn(objects: Cell) returns (f: Search)
      ensures f == LocateIn(objects)
    {
      f := Missing;
      var k := 0;
      while k < |objects| && f.Missing?
        invariant 0 <= k <= |objects|
        invariant f.Missing? ==> LocateIn(objects) == LocateIn(objects[k..])
        invariant !f.Missing? ==> f == LocateIn(objects)
      {
        var t := objects[k];
        assert objects[k..][1..] == objects[k + 1..];
        if t.kind == PlayerObj {
          if "number" !in t.attrs {
            f := Raised;
          } else if t.attrs["number"] == 0 {
            f := Found((0, 0), t);
          }
        }
        k := k + 1;
      }
    }

    /** `send_command(command)`: the player is found, taken out of its cell
        and put in the neighbouring cell the command points to (see Moved).
        The search raises when no player 0 is found; a command that is not
        one of the four raises once the player has been taken out. False
        where the source raises. */
    method SendCommand(command: string) returns (ok: bool)
      requires Valid()
      modifies this
      ensures Valid()
      ensures ok <==> Locate(old(world), order).Found? && Diff(command).Some?
      ensures !Locate(old(world), order).Found? ==> world == old(world)
      ensures Locate(old(world), order).Found? ==>
        var f := Locate(old(world), order);
        f.at in old(world)
        && match Diff(command)
           case None => world == old(world)[f.at := RemoveFirst(old(world)[f.at], f.player)]
           case Some(d) => world == Moved(old(world), f.at, f.player, (f.at.0 + d.0, f.at.1 + d.1))
      ensures ok ==> CountAll(world, order) == CountAll(old(world), order)
    {
      var f := Find();
      LocateFinds(world, order);
      ok := f.Found?;
      if ok {
        var at, p := f.at, f.player;
        var rest := world[at := RemoveFirst(world[at], p)];
        var diff := Diff(command);
        ok := diff.Some?;
        if ok {
          var to := (at.0 + diff.value.0, at.1 + diff.value.1);
          MovedCount(world, order, at, p, to);
          if to in rest {
            rest := rest[to := rest[to] + [p]];
          } else {
            rest := rest[at := rest[at] + [p]];
          }
        }
        world := rest;
      }
    }
  }
}
