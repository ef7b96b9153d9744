/** The older game object of src/whiteshoe/server.py, `Game`: the world of
    cell lists, the joined players, the world each of them remembers, and the
    operations that change them (moves, the bullet and explosion ticks, the
    refresh of every player's vision). Python exceptions are an `ok == false`
    outcome; randomness is a nondeterministic choice; time is integer
    milliseconds. */
module Server {
  import opened Wrappers
  import opened Constants
  import opened Grid
  import opened Entities
  import opened Wire
  import opened GameRules
  import GameEngine
  import ServerView

  // ---- the state ----

  /** The attributes of a `Game` that its methods update; `nextOid` numbers
      the objects the methods create, `lastTick` is `last_tick`. */
  datatype ServerState = ServerState(
    world: World,
    players: seq<int>,
    knownWorlds: map<int, Known>,
    nextOid: nat,
    lastTick: Option<int>)

  /** The shape every state keeps: the world's cells never change, each
      joined player appears once and has a remembered world. */
  predicate Consistent(s: ServerState, cells: set<Coord>)
  {
    s.world.Keys == cells && Distinct(s.players) && forall p :: p in s.players ==> p in s.knownWorlds
  }

  // ---- _find_player ----

  /** The search of `_find_player(pid)` through the listed players: the first
      whose `number` is `pid`. A player listed before it without a `number`
      makes the lookup raise KeyError (NoPlayerId). */
  function FindNumber(found: seq<(Coord, Entity)>, pid: int): (r: Find)
    ensures r.Found? ==> (r.coord, r.player) in found && Get(r.player.obj.attrs, "number") == Some(IntV(pid))
    ensures r.NotFound? ==> forall k :: 0 <= k < |found| ==>
      "number" in found[k].1.obj.attrs && found[k].1.obj.attrs["number"] != IntV(pid)
    decreases |found|
  {
    if found == [] then NotFound
    else if "number" !in found[0].1.obj.attrs then NoPlayerId
    else if found[0].1.obj.attrs["number"] == IntV(pid) then Found(found[0].0, found[0].1)
    else FindNumber(found[1..], pid)
  }

  /** `_find_player(pid)` on a world iterated in `order`. */
  function FindNumbered(world: World, order: seq<Coord>, pid: int): Find
  {
    FindNumber(Matches(world, order, {Player}), pid)
  }

  /** A player that is found is a player entity of its cell, so removing it
      succeeds. */
  lemma NumberedInWorld(world: World, order: seq<Coord>, pid: int)
    ensures var f := FindNumbered(world, order, pid);
      f.Found? ==> f.coord in world && f.player in world[f.coord] && f.player.obj.kind == Player
                   && Remove(world[f.coord], f.player.obj).Some?
  {
    var f := FindNumbered(world, order, pid);
    if f.Found? {
      MatchesMembers(world, order, {Player}, (f.coord, f.player));
      var j :| 0 <= j < |world[f.coord]| && world[f.coord][j] == f.player;
      assert world[f.coord][j].obj == f.player.obj;
    }
  }

  /** The world after the removal half of `_remove_player(pid)`. */
  function WithoutNumbered(world: World, order: seq<Coord>, pid: int): (r: World)
    ensures r.Keys == world.Keys
  {
    var f := FindNumbered(world, order, pid);
    if f.Found? && f.coord in world && Remove(world[f.coord], f.player.obj).Some?
    then world[f.coord := Remove(world[f.coord], f.player.obj).value]
    else world
  }

  // ---- _determine_can_see ----

  /** `VISION_FUNCTIONS[vision](world, coord, direction)`: None where the name
      is not registered (the constructor's default, 'basic', is not) or where
      the cone is given a facing that is not a cardinal direction. */
  ghost function CanSee(world: World, vision: string, coord: Coord, direction: Val): Option<Known>
  {
    if vision == "square" then Some(ServerView.SquareSeen(world, coord))
    else if vision == "all" then Some(ServerView.AllSeen(world))
    else if vision == "cone" then
      if direction.ConstV? && direction.c.DirC? && IsCardinal(direction.c.dir)
      then Some(ServerView.Seen(world, ServerView.ConeCells(world, coord, direction.c.dir)))
      else None
    else None
  }

  /** What a joined player sees: nothing to do when it is not in the world,
      an exception (Blind) where its lookup, its facing or its vision
      function raises. */
  datatype Sight = Absent | Blind | Sees(view: Known)

  ghost function SightOf(world: World, order: seq<Coord>, vision: string, pid: int): Sight
  {
    match FindNumbered(world, order, pid)
    case NotFound => Absent
    case NoPlayerId => Blind
    case Found(c, e) =>
      if "direction" !in e.obj.attrs then Blind
      else
        match CanSee(world, vision, c, e.obj.attrs["direction"])
        case None => Blind
        case Some(v) => Sees(v)
  }

  // ---- _mark_dirty ----

  /** The remembered worlds after `_mark_dirty` has visited the players `ps`
      in order: each player in the world merges its current view into the
      world it remembers (see ServerView.Remembered). */
  ghost function RefreshedFor(s: ServerState, order: seq<Coord>, vision: string, ps: seq<int>): map<int, Known>
    decreases |ps|
  {
    if ps == [] then s.knownWorlds
    else
      var m := RefreshedFor(s, order, vision, ps[..|ps| - 1]);
      var p := ps[|ps| - 1];
      match SightOf(s.world, order, vision, p)
      case Sees(v) => if p in m then m[p := ServerView.Remembered(m[p], v)] else m
      case _ => m
  }

  /** The state after a `_mark_dirty` that does not raise. */
  ghost function Refresh(s: ServerState, order: seq<Coord>, vision: string): ServerState
  {
    s.(knownWorlds := RefreshedFor(s, order, vision, s.players))
  }

  /** Over distinct players each remembered world is refreshed once: a
      listed player in the world now remembers its view merged into what it
      remembered; every other remembered world is left as it was. */
  lemma {:induction false} RefreshedOnce(s: ServerState, order: seq<Coord>, vision: string, ps: seq<int>, p: int)
    requires Distinct(ps)
    ensures RefreshedFor(s, order, vision, ps).Keys == s.knownWorlds.Keys
    ensures p in s.knownWorlds ==>
      RefreshedFor(s, order, vision, ps)[p] ==
        if p in ps && SightOf(s.world, order, vision, p).Sees?
        then ServerView.Remembered(s.knownWorlds[p], SightOf(s.world, order, vision, p).view)
        else s.knownWorlds[p]
    decreases |ps|
  {
    if ps != [] {
      var init := ps[..|ps| - 1];
      var last := ps[|ps| - 1];
      assert Distinct(init);
      RefreshedOnce(s, order, vision, init, p);
      RefreshedOnce(s, order, vision, init, last);
      assert last !in init by {
        forall k | 0 <= k < |init| ensures init[k] != last {
          assert init[k] == ps[k];
        }
      }
      assert p in ps <==> p in init || p == last;
    }
  }

  /** The turn of `_mark_dirty` for the joined player `p`, who remembers
      `known`, does not raise: the player is not on the map, or it sees, and
      every cell its view changed can be packed from the merged memory. */
  ghost predicate RefreshesOne(world: World, order: seq<Coord>, vision: string, known: Known, p: int)
  {
    match SightOf(world, order, vision, p)
    case Absent => true
    case Blind => false
    case Sees(v) => ServerView.Packable(world, ServerView.Remembered(known, v), ServerView.Reported(known, v))
  }

  /** `_mark_dirty` does not raise on `s`: every joined player's turn
      succeeds. Each turn only reads its own player's memory, so the order of
      the turns does not matter. */
  ghost predicate RefreshOk(s: ServerState, order: seq<Coord>, vision: string)
  {
    forall p :: p in s.players ==> p in s.knownWorlds && RefreshesOne(s.world, order, vision, s.knownWorlds[p], p)
  }

  /** While `_mark_dirty` visits distinct players in order, the player
      whose turn comes next still remembers what it remembered at the start. */
  lemma UnvisitedUnchanged(s: ServerState, order: seq<Coord>, vision: string, players: seq<int>, i: nat)
    requires Distinct(players) && i < |players| && players[i] in s.knownWorlds
    ensures players[i] in RefreshedFor(s, order, vision, players[..i])
    ensures RefreshedFor(s, order, vision, players[..i])[players[i]] == s.knownWorlds[players[i]]
  {
    assert Distinct(players[..i]);
    assert players[i] !in players[..i] by {
      forall k | 0 <= k < i ensures players[..i][k] != players[i] {
        assert players[..i][k] == players[k];
      }
    }
    RefreshedOnce(s, order, vision, players[..i], players[i]);
  }

  lemma RefreshConsistent(s: ServerState, cells: set<Coord>, order: seq<Coord>, vision: string)
    requires Consistent(s, cells)
    ensures Consistent(Refresh(s, order, vision), cells)
  {
    RefreshedOnce(s, order, vision, s.players, 0);
  }

  // ---- _send_player_vision ----

  /** The packets `_send_player_vision(pid, coords)` sends, addressed to the
      player (the last packet included, see ServerView.VisionPackets). None
      where it raises: the player has no remembered world, or a cell of the
      world is not remembered or cannot be packed. */
  function VisionOut(s: ServerState, size: Packet -> nat, gameId: int, pid: int, coords: seq<Coord>): Option<seq<Out>>
  {
    if pid !in s.knownWorlds then None
    else
      match ServerView.VisionPackets(size, s.world, s.knownWorlds[pid], coords, gameId)
      case None => None
      case Some(ps) => Some(GameEngine.Addressed(pid, ps))
  }

  // ---- _move ----

  /** How `_move` ends: KeyError before anything changed (the player is not
      in its cell), KeyError after the player has left its cell (an argument
      that is not a direction), a blocked move, or a step to `to`. */
  datatype MoveStep = Raises | Dropped(world: World) | Blocked(world: World) | Stepped(world: World, to: Coord)

  /** `_move(player, loc, arg)` on the world: the player leaves its cell; a
      target off the world or holding something solid puts it back at the end
      of its cell, otherwise it is appended to the target. */
  function Moving(world: World, loc: Coord, player: Entity, arg: Const): MoveStep
    requires loc in world
  {
    match Remove(world[loc], player.obj)
    case None => Raises
    case Some(rest) =>
      var w := world[loc := rest];
      if !arg.DirC? then Dropped(w)
      else
        var to := Step(loc, arg.dir);
        if to !in w || Solid(w[to]) then Blocked(w[loc := rest + [player]])
        else Stepped(w[to := w[to] + [player]], to)
  }

  /** Taking an object out of a cell and putting it back at the end keeps
      the cell's objects. */
  lemma RemoveAppendKeeps(cell: Cell, player: Entity)
    requires Remove(cell, player.obj).Some?
    ensures multiset(Objs(Remove(cell, player.obj).value + [player])) == multiset(Objs(cell))
  {
    var rest := Remove(cell, player.obj).value;
    var i :| 0 <= i < |cell| && cell[i].obj == player.obj && rest == cell[..i] + cell[i + 1..];
    SplitKeeps(cell, i, cell[..i], cell[i + 1..], player);
  }

  /** A cell split around position i: the parts and the player, whose object
      is the one at i, hold the cell's objects. */
  lemma SplitKeeps(cell: Cell, i: nat, x: Cell, y: Cell, player: Entity)
    requires i < |cell| && x == cell[..i] && y == cell[i + 1..] && cell[i].obj == player.obj
    ensures multiset(Objs((x + y) + [player])) == multiset(Objs(cell))
  {
    assert cell == (x + [cell[i]]) + y;
    BagOfSplit(x, cell[i], y);
    BagOfSnoc(x, y, player);
  }

  /** The objects of a cell around one entity, counted as a multiset. */
  lemma BagOfSplit(x: Cell, c: Entity, y: Cell)
    ensures multiset(Objs((x + [c]) + y)) == multiset(Objs(x)) + multiset{c.obj} + multiset(Objs(y))
  {
    ObjsConcat(x + [c], y);
    ObjsConcat(x, [c]);
    assert Objs([c]) == [c.obj];
  }

  /** The objects of two cells and one more entity, counted as a multiset. */
  lemma BagOfSnoc(x: Cell, y: Cell, p: Entity)
    ensures multiset(Objs((x + y) + [p])) == multiset(Objs(x)) + multiset(Objs(y)) + multiset{p.obj}
  {
    ObjsConcat(x + y, [p]);
    ObjsConcat(x, y);
    assert Objs([p]) == [p.obj];
  }

  lemma ObjsConcat(a: Cell, b: Cell)
    ensures Objs(a + b) == Objs(a) + Objs(b)
  {
  }

  /** A blocked move changes nothing but the order of the player's cell: the
      cell holds the same objects, the moving player now last, and every
      other cell is as it was; the target was off the world or solid. */
  lemma BlockedKeepsCells(world: World, loc: Coord, player: Entity, arg: Const)
    requires loc in world && Moving(world, loc, player, arg).Blocked?
    ensures var w := Moving(world, loc, player, arg).world;
      w.Keys == world.Keys
      && (forall c :: c in world && c != loc ==> w[c] == world[c])
      && multiset(Objs(w[loc])) == multiset(Objs(world[loc]))
      && |w[loc]| > 0 && w[loc][|w[loc]| - 1] == player
      && arg.DirC? && (Step(loc, arg.dir) !in world || Solid(world[Step(loc, arg.dir)]))
  {
    var rest := Remove(world[loc], player.obj).value;
    RemoveAppendKeeps(world[loc], player);
    StepAway(loc, arg.dir);
    assert Moving(world, loc, player, arg).world == world[loc := rest + [player]];
  }

  /** A step goes to a neighbouring cell of the world that held nothing
      solid; the player is appended there, its old cell loses one copy of it,
      and every other cell is as it was. */
  lemma SteppedOneCell(world: World, loc: Coord, player: Entity, arg: Const)
    requires loc in world && Moving(world, loc, player, arg).Stepped?
    ensures var m := Moving(world, loc, player, arg);
      m.world.Keys == world.Keys && arg.DirC? && m.to == Step(loc, arg.dir)
      && Chebyshev(loc, m.to) == 1 && m.to in world && !Solid(world[m.to])
      && m.world[m.to] == world[m.to] + [player]
      && Some(m.world[loc]) == Remove(world[loc], player.obj)
      && (forall c :: c in world && c != loc && c != m.to ==> m.world[c] == world[c])
  {
    StepAway(loc, arg.dir);
  }

  // ---- _tick_bullets ----

  /** The explosion a bullet of that size leaves: `{'_damage': size**2}`. */
  function ServerExplosion(size: int): Obj
  {
    Obj(Explosion, map["_damage" := IntV(size * size)])
  }

  /** What a tick leaves behind: the world, the cells it marked dirty, and
      the next identity for a new object. */
  datatype Ticked = Ticked(world: World, dirty: set<Coord>, next: nat)

  /** The end of a bullet's hop, once it has left its cell `coord` (the world
      `w`) for `next`: off the world it is gone; a cell holding something
      solid gets no bullet but an explosion of damage size² on every cell of
      the world within distance size-1 of it (each dirty); any other cell
      gets the bullet at its end (dirty). */
  function Hop(w: World, coord: Coord, next: Coord, bullet: Entity, size: int, base: nat): (r: Ticked)
    ensures r.world.Keys == w.Keys
  {
    if next !in w then Ticked(w, {coord}, base)
    else if Solid(w[next]) then
      var hood := NeighbourhoodSeq(next, size - 1);
      Ticked(GameEngine.Blast(w, hood, ServerExplosion(size), base),
             {coord} + GameEngine.BlastArea(w, next, size), base + |hood|)
    else Ticked(w[next := w[next] + [bullet]], {coord, next}, base)
  }

  /** What one tick decides for a bullet: it waits, its timer now `t`, or
      it leaves its cell, its timer now `t`. */
  datatype Fate = Waits(t: int) | Leaves(t: int, size: int)

  /** The timer of one bullet of `_tick_bullets(ms)`: its size sets its
      speed (BULLET_SPEEDS); its timer, starting at the speed, loses the
      elapsed time. While it stays at zero or above the bullet waits; once it
      falls below zero the bullet leaves with one speed added to its timer.
      None where the source raises. */
  function BulletFate(e: Entity, ms: int): (r: Option<Fate>)
    ensures r.Some? <==> (IntAttr(e.obj.attrs, "size").Some? && GameEngine.BulletSpeed(e.obj).Some?
                          && GameEngine.StartTime(e.obj, GameEngine.BulletSpeed(e.obj).value, ms).Some?)
    ensures r.Some? ==>
      var speed := GameEngine.BulletSpeed(e.obj).value;
      var t0 := GameEngine.StartTime(e.obj, speed, ms).value;
      if t0 >= 0 then r.value == Waits(t0)
      else r.value == Leaves(t0 + speed, IntAttr(e.obj.attrs, "size").value)
  {
    match IntAttr(e.obj.attrs, "size")
    case None => None
    case Some(size) =>
      match GameEngine.BulletSpeed(e.obj)
      case None => None
      case Some(speed) =>
        match GameEngine.StartTime(e.obj, speed, ms)
        case None => None
        case Some(t) => if t >= 0 then Some(Waits(t)) else Some(Leaves(t + speed, size))
  }

  /** One bullet of `_tick_bullets(ms)`, the bullet `e` listed in `coord`:
      a waiting bullet only keeps its new timer; a leaving one leaves its
      cell (see Leave). None where the source raises. */
  function Flight(world: World, coord: Coord, e: Entity, ms: int, base: nat): (r: Option<Ticked>)
    requires coord in world
    ensures r.Some? ==> BulletFate(e, ms).Some? && r.value.world.Keys == world.Keys
    ensures BulletFate(e, ms).Some? && BulletFate(e, ms).value.Waits? ==> r.Some? && r.value.dirty == {}
  {
    match BulletFate(e, ms)
    case None => None
    case Some(Waits(t)) => Some(Ticked(GameEngine.Updated(world, e.oid, GameEngine.Timed(e.obj, t)), {}, base))
    case Some(Leaves(t, size)) => Leave(world, coord, e, t, size, base)
  }

  /** A bullet whose timer ran out, the timer now `t`: it leaves its cell
      (see GameEngine.Lift) and hops to the next cell along its heading (see
      Hop). None where the source raises. */
  function Leave(world: World, coord: Coord, e: Entity, t: int, size: int, base: nat): Option<Ticked>
    requires coord in world
  {
    match GameEngine.Lift(world, coord, e, t)
    case None => None
    case Some(w1) =>
      match GameEngine.Heading(e.obj)
      case None => None
      case Some(d) =>
        Some(Hop(w1, coord, Step(coord, d), Entity(GameEngine.Timed(e.obj, t), e.oid), size, base))
  }

  /** The cell holds an object of identity `oid`. */
  predicate Holds(cell: Cell, oid: nat)
  {
    exists j :: 0 <= j < |cell| && cell[j].oid == oid
  }

  /** A step along a direction reaches a neighbouring cell. */
  lemma StepAway(c: Coord, d: Dir)
    ensures Step(c, d) != c && Chebyshev(c, Step(c, d)) == 1 && Chebyshev(Step(c, d), c) == 1
  {
    var v := Diff(d);
  }

  /** An in-place update keeps the identities of a cell. */
  lemma SetObjHolds(cell: Cell, oid: nat, o: Obj, x: nat)
    ensures Holds(SetObj(cell, oid, o), x) <==> Holds(cell, x)
  {
    if Holds(SetObj(cell, oid, o), x) {
      var j :| 0 <= j < |cell| && SetObj(cell, oid, o)[j].oid == x;
    }
    if Holds(cell, x) {
      var j :| 0 <= j < |cell| && cell[j].oid == x;
      assert SetObj(cell, oid, o)[j].oid == x;
    }
  }

  /** A removal only loses identities. */
  lemma RemoveHolds(cell: Cell, o: Obj, x: nat)
    requires Remove(cell, o).Some? && Holds(Remove(cell, o).value, x)
    ensures Holds(cell, x)
  {
    var rest := Remove(cell, o).value;
    var i :| 0 <= i < |cell| && cell[i].obj == o && rest == cell[..i] + cell[i + 1..];
    var j :| 0 <= j < |rest| && rest[j].oid == x;
    if j < i {
      assert rest[j] == cell[j];
    } else {
      assert rest[j] == cell[j + 1];
    }
  }

  /** A bullet moves at most one cell per tick: a cell other than its own
      that did not hold it, and an identity older than every new object,
      hold it after the tick only if the cell is a neighbour of its own. */
  lemma BulletMovesOnce(world: World, coord: Coord, e: Entity, ms: int, base: nat, c: Coord)
    requires coord in world && c in world && Flight(world, coord, e, ms, base).Some?
    requires c != coord && !Holds(world[c], e.oid) && e.oid < base
    ensures Holds(Flight(world, coord, e, ms, base).value.world[c], e.oid) ==> Chebyshev(c, coord) == 1
  {
    match BulletFate(e, ms).value
    case Waits(t) => FlightWaits(world, coord, e, ms, base, c, t);
    case Leaves(t, size) => LeaveMovesOnce(world, coord, e, t, size, base, c);
  }

  /** A bullet whose timer stays at zero or above only has its timer set:
      no cell gains it. */
  lemma FlightWaits(world: World, coord: Coord, e: Entity, ms: int, base: nat, c: Coord, t: int)
    requires coord in world && c in world && BulletFate(e, ms) == Some(Waits(t))
    ensures Flight(world, coord, e, ms, base).Some?
    ensures Holds(Flight(world, coord, e, ms, base).value.world[c], e.oid) <==> Holds(world[c], e.oid)
  {
    var o := GameEngine.Timed(e.obj, t);
    assert GameEngine.Updated(world, e.oid, o)[c] == SetObj(world[c], e.oid, o);
    SetObjHolds(world[c], e.oid, o, e.oid);
  }

  lemma LeaveMovesOnce(world: World, coord: Coord, e: Entity, t: int, size: int, base: nat, c: Coord)
    requires coord in world && c in world && c != coord
    requires Leave(world, coord, e, t, size, base).Some?
    requires e.oid < base && !Holds(world[c], e.oid)
    ensures Holds(Leave(world, coord, e, t, size, base).value.world[c], e.oid) ==> Chebyshev(c, coord) == 1
  {
    var o := GameEngine.Timed(e.obj, t);
    var w1 := GameEngine.Lift(world, coord, e, t).value;
    var d := GameEngine.Heading(e.obj).value;
    StepAway(coord, d);
    assert w1[c] == SetObj(world[c], e.oid, o);
    SetObjHolds(world[c], e.oid, o, e.oid);
    HopHolds(w1, coord, Step(coord, d), Entity(o, e.oid), size, base, c);
  }

  /** Where the bullet goes, no cell but the target gains it: explosions
      carry identities from `base` on. */
  lemma HopHolds(w: World, coord: Coord, next: Coord, bullet: Entity, size: int, base: nat, c: Coord)
    requires c in w && c != coord && bullet.oid < base && !Holds(w[c], bullet.oid)
    ensures Holds(Hop(w, coord, next, bullet, size, base).world[c], bullet.oid) ==> c == next
  {
    if next in w && Solid(w[next]) {
      BlastHolds(w, NeighbourhoodSeq(next, size - 1), ServerExplosion(size), base, c, bullet.oid);
    }
  }

  /** A blast adds only identities from `base` on. */
  lemma BlastHolds(w: World, hood: seq<Coord>, o: Obj, base: nat, c: Coord, oid: nat)
    requires c in w && oid < base && !Holds(w[c], oid)
    ensures !Holds(GameEngine.Blast(w, hood, o, base)[c], oid)
  {
    if c in hood {
      HoldsAppend(w[c], Entity(o, base + GameEngine.Position(hood, c)), oid);
    }
  }

  /** An appended object of another identity adds nothing to what a cell holds. */
  lemma HoldsAppend(cell: Cell, x: Entity, oid: nat)
    requires x.oid != oid
    ensures Holds(cell + [x], oid) <==> Holds(cell, oid)
  {
    if Holds(cell + [x], oid) {
      var j :| 0 <= j < |cell + [x]| && (cell + [x])[j].oid == oid;
      assert j < |cell| && cell[j].oid == oid;
    }
    if Holds(cell, oid) {
      var j :| 0 <= j < |cell| && cell[j].oid == oid;
      assert (cell + [x])[j].oid == oid;
    }
  }

  /** A bullet that reaches a solid cell does not move there: the cells of
      the world within distance size-1 of that cell each gain one explosion
      of damage size² at their end; every other cell is as the bullet's
      departure left it. */
  lemma BulletExplodes(world: World, coord: Coord, e: Entity, t: int, size: int, base: nat, c: Coord)
    requires coord in world && c in world
    requires Leave(world, coord, e, t, size, base).Some?
    ensures var w1 := GameEngine.Lift(world, coord, e, t).value;
      var next := Step(coord, GameEngine.Heading(e.obj).value);
      var r := Leave(world, coord, e, t, size, base).value;
      next in w1 && Solid(w1[next]) ==>
        r.dirty == {coord} + GameEngine.BlastArea(world, next, size)
        && if c in GameEngine.BlastArea(world, next, size)
           then |r.world[c]| == |w1[c]| + 1 && r.world[c][..|w1[c]|] == w1[c]
                && r.world[c][|w1[c]|].obj == ServerExplosion(size)
           else r.world[c] == w1[c]
  {
    var next := Step(coord, GameEngine.Heading(e.obj).value);
    NeighbourhoodMembers(next, size - 1);
  }

  /** `_tick_bullets(ms)` over the bullets `find_objs` listed, in order. */
  function Volley(world: World, found: seq<(Coord, Entity)>, ms: int, base: nat): (r: Option<Ticked>)
    ensures r.Some? ==> r.value.world.Keys == world.Keys
    decreases |found|
  {
    if found == [] then Some(Ticked(world, {}, base))
    else
      match Volley(world, found[..|found| - 1], ms, base)
      case None => None
      case Some(t) =>
        var (c, e) := found[|found| - 1];
        if c !in t.world then None
        else
          match Flight(t.world, c, e, ms, t.next)
          case None => None
          case Some(t2) => Some(Ticked(t2.world, t.dirty + t2.dirty, t2.next))
  }

  /** Once a bullet's flight raises, the tick raises: no later bullet
      brings it back. */
  lemma {:induction false} VolleyStaysNone(world: World, found: seq<(Coord, Entity)>, ms: int, base: nat, n: nat)
    requires n <= |found| && Volley(world, found[..n], ms, base).None?
    ensures Volley(world, found, ms, base).None?
    decreases |found| - n
  {
    if n < |found| {
      assert found[..n + 1][..n] == found[..n];
      VolleyStaysNone(world, found, ms, base, n + 1);
    } else {
      assert found[..n] == found;
    }
  }

  /** One more bullet of the volley. */
  lemma VolleyStep(world: World, found: seq<(Coord, Entity)>, ms: int, base: nat, i: nat, t: Ticked)
    requires i < |found| && Volley(world, found[..i], ms, base) == Some(t) && found[i].0 in t.world
    ensures Volley(world, found[..i + 1], ms, base)
      == match Flight(t.world, found[i].0, found[i].1, ms, t.next)
         case None => None
         case Some(t2) => Some(Ticked(t2.world, t.dirty + t2.dirty, t2.next))
  {
    assert found[..i + 1][..i] == found[..i];
  }

  // ---- _tick_explosions ----

  /** A cell left holding only explosions gets an EMPTY at its front. */
  function Refilled(world: World, coord: Coord, base: nat): (r: (World, nat))
    requires coord in world
    ensures r.0.Keys == world.Keys
  {
    if Only(world[coord], {Explosion})
    then (world[coord := [GameEngine.EmptyEntity(base)] + world[coord]], base + 1)
    else (world, base)
  }

  /** After the refill the cell holds something that is not an explosion,
      and its earlier objects are still there, in order, at its end. */
  lemma RefilledLasting(world: World, coord: Coord, base: nat)
    requires coord in world
    ensures var cell := Refilled(world, coord, base).0[coord];
      !Only(cell, {Explosion}) && |cell| >= |world[coord]| && cell[|cell| - |world[coord]|..] == world[coord]
      && (forall c :: c in world && c != coord ==> Refilled(world, coord, base).0[c] == world[c])
  {
    var cell := Refilled(world, coord, base).0[coord];
    if Only(world[coord], {Explosion}) {
      assert cell[0].obj.kind == Empty;
    } else {
      var j :| 0 <= j < |world[coord]| && world[coord][j].obj.kind !in {Explosion};
    }
  }

  /** The hit of an explosion of damage `amount` on the object `h` of the
      cell `coord`, in every case but a player it kills: its hp (0 when
      absent) is lowered by `amount`; an object other than a player at hp <= 0
      leaves the cell, which becomes dirty and is refilled. None where the
      source raises. */
  function Damaged(world: World, coord: Coord, h: Entity, amount: int, base: nat): (r: Option<Ticked>)
    requires coord in world
    ensures r.Some? ==> r.value.world.Keys == world.Keys
  {
    match GameEngine.HpOf(h.obj)
    case None => None
    case Some(hp0) =>
      var hp := hp0 - amount;
      if hp > 0 then Some(Ticked(GameEngine.Updated(world, h.oid, GameEngine.Hit(h.obj, hp)), {}, base))
      else
        match Remove(world[coord], h.obj)
        case None => None
        case Some(rest) =>
          var r := Refilled(world[coord := rest], coord, base);
          Some(Ticked(r.0, {coord}, r.1))
  }

  /** At hp <= 0 an object other than a player leaves its cell: the cell
      loses exactly one object equal to it and is never left holding only
      explosions. */
  lemma DamagedRemoves(world: World, coord: Coord, h: Entity, amount: int, base: nat)
    requires coord in world && h in world[coord]
    requires GameEngine.HpOf(h.obj).Some? && GameEngine.HpOf(h.obj).value - amount <= 0
    ensures var r := Damaged(world, coord, h, amount, base);
      var rest := Remove(world[coord], h.obj);
      r.Some? && rest.Some? && |rest.value| == |world[coord]| - 1 && r.value.dirty == {coord}
      && r.value.world == Refilled(world[coord := rest.value], coord, base).0
      && !Only(r.value.world[coord], {Explosion})
  {
    var j :| 0 <= j < |world[coord]| && world[coord][j] == h;
    assert world[coord][j].obj == h.obj;
    var rest := Remove(world[coord], h.obj).value;
    RefilledLasting(world[coord := rest], coord, base);
  }

  /** A surviving object only has its hp lowered, in place. */
  lemma DamagedSurvives(world: World, coord: Coord, h: Entity, amount: int, base: nat)
    requires coord in world && GameEngine.HpOf(h.obj).Some? && GameEngine.HpOf(h.obj).value - amount > 0
    ensures var r := Damaged(world, coord, h, amount, base);
      r.Some? && r.value.dirty == {} && r.value.next == base && r.value.world.Keys == world.Keys
      && forall c, j :: c in world && 0 <= j < |world[c]| ==>
           |r.value.world[c]| == |world[c]|
           && r.value.world[c][j] == if world[c][j].oid == h.oid
                                     then Entity(GameEngine.Hit(h.obj, GameEngine.HpOf(h.obj).value - amount), h.oid)
                                     else world[c][j]
  {
  }

  /** The attributes of a player the server spawns. */
  function SpawnedAttrs(pid: int, d: Dir): Attrs
  {
    map["number" := IntV(pid), "direction" := ConstV(DirC(d)), "team" := IntV(pid),
        "hp" := IntV(10), "hp_max" := IntV(10)]
  }

  /** A spawned player is found again by its number, in the cell it was
      placed in, unless a player listed before it already carries that number. */
  lemma SpawnedFound(world: World, order: seq<Coord>, loc: Coord, pid: int, d: Dir, oid: nat)
    requires Distinct(order) && Elems(order) == world.Keys && loc in world
    requires FindNumbered(world, order, pid).NotFound?
    ensures var p := Entity(Obj(Player, SpawnedAttrs(pid, d)), oid);
      FindNumbered(world[loc := world[loc] + [p]], order, pid) == Found(loc, p)
  {
    var p := Entity(Obj(Player, SpawnedAttrs(pid, d)), oid);
    var w := world[loc := world[loc] + [p]];
    FindNumberedAppend(world, order, loc, p, pid);
  }

  lemma {:induction false} FindNumberedAppend(world: World, order: seq<Coord>, loc: Coord, p: Entity, pid: int)
    requires Distinct(order) && Elems(order) <= world.Keys && loc in world
    requires FindNumber(Matches(world, order, {Player}), pid).NotFound?
    requires p.obj.kind == Player && Get(p.obj.attrs, "number") == Some(IntV(pid))
    ensures FindNumber(Matches(world[loc := world[loc] + [p]], order, {Player}), pid)
            == if loc in order then Found(loc, p) else NotFound
    decreases |order|
  {
    var w := world[loc := world[loc] + [p]];
    if order != [] {
      var init := order[..|order| - 1];
      var c := order[|order| - 1];
      assert Distinct(init);
      assert c in Elems(order);
      assert forall x :: x in init ==> x in order;
      FindNumberAppend(Matches(world, init, {Player}), CellMatches(c, world[c], {Player}), pid);
      FindNumberedAppend(world, init, loc, p, pid);
      if c == loc {
        assert loc !in init by {
          forall k | 0 <= k < |init| ensures init[k] != loc {
            assert init[k] == order[k];
          }
        }
        assert CellMatches(c, w[c], {Player}) == CellMatches(c, world[c], {Player}) + [(c, p)];
        FindNumberAppend(Matches(w, init, {Player}), CellMatches(c, w[c], {Player}), pid);
        FindNumberAppend(CellMatches(c, world[c], {Player}), [(c, p)], pid);
      } else {
        assert CellMatches(c, w[c], {Player}) == CellMatches(c, world[c], {Player});
        FindNumberAppend(Matches(w, init, {Player}), CellMatches(c, w[c], {Player}), pid);
      }
    }
  }

  /** A search through two lists finds in the second only what the first
      does not decide. */
  lemma {:induction false} FindNumberAppend(a: seq<(Coord, Entity)>, b: seq<(Coord, Entity)>, pid: int)
    ensures FindNumber(a + b, pid) == if FindNumber(a, pid).NotFound? then FindNumber(b, pid) else FindNumber(a, pid)
    decreases |a|
  {
    if a != [] {
      assert (a + b)[1..] == a[1..] + b;
      FindNumberAppend(a[1..], b, pid);
    } else {
      assert a + b == b;
    }
  }

  // ---- _fire ----

  /** The bullet `_fire` appends: the shooter's number as its owner, the
      shooter's facing, and the command's argument as its size. */
  function ServerBulletAttrs(owner: Val, facing: Val, arg: Const): Attrs
  {
    map["owner" := owner, "direction" := facing, "size" := ValOf(arg)]
  }

  // ---- player_join / player_leave ----

  /** The state once `player_join` has registered a new player. */
  function Joining(s: ServerState, pid: int): ServerState
  {
    s.(players := s.players + [pid], knownWorlds := s.knownWorlds[pid := map[]])
  }

  lemma JoiningConsistent(s: ServerState, cells: set<Coord>, pid: int)
    requires Consistent(s, cells) && pid !in s.players
    ensures Consistent(Joining(s, pid), cells)
  {
    var ps := s.players + [pid];
    forall a, b | 0 <= a < b < |ps| ensures ps[a] != ps[b] {
      if b == |s.players| {
        assert ps[a] in s.players;
      }
    }
  }

  /** The state once `player_leave` has dropped a player's bookkeeping. */
  function Leaving(s: ServerState, pid: int): ServerState
  {
    s.(players := RemoveFirst(s.players, pid), knownWorlds := s.knownWorlds - {pid})
  }

  lemma LeavingConsistent(s: ServerState, cells: set<Coord>, pid: int)
    requires Consistent(s, cells)
    ensures Consistent(Leaving(s, pid), cells)
  {
  }

  // ---- the hits of an explosion ----

  /** `_spawn_player(pid)` took `s` to `s2`, putting the new player at `loc`
      facing `d`: the number is not carried by an object without one; a
      player of that number still on the map was removed first and every
      vision refreshed; then the new player, with the next identity, was
      appended to a cell that holds nothing that blocks. */
  ghost predicate SpawnedIn(s: ServerState, order: seq<Coord>, vision: string, pid: int, s2: ServerState, loc: Coord, d: Dir)
  {
    !FindNumbered(s.world, order, pid).NoPlayerId?
    && var cleared := if FindNumbered(s.world, order, pid).Found?
                      then Refresh(s.(world := WithoutNumbered(s.world, order, pid)), order, vision)
                      else s;
       loc in Unblocked(cleared.world) && d in Directions
       && s2 == cleared.(world := cleared.world[loc := cleared.world[loc] + [Entity(Obj(Player, SpawnedAttrs(pid, d)), cleared.nextOid)]],
                         nextOid := cleared.nextOid + 1)
  }

  /** `_kill_player(pid)` took `s` to `s2`: the player was found and removed,
      every vision refreshed (`removed`); its remembered world was
      forgotten; and then `_spawn_player(pid)` ran from there (SpawnedIn),
      which also removes a player of that number still on the map. */
  ghost predicate Killed(s: ServerState, order: seq<Coord>, vision: string, pid: int, s2: ServerState)
  {
    FindNumbered(s.world, order, pid).Found?
    && var removed := Refresh(s.(world := WithoutNumbered(s.world, order, pid)), order, vision);
       Respawned(removed.(knownWorlds := removed.knownWorlds[pid := map[]]), order, vision, pid, s2)
  }

  /** A kill leaves a new player of that number, with the last identity
      used, at the end of a cell of the map. */
  lemma KilledRespawns(s: ServerState, order: seq<Coord>, vision: string, pid: int, s2: ServerState)
    requires Killed(s, order, vision, pid, s2)
    ensures exists loc, d :: loc in s2.world && s2.world[loc] != []
                             && s2.world[loc][|s2.world[loc]| - 1] == Entity(Obj(Player, SpawnedAttrs(pid, d)), s2.nextOid - 1)
  {
    var removed := Refresh(s.(world := WithoutNumbered(s.world, order, pid)), order, vision);
    var loc, d :| SpawnedIn(removed.(knownWorlds := removed.knownWorlds[pid := map[]]), order, vision, pid, s2, loc, d);
    assert s2.world[loc][|s2.world[loc]| - 1] == Entity(Obj(Player, SpawnedAttrs(pid, d)), s2.nextOid - 1);
  }

  /** `_spawn_player(pid)` took `s` to `s2`, at some cell and facing. */
  ghost predicate Respawned(s: ServerState, order: seq<Coord>, vision: string, pid: int, s2: ServerState)
  {
    exists loc, d :: SpawnedIn(s, order, vision, pid, s2, loc, d)
  }

  /** `_spawn_player(pid)` does not raise on `s`: the lookup does not, a
      player of that number still on the map is removed and every vision
      refreshed without raising, and some cell holding nothing that blocks
      is left. */
  ghost predicate SpawnsIn(s: ServerState, order: seq<Coord>, vision: string, pid: int)
  {
    var f := FindNumbered(s.world, order, pid);
    !f.NoPlayerId?
    && (f.Found? ==> RefreshOk(s.(world := WithoutNumbered(s.world, order, pid)), order, vision))
    && Unblocked(WithoutNumbered(s.world, order, pid)) != {}
  }

  /** `_kill_player(pid)` does not raise on `s`: the player is found, the
      refresh after its removal does not raise, and neither does the spawn
      that follows once it has forgotten what it remembered. */
  ghost predicate KillsIn(s: ServerState, order: seq<Coord>, vision: string, pid: int)
  {
    FindNumbered(s.world, order, pid).Found?
    && var removed := s.(world := WithoutNumbered(s.world, order, pid));
       RefreshOk(removed, order, vision)
       && var r := Refresh(removed, order, vision);
          SpawnsIn(r.(knownWorlds := r.knownWorlds[pid := map[]]), order, vision, pid)
  }

  /** After a step to `to` leaving the world `world`, the rest of `_move`
      does not raise: the mover has a number, the refresh of every vision does
      not raise, and the mover's facing gives a view whose cells can all be
      packed from what it remembers once refreshed. */
  ghost predicate StepSucceeds(s: ServerState, order: seq<Coord>, vision: string, world: World, to: Coord, player: Entity)
  {
    "number" in player.obj.attrs && AsInt(player.obj.attrs["number"]).Some?
    && RefreshOk(s.(world := world), order, vision)
    && "direction" in player.obj.attrs
    && CanSee(world, vision, to, player.obj.attrs["direction"]).Some?
    && var r := Refresh(s.(world := world), order, vision);
       var n := AsInt(player.obj.attrs["number"]).value;
       n in r.knownWorlds
       && ServerView.Packable(world, r.knownWorlds[n], CanSee(world, vision, to, player.obj.attrs["direction"]).value.Keys)
  }

  /** Once the newcomer `pid` has been spawned, giving `s`, the rest of
      `player_join` does not raise: the newcomer sees, the cells its first
      look changed can be packed, and the refresh of every vision that
      follows does not raise. */
  ghost predicate Welcomed(s: ServerState, order: seq<Coord>, vision: string, pid: int)
  {
    pid in s.knownWorlds && SightOf(s.world, order, vision, pid).Sees?
    && RefreshesOne(s.world, order, vision, s.knownWorlds[pid], pid)
    && RefreshOk(s.(knownWorlds := s.knownWorlds[pid := ServerView.Remembered(s.knownWorlds[pid],
                                                                               SightOf(s.world, order, vision, pid).view)]),
                 order, vision)
  }

  /** The hit of an explosion of damage `amount` on the object `h` of the
      cell `coord` took `s` to `s2`: a player it kills is killed (Killed) and
      the cell refilled; anything else is Damaged. */
  ghost predicate ExplosionHit(s: ServerState, order: seq<Coord>, vision: string, coord: Coord, h: Entity,
                               amount: int, s2: ServerState)
  {
    coord in s.world && GameEngine.HpOf(h.obj).Some?
    && if GameEngine.HpOf(h.obj).value - amount > 0 || h.obj.kind != Player
       then Damaged(s.world, coord, h, amount, s.nextOid).Some?
            && s2 == s.(world := Damaged(s.world, coord, h, amount, s.nextOid).value.world,
                        nextOid := Damaged(s.world, coord, h, amount, s.nextOid).value.next)
       else "number" in h.obj.attrs && AsInt(h.obj.attrs["number"]).Some?
            && exists k :: Killed(s, order, vision, AsInt(h.obj.attrs["number"]).value, k) && coord in k.world
                           && s2 == k.(world := Refilled(k.world, coord, k.nextOid).0, nextOid := Refilled(k.world, coord, k.nextOid).1)
  }

  /** The hit of ExplosionHit does not raise: the cell is in the world, the
      object's hp can be read, an object that survives or is not a player is
      Damaged without raising, and a player it kills has a number whose kill
      does not raise (KillsIn). */
  ghost predicate HitLands(s: ServerState, order: seq<Coord>, vision: string, coord: Coord, h: Entity, amount: int)
  {
    coord in s.world && GameEngine.HpOf(h.obj).Some?
    && if GameEngine.HpOf(h.obj).value - amount > 0 || h.obj.kind != Player
       then Damaged(s.world, coord, h, amount, s.nextOid).Some?
       else "number" in h.obj.attrs && AsInt(h.obj.attrs["number"]).Some?
            && KillsIn(s, order, vision, AsInt(h.obj.attrs["number"]).value)
  }

  /** Each of `hits` in turn, as it stands in `coord` when its turn comes,
      takes the explosion's damage (ExplosionHit, from `tr[k]` to
      `tr[k + 1]`): the loop of `_tick_explosions`. */
  ghost predicate Struck(order: seq<Coord>, vision: string, coord: Coord, hits: seq<Entity>, amount: int,
                         tr: seq<ServerState>)
    decreases |hits|
  {
    |tr| == |hits| + 1
    && (hits != [] ==>
          var n := |hits| - 1;
          Struck(order, vision, coord, hits[..n], amount, tr[..n + 1])
          && coord in tr[n].world
          && ExplosionHit(tr[n], order, vision, coord, GameEngine.Current(tr[n].world[coord], hits[n]), amount, tr[n + 1]))
  }

  /** The first |tr| - 1 of `hits` took the explosion's damage in turn
      along `tr` (Struck), and the hit of the next one raises. */
  ghost predicate StruckUntil(order: seq<Coord>, vision: string, coord: Coord, hits: seq<Entity>, amount: int,
                              tr: seq<ServerState>)
  {
    1 <= |tr| <= |hits|
    && Struck(order, vision, coord, hits[..|tr| - 1], amount, tr)
    && coord in tr[|tr| - 1].world
    && !HitLands(tr[|tr| - 1], order, vision, coord, GameEngine.Current(tr[|tr| - 1].world[coord], hits[|tr| - 1]), amount)
  }

  /** A hit that raises within the first `n` hits raises within them all. */
  lemma StruckUntilLonger(order: seq<Coord>, vision: string, coord: Coord, hits: seq<Entity>, amount: int,
                          tr: seq<ServerState>, n: nat)
    requires n <= |hits| && StruckUntil(order, vision, coord, hits[..n], amount, tr)
    ensures StruckUntil(order, vision, coord, hits, amount, tr)
  {
    assert hits[..n][..|tr| - 1] == hits[..|tr| - 1];
    assert hits[..n][|tr| - 1] == hits[|tr| - 1];
  }

  /** The hits of one explosion `e` on its fresh `hits` took `s` along `tr`
      (Struck), and the explosion then became `burnt`, giving `struck`. */
  ghost predicate Blasted(order: seq<Coord>, vision: string, coord: Coord, e: Entity, hits: seq<Entity>, burnt: Obj,
                          s: ServerState, tr: seq<ServerState>, struck: ServerState)
  {
    |tr| == |hits| + 1 && tr[0] == s
    && (hits != [] ==> IntAttr(e.obj.attrs, "_damage").Some?
                       && Struck(order, vision, coord, hits, IntAttr(e.obj.attrs, "_damage").value, tr))
    && struck == tr[|hits|].(world := GameEngine.Updated(tr[|hits|].world, e.oid, burnt))
    && coord in struck.world
    && (forall j :: 0 <= j < |struck.world[coord]| && struck.world[coord][j].oid == e.oid ==>
          struck.world[coord][j].obj == burnt)
  }

  /** One explosion `e` of `_tick_explosions` took `s` to `s2`, touching the
      cells `dirty`: its fresh `hits` took its damage in turn (Struck, along
      `tr`); it became `burnt` (giving `struck`); and, its time left `t`
      being below zero, it left its cell, which became dirty. */
  ghost predicate Exploded(order: seq<Coord>, vision: string, coord: Coord, e: Entity, hits: seq<Entity>, burnt: Obj,
                           t: int, s: ServerState, tr: seq<ServerState>, struck: ServerState, s2: ServerState,
                           dirty: set<Coord>)
  {
    Blasted(order, vision, coord, e, hits, burnt, s, tr, struck)
    && if t < 0
       then Remove(struck.world[coord], burnt).Some? && coord in dirty
            && s2 == struck.(world := struck.world[coord := Remove(struck.world[coord], burnt).value])
       else s2 == struck
  }

  /** The tick of one explosion raised: the explosion has hits but no
      readable `_damage`, or a hit raised (StruckUntil along `tr`), or every
      hit landed (Blasted) but the explosion, its time run out, could not be
      taken out of its cell. */
  ghost predicate ExplodeRaised(order: seq<Coord>, vision: string, coord: Coord, e: Entity, hits: seq<Entity>, burnt: Obj,
                                t: int, s: ServerState, tr: seq<ServerState>, struck: ServerState)
  {
    (hits != [] && (IntAttr(e.obj.attrs, "_damage").None?
                    || (StruckUntil(order, vision, coord, hits, IntAttr(e.obj.attrs, "_damage").value, tr) && tr[0] == s)))
    || (Blasted(order, vision, coord, e, hits, burnt, s, tr, struck) && t < 0 && Remove(struck.world[coord], burnt).None?)
  }

  /** A trace of Struck over all hits but the last, and the hit of the last
      one, make a trace over all of them. */
  lemma StruckLast(order: seq<Coord>, vision: string, coord: Coord, hits: seq<Entity>, amount: int,
                   tr: seq<ServerState>, b: ServerState)
    requires hits != [] && Struck(order, vision, coord, hits[..|hits| - 1], amount, tr)
    requires coord in tr[|hits| - 1].world
    requires ExplosionHit(tr[|hits| - 1], order, vision, coord, GameEngine.Current(tr[|hits| - 1].world[coord], hits[|hits| - 1]),
                          amount, b)
    ensures Struck(order, vision, coord, hits, amount, tr + [b])
  {
    assert (tr + [b])[..|hits|] == tr;
  }

  // ---- the game object ----

  /** `Game`. The constructor's options become constants; the attributes the
      methods update are held in `state`, so that every method states its
      whole new state as an update of the old one. */
  class Game {
    const id: int
    const name: string
    const mode: string
    const maxPlayers: int
    /** The name of the vision function, a key of VISION_FUNCTIONS. */
    const vision: string
    /** The cells of the world, and the iteration order of the world dict. */
    const cells: set<Coord>
    const order: seq<Coord>
    /** `Packet.ByteSize()`. */
    const byteSize: Packet -> nat

    var state: ServerState

    predicate Valid()
      reads this
    {
      Distinct(order) && Elems(order) == cells && Consistent(state, cells)
    }

    /** `__init__`, given the world the map generator produced (in its dict
        order). */
    constructor (world: World, order: seq<Coord>, id: int, name: string, mode: string, maxPlayers: int,
                 vision: string, byteSize: Packet -> nat, firstOid: nat)
      requires Distinct(order) && Elems(order) == world.Keys
      ensures Valid()
      ensures state == ServerState(world, [], map[], firstOid, None)
    {
      this.id := id;
      this.name := name;
      this.mode := mode;
      this.maxPlayers := maxPlayers;
      this.vision := vision;
      this.order := order;
      this.cells := world.Keys;
      this.byteSize := byteSize;
      state := ServerState(world, [], map[], firstOid, None);
    }

    /** `find_objs(kind)`: every (cell, object) pair of that kind, cells in
        dict order and objects in list order. */
    method FindObjs(kind: Kind) returns (found: seq<(Coord, Entity)>)
      requires Valid()
      ensures found == Matches(state.world, order, {kind})
    {
      found := GameEngine.CollectMatches(state.world, order, {kind});
    }

    /** `_find_player(pid)`: the first player object numbered `pid`. */
    method FindPlayer(pid: int) returns (f: Find)
      requires Valid()
      ensures f == FindNumbered(state.world, order, pid)
    {
      var found := FindObjs(Player);
      var i := 0;
      while i < |found|
        invariant 0 <= i <= |found|
        invariant FindNumber(found[i..], pid) == FindNumber(found, pid)
      {
        assert found[i..][1..] == found[i + 1..];
        var attrs := found[i].1.obj.attrs;
        if "number" !in attrs {
          return NoPlayerId;
        }
        if attrs["number"] == IntV(pid) {
          return Found(found[i].0, found[i].1);
        }
        i := i + 1;
      }
      f := NotFound;
    }

    /** `_determine_can_see(coord, direction)`. */
    method DetermineCanSee(coord: Coord, direction: Val) returns (r: Option<Known>)
      ensures r == CanSee(state.world, vision, coord, direction)
    {
      if vision == "square" {
        r := Some(ServerView.SquareSeen(state.world, coord));
      } else if vision == "all" {
        r := Some(ServerView.AllSeen(state.world));
      } else if vision == "cone" && direction.ConstV? {
        r := ServerView.ConeSeen(state.world, coord, direction.c);
      } else {
        r := None;
      }
    }

    /** `_send_player_vision(pid, coords)`: the remembered cells of the
        world, in the listed order, packed into packets of the game, a new
        packet begun whenever the current one has grown past the size
        limit; the last packet is sent as well. */
    method SendPlayerVision(pid: int, coords: seq<Coord>) returns (out: Option<seq<Out>>)
      ensures out == VisionOut(state, byteSize, id, pid, coords)
    {
      if pid !in state.knownWorlds {
        return None;
      }
      var known := state.knownWorlds[pid];
      var done: seq<Packet> := [];
      var cur := NewPacket(id);
      var i := 0;
      while i < |coords|
        invariant 0 <= i <= |coords|
        invariant ServerView.Packing(byteSize, state.world, known, coords[i..], done, cur)
                  == ServerView.Packing(byteSize, state.world, known, coords, [], NewPacket(id))
      {
        assert coords[i..][1..] == coords[i + 1..];
        if byteSize(cur) > PacketSizeLimit {
          done := done + [cur];
          cur := NewPacket(cur.gameId);
        }
        var c := coords[i];
        if c in state.world {
          if c !in known {
            return None;
          }
          var recs := CellRecords(c, known[c], |cur.attributes|);
          if recs.None? {
            return None;
          }
          cur := cur.(objects := cur.objects + Flatten(recs.value.0), attributes := cur.attributes + recs.value.1);
        }
        i := i + 1;
      }
      out := Some(GameEngine.Addressed(pid, done + [cur]));
    }

    /** `_mark_dirty(coordinates)` (the coordinates are not used): every
        joined player in the world, in join order, merges its current view
        into the world it remembers, and is sent the cells that changed. It
        raises (false) where a player's lookup, facing or vision function
        does, or where the packing does. */
    method MarkDirty() returns (ok: bool, out: seq<Out>)
      requires Valid()
      modifies this
      ensures Valid()
      ensures state.world == old(state).world && state.players == old(state).players
      ensures state.nextOid == old(state).nextOid && state.lastTick == old(state).lastTick
      ensures ok <==> RefreshOk(old(state), order, vision)
      ensures ok ==> state == Refresh(old(state), order, vision)
      ensures ok ==> forall p :: p in old(state).players ==> !SightOf(old(state).world, order, vision, p).Blind?
      ensures ok ==> forall k :: 0 <= k < |out| ==>
        out[k].to in old(state).players && SightOf(old(state).world, order, vision, out[k].to).Sees?
    {
      ghost var s0 := state;
      var players := state.players;
      out, ok := [], true;
      var i := 0;
      ghost var done: seq<int> := [];
      while i < |players| && ok
        invariant 0 <= i <= |players| && done == players[..i]
        invariant Valid()
        invariant state.world == s0.world && state.players == s0.players
        invariant state.nextOid == s0.nextOid && state.lastTick == s0.lastTick
        invariant ok ==> state == s0.(knownWorlds := RefreshedFor(s0, order, vision, done))
        invariant ok ==> forall p :: p in done ==> !SightOf(s0.world, order, vision, p).Blind?
        invariant ok ==> forall p :: p in done ==> RefreshesOne(s0.world, order, vision, s0.knownWorlds[p], p)
        invariant !ok ==> !RefreshOk(s0, order, vision)
        invariant ok ==> forall k :: 0 <= k < |out| ==> out[k].to in players && SightOf(s0.world, order, vision, out[k].to).Sees?
        decreases |players| - i, ok
      {
        var p := players[i];
        ghost var done' := done + [p];
        assert done' == players[..i + 1] && done'[..|done'| - 1] == done;
        UnvisitedUnchanged(s0, order, vision, players, i);
        var sent;
        ok, sent := RefreshPlayer(p);
        if ok {
          out := out + sent;
          done := done';
          i := i + 1;
        }
      }
      if ok {
        assert done == players;
      }
    }

    /** One player's turn in `_mark_dirty`. */
    method RefreshPlayer(p: int) returns (ok: bool, out: seq<Out>)
      requires Valid() && p in state.players
      modifies this
      ensures Valid()
      ensures ok <==> RefreshesOne(old(state).world, order, vision, old(state).knownWorlds[p], p)
      ensures ok ==> !SightOf(old(state).world, order, vision, p).Blind?
      ensures ok ==> state == match SightOf(old(state).world, order, vision, p)
                              case Sees(v) => old(state).(knownWorlds := old(state).knownWorlds[p := ServerView.Remembered(old(state).knownWorlds[p], v)])
                              case _ => old(state)
      ensures !ok ==> state.world == old(state).world && state.players == old(state).players
      ensures !ok ==> state.nextOid == old(state).nextOid && state.lastTick == old(state).lastTick
      ensures ok ==> forall k :: 0 <= k < |out| ==> out[k].to == p && SightOf(old(state).world, order, vision, p).Sees?
    {
      out := [];
      var f := FindPlayer(p);
      if f.NotFound? {
        return true, out;
      }
      if f.NoPlayerId? || "direction" !in f.player.obj.attrs {
        return false, out;
      }
      var vw := DetermineCanSee(f.coord, f.player.obj.attrs["direction"]);
      if vw.None? {
        return false, out;
      }
      var k, changed := ServerView.UpdateKnownWorld(state.knownWorlds[p], vw.value);
      state := state.(knownWorlds := state.knownWorlds[p := k]);
      var coords := GameEngine.Enumerate(changed);
      ServerView.PackingSome(byteSize, state.world, k, coords, [], NewPacket(id));
      var sent := SendPlayerVision(p, coords);
      if sent.None? {
        return false, out;
      }
      ok, out := true, sent.value;
    }

    /** `_remove_player(pid)`: the player leaves its cell and every player's
        vision is refreshed. False, with nothing changed, where the player is
        not found or the lookup raises. */
    method RemovePlayer(pid: int) returns (ok: bool, out: seq<Out>)
      requires Valid()
      modifies this
      ensures Valid()
      ensures !FindNumbered(old(state).world, order, pid).Found? ==> !ok && state == old(state) && out == []
      ensures ok <==> FindNumbered(old(state).world, order, pid).Found?
                      && RefreshOk(old(state).(world := WithoutNumbered(old(state).world, order, pid)), order, vision)
      ensures state.players == old(state).players && state.nextOid == old(state).nextOid
      ensures state.lastTick == old(state).lastTick
      ensures ok ==> state == Refresh(old(state).(world := WithoutNumbered(old(state).world, order, pid)), order, vision)
      ensures ok ==> forall k :: 0 <= k < |out| ==>
        out[k].to in old(state).players && SightOf(state.world, order, vision, out[k].to).Sees?
    {
      var f := FindPlayer(pid);
      NumberedInWorld(state.world, order, pid);
      out := [];
      if !f.Found? {
        ok := false;
      } else {
        state := state.(world := state.world[f.coord := Remove(state.world[f.coord], f.player.obj).value]);
        ok, out := MarkDirty();
      }
    }

    /** `_spawn_player(pid)`: a player of that number still in the world is
        removed first; the new player, with a random cardinal facing and 10
        hp, is appended to a random cell holding nothing solid. False where
        the source raises: the lookup or the removal raises, or no cell is
        free. */
    method SpawnPlayer(pid: int) returns (ok: bool, ghost cleared: ServerState, loc: Coord, d: Dir)
      requires Valid()
      modifies this
      ensures Valid()
      ensures state.players == old(state).players && state.lastTick == old(state).lastTick
      ensures ok && FindNumbered(old(state).world, order, pid).NotFound? ==> cleared == old(state)
      ensures ok && FindNumbered(old(state).world, order, pid).Found? ==>
        cleared == Refresh(old(state).(world := WithoutNumbered(old(state).world, order, pid)), order, vision)
      ensures ok ==> loc in Unblocked(cleared.world) && d in Directions
      ensures ok ==>
        var p := Entity(Obj(Player, SpawnedAttrs(pid, d)), cleared.nextOid);
        state == cleared.(world := cleared.world[loc := cleared.world[loc] + [p]], nextOid := cleared.nextOid + 1)
      ensures ok ==> SpawnedIn(old(state), order, vision, pid, state, loc, d)
      ensures ok <==> SpawnsIn(old(state), order, vision, pid)
    {
      cleared, loc, d, ok := state, (0, 0), Up, false;
      var f := FindPlayer(pid);
      if !f.NoPlayerId? {
        var removed := true;
        if f.Found? {
          var sent;
          removed, sent := RemovePlayer(pid);
        }
        if removed {
          cleared := state;
          ok, loc, d := PlaceSpawned(pid);
        }
      }
    }

    /** The second half of `_spawn_player`: a fresh player numbered `pid`,
        facing a random direction, is appended to a random cell holding
        nothing that blocks; false where no such cell is left. */
    method PlaceSpawned(pid: int) returns (ok: bool, loc: Coord, d: Dir)
      requires Valid()
      modifies this
      ensures Valid()
      ensures ok <==> Unblocked(old(state).world) != {}
      ensures ok ==> loc in Unblocked(old(state).world) && d in Directions
      ensures ok ==>
        var p := Entity(Obj(Player, SpawnedAttrs(pid, d)), old(state).nextOid);
        state == old(state).(world := old(state).world[loc := old(state).world[loc] + [p]], nextOid := old(state).nextOid + 1)
      ensures !ok ==> state == old(state)
    {
      ok, loc, d := false, (0, 0), Up;
      var suitable := Unblocked(state.world);
      if suitable != {} {
        loc :| loc in suitable;
        d :| d in Directions;
        var p := Entity(Obj(Player, SpawnedAttrs(pid, d)), state.nextOid);
        state := state.(world := state.world[loc := state.world[loc] + [p]], nextOid := state.nextOid + 1);
        ok := true;
      }
    }

    /** `_kill_player(pid)`: the player is removed (see RemovePlayer), forgets
        everything it remembered, and spawns again (see SpawnPlayer). */
    method KillPlayer(pid: int) returns (ok: bool, ghost removed: ServerState)
      requires Valid()
      modifies this
      ensures Valid()
      ensures state.players == old(state).players && state.lastTick == old(state).lastTick
      ensures ok ==> removed == Refresh(old(state).(world := WithoutNumbered(old(state).world, order, pid)), order, vision)
      ensures ok ==> Killed(old(state), order, vision, pid, state)
      ensures ok <==> KillsIn(old(state), order, vision, pid)
    {
      var sent;
      ok, sent := RemovePlayer(pid);
      removed := state;
      if !ok {
        return;
      }
      state := state.(knownWorlds := state.knownWorlds[pid := map[]]);
      ghost var cleared, loc, d;
      ok, cleared, loc, d := SpawnPlayer(pid);
    }

    /** `player_join(pid)`: the player is registered with an empty
        remembered world and spawned (see SpawnPlayer); it is sent the JOINED
        status describing the game, then the cells its first look changed,
        then what the refresh of every player's vision sends. False where the
        source raises. */
    method PlayerJoin(pid: int) returns (ok: bool, out: seq<Out>, ghost spawned: ServerState, ghost loc: Coord, ghost d: Dir)
      requires Valid() && pid !in state.players
      modifies this
      ensures Valid()
      ensures ok ==> state.players == old(state).players + [pid] && pid in state.knownWorlds
      ensures ok ==> SpawnedIn(Joining(old(state), pid), order, vision, pid, spawned, loc, d)
                     && state.world == spawned.world && state.nextOid == spawned.nextOid
      ensures ok ==> FindNumbered(state.world, order, pid).Found?
      ensures state.lastTick == old(state).lastTick
      ensures ok ==> pid in spawned.knownWorlds && SightOf(spawned.world, order, vision, pid).Sees?
                     && state == Refresh(spawned.(knownWorlds := spawned.knownWorlds[pid := ServerView.Remembered(
                                           spawned.knownWorlds[pid], SightOf(spawned.world, order, vision, pid).view)]),
                                         order, vision)
      ensures ok ==> forall p :: p in state.players ==> !SightOf(state.world, order, vision, p).Blind?
      ensures ok <==> SpawnsIn(Joining(old(state), pid), order, vision, pid) && Welcomed(spawned, order, vision, pid)
      ensures ok ==> |out| >= 1 && out[0] == Out(pid, GameInfo(id, StatusJoined, pid, name, mode, maxPlayers, |old(state).players| + 1, vision))
    {
      out := [];
      JoiningConsistent(state, cells, pid);
      state := Joining(state, pid);
      ghost var registered := state;
      var joined;
      ghost var cleared;
      joined, cleared, loc, d := SpawnPlayer(pid);
      spawned := state;
      if !joined {
        ok := false;
        return;
      }
      var info := Out(pid, GameInfo(id, StatusJoined, pid, name, mode, maxPlayers, |state.players|, vision));
      var f := FindPlayer(pid);
      if !f.Found? {
        ok := false;
        return;
      }
      // the first look is the newcomer's turn of `_mark_dirty`, the
      // newcomer being on the map
      var looked, sent := RefreshPlayer(pid);
      if !looked {
        ok := false;
        return;
      }
      var refreshed, others := MarkDirty();
      ok, out := refreshed, [info] + sent + others;
    }

    /** `player_leave(pid)`: a player still on the map is removed from it
        (see RemovePlayer); its remembered world and its place in `players`
        are dropped. False, with nothing changed, where the lookup raises. */
    method PlayerLeave(pid: int) returns (ok: bool, out: seq<Out>)
      requires Valid() && pid in state.players
      modifies this
      ensures Valid()
      ensures FindNumbered(old(state).world, order, pid).NoPlayerId? ==> !ok && state == old(state)
      ensures FindNumbered(old(state).world, order, pid).NotFound? ==> ok && state == Leaving(old(state), pid) && out == []
      ensures FindNumbered(old(state).world, order, pid).Found? ==>
        (ok <==> RefreshOk(old(state).(world := WithoutNumbered(old(state).world, order, pid)), order, vision))
      ensures ok && FindNumbered(old(state).world, order, pid).Found? ==>
        state == Leaving(Refresh(old(state).(world := WithoutNumbered(old(state).world, order, pid)), order, vision), pid)
        && forall k :: 0 <= k < |out| ==>
             out[k].to in old(state).players
             && SightOf(WithoutNumbered(old(state).world, order, pid), order, vision, out[k].to).Sees?
      ensures ok ==> pid !in state.players && pid !in state.knownWorlds && |state.players| == |old(state).players| - 1
    {
      var f := FindPlayer(pid);
      ok, out := !f.NoPlayerId?, [];
      if f.Found? {
        ok, out := RemovePlayer(pid);
      }
      if ok {
        LeavingConsistent(state, cells, pid);
        state := Leaving(state, pid);
      }
    }

    // ---- player actions ----

    /** `player_action(pid, action, argument)`: the action and its argument
        are read from the constant table; the acting player is found and the
        handler for the command runs (see Look, Move, Fire). False where the
        source raises: a code outside the table, a player not on the map (the
        handler is given None), a lookup that raises, or a constant that is
        not a command. */
    method PlayerAction(pid: int, action: int, argument: int) returns (ok: bool, out: seq<Out>)
      requires Valid() && pid in state.players
      modifies this
      ensures Valid()
      ensures FromNumerical(action).None? || FromNumerical(argument).None? ==> !ok && state == old(state)
      ensures !FindNumbered(old(state).world, order, pid).Found? ==> !ok && state == old(state)
      ensures ok ==> FromNumerical(action).Some? && FromNumerical(action).value.CmdC?
    {
      out := [];
      var cmd := FromNumerical(action);
      var arg := FromNumerical(argument);
      if cmd.None? || arg.None? {
        return false, out;
      }
      var f := FindPlayer(pid);
      if !f.Found? || !cmd.value.CmdC? {
        return false, out;
      }
      NumberedInWorld(state.world, order, pid);
      match cmd.value.cmd {
        case Look => ok, out := Look(f.player, arg.value);
        case Move => ok, out := Move(f.coord, f.player, arg.value);
        case Fire => ok, out := Fire(f.coord, f.player, arg.value);
      }
    }

    /** `_look(player, location, arg)`: the player's facing becomes `arg`, in
        place, and every player's vision is refreshed. */
    method Look(player: Entity, arg: Const) returns (ok: bool, out: seq<Out>)
      requires Valid()
      modifies this
      ensures Valid()
      ensures ok <==> RefreshOk(old(state).(world := GameEngine.Updated(old(state).world, player.oid, GameEngine.Faced(player.obj, arg))), order, vision)
      ensures ok ==> state == Refresh(old(state).(world := GameEngine.Updated(old(state).world, player.oid, GameEngine.Faced(player.obj, arg))), order, vision)
    {
      state := state.(world := GameEngine.Updated(state.world, player.oid, GameEngine.Faced(player.obj, arg)));
      ok, out := MarkDirty();
    }

    /** `_move(player, location, arg)`: see Moving. A blocked move sends
        nothing; a step refreshes every player's vision and sends the mover
        the cells its vision function now shows. False where the source
        raises. */
    method Move(loc: Coord, player: Entity, arg: Const) returns (ok: bool, out: seq<Out>)
      requires Valid() && loc in state.world
      modifies this
      ensures Valid()
      ensures state.players == old(state).players && state.nextOid == old(state).nextOid
      ensures state.lastTick == old(state).lastTick
      ensures Moving(old(state).world, loc, player, arg).Raises? ==> !ok && state == old(state)
      ensures Moving(old(state).world, loc, player, arg).Dropped? ==>
        !ok && state == old(state).(world := Moving(old(state).world, loc, player, arg).world)
      ensures Moving(old(state).world, loc, player, arg).Blocked? ==>
        ok && out == [] && state == old(state).(world := Moving(old(state).world, loc, player, arg).world)
      ensures ok && Moving(old(state).world, loc, player, arg).Stepped? ==>
        state == Refresh(old(state).(world := Moving(old(state).world, loc, player, arg).world), order, vision)
      ensures Moving(old(state).world, loc, player, arg).Stepped? ==>
        (ok <==> StepSucceeds(old(state), order, vision, Moving(old(state).world, loc, player, arg).world,
                              Moving(old(state).world, loc, player, arg).to, player))
    {
      out := [];
      var rest := Remove(state.world[loc], player.obj);
      if rest.None? {
        return false, out;
      }
      state := state.(world := state.world[loc := rest.value]);
      if !arg.DirC? {
        return false, out;
      }
      var target := Step(loc, arg.dir);
      if target !in state.world || Solid(state.world[target]) {
        state := state.(world := state.world[loc := state.world[loc] + [player]]);
        return true, out;
      }
      state := state.(world := state.world[target := state.world[target] + [player]]);
      var number := if "number" in player.obj.attrs then AsInt(player.obj.attrs["number"]) else None;
      if number.None? {
        return false, out;
      }
      var refreshed, dirtyOut := MarkDirty();
      if !refreshed || "direction" !in player.obj.attrs {
        return false, out;
      }
      var vw := DetermineCanSee(target, player.obj.attrs["direction"]);
      if vw.None? {
        return false, out;
      }
      var coords := GameEngine.Enumerate(vw.value.Keys);
      if number.value in state.knownWorlds {
        ServerView.PackingSome(byteSize, state.world, state.knownWorlds[number.value], coords, [], NewPacket(id));
      }
      var sent := SendPlayerVision(number.value, coords);
      if sent.None? {
        return false, out;
      }
      ok, out := true, dirtyOut + sent.value;
    }

    /** `_fire(player, location, arg)`: a bullet of the player's number, its
        facing and the size `arg` is appended to the player's own cell, and
        every player's vision is refreshed. No ammo is asked for or spent.
        False where the source raises: no facing, no number, or a facing that
        is not a direction. */
    method Fire(loc: Coord, player: Entity, arg: Const) returns (ok: bool, out: seq<Out>)
      requires Valid() && loc in state.world
      modifies this
      ensures Valid()
      ensures "direction" !in player.obj.attrs || "number" !in player.obj.attrs ==> !ok && state == old(state)
      ensures ok ==> "direction" in player.obj.attrs && "number" in player.obj.attrs && DirOfVal(player.obj.attrs["direction"]).Some?
      ensures ok <==>
        "direction" in player.obj.attrs && "number" in player.obj.attrs && DirOfVal(player.obj.attrs["direction"]).Some?
        && var b := Entity(Obj(Bullet, ServerBulletAttrs(player.obj.attrs["number"], player.obj.attrs["direction"], arg)), old(state).nextOid);
           RefreshOk(old(state).(world := old(state).world[loc := old(state).world[loc] + [b]], nextOid := old(state).nextOid + 1), order, vision)
      ensures ok ==>
        var b := Entity(Obj(Bullet, ServerBulletAttrs(player.obj.attrs["number"], player.obj.attrs["direction"], arg)), old(state).nextOid);
        state == Refresh(old(state).(world := old(state).world[loc := old(state).world[loc] + [b]],
                                     nextOid := old(state).nextOid + 1), order, vision)
    {
      out := [];
      if "direction" !in player.obj.attrs || "number" !in player.obj.attrs {
        return false, out;
      }
      var direction := player.obj.attrs["direction"];
      if DirOfVal(direction).None? {
        return false, out;
      }
      var b := Entity(Obj(Bullet, ServerBulletAttrs(player.obj.attrs["number"], direction, arg)), state.nextOid);
      state := state.(world := state.world[loc := state.world[loc] + [b]], nextOid := state.nextOid + 1);
      ok, out := MarkDirty();
    }

    // ---- the tick ----

    /** `tick(now)`, the clock in milliseconds: the first tick only arms the
        clock; later ones move the bullets, then the explosions, over the time
        since the last tick, and refresh every player's vision when a cell
        was marked dirty. False where the source raises. */
    method Tick(now: int) returns (ok: bool, out: seq<Out>)
      requires Valid()
      modifies this
      ensures Valid()
      ensures state.lastTick == Some(now) && state.players == old(state).players
      ensures old(state).lastTick.None? ==> ok && out == [] && state == old(state).(lastTick := Some(now))
    {
      out := [];
      var last := state.lastTick;
      state := state.(lastTick := Some(now));
      if last.None? {
        return true, out;
      }
      var ms := now - last.value;
      var moved, bulletDirt := TickBullets(ms);
      if !moved {
        return false, out;
      }
      var burnt, blastDirt := TickExplosions(ms);
      if !burnt {
        return false, out;
      }
      if bulletDirt + blastDirt != {} {
        ok, out := MarkDirty();
      } else {
        ok := true;
      }
    }

    /** `_tick_bullets(ms)`: every bullet `find_objs` lists, in its order,
        takes its flight (see Volley); the cells they touch are returned as
        dirty. False where the source raises. */
    method TickBullets(ms: int) returns (ok: bool, dirty: set<Coord>)
      requires Valid()
      modifies this
      ensures Valid()
      ensures state.players == old(state).players && state.knownWorlds == old(state).knownWorlds
      ensures state.lastTick == old(state).lastTick
      ensures var v := Volley(old(state).world, Matches(old(state).world, order, {Bullet}), ms, old(state).nextOid);
        ok <==> v.Some?
      ensures var v := Volley(old(state).world, Matches(old(state).world, order, {Bullet}), ms, old(state).nextOid);
        ok ==> state.world == v.value.world && state.nextOid == v.value.next && dirty == v.value.dirty
    {
      var bullets := FindObjs(Bullet);
      ghost var s0 := state;
      dirty := {};
      var i := 0;
      ok := true;
      while i < |bullets| && ok
        invariant 0 <= i <= |bullets| && Valid()
        invariant bullets == Matches(s0.world, order, {Bullet})
        invariant state.players == s0.players && state.knownWorlds == s0.knownWorlds && state.lastTick == s0.lastTick
        invariant ok ==> Volley(s0.world, bullets[..i], ms, s0.nextOid) == Some(Ticked(state.world, dirty, state.nextOid))
        invariant !ok ==> Volley(s0.world, bullets[..i], ms, s0.nextOid).None?
      {
        ok, dirty := VolleyNext(bullets, i, ms, s0, dirty);
        i := i + 1;
      }
      if ok {
        assert bullets[..i] == bullets;
      } else {
        VolleyStaysNone(s0.world, bullets, ms, s0.nextOid, i);
      }
    }

    /** One pass of the `_tick_bullets` loop: bullet `i` takes its flight
        from where the first `i` bullets left the world (see VolleyStep). */
    method VolleyNext(bullets: seq<(Coord, Entity)>, i: nat, ms: int, ghost s0: ServerState, dirty: set<Coord>)
      returns (ok: bool, dirty2: set<Coord>)
      requires Valid() && i < |bullets| && bullets == Matches(s0.world, order, {Bullet})
      requires Volley(s0.world, bullets[..i], ms, s0.nextOid) == Some(Ticked(state.world, dirty, state.nextOid))
      modifies this
      ensures Valid()
      ensures state.players == old(state).players && state.knownWorlds == old(state).knownWorlds
      ensures state.lastTick == old(state).lastTick
      ensures ok ==> Volley(s0.world, bullets[..i + 1], ms, s0.nextOid) == Some(Ticked(state.world, dirty2, state.nextOid))
      ensures !ok ==> Volley(s0.world, bullets[..i + 1], ms, s0.nextOid).None?
    {
      MatchesMembers(s0.world, order, {Bullet}, bullets[i]);
      ghost var before := Ticked(state.world, dirty, state.nextOid);
      var d;
      ok, d := TickBullet(bullets[i].0, bullets[i].1, ms);
      VolleyStep(s0.world, bullets, ms, s0.nextOid, i, before);
      dirty2 := dirty + d;
    }

    /** One bullet of `_tick_bullets`: see Flight. */
    method TickBullet(coord: Coord, e: Entity, ms: int) returns (ok: bool, dirty: set<Coord>)
      requires Valid() && coord in state.world
      modifies this
      ensures Valid()
      ensures state.players == old(state).players && state.knownWorlds == old(state).knownWorlds
      ensures state.lastTick == old(state).lastTick
      ensures ok <==> Flight(old(state).world, coord, e, ms, old(state).nextOid).Some?
      ensures ok ==> var f := Flight(old(state).world, coord, e, ms, old(state).nextOid).value;
        state.world == f.world && state.nextOid == f.next && dirty == f.dirty
    {
      ok, dirty := false, {};
      var fate := BulletFate(e, ms);
      if fate.Some? {
        match fate.value
        case Waits(t) =>
          Wait(e, t);
          ok := true;
        case Leaves(t, size) =>
          ok, dirty := Depart(coord, e, t, size);
      }
    }

    /** A bullet whose timer stays at zero or above only keeps its timer, now `t`. */
    method Wait(e: Entity, t: int)
      requires Valid()
      modifies this
      ensures Valid()
      ensures state == old(state).(world := GameEngine.Updated(old(state).world, e.oid, GameEngine.Timed(e.obj, t)))
    {
      state := state.(world := GameEngine.Updated(state.world, e.oid, GameEngine.Timed(e.obj, t)));
    }

    /** A bullet whose timer ran out, now `t`, leaves its cell and hops on:
        see Leave. */
    method Depart(coord: Coord, e: Entity, t: int, size: int) returns (ok: bool, dirty: set<Coord>)
      requires Valid() && coord in state.world
      modifies this
      ensures Valid()
      ensures state.players == old(state).players && state.knownWorlds == old(state).knownWorlds
      ensures state.lastTick == old(state).lastTick
      ensures ok <==> Leave(old(state).world, coord, e, t, size, old(state).nextOid).Some?
      ensures ok ==> var f := Leave(old(state).world, coord, e, t, size, old(state).nextOid).value;
        state.world == f.world && state.nextOid == f.next && dirty == f.dirty
    {
      ok, dirty := false, {};
      var lifted := GameEngine.Lift(state.world, coord, e, t);
      var heading := GameEngine.Heading(e.obj);
      if lifted.Some? && heading.Some? {
        state := state.(world := lifted.value);
        dirty := HopOn(coord, Step(coord, heading.value), Entity(GameEngine.Timed(e.obj, t), e.oid), size);
        ok := true;
      }
    }

    /** The hop of a bullet that has left `coord` for `next`: see Hop. */
    method HopOn(coord: Coord, next: Coord, bullet: Entity, size: int) returns (dirty: set<Coord>)
      requires Valid()
      modifies this
      ensures Valid()
      ensures state.players == old(state).players && state.knownWorlds == old(state).knownWorlds
      ensures state.lastTick == old(state).lastTick
      ensures var f := Hop(old(state).world, coord, next, bullet, size, old(state).nextOid);
        state.world == f.world && state.nextOid == f.next && dirty == f.dirty
    {
      var w := state.world;
      if next !in w {
        dirty := {coord};
      } else if Solid(w[next]) {
        var hood := NeighbourhoodSeq(next, size - 1);
        NeighbourhoodMembers(next, size - 1);
        GameEngine.HoodArea(w, next, size);
        var blasted, added := GameEngine.AppendAll(w, hood, ServerExplosion(size), state.nextOid);
        state := state.(world := blasted, nextOid := state.nextOid + |hood|);
        dirty := {coord} + added;
      } else {
        state := state.(world := w[next := w[next] + [bullet]]);
        dirty := {coord, next};
      }
    }

    /** `_tick_explosions(ms)`: every explosion `find_objs` lists, in its
        order, takes its tick (see TickExplosion); the cells they touch are
        returned as dirty. False where the source raises. */
    method TickExplosions(ms: int) returns (ok: bool, dirty: set<Coord>)
      requires Valid()
      modifies this
      ensures Valid()
      ensures state.players == old(state).players && state.lastTick == old(state).lastTick
    {
      var explosions := FindObjs(Explosion);
      ghost var s0 := state;
      dirty := {};
      var i := 0;
      ok := true;
      while i < |explosions| && ok
        invariant 0 <= i <= |explosions| && Valid()
        invariant explosions == Matches(s0.world, order, {Explosion})
        invariant state.players == s0.players && state.lastTick == s0.lastTick
      {
        MatchesMembers(s0.world, order, {Explosion}, explosions[i]);
        var d;
        ghost var struck, tr;
        ok, d, struck, tr := TickExplosion(explosions[i].0, explosions[i].1, ms);
        dirty := dirty + d;
        i := i + 1;
      }
    }

    /** One explosion of `_tick_explosions`: it hits the objects of its cell
        it has not hit before (see Strike), records them in `_damaged`,
        loses the elapsed time from `_time_left` (which starts at
        EXPLOSION_LIFE), and once that falls below zero leaves its cell,
        which becomes dirty. False where the source raises. */
    method TickExplosion(coord: Coord, e: Entity, ms: int)
      returns (ok: bool, dirty: set<Coord>, ghost struck: ServerState, ghost tr: seq<ServerState>)
      requires Valid() && coord in state.world
      modifies this
      ensures Valid()
      ensures state.players == old(state).players && state.lastTick == old(state).lastTick
      ensures ok ==> GameEngine.ExplosionClock(e.obj).Some? && GameEngine.DamagedOids(e.obj).Some?
      ensures ok ==>
        var hits := GameEngine.FreshHits(old(state).world[coord], GameEngine.DamagedOids(e.obj).value);
        var t := GameEngine.ExplosionClock(e.obj).value - ms;
        Exploded(order, vision, coord, e, hits, GameEngine.Burnt(e.obj, t, GameEngine.DamagedOids(e.obj).value + GameEngine.Oids(hits)),
                 t, old(state), tr, struck, state, dirty)
      ensures !ok ==>
        GameEngine.ExplosionClock(e.obj).None? || GameEngine.DamagedOids(e.obj).None?
        || var hits := GameEngine.FreshHits(old(state).world[coord], GameEngine.DamagedOids(e.obj).value);
           var t := GameEngine.ExplosionClock(e.obj).value - ms;
           ExplodeRaised(order, vision, coord, e, hits, GameEngine.Burnt(e.obj, t, GameEngine.DamagedOids(e.obj).value + GameEngine.Oids(hits)),
                         t, old(state), tr, struck)
    {
      ok, dirty, struck, tr := false, {}, state, [state];
      var clock := GameEngine.ExplosionClock(e.obj);
      var damaged := GameEngine.DamagedOids(e.obj);
      if clock.Some? && damaged.Some? {
        var hits := GameEngine.FreshHits(state.world[coord], damaged.value);
        var t := clock.value - ms;
        ok, dirty, struck, tr := Explode(coord, e, hits, GameEngine.Burnt(e.obj, t, damaged.value + GameEngine.Oids(hits)), t);
      }
    }

    /** The hits and the end of one explosion's tick (see Exploded). */
    method Explode(coord: Coord, e: Entity, hits: seq<Entity>, burnt: Obj, t: int)
      returns (ok: bool, dirty: set<Coord>, ghost struck: ServerState, ghost tr: seq<ServerState>)
      requires Valid() && coord in state.world
      modifies this
      ensures Valid()
      ensures state.players == old(state).players && state.lastTick == old(state).lastTick
      ensures ok ==> Exploded(order, vision, coord, e, hits, burnt, t, old(state), tr, struck, state, dirty)
      ensures !ok ==> ExplodeRaised(order, vision, coord, e, hits, burnt, t, old(state), tr, struck)
    {
      ok, dirty, tr := Strike(coord, e, hits);
      struck := state;
      if ok {
        var d;
        ok, d, struck := Fade(coord, e.oid, burnt, t);
        dirty := dirty + d;
      }
    }

    /** The end of an explosion's tick: the explosion `oid` becomes `burnt`
        (giving `struck`), and once its time left `t` is below zero it leaves
        its cell, which becomes dirty. */
    method Fade(coord: Coord, oid: nat, burnt: Obj, t: int) returns (ok: bool, dirty: set<Coord>, ghost struck: ServerState)
      requires Valid() && coord in state.world
      modifies this
      ensures Valid()
      ensures state.players == old(state).players && state.lastTick == old(state).lastTick
      ensures struck == old(state).(world := GameEngine.Updated(old(state).world, oid, burnt)) && coord in struck.world
      ensures forall j :: 0 <= j < |struck.world[coord]| && struck.world[coord][j].oid == oid ==>
                struck.world[coord][j].obj == burnt
      ensures ok <==> t >= 0 || Remove(struck.world[coord], burnt).Some?
      ensures ok ==> if t < 0
                     then Remove(struck.world[coord], burnt).Some? && coord in dirty
                          && state == struck.(world := struck.world[coord := Remove(struck.world[coord], burnt).value])
                     else state == struck
    {
      state := state.(world := GameEngine.Updated(state.world, oid, burnt));
      struck, ok, dirty := state, true, {};
      if t < 0 {
        var rest := Remove(state.world[coord], burnt);
        ok := rest.Some?;
        if ok {
          state := state.(world := state.world[coord := rest.value]);
          dirty := {coord};
        }
      }
    }

    /** The hits of one explosion on the objects `hits` of its cell, each as
        it now stands, in turn (see StrikeOne and Struck). Only cells where
        something died become dirty. False where the source raises. */
    method Strike(coord: Coord, e: Entity, hits: seq<Entity>)
      returns (ok: bool, dirty: set<Coord>, ghost tr: seq<ServerState>)
      requires Valid() && coord in state.world
      modifies this
      ensures Valid() && coord in state.world
      ensures state.players == old(state).players && state.lastTick == old(state).lastTick
      ensures dirty <= {coord}
      ensures hits == [] ==> ok && state == old(state) && tr == [old(state)]
      ensures ok && hits != [] ==>
        IntAttr(e.obj.attrs, "_damage").Some?
        && Struck(order, vision, coord, hits, IntAttr(e.obj.attrs, "_damage").value, tr)
        && tr[0] == old(state) && tr[|hits|] == state
      ensures !ok ==> hits != [] && (IntAttr(e.obj.attrs, "_damage").None?
                                     || (StruckUntil(order, vision, coord, hits, IntAttr(e.obj.attrs, "_damage").value, tr)
                                         && tr[0] == old(state)))
      decreases |hits|
    {
      var amount := IntAttr(e.obj.attrs, "_damage");
      dirty, tr := {}, [state];
      if hits == [] {
        ok := true;
      } else if amount.None? {
        ok := false;
      } else {
        var n := |hits| - 1;
        ok, dirty, tr := Strike(coord, e, hits[..n]);
        if !ok {
          StruckUntilLonger(order, vision, coord, hits, amount.value, tr, n);
        } else {
          var d;
          ok, d := StrikeOne(coord, hits[n], amount.value);
          dirty := dirty + d;
          if ok {
            StruckLast(order, vision, coord, hits, amount.value, tr, state);
            tr := tr + [state];
          }
        }
      }
    }

    /** One hit of Strike: `_damage` is taken from the hp of `hit`, as it now
        stands in `coord` (0 when absent); a player at hp <= 0 is killed (see
        KillPlayer) and the cell refilled, any other object is Damaged. */
    method StrikeOne(coord: Coord, hit: Entity, amount: int) returns (ok: bool, dirty: set<Coord>)
      requires Valid() && coord in state.world
      modifies this
      ensures Valid() && coord in state.world
      ensures state.players == old(state).players && state.lastTick == old(state).lastTick
      ensures dirty <= {coord}
      ensures ok ==> ExplosionHit(old(state), order, vision, coord, GameEngine.Current(old(state).world[coord], hit), amount, state)
      ensures ok <==> HitLands(old(state), order, vision, coord, GameEngine.Current(old(state).world[coord], hit), amount)
    {
      dirty := {};
      var h := GameEngine.Current(state.world[coord], hit);
      var hp0 := GameEngine.HpOf(h.obj);
      if hp0.None? {
        ok := false;
      } else if hp0.value - amount > 0 || h.obj.kind != Player {
        var r := Damaged(state.world, coord, h, amount, state.nextOid);
        ok := r.Some?;
        if ok {
          state := state.(world := r.value.world, nextOid := r.value.next);
          dirty := r.value.dirty;
        }
      } else {
        var number := if "number" in h.obj.attrs then AsInt(h.obj.attrs["number"]) else None;
        ok := number.Some?;
        if ok {
          ghost var removed;
          ok, removed := KillPlayer(number.value);
          if ok {
            var refilled := Refilled(state.world, coord, state.nextOid);
            state := state.(world := refilled.0, nextOid := refilled.1);
            dirty := {coord};
          }
        }
      }
    }
  }
}
