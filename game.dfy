/** The authoritative engine of src/whiteshoe/game.py: `BaseGame` and its two
    modes, `FreeForAllGame` (mines and an ammo bonus on every spawn) and
    `TeamGame` (shared vision). The world, the players' remembered worlds, the
    scores, the event queue and the dirty sets are fields that the methods
    update in place. Python exceptions are an `ok == false` outcome; randomness
    is a nondeterministic choice; time is integer milliseconds. */
module GameEngine {
  import opened Wrappers
  import opened Constants
  import opened Grid
  import opened Entities
  import opened Wire
  import opened GameRules
  import Sync
  import Vision

  /** The registered game modes (`mode` of each class). */
  datatype Mode = Base | FreeForAll | TeamBase

  function ModeName(m: Mode): string
  {
    match m
    case Base => "base"
    case FreeForAll => "ffa"
    case TeamBase => "teambase"
  }

  /** What the engine needs of the constants it does not define: time steps
      that move forward, so that the catch-up loops end, and EMPTY, the marker
      of a cleared cell, not being temporary itself. */
  predicate WellFormed(cfg: Config)
  {
    Empty !in cfg.temporaryObjects
    && (forall s :: s in cfg.slimeBulletSpeed ==> cfg.slimeBulletSpeed[s] > 0)
    && cfg.slimeSpreadTime > 0 && cfg.lavaTime > 0
  }

  // ---- the values the engine creates ----

  function EmptyEntity(oid: nat): Entity
  {
    Entity(Obj(Empty, map[]), oid)
  }

  function MineEntity(size: int, oid: nat): Entity
  {
    Entity(Obj(Mine, map["size" := IntV(size)]), oid)
  }

  /** The attributes of a freshly spawned player: a free-for-all spawn also
      hands out the 5 ammo every player receives. */
  function SpawnAttrs(mode: Mode, pid: int, d: Dir): Attrs
  {
    if mode == FreeForAll then NewPlayerAttrs(pid, d)["ammo" := IntV(15)] else NewPlayerAttrs(pid, d)
  }

  /** The respawned player's attributes after `_kill_player` carried over the
      victim's `name` and `team`. */
  function Carried(victim: Attrs, spawned: Attrs): (r: Attrs)
    ensures forall k :: k in r <==> k in spawned || (k in victim && (k == "name" || k == "team"))
    ensures "name" in victim ==> r["name"] == victim["name"]
    ensures "team" in victim ==> r["team"] == victim["team"]
    ensures forall k :: k in spawned && k != "name" && k != "team" ==> r[k] == spawned[k]
  {
    var withName := if "name" in victim then spawned["name" := victim["name"]] else spawned;
    if "team" in victim then withName["team" := victim["team"]] else withName
  }

  /** `object[1].get('hp', 0)`; None where the subtraction would raise. */
  function HpOf(o: Obj): Option<int>
  {
    if "hp" in o.attrs then AsInt(o.attrs["hp"]) else Some(0)
  }

  /** The object after `object[1]['hp'] = hp`. */
  function Hit(o: Obj, hp: int): Obj
  {
    Obj(o.kind, o.attrs["hp" := IntV(hp)])
  }

  /** `object[1]['player_id']` of a player object. Every player object the
      engine creates carries an integer id; None where the key is missing or
      holds something else. */
  function PlayerIdOf(o: Obj): Option<int>
  {
    if "player_id" in o.attrs && o.attrs["player_id"].IntV? then Some(o.attrs["player_id"].i) else None
  }

  /** An attribute dict updated in place: every cell holding that object
      (the same identity) shows the new value. */
  function Updated(world: World, oid: nat, o: Obj): (r: World)
    ensures r.Keys == world.Keys
  {
    map c | c in world :: SetObj(world[c], oid, o)
  }

  /** The player after `player[1]['direction'] = arg`. */
  function Faced(o: Obj, arg: Const): Obj
  {
    Obj(o.kind, o.attrs["direction" := ConstV(arg)])
  }

  /** The cell's last object is `e`. */
  predicate LastIn(world: World, loc: Coord, e: Entity)
  {
    loc in world && |world[loc]| > 0 && world[loc][|world[loc]| - 1] == e
  }

  /** The cell holds a player of identity `oid`. */
  predicate HoldsPlayer(cell: Cell, oid: nat)
  {
    exists j :: 0 <= j < |cell| && cell[j].oid == oid && cell[j].obj.kind == Player
  }

  // ---- mines ----

  /** The number of mines in a cell. */
  function Mines(cell: Cell): nat
    decreases |cell|
  {
    if cell == [] then 0
    else Mines(cell[..|cell| - 1]) + (if cell[|cell| - 1].obj.kind == Mine then 1 else 0)
  }

  lemma {:induction false} MinesConcat(a: Cell, b: Cell)
    ensures Mines(a + b) == Mines(a) + Mines(b)
    decreases |b|
  {
    if b == [] {
      assert a + b == a;
    } else {
      assert (a + b)[..|a + b| - 1] == a + b[..|b| - 1];
      assert (a + b)[|a + b| - 1] == b[|b| - 1];
      MinesConcat(a, b[..|b| - 1]);
    }
  }

  /** Removing an object that is not a player keeps the players. */
  lemma RemoveKeepsHolds(cell: Cell, o: Obj, oid: nat)
    requires Remove(cell, o).Some? && HoldsPlayer(cell, oid) && o.kind != Player
    ensures HoldsPlayer(Remove(cell, o).value, oid)
  {
    var j :| 0 <= j < |cell| && cell[j].oid == oid && cell[j].obj.kind == Player;
    RemoveKeeps(cell, o, j);
  }

  /** Removing a mine leaves one mine fewer. */
  lemma MinesRemove(cell: Cell, o: Obj)
    requires o.kind == Mine && Remove(cell, o).Some?
    ensures Mines(Remove(cell, o).value) == Mines(cell) - 1
  {
    var i :| 0 <= i < |cell| && cell[i].obj == o && Remove(cell, o).value == cell[..i] + cell[i + 1..];
    assert cell[i..] == [cell[i]] + cell[i + 1..];
    assert cell == cell[..i] + cell[i..];
    MinesConcat(cell[..i], cell[i..]);
    MinesConcat([cell[i]], cell[i + 1..]);
    MinesConcat(cell[..i], cell[i + 1..]);
    assert Mines([cell[i]]) == 1 by {
      assert [cell[i]][..0] == [];
    }
  }

  /** Removing an object keeps every object of another kind. */
  lemma RemoveKeeps(cell: Cell, o: Obj, j: int)
    requires Remove(cell, o).Some? && 0 <= j < |cell| && cell[j].obj.kind != o.kind
    ensures exists k :: 0 <= k < |Remove(cell, o).value| && Remove(cell, o).value[k] == cell[j]
  {
    var i :| 0 <= i < |cell| && cell[i].obj == o && Remove(cell, o).value == cell[..i] + cell[i + 1..];
    var r := Remove(cell, o).value;
    if j < i {
      assert r[j] == cell[j];
    } else {
      assert r[j - 1] == cell[j];
    }
  }

  /** An in-place update that makes an object something other than a mine
      adds no mine; every identity stays. */
  lemma {:induction false} MinesSetObj(cell: Cell, oid: nat, o: Obj)
    requires o.kind != Mine
    ensures Mines(SetObj(cell, oid, o)) <= Mines(cell)
    decreases |cell|
  {
    if cell != [] {
      var init := cell[..|cell| - 1];
      assert SetObj(cell, oid, o)[..|cell| - 1] == SetObj(init, oid, o);
      MinesSetObj(init, oid, o);
    }
  }

  /** The chance that a mine stays quiet, as `_move_into` chooses it: the
      constant for a step in the facing direction, the one for a step
      backwards, or the one for a step sideways. */
  datatype MineChance = Direct | Backwards | Sideways

  /** None where `DIFFS[player[1]['direction']]` raises. */
  function ChanceOf(step: Option<Dir>, facing: Val): Option<MineChance>
  {
    match DirOfVal(facing)
    case None => None
    case Some(f) =>
      if step == Some(f) then Some(Direct)
      else if step.Some? && Negate(Diff(step.value)) == Diff(f) then Some(Backwards)
      else Some(Sideways)
  }

  /** The MINE_*_PROBABILITY constant of a chance: the chance of NO explosion. */
  function Probability(cfg: Config, chance: MineChance): real
  {
    match chance
    case Direct => cfg.mineDirect
    case Backwards => cfg.mineBackwards
    case Sideways => cfg.mineSide
  }

  /** The position of the first mine of a cell. */
  function FirstMine(cell: Cell): (r: Option<nat>)
    ensures r.Some? ==> r.value < |cell| && cell[r.value].obj.kind == Mine
    ensures r.Some? ==> forall j :: 0 <= j < r.value ==> cell[j].obj.kind != Mine
    ensures r.None? ==> forall j :: 0 <= j < |cell| ==> cell[j].obj.kind != Mine
    decreases |cell|
  {
    if cell == [] then None
    else if cell[0].obj.kind == Mine then Some(0)
    else
      match FirstMine(cell[1..])
      case None => None
      case Some(i) => Some(i + 1)
  }

  /** A cell without mines counts none, and a cell with one counts some. */
  lemma {:induction false} NoMineCounted(cell: Cell)
    ensures (forall j :: 0 <= j < |cell| ==> cell[j].obj.kind != Mine) <==> Mines(cell) == 0
    decreases |cell|
  {
    if cell != [] {
      var init := cell[..|cell| - 1];
      NoMineCounted(init);
      assert forall j :: 0 <= j < |init| ==> init[j] == cell[j];
    }
  }

  /** The kinds `_move_into` leaves in the cell as written: it walks the live
      list by index and removes every mine it visits, so the object right
      after a removed mine slides into the visited slot and is never looked
      at. */
  function MineWalk(kinds: seq<Kind>, i: nat): (r: seq<Kind>)
    ensures |r| <= |kinds|
    decreases |kinds| - i
  {
    if i >= |kinds| then kinds
    else if kinds[i] == Mine then MineWalk(kinds[..i] + kinds[i + 1..], i + 1)
    else MineWalk(kinds, i + 1)
  }

  /** A player stepping onto a cell with two mines in a row sets off only the
      first: the second is skipped and stays armed. */
  lemma SecondMineSkipped()
    ensures MineWalk([Mine, Mine, Player], 0) == [Mine, Player]
  {
    assert [Mine, Mine, Player][..0] + [Mine, Mine, Player][1..] == [Mine, Player];
    assert MineWalk([Mine, Player], 2) == [Mine, Player];
  }

  /** The ammo a disarmed mine gives: 1 for size 1, 5 for size 2, else none. */
  function DisarmBonus(size: Val): int
  {
    if AsInt(size) == Some(1) then 1 else if AsInt(size) == Some(2) then 5 else 0
  }

  // ---- fire ----

  /** What `_fire` does with the ammo: raise, fire nothing, or fire a bullet
      of a kind and size for a cost. */
  datatype Shot = Raises | Nothing | Fired(kind: Kind, cost: int, size: Val)

  /** A slime shot when `arg` is one of the two slime sizes and the ammo pays
      its cost; otherwise a kinetic shot of the strongest power up to `arg`
      whose square the ammo pays. */
  function ShotFor(cfg: Config, arg: Const, ammo: int): Shot
    requires arg.NumC? ==> arg.n >= 1
  {
    var v := ValOf(arg);
    if v == cfg.smallSlime || v == cfg.bigSlime then
      if v !in cfg.slimeCosts then Raises
      else if ammo >= cfg.slimeCosts[v] then Fired(SlimeBullet, cfg.slimeCosts[v], v)
      else Nothing
    else if !arg.NumC? then Raises
    else
      var power := Affordable(arg.n, ammo);
      if power == 0 then Nothing else Fired(Bullet, power * power, IntV(power))
  }

  /** A shot is paid for: a fired shot costs no more than the ammo; a kinetic
      shot is the strongest the ammo pays, costs its size squared and fires
      nothing exactly when the ammo is not positive; a slime fires nothing
      exactly when the ammo is below its cost. */
  lemma ShotPaid(cfg: Config, arg: Const, ammo: int)
    requires arg.NumC? ==> arg.n >= 1
    ensures ShotFor(cfg, arg, ammo).Fired? ==> ShotFor(cfg, arg, ammo).cost <= ammo
    ensures ShotFor(cfg, arg, ammo).Fired? && ShotFor(cfg, arg, ammo).kind == Bullet ==>
      exists p :: 1 <= p <= arg.n && ShotFor(cfg, arg, ammo) == Fired(Bullet, p * p, IntV(p))
                  && forall q :: p < q <= arg.n ==> q * q > ammo
    ensures ShotFor(cfg, arg, ammo) == Nothing ==>
      if ValOf(arg) == cfg.smallSlime || ValOf(arg) == cfg.bigSlime then ammo < cfg.slimeCosts[ValOf(arg)]
      else ammo < 1
  {
    if arg.NumC? && !(ValOf(arg) == cfg.smallSlime || ValOf(arg) == cfg.bigSlime) {
      AffordableIsStrongest(arg.n, ammo);
      AffordableZero(arg.n, ammo);
      var p := Affordable(arg.n, ammo);
      if p != 0 {
        assert ShotFor(cfg, arg, ammo) == Fired(Bullet, p * p, IntV(p));
      }
    }
  }

  /** The attributes of a bullet (kinetic or slime). */
  function BulletAttrs(owner: Val, direction: Val, size: Val): Attrs
  {
    map["owner" := owner, "direction" := direction, "size" := size]
  }

  /** The shooter after paying `cost`. */
  function Spent(o: Obj, ammo: int, cost: int): Obj
  {
    Obj(o.kind, o.attrs["ammo" := IntV(ammo - cost)])
  }

  /** The cells `_make_explosion(coord, size)` reaches: the cells of the world
      within Chebyshev distance `size - 1` of `coord`. */
  function BlastArea(world: World, coord: Coord, size: int): (r: set<Coord>)
    ensures r <= world.Keys
    ensures forall c :: c in r <==> c in world && size >= 1 && Chebyshev(c, coord) <= size - 1
  {
    set c | c in world && size >= 1 && Chebyshev(c, coord) <= size - 1
  }

  /** The world with the explosion `o` appended to every cell of the world
      that `hood` lists. Each explosion is an object of its own: they are
      numbered from `base` in `hood` order. */
  function Blast(world: World, hood: seq<Coord>, o: Obj, base: nat): (r: World)
    ensures r.Keys == world.Keys
  {
    map c | c in world ::
      if c in hood then world[c] + [Entity(o, base + Position(hood, c))]
      else world[c]
  }

  /** The position of `c` in `hood`. */
  function Position(hood: seq<Coord>, c: Coord): (r: nat)
    requires c in hood
    ensures r < |hood| && hood[r] == c
  {
    if hood[0] == c then 0 else 1 + Position(hood[1..], c)
  }

  /** The loop of `_make_explosion`: a new explosion appended to every listed
      cell of the world. */
  method AppendAll(world: World, hood: seq<Coord>, o: Obj, base: nat)
    returns (w: World, added: set<Coord>)
    requires Distinct(hood)
    ensures w == Blast(world, hood, o, base)
    ensures added == Elems(hood) * world.Keys
  {
    w, added := world, {};
    var i := 0;
    while i < |hood|
      invariant 0 <= i <= |hood|
      invariant w.Keys == world.Keys
      invariant forall k :: 0 <= k < i && hood[k] in world ==>
        w[hood[k]] == world[hood[k]] + [Entity(o, base + k)]
      invariant forall c :: c in w && c !in hood[..i] ==> w[c] == world[c]
      invariant forall c :: c in added <==> c in world && c in hood[..i]
    {
      var c := hood[i];
      assert hood[..i + 1] == hood[..i] + [c];
      assert c !in hood[..i] by {
        forall k | 0 <= k < i ensures hood[k] != c { }
      }
      if c in w {
        w := w[c := w[c] + [Entity(o, base + i)]];
        added := added + {c};
      }
      i := i + 1;
    }
    assert hood[..i] == hood;
    forall c | c in world && c in hood
      ensures w[c] == world[c] + [Entity(o, base + Position(hood, c))]
    {
      var k := Position(hood, c);
    }
  }

  /** The listed neighbourhood, cut to the world, is the blast area. */
  lemma HoodArea(world: World, coord: Coord, size: int)
    ensures Elems(NeighbourhoodSeq(coord, size - 1)) * world.Keys == BlastArea(world, coord, size)
  {
    NeighbourhoodMembers(coord, size - 1);
  }

  // ---- the free-for-all ammo bonus ----

  /** `player[1]['ammo'] += 5` on a player; other objects are left alone. */
  function Bumped(e: Entity): (r: Entity)
    ensures r.oid == e.oid && r.obj.kind == e.obj.kind
  {
    if e.obj.kind == Player && IntAttr(e.obj.attrs, "ammo").Some? then
      Entity(Obj(Player, e.obj.attrs["ammo" := IntV(IntAttr(e.obj.attrs, "ammo").value + 5)]), e.oid)
    else e
  }

  /** Every player of the cell has an ammo count the bonus can be added to. */
  predicate Armed(cell: Cell)
  {
    forall j :: 0 <= j < |cell| && cell[j].obj.kind == Player ==> IntAttr(cell[j].obj.attrs, "ammo").Some?
  }

  function BumpedCell(cell: Cell): (r: Cell)
    ensures |r| == |cell| && forall j :: 0 <= j < |cell| ==> r[j] == Bumped(cell[j])
  {
    seq(|cell|, j requires 0 <= j < |cell| => Bumped(cell[j]))
  }

  function BumpedWorld(world: World): (r: World)
    ensures r.Keys == world.Keys
  {
    map c | c in world :: BumpedCell(world[c])
  }

  /** The bonus changes ammo and nothing else: kinds, identities and every
      other attribute stay, and a player's ammo grows by exactly 5. */
  lemma BumpedOnlyAmmo(e: Entity)
    ensures Bumped(e).obj.kind == e.obj.kind && Bumped(e).oid == e.oid
    ensures forall k :: k != "ammo" ==> (k in Bumped(e).obj.attrs <==> k in e.obj.attrs)
    ensures forall k :: k != "ammo" && k in e.obj.attrs ==> Bumped(e).obj.attrs[k] == e.obj.attrs[k]
    ensures e.obj.kind == Player && IntAttr(e.obj.attrs, "ammo").Some? ==>
      IntAttr(Bumped(e).obj.attrs, "ammo") == Some(IntAttr(e.obj.attrs, "ammo").value + 5)
    ensures e.obj.kind != Player ==> Bumped(e) == e
  {
  }

  lemma BumpedSolid(cell: Cell)
    ensures Solid(BumpedCell(cell)) <==> Solid(cell)
  {
    if Solid(cell) {
      var j :| 0 <= j < |cell| && cell[j].obj.kind in SolidObjects;
      assert BumpedCell(cell)[j].obj.kind in SolidObjects;
    }
    if Solid(BumpedCell(cell)) {
      var j :| 0 <= j < |cell| && BumpedCell(cell)[j].obj.kind in SolidObjects;
      assert cell[j].obj.kind in SolidObjects;
    }
  }

  /** The bonus applied to one cell's list, object by object; it stops where
      a player's ammo cannot take it. */
  method BumpCell(cell: Cell) returns (ok: bool, r: Cell)
    ensures ok <==> Armed(cell)
    ensures ok ==> r == BumpedCell(cell)
  {
    r := [];
    var j := 0;
    while j < |cell|
      invariant 0 <= j <= |cell|
      invariant Armed(cell[..j])
      invariant |r| == j && forall k :: 0 <= k < j ==> r[k] == Bumped(cell[k])
    {
      if cell[j].obj.kind == Player && IntAttr(cell[j].obj.attrs, "ammo").None? {
        return false, r;
      }
      assert cell[..j + 1] == cell[..j] + [cell[j]];
      r := r + [Bumped(cell[j])];
      j := j + 1;
    }
    assert cell[..j] == cell;
    ok := true;
  }

  // ---- what `_find_player` and `_remove_player` see ----

  /** What `_find_player(pid)` finds in a world iterated in `order`. */
  function FindPlayerIn(world: World, order: seq<Coord>, pid: int): Find
  {
    FindIn(Matches(world, order, {Player}), pid)
  }

  /** A player that is found is an entity of its cell, so removing it succeeds. */
  lemma FoundInWorld(world: World, order: seq<Coord>, pid: int)
    ensures var f := FindPlayerIn(world, order, pid);
      f.Found? ==> f.coord in world && f.player in world[f.coord] && f.player.obj.kind == Player
                   && Remove(world[f.coord], f.player.obj).Some?
  {
    var f := FindPlayerIn(world, order, pid);
    if f.Found? {
      MatchesMembers(world, order, {Player}, (f.coord, f.player));
      var j :| 0 <= j < |world[f.coord]| && world[f.coord][j] == f.player;
      assert world[f.coord][j].obj == f.player.obj;
    }
  }

  /** The world after `_remove_player(pid)`; unchanged where it raises. */
  function WithoutPlayer(world: World, order: seq<Coord>, pid: int): (r: World)
    ensures r.Keys == world.Keys
  {
    var f := FindPlayerIn(world, order, pid);
    if f.Found? && f.coord in world && Remove(world[f.coord], f.player.obj).Some?
    then world[f.coord := Remove(world[f.coord], f.player.obj).value]
    else world
  }

  /** The cell `_remove_player(pid)` marks dirty. */
  function Vacated(world: World, order: seq<Coord>, pid: int): set<Coord>
  {
    var f := FindPlayerIn(world, order, pid);
    if f.Found? then {f.coord} else {}
  }

  /** The random choices of `_spawn_player`: a cell holding nothing solid
      and a facing for the new player. */
  method PickSpawn(world: World, pid: int, oid: nat) returns (ok: bool, loc: Coord, player: Entity)
    ensures ok <==> Unblocked(world) != {}
    ensures ok ==> loc in Unblocked(world)
    ensures ok ==> exists d :: d in Directions && player == Entity(Obj(Player, NewPlayerAttrs(pid, d)), oid)
  {
    var suitable := Unblocked(world);
    if suitable == {} {
      return false, (0, 0), EmptyEntity(0);
    }
    loc :| loc in suitable;
    var d :| d in Directions;
    player := Entity(Obj(Player, NewPlayerAttrs(pid, d)), oid);
    ok := true;
  }


  /** Two different cells hold nothing solid, so both mines can be placed. */
  predicate RoomForMines(world: World)
  {
    exists a, b :: a in Unblocked(world) && b in Unblocked(world) && a != b
  }

  /** Every cell can take the ammo bonus. */
  predicate AllArmed(world: World)
  {
    forall c :: c in world ==> Armed(world[c])
  }

  /** A mine appended to cells changes no player, so whether every player
      can take the ammo bonus is the same before and after. */
  lemma ArmedMined(s: GameState, m1: Coord, m2: Coord)
    requires m1 in s.world && m2 in s.world
    ensures AllArmed(Mined(s, m1, m2).world) <==> AllArmed(s.world)
  {
    var w := Mined(s, m1, m2).world;
    forall c | c in s.world
      ensures Armed(w[c]) <==> Armed(s.world[c])
    {
      var cell := s.world[c];
      if w[c] != cell {
        var e := if c == m2 then MineEntity(2, s.nextOid + 1) else MineEntity(1, s.nextOid);
        assert w[c] == cell + [e];
        assert forall j :: 0 <= j < |cell| ==> w[c][j] == cell[j];
      }
    }
  }

  /** A new player of a free-for-all game, after the bonus, has the
      free-for-all starting attributes. */
  lemma BumpedNewPlayer(pid: int, d: Dir, oid: nat)
    ensures Bumped(Entity(Obj(Player, NewPlayerAttrs(pid, d)), oid)).obj == Obj(Player, SpawnAttrs(FreeForAll, pid, d))
  {
  }

  /** The two random mine cells of `FreeForAllGame._spawn_player`, drawn one
      after the other from the cells holding nothing solid: `picked` counts the
      draws made before `random.choice` met an empty list. */
  method PickMineCells(world: World) returns (picked: nat, c1: Coord, c2: Coord)
    ensures picked <= 2
    ensures picked == 2 <==> RoomForMines(world)
    ensures picked >= 1 ==> c1 in Unblocked(world)
    ensures picked == 2 ==> c2 in Unblocked(world) && c1 != c2
  {
    var suitable := Unblocked(world);
    if suitable == {} {
      return 0, (0, 0), (0, 0);
    }
    c1 :| c1 in suitable;
    suitable := suitable - {c1};
    if suitable == {} {
      assert forall a, b :: a in Unblocked(world) && b in Unblocked(world) ==> a == b by {
        forall a, b | a in Unblocked(world) && b in Unblocked(world) ensures a == b {
          assert a !in suitable && b !in suitable;
        }
      }
      return 1, c1, c1;
    }
    c2 :| c2 in suitable;
    picked := 2;
  }

  /** The loop of the ammo bonus over the world's cells in `order`; it stops at
      the first cell holding a player whose ammo cannot take the bonus. */
  method BumpAll(world: World, order: seq<Coord>) returns (ok: bool, w: World)
    requires Distinct(order) && Elems(order) == world.Keys
    ensures ok <==> AllArmed(world)
    ensures ok ==> w == BumpedWorld(world)
  {
    w, ok := world, true;
    var i := 0;
    ghost var done: set<Coord> := {};
    while i < |order| && ok
      invariant 0 <= i <= |order|
      invariant w.Keys == world.Keys && done <= world.Keys
      invariant forall k :: 0 <= k < i ==> order[k] in done
      invariant forall k :: i <= k < |order| ==> order[k] !in done
      invariant forall c :: c in w ==> w[c] == if c in done then BumpedCell(world[c]) else world[c]
      invariant forall c :: c in done ==> Armed(world[c])
      invariant !ok ==> !AllArmed(world)
      decreases |order| - i, ok
    {
      var c := order[i];
      assert c in Elems(order);
      var armed, bumped := BumpCell(w[c]);
      if armed {
        forall k | i + 1 <= k < |order| ensures order[k] != c { }
        w := w[c := bumped];
        done := done + {c};
        i := i + 1;
      } else {
        ok := false;
      }
    }
    if ok {
      forall c | c in world ensures c in done {
        assert c in Elems(order);
        var k :| 0 <= k < |order| && order[k] == c;
      }
    }
  }

  /** The new player is the last object of its cell, and nothing before it
      in that cell is solid. */
  predicate SpawnedAt(world: World, loc: Coord, player: Entity)
  {
    loc in world && |world[loc]| > 0 && world[loc][|world[loc]| - 1] == player
    && !Solid(world[loc][..|world[loc]| - 1])
  }

  /** The ammo bonus keeps a freshly spawned player last in its cell, with
      its ammo raised, and adds nothing solid before it. */
  lemma BumpedSpawnedAt(world: World, loc: Coord, player: Entity)
    requires SpawnedAt(world, loc, player)
    ensures SpawnedAt(BumpedWorld(world), loc, Bumped(player))
  {
    var cell := world[loc];
    var prefix := cell[..|cell| - 1];
    assert BumpedWorld(world)[loc][..|cell| - 1] == BumpedCell(prefix);
    BumpedSolid(prefix);
  }

  /** A mine lands only on a cell with nothing solid in it, so never on the
      cell of a freshly spawned player, which stays last in its cell. */
  lemma MinesKeepSpawnedAt(world: World, loc: Coord, player: Entity, m1: Coord, m2: Coord, e1: Entity, e2: Entity)
    requires SpawnedAt(world, loc, player) && player.obj.kind == Player
    requires m1 in Unblocked(world) && m2 in Unblocked(world)
    ensures SpawnedAt(world[m1 := world[m1] + [e1]][m2 := world[m2] + [e2]], loc, player)
  {
    assert world[loc][|world[loc]| - 1].obj.kind in SolidObjects;
    assert Solid(world[loc]);
  }

  /** The loops of `find_objs`: cells in `order`, objects in list order. */
  method CollectMatches(world: World, order: seq<Coord>, kinds: set<Kind>) returns (found: seq<(Coord, Entity)>)
    requires Elems(order) <= world.Keys
    ensures found == Matches(world, order, kinds)
  {
    found := [];
    var i := 0;
    while i < |order|
      invariant 0 <= i <= |order|
      invariant found == Matches(world, order[..i], kinds)
    {
      var c := order[i];
      assert c in Elems(order);
      var cell := world[c];
      ghost var before := found;
      var j := 0;
      while j < |cell|
        invariant 0 <= j <= |cell|
        invariant found == before + CellMatches(c, cell[..j], kinds)
      {
        assert cell[..j + 1][..j] == cell[..j];
        if cell[j].obj.kind in kinds {
          found := found + [(c, cell[j])];
        }
        j := j + 1;
      }
      assert cell[..j] == cell;
      assert order[..i + 1][..i] == order[..i];
      i := i + 1;
    }
    assert order[..i] == order;
  }


  /** The coordinate `FreeForAllGame._spawn_player` returns as written: its
      ammo loop reuses the name `coord`, so what comes back is the cell of
      the last player `find_objs` lists, not the new player's (`loc`). */
  function FreeForAllReturnedCoord(world: World, order: seq<Coord>, loc: Coord): (r: Coord)
    ensures Matches(world, order, {Player}) != [] ==>
      r == Matches(world, order, {Player})[|Matches(world, order, {Player})| - 1].0
  {
    var players := Matches(world, order, {Player});
    if players == [] then loc else players[|players| - 1].0
  }

  /** With a second player in a cell the world lists after the spawn cell,
      the free-for-all spawn reports that player's cell as the new player's. */
  lemma FreeForAllReturnsOtherCell()
    ensures var p0, p1 := Entity(Obj(Player, map[]), 0), Entity(Obj(Player, map[]), 1);
            var w := map[(0, 0) := [p0], (1, 0) := [p1]];
            SpawnedAt(w, (0, 0), p0) && FreeForAllReturnedCoord(w, [(0, 0), (1, 0)], (0, 0)) == (1, 0)
  {
    var p0, p1 := Entity(Obj(Player, map[]), 0), Entity(Obj(Player, map[]), 1);
    var w := map[(0, 0) := [p0], (1, 0) := [p1]];
    assert CellMatches((1, 0), w[(1, 0)], {Player}) == [((1, 0), p1)] by {
      assert w[(1, 0)][..0] == [];
    }
    assert [(0, 0), (1, 0)][..1] == [(0, 0)];
  }

  // ---- what a turn reports ----

  /** A listing of a set in some iteration order, each element once. */
  method Enumerate(s: set<Coord>) returns (q: seq<Coord>)
    ensures Elems(q) == s && Distinct(q)
  {
    q := [];
    var rest := s;
    while rest != {}
      invariant Elems(q) + rest == s && Elems(q) !! rest && Distinct(q)
      decreases rest
    {
      var c :| c in rest;
      q := q + [c];
      rest := rest - {c};
    }
  }

  /** Vision packets addressed to one player, in order. */
  function Addressed(pid: int, ps: seq<Packet>): (r: seq<Out>)
    ensures |r| == |ps| && forall k :: 0 <= k < |r| ==> r[k] == Out(pid, Vision(ps[k]))
  {
    seq(|ps|, k requires 0 <= k < |ps| => Out(pid, Vision(ps[k])))
  }

  /** The dirty cells `_flush_dirty` passes on for a player: the player's
      whole vision where the player (or, by option, everyone) is marked dirty,
      the dirty cells otherwise. */
  function DirtyFor(cfg: Config, s: GameState, pid: int, visible: set<Coord>): set<Coord>
  {
    if cfg.alwaysDirty || pid in s.dirtyPlayers then visible else s.dirtyCoords
  }

  // ---- shared vision in a team game ----

  /** A player's facing as the constant a vision function is given; None
      where the `direction` key is missing or holds no constant. */
  function Facing(o: Obj): (r: Option<Const>)
    ensures r.Some? ==> Get(o.attrs, "direction") == Some(ValOf(r.value))
  {
    match Get(o.attrs, "direction")
    case Some(IntV(n)) => Some(NumC(n))
    case Some(ConstV(c)) => if c.NumC? then None else Some(c)
    case _ => None
  }

  /** The players whose vision `TeamGame._determine_can_see` adds, as written:
      every other joined player found on the map, whatever its team, in
      `players` order; None where `_find_player` raises KeyError. */
  function SharersAsWritten(world: World, order: seq<Coord>, players: seq<int>, me: Val): (r: Option<seq<(Coord, Entity)>>)
    ensures r.Some? ==> forall k :: 0 <= k < |r.value| ==>
      PlayerIdOf(r.value[k].1.obj).Some? && IntV(PlayerIdOf(r.value[k].1.obj).value) != me
      && PlayerIdOf(r.value[k].1.obj).value in players
    decreases |players|
  {
    if players == [] then Some([])
    else
      var init := players[..|players| - 1];
      var before := SharersAsWritten(world, order, init, me);
      var pid := players[|players| - 1];
      if before.None? then None
      else if IntV(pid) == me then before
      else match FindPlayerIn(world, order, pid)
        case NoPlayerId => None
        case NotFound => before
        case Found(c, e) => Some(before.value + [(c, e)])
  }

  /** The same loop as its comment means it ("you share vision with your
      teammates"): only the players of the viewer's `team` share. */
  function Teammates(world: World, order: seq<Coord>, players: seq<int>, me: Val, team: Val): (r: Option<seq<(Coord, Entity)>>)
    decreases |players|
  {
    if players == [] then Some([])
    else
      var init := players[..|players| - 1];
      var before := Teammates(world, order, init, me, team);
      var pid := players[|players| - 1];
      if before.None? then None
      else if IntV(pid) == me then before
      else match FindPlayerIn(world, order, pid)
        case NoPlayerId => None
        case NotFound => before
        case Found(c, e) => if Get(e.obj.attrs, "team") == Some(team) then Some(before.value + [(c, e)]) else before
  }

  /** The teammates are exactly the players the written loop adds that are on
      the viewer's team, and both raise in the same cases. */
  lemma {:induction false} TeammatesFilter(world: World, order: seq<Coord>, players: seq<int>, me: Val, team: Val)
    ensures Teammates(world, order, players, me, team).Some? <==> SharersAsWritten(world, order, players, me).Some?
    ensures Teammates(world, order, players, me, team).Some? ==>
      forall x :: x in Teammates(world, order, players, me, team).value <==>
        x in SharersAsWritten(world, order, players, me).value && Get(x.1.obj.attrs, "team") == Some(team)
    decreases |players|
  {
    if players != [] {
      var init, pid := players[..|players| - 1], players[|players| - 1];
      TeammatesFilter(world, order, init, me, team);
      var t, w := Teammates(world, order, init, me, team), SharersAsWritten(world, order, init, me);
      if t.Some? && IntV(pid) != me {
        match FindPlayerIn(world, order, pid)
        case NoPlayerId =>
        case NotFound =>
        case Found(c, e) =>
          assert SharersAsWritten(world, order, players, me) == Some(w.value + [(c, e)]);
          assert forall x :: x in w.value + [(c, e)] <==> x in w.value || x == (c, e);
          if Get(e.obj.attrs, "team") == Some(team) {
            assert Teammates(world, order, players, me, team) == Some(t.value + [(c, e)]);
            assert forall x :: x in t.value + [(c, e)] <==> x in t.value || x == (c, e);
          }
      }
    }
  }

  /** Two players of different teams: the written loop gives the viewer the
      enemy's vision, the intended one does not. */
  lemma EnemySharesVision()
    ensures var me := Entity(Obj(Player, map["player_id" := IntV(1), "team" := IntV(0)]), 0);
            var enemy := Entity(Obj(Player, map["player_id" := IntV(2), "team" := IntV(1)]), 1);
            var world := map[(0, 0) := [me], (1, 0) := [enemy]];
            SharersAsWritten(world, [(0, 0), (1, 0)], [1, 2], IntV(1)) == Some([((1, 0), enemy)])
            && Teammates(world, [(0, 0), (1, 0)], [1, 2], IntV(1), IntV(0)) == Some([])
  {
    var me := Entity(Obj(Player, map["player_id" := IntV(1), "team" := IntV(0)]), 0);
    var enemy := Entity(Obj(Player, map["player_id" := IntV(2), "team" := IntV(1)]), 1);
    var world := map[(0, 0) := [me], (1, 0) := [enemy]];
    var order := [(0, 0), (1, 0)];
    assert [me][..0] == [] && [enemy][..0] == [];
    assert CellMatches((0, 0), [me], {Player}) == [((0, 0), me)];
    assert CellMatches((1, 0), [enemy], {Player}) == [((1, 0), enemy)];
    assert order[..1] == [(0, 0)] && order[..1][..0] == order[..0];
    assert Matches(world, order[..1], {Player}) == [((0, 0), me)];
    var found := Matches(world, order, {Player});
    assert found == [((0, 0), me), ((1, 0), enemy)];
    assert found[1..] == [((1, 0), enemy)];
    assert FindIn(found[1..], 2) == Found((1, 0), enemy);
    assert FindPlayerIn(world, order, 2) == Found((1, 0), enemy);
    assert [1, 2][..1] == [1] && [1][..0] == [];
  }

  /** The union of a list of sets. */
  function UnionOf(views: seq<set<Coord>>): (r: set<Coord>)
    decreases |views|
  {
    if views == [] then {} else UnionOf(views[..|views| - 1]) + views[|views| - 1]
  }

  /** Every listed set lies in the union, and the union holds nothing else. */
  lemma {:induction false} UnionOfMembers(views: seq<set<Coord>>, c: Coord)
    ensures c in UnionOf(views) <==> exists k :: 0 <= k < |views| && c in views[k]
    decreases |views|
  {
    if views != [] {
      var init := views[..|views| - 1];
      UnionOfMembers(init, c);
      if c in UnionOf(init) {
        var k :| 0 <= k < |init| && c in init[k];
        assert views[k] == init[k];
      }
      if exists k :: 0 <= k < |views| && c in views[k] {
        var k :| 0 <= k < |views| && c in views[k];
        if k < |init| {
          assert init[k] == views[k];
        }
      }
    }
  }

  // ---- joining ----

  /** The JOINED packets of `player_join`, in `players` order: every player
      hears of the newcomer; the newcomer hears, marked historical, of every
      other player under the name in that player's attribute dict (None where
      that lookup raises KeyError). */
  function JoinedMsgs(gameId: int, pid: int, name: Val, players: seq<int>, playerAttr: map<int, Attrs>): (r: Option<seq<Out>>)
    decreases |players|
  {
    if players == [] then Some([])
    else
      var before := JoinedMsgs(gameId, pid, name, players[..|players| - 1], playerAttr);
      var other := players[|players| - 1];
      var told := Out(other, Joined(gameId, pid, name, false));
      if before.None? then None
      else if other == pid then Some(before.value + [told])
      else if other !in playerAttr || "name" !in playerAttr[other] then None
      else Some(before.value + [told, Out(pid, Joined(gameId, other, playerAttr[other]["name"], true))])
  }

  /** When every player has a name, each of them hears of the newcomer once,
      the newcomer hears of each other player once, and nothing else is sent. */
  lemma {:induction false} JoinedAnnounced(gameId: int, pid: int, name: Val, players: seq<int>, playerAttr: map<int, Attrs>)
    requires Distinct(players)
    requires forall p :: p in players && p != pid ==> p in playerAttr && "name" in playerAttr[p]
    ensures JoinedMsgs(gameId, pid, name, players, playerAttr).Some?
    ensures |JoinedMsgs(gameId, pid, name, players, playerAttr).value| == 2 * |players| - (if pid in players then 1 else 0)
    ensures forall p :: p in players ==> Out(p, Joined(gameId, pid, name, false)) in JoinedMsgs(gameId, pid, name, players, playerAttr).value
    ensures forall p :: p in players && p != pid ==>
      Out(pid, Joined(gameId, p, playerAttr[p]["name"], true)) in JoinedMsgs(gameId, pid, name, players, playerAttr).value
    decreases |players|
  {
    if players != [] {
      var init := players[..|players| - 1];
      var last := players[|players| - 1];
      assert Distinct(init);
      assert last !in init;
      assert forall p :: p in players ==> p in init || p == last;
      JoinedAnnounced(gameId, pid, name, init, playerAttr);
    }
  }

  // ---- consistency of the bookkeeping ----

  /** The state after `_update_known_world` for a player who sees `visible`. */
  function Remembered(cfg: Config, s: GameState, pid: int, visible: set<Coord>): GameState
    requires visible <= s.world.Keys && s.dirtyCoords <= s.world.Keys && pid in s.knownWorlds
  {
    s.(knownWorlds := s.knownWorlds[pid := RememberedBy(cfg, s, pid, visible)])
  }

  /** The player's remembered world in that state. */
  function RememberedBy(cfg: Config, s: GameState, pid: int, visible: set<Coord>): Known
    requires visible <= s.world.Keys && s.dirtyCoords <= s.world.Keys && pid in s.knownWorlds
  {
    Sync.UpdatedKnown(s.knownWorlds[pid], s.world, visible, DirtyFor(cfg, s, pid, visible))
  }

  /** The cells that update reports as changed. */
  function Changed(cfg: Config, s: GameState, pid: int, visible: set<Coord>): set<Coord>
    requires visible <= s.world.Keys && s.dirtyCoords <= s.world.Keys && pid in s.knownWorlds
  {
    Sync.ChangedCoords(s.knownWorlds[pid], s.world, visible, DirtyFor(cfg, s, pid, visible))
  }

  /** A joined player has a remembered world and an attribute dict. */
  lemma JoinedKnown(s: GameState, cells: set<Coord>, p: int)
    requires Consistent(s, cells) && p in s.players
    ensures p in s.knownWorlds && p in s.playerAttr && s.knownWorlds[p].Keys <= cells
  {
  }

  /** A player's remembered world replaced by one within the world. */
  lemma RememberedConsistent(s: GameState, cells: set<Coord>, pid: int, k: Known)
    requires Consistent(s, cells) && pid in s.knownWorlds && k.Keys <= cells
    ensures Consistent(s.(knownWorlds := s.knownWorlds[pid := k]), cells)
  {
  }

  /** The state once a new player id is registered by `player_join`. */
  function Registered(s: GameState, pid: int): GameState
  {
    s.(players := s.players + [pid], knownWorlds := s.knownWorlds[pid := map[]], playerAttr := s.playerAttr[pid := map[]])
  }

  lemma RegisteredConsistent(s: GameState, cells: set<Coord>, pid: int)
    requires Consistent(s, cells) && pid !in s.players
    ensures Consistent(Registered(s, pid), cells)
  {
    var ps := s.players + [pid];
    forall a, b | 0 <= a < b < |ps| ensures ps[a] != ps[b] {
      if b == |s.players| {
        assert ps[a] in s.players;
      }
    }
  }

  /** The state once `player_leave` has dropped a player's bookkeeping. */
  function Unregistered(s: GameState, pid: int): GameState
  {
    s.(players := RemoveFirst(s.players, pid), knownWorlds := s.knownWorlds - {pid}, playerAttr := s.playerAttr - {pid})
  }

  lemma UnregisteredConsistent(s: GameState, cells: set<Coord>, pid: int)
    requires Consistent(s, cells)
    ensures Consistent(Unregistered(s, pid), cells)
  {
  }

  /** The remembered worlds `_flush_dirty` leaves once it has handled
      `players` in order: each of them found on the map (those in `views`)
      has its remembered world updated with the cells it saw. */
  ghost function FlushedWorlds(cfg: Config, s0: GameState, players: seq<int>, views: map<int, set<Coord>>): (r: map<int, Known>)
    requires s0.dirtyCoords <= s0.world.Keys
    requires forall p :: p in views ==> views[p] <= s0.world.Keys
    requires forall q :: q in players ==> q in s0.knownWorlds
    ensures r.Keys == s0.knownWorlds.Keys
    decreases |players|
  {
    if players == [] then s0.knownWorlds
    else
      var pid := players[|players| - 1];
      var before := FlushedWorlds(cfg, s0, players[..|players| - 1], views);
      if pid in views then before[pid := RememberedBy(cfg, s0, pid, views[pid])] else before
  }

  /** Player by player: a handled player in `views` remembers what
      RememberedBy gives for the cells it saw, from its remembered world
      before the flush; every other remembered world is unchanged. */
  lemma {:induction false} FlushedWorldsAt(cfg: Config, s0: GameState, players: seq<int>, views: map<int, set<Coord>>, p: int)
    requires s0.dirtyCoords <= s0.world.Keys
    requires forall q :: q in views ==> views[q] <= s0.world.Keys
    requires forall q :: q in players ==> q in s0.knownWorlds
    requires Distinct(players) && p in s0.knownWorlds
    ensures FlushedWorlds(cfg, s0, players, views)[p] ==
      if p in players && p in views then RememberedBy(cfg, s0, p, views[p]) else s0.knownWorlds[p]
    decreases |players|
  {
    if players != [] {
      var n := |players| - 1;
      var init := players[..n];
      assert forall k :: 0 <= k < n ==> init[k] == players[k];
      assert players == init + [players[n]];
      FlushedWorldsAt(cfg, s0, init, views, p);
      if p == players[n] {
        assert p !in init;
      }
    }
  }

  /** Handling the next player in `_flush_dirty`: its remembered world is
      still the one it had before the flush; recording what it saw updates
      that world alone, and a player not on the map leaves them all as they
      were. */
  lemma FlushedNext(cfg: Config, s0: GameState, players: seq<int>, i: nat, views: map<int, set<Coord>>, v: set<Coord>)
    requires s0.dirtyCoords <= s0.world.Keys && v <= s0.world.Keys
    requires forall q :: q in views ==> views[q] <= s0.world.Keys
    requires forall q :: q in players ==> q in s0.knownWorlds
    requires Distinct(players) && i < |players|
    requires forall q :: q in views ==> q in players[..i]
    ensures players[i] in s0.knownWorlds && FlushedWorlds(cfg, s0, players[..i], views)[players[i]] == s0.knownWorlds[players[i]]
    ensures FlushedWorlds(cfg, s0, players[..i + 1], views) == FlushedWorlds(cfg, s0, players[..i], views)
    ensures FlushedWorlds(cfg, s0, players[..i + 1], views[players[i] := v]) ==
      FlushedWorlds(cfg, s0, players[..i], views)[players[i] := RememberedBy(cfg, s0, players[i], v)]
  {
    var pid := players[i];
    var init := players[..i];
    assert players[..i + 1][..i] == init;
    assert pid !in init;
    FlushedWorldsAt(cfg, s0, init, views, pid);
    FlushedWorldsFrame(cfg, s0, init, views, pid, v);
  }

  /** What a player not among `players` saw does not matter to them. */
  lemma {:induction false} FlushedWorldsFrame(cfg: Config, s0: GameState, players: seq<int>, views: map<int, set<Coord>>, pid: int, v: set<Coord>)
    requires s0.dirtyCoords <= s0.world.Keys && v <= s0.world.Keys
    requires forall q :: q in views ==> views[q] <= s0.world.Keys
    requires forall q :: q in players ==> q in s0.knownWorlds
    requires pid !in players
    ensures FlushedWorlds(cfg, s0, players, views[pid := v]) == FlushedWorlds(cfg, s0, players, views)
    decreases |players|
  {
    if players != [] {
      var n := |players| - 1;
      assert players[..n] + [players[n]] == players;
      FlushedWorldsFrame(cfg, s0, players[..n], views, pid, v);
    }
  }

  /** How far `_flush_dirty` has got from `s0` to `st`: players[..i] are
      handled, `views` holds what those found on the map saw, and only
      remembered worlds have changed, as FlushedWorlds says. */
  ghost predicate FlushedUpTo(cfg: Config, order: seq<Coord>, s0: GameState, st: GameState,
                              players: seq<int>, i: nat, views: map<int, set<Coord>>)
  {
    SeenUpTo(order, s0, players, i, views)
    && st == s0.(knownWorlds := st.knownWorlds)
    && st.knownWorlds == FlushedWorlds(cfg, s0, players[..i], views)
  }

  /** `views` holds what the players among players[..i] found on the map saw. */
  ghost predicate SeenUpTo(order: seq<Coord>, s0: GameState, players: seq<int>, i: nat, views: map<int, set<Coord>>)
  {
    i <= |players| && s0.dirtyCoords <= s0.world.Keys
    && (forall q :: q in players ==> q in s0.knownWorlds)
    && (forall p :: p in views ==> views[p] <= s0.world.Keys && p in players[..i])
    && (forall k :: 0 <= k < i ==> (players[k] in views <==> FindPlayerIn(s0.world, order, players[k]).Found?))
  }

  lemma SeenNext(order: seq<Coord>, s0: GameState, players: seq<int>, i: nat, views: map<int, set<Coord>>, seen: set<Coord>)
    requires SeenUpTo(order, s0, players, i, views) && i < |players|
    requires FindPlayerIn(s0.world, order, players[i]).Found? ==> seen <= s0.world.Keys
    ensures FindPlayerIn(s0.world, order, players[i]).Found? ==> SeenUpTo(order, s0, players, i + 1, views[players[i] := seen])
    ensures !FindPlayerIn(s0.world, order, players[i]).Found? ==> SeenUpTo(order, s0, players, i + 1, views)
  {
    assert forall k :: 0 <= k < i ==> players[..i + 1][k] == players[..i][k];
  }

  /** FlushPlayer on players[i] keeps FlushedUpTo: a player not on the map
      changes nothing, and one on the map has its remembered world updated
      with the cells it saw. */
  lemma FlushedUpToNext(cfg: Config, order: seq<Coord>, s0: GameState, st: GameState, st': GameState,
                        players: seq<int>, i: nat, views: map<int, set<Coord>>, seen: set<Coord>)
    returns (views': map<int, set<Coord>>)
    requires FlushedUpTo(cfg, order, s0, st, players, i, views) && i < |players| && Distinct(players)
    requires FindPlayerIn(s0.world, order, players[i]).NotFound? ==> st' == st
    requires FindPlayerIn(s0.world, order, players[i]).Found? ==>
      seen <= s0.world.Keys && players[i] in st.knownWorlds && st' == Remembered(cfg, st, players[i], seen)
    requires FindPlayerIn(s0.world, order, players[i]).NoPlayerId? ==> false
    ensures FlushedUpTo(cfg, order, s0, st', players, i + 1, views')
  {
    var pid := players[i];
    SeenNext(order, s0, players, i, views, seen);
    if FindPlayerIn(s0.world, order, pid).Found? {
      FlushedNext(cfg, s0, players, i, views, seen);
      RememberedAt(cfg, s0, st, pid, seen);
      views' := views[pid := seen];
    } else {
      FlushedNext(cfg, s0, players, i, views, {});
      views' := views;
    }
  }

  /** Before the first player nothing is handled. */
  lemma FlushedStart(cfg: Config, order: seq<Coord>, s0: GameState, players: seq<int>)
    requires s0.dirtyCoords <= s0.world.Keys && forall q :: q in players ==> q in s0.knownWorlds
    ensures FlushedUpTo(cfg, order, s0, s0, players, 0, map[])
  {
  }

  /** After the last player every player found on the map is in `views`. */
  lemma FlushedDone(cfg: Config, order: seq<Coord>, s0: GameState, st: GameState, players: seq<int>, views: map<int, set<Coord>>)
    requires FlushedUpTo(cfg, order, s0, st, players, |players|, views)
    ensures forall p :: p in views <==> p in players && FindPlayerIn(s0.world, order, p).Found?
    ensures forall p :: p in views ==> views[p] <= s0.world.Keys
    ensures st == s0.(knownWorlds := st.knownWorlds) && st.knownWorlds == FlushedWorlds(cfg, s0, players, views)
  {
    assert players[..|players|] == players;
    forall p | p in players && FindPlayerIn(s0.world, order, p).Found? ensures p in views {
      var k :| 0 <= k < |players| && players[k] == p;
    }
  }

  /** FlushPlayer's update of a state that differs from `s0` only in the
      remembered worlds of players not handled yet. */
  lemma RememberedAt(cfg: Config, s0: GameState, st: GameState, pid: int, v: set<Coord>)
    requires st == s0.(knownWorlds := st.knownWorlds) && pid in st.knownWorlds && pid in s0.knownWorlds
    requires st.knownWorlds[pid] == s0.knownWorlds[pid] && v <= s0.world.Keys && s0.dirtyCoords <= s0.world.Keys
    ensures Remembered(cfg, st, pid, v) == s0.(knownWorlds := st.knownWorlds[pid := RememberedBy(cfg, s0, pid, v)])
  {
  }

  // ---- what the three player actions do ----

  /** `_look(player, location, arg)` from `s` to `s2`: the player now faces
      `arg`; its cell and the player are marked dirty. An object without a
      player id raises after its facing has changed. */
  predicate Looked(s: GameState, s2: GameState, loc: Coord, player: Entity, arg: Const, ok: bool)
  {
    (ok <==> PlayerIdOf(player.obj).Some?)
    && s2.world == Updated(s.world, player.oid, Faced(player.obj, arg))
    && (!ok ==> s2 == s.(world := s2.world))
    && (ok ==> s2 == s.(world := s2.world,
                        dirtyCoords := s.dirtyCoords + {loc},
                        dirtyPlayers := s.dirtyPlayers + {PlayerIdOf(player.obj).value}))
  }

  /** `_fire(player, location, arg)` from `s` to `s2`: the shooter pays for
      the shot (see ShotFor and ShotPaid) and the bullet, owned by the
      shooter and travelling the way the shooter faces, is appended to the
      shooter's cell. A shot the ammo cannot pay fires nothing and changes
      nothing. */
  predicate ShotTaken(cfg: Config, s: GameState, s2: GameState, loc: Coord, player: Entity, arg: Const, ok: bool)
    requires loc in s.world && (arg.NumC? ==> arg.n >= 1)
  {
    var facing, owner, ammo :=
      Get(player.obj.attrs, "direction"), Get(player.obj.attrs, "player_id"), IntAttr(player.obj.attrs, "ammo");
    if facing.None? || owner.None? || ammo.None? then !ok && s2 == s
    else match ShotFor(cfg, arg, ammo.value)
      case Raises => !ok && s2 == s
      case Nothing => ok && s2 == s
      case Fired(kind, cost, size) =>
        var paid := s.(world := Updated(s.world, player.oid, Spent(player.obj, ammo.value, cost)));
        (ok <==> DirOfVal(facing.value).Some?)
        && s2 == if ok then Placed(paid, loc, Obj(kind, BulletAttrs(owner.value, facing.value, size))) else paid
  }

  /** `_move(player, location, arg)` from `s` to `s2`: the player leaves its
      cell and steps the way `arg` names. A step off the world or into a cell
      holding something solid is blocked: the player goes back to the end of
      its own cell and stabs the players of the blocking cell. A free step
      puts the player at the end of the new cell, marks both cells and the
      player dirty, and sets off the mines there (MoveInto). An `arg` that is
      not a direction raises after the player has left its cell. */
  ghost predicate Moved(cfg: Config, mode: Mode, order: seq<Coord>, s: GameState, s2: GameState, loc: Coord, player: Entity, arg: Const, ok: bool)
    requires loc in s.world
  {
    (Remove(s.world[loc], player.obj).None? ==> !ok && s2 == s)
    && (Remove(s.world[loc], player.obj).Some? ==>
      var left := s.(world := s.world[loc := Remove(s.world[loc], player.obj).value]);
      if !arg.DirC? then !ok && s2 == left
      else Stepped(cfg, mode, order, left, s2, loc, Step(loc, arg.dir), player, ok))
  }

  /** The step of `_move` from `s`, where the player has already left `loc`,
      towards `target` (see Moved). */
  ghost predicate Stepped(cfg: Config, mode: Mode, order: seq<Coord>, s: GameState, s2: GameState, loc: Coord, target: Coord, player: Entity, ok: bool)
    requires loc in s.world
  {
    if target !in s.world || Solid(s.world[target]) then
      var back := s.(world := s.world[loc := s.world[loc] + [player]]);
      (target !in s.world || NoPlayers(s.world[target]) ==> ok && s2 == back)
      && (ok && target in s.world && !NoPlayers(s.world[target]) ==>
            target in s2.dirtyCoords && Get(player.obj.attrs, "player_id").Some?
            && HitTurns(cfg, mode, order, target, PlayersIn(s.world[target]), cfg.stabDamage,
                        cfg.damageStab, Get(player.obj.attrs, "player_id").value, back, s2))
    else
      ok ==> PlayerIdOf(player.obj).Some? && WorldMoves(s, s2)
             && MinesSetOff(Entered(s, loc, target, player, PlayerIdOf(player.obj).value), s2, target, player.oid, player.obj)
             && target in s2.world && HoldsPlayer(s2.world[target], player.oid)
             && Mines(s2.world[target]) == 0
             && {loc, target} <= s2.dirtyCoords
             && PlayerIdOf(player.obj).value in s2.dirtyPlayers
  }

  /** Where the step of `_move` from `s` raises: a blocked step whose
      stabbing raises (the mover has no id, or HitHalts from the state with
      the mover back), or a free step of a mover without an id or a facing,
      or into a cell holding a mine (where a mine of `_move_into` raises). */
  ghost predicate StepRaises(cfg: Config, mode: Mode, order: seq<Coord>, s: GameState, loc: Coord, target: Coord, player: Entity)
    requires loc in s.world
  {
    if target !in s.world || Solid(s.world[target]) then
      target in s.world && !NoPlayers(s.world[target])
      && (Get(player.obj.attrs, "player_id").None?
          || HitHalts(cfg, mode, order, target, PlayersIn(s.world[target]), cfg.stabDamage, cfg.damageStab,
                      Get(player.obj.attrs, "player_id").value, s.(world := s.world[loc := s.world[loc] + [player]])))
    else
      PlayerIdOf(player.obj).None? || Get(player.obj.attrs, "direction").None? || Mines(s.world[target]) > 0
  }

  // ---- what the entry points return ----

  /** `_event_check` then `_flush_dirty` from `s` to `s2`: first the event
      messages (EventMsgs), then vision updates for joined players; the event
      queue and both dirty sets end empty, and the remembered worlds are what
      FlushedWorlds gives for the cells each player on the map saw (`views`;
      when nothing was dirty, nothing is flushed). */
  ghost predicate Reported(cfg: Config, gameId: int, order: seq<Coord>, s: GameState, s2: GameState,
                           out: seq<Out>, views: map<int, set<Coord>>)
  {
    var told, s1 := EventMsgs(cfg, gameId, s.events), s.(events := []);
    |told| <= |out| && out[..|told|] == told
    && (forall o :: o in out[|told|..] ==> o.to in s.players && o.msg.Vision?)
    && s2 == s1.(knownWorlds := s2.knownWorlds, dirtyCoords := {}, dirtyPlayers := {})
    && if s.dirtyCoords == {} && s.dirtyPlayers == {} then out == told && s2.knownWorlds == s.knownWorlds
       else
         (forall p :: p in views <==> p in s.players && FindPlayerIn(s.world, order, p).Found?)
         && s1.dirtyCoords <= s1.world.Keys && (forall q :: q in s1.players ==> q in s1.knownWorlds)
         && (forall p :: p in views ==> views[p] <= s1.world.Keys)
         && s2.knownWorlds == FlushedWorlds(cfg, s1, s1.players, views)
  }

  /** `player_action(pid, action, argument)` from `s` to `s2`. Both numbers
      must be table positions and the player must be on the map, and the
      action must be one of the three commands, or it raises with nothing
      changed; otherwise the command's handler runs from `s` to `acted`
      (`handled` when it did not raise), then the events and the dirty cells
      are reported (Reported). */
  ghost predicate Acted(cfg: Config, mode: Mode, gameId: int, order: seq<Coord>, s: GameState, s2: GameState,
                        pid: int, action: int, argument: int,
                        ok: bool, out: seq<Out>, acted: GameState, handled: bool, views: map<int, set<Coord>>)
  {
    var cmd, arg, f := FromNumerical(action), FromNumerical(argument), FindPlayerIn(s.world, order, pid);
    if cmd.None? || arg.None? || !f.Found? || !cmd.value.CmdC? then !ok && s2 == s
    else
      f.coord in s.world
      && (match cmd.value.cmd
          case Look => Looked(s, acted, f.coord, f.player, arg.value, handled)
          case Move => Moved(cfg, mode, order, s, acted, f.coord, f.player, arg.value, handled)
          case Fire => ShotTaken(cfg, s, acted, f.coord, f.player, arg.value, handled))
      && (!handled ==> !ok && s2 == acted)
      && (ok ==> handled && Reported(cfg, gameId, order, acted, s2, out, views))
  }

  /** The name `player_join` gives a player: "Unnamed" for a missing or empty one. */
  function JoinName(name: Option<string>): (r: string)
    ensures r != ""
    ensures name.Some? && name.value != "" ==> r == name.value
  {
    if name.None? || name.value == "" then "Unnamed" else name.value
  }

  /** The team `player_join` gives a player: 0 for a missing one. */
  function JoinTeam(team: Option<Val>): Val
  {
    if team.None? then IntV(0) else team.value
  }

  /** The player object once `player_join` has set its `name` and `team`. */
  function Named(o: Obj, name: string, team: Val): Obj
  {
    Obj(o.kind, o.attrs["name" := StrV(name)]["team" := team])
  }

  /** An object updated in place stays the last of its cell. */
  lemma UpdatedLast(world: World, loc: Coord, e: Entity, o: Obj)
    requires LastIn(world, loc, e)
    ensures LastIn(Updated(world, e.oid, o), loc, Entity(o, e.oid))
  {
    assert Updated(world, e.oid, o)[loc] == SetObj(world[loc], e.oid, o);
  }

  /** Once a prefix of the players makes `player_join` raise, the whole
      list does. */
  lemma {:induction false} JoinedStaysNone(gameId: int, pid: int, name: Val, players: seq<int>, playerAttr: map<int, Attrs>, k: nat)
    requires k <= |players| && JoinedMsgs(gameId, pid, name, players[..k], playerAttr).None?
    ensures JoinedMsgs(gameId, pid, name, players, playerAttr).None?
    decreases |players| - k
  {
    if k < |players| {
      assert players[..k + 1][..k] == players[..k];
      JoinedStaysNone(gameId, pid, name, players, playerAttr, k + 1);
    } else {
      assert players[..k] == players;
    }
  }

  /** The state `player_join` has made before it announces: `pid` is
      registered (Registered) and spawned at `at` (Spawned), then the new
      player takes the given name and team (JoinNamed); JoinedFacts spells out
      what that leaves. */
  ghost predicate Enrolled(mode: Mode, order: seq<Coord>, s: GameState, s2: GameState, pid: int,
                           name: Option<string>, team: Option<Val>, at: Coord)
  {
    (exists mid, player :: Spawned(mode, order, Registered(s, pid), mid, pid, at, player)
                           && s2 == JoinNamed(mid, pid, player, name, team))
    && JoinedFacts(mode, s, s2, pid, name, team, at)
  }

  /** The new player takes the name ("Unnamed" when none is given) and team
      (0 when none is given), in place and in `playerAttr`, and the scores
      are due. */
  function JoinNamed(mid: GameState, pid: int, player: Entity, name: Option<string>, team: Option<Val>): GameState
  {
    var nm, tm := JoinName(name), JoinTeam(team);
    mid.(world := Updated(mid.world, player.oid, Named(player.obj, nm, tm)),
         playerAttr := mid.playerAttr[pid := map["name" := StrV(nm), "team" := tm]],
         updateScores := true)
  }

  /** What an enrolment leaves: `pid` joins the players with an empty
      remembered world and its name and team, the scores are due, and the
      named new player is the last object of the cell `at`. */
  ghost predicate JoinedFacts(mode: Mode, s: GameState, s2: GameState, pid: int, name: Option<string>, team: Option<Val>, at: Coord)
  {
    var nm, tm := JoinName(name), JoinTeam(team);
    s2.players == s.players + [pid]
    && s2.playerAttr == s.playerAttr[pid := map["name" := StrV(nm), "team" := tm]]
    && s2.knownWorlds == s.knownWorlds[pid := map[]]
    && s2.updateScores
    && exists d :: d in Directions &&
         LastIn(s2.world, at, Entity(Named(Obj(Player, SpawnAttrs(mode, pid, d)), nm, tm), s.nextOid))
  }

  /** The state once `player_leave` has taken `pid` off the map and dropped
      its bookkeeping. */
  function Dropped(s: GameState, order: seq<Coord>, pid: int): GameState
  {
    Unregistered(s.(world := WithoutPlayer(s.world, order, pid),
                    dirtyCoords := s.dirtyCoords + Vacated(s.world, order, pid)), pid)
  }

  /** Registering, spawning, then naming the new player makes Enrolled hold. */
  lemma EnrolledBy(mode: Mode, order: seq<Coord>, s: GameState, s1: GameState, s2: GameState, pid: int,
                   name: Option<string>, team: Option<Val>, loc: Coord, player: Entity, d: Dir)
    requires Spawned(mode, order, Registered(s, pid), s1, pid, loc, player)
    requires SpawnedAt(s1.world, loc, player) && player.oid == s.nextOid
    requires d in Directions && player.obj == Obj(Player, SpawnAttrs(mode, pid, d))
    requires s2 == JoinNamed(s1, pid, player, name, team)
    ensures Enrolled(mode, order, s, s2, pid, name, team, loc)
  {
    SpawnedMoves(mode, order, Registered(s, pid), s1, pid, loc, player);
    JoinedBy(mode, s, s1, s2, pid, name, team, loc, player, d);
  }

  /** Naming a player spawned after the registration leaves JoinedFacts. */
  lemma JoinedBy(mode: Mode, s: GameState, s1: GameState, s2: GameState, pid: int,
                 name: Option<string>, team: Option<Val>, loc: Coord, player: Entity, d: Dir)
    requires WorldMoves(Registered(s, pid), s1)
    requires SpawnedAt(s1.world, loc, player) && player.oid == s.nextOid
    requires d in Directions && player.obj == Obj(Player, SpawnAttrs(mode, pid, d))
    requires s2 == JoinNamed(s1, pid, player, name, team)
    ensures JoinedFacts(mode, s, s2, pid, name, team, loc)
  {
    UpdatedLast(s1.world, loc, player, Named(player.obj, JoinName(name), JoinTeam(team)));
  }


  // ---- the tick: catch-up timers ----

  /** The passes a catch-up loop `while t < 0: t += step` makes. */
  function Hops(t: int, step: int): nat
    requires step > 0
    decreases if t < 0 then -t else 0
  {
    if t >= 0 then 0 else 1 + Hops(t + step, step)
  }

  /** The time such a loop leaves behind. */
  function Settled(t: int, step: int): int
    requires step > 0
    decreases if t < 0 then -t else 0
  {
    if t >= 0 then t else Settled(t + step, step)
  }

  /** A catch-up loop adds one whole step per pass and stops as soon as the
      time is no longer negative: a time that was behind ends within one
      step above zero, a time that was not is left alone. */
  lemma {:induction false} SettledInRange(t: int, step: int)
    requires step > 0
    ensures Settled(t, step) == t + Hops(t, step) * step
    ensures t < 0 ==> 0 <= Settled(t, step) < step
    ensures t >= 0 <==> Hops(t, step) == 0
    decreases if t < 0 then -t else 0
  {
    if t < 0 {
      SettledInRange(t + step, step);
      assert (1 + Hops(t + step, step)) * step == step + Hops(t + step, step) * step;
    }
  }

  /** `DIFFS[object[1]['direction']]` as a direction; None where it raises. */
  function Heading(o: Obj): Option<Dir>
  {
    if "direction" in o.attrs then DirOfVal(o.attrs["direction"]) else None
  }

  /** The cell `k` steps from `c` in direction `d`. */
  function Along(c: Coord, d: Dir, k: nat): Coord
  {
    if k == 0 then c else Step(Along(c, d, k - 1), d)
  }

  /** A flying object after `object[1]['_time_remaining'] = t`. */
  function Timed(o: Obj, t: int): Obj
  {
    Obj(o.kind, o.attrs["_time_remaining" := IntV(t)])
  }

  /** `_time_remaining` after the defaulting to `speed` and the subtraction
      of the elapsed time; None where the subtraction would raise. */
  function StartTime(o: Obj, speed: int, ms: int): Option<int>
  {
    if "_time_remaining" in o.attrs then
      match AsInt(o.attrs["_time_remaining"])
      case None => None
      case Some(t) => Some(t - ms)
    else Some(speed - ms)
  }

  /** `BULLET_SPEEDS[attr['size']]`; None where the lookup raises. */
  function BulletSpeed(o: Obj): (r: Option<int>)
    ensures r.Some? ==> r.value > 0
  {
    match IntAttr(o.attrs, "size")
    case None => None
    case Some(s) => if s in BulletSpeeds then Some(BulletSpeeds[s]) else None
  }

  /** `SLIME_BULLET_SPEED[attr['size']]`; None where the lookup raises. */
  function SlimeBulletSpeed(cfg: Config, o: Obj): (r: Option<int>)
    requires WellFormed(cfg)
    ensures r.Some? ==> r.value > 0
  {
    match IntAttr(o.attrs, "size")
    case None => None
    case Some(s) => if s in cfg.slimeBulletSpeed then Some(cfg.slimeBulletSpeed[s]) else None
  }

  /** How a flight of one tick ends: still flying in a cell, gone off the
      edge of the world, or stopped in front of a solid cell. */
  datatype Flight = Flying(at: Coord) | Vanished(beyond: Coord) | Blocked(from: Coord, at: Coord)

  /** The flight loop of `_tick_bullets` and `_tick_slimes`, from `s` to
      `s2`, for the object `e` found in `coord` whose timer starts at `t0`.
      With no time owed the object only gets its timer. Otherwise it moves
      one cell per pass along its `direction`, leaving each cell it passes
      (and marking it dirty); it vanishes when the next cell is off the
      world and stops when the next cell holds something solid. A flight
      that ends in the air took every pass the timer owed, and the object
      is then the last of its new cell, its timer settled. */
  ghost predicate Flew(s: GameState, s2: GameState, coord: Coord, e: Entity, speed: int, t0: int,
                       fate: Flight, hops: nat)
    requires speed > 0
  {
    hops <= Hops(t0, speed)
    && (hops == 0 <==> t0 >= 0)
    && (hops == 0 ==> fate == Flying(coord) && s2 == s.(world := Updated(s.world, e.oid, Timed(e.obj, t0))))
    && (hops > 0 ==>
          Heading(e.obj).Some? &&
          var d := Heading(e.obj).value;
          coord in s2.dirtyCoords &&
          match fate
          case Flying(at) =>
            hops == Hops(t0, speed) && at == Along(coord, d, hops)
            && LastIn(s2.world, at, Entity(Timed(e.obj, Settled(t0, speed)), e.oid))
          case Vanished(beyond) => beyond == Along(coord, d, hops) && beyond !in s.world
          case Blocked(from, at) =>
            from == Along(coord, d, hops - 1) && at == Along(coord, d, hops)
            && from in s2.dirtyCoords && at in s2.world && Solid(s2.world[at]))
  }

  /** The flight so far, `hops` passes in: the object `e`, its timer at `t`,
      is the last of the cell `at`, reached along its heading `dir`; before
      the first pass it has only been given its timer. */
  ghost predicate Aloft(s: GameState, s2: GameState, coord: Coord, e: Entity, speed: int, t0: int,
                        t: int, at: Coord, dir: Dir, hops: nat)
    requires speed > 0
  {
    WorldMoves(s, s2) && Marks(s, s2) && s2.nextOid == s.nextOid
    && s2.world.Keys == s.world.Keys && at in s2.world
    && Hops(t, speed) + hops == Hops(t0, speed) && Settled(t, speed) == Settled(t0, speed)
    && (hops == 0 ==> at == coord && t == t0 && s2 == s.(world := Updated(s.world, e.oid, Timed(e.obj, t0))))
    && (hops > 0 ==>
          Heading(e.obj) == Some(dir) && at == Along(coord, dir, hops)
          && coord in s2.dirtyCoords && LastIn(s2.world, at, Entity(Timed(e.obj, t), e.oid)))
  }

  /** A flight whose timer is paid off has ended in the air. */
  lemma Landed(s: GameState, s2: GameState, coord: Coord, e: Entity, speed: int, t0: int,
               t: int, at: Coord, dir: Dir, hops: nat)
    requires speed > 0 && t >= 0 && Aloft(s, s2, coord, e, speed, t0, t, at, dir, hops)
    ensures Flew(s, s2, coord, e, speed, t0, Flying(at), hops)
  {
    SettledInRange(t0, speed);
  }

  lemma HeadingTimed(o: Obj, t: int)
    ensures Heading(Timed(o, t)) == Heading(o)
  {
  }

  /** The first half of a pass: the timer gains a step (in place, so every
      copy of the object shows it) and the object leaves the cell `at`; None
      where `list.remove` raises. */
  function Lift(world: World, at: Coord, e: Entity, t: int): (r: Option<World>)
    requires at in world
    ensures r.Some? ==> r.value.Keys == world.Keys
  {
    var w := Updated(world, e.oid, Timed(e.obj, t));
    match Remove(w[at], Timed(e.obj, t))
    case None => None
    case Some(rest) => Some(w[at := rest])
  }

  /** The second half: the object is appended to the cell `next`. */
  function Land(w: World, next: Coord, e: Entity, t: int): (r: World)
    requires next in w
    ensures r.Keys == w.Keys && LastIn(r, next, Entity(Timed(e.obj, t), e.oid))
  {
    w[next := w[next] + [Entity(Timed(e.obj, t), e.oid)]]
  }

  /** One pass of a catch-up loop: one hop fewer to go, the same end. */
  lemma HopOnce(t: int, t2: int, step: int)
    requires step > 0 && t < 0 && t2 == t + step
    ensures Hops(t, step) == 1 + Hops(t2, step) && Settled(t, step) == Settled(t2, step)
  {
  }

  /** A pass that lands in the cell ahead keeps the flight aloft. */
  lemma Landing(s: GameState, s2: GameState, s3: GameState, cells: set<Coord>, coord: Coord, e: Entity, speed: int,
                t0: int, t: int, t2: int, at: Coord, dir: Dir, hops: nat, h2: nat, d: Dir, w: World)
    requires Consistent(s2, cells)
    requires speed > 0 && t < 0 && t2 == t + speed && h2 == hops + 1 && Aloft(s, s2, coord, e, speed, t0, t, at, dir, hops)
    requires Heading(e.obj) == Some(d) && (hops > 0 ==> d == dir)
    requires w.Keys == s2.world.Keys && Step(at, d) in w
    requires s3 == s2.(world := Land(w, Step(at, d), e, t2), dirtyCoords := s2.dirtyCoords + {at, Step(at, d)})
    ensures Consistent(s3, cells) && Aloft(s, s3, coord, e, speed, t0, t2, Step(at, d), d, h2)
  {
    HopOnce(t, t2, speed);
  }

  /** A pass that finds the cell ahead off the world or solid ends the
      flight. */
  lemma Halting(s: GameState, s2: GameState, s3: GameState, cells: set<Coord>, coord: Coord, e: Entity, speed: int,
                t0: int, t: int, t2: int, at: Coord, dir: Dir, hops: nat, h2: nat, d: Dir, fate: Flight)
    requires Consistent(s2, cells)
    requires speed > 0 && t < 0 && t2 == t + speed && h2 == hops + 1 && Aloft(s, s2, coord, e, speed, t0, t, at, dir, hops)
    requires Heading(e.obj) == Some(d) && (hops > 0 ==> d == dir)
    requires s3.world.Keys == s2.world.Keys && (Step(at, d) in s3.world ==> Solid(s3.world[Step(at, d)]))
    requires s3 == s2.(world := s3.world, dirtyCoords := s2.dirtyCoords + {at})
    requires fate == if Step(at, d) in s3.world then Blocked(at, Step(at, d)) else Vanished(Step(at, d))
    ensures Consistent(s3, cells) && WorldMoves(s, s3) && Marks(s, s3) && s3.nextOid == s.nextOid
    ensures Flew(s, s3, coord, e, speed, t0, fate, h2)
  {
    HopOnce(t, t2, speed);
  }

  /** A new world over the same cells with more dirty cells keeps the
      state's shape, and only the world and the dirty cells change. */
  lemma Relocated(s: GameState, cells: set<Coord>, w: World, cs: set<Coord>)
    requires Consistent(s, cells) && w.Keys == s.world.Keys && cs <= w.Keys
    ensures Consistent(s.(world := w, dirtyCoords := s.dirtyCoords + cs), cells)
    ensures WorldMoves(s, s.(world := w, dirtyCoords := s.dirtyCoords + cs))
  {
  }

  // ---- the tick: explosions ----

  /** `_time_left`, defaulting to EXPLOSION_LIFE; None where the subtraction
      would raise. */
  function ExplosionClock(o: Obj): Option<int>
  {
    if "_time_left" in o.attrs then AsInt(o.attrs["_time_left"]) else Some(ExplosionLife)
  }

  /** `_damaged`, defaulting to the empty list, as the identities of the
      objects it holds; None where it is not such a list. */
  function DamagedOids(o: Obj): Option<seq<nat>>
  {
    if "_damaged" !in o.attrs then Some([])
    else if o.attrs["_damaged"].OidsV? then Some(o.attrs["_damaged"].ids)
    else None
  }

  function Oids(es: seq<Entity>): (r: seq<nat>)
    ensures |r| == |es| && forall k :: 0 <= k < |es| ==> r[k] == es[k].oid
  {
    seq(|es|, k requires 0 <= k < |es| => es[k].oid)
  }

  /** The objects an explosion that has already hit `damaged` hits in the
      listed cell: those that can be blown up, in list order, skipping the
      ones hit before (by this or an earlier tick). */
  function FreshHits(cell: Cell, damaged: seq<nat>): seq<Entity>
    decreases |cell|
  {
    if cell == [] then []
    else if cell[0].obj.kind in BlowableUp && cell[0].oid !in damaged
    then [cell[0]] + FreshHits(cell[1..], damaged + [cell[0].oid])
    else FreshHits(cell[1..], damaged)
  }

  /** An explosion hits only objects of its cell that can be blown up and
      that it has not hit before. */
  lemma {:induction false} FreshHitsNew(cell: Cell, damaged: seq<nat>)
    ensures forall h :: h in FreshHits(cell, damaged) ==> h in cell && h.obj.kind in BlowableUp && h.oid !in damaged
    decreases |cell|
  {
    if cell != [] {
      var e := cell[0];
      if e.obj.kind in BlowableUp && e.oid !in damaged {
        FreshHitsNew(cell[1..], damaged + [e.oid]);
      } else {
        FreshHitsNew(cell[1..], damaged);
      }
      forall h | h in cell[1..] ensures h in cell {
      }
    }
  }

  /** It hits each object once over its whole life: its record of hits
      never repeats an object. */
  lemma {:induction false} FreshHitsDistinct(cell: Cell, damaged: seq<nat>)
    requires Distinct(damaged)
    ensures Distinct(damaged + Oids(FreshHits(cell, damaged)))
    decreases |cell|
  {
    if cell != [] {
      var e := cell[0];
      if e.obj.kind in BlowableUp && e.oid !in damaged {
        var d2 := damaged + [e.oid];
        assert Distinct(d2);
        FreshHitsDistinct(cell[1..], d2);
        var rest := FreshHits(cell[1..], d2);
        assert damaged + Oids([e] + rest) == d2 + Oids(rest);
      } else {
        FreshHitsDistinct(cell[1..], damaged);
      }
    }
  }

  /** After a tick, it has hit every object of the cell that can be blown
      up. */
  lemma {:induction false} FreshHitsCover(cell: Cell, damaged: seq<nat>, x: Entity)
    requires x in cell && x.obj.kind in BlowableUp
    ensures x.oid in damaged + Oids(FreshHits(cell, damaged))
    decreases |cell|
  {
    var e := cell[0];
    if e.obj.kind in BlowableUp && e.oid !in damaged {
      var d2 := damaged + [e.oid];
      var rest := FreshHits(cell[1..], d2);
      assert damaged + Oids([e] + rest) == d2 + Oids(rest);
      if x != e {
        FreshHitsCover(cell[1..], d2, x);
      }
    } else if x != e {
      FreshHitsCover(cell[1..], damaged, x);
    }
  }

  /** The explosion object after the tick's bookkeeping: its timer and the
      objects it has hit. */
  function Burnt(o: Obj, t: int, damaged: seq<nat>): Obj
  {
    Obj(o.kind, o.attrs["_time_left" := IntV(t)]["_damaged" := OidsV(damaged)])
  }

  /** The entity of identity `e.oid` as it now stands in the cell (the
      object a list entry refers to); `e` itself once it has left. */
  function Current(cell: Cell, e: Entity): (r: Entity)
    ensures r.oid == e.oid
    decreases |cell|
  {
    if cell == [] then e else if cell[0].oid == e.oid then cell[0] else Current(cell[1..], e)
  }

  // ---- the tick: slimes ----

  /** A slime: its owner and size, and the family whose `_spread_to` set and
      `_damaged` list it shares with the slimes it spread to. */
  function SlimeObj(owner: Val, size: Val, fam: nat): Obj
  {
    Obj(Slime, map["owner" := owner, "size" := size, "_family" := IntV(fam)])
  }

  /** The family a slime belongs to; None where its attributes name none. */
  function FamilyOf(o: Obj): Option<nat>
  {
    if "_family" in o.attrs && o.attrs["_family"].IntV? && o.attrs["_family"].i >= 0
    then Some(o.attrs["_family"].i as nat) else None
  }

  /** A slime bullet stopped in front of something solid: a slime of a new
      family is born in the cell the bullet left, its `_spread_to` holding
      that cell alone and its `_damaged` empty; the cell becomes dirty. */
  function Slimed(s: GameState, at: Coord, owner: Val, size: Val): GameState
    requires at in s.world
  {
    Placed(s, at, SlimeObj(owner, size, s.nextOid)).(spreadTo := s.spreadTo[s.nextOid := {at}],
                                                    slimeDamaged := s.slimeDamaged[s.nextOid := []])
  }

  lemma SlimedConsistent(s: GameState, cells: set<Coord>, at: Coord, owner: Val, size: Val)
    requires Consistent(s, cells) && at in s.world
    ensures Consistent(Slimed(s, at, owner, size), cells) && Marks(s, Slimed(s, at, owner, size))
  {
  }

  /** `SLIME_SPREAD[attr['size']]`: how many cells a family may cover; None
      where the lookup raises. */
  function SpreadLimit(cfg: Config, o: Obj): Option<int>
  {
    match IntAttr(o.attrs, "size")
    case None => None
    case Some(z) => if z in cfg.slimeSpread then Some(cfg.slimeSpread[z]) else None
  }

  /** The cells a slime in `coord` can spread to: its four cardinal
      neighbours that are in the world, that its family has not reached, and
      that hold nothing airtight. */
  function Openings(cfg: Config, world: World, coord: Coord, reached: set<Coord>): (r: set<Coord>)
    ensures r <= world.Keys && r <= Elems(CardinalNeighbourhood(coord)) && r !! reached
  {
    set c | c in CardinalNeighbourhood(coord) && c in world && c !in reached && !HasKind(world[c], cfg.airtightObjects)
  }

  /** The slime spreads to the opening `c`: a new slime of the same family
      is born there, the cell becomes dirty and the family's reach grows. */
  function Spread(s: GameState, c: Coord, fam: nat, owner: Val, size: Val): GameState
    requires c in s.world && fam in s.spreadTo
  {
    Placed(s, c, SlimeObj(owner, size, fam)).(spreadTo := s.spreadTo[fam := s.spreadTo[fam] + {c}])
  }

  /** A spread keeps the state's shape and changes only the world, the dirty
      cells, the identity counter and the family's reach, which gains one
      cell. */
  lemma SpreadGrows(s: GameState, cells: set<Coord>, c: Coord, fam: nat, owner: Val, size: Val)
    requires Consistent(s, cells) && c in s.world && fam in s.spreadTo && c !in s.spreadTo[fam]
    ensures var s2 := Spread(s, c, fam, owner, size);
      Consistent(s2, cells) && Marks(s, s2) && s2.slimeDamaged == s.slimeDamaged
      && fam in s2.spreadTo && |s2.spreadTo[fam]| == |s.spreadTo[fam]| + 1
  {
  }

  /** The two timers of a slime: `_death_time`, once set, and
      `_spread_time`. */
  datatype SlimeClock = SlimeClock(death: Option<int>, spread: int)

  /** The timers a slime carries, `_spread_time` defaulting to
      SLIME_SPREAD_TIME; None where either would raise. */
  function ClockOf(cfg: Config, o: Obj): Option<SlimeClock>
  {
    if "_death_time" in o.attrs && AsInt(o.attrs["_death_time"]).None? then None
    else if "_spread_time" in o.attrs && AsInt(o.attrs["_spread_time"]).None? then None
    else Some(SlimeClock(if "_death_time" in o.attrs then AsInt(o.attrs["_death_time"]) else None,
                         if "_spread_time" in o.attrs then AsInt(o.attrs["_spread_time"]).value else cfg.slimeSpreadTime))
  }

  /** The slime object carrying these timers. */
  function Clocked(o: Obj, c: SlimeClock): Obj
  {
    var a := o.attrs["_spread_time" := IntV(c.spread)];
    Obj(o.kind, if c.death.Some? then a["_death_time" := IntV(c.death.value)] else a)
  }

  /** The slime object whose death time has just run out. */
  function Dying(o: Obj, death: int): Obj
  {
    Obj(o.kind, o.attrs["_death_time" := IntV(death)])
  }

  /** One tick of a slime whose family has spread as far as it may, as
      `_tick_slimes` is written: a death time that runs below zero removes
      the slime (None); otherwise each time the spread timer runs out the
      spreading loop finds no spread left and sets the death time back to
      SLIME_SPREAD_TIME. */
  function ExhaustedTickAsWritten(c: SlimeClock, period: int, ms: int): Option<SlimeClock>
  {
    var death := if c.death.Some? then Some(c.death.value - ms) else None;
    if death.Some? && death.value < 0 then None
    else if c.spread - ms < 0 then Some(SlimeClock(Some(period), c.spread - ms + period))
    else Some(SlimeClock(death, c.spread - ms))
  }

  /** The same tick as evidently intended: the death time is set once, when
      the family is found to have no spread left, and then only runs down. */
  function ExhaustedTick(c: SlimeClock, period: int, ms: int): Option<SlimeClock>
  {
    var death := if c.death.Some? then Some(c.death.value - ms) else None;
    if death.Some? && death.value < 0 then None
    else if c.spread - ms < 0 then Some(SlimeClock(if death.Some? then death else Some(period), c.spread - ms + period))
    else Some(SlimeClock(death, c.spread - ms))
  }

  /** `n` ticks of `ms` milliseconds each; None once the slime is gone. */
  function RunTicks(step: (SlimeClock, int, int) -> Option<SlimeClock>, c: SlimeClock, period: int, ms: int, n: nat): Option<SlimeClock>
    decreases n
  {
    if n == 0 then Some(c)
    else match step(c, period, ms)
      case None => None
      case Some(c2) => RunTicks(step, c2, period, ms, n - 1)
  }

  /** As written, an exhausted slime ticked every 50 ms with a spread period
      of 100 ms never dies: its death time is set back to the full period
      every other tick, before it can fall below zero. */
  lemma {:induction false} ExhaustedNeverDiesAsWritten(n: nat)
    ensures RunTicks(ExhaustedTickAsWritten, SlimeClock(Some(100), 50), 100, 50, 2 * n) == Some(SlimeClock(Some(100), 50))
  {
    if n > 0 {
      ExhaustedNeverDiesAsWritten(n - 1);
      assert ExhaustedTickAsWritten(SlimeClock(Some(100), 50), 100, 50) == Some(SlimeClock(Some(50), 0));
      assert ExhaustedTickAsWritten(SlimeClock(Some(50), 0), 100, 50) == Some(SlimeClock(Some(100), 50));
      RunTwice(ExhaustedTickAsWritten, SlimeClock(Some(100), 50), SlimeClock(Some(50), 0), 100, 50, 2 * n - 2);
    }
  }

  /** Two ticks that come back to the same timers change nothing over any
      number of further ticks. */
  lemma RunTwice(step: (SlimeClock, int, int) -> Option<SlimeClock>, c: SlimeClock, mid: SlimeClock,
                 period: int, ms: int, n: nat)
    requires step(c, period, ms) == Some(mid) && step(mid, period, ms) == Some(c)
    ensures RunTicks(step, c, period, ms, n + 2) == RunTicks(step, c, period, ms, n)
  {
    assert RunTicks(step, c, period, ms, n + 2) == RunTicks(step, mid, period, ms, n + 1);
  }

  /** As intended, an exhausted slime whose death time is `d` is gone after
      any `n` ticks that together take longer than `d`, however its spread
      timer stands. */
  lemma {:induction false} ExhaustedDies(c: SlimeClock, period: int, ms: int, n: nat)
    requires ms > 0 && c.death.Some? && c.death.value >= 0 && n * ms > c.death.value
    ensures RunTicks(ExhaustedTick, c, period, ms, n) == None
    decreases n
  {
    var d := c.death.value;
    assert n != 0;
    if d >= ms {
      var c2 := ExhaustedTick(c, period, ms).value;
      assert c2.death == Some(d - ms);
      assert (n - 1) * ms == n * ms - ms;
      ExhaustedDies(c2, period, ms, n - 1);
    }
  }

  /** The family of the slime has reached every cell it may. */
  predicate Exhausted(cfg: Config, s: GameState, o: Obj)
  {
    FamilyOf(o).Some? && FamilyOf(o).value in s.spreadTo && SpreadLimit(cfg, o) == Some(|s.spreadTo[FamilyOf(o).value]|)
  }

  /** The object of identity `oid`, updated to `o`, leaves the cell `coord`,
      which becomes dirty; None where `list.remove` raises. */
  function Expired(s: GameState, coord: Coord, oid: nat, o: Obj): Option<GameState>
    requires coord in s.world
  {
    var w := Updated(s.world, oid, o);
    match Remove(w[coord], o)
    case None => None
    case Some(rest) => Some(s.(world := w[coord := rest], dirtyCoords := s.dirtyCoords + {coord}))
  }

  lemma ExpiredConsistent(s: GameState, cells: set<Coord>, coord: Coord, oid: nat, o: Obj)
    requires Consistent(s, cells) && coord in s.world && Expired(s, coord, oid, o).Some?
    ensures Consistent(Expired(s, coord, oid, o).value, cells)
    ensures Expired(s, coord, oid, o).value.slimeDamaged == s.slimeDamaged
    ensures Expired(s, coord, oid, o).value.spreadTo == s.spreadTo
  {
  }

  /** `_damage_object` leaves the slime families alone: a killed player only
      moves the scores, the events and the remembered worlds; any other
      damage only the world, the events, the dirty cells and the identity
      counter. */
  lemma DamageKeepsFamilies(cfg: Config, a: GameState, b: GameState, coord: Coord, e: Entity, amount: int,
                            damageType: Val, responsible: Val)
    requires Kills(e, amount) ==>
      PlayerIdOf(e.obj).Some? && WorldMoves(Mourned(cfg, a, PlayerIdOf(e.obj).value, responsible, damageType), b)
    requires !Kills(e, amount) ==>
      Damaged(cfg, a, coord, e, amount, damageType, responsible).Some? && coord in a.world
      && b == Finished(cfg, Damaged(cfg, a, coord, e, amount, damageType, responsible).value, coord)
    ensures b.spreadTo == a.spreadTo && b.slimeDamaged == a.slimeDamaged
  {
    if !Kills(e, amount) {
      var d := Damaged(cfg, a, coord, e, amount, damageType, responsible).value;
      assert coord in d.world;
      assert Finished(cfg, d, coord).spreadTo == d.spreadTo;
    }
  }

  /** The tick of an exhausted slime read off its attributes: `death` is its
      death time after the elapsed time, if set, and `t` its spread timer
      after the elapsed time. */
  lemma ExhaustedTickRead(cfg: Config, o: Obj, period: int, ms: int, death: Option<int>)
    requires ClockOf(cfg, o).Some? && period == cfg.slimeSpreadTime
    requires death == if "_death_time" in o.attrs then Some(AsInt(o.attrs["_death_time"]).value - ms) else None
    ensures death.Some? && death.value < 0 ==>
      ExhaustedTick(ClockOf(cfg, o).value, period, ms) == None
      && ClockOf(cfg, o).value.death == Some(death.value + ms)
    ensures !(death.Some? && death.value < 0) ==>
      var spread := if "_spread_time" in o.attrs then AsInt(o.attrs["_spread_time"]) else Some(period);
      var t := spread.value - ms;
      spread.Some?
      && ExhaustedTick(ClockOf(cfg, o).value, period, ms)
         == Some(SlimeClock(if t < 0 && death.None? then Some(period) else death, if t < 0 then t + period else t))
  {
  }

  /** The state `s` a tick leaves behind for the exhausted slime `e` in
      `coord` of the state `hit`, as the corrected ExhaustedTick says: the
      slime expires once its death time runs out, and otherwise only its
      clock changes. */
  ghost predicate SlimeSettled(cfg: Config, e: Entity, coord: Coord, ms: int, hit: GameState, s: GameState)
    requires ClockOf(cfg, e.obj).Some? && coord in hit.world
  {
    match ExhaustedTick(ClockOf(cfg, e.obj).value, cfg.slimeSpreadTime, ms)
    case None =>
      ClockOf(cfg, e.obj).value.death.Some?
      && Expired(hit, coord, e.oid, Dying(e.obj, ClockOf(cfg, e.obj).value.death.value - ms)) == Some(s)
    case Some(c) => s == hit.(world := Updated(hit.world, e.oid, Clocked(e.obj, c)))
  }

  /** What SlimeTimers leaves behind for an exhausted slime is the state
      the corrected ExhaustedTick describes. */
  lemma TimersSettle(cfg: Config, e: Entity, coord: Coord, ms: int, hit: GameState, s: GameState, death: Option<int>, t: int)
    requires ClockOf(cfg, e.obj).Some? && Exhausted(cfg, hit, e.obj) && coord in hit.world
    requires "_death_time" in e.obj.attrs ==>
      AsInt(e.obj.attrs["_death_time"]).Some? && death == Some(AsInt(e.obj.attrs["_death_time"]).value - ms)
    requires "_death_time" !in e.obj.attrs ==> death == None
    requires death.Some? && death.value < 0 ==> Expired(hit, coord, e.oid, Dying(e.obj, death.value)) == Some(s)
    requires !(death.Some? && death.value < 0) ==>
      s == hit.(world := Updated(hit.world, e.oid, Clocked(e.obj,
        SlimeClock(if t < 0 && death.None? then Some(cfg.slimeSpreadTime) else death,
                   if t < 0 then t + cfg.slimeSpreadTime else t))))
    requires !(death.Some? && death.value < 0) ==>
      ("_spread_time" in e.obj.attrs ==> AsInt(e.obj.attrs["_spread_time"]) == Some(t + ms))
      && ("_spread_time" !in e.obj.attrs ==> t == cfg.slimeSpreadTime - ms)
    ensures SlimeSettled(cfg, e, coord, ms, hit, s)
  {
    ExhaustedTickRead(cfg, e.obj, cfg.slimeSpreadTime, ms, death);
    if death.Some? && death.value < 0 {
      assert ExhaustedTick(ClockOf(cfg, e.obj).value, cfg.slimeSpreadTime, ms) == None;
    } else {
      assert ExhaustedTick(ClockOf(cfg, e.obj).value, cfg.slimeSpreadTime, ms).Some?;
    }
  }

  // ---- the tick: lava ----

  /** The `_time_passed` a lava pool has gathered, 0 before its first tick;
      None where adding to it would raise. */
  function LavaClock(o: Obj): Option<int>
  {
    if "_time_passed" !in o.attrs then Some(0) else AsInt(o.attrs["_time_passed"])
  }

  /** How many times a lava pool burns, and what its clock reads after. */
  datatype Burn = Burn(times: int, left: int)

  /** One tick of a lava clock: the elapsed time is added, the number of
      whole LAVA_TIME periods it holds (floor division) is how many times the
      pool burns, and when that number is not zero the clock keeps only the
      remainder. No time is lost: the periods burnt and the time kept add up
      to the time gathered, and a clock that has not run backwards keeps
      less than one period. */
  function LavaStep(c: int, ms: int, period: int): (r: Burn)
    requires period > 0
    ensures r.times * period + r.left == c + ms
    ensures c + ms >= 0 ==> 0 <= r.left < period && r.times >= 0
  {
    var passed := c + ms;
    var times := passed / period;
    Burn(times, if times != 0 then passed % period else passed)
  }

  /** The pool after a tick: its clock reads `left`. */
  function Warmed(o: Obj, left: int): Obj
  {
    Obj(o.kind, o.attrs["_time_passed" := IntV(left)])
  }

  function Sum(steps: seq<int>): int
  {
    if steps == [] then 0 else Sum(steps[..|steps| - 1]) + steps[|steps| - 1]
  }

  /** Several ticks of a lava clock from `c`, the elapsed times in order:
      how often the pool burns in all, and what its clock reads after. */
  function LavaRun(c: int, steps: seq<int>, period: int): Burn
    requires period > 0
  {
    if steps == [] then Burn(0, c)
    else
      var before := LavaRun(c, steps[..|steps| - 1], period);
      var step := LavaStep(before.left, steps[|steps| - 1], period);
      Burn(before.times + step.times, step.left)
  }

  /** However the elapsed time is cut into ticks, a pool burns once per
      whole LAVA_TIME it has been ticked for: its burns over the run and its
      final clock are the quotient and remainder of the whole time gathered. */
  lemma {:induction false} LavaRunExact(c: int, steps: seq<int>, period: int)
    requires period > 0 && c >= 0
    requires forall i :: 0 <= i < |steps| ==> steps[i] >= 0
    ensures LavaRun(c, steps, period).times * period + LavaRun(c, steps, period).left == c + Sum(steps)
    ensures steps != [] || c < period ==> 0 <= LavaRun(c, steps, period).left < period
    ensures steps != [] || c < period ==>
      LavaRun(c, steps, period).times == (c + Sum(steps)) / period
      && LavaRun(c, steps, period).left == (c + Sum(steps)) % period
  {
    var r := LavaRun(c, steps, period);
    if steps != [] {
      var init := steps[..|steps| - 1];
      LavaRunExact(c, init, period);
      var before := LavaRun(c, init, period);
      var step := LavaStep(before.left, steps[|steps| - 1], period);
      Distributes(before.times, step.times, period);
    }
    if steps != [] || c < period {
      DivisionUnique(c + Sum(steps), period, r.times, r.left);
    }
  }

  lemma Distributes(a: int, b: int, p: int)
    ensures (a + b) * p == a * p + b * p
  {
  }

  /** A quotient and a remainder in range are the ones division gives. */
  lemma DivisionUnique(n: int, d: int, q: int, r: int)
    requires d > 0 && q * d + r == n && 0 <= r < d
    ensures q == n / d && r == n % d
  {
    var q', r' := n / d, n % d;
    if q != q' {
      var k := q - q';
      assert k * d == q * d - q' * d;
      MultipleApart(k, d);
      assert false;
    }
  }

  /** A non-zero multiple of `d` is at least `d` away from zero. */
  lemma {:induction false} MultipleApart(k: int, d: int)
    requires d > 0 && k != 0
    ensures k > 0 ==> k * d >= d
    ensures k < 0 ==> k * d <= -d
    decreases if k > 0 then k else -k
  {
    if k > 1 {
      MultipleApart(k - 1, d);
      assert k * d == (k - 1) * d + d;
    } else if k < -1 {
      MultipleApart(k + 1, d);
      assert k * d == (k + 1) * d - d;
    }
  }
  // ---- the game object ----

  /** The attributes of a `BaseGame` object that its methods update. */
  datatype GameState = GameState(
    world: World,
    players: seq<int>,
    playerAttr: map<int, Attrs>,
    knownWorlds: map<int, Known>,
    events: seq<Event>,
    /** `scores`, a defaultdict(int): an absent key reads as 0 (see Score). */
    scores: map<Val, int>,
    updateScores: bool,
    dirtyCoords: set<Coord>,
    dirtyPlayers: set<int>,
    /** The `_spread_to` sets and `_damaged` lists a family of slimes shares,
        by container number; a slime's attributes hold that number. */
    spreadTo: map<nat, set<Coord>>,
    slimeDamaged: map<nat, seq<nat>>,
    /** The next identity for a new object. */
    nextOid: nat,
    /** Whether `tick_stopwatch` has been started. */
    stopwatchRunning: bool)

  /** The shape every state keeps: the world's cells never change, and the
      dirty cells and every remembered world lie within them; each joined
      player appears once and has a remembered world and an attribute dict. */
  predicate Consistent(s: GameState, cells: set<Coord>)
  {
    s.world.Keys == cells && s.dirtyCoords <= cells
    && (forall p :: p in s.knownWorlds ==> s.knownWorlds[p].Keys <= cells)
    && Distinct(s.players)
    && (forall p :: p in s.players ==> p in s.knownWorlds && p in s.playerAttr)
  }

  /** The state after `_make_explosion(coord, size, responsible)`: a new
      explosion of damage size² on every cell of the world within distance
      size-1 of `coord`, each of them dirty. */
  function Exploded(s: GameState, coord: Coord, size: int, responsible: Val): GameState
  {
    var hood := NeighbourhoodSeq(coord, size - 1);
    s.(world := Blast(s.world, hood, Obj(Explosion, ExplosionAttrs(size, responsible)), s.nextOid),
       dirtyCoords := s.dirtyCoords + BlastArea(s.world, coord, size),
       nextOid := s.nextOid + |hood|)
  }

  /** An explosion reaches exactly the blast area: a reached cell keeps its
      objects and gains one explosion of damage size² at its end; every
      other cell is left as it was. */
  lemma ExplodedReach(s: GameState, coord: Coord, size: int, responsible: Val, c: Coord)
    requires c in s.world
    ensures var before, after := s.world[c], Exploded(s, coord, size, responsible).world[c];
      if c in BlastArea(s.world, coord, size)
      then |after| == |before| + 1 && after[..|before|] == before
           && after[|before|].obj == Obj(Explosion, ExplosionAttrs(size, responsible))
      else after == before
  {
    NeighbourhoodMembers(coord, size - 1);
    var before, after := s.world[c], Exploded(s, coord, size, responsible).world[c];
    if c in BlastArea(s.world, coord, size) {
      assert after[..|before|] == before;
    }
  }

  /** The finishing step of `_damage_object`: a cell left holding only
      temporary objects gets an EMPTY at its front, and becomes dirty. */
  function Finished(cfg: Config, s: GameState, coord: Coord): GameState
    requires coord in s.world
  {
    if Only(s.world[coord], cfg.temporaryObjects)
    then s.(world := s.world[coord := [EmptyEntity(s.nextOid)] + s.world[coord]],
            dirtyCoords := s.dirtyCoords + {coord}, nextOid := s.nextOid + 1)
    else s
  }

  /** After the finishing step the cell always holds a lasting object, and
      its earlier objects are still there, in order, at its end. */
  lemma FinishedLasting(cfg: Config, s: GameState, coord: Coord)
    requires WellFormed(cfg) && coord in s.world
    ensures var cell := Finished(cfg, s, coord).world[coord];
      !Only(cell, cfg.temporaryObjects) && |cell| > 0 && cell[|cell| - |s.world[coord]|..] == s.world[coord]
  {
    var cell := Finished(cfg, s, coord).world[coord];
    if Only(s.world[coord], cfg.temporaryObjects) {
      assert cell[0].obj.kind == Empty;
    } else {
      var j :| 0 <= j < |s.world[coord]| && s.world[coord][j].obj.kind !in cfg.temporaryObjects;
    }
  }

  lemma FinishedMoves(cfg: Config, s: GameState, coord: Coord)
    requires coord in s.world
    ensures WorldMoves(s, Finished(cfg, s, coord))
  {
    if Only(s.world[coord], cfg.temporaryObjects) {
      var f := s.(world := s.world[coord := [EmptyEntity(s.nextOid)] + s.world[coord]],
                  dirtyCoords := s.dirtyCoords + {coord}, nextOid := s.nextOid + 1);
      assert Finished(cfg, s, coord) == f;
    }
  }

  /** Whether `_damage_object` kills a player: its hp falls to zero or below. */
  predicate Kills(e: Entity, amount: int)
  {
    e.obj.kind == Player && HpOf(e.obj).Some? && HpOf(e.obj).value - amount <= 0
  }

  /** The state `_damage_object(coord, e, amount, damage_type, responsible)`
      leaves before its finishing step, in every case but a killed player: the
      object's hp is lowered by `amount`; a player that survives queues a
      damage event; any other object at hp <= 0 is destroyed. None where the
      source raises. */
  function Damaged(cfg: Config, s: GameState, coord: Coord, e: Entity, amount: int,
                   damageType: Val, responsible: Val): (r: Option<GameState>)
    ensures r.Some? ==> r.value.world.Keys == s.world.Keys
    ensures r.Some? ==> r.value.spreadTo == s.spreadTo && r.value.slimeDamaged == s.slimeDamaged
  {
    match HpOf(e.obj)
    case None => None
    case Some(hp0) =>
      var hit := Hit(e.obj, hp0 - amount);
      var s1 := s.(world := Updated(s.world, e.oid, hit));
      if hp0 - amount > 0 then
        if e.obj.kind != Player then Some(s1)
        else if PlayerIdOf(e.obj).None? then None
        else Some(s1.(events := s1.events + [Event(PlayerIdOf(e.obj).value, cfg.statusDamaged, responsible, damageType)]))
      else Destroyed(s1, coord, hit, responsible)
  }

  /** Damaged by cases of the hit points left `hp`, the hit object `hit` and
      the state `s1` in which it replaced the object. */
  lemma DamagedCases(cfg: Config, s: GameState, coord: Coord, e: Entity, amount: int,
                     damageType: Val, responsible: Val, hp: int, hit: Obj, s1: GameState)
    requires HpOf(e.obj).Some? && hp == HpOf(e.obj).value - amount && hit == Hit(e.obj, hp)
    requires s1 == s.(world := Updated(s.world, e.oid, hit))
    ensures hp <= 0 ==> Damaged(cfg, s, coord, e, amount, damageType, responsible) == Destroyed(s1, coord, hit, responsible)
    ensures hp > 0 && e.obj.kind != Player ==> Damaged(cfg, s, coord, e, amount, damageType, responsible) == Some(s1)
    ensures hp > 0 && e.obj.kind == Player && PlayerIdOf(e.obj).None? ==>
      Damaged(cfg, s, coord, e, amount, damageType, responsible).None?
    ensures hp > 0 && e.obj.kind == Player && PlayerIdOf(e.obj).Some? ==>
      Damaged(cfg, s, coord, e, amount, damageType, responsible)
        == Some(s1.(events := s1.events + [Event(PlayerIdOf(e.obj).value, cfg.statusDamaged, responsible, damageType)]))
  {
  }

  /** A destroyed object leaves its cell, which becomes dirty, and a mine
      explodes with its own size. None where the source raises. */
  function Destroyed(s: GameState, coord: Coord, hit: Obj, responsible: Val): (r: Option<GameState>)
    ensures r.Some? ==> r.value.world.Keys == s.world.Keys
    ensures r.Some? ==> r.value.spreadTo == s.spreadTo && r.value.slimeDamaged == s.slimeDamaged
  {
    if coord !in s.world || Remove(s.world[coord], hit).None? then None
    else
      var s2 := s.(world := s.world[coord := Remove(s.world[coord], hit).value],
                   dirtyCoords := s.dirtyCoords + {coord});
      if hit.kind != Mine then Some(s2)
      else if IntAttr(hit.attrs, "size").None? then None
      else Some(Exploded(s2, coord, IntAttr(hit.attrs, "size").value, responsible))
  }

  /** A destroyed object other than a player or a mine leaves its cell: the
      cell loses exactly one object, the first equal to it; then the finishing
      step puts an EMPTY in front when only temporary objects remain. */
  lemma DestroyedLeaves(cfg: Config, s: GameState, coord: Coord, e: Entity, amount: int,
                        damageType: Val, responsible: Val)
    requires WellFormed(cfg) && coord in s.world
    requires e.obj.kind != Player && e.obj.kind != Mine && HpOf(e.obj).Some? && HpOf(e.obj).value - amount <= 0
    requires Damaged(cfg, s, coord, e, amount, damageType, responsible).Some?
    ensures var hit := Hit(e.obj, HpOf(e.obj).value - amount);
      var cell := SetObj(s.world[coord], e.oid, hit);
      var rest := Remove(cell, hit);
      var after := Finished(cfg, Damaged(cfg, s, coord, e, amount, damageType, responsible).value, coord).world[coord];
      rest.Some? && |rest.value| == |s.world[coord]| - 1
      && after == (if Only(rest.value, cfg.temporaryObjects) then [EmptyEntity(s.nextOid)] + rest.value else rest.value)
      && !Only(after, cfg.temporaryObjects)
  {
    var s2 := Damaged(cfg, s, coord, e, amount, damageType, responsible).value;
    FinishedLasting(cfg, s2, coord);
  }

  /** Only the world, the dirty sets and the identity counter differ. */
  predicate WorldMoves(a: GameState, b: GameState)
  {
    a.players == b.players && a.playerAttr == b.playerAttr && a.knownWorlds == b.knownWorlds
    && a.events == b.events && a.scores == b.scores && a.updateScores == b.updateScores
    && a.spreadTo == b.spreadTo && a.slimeDamaged == b.slimeDamaged && a.stopwatchRunning == b.stopwatchRunning
  }

  /** Nothing marked dirty is unmarked. */
  predicate Marks(a: GameState, b: GameState)
  {
    a.dirtyCoords <= b.dirtyCoords && a.dirtyPlayers <= b.dirtyPlayers
  }

  /** The bookkeeping of `_kill_player`: the responsible party's score moves
      by ScoreDelta, the scores are to be sent, the victim forgets its known
      world and a death event is queued. */
  function Mourned(cfg: Config, s: GameState, pid: int, responsible: Val, damageType: Val): GameState
  {
    s.(scores := s.scores[responsible := Score(s.scores, responsible) + ScoreDelta(cfg, pid, responsible)],
       updateScores := true,
       knownWorlds := s.knownWorlds[pid := map[]],
       events := s.events + [Event(pid, cfg.statusDeath, responsible, damageType)])
  }

  lemma MournedConsistent(cfg: Config, s: GameState, cells: set<Coord>, pid: int, responsible: Val, damageType: Val)
    requires Consistent(s, cells)
    ensures Consistent(Mourned(cfg, s, pid, responsible, damageType), cells)
  {
  }

  lemma MournedMoves(cfg: Config, a: GameState, b: GameState, c: GameState, pid: int, responsible: Val, damageType: Val)
    requires WorldMoves(a, b) && WorldMoves(Mourned(cfg, b, pid, responsible, damageType), c)
    ensures WorldMoves(Mourned(cfg, a, pid, responsible, damageType), c)
  {
  }

  /** A new world over the same cells keeps the state's shape, and changes
      only the world. */
  lemma Reworld(s: GameState, cells: set<Coord>, w: World)
    requires Consistent(s, cells) && w.Keys == s.world.Keys
    ensures Consistent(s.(world := w), cells) && WorldMoves(s, s.(world := w))
  {
  }

  /** A cell's objects replaced and the cell marked dirty: the shape holds. */
  lemma TakenConsistent(s: GameState, cells: set<Coord>, coord: Coord, cell: Cell)
    requires Consistent(s, cells) && coord in s.world
    ensures Consistent(s.(world := s.world[coord := cell], dirtyCoords := s.dirtyCoords + {coord}), cells)
  {
  }

  /** A new object appended to a cell, with the next identity; the cell
      becomes dirty. */
  function Placed(s: GameState, loc: Coord, o: Obj): GameState
    requires loc in s.world
  {
    s.(world := s.world[loc := s.world[loc] + [Entity(o, s.nextOid)]],
       dirtyCoords := s.dirtyCoords + {loc}, nextOid := s.nextOid + 1)
  }

  lemma PlacedConsistent(s: GameState, cells: set<Coord>, loc: Coord, o: Obj)
    requires Consistent(s, cells) && loc in s.world
    ensures Consistent(Placed(s, loc, o), cells) && WorldMoves(s, Placed(s, loc, o))
    ensures LastIn(Placed(s, loc, o).world, loc, Entity(o, s.nextOid))
  {
  }

  /** Marking cells of the world and players dirty keeps the state's shape. */
  lemma MarkedConsistent(s: GameState, cells: set<Coord>, cs: set<Coord>, ps: set<int>)
    requires Consistent(s, cells) && cs <= s.world.Keys
    ensures Consistent(s.(dirtyCoords := s.dirtyCoords + cs, dirtyPlayers := s.dirtyPlayers + ps), cells)
  {
  }

  /** The cell holds no player, so nothing in it can be stabbed. */
  predicate NoPlayers(cell: Cell)
  {
    forall j :: 0 <= j < |cell| ==> cell[j].obj.kind != Player
  }

  /** The players of a cell, in order: what the stabbing of a blocked move hits. */
  function PlayersIn(cell: Cell): (r: seq<Entity>)
    ensures forall v :: v in r ==> v in cell && v.obj.kind == Player
    ensures r == [] <==> NoPlayers(cell)
    decreases |cell|
  {
    if cell == [] then []
    else (if cell[0].obj.kind == Player then [cell[0]] else []) + PlayersIn(cell[1..])
  }

  // ---- spawning and killing ----

  /** A new player of id `pid` facing `d`, with the next identity of `s`. */
  function Fresh(s: GameState, pid: int, d: Dir): Entity
  {
    Entity(Obj(Player, NewPlayerAttrs(pid, d)), s.nextOid)
  }

  /** The state once `BaseGame._spawn_player(pid)` has appended `newcomer` to
      `loc`: a living player of that id has left its cell first, both cells
      and the player are dirty, and one identity is used. */
  function BaseSpawned(order: seq<Coord>, s: GameState, pid: int, loc: Coord, newcomer: Entity): GameState
    requires loc in s.world
  {
    var w := WithoutPlayer(s.world, order, pid);
    s.(world := w[loc := w[loc] + [newcomer]],
       dirtyCoords := s.dirtyCoords + Vacated(s.world, order, pid) + {loc},
       dirtyPlayers := s.dirtyPlayers + {pid},
       nextOid := s.nextOid + 1)
  }

  /** The two mines of a free-for-all spawn: size 1 at `m1`, then size 2 at
      `m2`, each with the next identity, both cells dirty. */
  function Mined(s: GameState, m1: Coord, m2: Coord): GameState
    requires m1 in s.world && m2 in s.world
  {
    s.(world := s.world[m1 := s.world[m1] + [MineEntity(1, s.nextOid)]]
                       [m2 := s.world[m2] + [MineEntity(2, s.nextOid + 1)]],
       dirtyCoords := s.dirtyCoords + {m1, m2},
       nextOid := s.nextOid + 2)
  }

  /** The free-for-all ammo bonus: every player gets 5 more ammo and every
      cell holding a player is dirty. */
  function Bonused(s: GameState): GameState
  {
    s.(world := BumpedWorld(s.world), dirtyCoords := s.dirtyCoords + CoordsWith(s.world, {Player}))
  }

  /** `_spawn_player(pid)` of a `mode` game took `s` to `s2` and put `player`
      at `loc`: `pid` matched no object without an id, `loc` holds nothing
      solid once a living player of that id is gone, and for some facing the
      spawn is SpawnedFacing. */
  ghost predicate Spawned(mode: Mode, order: seq<Coord>, s: GameState, s2: GameState, pid: int, loc: Coord, player: Entity)
  {
    !FindPlayerIn(s.world, order, pid).NoPlayerId?
    && loc in Unblocked(WithoutPlayer(s.world, order, pid))
    && exists d :: d in Directions && SpawnedFacing(mode, order, s, s2, pid, loc, d, player)
  }

  /** The spawn of Spawned with the facing `d`: the base spawn of the newcomer
      player (BaseSpawned); in free-for-all then two mines on two different
      cells that still hold nothing solid (Mined), and the ammo bonus for every
      player, the new one included (Bonused), which every player can take. */
  ghost predicate SpawnedFacing(mode: Mode, order: seq<Coord>, s: GameState, s2: GameState, pid: int, loc: Coord,
                                d: Dir, player: Entity)
  {
    loc in s.world
    && var s1 := BaseSpawned(order, s, pid, loc, Fresh(s, pid, d));
    if mode != FreeForAll then player == Fresh(s, pid, d) && s2 == s1
    else player == Bumped(Fresh(s, pid, d)) && AllArmed(s1.world)
         && exists m1, m2 :: m1 != m2 && m1 in Unblocked(s1.world) && m2 in Unblocked(s1.world)
                             && s2 == Bonused(Mined(s1, m1, m2))
  }

  /** Where `_spawn_player(pid)` raises: `pid` matches an object without an
      id, no cell is free of solid objects, or in free-for-all, after the
      base spawn of `newcomer` at `loc`, there are no two such cells for the
      mines or some player's ammo cannot take the bonus. */
  ghost predicate SpawnRaises(mode: Mode, order: seq<Coord>, s: GameState, pid: int, loc: Coord, newcomer: Entity)
  {
    FindPlayerIn(s.world, order, pid).NoPlayerId?
    || Unblocked(WithoutPlayer(s.world, order, pid)) == {}
    || (mode == FreeForAll && loc in Unblocked(WithoutPlayer(s.world, order, pid)) && loc in s.world
        && (exists d :: d in Directions && newcomer == Fresh(s, pid, d))
        && var s1 := BaseSpawned(order, s, pid, loc, newcomer);
        !RoomForMines(s1.world) || !AllArmed(s1.world))
  }

  /** A spawn changes only the world, the dirty sets and the identity
      counter, and marks nothing clean. */
  lemma SpawnedMoves(mode: Mode, order: seq<Coord>, s: GameState, s2: GameState, pid: int, loc: Coord, player: Entity)
    requires Spawned(mode, order, s, s2, pid, loc, player)
    ensures WorldMoves(s, s2) && Marks(s, s2) && s2.nextOid > s.nextOid
  {
    var d :| d in Directions && SpawnedFacing(mode, order, s, s2, pid, loc, d, player);
    var s1 := BaseSpawned(order, s, pid, loc, Fresh(s, pid, d));
    BaseSpawnedMoves(order, s, pid, loc, Fresh(s, pid, d));
    if mode == FreeForAll {
      var m1, m2 :| m1 != m2 && m1 in Unblocked(s1.world) && m2 in Unblocked(s1.world) && s2 == Bonused(Mined(s1, m1, m2));
      MinedMoves(s1, m1, m2);
      BonusedMoves(Mined(s1, m1, m2));
    }
  }

  /** The steps of a spawn (BaseSpawned, Mined, Bonused) keep everything but
      the world, the dirty sets and the identity counter, and mark nothing
      clean. */
  lemma BaseSpawnedMoves(order: seq<Coord>, s: GameState, pid: int, loc: Coord, newcomer: Entity)
    requires loc in s.world
    ensures var b := BaseSpawned(order, s, pid, loc, newcomer);
            WorldMoves(s, b) && Marks(s, b) && b.nextOid == s.nextOid + 1
  {
  }

  lemma MinedMoves(s: GameState, m1: Coord, m2: Coord)
    requires m1 in s.world && m2 in s.world
    ensures var m := Mined(s, m1, m2); WorldMoves(s, m) && Marks(s, m) && m.nextOid == s.nextOid + 2
  {
  }

  lemma BonusedMoves(s: GameState)
    ensures var u := Bonused(s); WorldMoves(s, u) && Marks(s, u) && u.nextOid == s.nextOid
  {
  }

  /** The respawn of `_kill_player`: `_spawn_player(pid)` from `s`
      (Spawned), then the new player takes the `name` and `team` of the
      victim's attributes `carry`, in place. */
  ghost predicate Respawned(mode: Mode, order: seq<Coord>, s: GameState, s2: GameState, pid: int, carry: Attrs)
  {
    exists loc, mid, player :: Spawned(mode, order, s, mid, pid, loc, player)
      && s2 == mid.(world := Updated(mid.world, player.oid, Obj(Player, Carried(carry, player.obj.attrs))))
  }

  /** `_kill_player(pid, responsible, damage_type)` took `s` to `s2`: the
      player is found and removed, its cell dirty; the bookkeeping is done
      (Mourned); and the player respawns carrying the victim's name and team
      (Respawned). */
  ghost predicate Killed(cfg: Config, mode: Mode, order: seq<Coord>, s: GameState, pid: int,
                         responsible: Val, damageType: Val, s2: GameState)
  {
    var f := FindPlayerIn(s.world, order, pid);
    f.Found?
    && Respawned(mode, order,
                 Mourned(cfg, s.(world := WithoutPlayer(s.world, order, pid),
                                 dirtyCoords := s.dirtyCoords + Vacated(s.world, order, pid)),
                         pid, responsible, damageType),
                 s2, pid, f.player.obj.attrs)
  }

  /** The state `_kill_player(pid, responsible, damage_type)` respawns the
      player from: the player removed, its cell dirty, the bookkeeping done. */
  function Bereaved(cfg: Config, order: seq<Coord>, s: GameState, pid: int, responsible: Val, damageType: Val): GameState
  {
    Mourned(cfg, s.(world := WithoutPlayer(s.world, order, pid),
                    dirtyCoords := s.dirtyCoords + Vacated(s.world, order, pid)),
            pid, responsible, damageType)
  }

  /** Where `_kill_player(pid, responsible, damage_type)` raises: no living
      player has id `pid`, or the respawn from the Bereaved state raises for
      some spawn cell and newcomer (SpawnRaises). */
  ghost predicate KillRaises(cfg: Config, mode: Mode, order: seq<Coord>, s: GameState, pid: int,
                             responsible: Val, damageType: Val)
  {
    !FindPlayerIn(s.world, order, pid).Found?
    || exists loc, newcomer :: SpawnRaises(mode, order, Bereaved(cfg, order, s, pid, responsible, damageType), pid, loc, newcomer)
  }

  /** The state once `_damage_object` has written the lowered hp into the
      object, in place. */
  function HpWritten(s: GameState, e: Entity, amount: int): GameState
    requires HpOf(e.obj).Some?
  {
    s.(world := Updated(s.world, e.oid, Hit(e.obj, HpOf(e.obj).value - amount)))
  }

  /** `_damage_object(coord, e, amount, damage_type, responsible)` took `s` to
      `s2` without raising: the hit cell ends holding a lasting object; a hit
      that does not kill is Damaged and then Finished; a hit that kills a
      player writes the hp back (HpWritten), kills the player (Killed: it is
      removed, mourned and respawned) and is then Finished. */
  ghost predicate DamageDone(cfg: Config, mode: Mode, order: seq<Coord>, s: GameState, coord: Coord, e: Entity, amount: int,
                             damageType: Val, responsible: Val, s2: GameState)
  {
    && coord in s2.world && !Only(s2.world[coord], cfg.temporaryObjects)
    && if Kills(e, amount)
       then PlayerIdOf(e.obj).Some? && WorldMoves(Mourned(cfg, s, PlayerIdOf(e.obj).value, responsible, damageType), s2)
            && exists k :: Killed(cfg, mode, order, HpWritten(s, e, amount), PlayerIdOf(e.obj).value, responsible, damageType, k)
                           && coord in k.world && s2 == Finished(cfg, k, coord)
       else coord in s.world && Damaged(cfg, s, coord, e, amount, damageType, responsible).Some?
            && s2 == Finished(cfg, Damaged(cfg, s, coord, e, amount, damageType, responsible).value, coord)
  }

  /** Where the damage pass of an explosion `e` raises on its fresh `hits`
      from `s`: it has hits but no `_damage` or `_responsible`, or one of
      the hits raises (HitHalts). */
  ghost predicate StrikeRaises(cfg: Config, mode: Mode, order: seq<Coord>, coord: Coord, e: Entity, hits: seq<Entity>, s: GameState)
  {
    hits != []
    && (IntAttr(e.obj.attrs, "_damage").None? || "_responsible" !in e.obj.attrs
        || HitHalts(cfg, mode, order, coord, hits, IntAttr(e.obj.attrs, "_damage").value, cfg.damageExplosion,
                    e.obj.attrs["_responsible"], s))
  }

  /** Where a mine of `_move_into` raises whatever the draw: the player has
      no facing, the facing gives the step no chance, or the mine no size. */
  predicate MineStuck(step: Option<Dir>, p: Obj, mine: Obj)
  {
    Get(p.attrs, "direction").None? || ChanceOf(step, Get(p.attrs, "direction").value).None?
    || Get(mine.attrs, "size").None?
  }

  /** One mine of `_move_into` from `a` to `b`: the mine at position `i` of
      `to` leaves the cell, and then either it is disarmed, the player of
      identity `oid` (object `p`) becoming `q` with its DisarmBonus added to
      the ammo, or it explodes with its size on the player's account (`q` is
      `p`). */
  ghost predicate MineGoes(a: GameState, b: GameState, to: Coord, i: nat, oid: nat, p: Obj, q: Obj)
  {
    to in a.world && i < |a.world[to]| && Remove(a.world[to], a.world[to][i].obj).Some?
    && Get(a.world[to][i].obj.attrs, "size").Some?
    && (Disarmed(MineLeft(a, to, i), b, oid, a.world[to][i].obj.attrs["size"], p, q)
        || Detonated(MineLeft(a, to, i), b, to, a.world[to][i].obj.attrs["size"], p, q))
  }

  /** `a` once the mine at position `i` of `to` has left the cell. */
  function MineLeft(a: GameState, to: Coord, i: nat): GameState
    requires to in a.world && i < |a.world[to]| && Remove(a.world[to], a.world[to][i].obj).Some?
  {
    a.(world := a.world[to := Remove(a.world[to], a.world[to][i].obj).value])
  }

  /** A mine of `size` is disarmed: the player of identity `oid` (object
      `p`) becomes `q`, with the DisarmBonus of `size` added to its ammo. */
  predicate Disarmed(left: GameState, b: GameState, oid: nat, size: Val, p: Obj, q: Obj)
  {
    IntAttr(p.attrs, "ammo").Some?
    && q == Obj(Player, p.attrs["ammo" := IntV(IntAttr(p.attrs, "ammo").value + DisarmBonus(size))])
    && b == left.(world := Updated(left.world, oid, q))
  }

  /** A mine of `size` explodes at `to` with that size, on the account of
      the player whose object `p` stays as it is. */
  predicate Detonated(left: GameState, b: GameState, to: Coord, size: Val, p: Obj, q: Obj)
  {
    q == p && Get(p.attrs, "player_id").Some? && AsInt(size).Some?
    && b == Exploded(left, to, AsInt(size).value, p.attrs["player_id"])
  }

  /** The mines of `_move_into` going off in turn along `tr`: at each turn
      the first mine of `to` goes (MineGoes), the player's object going from
      `ps[k]` to `ps[k + 1]`. */
  ghost predicate MinesGo(tr: seq<GameState>, ps: seq<Obj>, to: Coord, oid: nat)
    decreases |tr|
  {
    |tr| == |ps| > 0
    && (|tr| > 1 ==>
          var n := |tr| - 1;
          MinesGo(tr[..n], ps[..n], to, oid)
          && to in tr[n - 1].world && FirstMine(tr[n - 1].world[to]).Some?
          && MineGoes(tr[n - 1], tr[n], to, FirstMine(tr[n - 1].world[to]).value, oid, ps[n - 1], ps[n]))
  }

  /** Some trace of MinesGo takes `s` to `s2` and the player's object from
      `p` to `q`. */
  ghost predicate MinesRun(s: GameState, s2: GameState, to: Coord, oid: nat, p: Obj, q: Obj)
  {
    exists tr, ps :: MinesGo(tr, ps, to, oid) && tr[0] == s && tr[|tr| - 1] == s2 && ps[0] == p && ps[|ps| - 1] == q
  }

  /** The free step of `_move` from `s`, before the mines: the player is
      appended to `target`, both cells and the player `pid` are dirty. */
  function Entered(s: GameState, loc: Coord, target: Coord, player: Entity, pid: int): GameState
    requires target in s.world
  {
    s.(world := s.world[target := s.world[target] + [player]],
       dirtyCoords := s.dirtyCoords + {loc, target}, dirtyPlayers := s.dirtyPlayers + {pid})
  }

  /** `_move_into` from `s` to `s2`, the player of identity `oid` starting as
      `p`: the mines of `to` go off one after the other (MinesRun) until none
      is left. */
  ghost predicate MinesSetOff(s: GameState, s2: GameState, to: Coord, oid: nat, p: Obj)
  {
    to in s2.world && Mines(s2.world[to]) == 0 && exists q :: MinesRun(s, s2, to, oid, p, q)
  }

  /** A trace of MinesGo is a run from its first state and object to its
      last. */
  lemma MinesRunBy(tr: seq<GameState>, ps: seq<Obj>, to: Coord, oid: nat)
    requires MinesGo(tr, ps, to, oid)
    ensures MinesRun(tr[0], tr[|tr| - 1], to, oid, ps[0], ps[|ps| - 1])
  {
  }

  /** A run that leaves no mine in `to` sets the mines off. */
  lemma MinesDone(s: GameState, s2: GameState, to: Coord, oid: nat, p: Obj, q: Obj)
    requires MinesRun(s, s2, to, oid, p, q) && to in s2.world && Mines(s2.world[to]) == 0
    ensures MinesSetOff(s, s2, to, oid, p)
  {
  }

  /** A run of MinesGo followed by the turn of the next first mine is a run. */
  lemma MinesRunNext(s: GameState, a: GameState, to: Coord, oid: nat, p: Obj, p1: Obj, i: nat, b: GameState, q: Obj)
    requires MinesRun(s, a, to, oid, p, p1)
    requires to in a.world && FirstMine(a.world[to]) == Some(i) && MineGoes(a, b, to, i, oid, p1, q)
    ensures MinesRun(s, b, to, oid, p, q)
  {
    var tr, ps :| MinesGo(tr, ps, to, oid) && tr[0] == s && tr[|tr| - 1] == a && ps[0] == p && ps[|ps| - 1] == p1;
    MinesGoLast(tr, ps, to, oid, a, p1, i, b, q);
    var tr', ps' := tr + [b], ps + [q];
    assert tr'[0] == s && ps'[0] == p && tr'[|tr'| - 1] == b && ps'[|ps'| - 1] == q;
    MinesRunBy(tr', ps', to, oid);
  }

  /** No mine going off is a run. */
  lemma MinesRunStart(s: GameState, to: Coord, oid: nat, p: Obj)
    ensures MinesRun(s, s, to, oid, p, p)
  {
    assert MinesGo([s], [p], to, oid);
  }

  /** A trace of MinesGo extended by the turn of the next first mine is a
      trace of MinesGo. */
  lemma MinesGoLast(tr: seq<GameState>, ps: seq<Obj>, to: Coord, oid: nat, a: GameState, p: Obj, i: nat, b: GameState, q: Obj)
    requires MinesGo(tr, ps, to, oid) && tr[|tr| - 1] == a && ps[|ps| - 1] == p
    requires to in a.world && FirstMine(a.world[to]) == Some(i) && MineGoes(a, b, to, i, oid, p, q)
    ensures MinesGo(tr + [b], ps + [q], to, oid)
  {
    var tr', ps', n := tr + [b], ps + [q], |tr|;
    assert tr'[..n] == tr && ps'[..n] == ps;
    assert tr'[n - 1] == tr[n - 1] && tr'[n] == b && ps'[n - 1] == ps[n - 1] && ps'[n] == q;
  }

  /** Where `_damage_object(coord, e, amount, damage_type, responsible)`
      raises: a killed player without an id, a kill that raises (KillRaises
      from the hp written back), a hit that does not kill and Damaged refuses,
      or a coordinate outside the world. */
  ghost predicate DamageRaises(cfg: Config, mode: Mode, order: seq<Coord>, s: GameState, coord: Coord, e: Entity, amount: int,
                               damageType: Val, responsible: Val)
  {
    coord !in s.world
    || if Kills(e, amount)
       then PlayerIdOf(e.obj).None?
            || KillRaises(cfg, mode, order, HpWritten(s, e, amount), PlayerIdOf(e.obj).value, responsible, damageType)
       else Damaged(cfg, s, coord, e, amount, damageType, responsible).None?
  }

  /** Each of `victims` in turn, as it stands in `coord` when its turn comes,
      is damaged (DamageDone, from `tr[k]` to `mids[k]`) and then `coord` is
      marked dirty (giving `tr[k + 1]`): the loops of a blocked `_move` and of
      `_tick_explosions`. */
  ghost predicate HitInTurn(cfg: Config, mode: Mode, order: seq<Coord>, coord: Coord, victims: seq<Entity>, amount: int, damageType: Val,
                            responsible: Val, mids: seq<GameState>, tr: seq<GameState>)
    decreases |victims|
  {
    |tr| == |victims| + 1 && |mids| == |victims|
    && (victims != [] ==>
          var n := |victims| - 1;
          HitInTurn(cfg, mode, order, coord, victims[..n], amount, damageType, responsible, mids[..n], tr[..n + 1])
          && HitStep(cfg, mode, order, coord, victims[n], amount, damageType, responsible, tr[n], mids[n], tr[n + 1]))
  }

  /** One turn of HitInTurn: `v`, as it stands in `coord` in `a`, is damaged
      (giving `mid`), and then `coord` is marked dirty (giving `b`). */
  ghost predicate HitStep(cfg: Config, mode: Mode, order: seq<Coord>, coord: Coord, v: Entity, amount: int, damageType: Val, responsible: Val,
                          a: GameState, mid: GameState, b: GameState)
  {
    coord in a.world
    && DamageDone(cfg, mode, order, a, coord, Current(a.world[coord], v), amount, damageType, responsible, mid)
    && b == mid.(dirtyCoords := mid.dirtyCoords + {coord})
  }

  /** A trace of HitInTurn over all victims but the last, and the turn of the
      last one, make a trace over all of them. */
  lemma HitLast(cfg: Config, mode: Mode, order: seq<Coord>, coord: Coord, victims: seq<Entity>, amount: int, damageType: Val, responsible: Val,
                mids: seq<GameState>, tr: seq<GameState>, mid: GameState, b: GameState)
    requires victims != []
    requires HitInTurn(cfg, mode, order, coord, victims[..|victims| - 1], amount, damageType, responsible, mids, tr)
    requires HitStep(cfg, mode, order, coord, victims[|victims| - 1], amount, damageType, responsible, tr[|victims| - 1], mid, b)
    ensures HitInTurn(cfg, mode, order, coord, victims, amount, damageType, responsible, mids + [mid], tr + [b])
  {
    var n := |victims| - 1;
    assert (mids + [mid])[..n] == mids && (tr + [b])[..n + 1] == tr;
  }

  /** Some trace of HitInTurn over `victims` starts in `s` and ends in `s2`. */
  ghost predicate HitTurns(cfg: Config, mode: Mode, order: seq<Coord>, coord: Coord, victims: seq<Entity>, amount: int,
                           damageType: Val, responsible: Val, s: GameState, s2: GameState)
  {
    exists mids, tr :: HitInTurn(cfg, mode, order, coord, victims, amount, damageType, responsible, mids, tr)
                       && tr[0] == s && tr[|victims|] == s2
  }

  /** The turns of all victims but the last, from `s0` to `a`, and the turn
      of the last one, from `a` to `b`, are the turns of all of them, from
      `s0` to `b`. */
  lemma HitTurnsLast(cfg: Config, mode: Mode, order: seq<Coord>, coord: Coord, victims: seq<Entity>, amount: int,
                     damageType: Val, responsible: Val, s0: GameState, a: GameState, mid: GameState, b: GameState)
    requires victims != []
    requires HitTurns(cfg, mode, order, coord, victims[..|victims| - 1], amount, damageType, responsible, s0, a)
    requires HitStep(cfg, mode, order, coord, victims[|victims| - 1], amount, damageType, responsible, a, mid, b)
    ensures HitTurns(cfg, mode, order, coord, victims, amount, damageType, responsible, s0, b)
  {
    var mids, tr :| HitInTurn(cfg, mode, order, coord, victims[..|victims| - 1], amount, damageType, responsible, mids, tr)
                    && tr[0] == s0 && tr[|victims| - 1] == a;
    HitTraceLast(cfg, mode, order, coord, victims, amount, damageType, responsible, mids, tr, mid, b);
  }

  /** HitLast, read as the turns of all victims from the start of the trace. */
  lemma HitTraceLast(cfg: Config, mode: Mode, order: seq<Coord>, coord: Coord, victims: seq<Entity>, amount: int,
                     damageType: Val, responsible: Val, mids: seq<GameState>, tr: seq<GameState>, mid: GameState, b: GameState)
    requires victims != []
    requires HitInTurn(cfg, mode, order, coord, victims[..|victims| - 1], amount, damageType, responsible, mids, tr)
    requires HitStep(cfg, mode, order, coord, victims[|victims| - 1], amount, damageType, responsible, tr[|victims| - 1], mid, b)
    ensures HitTurns(cfg, mode, order, coord, victims, amount, damageType, responsible, tr[0], b)
  {
    HitLast(cfg, mode, order, coord, victims, amount, damageType, responsible, mids, tr, mid, b);
    assert (tr + [b])[0] == tr[0];
  }

  /** The loop of HitInTurn from `s0` stops at the victim of position `j`:
      the turns of the victims before it take `s0` to `a`, and its own damage
      raises there. */
  ghost predicate HaltsAt(cfg: Config, mode: Mode, order: seq<Coord>, coord: Coord, victims: seq<Entity>, amount: int,
                          damageType: Val, responsible: Val, s0: GameState, j: int, a: GameState)
  {
    0 <= j < |victims|
    && HitTurns(cfg, mode, order, coord, victims[..j], amount, damageType, responsible, s0, a)
    && coord in a.world
    && DamageRaises(cfg, mode, order, a, coord, Current(a.world[coord], victims[j]), amount, damageType, responsible)
  }

  /** Where the loop of HitInTurn over `victims` from `s0` raises: at the
      damage of some victim, after the turns of those before it. */
  ghost predicate HitHalts(cfg: Config, mode: Mode, order: seq<Coord>, coord: Coord, victims: seq<Entity>, amount: int,
                           damageType: Val, responsible: Val, s0: GameState)
  {
    exists j, a :: HaltsAt(cfg, mode, order, coord, victims, amount, damageType, responsible, s0, j, a)
  }

  /** A stop within all victims but the last is a stop within all of them. */
  lemma HaltsLonger(cfg: Config, mode: Mode, order: seq<Coord>, coord: Coord, victims: seq<Entity>, amount: int,
                    damageType: Val, responsible: Val, s0: GameState)
    requires victims != []
    requires HitHalts(cfg, mode, order, coord, victims[..|victims| - 1], amount, damageType, responsible, s0)
    ensures HitHalts(cfg, mode, order, coord, victims, amount, damageType, responsible, s0)
  {
    var j, a :| HaltsAt(cfg, mode, order, coord, victims[..|victims| - 1], amount, damageType, responsible, s0, j, a);
    assert victims[..|victims| - 1][..j] == victims[..j];
    assert HaltsAt(cfg, mode, order, coord, victims, amount, damageType, responsible, s0, j, a);
  }

  /** From position `k` on, the cell holds nothing but objects equal to the
      pool `lava`, which never burns itself. */
  predicate PoolFrom(cell: Cell, lava: Obj, k: nat)
  {
    forall j :: k <= j < |cell| ==> cell[j].obj == lava
  }

  /** The burning walk of `_tick_lava` over the live list of `coord`, from
      position `k` on: from `tr[j]` to `tr[j + 1]` it looks at position
      `k + j` of the list as it then stands (BurnStep). */
  ghost predicate Burned(cfg: Config, mode: Mode, order: seq<Coord>, coord: Coord, lava: Obj, amount: int, k: nat, tr: seq<GameState>)
    decreases |tr|
  {
    |tr| >= 1
    && (|tr| > 1 ==>
          BurnStep(cfg, mode, order, coord, lava, amount, k, tr[0], tr[1])
          && Burned(cfg, mode, order, coord, lava, amount, k + 1, tr[1..]))
  }

  /** One step of Burned, at position `k`: an object equal to the pool is
      passed over, any other takes `amount` of lava damage from the
      environment (DamageDone). */
  ghost predicate BurnStep(cfg: Config, mode: Mode, order: seq<Coord>, coord: Coord, lava: Obj, amount: int, k: nat, a: GameState, b: GameState)
  {
    coord in a.world && k < |a.world[coord]|
    && if a.world[coord][k].obj == lava then b == a
       else DamageDone(cfg, mode, order, a, coord, a.world[coord][k], amount, cfg.damageLava, cfg.originEnvironment, b)
  }

  /** A step at position `k` followed by a walk from `k + 1` is a walk from `k`. */
  lemma BurnFirst(cfg: Config, mode: Mode, order: seq<Coord>, coord: Coord, lava: Obj, amount: int, k: nat, a: GameState, tr: seq<GameState>)
    requires Burned(cfg, mode, order, coord, lava, amount, k + 1, tr)
    requires BurnStep(cfg, mode, order, coord, lava, amount, k, a, tr[0])
    ensures Burned(cfg, mode, order, coord, lava, amount, k, [a] + tr)
  {
    assert ([a] + tr)[1..] == tr;
  }

  /** The mine at position `i` leaves its cell: one mine fewer, the players
      stay, and the state keeps its shape. */
  lemma MineLeaves(s: GameState, cells: set<Coord>, to: Coord, i: nat, oid: nat)
    requires Consistent(s, cells) && to in s.world && i < |s.world[to]| && s.world[to][i].obj.kind == Mine
    requires HoldsPlayer(s.world[to], oid)
    ensures Remove(s.world[to], s.world[to][i].obj).Some?
    ensures var s' := s.(world := s.world[to := Remove(s.world[to], s.world[to][i].obj).value]);
      Consistent(s', cells) && WorldMoves(s, s') && HoldsPlayer(s'.world[to], oid)
      && Mines(s'.world[to]) == Mines(s.world[to]) - 1
  {
    var cell := s.world[to];
    RemoveKeepsHolds(cell, cell[i].obj, oid);
    MinesRemove(cell, cell[i].obj);
    Reworld(s, cells, s.world[to := Remove(cell, cell[i].obj).value]);
  }

  /** An explosion only appends to a cell: its mines and its objects stay. */
  lemma ExplodedKeeps(s: GameState, coord: Coord, size: int, responsible: Val, c: Coord, oid: nat)
    requires c in s.world
    ensures Mines(Exploded(s, coord, size, responsible).world[c]) == Mines(s.world[c])
    ensures HoldsPlayer(s.world[c], oid) ==> HoldsPlayer(Exploded(s, coord, size, responsible).world[c], oid)
    ensures WorldMoves(s, Exploded(s, coord, size, responsible))
  {
    ExplodedReach(s, coord, size, responsible, c);
    var before, after := s.world[c], Exploded(s, coord, size, responsible).world[c];
    if c in BlastArea(s.world, coord, size) {
      assert after == before + [after[|before|]];
      MinesConcat(before, [after[|before|]]);
      assert Mines([after[|before|]]) == 0 by {
        assert [after[|before|]][..0] == [];
      }
      if HoldsPlayer(before, oid) {
        var j :| 0 <= j < |before| && before[j].oid == oid && before[j].obj.kind == Player;
        assert after[j] == before[j];
      }
    }
  }

  /** An update that leaves a player a player keeps the players of a cell. */
  lemma UpdatedHolds(world: World, oid: nat, o: Obj, c: Coord, other: nat)
    requires c in world && HoldsPlayer(world[c], other) && o.kind == Player
    ensures HoldsPlayer(Updated(world, oid, o)[c], other)
  {
    var j :| 0 <= j < |world[c]| && world[c][j].oid == other && world[c][j].obj.kind == Player;
    assert Updated(world, oid, o)[c][j].oid == other;
  }

  /** `BaseGame` (and, by `mode`, `FreeForAllGame` and `TeamGame`). The
      constructor's options become constants; the attributes the methods
      update are held in `state`, so that every method states its whole new
      state as an update of the old one. */
  class BaseGame {
    const cfg: Config
    const mode: Mode
    const id: int
    const name: string
    const maxPlayers: int
    /** VISION_FUNCTIONS[vision]; `admitted` is the peripheral limit `rays` applies. */
    const vision: Vision.VisionFn
    const admitted: Coord -> bool
    /** The cells of the world, and the iteration order of the world dict. */
    const cells: set<Coord>
    const order: seq<Coord>
    /** `Packet.ByteSize()`. */
    const byteSize: Packet -> nat

    var state: GameState

    predicate Valid()
      reads this
    {
      WellFormed(cfg) && Distinct(order) && Elems(order) == cells && Consistent(state, cells)
    }

    /** `__init__`, given the world the map generator produced (in its dict
        order) and the registered vision function the `vision` name selects. */
    constructor (cfg: Config, mode: Mode, maxPlayers: int, world: World, order: seq<Coord>,
                 name: string, id: int, vision: Vision.VisionFn, admitted: Coord -> bool,
                 byteSize: Packet -> nat, firstOid: nat)
      requires WellFormed(cfg) && Distinct(order) && Elems(order) == world.Keys
      ensures Valid()
      ensures state == GameState(world, [], map[], map[], [], map[], false, {}, {}, map[], map[], firstOid, false)
    {
      this.cfg := cfg;
      this.mode := mode;
      this.id := id;
      this.name := name;
      this.maxPlayers := maxPlayers;
      this.vision := vision;
      this.admitted := admitted;
      this.order := order;
      this.cells := world.Keys;
      this.byteSize := byteSize;
      state := GameState(world, [], map[], map[], [], map[], false, {}, {}, map[], map[], firstOid, false);
    }

    /** `find_objs(*kinds)`: every (cell, object) pair of those kinds, cells in
        dict order and objects in list order. */
    method FindObjs(kinds: set<Kind>) returns (found: seq<(Coord, Entity)>)
      requires Valid()
      ensures found == Matches(state.world, order, kinds)
    {
      found := CollectMatches(state.world, order, kinds);
    }

    /** `_find_player(pid)`: the first player object carrying that id. */
    method FindPlayer(pid: int) returns (f: Find)
      requires Valid()
      ensures f == FindPlayerIn(state.world, order, pid)
    {
      var found := FindObjs({Player});
      var i := 0;
      while i < |found|
        invariant 0 <= i <= |found|
        invariant FindIn(found[i..], pid) == FindIn(found, pid)
      {
        assert found[i..][1..] == found[i + 1..];
        var attrs := found[i].1.obj.attrs;
        if "player_id" !in attrs {
          return NoPlayerId;
        }
        if attrs["player_id"] == IntV(pid) {
          return Found(found[i].0, found[i].1);
        }
        i := i + 1;
      }
      f := NotFound;
    }

    /** `_remove_player(pid)`: the player leaves its cell, which becomes dirty;
        nothing changes where `_find_player` raises. */
    method RemovePlayer(pid: int) returns (ok: bool, loc: Coord, player: Entity)
      requires Valid()
      modifies this
      ensures Valid()
      ensures ok <==> FindPlayerIn(old(state).world, order, pid).Found?
      ensures ok ==> loc == FindPlayerIn(old(state).world, order, pid).coord
                     && player == FindPlayerIn(old(state).world, order, pid).player
      ensures state == old(state).(world := WithoutPlayer(old(state).world, order, pid),
                                   dirtyCoords := old(state).dirtyCoords + Vacated(old(state).world, order, pid))
    {
      var f := FindPlayer(pid);
      FoundInWorld(state.world, order, pid);
      if !f.Found? {
        return false, (0, 0), EmptyEntity(0);
      }
      loc, player := f.coord, f.player;
      state := state.(world := state.world[loc := Remove(state.world[loc], player.obj).value],
                      dirtyCoords := state.dirtyCoords + {loc});
      ok := true;
    }

    /** `BaseGame._spawn_player(pid)`: a living player of that id is removed
        first; the new player, with a random facing and the starting
        attributes, is appended to a random cell holding nothing solid. */
    method BaseSpawn(pid: int) returns (ok: bool, loc: Coord, player: Entity)
      requires Valid()
      modifies this
      ensures Valid()
      ensures ok <==> FindPlayerIn(old(state).world, order, pid) != NoPlayerId
                      && Unblocked(WithoutPlayer(old(state).world, order, pid)) != {}
      ensures ok ==> loc in Unblocked(WithoutPlayer(old(state).world, order, pid)) && loc in old(state).world
                     && (exists d :: d in Directions && player == Fresh(old(state), pid, d))
                     && state == BaseSpawned(order, old(state), pid, loc, player)
      ensures ok ==> SpawnedAt(state.world, loc, player)
    {
      var f := FindPlayer(pid);
      if f.NoPlayerId? {
        return false, (0, 0), EmptyEntity(0);
      }
      // A player that is not found is not removed (the source skips the call).
      var removed, at, was := RemovePlayer(pid);
      ok, loc, player := PlaceNewPlayer(pid);
    }

    /** The placement half of `_spawn_player`. */
    method PlaceNewPlayer(pid: int) returns (ok: bool, loc: Coord, player: Entity)
      requires Valid()
      modifies this
      ensures Valid()
      ensures ok <==> Unblocked(old(state).world) != {}
      ensures !ok ==> state == old(state)
      ensures ok ==>
        loc in Unblocked(old(state).world)
        && (exists d :: d in Directions && player == Entity(Obj(Player, NewPlayerAttrs(pid, d)), old(state).nextOid))
        && state == old(state).(world := old(state).world[loc := old(state).world[loc] + [player]],
                                dirtyCoords := old(state).dirtyCoords + {loc},
                                dirtyPlayers := old(state).dirtyPlayers + {pid},
                                nextOid := old(state).nextOid + 1)
      ensures ok ==> SpawnedAt(state.world, loc, player)
    {
      ok, loc, player := PickSpawn(state.world, pid, state.nextOid);
      if ok {
        var cell := state.world[loc];
        state := state.(world := state.world[loc := cell + [player]],
                        dirtyCoords := state.dirtyCoords + {loc},
                        dirtyPlayers := state.dirtyPlayers + {pid},
                        nextOid := state.nextOid + 1);
        assert state.world[loc][..|state.world[loc]| - 1] == cell;
      }
    }

    /** The mines of `FreeForAllGame._spawn_player`: one of size 1 and one of
        size 2, on two different random cells that hold nothing solid. */
    method PlaceMines() returns (ok: bool, ghost m1: Coord, ghost m2: Coord)
      requires Valid()
      modifies this
      ensures Valid()
      ensures ok <==> RoomForMines(old(state).world)
      ensures ok ==> m1 != m2 && m1 in Unblocked(old(state).world) && m2 in Unblocked(old(state).world)
      ensures ok ==> state == Mined(old(state), m1, m2)
    {
      var picked, c1, c2 := PickMineCells(state.world);
      if picked == 0 {
        return false, c1, c2;
      }
      var w := state.world[c1 := state.world[c1] + [MineEntity(1, state.nextOid)]];
      if picked == 1 {
        state := state.(world := w, dirtyCoords := state.dirtyCoords + {c1}, nextOid := state.nextOid + 1);
        return false, c1, c2;
      }
      state := Mined(state, c1, c2);
      ok, m1, m2 := true, c1, c2;
    }

    /** The ammo bonus of `FreeForAllGame._spawn_player`: every player object
        of the world gets 5 more ammo, and its cell becomes dirty. */
    method BumpAmmo() returns (ok: bool)
      requires Valid()
      modifies this
      ensures Valid()
      ensures ok <==> AllArmed(old(state).world)
      ensures ok ==> state == Bonused(old(state))
    {
      var w;
      ok, w := BumpAll(state.world, order);
      if ok {
        state := state.(world := w, dirtyCoords := state.dirtyCoords + CoordsWith(state.world, {Player}));
      }
    }

    /** `_spawn_player(pid)` of the game's mode: exactly what Spawned says
        when it succeeds, and it raises exactly where SpawnRaises says. The
        new player is the last object of a cell that held nothing solid.
        (The free-for-all variant's own return value is a Finding: see
        FreeForAllReturnedCoord.) */
    method SpawnPlayer(pid: int) returns (ok: bool, loc: Coord, player: Entity)
      requires Valid()
      modifies this
      ensures Valid()
      ensures ok ==> Spawned(mode, order, old(state), state, pid, loc, player)
      ensures !ok ==> SpawnRaises(mode, order, old(state), pid, loc, player)
      ensures ok ==> SpawnedAt(state.world, loc, player) && player.oid == old(state).nextOid
      ensures ok ==> exists d :: d in Directions && player.obj == Obj(Player, SpawnAttrs(mode, pid, d))
    {
      ok, loc, player := BaseSpawn(pid);
      if !ok {
        return;
      }
      ghost var d :| d in Directions && player == Fresh(old(state), pid, d);
      if mode == FreeForAll {
        BumpedNewPlayer(pid, d, player.oid);
        var unbumped := player;
        ghost var m1, m2;
        ok, player, m1, m2 := FreeForAllExtras(loc, player);
        if ok {
          assert SpawnedFacing(mode, order, old(state), state, pid, loc, d, player);
        } else {
          player := unbumped;
        }
      } else {
        assert SpawnedFacing(mode, order, old(state), state, pid, loc, d, player);
      }
    }

    /** What `FreeForAllGame._spawn_player` adds after the base spawn: the two
        mines (Mined), then the ammo bonus, which the new player receives too
        (Bonused). It raises exactly when there are no two cells free of
        solid objects or some player's ammo cannot take the bonus. */
    method FreeForAllExtras(loc: Coord, player: Entity) returns (ok: bool, bumped: Entity, ghost m1: Coord, ghost m2: Coord)
      requires Valid() && SpawnedAt(state.world, loc, player) && player.obj.kind == Player
      modifies this
      ensures Valid()
      ensures ok <==> RoomForMines(old(state).world) && AllArmed(old(state).world)
      ensures ok ==> m1 != m2 && m1 in Unblocked(old(state).world) && m2 in Unblocked(old(state).world)
                     && state == Bonused(Mined(old(state), m1, m2))
      ensures ok ==> bumped == Bumped(player) && SpawnedAt(state.world, loc, bumped)
    {
      bumped := player;
      ghost var s1 := state;
      ok, m1, m2 := PlaceMines();
      if ok {
        MinesKeepSpawnedAt(s1.world, loc, player, m1, m2,
                           MineEntity(1, s1.nextOid), MineEntity(2, s1.nextOid + 1));
        ArmedMined(s1, m1, m2);
        ghost var s2 := state;
        ok := BumpAmmo();
        if ok {
          BumpedSpawnedAt(s2.world, loc, player);
          bumped := Bumped(player);
        }
      }
    }

    /** `_make_explosion(coord, size, responsible)`. */
    method MakeExplosion(coord: Coord, size: int, responsible: Val)
      requires Valid()
      modifies this
      ensures Valid()
      ensures state == Exploded(old(state), coord, size, responsible)
    {
      var hood := Neighbourhood(coord, size - 1);
      NeighbourhoodMembers(coord, size - 1);
      var w, added := AppendAll(state.world, hood, Obj(Explosion, ExplosionAttrs(size, responsible)), state.nextOid);
      HoodArea(state.world, coord, size);
      state := state.(world := w, dirtyCoords := state.dirtyCoords + added, nextOid := state.nextOid + |hood|);
    }

    /** `_kill_player(pid, responsible, damage_type)`: the player is removed,
        the responsible party's score moves by ScoreDelta, the victim forgets
        its known world, a death event is queued, and the player respawns
        carrying the victim's `name` and `team`. */
    method KillPlayer(pid: int, responsible: Val, damageType: Val) returns (ok: bool, ghost loc: Coord,
                                                                          ghost before: GameState)
      requires Valid()
      modifies this
      ensures Valid()
      ensures ok ==> Killed(cfg, mode, order, old(state), pid, responsible, damageType, state)
      ensures !FindPlayerIn(old(state).world, order, pid).Found? ==> !ok && state == old(state)
      ensures ok ==> FindPlayerIn(old(state).world, order, pid).Found?
      ensures !ok ==> KillRaises(cfg, mode, order, old(state), pid, responsible, damageType)
      ensures ok ==> WorldMoves(Mourned(cfg, old(state), pid, responsible, damageType), state)
      ensures ok ==> before == Mourned(cfg, old(state).(world := WithoutPlayer(old(state).world, order, pid),
                                                        dirtyCoords := old(state).dirtyCoords + Vacated(old(state).world, order, pid)),
                                       pid, responsible, damageType)
                     && WorldMoves(before, state)
      ensures ok ==>
        (FindPlayerIn(old(state).world, order, pid).Found? &&
         var victim := FindPlayerIn(old(state).world, order, pid).player;
         exists d :: d in Directions &&
           LastIn(state.world, loc, Entity(Obj(Player, Carried(victim.obj.attrs, SpawnAttrs(mode, pid, d))),
                                           old(state).nextOid)))
    {
      var removed, oldLoc, victim := RemovePlayer(pid);
      before := state;
      if !removed {
        return false, oldLoc, before;
      }
      MournedConsistent(cfg, state, cells, pid, responsible, damageType);
      ghost var removedState := state;
      state := Mourned(cfg, state, pid, responsible, damageType);
      before := state;
      ghost var newcomer;
      ok, loc, newcomer := Respawn(pid, victim.obj.attrs);
      if ok {
        MournedMoves(cfg, old(state), removedState, state, pid, responsible, damageType);
      } else {
        assert before == Bereaved(cfg, order, old(state), pid, responsible, damageType);
        assert SpawnRaises(mode, order, Bereaved(cfg, order, old(state), pid, responsible, damageType), pid, loc, newcomer);
      }
    }

    /** The second half of `_kill_player`: the victim spawns again, carrying
        what the victim carried (Respawned); it raises where the spawn does. */
    method Respawn(pid: int, carry: Attrs) returns (ok: bool, ghost loc: Coord, ghost newcomer: Entity)
      requires Valid()
      modifies this
      ensures Valid()
      ensures ok ==> Respawned(mode, order, old(state), state, pid, carry)
      ensures !ok ==> SpawnRaises(mode, order, old(state), pid, loc, newcomer)
      ensures ok ==> WorldMoves(old(state), state)
      ensures ok ==>
        exists d :: d in Directions &&
          LastIn(state.world, loc, Entity(Obj(Player, Carried(carry, SpawnAttrs(mode, pid, d))), old(state).nextOid))
    {
      var player;
      ok, loc, player := SpawnPlayer(pid);
      newcomer := player;
      if ok {
        SpawnedMoves(mode, order, old(state), state, pid, loc, player);
        ghost var d :| d in Directions && player.obj == Obj(Player, SpawnAttrs(mode, pid, d));
        assert LastIn(state.world, loc, player);
        CarryOver(loc, player, carry);
        assert Carried(carry, player.obj.attrs) == Carried(carry, SpawnAttrs(mode, pid, d));
      }
    }

    /** The new player object takes the `name` and `team` of `carry`, in
        place, and stays the last of its cell. */
    method CarryOver(ghost loc: Coord, player: Entity, carry: Attrs)
      requires Valid() && LastIn(state.world, loc, player)
      modifies this
      ensures Valid()
      ensures state == old(state).(world := Updated(old(state).world, player.oid, Obj(Player, Carried(carry, player.obj.attrs))))
      ensures LastIn(state.world, loc, Entity(Obj(Player, Carried(carry, player.obj.attrs)), player.oid))
    {
      var carried := Obj(Player, Carried(carry, player.obj.attrs));
      UpdatedLast(state.world, loc, player, carried);
      Reworld(state, cells, Updated(state.world, player.oid, carried));
      state := state.(world := Updated(state.world, player.oid, carried));
    }

    /** `_damage_object(coord, e, amount, damage_type, responsible)`: the
        object's hp is lowered; a player at hp <= 0 is killed, any other object
        at hp <= 0 is destroyed; then a cell left with only temporary objects
        gets an EMPTY at its front. */
    method DamageObject(coord: Coord, e: Entity, amount: int, damageType: Val, responsible: Val) returns (ok: bool)
      requires Valid()
      modifies this
      ensures Valid()
      ensures !Kills(e, amount) ==>
        (ok <==> Damaged(cfg, old(state), coord, e, amount, damageType, responsible).Some? && coord in old(state).world)
      ensures ok ==> DamageDone(cfg, mode, order, old(state), coord, e, amount, damageType, responsible, state)
      ensures !ok ==> DamageRaises(cfg, mode, order, old(state), coord, e, amount, damageType, responsible)
    {
      if Kills(e, amount) {
        ok := DamageToDeath(e, amount, damageType, responsible);
      } else {
        ok := Hurt(coord, e, amount, damageType, responsible);
      }
      if ok {
        ok := Finish(coord);
      }
    }

    /** The last step of `_damage_object`: a cell left holding only temporary
        objects gets a fresh empty floor object in front of them, so that it
        always holds a lasting one; a coordinate outside the world fails. */
    method Finish(coord: Coord) returns (ok: bool)
      requires Valid()
      modifies this
      ensures Valid()
      ensures ok <==> coord in old(state).world
      ensures ok ==> state == Finished(cfg, old(state), coord) && WorldMoves(old(state), state)
      ensures ok ==> !Only(state.world[coord], cfg.temporaryObjects)
      ensures !ok ==> state == old(state)
    {
      ok := coord in state.world;
      if ok {
        FinishedLasting(cfg, state, coord);
        FinishedMoves(cfg, state, coord);
        state := Finished(cfg, state, coord);
      }
    }

    /** `_damage_object` on a player whose hp falls to zero or below: the hp
        is written back, then the player is killed and respawns. */
    method DamageToDeath(e: Entity, amount: int, damageType: Val, responsible: Val) returns (ok: bool)
      requires Valid() && Kills(e, amount)
      modifies this
      ensures Valid()
      ensures ok ==>
        PlayerIdOf(e.obj).Some? && WorldMoves(Mourned(cfg, old(state), PlayerIdOf(e.obj).value, responsible, damageType), state)
      ensures ok ==>
        PlayerIdOf(e.obj).Some? && Killed(cfg, mode, order, HpWritten(old(state), e, amount), PlayerIdOf(e.obj).value,
                                          responsible, damageType, state)
      ensures PlayerIdOf(e.obj).None? ==> !ok
      ensures !ok ==> PlayerIdOf(e.obj).None?
                      || KillRaises(cfg, mode, order, HpWritten(old(state), e, amount), PlayerIdOf(e.obj).value,
                                    responsible, damageType)
    {
      var hit := Hit(e.obj, HpOf(e.obj).value - amount);
      state := state.(world := Updated(state.world, e.oid, hit));
      ghost var hitState := state;
      assert hitState == HpWritten(old(state), e, amount);
      var pid := PlayerIdOf(e.obj);
      if pid.None? {
        return false;
      }
      ghost var loc, before;
      ok, loc, before := KillPlayer(pid.value, responsible, damageType);
      if ok {
        MournedMoves(cfg, old(state), hitState, state, pid.value, responsible, damageType);
      }
    }

    /** `_damage_object` in every case but a killed player: the hp is written
        back; a surviving player queues a damage event; any other object at
        hp <= 0 (a player there would be killed) leaves its cell, and a mine
        explodes. */
    method Hurt(coord: Coord, e: Entity, amount: int, damageType: Val, responsible: Val) returns (ok: bool)
      requires Valid() && !Kills(e, amount)
      modifies this
      ensures Valid()
      ensures ok <==> Damaged(cfg, old(state), coord, e, amount, damageType, responsible).Some?
      ensures ok ==> state == Damaged(cfg, old(state), coord, e, amount, damageType, responsible).value
    {
      ok := false;
      var h := HpOf(e.obj);
      if h.Some? {
        var hp := h.value - amount;
        var hit := Hit(e.obj, hp);
        var s1 := state.(world := Updated(state.world, e.oid, hit));
        DamagedCases(cfg, state, coord, e, amount, damageType, responsible, hp, hit, s1);
        Reworld(state, cells, Updated(state.world, e.oid, hit));
        state := s1;
        if hp <= 0 {
          ok := Destroy(coord, hit, responsible);
        } else if e.obj.kind != Player {
          ok := true;
        } else {
          var pid := PlayerIdOf(e.obj);
          if pid.Some? {
            state := state.(events := state.events + [Event(pid.value, cfg.statusDamaged, responsible, damageType)]);
            ok := true;
          }
        }
      }
    }

    /** The destruction step of `_damage_object`: the object (a player there
        would be killed instead) is removed from its cell, and a mine
        explodes. */
    method Destroy(coord: Coord, hit: Obj, responsible: Val) returns (ok: bool)
      requires Valid()
      modifies this
      ensures Valid()
      ensures ok <==> Destroyed(old(state), coord, hit, responsible).Some?
      ensures ok ==> state == Destroyed(old(state), coord, hit, responsible).value
    {
      ok := false;
      if coord in state.world {
        var rest := Remove(state.world[coord], hit);
        if rest.Some? {
          TakenConsistent(state, cells, coord, rest.value);
          state := state.(world := state.world[coord := rest.value], dirtyCoords := state.dirtyCoords + {coord});
          if hit.kind != Mine {
            ok := true;
          } else {
            var size := IntAttr(hit.attrs, "size");
            if size.Some? {
              MakeExplosion(coord, size.value, responsible);
              ok := true;
            }
          }
        }
      }
    }

    // ---- player actions ----

    /** `_look(player, location, arg)`: see Looked. */
    method Look(loc: Coord, player: Entity, arg: Const) returns (ok: bool)
      requires Valid() && loc in state.world
      modifies this
      ensures Valid()
      ensures Looked(old(state), state, loc, player, arg, ok)
    {
      state := state.(world := Updated(state.world, player.oid, Faced(player.obj, arg)));
      var pid := PlayerIdOf(player.obj);
      if pid.None? {
        return false;
      }
      state := state.(dirtyCoords := state.dirtyCoords + {loc}, dirtyPlayers := state.dirtyPlayers + {pid.value});
      ok := true;
    }

    /** `_fire(player, location, arg)`: see ShotTaken. */
    method Fire(loc: Coord, player: Entity, arg: Const) returns (ok: bool)
      requires Valid() && loc in state.world && (arg.NumC? ==> arg.n >= 1)
      modifies this
      ensures Valid()
      ensures ShotTaken(cfg, old(state), state, loc, player, arg, ok)
    {
      var facing := Get(player.obj.attrs, "direction");
      var owner := Get(player.obj.attrs, "player_id");
      var ammo := IntAttr(player.obj.attrs, "ammo");
      ok := false;
      if facing.Some? && owner.Some? && ammo.Some? {
        var shot := ShotFor(cfg, arg, ammo.value);
        if shot.Nothing? {
          ok := true;
        } else if shot.Fired? {
          var paid := Updated(state.world, player.oid, Spent(player.obj, ammo.value, shot.cost));
          Reworld(state, cells, paid);
          state := state.(world := paid);
          if DirOfVal(facing.value).Some? {
            var bullet := Obj(shot.kind, BulletAttrs(owner.value, facing.value, shot.size));
            PlacedConsistent(state, cells, loc, bullet);
            state := Placed(state, loc, bullet);
            ok := true;
          }
        }
      }
    }

    /** `_move(player, location, arg)`: see Moved. */
    method Move(loc: Coord, player: Entity, arg: Const) returns (ok: bool)
      requires Valid() && loc in state.world && player.obj.kind == Player
      modifies this
      ensures Valid()
      ensures Moved(cfg, mode, order, old(state), state, loc, player, arg, ok)
      ensures !ok ==>
        Remove(old(state).world[loc], player.obj).None? || !arg.DirC?
        || StepRaises(cfg, mode, order, old(state).(world := old(state).world[loc := Remove(old(state).world[loc], player.obj).value]),
                      loc, Step(loc, arg.dir), player)
    {
      var rest := Remove(state.world[loc], player.obj);
      if rest.None? {
        ok := false;
      } else {
        Reworld(state, cells, state.world[loc := rest.value]);
        state := state.(world := state.world[loc := rest.value]);
        if !arg.DirC? {
          ok := false;
        } else {
          ok := StepTo(loc, Step(loc, arg.dir), player);
        }
      }
    }

    /** The step of `_move` once the player has left `loc`: blocked (Bounce)
        or free (Enter). */
    method StepTo(loc: Coord, target: Coord, player: Entity) returns (ok: bool)
      requires Valid() && loc in state.world && player.obj.kind == Player && target != loc
      modifies this
      ensures Valid()
      ensures Stepped(cfg, mode, order, old(state), state, loc, target, player, ok)
      ensures !ok ==> StepRaises(cfg, mode, order, old(state), loc, target, player)
    {
      if target !in state.world || Solid(state.world[target]) {
        ok := Bounce(loc, target, player);
      } else {
        var pid := PlayerIdOf(player.obj);
        var facing := Get(player.obj.attrs, "direction");
        if pid.None? || facing.None? {
          ok := false;
        } else {
          ok := Enter(loc, target, player, pid.value);
        }
      }
    }

    /** The blocked step of `_move`: the player goes back to the end of its
        own cell, then stabs the players of the blocking cell, if any (see
        Stab, whose turns start from the state with the player back). */
    method Bounce(loc: Coord, target: Coord, player: Entity) returns (ok: bool)
      requires Valid() && loc in state.world && target != loc
      modifies this
      ensures Valid()
      ensures target !in old(state).world || NoPlayers(old(state).world[target]) ==>
        ok && state == old(state).(world := old(state).world[loc := old(state).world[loc] + [player]])
      ensures ok && target in old(state).world && !NoPlayers(old(state).world[target]) ==>
        target in state.dirtyCoords && Get(player.obj.attrs, "player_id").Some?
        && HitTurns(cfg, mode, order, target, PlayersIn(old(state).world[target]), cfg.stabDamage, cfg.damageStab,
                    Get(player.obj.attrs, "player_id").value,
                    old(state).(world := old(state).world[loc := old(state).world[loc] + [player]]), state)
      ensures !ok ==>
        target in old(state).world && !NoPlayers(old(state).world[target])
        && (Get(player.obj.attrs, "player_id").None?
            || HitHalts(cfg, mode, order, target, PlayersIn(old(state).world[target]), cfg.stabDamage, cfg.damageStab,
                        Get(player.obj.attrs, "player_id").value,
                        old(state).(world := old(state).world[loc := old(state).world[loc] + [player]])))
    {
      Reworld(state, cells, state.world[loc := state.world[loc] + [player]]);
      state := state.(world := state.world[loc := state.world[loc] + [player]]);
      if target in state.world {
        ok := Stab(target, player.obj);
      } else {
        ok := true;
      }
    }

    /** The free step of `_move`: the player, gone from `loc`, is appended to
        `target`; both cells and the player are marked dirty; then the mines
        of `target` go off. */
    method Enter(loc: Coord, target: Coord, player: Entity, pid: int) returns (ok: bool)
      requires Valid() && loc in state.world && target in state.world && player.obj.kind == Player
      modifies this
      ensures Valid()
      ensures ok ==> WorldMoves(old(state), state)
                     && target in state.world && HoldsPlayer(state.world[target], player.oid)
                     && Mines(state.world[target]) == 0
                     && {loc, target} <= state.dirtyCoords && pid in state.dirtyPlayers
      ensures ok ==> MinesSetOff(Entered(old(state), loc, target, player, pid), state, target, player.oid, player.obj)
      ensures !ok ==> Mines(old(state).world[target]) > 0
    {
      assert (state.world[target] + [player])[..|state.world[target]|] == state.world[target];
      var w := state.world[target := state.world[target] + [player]];
      Reworld(state, cells, w);
      state := state.(world := w);
      MarkedConsistent(state, cells, {loc, target}, {pid});
      state := state.(dirtyCoords := state.dirtyCoords + {loc, target}, dirtyPlayers := state.dirtyPlayers + {pid});
      assert state.world[target][|state.world[target]| - 1] == player;
      ghost var q;
      ghost var entered := state;
      ok, q := MoveInto(player, loc, target);
      if ok {
        MinesDone(entered, state, target, player.oid, player.obj, q);
      }
    }

    /** The stabbing of a blocked `_move`: each player the blocking cell held
        when the stabbing began takes STAB_DAMAGE of the stab damage type on
        the mover's account, and the cell is marked dirty after each (see
        HitEach). A cell without players is left alone. */
    method Stab(target: Coord, mover: Obj) returns (ok: bool)
      requires Valid() && target in state.world
      modifies this
      ensures Valid()
      ensures NoPlayers(old(state).world[target]) ==> ok && state == old(state)
      ensures ok && !NoPlayers(old(state).world[target]) ==>
        target in state.dirtyCoords && Get(mover.attrs, "player_id").Some?
        && HitTurns(cfg, mode, order, target, PlayersIn(old(state).world[target]), cfg.stabDamage, cfg.damageStab,
                    Get(mover.attrs, "player_id").value, old(state), state)
      ensures !ok ==>
        !NoPlayers(old(state).world[target])
        && (Get(mover.attrs, "player_id").None?
            || HitHalts(cfg, mode, order, target, PlayersIn(old(state).world[target]), cfg.stabDamage, cfg.damageStab,
                        Get(mover.attrs, "player_id").value, old(state)))
    {
      var victims := PlayersIn(state.world[target]);
      var responsible := Get(mover.attrs, "player_id");
      if victims == [] {
        ok := true;
      } else if responsible.None? {
        ok := false;
      } else {
        ok := HitEach(target, victims, cfg.stabDamage, cfg.damageStab, responsible.value);
      }
    }

    /** One turn of HitEach: `v`, as it now stands in `coord`, is damaged
        (giving `mid`), and then `coord` is marked dirty. */
    method HitOne(coord: Coord, v: Entity, amount: int, damageType: Val, responsible: Val)
      returns (ok: bool, ghost mid: GameState)
      requires Valid() && coord in state.world
      modifies this
      ensures Valid() && coord in state.world
      ensures ok ==> HitStep(cfg, mode, order, coord, v, amount, damageType, responsible, old(state), mid, state)
                     && coord in state.dirtyCoords
      ensures !ok ==> DamageRaises(cfg, mode, order, old(state), coord, Current(old(state).world[coord], v), amount,
                                   damageType, responsible)
    {
      ok := DamageObject(coord, Current(state.world[coord], v), amount, damageType, responsible);
      mid := state;
      if ok {
        MarkDirty(coord);
      }
    }

    /** `self._dirty_coords.add(coord)`. */
    method MarkDirty(coord: Coord)
      requires Valid() && coord in state.world
      modifies this
      ensures Valid() && coord in state.world
      ensures state == old(state).(dirtyCoords := old(state).dirtyCoords + {coord})
    {
      MarkedConsistent(state, cells, {coord}, {});
      state := state.(dirtyCoords := state.dirtyCoords + {coord});
    }

    /** The loop that stabbing and explosions share: each of `victims` in
        turn, as it stands in `coord` when its turn comes, takes `amount` of
        `damageType` on `responsible`'s account (DamageObject), and then
        `coord` is marked dirty. It stops at the first damage that raises. */
    method HitEach(coord: Coord, victims: seq<Entity>, amount: int, damageType: Val, responsible: Val) returns (ok: bool)
      requires Valid() && coord in state.world
      modifies this
      ensures Valid() && coord in state.world
      ensures ok ==> HitTurns(cfg, mode, order, coord, victims, amount, damageType, responsible, old(state), state)
      ensures ok && victims != [] ==> coord in state.dirtyCoords
      ensures !ok ==> HitHalts(cfg, mode, order, coord, victims, amount, damageType, responsible, old(state))
      decreases |victims|, 1
    {
      if victims == [] {
        ok := true;
        assert HitInTurn(cfg, mode, order, coord, victims, amount, damageType, responsible, [], [state]);
      } else {
        ok := HitAll(coord, victims, amount, damageType, responsible);
      }
    }

    /** HitEach over a non-empty `victims`: all but the last in turn, then
        the last (HitNext). */
    method HitAll(coord: Coord, victims: seq<Entity>, amount: int, damageType: Val, responsible: Val) returns (ok: bool)
      requires Valid() && coord in state.world && victims != []
      modifies this
      ensures Valid() && coord in state.world
      ensures ok ==> HitTurns(cfg, mode, order, coord, victims, amount, damageType, responsible, old(state), state)
                     && coord in state.dirtyCoords
      ensures !ok ==> HitHalts(cfg, mode, order, coord, victims, amount, damageType, responsible, old(state))
      decreases |victims|, 0
    {
      ok := HitEach(coord, victims[..|victims| - 1], amount, damageType, responsible);
      if ok {
        ok := HitNext(coord, victims, amount, damageType, responsible, old(state));
      } else {
        HaltsLonger(cfg, mode, order, coord, victims, amount, damageType, responsible, old(state));
      }
    }

    /** The last turn of HitEach: with the turns of all victims but the
        last taking `s0` to the current state, the last victim is hit and the
        turns of all of them take `s0` to the new state. */
    method HitNext(coord: Coord, victims: seq<Entity>, amount: int, damageType: Val, responsible: Val, ghost s0: GameState)
      returns (ok: bool)
      requires Valid() && coord in state.world && victims != []
      requires HitTurns(cfg, mode, order, coord, victims[..|victims| - 1], amount, damageType, responsible, s0, state)
      modifies this
      ensures Valid() && coord in state.world
      ensures ok ==> HitTurns(cfg, mode, order, coord, victims, amount, damageType, responsible, s0, state)
                     && coord in state.dirtyCoords
      ensures !ok ==> HitHalts(cfg, mode, order, coord, victims, amount, damageType, responsible, s0)
    {
      ghost var a := state;
      ghost var mid;
      ok, mid := HitOne(coord, victims[|victims| - 1], amount, damageType, responsible);
      if ok {
        HitTurnsLast(cfg, mode, order, coord, victims, amount, damageType, responsible, s0, a, mid, state);
      } else {
        assert HaltsAt(cfg, mode, order, coord, victims, amount, damageType, responsible, s0, |victims| - 1, a);
      }
    }

    /** `_move_into(player, old_location, new_location)`, with the mines of
        the new cell each set off in turn (see the MineWalk finding for the
        loop as written): each mine leaves the cell; with the probability its
        chance names it is disarmed and the player gains DisarmBonus ammo,
        otherwise it explodes with its own size on the player's account. The
        player stays in the cell and only the world, the dirty cells and the
        identity counter change; a cell without mines is left alone. */
    method MoveInto(player: Entity, from: Coord, to: Coord) returns (ok: bool, ghost q: Obj)
      requires Valid() && to in state.world && player.obj.kind == Player && HoldsPlayer(state.world[to], player.oid)
      modifies this
      ensures Valid() && to in state.world
      ensures WorldMoves(old(state), state) && Marks(old(state), state)
      ensures HoldsPlayer(state.world[to], player.oid)
      ensures ok ==> Mines(state.world[to]) == 0
      ensures ok ==> MinesRun(old(state), state, to, player.oid, player.obj, q)
      ensures Mines(old(state).world[to]) == 0 ==> ok && state == old(state)
    {
      var step := DirOf((to.0 - from.0, to.1 - from.1));
      var p := player.obj;
      var first := FirstMine(state.world[to]);
      NoMineCounted(state.world[to]);
      MinesRunStart(state, to, player.oid, p);
      while first.Some?
        invariant Valid() && to in state.world && p.kind == Player
        invariant MinesRun(old(state), state, to, player.oid, player.obj, p)
        invariant WorldMoves(old(state), state) && Marks(old(state), state)
        invariant HoldsPlayer(state.world[to], player.oid)
        invariant first == FirstMine(state.world[to])
        invariant first.None? <==> Mines(state.world[to]) == 0
        invariant Mines(old(state).world[to]) == 0 ==> state == old(state)
        decreases Mines(state.world[to])
      {
        ok, p := SetOffFirst(player.oid, p, step, to, old(state), player.obj);
        if !ok {
          q := p;
          return;
        }
        first := FirstMine(state.world[to]);
        NoMineCounted(state.world[to]);
      }
      ok, q := true, p;
    }

    /** The next turn of `_move_into`: the first mine of `to` goes off
        (TriggerMine), extending the run of mines from `s0` (MinesRun). */
    method SetOffFirst(playerOid: nat, p: Obj, step: Option<Dir>, to: Coord, ghost s0: GameState, ghost p0: Obj)
      returns (ok: bool, q: Obj)
      requires Valid() && to in state.world && FirstMine(state.world[to]).Some?
      requires p.kind == Player && HoldsPlayer(state.world[to], playerOid)
      requires MinesRun(s0, state, to, playerOid, p0, p)
      modifies this
      ensures Valid() && to in state.world && q.kind == Player
      ensures WorldMoves(old(state), state) && Marks(old(state), state)
      ensures HoldsPlayer(state.world[to], playerOid)
      ensures ok ==> Mines(state.world[to]) < Mines(old(state).world[to])
      ensures ok ==> MinesRun(s0, state, to, playerOid, p0, q)
    {
      var i := FirstMine(state.world[to]).value;
      ghost var a := state;
      ok, q := TriggerMine(playerOid, p, step, to, i);
      if ok {
        MinesRunNext(s0, a, to, playerOid, p0, p, i, state, q);
      }
    }

    /** One mine of `_move_into`: the mine at position `i` leaves the cell;
        it is disarmed, which pays the player (whose object is `p`) its
        DisarmBonus, or it explodes on the player's account. */
    method TriggerMine(playerOid: nat, p: Obj, step: Option<Dir>, to: Coord, i: nat) returns (ok: bool, q: Obj)
      requires Valid() && to in state.world && i < |state.world[to]| && state.world[to][i].obj.kind == Mine
      requires p.kind == Player && HoldsPlayer(state.world[to], playerOid)
      modifies this
      ensures Valid() && to in state.world && q.kind == Player
      ensures WorldMoves(old(state), state) && Marks(old(state), state)
      ensures HoldsPlayer(state.world[to], playerOid)
      ensures Mines(state.world[to]) <= Mines(old(state).world[to])
      ensures ok ==> Mines(state.world[to]) < Mines(old(state).world[to])
      ensures ok ==> MineGoes(old(state), state, to, i, playerOid, p, q)
      ensures MineStuck(step, p, old(state).world[to][i].obj) ==> !ok
      ensures !ok ==>
        MineStuck(step, p, old(state).world[to][i].obj) || IntAttr(p.attrs, "ammo").None?
        || Get(p.attrs, "player_id").None? || AsInt(Get(old(state).world[to][i].obj.attrs, "size").value).None?
    {
      q := p;
      ok := false;
      var mine := state.world[to][i];
      if MineStuck(step, p, mine.obj) {
        return;
      }
      var chance := ChanceOf(step, Get(p.attrs, "direction").value).value;
      var size := Get(mine.obj.attrs, "size").value;
      MineLeaves(state, cells, to, i, playerOid);
      ghost var a := state;
      state := state.(world := state.world[to := Remove(state.world[to], mine.obj).value]);
      assert state == MineLeft(a, to, i);
      ok, q := GoOff(playerOid, p, to, chance, size);
    }

    /** The draw of a mine of `size` that has left `to`: with the
        probability of `chance` it is disarmed (Disarm), otherwise it
        explodes on the player's account (Detonate). */
    method GoOff(playerOid: nat, p: Obj, to: Coord, chance: MineChance, size: Val) returns (ok: bool, q: Obj)
      requires Valid() && to in state.world && p.kind == Player && HoldsPlayer(state.world[to], playerOid)
      modifies this
      ensures Valid() && to in state.world && q.kind == Player
      ensures WorldMoves(old(state), state) && Marks(old(state), state)
      ensures HoldsPlayer(state.world[to], playerOid)
      ensures Mines(state.world[to]) <= Mines(old(state).world[to])
      ensures ok ==> Disarmed(old(state), state, playerOid, size, p, q) || Detonated(old(state), state, to, size, p, q)
      ensures !ok ==> IntAttr(p.attrs, "ammo").None? || Get(p.attrs, "player_id").None? || AsInt(size).None?
    {
      q := p;
      ok := false;
      var quiet := Quiet(chance);
      if quiet {
        ok, q := Disarm(playerOid, p, to, size);
      } else {
        var pid := Get(p.attrs, "player_id");
        var n := AsInt(size);
        if pid.Some? && n.Some? {
          Detonate(playerOid, to, n.value, pid.value);
          ok := true;
        }
      }
    }

    /** `chance > self.random.random()`: the mine stays quiet when a draw
        in [0, 1) the model does not predict falls below the probability of
        its chance. */
    method Quiet(chance: MineChance) returns (quiet: bool)
    {
      var draw: real :| 0.0 <= draw < 1.0;
      quiet := Probability(cfg, chance) > draw;
    }

    /** A mine that goes off explodes with its size on the player's account;
        the cell keeps its players and gains no mine. */
    method Detonate(playerOid: nat, to: Coord, size: int, responsible: Val)
      requires Valid() && to in state.world && HoldsPlayer(state.world[to], playerOid)
      modifies this
      ensures Valid() && to in state.world
      ensures state == Exploded(old(state), to, size, responsible)
      ensures WorldMoves(old(state), state) && Marks(old(state), state)
      ensures HoldsPlayer(state.world[to], playerOid)
      ensures Mines(state.world[to]) == Mines(old(state).world[to])
    {
      ExplodedKeeps(state, to, size, responsible, to, playerOid);
      MakeExplosion(to, size, responsible);
    }

    /** A disarmed mine of `size` pays the player its DisarmBonus in ammo. */
    method Disarm(playerOid: nat, p: Obj, to: Coord, size: Val) returns (ok: bool, q: Obj)
      requires Valid() && to in state.world && p.kind == Player && HoldsPlayer(state.world[to], playerOid)
      modifies this
      ensures Valid() && to in state.world && q.kind == Player
      ensures WorldMoves(old(state), state) && Marks(old(state), state)
      ensures HoldsPlayer(state.world[to], playerOid)
      ensures Mines(state.world[to]) <= Mines(old(state).world[to])
      ensures ok <==> IntAttr(p.attrs, "ammo").Some?
      ensures ok ==> q == Obj(Player, p.attrs["ammo" := IntV(IntAttr(p.attrs, "ammo").value + DisarmBonus(size))])
                     && state == old(state).(world := Updated(old(state).world, playerOid, q))
      ensures !ok ==> state == old(state)
    {
      q := p;
      var ammo := IntAttr(p.attrs, "ammo");
      if ammo.None? {
        return false, q;
      }
      q := Obj(Player, p.attrs["ammo" := IntV(ammo.value + DisarmBonus(size))]);
      UpdatedHolds(state.world, playerOid, q, to, playerOid);
      MinesSetObj(state.world[to], playerOid, q);
      Reworld(state, cells, Updated(state.world, playerOid, q));
      state := state.(world := Updated(state.world, playerOid, q));
      ok := true;
    }

    // ---- reporting ----

    /** `_event_check`: the queued events are popped from the end, the
        DAMAGED and DEATH ones becoming status packets (see EventMsgs and
        EventMsgsReversed); the queue is left empty. */
    method EventCheck() returns (out: seq<Out>)
      requires Valid()
      modifies this
      ensures Valid()
      ensures out == EventMsgs(cfg, id, old(state).events)
      ensures state == old(state).(events := [])
    {
      out := [];
      var events := state.events;
      while events != []
        invariant out + EventMsgs(cfg, id, events) == EventMsgs(cfg, id, old(state).events)
        decreases |events|
      {
        var e := events[|events| - 1];
        events := events[..|events| - 1];
        if e.status == cfg.statusDamaged || e.status == cfg.statusDeath {
          out := out + [EventMsg(id, e)];
        }
      }
      state := state.(events := []);
    }

    /** `BaseGame._determine_can_see(coord, player)`: the cells the game's
        vision function gives for the player's facing. It raises where the
        facing is missing, where the function raises, and where the cells are
        not all cells of the world (the source's assertion). */
    method CanSee(coord: Coord, player: Obj) returns (ok: bool, visible: set<Coord>, ghost seen: Option<set<Coord>>)
      requires Valid()
      ensures Facing(player).Some? ==> Vision.Sees(vision, state.world, coord, Facing(player).value, seen)
      ensures ok <==> Facing(player).Some? && seen.Some? && seen.value <= cells
      ensures ok ==> visible == seen.value
    {
      visible := {};
      seen := None;
      ok := false;
      var facing := Facing(player);
      if facing.Some? {
        var r := Vision.See(vision, state.world, coord, facing.value, admitted);
        seen := r;
        if r.Some? && r.value <= state.world.Keys {
          ok := true;
          visible := r.value;
        }
      }
    }

    /** `TeamGame._determine_can_see`, corrected: the viewer's own cells and
        those of every teammate found on the map (Teammates; see
        EnemySharesVision for the loop as written). Reading the viewer's
        `team`, or its `player_id` when anyone has joined, can raise. */
    method TeamCanSee(coord: Coord, player: Obj)
      returns (ok: bool, visible: set<Coord>, ghost own: set<Coord>, ghost mates: seq<(Coord, Entity)>, ghost views: seq<set<Coord>>)
      requires Valid()
      ensures ok ==> Facing(player).Some? && Vision.Sees(vision, state.world, coord, Facing(player).value, Some(own))
      ensures ok ==> Get(player.attrs, "team").Some? && (Get(player.attrs, "player_id").Some? || state.players == [])
      ensures ok && Get(player.attrs, "player_id").None? ==> mates == []
      ensures ok && Get(player.attrs, "player_id").Some? ==>
        Teammates(state.world, order, state.players, Get(player.attrs, "player_id").value,
                  Get(player.attrs, "team").value) == Some(mates)
      ensures ok ==> |views| == |mates| && forall k :: 0 <= k < |mates| ==>
        Facing(mates[k].1.obj).Some? && Vision.Sees(vision, state.world, mates[k].0, Facing(mates[k].1.obj).value, Some(views[k]))
      ensures ok ==> visible == own + UnionOf(views) && visible <= cells
    {
      mates, views := [], [];
      ghost var seen;
      ok, visible, seen := CanSee(coord, player);
      own := visible;
      var team := Get(player.attrs, "team");
      var me := Get(player.attrs, "player_id");
      if !ok || team.None? || (me.None? && state.players != []) {
        ok := false;
        return;
      }
      if me.None? {
        return;
      }
      var i := 0;
      while i < |state.players| && ok
        invariant 0 <= i <= |state.players|
        invariant ok ==> Teammates(state.world, order, state.players[..i], me.value, team.value) == Some(mates)
        invariant ok ==> |views| == |mates| && forall k :: 0 <= k < |mates| ==>
          Facing(mates[k].1.obj).Some? && Vision.Sees(vision, state.world, mates[k].0, Facing(mates[k].1.obj).value, Some(views[k]))
        invariant ok ==> visible == own + UnionOf(views) && visible <= cells
      {
        var pid := state.players[i];
        assert state.players[..i + 1][..i] == state.players[..i];
        if IntV(pid) != me.value {
          var f := FindPlayer(pid);
          if f.NoPlayerId? {
            ok := false;
          } else if f.Found? && Get(f.player.obj.attrs, "team") == team {
            var seenOk, v;
            ghost var vs;
            seenOk, v, vs := CanSee(f.coord, f.player.obj);
            if seenOk {
              assert (views + [v])[..|views|] == views;
              mates := mates + [(f.coord, f.player)];
              views := views + [v];
              visible := visible + v;
            } else {
              ok := false;
            }
          }
        }
        i := i + 1;
      }
      if ok {
        assert state.players[..|state.players|] == state.players;
      }
    }

    /** The vision update `_flush_dirty` makes for one joined player: nothing
        for a player not on the map; otherwise the player's remembered world
        is updated with the cells it can see (see SendUpdate). `_find_player`
        and the vision function can raise. */
    method FlushPlayer(pid: int) returns (ok: bool, out: seq<Out>, ghost visible: set<Coord>)
      requires Valid() && pid in state.players
      modifies this
      ensures Valid()
      ensures FindPlayerIn(old(state).world, order, pid).NoPlayerId? ==> !ok && state == old(state)
      ensures FindPlayerIn(old(state).world, order, pid).NotFound? ==> ok && out == [] && state == old(state)
      ensures ok && FindPlayerIn(old(state).world, order, pid).Found? ==>
        visible <= cells && state == Remembered(cfg, old(state), pid, visible)
      ensures forall o :: o in out ==> o.to == pid && o.msg.Vision?
    {
      out, visible := [], {};
      var f := FindPlayer(pid);
      if f.NoPlayerId? {
        return false, out, visible;
      }
      if f.NotFound? {
        return true, out, visible;
      }
      var seen;
      if mode == TeamBase {
        ghost var own, mates, views;
        ok, seen, own, mates, views := TeamCanSee(f.coord, f.player.obj);
      } else {
        ghost var r;
        ok, seen, r := CanSee(f.coord, f.player.obj);
      }
      if ok {
        visible := seen;
        ghost var sent;
        ok, out, sent := SendUpdate(pid, seen);
      }
    }

    /** The rest of `_flush_dirty`'s loop body for a player who sees
        `visible`: `_update_known_world` with the player's dirty cells
        (DirtyFor), then, when some cell changed, `_send_player_vision` of the
        changed cells in some order (`sent`). Packing can raise, after the
        remembered world has changed. */
    method SendUpdate(pid: int, visible: set<Coord>) returns (ok: bool, out: seq<Out>, ghost sent: seq<Coord>)
      requires Valid() && pid in state.players && visible <= cells
      modifies this
      ensures Valid()
      ensures state == Remembered(cfg, old(state), pid, visible)
      ensures var changed := Changed(cfg, old(state), pid, visible);
        (changed == {} ==> ok && out == [])
        && (changed != {} ==>
              Elems(sent) == changed && Distinct(sent)
              && (ok <==> Wire.PlayerVision(byteSize, state.world, state.knownWorlds[pid], sent, false, id).Some?)
              && (ok ==> out == Addressed(pid, Wire.PlayerVision(byteSize, state.world, state.knownWorlds[pid], sent, false, id).value)))
      ensures forall o :: o in out ==> o.to == pid && o.msg.Vision?
    {
      out, sent := [], [];
      ok := true;
      var dirty := if cfg.alwaysDirty || pid in state.dirtyPlayers then visible else state.dirtyCoords;
      assert state.knownWorlds[pid].Keys <= cells;
      var known, changed := Sync.UpdateKnownWorld(state.knownWorlds[pid], state.world, visible, dirty);
      RememberedConsistent(state, cells, pid, known);
      var world := state.world;
      state := state.(knownWorlds := state.knownWorlds[pid := known]);
      if changed != {} {
        var coords := Enumerate(changed);
        sent := coords;
        var packets := Wire.SendPlayerVision(byteSize, world, known, coords, false, id);
        if packets.None? {
          ok := false;
        } else {
          out := Addressed(pid, packets.value);
        }
      }
      assert state.world == world && state.knownWorlds[pid] == known;
    }

    /** `_flush_dirty`: when something is dirty, every joined player on the
        map gets its vision update (FlushPlayer), in `players` order, and both
        dirty sets are cleared; nothing else changes. `views` records the cells
        each player found on the map could see (see FlushedWorldsAt). */
    method FlushDirty() returns (ok: bool, out: seq<Out>, ghost views: map<int, set<Coord>>)
      requires Valid()
      modifies this
      ensures Valid()
      ensures old(state).dirtyCoords == {} && old(state).dirtyPlayers == {} ==> ok && out == [] && state == old(state) && views == map[]
      ensures ok ==> state == old(state).(knownWorlds := state.knownWorlds, dirtyCoords := {}, dirtyPlayers := {})
      ensures ok && (old(state).dirtyCoords != {} || old(state).dirtyPlayers != {}) ==>
        (forall p :: p in views <==> p in old(state).players && FindPlayerIn(old(state).world, order, p).Found?)
        && (forall p :: p in views ==> views[p] <= cells)
        && state.knownWorlds == FlushedWorlds(cfg, old(state), old(state).players, views)
      ensures ok ==> forall o :: o in out ==> o.to in old(state).players && o.msg.Vision?
    {
      out, views := [], map[];
      if state.dirtyCoords == {} && state.dirtyPlayers == {} {
        return true, out, views;
      }
      ghost var s0 := state;
      var players := state.players;
      FlushedStart(cfg, order, s0, players);
      var i := 0;
      ok := true;
      while i < |players| && ok
        invariant 0 <= i <= |players| && players == s0.players
        invariant Valid()
        invariant ok ==> FlushedUpTo(cfg, order, s0, state, players, i, views)
        invariant forall o :: o in out ==> o.to in players && o.msg.Vision?
      {
        var more;
        ok, more, views := FlushNext(s0, players, i, views);
        out := out + more;
        i := i + 1;
      }
      if ok {
        FlushedDone(cfg, order, s0, state, players, views);
        state := state.(dirtyCoords := {}, dirtyPlayers := {});
      }
    }

    /** One pass of `_flush_dirty`'s loop: the vision update of players[i]. */
    method FlushNext(ghost s0: GameState, players: seq<int>, i: nat, ghost views: map<int, set<Coord>>)
      returns (ok: bool, out: seq<Out>, ghost views': map<int, set<Coord>>)
      requires Valid() && i < |players| && players == s0.players
      requires FlushedUpTo(cfg, order, s0, state, players, i, views)
      modifies this
      ensures Valid()
      ensures ok ==> FlushedUpTo(cfg, order, s0, state, players, i + 1, views')
      ensures forall o :: o in out ==> o.to == players[i] && o.msg.Vision?
    {
      var pid := players[i];
      ghost var st := state;
      ghost var seen;
      ok, out, seen := FlushPlayer(pid);
      views' := views;
      if ok {
        views' := FlushedUpToNext(cfg, order, s0, st, state, players, i, views, seen);
      }
    }

    /** The `_event_check()` and `_flush_dirty()` every entry point ends
        with (see Reported). */
    method Report() returns (ok: bool, out: seq<Out>, ghost views: map<int, set<Coord>>)
      requires Valid()
      modifies this
      ensures Valid()
      ensures old(state).dirtyCoords == {} && old(state).dirtyPlayers == {} ==> ok
      ensures ok ==> Reported(cfg, id, order, old(state), state, out, views)
    {
      var told := EventCheck();
      var more;
      ok, more, views := FlushDirty();
      out := told + more;
      assert out[..|told|] == told && out[|told|..] == more;
    }

    // ---- entry points ----

    /** `player_action(pid, action, argument)`: see Acted. */
    method PlayerAction(pid: int, action: int, argument: int)
      returns (ok: bool, out: seq<Out>, ghost acted: GameState, ghost handled: bool, ghost views: map<int, set<Coord>>)
      requires Valid() && pid in state.players
      modifies this
      ensures Valid()
      ensures Acted(cfg, mode, id, order, old(state), state, pid, action, argument, ok, out, acted, handled, views)
    {
      ok, out, acted, handled, views := false, [], state, false, map[];
      var cmd := FromNumerical(action);
      var arg := FromNumerical(argument);
      if cmd.None? || arg.None? {
        return;
      }
      var f := FindPlayer(pid);
      if !f.Found? || !cmd.value.CmdC? {
        return;
      }
      FoundInWorld(state.world, order, pid);
      var done;
      match cmd.value.cmd {
        case Look => done := Look(f.coord, f.player, arg.value);
        case Move => done := Move(f.coord, f.player, arg.value);
        case Fire => done := Fire(f.coord, f.player, arg.value);
      }
      acted, handled := state, done;
      if done {
        ok, out, views := Report();
      }
    }

    /** `player_join(pid, name, team)`: the player is registered and
        spawned with its name and team (Enrol); the newcomer is sent the
        game's description, then the JOINED announcements (JoinedMsgs), then
        what Reported says. Announcing raises where another player has no
        name. */
    method PlayerJoin(pid: int, playerName: Option<string>, team: Option<Val>)
      returns (ok: bool, out: seq<Out>, ghost joined: GameState, ghost at: Coord, ghost announced: seq<Out>,
               ghost views: map<int, set<Coord>>)
      requires Valid() && pid !in state.players
      modifies this
      ensures Valid()
      ensures ok ==> Enrolled(mode, order, old(state), joined, pid, playerName, team, at)
      ensures ok ==> (JoinedMsgs(id, pid, StrV(JoinName(playerName)), joined.players, joined.playerAttr) == Some(announced)
                      && 1 + |announced| <= |out|
                      && out[0] == Out(pid, GameInfo(id, cfg.statusGameInfo, pid, name, ModeName(mode), maxPlayers, |joined.players|, Vision.FnName(vision)))
                      && out[1..1 + |announced|] == announced
                      && Reported(cfg, id, order, joined, state, out[1 + |announced|..], views))
      ensures ok ==> pid in state.players && state.players == old(state).players + [pid]
    {
      out, announced, views := [], [], map[];
      var enrolled;
      ghost var newcomer;
      enrolled, at, newcomer := Enrol(pid, playerName, team);
      joined := state;
      ok := false;
      if enrolled {
        ok, out, announced, views := Welcome(pid, playerName);
      }
    }

    /** The second half of `player_join`: the newcomer is sent the game's
        description, then the JOINED announcements (JoinedMsgs), then what
        Reported says. Announcing raises where another player has no name. */
    method Welcome(pid: int, playerName: Option<string>)
      returns (ok: bool, out: seq<Out>, ghost announced: seq<Out>, ghost views: map<int, set<Coord>>)
      requires Valid()
      modifies this
      ensures Valid()
      ensures ok ==> (JoinedMsgs(id, pid, StrV(JoinName(playerName)), old(state).players, old(state).playerAttr) == Some(announced)
                      && 1 + |announced| <= |out|
                      && out[0] == Out(pid, GameInfo(id, cfg.statusGameInfo, pid, name, ModeName(mode), maxPlayers, |old(state).players|, Vision.FnName(vision)))
                      && out[1..1 + |announced|] == announced
                      && Reported(cfg, id, order, old(state), state, out[1 + |announced|..], views))
      ensures ok ==> state.players == old(state).players
    {
      out, announced, views := [], [], map[];
      var info := Out(pid, GameInfo(id, cfg.statusGameInfo, pid, name, ModeName(mode), maxPlayers, |state.players|, Vision.FnName(vision)));
      var msgs := Announce(pid, StrV(JoinName(playerName)));
      if msgs.None? {
        return false, out, announced, views;
      }
      announced := msgs.value;
      var reported;
      ok, reported, views := Report();
      out := [info] + msgs.value + reported;
      assert out[1..1 + |announced|] == announced && out[1 + |announced|..] == reported;
    }

    /** The first half of `player_join`: registration, `_spawn_player` and
        the name and team (see Enrolled). Spawning raises where no cell is
        free of solid objects. */
    method Enrol(pid: int, playerName: Option<string>, team: Option<Val>)
      returns (ok: bool, ghost at: Coord, ghost newcomer: Entity)
      requires Valid() && pid !in state.players
      modifies this
      ensures Valid()
      ensures ok ==> Enrolled(mode, order, old(state), state, pid, playerName, team, at)
      ensures !ok ==> SpawnRaises(mode, order, Registered(old(state), pid), pid, at, newcomer)
    {
      ghost var s := state;
      RegisteredConsistent(state, cells, pid);
      state := Registered(state, pid);
      var loc, player;
      ok, loc, player := SpawnPlayer(pid);
      at, newcomer := loc, player;
      if ok {
        ghost var d :| d in Directions && player.obj == Obj(Player, SpawnAttrs(mode, pid, d));
        ghost var s1 := state;
        NameNewcomer(pid, player, playerName, team);
        EnrolledBy(mode, order, s, s1, state, pid, playerName, team, loc, player, d);
      }
    }

    /** The new player of `player_join` takes its name and team (JoinNamed). */
    method NameNewcomer(pid: int, player: Entity, playerName: Option<string>, team: Option<Val>)
      requires Valid()
      modifies this
      ensures Valid()
      ensures state == JoinNamed(old(state), pid, player, playerName, team)
    {
      var named := Named(player.obj, JoinName(playerName), JoinTeam(team));
      Reworld(state, cells, Updated(state.world, player.oid, named));
      state := JoinNamed(state, pid, player, playerName, team);
    }

    /** The loop of `player_join` over the joined players that builds the
        JOINED announcements. */
    method Announce(pid: int, playerName: Val) returns (r: Option<seq<Out>>)
      requires Valid()
      ensures r == JoinedMsgs(id, pid, playerName, state.players, state.playerAttr)
    {
      var players, attrs := state.players, state.playerAttr;
      var msgs := [];
      var i := 0;
      var ok := true;
      while i < |players| && ok
        invariant 0 <= i <= |players|
        invariant ok ==> JoinedMsgs(id, pid, playerName, players[..i], attrs) == Some(msgs)
        invariant !ok ==> JoinedMsgs(id, pid, playerName, players[..i], attrs).None?
      {
        var other := players[i];
        assert players[..i + 1][..i] == players[..i];
        var told := Out(other, Joined(id, pid, playerName, false));
        if other == pid {
          msgs := msgs + [told];
        } else if other !in attrs || "name" !in attrs[other] {
          ok := false;
        } else {
          msgs := msgs + [told, Out(pid, Joined(id, other, attrs[other]["name"], true))];
        }
        i := i + 1;
      }
      if ok {
        assert players[..i] == players;
        r := Some(msgs);
      } else {
        JoinedStaysNone(id, pid, playerName, players, attrs, i);
        r := None;
      }
    }

    /** `player_leave(pid)`: the player leaves the game (Drop), then what
        Reported says follows. */
    method PlayerLeave(pid: int) returns (ok: bool, out: seq<Out>, ghost left: GameState, ghost views: map<int, set<Coord>>)
      requires Valid() && pid in state.players
      modifies this
      ensures Valid()
      ensures FindPlayerIn(old(state).world, order, pid).NoPlayerId? ==> !ok && state == old(state)
      ensures ok ==> left == Dropped(old(state), order, pid) && Reported(cfg, id, order, left, state, out, views)
      ensures ok ==> pid !in state.players && pid !in state.knownWorlds && pid !in state.playerAttr
    {
      out, left, views := [], state, map[];
      ok := Drop(pid);
      if ok {
        left := state;
        ok, out, views := Report();
      }
    }

    /** The first half of `player_leave`: a player on the map is removed
        from it, then its remembered world, its attribute dict and its place
        in `players` are dropped. `_find_player` raises where a player object
        has no id. */
    method Drop(pid: int) returns (ok: bool)
      requires Valid() && pid in state.players
      modifies this
      ensures Valid()
      ensures ok <==> !FindPlayerIn(old(state).world, order, pid).NoPlayerId?
      ensures !ok ==> state == old(state)
      ensures ok ==> state == Dropped(old(state), order, pid)
    {
      var f := FindPlayer(pid);
      if f.NoPlayerId? {
        return false;
      }
      if f.Found? {
        var removed, loc, player := RemovePlayer(pid);
      }
      UnregisteredConsistent(state, cells, pid);
      state := Unregistered(state, pid);
      ok := true;
    }

    /** `handle(packet, pid)`: an id that has not joined gets the
        not-in-game error; a game action is `player_action`; game messages
        and key-values get no answer; any other payload raises. */
    method Handle(payloadType: int, action: int, argument: int, pid: int)
      returns (ok: bool, out: seq<Out>, ghost acted: GameState, ghost handled: bool, ghost views: map<int, set<Coord>>)
      requires Valid()
      modifies this
      ensures Valid()
      ensures pid !in old(state).players ==> ok && out == [Out(pid, Error(cfg.errorNotInGame))] && state == old(state)
      ensures pid in old(state).players ==>
        if payloadType == GameAction then
          Acted(cfg, mode, id, order, old(state), state, pid, action, argument, ok, out, acted, handled, views)
        else !ok == (payloadType != cfg.gameMessage && payloadType != cfg.keyValue) && out == [] && state == old(state)
    {
      acted, handled, views := state, false, map[];
      if pid !in state.players {
        return true, [Out(pid, Error(cfg.errorNotInGame))], acted, handled, views;
      }
      if payloadType == GameAction {
        ok, out, acted, handled, views := PlayerAction(pid, action, argument);
      } else {
        ok, out := payloadType == cfg.gameMessage || payloadType == cfg.keyValue, [];
      }
    }

    // ---- the tick ----

    /** The flight loop shared by `_tick_bullets` and `_tick_slimes` for the
        object `e` found in `coord`, moving one cell every `speed`
        milliseconds, its timer standing at `t0`: see Flew. False where the
        source raises (the object is no longer in its cell, or its
        `direction` is not a direction). */
    method Fly(coord: Coord, e: Entity, speed: int, t0: int) returns (ok: bool, fate: Flight, ghost hops: nat)
      requires Valid() && speed > 0 && coord in state.world
      modifies this
      ensures Valid() && WorldMoves(old(state), state) && Marks(old(state), state)
      ensures state.nextOid == old(state).nextOid
      ensures ok ==> Flew(old(state), state, coord, e, speed, t0, fate, hops)
      ensures !ok ==> t0 < 0
    {
      var t := t0;
      Reworld(state, cells, Updated(state.world, e.oid, Timed(e.obj, t)));
      state := state.(world := Updated(state.world, e.oid, Timed(e.obj, t)));
      var at, dir := coord, Up;
      ok, fate, hops := true, Flying(coord), 0;
      var done := false;
      while t < 0 && !done
        invariant Valid() && WorldMoves(old(state), state) && Marks(old(state), state)
        invariant state.nextOid == old(state).nextOid
        invariant ok && !done ==> Aloft(old(state), state, coord, e, speed, t0, t, at, dir, hops)
        invariant ok && done ==> Flew(old(state), state, coord, e, speed, t0, fate, hops)
        invariant !ok ==> done && t0 < 0
        decreases -t, if done then 0 else 1
      {
        ok, done, fate, t, at, dir, hops := FlyStep(old(state), coord, e, speed, t0, t, at, dir, hops);
      }
      if !done {
        Landed(old(state), state, coord, e, speed, t0, t, at, dir, hops);
        fate := Flying(at);
      }
    }

    /** One pass of the flight loop: the timer gains a step, the object
        leaves its cell and enters the next one, unless that cell is off the
        world or solid, which ends the flight. */
    method FlyStep(ghost s0: GameState, coord: Coord, e: Entity, speed: int, ghost t0: int,
                   t: int, at: Coord, dir: Dir, ghost hops: nat)
      returns (ok: bool, done: bool, fate: Flight, t': int, at': Coord, dir': Dir, ghost hops': nat)
      requires Valid() && speed > 0 && t < 0 && Aloft(s0, state, coord, e, speed, t0, t, at, dir, hops)
      modifies this
      ensures Valid() && t' == t + speed
      ensures WorldMoves(s0, state) && Marks(s0, state) && state.nextOid == s0.nextOid
      ensures ok && !done ==> Aloft(s0, state, coord, e, speed, t0, t', at', dir', hops')
      ensures ok && done ==> Flew(s0, state, coord, e, speed, t0, fate, hops')
      ensures !ok ==> done
    {
      t', at', dir', hops' := t + speed, at, dir, hops + 1;
      ok, done, fate := false, true, Flying(at);
      var lifted := Lift(state.world, at, e, t');
      var d := Heading(Timed(e.obj, t'));
      HeadingTimed(e.obj, t');
      if lifted.Some? && d.Some? {
        var w := lifted.value;
        dir' := d.value;
        var next := Step(at, dir');
        ghost var before := state;
        if next in w && !Solid(w[next]) {
          state := state.(world := Land(w, next, e, t'), dirtyCoords := state.dirtyCoords + {at, next});
          Landing(s0, before, state, cells, coord, e, speed, t0, t, t', at, dir, hops, hops', dir', w);
          ok, done, at' := true, false, next;
        } else {
          state := state.(world := w, dirtyCoords := state.dirtyCoords + {at});
          fate := if next in w then Blocked(at, next) else Vanished(next);
          Halting(s0, before, state, cells, coord, e, speed, t0, t, t', at, dir, hops, hops', dir', fate);
          ok := true;
        }
      }
    }

    /** One bullet of `_tick_bullets`: its size sets its speed, it flies (see
        Flew), and where its next hop reaches a cell holding something solid
        it explodes at that solid cell with its size, on behalf of its owner
        (see Exploded). False
        where the source raises: a size with no speed, a timer that is not a
        number, a failed flight, or no owner. */
    method TickBullet(coord: Coord, e: Entity, ms: int)
      returns (ok: bool, fate: Flight, speed: int, t0: int, ghost flown: GameState, ghost hops: nat)
      requires Valid() && coord in state.world
      modifies this
      ensures Valid() && WorldMoves(old(state), state) && Marks(old(state), state)
      ensures ok ==> BulletSpeed(e.obj) == Some(speed) && StartTime(e.obj, speed, ms) == Some(t0)
      ensures ok ==> speed > 0 && Flew(old(state), flown, coord, e, speed, t0, fate, hops)
      ensures ok && fate.Blocked? ==>
        "owner" in e.obj.attrs && state == Exploded(flown, fate.at, IntAttr(e.obj.attrs, "size").value, e.obj.attrs["owner"])
      ensures ok && !fate.Blocked? ==> state == flown
      ensures !ok ==>
        BulletSpeed(e.obj).None? || StartTime(e.obj, BulletSpeed(e.obj).value, ms).None?
        || (BulletSpeed(e.obj) == Some(speed) && StartTime(e.obj, speed, ms) == Some(t0) && speed > 0
            && (t0 < 0
                || (Flew(old(state), flown, coord, e, speed, t0, fate, hops) && fate.Blocked? && "owner" !in e.obj.attrs)))
    {
      ok, fate, flown, hops, speed, t0 := false, Flying(coord), state, 0, 1, 0;
      var v := BulletSpeed(e.obj);
      var start := if v.Some? then StartTime(e.obj, v.value, ms) else None;
      if v.Some? && start.Some? {
        speed, t0 := v.value, start.value;
        ok, fate, hops := Fly(coord, e, speed, t0);
        flown := state;
        if ok && fate.Blocked? {
          ok := Burst(fate.at, e);
        }
      }
    }

    /** A blocked bullet explodes where it stopped, with its size, on its
        owner's account; false where the bullet has no owner. */
    method Burst(at: Coord, e: Entity) returns (ok: bool)
      requires Valid() && IntAttr(e.obj.attrs, "size").Some?
      modifies this
      ensures Valid() && WorldMoves(old(state), state) && Marks(old(state), state)
      ensures ok <==> "owner" in e.obj.attrs
      ensures ok ==> state == Exploded(old(state), at, IntAttr(e.obj.attrs, "size").value, e.obj.attrs["owner"])
    {
      ok := "owner" in e.obj.attrs;
      if ok {
        MakeExplosion(at, IntAttr(e.obj.attrs, "size").value, e.obj.attrs["owner"]);
      }
    }

    /** `_tick_bullets(ms)`: every bullet `find_objs` lists, in its order,
        takes its flight (see TickBullet). */
    method TickBullets(ms: int) returns (ok: bool)
      requires Valid()
      modifies this
      ensures Valid() && WorldMoves(old(state), state) && Marks(old(state), state)
    {
      var bullets := FindObjs({Bullet});
      ghost var w0 := state.world;
      var i := 0;
      ok := true;
      while i < |bullets|
        invariant 0 <= i <= |bullets|
        invariant Valid() && WorldMoves(old(state), state) && Marks(old(state), state)
        invariant bullets == Matches(w0, order, {Bullet}) && state.world.Keys == w0.Keys
      {
        MatchesMembers(w0, order, {Bullet}, bullets[i]);
        var fate;
        var speed, t0;
        ghost var flown, hops;
        ok, fate, speed, t0, flown, hops := TickBullet(bullets[i].0, bullets[i].1, ms);
        if !ok {
          return;
        }
        i := i + 1;
      }
    }

    /** The damage pass of `_tick_explosions` for the explosion `e` in
        `coord`: each of its fresh hits, as it now stands, takes the
        explosion's `_damage` on behalf of its `_responsible` (see
        DamageObject), and the cell is marked dirty. */
    method Strike(coord: Coord, e: Entity, hits: seq<Entity>) returns (ok: bool)
      requires Valid() && coord in state.world
      modifies this
      ensures Valid()
      ensures hits == [] ==> ok && state == old(state)
      ensures ok && hits != [] ==>
        IntAttr(e.obj.attrs, "_damage").Some? && "_responsible" in e.obj.attrs && coord in state.dirtyCoords
        && HitTurns(cfg, mode, order, coord, hits, IntAttr(e.obj.attrs, "_damage").value, cfg.damageExplosion,
                    e.obj.attrs["_responsible"], old(state), state)
      ensures !ok ==> StrikeRaises(cfg, mode, order, coord, e, hits, old(state))
    {
      var amount := IntAttr(e.obj.attrs, "_damage");
      if hits == [] {
        ok := true;
      } else if amount.None? || "_responsible" !in e.obj.attrs {
        ok := false;
      } else {
        ok := HitEach(coord, hits, amount.value, cfg.damageExplosion, e.obj.attrs["_responsible"]);
      }
    }

    /** One explosion of `_tick_explosions`: it hits its fresh objects (see
        FreshHits), records them in `_damaged`, loses the elapsed time from
        `_time_left` (which starts at EXPLOSION_LIFE), and once that falls
        below zero leaves its cell, which is marked dirty. False where the
        source raises. */
    method TickExplosion(coord: Coord, e: Entity, ms: int)
      returns (ok: bool, ghost hit: GameState, ghost struck: GameState)
      requires Valid() && coord in state.world
      modifies this
      ensures Valid()
      ensures ok ==> ExplosionClock(e.obj).Some? && DamagedOids(e.obj).Some?
      ensures ok ==>
        var hits := FreshHits(old(state).world[coord], DamagedOids(e.obj).value);
        var t := ExplosionClock(e.obj).value - ms;
        var burnt := Burnt(e.obj, t, DamagedOids(e.obj).value + Oids(hits));
        (hits == [] ==> hit == old(state))
        && (hits != [] ==>
              IntAttr(e.obj.attrs, "_damage").Some? && "_responsible" in e.obj.attrs
              && HitTurns(cfg, mode, order, coord, hits, IntAttr(e.obj.attrs, "_damage").value, cfg.damageExplosion,
                          e.obj.attrs["_responsible"], old(state), hit))
        && struck == hit.(world := Updated(hit.world, e.oid, burnt))
        && coord in struck.world
        && (forall j :: 0 <= j < |struck.world[coord]| && struck.world[coord][j].oid == e.oid ==>
              struck.world[coord][j].obj == burnt)
        && (hits != [] ==> coord in struck.dirtyCoords)
        && if t < 0
           then Remove(struck.world[coord], burnt).Some?
                && state == struck.(world := struck.world[coord := Remove(struck.world[coord], burnt).value],
                                    dirtyCoords := struck.dirtyCoords + {coord})
           else state == struck
      ensures !ok ==>
        ExplosionClock(e.obj).None? || DamagedOids(e.obj).None?
        || var hits := FreshHits(old(state).world[coord], DamagedOids(e.obj).value);
           var t := ExplosionClock(e.obj).value - ms;
           var burnt := Burnt(e.obj, t, DamagedOids(e.obj).value + Oids(hits));
           StrikeRaises(cfg, mode, order, coord, e, hits, old(state))
           || ((hits == [] ==> hit == old(state))
               && (hits != [] ==>
                     IntAttr(e.obj.attrs, "_damage").Some? && "_responsible" in e.obj.attrs
                     && HitTurns(cfg, mode, order, coord, hits, IntAttr(e.obj.attrs, "_damage").value, cfg.damageExplosion,
                                 e.obj.attrs["_responsible"], old(state), hit))
               && struck == hit.(world := Updated(hit.world, e.oid, burnt))
               && t < 0 && coord in struck.world && Remove(struck.world[coord], burnt).None?)
    {
      ok, hit, struck := false, state, state;
      var clock := ExplosionClock(e.obj);
      var damaged := DamagedOids(e.obj);
      if clock.Some? && damaged.Some? {
        var hits := FreshHits(state.world[coord], damaged.value);
        ok := Strike(coord, e, hits);
        hit := state;
        if ok {
          var t := clock.value - ms;
          var burnt := Burnt(e.obj, t, damaged.value + Oids(hits));
          Reworld(state, cells, Updated(state.world, e.oid, burnt));
          state := state.(world := Updated(state.world, e.oid, burnt));
          struck := state;
          if t < 0 {
            var rest := Remove(state.world[coord], burnt);
            ok := rest.Some?;
            if ok {
              Relocated(state, cells, state.world[coord := rest.value], {coord});
              state := state.(world := state.world[coord := rest.value], dirtyCoords := state.dirtyCoords + {coord});
            }
          }
        }
      }
    }

    /** `_tick_explosions(ms)`: every explosion `find_objs` lists, in its
        order, takes its tick (see TickExplosion). */
    method TickExplosions(ms: int) returns (ok: bool)
      requires Valid()
      modifies this
      ensures Valid()
    {
      var explosions := FindObjs({Explosion});
      ghost var w0 := state.world;
      var i := 0;
      ok := true;
      while i < |explosions| && ok
        invariant 0 <= i <= |explosions|
        invariant Valid() && state.world.Keys == w0.Keys
        invariant explosions == Matches(w0, order, {Explosion})
      {
        MatchesMembers(w0, order, {Explosion}, explosions[i]);
        ghost var hit, struck;
        ok, hit, struck := TickExplosion(explosions[i].0, explosions[i].1, ms);
        i := i + 1;
      }
    }

    /** One slime bullet of `_tick_slimes`: its size sets its speed
        (SLIME_BULLET_SPEED), it flies like a bullet (see Flew), and where it
        stops in front of something solid a slime of a new family is born in
        the cell it left (see Slimed). False where the source raises. */
    method TickSlimeBullet(coord: Coord, e: Entity, ms: int)
      returns (ok: bool, fate: Flight, speed: int, t0: int, ghost flown: GameState, ghost hops: nat)
      requires Valid() && coord in state.world
      modifies this
      ensures Valid() && Marks(old(state), state)
      ensures ok ==> SlimeBulletSpeed(cfg, e.obj) == Some(speed) && StartTime(e.obj, speed, ms) == Some(t0)
      ensures ok ==> speed > 0 && Flew(old(state), flown, coord, e, speed, t0, fate, hops)
      ensures ok && fate.Blocked? ==>
        "owner" in e.obj.attrs && "size" in e.obj.attrs && fate.from in flown.world
        && state == Slimed(flown, fate.from, e.obj.attrs["owner"], e.obj.attrs["size"])
      ensures ok && !fate.Blocked? ==> state == flown
      ensures !ok ==>
        SlimeBulletSpeed(cfg, e.obj).None? || StartTime(e.obj, SlimeBulletSpeed(cfg, e.obj).value, ms).None?
        || (SlimeBulletSpeed(cfg, e.obj) == Some(speed) && StartTime(e.obj, speed, ms) == Some(t0) && speed > 0
            && (t0 < 0
                || (Flew(old(state), flown, coord, e, speed, t0, fate, hops) && fate.Blocked?
                    && ("owner" !in e.obj.attrs || "size" !in e.obj.attrs))))
    {
      ok, fate, flown, hops, speed, t0 := false, Flying(coord), state, 0, 1, 0;
      var v := SlimeBulletSpeed(cfg, e.obj);
      var start := if v.Some? then StartTime(e.obj, v.value, ms) else None;
      if v.Some? && start.Some? {
        speed, t0 := v.value, start.value;
        ok, fate, hops := Fly(coord, e, speed, t0);
        flown := state;
        if ok && fate.Blocked? {
          ok := "owner" in e.obj.attrs && "size" in e.obj.attrs;
          if ok {
            SlimedConsistent(state, cells, fate.from, e.obj.attrs["owner"], e.obj.attrs["size"]);
            state := Slimed(state, fate.from, e.obj.attrs["owner"], e.obj.attrs["size"]);
          }
        }
      }
    }

    /** The damage pass of `_tick_slimes` for the slime `e` of family `fam`
        in `coord`. It walks the live cell list by position, as Python's
        `for` does while the list changes under it: every object other than
        the slime that can be slimed and that no slime of the family has hit
        yet is recorded in the family's `_damaged` list and takes
        SLIME_DAMAGE on behalf of the slime's owner (see DamageObject), and
        the cell is marked dirty. A death can respawn a player into the same
        cell, so the walk is bounded by `budget` steps; false where the source
        raises or the budget runs out. */
    method SlimeHits(coord: Coord, e: Entity, fam: nat, budget: nat) returns (ok: bool)
      requires Valid() && coord in state.world && fam in state.slimeDamaged
      modifies this
      ensures Valid()
      ensures ok ==> state.spreadTo == old(state).spreadTo && fam in state.slimeDamaged
      ensures ok ==> state.slimeDamaged == old(state).slimeDamaged[fam := state.slimeDamaged[fam]]
      ensures ok ==> old(state).slimeDamaged[fam] <= state.slimeDamaged[fam]
      ensures ok && Distinct(old(state).slimeDamaged[fam]) ==> Distinct(state.slimeDamaged[fam])
    {
      var damaged := state.slimeDamaged[fam];
      var i, fuel := 0, budget;
      ok := true;
      while i < |state.world[coord]| && ok
        invariant Valid() && coord in state.world
        invariant ok ==> state.spreadTo == old(state).spreadTo && state.slimeDamaged == old(state).slimeDamaged
        invariant old(state).slimeDamaged[fam] <= damaged
        invariant Distinct(old(state).slimeDamaged[fam]) ==> Distinct(damaged)
        decreases fuel, if ok then 1 else 0
      {
        if fuel == 0 {
          ok := false;
        } else {
          fuel := fuel - 1;
          var x := state.world[coord][i];
          if x.obj != e.obj && x.obj.kind in cfg.slimeable && x.oid !in damaged {
            damaged := damaged + [x.oid];
            ok := "owner" in e.obj.attrs;
            if ok {
              ghost var mid;
              ok, mid := SlimeHit(coord, x, e.obj.attrs["owner"]);
            }
          }
          i := i + 1;
        }
      }
      if ok {
        state := state.(slimeDamaged := state.slimeDamaged[fam := damaged]);
      }
    }

    /** One hit of `_slime_hits`: `x` takes SLIME_DAMAGE on `owner`'s account
        (DamageObject) and the cell is marked dirty; no slime family changes. */
    method SlimeHit(coord: Coord, x: Entity, owner: Val) returns (ok: bool, ghost mid: GameState)
      requires Valid() && coord in state.world
      modifies this
      ensures Valid() && coord in state.world
      ensures ok ==> DamageDone(cfg, mode, order, old(state), coord, x, cfg.slimeDamage, cfg.damageSlime, owner, mid)
                     && state == mid.(dirtyCoords := mid.dirtyCoords + {coord})
      ensures ok ==> state.spreadTo == old(state).spreadTo && state.slimeDamaged == old(state).slimeDamaged
                     && coord in state.dirtyCoords
      ensures !ok ==> DamageRaises(cfg, mode, order, old(state), coord, x, cfg.slimeDamage, cfg.damageSlime, owner)
    {
      ok := DamageObject(coord, x, cfg.slimeDamage, cfg.damageSlime, owner);
      mid := state;
      if ok {
        DamageKeepsFamilies(cfg, old(state), state, coord, x, cfg.slimeDamage, cfg.damageSlime, owner);
        MarkDirty(coord);
      }
    }

    /** One pass of the spreading loop of `_tick_slimes` for the slime `e`
        of family `fam` in `coord`, the family allowed `limit` cells. With no
        spread left the pass reports the family exhausted; with spread left
        the slime spreads to one of its openings, chosen freely, when there
        is one (see Spread). False where the source raises: more cells
        reached than allowed, or a spread from a slime with no owner. */
    method SpreadOnce(coord: Coord, e: Entity, fam: nat, limit: int) returns (ok: bool, exhausted: bool, c: Coord)
      requires Valid() && coord in state.world && fam in state.spreadTo
      modifies this
      ensures Valid() && Marks(old(state), state) && fam in state.spreadTo
      ensures state.slimeDamaged == old(state).slimeDamaged
      ensures old(state).spreadTo[fam] <= state.spreadTo[fam]
              <= old(state).spreadTo[fam] + Openings(cfg, old(state).world, coord, old(state).spreadTo[fam])
      ensures state.spreadTo[fam] == old(state).spreadTo[fam] || |state.spreadTo[fam]| <= limit
      ensures var reached := old(state).spreadTo[fam];
        var open := Openings(cfg, old(state).world, coord, reached);
        && (exhausted <==> |reached| == limit)
        && (ok <==> |reached| <= limit && (|reached| < limit && open != {} ==> "owner" in e.obj.attrs && "size" in e.obj.attrs))
        && (ok && (exhausted || open == {}) ==> state == old(state))
        && (ok && !exhausted && open != {} ==>
              c in open && state == Spread(old(state), c, fam, e.obj.attrs["owner"], e.obj.attrs["size"]))
    {
      var reached := state.spreadTo[fam];
      var remaining := limit - |reached|;
      exhausted := remaining == 0;
      ok := remaining >= 0;
      c := coord;
      if remaining > 0 {
        var open := Openings(cfg, state.world, coord, reached);
        if open != {} {
          ok := "owner" in e.obj.attrs && "size" in e.obj.attrs;
          if ok {
            c :| c in open;
            SpreadGrows(state, cells, c, fam, e.obj.attrs["owner"], e.obj.attrs["size"]);
            state := Spread(state, c, fam, e.obj.attrs["owner"], e.obj.attrs["size"]);
          }
        }
      }
    }

    /** The spreading loop of `_tick_slimes` for the slime `e` of family
        `fam` in `coord`, its spread timer at `t`: a pass (see SpreadOnce) for
        each SLIME_SPREAD_TIME the timer owes, until the family is found
        exhausted. The family only reaches cardinal neighbours of the slime,
        and never more cells than it may. */
    method SlimeSpread(coord: Coord, e: Entity, fam: nat, limit: int, t: int) returns (ok: bool, t': int, exhausted: bool)
      requires Valid() && coord in state.world && fam in state.spreadTo
      modifies this
      ensures Valid() && Marks(old(state), state) && fam in state.spreadTo
      ensures state.slimeDamaged == old(state).slimeDamaged
      ensures ok ==>
        old(state).spreadTo[fam] <= state.spreadTo[fam] <= old(state).spreadTo[fam] + Elems(CardinalNeighbourhood(coord))
      ensures ok ==> state.spreadTo[fam] == old(state).spreadTo[fam] || |state.spreadTo[fam]| <= limit
      ensures ok && !exhausted ==> t' == Settled(t, cfg.slimeSpreadTime)
      ensures |old(state).spreadTo[fam]| == limit ==>
        ok && state == old(state) && exhausted == (t < 0) && t' == (if t < 0 then t + cfg.slimeSpreadTime else t)
    {
      var period := cfg.slimeSpreadTime;
      t', ok, exhausted := t, true, false;
      while t' < 0 && ok && !exhausted
        invariant Valid() && coord in state.world && fam in state.spreadTo && Marks(old(state), state)
        invariant state.slimeDamaged == old(state).slimeDamaged
        invariant old(state).spreadTo[fam] <= state.spreadTo[fam] <= old(state).spreadTo[fam] + Elems(CardinalNeighbourhood(coord))
        invariant state.spreadTo[fam] == old(state).spreadTo[fam] || |state.spreadTo[fam]| <= limit
        invariant Settled(t', period) == Settled(t, period)
        invariant |old(state).spreadTo[fam]| == limit ==>
          ok && state == old(state) && (if exhausted then t < 0 && t' == t + period else t' == t)
        decreases -t', if ok && !exhausted then 1 else 0
      {
        var t2 := t' + period;
        HopOnce(t', t2, period);
        var c;
        ok, exhausted, c := SpreadOnce(coord, e, fam, limit);
        t' := t2;
      }
      if ok && !exhausted {
        SettledInRange(t', period);
      }
    }

    /** The timers of the slime `e` of family `fam` in `coord`, after its
        damage pass: a set `_death_time` runs down by the elapsed time and,
        once below zero, the slime leaves its cell; otherwise `_spread_time`
        (starting at SLIME_SPREAD_TIME) runs down and drives the spreading
        loop (see SlimeSpread), and a family found exhausted sets the death
        time to SLIME_SPREAD_TIME unless it is already running (see
        ExhaustedTick). False where the source raises. */
    method SlimeTimers(coord: Coord, e: Entity, fam: nat, ms: int) returns (ok: bool, death: Option<int>, t: int)
      requires Valid() && coord in state.world && fam in state.spreadTo && FamilyOf(e.obj) == Some(fam)
      modifies this
      ensures Valid() && state.slimeDamaged == old(state).slimeDamaged
      ensures ok && "_death_time" in e.obj.attrs ==>
        AsInt(e.obj.attrs["_death_time"]).Some? && death == Some(AsInt(e.obj.attrs["_death_time"]).value - ms)
      ensures "_death_time" !in e.obj.attrs ==> death == None
      ensures ok && death.Some? && death.value < 0 ==> Expired(old(state), coord, e.oid, Dying(e.obj, death.value)) == Some(state)
      ensures ok && !(death.Some? && death.value < 0) && Exhausted(cfg, old(state), e.obj) ==>
        state == old(state).(world := Updated(old(state).world, e.oid, Clocked(e.obj,
          SlimeClock(if t < 0 && death.None? then Some(cfg.slimeSpreadTime) else death,
                     if t < 0 then t + cfg.slimeSpreadTime else t))))
      ensures ok && !(death.Some? && death.value < 0) ==>
        ("_spread_time" in e.obj.attrs ==> AsInt(e.obj.attrs["_spread_time"]) == Some(t + ms))
        && ("_spread_time" !in e.obj.attrs ==> t == cfg.slimeSpreadTime - ms)
    {
      ok, death, t := true, None, 0;
      if "_death_time" in e.obj.attrs {
        var d := AsInt(e.obj.attrs["_death_time"]);
        ok := d.Some?;
        if ok {
          death := Some(d.value - ms);
        }
      }
      if ok && death.Some? && death.value < 0 {
        ok := Expire(coord, e, death.value);
      } else if ok {
        var spread := if "_spread_time" in e.obj.attrs then AsInt(e.obj.attrs["_spread_time"]) else Some(cfg.slimeSpreadTime);
        ok := spread.Some?;
        if ok {
          t := spread.value - ms;
          ok := Respread(coord, e, fam, death, t);
        }
      }
    }

    /** A slime whose death time has run below zero leaves its cell. */
    method Expire(coord: Coord, e: Entity, death: int) returns (ok: bool)
      requires Valid() && coord in state.world
      modifies this
      ensures Valid() && state.slimeDamaged == old(state).slimeDamaged && state.spreadTo == old(state).spreadTo
      ensures ok <==> Expired(old(state), coord, e.oid, Dying(e.obj, death)).Some?
      ensures ok ==> Expired(old(state), coord, e.oid, Dying(e.obj, death)) == Some(state)
    {
      var gone := Expired(state, coord, e.oid, Dying(e.obj, death));
      ok := gone.Some?;
      if ok {
        ExpiredConsistent(state, cells, coord, e.oid, Dying(e.obj, death));
        state := gone.value;
      }
    }

    /** A slime still alive: its spread timer, at `t` after the elapsed time,
        drives the spreading loop, and the slime carries its new timers. */
    method Respread(coord: Coord, e: Entity, fam: nat, death: Option<int>, t: int) returns (ok: bool)
      requires Valid() && coord in state.world && fam in state.spreadTo && FamilyOf(e.obj) == Some(fam)
      modifies this
      ensures Valid() && state.slimeDamaged == old(state).slimeDamaged && fam in state.spreadTo
      ensures ok ==>
        old(state).spreadTo[fam] <= state.spreadTo[fam] <= old(state).spreadTo[fam] + Elems(CardinalNeighbourhood(coord))
      ensures ok ==>
        state.spreadTo[fam] == old(state).spreadTo[fam]
        || (SpreadLimit(cfg, e.obj).Some? && |state.spreadTo[fam]| <= SpreadLimit(cfg, e.obj).value)
      ensures Exhausted(cfg, old(state), e.obj) ==>
        ok && state == old(state).(world := Updated(old(state).world, e.oid, Clocked(e.obj,
          SlimeClock(if t < 0 && death.None? then Some(cfg.slimeSpreadTime) else death,
                     if t < 0 then t + cfg.slimeSpreadTime else t))))
    {
      var limit := SpreadLimit(cfg, e.obj);
      ok := t >= 0 || limit.Some?;
      if ok {
        var t2, exhausted;
        ok, t2, exhausted := SlimeSpread(coord, e, fam, if limit.Some? then limit.value else 0, t);
        if ok {
          var c := SlimeClock(if exhausted && death.None? then Some(cfg.slimeSpreadTime) else death, t2);
          Reworld(state, cells, Updated(state.world, e.oid, Clocked(e.obj, c)));
          state := state.(world := Updated(state.world, e.oid, Clocked(e.obj, c)));
        }
      }
    }

    /** The timers of a slime (see SlimeTimers), read through the corrected
        ExhaustedTick for a slime whose family is exhausted. */
    method SettleSlime(coord: Coord, e: Entity, fam: nat, ms: int) returns (ok: bool)
      requires Valid() && coord in state.world && fam in state.spreadTo && FamilyOf(e.obj) == Some(fam)
      modifies this
      ensures Valid() && state.slimeDamaged == old(state).slimeDamaged
      ensures ok && ClockOf(cfg, e.obj).Some? && Exhausted(cfg, old(state), e.obj) ==>
        SlimeSettled(cfg, e, coord, ms, old(state), state)
    {
      ghost var s0 := state;
      var death, t;
      ok, death, t := SlimeTimers(coord, e, fam, ms);
      if ok && ClockOf(cfg, e.obj).Some? && Exhausted(cfg, s0, e.obj) {
        TimersSettle(cfg, e, coord, ms, s0, state, death, t);
      }
    }

    /** One slime of `_tick_slimes`: its damage pass (see SlimeHits), then
        its timers (see SlimeTimers). False where the source raises or the
        damage pass runs out of `budget`. */
    method TickSlime(coord: Coord, e: Entity, ms: int, budget: nat) returns (ok: bool, ghost hit: GameState)
      requires Valid() && coord in state.world
      modifies this
      ensures Valid()
      ensures ok ==> FamilyOf(e.obj).Some? && FamilyOf(e.obj).value in old(state).slimeDamaged
      ensures ok ==>
        var fam := FamilyOf(e.obj).value;
        && hit.spreadTo == old(state).spreadTo && fam in state.slimeDamaged
        && old(state).slimeDamaged[fam] <= state.slimeDamaged[fam]
        && (Distinct(old(state).slimeDamaged[fam]) ==> Distinct(state.slimeDamaged[fam]))
        && state.slimeDamaged == old(state).slimeDamaged[fam := state.slimeDamaged[fam]]
      ensures ok && ClockOf(cfg, e.obj).Some? && Exhausted(cfg, hit, e.obj) ==>
        coord in hit.world && SlimeSettled(cfg, e, coord, ms, hit, state)
    {
      ok, hit := false, state;
      var fam := FamilyOf(e.obj);
      if fam.Some? && fam.value in state.spreadTo && fam.value in state.slimeDamaged {
        ok := SlimeHits(coord, e, fam.value, budget);
        hit := state;
        if ok {
          ok := SettleSlime(coord, e, fam.value, ms);
        }
      }
    }

    /** `_tick_slimes(ms)`: every slime bullet `find_objs` lists takes its
        flight (see TickSlimeBullet), then every slime listed after that takes
        its tick (see TickSlime). */
    method TickSlimes(ms: int, budget: nat) returns (ok: bool)
      requires Valid()
      modifies this
      ensures Valid()
    {
      var bullets := FindObjs({SlimeBullet});
      ghost var w0 := state.world;
      var i := 0;
      ok := true;
      while i < |bullets| && ok
        invariant 0 <= i <= |bullets|
        invariant Valid() && state.world.Keys == w0.Keys
        invariant bullets == Matches(w0, order, {SlimeBullet})
      {
        MatchesMembers(w0, order, {SlimeBullet}, bullets[i]);
        var fate, speed, t0;
        ghost var flown, hops;
        ok, fate, speed, t0, flown, hops := TickSlimeBullet(bullets[i].0, bullets[i].1, ms);
        i := i + 1;
      }
      if ok {
        var slimes := FindObjs({Slime});
        ghost var w1 := state.world;
        i := 0;
        while i < |slimes| && ok
          invariant 0 <= i <= |slimes|
          invariant Valid() && state.world.Keys == w1.Keys
          invariant slimes == Matches(w1, order, {Slime})
        {
          MatchesMembers(w1, order, {Slime}, slimes[i]);
          ghost var hit;
          ok, hit := TickSlime(slimes[i].0, slimes[i].1, ms, budget);
          i := i + 1;
        }
      }
    }

    /** The burning pass of `_tick_lava` for the pool `lava` in `coord`: it
        walks the live cell list by position, and every object that is not
        equal to the pool takes `amount` of lava damage from the environment
        (see DamageObject). A pool never burns itself: a cell holding nothing
        but the pool is left as it was. The walk is bounded by `budget` steps,
        as in SlimeHits; false where the source raises or the budget runs
        out. */
    method LavaBurn(coord: Coord, lava: Obj, amount: int, budget: nat) returns (ok: bool, ghost tr: seq<GameState>)
      requires Valid() && coord in state.world
      modifies this
      ensures Valid()
      ensures PoolFrom(old(state).world[coord], lava, 0) ==> ok == (|old(state).world[coord]| <= budget) && state == old(state)
      ensures ok ==> Burned(cfg, mode, order, coord, lava, amount, 0, tr) && tr[0] == old(state) && tr[|tr| - 1] == state
                     && coord in state.world && |state.world[coord]| <= |tr| - 1
    {
      ok, tr := BurnFrom(coord, lava, amount, 0, budget);
    }

    /** LavaBurn from position `i` on, with `fuel` steps left. */
    method BurnFrom(coord: Coord, lava: Obj, amount: int, i: nat, fuel: nat)
      returns (ok: bool, ghost tr: seq<GameState>)
      requires Valid() && coord in state.world
      modifies this
      ensures Valid()
      ensures PoolFrom(old(state).world[coord], lava, i) ==> state == old(state)
      ensures PoolFrom(old(state).world[coord], lava, i) ==> (ok <==> |old(state).world[coord]| <= i + fuel)
      ensures ok ==> Burned(cfg, mode, order, coord, lava, amount, i, tr) && tr[0] == old(state) && tr[|tr| - 1] == state
                     && coord in state.world && |state.world[coord]| <= i + |tr| - 1
      decreases fuel, 0
    {
      tr := [state];
      if |state.world[coord]| <= i {
        ok := true;
      } else if fuel == 0 {
        ok := false;
      } else {
        ok, tr := BurnOn(coord, lava, amount, i, fuel - 1);
      }
    }

    /** BurnFrom where position `i` is in the cell: the step at `i` (BurnAt),
        then the walk from `i + 1` with `fuel` steps left. */
    method BurnOn(coord: Coord, lava: Obj, amount: int, i: nat, fuel: nat)
      returns (ok: bool, ghost tr: seq<GameState>)
      requires Valid() && coord in state.world && i < |state.world[coord]|
      modifies this
      ensures Valid()
      ensures PoolFrom(old(state).world[coord], lava, i) ==> state == old(state)
      ensures PoolFrom(old(state).world[coord], lava, i) ==> (ok <==> |old(state).world[coord]| <= i + 1 + fuel)
      ensures ok ==> Burned(cfg, mode, order, coord, lava, amount, i, tr) && tr[0] == old(state) && tr[|tr| - 1] == state
                     && coord in state.world && |state.world[coord]| <= i + |tr| - 1
      decreases fuel, 1
    {
      tr := [state];
      if PoolFrom(state.world[coord], lava, i) {
        assert state.world[coord][i].obj == lava && PoolFrom(state.world[coord], lava, i + 1);
      }
      ok := BurnAt(coord, lava, amount, i);
      if ok {
        ghost var rest;
        ok, rest := BurnFrom(coord, lava, amount, i + 1, fuel);
        if ok {
          BurnFirst(cfg, mode, order, coord, lava, amount, i, old(state), rest);
          tr := [old(state)] + rest;
        }
      }
    }

    /** One step of LavaBurn, at position `i` of the cell list (see BurnStep). */
    method BurnAt(coord: Coord, lava: Obj, amount: int, i: nat) returns (ok: bool)
      requires Valid() && coord in state.world && i < |state.world[coord]|
      modifies this
      ensures Valid() && coord in state.world
      ensures ok ==> BurnStep(cfg, mode, order, coord, lava, amount, i, old(state), state)
      ensures old(state).world[coord][i].obj == lava ==> ok && state == old(state)
      ensures !ok ==> DamageRaises(cfg, mode, order, old(state), coord, old(state).world[coord][i], amount,
                                   cfg.damageLava, cfg.originEnvironment)
    {
      var x := state.world[coord][i];
      ok := true;
      if x.obj != lava {
        ok := DamageObject(coord, x, amount, cfg.damageLava, cfg.originEnvironment);
      }
    }

    /** One pool of `_tick_lava`: the elapsed time is added to its
        `_time_passed` clock, which is written back (see LavaStep); when a
        whole LAVA_TIME has gathered the other objects in its cell burn for
        LAVA_DAMAGE per period (see LavaBurn); the `_spreading` flag is read.
        False where the source raises. */
    method TickLava(coord: Coord, e: Entity, ms: int, budget: nat)
      returns (ok: bool, ghost warmed: GameState, ghost tr: seq<GameState>)
      requires Valid() && coord in state.world
      modifies this
      ensures Valid()
      ensures ok ==> LavaClock(e.obj).Some? && "_spreading" in e.obj.attrs
      ensures ok ==>
        var b := LavaStep(LavaClock(e.obj).value, ms, cfg.lavaTime);
        warmed == old(state).(world := Updated(old(state).world, e.oid, Warmed(e.obj, b.left)))
        && (b.times == 0 ==> state == warmed)
        && (b.times != 0 ==> Burned(cfg, mode, order, coord, Warmed(e.obj, b.left), cfg.lavaDamage * b.times, 0, tr)
                             && tr[0] == warmed && tr[|tr| - 1] == state)
    {
      ok, warmed, tr := false, state, [state];
      var clock := LavaClock(e.obj);
      if clock.Some? {
        ok, warmed, tr := Warm(coord, e, LavaStep(clock.value, ms, cfg.lavaTime), budget);
        ok := ok && "_spreading" in e.obj.attrs;
      }
    }

    /** The clock step `b` of one pool (see TickLava): the pool's clock keeps
        what is left over (`warmed`), and for `b.times` whole periods the
        other objects in its cell burn (see LavaBurn). */
    method Warm(coord: Coord, e: Entity, b: Burn, budget: nat)
      returns (ok: bool, ghost warmed: GameState, ghost tr: seq<GameState>)
      requires Valid() && coord in state.world
      modifies this
      ensures Valid()
      ensures warmed == old(state).(world := Updated(old(state).world, e.oid, Warmed(e.obj, b.left)))
      ensures b.times == 0 ==> ok && state == warmed
      ensures ok && b.times != 0 ==>
        Burned(cfg, mode, order, coord, Warmed(e.obj, b.left), cfg.lavaDamage * b.times, 0, tr)
        && tr[0] == warmed && tr[|tr| - 1] == state
    {
      var pool := Warmed(e.obj, b.left);
      Reworld(state, cells, Updated(state.world, e.oid, pool));
      state := state.(world := Updated(state.world, e.oid, pool));
      warmed := state;
      ok, tr := true, [state];
      if b.times != 0 {
        ok, tr := LavaBurn(coord, pool, cfg.lavaDamage * b.times, budget);
      }
    }

    /** `_tick_lava(ms)`: every pool `find_objs` lists, in its order, takes
        its tick (see TickLava). */
    method TickLavas(ms: int, budget: nat) returns (ok: bool)
      requires Valid()
      modifies this
      ensures Valid()
    {
      var pools := FindObjs({Lava});
      ghost var w0 := state.world;
      var i := 0;
      ok := true;
      while i < |pools| && ok
        invariant 0 <= i <= |pools|
        invariant Valid() && state.world.Keys == w0.Keys
        invariant pools == Matches(w0, order, {Lava})
      {
        MatchesMembers(w0, order, {Lava}, pools[i]);
        ghost var warmed, tr;
        ok, warmed, tr := TickLava(pools[i].0, pools[i].1, ms, budget);
        i := i + 1;
      }
    }

    /** `tick()`, `ms` being the time the stopwatch measured since the last
        tick. The first call only starts the stopwatch and returns nothing;
        later ones move the bullets, explosions, slimes and lava on by `ms`
        and then report what changed (see Reported). `budget` bounds the live
        passes over cell lists (see SlimeHits). False where the source raises. */
    method Tick(ms: int, budget: nat) returns (ok: bool, out: seq<Out>, ghost ticked: GameState, ghost views: map<int, set<Coord>>)
      requires Valid()
      modifies this
      ensures Valid()
      ensures !old(state).stopwatchRunning ==> ok && out == [] && state == old(state).(stopwatchRunning := true)
      ensures old(state).stopwatchRunning && ok ==>
        Reported(cfg, id, order, ticked, state, out, views)
    {
      ticked, views, out := state, map[], [];
      if !state.stopwatchRunning {
        state := state.(stopwatchRunning := true);
        ok := true;
      } else {
        ok := TickBullets(ms);
        if ok { ok := TickExplosions(ms); }
        if ok { ok := TickSlimes(ms, budget); }
        if ok { ok := TickLavas(ms, budget); }
        ticked := state;
        if ok {
          ok, out, views := Report();
        }
      }
    }
  }
}
