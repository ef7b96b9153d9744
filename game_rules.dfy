/** The value-level rules of the engine in src/whiteshoe/game.py: the constants
    it reads that src/whiteshoe/constants.py does not define, the cell-list
    operations it performs (`list.remove`, `in`, `insert(0, ...)`, in-place
    attribute updates), the search for objects and players, the kinetic fire
    rule, and the status messages it emits. */
module GameRules {
  import opened Wrappers
  import opened Constants
  import opened Grid
  import opened Entities
  import opened Wire

  /** The constants game.py reads but constants.py does not define
      (OBJ_MINE and the other kinds are in `Kind`). Their values are unknown,
      so they are parameters of the model. Times are in milliseconds. */
  datatype Config = Config(
    smallSlime: Val, bigSlime: Val,      // SMALL_SLIME, BIG_SLIME
    slimeCosts: map<Val, int>,           // SLIME_COSTS
    stabDamage: int,                     // STAB_DAMAGE
    damageStab: Val, damageExplosion: Val, damageSlime: Val, damageLava: Val, damageUnknown: Val,
    originEnvironment: Val, originUnknown: Val,
    statusDeath: int, statusDamaged: int, statusGameInfo: int,
    temporaryObjects: set<Kind>,         // TEMPORARY_OBJECTS
    slimeBulletSpeed: map<int, int>,     // SLIME_BULLET_SPEED
    slimeSpread: map<int, int>,          // SLIME_SPREAD
    slimeSpreadTime: int,                // SLIME_SPREAD_TIME
    slimeDamage: int,                    // SLIME_DAMAGE
    slimeable: set<Kind>,                // SLIMEABLE
    airtightObjects: set<Kind>,          // AIRTIGHT_OBJECTS
    lavaTime: int, lavaDamage: int,      // LAVA_TIME, LAVA_DAMAGE
    mineDirect: real, mineBackwards: real, mineSide: real,  // MINE_*_PROBABILITY
    errorNotInGame: int,                 // ERROR_NOT_IN_GAME
    gameMessage: int, keyValue: int,     // GAME_MESSAGE, KEYVALUE payload types
    alwaysDirty: bool)                   // 'AlwaysDirtyPlayers' in options

  /** An event queued for `_event_check`: (player_id, status, responsible, damage_type). */
  datatype Event = Event(playerId: int, status: int, responsible: Val, damageType: Val)

  /** The game packets the engine returns, each addressed to one player. */
  datatype Msg =
    | GameInfo(gameId: int, status: int, yourPlayerId: int, gameName: string, gameMode: string,
               maxPlayers: int, numberPlayers: int, vision: string)
    | Joined(gameId: int, playerId: int, name: Val, historical: bool)
    | Status(gameId: int, status: int, responsible: Val, damageType: Val)
    | Vision(packet: Packet)
    | Error(errorType: int)

  datatype Out = Out(to: int, msg: Msg)

  // ---- attribute values ----

  /** An attribute value used as a Python integer (`True` is 1); None where
      arithmetic on it would raise. */
  function AsInt(v: Val): Option<int>
  {
    match v
    case IntV(i) => Some(i)
    case BoolV(b) => Some(if b then 1 else 0)
    case _ => None
  }

  /** `attrs[key]` read as an integer; None where it raises (absent or not a number). */
  function IntAttr(attrs: Attrs, key: string): Option<int>
  {
    if key in attrs then AsInt(attrs[key]) else None
  }

  /** The direction a `direction` attribute names; None where `DIFFS[...]` raises. */
  function DirOfVal(v: Val): Option<Dir>
  {
    if v.ConstV? && v.c.DirC? then Some(v.c.dir) else None
  }

  function Step(c: Coord, d: Dir): Coord
  {
    (c.0 + Diff(d).0, c.1 + Diff(d).1)
  }

  // ---- cell lists ----

  /** The position of the first entity equal to `o`, as `list.remove` and `in`
      look for it. */
  function FirstEqual(cell: Cell, o: Obj): (r: Option<nat>)
    ensures r.Some? ==> r.value < |cell| && cell[r.value].obj == o
    ensures r.Some? ==> forall j :: 0 <= j < r.value ==> cell[j].obj != o
    ensures r.None? ==> forall j :: 0 <= j < |cell| ==> cell[j].obj != o
    decreases |cell|
  {
    if cell == [] then None
    else if cell[0].obj == o then Some(0)
    else
      match FirstEqual(cell[1..], o)
      case None => None
      case Some(i) => Some(i + 1)
  }

  /** `cell.remove(o)`: the first equal entity is dropped; None where Python
      raises ValueError. */
  function Remove(cell: Cell, o: Obj): (r: Option<Cell>)
    ensures r.None? <==> forall j :: 0 <= j < |cell| ==> cell[j].obj != o
    ensures r.Some? ==> exists i :: 0 <= i < |cell| && cell[i].obj == o && r.value == cell[..i] + cell[i + 1..]
    ensures r.Some? ==> |r.value| == |cell| - 1
  {
    match FirstEqual(cell, o)
    case None => None
    case Some(i) => Some(cell[..i] + cell[i + 1..])
  }

  /** An in-place update of an entity's attribute dict: every occurrence of that
      object in the list shows the new value. */
  function SetObj(cell: Cell, oid: nat, o: Obj): (r: Cell)
    ensures |r| == |cell|
    ensures forall j :: 0 <= j < |cell| ==> r[j] == (if cell[j].oid == oid then Entity(o, oid) else cell[j])
  {
    seq(|cell|, j requires 0 <= j < |cell| => if cell[j].oid == oid then Entity(o, oid) else cell[j])
  }

  /** `any(o[0] in kinds for o in cell)` fails: no entity of those kinds. */
  predicate Only(cell: Cell, kinds: set<Kind>)
  {
    forall j :: 0 <= j < |cell| ==> cell[j].obj.kind in kinds
  }

  // ---- find_objs and _find_player ----

  /** The (coordinate, entity) pairs of one cell whose kind is in `kinds`, in list order. */
  function CellMatches(c: Coord, cell: Cell, kinds: set<Kind>): (r: seq<(Coord, Entity)>)
    decreases |cell|
  {
    if cell == [] then []
    else
      var e := cell[|cell| - 1];
      CellMatches(c, cell[..|cell| - 1], kinds) + (if e.obj.kind in kinds then [(c, e)] else [])
  }

  /** `find_objs(*kinds)`: the matching pairs of every cell, cells in the
      world's iteration order `order`. */
  function Matches(world: World, order: seq<Coord>, kinds: set<Kind>): (r: seq<(Coord, Entity)>)
    decreases |order|
  {
    if order == [] then []
    else
      var c := order[|order| - 1];
      Matches(world, order[..|order| - 1], kinds) + (if c in world then CellMatches(c, world[c], kinds) else [])
  }

  lemma {:induction false} CellMatchesMembers(c: Coord, cell: Cell, kinds: set<Kind>, p: (Coord, Entity))
    ensures p in CellMatches(c, cell, kinds) <==> p.0 == c && p.1 in cell && p.1.obj.kind in kinds
    decreases |cell|
  {
    if cell != [] {
      var init := cell[..|cell| - 1];
      CellMatchesMembers(c, init, kinds, p);
      assert cell == init + [cell[|cell| - 1]];
    }
  }

  /** An entry of `find_objs` is an entity of one of the kinds, in a listed cell. */
  lemma {:induction false} MatchesMembers(world: World, order: seq<Coord>, kinds: set<Kind>, p: (Coord, Entity))
    ensures p in Matches(world, order, kinds) <==> p.0 in order && p.0 in world && p.1 in world[p.0] && p.1.obj.kind in kinds
    decreases |order|
  {
    if order != [] {
      var init := order[..|order| - 1];
      var c := order[|order| - 1];
      MatchesMembers(world, init, kinds, p);
      if c in world {
        CellMatchesMembers(c, world[c], kinds, p);
      }
      assert order == init + [c];
    }
  }

  /** What `_find_player` reports. */
  datatype Find = Found(coord: Coord, player: Entity) | NotFound | NoPlayerId

  /** `_find_player`: the first player entity, in `find_objs` order, whose
      `player_id` equals `pid`; NoPlayerId where reading the key raises KeyError
      on an earlier player. */
  function FindIn(found: seq<(Coord, Entity)>, pid: int): (r: Find)
    ensures r.Found? ==>
      (r.coord, r.player) in found && "player_id" in r.player.obj.attrs && r.player.obj.attrs["player_id"] == IntV(pid)
    decreases |found|
  {
    if found == [] then NotFound
    else
      var attrs := found[0].1.obj.attrs;
      if "player_id" !in attrs then NoPlayerId
      else if attrs["player_id"] == IntV(pid) then Found(found[0].0, found[0].1)
      else FindIn(found[1..], pid)
  }

  /** The player was not found: every player entity carries a different id. */
  lemma {:induction false} FindInNotFound(found: seq<(Coord, Entity)>, pid: int)
    ensures FindIn(found, pid) == NotFound <==>
      forall j :: 0 <= j < |found| ==> "player_id" in found[j].1.obj.attrs && found[j].1.obj.attrs["player_id"] != IntV(pid)
    decreases |found|
  {
    if found != [] {
      FindInNotFound(found[1..], pid);
      assert forall j :: 1 <= j < |found| ==> found[j] == found[1..][j - 1];
    }
  }

  // ---- the cells a spawn may use ----

  /** `set(world)` minus the locations of every SOLID object. */
  function Unblocked(world: World): (r: set<Coord>)
    ensures r <= world.Keys
    ensures forall c :: c in r <==> c in world && !Solid(world[c])
  {
    set c | c in world && !Solid(world[c])
  }

  // ---- kinetic fire ----

  /** The loop of `_fire` for a kinetic shot: from `power` down, the first power
      whose square the ammo covers; 0 when none does, and nothing is fired. */
  function Affordable(power: int, ammo: int): (p: int)
    requires power >= 1
    ensures 0 <= p <= power
    decreases power
  {
    if power * power <= ammo then power
    else if power == 1 then 0
    else Affordable(power - 1, ammo)
  }

  /** The shot is the strongest the ammo pays for: its square is covered, and
      every stronger power up to the requested one costs more than the ammo. */
  lemma {:induction false} AffordableIsStrongest(power: int, ammo: int)
    requires power >= 1
    ensures var p := Affordable(power, ammo);
      (p == 0 || p * p <= ammo) && forall q :: p < q <= power ==> q * q > ammo
    decreases power
  {
    if power * power > ammo && power > 1 {
      AffordableIsStrongest(power - 1, ammo);
    }
  }

  /** No shot exactly when even power 1 is too dear, i.e. the ammo is not positive. */
  lemma {:induction false} AffordableZero(power: int, ammo: int)
    requires power >= 1
    ensures Affordable(power, ammo) == 0 <==> ammo < 1
    decreases power
  {
    if power > 1 && power * power > ammo {
      AffordableZero(power - 1, ammo);
    }
  }

  /** Ammo spent by a kinetic shot never exceeds the ammo: what is left is not negative. */
  lemma AffordableCost(power: int, ammo: int)
    requires power >= 1
    ensures 0 <= ammo - Affordable(power, ammo) * Affordable(power, ammo) || Affordable(power, ammo) == 0
  {
    AffordableIsStrongest(power, ammo);
  }

  // ---- the attribute dicts the engine creates ----

  /** A newly spawned player. */
  function NewPlayerAttrs(pid: int, d: Dir): Attrs
  {
    map["player_id" := IntV(pid), "direction" := ConstV(DirC(d)), "team" := IntV(pid),
        "hp" := IntV(10), "hp_max" := IntV(10), "ammo" := IntV(10)]
  }

  /** An explosion of the given size. */
  function ExplosionAttrs(size: int, responsible: Val): Attrs
  {
    map["_damage" := IntV(size * size), "_responsible" := responsible]
  }

  /** The score change of a death: -1 when the victim is responsible or the
      environment is, +1 otherwise. */
  function ScoreDelta(cfg: Config, victim: int, responsible: Val): (d: int)
    ensures d == -1 <==> responsible == IntV(victim) || responsible == cfg.originEnvironment
    ensures d == 1 || d == -1
  {
    if responsible == IntV(victim) || responsible == cfg.originEnvironment then -1 else 1
  }

  /** `scores[r]` of a defaultdict(int). */
  function Score(scores: map<Val, int>, r: Val): int
  {
    if r in scores then scores[r] else 0
  }

  /** What `_event_check` sends for an event. */
  function EventMsg(gameId: int, e: Event): Out
  {
    Out(e.playerId, Status(gameId, e.status, e.responsible, e.damageType))
  }

  /** `_event_check` pops from the end: the events newest first, those of the
      two reported kinds becoming messages. */
  function EventMsgs(cfg: Config, gameId: int, events: seq<Event>): (r: seq<Out>)
    ensures |r| <= |events|
    decreases |events|
  {
    if events == [] then []
    else
      var e := events[|events| - 1];
      (if e.status == cfg.statusDamaged || e.status == cfg.statusDeath then [EventMsg(gameId, e)] else [])
      + EventMsgs(cfg, gameId, events[..|events| - 1])
  }

  /** Every reported event gives exactly one message, newest first: when all the
      events are of the two reported kinds, the messages are the events reversed. */
  lemma {:induction false} EventMsgsReversed(cfg: Config, gameId: int, events: seq<Event>)
    requires forall e :: e in events ==> e.status == cfg.statusDamaged || e.status == cfg.statusDeath
    ensures |EventMsgs(cfg, gameId, events)| == |events|
    ensures forall i :: 0 <= i < |events| ==>
      EventMsgs(cfg, gameId, events)[i] == EventMsg(gameId, events[|events| - 1 - i])
    decreases |events|
  {
    if events != [] {
      var init := events[..|events| - 1];
      assert forall e :: e in init ==> e in events;
      EventMsgsReversed(cfg, gameId, init);
    }
  }
}
