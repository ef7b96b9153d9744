/** The vision half of the older game server in src/whiteshoe/server.py: the
    world a player sees (`_visible_world` and the three vision functions), the
    fog-of-war update of the player's remembered world
    (`Game._update_known_world`) and the packing of remembered cells into
    vision packets (`Game._send_player_vision`). */
module ServerView {
  import opened Wrappers
  import opened Constants
  import opened Grid
  import opened Entities
  import Sync
  import Vision
  import Wire

  // ---- _visible_world ----

  /** What `_visible_world` holds for a cell of the world: copies of all its
      objects when it is in sight, followed by copies of its always-visible
      objects wherever it is. */
  function SeenCell(world: World, visible: set<Coord>, c: Coord): seq<Obj>
    requires c in world
  {
    (if c in visible then Objs(world[c]) else []) + ObjsOfKind(world[c], AlwaysVisibleObjects)
  }

  /** Whether `_visible_world` has an entry for the cell. */
  predicate Shown(world: World, visible: set<Coord>, c: Coord)
  {
    c in world && (c in visible || HasKind(world[c], AlwaysVisibleObjects))
  }

  /** The visible world: the cells in sight that are in the world, and every
      cell holding an always-visible object. */
  function Seen(world: World, visible: set<Coord>): (r: Known)
  {
    map c | c in world && (c in visible || HasKind(world[c], AlwaysVisibleObjects)) :: SeenCell(world, visible, c)
  }

  /** A cell in sight shows all its objects, in order, before anything else;
      a cell out of sight shows only always-visible objects, and only when
      it has one; nothing outside the world is shown. */
  lemma SeenContents(world: World, visible: set<Coord>, c: Coord)
    ensures c in Seen(world, visible) ==> c in world
    ensures c in world && c in visible ==>
      c in Seen(world, visible) && Seen(world, visible)[c][..|world[c]|] == Objs(world[c])
    ensures c in world && c !in visible ==>
      (c in Seen(world, visible) <==> HasKind(world[c], AlwaysVisibleObjects))
    ensures c in Seen(world, visible) && c !in visible ==>
      forall o :: o in Seen(world, visible)[c] ==> o.kind in AlwaysVisibleObjects
  {
    if c in world && c in visible {
      var r := Seen(world, visible);
      assert r[c] == Objs(world[c]) + ObjsOfKind(world[c], AlwaysVisibleObjects);
    }
  }

  /** Every always-visible object of the world is shown, wherever it is. */
  lemma ExplosionsAlwaysSeen(world: World, visible: set<Coord>, c: Coord, i: nat)
    requires c in world && i < |world[c]| && world[c][i].obj.kind in AlwaysVisibleObjects
    ensures c in Seen(world, visible) && world[c][i].obj in Seen(world, visible)[c]
  {
    ObjsOfKindHas(world[c], AlwaysVisibleObjects, i);
  }

  lemma {:induction false} ObjsOfKindHas(cell: Cell, kinds: set<Kind>, i: nat)
    requires i < |cell| && cell[i].obj.kind in kinds
    ensures HasKind(cell, kinds) && cell[i].obj in ObjsOfKind(cell, kinds)
    decreases |cell|
  {
    if i > 0 {
      ObjsOfKindHas(cell[1..], kinds, i - 1);
      assert cell[1..][i - 1] == cell[i];
    }
  }

  /** An explosion in sight is shown twice: once among the cell's copied
      objects and once more as an always-visible object. */
  lemma ExplosionInSightShownTwice()
    ensures var e := Entity(Obj(Explosion, map[]), 0);
      Seen(map[(0, 0) := [e]], {(0, 0)})[(0, 0)] == [e.obj, e.obj]
  {
    var e := Entity(Obj(Explosion, map[]), 0);
    var world := map[(0, 0) := [e]];
    assert HasKind(world[(0, 0)], AlwaysVisibleObjects) by {
      assert world[(0, 0)][0].obj.kind in AlwaysVisibleObjects;
    }
    assert [e][1..] == [];
    assert Objs([e]) == [e.obj];
  }

  /** `_visible_world(world, visible)`: the cells in sight are copied first,
      then every cell is searched for always-visible objects. */
  method VisibleWorld(world: World, visible: set<Coord>) returns (vw: Known)
    ensures vw == Seen(world, visible)
  {
    vw := map[];
    var todo := visible;
    while todo != {}
      invariant todo <= visible
      invariant forall c :: c in vw <==> c in world && c in visible - todo
      invariant forall c :: c in vw ==> vw[c] == Objs(world[c])
      decreases todo
    {
      var c :| c in todo;
      if c in world {
        vw := vw[c := Objs(world[c])];
      }
      todo := todo - {c};
    }
    var cells := world.Keys;
    while cells != {}
      invariant cells <= world.Keys
      invariant forall c :: c in vw <==> c in world && (c in visible || (c !in cells && HasKind(world[c], AlwaysVisibleObjects)))
      invariant forall c :: c in vw ==>
        vw[c] == (if c in visible then Objs(world[c]) else []) + (if c in cells then [] else ObjsOfKind(world[c], AlwaysVisibleObjects))
      decreases cells
    {
      var c :| c in cells;
      var lit := ObjsOfKind(world[c], AlwaysVisibleObjects);
      if lit != [] {
        var before := if c in vw then vw[c] else [];
        vw := vw[c := before + lit];
      } else if c in vw {
        assert vw[c] + lit == vw[c];
      }
      cells := cells - {c};
    }
    assert forall c :: c in vw ==> vw[c] == SeenCell(world, visible, c);
  }

  // ---- vision_square, vision_cone, vision_all ----

  /** vision_square: the cells within Chebyshev distance 3 (the facing is ignored). */
  function SquareSeen(world: World, c: Coord): (r: Known)
    ensures forall p :: p in r <==> p in world && (Chebyshev(p, c) <= 3 || HasKind(world[p], AlwaysVisibleObjects))
  {
    NeighbourhoodMembers(c, 3);
    Seen(world, Elems(NeighbourhoodSeq(c, 3)))
  }

  /** vision_all: the whole world. */
  function AllSeen(world: World): (r: Known)
    ensures r.Keys == world.Keys
    ensures forall p :: p in r ==> p in world && |world[p]| <= |r[p]| && r[p][..|world[p]|] == Objs(world[p])
  {
    var r := Seen(world, world.Keys);
    forall p | p in r ensures p in world && |world[p]| <= |r[p]| && r[p][..|world[p]|] == Objs(world[p]) {
      SeenContents(world, world.Keys, p);
    }
    r
  }

  /** The cells vision_cone collects: its own cell, the cell behind whether
      or not it is in the world, and one ray along each adjacent direction. */
  ghost function ConeCells(world: World, c: Coord, d: Dir): set<Coord>
    requires IsCardinal(d)
  {
    Vision.ConeSet(world, c, d) + {Vision.Behind(c, d)}
  }

  /** Adding the cell behind unconditionally changes nothing, because the
      visible world drops the cells outside the world: the view is the same
      as vision.cone's, which adds that cell only when it is in the world. */
  lemma ConeBehindDropped(world: World, c: Coord, d: Dir)
    requires IsCardinal(d)
    ensures Seen(world, ConeCells(world, c, d)) == Seen(world, Vision.ConeSet(world, c, d))
  {
    Vision.ConeProperties(world, c, d);
    forall p ensures Shown(world, ConeCells(world, c, d), p) <==> Shown(world, Vision.ConeSet(world, c, d), p) {
    }
  }

  /** vision_cone. A facing that is not a direction, or a diagonal one,
      raises KeyError (None). */
  method ConeSeen(world: World, c: Coord, direction: Const) returns (r: Option<Known>)
    ensures r.Some? <==> direction.DirC? && IsCardinal(direction.dir)
    ensures r.Some? ==> r.value == Seen(world, ConeCells(world, c, direction.dir))
  {
    var cells := Vision.Cone(world, c, direction);
    if cells.None? {
      r := None;
    } else {
      var vw := VisibleWorld(world, cells.value + {Vision.Behind(c, direction.dir)});
      r := Some(vw);
    }
  }

  // ---- _update_known_world ----

  /** The decay of a remembered object is reported: it is forgotten, or it
      is historical and its flag is not yet `== True` (in Python the integer
      1 compares equal to True as well). */
  predicate Reports(o: Obj)
  {
    o.kind !in HistoricalObjects || !("historical" in o.attrs && IsTrue(o.attrs["historical"]))
  }

  predicate DecayReports(objs: seq<Obj>)
  {
    exists o :: o in objs && Reports(o)
  }

  /** The visible cell holds a historical object. */
  predicate ShowsHistory(objs: seq<Obj>)
  {
    exists o :: o in objs && o.kind in HistoricalObjects
  }

  /** The objects that survive removing every historical one (the
      `new_state.remove(known)` loop). */
  function Unhistorical(objs: seq<Obj>): (r: seq<Obj>)
    ensures forall o :: o in r <==> o in objs && o.kind !in HistoricalObjects
  {
    if objs == [] then []
    else (if objs[0].kind in HistoricalObjects then [] else [objs[0]]) + Unhistorical(objs[1..])
  }

  /** The new contents of a cell in sight whose memory is `start`: without its
      historical objects when the cell shows one, then the visible objects. */
  function MergeInto(start: seq<Obj>, seen: seq<Obj>): seq<Obj>
  {
    (if ShowsHistory(seen) then Unhistorical(start) else start) + seen
  }

  /** `known_world.get(coord, [])`. */
  function Memory(k: Known, c: Coord): seq<Obj>
  {
    if c in k then k[c] else []
  }

  /** The new remembered contents of a cell in sight: its memory, decayed,
      merged with what is seen. */
  function Merged(known: Known, vw: Known, c: Coord): seq<Obj>
    requires c in vw
  {
    MergeInto(if c in known then Sync.Decay(known[c]) else [], vw[c])
  }

  /** The remembered world after the update: cells in sight get their merged
      contents (a cell new to memory only when it shows something), the
      other remembered cells decay. */
  function Remembered(known: Known, vw: Known): Known
  {
    map c | c in vw.Keys + known.Keys && (c in known || vw[c] != []) ::
      if c in vw then Merged(known, vw, c) else Sync.Decay(known[c])
  }

  /** The cells the update reports as changed: remembered cells in sight
      whose decay reports or whose contents change, cells new to memory, and
      remembered cells out of sight whose decay reports. */
  function Reported(known: Known, vw: Known): set<Coord>
  {
    (set c | c in vw && c in known && (DecayReports(known[c]) || Merged(known, vw, c) != Sync.Decay(known[c])))
    + (set c | c in vw && c !in known && vw[c] != [])
    + (set c | c in known && c !in vw && DecayReports(known[c]))
  }

  /** The decayed memory holds only historical objects, so a cell in sight
      that shows a historical object keeps none of its memory. */
  lemma {:induction false} DecayAllHistorical(objs: seq<Obj>)
    ensures Unhistorical(Sync.Decay(objs)) == []
  {
    var d := Sync.Decay(objs);
    if Unhistorical(d) != [] {
      assert Unhistorical(d)[0] in Unhistorical(d);
    }
  }

  /** A cell in sight is remembered as exactly what is seen when it shows a
      historical object or was not remembered; otherwise as its decayed
      memory followed by what is seen. */
  lemma InSightRemembered(known: Known, vw: Known, c: Coord)
    requires c in vw && (c in known || vw[c] != [])
    ensures c in Remembered(known, vw)
    ensures Remembered(known, vw)[c] ==
      (if ShowsHistory(vw[c]) || c !in known then [] else Sync.Decay(known[c])) + vw[c]
  {
    if c in known {
      DecayAllHistorical(known[c]);
    }
  }

  /** A remembered cell out of sight decays: its historical objects stay,
      flagged, the others are forgotten; it is reported exactly when that
      forgets an object or flags one for the first time. */
  lemma OutOfSightDecays(known: Known, vw: Known, c: Coord)
    requires c in known && c !in vw
    ensures c in Remembered(known, vw) && Remembered(known, vw)[c] == Sync.Decay(known[c])
    ensures c in Reported(known, vw) <==> DecayReports(known[c])
  {
  }

  /** Decaying a second time reports nothing: a flag is reported only the
      first time it is set. */
  lemma DecayReportedOnce(objs: seq<Obj>)
    ensures !DecayReports(Sync.Decay(objs))
  {
    forall o | o in Sync.Decay(objs) ensures !Reports(o) {
    }
  }

  /** The flags in memory are booleans: no remembered object has the
      integer 1 as its flag. */
  predicate BoolFlags(known: Known)
  {
    forall c, o :: c in known && o in known[c] && "historical" in o.attrs ==> o.attrs["historical"] != IntV(1)
  }

  /** Decaying a cell whose decay reports nothing leaves it as it is. */
  lemma {:induction false} QuietDecayKeeps(objs: seq<Obj>)
    requires !DecayReports(objs)
    requires forall o :: o in objs && "historical" in o.attrs ==> o.attrs["historical"] != IntV(1)
    ensures Sync.Decay(objs) == objs
    decreases |objs|
  {
    if objs != [] {
      assert objs[0] in objs && !Reports(objs[0]);
      assert objs[0].attrs["historical" := BoolV(true)] == objs[0].attrs;
      assert !DecayReports(objs[1..]) by {
        forall o | o in objs[1..] ensures !Reports(o) {
          assert o in objs;
        }
      }
      QuietDecayKeeps(objs[1..]);
      assert objs == [objs[0]] + objs[1..];
    }
  }

  /** Every reported cell is remembered, and every change of the remembered
      world is reported: a cell that is not reported is remembered exactly as
      before (provided the flags in memory are booleans). */
  lemma ChangesReported(known: Known, vw: Known, c: Coord)
    requires BoolFlags(known)
    ensures c in Reported(known, vw) ==> c in Remembered(known, vw)
    ensures c !in Reported(known, vw) ==>
      (c in Remembered(known, vw) <==> c in known) &&
      (c in known ==> Remembered(known, vw)[c] == known[c])
  {
    if c in known && c !in Reported(known, vw) {
      QuietDecayKeeps(known[c]);
    }
  }

  // the three passes

  function DecayChanged(known: Known, done: set<Coord>): set<Coord>
  {
    set c | c in done && c in known && DecayReports(known[c])
  }

  /** The merge pass after it has handled the visible cells of `done`, on
      the memory `k` that the first pass left. */
  function MergedPart(k: Known, vw: Known, done: set<Coord>): Known
    requires done <= vw.Keys
  {
    map c | c in k.Keys + done && (c in k || vw[c] != []) ::
      if c in done then MergeInto(Memory(k, c), vw[c]) else k[c]
  }

  function MergeChanged(k: Known, vw: Known, done: set<Coord>): set<Coord>
    requires done <= vw.Keys
  {
    set c | c in done && MergeInto(Memory(k, c), vw[c]) != Memory(k, c)
  }

  /** `_update_known_world(player_id, visible_world)` on the player's
      remembered world: the decay of the remembered cells in sight, the merge
      of what is seen, and the decay of the remembered cells out of sight.
      The result is the new remembered world and the changed cells. */
  method UpdateKnownWorld(known: Known, vw: Known) returns (k: Known, changed: set<Coord>)
    ensures k == Remembered(known, vw) && changed == Reported(known, vw)
  {
    var k1, changed1 := DecayPass(known, vw.Keys * known.Keys);
    var k2, changed2 := MergePass(k1, vw);
    var k3, changed3 := DecayPass(k2, k2.Keys - vw.Keys);
    PassesCompose(known, vw);
    ChangesCompose(known, vw);
    k, changed := k3, changed1 + changed2 + changed3;
  }

  /** The three passes make up the update: the remembered world */
  lemma PassesCompose(known: Known, vw: Known)
    ensures var k1 := Sync.Decayed(known, vw.Keys * known.Keys);
      var k2 := MergedPart(k1, vw, vw.Keys);
      Sync.Decayed(k2, k2.Keys - vw.Keys) == Remembered(known, vw)
  {
    var k1 := Sync.Decayed(known, vw.Keys * known.Keys);
    var k2 := MergedPart(k1, vw, vw.Keys);
    var r := Sync.Decayed(k2, k2.Keys - vw.Keys);
    var want := Remembered(known, vw);
    forall c ensures c in r <==> c in want {
      assert c in k1 <==> c in known;
    }
    forall c | c in r ensures r[c] == want[c] {
      if c in vw {
        assert Memory(k1, c) == if c in known then Sync.Decay(known[c]) else [];
      } else {
        assert k2[c] == k1[c] == known[c];
      }
    }
  }

  /** The three passes report the changed cells. */
  lemma ChangesCompose(known: Known, vw: Known)
    ensures var k1 := Sync.Decayed(known, vw.Keys * known.Keys);
      var k2 := MergedPart(k1, vw, vw.Keys);
      DecayChanged(known, vw.Keys * known.Keys) + MergeChanged(k1, vw, vw.Keys) + DecayChanged(k2, k2.Keys - vw.Keys)
        == Reported(known, vw)
  {
    var k1 := Sync.Decayed(known, vw.Keys * known.Keys);
    var k2 := MergedPart(k1, vw, vw.Keys);
    var got := DecayChanged(known, vw.Keys * known.Keys) + MergeChanged(k1, vw, vw.Keys) + DecayChanged(k2, k2.Keys - vw.Keys);
    forall c ensures c in got <==> c in Reported(known, vw) {
      if c in vw {
        ChangedInSight(known, vw, k1, k2, c);
      } else {
        ChangedOutOfSight(known, vw, k1, k2, c);
      }
    }
  }

  /** ChangesCompose for a cell in sight: only the first two passes can report it. */
  lemma ChangedInSight(known: Known, vw: Known, k1: Known, k2: Known, c: Coord)
    requires k1 == Sync.Decayed(known, vw.Keys * known.Keys) && k2 == MergedPart(k1, vw, vw.Keys) && c in vw
    ensures c in DecayChanged(known, vw.Keys * known.Keys) + MergeChanged(k1, vw, vw.Keys) + DecayChanged(k2, k2.Keys - vw.Keys)
      <==> c in Reported(known, vw)
  {
    assert c !in DecayChanged(k2, k2.Keys - vw.Keys);
    var before := if c in known then Sync.Decay(known[c]) else [];
    assert Memory(k1, c) == before;
    assert c in MergeChanged(k1, vw, vw.Keys) <==> MergeInto(before, vw[c]) != before;
    if c in known {
      assert c in DecayChanged(known, vw.Keys * known.Keys) <==> DecayReports(known[c]);
    } else {
      assert MergeInto([], vw[c]) == vw[c];
      assert c !in DecayChanged(known, vw.Keys * known.Keys);
    }
  }

  /** ChangesCompose for a cell out of sight: only the last pass can report it. */
  lemma ChangedOutOfSight(known: Known, vw: Known, k1: Known, k2: Known, c: Coord)
    requires k1 == Sync.Decayed(known, vw.Keys * known.Keys) && k2 == MergedPart(k1, vw, vw.Keys) && c !in vw
    ensures c in DecayChanged(known, vw.Keys * known.Keys) + MergeChanged(k1, vw, vw.Keys) + DecayChanged(k2, k2.Keys - vw.Keys)
      <==> c in Reported(known, vw)
  {
    assert c !in DecayChanged(known, vw.Keys * known.Keys) && c !in MergeChanged(k1, vw, vw.Keys);
    if c in known {
      assert c in k2 && k2[c] == k1[c] == known[c];
    }
  }

  /** A decay pass over `cells`: each one decays, and the ones whose decay
      reports are collected. */
  method DecayPass(known: Known, cells: set<Coord>) returns (k: Known, changed: set<Coord>)
    requires cells <= known.Keys
    ensures k == Sync.Decayed(known, cells) && changed == DecayChanged(known, cells)
  {
    k, changed := known, {};
    var todo := cells;
    ghost var done: set<Coord> := {};
    while todo != {}
      invariant todo + done == cells && todo !! done
      invariant k == Sync.Decayed(known, done)
      invariant changed == DecayChanged(known, done)
      decreases todo
    {
      var c :| c in todo;
      Sync.DecayedStep(known, done, c);
      var decayed, reported := DecayCell(k[c]);
      k := k[c := decayed];
      if reported {
        changed := changed + {c};
      }
      assert DecayChanged(known, done + {c}) == DecayChanged(known, done) + (if reported then {c} else {});
      todo := todo - {c};
      done := done + {c};
    }
  }

  /** One cell of a decay pass: flag the historical objects, drop the rest,
      and report a dropped object or a flag that was not `== True`. */
  method DecayCell(objs: seq<Obj>) returns (r: seq<Obj>, reported: bool)
    ensures r == Sync.Decay(objs)
    ensures reported == DecayReports(objs)
  {
    r, reported := [], false;
    var i := 0;
    while i < |objs|
      invariant 0 <= i <= |objs|
      invariant r + Sync.Decay(objs[i..]) == Sync.Decay(objs)
      invariant reported == DecayReports(objs[..i])
    {
      var o := objs[i];
      assert objs[i..][1..] == objs[i + 1..];
      DecayReportsSnoc(objs[..i], o);
      assert objs[..i + 1] == objs[..i] + [o];
      if o.kind in HistoricalObjects {
        if !("historical" in o.attrs && IsTrue(o.attrs["historical"])) {
          reported := true;
        }
        r := r + [Sync.Historify(o)];
      } else {
        reported := true;
      }
      i := i + 1;
    }
    assert objs[..i] == objs;
  }

  lemma DecayReportsSnoc(objs: seq<Obj>, o: Obj)
    ensures DecayReports(objs + [o]) <==> DecayReports(objs) || Reports(o)
  {
    if Reports(o) {
      assert o in objs + [o];
    }
    if DecayReports(objs) {
      var p :| p in objs && Reports(p);
      assert p in objs + [o];
    }
  }

  /** The merge pass over the visible cells: a cell whose new state differs
      from its memory is replaced and reported. */
  method MergePass(k: Known, vw: Known) returns (k2: Known, changed: set<Coord>)
    ensures k2 == MergedPart(k, vw, vw.Keys) && changed == MergeChanged(k, vw, vw.Keys)
  {
    k2, changed := k, {};
    var todo := vw.Keys;
    ghost var done: set<Coord> := {};
    assert k2 == MergedPart(k, vw, done);
    while todo != {}
      invariant todo + done == vw.Keys && todo !! done
      invariant k2 == MergedPart(k, vw, done)
      invariant changed == MergeChanged(k, vw, done)
      decreases todo
    {
      var c :| c in todo;
      MergedStep(k, vw, done, c);
      var start := Memory(k2, c);
      var next := MergeInto(start, vw[c]);
      if start != next {
        changed := changed + {c};
        k2 := k2[c := next];
      }
      todo := todo - {c};
      done := done + {c};
    }
  }

  lemma MergedStep(k: Known, vw: Known, done: set<Coord>, c: Coord)
    requires done <= vw.Keys && c in vw && c !in done
    ensures Memory(MergedPart(k, vw, done), c) == Memory(k, c)
    ensures var next := MergeInto(Memory(k, c), vw[c]);
      MergedPart(k, vw, done + {c}) == if next != Memory(k, c) then MergedPart(k, vw, done)[c := next] else MergedPart(k, vw, done)
    ensures MergeChanged(k, vw, done + {c}) ==
      MergeChanged(k, vw, done) + (if MergeInto(Memory(k, c), vw[c]) != Memory(k, c) then {c} else {})
  {
    if c !in k && vw[c] == [] {
      assert MergeInto([], []) == [];
    }
  }

  // ---- _send_player_vision ----

  /** The loop of `_send_player_vision` from the point where `done` packets
      are finished and `cur` is being filled: before each coordinate a packet
      grown past the limit is finished; a coordinate off the world is
      skipped; one that is not remembered raises KeyError; otherwise its
      records are added. The result is the finished packets and the one
      being filled. */
  function Packing(size: Wire.Packet -> nat, world: World, known: Known, coords: seq<Coord>,
                   done: seq<Wire.Packet>, cur: Wire.Packet): Option<(seq<Wire.Packet>, Wire.Packet)>
    decreases |coords|
  {
    if coords == [] then Some((done, cur))
    else
      var full := size(cur) > PacketSizeLimit;
      var done' := if full then done + [cur] else done;
      var cur' := if full then Wire.NewPacket(cur.gameId) else cur;
      var c := coords[0];
      if c !in world then Packing(size, world, known, coords[1..], done', cur')
      else if c !in known then None
      else
        match Wire.CellRecords(c, known[c], |cur'.attributes|)
        case None => None
        case Some(r) =>
          Packing(size, world, known, coords[1..], done',
                  cur'.(objects := cur'.objects + Wire.Flatten(r.0), attributes := cur'.attributes + r.1))
  }

  /** The cells `cs` can be packed from the remembered world: each one in
      the world is remembered and holds only objects that can be sent. */
  predicate Packable(world: World, known: Known, cs: set<Coord>)
  {
    forall c :: c in cs && c in world ==> c in known && forall o :: o in known[c] ==> Wire.Sendable(o)
  }

  /** The packing raises exactly when a listed cell is not packable, in
      whatever order the cells are listed. */
  lemma {:induction false} PackingSome(size: Wire.Packet -> nat, world: World, known: Known, coords: seq<Coord>,
                                       done: seq<Wire.Packet>, cur: Wire.Packet)
    ensures Packing(size, world, known, coords, done, cur).Some? <==> Packable(world, known, Elems(coords))
    decreases |coords|
  {
    if coords != [] {
      var full := size(cur) > PacketSizeLimit;
      var done' := if full then done + [cur] else done;
      var cur' := if full then Wire.NewPacket(cur.gameId) else cur;
      var c := coords[0];
      assert Elems(coords) == {c} + Elems(coords[1..]);
      if c !in world {
        PackingSome(size, world, known, coords[1..], done', cur');
      } else if c in known {
        Wire.ObjRecordsSome(c, known[c], |cur'.attributes|);
        match Wire.CellRecords(c, known[c], |cur'.attributes|)
        case None =>
        case Some(r) =>
          PackingSome(size, world, known, coords[1..], done',
                      cur'.(objects := cur'.objects + Wire.Flatten(r.0), attributes := cur'.attributes + r.1));
      }
    }
  }

  /** `_send_player_vision` as written: only the finished packets are
      returned; the packet being filled is dropped. */
  function VisionPacketsAsWritten(size: Wire.Packet -> nat, world: World, known: Known, coords: seq<Coord>, gameId: int)
    : Option<seq<Wire.Packet>>
  {
    match Packing(size, world, known, coords, [], Wire.NewPacket(gameId))
    case None => None
    case Some(p) => Some(p.0)
  }

  /** `_send_player_vision` with the last packet appended, as the newer
      server in src/whiteshoe/game.py does. */
  function VisionPackets(size: Wire.Packet -> nat, world: World, known: Known, coords: seq<Coord>, gameId: int)
    : Option<seq<Wire.Packet>>
  {
    match Packing(size, world, known, coords, [], Wire.NewPacket(gameId))
    case None => None
    case Some(p) => Some(p.0 + [p.1])
  }

  /** As written, a single remembered cell that is now empty is never sent:
      no packet at all comes out, where one packet with its (x, y, -1, -1)
      record is intended. */
  lemma OneCellNeverSent(size: Wire.Packet -> nat, gameId: int)
    requires size(Wire.NewPacket(gameId)) <= PacketSizeLimit
    ensures var world: World := map[(0, 0) := []];
      var known: Known := map[(0, 0) := []];
      VisionPacketsAsWritten(size, world, known, [(0, 0)], gameId) == Some([])
      && VisionPackets(size, world, known, [(0, 0)], gameId) == Some([Wire.Packet([0, 0, -1, -1], [], false, gameId)])
  {
    var world: World := map[(0, 0) := []];
    var known: Known := map[(0, 0) := []];
    var p := Wire.NewPacket(gameId);
    var recs := [Wire.Rec(0, 0, -1, -1)];
    assert Wire.CellRecords((0, 0), [], 0) == Some((recs, []));
    assert Wire.Flatten(recs) == [0, 0, -1, -1];
    var q := p.(objects := p.objects + Wire.Flatten(recs), attributes := p.attributes + []);
    assert q == Wire.Packet([0, 0, -1, -1], [], false, gameId);
    assert [(0, 0)][1..] == [];
    assert Packing(size, world, known, [], [], q) == Some(([], q));
    assert Packing(size, world, known, [(0, 0)], [], p) == Some(([], q));
    assert VisionPacketsAsWritten(size, world, known, [(0, 0)], gameId) == Some([]);
    var none: seq<Wire.Packet> := [];
    assert none + [q] == [q];
    assert VisionPackets(size, world, known, [(0, 0)], gameId) == Some([q]);
  }

  /** With the last packet appended, and every coordinate of the world that
      is asked for remembered, the packets are exactly those of the newer
      server's `_send_player_vision` (without `clear_all`), so they are well
      split and decode back to the remembered cells. */
  lemma {:induction false} PackingAgrees(size: Wire.Packet -> nat, world: World, known: Known, coords: seq<Coord>,
                                         done: seq<Wire.Packet>, cur: Wire.Packet)
    requires forall i :: 0 <= i < |coords| && coords[i] in world ==> coords[i] in known
    ensures match Packing(size, world, known, coords, done, cur)
      case None => Wire.PackFrom(size, world, known, coords, done, cur).None?
      case Some(p) => Wire.PackFrom(size, world, known, coords, done, cur) == Some(p.0 + [p.1])
    decreases |coords|
  {
    if coords != [] {
      var full := size(cur) > PacketSizeLimit;
      var done' := if full then done + [cur] else done;
      var cur' := if full then Wire.NewPacket(cur.gameId) else cur;
      var c := coords[0];
      assert forall i :: 0 <= i < |coords[1..]| ==> coords[1..][i] == coords[i + 1];
      if c !in world {
        PackingAgrees(size, world, known, coords[1..], done', cur');
      } else {
        assert coords[0] in known;
        match Wire.CellRecords(c, known[c], |cur'.attributes|)
        case None =>
        case Some(r) =>
          PackingAgrees(size, world, known, coords[1..], done',
                        cur'.(objects := cur'.objects + Wire.Flatten(r.0), attributes := cur'.attributes + r.1));
      }
    }
  }

  lemma VisionPacketsAgree(size: Wire.Packet -> nat, world: World, known: Known, coords: seq<Coord>, gameId: int)
    requires forall i :: 0 <= i < |coords| && coords[i] in world ==> coords[i] in known
    ensures VisionPackets(size, world, known, coords, gameId) == Wire.PlayerVision(size, world, known, coords, false, gameId)
  {
    PackingAgrees(size, world, known, coords, [], Wire.NewPacket(gameId));
  }

  /** As written, exactly the last of the intended packets is missing. */
  lemma LastPacketDropped(size: Wire.Packet -> nat, world: World, known: Known, coords: seq<Coord>, gameId: int)
    ensures VisionPacketsAsWritten(size, world, known, coords, gameId).Some?
      <==> VisionPackets(size, world, known, coords, gameId).Some?
    ensures VisionPackets(size, world, known, coords, gameId).Some? ==>
      var intended := VisionPackets(size, world, known, coords, gameId).value;
      |intended| >= 1 && VisionPacketsAsWritten(size, world, known, coords, gameId).value == intended[..|intended| - 1]
  {
    match Packing(size, world, known, coords, [], Wire.NewPacket(gameId))
    case None =>
    case Some(p) => assert (p.0 + [p.1])[..|p.0|] == p.0;
  }
}
