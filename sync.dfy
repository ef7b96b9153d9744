/** The fog-of-war update of src/whiteshoe/game.py (`BaseGame._update_known_world`):
    a player's remembered world is brought up to date with what the player can
    see, and the cells whose remembered contents changed are reported. */
module Sync {
  import opened Wrappers
  import opened Constants
  import opened Grid
  import opened Entities

  // ---- decay of cells out of vision ----

  /** The copy of a remembered object with its `historical` flag set. */
  function Historify(o: Obj): (r: Obj)
    ensures r.kind == o.kind && "historical" in r.attrs && r.attrs["historical"] == BoolV(true)
    ensures forall k :: k != "historical" ==> Get(r.attrs, k) == Get(o.attrs, k)
  {
    Obj(o.kind, o.attrs["historical" := BoolV(true)])
  }

  /** A remembered cell out of vision: historical objects stay, flagged
      historical, and every other object is forgotten. */
  function Decay(objs: seq<Obj>): (r: seq<Obj>)
    ensures |r| <= |objs|
    ensures forall o :: o in r ==> o.kind in HistoricalObjects && "historical" in o.attrs && IsTrue(o.attrs["historical"])
  {
    if objs == [] then []
    else if objs[0].kind in HistoricalObjects then [Historify(objs[0])] + Decay(objs[1..])
    else Decay(objs[1..])
  }

  /** Decaying this remembered object is reported: it is forgotten, or it is
      historical and not yet flagged (its flag is absent or falsy). */
  predicate Reports(o: Obj)
  {
    o.kind !in HistoricalObjects || !("historical" in o.attrs && Truthy(o.attrs["historical"]))
  }

  /** The decay of a remembered cell is reported. */
  predicate DecayReports(objs: seq<Obj>)
  {
    exists o :: o in objs && Reports(o)
  }

  /** The first loop, after it has handled the cells of `done`. */
  function Decayed(known: Known, done: set<Coord>): (r: Known)
    ensures r.Keys == known.Keys
  {
    map c | c in known :: if c in done then Decay(known[c]) else known[c]
  }

  function DecayChanged(known: Known, done: set<Coord>): set<Coord>
  {
    set c | c in done && c in known && DecayReports(known[c])
  }

  // ---- refresh of cells in direct vision ----

  /** The remembered cell already equals the world's cell. */
  predicate UpToDate(known: Known, world: World, c: Coord)
    requires c in world
  {
    c in known && known[c] == Objs(world[c])
  }

  /** The second loop, after it has handled the cells of `done`: each one that is
      not up to date is replaced by copies of the world's objects. */
  function Refreshed(known: Known, world: World, done: set<Coord>): (r: Known)
    requires done <= world.Keys
    ensures r.Keys == known.Keys + done
  {
    map c | c in known.Keys + done ::
      if c in done && !UpToDate(known, world, c) then Objs(world[c]) else known[c]
  }

  function RefreshChanged(known: Known, world: World, done: set<Coord>): set<Coord>
    requires done <= world.Keys
  {
    set c | c in done && !UpToDate(known, world, c)
  }

  // ---- always-visible objects ----

  /** The cells of `done` that hold an always-visible object. */
  function Lit(world: World, done: set<Coord>): (r: set<Coord>)
    requires done <= world.Keys
  {
    set c | c in done && HasKind(world[c], AlwaysVisibleObjects)
  }

  /** The third loop, after it has handled the cells of `done`: copies of the
      always-visible objects of each such cell are appended to the remembered
      cell, which is created when missing. */
  function WithAlwaysVisible(known: Known, world: World, done: set<Coord>): (r: Known)
    requires done <= world.Keys
  {
    map c | c in known.Keys + Lit(world, done) ::
      if c in Lit(world, done)
      then (if c in known then known[c] else []) + ObjsOfKind(world[c], AlwaysVisibleObjects)
      else known[c]
  }

  // ---- the whole update ----

  /** What `_update_known_world(player, visible, dirty)` leaves as the player's
      remembered world. */
  function UpdatedKnown(known: Known, world: World, visible: set<Coord>, dirty: set<Coord>): Known
    requires visible * dirty <= world.Keys && dirty <= world.Keys
  {
    var k1 := Decayed(known, known.Keys - visible);
    var k2 := Refreshed(k1, world, visible * dirty);
    WithAlwaysVisible(k2, world, dirty + CoordsWith(world, AlwaysVisibleObjects))
  }

  /** The cells it reports as changed. */
  function ChangedCoords(known: Known, world: World, visible: set<Coord>, dirty: set<Coord>): set<Coord>
    requires visible * dirty <= world.Keys && dirty <= world.Keys
  {
    var k1 := Decayed(known, known.Keys - visible);
    DecayChanged(known, known.Keys - visible)
    + RefreshChanged(k1, world, visible * dirty)
    + Lit(world, dirty + CoordsWith(world, AlwaysVisibleObjects))
  }

  /** The preconditions the source asserts (or relies on) for the update. */
  predicate UpdateArgs(known: Known, world: World, visible: set<Coord>, dirty: set<Coord>)
  {
    known.Keys <= world.Keys && visible * dirty <= world.Keys && dirty <= world.Keys
  }

  /** A remembered cell out of vision, holding no always-visible object, decays;
      it is reported exactly when some object is forgotten or newly flagged. */
  lemma OutOfVisionDecays(known: Known, world: World, visible: set<Coord>, dirty: set<Coord>, c: Coord)
    requires UpdateArgs(known, world, visible, dirty)
    requires c in known && c !in visible && !HasKind(world[c], AlwaysVisibleObjects)
    ensures c in UpdatedKnown(known, world, visible, dirty)
    ensures UpdatedKnown(known, world, visible, dirty)[c] == Decay(known[c])
    ensures c in ChangedCoords(known, world, visible, dirty) <==> DecayReports(known[c])
  {
    var k1 := Decayed(known, known.Keys - visible);
    var k2 := Refreshed(k1, world, visible * dirty);
    assert k2[c] == k1[c] == Decay(known[c]);
    assert c !in Lit(world, dirty + CoordsWith(world, AlwaysVisibleObjects));
  }

  /** A cell in direct vision that changed this tick (and holds no
      always-visible object) is remembered as the world's copy; it is reported
      exactly when the memory differed from the world. */
  lemma VisibleDirtyRefreshed(known: Known, world: World, visible: set<Coord>, dirty: set<Coord>, c: Coord)
    requires UpdateArgs(known, world, visible, dirty)
    requires c in visible && c in dirty && !HasKind(world[c], AlwaysVisibleObjects)
    ensures c in UpdatedKnown(known, world, visible, dirty)
    ensures UpdatedKnown(known, world, visible, dirty)[c] == Objs(world[c])
    ensures c in ChangedCoords(known, world, visible, dirty) <==> !(c in known && known[c] == Objs(world[c]))
  {
    var k1 := Decayed(known, known.Keys - visible);
    assert c in k1 <==> c in known;
    assert c in known ==> k1[c] == known[c];
    assert c !in DecayChanged(known, known.Keys - visible);
    assert c !in Lit(world, dirty + CoordsWith(world, AlwaysVisibleObjects));
  }

  /** A cell in vision that did not change this tick (and holds no
      always-visible object) keeps its memory and is not reported. */
  lemma VisibleCleanKept(known: Known, world: World, visible: set<Coord>, dirty: set<Coord>, c: Coord)
    requires UpdateArgs(known, world, visible, dirty)
    requires c in world && c in visible && c !in dirty && !HasKind(world[c], AlwaysVisibleObjects)
    ensures c in UpdatedKnown(known, world, visible, dirty) <==> c in known
    ensures c in known ==> UpdatedKnown(known, world, visible, dirty)[c] == known[c]
    ensures c !in ChangedCoords(known, world, visible, dirty)
  {
    var k1 := Decayed(known, known.Keys - visible);
    var k2 := Refreshed(k1, world, visible * dirty);
    assert c in k2 <==> c in known;
    assert c in known ==> k2[c] == known[c];
    assert c !in Lit(world, dirty + CoordsWith(world, AlwaysVisibleObjects));
  }

  /** A cell holding an always-visible object is always reported, and copies of
      those objects are appended after what the first two passes left there. */
  lemma AlwaysVisibleAppended(known: Known, world: World, visible: set<Coord>, dirty: set<Coord>, c: Coord)
    requires UpdateArgs(known, world, visible, dirty)
    requires c in world && HasKind(world[c], AlwaysVisibleObjects)
    ensures c in UpdatedKnown(known, world, visible, dirty)
    ensures c in ChangedCoords(known, world, visible, dirty)
    ensures UpdatedKnown(known, world, visible, dirty)[c] ==
      (if c in visible && c in dirty then Objs(world[c])
       else if c in known && c !in visible then Decay(known[c])
       else if c in known then known[c]
       else [])
      + ObjsOfKind(world[c], AlwaysVisibleObjects)
  {
    var k1 := Decayed(known, known.Keys - visible);
    var k2 := Refreshed(k1, world, visible * dirty);
    assert c in Lit(world, dirty + CoordsWith(world, AlwaysVisibleObjects));
    if c in visible && c in dirty {
      assert c in k2 && k2[c] == Objs(world[c]);
    }
  }

  /** Every reported cell is a cell of the world (the closing assertion of
      `_update_known_world`), and so is every remembered cell. */
  lemma UpdateStaysInWorld(known: Known, world: World, visible: set<Coord>, dirty: set<Coord>)
    requires UpdateArgs(known, world, visible, dirty)
    ensures ChangedCoords(known, world, visible, dirty) <= world.Keys
    ensures UpdatedKnown(known, world, visible, dirty).Keys <= world.Keys
  {
    var k1 := Decayed(known, known.Keys - visible);
    assert RefreshChanged(k1, world, visible * dirty) <= world.Keys;
  }

  /** `BaseGame._update_known_world`: three passes over sets of cells (their
      iteration order does not matter, each cell being handled on its own).
      The source asserts that every remembered cell and every visible dirty cell
      is a cell of the world; dirty cells are read from the world too. */
  method UpdateKnownWorld(known: Known, world: World, visible: set<Coord>, dirty: set<Coord>)
    returns (knownAfter: Known, changed: set<Coord>)
    requires known.Keys <= world.Keys && visible * dirty <= world.Keys && dirty <= world.Keys
    ensures knownAfter == UpdatedKnown(known, world, visible, dirty)
    ensures changed == ChangedCoords(known, world, visible, dirty)
    ensures changed <= world.Keys && knownAfter.Keys <= world.Keys
  {
    var k1, changed1 := DecayPass(known, known.Keys - visible);
    var k2, changed2 := RefreshPass(k1, world, visible * dirty);
    var avCoords := CoordsWith(world, AlwaysVisibleObjects);
    var k3, changed3 := AlwaysVisiblePass(k2, world, dirty + avCoords);
    knownAfter := k3;
    changed := changed1 + changed2 + changed3;
  }

  /** Cells remembered but out of vision decay. */
  method DecayPass(known: Known, cells: set<Coord>) returns (k: Known, changed: set<Coord>)
    requires cells <= known.Keys
    ensures k == Decayed(known, cells) && changed == DecayChanged(known, cells)
  {
    k := known;
    changed := {};
    var todo := cells;
    ghost var done: set<Coord> := {};
    assert k == Decayed(known, done);
    while todo != {}
      invariant todo + done == cells && todo !! done
      invariant k == Decayed(known, done)
      invariant changed == DecayChanged(known, done)
      decreases todo
    {
      var c :| c in todo;
      DecayedStep(known, done, c);
      var decayed, reported := DecayCell(k[c]);
      k := k[c := decayed];
      if reported {
        changed := changed + {c};
      }
      todo := todo - {c};
      done := done + {c};
    }
  }

  lemma DecayedStep(known: Known, done: set<Coord>, c: Coord)
    requires c in known && c !in done
    ensures Decayed(known, done)[c] == known[c]
    ensures Decayed(known, done + {c}) == Decayed(known, done)[c := Decay(known[c])]
    ensures DecayChanged(known, done + {c}) == DecayChanged(known, done) + (if DecayReports(known[c]) then {c} else {})
  {
  }

  /** Visible dirty cells that differ from the world are replaced by copies. */
  method RefreshPass(known: Known, world: World, cells: set<Coord>) returns (k: Known, changed: set<Coord>)
    requires cells <= world.Keys
    ensures k == Refreshed(known, world, cells) && changed == RefreshChanged(known, world, cells)
  {
    k := known;
    changed := {};
    var todo := cells;
    ghost var done: set<Coord> := {};
    assert k == Refreshed(known, world, done);
    while todo != {}
      invariant todo + done == cells && todo !! done
      invariant k == Refreshed(known, world, done)
      invariant changed == RefreshChanged(known, world, done)
      decreases todo
    {
      var c :| c in todo;
      RefreshedStep(known, world, done, c);
      if c in k && k[c] == Objs(world[c]) {
      } else {
        k := k[c := Objs(world[c])];
        changed := changed + {c};
      }
      todo := todo - {c};
      done := done + {c};
    }
  }

  lemma RefreshedStep(known: Known, world: World, done: set<Coord>, c: Coord)
    requires done <= world.Keys && c in world && c !in done
    ensures (c in Refreshed(known, world, done) && Refreshed(known, world, done)[c] == Objs(world[c]))
            <==> UpToDate(known, world, c)
    ensures Refreshed(known, world, done + {c}) ==
      if UpToDate(known, world, c) then Refreshed(known, world, done)
      else Refreshed(known, world, done)[c := Objs(world[c])]
    ensures RefreshChanged(known, world, done + {c}) ==
      RefreshChanged(known, world, done) + (if UpToDate(known, world, c) then {} else {c})
  {
  }

  /** Always-visible objects of the given cells are appended as copies. */
  method AlwaysVisiblePass(known: Known, world: World, cells: set<Coord>) returns (k: Known, changed: set<Coord>)
    requires cells <= world.Keys
    ensures k == WithAlwaysVisible(known, world, cells)
    ensures changed == Lit(world, cells)
  {
    k := known;
    changed := {};
    var todo := cells;
    ghost var done: set<Coord> := {};
    assert k == WithAlwaysVisible(known, world, done);
    while todo != {}
      invariant todo + done == cells && todo !! done
      invariant k == WithAlwaysVisible(known, world, done)
      invariant changed == Lit(world, done)
      decreases todo
    {
      var c :| c in todo;
      AlwaysVisibleStep(known, world, done, c);
      var copies := AlwaysVisibleCopies(world[c]);
      if copies != [] {
        var base := if c in k then k[c] else [];
        k := k[c := base + copies];
        changed := changed + {c};
      }
      todo := todo - {c};
      done := done + {c};
    }
  }

  lemma AlwaysVisibleStep(known: Known, world: World, done: set<Coord>, c: Coord)
    requires done <= world.Keys && c in world && c !in done
    ensures c in WithAlwaysVisible(known, world, done) <==> c in known
    ensures c in known ==> WithAlwaysVisible(known, world, done)[c] == known[c]
    ensures WithAlwaysVisible(known, world, done + {c}) ==
      if HasKind(world[c], AlwaysVisibleObjects)
      then WithAlwaysVisible(known, world, done)[c := (if c in known then known[c] else [])
                                                      + ObjsOfKind(world[c], AlwaysVisibleObjects)]
      else WithAlwaysVisible(known, world, done)
  {
    assert c !in Lit(world, done);
    if HasKind(world[c], AlwaysVisibleObjects) {
      AlwaysVisibleAdds(known, world, done, c);
    } else {
      assert Lit(world, done + {c}) == Lit(world, done);
    }
  }

  /** Handling a cell with always-visible objects adds it to the lit cells. */
  lemma LitGrows(world: World, done: set<Coord>, c: Coord)
    requires done <= world.Keys && c in world && HasKind(world[c], AlwaysVisibleObjects)
    ensures Lit(world, done + {c}) == Lit(world, done) + {c}
  {
  }

  /** A cell with always-visible objects joins the remembered world. */
  lemma AlwaysVisibleAdds(known: Known, world: World, done: set<Coord>, c: Coord)
    requires done <= world.Keys && c in world && c !in done && HasKind(world[c], AlwaysVisibleObjects)
    ensures WithAlwaysVisible(known, world, done + {c}) ==
      WithAlwaysVisible(known, world, done)[c := (if c in known then known[c] else [])
                                                 + ObjsOfKind(world[c], AlwaysVisibleObjects)]
  {
    LitGrows(world, done, c);
    var a := WithAlwaysVisible(known, world, done);
    var b := WithAlwaysVisible(known, world, done + {c});
    var e := a[c := (if c in known then known[c] else []) + ObjsOfKind(world[c], AlwaysVisibleObjects)];
    forall x
      ensures x in b <==> x in e
      ensures x in b ==> b[x] == e[x]
    {
      AlwaysVisibleAt(known, world, done, x);
      AlwaysVisibleAt(known, world, done + {c}, x);
    }
  }

  /** One cell of WithAlwaysVisible. */
  lemma AlwaysVisibleAt(known: Known, world: World, done: set<Coord>, x: Coord)
    requires done <= world.Keys
    ensures x in WithAlwaysVisible(known, world, done) <==> x in known || x in Lit(world, done)
    ensures x in WithAlwaysVisible(known, world, done) ==>
      WithAlwaysVisible(known, world, done)[x]
        == if x in Lit(world, done)
           then (if x in known then known[x] else []) + ObjsOfKind(world[x], AlwaysVisibleObjects)
           else known[x]
  {
  }

  /** One cell of the first pass: flag the historical objects and drop the rest. */
  method DecayCell(objs: seq<Obj>) returns (r: seq<Obj>, reported: bool)
    ensures r == Decay(objs)
    ensures reported == DecayReports(objs)
  {
    r := [];
    reported := false;
    var i := 0;
    ghost var seen, rest := [], objs;
    while i < |objs|
      invariant 0 <= i <= |objs| && seen == objs[..i] && rest == objs[i..]
      invariant r + Decay(rest) == Decay(objs)
      invariant reported == DecayReports(seen)
    {
      var o := objs[i];
      ghost var seen', rest' := seen + [o], rest[1..];
      assert seen' == objs[..i + 1] && rest' == objs[i + 1..];
      DecayReportsSnoc(seen, o);
      seen, rest := seen', rest';
      if o.kind in HistoricalObjects {
        if !("historical" in o.attrs && Truthy(o.attrs["historical"])) {
          reported := true;
        }
        r := r + [Historify(o)];
      } else {
        reported := true;
      }
      i := i + 1;
    }
    assert seen == objs;
  }

  lemma DecayReportsSnoc(objs: seq<Obj>, o: Obj)
    ensures DecayReports(objs + [o]) <==> DecayReports(objs) || Reports(o)
  {
    if Reports(o) {
      assert o in objs + [o];
    }
    if DecayReports(objs + [o]) {
      var p :| p in objs + [o] && Reports(p);
      assert p in objs || p == o;
    }
    if DecayReports(objs) {
      var p :| p in objs && Reports(p);
      assert p in objs + [o];
    }
  }

  /** Copies of the always-visible objects of a world cell, in cell order. */
  method AlwaysVisibleCopies(cell: Cell) returns (copies: seq<Obj>)
    ensures copies == ObjsOfKind(cell, AlwaysVisibleObjects)
  {
    copies := [];
    var i := |cell|;
    while i > 0
      invariant 0 <= i <= |cell|
      invariant copies == ObjsOfKind(cell[i..], AlwaysVisibleObjects)
    {
      i := i - 1;
      assert cell[i..][1..] == cell[i + 1..];
      if cell[i].obj.kind in AlwaysVisibleObjects {
        copies := [cell[i].obj] + copies;
      }
    }
  }
}
