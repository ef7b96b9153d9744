/** The vision packets of src/whiteshoe/game.py read back by the client of
    src/whiteshoe/client.py: decoding the packets `_send_player_vision` builds
    leaves the client remembering, for every cell sent, the server-side
    remembered objects restricted to the wire attributes, and every other cell
    as it was. */
module VisionRoundTrip {
  import opened Wrappers
  import opened Constants
  import opened Grid
  import opened Entities
  import opened Wire
  import opened Client

  /** What the client remembers of a server-side remembered cell. */
  function ClientObjs(objs: seq<Obj>): (r: seq<CObj>)
    ensures |r| == |objs|
    ensures forall j :: 0 <= j < |objs| ==> r[j] == CObj(KindC(objs[j].kind), Projected(objs[j].attrs))
  {
    seq(|objs|, j requires 0 <= j < |objs| => CObj(KindC(objs[j].kind), Projected(objs[j].attrs)))
  }

  /** The client's world after it has taken in the given cells, in order. */
  function Override(kw: ClientKnown, cells: seq<(Coord, seq<Obj>)>): ClientKnown
    decreases |cells|
  {
    if cells == [] then kw
    else
      var last := cells[|cells| - 1];
      Override(kw, cells[..|cells| - 1])[last.0 := ClientObjs(last.1)]
  }

  function CellCoords(cells: seq<(Coord, seq<Obj>)>): set<Coord>
  {
    set i | 0 <= i < |cells| :: cells[i].0
  }

  predicate DistinctCells(cells: seq<(Coord, seq<Obj>)>)
  {
    forall i, j :: 0 <= i < j < |cells| ==> cells[i].0 != cells[j].0
  }

  /** The client's world after every cell that `coords` asks for and that is in
      the world and remembered has been taken in. */
  function SentWorld(kw: ClientKnown, world: World, known: Known, coords: seq<Coord>): ClientKnown
    decreases |coords|
  {
    if coords == [] then kw
    else
      var c := coords[0];
      SentWorld(if c in world && c in known then kw[c := ClientObjs(known[c])] else kw, world, known, coords[1..])
  }

  /** The client handling the packets one after the other; it stops at the first
      handler that raises. */
  function DecodeAll(kw: ClientKnown, ps: seq<Packet>): (ClientKnown, bool)
    decreases |ps|
  {
    if ps == [] then (kw, true)
    else
      var r := DecodeAll(kw, ps[..|ps| - 1]);
      if r.1 then DecodeVision(r.0, ps[|ps| - 1]) else r
  }

  // ---- one packet ----

  /** Running two record lists one after the other. */
  lemma {:induction false} RunAppend(kw: ClientKnown, cl: set<Coord>, a: seq<int>, b: seq<int>, u: seq<Attrs>)
    requires cl <= kw.Keys && |a| % 4 == 0
    ensures Run(kw, cl, a + b, u) ==
      (var r := Run(kw, cl, a, u); if r.2 then Run(r.0, r.1, b, u) else r)
    decreases |a|
  {
    if a == [] {
      assert a + b == b;
    } else {
      var ab := a + b;
      assert ab[4..] == a[4..] + b;
      assert ab[0] == a[0] && ab[1] == a[1] && ab[2] == a[2] && ab[3] == a[3];
      RunStep(kw, cl, a, u);
      RunStep(kw, cl, ab, u);
      var c := (a[0], a[1]);
      var attr := if a[3] == -1 then Some(map[]) else PyIndex(u, a[3]);
      if attr.Some? {
        var kw1 := if c in cl then kw else kw[c := []];
        if a[2] == -1 {
          RunAppend(kw1, cl + {c}, a[4..], b, u);
        } else if FromNumerical(a[2]).Some? {
          RunAppend(kw1[c := kw1[c] + [CObj(FromNumerical(a[2]).value, attr.value)]], cl + {c}, a[4..], b, u);
        }
      }
    }
  }

  /** The attribute table from position `base` on unpacks to `u` from `base` on. */
  predicate UnpacksFrom(ats: seq<Attribute>, u: seq<Attrs>, base: nat)
  {
    base + |ats| <= |u| && forall j :: 0 <= j < |ats| ==> UnpackAttribute(ats[j]) == Some(u[base + j])
  }

  /** The record of one sendable object, its attributes at `base` if it has any. */
  function HeadRec(c: Coord, o: Obj, base: nat): Rec
    requires KindCode(o.kind).Some?
  {
    Rec(c.0, c.1, KindCode(o.kind).value, if o.attrs == map[] then -1 else base)
  }

  /** The records of a non-empty cell: its first object's record, then the rest. */
  lemma ObjRecordsCons(c: Coord, objs: seq<Obj>, base: nat)
    requires objs != [] && ObjRecords(c, objs, base).Some?
    ensures var o := objs[0];
      var b' := if o.attrs == map[] then base else base + 1;
      KindCode(o.kind).Some? && (o.attrs != map[] ==> PackAttribute(o.attrs).Some?) &&
      ObjRecords(c, objs[1..], b').Some? &&
      ObjRecords(c, objs, base).value ==
        ([HeadRec(c, o, base)] + ObjRecords(c, objs[1..], b').value.0,
         (if o.attrs == map[] then [] else [PackAttribute(o.attrs).value]) + ObjRecords(c, objs[1..], b').value.1)
  {
    var o := objs[0];
    if o.attrs == map[] {
      assert [] + ObjRecords(c, objs[1..], base).value.1 == ObjRecords(c, objs[1..], base).value.1;
    }
  }

  /** One object record: its cell is reset if this packet has not reset it yet,
      and the object is appended. */
  lemma RunHead(kw: ClientKnown, cl: set<Coord>, c: Coord, o: Obj, base: nat, tail: seq<int>, u: seq<Attrs>)
    requires cl <= kw.Keys && KindCode(o.kind).Some?
    requires o.attrs != map[] ==> base < |u| && u[base] == Projected(o.attrs)
    ensures var r := HeadRec(c, o, base);
      var kw1 := if c in cl then kw else kw[c := []];
      Run(kw, cl, [r.x, r.y, r.objType, r.attrId] + tail, u) ==
        Run(kw1[c := kw1[c] + [CObj(KindC(o.kind), Projected(o.attrs))]], cl + {c}, tail, u)
  {
    var r := HeadRec(c, o, base);
    var flat := [r.x, r.y, r.objType, r.attrId] + tail;
    assert flat[0] == c.0 && flat[1] == c.1 && flat[2] == r.objType && flat[3] == r.attrId;
    assert flat[4..] == tail;
    FromToNumerical(KindC(o.kind));
    RunStep(kw, cl, flat, u);
  }

  /** What the first record of a non-empty cell tells the decoder, and what is
      left for the rest of the cell. */
  lemma ObjTail(c: Coord, objs: seq<Obj>, base: nat, u: seq<Attrs>)
    requires objs != [] && ObjRecords(c, objs, base).Some?
    requires UnpacksFrom(ObjRecords(c, objs, base).value.1, u, base)
    ensures var o := objs[0];
      var b' := if o.attrs == map[] then base else base + 1;
      var h := HeadRec(c, o, base);
      KindCode(o.kind).Some? && (o.attrs != map[] ==> base < |u| && u[base] == Projected(o.attrs)) &&
      ObjRecords(c, objs[1..], b').Some? &&
      UnpacksFrom(ObjRecords(c, objs[1..], b').value.1, u, b') &&
      Flatten(ObjRecords(c, objs, base).value.0) ==
        [h.x, h.y, h.objType, h.attrId] + Flatten(ObjRecords(c, objs[1..], b').value.0)
  {
    var o := objs[0];
    var b' := if o.attrs == map[] then base else base + 1;
    ObjRecordsCons(c, objs, base);
    var r := ObjRecords(c, objs, base).value;
    var rest := ObjRecords(c, objs[1..], b').value;
    var h := HeadRec(c, o, base);
    assert r.0[0] == h && r.0[1..] == rest.0;
    if o.attrs != map[] {
      AttributeRoundTrip(o.attrs);
      assert UnpackAttribute(r.1[0]) == Some(u[base]);
    }
    forall j | 0 <= j < |rest.1|
      ensures UnpackAttribute(rest.1[j]) == Some(u[b' + j])
    {
      assert rest.1[j] == r.1[j + b' - base];
    }
  }

  lemma ClientObjsCons(objs: seq<Obj>)
    requires objs != []
    ensures ClientObjs(objs) == [CObj(KindC(objs[0].kind), Projected(objs[0].attrs))] + ClientObjs(objs[1..])
  {
  }

  lemma AppendTwice<K, V>(m: map<K, seq<V>>, k: K, a: seq<V>, b: seq<V>)
    requires k in m
    ensures m[k := m[k] + a][k := (m[k] + a) + b] == m[k := m[k] + (a + b)]
  {
    assert (m[k] + a) + b == m[k] + (a + b);
  }

  /** The records of a cell whose first record has already reset it append the
      client's copies of the objects. */
  lemma {:induction false} RunObjRecords(kw: ClientKnown, cl: set<Coord>, c: Coord, objs: seq<Obj>, base: nat, u: seq<Attrs>)
    requires cl <= kw.Keys && c in cl
    requires ObjRecords(c, objs, base).Some?
    requires UnpacksFrom(ObjRecords(c, objs, base).value.1, u, base)
    ensures Run(kw, cl, Flatten(ObjRecords(c, objs, base).value.0), u) == (kw[c := kw[c] + ClientObjs(objs)], cl, true)
    decreases |objs|
  {
    if objs == [] {
      assert kw[c] + ClientObjs(objs) == kw[c];
      assert kw[c := kw[c] + ClientObjs(objs)] == kw;
    } else {
      var o := objs[0];
      var b' := if o.attrs == map[] then base else base + 1;
      ObjTail(c, objs, base, u);
      var x := CObj(KindC(o.kind), Projected(o.attrs));
      RunHead(kw, cl, c, o, base, Flatten(ObjRecords(c, objs[1..], b').value.0), u);
      assert cl + {c} == cl;
      RunObjRecords(kw[c := kw[c] + [x]], cl, c, objs[1..], b', u);
      ClientObjsCons(objs);
      AppendTwice(kw, c, [x], ClientObjs(objs[1..]));
    }
  }

  lemma SetTwice<K, V>(m: map<K, V>, k: K, a: V, b: V)
    ensures m[k := a][k := b] == m[k := b]
  {
  }

  /** An empty remembered cell is one record that resets the client's cell. */
  lemma RunEmptyCell(kw: ClientKnown, cl: set<Coord>, c: Coord, base: nat, u: seq<Attrs>)
    requires cl <= kw.Keys && c !in cl
    ensures Run(kw, cl, Flatten(CellRecords(c, [], base).value.0), u) == (kw[c := []], cl + {c}, true)
  {
    var flat := Flatten(CellRecords(c, [], base).value.0);
    assert flat == [c.0, c.1, -1, -1];
    RunStep(kw, cl, flat, u);
    assert flat[4..] == [];
  }

  /** The records of one remembered cell, not yet seen in this packet, replace
      the client's cell with the copies of its objects. */
  lemma RunCellRecords(kw: ClientKnown, cl: set<Coord>, c: Coord, objs: seq<Obj>, base: nat, u: seq<Attrs>)
    requires cl <= kw.Keys && c !in cl
    requires CellRecords(c, objs, base).Some?
    requires UnpacksFrom(CellRecords(c, objs, base).value.1, u, base)
    ensures Run(kw, cl, Flatten(CellRecords(c, objs, base).value.0), u) == (kw[c := ClientObjs(objs)], cl + {c}, true)
  {
    if objs == [] {
      RunEmptyCell(kw, cl, c, base, u);
      assert ClientObjs(objs) == [];
    } else {
      var o := objs[0];
      var b' := if o.attrs == map[] then base else base + 1;
      ObjTail(c, objs, base, u);
      var x := CObj(KindC(o.kind), Projected(o.attrs));
      RunHead(kw, cl, c, o, base, Flatten(ObjRecords(c, objs[1..], b').value.0), u);
      SetTwice(kw, c, [], [] + [x]);
      assert [] + [x] == [x];
      RunObjRecords(kw[c := [x]], cl + {c}, c, objs[1..], b', u);
      ClientObjsCons(objs);
      SetTwice(kw, c, [x], [x] + ClientObjs(objs[1..]));
    }
  }

  lemma FlattenLength4(rs: seq<Rec>)
    ensures |Flatten(rs)| % 4 == 0
  {
    assert |Flatten(rs)| == 4 * |rs|;
  }

  /** Cells after one more cell: its coordinate joins the others. */
  lemma CellCoordsSnoc(cells: seq<(Coord, seq<Obj>)>)
    requires cells != []
    ensures CellCoords(cells) == CellCoords(cells[..|cells| - 1]) + {cells[|cells| - 1].0}
    ensures DistinctCells(cells) ==>
      (DistinctCells(cells[..|cells| - 1]) && cells[|cells| - 1].0 !in CellCoords(cells[..|cells| - 1]))
  {
    var init := cells[..|cells| - 1];
    forall x | x in CellCoords(cells) ensures x in CellCoords(init) + {cells[|cells| - 1].0} {
      var i :| 0 <= i < |cells| && cells[i].0 == x;
      if i < |init| {
        assert init[i].0 == x;
      }
    }
    forall x | x in CellCoords(init) ensures x in CellCoords(cells) {
      var i :| 0 <= i < |init| && init[i].0 == x;
      assert cells[i].0 == x;
    }
    if DistinctCells(cells) {
      forall x | x in CellCoords(init) ensures x != cells[|cells| - 1].0 {
        var i :| 0 <= i < |init| && init[i].0 == x;
        assert cells[i].0 == x;
      }
    }
  }

  /** The attribute table of a group is the earlier cells' table followed by the
      last cell's, each unpacking where it lies. */
  lemma GroupSnoc(cells: seq<(Coord, seq<Obj>)>, u: seq<Attrs>)
    requires cells != [] && GroupRecords(cells).Some? && UnpacksFrom(GroupRecords(cells).value.1, u, 0)
    ensures var init := cells[..|cells| - 1];
      var last := cells[|cells| - 1];
      GroupRecords(init).Some? &&
      var gi := GroupRecords(init).value;
      CellRecords(last.0, last.1, |gi.1|).Some? &&
      var n := CellRecords(last.0, last.1, |gi.1|).value;
      UnpacksFrom(gi.1, u, 0) && UnpacksFrom(n.1, u, |gi.1|) &&
      Flatten(GroupRecords(cells).value.0) == Flatten(gi.0) + Flatten(n.0)
  {
    var init := cells[..|cells| - 1];
    var last := cells[|cells| - 1];
    var g := GroupRecords(cells).value;
    var gi := GroupRecords(init).value;
    var n := CellRecords(last.0, last.1, |gi.1|).value;
    assert g == (gi.0 + n.0, gi.1 + n.1);
    forall j | 0 <= j < |gi.1|
      ensures UnpackAttribute(gi.1[j]) == Some(u[j])
    {
      assert g.1[j] == gi.1[j];
    }
    forall j | 0 <= j < |n.1|
      ensures UnpackAttribute(n.1[j]) == Some(u[|gi.1| + j])
    {
      assert g.1[|gi.1| + j] == n.1[j];
    }
    FlattenAppend(gi.0, n.0);
  }

  /** Decoding the records of a packet built from cells with distinct
      coordinates takes each cell in. */
  lemma {:induction false} RunGroup(kw: ClientKnown, cl: set<Coord>, cells: seq<(Coord, seq<Obj>)>, u: seq<Attrs>)
    requires cl <= kw.Keys
    requires GroupRecords(cells).Some? && UnpacksFrom(GroupRecords(cells).value.1, u, 0)
    requires DistinctCells(cells) && CellCoords(cells) !! cl
    ensures Run(kw, cl, Flatten(GroupRecords(cells).value.0), u) == (Override(kw, cells), cl + CellCoords(cells), true)
    decreases |cells|
  {
    if cells == [] {
      assert CellCoords(cells) == {};
      assert cl + CellCoords(cells) == cl;
      assert Flatten(GroupRecords(cells).value.0) == [];
    } else {
      var init := cells[..|cells| - 1];
      var last := cells[|cells| - 1];
      GroupSnoc(cells, u);
      CellCoordsSnoc(cells);
      var gi := GroupRecords(init).value;
      var n := CellRecords(last.0, last.1, |gi.1|).value;
      RunGroup(kw, cl, init, u);
      FlattenLength4(gi.0);
      RunAppend(kw, cl, Flatten(gi.0), Flatten(n.0), u);
      var r := Run(kw, cl, Flatten(gi.0), u);
      assert r == (Override(kw, init), cl + CellCoords(init), true);
      RunCellRecords(r.0, r.1, last.0, last.1, |gi.1|, u);
      assert Override(kw, cells) == r.0[last.0 := ClientObjs(last.1)];
      assert r.1 + {last.0} == cl + CellCoords(cells);
    }
  }

  /** The packed attribute table of a packet unpacks in full. */
  lemma {:induction false} ObjRecordsUnpack(c: Coord, objs: seq<Obj>, base: nat)
    requires ObjRecords(c, objs, base).Some?
    ensures forall a :: a in ObjRecords(c, objs, base).value.1 ==> UnpackAttribute(a).Some?
    decreases |objs|
  {
    if objs != [] {
      var o := objs[0];
      var b' := if o.attrs == map[] then base else base + 1;
      ObjRecordsUnpack(c, objs[1..], b');
      if o.attrs != map[] {
        AttributeRoundTrip(o.attrs);
      }
    }
  }

  lemma {:induction false} GroupUnpacks(cells: seq<(Coord, seq<Obj>)>)
    requires GroupRecords(cells).Some?
    ensures forall a :: a in GroupRecords(cells).value.1 ==> UnpackAttribute(a).Some?
    decreases |cells|
  {
    if cells != [] {
      var init := cells[..|cells| - 1];
      var last := cells[|cells| - 1];
      GroupUnpacks(init);
      var gi := GroupRecords(init).value;
      if last.1 != [] {
        ObjRecordsUnpack(last.0, last.1, |gi.1|);
      }
    }
  }

  /** A packet built from cells with distinct coordinates decodes, and the
      client takes every cell in. */
  lemma DecodeBuild(kw: ClientKnown, cells: seq<(Coord, seq<Obj>)>, clearAll: bool, gameId: int)
    requires Build(cells, clearAll, gameId).Some? && DistinctCells(cells)
    ensures DecodeVision(kw, Build(cells, clearAll, gameId).value) == (Override(kw, cells), true)
  {
    var p := Build(cells, clearAll, gameId).value;
    var g := GroupRecords(cells).value;
    GroupUnpacks(cells);
    assert forall j :: 0 <= j < |p.attributes| ==> p.attributes[j] in g.1;
    var u := UnpackAll(p.attributes).value;
    RunGroup(kw, {}, cells, u);
  }

  // ---- all the packets ----

  /** Finishing a packet: the client decodes it after the earlier ones. */
  lemma FinishPacket(kw: ClientKnown, done: seq<Packet>, cur: Packet, group: seq<(Coord, seq<Obj>)>)
    requires Build(group, cur.clearAll, cur.gameId) == Some(cur) && DistinctCells(group)
    requires DecodeAll(kw, done).1
    ensures DecodeAll(kw, done + [cur]) == (Override(DecodeAll(kw, done).0, group), true)
  {
    assert (done + [cur])[..|done|] == done;
    DecodeBuild(DecodeAll(kw, done).0, group, cur.clearAll, cur.gameId);
  }

  /** Adding a cell's records to the packet being filled is building the packet
      with one more cell. */
  lemma GroupAdd(group: seq<(Coord, seq<Obj>)>, cur: Packet, c: Coord, objs: seq<Obj>)
    requires Build(group, cur.clearAll, cur.gameId) == Some(cur)
    requires CellRecords(c, objs, |cur.attributes|).Some?
    ensures var r := CellRecords(c, objs, |cur.attributes|).value;
      Build(group + [(c, objs)], cur.clearAll, cur.gameId) ==
        Some(cur.(objects := cur.objects + Flatten(r.0), attributes := cur.attributes + r.1))
  {
    var group' := group + [(c, objs)];
    assert group'[..|group'| - 1] == group;
    var gp := GroupRecords(group).value;
    var r := CellRecords(c, objs, |cur.attributes|).value;
    FlattenAppend(gp.0, r.0);
  }

  /** A cell with a fresh coordinate keeps the cells distinct. */
  lemma CellsAdd(group: seq<(Coord, seq<Obj>)>, c: Coord, objs: seq<Obj>)
    requires DistinctCells(group) && c !in CellCoords(group)
    ensures DistinctCells(group + [(c, objs)]) && CellCoords(group + [(c, objs)]) == CellCoords(group) + {c}
  {
    var group' := group + [(c, objs)];
    assert group'[..|group'| - 1] == group;
    CellCoordsSnoc(group');
    forall i | 0 <= i < |group|
      ensures group[i].0 in CellCoords(group)
    {
    }
  }

  lemma OverrideAdd(kw: ClientKnown, group: seq<(Coord, seq<Obj>)>, c: Coord, objs: seq<Obj>)
    ensures Override(kw, group + [(c, objs)]) == Override(kw, group)[c := ClientObjs(objs)]
  {
    var group' := group + [(c, objs)];
    assert group'[..|group'| - 1] == group;
  }

  lemma DistinctTail(coords: seq<Coord>)
    requires coords != [] && Distinct(coords)
    ensures Distinct(coords[1..]) && coords[0] !in coords[1..] && Elems(coords[1..]) <= Elems(coords)
    ensures Elems(coords) == Elems(coords[1..]) + {coords[0]}
  {
    forall i | 0 <= i < |coords[1..]| ensures coords[1..][i] != coords[0] {
      assert coords[1..][i] == coords[i + 1];
    }
    assert coords == [coords[0]] + coords[1..];
  }

  /** Before each coordinate a packet past the limit is finished and a new one,
      holding no cell yet, is started; the client's view of what has been sent
      is the same either way. */
  lemma Rollover(size: Packet -> nat, kw: ClientKnown, done: seq<Packet>, cur: Packet, group: seq<(Coord, seq<Obj>)>)
    requires Build(group, cur.clearAll, cur.gameId) == Some(cur) && DistinctCells(group)
    requires DecodeAll(kw, done).1
    ensures var full := size(cur) > PacketSizeLimit;
      var done' := if full then done + [cur] else done;
      var cur' := if full then NewPacket(cur.gameId) else cur;
      var group' := if full then [] else group;
      Build(group', cur'.clearAll, cur'.gameId) == Some(cur') && DistinctCells(group') &&
      CellCoords(group') <= CellCoords(group) &&
      DecodeAll(kw, done').1 && Override(DecodeAll(kw, done').0, group') == Override(DecodeAll(kw, done).0, group)
  {
    if size(cur) > PacketSizeLimit {
      FinishPacket(kw, done, cur, group);
      assert CellCoords([]) == {};
    }
  }

  /** Following the loop of `_send_player_vision`: decoding the packets already
      finished, then the one being filled (the cells of `group`), then the rest. */
  lemma {:induction false} PackFromRoundTrip(size: Packet -> nat, world: World, known: Known, coords: seq<Coord>,
                                             done: seq<Packet>, cur: Packet, group: seq<(Coord, seq<Obj>)>,
                                             kw: ClientKnown)
    requires Build(group, cur.clearAll, cur.gameId) == Some(cur)
    requires DistinctCells(group) && Distinct(coords) && CellCoords(group) !! Elems(coords)
    requires DecodeAll(kw, done).1
    requires PackFrom(size, world, known, coords, done, cur).Some?
    ensures DecodeAll(kw, PackFrom(size, world, known, coords, done, cur).value) ==
      (SentWorld(Override(DecodeAll(kw, done).0, group), world, known, coords), true)
    decreases |coords|
  {
    var d := DecodeAll(kw, done).0;
    if coords == [] {
      FinishPacket(kw, done, cur, group);
    } else {
      var full := size(cur) > PacketSizeLimit;
      var done' := if full then done + [cur] else done;
      var cur' := if full then NewPacket(cur.gameId) else cur;
      var group' := if full then [] else group;
      Rollover(size, kw, done, cur, group);
      var c := coords[0];
      DistinctTail(coords);
      if c !in world || c !in known {
        PackFromRoundTrip(size, world, known, coords[1..], done', cur', group', kw);
      } else {
        var r := CellRecords(c, known[c], |cur'.attributes|).value;
        var cur'' := cur'.(objects := cur'.objects + Flatten(r.0), attributes := cur'.attributes + r.1);
        GroupAdd(group', cur', c, known[c]);
        CellsAdd(group', c, known[c]);
        OverrideAdd(DecodeAll(kw, done').0, group', c, known[c]);
        PackFromRoundTrip(size, world, known, coords[1..], done', cur'', group' + [(c, known[c])], kw);
      }
    }
  }

  /** Decoding everything `_send_player_vision` sends, for a set of coordinates
      (listed without repetition in its iteration order), leaves the client with
      the server's remembered cells, restricted to the wire attributes. */
  lemma PlayerVisionRoundTrip(size: Packet -> nat, world: World, known: Known, coords: seq<Coord>,
                              all: bool, gameId: int, kw: ClientKnown)
    requires Distinct(coords)
    requires PlayerVision(size, world, known, coords, all, gameId).Some?
    ensures DecodeAll(kw, PlayerVision(size, world, known, coords, all, gameId).value) ==
      (SentWorld(kw, world, known, coords), true)
  {
    var cur := Packet([], [], all, gameId);
    assert Build([], all, gameId) == Some(cur);
    assert CellCoords([]) == {};
    PackFromRoundTrip(size, world, known, coords, [], cur, [], kw);
  }

  /** The client's world after the sent cells: each sent cell holds the copies of
      the remembered objects; every other cell is as it was. */
  lemma {:induction false} SentWorldCells(kw: ClientKnown, world: World, known: Known, coords: seq<Coord>, c: Coord)
    ensures Sent(world, known, coords, c) ==>
      c in SentWorld(kw, world, known, coords) && SentWorld(kw, world, known, coords)[c] == ClientObjs(known[c])
    ensures !Sent(world, known, coords, c) ==>
      (c in SentWorld(kw, world, known, coords) <==> c in kw) &&
      (c in kw ==> SentWorld(kw, world, known, coords)[c] == kw[c])
    decreases |coords|
  {
    if coords != [] {
      var d := coords[0];
      var kw' := if d in world && d in known then kw[d := ClientObjs(known[d])] else kw;
      SentWorldCells(kw', world, known, coords[1..], c);
      assert c in coords <==> c == d || c in coords[1..];
    }
  }
}
