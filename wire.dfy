/** The vision packets of src/whiteshoe/game.py (`_send_player_vision` and
    `pack_attribute`): the remembered cells a player is sent become
    (x, y, kind code, attribute index) records, every non-empty attribute dict
    is packed into the packet's own attribute table, and a new packet is started
    whenever the current one has grown past the size limit. */
module Wire {
  import opened Wrappers
  import opened Constants
  import opened Grid
  import opened Entities

  /** ATTRIBUTE_KEYS: the attributes that travel on the wire. */
  const AttributeKeys: set<string> :=
    {"number", "direction", "team", "hp_max", "hp", "max_ammo", "ammo", "owner", "size", "historical", "name"}

  /** The one key of ATTRIBUTE_CONSTANT_KEYS: its value travels as a table index. */
  const ConstantKey: string := "direction"

  /** A packed `Packet.Attribute` message: the fields that are set. */
  type Attribute = map<string, Val>

  /** One object record of a vision packet. */
  datatype Rec = Rec(x: int, y: int, objType: int, attrId: int)

  /** A VISION_UPDATE packet: the flat record list, the attribute table, the
      `clear_all` flag and the game id. Packet ids are left out. */
  datatype Packet = Packet(objects: seq<int>, attributes: seq<Attribute>, clearAll: bool, gameId: int)

  /** The records as the packed integer list `objects`. */
  function Flatten(rs: seq<Rec>): (r: seq<int>)
    ensures |r| == 4 * |rs|
  {
    if rs == [] then [] else [rs[0].x, rs[0].y, rs[0].objType, rs[0].attrId] + Flatten(rs[1..])
  }

  /** One more record adds its four fields at the end. */
  lemma FlattenSnoc(rs: seq<Rec>, rec: Rec)
    ensures Flatten(rs + [rec]) == Flatten(rs) + [rec.x, rec.y, rec.objType, rec.attrId]
  {
    FlattenAppend(rs, [rec]);
    assert [rec][1..] == [];
  }

  lemma {:induction false} FlattenAppend(a: seq<Rec>, b: seq<Rec>)
    ensures Flatten(a + b) == Flatten(a) + Flatten(b)
  {
    if a == [] {
      assert a + b == b;
    } else {
      var h := [a[0].x, a[0].y, a[0].objType, a[0].attrId];
      assert (a + b)[0] == a[0];
      assert (a + b)[1..] == a[1..] + b;
      FlattenAppend(a[1..], b);
      calc {
        Flatten(a + b);
        h + Flatten(a[1..] + b);
        h + (Flatten(a[1..]) + Flatten(b));
        (h + Flatten(a[1..])) + Flatten(b);
        Flatten(a) + Flatten(b);
      }
    }
  }

  // ---- attributes ----

  /** `to_numerical_constant` of an attribute value; None where `list.index`
      raises ValueError. In Python `True == 1`, so True finds the entry N1. */
  function ConstCode(v: Val): Option<nat>
  {
    match v
    case ConstV(c) => ToNumerical(c)
    case IntV(i) => ToNumerical(NumC(i))
    case BoolV(b) => ToNumerical(NumC(if b then 1 else 0))
    case StrV(_) => None
    case OidsV(_) => None
  }

  /** `pack_attribute`: the wire keys present in the dict, the direction as its
      table index; None where that index does not exist. */
  function PackAttribute(attrs: Attrs): (r: Option<Attribute>)
    ensures r.None? <==> ConstantKey in attrs && ConstCode(attrs[ConstantKey]).None?
    ensures r.Some? ==> r.value.Keys == AttributeKeys * attrs.Keys
  {
    if ConstantKey in attrs && ConstCode(attrs[ConstantKey]).None? then None
    else Some(map k | k in AttributeKeys * attrs.Keys ::
                if k == ConstantKey then IntV(ConstCode(attrs[k]).value) else attrs[k])
  }

  /** The client's unpacking of one attribute message (`ClientNetwork._vision_update`):
      the direction index goes back through the table; None where that lookup
      raises IndexError (or the field is not an integer). */
  function UnpackAttribute(a: Attribute): Option<Attrs>
  {
    if ConstantKey in a then
      match a[ConstantKey]
      case IntV(i) =>
        (match FromNumerical(i)
         case None => None
         case Some(c) => Some(map k | k in AttributeKeys * a.Keys :: if k == ConstantKey then ValOf(c) else a[k]))
      case _ => None
    else Some(map k | k in AttributeKeys * a.Keys :: a[k])
  }

  /** The value Python's `==` cannot tell from `v` after a trip through the table:
      the N-constants are plain integers, and `True == 1`. */
  function Canon(v: Val): Val
  {
    match v
    case ConstV(c) => ValOf(c)
    case BoolV(b) => if b then IntV(1) else v
    case _ => v
  }

  /** What the client ends up with for an object's attribute dict: the wire keys only. */
  function Projected(attrs: Attrs): (r: Attrs)
    ensures r.Keys == AttributeKeys * attrs.Keys
    ensures attrs == map[] ==> r == map[]
  {
    map k | k in AttributeKeys * attrs.Keys :: if k == ConstantKey then Canon(attrs[k]) else attrs[k]
  }

  /** A direction value that has a code decodes to its canonical form. */
  lemma ConstCodeRoundTrip(v: Val, n: nat)
    requires ConstCode(v) == Some(n)
    ensures FromNumerical(n) == Some(ConstAt(n)) && ValOf(ConstAt(n)) == Canon(v)
  {
    var c := match v
      case ConstV(c) => c
      case IntV(i) => NumC(i)
      case BoolV(b) => NumC(if b then 1 else 0)
      case _ => ModuleName;
    assert ToNumerical(c) == Some(n);
    ConstAtOfCode(c);
  }

  /** Packing and then unpacking an attribute dict keeps exactly its wire keys. */
  lemma AttributeRoundTrip(attrs: Attrs)
    requires PackAttribute(attrs).Some?
    ensures UnpackAttribute(PackAttribute(attrs).value) == Some(Projected(attrs))
  {
    var a := PackAttribute(attrs).value;
    if ConstantKey in attrs {
      var n := ConstCode(attrs[ConstantKey]).value;
      ConstCodeRoundTrip(attrs[ConstantKey], n);
      assert ConstantKey in a && a[ConstantKey] == IntV(n);
      var u := map k | k in AttributeKeys * a.Keys :: if k == ConstantKey then ValOf(ConstAt(n)) else a[k];
      assert UnpackAttribute(a) == Some(u);
      assert u == Projected(attrs);
    } else {
      var u := map k | k in AttributeKeys * a.Keys :: a[k];
      assert UnpackAttribute(a) == Some(u);
      assert a.Keys == AttributeKeys * attrs.Keys;
      assert u.Keys == AttributeKeys * attrs.Keys;
      assert u.Keys == Projected(attrs).Keys;
      forall k | k in u
        ensures u[k] == Projected(attrs)[k]
      {
        assert k != ConstantKey;
        assert a[k] == attrs[k];
      }
      assert u == Projected(attrs);
    }
  }

  // ---- records of one remembered cell ----

  /** The records of a cell's objects, attribute ids counting from `base`, and the
      attributes they add to the packet; None where a kind has no code or an
      attribute dict cannot be packed. */
  function ObjRecords(c: Coord, objs: seq<Obj>, base: nat): Option<(seq<Rec>, seq<Attribute>)>
    decreases |objs|
  {
    if objs == [] then Some(([], []))
    else
      var o := objs[0];
      match KindCode(o.kind)
      case None => None
      case Some(code) =>
        if o.attrs == map[] then
          (match ObjRecords(c, objs[1..], base)
           case None => None
           case Some(rest) => Some(([Rec(c.0, c.1, code, -1)] + rest.0, rest.1)))
        else
          match PackAttribute(o.attrs)
          case None => None
          case Some(a) =>
            match ObjRecords(c, objs[1..], base + 1)
            case None => None
            case Some(rest) => Some(([Rec(c.0, c.1, code, base)] + rest.0, [a] + rest.1))
  }

  /** The records of a remembered cell: an empty cell is one (x, y, -1, -1) record. */
  function CellRecords(c: Coord, objs: seq<Obj>, base: nat): Option<(seq<Rec>, seq<Attribute>)>
  {
    if objs == [] then Some(([Rec(c.0, c.1, -1, -1)], [])) else ObjRecords(c, objs, base)
  }

  /** An object can be sent: its kind has a code and its attributes can be packed. */
  predicate Sendable(o: Obj)
  {
    KindCode(o.kind).Some? && (o.attrs == map[] || PackAttribute(o.attrs).Some?)
  }

  /** The number of objects of `objs` whose attribute dict is not empty. */
  function WithAttrs(objs: seq<Obj>): nat
  {
    if objs == [] then 0 else (if objs[0].attrs == map[] then 0 else 1) + WithAttrs(objs[1..])
  }

  /** A cell's objects pack exactly when every one of them can be sent. */
  lemma {:induction false} ObjRecordsSome(c: Coord, objs: seq<Obj>, base: nat)
    ensures ObjRecords(c, objs, base).Some? <==> forall o :: o in objs ==> Sendable(o)
    decreases |objs|
  {
    if objs != [] {
      var o := objs[0];
      var b' := if o.attrs == map[] then base else base + 1;
      ObjRecordsSome(c, objs[1..], b');
      assert forall p :: p in objs ==> p == o || p in objs[1..];
      if !(forall p :: p in objs[1..] ==> Sendable(p)) {
        var p :| p in objs[1..] && !Sendable(p);
        assert p in objs;
      }
      if !Sendable(o) {
        assert ObjRecords(c, objs, base).None?;
      } else if forall p :: p in objs[1..] ==> Sendable(p) {
        assert ObjRecords(c, objs[1..], b').Some?;
        assert ObjRecords(c, objs, base).Some?;
      } else {
        assert ObjRecords(c, objs[1..], b').None?;
        assert ObjRecords(c, objs, base).None?;
      }
    }
  }

  /** Every object becomes one record at its cell, with its kind's code; the
      attribute id is -1 exactly for an empty dict, and otherwise points at that
      dict's packed form among the attributes the cell adds. */
  lemma {:induction false} ObjRecordsShape(c: Coord, objs: seq<Obj>, base: nat)
    requires ObjRecords(c, objs, base).Some?
    ensures var r := ObjRecords(c, objs, base).value;
      |r.0| == |objs| && |r.1| == WithAttrs(objs) &&
      forall j :: 0 <= j < |objs| ==> RecordOf(c, objs[j], r.0[j], base, r.1)
    decreases |objs|
  {
    if objs != [] {
      var b' := if objs[0].attrs == map[] then base else base + 1;
      ObjRecordsShape(c, objs[1..], b');
      var r := ObjRecords(c, objs, base).value;
      var r' := ObjRecords(c, objs[1..], b').value;
      assert r.0[1..] == r'.0;
      forall j | 1 <= j < |objs|
        ensures RecordOf(c, objs[j], r.0[j], base, r.1)
      {
        assert RecordOf(c, objs[1..][j - 1], r'.0[j - 1], b', r'.1);
        if objs[0].attrs != map[] {
          assert r.1[1..] == r'.1;
        }
      }
    }
  }

  /** `rec` is the record of object `o` at cell `c`, its attribute id (unless -1)
      pointing at `o`'s packed attributes in `ats`, which start at id `base`. */
  predicate RecordOf(c: Coord, o: Obj, rec: Rec, base: nat, ats: seq<Attribute>)
  {
    rec.x == c.0 && rec.y == c.1 && KindCode(o.kind) == Some(rec.objType) &&
    (rec.attrId == -1 <==> o.attrs == map[]) &&
    (rec.attrId != -1 ==>
       base <= rec.attrId < base + |ats| && PackAttribute(o.attrs) == Some(ats[rec.attrId - base]))
  }

  /** Records found so far, put in front of those of the rest of the cell. */
  function Prefixed(rs: seq<Rec>, ats: seq<Attribute>, r: Option<(seq<Rec>, seq<Attribute>)>)
    : Option<(seq<Rec>, seq<Attribute>)>
  {
    match r
    case None => None
    case Some(p) => Some((rs + p.0, ats + p.1))
  }

  /** One object of the cell, taken from the front of the rest. */
  lemma PrefixedStep(c: Coord, objs: seq<Obj>, i: nat, base: nat, rs: seq<Rec>, ats: seq<Attribute>)
    requires i < |objs|
    ensures KindCode(objs[i].kind).None? ==> Prefixed(rs, ats, ObjRecords(c, objs[i..], base)).None?
    ensures KindCode(objs[i].kind).Some? && objs[i].attrs == map[] ==>
      Prefixed(rs, ats, ObjRecords(c, objs[i..], base)) ==
      Prefixed(rs + [Rec(c.0, c.1, KindCode(objs[i].kind).value, -1)], ats, ObjRecords(c, objs[i + 1..], base))
    ensures KindCode(objs[i].kind).Some? && objs[i].attrs != map[] && PackAttribute(objs[i].attrs).None? ==>
      Prefixed(rs, ats, ObjRecords(c, objs[i..], base)).None?
    ensures KindCode(objs[i].kind).Some? && objs[i].attrs != map[] && PackAttribute(objs[i].attrs).Some? ==>
      Prefixed(rs, ats, ObjRecords(c, objs[i..], base)) ==
      Prefixed(rs + [Rec(c.0, c.1, KindCode(objs[i].kind).value, base)], ats + [PackAttribute(objs[i].attrs).value],
               ObjRecords(c, objs[i + 1..], base + 1))
  {
    assert objs[i..][0] == objs[i];
    assert objs[i..][1..] == objs[i + 1..];
    var o := objs[i];
    if KindCode(o.kind).Some? {
      var rec := Rec(c.0, c.1, KindCode(o.kind).value, if o.attrs == map[] then -1 else base);
      var b' := if o.attrs == map[] then base else base + 1;
      if o.attrs == map[] || PackAttribute(o.attrs).Some? {
        match ObjRecords(c, objs[i + 1..], b')
        case None =>
        case Some(rest) =>
          assert rs + ([rec] + rest.0) == (rs + [rec]) + rest.0;
          if o.attrs != map[] {
            var a := PackAttribute(o.attrs).value;
            assert ats + ([a] + rest.1) == (ats + [a]) + rest.1;
          }
      }
    }
  }

  // ---- packets ----

  /** The records and attribute table of a packet holding the given cells, in order. */
  function GroupRecords(cells: seq<(Coord, seq<Obj>)>): Option<(seq<Rec>, seq<Attribute>)>
    decreases |cells|
  {
    if cells == [] then Some(([], []))
    else
      match GroupRecords(cells[..|cells| - 1])
      case None => None
      case Some(prev) =>
        var cell := cells[|cells| - 1];
        match CellRecords(cell.0, cell.1, |prev.1|)
        case None => None
        case Some(next) => Some((prev.0 + next.0, prev.1 + next.1))
  }

  /** The packet holding the given cells. */
  function Build(cells: seq<(Coord, seq<Obj>)>, clearAll: bool, gameId: int): Option<Packet>
  {
    match GroupRecords(cells)
    case None => None
    case Some(g) => Some(Packet(Flatten(g.0), g.1, clearAll, gameId))
  }

  function NewPacket(gameId: int): Packet
  {
    Packet([], [], false, gameId)
  }

  /** The loop of `_send_player_vision` from the point where `done` packets are
      finished and `cur` is being filled: before each coordinate a packet that
      has grown past the limit is finished; a coordinate off the world or not
      remembered is skipped; otherwise its records are added. A constant that
      cannot be encoded raises, and nothing is sent (None). */
  function PackFrom(size: Packet -> nat, world: World, known: Known, coords: seq<Coord>,
                    done: seq<Packet>, cur: Packet): Option<seq<Packet>>
    decreases |coords|
  {
    if coords == [] then Some(done + [cur])
    else
      var full := size(cur) > PacketSizeLimit;
      var done' := if full then done + [cur] else done;
      var cur' := if full then NewPacket(cur.gameId) else cur;
      var c := coords[0];
      if c !in world || c !in known then PackFrom(size, world, known, coords[1..], done', cur')
      else
        match CellRecords(c, known[c], |cur'.attributes|)
        case None => None
        case Some(r) =>
          PackFrom(size, world, known, coords[1..], done',
                   cur'.(objects := cur'.objects + Flatten(r.0), attributes := cur'.attributes + r.1))
  }

  /** `_send_player_vision(player, coords, all)`: `coords` in the set's iteration
      order, `size` standing for protobuf's `ByteSize`. */
  function PlayerVision(size: Packet -> nat, world: World, known: Known, coords: seq<Coord>,
                        all: bool, gameId: int): Option<seq<Packet>>
  {
    PackFrom(size, world, known, coords, [], Packet([], [], all, gameId))
  }

  /** The packets are well formed: at least one; only the first can carry
      `clear_all` (and does exactly when `all` is asked for); every packet
      but the last was finished because it had grown past the size limit. */
  predicate WellSplit(ps: seq<Packet>, size: Packet -> nat, all: bool, gameId: int)
  {
    |ps| >= 1 && ps[0].clearAll == all &&
    (forall i :: 1 <= i < |ps| ==> !ps[i].clearAll) &&
    (forall i :: 0 <= i < |ps| ==> ps[i].gameId == gameId) &&
    (forall i :: 0 <= i < |ps| - 1 ==> size(ps[i]) > PacketSizeLimit)
  }

  lemma {:induction false} PackFromSplit(size: Packet -> nat, world: World, known: Known, coords: seq<Coord>,
                                         done: seq<Packet>, cur: Packet, all: bool, gameId: int)
    requires PackFrom(size, world, known, coords, done, cur).Some?
    requires done == [] ==> cur.clearAll == all
    requires done != [] ==> WellSplit(done, size, all, gameId) && size(done[|done| - 1]) > PacketSizeLimit && !cur.clearAll
    requires cur.gameId == gameId
    ensures WellSplit(PackFrom(size, world, known, coords, done, cur).value, size, all, gameId)
    decreases |coords|
  {
    if coords != [] {
      var full := size(cur) > PacketSizeLimit;
      var done' := if full then done + [cur] else done;
      var cur' := if full then NewPacket(cur.gameId) else cur;
      var c := coords[0];
      if c !in world || c !in known {
        PackFromSplit(size, world, known, coords[1..], done', cur', all, gameId);
      } else {
        var r := CellRecords(c, known[c], |cur'.attributes|).value;
        PackFromSplit(size, world, known, coords[1..], done',
                      cur'.(objects := cur'.objects + Flatten(r.0), attributes := cur'.attributes + r.1), all, gameId);
      }
    }
  }

  /** The result of `_send_player_vision`, when it does not raise, is well split. */
  lemma PlayerVisionSplit(size: Packet -> nat, world: World, known: Known, coords: seq<Coord>, all: bool, gameId: int)
    requires PlayerVision(size, world, known, coords, all, gameId).Some?
    ensures WellSplit(PlayerVision(size, world, known, coords, all, gameId).value, size, all, gameId)
  {
    PackFromSplit(size, world, known, coords, [], Packet([], [], all, gameId), all, gameId);
  }

  /** The cells that `coords` asks for and that are both in the world and remembered. */
  predicate Sent(world: World, known: Known, coords: seq<Coord>, c: Coord)
  {
    c in coords && c in world && c in known
  }

  /** It raises exactly when one of the sent cells holds an object that cannot be sent. */
  lemma {:induction false} PackFromFails(size: Packet -> nat, world: World, known: Known, coords: seq<Coord>,
                                         done: seq<Packet>, cur: Packet)
    ensures PackFrom(size, world, known, coords, done, cur).None? <==>
      exists c, o :: Sent(world, known, coords, c) && o in known[c] && !Sendable(o)
    decreases |coords|
  {
    if coords != [] {
      var full := size(cur) > PacketSizeLimit;
      var done' := if full then done + [cur] else done;
      var cur' := if full then NewPacket(cur.gameId) else cur;
      var c := coords[0];
      forall c' | Sent(world, known, coords, c') && c' != c
        ensures Sent(world, known, coords[1..], c')
      {
      }
      if c !in world || c !in known {
        PackFromFails(size, world, known, coords[1..], done', cur');
        forall c', o | Sent(world, known, coords, c') && o in known[c'] && !Sendable(o)
          ensures Sent(world, known, coords[1..], c')
        {
        }
      } else {
        ObjRecordsSome(c, known[c], |cur'.attributes|);
        match CellRecords(c, known[c], |cur'.attributes|)
        case None =>
          var o :| o in known[c] && !Sendable(o);
          assert Sent(world, known, coords, c);
        case Some(r) =>
          var cur'' := cur'.(objects := cur'.objects + Flatten(r.0), attributes := cur'.attributes + r.1);
          PackFromFails(size, world, known, coords[1..], done', cur'');
          forall c', o | Sent(world, known, coords, c') && o in known[c'] && !Sendable(o)
            ensures Sent(world, known, coords[1..], c')
          {
          }
      }
    }
  }

  // ---- the imperative version ----

  /** `_send_player_vision`. */
  method SendPlayerVision(size: Packet -> nat, world: World, known: Known, coords: seq<Coord>,
                          all: bool, gameId: int) returns (packets: Option<seq<Packet>>)
    ensures packets == PlayerVision(size, world, known, coords, all, gameId)
  {
    var done: seq<Packet> := [];
    var cur := Packet([], [], all, gameId);
    var i := 0;
    while i < |coords|
      invariant 0 <= i <= |coords|
      invariant PackFrom(size, world, known, coords[i..], done, cur) == PlayerVision(size, world, known, coords, all, gameId)
    {
      assert coords[i..][1..] == coords[i + 1..];
      if size(cur) > PacketSizeLimit {
        done := done + [cur];
        cur := NewPacket(cur.gameId);
      }
      var c := coords[i];
      if c in world && c in known {
        var ok, next := AppendCell(cur, c, known[c]);
        if !ok {
          return None;
        }
        cur := next;
      }
      i := i + 1;
    }
    packets := Some(done + [cur]);
  }

  /** Adds the records of one remembered cell to the packet being filled. */
  method AppendCell(cur: Packet, c: Coord, objs: seq<Obj>) returns (ok: bool, next: Packet)
    ensures ok <==> CellRecords(c, objs, |cur.attributes|).Some?
    ensures ok ==> var r := CellRecords(c, objs, |cur.attributes|).value;
      next == cur.(objects := cur.objects + Flatten(r.0), attributes := cur.attributes + r.1)
  {
    ok, next := true, cur;
    if objs == [] {
      next := next.(objects := next.objects + [c.0, c.1, -1, -1]);
    } else {
      var objects := cur.objects;
      var attributes := cur.attributes;
      ghost var base := |cur.attributes|;
      ghost var rs: seq<Rec> := [];
      ghost var ats: seq<Attribute> := [];
      ghost var b := base;
      var i := 0;
      assert objs[i..] == objs;
      match ObjRecords(c, objs, base) {
        case None =>
        case Some(p) => assert [] + p.0 == p.0 && [] + p.1 == p.1;
      }
      while i < |objs| && ok
        invariant 0 <= i <= |objs|
        invariant objects == cur.objects + Flatten(rs) && attributes == cur.attributes + ats
        invariant b == base + |ats|
        invariant ObjRecords(c, objs, base) == Prefixed(rs, ats, ObjRecords(c, objs[i..], b))
        invariant !ok ==> ObjRecords(c, objs, base).None?
        decreases |objs| - i, if ok then 1 else 0
      {
        var o := objs[i];
        PrefixedStep(c, objs, i, b, rs, ats);
        var code := KindCode(o.kind);
        var attrId := -1;
        if code.None? {
          ok := false;
        } else if o.attrs != map[] {
          var packed := PackAttribute(o.attrs);
          if packed.None? {
            ok := false;
          } else {
            assert |attributes| == b;
            attrId := |attributes|;
            attributes := attributes + [packed.value];
            ats := ats + [packed.value];
            b := b + 1;
          }
        }
        if ok {
          var rec := Rec(c.0, c.1, code.value, attrId);
          FlattenSnoc(rs, rec);
          objects := objects + [c.0, c.1, code.value, attrId];
          rs := rs + [rec];
          i := i + 1;
        }
      }
      if ok {
        assert objs[i..] == [];
        assert rs + [] == rs && ats + [] == ats;
        assert Prefixed(rs, ats, ObjRecords(c, objs[i..], b)) == Some((rs, ats));
        next := cur.(objects := objects, attributes := attributes);
      }
    }
  }
}
