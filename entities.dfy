/** The tile world shared by src/whiteshoe/game.py, src/whiteshoe/server.py and
    src/whiteshoe/vision.py: a finite map from (x, y) to an ordered list of
    entities, each entity a (kind, attribute dict) pair. */
module Entities {
  import opened Wrappers
  import opened Constants
  import opened Grid

  /** A value held in an entity's attribute dict. `OidsV` is a list of object
      identities (the `_damaged` list of an explosion). */
  datatype Val = IntV(i: int) | ConstV(c: Const) | StrV(s: string) | BoolV(b: bool) | OidsV(ids: seq<nat>)

  type Attrs = map<string, Val>

  /** An entity as Python's `==` sees it: its kind and its attribute dict. */
  datatype Obj = Obj(kind: Kind, attrs: Attrs)

  /** An entity in the world: the value, and the identity of the Python object
      that holds it (what `is` compares). */
  datatype Entity = Entity(obj: Obj, oid: nat)

  type Cell = seq<Entity>
  type World = map<Coord, Cell>

  /** A player's remembered world: copies of entities, which carry no identity. */
  type Known = map<Coord, seq<Obj>>

  /** The values of a cell, as `==` on two cell lists compares them. */
  function Objs(cell: Cell): (r: seq<Obj>)
    ensures |r| == |cell| && forall i :: 0 <= i < |cell| ==> r[i] == cell[i].obj
  {
    seq(|cell|, i requires 0 <= i < |cell| => cell[i].obj)
  }

  /** Some entity of the cell is of one of `kinds` (`any(o[0] in kinds for o in cell)`). */
  predicate HasKind(cell: Cell, kinds: set<Kind>)
  {
    exists i :: 0 <= i < |cell| && cell[i].obj.kind in kinds
  }

  /** The cell blocks sight. */
  predicate Opaque(cell: Cell)
  {
    HasKind(cell, OpaqueObjects)
  }

  /** The cell blocks movement. */
  predicate Solid(cell: Cell)
  {
    HasKind(cell, SolidObjects)
  }

  /** `attrs.get(key)`: None when the key is absent. */
  function Get(attrs: Attrs, key: string): Option<Val>
  {
    if key in attrs then Some(attrs[key]) else None
  }

  /** Python truthiness of an attribute value. */
  predicate Truthy(v: Val)
  {
    match v
    case IntV(i) => i != 0
    case ConstV(c) => true
    case StrV(s) => s != ""
    case BoolV(b) => b
    case OidsV(ids) => ids != []
  }

  /** `v == True` in Python, where True equals the integer 1. */
  predicate IsTrue(v: Val)
  {
    v == BoolV(true) || v == IntV(1)
  }

  /** The attribute value of a wire constant: the N1..N9 constants are plain
      integers in the source, so they become integers here. */
  function ValOf(c: Const): (v: Val)
    ensures c.NumC? ==> v == IntV(c.n)
    ensures !c.NumC? ==> v == ConstV(c)
  {
    if c.NumC? then IntV(c.n) else ConstV(c)
  }

  /** The cells whose list holds an object of one of `kinds`. */
  function CoordsWith(world: World, kinds: set<Kind>): (r: set<Coord>)
    ensures r <= world.Keys
    ensures forall c :: c in r <==> c in world && HasKind(world[c], kinds)
  {
    set c | c in world && HasKind(world[c], kinds)
  }

  /** The objects of a cell whose kind is in `kinds`, in cell order, as values. */
  function ObjsOfKind(cell: Cell, kinds: set<Kind>): (r: seq<Obj>)
    ensures |r| <= |cell|
    ensures forall o :: o in r ==> o.kind in kinds
    ensures r == [] <==> !HasKind(cell, kinds)
  {
    if cell == [] then []
    else
      var rest := ObjsOfKind(cell[1..], kinds);
      assert HasKind(cell, kinds) <==> cell[0].obj.kind in kinds || HasKind(cell[1..], kinds) by {
        if HasKind(cell[1..], kinds) {
          var i :| 0 <= i < |cell[1..]| && cell[1..][i].obj.kind in kinds;
          assert cell[i + 1].obj.kind in kinds;
        }
        if HasKind(cell, kinds) && cell[0].obj.kind !in kinds {
          var i :| 0 <= i < |cell| && cell[i].obj.kind in kinds;
          assert cell[1..][i - 1].obj.kind in kinds;
        }
      }
      if cell[0].obj.kind in kinds then [cell[0].obj] + rest else rest
  }
}
