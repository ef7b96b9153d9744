/** The vision functions of src/whiteshoe/vision.py: given the world, a player's
    cell and facing, the set of cells the player sees. `cone` casts rays that stop
    at the first opaque cell, `all` sees everything, `blind` nothing, and `rays`
    is built from integer helpers (an affine 2x2 transform, a Bresenham line, a
    point enumeration) around a floating-point search. */
module Vision {
  import opened Wrappers
  import opened Constants
  import opened Grid
  import opened Entities

  // ---- look_until_wall ----

  /** The cell `k` steps from `c` along `d`. */
  function Step(c: Coord, d: Vec, k: int): Coord
  {
    (c.0 + k * d.0, c.1 + k * d.1)
  }

  /** The cells 1..k steps from `c` along `d`. */
  function StepsUpTo(c: Coord, d: Vec, k: nat): set<Coord>
  {
    set j | 1 <= j <= k :: Step(c, d, j)
  }

  /** The k-th cell along the ray is reached: cells 1..k are in the world and
      none of the cells before the k-th is opaque. */
  predicate Reached(world: World, c: Coord, d: Vec, k: int)
  {
    k >= 1 &&
    (forall j :: 1 <= j <= k ==> Step(c, d, j) in world) &&
    (forall j :: 1 <= j < k ==> !Opaque(world[Step(c, d, j)]))
  }

  /** What a ray from `c` along `d` sees: every reached cell, so the ray ends at
      the edge of the world or at the first opaque cell, which it includes. */
  ghost function RaySet(world: World, c: Coord, d: Vec): set<Coord>
  {
    set p | p in world && exists k :: Reached(world, c, d, k) && p == Step(c, d, k)
  }

  lemma StepInjective(c: Coord, d: Vec, i: int, j: int)
    requires d != (0, 0) && Step(c, d, i) == Step(c, d, j)
    ensures i == j
  {
    if d.0 != 0 {
      assert (i - j) * d.0 == 0;
    } else {
      assert (i - j) * d.1 == 0;
    }
  }

  lemma SubsetCard<T>(a: set<T>, b: set<T>)
    requires a <= b
    ensures |a| <= |b|
    decreases |b|
  {
    if a != {} {
      var x :| x in a;
      SubsetCard(a - {x}, b - {x});
    }
  }

  /** When the ray has reached cell k and cannot go on (cell k+1 is off the world,
      or cell k is opaque), it sees exactly cells 1..k. */
  lemma RayEnds(world: World, c: Coord, d: Vec, k: nat)
    requires d != (0, 0)
    requires k == 0 || Reached(world, c, d, k)
    requires Step(c, d, k + 1) !in world || (k >= 1 && Opaque(world[Step(c, d, k)]))
    ensures RaySet(world, c, d) == StepsUpTo(c, d, k)
  {
    forall p | p in RaySet(world, c, d)
      ensures p in StepsUpTo(c, d, k)
    {
      var m :| Reached(world, c, d, m) && p == Step(c, d, m);
      if m > k {
        assert false;
      }
    }
    forall p | p in StepsUpTo(c, d, k)
      ensures p in RaySet(world, c, d)
    {
      var m :| 1 <= m <= k && p == Step(c, d, m);
      assert Reached(world, c, d, m);
    }
  }

  /** Going one cell further along the ray adds exactly that cell, which is new. */
  lemma StepsGrow(c: Coord, d: Vec, k: nat)
    requires d != (0, 0)
    ensures StepsUpTo(c, d, k + 1) == StepsUpTo(c, d, k) + {Step(c, d, k + 1)}
    ensures Step(c, d, k + 1) !in StepsUpTo(c, d, k)
  {
    forall j | 1 <= j <= k
      ensures Step(c, d, j) != Step(c, d, k + 1)
    {
      if Step(c, d, j) == Step(c, d, k + 1) {
        StepInjective(c, d, j, k + 1);
      }
    }
  }

  /** A ray that has reached a transparent cell k reaches cell k+1 when it is in the world. */
  lemma ReachedNext(world: World, c: Coord, d: Vec, k: nat)
    requires k == 0 || (Reached(world, c, d, k) && !Opaque(world[Step(c, d, k)]))
    requires Step(c, d, k + 1) in world
    ensures Reached(world, c, d, k + 1)
  {
  }

  /** Whether any object of the cell is opaque (the inner loop of look_until_wall). */
  method AnyOpaque(objects: Cell) returns (blocks: bool)
    ensures blocks == Opaque(objects)
  {
    blocks := false;
    var i := 0;
    while i < |objects|
      invariant 0 <= i <= |objects|
      invariant blocks <==> HasKind(objects[..i], OpaqueObjects)
    {
      if objects[i].obj.kind in OpaqueObjects {
        blocks := true;
      }
      assert objects[..i + 1][..i] == objects[..i];
      i := i + 1;
    }
    assert objects[..i] == objects;
  }

  /** cone's look_until_wall: walk from `start` along `d`, collecting each cell
      until the walk leaves the world; a cell holding an opaque object is
      collected and ends the walk. */
  method LookUntilWall(world: World, start: Coord, d: Vec) returns (v: set<Coord>)
    requires d != (0, 0)
    ensures v == RaySet(world, start, d)
    ensures v <= world.Keys
  {
    var coord := start;
    v := {};
    var running := true;
    ghost var k: nat := 0;
    while running
      invariant coord == Step(start, d, k)
      invariant v == StepsUpTo(start, d, k) && v <= world.Keys && |v| == k
      invariant k == 0 || Reached(world, start, d, k)
      invariant k >= 1 ==> (running <==> !Opaque(world[coord]))
      invariant k == 0 ==> running
      decreases |world.Keys| - k, running
    {
      coord := (coord.0 + d.0, coord.1 + d.1);
      if coord !in world {
        RayEnds(world, start, d, k);
        return;
      }
      ReachedNext(world, start, d, k);
      StepsGrow(start, d, k);
      v := v + {coord};
      k := k + 1;
      SubsetCard(v, world.Keys);
      var blocked := AnyOpaque(world[coord]);
      running := !blocked;
    }
    RayEnds(world, start, d, k);
  }

  // ---- cone ----

  /** The cell behind a player at `c` facing `d`. */
  function Behind(c: Coord, d: Dir): Coord
  {
    (c.0 - Diff(d).0, c.1 - Diff(d).1)
  }

  /** The union of the rays from `c` along each of `ds`. */
  ghost function RayUnion(world: World, c: Coord, ds: seq<Dir>): set<Coord>
  {
    if ds == [] then {} else RayUnion(world, c, ds[..|ds| - 1]) + RaySet(world, c, Diff(ds[|ds| - 1]))
  }

  /** What `cone` sees for a cardinal facing: the player's own cell, the cell
      behind when it is in the world, and one ray along each adjacent direction. */
  ghost function ConeSet(world: World, c: Coord, d: Dir): set<Coord>
    requires IsCardinal(d)
  {
    {c} + (if Behind(c, d) in world then {Behind(c, d)} else {}) + RayUnion(world, c, Adjacent(d))
  }

  /** vision.cone. The facing is any constant: DIFFS has no entry for a
      non-direction and ADJACENT none for a diagonal, and either lookup raising
      KeyError is modelled as None. */
  method Cone(world: World, coord: Coord, direction: Const) returns (r: Option<set<Coord>>)
    ensures r.Some? <==> direction.DirC? && IsCardinal(direction.dir)
    ensures r.Some? ==> r.value == ConeSet(world, coord, direction.dir)
  {
    if !direction.DirC? {
      return None;
    }
    var d := direction.dir;
    var visible := {coord};
    var behindYou := Behind(coord, d);
    if behindYou in world {
      visible := visible + {behindYou};
    }
    if !IsCardinal(d) {
      return None;
    }
    var adjacent := Adjacent(d);
    ghost var base := visible;
    var i := 0;
    while i < |adjacent|
      invariant 0 <= i <= |adjacent|
      invariant visible == base + RayUnion(world, coord, adjacent[..i])
    {
      var ray := LookUntilWall(world, coord, Diff(adjacent[i]));
      assert adjacent[..i + 1][..i] == adjacent[..i];
      visible := visible + ray;
      i := i + 1;
    }
    assert adjacent[..i] == adjacent;
    return Some(visible);
  }

  lemma RayUnionMembers(world: World, c: Coord, ds: seq<Dir>, p: Coord)
    ensures p in RayUnion(world, c, ds) <==> exists a :: a in ds && p in RaySet(world, c, Diff(a))
  {
    if ds != [] {
      RayUnionMembers(world, c, ds[..|ds| - 1], p);
      assert ds == ds[..|ds| - 1] + [ds[|ds| - 1]];
    }
  }

  /** No ray along a direction adjacent to a cardinal facing ever passes through
      the cell behind the player. */
  lemma BehindOffRays(world: World, c: Coord, d: Dir, a: Dir)
    requires IsCardinal(d) && a in Adjacent(d)
    ensures Behind(c, d) !in RaySet(world, c, Diff(a))
  {
  }

  /** What a cone sees: its own cell always; the cell behind exactly when that
      cell is in the world; otherwise only cells of the world. */
  lemma ConeProperties(world: World, c: Coord, d: Dir)
    requires IsCardinal(d)
    ensures c in ConeSet(world, c, d)
    ensures Behind(c, d) in ConeSet(world, c, d) <==> Behind(c, d) in world
    ensures ConeSet(world, c, d) <= world.Keys + {c}
  {
    var adj := Adjacent(d);
    RayUnionMembers(world, c, adj, Behind(c, d));
    forall a | a in adj
      ensures Behind(c, d) !in RaySet(world, c, Diff(a))
    {
      BehindOffRays(world, c, d, a);
    }
    forall p | p in RayUnion(world, c, adj)
      ensures p in world
    {
      RayUnionMembers(world, c, adj, p);
    }
  }

  /** A cone contains every cell a ray along an adjacent direction reaches, and a
      ray along any other direction adds nothing beyond those rays, the player's
      cell and the cell behind. */
  lemma ConeRays(world: World, c: Coord, d: Dir, p: Coord)
    requires IsCardinal(d)
    ensures p in ConeSet(world, c, d) <==>
              p == c || (p == Behind(c, d) && p in world) ||
              exists a :: a in Adjacent(d) && p in RaySet(world, c, Diff(a))
  {
    RayUnionMembers(world, c, Adjacent(d), p);
  }

  // ---- all, blind, square ----

  /** vision.all: every cell of the world. */
  function All(world: World): (r: set<Coord>)
    ensures forall p :: p in r <==> p in world
  {
    world.Keys
  }

  /** vision.blind: nothing. */
  function Blind(world: World): (r: set<Coord>)
    ensures forall p :: p !in r
  {
    {}
  }

  /** vision.square as written: it calls `neighbourhood`, which vision.py never
      imports, so every call raises NameError (None). */
  function SquareAsWritten(world: World, c: Coord): (r: Option<set<Coord>>)
    ensures r.None?
  {
    None
  }

  /** vision.square as intended: the cells within Chebyshev distance 3, whether
      or not they are in the world. */
  function Square(world: World, c: Coord): (r: set<Coord>)
    ensures forall p :: p in r <==> Chebyshev(p, c) <= 3
  {
    NeighbourhoodMembers(c, 3);
    Elems(NeighbourhoodSeq(c, 3))
  }

  // ---- rays: the affine transform ----

  /** Transform2D: x' = m00 x + m01 y + tX, y' = m10 x + m11 y + tY. */
  datatype Transform = Transform(m00: int, m01: int, m10: int, m11: int, tX: int, tY: int)

  function Translate(x: int, y: int): Transform { Transform(1, 0, 0, 1, x, y) }

  function Linear(m00: int, m01: int, m10: int, m11: int): Transform { Transform(m00, m01, m10, m11, 0, 0) }

  /** Transform2D.apply. */
  function Apply(t: Transform, p: Coord): Coord
  {
    (p.0 * t.m00 + p.1 * t.m01 + t.tX, p.0 * t.m10 + p.1 * t.m11 + t.tY)
  }

  /** Transform2D.__mul__: the product `s * t`. */
  function Compose(s: Transform, t: Transform): Transform
  {
    Transform(s.m00 * t.m00 + s.m01 * t.m10, s.m00 * t.m01 + s.m01 * t.m11,
              s.m10 * t.m00 + s.m11 * t.m10, s.m10 * t.m01 + s.m11 * t.m11,
              s.tX + t.tX * s.m00 + t.tY * s.m01, s.tY + t.tX * s.m10 + t.tY * s.m11)
  }

  /** Applying a product applies its right factor first. */
  lemma ComposeApply(s: Transform, t: Transform, p: Coord)
    ensures Apply(Compose(s, t), p) == Apply(s, Apply(t, p))
  {
    AffineRow(p.0, p.1, t.m00, t.m01, t.tX, t.m10, t.m11, t.tY, s.m00, s.m01, s.tX);
    AffineRow(p.0, p.1, t.m00, t.m01, t.tX, t.m10, t.m11, t.tY, s.m10, s.m11, s.tY);
  }

  /** One coordinate of ComposeApply, on plain integers: the row (m, n, w) of
      the left factor applied after the right factor (a, b, u; c, d, v). */
  lemma AffineRow(x: int, y: int, a: int, b: int, u: int, c: int, d: int, v: int, m: int, n: int, w: int)
    ensures x * (m * a + n * c) + y * (m * b + n * d) + (w + u * m + v * n)
            == (x * a + y * b + u) * m + (x * c + y * d + v) * n + w
  {
    assert (x * a + y * b + u) * m == x * (m * a) + y * (m * b) + u * m;
    assert (x * c + y * d + v) * n == x * (n * c) + y * (n * d) + v * n;
  }

  function Det(t: Transform): int { t.m00 * t.m11 - t.m01 * t.m10 }

  /** Python 2 `/` on integers: floor division. */
  function FloorDiv(a: int, b: int): int
    requires b != 0
  {
    if b > 0 then a / b else (-a) / (-b)
  }

  /** Transform2D.inverse, with Python 2 integer division; a zero determinant
      raises ZeroDivisionError (None). */
  function Inverse(t: Transform): (r: Option<Transform>)
    ensures r.None? <==> Det(t) == 0
  {
    var det := Det(t);
    if det == 0 then None
    else Some(Transform(FloorDiv(t.m11, det), FloorDiv(-t.m01, det),
                        FloorDiv(-t.m10, det), FloorDiv(t.m00, det),
                        FloorDiv(t.tY * t.m01 - t.tX * t.m11, det),
                        FloorDiv(-(t.tY * t.m00 - t.tX * t.m10), det)))
  }

  /** rays' `rotate_matrix`: only the four cardinal facings have one (KeyError otherwise). */
  function Rotation(d: Dir): (r: Option<Transform>)
    ensures r.Some? <==> IsCardinal(d)
    ensures r.Some? ==> r.value.tX == 0 && r.value.tY == 0
  {
    match d
    case Right => Some(Linear(1, 0, 0, 1))
    case Left => Some(Linear(-1, 0, 0, -1))
    case Up => Some(Linear(0, -1, 1, 0))
    case Down => Some(Linear(0, 1, -1, 0))
    case _ => None
  }

  /** rays' `world_to_camera`: move the player's cell to the origin, then rotate. */
  function WorldToCamera(c: Coord, d: Dir): Transform
    requires IsCardinal(d)
  {
    Compose(Rotation(d).value, Translate(-c.0, -c.1))
  }

  lemma DivByOne(a: int)
    ensures FloorDiv(a, 1) == a
  {
  }

  /** world_to_camera and camera_to_world (its inverse), written out for each
      cardinal facing: move the player to the origin, then rotate; and the
      transposed rotation followed by the move back. */
  lemma CameraRight(c: Coord)
    ensures WorldToCamera(c, Right) == Transform(1, 0, 0, 1, -c.0, -c.1)
    ensures Inverse(WorldToCamera(c, Right)) == Some(Transform(1, 0, 0, 1, c.0, c.1))
  {
    var w := Compose(Transform(1, 0, 0, 1, 0, 0), Transform(1, 0, 0, 1, -c.0, -c.1));
    assert Translate(-c.0, -c.1) == Transform(1, 0, 0, 1, -c.0, -c.1);
    assert Rotation(Right).value == Linear(1, 0, 0, 1);
    assert w.tX == (-c.0) * 1 + (-c.1) * 0;
    assert w.tY == (-c.0) * 0 + (-c.1) * 1;
    assert w == Transform(1, 0, 0, 1, -c.0, -c.1);
    assert Det(Transform(1, 0, 0, 1, -c.0, -c.1)) == 1;
    DivByOne(0); DivByOne(1); DivByOne(-1); DivByOne(c.0); DivByOne(c.1);
    assert Inverse(Transform(1, 0, 0, 1, -c.0, -c.1)) == Some(Transform(1, 0, 0, 1, c.0, c.1));
  }

  lemma CameraLeft(c: Coord)
    ensures WorldToCamera(c, Left) == Transform(-1, 0, 0, -1, c.0, c.1)
    ensures Inverse(WorldToCamera(c, Left)) == Some(Transform(-1, 0, 0, -1, c.0, c.1))
  {
    var w := Compose(Transform(-1, 0, 0, -1, 0, 0), Transform(1, 0, 0, 1, -c.0, -c.1));
    assert Translate(-c.0, -c.1) == Transform(1, 0, 0, 1, -c.0, -c.1);
    assert Rotation(Left).value == Linear(-1, 0, 0, -1);
    assert w.tX == (-c.0) * -1 + (-c.1) * 0;
    assert w.tY == (-c.0) * 0 + (-c.1) * -1;
    assert w == Transform(-1, 0, 0, -1, c.0, c.1);
    assert Det(Transform(-1, 0, 0, -1, c.0, c.1)) == 1;
    DivByOne(0); DivByOne(1); DivByOne(-1); DivByOne(c.0); DivByOne(c.1);
    assert Inverse(Transform(-1, 0, 0, -1, c.0, c.1)) == Some(Transform(-1, 0, 0, -1, c.0, c.1));
  }

  lemma CameraUp(c: Coord)
    ensures WorldToCamera(c, Up) == Transform(0, -1, 1, 0, c.1, -c.0)
    ensures Inverse(WorldToCamera(c, Up)) == Some(Transform(0, 1, -1, 0, c.0, c.1))
  {
    var w := Compose(Transform(0, -1, 1, 0, 0, 0), Transform(1, 0, 0, 1, -c.0, -c.1));
    assert Translate(-c.0, -c.1) == Transform(1, 0, 0, 1, -c.0, -c.1);
    assert Rotation(Up).value == Linear(0, -1, 1, 0);
    assert w.tX == (-c.0) * 0 + (-c.1) * -1;
    assert w.tY == (-c.0) * 1 + (-c.1) * 0;
    assert w == Transform(0, -1, 1, 0, c.1, -c.0);
    assert Det(Transform(0, -1, 1, 0, c.1, -c.0)) == 1;
    DivByOne(0); DivByOne(1); DivByOne(-1); DivByOne(c.0); DivByOne(c.1);
    assert Inverse(Transform(0, -1, 1, 0, c.1, -c.0)) == Some(Transform(0, 1, -1, 0, c.0, c.1));
  }

  lemma CameraDown(c: Coord)
    ensures WorldToCamera(c, Down) == Transform(0, 1, -1, 0, -c.1, c.0)
    ensures Inverse(WorldToCamera(c, Down)) == Some(Transform(0, -1, 1, 0, c.0, c.1))
  {
    var w := Compose(Transform(0, 1, -1, 0, 0, 0), Transform(1, 0, 0, 1, -c.0, -c.1));
    assert Translate(-c.0, -c.1) == Transform(1, 0, 0, 1, -c.0, -c.1);
    assert Rotation(Down).value == Linear(0, 1, -1, 0);
    assert w.tX == (-c.0) * 0 + (-c.1) * 1;
    assert w.tY == (-c.0) * -1 + (-c.1) * 0;
    assert w == Transform(0, 1, -1, 0, -c.1, c.0);
    assert Det(Transform(0, 1, -1, 0, -c.1, c.0)) == 1;
    DivByOne(0); DivByOne(1); DivByOne(-1); DivByOne(c.0); DivByOne(c.1);
    assert Inverse(Transform(0, 1, -1, 0, -c.1, c.0)) == Some(Transform(0, -1, 1, 0, c.0, c.1));
  }

  /** For every cardinal facing, world_to_camera takes the player's cell to
      (0, 0), and camera_to_world (its inverse) undoes it on every point and
      takes (0, 0) back to the player's cell. */
  lemma CameraRoundTrip(c: Coord, d: Dir, p: Coord)
    requires IsCardinal(d)
    ensures Apply(WorldToCamera(c, d), c) == (0, 0)
    ensures Inverse(WorldToCamera(c, d)).Some?
    ensures Apply(Inverse(WorldToCamera(c, d)).value, Apply(WorldToCamera(c, d), p)) == p
    ensures Apply(WorldToCamera(c, d), Apply(Inverse(WorldToCamera(c, d)).value, p)) == p
    ensures Apply(Inverse(WorldToCamera(c, d)).value, (0, 0)) == c
  {
    match d {
      case Right =>
        CameraRight(c);
        var w, u := Transform(1, 0, 0, 1, -c.0, -c.1), Transform(1, 0, 0, 1, c.0, c.1);
        assert Apply(u, Apply(w, p)) == p && Apply(w, Apply(u, p)) == p;
        assert Apply(w, c) == (0, 0) && Apply(u, (0, 0)) == c;
      case Left =>
        CameraLeft(c);
        var w, u := Transform(-1, 0, 0, -1, c.0, c.1), Transform(-1, 0, 0, -1, c.0, c.1);
        assert Apply(u, Apply(w, p)) == p && Apply(w, Apply(u, p)) == p;
        assert Apply(w, c) == (0, 0) && Apply(u, (0, 0)) == c;
      case Up =>
        CameraUp(c);
        var w, u := Transform(0, -1, 1, 0, c.1, -c.0), Transform(0, 1, -1, 0, c.0, c.1);
        assert Apply(u, Apply(w, p)) == p && Apply(w, Apply(u, p)) == p;
        assert Apply(w, c) == (0, 0) && Apply(u, (0, 0)) == c;
      case Down =>
        CameraDown(c);
        var w, u := Transform(0, 1, -1, 0, -c.1, c.0), Transform(0, -1, 1, 0, c.0, c.1);
        assert Apply(u, Apply(w, p)) == p && Apply(w, Apply(u, p)) == p;
        assert Apply(w, c) == (0, 0) && Apply(u, (0, 0)) == c;
    }
  }

  /** rays' `bresenham_line(a, b)`: the cells of the line from a to b. */
  method Bresenham(a: Coord, b: Coord) returns (line: seq<Coord>)
    ensures |line| >= 1 && line[0] == a && line[|line| - 1] == b
    ensures forall i :: 0 <= i < |line| - 1 ==> Chebyshev(line[i], line[i + 1]) == 1
  {
    line := [a];
    var x0, y0 := a.0, a.1;
    var x1, y1 := b.0, b.1;
    var dx: int, dy: int := Abs(x1 - x0), Abs(y1 - y0);
    var sx := if x0 < x1 then 1 else -1;
    var sy := if y0 < y1 then 1 else -1;
    var error: int := dx - dy;
    ghost var cx, cy := 0, 0;
    while (x0, y0) != (x1, y1)
      invariant 0 <= cx <= dx && 0 <= cy <= dy
      invariant x0 == (if sx == 1 then a.0 + cx else a.0 - cx)
      invariant y0 == (if sy == 1 then a.1 + cy else a.1 - cy)
      invariant x1 == (if sx == 1 then a.0 + dx else a.0 - dx)
      invariant y1 == (if sy == 1 then a.1 + dy else a.1 - dy)
      invariant error == dx - dy - cx * dy + cy * dx
      invariant |line| >= 1 && line[0] == a && line[|line| - 1] == (x0, y0)
      invariant forall i :: 0 <= i < |line| - 1 ==> Chebyshev(line[i], line[i + 1]) == 1
      decreases (dx - cx) + (dy - cy)
    {
      BresenhamStep(dx, dy, cx, cy, error);
      var e2 := 2 * error;
      ghost var prev, prevCx, prevCy := (x0, y0), cx, cy;
      if e2 > -dy {
        error := error - dy;
        x0 := x0 + sx;
        cx := cx + 1;
      }
      if e2 < dx {
        error := error + dx;
        y0 := y0 + sy;
        cy := cy + 1;
      }
      ErrorUpdate(dx, dy, prevCx, prevCy, cx != prevCx, cy != prevCy);
      assert Chebyshev(prev, (x0, y0)) == 1;
      line := line + [(x0, y0)];
    }
  }

  /** How the error term moves when the line steps in x, in y, or both. */
  lemma ErrorUpdate(dx: int, dy: int, cx: int, cy: int, stepX: bool, stepY: bool)
    ensures dx - dy - (cx + (if stepX then 1 else 0)) * dy + (cy + (if stepY then 1 else 0)) * dx
         == dx - dy - cx * dy + cy * dx - (if stepX then dy else 0) + (if stepY then dx else 0)
  {
  }

  lemma MulSigns(a: int, b: int)
    ensures a >= 0 && b <= 0 ==> a * b <= 0
    ensures a >= 0 && b >= 0 ==> a * b >= 0
  {
  }

  /** One step of the line stays within the box and makes progress. */
  lemma BresenhamStep(dx: int, dy: int, cx: int, cy: int, error: int)
    requires 0 <= cx <= dx && 0 <= cy <= dy && (cx, cy) != (dx, dy)
    requires error == dx - dy - cx * dy + cy * dx
    ensures 2 * error > -dy ==> cx < dx
    ensures 2 * error < dx ==> cy < dy
    ensures 2 * error > -dy || 2 * error < dx
  {
    if cx == dx {
      assert error == dx * (1 + cy - dy) - dy;
      MulSigns(dx, 1 + cy - dy);
    }
    if cy == dy {
      assert error == dx + dy * (dx - cx - 1);
      MulSigns(dy, dx - cx - 1);
    }
  }

  /** The points rays' `right_points_by_distance` yields for ring n (n >= 1), with
      `half` = max_radius // 2: the three on-axis points, the spokes, then the
      two corner points. */
  function Ring(n: int, half: int): seq<Coord>
  {
    [(0, n), (n, 0), (0, -n)] + Spokes(n, 1, half) + [(half, n), (half, -n)]
  }

  function Quad(n: int, i: int): seq<Coord> { [(i, n), (n, i), (n, -i), (i, -n)] }

  /** The off-axis points of ring n for i = from, ..., half-1. */
  function Spokes(n: int, from: int, half: int): seq<Coord>
    decreases half - from
  {
    if from >= half then [] else Quad(n, from) + Spokes(n, from + 1, half)
  }

  /** Rings 1..m in order. */
  function Rings(m: int, half: int): seq<Coord>
    decreases m
  {
    if m < 1 then [] else Rings(m - 1, half) + Ring(m, half)
  }

  function Max0(x: int): nat { if x < 0 then 0 else x }

  function Max(a: int, b: int): int { if a < b then b else a }

  lemma {:induction false} SpokesSnoc(n: int, from: int, i: int)
    requires from <= i
    ensures Spokes(n, from, i + 1) == Spokes(n, from, i) + Quad(n, i)
    decreases i - from
  {
    if from < i {
      SpokesSnoc(n, from + 1, i);
    }
  }

  lemma {:induction false} SpokesShape(n: int, from: int, half: int)
    requires from >= 1 && n >= 1
    ensures |Spokes(n, from, half)| == 4 * Max0(half - from)
    ensures forall p :: p in Spokes(n, from, half) ==>
              1 <= p.0 <= Max(n, half) && Abs(p.1) <= Max(n, half)
    decreases half - from
  {
    if from < half {
      SpokesShape(n, from + 1, half);
    }
  }

  /** The number of points in one ring. */
  function RingSize(half: int): nat { 5 + 4 * Max0(half - 1) }

  lemma MulSucc(a: int, k: int)
    ensures (a + 1) * k == a * k + k
  {
  }

  /** The enumeration of rings 1..m has m (5 + 4 max(half-1, 0)) points. */
  lemma {:induction false} RingsLength(m: nat, half: int)
    ensures |Rings(m, half)| == m * RingSize(half)
  {
    if m >= 1 {
      RingsLength(m - 1, half);
      SpokesShape(m, 1, half);
      assert |Ring(m, half)| == RingSize(half);
      MulSucc(m - 1, RingSize(half));
    }
  }

  /** Every point of rings 1..m lies in the right half-plane x >= 0, within
      max(m, half) of the origin on each axis. */
  lemma {:induction false} RingsBounds(m: int, half: int, p: Coord)
    requires half >= 0 && p in Rings(m, half)
    ensures 0 <= p.0 <= Max(m, half) && Abs(p.1) <= Max(m, half)
    decreases m
  {
    assert m >= 1;
    if p in Rings(m - 1, half) {
      RingsBounds(m - 1, half, p);
    } else if p in Spokes(m, 1, half) {
      SpokesShape(m, 1, half);
    }
  }

  /** One pass of the outer loop of `right_points_by_distance`: ring `n`
      appended to `points`, axis points first, then the spokes, then the
      two corners at x = half. */
  method AppendRing(points: seq<Coord>, n: int, half: int) returns (out: seq<Coord>)
    ensures out == points + Ring(n, half)
  {
    out := points + [(0, n), (n, 0), (0, -n)];
    var i := 1;
    while i < half
      invariant 1 <= i <= Max(half, 1)
      invariant out == points + [(0, n), (n, 0), (0, -n)] + Spokes(n, 1, i)
    {
      out := out + Quad(n, i);
      SpokesSnoc(n, 1, i);
      i := i + 1;
    }
    assert Spokes(n, 1, i) == Spokes(n, 1, half);
    out := out + [(half, n), (half, -n)];
  }

  /** rays' `right_points_by_distance(max_radius)`: (0, 0), then ring after ring. */
  method RightPointsByDistance(maxRadius: int) returns (points: seq<Coord>)
    ensures points == [(0, 0)] + Rings(maxRadius, FloorDiv(maxRadius, 2))
  {
    points := [(0, 0)];
    var halfRadius := FloorDiv(maxRadius, 2);
    var n := 1;
    while n < maxRadius + 1
      invariant 1 <= n <= Max(maxRadius + 1, 1)
      invariant points == [(0, 0)] + Rings(n - 1, halfRadius)
    {
      points := AppendRing(points, n, halfRadius);
      assert Rings(n, halfRadius) == Rings(n - 1, halfRadius) + Ring(n, halfRadius);
      n := n + 1;
    }
  }

  /** The enumeration starts at the origin, has 1 + m (5 + 4 max(m//2 - 1, 0)) points
      for m = max_radius, and stays in the half-plane x >= 0 within m of the origin. */
  lemma RightPointsShape(m: nat)
    ensures |[(0, 0)] + Rings(m, FloorDiv(m, 2))| == 1 + m * RingSize(m / 2)
    ensures forall p :: p in [(0, 0)] + Rings(m, FloorDiv(m, 2)) ==> 0 <= p.0 <= m && Abs(p.1) <= m
  {
    RingsLength(m, m / 2);
    forall p | p in Rings(m, m / 2)
      ensures 0 <= p.0 <= m && Abs(p.1) <= m
    {
      RingsBounds(m, m / 2, p);
    }
  }

  // ---- rays ----

  /** rays' MAX_RADIUS. */
  const MaxRadius: nat := 60

  /** The camera cells x in {0, -1}, y in {-1, 0, 1}, always reported: the
      player's cell, its two sides and the three cells behind. */
  const Initial: seq<Coord> := [(0, -1), (0, 0), (0, 1), (-1, -1), (-1, 0), (-1, 1)]

  /** rays' `camera_to_world` for a player at `c` facing `d`. */
  function CameraToWorld(c: Coord, d: Dir): (u: Transform)
    requires IsCardinal(d)
    ensures Apply(u, (0, 0)) == c
  {
    CameraRoundTrip(c, d, c);
    Inverse(WorldToCamera(c, d)).value
  }

  /** The world cells under the camera points `qs`. */
  function Image(u: Transform, qs: set<Coord>): set<Coord>
  {
    set q | q in qs :: Apply(u, q)
  }

  /** More camera points, more world cells. */
  lemma ImageMono(u: Transform, a: set<Coord>, b: set<Coord>)
    requires a <= b
    ensures Image(u, a) <= Image(u, b)
  {
  }

  /** The outputs of `rays` cut down to the world: images of points between
      the initial cells and `all`, and the viewer's cell (the image of the
      origin) is kept exactly when it is in the world. */
  lemma CutToWorld(world: World, u: Transform, coord: Coord, outputs: set<Coord>, sources: set<Coord>, all: set<Coord>)
    requires Apply(u, (0, 0)) == coord
    requires Elems(Initial) <= sources <= all && outputs == Image(u, sources)
    ensures coord in outputs * world.Keys <==> coord in world
    ensures Image(u, Elems(Initial)) * world.Keys <= outputs * world.Keys <= Image(u, all)
  {
    ImageMono(u, Elems(Initial), sources);
    ImageMono(u, sources, all);
    assert (0, 0) in Elems(Initial);
    assert Apply(u, (0, 0)) in Image(u, Elems(Initial));
  }

  /** rays' `is_impeded`: the world cell under camera point `q` holds an opaque
      object; a point off the world impedes nothing. */
  predicate Impeded(world: World, u: Transform, q: Coord)
  {
    Apply(u, q) in world && Opaque(world[Apply(u, q)])
  }

  method IsImpeded(world: World, u: Transform, q: Coord) returns (b: bool)
    ensures b == Impeded(world, u, q)
  {
    var p := Apply(u, q);
    if p in world {
      b := AnyOpaque(world[p]);
    } else {
      b := false;
    }
  }

  /** rays' `neighbours`: the four orthogonal neighbours of a camera point. */
  function Around(q: Coord): seq<Coord>
  {
    [(q.0 + 1, q.1), (q.0 - 1, q.1), (q.0, q.1 + 1), (q.0, q.1 - 1)]
  }

  /** How many of `qs` satisfy `keep`. */
  function CountWhere(qs: seq<Coord>, keep: Coord -> bool): nat
  {
    if qs == [] then 0 else CountWhere(qs[..|qs| - 1], keep) + (if keep(qs[|qs| - 1]) then 1 else 0)
  }

  /** The number of orthogonal neighbours of `q` that are impeded. */
  method ImpededAround(world: World, u: Transform, q: Coord) returns (n: nat)
    ensures n == CountWhere(Around(q), p => Impeded(world, u, p))
  {
    var around := Around(q);
    n := 0;
    for i := 0 to 4
      invariant n == CountWhere(around[..i], p => Impeded(world, u, p))
    {
      var b := IsImpeded(world, u, around[i]);
      assert around[..i + 1][..i] == around[..i];
      if b {
        n := n + 1;
      }
    }
    assert around[..4] == around;
  }

  /** The number of orthogonal neighbours of `q` whose world cell is in `outputs`. */
  method SeenAround(u: Transform, q: Coord, outputs: set<Coord>) returns (n: nat)
    ensures n == CountWhere(Around(q), p => Apply(u, p) in outputs)
  {
    var around := Around(q);
    n := 0;
    for i := 0 to 4
      invariant n == CountWhere(around[..i], p => Apply(u, p) in outputs)
    {
      assert around[..i + 1][..i] == around[..i];
      if Apply(u, around[i]) in outputs {
        n := n + 1;
      }
    }
    assert around[..4] == around;
  }

  /** The line of sight from the player (camera origin) to `q`: the Bresenham
      line, and whether none of its points other than its two ends is impeded. */
  method LineOfSight(world: World, u: Transform, q: Coord) returns (visible: bool, line: seq<Coord>)
    ensures |line| >= 1 && line[0] == (0, 0) && line[|line| - 1] == q
    ensures visible <==> forall i :: 0 <= i < |line| && line[i] != (0, 0) && line[i] != q ==> !Impeded(world, u, line[i])
  {
    line := Bresenham((0, 0), q);
    visible := true;
    var i := 0;
    while i < |line| && visible
      invariant 0 <= i <= |line|
      invariant visible <==> forall j :: 0 <= j < i && line[j] != (0, 0) && line[j] != q ==> !Impeded(world, u, line[j])
      invariant !visible ==> exists j :: 0 <= j < |line| && line[j] != (0, 0) && line[j] != q && Impeded(world, u, line[j])
    {
      if line[i] != (0, 0) && line[i] != q {
        var b := IsImpeded(world, u, line[i]);
        if b {
          visible := false;
        }
      }
      i := i + 1;
    }
  }

  /** The integer skeleton of `rays`: the six always-reported cells, then every
      enumerated camera point that the floating-point peripheral and
      blocked-direction filters let through (`admitted`, an oracle) and whose
      line of sight is clear, then the impeded corner points with at least two
      reported neighbours; all cut down to the world's cells. A facing with no
      rotation matrix is a KeyError. */
  method Rays(world: World, coord: Coord, direction: Const, admitted: Coord -> bool) returns (r: Option<set<Coord>>)
    ensures r.None? <==> !(direction.DirC? && IsCardinal(direction.dir))
    ensures r.Some? ==> r.value <= world.Keys
    ensures r.Some? ==> (coord in r.value <==> coord in world)
    ensures r.Some? ==> Image(CameraToWorld(coord, direction.dir), Elems(Initial)) * world.Keys <= r.value
    ensures r.Some? ==> r.value <= Image(CameraToWorld(coord, direction.dir),
                                         Elems(Initial + [(0, 0)] + Rings(MaxRadius, MaxRadius / 2)))
  {
    r := RaysUpTo(world, coord, direction, admitted, MaxRadius);
  }

  /** The body of `rays` for a given MAX_RADIUS. */
  method RaysUpTo(world: World, coord: Coord, direction: Const, admitted: Coord -> bool, maxRadius: nat)
    returns (r: Option<set<Coord>>)
    ensures r.None? <==> !(direction.DirC? && IsCardinal(direction.dir))
    ensures r.Some? ==> r.value <= world.Keys
    ensures r.Some? ==> (coord in r.value <==> coord in world)
    ensures r.Some? ==> Image(CameraToWorld(coord, direction.dir), Elems(Initial)) * world.Keys <= r.value
    ensures r.Some? ==> r.value <= Image(CameraToWorld(coord, direction.dir),
                                         Elems(Initial + [(0, 0)] + Rings(maxRadius, maxRadius / 2)))
  {
    r := None;
    if direction.DirC? && IsCardinal(direction.dir) {
      var u := CameraToWorld(coord, direction.dir);
      var points := RightPointsByDistance(maxRadius);
      assert FloorDiv(maxRadius, 2) == maxRadius / 2;
      var outputs, potentialCorners, sources := ScanPoints(world, u, points, admitted);
      outputs, sources := AddCorners(u, outputs, potentialCorners, sources, Elems(Initial + points));
      assert Initial + points == Initial + [(0, 0)] + Rings(maxRadius, maxRadius / 2);
      CutToWorld(world, u, coord, outputs, sources, Elems(Initial + points));
      r := Some(outputs * world.Keys);
    }
  }

  /** The main loop of `rays` over the camera points `points`: every point
      that the peripheral and blocked-direction filters let through
      (`admitted`) and whose line of sight is clear is reported; an impeded
      point off the axis with one to three impeded neighbours becomes a
      potential corner. Every output is the image of an initial cell or of
      one of `points`. */
  method ScanPoints(world: World, u: Transform, points: seq<Coord>, admitted: Coord -> bool)
    returns (outputs: set<Coord>, potentialCorners: seq<Coord>, ghost sources: set<Coord>)
    ensures Elems(Initial) <= sources <= Elems(Initial + points)
    ensures outputs == Image(u, sources)
    ensures forall k :: 0 <= k < |potentialCorners| ==> potentialCorners[k] in Elems(Initial + points)
  {
    ghost var all := Elems(Initial + points);
    sources := Elems(Initial);
    outputs := set q | q in Initial :: Apply(u, q);
    potentialCorners := [];
    var i := 0;
    while i < |points|
      invariant 0 <= i <= |points|
      invariant Elems(Initial) <= sources <= all
      invariant outputs == Image(u, sources)
      invariant forall k :: 0 <= k < |potentialCorners| ==> potentialCorners[k] in all
    {
      var q := points[i];
      if admitted(q) {
        var visible, _ := LineOfSight(world, u, q);
        if visible {
          outputs := outputs + {Apply(u, q)};
          sources := sources + {q};
        } else {
          var impeded := IsImpeded(world, u, q);
          if impeded && q.1 != 0 {
            var n := ImpededAround(world, u, q);
            if 1 <= n <= 3 {
              potentialCorners := potentialCorners + [q];
            }
          }
        }
      }
      i := i + 1;
    }
  }

  /** The corner pass of `rays`: a potential corner with at least two of its
      neighbours among the outputs is reported too. Outputs stay images of
      points in `all`. */
  method AddCorners(u: Transform, outputs: set<Coord>, corners: seq<Coord>, ghost sources: set<Coord>, ghost all: set<Coord>)
    returns (out: set<Coord>, ghost src: set<Coord>)
    requires Elems(Initial) <= sources <= all && outputs == Image(u, sources)
    requires forall k :: 0 <= k < |corners| ==> corners[k] in all
    ensures Elems(Initial) <= src <= all && out == Image(u, src)
    ensures outputs <= out
  {
    out, src := outputs, sources;
    for k := 0 to |corners|
      invariant Elems(Initial) <= src <= all
      invariant out == Image(u, src)
      invariant outputs <= out
    {
      var q := corners[k];
      var n := SeenAround(u, q, out);
      if n >= 2 {
        out := out + {Apply(u, q)};
        src := src + {q};
      }
    }
  }

  // ---- the registry ----

  /** The functions registered in vision.py's `functions` dict by the
      `@function` decorator, keyed by their names. */
  datatype VisionFn = SquareFn | ConeFn | AllFn | RaysFn | BlindFn

  function FnName(f: VisionFn): string
  {
    match f
    case SquareFn => "square"
    case ConeFn => "cone"
    case AllFn => "all"
    case RaysFn => "rays"
    case BlindFn => "blind"
  }

  /** `functions[name]`; an unregistered name is a KeyError. */
  function Lookup(name: string): (r: Option<VisionFn>)
  {
    if name == "square" then Some(SquareFn)
    else if name == "cone" then Some(ConeFn)
    else if name == "all" then Some(AllFn)
    else if name == "rays" then Some(RaysFn)
    else if name == "blind" then Some(BlindFn)
    else None
  }

  /** Every registered function is found under its own name, and a name finds
      only the function registered under it. */
  lemma LookupNames(f: VisionFn, name: string)
    ensures Lookup(FnName(f)) == Some(f)
    ensures Lookup(name) == Some(f) ==> name == FnName(f)
  {
  }

  /** What the registered function `f` returns for a player at `coord` facing
      `direction`: exactly the set for the deterministic ones; for `rays`, a
      set of cells of the world holding the player's own cell. */
  ghost predicate Sees(f: VisionFn, world: World, coord: Coord, direction: Const, r: Option<set<Coord>>)
  {
    match f
    case SquareFn => r == Some(Square(world, coord))
    case ConeFn => r == (if direction.DirC? && IsCardinal(direction.dir)
                         then Some(ConeSet(world, coord, direction.dir)) else None)
    case AllFn => r == Some(world.Keys)
    case BlindFn => r == Some({})
    case RaysFn => (r.None? <==> !(direction.DirC? && IsCardinal(direction.dir)))
                   && (r.Some? ==> r.value <= world.Keys && (coord in r.value <==> coord in world))
  }

  /** Call the registered function `f` for a player at `coord` facing
      `direction`. `square` is the corrected one (see SquareAsWritten); None is
      the exception the function raises. */
  method See(f: VisionFn, world: World, coord: Coord, direction: Const, admitted: Coord -> bool)
    returns (r: Option<set<Coord>>)
    ensures Sees(f, world, coord, direction, r)
  {
    match f {
      case SquareFn => r := Some(Square(world, coord));
      case ConeFn => r := Cone(world, coord, direction);
      case AllFn => r := Some(All(world));
      case RaysFn => r := Rays(world, coord, direction, admitted);
      case BlindFn => r := Some(Blind(world));
    }
  }
}
