/** The static tables of src/whiteshoe/constants.py: directions and their unit
    vectors, the facing-to-adjacent-directions table, the object-kind classes,
    bullet speeds, and the name-ordered table through which every network-visible
    constant travels as a small integer. */
module Constants {
  import opened Wrappers

  /** The eight direction constants (UP, NORTHEAST, ..., RIGHT). */
  datatype Dir = Up | Ne | Nw | Down | Se | Sw | Left | Right

  /** The three command constants (CMD_MOVE, CMD_LOOK, CMD_FIRE). */
  datatype Cmd = Move | Look | Fire

  /** Object kinds. The first eight are declared in constants.py; Mine, Slime,
      SlimeBullet and Lava are used by game.py but declared elsewhere. */
  datatype Kind = Wall | HWall | VWall | CWall | Player | Empty | Bullet | Explosion
                | Mine | Slime | SlimeBullet | Lava

  type Vec = (int, int)

  /** DIFFS: the unit step of every direction (y grows downwards). */
  function Diff(d: Dir): (v: Vec)
    ensures -1 <= v.0 <= 1 && -1 <= v.1 <= 1 && v != (0, 0)
  {
    match d
    case Up => (0, -1)
    case Ne => (1, -1)
    case Nw => (-1, -1)
    case Down => (0, 1)
    case Se => (1, 1)
    case Sw => (-1, 1)
    case Left => (-1, 0)
    case Right => (1, 0)
  }

  function Negate(v: Vec): Vec { (-v.0, -v.1) }

  /** The direction whose step undoes the step of `d`. */
  function Opposite(d: Dir): (r: Dir)
    ensures Diff(r) == Negate(Diff(d))
    ensures r != d
  {
    match d
    case Up => Down
    case Down => Up
    case Left => Right
    case Right => Left
    case Ne => Sw
    case Sw => Ne
    case Nw => Se
    case Se => Nw
  }

  /** DIRECTIONS: the four facings a player can be spawned with; also the keys of ADJACENT. */
  const Directions: seq<Dir> := [Up, Down, Left, Right]

  predicate IsCardinal(d: Dir) { d in Directions }

  /** ADJACENT: the five directions a cone looks along for a facing. The table
      has no entry for a diagonal facing (a KeyError in the source). */
  function Adjacent(d: Dir): (r: seq<Dir>)
    requires IsCardinal(d)
    ensures |r| == 5 && d in r && Opposite(d) !in r
    ensures forall i, j :: 0 <= i < j < |r| ==> r[i] != r[j]
  {
    match d
    case Up => [Left, Up, Right, Ne, Nw]
    case Down => [Left, Down, Right, Se, Sw]
    case Left => [Up, Left, Down, Nw, Sw]
    case Right => [Up, Right, Down, Ne, Se]
  }

  /** The direction whose step is `v`, if any (the reverse lookup of DIFFS). */
  function DirOf(v: Vec): (r: Option<Dir>)
    ensures r.Some? ==> Diff(r.value) == v
    ensures r.None? ==> forall d: Dir :: Diff(d) != v
  {
    if v == (0, -1) then Some(Up)
    else if v == (1, -1) then Some(Ne)
    else if v == (-1, -1) then Some(Nw)
    else if v == (0, 1) then Some(Down)
    else if v == (1, 1) then Some(Se)
    else if v == (-1, 1) then Some(Sw)
    else if v == (-1, 0) then Some(Left)
    else if v == (1, 0) then Some(Right)
    else None
  }

  // The object-kind classes.
  const Walls: set<Kind> := {Wall, HWall, VWall, CWall}
  const HistoricalObjects: set<Kind> := Walls + {Empty}
  const SolidObjects: set<Kind> := Walls + {Player}
  const OpaqueObjects: set<Kind> := Walls
  const AlwaysVisibleObjects: set<Kind> := {Explosion}
  const VisibleObjects: set<Kind> := Walls + {Empty, Player, Explosion, Bullet}
  const BlowableUp: set<Kind> := Walls + {Player}
  const CanStab: set<Kind> := {Player}

  /** The relations between the kind classes that the rest of the model relies on. */
  lemma KindClasses()
    ensures OpaqueObjects == Walls
    ensures SolidObjects == Walls + {Player} && HistoricalObjects == Walls + {Empty}
    ensures Player in SolidObjects && Player in BlowableUp && Player !in OpaqueObjects
    ensures Empty !in SolidObjects && Empty !in OpaqueObjects && Empty in HistoricalObjects
    ensures OpaqueObjects <= SolidObjects
  {
  }

  /** BULLET_SPEEDS, in milliseconds per cell (the source's seconds times 1000). */
  const BulletSpeeds: map<int, nat> :=
    map[1 := 50, 2 := 100, 3 := 150, 4 := 200, 5 := 250, 6 := 300, 7 := 350, 8 := 400, 9 := 450]

  /** EXPLOSION_LIFE, in milliseconds. */
  const ExplosionLife: nat := 500

  const PacketSizeLimit: nat := 600

  /** The packet payload types. */
  const GetGamesList: int := 0
  const GamesRunning: int := 1
  const MakeNewGame: int := 2
  const ErrorPayload: int := 3
  const GameAction: int := 4
  const JoinGame: int := 5
  const VisionUpdate: int := 6
  const KeepAlive: int := 7
  const GameStatus: int := 8
  const KeepaliveTime: nat := 5
  const StatusJoined: int := 1
  const StatusLeft: int := 2

  /** Bullet sizes 1..9 have a speed, and a bigger bullet is slower. */
  lemma BulletSpeedsIncrease(a: int, b: int)
    requires 1 <= a < b <= 9
    ensures forall s :: s in BulletSpeeds <==> 1 <= s <= 9
    ensures 0 < BulletSpeeds[a] < BulletSpeeds[b]
  {
  }

  // ---- The numerical constant table ----

  /** A network-visible constant: the value bound to one name of the class body. */
  datatype Const = CmdC(cmd: Cmd) | DirC(dir: Dir) | NumC(n: int) | KindC(kind: Kind)
                 | ModuleName  // `__module__`, which vars() also returns

  /** Python string order: code point by code point, a proper prefix first. */
  predicate NameBefore(a: string, b: string)
    decreases |a|
  {
    if |a| == 0 then |b| > 0
    else if |b| == 0 then false
    else a[0] < b[0] || (a[0] == b[0] && NameBefore(a[1..], b[1..]))
  }

  /** The bindings of the class body when `vars()` is taken, sorted by name:
      upper-case names sort before `__module__`. */
  const Entries: seq<(string, Const)> := [
    ("CMD_FIRE", CmdC(Fire)), ("CMD_LOOK", CmdC(Look)), ("CMD_MOVE", CmdC(Move)),
    ("DOWN", DirC(Down)), ("LEFT", DirC(Left)),
    ("N1", NumC(1)), ("N2", NumC(2)), ("N3", NumC(3)), ("N4", NumC(4)), ("N5", NumC(5)),
    ("N6", NumC(6)), ("N7", NumC(7)), ("N8", NumC(8)), ("N9", NumC(9)),
    ("NORTHEAST", DirC(Ne)), ("NORTHWEST", DirC(Nw)),
    ("OBJ_BULLET", KindC(Bullet)), ("OBJ_CORNER_WALL", KindC(CWall)), ("OBJ_EMPTY", KindC(Empty)),
    ("OBJ_EXPLOSION", KindC(Explosion)), ("OBJ_HORIZONTAL_WALL", KindC(HWall)),
    ("OBJ_PLAYER", KindC(Player)), ("OBJ_VERTICAL_WALL", KindC(VWall)), ("OBJ_WALL", KindC(Wall)),
    ("RIGHT", DirC(Right)), ("SOUTHEAST", DirC(Se)), ("SOUTHWEST", DirC(Sw)), ("UP", DirC(Up)),
    ("__module__", ModuleName)
  ]

  /** The bindings in the order the class body declares them. */
  const Declared: seq<(string, Const)> := [
    ("__module__", ModuleName),
    ("UP", DirC(Up)), ("NORTHEAST", DirC(Ne)), ("NORTHWEST", DirC(Nw)), ("DOWN", DirC(Down)),
    ("SOUTHEAST", DirC(Se)), ("SOUTHWEST", DirC(Sw)), ("LEFT", DirC(Left)), ("RIGHT", DirC(Right)),
    ("CMD_MOVE", CmdC(Move)), ("CMD_LOOK", CmdC(Look)), ("CMD_FIRE", CmdC(Fire)),
    ("OBJ_WALL", KindC(Wall)), ("OBJ_HORIZONTAL_WALL", KindC(HWall)), ("OBJ_VERTICAL_WALL", KindC(VWall)),
    ("OBJ_CORNER_WALL", KindC(CWall)), ("OBJ_PLAYER", KindC(Player)), ("OBJ_EMPTY", KindC(Empty)),
    ("OBJ_BULLET", KindC(Bullet)), ("OBJ_EXPLOSION", KindC(Explosion)),
    ("N1", NumC(1)), ("N2", NumC(2)), ("N3", NumC(3)), ("N4", NumC(4)), ("N5", NumC(5)),
    ("N6", NumC(6)), ("N7", NumC(7)), ("N8", NumC(8)), ("N9", NumC(9))
  ]

  /** `_constants_table`: the values of the sorted bindings. */
  function Table(): (t: seq<Const>)
    ensures |t| == |Entries| && forall i :: 0 <= i < |t| ==> t[i] == Entries[i].1
  {
    seq(|Entries|, i requires 0 <= i < |Entries| => Entries[i].1)
  }

  /** Each binding name comes before the next one. */
  predicate SortedByName(s: seq<(string, Const)>)
  {
    forall i :: 0 <= i < |s| - 1 ==> NameBefore(s[i].0, s[i + 1].0)
  }

  /** Adjacent names compared four pairs at a time, so that each proof stays small. */
  lemma SortedFrom0()
    ensures forall i :: 0 <= i < 4 ==> NameBefore(Entries[i].0, Entries[i + 1].0)
  {
    assert Entries[0].0 == "CMD_FIRE";
    assert Entries[1].0 == "CMD_LOOK";
    assert Entries[2].0 == "CMD_MOVE";
    assert Entries[3].0 == "DOWN";
    assert Entries[4].0 == "LEFT";
    assert NameBefore("CMD_FIRE", "CMD_LOOK");
    assert NameBefore("CMD_LOOK", "CMD_MOVE");
    assert NameBefore("CMD_MOVE", "DOWN");
    assert NameBefore("DOWN", "LEFT");
  }

  lemma SortedFrom4()
    ensures forall i :: 4 <= i < 8 ==> NameBefore(Entries[i].0, Entries[i + 1].0)
  {
    assert Entries[4].0 == "LEFT";
    assert Entries[5].0 == "N1";
    assert Entries[6].0 == "N2";
    assert Entries[7].0 == "N3";
    assert Entries[8].0 == "N4";
    assert NameBefore("LEFT", "N1");
    assert NameBefore("N1", "N2");
    assert NameBefore("N2", "N3");
    assert NameBefore("N3", "N4");
  }

  lemma SortedFrom8()
    ensures forall i :: 8 <= i < 12 ==> NameBefore(Entries[i].0, Entries[i + 1].0)
  {
    assert Entries[8].0 == "N4";
    assert Entries[9].0 == "N5";
    assert Entries[10].0 == "N6";
    assert Entries[11].0 == "N7";
    assert Entries[12].0 == "N8";
    assert NameBefore("N4", "N5");
    assert NameBefore("N5", "N6");
    assert NameBefore("N6", "N7");
    assert NameBefore("N7", "N8");
  }

  lemma SortedFrom12()
    ensures forall i :: 12 <= i < 16 ==> NameBefore(Entries[i].0, Entries[i + 1].0)
  {
    assert Entries[12].0 == "N8";
    assert Entries[13].0 == "N9";
    assert Entries[14].0 == "NORTHEAST";
    assert Entries[15].0 == "NORTHWEST";
    assert Entries[16].0 == "OBJ_BULLET";
    assert NameBefore("N8", "N9");
    assert NameBefore("N9", "NORTHEAST");
    assert NameBefore("NORTHEAST", "NORTHWEST");
    assert NameBefore("NORTHWEST", "OBJ_BULLET");
  }

  lemma SortedFrom16()
    ensures forall i :: 16 <= i < 20 ==> NameBefore(Entries[i].0, Entries[i + 1].0)
  {
    assert Entries[16].0 == "OBJ_BULLET";
    assert Entries[17].0 == "OBJ_CORNER_WALL";
    assert Entries[18].0 == "OBJ_EMPTY";
    assert Entries[19].0 == "OBJ_EXPLOSION";
    assert Entries[20].0 == "OBJ_HORIZONTAL_WALL";
    assert NameBefore("OBJ_BULLET", "OBJ_CORNER_WALL");
    assert NameBefore("OBJ_CORNER_WALL", "OBJ_EMPTY");
    assert NameBefore("OBJ_EMPTY", "OBJ_EXPLOSION");
    assert NameBefore("OBJ_EXPLOSION", "OBJ_HORIZONTAL_WALL");
  }

  lemma SortedFrom20()
    ensures forall i :: 20 <= i < 24 ==> NameBefore(Entries[i].0, Entries[i + 1].0)
  {
    assert Entries[20].0 == "OBJ_HORIZONTAL_WALL";
    assert Entries[21].0 == "OBJ_PLAYER";
    assert Entries[22].0 == "OBJ_VERTICAL_WALL";
    assert Entries[23].0 == "OBJ_WALL";
    assert Entries[24].0 == "RIGHT";
    assert NameBefore("OBJ_HORIZONTAL_WALL", "OBJ_PLAYER");
    assert NameBefore("OBJ_PLAYER", "OBJ_VERTICAL_WALL");
    assert NameBefore("OBJ_VERTICAL_WALL", "OBJ_WALL");
    assert NameBefore("OBJ_WALL", "RIGHT");
  }

  lemma SortedFrom24()
    ensures forall i :: 24 <= i < 28 ==> NameBefore(Entries[i].0, Entries[i + 1].0)
  {
    assert Entries[24].0 == "RIGHT";
    assert Entries[25].0 == "SOUTHEAST";
    assert Entries[26].0 == "SOUTHWEST";
    assert Entries[27].0 == "UP";
    assert Entries[28].0 == "__module__";
    assert NameBefore("RIGHT", "SOUTHEAST");
    assert NameBefore("SOUTHEAST", "SOUTHWEST");
    assert NameBefore("SOUTHWEST", "UP");
    assert NameBefore("UP", "__module__");
  }

  /** The table is sorted by binding name, as `sorted(vars(...))` leaves it. */
  lemma TableSortedByName()
    ensures SortedByName(Entries)
  {
    SortedFrom0();
    SortedFrom4();
    SortedFrom8();
    SortedFrom12();
    SortedFrom16();
    SortedFrom20();
    SortedFrom24();
  }

  /** The table holds exactly the bindings of the class body. */
  lemma TableHoldsClassBody()
    ensures |Entries| == |Declared|
    ensures forall e :: e in Declared ==> e in Entries
  {
  }

  /** The first index at which `x` occurs in `s` (Python's `list.index`). */
  function IndexOf<T(==)>(s: seq<T>, x: T): (r: Option<nat>)
    ensures r.None? <==> x !in s
    ensures r.Some? ==> r.value < |s| && s[r.value] == x && x !in s[..r.value]
  {
    if |s| == 0 then None
    else if s[0] == x then Some(0)
    else match IndexOf(s[1..], x)
      case None => None
      case Some(i) => assert s[..i + 1] == [s[0]] + s[1..][..i]; Some(i + 1)
  }

  /** The length of `_constants_table`. */
  const TableSize: int := 29

  /** The table entry at position `i`, read off the sorted bindings. */
  function ConstAt(i: int): Const
    requires 0 <= i < TableSize
  {
    if i <= 2 then CmdC([Fire, Look, Move][i])
    else if i == 3 then DirC(Down)
    else if i == 4 then DirC(Left)
    else if i <= 13 then NumC(i - 4)
    else if i == 14 then DirC(Ne)
    else if i == 15 then DirC(Nw)
    else if i <= 23 then KindC([Bullet, CWall, Empty, Explosion, HWall, Player, VWall, Wall][i - 16])
    else if i <= 27 then DirC([Right, Se, Sw, Up][i - 24])
    else ModuleName
  }

  /** to_numerical_constant: the position of `c` in the table; None where
      `list.index` raises ValueError (the kinds the table does not bind, and
      integers other than 1..9). */
  function ToNumerical(c: Const): (r: Option<nat>)
    ensures r.Some? ==> r.value < TableSize
  {
    match c
    case CmdC(m) => Some(match m case Fire => 0 case Look => 1 case Move => 2)
    case DirC(d) =>
      Some(match d
           case Down => 3 case Left => 4 case Ne => 14 case Nw => 15
           case Right => 24 case Se => 25 case Sw => 26 case Up => 27)
    case NumC(n) => if 1 <= n <= 9 then Some(n + 4) else None
    case KindC(k) =>
      (match k
       case Bullet => Some(16) case CWall => Some(17) case Empty => Some(18) case Explosion => Some(19)
       case HWall => Some(20) case Player => Some(21) case VWall => Some(22) case Wall => Some(23)
       case _ => None)
    case ModuleName => Some(28)
  }

  /** from_numerical_constant: Python list indexing, negative indices counting
      from the end; None where it raises IndexError. */
  function FromNumerical(n: int): (r: Option<Const>)
    ensures r.Some? <==> -TableSize <= n < TableSize
    ensures 0 <= n < TableSize ==> r == Some(ConstAt(n))
    ensures -TableSize <= n < 0 ==> r == Some(ConstAt(TableSize + n))
    ensures r.Some? && r.value.NumC? ==> 1 <= r.value.n <= 9
  {
    if 0 <= n < TableSize then Some(ConstAt(n))
    else if -TableSize <= n < 0 then Some(ConstAt(TableSize + n))
    else None
  }

  /** Position `i` holds the `i`-th value of the sorted bindings. */
  lemma ConstAtIsTable(i: int)
    requires 0 <= i < TableSize
    ensures |Table()| == TableSize && ConstAt(i) == Table()[i]
  {
  }

  /** Every position is the code of the entry it holds. */
  lemma CodeOfConstAt(i: int)
    requires 0 <= i < TableSize
    ensures ToNumerical(ConstAt(i)) == Some(i)
  {
  }

  /** Every code is the position of the entry it encodes. */
  lemma ConstAtOfCode(c: Const)
    requires ToNumerical(c).Some?
    ensures ConstAt(ToNumerical(c).value) == c
  {
  }

  /** No value occurs twice in the table. */
  lemma TableDistinct()
    ensures forall i, j :: 0 <= i < j < |Table()| ==> Table()[i] != Table()[j]
  {
    forall i, j | 0 <= i < j < |Table()|
      ensures Table()[i] != Table()[j]
    {
      ConstAtIsTable(i);
      ConstAtIsTable(j);
      CodeOfConstAt(i);
      CodeOfConstAt(j);
    }
  }

  /** The codes are what `list.index` on the sorted table returns. */
  lemma ToNumericalIsIndex(c: Const)
    ensures ToNumerical(c) == IndexOf(Table(), c)
  {
    var t := Table();
    match ToNumerical(c)
    case Some(n) =>
      ConstAtOfCode(c);
      ConstAtIsTable(n);
      assert t[n] == c;
      var j := IndexOf(t, c).value;
      ConstAtIsTable(j);
      CodeOfConstAt(j);
    case None =>
      forall j | 0 <= j < |t|
        ensures t[j] != c
      {
        ConstAtIsTable(j);
        CodeOfConstAt(j);
      }
  }

  /** Decoding an encoded constant gives it back. */
  lemma FromToNumerical(c: Const)
    requires ToNumerical(c).Some?
    ensures FromNumerical(ToNumerical(c).value) == Some(c)
  {
    ConstAtOfCode(c);
  }

  /** Encoding a decoded non-negative index gives it back. */
  lemma ToFromNumerical(n: int)
    requires 0 <= n < TableSize
    ensures FromNumerical(n).Some? && ToNumerical(FromNumerical(n).value) == Some(n)
  {
    CodeOfConstAt(n);
  }

  /** The wire code of an object kind, where the table has one: the eight kinds
      declared in constants.py have one, the four others do not. */
  function KindCode(k: Kind): (r: Option<nat>)
    ensures r.Some? <==> k !in {Mine, Slime, SlimeBullet, Lava}
  {
    ToNumerical(KindC(k))
  }

  /** The wire code of a direction: every direction is bound in the table. */
  function DirCode(d: Dir): (r: nat)
    ensures r < TableSize && ConstAt(r) == DirC(d)
  {
    ConstAtOfCode(DirC(d));
    ToNumerical(DirC(d)).value
  }
}
