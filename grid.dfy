/** The grid helpers of src/whiteshoe/utility.py: square neighbourhoods, the
    border of a region, the four orthogonal neighbours, wall orientation, and the
    perimeter and corners of a rectangular region. */
module Grid {
  import opened Wrappers

  type Coord = (int, int)

  function Abs(x: int): nat { if x < 0 then -x else x }

  /** Chebyshev distance: the number of king moves between two cells. */
  function Chebyshev(a: Coord, b: Coord): nat
  {
    var dx, dy := Abs(a.0 - b.0), Abs(a.1 - b.1);
    if dx < dy then dy else dx
  }

  /** Manhattan distance: the number of orthogonal moves between two cells. */
  function Manhattan(a: Coord, b: Coord): nat
  {
    Abs(a.0 - b.0) + Abs(a.1 - b.1)
  }

  // ---- neighbourhood ----

  function Side(n: int): nat { if n < 0 then 0 else 2 * n + 1 }

  /** The column x, from y0 upwards, h cells long. */
  function Column(x: int, y0: int, h: nat): (r: seq<Coord>)
    ensures |r| == h
  {
    seq(h, j requires 0 <= j < h => (x, y0 + j))
  }

  /** The columns x0, x0+1, ..., x0+count-1, each h cells from y0 upwards, in that order. */
  function Columns(x0: int, count: nat, y0: int, h: nat): seq<Coord>
    decreases count
  {
    if count == 0 then [] else Columns(x0, count - 1, y0, h) + Column(x0 + count - 1, y0, h)
  }

  /** The cells that `neighbourhood(coord, n)` lists, in its order: the
      column x-n first (y from y-n upwards), then column x-n+1, and so on. */
  function NeighbourhoodSeq(c: Coord, n: int): seq<Coord>
  {
    Columns(c.0 - n, Side(n), c.1 - n, Side(n))
  }

  predicate Distinct<T(==)>(s: seq<T>)
  {
    forall a, b :: 0 <= a < b < |s| ==> s[a] != s[b]
  }

  /** `list.remove(x)`: the list without the first element equal to `x`. */
  function RemoveFirst<T(==, !new)>(s: seq<T>, x: T): (r: seq<T>)
    ensures x in s ==> |r| == |s| - 1
    ensures x !in s ==> r == s
    ensures forall y :: y != x ==> (y in r <==> y in s)
    ensures Distinct(s) ==> Distinct(r) && x !in r
  {
    if s == [] then []
    else if s[0] == x then s[1..]
    else
      var rest := RemoveFirst(s[1..], x);
      assert Distinct(s) ==> s[0] !in s[1..] && Distinct(s[1..]);
      [s[0]] + rest
  }

  /** The columns cover exactly the rectangle [x0, x0+count) x [y0, y0+h), each cell once. */
  lemma {:induction false} ColumnsMembers(x0: int, count: nat, y0: int, h: nat)
    ensures |Columns(x0, count, y0, h)| == count * h
    ensures forall p :: p in Columns(x0, count, y0, h) <==> x0 <= p.0 < x0 + count && y0 <= p.1 < y0 + h
    ensures Distinct(Columns(x0, count, y0, h))
  {
    if count > 0 {
      ColumnsMembers(x0, count - 1, y0, h);
      var left, col := Columns(x0, count - 1, y0, h), Column(x0 + count - 1, y0, h);
      var s := left + col;
      assert |s| == (count - 1) * h + h;
      forall p: Coord ensures p in s <==> x0 <= p.0 < x0 + count && y0 <= p.1 < y0 + h {
        if p.0 == x0 + count - 1 && y0 <= p.1 < y0 + h {
          assert col[p.1 - y0] == p;
        }
      }
      forall a, b | 0 <= a < b < |s| ensures s[a] != s[b] {
        if b >= |left| && a < |left| {
          assert s[a] in left;
        }
      }
    }
  }

  /** neighbourhood(c, n) is exactly the (2n+1)² cells within Chebyshev
      distance n of c (c itself included), each listed once. */
  lemma NeighbourhoodMembers(c: Coord, n: int)
    ensures |NeighbourhoodSeq(c, n)| == Side(n) * Side(n)
    ensures forall p :: p in NeighbourhoodSeq(c, n) <==> n >= 0 && Chebyshev(p, c) <= n
    ensures Distinct(NeighbourhoodSeq(c, n))
  {
    var x0, y0, w := c.0 - n, c.1 - n, Side(n);
    ColumnsMembers(x0, w, y0, w);
    forall p ensures p in NeighbourhoodSeq(c, n) <==> n >= 0 && Chebyshev(p, c) <= n {
      assert p in NeighbourhoodSeq(c, n) <==> x0 <= p.0 < x0 + w && y0 <= p.1 < y0 + w;
    }
  }

  /** utility.neighbourhood: the square of side 2n+1 around `c`, column by column. */
  method Neighbourhood(c: Coord, n: int) returns (coords: seq<Coord>)
    ensures coords == NeighbourhoodSeq(c, n)
  {
    var w := Side(n);
    coords := [];
    var i := c.0 - n;
    while i < c.0 + n + 1
      invariant n >= 0 ==> c.0 - n <= i <= c.0 + n + 1
      invariant n < 0 ==> coords == []
      invariant n >= 0 ==> coords == Columns(c.0 - n, i - (c.0 - n), c.1 - n, w)
      decreases c.0 + n + 1 - i
    {
      var j := c.1 - n;
      ghost var done := coords;
      while j < c.1 + n + 1
        invariant c.1 - n <= j <= c.1 + n + 1
        invariant coords == done + Column(i, c.1 - n, w)[..j - (c.1 - n)]
        decreases c.1 + n + 1 - j
      {
        assert Column(i, c.1 - n, w)[..j + 1 - (c.1 - n)]
            == Column(i, c.1 - n, w)[..j - (c.1 - n)] + [(i, j)];
        coords := coords + [(i, j)];
        j := j + 1;
      }
      assert Column(i, c.1 - n, w)[..j - (c.1 - n)] == Column(i, c.1 - n, w);
      i := i + 1;
    }
  }

  // ---- border ----

  function Elems(s: seq<Coord>): set<Coord> { set p | p in s }

  /** Every cell of the 1-neighbourhoods of the cells of `cs`. */
  function Reach(cs: seq<Coord>): set<Coord>
    decreases |cs|
  {
    if cs == [] then {} else Reach(cs[..|cs| - 1]) + Elems(NeighbourhoodSeq(cs[|cs| - 1], 1))
  }

  lemma {:induction false} ReachMembers(cs: seq<Coord>, p: Coord)
    ensures p in Reach(cs) <==> exists c :: c in cs && Chebyshev(p, c) <= 1
    decreases |cs|
  {
    if cs != [] {
      var last := cs[|cs| - 1];
      ReachMembers(cs[..|cs| - 1], p);
      NeighbourhoodMembers(last, 1);
      assert cs == cs[..|cs| - 1] + [last];
      if exists c :: c in cs && Chebyshev(p, c) <= 1 {
        var c :| c in cs && Chebyshev(p, c) <= 1;
        if c != last {
          assert c in cs[..|cs| - 1];
        }
      }
    }
  }

  /** The cells next to (or diagonal to) some cell of `coords` that are not themselves in `coords`. */
  function BorderSet(coords: seq<Coord>): set<Coord>
  {
    Reach(coords) - Elems(coords)
  }

  /** A border cell touches the region and lies outside it; every such cell is a border cell. */
  lemma BorderMembers(coords: seq<Coord>, p: Coord)
    ensures p in BorderSet(coords) <==>
              p !in coords && exists c :: c in coords && Chebyshev(p, c) <= 1
  {
    ReachMembers(coords, p);
  }

  /** utility.border: the union of the 1-neighbourhoods of `coords`, minus `coords`.
      The source returns the set as a list in hash order; the model returns the set. */
  method Border(coords: seq<Coord>) returns (r: set<Coord>)
    ensures r == BorderSet(coords)
  {
    var borderCoords: seq<Coord> := [];
    var i := 0;
    while i < |coords|
      invariant 0 <= i <= |coords|
      invariant Elems(borderCoords) == Reach(coords[..i])
    {
      var more := Neighbourhood(coords[i], 1);
      assert Elems(borderCoords + more) == Elems(borderCoords) + Elems(more);
      borderCoords := borderCoords + more;
      assert coords[..i + 1][..i] == coords[..i];
      i := i + 1;
    }
    assert coords[..i] == coords;
    r := Elems(borderCoords) - Elems(coords);
  }

  // ---- orthogonal neighbours and wall orientation ----

  /** utility.cardinal_neighbourhood: below, above, right, left (in that order). */
  function CardinalNeighbourhood(c: Coord): (r: seq<Coord>)
    ensures |r| == 4
    ensures forall p :: p in r <==> Manhattan(p, c) == 1
    ensures forall a, b :: 0 <= a < b < 4 ==> r[a] != r[b]
  {
    [(c.0, c.1 + 1), (c.0, c.1 - 1), (c.0 + 1, c.1), (c.0 - 1, c.1)]
  }

  /** utility.wall_direction: '-' when a wall continues to the left or right of the
      chosen cell, '|' otherwise. */
  function WallDirection(walls: set<Coord>, chosen: Coord): (r: char)
    ensures r == '-' || r == '|'
    ensures r == '|' <==> (chosen.0 - 1, chosen.1) !in walls && (chosen.0 + 1, chosen.1) !in walls
  {
    if (chosen.0 - 1, chosen.1) in walls || (chosen.0 + 1, chosen.1) in walls then '-' else '|'
  }

  // ---- row-major ordering, perimeter and corners ----

  /** The order of `sorted(coords, key=itemgetter(1, 0))`: by y, then by x. */
  predicate RowMajorBefore(a: Coord, b: Coord)
  {
    a.1 < b.1 || (a.1 == b.1 && a.0 <= b.0)
  }

  predicate RowMajorSorted(s: seq<Coord>)
  {
    forall i, j :: 0 <= i < j < |s| ==> RowMajorBefore(s[i], s[j])
  }

  function InsertRowMajor(c: Coord, s: seq<Coord>): (r: seq<Coord>)
    ensures |r| == |s| + 1 && multiset(r) == multiset(s) + multiset{c}
    decreases |s|
  {
    if s == [] then [c]
    else if RowMajorBefore(c, s[0]) then [c] + s
    else
      assert s == [s[0]] + s[1..];
      [s[0]] + InsertRowMajor(c, s[1..])
  }

  lemma {:induction false} InsertRowMajorSorted(c: Coord, s: seq<Coord>)
    requires RowMajorSorted(s)
    ensures RowMajorSorted(InsertRowMajor(c, s))
    decreases |s|
  {
    if s != [] && !RowMajorBefore(c, s[0]) {
      InsertRowMajorSorted(c, s[1..]);
      var rest := InsertRowMajor(c, s[1..]);
      assert s == [s[0]] + s[1..];
      forall j | 0 <= j < |rest| ensures RowMajorBefore(s[0], rest[j]) {
        assert rest[j] in multiset(rest);
        if rest[j] != c {
          assert rest[j] in multiset(s[1..]);
          var k :| 0 <= k < |s[1..]| && s[1..][k] == rest[j];
          assert s[k + 1] == rest[j];
        }
      }
    }
  }

  /** A stable sort by (y, x); Python's `sorted` with that key returns the same list. */
  function SortRowMajor(s: seq<Coord>): (r: seq<Coord>)
    ensures |r| == |s| && RowMajorSorted(r) && multiset(r) == multiset(s)
  {
    if s == [] then []
    else
      assert s == [s[0]] + s[1..];
      var rest := SortRowMajor(s[1..]);
      InsertRowMajorSorted(s[0], rest);
      InsertRowMajor(s[0], rest)
  }

  /** utility.perimeter: the cells of `coords` (in row-major order) that share a column
      with the top-left or bottom-right cell, or a row with either of them. Empty
      input raises IndexError in the source; the model returns None. */
  function Perimeter(coords: seq<Coord>): (r: Option<seq<Coord>>)
    ensures r.None? <==> coords == []
    ensures r.Some? ==> RowMajorSorted(r.value)
    ensures r.Some? ==> forall p :: p in r.value <==>
              p in coords &&
              var tl, br := SortRowMajor(coords)[0], SortRowMajor(coords)[|coords| - 1];
              (p.0 == tl.0 || p.0 == br.0 || p.1 == tl.1 || p.1 == br.1)
  {
    if coords == [] then None
    else
      var sorted := SortRowMajor(coords);
      assert |sorted| == |coords| by { assert |multiset(sorted)| == |multiset(coords)|; }
      var tl, br := sorted[0], sorted[|sorted| - 1];
      var kept := OnLines(sorted, tl, br);
      assert forall p :: p in sorted <==> p in coords by {
        forall p ensures p in sorted <==> p in coords {
          assert p in sorted <==> p in multiset(sorted);
          assert p in coords <==> p in multiset(coords);
        }
      }
      Some(kept)
  }

  predicate OnLine(p: Coord, tl: Coord, br: Coord)
  {
    p.0 == tl.0 || p.0 == br.0 || p.1 == tl.1 || p.1 == br.1
  }

  /** The elements of `s` that lie on a line through tl or br, in order. */
  function OnLines(s: seq<Coord>, tl: Coord, br: Coord): (r: seq<Coord>)
    ensures forall p :: p in r <==> p in s && OnLine(p, tl, br)
    ensures RowMajorSorted(s) ==> RowMajorSorted(r)
    ensures forall x :: x in r ==> exists i :: 0 <= i < |s| && s[i] == x
    decreases |s|
  {
    if s == [] then []
    else
      var rest := OnLines(s[1..], tl, br);
      assert forall x :: x in s[1..] ==> x in s;
      if OnLine(s[0], tl, br) then
        assert RowMajorSorted(s) ==> forall x :: x in rest ==> RowMajorBefore(s[0], x) by {
          if RowMajorSorted(s) {
            forall x | x in rest ensures RowMajorBefore(s[0], x) {
              var k :| 0 <= k < |s[1..]| && s[1..][k] == x;
              assert s[k + 1] == x;
            }
          }
        }
        [s[0]] + rest
      else rest
  }

  /** utility.corners: the four corners of the bounding rectangle spanned by the
      first and last cell in row-major order. */
  function Corners(coords: seq<Coord>): (r: Option<set<Coord>>)
    ensures r.None? <==> coords == []
    ensures r.Some? ==>
              var s := SortRowMajor(coords);
              var tl, br := s[0], s[|s| - 1];
              tl in coords && br in coords &&
              (forall p :: p in coords ==> RowMajorBefore(tl, p) && RowMajorBefore(p, br)) &&
              r.value == {tl, (br.0, tl.1), (tl.0, br.1), br}
  {
    if coords == [] then None
    else
      var s := SortRowMajor(coords);
      assert |s| == |coords| by { assert |multiset(s)| == |multiset(coords)|; }
      var tl, br := s[0], s[|s| - 1];
      assert tl in multiset(coords) && br in multiset(coords);
      assert forall p :: p in coords ==> p in s by {
        forall p | p in coords ensures p in s { assert p in multiset(s); }
      }
      Some({tl, (br.0, tl.1), (tl.0, br.1), br})
  }
}
