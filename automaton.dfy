/** utility.CellularAutomaton: a width x height grid of booleans evolved by a
    birth/survival rule such as "3/23" (a dead cell with 3 live neighbours is
    born, a live one with 2 or 3 survives). The source keeps the grid as a flat
    list indexed by `width*y + x`; the model keeps it as a two-dimensional array
    indexed by [x, y]. */
module Automaton {
  import opened Wrappers
  import opened Grid

  predicate IsDigit(c: char) { '0' <= c <= '9' }

  /** `[int(n) for n in s]` for a string of decimal digits; None for the
      ValueError any other character raises. */
  function Digits(s: string): (r: Option<seq<int>>)
    ensures r.Some? <==> forall i :: 0 <= i < |s| ==> IsDigit(s[i])
    ensures r.Some? ==> |r.value| == |s| && forall i :: 0 <= i < |s| ==> r.value[i] == s[i] as int - '0' as int
  {
    if s == [] then Some([])
    else if !IsDigit(s[0]) then None
    else
      match Digits(s[1..])
      case None => None
      case Some(rest) => Some([s[0] as int - '0' as int] + rest)
  }

  /** The position of the first '/' in `s`, if any. */
  function SlashAt(s: string): (r: Option<nat>)
    ensures r.None? <==> '/' !in s
    ensures r.Some? ==> r.value < |s| && s[r.value] == '/' && '/' !in s[..r.value]
  {
    if s == [] then None
    else if s[0] == '/' then Some(0)
    else
      match SlashAt(s[1..])
      case None => None
      case Some(k) => assert s[1..][..k] == s[1..k + 1]; Some(k + 1)
  }

  /** The parse at the top of CellularAutomaton.apply: `rules.split('/')` must give
      exactly two parts (birth counts, then survival counts), each a string of
      digits; anything else raises ValueError, modelled as None. */
  function ParseRules(rules: string): (r: Option<(seq<int>, seq<int>)>)
    ensures r.Some? <==> exists k :: 0 <= k < |rules| && rules[k] == '/'
                          && forall i :: 0 <= i < |rules| && i != k ==> IsDigit(rules[i])
  {
    match SlashAt(rules)
    case None => None
    case Some(k) =>
      var b := Digits(rules[..k]);
      var s := Digits(rules[k + 1..]);
      if b.Some? && s.Some? then
        assert forall i :: 0 <= i < |rules| && i != k ==> IsDigit(rules[i]) by {
          forall i | 0 <= i < |rules| && i != k ensures IsDigit(rules[i]) {
            if i < k { assert rules[..k][i] == rules[i]; } else { assert rules[k + 1..][i - k - 1] == rules[i]; }
          }
        }
        Some((b.value, s.value))
      else
        assert !forall i :: 0 <= i < |rules| && i != k ==> IsDigit(rules[i]) by {
          if b.None? {
            var j :| 0 <= j < k && !IsDigit(rules[..k][j]);
            assert rules[j] == rules[..k][j];
          } else {
            var j :| 0 <= j < |rules| - k - 1 && !IsDigit(rules[k + 1..][j]);
            assert rules[k + 1 + j] == rules[k + 1..][j];
          }
        }
        None
  }

  /** The digits 0..9 written back as characters. */
  function DigitString(ds: seq<int>): (s: string)
    requires forall i :: 0 <= i < |ds| ==> 0 <= ds[i] <= 9
    ensures |s| == |ds|
  {
    if ds == [] then [] else [('0' as int + ds[0]) as char] + DigitString(ds[1..])
  }

  /** Any birth and survival lists of single digits written as "B/S" parse back
      to the same lists. */
  lemma {:induction false} ParseRulesFormat(b: seq<int>, s: seq<int>)
    requires forall i :: 0 <= i < |b| ==> 0 <= b[i] <= 9
    requires forall i :: 0 <= i < |s| ==> 0 <= s[i] <= 9
    ensures ParseRules(DigitString(b) + "/" + DigitString(s)) == Some((b, s))
  {
    var rules := DigitString(b) + "/" + DigitString(s);
    DigitsOfDigitString(b);
    DigitsOfDigitString(s);
    assert rules[..|b|] == DigitString(b);
    assert rules[|b| + 1..] == DigitString(s);
    assert '/' !in DigitString(b) by { DigitStringDigits(b); }
    SlashAtFirst(DigitString(b), DigitString(s));
  }

  lemma {:induction false} DigitStringDigits(ds: seq<int>)
    requires forall i :: 0 <= i < |ds| ==> 0 <= ds[i] <= 9
    ensures forall i :: 0 <= i < |ds| ==> IsDigit(DigitString(ds)[i])
  {
    if ds != [] {
      DigitStringDigits(ds[1..]);
      forall i | 1 <= i < |ds| ensures IsDigit(DigitString(ds)[i]) {
        assert DigitString(ds)[i] == DigitString(ds[1..])[i - 1];
      }
    }
  }

  lemma {:induction false} DigitsOfDigitString(ds: seq<int>)
    requires forall i :: 0 <= i < |ds| ==> 0 <= ds[i] <= 9
    ensures Digits(DigitString(ds)) == Some(ds)
  {
    if ds != [] {
      DigitsOfDigitString(ds[1..]);
      var s := DigitString(ds);
      assert s[1..] == DigitString(ds[1..]);
      assert s[0] == ('0' as int + ds[0]) as char;
      assert IsDigit(s[0]);
      assert [ds[0]] + ds[1..] == ds;
    }
  }

  lemma {:induction false} SlashAtFirst(a: string, b: string)
    requires '/' !in a
    ensures SlashAt(a + "/" + b) == Some(|a|)
  {
    if a != [] {
      assert (a + "/" + b)[1..] == a[1..] + "/" + b;
      SlashAtFirst(a[1..], b);
    }
  }

  /** The cells of a width x height grid in the order CellularAutomaton.cells
      yields them: row by row, x fastest. */
  function RowMajorCells(width: nat, height: nat): (r: seq<Coord>)
    ensures |r| == width * height
  {
    if height == 0 then []
    else RowMajorCells(width, height - 1) + seq(width, x requires 0 <= x < width => (x, height - 1))
  }

  /** `x_y in cells()` holds exactly for the coordinates inside the grid. */
  lemma {:induction false} RowMajorCellsMembers(width: nat, height: nat, p: Coord)
    ensures p in RowMajorCells(width, height) <==> 0 <= p.0 < width && 0 <= p.1 < height
  {
    if height > 0 {
      RowMajorCellsMembers(width, height - 1, p);
      var row := seq(width, x requires 0 <= x < width => (x, height - 1));
      if 0 <= p.0 < width && p.1 == height - 1 {
        assert row[p.0] == p;
      }
    }
  }

  class CellularAutomaton {
    const width: nat
    const height: nat
    const grid: array2<bool>

    ghost predicate Valid()
      reads this
    {
      grid.Length0 == width && grid.Length1 == height
    }

    /** A new automaton has every cell dead. */
    constructor (w: nat, h: nat)
      ensures Valid() && width == w && height == h && fresh(grid)
      ensures forall x, y :: 0 <= x < w && 0 <= y < h ==> !grid[x, y]
    {
      width, height := w, h;
      grid := new bool[w, h]((x, y) => false);
    }

    /** CellularAutomaton.in_bounds. */
    predicate InBounds(c: Coord)
      reads this
    {
      0 <= c.0 < width && 0 <= c.1 < height
    }

    /** CellularAutomaton.__contains__: whether `cells()` yields `c`. */
    function Contains(c: Coord): (r: bool)
      reads this
      ensures r <==> InBounds(c)
    {
      RowMajorCellsMembers(width, height, c);
      c in RowMajorCells(width, height)
    }

    /** CellularAutomaton.__len__. */
    function Length(): (n: nat)
      reads this
      ensures n == |RowMajorCells(width, height)|
    {
      width * height
    }

    /** CellularAutomaton.__getitem__. */
    function Get(c: Coord): bool
      reads this, grid
      requires Valid() && InBounds(c)
    {
      grid[c.0, c.1]
    }

    /** CellularAutomaton.__setitem__ (and __delitem__ with `value` false). */
    method Set(c: Coord, value: bool)
      requires Valid() && InBounds(c)
      modifies grid
      ensures grid[c.0, c.1] == value
      ensures forall x, y :: 0 <= x < width && 0 <= y < height && (x, y) != c ==> grid[x, y] == old(grid[x, y])
    {
      grid[c.0, c.1] := value;
    }

    /** What neighbour `p` adds to a count: 1 for a live cell inside the grid,
        `boundary` (True counting as 1) for a cell outside it. */
    function CellValue(p: Coord, boundary: bool): nat
      reads this, grid
      requires Valid()
    {
      if InBounds(p) then (if grid[p.0, p.1] then 1 else 0) else (if boundary then 1 else 0)
    }

    /** `sum(self[n] if self.in_bounds(n) else boundary for n in ns)`. */
    function SumLive(ns: seq<Coord>, boundary: bool): nat
      reads this, grid
      requires Valid()
    {
      if ns == [] then 0 else CellValue(ns[0], boundary) + SumLive(ns[1..], boundary)
    }

    /** The neighbour count apply computes for `c`: the 3x3 neighbourhood with
        `c` itself removed. */
    function Count(c: Coord, boundary: bool): nat
      reads this, grid
      requires Valid()
    {
      SumLive(RemoveFirst(NeighbourhoodSeq(c, 1), c), boundary)
    }

    ghost function LiveIn(ns: seq<Coord>): set<Coord>
      reads this, grid
      requires Valid()
    {
      set p | p in ns && InBounds(p) && grid[p.0, p.1]
    }

    ghost function OutsideIn(ns: seq<Coord>): set<Coord>
      reads this
    {
      set p | p in ns && !InBounds(p)
    }

    lemma {:induction false} SumLiveCounts(ns: seq<Coord>, boundary: bool)
      requires Valid() && Distinct(ns)
      ensures SumLive(ns, boundary) == |LiveIn(ns)| + (if boundary then |OutsideIn(ns)| else 0)
    {
      if ns != [] {
        var a, rest := ns[0], ns[1..];
        assert Distinct(rest);
        SumLiveCounts(rest, boundary);
        assert a !in rest;
        if InBounds(a) && grid[a.0, a.1] {
          assert LiveIn(ns) == {a} + LiveIn(rest);
        } else {
          assert LiveIn(ns) == LiveIn(rest);
        }
        if !InBounds(a) {
          assert OutsideIn(ns) == {a} + OutsideIn(rest);
        } else {
          assert OutsideIn(ns) == OutsideIn(rest);
        }
      }
    }

    /** The count apply uses is the number of live cells at Chebyshev distance 1
        inside the grid, plus, when `boundary` is True, the number of such cells
        outside the grid. */
    lemma CountMeaning(c: Coord, boundary: bool)
      requires Valid()
      ensures Count(c, boundary)
              == |set p | p in NeighbourhoodSeq(c, 1) && Chebyshev(p, c) == 1 && InBounds(p) && grid[p.0, p.1]|
                 + (if boundary then |set p | p in NeighbourhoodSeq(c, 1) && Chebyshev(p, c) == 1 && !InBounds(p)| else 0)
    {
      var ns := NeighbourhoodSeq(c, 1);
      NeighbourhoodMembers(c, 1);
      var rs := RemoveFirst(ns, c);
      SumLiveCounts(rs, boundary);
      assert forall p :: p in rs <==> p in ns && Chebyshev(p, c) == 1 by {
        forall p ensures p in rs <==> p in ns && Chebyshev(p, c) == 1 {
          if p != c {
            assert p in rs <==> p in ns;
          }
        }
      }
      assert LiveIn(rs) == set p | p in ns && Chebyshev(p, c) == 1 && InBounds(p) && grid[p.0, p.1];
      assert OutsideIn(rs) == set p | p in ns && Chebyshev(p, c) == 1 && !InBounds(p);
    }

    /** A dead cell whose count is in the birth list. */
    predicate Born(c: Coord, birth: seq<int>, boundary: bool)
      reads this, grid
      requires Valid() && InBounds(c)
    {
      !grid[c.0, c.1] && Count(c, boundary) in birth
    }

    /** A live cell whose count is not in the survival list. */
    predicate Dies(c: Coord, survive: seq<int>, boundary: bool)
      reads this, grid
      requires Valid() && InBounds(c)
    {
      grid[c.0, c.1] && Count(c, boundary) !in survive
    }

    /** The state of cell `c` one generation on. */
    predicate Next(c: Coord, birth: seq<int>, survive: seq<int>, boundary: bool)
      reads this, grid
      requires Valid() && InBounds(c)
    {
      if Born(c, birth, boundary) then true
      else if Dies(c, survive, boundary) then false
      else grid[c.0, c.1]
    }

    /** Every cell is its own successor: another generation changes nothing. */
    predicate Stable(birth: seq<int>, survive: seq<int>, boundary: bool)
      reads this, grid
      requires Valid()
    {
      forall x, y :: 0 <= x < width && 0 <= y < height ==> Next((x, y), birth, survive, boundary) == grid[x, y]
    }

    /** A generation is stable exactly when no cell is born and none dies. */
    lemma StableIffQuiet(birth: seq<int>, survive: seq<int>, boundary: bool)
      requires Valid()
      ensures Stable(birth, survive, boundary) <==>
              forall p :: InBounds(p) ==> !Born(p, birth, boundary) && !Dies(p, survive, boundary)
    {
      if Stable(birth, survive, boundary) {
        forall p | InBounds(p) ensures !Born(p, birth, boundary) && !Dies(p, survive, boundary) {
          assert Next((p.0, p.1), birth, survive, boundary) == grid[p.0, p.1];
        }
      }
    }

    /** CellularAutomaton.seed, with the random draw `rng.random() < density` for
        each cell supplied by the oracle `coin`. */
    method Seed(coin: Coord -> bool)
      requires Valid()
      modifies grid
      ensures forall x, y :: 0 <= x < width && 0 <= y < height ==> grid[x, y] == coin((x, y))
    {
      var y := 0;
      while y < height
        invariant 0 <= y <= height
        invariant forall i, j :: 0 <= i < width && 0 <= j < y ==> grid[i, j] == coin((i, j))
      {
        var x := 0;
        while x < width
          invariant 0 <= x <= width
          invariant forall i, j :: 0 <= i < width && 0 <= j < y ==> grid[i, j] == coin((i, j))
          invariant forall i :: 0 <= i < x ==> grid[i, y] == coin((i, y))
        {
          grid[x, y] := coin((x, y));
          x := x + 1;
        }
        y := y + 1;
      }
    }

    /** The count apply computes for `c`, as the source does: the 3x3
        neighbourhood, `c` removed, summed. */
    method CountAt(c: Coord, boundary: bool) returns (number: nat)
      requires Valid()
      ensures number == Count(c, boundary)
    {
      var neighbours := Neighbourhood(c, 1);
      neighbours := RemoveFirst(neighbours, c);
      number := SumLive(neighbours, boundary);
    }

    /** Set every cell of `cells` to `value`, one at a time. */
    method Fill(cells: set<Coord>, value: bool)
      requires Valid() && forall c :: c in cells ==> InBounds(c)
      modifies grid
      ensures forall i, j :: 0 <= i < width && 0 <= j < height ==>
                grid[i, j] == if (i, j) in cells then value else old(grid[i, j])
      ensures cells == {} ==> unchanged(grid)
    {
      var todo := cells;
      while todo != {}
        invariant todo <= cells
        invariant forall i, j :: 0 <= i < width && 0 <= j < height ==>
                    grid[i, j] == if (i, j) in cells - todo then value else old(grid[i, j])
        invariant cells - todo == {} ==> unchanged(grid)
        decreases todo
      {
        var c :| c in todo;
        grid[c.0, c.1] := value;
        todo := todo - {c};
      }
    }

    /** The second pass of apply: the collected births are written, then the
        collected deaths; every other cell keeps its value. */
    method Commit(willBirth: set<Coord>, willDie: set<Coord>)
      requires Valid() && forall c :: c in willBirth + willDie ==> InBounds(c)
      modifies grid
      ensures forall i, j :: 0 <= i < width && 0 <= j < height ==>
                grid[i, j] == if (i, j) in willDie then false else if (i, j) in willBirth then true else old(grid[i, j])
      ensures willBirth == {} && willDie == {} ==> unchanged(grid)
    {
      Fill(willBirth, true);
      Fill(willDie, false);
    }

    /** Row `y` of the first pass of apply: its cells to be born and to die
        are added to those of the rows above. */
    method ScanRow(y: int, birth: seq<int>, survive: seq<int>, boundary: bool, born: set<Coord>, dying: set<Coord>)
      returns (willBirth: set<Coord>, willDie: set<Coord>)
      requires Valid() && 0 <= y < height
      requires forall p :: p in born <==> InBounds(p) && p.1 < y && Born(p, birth, boundary)
      requires forall p :: p in dying <==> InBounds(p) && p.1 < y && Dies(p, survive, boundary)
      ensures forall p :: p in willBirth <==> InBounds(p) && p.1 < y + 1 && Born(p, birth, boundary)
      ensures forall p :: p in willDie <==> InBounds(p) && p.1 < y + 1 && Dies(p, survive, boundary)
    {
      willBirth, willDie := born, dying;
      var x := 0;
      while x < width
        invariant 0 <= x <= width
        invariant forall p :: p in willBirth <==>
                    InBounds(p) && (p.1 < y || (p.1 == y && p.0 < x)) && Born(p, birth, boundary)
        invariant forall p :: p in willDie <==>
                    InBounds(p) && (p.1 < y || (p.1 == y && p.0 < x)) && Dies(p, survive, boundary)
      {
        var alive := grid[x, y];
        var number := CountAt((x, y), boundary);
        assert Born((x, y), birth, boundary) <==> !alive && number in birth;
        assert Dies((x, y), survive, boundary) <==> alive && number !in survive;
        if !alive && number in birth {
          willBirth := willBirth + {(x, y)};
        } else if alive && number !in survive {
          willDie := willDie + {(x, y)};
        }
        x := x + 1;
      }
    }

    /** The first pass of apply: the cells to be born and the cells to die, all
        judged on the current generation. */
    method Scan(birth: seq<int>, survive: seq<int>, boundary: bool) returns (willBirth: set<Coord>, willDie: set<Coord>)
      requires Valid()
      ensures forall p :: p in willBirth <==> InBounds(p) && Born(p, birth, boundary)
      ensures forall p :: p in willDie <==> InBounds(p) && Dies(p, survive, boundary)
      ensures willBirth == {} && willDie == {} <==> Stable(birth, survive, boundary)
    {
      willBirth, willDie := {}, {};
      var y := 0;
      while y < height
        invariant 0 <= y <= height
        invariant forall p :: p in willBirth <==> InBounds(p) && p.1 < y && Born(p, birth, boundary)
        invariant forall p :: p in willDie <==> InBounds(p) && p.1 < y && Dies(p, survive, boundary)
      {
        willBirth, willDie := ScanRow(y, birth, survive, boundary, willBirth, willDie);
        y := y + 1;
      }
      StableIffQuiet(birth, survive, boundary);
      if willBirth != {} {
        var p :| p in willBirth;
        assert InBounds(p) && Born(p, birth, boundary);
      }
      if willDie != {} {
        var p :| p in willDie;
        assert InBounds(p) && Dies(p, survive, boundary);
      }
    }

    /** CellularAutomaton.apply: every cell's count is taken on the current
        generation, the births and deaths are collected, and only then written.
        Returns whether any cell changed; None (grid untouched) when the rules do
        not parse. */
    method Apply(rules: string, boundary: bool) returns (live: Option<bool>)
      requires Valid()
      modifies grid
      ensures live.None? <==> ParseRules(rules).None?
      ensures live.None? ==> unchanged(grid)
      ensures live.Some? ==>
                var (birth, survive) := ParseRules(rules).value;
                forall x, y :: 0 <= x < width && 0 <= y < height ==>
                  grid[x, y] == old(Next((x, y), birth, survive, boundary))
      ensures live.Some? ==>
                var (birth, survive) := ParseRules(rules).value;
                (live.value <==> !old(Stable(birth, survive, boundary)))
      ensures live == Some(false) ==> unchanged(grid)
    {
      var parsed := ParseRules(rules);
      live := None;
      if parsed.Some? {
        var (birth, survive) := parsed.value;
        var willBirth, willDie := Scan(birth, survive, boundary);
        var changed := willBirth != {} || willDie != {};
        Commit(willBirth, willDie);
        forall x, y | 0 <= x < width && 0 <= y < height
          ensures grid[x, y] == old(Next((x, y), birth, survive, boundary))
        {
          assert (x, y) in willBirth <==> old(Born((x, y), birth, boundary));
          assert (x, y) in willDie <==> old(Dies((x, y), survive, boundary));
        }
        live := Some(changed);
      }
    }

    /** CellularAutomaton.converge: apply the rules until a generation changes
        nothing or `maxTicks` generations have been applied. Returns false for the
        ValueError of unparsable rules (raised on the first generation). When it
        stops before `maxTicks` generations the grid is stable. */
    method Converge(rules: string, maxTicks: int, boundary: bool) returns (ok: bool, ghost ticks: int)
      requires Valid()
      modifies grid
      ensures ok <==> ParseRules(rules).Some? || maxTicks <= 0
      ensures !ok ==> unchanged(grid)
      ensures ok ==> 0 <= ticks && (maxTicks >= 0 ==> ticks <= maxTicks)
      ensures ok && ticks < maxTicks ==>
                var (birth, survive) := ParseRules(rules).value;
                Stable(birth, survive, boundary)
    {
      var live := true;
      var t := 0;
      ticks := 0;
      while live && t < maxTicks
        invariant ticks == t && 0 <= t && (maxTicks >= 0 ==> t <= maxTicks)
        invariant t == 0 ==> unchanged(grid)
        invariant t > 0 ==> ParseRules(rules).Some?
        invariant !live ==> ParseRules(rules).Some?
        invariant !live ==> var (birth, survive) := ParseRules(rules).value;
                            Stable(birth, survive, boundary)
        decreases maxTicks - t
      {
        t := t + 1;
        ticks := t;
        var r := Apply(rules, boundary);
        if r.None? {
          return false, t;
        }
        live := r.value;
      }
      ok := true;
    }
  }
}
