/** src/whiteshoe/level.py: the text level format and the conversion of a
    generated map into a level. A level text is read row by row: `#` rows are
    directives (a `# Z n` row switches the z level), other non-empty rows are
    map rows whose characters are symbols at (x, y, z). Each symbol becomes
    one or two entities, each with a fresh id; stairs also get a state entry
    with their direction flag. */
module Level {
  import opened Wrappers
  import opened Maps

  /** A level and the extra state of some of its entities (their flags). */
  datatype Loaded = Loaded(level: map<Coord3, seq<LEntity>>, state: map<int, seq<string>>, nextId: int)

  // ---- rows ----

  /** `s.split("\n")`: the pieces between newlines, empty ones included. */
  function SplitLines(s: string): (r: seq<string>)
    ensures |r| >= 1
    ensures forall k :: 0 <= k < |r| ==> '\n' !in r[k]
    decreases |s|
  {
    if '\n' !in s then [s]
    else
      var i := FirstNewline(s);
      [s[..i]] + SplitLines(s[i + 1..])
  }

  function FirstNewline(s: string): (i: nat)
    requires '\n' in s
    ensures i < |s| && s[i] == '\n' && '\n' !in s[..i]
  {
    if s[0] == '\n' then 0
    else
      var j := FirstNewline(s[1..]);
      assert s[..j + 1] == [s[0]] + s[1..][..j];
      j + 1
  }

  /** Joining the pieces with newlines gives the text back. */
  lemma {:induction false} SplitJoin(s: string)
    ensures Join(SplitLines(s)) == s
    decreases |s|
  {
    if '\n' in s {
      var i := FirstNewline(s);
      SplitJoin(s[i + 1..]);
      var rest := SplitLines(s[i + 1..]);
      assert SplitLines(s) == [s[..i]] + rest;
      assert ([s[..i]] + rest)[1..] == rest;
      assert s == s[..i] + "\n" + s[i + 1..];
    }
  }

  /** The characters `str.strip()` removes. */
  predicate IsSpace(c: char)
  {
    c == ' ' || c == '\t' || c == '\n' || c == '\r' || c == '\U{0B}' || c == '\U{0C}'
  }

  /** `str.strip()`. */
  function Strip(s: string): (r: string)
    ensures |r| <= |s|
    ensures r != [] ==> !IsSpace(r[0]) && !IsSpace(r[|r| - 1])
    ensures s != [] && !IsSpace(s[0]) && !IsSpace(s[|s| - 1]) ==> r == s
    decreases |s|
  {
    if s == [] then s
    else if IsSpace(s[0]) then Strip(s[1..])
    else if IsSpace(s[|s| - 1]) then Strip(s[..|s| - 1])
    else s
  }

  /** `strip()` removes exactly the longest all-whitespace prefix and suffix:
      the result is the slice between them, and that slice is empty or has
      no whitespace at either end. */
  lemma {:induction false} StripIsTrim(s: string) returns (i: nat, j: nat)
    ensures i <= j <= |s| && Strip(s) == s[i..j]
    ensures forall k :: 0 <= k < i ==> IsSpace(s[k])
    ensures forall k :: j <= k < |s| ==> IsSpace(s[k])
    ensures i < j ==> !IsSpace(s[i]) && !IsSpace(s[j - 1])
    decreases |s|
  {
    if s == [] {
      i, j := 0, 0;
    } else if IsSpace(s[0]) {
      var i', j' := StripIsTrim(s[1..]);
      i, j := i' + 1, j' + 1;
      assert s[1..][i'..j'] == s[i..j];
      forall k | 0 <= k < i ensures IsSpace(s[k]) {
        if k > 0 { assert s[k] == s[1..][k - 1]; }
      }
      forall k | j <= k < |s| ensures IsSpace(s[k]) {
        assert s[k] == s[1..][k - 1];
      }
    } else if IsSpace(s[|s| - 1]) {
      var t := s[..|s| - 1];
      i, j := StripIsTrim(t);
      assert t[i..j] == s[i..j];
      forall k | j <= k < |s| ensures IsSpace(s[k]) {
        if k < |s| - 1 { assert s[k] == t[k]; }
      }
    } else {
      i, j := 0, |s|;
      assert s[0..|s|] == s;
    }
  }

  predicate IsDigit(c: char) { '0' <= c <= '9' }

  /** The length of the run of digits at the start of `s`. */
  function DigitRun(s: string): (n: nat)
    ensures n <= |s| && forall k :: 0 <= k < n ==> IsDigit(s[k])
    ensures n < |s| ==> !IsDigit(s[n])
  {
    if s == [] || !IsDigit(s[0]) then 0 else 1 + DigitRun(s[1..])
  }

  /** `int(ds)` for a string of decimal digits. */
  function DigitsValue(ds: string): nat
    requires forall k :: 0 <= k < |ds| ==> IsDigit(ds[k])
  {
    if ds == [] then 0
    else
      var last := ds[|ds| - 1];
      assert IsDigit(last);
      10 * DigitsValue(ds[..|ds| - 1]) + (last as int - '0' as int)
  }

  /** `re.match("Z (-?\d+)", s, re.IGNORECASE)` and `int` of its group: a
      `Z` of either case, one space, an optional minus and the longest run of
      digits that follows; whatever comes after is ignored. None where the
      pattern does not match. */
  function ZArg(s: string): (r: Option<int>)
    ensures r.Some? <==> ZShaped(s)
    ensures r.Some? && r.value < 0 ==> s[2] == '-'
  {
    if |s| < 3 || !(s[0] == 'Z' || s[0] == 'z') || s[1] != ' ' then None
    else if s[2] == '-' then
      var n := DigitRun(s[3..]);
      var v: int := DigitsValue(s[3..][..n]);
      if n == 0 then None else Some(-v)
    else
      var n := DigitRun(s[2..]);
      if n == 0 then None else Some(DigitsValue(s[2..][..n]))
  }

  /** The shape `Z -?\d+` at the start of `s`: a `Z` of either case, one
      space, an optional minus and at least one digit. */
  predicate ZShaped(s: string)
  {
    && |s| >= 3 && (s[0] == 'Z' || s[0] == 'z') && s[1] == ' '
    && var k := if s[2] == '-' then 3 else 2;
       k < |s| && IsDigit(s[k])
  }

  /** The decimal digits of n, without leading zeros. */
  function ShowNat(n: nat): (r: string)
    ensures r != [] && forall k :: 0 <= k < |r| ==> IsDigit(r[k])
  {
    var d := ['0' + (n % 10) as char];
    if n < 10 then d else ShowNat(n / 10) + d
  }

  /** Reading back the decimal digits of n gives n. */
  lemma {:induction false} ShowNatValue(n: nat)
    ensures DigitsValue(ShowNat(n)) == n
  {
    var d := ShowNat(n);
    if n >= 10 {
      ShowNatValue(n / 10);
      assert d[..|d| - 1] == ShowNat(n / 10);
    }
  }

  /** The run of digits at the front of `ds + rest` is `ds`, when `rest` does not
      start with a digit. */
  lemma {:induction false} DigitRunOf(ds: string, rest: string)
    requires forall k :: 0 <= k < |ds| ==> IsDigit(ds[k])
    requires rest == [] || !IsDigit(rest[0])
    ensures DigitRun(ds + rest) == |ds|
    decreases |ds|
  {
    if ds != [] {
      DigitRunOf(ds[1..], rest);
      assert (ds + rest)[1..] == ds[1..] + rest;
    }
  }

  /** A z directive written with the decimal digits of z, and followed by
      anything that is not a digit, is read back as z. */
  lemma ZArgReadsBack(z: int, rest: string)
    requires rest == [] || !IsDigit(rest[0])
    ensures ZArg("Z " + (if z < 0 then "-" else "") + ShowNat(if z < 0 then -z else z) + rest) == Some(z)
  {
    var ds := ShowNat(if z < 0 then -z else z);
    var sign := if z < 0 then "-" else "";
    var s := "Z " + sign + ds + rest;
    var t := ds + rest;
    assert s[|sign| + 2..] == t;
    DigitRunOf(ds, rest);
    assert t[..|ds|] == ds;
    ShowNatValue(if z < 0 then -z else z);
    if z < 0 {
      assert s[2] == '-' && s[3..] == t;
    } else {
      assert s[2] == ds[0] && s[2..] == t;
    }
  }

  /** What a row of level text is. */
  datatype Row = Blank | Directive(text: string) | ZLevel(z: int) | MapRow(symbols: string)

  function Classify(row: string): (r: Row)
    ensures r.MapRow? <==> row != [] && row[0] != '#'
    ensures r.MapRow? ==> r.symbols == row
    ensures r.Blank? <==> row == []
  {
    if row == [] then Blank
    else if row[0] == '#' then
      var stripped := Strip(row[1..]);
      match ZArg(stripped)
      case Some(z) => ZLevel(z)
      case None => Directive(stripped)
    else MapRow(row)
  }

  /** A `##` comment is kept among the directives like any other `#` row
      that is not a z directive. */
  lemma CommentIsDirective(row: string)
    requires |row| >= 2 && row[0] == '#' && row[1] == '#'
    ensures Classify(row) == Directive(Strip(row[1..]))
  {
    var s := row[1..];
    assert !IsSpace(s[0]);
    StripKeepsFirst(s);
  }

  lemma {:induction false} StripKeepsFirst(s: string)
    requires s != [] && !IsSpace(s[0])
    ensures Strip(s) != [] && Strip(s)[0] == s[0]
    decreases |s|
  {
    if IsSpace(s[|s| - 1]) {
      assert |s| > 1;
      StripKeepsFirst(s[..|s| - 1]);
    }
  }

  // ---- the row pass of load_from_string ----

  /** The state of the row pass: the symbols so far (`d`, in insertion
      order), the directives, and the current `y` and `z`. */
  datatype Parsed = Parsed(cells: seq<(Coord3, char)>, directives: seq<string>, y: int, z: int)

  /** The characters of one map row at row `y` of level `z`. */
  function RowCells(symbols: string, y: int, z: int): (r: seq<(Coord3, char)>)
    ensures |r| == |symbols|
    ensures forall x :: 0 <= x < |r| ==> r[x] == ((x, y, z), symbols[x])
  {
    seq(|symbols|, x requires 0 <= x < |symbols| => ((x, y, z), symbols[x]))
  }

  /** One row of the loop. */
  function Step(p: Parsed, row: string): Parsed
  {
    match Classify(row)
    case Blank => p
    case Directive(t) => p.(directives := p.directives + [t])
    case ZLevel(z) => p.(z := z)
    case MapRow(symbols) => p.(cells := p.cells + RowCells(symbols, p.y, p.z), y := p.y + 1)
  }

  /** The row pass over `rows`, from y = 0 and z = 0. */
  function Parse(rows: seq<string>): Parsed
  {
    if rows == [] then Parsed([], [], 0, 0)
    else Step(Parse(rows[..|rows| - 1]), rows[|rows| - 1])
  }

  /** The map rows among `rows`, in order. */
  function MapRows(rows: seq<string>): seq<string>
  {
    if rows == [] then []
    else MapRows(rows[..|rows| - 1]) + (if Classify(rows[|rows| - 1]).MapRow? then [rows[|rows| - 1]] else [])
  }

  /** The z level in force after `rows`. */
  function ZAfter(rows: seq<string>): int
  {
    if rows == [] then 0
    else match Classify(rows[|rows| - 1])
      case ZLevel(z) => z
      case _ => ZAfter(rows[..|rows| - 1])
  }

  /** `y` counts only the map rows (blank and `#` rows never advance it),
      and `z` is the last z directive. */
  lemma {:induction false} ParseCounts(rows: seq<string>)
    ensures Parse(rows).y == |MapRows(rows)| && Parse(rows).z == ZAfter(rows)
  {
    if rows != [] {
      ParseCounts(rows[..|rows| - 1]);
    }
  }

  /** Every symbol recorded at (x, y, z) is the character at column x of the
      y-th map row. */
  lemma {:induction false} ParseCellsFrom(rows: seq<string>)
    ensures forall k :: 0 <= k < |Parse(rows).cells| ==>
      var e := Parse(rows).cells[k];
      0 <= e.0.1 < |MapRows(rows)| && 0 <= e.0.0 < |MapRows(rows)[e.0.1]| && e.1 == MapRows(rows)[e.0.1][e.0.0]
  {
    if rows != [] {
      var init, row := rows[..|rows| - 1], rows[|rows| - 1];
      ParseCellsFrom(init);
      ParseCounts(init);
      var p := Parse(init);
      if Classify(row).MapRow? {
        var all := p.cells + RowCells(row, p.y, p.z);
        assert MapRows(rows) == MapRows(init) + [row];
        forall k | 0 <= k < |all|
          ensures var e := all[k];
            0 <= e.0.1 < |MapRows(rows)| && 0 <= e.0.0 < |MapRows(rows)[e.0.1]| && e.1 == MapRows(rows)[e.0.1][e.0.0]
        {
          if k < |p.cells| {
            assert all[k] == p.cells[k];
          }
        }
      }
    }
  }

  /** The number of characters in `rs`. */
  function Chars(rs: seq<string>): nat
  {
    if rs == [] then 0 else Chars(rs[..|rs| - 1]) + |rs[|rs| - 1]|
  }

  /** Where the character at column x of the y-th row of `rs` lands when
      the rows are read in order. */
  function Pos(rs: seq<string>, y: nat, x: int): int
    requires y <= |rs|
  {
    Chars(rs[..y]) + x
  }

  /** `cells` records the characters of `rs` in reading order: the
      character at column x of row y sits at position `Pos(rs, y, x)` with
      coordinates (x, y), and nothing else is recorded. */
  predicate Covers(cells: seq<(Coord3, char)>, rs: seq<string>)
  {
    |cells| == Chars(rs)
    && forall y: nat, x :: y < |rs| && 0 <= x < |rs[y]| ==>
      0 <= Pos(rs, y, x) < |cells|
      && cells[Pos(rs, y, x)].0.0 == x && cells[Pos(rs, y, x)].0.1 == y
      && cells[Pos(rs, y, x)].1 == rs[y][x]
  }

  /** Appending a row's characters to a record of the earlier rows records
      them all. */
  lemma CoversAppend(cells: seq<(Coord3, char)>, rs: seq<string>, row: string, z: int)
    requires Covers(cells, rs)
    ensures Covers(cells + RowCells(row, |rs|, z), rs + [row])
  {
    var all := cells + RowCells(row, |rs|, z);
    var after := rs + [row];
    assert after[..|after| - 1] == rs;
    forall y: nat, x | y < |after| && 0 <= x < |after[y]|
      ensures 0 <= Pos(after, y, x) < |all|
      ensures all[Pos(after, y, x)].0.0 == x && all[Pos(after, y, x)].0.1 == y
      ensures all[Pos(after, y, x)].1 == after[y][x]
    {
      if y < |rs| {
        assert after[..y] == rs[..y] && after[y] == rs[y];
        assert Pos(after, y, x) == Pos(rs, y, x);
      } else {
        assert after[..y] == rs;
        assert all[|cells| + x] == RowCells(row, |rs|, z)[x];
      }
    }
  }

  /** Every character of every map row is recorded, in reading order. */
  lemma {:induction false} ParseCellsCover(rows: seq<string>)
    ensures Covers(Parse(rows).cells, MapRows(rows))
  {
    if rows != [] {
      var init, row := rows[..|rows| - 1], rows[|rows| - 1];
      ParseCellsCover(init);
      ParseCounts(init);
      if Classify(row).MapRow? {
        CoversAppend(Parse(init).cells, MapRows(init), row, Parse(init).z);
        assert MapRows(rows) == MapRows(init) + [row];
        assert Parse(rows).cells == Parse(init).cells + RowCells(row, |MapRows(init)|, Parse(init).z);
      } else {
        assert MapRows(rows) == MapRows(init) && Parse(rows).cells == Parse(init).cells;
      }
    }
  }

  /** No coordinate is recorded twice: `d` has one entry per character. */
  lemma {:induction false} ParseCellsDistinct(rows: seq<string>)
    ensures forall i, j :: 0 <= i < j < |Parse(rows).cells| ==> Parse(rows).cells[i].0 != Parse(rows).cells[j].0
  {
    if rows != [] {
      var init, row := rows[..|rows| - 1], rows[|rows| - 1];
      ParseCellsDistinct(init);
      ParseCellsFrom(init);
      ParseCounts(init);
      var p := Parse(init);
      if Classify(row).MapRow? {
        var added := RowCells(row, p.y, p.z);
        var all := p.cells + added;
        forall i, j | 0 <= i < j < |all|
          ensures all[i].0 != all[j].0
        {
          if j >= |p.cells| {
            assert all[j] == added[j - |p.cells|];
            if i >= |p.cells| {
              assert all[i] == added[i - |p.cells|];
            } else {
              assert all[i] == p.cells[i] && all[i].0.1 < p.y;
            }
          } else {
            assert all[i] == p.cells[i] && all[j] == p.cells[j];
          }
        }
      }
    }
  }

  // ---- the entity pass of load_from_string ----

  /** The entities one symbol becomes, `id` being the id drawn for it: '.'
      floor, '}' pool, ' ' solid rock, '<' and '>' a floor (with the next
      id) under a stair, anything else `unknown`. */
  function EntitiesFor(symbol: char, id: int): (r: seq<LEntity>)
    ensures r != [] && r[|r| - 1].id == id
  {
    if symbol == '.' then [LEntity(id, "floor")]
    else if symbol == '}' then [LEntity(id, "pool")]
    else if symbol == ' ' then [LEntity(id, "solidrock")]
    else if symbol == '<' || symbol == '>' then [LEntity(id + 1, "floor"), LEntity(id, "stair")]
    else [LEntity(id, "unknown")]
  }

  function IdsUsed(symbol: char): nat
  {
    if symbol == '<' || symbol == '>' then 2 else 1
  }

  /** The entity pass over the entries `cells` of `d`, in the order the dict
      yields them, ids drawn consecutively from `next`. */
  function Build(cells: seq<(Coord3, char)>, next: int): Loaded
  {
    if cells == [] then Loaded(map[], map[], next)
    else
      var before := Build(cells[..|cells| - 1], next);
      var (c, symbol) := cells[|cells| - 1];
      var id := before.nextId;
      Loaded(before.level[c := EntitiesFor(symbol, id)],
             if symbol == '<' then before.state[id := ["up"]]
             else if symbol == '>' then before.state[id := ["down"]]
             else before.state,
             id + IdsUsed(symbol))
  }

  /** The flags of entity `id`, none when it has no state entry. */
  function Flags(state: map<int, seq<string>>, id: int): seq<string>
  {
    if id in state then state[id] else []
  }

  /** The ids the symbols `cells` use up. */
  function IdsBefore(cells: seq<(Coord3, char)>): nat
  {
    if cells == [] then 0 else IdsBefore(cells[..|cells| - 1]) + IdsUsed(cells[|cells| - 1].1)
  }

  lemma {:induction false} IdsBeforeGrow(cells: seq<(Coord3, char)>, k: nat)
    requires k < |cells|
    ensures IdsBefore(cells[..k]) + IdsUsed(cells[k].1) <= IdsBefore(cells)
  {
    if k < |cells| - 1 {
      IdsBeforeGrow(cells[..|cells| - 1], k);
      assert cells[..|cells| - 1][..k] == cells[..k];
    } else {
      assert cells[..|cells| - 1] == cells[..k];
    }
  }

  /** The recorded coordinates are the keys of the level. */
  lemma {:induction false} BuildKeys(cells: seq<(Coord3, char)>, next: int)
    ensures Build(cells, next).level.Keys == set e | e in cells :: e.0
  {
    if cells != [] {
      BuildKeys(cells[..|cells| - 1], next);
      assert cells == cells[..|cells| - 1] + [cells[|cells| - 1]];
    }
  }

  /** The ids drawn are `IdsBefore` many, from `next` on, and only drawn ids
      get a state entry. */
  lemma {:induction false} BuildIds(cells: seq<(Coord3, char)>, next: int)
    ensures Build(cells, next).nextId == next + IdsBefore(cells)
    ensures forall id :: id in Build(cells, next).state ==> next <= id < Build(cells, next).nextId
  {
    if cells != [] {
      BuildIds(cells[..|cells| - 1], next);
    }
  }

  /** Each recorded symbol becomes its own entities, the last of them with
      the id drawn for it; a stair's id has a state entry holding `up` or
      `down`. */
  lemma {:induction false} BuildAt(cells: seq<(Coord3, char)>, next: int, k: nat)
    requires forall i, j :: 0 <= i < j < |cells| ==> cells[i].0 != cells[j].0
    requires k < |cells|
    ensures cells[k].0 in Build(cells, next).level
    ensures Build(cells, next).level[cells[k].0] == EntitiesFor(cells[k].1, next + IdsBefore(cells[..k]))
  {
    var init, last := cells[..|cells| - 1], cells[|cells| - 1];
    var before := Build(init, next);
    assert Build(cells, next).level == before.level[last.0 := EntitiesFor(last.1, before.nextId)];
    if k < |cells| - 1 {
      BuildAt(init, next, k);
      assert init[..k] == cells[..k] && init[k] == cells[k];
      assert last.0 != cells[k].0;
    } else {
      BuildIds(init, next);
      assert init == cells[..k];
    }
  }

  /** The id drawn for a stair carries its direction flag. */
  lemma {:induction false} BuildFlagsAt(cells: seq<(Coord3, char)>, next: int, k: nat)
    requires k < |cells|
    ensures cells[k].1 == '<' ==> Flags(Build(cells, next).state, next + IdsBefore(cells[..k])) == ["up"]
    ensures cells[k].1 == '>' ==> Flags(Build(cells, next).state, next + IdsBefore(cells[..k])) == ["down"]
  {
    var init := cells[..|cells| - 1];
    BuildIds(init, next);
    if k < |cells| - 1 {
      BuildFlagsAt(init, next, k);
      assert init[..k] == cells[..k] && init[k] == cells[k];
      IdsBeforeGrow(init, k);
    } else {
      assert init == cells[..k];
    }
  }

  /** The dict `d` the row pass fills: each recorded symbol at its
      coordinate, a later one replacing an earlier one. */
  function Symbols(cells: seq<(Coord3, char)>): map<Coord3, char>
  {
    if cells == [] then map[]
    else Symbols(cells[..|cells| - 1])[cells[|cells| - 1].0 := cells[|cells| - 1].1]
  }

  /** The keys of `d` are the recorded coordinates. */
  lemma {:induction false} SymbolsKeys(cells: seq<(Coord3, char)>)
    ensures Symbols(cells).Keys == set e | e in cells :: e.0
  {
    if cells != [] {
      SymbolsKeys(cells[..|cells| - 1]);
      assert cells == cells[..|cells| - 1] + [cells[|cells| - 1]];
    }
  }

  /** With no coordinate recorded twice, `d` holds each recorded symbol. */
  lemma {:induction false} SymbolsAt(cells: seq<(Coord3, char)>, k: nat)
    requires forall i, j :: 0 <= i < j < |cells| ==> cells[i].0 != cells[j].0
    requires k < |cells|
    ensures cells[k].0 in Symbols(cells) && Symbols(cells)[cells[k].0] == cells[k].1
  {
    if k < |cells| - 1 {
      var init := cells[..|cells| - 1];
      SymbolsAt(init, k);
      assert init[k] == cells[k];
    }
  }

  /** `order` is the order in which the dict yields its keys: each key once.
      A Python 2 dict yields them in hash order, so the model leaves it open. */
  predicate KeyOrder(d: map<Coord3, char>, order: seq<Coord3>)
  {
    (forall i, j :: 0 <= i < j < |order| ==> order[i] != order[j])
    && (forall c :: c in order ==> c in d) && forall c :: c in d ==> c in order
  }

  /** The entries of `d` in the order `order` yields them. */
  function Listed(d: map<Coord3, char>, order: seq<Coord3>): (r: seq<(Coord3, char)>)
    requires forall c :: c in order ==> c in d
    ensures |r| == |order| && forall k :: 0 <= k < |order| ==> r[k] == (order[k], d[order[k]])
  {
    seq(|order|, k requires 0 <= k < |order| => (order[k], d[order[k]]))
  }

  /** `load_from_string(level_string)` with the entity ids drawn from
      `next` and the dict's keys yielded in `order`: None for the IndexError
      the size computation raises when the text holds no map row. */
  function Load(text: string, order: seq<Coord3>, next: int): Option<Loaded>
    requires KeyOrder(Symbols(Parse(SplitLines(text)).cells), order)
  {
    var p := Parse(SplitLines(text));
    if p.cells == [] then None else Some(Build(Listed(Symbols(p.cells), order), next))
  }

  /** What `load_from_string` returns: the IndexError exactly when no map
      row holds a character, and otherwise a level with exactly the parsed
      coordinates (which `ParseCellsCover` and `ParseCellsDistinct` describe). */
  lemma LoadShape(text: string, order: seq<Coord3>, next: int)
    requires KeyOrder(Symbols(Parse(SplitLines(text)).cells), order)
    ensures Load(text, order, next).None? <==> Chars(MapRows(SplitLines(text))) == 0
    ensures Load(text, order, next).Some? ==>
              Load(text, order, next).value.level.Keys == set e | e in Parse(SplitLines(text)).cells :: e.0
  {
    var cells := Parse(SplitLines(text)).cells;
    ParseCellsCover(SplitLines(text));
    SymbolsKeys(cells);
    if cells != [] {
      assert Load(text, order, next) == Some(Build(Listed(Symbols(cells), order), next));
      ListedKeys(Symbols(cells), order, next);
    }
  }

  /** The level built over the keys of `d` in `order` has exactly those keys. */
  lemma ListedKeys(d: map<Coord3, char>, order: seq<Coord3>, next: int)
    requires KeyOrder(d, order)
    ensures Build(Listed(d, order), next).level.Keys == d.Keys
  {
    var l := Listed(d, order);
    BuildKeys(l, next);
    assert (set e | e in l :: e.0) == set c | c in order;
  }

  /** The k-th key the dict yields holds the entities of its symbol in `d`,
      with the ids drawn at its turn. */
  lemma ListedAt(d: map<Coord3, char>, order: seq<Coord3>, next: int, k: nat)
    requires KeyOrder(d, order) && k < |order|
    ensures order[k] in Build(Listed(d, order), next).level
    ensures Build(Listed(d, order), next).level[order[k]] == EntitiesFor(d[order[k]], next + IdsBefore(Listed(d, order)[..k]))
  {
    BuildAt(Listed(d, order), next, k);
  }

  /** `load_from_string`: the row loop fills `d` and `directives` while `y`
      and `z` move, then the entity loop turns `d`, in the order `order` it
      yields its keys, into the level. */
  method LoadFromString(text: string, order: seq<Coord3>, next: int) returns (r: Option<Loaded>, directives: seq<string>)
    requires KeyOrder(Symbols(Parse(SplitLines(text)).cells), order)
    ensures r == Load(text, order, next)
    ensures directives == Parse(SplitLines(text)).directives
  {
    var rows := SplitLines(text);
    var p := Parsed([], [], 0, 0);
    var i := 0;
    while i < |rows|
      invariant 0 <= i <= |rows|
      invariant p == Parse(rows[..i])
    {
      var row := rows[i];
      assert rows[..i + 1][..i] == rows[..i];
      if row == [] {
      } else if row[0] == '#' {
        var stripped := Strip(row[1..]);
        var z := ZArg(stripped);
        if z.Some? {
          p := p.(z := z.value);
        } else {
          p := p.(directives := p.directives + [stripped]);
        }
      } else {
        var cells := MapRowCells(row, p.y, p.z);
        p := p.(cells := p.cells + cells, y := p.y + 1);
      }
      i := i + 1;
    }
    assert rows[..i] == rows;
    directives := p.directives;
    if p.cells == [] {
      r := None;
    } else {
      var loaded := BuildLevel(Symbols(p.cells), order, next);
      r := Some(loaded);
    }
  }

  /** `for x, symbol in enumerate(row): d[x, y, z] = symbol`. */
  method MapRowCells(row: string, y: int, z: int) returns (cells: seq<(Coord3, char)>)
    ensures cells == RowCells(row, y, z)
  {
    cells := [];
    var x := 0;
    while x < |row|
      invariant 0 <= x <= |row| && |cells| == x
      invariant forall k :: 0 <= k < x ==> cells[k] == ((k, y, z), row[k])
    {
      cells := cells + [((x, y, z), row[x])];
      x := x + 1;
    }
  }

  /** The entity loop of `load_from_string` over the keys of `d` in `order`. */
  method BuildLevel(d: map<Coord3, char>, order: seq<Coord3>, next: int) returns (r: Loaded)
    requires forall c :: c in order ==> c in d
    ensures r == Build(Listed(d, order), next)
  {
    var level: map<Coord3, seq<LEntity>> := map[];
    var state: map<int, seq<string>> := map[];
    var id := next;
    var i := 0;
    while i < |order|
      invariant 0 <= i <= |order|
      invariant Loaded(level, state, id) == Build(Listed(d, order)[..i], next)
    {
      assert Listed(d, order)[..i + 1][..i] == Listed(d, order)[..i];
      var c := order[i];
      var symbol := d[c];
      var entityId := id;
      id := id + 1;
      var entities := [];
      var kind;
      if symbol == '.' {
        kind := "floor";
      } else if symbol == '}' {
        kind := "pool";
      } else if symbol == ' ' {
        kind := "solidrock";
      } else if symbol == '<' || symbol == '>' {
        var floorId := id;
        id := id + 1;
        entities := entities + [LEntity(floorId, "floor")];
        kind := "stair";
        if symbol == '<' {
          state := state[entityId := ["up"]];
        } else {
          state := state[entityId := ["down"]];
        }
      } else {
        kind := "unknown";
      }
      entities := entities + [LEntity(entityId, kind)];
      assert entities == EntitiesFor(symbol, entityId);
      level := level[c := entities];
      i := i + 1;
    }
    assert Listed(d, order)[..i] == Listed(d, order);
    r := Loaded(level, state, id);
  }

  // ---- map_to_level ----

  /** The type a map cell becomes, with its flags if it gets a state entry:
      a doorway is a door, the three kinds of wall are walls flagged with
      their orientation. */
  function Converted(kind: string): (string, Option<string>)
  {
    if kind == "horizwall" then ("wall", Some("horizontal"))
    else if kind == "vertiwall" then ("wall", Some("vertical"))
    else if kind == "roughwall" then ("wall", Some("rough"))
    else (kind, None)
  }

  /** The map after the doorway pass: every doorway has become a door. */
  function Doored(levelmap: map<(int, int), string>): (r: map<(int, int), string>)
    ensures r.Keys == levelmap.Keys
    ensures forall c :: c in r ==> r[c] == if levelmap[c] == "doorway" then "door" else levelmap[c]
  {
    map c | c in levelmap :: if levelmap[c] == "doorway" then "door" else levelmap[c]
  }

  /** The level the second pass builds over `order` (the dict's order), ids
      drawn consecutively from `next`. */
  function Leveled(levelmap: map<(int, int), string>, order: seq<(int, int)>, next: int): Loaded
    requires forall c :: c in order ==> c in levelmap
  {
    if order == [] then Loaded(map[], map[], next)
    else
      var before := Leveled(levelmap, order[..|order| - 1], next);
      var c := order[|order| - 1];
      var (kind, flag) := Converted(levelmap[c]);
      var id := before.nextId;
      Loaded(before.level[(c.0, c.1, 0) := [LEntity(id, kind)]],
             if flag.Some? then before.state[id := [flag.value]] else before.state,
             id + 1)
  }

  /** `map_to_level(levelmap)`: `levelmap` is changed in place (its doorways
      become doors) and is returned as `doored`; every cell of it becomes a
      one-entity cell of the level at z = 0. (`r` is not used by the source.) */
  method MapToLevel(levelmap: map<(int, int), string>, order: seq<(int, int)>, next: int)
    returns (doored: map<(int, int), string>, r: Loaded)
    requires Elems2(order) == levelmap.Keys
    ensures doored == Doored(levelmap)
    ensures r == Leveled(doored, order, next)
  {
    doored := DoorPass(levelmap, order);
    r := LevelPass(doored, order, next);
  }

  /** The first loop: every doorway becomes a door. */
  method DoorPass(levelmap: map<(int, int), string>, order: seq<(int, int)>) returns (doored: map<(int, int), string>)
    requires Elems2(order) == levelmap.Keys
    ensures doored == Doored(levelmap)
  {
    doored := levelmap;
    var i := 0;
    while i < |order|
      invariant 0 <= i <= |order| && doored.Keys == levelmap.Keys
      invariant forall c :: c in levelmap ==> doored[c] == levelmap[c] || (levelmap[c] == "doorway" && doored[c] == "door")
      invariant forall j :: 0 <= j < i ==> doored[order[j]] != "doorway"
    {
      var c := order[i];
      if doored[c] == "doorway" {
        doored := doored[c := "door"];
      }
      i := i + 1;
    }
    forall c | c in levelmap
      ensures doored[c] == Doored(levelmap)[c]
    {
      assert c in Elems2(order);
    }
  }

  /** The second loop: one entity per map cell, walls flagged. */
  method LevelPass(levelmap: map<(int, int), string>, order: seq<(int, int)>, next: int) returns (r: Loaded)
    requires forall c :: c in order ==> c in levelmap
    ensures r == Leveled(levelmap, order, next)
  {
    var level: map<Coord3, seq<LEntity>> := map[];
    var state: map<int, seq<string>> := map[];
    var id := next;
    var i := 0;
    while i < |order|
      invariant 0 <= i <= |order|
      invariant Loaded(level, state, id) == Leveled(levelmap, order[..i], next)
    {
      assert order[..i + 1][..i] == order[..i];
      var c := order[i];
      var kind := levelmap[c];
      var entityId := id;
      id := id + 1;
      if kind == "horizwall" {
        kind := "wall";
        state := state[entityId := ["horizontal"]];
      } else if kind == "vertiwall" {
        kind := "wall";
        state := state[entityId := ["vertical"]];
      } else if kind == "roughwall" {
        kind := "wall";
        state := state[entityId := ["rough"]];
      }
      assert kind == Converted(levelmap[c]).0;
      level := level[(c.0, c.1, 0) := [LEntity(entityId, kind)]];
      i := i + 1;
    }
    assert order[..i] == order;
    r := Loaded(level, state, id);
  }

  function Elems2(s: seq<(int, int)>): set<(int, int)> { set c | c in s }

  /** The keys of the level are the map's cells lifted to z = 0, and one id
      is drawn per cell. */
  lemma {:induction false} LeveledKeys(levelmap: map<(int, int), string>, order: seq<(int, int)>, next: int)
    requires forall c :: c in order ==> c in levelmap
    ensures Leveled(levelmap, order, next).level.Keys == set c | c in order :: (c.0, c.1, 0)
    ensures Leveled(levelmap, order, next).nextId == next + |order|
    ensures forall id :: id in Leveled(levelmap, order, next).state ==> next <= id < next + |order|
  {
    if order != [] {
      LeveledKeys(levelmap, order[..|order| - 1], next);
      assert order == order[..|order| - 1] + [order[|order| - 1]];
    }
  }

  /** What `map_to_level` makes of the k-th cell: one entity with the k-th id
      drawn, of the converted type (so never a doorway), and the walls carry
      their orientation flag. */
  lemma {:induction false} LeveledAt(levelmap: map<(int, int), string>, order: seq<(int, int)>, next: int, k: nat)
    requires forall c :: c in order ==> c in levelmap
    requires forall i, j :: 0 <= i < j < |order| ==> order[i] != order[j]
    requires k < |order|
    ensures var l := Leveled(levelmap, order, next);
      var c := order[k];
      (c.0, c.1, 0) in l.level && l.level[(c.0, c.1, 0)] == [LEntity(next + k, Converted(levelmap[c]).0)]
      && (Converted(levelmap[c]).1.Some? <==> next + k in l.state)
      && (Converted(levelmap[c]).1.Some? ==> l.state[next + k] == [Converted(levelmap[c]).1.value])
  {
    var init := order[..|order| - 1];
    LeveledKeys(levelmap, init, next);
    if k < |order| - 1 {
      LeveledAt(levelmap, init, next, k);
      assert init[k] == order[k];
      assert order[|order| - 1] != order[k];
    }
  }

  /** After `map_to_level` no cell of the map is a doorway. */
  lemma NoDoorwayLeft(levelmap: map<(int, int), string>)
    ensures forall c :: c in Doored(levelmap) ==> Doored(levelmap)[c] != "doorway"
  {
  }
}
