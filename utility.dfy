/** The stateless helpers of src/whiteshoe/utility.py: the difference of two
    dictionaries, flag merging and entity-state assembly, and straight-line path
    generation. */
module Utility {
  import opened Wrappers
  import opened Grid

  // ---- dict_difference ----

  /** The keys on which two dictionaries disagree: present in one only, or present
      in both with different values. */
  ghost function Disagreement<K, V>(old_: map<K, V>, new_: map<K, V>): set<K>
  {
    set k | k in old_.Keys + new_.Keys && (k !in old_ || k !in new_ || old_[k] != new_[k])
  }

  /** utility.dict_difference: the symmetric difference of the key sets, plus the
      shared keys whose values differ. */
  method DictDifference<K, V(==)>(old_: map<K, V>, new_: map<K, V>) returns (changed: set<K>)
    ensures changed == Disagreement(old_, new_)
    ensures changed == {} <==> old_ == new_
  {
    changed := (old_.Keys - new_.Keys) + (new_.Keys - old_.Keys);
    var shared := old_.Keys * new_.Keys;
    var todo := shared;
    while todo != {}
      invariant todo <= shared
      invariant changed == (old_.Keys - new_.Keys) + (new_.Keys - old_.Keys)
                           + set k | k in shared - todo && old_[k] != new_[k]
      decreases todo
    {
      var key :| key in todo;
      if old_[key] != new_[key] {
        changed := changed + {key};
      }
      todo := todo - {key};
    }
    if changed == {} {
      assert old_.Keys == new_.Keys;
      assert forall k :: k in old_ ==> old_[k] == new_[k];
    }
  }

  // ---- combine_flags ----

  /** A flag that starts with '!' cancels the flag named by the rest of it. */
  predicate IsNegation(f: string) { |f| > 0 && f[0] == '!' }

  /** The flags that survive when `b` is merged onto `a` and `b` holds no flag
      together with its own negation. */
  ghost function MergedFlags(a: set<string>, b: set<string>): set<string>
  {
    set f | f in a + b && f != "" && !IsNegation(f) && "!" + f !in b
  }

  /** What combine_flags may return for `a` and `b` when no flag name is
      empty: only plain flags of either; every plain flag of `b` that `b` does
      not also negate, and every plain flag of `a` that `b` does not negate;
      no flag that `b` negates without naming it too. When `b` never holds a
      flag together with its negation, the result is MergedFlags. (A flag
      that `b` both names and negates survives or not depending on the
      iteration order of `b`.) */
  ghost predicate Combines(a: set<string>, b: set<string>, r: set<string>)
  {
    && "" !in a + b
    && (forall f :: f in r ==> f in a + b && f != "" && !IsNegation(f))
    && (forall f :: f in b && !IsNegation(f) && "!" + f !in b ==> f in r)
    && (forall f :: f in a && !IsNegation(f) && "!" + f !in b ==> f in r)
    && (forall f :: "!" + f in b && f !in b ==> f !in r)
    && ((forall f :: f in b ==> "!" + f !in b) ==> r == MergedFlags(a, b))
  }

  /** utility.combine_flags: A's plain flags, then B's flags in iteration order,
      where '!f' discards f and a plain flag is added. An empty flag string makes
      `flag[0]` raise IndexError; the model returns None. */
  method CombineFlags(a: set<string>, b: set<string>) returns (r: Option<set<string>>)
    ensures r.None? <==> "" in a + b
    ensures r.Some? ==> Combines(a, b, r.value)
  {
    if "" in a + b {
      return None;
    }
    var result: set<string> := {};
    var todo := a;
    while todo != {}
      invariant todo <= a
      invariant result == set f | f in a - todo && !IsNegation(f)
      decreases todo
    {
      var flag :| flag in todo;
      if flag[0] != '!' {
        result := result + {flag};
      }
      todo := todo - {flag};
    }
    var seen: set<string> := {};
    todo := b;
    while todo != {}
      invariant todo <= b && seen == b - todo
      invariant forall f :: f in result ==> f in a + b && f != "" && !IsNegation(f)
      invariant forall f :: f in seen && !IsNegation(f) && "!" + f !in seen ==> f in result
      invariant forall f :: "!" + f in seen && f !in seen ==> f !in result
      invariant forall f :: f in a && !IsNegation(f) && "!" + f !in seen ==> f in result
      decreases todo
    {
      var flag :| flag in todo;
      if flag[0] == '!' {
        assert flag == "!" + flag[1..];
        result := result - {flag[1..]};
      } else {
        result := result + {flag};
      }
      seen := seen + {flag};
      todo := todo - {flag};
    }
    r := Some(result);
  }

  // ---- get_entity_state ----

  /** A value in an entity datum: plain text, a collection of flags, or the
      'entity_flag_set' table from a flag to the properties it switches on. */
  datatype Prop = Text(s: string) | FlagsP(fs: set<string>) | FlagSetP(m: map<string, map<string, Prop>>)

  const FlagsKey := "flags"
  const FlagSetKey := "entity_flag_set"

  /** `d.get('flags', ())` for a datum whose 'flags' entry, if any, is a flag collection. */
  function FlagsOf(d: map<string, Prop>): set<string>
  {
    if FlagsKey in d && d[FlagsKey].FlagsP? then d[FlagsKey].fs else {}
  }

  function FlagSetOf(d: map<string, Prop>): map<string, map<string, Prop>>
  {
    if FlagSetKey in d && d[FlagSetKey].FlagSetP? then d[FlagSetKey].m else map[]
  }

  /** True when get_entity_state meets the empty flag name, on which
      combine_flags raises IndexError: in the datum's or the entity's own
      flags, or in the flags of a property set that is on, that is, whose
      flag is among `first`, the flags the first combine_flags gave. */
  predicate HasEmptyFlag(datum: map<string, Prop>, state: map<string, Prop>, first: set<string>)
  {
    || "" in FlagsOf(datum) + FlagsOf(state)
    || exists f :: f in first && f in FlagSetOf(datum) && "" in FlagsOf(FlagSetOf(datum)[f])
  }

  /** `base` updated with the property set of each flag of `visited` in turn. */
  ghost function Overlaid(base: map<string, Prop>, flagSet: map<string, map<string, Prop>>, visited: seq<string>)
    : map<string, Prop>
    decreases |visited|
  {
    if visited == [] then base
    else
      var last := visited[|visited| - 1];
      Overlaid(base, flagSet, visited[..|visited| - 1]) + (if last in flagSet then flagSet[last] else map[])
  }

  /** `chain` holds the flags after each step of the flag loop: each one is
      what combine_flags may return for the one before and the flags of the
      next property set visited. */
  ghost predicate FlagChain(flagSet: map<string, map<string, Prop>>, visited: seq<string>, chain: seq<set<string>>)
  {
    |chain| == |visited| + 1
    && forall k :: 0 <= k < |visited| ==>
         visited[k] in flagSet && Combines(chain[k], FlagsOf(flagSet[visited[k]]), chain[k + 1])
  }

  /** utility.get_entity_state: the type's datum, overridden by the entity's own
      state, overridden in turn by the property set of each flag that is on, in
      the iteration order of the flags (`visited`, each flag once), with the
      merged flags stored under 'flags'. `first` is what the first
      combine_flags gave and `chain` the flags after each later merge. None
      stands for the IndexError that combine_flags raises on an empty flag
      name. */
  method GetEntityState(entityData: map<string, map<string, Prop>>, entityStates: map<int, map<string, Prop>>,
                        entity: (int, string))
    returns (r: Option<map<string, Prop>>, ghost first: set<string>, ghost visited: seq<string>,
             ghost chain: seq<set<string>>)
    ensures var datum := if entity.1 in entityData then entityData[entity.1] else map[];
            var state := if entity.0 in entityStates then entityStates[entity.0] else map[];
            r.None? <==> HasEmptyFlag(datum, state, first)
    ensures var datum := if entity.1 in entityData then entityData[entity.1] else map[];
            var state := if entity.0 in entityStates then entityStates[entity.0] else map[];
            "" !in FlagsOf(datum) + FlagsOf(state) ==> Combines(FlagsOf(datum), FlagsOf(state), first)
    ensures var datum := if entity.1 in entityData then entityData[entity.1] else map[];
            var flagSet := FlagSetOf(datum);
            r.Some? ==>
            && (forall f :: f in visited <==> f in first && f in flagSet)
            && (forall i, j :: 0 <= i < j < |visited| ==> visited[i] != visited[j])
            && FlagChain(flagSet, visited, chain) && chain[0] == first
    ensures var datum := if entity.1 in entityData then entityData[entity.1] else map[];
            var state := if entity.0 in entityStates then entityStates[entity.0] else map[];
            r.Some? ==> (|chain| > 0
              && r.value == Overlaid(datum + state, FlagSetOf(datum), visited)[FlagsKey := FlagsP(chain[|chain| - 1])])
    ensures r.Some? ==> FlagsKey in r.value && r.value[FlagsKey].FlagsP? && "" !in r.value[FlagsKey].fs
    ensures var datum := if entity.1 in entityData then entityData[entity.1] else map[];
            var state := if entity.0 in entityStates then entityStates[entity.0] else map[];
            var overlays := FlagSetOf(datum);
            r.Some? ==>
            && (forall k :: k in r.value ==>
                  k == FlagsKey || k in datum || k in state || exists f :: f in overlays && k in overlays[f])
            && (forall k :: k in datum + state && k != FlagsKey && (forall f :: f in overlays ==> k !in overlays[f])
                  ==> k in r.value && r.value[k] == (datum + state)[k])
  {
    var datum := if entity.1 in entityData then entityData[entity.1] else map[];
    var state := if entity.0 in entityStates then entityStates[entity.0] else map[];
    var combined := CombineFlags(FlagsOf(datum), FlagsOf(state));
    first, visited, chain := {}, [], [];
    r := None;
    if combined.Some? {
      first := combined.value;
      var ok, flags, actual;
      ok, flags, visited, chain, actual := VisitFlags(datum + state, FlagSetOf(datum), combined.value);
      if ok {
        OverlaidKeys(datum + state, FlagSetOf(datum), visited);
        r := Some(actual[FlagsKey := FlagsP(flags)]);
      }
    }
  }

  /** The flag loop of get_entity_state over the flags `first` that the first
      combine_flags gave: each flag with a property set is visited once, its
      properties are applied and its flags merged; false where a visited
      property set carries the empty flag name. */
  method VisitFlags(base: map<string, Prop>, flagSet: map<string, map<string, Prop>>, first: set<string>)
    returns (ok: bool, flags: set<string>, ghost visited: seq<string>, ghost chain: seq<set<string>>,
             actual: map<string, Prop>)
    requires "" !in first
    ensures ok <==> forall f :: f in first && f in flagSet ==> "" !in FlagsOf(flagSet[f])
    ensures ok ==> (forall f :: f in visited <==> f in first && f in flagSet)
    ensures ok ==> forall i, j :: 0 <= i < j < |visited| ==> visited[i] != visited[j]
    ensures ok ==> FlagChain(flagSet, visited, chain) && chain[0] == first && chain[|chain| - 1] == flags
    ensures ok ==> "" !in flags && actual == Overlaid(base, flagSet, visited)
  {
    flags, visited, chain, actual := first, [], [first], base;
    var todo := first;
    ok := true;
    while todo != {} && ok
      invariant todo <= first && "" !in flags && |chain| > 0 && chain[0] == first && chain[|chain| - 1] == flags
      invariant forall f :: f in visited <==> f in first && f !in todo && f in flagSet
      invariant forall i, j :: 0 <= i < j < |visited| ==> visited[i] != visited[j]
      invariant FlagChain(flagSet, visited, chain)
      invariant actual == Overlaid(base, flagSet, visited)
      invariant ok ==> forall f :: f in first && f !in todo && f in flagSet ==> "" !in FlagsOf(flagSet[f])
      invariant !ok ==> exists f :: f in first && f in flagSet && "" in FlagsOf(flagSet[f])
      decreases todo, if ok then 1 else 0
    {
      var flag :| flag in todo;
      if flag in flagSet {
        ok, flags, visited, chain, actual := VisitFlag(base, flagSet, flag, flags, visited, chain, actual);
      }
      if ok {
        todo := todo - {flag};
      }
    }
  }

  /** One triggered flag of the flag loop: its property set is applied and
      its flags are merged; false where combine_flags raises. */
  method VisitFlag(base: map<string, Prop>, flagSet: map<string, map<string, Prop>>, flag: string, flags: set<string>,
                   ghost visited: seq<string>, ghost chain: seq<set<string>>, actual: map<string, Prop>)
    returns (ok: bool, flags': set<string>, ghost visited': seq<string>, ghost chain': seq<set<string>>,
             actual': map<string, Prop>)
    requires flag in flagSet && "" !in flags && FlagChain(flagSet, visited, chain) && chain[|chain| - 1] == flags
    requires actual == Overlaid(base, flagSet, visited)
    ensures ok <==> "" !in FlagsOf(flagSet[flag])
    ensures !ok ==> flags' == flags && visited' == visited && chain' == chain && actual' == actual
    ensures ok ==> visited' == visited + [flag] && chain' == chain + [flags'] && "" !in flags'
    ensures FlagChain(flagSet, visited', chain') && actual' == Overlaid(base, flagSet, visited')
  {
    var next := CombineFlags(flags, FlagsOf(flagSet[flag]));
    ok := next.Some?;
    flags', visited', chain', actual' := flags, visited, chain, actual;
    if ok {
      OverlaidSnoc(base, flagSet, visited, flag);
      ChainSnoc(flagSet, visited, chain, flag, next.value);
      flags', visited', chain', actual' := next.value, visited + [flag], chain + [next.value], actual + flagSet[flag];
    }
  }

  /** Every key of the overlaid state comes from the base or a property set,
      and a key no property set names keeps its base value. */
  lemma {:induction false} OverlaidKeys(base: map<string, Prop>, flagSet: map<string, map<string, Prop>>, visited: seq<string>)
    ensures forall k :: k in Overlaid(base, flagSet, visited) ==> k in base || exists f :: f in flagSet && k in flagSet[f]
    ensures forall k :: k in base && (forall f :: f in flagSet ==> k !in flagSet[f]) ==>
              k in Overlaid(base, flagSet, visited) && Overlaid(base, flagSet, visited)[k] == base[k]
    decreases |visited|
  {
    if visited != [] {
      OverlaidKeys(base, flagSet, visited[..|visited| - 1]);
    }
  }

  lemma OverlaidSnoc(base: map<string, Prop>, flagSet: map<string, map<string, Prop>>, visited: seq<string>, flag: string)
    requires flag in flagSet
    ensures Overlaid(base, flagSet, visited + [flag]) == Overlaid(base, flagSet, visited) + flagSet[flag]
  {
    assert (visited + [flag])[..|visited|] == visited;
  }

  lemma ChainSnoc(flagSet: map<string, map<string, Prop>>, visited: seq<string>, chain: seq<set<string>>,
                  flag: string, next: set<string>)
    requires FlagChain(flagSet, visited, chain) && flag in flagSet
    requires Combines(chain[|chain| - 1], FlagsOf(flagSet[flag]), next)
    ensures FlagChain(flagSet, visited + [flag], chain + [next])
  {
    var v, c := visited + [flag], chain + [next];
    forall k | 0 <= k < |v|
      ensures v[k] in flagSet && Combines(c[k], FlagsOf(flagSet[v[k]]), c[k + 1])
    {
      if k < |visited| {
        assert v[k] == visited[k] && c[k] == chain[k] && c[k + 1] == chain[k + 1];
      }
    }
  }

  // ---- generate_path ----

  /** The two orders generate_path accepts ('xy' and 'yx'). */
  datatype Order = XY | YX

  /** k unit steps along x from `from` (towards -x when `negative`), not including `from`. */
  function XLeg(from: Coord, negative: bool, k: nat): (r: seq<Coord>)
    ensures |r| == k
  {
    seq(k, i requires 0 <= i < k => (if negative then from.0 - (i + 1) else from.0 + (i + 1), from.1))
  }

  /** k unit steps along y from `from`, not including `from`. */
  function YLeg(from: Coord, negative: bool, k: nat): (r: seq<Coord>)
    ensures |r| == k
  {
    seq(k, i requires 0 <= i < k => (from.0, if negative then from.1 - (i + 1) else from.1 + (i + 1)))
  }

  /** The walk generate_path builds before it checks it. */
  function PathCells(xLength: int, yLength: int, start: Coord, order: Order): seq<Coord>
  {
    match order
    case XY =>
      var corner := (start.0 + xLength, start.1);
      [start] + XLeg(start, xLength < 0, Abs(xLength)) + YLeg(corner, yLength < 0, Abs(yLength))
    case YX =>
      var corner := (start.0, start.1 + yLength);
      [start] + YLeg(start, yLength < 0, Abs(yLength)) + XLeg(corner, xLength < 0, Abs(xLength))
  }

  /** The walk starts at `start`, ends at start + (x, y), has 1+|x|+|y| cells, and
      every step moves exactly one cell orthogonally. */
  lemma PathShape(xLength: int, yLength: int, start: Coord, order: Order)
    ensures var p := PathCells(xLength, yLength, start, order);
            |p| == 1 + Abs(xLength) + Abs(yLength)
            && p[0] == start && p[|p| - 1] == (start.0 + xLength, start.1 + yLength)
            && forall i :: 0 <= i < |p| - 1 ==> Manhattan(p[i], p[i + 1]) == 1
  {
    var nx, ny := Abs(xLength), Abs(yLength);
    if order == XY {
      var corner := (start.0 + xLength, start.1);
      var a, b := XLeg(start, xLength < 0, nx), YLeg(corner, yLength < 0, ny);
      XLegSteps(start, xLength < 0, nx);
      YLegSteps(corner, yLength < 0, ny);
      TwoLegs(start, a, corner, b);
      assert PathCells(xLength, yLength, start, order) == [start] + a + b;
    } else {
      var corner := (start.0, start.1 + yLength);
      var a, b := YLeg(start, yLength < 0, ny), XLeg(corner, xLength < 0, nx);
      YLegSteps(start, yLength < 0, ny);
      XLegSteps(corner, xLength < 0, nx);
      TwoLegs(start, a, corner, b);
      assert PathCells(xLength, yLength, start, order) == [start] + a + b;
    }
  }

  /** One cell further along either axis. */
  predicate Adjacent(a: Coord, b: Coord)
  {
    Manhattan(a, b) == 1
  }

  /** A leg of unit steps from `from`. */
  predicate Leg(from: Coord, l: seq<Coord>)
  {
    (|l| > 0 ==> Adjacent(from, l[0])) && forall i :: 0 <= i < |l| - 1 ==> Adjacent(l[i], l[i + 1])
  }

  /** A leg along x moves one cell at a time and ends k cells away. */
  lemma XLegSteps(from: Coord, negative: bool, k: nat)
    ensures Leg(from, XLeg(from, negative, k))
    ensures k > 0 ==> XLeg(from, negative, k)[k - 1] == (if negative then from.0 - k else from.0 + k, from.1)
  {
  }

  /** A leg along y moves one cell at a time and ends k cells away. */
  lemma YLegSteps(from: Coord, negative: bool, k: nat)
    ensures Leg(from, YLeg(from, negative, k))
    ensures k > 0 ==> YLeg(from, negative, k)[k - 1] == (from.0, if negative then from.1 - k else from.1 + k)
  {
  }

  /** Two legs, the second from where the first ends, make one walk of unit steps. */
  lemma TwoLegs(start: Coord, a: seq<Coord>, corner: Coord, b: seq<Coord>)
    requires Leg(start, a) && Leg(corner, b) && corner == (if |a| == 0 then start else a[|a| - 1])
    ensures var p := [start] + a + b;
      forall i :: 0 <= i < |p| - 1 ==> Manhattan(p[i], p[i + 1]) == 1
  {
    var p := [start] + a + b;
    forall i | 0 <= i < |p| - 1 ensures Manhattan(p[i], p[i + 1]) == 1 {
      if i < |a| {
        assert p[i + 1] == a[i] && p[i] == if i == 0 then start else a[i - 1];
      } else {
        var k := i - |a|;
        assert p[i + 1] == b[k] && p[i] == if k == 0 then corner else b[k - 1];
      }
    }
  }

  /** A cell generate_path rejects: forbidden, or off the whitelist when there is one. */
  predicate Rejected(c: Coord, forbidden: set<Coord>, whitelist: Option<set<Coord>>)
  {
    c in forbidden || (whitelist.Some? && c !in whitelist.value)
  }

  /** Some cell of `p` is rejected. */
  predicate AnyRejected(p: seq<Coord>, forbidden: set<Coord>, whitelist: Option<set<Coord>>)
  {
    exists i :: 0 <= i < |p| && Rejected(p[i], forbidden, whitelist)
  }

  /** A rejected cell in a prefix is a rejected cell of the whole walk. */
  lemma RejectedPrefix(p: seq<Coord>, cells: seq<Coord>, forbidden: set<Coord>, whitelist: Option<set<Coord>>)
    requires |p| <= |cells| && p == cells[..|p|]
    requires AnyRejected(p, forbidden, whitelist)
    ensures AnyRejected(cells, forbidden, whitelist)
  {
    var i :| 0 <= i < |p| && Rejected(p[i], forbidden, whitelist);
    assert cells[i] == p[i];
  }

  /** One leg of generate_path: k unit steps along x (or y) from `from`. */
  method WalkLeg(from: Coord, alongX: bool, negative: bool, k: nat) returns (leg: seq<Coord>, current: Coord)
    ensures leg == if alongX then XLeg(from, negative, k) else YLeg(from, negative, k)
    ensures current == if alongX then (if negative then from.0 - k else from.0 + k, from.1)
                       else (from.0, if negative then from.1 - k else from.1 + k)
  {
    var target := if alongX then XLeg(from, negative, k) else YLeg(from, negative, k);
    leg := [];
    current := from;
    var i := 0;
    while i < k
      invariant 0 <= i <= k
      invariant leg == target[..i]
      invariant current == if alongX then (if negative then from.0 - i else from.0 + i, from.1)
                           else (from.0, if negative then from.1 - i else from.1 + i)
    {
      var step := if negative then -1 else 1;
      current := if alongX then (current.0 + step, current.1) else (current.0, current.1 + step);
      leg := leg + [current];
      i := i + 1;
    }
  }

  /** utility.generate_path: walk |x| cells along x and then |y| along y (or the
      other way round), checking after each leg that no visited cell is forbidden
      and, with a whitelist, that every visited cell is on it. Returns None for the
      source's `False`. The source asserts that a whitelist, when given, is not empty. */
  method GeneratePath(xLength: int, yLength: int, start: Coord, forbidden: set<Coord>,
                      whitelist: Option<set<Coord>>, order: Order)
    returns (path: Option<seq<Coord>>)
    requires whitelist.None? || whitelist.value != {}
    ensures var cells := PathCells(xLength, yLength, start, order);
            path == if AnyRejected(cells, forbidden, whitelist) then None else Some(cells)
  {
    ghost var cells := PathCells(xLength, yLength, start, order);
    var p: seq<Coord> := [start];
    var current := start;
    var letters := if order == XY then "xy" else "yx";
    var li := 0;
    while li < 2
      invariant 0 <= li <= 2
      invariant li == 0 ==> p == [start] && current == start
      invariant li == 1 ==> p == cells[..1 + (if order == XY then Abs(xLength) else Abs(yLength))]
      invariant li == 1 ==> current == if order == XY then (start.0 + xLength, start.1) else (start.0, start.1 + yLength)
      invariant li == 2 ==> p == cells
      invariant li >= 1 ==> !AnyRejected(p, forbidden, whitelist)
    {
      var letter := letters[li];
      var leg;
      if letter == 'x' {
        leg, current := WalkLeg(current, true, xLength < 0, Abs(xLength));
      } else {
        leg, current := WalkLeg(current, false, yLength < 0, Abs(yLength));
      }
      p := p + leg;
      assert |p| <= |cells| && p == cells[..|p|];
      if AnyRejected(p, forbidden, whitelist) {
        RejectedPrefix(p, cells, forbidden, whitelist);
        return None;
      }
      li := li + 1;
    }
    path := Some(p);
  }
}
