/** utility.bidict: a two-way mapping. Every key set with `d[k] = v` can be looked
    up from either side; `items` holds every element that is currently a key. */
module BiDict {
  import opened Wrappers

  class Bidict<T(==)> {
    var items: set<T>
    var aToB: map<T, T>
    var bToA: map<T, T>

    /** The elements are exactly the keys of the two directions. */
    ghost predicate Valid()
      reads this
    {
      items == aToB.Keys + bToA.Keys
    }

    /** bidict.__getitem__: the forward image when there is one, else the backward
        one; None for the source's KeyError. */
    function Get(key: T): (r: Option<T>)
      reads this
      requires Valid()
      ensures r.None? <==> key !in items
      ensures r.Some? ==> (key in aToB && r.value == aToB[key]) || (key !in aToB && key in bToA && r.value == bToA[key])
    {
      if key !in items then None
      else if key in aToB then Some(aToB[key])
      else Some(bToA[key])
    }

    /** bidict.__contains__. */
    predicate Contains(key: T)
      reads this
    {
      key in items
    }

    /** bidict.__len__. */
    function Length(): (n: nat)
      reads this
      ensures n == |items|
    {
      |items|
    }

    constructor Empty()
      ensures Valid() && items == {} && aToB == map[] && bToA == map[]
    {
      items := {};
      aToB := map[];
      bToA := map[];
    }

    /** bidict(dict_): the pairs of `init` set one by one, in iteration order. */
    constructor (init: map<T, T>)
      ensures Valid()
      ensures items == init.Keys + init.Values
    {
      items := {};
      aToB := map[];
      bToA := map[];
      new;
      var todo := init.Keys;
      while todo != {}
        invariant Valid()
        invariant todo <= init.Keys
        invariant items == (init.Keys - todo) + (set k | k in init.Keys - todo :: init[k])
        decreases todo
      {
        var k :| k in todo;
        Set(k, init[k]);
        todo := todo - {k};
      }
    }

    /** bidict.__delitem__: drop `key` from the elements and from both directions.
        Returns false, changing nothing, for the source's KeyError. The partner an
        entry pointed at keeps its own entry. */
    method Delete(key: T) returns (found: bool)
      requires Valid()
      modifies this
      ensures Valid()
      ensures found <==> key in old(items)
      ensures found ==> items == old(items) - {key} && aToB == old(aToB) - {key} && bToA == old(bToA) - {key}
      ensures !found ==> items == old(items) && aToB == old(aToB) && bToA == old(bToA)
    {
      if key !in items {
        return false;
      }
      items := items - {key};
      if key in aToB {
        aToB := aToB - {key};
      }
      if key in bToA {
        bToA := bToA - {key};
      }
      return true;
    }

    /** bidict.__setitem__: delete any earlier entry for `key` and for `value`,
        then record the pair both ways. Afterwards each side looks up the other. */
    method Set(key: T, value: T)
      requires Valid()
      modifies this
      ensures Valid()
      ensures items == old(items) + {key, value}
      ensures aToB == (old(aToB) - {key, value})[key := value]
      ensures bToA == (old(bToA) - {key, value})[value := key]
      ensures Get(key) == Some(value) && Get(value) == Some(key)
    {
      if key in items {
        var _ := Delete(key);
      }
      if value in items {
        var _ := Delete(value);
      }
      items := items + {key, value};
      aToB := aToB[key := value];
      bToA := bToA[value := key];
    }
  }
}
