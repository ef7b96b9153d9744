/** The id allocator of src/whiteshoe/utility.py (class IDCounter): one counter
    and one free list per family ('player', 'game', 'packet', ...). The lock that
    guards it is left out; the model is sequential. */
module Ids {

  class IdCounter {
    /** The first id handed out in every family (the source's `_start`). */
    const start: int
    /** The next fresh id of each family that has been used. */
    var counters: map<string, int>
    /** Released ids of each family, most recently released last. */
    var released: map<string, seq<int>>

    /** The families the allocator knows have both a counter and a free list; a
        free list holds no id twice and only ids below the family's counter. */
    ghost predicate Valid()
      reads this
    {
      && released.Keys == counters.Keys
      && forall f :: f in released ==>
           && (forall i :: 0 <= i < |released[f]| ==> released[f][i] < counters[f])
           && (forall i, j :: 0 <= i < j < |released[f]| ==> released[f][i] != released[f][j])
    }

    /** `id` of `family` is out: issued from the counter and not released since. */
    ghost predicate InUse(family: string, id: int)
      reads this
    {
      && family in counters && family in released
      && start <= id < counters[family]
      && id !in released[family]
    }

    constructor ()
      ensures Valid() && start == 0
      ensures counters == map[] && released == map[]
    {
      start := 0;
      counters := map[];
      released := map[];
    }

    /** IDCounter.get_id: the most recently released id of the family if there is
        one, else the family's counter (which then moves on by one); a family
        seen for the first time gets `start`. The id handed out was not in use,
        and is in use afterwards. */
    method GetId(family: string) returns (id: int)
      requires Valid()
      modifies this
      ensures Valid()
      ensures family !in old(counters) ==>
                && id == start
                && counters == old(counters)[family := start + 1]
                && released == old(released)[family := []]
      ensures family in old(counters) && old(released[family]) != [] ==>
                && id == old(released[family][|released[family]| - 1])
                && released == old(released)[family := old(released[family][..|released[family]| - 1])]
                && counters == old(counters)
      ensures family in old(counters) && old(released[family]) == [] ==>
                && id == old(counters[family])
                && counters == old(counters)[family := id + 1]
                && released == old(released)
      ensures !old(InUse(family, id))
      ensures start <= id ==> InUse(family, id)
      ensures forall f, i :: f != family || i != id ==> (InUse(f, i) <==> old(InUse(f, i)))
    {
      if family in released {
        var free := released[family];
        if free != [] {
          id := free[|free| - 1];
          released := released[family := free[..|free| - 1]];
          assert forall i :: i in free ==> i in free[..|free| - 1] || i == id;
          assert id !in free[..|free| - 1];
        } else {
          id := counters[family];
          counters := counters[family := id + 1];
        }
      } else {
        released := released[family := []];
        counters := counters[family := start + 1];
        id := start;
      }
    }

    /** IDCounter.release_id: put `id` back on its family's free list. The source
        asserts that the id is below the family's counter (a KeyError when the
        family is unknown) and not already released. */
    method ReleaseId(family: string, id: int)
      requires Valid()
      requires family in counters && id < counters[family]
      requires id !in released[family]
      modifies this
      ensures Valid()
      ensures released == old(released)[family := old(released[family]) + [id]]
      ensures counters == old(counters)
      ensures !InUse(family, id)
      ensures forall f, i :: f != family || i != id ==> (InUse(f, i) <==> old(InUse(f, i)))
    {
      released := released[family := released[family] + [id]];
    }
  }
}
