/** utility.nesty: a nested dictionary kept flat. Every view has a key prefix
    and all views of one tree share one store keyed by whole key paths; a value
    that is itself a dictionary becomes a child view whose prefix is one key
    longer. */
module NestyDict {
  import opened Wrappers

  /** A value handed to `__setitem__`: a plain value or a vanilla dict. */
  datatype PyVal = Str(s: string) | Dict(m: map<string, PyVal>)

  /** What the shared store holds at a path: a plain value or a child view. */
  datatype Stored = Leaf(s: string) | Sub(view: Nesty)

  /** `value` holds the plain value `s` at key path `path`. */
  predicate LeafAt(value: PyVal, path: seq<string>, s: string)
    decreases value
  {
    if path == [] then value == Str(s)
    else value.Dict? && path[0] in value.m && LeafAt(value.m[path[0]], path[1..], s)
  }

  /** The flat dictionary all views of one tree share. */
  class Store {
    var entries: map<seq<string>, Stored>

    constructor ()
      ensures entries == map[]
    {
      entries := map[];
    }
  }

  class Nesty {
    const prefix: seq<string>
    const store: Store
    var keys: set<string>

    /** nesty(): a root view over a new, empty store. */
    constructor Root()
      ensures prefix == [] && keys == {} && fresh(store) && store.entries == map[]
    {
      prefix := [];
      store := new Store();
      keys := {};
    }

    /** A child view, as `__setitem__` creates for a dict value. */
    constructor Child(p: seq<string>, s: Store)
      ensures prefix == p && store == s && keys == {}
    {
      prefix := p;
      store := s;
      keys := {};
    }

    /** nesty.__getitem__: the store entry at prefix + [key]; None for KeyError. */
    function Get(key: string): (r: Option<Stored>)
      reads this, store
      ensures r.Some? <==> prefix + [key] in store.entries
      ensures r.Some? ==> r.value == store.entries[prefix + [key]]
    {
      if prefix + [key] in store.entries then Some(store.entries[prefix + [key]]) else None
    }

    /** nesty.get: `default` for a key this view does not hold, else the lookup
        (which can still raise KeyError, None here, when the store entry went). */
    function GetOr(key: string, default: Stored): (r: Option<Stored>)
      reads this, store
      ensures key !in keys ==> r == Some(default)
      ensures key in keys ==> r == Get(key)
    {
      if key in keys then Get(key) else Some(default)
    }

    /** nesty.__contains__. */
    predicate Contains(key: string)
      reads this
    {
      key in keys
    }

    /** nesty.__len__. */
    function Length(): (n: nat)
      reads this
      ensures n == |keys|
    {
      |keys|
    }

    /** nesty.__setitem__. A plain value goes straight into the store. A dict
        becomes a fresh child view over the same store with prefix + [key], is
        filled key by key, and is then stored at prefix + [key]. Entries outside
        prefix + [key] are untouched; entries left below it by an earlier value
        stay. */
    method Set(key: string, value: PyVal)
      modifies this, store
      decreases value
      ensures keys == old(keys) + {key}
      ensures forall p :: !(prefix + [key] <= p) ==>
                (p in store.entries <==> p in old(store.entries))
                && (p in store.entries ==> store.entries[p] == old(store.entries)[p])
      ensures value.Str? ==> store.entries == old(store.entries)[prefix + [key] := Leaf(value.s)]
      ensures value.Dict? ==>
                && prefix + [key] in store.entries
                && store.entries[prefix + [key]].Sub?
                && var child := store.entries[prefix + [key]].view;
                   fresh(child) && child.prefix == prefix + [key] && child.store == store
                   && child.keys == value.m.Keys
      ensures forall path, s :: LeafAt(value, path, s) ==>
                prefix + [key] + path in store.entries && store.entries[prefix + [key] + path] == Leaf(s)
    {
      var here := prefix + [key];
      if value.Str? {
        store.entries := store.entries[here := Leaf(value.s)];
        keys := keys + {key};
        assert forall path, s :: LeafAt(value, path, s) ==> path == [] && s == value.s;
        assert here + [] == here;
        return;
      }
      var replacement := new Nesty.Child(here, store);
      var todo := value.m.Keys;
      while todo != {}
        invariant todo <= value.m.Keys
        invariant fresh(replacement) && replacement.prefix == here && replacement.store == store
        invariant replacement.keys == value.m.Keys - todo
        invariant keys == old(keys)
        invariant forall p :: !(here <= p) ==>
                    (p in store.entries <==> p in old(store.entries))
                    && (p in store.entries ==> store.entries[p] == old(store.entries)[p])
        invariant forall k, path, s :: k in value.m.Keys - todo && LeafAt(value.m[k], path, s) ==>
                    here + [k] + path in store.entries && store.entries[here + [k] + path] == Leaf(s)
        decreases todo
      {
        var innerKey :| innerKey in todo;
        ghost var before := store.entries;
        replacement.Set(innerKey, value.m[innerKey]);
        forall k, path, s | k in value.m.Keys - todo && LeafAt(value.m[k], path, s)
          ensures here + [k] + path in store.entries && store.entries[here + [k] + path] == Leaf(s)
        {
          assert here + [k] + path in before;
          assert !(here + [innerKey] <= here + [k] + path) by {
            assert (here + [k] + path)[|here|] == k;
          }
        }
        todo := todo - {innerKey};
      }
      ghost var filled := store.entries;
      store.entries := store.entries[here := Sub(replacement)];
      keys := keys + {key};
      forall path, s | LeafAt(value, path, s)
        ensures here + path in store.entries && store.entries[here + path] == Leaf(s)
      {
        assert path != [] && path[0] in value.m.Keys;
        assert LeafAt(value.m[path[0]], path[1..], s);
        assert here + path == here + [path[0]] + path[1..];
        assert here + path in filled && filled[here + path] == Leaf(s);
        assert |here + path| > |here|;
      }
    }

    /** nesty.__delitem__: pop prefix + [key] from the store, drop `key` from this
        view, and delete every store entry below prefix + [key]. Returns false for
        the KeyError of a missing store entry (nothing changed) or of a key this
        view does not hold (raised after the pop). */
    method Delete(key: string) returns (found: bool)
      modifies this, store
      ensures !(prefix + [key] in old(store.entries)) ==> !found && keys == old(keys) && store.entries == old(store.entries)
      ensures prefix + [key] in old(store.entries) && key !in old(keys) ==>
                !found && keys == old(keys) && store.entries == old(store.entries) - {prefix + [key]}
      ensures found <==> prefix + [key] in old(store.entries) && key in old(keys)
      ensures found ==> keys == old(keys) - {key}
      ensures found ==> forall p :: p in store.entries <==> p in old(store.entries) && !(prefix + [key] <= p)
      ensures found ==> forall p :: p in store.entries ==> store.entries[p] == old(store.entries)[p]
    {
      var keyPrefix := prefix + [key];
      if keyPrefix !in store.entries {
        return false;
      }
      store.entries := store.entries - {keyPrefix};
      if key !in keys {
        return false;
      }
      keys := keys - {key};
      var todo := store.entries.Keys;
      while todo != {}
        modifies store
        invariant todo <= store.entries.Keys
        invariant forall p :: p in store.entries <==>
                    p in old(store.entries) && p != keyPrefix && (p in todo || !(keyPrefix <= p))
        invariant forall p :: p in store.entries ==> store.entries[p] == old(store.entries)[p]
        decreases todo
      {
        var p :| p in todo;
        assert keyPrefix <= p <==> |p| >= |keyPrefix| && p[..|keyPrefix|] == keyPrefix;
        if |p| >= |keyPrefix| && p[..|keyPrefix|] == keyPrefix {
          store.entries := store.entries - {p};
        }
        todo := todo - {p};
      }
      return true;
    }

    /** nesty.empty as written: it deletes while iterating over the view's own
        key set, so Python raises RuntimeError at the next step of the iteration.
        On a non-empty view exactly one key is deleted and the call fails. */
    method EmptyAsWritten() returns (ok: bool)
      modifies this, store
      ensures ok <==> old(keys) == {}
      ensures ok ==> keys == {} && store.entries == old(store.entries)
      ensures !ok ==> keys == old(keys) || exists k :: k in old(keys) && keys == old(keys) - {k}
    {
      if keys == {} {
        return true;
      }
      var k :| k in keys;
      var _ := Delete(k);
      return false;
    }

    /** nesty.empty as evidently intended: delete every key of the view. Returns
        false if a deletion raises KeyError (a key whose store entry has gone). */
    method Empty() returns (ok: bool)
      modifies this, store
      ensures ok ==> keys == {}
      ensures ok ==> forall p :: p in store.entries <==>
                p in old(store.entries) && forall k :: k in old(keys) ==> !(prefix + [k] <= p)
      ensures ok <==> forall k :: k in old(keys) ==> prefix + [k] in old(store.entries)
    {
      var todo := keys;
      while todo != {}
        invariant todo == keys && todo <= old(keys)
        invariant forall p :: p in store.entries <==>
                    p in old(store.entries) && forall k :: k in old(keys) - todo ==> !(prefix + [k] <= p)
        invariant forall k :: k in old(keys) - todo ==> prefix + [k] in old(store.entries)
        decreases todo
      {
        var k :| k in todo;
        forall k2 | k2 in todo && k2 != k
          ensures !(prefix + [k] <= prefix + [k2])
        {
          assert (prefix + [k])[|prefix|] == k && (prefix + [k2])[|prefix|] == k2;
        }
        var found := Delete(k);
        if !found {
          return false;
        }
        todo := todo - {k};
      }
      return true;
    }
  }
}
