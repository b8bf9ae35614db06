/** The one-to-one and one-to-many caches, updated in place. */
module Caches {
  import opened Strings
  import opened Wrappers
  import opened Model

  /** utils.AviCache */
  class AviCache<V> {
    var cache: map<NamespaceName, V>

    constructor ()
      ensures cache == map[]
    {
      cache := map[];
    }

    method AviCacheGet(k: NamespaceName) returns (v: Option<V>)
      ensures v == if k in cache then Some(cache[k]) else None
    {
      v := if k in cache then Some(cache[k]) else None;
    }

    method AviCacheAdd(k: NamespaceName, v: V)
      modifies this
      ensures cache == old(cache)[k := v]
    {
      cache := cache[k := v];
    }

    method AviCacheDelete(k: NamespaceName)
      modifies this
      ensures cache == old(cache) - {k}
    {
      cache := cache - {k};
    }
  }

  type Relation = set<(NamespaceName, string)>

  ghost function ValuesOf(rel: Relation, k: NamespaceName): set<string> {
    set p | p in rel && p.0 == k :: p.1
  }

  ghost predicate HasKey(rel: Relation, k: NamespaceName) {
    exists v :: (k, v) in rel
  }

  /** The first of the slash-separated segments of a cached value: the kind of object that put it there. */
  function Prefix(v: string): string {
    Split(v, "/")[0]
  }

  /** The values of one key: a map shared with whoever has asked for it. */
  class Inner {
    var vals: set<string>

    constructor (v: string)
      ensures vals == {v}
    {
      vals := {v};
    }
  }

  /** utils.AviMultiCache */
  class AviMultiCache {
    var cache: map<NamespaceName, Inner>

    ghost function Inners(): set<Inner>
      reads this
    {
      set k | k in cache :: cache[k]
    }

    /** Every present key has a value, and no two keys share their inner map. */
    ghost predicate Valid()
      reads this, Inners()
    {
      && (forall k :: k in cache ==> cache[k].vals != {})
      && (forall j, k :: j in cache && k in cache && j != k ==> cache[j] != cache[k])
    }

    /** The cache as a set of pairs. */
    ghost function Rel(): Relation
      reads this, Inners()
    {
      set k, v | k in cache && v in cache[k].vals :: (k, v)
    }

    /** A key is present exactly when some pair mentions it. */
    lemma {:induction false} KeyPresent(k: NamespaceName)
      requires Valid()
      ensures k in cache <==> HasKey(Rel(), k)
      ensures k in cache ==> cache[k].vals == ValuesOf(Rel(), k)
    {
      if k in cache {
        var v :| v in cache[k].vals;
        assert (k, v) in Rel();
        forall u
          ensures u in cache[k].vals <==> u in ValuesOf(Rel(), k)
        {
          assert u in cache[k].vals <==> (k, u) in Rel();
        }
      }
    }

    constructor ()
      ensures Valid() && Rel() == {} && Inners() == {}
    {
      cache := map[];
    }

    /** The live inner map of a key, not a copy. */
    method AviMultiCacheGetKey(k: NamespaceName) returns (inner: Option<Inner>)
      ensures inner == if k in cache then Some(cache[k]) else None
    {
      inner := if k in cache then Some(cache[k]) else None;
    }

    method AviMultiCacheLookup(k: NamespaceName, v: string) returns (found: bool)
      ensures found <==> (k, v) in Rel()
    {
      found := k in cache && v in cache[k].vals;
    }

    method AviMultiCacheAdd(k: NamespaceName, v: string)
      requires Valid()
      modifies this, Inners()
      ensures Valid() && fresh(Inners() - old(Inners()))
      ensures Rel() == old(Rel()) + {(k, v)}
    {
      if k in cache {
        var inner := cache[k];
        inner.vals := inner.vals + {v};
      } else {
        var inner := new Inner(v);
        cache := cache[k := inner];
      }
    }

    method AviMultiCacheDeleteVal(k: NamespaceName, v: string)
      requires Valid()
      modifies this, Inners()
      ensures Valid() && Inners() <= old(Inners())
      ensures Rel() == old(Rel()) - {(k, v)}
      ensures old(k in cache) ==> old(cache[k]).vals == old(cache[k].vals) - {v}
      ensures k in cache ==> old(k in cache) && cache[k] == old(cache)[k]
    {
      if k in cache {
        var inner := cache[k];
        inner.vals := inner.vals - {v};
        if |inner.vals| == 0 {
          cache := cache - {k};
        }
      }
    }

    method AviMultiCacheDeleteKey(k: NamespaceName)
      requires Valid()
      modifies this
      ensures Valid() && Inners() <= old(Inners())
      ensures Rel() == set p | p in old(Rel()) && p.0 != k
    {
      cache := cache - {k};
    }
  }

  /** The pairs of `rel` under `key` whose value does not start with `prefix`, and every pair of other keys. */
  ghost function Without(rel: Relation, key: NamespaceName, prefix: string): Relation {
    set p | p in rel && !(p.0 == key && Prefix(p.1) == prefix)
  }

  /** `rel` after the visited values of `key` that start with `prefix` have been deleted. */
  ghost function Pruned(rel: Relation, key: NamespaceName, prefix: string, visited: set<string>): Relation {
    set p | p in rel && !(p.0 == key && p.1 in visited && Prefix(p.1) == prefix)
  }

  lemma {:induction false} PrunedMore(rel: Relation, key: NamespaceName, prefix: string, visited: set<string>,
                                      v: string)
    ensures Pruned(rel, key, prefix, visited + {v}) ==
            if Prefix(v) == prefix then Pruned(rel, key, prefix, visited) - {(key, v)}
              else Pruned(rel, key, prefix, visited)
  {
  }

  lemma {:induction false} PrunedAll(rel: Relation, key: NamespaceName, prefix: string, visited: set<string>)
    requires ValuesOf(Pruned(rel, key, prefix, visited), key) <= visited
    ensures Pruned(rel, key, prefix, visited) == Without(rel, key, prefix)
  {
    forall p | p in rel && p.0 == key && Prefix(p.1) == prefix
      ensures p.1 in visited
    {
      assert p.1 in visited || p.1 in ValuesOf(Pruned(rel, key, prefix, visited), key);
    }
  }

  /**
   * aviobjects.AviSvcToPoolCacheDel: ranges over the live inner map while deleting from it. A range over a Go
   * map visits each entry at most once and skips those already deleted; any order may come up.
   */
  method AviSvcToPoolCacheDel(mc: AviMultiCache, prefix: string, key: NamespaceName)
    requires mc.Valid()
    modifies mc, mc.Inners()
    ensures mc.Valid() && mc.Inners() <= old(mc.Inners())
    ensures mc.Rel() == Without(old(mc.Rel()), key, prefix)
    ensures key in mc.cache <==> exists v :: (key, v) in old(mc.Rel()) && Prefix(v) != prefix
  {
    var found := mc.AviMultiCacheGetKey(key);
    if found.None? {
      mc.KeyPresent(key);
      return;
    }
    var live := found.value;
    mc.KeyPresent(key);
    ghost var rel0 := mc.Rel();
    var visited := {};
    while live.vals - visited != {}
      invariant mc.Valid() && mc.Inners() <= old(mc.Inners())
      invariant key in mc.cache ==> mc.cache[key] == live
      invariant live.vals == ValuesOf(mc.Rel(), key)
      invariant mc.Rel() == Pruned(rel0, key, prefix, visited)
      decreases live.vals - visited
    {
      var v :| v in live.vals - visited;
      PrunedMore(rel0, key, prefix, visited, v);
      visited := visited + {v};
      if prefix == Split(v, "/")[0] {
        mc.AviMultiCacheDeleteVal(key, v);
      }
    }
    PrunedAll(rel0, key, prefix, visited);
    mc.KeyPresent(key);
  }
}
