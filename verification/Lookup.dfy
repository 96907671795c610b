/** The string_lookup table and its cache. */
module Lookup {
  import opened Wrappers
  import opened RowIds

  datatype Category = Source | Destination | TelegramType | Direction | SourceName | DestinationName

  datatype Pair = Pair(category: Category, value: string)

  type Table = map<nat, Pair>

  /** The unique constraint on (category, value). */
  ghost predicate Unique(t: Table) {
    forall i, j :: i in t && j in t && t[i] == t[j] ==> i == j
  }

  ghost predicate Extends(t: Table, u: Table) {
    forall id :: id in t ==> id in u && u[id] == t[id]
  }

  predicate Has(t: Table, p: Pair) {
    p in t.Values
  }

  ghost function IdOf(t: Table, p: Pair): (id: nat)
    requires Has(t, p)
    ensures id in t && t[id] == p
  {
    var id :| id in t && t[id] == p;
    id
  }

  /** The next id: above every id in the table, and above `floor`, the part a sequence skipped. */
  function NextId(t: Table, floor: nat): (id: nat)
    ensures id !in t
  {
    1 + if floor > MaxOf(t.Keys) then floor else MaxOf(t.Keys)
  }

  /** INSERT OR IGNORE of one pair. */
  function Interned(t: Table, p: Pair, floor: nat): Table {
    if Has(t, p) then t else t[NextId(t, floor) := p]
  }

  function InternedAll(t: Table, pairs: seq<Pair>, floor: nat): Table {
    if pairs == [] then t
    else Interned(InternedAll(t, pairs[..|pairs| - 1], floor), pairs[|pairs| - 1], floor)
  }

  lemma InternedKeeps(t: Table, p: Pair, floor: nat)
    requires Unique(t)
    ensures Unique(Interned(t, p, floor)) && Extends(t, Interned(t, p, floor)) && Has(Interned(t, p, floor), p)
  {
    var u := Interned(t, p, floor);
    if !Has(t, p) {
      assert NextId(t, floor) in u && u[NextId(t, floor)] == p;
      assert forall i :: i in t ==> t[i] in t.Values;
    }
  }

  lemma HasExtends(t: Table, u: Table, p: Pair)
    requires Extends(t, u) && Has(t, p)
    ensures Has(u, p)
  {
    var id :| id in t && t[id] == p;
    assert id in u && u[id] == p;
  }

  lemma {:induction false} InternedAllKeeps(t: Table, pairs: seq<Pair>, floor: nat)
    requires Unique(t)
    ensures var u := InternedAll(t, pairs, floor);
            Unique(u) && Extends(t, u) && forall p :: p in pairs ==> Has(u, p)
  {
    if pairs != [] {
      var (front, last) := (pairs[..|pairs| - 1], pairs[|pairs| - 1]);
      InternedAllKeeps(t, front, floor);
      var u := InternedAll(t, front, floor);
      InternedKeeps(u, last, floor);
      forall p | p in pairs
        ensures Has(Interned(u, last, floor), p)
      {
        if p != last {
          assert pairs == front + [last];
          HasExtends(u, Interned(u, last, floor), p);
        }
      }
    }
  }

  /** Only strings that were asked for are added. */
  lemma {:induction false} InternedAllAddsOnly(t: Table, pairs: seq<Pair>, floor: nat, p: Pair)
    requires Has(InternedAll(t, pairs, floor), p)
    ensures Has(t, p) || p in pairs
  {
    if pairs != [] {
      var (front, last) := (pairs[..|pairs| - 1], pairs[|pairs| - 1]);
      if p != last {
        var u := InternedAll(t, front, floor);
        var id :| id in Interned(u, last, floor) && Interned(u, last, floor)[id] == p;
        assert id in u && u[id] == p;
        InternedAllAddsOnly(t, front, floor, p);
        assert pairs == front + [last];
      }
    }
  }

  ghost predicate CacheOk(cache: map<Pair, nat>, t: Table) {
    forall p :: p in cache ==> cache[p] in t && t[cache[p]] == p
  }

  lemma CacheOkExtends(cache: map<Pair, nat>, t: Table, u: Table)
    requires CacheOk(cache, t) && Extends(t, u)
    ensures CacheOk(cache, u)
  {
  }

  lemma CacheOkMerged(a: map<Pair, nat>, b: map<Pair, nat>, t: Table)
    requires CacheOk(a, t) && CacheOk(b, t)
    ensures CacheOk(a + b, t)
  {
  }

  function Uncached(cache: map<Pair, nat>, pairs: seq<Pair>): seq<Pair> {
    if pairs == [] then []
    else Uncached(cache, pairs[..|pairs| - 1])
         + (if pairs[|pairs| - 1] in cache then [] else [pairs[|pairs| - 1]])
  }

  /** Skipping cached strings makes no difference to the table: a correct cache is transparent. */
  lemma {:induction false} CacheIsTransparent(cache: map<Pair, nat>, t: Table, pairs: seq<Pair>, floor: nat)
    requires Unique(t) && CacheOk(cache, t)
    ensures InternedAll(t, Uncached(cache, pairs), floor) == InternedAll(t, pairs, floor)
  {
    if pairs != [] {
      var (front, last) := (pairs[..|pairs| - 1], pairs[|pairs| - 1]);
      CacheIsTransparent(cache, t, front, floor);
      if last in cache {
        InternedAllKeeps(t, front, floor);
        assert cache[last] in InternedAll(t, front, floor);
        assert Has(InternedAll(t, front, floor), last);
        assert Uncached(cache, pairs) == Uncached(cache, front);
      } else {
        var u := Uncached(cache, front) + [last];
        assert u[..|u| - 1] == Uncached(cache, front);
      }
    }
  }

  lemma {:induction false} UncachedMembers(cache: map<Pair, nat>, pairs: seq<Pair>, p: Pair)
    ensures p in Uncached(cache, pairs) <==> p in pairs && p !in cache
  {
    if pairs != [] {
      UncachedMembers(cache, pairs[..|pairs| - 1], p);
      assert pairs == pairs[..|pairs| - 1] + [pairs[|pairs| - 1]];
    }
  }

  ghost function IdsOf(t: Table, pairs: seq<Pair>): (ids: map<Pair, nat>)
    requires forall p :: p in pairs ==> Has(t, p)
  {
    map p | p in pairs :: IdOf(t, p)
  }

  /** Ids that resolve to their own strings are the table's ids: there is no second choice. */
  lemma IdsAreDetermined(t: Table, pairs: seq<Pair>, ids: map<Pair, nat>)
    requires Unique(t) && CacheOk(ids, t) && forall p :: p in ids <==> p in pairs
    requires forall p :: p in pairs ==> Has(t, p)
    ensures ids == IdsOf(t, pairs)
  {
  }

  class LookupCache {
    var cache: map<Pair, nat>

    constructor ()
      ensures cache == map[]
    {
      cache := map[];
    }

    method Warm(t: Table)
      requires Unique(t)
      modifies this
      ensures old(CacheOk(cache, t)) ==> CacheOk(cache, t)
      ensures forall id :: id in t ==> t[id] in cache && cache[t[id]] == id
    {
      var rest := t.Keys;
      while rest != {}
        invariant rest <= t.Keys
        invariant old(CacheOk(cache, t)) ==> CacheOk(cache, t)
        invariant forall id :: id in t && id !in rest ==> t[id] in cache && cache[t[id]] == id
        decreases rest
      {
        var id :| id in rest;
        cache := cache[t[id] := id];
        rest := rest - {id};
      }
    }

    /** Resolves pairs inside a transaction that sees the table `t` and leaves `u`. */
    method GetOrCreateIds(t: Table, pairs: seq<Pair>, floor: nat) returns (resolved: map<Pair, nat>, u: Table)
      requires Unique(t) && CacheOk(cache, t)
      ensures u == InternedAll(t, pairs, floor)
      ensures Unique(u) && Extends(t, u) && forall p :: p in pairs ==> Has(u, p)
      ensures forall p :: p in resolved <==> p in pairs
      ensures CacheOk(resolved, u)
    {
      hide InternedAll, Unique, Extends, Has;
      resolved, u := map[], t;
      var toResolve: seq<Pair> := [];
      var n := 0;
      while n < |pairs|
        invariant n <= |pairs| && toResolve == Uncached(cache, pairs[..n])
        invariant forall p :: p in resolved <==> p in pairs[..n] && p in cache
        invariant forall p :: p in resolved ==> resolved[p] == cache[p]
      {
        assert pairs[..n + 1][..n] == pairs[..n] && pairs[..n + 1] == pairs[..n] + [pairs[n]];
        if pairs[n] in cache {
          resolved := resolved[pairs[n] := cache[pairs[n]]];
        } else {
          toResolve := toResolve + [pairs[n]];
        }
        n := n + 1;
      }
      assert pairs[..n] == pairs;
      CacheIsTransparent(cache, t, pairs, floor);
      InternedAllKeeps(t, pairs, floor);
      CacheOkExtends(cache, t, InternedAll(t, pairs, floor));
      var fetched;
      u, fetched := InsertAndFetch(t, toResolve, floor);
      forall p | p in pairs
        ensures p in fetched || p in cache
      {
        UncachedMembers(cache, pairs, p);
      }
      forall p | p in fetched
        ensures p in pairs
      {
        UncachedMembers(cache, pairs, p);
      }
      resolved := resolved + fetched;
    }

    method Publish(resolved: map<Pair, nat>)
      modifies this
      ensures cache == old(cache) + resolved
    {
      cache := cache + resolved;
    }
  }

  /** The inserts, then one SELECT for all of their ids. */
  method InsertAndFetch(t: Table, toResolve: seq<Pair>, floor: nat) returns (u: Table, fetched: map<Pair, nat>)
    requires Unique(t)
    ensures u == InternedAll(t, toResolve, floor)
    ensures CacheOk(fetched, u) && forall p :: p in fetched <==> p in toResolve
  {
    u := t;
    var n := 0;
    while n < |toResolve|
      invariant n <= |toResolve| && u == InternedAll(t, toResolve[..n], floor)
    {
      assert toResolve[..n + 1][..n] == toResolve[..n];
      u := Interned(u, toResolve[n], floor);
      n := n + 1;
    }
    assert toResolve[..n] == toResolve;
    InternedAllKeeps(t, toResolve, floor);
    fetched := map[];
    var rest := u.Keys;
    while rest != {}
      invariant rest <= u.Keys && CacheOk(fetched, u)
      invariant forall p :: p in fetched ==> p in toResolve
      invariant forall id :: id in u && id !in rest && u[id] in toResolve ==> u[id] in fetched
      decreases rest
    {
      var id :| id in rest;
      if u[id] in toResolve {
        fetched := fetched[u[id] := id];
      }
      rest := rest - {id};
    }
    forall p | p in toResolve
      ensures p in fetched
    {
      assert Has(u, p);
      var id :| id in u && u[id] == p;
    }
  }
}
