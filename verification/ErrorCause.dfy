/**
 The search for a data error behind a failed write. Exceptions are numbered; `cause`, `context`
 and SQLAlchemy's `orig` may form any finite graph, cycles included.
 */
module ErrorCause {
  import opened Wrappers

  type Id = nat

  datatype Error = Error(
    isDataError: bool, cause: Option<Id>, context: Option<Id>, orig: Option<Id>)
  {
    predicate LinksTo(id: Id) {
      cause == Some(id) || context == Some(id) || orig == Some(id)
    }
  }

  type Graph = map<Id, Error>

  /** Every link leads to an exception of the graph. */
  ghost predicate Closed(g: Graph) {
    forall a, b :: a in g && g[a].LinksTo(b) ==> b in g
  }

  /** `path` is a chain of links from its first exception to its last. */
  ghost predicate IsPath(g: Graph, path: seq<Id>) {
    && path != [] && (forall i :: 0 <= i < |path| ==> path[i] in g)
    && (forall i :: 0 < i < |path| ==> g[path[i - 1]].LinksTo(path[i]))
  }

  ghost predicate Reaches(g: Graph, start: Id, id: Id) {
    exists path :: IsPath(g, path) && path[0] == start && path[|path| - 1] == id
  }

  lemma ReachesSelf(g: Graph, start: Id)
    requires start in g
    ensures Reaches(g, start, start)
  {
    assert IsPath(g, [start]);
  }

  lemma ReachesNext(g: Graph, start: Id, a: Id, b: Id)
    requires Reaches(g, start, a) && g[a].LinksTo(b) && b in g
    ensures Reaches(g, start, b)
  {
    var path :| IsPath(g, path) && path[0] == start && path[|path| - 1] == a;
    assert IsPath(g, path + [b]);
  }

  /** A set closed under links that holds the start holds everything reachable. */
  lemma {:induction false} ClosedSetHoldsPath(g: Graph, s: set<Id>, path: seq<Id>)
    requires IsPath(g, path) && path[0] in s
    requires forall a, b :: a in s && a in g && g[a].LinksTo(b) ==> b in s
    ensures path[|path| - 1] in s
  {
    if |path| > 1 {
      ClosedSetHoldsPath(g, s, path[..|path| - 1]);
    }
  }

  /** Everything still to be looked at is reachable from the start. */
  ghost predicate AllReached(g: Graph, err: Id, pending: seq<Option<Id>>) {
    forall p :: p in pending && p.Some? ==> p.value in g && Reaches(g, err, p.value)
  }

  /** The start and everything linked from a looked-at exception is looked at or still to be. */
  ghost predicate Explored(g: Graph, err: Id, seen: set<Id>, pending: seq<Option<Id>>) {
    && seen <= g.Keys
    && (err in seen || Some(err) in pending)
    && (forall a :: a in seen ==> !g[a].isDataError)
    && (forall a, b :: a in seen && g[a].LinksTo(b) ==> b in seen || Some(b) in pending)
  }

  function Links(e: Error): seq<Option<Id>> {
    [e.cause, e.context, e.orig]
  }

  lemma LinksReached(g: Graph, err: Id, rest: seq<Option<Id>>, id: Id)
    requires Closed(g) && AllReached(g, err, rest) && id in g && Reaches(g, err, id)
    ensures AllReached(g, err, rest + Links(g[id]))
  {
    forall p | p in Links(g[id]) && p.Some?
      ensures p.value in g && Reaches(g, err, p.value)
    {
      assert g[id].LinksTo(p.value);
      ReachesNext(g, err, id, p.value);
    }
  }

  /** An exception already looked at, or none at all, needs no second look. */
  lemma Skipped(g: Graph, err: Id, seen: set<Id>, rest: seq<Option<Id>>, current: Option<Id>)
    requires Explored(g, err, seen, rest + [current]) && (current.None? || current.value in seen)
    ensures Explored(g, err, seen, rest)
  {
    assert forall p :: p in rest + [current] <==> p in rest || p == current;
  }

  /** Looking at one more exception puts its links on the list. */
  lemma LookedAt(g: Graph, err: Id, seen: set<Id>, rest: seq<Option<Id>>, id: Id)
    requires Explored(g, err, seen, rest + [Some(id)]) && id in g && !g[id].isDataError
    ensures Explored(g, err, seen + {id}, rest + Links(g[id]))
  {
    var (old', new') := (rest + [Some(id)], rest + Links(g[id]));
    assert forall p :: p in old' <==> p in rest || p == Some(id);
    assert forall p :: p in rest ==> p in new';
    assert new'[|rest|] == g[id].cause && new'[|rest| + 1] == g[id].context && new'[|rest| + 2] == g[id].orig;
  }

  lemma FewerReached(g: Graph, err: Id, rest: seq<Option<Id>>, current: Option<Id>)
    requires AllReached(g, err, rest + [current])
    ensures AllReached(g, err, rest)
    ensures current.Some? ==> current.value in g && Reaches(g, err, current.value)
  {
    assert forall p :: p in rest + [current] <==> p in rest || p == current;
  }

  lemma Shrinks(all: set<Id>, seen: set<Id>, id: Id)
    requires id in all && id !in seen
    ensures all - (seen + {id}) < all - seen
  {
    assert id in all - seen && id !in all - (seen + {id});
  }

  /** Nothing left to look at: everything reachable was looked at and is not a data error. */
  lemma NothingMissed(g: Graph, err: Id, seen: set<Id>, id: Id)
    requires Explored(g, err, seen, []) && id in g && Reaches(g, err, id)
    ensures !g[id].isDataError
  {
    var path :| IsPath(g, path) && path[0] == err && path[|path| - 1] == id;
    ClosedSetHoldsPath(g, seen, path);
  }

  /** Ends on every finite graph, and finds a data error if and only if one is reachable. */
  method DataErrorCause(g: Graph, err: Id) returns (r: Option<Id>)
    requires Closed(g) && err in g
    ensures r.Some? ==> r.value in g && g[r.value].isDataError && Reaches(g, err, r.value)
    ensures r.None? ==> forall id :: id in g && Reaches(g, err, id) ==> !g[id].isDataError
  {
    var seen: set<Id> := {};
    var pending: seq<Option<Id>> := [Some(err)];
    ReachesSelf(g, err);
    assert AllReached(g, err, pending) && Explored(g, err, seen, pending);
    hide Reaches, Closed, Explored, AllReached, Links;
    while pending != []
      invariant AllReached(g, err, pending) && Explored(g, err, seen, pending)
      decreases g.Keys - seen, |pending|
    {
      var current := pending[|pending| - 1];
      var rest := pending[..|pending| - 1];
      assert pending == rest + [current];
      FewerReached(g, err, rest, current);
      if current.None? || current.value in seen {
        Skipped(g, err, seen, rest, current);
        pending := rest;
        continue;
      }
      var id := current.value;
      Shrinks(g.Keys, seen, id);
      ghost var before := seen;
      seen := seen + {id};
      if g[id].isDataError {
        return Some(id);
      }
      LookedAt(g, err, before, rest, id);
      LinksReached(g, err, rest, id);
      pending := rest + Links(g[id]);
    }
    forall id | id in g && Reaches(g, err, id)
      ensures !g[id].isDataError
    {
      NothingMissed(g, err, seen, id);
    }
    r := None;
  }
}
