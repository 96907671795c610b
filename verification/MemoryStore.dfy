/** The in-memory store without its size cap: a list of telegrams, and what the other stores must agree with. */
module MemoryStore {
  import opened Wrappers
  import opened Lists
  import opened Telegrams

  ghost predicate NearSome(q: Query, t: int, pivots: seq<int>) {
    exists i :: 0 <= i < |pivots| && Near(q, t, pivots[i])
  }

  function Keep(q: Query): Telegram -> bool {
    t => Matches(q, t)
  }

  ghost function KeepNear(q: Query, pivots: seq<int>): Telegram -> bool {
    (t: Telegram) => NearSome(q, t.timestamp, pivots)
  }

  /** The rows a query is about, before ordering and paging. */
  ghost function Selected(telegrams: seq<Telegram>, q: Query): seq<Telegram> {
    var matching := Filter(telegrams, Keep(q));
    if HasWindow(q) then
      var pivots := Apply(TimeOf, matching);
      Filter(telegrams, KeepNear(q, pivots))
    else matching
  }

  ghost function Answer(telegrams: seq<Telegram>, q: Query): QueryResult {
    var rows := Selected(telegrams, q);
    var ordered := StableSort(rows, TimeOf, q.orderDescending);
    QueryResult(Page(ordered, q.offset, q.limit), |rows|, |rows| > q.offset + q.limit)
  }

  /**
   What an answer is, spelled out: `ordered` is the selection by time, the telegrams are those from the
   offset on, as many as the limit allows, and the flag says whether any lies behind them.
   */
  ghost predicate Answers(selected: seq<Telegram>, ordered: seq<Telegram>, q: Query, r: QueryResult) {
    && multiset(ordered) == multiset(selected) && |ordered| == |selected|
    && (forall i, j :: 0 <= i < j < |ordered| ==>
          if q.orderDescending then ordered[i].timestamp >= ordered[j].timestamp
          else ordered[i].timestamp <= ordered[j].timestamp)
    && |r.telegrams| == (if |selected| <= q.offset then 0
                         else if |selected| - q.offset <= q.limit then |selected| - q.offset else q.limit)
    && (forall i :: 0 <= i < |r.telegrams| ==> r.telegrams[i] == ordered[q.offset + i])
    && r.totalCount == |selected|
    && (r.limitReached <==> q.offset + q.limit < |selected|)
  }

  /** Telegrams of one timestamp stand in the order they were written. */
  ghost predicate TiesAsWritten(selected: seq<Telegram>, ordered: seq<Telegram>) {
    forall time :: Filter(ordered, At(time)) == Filter(selected, At(time))
  }

  function At(time: int): Telegram -> bool {
    (t: Telegram) => t.timestamp == time
  }

  /** What a query selects: matching telegrams or, with a window, every telegram close enough in time to a matching one. */
  lemma SelectionMeans(telegrams: seq<Telegram>, q: Query, x: Telegram)
    ensures x in Selected(telegrams, q) <==>
      && x in telegrams
      && if q.deltaBeforeMs > 0 || q.deltaAfterMs > 0
         then exists p :: p in telegrams && Matches(q, p)
                && p.timestamp - x.timestamp <= 1000 * q.deltaBeforeMs && x.timestamp - p.timestamp <= 1000 * q.deltaAfterMs
         else Matches(q, x)
  {
    var matching := Filter(telegrams, Keep(q));
    var pivots := Apply(TimeOf, matching);
    hide Matches, Filter;
    FilterMembers(telegrams, Keep(q), x);
    FilterMembers(telegrams, KeepNear(q, pivots), x);
    if NearSome(q, x.timestamp, pivots) {
      var i :| 0 <= i < |pivots| && Near(q, x.timestamp, pivots[i]);
      FilterMembers(telegrams, Keep(q), matching[i]);
    }
    forall p | p in telegrams && Matches(q, p) && Near(q, x.timestamp, p.timestamp)
      ensures NearSome(q, x.timestamp, pivots)
    {
      FilterMembers(telegrams, Keep(q), p);
      var i :| 0 <= i < |matching| && matching[i] == p;
      assert pivots[i] == p.timestamp;
    }
  }

  lemma PageOfOrdering(selected: seq<Telegram>, ordered: seq<Telegram>, q: Query, r: QueryResult)
    requires IsOrdering(ordered, selected, TimeOf, q.orderDescending)
    requires r == QueryResult(Page(ordered, q.offset, q.limit), |selected|, |selected| > q.offset + q.limit)
    ensures Answers(selected, ordered, q, r)
  {
    assert |multiset(ordered)| == |multiset(selected)|;
    hide Page;
    forall i, j | 0 <= i < j < |ordered|
      ensures InOrder(ordered[i].timestamp, ordered[j].timestamp, q.orderDescending)
    {
      assert InOrder(TimeOf(ordered[i]), TimeOf(ordered[j]), q.orderDescending);
    }
  }

  /** The memory store's own answer, whose ties stand as written. */
  lemma AnswerMeans(telegrams: seq<Telegram>, q: Query) returns (ordered: seq<Telegram>)
    ensures Answers(Selected(telegrams, q), ordered, q, Answer(telegrams, q))
    ensures TiesAsWritten(Selected(telegrams, q), ordered)
  {
    var selected := Selected(telegrams, q);
    hide Selected, StableSort, Page;
    ordered := StableSort(selected, TimeOf, q.orderDescending);
    StableSortIsOrdering(selected, TimeOf, q.orderDescending);
    PageOfOrdering(selected, ordered, q, Answer(telegrams, q));
    forall time
      ensures Filter(ordered, At(time)) == Filter(selected, At(time))
    {
      StableSortIsStable(selected, TimeOf, q.orderDescending, At(time));
    }
  }

  /** One pass over the telegrams: the first of the newest, per destination. */
  function LastOf(telegrams: seq<Telegram>): map<string, Telegram> {
    if telegrams == [] then map[]
    else Newer(LastOf(telegrams[..|telegrams| - 1]), telegrams[|telegrams| - 1])
  }

  function Newer(last: map<string, Telegram>, t: Telegram): map<string, Telegram> {
    if t.destination !in last || t.timestamp > last[t.destination].timestamp then last[t.destination := t] else last
  }

  /** `bisect.bisect_left`: the first position whose value is not below `x`. */
  method BisectLeft(a: seq<int>, x: int) returns (index: nat)
    requires forall i, j :: 0 <= i < j < |a| ==> a[i] <= a[j]
    ensures index <= |a|
    ensures forall i :: 0 <= i < index ==> a[i] < x
    ensures forall i :: index <= i < |a| ==> a[i] >= x
  {
    var lo, hi := 0, |a|;
    while lo < hi
      invariant 0 <= lo <= hi <= |a|
      invariant forall i :: 0 <= i < lo ==> a[i] < x
      invariant forall i :: hi <= i < |a| ==> a[i] >= x
    {
      var mid := (lo + hi) / 2;
      if a[mid] < x {
        lo := mid + 1;
      } else {
        hi := mid;
      }
    }
    index := lo;
  }

  function Identity(x: int): int {
    x
  }

  /** One bisection into the sorted pivots decides whether any pivot is near. */
  method InWindow(q: Query, timestamp: int, sorted: seq<int>, ghost pivots: seq<int>) returns (b: bool)
    requires IsOrdering(sorted, pivots, Identity, false)
    ensures b <==> NearSome(q, timestamp, pivots)
  {
    var low, high := timestamp - q.deltaAfterMs * 1000, timestamp + q.deltaBeforeMs * 1000;
    var index := BisectLeft(sorted, low);
    b := index < |sorted| && sorted[index] <= high;
    if b {
      assert sorted[index] in multiset(pivots);
      ghost var i :| 0 <= i < |pivots| && pivots[i] == sorted[index];
      assert Near(q, timestamp, pivots[i]);
    } else if NearSome(q, timestamp, pivots) {
      ghost var i :| 0 <= i < |pivots| && Near(q, timestamp, pivots[i]);
      assert pivots[i] in multiset(sorted);
      ghost var j :| 0 <= j < |sorted| && sorted[j] == pivots[i];
    }
  }

  class Store {
    var telegrams: seq<Telegram>

    constructor ()
      ensures telegrams == []
    {
      telegrams := [];
    }

    method StoreMany(batch: seq<Telegram>)
      modifies this
      ensures telegrams == old(telegrams) + batch
    {
      telegrams := telegrams + batch;
    }

    method Clear()
      modifies this
      ensures telegrams == []
    {
      telegrams := [];
    }

    /** The filters, one comprehension after the other. */
    method ApplyFilters(q: Query) returns (results: seq<Telegram>)
      ensures results == Filter(telegrams, Keep(q))
    {
      ghost var p := (t: Telegram) => true;
      FilterAll(telegrams, p);
      hide Filter, DptMatch;
      results := telegrams;
      results, p := Narrow(q.sources != [], results, (t: Telegram) => t.source in q.sources, telegrams, p);
      results, p := Narrow(q.destinations != [], results, (t: Telegram) => t.destination in q.destinations, telegrams, p);
      results, p := Narrow(q.telegramTypes != [], results, (t: Telegram) => t.telegramtype in q.telegramTypes, telegrams, p);
      results, p := Narrow(q.directions != [], results, (t: Telegram) => t.direction in q.directions, telegrams, p);
      results, p := Narrow(q.dptMains != [] || q.dpts != [], results,
                           (t: Telegram) => DptMatch(q, t.dptMain, t.dptSub), telegrams, p);
      results, p := Narrow(q.startTime.Some?, results,
                           (t: Telegram) => q.startTime.Some? && t.timestamp >= q.startTime.value, telegrams, p);
      results, p := Narrow(q.endTime.Some?, results,
                           (t: Telegram) => q.endTime.Some? && t.timestamp <= q.endTime.value, telegrams, p);
      assert forall t: Telegram :: p(t) == Matches(q, t);
      hide Matches;
      FilterSame(telegrams, p, Keep(q));
    }

    /** Every telegram near some pivot, in storage order. */
    method ContextWindow(q: Query, matching: seq<Telegram>) returns (context: seq<Telegram>)
      ensures context == Filter(telegrams, KeepNear(q, Apply(TimeOf, matching)))
    {
      ghost var near := KeepNear(q, Apply(TimeOf, matching));
      var sorted := StableSort(Apply(TimeOf, matching), Identity, false);
      StableSortIsOrdering(Apply(TimeOf, matching), Identity, false);
      context := [];
      var n := 0;
      while n < |telegrams|
        invariant n <= |telegrams| && context == Filter(telegrams[..n], near)
      {
        var inside := InWindow(q, telegrams[n].timestamp, sorted, Apply(TimeOf, matching));
        assert telegrams[..n + 1][..n] == telegrams[..n];
        if inside {
          context := context + [telegrams[n]];
        }
        n := n + 1;
      }
      assert telegrams[..n] == telegrams;
    }

    method Query(q: Query) returns (r: QueryResult, ghost ordered: seq<Telegram>)
      ensures r == Answer(telegrams, q)
      ensures Answers(Selected(telegrams, q), ordered, q, r) && TiesAsWritten(Selected(telegrams, q), ordered)
    {
      var results := ApplyFilters(q);
      if q.deltaBeforeMs > 0 || q.deltaAfterMs > 0 {
        results := ContextWindow(q, results);
      }
      var sorted := StableSort(results, TimeOf, q.orderDescending);
      r := QueryResult(Page(sorted, q.offset, q.limit), |results|, |results| > q.offset + q.limit);
      assert r == Answer(telegrams, q);
      ordered := AnswerMeans(telegrams, q);
    }

    method GetLastUniqueTelegrams() returns (last: map<string, Telegram>)
      ensures last == LastOf(telegrams)
    {
      last := map[];
      var n := 0;
      while n < |telegrams|
        invariant n <= |telegrams| && last == LastOf(telegrams[..n])
      {
        var t := telegrams[n];
        assert telegrams[..n + 1][..n] == telegrams[..n];
        if t.destination !in last || t.timestamp > last[t.destination].timestamp {
          last := last[t.destination := t];
        }
        n := n + 1;
      }
      assert telegrams[..n] == telegrams;
    }
  }

  /** `if active: results = [t for t in results if c(t)]` */
  method Narrow(active: bool, results: seq<Telegram>, c: Telegram -> bool,
                ghost telegrams: seq<Telegram>, ghost p: Telegram -> bool)
      returns (r: seq<Telegram>, ghost narrowed: Telegram -> bool)
    requires results == Filter(telegrams, p)
    ensures r == Filter(telegrams, narrowed)
    ensures forall t :: narrowed(t) <==> p(t) && (active ==> c(t))
  {
    r, narrowed := results, p;
    if active {
      r := Filter(results, c);
      narrowed := t => p(t) && c(t);
      FilterTwice(telegrams, p, c, narrowed);
    }
  }

  // ---- What the window and the last values mean ----

  /** A destination's last value is the first-written telegram among its newest ones. */
  ghost predicate FirstOfNewest(telegrams: seq<Telegram>, destination: string, t: Telegram) {
    exists i :: 0 <= i < |telegrams| && IsFirstOfNewest(telegrams, destination, i) && telegrams[i] == t
  }

  ghost predicate IsFirstOfNewest(telegrams: seq<Telegram>, destination: string, i: nat)
    requires i < |telegrams|
  {
    && telegrams[i].destination == destination
    && forall j :: 0 <= j < |telegrams| && telegrams[j].destination == destination ==>
         telegrams[j].timestamp <= telegrams[i].timestamp && (j < i ==> telegrams[j].timestamp < telegrams[i].timestamp)
  }

  lemma {:induction false} LastOfIsFirstOfNewest(telegrams: seq<Telegram>, destination: string)
    ensures destination in LastOf(telegrams) <==> exists t :: t in telegrams && t.destination == destination
    ensures destination in LastOf(telegrams) ==> FirstOfNewest(telegrams, destination, LastOf(telegrams)[destination])
  {
    if telegrams != [] {
      var (front, t) := (telegrams[..|telegrams| - 1], telegrams[|telegrams| - 1]);
      assert telegrams == front + [t];
      LastOfIsFirstOfNewest(front, destination);
      if destination in LastOf(front) {
        var i :| 0 <= i < |front| && IsFirstOfNewest(front, destination, i) && front[i] == LastOf(front)[destination];
        if t.destination == destination && t.timestamp > front[i].timestamp {
          assert IsFirstOfNewest(telegrams, destination, |front|);
        } else {
          assert IsFirstOfNewest(telegrams, destination, i);
        }
      } else if t.destination == destination {
        assert forall x :: x in front ==> x.destination != destination;
        assert IsFirstOfNewest(telegrams, destination, |front|);
      }
    }
  }
}
