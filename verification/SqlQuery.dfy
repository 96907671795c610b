/**
 The query over the interned tables: WHERE in SQL's three-valued logic, paging before the joins,
 and its agreement with the memory store's query.
 */
module SqlQuery {
  import opened Wrappers
  import opened Lists
  import opened Telegrams
  import opened Lookup
  import opened SqlStore
  import MemoryStore
  import SqlRuns

  // ---- Three-valued conditions ----

  datatype Truth = True | False | Unknown

  function Of(b: bool): Truth {
    if b then True else False
  }

  function And3(a: Truth, b: Truth): Truth {
    if a == False || b == False then False
    else if a == Unknown || b == Unknown then Unknown
    else True
  }

  function Or3(a: Truth, b: Truth): Truth {
    if a == True || b == True then True
    else if a == Unknown || b == Unknown then Unknown
    else False
  }

  function AndAll(s: seq<Truth>): Truth {
    if s == [] then True else And3(s[0], AndAll(s[1..]))
  }

  function OrAll(s: seq<Truth>): Truth {
    if s == [] then False else Or3(s[0], OrAll(s[1..]))
  }

  lemma {:induction false} OrAllTrue(s: seq<Truth>)
    ensures OrAll(s) == True <==> True in s
  {
    if s != [] {
      OrAllTrue(s[1..]);
    }
  }

  /** `column = value`: unknown on NULL. */
  function Equals(column: Option<int>, value: int): Truth {
    if column.None? then Unknown else Of(column.value == value)
  }

  function In(column: Option<int>, values: seq<int>): Truth {
    if values == [] then False
    else if column.None? then Unknown
    else Of(column.value in values)
  }

  // ---- The WHERE clause ----

  /** SELECT id FROM string_lookup WHERE category = c AND value IN (values) */
  function IdsFor(t: Lookup.Table, c: Category, values: seq<string>): set<nat> {
    set id | id in t && t[id].category == c && t[id].value in values
  }

  function DptCondition(dpt: (int, Option<int>), r: Row): Truth {
    if dpt.1.None? then Equals(r.dptMain, dpt.0)
    else And3(Equals(r.dptMain, dpt.0), Equals(r.dptSub, dpt.1.value))
  }

  function DptConditions(q: Query, r: Row): seq<Truth> {
    (if q.dptMains == [] then [] else [In(r.dptMain, q.dptMains)])
    + seq(|q.dpts|, i requires 0 <= i < |q.dpts| => DptCondition(q.dpts[i], r))
  }

  /** A filter with the query's reason to add it. */
  datatype Candidate = Candidate(wanted: bool, condition: Truth)

  /** `if wanted: filters.append(condition)`, one after the other. */
  function Collected(candidates: seq<Candidate>): seq<Truth> {
    if candidates == [] then []
    else (if candidates[0].wanted then [candidates[0].condition] else []) + Collected(candidates[1..])
  }

  function StringFilter(t: Lookup.Table, c: Category, id: nat, values: seq<string>): Candidate {
    Candidate(values != [], Of(id in IdsFor(t, c, values)))
  }

  function DptFilter(q: Query, r: Row): Candidate {
    Candidate(DptConditions(q, r) != [], OrAll(DptConditions(q, r)))
  }

  function StartFilter(q: Query, r: Row): Candidate {
    Candidate(q.startTime.Some?, Of(q.startTime.Some? && r.timestamp >= q.startTime.value))
  }

  function EndFilter(q: Query, r: Row): Candidate {
    Candidate(q.endTime.Some?, Of(q.endTime.Some? && r.timestamp <= q.endTime.value))
  }

  function FilterList(source: Candidate, destination: Candidate, telegramtype: Candidate, direction: Candidate,
                      dpt: Candidate, start: Candidate, end: Candidate): seq<Truth> {
    Collected([source, destination, telegramtype, direction, dpt, start, end])
  }

  /** The filter list for one row; whether it is empty depends on the query alone. */
  function Filters(t: Lookup.Table, q: Query, r: Row): seq<Truth> {
    FilterList(StringFilter(t, Source, r.sourceId, q.sources),
               StringFilter(t, Destination, r.destinationId, q.destinations),
               StringFilter(t, TelegramType, r.telegramtypeId, q.telegramTypes),
               StringFilter(t, Direction, r.directionId, q.directions),
               DptFilter(q, r), StartFilter(q, r), EndFilter(q, r))
  }

  predicate HasFilters(q: Query) {
    || q.sources != [] || q.destinations != [] || q.telegramTypes != [] || q.directions != []
    || q.dptMains != [] || q.dpts != [] || q.startTime.Some? || q.endTime.Some?
  }

  predicate Passes(t: Lookup.Table, q: Query, r: Row) {
    AndAll(Filters(t, q, r)) == True
  }

  /** EXISTS over the pivots when there is a window and something to filter by, else the filters themselves. */
  ghost predicate Where(db: Db, q: Query, r: Row) {
    if HasWindow(q) && HasFilters(q)
    then exists p :: p in db.telegrams && Passes(db.lookup, q, p) && Near(q, r.timestamp, p.timestamp)
    else Passes(db.lookup, q, r)
  }

  ghost function WhereOf(db: Db, q: Query): Row -> bool {
    (r: Row) => Where(db, q, r)
  }

  ghost function MatchingRows(db: Db, q: Query): seq<Row> {
    Filter(db.telegrams, WhereOf(db, q))
  }

  // ---- The joins ----

  datatype Joined = Joined(
    row: Row, source: Option<string>, destination: Option<string>, telegramtype: Option<string>,
    direction: Option<string>, sourceName: Option<string>, destinationName: Option<string>)

  /** LEFT JOIN string_lookup ON id = column AND category = c */
  ghost function Looked(t: Lookup.Table, id: nat, c: Category): Option<string> {
    if ResolvesAs(t, id, c) then Some(t[id].value) else None
  }

  ghost function LookedName(t: Lookup.Table, id: Option<nat>, c: Category): Option<string> {
    if id.Some? then Looked(t, id.value, c) else None
  }

  ghost function LeftJoin(t: Lookup.Table, r: Row): Joined {
    Joined(r, Looked(t, r.sourceId, Source), Looked(t, r.destinationId, Destination),
           Looked(t, r.telegramtypeId, TelegramType), Looked(t, r.directionId, Direction),
           LookedName(t, r.sourceNameId, SourceName), LookedName(t, r.destinationNameId, DestinationName))
  }

  ghost function LeftJoiner(t: Lookup.Table): Row -> Joined {
    (r: Row) => LeftJoin(t, r)
  }

  /** The four required lookups found their rows, which is what an inner join keeps. */
  predicate Complete(j: Joined) {
    j.source.Some? && j.destination.Some? && j.telegramtype.Some? && j.direction.Some?
  }

  ghost function InnerJoined(t: Lookup.Table, rows: seq<Row>): seq<Joined> {
    Filter(Apply(LeftJoiner(t), rows), (j: Joined) => Complete(j))
  }

  function OrEmpty(s: Option<string>): string {
    if s.Some? then s.value else ""
  }

  /** A result row as a telegram: `row.source_name or ""`. */
  function Read(j: Joined): Telegram {
    Telegram(j.row.timestamp, OrEmpty(j.source), OrEmpty(j.destination), OrEmpty(j.telegramtype),
             OrEmpty(j.direction), OrEmpty(j.sourceName), OrEmpty(j.destinationName),
             j.row.dptMain, j.row.dptSub, j.row.data)
  }

  function RowTime(r: Row): int {
    r.timestamp
  }

  function JoinedTime(j: Joined): int {
    j.row.timestamp
  }

  /**
   What the two statements may return. The engine orders equal timestamps as it likes, both in the
   page (`full`) and in the final ORDER BY over the joined page.
   */
  ghost predicate IsAnswer(db: Db, q: Query, full: seq<Row>, result: QueryResult) {
    && IsOrdering(full, MatchingRows(db, q), RowTime, q.orderDescending)
    && IsOrdering(result.telegrams, Apply(Read, Apply(LeftJoiner(db.lookup), Page(full, q.offset, q.limit))),
                  TimeOf, q.orderDescending)
    && result.totalCount == |MatchingRows(db, q)|
    && result.limitReached == (|MatchingRows(db, q)| > q.offset + q.limit)
  }

  // ---- A row passes iff its telegram matches ----

  /** A filter list is one conjunction. */
  lemma {:induction false} CollectedIsConjunction(candidates: seq<Candidate>)
    ensures AndAll(Collected(candidates)) == True
            <==> forall i :: 0 <= i < |candidates| ==> candidates[i].wanted ==> candidates[i].condition == True
    ensures Collected(candidates) != [] <==> exists i :: 0 <= i < |candidates| && candidates[i].wanted
  {
    if candidates != [] {
      var rest := candidates[1..];
      CollectedIsConjunction(rest);
      assert forall i :: 0 < i < |candidates| ==> candidates[i] == rest[i - 1];
      assert forall i :: 0 <= i < |rest| ==> rest[i] == candidates[i + 1];
      if candidates[0].wanted {
        assert ([candidates[0].condition] + Collected(rest))[1..] == Collected(rest);
      } else {
        assert Collected(candidates) == Collected(rest);
      }
    }
  }

  predicate Met(c: Candidate) {
    c.wanted ==> c.condition == True
  }

  lemma FilterListIsConjunction(a: Candidate, b: Candidate, c: Candidate, d: Candidate,
                                e: Candidate, f: Candidate, g: Candidate)
    ensures AndAll(FilterList(a, b, c, d, e, f, g)) == True
            <==> Met(a) && Met(b) && Met(c) && Met(d) && Met(e) && Met(f) && Met(g)
    ensures FilterList(a, b, c, d, e, f, g) != []
            <==> a.wanted || b.wanted || c.wanted || d.wanted || e.wanted || f.wanted || g.wanted
  {
    var s := [a, b, c, d, e, f, g];
    CollectedIsConjunction(s);
    hide AndAll, Collected;
    assert s[0] == a && s[1] == b && s[2] == c && s[3] == d && s[4] == e && s[5] == f && s[6] == g;
  }

  lemma FiltersAreConjunction(t: Lookup.Table, q: Query, r: Row)
    ensures Passes(t, q, r) <==>
              && Met(StringFilter(t, Source, r.sourceId, q.sources))
              && Met(StringFilter(t, Destination, r.destinationId, q.destinations))
              && Met(StringFilter(t, TelegramType, r.telegramtypeId, q.telegramTypes))
              && Met(StringFilter(t, Direction, r.directionId, q.directions))
              && Met(DptFilter(q, r)) && Met(StartFilter(q, r)) && Met(EndFilter(q, r))
    ensures Filters(t, q, r) != [] <==> HasFilters(q)
  {
    assert DptFilter(q, r).wanted <==> q.dptMains != [] || q.dpts != [];
    hide FilterList, AndAll, IdsFor, DptConditions, OrAll;
    FilterListIsConjunction(StringFilter(t, Source, r.sourceId, q.sources),
                            StringFilter(t, Destination, r.destinationId, q.destinations),
                            StringFilter(t, TelegramType, r.telegramtypeId, q.telegramTypes),
                            StringFilter(t, Direction, r.directionId, q.directions),
                            DptFilter(q, r), StartFilter(q, r), EndFilter(q, r));
  }

  lemma DptConditionsMeanDptMatch(q: Query, r: Row)
    ensures True in DptConditions(q, r) <==> DptMatch(q, r.dptMain, r.dptSub)
  {
    var s := DptConditions(q, r);
    var mains := if q.dptMains == [] then [] else [In(r.dptMain, q.dptMains)];
    forall i | 0 <= i < |q.dpts|
      ensures s[|mains| + i] == DptCondition(q.dpts[i], r)
      ensures DptCondition(q.dpts[i], r) == True <==>
                r.dptMain == Some(q.dpts[i].0) && (q.dpts[i].1.None? || q.dpts[i].1 == r.dptSub)
    {
    }
    if True in s {
      var k :| 0 <= k < |s| && s[k] == True;
      if k >= |mains| {
        assert s[k] == DptCondition(q.dpts[k - |mains|], r);
      }
    }
    if DptMatch(q, r.dptMain, r.dptSub) && !(r.dptMain.Some? && r.dptMain.value in q.dptMains) {
      var i :| 0 <= i < |q.dpts| && r.dptMain == Some(q.dpts[i].0) && (q.dpts[i].1.None? || q.dpts[i].1 == r.dptSub);
      assert s[|mains| + i] == True;
    }
  }

  lemma DptFilterIsDptMatch(q: Query, r: Row)
    ensures Met(DptFilter(q, r)) <==> (q.dptMains != [] || q.dpts != [] ==> DptMatch(q, r.dptMain, r.dptSub))
  {
    assert DptConditions(q, r) != [] <==> q.dptMains != [] || q.dpts != [];
    OrAllTrue(DptConditions(q, r));
    DptConditionsMeanDptMatch(q, r);
    hide OrAll, DptConditions, DptMatch;
  }

  lemma PassesIsMatches(t: Lookup.Table, q: Query, r: Row)
    requires RowOk(t, r)
    ensures Passes(t, q, r) <==> Matches(q, Decode(t, r))
  {
    FiltersAreConjunction(t, q, r);
    DptFilterIsDptMatch(q, r);
    hide DptFilter, DptMatch, Passes;
  }

  // ---- The same rows as the memory store ----

  /** The window is harmless when it cannot push a telegram away from itself. */
  predicate PlainWindow(q: Query) {
    HasWindow(q) && !HasFilters(q) ==> q.deltaBeforeMs >= 0 && q.deltaAfterMs >= 0
  }

  lemma WindowRowsAgree(db: Db, q: Query, r: Row)
    requires RowsOk(db.lookup, db.telegrams) && r in db.telegrams && HasWindow(q) && HasFilters(q)
    ensures Where(db, q, r) <==>
              MemoryStore.NearSome(q, r.timestamp, Apply(TimeOf, Filter(Contents(db), MemoryStore.Keep(q))))
  {
    var (t, keep) := (db.lookup, MemoryStore.Keep(q));
    var matching := Filter(Contents(db), keep);
    var pivots := Apply(TimeOf, matching);
    hide Matches, Passes, Decode, RowOk, Near, HasWindow, HasFilters, Filter;
    if Where(db, q, r) {
      var p :| p in db.telegrams && Passes(t, q, p) && Near(q, r.timestamp, p.timestamp);
      PassesIsMatches(t, q, p);
      var k :| 0 <= k < |db.telegrams| && db.telegrams[k] == p;
      assert Contents(db)[k] == Decode(t, p);
      FilterMembers(Contents(db), keep, Decode(t, p));
      var i :| 0 <= i < |matching| && matching[i] == Decode(t, p);
      DecodeKeepsTime(t, p);
      assert Near(q, r.timestamp, pivots[i]);
    }
    if MemoryStore.NearSome(q, r.timestamp, pivots) {
      var i :| 0 <= i < |pivots| && Near(q, r.timestamp, pivots[i]);
      FilterMembers(Contents(db), keep, matching[i]);
      var k :| 0 <= k < |db.telegrams| && Contents(db)[k] == matching[i];
      var p := db.telegrams[k];
      PassesIsMatches(t, q, p);
      DecodeKeepsTime(t, p);
      assert p in db.telegrams && Passes(t, q, p) && Near(q, r.timestamp, p.timestamp);
    }
  }

  lemma DecodeKeepsTime(t: Lookup.Table, r: Row)
    ensures TimeOf(Decode(t, r)) == r.timestamp && Decode(t, r).timestamp == r.timestamp
  {
  }

  lemma EverythingMatchesNoFilters(q: Query, x: Telegram)
    requires !HasFilters(q)
    ensures Matches(q, x)
  {
  }

  /** Without filters every telegram is its own pivot. */
  lemma EverythingIsNear(telegrams: seq<Telegram>, q: Query)
    requires !HasFilters(q) && q.deltaBeforeMs >= 0 && q.deltaAfterMs >= 0
    ensures MemoryStore.Selected(telegrams, q) == telegrams
  {
    forall x | x in telegrams
      ensures Matches(q, x)
    {
      EverythingMatchesNoFilters(q, x);
    }
    FilterAll(telegrams, MemoryStore.Keep(q));
    var pivots := Apply(TimeOf, telegrams);
    hide HasFilters, Filter, Matches;
    forall x | x in telegrams
      ensures MemoryStore.NearSome(q, x.timestamp, pivots)
    {
      var i :| 0 <= i < |telegrams| && telegrams[i] == x;
      assert Near(q, x.timestamp, pivots[i]);
    }
    FilterAll(telegrams, MemoryStore.KeepNear(q, pivots));
  }

  /** The unjoined rows the SQL query counts and pages are the memory store's selection, in the same order. */
  lemma SelectionAgrees(db: Db, q: Query)
    requires RowsOk(db.lookup, db.telegrams) && PlainWindow(q)
    ensures Apply(Decoder(db.lookup), MatchingRows(db, q)) == MemoryStore.Selected(Contents(db), q)
  {
    var (t, f) := (db.lookup, Decoder(db.lookup));
    if HasWindow(q) && HasFilters(q) {
      var near := MemoryStore.KeepNear(q, Apply(TimeOf, Filter(Contents(db), MemoryStore.Keep(q))));
      forall r | r in db.telegrams
        ensures WhereOf(db, q)(r) == near(f(r))
      {
        WindowRowsAgree(db, q, r);
      }
      FilterOfApply(db.telegrams, f, WhereOf(db, q), near);
    } else {
      forall r | r in db.telegrams
        ensures WhereOf(db, q)(r) == MemoryStore.Keep(q)(f(r))
      {
        PassesIsMatches(t, q, r);
      }
      FilterOfApply(db.telegrams, f, WhereOf(db, q), MemoryStore.Keep(q));
      hide Matches, Passes;
      if HasWindow(q) {
        NoFiltersKeepAll(db, q);
      }
    }
  }

  lemma NoFiltersKeepAll(db: Db, q: Query)
    requires RowsOk(db.lookup, db.telegrams) && HasWindow(q) && !HasFilters(q) && PlainWindow(q)
    ensures MemoryStore.Selected(Contents(db), q) == Filter(Contents(db), MemoryStore.Keep(q))
  {
    EverythingIsNear(Contents(db), q);
    hide MemoryStore.Selected, HasFilters, Matches;
    forall x | x in Contents(db)
      ensures Matches(q, x)
    {
      EverythingMatchesNoFilters(q, x);
    }
    FilterAll(Contents(db), MemoryStore.Keep(q));
  }

  /** Outside `PlainWindow` any one-telegram store tells the two apart: memory finds nothing, SQL the telegram. */
  lemma NegativeDeltaDiffers(db: Db, q: Query, r: Row)
    requires RowOk(db.lookup, r) && db.telegrams == [r] && !PlainWindow(q)
    ensures MatchingRows(db, q) == [r]
    ensures MemoryStore.Selected(Contents(db), q) == []
  {
    FiltersAreConjunction(db.lookup, q, r);
    assert WhereOf(db, q)(r);
    FilterAll(db.telegrams, WhereOf(db, q));
    var x := Decode(db.lookup, r);
    assert Contents(db) == [x];
    EverythingMatchesNoFilters(q, x);
    FilterAll([x], MemoryStore.Keep(q));
    var pivots := Apply(TimeOf, [x]);
    hide HasFilters;
    assert !MemoryStore.NearSome(q, x.timestamp, pivots);
    var near := MemoryStore.KeepNear(q, pivots);
    assert !near(x) && [x][..0] == [];
  }

  // ---- Joins after paging ----

  lemma ReadOfJoin(t: Lookup.Table, r: Row)
    requires RowOk(t, r)
    ensures Complete(LeftJoin(t, r)) && Read(LeftJoin(t, r)) == Decode(t, r)
  {
  }

  /** No inner join drops a row, so the count needs none. */
  lemma JoinsDropNothing(t: Lookup.Table, rows: seq<Row>)
    requires RowsOk(t, rows)
    ensures InnerJoined(t, rows) == Apply(LeftJoiner(t), rows) && |InnerJoined(t, rows)| == |rows|
  {
    forall j | j in Apply(LeftJoiner(t), rows)
      ensures Complete(j)
    {
      var i :| 0 <= i < |rows| && Apply(LeftJoiner(t), rows)[i] == j;
      ReadOfJoin(t, rows[i]);
    }
    FilterAll(Apply(LeftJoiner(t), rows), (j: Joined) => Complete(j));
  }

  lemma MatchingRowsAreOk(db: Db, q: Query)
    requires RowsOk(db.lookup, db.telegrams)
    ensures RowsOk(db.lookup, MatchingRows(db, q))
  {
    hide Where, RowOk;
    forall r | r in MatchingRows(db, q)
      ensures r in db.telegrams
    {
      FilterMembers(db.telegrams, WhereOf(db, q), r);
    }
  }

  /** The query shape before paging moved below the joins: join everything, then filter. */
  ghost function JoinedFirst(db: Db, q: Query): seq<Joined> {
    Filter(InnerJoined(db.lookup, db.telegrams), (j: Joined) => Where(db, q, j.row))
  }

  lemma JoinedFirstIsJoinOfMatching(db: Db, q: Query)
    requires RowsOk(db.lookup, db.telegrams)
    ensures JoinedFirst(db, q) == Apply(LeftJoiner(db.lookup), MatchingRows(db, q))
    ensures |JoinedFirst(db, q)| == |MatchingRows(db, q)|
  {
    JoinsDropNothing(db.lookup, db.telegrams);
    hide Where;
    FilterOfApply(db.telegrams, LeftJoiner(db.lookup), WhereOf(db, q), (j: Joined) => Where(db, q, j.row));
  }

  function RowOfJoined(j: Joined): Row {
    j.row
  }

  /** Every page of the unjoined rows is, joined, that page of the joined rows under the same tie order. */
  lemma PageBeforeJoin(db: Db, q: Query, full: seq<Row>)
    requires RowsOk(db.lookup, db.telegrams)
    requires IsOrdering(full, MatchingRows(db, q), RowTime, q.orderDescending)
    ensures var joined := Apply(LeftJoiner(db.lookup), full);
            && IsOrdering(joined, JoinedFirst(db, q), JoinedTime, q.orderDescending)
            && Apply(LeftJoiner(db.lookup), Page(full, q.offset, q.limit)) == Page(joined, q.offset, q.limit)
  {
    JoinedFirstIsJoinOfMatching(db, q);
    hide MatchingRows, JoinedFirst, LeftJoin;
    assert forall r: Row :: JoinedTime(LeftJoiner(db.lookup)(r)) == RowTime(r) by { JoinKeepsTime(db.lookup); }
    OrderingOfApply(LeftJoiner(db.lookup), full, MatchingRows(db, q), RowTime, JoinedTime, q.orderDescending);
    PageOfApply(LeftJoiner(db.lookup), full, q.offset, q.limit);
  }

  lemma JoinKeepsTime(t: Lookup.Table)
    ensures forall r: Row :: JoinedTime(LeftJoiner(t)(r)) == RowTime(r)
  {
  }

  /** And the other way round: every page of the joined rows comes from a page taken before the joins. */
  lemma JoinBeforePage(db: Db, q: Query, joined: seq<Joined>)
    requires RowsOk(db.lookup, db.telegrams)
    requires IsOrdering(joined, JoinedFirst(db, q), JoinedTime, q.orderDescending)
    ensures var full := Apply(RowOfJoined, joined);
            && IsOrdering(full, MatchingRows(db, q), RowTime, q.orderDescending)
            && Apply(LeftJoiner(db.lookup), Page(full, q.offset, q.limit)) == Page(joined, q.offset, q.limit)
  {
    JoinedFirstIsJoinOfMatching(db, q);
    var (f, rows) := (LeftJoiner(db.lookup), MatchingRows(db, q));
    var full := Apply(RowOfJoined, joined);
    hide MatchingRows, JoinedFirst;
    forall i | 0 <= i < |joined|
      ensures f(full[i]) == joined[i]
    {
      assert joined[i] in multiset(JoinedFirst(db, q));
    }
    assert Apply(f, full) == joined;
    assert Apply(RowOfJoined, JoinedFirst(db, q)) == rows;
    OrderingOfApply(RowOfJoined, joined, JoinedFirst(db, q), JoinedTime, RowTime, q.orderDescending);
    PageOfApply(f, full, q.offset, q.limit);
  }

  /** `get_last_unique_telegrams` joins its four required lookups inside: every summary survives, as itself. */
  lemma LastValuesSurviveTheirJoins(events: seq<SqlRuns.Event>, d: nat)
    requires d in SqlRuns.Run(events).db.lastGa
    ensures var db := SqlRuns.Run(events).db;
            && Complete(LeftJoin(db.lookup, db.lastGa[d]))
            && Read(LeftJoin(db.lookup, db.lastGa[d])) == Decode(db.lookup, db.lastGa[d])
            && Read(LeftJoin(db.lookup, db.lastGa[d])) in SqlRuns.LastUnique(db)
  {
    var s := SqlRuns.Run(events);
    SqlRuns.InvariantParts(s);
    hide SqlRuns.Run, SqlRuns.Invariant;
    assert SqlRuns.RowAgrees(s.db.lookup, d, s.db.lastGa[d], MemoryStore.LastOf(s.history));
    hide SqlRuns.LastAgrees, SqlRuns.RowsAgree;
    ReadOfJoin(s.db.lookup, s.db.lastGa[d]);
  }

  // ---- The refinement ----

  lemma PageOfReads(t: Lookup.Table, page: seq<Row>)
    requires RowsOk(t, page)
    ensures Apply(Read, Apply(LeftJoiner(t), page)) == Apply(Decoder(t), page)
  {
    forall i | 0 <= i < |page|
      ensures Read(LeftJoin(t, page[i])) == Decode(t, page[i])
    {
      ReadOfJoin(t, page[i]);
    }
  }

  lemma PageIsSorted<T>(full: seq<T>, offset: nat, limit: nat, key: T -> int, descending: bool)
    requires Sorted(full, key, descending)
    ensures Sorted(Page(full, offset, limit), key, descending)
  {
    var low := if offset <= |full| then offset else |full|;
    var cut := Page(full, offset, limit);
    assert forall i :: 0 <= i < |cut| ==> cut[i] == full[low + i];
    forall i, j | 0 <= i < j < |cut|
      ensures InOrder(key(cut[i]), key(cut[j]), descending)
    {
      assert InOrder(key(full[low + i]), key(full[low + j]), descending);
    }
  }

  /** `full` with its page replaced by another of the same length. */
  function Spliced<T>(full: seq<T>, page: seq<T>, offset: nat, limit: nat): seq<T> {
    var low := if offset <= |full| then offset else |full|;
    var high := if offset + limit <= |full| then offset + limit else |full|;
    full[..low] + page + full[high..]
  }

  lemma SplicedPage<T>(full: seq<T>, page: seq<T>, offset: nat, limit: nat)
    requires |page| == |Page(full, offset, limit)|
    ensures |Spliced(full, page, offset, limit)| == |full| && Page(Spliced(full, page, offset, limit), offset, limit) == page
  {
  }

  lemma SplicedElements<T>(full: seq<T>, page: seq<T>, offset: nat, limit: nat)
    requires multiset(page) == multiset(Page(full, offset, limit))
    ensures multiset(Spliced(full, page, offset, limit)) == multiset(full)
  {
    var low := if offset <= |full| then offset else |full|;
    var high := if offset + limit <= |full| then offset + limit else |full|;
    assert full == full[..low] + Page(full, offset, limit) + full[high..];
  }

  lemma SplicedKeys<T>(full: seq<T>, page: seq<T>, offset: nat, limit: nat, key: T -> int)
    requires Apply(key, page) == Apply(key, Page(full, offset, limit))
    ensures Apply(key, Spliced(full, page, offset, limit)) == Apply(key, full)
  {
    var (cut, other) := (Page(full, offset, limit), Spliced(full, page, offset, limit));
    assert |page| == |Apply(key, page)| == |Apply(key, cut)| == |cut|;
    forall i | 0 <= i < |page|
      ensures key(page[i]) == key(cut[i])
    {
      assert Apply(key, page)[i] == Apply(key, cut)[i];
    }
  }

  lemma SameKeysSorted<T>(s: seq<T>, t: seq<T>, key: T -> int, descending: bool)
    requires Apply(key, s) == Apply(key, t) && Sorted(t, key, descending)
    ensures Sorted(s, key, descending)
  {
    assert |s| == |Apply(key, s)| == |Apply(key, t)| == |t|;
    forall i, j | 0 <= i < j < |s|
      ensures InOrder(key(s[i]), key(s[j]), descending)
    {
      assert Apply(key, s)[i] == Apply(key, t)[i] && Apply(key, s)[j] == Apply(key, t)[j];
      assert InOrder(key(t[i]), key(t[j]), descending);
    }
  }

  /** Sorting a page of an ordering again gives that page of another ordering of the same rows. */
  lemma ResortedPage<T>(full: seq<T>, rows: seq<T>, page: seq<T>, offset: nat, limit: nat, key: T -> int, descending: bool)
      returns (other: seq<T>)
    requires IsOrdering(full, rows, key, descending)
    requires IsOrdering(page, Page(full, offset, limit), key, descending)
    ensures IsOrdering(other, rows, key, descending) && Page(other, offset, limit) == page
  {
    var cut := Page(full, offset, limit);
    PageIsSorted(full, offset, limit, key, descending);
    OrderingsAgreeOnKeys(page, cut, cut, key, descending);
    assert |page| == |Apply(key, page)| == |Apply(key, cut)| == |cut|;
    hide Spliced, Page;
    other := Spliced(full, page, offset, limit);
    SplicedPage(full, page, offset, limit);
    SplicedElements(full, page, offset, limit);
    SplicedKeys(full, page, offset, limit, key);
    SameKeysSorted(other, full, key, descending);
  }

  /** Any answer SQL may give is the page of its own matching rows by time, spelled out; the window may be anything. */
  lemma SqlAnswerMeans(db: Db, q: Query, full: seq<Row>, result: QueryResult) returns (ordered: seq<Telegram>)
    requires RowsOk(db.lookup, db.telegrams) && IsAnswer(db, q, full, result)
    ensures MemoryStore.Answers(Apply(Decoder(db.lookup), MatchingRows(db, q)), ordered, q, result)
    ensures IsOrdering(ordered, Apply(Decoder(db.lookup), MatchingRows(db, q)), TimeOf, q.orderDescending)
    ensures result.telegrams == Page(ordered, q.offset, q.limit)
  {
    MatchingRowsAreOk(db, q);
    var (t, rows) := (db.lookup, MatchingRows(db, q));
    hide MatchingRows, RowOk, LeftJoin, Decode;
    ordered := OrderedAnswer(t, q, full, rows, result.telegrams);
    hide IsOrdering, Page;
    MemoryStore.PageOfOrdering(Apply(Decoder(t), rows), ordered, q, result);
  }

  /**
   Any answer SQL may give has the memory store's total count and limit flag, is a page of the
   memory store's selection under some order of its ties, carries the same timestamps position by
   position, and is the very same list when no two selected telegrams share a timestamp.
   */
  lemma QueryRefinesMemory(db: Db, q: Query, full: seq<Row>, result: QueryResult) returns (ordered: seq<Telegram>)
    requires RowsOk(db.lookup, db.telegrams) && PlainWindow(q) && IsAnswer(db, q, full, result)
    ensures var memory := MemoryStore.Answer(Contents(db), q);
            && result.totalCount == memory.totalCount && result.limitReached == memory.limitReached
            && Apply(TimeOf, result.telegrams) == Apply(TimeOf, memory.telegrams)
    ensures MemoryStore.Answers(MemoryStore.Selected(Contents(db), q), ordered, q, result)
    ensures DistinctKeys(MemoryStore.Selected(Contents(db), q), TimeOf) ==>
              result == MemoryStore.Answer(Contents(db), q)
  {
    SelectionAgrees(db, q);
    var (selected, desc) := (MemoryStore.Selected(Contents(db), q), q.orderDescending);
    assert result.totalCount == |selected| && result.limitReached == (|selected| > q.offset + q.limit);
    hide MatchingRows, MemoryStore.Selected, Contents, Page, MemoryStore.Answers, IsAnswer, RowsOk;
    ordered := SqlAnswerMeans(db, q, full, result);
    StableSortIsOrdering(selected, TimeOf, desc);
    var stable := StableSort(selected, TimeOf, desc);
    hide IsOrdering, StableSort;
    OrderingsAgreeOnKeys(ordered, stable, selected, TimeOf, desc);
    PageOfApply(TimeOf, ordered, q.offset, q.limit);
    PageOfApply(TimeOf, stable, q.offset, q.limit);
    if DistinctKeys(selected, TimeOf) {
      OrderingIsUniqueWithoutTies(ordered, stable, selected, TimeOf, desc);
    }
  }

  lemma OrderedAnswer(t: Lookup.Table, q: Query, full: seq<Row>, rows: seq<Row>, page: seq<Telegram>)
      returns (ordered: seq<Telegram>)
    requires RowsOk(t, rows) && IsOrdering(full, rows, RowTime, q.orderDescending)
    requires IsOrdering(page, Apply(Read, Apply(LeftJoiner(t), Page(full, q.offset, q.limit))), TimeOf, q.orderDescending)
    ensures IsOrdering(ordered, Apply(Decoder(t), rows), TimeOf, q.orderDescending)
    ensures page == Page(ordered, q.offset, q.limit)
  {
    var f := Decoder(t);
    hide RowOk, LeftJoin;
    forall r | r in full
      ensures RowOk(t, r)
    {
      assert r in multiset(rows);
    }
    PageOfReads(t, Page(full, q.offset, q.limit));
    OrderingOfApply(f, full, rows, RowTime, TimeOf, q.orderDescending);
    PageOfApply(f, full, q.offset, q.limit);
    ordered := ResortedPage(Apply(f, full), Apply(f, rows), page, q.offset, q.limit, TimeOf, q.orderDescending);
  }

  /** In every run, whatever the SQL store answers is what the plain list of telegrams would answer. */
  lemma EveryRunAnswersLikeMemory(events: seq<SqlRuns.Event>, q: Query, full: seq<Row>, result: QueryResult)
      returns (ordered: seq<Telegram>)
    requires SqlRuns.WellFormed(events) && PlainWindow(q)
    requires IsAnswer(SqlRuns.Run(events).db, q, full, result)
    ensures var (plain, memory) := (SqlRuns.PlainList(events), MemoryStore.Answer(SqlRuns.PlainList(events), q));
            && result.totalCount == memory.totalCount && result.limitReached == memory.limitReached
            && Apply(TimeOf, result.telegrams) == Apply(TimeOf, memory.telegrams)
            && MemoryStore.Answers(MemoryStore.Selected(plain, q), ordered, q, result)
            && (DistinctKeys(MemoryStore.Selected(plain, q), TimeOf) ==> result == memory)
  {
    SqlRuns.EveryTelegramIsItself(events);
    SqlRuns.InvariantParts(SqlRuns.Run(events));
    hide SqlRuns.Run, IsAnswer, Contents, MemoryStore.Answer, MemoryStore.Selected;
    ordered := QueryRefinesMemory(SqlRuns.Run(events).db, q, full, result);
  }
}
