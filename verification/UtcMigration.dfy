/**
 Converting local wall-clock timestamps to UTC, at most once per row, over any history of starts.
 A row carries its history in `original` (the digits it was written with), `legacy` (written before
 the upgrade) and `shifts` (how often a migration moved it); the code itself sees only `timestamp`.
 */
module UtcMigration {
  import opened Wrappers
  import opened Calendar
  import opened OffsetIntervals
  import opened RowIds

  datatype Row = Row(timestamp: Instant, original: Instant, legacy: bool, shifts: nat)

  /** A zone as the migration uses it: offsets of wall-clock times, and wall-clock times of instants. */
  datatype ZoneInfo = ZoneInfo(offsetAt: Zone, localTime: Instant -> Instant)

  type Table = map<nat, Row>

  // ---- One UPDATE per table ----

  /** `CASE WHEN timestamp < end THEN timestamp - shift ... ELSE timestamp - tail END` */
  datatype ShiftExpression = Shift(branches: seq<(Instant, int)>, tail: int) {
    function Amount(t: Instant): int {
      AmountFrom(t, 0)
    }

    function AmountFrom(t: Instant, i: nat): int
      decreases |branches| - i
    {
      if i >= |branches| then tail
      else if t < branches[i].0 then branches[i].1
      else AmountFrom(t, i + 1)
    }
  }

  method CompileCase(intervals: seq<Interval>) returns (e: ShiftExpression)
    requires intervals != []
    ensures e.tail == intervals[|intervals| - 1].offset * SECOND
    ensures |e.branches| == |intervals| - 1
    ensures forall i :: 0 <= i < |e.branches| ==> e.branches[i] == (intervals[i].end, intervals[i].offset * SECOND)
  {
    var branches: seq<(Instant, int)> := [];
    var index := 0;
    while index < |intervals| - 1
      invariant 0 <= index <= |intervals| - 1 && |branches| == index
      invariant forall i :: 0 <= i < index ==> branches[i] == (intervals[i].end, intervals[i].offset * SECOND)
    {
      branches := branches + [(intervals[index].end, intervals[index].offset * SECOND)];
      index := index + 1;
    }
    e := Shift(branches, intervals[|intervals| - 1].offset * SECOND);
  }

  lemma {:induction false} FirstBranchDecides(e: ShiftExpression, intervals: seq<Interval>, zone: Zone, t: Instant, i: nat)
    requires intervals != [] && i < |intervals| == |e.branches| + 1
    requires e.tail == intervals[|intervals| - 1].offset * SECOND
    requires forall j :: 0 <= j < |e.branches| ==> e.branches[j] == (intervals[j].end, intervals[j].offset * SECOND)
    requires Chain(zone, intervals[..|intervals| - 1], intervals[0].start, intervals[|intervals| - 1].start)
    requires intervals[i].start <= t
    requires ConstantOn(zone, intervals[|intervals| - 1].start, t + 1, intervals[|intervals| - 1].offset)
    ensures e.AmountFrom(t, i) == zone(t) * SECOND
    decreases |intervals| - i
  {
    var pieces := intervals[..|intervals| - 1];
    if i < |pieces| {
      assert pieces[i] == intervals[i];
      if t >= intervals[i].end {
        assert i + 1 < |pieces| ==> pieces[i + 1] == intervals[i + 1];
        FirstBranchDecides(e, intervals, zone, t, i + 1);
      }
    }
  }

  /** The compiled expression is the obvious per-row rule on everything the walk covers. */
  lemma CaseIsOffset(e: ShiftExpression, intervals: seq<Interval>, zone: Zone, oldest: Instant, newest: Instant, t: Instant)
    requires Covers(zone, intervals, oldest, newest) && oldest <= t <= newest
    requires |intervals| == |e.branches| + 1
    requires e.tail == intervals[|intervals| - 1].offset * SECOND
    requires forall j :: 0 <= j < |e.branches| ==> e.branches[j] == (intervals[j].end, intervals[j].offset * SECOND)
    ensures e.Amount(t) == zone(t) * SECOND
  {
    var pieces := intervals[..|intervals| - 1];
    assert pieces != [] ==> pieces[0] == intervals[0];
    FirstBranchDecides(e, intervals, zone, t, 0);
  }

  /** What a migration means for one row. */
  function Shifted(r: Row, zone: Zone): Row {
    Moved(r, zone(r.timestamp) * SECOND)
  }

  function Moved(r: Row, amount: int): Row {
    if amount == 0 then r else r.(timestamp := r.timestamp - amount, shifts := r.shifts + 1)
  }

  /** The obvious conversion: every row in scope by the offset of its own wall-clock time. */
  function ConvertedTable(table: Table, scope: set<nat>, zone: Zone): Table {
    map k | k in table :: if k in scope then Shifted(table[k], zone) else table[k]
  }

  /** SQL `min(timestamp), max(timestamp)` over the rows in scope. */
  method Bounds(table: Table, scope: set<nat>) returns (oldest: Instant, newest: Instant)
    requires scope != {} && scope <= table.Keys
    ensures oldest <= newest
    ensures forall k :: k in scope ==> oldest <= table[k].timestamp <= newest
    ensures exists k :: k in scope && table[k].timestamp == oldest
    ensures exists k :: k in scope && table[k].timestamp == newest
  {
    var k :| k in scope;
    oldest, newest := table[k].timestamp, table[k].timestamp;
    var rest := scope - {k};
    while rest != {}
      invariant rest <= scope && oldest <= newest
      invariant forall j :: j in scope - rest ==> oldest <= table[j].timestamp <= newest
      invariant exists j :: j in scope && table[j].timestamp == oldest
      invariant exists j :: j in scope && table[j].timestamp == newest
      decreases rest
    {
      var j :| j in rest;
      var t := table[j].timestamp;
      oldest, newest := if t < oldest then t else oldest, if t > newest then t else newest;
      rest := rest - {j};
    }
  }

  /** Shifts one table's rows in scope with a single statement built from the intervals. */
  method ConvertTableToUtc(table: Table, scope: set<nat>, zone: Zone) returns (r: Table, rowcount: nat)
    requires WellBehaved(zone) && scope <= table.Keys
    ensures r == ConvertedTable(table, scope, zone)
    ensures rowcount == 0 ==> r == table
    ensures rowcount == 0 || rowcount == |scope|
  {
    if scope == {} {
      return table, 0;
    }
    var oldest, newest := Bounds(table, scope);
    var intervals := OffsetIntervals.OffsetIntervals(oldest, newest, zone);
    var e := CompileCase(intervals);
    forall k | k in scope
      ensures e.Amount(table[k].timestamp) == zone(table[k].timestamp) * SECOND
    {
      CaseIsOffset(e, intervals, zone, oldest, newest, table[k].timestamp);
    }
    if forall i :: 0 <= i < |intervals| ==> intervals[i].offset == 0 {
      forall k | k in scope
        ensures zone(table[k].timestamp) == 0
      {
        ZeroAmount(e, table[k].timestamp, 0);
      }
      return table, 0;
    }
    r := map k | k in table :: if k in scope then Moved(table[k], e.Amount(table[k].timestamp)) else table[k];
    rowcount := |scope|;
  }

  lemma {:induction false} ZeroAmount(e: ShiftExpression, t: Instant, i: nat)
    requires e.tail == 0 && forall j :: 0 <= j < |e.branches| ==> e.branches[j].1 == 0
    ensures e.AmountFrom(t, i) == 0
    decreases |e.branches| - i
  {
    if i < |e.branches| {
      ZeroAmount(e, t, i + 1);
    }
  }

  // ---- What the database remembers ----

  datatype Db = Db(
    telegrams: Table, lastGa: Table,
    utcFlag: bool, boundary: Option<Instant>, marker: Option<nat>, sourceZone: Option<ZoneInfo>)

  /** SQL `max(rowid)`, 0 for an empty table. */
  function MaxRowid(table: Table): (m: nat)
    ensures forall k :: k in table ==> k <= m
    ensures m != 0 ==> m in table
  {
    MaxOf(table.Keys)
  }

  /** `_classify_timestamp_convention` */
  function Classified(db: Db, zoneGiven: bool, now: Instant): Db {
    if db.utcFlag then db
    else if db.telegrams == map[] && db.lastGa == map[] then db.(utcFlag := true)
    else if db.boundary.None? && !zoneGiven then
      db.(boundary := Some(now), marker := Some(MaxRowid(db.telegrams)))
    else db
  }

  function RowsBelow(table: Table, bound: Instant): set<nat> {
    set k | k in table && table[k].timestamp < bound
  }

  /** `_legacy_row_scopes`: the rows of (telegrams, last_ga_telegrams) a migration may touch. */
  function LegacyScopes(db: Db, zone: ZoneInfo): (r: (set<nat>, set<nat>))
    ensures r.0 <= db.telegrams.Keys && r.1 <= db.lastGa.Keys
  {
    if db.boundary.None? then (db.telegrams.Keys, db.lastGa.Keys) else
    var conservative := RowsBelow(db.telegrams, db.boundary.value);
    var telegrams :=
      if db.marker.Some? && MaxRowid(db.telegrams) >= db.marker.value
      then set k | k in RowsBelow(db.telegrams, zone.localTime(db.boundary.value)) && k <= db.marker.value
      else conservative;
    (telegrams, RowsBelow(db.lastGa, db.boundary.value))
  }

  /** `migrate_timestamps_to_utc`, one transaction. */
  function Migrated(db: Db, zone: ZoneInfo): Db {
    if db.utcFlag then db else
    var scopes := LegacyScopes(db, zone);
    db.(telegrams := ConvertedTable(db.telegrams, scopes.0, zone.offsetAt),
        lastGa := ConvertedTable(db.lastGa, scopes.1, zone.offsetAt),
        utcFlag := true, sourceZone := Some(zone))
  }

  class TimestampStore {
    var telegrams: Table
    var lastGa: Table
    var utcFlag: bool
    var boundary: Option<Instant>
    var marker: Option<nat>
    var sourceZone: Option<ZoneInfo>

    ghost function View(): Db
      reads this
    {
      Db(telegrams, lastGa, utcFlag, boundary, marker, sourceZone)
    }

    constructor (db: Db)
      ensures View() == db
    {
      telegrams, lastGa := db.telegrams, db.lastGa;
      utcFlag, boundary, marker, sourceZone := db.utcFlag, db.boundary, db.marker, db.sourceZone;
    }

    method ClassifyTimestampConvention(zoneGiven: bool, now: Instant)
      modifies this
      ensures View() == Classified(old(View()), zoneGiven, now)
      ensures !old(utcFlag) && (telegrams != map[] || lastGa != map[]) && old(boundary).None? && !zoneGiven ==>
                boundary == Some(now) && marker.Some? && forall k :: k in telegrams ==> k <= marker.value
      ensures telegrams == map[] && lastGa == map[] ==> utcFlag
    {
      if utcFlag {
        return;
      }
      if telegrams == map[] && lastGa == map[] {
        utcFlag := true;
        return;
      }
      if boundary.None? {
        if zoneGiven {
          return;
        }
        boundary := Some(now);
        marker := Some(MaxRowid(telegrams));
      }
    }

    method LegacyRowScopes(zone: ZoneInfo) returns (r: (set<nat>, set<nat>))
      ensures r == LegacyScopes(View(), zone)
    {
      if boundary.None? {
        return (telegrams.Keys, lastGa.Keys);
      }
      var inTelegrams, inLastGa := RowsBelow(telegrams, boundary.value), RowsBelow(lastGa, boundary.value);
      if marker.Some? && MaxRowid(telegrams) >= marker.value {
        var boundaryLocal := zone.localTime(boundary.value);
        inTelegrams := set k | k in RowsBelow(telegrams, boundaryLocal) && k <= marker.value;
      }
      r := (inTelegrams, inLastGa);
    }

    method MigrateTimestampsToUtc(zone: ZoneInfo) returns (converted: nat)
      requires WellBehaved(zone.offsetAt)
      modifies this
      ensures View() == Migrated(old(View()), zone)
      ensures converted == 0 ==> telegrams == old(telegrams)
      ensures converted == 0 || (!old(utcFlag) && converted == |LegacyScopes(old(View()), zone).0|)
    {
      converted := 0;
      if utcFlag {
        return;
      }
      var scopes := LegacyRowScopes(zone);
      var newTelegrams, newLastGa;
      var ignored;
      newTelegrams, converted := ConvertTableToUtc(telegrams, scopes.0, zone.offsetAt);
      newLastGa, ignored := ConvertTableToUtc(lastGa, scopes.1, zone.offsetAt);
      telegrams, lastGa := newTelegrams, newLastGa;
      utcFlag := true;
      sourceZone := Some(zone);
    }

    /** The part of `initialize` that matters here: classify, then convert if a zone was given. */
    method Initialize(zone: Option<ZoneInfo>, now: Instant)
      requires zone.Some? ==> WellBehaved(zone.value.offsetAt)
      modifies this
      ensures View() == (var c := Classified(old(View()), zone.Some?, now); if zone.Some? then Migrated(c, zone.value) else c)
    {
      ClassifyTimestampConvention(zone.Some?, now);
      if zone.Some? {
        var converted := MigrateTimestampsToUtc(zone.value);
      }
    }
  }

  // ---- Any history of starts, writes, evictions and migrations ----

  /** `ready`: a start has completed, so this process may write. */
  datatype State = State(db: Db, ready: bool)

  /** How far a start got before it failed or was cut off. */
  datatype Progress = NotClassified | ClassifiedOnly | Completed

  datatype Event =
    | Start(zone: Option<ZoneInfo>, now: Instant, progress: Progress)
    | Write(timestamp: Instant, summaries: set<nat>)
    | Evict(gone: set<nat>)
    | Clear
    | Migrate(source: ZoneInfo, commits: bool)

  function Fresh(t: Instant): Row {
    Row(t, t, false, 0)
  }

  /** An append to `telegrams` under the next rowid, and upserts of any last values. */
  function Written(db: Db, t: Instant, summaries: set<nat>): Db {
    db.(telegrams := db.telegrams[MaxRowid(db.telegrams) + 1 := Fresh(t)],
        lastGa := db.lastGa + (map k | k in summaries :: Fresh(t)))
  }

  function Step(s: State, e: Event): State {
    match e
    case Start(zone, now, progress) =>
      if progress.NotClassified? then s.(ready := false) else
      var c := Classified(s.db, zone.Some?, now);
      if progress.ClassifiedOnly? then State(c, false)
      else State(if zone.Some? then Migrated(c, zone.value) else c, true)
    case Write(t, summaries) => if s.ready then s.(db := Written(s.db, t, summaries)) else s
    case Evict(gone) => s.(db := s.db.(telegrams := s.db.telegrams - gone))
    case Clear => s.(db := s.db.(telegrams := map[], lastGa := map[]))
    case Migrate(zone, commits) => if commits then s.(db := Migrated(s.db, zone)) else s
  }

  function Run(s: State, events: seq<Event>): State {
    if events == [] then s else Step(Run(s, events[..|events| - 1]), events[|events| - 1])
  }

  /** The rowids have not restarted under the marker a migration still relies on. */
  predicate MarkerReached(s: State) {
    !s.db.utcFlag && s.db.marker.Some? ==> MaxRowid(s.db.telegrams) >= s.db.marker.value
  }

  ghost predicate MarkerReachedThroughout(s: State, events: seq<Event>) {
    forall k :: 0 <= k <= |events| ==> MarkerReached(Run(s, events[..k]))
  }

  /** A database as the upgrade finds it: legacy rows only, nothing recorded. */
  predicate BeforeUpgrade(s: State) {
    && !s.ready && !s.db.utcFlag && s.db.boundary.None? && s.db.marker.None? && s.db.sourceZone.None?
    && (forall k :: k in s.db.telegrams ==> Untouched(s.db.telegrams[k]))
    && (forall k :: k in s.db.lastGa ==> Untouched(s.db.lastGa[k]))
  }

  predicate Untouched(r: Row) {
    r.legacy && r.shifts == 0 && r.timestamp == r.original
  }

  /** A row holds its original digits, or those digits converted once by the recorded zone. */
  predicate ShiftedAtMostOnce(r: Row, zone: Option<ZoneInfo>) {
    || (r.shifts == 0 && r.timestamp == r.original)
    || (r.shifts == 1 && zone.Some? && r.timestamp == r.original - zone.value.offsetAt(r.original) * SECOND)
  }

  ghost predicate TableOk(table: Table, db: Db) {
    && (forall k :: k in table ==> ShiftedAtMostOnce(table[k], db.sourceZone))
    && (!db.utcFlag ==> forall k :: k in table ==> table[k].shifts == 0)
  }

  ghost predicate Invariant(s: State) {
    && TableOk(s.db.telegrams, s.db) && TableOk(s.db.lastGa, s.db)
    && (forall k :: k in s.db.telegrams && !s.db.telegrams[k].legacy ==> s.db.telegrams[k].shifts == 0)
    && (s.db.boundary.Some? <==> s.db.marker.Some?)
    && (!s.db.utcFlag ==> s.db.sourceZone.None?)
    && (!s.db.utcFlag && s.db.boundary.None? ==>
          !s.ready && forall k :: k in s.db.telegrams ==> s.db.telegrams[k].legacy)
    && (!s.db.utcFlag && s.db.boundary.Some? ==>
          forall k :: k in s.db.telegrams ==> (s.db.telegrams[k].legacy <==> k <= s.db.marker.value))
  }

  lemma ClassifyKeepsInvariant(s: State, zoneGiven: bool, now: Instant)
    requires Invariant(s)
    ensures Invariant(State(Classified(s.db, zoneGiven, now), false))
    ensures !zoneGiven ==> Invariant(State(Classified(s.db, zoneGiven, now), true))
  {
  }

  lemma MigrateKeepsInvariant(s: State, zone: ZoneInfo)
    requires Invariant(s) && MarkerReached(s)
    ensures Invariant(s.(db := Migrated(s.db, zone)))
    ensures Invariant(State(Migrated(s.db, zone), true))
  {
  }

  lemma WriteKeepsInvariant(s: State, t: Instant, summaries: set<nat>)
    requires Invariant(s) && MarkerReached(s) && s.ready
    ensures Invariant(s.(db := Written(s.db, t, summaries)))
  {
  }

  /** Classifying leaves the marker at the current maximum, so a migration right after may trust it. */
  lemma ClassifiedMarkerReached(s: State, zoneGiven: bool, now: Instant)
    requires MarkerReached(s)
    ensures MarkerReached(State(Classified(s.db, zoneGiven, now), false))
  {
  }

  lemma StepKeepsInvariant(s: State, e: Event)
    requires Invariant(s) && MarkerReached(s)
    ensures Invariant(Step(s, e))
  {
    match e {
      case Start(zone, now, progress) =>
        ClassifyKeepsInvariant(s, zone.Some?, now);
        ClassifiedMarkerReached(s, zone.Some?, now);
        if zone.Some? {
          MigrateKeepsInvariant(State(Classified(s.db, true, now), false), zone.value);
        }
      case Write(t, summaries) =>
        if s.ready {
          WriteKeepsInvariant(s, t, summaries);
        }
      case Evict(gone) =>
      case Clear =>
      case Migrate(zone, commits) =>
        MigrateKeepsInvariant(s, zone);
    }
  }

  lemma {:induction false} RunKeepsInvariant(s: State, events: seq<Event>)
    requires BeforeUpgrade(s) && MarkerReachedThroughout(s, events)
    ensures Invariant(Run(s, events))
  {
    if events != [] {
      var before := events[..|events| - 1];
      assert forall k :: 0 <= k <= |before| ==> before[..k] == events[..k];
      assert events[..|events| - 1] == before && events[..|before|] == before;
      RunKeepsInvariant(s, before);
      assert MarkerReached(Run(s, events[..|before|]));
      StepKeepsInvariant(Run(s, before), events[|events| - 1]);
    }
  }

  /**
   Over any history in which the rowids do not restart under the marker: no telegram written since
   the upgrade is ever shifted, and no row of either table is shifted twice; a shifted row holds
   its original wall-clock digits less the offset the recorded zone had at them.
   */
  lemma NoRowIsShiftedTwice(s: State, events: seq<Event>)
    requires BeforeUpgrade(s) && MarkerReachedThroughout(s, events)
    ensures var db := Run(s, events).db;
            && (forall k :: k in db.telegrams && !db.telegrams[k].legacy ==>
                  db.telegrams[k].shifts == 0 && db.telegrams[k].timestamp == db.telegrams[k].original)
            && (forall k :: k in db.telegrams ==> ShiftedAtMostOnce(db.telegrams[k], db.sourceZone))
            && (forall k :: k in db.lastGa ==> ShiftedAtMostOnce(db.lastGa[k], db.sourceZone))
  {
    RunKeepsInvariant(s, events);
  }

  /** The first start with a zone converts every row of an old database, in both tables. */
  lemma FirstStartConvertsEverything(s: State, zone: ZoneInfo, now: Instant)
    requires BeforeUpgrade(s)
    ensures var db := Step(s, Start(Some(zone), now, Completed)).db;
            && db.utcFlag
            && db.telegrams.Keys == s.db.telegrams.Keys && db.lastGa.Keys == s.db.lastGa.Keys
            && (forall k :: k in db.telegrams ==>
                  db.telegrams[k].timestamp == s.db.telegrams[k].original - zone.offsetAt(s.db.telegrams[k].original) * SECOND)
            && (forall k :: k in db.lastGa ==>
                  db.lastGa[k].timestamp == s.db.lastGa[k].original - zone.offsetAt(s.db.lastGa[k].original) * SECOND)
  {
    assert forall k :: k in s.db.telegrams ==> Untouched(s.db.telegrams[k]);
    assert forall k :: k in s.db.lastGa ==> Untouched(s.db.lastGa[k]);
  }

  // ---- The moment of the upgrade ----

  /**
   The `now` of the first start that came to look at a database with rows, not yet flagged, and was
   not told the zone that wrote them.
   */
  function UpgradeMoment(s: State, events: seq<Event>): Option<Instant> {
    if events == [] then None else
    var (front, e) := (events[..|events| - 1], events[|events| - 1]);
    var (earlier, db) := (UpgradeMoment(s, front), Run(s, front).db);
    if earlier.Some? then earlier
    else if e.Start? && e.zone.None? && e.progress != NotClassified
            && !db.utcFlag && (db.telegrams != map[] || db.lastGa != map[])
    then Some(e.now)
    else None
  }

  /** Over every run that moment is the recorded boundary. */
  lemma {:induction false} BoundaryIsUpgradeMoment(s: State, events: seq<Event>)
    requires BeforeUpgrade(s)
    ensures Run(s, events).db.boundary == UpgradeMoment(s, events)
  {
    if events != [] {
      BoundaryIsUpgradeMoment(s, events[..|events| - 1]);
      hide LegacyScopes, ConvertedTable;
    }
  }

  /** A start that gets to look at an empty database flags it, and there is no moment of upgrade to remember. */
  lemma EmptyDatabaseIsFlagged(s: State, zone: Option<ZoneInfo>, now: Instant, progress: Progress)
    requires s.db.telegrams == map[] && s.db.lastGa == map[] && progress != NotClassified
    ensures var db := Step(s, Start(zone, now, progress)).db;
            db.utcFlag && db.boundary == s.db.boundary && db.telegrams == map[] && db.lastGa == map[]
  {
  }

  /**
   A migration put off past the first start: at any later moment it shifts each legacy telegram whose
   digits lie below the moment of the upgrade as the zone's clocks showed it, by the offset at those
   digits, each for the first time, and leaves every other row of the table alone; last values go by that
   moment itself.
   */
  lemma DeferredMigrationShiftsOnce(s: State, events: seq<Event>, zone: ZoneInfo)
    requires BeforeUpgrade(s) && MarkerReachedThroughout(s, events)
    requires !Run(s, events).db.utcFlag && UpgradeMoment(s, events).Some?
    ensures var (db, after) := (Run(s, events).db, Step(Run(s, events), Migrate(zone, true)).db);
            var upgrade := UpgradeMoment(s, events).value;
            && after.utcFlag && after.telegrams.Keys == db.telegrams.Keys && after.lastGa.Keys == db.lastGa.Keys
            && (forall k :: k in db.telegrams ==>
                  if db.telegrams[k].legacy && db.telegrams[k].original < zone.localTime(upgrade)
                  then ShiftedNow(db.telegrams[k], after.telegrams[k], zone) else after.telegrams[k] == db.telegrams[k])
            && (forall k :: k in db.lastGa ==>
                  if db.lastGa[k].original < upgrade
                  then ShiftedNow(db.lastGa[k], after.lastGa[k], zone) else after.lastGa[k] == db.lastGa[k])
  {
    ReachedByRun(s, events);
    hide UpgradeMoment, Run, BeforeUpgrade, Invariant, Migrated, ShiftedNow, MarkerReachedThroughout;
    DeferredTelegrams(Run(s, events), zone);
    DeferredLastValues(Run(s, events), zone);
    MigrateIsMigrated(Run(s, events), zone);
  }

  /** As long as there is no such moment, no row was written since the upgrade, and a migration shifts them all. */
  lemma MigrationBeforeThatMoment(s: State, events: seq<Event>, zone: ZoneInfo)
    requires BeforeUpgrade(s) && MarkerReachedThroughout(s, events)
    requires !Run(s, events).db.utcFlag && UpgradeMoment(s, events).None?
    ensures var (db, after) := (Run(s, events).db, Step(Run(s, events), Migrate(zone, true)).db);
            && after.utcFlag && after.telegrams.Keys == db.telegrams.Keys && after.lastGa.Keys == db.lastGa.Keys
            && (forall k :: k in db.telegrams ==> ShiftedNow(db.telegrams[k], after.telegrams[k], zone))
            && (forall k :: k in db.lastGa ==> ShiftedNow(db.lastGa[k], after.lastGa[k], zone))
  {
    ReachedByRun(s, events);
    hide UpgradeMoment, Run, BeforeUpgrade, MarkerReachedThroughout;
    var db := Run(s, events).db;
    assert LegacyScopes(db, zone) == (db.telegrams.Keys, db.lastGa.Keys);
    assert forall k :: k in db.telegrams ==> ShiftedAtMostOnce(db.telegrams[k], db.sourceZone) && db.telegrams[k].shifts == 0;
    assert forall k :: k in db.lastGa ==> ShiftedAtMostOnce(db.lastGa[k], db.sourceZone) && db.lastGa[k].shifts == 0;
    hide Invariant, LegacyScopes, TableOk;
  }

  lemma MigrateIsMigrated(s: State, zone: ZoneInfo)
    ensures Step(s, Migrate(zone, true)).db == Migrated(s.db, zone)
  {
    hide Migrated;
  }

  lemma ReachedByRun(s: State, events: seq<Event>)
    requires BeforeUpgrade(s) && MarkerReachedThroughout(s, events)
    ensures Invariant(Run(s, events)) && MarkerReached(Run(s, events))
    ensures Run(s, events).db.boundary == UpgradeMoment(s, events)
  {
    BoundaryIsUpgradeMoment(s, events);
    RunKeepsInvariant(s, events);
    assert events[..|events|] == events;
    assert MarkerReached(Run(s, events[..|events|]));
  }

  lemma DeferredTelegrams(s: State, zone: ZoneInfo)
    requires Invariant(s) && MarkerReached(s) && !s.db.utcFlag && s.db.boundary.Some?
    ensures var (db, after) := (s.db, Migrated(s.db, zone));
            && after.telegrams.Keys == db.telegrams.Keys
            && (forall k :: k in db.telegrams ==>
                  if db.telegrams[k].legacy && db.telegrams[k].original < zone.localTime(db.boundary.value)
                  then ShiftedNow(db.telegrams[k], after.telegrams[k], zone) else after.telegrams[k] == db.telegrams[k])
  {
    var (db, scope) := (s.db, LegacyScopes(s.db, zone).0);
    forall k | k in db.telegrams
      ensures k in scope <==> db.telegrams[k].legacy && db.telegrams[k].original < zone.localTime(db.boundary.value)
      ensures ShiftedNow(db.telegrams[k], Shifted(db.telegrams[k], zone.offsetAt), zone)
    {
      assert ShiftedAtMostOnce(db.telegrams[k], db.sourceZone) && db.telegrams[k].shifts == 0;
    }
    hide Invariant, LegacyScopes, ShiftedNow;
  }

  lemma DeferredLastValues(s: State, zone: ZoneInfo)
    requires Invariant(s) && !s.db.utcFlag && s.db.boundary.Some?
    ensures var (db, after) := (s.db, Migrated(s.db, zone));
            && after.utcFlag && after.lastGa.Keys == db.lastGa.Keys
            && (forall k :: k in db.lastGa ==>
                  if db.lastGa[k].original < db.boundary.value
                  then ShiftedNow(db.lastGa[k], after.lastGa[k], zone) else after.lastGa[k] == db.lastGa[k])
  {
    var (db, scope) := (s.db, LegacyScopes(s.db, zone).1);
    forall k | k in db.lastGa
      ensures k in scope <==> db.lastGa[k].original < db.boundary.value
      ensures ShiftedNow(db.lastGa[k], Shifted(db.lastGa[k], zone.offsetAt), zone)
    {
      assert ShiftedAtMostOnce(db.lastGa[k], db.sourceZone) && db.lastGa[k].shifts == 0;
    }
    hide Invariant, LegacyScopes, ShiftedNow;
  }

  /** The row held its original digits and now holds them less their offset. */
  predicate ShiftedNow(before: Row, after: Row, zone: ZoneInfo) {
    var offset := zone.offsetAt(before.original);
    && before.timestamp == before.original && before.shifts == 0
    && after.timestamp == before.original - offset * SECOND && after.original == before.original
    && after.legacy == before.legacy && after.shifts == (if offset == 0 then 0 else 1)
  }

  /** Once flagged no event moves a timestamp: a write adds a row, replaces the last values it names, and that is all. */
  lemma FlaggedIsSettled(s: State, e: Event)
    requires s.db.utcFlag
    ensures var r := Step(s, e).db;
            && r.utcFlag
            && (forall k :: k in s.db.telegrams && k in r.telegrams ==> r.telegrams[k] == s.db.telegrams[k])
            && (forall k :: k in r.telegrams && k !in s.db.telegrams ==>
                  e.Write? && r.telegrams[k] == Row(e.timestamp, e.timestamp, false, 0))
            && (forall k :: k in r.lastGa && !(e.Write? && k in e.summaries) ==>
                  k in s.db.lastGa && r.lastGa[k] == s.db.lastGa[k])
            && (forall k :: k in r.lastGa && e.Write? && k in e.summaries ==>
                  r.lastGa[k] == Row(e.timestamp, e.timestamp, false, 0) || (k in s.db.lastGa && r.lastGa[k] == s.db.lastGa[k]))
  {
  }

  /**
   What keeps the telegrams written since the upgrade out of a migration's reach: rowids above the
   marker while the marker counts, else a timestamp not before the boundary.
   */
  predicate NewRowsOutOfReach(db: Db)
    requires db.boundary.Some? && db.marker.Some?
  {
    forall k :: k in db.telegrams && !db.telegrams[k].legacy ==>
      if MaxRowid(db.telegrams) >= db.marker.value then k > db.marker.value
      else db.telegrams[k].timestamp >= db.boundary.value
  }

  ghost predicate SparesNewRows(db: Db, zone: ZoneInfo) {
    forall k :: k in db.telegrams && !db.telegrams[k].legacy ==>
      k in Migrated(db, zone).telegrams && Migrated(db, zone).telegrams[k] == db.telegrams[k]
  }

  /** A zone that is always `offset` seconds ahead. */
  function FixedZone(offset: int): ZoneInfo {
    ZoneInfo(_ => offset, t => t + offset * SECOND)
  }

  lemma FixedZoneIsWellBehaved(offset: int)
    ensures WellBehaved(FixedZone(offset).offsetAt)
  {
    var zone := FixedZone(offset).offsetAt;
    forall hour | FullHour(hour)
      ensures MovesAtMostOnceIn(zone, hour)
    {
      assert ChangesAt(zone, hour, hour + HOUR, hour + HOUR);
    }
  }

  /** Exactly then no zone at all makes a pending migration touch a telegram written since the upgrade. */
  lemma NewRowsAreSparedIff(db: Db)
    requires !db.utcFlag && db.boundary.Some? && db.marker.Some?
    ensures (forall zone: ZoneInfo :: WellBehaved(zone.offsetAt) ==> SparesNewRows(db, zone)) <==> NewRowsOutOfReach(db)
  {
    if !NewRowsOutOfReach(db) {
      var k :| k in db.telegrams && !db.telegrams[k].legacy
        && !(if MaxRowid(db.telegrams) >= db.marker.value then k > db.marker.value
             else db.telegrams[k].timestamp >= db.boundary.value);
      var (t, b) := (db.telegrams[k].timestamp, db.boundary.value);
      var ahead := 1 + if t > b then t - b else 0;
      FixedZoneIsWellBehaved(ahead);
      var zone := FixedZone(ahead);
      assert k in LegacyScopes(db, zone).0;
      assert Migrated(db, zone).telegrams[k].shifts == db.telegrams[k].shifts + 1;
      assert !SparesNewRows(db, zone);
    }
  }

  /**
   The documented open corner: eviction empties `telegrams` after the upgrade, the rowids restart
   under the marker, and a migration then shifts a row that was written in UTC.
   */
  lemma RestartedRowidsAreShifted()
    ensures exists s: State, events: seq<Event> ::
      && BeforeUpgrade(s)
      && var db := Run(s, events).db;
      exists k :: k in db.telegrams && !db.telegrams[k].legacy && db.telegrams[k].shifts == 1
  {
    var zone := ZoneInfo(t => 3600, t => t + HOUR);
    var s := State(Db(map[1 := Row(0, 0, true, 0)], map[], false, None, None, None), false);
    var e1, e2 := Start(None, 10 * HOUR, Completed), Evict({1});
    var e3, e4 := Write(9 * HOUR, {}), Migrate(zone, true);
    var s1 := Step(s, e1);
    assert 1 in s.db.telegrams && MaxRowid(s.db.telegrams) == 1;
    var s2 := Step(s1, e2);
    assert s2.db.telegrams == map[];
    var s3 := Step(s2, e3);
    assert s3.db.telegrams.Keys == {1};
    var s4 := Step(s3, e4);
    assert 1 in s4.db.telegrams && !s4.db.telegrams[1].legacy && s4.db.telegrams[1].shifts == 1;
    assert Run(s, []) == s;
    RunOneMore(s, [], e1);
    RunOneMore(s, [e1], e2);
    RunOneMore(s, [e1, e2], e3);
    RunOneMore(s, [e1, e2, e3], e4);
    assert [] + [e1] == [e1] && [e1] + [e2] == [e1, e2] && [e1, e2] + [e3] == [e1, e2, e3];
    assert Run(s, [e1, e2, e3] + [e4]) == s4;
  }

  lemma RunOneMore(s: State, events: seq<Event>, e: Event)
    ensures Run(s, events + [e]) == Step(Run(s, events), e)
  {
    assert (events + [e])[..|events|] == events;
  }
}
