/**
 The normalised SQL store: interned strings, the telegrams table and the last-value summary.
 A transaction works on copies of the tables and either replaces all of them or none.
 */
module SqlStore {
  import opened Wrappers
  import opened Lists
  import opened Telegrams
  import opened Lookup

  datatype Row = Row(
    timestamp: int, sourceId: nat, destinationId: nat, telegramtypeId: nat, directionId: nat,
    sourceNameId: Option<nat>, destinationNameId: Option<nat>,
    dptMain: Option<int>, dptSub: Option<int>, data: int)

  datatype Db = Db(lookup: Lookup.Table, telegrams: seq<Row>, lastGa: map<nat, Row>)

  // ---- Reading rows ----

  ghost predicate ResolvesAs(t: Lookup.Table, id: nat, c: Category) {
    id in t && t[id].category == c
  }

  /** Every id column resolves in its own category; the two name columns may be NULL in old rows. */
  ghost predicate RowOk(t: Lookup.Table, r: Row) {
    && ResolvesAs(t, r.sourceId, Source) && ResolvesAs(t, r.destinationId, Destination)
    && ResolvesAs(t, r.telegramtypeId, TelegramType) && ResolvesAs(t, r.directionId, Direction)
    && (r.sourceNameId.Some? ==> ResolvesAs(t, r.sourceNameId.value, SourceName))
    && (r.destinationNameId.Some? ==> ResolvesAs(t, r.destinationNameId.value, DestinationName))
  }

  ghost predicate RowsOk(t: Lookup.Table, rows: seq<Row>) {
    forall r :: r in rows ==> RowOk(t, r)
  }

  function Text(t: Lookup.Table, id: nat): string {
    if id in t then t[id].value else ""
  }

  function NameText(t: Lookup.Table, id: Option<nat>): string {
    if id.Some? then Text(t, id.value) else ""
  }

  /** The telegram a row stands for. */
  function Decode(t: Lookup.Table, r: Row): Telegram {
    Telegram(r.timestamp, Text(t, r.sourceId), Text(t, r.destinationId), Text(t, r.telegramtypeId),
             Text(t, r.directionId), NameText(t, r.sourceNameId), NameText(t, r.destinationNameId),
             r.dptMain, r.dptSub, r.data)
  }

  function Decoder(t: Lookup.Table): Row -> Telegram {
    r => Decode(t, r)
  }

  /** The list of telegrams the store holds. */
  function Contents(db: Db): seq<Telegram> {
    Apply(Decoder(db.lookup), db.telegrams)
  }

  lemma DecodeIsStable(t: Lookup.Table, u: Lookup.Table, r: Row)
    requires Extends(t, u) && RowOk(t, r)
    ensures RowOk(u, r) && Decode(u, r) == Decode(t, r)
  {
  }

  // ---- Writing rows ----

  function PairsOf(t: Telegram): seq<Pair> {
    [Pair(Source, t.source), Pair(Destination, t.destination), Pair(TelegramType, t.telegramtype),
     Pair(Direction, t.direction), Pair(SourceName, t.sourceName), Pair(DestinationName, t.destinationName)]
  }

  /** `pairs` lists the strings of the batch, in whatever order the set is walked. */
  ghost predicate ListsPairsOf(pairs: seq<Pair>, batch: seq<Telegram>) {
    forall p :: p in pairs <==> exists t :: t in batch && p in PairsOf(t)
  }

  function Id(ids: map<Pair, nat>, c: Category, s: string): nat {
    if Pair(c, s) in ids then ids[Pair(c, s)] else 0
  }

  function RowOf(t: Telegram, ids: map<Pair, nat>): Row {
    Row(t.timestamp, Id(ids, Source, t.source), Id(ids, Destination, t.destination),
        Id(ids, TelegramType, t.telegramtype), Id(ids, Direction, t.direction),
        Some(Id(ids, SourceName, t.sourceName)), Some(Id(ids, DestinationName, t.destinationName)),
        t.dptMain, t.dptSub, t.data)
  }

  function Encoder(ids: map<Pair, nat>): Telegram -> Row {
    t => RowOf(t, ids)
  }

  /** A telegram written under resolved ids is read back as itself. */
  lemma RowRoundTrip(t: Lookup.Table, ids: map<Pair, nat>, x: Telegram)
    requires CacheOk(ids, t) && forall p :: p in PairsOf(x) ==> p in ids
    ensures RowOk(t, RowOf(x, ids)) && Decode(t, RowOf(x, ids)) == x
  {
    var ps := PairsOf(x);
    assert ps[0] in ids && ps[1] in ids && ps[2] in ids && ps[3] in ids && ps[4] in ids && ps[5] in ids;
  }

  // ---- The last-value table ----

  /** A row replaces the summary of its destination only when it is strictly newer. */
  function NewerRow(last: map<nat, Row>, r: Row): map<nat, Row> {
    if r.destinationId !in last || r.timestamp > last[r.destinationId].timestamp then last[r.destinationId := r] else last
  }

  function FoldNewer(last: map<nat, Row>, rows: seq<Row>): map<nat, Row> {
    if rows == [] then last else NewerRow(FoldNewer(last, rows[..|rows| - 1]), rows[|rows| - 1])
  }

  /** INSERT ... ON CONFLICT DO UPDATE ... WHERE excluded.timestamp > existing. */
  function Upserted(last: map<nat, Row>, latest: map<nat, Row>): map<nat, Row> {
    map d | d in last.Keys + latest.Keys ::
      if d !in last || (d in latest && latest[d].timestamp > last[d].timestamp) then latest[d] else last[d]
  }

  /** One upsert of a batch's own winners is the row-by-row rule over the whole batch. */
  lemma {:induction false} UpsertOfBatchIsFold(last: map<nat, Row>, rows: seq<Row>)
    ensures Upserted(last, FoldNewer(map[], rows)) == FoldNewer(last, rows)
  {
    if rows == [] {
      assert Upserted(last, map[]) == last;
    } else {
      var (front, r) := (rows[..|rows| - 1], rows[|rows| - 1]);
      UpsertOfBatchIsFold(last, front);
      UpsertOfOneMore(last, FoldNewer(map[], front), r);
    }
  }

  lemma UpsertOfOneMore(last: map<nat, Row>, latest: map<nat, Row>, r: Row)
    ensures Upserted(last, NewerRow(latest, r)) == NewerRow(Upserted(last, latest), r)
  {
    var (a, b) := (Upserted(last, NewerRow(latest, r)), NewerRow(Upserted(last, latest), r));
    assert a.Keys == b.Keys;
    assert forall d :: d in a ==> a[d] == b[d];
  }

  // ---- One transaction ----

  /** `store_many` once committed. */
  ghost function Stored(db: Db, batch: seq<Telegram>, pairs: seq<Pair>, floor: nat): Db
    requires Unique(db.lookup)
  {
    if batch == [] then db else
    var lookup := InternedAll(db.lookup, pairs, floor);
    InternedAllKeeps(db.lookup, pairs, floor);
    var rows := Apply(Encoder(IdsOf(lookup, pairs)), batch);
    Db(lookup, db.telegrams + rows, FoldNewer(db.lastGa, rows))
  }

  function Evicted(db: Db, cutoff: int): Db {
    db.(telegrams := Filter(db.telegrams, (r: Row) => r.timestamp >= cutoff))
  }

  function Cleared(db: Db): Db {
    db.(telegrams := [], lastGa := map[])
  }

  class Store {
    var lookup: Lookup.Table
    var telegrams: seq<Row>
    var lastGa: map<nat, Row>
    const lookupCache: LookupCache

    ghost function View(): Db
      reads this
    {
      Db(lookup, telegrams, lastGa)
    }

    ghost predicate Valid()
      reads this, lookupCache
    {
      Unique(lookup) && CacheOk(lookupCache.cache, lookup)
    }

    constructor ()
      ensures Valid() && View() == Db(map[], [], map[]) && fresh(lookupCache)
    {
      lookup, telegrams, lastGa := map[], [], map[];
      lookupCache := new LookupCache();
    }

    /** What the transaction of a non-empty batch does to its copies of the tables. */
    method RunTransaction(batch: seq<Telegram>, pairs: seq<Pair>, floor: nat) returns (after: Db, ids: map<Pair, nat>)
      requires Valid() && batch != []
      ensures after == Stored(View(), batch, pairs, floor)
      ensures Unique(after.lookup) && Extends(lookup, after.lookup) && CacheOk(ids, after.lookup)
      ensures forall p :: p in pairs ==> Has(after.lookup, p)
      ensures ids == IdsOf(after.lookup, pairs)
    {
      hide InternedAll, FoldNewer, IdsOf, Extends, Has, Unique, CacheOk;
      var newLookup;
      ids, newLookup := lookupCache.GetOrCreateIds(lookup, pairs, floor);
      IdsAreDetermined(newLookup, pairs, ids);
      var rows := EncodeBatch(batch, ids);
      var latest := LatestPerDestination(rows);
      UpsertOfBatchIsFold(lastGa, rows);
      after := Db(newLookup, telegrams + rows, Upserted(lastGa, latest));
    }

    /** One transaction; when it does not commit, tables and cache stay as they were. */
    method StoreMany(batch: seq<Telegram>, pairs: seq<Pair>, floor: nat, commits: bool)
      requires Valid() && ListsPairsOf(pairs, batch)
      modifies this, lookupCache
      ensures Valid()
      ensures View() == if commits then Stored(old(View()), batch, pairs, floor) else old(View())
      ensures commits && batch != [] ==>
        (forall p :: p in pairs ==> Has(lookup, p)) && lookupCache.cache == old(lookupCache.cache) + IdsOf(lookup, pairs)
      ensures !commits || batch == [] ==> lookupCache.cache == old(lookupCache.cache)
    {
      if batch == [] {
        return;
      }
      hide Stored, Extends, Has, PairsOf, ListsPairsOf, IdsOf, Unique, CacheOk;
      var after, ids := RunTransaction(batch, pairs, floor);
      if commits {
        CacheOkExtends(lookupCache.cache, lookup, after.lookup);
        CacheOkMerged(lookupCache.cache, ids, after.lookup);
        lookup, telegrams, lastGa := after.lookup, after.telegrams, after.lastGa;
        lookupCache.Publish(ids);
      }
    }

    /** The loop that turns telegrams into rows under the resolved ids. */
    method EncodeBatch(batch: seq<Telegram>, ids: map<Pair, nat>) returns (rows: seq<Row>)
      ensures rows == Apply(Encoder(ids), batch)
    {
      rows := [];
      var n := 0;
      while n < |batch|
        invariant n <= |batch| && rows == Apply(Encoder(ids), batch[..n])
      {
        assert batch[..n + 1] == batch[..n] + [batch[n]];
        rows := rows + [RowOf(batch[n], ids)];
        n := n + 1;
      }
      assert batch[..n] == batch;
    }

    /** The dictionary loop that picks the batch's winner for each destination. */
    method LatestPerDestination(rows: seq<Row>) returns (latest: map<nat, Row>)
      ensures latest == FoldNewer(map[], rows)
    {
      latest := map[];
      var n := 0;
      while n < |rows|
        invariant n <= |rows| && latest == FoldNewer(map[], rows[..n])
      {
        assert rows[..n + 1][..n] == rows[..n];
        var r := rows[n];
        if r.destinationId !in latest || r.timestamp > latest[r.destinationId].timestamp {
          latest := latest[r.destinationId := r];
        }
        n := n + 1;
      }
      assert rows[..n] == rows;
    }

    /** A dry run counts what an eviction would delete. */
    method EvictOlderThan(cutoff: int, dryRun: bool) returns (rowcount: nat)
      modifies this`telegrams
      ensures View() == if dryRun then old(View()) else Evicted(old(View()), cutoff)
      ensures rowcount == |old(telegrams)| - |Evicted(old(View()), cutoff).telegrams|
    {
      var kept := Filter(telegrams, (r: Row) => r.timestamp >= cutoff);
      rowcount := |telegrams| - |kept|;
      if !dryRun {
        telegrams := kept;
      }
    }

    method Clear()
      modifies this`telegrams, this`lastGa
      ensures View() == Cleared(old(View()))
    {
      telegrams, lastGa := [], map[];
    }
  }
}
