/**
 Any run of the SQL store against the plain list of telegrams: transactions that commit or roll
 back, cache warming, evictions, clears and other processes interning strings of their own.
 */
module SqlRuns {
  import opened Wrappers
  import opened Lists
  import opened Telegrams
  import opened Lookup
  import opened SqlStore
  import MemoryStore

  /** `model` is the plain list, `history` everything stored since the last clear, evicted or not. */
  datatype State = State(db: Db, cache: map<Pair, nat>, model: seq<Telegram>, history: seq<Telegram>)

  /**
   `floor` is what a sequence skipped on the way to the next id. A caller cancelled after the commit
   never publishes its ids to the cache.
   */
  datatype Event =
    | StoreBatch(batch: seq<Telegram>, pairs: seq<Pair>, floor: nat, commits: bool, publishes: bool)
    | Warm
    | Evict(cutoff: int)
    | Clear
    | ForeignIntern(pairs: seq<Pair>, floor: nat)

  ghost function Init(): State {
    State(Db(map[], [], map[]), map[], [], [])
  }

  ghost function WarmCache(cache: map<Pair, nat>, t: Lookup.Table): map<Pair, nat> {
    cache + map p | p in t.Values :: IdOf(t, p)
  }

  ghost function Step(s: State, e: Event): State
    requires Unique(s.db.lookup)
  {
    match e
    case StoreBatch(batch, pairs, floor, commits, publishes) =>
      if !commits || batch == [] || !ListsPairsOf(pairs, batch) then s else
      InternedAllKeeps(s.db.lookup, pairs, floor);
      State(Stored(s.db, batch, pairs, floor),
            if publishes then s.cache + IdsOf(InternedAll(s.db.lookup, pairs, floor), pairs) else s.cache,
            s.model + batch, s.history + batch)
    case Warm => s.(cache := WarmCache(s.cache, s.db.lookup))
    case Evict(cutoff) =>
      s.(db := Evicted(s.db, cutoff), model := Filter(s.model, (t: Telegram) => t.timestamp >= cutoff))
    case Clear => s.(db := Cleared(s.db), model := [], history := [])
    case ForeignIntern(pairs, floor) => s.(db := s.db.(lookup := InternedAll(s.db.lookup, pairs, floor)))
  }

  ghost predicate RowAgrees(t: Lookup.Table, d: nat, r: Row, last: map<string, Telegram>) {
    RowOk(t, r) && r.destinationId == d && Text(t, d) in last && last[Text(t, d)] == Decode(t, r)
  }

  ghost predicate RowsAgree(t: Lookup.Table, lastGa: map<nat, Row>, last: map<string, Telegram>) {
    forall d :: d in lastGa ==> RowAgrees(t, d, lastGa[d], last)
  }

  ghost predicate AllCovered(t: Lookup.Table, lastGa: map<nat, Row>, last: map<string, Telegram>) {
    forall s :: s in last ==> Has(t, Pair(Destination, s)) && IdOf(t, Pair(Destination, s)) in lastGa
  }

  /** The summary table holds, under destination ids, exactly the last values `last`. */
  ghost predicate LastAgrees(t: Lookup.Table, lastGa: map<nat, Row>, last: map<string, Telegram>) {
    RowsAgree(t, lastGa, last) && AllCovered(t, lastGa, last)
  }

  ghost predicate Invariant(s: State) {
    && Unique(s.db.lookup) && CacheOk(s.cache, s.db.lookup)
    && RowsOk(s.db.lookup, s.db.telegrams)
    && Contents(s.db) == s.model
    && LastAgrees(s.db.lookup, s.db.lastGa, MemoryStore.LastOf(s.history))
  }

  // ---- Growing the lookup table ----

  lemma ContentsAreStable(t: Lookup.Table, u: Lookup.Table, rows: seq<Row>)
    requires Extends(t, u) && RowsOk(t, rows)
    ensures RowsOk(u, rows) && Apply(Decoder(u), rows) == Apply(Decoder(t), rows)
  {
    forall r | r in rows
      ensures RowOk(u, r) && Decode(u, r) == Decode(t, r)
    {
      DecodeIsStable(t, u, r);
    }
  }

  lemma IdIsStable(t: Lookup.Table, u: Lookup.Table, p: Pair)
    requires Unique(t) && Unique(u) && Extends(t, u) && Has(t, p)
    ensures Has(u, p) && IdOf(u, p) == IdOf(t, p)
  {
    HasExtends(t, u, p);
  }

  lemma LastAgreesIsStable(t: Lookup.Table, u: Lookup.Table, lastGa: map<nat, Row>, last: map<string, Telegram>)
    requires Unique(t) && Unique(u) && Extends(t, u) && LastAgrees(t, lastGa, last)
    ensures LastAgrees(u, lastGa, last)
  {
    hide Extends, Unique, RowAgrees, Has;
    forall d | d in lastGa
      ensures RowAgrees(u, d, lastGa[d], last)
    {
      RowAgreesIsStable(t, u, d, lastGa[d], last);
    }
    forall s | s in last
      ensures Has(u, Pair(Destination, s)) && IdOf(u, Pair(Destination, s)) in lastGa
    {
      IdIsStable(t, u, Pair(Destination, s));
    }
  }

  lemma RowAgreesIsStable(t: Lookup.Table, u: Lookup.Table, d: nat, r: Row, last: map<string, Telegram>)
    requires Extends(t, u) && RowAgrees(t, d, r, last)
    ensures RowAgrees(u, d, r, last)
  {
    DecodeIsStable(t, u, r);
    hide Decode;
  }

  // ---- One more summary row ----

  lemma DestinationIds(t: Lookup.Table, d: nat, s: string)
    requires Unique(t) && ResolvesAs(t, d, Destination) && Text(t, d) == s
    ensures Has(t, Pair(Destination, s)) && IdOf(t, Pair(Destination, s)) == d
  {
    assert t[d] == Pair(Destination, s);
  }

  lemma NewerAgrees(t: Lookup.Table, lastGa: map<nat, Row>, last: map<string, Telegram>, r: Row)
    requires Unique(t) && LastAgrees(t, lastGa, last) && RowOk(t, r)
    ensures LastAgrees(t, NewerRow(lastGa, r), MemoryStore.Newer(last, Decode(t, r)))
  {
    var x, d := Decode(t, r), r.destinationId;
    var (rows, texts) := (NewerRow(lastGa, r), MemoryStore.Newer(last, x));
    DestinationIds(t, d, x.destination);
    assert x.timestamp == r.timestamp && Text(t, d) == x.destination;
    assert d in lastGa <==> x.destination in last;
    assert d in lastGa ==> last[x.destination] == Decode(t, lastGa[d]) && last[x.destination].timestamp == lastGa[d].timestamp;
    if d !in lastGa || r.timestamp > lastGa[d].timestamp {
      assert rows == lastGa[d := r] && texts == last[x.destination := x];
      OneSummaryReplaced(t, lastGa, last, r);
    }
  }

  lemma OneSummaryReplaced(t: Lookup.Table, lastGa: map<nat, Row>, last: map<string, Telegram>, r: Row)
    requires Unique(t) && LastAgrees(t, lastGa, last) && RowOk(t, r)
    ensures LastAgrees(t, lastGa[r.destinationId := r], last[Text(t, r.destinationId) := Decode(t, r)])
  {
    hide RowsAgree, AllCovered, Unique, RowOk, Decode;
    OneRowReplaced(t, lastGa, last, r);
    OneMoreCovered(t, lastGa, last, r);
  }

  lemma OneRowReplaced(t: Lookup.Table, lastGa: map<nat, Row>, last: map<string, Telegram>, r: Row)
    requires Unique(t) && RowsAgree(t, lastGa, last) && RowOk(t, r)
    ensures RowsAgree(t, lastGa[r.destinationId := r], last[Text(t, r.destinationId) := Decode(t, r)])
  {
    hide RowAgrees, Decode, Unique, RowOk, Text;
    forall e | e in lastGa
      ensures e != r.destinationId ==> RowAgrees(t, e, lastGa[e], last[Text(t, r.destinationId) := Decode(t, r)])
    {
      OtherRowsStay(t, e, lastGa[e], last, r);
    }
    NewRowAgrees(t, last, r);
  }

  lemma NewRowAgrees(t: Lookup.Table, last: map<string, Telegram>, r: Row)
    requires RowOk(t, r)
    ensures RowAgrees(t, r.destinationId, r, last[Text(t, r.destinationId) := Decode(t, r)])
  {
  }

  lemma OtherRowsStay(t: Lookup.Table, e: nat, row: Row, last: map<string, Telegram>, r: Row)
    requires Unique(t) && RowAgrees(t, e, row, last) && RowOk(t, r)
    ensures e != r.destinationId ==> RowAgrees(t, e, row, last[Text(t, r.destinationId) := Decode(t, r)])
  {
    hide Decode;
    if Text(t, e) == Text(t, r.destinationId) {
      DestinationIds(t, e, Text(t, e));
      DestinationIds(t, r.destinationId, Text(t, e));
    }
  }

  lemma OneMoreCovered(t: Lookup.Table, lastGa: map<nat, Row>, last: map<string, Telegram>, r: Row)
    requires Unique(t) && AllCovered(t, lastGa, last) && RowOk(t, r)
    ensures AllCovered(t, lastGa[r.destinationId := r], last[Text(t, r.destinationId) := Decode(t, r)])
  {
    var (d, name) := (r.destinationId, Text(t, r.destinationId));
    DestinationIds(t, d, name);
    hide Decode, Unique, RowOk, Has;
    forall s | s in last[name := Decode(t, r)]
      ensures Has(t, Pair(Destination, s)) && IdOf(t, Pair(Destination, s)) in lastGa[d := r]
    {
      if s != name {
        assert s in last;
      }
    }
  }

  lemma {:induction false} FoldAgrees(t: Lookup.Table, lastGa: map<nat, Row>, history: seq<Telegram>, rows: seq<Row>)
    requires Unique(t) && LastAgrees(t, lastGa, MemoryStore.LastOf(history)) && RowsOk(t, rows)
    ensures LastAgrees(t, FoldNewer(lastGa, rows), MemoryStore.LastOf(history + Apply(Decoder(t), rows)))
  {
    hide LastAgrees, Unique, RowOk, NewerRow, MemoryStore.Newer, Decode;
    if rows == [] {
      assert history + Apply(Decoder(t), rows) == history;
    } else {
      var (front, r) := (rows[..|rows| - 1], rows[|rows| - 1]);
      assert r in rows && forall x :: x in front ==> x in rows;
      FoldAgrees(t, lastGa, history, front);
      LastOfOneMore(history, t, rows);
      NewerAgrees(t, FoldNewer(lastGa, front), MemoryStore.LastOf(history + Apply(Decoder(t), front)), r);
    }
  }

  lemma LastOfOneMore(history: seq<Telegram>, t: Lookup.Table, rows: seq<Row>)
    requires rows != []
    ensures var (front, r) := (rows[..|rows| - 1], rows[|rows| - 1]);
            MemoryStore.LastOf(history + Apply(Decoder(t), rows))
            == MemoryStore.Newer(MemoryStore.LastOf(history + Apply(Decoder(t), front)), Decode(t, r))
  {
    hide Decode;
    var all := history + Apply(Decoder(t), rows);
    assert all[..|all| - 1] == history + Apply(Decoder(t), rows[..|rows| - 1]);
    assert all[|all| - 1] == Decode(t, rows[|rows| - 1]);
  }

  // ---- Every step ----

  lemma BatchRoundTrip(t: Lookup.Table, ids: map<Pair, nat>, batch: seq<Telegram>)
    requires CacheOk(ids, t) && forall x :: x in batch ==> forall p :: p in PairsOf(x) ==> p in ids
    ensures RowsOk(t, Apply(Encoder(ids), batch)) && Apply(Decoder(t), Apply(Encoder(ids), batch)) == batch
  {
    forall i | 0 <= i < |batch|
      ensures RowOk(t, RowOf(batch[i], ids)) && Decode(t, RowOf(batch[i], ids)) == batch[i]
    {
      RowRoundTrip(t, ids, batch[i]);
    }
  }

  lemma ApplyConcat<S, T>(f: S -> T, a: seq<S>, b: seq<S>)
    ensures Apply(f, a + b) == Apply(f, a) + Apply(f, b)
  {
  }

  lemma StoreKeepsInvariant(s: State, batch: seq<Telegram>, pairs: seq<Pair>, floor: nat, publishes: bool)
    requires Invariant(s) && batch != [] && ListsPairsOf(pairs, batch)
    ensures Invariant(Step(s, StoreBatch(batch, pairs, floor, true, publishes)))
  {
    var t := s.db.lookup;
    InternedAllKeeps(t, pairs, floor);
    var u := InternedAll(t, pairs, floor);
    var ids := IdsOf(u, pairs);
    AllIdsAreResolved(u, pairs, batch);
    var rows := Apply(Encoder(ids), batch);
    hide Invariant, ListsPairsOf, InternedAll, RowsOk, LastAgrees, Unique, Extends, CacheOk, Has;
    hide MemoryStore.LastOf, FoldNewer, IdsOf, PairsOf, Encoder, Decoder;
    BatchRoundTrip(u, ids, batch);
    InvariantParts(s);
    ContentsAreStable(t, u, s.db.telegrams);
    ApplyConcat(Decoder(u), s.db.telegrams, rows);
    LastAgreesIsStable(t, u, s.db.lastGa, MemoryStore.LastOf(s.history));
    FoldAgrees(u, s.db.lastGa, s.history, rows);
    CacheOkExtends(s.cache, t, u);
    CacheOkMerged(s.cache, ids, u);
    RowsOkConcat(u, s.db.telegrams, rows);
    InvariantFromParts(Step(s, StoreBatch(batch, pairs, floor, true, publishes)));
  }

  lemma AllIdsAreResolved(t: Lookup.Table, pairs: seq<Pair>, batch: seq<Telegram>)
    requires ListsPairsOf(pairs, batch) && forall p :: p in pairs ==> Has(t, p)
    ensures CacheOk(IdsOf(t, pairs), t)
    ensures forall x :: x in batch ==> forall p :: p in PairsOf(x) ==> p in IdsOf(t, pairs)
  {
    hide PairsOf, Has;
    forall x, p | x in batch && p in PairsOf(x)
      ensures p in IdsOf(t, pairs)
    {
      assert p in pairs;
    }
  }

  lemma InvariantParts(s: State)
    requires Invariant(s)
    ensures Unique(s.db.lookup) && CacheOk(s.cache, s.db.lookup) && RowsOk(s.db.lookup, s.db.telegrams)
    ensures Contents(s.db) == s.model && LastAgrees(s.db.lookup, s.db.lastGa, MemoryStore.LastOf(s.history))
  {
  }

  lemma InvariantFromParts(s: State)
    requires Unique(s.db.lookup) && CacheOk(s.cache, s.db.lookup) && RowsOk(s.db.lookup, s.db.telegrams)
    requires Contents(s.db) == s.model && LastAgrees(s.db.lookup, s.db.lastGa, MemoryStore.LastOf(s.history))
    ensures Invariant(s)
  {
  }

  lemma RowsOkConcat(t: Lookup.Table, a: seq<Row>, b: seq<Row>)
    requires RowsOk(t, a) && RowsOk(t, b)
    ensures RowsOk(t, a + b)
  {
  }

  lemma ForeignKeepsInvariant(s: State, pairs: seq<Pair>, floor: nat)
    requires Invariant(s)
    ensures Invariant(Step(s, ForeignIntern(pairs, floor)))
  {
    InternedAllKeeps(s.db.lookup, pairs, floor);
    var u := InternedAll(s.db.lookup, pairs, floor);
    ContentsAreStable(s.db.lookup, u, s.db.telegrams);
    LastAgreesIsStable(s.db.lookup, u, s.db.lastGa, MemoryStore.LastOf(s.history));
    CacheOkExtends(s.cache, s.db.lookup, u);
    hide LastAgrees, RowsOk, CacheOk, Unique, InternedAll;
  }

  lemma EvictKeepsInvariant(s: State, cutoff: int)
    requires Invariant(s)
    ensures Invariant(Step(s, Evict(cutoff)))
  {
    var young := (r: Row) => r.timestamp >= cutoff;
    forall r | r in Filter(s.db.telegrams, young)
      ensures r in s.db.telegrams
    {
      FilterMembers(s.db.telegrams, young, r);
    }
    FilterOfApply(s.db.telegrams, Decoder(s.db.lookup), young, (t: Telegram) => t.timestamp >= cutoff);
    hide LastAgrees, CacheOk, Unique;
  }

  lemma StepKeepsInvariant(s: State, e: Event)
    requires Invariant(s)
    ensures Invariant(Step(s, e))
  {
    hide LastAgrees, RowsOk;
    match e {
      case StoreBatch(batch, pairs, floor, commits, publishes) =>
        if commits && batch != [] && ListsPairsOf(pairs, batch) {
          StoreKeepsInvariant(s, batch, pairs, floor, publishes);
        }
      case Warm =>
      case Evict(cutoff) => EvictKeepsInvariant(s, cutoff);
      case Clear => ClearKeepsInvariant(s);
      case ForeignIntern(pairs, floor) => ForeignKeepsInvariant(s, pairs, floor);
    }
  }

  lemma ClearKeepsInvariant(s: State)
    requires Invariant(s)
    ensures Invariant(Step(s, Clear))
  {
  }

  /** A run with its proof: the invariant is what lets the next step be taken. */
  ghost function Run(events: seq<Event>): (s: State)
    ensures Invariant(s)
  {
    if events == [] then Init() else
    var before := Run(events[..|events| - 1]);
    StepKeepsInvariant(before, events[|events| - 1]);
    Step(before, events[|events| - 1])
  }

  // ---- What every run has ----

  /** The telegrams `get_last_unique_telegrams` reads off the summary table, in no particular order. */
  ghost function LastUnique(db: Db): set<Telegram> {
    set d | d in db.lastGa :: Decode(db.lookup, db.lastGa[d])
  }

  /** The cache holds committed rows only, and no id stands for two strings, rolled back ids included. */
  lemma CacheNeverLies(events: seq<Event>, p: Pair, q: Pair)
    requires p in Run(events).cache && q in Run(events).cache
    ensures Run(events).cache[p] in Run(events).db.lookup && Run(events).db.lookup[Run(events).cache[p]] == p
    ensures Run(events).cache[p] == Run(events).cache[q] ==> p == q
    ensures Has(Run(events).db.lookup, p) && IdOf(Run(events).db.lookup, p) == Run(events).cache[p]
  {
    var s := Run(events);
    hide Run, Contents, LastAgrees, RowsOk;
    assert CacheOk(s.cache, s.db.lookup);
    assert s.cache[p] in s.db.lookup && s.db.lookup[s.cache[p]] == p;
    assert s.cache[q] in s.db.lookup && s.db.lookup[s.cache[q]] == q;
  }

  /** What a plain list makes of the events. */
  function PlainList(events: seq<Event>): seq<Telegram> {
    if events == [] then [] else
    var before := PlainList(events[..|events| - 1]);
    match events[|events| - 1]
    case StoreBatch(batch, _, _, commits, _) => if commits then before + batch else before
    case Evict(cutoff) => Filter(before, (t: Telegram) => t.timestamp >= cutoff)
    case Clear => []
    case _ => before
  }

  ghost predicate WellFormed(events: seq<Event>) {
    forall e :: e in events && e.StoreBatch? ==> ListsPairsOf(e.pairs, e.batch)
  }

  /** The interned tables read back as the plain list, telegram by telegram. */
  lemma EveryTelegramIsItself(events: seq<Event>)
    requires WellFormed(events)
    ensures Contents(Run(events).db) == PlainList(events)
  {
    var s := Run(events);
    assert Contents(s.db) == s.model;
    ModelIsPlainList(events);
  }

  lemma {:induction false} ModelIsPlainList(events: seq<Event>)
    requires WellFormed(events)
    ensures Run(events).model == PlainList(events)
  {
    if events != [] {
      var (front, e) := (events[..|events| - 1], events[|events| - 1]);
      assert e in events && forall x :: x in front ==> x in events;
      ModelIsPlainList(front);
      hide Invariant, ListsPairsOf, InternedAll, IdsOf, Stored, WarmCache;
      assert Run(events) == Step(Run(front), e);
      var m := Run(front).model;
      match e {
        case StoreBatch(batch, pairs, floor, commits, publishes) =>
          if batch == [] {
            assert m + batch == m;
          }
        case _ =>
      }
    }
  }

  lemma RowOfDestination(t: Lookup.Table, lastGa: map<nat, Row>, last: map<string, Telegram>, name: string)
    requires Unique(t) && LastAgrees(t, lastGa, last) && name in last
    ensures exists d :: d in lastGa && Decode(t, lastGa[d]) == last[name]
  {
    hide Unique;
    var d := IdOf(t, Pair(Destination, name));
    assert d in lastGa && RowAgrees(t, d, lastGa[d], last);
    assert Text(t, d) == name;
  }

  /** The summary table is the map a single pass over everything stored since the last clear would build. */
  lemma SummariesAreLastOf(s: State)
    requires Invariant(s)
    ensures LastUnique(s.db) == MemoryStore.LastOf(s.history).Values
  {
    var (t, lastGa, last) := (s.db.lookup, s.db.lastGa, MemoryStore.LastOf(s.history));
    assert Unique(t) && LastAgrees(t, lastGa, last);
    hide Invariant, MemoryStore.LastOf, Decode, Unique, AllCovered, Has;
    forall x | x in last.Values
      ensures x in LastUnique(s.db)
    {
      var name :| name in last && last[name] == x;
      RowOfDestination(t, lastGa, last, name);
    }
    forall d | d in lastGa
      ensures Decode(t, lastGa[d]) in last.Values
    {
      assert RowAgrees(t, d, lastGa[d], last);
      assert last[Text(t, d)] == Decode(t, lastGa[d]);
    }
  }

  /** In every run: one summary per destination ever written since the clear, the first-written of its newest. */
  lemma LastValuesAreFirstOfNewest(events: seq<Event>, destination: string)
    ensures (exists x :: x in LastUnique(Run(events).db) && x.destination == destination)
            <==> (exists x :: x in Run(events).history && x.destination == destination)
    ensures forall x :: x in LastUnique(Run(events).db) && x.destination == destination ==>
              MemoryStore.FirstOfNewest(Run(events).history, destination, x)
  {
    var s := Run(events);
    SummariesAreLastOf(s);
    var last := MemoryStore.LastOf(s.history);
    hide Run, Invariant, MemoryStore.FirstOfNewest, LastUnique;
    MemoryStore.LastOfIsFirstOfNewest(s.history, destination);
    KeysAreDestinations(s.history);
    if exists x :: x in s.history && x.destination == destination {
      assert last[destination] in last.Values && last[destination].destination == destination;
    }
    forall x | x in last.Values && x.destination == destination
      ensures x == last[destination] && destination in last
    {
    }
  }

  lemma {:induction false} KeysAreDestinations(telegrams: seq<Telegram>)
    ensures forall d :: d in MemoryStore.LastOf(telegrams) ==> MemoryStore.LastOf(telegrams)[d].destination == d
  {
    if telegrams != [] {
      KeysAreDestinations(telegrams[..|telegrams| - 1]);
    }
  }

  /** How the history was cut into batches, and what was evicted in between, leaves no trace. */
  lemma SplitDoesNotMatter(a: seq<Event>, b: seq<Event>)
    requires Run(a).history == Run(b).history
    ensures LastUnique(Run(a).db) == LastUnique(Run(b).db)
  {
    SummariesAreLastOf(Run(a));
    SummariesAreLastOf(Run(b));
  }

  predicate EvictedSinceClear(events: seq<Event>) {
    events != [] && !events[|events| - 1].Clear?
    && (events[|events| - 1].Evict? || EvictedSinceClear(events[..|events| - 1]))
  }

  lemma {:induction false} HistoryIsModel(events: seq<Event>)
    requires !EvictedSinceClear(events)
    ensures Run(events).history == Run(events).model
  {
    if events != [] && !events[|events| - 1].Clear? {
      HistoryIsModel(events[..|events| - 1]);
      hide Invariant, ListsPairsOf, InternedAll, IdsOf, Stored, WarmCache;
      assert Run(events) == Step(Run(events[..|events| - 1]), events[|events| - 1]);
    }
  }

  /** With nothing evicted since the last clear, the SQL store and the memory store give the same last values. */
  lemma LastValuesAgreeWithMemory(events: seq<Event>)
    requires WellFormed(events) && !EvictedSinceClear(events)
    ensures LastUnique(Run(events).db) == MemoryStore.LastOf(PlainList(events)).Values
  {
    SummariesAreLastOf(Run(events));
    HistoryIsModel(events);
    ModelIsPlainList(events);
  }

  /** The string was asked for by a transaction that committed, here or in another process. */
  ghost predicate Requested(events: seq<Event>, p: Pair) {
    exists e :: e in events && ((e.StoreBatch? && e.commits && p in e.pairs) || (e.ForeignIntern? && p in e.pairs))
  }

  /** The lookup table holds no string of a transaction that rolled back, nor any other nobody committed. */
  lemma {:induction false} OnlyCommittedStrings(events: seq<Event>, p: Pair)
    requires Has(Run(events).db.lookup, p)
    ensures Requested(events, p)
  {
    if events != [] {
      var (front, e) := (events[..|events| - 1], events[|events| - 1]);
      var t := Run(front).db.lookup;
      assert e in events && forall x :: x in front ==> x in events;
      assert Run(events) == Step(Run(front), e);
      hide Run, Invariant, InternedAll, IdsOf, WarmCache, Has, ListsPairsOf, FoldNewer;
      if Has(t, p) {
        OnlyCommittedStrings(front, p);
      } else {
        match e {
          case StoreBatch(batch, pairs, floor, commits, publishes) => InternedAllAddsOnly(t, pairs, floor, p);
          case ForeignIntern(pairs, floor) => InternedAllAddsOnly(t, pairs, floor, p);
          case _ =>
        }
      }
    }
  }
}
