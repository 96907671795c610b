/** Telegrams and queries, shared by the memory store and the SQL store. */
module Telegrams {
  import opened Wrappers

  /** Payload, value, raw data and the secure flag travel unchanged; `data` stands for all of them. */
  datatype Telegram = Telegram(
    timestamp: int, source: string, destination: string, telegramtype: string, direction: string,
    sourceName: string, destinationName: string, dptMain: Option<int>, dptSub: Option<int>, data: int)

  /** Times are microseconds, the deltas of the context window milliseconds. */
  datatype Query = Query(
    sources: seq<string>, destinations: seq<string>, telegramTypes: seq<string>, directions: seq<string>,
    dptMains: seq<int>, dpts: seq<(int, Option<int>)>,
    startTime: Option<int>, endTime: Option<int>,
    deltaBeforeMs: int, deltaAfterMs: int,
    limit: nat, offset: nat, orderDescending: bool)

  datatype QueryResult = QueryResult(telegrams: seq<Telegram>, totalCount: nat, limitReached: bool)

  function TimeOf(t: Telegram): int {
    t.timestamp
  }

  /** One telegram against the filters: AND across categories, OR within, an empty list passes. */
  predicate Matches(q: Query, t: Telegram) {
    && (q.sources != [] ==> t.source in q.sources)
    && (q.destinations != [] ==> t.destination in q.destinations)
    && (q.telegramTypes != [] ==> t.telegramtype in q.telegramTypes)
    && (q.directions != [] ==> t.direction in q.directions)
    && (q.dptMains != [] || q.dpts != [] ==> DptMatch(q, t.dptMain, t.dptSub))
    && (q.startTime.Some? ==> t.timestamp >= q.startTime.value)
    && (q.endTime.Some? ==> t.timestamp <= q.endTime.value)
  }

  predicate DptMatch(q: Query, main: Option<int>, sub: Option<int>) {
    || (main.Some? && main.value in q.dptMains)
    || exists i :: 0 <= i < |q.dpts| && main == Some(q.dpts[i].0) && (q.dpts[i].1.None? || q.dpts[i].1 == sub)
  }

  predicate HasWindow(q: Query) {
    q.deltaBeforeMs > 0 || q.deltaAfterMs > 0
  }

  /** `t` lies within the deltas around the pivot time. */
  predicate Near(q: Query, t: int, pivot: int) {
    pivot - q.deltaBeforeMs * 1000 <= t <= pivot + q.deltaAfterMs * 1000
  }
}
