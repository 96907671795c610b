/**
 The timezone pass of the UTC migration. A zone is the unknown function from naive wall-clock
 microseconds to a UTC offset in seconds (`_offset_at`, fold=0); nothing is known of it but that
 it moves on whole seconds and at most once between two full hours.
 */
module OffsetIntervals {
  import opened Wrappers
  import opened Calendar

  type Zone = Instant -> int

  function FloorSecond(t: Instant): Instant {
    t - t % SECOND
  }

  predicate FullHour(t: Instant) {
    t % HOUR == 0
  }

  function FloorHour(t: Instant): (f: Instant)
    ensures FullHour(f) && f <= t < f + HOUR
  {
    t - t % HOUR
  }

  ghost predicate ConstantOn(zone: Zone, low: Instant, high: Instant, offset: int) {
    forall t :: low <= t < high ==> zone(t) == offset
  }

  /** `b` is where the offset changes in (low, high]: one value before it, another from it on. */
  ghost predicate ChangesAt(zone: Zone, low: Instant, high: Instant, b: Instant) {
    && low < b <= high
    && ConstantOn(zone, low, b, zone(low))
    && ConstantOn(zone, b, high + 1, zone(high))
  }

  ghost predicate MovesOnSeconds(zone: Zone) {
    forall t :: zone(t) == zone(FloorSecond(t))
  }

  ghost predicate MovesAtMostOnceIn(zone: Zone, hour: Instant) {
    var next := hour + HOUR;
    exists b :: ChangesAt(zone, hour, next, b)
  }

  /** The two assumptions on a zone. */
  ghost predicate WellBehaved(zone: Zone) {
    MovesOnSeconds(zone) && forall hour :: FullHour(hour) ==> MovesAtMostOnceIn(zone, hour)
  }

  /** Python's `timedelta / 2`: the half in whole microseconds, a tie going to the even one. */
  function HalfToEven(gap: nat): (h: nat)
    ensures gap >= 2 ==> 0 < h < gap
  {
    var q := gap / 2;
    if gap % 2 == 0 || q % 2 == 0 then q else q + 1
  }

  /** Bisects to the first second in (before, after] that no longer has `offset`. */
  method TransitionBetween(before0: Instant, after0: Instant, zone: Zone, offset: int, ghost change: Instant)
      returns (boundary: Instant)
    requires MovesOnSeconds(zone) && ChangesAt(zone, before0, after0, change)
    requires zone(before0) == offset && zone(after0) != offset
    ensures boundary == change
    ensures boundary % SECOND == 0 && before0 < boundary <= after0
    ensures zone(boundary) != offset && ConstantOn(zone, before0, boundary, offset)
  {
    var before, after := before0, after0;
    while after - before > SECOND
      invariant before0 <= before < change <= after <= after0
      decreases after - before
    {
      var middle := before + HalfToEven(after - before);
      if zone(middle) == offset {
        before := middle;
      } else {
        after := middle;
      }
    }
    boundary := FloorSecond(after);
    ChangeIsWholeSecond(zone, before0, after0, change);
    SameSecond(change, after);
  }

  lemma ChangeIsWholeSecond(zone: Zone, low: Instant, high: Instant, b: Instant)
    requires MovesOnSeconds(zone) && ChangesAt(zone, low, high, b) && zone(low) != zone(high)
    ensures b % SECOND == 0
  {
    assert zone(b) == zone(FloorSecond(b)) && zone(low) == zone(FloorSecond(low));
    if b % SECOND != 0 && FloorSecond(b) < low {
      SameSecond(FloorSecond(b), low);
    }
  }

  lemma SameSecond(b: Instant, after: Instant)
    requires b % SECOND == 0 && b <= after < b + SECOND
    ensures FloorSecond(after) == b
  {
  }

  datatype Interval = Interval(start: Instant, end: Instant, offset: int)

  /** Finished pieces: contiguous between `start` and `end`, each one of constant offset. */
  ghost predicate Chain(zone: Zone, pieces: seq<Interval>, start: Instant, end: Instant) {
    && (if pieces == [] then start == end else pieces[0].start == start && pieces[|pieces| - 1].end == end)
    && (forall i :: 0 <= i < |pieces| ==> pieces[i].start < pieces[i].end)
    && (forall i :: 0 < i < |pieces| ==> pieces[i].start == pieces[i - 1].end)
    && (forall i :: 0 <= i < |pieces| ==> ConstantOn(zone, pieces[i].start, pieces[i].end, pieces[i].offset))
  }

  /** Each finished piece ends at a whole second from which another offset is in force. */
  ghost predicate RealBoundaries(zone: Zone, pieces: seq<Interval>) {
    forall i :: 0 <= i < |pieces| ==> pieces[i].end % SECOND == 0 && zone(pieces[i].end) != pieces[i].offset
  }

  /**
   What the walk promises: finished pieces from the full hour before `oldest`, then an open tail
   in force from the last boundary through `newest`.
   */
  ghost predicate Covers(zone: Zone, intervals: seq<Interval>, oldest: Instant, newest: Instant) {
    && intervals != []
    && var pieces, tail := intervals[..|intervals| - 1], intervals[|intervals| - 1];
    && Chain(zone, pieces, FloorHour(oldest), tail.start)
    && RealBoundaries(zone, pieces)
    && newest < tail.end
    && zone(tail.start) == tail.offset && ConstantOn(zone, tail.start, newest + 1, tail.offset)
  }

  /** Appending a piece that starts where the chain ends keeps both properties. */
  lemma ChainExtends(zone: Zone, pieces: seq<Interval>, start: Instant, piece: Interval)
    requires Chain(zone, pieces, start, piece.start) && RealBoundaries(zone, pieces)
    requires piece.start < piece.end && ConstantOn(zone, piece.start, piece.end, piece.offset)
    requires piece.end % SECOND == 0 && zone(piece.end) != piece.offset
    ensures Chain(zone, pieces + [piece], start, piece.end) && RealBoundaries(zone, pieces + [piece])
  {
    hide ConstantOn;
    var all := pieces + [piece];
    assert all[|all| - 1] == piece && forall i :: 0 <= i < |pieces| ==> all[i] == pieces[i];
  }

  /** Over an hour whose ends agree the offset stays what it was. */
  lemma StretchGoesOn(zone: Zone, start: Instant, previous: Instant, cursor: Instant, change: Instant)
    requires start <= previous && ChangesAt(zone, previous, cursor, change) && zone(previous) == zone(cursor)
    requires ConstantOn(zone, start, previous + 1, zone(previous))
    ensures ConstantOn(zone, start, cursor + 1, zone(cursor))
  {
  }

  /** Over an hour with a change one stretch ends there and the next begins. */
  lemma StretchEnds(zone: Zone, start: Instant, previous: Instant, cursor: Instant, change: Instant)
    requires start <= previous && ChangesAt(zone, previous, cursor, change)
    requires ConstantOn(zone, start, previous + 1, zone(previous))
    ensures ConstantOn(zone, start, change, zone(previous)) && start < change <= cursor
    ensures ConstantOn(zone, change, cursor + 1, zone(cursor)) && zone(change) == zone(cursor)
  {
  }

  /** Splits [oldest, newest] into stretches of constant offset. */
  method OffsetIntervals(oldest: Instant, newest: Instant, zone: Zone) returns (intervals: seq<Interval>)
    requires WellBehaved(zone) && oldest <= newest
    ensures Covers(zone, intervals, oldest, newest)
  {
    hide Chain, RealBoundaries, ConstantOn, ChangesAt, FullHour, FloorHour, MovesAtMostOnceIn;
    var cursor, end := FloorHour(oldest), newest + HOUR;
    var currentOffset: Option<int> := None;
    var start, previous := cursor, cursor;
    intervals := [];
    EmptyChain(zone, cursor);
    while cursor <= end
      invariant FullHour(cursor) && FullHour(previous)
      invariant currentOffset.None? ==> cursor == previous == start == FloorHour(oldest) <= end && intervals == []
      invariant currentOffset.Some? ==>
        && cursor == previous + HOUR && start <= previous <= end
        && zone(start) == zone(previous) == currentOffset.value && ConstantOn(zone, start, previous + 1, currentOffset.value)
      invariant Chain(zone, intervals, FloorHour(oldest), start) && RealBoundaries(zone, intervals)
      decreases end - cursor
    {
      var offset := zone(cursor);
      if currentOffset.None? {
        currentOffset, start := Some(offset), cursor;
        OneInstant(zone, cursor);
      } else {
        ghost var change := ChangeWithin(zone, previous);
        if offset != currentOffset.value {
          var boundary := TransitionBetween(previous, cursor, zone, currentOffset.value, change);
          StretchEnds(zone, start, previous, cursor, change);
          ChainExtends(zone, intervals, FloorHour(oldest), Interval(start, boundary, currentOffset.value));
          intervals := intervals + [Interval(start, boundary, currentOffset.value)];
          currentOffset, start := Some(offset), boundary;
        } else {
          StretchGoesOn(zone, start, previous, cursor, change);
        }
      }
      NextHour(cursor);
      previous := cursor;
      cursor := cursor + HOUR;
    }
    ghost var pieces := intervals;
    ShorterStretch(zone, start, previous + 1, newest + 1, currentOffset.value);
    intervals := intervals + [Interval(start, end + HOUR, currentOffset.value)];
    assert intervals[..|intervals| - 1] == pieces;
  }

  lemma NextHour(t: Instant)
    requires FullHour(t)
    ensures FullHour(t + HOUR)
  {
  }

  lemma ChangeWithin(zone: Zone, hour: Instant) returns (change: Instant)
    requires WellBehaved(zone) && FullHour(hour)
    ensures ChangesAt(zone, hour, hour + HOUR, change)
  {
    assert MovesAtMostOnceIn(zone, hour);
    change :| ChangesAt(zone, hour, hour + HOUR, change);
  }

  lemma OneInstant(zone: Zone, t: Instant)
    ensures ConstantOn(zone, t, t + 1, zone(t))
  {
  }

  lemma ShorterStretch(zone: Zone, start: Instant, end: Instant, sooner: Instant, offset: int)
    requires ConstantOn(zone, start, end, offset) && sooner <= end
    ensures ConstantOn(zone, start, sooner, offset)
  {
  }

  lemma EmptyChain(zone: Zone, start: Instant)
    ensures Chain(zone, [], start, start) && RealBoundaries(zone, [])
  {
  }
}
