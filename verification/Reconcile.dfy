/**
 Repairing the last-value table after an upgrade: stale summaries go, missing ones are filled in
 from the telegrams, ties among the newest broken by the text of the columns.
 */
module Reconcile {
  import opened Wrappers
  import opened Decimal
  import opened Lists
  import opened Lookup
  import opened Ranking
  import opened SqlStore
  import opened Telegrams
  import SqlRuns

  datatype Summary = Summary(lastGa: map<nat, Row>, reconciled: bool)

  /** Some telegram of `d` is newer than `timestamp`. */
  predicate Newer(telegrams: seq<Row>, d: nat, timestamp: int) {
    exists i :: 0 <= i < |telegrams| && telegrams[i].destinationId == d && telegrams[i].timestamp > timestamp
  }

  predicate IsLatest(telegrams: seq<Row>, d: nat, r: Row) {
    r.destinationId == d && !Newer(telegrams, d, r.timestamp)
  }

  /** The candidates of one destination: its telegrams with the greatest timestamp. */
  function Latest(telegrams: seq<Row>, d: nat): seq<Row> {
    Filter(telegrams, (r: Row) => IsLatest(telegrams, d, r))
  }

  function Maybe(n: Option<int>): Option<string> {
    if n.Some? then Some(IntText(n.value)) else None
  }

  function MaybeId(n: Option<nat>): Option<string> {
    if n.Some? then Some(IntText(n.value)) else None
  }

  /** How CAST AS TEXT spells the columns that travel unchanged: the payload, and those behind the DPT columns. */
  datatype Casts = Casts(payload: int -> Option<string>, others: int -> seq<Option<string>>)

  /** The ranking columns as text, in table order. */
  function Columns(cast: Casts, r: Row): seq<Option<string>> {
    [Some(IntText(r.sourceId)), Some(IntText(r.telegramtypeId)), Some(IntText(r.directionId)),
     MaybeId(r.sourceNameId), MaybeId(r.destinationNameId), cast.payload(r.data), Maybe(r.dptMain), Maybe(r.dptSub)]
    + cast.others(r.data)
  }

  predicate Before(cast: Casts, a: Row, b: Row) {
    Lex(ColumnLess, Columns(cast, a), Columns(cast, b))
  }

  /** ROW_NUMBER() OVER (ORDER BY ...) = 1 */
  function First(cast: Casts, rows: seq<Row>): (r: Row)
    requires rows != []
    ensures r in rows
  {
    if |rows| == 1 then rows[0] else
    var best := First(cast, rows[..|rows| - 1]);
    if Before(cast, rows[|rows| - 1], best) then rows[|rows| - 1] else best
  }

  lemma BeforeIsStrict(cast: Casts, a: Row, b: Row, c: Row)
    ensures !Before(cast, a, a)
    ensures Before(cast, a, b) && Before(cast, b, c) ==> Before(cast, a, c)
    ensures Before(cast, a, b) || Before(cast, b, a) || Columns(cast, a) == Columns(cast, b)
  {
    ColumnLessIsStrictTotal();
    hide Columns, StrictTotal, Lex;
    LexIrreflexive(ColumnLess, Columns(cast, a));
    if Before(cast, a, b) && Before(cast, b, c) {
      LexTransitive(ColumnLess, Columns(cast, a), Columns(cast, b), Columns(cast, c));
    }
    LexTotal(ColumnLess, Columns(cast, a), Columns(cast, b));
  }

  /** Nothing is ranked before the first. */
  lemma {:induction false} FirstIsLeast(cast: Casts, rows: seq<Row>, r: Row)
    requires r in rows
    ensures !Before(cast, r, First(cast, rows))
  {
    hide Before;
    var (front, last) := (rows[..|rows| - 1], rows[|rows| - 1]);
    assert rows == front + [last];
    if front == [] {
      BeforeIsStrict(cast, r, r, r);
    } else {
      var best := First(cast, front);
      if r == last {
        BeforeIsStrict(cast, last, best, last);
      } else {
        FirstIsLeast(cast, front, r);
        BeforeIsStrict(cast, r, last, best);
      }
    }
  }

  // ---- The rank, column by column ----

  /** NULL first, then by text. */
  predicate IdAhead(a: Option<nat>, b: Option<nat>) {
    a.None? || (b.Some? && TextLess(IntText(a.value), IntText(b.value)))
  }

  predicate NumberAhead(a: Option<int>, b: Option<int>) {
    a.None? || (b.Some? && TextLess(IntText(a.value), IntText(b.value)))
  }

  predicate TextAhead(a: Option<string>, b: Option<string>) {
    a.None? || (b.Some? && TextLess(a.value, b.value))
  }

  /**
   `w` ranks ahead of `r` or alike: the first of source, telegram type, direction, the two names, payload,
   DPT numbers and the remaining columns in which they differ decides, the smaller text first and NULL
   before everything.
   */
  ghost predicate RanksAhead(cast: Casts, w: Row, r: Row) {
    if w.sourceId != r.sourceId then TextLess(IntText(w.sourceId), IntText(r.sourceId))
    else if w.telegramtypeId != r.telegramtypeId then TextLess(IntText(w.telegramtypeId), IntText(r.telegramtypeId))
    else if w.directionId != r.directionId then TextLess(IntText(w.directionId), IntText(r.directionId))
    else if w.sourceNameId != r.sourceNameId then IdAhead(w.sourceNameId, r.sourceNameId)
    else if w.destinationNameId != r.destinationNameId then IdAhead(w.destinationNameId, r.destinationNameId)
    else if cast.payload(w.data) != cast.payload(r.data) then TextAhead(cast.payload(w.data), cast.payload(r.data))
    else if w.dptMain != r.dptMain then NumberAhead(w.dptMain, r.dptMain)
    else if w.dptSub != r.dptSub then NumberAhead(w.dptSub, r.dptSub)
    else forall i :: FirstDifference(cast.others(w.data), cast.others(r.data), i) ==>
           TextAhead(cast.others(w.data)[i], cast.others(r.data)[i])
  }

  predicate FirstDifference(s: seq<Option<string>>, t: seq<Option<string>>, i: int) {
    0 <= i < |s| && i < |t| && s[i] != t[i] && forall k :: 0 <= k < i ==> s[k] == t[k]
  }

  /** What the lexicographic order of the column texts says about their first difference. */
  lemma DecidedAt(cast: Casts, w: Row, r: Row, i: nat)
    requires !Before(cast, r, w) && FirstDifference(Columns(cast, w), Columns(cast, r), i)
    ensures ColumnLess(Columns(cast, w)[i], Columns(cast, r)[i])
  {
    ColumnLessIsStrictTotal();
    hide Columns, ColumnLess;
    FirstDifferenceDecides(ColumnLess, Columns(cast, r), Columns(cast, w), i);
  }

  lemma NumbersApart(a: int, b: int)
    ensures a != b ==> IntText(a) != IntText(b)
  {
    if IntText(a) == IntText(b) {
      IntTextIsInjective(a, b);
    }
  }

  lemma IdsDecide(cast: Casts, w: Row, r: Row)
    requires !Before(cast, r, w)
    requires w.sourceId != r.sourceId || w.telegramtypeId != r.telegramtypeId || w.directionId != r.directionId
    ensures RanksAhead(cast, w, r)
  {
    hide Before, IntText, TextLess;
    var (x, y) := (Columns(cast, w), Columns(cast, r));
    NumbersApart(w.sourceId, r.sourceId);
    NumbersApart(w.telegramtypeId, r.telegramtypeId);
    NumbersApart(w.directionId, r.directionId);
    var i := if w.sourceId != r.sourceId then 0 else if w.telegramtypeId != r.telegramtypeId then 1 else 2;
    assert FirstDifference(x, y, i);
    DecidedAt(cast, w, r, i);
  }

  lemma NamesDecide(cast: Casts, w: Row, r: Row)
    requires !Before(cast, r, w)
    requires w.sourceId == r.sourceId && w.telegramtypeId == r.telegramtypeId && w.directionId == r.directionId
    requires w.sourceNameId != r.sourceNameId || w.destinationNameId != r.destinationNameId
             || cast.payload(w.data) != cast.payload(r.data)
    ensures RanksAhead(cast, w, r)
  {
    hide Before, IntText, TextLess;
    var (x, y) := (Columns(cast, w), Columns(cast, r));
    if w.sourceNameId.Some? && r.sourceNameId.Some? { NumbersApart(w.sourceNameId.value, r.sourceNameId.value); }
    if w.destinationNameId.Some? && r.destinationNameId.Some? {
      NumbersApart(w.destinationNameId.value, r.destinationNameId.value);
    }
    var i := if w.sourceNameId != r.sourceNameId then 3 else if w.destinationNameId != r.destinationNameId then 4 else 5;
    assert FirstDifference(x, y, i);
    DecidedAt(cast, w, r, i);
  }

  predicate AlikeUpToDpt(cast: Casts, w: Row, r: Row) {
    && w.sourceId == r.sourceId && w.telegramtypeId == r.telegramtypeId && w.directionId == r.directionId
    && w.sourceNameId == r.sourceNameId && w.destinationNameId == r.destinationNameId
    && cast.payload(w.data) == cast.payload(r.data)
  }

  lemma DptsDecide(cast: Casts, w: Row, r: Row)
    requires !Before(cast, r, w) && AlikeUpToDpt(cast, w, r) && (w.dptMain != r.dptMain || w.dptSub != r.dptSub)
    ensures RanksAhead(cast, w, r)
  {
    hide Before, IntText, TextLess;
    var (x, y) := (Columns(cast, w), Columns(cast, r));
    if w.dptMain.Some? && r.dptMain.Some? { NumbersApart(w.dptMain.value, r.dptMain.value); }
    if w.dptSub.Some? && r.dptSub.Some? { NumbersApart(w.dptSub.value, r.dptSub.value); }
    var i := if w.dptMain != r.dptMain then 6 else 7;
    assert FirstDifference(x, y, i);
    DecidedAt(cast, w, r, i);
  }

  lemma RestDecides(cast: Casts, w: Row, r: Row)
    requires !Before(cast, r, w) && AlikeUpToDpt(cast, w, r) && w.dptMain == r.dptMain && w.dptSub == r.dptSub
    ensures RanksAhead(cast, w, r)
  {
    hide Before, IntText, TextLess;
    var (x, y) := (Columns(cast, w), Columns(cast, r));
    var (s, t) := (cast.others(w.data), cast.others(r.data));
    assert x[..8] == y[..8] && x[8..] == s && y[8..] == t;
    hide Columns;
    forall i | FirstDifference(s, t, i)
      ensures TextAhead(s[i], t[i])
    {
      assert x[8 + i] == s[i] && y[8 + i] == t[i];
      forall k | 0 <= k < 8 + i
        ensures x[k] == y[k]
      {
        if k < 8 {
          assert x[..8][k] == y[..8][k];
        } else {
          assert x[k] == s[k - 8] && y[k] == t[k - 8];
        }
      }
      DecidedAt(cast, w, r, 8 + i);
    }
  }

  /** What is not ranked behind is ranked ahead, as the columns have it. */
  lemma NotBeforeRanksAhead(cast: Casts, w: Row, r: Row)
    requires !Before(cast, r, w)
    ensures RanksAhead(cast, w, r)
  {
    hide Before, RanksAhead;
    if w.sourceId != r.sourceId || w.telegramtypeId != r.telegramtypeId || w.directionId != r.directionId {
      IdsDecide(cast, w, r);
    } else if w.sourceNameId != r.sourceNameId || w.destinationNameId != r.destinationNameId
              || cast.payload(w.data) != cast.payload(r.data) {
      NamesDecide(cast, w, r);
    } else if w.dptMain != r.dptMain || w.dptSub != r.dptSub {
      DptsDecide(cast, w, r);
    } else {
      RestDecides(cast, w, r);
    }
  }

  ghost predicate Injective(cast: Casts) {
    forall a, b :: cast.payload(a) == cast.payload(b) && cast.others(a) == cast.others(b) ==> a == b
  }

  /** Rows of one destination and time that rank alike differ in nothing but what the casts do not tell apart. */
  lemma SameColumnsSameRow(cast: Casts, a: Row, b: Row)
    requires Columns(cast, a) == Columns(cast, b)
    requires a.timestamp == b.timestamp && a.destinationId == b.destinationId
    ensures a == b.(data := a.data)
    ensures cast.payload(a.data) == cast.payload(b.data) && cast.others(a.data) == cast.others(b.data)
    ensures Injective(cast) ==> a == b
  {
    var (x, y) := (Columns(cast, a), Columns(cast, b));
    assert x[0] == y[0] && x[1] == y[1] && x[2] == y[2] && x[3] == y[3];
    assert x[4] == y[4] && x[5] == y[5] && x[6] == y[6] && x[7] == y[7];
    assert cast.others(a.data) == x[8..] == y[8..] == cast.others(b.data);
    IntTextIsInjective(a.sourceId, b.sourceId);
    IntTextIsInjective(a.telegramtypeId, b.telegramtypeId);
    IntTextIsInjective(a.directionId, b.directionId);
    hide IntText, Columns;
    if a.sourceNameId.Some? { IntTextIsInjective(a.sourceNameId.value, b.sourceNameId.value); }
    if a.destinationNameId.Some? { IntTextIsInjective(a.destinationNameId.value, b.destinationNameId.value); }
    if a.dptMain.Some? { IntTextIsInjective(a.dptMain.value, b.dptMain.value); }
    if a.dptSub.Some? { IntTextIsInjective(a.dptSub.value, b.dptSub.value); }
  }

  predicate HasTelegram(telegrams: seq<Row>, d: nat) {
    exists i :: 0 <= i < |telegrams| && telegrams[i].destinationId == d
  }

  lemma {:induction false} LatestExists(telegrams: seq<Row>, d: nat)
    requires HasTelegram(telegrams, d)
    ensures Latest(telegrams, d) != []
  {
    var i := IndexOfLatest(telegrams, d);
    FilterMembers(telegrams, (r: Row) => IsLatest(telegrams, d, r), telegrams[i]);
  }

  lemma {:induction false} IndexOfLatest(telegrams: seq<Row>, d: nat) returns (i: nat)
    requires HasTelegram(telegrams, d)
    ensures i < |telegrams| && IsLatest(telegrams, d, telegrams[i])
  {
    var (front, last) := (telegrams[..|telegrams| - 1], telegrams[|telegrams| - 1]);
    if HasTelegram(front, d) {
      i := IndexOfLatest(front, d);
      assert forall k :: 0 <= k < |front| && front[k].destinationId == d ==> front[k].timestamp <= front[i].timestamp;
      if last.destinationId == d && last.timestamp > front[i].timestamp {
        i := |front|;
      }
    } else {
      i := |front|;
      assert forall k :: 0 <= k < |front| ==> front[k].destinationId != d;
    }
  }

  function Winner(cast: Casts, telegrams: seq<Row>, d: nat): Row
    requires HasTelegram(telegrams, d)
  {
    LatestExists(telegrams, d);
    First(cast, Latest(telegrams, d))
  }

  /** DELETE FROM last_ga_telegrams WHERE EXISTS (a newer telegram). */
  function Kept(telegrams: seq<Row>, lastGa: map<nat, Row>): map<nat, Row> {
    map d | d in lastGa && !Newer(telegrams, d, lastGa[d].timestamp) :: lastGa[d]
  }

  function Destinations(telegrams: seq<Row>): set<nat> {
    set r | r in telegrams :: r.destinationId
  }

  /** INSERT ... SELECT the ranked first ... ON CONFLICT DO NOTHING. */
  function Filled(cast: Casts, telegrams: seq<Row>, kept: map<nat, Row>): map<nat, Row> {
    kept + map d | d in Destinations(telegrams) && d !in kept && HasTelegram(telegrams, d) :: Winner(cast, telegrams, d)
  }

  function Reconciled(cast: Casts, telegrams: seq<Row>, s: Summary): Summary {
    if s.lastGa != map[] && s.reconciled then s
    else Summary(Filled(cast, telegrams, Kept(telegrams, s.lastGa)), true)
  }

  class LastGaTable {
    var telegrams: seq<Row>
    var lastGa: map<nat, Row>
    var reconciled: bool

    /** One transaction: the two statements and the flag are all kept, or none of them. */
    method Reconcile(cast: Casts, commits: bool)
      modifies this`lastGa, this`reconciled
      ensures Summary(lastGa, reconciled)
              == if commits then Reconciled(cast, telegrams, old(Summary(lastGa, reconciled)))
                 else old(Summary(lastGa, reconciled))
      ensures old(lastGa) != map[] && old(reconciled) ==> lastGa == old(lastGa) && reconciled
      ensures commits ==> reconciled
    {
      var count := |lastGa|;
      if count != 0 && reconciled {
        return;
      }
      var rows := lastGa;
      if count != 0 {
        rows := Kept(telegrams, rows);
      }
      assert rows == Kept(telegrams, lastGa);
      rows := Filled(cast, telegrams, rows);
      if commits {
        lastGa, reconciled := rows, true;
      }
    }
  }

  // ---- What it achieves ----

  /** Every destination that has telegrams has a summary, and none of them is newer. */
  ghost predicate UpToDate(telegrams: seq<Row>, lastGa: map<nat, Row>) {
    forall i :: 0 <= i < |telegrams| ==>
      telegrams[i].destinationId in lastGa
      && telegrams[i].timestamp <= lastGa[telegrams[i].destinationId].timestamp
  }

  lemma WinnerIsLatest(cast: Casts, telegrams: seq<Row>, d: nat)
    requires HasTelegram(telegrams, d)
    ensures Winner(cast, telegrams, d) in telegrams && IsLatest(telegrams, d, Winner(cast, telegrams, d))
  {
    LatestExists(telegrams, d);
    FilterMembers(telegrams, (r: Row) => IsLatest(telegrams, d, r), Winner(cast, telegrams, d));
  }

  /** From any unflagged or empty table at all. */
  lemma ReconcilingBringsUpToDate(cast: Casts, telegrams: seq<Row>, s: Summary)
    requires s.lastGa == map[] || !s.reconciled
    ensures var after := Reconciled(cast, telegrams, s);
            after.reconciled && UpToDate(telegrams, after.lastGa)
  {
    var kept := Kept(telegrams, s.lastGa);
    var after := Reconciled(cast, telegrams, s).lastGa;
    forall i | 0 <= i < |telegrams|
      ensures telegrams[i].destinationId in after
      ensures telegrams[i].timestamp <= after[telegrams[i].destinationId].timestamp
    {
      var d := telegrams[i].destinationId;
      assert telegrams[i] in telegrams && d in Destinations(telegrams) && HasTelegram(telegrams, d);
      if d in kept {
        assert !Newer(telegrams, d, kept[d].timestamp);
      } else {
        WinnerIsLatest(cast, telegrams, d);
        assert !Newer(telegrams, d, after[d].timestamp);
      }
    }
  }

  /**
   Which summary a destination ends up with: the old one when no telegram is newer, tied or not;
   else the telegram of its newest that the column texts rank first; and no other summaries appear.
   */
  lemma WhoWins(cast: Casts, telegrams: seq<Row>, s: Summary, d: nat)
    requires s.lastGa == map[] || !s.reconciled
    ensures var after := Reconciled(cast, telegrams, s).lastGa;
            && (d in s.lastGa && !Newer(telegrams, d, s.lastGa[d].timestamp) ==> d in after && after[d] == s.lastGa[d])
            && ((d !in s.lastGa || Newer(telegrams, d, s.lastGa[d].timestamp)) && HasTelegram(telegrams, d) ==>
                 && d in after && after[d] in telegrams && IsLatest(telegrams, d, after[d])
                 && forall r :: r in telegrams && IsLatest(telegrams, d, r) ==> RanksAhead(cast, after[d], r))
            && (d in after ==> d in s.lastGa || HasTelegram(telegrams, d))
  {
    var after := Reconciled(cast, telegrams, s).lastGa;
    if (d !in s.lastGa || Newer(telegrams, d, s.lastGa[d].timestamp)) && HasTelegram(telegrams, d) {
      WinnerIsLatest(cast, telegrams, d);
      var i :| 0 <= i < |telegrams| && telegrams[i].destinationId == d;
      assert telegrams[i] in telegrams && d in Destinations(telegrams);
      LatestExists(telegrams, d);
      hide Before, First, RanksAhead;
      forall r | r in telegrams && IsLatest(telegrams, d, r)
        ensures RanksAhead(cast, after[d], r)
      {
        FilterMembers(telegrams, (x: Row) => IsLatest(telegrams, d, x), r);
        FirstIsLeast(cast, Latest(telegrams, d), r);
        NotBeforeRanksAhead(cast, after[d], r);
      }
    }
  }

  ghost predicate SameRows(telegrams: seq<Row>, shuffled: seq<Row>) {
    forall r :: r in telegrams <==> r in shuffled
  }

  /** The rows may lie in the table in any order: the fallback shows the same texts in every column. */
  lemma WinnersRankAlike(cast: Casts, telegrams: seq<Row>, shuffled: seq<Row>, d: nat)
    requires HasTelegram(telegrams, d) && HasTelegram(shuffled, d) && SameRows(telegrams, shuffled)
    ensures var (a, b) := (Winner(cast, telegrams, d), Winner(cast, shuffled, d));
            && Columns(cast, a) == Columns(cast, b) && a == b.(data := a.data)
            && (Injective(cast) ==> a == b)
  {
    var (a, b) := (Winner(cast, telegrams, d), Winner(cast, shuffled, d));
    WinnerIsLatest(cast, telegrams, d);
    WinnerIsLatest(cast, shuffled, d);
    NewerIgnoresRowOrder(telegrams, shuffled, d, a.timestamp);
    NewerIgnoresRowOrder(telegrams, shuffled, d, b.timestamp);
    LatestExists(telegrams, d);
    LatestExists(shuffled, d);
    assert a.timestamp == b.timestamp by { NotNewer(telegrams, d, a, b); NotNewer(telegrams, d, b, a); }
    hide Before, First, Columns, Injective;
    FilterMembers(telegrams, (x: Row) => IsLatest(telegrams, d, x), b);
    FilterMembers(shuffled, (x: Row) => IsLatest(shuffled, d, x), a);
    FirstIsLeast(cast, Latest(telegrams, d), b);
    FirstIsLeast(cast, Latest(shuffled, d), a);
    BeforeIsStrict(cast, a, b, a);
    SameColumnsSameRow(cast, a, b);
  }

  /** Row order never matters. */
  ghost predicate OrderFree(cast: Casts) {
    forall telegrams, shuffled, d :: SameRows(telegrams, shuffled) && HasTelegram(telegrams, d) && HasTelegram(shuffled, d) ==>
      Winner(cast, telegrams, d) == Winner(cast, shuffled, d)
  }

  /** The fallback is the same row in every order of the table if and only if the casts tell different values apart. */
  lemma WinnerIgnoresRowOrderIff(cast: Casts)
    ensures OrderFree(cast) <==> Injective(cast)
  {
    hide Winner, Columns;
    if Injective(cast) {
      forall telegrams, shuffled, d | SameRows(telegrams, shuffled) && HasTelegram(telegrams, d) && HasTelegram(shuffled, d)
        ensures Winner(cast, telegrams, d) == Winner(cast, shuffled, d)
      {
        WinnersRankAlike(cast, telegrams, shuffled, d);
      }
    } else {
      var x, y :| cast.payload(x) == cast.payload(y) && cast.others(x) == cast.others(y) && x != y;
      TiedRowsKeepTableOrder(cast, x, y);
    }
  }

  /** Two telegrams that differ only in values of one text: whichever comes first in the table wins. */
  lemma TiedRowsKeepTableOrder(cast: Casts, x: int, y: int)
    requires cast.payload(x) == cast.payload(y) && cast.others(x) == cast.others(y) && x != y
    ensures !OrderFree(cast)
  {
    var (a, b) := (Row(0, 0, 0, 0, 0, None, None, None, None, x), Row(0, 0, 0, 0, 0, None, None, None, None, y));
    TiedWinner(cast, a, b);
    TiedWinner(cast, b, a);
    hide Winner, Columns;
    assert [a, b][0].destinationId == 0 && [b, a][0].destinationId == 0;
    assert SameRows([a, b], [b, a]) && HasTelegram([a, b], 0) && HasTelegram([b, a], 0);
    assert Winner(cast, [a, b], 0) != Winner(cast, [b, a], 0);
  }

  lemma TiedWinner(cast: Casts, a: Row, b: Row)
    requires Columns(cast, a) == Columns(cast, b) && a.timestamp == b.timestamp && a.destinationId == b.destinationId
    ensures HasTelegram([a, b], a.destinationId) && Winner(cast, [a, b], a.destinationId) == a
  {
    var (rows, d) := ([a, b], a.destinationId);
    assert rows[0].destinationId == d;
    BeforeIsStrict(cast, a, b, a);
    assert !Before(cast, b, a);
    hide Before, Columns;
    FilterAll(rows, (r: Row) => IsLatest(rows, d, r));
    assert Latest(rows, d) == rows && rows[..1] == [a];
  }

  lemma NotNewer(telegrams: seq<Row>, d: nat, a: Row, b: Row)
    requires IsLatest(telegrams, d, a) && b in telegrams && b.destinationId == d
    ensures b.timestamp <= a.timestamp
  {
  }

  lemma NewerIgnoresRowOrder(telegrams: seq<Row>, shuffled: seq<Row>, d: nat, timestamp: int)
    requires SameRows(telegrams, shuffled)
    ensures Newer(telegrams, d, timestamp) == Newer(shuffled, d, timestamp)
  {
    if Newer(telegrams, d, timestamp) {
      var i :| 0 <= i < |telegrams| && telegrams[i].destinationId == d && telegrams[i].timestamp > timestamp;
      assert telegrams[i] in shuffled;
    }
    if Newer(shuffled, d, timestamp) {
      var i :| 0 <= i < |shuffled| && shuffled[i].destinationId == d && shuffled[i].timestamp > timestamp;
      assert shuffled[i] in telegrams;
    }
  }

  /** On a table that is up to date the repair changes no summary, flagged or not. */
  lemma UpToDateStays(cast: Casts, telegrams: seq<Row>, s: Summary)
    requires UpToDate(telegrams, s.lastGa)
    ensures Reconciled(cast, telegrams, s).lastGa == s.lastGa
  {
    forall d | d in s.lastGa
      ensures !Newer(telegrams, d, s.lastGa[d].timestamp)
    {
    }
    assert Kept(telegrams, s.lastGa) == s.lastGa;
    forall d | d in Destinations(telegrams)
      ensures d in s.lastGa
    {
      var r :| r in telegrams && r.destinationId == d;
      var i :| 0 <= i < |telegrams| && telegrams[i] == r;
    }
  }

  /** Reconciling again changes nothing, even after the flag was lost. */
  lemma ReconcilingTwiceIsOnce(cast: Casts, telegrams: seq<Row>, s: Summary, flag: bool)
    requires s.lastGa == map[] || !s.reconciled
    ensures var once := Reconciled(cast, telegrams, s);
            Reconciled(cast, telegrams, once.(reconciled := flag)).lastGa == once.lastGa
            && Reconciled(cast, telegrams, once) == once
  {
    ReconcilingBringsUpToDate(cast, telegrams, s);
    hide UpToDate, Filled, Kept;
    var once := Reconciled(cast, telegrams, s);
    UpToDateStays(cast, telegrams, once.(reconciled := flag));
    UpToDateStays(cast, telegrams, once);
  }

  // ---- And it stays so ----

  lemma {:induction false} UpsertsStayUpToDate(telegrams: seq<Row>, lastGa: map<nat, Row>, rows: seq<Row>)
    requires UpToDate(telegrams, lastGa)
    ensures UpToDate(telegrams + rows, FoldNewer(lastGa, rows))
  {
    if rows == [] {
      assert telegrams + rows == telegrams;
    } else {
      var (front, r) := (rows[..|rows| - 1], rows[|rows| - 1]);
      UpsertsStayUpToDate(telegrams, lastGa, front);
      var (before, all) := (telegrams + front, telegrams + rows);
      assert all == before + [r];
      OneUpsertStaysUpToDate(before, FoldNewer(lastGa, front), r);
    }
  }

  lemma OneUpsertStaysUpToDate(telegrams: seq<Row>, lastGa: map<nat, Row>, r: Row)
    requires UpToDate(telegrams, lastGa)
    ensures UpToDate(telegrams + [r], NewerRow(lastGa, r))
  {
    var (all, after) := (telegrams + [r], NewerRow(lastGa, r));
    forall i | 0 <= i < |all|
      ensures all[i].destinationId in after && all[i].timestamp <= after[all[i].destinationId].timestamp
    {
      if i < |telegrams| {
        assert all[i] == telegrams[i];
      }
    }
  }

  lemma EvictionStaysUpToDate(telegrams: seq<Row>, lastGa: map<nat, Row>, keep: Row -> bool)
    requires UpToDate(telegrams, lastGa)
    ensures UpToDate(Filter(telegrams, keep), lastGa)
  {
    var kept := Filter(telegrams, keep);
    forall i | 0 <= i < |kept|
      ensures kept[i].destinationId in lastGa && kept[i].timestamp <= lastGa[kept[i].destinationId].timestamp
    {
      FilterMembers(telegrams, keep, kept[i]);
      var k :| 0 <= k < |telegrams| && telegrams[k] == kept[i];
    }
  }

  /** Every database this version has written is up to date, whatever was stored, evicted or cleared. */
  lemma {:induction false} RunsAreUpToDate(events: seq<SqlRuns.Event>)
    ensures UpToDate(SqlRuns.Run(events).db.telegrams, SqlRuns.Run(events).db.lastGa)
  {
    if events != [] {
      var (front, e) := (events[..|events| - 1], events[|events| - 1]);
      RunsAreUpToDate(front);
      var db := SqlRuns.Run(front).db;
      assert SqlRuns.Run(events) == SqlRuns.Step(SqlRuns.Run(front), e);
      hide SqlRuns.Run, SqlRuns.Invariant, SqlRuns.WarmCache, UpToDate, ListsPairsOf;
      match e {
        case StoreBatch(batch, pairs, floor, commits, publishes) =>
          if commits && batch != [] && ListsPairsOf(pairs, batch) {
            UpsertsStayUpToDate(db.telegrams, db.lastGa, Written(db, batch, pairs, floor));
          }
        case Evict(cutoff) => EvictionStaysUpToDate(db.telegrams, db.lastGa, (r: Row) => r.timestamp >= cutoff);
        case Clear => NothingIsUpToDate();
        case _ =>
      }
    }
  }

  lemma NothingIsUpToDate()
    ensures UpToDate([], map[])
  {
  }

  /** The rows a committed batch adds. */
  ghost function Written(db: Db, batch: seq<Telegram>, pairs: seq<Pair>, floor: nat): (rows: seq<Row>)
    requires Unique(db.lookup) && batch != []
    ensures Stored(db, batch, pairs, floor).telegrams == db.telegrams + rows
    ensures Stored(db, batch, pairs, floor).lastGa == FoldNewer(db.lastGa, rows)
  {
    InternedAllKeeps(db.lookup, pairs, floor);
    Apply(Encoder(IdsOf(InternedAll(db.lookup, pairs, floor), pairs)), batch)
  }

  /** So the repair at a later start leaves their last values alone, flagged or not. */
  lemma StartLeavesOwnLastValues(cast: Casts, events: seq<SqlRuns.Event>, flag: bool)
    ensures var db := SqlRuns.Run(events).db;
            Reconciled(cast, db.telegrams, Summary(db.lastGa, flag)).lastGa == db.lastGa
  {
    RunsAreUpToDate(events);
    UpToDateStays(cast, SqlRuns.Run(events).db.telegrams, Summary(SqlRuns.Run(events).db.lastGa, flag));
  }
}
