/**
 The one-time unwrapping of legacy {"value": ...} structures, raced by any number of starting
 processes: advisory lock, optimistic flag, table lock, second look at the flag, count, update, flag.
 */
module LegacyUnwrap {
  import opened Wrappers

  /** Wrapped is an object whose only key is "value"; every other JSON value is a leaf here. */
  datatype Json = Wrapped(inner: Json) | Leaf(id: int)

  /** The two JSON columns of a telegram row; NULL is None. */
  datatype Row = Row(value: Option<Json>, payload: Option<Json>)

  predicate IsWrapped(j: Option<Json>) {
    j.Some? && j.value.Wrapped?
  }

  /** CASE WHEN the column is wrapped THEN its inner value ELSE the column END */
  function UnwrapColumn(j: Option<Json>): Option<Json> {
    if IsWrapped(j) then Some(j.value.inner) else j
  }

  function UnwrapRow(r: Row): Row {
    Row(UnwrapColumn(r.value), UnwrapColumn(r.payload))
  }

  predicate NeedsUnwrap(r: Row) {
    IsWrapped(r.value) || IsWrapped(r.payload)
  }

  /** A stored row, what was originally written into it, and whether that was before the flag was set. */
  datatype Cell = Cell(row: Row, written: Row, legacy: bool)

  type Cells = map<nat, Cell>

  ghost function WrappedIds(rows: Cells): set<nat> {
    set id | id in rows && NeedsUnwrap(rows[id].row)
  }

  ghost function Updated(rows: Cells, touched: set<nat>): Cells {
    map id | id in rows :: if id in touched then rows[id].(row := UnwrapRow(rows[id].row)) else rows[id]
  }

  /** Where one process is inside its transaction. */
  datatype Phase = Idle | Started | Pending | Locked | Fresh | Counted(expected: nat) | Ready(touched: set<nat>) | Finished

  /** `passes` counts the committed unwrap passes. */
  datatype Sys = Sys(
    rows: Cells, flag: bool, passes: nat,
    advisory: Option<nat>, exclusive: Option<nat>, writers: set<nat>, phase: map<nat, Phase>)

  datatype Event =
    | TryAdvisory(p: nat)
    | ReadFlag(p: nat)
    | LockTable(p: nat)
    | RereadFlag(p: nat)
    | Count(p: nat)
    | Update(p: nat, touched: set<nat>)
    | Commit(p: nat)
    | Abort(p: nat)
    | BeginWrite(w: nat)
    | EndWrite(w: nat, inserts: map<nat, Row>, deletes: set<nat>, commits: bool)
    | EarlierVersion

  ghost function Init(rows: map<nat, Row>): Sys {
    Sys(map id | id in rows :: Cell(rows[id], rows[id], true), false, 0, None, None, {}, map[])
  }

  function PhaseOf(s: Sys, p: nat): Phase {
    if p in s.phase then s.phase[p] else Idle
  }

  function Goto(s: Sys, p: nat, phase: Phase): Sys {
    s.(phase := s.phase[p := phase])
  }

  /** The end of a transaction: its advisory lock and its table lock go with it. */
  function Released(s: Sys, p: nat): Sys {
    Goto(s, p, Idle).(advisory := if s.advisory == Some(p) then None else s.advisory,
                      exclusive := if s.exclusive == Some(p) then None else s.exclusive)
  }

  ghost function Step(s: Sys, e: Event): Sys {
    match e
    case TryAdvisory(p) =>
      if PhaseOf(s, p).Idle? && s.advisory.None? then Goto(s, p, Started).(advisory := Some(p)) else s
    case ReadFlag(p) =>
      if PhaseOf(s, p).Started? then Goto(s, p, if s.flag then Finished else Pending) else s
    case LockTable(p) =>
      if !PhaseOf(s, p).Pending? then s
      else if s.exclusive.None? && s.writers == {} then Goto(s, p, Locked).(exclusive := Some(p))
      else Released(s, p)
    case RereadFlag(p) =>
      if PhaseOf(s, p).Locked? then Goto(s, p, if s.flag then Finished else Fresh) else s
    case Count(p) =>
      if PhaseOf(s, p).Fresh? then Goto(s, p, Counted(|WrappedIds(s.rows)|)) else s
    case Update(p, touched) =>
      if !PhaseOf(s, p).Counted? || !(touched <= WrappedIds(s.rows)) then s
      else if PhaseOf(s, p).expected == 0 then Goto(s, p, Ready({}))
      else if |touched| == PhaseOf(s, p).expected then Goto(s, p, Ready(touched))
      else Released(s, p)
    case Commit(p) =>
      if PhaseOf(s, p).Finished? then Released(s, p)
      else if PhaseOf(s, p).Ready? then
        Released(s, p).(rows := Updated(s.rows, PhaseOf(s, p).touched), flag := true, passes := s.passes + 1)
      else s
    case Abort(p) =>
      if PhaseOf(s, p).Idle? then s else Released(s, p)
    case BeginWrite(w) =>
      if s.exclusive.None? then s.(writers := s.writers + {w}) else s
    case EndWrite(w, inserts, deletes, commits) =>
      if w !in s.writers then s
      else if !commits then s.(writers := s.writers - {w})
      else s.(writers := s.writers - {w}, rows := Written(s.rows, inserts, deletes, !s.flag))
    case EarlierVersion =>
      if s.exclusive.None? && !s.flag
      then s.(rows := Updated(s.rows, WrappedIds(s.rows)), flag := true, passes := s.passes + 1)
      else s
  }

  /** Deletions, then new rows under ids not in use. */
  ghost function Written(rows: Cells, inserts: map<nat, Row>, deletes: set<nat>, legacy: bool): Cells {
    var left := rows - deletes;
    left + map id | id in inserts && id !in left :: Cell(inserts[id], inserts[id], legacy)
  }

  ghost function Run(start: map<nat, Row>, events: seq<Event>): Sys {
    if events == [] then Init(start)
    else Step(Run(start, events[..|events| - 1]), events[|events| - 1])
  }

  // ---- The invariant ----

  /** Past the table lock and not yet done. */
  predicate HoldsTable(phase: Phase) {
    phase.Locked? || phase.Fresh? || phase.Counted? || phase.Ready?
  }

  ghost predicate Exclusion(s: Sys) {
    && (forall p: nat :: !PhaseOf(s, p).Idle? ==> s.advisory == Some(p))
    && (forall p: nat :: HoldsTable(PhaseOf(s, p)) ==> s.exclusive == Some(p))
    && (s.exclusive.Some? ==> s.writers == {} && !PhaseOf(s, s.exclusive.value).Idle?)
  }

  ghost predicate ProgressOk(s: Sys, phase: Phase) {
    match phase
    case Fresh => !s.flag
    case Counted(expected) => !s.flag && expected == |WrappedIds(s.rows)|
    case Ready(touched) => !s.flag && touched == WrappedIds(s.rows)
    case _ => true
  }

  /** A row written before the flag has lost its one level exactly when the flag is visible; later rows never do. */
  ghost predicate CellOk(flag: bool, c: Cell) {
    && c.row == (if flag && c.legacy then UnwrapRow(c.written) else c.written)
    && (!flag ==> c.legacy)
  }

  ghost predicate Invariant(s: Sys) {
    && Exclusion(s)
    && (forall p: nat :: ProgressOk(s, PhaseOf(s, p)))
    && (forall id :: id in s.rows ==> CellOk(s.flag, s.rows[id]))
    && s.passes == (if s.flag then 1 else 0)
  }

  lemma SubsetOfSameSize<T>(a: set<T>, b: set<T>)
    requires a <= b && |a| == |b|
    ensures a == b
  {
    assert b == a + (b - a);
  }

  /** With nothing wrapped left out, updating the touched rows is unwrapping every row. */
  lemma PassIsExact(rows: Cells, id: nat)
    requires id in rows
    ensures Updated(rows, WrappedIds(rows))[id] == rows[id].(row := UnwrapRow(rows[id].row))
  {
  }

  lemma PassKeepsCells(s: Sys)
    requires !s.flag && forall id :: id in s.rows ==> CellOk(false, s.rows[id])
    ensures forall id :: id in Updated(s.rows, WrappedIds(s.rows)) ==>
              CellOk(true, Updated(s.rows, WrappedIds(s.rows))[id])
  {
    forall id | id in s.rows
      ensures CellOk(true, Updated(s.rows, WrappedIds(s.rows))[id])
    {
      PassIsExact(s.rows, id);
    }
  }

  lemma PhaseAfterGoto(s: Sys, p: nat, phase: Phase, q: nat)
    ensures PhaseOf(Goto(s, p, phase), q) == if q == p then phase else PhaseOf(s, q)
  {
  }

  /** Moving on while holding what the new phase needs. */
  lemma GotoKeepsInvariant(s: Sys, p: nat, phase: Phase)
    requires Invariant(s) && !PhaseOf(s, p).Idle? && !phase.Idle?
    requires HoldsTable(phase) ==> s.exclusive == Some(p)
    requires ProgressOk(s, phase)
    ensures Invariant(Goto(s, p, phase))
  {
    var u := Goto(s, p, phase);
    forall q
      ensures PhaseOf(u, q) == if q == p then phase else PhaseOf(s, q)
      ensures ProgressOk(u, PhaseOf(u, q))
    {
      PhaseAfterGoto(s, p, phase, q);
      assert ProgressOk(s, PhaseOf(s, q));
    }
    hide ProgressOk, CellOk;
  }

  lemma ReleaseKeepsInvariant(s: Sys, p: nat)
    requires Invariant(s) && !PhaseOf(s, p).Idle?
    ensures Invariant(Released(s, p))
  {
    var u := Released(s, p);
    forall q
      ensures PhaseOf(u, q) == if q == p then Idle else PhaseOf(s, q)
      ensures ProgressOk(u, PhaseOf(u, q))
    {
      assert ProgressOk(s, PhaseOf(s, q));
    }
    hide ProgressOk, CellOk;
  }

  lemma StepKeepsInvariant(s: Sys, e: Event)
    requires Invariant(s)
    ensures Invariant(Step(s, e))
  {
    match e {
      case TryAdvisory(p) => AdvisoryKeepsInvariant(s, p);
      case ReadFlag(p) =>
        if PhaseOf(s, p).Started? {
          GotoKeepsInvariant(s, p, if s.flag then Finished else Pending);
        }
      case LockTable(p) => LockKeepsInvariant(s, p);
      case RereadFlag(p) =>
        if PhaseOf(s, p).Locked? {
          GotoKeepsInvariant(s, p, if s.flag then Finished else Fresh);
        }
      case Count(p) =>
        if PhaseOf(s, p).Fresh? {
          assert ProgressOk(s, PhaseOf(s, p));
          GotoKeepsInvariant(s, p, Counted(|WrappedIds(s.rows)|));
        }
      case Update(p, touched) => UpdateKeepsInvariant(s, p, touched);
      case Commit(p) =>
        if PhaseOf(s, p).Finished? {
          ReleaseKeepsInvariant(s, p);
        } else if PhaseOf(s, p).Ready? {
          CommitKeepsInvariant(s, p);
        }
      case Abort(p) =>
        if !PhaseOf(s, p).Idle? {
          ReleaseKeepsInvariant(s, p);
        }
      case BeginWrite(w) =>
        if s.exclusive.None? {
          WritersKeepInvariant(s, s.writers + {w});
        }
      case EndWrite(w, inserts, deletes, commits) => WriteKeepsInvariant(s, w, inserts, deletes, commits);
      case EarlierVersion => EarlierVersionKeepsInvariant(s);
    }
  }

  lemma AdvisoryKeepsInvariant(s: Sys, p: nat)
    requires Invariant(s)
    ensures Invariant(Step(s, TryAdvisory(p)))
  {
    var u := Step(s, TryAdvisory(p));
    if u != s {
      forall q
        ensures PhaseOf(u, q) == if q == p then Started else PhaseOf(s, q)
        ensures ProgressOk(u, PhaseOf(u, q))
      {
        assert ProgressOk(s, PhaseOf(s, q));
      }
      hide ProgressOk, CellOk;
    }
  }

  lemma LockKeepsInvariant(s: Sys, p: nat)
    requires Invariant(s)
    ensures Invariant(Step(s, LockTable(p)))
  {
    if PhaseOf(s, p).Pending? {
      if s.exclusive.None? && s.writers == {} {
        var u := Step(s, LockTable(p));
        forall q
          ensures PhaseOf(u, q) == if q == p then Locked else PhaseOf(s, q)
          ensures ProgressOk(u, PhaseOf(u, q))
        {
          assert ProgressOk(s, PhaseOf(s, q));
        }
        hide ProgressOk, CellOk;
      } else {
        ReleaseKeepsInvariant(s, p);
      }
    }
  }

  lemma UpdateKeepsInvariant(s: Sys, p: nat, touched: set<nat>)
    requires Invariant(s)
    ensures Invariant(Step(s, Update(p, touched)))
  {
    if PhaseOf(s, p).Counted? && touched <= WrappedIds(s.rows) {
      assert ProgressOk(s, PhaseOf(s, p));
      var expected := PhaseOf(s, p).expected;
      if expected == 0 {
        GotoKeepsInvariant(s, p, Ready({}));
      } else if |touched| == expected {
        SubsetOfSameSize(touched, WrappedIds(s.rows));
        GotoKeepsInvariant(s, p, Ready(touched));
      } else {
        ReleaseKeepsInvariant(s, p);
      }
    }
  }

  lemma CommitKeepsInvariant(s: Sys, p: nat)
    requires Invariant(s) && PhaseOf(s, p).Ready?
    ensures Invariant(Step(s, Commit(p)))
  {
    assert ProgressOk(s, PhaseOf(s, p));
    PassKeepsCells(s);
    ReleaseKeepsInvariant(s, p);
    var u := Step(s, Commit(p));
    forall q
      ensures PhaseOf(u, q) == if q == p then Idle else PhaseOf(s, q)
      ensures q != p ==> PhaseOf(s, q).Idle?
    {
    }
    hide CellOk, Updated;
  }

  lemma WritersKeepInvariant(s: Sys, writers: set<nat>)
    requires Invariant(s) && (s.exclusive.None? || writers == {})
    ensures Invariant(s.(writers := writers))
  {
    var u := s.(writers := writers);
    forall q
      ensures PhaseOf(u, q) == PhaseOf(s, q) && ProgressOk(u, PhaseOf(u, q))
    {
      assert ProgressOk(s, PhaseOf(s, q));
    }
    hide ProgressOk, CellOk;
  }

  lemma WriteKeepsInvariant(s: Sys, w: nat, inserts: map<nat, Row>, deletes: set<nat>, commits: bool)
    requires Invariant(s)
    ensures Invariant(Step(s, EndWrite(w, inserts, deletes, commits)))
  {
    if w in s.writers {
      assert s.exclusive.None?;
      if commits {
        var u := Step(s, EndWrite(w, inserts, deletes, commits));
        forall q
          ensures PhaseOf(u, q) == PhaseOf(s, q) && !HoldsTable(PhaseOf(s, q)) && ProgressOk(u, PhaseOf(u, q))
        {
        }
        assert forall id :: id in u.rows ==> CellOk(u.flag, u.rows[id]);
        hide ProgressOk, CellOk, Written;
      } else {
        WritersKeepInvariant(s, s.writers - {w});
      }
    }
  }

  lemma EarlierVersionKeepsInvariant(s: Sys)
    requires Invariant(s)
    ensures Invariant(Step(s, EarlierVersion))
  {
    if s.exclusive.None? && !s.flag {
      PassKeepsCells(s);
      var u := Step(s, EarlierVersion);
      forall q
        ensures PhaseOf(u, q) == PhaseOf(s, q) && ProgressOk(u, PhaseOf(u, q))
      {
      }
      hide ProgressOk, CellOk, Updated;
    }
  }

  lemma {:induction false} RunKeepsInvariant(start: map<nat, Row>, events: seq<Event>)
    ensures Invariant(Run(start, events))
  {
    if events != [] {
      RunKeepsInvariant(start, events[..|events| - 1]);
      hide Invariant, Step;
      StepKeepsInvariant(Run(start, events[..|events| - 1]), events[|events| - 1]);
    }
  }

  // ---- What every interleaving has ----

  /** At most one pass ever commits, and the flag is visible exactly when one has. */
  lemma AtMostOnePass(start: map<nat, Row>, events: seq<Event>)
    ensures Run(start, events).passes <= 1
    ensures Run(start, events).flag <==> Run(start, events).passes == 1
  {
    RunKeepsInvariant(start, events);
  }

  /** Levels of wrapping. */
  function Levels(j: Json): nat {
    match j
    case Wrapped(inner) => 1 + Levels(inner)
    case Leaf(_) => 0
  }

  function Core(j: Json): Json {
    match j
    case Wrapped(inner) => Core(inner)
    case Leaf(_) => j
  }

  /** How deep a column is wrapped, and around what. */
  function Shape(j: Option<Json>): (nat, Option<Json>) {
    if j.Some? then (Levels(j.value), Some(Core(j.value))) else (0, None)
  }

  function OneLess(shape: (nat, Option<Json>)): (nat, Option<Json>) {
    (if shape.0 == 0 then 0 else shape.0 - 1, shape.1)
  }

  /**
   Every row any reader can see: before the flag nothing has been unwrapped; with the flag every row
   written before it has lost exactly one level of each wrapped column, and no later row any.
   */
  lemma OneLevelExactly(start: map<nat, Row>, events: seq<Event>, id: nat)
    requires id in Run(start, events).rows
    ensures var (s, c) := (Run(start, events), Run(start, events).rows[id]);
            var loses := s.flag && c.legacy;
            && Shape(c.row.value) == (if loses then OneLess(Shape(c.written.value)) else Shape(c.written.value))
            && Shape(c.row.payload) == (if loses then OneLess(Shape(c.written.payload)) else Shape(c.written.payload))
            && c.row == (if loses then UnwrapRow(c.written) else c.written)
            && (!s.flag ==> c.legacy)
  {
    RunKeepsInvariant(start, events);
    hide Run;
    assert CellOk(Run(start, events).flag, Run(start, events).rows[id]);
  }

  /** A row written once the flag is visible is still as written, however many processes start later. */
  lemma {:induction false} LaterRowsAreNeverTouched(start: map<nat, Row>, events: seq<Event>, later: seq<Event>, id: nat)
    requires Run(start, events).flag && id in Run(start, events).rows
    requires forall e :: e in later ==> !e.EndWrite?
    ensures Run(start, events + later).flag
    ensures id in Run(start, events + later).rows && Run(start, events + later).rows[id] == Run(start, events).rows[id]
  {
    if later == [] {
      assert events + later == events;
    } else {
      var front := later[..|later| - 1];
      assert (events + later)[..|events + later| - 1] == events + front;
      assert later[|later| - 1] in later && forall e :: e in front ==> e in later;
      LaterRowsAreNeverTouched(start, events, front, id);
      RunKeepsInvariant(start, events + front);
      hide Run, Step, Invariant;
      OnlyWritersChangeFlaggedRows(Run(start, events + front), later[|later| - 1]);
      RunUnfolds(start, events + later);
    }
  }

  lemma RunUnfolds(start: map<nat, Row>, events: seq<Event>)
    requires events != []
    ensures Run(start, events) == Step(Run(start, events[..|events| - 1]), events[|events| - 1])
  {
  }

  lemma OnlyWritersChangeFlaggedRows(s: Sys, e: Event)
    requires Invariant(s) && s.flag && !e.EndWrite?
    ensures Step(s, e).flag && Step(s, e).rows == s.rows
  {
    if e.Commit? {
      assert ProgressOk(s, PhaseOf(s, e.p));
    }
    hide CellOk, Exclusion;
  }

  /** No process and no writer is ever between the table lock and the commit of another. */
  lemma TableIsHeldAlone(start: map<nat, Row>, events: seq<Event>, p: nat, q: nat)
    requires HoldsTable(PhaseOf(Run(start, events), p))
    ensures Run(start, events).writers == {}
    ensures p != q ==> PhaseOf(Run(start, events), q).Idle?
  {
    RunKeepsInvariant(start, events);
    hide Run;
  }

  // ---- One process, statement by statement ----

  datatype Outcome = Raised | Returned

  ghost function RunFrom(s: Sys, events: seq<Event>): Sys {
    if events == [] then s else Step(RunFrom(s, events[..|events| - 1]), events[|events| - 1])
  }

  lemma RunFromOneMore(s: Sys, events: seq<Event>, e: Event)
    ensures RunFrom(s, events + [e]) == Step(RunFrom(s, events), e)
  {
    assert (events + [e])[..|events|] == events;
  }

  /** The database as the statements of one connection find it. */
  class Backfill {
    var rows: Cells
    var flag: bool

    ghost predicate Finds(s: Sys)
      reads this
    {
      rows == s.rows && flag == s.flag
    }

    /**
     One call as process `p`. `others` is what everybody else does between the look at the flag and the
     attempt at the table lock, and `found` the database after it; `touched` is what the UPDATE reaches.
     The call is the run of `p` in the protocol, step by step.
     */
    method BackfillLegacyData(advisoryFree: bool, found: (Cells, bool), tableFree: bool, touched: set<nat>,
                              ghost start: Sys, ghost p: nat, ghost others: seq<Event>)
        returns (outcome: Outcome, ghost events: seq<Event>)
      requires Finds(start) && PhaseOf(start, p).Idle?
      requires advisoryFree == start.advisory.None?
      requires advisoryFree && !flag ==>
        var mid := Interfered(start, p, others);
        && PhaseOf(mid, p).Pending? && found == (mid.rows, mid.flag)
        && tableFree == (mid.exclusive.None? && mid.writers == {})
      requires touched <= WrappedIds(if flag then rows else found.0)
      modifies this
      ensures events == CallEvents(advisoryFree, old(flag), found.1, tableFree, touched,
                                   |touched| == |WrappedIds(found.0)|, p, others)
      ensures Finds(RunFrom(start, events)) && PhaseOf(RunFrom(start, events), p).Idle?
      ensures outcome == if advisoryFree && (old(flag) || (tableFree && (found.1 || |touched| == |WrappedIds(found.0)|)))
                         then Returned else Raised
      ensures advisoryFree && !old(flag) && tableFree && !found.1 && outcome.Returned? ==>
                flag && rows == Updated(found.0, WrappedIds(found.0))
    {
      events := [TryAdvisory(p)];
      RunFromOneMore(start, [], TryAdvisory(p));
      assert [] + [TryAdvisory(p)] == events;
      if !advisoryFree {
        return Raised, events;
      }
      RunFromOneMore(start, events, ReadFlag(p));
      events := events + [ReadFlag(p)];
      assert events == [TryAdvisory(p), ReadFlag(p)];
      var alreadyUnwrapped := flag;
      if !alreadyUnwrapped {
        rows, flag := found.0, found.1;
        events := events + others;
        RunFromOneMore(start, events, LockTable(p));
        events := events + [LockTable(p)];
        if !tableFree {
          return Raised, events;
        }
        alreadyUnwrapped := flag;
        RunFromOneMore(start, events, RereadFlag(p));
        events := events + [RereadFlag(p)];
      }
      if alreadyUnwrapped {
        RunFromOneMore(start, events, Commit(p));
        return Returned, events + [Commit(p)];
      }
      outcome, events := UpdateWrapped(touched, start, events, p);
      if outcome == Raised {
        return;
      }
      RunFromOneMore(start, events, Commit(p));
      flag := true;
      events := events + [Commit(p)];
    }

    /** SELECT count(*), the UPDATE when there is something to update, and the check of its row count. */
    method UpdateWrapped(touched: set<nat>, ghost start: Sys, ghost before: seq<Event>, ghost p: nat)
        returns (outcome: Outcome, ghost events: seq<Event>)
      requires touched <= WrappedIds(rows) && Finds(RunFrom(start, before)) && PhaseOf(RunFrom(start, before), p).Fresh?
      modifies this`rows
      ensures events == before + [Count(p)] + [Update(p, touched)]
      ensures outcome == Returned <==> |touched| == |WrappedIds(old(rows))|
      ensures rows == if outcome == Returned then Updated(old(rows), WrappedIds(old(rows))) else old(rows)
      ensures var s := RunFrom(start, events);
              if outcome == Returned
              then s == Goto(RunFrom(start, before), p, Ready(touched)) && touched == WrappedIds(old(rows))
              else s == Released(RunFrom(start, before), p)
    {
      events := before + [Count(p)] + [Update(p, touched)];
      RunFromOneMore(start, before, Count(p));
      RunFromOneMore(start, before + [Count(p)], Update(p, touched));
      CountAndUpdate(RunFrom(start, before), p, touched);
      var wrapped := set id | id in rows && NeedsUnwrap(rows[id].row);
      var expectedRows := |wrapped|;
      if expectedRows != 0 {
        if |touched| != expectedRows {
          return Raised, events;
        }
        SubsetOfSameSize(touched, wrapped);
        rows := map id | id in rows :: if id in touched then rows[id].(row := UnwrapRow(rows[id].row)) else rows[id];
      } else {
        assert touched == {};
        assert rows == Updated(rows, wrapped);
      }
      outcome := Returned;
    }
  }

  /** Everybody else's steps after `p` has looked at the flag. */
  ghost function Interfered(start: Sys, p: nat, others: seq<Event>): Sys {
    RunFrom(start, [TryAdvisory(p), ReadFlag(p)] + others)
  }

  /** The steps of one call, from what its statements find. */
  ghost function CallEvents(advisoryFree: bool, flagBefore: bool, flagAfter: bool, tableFree: bool,
                            touched: set<nat>, complete: bool, p: nat, others: seq<Event>): seq<Event> {
    if !advisoryFree then [TryAdvisory(p)]
    else if flagBefore then [TryAdvisory(p), ReadFlag(p)] + [Commit(p)]
    else
      var locked := [TryAdvisory(p), ReadFlag(p)] + others + [LockTable(p)];
      if !tableFree then locked
      else if flagAfter then locked + [RereadFlag(p)] + [Commit(p)]
      else
        var updated := locked + [RereadFlag(p)] + [Count(p)] + [Update(p, touched)];
        if complete then updated + [Commit(p)] else updated
  }

  lemma CountAndUpdate(s: Sys, p: nat, touched: set<nat>)
    requires PhaseOf(s, p).Fresh? && touched <= WrappedIds(s.rows)
    ensures var r := Step(Step(s, Count(p)), Update(p, touched));
            if |touched| == |WrappedIds(s.rows)| then r == Goto(s, p, Ready(touched)) && touched == WrappedIds(s.rows)
            else r == Released(s, p)
  {
    var counted := Step(s, Count(p));
    assert PhaseOf(counted, p) == Counted(|WrappedIds(s.rows)|) && counted.rows == s.rows;
    if |touched| == |WrappedIds(s.rows)| {
      SubsetOfSameSize(touched, WrappedIds(s.rows));
    }
    forall phase
      ensures Goto(counted, p, phase) == Goto(s, p, phase)
    {
      assert s.phase[p := Counted(|WrappedIds(s.rows)|)][p := phase] == s.phase[p := phase];
    }
  }
}
