/** What the backend holds, as plain lists folded over the answers it gave. */
module BufferRows {
  import opened Wrappers
  import opened Lists
  import opened DropOldest
  import opened BufferProtocol

  /** The backend has just done what the task `t` asked of it. */
  ghost predicate IsDone(s: Sys, e: Event) {
    e.Reply? && e.outcome.Done? && e.t in s.tasks
  }

  /** An operation other than a flush or a host's write, as far as it touches rows. */
  datatype RowChange = Nothing | Keep(cutoff: int) | Empty

  ghost function ChangeOf(task: Task): RowChange {
    if !task.phase.Main? then Nothing else
    match task.op
    case EvictOlderThan(cutoff, dryRun) => if dryRun then Nothing else RowChange.Keep(cutoff)
    case Clear => Empty
    case _ => Nothing
  }

  /** The rows the host wrote by store_many(), call by call, less what evictions and clears removed. */
  ghost function HostRows(start: Sys, events: seq<Event>): seq<Telegram> {
    if events == [] then start.direct else
    var (front, e) := (events[..|events| - 1], events[|events| - 1]);
    var (rows, s) := (HostRows(start, front), Run(start, front));
    if !IsDone(s, e) then rows
    else if s.tasks[e.t].phase.Main? && s.tasks[e.t].op.StoreMany? then rows + s.tasks[e.t].op.telegrams
    else
      match ChangeOf(s.tasks[e.t])
      case Nothing => rows
      case Keep(cutoff) => Filter(rows, (t: Telegram) => t.timestamp >= cutoff)
      case Empty => []
  }

  /** The rows that came through the buffer: each batch, each retried row, as the backend took it. */
  ghost function FlushedRows(start: Sys, events: seq<Event>): seq<Item> {
    if events == [] then start.persisted else
    var (front, e) := (events[..|events| - 1], events[|events| - 1]);
    var (rows, s) := (FlushedRows(start, front), Run(start, front));
    if !IsDone(s, e) then rows
    else if s.tasks[e.t].phase.BatchWrite? then rows + s.tasks[e.t].phase.batch
    else if s.tasks[e.t].phase.RowWrite? && s.tasks[e.t].phase.rest != [] then rows + [s.tasks[e.t].phase.rest[0]]
    else
      match ChangeOf(s.tasks[e.t])
      case Nothing => rows
      case Keep(cutoff) => Filter(rows, (x: Item) => x.telegram.timestamp >= cutoff)
      case Empty => []
  }

  // ---- One step ----

  lemma BatchRows(s: Sys, t: TaskId, batch: seq<Item>, outcome: Outcome)
    requires t in s.tasks
    ensures var r := BatchReply(s, t, batch, outcome);
            r.direct == s.direct && r.persisted == (if outcome.Done? then s.persisted + batch else s.persisted)
  {
    hide Recorded, Requeued, CutOff, NextRow, AfterFlush, Finish;
  }

  lemma RowRows(s: Sys, t: TaskId, rest: seq<Item>, outcome: Outcome)
    requires t in s.tasks && rest != []
    ensures var r := RowReply(s, t, rest, outcome);
            r.direct == s.direct && r.persisted == (if outcome.Done? then s.persisted + [rest[0]] else s.persisted)
  {
    hide Recorded, Requeued, CutOff, NextRow, AfterFlush, Finish;
  }

  lemma FailedReplyKeepsRows(s: Sys, t: TaskId, outcome: Outcome)
    requires t in s.tasks && !outcome.Done?
    ensures ReplyStep(s, t, outcome).direct == s.direct && ReplyStep(s, t, outcome).persisted == s.persisted
  {
    assert MainReply(s, t, outcome) == Finish(s, t) by { hide Finish; }
    hide BatchReply, RowReply, MainReply;
    match s.tasks[t].phase {
      case BatchWrite(batch) => BatchRows(s, t, batch, outcome);
      case RowWrite(rest) =>
        if rest != [] {
          RowRows(s, t, rest, outcome);
        }
      case _ =>
    }
  }

  lemma OtherStepsKeepRows(s: Sys, e: Event)
    requires !IsDone(s, e)
    ensures Step(s, e).direct == s.direct && Step(s, e).persisted == s.persisted
  {
    if e.Reply? && e.t in s.tasks {
      FailedReplyKeepsRows(s, e.t, e.outcome);
    }
    hide Recorded, StoreStep, CallStep, AdvanceStep, CancelStep, BatchReply, RowReply, MainReply;
  }

  lemma FlushKeepsHostRows(s: Sys, e: Event)
    requires IsDone(s, e) && !s.tasks[e.t].phase.Main?
    ensures Step(s, e).direct == s.direct
    ensures Step(s, e).persisted ==
      if s.tasks[e.t].phase.BatchWrite? then s.persisted + s.tasks[e.t].phase.batch
      else if s.tasks[e.t].phase.RowWrite? && s.tasks[e.t].phase.rest != [] then s.persisted + [s.tasks[e.t].phase.rest[0]]
      else s.persisted
  {
    hide BatchReply, RowReply, MainReply, Finish;
    match s.tasks[e.t].phase {
      case BatchWrite(batch) => BatchRows(s, e.t, batch, Done);
      case RowWrite(rest) =>
        if rest != [] {
          RowRows(s, e.t, rest, Done);
        }
      case _ =>
    }
  }

  lemma OwnCallChangesRows(s: Sys, e: Event)
    requires IsDone(s, e) && s.tasks[e.t].phase.Main?
    ensures var (r, change) := (Step(s, e), ChangeOf(s.tasks[e.t]));
            && r.direct == (if s.tasks[e.t].op.StoreMany? then s.direct + s.tasks[e.t].op.telegrams
                            else if change.Keep? then Recent(s.direct, change.cutoff)
                            else if change.Empty? then [] else s.direct)
            && r.persisted == (if change.Keep? then Since(s.persisted, change.cutoff)
                               else if change.Empty? then [] else s.persisted)
  {
    hide MainReply;
    assert Step(s, e) == MainReply(s, e.t, Done);
    hide Step;
    MainReplyRows(s, e.t);
  }

  lemma MainReplyRows(s: Sys, t: TaskId)
    requires t in s.tasks && s.tasks[t].phase.Main?
    ensures var (r, op, change) := (MainReply(s, t, Done), s.tasks[t].op, ChangeOf(s.tasks[t]));
            && r.direct == (if op.StoreMany? then s.direct + op.telegrams
                            else if change.Keep? then Recent(s.direct, change.cutoff)
                            else if change.Empty? then [] else s.direct)
            && r.persisted == (if change.Keep? then Since(s.persisted, change.cutoff)
                               else if change.Empty? then [] else s.persisted)
  {
    hide Recorded, Since, Recent, Older, Finish;
  }

  // ---- Every run ----

  /** Over every run the backend holds exactly those lists: a write answered Done is there, in order, and nothing else. */
  lemma {:induction false} BackendHoldsTheRows(start: Sys, events: seq<Event>)
    ensures Run(start, events).direct == HostRows(start, events)
    ensures Run(start, events).persisted == FlushedRows(start, events)
  {
    if events != [] {
      var (front, e) := (events[..|events| - 1], events[|events| - 1]);
      BackendHoldsTheRows(start, front);
      var s := Run(start, front);
      assert Run(start, events) == Step(s, e);
      hide Step, Run;
      if !IsDone(s, e) {
        OtherStepsKeepRows(s, e);
      } else if !s.tasks[e.t].phase.Main? {
        FlushKeepsHostRows(s, e);
      } else {
        OwnCallChangesRows(s, e);
        if ChangeOf(s.tasks[e.t]).Keep? {
          var cutoff := ChangeOf(s.tasks[e.t]).cutoff;
          FilterSame(s.direct, (t: Telegram) => t.timestamp >= cutoff, (t: Telegram) => t.timestamp >= cutoff);
          assert Recent(s.direct, cutoff) == Filter(s.direct, (t: Telegram) => t.timestamp >= cutoff);
          FilterSame(s.persisted, Young(cutoff), (x: Item) => x.telegram.timestamp >= cutoff);
        }
      }
    }
  }
}
