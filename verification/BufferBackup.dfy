/**
 When a backup holds off writes until its own end_backup(): exactly when no end_backup() of an
 earlier backup is still being answered.
 */
module BufferBackup {
  import opened Wrappers
  import opened DropOldest
  import opened BufferProtocol
  import opened BufferInvariant
  import opened RowIds

  /** A call that changes or rewrites the backend is being made. */
  predicate AtBackend(task: Task) {
    || task.phase.BatchWrite? || task.phase.RowWrite?
    || (task.phase.Main? && (task.op.StoreMany? || task.op.Optimize? || task.op.EvictOlderThan? || task.op.Clear?))
  }

  /** An `end_backup` of the backend is being answered: the only thing that reopens the gate. */
  predicate EndsBackup(s: Sys, e: Event) {
    e.Reply? && e.t in s.tasks && s.tasks[e.t].phase.Ending?
  }

  lemma OnlyClosersBehindClosedGate(s: Sys, t: TaskId)
    requires Invariant(s) && !s.writesAllowed && t in s.tasks
    ensures HoldsLock(s.tasks[t].phase) ==> s.tasks[t].op.Close? && s.tasks[t].phase.Main?
  {
  }

  lemma ClosedGateHolds(s: Sys, e: Event)
    requires Invariant(s) && !s.writesAllowed
    ensures forall t :: t in s.tasks ==> !AtBackend(s.tasks[t])
    ensures Step(s, e).persisted == s.persisted && Step(s, e).direct == s.direct
    ensures Step(s, e).writesAllowed ==> EndsBackup(s, e)
  {
    hide Invariant, StoreStep, CallStep, AdvanceStep, CancelStep, BatchReply, RowReply;
    forall t | t in s.tasks
      ensures !AtBackend(s.tasks[t])
    {
      OnlyClosersBehindClosedGate(s, t);
    }
    if e.Reply? && e.t in s.tasks {
      OnlyClosersBehindClosedGate(s, e.t);
    }
  }

  ghost predicate WritesHeldOff(s: Sys) {
    forall t :: t in s.tasks ==> !AtBackend(s.tasks[t])
  }

  /** Some end_backup() has been called and its backend part is not answered yet. */
  ghost predicate SomebodyEnding(s: Sys) {
    exists t :: t in s.tasks && s.tasks[t].phase.Ending?
  }

  /** Nobody calls end_backup(), or close(), which calls it. */
  ghost predicate NoNewEnd(events: seq<Event>) {
    forall e :: e in events && e.Call? ==> !e.op.EndBackup? && !e.op.Close?
  }

  /** Whatever the tasks do, those queued before included, no write reaches the backend before a new end_backup(). */
  ghost predicate KeepsWritesOff(s: Sys) {
    forall events :: NoNewEnd(events) ==>
      WritesHeldOff(Run(s, events)) && Run(s, events).persisted == s.persisted && Run(s, events).direct == s.direct
  }

  // ---- Nobody ending ----

  lemma AdvanceStartsNoEnding(s: Sys, t: TaskId)
    requires Invariant(s) && !SomebodyEnding(s)
    ensures !SomebodyEnding(AdvanceStep(s, t))
  {
    if t in s.tasks {
      TaskFacts(s, t);
      hide Invariant, Enter;
      if s.tasks[t].phase.LockWait? && s.lock.None? {
        EnterShape(s.(lock := Some(t)), t);
      }
    }
  }

  lemma ReplyStartsNoEnding(s: Sys, t: TaskId, outcome: Outcome)
    requires Invariant(s) && !s.writesAllowed && !SomebodyEnding(s)
    ensures !SomebodyEnding(ReplyStep(s, t, outcome))
  {
    if t in s.tasks {
      OnlyClosersBehindClosedGate(s, t);
      TaskFacts(s, t);
      hide Invariant, BatchReply, RowReply, MainReply;
      if s.tasks[t].phase.Main? {
        MainReplyEffect(s, t, outcome);
      }
    }
  }

  lemma NobodyStartsEnding(s: Sys, e: Event)
    requires Invariant(s) && !s.writesAllowed && !SomebodyEnding(s)
    requires e.Call? ==> !e.op.EndBackup? && !e.op.Close?
    ensures !SomebodyEnding(Step(s, e))
  {
    hide Invariant, AdvanceStep, ReplyStep, StoreStep;
    match e {
      case Advance(t) => AdvanceStartsNoEnding(s, t);
      case Reply(t, outcome) => ReplyStartsNoEnding(s, t, outcome);
      case _ =>
    }
  }

  /**
   From a completed begin_backup() on, and until an end_backup(), no flush, store_many, eviction,
   clear or optimize is at the backend and its rows stay what they were, whatever was already
   queued for the lock.
   */
  lemma {:induction false} BackupHoldsOffWrites(s: Sys, events: seq<Event>)
    requires Invariant(s) && !s.writesAllowed && !SomebodyEnding(s) && NoNewEnd(events)
    ensures var r := Run(s, events);
            && Invariant(r) && !r.writesAllowed && !SomebodyEnding(r) && WritesHeldOff(r)
            && r.persisted == s.persisted && r.direct == s.direct
  {
    hide Step, Invariant;
    if events == [] {
      ClosedGateHolds(s, Initialized);
    } else {
      var (before, e) := (events[..|events| - 1], events[|events| - 1]);
      assert e in events && forall x :: x in before ==> x in events;
      BackupHoldsOffWrites(s, before);
      var u := Run(s, before);
      ClosedGateHolds(u, e);
      StepKeepsInvariant(u, e);
      NobodyStartsEnding(u, e);
      assert !EndsBackup(u, e);
      ClosedGateHolds(Step(u, e), Initialized);
    }
  }

  // ---- Somebody still ending ----

  lemma RunThree(s: Sys, e0: Event, e1: Event, e2: Event)
    ensures Run(s, [e0, e1, e2]) == Step(Step(Step(s, e0), e1), e2)
  {
    hide Step;
    var all := [e0, e1, e2];
    assert all[..0] == [] && all[..1][..0] == all[..0] && all[..2][..1] == all[..1];
    assert Run(s, all[..1]) == Step(s, e0);
    assert Run(s, all[..2]) == Step(Run(s, all[..1]), e1);
  }

  lemma NobodyInside(s: Sys)
    requires Invariant(s) && !s.writesAllowed && !s.closing
    ensures s.lock.None?
  {
  }

  /** A store_many() that waits for the gate, and the earlier end_backup() whose answer opens it. */
  ghost predicate AboutToOpen(s: Sys, t: TaskId, u: TaskId) {
    && t != u && t in s.tasks && s.tasks[t] == Task(EndBackup, Ending)
    && u in s.tasks && s.tasks[u] == Task(StoreMany([]), GateWait)
    && s.lock.None? && !s.closing
  }

  lemma GateOpensTooEarly(s: Sys, t: TaskId, u: TaskId, outcome: Outcome)
    requires AboutToOpen(s, t, u)
    ensures var r := Step(Step(Step(s, Reply(t, outcome)), Advance(u)), Advance(u));
            u in r.tasks && r.tasks[u] == Task(StoreMany([]), Main)
  {
    var s1 := Step(s, Reply(t, outcome));
    assert s1.writesAllowed && s1.lock.None? && !s1.closing && u in s1.tasks && s1.tasks[u] == s.tasks[u];
    var s2 := Step(s1, Advance(u));
    assert s2 == s1.(tasks := s1.tasks[u := Task(StoreMany([]), LockWait(true))]);
  }

  lemma NoEndAmong(t: TaskId, u: TaskId, outcome: Outcome)
    ensures NoNewEnd([Call(u, StoreMany([]))] + [Reply(t, outcome), Advance(u), Advance(u)])
  {
  }

  lemma CallWaits(s: Sys, t: TaskId, u: TaskId)
    requires Invariant(s) && !s.writesAllowed && !s.closing && t in s.tasks && s.tasks[t].phase.Ending? && u !in s.tasks
    ensures AboutToOpen(Step(s, Call(u, StoreMany([]))), t, u)
  {
    NobodyInside(s);
    TaskFacts(s, t);
    hide Invariant;
  }

  /** The answer to an earlier end_backup() lets a write in, however that call ends. */
  lemma EarlierEndLetsWritesIn(s: Sys, t: TaskId, outcome: Outcome) returns (events: seq<Event>)
    requires Invariant(s) && !s.writesAllowed && !s.closing && t in s.tasks && s.tasks[t].phase.Ending?
    ensures NoNewEnd(events) && !WritesHeldOff(Run(s, events))
  {
    var u := MaxOf(s.tasks.Keys) + 1;
    assert u !in s.tasks;
    var called := Step(s, Call(u, StoreMany([])));
    hide Step, Invariant, AboutToOpen, NoNewEnd;
    CallWaits(s, t, u);
    GateOpensTooEarly(called, t, u, outcome);
    var rest := [Reply(t, outcome), Advance(u), Advance(u)];
    RunThree(called, rest[0], rest[1], rest[2]);
    events := [Call(u, StoreMany([]))] + rest;
    RunOne(s, Call(u, StoreMany([])));
    RunConcat(s, [Call(u, StoreMany([]))], rest);
    NoEndAmong(t, u, outcome);
    assert AtBackend(Run(s, events).tasks[u]);
  }

  /**
   Behind the closed gate of a store that is not closing: writes are held off until a new
   end_backup() if and only if no earlier end_backup() is still being answered.
   */
  lemma BackupHoldsIffNobodyIsEnding(s: Sys)
    requires Invariant(s) && !s.writesAllowed && !s.closing
    ensures KeepsWritesOff(s) <==> !SomebodyEnding(s)
  {
    hide Step, Invariant, Run, AtBackend;
    if SomebodyEnding(s) {
      var t :| t in s.tasks && s.tasks[t].phase.Ending?;
      var events := EarlierEndLetsWritesIn(s, t, Done);
    } else {
      forall events | NoNewEnd(events)
        ensures WritesHeldOff(Run(s, events)) && Run(s, events).persisted == s.persisted && Run(s, events).direct == s.direct
      {
        BackupHoldsOffWrites(s, events);
      }
    }
  }

  // ---- Two end_backup() calls for one backup ----

  /**
   Such a state is reached: the gate is tested before end_backup() awaits the backend and opened after
   it, so of two overlapping calls the first to return lets the next backup complete, and the second
   then opens the gate on that backup.
   */
  lemma OverlappingEndsOpenTheNextBackup() returns (events: seq<Event>)
    ensures var s := Run(Init(1), events);
            && events != [] && events[|events| - 1] == Reply(4, Done)
            && var before := Run(Init(1), events[..|events| - 1]);
            && 4 in before.tasks && before.tasks[4] == Task(BeginBackup, Main)
            && !s.writesAllowed && !s.closing && !KeepsWritesOff(s)
  {
    var (a, b, c) := ([Call(1, BeginBackup), Advance(1), Reply(1, Done)],
                      [Call(2, EndBackup), Call(3, EndBackup), Reply(2, Done)],
                      [Call(4, BeginBackup), Advance(4), Reply(4, Done)]);
    var s1, s2, s3 := BackupAfterBackup();
    hide Step, Invariant, KeepsWritesOff;
    RunThree(Init(1), a[0], a[1], a[2]);
    RunThree(s1, b[0], b[1], b[2]);
    RunThree(s2, c[0], c[1], c[2]);
    RunConcat(Init(1), a, b);
    RunConcat(Init(1), a + b, c);
    events := a + b + c;
    RunKeepsInvariant(1, events);
    BackupHoldsIffNobodyIsEnding(s3);
    var front := a + b + [c[0], c[1]];
    assert events[..|events| - 1] == front;
    RunTwo(s2, c[0], c[1]);
    RunConcat(Init(1), a + b, [c[0], c[1]]);
  }

  lemma RunTwo(s: Sys, e0: Event, e1: Event)
    ensures Run(s, [e0, e1]) == Step(Step(s, e0), e1)
  {
    hide Step;
    RunOne(s, e0);
    RunOne(Step(s, e0), e1);
    RunConcat(s, [e0], [e1]);
    assert [e0] + [e1] == [e0, e1];
  }

  lemma BackupAfterBackup() returns (s1: Sys, s2: Sys, s3: Sys)
    ensures s1 == Step(Step(Step(Init(1), Call(1, BeginBackup)), Advance(1)), Reply(1, Done))
    ensures s2 == Step(Step(Step(s1, Call(2, EndBackup)), Call(3, EndBackup)), Reply(2, Done))
    ensures s3 == Step(Step(Step(s2, Call(4, BeginBackup)), Advance(4)), Reply(4, Done))
    ensures 4 in Step(Step(s2, Call(4, BeginBackup)), Advance(4)).tasks
    ensures Step(Step(s2, Call(4, BeginBackup)), Advance(4)).tasks[4] == Task(BeginBackup, Main)
    ensures !s3.writesAllowed && !s3.closing && 3 in s3.tasks && s3.tasks[3].phase.Ending?
  {
    s1 := OneBackup(Init(1), 1);
    s2 := Step(Step(Step(s1, Call(2, EndBackup)), Call(3, EndBackup)), Reply(2, Done));
    assert s2 == s1.(writesAllowed := true, tasks := map[3 := Task(EndBackup, Ending)]);
    s3 := OneBackup(s2, 4);
  }

  /** A begin_backup() that runs through with an empty buffer. */
  lemma OneBackup(s: Sys, t: TaskId) returns (r: Sys)
    requires s.lock.None? && !s.closing && s.writesAllowed && s.buffer == [] && t !in s.tasks
    ensures var inside := Step(Step(s, Call(t, BeginBackup)), Advance(t));
            && t in inside.tasks && inside.tasks[t] == Task(BeginBackup, Main) && r == Step(inside, Reply(t, Done))
    ensures r == s.(writesAllowed := false)
  {
    var called := Step(s, Call(t, BeginBackup));
    var inside := Step(called, Advance(t));
    assert inside == s.(lock := Some(t), tasks := s.tasks[t := Task(BeginBackup, Main)]);
    r := Step(inside, Reply(t, Done));
    assert r.tasks == s.tasks;
  }
}
