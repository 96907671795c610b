/**
 When close() leaves no telegram behind: exactly when no begin_backup() holds the mutation lock at
 the moment it is called.
 */
module BufferClose {
  import opened Wrappers
  import opened DropOldest
  import opened BufferProtocol
  import opened BufferInvariant

  /** Nothing stops the call made by `c`: not cancelled, and no failure but of a batch for its data. */
  ghost predicate Unharmed(s: Sys, c: TaskId, e: Event) {
    && e != Cancel(c)
    && (e.Reply? && e.t == c ==>
          e.outcome.Done? || (e.outcome.DataError? && s.lock == Some(c) && InFlight(s) != []))
  }

  ghost predicate RunsThrough(s: Sys, c: TaskId, events: seq<Event>) {
    forall k :: 0 <= k < |events| ==> Unharmed(Run(s, events[..k]), c, events[k])
  }

  /** The call made by `c` is over after `events`, and nothing stopped it. */
  ghost predicate Returns(called: Sys, c: TaskId, events: seq<Event>) {
    RunsThrough(called, c, events) && c !in Run(called, events).tasks
  }

  /** Whatever else happens between the call and the return, the buffer ends empty. */
  ghost predicate CloseLeavesNothing(s: Sys, c: TaskId) {
    var called := Step(s, Call(c, Close(true)));
    forall events :: Returns(called, c, events) ==> Run(called, events).buffer == []
  }

  // ---- A quiet close ----

  /** The quiet close() of `c` goes on, or one has returned out of the backend's own close(). */
  ghost predicate UnderWay(s: Sys, c: TaskId) {
    s.closedQuietly || (c in s.tasks && QuietCloser(s.tasks[c]))
  }

  /** The task `t` went on or is over, and a quiet close() that is over has closed the backend. */
  ghost predicate OnlyMoved(s: Sys, r: Sys, t: TaskId) {
    && (s.closedQuietly ==> r.closedQuietly)
    && (r.tasks == s.tasks - {t}
        || (t in s.tasks && t in r.tasks && r.tasks == s.tasks[t := r.tasks[t]] && r.tasks[t].op == s.tasks[t].op))
  }

  /** Only its own last step takes a closer out of the tasks. */
  lemma MovedStaysUnderWay(s: Sys, r: Sys, t: TaskId, c: TaskId)
    requires UnderWay(s, c) && OnlyMoved(s, r, t) && (t == c ==> UnderWay(r, c))
    ensures UnderWay(r, c)
  {
  }

  lemma ReplyOnlyMoves(s: Sys, t: TaskId, outcome: Outcome)
    requires Safe(s) && t in s.tasks
    ensures OnlyMoved(s, ReplyStep(s, t, outcome), t) || ReplyStep(s, t, outcome) == s
  {
    TaskFacts(s, t);
    hide Safe, BatchReply, RowReply, MainReply;
    match s.tasks[t].phase {
      case BatchWrite(b) => BatchReplyOnlyMoves(s, t, b, outcome);
      case RowWrite(rest) =>
        if rest != [] {
          RowReplyOnlyMoves(s, t, rest, outcome);
        }
      case Main => MainReplyOnlyMoves(s, t, outcome);
      case _ =>
    }
  }

  lemma BatchReplyOnlyMoves(s: Sys, t: TaskId, batch: seq<Item>, outcome: Outcome)
    requires t in s.tasks
    ensures OnlyMoved(s, BatchReply(s, t, batch, outcome), t)
    ensures outcome.Done? || outcome.DataError? ==>
              (s.tasks[t].op.Close? ==> t in BatchReply(s, t, batch, outcome).tasks)
  {
    hide Recorded, Requeued;
  }

  lemma RowReplyOnlyMoves(s: Sys, t: TaskId, rest: seq<Item>, outcome: Outcome)
    requires t in s.tasks && rest != []
    ensures OnlyMoved(s, RowReply(s, t, rest, outcome), t)
    ensures outcome.Done? || outcome.DataError? ==>
              (s.tasks[t].op.Close? ==> t in RowReply(s, t, rest, outcome).tasks)
  {
    hide Recorded, Requeued;
  }

  lemma MainReplyOnlyMoves(s: Sys, t: TaskId, outcome: Outcome)
    requires t in s.tasks && s.tasks[t].phase.Main? && s.lock == Some(t)
    ensures var r := MainReply(s, t, outcome);
            OnlyMoved(s, r, t) && (outcome.Done? && QuietCloser(s.tasks[t]) ==> r.closedQuietly)
  {
    hide MainReply;
    MainReplyEffect(s, t, outcome);
  }

  /** An answer that does not stop the close() of `c` takes it on, in the end out of the backend's close(). */
  lemma AnswerStaysUnderWay(s: Sys, c: TaskId, outcome: Outcome)
    requires Safe(s) && UnderWay(s, c) && Unharmed(s, c, Reply(c, outcome))
    ensures UnderWay(ReplyStep(s, c, outcome), c)
  {
    if c in s.tasks {
      TaskFacts(s, c);
      ReplyOnlyMoves(s, c, outcome);
      hide Safe, BatchReply, RowReply, MainReply;
      match s.tasks[c].phase {
        case BatchWrite(b) => BatchReplyOnlyMoves(s, c, b, outcome);
        case RowWrite(rest) =>
          if rest != [] {
            RowReplyOnlyMoves(s, c, rest, outcome);
          }
        case Main => MainReplyOnlyMoves(s, c, outcome);
        case _ =>
      }
    }
  }

  lemma EnterOnlyMoves(s: Sys, t: TaskId)
    requires t in s.tasks
    ensures OnlyMoved(s, Enter(s, t), t) && (s.tasks[t].op.Close? ==> t in Enter(s, t).tasks)
  {
    hide Recorded;
  }

  lemma AdvanceStaysUnderWay(s: Sys, t: TaskId, c: TaskId)
    requires UnderWay(s, c)
    ensures UnderWay(AdvanceStep(s, t), c)
  {
    hide Enter;
    if t in s.tasks {
      EnterOnlyMoves(s.(lock := Some(t)), t);
      assert OnlyMoved(s, AdvanceStep(s, t), t) || AdvanceStep(s, t) == s;
    }
  }

  /** Whoever takes the next step: a quiet close() that is not stopped goes on. */
  lemma StepStaysUnderWay(s: Sys, e: Event, c: TaskId)
    requires Invariant(s) && UnderWay(s, c) && Unharmed(s, c, e)
    ensures UnderWay(Step(s, e), c)
  {
    assert Safe(s);
    hide Invariant, Safe, Recorded, Line, AdvanceStep, ReplyStep, InFlight, OnlyMoved;
    match e {
      case Advance(t) => AdvanceStaysUnderWay(s, t, c);
      case Reply(t, outcome) =>
        if t == c {
          AnswerStaysUnderWay(s, c, outcome);
        } else if t in s.tasks {
          ReplyOnlyMoves(s, t, outcome);
          if ReplyStep(s, t, outcome) != s {
            MovedStaysUnderWay(s, ReplyStep(s, t, outcome), t, c);
          }
        } else {
          NoTaskNoReply(s, t, outcome);
        }
      case _ =>
    }
  }

  lemma NoTaskNoReply(s: Sys, t: TaskId, outcome: Outcome)
    requires t !in s.tasks
    ensures ReplyStep(s, t, outcome) == s
  {
  }

  lemma RunsThroughPrefix(s: Sys, c: TaskId, events: seq<Event>, n: nat)
    requires RunsThrough(s, c, events) && n + 1 == |events|
    ensures RunsThrough(s, c, events[..n]) && Unharmed(Run(s, events[..n]), c, events[n])
  {
    hide Unharmed, Run;
    assert forall k :: 0 <= k < n ==> events[..n][..k] == events[..k];
  }

  lemma {:induction false} RunStaysUnderWay(s: Sys, events: seq<Event>, c: TaskId)
    requires Invariant(s) && UnderWay(s, c) && RunsThrough(s, c, events)
    ensures Invariant(Run(s, events)) && UnderWay(Run(s, events), c)
  {
    if events != [] {
      var n := |events| - 1;
      RunsThroughPrefix(s, c, events, n);
      hide UnderWay, Invariant, Step, Unharmed, RunsThrough;
      RunStaysUnderWay(s, events[..n], c);
      StepStaysUnderWay(Run(s, events[..n]), events[n], c);
      StepKeepsInvariant(Run(s, events[..n]), events[n]);
    }
  }

  // ---- A close() can always return ----

  predicate Closing(s: Sys, c: TaskId) {
    c in s.tasks && s.tasks[c].op.Close?
  }

  /** How far a close() is from its return: the stage it is in, what is left of it, and a gate in front of that. */
  function Stage(p: Phase): nat {
    if p.Ending? then 3 else if p.LockWait? then 2 else if p.Main? then 0 else 1
  }

  function Left(s: Sys, c: TaskId): nat
    requires c in s.tasks
  {
    if s.tasks[c].phase.LockWait? then if s.lock.Some? then 1 else 0 else |Detached(s.tasks[c].phase)|
  }

  function GateAhead(s: Sys, c: TaskId): nat
    requires c in s.tasks
  {
    if s.tasks[c].phase.LockWait? && s.lock.Some? && s.lock.value in s.tasks then AtGate(s.tasks[s.lock.value].phase)
    else AtGate(s.tasks[c].phase)
  }

  /** Events of the kind that let `c` go on. */
  predicate Smooth(events: seq<Event>, c: TaskId) {
    forall e :: e in events ==> e != Cancel(c) && (e.Reply? && e.t == c ==> e.outcome.Done?)
  }

  lemma SmoothRunsThrough(s: Sys, c: TaskId, events: seq<Event>)
    requires Smooth(events, c)
    ensures RunsThrough(s, c, events)
  {
  }

  /** The close() takes its own next step, or the one holding the lock gives it up. */
  function NextEvent(s: Sys, c: TaskId): Event
    requires c in s.tasks
  {
    var p := s.tasks[c].phase;
    if p.LockWait? && s.lock.Some? then
      var t := s.lock.value;
      if t in s.tasks && AtGate(s.tasks[t].phase) == 1 then Advance(t) else Reply(t, OtherError)
    else if p.LockWait? || AtGate(p) == 1 then Advance(c)
    else Reply(c, Done)
  }

  lemma GateMoves(s: Sys, t: TaskId)
    requires s.lock == Some(t) && t in s.tasks && AtGate(s.tasks[t].phase) == 1 && s.writesAllowed
    ensures var r := Step(s, Advance(t));
            && r == s.(tasks := s.tasks[t := r.tasks[t]]) && r.tasks[t].op == s.tasks[t].op && AtGate(r.tasks[t].phase) == 0
            && Stage(r.tasks[t].phase) == 1 && Detached(r.tasks[t].phase) == Detached(s.tasks[t].phase)
  {
    hide Enter;
  }

  /** A failure of the backend ends whatever waits for it inside the lock. */
  lemma FailureEnds(s: Sys, t: TaskId)
    requires s.lock == Some(t) && t in s.tasks && HoldsLock(s.tasks[t].phase) && AtGate(s.tasks[t].phase) == 0
    requires s.tasks[t].phase.RowWrite? ==> Detached(s.tasks[t].phase) != []
    ensures var r := Step(s, Reply(t, OtherError));
            r.lock.None? && r.tasks == s.tasks - {t}
  {
    assert MainReply(s, t, OtherError) == Finish(s, t) by { hide Finish; }
    hide BatchReply, RowReply, MainReply, InFlight;
    match s.tasks[t].phase {
      case BatchWrite(batch) => BatchFailureEnds(s, t, batch);
      case RowWrite(rest) => RowFailureEnds(s, t, rest);
      case _ =>
    }
  }

  lemma BatchFailureEnds(s: Sys, t: TaskId, batch: seq<Item>)
    requires s.lock == Some(t) && t in s.tasks
    ensures var r := BatchReply(s, t, batch, OtherError);
            r.lock.None? && r.tasks == s.tasks - {t}
  {
    hide Recorded, Requeued, CutOff;
  }

  lemma RowFailureEnds(s: Sys, t: TaskId, rest: seq<Item>)
    requires s.lock == Some(t) && t in s.tasks && rest != []
    ensures var r := RowReply(s, t, rest, OtherError);
            r.lock.None? && r.tasks == s.tasks - {t}
  {
    hide Recorded, Requeued, CutOff;
  }

  /** The holder of the lock goes to the backend, or fails there and is over. */
  lemma HolderMoves(s: Sys, t: TaskId, c: TaskId)
    requires s.lock == Some(t) && t in s.tasks && t != c && HoldsLock(s.tasks[t].phase) && c in s.tasks
    requires AtGate(s.tasks[t].phase) == 1 ==> s.writesAllowed
    requires s.tasks[t].phase.RowWrite? ==> Detached(s.tasks[t].phase) != []
    ensures var r := Step(s, if AtGate(s.tasks[t].phase) == 1 then Advance(t) else Reply(t, OtherError));
            && c in r.tasks && r.tasks[c] == s.tasks[c]
            && if AtGate(s.tasks[t].phase) == 1 then r.lock == s.lock && t in r.tasks && AtGate(r.tasks[t].phase) == 0
               else r.lock.None?
  {
    hide Step;
    if AtGate(s.tasks[t].phase) == 1 {
      GateMoves(s, t);
    } else {
      FailureEnds(s, t);
    }
  }

  /** `q` is nearer to the return than `p`. */
  predicate Nearer(q: Phase, p: Phase) {
    || Stage(q) < Stage(p)
    || (Stage(q) == Stage(p) == 1
        && (|Detached(q)| < |Detached(p)| || (Detached(q) == Detached(p) && AtGate(q) < AtGate(p))))
  }

  lemma EnterMoves(s: Sys, c: TaskId)
    requires Closing(s, c)
    ensures var r := Enter(s, c);
            c in r.tasks && r.tasks[c].op == s.tasks[c].op && Stage(r.tasks[c].phase) <= 1
  {
    hide Recorded;
  }

  lemma BackendMoves(s: Sys, c: TaskId)
    requires Closing(s, c) && (s.tasks[c].phase.BatchWrite? || (s.tasks[c].phase.RowWrite? && s.tasks[c].phase.rest != []))
    ensures var r := ReplyStep(s, c, Done);
            c in r.tasks && r.tasks[c].op == s.tasks[c].op && Nearer(r.tasks[c].phase, s.tasks[c].phase)
  {
    hide Recorded, Requeued;
  }

  lemma MainMoves(s: Sys, c: TaskId)
    requires Closing(s, c) && s.tasks[c].phase.Main?
    ensures c !in Step(s, Reply(c, Done)).tasks
  {
  }

  /** The close() itself comes nearer to its return, or returns. */
  lemma CloserMoves(s: Sys, c: TaskId)
    requires Closing(s, c) && TaskOk(s.tasks[c]) && (AtGate(s.tasks[c].phase) == 1 ==> s.writesAllowed && s.lock == Some(c))
    requires s.tasks[c].phase.LockWait? ==> s.lock.None?
    ensures var r := Step(s, NextEvent(s, c));
            c in r.tasks ==> r.tasks[c].op == s.tasks[c].op && Nearer(r.tasks[c].phase, s.tasks[c].phase)
  {
    if AtGate(s.tasks[c].phase) == 1 {
      hide Step;
      GateMoves(s, c);
    } else {
      match s.tasks[c].phase {
        case BatchWrite(_) => { hide ReplyStep; BackendMoves(s, c); }
        case RowWrite(_) => { hide ReplyStep; BackendMoves(s, c); }
        case Main => { hide Step; MainMoves(s, c); }
        case LockWait(_) => { hide Enter; EnterMoves(s.(lock := Some(c)), c); }
        case _ =>
      }
    }
  }

  lemma NextEventGoesOn(s: Sys, c: TaskId)
    requires Invariant(s) && Closing(s, c)
    ensures var r := Step(s, NextEvent(s, c));
            c in r.tasks ==>
              && Closing(r, c) && Stage(r.tasks[c].phase) <= Stage(s.tasks[c].phase)
              && (Stage(r.tasks[c].phase) == Stage(s.tasks[c].phase) ==>
                    Left(r, c) < Left(s, c) || (Left(r, c) == Left(s, c) && GateAhead(r, c) < GateAhead(s, c)))
  {
    TaskFacts(s, c);
    HolderExists(s);
    if s.tasks[c].phase.LockWait? && s.lock.Some? {
      TaskFacts(s, s.lock.value);
      assert s.lock.value != c;
      hide Invariant, Step;
      HolderMoves(s, s.lock.value, c);
    } else {
      hide Invariant, Step;
      CloserMoves(s, c);
    }
  }

  /** Wherever a close() has got to, among whatever other tasks: there is a way for it to return. */
  lemma {:induction false} CloseCanReturn(s: Sys, c: TaskId) returns (events: seq<Event>)
    requires Invariant(s) && Closing(s, c)
    ensures Smooth(events, c) && Returns(s, c, events)
    decreases Stage(s.tasks[c].phase), Left(s, c), GateAhead(s, c)
  {
    var e := NextEvent(s, c);
    var r := Step(s, e);
    NextEventGoesOn(s, c);
    StepKeepsInvariant(s, e);
    hide Invariant, Step, Unharmed;
    var rest := [];
    if c in r.tasks {
      rest := CloseCanReturn(r, c);
    }
    events := [e] + rest;
    RunOne(s, e);
    RunConcat(s, [e], rest);
    SmoothRunsThrough(s, c, events);
  }

  // ---- A close during begin_backup() ----

  /** A begin_backup() holding the lock of a closing store, closed by the waiting task `c`. */
  ghost predicate Overtaken(s: Sys, t: TaskId, c: TaskId) {
    && t != c && s.lock == Some(t) && t in s.tasks && s.tasks[t].op.BeginBackup? && HoldsLock(s.tasks[t].phase)
    && (Detached(s.tasks[t].phase) == [] ==> s.tasks[t].phase.Main?)
    && c in s.tasks && s.tasks[c] == Task(Close(false), LockWait(false))
    && s.closing && s.initialized && s.writesAllowed
  }

  function AtGate(p: Phase): nat {
    if p.BatchGate? || p.RowGate? then 1 else 0
  }

  function NextOf(p: Phase, t: TaskId): Event {
    if AtGate(p) == 1 then Advance(t) else Reply(t, Done)
  }

  /** One more step of the flush inside begin_backup(). */
  lemma FlushAdvances(s: Sys, t: TaskId, c: TaskId)
    requires Overtaken(s, t, c) && Detached(s.tasks[t].phase) != []
    ensures var r := Step(s, NextOf(s.tasks[t].phase, t));
            && Overtaken(r, t, c) && r.buffer == s.buffer
            && var (p, p') := (s.tasks[t].phase, r.tasks[t].phase);
            |Detached(p')| < |Detached(p)| || (|Detached(p')| == |Detached(p)| && AtGate(p') < AtGate(p))
  {
    hide Recorded, InFlight, Enter;
  }

  /** The flush inside begin_backup() can finish, which leaves the buffer as it is. */
  lemma {:induction false} BackupReachesItsCall(s: Sys, t: TaskId, c: TaskId) returns (events: seq<Event>)
    requires Overtaken(s, t, c)
    ensures var r := Run(s, events);
            Smooth(events, c) && Overtaken(r, t, c) && r.tasks[t].phase.Main? && r.buffer == s.buffer
    decreases |Detached(s.tasks[t].phase)|, AtGate(s.tasks[t].phase)
  {
    if Detached(s.tasks[t].phase) == [] {
      return [];
    }
    var e := NextOf(s.tasks[t].phase, t);
    FlushAdvances(s, t, c);
    hide Overtaken, Step;
    var rest := BackupReachesItsCall(Step(s, e), t, c);
    RunOne(s, e);
    RunConcat(s, [e], rest);
    events := [e] + rest;
  }

  /** The gate closes before close() gets the lock, so its last flush is skipped. */
  lemma GateClosesFirst(s: Sys, t: TaskId, c: TaskId)
    requires Overtaken(s, t, c) && s.tasks[t].phase.Main?
    ensures var r := Step(Step(s, Reply(t, Done)), Advance(c));
            c in r.tasks && r.tasks[c] == Task(Close(false), Main) && r.buffer == s.buffer
  {
    hide Recorded, InFlight;
    var r := Step(s, Reply(t, Done));
    assert r.tasks == s.tasks - {t} && r.lock.None? && !r.writesAllowed;
  }

  /** What is in the buffer when close() is called is still there when it has returned. */
  lemma OvertakenCloseKeepsBuffer(s: Sys, t: TaskId, c: TaskId) returns (events: seq<Event>)
    requires Overtaken(s, t, c)
    ensures Returns(s, c, events) && Run(s, events).buffer == s.buffer
  {
    var flush := BackupReachesItsCall(s, t, c);
    var r := Run(s, flush);
    GateClosesFirst(r, t, c);
    var u := Step(Step(r, Reply(t, Done)), Advance(c));
    assert c !in Step(u, Reply(c, Done)).tasks && Step(u, Reply(c, Done)).buffer == u.buffer by { hide Recorded, InFlight; }
    hide Step, Overtaken, Unharmed;
    RunOne(r, Reply(t, Done));
    RunConcat(s, flush, [Reply(t, Done)]);
    RunOne(Step(r, Reply(t, Done)), Advance(c));
    RunConcat(s, flush + [Reply(t, Done)], [Advance(c)]);
    var before := flush + [Reply(t, Done)] + [Advance(c)];
    RunOne(u, Reply(c, Done));
    RunConcat(s, before, [Reply(c, Done)]);
    events := before + [Reply(c, Done)];
    SmoothRunsThrough(s, c, events);
  }

  lemma CalledIsOvertaken(s: Sys, c: TaskId)
    requires Invariant(s) && s.initialized && c !in s.tasks && BackingUp(s)
    ensures var called := Step(s, Call(c, Close(true)));
            Overtaken(called, s.lock.value, c) && called.buffer == s.buffer
  {
    hide LedgerOk, Line, InFlight;
    var t := s.lock.value;
    assert HoldsLock(s.tasks[t].phase) && TaskOk(s.tasks[t]) && s.writesAllowed;
  }

  lemma CalledIsUnderWay(s: Sys, c: TaskId)
    requires Invariant(s) && c !in s.tasks
    ensures var called := Step(s, Call(c, Close(true)));
            Closing(called, c) && (!BackingUp(s) ==> UnderWay(called, c))
  {
    hide LedgerOk, Line, InFlight;
  }

  /**
   Of an initialised store with telegrams in its buffer, closing already or not: close() can return, and is sure to leave
   nothing behind if and only if no begin_backup() holds the mutation lock when it is called.
   */
  lemma CloseLeavesNothingIffNoBackupBegins(s: Sys, c: TaskId)
    requires Invariant(s) && s.initialized && c !in s.tasks && s.buffer != []
    ensures CloseLeavesNothing(s, c) <==> !BackingUp(s)
    ensures exists events :: Returns(Step(s, Call(c, Close(true))), c, events)
  {
    var called := Step(s, Call(c, Close(true)));
    QuietCloseLeavesNothing(s, c);
    if BackingUp(s) {
      CalledIsOvertaken(s, c);
      hide Step, Invariant, Returns, Overtaken;
      var events := OvertakenCloseKeepsBuffer(called, s.lock.value, c);
      assert Returns(called, c, events) && Run(called, events).buffer != [];
    }
  }

  /** Without a begin_backup() inside, over every interleaving, initialised or not. Returning is always possible. */
  lemma QuietCloseLeavesNothing(s: Sys, c: TaskId)
    requires Invariant(s) && c !in s.tasks
    ensures !BackingUp(s) ==> CloseLeavesNothing(s, c)
    ensures exists events :: Returns(Step(s, Call(c, Close(true))), c, events)
  {
    var called := Step(s, Call(c, Close(true)));
    CalledIsUnderWay(s, c);
    StepKeepsInvariant(s, Call(c, Close(true)));
    var way := CloseCanReturn(called, c);
    hide Step, Unharmed, BackingUp;
    if !BackingUp(s) {
      forall events | Returns(called, c, events)
        ensures Run(called, events).buffer == []
      {
        RunStaysUnderWay(called, events, c);
        assert Run(called, events).closedQuietly;
      }
    }
  }

  /** Such a state is reached by a begin_backup() and one store(): there close() may leave that telegram. */
  lemma CloseDuringBeginBackupLeavesTelegram(telegram: Telegram) returns (events: seq<Event>)
    ensures var s := Run(Init(1), events);
            s.initialized && !s.closing && s.buffer == [Item(0, telegram)] && 2 !in s.tasks && !CloseLeavesNothing(s, 2)
  {
    var s := BackupEntered(telegram);
    hide Step, Invariant, CloseLeavesNothing, Run;
    var (a, b, c) := ([Initialized], [Call(1, BeginBackup)], [Advance(1)]);
    events := a + b + c + [Store(telegram)];
    RunOne(Init(1), a[0]);
    RunConcat(Init(1), a, b);
    RunOne(Run(Init(1), a), b[0]);
    RunConcat(Init(1), a + b, c);
    RunOne(Run(Init(1), a + b), c[0]);
    RunConcat(Init(1), a + b + c, [Store(telegram)]);
    RunOne(Run(Init(1), a + b + c), Store(telegram));
    RunKeepsInvariant(1, events);
    CloseLeavesNothingIffNoBackupBegins(s, 2);
  }

  lemma BackupEntered(telegram: Telegram) returns (s: Sys)
    ensures s == Step(Step(Step(Step(Init(1), Initialized), Call(1, BeginBackup)), Advance(1)), Store(telegram))
    ensures s == Init(1).(initialized := true, accepted := 1, buffer := [Item(0, telegram)], lock := Some(1),
                          tasks := map[1 := Task(BeginBackup, Main)], drops := s.drops)
  {
    hide Recorded;
    s := Step(Step(Step(Init(1), Initialized), Call(1, BeginBackup)), Advance(1));
    assert s.tasks == map[1 := Task(BeginBackup, Main)];
    s := Step(s, Store(telegram));
  }
}
