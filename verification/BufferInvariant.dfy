/**
 What every step of the buffer protocol keeps: one task inside the lock, an open gate around it,
 closers that leave an empty buffer, and a ledger in which no ticket is lost or held twice.
 */
module BufferInvariant {
  import opened Wrappers
  import opened DropOldest
  import opened BufferProtocol

  // ---- The ledger ----

  /** Every ticket handed out is either in the line or recorded as dropped, and the line is in acceptance order. */
  ghost predicate Ledger(line: seq<Item>, drops: set<nat>, accepted: nat) {
    && Ordered(line)
    && Tickets(line) !! drops
    && Tickets(line) + drops == HandedOut(accepted)
  }

  function HandedOut(accepted: nat): (r: set<nat>)
    ensures forall n :: n in r <==> 0 <= n < accepted
  {
    if accepted == 0 then {} else HandedOut(accepted - 1) + {accepted - 1}
  }

  ghost predicate LedgerOk(s: Sys) {
    Ledger(Line(s), s.drops.Keys, s.accepted)
  }

  lemma LedgerIsOrdered(line: seq<Item>, drops: set<nat>, accepted: nat)
    requires Ledger(line, drops, accepted)
    ensures Ordered(line)
  {
  }

  lemma LossIsRecorded(line: seq<Item>, kept: seq<Item>, lost: seq<Item>, drops: set<nat>, accepted: nat)
    requires Ledger(line, drops, accepted) && Parts(line, kept, lost)
    ensures Ledger(kept, drops + Tickets(lost), accepted)
  {
    hide Ordered, Tickets;
  }

  /** Dropping exactly the recorded items keeps the ledger: nothing more may leave the line, and nothing less. */
  lemma RecordedKeepsLedger(s: Sys, after: Sys, lost: seq<Item>, reason: Reason)
    requires LedgerOk(s) && after.accepted == s.accepted && after.drops == s.drops && Parts(Line(s), Line(after), lost)
    ensures LedgerOk(Recorded(after, lost, reason))
  {
    hide Ordered, Tickets, Ledger, Line, Parts;
    var r := Recorded(after, lost, reason);
    assert r.drops.Keys == s.drops.Keys + Tickets(lost);
    LossIsRecorded(Line(s), Line(after), lost, s.drops.Keys, s.accepted);
    SameLine(after, r);
  }

  lemma SameLine(s: Sys, r: Sys)
    requires s.persisted == r.persisted && s.buffer == r.buffer && s.lock == r.lock && s.tasks == r.tasks
    ensures Line(s) == Line(r)
  {
  }

  lemma NewTicket(line: seq<Item>, item: Item, drops: set<nat>, accepted: nat)
    requires Ledger(line, drops, accepted) && item.ticket == accepted
    ensures Ledger(line + [item], drops, accepted + 1)
  {
    forall x | x in line
      ensures x.ticket < accepted
    {
      assert x.ticket in HandedOut(accepted);
    }
    OrderedConcat(line, [item]);
    OneTicket(item);
    TicketsConcat(line, [item]);
    assert HandedOut(accepted + 1) == HandedOut(accepted) + {accepted};
    assert accepted !in HandedOut(accepted);
  }

  lemma OneTicket(item: Item)
    ensures Tickets([item]) == {item.ticket}
  {
    assert item in [item];
  }

  /** A new telegram joins the line at its end; the oldest buffered one may leave it. */
  lemma StoreKeepsLedger(s: Sys, telegram: Telegram)
    requires LedgerOk(s) && s.limit >= 1 && !s.closing
    ensures LedgerOk(StoreStep(s, telegram))
  {
    var item := Item(s.accepted, telegram);
    var full := s.(buffer := s.buffer + [item], accepted := s.accepted + 1);
    var after := s.(buffer := Append(s.buffer, item, s.limit), accepted := s.accepted + 1);
    NewTicket(Line(s), item, s.drops.Keys, s.accepted);
    LedgerIsOrdered(Line(s) + [item], s.drops.Keys, s.accepted + 1);
    StoreLines(s, item, full, after);
    hide Ordered, Tickets, Ledger, Line, Append, Parts, Popped;
    RecordedKeepsLedger(full, after, Popped(s.buffer, s.limit), Overflow);
  }

  lemma StoreLines(s: Sys, item: Item, full: Sys, after: Sys)
    requires Ordered(Line(s) + [item]) && s.limit >= 1
    requires full == s.(buffer := s.buffer + [item], accepted := s.accepted + 1)
    requires after == s.(buffer := Append(s.buffer, item, s.limit), accepted := s.accepted + 1)
    ensures Line(full) == Line(s) + [item]
    ensures Parts(Line(full), Line(after), Popped(s.buffer, s.limit))
  {
    assert InFlight(full) == InFlight(s) == InFlight(after);
    PoppedAndAppended(s.buffer, item, s.limit);
    hide Ordered, InFlight, Parts, Append, Popped;
    var (front, end, out) := (s.persisted + InFlight(s), after.buffer, Popped(s.buffer, s.limit));
    Shift(front, s.buffer, [item]);
    Shift(front, out, end);
    RemoveMiddle(front, out, end);
  }

  lemma Shift(a: seq<Item>, b: seq<Item>, c: seq<Item>)
    ensures a + b + c == a + (b + c)
  {
  }

  // ---- Locks, gate and closing ----

  /** Operations that go through the write gate rather than straight to the lock. */
  predicate Gated(op: Op) {
    op.StoreMany? || op.Optimize? || op.EvictOlderThan? || op.Clear?
  }

  predicate TaskOk(task: Task) {
    match task.phase
    case GateWait => Gated(task.op)
    case LockWait(gated) => gated == Gated(task.op) && !task.op.EndBackup?
    case Main => !task.op.EndBackup? && !task.op.Flush?
    case Ending => task.op.EndBackup? || task.op.Close?
    case _ => Detached(task.phase) != [] && (task.op.Flush? || task.op.Optimize? || task.op.BeginBackup? || task.op.Close?)
  }

  /** The task that holds the lock is the only one inside, and the buffer is within its limit. */
  ghost predicate Exclusive(s: Sys) {
    && s.limit >= 1 && |s.buffer| <= s.limit
    && (s.lock.Some? ==> s.lock.value in s.tasks && HoldsLock(s.tasks[s.lock.value].phase))
    && (forall t :: t in s.tasks && HoldsLock(s.tasks[t].phase) ==> s.lock == Some(t))
    && (forall t :: t in s.tasks ==> TaskOk(s.tasks[t]))
  }

  /** A task inside, other than one closing the backend, is inside an open gate. */
  ghost predicate GateOpenInside(s: Sys) {
    forall t :: t in s.tasks && HoldsLock(s.tasks[t].phase) && !(s.tasks[t].op.Close? && s.tasks[t].phase.Main?)
      ==> s.writesAllowed
  }

  predicate BackingUp(s: Sys) {
    s.lock.Some? && s.lock.value in s.tasks && s.tasks[s.lock.value].op.BeginBackup?
  }

  predicate QuietCloser(task: Task) {
    task.op.Close? && task.op.quiet
  }

  ghost predicate Closers(s: Sys) {
    && (forall t :: t in s.tasks && s.tasks[t].op.Close? ==> s.closing)
    && (forall t :: t in s.tasks && QuietCloser(s.tasks[t]) ==>
          !BackingUp(s) && (s.tasks[t].phase.Ending? || s.writesAllowed))
    && (forall t :: t in s.tasks && s.tasks[t].op.Close? && HoldsLock(s.tasks[t].phase) ==>
          s.buffer == [] || (s.tasks[t].phase.Main? && !s.tasks[t].op.quiet))
    && (s.closedQuietly ==> s.closing && s.buffer == [] && InFlight(s) == [])
  }

  ghost predicate Safe(s: Sys) {
    Exclusive(s) && GateOpenInside(s) && Closers(s)
  }

  ghost predicate Invariant(s: Sys) {
    Safe(s) && LedgerOk(s)
  }

  /** One task is new or changes; what that may do to the shared fields. */
  lemma PutKeepsSafe(s: Sys, r: Sys, t: TaskId)
    requires Safe(s) && t in r.tasks && r.tasks == s.tasks[t := r.tasks[t]] && TaskOk(r.tasks[t])
    requires r.limit == s.limit && (r.buffer == s.buffer || r.buffer == [])
    requires (s.writesAllowed ==> r.writesAllowed) && (s.closing ==> r.closing) && r.closedQuietly == s.closedQuietly
    requires if HoldsLock(r.tasks[t].phase) then r.lock == Some(t) && s.lock in {None, Some(t)}
             else r.lock == if s.lock == Some(t) then None else s.lock
    requires HoldsLock(r.tasks[t].phase) && !(r.tasks[t].op.Close? && r.tasks[t].phase.Main?) ==> r.writesAllowed
    requires r.tasks[t].op.Close? ==> r.closing
    requires QuietCloser(r.tasks[t]) ==> !BackingUp(r) && (r.tasks[t].phase.Ending? || r.writesAllowed)
    requires BackingUp(r) && r.lock == Some(t) ==> !r.closing || (BackingUp(s) && s.lock == Some(t))
    requires r.tasks[t].op.Close? && HoldsLock(r.tasks[t].phase) ==>
               r.buffer == [] || (r.tasks[t].phase.Main? && !r.tasks[t].op.quiet)
    requires s.closedQuietly ==> Detached(r.tasks[t].phase) == []
    ensures Safe(r)
  {
  }

  /** One task is over; what that may do to the shared fields. */
  lemma RemoveKeepsSafe(s: Sys, r: Sys, t: TaskId)
    requires Safe(s) && t in s.tasks && r.tasks == s.tasks - {t}
    requires r.lock == if s.lock == Some(t) then None else s.lock
    requires r.limit == s.limit && |r.buffer| <= r.limit && r.closing == s.closing
    requires s.writesAllowed ==> r.writesAllowed || (BackingUp(s) && s.lock == Some(t))
    requires r.buffer == s.buffer || r.buffer == [] || (s.lock == Some(t) && !s.closedQuietly)
    requires r.closedQuietly ==> s.closedQuietly || (s.lock == Some(t) && s.closing && r.buffer == [])
    ensures Safe(r)
  {
  }

  lemma FinishKeepsSafe(s: Sys, t: TaskId)
    requires Safe(s) && t in s.tasks
    ensures Safe(Finish(s, t))
  {
    RemoveKeepsSafe(s, Finish(s, t), t);
  }

  lemma StoreKeepsSafe(s: Sys, telegram: Telegram)
    requires Safe(s)
    ensures Safe(StoreStep(s, telegram))
  {
  }

  /** A new task starts outside the lock. */
  lemma NewTaskKeepsSafe(s: Sys, t: TaskId, task: Task, closing: bool)
    requires Safe(s) && t !in s.tasks && TaskOk(task) && !HoldsLock(task.phase)
    requires (s.closing ==> closing) && (task.op.Close? ==> closing)
    requires QuietCloser(task) ==> !BackingUp(s) && (task.phase.Ending? || s.writesAllowed)
    ensures Safe(s.(closing := closing, tasks := s.tasks[t := task]))
  {
    var r := s.(closing := closing, tasks := s.tasks[t := task]);
    assert s.lock == Some(t) ==> t in s.tasks;
    assert InFlight(r) == InFlight(s) && BackingUp(r) == BackingUp(s);
  }

  lemma CallKeepsSafe(s: Sys, t: TaskId, op: Op)
    requires Safe(s)
    ensures Safe(CallStep(s, t, op))
  {
    hide Safe;
    if t !in s.tasks && !(op.EndBackup? && s.writesAllowed) {
      if op.Close? {
        var quiet, phase := !BackingUp(s), if s.writesAllowed then LockWait(false) else Ending;
        NewTaskKeepsSafe(s, t, Task(Close(quiet), phase), true);
      } else {
        var phase := if op.EndBackup? then Ending else if Gated(op) then GateWait else LockWait(false);
        NewTaskKeepsSafe(s, t, Task(op, phase), s.closing);
      }
    }
  }

  /** Control facts about one task, for use where the invariants themselves stay folded. */
  lemma TaskFacts(s: Sys, t: TaskId)
    requires Safe(s) && t in s.tasks
    ensures s.limit >= 1 && |s.buffer| <= s.limit && TaskOk(s.tasks[t])
    ensures HoldsLock(s.tasks[t].phase) <==> s.lock == Some(t)
    ensures HoldsLock(s.tasks[t].phase) && !(s.tasks[t].op.Close? && s.tasks[t].phase.Main?) ==> s.writesAllowed
    ensures s.tasks[t].op.Close? ==> s.closing
    ensures QuietCloser(s.tasks[t]) ==> !BackingUp(s) && (s.tasks[t].phase.Ending? || s.writesAllowed)
    ensures s.tasks[t].op.Close? && s.lock == Some(t) ==> s.buffer == [] || (s.tasks[t].phase.Main? && !s.tasks[t].op.quiet)
    ensures s.lock == Some(t) ==> InFlight(s) == Detached(s.tasks[t].phase)
    ensures s.closedQuietly ==> s.closing && s.buffer == [] && InFlight(s) == []
  {
  }

  /** On getting the lock: nobody else is inside, and only a closer may enter a closing store. */
  lemma EnterKeepsSafe(s: Sys, t: TaskId)
    requires Safe(s) && t in s.tasks && s.tasks[t].phase.LockWait? && s.lock.None?
    requires s.closing ==> s.tasks[t].op.Close?
    requires Gated(s.tasks[t].op) ==> s.writesAllowed
    ensures Safe(Enter(s.(lock := Some(t)), t))
  {
    TaskFacts(s, t);
    hide Safe, Enter, InFlight;
    var r := Enter(s.(lock := Some(t)), t);
    EnterShape(s.(lock := Some(t)), t);
    if t in r.tasks {
      PutKeepsSafe(s, r, t);
    } else {
      RemoveKeepsSafe(s, r, t);
    }
  }

  /** The task went on inside the lock, with what it detached or dropped gone from the buffer, or is over. */
  ghost predicate Entered(s: Sys, r: Sys, t: TaskId)
    requires t in s.tasks
  {
    if t !in r.tasks then r.tasks == s.tasks - {t} && r.lock.None? && r.buffer == s.buffer
    else
      && r.tasks == s.tasks[t := r.tasks[t]] && r.lock == Some(t) && r.tasks[t].op == s.tasks[t].op
      && TaskOk(r.tasks[t]) && HoldsLock(r.tasks[t].phase)
      && (r.buffer == s.buffer || r.buffer == [])
      && Detached(r.tasks[t].phase) == (if r.tasks[t].phase.Main? then [] else s.buffer)
      && (r.tasks[t].op.BeginBackup? || !r.tasks[t].phase.Main? ==> s.writesAllowed)
      && (r.tasks[t].op.Close? && s.writesAllowed ==> r.buffer == [])
  }

  lemma FlushShape(s: Sys, t: TaskId)
    requires t in s.tasks && s.lock == Some(t)
    requires s.tasks[t].op.Flush? || s.tasks[t].op.Optimize? || s.tasks[t].op.BeginBackup? || s.tasks[t].op.Close?
    requires s.tasks[t].op.BeginBackup? ==> s.writesAllowed
    ensures Entered(s, StartFlush(s, t), t)
  {
    if !s.writesAllowed || s.buffer == [] {
    } else {
    }
  }

  lemma MainShape(s: Sys, t: TaskId)
    requires t in s.tasks && s.lock == Some(t) && !s.tasks[t].op.BeginBackup? && TaskOk(s.tasks[t].(phase := Main))
    ensures var r := WithPhase(s, t, Main);
            Entered(s, r.(buffer := []), t) && (s.tasks[t].op.Close? || Entered(s, r, t))
  {
  }

  lemma DroppedShape(s: Sys, r: Sys, t: TaskId, reason: Reason)
    requires t in s.tasks && Entered(s, r.(buffer := []), t)
    ensures Entered(s, DropBuffer(r, reason), t)
  {
    hide Recorded;
  }

  lemma RefusedShape(s: Sys, t: TaskId)
    requires t in s.tasks && s.lock == Some(t)
    ensures Entered(s, Finish(s, t), t)
  {
  }

  lemma EnterShape(s: Sys, t: TaskId)
    requires t in s.tasks && s.tasks[t].phase.LockWait? && s.lock == Some(t) && TaskOk(s.tasks[t])
    ensures Entered(s, Enter(s, t), t)
  {
    var op := s.tasks[t].op;
    assert !op.EndBackup?;
    hide Entered, StartFlush, Finish, DropBuffer;
    match op {
      case Flush => FlushShape(s, t);
      case Optimize => FlushShape(s, t);
      case BeginBackup =>
        if s.writesAllowed {
          FlushShape(s, t);
        } else {
          RefusedShape(s, t);
        }
      case Clear =>
        MainShape(s, t);
        DroppedShape(s, WithPhase(s, t, Main), t, Cleared);
      case Close(_) =>
        if s.initialized {
          FlushShape(s, t);
        } else {
          MainShape(s, t);
          DroppedShape(s, WithPhase(s, t, Main), t, NeverInitialized);
        }
      case _ => MainShape(s, t);
    }
  }

  lemma AdvanceKeepsSafe(s: Sys, t: TaskId)
    requires Safe(s)
    ensures Safe(AdvanceStep(s, t))
  {
    if t in s.tasks {
      TaskFacts(s, t);
      hide Exclusive, GateOpenInside, Closers, Enter;
      var r := AdvanceStep(s, t);
      match s.tasks[t].phase {
        case LockWait(gated) =>
          if s.lock.Some? {
          } else if s.closing && !s.tasks[t].op.Close? {
            FinishKeepsSafe(s, t);
          } else if gated && !s.writesAllowed {
            PutKeepsSafe(s, r, t);
          } else {
            EnterKeepsSafe(s, t);
          }
        case GateWait =>
          PutKeepsSafe(s, r, t);
        case BatchGate(b) =>
          PutKeepsSafe(s, r, t);
        case RowGate(rest) =>
          PutKeepsSafe(s, r, t);
        case _ =>
      }
    }
  }

  /** The flush went through; `r` differs from `s` only in what was persisted or dropped. */
  lemma NextRowKeepsSafe(s: Sys, r: Sys, t: TaskId, rest: seq<Item>)
    requires Safe(s) && t in s.tasks && Detached(s.tasks[t].phase) != [] && r == s.(persisted := r.persisted, drops := r.drops)
    ensures Safe(NextRow(r, t, rest))
  {
    TaskFacts(s, t);
    hide Exclusive, GateOpenInside, Closers;
    var n := NextRow(r, t, rest);
    if t in n.tasks {
      PutKeepsSafe(s, n, t);
    } else {
      RemoveKeepsSafe(s, n, t);
    }
  }

  lemma RequeueKeepsSafe(s: Sys, t: TaskId, items: seq<Item>)
    requires Safe(s) && t in s.tasks && Detached(s.tasks[t].phase) != []
    ensures Safe(RequeueStep(s, t, items))
  {
    TaskFacts(s, t);
    hide Exclusive, GateOpenInside, Closers, Recorded, Line;
    RemoveKeepsSafe(s, RequeueStep(s, t, items), t);
  }

  lemma BatchReplyKeepsSafe(s: Sys, t: TaskId, batch: seq<Item>, outcome: Outcome)
    requires Safe(s) && t in s.tasks && s.tasks[t].phase == BatchWrite(batch)
    ensures Safe(BatchReply(s, t, batch, outcome))
  {
    TaskFacts(s, t);
    hide Safe, RequeueStep;
    match outcome {
      case Done => NextRowKeepsSafe(s, s.(persisted := s.persisted + batch), t, []);
      case DataError => NextRowKeepsSafe(s, s, t, batch);
      case _ => RequeueKeepsSafe(s, t, batch);
    }
  }

  lemma RowReplyKeepsSafe(s: Sys, t: TaskId, rest: seq<Item>, outcome: Outcome)
    requires Safe(s) && t in s.tasks && s.tasks[t].phase == RowWrite(rest) && rest != []
    ensures Safe(RowReply(s, t, rest, outcome))
  {
    hide Safe, RequeueStep, Recorded, Line;
    match outcome {
      case Done => NextRowKeepsSafe(s, s.(persisted := s.persisted + [rest[0]]), t, rest[1..]);
      case DataError =>
        var r := RowReply(s, t, rest, outcome);
        NextRowKeepsSafe(s, s.(drops := r.drops), t, rest[1..]);
      case _ => RequeueKeepsSafe(s, t, rest);
    }
  }

  lemma MainReplyEffect(s: Sys, t: TaskId, outcome: Outcome)
    requires t in s.tasks && s.tasks[t].phase.Main? && s.lock == Some(t)
    ensures var r := MainReply(s, t, outcome);
            && r.tasks == s.tasks - {t} && r.lock == None && r.limit == s.limit && r.closing == s.closing
            && |r.buffer| <= |s.buffer| && (s.writesAllowed && !s.tasks[t].op.BeginBackup? ==> r.writesAllowed)
            && (r.closedQuietly ==> s.closedQuietly || (QuietCloser(s.tasks[t]) && r.buffer == s.buffer))
            && (s.closedQuietly || (outcome.Done? && QuietCloser(s.tasks[t])) ==> r.closedQuietly)
  {
    hide Recorded, Since, Recent, InFlight;
    if outcome.Done? {
      match s.tasks[t].op {
        case EvictOlderThan(cutoff, dryRun) =>
        case Clear =>
        case Close(quiet) =>
        case _ =>
      }
    }
  }

  lemma MainReplyKeepsSafe(s: Sys, t: TaskId, outcome: Outcome)
    requires Safe(s) && t in s.tasks && s.tasks[t].phase.Main?
    ensures Safe(MainReply(s, t, outcome))
  {
    TaskFacts(s, t);
    hide Safe, MainReply;
    MainReplyEffect(s, t, outcome);
    RemoveKeepsSafe(s, MainReply(s, t, outcome), t);
  }

  lemma ReplyKeepsSafe(s: Sys, t: TaskId, outcome: Outcome)
    requires Safe(s)
    ensures Safe(ReplyStep(s, t, outcome))
  {
    hide Exclusive, GateOpenInside, Closers, BatchReply, RowReply, MainReply;
    if t in s.tasks {
      TaskFacts(s, t);
      match s.tasks[t].phase {
        case BatchWrite(b) => BatchReplyKeepsSafe(s, t, b, outcome);
        case RowWrite(rest) => RowReplyKeepsSafe(s, t, rest, outcome);
        case Main => MainReplyKeepsSafe(s, t, outcome);
        case Ending =>
          var r := ReplyStep(s, t, outcome);
          if t in r.tasks {
            PutKeepsSafe(s, r, t);
          } else {
            RemoveKeepsSafe(s, r, t);
          }
        case _ =>
      }
    }
  }

  lemma StepKeepsSafe(s: Sys, e: Event)
    requires Safe(s)
    ensures Safe(Step(s, e))
  {
    match e {
      case Store(telegram) => StoreKeepsSafe(s, telegram);
      case Initialized =>
      case Call(t, op) => CallKeepsSafe(s, t, op);
      case Advance(t) => AdvanceKeepsSafe(s, t);
      case Reply(t, outcome) => ReplyKeepsSafe(s, t, outcome);
      case Cancel(t) =>
        if t in s.tasks {
          FinishKeepsSafe(s, t);
        }
    }
  }

  // ---- The ledger over all steps ----

  lemma SameHoldings(s: Sys, r: Sys)
    requires LedgerOk(s) && Line(r) == Line(s) && r.drops == s.drops && r.accepted == s.accepted
    ensures LedgerOk(r)
  {
  }

  /** Moving the boundary between two places does not change the line. */
  lemma LineIsAssociative(a: seq<Item>, b: seq<Item>, c: seq<Item>)
    ensures a + b + c == (a + b) + [] + c == a + [] + (b + c) == a + (b + c) + []
    ensures a + b + c == a + (b + c)
  {
  }

  lemma WaitingKeepsLedger(s: Sys, r: Sys, t: TaskId)
    requires Safe(s) && LedgerOk(s) && r == s.(closing := r.closing, tasks := r.tasks)
    requires s.lock != Some(t) && (forall u :: u in s.tasks && u != t ==> u in r.tasks && r.tasks[u] == s.tasks[u])
    ensures LedgerOk(r)
  {
    assert InFlight(r) == InFlight(s);
    SameHoldings(s, r);
  }

  lemma NewTaskKeepsLedger(s: Sys, t: TaskId, task: Task, closing: bool)
    requires LedgerOk(s) && s.lock != Some(t)
    ensures LedgerOk(s.(closing := closing, tasks := s.tasks[t := task]))
  {
    var r := s.(closing := closing, tasks := s.tasks[t := task]);
    assert InFlight(r) == InFlight(s) || s.lock == Some(t);
    SameHoldings(s, r);
  }

  lemma HolderExists(s: Sys)
    requires Safe(s)
    ensures s.lock.Some? ==> s.lock.value in s.tasks
  {
  }

  lemma CallKeepsLedger(s: Sys, t: TaskId, op: Op)
    requires Safe(s) && LedgerOk(s)
    ensures LedgerOk(CallStep(s, t, op))
  {
    hide Safe, LedgerOk;
    HolderExists(s);
    if t !in s.tasks && !(op.EndBackup? && s.writesAllowed) {
      if op.Close? {
        var quiet, phase := !BackingUp(s), if s.writesAllowed then LockWait(false) else Ending;
        NewTaskKeepsLedger(s, t, Task(Close(quiet), phase), true);
      } else {
        var phase := if op.EndBackup? then Ending else if Gated(op) then GateWait else LockWait(false);
        NewTaskKeepsLedger(s, t, Task(op, phase), s.closing);
      }
    }
  }

  lemma CancelKeepsLedger(s: Sys, t: TaskId)
    requires Safe(s) && LedgerOk(s)
    ensures LedgerOk(CancelStep(s, t))
  {
    if t in s.tasks {
      TaskFacts(s, t);
      hide Safe, LedgerOk;
      if s.lock != Some(t) {
        WaitingKeepsLedger(s, CancelStep(s, t), t);
      }
    }
  }

  lemma DropBufferKeepsLedger(s: Sys, r: Sys, reason: Reason)
    requires LedgerOk(s) && r.accepted == s.accepted && r.drops == s.drops && r.persisted == s.persisted && r.buffer == []
    requires InFlight(r) == [] && InFlight(s) == []
    ensures LedgerOk(Recorded(r, s.buffer, reason))
  {
    hide Ledger, Recorded;
    assert Line(s) == s.persisted + s.buffer + [] && Line(r) == s.persisted + [];
    assert Ordered(Line(s)) by { LedgerIsOrdered(Line(s), s.drops.Keys, s.accepted); }
    RemoveMiddle(s.persisted, s.buffer, []);
    RecordedKeepsLedger(s, r, s.buffer, reason);
  }

  lemma DetachedInFlight(s: Sys, t: TaskId, batch: seq<Item>)
    requires t in s.tasks && s.lock == Some(t)
    ensures InFlight(WithPhase(s, t, BatchGate(batch))) == batch
  {
  }

  lemma StartFlushKeepsLedger(s: Sys, t: TaskId)
    requires LedgerOk(s) && t in s.tasks && s.lock == Some(t) && InFlight(s) == []
    ensures LedgerOk(StartFlush(s, t))
  {
    hide LedgerOk, InFlight, Finish;
    if !s.writesAllowed || s.buffer == [] {
      FinishedInFlight(s, t);
      FinishKeepsRest(s, t);
      SameLineAs(s, AfterFlush(s, t));
    } else {
      var r := WithPhase(s.(buffer := []), t, BatchGate(s.buffer));
      DetachedInFlight(s.(buffer := []), t, s.buffer);
      SameLineAs(s, r);
    }
  }

  lemma FinishKeepsRest(s: Sys, t: TaskId)
    ensures Finish(s, t) == s.(tasks := Finish(s, t).tasks, lock := Finish(s, t).lock)
  {
  }

  lemma ClearBufferKeepsLedger(s: Sys, t: TaskId, reason: Reason)
    requires LedgerOk(s) && t in s.tasks && s.lock == Some(t) && InFlight(s) == []
    ensures LedgerOk(DropBuffer(WithPhase(s, t, Main), reason))
  {
    var r := WithPhase(s, t, Main);
    assert InFlight(r) == [] && InFlight(r.(buffer := [])) == [];
    hide LedgerOk, InFlight, Recorded;
    SameLineAs(s, r);
    DropBufferKeepsLedger(r, r.(buffer := []), reason);
  }

  /** Detaching moves the buffer into flight; dropping it is recorded. */
  lemma EnterKeepsLedger(s: Sys, t: TaskId)
    requires LedgerOk(s) && t in s.tasks && s.lock == Some(t) && InFlight(s) == []
    ensures LedgerOk(Enter(s, t))
  {
    hide LedgerOk, DropBuffer, StartFlush, InFlight, Finish;
    FinishKeepsRest(s, t);
    StartFlushKeepsLedger(s, t);
    ClearBufferKeepsLedger(s, t, Cleared);
    ClearBufferKeepsLedger(s, t, NeverInitialized);
    FinishedInFlight(s, t);
    SameLineAs(s, Finish(s, t));
    SameLineAs(s, WithPhase(s, t, Main));
  }

  lemma FinishedInFlight(s: Sys, t: TaskId)
    requires t in s.tasks && s.lock == Some(t)
    ensures InFlight(Finish(s, t)) == [] && InFlight(WithPhase(s, t, Main)) == []
  {
  }

  lemma SameLineAs(s: Sys, r: Sys)
    requires LedgerOk(s) && r.drops == s.drops && r.accepted == s.accepted
    requires r.persisted + (InFlight(r) + r.buffer) == s.persisted + (InFlight(s) + s.buffer)
    ensures LedgerOk(r)
  {
    LineIsAssociative(s.persisted, InFlight(s), s.buffer);
    LineIsAssociative(r.persisted, InFlight(r), r.buffer);
    SameHoldings(s, r);
  }

  lemma AdvanceKeepsLedger(s: Sys, t: TaskId)
    requires Safe(s) && LedgerOk(s)
    ensures LedgerOk(AdvanceStep(s, t))
  {
    if t in s.tasks {
      TaskFacts(s, t);
      hide Safe, LedgerOk, Enter;
      match s.tasks[t].phase {
        case LockWait(gated) =>
          if s.lock.None? {
            var locked := s.(lock := Some(t));
            if s.closing && !s.tasks[t].op.Close? {
              WaitingKeepsLedger(s, Finish(s, t), t);
            } else if gated && !s.writesAllowed {
              WaitingKeepsLedger(s, WithPhase(s, t, GateWait), t);
            } else {
              assert InFlight(locked) == [] && InFlight(s) == [];
              SameLineAs(s, locked);
              EnterKeepsLedger(locked, t);
            }
          }
        case GateWait =>
          WaitingKeepsLedger(s, AdvanceStep(s, t), t);
        case BatchGate(b) =>
          SameLineAs(s, AdvanceStep(s, t));
        case RowGate(rest) =>
          SameLineAs(s, AdvanceStep(s, t));
        case _ =>
      }
    }
  }

  lemma NextRowInFlight(s: Sys, t: TaskId, rest: seq<Item>)
    requires t in s.tasks && s.lock == Some(t)
    ensures InFlight(NextRow(s, t, rest)) == rest
    ensures NextRow(s, t, rest) == s.(tasks := NextRow(s, t, rest).tasks, lock := NextRow(s, t, rest).lock)
  {
  }

  lemma RequeueKeepsLedger(s: Sys, t: TaskId, items: seq<Item>)
    requires LedgerOk(s) && t in s.tasks && s.lock == Some(t) && InFlight(s) == items
    ensures LedgerOk(RequeueStep(s, t, items))
  {
    var after := Finish(s.(buffer := Requeued(s.buffer, items, s.limit)), t);
    assert InFlight(after) == [];
    assert Ordered(Line(s)) by { LedgerIsOrdered(Line(s), s.drops.Keys, s.accepted); }
    hide LedgerOk, Ordered, Recorded, InFlight;
    var lost := CutOff(s.buffer, items, s.limit);
    CutOffAndRequeued(s.buffer, items, s.limit);
    hide CutOff, Requeued, Parts;
    Shift(s.persisted, items, s.buffer);
    Shift(s.persisted, lost, after.buffer);
    assert Line(s) == s.persisted + lost + after.buffer;
    assert Line(after) == s.persisted + after.buffer;
    RemoveMiddle(s.persisted, lost, after.buffer);
    RecordedKeepsLedger(s, after, lost, Overflow);
  }

  lemma BatchReplyKeepsLedger(s: Sys, t: TaskId, batch: seq<Item>, outcome: Outcome)
    requires LedgerOk(s) && t in s.tasks && s.lock == Some(t) && s.tasks[t].phase == BatchWrite(batch)
    ensures LedgerOk(BatchReply(s, t, batch, outcome))
  {
    assert InFlight(s) == batch;
    hide LedgerOk, RequeueStep, InFlight;
    match outcome {
      case Done =>
        var r := s.(persisted := s.persisted + batch);
        NextRowInFlight(r, t, []);
        LineIsAssociative(s.persisted, batch, s.buffer);
        assert (s.persisted + batch) + ([] + s.buffer) == s.persisted + (batch + s.buffer);
        SameLineAs(s, NextRow(r, t, []));
      case DataError =>
        NextRowInFlight(s, t, batch);
        SameLineAs(s, NextRow(s, t, batch));
      case _ =>
        RequeueKeepsLedger(s, t, batch);
    }
  }

  lemma RowReplyKeepsLedger(s: Sys, t: TaskId, rest: seq<Item>, outcome: Outcome)
    requires LedgerOk(s) && t in s.tasks && s.lock == Some(t) && s.tasks[t].phase == RowWrite(rest) && rest != []
    ensures LedgerOk(RowReply(s, t, rest, outcome))
  {
    assert InFlight(s) == rest;
    hide LedgerOk, RequeueStep, InFlight, Recorded, NextRow;
    match outcome {
      case Done => StoredRowKeepsLedger(s, t, rest);
      case DataError => UnstorableRowKeepsLedger(s, t, rest);
      case _ => RequeueKeepsLedger(s, t, rest);
    }
  }

  lemma StoredRowKeepsLedger(s: Sys, t: TaskId, rest: seq<Item>)
    requires LedgerOk(s) && t in s.tasks && s.lock == Some(t) && InFlight(s) == rest && rest != []
    ensures LedgerOk(NextRow(s.(persisted := s.persisted + [rest[0]]), t, rest[1..]))
  {
    hide LedgerOk, InFlight, NextRow;
    var r := s.(persisted := s.persisted + [rest[0]]);
    NextRowInFlight(r, t, rest[1..]);
    assert rest == [rest[0]] + rest[1..];
    assert (s.persisted + [rest[0]]) + (rest[1..] + s.buffer) == s.persisted + (rest + s.buffer);
    SameLineAs(s, NextRow(r, t, rest[1..]));
  }

  lemma UnstorableRowKeepsLedger(s: Sys, t: TaskId, rest: seq<Item>)
    requires LedgerOk(s) && t in s.tasks && s.lock == Some(t) && InFlight(s) == rest && rest != []
    ensures LedgerOk(Recorded(NextRow(s, t, rest[1..]), [rest[0]], Unstorable))
  {
    assert Ordered(Line(s)) by { LedgerIsOrdered(Line(s), s.drops.Keys, s.accepted); }
    hide LedgerOk, InFlight, Recorded, Ordered, NextRow, Parts;
    var r := NextRow(s, t, rest[1..]);
    NextRowInFlight(s, t, rest[1..]);
    assert rest == [rest[0]] + rest[1..];
    assert Line(s) == s.persisted + [rest[0]] + (rest[1..] + s.buffer);
    assert Line(r) == s.persisted + (rest[1..] + s.buffer);
    RemoveMiddle(s.persisted, [rest[0]], rest[1..] + s.buffer);
    RecordedKeepsLedger(s, r, [rest[0]], Unstorable);
  }

  lemma EvictedLines(s: Sys, t: TaskId, cutoff: int)
    requires t in s.tasks && s.lock == Some(t) && s.tasks[t].phase.Main?
    ensures var after := Finish(EvictedRows(s, cutoff), t);
            && Line(s) == s.persisted + s.buffer && Line(after) == Since(s.persisted, cutoff) + Since(s.buffer, cutoff)
            && after.accepted == s.accepted && after.drops == s.drops
  {
    hide Since, Recent, Older;
  }

  lemma EvictKeepsLedger(s: Sys, t: TaskId, cutoff: int)
    requires LedgerOk(s) && t in s.tasks && s.lock == Some(t) && s.tasks[t].phase.Main?
    ensures LedgerOk(Recorded(Finish(EvictedRows(s, cutoff), t), Older(s.persisted, cutoff) + Older(s.buffer, cutoff), Evicted))
  {
    var after := Finish(EvictedRows(s, cutoff), t);
    EvictedLines(s, t, cutoff);
    assert Ordered(Line(s)) by { LedgerIsOrdered(Line(s), s.drops.Keys, s.accepted); }
    hide *;
    PartsOfTwo(s.persisted, s.buffer, cutoff);
    RecordedKeepsLedger(s, after, Older(s.persisted, cutoff) + Older(s.buffer, cutoff), Evicted);
  }

  lemma ClearKeepsLedger(s: Sys, t: TaskId)
    requires LedgerOk(s) && t in s.tasks && s.lock == Some(t) && s.tasks[t].phase.Main?
    ensures LedgerOk(Recorded(Finish(s.(persisted := [], direct := []), t), s.persisted, Cleared))
  {
    var after := Finish(s.(persisted := [], direct := []), t);
    assert InFlight(after) == [] && InFlight(s) == [];
    assert Ordered(Line(s)) by { LedgerIsOrdered(Line(s), s.drops.Keys, s.accepted); }
    assert Line(s) == [] + s.persisted + s.buffer && Line(after) == [] + s.buffer;
    hide LedgerOk, Recorded, InFlight, Ordered, Parts;
    RemoveMiddle([], s.persisted, s.buffer);
    RecordedKeepsLedger(s, after, s.persisted, Cleared);
  }

  lemma MainReplyKeepsLedger(s: Sys, t: TaskId, outcome: Outcome)
    requires LedgerOk(s) && t in s.tasks && s.lock == Some(t) && s.tasks[t].phase.Main?
    ensures LedgerOk(MainReply(s, t, outcome))
  {
    hide LedgerOk, Recorded, EvictedRows, Older, Finish;
    if outcome.Done? && s.tasks[t].op.EvictOlderThan? && !s.tasks[t].op.dryRun {
      EvictKeepsLedger(s, t, s.tasks[t].op.cutoff);
    } else if outcome.Done? && s.tasks[t].op.Clear? {
      ClearKeepsLedger(s, t);
    } else {
      var r := MainReply(s, t, outcome);
      PlainMainReply(s, t, outcome);
      FinishedInFlight(s, t);
      assert InFlight(s) == [];
      hide MainReply, InFlight;
      SameLineAs(s, r);
    }
  }

  /** The other backend calls leave the line alone. */
  lemma PlainMainReply(s: Sys, t: TaskId, outcome: Outcome)
    requires t in s.tasks && s.lock == Some(t) && s.tasks[t].phase.Main?
    requires !(outcome.Done? && (s.tasks[t].op.Clear? || (s.tasks[t].op.EvictOlderThan? && !s.tasks[t].op.dryRun)))
    ensures var r := MainReply(s, t, outcome);
            && r.persisted == s.persisted && r.buffer == s.buffer && r.drops == s.drops && r.accepted == s.accepted
            && InFlight(r) == InFlight(Finish(s, t))
  {
    var r := MainReply(s, t, outcome);
    assert r.tasks == Finish(s, t).tasks && r.lock == Finish(s, t).lock by { hide Finish, InFlight, Line; }
    hide Recorded, EvictedRows, Finish, Line;
  }

  lemma ReplyKeepsLedger(s: Sys, t: TaskId, outcome: Outcome)
    requires Safe(s) && LedgerOk(s)
    ensures LedgerOk(ReplyStep(s, t, outcome))
  {
    if t in s.tasks {
      TaskFacts(s, t);
      hide LedgerOk, BatchReply, RowReply, MainReply;
      match s.tasks[t].phase {
        case BatchWrite(b) => BatchReplyKeepsLedger(s, t, b, outcome);
        case RowWrite(rest) => RowReplyKeepsLedger(s, t, rest, outcome);
        case Main => MainReplyKeepsLedger(s, t, outcome);
        case Ending =>
          var r := ReplyStep(s, t, outcome);
          assert InFlight(r) == InFlight(s);
          SameLineAs(s, r);
        case _ =>
      }
    }
  }

  lemma StepKeepsInvariant(s: Sys, e: Event)
    requires Invariant(s)
    ensures Invariant(Step(s, e))
  {
    StepKeepsSafe(s, e);
    assert s.limit >= 1;
    hide Safe, LedgerOk;
    match e {
      case Store(telegram) =>
        if !s.closing {
          StoreKeepsLedger(s, telegram);
        }
      case Initialized => SameLineAs(s, s.(initialized := true));
      case Call(t, op) => CallKeepsLedger(s, t, op);
      case Advance(t) => AdvanceKeepsLedger(s, t);
      case Reply(t, outcome) => ReplyKeepsLedger(s, t, outcome);
      case Cancel(t) => CancelKeepsLedger(s, t);
    }
  }

  lemma {:induction false} RunKeepsInvariant(limit: nat, events: seq<Event>)
    requires limit >= 1
    ensures Invariant(Run(Init(limit), events))
  {
    if events == [] {
      assert Line(Init(limit)) == [];
    } else {
      var n := |events| - 1;
      RunKeepsInvariant(limit, events[..n]);
      StepKeepsInvariant(Run(Init(limit), events[..n]), events[n]);
    }
  }

  // ---- Runs, piece by piece ----

  lemma {:induction false} RunConcat(s: Sys, a: seq<Event>, b: seq<Event>)
    ensures Run(s, a + b) == Run(Run(s, a), b)
  {
    hide Step;
    if b == [] {
      assert a + b == a;
    } else {
      RunConcat(s, a, b[..|b| - 1]);
      assert (a + b)[..|a + b| - 1] == a + b[..|b| - 1];
    }
  }

  lemma RunOne(s: Sys, e: Event)
    ensures Run(s, [e]) == Step(s, e)
  {
    assert [e][..0] == [];
  }
}
