/**
 The buffered store's own methods. `_flush` is written out with its retry loop; what each awaited
 `store_many` brings is given as a script: the telegrams stored while it is awaited, and its outcome.
 The flush is one task's run of the protocol, with the script's arrivals in between.
 */
module BufferedStore {
  import opened Wrappers
  import opened DropOldest
  import opened P = BufferProtocol

  datatype Answer = Answer(arrivals: seq<Telegram>, outcome: Outcome)

  datatype FlushResult = Returned | Raised(cause: Outcome)

  /** How begin_backup(), end_backup() and close() end: refused means the wrong moment for a backup. */
  datatype LifecycleResult = Completed | Refused | Failed

  class WriteBuffer {
    const maxBufferSize: nat
    var buffer: seq<Item>
    var accepted: nat
    var closing: bool
    var initialized: bool
    var writesAllowed: bool
    var bufferFullWarned: bool
    var persisted: seq<Item>  // the backend's rows that came through the buffer
    var direct: seq<Telegram>  // the backend's rows the host wrote itself

    ghost predicate Valid()
      reads this
    {
      1 <= maxBufferSize && |buffer| <= maxBufferSize
    }

    constructor (maxBufferSize: nat)
      requires maxBufferSize >= 1
      ensures Valid() && Matches(Init(maxBufferSize)) && !bufferFullWarned
    {
      this.maxBufferSize := maxBufferSize;
      buffer, accepted, persisted, direct := [], 0, [], [];
      closing, initialized, writesAllowed, bufferFullWarned := false, false, true, false;
    }

    /** The store is in this state of the protocol. */
    ghost predicate Matches(s: Sys)
      reads this
    {
      && s.limit == maxBufferSize && s.buffer == buffer && s.accepted == accepted
      && s.persisted == persisted && s.direct == direct
      && s.closing == closing && s.initialized == initialized && s.writesAllowed == writesAllowed
    }

    /** `store()` and `store_sync()` */
    method Store(telegram: Telegram)
      requires Valid()
      modifies `buffer, `accepted, `bufferFullWarned
      ensures Valid()
      ensures closing ==> buffer == old(buffer) && accepted == old(accepted)
      ensures !closing ==>
        buffer == Append(old(buffer), Item(old(accepted), telegram), maxBufferSize) && accepted == old(accepted) + 1
      ensures bufferFullWarned == (old(bufferFullWarned) || (!closing && |old(buffer)| >= maxBufferSize))
    {
      if closing {
        return;
      }
      if |buffer| >= maxBufferSize {
        if !bufferFullWarned {
          bufferFullWarned := true;
        }
        buffer := buffer[1..];
      }
      buffer := buffer + [Item(accepted, telegram)];
      accepted := accepted + 1;
    }

    /** `_requeue()` */
    method Requeue(items: seq<Item>)
      requires maxBufferSize >= 1
      modifies `buffer, `bufferFullWarned
      ensures Valid() && buffer == Requeued(old(buffer), items, maxBufferSize)
      ensures bufferFullWarned == (old(bufferFullWarned) || |items| + |old(buffer)| > maxBufferSize)
    {
      buffer := items + buffer;
      if |buffer| > maxBufferSize {
        if !bufferFullWarned {
          bufferFullWarned := true;
        }
        buffer := buffer[|buffer| - maxBufferSize..];
      }
    }

    /** Everything `store()` adds while a backend call is awaited. */
    method AwaitBackend(arrivals: seq<Telegram>, ghost start: Sys, ghost before: seq<Event>) returns (ghost events: seq<Event>)
      requires Valid() && Matches(Run(start, before))
      modifies `buffer, `accepted, `bufferFullWarned
      ensures Valid() && Matches(Run(start, events)) && events == before + StoreEvents(arrivals)
      ensures closing ==> buffer == old(buffer)
      ensures Run(start, events).lock == Run(start, before).lock && Run(start, events).tasks == Run(start, before).tasks
    {
      hide Step, Run, Append;
      events := before;
      var n := 0;
      while n < |arrivals|
        invariant n <= |arrivals| && Valid() && Matches(Run(start, events)) && events == before + StoreEvents(arrivals[..n])
        invariant closing ==> buffer == old(buffer)
        invariant Run(start, events).lock == Run(start, before).lock && Run(start, events).tasks == Run(start, before).tasks
      {
        StoreEffect(Run(start, events), arrivals[n]);
        RunOneMore(start, events, P.Store(arrivals[n]));
        events := events + [P.Store(arrivals[n])];
        Store(arrivals[n]);
        assert StoreEvents(arrivals[..n + 1]) == StoreEvents(arrivals[..n]) + [P.Store(arrivals[n])];
        n := n + 1;
      }
      assert arrivals[..n] == arrivals;
    }

    /** The backend's `store_many`: all of it or nothing. */
    method WriteRows(items: seq<Item>, outcome: Outcome)
      modifies `persisted
      ensures persisted == if outcome.Done? then old(persisted) + items else old(persisted)
    {
      if outcome.Done? {
        persisted := persisted + items;
      }
    }

    /**
     `_flush()`, from getting the mutation lock through as many backend calls as it takes; `op` is the
     operation it is part of, which goes on inside the lock when the flush went through.
     */
    method Flush(raiseOnError: bool, script: nat -> Answer,
                      ghost start: Sys, ghost t: TaskId, ghost op: P.Op)
        returns (result: FlushResult, ghost calls: nat)
      requires Valid() && Matches(start) && MayFlush(start, t, op)
      modifies `buffer, `accepted, `bufferFullWarned, `persisted
      ensures Valid() && Matches(Run(start, FlushEvents(script, t, calls)))
      ensures Flushed(Run(start, FlushEvents(script, t, calls)), start.tasks, t, op, script, calls)
      ensures calls == 0 <==> !old(writesAllowed) || old(buffer) == []
      ensures result == ResultOf(script, calls, raiseOnError)
      ensures Complete(script, calls) ==> !bufferFullWarned
      ensures closing && (calls == 0 || Complete(script, calls)) && writesAllowed ==> buffer == []
    {
      hide Step, Run, Requeued;
      if !writesAllowed || buffer == [] {
        SkippedFlush(start, t, op);
        return Returned, 0;
      }
      var batch := buffer;
      DetachEffect(start, t, op);
      buffer := [];
      result, calls := WriteBatch(batch, raiseOnError, script, start, t, op);
    }

    /** The first write of `_flush()`, with the batch detached. */
    method WriteBatch(batch: seq<Item>, raiseOnError: bool, script: nat -> Answer,
                      ghost start: Sys, ghost t: TaskId, ghost op: P.Op)
        returns (result: FlushResult, ghost calls: nat)
      requires Valid() && Matches(Run(start, [Advance(t), Advance(t)])) && batch != []
      requires AtBatch(Run(start, [Advance(t), Advance(t)]), start.tasks, t, op, batch)
      modifies `buffer, `accepted, `bufferFullWarned, `persisted
      ensures Valid() && Matches(Run(start, FlushEvents(script, t, calls)))
      ensures Flushed(Run(start, FlushEvents(script, t, calls)), start.tasks, t, op, script, calls)
      ensures calls > 0 && result == ResultOf(script, calls, raiseOnError)
      ensures Complete(script, calls) ==> !bufferFullWarned
      ensures closing && Complete(script, calls) ==> buffer == old(buffer)
    {
      hide Step, Run, Requeued, FlushEvents, Over, Left, AtRow;
      var answer := script(0);
      ghost var events := AwaitBackend(answer.arrivals, start, [Advance(t), Advance(t)]);
      WriteRows(batch, answer.outcome);
      BatchAnswered(Run(start, events), start.tasks, t, op, batch, answer.outcome);
      RunOneMore(start, events, Reply(t, answer.outcome));
      FirstCall(script, t);
      assert Run(start, FlushEvents(script, t, 1)) == Step(Run(start, events), Reply(t, answer.outcome));
      calls := 1;
      match answer.outcome {
        case Done =>
          bufferFullWarned := false;
          result := Returned;
        case DataError =>
          result, calls := RetryRows(batch, raiseOnError, script, start, t, op);
        case _ =>
          Requeue(batch);
          result := if answer.outcome.Cancelled? || raiseOnError then Raised(answer.outcome) else Returned;
      }
    }

    /** The second half of `_flush()`: one row at a time, dropping those that can never be stored. */
    method RetryRows(batch: seq<Item>, raiseOnError: bool, script: nat -> Answer,
                      ghost start: Sys, ghost t: TaskId, ghost op: P.Op)
        returns (result: FlushResult, ghost calls: nat)
      requires Valid() && Matches(Run(start, FlushEvents(script, t, 1))) && batch != []
      requires AtRow(Run(start, FlushEvents(script, t, 1)), start.tasks, t, op, batch)
      modifies `buffer, `accepted, `bufferFullWarned, `persisted
      ensures Valid() && Matches(Run(start, FlushEvents(script, t, calls)))
      ensures Flushed(Run(start, FlushEvents(script, t, calls)), start.tasks, t, op, script, calls)
      ensures calls > 1 && result == ResultOf(script, calls, raiseOnError)
      ensures Complete(script, calls) ==> !bufferFullWarned
      ensures closing && Complete(script, calls) ==> buffer == old(buffer)
    {
      hide Step, Run, Requeued, FlushEvents, Over, Left, AtRow;
      calls := 1;
      var index := 0;
      assert batch[0..] == batch;
      while index < |batch|
        invariant 0 <= index <= |batch| && calls == index + 1 && Valid() && Matches(Run(start, FlushEvents(script, t, calls)))
        invariant index < |batch| ==> AtRow(Run(start, FlushEvents(script, t, calls)), start.tasks, t, op, batch[index..])
        invariant index == |batch| ==> Over(Run(start, FlushEvents(script, t, calls)), start.tasks, t, op)
        invariant index > 0 ==> script(index).outcome.Done? || script(index).outcome.DataError?
        invariant closing ==> buffer == old(buffer)
      {
        var answer := script(index + 1);
        RetryRow(batch, index, answer, script, start, t, op);
        calls := calls + 1;
        if answer.outcome.OtherError? || answer.outcome.Cancelled? {
          return if answer.outcome.Cancelled? || raiseOnError then Raised(answer.outcome) else Returned, calls;
        }
        index := index + 1;
      }
      bufferFullWarned := false;
      result := Returned;
    }

    /** One telegram of the retry: written, dropped, or put back with everything behind it. */
    method RetryRow(batch: seq<Item>, index: nat, answer: Answer, ghost script: nat -> Answer,
                    ghost start: Sys, ghost t: TaskId, ghost op: P.Op)
      requires index < |batch| && answer == script(index + 1)
      requires Valid() && Matches(Run(start, FlushEvents(script, t, index + 1)))
      requires AtRow(Run(start, FlushEvents(script, t, index + 1)), start.tasks, t, op, batch[index..])
      modifies `buffer, `accepted, `bufferFullWarned, `persisted
      ensures Valid() && Matches(Run(start, FlushEvents(script, t, index + 2)))
      ensures var r := Run(start, FlushEvents(script, t, index + 2));
              if answer.outcome.OtherError? || answer.outcome.Cancelled? then Left(r, start.tasks, t)
              else if index + 1 == |batch| then Over(r, start.tasks, t, op)
              else AtRow(r, start.tasks, t, op, batch[index + 1..])
      ensures closing && (answer.outcome.Done? || answer.outcome.DataError?) ==> buffer == old(buffer)
    {
      hide Step, Run, Requeued, FlushEvents, AtRow, Left, Over;
      ghost var before := FlushEvents(script, t, index + 1);
      var rest := batch[index..];
      assert rest[0] == batch[index] && rest[1..] == batch[index + 1..];
      RowEnters(Run(start, before), start.tasks, t, op, rest);
      RunOneMore(start, before, Advance(t));
      ghost var events := AwaitBackend(answer.arrivals, start, before + [Advance(t)]);
      WriteRows([batch[index]], answer.outcome);
      RowAnswered(Run(start, events), start.tasks, t, op, rest, answer.outcome);
      RunOneMore(start, events, Reply(t, answer.outcome));
      OneMoreCall(script, t, index + 1);
      assert Run(start, FlushEvents(script, t, index + 2)) == Step(Run(start, events), Reply(t, answer.outcome));
      if answer.outcome.OtherError? || answer.outcome.Cancelled? {
        Requeue(rest);
      }
    }

    /** The host's `store_many()` once inside the gate: the whole batch is written, behind what is there, or none of it. */
    method StoreMany(telegrams: seq<Telegram>, backend: Answer, ghost start: Sys, ghost t: TaskId)
        returns (result: LifecycleResult)
      requires Valid() && Matches(start) && start.lock.None? && !closing && writesAllowed
      requires t in start.tasks && start.tasks[t] == Task(P.StoreMany(telegrams), LockWait(true))
      modifies `buffer, `accepted, `bufferFullWarned, `direct
      ensures Valid() && Matches(Run(start, [Advance(t)] + StoreEvents(backend.arrivals) + [Reply(t, backend.outcome)]))
      ensures Left(Run(start, [Advance(t)] + StoreEvents(backend.arrivals) + [Reply(t, backend.outcome)]), start.tasks, t)
      ensures result == (if backend.outcome.Done? then Completed else Failed)
      ensures direct == if result.Completed? then old(direct) + telegrams else old(direct)
    {
      hide Step, Run;
      StoreManyEnters(start, t, telegrams);
      RunNone(start);
      RunOneMore(start, [], Advance(t));
      assert [] + [Advance(t)] == [Advance(t)];
      ghost var events := AwaitBackend(backend.arrivals, start, [Advance(t)]);
      RunOneMore(start, events, Reply(t, backend.outcome));
      if !backend.outcome.Done? {
        FailureEffect(Run(start, events), t, backend.outcome);
        return Failed;
      }
      StoreManyEffect(Run(start, events), t, telegrams);
      direct := direct + telegrams;
      result := Completed;
    }

    /** `sum(t.timestamp < cutoff for t in items)` */
    method CountOlder(items: seq<Item>, cutoff: int) returns (count: nat)
      ensures count == |items| - |Since(items, cutoff)|
    {
      count := 0;
      var n := 0;
      while n < |items|
        invariant n <= |items| && count == n - |Since(items[..n], cutoff)|
      {
        assert items[..n + 1][..n] == items[..n];
        if items[n].telegram.timestamp < cutoff {
          count := count + 1;
        }
        n := n + 1;
      }
      assert items[..n] == items;
    }

    /** `_evict_older_than()`: the backend first, then what is in the buffer by then; a dry run only counts. */
    method EvictOlderThan(cutoff: int, dryRun: bool, backend: Answer, ghost start: Sys, ghost t: TaskId)
        returns (result: LifecycleResult, deleted: nat)
      requires Valid() && Matches(start) && start.lock == Some(t)
      requires t in start.tasks && start.tasks[t] == Task(P.EvictOlderThan(cutoff, dryRun), Main)
      modifies `buffer, `accepted, `bufferFullWarned, `persisted, `direct
      ensures Valid() && Matches(Run(start, StoreEvents(backend.arrivals) + [Reply(t, backend.outcome)]))
      ensures Left(Run(start, StoreEvents(backend.arrivals) + [Reply(t, backend.outcome)]), start.tasks, t)
      ensures result == (if backend.outcome.Done? then Completed else Failed)
      ensures result.Completed? ==>
        var met := Run(start, StoreEvents(backend.arrivals)).buffer;
        deleted == (|old(persisted)| - |Since(old(persisted), cutoff)|) + (|old(direct)| - |Recent(old(direct), cutoff)|)
                   + (|met| - |Since(met, cutoff)|)
    {
      hide Step, Run, Since, Recent;
      deleted := 0;
      var backendDeleted := CountOlder(persisted, cutoff);
      backendDeleted := backendDeleted + |direct| - |Recent(direct, cutoff)|;
      RunNone(start);
      ghost var events := AwaitBackend(backend.arrivals, start, []);
      assert [] + StoreEvents(backend.arrivals) == StoreEvents(backend.arrivals);
      RunOneMore(start, events, Reply(t, backend.outcome));
      if !backend.outcome.Done? {
        FailureEffect(Run(start, events), t, backend.outcome);
        return Failed, 0;
      }
      EvictEffect(Run(start, events), t, cutoff, dryRun);
      var bufferedDeleted := CountOlder(buffer, cutoff);
      if !dryRun {
        persisted, direct := Since(persisted, cutoff), Recent(direct, cutoff);
        buffer := Since(buffer, cutoff);
      }
      result, deleted := Completed, backendDeleted + bufferedDeleted;
    }

    /** `clear()`: the buffer at once, then the backend; what arrives in between stays, and so do the rows if it fails. */
    method Clear(backend: Answer, ghost start: Sys, ghost t: TaskId) returns (result: LifecycleResult)
      requires Valid() && Matches(start) && start.lock.None? && !closing && writesAllowed
      requires t in start.tasks && start.tasks[t] == Task(P.Clear, LockWait(true))
      modifies `buffer, `accepted, `bufferFullWarned, `persisted, `direct
      ensures Valid() && Matches(Run(start, [Advance(t)] + StoreEvents(backend.arrivals) + [Reply(t, backend.outcome)]))
      ensures Left(Run(start, [Advance(t)] + StoreEvents(backend.arrivals) + [Reply(t, backend.outcome)]), start.tasks, t)
      ensures result == (if backend.outcome.Done? then Completed else Failed)
      ensures persisted == (if result.Completed? then [] else old(persisted))
      ensures direct == (if result.Completed? then [] else old(direct))
    {
      hide Step, Run;
      ClearEnters(start, t);
      RunNone(start);
      RunOneMore(start, [], Advance(t));
      assert [] + [Advance(t)] == [Advance(t)];
      buffer := [];
      ghost var events := AwaitBackend(backend.arrivals, start, [Advance(t)]);
      RunOneMore(start, events, Reply(t, backend.outcome));
      if !backend.outcome.Done? {
        FailureEffect(Run(start, events), t, backend.outcome);
        return Failed;
      }
      ClearEffect(Run(start, events), t);
      persisted, direct := [], [];
      result := Completed;
    }

    /** `begin_backup()` from getting the mutation lock: a flush, the backend's part, and the gate closes. */
    method BeginBackup(script: nat -> Answer, backend: Answer, ghost start: Sys, ghost t: TaskId)
        returns (result: LifecycleResult, ghost calls: nat)
      requires Valid() && Matches(start) && start.lock.None? && !closing
      requires t in start.tasks && start.tasks[t] == Task(P.BeginBackup, LockWait(false))
      modifies `buffer, `accepted, `bufferFullWarned, `persisted, `writesAllowed
      ensures Valid() && Matches(Run(start, LifecycleEvents(script, t, calls, backend, old(writesAllowed))))
      ensures Left(Run(start, LifecycleEvents(script, t, calls, backend, old(writesAllowed))), start.tasks, t)
      ensures result == if !old(writesAllowed) then Refused else LifecycleOutcome(script, calls, backend)
      ensures writesAllowed == (old(writesAllowed) && !result.Completed?)
    {
      hide Step, Run, FlushEvents;
      if !writesAllowed {
        BackupRefused(start, t);
        NoCalls(script, t);
        return Refused, 0;
      }
      var flushed;
      flushed, calls := Flush(true, script, start, t, P.BeginBackup);
      if flushed.Raised? {
        return Failed, calls;
      }
      ghost var events := AwaitBackend(backend.arrivals, start, FlushEvents(script, t, calls));
      LastCallEffect(Run(start, events), start.tasks, t, P.BeginBackup, backend.outcome);
      RunOneMore(start, events, Reply(t, backend.outcome));
      if !backend.outcome.Done? {
        return Failed, calls;
      }
      writesAllowed := false;
      result := Completed;
    }

    /** `optimize()` from getting the mutation lock behind the open gate: a flush, then the backend's part. */
    method Optimize(script: nat -> Answer, backend: Answer, ghost start: Sys, ghost t: TaskId)
        returns (result: LifecycleResult, ghost calls: nat)
      requires Valid() && Matches(start) && start.lock.None? && !closing && writesAllowed
      requires t in start.tasks && start.tasks[t] == Task(P.Optimize, LockWait(true))
      modifies `buffer, `accepted, `bufferFullWarned, `persisted
      ensures Valid() && Matches(Run(start, LifecycleEvents(script, t, calls, backend, true)))
      ensures Left(Run(start, LifecycleEvents(script, t, calls, backend, true)), start.tasks, t)
      ensures result == LifecycleOutcome(script, calls, backend)
    {
      hide Step, Run, FlushEvents;
      var flushed;
      flushed, calls := Flush(true, script, start, t, P.Optimize);
      if flushed.Raised? {
        return Failed, calls;
      }
      ghost var events := AwaitBackend(backend.arrivals, start, FlushEvents(script, t, calls));
      LastCallEffect(Run(start, events), start.tasks, t, P.Optimize, backend.outcome);
      RunOneMore(start, events, Reply(t, backend.outcome));
      result := if backend.outcome.Done? then Completed else Failed;
    }

    /** `end_backup()`: the gate reopens however the backend's part ends. */
    method EndBackup(backend: Answer, ghost start: Sys, ghost t: TaskId) returns (result: LifecycleResult)
      requires Valid() && Matches(start) && t in start.tasks && start.tasks[t] == Task(P.EndBackup, P.Ending)
      requires start.lock != Some(t)
      modifies `buffer, `accepted, `bufferFullWarned, `writesAllowed
      ensures Valid()
      ensures old(writesAllowed) ==> result == Refused && buffer == old(buffer) && accepted == old(accepted)
      ensures !old(writesAllowed) ==>
        && Matches(Run(start, StoreEvents(backend.arrivals) + [Reply(t, backend.outcome)]))
        && result == (if backend.outcome.Done? then Completed else Failed)
      ensures writesAllowed
    {
      hide Step, Run;
      if writesAllowed {
        return Refused;
      }
      RunNone(start);
      ghost var events := AwaitBackend(backend.arrivals, start, []);
      assert [] + StoreEvents(backend.arrivals) == StoreEvents(backend.arrivals);
      EndEffect(Run(start, events), t, backend.outcome);
      RunOneMore(start, events, Reply(t, backend.outcome));
      result := if backend.outcome.Done? then Completed else Failed;
      writesAllowed := true;
    }

    /** `close()` from getting the mutation lock: the last flush, or dropping what has no schema to go to. */
    method CloseHoldingLock(script: nat -> Answer, backend: Answer, ghost start: Sys, ghost t: TaskId, ghost quiet: bool)
        returns (result: LifecycleResult, ghost calls: nat)
      requires Valid() && Matches(start) && start.lock.None? && closing
      requires t in start.tasks && start.tasks[t] == Task(P.Close(quiet), LockWait(false))
      modifies `buffer, `accepted, `bufferFullWarned, `persisted
      ensures Valid() && Matches(Run(start, LifecycleEvents(script, t, calls, backend, true)))
      ensures Left(Run(start, LifecycleEvents(script, t, calls, backend, true)), start.tasks, t)
      ensures result == LifecycleOutcome(script, calls, backend)
      ensures result.Completed? && (writesAllowed || !initialized) ==> buffer == []
    {
      hide Step, Run, FlushEvents;
      calls := 0;
      ghost var op := P.Close(quiet);
      if initialized {
        var flushed;
        flushed, calls := Flush(true, script, start, t, op);
        if flushed.Raised? {
          return Failed, calls;
        }
      } else {
        DropsUninitialized(start, t, quiet);
        NoCalls(script, t);
        if buffer != [] {
          buffer := [];
        }
      }
      ghost var events := AwaitBackend(backend.arrivals, start, FlushEvents(script, t, calls));
      LastCallEffect(Run(start, events), start.tasks, t, op, backend.outcome);
      RunOneMore(start, events, Reply(t, backend.outcome));
      result := if backend.outcome.Done? then Completed else Failed;
    }
  }

  // ---- The events of one flush ----

  ghost function StoreEvents(arrivals: seq<Telegram>): seq<P.Event> {
    seq(|arrivals|, i requires 0 <= i < |arrivals| => P.Store(arrivals[i]))
  }

  /** Getting the lock, then `calls` backend calls: in through the gate, the arrivals meanwhile, the answer. */
  ghost function FlushEvents(script: nat -> Answer, t: TaskId, calls: nat): seq<P.Event> {
    if calls == 0 then [Advance(t)]
    else FlushEvents(script, t, calls - 1) + [Advance(t)] + StoreEvents(script(calls - 1).arrivals)
         + [Reply(t, script(calls - 1).outcome)]
  }

  /** The last answer decides how `_flush()` ends. */
  ghost function ResultOf(script: nat -> Answer, calls: nat, raiseOnError: bool): FlushResult {
    if calls == 0 then Returned else
    var last := script(calls - 1).outcome;
    if last.Cancelled? || (last.OtherError? && raiseOnError) then Raised(last) else Returned
  }

  /** Nothing of the batch had to go back. */
  ghost predicate Complete(script: nat -> Answer, calls: nat) {
    calls > 0 && (script(calls - 1).outcome.Done? || script(calls - 1).outcome.DataError?)
  }

  /** An operation whose flush comes first, then its own backend call; `admitted`: it got that far. */
  ghost function LifecycleEvents(script: nat -> Answer, t: TaskId, calls: nat, backend: Answer, admitted: bool): seq<P.Event> {
    if admitted && (calls == 0 || Complete(script, calls))
    then FlushEvents(script, t, calls) + StoreEvents(backend.arrivals) + [Reply(t, backend.outcome)]
    else FlushEvents(script, t, calls)
  }

  ghost function LifecycleOutcome(script: nat -> Answer, calls: nat, backend: Answer): LifecycleResult {
    if (calls == 0 || Complete(script, calls)) && backend.outcome.Done? then Completed else Failed
  }

  /** The operation has the lock to itself and enters its flush on the next step. */
  ghost predicate MayFlush(s: Sys, t: TaskId, op: P.Op) {
    && s.lock.None? && t in s.tasks && s.tasks[t].op == op && s.tasks[t].phase.LockWait?
    && match op
       case Flush => !s.closing && !s.tasks[t].phase.gated
       case Optimize => !s.closing && s.writesAllowed
       case BeginBackup => !s.closing && s.writesAllowed
       case Close(_) => s.initialized && !s.tasks[t].phase.gated
       case _ => false
  }

  ghost predicate AtBatch(s: Sys, tasks: map<TaskId, Task>, t: TaskId, op: P.Op, batch: seq<Item>) {
    s.lock == Some(t) && s.writesAllowed && s.tasks == tasks[t := Task(op, BatchWrite(batch))]
  }

  ghost predicate AtRow(s: Sys, tasks: map<TaskId, Task>, t: TaskId, op: P.Op, rest: seq<Item>) {
    s.lock == Some(t) && s.writesAllowed && s.tasks == tasks[t := Task(op, RowGate(rest))]
  }

  ghost predicate Left(s: Sys, tasks: map<TaskId, Task>, t: TaskId) {
    s.lock.None? && s.tasks == tasks - {t}
  }

  /** The flush went through: the end of `flush()`, the next await of any other operation. */
  ghost predicate Over(s: Sys, tasks: map<TaskId, Task>, t: TaskId, op: P.Op) {
    if op.Flush? then Left(s, tasks, t) else s.lock == Some(t) && s.tasks == tasks[t := Task(op, Main)]
  }

  ghost predicate Flushed(s: Sys, tasks: map<TaskId, Task>, t: TaskId, op: P.Op, script: nat -> Answer, calls: nat) {
    if calls == 0 || Complete(script, calls) then Over(s, tasks, t, op) else Left(s, tasks, t)
  }

  /** The row to be retried enters the backend through the open gate. */
  lemma RowEnters(s: Sys, tasks: map<TaskId, Task>, t: TaskId, op: P.Op, rest: seq<Item>)
    requires AtRow(s, tasks, t, op, rest)
    ensures var r := Step(s, Advance(t));
            && r == s.(tasks := r.tasks)
            && r.lock == Some(t) && r.writesAllowed && r.tasks == tasks[t := Task(op, RowWrite(rest))]
  {
    hide Step;
    GateEffect(s, t);
  }

  /** Its answer ends the flush or moves on to the next row. */
  lemma RowAnswered(s: Sys, tasks: map<TaskId, Task>, t: TaskId, op: P.Op, rest: seq<Item>, outcome: Outcome)
    requires s.lock == Some(t) && s.writesAllowed && s.tasks == tasks[t := Task(op, RowWrite(rest))] && rest != []
    ensures var r := Step(s, Reply(t, outcome));
            var failed := outcome.OtherError? || outcome.Cancelled?;
            && r == s.(buffer := r.buffer, persisted := r.persisted, drops := r.drops, tasks := r.tasks, lock := r.lock)
            && r.buffer == (if failed then Requeued(s.buffer, rest, s.limit) else s.buffer)
            && r.persisted == (if outcome.Done? then s.persisted + [rest[0]] else s.persisted)
            && if failed then Left(r, tasks, t)
               else if |rest| == 1 then Over(r, tasks, t, op)
               else AtRow(r, tasks, t, op, rest[1..])
  {
    hide Recorded, Requeued, NextRow, Finish;
    GoesOn(s.(persisted := s.persisted + [rest[0]]), tasks, t, op, rest[1..]);
    GoesOn(s, tasks, t, op, rest[1..]);
    FlushLeaves(s.(buffer := Requeued(s.buffer, rest, s.limit)), tasks, t);
  }

  lemma GoesOn(s: Sys, tasks: map<TaskId, Task>, t: TaskId, op: P.Op, next: seq<Item>)
    requires s.lock == Some(t) && s.writesAllowed && t in s.tasks && s.tasks == tasks[t := s.tasks[t]] && s.tasks[t].op == op
    ensures var r := NextRow(s, t, next);
            if next == [] then Over(r, tasks, t, op) else AtRow(r, tasks, t, op, next)
  {
  }

  lemma FlushLeaves(s: Sys, tasks: map<TaskId, Task>, t: TaskId)
    requires s.lock == Some(t) && t in s.tasks && s.tasks == tasks[t := s.tasks[t]]
    ensures Left(Finish(s, t), tasks, t)
  {
  }

  /** So does the answer to the whole batch. */
  lemma BatchAnswered(s: Sys, tasks: map<TaskId, Task>, t: TaskId, op: P.Op, batch: seq<Item>, outcome: Outcome)
    requires AtBatch(s, tasks, t, op, batch) && batch != []
    ensures var r := Step(s, Reply(t, outcome));
            && r == s.(buffer := r.buffer, persisted := r.persisted, drops := r.drops, tasks := r.tasks, lock := r.lock)
            && match outcome
               case Done => r.buffer == s.buffer && r.persisted == s.persisted + batch && Over(r, tasks, t, op)
               case DataError => r.buffer == s.buffer && r.persisted == s.persisted && AtRow(r, tasks, t, op, batch)
               case _ => r.buffer == Requeued(s.buffer, batch, s.limit) && r.persisted == s.persisted && Left(r, tasks, t)
  {
    assert NextRow(s.(persisted := s.persisted + batch), t, []) == AfterFlush(s.(persisted := s.persisted + batch), t);
    hide Recorded, Requeued, NextRow, AfterFlush, Finish;
    GoesOn(s.(persisted := s.persisted + batch), tasks, t, op, []);
    GoesOn(s, tasks, t, op, batch);
    FlushLeaves(s.(buffer := Requeued(s.buffer, batch, s.limit)), tasks, t);
  }

  lemma EvictEffect(s: Sys, t: TaskId, cutoff: int, dryRun: bool)
    requires s.lock == Some(t) && t in s.tasks && s.tasks[t] == Task(P.EvictOlderThan(cutoff, dryRun), Main)
    ensures var r := Step(s, Reply(t, Done));
            && r == s.(buffer := r.buffer, persisted := r.persisted, direct := r.direct, drops := r.drops,
                       tasks := s.tasks - {t}, lock := None)
            && r.buffer == (if dryRun then s.buffer else Since(s.buffer, cutoff))
            && r.persisted == (if dryRun then s.persisted else Since(s.persisted, cutoff))
            && r.direct == (if dryRun then s.direct else Recent(s.direct, cutoff))
  {
    hide Recorded, Since, Recent, Older, BatchReply, RowReply, AfterFlush, NextRow;
  }

  /** A backend call that fails ends the operation and changes nothing. */
  lemma FailureEffect(s: Sys, t: TaskId, outcome: Outcome)
    requires s.lock == Some(t) && t in s.tasks && s.tasks[t].phase.Main? && !outcome.Done?
    ensures Step(s, Reply(t, outcome)) == s.(tasks := s.tasks - {t}, lock := None)
  {
    hide Recorded;
  }

  lemma StoreManyEnters(s: Sys, t: TaskId, telegrams: seq<Telegram>)
    requires s.lock.None? && !s.closing && s.writesAllowed && t in s.tasks
    requires s.tasks[t] == Task(P.StoreMany(telegrams), LockWait(true))
    ensures Step(s, Advance(t)) == s.(lock := Some(t), tasks := s.tasks[t := Task(P.StoreMany(telegrams), Main)])
  {
    hide Recorded;
  }

  lemma StoreManyEffect(s: Sys, t: TaskId, telegrams: seq<Telegram>)
    requires s.lock == Some(t) && t in s.tasks && s.tasks[t] == Task(P.StoreMany(telegrams), Main)
    ensures Step(s, Reply(t, Done)) == s.(direct := s.direct + telegrams, tasks := s.tasks - {t}, lock := None)
  {
    hide Recorded;
  }

  lemma ClearEnters(s: Sys, t: TaskId)
    requires s.lock.None? && !s.closing && s.writesAllowed && t in s.tasks && s.tasks[t] == Task(P.Clear, LockWait(true))
    ensures var r := Step(s, Advance(t));
            r == s.(buffer := [], drops := r.drops, lock := Some(t), tasks := s.tasks[t := Task(P.Clear, Main)])
  {
    hide Recorded;
  }

  lemma ClearEffect(s: Sys, t: TaskId)
    requires s.lock == Some(t) && t in s.tasks && s.tasks[t] == Task(P.Clear, Main)
    ensures var r := Step(s, Reply(t, Done));
            r == s.(persisted := [], direct := [], drops := r.drops, tasks := s.tasks - {t}, lock := None)
  {
    hide Recorded;
  }

  /** A second backup is refused inside the lock. */
  lemma BackupRefused(s: Sys, t: TaskId)
    requires s.lock.None? && !s.closing && !s.writesAllowed && t in s.tasks && s.tasks[t] == Task(P.BeginBackup, LockWait(false))
    ensures var r := Run(s, [Advance(t)]);
            r == s.(tasks := r.tasks, lock := r.lock) && Left(r, s.tasks, t)
  {
    assert [Advance(t)][..0] == [];
    hide Recorded;
  }

  lemma DropsUninitialized(s: Sys, t: TaskId, quiet: bool)
    requires s.lock.None? && s.closing && !s.initialized && t in s.tasks && s.tasks[t] == Task(P.Close(quiet), LockWait(false))
    ensures var r := Run(s, [Advance(t)]);
            r == s.(buffer := [], drops := r.drops, lock := Some(t), tasks := s.tasks[t := Task(P.Close(quiet), Main)])
  {
    assert [Advance(t)][..0] == [];
    hide Recorded;
  }

  /** The backend's answer to begin_backup(), optimize() or close() itself. */
  lemma LastCallEffect(s: Sys, tasks: map<TaskId, Task>, t: TaskId, op: P.Op, outcome: Outcome)
    requires s.lock == Some(t) && s.tasks == tasks[t := Task(op, Main)] && (op.BeginBackup? || op.Optimize? || op.Close?)
    ensures var r := Step(s, Reply(t, outcome));
            && r == s.(writesAllowed := r.writesAllowed, closedQuietly := r.closedQuietly, tasks := r.tasks, lock := r.lock)
            && r.writesAllowed == (s.writesAllowed && !(op.BeginBackup? && outcome.Done?))
            && Left(r, tasks, t)
  {
    hide Recorded, BatchReply, RowReply, EvictedRows;
  }

  lemma EndEffect(s: Sys, t: TaskId, outcome: Outcome)
    requires t in s.tasks && s.lock != Some(t) && s.tasks[t] == Task(P.EndBackup, P.Ending)
    ensures Step(s, Reply(t, outcome)) == s.(writesAllowed := true, tasks := s.tasks - {t})
  {
    hide Recorded;
  }

  lemma NoCalls(script: nat -> Answer, t: TaskId)
    ensures FlushEvents(script, t, 0) == [Advance(t)]
  {
  }

  lemma FirstCall(script: nat -> Answer, t: TaskId)
    ensures FlushEvents(script, t, 1)
            == [Advance(t), Advance(t)] + StoreEvents(script(0).arrivals) + [Reply(t, script(0).outcome)]
  {
    assert [Advance(t)] + [Advance(t)] == [Advance(t), Advance(t)];
  }

  lemma OneMoreCall(script: nat -> Answer, t: TaskId, calls: nat)
    ensures FlushEvents(script, t, calls + 1)
            == FlushEvents(script, t, calls) + [Advance(t)] + StoreEvents(script(calls).arrivals)
               + [Reply(t, script(calls).outcome)]
  {
  }

  // ---- Effects of single protocol steps, field by field ----

  lemma RunNone(s: Sys)
    ensures Run(s, []) == s
  {
  }

  lemma RunOneMore(s: Sys, events: seq<Event>, e: Event)
    ensures Run(s, events + [e]) == Step(Run(s, events), e)
  {
    assert (events + [e])[..|events|] == events;
  }

  lemma StoreEffect(s: Sys, telegram: Telegram)
    requires s.limit >= 1
    ensures var r := Step(s, P.Store(telegram));
            r == s.(drops := r.drops,
                    buffer := if s.closing then s.buffer else Append(s.buffer, Item(s.accepted, telegram), s.limit),
                    accepted := if s.closing then s.accepted else s.accepted + 1)
  {
    hide Recorded;
  }

  lemma FlushStartEffect(s: Sys, t: TaskId, op: P.Op)
    requires MayFlush(s, t, op)
    ensures var r := Step(s, Advance(t));
            if !s.writesAllowed || s.buffer == [] then r == s.(tasks := r.tasks, lock := r.lock) && Over(r, s.tasks, t, op)
            else r == s.(buffer := [], lock := Some(t), tasks := s.tasks[t := Task(op, BatchGate(s.buffer))])
  {
    hide Recorded;
  }

  lemma SkippedFlush(s: Sys, t: TaskId, op: P.Op)
    requires MayFlush(s, t, op) && (!s.writesAllowed || s.buffer == [])
    ensures var r := Run(s, [Advance(t)]);
            r == s.(tasks := r.tasks, lock := r.lock) && Over(r, s.tasks, t, op)
  {
    hide Step, Over, MayFlush;
    FlushStartEffect(s, t, op);
    RunOneMore(s, [], Advance(t));
    assert [] + [Advance(t)] == [Advance(t)];
  }

  /** Detaching the buffer and entering the backend through the open gate. */
  lemma DetachEffect(s: Sys, t: TaskId, op: P.Op)
    requires MayFlush(s, t, op) && s.writesAllowed && s.buffer != []
    ensures Run(s, [Advance(t), Advance(t)])
            == s.(buffer := [], lock := Some(t), tasks := s.tasks[t := Task(op, BatchWrite(s.buffer))])
  {
    hide Step, Over, MayFlush;
    FlushStartEffect(s, t, op);
    RunOneMore(s, [], Advance(t));
    assert [] + [Advance(t)] == [Advance(t)];
    GateEffect(Run(s, [Advance(t)]), t);
    RunOneMore(s, [Advance(t)], Advance(t));
    assert [Advance(t)] + [Advance(t)] == [Advance(t), Advance(t)];
  }

  lemma GateEffect(s: Sys, t: TaskId)
    requires t in s.tasks && s.writesAllowed && (s.tasks[t].phase.BatchGate? || s.tasks[t].phase.RowGate?)
    ensures var p := s.tasks[t].phase;
            var next := if p.BatchGate? then BatchWrite(p.batch) else RowWrite(p.rest);
            Step(s, Advance(t)) == s.(tasks := s.tasks[t := s.tasks[t].(phase := next)])
  {
    hide Recorded, Enter;
  }
}
