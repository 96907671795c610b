/**
 The write buffer as a state machine. One step is what a task does between two `await`s; any task
 may take the next step, so a run is an arbitrary interleaving. The backend is an atomic
 commit-or-fail: each of its calls is answered by one `Reply`. An event that is not possible in a
 state leaves it unchanged.
 */
module BufferProtocol {
  import opened Wrappers
  import opened DropOldest

  type TaskId = nat

  /** How an awaited backend call ends; every failure leaves the backend as it was. */
  datatype Outcome = Done | DataError | OtherError | Cancelled

  datatype Op =
    | Flush
    | StoreMany(telegrams: seq<Telegram>)
    | Optimize
    | BeginBackup
    | EndBackup
    | EvictOlderThan(cutoff: int, dryRun: bool)
    | Clear
    | Close(quiet: bool)  // quiet: no begin_backup() held the mutation lock when close() started

  datatype Phase =
    | GateWait                 // waiting for end_backup()
    | LockWait(gated: bool)    // waiting for the mutation lock; gated: look at the gate again then
    | BatchGate(batch: seq<Item>)   // holding the lock with a detached batch, entering store_many()
    | BatchWrite(batch: seq<Item>)  // the batch is at the backend
    | RowGate(rest: seq<Item>)      // retrying row by row: rest[0] enters store_many()
    | RowWrite(rest: seq<Item>)     // rest[0] is at the backend
    | Main                     // holding the lock in the operation's own backend call
    | Ending                   // awaiting the backend's end_backup()

  datatype Task = Task(op: Op, phase: Phase)

  datatype Reason = Overflow | Unstorable | Evicted | Cleared | NeverInitialized

  datatype Sys = Sys(
    limit: nat,
    buffer: seq<Item>,
    accepted: nat,              // tickets handed out so far
    persisted: seq<Item>,       // rows the backend holds that came through the buffer, in commit order
    direct: seq<Telegram>,      // rows written by store_many() calls of the host
    drops: map<nat, Reason>,    // tickets recorded as dropped
    closing: bool, initialized: bool, writesAllowed: bool,
    lock: Option<TaskId>, tasks: map<TaskId, Task>,
    closedQuietly: bool)        // a quiet close() of this store has returned normally

  datatype Event =
    | Store(telegram: Telegram)
    | Initialized
    | Call(t: TaskId, op: Op)
    | Advance(t: TaskId)
    | Reply(t: TaskId, outcome: Outcome)
    | Cancel(t: TaskId)         // while waiting for the gate or the lock

  function Init(limit: nat): Sys {
    Sys(limit, [], 0, [], [], map[], false, false, true, None, map[], false)
  }

  predicate HoldsLock(p: Phase) {
    p.BatchGate? || p.BatchWrite? || p.RowGate? || p.RowWrite? || p.Main?
  }

  function Detached(p: Phase): seq<Item> {
    match p
    case BatchGate(b) => b case BatchWrite(b) => b
    case RowGate(r) => r case RowWrite(r) => r
    case _ => []
  }

  function InFlight(s: Sys): seq<Item> {
    if s.lock.Some? && s.lock.value in s.tasks then Detached(s.tasks[s.lock.value].phase) else []
  }

  // ---- Steps ----

  /** Everything not dropped, from the backend to the newest in the buffer. */
  function Line(s: Sys): seq<Item> {
    s.persisted + InFlight(s) + s.buffer
  }

  /** The step drops these items, and says why. */
  ghost function Recorded(after: Sys, lost: seq<Item>, reason: Reason): (r: Sys)
    ensures r == after.(drops := r.drops)
  {
    after.(drops := after.drops + (map n | n in Tickets(lost) :: reason))
  }

  function WithPhase(s: Sys, t: TaskId, p: Phase): (r: Sys)
    requires t in s.tasks
    ensures r == s.(tasks := r.tasks)
  {
    s.(tasks := s.tasks[t := s.tasks[t].(phase := p)])
  }

  /** The task is over; it leaves the lock if it held it. */
  function Finish(s: Sys, t: TaskId): (r: Sys)
    ensures r == s.(tasks := r.tasks, lock := r.lock)
  {
    s.(tasks := s.tasks - {t}, lock := if s.lock == Some(t) then None else s.lock)
  }

  ghost function StoreStep(s: Sys, telegram: Telegram): (r: Sys)
    requires s.limit >= 1
    ensures r == s.(buffer := r.buffer, accepted := r.accepted, drops := r.drops)
  {
    if s.closing then s
    else
      var after := s.(buffer := Append(s.buffer, Item(s.accepted, telegram), s.limit), accepted := s.accepted + 1);
      Recorded(after, Popped(s.buffer, s.limit), Overflow)
  }

  function CallStep(s: Sys, t: TaskId, op: Op): (r: Sys)
    ensures r == s.(closing := r.closing, tasks := r.tasks)
  {
    if t in s.tasks then s else
    match op
    case Flush => s.(tasks := s.tasks[t := Task(op, LockWait(false))])
    case BeginBackup => s.(tasks := s.tasks[t := Task(op, LockWait(false))])
    case EndBackup => if s.writesAllowed then s else s.(tasks := s.tasks[t := Task(op, Ending)])
    case Close(_) =>
      var quiet := !(s.lock.Some? && s.lock.value in s.tasks && s.tasks[s.lock.value].op.BeginBackup?);
      var phase := if s.writesAllowed then LockWait(false) else Ending;
      s.(closing := true, tasks := s.tasks[t := Task(Close(quiet), phase)])
    case _ => s.(tasks := s.tasks[t := Task(op, GateWait)])
  }

  /** A nested flush returned normally: on to the operation's own backend call, if it has one. */
  function AfterFlush(s: Sys, t: TaskId): (r: Sys)
    requires t in s.tasks
    ensures r == s.(tasks := r.tasks, lock := r.lock)
  {
    if s.tasks[t].op.Flush? then Finish(s, t) else WithPhase(s, t, Main)
  }

  /** `_flush` up to its first await. */
  function StartFlush(s: Sys, t: TaskId): (r: Sys)
    requires t in s.tasks
    ensures r == s.(buffer := r.buffer, tasks := r.tasks, lock := r.lock)
  {
    if !s.writesAllowed || s.buffer == [] then AfterFlush(s, t)
    else WithPhase(s.(buffer := []), t, BatchGate(s.buffer))
  }

  ghost function DropBuffer(s: Sys, reason: Reason): (r: Sys)
    ensures r == s.(buffer := [], drops := r.drops)
  {
    Recorded(s.(buffer := []), s.buffer, reason)
  }

  /** What an operation does on getting the mutation lock, up to its next await. */
  ghost function Enter(s: Sys, t: TaskId): (r: Sys)
    requires t in s.tasks
    ensures r == s.(buffer := r.buffer, drops := r.drops, tasks := r.tasks, lock := r.lock)
  {
    match s.tasks[t].op
    case Flush => StartFlush(s, t)
    case Optimize => StartFlush(s, t)
    case BeginBackup => if !s.writesAllowed then Finish(s, t) else StartFlush(s, t)
    case Clear => DropBuffer(WithPhase(s, t, Main), Cleared)
    case Close(_) =>
      if s.initialized then StartFlush(s, t) else DropBuffer(WithPhase(s, t, Main), NeverInitialized)
    case _ => WithPhase(s, t, Main)
  }

  ghost function AdvanceStep(s: Sys, t: TaskId): (r: Sys)
    ensures r == s.(buffer := r.buffer, drops := r.drops, tasks := r.tasks, lock := r.lock)
  {
    if t !in s.tasks then s else
    match s.tasks[t].phase
    case GateWait => if s.writesAllowed then WithPhase(s, t, LockWait(true)) else s
    case LockWait(gated) =>
      if s.lock.Some? then s
      else if s.closing && !s.tasks[t].op.Close? then Finish(s, t)
      else if gated && !s.writesAllowed then WithPhase(s, t, GateWait)
      else Enter(s.(lock := Some(t)), t)
    case BatchGate(b) => if s.writesAllowed then WithPhase(s, t, BatchWrite(b)) else s
    case RowGate(r) => if s.writesAllowed then WithPhase(s, t, RowWrite(r)) else s
    case _ => s
  }

  /** Back into the buffer, and the failure ends the operation. */
  ghost function RequeueStep(s: Sys, t: TaskId, items: seq<Item>): (r: Sys)
    ensures r == s.(buffer := r.buffer, drops := r.drops, tasks := r.tasks, lock := r.lock)
  {
    Recorded(Finish(s.(buffer := Requeued(s.buffer, items, s.limit)), t), CutOff(s.buffer, items, s.limit), Overflow)
  }

  function NextRow(s: Sys, t: TaskId, rest: seq<Item>): (r: Sys)
    requires t in s.tasks
    ensures r == s.(tasks := r.tasks, lock := r.lock)
  {
    if rest == [] then AfterFlush(s, t) else WithPhase(s, t, RowGate(rest))
  }

  ghost function BatchReply(s: Sys, t: TaskId, batch: seq<Item>, outcome: Outcome): (r: Sys)
    requires t in s.tasks
    ensures r == s.(buffer := r.buffer, persisted := r.persisted, drops := r.drops, tasks := r.tasks, lock := r.lock)
  {
    match outcome
    case Done => AfterFlush(s.(persisted := s.persisted + batch), t)
    case DataError => NextRow(s, t, batch)
    case _ => RequeueStep(s, t, batch)
  }

  ghost function RowReply(s: Sys, t: TaskId, rest: seq<Item>, outcome: Outcome): (r: Sys)
    requires t in s.tasks && rest != []
    ensures r == s.(buffer := r.buffer, persisted := r.persisted, drops := r.drops, tasks := r.tasks, lock := r.lock)
  {
    match outcome
    case Done => NextRow(s.(persisted := s.persisted + [rest[0]]), t, rest[1..])
    case DataError => Recorded(NextRow(s, t, rest[1..]), [rest[0]], Unstorable)
    case _ => RequeueStep(s, t, rest)
  }

  ghost function MainReply(s: Sys, t: TaskId, outcome: Outcome): (r: Sys)
    requires t in s.tasks
    ensures r.limit == s.limit && r.accepted == s.accepted && r.closing == s.closing
  {
    if !outcome.Done? then Finish(s, t) else
    match s.tasks[t].op
    case StoreMany(telegrams) => Finish(s.(direct := s.direct + telegrams), t)
    case BeginBackup => Finish(s.(writesAllowed := false), t)
    case EvictOlderThan(cutoff, dryRun) =>
      if dryRun then Finish(s, t)
      else Recorded(Finish(EvictedRows(s, cutoff), t), Older(s.persisted, cutoff) + Older(s.buffer, cutoff), Evicted)
    case Clear => Recorded(Finish(s.(persisted := [], direct := []), t), s.persisted, Cleared)
    case Close(quiet) => Finish(s.(closedQuietly := s.closedQuietly || quiet), t)
    case _ => Finish(s, t)
  }

  function EvictedRows(s: Sys, cutoff: int): Sys {
    s.(persisted := Since(s.persisted, cutoff), direct := Recent(s.direct, cutoff), buffer := Since(s.buffer, cutoff))
  }

  ghost function ReplyStep(s: Sys, t: TaskId, outcome: Outcome): (r: Sys)
    ensures r.limit == s.limit && r.accepted == s.accepted && r.closing == s.closing
  {
    if t !in s.tasks then s else
    match s.tasks[t].phase
    case BatchWrite(b) => BatchReply(s, t, b, outcome)
    case RowWrite(r) => if r == [] then s else RowReply(s, t, r, outcome)
    case Main => MainReply(s, t, outcome)
    case Ending =>
      var open := s.(writesAllowed := true);
      if s.tasks[t].op.Close? && outcome.Done? then WithPhase(open, t, LockWait(false)) else Finish(open, t)
    case _ => s
  }

  function CancelStep(s: Sys, t: TaskId): (r: Sys)
    ensures r == s.(tasks := r.tasks, lock := r.lock)
  {
    if t in s.tasks && (s.tasks[t].phase.GateWait? || s.tasks[t].phase.LockWait?) then Finish(s, t) else s
  }

  ghost function Step(s: Sys, e: Event): (r: Sys)
    ensures r.limit == s.limit && s.accepted <= r.accepted && (s.closing ==> r.closing)
  {
    match e
    case Store(telegram) => if s.limit >= 1 then StoreStep(s, telegram) else s
    case Initialized => s.(initialized := true)
    case Call(t, op) => CallStep(s, t, op)
    case Advance(t) => AdvanceStep(s, t)
    case Reply(t, outcome) => ReplyStep(s, t, outcome)
    case Cancel(t) => CancelStep(s, t)
  }

  ghost function Run(s: Sys, events: seq<Event>): Sys {
    if events == [] then s else Step(Run(s, events[..|events| - 1]), events[|events| - 1])
  }
}
