/** What holds over every interleaving of the buffer protocol. */
module BufferResults {
  import opened Wrappers
  import opened DropOldest
  import opened BufferProtocol
  import opened BufferInvariant
  import opened BufferDrops

  // ---- Main results ----

  /** How many of the four places a ticket is in. */
  ghost function Places(s: Sys, n: nat): nat {
    (if n in Tickets(s.persisted) then 1 else 0) + (if n in Tickets(InFlight(s)) then 1 else 0)
    + (if n in Tickets(s.buffer) then 1 else 0) + (if n in s.drops then 1 else 0)
  }

  lemma OrderedPartsAreDisjoint(a: seq<Item>, b: seq<Item>, c: seq<Item>)
    requires Ordered(a + b + c)
    ensures Tickets(a) !! Tickets(b) !! Tickets(c)
    ensures Ordered(a) && Ordered(b) && Ordered(c)
  {
    hide Ordered, Tickets;
    OrderedParts(a + b, c);
    OrderedParts(a, b);
    TicketsConcat(a, b);
  }

  /**
   Over every interleaving: each accepted telegram is in exactly one of backend, flight, buffer and
   recorded drops, and each drop goes back to a step with good reason for it; what the backend holds
   is in acceptance order; the buffer keeps its limit.
   */
  lemma NoTelegramIsLostOrDoubled(limit: nat, events: seq<Event>, n: nat)
    requires limit >= 1
    ensures var s := Run(Init(limit), events);
            && |s.buffer| <= limit && Ordered(s.persisted)
            && (n < s.accepted ==> Places(s, n) == 1)
            && (n >= s.accepted ==> Places(s, n) == 0)
            && (n in s.drops ==> exists k :: 0 <= k < |events| && DroppedBy(Init(limit), events, n, k))
  {
    RunKeepsInvariant(limit, events);
    KeepsLimit(Init(limit), events);
    var s := Run(Init(limit), events);
    OrderedPartsAreDisjoint(s.persisted, InFlight(s), s.buffer);
    TicketsConcat(s.persisted + InFlight(s), s.buffer);
    TicketsConcat(s.persisted, InFlight(s));
    assert n in HandedOut(s.accepted) <==> n in Tickets(Line(s)) + s.drops.Keys;
    if n in s.drops {
      hide Step, Invariant, Run;
      var k := EveryDropIsJustified(limit, events, n);
    }
  }

  lemma {:induction false} KeepsLimit(s: Sys, events: seq<Event>)
    ensures Run(s, events).limit == s.limit
  {
    hide Step;
    if events != [] {
      KeepsLimit(s, events[..|events| - 1]);
    }
  }

  /** Inside the mutation lock nothing waits for end_backup(): a nested store_many() finds the gate open. */
  lemma HolderNeverWaitsForBackup(limit: nat, events: seq<Event>, t: TaskId)
    requires limit >= 1 && Run(Init(limit), events).lock == Some(t)
    ensures var s := Run(Init(limit), events);
            && t in s.tasks && !s.tasks[t].phase.GateWait?
            && (s.tasks[t].phase.BatchGate? ==> Step(s, Advance(t)).tasks[t].phase.BatchWrite?)
            && (s.tasks[t].phase.RowGate? ==> Step(s, Advance(t)).tasks[t].phase.RowWrite?)
  {
    RunKeepsInvariant(limit, events);
  }

  /** A task cancelled while it waits is over and leaves everything else as it was: what others hold, and the lock. */
  lemma CancelledWaiterLeavesNoTrace(s: Sys, t: TaskId)
    requires Invariant(s) && t in s.tasks && (s.tasks[t].phase.GateWait? || s.tasks[t].phase.LockWait?)
    ensures Step(s, Cancel(t)) == s.(tasks := s.tasks - {t})
    ensures Line(Step(s, Cancel(t))) == Line(s)
  {
    TaskFacts(s, t);
    hide Invariant, LedgerOk, Recorded;
  }

  /** After a quiet close() has returned normally nothing is left behind, then or later. */
  lemma QuietCloseLeavesNothing(limit: nat, events: seq<Event>)
    requires limit >= 1 && Run(Init(limit), events).closedQuietly
    ensures Run(Init(limit), events).buffer == [] && InFlight(Run(Init(limit), events)) == []
  {
    RunKeepsInvariant(limit, events);
  }

  // ---- A failed flush, seen from the buffer ----

  /** The telegrams accepted during a run, with their tickets. */
  ghost function Arrivals(s: Sys, events: seq<Event>): seq<Item> {
    if events == [] then []
    else
      var n := |events| - 1;
      var before := Run(s, events[..n]);
      Arrivals(s, events[..n])
      + (if events[n].Store? && !before.closing then [Item(before.accepted, events[n].telegram)] else [])
  }

  ghost predicate NotAnswered(events: seq<Event>, t: TaskId) {
    forall e :: e in events ==> !(e.Reply? && e.t == t)
  }

  predicate Waiting(p: Phase) {
    p.GateWait? || p.LockWait? || p.Ending?
  }

  /** A step of a task outside the lock, while another holds it, leaves lock, flight and buffer alone. */
  lemma OutsiderKeepsFlight(s: Sys, t: TaskId, u: TaskId, e: Event)
    requires s.lock == Some(t) && t in s.tasks && u != t && (u in s.tasks ==> Waiting(s.tasks[u].phase))
    requires e in {Advance(u), Cancel(u)} || (e.Reply? && e.t == u) || (e.Call? && e.t == u)
    ensures var r := Step(s, e);
            r.lock == Some(t) && t in r.tasks && r.tasks[t] == s.tasks[t] && r.buffer == s.buffer
  {
    hide Enter, BatchReply, RowReply, MainReply, Recorded, Line, InFlight;
  }

  /** So does the holder's own step through the open gate. */
  lemma HolderEntersBackend(s: Sys, t: TaskId, e: Event)
    requires s.lock == Some(t) && t in s.tasks && Detached(s.tasks[t].phase) != []
    requires e in {Advance(t), Cancel(t)} || (e.Call? && e.t == t)
    ensures var r := Step(s, e);
            r.lock == Some(t) && t in r.tasks && Detached(r.tasks[t].phase) == Detached(s.tasks[t].phase) && r.buffer == s.buffer
  {
    hide Enter, Recorded, Line, InFlight;
  }

  lemma OthersWait(s: Sys, t: TaskId, u: TaskId)
    requires Invariant(s) && s.lock == Some(t)
    ensures t in s.tasks && (u in s.tasks && u != t ==> Waiting(s.tasks[u].phase))
  {
  }

  /** While a batch is detached only `store()` reaches the buffer, whatever the other tasks do. */
  lemma BufferOnlyGrowsInFlight(s: Sys, t: TaskId, e: Event)
    requires Invariant(s) && s.lock == Some(t) && InFlight(s) != [] && !(e.Reply? && e.t == t)
    ensures var r := Step(s, e);
            && r.lock == Some(t) && InFlight(r) == InFlight(s)
            && r.buffer == if e.Store? && !s.closing then Append(s.buffer, Item(s.accepted, e.telegram), s.limit) else s.buffer
  {
    OthersWait(s, t, t);
    match e {
      case Store(telegram) =>
        assert s.limit >= 1;
        hide Invariant, Recorded, Line, Append;
      case Initialized =>
      case _ =>
        OthersWait(s, t, e.t);
        hide Invariant, Step;
        if e.t == t {
          HolderEntersBackend(s, t, e);
        } else {
          OutsiderKeepsFlight(s, t, e.t, e);
        }
    }
  }

  lemma OneMoreAppended(buffer: seq<Item>, items: seq<Item>, item: Item, limit: nat)
    requires limit >= 1
    ensures AppendAll(buffer, items + [item], limit) == Append(AppendAll(buffer, items, limit), item, limit)
  {
    assert (items + [item])[..|items|] == items;
  }

  lemma {:induction false} BufferWhileInFlight(s: Sys, t: TaskId, events: seq<Event>)
    requires Invariant(s) && s.lock == Some(t) && InFlight(s) != [] && NotAnswered(events, t)
    ensures var r := Run(s, events);
            && Invariant(r) && r.lock == Some(t) && InFlight(r) == InFlight(s) && r.limit == s.limit >= 1
            && r.buffer == AppendAll(s.buffer, Arrivals(s, events), s.limit)
  {
    assert s.limit >= 1;
    hide Step, InFlight, Invariant, Append;
    if events != [] {
      var n := |events| - 1;
      BufferWhileInFlight(s, t, events[..n]);
      var before := Run(s, events[..n]);
      BufferOnlyGrowsInFlight(before, t, events[n]);
      StepKeepsInvariant(before, events[n]);
      if events[n].Store? && !before.closing {
        OneMoreAppended(s.buffer, Arrivals(s, events[..n]), Item(before.accepted, events[n].telegram), s.limit);
      } else {
        assert Arrivals(s, events) == Arrivals(s, events[..n]);
      }
    }
  }

  lemma FailedWriteRequeues(s: Sys, t: TaskId, batch: seq<Item>, outcome: Outcome)
    requires t in s.tasks && s.tasks[t].phase == BatchWrite(batch) && outcome in {OtherError, Cancelled}
    ensures var r := Step(s, Reply(t, outcome));
            r.buffer == Requeued(s.buffer, batch, s.limit) && r.persisted == s.persisted
  {
    hide Recorded;
  }

  /**
   A flush whose first write fails for any reason but the data, or is cancelled, is invisible over
   every interleaving: from the moment the batch was detached, the buffer ends up as that of a
   drop-oldest queue that kept the batch and took the same arrivals.
   */
  lemma FailedFlushLeavesNoTrace(s: Sys, t: TaskId, batch: seq<Item>, events: seq<Event>, outcome: Outcome)
    requires Invariant(s) && s.lock == Some(t) && t in s.tasks && s.tasks[t].phase == BatchGate(batch)
    requires s.buffer == [] && |batch| <= s.limit
    requires NotAnswered(events, t) && outcome in {OtherError, Cancelled}
    requires t in Run(s, events).tasks && Run(s, events).tasks[t].phase.BatchWrite?
    ensures Step(Run(s, events), Reply(t, outcome)).buffer == AppendAll(batch, Arrivals(s, events), s.limit)
    ensures Step(Run(s, events), Reply(t, outcome)).persisted == Run(s, events).persisted
  {
    assert s.limit >= 1;
    TaskFacts(s, t);
    hide Invariant, Step, Run, Arrivals, Requeued, AppendAll;
    BufferWhileInFlight(s, t, events);
    FailedWriteRequeues(Run(s, events), t, batch, outcome);
    FailedFlushIsInvisible(batch, Arrivals(s, events), s.limit);
  }

  /** Detaching takes the whole buffer, which is never more than the limit. */
  lemma DetachTakesTheBuffer(s: Sys, t: TaskId)
    requires Invariant(s) && t in s.tasks && s.tasks[t].phase.LockWait?
    requires t in Step(s, Advance(t)).tasks && Step(s, Advance(t)).tasks[t].phase.BatchGate?
    ensures var r := Step(s, Advance(t));
            && Invariant(r) && r.lock == Some(t) && r.tasks[t].phase == BatchGate(s.buffer)
            && r.buffer == [] && |s.buffer| <= r.limit && r.persisted == s.persisted
  {
    assert |s.buffer| <= s.limit;
    hide Invariant, Step;
    StepKeepsInvariant(s, Advance(t));
    DetachStep(s, t);
  }

  lemma DetachStep(s: Sys, t: TaskId)
    requires t in s.tasks && s.tasks[t].phase.LockWait?
    requires t in Step(s, Advance(t)).tasks && Step(s, Advance(t)).tasks[t].phase.BatchGate?
    ensures var r := Step(s, Advance(t));
            && r.lock == Some(t) && r.tasks[t].phase == BatchGate(s.buffer)
            && r.buffer == [] && r.limit == s.limit && r.persisted == s.persisted
  {
    hide Recorded, Enter;
    assert Step(s, Advance(t)) == Enter(s.(lock := Some(t)), t);
    EnterDetaches(s.(lock := Some(t)), t);
  }

  lemma EnterDetaches(s: Sys, t: TaskId)
    requires t in s.tasks && s.lock == Some(t) && t in Enter(s, t).tasks && Enter(s, t).tasks[t].phase.BatchGate?
    ensures var r := Enter(s, t);
            r.lock == Some(t) && r.tasks[t].phase == BatchGate(s.buffer) && r.buffer == []
  {
    assert Enter(s, t) == StartFlush(s, t) by { hide StartFlush, Recorded, Line; }
    hide Enter, Recorded, Line;
  }

  lemma {:induction false} RecentKeepsTheYoung(telegrams: seq<Telegram>, cutoff: int, x: Telegram)
    ensures x in Recent(telegrams, cutoff) <==> x in telegrams && x.timestamp >= cutoff
  {
    if telegrams != [] {
      var n := |telegrams| - 1;
      RecentKeepsTheYoung(telegrams[..n], cutoff, x);
      assert telegrams == telegrams[..n] + [telegrams[n]];
    }
  }

  /** What an eviction leaves: the rows and buffered telegrams that are not older than the cutoff; a dry run leaves all. */
  lemma EvictionIsExact(s: Sys, t: TaskId, cutoff: int, dryRun: bool, x: Item)
    requires t in s.tasks && s.tasks[t] == Task(EvictOlderThan(cutoff, dryRun), Main)
    ensures var r := Step(s, Reply(t, Done));
            && (x in r.persisted <==> x in s.persisted && (dryRun || x.telegram.timestamp >= cutoff))
            && (x in r.buffer <==> x in s.buffer && (dryRun || x.telegram.timestamp >= cutoff))
            && (x.telegram in r.direct <==> x.telegram in s.direct && (dryRun || x.telegram.timestamp >= cutoff))
  {
    SinceKeepsTheYoung(s.persisted, cutoff, x);
    SinceKeepsTheYoung(s.buffer, cutoff, x);
    RecentKeepsTheYoung(s.direct, cutoff, x.telegram);
    hide Step, Since, Recent;
    EvictionFields(s, t, cutoff, dryRun);
  }

  lemma EvictionFields(s: Sys, t: TaskId, cutoff: int, dryRun: bool)
    requires t in s.tasks && s.tasks[t] == Task(EvictOlderThan(cutoff, dryRun), Main)
    ensures var r := Step(s, Reply(t, Done));
            if dryRun then r.persisted == s.persisted && r.buffer == s.buffer && r.direct == s.direct
            else
              && r.persisted == Since(s.persisted, cutoff) && r.buffer == Since(s.buffer, cutoff)
              && r.direct == Recent(s.direct, cutoff)
  {
    hide Recorded, Since, Recent;
  }
}
