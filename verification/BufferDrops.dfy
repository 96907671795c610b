/** Why a telegram may be dropped: every entry of the ledger, over every interleaving, has its good reason. */
module BufferDrops {
  import opened Wrappers
  import opened DropOldest
  import opened BufferProtocol
  import opened BufferInvariant

  /** The task is inside the lock when it takes the step. */
  ghost predicate Inside(s: Sys, t: TaskId) {
    t in s.tasks && s.lock == Some(t)
  }

  /** The step `e` had a reason to drop ticket `n`. */
  ghost predicate Justified(s: Sys, e: Event, n: nat, reason: Reason) {
    var r := Step(s, e);
    match reason
    case Overflow => Overflows(r, n)
    case Unstorable =>
      && e.Reply? && e.outcome.DataError? && Inside(s, e.t) && s.tasks[e.t].phase.RowWrite?
      && s.tasks[e.t].phase.rest != [] && s.tasks[e.t].phase.rest[0].ticket == n
    case Evicted =>
      && e.Reply? && e.outcome.Done? && Inside(s, e.t) && s.tasks[e.t].phase.Main?
      && s.tasks[e.t].op.EvictOlderThan? && !s.tasks[e.t].op.dryRun
      && exists x :: (x in s.persisted || x in s.buffer) && x.ticket == n && x.telegram.timestamp < s.tasks[e.t].op.cutoff
    case Cleared =>
      || (e.Advance? && e.t in s.tasks && s.tasks[e.t].op.Clear? && r.lock == Some(e.t) && n in Tickets(s.buffer))
      || (e.Reply? && e.outcome.Done? && Inside(s, e.t) && s.tasks[e.t].phase.Main?
          && s.tasks[e.t].op.Clear? && n in Tickets(s.persisted))
    case NeverInitialized =>
      && e.Advance? && e.t in s.tasks && s.tasks[e.t].op.Close? && !s.initialized && s.closing
      && r.lock == Some(e.t) && n in Tickets(s.buffer)
  }

  /** Afterwards the buffer is at its limit, and everything in it is younger. */
  ghost predicate Overflows(r: Sys, n: nat) {
    |r.buffer| == r.limit && forall x :: x in r.buffer ==> n < x.ticket
  }

  /** A step that books exactly `lost`, all of it held until now. */
  ghost predicate Books(s: Sys, r: Sys, lost: seq<Item>, reason: Reason) {
    && Tickets(lost) <= Tickets(Line(s))
    && r.drops == s.drops + map n | n in Tickets(lost) :: reason
  }

  ghost predicate BooksNothing(s: Sys, r: Sys) {
    r.drops == s.drops
  }

  // ---- What each step books ----

  lemma BufferIsHeld(s: Sys)
    ensures Tickets(s.persisted) <= Tickets(Line(s)) && Tickets(InFlight(s)) <= Tickets(Line(s))
    ensures Tickets(s.buffer) <= Tickets(Line(s))
  {
    TicketsConcat(s.persisted, InFlight(s));
    TicketsConcat(s.persisted + InFlight(s), s.buffer);
  }

  lemma PartIsHeld(part: seq<Item>, whole: seq<Item>)
    requires forall x :: x in part ==> x in whole
    ensures Tickets(part) <= Tickets(whole)
  {
  }

  lemma InvariantFacts(s: Sys)
    requires Invariant(s)
    ensures Ordered(Line(s)) && Ledger(Line(s), s.drops.Keys, s.accepted) && s.limit >= 1 && |s.buffer| <= s.limit
    ensures Tickets(Line(s)) !! s.drops.Keys
  {
  }

  lemma StoreBooks(s: Sys, telegram: Telegram)
    requires Invariant(s) && !s.closing
    ensures Books(s, StoreStep(s, telegram), Popped(s.buffer, s.limit), Overflow)
    ensures forall n :: n in Tickets(Popped(s.buffer, s.limit)) ==> Overflows(StoreStep(s, telegram), n)
  {
    InvariantFacts(s);
    var (item, out) := (Item(s.accepted, telegram), Popped(s.buffer, s.limit));
    var end := Append(s.buffer, item, s.limit);
    hide Invariant;
    BufferIsHeld(s);
    PartIsHeld(out, s.buffer);
    assert out != [] ==> |end| == s.limit;
    PoppedAreOlder(s.persisted + InFlight(s), s.buffer, item, s.limit, s.drops.Keys, s.accepted);
  }

  lemma PoppedAreOlder(front: seq<Item>, buffer: seq<Item>, item: Item, limit: nat, drops: set<nat>, accepted: nat)
    requires 1 <= limit && Ledger(front + buffer, drops, accepted) && item.ticket == accepted
    ensures AllBefore(Popped(buffer, limit), Append(buffer, item, limit))
  {
    NewTicket(front + buffer, item, drops, accepted);
    LedgerIsOrdered(front + buffer + [item], drops, accepted + 1);
    hide Ledger, Ordered, Popped, Append, AllBefore;
    PoppedAndAppended(buffer, item, limit);
    Shift(front, buffer, [item]);
    OrderedParts(front, buffer + [item]);
    OrderedParts(Popped(buffer, limit), Append(buffer, item, limit));
  }

  lemma RequeueBooks(s: Sys, t: TaskId, items: seq<Item>)
    requires Invariant(s) && InFlight(s) == items
    ensures Books(s, RequeueStep(s, t, items), CutOff(s.buffer, items, s.limit), Overflow)
    ensures forall n :: n in Tickets(CutOff(s.buffer, items, s.limit)) ==> Overflows(RequeueStep(s, t, items), n)
  {
    InvariantFacts(s);
    var (lost, kept) := (CutOff(s.buffer, items, s.limit), Requeued(s.buffer, items, s.limit));
    assert lost != [] ==> |kept| == s.limit;
    CutOffAndRequeued(s.buffer, items, s.limit);
    Shift(s.persisted, items, s.buffer);
    hide Invariant, Ordered, Tickets, CutOff, Requeued, InFlight;
    OrderedParts(s.persisted, lost + kept);
    OrderedParts(lost, kept);
    TicketsConcat(s.persisted, lost + kept);
    TicketsConcat(lost, kept);
    assert RequeueStep(s, t, items).buffer == kept;
  }

  lemma RowBooks(s: Sys, t: TaskId, rest: seq<Item>)
    requires InFlight(s) == rest && rest != [] && t in s.tasks
    ensures Books(s, RowReply(s, t, rest, DataError), [rest[0]], Unstorable)
    ensures Tickets([rest[0]]) == {rest[0].ticket}
  {
    BufferIsHeld(s);
    assert rest[0] in rest;
    PartIsHeld([rest[0]], rest);
    OneTicket(rest[0]);
    hide NextRow, InFlight, Line;
    assert NextRow(s, t, rest[1..]).drops == s.drops;
  }

  lemma EvictionBooks(s: Sys, t: TaskId, cutoff: int)
    requires t in s.tasks && s.tasks[t].op == EvictOlderThan(cutoff, false)
    ensures var lost := Older(s.persisted, cutoff) + Older(s.buffer, cutoff);
            && Books(s, MainReply(s, t, Done), lost, Evicted)
            && forall n :: n in Tickets(lost) ==>
                 exists x :: (x in s.persisted || x in s.buffer) && x.ticket == n && x.telegram.timestamp < cutoff
  {
    var lost := Older(s.persisted, cutoff) + Older(s.buffer, cutoff);
    BufferIsHeld(s);
    forall x | x in lost
      ensures (x in s.persisted || x in s.buffer) && x.telegram.timestamp < cutoff
    {
      SinceKeepsTheYoung(s.persisted, cutoff, x);
      SinceKeepsTheYoung(s.buffer, cutoff, x);
    }
    hide Older, Line, InFlight, Since, Recent;
    forall n | n in Tickets(lost)
      ensures n in Tickets(Line(s))
      ensures exists x :: (x in s.persisted || x in s.buffer) && x.ticket == n && x.telegram.timestamp < cutoff
    {
      var x :| x in lost && x.ticket == n;
    }
  }

  // ---- Every step ----

  /** Nothing is dropped without a reason, and no entry is ever forgotten or rewritten. */
  ghost predicate DropsExplained(s: Sys, e: Event) {
    var r := Step(s, e);
    && (forall n :: n in s.drops ==> n in r.drops && r.drops[n] == s.drops[n])
    && (forall n :: n in r.drops && n !in s.drops ==> Justified(s, e, n, r.drops[n]))
  }

  lemma BookedAreExplained(s: Sys, e: Event, lost: seq<Item>, reason: Reason)
    requires Invariant(s) && Books(s, Step(s, e), lost, reason)
    requires forall n :: n in Tickets(lost) ==> Justified(s, e, n, reason)
    ensures DropsExplained(s, e)
  {
    InvariantFacts(s);
    hide Invariant, Step, Justified, Tickets, Line;
  }

  lemma NothingBooked(s: Sys, e: Event)
    requires BooksNothing(s, Step(s, e))
    ensures DropsExplained(s, e)
  {
    hide Step, Justified;
  }

  lemma AdvanceIsExplained(s: Sys, t: TaskId)
    requires Invariant(s)
    ensures DropsExplained(s, Advance(t))
  {
    var e := Advance(t);
    hide Invariant, Enter, DropsExplained;
    if t in s.tasks && s.tasks[t].phase.LockWait? && Step(s, e) == Enter(s.(lock := Some(t)), t) {
      var op := s.tasks[t].op;
      if op.Clear? || (op.Close? && !s.initialized) {
        DropsOnEntry(s, t);
      } else {
        EnterBooksNothing(s.(lock := Some(t)), t);
        NothingBooked(s, e);
      }
    } else {
      NothingBooked(s, e);
    }
  }

  /** `clear()`, and `close()` of a store that was never initialised, drop the buffer on getting the lock. */
  lemma DropsOnEntry(s: Sys, t: TaskId)
    requires Invariant(s) && t in s.tasks && Step(s, Advance(t)) == Enter(s.(lock := Some(t)), t)
    requires s.tasks[t].op.Clear? || (s.tasks[t].op.Close? && !s.initialized)
    ensures DropsExplained(s, Advance(t))
  {
    var reason := if s.tasks[t].op.Clear? then Cleared else NeverInitialized;
    TaskFacts(s, t);
    hide Invariant, Step, DropsExplained;
    DroppedOnEntry(s.(lock := Some(t)), t, reason);
    BufferIsHeld(s);
    assert Books(s, Step(s, Advance(t)), s.buffer, reason);
    hide Books;
    BookedAreExplained(s, Advance(t), s.buffer, reason);
  }

  lemma DroppedOnEntry(s: Sys, t: TaskId, reason: Reason)
    requires t in s.tasks && (s.tasks[t].op.Clear? || (s.tasks[t].op.Close? && !s.initialized))
    requires reason == if s.tasks[t].op.Clear? then Cleared else NeverInitialized
    ensures var r := Enter(s, t);
            r.lock == s.lock && r.drops == s.drops + map n | n in Tickets(s.buffer) :: reason
  {
    hide Tickets;
  }

  lemma EnterBooksNothing(s: Sys, t: TaskId)
    requires t in s.tasks && !s.tasks[t].op.Clear? && !(s.tasks[t].op.Close? && !s.initialized)
    ensures BooksNothing(s, Enter(s, t))
  {
    hide DropBuffer;
  }

  lemma ReplyIsExplained(s: Sys, t: TaskId, outcome: Outcome)
    requires Invariant(s)
    ensures DropsExplained(s, Reply(t, outcome))
  {
    if t !in s.tasks {
      NothingBooked(s, Reply(t, outcome));
      return;
    }
    TaskFacts(s, t);
    hide Invariant, BatchReply, RowReply, MainReply, Justified;
    match s.tasks[t].phase {
      case BatchWrite(batch) => BatchIsExplained(s, t, batch, outcome);
      case RowWrite(rest) => RowIsExplained(s, t, rest, outcome);
      case Main => MainIsExplained(s, t, outcome);
      case _ => NothingBooked(s, Reply(t, outcome));
    }
  }

  lemma BatchIsExplained(s: Sys, t: TaskId, batch: seq<Item>, outcome: Outcome)
    requires Invariant(s) && Inside(s, t) && s.tasks[t].phase == BatchWrite(batch)
    ensures DropsExplained(s, Reply(t, outcome))
  {
    var e := Reply(t, outcome);
    assert InFlight(s) == batch;
    if outcome.OtherError? || outcome.Cancelled? {
      assert Step(s, e) == RequeueStep(s, t, batch);
      hide Invariant, Step, RequeueStep, InFlight;
      RequeueBooks(s, t, batch);
      BookedAreExplained(s, e, CutOff(s.buffer, batch, s.limit), Overflow);
    } else {
      hide Invariant;
      NothingBooked(s, e);
    }
  }

  lemma RowIsExplained(s: Sys, t: TaskId, rest: seq<Item>, outcome: Outcome)
    requires Invariant(s) && Inside(s, t) && s.tasks[t].phase == RowWrite(rest)
    ensures DropsExplained(s, Reply(t, outcome))
  {
    var e := Reply(t, outcome);
    assert InFlight(s) == rest;
    if rest == [] || outcome.Done? {
      hide Invariant;
      NothingBooked(s, e);
    } else if outcome.DataError? {
      assert Step(s, e) == RowReply(s, t, rest, DataError);
      hide Invariant, Step, RowReply, InFlight;
      RowBooks(s, t, rest);
      assert forall n :: n in Tickets([rest[0]]) ==> Justified(s, e, n, Unstorable);
      BookedAreExplained(s, e, [rest[0]], Unstorable);
    } else {
      assert Step(s, e) == RequeueStep(s, t, rest);
      hide Invariant, Step, RequeueStep, InFlight;
      RequeueBooks(s, t, rest);
      BookedAreExplained(s, e, CutOff(s.buffer, rest, s.limit), Overflow);
    }
  }

  lemma MainIsExplained(s: Sys, t: TaskId, outcome: Outcome)
    requires Invariant(s) && Inside(s, t) && s.tasks[t].phase.Main?
    ensures DropsExplained(s, Reply(t, outcome))
  {
    var (e, op) := (Reply(t, outcome), s.tasks[t].op);
    assert Step(s, e) == MainReply(s, t, outcome);
    hide Invariant, Step, MainReply, DropsExplained;
    if outcome.Done? && op.EvictOlderThan? && !op.dryRun {
      EvictionIsExplained(s, t, op.cutoff);
    } else if outcome.Done? && op.Clear? {
      ClearIsExplained(s, t);
    } else {
      PlainMainReply(s, t, outcome);
      NothingBooked(s, e);
    }
  }

  lemma EvictionIsExplained(s: Sys, t: TaskId, cutoff: int)
    requires Invariant(s) && Inside(s, t) && s.tasks[t] == Task(EvictOlderThan(cutoff, false), Main)
    requires Step(s, Reply(t, Done)) == MainReply(s, t, Done)
    ensures DropsExplained(s, Reply(t, Done))
  {
    var lost := Older(s.persisted, cutoff) + Older(s.buffer, cutoff);
    hide Invariant, Step, MainReply, Older, Tickets, DropsExplained, Books;
    EvictionBooks(s, t, cutoff);
    assert forall n :: n in Tickets(lost) ==> Justified(s, Reply(t, Done), n, Evicted);
    hide Justified;
    BookedAreExplained(s, Reply(t, Done), lost, Evicted);
  }

  lemma ClearIsExplained(s: Sys, t: TaskId)
    requires Invariant(s) && Inside(s, t) && s.tasks[t] == Task(Clear, Main)
    requires Step(s, Reply(t, Done)) == MainReply(s, t, Done)
    ensures DropsExplained(s, Reply(t, Done))
  {
    ClearBooks(s, t);
    assert forall n :: n in Tickets(s.persisted) ==> Justified(s, Reply(t, Done), n, Cleared) by {
      hide Invariant, Step, MainReply, Tickets, DropsExplained, Books, Overflows;
    }
    hide *;
    BookedAreExplained(s, Reply(t, Done), s.persisted, Cleared);
  }

  lemma ClearBooks(s: Sys, t: TaskId)
    requires t in s.tasks && s.tasks[t].op == Clear
    ensures Books(s, MainReply(s, t, Done), s.persisted, Cleared)
  {
    BufferIsHeld(s);
    hide Line, InFlight, Tickets;
  }

  lemma StepIsExplained(s: Sys, e: Event)
    requires Invariant(s)
    ensures DropsExplained(s, e)
  {
    hide Invariant, DropsExplained, Justified;
    match e {
      case Store(telegram) => StoreIsExplained(s, telegram);
      case Advance(t) => AdvanceIsExplained(s, t);
      case Reply(t, outcome) => ReplyIsExplained(s, t, outcome);
      case _ => NothingBooked(s, e);
    }
  }

  lemma StoreIsExplained(s: Sys, telegram: Telegram)
    requires Invariant(s)
    ensures DropsExplained(s, Store(telegram))
  {
    var e := Store(telegram);
    InvariantFacts(s);
    hide Invariant, StoreStep, Tickets, Ordered;
    if s.closing {
      StoreWhileClosing(s, telegram);
      NothingBooked(s, e);
    } else {
      StoreBooks(s, telegram);
      BookedAreExplained(s, e, Popped(s.buffer, s.limit), Overflow);
    }
  }

  lemma StoreWhileClosing(s: Sys, telegram: Telegram)
    requires s.closing && s.limit >= 1
    ensures StoreStep(s, telegram) == s
  {
  }

  // ---- Every run ----

  /** Event `k` of the run booked ticket `n`, and was right to. */
  ghost predicate DroppedBy(start: Sys, events: seq<Event>, n: nat, k: nat)
    requires k < |events| && n in Run(start, events).drops
  {
    n !in Run(start, events[..k]).drops && Justified(Run(start, events[..k]), events[k], n, Run(start, events).drops[n])
  }

  /** Every recorded drop of every run goes back to the one step that had that reason for it. */
  lemma {:induction false} EveryDropIsJustified(limit: nat, events: seq<Event>, n: nat) returns (k: nat)
    requires limit >= 1 && n in Run(Init(limit), events).drops
    ensures k < |events| && DroppedBy(Init(limit), events, n, k)
  {
    var start := Init(limit);
    if events == [] {
      assert false;
    }
    var last := |events| - 1;
    var before := events[..last];
    RunKeepsInvariant(limit, before);
    StepIsExplained(Run(start, before), events[last]);
    assert Run(start, events) == Step(Run(start, before), events[last]);
    hide Step, Invariant, Justified, Run;
    if n in Run(start, before).drops {
      k := EveryDropIsJustified(limit, before, n);
      assert before[..k] == events[..k] && before[k] == events[k];
    } else {
      k := last;
    }
  }
}
