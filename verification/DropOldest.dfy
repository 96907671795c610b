/** The bounded in-memory buffer as a value: append, overflow, and putting a failed batch back. */
module DropOldest {
  import opened Lists
  import Telegrams

  /** Only the time of a telegram matters to the buffer. */
  type Telegram = Telegrams.Telegram

  /** A buffered telegram with its place in the order of acceptance. */
  datatype Item = Item(ticket: nat, telegram: Telegram)

  /** `store()`: at the limit the oldest goes. */
  function Append(buffer: seq<Item>, item: Item, limit: nat): (r: seq<Item>)
    requires 1 <= limit
    ensures |buffer| <= limit ==> |r| <= limit
  {
    (if |buffer| >= limit then buffer[1..] else buffer) + [item]
  }

  function AppendAll(buffer: seq<Item>, items: seq<Item>, limit: nat): (r: seq<Item>)
    requires 1 <= limit
    ensures |buffer| <= limit ==> |r| <= limit
  {
    if items == [] then buffer else Append(AppendAll(buffer, items[..|items| - 1], limit), items[|items| - 1], limit)
  }

  /** `pop(0)`: what `store()` drops. */
  function Popped(buffer: seq<Item>, limit: nat): seq<Item>
    requires 1 <= limit
  {
    if |buffer| >= limit then buffer[..1] else []
  }

  /** The newest `limit` items. */
  function Newest(items: seq<Item>, limit: nat): (r: seq<Item>)
    ensures |r| <= limit
  {
    if |items| > limit then items[|items| - limit..] else items
  }

  /** `_requeue()`: back in front of whatever arrived meanwhile, then cut to the limit. */
  function Requeued(buffer: seq<Item>, batch: seq<Item>, limit: nat): (r: seq<Item>)
    ensures |r| <= limit
  {
    Newest(batch + buffer, limit)
  }

  /** What the slice in `_requeue()` cuts off. */
  function CutOff(buffer: seq<Item>, batch: seq<Item>, limit: nat): seq<Item> {
    var all := batch + buffer;
    if |all| > limit then all[..|all| - limit] else []
  }

  /** What is dropped and what stays, put together again. */
  lemma PoppedAndAppended(buffer: seq<Item>, item: Item, limit: nat)
    requires 1 <= limit
    ensures Popped(buffer, limit) + Append(buffer, item, limit) == buffer + [item]
  {
  }

  lemma CutOffAndRequeued(buffer: seq<Item>, batch: seq<Item>, limit: nat)
    ensures CutOff(buffer, batch, limit) + Requeued(buffer, batch, limit) == batch + buffer
  {
  }

  /** A drop-oldest queue holds the newest items of everything it was given. */
  lemma {:induction false} AppendAllKeepsNewest(buffer: seq<Item>, items: seq<Item>, limit: nat)
    requires 1 <= limit && |buffer| <= limit
    ensures AppendAll(buffer, items, limit) == Newest(buffer + items, limit)
  {
    if items == [] {
      assert buffer + items == buffer;
    } else {
      var n := |items| - 1;
      AppendAllKeepsNewest(buffer, items[..n], limit);
      assert buffer + items == (buffer + items[..n]) + [items[n]];
    }
  }

  /**
   A flush that fails as a whole is invisible: whatever arrived while the batch was detached,
   overflow included, the buffer is that of a queue that never started the flush.
   */
  lemma FailedFlushIsInvisible(batch: seq<Item>, arrivals: seq<Item>, limit: nat)
    requires 1 <= limit && |batch| <= limit
    ensures Requeued(AppendAll([], arrivals, limit), batch, limit) == AppendAll(batch, arrivals, limit)
  {
    AppendAllKeepsNewest([], arrivals, limit);
    AppendAllKeepsNewest(batch, arrivals, limit);
    assert [] + arrivals == arrivals;
  }

  /** What an eviction keeps, what it drops, and what it keeps of bare telegrams. */
  function Young(cutoff: int): Item -> bool {
    (x: Item) => x.telegram.timestamp >= cutoff
  }

  function Old(cutoff: int): Item -> bool {
    (x: Item) => x.telegram.timestamp < cutoff
  }

  function Since(items: seq<Item>, cutoff: int): (r: seq<Item>)
    ensures |r| <= |items|
  {
    Filter(items, Young(cutoff))
  }

  function Older(items: seq<Item>, cutoff: int): seq<Item> {
    Filter(items, Old(cutoff))
  }

  function Recent(telegrams: seq<Telegram>, cutoff: int): (r: seq<Telegram>)
    ensures |r| <= |telegrams|
  {
    Filter(telegrams, (t: Telegram) => t.timestamp >= cutoff)
  }

  /** An eviction keeps exactly the telegrams that are not older than the cutoff, and drops exactly the older ones. */
  lemma SinceKeepsTheYoung(items: seq<Item>, cutoff: int, x: Item)
    ensures x in Since(items, cutoff) <==> x in items && x.telegram.timestamp >= cutoff
    ensures x in Older(items, cutoff) <==> x in items && x.telegram.timestamp < cutoff
  {
    FilterMembers(items, Young(cutoff), x);
    FilterMembers(items, Old(cutoff), x);
  }

  // ---- Acceptance order and the ledger ----

  ghost predicate Ordered(items: seq<Item>) {
    forall i, j :: 0 <= i < j < |items| ==> items[i].ticket < items[j].ticket
  }

  ghost predicate AllBefore(a: seq<Item>, b: seq<Item>) {
    forall x, y :: x in a && y in b ==> x.ticket < y.ticket
  }

  ghost function Tickets(items: seq<Item>): (r: set<nat>)
    ensures forall n :: n in r <==> exists x :: x in items && x.ticket == n
  {
    set x | x in items :: x.ticket
  }

  lemma TicketsConcat(a: seq<Item>, b: seq<Item>)
    ensures Tickets(a + b) == Tickets(a) + Tickets(b)
  {
    forall n | n in Tickets(a) + Tickets(b)
      ensures n in Tickets(a + b)
    {
      var x :| (x in a || x in b) && x.ticket == n;
      assert x in a + b;
    }
  }

  lemma OrderedConcat(a: seq<Item>, b: seq<Item>)
    requires Ordered(a) && Ordered(b) && AllBefore(a, b)
    ensures Ordered(a + b)
  {
    forall i, j | 0 <= i < j < |a + b|
      ensures (a + b)[i].ticket < (a + b)[j].ticket
    {
      if i < |a| <= j {
        assert a[i] in a && b[j - |a|] in b;
      }
    }
  }

  lemma {:induction false} OrderedFilter(items: seq<Item>, keep: Item -> bool)
    requires Ordered(items)
    ensures Ordered(Filter(items, keep))
  {
    if items != [] {
      var n := |items| - 1;
      OrderedFilter(items[..n], keep);
      forall x | x in Filter(items[..n], keep)
        ensures x.ticket < items[n].ticket
      {
        FilterMembers(items[..n], keep, x);
      }
      OrderedConcat(Filter(items[..n], keep), if keep(items[n]) then [items[n]] else []);
    }
  }

  // ---- Losing items ----

  /** `line` falls apart into what is kept, still in order, and what is lost; no ticket is in both. */
  ghost predicate Parts(line: seq<Item>, kept: seq<Item>, lost: seq<Item>) {
    Ordered(kept) && Tickets(kept) + Tickets(lost) == Tickets(line) && Tickets(kept) !! Tickets(lost)
  }

  lemma OrderedParts(a: seq<Item>, b: seq<Item>)
    requires Ordered(a + b)
    ensures Ordered(a) && Ordered(b) && AllBefore(a, b) && Tickets(a) !! Tickets(b)
  {
    var l := a + b;
    assert forall i :: 0 <= i < |a| ==> a[i] == l[i];
    assert forall i :: 0 <= i < |b| ==> b[i] == l[|a| + i];
  }

  /** Taking a stretch out of an ordered line. */
  lemma RemoveMiddle(a: seq<Item>, b: seq<Item>, c: seq<Item>)
    requires Ordered(a + b + c)
    ensures Parts(a + b + c, a + c, b)
  {
    OrderedParts(a + b, c);
    OrderedParts(a, b);
    TicketsConcat(a + b, c);
    TicketsConcat(a, b);
    TicketsConcat(a, c);
    assert AllBefore(a, c) by { assert forall x :: x in a ==> x in a + b; }
    OrderedConcat(a, c);
  }

  lemma TicketIsUnique(items: seq<Item>, x: Item, y: Item)
    requires Ordered(items) && x in items && y in items && x.ticket == y.ticket
    ensures x == y
  {
  }

  /** An eviction parts an ordered line by age. */
  lemma PartsByAge(items: seq<Item>, cutoff: int)
    requires Ordered(items)
    ensures Parts(items, Since(items, cutoff), Older(items, cutoff))
  {
    OrderedFilter(items, Young(cutoff));
    hide Since, Older, Ordered;
    forall x
      ensures x in Since(items, cutoff) <==> x in items && x.telegram.timestamp >= cutoff
      ensures x in Older(items, cutoff) <==> x in items && x.telegram.timestamp < cutoff
    {
      SinceKeepsTheYoung(items, cutoff, x);
    }
    forall x, y | x in Since(items, cutoff) && y in Older(items, cutoff)
      ensures x.ticket != y.ticket
    {
      if x.ticket == y.ticket {
        TicketIsUnique(items, x, y);
      }
    }
  }

  /** The same when two stretches of the line are evicted one by one. */
  lemma PartsOfTwo(a: seq<Item>, b: seq<Item>, cutoff: int)
    requires Ordered(a + b)
    ensures Parts(a + b, Since(a, cutoff) + Since(b, cutoff), Older(a, cutoff) + Older(b, cutoff))
  {
    FilterConcat(a, b, Young(cutoff));
    FilterConcat(a, b, Old(cutoff));
    hide Filter, Ordered, Parts;
    PartsByAge(a + b, cutoff);
  }
}
