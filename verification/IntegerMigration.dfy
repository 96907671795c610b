/**
 Rewriting text timestamps as integers in batches, each its own transaction. A start is given a
 budget of commits: the process dies before the first commit the budget does not cover.
 */
module IntegerMigration {
  import opened Calendar
  import opened SqliteText
  import opened RowIds

  /** A timestamp cell: what an old version wrote, or integer microseconds. */
  datatype Cell = Text(text: string) | Micros(micros: Instant)

  type Table = map<nat, Cell>

  const BATCH := 50_000

  predicate CellOk(c: Cell) {
    c.Text? ==> WellFormed(c.text)
  }

  /** Rowids start at 1 and every text is one an earlier version could have written. */
  ghost predicate TableOk(t: Table) {
    forall k :: k in t ==> k >= 1 && CellOk(t[k])
  }

  /** What a reader makes of a cell, converted or not. */
  function CellInstant(c: Cell): Instant
    requires CellOk(c)
  {
    match c case Text(s) => TextInstant(s) case Micros(n) => n
  }

  ghost predicate SameInstants(t: Table, u: Table)
    requires TableOk(t) && TableOk(u)
  {
    t.Keys == u.Keys && forall k :: k in t ==> CellInstant(t[k]) == CellInstant(u[k])
  }

  ghost predicate NoTextUpTo(t: Table, high: int) {
    forall k :: k in t && k <= high ==> t[k].Micros?
  }

  ghost predicate NoText(t: Table) {
    forall k :: k in t ==> t[k].Micros?
  }

  /** Text only ever disappears: a resumed start has no more to do than the one cut off. */
  ghost predicate NoNewText(t: Table, u: Table) {
    t.Keys == u.Keys && forall k :: k in t && t[k].Micros? ==> u[k] == t[k]
  }

  function ConvertedCell(c: Cell): Cell
    requires CellOk(c)
  {
    if c.Text? then Micros(TextToMicros(c.text)) else c
  }

  lemma ConvertedCellKeepsInstant(c: Cell)
    requires CellOk(c)
    ensures CellOk(ConvertedCell(c)) && CellInstant(ConvertedCell(c)) == CellInstant(c)
  {
    hide WellFormed, TextToMicros, TextInstant;
    if c.Text? {
      ConversionKeepsInstant(c.text);
    }
  }

  /** The UPDATE of one batch: text cells with low < rowid <= high. */
  method ConvertRows(t: Table, low: nat, high: nat) returns (u: Table)
    requires TableOk(t)
    ensures TableOk(u) && SameInstants(t, u) && NoNewText(t, u)
    ensures forall k :: k in t ==> u[k] == if low < k <= high then ConvertedCell(t[k]) else t[k]
  {
    hide ConvertedCell, CellInstant, CellOk;
    u := map k | k in t :: if low < k <= high then ConvertedCell(t[k]) else t[k];
    forall k | k in t
      ensures CellOk(u[k]) && CellInstant(u[k]) == CellInstant(t[k])
      ensures t[k].Micros? ==> u[k] == t[k]
    {
      ConvertedCellKeepsInstant(t[k]);
      MicrosStay(t[k]);
    }
  }

  lemma MicrosStay(c: Cell)
    requires CellOk(c)
    ensures ConvertedCell(c).Micros? && (c.Micros? ==> ConvertedCell(c) == c)
  {
  }

  /** Batches that cover rowids 1 to `last`. */
  function Batches(last: nat): nat {
    (last + BATCH - 1) / BATCH
  }

  method ConvertTableToIntegers(t: Table, commits: nat) returns (u: Table, left: nat, done: bool)
    requires TableOk(t)
    ensures TableOk(u) && SameInstants(t, u) && NoNewText(t, u)
    ensures done ==> NoText(u) && left + Batches(MaxOf(t.Keys)) == commits
    ensures done <==> commits >= Batches(MaxOf(t.Keys))
  {
    hide CellOk, CellInstant, ConvertedCell;
    u, left := t, commits;
    var last := MaxOf(t.Keys);
    var low := 0;
    while low < last
      invariant low % BATCH == 0 && left + low / BATCH == commits
      invariant low < last + BATCH
      invariant TableOk(u) && SameInstants(t, u) && NoNewText(t, u)
      invariant NoTextUpTo(u, low)
      decreases last - low
    {
      if left == 0 {
        return u, 0, false;
      }
      var before := u;
      u := ConvertRows(before, low, low + BATCH);
      forall k | k in before && low < k <= low + BATCH
        ensures u[k].Micros?
      {
        MicrosStay(before[k]);
      }
      left, low := left - 1, low + BATCH;
    }
    done := true;
  }

  class TimestampFile {
    var telegrams: Table
    var lastGa: Table
    var integerFlag: bool

    /** The flag never claims more than is true. */
    ghost predicate Valid()
      reads this
    {
      && TableOk(telegrams) && TableOk(lastGa)
      && (integerFlag ==> NoText(telegrams) && NoText(lastGa))
    }

    constructor (telegrams: Table, lastGa: Table)
      requires TableOk(telegrams) && TableOk(lastGa)
      ensures Valid() && this.telegrams == telegrams && this.lastGa == lastGa && !integerFlag
    {
      this.telegrams, this.lastGa, this.integerFlag := telegrams, lastGa, false;
    }

    /** Commits of an uninterrupted conversion: dropping the index, the batches, the flag. */
    ghost function CommitsNeeded(): nat
      reads this
    {
      2 + Batches(MaxOf(telegrams.Keys)) + Batches(MaxOf(lastGa.Keys))
    }

    /** One start; `finished` is false when it was cut off. */
    method ConvertTimestampsToIntegers(commits: nat) returns (finished: bool, rewritten: bool)
      requires Valid()
      modifies this
      ensures Valid()
      ensures SameInstants(old(telegrams), telegrams) && SameInstants(old(lastGa), lastGa)
      ensures NoNewText(old(telegrams), telegrams) && NoNewText(old(lastGa), lastGa)
      ensures finished ==> integerFlag && NoText(telegrams) && NoText(lastGa)
      ensures old(integerFlag) ==> finished
      ensures commits >= old(CommitsNeeded()) ==> finished
      ensures finished ==> (rewritten <==> !old(NoText(telegrams) && NoText(lastGa)))
      ensures !finished ==> !rewritten
    {
      hide CellOk, CellInstant;
      rewritten := false;
      if integerFlag {
        return true, false;
      }
      var left := commits;
      var hasText := exists k :: k in telegrams && telegrams[k].Text?;
      hasText := hasText || exists k :: k in lastGa && lastGa[k].Text?;
      if hasText {
        if left == 0 {
          return false, false;
        }
        left := left - 1;
        var u, rest, converted := ConvertTableToIntegers(telegrams, left);
        telegrams := u;
        if !converted {
          return false, false;
        }
        u, rest, converted := ConvertTableToIntegers(lastGa, rest);
        lastGa := u;
        if !converted {
          return false, false;
        }
        left := rest;
      }
      if left == 0 {
        return false, false;
      }
      integerFlag := true;
      return true, hasText;
    }

    /** Any number of starts, each cut off wherever its budget runs out. */
    method Restarts(budgets: seq<nat>) returns (finished: bool)
      requires Valid()
      modifies this
      ensures Valid()
      ensures SameInstants(old(telegrams), telegrams) && SameInstants(old(lastGa), lastGa)
      ensures finished ==> integerFlag && NoText(telegrams) && NoText(lastGa)
      ensures (exists i :: 0 <= i < |budgets| && budgets[i] >= old(CommitsNeeded())) ==> finished
    {
      hide CellOk, CellInstant;
      finished := false;
      var n := 0;
      while n < |budgets|
        invariant 0 <= n <= |budgets| && Valid()
        invariant SameInstants(old(telegrams), telegrams) && SameInstants(old(lastGa), lastGa)
        invariant CommitsNeeded() == old(CommitsNeeded())
        invariant finished ==> integerFlag
        invariant (exists i :: 0 <= i < n && budgets[i] >= old(CommitsNeeded())) ==> finished
      {
        var complete, rewritten := ConvertTimestampsToIntegers(budgets[n]);
        finished := finished || complete;
        n := n + 1;
      }
    }
  }
}
