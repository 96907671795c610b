/** Strict total orders, lexicographic comparison and the least of a list. */
module Ranking {
  import opened Decimal
  import opened Wrappers

  ghost predicate StrictTotal<T(!new)>(less: (T, T) -> bool) {
    && (forall a :: !less(a, a))
    && (forall a, b, c :: less(a, b) && less(b, c) ==> less(a, c))
    && (forall a, b :: less(a, b) || a == b || less(b, a))
  }

  /** ORDER BY the first column, then the second, and so on. */
  predicate Lex<T(==)>(less: (T, T) -> bool, s: seq<T>, t: seq<T>) {
    if t == [] then false
    else if s == [] then true
    else less(s[0], t[0]) || (s[0] == t[0] && Lex(less, s[1..], t[1..]))
  }

  function Lexed<T(==)>(less: (T, T) -> bool): (seq<T>, seq<T>) -> bool {
    (s: seq<T>, t: seq<T>) => Lex(less, s, t)
  }

  lemma {:induction false} LexIrreflexive<T(!new)>(less: (T, T) -> bool, s: seq<T>)
    requires StrictTotal(less)
    ensures !Lex(less, s, s)
  {
    if s != [] {
      LexIrreflexive(less, s[1..]);
    }
  }

  lemma {:induction false} LexTransitive<T(!new)>(less: (T, T) -> bool, s: seq<T>, t: seq<T>, u: seq<T>)
    requires StrictTotal(less) && Lex(less, s, t) && Lex(less, t, u)
    ensures Lex(less, s, u)
  {
    if s != [] && s[0] == t[0] == u[0] {
      assert !less(s[0], s[0]);
      LexTransitive(less, s[1..], t[1..], u[1..]);
    }
  }

  lemma {:induction false} LexTotal<T(!new)>(less: (T, T) -> bool, s: seq<T>, t: seq<T>)
    requires StrictTotal(less)
    ensures Lex(less, s, t) || s == t || Lex(less, t, s)
  {
    if s != [] && t != [] && s[0] == t[0] {
      LexTotal(less, s[1..], t[1..]);
      assert s == [s[0]] + s[1..] && t == [t[0]] + t[1..];
    }
  }

  /** The first difference decides. */
  lemma {:induction false} FirstDifferenceDecides<T(!new)>(less: (T, T) -> bool, s: seq<T>, t: seq<T>, i: nat)
    requires StrictTotal(less) && i < |s| && i < |t|
    requires (forall k :: 0 <= k < i ==> s[k] == t[k]) && s[i] != t[i]
    ensures Lex(less, s, t) <==> less(s[i], t[i])
  {
    assert !less(s[0], s[0]);
    if i > 0 {
      assert forall k :: 0 <= k < i - 1 ==> s[1..][k] == t[1..][k];
      FirstDifferenceDecides(less, s[1..], t[1..], i - 1);
    }
  }

  lemma LexIsStrictTotal<T(!new)>(less: (T, T) -> bool)
    requires StrictTotal(less)
    ensures StrictTotal(Lexed(less))
  {
    hide StrictTotal, Lex;
    assert StrictTotal(Lexed(less)) by {
      LexIsIrreflexive(less);
      LexIsTransitive(less);
      LexIsTotal(less);
      StrictTotalFromParts(Lexed(less));
    }
  }

  lemma StrictTotalFromParts<T(!new)>(less: (T, T) -> bool)
    requires forall a :: !less(a, a)
    requires forall a, b, c :: less(a, b) && less(b, c) ==> less(a, c)
    requires forall a, b :: less(a, b) || a == b || less(b, a)
    ensures StrictTotal(less)
  {
  }

  lemma LexIsIrreflexive<T(!new)>(less: (T, T) -> bool)
    requires StrictTotal(less)
    ensures forall s :: !Lexed(less)(s, s)
  {
    forall s: seq<T> ensures !Lexed(less)(s, s) { LexIrreflexive(less, s); }
  }

  lemma LexIsTransitive<T(!new)>(less: (T, T) -> bool)
    requires StrictTotal(less)
    ensures forall s, t, u :: Lexed(less)(s, t) && Lexed(less)(t, u) ==> Lexed(less)(s, u)
  {
    forall s: seq<T>, t: seq<T>, u: seq<T> | Lexed(less)(s, t) && Lexed(less)(t, u)
      ensures Lexed(less)(s, u)
    {
      LexTransitive(less, s, t, u);
    }
  }

  lemma LexIsTotal<T(!new)>(less: (T, T) -> bool)
    requires StrictTotal(less)
    ensures forall s, t :: Lexed(less)(s, t) || s == t || Lexed(less)(t, s)
  {
    forall s: seq<T>, t: seq<T>
      ensures Lexed(less)(s, t) || s == t || Lexed(less)(t, s)
    {
      LexTotal(less, s, t);
    }
  }

  // ---- Column texts ----

  predicate CharLess(a: char, b: char) {
    a < b
  }

  lemma {:induction false} TextLessIsLex(s: string, t: string)
    ensures TextLess(s, t) == Lex(CharLess, s, t)
  {
    if s != [] && t != [] {
      TextLessIsLex(s[1..], t[1..]);
    }
  }

  /** ASC NULLS FIRST on one column. */
  predicate ColumnLess(a: Option<string>, b: Option<string>) {
    b.Some? && (a.None? || TextLess(a.value, b.value))
  }

  lemma ColumnLessIsStrictTotal()
    ensures StrictTotal(ColumnLess)
    ensures forall s, t :: ColumnLess(None, Some(s)) && !ColumnLess(Some(s), None)
                           && ColumnLess(Some(s), Some(t)) == TextLess(s, t)
  {
    LexIsStrictTotal(CharLess);
    forall a: string, b: string
      ensures TextLess(a, b) == Lexed(CharLess)(a, b)
    {
      TextLessIsLex(a, b);
    }
    hide TextLess, Lex;
    StrictTotalFromParts(ColumnLess);
  }

  /** CAST(n AS TEXT) */
  function NatText(n: nat): (s: string)
    ensures s != "" && AllDigits(s) && (|s| > 1 ==> s[0] != '0')
  {
    if n < 10 then [DigitChar(n)] else NatText(n / 10) + [DigitChar(n % 10)]
  }

  function IntText(n: int): string {
    if n < 0 then "-" + NatText(-n) else NatText(n)
  }

  lemma {:induction false} NatTextSpells(n: nat)
    ensures Value(NatText(n)) == n
  {
    if n >= 10 {
      NatTextSpells(n / 10);
      assert NatText(n)[..|NatText(n)| - 1] == NatText(n / 10);
    } else {
      assert NatText(n)[..0] == "";
    }
  }

  lemma IntTextIsInjective(a: int, b: int)
    requires IntText(a) == IntText(b)
    ensures a == b
  {
    assert IsDigit(NatText(if a < 0 then -a else a)[0]) && IsDigit(NatText(if b < 0 then -b else b)[0]);
    NatTextSpells(if a < 0 then -a else a);
    NatTextSpells(if b < 0 then -b else b);
    if a < 0 {
      assert IntText(a)[0] == '-' && IntText(a)[1..] == NatText(-a);
      assert IntText(b)[1..] == NatText(-b);
    }
  }
}
