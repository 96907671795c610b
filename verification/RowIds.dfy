/** SQLite's rowids: positive in a fresh table, the next one is one more than the greatest. */
module RowIds {

  /** The greatest element, 0 when there is none. */
  function MaxOf(s: set<nat>): (m: nat)
    ensures forall k :: k in s ==> k <= m
    ensures m != 0 ==> m in s
  {
    if s == {} then 0
    else
      HasGreatest(s);
      var m :| m in s && forall k :: k in s ==> k <= m;
      m
  }

  lemma {:induction false} HasGreatest(s: set<nat>)
    requires s != {}
    ensures exists m :: m in s && forall k :: k in s ==> k <= m
  {
    var x :| x in s;
    if s != {x} {
      HasGreatest(s - {x});
      var m :| m in s - {x} && forall k :: k in s - {x} ==> k <= m;
      assert (if x < m then m else x) in s;
      assert forall k :: k in s ==> k in s - {x} || k == x;
    }
  }
}
