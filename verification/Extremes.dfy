/** The greatest and the least of a finite set. */
module Extremes {

  /** Dafny does not see by itself that a set of integers that is not empty has an element. */
  lemma EmptyOrNot(s: set<int>)
    ensures s == {} || exists x :: x in s
  {
    if !(exists x :: x in s) { assert s <= {}; }
  }

  lemma {:induction false} ExtremesFrom(s: set<int>, x: int) returns (least: int, greatest: int)
    requires x in s
    ensures least in s && forall y :: y in s ==> least <= y
    ensures greatest in s && forall y :: y in s ==> y <= greatest
    decreases |s|
  {
    var rest := s - {x};
    assert forall y :: y in s ==> y == x || y in rest;
    least, greatest := x, x;
    if y :| y in rest {
      least, greatest := ExtremesFrom(rest, y);
      least := if x < least then x else least;
      greatest := if x > greatest then x else greatest;
    }
  }

  lemma ExtremesExist(s: set<int>)
    requires s != {}
    ensures exists least :: least in s && forall y :: y in s ==> least <= y
    ensures exists greatest :: greatest in s && forall y :: y in s ==> y <= greatest
  {
    EmptyOrNot(s);
    var x :| x in s;
    var _, _ := ExtremesFrom(s, x);
  }

  function Least(s: set<int>): (m: int)
    requires s != {}
    ensures m in s && forall y :: y in s ==> m <= y
  {
    ExtremesExist(s);
    var m :| m in s && forall y :: y in s ==> m <= y;
    m
  }

  function Greatest(s: set<int>): (m: int)
    requires s != {}
    ensures m in s && forall y :: y in s ==> y <= m
  {
    ExtremesExist(s);
    var m :| m in s && forall y :: y in s ==> y <= m;
    m
  }
}
