/** Finite sets of integers in ascending order. */
module IntSets {

  lemma Inhabited(s: set<int>)
    ensures s == {} || exists x :: x in s
  {
    if forall x :: x !in s { assert s == {}; }
  }

  lemma {:induction false} LeastExists(s: set<int>)
    requires s != {}
    ensures exists m :: m in s && forall x | x in s :: m <= x
  {
    Inhabited(s);
    var a :| a in s;
    if s != {a} {
      var rest := s - {a};
      LeastExists(rest);
      var b :| b in rest && forall x | x in rest :: b <= x;
      assert forall x | x in s :: x == a || x in rest;
      var m := if a < b then a else b;
      assert m in s && forall x | x in s :: m <= x;
    }
  }

  function Least(s: set<int>): (m: int)
    requires s != {}
    ensures m in s && forall x | x in s :: m <= x
  {
    LeastExists(s);
    var m :| m in s && forall x | x in s :: m <= x;
    m
  }

  /** The set in ascending order: ORDER BY update_id. */
  function Ordered(s: set<int>): (r: seq<int>)
    ensures |r| == |s|
    ensures forall x :: x in r <==> x in s
    ensures forall i, j | 0 <= i < j < |r| :: r[i] < r[j]
  {
    if s == {} then []
    else
      var m := Least(s);
      var rest := Ordered(s - {m});
      assert forall x | x in rest :: x in s - {m} && m < x;
      [m] + rest
  }

  lemma {:induction false} OrderedCons(s: set<int>)
    requires s != {}
    ensures Ordered(s) == [Least(s)] + Ordered(s - {Least(s)})
  {}

  lemma {:induction false} Subset(a: set<int>, b: set<int>)
    requires a <= b
    ensures |a| <= |b|
  {
    if a != {} {
      Inhabited(a);
      var x :| x in a;
      Subset(a - {x}, b - {x});
    }
  }

  lemma {:induction false} SameSize(a: set<int>, b: set<int>)
    requires a <= b && |a| == |b|
    ensures a == b
  {
    if a != {} {
      Inhabited(a);
      var x :| x in a;
      SameSize(a - {x}, b - {x});
    }
  }
}
