/** Small types and finite-set helpers shared by every component model. */
module Common {

  datatype Option<+T> = None | Some(value: T)

  type byte = n: nat | n < 256

  /** The ids of a finite set in ascending order: SQL's and Python's `sorted` over distinct keys. */
  ghost predicate Ascending(ids: seq<int>) {
    forall i, j :: 0 <= i < j < |ids| ==> ids[i] < ids[j]
  }

  predicate NoRepeats<T(==)>(s: seq<T>) {
    forall i, j :: 0 <= i < j < |s| ==> s[i] != s[j]
  }

  /** A witness that a set is not empty. */
  ghost function SomeElement<T(!new)>(s: set<T>): (a: T)
    requires s != {}
    ensures a in s
  {
    var a :| a in s;
    a
  }

  /** The least element of a non-empty set. */
  function Least(s: set<int>): (m: int)
    requires s != {}
    ensures m in s && forall x :: x in s ==> m <= x
  {
    LeastExists(s);
    var m :| m in s && forall x :: x in s ==> m <= x;
    m
  }

  lemma {:induction false} LeastExists(s: set<int>)
    requires s != {}
    ensures exists m :: m in s && forall x :: x in s ==> m <= x
  {
    var a := SomeElement(s);
    var rest := s - {a};
    if rest == {} {
      assert forall x :: x in s ==> x == a || x in rest;
    } else {
      LeastExists(rest);
      var b: int :| b in rest && forall x :: x in rest ==> b <= x;
      var m := if a < b then a else b;
      assert forall x :: x in s ==> x == a || x in rest;
      assert m in s && forall x :: x in s ==> m <= x;
    }
  }

  /** `sorted(s)`. */
  function Sorted(s: set<int>): (ids: seq<int>)
    ensures Ascending(ids)
    ensures forall x :: x in ids <==> x in s
    ensures |ids| == |s|
    decreases |s|
  {
    if s == {} then [] else
      var m := Least(s);
      [m] + Sorted(s - {m})
  }

  /** `coalesce(max(x), 0)` over a set of positions. */
  function MaxOrZero(s: set<int>): (m: int)
    ensures forall x :: x in s ==> x <= m
    ensures s == {} ==> m == 0
    ensures s != {} ==> m in s
  {
    if s == {} then 0 else
      MaxExists(s);
      var m :| m in s && forall x :: x in s ==> x <= m;
      m
  }

  lemma {:induction false} MaxExists(s: set<int>)
    requires s != {}
    ensures exists m :: m in s && forall x :: x in s ==> x <= m
  {
    var a := SomeElement(s);
    var rest := s - {a};
    if rest == {} {
      assert forall x :: x in s ==> x == a || x in rest;
    } else {
      MaxExists(rest);
      var b: int :| b in rest && forall x :: x in rest ==> x <= b;
      var m := if a < b then b else a;
      assert forall x :: x in s ==> x == a || x in rest;
      assert m in s && forall x :: x in s ==> x <= m;
    }
  }

  /** `coalesce(max(x), 0)` over numeric values. */
  function HighestOrZero(s: set<real>): (m: real)
    ensures forall x :: x in s ==> x <= m
    ensures s == {} ==> m == 0.0
    ensures s != {} ==> m in s
  {
    if s == {} then 0.0 else
      HighestExists(s);
      var m :| m in s && forall x :: x in s ==> x <= m;
      m
  }

  lemma {:induction false} HighestExists(s: set<real>)
    requires s != {}
    ensures exists m :: m in s && forall x :: x in s ==> x <= m
  {
    var a := SomeElement(s);
    var rest := s - {a};
    if rest == {} {
      assert forall x :: x in s ==> x == a || x in rest;
    } else {
      HighestExists(rest);
      var b: real :| b in rest && forall x :: x in rest ==> x <= b;
      var m := if a < b then b else a;
      assert forall x :: x in s ==> x == a || x in rest;
      assert m in s && forall x :: x in s ==> x <= m;
    }
  }

  const DIGITS: string := "0123456789"

  /** `f"{n}"`. */
  function Decimal(n: nat): (s: string)
    ensures s != []
  {
    if n < 10 then [DIGITS[n]] else Decimal(n / 10) + [DIGITS[n % 10]]
  }

  lemma {:induction false} DecimalInjective(m: nat, n: nat)
    requires Decimal(m) == Decimal(n)
    ensures m == n
  {
    var a, b := Decimal(m), Decimal(n);
    assert a[|a| - 1] == DIGITS[m % 10] && b[|b| - 1] == DIGITS[n % 10];
    assert (m >= 10 ==> |a| >= 2) && (n >= 10 ==> |b| >= 2);
    if m >= 10 && n >= 10 {
      assert a[..|a| - 1] == Decimal(m / 10) && b[..|b| - 1] == Decimal(n / 10);
      DecimalInjective(m / 10, n / 10);
    }
  }
}
