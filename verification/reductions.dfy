/** Reductions over finite sets: the sum that accumulates influence and the maximum that
    `getMaximumActivationValue` asks the store to compute. Both are generic in the element
    type, so that they apply to sets of record ids and of link keys alike. */
module Reductions {

  /** Sum of `f` over the finite set `s`, in whatever order the elements are picked. */
  ghost function Sum<T>(s: set<T>, f: T -> real): real
    decreases s
  {
    if s == {} then 0.0 else var x :| x in s; f(x) + Sum(s - {x}, f)
  }

  /** The sum does not depend on which element is taken out first. */
  lemma {:induction false} SumRemove<T>(s: set<T>, f: T -> real, y: T)
    requires y in s
    ensures Sum(s, f) == f(y) + Sum(s - {y}, f)
    decreases s
  {
    var x :| x in s && Sum(s, f) == f(x) + Sum(s - {x}, f);
    if x != y {
      SumRemove(s - {x}, f, y);
      SumRemove(s - {y}, f, x);
      assert s - {x} - {y} == s - {y} - {x};
    }
  }

  /** Adding one new element adds its term to the sum. */
  lemma SumInsert<T>(s: set<T>, f: T -> real, y: T)
    requires y !in s
    ensures Sum(s + {y}, f) == Sum(s, f) + f(y)
  {
    SumRemove(s + {y}, f, y);
    assert s + {y} - {y} == s;
  }

  /** A sum of positive terms is non-negative, and positive when there is a term. */
  lemma {:induction false} SumPositive<T>(s: set<T>, f: T -> real)
    requires forall x :: x in s ==> f(x) > 0.0
    ensures Sum(s, f) >= 0.0
    ensures s != {} ==> Sum(s, f) > 0.0
    decreases s
  {
    if s != {} {
      var x :| x in s && Sum(s, f) == f(x) + Sum(s - {x}, f);
      SumPositive(s - {x}, f);
    }
  }

  /** `x` is an element of `s` at which `f` is greatest. */
  predicate IsArgMax<T>(s: set<T>, f: T -> real, x: T) {
    x in s && forall y :: y in s ==> f(y) <= f(x)
  }

  /** Every non-empty finite set has an element at which `f` is greatest. */
  lemma {:induction false} ArgMaxExists<T>(s: set<T>, f: T -> real)
    requires s != {}
    ensures exists x :: IsArgMax(s, f, x)
    decreases s
  {
    var z :| z in s;
    var rest := s - {z};
    if rest == {} {
      assert s == rest + {z};
      assert IsArgMax(s, f, z);
    } else {
      ArgMaxExists(rest, f);
      var x :| IsArgMax(rest, f, x);
      var top := if f(z) <= f(x) then x else z;
      forall y | y in s
        ensures f(y) <= f(top)
      {
        if y != z {
          assert y in rest;
        }
      }
      assert IsArgMax(s, f, top);
    }
  }

  /** The greatest value `f` takes on the non-empty finite set `s`. */
  function MaxOf<T>(s: set<T>, f: T -> real): (m: real)
    requires s != {}
    ensures exists x :: x in s && m == f(x)
    ensures forall x :: x in s ==> f(x) <= m
  {
    ArgMaxExists(s, f);
    var x :| IsArgMax(s, f, x);
    f(x)
  }
}
