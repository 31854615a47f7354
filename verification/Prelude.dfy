/** Failure-compatible results and the few facts about finite sets and sums that the other modules share. */
module Prelude {

  datatype Option<+T> = None | Some(value: T)

  datatype Result<+T, +E> = Success(value: T) | Failure(error: E) {
    predicate IsFailure() {
      Failure?
    }

    function PropagateFailure<U>(): Result<U, E>
      requires Failure?
    {
      Failure(error)
    }

    function Extract(): T
      requires Success?
    {
      value
    }
  }

  /** The sum of `f` over a finite set. */
  ghost function Total<T>(s: set<T>, f: T -> int): int {
    if s == {} then 0 else
      var x :| x in s;
      f(x) + Total(s - {x}, f)
  }

  lemma {:induction false} TotalSplit<T>(s: set<T>, f: T -> int, x: T)
    requires x in s
    ensures Total(s, f) == f(x) + Total(s - {x}, f)
    decreases s
  {
    var y :| y in s && Total(s, f) == f(y) + Total(s - {y}, f);
    if y != x {
      TotalSplit(s - {y}, f, x);
      TotalSplit(s - {x}, f, y);
      assert s - {y} - {x} == s - {x} - {y};
    }
  }

  lemma {:induction false} TotalAgrees<T>(s: set<T>, f: T -> int, g: T -> int)
    requires forall x | x in s :: f(x) == g(x)
    ensures Total(s, f) == Total(s, g)
    decreases s
  {
    if s != {} {
      var x :| x in s;
      TotalSplit(s, f, x);
      TotalSplit(s, g, x);
      TotalAgrees(s - {x}, f, g);
    }
  }

  lemma {:induction false} TotalNonNegative<T>(s: set<T>, f: T -> int)
    requires forall x | x in s :: f(x) >= 0
    ensures Total(s, f) >= 0
    decreases s
  {
    if s != {} {
      var x :| x in s;
      TotalSplit(s, f, x);
      TotalNonNegative(s - {x}, f);
    }
  }

  /** Changing the summand at one point changes the sum by the difference there. */
  lemma TotalShift<T>(s: set<T>, f: T -> int, g: T -> int, x: T)
    requires x in s
    requires forall y | y in s && y != x :: f(y) == g(y)
    ensures Total(s, g) == Total(s, f) - f(x) + g(x)
  {
    TotalSplit(s, f, x);
    TotalSplit(s, g, x);
    TotalAgrees(s - {x}, f, g);
  }

  /** An injective function maps a set onto a set of the same size. */
  lemma {:induction false} InjectiveImage<A, B>(s: set<A>, t: set<B>, f: A -> B)
    requires forall x | x in s :: f(x) in t
    requires forall x, y | x in s && y in s && f(x) == f(y) :: x == y
    requires forall z | z in t :: exists x :: x in s && f(x) == z
    ensures |s| == |t|
    decreases s
  {
    if s == {} {
      assert t == {};
    } else {
      var x :| x in s;
      forall z | z in t - {f(x)} ensures exists y :: y in s - {x} && f(y) == z {
        var y :| y in s && f(y) == z;
      }
      InjectiveImage(s - {x}, t - {f(x)}, f);
    }
  }
}
