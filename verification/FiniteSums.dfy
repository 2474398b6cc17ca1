/** Sums of reals over finite sets, in no particular order. */
module FiniteSums {

  ghost function Sum<T(!new)>(s: set<T>, f: T -> real): real
    decreases |s|
  {
    if s == {} then 0.0
    else
      var x :| x in s;
      f(x) + Sum(s - {x}, f)
  }

  /** Any element can be taken out first. */
  lemma {:induction false} SumTake<T(!new)>(s: set<T>, x: T, f: T -> real)
    requires x in s
    ensures Sum(s, f) == f(x) + Sum(s - {x}, f)
    decreases |s|
  {
    var y :| y in s && Sum(s, f) == f(y) + Sum(s - {y}, f);
    if y != x {
      SumTake(s - {y}, x, f);
      SumTake(s - {x}, y, f);
      assert s - {y} - {x} == s - {x} - {y};
    }
  }

  lemma SumPut<T(!new)>(s: set<T>, x: T, f: T -> real)
    requires x !in s
    ensures Sum(s + {x}, f) == Sum(s, f) + f(x)
  {
    SumTake(s + {x}, x, f);
    assert s + {x} - {x} == s;
  }

  lemma {:induction false} SumSame<T(!new)>(s: set<T>, f: T -> real, g: T -> real)
    requires forall x :: x in s ==> f(x) == g(x)
    ensures Sum(s, f) == Sum(s, g)
    decreases |s|
  {
    if s != {} {
      var x :| x in s;
      SumTake(s, x, f);
      SumTake(s, x, g);
      SumSame(s - {x}, f, g);
    }
  }

  lemma {:induction false} SumOfSums<T(!new)>(s: set<T>, f: T -> real, g: T -> real, h: T -> real)
    requires forall x :: x in s ==> h(x) == f(x) + g(x)
    ensures Sum(s, h) == Sum(s, f) + Sum(s, g)
    decreases |s|
  {
    if s != {} {
      var x :| x in s;
      SumTake(s, x, f);
      SumTake(s, x, g);
      SumTake(s, x, h);
      SumOfSums(s - {x}, f, g, h);
    }
  }

  ghost predicate AddsUp(scale: real -> real, a: real, b: real) {
    scale(a + b) == scale(a) + scale(b)
  }

  ghost predicate Additive(scale: real -> real) {
    scale(0.0) == 0.0 && forall a, b :: AddsUp(scale, a, b)
  }

  /** Additive functions can be taken out of a sum. */
  lemma {:induction false} SumScaled<T(!new)>(s: set<T>, scale: real -> real, f: T -> real, g: T -> real)
    requires Additive(scale)
    requires forall x :: x in s ==> g(x) == scale(f(x))
    ensures Sum(s, g) == scale(Sum(s, f))
    decreases |s|
  {
    if s != {} {
      var x :| x in s;
      SumTake(s, x, f);
      SumTake(s, x, g);
      SumScaled(s - {x}, scale, f, g);
      assert AddsUp(scale, f(x), Sum(s - {x}, f));
    }
  }

  lemma {:induction false} SumZero<T(!new)>(s: set<T>, f: T -> real)
    requires forall x :: x in s ==> f(x) == 0.0
    ensures Sum(s, f) == 0.0
    decreases |s|
  {
    if s != {} {
      var x :| x in s;
      SumTake(s, x, f);
      SumZero(s - {x}, f);
    }
  }

  lemma {:induction false} SumOrdered<T(!new)>(s: set<T>, f: T -> real, g: T -> real)
    requires forall x :: x in s ==> f(x) <= g(x)
    ensures Sum(s, f) <= Sum(s, g)
    decreases |s|
  {
    if s != {} {
      var x :| x in s;
      SumTake(s, x, f);
      SumTake(s, x, g);
      SumOrdered(s - {x}, f, g);
    }
  }

  /** Terms that are zero can be left out. */
  lemma {:induction false} SumSupport<T(!new)>(s: set<T>, part: set<T>, f: T -> real)
    requires part <= s && forall x :: x in s - part ==> f(x) == 0.0
    ensures Sum(s, f) == Sum(part, f)
    decreases |s|
  {
    if s != part {
      assert s - part != {} by {
        if s - part == {} {
          forall x | x in s ensures x in part { assert x !in s - part; }
        }
      }
      var x :| x in s - part;
      SumTake(s, x, f);
      SumSupport(s - {x}, part, f);
    }
  }

  lemma {:induction false} SumConstant<T(!new)>(s: set<T>, c: real, f: T -> real)
    requires forall x :: x in s ==> f(x) == c
    ensures Sum(s, f) == c * |s| as real
    decreases |s|
  {
    if s != {} {
      var x :| x in s;
      SumTake(s, x, f);
      SumConstant(s - {x}, c, f);
    }
  }

  /** Rows first or columns first. */
  lemma {:induction false} SumSwap<A(!new), B(!new)>(s: set<A>, t: set<B>, row: A -> (B -> real),
                                     column: B -> (A -> real),
                                                     rowSums: A -> real, columnSums: B -> real)
    requires forall a, b :: row(a)(b) == column(b)(a)
    requires forall a :: a in s ==> rowSums(a) == Sum(t, row(a))
    requires forall b :: b in t ==> columnSums(b) == Sum(s, column(b))
    ensures Sum(s, rowSums) == Sum(t, columnSums)
    decreases |s|
  {
    if s == {} {
      SumZero(t, columnSums);
    } else {
      var a :| a in s;
      var rest := (b: B) => Sum(s - {a}, column(b));
      SumTake(s, a, rowSums);
      SumSwap(s - {a}, t, row, column, rowSums, rest);
      forall b | b in t ensures columnSums(b) == row(a)(b) + rest(b) {
        SumTake(s, a, column(b));
      }
      SumOfSums(t, row(a), rest, columnSums);
    }
  }
}
