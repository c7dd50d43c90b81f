/** Shared vocabulary: optional values, decimal rounding and finite sums. */
module Prelude {
  datatype Option<+T> = None | Some(value: T)

  datatype Result<+T, +E> = Ok(value: T) | Err(error: E)

  function Max(x: real, y: real): real { if x >= y then x else y }

  function Min(x: real, y: real): real { if x <= y then x else y }

  predicate Within(x: real, bound: real) { -bound <= x <= bound }
}

/** Strings in the order Python sorts them. */
module Strings {
  /** Names compare character by character, a shorter name before its extensions. */
  predicate Before(a: string, b: string) {
    if a == "" || b == "" then a == "" && b != ""
    else if a[0] == b[0] then Before(a[1..], b[1..])
    else a[0] < b[0]
  }

  lemma {:induction false} BeforeIsStrict(a: string, b: string)
    ensures !(Before(a, b) && Before(b, a)) && !Before(a, a)
  {
    if a != "" && b != "" {
      BeforeIsStrict(a[1..], b[1..]);
    } else if a != "" {
      BeforeIsStrict(a[1..], b);
    }
  }

  lemma {:induction false} BeforeIsTotal(a: string, b: string)
    ensures a == b || Before(a, b) || Before(b, a)
  {
    if a != "" && b != "" && a[0] == b[0] {
      BeforeIsTotal(a[1..], b[1..]);
      assert a == [a[0]] + a[1..] && b == [b[0]] + b[1..];
    }
  }

  lemma {:induction false} BeforeIsTransitive(a: string, b: string, c: string)
    requires Before(a, b) && Before(b, c)
    ensures Before(a, c)
  {
    if a != "" && a[0] == b[0] == c[0] {
      BeforeIsTransitive(a[1..], b[1..], c[1..]);
    }
  }

  lemma {:induction false} BeforeUnderPrefix(prefix: string, a: string, b: string)
    ensures Before(prefix + a, prefix + b) <==> Before(a, b)
  {
    if prefix == "" {
      assert prefix + a == a && prefix + b == b;
    } else {
      assert (prefix + a)[1..] == prefix[1..] + a && (prefix + b)[1..] == prefix[1..] + b;
      BeforeUnderPrefix(prefix[1..], a, b);
    }
  }

  ghost predicate Ascending(s: seq<string>) {
    forall i, j :: 0 <= i < j < |s| ==> Before(s[i], s[j])
  }

  /** There is one way to put a set of strings in order. */
  lemma {:induction false} OneOrder(a: seq<string>, b: seq<string>)
    requires Ascending(a) && Ascending(b) && forall x :: x in a <==> x in b
    ensures a == b
  {
    if a == [] {
      assert forall i :: 0 <= i < |b| ==> b[i] in b;
    } else {
      FirstIsFirst(a, b);
      forall x ensures x in a[1..] <==> x in b[1..] {
        AfterFirst(a, x);
        AfterFirst(b, x);
      }
      OneOrder(a[1..], b[1..]);
      assert a == [a[0]] + a[1..] && b == [b[0]] + b[1..];
    }
  }

  lemma FirstIsFirst(a: seq<string>, b: seq<string>)
    requires a != [] && Ascending(a) && Ascending(b) && forall x :: x in a <==> x in b
    ensures b != [] && a[0] == b[0]
  {
    assert a[0] in b;
    var j :| 0 <= j < |b| && b[j] == a[0];
    assert b[0] in a;
    var i :| 0 <= i < |a| && a[i] == b[0];
    if i > 0 && j > 0 {
      BeforeIsStrict(a[0], b[0]);
    }
  }

  lemma AfterFirst(s: seq<string>, x: string)
    requires s != [] && Ascending(s)
    ensures x in s[1..] <==> x in s && x != s[0]
  {
    BeforeIsStrict(s[0], s[0]);
    assert s == [s[0]] + s[1..];
    if x in s[1..] {
      var i :| 0 <= i < |s| - 1 && s[1..][i] == x;
      assert s[i + 1] == x;
    }
  }
}

/** Python's `round(x, digits)` in exact arithmetic: nearest multiple of 1/unit, ties to even. */
module Rounding {
  function Nearest(x: real): (n: int)
    ensures -0.5 <= n as real - x <= 0.5
  {
    var f := x.Floor;
    var r := x - f as real;
    if r < 0.5 then f
    else if r > 0.5 then f + 1
    else if f % 2 == 0 then f
    else f + 1
  }

  /** Halfway between two whole numbers the even one is taken. */
  lemma TiesGoToEven(x: real, n: int)
    requires x == n as real + 0.5
    ensures Nearest(x) == if n % 2 == 0 then n else n + 1
  {
  }

  /** `round(x, d)` where `unit` is 10 to the power d. */
  function RoundTo(x: real, unit: int): real
    requires unit > 0
  {
    Units(Nearest(Scaled(x, unit)), unit)
  }

  function Scaled(x: real, unit: int): real { x * unit as real }

  function Units(n: int, unit: int): real
    requires unit > 0
  {
    n as real / unit as real
  }

  /** Rounding moves a number by at most half a unit in the last place. */
  lemma RoundToError(x: real, unit: int)
    requires unit > 0
    ensures -0.5 / unit as real <= RoundTo(x, unit) - x <= 0.5 / unit as real
  {
    var u := unit as real;
    var n := Nearest(Scaled(x, unit)) as real;
    DivideBounds(-0.5, n - x * u, 0.5, u);
    DivideDifference(n, x, u);
  }

  lemma DivideBounds(lo: real, x: real, hi: real, u: real)
    requires u > 0.0 && lo <= x <= hi
    ensures lo / u <= x / u <= hi / u
  {
  }

  lemma DivideDifference(n: real, x: real, u: real)
    requires u > 0.0
    ensures (n - x * u) / u == n / u - x
  {
    assert (n / u - x) * u == n - x * u;
  }

  /** The number is a whole number of units. */
  ghost predicate IsMultiple(x: real, unit: int)
    requires unit > 0
  {
    exists n: int {:trigger Units(n, unit)} :: x == Units(n, unit)
  }

  lemma NearestOfInteger(n: int)
    ensures Nearest(n as real) == n
  {
  }

  /** A number that already has the requested number of decimals is left alone. */
  lemma RoundToExact(x: real, unit: int)
    requires unit > 0 && IsMultiple(x, unit)
    ensures RoundTo(x, unit) == x
  {
    var n :| x == Units(n, unit);
    assert Scaled(x, unit) == n as real;
    NearestOfInteger(n);
  }

  lemma RoundToIsMultiple(x: real, unit: int)
    requires unit > 0
    ensures IsMultiple(RoundTo(x, unit), unit)
  {
    assert RoundTo(x, unit) == Units(Nearest(Scaled(x, unit)), unit);
  }

  lemma MultiplesAdd(x: real, y: real, unit: int)
    requires unit > 0 && IsMultiple(x, unit) && IsMultiple(y, unit)
    ensures IsMultiple(x + y, unit)
  {
    var m :| x == Units(m, unit);
    var n :| y == Units(n, unit);
    assert x + y == Units(m + n, unit);
  }

  /** Coarser decimals are finer decimals too. */
  lemma MultiplesRefine(x: real, unit: int, k: int)
    requires unit > 0 && k > 0 && IsMultiple(x, unit)
    ensures unit * k > 0 && IsMultiple(x, unit * k)
  {
    var n :| x == Units(n, unit);
    var u, r := unit as real, k as real;
    assert (unit * k) as real == u * r;
    assert (n * k) as real == n as real * r;
    assert n as real / u == (n as real * r) / (u * r);
    assert x == Units(n * k, unit * k);
  }
}

/** Sizes of finite sets. */
module Sets {
  lemma {:induction false} SubsetSize<T>(a: set<T>, b: set<T>)
    requires a <= b
    ensures |a| <= |b|
    decreases |a|
  {
    if a != {} {
      var x :| x in a;
      SubsetSize(a - {x}, b - {x});
    }
  }

  lemma SubsetOfSameSize<T>(a: set<T>, b: set<T>)
    requires a <= b && |a| == |b|
    ensures a == b
  {
    if !(b <= a) {
      var x :| x in b && x !in a;
      SubsetSize(a, b - {x});
    }
  }
}

/** Sums over finite sets, with the two facts every user needs. */
module Sums {
  ghost function Sum<T(!new)>(s: set<T>, f: T -> real): real
    decreases |s|
  {
    if s == {} then 0.0
    else
      var x :| x in s;
      f(x) + Sum(s - {x}, f)
  }

  /** The order in which elements are added does not matter. */
  lemma {:induction false} SumRemove<T(!new)>(s: set<T>, f: T -> real, y: T)
    requires y in s
    ensures Sum(s, f) == f(y) + Sum(s - {y}, f)
    decreases |s|
  {
    var x :| x in s && Sum(s, f) == f(x) + Sum(s - {x}, f);
    if x != y {
      SumRemove(s - {x}, f, y);
      SumRemove(s - {y}, f, x);
      assert s - {x} - {y} == s - {y} - {x};
    }
  }

  lemma {:induction false} SumCongruent<T(!new)>(s: set<T>, f: T -> real, g: T -> real)
    requires forall x :: x in s ==> f(x) == g(x)
    ensures Sum(s, f) == Sum(s, g)
    decreases |s|
  {
    if s != {} {
      var x :| x in s;
      SumRemove(s, f, x);
      SumRemove(s, g, x);
      SumCongruent(s - {x}, f, g);
    }
  }

  /** A sum of terms between 0 and `top` lies between 0 and |s| times `top`. */
  lemma {:induction false} SumBounded<T(!new)>(s: set<T>, f: T -> real, top: real)
    requires forall x :: x in s ==> 0.0 <= f(x) <= top
    ensures 0.0 <= Sum(s, f) <= |s| as real * top
    decreases |s|
  {
    if s != {} {
      var x :| x in s;
      SumRemove(s, f, x);
      SumBounded(s - {x}, f, top);
      assert |s| as real * top == |s - {x}| as real * top + top;
    }
  }

  /** A part and what is left add up to the whole. */
  lemma {:induction false} SumSplit<T(!new)>(s: set<T>, part: set<T>, f: T -> real)
    requires part <= s
    ensures Sum(s, f) == Sum(part, f) + Sum(s - part, f)
    decreases |part|
  {
    if part == {} {
      assert s - part == s;
    } else {
      var x :| x in part;
      SumRemove(part, f, x);
      SumRemove(s, f, x);
      SumSplit(s - {x}, part - {x}, f);
      assert s - {x} - (part - {x}) == s - part;
    }
  }

  lemma {:induction false} SumOfDifferences<T(!new)>(s: set<T>, f: T -> real, g: T -> real, h: T -> real)
    requires forall x :: x in s ==> h(x) == f(x) - g(x)
    ensures Sum(s, h) == Sum(s, f) - Sum(s, g)
    decreases |s|
  {
    if s != {} {
      var x :| x in s;
      SumRemove(s, f, x);
      SumRemove(s, g, x);
      SumRemove(s, h, x);
      SumOfDifferences(s - {x}, f, g, h);
    }
  }

  /** Terms within bounds have a sum within the sum of the bounds. */
  lemma {:induction false} SumWithin<T(!new)>(s: set<T>, f: T -> real, bound: T -> real)
    requires forall x :: x in s ==> -bound(x) <= f(x) <= bound(x)
    ensures -Sum(s, bound) <= Sum(s, f) <= Sum(s, bound)
    decreases |s|
  {
    if s != {} {
      var x :| x in s;
      SumRemove(s, f, x);
      SumRemove(s, bound, x);
      SumWithin(s - {x}, f, bound);
    }
  }
}
