/** Facts about sequences of slot numbers that every pool of the daemon relies on. */
module Sequences {

  datatype Option<+T> = None | Some(value: T)

  /** Some of the elements of b, in their order. */
  predicate Subsequence<T(==)>(a: seq<T>, b: seq<T>)
    decreases |b|
  {
    if a == [] then true
    else if b == [] then false
    else
      var b' := b[..|b| - 1];
      (a[|a| - 1] == b[|b| - 1] && Subsequence(a[..|a| - 1], b')) || Subsequence(a, b')
  }

  lemma {:induction false} SubsequenceOfMore<T>(a: seq<T>, b: seq<T>, c: seq<T>)
    requires Subsequence(a, b)
    ensures Subsequence(a, b + c)
    decreases |c|
  {
    if c == [] {
      assert b + c == b;
    } else {
      SubsequenceOfMore(a, b, c[..|c| - 1]);
      assert (b + c)[..|b + c| - 1] == b + c[..|c| - 1];
    }
  }

  lemma {:induction false} SubsequenceAndMore<T>(a: seq<T>, b: seq<T>, c: seq<T>)
    requires Subsequence(a, b)
    ensures Subsequence(a + c, b + c)
    decreases |c|
  {
    if c == [] {
      assert a + c == a && b + c == b;
    } else {
      SubsequenceAndMore(a, b, c[..|c| - 1]);
      assert (a + c)[..|a + c| - 1] == a + c[..|c| - 1] && (b + c)[..|b + c| - 1] == b + c[..|c| - 1];
    }
  }

  predicate Distinct<T(==)>(xs: seq<T>) {
    forall i, j :: 0 <= i < j < |xs| ==> xs[i] != xs[j]
  }

  ghost predicate Below(xs: seq<nat>, n: nat) {
    forall k :: 0 <= k < |xs| ==> xs[k] < n
  }

  /** The set {0, ..., n-1}. */
  function Range(n: nat): (r: set<nat>)
    ensures forall i: nat :: i in r <==> i < n
    ensures |r| == n
  {
    if n == 0 then {} else Range(n - 1) + {n - 1}
  }

  function Elements<T>(xs: seq<T>): set<T> {
    set x | x in xs
  }

  lemma {:induction false} DistinctSize<T>(xs: seq<T>)
    requires Distinct(xs)
    ensures |Elements(xs)| == |xs|
  {
    if xs == [] {
      assert Elements(xs) == {};
    } else {
      var init, last := xs[..|xs| - 1], xs[|xs| - 1];
      DistinctSize(init);
      assert xs == init + [last];
      assert Elements(xs) == Elements(init) + {last};
      assert last !in Elements(init);
    }
  }

  /** `xs` with every occurrence of `x` taken out. */
  function Without<T(==)>(xs: seq<T>, x: T): seq<T> {
    if xs == [] then []
    else if xs[0] == x then Without(xs[1..], x)
    else [xs[0]] + Without(xs[1..], x)
  }

  lemma {:induction false} WithoutMembers<T>(xs: seq<T>, x: T)
    ensures forall y :: y in Without(xs, x) <==> y in xs && y != x
    ensures |Without(xs, x)| <= |xs|
    ensures x !in xs ==> Without(xs, x) == xs
  {
    if xs != [] {
      WithoutMembers(xs[1..], x);
      assert xs == [xs[0]] + xs[1..];
    }
  }

  lemma {:induction false} WithoutConcat<T>(xs: seq<T>, ys: seq<T>, x: T)
    ensures Without(xs + ys, x) == Without(xs, x) + Without(ys, x)
  {
    if xs == [] {
      assert xs + ys == ys;
    } else {
      assert (xs + ys)[1..] == xs[1..] + ys;
      WithoutConcat(xs[1..], ys, x);
    }
  }

  /** Where the element sits decides what is left when elements are distinct. */
  lemma WithoutAt<T>(xs: seq<T>, k: nat)
    requires k < |xs| && Distinct(xs)
    ensures Without(xs, xs[k]) == xs[..k] + xs[k + 1..]
  {
    var x := xs[k];
    assert xs == xs[..k] + ([x] + xs[k + 1..]);
    WithoutConcat(xs[..k], [x] + xs[k + 1..], x);
    WithoutConcat([x], xs[k + 1..], x);
    WithoutMembers(xs[..k], x);
    WithoutMembers(xs[k + 1..], x);
  }

  lemma {:induction false} WithoutDistinct<T>(xs: seq<T>, x: T)
    requires Distinct(xs)
    ensures Distinct(Without(xs, x))
  {
    if x in xs {
      var k :| 0 <= k < |xs| && xs[k] == x;
      WithoutAt(xs, k);
    } else {
      WithoutMembers(xs, x);
    }
  }

  /** A strictly shorter sequence of distinct numbers below n misses one of them. */
  lemma MissingShortens(xs: seq<nat>, n: nat, missing: nat)
    requires Distinct(xs) && Below(xs, n) && missing < n && missing !in xs
    ensures |xs| < n
  {
    DistinctSize(xs);
    SubsetSize(Elements(xs), Range(n) - {missing});
  }

  lemma {:induction false} SubsetSize<T>(a: set<T>, b: set<T>)
    requires a <= b
    ensures |a| <= |b|
  {
    if a != {} {
      var x :| x in a;
      SubsetSize(a - {x}, b - {x});
    }
  }

  /** The numbers below n that are not in xs are n - |xs| many. */
  lemma ComplementSize(xs: seq<nat>, n: nat)
    requires Distinct(xs) && Below(xs, n)
    ensures |Range(n) - Elements(xs)| == n - |xs|
  {
    DistinctSize(xs);
    assert Elements(xs) <= Range(n);
    assert (Range(n) - Elements(xs)) + Elements(xs) == Range(n);
  }

  /** `xs` without its k-th element. */
  function Cut<T>(xs: seq<T>, k: nat): (c: seq<T>)
    requires k < |xs|
    ensures |c| == |xs| - 1
    ensures forall i {:trigger c[i]} :: 0 <= i < |c| ==> c[i] == xs[if i < k then i else i + 1]
  {
    xs[..k] + xs[k + 1..]
  }

  lemma CutMembers<T>(xs: seq<T>, k: nat)
    requires k < |xs|
    ensures forall x :: x in Cut(xs, k) ==> x in xs
  {}

  lemma CutKeeps<T>(xs: seq<T>, k: nat, x: T)
    requires k < |xs| && x in xs && xs[k] != x
    ensures x in Cut(xs, k)
  {
    var j :| 0 <= j < |xs| && xs[j] == x;
    assert Cut(xs, k)[if j < k then j else j - 1] == x;
  }

  /** `xs` with x put in before its k-th element. */
  function Spliced<T>(xs: seq<T>, k: nat, x: T): (c: seq<T>)
    requires k <= |xs|
    ensures |c| == |xs| + 1
    ensures forall i {:trigger c[i]} :: 0 <= i < |c| ==>
              c[i] == if i < k then xs[i] else if i == k then x else xs[i - 1]
  {
    xs[..k] + [x] + xs[k..]
  }

  lemma Associative<T>(a: seq<T>, b: seq<T>, c: seq<T>)
    ensures (a + b) + c == a + (b + c)
  {}

  predicate Least(m: nat, xs: set<nat>) {
    m in xs && forall x :: x in xs ==> m <= x
  }

  /** The element an ordered set begins with. */
  function Min(xs: set<nat>): (m: nat)
    requires xs != {}
    ensures Least(m, xs)
  {
    LeastExists(xs);
    var m :| Least(m, xs);
    m
  }

  lemma {:induction false} LeastExists(xs: set<nat>)
    requires xs != {}
    ensures exists m :: Least(m, xs)
  {
    var y :| y in xs;
    var rest := xs - {y};
    if rest == {} {
      assert xs == rest + {y};
      assert Least(y, xs);
    } else {
      LeastExists(rest);
      var z :| Least(z, rest);
      LeastOfTwo(y, z, xs);
    }
  }

  lemma LeastOfTwo(y: nat, z: nat, xs: set<nat>)
    requires y in xs && Least(z, xs - {y})
    ensures Least(if y <= z then y else z, xs)
  {
    forall x | x in xs
      ensures (if y <= z then y else z) <= x
    {
      if x != y { assert x in xs - {y}; }
    }
  }
}
