/** Small value types shared by every module of the model. */
module Common {

  /** JavaScript's `null`/`undefined` versus a present value. */
  datatype Option<+T> = None | Some(value: T)

  /** A JavaScript value used in a boolean context: `null` and `""` are falsy. */
  predicate Truthy(s: Option<string>) {
    s.Some? && s.value != ""
  }

  /** `a || b` for a possibly missing string `a`. */
  function OrElse(a: Option<string>, b: string): (r: string)
    ensures Truthy(a) ==> r == a.value
    ensures !Truthy(a) ==> r == b
  {
    if Truthy(a) then a.value else b
  }

  /** `xs.filter(p)`. */
  function Filter<T(!new)>(xs: seq<T>, p: T -> bool): (r: seq<T>)
    ensures |r| <= |xs|
    ensures forall x :: x in r <==> x in xs && p(x)
    ensures forall i :: 0 <= i < |r| ==> p(r[i])
  {
    if xs == [] then []
    else if p(xs[0]) then [xs[0]] + Filter(xs[1..], p)
    else Filter(xs[1..], p)
  }

  /** Filtering distributes over concatenation. */
  lemma {:induction false} FilterConcat<T(!new)>(a: seq<T>, b: seq<T>, p: T -> bool)
    ensures Filter(a + b, p) == Filter(a, p) + Filter(b, p)
  {
    if a != [] {
      var fa, fb := Filter(a[1..], p), Filter(b, p);
      assert (a + b)[0] == a[0] && (a + b)[1..] == a[1..] + b;
      FilterConcat(a[1..], b, p);
      if p(a[0]) {
        assert Filter(a + b, p) == [a[0]] + (fa + fb);
        assert [a[0]] + (fa + fb) == ([a[0]] + fa) + fb;
      }
    } else {
      assert a + b == b;
    }
  }

  /** `xs.map(f)`. */
  function Map<T, U>(xs: seq<T>, f: T -> U): (r: seq<U>)
    ensures |r| == |xs| && forall i :: 0 <= i < |xs| ==> r[i] == f(xs[i])
  {
    seq(|xs|, i requires 0 <= i < |xs| => f(xs[i]))
  }

  /** No element occurs twice: the shape of a JavaScript `Set` or of an object's key order. */
  predicate Distinct<T(==)>(xs: seq<T>) {
    forall i, j :: 0 <= i < j < |xs| ==> xs[i] != xs[j]
  }

  /** The sequence with every occurrence of `x` removed, order kept (`Set.prototype.delete`). */
  function Remove<T(==,!new)>(xs: seq<T>, x: T): (r: seq<T>)
    ensures x !in r
    ensures forall y :: y != x ==> (y in r <==> y in xs)
    ensures Distinct(xs) ==> Distinct(r)
    ensures x !in xs ==> r == xs
  {
    if xs == [] then []
    else if xs[0] == x then Remove(xs[1..], x)
    else
      var r := Remove(xs[1..], x);
      assert Distinct(xs) ==> Distinct(xs[1..]) && xs[0] !in xs[1..] by {
        if Distinct(xs) {
          forall k | 0 <= k < |xs| - 1 ensures xs[1..][k] != xs[0] { assert xs[1..][k] == xs[k + 1]; }
        }
      }
      [xs[0]] + r
  }

  lemma {:induction false} FilterSnoc<T(!new)>(xs: seq<T>, x: T, p: T -> bool)
    ensures Filter(xs + [x], p) == Filter(xs, p) + (if p(x) then [x] else [])
  {
    if xs != [] {
      assert (xs + [x])[1..] == xs[1..] + [x];
      FilterSnoc(xs[1..], x, p);
    }
  }

  lemma MapSnoc<T, U>(xs: seq<T>, x: T, f: T -> U)
    ensures Map(xs + [x], f) == Map(xs, f) + [f(x)]
  {
  }

  lemma {:induction false} FilterNone<T(!new)>(xs: seq<T>, p: T -> bool)
    requires forall i :: 0 <= i < |xs| ==> !p(xs[i])
    ensures Filter(xs, p) == []
  {
    if xs != [] {
      FilterNone(xs[1..], p);
    }
  }

  lemma MapMembership<T, U>(xs: seq<T>, f: T -> U, y: U)
    ensures y in Map(xs, f) <==> exists x :: x in xs && f(x) == y
  {
    var r := Map(xs, f);
    if y in r {
      var k :| 0 <= k < |r| && r[k] == y;
      assert xs[k] in xs && f(xs[k]) == y;
    }
    if exists x :: x in xs && f(x) == y {
      var x :| x in xs && f(x) == y;
      var k :| 0 <= k < |xs| && xs[k] == x;
      assert r[k] == y;
    }
  }

  lemma TakeSnoc<T>(xs: seq<T>, k: nat)
    requires 1 <= k <= |xs|
    ensures xs[..k] == xs[..k - 1] + [xs[k - 1]]
  {
  }

  lemma TakeAll<T>(xs: seq<T>)
    ensures xs[..|xs|] == xs
  {
  }

  lemma DropLastSnoc<T>(xs: seq<T>)
    requires xs != []
    ensures xs[..|xs| - 1] + [xs[|xs| - 1]] == xs
  {
  }

  /** The elements of `xs` in the order of their first occurrence: `[...new Set(xs)]`. */
  function Dedup<T(==,!new)>(xs: seq<T>): (r: seq<T>)
    ensures Distinct(r)
    ensures forall x :: x in r <==> x in xs
  {
    if xs == [] then []
    else
      var d := Dedup(xs[..|xs| - 1]);
      assert xs == xs[..|xs| - 1] + [xs[|xs| - 1]];
      if xs[|xs| - 1] in d then d else d + [xs[|xs| - 1]]
  }

  /**
   * `Dedup` keeps the order of first occurrences: when `r[i]` comes before `r[j]`,
   * every occurrence of `r[j]` in `xs` has an occurrence of `r[i]` before it.
   */
  lemma {:induction false} DedupOrder<T(!new)>(xs: seq<T>, i: nat, j: nat)
    requires i < j < |Dedup(xs)|
    ensures forall q :: 0 <= q < |xs| && xs[q] == Dedup(xs)[j] ==> Dedup(xs)[i] in xs[..q]
  {
    var r := Dedup(xs);
    var front, last := xs[..|xs| - 1], xs[|xs| - 1];
    var d := Dedup(front);
    assert xs == front + [last];
    var appended := last !in d;
    assert r == if appended then d + [last] else d;
    assert r[i] == d[i];
    forall q | 0 <= q < |xs| && xs[q] == r[j] ensures r[i] in xs[..q] {
      if q == |xs| - 1 {
        assert xs[..q] == front;
      } else if j < |d| {
        DedupOrder(front, i, j);
        assert front[q] == xs[q] && front[..q] == xs[..q];
      } else {
        assert false;
      }
    }
  }

  /** A sequence holding one value, possibly repeated, has that value as its only distinct element. */
  lemma {:induction false} DedupConstant<T(!new)>(xs: seq<T>, x: T)
    requires xs != [] && forall i :: 0 <= i < |xs| ==> xs[i] == x
    ensures Dedup(xs) == [x]
  {
    if |xs| > 1 {
      DedupConstant(xs[..|xs| - 1], x);
    }
  }

  lemma {:induction false} FilterAll<T(!new)>(xs: seq<T>, p: T -> bool)
    requires forall i :: 0 <= i < |xs| ==> p(xs[i])
    ensures Filter(xs, p) == xs
  {
    if xs != [] {
      FilterAll(xs[1..], p);
    }
  }
}
