/**
 * Sorting with a comparator, as `Array.prototype.sort` does, and the two string orders
 * the front end sorts by.
 */
module Sorting {
  import opened Text

  ghost predicate TotalPreorder<T(!new)>(le: (T, T) -> bool) {
    && (forall a, b :: le(a, b) || le(b, a))
    && (forall a, b, c :: le(a, b) && le(b, c) ==> le(a, c))
  }

  ghost predicate SortedBy<T>(s: seq<T>, le: (T, T) -> bool) {
    forall i, j :: 0 <= i < j < |s| ==> le(s[i], s[j])
  }

  /** Put `x` in front of the first element it may precede. */
  function Insert<T>(x: T, s: seq<T>, le: (T, T) -> bool): seq<T> {
    if s == [] then [x]
    else if le(x, s[0]) then [x] + s
    else [s[0]] + Insert(x, s[1..], le)
  }

  /** Inserting adds `x` and nothing else. */
  lemma {:induction false} InsertPerm<T>(x: T, s: seq<T>, le: (T, T) -> bool)
    ensures multiset(Insert(x, s, le)) == multiset(s) + multiset{x}
    ensures |Insert(x, s, le)| == |s| + 1
  {
    if s != [] && !le(x, s[0]) {
      InsertPerm(x, s[1..], le);
      assert s == [s[0]] + s[1..];
    }
  }

  /** An insertion sort: each element goes in front of the first one it is `le` to. */
  function SortBy<T>(s: seq<T>, le: (T, T) -> bool): seq<T> {
    if s == [] then [] else Insert(s[0], SortBy(s[1..], le), le)
  }

  /** ... and the result is a permutation of the input. */
  lemma {:induction false} SortByPerm<T>(s: seq<T>, le: (T, T) -> bool)
    ensures multiset(SortBy(s, le)) == multiset(s)
    ensures |SortBy(s, le)| == |s|
  {
    if s != [] {
      SortByPerm(s[1..], le);
      InsertPerm(s[0], SortBy(s[1..], le), le);
      assert s == [s[0]] + s[1..];
    }
  }

  lemma {:induction false} InsertSorted<T(!new)>(x: T, s: seq<T>, le: (T, T) -> bool)
    requires TotalPreorder(le) && SortedBy(s, le)
    ensures SortedBy(Insert(x, s, le), le)
  {
    if s != [] && !le(x, s[0]) {
      var t := s[1..];
      assert SortedBy(t, le);
      InsertSorted(x, t, le);
      InsertPerm(x, t, le);
      var r := Insert(x, t, le);
      assert le(s[0], x);
      forall e | e in multiset(r) ensures le(s[0], e) {
        assert e in multiset(t) + multiset{x};
        if e in multiset(t) {
          var k :| 0 <= k < |t| && t[k] == e;
          assert s[k + 1] == e;
        }
      }
      forall j | 0 <= j < |r| ensures le(s[0], r[j]) {
        assert r[j] in multiset(r);
      }
    }
  }

  /** With a total preorder the result of `SortBy` is in order. */
  lemma {:induction false} SortBySorted<T(!new)>(s: seq<T>, le: (T, T) -> bool)
    requires TotalPreorder(le)
    ensures SortedBy(SortBy(s, le), le)
  {
    if s != [] {
      SortBySorted(s[1..], le);
      InsertSorted(s[0], SortBy(s[1..], le), le);
    }
  }

  /** Code-point order: `Array.prototype.sort` without a comparator. */
  predicate OrdinalLe(a: string, b: string) {
    if a == [] then true
    else if b == [] then false
    else if a[0] != b[0] then a[0] < b[0]
    else OrdinalLe(a[1..], b[1..])
  }

  lemma {:induction false} OrdinalLeTotal(a: string, b: string)
    ensures OrdinalLe(a, b) || OrdinalLe(b, a)
    ensures OrdinalLe(a, b) && OrdinalLe(b, a) ==> a == b
  {
    if a != [] && b != [] && a[0] == b[0] {
      OrdinalLeTotal(a[1..], b[1..]);
      if OrdinalLe(a, b) && OrdinalLe(b, a) {
        assert a == [a[0]] + a[1..] && b == [b[0]] + b[1..];
      }
    }
  }

  lemma {:induction false} OrdinalLeTransitive(a: string, b: string, c: string)
    requires OrdinalLe(a, b) && OrdinalLe(b, c)
    ensures OrdinalLe(a, c)
  {
    if a != [] && b != [] && c != [] && a[0] == b[0] && b[0] == c[0] {
      OrdinalLeTransitive(a[1..], b[1..], c[1..]);
    }
  }

  lemma OrdinalLeIsTotalPreorder()
    ensures TotalPreorder(OrdinalLe)
  {
    forall a, b ensures OrdinalLe(a, b) || OrdinalLe(b, a) { OrdinalLeTotal(a, b); }
    forall a, b, c | OrdinalLe(a, b) && OrdinalLe(b, c) ensures OrdinalLe(a, c) {
      OrdinalLeTransitive(a, b, c);
    }
  }

  /**
   * Code-point order after ASCII lower-casing: the stand-in for
   * `localeCompare(b, undefined, { sensitivity: "base" })`.
   */
  predicate CaselessLe(a: string, b: string) {
    OrdinalLe(ToLower(a), ToLower(b))
  }

  lemma CaselessLeIsTotalPreorder()
    ensures TotalPreorder(CaselessLe)
  {
    forall a, b ensures CaselessLe(a, b) || CaselessLe(b, a) { OrdinalLeTotal(ToLower(a), ToLower(b)); }
    forall a, b, c | CaselessLe(a, b) && CaselessLe(b, c) ensures CaselessLe(a, c) {
      OrdinalLeTransitive(ToLower(a), ToLower(b), ToLower(c));
    }
  }

  /** Sorting distinct strings in code-point order gives a strictly increasing sequence. */
  lemma SortedDistinctIncreasing(s: seq<string>)
    requires forall i, j :: 0 <= i < j < |s| ==> s[i] != s[j]
    ensures forall i, j :: 0 <= i < j < |SortBy(s, OrdinalLe)| ==>
      OrdinalLe(SortBy(s, OrdinalLe)[i], SortBy(s, OrdinalLe)[j]) &&
      SortBy(s, OrdinalLe)[i] != SortBy(s, OrdinalLe)[j]
  {
    var r := SortBy(s, OrdinalLe);
    SortByPerm(s, OrdinalLe);
    OrdinalLeIsTotalPreorder();
    SortBySorted(s, OrdinalLe);
    forall i, j | 0 <= i < j < |r| ensures r[i] != r[j] {
      if r[i] == r[j] {
        MultiplicityOfRepeat(r, i, j);
        DistinctMultiplicity(s, r[i]);
        assert false;
      }
    }
  }

  lemma MultiplicityOfRepeat(r: seq<string>, i: nat, j: nat)
    requires i < j < |r| && r[i] == r[j]
    ensures multiset(r)[r[i]] >= 2
  {
    assert r == r[..j] + r[j..];
    assert r[..j][i] == r[i];
    assert r[j..][0] == r[j];
  }

  lemma DistinctMultiplicity(s: seq<string>, x: string)
    requires forall i, j :: 0 <= i < j < |s| ==> s[i] != s[j]
    ensures multiset(s)[x] <= 1
  {
    if s != [] {
      assert s == [s[0]] + s[1..];
      DistinctMultiplicity(s[1..], x);
      if s[0] == x {
        assert x !in s[1..];
      }
    }
  }
}
