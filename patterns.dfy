/**
 * The regular expressions the dashboard uses, as sequences of tokens: a literal, or a
 * greedy run of one character class. Every pattern in the front end is deterministic in
 * the sense that no run is followed by a token that can begin with a character of that
 * run's class, so the maximal run taken here is the one a backtracking engine keeps, and
 * the lazy `(.*?)\]` of the property dump is the maximal run of characters other than
 * `]` and line terminators followed by `]`. A match is searched for from the left, as
 * `String.prototype.match` does without the `g` flag.
 */
module Patterns {
  import opened Common
  import opened Text

  datatype CharClass =
    | Digit            // \d
    | Space            // \s
    | DigitOrX         // [\dx]
    | HexOrColon       // [\da-fA-F:]
    | DigitOrDot       // [\d.]
    | NotBracketOrEol  // what `.` matches up to the closing `]` in `(.*?)\]`

  predicate InClass(c: char, k: CharClass) {
    match k
    case Digit => IsDigit(c)
    case Space => IsSpace(c)
    case DigitOrX => IsDigit(c) || c == 'x'
    case HexOrColon => IsDigit(c) || 'a' <= c <= 'f' || 'A' <= c <= 'F' || c == ':'
    case DigitOrDot => IsDigit(c) || c == '.'
    case NotBracketOrEol => c != ']' && !IsLineTerminator(c)
  }

  /** A literal, or a greedy run of a class: `+` when `nonEmpty`, `*` otherwise. */
  datatype Token = Lit(text: string) | Run(cls: CharClass, nonEmpty: bool)

  /** End of the longest run of class `k` starting at `i`. */
  function RunEnd(s: string, i: nat, k: CharClass): (e: nat)
    requires i <= |s|
    ensures i <= e <= |s|
    ensures forall p :: i <= p < e ==> InClass(s[p], k)
    ensures e == |s| || !InClass(s[e], k)
    decreases |s| - i
  {
    if i < |s| && InClass(s[i], k) then RunEnd(s, i + 1, k) else i
  }

  /** `s[a..b]` is exactly what token `tok` consumes when it starts at `a`. */
  predicate Consumes(s: string, a: nat, b: nat, tok: Token)
    requires a <= b <= |s|
  {
    match tok
    case Lit(t) => s[a..b] == t
    case Run(k, ne) =>
      (forall p :: a <= p < b ==> InClass(s[p], k)) && (b == |s| || !InClass(s[b], k)) && (ne ==> a < b)
  }

  /** Where the token starting at `i` ends, if it matches there. */
  function Step(s: string, i: nat, tok: Token): (e: Option<nat>)
    requires i <= |s|
    ensures e.Some? ==> i <= e.value <= |s| && Consumes(s, i, e.value, tok)
  {
    match tok
    case Lit(t) => if StartsWith(s[i..], t) then Some(i + |t|) else None
    case Run(k, ne) => var e := RunEnd(s, i, k); if ne && e == i then None else Some(e)
  }

  /**
   * Matching `pat` at position `i`: the boundaries of the tokens, `b[t]` the start of
   * token `t` and `b[|pat|]` the end of the match.
   */
  function MatchAt(s: string, i: nat, pat: seq<Token>): (r: Option<seq<nat>>)
    requires i <= |s|
    ensures r.Some? ==> |r.value| == |pat| + 1 && r.value[0] == i
    decreases |pat|
  {
    if pat == [] then Some([i])
    else
      match Step(s, i, pat[0])
      case None => None
      case Some(e) =>
        match MatchAt(s, e, pat[1..])
        case None => None
        case Some(b) => Some([i] + b)
  }

  /** Two boundaries of a match are in order, and within the text. */
  lemma {:induction false} MatchAtOrdered(s: string, i: nat, pat: seq<Token>, t: nat, u: nat)
    requires i <= |s| && t <= u <= |pat|
    ensures MatchAt(s, i, pat).Some? ==> i <= MatchAt(s, i, pat).value[t] <= MatchAt(s, i, pat).value[u] <= |s|
    decreases |pat|
  {
    if pat != [] && MatchAt(s, i, pat).Some? {
      var e := Step(s, i, pat[0]).value;
      if t == 0 {
        MatchAtOrdered(s, e, pat[1..], 0, u - (if u == 0 then 0 else 1));
      } else {
        MatchAtOrdered(s, e, pat[1..], t - 1, u - 1);
      }
    }
  }

  /** Token `t` of a match consumes exactly the span between its two boundaries. */
  lemma {:induction false} MatchAtConsumes(s: string, i: nat, pat: seq<Token>, t: nat)
    requires i <= |s| && t < |pat|
    ensures MatchAt(s, i, pat).Some? ==>
      MatchAt(s, i, pat).value[t] <= MatchAt(s, i, pat).value[t + 1] <= |s| &&
      Consumes(s, MatchAt(s, i, pat).value[t], MatchAt(s, i, pat).value[t + 1], pat[t])
    decreases |pat|
  {
    if MatchAt(s, i, pat).Some? {
      var e := Step(s, i, pat[0]).value;
      if t == 0 {
        MatchAtOrdered(s, e, pat[1..], 0, 0);
      } else {
        MatchAtConsumes(s, e, pat[1..], t - 1);
        assert pat[t] == pat[1..][t - 1];
      }
    }
  }

  /** The leftmost match starting at or after `from`. */
  function SearchFrom(s: string, pat: seq<Token>, from: nat): (r: Option<seq<nat>>)
    requires from <= |s|
    ensures r.Some? ==> |r.value| == |pat| + 1 && from <= r.value[0] <= |s|
    ensures r.Some? ==> MatchAt(s, r.value[0], pat) == r
    ensures forall j :: from <= j <= |s| && (r.None? || j < r.value[0]) ==> MatchAt(s, j, pat).None?
    decreases |s| - from
  {
    match MatchAt(s, from, pat)
    case Some(b) => Some(b)
    case None => if from == |s| then None else SearchFrom(s, pat, from + 1)
  }

  /** `(s.match(re) || [])[1]`: the text spanned by tokens `first..last` of the leftmost match. */
  function Capture(s: string, pat: seq<Token>, first: nat, last: nat): (r: Option<string>)
    requires first <= last < |pat|
  {
    match SearchFrom(s, pat, 0)
    case None => None
    case Some(b) =>
      MatchAtOrdered(s, b[0], pat, first, last + 1);
      Some(s[b[first]..b[last + 1]])
  }

  /** A literal marker at `i` directly followed by a character of class `k`. */
  predicate MarkerRunAt(s: string, m: string, k: CharClass, i: int) {
    OccursAt(s, m, i) && i + |m| < |s| && InClass(s[i + |m|], k)
  }

  /** The pattern `marker(class+)` with its group. */
  function MarkerRun(s: string, m: string, k: CharClass): Option<string> {
    Capture(s, [Lit(m), Run(k, true)], 1, 1)
  }

  lemma MatchMarkerRunAt(s: string, m: string, k: CharClass, i: nat)
    requires i <= |s|
    ensures MatchAt(s, i, [Lit(m), Run(k, true)]).Some? <==> MarkerRunAt(s, m, k, i)
    ensures MarkerRunAt(s, m, k, i) ==>
      MatchAt(s, i, [Lit(m), Run(k, true)]) == Some([i, i + |m|, RunEnd(s, i + |m|, k)])
  {
    var pat := [Lit(m), Run(k, true)];
    assert pat[1..] == [Run(k, true)];
    assert pat[1..][1..] == [];
    var j := i + |m|;
    assert StartsWith(s[i..], m) <==> OccursAt(s, m, i) by {
      if |m| <= |s| - i { assert s[i..][..|m|] == s[i..j]; }
    }
    if OccursAt(s, m, i) {
      assert Step(s, i, Lit(m)) == Some(j);
      var e := RunEnd(s, j, k);
      assert e > j <==> j < |s| && InClass(s[j], k);
      if e > j {
        assert MatchAt(s, e, pat[1..][1..]) == Some([e]);
        assert MatchAt(s, j, pat[1..]) == Some([j] + [e]);
        assert [j] + [e] == [j, e];
        assert pat[0] == Lit(m);
        assert MatchAt(s, i, pat) == Some([i] + [j, e]);
        assert [i] + [j, e] == [i, j, e];
      } else {
        assert Step(s, j, Run(k, true)).None?;
      }
    } else {
      assert Step(s, i, Lit(m)).None?;
    }
  }

  /**
   * The value extracted by `marker(class+)` is the maximal class run after the leftmost
   * occurrence of the marker that is followed by a character of the class; there is none
   * exactly when no occurrence of the marker is so followed.
   */
  lemma {:induction false} MarkerRunSpec(s: string, m: string, k: CharClass)
    ensures MarkerRun(s, m, k).None? <==> forall i :: 0 <= i <= |s| ==> !MarkerRunAt(s, m, k, i)
    ensures MarkerRun(s, m, k).Some? ==> exists i :: (0 <= i <= |s| && MarkerRunAt(s, m, k, i) &&
      (forall j :: 0 <= j < i ==> !MarkerRunAt(s, m, k, j)) &&
      MarkerRun(s, m, k).value == s[i + |m|..RunEnd(s, i + |m|, k)])
  {
    if MarkerRun(s, m, k).Some? {
      var i := MarkerRunFound(s, m, k);
      assert 0 <= i <= |s| && MarkerRunAt(s, m, k, i);
    } else {
      MarkerRunMissing(s, m, k);
    }
  }

  /** A match of `marker(class+)`: its start is the first position the pattern is found at. */
  lemma MarkerRunFound(s: string, m: string, k: CharClass) returns (i: nat)
    requires MarkerRun(s, m, k).Some?
    ensures i <= |s| && MarkerRunAt(s, m, k, i)
    ensures forall j :: 0 <= j < i ==> !MarkerRunAt(s, m, k, j)
    ensures MarkerRun(s, m, k).value == s[i + |m|..RunEnd(s, i + |m|, k)]
  {
    var pat := [Lit(m), Run(k, true)];
    var r := SearchFrom(s, pat, 0);
    i := r.value[0];
    MatchMarkerRunAt(s, m, k, i);
    assert MarkerRunAt(s, m, k, i);
    var b := r.value;
    assert b[1] == i + |m| && b[2] == RunEnd(s, i + |m|, k);
    forall j | 0 <= j < i ensures !MarkerRunAt(s, m, k, j) {
      MatchMarkerRunAt(s, m, k, j);
    }
    assert MarkerRun(s, m, k) == Some(s[b[1]..b[2]]);
  }

  /** No match of `marker(class+)`: no occurrence of the marker is followed by a class character. */
  lemma MarkerRunMissing(s: string, m: string, k: CharClass)
    requires MarkerRun(s, m, k).None?
    ensures forall i :: 0 <= i <= |s| ==> !MarkerRunAt(s, m, k, i)
  {
    forall j | 0 <= j <= |s| ensures !MarkerRunAt(s, m, k, j) {
      MatchMarkerRunAt(s, m, k, j);
    }
  }

  /** Every character of an extracted `marker(class+)` value is in the class, and there is one. */
  lemma MarkerRunInClass(s: string, m: string, k: CharClass)
    ensures MarkerRun(s, m, k).Some? ==>
      |MarkerRun(s, m, k).value| >= 1 && forall c :: c in MarkerRun(s, m, k).value ==> InClass(c, k)
  {
    MarkerRunSpec(s, m, k);
  }

  /**
   * A literal opening `m` at `i`, then the maximal run of class `k`, then the literal
   * closing `t` right where that run stops.
   */
  predicate DelimitedAt(s: string, m: string, k: CharClass, t: string, i: int) {
    OccursAt(s, m, i) && OccursAt(s, t, RunEnd(s, i + |m|, k))
  }

  /** The pattern `m(class*)t` with its group. */
  function Delimited(s: string, m: string, k: CharClass, t: string): Option<string> {
    Capture(s, [Lit(m), Run(k, false), Lit(t)], 1, 1)
  }

  /** One unfolding of `MatchAt` on a pattern with a first token. */
  lemma MatchAtCons(s: string, i: nat, tok: Token, rest: seq<Token>)
    requires i <= |s|
    ensures MatchAt(s, i, [tok] + rest) ==
      match Step(s, i, tok)
      case None => None
      case Some(e) => (match MatchAt(s, e, rest) case None => None case Some(b) => Some([i] + b))
  {
    assert ([tok] + rest)[0] == tok && ([tok] + rest)[1..] == rest;
  }

  lemma LitStep(s: string, i: nat, t: string)
    requires i <= |s|
    ensures Step(s, i, Lit(t)) == if OccursAt(s, t, i) then Some(i + |t|) else None
  {
    if |t| <= |s| - i { assert s[i..][..|t|] == s[i..i + |t|]; }
  }

  /** A run then a closing literal, matched at `j`. */
  lemma MatchRunThenLit(s: string, j: nat, k: CharClass, t: string)
    requires j <= |s|
    ensures MatchAt(s, j, [Run(k, false), Lit(t)]) ==
      if OccursAt(s, t, RunEnd(s, j, k)) then Some([j, RunEnd(s, j, k), RunEnd(s, j, k) + |t|]) else None
  {
    var e := RunEnd(s, j, k);
    var p3: seq<Token> := [Lit(t)];
    assert [Run(k, false), Lit(t)] == [Run(k, false)] + p3;
    assert p3 == [Lit(t)] + [];
    LitStep(s, e, t);
    MatchAtCons(s, j, Run(k, false), p3);
    MatchAtCons(s, e, Lit(t), []);
    if OccursAt(s, t, e) {
      assert MatchAt(s, e + |t|, []) == Some([e + |t|]);
      assert [e] + [e + |t|] == [e, e + |t|];
      assert [j] + [e, e + |t|] == [j, e, e + |t|];
    }
  }

  lemma MatchDelimitedOpen(s: string, m: string, k: CharClass, t: string, i: nat)
    requires i <= |s| && OccursAt(s, m, i)
    ensures MatchAt(s, i, [Lit(m), Run(k, false), Lit(t)]) ==
      if OccursAt(s, t, RunEnd(s, i + |m|, k))
      then Some([i, i + |m|, RunEnd(s, i + |m|, k), RunEnd(s, i + |m|, k) + |t|])
      else None
  {
    var pat := [Lit(m), Run(k, false), Lit(t)];
    var p2 := [Run(k, false), Lit(t)];
    var j := i + |m|;
    var e := RunEnd(s, j, k);
    assert Step(s, i, Lit(m)) == Some(j) by { LitStep(s, i, m); }
    assert MatchAt(s, i, pat) == (match MatchAt(s, j, p2) case None => None case Some(b) => Some([i] + b)) by {
      assert pat == [Lit(m)] + p2;
      MatchAtCons(s, i, Lit(m), p2);
    }
    MatchRunThenLit(s, j, k, t);
    if OccursAt(s, t, e) {
      assert [i] + [j, e, e + |t|] == [i, j, e, e + |t|];
    }
  }

  lemma MatchDelimitedAt(s: string, m: string, k: CharClass, t: string, i: nat)
    requires i <= |s|
    ensures MatchAt(s, i, [Lit(m), Run(k, false), Lit(t)]).Some? <==> DelimitedAt(s, m, k, t, i)
    ensures DelimitedAt(s, m, k, t, i) ==>
      MatchAt(s, i, [Lit(m), Run(k, false), Lit(t)]) ==
      Some([i, i + |m|, RunEnd(s, i + |m|, k), RunEnd(s, i + |m|, k) + |t|])
  {
    if OccursAt(s, m, i) {
      MatchDelimitedOpen(s, m, k, t, i);
    } else {
      var p2 := [Run(k, false), Lit(t)];
      assert [Lit(m), Run(k, false), Lit(t)] == [Lit(m)] + p2;
      LitStep(s, i, m);
      MatchAtCons(s, i, Lit(m), p2);
    }
  }

  /**
   * The value extracted by `m(class*)t` is the maximal class run after the leftmost
   * opening literal that the run leads to the closing literal from; there is none
   * exactly when no occurrence of the opening literal does.
   */
  lemma {:induction false} DelimitedSpec(s: string, m: string, k: CharClass, t: string)
    ensures Delimited(s, m, k, t).None? <==> forall i :: 0 <= i <= |s| ==> !DelimitedAt(s, m, k, t, i)
    ensures Delimited(s, m, k, t).Some? ==> exists i :: (0 <= i <= |s| && DelimitedAt(s, m, k, t, i) &&
      (forall j :: 0 <= j < i ==> !DelimitedAt(s, m, k, t, j)) &&
      Delimited(s, m, k, t).value == s[i + |m|..RunEnd(s, i + |m|, k)])
  {
    if Delimited(s, m, k, t).Some? {
      var i := DelimitedFound(s, m, k, t);
      assert 0 <= i <= |s| && DelimitedAt(s, m, k, t, i);
    } else {
      DelimitedMissing(s, m, k, t);
    }
  }

  /** A match of `m(class*)t`: its start is the first position the pattern is found at. */
  lemma DelimitedFound(s: string, m: string, k: CharClass, t: string) returns (i: nat)
    requires Delimited(s, m, k, t).Some?
    ensures i <= |s| && DelimitedAt(s, m, k, t, i)
    ensures forall j :: 0 <= j < i ==> !DelimitedAt(s, m, k, t, j)
    ensures Delimited(s, m, k, t).value == s[i + |m|..RunEnd(s, i + |m|, k)]
  {
    var pat := [Lit(m), Run(k, false), Lit(t)];
    var r := SearchFrom(s, pat, 0);
    i := r.value[0];
    MatchDelimitedAt(s, m, k, t, i);
    assert DelimitedAt(s, m, k, t, i);
    var b := r.value;
    assert b[1] == i + |m| && b[2] == RunEnd(s, i + |m|, k);
    forall j | 0 <= j < i ensures !DelimitedAt(s, m, k, t, j) {
      MatchDelimitedAt(s, m, k, t, j);
    }
    assert Delimited(s, m, k, t) == Some(s[b[1]..b[2]]);
  }

  /** No match of `m(class*)t`: no position has the opening literal, a run and the closing literal. */
  lemma DelimitedMissing(s: string, m: string, k: CharClass, t: string)
    requires Delimited(s, m, k, t).None?
    ensures forall i :: 0 <= i <= |s| ==> !DelimitedAt(s, m, k, t, i)
  {
    forall j | 0 <= j <= |s| ensures !DelimitedAt(s, m, k, t, j) {
      MatchDelimitedAt(s, m, k, t, j);
    }
  }

  /** What `m(class*)t` extracts holds only class characters and is enclosed by the literals in `s`. */
  lemma DelimitedInClass(s: string, m: string, k: CharClass, t: string)
    ensures Delimited(s, m, k, t).Some? ==> forall c :: c in Delimited(s, m, k, t).value ==> InClass(c, k)
    ensures Delimited(s, m, k, t).Some? ==> exists i :: OccursAt(s, m + Delimited(s, m, k, t).value + t, i)
  {
    DelimitedSpec(s, m, k, t);
    if Delimited(s, m, k, t).Some? {
      var v := Delimited(s, m, k, t).value;
      var i :| 0 <= i <= |s| && DelimitedAt(s, m, k, t, i) && v == s[i + |m|..RunEnd(s, i + |m|, k)];
      EnclosedRun(s, m, k, t, i);
    }
  }

  lemma EnclosedRun(s: string, m: string, k: CharClass, t: string, i: nat)
    requires DelimitedAt(s, m, k, t, i)
    ensures forall c :: c in s[i + |m|..RunEnd(s, i + |m|, k)] ==> InClass(c, k)
    ensures OccursAt(s, m + s[i + |m|..RunEnd(s, i + |m|, k)] + t, i)
  {
    var j := i + |m|;
    var e := RunEnd(s, j, k);
    var v := s[j..e];
    forall c | c in v ensures InClass(c, k) {
      var p :| 0 <= p < |v| && v[p] == c;
      assert s[j + p] == c;
    }
    assert s[i..e + |t|] == s[i..j] + v + s[e..e + |t|];
  }

  lemma SliceConcat(s: string, a: nat, b: nat, c: nat)
    requires a <= b <= c <= |s|
    ensures s[a..c] == s[a..b] + s[b..c]
  {
  }

  predicate AllDigits(g: string) {
    forall p :: 0 <= p < |g| ==> IsDigit(g[p])
  }

  /** `inet (\d+\.\d+\.\d+\.\d+)`. */
  const InetPattern: seq<Token> := [Lit("inet "), Run(Digit, true), Lit("."), Run(Digit, true),
    Lit("."), Run(Digit, true), Lit("."), Run(Digit, true)]

  function Inet(s: string): Option<string> {
    Capture(s, InetPattern, 1, 7)
  }

  /** The extracted address is four non-empty groups of digits joined by dots. */
  lemma InetDottedQuad(s: string)
    ensures Inet(s).Some? ==> exists g1, g2, g3, g4 ::
      (|g1| > 0 && |g2| > 0 && |g3| > 0 && |g4| > 0 &&
       AllDigits(g1) && AllDigits(g2) && AllDigits(g3) && AllDigits(g4) &&
       Inet(s).value == g1 + "." + g2 + "." + g3 + "." + g4)
  {
    var r := SearchFrom(s, InetPattern, 0);
    if r.Some? {
      var i := r.value[0];
      var b := r.value;
      assert MatchAt(s, i, InetPattern) == r;
      MatchAtConsumes(s, i, InetPattern, 1);
      MatchAtConsumes(s, i, InetPattern, 2);
      MatchAtConsumes(s, i, InetPattern, 3);
      MatchAtConsumes(s, i, InetPattern, 4);
      MatchAtConsumes(s, i, InetPattern, 5);
      MatchAtConsumes(s, i, InetPattern, 6);
      MatchAtConsumes(s, i, InetPattern, 7);
      var g1, g2, g3, g4 := DigitGroup(s, b[1], b[2]), DigitGroup(s, b[3], b[4]),
        DigitGroup(s, b[5], b[6]), DigitGroup(s, b[7], b[8]);
      SevenSpans(s, b[1], b[2], b[3], b[4], b[5], b[6], b[7], b[8]);
      assert Inet(s).value == s[b[1]..b[8]];
    }
  }

  /** The span `s[a..b]` consumed by a non-empty digit run. */
  function DigitGroup(s: string, a: nat, b: nat): (g: string)
    requires a <= b <= |s| && Consumes(s, a, b, Run(Digit, true))
    ensures g == s[a..b] && |g| > 0 && AllDigits(g)
  {
    s[a..b]
  }

  lemma SevenSpans(s: string, a1: nat, a2: nat, a3: nat, a4: nat, a5: nat, a6: nat, a7: nat, a8: nat)
    requires a1 <= a2 <= a3 <= a4 <= a5 <= a6 <= a7 <= a8 <= |s|
    ensures s[a1..a8] == s[a1..a2] + s[a2..a3] + s[a3..a4] + s[a4..a5] + s[a5..a6] + s[a6..a7] + s[a7..a8]
  {
    SliceConcat(s, a1, a2, a8);
    SliceConcat(s, a2, a3, a8);
    SliceConcat(s, a3, a4, a8);
    SliceConcat(s, a4, a5, a8);
    SliceConcat(s, a5, a6, a8);
    SliceConcat(s, a6, a7, a8);
  }
}
