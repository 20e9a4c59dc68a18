/** Queries over append-only tables: first matching row, number of matching rows. */
module Seqs {
  datatype Option<+T> = None | Some(value: T)

  /** Python's truthiness of an optional string: present and not empty. */
  predicate Truthy(s: Option<string>) {
    s.Some? && s.value != ""
  }

  /** Python's `int(x)` on a float: truncation toward zero. */
  function Trunc(x: real): int {
    if x >= 0.0 then x.Floor else -((-x).Floor)
  }

  /** The part after the point is dropped, so the result is the nearer whole number on the way to zero. */
  lemma Truncates(x: real)
    ensures x >= 0.0 ==> Trunc(x) as real <= x < Trunc(x) as real + 1.0
    ensures x < 0.0 ==> Trunc(x) as real - 1.0 < x <= Trunc(x) as real
  {
  }

  /** `query.filter(p).first()`: the first row, in insertion order, that satisfies p. */
  function First<T>(s: seq<T>, p: T -> bool): (r: Option<nat>)
    ensures r.Some? ==> r.value < |s| && p(s[r.value]) && forall j :: 0 <= j < r.value ==> !p(s[j])
    ensures r.None? ==> forall j :: 0 <= j < |s| ==> !p(s[j])
  {
    if s == [] then None
    else if p(s[0]) then Some(0)
    else
      match First(s[1..], p)
      case None => None
      case Some(i) =>
        assert forall j :: 1 <= j <= i ==> s[j] == s[1..][j - 1];
        Some(i + 1)
  }

  /** `SELECT COUNT(*) WHERE p`. */
  function Count<T>(s: seq<T>, p: T -> bool): (n: nat)
    ensures n <= |s|
  {
    if s == [] then 0 else Count(s[..|s| - 1], p) + (if p(s[|s| - 1]) then 1 else 0)
  }

  function Ind(b: bool): nat {
    if b then 1 else 0
  }

  lemma CountAppend<T>(s: seq<T>, x: T, p: T -> bool)
    ensures Count(s + [x], p) == Count(s, p) + Ind(p(x))
  {
    assert (s + [x])[..|s|] == s;
  }

  lemma CountPair<T>(x: T, y: T, p: T -> bool)
    ensures Count([x, y], p) == Ind(p(x)) + Ind(p(y))
  {
    assert [x, y][..1] == [x] && [x][..0] == [];
  }

  lemma {:induction false} CountUpdate<T>(s: seq<T>, i: nat, x: T, p: T -> bool)
    requires i < |s|
    ensures Count(s[i := x], p) + Ind(p(s[i])) == Count(s, p) + Ind(p(x))
  {
    var n := |s| - 1;
    if i == n {
      assert s[i := x][..n] == s[..n];
    } else {
      CountUpdate(s[..n], i, x, p);
      assert s[i := x][..n] == s[..n][i := x];
    }
  }

  /** The indices of the rows that match. */
  ghost function Where<T>(s: seq<T>, p: T -> bool): set<int> {
    set i | 0 <= i < |s| && p(s[i])
  }

  /** `COUNT(*)` is the number of rows that match. */
  lemma {:induction false} CountIsSize<T>(s: seq<T>, p: T -> bool)
    ensures Count(s, p) == |Where(s, p)|
  {
    if s == [] {
      assert Where(s, p) == {};
    } else {
      var n := |s| - 1;
      CountIsSize(s[..n], p);
      assert Where(s, p) == Where(s[..n], p) + (if p(s[n]) then {n} else {});
    }
  }

  /** A count of zero means no row matches, and conversely. */
  lemma {:induction false} CountZero<T>(s: seq<T>, p: T -> bool)
    ensures Count(s, p) == 0 <==> forall i :: 0 <= i < |s| ==> !p(s[i])
  {
    if s != [] {
      CountZero(s[..|s| - 1], p);
      assert forall i :: 0 <= i < |s| - 1 ==> s[i] == s[..|s| - 1][i];
    }
  }

  /** When p splits into two disjoint cases the counts add up. */
  lemma {:induction false} CountSplit<T>(s: seq<T>, p: T -> bool, q: T -> bool, r: T -> bool)
    requires forall i :: 0 <= i < |s| ==> (p(s[i]) <==> q(s[i]) || r(s[i])) && !(q(s[i]) && r(s[i]))
    ensures Count(s, p) == Count(s, q) + Count(s, r)
  {
    if s != [] {
      CountSplit(s[..|s| - 1], p, q, r);
    }
  }

  lemma {:induction false} CountMono<T>(s: seq<T>, p: T -> bool, q: T -> bool)
    requires forall i :: 0 <= i < |s| && p(s[i]) ==> q(s[i])
    ensures Count(s, p) <= Count(s, q)
  {
    if s != [] {
      CountMono(s[..|s| - 1], p, q);
    }
  }

  /** Two tables of the same length that agree row by row on what is asked give the same answers. */
  lemma {:induction false} SameSelection<S, T>(s: seq<S>, t: seq<T>, p: S -> bool, q: T -> bool)
    requires |s| == |t| && forall i :: 0 <= i < |s| ==> p(s[i]) == q(t[i])
    ensures First(s, p) == First(t, q) && Count(s, p) == Count(t, q)
  {
    var (f, g) := (First(s, p), First(t, q));
    assert f.Some? ==> q(t[f.value]);
    assert g.Some? ==> p(s[g.value]);
    if s != [] {
      var n := |s| - 1;
      SameSelection(s[..n], t[..n], p, q);
    }
  }

  lemma FirstAppend<T>(s: seq<T>, x: T, p: T -> bool)
    ensures First(s + [x], p) == if First(s, p).Some? then First(s, p) else if p(x) then Some(|s|) else None
  {
    var (f, g) := (First(s, p), First(s + [x], p));
    assert forall i :: 0 <= i < |s| ==> (s + [x])[i] == s[i];
    if f.Some? {
      assert p((s + [x])[f.value]);
    } else if p(x) {
      assert p((s + [x])[|s|]);
    }
  }
}
