/** Counting the elements of a sequence that satisfy a predicate. */
module Counting {

  function Count<T>(s: seq<T>, p: T -> bool): (n: nat)
    ensures n <= |s|
  {
    if s == [] then 0 else Count(s[..|s| - 1], p) + if p(s[|s| - 1]) then 1 else 0
  }

  lemma {:induction false} CountUpdate<T>(s: seq<T>, i: nat, x: T, p: T -> bool)
    requires i < |s|
    ensures Count(s[i := x], p) == Count(s, p) - (if p(s[i]) then 1 else 0) + (if p(x) then 1 else 0)
  {
    var k := |s| - 1;
    if i < k {
      assert s[i := x][..k] == s[..k][i := x];
      CountUpdate(s[..k], i, x, p);
    } else {
      assert s[i := x][..k] == s[..k];
    }
  }

  lemma {:induction false} CountNone<T>(s: seq<T>, p: T -> bool)
    ensures Count(s, p) == 0 <==> forall i :: 0 <= i < |s| ==> !p(s[i])
  {
    if s != [] {
      CountNone(s[..|s| - 1], p);
    }
  }

  lemma {:induction false} CountAll<T>(s: seq<T>, p: T -> bool)
    ensures Count(s, p) == |s| <==> forall i :: 0 <= i < |s| ==> p(s[i])
  {
    if s != [] {
      CountAll(s[..|s| - 1], p);
    }
  }

  /** Two different satisfying positions make the count at least two. */
  lemma CountTwo<T>(s: seq<T>, p: T -> bool, i: nat, j: nat)
    requires i < j < |s| && p(s[i]) && p(s[j])
    ensures 2 <= Count(s, p)
  {
    var k := |s| - 1;
    if j < k {
      CountTwo(s[..k], p, i, j);
    } else {
      CountNone(s[..k], p);
      assert s[..k][i] == s[i];
    }
  }

  lemma CountSome<T>(s: seq<T>, p: T -> bool, i: nat)
    requires i < |s| && p(s[i])
    ensures 1 <= Count(s, p)
  {
    CountNone(s, p);
  }

  /** Predicates that agree on the elements count the same. */
  lemma {:induction false} CountSame<T>(s: seq<T>, t: seq<T>, p: T -> bool, q: T -> bool)
    requires |s| == |t| && forall i :: 0 <= i < |s| ==> p(s[i]) == q(t[i])
    ensures Count(s, p) == Count(t, q)
  {
    if s != [] {
      CountSame(s[..|s| - 1], t[..|t| - 1], p, q);
    }
  }

  function One(b: bool): nat { if b then 1 else 0 }

  /** Numbers below `n`, all different, are at most `n` many. */
  lemma {:induction false} Pigeonhole(s: seq<nat>, n: nat)
    requires forall i :: 0 <= i < |s| ==> s[i] < n
    requires forall i, j :: 0 <= i < j < |s| ==> s[i] != s[j]
    ensures |s| <= n
  {
    assert |s| > 0 ==> s[0] < n;
    if 0 < n {
      if i :| 0 <= i < |s| && s[i] == n - 1 {
        Pigeonhole(s[..i] + s[i + 1..], n - 1);
      } else {
        Pigeonhole(s, n - 1);
      }
    }
  }

  /** n different numbers below n are all of them. */
  lemma Covering(s: seq<nat>, n: nat)
    requires |s| == n && (forall i :: 0 <= i < n ==> s[i] < n) && forall i, j :: 0 <= i < j < n ==> s[i] != s[j]
    ensures forall x: nat :: x < n ==> x in s
  {
    forall x: nat | x < n ensures x in s {
      if x !in s {
        Pigeonhole(seq(n + 1, i requires 0 <= i <= n => if i == n then x else s[i]), n);
      }
    }
  }
}
