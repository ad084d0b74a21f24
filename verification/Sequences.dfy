/** Facts about slices and prefixes. */
module Sequences {

  lemma SliceOfSlice<T>(s: seq<T>, lo: nat, hi: nat, a: nat, b: nat)
    requires lo <= hi <= |s| && a <= b <= hi - lo
    ensures s[lo..hi][a..b] == s[lo + a..lo + b]
  {
    var t := s[lo..hi];
    forall i | 0 <= i < b - a ensures t[a..b][i] == s[lo + a..lo + b][i] {
      assert t[a..b][i] == t[a + i];
    }
  }

  lemma PrefixExtends<T>(a: seq<T>, b: seq<T>, c: seq<T>)
    requires a <= b <= c
    ensures a <= c
  {
  }

  lemma PrefixMiddle<T>(a: seq<T>, b: seq<T>, c: seq<T>)
    requires a + b <= c
    ensures c[|a|..|a| + |b|] == b
  {
    assert c[|a|..|a| + |b|] == (a + b)[|a|..];
  }

  lemma Middle<T>(a: seq<T>, b: seq<T>, c: seq<T>)
    ensures (a + b + c)[|a|..|a| + |b|] == b
  {
  }

  lemma AppendAssoc<T>(a: seq<T>, b: seq<T>, c: seq<T>)
    ensures a + b + c == a + (b + c)
  {
  }

  lemma AppendLast<T>(a: seq<T>, b: seq<T>)
    requires b != []
    ensures var s := a + b; s[..|s| - 1] == a + b[..|b| - 1] && s[|s| - 1] == b[|b| - 1]
  {
  }
}
