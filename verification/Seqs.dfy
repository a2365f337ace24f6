/** Filtering sequences. */
module Seqs {

  /** The elements of s that satisfy `keep`, in order. */
  function Filter<T>(s: seq<T>, keep: T -> bool): (r: seq<T>)
    ensures |r| <= |s|
  {
    if s == [] then []
    else
      var x := s[|s| - 1];
      Filter(s[..|s| - 1], keep) + if keep(x) then [x] else []
  }

  lemma FilterAppend<T>(s: seq<T>, x: T, keep: T -> bool)
    ensures Filter(s + [x], keep) == Filter(s, keep) + if keep(x) then [x] else []
  {
    assert (s + [x])[..|s|] == s;
  }

  lemma {:induction false} FilterConcat<T>(a: seq<T>, b: seq<T>, keep: T -> bool)
    ensures Filter(a + b, keep) == Filter(a, keep) + Filter(b, keep)
    decreases |b|
  {
    if b == [] {
      assert a + b == a;
    } else {
      var n := |b| - 1;
      assert (a + b)[..|a| + n] == a + b[..n];
      FilterConcat(a, b[..n], keep);
    }
  }

  lemma {:induction false} FilterMember<T>(s: seq<T>, keep: T -> bool, x: T)
    ensures x in Filter(s, keep) <==> x in s && keep(x)
    decreases |s|
  {
    if s != [] {
      var n := |s| - 1;
      FilterMember(s[..n], keep, x);
      assert s == s[..n] + [s[n]];
    }
  }

  /** A prefix of a filtered sequence is the filtering of a prefix that ends in its last
      element. */
  lemma {:induction false} FilterPrefix<T>(s: seq<T>, keep: T -> bool, n: nat) returns (k: nat)
    requires 0 < n <= |Filter(s, keep)|
    ensures 0 < k <= |s|
    ensures Filter(s[..k], keep) == Filter(s, keep)[..n] && s[k - 1] == Filter(s, keep)[n - 1]
    decreases |s|
  {
    var m := |s| - 1;
    if n == |Filter(s, keep)| && keep(s[m]) {
      k := |s|;
      assert s[..k] == s;
    } else {
      k := FilterPrefix(s[..m], keep, n);
      assert s[..m][..k] == s[..k];
    }
  }
}
