/** Filtering sequences. */
module Sequences {
  function Filter<T>(s: seq<T>, keep: T -> bool): seq<T> {
    if s == [] then []
    else
      var n := |s| - 1;
      if keep(s[n]) then Filter(s[..n], keep) + [s[n]] else Filter(s[..n], keep)
  }

  lemma {:induction false} FilterMembers<T>(s: seq<T>, keep: T -> bool, x: T)
    ensures x in Filter(s, keep) <==> x in s && keep(x)
  {
    if s != [] {
      var n := |s| - 1;
      FilterMembers(s[..n], keep, x);
      assert s == s[..n] + [s[n]];
    }
  }

  lemma {:induction false} FilterAppend<T>(s: seq<T>, t: seq<T>, keep: T -> bool)
    ensures Filter(s + t, keep) == Filter(s, keep) + Filter(t, keep)
  {
    if t == [] {
      assert s + t == s;
    } else {
      var n := |t| - 1;
      FilterAppend(s, t[..n], keep);
      assert (s + t)[..|s + t| - 1] == s + t[..n];
    }
  }

  /** From a kept element on, filtering the rest gives the rest of the filtered sequence. */
  lemma {:induction false} FilterFrom<T>(s: seq<T>, keep: T -> bool, j: nat) returns (at: nat)
    requires j < |Filter(s, keep)|
    ensures at < |s| && s[at] == Filter(s, keep)[j] && Filter(s[at..], keep) == Filter(s, keep)[j..]
  {
    var n := |s| - 1;
    var before := Filter(s[..n], keep);
    if j < |before| {
      at := FilterFrom(s[..n], keep, j);
      assert s[at..] == s[..n][at..] + [s[n]];
      FilterAppend(s[..n][at..], [s[n]], keep);
      assert Filter([s[n]], keep) == if keep(s[n]) then [s[n]] else [];
      assert Filter(s, keep)[j..] == before[j..] + if keep(s[n]) then [s[n]] else [];
    } else {
      at := n;
      assert s[n..] == [s[n]];
    }
  }
}
