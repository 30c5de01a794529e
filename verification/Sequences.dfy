/** Sequences without repetitions. */
module Sequences {
  /** A slice without its last element. */
  lemma SliceInit<T>(s: seq<T>, a: nat, b: nat)
    requires a < b <= |s|
    ensures s[a..b][..b - a - 1] == s[a..b - 1] && s[a..b][b - a - 1] == s[b - 1]
  {
  }

  ghost predicate NoRepeat<T(!new)>(s: seq<T>) {
    |s| > 0 ==> s[0] !in s[1..] && NoRepeat(s[1..])
  }

  lemma {:induction false} NoRepeatPair<T(!new)>(s: seq<T>, i: nat, j: nat)
    requires NoRepeat(s) && i < j < |s|
    ensures s[i] != s[j]
  {
    if i == 0 {
      assert s[1..][j - 1] == s[j];
    } else {
      NoRepeatPair(s[1..], i - 1, j - 1);
    }
  }

  lemma {:induction false} NoRepeatAppend<T(!new)>(s: seq<T>, x: T)
    requires NoRepeat(s)
    ensures NoRepeat(s + [x]) <==> x !in s
  {
    var all := s + [x];
    if s != [] {
      assert all[1..] == s[1..] + [x];
      NoRepeatAppend(s[1..], x);
      assert s == [s[0]] + s[1..];
    }
  }

  lemma {:induction false} NoRepeatPrefix<T(!new)>(s: seq<T>, n: nat)
    requires NoRepeat(s) && n <= |s|
    ensures NoRepeat(s[..n])
  {
    if n > 0 {
      NoRepeatPrefix(s[1..], n - 1);
      assert s[..n][1..] == s[1..][..n - 1];
      assert forall x :: x in s[1..][..n - 1] ==> x in s[1..];
    }
  }

  /** The set of its elements is as large as the sequence is long. */
  lemma {:induction false} NoRepeatSize<T(!new)>(s: seq<T>, elements: set<T>)
    requires NoRepeat(s) && forall x :: x in s <==> x in elements
    ensures |elements| == |s|
  {
    if s == [] {
      assert elements == {};
    } else {
      assert s == [s[0]] + s[1..];
      NoRepeatSize(s[1..], elements - {s[0]});
    }
  }
}
