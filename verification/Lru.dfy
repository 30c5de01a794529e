/**
 The bounded least-recently-used set that the connector handler filters duplicates with
 (`LruCache::put` as used in packages/media_connector/src/handler_service.rs).

 `HitIff` characterises a hit without the cache: the key has arrived before, and fewer than
 `cap` distinct other keys have arrived since.
 */
module Lru {
  import opened Options
  import opened Sequences

  function Without<K(==)>(s: seq<K>, k: K): seq<K> {
    if s == [] then []
    else if s[0] == k then Without(s[1..], k)
    else [s[0]] + Without(s[1..], k)
  }

  function Take<K>(s: seq<K>, n: nat): seq<K> {
    if |s| <= n then s else s[..n]
  }

  /** The cache, most recent first, after putting `k`; the oldest key is evicted beyond `cap`. */
  function Put<K(==)>(cap: nat, cache: seq<K>, k: K): seq<K> {
    Take([k] + Without(cache, k), cap)
  }

  function Cache<K(==)>(cap: nat, arrivals: seq<K>): seq<K> {
    if arrivals == [] then [] else Put(cap, Cache(cap, arrivals[..|arrivals| - 1]), arrivals[|arrivals| - 1])
  }

  /** The distinct other keys that arrived since the last arrival of `k`, if it ever arrived. */
  ghost function Since<K>(arrivals: seq<K>, k: K): Option<set<K>> {
    if arrivals == [] then None
    else
      var last := arrivals[|arrivals| - 1];
      if last == k then Some({})
      else
        match Since(arrivals[..|arrivals| - 1], k)
        case None => None
        case Some(s) => Some(s + {last})
  }

  // ---------------------------------------------------------------- an unbounded cache

  /** All keys that arrived, most recent first. */
  function Recent<K(==)>(arrivals: seq<K>): seq<K> {
    if arrivals == [] then []
    else [arrivals[|arrivals| - 1]] + Without(Recent(arrivals[..|arrivals| - 1]), arrivals[|arrivals| - 1])
  }

  lemma {:induction false} WithoutMembers<K(!new)>(s: seq<K>, k: K)
    ensures forall x :: x in Without(s, k) <==> x in s && x != k
    ensures NoRepeat(s) ==> NoRepeat(Without(s, k))
  {
    if s != [] {
      WithoutMembers(s[1..], k);
      assert s == [s[0]] + s[1..];
      if s[0] != k {
        assert Without(s, k)[1..] == Without(s[1..], k);
      }
    }
  }

  lemma {:induction false} WithoutAbsent<K>(s: seq<K>, k: K)
    requires k !in s
    ensures Without(s, k) == s
  {
    if s != [] {
      WithoutAbsent(s[1..], k);
      assert s == [s[0]] + s[1..];
    }
  }

  lemma {:induction false} WithoutConcat<K>(a: seq<K>, b: seq<K>, k: K)
    ensures Without(a + b, k) == Without(a, k) + Without(b, k)
  {
    if a == [] {
      assert a + b == b;
    } else {
      WithoutConcat(a[1..], b, k);
      assert (a + b)[0] == a[0] && (a + b)[1..] == a[1..] + b;
      if a[0] != k {
        assert [a[0]] + (Without(a[1..], k) + Without(b, k)) == ([a[0]] + Without(a[1..], k)) + Without(b, k);
      }
    }
  }

  lemma {:induction false} RecentNoRepeat<K(!new)>(arrivals: seq<K>)
    ensures NoRepeat(Recent(arrivals))
  {
    if arrivals != [] {
      var n := |arrivals| - 1;
      RecentNoRepeat(arrivals[..n]);
      WithoutMembers(Recent(arrivals[..n]), arrivals[n]);
      assert Recent(arrivals)[1..] == Without(Recent(arrivals[..n]), arrivals[n]);
    }
  }

  // ---------------------------------------------------------------- eviction loses only the oldest

  lemma TakeWithout<K(!new)>(s: seq<K>, k: K, n: nat)
    requires NoRepeat(s)
    ensures Take(Without(Take(s, n + 1), k), n) == Take(Without(s, k), n)
  {
    if |s| > n + 1 {
      var head, tail := s[..n + 1], s[n + 1..];
      assert s == head + tail;
      WithoutConcat(head, tail, k);
      NoRepeatPrefix(s, n + 1);
      WithoutLength(head, k);
      TakeConcat(Without(head, k), Without(tail, k), n);
    }
  }

  lemma TakeConcat<K>(a: seq<K>, b: seq<K>, n: nat)
    requires n <= |a|
    ensures Take(a + b, n) == Take(a, n)
  {
  }

  lemma {:induction false} WithoutLength<K(!new)>(s: seq<K>, k: K)
    ensures NoRepeat(s) ==> |Without(s, k)| >= |s| - 1
  {
    if s != [] && NoRepeat(s) {
      if s[0] == k {
        WithoutAbsent(s[1..], k);
      } else {
        WithoutLength(s[1..], k);
      }
    }
  }

  /** The cache holds the `cap` keys that arrived most recently. */
  lemma {:induction false} CacheIsRecent<K(!new)>(cap: nat, arrivals: seq<K>)
    requires cap >= 1
    ensures Cache(cap, arrivals) == Take(Recent(arrivals), cap)
  {
    if arrivals != [] {
      var n := |arrivals| - 1;
      var k, all := arrivals[n], Recent(arrivals[..n]);
      CacheIsRecent(cap, arrivals[..n]);
      RecentNoRepeat(arrivals[..n]);
      TakeWithout(all, k, cap - 1);
      TakeCons(k, Without(Take(all, cap), k), Without(all, k), cap);
    }
  }

  lemma TakeCons<K>(k: K, a: seq<K>, b: seq<K>, n: nat)
    requires n >= 1 && Take(a, n - 1) == Take(b, n - 1)
    ensures Take([k] + a, n) == Take([k] + b, n)
  {
    assert Take([k] + a, n) == [k] + Take(a, n - 1);
    assert Take([k] + b, n) == [k] + Take(b, n - 1);
  }

  // ---------------------------------------------------------------- when a key is still cached

  lemma WithoutAround<K>(a: seq<K>, k: K, b: seq<K>, last: K)
    requires last != k
    ensures Without(a + [k] + b, last) == Without(a, last) + [k] + Without(b, last)
  {
    WithoutConcat(a + [k], b, last);
    WithoutConcat(a, [k], last);
    assert [k][1..] == [];
    assert Without([k], last) == [k];
  }

  /** What precedes `k` in the order of recency is what arrived since. */
  lemma {:induction false} SplitAt<K(!new)>(arrivals: seq<K>, k: K) returns (newer: seq<K>, older: seq<K>)
    requires Since(arrivals, k).Some?
    ensures Recent(arrivals) == newer + [k] + older
    ensures NoRepeat(newer) && k !in newer
    ensures forall x :: x in newer <==> x in Since(arrivals, k).value
  {
    var n := |arrivals| - 1;
    var last, before := arrivals[n], Recent(arrivals[..n]);
    if last == k {
      newer, older := [], Without(before, k);
    } else {
      var a, b := SplitAt(arrivals[..n], k);
      WithoutAround(a, k, b, last);
      newer, older := [last] + Without(a, last), Without(b, last);
      NewerMembers(a, last, newer);
      Regroup(last, Without(a, last), k, older);
    }
  }

  lemma NewerMembers<K(!new)>(a: seq<K>, last: K, newer: seq<K>)
    requires NoRepeat(a) && newer == [last] + Without(a, last)
    ensures NoRepeat(newer) && forall x :: x in newer <==> x in a || x == last
  {
    WithoutMembers(a, last);
    assert newer[1..] == Without(a, last);
  }

  lemma Regroup<K>(last: K, a: seq<K>, k: K, b: seq<K>)
    ensures [last] + (a + [k] + b) == [last] + a + [k] + b
  {
  }

  lemma {:induction false} NeverArrived<K(!new)>(arrivals: seq<K>, k: K)
    requires Since(arrivals, k).None?
    ensures k !in Recent(arrivals)
  {
    if arrivals != [] {
      var n := |arrivals| - 1;
      NeverArrived(arrivals[..n], k);
      WithoutMembers(Recent(arrivals[..n]), arrivals[n]);
    }
  }

  /** A key is found in the cache exactly when it arrived before with fewer than `cap` distinct other keys since. */
  lemma HitIff<K(!new)>(cap: nat, arrivals: seq<K>, k: K)
    requires cap >= 1
    ensures k in Cache(cap, arrivals) <==> Since(arrivals, k).Some? && |Since(arrivals, k).value| < cap
  {
    CacheIsRecent(cap, arrivals);
    if Since(arrivals, k).None? {
      NeverArrived(arrivals, k);
      assert forall x :: x in Take(Recent(arrivals), cap) ==> x in Recent(arrivals);
    } else {
      var newer, older := SplitAt(arrivals, k);
      NoRepeatSize(newer, Since(arrivals, k).value);
      RecentNoRepeat(arrivals);
      OnlyOnce(newer, k, older);
      if |newer| < cap {
        assert Take(Recent(arrivals), cap)[|newer|] == k;
      } else {
        assert Take(Recent(arrivals), cap) == newer[..cap];
      }
    }
  }

  lemma {:induction false} OnlyOnce<K(!new)>(newer: seq<K>, k: K, older: seq<K>)
    requires NoRepeat(newer + [k] + older)
    ensures k !in newer && k !in older
  {
    var s := newer + [k] + older;
    if newer == [] {
      assert s[1..] == older && s[0] == k;
    } else {
      assert s[1..] == newer[1..] + [k] + older;
      OnlyOnce(newer[1..], k, older);
      assert s[1..][|newer| - 1] == k;
    }
  }

  // ---------------------------------------------------------------- at most once

  /** How many arrivals of `k` were not recognised as duplicates. */
  ghost function Misses<K>(cap: nat, arrivals: seq<K>, k: K): nat {
    if arrivals == [] then 0
    else
      var n := |arrivals| - 1;
      Misses(cap, arrivals[..n], k) + if arrivals[n] == k && k !in Cache(cap, arrivals[..n]) then 1 else 0
  }

  /** Fewer than `cap` distinct other keys arrive between any two consecutive arrivals of `k`. */
  ghost predicate Spaced<K>(cap: nat, arrivals: seq<K>, k: K) {
    |arrivals| > 0 ==>
      var n := |arrivals| - 1;
      && Spaced(cap, arrivals[..n], k)
      && (arrivals[n] == k && Since(arrivals[..n], k).Some? ==> |Since(arrivals[..n], k).value| < cap)
  }

  /** Duplicates are all recognised exactly when consecutive arrivals are spaced closely enough. */
  lemma {:induction false} AtMostOneMissIff<K(!new)>(cap: nat, arrivals: seq<K>, k: K)
    requires cap >= 1
    ensures Misses(cap, arrivals, k) <= 1 <==> Spaced(cap, arrivals, k)
    ensures Misses(cap, arrivals, k) == 0 <==> Since(arrivals, k).None?
  {
    if arrivals != [] {
      var n := |arrivals| - 1;
      AtMostOneMissIff(cap, arrivals[..n], k);
      HitIff(cap, arrivals[..n], k);
    }
  }
}
