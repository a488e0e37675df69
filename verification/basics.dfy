/** Small shared vocabulary: an optional value, duplicate-freedom, and the
    order-preserving filter that every `Array.prototype.filter` of the
    storefront is modelled by. */
module Basics {

  /** A value that may be absent (a missing JSON field, `undefined`). */
  datatype Option<+T> = None | Some(value: T)

  /** No element occurs twice. */
  predicate NoDup<T(==)>(s: seq<T>) {
    forall i, j :: 0 <= i < j < |s| ==> s[i] != s[j]
  }

  /** `a` can be obtained from `b` by deleting elements, keeping the order. */
  predicate IsSubsequence<T(==)>(a: seq<T>, b: seq<T>)
    decreases |b|
  {
    if a == [] then true
    else if b == [] then false
    else if a[0] == b[0] then IsSubsequence(a[1..], b[1..])
    else IsSubsequence(a, b[1..])
  }

  lemma {:induction false} SubsequenceRefl<T>(s: seq<T>)
    ensures IsSubsequence(s, s)
  {
    if s != [] { SubsequenceRefl(s[1..]); }
  }

  /** Every element of a subsequence is an element of the whole. */
  lemma {:induction false} SubsequenceMembers<T>(a: seq<T>, b: seq<T>)
    requires IsSubsequence(a, b)
    ensures forall i :: 0 <= i < |a| ==> a[i] in b
    decreases |b|
  {
    if a != [] {
      if a[0] == b[0] {
        SubsequenceMembers(a[1..], b[1..]);
        forall i | 0 < i < |a| ensures a[i] in b { assert a[i] == a[1..][i - 1]; }
      } else {
        SubsequenceMembers(a, b[1..]);
      }
    }
  }

  /** The position of the first occurrence of `x` in `s`. */
  function IndexOf<T(==)>(x: T, s: seq<T>): (k: nat)
    requires x in s
    ensures k < |s| && s[k] == x
    ensures forall j :: 0 <= j < k ==> s[j] != x
  {
    if s[0] == x then 0 else 1 + IndexOf(x, s[1..])
  }

  /** The elements of `s` satisfying `keep`, in their original order. */
  function Filter<T(==)>(s: seq<T>, keep: T -> bool): (r: seq<T>)
    ensures |r| <= |s|
    ensures forall i :: 0 <= i < |r| ==> r[i] in s && keep(r[i])
    ensures forall i :: 0 <= i < |s| && keep(s[i]) ==> s[i] in r
    ensures IsSubsequence(r, s)
  {
    if s == [] then []
    else if keep(s[0]) then [s[0]] + Filter(s[1..], keep)
    else Filter(s[1..], keep)
  }

  /** Filtering keeps everything exactly when every element passes. */
  lemma {:induction false} FilterAll<T>(s: seq<T>, keep: T -> bool)
    ensures Filter(s, keep) == s <==> forall i :: 0 <= i < |s| ==> keep(s[i])
  {
    if s != [] {
      FilterAll(s[1..], keep);
      if !keep(s[0]) {
        assert |Filter(s, keep)| < |s| by { assert Filter(s, keep) == Filter(s[1..], keep); }
      } else {
        assert (forall i :: 0 <= i < |s| ==> keep(s[i])) <==> (forall i :: 0 <= i < |s[1..]| ==> keep(s[1..][i])) by {
          forall i | 0 < i < |s| ensures s[i] == s[1..][i - 1] { }
        }
      }
    }
  }

  /** Filtering keeps every passing value as often as it occurs and drops
      every other value entirely. */
  lemma {:induction false} FilterCount<T>(s: seq<T>, keep: T -> bool, x: T)
    ensures multiset(Filter(s, keep))[x] == if keep(x) then multiset(s)[x] else 0
  {
    if s != [] {
      FilterCount(s[1..], keep, x);
      assert s == [s[0]] + s[1..];
    }
  }

  /** Filtering distributes over concatenation. */
  lemma {:induction false} FilterConcat<T>(a: seq<T>, b: seq<T>, keep: T -> bool)
    ensures Filter(a + b, keep) == Filter(a, keep) + Filter(b, keep)
  {
    if a != [] {
      assert (a + b)[1..] == a[1..] + b;
      FilterConcat(a[1..], b, keep);
    } else {
      assert a + b == b;
    }
  }

  /** A second pass of the same filter changes nothing. */
  lemma FilterIdempotent<T>(s: seq<T>, keep: T -> bool)
    ensures Filter(Filter(s, keep), keep) == Filter(s, keep)
  {
    var r := Filter(s, keep);
    FilterAll(r, keep);
  }

  /** The key of every element, in order (`s.map(key)`). */
  function Keys<T, K>(s: seq<T>, key: T -> K): (ks: seq<K>)
    ensures |ks| == |s| && forall i :: 0 <= i < |s| ==> ks[i] == key(s[i])
  {
    seq(|s|, i requires 0 <= i < |s| => key(s[i]))
  }

  /** Keys that are distinct over a sequence stay distinct over any
      subsequence of it. */
  lemma {:induction false} KeysOfSubsequence<T, K>(a: seq<T>, b: seq<T>, key: T -> K)
    requires IsSubsequence(a, b) && NoDup(Keys(b, key))
    ensures NoDup(Keys(a, key))
    decreases |b|
  {
    if a != [] {
      assert NoDup(Keys(b[1..], key)) by {
        var kb := Keys(b, key);
        forall i, j | 0 <= i < j < |b| - 1 ensures key(b[1..][i]) != key(b[1..][j]) {
          assert b[1..][i] == b[i + 1] && b[1..][j] == b[j + 1];
          assert kb[i + 1] != kb[j + 1];
        }
      }
      if a[0] == b[0] {
        KeysOfSubsequence(a[1..], b[1..], key);
        SubsequenceMembers(a[1..], b[1..]);
        forall i, j | 0 <= i < j < |a| ensures key(a[i]) != key(a[j]) {
          if i == 0 {
            assert a[j] == a[1..][j - 1];
            var m := IndexOf(a[j], b[1..]);
            assert Keys(b, key)[m + 1] == key(a[j]);
            assert Keys(b, key)[0] == key(a[0]);
          } else {
            assert a[i] == a[1..][i - 1] && a[j] == a[1..][j - 1];
            assert Keys(a[1..], key)[i - 1] != Keys(a[1..], key)[j - 1];
          }
        }
      } else {
        KeysOfSubsequence(a, b[1..], key);
      }
    }
  }

  /** Duplicate-freedom survives filtering. */
  lemma {:induction false} FilterNoDup<T>(s: seq<T>, keep: T -> bool)
    requires NoDup(s)
    ensures NoDup(Filter(s, keep))
  {
    if s != [] {
      assert NoDup(s[1..]) by {
        forall i, j | 0 <= i < j < |s[1..]| ensures s[1..][i] != s[1..][j] {
          assert s[1..][i] == s[i + 1] && s[1..][j] == s[j + 1];
        }
      }
      FilterNoDup(s[1..], keep);
      if keep(s[0]) {
        var t := Filter(s[1..], keep);
        assert s[0] !in s[1..] by {
          forall k | 0 <= k < |s[1..]| ensures s[1..][k] != s[0] { assert s[1..][k] == s[k + 1]; }
        }
        assert s[0] !in t;
        var r := [s[0]] + t;
        forall i, j | 0 <= i < j < |r| ensures r[i] != r[j] {
          if i == 0 { assert r[j] == t[j - 1] && t[j - 1] in t; }
          else { assert r[i] == t[i - 1] && r[j] == t[j - 1]; }
        }
      }
    }
  }

  /** In a duplicate-free sequence, a subsequence lists its elements in
      the order they have in the whole. */
  lemma {:induction false} SubsequenceOrder<T>(a: seq<T>, b: seq<T>)
    requires IsSubsequence(a, b) && NoDup(b)
    ensures forall i :: 0 <= i < |a| ==> a[i] in b
    ensures forall i, j :: 0 <= i < j < |a| ==> IndexOf(a[i], b) < IndexOf(a[j], b)
    decreases |b|
  {
    SubsequenceMembers(a, b);
    if a != [] {
      assert NoDup(b[1..]) by {
        forall i, j | 0 <= i < j < |b[1..]| ensures b[1..][i] != b[1..][j] {
          assert b[1..][i] == b[i + 1] && b[1..][j] == b[j + 1];
        }
      }
      assert forall x :: x in b[1..] ==> x != b[0] by {
        forall x | x in b[1..] ensures x != b[0] {
          var m := IndexOf(x, b[1..]);
          assert b[m + 1] == x;
        }
      }
      if a[0] == b[0] {
        SubsequenceOrder(a[1..], b[1..]);
        forall i, j | 0 <= i < j < |a| ensures IndexOf(a[i], b) < IndexOf(a[j], b) {
          assert a[j] == a[1..][j - 1];
          if i > 0 {
            assert a[i] == a[1..][i - 1];
          }
        }
      } else {
        SubsequenceOrder(a, b[1..]);
      }
    }
  }

  /** Filtering keeps the order of first occurrences: of two kept values,
      the one that occurs first in `s` occurs first in the result. */
  lemma {:induction false} FilterFirstOrder<T>(s: seq<T>, keep: T -> bool, x: T, y: T)
    requires x in s && y in s && keep(x) && keep(y)
    requires IndexOf(x, s) < IndexOf(y, s)
    ensures x in Filter(s, keep) && y in Filter(s, keep)
    ensures IndexOf(x, Filter(s, keep)) < IndexOf(y, Filter(s, keep))
  {
    var r := Filter(s, keep);
    assert x in r && y in r by {
      assert s[IndexOf(x, s)] == x && s[IndexOf(y, s)] == y;
    }
    if s[0] != x {
      assert s[0] != y;
      assert s[1..][IndexOf(x, s) - 1] == x && s[1..][IndexOf(y, s) - 1] == y;
      FilterFirstOrder(s[1..], keep, x, y);
    }
  }

  /** `Array.from(new Set(s))`: each value once, at its first occurrence. */
  function Dedup<T(==)>(s: seq<T>): (r: seq<T>)
    ensures NoDup(r)
    ensures forall i :: 0 <= i < |r| ==> r[i] in s
    ensures forall i :: 0 <= i < |s| ==> s[i] in r
    ensures forall i, j :: 0 <= i < j < |r| ==> IndexOf(r[i], s) < IndexOf(r[j], s)
  {
    if s == [] then []
    else
      var init := s[..|s| - 1];
      var d := Dedup(init);
      var x := s[|s| - 1];
      assert s == init + [x];
      IndexOfPrefix(init, [x]);
      if x in d then d
      else
        var r := d + [x];
        assert IndexOf(x, s) == |s| - 1 by { assert forall k :: 0 <= k < |init| ==> s[k] == init[k]; }
        assert forall i :: 0 <= i < |d| ==> r[i] == d[i];
        r
  }

  /** A value's first occurrence is unchanged by appending to the end. */
  lemma {:induction false} IndexOfPrefix<T>(p: seq<T>, q: seq<T>)
    ensures forall x :: x in p ==> x in p + q && IndexOf(x, p + q) == IndexOf(x, p)
  {
    if p != [] {
      IndexOfPrefix(p[1..], q);
      assert (p + q)[1..] == p[1..] + q;
    }
  }

  /** Two duplicate-free sequences with no value in common concatenate to
      a duplicate-free sequence. */
  lemma NoDupConcat<T>(a: seq<T>, b: seq<T>)
    requires NoDup(a) && NoDup(b)
    requires forall i, j :: 0 <= i < |a| && 0 <= j < |b| ==> a[i] != b[j]
    ensures NoDup(a + b)
  {
    var c := a + b;
    forall i, j | 0 <= i < j < |c| ensures c[i] != c[j] {
      if j < |a| {
        assert c[i] == a[i] && c[j] == a[j];
      } else if i < |a| {
        assert c[i] == a[i] && c[j] == b[j - |a|];
      } else {
        assert c[i] == b[i - |a|] && c[j] == b[j - |a|];
      }
    }
  }
}
