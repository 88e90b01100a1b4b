/** Sequence facts shared by the two record filters and by the aggregation:
    `Array.prototype.filter`, subsequences, and sums over a list of keys. */
module Seqs {

  /** `s.filter(p)`: the elements of `s` that satisfy `p`, in order. */
  function Filter<T(!new)>(s: seq<T>, p: T -> bool): (r: seq<T>)
    ensures |r| <= |s|
    ensures forall i :: 0 <= i < |r| ==> p(r[i])
    ensures forall x :: x in r <==> x in s && p(x)
  {
    if |s| == 0 then [] else (if p(s[0]) then [s[0]] else []) + Filter(s[1..], p)
  }

  /** `a` is what remains of `b` after deleting some of its elements. */
  ghost predicate IsSubsequence<T>(a: seq<T>, b: seq<T>)
    decreases |b|
  {
    if |a| == 0 then true
    else if |b| == 0 then false
    else (a[0] == b[0] && IsSubsequence(a[1..], b[1..])) || IsSubsequence(a, b[1..])
  }

  lemma {:induction false} FilterIsSubsequence<T(!new)>(s: seq<T>, p: T -> bool)
    ensures IsSubsequence(Filter(s, p), s)
    decreases |s|
  {
    if |s| > 0 {
      FilterIsSubsequence(s[1..], p);
      var r := Filter(s, p);
      if p(s[0]) {
        assert r[0] == s[0] && r[1..] == Filter(s[1..], p);
      } else {
        assert r == Filter(s[1..], p);
      }
    }
  }

  /** Filtering with a stronger predicate is filtering the weaker result
      again: the narrow result is contained, in order, in the wide one. */
  lemma FilterNarrowing<T(!new)>(s: seq<T>, wide: T -> bool, narrow: T -> bool)
    requires forall x :: narrow(x) ==> wide(x)
    ensures Filter(s, narrow) == Filter(Filter(s, wide), narrow)
    ensures IsSubsequence(Filter(s, narrow), Filter(s, wide))
    ensures |Filter(s, narrow)| <= |Filter(s, wide)|
  {
    FilterTwice(s, wide, narrow);
    FilterIsSubsequence(Filter(s, wide), narrow);
  }

  lemma {:induction false} FilterTwice<T(!new)>(s: seq<T>, wide: T -> bool, narrow: T -> bool)
    requires forall x :: narrow(x) ==> wide(x)
    ensures Filter(s, narrow) == Filter(Filter(s, wide), narrow)
    decreases |s|
  {
    if |s| > 0 {
      FilterTwice(s[1..], wide, narrow);
      var rest := Filter(s[1..], wide);
      var head := if narrow(s[0]) then [s[0]] else [];
      assert Filter(s, narrow) == head + Filter(s[1..], narrow);
      if wide(s[0]) {
        assert Filter(s, wide) == [s[0]] + rest;
        FilterLeading(s[0], rest, narrow);
      } else {
        assert head == [] && Filter(s, wide) == rest;
        assert Filter(s, narrow) == Filter(s[1..], narrow);
      }
    }
  }

  lemma FilterLeading<T(!new)>(x: T, s: seq<T>, p: T -> bool)
    ensures Filter([x] + s, p) == (if p(x) then [x] else []) + Filter(s, p)
  {
    assert ([x] + s)[1..] == s;
  }

  /** A predicate and its negation split the sequence between them. */
  lemma {:induction false} FilterSplits<T(!new)>(s: seq<T>, p: T -> bool, q: T -> bool)
    requires forall x :: q(x) == !p(x)
    ensures |Filter(s, p)| + |Filter(s, q)| == |s|
    decreases |s|
  {
    if |s| > 0 {
      FilterSplits(s[1..], p, q);
    }
  }

  /** Filters that agree on every element of `s` give the same result. */
  lemma {:induction false} FilterAgrees<T(!new)>(s: seq<T>, p: T -> bool, q: T -> bool)
    requires forall i :: 0 <= i < |s| ==> p(s[i]) == q(s[i])
    ensures Filter(s, p) == Filter(s, q)
    decreases |s|
  {
    if |s| > 0 {
      FilterAgrees(s[1..], p, q);
    }
  }

  /** A predicate every element satisfies keeps the whole sequence. */
  lemma {:induction false} FilterKeepsAll<T(!new)>(s: seq<T>, p: T -> bool)
    requires forall i :: 0 <= i < |s| ==> p(s[i])
    ensures Filter(s, p) == s
    decreases |s|
  {
    if |s| > 0 {
      FilterKeepsAll(s[1..], p);
    }
  }

  /** The sequence back to front: the same elements, the last first. */
  function Reverse<T>(s: seq<T>): (r: seq<T>)
    ensures |r| == |s|
    ensures forall i :: 0 <= i < |s| ==> r[i] == s[|s| - 1 - i]
  {
    if |s| == 0 then []
    else [s[|s| - 1]] + Reverse(s[..|s| - 1])
  }

  /** A non-empty sequence is its front followed by its last element. */
  lemma LastSplit<T>(s: seq<T>)
    requires |s| > 0
    ensures s == s[..|s| - 1] + [s[|s| - 1]]
  {
  }

  /** Reversing keeps the elements. */
  lemma ReverseMembers<T>(s: seq<T>)
    ensures forall x :: x in Reverse(s) <==> x in s
  {
    var r := Reverse(s);
    forall x | x in r
      ensures x in s
    {
      var i :| 0 <= i < |r| && r[i] == x;
      assert s[|s| - 1 - i] == x;
    }
    forall x | x in s
      ensures x in r
    {
      var i :| 0 <= i < |s| && s[i] == x;
      assert r[|s| - 1 - i] == x;
    }
  }

  // ---------------------------------------------------------------------------
  // Keyed sums
  // ---------------------------------------------------------------------------

  predicate NoDups<T(==)>(s: seq<T>) {
    forall i, j :: 0 <= i < j < |s| ==> s[i] != s[j]
  }

  /** `m[k] || 0`: a missing key counts as zero. */
  function Get<K>(m: map<K, nat>, k: K): nat {
    if k in m then m[k] else 0
  }

  function Id(n: nat): nat {
    n
  }

  /** The measure `f` of the value at `k`, zero when `k` is absent. */
  function At<K, V>(m: map<K, V>, k: K, f: V -> nat): nat {
    if k in m then f(m[k]) else 0
  }

  /** The sum of the measure `f` of `m`'s values over the keys listed in
      `keys`. */
  function SumOver<K, V>(keys: seq<K>, m: map<K, V>, f: V -> nat): nat {
    if |keys| == 0 then 0 else SumOver(keys[..|keys| - 1], m, f) + At(m, keys[|keys| - 1], f)
  }

  /** Changing a key that is not listed leaves the sum alone. */
  lemma {:induction false} SumOverUnlisted<K, V>(keys: seq<K>, m: map<K, V>, k: K, v: V, f: V -> nat)
    requires k !in keys
    ensures SumOver(keys, m[k := v], f) == SumOver(keys, m, f)
  {
    if |keys| > 0 {
      SumOverUnlisted(keys[..|keys| - 1], m, k, v, f);
    }
  }

  /** Raising the measure at a key that is listed once raises the sum by the
      same amount. */
  lemma {:induction false} SumOverBump<K, V>(keys: seq<K>, m: map<K, V>, k: K, v: V, f: V -> nat, q: nat)
    requires NoDups(keys) && k in keys
    requires f(v) == At(m, k, f) + q
    ensures SumOver(keys, m[k := v], f) == SumOver(keys, m, f) + q
  {
    var n := |keys|;
    var init := keys[..n - 1];
    if keys[n - 1] == k {
      assert k !in init;
      SumOverUnlisted(init, m, k, v, f);
    } else {
      assert k in init;
      SumOverBump(init, m, k, v, f, q);
    }
  }

  /** Listing one more key adds its measure. */
  lemma SumOverAppend<K, V>(keys: seq<K>, m: map<K, V>, k: K, f: V -> nat)
    ensures SumOver(keys + [k], m, f) == SumOver(keys, m, f) + At(m, k, f)
  {
    assert (keys + [k])[..|keys|] == keys;
  }

  lemma NoDupsAppend<T>(s: seq<T>, x: T)
    requires NoDups(s) && x !in s
    ensures NoDups(s + [x])
  {
  }

  /** Raising the measure at `k` by `q`, listing `k` first if it was not
      listed, raises the sum by `q`. */
  lemma SumOverBumpOrAppend<K, V>(keys: seq<K>, m: map<K, V>, k: K, v: V, f: V -> nat, q: nat)
    requires NoDups(keys)
    requires k !in keys ==> k !in m
    requires f(v) == At(m, k, f) + q
    ensures var keys' := if k in keys then keys else keys + [k];
      && NoDups(keys')
      && SumOver(keys', m[k := v], f) == SumOver(keys, m, f) + q
  {
    var keys' := if k in keys then keys else keys + [k];
    if k !in keys {
      NoDupsAppend(keys, k);
      SumOverAppend(keys, m, k, f);
    }
    SumOverBump(keys', m, k, v, f, q);
  }
}
