/** The stable in-place sort `slice::sort_by` performs on the bids of day 7,
    ordered by `compare_hands` on a key computed from each bid, and the
    scoring of the sorted bids. */
module Sorting {
  import opened Hands

  /** `x` may stay in front of `y`: the comparison does not say Greater. */
  predicate NotAfter<T>(key: T -> HandKey, x: T, y: T) {
    CompareKeys(key(x), key(y)) != Greater
  }

  predicate Sorted<T>(key: T -> HandKey, s: seq<T>) {
    forall i, j :: 0 <= i < j < |s| ==> NotAfter(key, s[i], s[j])
  }

  /** Inserts `x` behind the last element of `s` that is not greater than it,
      so elements comparing equal keep their order. */
  function Insert<T>(key: T -> HandKey, s: seq<T>, x: T): (r: seq<T>)
    ensures |r| == |s| + 1
  {
    if |s| == 0 || NotAfter(key, s[|s| - 1], x) then s + [x]
    else Insert(key, s[..|s| - 1], x) + [s[|s| - 1]]
  }

  /** Stable insertion sort, one element at a time from the front. */
  function SortSpec<T>(key: T -> HandKey, s: seq<T>): (r: seq<T>)
    ensures |r| == |s|
  {
    if |s| == 0 then [] else Insert(key, SortSpec(key, s[..|s| - 1]), s[|s| - 1])
  }

  /** The bids as `sort_by` leaves them: each one is shifted left past the
      greater ones in front of it. */
  method Sort<T>(a: array<T>, key: T -> HandKey)
    modifies a
    ensures a[..] == SortSpec(key, old(a[..]))
  {
    ghost var s := a[..];
    for i := 0 to a.Length
      invariant a[..i] == SortSpec(key, s[..i])
      invariant a[i..] == s[i..]
    {
      assert s[..i + 1][..i] == s[..i];
      ShiftIntoPlace(a, key, i);
    }
    assert s[..a.Length] == s;
  }

  /** One step of the sort: `a[i]` moves left past the elements of `a[..i]`
      that are greater than it. */
  method ShiftIntoPlace<T>(a: array<T>, key: T -> HandKey, i: nat)
    requires i < a.Length
    modifies a
    ensures a[..i + 1] == Insert(key, old(a[..i]), old(a[i]))
    ensures a[i + 1..] == old(a[i + 1..])
  {
    var x := a[i];
    ghost var sorted := a[..i];
    ghost var tail := a[i + 1..];
    var j := i;
    assert sorted[..j] == sorted && sorted[j..] == [];
    assert Shifting(a[..], sorted, j, tail);
    while j > 0 && !NotAfter(key, a[j - 1], x)
      invariant 0 <= j <= i
      invariant Shifting(a[..], sorted, j, tail)
      invariant Insert(key, sorted, x) == Insert(key, sorted[..j], x) + sorted[j..]
    {
      InsertShift(key, sorted, j, x);
      ghost var before := a[..];
      ShiftingStep(before, sorted, j, tail);
      a[j] := a[j - 1];
      assert a[..] == before[j := before[j - 1]];
      j := j - 1;
    }
    ghost var before := a[..];
    a[j] := x;
    assert a[..] == before[j := x];
    InsertStop(key, sorted, j, x);
    ShiftingDone(before, sorted, j, tail, x);
  }

  /** The state of the shifting loop: `sorted[..j]` in front, a free slot at
      `j`, `sorted[j..]` moved one place right behind it, and the rest of the
      array untouched. */
  ghost predicate Shifting<T>(c: seq<T>, sorted: seq<T>, j: nat, tail: seq<T>) {
    && j <= |sorted| && |c| == |sorted| + 1 + |tail|
    && (forall k :: 0 <= k < j ==> c[k] == sorted[k])
    && (forall k :: j < k <= |sorted| ==> c[k] == sorted[k - 1])
    && c[|sorted| + 1..] == tail
  }

  lemma ShiftingStep<T>(c: seq<T>, sorted: seq<T>, j: nat, tail: seq<T>)
    requires Shifting(c, sorted, j, tail) && 0 < j
    ensures Shifting(c[j := c[j - 1]], sorted, j - 1, tail)
  {
    var d := c[j := c[j - 1]];
    assert d[|sorted| + 1..] == c[|sorted| + 1..];
  }

  lemma ShiftingDone<T>(c: seq<T>, sorted: seq<T>, j: nat, tail: seq<T>, x: T)
    requires Shifting(c, sorted, j, tail)
    ensures c[j := x][..|sorted| + 1] == sorted[..j] + [x] + sorted[j..]
    ensures c[j := x][|sorted| + 1..] == tail
  {
    var d := c[j := x];
    assert d[|sorted| + 1..] == c[|sorted| + 1..];
  }

  lemma InsertStop<T>(key: T -> HandKey, s: seq<T>, j: nat, x: T)
    requires j <= |s| && (j == 0 || NotAfter(key, s[j - 1], x))
    ensures Insert(key, s[..j], x) == s[..j] + [x]
  {
  }

  lemma InsertShift<T>(key: T -> HandKey, s: seq<T>, j: nat, x: T)
    requires 0 < j <= |s| && !NotAfter(key, s[j - 1], x)
    ensures Insert(key, s[..j], x) + s[j..] == Insert(key, s[..j - 1], x) + s[j - 1..]
  {
    assert s[..j][..j - 1] == s[..j - 1];
    assert s[j - 1..] == [s[j - 1]] + s[j..];
  }

  // ---------------------------------------------------------------------------
  // The sort rearranges

  lemma {:induction false} InsertPermutation<T>(key: T -> HandKey, s: seq<T>, x: T)
    ensures multiset(Insert(key, s, x)) == multiset(s) + multiset{x}
  {
    if |s| > 0 && !NotAfter(key, s[|s| - 1], x) {
      InsertPermutation(key, s[..|s| - 1], x);
      assert s == s[..|s| - 1] + [s[|s| - 1]];
    }
  }

  /** The sorted bids are the input bids, rearranged. */
  lemma {:induction false} SortSpecPermutation<T>(key: T -> HandKey, s: seq<T>)
    ensures multiset(SortSpec(key, s)) == multiset(s)
  {
    if |s| > 0 {
      SortSpecPermutation(key, s[..|s| - 1]);
      InsertPermutation(key, SortSpec(key, s[..|s| - 1]), s[|s| - 1]);
      assert s == s[..|s| - 1] + [s[|s| - 1]];
    }
  }

  // ---------------------------------------------------------------------------
  // The order is ascending

  lemma {:induction false} InsertSorted<T>(key: T -> HandKey, s: seq<T>, x: T)
    requires Sorted(key, s)
    ensures Sorted(key, Insert(key, s, x))
  {
    if |s| == 0 || NotAfter(key, s[|s| - 1], x) {
      forall i | 0 <= i < |s| ensures NotAfter(key, s[i], x) {
        if i < |s| - 1 {
          CompareKeysTransitive(key(s[i]), key(s[|s| - 1]), key(x));
        }
      }
    } else {
      var prefix := s[..|s| - 1];
      var last := s[|s| - 1];
      InsertSorted(key, prefix, x);
      var r := Insert(key, prefix, x);
      InsertPermutation(key, prefix, x);
      CompareKeysFlip(key(last), key(x));
      forall y | y in multiset(r) ensures NotAfter(key, y, last) {
        assert y in multiset(prefix) || y == x;
      }
      forall i | 0 <= i < |r| ensures NotAfter(key, r[i], last) {
        assert r[i] in multiset(r);
      }
    }
  }

  /** The sorted bids are in ascending `compare_hands` order. */
  lemma {:induction false} SortSpecSorted<T>(key: T -> HandKey, s: seq<T>)
    ensures Sorted(key, SortSpec(key, s))
  {
    if |s| > 0 {
      SortSpecSorted(key, s[..|s| - 1]);
      InsertSorted(key, SortSpec(key, s[..|s| - 1]), s[|s| - 1]);
    }
  }

  // ---------------------------------------------------------------------------
  // The order is stable

  /** The elements of `s` whose key is `k`, in their order in `s`. */
  function WithKey<T>(key: T -> HandKey, s: seq<T>, k: HandKey): seq<T> {
    if |s| == 0 then []
    else WithKey(key, s[..|s| - 1], k) + (if key(s[|s| - 1]) == k then [s[|s| - 1]] else [])
  }

  lemma {:induction false} WithKeyMember<T>(key: T -> HandKey, s: seq<T>, k: HandKey, y: T)
    requires y in WithKey(key, s, k)
    ensures y in s && key(y) == k
  {
    if |s| > 0 {
      var prefix := s[..|s| - 1];
      if y in WithKey(key, prefix, k) {
        WithKeyMember(key, prefix, k, y);
        assert y in s by {
          var i :| 0 <= i < |prefix| && prefix[i] == y;
          assert s[i] == y;
        }
      }
    }
  }

  lemma {:induction false} InsertWithKey<T>(key: T -> HandKey, s: seq<T>, x: T, k: HandKey)
    ensures WithKey(key, Insert(key, s, x), k) ==
      WithKey(key, s, k) + (if key(x) == k then [x] else [])
  {
    if |s| == 0 || NotAfter(key, s[|s| - 1], x) {
      assert (s + [x])[..|s|] == s;
    } else {
      var prefix := s[..|s| - 1];
      var last := s[|s| - 1];
      InsertWithKey(key, prefix, x, k);
      CompareKeysEqual(key(last), key(x));
      var r := Insert(key, prefix, x);
      assert (r + [last])[..|r|] == r;
    }
  }

  /** Bids that compare equal leave the sort in the order they entered it. */
  lemma {:induction false} SortSpecStable<T>(key: T -> HandKey, s: seq<T>, k: HandKey)
    ensures WithKey(key, SortSpec(key, s), k) == WithKey(key, s, k)
  {
    if |s| > 0 {
      SortSpecStable(key, s[..|s| - 1], k);
      InsertWithKey(key, SortSpec(key, s[..|s| - 1]), s[|s| - 1], k);
    }
  }

  /** A non-empty sequence has an element with the key of its last element. */
  lemma WithKeyLast<T>(key: T -> HandKey, s: seq<T>)
    ensures |s| > 0 ==> WithKey(key, s, key(s[|s| - 1])) != []
    ensures |s| == 0 ==> forall k :: WithKey(key, s, k) == []
  {
  }

  lemma {:induction false} SortedLastIsGreatest<T>(key: T -> HandKey, t: seq<T>, y: T)
    requires Sorted(key, t) && |t| > 0 && y in t
    ensures NotAfter(key, y, t[|t| - 1])
  {
    var i :| 0 <= i < |t| && t[i] == y;
    if i < |t| - 1 {
      assert NotAfter(key, t[i], t[|t| - 1]);
    } else {
      CompareKeysEqual(key(y), key(y));
    }
  }

  /** Two sequences list the elements of each key in the same order. */
  ghost predicate SameWithKeys<T>(key: T -> HandKey, t: seq<T>, u: seq<T>) {
    forall k :: WithKey(key, t, k) == WithKey(key, u, k)
  }

  /** Two sorted sequences that list the elements of each key in the same
      order are the same sequence. */
  lemma {:induction false} SortedWithKeyUnique<T>(key: T -> HandKey, t: seq<T>, u: seq<T>)
    requires Sorted(key, t) && Sorted(key, u)
    requires SameWithKeys(key, t, u)
    ensures t == u
    decreases |t|
  {
    WithKeyLast(key, t);
    WithKeyLast(key, u);
    if |t| > 0 && |u| > 0 {
      SortedSameLastKey(key, t, u);
      var t', u' := t[..|t| - 1], u[..|u| - 1];
      assert SameWithKeys(key, t', u') by {
        forall k ensures WithKey(key, t', k) == WithKey(key, u', k) {
          WithKeyDropLast(key, t, u, k);
        }
      }
      assert Sorted(key, t') && Sorted(key, u');
      SortedWithKeyUnique(key, t', u');
      assert t == t' + [t[|t| - 1]] && u == u' + [u[|u| - 1]];
    }
  }

  /** Both sequences end in the same element. */
  lemma SortedSameLastKey<T>(key: T -> HandKey, t: seq<T>, u: seq<T>)
    requires Sorted(key, t) && Sorted(key, u) && |t| > 0 && |u| > 0
    requires SameWithKeys(key, t, u)
    ensures t[|t| - 1] == u[|u| - 1]
  {
    var x, y := t[|t| - 1], u[|u| - 1];
    var kx, ky := key(x), key(y);
    assert WithKey(key, t, kx) == WithKey(key, t[..|t| - 1], kx) + [x];
    assert WithKey(key, u, ky) == WithKey(key, u[..|u| - 1], ky) + [y];
    var wx := WithKey(key, u, kx);
    assert wx[|wx| - 1] in wx;
    WithKeyMember(key, u, kx, wx[|wx| - 1]);
    SortedLastIsGreatest(key, u, wx[|wx| - 1]);
    var wy := WithKey(key, t, ky);
    assert wy[|wy| - 1] in wy;
    WithKeyMember(key, t, ky, wy[|wy| - 1]);
    SortedLastIsGreatest(key, t, wy[|wy| - 1]);
    CompareKeysFlip(kx, ky);
    CompareKeysEqual(kx, ky);
  }

  lemma WithKeyDropLast<T>(key: T -> HandKey, t: seq<T>, u: seq<T>, k: HandKey)
    requires |t| > 0 && |u| > 0 && t[|t| - 1] == u[|u| - 1]
    requires WithKey(key, t, k) == WithKey(key, u, k)
    ensures WithKey(key, t[..|t| - 1], k) == WithKey(key, u[..|u| - 1], k)
  {
    var x := t[|t| - 1];
    var extra := if key(x) == k then [x] else [];
    var a, b := WithKey(key, t[..|t| - 1], k), WithKey(key, u[..|u| - 1], k);
    assert (a + extra)[..|a|] == a && (b + extra)[..|b|] == b;
  }

  /** `SortSpec` is the only stable sort: any rearrangement that is ascending
      and keeps equal elements in order (as `slice::sort_by` promises) gives
      exactly the same sequence. */
  lemma StableSortUnique<T>(key: T -> HandKey, s: seq<T>, t: seq<T>)
    requires Sorted(key, t)
    requires forall k :: WithKey(key, t, k) == WithKey(key, s, k)
    ensures t == SortSpec(key, s)
  {
    SortSpecSorted(key, s);
    assert SameWithKeys(key, t, SortSpec(key, s)) by {
      forall k ensures WithKey(key, t, k) == WithKey(key, SortSpec(key, s), k) {
        SortSpecStable(key, s, k);
      }
    }
    SortedWithKeyUnique(key, t, SortSpec(key, s));
  }

  // ---------------------------------------------------------------------------
  // Scoring

  /** The sum of each bid's amount times its 1-based position. */
  function Total<T>(s: seq<T>, amount: T -> nat): nat {
    if |s| == 0 then 0 else Total(s[..|s| - 1], amount) + amount(s[|s| - 1]) * |s|
  }
}
