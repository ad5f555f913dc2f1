/** Camel Cards hand ranking shared by both variants of day 7: counting how
    often each card occurs, the seven-way classification by multiplicities,
    and the order `compare_hands` puts on hands (category first, then the
    card values lexicographically). */
module Hands {
  import opened Results

  datatype HandType =
    | HighCard | OnePair | TwoPair | ThreeOfAKind | FullHouse | FourOfAKind | FiveOfAKind

  /** The discriminant each category carries, compared as a `u8`. */
  function Rank(t: HandType): (r: nat)
    ensures 1 <= r <= 7
  {
    match t
    case HighCard => 1
    case OnePair => 2
    case TwoPair => 3
    case ThreeOfAKind => 4
    case FullHouse => 5
    case FourOfAKind => 6
    case FiveOfAKind => 7
  }

  /** The categories are ranked in the order they are declared, weakest first,
      and no two share a rank. */
  lemma RankInjective(s: HandType, t: HandType)
    ensures Rank(s) == Rank(t) <==> s == t
    ensures Rank(HighCard) < Rank(OnePair) < Rank(TwoPair) < Rank(ThreeOfAKind)
      < Rank(FullHouse) < Rank(FourOfAKind) < Rank(FiveOfAKind)
  {
  }

  // ---------------------------------------------------------------------------
  // Counting

  /** The `occurrences` map the counting loops fill: one entry per distinct
      key, holding how often it occurs. */
  function Occurrences<K(==,!new)>(keys: seq<K>): (m: map<K, nat>)
    ensures forall k :: k in m <==> k in keys
    ensures forall k :: k in m ==> m[k] == multiset(keys)[k]
  {
    if |keys| == 0 then map[]
    else
      var prefix := keys[..|keys| - 1];
      var k := keys[|keys| - 1];
      assert keys == prefix + [k];
      var m := Occurrences(prefix);
      m[k := if k in m then m[k] + 1 else 1]
  }

  /** The insert-or-increment loop over the keys. */
  method CountOccurrences<K(==,!new)>(keys: seq<K>) returns (occurrences: map<K, nat>)
    ensures occurrences == Occurrences(keys)
  {
    occurrences := map[];
    for i := 0 to |keys|
      invariant occurrences == Occurrences(keys[..i])
    {
      var key := keys[i];
      assert keys[..i + 1][..i] == keys[..i];
      if key in occurrences {
        occurrences := occurrences[key := occurrences[key] + 1];
      } else {
        occurrences := occurrences[key := 1];
      }
    }
    assert keys[..|keys|] == keys;
  }

  /** Two hands holding the same cards, in any order, have the same counts. */
  lemma OccurrencesPermutation<K(!new)>(a: seq<K>, b: seq<K>)
    requires multiset(a) == multiset(b)
    ensures Occurrences(a) == Occurrences(b)
  {
    forall k ensures k in a <==> k in b {
      assert k in a <==> k in multiset(a);
      assert k in b <==> k in multiset(b);
    }
  }

  /** A key occurs at most as often as the hand is long. */
  lemma {:induction false} MultiplicityBound<K(!new)>(keys: seq<K>, k: K)
    ensures multiset(keys)[k] <= |keys|
  {
    if |keys| > 0 {
      MultiplicityBound(keys[..|keys| - 1], k);
      assert keys == keys[..|keys| - 1] + [keys[|keys| - 1]];
    }
  }

  // ---------------------------------------------------------------------------
  // Classification

  /** The if-chain over the multiplicities: a 5, a 4, a 3 with a 2, a 3, a 2
      among exactly three distinct cards, a 2, and finally all ones. Anything
      else (a count of six or more) fails the `assert!` of the original. */
  function Classify<K(!new)>(counts: map<K, nat>): (t: Option<HandType>)
    ensures t.None? <==>
      (forall n :: n in counts.Values ==> n < 2 || 5 < n) &&
      (exists n :: n in counts.Values && n != 1)
    ensures t == Some(FiveOfAKind) <==> 5 in counts.Values
    ensures t == Some(FourOfAKind) <==> 4 in counts.Values && 5 !in counts.Values
    ensures t == Some(FullHouse) <==>
      3 in counts.Values && 2 in counts.Values && !(4 in counts.Values || 5 in counts.Values)
    ensures t == Some(ThreeOfAKind) <==>
      3 in counts.Values && !(2 in counts.Values || 4 in counts.Values || 5 in counts.Values)
    ensures t == Some(TwoPair) <==>
      2 in counts.Values && |counts| == 3 && !(3 in counts.Values || 4 in counts.Values || 5 in counts.Values)
    ensures t == Some(OnePair) <==>
      2 in counts.Values && |counts| != 3 && !(3 in counts.Values || 4 in counts.Values || 5 in counts.Values)
    ensures t == Some(HighCard) <==> forall n :: n in counts.Values ==> n == 1
  {
    var values := counts.Values;
    if 5 in values then Some(FiveOfAKind)
    else if 4 in values then Some(FourOfAKind)
    else if 3 in values && 2 in values then Some(FullHouse)
    else if 3 in values then Some(ThreeOfAKind)
    else if 2 in values && |counts| == 3 then Some(TwoPair)
    else if 2 in values then Some(OnePair)
    else if forall n :: n in values ==> n == 1 then Some(HighCard)
    else None
  }

  /** The classification looks only at which counts occur and at how many
      distinct cards there are, never at which card has which count. */
  lemma ClassifySameCounts<K(!new)>(m: map<K, nat>, n: map<K, nat>)
    requires m.Values == n.Values && |m| == |n|
    ensures Classify(m) == Classify(n)
  {
  }

  /** `hand_type` on the keys the cards are counted under. */
  function HandTypeOf<K(==,!new)>(keys: seq<K>): Option<HandType> {
    Classify(Occurrences(keys))
  }

  /** The counting loop followed by the classification. */
  method ClassifyHand<K(==,!new)>(keys: seq<K>) returns (t: Option<HandType>)
    ensures t == HandTypeOf(keys)
  {
    var occurrences := CountOccurrences(keys);
    t := Classify(occurrences);
  }

  /** The category depends only on the multiset of cards: rearranging a hand
      never changes it. */
  lemma HandTypePermutation<K(!new)>(a: seq<K>, b: seq<K>)
    requires multiset(a) == multiset(b)
    ensures HandTypeOf(a) == HandTypeOf(b)
  {
    OccurrencesPermutation(a, b);
  }

  /** A hand of at most five cards always has a category: the `assert!` of
      the last branch can only fail for longer hands. */
  lemma HandTypeOfShortHand<K(!new)>(keys: seq<K>)
    requires |keys| <= 5
    ensures HandTypeOf(keys).Some?
  {
    var m := Occurrences(keys);
    forall n | n in m.Values ensures 1 <= n <= 5 {
      var k :| k in m && m[k] == n;
      MultiplicityBound(keys, k);
    }
  }

  /** Six equal cards fail the classification. */
  lemma SixOfAKindFails()
    ensures HandTypeOf([2, 2, 2, 2, 2, 2]).None?
  {
    var keys: seq<nat> := [2, 2, 2, 2, 2, 2];
    var m := Occurrences(keys);
    assert multiset(keys)[2] == 6;
    assert m[2] == 6;
    forall n | n in m.Values ensures n == 6 {
      var k :| k in m && m[k] == n;
      assert k in keys;
    }
    assert 6 in m.Values;
    assert m.Values == {6};
  }

  // ---------------------------------------------------------------------------
  // Ordering

  datatype Ordering = Less | Equal | Greater

  function Flip(o: Ordering): Ordering {
    match o
    case Less => Greater
    case Equal => Equal
    case Greater => Less
  }

  /** `Iterator::cmp`: the first differing value decides, and a proper prefix
      is smaller. */
  function LexCompare(a: seq<nat>, b: seq<nat>): Ordering {
    if |a| == 0 && |b| == 0 then Equal
    else if |a| == 0 then Less
    else if |b| == 0 then Greater
    else if a[0] < b[0] then Less
    else if a[0] > b[0] then Greater
    else LexCompare(a[1..], b[1..])
  }

  lemma {:induction false} LexCompareFlip(a: seq<nat>, b: seq<nat>)
    ensures LexCompare(b, a) == Flip(LexCompare(a, b))
  {
    if |a| > 0 && |b| > 0 && a[0] == b[0] {
      LexCompareFlip(a[1..], b[1..]);
    }
  }

  lemma {:induction false} LexCompareEqual(a: seq<nat>, b: seq<nat>)
    ensures LexCompare(a, b) == Equal <==> a == b
  {
    if |a| > 0 && |b| > 0 && a[0] == b[0] {
      LexCompareEqual(a[1..], b[1..]);
      assert a == [a[0]] + a[1..] && b == [b[0]] + b[1..];
    }
  }

  lemma {:induction false} LexCompareTransitive(a: seq<nat>, b: seq<nat>, c: seq<nat>)
    requires LexCompare(a, b) != Greater && LexCompare(b, c) != Greater
    ensures LexCompare(a, c) != Greater
  {
    if |a| > 0 && |b| > 0 && |c| > 0 && a[0] == b[0] == c[0] {
      LexCompareTransitive(a[1..], b[1..], c[1..]);
    }
  }

  /** What a hand is compared by: its category rank, then its card values. */
  datatype HandKey = HandKey(rank: nat, values: seq<nat>)

  /** The category's rank, with 0 standing for a hand that has none (only
      possible beyond five cards). */
  function RankOf(t: Option<HandType>): nat {
    if t.Some? then Rank(t.value) else 0
  }

  /** `compare_hands` on the precomputed keys: the rank decides, and equal
      ranks fall back to the card values. */
  function CompareKeys(x: HandKey, y: HandKey): Ordering {
    if x.rank < y.rank then Less
    else if x.rank > y.rank then Greater
    else LexCompare(x.values, y.values)
  }

  /** Swapping the operands reverses the answer. */
  lemma CompareKeysFlip(x: HandKey, y: HandKey)
    ensures CompareKeys(y, x) == Flip(CompareKeys(x, y))
  {
    LexCompareFlip(x.values, y.values);
  }

  /** Two hands compare equal exactly when rank and card values agree. */
  lemma CompareKeysEqual(x: HandKey, y: HandKey)
    ensures CompareKeys(x, y) == Equal <==> x == y
  {
    LexCompareEqual(x.values, y.values);
  }

  /** "Not greater" is transitive, so the comparison is a total preorder. */
  lemma CompareKeysTransitive(x: HandKey, y: HandKey, z: HandKey)
    requires CompareKeys(x, y) != Greater && CompareKeys(y, z) != Greater
    ensures CompareKeys(x, z) != Greater
  {
    if x.rank == y.rank == z.rank {
      LexCompareTransitive(x.values, y.values, z.values);
    }
  }
}
