/** Day 7, part 2: Camel Cards with jokers. Every 'J' is a joker that first
    stands in for the most frequent other card when the hand is classified,
    and then counts as the weakest card (value 1) when equal categories are
    broken card by card. */
module Day7Part2 {
  import opened Results
  import opened Text
  import opened Hands
  import opened Sorting
  import Day7Part1

  datatype CardValue = A | K | Q | T | Number(n: nat) {
    /** `CardValue::value` (src/day7_part2.rs:14-23): a number card is worth
        its number, the face cards T, Q, K, A the values 10, 12, 13, 14;
        11 is left free, as the joker no longer takes it. */
    function Value(): (v: nat)
      ensures Number? ==> v == n
      ensures !Number? ==> 10 <= v <= 14 && v != 11
    {
      match this
      case A => 14
      case K => 13
      case Q => 12
      case T => 10
      case Number(n) => n
    }
  }

  /** A card as read from the input. */
  datatype InitialCard = Value(value: CardValue) | Joker

  /** A card after the jokers have been given a value to stand in for. */
  datatype FixedUpCard = Regular(value: CardValue) | Joker(replacedWith: CardValue) {
    /** The value used to break ties between hands of one category: a joker
        is always 1, whatever it stands in for. */
    function Value(): (v: nat)
      ensures Joker? ==> v == 1
      ensures Regular? ==> v == value.Value()
    {
      match this
      case Regular(value) => value.Value()
      case Joker(_) => 1
    }
  }

  datatype Bid = Bid(cards: seq<InitialCard>, value: nat)

  datatype FixedUpBid = FixedUpBid(cards: seq<FixedUpCard>, value: nat)

  const UnknownCard := "unknown card"
  const NotTwoSegments := "line is not a hand and a bid"
  const NoCategory := "hand has no category"

  // ---------------------------------------------------------------------------
  // Parsing

  /** A digit is a numbered card (`to_digit` also lets '0' and '1' through),
      'J' is the joker, the other four letters are the face cards; anything
      else is fatal. */
  function ParseCard(c: char): (r: Result<InitialCard>)
    ensures r.Ok? <==> IsDigit(c) || c in "TJQKA"
    ensures r == Ok(InitialCard.Joker) <==> c == 'J'
    ensures r.Ok? && IsDigit(c) ==> r.value == Value(Number(DigitValue(c)))
  {
    if IsDigit(c) then Ok(Value(Number(DigitValue(c))))
    else if c == 'T' then Ok(Value(T))
    else if c == 'J' then Ok(InitialCard.Joker)
    else if c == 'Q' then Ok(Value(Q))
    else if c == 'K' then Ok(Value(K))
    else if c == 'A' then Ok(Value(A))
    else Err(UnknownCard)
  }

  function ParseCards(s: string): (r: Result<seq<InitialCard>>)
    ensures r.Ok? <==> forall i :: 0 <= i < |s| ==> ParseCard(s[i]).Ok?
    ensures r.Ok? ==> |r.value| == |s|
    ensures r.Ok? ==> forall i :: 0 <= i < |s| ==> r.value[i] == ParseCard(s[i]).value
  {
    Collect(ParseCard, s)
  }

  /** Exactly two whitespace-separated segments: the hand and the bid. */
  function ParseLine(line: string): (r: Result<Bid>)
    ensures r.Ok? <==>
      |Words(line)| == 2 && ParseCards(Words(line)[0]).Ok? && ParseNat(Words(line)[1]).Ok?
    ensures r.Ok? ==>
      r.value == Bid(ParseCards(Words(line)[0]).value, ParseNat(Words(line)[1]).value)
  {
    var segments := Words(line);
    if |segments| != 2 then Err(NotTwoSegments)
    else
      var cards :- ParseCards(segments[0]);
      var value :- ParseNat(segments[1]);
      Ok(Bid(cards, value))
  }

  function Parse(lines: seq<string>): (r: Result<seq<Bid>>)
    ensures r.Ok? <==> forall i :: 0 <= i < |lines| ==> ParseLine(lines[i]).Ok?
    ensures r.Ok? ==> |r.value| == |lines|
    ensures r.Ok? ==> forall i :: 0 <= i < |lines| ==> r.value[i] == ParseLine(lines[i]).value
  {
    Collect(ParseLine, lines)
  }

  // ---------------------------------------------------------------------------
  // Replacing the jokers

  /** How often `card` occurs according to `occurrences`; absent means 0. */
  function Count(occurrences: map<InitialCard, nat>, card: InitialCard): nat {
    if card in occurrences then occurrences[card] else 0
  }

  /** `v` is a better stand-in than `w`: more frequent, or as frequent and
      higher. The original's `max_by_key` keeps the last of the most frequent
      cards in the order the hash map yields them, which is unspecified;
      `StandInIrrelevant` shows the choice among them changes nothing. */
  predicate Prefer(occurrences: map<InitialCard, nat>, v: CardValue, w: CardValue) {
    Count(occurrences, Value(v)) > Count(occurrences, Value(w)) ||
    (Count(occurrences, Value(v)) == Count(occurrences, Value(w)) && v.Value() > w.Value())
  }

  /** The `max_by_key` over the occurrences, where a joker weighs 0: a
      non-joker card of the highest count. */
  function MostFrequent(cards: seq<InitialCard>, occurrences: map<InitialCard, nat>): (r: Option<CardValue>)
    ensures r.Some? <==> exists i :: 0 <= i < |cards| && cards[i].Value?
    ensures r.Some? ==> Value(r.value) in cards
    ensures r.Some? ==> forall i :: 0 <= i < |cards| && cards[i].Value? ==>
      Count(occurrences, cards[i]) <= Count(occurrences, Value(r.value))
  {
    if |cards| == 0 then None
    else
      var prefix := cards[..|cards| - 1];
      var card := cards[|cards| - 1];
      assert cards == prefix + [card];
      var best := MostFrequent(prefix, occurrences);
      if card.Joker? then best
      else if best.None? || Prefer(occurrences, card.value, best.value) then Some(card.value)
      else best
  }

  function Fix(card: InitialCard, standIn: CardValue): (r: FixedUpCard) {
    match card
    case Value(value) => Regular(value)
    case Joker => FixedUpCard.Joker(standIn)
  }

  /** Every non-joker kept where it is, every joker standing in for `standIn`. */
  function FixAll(cards: seq<InitialCard>, standIn: CardValue): (r: seq<FixedUpCard>)
    ensures |r| == |cards|
    ensures forall i :: 0 <= i < |cards| && cards[i].Value? ==> r[i] == Regular(cards[i].value)
    ensures forall i :: 0 <= i < |cards| && cards[i].Joker? ==> r[i] == FixedUpCard.Joker(standIn)
  {
    seq(|cards|, i requires 0 <= i < |cards| => Fix(cards[i], standIn))
  }

  /** The hand the original builds for a hand of jokers only. */
  function AllAces(): (r: seq<FixedUpCard>)
    ensures |r| == 5 && forall i :: 0 <= i < 5 ==> r[i] == FixedUpCard.Joker(A)
  {
    seq(5, _ => FixedUpCard.Joker(A))
  }

  /** `replace_jokers_in_hand` over the counts of the hand: no jokers keeps the
      hand, only jokers gives five aces, and otherwise every joker stands in
      for the most frequent other card. */
  function JokersReplaced(cards: seq<InitialCard>): (r: seq<FixedUpCard>)
    ensures |r| == |cards| || r == AllAces()
    ensures forall i :: 0 <= i < |r| && i < |cards| && cards[i].Value? ==> r[i] == Regular(cards[i].value)
    ensures forall i :: 0 <= i < |r| && i < |cards| && cards[i].Joker? ==> r[i].Joker?
  {
    var occurrences := Occurrences(cards);
    if Count(occurrences, InitialCard.Joker) == 0 then FixAll(cards, A)
    else if |occurrences| == 1 then
      OnlyJokers(cards, occurrences);
      AllAces()
    else
      OtherCardPresent(cards, occurrences);
      FixAll(cards, MostFrequent(cards, occurrences).value)
  }

  lemma OtherCardPresent(cards: seq<InitialCard>, occurrences: map<InitialCard, nat>)
    requires occurrences == Occurrences(cards)
    requires InitialCard.Joker in occurrences && |occurrences| != 1
    ensures exists i :: 0 <= i < |cards| && cards[i].Value?
  {
    AnotherElement(occurrences.Keys, InitialCard.Joker);
    var other :| other in occurrences.Keys && other != InitialCard.Joker;
    assert other in cards;
    ValuePresent(cards, other);
  }

  /** A hand whose counts hold the joker and nothing else is all jokers. */
  lemma OnlyJokers(cards: seq<InitialCard>, occurrences: map<InitialCard, nat>)
    requires occurrences == Occurrences(cards)
    requires InitialCard.Joker in occurrences && |occurrences| == 1
    ensures forall i :: 0 <= i < |cards| ==> cards[i] == InitialCard.Joker
  {
    forall i | 0 <= i < |cards| ensures cards[i] == InitialCard.Joker {
      if cards[i] != InitialCard.Joker {
        TwoElements(occurrences.Keys, InitialCard.Joker, cards[i]);
      }
    }
  }

  lemma ValuePresent(cards: seq<InitialCard>, card: InitialCard)
    requires card in cards && card != InitialCard.Joker
    ensures exists i :: 0 <= i < |cards| && cards[i].Value?
  {
    var i :| 0 <= i < |cards| && cards[i] == card;
    assert cards[i].Value?;
  }

  lemma AnotherElement<X>(s: set<X>, x: X)
    requires x in s && |s| != 1
    ensures exists y :: y in s && y != x
  {
    var rest := s - {x};
    assert s == rest + {x};
    var y :| y in rest;
  }

  lemma TwoElements<X>(s: set<X>, x: X, y: X)
    requires x in s && y in s && x != y
    ensures |s| != 1
  {
    var rest := s - {x};
    assert s == rest + {x};
    assert y in rest;
  }

  /** The counting loop, then the three cases. */
  method ReplaceJokersInHand(cards: seq<InitialCard>) returns (r: seq<FixedUpCard>)
    ensures r == JokersReplaced(cards)
  {
    var occurrences := CountOccurrences(cards);
    if Count(occurrences, InitialCard.Joker) == 0 {
      r := FixAll(cards, A);
    } else if |occurrences| == 1 {
      r := AllAces();
    } else {
      OtherCardPresent(cards, occurrences);
      var mostFrequent := MostFrequent(cards, occurrences);
      r := FixAll(cards, mostFrequent.value);
    }
  }

  /** A hand without jokers keeps its cards, in order. */
  lemma NoJokersKept(cards: seq<InitialCard>)
    requires InitialCard.Joker !in cards
    ensures |JokersReplaced(cards)| == |cards|
    ensures forall i :: 0 <= i < |cards| ==> JokersReplaced(cards)[i] == Regular(cards[i].value)
  {
  }

  /** A hand of jokers only becomes five jokers standing in for aces, however
      long it was. */
  lemma OnlyJokersBecomeAces(cards: seq<InitialCard>)
    requires |cards| > 0 && forall i :: 0 <= i < |cards| ==> cards[i] == InitialCard.Joker
    ensures JokersReplaced(cards) == AllAces()
  {
    var occurrences := Occurrences(cards);
    assert cards[0] in occurrences;
    assert occurrences.Keys == {InitialCard.Joker};
  }

  /** `v` is a non-joker card that no other non-joker card outnumbers. */
  predicate IsMostFrequent(cards: seq<InitialCard>, v: CardValue) {
    Value(v) in cards &&
    forall i :: 0 <= i < |cards| && cards[i].Value? ==> multiset(cards)[cards[i]] <= multiset(cards)[Value(v)]
  }

  /** In a hand mixing jokers and other cards, the other cards stay where they
      are and every joker stands in for a most frequent one of them. */
  lemma MixedHandReplaced(cards: seq<InitialCard>)
    requires InitialCard.Joker in cards
    requires exists i :: 0 <= i < |cards| && cards[i].Value?
    ensures exists v :: IsMostFrequent(cards, v) && JokersReplaced(cards) == FixAll(cards, v)
  {
    var occurrences := Occurrences(cards);
    var i :| 0 <= i < |cards| && cards[i].Value?;
    assert cards[i] in occurrences && InitialCard.Joker in occurrences && cards[i] != InitialCard.Joker;
    TwoElements(occurrences.Keys, cards[i], InitialCard.Joker);
    var v := MostFrequent(cards, occurrences).value;
    assert IsMostFrequent(cards, v);
  }

  // ---------------------------------------------------------------------------
  // Frequency ties do not matter

  /** A card value the parser can produce: numbered cards are single digits. */
  predicate WellFormedValue(v: CardValue) {
    v.Number? ==> v.n < 10
  }

  predicate WellFormed(cards: seq<InitialCard>) {
    forall i :: 0 <= i < |cards| && cards[i].Value? ==> WellFormedValue(cards[i].value)
  }

  /** Every card the parser produces is well formed. */
  lemma ParseCardsWellFormed(s: string)
    requires ParseCards(s).Ok?
    ensures WellFormed(ParseCards(s).value)
  {
  }

  /** Distinct well-formed cards have distinct values. */
  lemma ValueInjective(u: CardValue, v: CardValue)
    requires WellFormedValue(u) && WellFormedValue(v)
    ensures u.Value() == v.Value() <==> u == v
  {
  }

  /** How many non-joker cards have value `n`. */
  function Base(cards: seq<InitialCard>, n: nat): nat {
    if |cards| == 0 then 0
    else
      var last := cards[|cards| - 1];
      Base(cards[..|cards| - 1], n) + (if last.Value? && last.value.Value() == n then 1 else 0)
  }

  /** After the jokers stand in for `v`, a value is counted once per non-joker
      card with that value, plus once per joker if it is `v`'s value. */
  lemma {:induction false} CountKeysFixAll(cards: seq<InitialCard>, v: CardValue, n: nat)
    ensures multiset(CountKeys(FixAll(cards, v)))[n] ==
      Base(cards, n) + (if n == v.Value() then multiset(cards)[InitialCard.Joker] else 0)
  {
    if |cards| > 0 {
      var prefix, last := cards[..|cards| - 1], cards[|cards| - 1];
      CountKeysFixAll(prefix, v, n);
      CountKeysSnoc(cards, v);
      MultisetLast(CountKeys(FixAll(cards, v)), n);
      MultisetLast(cards, InitialCard.Joker);
      if last.Joker? {
        assert CountedAs(Fix(last, v)) == v.Value();
      } else {
        assert CountedAs(Fix(last, v)) == last.value.Value();
      }
    }
  }

  /** Counting in a non-empty sequence: its last element, then the rest. */
  lemma MultisetLast<T>(s: seq<T>, y: T)
    requires |s| > 0
    ensures multiset(s)[y] == multiset(s[..|s| - 1])[y] + (if s[|s| - 1] == y then 1 else 0)
  {
    assert s == s[..|s| - 1] + [s[|s| - 1]];
  }

  lemma CountKeysSnoc(cards: seq<InitialCard>, v: CardValue)
    requires |cards| > 0
    ensures CountKeys(FixAll(cards, v)) ==
      CountKeys(FixAll(cards[..|cards| - 1], v)) + [CountedAs(Fix(cards[|cards| - 1], v))]
  {
  }

  lemma {:induction false} BaseCount(cards: seq<InitialCard>, u: CardValue)
    requires WellFormed(cards) && WellFormedValue(u)
    ensures Base(cards, u.Value()) == multiset(cards)[Value(u)]
  {
    if |cards| > 0 {
      var prefix, last := cards[..|cards| - 1], cards[|cards| - 1];
      BaseCount(prefix, u);
      assert cards == prefix + [last];
      if last.Value? {
        ValueInjective(last.value, u);
      }
    }
  }

  /** Two most frequent values are equally frequent. */
  lemma MostFrequentTie(cards: seq<InitialCard>, v: CardValue, w: CardValue)
    requires IsMostFrequent(cards, v) && IsMostFrequent(cards, w)
    ensures multiset(cards)[Value(v)] == multiset(cards)[Value(w)]
  {
    var i :| 0 <= i < |cards| && cards[i] == Value(v);
    var j :| 0 <= j < |cards| && cards[j] == Value(w);
  }

  /** Standing the jokers in for `v` instead of `w` swaps the counts of the two
      values and changes no other count. */
  lemma StandInCounts(cards: seq<InitialCard>, v: CardValue, w: CardValue)
    requires WellFormed(cards) && IsMostFrequent(cards, v) && IsMostFrequent(cards, w)
    ensures Occurrences(CountKeys(FixAll(cards, v))).Keys <= Occurrences(CountKeys(FixAll(cards, w))).Keys
    ensures Occurrences(CountKeys(FixAll(cards, v))).Values <= Occurrences(CountKeys(FixAll(cards, w))).Values
  {
    var mv := Occurrences(CountKeys(FixAll(cards, v)));
    var mw := Occurrences(CountKeys(FixAll(cards, w)));
    var i :| 0 <= i < |cards| && cards[i] == Value(v);
    var j :| 0 <= j < |cards| && cards[j] == Value(w);
    assert WellFormedValue(v) && WellFormedValue(w);
    MostFrequentTie(cards, v, w);
    BaseCount(cards, v);
    BaseCount(cards, w);
    ValueInjective(v, w);
    CountKeysFixAll(cards, w, v.Value());
    CountKeysFixAll(cards, w, w.Value());
    forall n | n in mv ensures n in mw && (n != v.Value() && n != w.Value() ==> mw[n] == mv[n]) {
      CountKeysFixAll(cards, v, n);
      CountKeysFixAll(cards, w, n);
    }
    forall x | x in mv.Values ensures x in mw.Values {
      var n :| n in mv && mv[n] == x;
      CountKeysFixAll(cards, v, n);
      if n == v.Value() {
        assert mw[w.Value()] == x;
      } else if n == w.Value() {
        assert mw[v.Value()] == x;
      } else {
        assert mw[n] == x;
      }
    }
  }

  /** Which most frequent card the jokers stand in for changes neither the
      category nor the tie-break values, so the hash order the original
      breaks frequency ties with cannot change its answer. */
  lemma StandInIrrelevant(cards: seq<InitialCard>, v: CardValue, w: CardValue)
    requires WellFormed(cards) && IsMostFrequent(cards, v) && IsMostFrequent(cards, w)
    ensures CategoryOf(FixAll(cards, v)) == CategoryOf(FixAll(cards, w))
    ensures Values(FixAll(cards, v)) == Values(FixAll(cards, w))
  {
    StandInCounts(cards, v, w);
    StandInCounts(cards, w, v);
    SameCounts(CountKeys(FixAll(cards, v)), CountKeys(FixAll(cards, w)));
    TieBreakValues(cards, v, w);
  }

  /** Keys counted into the same set of keys and the same set of counts
      fall into the same category. */
  lemma SameCounts(a: seq<nat>, b: seq<nat>)
    requires Occurrences(a).Keys == Occurrences(b).Keys && Occurrences(a).Values == Occurrences(b).Values
    ensures HandTypeOf(a) == HandTypeOf(b)
  {
    assert |Occurrences(a)| == |Occurrences(b)|;
    ClassifySameCounts(Occurrences(a), Occurrences(b));
  }

  /** A joker breaks ties as 1 whatever it stands in for. */
  lemma TieBreakValues(cards: seq<InitialCard>, v: CardValue, w: CardValue)
    ensures Values(FixAll(cards, v)) == Values(FixAll(cards, w))
  {
    var a, b := Values(FixAll(cards, v)), Values(FixAll(cards, w));
    forall i | 0 <= i < |cards| ensures a[i] == b[i] {
      if cards[i].Joker? {
        assert a[i] == 1 == b[i];
      }
    }
  }

  /** `replace_jokers`: the bids keep their order and their amounts. */
  function ReplaceJokers(bids: seq<Bid>): (r: seq<FixedUpBid>)
    ensures |r| == |bids|
    ensures forall i :: 0 <= i < |bids| ==> r[i] == FixedUpBid(JokersReplaced(bids[i].cards), bids[i].value)
  {
    seq(|bids|, i requires 0 <= i < |bids| => FixedUpBid(JokersReplaced(bids[i].cards), bids[i].value))
  }

  // ---------------------------------------------------------------------------
  // Comparing hands

  /** The key `hand_type` counts a card under: a joker counts as the card it
      stands in for. */
  function CountedAs(card: FixedUpCard): nat {
    match card
    case Regular(value) => value.Value()
    case Joker(standIn) => standIn.Value()
  }

  function CountKeys(cards: seq<FixedUpCard>): (ks: seq<nat>)
    ensures |ks| == |cards| && forall i :: 0 <= i < |cards| ==> ks[i] == CountedAs(cards[i])
  {
    seq(|cards|, i requires 0 <= i < |cards| => CountedAs(cards[i]))
  }

  function Values(cards: seq<FixedUpCard>): (vs: seq<nat>)
    ensures |vs| == |cards| && forall i :: 0 <= i < |cards| ==> vs[i] == cards[i].Value()
  {
    seq(|cards|, i requires 0 <= i < |cards| => cards[i].Value())
  }

  /** `hand_type`: the cards are counted by the value they stand for. */
  function CategoryOf(cards: seq<FixedUpCard>): (r: Option<HandType>)
    ensures |cards| <= 5 ==> r.Some?
  {
    if |cards| <= 5 then
      HandTypeOfShortHand(CountKeys(cards));
      HandTypeOf(CountKeys(cards))
    else
      HandTypeOf(CountKeys(cards))
  }

  /** What `compare_hands` looks at: the category's rank and the tie-break
      values, jokers counting 1. */
  function KeyOf(cards: seq<FixedUpCard>): (k: HandKey)
    ensures k.rank == 0 <==> CategoryOf(cards).None?
    ensures k.rank <= 7 && (|cards| <= 5 ==> 1 <= k.rank)
    ensures k.values == Values(cards)
  {
    HandKey(RankOf(CategoryOf(cards)), Values(cards))
  }

  function BidKey(b: FixedUpBid): HandKey {
    KeyOf(b.cards)
  }

  function BidValue(b: FixedUpBid): nat {
    b.value
  }

  /** `compare_hands`: fatal when either hand has no category. */
  function CompareHands(a: seq<FixedUpCard>, b: seq<FixedUpCard>): (r: Result<Ordering>)
    ensures r.Ok? <==> CategoryOf(a).Some? && CategoryOf(b).Some?
  {
    if CategoryOf(a).None? || CategoryOf(b).None? then Err(NoCategory)
    else Ok(CompareKeys(KeyOf(a), KeyOf(b)))
  }

  /** Swapping the hands reverses the answer. */
  lemma CompareHandsFlip(a: seq<FixedUpCard>, b: seq<FixedUpCard>)
    ensures CompareHands(b, a).Ok? == CompareHands(a, b).Ok?
    ensures CompareHands(a, b).Ok? ==> CompareHands(b, a).value == Flip(CompareHands(a, b).value)
  {
    CompareKeysFlip(KeyOf(a), KeyOf(b));
  }

  /** Hands compare equal exactly when they have the same category and the
      same tie-break values; jokers standing in for different cards are not
      told apart. */
  lemma CompareHandsEqual(a: seq<FixedUpCard>, b: seq<FixedUpCard>)
    requires CompareHands(a, b).Ok?
    ensures CompareHands(a, b).value == Equal <==> CategoryOf(a) == CategoryOf(b) && Values(a) == Values(b)
  {
    CompareKeysEqual(KeyOf(a), KeyOf(b));
    if CategoryOf(a) != CategoryOf(b) {
      RankInjective(CategoryOf(a).value, CategoryOf(b).value);
    }
  }

  /** Between hands of one category that agree up to position `i`, a joker at
      `i` loses to any regular card of value 2 or more there. */
  lemma JokerLosesTieBreak(a: seq<FixedUpCard>, b: seq<FixedUpCard>, i: nat)
    requires CategoryOf(a).Some? && CategoryOf(a) == CategoryOf(b)
    requires i < |a| && i < |b| && Values(a)[..i] == Values(b)[..i]
    requires a[i].Joker? && b[i].Regular? && b[i].Value() >= 2
    ensures CompareHands(a, b) == Ok(Less)
  {
    LexCompareDecidedAt(Values(a), Values(b), i);
  }

  lemma {:induction false} LexCompareDecidedAt(x: seq<nat>, y: seq<nat>, i: nat)
    requires i < |x| && i < |y| && x[..i] == y[..i] && x[i] < y[i]
    ensures LexCompare(x, y) == Less
  {
    if i > 0 {
      assert x[0] == x[..i][0] && y[0] == y[..i][0];
      assert x[1..][..i - 1] == x[..i][1..] && y[1..][..i - 1] == y[..i][1..];
      LexCompareDecidedAt(x[1..], y[1..], i - 1);
    }
  }

  // ---------------------------------------------------------------------------
  // Winnings

  /** `winnings`: the bids sorted by hand, then each bid times its 1-based
      position; fatal when a hand has no category and there are at least two
      bids to compare. */
  function WinningsOf(bids: seq<FixedUpBid>): (r: Result<nat>)
    ensures r.Err? <==> |bids| >= 2 && exists i :: 0 <= i < |bids| && CategoryOf(bids[i].cards).None?
  {
    if |bids| >= 2 && exists i :: 0 <= i < |bids| && CategoryOf(bids[i].cards).None? then Err(NoCategory)
    else Ok(Total(SortSpec(BidKey, bids), BidValue))
  }

  /** The bids are sorted in place, then scored. */
  method Winnings(bids: seq<FixedUpBid>) returns (r: Result<nat>)
    ensures r == WinningsOf(bids)
  {
    if |bids| >= 2 && exists i :: 0 <= i < |bids| && CategoryOf(bids[i].cards).None? {
      return Err(NoCategory);
    }
    var a := new FixedUpBid[|bids|](i requires 0 <= i < |bids| => bids[i]);
    assert a[..] == bids;
    Sort(a, BidKey);
    r := Ok(Total(a[..], BidValue));
  }

  /** The order the bids are scored in: the same bids, ascending by
      `compare_hands`. */
  lemma WinningsOrder(bids: seq<FixedUpBid>)
    requires forall i :: 0 <= i < |bids| ==> CategoryOf(bids[i].cards).Some?
    ensures multiset(SortSpec(BidKey, bids)) == multiset(bids)
    ensures forall i, j :: 0 <= i < j < |bids| ==>
      CompareHands(SortSpec(BidKey, bids)[i].cards, SortSpec(BidKey, bids)[j].cards).Ok?
    ensures forall i, j :: 0 <= i < j < |bids| ==>
      CompareHands(SortSpec(BidKey, bids)[i].cards, SortSpec(BidKey, bids)[j].cards).value != Greater
  {
    var s := SortSpec(BidKey, bids);
    SortSpecPermutation(BidKey, bids);
    SortSpecSorted(BidKey, bids);
    forall i | 0 <= i < |s| ensures CategoryOf(s[i].cards).Some? {
      assert s[i] in multiset(bids);
      var k :| 0 <= k < |bids| && bids[k] == s[i];
    }
    forall i, j | 0 <= i < j < |s|
      ensures CompareHands(s[i].cards, s[j].cards) == Ok(CompareKeys(BidKey(s[i]), BidKey(s[j])))
    {
    }
  }

  /** Any stable sort by `compare_hands` (which `slice::sort_by` is) leads to
      the same winnings. */
  lemma WinningsAnyStableSort(bids: seq<FixedUpBid>, sorted: seq<FixedUpBid>)
    requires WinningsOf(bids).Ok?
    requires Sorted(BidKey, sorted)
    requires forall k :: WithKey(BidKey, sorted, k) == WithKey(BidKey, bids, k)
    ensures WinningsOf(bids).value == Total(sorted, BidValue)
  {
    StableSortUnique(BidKey, bids, sorted);
  }

  /** `part2_result`: parse every line, replace the jokers, score the bids. */
  function Part2Of(lines: seq<string>): (r: Result<nat>)
    ensures r.Err? <==> (Parse(lines).Err? ||
      (|lines| >= 2 && exists i :: 0 <= i < |lines| && CategoryOf(JokersReplaced(Parse(lines).value[i].cards)).None?))
    ensures Parse(lines).Ok? && (forall i :: 0 <= i < |lines| ==> |Parse(lines).value[i].cards| <= 5) ==> r.Ok?
  {
    var bids :- Parse(lines);
    ReplacedCategories(bids);
    WinningsOf(ReplaceJokers(bids))
  }

  /** A replaced hand lacks a category exactly when the hand it came from
      does once its jokers are replaced, and hands of at most five cards
      keep one. */
  lemma ReplacedCategories(bids: seq<Bid>)
    ensures (exists i :: 0 <= i < |bids| && CategoryOf(ReplaceJokers(bids)[i].cards).None?) <==>
      (exists i :: 0 <= i < |bids| && CategoryOf(JokersReplaced(bids[i].cards)).None?)
    ensures (forall i :: 0 <= i < |bids| ==> |bids[i].cards| <= 5) ==>
      forall i :: 0 <= i < |bids| ==> CategoryOf(ReplaceJokers(bids)[i].cards).Some?
  {
    var fixedUp := ReplaceJokers(bids);
    if exists i :: 0 <= i < |bids| && CategoryOf(fixedUp[i].cards).None? {
      var i :| 0 <= i < |bids| && CategoryOf(fixedUp[i].cards).None?;
      assert CategoryOf(JokersReplaced(bids[i].cards)).None?;
    }
    if exists i :: 0 <= i < |bids| && CategoryOf(JokersReplaced(bids[i].cards)).None? {
      var i :| 0 <= i < |bids| && CategoryOf(JokersReplaced(bids[i].cards)).None?;
      assert CategoryOf(fixedUp[i].cards).None?;
    }
    forall i | 0 <= i < |bids| && |bids[i].cards| <= 5 ensures CategoryOf(fixedUp[i].cards).Some? {
      assert |JokersReplaced(bids[i].cards)| <= 5;
    }
  }

  method Part2Result(lines: seq<string>) returns (r: Result<nat>)
    ensures r == Part2Of(lines)
  {
    var bids :- Parse(lines);
    r := Winnings(ReplaceJokers(bids));
  }

  // ---------------------------------------------------------------------------
  // Agreement with part 1

  /** Every card other than 'J' has the same value under both rule sets. */
  lemma CardAgreesWithPart1(c: char)
    requires Day7Part1.ParseCard(c).Ok? && c != 'J'
    ensures ParseCard(c).Ok? && ParseCard(c).value.Value?
    ensures ParseCard(c).value.value.Value() == Day7Part1.ParseCard(c).value.value
  {
  }

  /** A hand written without 'J' gets the same category and the same
      tie-break values under both rule sets. */
  lemma AgreesWithPart1WithoutJokers(s: string)
    requires Day7Part1.ParseCards(s).Ok? && 'J' !in s
    ensures ParseCards(s).Ok?
    ensures Values(JokersReplaced(ParseCards(s).value)) == Day7Part1.Values(Day7Part1.ParseCards(s).value)
    ensures CategoryOf(JokersReplaced(ParseCards(s).value)) == Day7Part1.CategoryOf(Day7Part1.ParseCards(s).value)
  {
    forall i | 0 <= i < |s| ensures ParseCard(s[i]).Ok? && ParseCard(s[i]).value.Value? {
      CardAgreesWithPart1(s[i]);
    }
    var cards := ParseCards(s).value;
    var plain := Day7Part1.ParseCards(s).value;
    NoJokersKept(cards);
    var fixed := JokersReplaced(cards);
    forall i | 0 <= i < |s|
      ensures fixed[i].Value() == plain[i].value && CountedAs(fixed[i]) == plain[i].value
    {
      CardAgreesWithPart1(s[i]);
    }
    assert Values(fixed) == Day7Part1.Values(plain);
    assert CountKeys(fixed) == Day7Part1.Values(plain);
  }
}
