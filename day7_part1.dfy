/** Day 7, part 1: Camel Cards. Each line holds a hand and a bid; the hands
    are ranked by category and then card by card, and each bid is multiplied
    by its hand's 1-based rank. */
module Day7Part1 {
  import opened Results
  import opened Text
  import opened Hands
  import opened Sorting

  /** A card is its face value: 2-9 for digits, T=10, J=11, Q=12, K=13, A=14. */
  datatype Card = Value(value: nat)

  datatype Bid = Bid(cards: seq<Card>, value: nat)

  const UnknownCard := "unknown card"
  const NotTwoSegments := "line is not a hand and a bid"
  const NoCategory := "hand has no category"

  // ---------------------------------------------------------------------------
  // Parsing

  /** A digit counts its own value (`to_digit` also lets '0' and '1' through);
      the five face letters count 10 to 14; anything else is fatal. */
  function ParseCard(c: char): (r: Result<Card>)
    ensures r.Ok? <==> IsDigit(c) || c in "TJQKA"
    ensures r.Ok? ==> r.value.value <= 14
    ensures r.Ok? && IsDigit(c) ==> r.value.value == DigitValue(c)
    ensures r.Ok? && !IsDigit(c) ==> r.value.value >= 10
  {
    if IsDigit(c) then Ok(Value(DigitValue(c)))
    else if c == 'T' then Ok(Value(10))
    else if c == 'J' then Ok(Value(11))
    else if c == 'Q' then Ok(Value(12))
    else if c == 'K' then Ok(Value(13))
    else if c == 'A' then Ok(Value(14))
    else Err(UnknownCard)
  }

  /** The character a card is written as. */
  function CardChar(card: Card): char
    requires card.value <= 14
  {
    if card.value < 10 then DigitChar(card.value)
    else "TJQKA"[card.value - 10]
  }

  /** Card characters and the values 0 to 14 correspond one to one. */
  lemma ParseCardChar(card: Card)
    requires card.value <= 14
    ensures ParseCard(CardChar(card)) == Ok(card)
  {
  }

  lemma CardCharParse(c: char)
    requires ParseCard(c).Ok?
    ensures CardChar(ParseCard(c).value) == c
  {
  }

  /** Every character of the hand, each one fatal if it is not a card. */
  function ParseCards(s: string): (r: Result<seq<Card>>)
    ensures r.Ok? <==> forall i :: 0 <= i < |s| ==> ParseCard(s[i]).Ok?
    ensures r.Ok? ==> |r.value| == |s|
    ensures r.Ok? ==> forall i :: 0 <= i < |s| ==> r.value[i] == ParseCard(s[i]).value
  {
    Collect(ParseCard, s)
  }

  /** Exactly two whitespace-separated segments: the hand and the bid. */
  function ParseLine(line: string): (r: Result<Bid>)
    ensures r.Ok? <==>
      |Words(line)| == 2 && ParseCards(Words(line)[0]).Ok? && ParseNat(Words(line)[1]).Ok?
    ensures r.Ok? ==>
      r.value == Bid(ParseCards(Words(line)[0]).value, ParseNat(Words(line)[1]).value)
  {
    var segments := Words(line);
    if |segments| != 2 then Err(NotTwoSegments)
    else
      var cards :- ParseCards(segments[0]);
      var value :- ParseNat(segments[1]);
      Ok(Bid(cards, value))
  }

  function Parse(lines: seq<string>): (r: Result<seq<Bid>>)
    ensures r.Ok? <==> forall i :: 0 <= i < |lines| ==> ParseLine(lines[i]).Ok?
    ensures r.Ok? ==> |r.value| == |lines|
    ensures r.Ok? ==> forall i :: 0 <= i < |lines| ==> r.value[i] == ParseLine(lines[i]).value
  {
    Collect(ParseLine, lines)
  }

  function RenderCards(cards: seq<Card>): (s: string)
    requires forall i :: 0 <= i < |cards| ==> cards[i].value <= 14
    ensures |s| == |cards| && forall i :: 0 <= i < |cards| ==> s[i] == CardChar(cards[i])
  {
    seq(|cards|, i requires 0 <= i < |cards| => CardChar(cards[i]))
  }

  /** A rendered hand reads back as the same cards. */
  lemma ParseCardsRendered(cards: seq<Card>)
    requires forall i :: 0 <= i < |cards| ==> cards[i].value <= 14
    ensures ParseCards(RenderCards(cards)) == Ok(cards)
  {
    var s := RenderCards(cards);
    forall i | 0 <= i < |cards| ensures ParseCard(s[i]) == Ok(cards[i]) {
      ParseCardChar(cards[i]);
    }
    var r := ParseCards(s);
    assert r.Ok? && |r.value| == |cards|;
    assert r.value == cards;
  }

  // ---------------------------------------------------------------------------
  // Comparing hands

  function Values(cards: seq<Card>): (vs: seq<nat>)
    ensures |vs| == |cards| && forall i :: 0 <= i < |cards| ==> vs[i] == cards[i].value
  {
    seq(|cards|, i requires 0 <= i < |cards| => cards[i].value)
  }

  /** `hand_type`: the cards are counted by value. */
  function CategoryOf(cards: seq<Card>): (r: Option<HandType>)
    ensures |cards| <= 5 ==> r.Some?
  {
    if |cards| <= 5 then
      HandTypeOfShortHand(Values(cards));
      HandTypeOf(Values(cards))
    else
      HandTypeOf(Values(cards))
  }

  /** What `compare_hands` looks at: the category's rank and the values. */
  function KeyOf(cards: seq<Card>): (k: HandKey)
    ensures k.rank == 0 <==> CategoryOf(cards).None?
    ensures k.rank <= 7 && (|cards| <= 5 ==> 1 <= k.rank)
    ensures k.values == Values(cards)
  {
    HandKey(RankOf(CategoryOf(cards)), Values(cards))
  }

  function BidKey(b: Bid): HandKey {
    KeyOf(b.cards)
  }

  function BidValue(b: Bid): nat {
    b.value
  }

  /** `compare_hands`: fatal when either hand has no category. */
  function CompareHands(a: seq<Card>, b: seq<Card>): (r: Result<Ordering>)
    ensures r.Ok? <==> CategoryOf(a).Some? && CategoryOf(b).Some?
  {
    if CategoryOf(a).None? || CategoryOf(b).None? then Err(NoCategory)
    else Ok(CompareKeys(KeyOf(a), KeyOf(b)))
  }

  /** A hand of a higher category is greater, whatever its cards. */
  lemma CompareHandsByCategory(a: seq<Card>, b: seq<Card>)
    requires CategoryOf(a).Some? && CategoryOf(b).Some?
    requires Rank(CategoryOf(a).value) < Rank(CategoryOf(b).value)
    ensures CompareHands(a, b) == Ok(Less)
  {
  }

  /** Swapping the hands reverses the answer. */
  lemma CompareHandsFlip(a: seq<Card>, b: seq<Card>)
    ensures CompareHands(b, a).Ok? == CompareHands(a, b).Ok?
    ensures CompareHands(a, b).Ok? ==> CompareHands(b, a).value == Flip(CompareHands(a, b).value)
  {
    CompareKeysFlip(KeyOf(a), KeyOf(b));
  }

  /** Only identical hands compare equal. */
  lemma CompareHandsEqual(a: seq<Card>, b: seq<Card>)
    requires CompareHands(a, b).Ok?
    ensures CompareHands(a, b).value == Equal <==> a == b
  {
    CompareKeysEqual(KeyOf(a), KeyOf(b));
    if Values(a) == Values(b) {
      assert forall i :: 0 <= i < |a| ==> a[i] == Value(Values(a)[i]);
    }
  }

  // ---------------------------------------------------------------------------
  // Winnings

  /** `winnings`: the bids sorted by hand, then each bid times its 1-based
      position. `sort_by` compares every element once there are two or more,
      so a hand without a category is fatal exactly then. */
  function WinningsOf(bids: seq<Bid>): (r: Result<nat>)
    ensures r.Err? <==> |bids| >= 2 && exists i :: 0 <= i < |bids| && CategoryOf(bids[i].cards).None?
  {
    if |bids| >= 2 && exists i :: 0 <= i < |bids| && CategoryOf(bids[i].cards).None? then Err(NoCategory)
    else Ok(Total(SortSpec(BidKey, bids), BidValue))
  }

  /** The bids are sorted in place, then scored. */
  method Winnings(bids: seq<Bid>) returns (r: Result<nat>)
    ensures r == WinningsOf(bids)
  {
    if |bids| >= 2 && exists i :: 0 <= i < |bids| && CategoryOf(bids[i].cards).None? {
      return Err(NoCategory);
    }
    var a := new Bid[|bids|](i requires 0 <= i < |bids| => bids[i]);
    assert a[..] == bids;
    Sort(a, BidKey);
    r := Ok(Total(a[..], BidValue));
  }

  /** The order the bids are scored in: the same bids, ascending by
      `compare_hands`. */
  lemma WinningsOrder(bids: seq<Bid>)
    requires forall i :: 0 <= i < |bids| ==> CategoryOf(bids[i].cards).Some?
    ensures multiset(SortSpec(BidKey, bids)) == multiset(bids)
    ensures forall i, j :: 0 <= i < j < |bids| ==>
      CompareHands(SortSpec(BidKey, bids)[i].cards, SortSpec(BidKey, bids)[j].cards).Ok?
    ensures forall i, j :: 0 <= i < j < |bids| ==>
      CompareHands(SortSpec(BidKey, bids)[i].cards, SortSpec(BidKey, bids)[j].cards).value != Greater
  {
    var s := SortSpec(BidKey, bids);
    SortSpecPermutation(BidKey, bids);
    SortSpecSorted(BidKey, bids);
    forall i | 0 <= i < |s| ensures CategoryOf(s[i].cards).Some? {
      assert s[i] in multiset(bids);
      var k :| 0 <= k < |bids| && bids[k] == s[i];
    }
    forall i, j | 0 <= i < j < |s|
      ensures CompareHands(s[i].cards, s[j].cards) == Ok(CompareKeys(BidKey(s[i]), BidKey(s[j])))
    {
    }
  }

  /** Any stable sort by `compare_hands` (which `slice::sort_by` is) leads to
      the same winnings. */
  lemma WinningsAnyStableSort(bids: seq<Bid>, sorted: seq<Bid>)
    requires WinningsOf(bids).Ok?
    requires Sorted(BidKey, sorted)
    requires forall k :: WithKey(BidKey, sorted, k) == WithKey(BidKey, bids, k)
    ensures WinningsOf(bids).value == Total(sorted, BidValue)
  {
    StableSortUnique(BidKey, bids, sorted);
  }

  /** `part1_result`: parse every line, then score the bids. */
  function Part1Of(lines: seq<string>): (r: Result<nat>)
    ensures r.Err? <==> (Parse(lines).Err? ||
      (|lines| >= 2 && exists i :: 0 <= i < |lines| && CategoryOf(Parse(lines).value[i].cards).None?))
    ensures Parse(lines).Ok? && (forall i :: 0 <= i < |lines| ==> |Parse(lines).value[i].cards| <= 5) ==> r.Ok?
  {
    var bids :- Parse(lines);
    WinningsOf(bids)
  }

  method Part1Result(lines: seq<string>) returns (r: Result<nat>)
    ensures r == Part1Of(lines)
  {
    var bids :- Parse(lines);
    r := Winnings(bids);
  }
}
