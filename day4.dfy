/** Scratchcards (src/day4.rs): each card lists winning numbers and the
    numbers one has. Part 1 scores a card 2^(matches-1); in part 2 a card with
    `m` matches wins one more copy of each of the next `m` cards, once for
    every copy of it one holds, and the answer is the number of cards held. */
module Day4 {
  import opened Results
  import opened Text

  /** `Card` (src/day4.rs:3-7). */
  datatype Card = Card(winning: seq<nat>, own: seq<nat>)

  // ---------------------------------------------------------------------------
  // Matches and points

  /** The number of entries of `own` that occur in `winning`, each entry of
      `own` counted on its own. */
  function Matches(winning: seq<nat>, own: seq<nat>): (m: nat)
    ensures m <= |own|
  {
    if |own| == 0 then 0
    else Matches(winning, own[..|own| - 1]) + (if own[|own| - 1] in winning then 1 else 0)
  }

  /** Counting is additive over the own numbers, so a repeated own number
      counts every time it appears. */
  lemma {:induction false} MatchesAppend(winning: seq<nat>, a: seq<nat>, b: seq<nat>)
    ensures Matches(winning, a + b) == Matches(winning, a) + Matches(winning, b)
    decreases |b|
  {
    if |b| > 0 {
      assert (a + b)[..|a + b| - 1] == a + b[..|b| - 1];
      MatchesAppend(winning, a, b[..|b| - 1]);
    } else {
      assert a + b == a;
    }
  }

  /** No match exactly when no own number is a winning one; all match exactly
      when every own number is a winning one. */
  lemma {:induction false} MatchesExtremes(winning: seq<nat>, own: seq<nat>)
    ensures Matches(winning, own) == 0 <==> forall i :: 0 <= i < |own| ==> own[i] !in winning
    ensures Matches(winning, own) == |own| <==> forall i :: 0 <= i < |own| ==> own[i] in winning
  {
    if |own| > 0 {
      var init := own[..|own| - 1];
      MatchesExtremes(winning, init);
      assert forall i :: 0 <= i < |init| ==> init[i] == own[i];
    }
  }

  /** `Card::matching_cards` (src/day4.rs:10-20). */
  method MatchingCards(card: Card) returns (result: nat)
    ensures result == Matches(card.winning, card.own)
  {
    result := 0;
    for i := 0 to |card.own|
      invariant result == Matches(card.winning, card.own[..i])
    {
      assert card.own[..i + 1][..i] == card.own[..i];
      if card.own[i] in card.winning {
        result := result + 1;
      }
    }
    assert card.own[..|card.own|] == card.own;
  }

  function Pow2(n: nat): (p: nat)
    ensures p >= 1
  {
    if n == 0 then 1 else 2 * Pow2(n - 1)
  }

  /** The score of a card with `m` matches: 0 without a match, otherwise
      2^(m-1). */
  function Score(m: nat): nat {
    if m == 0 then 0 else Pow2(m - 1)
  }

  /** `Card::points` (src/day4.rs:22-36): the first match scores 1 and every
      further match doubles the score. */
  method Points(card: Card) returns (result: nat)
    ensures result == Score(Matches(card.winning, card.own))
  {
    result := 0;
    for i := 0 to |card.own|
      invariant result == Score(Matches(card.winning, card.own[..i]))
    {
      assert card.own[..i + 1][..i] == card.own[..i];
      if card.own[i] in card.winning {
        if result == 0 {
          result := 1;
        } else {
          result := result * 2;
        }
      }
    }
    assert card.own[..|card.own|] == card.own;
  }

  /** The score is 0 exactly when nothing matches, and one more match doubles
      a non-zero score. */
  lemma ScoreFacts(m: nat)
    ensures Score(m) == 0 <==> m == 0
    ensures m > 0 ==> Score(m + 1) == 2 * Score(m)
  {
  }

  // ---------------------------------------------------------------------------
  // Part 1

  /** The score of every card, given its number of matches. */
  function Scores(ms: seq<nat>): (r: seq<nat>)
    ensures |r| == |ms| && forall i :: 0 <= i < |ms| ==> r[i] == Score(ms[i])
  {
    seq(|ms|, i requires 0 <= i < |ms| => Score(ms[i]))
  }

  function TotalPoints(cards: seq<Card>): nat {
    Sum(Scores(MatchCounts(cards)))
  }

  /** `part1_result` (src/day4.rs:57-60): parse every line, then add up the
      scores. */
  function Part1Result(lines: seq<string>): (r: Result<nat>)
    ensures r.Ok? <==> ParseCards(lines).Ok?
    ensures r.Ok? ==> r.value == TotalPoints(ParseCards(lines).value)
  {
    var cards :- ParseCards(lines);
    Ok(TotalPoints(cards))
  }

  /** More matches never score less; so a card scores at most what it would
      with all of its own numbers matching. */
  lemma {:induction false} ScoreMonotone(m: nat, n: nat)
    requires m <= n
    ensures Score(m) <= Score(n)
    decreases n
  {
    if m < n {
      ScoreMonotone(m, n - 1);
      ScoreFacts(n - 1);
    }
  }

  // ---------------------------------------------------------------------------
  // Part 2

  /** The number of matches of every card, in order. */
  function MatchCounts(cards: seq<Card>): (ms: seq<nat>)
    ensures |ms| == |cards|
    ensures forall i :: 0 <= i < |cards| ==> ms[i] == Matches(cards[i].winning, cards[i].own)
  {
    seq(|cards|, i requires 0 <= i < |cards| => Matches(cards[i].winning, cards[i].own))
  }

  /** The reward of card `i`: its matches, capped at the number of cards after
      it. */
  function Reward(ms: seq<nat>, i: nat): (r: nat)
    requires i < |ms|
    ensures r <= ms[i] && i + r < |ms|
    ensures r == ms[i] || i + r == |ms| - 1
  {
    if ms[i] < |ms| - i - 1 then ms[i] else |ms| - i - 1
  }

  /** Each of the `reward` cards after card `i` gains as many copies as card
      `i` has. */
  function AddCopies(c: seq<nat>, i: nat, reward: nat): (r: seq<nat>)
    requires i + reward < |c|
    ensures |r| == |c|
    ensures forall k :: 0 <= k < |c| ==> r[k] == if i < k <= i + reward then c[k] + c[i] else c[k]
  {
    seq(|c|, k requires 0 <= k < |c| => if i < k <= i + reward then c[k] + c[i] else c[k])
  }

  /** The copies held of every card once cards `0 .. n-1` have been
      processed, starting from one copy of each. */
  function CopiesAfter(ms: seq<nat>, n: nat): (c: seq<nat>)
    requires n <= |ms|
    ensures |c| == |ms|
    ensures forall k :: 0 <= k < |ms| ==> c[k] >= 1
    ensures |ms| > 0 ==> c[0] == 1
  {
    if n == 0 then seq(|ms|, _ => 1)
    else AddCopies(CopiesAfter(ms, n - 1), n - 1, Reward(ms, n - 1))
  }

  function Sum(s: seq<nat>): nat {
    if |s| == 0 then 0 else Sum(s[..|s| - 1]) + s[|s| - 1]
  }

  /** The answer of part 2: the number of cards held at the end. */
  function TotalCopies(cards: seq<Card>): nat {
    Sum(CopiesAfter(MatchCounts(cards), |cards|))
  }

  /** The counting of `part2_result` (src/day4.rs:64-77) on the parsed cards: a vector of
      counts, all 1, updated in place one copy at a time, then summed. */
  method Part2Count(cards: seq<Card>) returns (total: nat)
    ensures total == TotalCopies(cards)
  {
    var n := |cards|;
    var counts := new nat[n](_ => 1);
    ghost var ms := MatchCounts(cards);
    for i := 0 to n
      invariant counts[..] == CopiesAfter(ms, i)
    {
      var maxRewards: nat := n - i - 1;
      var matching := MatchingCards(cards[i]);
      var reward: nat := if matching < maxRewards then matching else maxRewards;
      assert reward == Reward(ms, i);
      GiveCopies(counts, i, reward);
    }
    total := Sum(counts[..]);
  }

  /** `part2_result` (src/day4.rs:62-78): parse every line, failing as the
      original panics on a malformed card, then count the cards held. */
  method Part2Result(lines: seq<string>) returns (r: Result<nat>)
    ensures r.Ok? <==> ParseCards(lines).Ok?
    ensures r.Ok? ==> r.value == TotalCopies(ParseCards(lines).value)
    ensures r.Ok? ==> r.value >= |lines|
  {
    var parsed := ParseCards(lines);
    if parsed.Err? {
      return Err(parsed.reason);
    }
    var total := Part2Count(parsed.value);
    TotalCopiesAtLeastCards(parsed.value);
    return Ok(total);
  }

  /** The copy loops of `part2_result` (src/day4.rs:70-74): once per copy of
      card `i`, each of the next `reward` counts goes up by one. */
  method GiveCopies(counts: array<nat>, i: nat, reward: nat)
    requires i + reward < counts.Length
    modifies counts
    ensures counts[..] == AddCopies(old(counts[..]), i, reward)
  {
    ghost var before := counts[..];
    var copies := counts[i];
    for t := 0 to copies
      invariant forall k :: 0 <= k < counts.Length ==>
        counts[k] == before[k] + (if i < k <= i + reward then t else 0)
    {
      for j := 0 to reward
        invariant forall k :: 0 <= k < counts.Length ==>
          counts[k] == before[k] + (if i < k <= i + reward then t else 0) + (if i < k <= i + j then 1 else 0)
      {
        counts[i + j + 1] := counts[i + j + 1] + 1;
      }
    }
    assert counts[..] == AddCopies(before, i, reward);
  }

  /** Every card is held at least once at every stage. */
  lemma {:induction false} CopiesPositive(ms: seq<nat>, n: nat)
    requires n <= |ms|
    ensures forall k :: 0 <= k < |ms| ==> CopiesAfter(ms, n)[k] >= 1
  {
    if n > 0 {
      CopiesPositive(ms, n - 1);
    }
  }

  /** Processing a card never lowers a count. */
  lemma CopiesGrow(ms: seq<nat>, n: nat, k: nat)
    requires n < |ms| && k < |ms|
    ensures CopiesAfter(ms, n)[k] <= CopiesAfter(ms, n + 1)[k]
  {
  }

  /** Once card `m` is reached, the counts of cards `0 .. m` are final. */
  lemma {:induction false} CopiesSettled(ms: seq<nat>, m: nat, n: nat, k: nat)
    requires k <= m <= n <= |ms| && k < |ms|
    ensures CopiesAfter(ms, n)[k] == CopiesAfter(ms, m)[k]
  {
    if m < n {
      CopiesSettled(ms, m, n - 1, k);
    }
  }

  /** The total is at least the number of cards. */
  lemma {:induction false} SumAtLeastLength(s: seq<nat>)
    requires forall k :: 0 <= k < |s| ==> s[k] >= 1
    ensures Sum(s) >= |s|
  {
    if |s| > 0 {
      SumAtLeastLength(s[..|s| - 1]);
    }
  }

  lemma TotalCopiesAtLeastCards(cards: seq<Card>)
    ensures TotalCopies(cards) >= |cards|
  {
    CopiesPositive(MatchCounts(cards), |cards|);
    SumAtLeastLength(CopiesAfter(MatchCounts(cards), |cards|));
  }

  lemma SumSnoc(s: seq<nat>, x: nat)
    ensures Sum(s + [x]) == Sum(s) + x
  {
    assert (s + [x])[..|s|] == s;
  }

  /** With 4, 2, 2, 1, 0 and 0 matches the cards end up held 1, 2, 4, 8, 14
      and 1 times: 30 cards. */
  lemma SampleCopies()
    ensures Sum(CopiesAfter([4, 2, 2, 1, 0, 0], 6)) == 30
  {
    SampleCopiesTable();
    SampleCopiesSum();
  }

  lemma SampleCopiesTable()
    ensures CopiesAfter([4, 2, 2, 1, 0, 0], 6) == [1, 2, 4, 8, 14, 1]
  {
    var ms := [4, 2, 2, 1, 0, 0];
    assert CopiesAfter(ms, 1) == [1, 2, 2, 2, 2, 1];
    assert CopiesAfter(ms, 2) == [1, 2, 4, 4, 2, 1];
    assert CopiesAfter(ms, 3) == [1, 2, 4, 8, 6, 1];
    assert CopiesAfter(ms, 4) == [1, 2, 4, 8, 14, 1];
    assert CopiesAfter(ms, 5) == [1, 2, 4, 8, 14, 1];
  }

  lemma SampleCopiesSum()
    ensures Sum([1, 2, 4, 8, 14, 1]) == 30
  {
    SumSnoc([], 1);
    assert [] + [1] == [1];
    SumSnoc([1], 2);
    assert [1] + [2] == [1, 2];
    SumSnoc([1, 2], 4);
    assert [1, 2] + [4] == [1, 2, 4];
    SumSnoc([1, 2, 4], 8);
    assert [1, 2, 4] + [8] == [1, 2, 4, 8];
    SumSnoc([1, 2, 4, 8], 14);
    assert [1, 2, 4, 8] + [14] == [1, 2, 4, 8, 14];
    SumSnoc([1, 2, 4, 8, 14], 1);
    assert [1, 2, 4, 8, 14] + [1] == [1, 2, 4, 8, 14, 1];
  }

  /** With 4, 2, 2, 1, 0 and 0 matches the cards score 8, 2, 2, 1, 0 and 0:
      13 points. */
  lemma SamplePoints()
    ensures Sum(Scores([4, 2, 2, 1, 0, 0])) == 13
  {
    assert Pow2(3) == 8 && Pow2(1) == 2;
    assert Scores([4, 2, 2, 1, 0, 0]) == [8, 2, 2, 1, 0, 0];
    SumSnoc([], 8);
    assert [] + [8] == [8];
    SumSnoc([8], 2);
    assert [8] + [2] == [8, 2];
    SumSnoc([8, 2], 2);
    assert [8, 2] + [2] == [8, 2, 2];
    SumSnoc([8, 2, 2], 1);
    assert [8, 2, 2] + [1] == [8, 2, 2, 1];
    SumSnoc([8, 2, 2, 1], 0);
    assert [8, 2, 2, 1] + [0] == [8, 2, 2, 1, 0];
    SumSnoc([8, 2, 2, 1, 0], 0);
    assert [8, 2, 2, 1, 0] + [0] == [8, 2, 2, 1, 0, 0];
  }

  // ---------------------------------------------------------------------------
  // Parsing

  /** `parse_card` (src/day4.rs:84-98): drop everything up to and including
      the ':', split the rest at '|' into exactly two parts, and read each
      part as whitespace-separated numbers. */
  function ParseCard(line: string): (r: Result<Card>)
    ensures Find(line, ':').None? ==> r.Err?
    ensures Find(line, ':').Some? ==> r == ParseCardBody(line[Find(line, ':').value + 1..])
  {
    var body := SkipPast(line, ':', 1);
    if Find(line, ':').None? then NoBodyFails(); ParseCardBody(body) else ParseCardBody(body)
  }

  /** A line without ':' leaves nothing to split, and one piece is not two. */
  lemma NoBodyFails()
    ensures ParseCardBody([]).Err?
  {
    assert SplitOn([], "|") == [[]];
  }

  /** The two number lists of a card, separated by '|': the card exists
      exactly when there are two parts and both are lists of numbers, and
      then it holds those numbers in order. */
  function ParseCardBody(body: string): (r: Result<Card>)
    ensures r.Ok? <==> |SplitOn(body, "|")| == 2 && ParseNats(Words(SplitOn(body, "|")[0])).Ok? && ParseNats(Words(SplitOn(body, "|")[1])).Ok?
    ensures r.Ok? ==> r.value.winning == ParseNats(Words(SplitOn(body, "|")[0])).value
    ensures r.Ok? ==> r.value.own == ParseNats(Words(SplitOn(body, "|")[1])).value
  {
    var x := SplitOn(body, "|");
    if |x| != 2 then Err("a card needs exactly two number lists")
    else
      var winning :- ParseNats(Words(x[0]));
      var own :- ParseNats(Words(x[1]));
      Ok(Card(winning, own))
  }

  /** `parse_cards` (src/day4.rs:80-82). */
  function ParseCards(lines: seq<string>): (r: Result<seq<Card>>)
    ensures r.Ok? <==> forall i :: 0 <= i < |lines| ==> ParseCard(lines[i]).Ok?
    ensures r.Ok? ==> |r.value| == |lines| && forall i :: 0 <= i < |lines| ==> r.value[i] == ParseCard(lines[i]).value
  {
    Collect(ParseCard, lines)
  }

  /** A card line as the puzzle writes it, "Card <id>: <winning> | <own>",
      with every number right-aligned in a column `width` characters wide
      (the puzzle's own lines use 2, so a one-digit number has two spaces
      before it). */
  function RenderCard(id: nat, c: Card, width: nat): string {
    "Card " + NatToString(id) + ": " + RenderNatsAligned(c.winning, width) + " | " + RenderNatsAligned(c.own, width)
  }

  /** The text after the ':' of a rendered card parses back to the card. */
  lemma ParseCardBodyRendered(c: Card, width: nat)
    ensures ParseCardBody(" " + RenderNatsAligned(c.winning, width) + " | " + RenderNatsAligned(c.own, width)) == Ok(c)
  {
    var w := RenderNatsAligned(c.winning, width);
    var o := RenderNatsAligned(c.own, width);
    PaddedNats(c.winning, width);
    PaddedNats(c.own, width);
    SplitCardBody(w, o);
  }

  /** A card body with no other '|' splits around its bar. */
  lemma SplitCardBody(w: string, o: string)
    requires '|' !in w && '|' !in o
    ensures SplitOn(" " + w + " | " + o, "|") == [" " + w + " ", " " + o]
  {
    SpacedBar(" " + w, o);
    SplitTwo(" " + w + " ", " " + o, "|");
  }

  /** " | " is a space, the bar, and a space. */
  lemma SpacedBar(a: string, b: string)
    ensures a + " | " + b == (a + " ") + "|" + (" " + b)
  {
    var l, r := a + " | " + b, (a + " ") + "|" + (" " + b);
    assert |l| == |r|;
    forall i | 0 <= i < |l| ensures l[i] == r[i] {
      if i < |a| {
      } else if i < |a| + 3 {
      } else {
      }
    }
  }

  /** Aligned numbers read back with a space before them, and after them too,
      and hold no bar. */
  lemma PaddedNats(ns: seq<nat>, width: nat)
    ensures ParseNats(Words(" " + RenderNatsAligned(ns, width) + " ")) == Ok(ns)
    ensures ParseNats(Words(" " + RenderNatsAligned(ns, width))) == Ok(ns)
    ensures '|' !in RenderNatsAligned(ns, width)
  {
    var w := RenderNatsAligned(ns, width);
    RenderNatsAlignedFacts(ns, width);
    assert " " + w + " " == " " + (w + " ");
    WordsLeadingSpace(w + " ");
    WordsTrailingWhitespace(w, ' ');
    WordsLeadingSpace(w);
  }

  /** Parsing a rendered card gives the card back, whatever the column width. */
  lemma ParseCardRendered(id: nat, c: Card, width: nat)
    ensures ParseCard(RenderCard(id, c, width)) == Ok(c)
  {
    var w := RenderNatsAligned(c.winning, width);
    var o := RenderNatsAligned(c.own, width);
    var digits := NatToString(id);
    var head := "Card " + digits;
    assert ':' !in head by {
      assert forall i :: 0 <= i < |digits| ==> IsDigit(digits[i]);
      assert forall i :: 0 <= i < |head| ==> head[i] == ("Card " + digits)[i];
    }
    CardLineShape(digits, w, o);
    ParseCardAfterHead(head, " " + w + " | " + o);
    ParseCardBodyRendered(c, width);
  }

  /** The line of a card is its head, the ':', and its body. */
  lemma CardLineShape(digits: string, w: string, o: string)
    ensures "Card " + digits + ": " + w + " | " + o == ("Card " + digits) + [':'] + (" " + w + " | " + o)
  {
  }

  /** Everything up to the first ':' is dropped. */
  lemma ParseCardAfterHead(head: string, body: string)
    requires ':' !in head
    ensures ParseCard(head + [':'] + body) == ParseCardBody(body)
  {
    FindAfter(head, ':', body);
    assert (head + [':'] + body)[|head| + 1..] == body;
  }

  /** Cards rendered one per line, numbered from 1. */
  function RenderCards(cards: seq<Card>, width: nat): (lines: seq<string>)
    ensures |lines| == |cards|
    ensures forall i :: 0 <= i < |cards| ==> lines[i] == RenderCard(i + 1, cards[i], width)
  {
    seq(|cards|, i requires 0 <= i < |cards| => RenderCard(i + 1, cards[i], width))
  }

  /** Rendered lines parse back to the cards. */
  lemma ParseCardsRendered(cards: seq<Card>, width: nat)
    ensures ParseCards(RenderCards(cards, width)) == Ok(cards)
  {
    RenderedLinesParse(cards, width);
    CollectAll(ParseCard, RenderCards(cards, width), cards);
  }

  lemma RenderedLinesParse(cards: seq<Card>, width: nat)
    ensures forall i :: 0 <= i < |cards| ==> ParseCard(RenderCards(cards, width)[i]) == Ok(cards[i])
  {
    forall i | 0 <= i < |cards| ensures ParseCard(RenderCards(cards, width)[i]) == Ok(cards[i]) {
      ParseCardRendered(i + 1, cards[i], width);
    }
  }

  // ---------------------------------------------------------------------------
  // The sample of src/day4.rs:100-134

  /** The six cards of the sample. */
  function SampleCards(): seq<Card> {
    [ Card([41, 48, 83, 86, 17], [83, 86, 6, 31, 17, 9, 48, 53]),
      Card([13, 32, 20, 16, 61], [61, 30, 68, 82, 17, 32, 24, 19]),
      Card([1, 21, 53, 59, 44], [69, 82, 63, 72, 16, 21, 14, 1]),
      Card([41, 92, 73, 84, 69], [59, 84, 76, 51, 58, 5, 54, 83]),
      Card([87, 83, 26, 28, 32], [88, 30, 70, 12, 93, 22, 82, 36]),
      Card([31, 18, 13, 56, 72], [74, 77, 10, 23, 35, 67, 36, 11]) ]
  }

  /** The sample's lines: "Card 1: 41 48 ..." onwards, numbers in columns two
      characters wide. */
  function SampleLines(): seq<string> {
    RenderCards(SampleCards(), 2)
  }

  /** The sample's lines parse to its cards, which score 13 points in part 1
      and end up as 30 cards in part 2. */
  lemma SampleResults()
    ensures ParseCards(SampleLines()) == Ok(SampleCards())
    ensures Part1Result(SampleLines()) == Ok(13)
    ensures TotalCopies(SampleCards()) == 30
  {
    ParseCardsRendered(SampleCards(), 2);
    SampleMatchCounts();
    SampleCopies();
    SamplePoints();
  }

  lemma SampleMatchCounts()
    ensures MatchCounts(SampleCards()) == [4, 2, 2, 1, 0, 0]
  {
    SampleMatches1();
    SampleMatches2();
    SampleMatches3();
    SampleMatches4();
    SampleMatches5();
    SampleMatches6();
  }

  lemma SampleMatches1()
    ensures Matches([41, 48, 83, 86, 17], [83, 86, 6, 31, 17, 9, 48, 53]) == 4
  {
    MatchesOfEight([41, 48, 83, 86, 17], 83, 86, 6, 31, 17, 9, 48, 53);
  }

  lemma SampleMatches2()
    ensures Matches([13, 32, 20, 16, 61], [61, 30, 68, 82, 17, 32, 24, 19]) == 2
  {
    MatchesOfEight([13, 32, 20, 16, 61], 61, 30, 68, 82, 17, 32, 24, 19);
  }

  lemma SampleMatches3()
    ensures Matches([1, 21, 53, 59, 44], [69, 82, 63, 72, 16, 21, 14, 1]) == 2
  {
    MatchesOfEight([1, 21, 53, 59, 44], 69, 82, 63, 72, 16, 21, 14, 1);
  }

  lemma SampleMatches4()
    ensures Matches([41, 92, 73, 84, 69], [59, 84, 76, 51, 58, 5, 54, 83]) == 1
  {
    MatchesOfEight([41, 92, 73, 84, 69], 59, 84, 76, 51, 58, 5, 54, 83);
  }

  lemma SampleMatches5()
    ensures Matches([87, 83, 26, 28, 32], [88, 30, 70, 12, 93, 22, 82, 36]) == 0
  {
    MatchesOfEight([87, 83, 26, 28, 32], 88, 30, 70, 12, 93, 22, 82, 36);
  }

  lemma SampleMatches6()
    ensures Matches([31, 18, 13, 56, 72], [74, 77, 10, 23, 35, 67, 36, 11]) == 0
  {
    MatchesOfEight([31, 18, 13, 56, 72], 74, 77, 10, 23, 35, 67, 36, 11);
  }

  /** 1 when `x` is a winning number, otherwise 0. */
  function Hit(winning: seq<nat>, x: nat): nat {
    if x in winning then 1 else 0
  }

  /** The matches of eight own numbers, one at a time. */
  lemma MatchesOfEight(w: seq<nat>, a: nat, b: nat, c: nat, d: nat, e: nat, f: nat, g: nat, h: nat)
    ensures Matches(w, [a, b, c, d, e, f, g, h]) ==
      Hit(w, a) + Hit(w, b) + Hit(w, c) + Hit(w, d) + Hit(w, e) + Hit(w, f) + Hit(w, g) + Hit(w, h)
  {
    assert [a, b, c, d, e, f, g, h] == [a, b, c, d] + [e, f, g, h];
    MatchesAppend(w, [a, b, c, d], [e, f, g, h]);
    MatchesOfFour(w, a, b, c, d);
    MatchesOfFour(w, e, f, g, h);
  }

  lemma MatchesOfFour(w: seq<nat>, a: nat, b: nat, c: nat, d: nat)
    ensures Matches(w, [a, b, c, d]) == Hit(w, a) + Hit(w, b) + Hit(w, c) + Hit(w, d)
  {
    assert Matches(w, [a]) == Hit(w, a) by { assert [a][..0] == []; }
    assert Matches(w, [a, b]) == Hit(w, a) + Hit(w, b) by { assert [a, b][..1] == [a]; }
    assert Matches(w, [a, b, c]) == Hit(w, a) + Hit(w, b) + Hit(w, c) by { assert [a, b, c][..2] == [a, b]; }
    assert [a, b, c, d][..3] == [a, b, c];
  }
}
