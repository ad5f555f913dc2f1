/** Cube game (src/day2.rs): each game line lists sets of cubes drawn from a
    bag; a game is possible when no set exceeds 12 red, 13 green and 14 blue
    cubes, and the fewest cubes that make a game possible are the
    colour-by-colour maximum of its sets. */
module Day2 {
  import opened Results
  import opened Text

  datatype Cubes = Cubes(red: nat, green: nat, blue: nat)

  datatype Game = Game(sets: seq<Cubes>)

  datatype Color = Red | Green | Blue

  /** The bag of part 1. */
  const Bag := Cubes(12, 13, 14)

  predicate Within(c: Cubes, bound: Cubes) {
    c.red <= bound.red && c.green <= bound.green && c.blue <= bound.blue
  }


  /** The colour-by-colour maximum of the sets, each colour starting at 0: an
      upper bound of every set in which every non-zero colour is attained. */
  function Maximum(sets: seq<Cubes>): (m: Cubes)
    ensures forall i :: 0 <= i < |sets| ==> Within(sets[i], m)
    ensures m.red == 0 || exists i :: 0 <= i < |sets| && sets[i].red == m.red
    ensures m.green == 0 || exists i :: 0 <= i < |sets| && sets[i].green == m.green
    ensures m.blue == 0 || exists i :: 0 <= i < |sets| && sets[i].blue == m.blue
  {
    if |sets| == 0 then Cubes(0, 0, 0)
    else
      var init := sets[..|sets| - 1];
      var m := Maximum(init);
      var s := sets[|sets| - 1];
      assert forall i :: 0 <= i < |init| ==> sets[i] == init[i];
      Cubes(if s.red > m.red then s.red else m.red,
            if s.green > m.green then s.green else m.green,
            if s.blue > m.blue then s.blue else m.blue)
  }

  /** `Game::minimum_required` (src/day2.rs:36-54): the loop raises each
      colour of `max` to the set's count whenever the set has more. */
  method MinimumRequired(g: Game) returns (max: Cubes)
    ensures max == Maximum(g.sets)
  {
    max := Cubes(0, 0, 0);
    for i := 0 to |g.sets|
      invariant max == Maximum(g.sets[..i])
    {
      var drawn := g.sets[i];
      assert g.sets[..i + 1][..i] == g.sets[..i];
      if drawn.red > max.red {
        max := max.(red := drawn.red);
      }
      if drawn.green > max.green {
        max := max.(green := drawn.green);
      }
      if drawn.blue > max.blue {
        max := max.(blue := drawn.blue);
      }
    }
    assert g.sets[..|g.sets|] == g.sets;
  }

  /** Every set fits in a bound exactly when their maximum does. */
  lemma MaximumWithin(sets: seq<Cubes>, bound: Cubes)
    ensures (forall i :: 0 <= i < |sets| ==> Within(sets[i], bound)) <==> Within(Maximum(sets), bound)
  {
    var m := Maximum(sets);
    if forall i :: 0 <= i < |sets| ==> Within(sets[i], bound) {
      if m.red != 0 {
        var i :| 0 <= i < |sets| && sets[i].red == m.red;
      }
      if m.green != 0 {
        var i :| 0 <= i < |sets| && sets[i].green == m.green;
      }
      if m.blue != 0 {
        var i :| 0 <= i < |sets| && sets[i].blue == m.blue;
      }
    }
  }

  /** `Game::is_possible` (src/day2.rs:32-34): every set fits in the bag of
      part 1, which is to say that the game's minimum bag does. */
  predicate IsPossible(g: Game): (b: bool)
    ensures b <==> Within(Maximum(g.sets), Bag)
  {
    MaximumWithin(g.sets, Bag);
    forall i :: 0 <= i < |g.sets| ==> Within(g.sets[i], Bag)
  }

  /** `Cubes::power` (src/day2.rs:65-67): the product of the three counts,
      zero exactly when some colour is missing. */
  function Power(c: Cubes): (p: nat)
    ensures p == 0 <==> c.red == 0 || c.green == 0 || c.blue == 0
  {
    var rg := c.red * c.green;
    assert c.red > 0 && c.green > 0 ==> rg > 0;
    rg * c.blue
  }

  // ---------------------------------------------------------------------------
  // Parsing

  /** One "<quantity> <colour>" item of a set (src/day2.rs:95-112): exactly
      two words split on ' ', a number and one of the three colour names. */
  function ParseItem(item: string): (r: Result<(nat, Color)>)
    ensures var x := SplitOn(item, " ");
      r.Ok? <==> |x| == 2 && ParseNat(x[0]).Ok? && x[1] in {"red", "green", "blue"}
    ensures var x := SplitOn(item, " ");
      r.Ok? ==> r.value.0 == ParseNat(x[0]).value && ColorName(r.value.1) == x[1]
  {
    var x := SplitOn(item, " ");
    if |x| != 2 then Err("item is not a quantity and a colour")
    else
      var quantity :- ParseNat(x[0]);
      if x[1] == "red" then Ok((quantity, Red))
      else if x[1] == "green" then Ok((quantity, Green))
      else if x[1] == "blue" then Ok((quantity, Blue))
      else Err("unknown colour")
  }

  function Count(c: Cubes, color: Color): nat {
    match color
    case Red => c.red
    case Green => c.green
    case Blue => c.blue
  }

  /** One item's effect on the counts: the colour it names is overwritten. */
  function Apply(c: Cubes, quantity: nat, color: Color): (r: Cubes)
    ensures Count(r, color) == quantity
    ensures forall other :: other != color ==> Count(r, other) == Count(c, other)
  {
    match color
    case Red => c.(red := quantity)
    case Green => c.(green := quantity)
    case Blue => c.(blue := quantity)
  }

  /** The counts after the items, applied left to right from all zeros; it
      fails exactly when some item does. */
  function ItemsToCubes(items: seq<string>): (r: Result<Cubes>)
    ensures r.Ok? <==> forall i :: 0 <= i < |items| ==> ParseItem(items[i]).Ok?
  {
    if |items| == 0 then Ok(Cubes(0, 0, 0))
    else
      var c :- ItemsToCubes(items[..|items| - 1]);
      var (quantity, color) :- ParseItem(items[|items| - 1]);
      Ok(Apply(c, quantity, color))
  }

  /** `parse_set` (src/day2.rs:83-112): split on ", " and let each item set
      its colour. */
  method ParseSet(s: string) returns (r: Result<Cubes>)
    ensures r == ParseSetText(s)
  {
    var split := SplitOn(s, ", ");
    var red, green, blue := 0, 0, 0;
    for i := 0 to |split|
      invariant ItemsToCubes(split[..i]) == Ok(Cubes(red, green, blue))
    {
      assert split[..i + 1][..i] == split[..i];
      var item := ParseItem(split[i]);
      if item.Err? {
        assert ItemsToCubes(split[..i + 1]).Err?;
        ItemsToCubesErrPrefix(split, i + 1);
        return Err(item.reason);
      }
      var (quantity, color) := item.value;
      match color {
        case Red => red := quantity;
        case Green => green := quantity;
        case Blue => blue := quantity;
      }
    }
    assert split[..|split|] == split;
    r := Ok(Cubes(red, green, blue));
  }

  /** An item that fails to parse makes the whole set fail with its reason. */
  lemma {:induction false} ItemsToCubesErrPrefix(items: seq<string>, n: nat)
    requires 0 < n <= |items|
    requires ItemsToCubes(items[..n - 1]).Ok? && ParseItem(items[n - 1]).Err?
    ensures ItemsToCubes(items) == Err(ParseItem(items[n - 1]).reason)
    decreases |items|
  {
    assert items[..n][..n - 1] == items[..n - 1];
    if n < |items| {
      assert items[..|items| - 1][..n - 1] == items[..n - 1];
      ItemsToCubesErrPrefix(items[..|items| - 1], n);
    } else {
      assert items[..|items| - 1] == items[..n - 1];
    }
  }

  /** No item of the list names `color`. */
  predicate NoMention(items: seq<string>, color: Color) {
    forall i :: 0 <= i < |items| ==> ParseItem(items[i]).Ok? && ParseItem(items[i]).value.1 != color
  }

  /** Item `i` names `color` and no later item does. */
  predicate LastMention(items: seq<string>, color: Color, i: int) {
    && 0 <= i < |items|
    && ParseItem(items[i]).Ok? && ParseItem(items[i]).value.1 == color
    && forall j :: i < j < |items| ==> ParseItem(items[j]).Ok? && ParseItem(items[j]).value.1 != color
  }

  /** A colour no item names stays 0; a colour named several times takes the
      quantity of its last mention. */
  lemma ItemsToCubesLastMention(items: seq<string>, color: Color)
    requires ItemsToCubes(items).Ok?
    ensures forall i :: 0 <= i < |items| ==> ParseItem(items[i]).Ok?
    ensures NoMention(items, color) ==> Count(ItemsToCubes(items).value, color) == 0
    ensures forall i :: LastMention(items, color, i) ==> Count(ItemsToCubes(items).value, color) == ParseItem(items[i]).value.0
  {
    if NoMention(items, color) {
      NoMentionZero(items, color);
    }
    forall i | LastMention(items, color, i)
      ensures Count(ItemsToCubes(items).value, color) == ParseItem(items[i]).value.0
    {
      LastMentionCount(items, color, i);
    }
  }

  lemma {:induction false} NoMentionZero(items: seq<string>, color: Color)
    requires ItemsToCubes(items).Ok? && NoMention(items, color)
    ensures Count(ItemsToCubes(items).value, color) == 0
  {
    if |items| > 0 {
      var init := items[..|items| - 1];
      assert forall i :: 0 <= i < |init| ==> init[i] == items[i];
      NoMentionZero(init, color);
    }
  }

  lemma {:induction false} LastMentionCount(items: seq<string>, color: Color, i: int)
    requires ItemsToCubes(items).Ok? && LastMention(items, color, i)
    ensures Count(ItemsToCubes(items).value, color) == ParseItem(items[i]).value.0
  {
    var last := |items| - 1;
    if i < last {
      var init := items[..last];
      assert forall j :: 0 <= j < |init| ==> init[j] == items[j];
      assert LastMention(init, color, i);
      LastMentionCount(init, color, i);
    }
  }

  /** A set's text parses as its ", " items applied in order. */
  function ParseSetText(s: string): Result<Cubes> {
    ItemsToCubes(SplitOn(s, ", "))
  }

  /** The texts of the sets of a game: the "; " parts. */
  function SetTexts(s: string): seq<string> {
    SplitOn(s, "; ")
  }

  /** `parse_sets` (src/day2.rs:78-81): one set per "; " part, failing as
      soon as a part does. */
  function ParseSets(s: string): (r: Result<Game>)
    ensures r.Ok? <==> forall i :: 0 <= i < |SetTexts(s)| ==> ParseSetText(SetTexts(s)[i]).Ok?
    ensures r.Ok? ==> |r.value.sets| == |SetTexts(s)| > 0
    ensures r.Ok? ==> forall i :: 0 <= i < |SetTexts(s)| ==> r.value.sets[i] == ParseSetText(SetTexts(s)[i]).value
  {
    var sets := Collect(ParseSetText, SetTexts(s));
    if sets.Err? then Err(sets.reason) else Ok(Game(sets.value))
  }

  /** `parse_line` (src/day2.rs:70-76): everything up to the first ':' and
      one more character is dropped, so a line without ':' leaves an empty
      set text, whose one empty item fails. */
  function ParseLine(line: string): (r: Result<Game>)
    ensures Find(line, ':').None? ==> r.Err?
    ensures Find(line, ':').Some? ==> r == ParseSets(line[Min(Find(line, ':').value + 2, |line|)..])
  {
    var sets := SkipPast(line, ':', 2);
    if Find(line, ':').None? then EmptySetFails(); ParseSets(sets) else ParseSets(sets)
  }

  lemma EmptySetFails()
    ensures ParseSets([]).Err?
  {
    assert SplitOn([], "; ") == [[]];
    assert SplitOn([], ", ") == [[]];
    assert SplitOn([], " ") == [[]];
    assert ParseSetText([]).Err?;
  }

  /** A line "<head>: <body>" whose head has no ':' parses as the sets of its
      body, whatever the head says. */
  lemma ParseLineBody(line: string, head: string, body: string)
    requires line == head + ": " + body && ':' !in head
    ensures ParseLine(line) == ParseSets(body)
  {
    assert line == head + [':'] + (" " + body);
    FindAfter(head, ':', " " + body);
    assert line[|head| + 2..] == body;
  }

  // ---------------------------------------------------------------------------
  // Rendering, the inverse of parsing

  function ColorName(c: Color): string {
    match c
    case Red => "red"
    case Green => "green"
    case Blue => "blue"
  }

  /** One item written out as "<quantity> <colour>". */
  function RenderItem(item: (nat, Color)): string {
    NatToString(item.0) + " " + ColorName(item.1)
  }

  function RenderItems(items: seq<(nat, Color)>): (r: seq<string>)
    ensures |r| == |items| && forall i :: 0 <= i < |items| ==> r[i] == RenderItem(items[i])
  {
    if |items| == 0 then [] else RenderItems(items[..|items| - 1]) + [RenderItem(items[|items| - 1])]
  }

  /** The counts a list of items sets, from all zeros, left to right. */
  function ApplyItems(items: seq<(nat, Color)>): Cubes {
    if |items| == 0 then Cubes(0, 0, 0)
    else
      var last := items[|items| - 1];
      Apply(ApplyItems(items[..|items| - 1]), last.0, last.1)
  }

  /** A set written as the given items, in their order, separated by ", ". */
  function RenderSetItems(items: seq<(nat, Color)>): string {
    Join(RenderItems(items), ", ")
  }

  /** A set with all three colours, red first. */
  function RenderSet(c: Cubes): string {
    RenderSetItems([(c.red, Red), (c.green, Green), (c.blue, Blue)])
  }

  function RenderSets(sets: seq<Cubes>): (r: seq<string>)
    ensures |r| == |sets| && forall i :: 0 <= i < |sets| ==> r[i] == RenderSet(sets[i])
  {
    if |sets| == 0 then [] else [RenderSet(sets[0])] + RenderSets(sets[1..])
  }

  function RenderLine(id: nat, texts: seq<string>): string {
    "Game " + NatToString(id) + ": " + Join(texts, "; ")
  }

  lemma ParseItemRendered(n: nat, color: Color)
    ensures ParseItem(RenderItem((n, color))) == Ok((n, color))
    ensures ',' !in RenderItem((n, color)) && ';' !in RenderItem((n, color))
  {
    var digits, name := NatToString(n), ColorName(color);
    SplitOnJoin([digits, name], " ");
    assert Join([digits, name], " ") == digits + " " + name;
    ParseNatToString(n);
    assert ' ' !in digits && ',' !in digits && ';' !in digits by {
      forall i | 0 <= i < |digits| ensures IsDigit(digits[i]) {}
    }
  }

  /** Rendered items parse back, in order, to the counts they set. */
  lemma {:induction false} ItemsToCubesRendered(items: seq<(nat, Color)>)
    ensures ItemsToCubes(RenderItems(items)) == Ok(ApplyItems(items))
  {
    if |items| > 0 {
      var n := |items| - 1;
      ItemsToCubesRendered(items[..n]);
      ParseItemRendered(items[n].0, items[n].1);
      assert RenderItems(items)[..n] == RenderItems(items[..n]);
    }
  }

  /** A set written as any non-empty list of items parses to the counts they
      set: colours in any order, colours left out at 0, a repeated colour at
      its last quantity. */
  lemma ParseSetItemsRendered(items: seq<(nat, Color)>)
    requires |items| > 0
    ensures ParseSetText(RenderSetItems(items)) == Ok(ApplyItems(items))
    ensures ';' !in RenderSetItems(items)
  {
    var parts := RenderItems(items);
    forall i | 0 <= i < |parts| ensures ',' !in parts[i] && ';' !in parts[i] {
      ParseItemRendered(items[i].0, items[i].1);
    }
    SplitOnJoin(parts, ", ");
    ItemsToCubesRendered(items);
    JoinAvoids(parts, ", ", ';');
  }

  lemma ParseSetRendered(c: Cubes)
    ensures ParseSetText(RenderSet(c)) == Ok(c)
    ensures ';' !in RenderSet(c)
  {
    var items := [(c.red, Red), (c.green, Green), (c.blue, Blue)];
    ParseSetItemsRendered(items);
    assert items[..2] == [(c.red, Red), (c.green, Green)] && items[..2][..1] == [(c.red, Red)];
    assert ApplyItems(items[..2][..1]) == Cubes(c.red, 0, 0);
    assert ApplyItems(items) == c;
  }

  /** Set texts that parse, joined with "; ", parse to those sets. */
  lemma ParseSetsJoined(texts: seq<string>, sets: seq<Cubes>)
    requires |texts| == |sets| > 0
    requires forall i :: 0 <= i < |texts| ==> ';' !in texts[i] && ParseSetText(texts[i]) == Ok(sets[i])
    ensures ParseSets(Join(texts, "; ")) == Ok(Game(sets))
  {
    SplitOnJoin(texts, "; ");
    var r := ParseSets(Join(texts, "; "));
    assert r.Ok?;
    assert r.value.sets == sets;
  }

  /** A line "Game <id>: " followed by set texts that parse reads as those
      sets. */
  lemma ParseLineJoined(id: nat, texts: seq<string>, sets: seq<Cubes>)
    requires |texts| == |sets| > 0
    requires forall i :: 0 <= i < |texts| ==> ';' !in texts[i] && ParseSetText(texts[i]) == Ok(sets[i])
    ensures ParseLine(RenderLine(id, texts)) == Ok(Game(sets))
  {
    var digits := NatToString(id);
    var head := "Game " + digits;
    assert ':' !in head by {
      forall i | 0 <= i < |digits| ensures IsDigit(digits[i]) {}
      assert forall i :: 0 <= i < |head| ==> head[i] == ("Game " + digits)[i];
    }
    assert RenderLine(id, texts) == head + ": " + Join(texts, "; ");
    ParseLineBody(RenderLine(id, texts), head, Join(texts, "; "));
    ParseSetsJoined(texts, sets);
  }

  /** Parsing a rendered game line gives the game back; a game needs at least
      one set, since an empty list of sets renders as one empty set. */
  lemma ParseLineRendered(id: nat, g: Game)
    requires |g.sets| > 0
    ensures ParseLine(RenderLine(id, RenderSets(g.sets))) == Ok(g)
  {
    var texts := RenderSets(g.sets);
    forall i | 0 <= i < |texts| ensures ';' !in texts[i] && ParseSetText(texts[i]) == Ok(g.sets[i]) {
      ParseSetRendered(g.sets[i]);
    }
    ParseLineJoined(id, texts, g.sets);
  }

  // ---------------------------------------------------------------------------
  // The parsing examples of src/day2.rs:114-141

  /** The decimal texts of the quantities in the examples. */
  lemma QuantityTexts()
    ensures NatToString(1) == "1" && NatToString(2) == "2" && NatToString(3) == "3"
    ensures NatToString(4) == "4" && NatToString(5) == "5" && NatToString(6) == "6"
    ensures NatToString(8) == "8"
    ensures NatToString(13) == "13" && NatToString(14) == "14"
    ensures NatToString(15) == "15" && NatToString(20) == "20"
  {
    assert NatToString(1) == "1" && NatToString(2) == "2";
    assert NatToString(13) == NatToString(1) + [DigitChar(3)];
    assert NatToString(14) == NatToString(1) + [DigitChar(4)];
    assert NatToString(15) == NatToString(1) + [DigitChar(5)];
    assert NatToString(20) == NatToString(2) + [DigitChar(0)];
  }

  lemma ApplyOne(a: (nat, Color))
    ensures ApplyItems([a]) == Apply(Cubes(0, 0, 0), a.0, a.1)
  {
    assert [a][..0] == [];
  }

  lemma ApplyTwo(a: (nat, Color), b: (nat, Color))
    ensures ApplyItems([a, b]) == Apply(Apply(Cubes(0, 0, 0), a.0, a.1), b.0, b.1)
  {
    assert [a, b][..1] == [a];
    ApplyOne(a);
  }

  lemma ApplyThree(a: (nat, Color), b: (nat, Color), d: (nat, Color))
    ensures ApplyItems([a, b, d]) == Apply(Apply(Apply(Cubes(0, 0, 0), a.0, a.1), b.0, b.1), d.0, d.1)
  {
    assert [a, b, d][..2] == [a, b];
    ApplyTwo(a, b);
  }

  /** A game line of two sets that parse. */
  lemma LineOfTwo(id: nat, a: string, b: string, ca: Cubes, cb: Cubes)
    requires ';' !in a && ParseSetText(a) == Ok(ca)
    requires ';' !in b && ParseSetText(b) == Ok(cb)
    ensures ParseLine("Game " + NatToString(id) + ": " + (a + "; " + b)) == Ok(Game([ca, cb]))
  {
    JoinTwo(a, b, "; ");
    ParseLineJoined(id, [a, b], [ca, cb]);
  }

  /** A game line of three sets that parse. */
  lemma LineOfThree(id: nat, a: string, b: string, d: string, ca: Cubes, cb: Cubes, cd: Cubes)
    requires ';' !in a && ParseSetText(a) == Ok(ca)
    requires ';' !in b && ParseSetText(b) == Ok(cb)
    requires ';' !in d && ParseSetText(d) == Ok(cd)
    ensures ParseLine("Game " + NatToString(id) + ": " + (a + "; " + b + "; " + d)) == Ok(Game([ca, cb, cd]))
  {
    JoinThree(a, b, d, "; ");
    ParseLineJoined(id, [a, b, d], [ca, cb, cd]);
  }

  /** The items written out as `words`, joined with ", ", parse to `c`. */
  lemma SetWords(items: seq<(nat, Color)>, words: seq<string>, c: Cubes)
    requires |items| == |words| > 0 && ApplyItems(items) == c
    requires forall i :: 0 <= i < |items| ==> words[i] == RenderItem(items[i])
    ensures ';' !in Join(words, ", ") && ParseSetText(Join(words, ", ")) == Ok(c)
  {
    assert RenderItems(items) == words;
    ParseSetItemsRendered(items);
  }

  /** "3 blue, 4 red" sets Cubes(4, 0, 3). */
  lemma Example1Set1()
    ensures ';' !in ("3 blue" + ", " + "4 red") && ParseSetText(("3 blue" + ", " + "4 red")) == Ok(Cubes(4, 0, 3))
  {
    QuantityTexts();
    ApplyTwo((3, Blue), (4, Red));
    SetWords([(3, Blue), (4, Red)], ["3 blue", "4 red"], Cubes(4, 0, 3));
    JoinTwo("3 blue", "4 red", ", ");
  }

  /** "1 red, 2 green, 6 blue" sets Cubes(1, 2, 6). */
  lemma Example1Set2()
    ensures ';' !in ("1 red" + ", " + "2 green" + ", " + "6 blue") && ParseSetText(("1 red" + ", " + "2 green" + ", " + "6 blue")) == Ok(Cubes(1, 2, 6))
  {
    QuantityTexts();
    ApplyThree((1, Red), (2, Green), (6, Blue));
    SetWords([(1, Red), (2, Green), (6, Blue)], ["1 red", "2 green", "6 blue"], Cubes(1, 2, 6));
    JoinThree("1 red", "2 green", "6 blue", ", ");
  }

  /** "2 green" sets Cubes(0, 2, 0). */
  lemma Example1Set3()
    ensures ';' !in "2 green" && ParseSetText("2 green") == Ok(Cubes(0, 2, 0))
  {
    QuantityTexts();
    ApplyOne((2, Green));
    SetWords([(2, Green)], ["2 green"], Cubes(0, 2, 0));
    assert Join(["2 green"], ", ") == "2 green";
  }

  /** The parsing example "Game 1: 3 blue, 4 red; 1 red, 2 green, 6 blue; 2 green" (src/day2.rs:114-141). */
  lemma ParseLineExample1()
    ensures ParseLine("Game " + "1" + ": " + (("3 blue" + ", " + "4 red") + "; " + ("1 red" + ", " + "2 green" + ", " + "6 blue") + "; " + "2 green"))
         == Ok(Game([Cubes(4, 0, 3), Cubes(1, 2, 6), Cubes(0, 2, 0)]))
  {
    Example1Set1();
    Example1Set2();
    Example1Set3();
    LineOfThree(1, ("3 blue" + ", " + "4 red"), ("1 red" + ", " + "2 green" + ", " + "6 blue"), "2 green", Cubes(4, 0, 3), Cubes(1, 2, 6), Cubes(0, 2, 0));
    QuantityTexts();
  }

  /** "1 blue, 2 green" sets Cubes(0, 2, 1). */
  lemma Example2Set1()
    ensures ';' !in ("1 blue" + ", " + "2 green") && ParseSetText(("1 blue" + ", " + "2 green")) == Ok(Cubes(0, 2, 1))
  {
    QuantityTexts();
    ApplyTwo((1, Blue), (2, Green));
    SetWords([(1, Blue), (2, Green)], ["1 blue", "2 green"], Cubes(0, 2, 1));
    JoinTwo("1 blue", "2 green", ", ");
  }

  /** "3 green, 4 blue, 1 red" sets Cubes(1, 3, 4). */
  lemma Example2Set2()
    ensures ';' !in ("3 green" + ", " + "4 blue" + ", " + "1 red") && ParseSetText(("3 green" + ", " + "4 blue" + ", " + "1 red")) == Ok(Cubes(1, 3, 4))
  {
    QuantityTexts();
    ApplyThree((3, Green), (4, Blue), (1, Red));
    SetWords([(3, Green), (4, Blue), (1, Red)], ["3 green", "4 blue", "1 red"], Cubes(1, 3, 4));
    JoinThree("3 green", "4 blue", "1 red", ", ");
  }

  /** "1 green, 1 blue" sets Cubes(0, 1, 1). */
  lemma Example2Set3()
    ensures ';' !in ("1 green" + ", " + "1 blue") && ParseSetText(("1 green" + ", " + "1 blue")) == Ok(Cubes(0, 1, 1))
  {
    QuantityTexts();
    ApplyTwo((1, Green), (1, Blue));
    SetWords([(1, Green), (1, Blue)], ["1 green", "1 blue"], Cubes(0, 1, 1));
    JoinTwo("1 green", "1 blue", ", ");
  }

  /** The parsing example "Game 2: 1 blue, 2 green; 3 green, 4 blue, 1 red; 1 green, 1 blue" (src/day2.rs:114-141). */
  lemma ParseLineExample2()
    ensures ParseLine("Game " + "2" + ": " + (("1 blue" + ", " + "2 green") + "; " + ("3 green" + ", " + "4 blue" + ", " + "1 red") + "; " + ("1 green" + ", " + "1 blue")))
         == Ok(Game([Cubes(0, 2, 1), Cubes(1, 3, 4), Cubes(0, 1, 1)]))
  {
    Example2Set1();
    Example2Set2();
    Example2Set3();
    LineOfThree(2, ("1 blue" + ", " + "2 green"), ("3 green" + ", " + "4 blue" + ", " + "1 red"), ("1 green" + ", " + "1 blue"), Cubes(0, 2, 1), Cubes(1, 3, 4), Cubes(0, 1, 1));
    QuantityTexts();
  }

  /** "8 green, 6 blue, 20 red" sets Cubes(20, 8, 6). */
  lemma Example3Set1()
    ensures ';' !in ("8 green" + ", " + "6 blue" + ", " + "20 red") && ParseSetText(("8 green" + ", " + "6 blue" + ", " + "20 red")) == Ok(Cubes(20, 8, 6))
  {
    QuantityTexts();
    ApplyThree((8, Green), (6, Blue), (20, Red));
    SetWords([(8, Green), (6, Blue), (20, Red)], ["8 green", "6 blue", "20 red"], Cubes(20, 8, 6));
    JoinThree("8 green", "6 blue", "20 red", ", ");
  }

  /** "5 blue, 4 red, 13 green" sets Cubes(4, 13, 5). */
  lemma Example3Set2()
    ensures ';' !in ("5 blue" + ", " + "4 red" + ", " + "13 green") && ParseSetText(("5 blue" + ", " + "4 red" + ", " + "13 green")) == Ok(Cubes(4, 13, 5))
  {
    QuantityTexts();
    ApplyThree((5, Blue), (4, Red), (13, Green));
    SetWords([(5, Blue), (4, Red), (13, Green)], ["5 blue", "4 red", "13 green"], Cubes(4, 13, 5));
    JoinThree("5 blue", "4 red", "13 green", ", ");
  }

  /** "5 green, 1 red" sets Cubes(1, 5, 0). */
  lemma Example3Set3()
    ensures ';' !in ("5 green" + ", " + "1 red") && ParseSetText(("5 green" + ", " + "1 red")) == Ok(Cubes(1, 5, 0))
  {
    QuantityTexts();
    ApplyTwo((5, Green), (1, Red));
    SetWords([(5, Green), (1, Red)], ["5 green", "1 red"], Cubes(1, 5, 0));
    JoinTwo("5 green", "1 red", ", ");
  }

  /** The parsing example "Game 3: 8 green, 6 blue, 20 red; 5 blue, 4 red, 13 green; 5 green, 1 red" (src/day2.rs:114-141). */
  lemma ParseLineExample3()
    ensures ParseLine("Game " + "3" + ": " + (("8 green" + ", " + "6 blue" + ", " + "20 red") + "; " + ("5 blue" + ", " + "4 red" + ", " + "13 green") + "; " + ("5 green" + ", " + "1 red")))
         == Ok(Game([Cubes(20, 8, 6), Cubes(4, 13, 5), Cubes(1, 5, 0)]))
  {
    Example3Set1();
    Example3Set2();
    Example3Set3();
    LineOfThree(3, ("8 green" + ", " + "6 blue" + ", " + "20 red"), ("5 blue" + ", " + "4 red" + ", " + "13 green"), ("5 green" + ", " + "1 red"), Cubes(20, 8, 6), Cubes(4, 13, 5), Cubes(1, 5, 0));
    QuantityTexts();
  }

  /** "1 green, 3 red, 6 blue" sets Cubes(3, 1, 6). */
  lemma Example4Set1()
    ensures ';' !in ("1 green" + ", " + "3 red" + ", " + "6 blue") && ParseSetText(("1 green" + ", " + "3 red" + ", " + "6 blue")) == Ok(Cubes(3, 1, 6))
  {
    QuantityTexts();
    ApplyThree((1, Green), (3, Red), (6, Blue));
    SetWords([(1, Green), (3, Red), (6, Blue)], ["1 green", "3 red", "6 blue"], Cubes(3, 1, 6));
    JoinThree("1 green", "3 red", "6 blue", ", ");
  }

  /** "3 green, 6 red" sets Cubes(6, 3, 0). */
  lemma Example4Set2()
    ensures ';' !in ("3 green" + ", " + "6 red") && ParseSetText(("3 green" + ", " + "6 red")) == Ok(Cubes(6, 3, 0))
  {
    QuantityTexts();
    ApplyTwo((3, Green), (6, Red));
    SetWords([(3, Green), (6, Red)], ["3 green", "6 red"], Cubes(6, 3, 0));
    JoinTwo("3 green", "6 red", ", ");
  }

  /** "3 green, 15 blue, 14 red" sets Cubes(14, 3, 15). */
  lemma Example4Set3()
    ensures ';' !in ("3 green" + ", " + "15 blue" + ", " + "14 red") && ParseSetText(("3 green" + ", " + "15 blue" + ", " + "14 red")) == Ok(Cubes(14, 3, 15))
  {
    QuantityTexts();
    ApplyThree((3, Green), (15, Blue), (14, Red));
    SetWords([(3, Green), (15, Blue), (14, Red)], ["3 green", "15 blue", "14 red"], Cubes(14, 3, 15));
    JoinThree("3 green", "15 blue", "14 red", ", ");
  }

  /** The parsing example "Game 4: 1 green, 3 red, 6 blue; 3 green, 6 red; 3 green, 15 blue, 14 red" (src/day2.rs:114-141). */
  lemma ParseLineExample4()
    ensures ParseLine("Game " + "4" + ": " + (("1 green" + ", " + "3 red" + ", " + "6 blue") + "; " + ("3 green" + ", " + "6 red") + "; " + ("3 green" + ", " + "15 blue" + ", " + "14 red")))
         == Ok(Game([Cubes(3, 1, 6), Cubes(6, 3, 0), Cubes(14, 3, 15)]))
  {
    Example4Set1();
    Example4Set2();
    Example4Set3();
    LineOfThree(4, ("1 green" + ", " + "3 red" + ", " + "6 blue"), ("3 green" + ", " + "6 red"), ("3 green" + ", " + "15 blue" + ", " + "14 red"), Cubes(3, 1, 6), Cubes(6, 3, 0), Cubes(14, 3, 15));
    QuantityTexts();
  }

  /** "6 red, 1 blue, 3 green" sets Cubes(6, 3, 1). */
  lemma Example5Set1()
    ensures ';' !in ("6 red" + ", " + "1 blue" + ", " + "3 green") && ParseSetText(("6 red" + ", " + "1 blue" + ", " + "3 green")) == Ok(Cubes(6, 3, 1))
  {
    QuantityTexts();
    ApplyThree((6, Red), (1, Blue), (3, Green));
    SetWords([(6, Red), (1, Blue), (3, Green)], ["6 red", "1 blue", "3 green"], Cubes(6, 3, 1));
    JoinThree("6 red", "1 blue", "3 green", ", ");
  }

  /** "2 blue, 1 red, 2 green" sets Cubes(1, 2, 2). */
  lemma Example5Set2()
    ensures ';' !in ("2 blue" + ", " + "1 red" + ", " + "2 green") && ParseSetText(("2 blue" + ", " + "1 red" + ", " + "2 green")) == Ok(Cubes(1, 2, 2))
  {
    QuantityTexts();
    ApplyThree((2, Blue), (1, Red), (2, Green));
    SetWords([(2, Blue), (1, Red), (2, Green)], ["2 blue", "1 red", "2 green"], Cubes(1, 2, 2));
    JoinThree("2 blue", "1 red", "2 green", ", ");
  }

  /** The parsing example "Game 5: 6 red, 1 blue, 3 green; 2 blue, 1 red, 2 green" (src/day2.rs:114-141). */
  lemma ParseLineExample5()
    ensures ParseLine("Game " + "5" + ": " + (("6 red" + ", " + "1 blue" + ", " + "3 green") + "; " + ("2 blue" + ", " + "1 red" + ", " + "2 green")))
         == Ok(Game([Cubes(6, 3, 1), Cubes(1, 2, 2)]))
  {
    Example5Set1();
    Example5Set2();
    LineOfTwo(5, ("6 red" + ", " + "1 blue" + ", " + "3 green"), ("2 blue" + ", " + "1 red" + ", " + "2 green"), Cubes(6, 3, 1), Cubes(1, 2, 2));
    QuantityTexts();
  }

  // ---------------------------------------------------------------------------
  // Part 1

  /** Sum of the 1-based indices of the possible games. */
  function PossibleIdSum(games: seq<Game>): nat
  {
    if |games| == 0 then 0
    else PossibleIdSum(games[..|games| - 1]) + (if IsPossible(games[|games| - 1]) then |games| else 0)
  }

  /** The id-summing loop of `part1` (src/day2.rs:9-14). */
  method SumPossibleIds(games: seq<Game>) returns (result: nat)
    ensures result == PossibleIdSum(games)
    ensures result <= |games| * (|games| + 1) / 2
  {
    result := 0;
    for i := 0 to |games|
      invariant result == PossibleIdSum(games[..i])
    {
      assert games[..i + 1][..i] == games[..i];
      if IsPossible(games[i]) {
        var gameId: nat := i + 1;
        result := result + gameId;
      }
    }
    assert games[..|games|] == games;
    PossibleIdSumBound(games);
  }

  /** The ids summed are distinct numbers from 1 to n. */
  lemma {:induction false} PossibleIdSumBound(games: seq<Game>)
    ensures PossibleIdSum(games) <= |games| * (|games| + 1) / 2
  {
    if |games| > 0 {
      var n := |games|;
      var init := games[..n - 1];
      PossibleIdSumBound(init);
      assert PossibleIdSum(games) <= PossibleIdSum(init) + n;
      TriangleStep(n);
    }
  }

  lemma TriangleStep(n: nat)
    requires n > 0
    ensures (n - 1) * n / 2 + n == n * (n + 1) / 2
  {
    assert (n - 1) * n + 2 * n == n * (n + 1);
  }

  /** When every game is possible the sum is 1 + 2 + ... + n. */
  lemma {:induction false} AllPossibleSum(games: seq<Game>)
    requires forall i :: 0 <= i < |games| ==> IsPossible(games[i])
    ensures PossibleIdSum(games) == |games| * (|games| + 1) / 2
  {
    if |games| > 0 {
      var init := games[..|games| - 1];
      assert forall i :: 0 <= i < |init| ==> init[i] == games[i];
      AllPossibleSum(init);
    }
  }
}
