/** Day 6: boat races. Holding the button for `p` of the race's `d`
    milliseconds gives speed `p` for the remaining `d - p`, and the hold wins
    when the distance beats the record. Part 1 multiplies the numbers of
    winning holds over the races of the two lines; part 2 reads each line as a
    single number with its spaces removed. */
module Day6 {
  import opened Results
  import opened Text

  datatype Race = Race(duration: nat, bestDistance: nat)

  const NoColon := "a line has no ':'"
  const NotTwoLines := "the input is not exactly two lines"

  // ---------------------------------------------------------------------------
  // Winning holds

  /** `leads_to_win`: the hold time must lie strictly inside the race. Holding
      for `p` and holding for `d - p` cover the same distance, so the two
      win or lose together. */
  predicate LeadsToWin(p: nat, race: Race): (b: bool)
    requires 0 < p < race.duration
    ensures b <==> (race.duration - p) * (race.duration - (race.duration - p)) > race.bestDistance
  {
    assert (race.duration - p) * (race.duration - (race.duration - p)) == p * (race.duration - p);
    p * (race.duration - p) > race.bestDistance
  }

  /** The winning hold times of a race. */
  ghost function WinningHolds(race: Race): set<nat> {
    set p: nat | 0 < p < race.duration && LeadsToWin(p, race)
  }

  /** The winning hold times among 1 .. hi - 1. */
  function CountWins(race: Race, hi: nat): (n: nat)
    requires hi <= race.duration
    ensures n <= hi
    ensures hi <= 1 ==> n == 0
    ensures hi >= 1 ==> n <= hi - 1
  {
    if hi <= 1 then 0
    else CountWins(race, hi - 1) + (if LeadsToWin(hi - 1, race) then 1 else 0)
  }

  /** `win_possibilities`: the number of hold times 1 .. d - 1 that win. */
  function WinPossibilities(race: Race): (n: nat)
    ensures race.duration <= 1 ==> n == 0
    ensures race.duration >= 1 ==> n <= race.duration - 1
  {
    CountWins(race, race.duration)
  }

  lemma {:induction false} CountWinsIsSetSize(race: Race, hi: nat)
    requires hi <= race.duration
    ensures CountWins(race, hi) == |set p: nat | 0 < p < hi && LeadsToWin(p, race)|
  {
    var below := set p: nat | 0 < p < hi && LeadsToWin(p, race);
    if hi <= 1 {
      assert below == {};
    } else {
      CountWinsIsSetSize(race, hi - 1);
      var fewer := set p: nat | 0 < p < hi - 1 && LeadsToWin(p, race);
      if LeadsToWin(hi - 1, race) {
        assert below == fewer + {hi - 1};
      } else {
        assert below == fewer;
      }
    }
  }

  /** The count is the number of winning hold times. */
  lemma WinPossibilitiesIsSetSize(race: Race)
    ensures WinPossibilities(race) == |WinningHolds(race)|
  {
    CountWinsIsSetSize(race, race.duration);
    assert WinningHolds(race) == set p: nat | 0 < p < race.duration && LeadsToWin(p, race);
  }

  /** Holding `p` wins exactly when holding `d - p` does. */
  lemma WinsSymmetric(race: Race, p: nat)
    requires 0 < p < race.duration
    ensures LeadsToWin(p, race) <==> LeadsToWin(race.duration - p, race)
  {
    var d := race.duration;
    assert (d - p) * (d - (d - p)) == p * (d - p);
  }

  /** A hold time between two winning ones wins too. */
  lemma WinsBetween(race: Race, p: nat, q: nat, r: nat)
    requires 0 < p < q < r < race.duration
    ensures LeadsToWin(p, race) && LeadsToWin(r, race) ==> LeadsToWin(q, race)
  {
    var d: int := race.duration;
    var p: int, q: int, r: int := p, q, r;
    if p + q <= d {
      assert q * (d - q) - p * (d - p) == (q - p) * (d - q - p);
      assert (q - p) * (d - q - p) >= 0;
    } else {
      assert q * (d - q) - r * (d - r) == (r - q) * (q + r - d);
      assert (r - q) * (q + r - d) >= 0;
    }
  }

  /** With `lo` the least winning hold time, the winning ones are exactly
      lo .. d - lo. */
  lemma WinsInterval(race: Race, lo: nat, p: nat)
    requires 0 < lo && 2 * lo <= race.duration
    requires LeadsToWin(lo, race)
    requires forall q :: 0 < q < lo ==> !LeadsToWin(q, race)
    requires 0 < p < race.duration
    ensures LeadsToWin(p, race) <==> lo <= p <= race.duration - lo
  {
    var d := race.duration;
    WinsSymmetric(race, lo);
    if lo < p < d - lo {
      WinsBetween(race, lo, p, d - lo);
    }
    if p > d - lo {
      WinsSymmetric(race, p);
    }
  }

  /** A winning `lo` in the first half whose predecessor loses is the least
      winning hold time. */
  lemma WinsFromLeast(race: Race, lo: nat)
    requires 1 < lo && 2 * lo <= race.duration
    requires LeadsToWin(lo, race) && !LeadsToWin(lo - 1, race)
    ensures forall q :: 0 < q < lo ==> !LeadsToWin(q, race)
  {
    WinsSymmetric(race, lo);
    forall q | 0 < q < lo - 1 ensures !LeadsToWin(q, race) {
      WinsBetween(race, q, lo - 1, race.duration - lo);
    }
  }

  lemma {:induction false} CountWinsInterval(race: Race, lo: nat, hi: nat)
    requires 0 < lo && 2 * lo <= race.duration
    requires LeadsToWin(lo, race)
    requires forall q :: 0 < q < lo ==> !LeadsToWin(q, race)
    requires hi <= race.duration
    ensures CountWins(race, hi) == if hi <= lo then 0 else Min(hi - 1, race.duration - lo) - lo + 1
  {
    if hi > 1 {
      CountWinsInterval(race, lo, hi - 1);
      WinsInterval(race, lo, hi - 1);
    }
  }

  /** Closed form: with `lo` the least winning hold time, there are
      d - 2 lo + 1 winning ones. */
  lemma WinPossibilitiesClosedForm(race: Race, lo: nat)
    requires 0 < lo && 2 * lo <= race.duration
    requires LeadsToWin(lo, race)
    requires forall q :: 0 < q < lo ==> !LeadsToWin(q, race)
    ensures WinPossibilities(race) == race.duration - 2 * lo + 1
  {
    CountWinsInterval(race, lo, race.duration);
  }

  // ---------------------------------------------------------------------------
  // Part 1

  /** `r` holds one number per word, and is an error exactly when some word
      is not a number. */
  predicate NumbersOf(ws: seq<string>, r: Result<seq<nat>>) {
    && (r.Ok? <==> forall k :: 0 <= k < |ws| ==> ParseNat(ws[k]).Ok?)
    && (r.Ok? ==> |r.value| == |ws| && forall k :: 0 <= k < |ws| ==> r.value[k] == ParseNat(ws[k]).value)
  }

  lemma ParseNatsNumbers(ws: seq<string>)
    ensures NumbersOf(ws, ParseNats(ws))
  {
  }

  /** `part1_parse_line`: the numbers after the first ':', trimmed and split
      at ASCII whitespace. */
  function ParseLine1(s: string): (r: Result<seq<nat>>)
    ensures r.Ok? ==> ':' in s
    ensures Find(s, ':').Some? ==> NumbersOf(Words(Trim(s[Find(s, ':').value + 1..])), r)
  {
    match Find(s, ':')
    case None => Err(NoColon)
    case Some(i) =>
      var ws := Words(Trim(s[i + 1..]));
      ParseNatsNumbers(ws);
      ParseNats(ws)
  }

  function ParseLines1(lines: seq<string>): (r: Result<seq<seq<nat>>>)
    ensures r.Ok? <==> forall i :: 0 <= i < |lines| ==> ParseLine1(lines[i]).Ok?
    ensures r.Ok? ==> |r.value| == |lines|
    ensures r.Ok? ==> forall i :: 0 <= i < |lines| ==> r.value[i] == ParseLine1(lines[i]).value
  {
    Collect(ParseLine1, lines)
  }

  /** `zip`: the races paired position by position, as many as the shorter
      line has numbers. */
  function Races(durations: seq<nat>, distances: seq<nat>): (rs: seq<Race>)
    ensures |rs| == Min(|durations|, |distances|)
    ensures forall i :: 0 <= i < |rs| ==> rs[i] == Race(durations[i], distances[i])
  {
    if |durations| == 0 || |distances| == 0 then []
    else [Race(durations[0], distances[0])] + Races(durations[1..], distances[1..])
  }

  function Product(ns: seq<nat>): nat {
    if |ns| == 0 then 1 else ns[0] * Product(ns[1..])
  }

  lemma {:induction false} ProductZero(ns: seq<nat>)
    ensures Product(ns) == 0 <==> exists i :: 0 <= i < |ns| && ns[i] == 0
  {
    if |ns| > 0 {
      ProductZero(ns[1..]);
      assert forall i :: 1 <= i < |ns| ==> ns[1..][i - 1] == ns[i];
      if ns[0] != 0 && Product(ns[1..]) != 0 {
        assert ns[0] * Product(ns[1..]) != 0;
      }
    }
  }

  function WinCounts(races: seq<Race>): (ws: seq<nat>)
    ensures |ws| == |races|
    ensures forall i :: 0 <= i < |races| ==> ws[i] == WinPossibilities(races[i])
  {
    seq(|races|, i requires 0 <= i < |races| => WinPossibilities(races[i]))
  }

  /** `part1_result`: the product of the win counts of the races; an error
      unless both lines parse and there are exactly two. */
  function Part1(lines: seq<string>): (r: Result<nat>)
    ensures r.Ok? <==> |lines| == 2 && ParseLine1(lines[0]).Ok? && ParseLine1(lines[1]).Ok?
  {
    CollectTwo(ParseLine1, lines);
    var rows :- ParseLines1(lines);
    if |rows| != 2 then Err(NotTwoLines)
    else Ok(Product(WinCounts(Races(rows[0], rows[1]))))
  }

  /** Part 1 is zero exactly when some paired race cannot be won. */
  lemma Part1Zero(lines: seq<string>)
    requires Part1(lines).Ok?
    ensures Part1(lines).value == 0 <==>
      exists i :: 0 <= i < Min(|ParseLine1(lines[0]).value|, |ParseLine1(lines[1]).value|) &&
        WinningHolds(Race(ParseLine1(lines[0]).value[i], ParseLine1(lines[1]).value[i])) == {}
  {
    var rows := ParseLines1(lines).value;
    var races := Races(rows[0], rows[1]);
    ProductZero(WinCounts(races));
    forall i | 0 <= i < |races| ensures WinCounts(races)[i] == 0 <==> WinningHolds(races[i]) == {} {
      WinPossibilitiesIsSetSize(races[i]);
    }
  }

  // ---------------------------------------------------------------------------
  // Part 2

  /** `part2_parse_line`: the text after the first ':', trimmed, with every
      ASCII whitespace character removed, read as one number. */
  function ParseLine2(s: string): (r: Result<nat>)
    ensures r.Ok? ==> ':' in s
    ensures Find(s, ':').Some? ==> r == ParseNat(Concat(Words(Trim(s[Find(s, ':').value + 1..]))))
  {
    match Find(s, ':')
    case None => Err(NoColon)
    case Some(i) =>
      WordsConcat(Trim(s[i + 1..]));
      ParseNat(RemoveWhitespace(Trim(s[i + 1..])))
  }

  function ParseLines2(lines: seq<string>): (r: Result<seq<nat>>)
    ensures r.Ok? <==> forall i :: 0 <= i < |lines| ==> ParseLine2(lines[i]).Ok?
    ensures r.Ok? ==> |r.value| == |lines|
    ensures r.Ok? ==> forall i :: 0 <= i < |lines| ==> r.value[i] == ParseLine2(lines[i]).value
  {
    Collect(ParseLine2, lines)
  }

  /** `part2_result`: the win count of the one race the two lines describe. */
  function Part2(lines: seq<string>): (r: Result<nat>)
    ensures r.Ok? <==> |lines| == 2 && ParseLine2(lines[0]).Ok? && ParseLine2(lines[1]).Ok?
    ensures r.Ok? ==> r.value == |WinningHolds(Race(ParseLine2(lines[0]).value, ParseLine2(lines[1]).value))|
  {
    CollectTwo(ParseLine2, lines);
    var numbers :- ParseLines2(lines);
    if |numbers| != 2 then Err(NotTwoLines)
    else
      WinPossibilitiesIsSetSize(Race(numbers[0], numbers[1]));
      Ok(WinPossibilities(Race(numbers[0], numbers[1])))
  }

  // ---------------------------------------------------------------------------
  // The example of the puzzle

  lemma SampleRaces()
    ensures WinPossibilities(Race(7, 9)) == 4
    ensures WinPossibilities(Race(15, 40)) == 8
    ensures WinPossibilities(Race(30, 200)) == 9
    ensures WinPossibilities(Race(71530, 940200)) == 71503
  {
    WinsFromLeast(Race(7, 9), 2);
    WinPossibilitiesClosedForm(Race(7, 9), 2);
    WinsFromLeast(Race(15, 40), 4);
    WinPossibilitiesClosedForm(Race(15, 40), 4);
    WinsFromLeast(Race(30, 200), 11);
    WinPossibilitiesClosedForm(Race(30, 200), 11);
    WinsFromLeast(Race(71530, 940200), 14);
    WinPossibilitiesClosedForm(Race(71530, 940200), 14);
  }

  /** One word after a run of spaces, before text that starts with
      whitespace and holds the words `tail`. */
  lemma WordBefore(k: nat, w: string, t: string, tail: seq<string>)
    requires |w| > 0 && NoWhitespace(w)
    requires (|t| == 0 || IsWhitespace(t[0])) && Words(t) == tail
    ensures Words(Spaces(k) + w + t) == [w] + tail
    ensures k > 0 ==> (Spaces(k) + w + t)[0] == ' '
  {
    WordsAfterSpaces(k, w, t);
  }

  /** Words `ws`, each after a run of `ks` spaces, as the example lays out
      its columns. */
  function Spaced(ks: seq<nat>, ws: seq<string>): string
    requires |ks| == |ws|
  {
    if |ws| == 0 then [] else Spaces(ks[0]) + ws[0] + Spaced(ks[1..], ws[1..])
  }

  /** Words separated by runs of spaces are read back one by one. */
  lemma {:induction false} WordsSpaced(ks: seq<nat>, ws: seq<string>)
    requires |ks| == |ws| && forall i :: 0 < i < |ks| ==> ks[i] > 0
    requires forall i :: 0 <= i < |ws| ==> |ws[i]| > 0 && NoWhitespace(ws[i])
    ensures Words(Spaced(ks, ws)) == ws
    ensures |ws| > 0 && ks[0] > 0 ==> Spaced(ks, ws)[0] == ' '
  {
    if |ws| > 0 {
      var rest := Spaced(ks[1..], ws[1..]);
      WordsSpaced(ks[1..], ws[1..]);
      if |ws| > 1 {
        assert ks[1..][0] == ks[1];
      }
      WordBefore(ks[0], ws[0], rest, ws[1..]);
      assert ws == [ws[0]] + ws[1..];
    }
  }

  /** Digits separated by runs of spaces hold no whitespace but spaces. */
  lemma {:induction false} SpacedAscii(ks: seq<nat>, ws: seq<string>)
    requires |ks| == |ws| && forall i :: 0 <= i < |ws| ==> AllDigits(ws[i])
    ensures AsciiWhitespaceOnly(Spaced(ks, ws))
  {
    if |ws| > 0 {
      SpacedAscii(ks[1..], ws[1..]);
      AsciiWhitespaceOnlyAppend(Spaces(ks[0]), ws[0]);
      AsciiWhitespaceOnlyAppend(Spaces(ks[0]) + ws[0], Spaced(ks[1..], ws[1..]));
    }
  }

  /** The numbers of the example's time line and the spaces before each. */
  lemma SampleTimeText()
    ensures "      7  15   30" == Spaced([6, 2, 3], ["7", "15", "30"])
  {
    var ks, ws := [6, 2, 3], ["7", "15", "30"];
    assert Spaces(2) == "  " && Spaces(3) == "   " && Spaces(6) == "      ";
    assert ks[1..] == [2, 3] && ws[1..] == ["15", "30"];
    assert ks[2..] == [3] && ws[2..] == ["30"];
    assert ks[3..] == [] && ws[3..] == [];
  }

  /** The numbers of the example's distance line and the spaces before each. */
  lemma SampleDistanceText()
    ensures "  9  40  200" == Spaced([2, 2, 2], ["9", "40", "200"])
  {
    var ks, ws := [2, 2, 2], ["9", "40", "200"];
    assert Spaces(2) == "  ";
    assert ks[1..] == [2, 2] && ws[1..] == ["40", "200"];
    assert ks[2..] == [2] && ws[2..] == ["200"];
    assert ks[3..] == [] && ws[3..] == [];
  }

  /** Numbers after runs of spaces, the first run possibly empty, read back
      as their words, and hold no whitespace but spaces. */
  lemma SpacedNumbers(ks: seq<nat>, ws: seq<string>)
    requires |ks| == |ws| && forall i :: 0 < i < |ks| ==> ks[i] > 0
    requires forall i :: 0 <= i < |ws| ==> |ws[i]| > 0 && AllDigits(ws[i])
    ensures Words(Spaced(ks, ws)) == ws
    ensures AsciiWhitespaceOnly(Spaced(ks, ws))
  {
    WordsSpaced(ks, ws);
    SpacedAscii(ks, ws);
  }

  lemma SampleTimeWords()
    ensures Words("      7  15   30") == ["7", "15", "30"]
    ensures AsciiWhitespaceOnly("      7  15   30")
  {
    SampleTimeText();
    var ws := ["7", "15", "30"];
    forall i | 0 <= i < |ws| ensures |ws[i]| > 0 && AllDigits(ws[i]) {
      assert ws[i] == "7" || ws[i] == "15" || ws[i] == "30";
    }
    SpacedNumbers([6, 2, 3], ws);
  }

  lemma SampleDistanceWords()
    ensures Words("  9  40  200") == ["9", "40", "200"]
    ensures AsciiWhitespaceOnly("  9  40  200")
  {
    SampleDistanceText();
    var ws := ["9", "40", "200"];
    forall i | 0 <= i < |ws| ensures |ws[i]| > 0 && AllDigits(ws[i]) {
      assert ws[i] == "9" || ws[i] == "40" || ws[i] == "200";
    }
    SpacedNumbers([2, 2, 2], ws);
  }

  /** A line "<label>:<rest>" with no ':' in the label: part 1 reads the
      words of the rest, part 2 the same words run together. */
  lemma LabelledLine(name: string, rest: string)
    requires ':' !in name
    ensures ParseLine1(name + ":" + rest) == ParseNats(Words(Trim(rest)))
    ensures ParseLine2(name + ":" + rest) == ParseNat(Concat(Words(Trim(rest))))
  {
    var s := name + ":" + rest;
    assert s == name + [':'] + rest;
    FindAfter(name, ':', rest);
    assert s[|name| + 1..] == rest;
  }

  /** Three numbers parsed one by one, and their text run together. */
  lemma ParseThree(a: string, b: string, c: string, x: nat, y: nat, z: nat)
    requires ParseNat(a) == Ok(x) && ParseNat(b) == Ok(y) && ParseNat(c) == Ok(z)
    ensures ParseNats([a, b, c]) == Ok([x, y, z])
    ensures Concat([a, b, c]) == a + b + c
  {
    var r := ParseNats([a, b, c]);
    assert r.value == [x, y, z];
    assert [a, b, c][1..] == [b, c] && [b, c][1..] == [c] && [c][1..] == [];
    assert Concat([c]) == c + [] == c;
    assert Concat([b, c]) == b + c;
    assert a + (b + c) == a + b + c;
  }

  lemma SampleTimeNumbers()
    ensures ParseNats(["7", "15", "30"]) == Ok([7, 15, 30])
    ensures ParseNat(Concat(["7", "15", "30"])) == Ok(71530)
  {
    assert "7"[..0] == "";
    assert "15"[..1] == "1" && "1"[..0] == "";
    assert "30"[..1] == "3" && "3"[..0] == "";
    ParseThree("7", "15", "30", 7, 15, 30);
    assert "7" + "15" + "30" == "71530";
    Read71530();
  }

  lemma Read71530()
    ensures ParseNat("71530") == Ok(71530)
  {
    assert "71530"[..4] == "7153";
    assert "7153"[..3] == "715";
    assert "715"[..2] == "71";
    assert "71"[..1] == "7";
    assert "7"[..0] == "";
  }

  lemma Read940200()
    ensures ParseNat("940200") == Ok(940200)
  {
    assert "940200"[..5] == "94020";
    assert "94020"[..4] == "9402";
    assert "9402"[..3] == "940";
    assert "940"[..2] == "94";
    assert "94"[..1] == "9";
    assert "9"[..0] == "";
  }

  lemma SampleDistanceNumbers()
    ensures ParseNats(["9", "40", "200"]) == Ok([9, 40, 200])
    ensures ParseNat(Concat(["9", "40", "200"])) == Ok(940200)
  {
    assert "9"[..0] == "";
    assert "40"[..1] == "4" && "4"[..0] == "";
    assert "200"[..2] == "20" && "20"[..1] == "2" && "2"[..0] == "";
    ParseThree("9", "40", "200", 9, 40, 200);
    assert "9" + "40" + "200" == "940200";
    Read940200();
  }

  lemma SampleTime()
    ensures ParseLine1("Time:      7  15   30") == Ok([7, 15, 30])
    ensures ParseLine2("Time:      7  15   30") == Ok(71530)
  {
    assert "Time:      7  15   30" == "Time" + ":" + "      7  15   30";
    LabelledLine("Time", "      7  15   30");
    SampleTimeWords();
    WordsTrim("      7  15   30");
    SampleTimeNumbers();
  }

  lemma SampleDistance()
    ensures ParseLine1("Distance:  9  40  200") == Ok([9, 40, 200])
    ensures ParseLine2("Distance:  9  40  200") == Ok(940200)
  {
    assert "Distance:  9  40  200" == "Distance" + ":" + "  9  40  200";
    LabelledLine("Distance", "  9  40  200");
    SampleDistanceWords();
    WordsTrim("  9  40  200");
    SampleDistanceNumbers();
  }

  lemma Part1Of(lines: seq<string>, durations: seq<nat>, distances: seq<nat>)
    requires |lines| == 2 && ParseLine1(lines[0]) == Ok(durations) && ParseLine1(lines[1]) == Ok(distances)
    ensures Part1(lines) == Ok(Product(WinCounts(Races(durations, distances))))
  {
  }

  lemma Part2Of(lines: seq<string>, duration: nat, distance: nat)
    requires |lines| == 2 && ParseLine2(lines[0]) == Ok(duration) && ParseLine2(lines[1]) == Ok(distance)
    ensures Part2(lines) == Ok(WinPossibilities(Race(duration, distance)))
  {
  }

  /** The two lines of the example give 288 in part 1. */
  lemma SamplePart1()
    ensures Part1(["Time:      7  15   30", "Distance:  9  40  200"]) == Ok(288)
  {
    SampleTime();
    SampleDistance();
    Part1Of(["Time:      7  15   30", "Distance:  9  40  200"], [7, 15, 30], [9, 40, 200]);
    SampleProduct();
  }

  lemma SampleProduct()
    ensures Product(WinCounts(Races([7, 15, 30], [9, 40, 200]))) == 288
  {
    SampleRaces();
    var races := Races([7, 15, 30], [9, 40, 200]);
    assert races == [Race(7, 9), Race(15, 40), Race(30, 200)];
    assert WinCounts(races) == [4, 8, 9];
  }

  /** The two lines of the example give 71503 in part 2. */
  lemma SamplePart2()
    ensures Part2(["Time:      7  15   30", "Distance:  9  40  200"]) == Ok(71503)
  {
    SampleTime();
    SampleDistance();
    Part2Of(["Time:      7  15   30", "Distance:  9  40  200"], 71530, 940200);
    SampleRaces();
  }
}
