# Advent of Code 2023, days 1 to 8, in Dafny

This project models the puzzle solvers of a Rust Advent of Code 2023
repository and proves properties of them. Each solver turns the lines of a
puzzle input into a number. Each day file is one Dafny module:

- `Day1`: calibration values. The first and last digit of each line; part 2
  also reads spelled-out digits ("one" .. "nine"), overlapping ones included.
  The word matching is proved for any prefix-free word list, and the nine
  number words are shown to be one.
- `Day2`: the cube game. Parse the sets of a game, check it against the
  12/13/14 bag, take the colour-by-colour maximum and its power.
- `Day3`: the engine schematic. Scan the grid for maximal runs of digits and
  for '*' cells, test 8-neighbour adjacency, and sum the part numbers and the
  gear ratios.
- `Day4`: scratchcards. Count the matches, compute the doubling score, and
  spread the card copies over the array of counts.
- `Day5`: the almanac. Follow each seed through the chain of range maps from
  seed to location, take the lowest location over the seeds (part 1) or over
  the seed ranges (part 2), and parse the map blocks.
- `Day6`: boat races. Count the hold times `p` with `p * (d - p) > best`.
- `Day7Part1` and `Day7Part2`: Camel Cards. Classify five-card hands, compare
  them, sort the bids and add up bid × rank. Part 2 first lets every joker
  stand in for the most frequent other card.
- `Day8`: the network walk. Follow the L/R directions, cycling through them,
  from "AAA" until the next node is "ZZZ".

Four shared modules support the days:

- `Results`: `Option` and `Result`. Every panic of the original (`unwrap`,
  `assert!`, `unreachable!`) is an `Err` with a reason, except three
  assertions whose conditions every caller meets. Those are `requires`:
  `size > 0` of `is_next_to_symbol` (`Day3.IsNextToSymbol`), the '*' under
  the gear of `numbers_for_gear` (`Day3.NumbersForGear`), and `p != 0`,
  `p != d` of `leads_to_win` (`Day6.LeadsToWin`). Dafny checks every call
  against them, so no input the original accepts is excluded.
- `Text`: the string operations the solvers use: split on a separator,
  ASCII-whitespace-separated words, decimal numbers, each with its rendering
  inverse, and `trim`, which drops whitespace in Unicode's sense as Rust's
  does.
- `Hands`: the seven hand categories, the insert-or-increment counting loop,
  the classification and the lexicographic comparison. Both day-7 variants
  use it.
- `Sorting`: the in-place sort of the bids, proved equal to a stable insertion
  sort.

Where the source changes state, the model does too, as methods with loops
proved against a specification function: the counting loops, the grid scans,
`seed_location`, `parse_maps`, the copy propagation over an `array`, the sort
of the bids over an `array`, and the day 8 walk. The rest are functions.

## Model

| member | source | states |
|---|---|---|
| Results.Collect | src/day7_part1.rs:47-51 | mapping a fallible parse over a list succeeds exactly when every element parses; then there is one value per element, each that element's own result |
| Results.CollectAll | src/day7_part1.rs:47-51 | when every element parses the result is the list of their values |
| Results.CollectFails | src/day8.rs:82-92 | when the elements before index i parse and element i fails, the whole fails with element i's reason |
| Results.CollectStep | src/day8.rs:78-95 | one more element either fails the whole with its reason or extends the prefix's values by its value |
| Results.CollectSnoc | src/day7_part1.rs:47-51 | a successful prefix followed by a successful element gives the prefix's values plus that value |
| Day1.Digits | src/day1.rs:10-12 | the digit values of a line are digits (< 10), at most one per character |
| Day1.DigitsEmpty | src/day1.rs:10-17 | a line yields no digit exactly when none of its characters is a digit |
| Day1.DigitsAppend | src/day1.rs:10-12 | the digits of a concatenation are the digits of each part in order |
| Day1.Calibration | src/day1.rs:13-19 | fails exactly on an empty token list; otherwise the value is at most 99, its tens digit is the first token and its units digit the last (a single token is used twice) |
| Day1.Part1ParseLine | src/day1.rs:9-20 | fails exactly when the line has no digit character; the value is at most 99 |
| Day1.PositionFrom | src/day1.rs:76-77 | a found index holds the word and no earlier entry does; nothing found means no entry from the start index on equals the word |
| Day1.WordIndex | src/day1.rs:56-77 | finds the position of a number word, and nothing for any other string |
| Day1.WordToken | src/day1.rs:75-81 | a candidate word contributes at most one token |
| Day1.ExtractAllDigits | src/day1.rs:53-88 | the loop over positions emits, position by position, the tokens `TokensBefore` defines (the inner loop is `PushWords`) |
| Day1.PushWords | src/day1.rs:73-83 | the inner loop over candidate ends appends to what was pushed before exactly the tokens `WordsFrom` defines for that position |
| Day1.Part2ParseLine | src/day1.rs:42-51 | fails exactly when no token is found; otherwise tens digit = first token, units digit = last token, value at most 99 |
| Day1.WordLetters | src/day1.rs:56-66 | every number word has at least three letters and starts with a lower-case letter |
| Day1.FirstTwoLettersDistinct | src/day1.rs:56-66 | no two number words share their first two letters |
| Day1.NoWordIsPrefixOfAnother | src/day1.rs:56-66 | a number word that is a prefix of another is the same word |
| Day1.NumberWordsPrefixFree | src/day1.rs:56-66 | the nine number words are non-empty and none is a prefix of another |
| Day1.SameStart | src/day1.rs:74-82 | in a prefix-free word list, two entries that both start at a position are the same entry |
| Day1.WordTokenOfWord | src/day1.rs:75-81 | in a prefix-free word list, the k-th entry contributes k + 1 |
| Day1.WordsFromMatch | src/day1.rs:74-82 | for a prefix-free word list, the inner loop over the end positions emits exactly the number of the entry that starts there, or nothing |
| Day1.WordsFromStep | src/day1.rs:74-82 | one more candidate end keeps the inner loop's output at the number of the entry that starts at the position |
| Day1.NotAnotherWord | src/day1.rs:75-81 | once an entry starts at a position, a candidate of any other length is no entry and contributes nothing |
| Day1.WordEndsHere | src/day1.rs:75-81 | the candidate that ends where an entry ends is that entry, and no entry ends earlier |
| Day1.CandidateIsWord | src/day1.rs:75-81 | a candidate that contributes a token is an entry ending at that candidate's end |
| Day1.WordsFromBounded | src/day1.rs:74-82 | every token the inner loop emits is between 1 and the number of entries |
| Day1.TokensAtWord | src/day1.rs:68-84 | at a non-digit position, the token is k + 1 when word k starts there, nothing when no word does, and never more than one |
| Day1.TokensBounded | src/day1.rs:68-85 | every token is a digit value |
| Day1.NoLettersSameTokens | src/day1.rs:68-85 | on a line without letters, part 2 reads the same tokens as part 1 on every prefix |
| Day1.NoLettersSameValue | src/day1.rs:68-72 | on a line without letters, part 2 reads the same tokens as part 1 |
| Day1.FirstLastDigits | src/day1.rs:9-20 | a line whose first digit character is d1 and last is d2 is worth 10·d1 + d2, whatever digits lie between |
| Day1.SingleDigit | src/day1.rs:13-14 | a line with a single digit character d is worth 11·d |
| Day1.CalibrationEnds | src/day1.rs:13-19 | with two or more tokens the value is ten times the first plus the last |
| Day1.DigitsOne | src/day1.rs:10-12 | a single digit character yields its value |
| Day1.Part1Example12 | src/day1.rs:22-34 | "1abc2" gives 12 |
| Day1.Part1Example38 | src/day1.rs:22-34 | "pqr3stu8vwx" gives 38 |
| Day1.Part1Example15 | src/day1.rs:22-34 | "a1b2c3d4e5f" gives 15, the digits between first and last ignored |
| Day1.Part1Example77 | src/day1.rs:22-34 | "treb7uchet" gives 77, a single digit used twice |
| Day2.Maximum | src/day2.rs:36-54 | every set fits in the maximum, and each colour of it is 0 or the count of some set |
| Day2.MinimumRequired | src/day2.rs:36-54 | the field-updating loop computes `Maximum` of the sets |
| Day2.MaximumWithin | src/day2.rs:32-54 | every set fits in a bound exactly when the colour-by-colour maximum does |
| Day2.IsPossible | src/day2.rs:32-34 | a game is possible exactly when its minimum bag fits in the 12/13/14 bag |
| Day2.Power | src/day2.rs:65-67 | the power is 0 exactly when some colour is 0 |
| Day2.Apply | src/day2.rs:95-108 | an item overwrites the count of the colour it names and leaves the others alone |
| Day2.ParseItem | src/day2.rs:90-108 | succeeds exactly on two space-separated words, a number and "red", "green" or "blue"; gives that number and colour |
| Day2.ItemsToCubes | src/day2.rs:89-111 | the items of a set succeed exactly when every item parses |
| Day2.NoMentionZero | src/day2.rs:85-87 | a colour no item names stays 0 |
| Day2.LastMentionCount | src/day2.rs:95-108 | a colour takes the quantity of the last item naming it |
| Day2.ParseSet | src/day2.rs:83-112 | the loop over the ", " items computes `ItemsToCubes` of them |
| Day2.ItemsToCubesErrPrefix | src/day2.rs:89-108 | the first item that fails to parse makes the set fail with its reason |
| Day2.ItemsToCubesLastMention | src/day2.rs:89-111 | an unmentioned colour stays 0, and a colour named several times takes its last quantity |
| Day2.ParseItemRendered | src/day2.rs:90-108 | "<n> <colour>" parses to (n, colour) |
| Day2.ParseSetRendered | src/day2.rs:83-112 | a rendered set parses back to the same counts |
| Day2.ItemsToCubesRendered | src/day2.rs:89-111 | written-out items parse back, in order, to the counts they set |
| Day2.ParseSetItemsRendered | src/day2.rs:83-112 | any non-empty list of items joined with ", " parses to the counts they set: colours in any order, missing ones 0, a repeated one at its last quantity |
| Day2.ParseSets | src/day2.rs:78-81 | succeeds exactly when every "; " part parses as a set; then one set per part, at least one, each that part's counts |
| Day2.ParseSetsJoined | src/day2.rs:78-81 | set texts that parse, joined with "; ", parse to those sets |
| Day2.ParseLine | src/day2.rs:70-76 | a line without ':' fails; otherwise the sets are read from two characters after the first ':' |
| Day2.EmptySetFails | src/day2.rs:70-76 | an empty set text fails, so a line without ':' is an error |
| Day2.ParseLineBody | src/day2.rs:70-76 | "<head>: <body>" with no ':' in the head parses as the sets of the body, whatever the head says |
| Day2.ParseLineJoined | src/day2.rs:70-81 | "Game <id>: " followed by set texts that parse reads as those sets |
| Day2.ParseLineRendered | src/day2.rs:70-81 | a rendered "Game <id>: ..." line parses back to the game |
| Day2.ParseLineExample1 | src/day2.rs:116-119 | "Game 1: 3 blue, 4 red; 1 red, 2 green, 6 blue; 2 green" parses to the three sets of the test |
| Day2.ParseLineExample2 | src/day2.rs:120-123 | the Game 2 test line parses to its three sets |
| Day2.ParseLineExample3 | src/day2.rs:124-127 | the Game 3 test line parses to its three sets |
| Day2.ParseLineExample4 | src/day2.rs:128-131 | the Game 4 test line parses to its three sets |
| Day2.ParseLineExample5 | src/day2.rs:132-134 | the Game 5 test line parses to its two sets |
| Day2.SumPossibleIds | src/day2.rs:9-14 | the loop sums the 1-based indices of the possible games, at most 1 + ... + n |
| Day2.PossibleIdSumBound | src/day2.rs:9-14 | the sum of the possible games' ids is at most 1 + ... + n |
| Day2.AllPossibleSum | src/day2.rs:9-14 | when every game is possible the sum is n(n+1)/2 |
| Day3.Get | src/day3.rs:8-12 | nothing exactly when the row or the column is out of range, otherwise the character there |
| Day3.IsSymbol | src/day3.rs:187-189 | a symbol is any character outside the dot and the ten ASCII digits |
| Day3.RunEnd | src/day3.rs:20-56 | a run of digits ends at the first non-digit or at the end of the row |
| Day3.RunsFromAreRuns | src/day3.rs:14-61 | every run found in a row is a maximal run of digits with the decimal value of those digits |
| Day3.RunsFromSeparated | src/day3.rs:20-56 | runs of a row are in order and separated by at least one non-digit |
| Day3.RunsFromCover | src/day3.rs:20-56 | every digit of a row lies in some run |
| Day3.AllRunsAreRuns | src/day3.rs:14-61 | every run of the grid is a maximal digit run of its own row, of size at least 1, with the right value |
| Day3.AllRunsOrdered | src/day3.rs:14-61 | the runs come in row-major order and do not overlap |
| Day3.AllRunsCover | src/day3.rs:14-61 | every digit cell of the grid lies in some run |
| Day3.CoveredExactlyOnce | src/day3.rs:14-61 | every digit cell lies in exactly one run |
| Day3.Numbers | src/day3.rs:14-61 | the scan with the current-number accumulator returns exactly the maximal runs, in row-major order |
| Day3.ScanRow | src/day3.rs:18-57 | scanning one row with the current-number accumulator appends exactly that row's maximal runs, left to right |
| Day3.ExtendRun | src/day3.rs:23-32 | reading one more digit makes the value ten times the old value plus that digit |
| Day3.CloseRun | src/day3.rs:47-56 | a run that ends at a non-digit or at the end of the row is the one reported |
| Day3.StarsInFacts | src/day3.rs:66-77 | the stars of a row are exactly its '*' cells, left to right |
| Day3.AllStarsFacts | src/day3.rs:63-80 | the stars are exactly the '*' cells of the grid, in strictly row-major order |
| Day3.Stars | src/day3.rs:63-80 | the loop returns exactly `AllStars` |
| Day3.NeighborIffTouching | src/day3.rs:191-209 | the offset table gives exactly the eight cells around a cell |
| Day3.IsNeighborOf | src/day3.rs:191-209 | one cell neighbours another exactly when it is one of the eight cells around it |
| Day3.NeighborSymmetric | src/day3.rs:191-209 | being a neighbour is symmetric |
| Day3.NeighborIrreflexive | src/day3.rs:191-209 | no cell is its own neighbour |
| Day3.IsNextToSymbol | src/day3.rs:145-185 | true exactly when some cell of the run has an in-grid neighbour holding a symbol; negative coordinates are skipped |
| Day3.Part1Result | src/day3.rs:127-143 | the sum of the values of the runs next to a symbol |
| Day3.NoSymbolNoSum | src/day3.rs:127-143 | a grid without symbols sums to 0 |
| Day3.AdjacentIffInBox | src/day3.rs:82-93 | a run touches a cell outside it exactly when the cell lies in the box one cell wider than the run |
| Day3.AdjacentValues | src/day3.rs:85-92 | the values of exactly the runs that touch the cell; none exactly when no run touches it |
| Day3.AdjacentValuesComplete | src/day3.rs:85-92 | one value per touching run, every touching run's value included, and the values of a concatenation are those of its parts in order |
| Day3.AdjacentValuesAppend | src/day3.rs:85-92 | the values over a + b are those over a followed by those over b |
| Day3.AdjacentValuesOne | src/day3.rs:85-92 | a single run contributes its value exactly when it touches the cell |
| Day3.ValuesWhere | src/day3.rs:85-92 | at most one value per run, none exactly when no run is accepted, each value that of an accepted run |
| Day3.ValuesWhereCount | src/day3.rs:85-92 | there are as many values as accepted runs |
| Day3.ValuesWhereComplete | src/day3.rs:85-92 | every accepted run contributes its value |
| Day3.ValuesWhereAppend | src/day3.rs:85-92 | the values keep the order of the runs |
| Day3.NumbersForGear | src/day3.rs:82-93 | one value per run touching the star, and every touching run's value among them |
| Day3.GearNumbersNear | src/day3.rs:82-93 | every number reported for a gear comes from a run within one row and one column of it |
| Day3.StarsAreStars | src/day3.rs:63-80 | every star found is a '*' cell |
| Day3.Part2Result | src/day3.rs:211-224 | the sum of the products over the stars that touch exactly two numbers |
| Day3.Part1ExampleNoSymbol | src/day3.rs:226-256 | "123" gives 0 |
| Day3.Part1ExampleLeadingStar | src/day3.rs:226-256 | "*123" gives 123 |
| Day3.Part1ExampleTrailingStar | src/day3.rs:226-256 | "123*" gives 123 |
| Day3.RunsOneStarOne | src/day3.rs:226-256 | the runs of "1*1" are its two ones |
| Day3.Part1ExampleOneStarOne | src/day3.rs:226-256 | "1*1" gives 2 |
| Day3.StarsOneStarOne | src/day3.rs:63-80 | the only star of "1*1" is in column 1 |
| Day3.GearOneStarOne | src/day3.rs:82-93 | both ones of "1*1" touch its star |
| Day3.Part2ExampleOneStarOne | src/day3.rs:211-224 | "1*1" gives 1 * 1 in part 2 |
| Day3.BothOnesTouchStar | src/day3.rs:82-93 | the two ones of "1*1" give the numbers [1, 1] for its star |
| Day3.SingleGearSum | src/day3.rs:211-224 | a star touching exactly two numbers a and b contributes a * b |
| Day4.Matches | src/day4.rs:10-20 | the match count is at most the number of own numbers |
| Day4.MatchesAppend | src/day4.rs:13-17 | matches add up over the own numbers, so a repeated own number counts each time |
| Day4.MatchesExtremes | src/day4.rs:10-20 | 0 exactly when no own number wins; all of them exactly when every own number wins |
| Day4.MatchingCards | src/day4.rs:10-20 | the loop computes `Matches` |
| Day4.Points | src/day4.rs:22-36 | the doubling loop computes 0 without a match and 2^(m-1) for m matches |
| Day4.ScoreFacts | src/day4.rs:22-36 | the score is 0 exactly without a match, and one more match doubles it |
| Day4.ScoreMonotone | src/day4.rs:22-36 | more matches never score less |
| Day4.Scores | src/day4.rs:57-60 | the score of every card, in order |
| Day4.Part1Result | src/day4.rs:57-60 | fails exactly when a card line fails; otherwise the sum of the cards' points |
| Day4.MatchCounts | src/day4.rs:66-68 | the match count of every card, in order |
| Day4.Reward | src/day4.rs:67-68 | the reward is the match count capped at the number of later cards, so every updated index is in bounds |
| Day4.AddCopies | src/day4.rs:70-74 | each of the next `reward` cards gains as many copies as card i has; the other counts are unchanged |
| Day4.CopiesAfter | src/day4.rs:64-75 | one count per card, every one at least 1, the first card never copied |
| Day4.GiveCopies | src/day4.rs:70-74 | the nested loops update the array to `AddCopies` of its old contents |
| Day4.Part2Count | src/day4.rs:64-77 | on the parsed cards, the sum of the counts once every card has been processed |
| Day4.Part2Result | src/day4.rs:62-78 | fails exactly when a card line fails to parse; otherwise the number of cards held at the end, at least the number of lines |
| Day4.CopiesPositive | src/day4.rs:64-75 | every card is held at least once at every stage |
| Day4.CopiesGrow | src/day4.rs:70-74 | processing a card never lowers a count |
| Day4.CopiesSettled | src/day4.rs:66-75 | once card m is reached, the counts of cards 0 .. m never change again |
| Day4.SumAtLeastLength | src/day4.rs:77 | a sum of positive counts is at least their number |
| Day4.TotalCopiesAtLeastCards | src/day4.rs:62-78 | the part 2 answer is at least the number of cards |
| Day4.SampleCopies | src/day4.rs:118-134 | match counts 4, 2, 2, 1, 0, 0 give 30 cards |
| Day4.SamplePoints | src/day4.rs:100-116 | match counts 4, 2, 2, 1, 0, 0 give 13 points |
| Day4.SampleCopiesTable | src/day4.rs:118-134 | match counts 4, 2, 2, 1, 0, 0 end with 1, 2, 4, 8, 14 and 1 copies |
| Day4.MatchesOfEight | src/day4.rs:10-20 | the matches of eight own numbers are the sum of their individual hits |
| Day4.MatchesOfFour | src/day4.rs:10-20 | the matches of four own numbers are the sum of their individual hits |
| Day4.SampleMatchCounts | src/day4.rs:100-134 | the six sample cards have 4, 2, 2, 1, 0 and 0 matches |
| Day4.SampleResults | src/day4.rs:100-134 | the sample lines parse to the sample cards, which score 13 points and end as 30 cards |
| Day4.ParseCards | src/day4.rs:80-82 | fails exactly when some line fails; otherwise one card per line |
| Day4.ParseCard | src/day4.rs:84-98 | a line without ':' fails; otherwise the card is read from everything after the first ':' |
| Day4.NoBodyFails | src/day4.rs:84-98 | an empty card body has no '\|' and fails |
| Day4.ParseCardBody | src/day4.rs:89-97 | succeeds exactly when the body splits on '\|' into two parts whose words are numbers; the winning and own numbers are those, in order |
| Day4.ParseCardBodyRendered | src/day4.rs:89-97 | "<winning> \| <own>", the numbers right-aligned in columns of any width, parses back to the two lists |
| Day4.ParseCardRendered | src/day4.rs:84-98 | a rendered "Card <id>: ..." line, in columns of any width, parses back to the card |
| Day4.RenderCards | src/day4.rs:100-134 | one line per card, numbered from 1 |
| Day4.ParseCardsRendered | src/day4.rs:80-98 | rendered card lines parse back to the cards |
| Day5.RangeContains | src/day5.rs:88-93 | the id lies in the range exactly when its offset from the source start is below the length, so an empty range contains nothing |
| Day5.Containing | src/day5.rs:97-100 | keeps only ranges that contain the id |
| Day5.ContainingCount | src/day5.rs:97-101 | no range, two or more ranges, or exactly one range contains the id, each stated in terms of the map's ranges |
| Day5.MapStep | src/day5.rs:95-108 | fatal exactly when two ranges contain the id; an id in no range is unchanged; an id in a range becomes destination + (id - source) |
| Day5.WalkErr | src/day5.rs:95-108 | once the walk fails it stays failed with the same reason |
| Day5.SeedLocation | src/day5.rs:84-112 | the loop over the maps computes `LocationOf` |
| Day5.LocationOf | src/day5.rs:84-112 | a seed has a location exactly when the walk over all maps succeeds and ends on Location; the location is the id it ends with |
| Day5.WalkChain | src/day5.rs:95-110 | a successful walk starts at Seed, each map starts where the last one ended, and it stands on the last map's resource |
| Day5.WalkDefined | src/day5.rs:95-110 | a chained walk over maps whose ranges do not overlap succeeds |
| Day5.LocationIffChain | src/day5.rs:84-112 | with non-overlapping ranges, a seed has a location exactly when the maps chain from Seed to Location |
| Day5.WalkIdentity | src/day5.rs:103-105 | maps without ranges leave the id unchanged |
| Day5.EmptyMapsKeepIds | src/day5.rs:84-112 | maps without ranges send each seed to the location with the same number |
| Day5.Locations | src/day5.rs:46-47 | fails exactly when some seed has no location; otherwise the location of every seed, in order |
| Day5.MinOf | src/day5.rs:48-49 | the minimum is an element and at most every element |
| Day5.Part1 | src/day5.rs:44-50 | fails exactly when there are no seeds or one has no location; otherwise the least location of the listed seeds |
| Day5.Part2 | src/day5.rs:61-82 | the nested loops give the least of u32::MAX and the locations of every seed of every pair; fatal on an odd seed count or a seed without location |
| Day5.NextPair | src/day5.rs:65-79 | finishing the current pair is visiting one more pair |
| Day5.Part2AnswerUnique | src/day5.rs:61-82 | the part 2 answer is unique |
| Day5.ParseResource | src/day5.rs:181-195 | names the resource read, and fails only on a string no resource is named |
| Day5.ParseResourceName | src/day5.rs:181-195 | every resource name parses to its resource |
| Day5.ParseResources | src/day5.rs:157-167 | a header that parses is the two words "<from>-to-<to>" and "map:" for the resources returned |
| Day5.ParseResourcesHeader | src/day5.rs:157-167 | "<from>-to-<to> map:" parses to (from, to) |
| Day5.ParseRange | src/day5.rs:169-179 | succeeds exactly on a line of three numbers; they are destination, source and length in that order |
| Day5.ParseRangeRendered | src/day5.rs:169-179 | three numbers parse back to (destination, source, length) |
| Day5.ScanRanges | src/day5.rs:141-143 | range lines inside a map are appended to the map's ranges |
| Day5.ScanRangeLine | src/day5.rs:141-143 | inside a map, a written-out range line adds exactly that range |
| Day5.ScanCloseLine | src/day5.rs:137-140 | inside a map, an empty line closes it: the map with its ranges joins the finished ones and no header stays open |
| Day5.ScanHeader | src/day5.rs:144-147 | outside a map a header line opens a new map |
| Day5.ScanRendered | src/day5.rs:133-148 | rendered map blocks are scanned into the maps, the last one still open |
| Day5.ParseMaps | src/day5.rs:128-155 | the state-machine loop computes `ParseMapLines` |
| Day5.ParseMapsRendered | src/day5.rs:128-155 | rendered maps parse back, the last map needing no trailing empty line |
| Day5.ParseMapsRenderedBlank | src/day5.rs:150-152 | an empty line after the last map changes nothing |
| Day5.ParseSeeds | src/day5.rs:120-126 | succeeds exactly when the line starts with "seeds: " and the rest is numbers; the seeds are those numbers |
| Day5.ParseAlmanac | src/day5.rs:114-118 | succeeds exactly when there are two lines or more, the first reads as seeds and the lines from the third on as maps; the almanac holds those |
| Day5.ReadAlmanac | src/day5.rs:114-118 | seeds from the first line, maps from the third line on, as `ParseAlmanac` |
| Day5.ParseAlmanacRendered | src/day5.rs:114-126 | a rendered almanac parses back to itself |
| Day5.Part1Result | src/day5.rs:44-50 | a parse error is passed on; otherwise the part 1 answer of the almanac |
| Day5.Part2Result | src/day5.rs:61-82 | a parse error is passed on; otherwise the part 2 answer of the almanac |
| Day6.CountWins | src/day6.rs:48-54 | at most hi - 1 winning hold times below hi |
| Day6.WinPossibilities | src/day6.rs:48-54 | 0 when d <= 1, at most d - 1 otherwise |
| Day6.CountWinsIsSetSize | src/day6.rs:48-54 | the count below hi is the size of the set of winning hold times below hi |
| Day6.WinPossibilitiesIsSetSize | src/day6.rs:48-54 | the count is the number of winning hold times |
| Day6.LeadsToWin | src/day6.rs:56-62 | holding p wins exactly when holding d - p goes further than the best distance |
| Day6.WinsSymmetric | src/day6.rs:59-61 | holding p wins exactly when holding d - p does |
| Day6.WinsBetween | src/day6.rs:56-62 | a hold time between two winning ones wins |
| Day6.WinsInterval | src/day6.rs:56-62 | with lo the least winning hold time, the winners are exactly lo .. d - lo |
| Day6.WinsFromLeast | src/day6.rs:56-62 | a winning hold time in the first half whose predecessor loses is the least one |
| Day6.CountWinsInterval | src/day6.rs:48-54 | the count below hi in closed form |
| Day6.WinPossibilitiesClosedForm | src/day6.rs:48-54 | with lo the least winning hold time there are d - 2 lo + 1 winners |
| Day6.ParseLine1 | src/day6.rs:39-46 | fails without ':'; otherwise one number per word after the first ':', failing exactly when a word is not a number |
| Day6.ParseLines1 | src/day6.rs:28-30 | fails exactly when a line fails; otherwise each line's numbers |
| Day6.Races | src/day6.rs:32-34 | races paired position by position, as many as the shorter line |
| Day6.ProductZero | src/day6.rs:35-36 | a product is 0 exactly when some factor is |
| Day6.WinCounts | src/day6.rs:35 | the win count of every race, in order |
| Day6.Part1 | src/day6.rs:27-37 | fails exactly when there are not two lines or one fails to parse |
| Day6.Part1Zero | src/day6.rs:27-37 | part 1 is 0 exactly when some paired race has no winning hold time |
| Day6.ParseLine2 | src/day6.rs:76-83 | fails without ':'; otherwise the words after the first ':' run together and read as one number |
| Day6.ParseLines2 | src/day6.rs:65-67 | fails exactly when a line fails; otherwise each line's number |
| Day6.Part2 | src/day6.rs:64-74 | fails exactly when there are not two lines or one fails; otherwise the number of winning hold times of the one race |
| Day6.LabelledLine | src/day6.rs:39-46 | a "<label>:<rest>" line reads the numbers of `rest` with its leading and trailing whitespace trimmed; part 2 reads its words run together |
| Day6.Part1Of | src/day6.rs:27-37 | two parsed lines give the product of the paired races' win counts |
| Day6.Part2Of | src/day6.rs:64-74 | two parsed lines give the win count of their race |
| Day6.SampleRaces | src/day6.rs:85-101 | the sample races have 4, 8, 9 and 71503 winning hold times |
| Day6.SampleTimeWords | src/day6.rs:85-101 | the sample time text after the label splits into "7", "15", "30" and holds only ASCII whitespace |
| Day6.SampleDistanceWords | src/day6.rs:85-101 | the sample distance text after the label splits into "9", "40", "200" and holds only ASCII whitespace |
| Day6.WordsSpaced | src/day6.rs:85-101 | words after runs of spaces are read back one by one |
| Day6.SpacedNumbers | src/day6.rs:85-101 | numbers after runs of spaces are read back and the text holds only ASCII whitespace |
| Day6.SampleTimeNumbers | src/day6.rs:85-101 | the sample times read 7, 15, 30 and, run together, 71530 |
| Day6.SampleDistanceNumbers | src/day6.rs:85-101 | the sample distances read 9, 40, 200 and, run together, 940200 |
| Day6.SampleTime | src/day6.rs:85-101 | the sample time line under both parsers |
| Day6.SampleDistance | src/day6.rs:85-101 | the sample distance line under both parsers |
| Day6.SampleProduct | src/day6.rs:85-92 | the sample races multiply to 288 |
| Day6.SamplePart1 | src/day6.rs:85-92 | the sample gives 288 in part 1 |
| Day6.SamplePart2 | src/day6.rs:94-101 | the sample gives 71503 in part 2 |
| Hands.Rank | src/day7_part1.rs:22-31 | the category discriminants run from 1 to 7 |
| Hands.RankInjective | src/day7_part1.rs:22-31 | distinct categories have distinct ranks, HighCard lowest and FiveOfAKind highest |
| Hands.Occurrences | src/day7_part1.rs:107-117 | one entry per distinct key, holding its number of occurrences |
| Hands.CountOccurrences | src/day7_part1.rs:107-117 | the insert-or-increment loop computes `Occurrences` |
| Hands.OccurrencesPermutation | src/day7_part1.rs:107-119 | rearranged hands have the same counts |
| Hands.MultiplicityBound | src/day7_part1.rs:107-117 | a key occurs at most as often as the hand is long |
| Hands.Classify | src/day7_part1.rs:119-136 | the if-chain, each of the seven outcomes stated by when it happens: five of a kind with a 5; four of a kind with a 4 and no 5; full house with a 3 and a 2; three of a kind with a 3 and no 2, 4 or 5; two pair with a 2, no 3/4/5 and three distinct values; one pair with a 2 otherwise; high card with all 1s; no category exactly when a count above 5 or no 2/3/4/5 with a count other than 1 |
| Hands.ClassifySameCounts | src/day7_part1.rs:119-136 | the category depends only on which counts occur and on the number of distinct values |
| Hands.ClassifyHand | src/day7_part1.rs:106-137 | the counting loop followed by the classification |
| Hands.HandTypePermutation | src/day7_part1.rs:106-137 | the category is invariant under rearranging the hand |
| Hands.HandTypeOfShortHand | src/day7_part1.rs:134 | a hand of at most five cards always has a category |
| Hands.SixOfAKindFails | src/day7_part1.rs:121-135 | six equal cards have no category |
| Hands.LexCompareFlip | src/day7_part1.rs:100-102 | swapping the sequences reverses the comparison |
| Hands.LexCompareEqual | src/day7_part1.rs:100-102 | Equal exactly for equal sequences |
| Hands.LexCompareTransitive | src/day7_part1.rs:100-102 | "not greater" is transitive |
| Hands.CompareKeysFlip | src/day7_part1.rs:90-104 | swapping the hands reverses the answer |
| Hands.CompareKeysEqual | src/day7_part1.rs:90-104 | Equal exactly when rank and card values agree |
| Hands.CompareKeysTransitive | src/day7_part1.rs:90-104 | "not greater" is transitive, so the order is a total preorder |
| Sorting.Insert | src/day7_part1.rs:83 | inserting adds one element |
| Sorting.SortSpec | src/day7_part1.rs:83 | sorting keeps the length |
| Sorting.Sort | src/day7_part1.rs:83 | sorting the array in place leaves `SortSpec` of its old contents |
| Sorting.ShiftIntoPlace | src/day7_part1.rs:83 | one step moves a[i] left into place and leaves the rest of the array alone |
| Sorting.InsertPermutation | src/day7_part1.rs:83 | inserting adds exactly that element to the multiset |
| Sorting.SortSpecPermutation | src/day7_part1.rs:83 | the sorted bids are a permutation of the input |
| Sorting.InsertSorted | src/day7_part1.rs:83 | inserting into a sorted sequence keeps it sorted |
| Sorting.SortSpecSorted | src/day7_part1.rs:83 | the sorted bids are in ascending order of the comparison |
| Sorting.SortSpecStable | src/day7_part1.rs:83 | bids that compare equal keep their relative order |
| Sorting.SortedWithKeyUnique | src/day7_part1.rs:83 | two sorted sequences with the same elements per key in the same order are equal |
| Sorting.StableSortUnique | src/day7_part1.rs:83 | every stable sort gives the same result as `SortSpec` |
| Text.ParseNatAccepts | src/day2.rs:92 | `parse::<u32>` accepts exactly a non-empty run of digits after an optional '+'; without the '+' the value is their decimal value |
| Text.ParseNatToString | src/day2.rs:92 | a written-out number parses back to itself |
| Text.ParseNats | src/day6.rs:41-45 | succeeds exactly when every word is a number; one value per word, in order |
| Text.ParseNatsToStrings | src/day6.rs:41-45 | written-out numbers parse back to themselves |
| Text.JoinSplitOn | src/day2.rs:84 | `split` loses nothing: joining the pieces with the separator gives the input back |
| Text.SplitOnJoin | src/day2.rs:84 | pieces free of the separator's first character, joined with it, split back into the same pieces |
| Text.Words | src/day6.rs:43 | `split_ascii_whitespace` gives non-empty words free of whitespace |
| Text.WordsConcat | src/day6.rs:78-82 | the words run together are the text with its whitespace removed |
| Text.WordsAroundSpace | src/day6.rs:43 | the words of a + " " + b are those of a followed by those of b |
| Text.WordsJoinPadded | src/day4.rs:89-97 | right-aligned words joined with spaces are read back without their padding |
| Text.RenderNatsAlignedFacts | src/day4.rs:89-97 | numbers right-aligned in columns of any width split into their own words, parse back and hold only digits and spaces |
| Text.TrimStart | src/day6.rs:42 | drops exactly the leading Unicode whitespace, keeping a suffix of the input |
| Text.TrimEnd | src/day6.rs:42 | drops exactly the trailing Unicode whitespace, keeping a prefix of the input |
| Text.TrimPadded | src/day8.rs:88 | trimming a name with one space before or after gives the name |
| Text.WordsTrim | src/day6.rs:78-82 | on text whose whitespace is ASCII, trimming first changes neither the words nor the text with its whitespace removed |
| Day7Part1.ParseCard | src/day7_part1.rs:63-80 | succeeds exactly on digits and T, J, Q, K, A; digits keep their value, letters are 10 or more, all at most 14 |
| Day7Part1.ParseCardChar | src/day7_part1.rs:63-80 | every card value 0 .. 14 is read back from its character |
| Day7Part1.CardCharParse | src/day7_part1.rs:63-80 | every accepted character is written back as itself |
| Day7Part1.ParseCards | src/day7_part1.rs:56-58 | fails exactly when a character is not a card; otherwise one card per character |
| Day7Part1.ParseLine | src/day7_part1.rs:53-61 | succeeds exactly on two words, a hand and a number, and gives that bid |
| Day7Part1.Parse | src/day7_part1.rs:47-51 | fails exactly when a line fails; otherwise one bid per line |
| Day7Part1.ParseCardsRendered | src/day7_part1.rs:56-58 | a written-out hand reads back as the same cards |
| Day7Part1.Values | src/day7_part1.rs:100-102 | the value of every card, in order |
| Day7Part1.CategoryOf | src/day7_part1.rs:106-137 | a hand of at most five cards always has a category |
| Day7Part1.KeyOf | src/day7_part1.rs:90-104 | the rank is 0 exactly when the hand has no category, at most 7, at least 1 for a hand of at most five; the values are the cards' |
| Day7Part1.CompareHands | src/day7_part1.rs:90-104 | fails exactly when a hand has no category |
| Day7Part1.CompareHandsByCategory | src/day7_part1.rs:95-96 | a lower category is Less, whatever the cards |
| Day7Part1.CompareHandsFlip | src/day7_part1.rs:90-104 | compare(b, a) is the reverse of compare(a, b) |
| Day7Part1.CompareHandsEqual | src/day7_part1.rs:90-104 | Equal only for identical hands |
| Day7Part1.WinningsOf | src/day7_part1.rs:82-88 | fails exactly when there are two or more bids and one has no category |
| Day7Part1.Winnings | src/day7_part1.rs:82-88 | sorts the bids in an array, then adds bid × (i + 1), as `WinningsOf` |
| Day7Part1.WinningsOrder | src/day7_part1.rs:82-88 | the bids are scored as a permutation of the input, in ascending `compare_hands` order |
| Day7Part1.WinningsAnyStableSort | src/day7_part1.rs:82-88 | any stable sort by `compare_hands` gives the same total |
| Day7Part1.Part1Result | src/day7_part1.rs:42-45 | parse, then score the bids |
| Day7Part1.Part1Of | src/day7_part1.rs:42-45 | fails exactly when parsing fails or there are two bids or more and a hand has no category; hands of at most five cards always give an answer |
| Day7Part2.CardValue.Value | src/day7_part2.rs:14-23 | a number card is worth its number; T, Q, K and A are worth 10 to 14, 11 left out |
| Day7Part2.FixedUpCard.Value | src/day7_part2.rs:61-66 | a joker is worth 1 whatever it stands in for; any other card is its face value |
| Day7Part2.ParseCard | src/day7_part2.rs:159-174 | succeeds exactly on digits and T, J, Q, K, A; 'J' and only 'J' is the joker; a digit is that number |
| Day7Part2.ParseCards | src/day7_part2.rs:152-154 | fails exactly when a character is not a card; otherwise one card per character |
| Day7Part2.ParseLine | src/day7_part2.rs:149-157 | succeeds exactly on two words, a hand and a number, and gives that bid |
| Day7Part2.Parse | src/day7_part2.rs:143-147 | fails exactly when a line fails; otherwise one bid per line |
| Day7Part2.MostFrequent | src/day7_part2.rs:271-281 | a non-joker card of the hand that no other non-joker outnumbers, present exactly when the hand has a non-joker |
| Day7Part2.FixAll | src/day7_part2.rs:282-287 | non-jokers are kept in place, every joker stands in for the given card |
| Day7Part2.AllAces | src/day7_part2.rs:269 | five jokers standing in for aces |
| Day7Part2.ReplaceJokersInHand | src/day7_part2.rs:245-290 | the counting loop followed by the three cases, as `JokersReplaced` |
| Day7Part2.JokersReplaced | src/day7_part2.rs:245-290 | the hand keeps its length (or becomes the five-aces hand), non-jokers stay in place and jokers stay jokers |
| Day7Part2.OnlyJokers | src/day7_part2.rs:267-269 | a hand whose counts hold only the joker is all jokers |
| Day7Part2.NoJokersKept | src/day7_part2.rs:256-262 | a hand without jokers keeps its cards, in order and length |
| Day7Part2.OnlyJokersBecomeAces | src/day7_part2.rs:267-269 | a hand of jokers only becomes five jokers standing in for aces |
| Day7Part2.MixedHandReplaced | src/day7_part2.rs:271-287 | otherwise every joker stands in for a most frequent non-joker, and the other cards stay in place |
| Day7Part2.ParseCardsWellFormed | src/day7_part2.rs:159-174 | every parsed number card is a single digit |
| Day7Part2.ValueInjective | src/day7_part2.rs:14-23 | distinct parsed card values have distinct numeric values |
| Day7Part2.CountKeysFixAll | src/day7_part2.rs:203-207 | a value is counted once per non-joker of that value, plus every joker when it is the stand-in |
| Day7Part2.MostFrequentTie | src/day7_part2.rs:271-281 | two most frequent cards are equally frequent |
| Day7Part2.StandInCounts | src/day7_part2.rs:200-214 | standing in for one most frequent card or another gives the same counts |
| Day7Part2.TieBreakValues | src/day7_part2.rs:184-198 | the tie-break values of a hand do not depend on which card its jokers stand in for |
| Day7Part2.StandInIrrelevant | src/day7_part2.rs:271-281 | which most frequent card the jokers stand in for changes neither the category nor the tie-break values |
| Day7Part2.ReplaceJokers | src/day7_part2.rs:236-243 | the bids keep their order and amounts, each hand with its jokers replaced |
| Day7Part2.CountKeys | src/day7_part2.rs:203-207 | a joker is counted as the card it stands in for |
| Day7Part2.Values | src/day7_part2.rs:194-196 | the tie-break value of every card, in order |
| Day7Part2.CategoryOf | src/day7_part2.rs:200-234 | a hand of at most five cards always has a category |
| Day7Part2.KeyOf | src/day7_part2.rs:184-198 | the rank is 0 exactly when the hand has no category, at most 7, at least 1 for a hand of at most five; the values are the cards' tie-break values |
| Day7Part2.CompareHands | src/day7_part2.rs:184-198 | fails exactly when a hand has no category |
| Day7Part2.CompareHandsFlip | src/day7_part2.rs:184-198 | compare(b, a) is the reverse of compare(a, b) |
| Day7Part2.CompareHandsEqual | src/day7_part2.rs:184-198 | Equal exactly when the categories and tie-break values agree |
| Day7Part2.JokerLosesTieBreak | src/day7_part2.rs:184-198 | in one category, the first joker against a card of value 2 or more makes the hand Less |
| Day7Part2.WinningsOf | src/day7_part2.rs:176-182 | fails exactly when there are two or more bids and one has no category |
| Day7Part2.Winnings | src/day7_part2.rs:176-182 | sorts the bids in an array, then adds bid × (i + 1), as `WinningsOf` |
| Day7Part2.WinningsOrder | src/day7_part2.rs:176-182 | the bids are scored as a permutation of the input, in ascending `compare_hands` order |
| Day7Part2.WinningsAnyStableSort | src/day7_part2.rs:176-182 | any stable sort by `compare_hands` gives the same total |
| Day7Part2.Part2Result | src/day7_part2.rs:137-141 | parse, replace the jokers, score the bids |
| Day7Part2.Part2Of | src/day7_part2.rs:137-141 | fails exactly when parsing fails or there are two bids or more and a replaced hand has no category; hands of at most five cards always give an answer |
| Day7Part2.ReplacedCategories | src/day7_part2.rs:236-243 | a replaced bid has no category exactly when its hand with jokers replaced has none, and short hands always have one |
| Day7Part2.CardAgreesWithPart1 | src/day7_part2.rs:159-174 | every card but 'J' has the same value under both rule sets |
| Day7Part2.AgreesWithPart1WithoutJokers | src/day7_part2.rs:159-174 | a hand without 'J' gets the same category and tie-break values as in part 1 |
| Day8.FindNode | src/day8.rs:54-56 | a node found has the name looked for |
| Day8.FindNodeFirst | src/day8.rs:54-56 | the node found is the first of that name, and nothing is found only when no node has it |
| Day8.FindAaaIndex | src/day8.rs:107-113 | fails exactly when no node is "AAA"; otherwise the first "AAA" node |
| Day8.Run | src/day8.rs:39-59 | a walk that stops takes more than the steps so far and at most the fuel more |
| Day8.CountSteps | src/day8.rs:32-60 | the loop over the step count, direction index and current node computes `StepsOf` |
| Day8.RunUnfold | src/day8.rs:39-59 | one step: stop at "ZZZ", fail on a missing node, otherwise go on from the first node of that name with the next direction |
| Day8.Turn | src/day8.rs:40-44 | the direction index is always in bounds |
| Day8.TurnStart | src/day8.rs:40-42 | the directions are used in order from the first |
| Day8.TurnPeriodic | src/day8.rs:40-44 | and then over again, with period the number of directions |
| Day8.PositionAfter | src/day8.rs:39-59 | the position m steps later is an existing node and an index in bounds |
| Day8.DirectionsCycle | src/day8.rs:40-44 | the walk uses direction Turn(k) at step k |
| Day8.RunSound | src/day8.rs:39-59 | a walk that stops has reached "ZZZ" for the first time |
| Day8.FirstShiftDown | src/day8.rs:39-59 | if a walk first reaches "ZZZ" after m > 0 steps, the walk from the next node with the next direction first reaches it after m - 1 |
| Day8.FirstShiftUp | src/day8.rs:39-59 | a walk not yet at "ZZZ" whose next walk first reaches it after m - 1 steps first reaches it after m |
| Day8.RunComplete | src/day8.rs:39-59 | a walk with enough fuel stops at the first arrival at "ZZZ" |
| Day8.StepsAreFirstArrival | src/day8.rs:32-60 | a successful walk gives the first arrival at "ZZZ" from "AAA", and every first arrival within the fuel is found |
| Day8.StepsOf | src/day8.rs:32-60 | no "AAA" node fails with that reason; a success needs directions and is between 1 and the fuel |
| Day8.StepsIndependentOfFuel | src/day8.rs:39-59 | more fuel never changes an answer once found |
| Day8.ParseDirection | src/day8.rs:71-75 | 'L' is Left, 'R' is Right, anything else fails |
| Day8.ParseDirections | src/day8.rs:68-76 | succeeds exactly on L/R lines; one direction per character |
| Day8.ParseLeftRight | src/day8.rs:97-105 | succeeds exactly when the text without parentheses splits on ", " into two parts; the names are the first part trimmed and the second part as it is |
| Day8.ParseLeftRightRendered | src/day8.rs:97-105 | " (L, R)" parses to (L, R) |
| Day8.ParseNodeRendered | src/day8.rs:82-91 | "SRC = (L, R)" parses back to the node |
| Day8.ParseNode | src/day8.rs:82-91 | succeeds exactly when the line splits on '=' into two parts and the second is "(L, R)"; the name is the first part trimmed, left and right those of the second |
| Day8.ParseNodes | src/day8.rs:78-95 | the pushing loop stops at the first line that fails, with its reason, and otherwise parses every line, as `Collect` of `ParseNode` |
| Day8.ParseInstructions | src/day8.rs:62-66 | succeeds exactly when there are two lines or more, the first is all L/R and every line from the third on is a node; one direction per character and one node per line |
| Day8.ReadInstructions | src/day8.rs:62-66 | the directions, then the node lines through the loop, as `ParseInstructions` |
| Day8.Part1Result | src/day8.rs:32-60 | parse, find "AAA", walk |
| Day8.Part1Of | src/day8.rs:32-60 | a parse error is passed on; an answer is the first arrival at "ZZZ" from "AAA", within the fuel |
| Day8.ParseRendered | src/day8.rs:62-95 | written-out instructions parse back to themselves |
| Day8.SinglePassSteps | src/day8.rs:115-129 | the first example takes 2 steps |
| Day8.SeveralPassesSteps | src/day8.rs:131-141 | the second example takes 6 steps, running through the directions twice |
| Day8.SeveralPassesWalk | src/day8.rs:131-141 | the second example's walk, step by step |

## Left out

- The file-reading `part1()`/`part2()` entry points of every day and the dispatcher in src/main.rs: they are I/O. The sums over the lines that days 1 and 2 compute there are not modelled; day 2's id-summing loop is.
- The `Display` implementations of src/day7_part2.rs: debug formatting that affects no result.
- Fixed-width arithmetic: numbers are unbounded, so the `u8`/`u32`/`u64` overflow panics (the `u8` counters of `hand_type` and `replace_jokers_in_hand` among them) and the `try_into().unwrap()` conversions are not modelled.
- Rust's string library: `split_ascii_whitespace`, `parse::<u32>` and `to_digit` are modelled on characters by the `Text` tokenisers, and `trim` with Unicode's whitespace set. UTF-8 byte offsets, and so the char-versus-byte length of src/day3.rs:47, are not modelled.
- Day7Part2.MostFrequent: the original breaks frequency ties by HashMap order. The model takes the highest of the most frequent cards, and `StandInIrrelevant` proves that the choice changes neither the category nor the comparison.
- Day8.CountSteps: the original loops forever when "ZZZ" is never reached. The model walks at most `fuel` steps and otherwise fails; `StepsIndependentOfFuel` and `StepsAreFirstArrival` show the bound changes no answer it finds.
- Day8.SinglePassSteps: the examples are stated on the instructions the sample lines describe, not on the lines themselves. `ParseRendered` connects the two.
- Day3.Part1Result: the 4361 and 467835 examples on the ten-line sample grid are not evaluated. The one-line examples "123", "*123", "123*" and "1*1" are proved, as is "1*1" for part 2.
- Day5.Part1: the sample almanac results (35 and 46) are not evaluated.
- Day7Part1.Part1Result: the sample results (6440, and 5905 for part 2) are not evaluated.
- Day1.Part2ParseLine: the part 2 test vectors ("eightwothree" and the rest) are not evaluated. Their token rules are proved in general by `TokensAtWord` and `WordsFromMatch`.
- Sorting.Sort: `slice::sort_by` is a merge sort that calls the comparison repeatedly. The model is an insertion sort over precomputed keys. `StableSortUnique` shows every stable sort gives the same order, so the winnings agree.
- Day5.Part2: the per-seed enumeration is kept, but its result is specified as a minimum over a set of seeds.
- Day4.SampleResults: the sample lines are built by `RenderCards` from the sample numbers, right-aligned in columns two characters wide. That this text equals the sample at src/day4.rs:100-134 character for character is not stated as a lemma.
- Day2.ParseLine: the game id is skipped, not parsed, as in the source; `SumPossibleIds` numbers the games by their position.
