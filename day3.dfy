/** Gear-ratio schematic (src/day3.rs): a grid of text rows holding numbers
    (maximal horizontal runs of digits) and symbols (anything that is neither
    a digit nor '.'). Part 1 sums the numbers next to a symbol; part 2 sums,
    over the '*' cells touching exactly two numbers, the product of the two. */
module Day3 {
  import opened Results
  import opened Text

  /** `Schematic` (src/day3.rs:3-5): the rows of the grid, row 0 first. */
  datatype Schematic = Schematic(lines: seq<string>)

  /** `NumberMatch` (src/day3.rs:96-102): start column, row, decimal value and
      number of digits of a run. */
  datatype NumberMatch = NumberMatch(x: nat, y: nat, value: nat, size: nat)

  /** `StarMatch` (src/day3.rs:104-107). */
  datatype StarMatch = StarMatch(x: nat, y: nat)

  /** `Schematic::get` (src/day3.rs:8-12): the character at column `x` of row
      `y`, or nothing when either is past the end. */
  function Get(s: Schematic, x: nat, y: nat): (r: Option<char>)
    ensures r.None? <==> y >= |s.lines| || x >= |s.lines[y]|
    ensures r.Some? ==> r.value == s.lines[y][x]
  {
    if y < |s.lines| && x < |s.lines[y]| then Some(s.lines[y][x]) else None
  }

  /** `is_symbol` (src/day3.rs:187-189): every character but the dot and the
      ten ASCII digits. */
  predicate IsSymbol(c: char): (b: bool)
    ensures b <==> c !in ".0123456789"
  {
    c != '.' && !IsDigit(c)
  }

  // ---------------------------------------------------------------------------
  // Runs of digits

  /** The end of the run of digits starting at `i`: the first non-digit at or
      after `i`, or the end of the row. */
  function RunEnd(line: string, i: nat): (e: nat)
    requires i <= |line|
    ensures i <= e <= |line|
    ensures forall j :: i <= j < e ==> IsDigit(line[j])
    ensures e == |line| || !IsDigit(line[e])
    decreases |line| - i
  {
    if i < |line| && IsDigit(line[i]) then RunEnd(line, i + 1) else i
  }

  /** The runs of row `y` that start at or after column `i`, left to right. */
  function RunsFrom(line: string, y: nat, i: nat): seq<NumberMatch>
    requires i <= |line|
    decreases |line| - i
  {
    if i == |line| then []
    else if !IsDigit(line[i]) then RunsFrom(line, y, i + 1)
    else
      var e := RunEnd(line, i);
      DigitsSlice(line, i, e);
      [NumberMatch(i, y, DecimalValue(line[i..e]), e - i)] + RunsFrom(line, y, e)
  }

  lemma DigitsSlice(line: string, i: nat, e: nat)
    requires i <= e <= |line|
    requires forall j :: i <= j < e ==> IsDigit(line[j])
    ensures AllDigits(line[i..e])
  {
    forall k | 0 <= k < e - i
      ensures IsDigit(line[i..e][k])
    {
      assert line[i..e][k] == line[i + k];
    }
  }

  function RowRuns(line: string, y: nat): seq<NumberMatch> {
    RunsFrom(line, y, 0)
  }

  /** The runs of rows `0 .. n-1`, in row-major order. */
  function AllRuns(lines: seq<string>, n: nat): seq<NumberMatch>
    requires n <= |lines|
  {
    if n == 0 then [] else AllRuns(lines, n - 1) + RowRuns(lines[n - 1], n - 1)
  }

  /** `m` is a maximal run of digits of `line`, and its value is their decimal
      reading. */
  predicate IsRun(line: string, m: NumberMatch) {
    && m.size >= 1
    && m.x + m.size <= |line|
    && (forall j :: m.x <= j < m.x + m.size ==> IsDigit(line[j]))
    && (m.x == 0 || !IsDigit(line[m.x - 1]))
    && (m.x + m.size == |line| || !IsDigit(line[m.x + m.size]))
    && AllDigits(line[m.x..m.x + m.size])
    && m.value == DecimalValue(line[m.x..m.x + m.size])
  }

  /** Run `m` covers the cell at column `x` of row `y`. */
  predicate Covers(m: NumberMatch, x: nat, y: nat) {
    m.y == y && m.x <= x < m.x + m.size
  }

  /** The runs of one row from a column not inside a run are maximal runs of
      digits at or after that column. */
  lemma {:induction false} RunsFromAreRuns(line: string, y: nat, i: nat)
    requires i <= |line|
    requires i == 0 || !IsDigit(line[i - 1])
    ensures forall k :: 0 <= k < |RunsFrom(line, y, i)| ==>
      RunsFrom(line, y, i)[k].y == y && i <= RunsFrom(line, y, i)[k].x && IsRun(line, RunsFrom(line, y, i)[k])
    decreases |line| - i
  {
    if i == |line| {
    } else if !IsDigit(line[i]) {
      RunsFromAreRuns(line, y, i + 1);
    } else {
      var e := RunEnd(line, i);
      DigitsSlice(line, i, e);
      var r, rest := RunsFrom(line, y, i), RunsFrom(line, y, e);
      var head := NumberMatch(i, y, DecimalValue(line[i..e]), e - i);
      assert IsRun(line, head);
      if e < |line| {
        RunsFromAreRuns(line, y, e + 1);
        assert rest == RunsFrom(line, y, e + 1);
      }
      assert r == [head] + rest;
      forall k | 0 <= k < |r|
        ensures r[k].y == y && i <= r[k].x && IsRun(line, r[k])
      {
        if k > 0 {
          assert r[k] == rest[k - 1];
        }
      }
    }
  }

  /** Consecutive runs of a row are separated by at least one non-digit. */
  lemma {:induction false} RunsFromSeparated(line: string, y: nat, i: nat)
    requires i <= |line|
    ensures forall k :: 0 <= k < |RunsFrom(line, y, i)| ==>
      i <= RunsFrom(line, y, i)[k].x < |line| && IsDigit(line[RunsFrom(line, y, i)[k].x])
    ensures forall k1, k2 :: 0 <= k1 < k2 < |RunsFrom(line, y, i)| ==>
      RunsFrom(line, y, i)[k1].x + RunsFrom(line, y, i)[k1].size < RunsFrom(line, y, i)[k2].x
    decreases |line| - i
  {
    if i == |line| {
    } else if !IsDigit(line[i]) {
      RunsFromSeparated(line, y, i + 1);
    } else {
      var e := RunEnd(line, i);
      RunsFromSeparated(line, y, e);
      var r := RunsFrom(line, y, i);
      var rest := RunsFrom(line, y, e);
      assert r[0].x == i && r[0].size == e - i;
      forall k | 0 < k < |r|
        ensures r[k] == rest[k - 1] && e < r[k].x
      {
      }
    }
  }

  /** The digit at column `j` of a row lies in one of the runs found from any
      column `i` up to `j`. */
  lemma {:induction false} RunsFromCoverAt(line: string, y: nat, i: nat, j: nat)
    requires i <= j < |line| && IsDigit(line[j])
    ensures CoveredBy(RunsFrom(line, y, i), j, y)
    decreases |line| - i
  {
    var r := RunsFrom(line, y, i);
    if !IsDigit(line[i]) {
      RunsFromCoverAt(line, y, i + 1, j);
      assert r == RunsFrom(line, y, i + 1);
    } else {
      var e := RunEnd(line, i);
      var rest := RunsFrom(line, y, e);
      assert r == [NumberMatch(i, y, DecimalValue(line[i..e]), e - i)] + rest;
      if j < e {
        assert Covers(r[0], j, y);
      } else {
        RunsFromCoverAt(line, y, e, j);
        var k' :| 0 <= k' < |rest| && Covers(rest[k'], j, y);
        assert r[k' + 1] == rest[k'];
      }
    }
  }

  /** Some run of `runs` covers the cell at column `x` of row `y`. */
  predicate CoveredBy(runs: seq<NumberMatch>, x: nat, y: nat) {
    exists k :: 0 <= k < |runs| && Covers(runs[k], x, y)
  }

  /** The runs of a row from column `i` cover every digit at or after `i`. */
  lemma RunsFromCover(line: string, y: nat, i: nat)
    requires i <= |line|
    ensures forall j: nat :: i <= j < |line| && IsDigit(line[j]) ==> CoveredBy(RunsFrom(line, y, i), j, y)
  {
    forall j: nat | i <= j < |line| && IsDigit(line[j])
      ensures CoveredBy(RunsFrom(line, y, i), j, y)
    {
      RunsFromCoverAt(line, y, i, j);
    }
  }

  /** Every run of the grid is a maximal run of digits of its own row. */
  lemma {:induction false} AllRunsAreRuns(lines: seq<string>, n: nat)
    requires n <= |lines|
    ensures forall k :: 0 <= k < |AllRuns(lines, n)| ==>
      AllRuns(lines, n)[k].y < n && IsRun(lines[AllRuns(lines, n)[k].y], AllRuns(lines, n)[k])
  {
    if n > 0 {
      AllRunsAreRuns(lines, n - 1);
      RunsFromAreRuns(lines[n - 1], n - 1, 0);
    }
  }

  /** The runs of the grid come in row-major order without overlapping. */
  lemma {:induction false} AllRunsOrdered(lines: seq<string>, n: nat)
    requires n <= |lines|
    ensures forall k :: 0 <= k < |AllRuns(lines, n)| ==> AllRuns(lines, n)[k].y < n
    ensures forall k1, k2 :: 0 <= k1 < k2 < |AllRuns(lines, n)| ==>
      Before(AllRuns(lines, n)[k1], AllRuns(lines, n)[k2])
  {
    if n > 0 {
      AllRunsOrdered(lines, n - 1);
      RunsFromAreRuns(lines[n - 1], n - 1, 0);
      RunsFromSeparated(lines[n - 1], n - 1, 0);
      var prev := AllRuns(lines, n - 1);
      var row := RowRuns(lines[n - 1], n - 1);
      var r := prev + row;
      forall k1, k2 | 0 <= k1 < k2 < |r|
        ensures Before(r[k1], r[k2])
      {
        if k2 < |prev| {
          assert r[k1] == prev[k1] && r[k2] == prev[k2];
        } else if k1 < |prev| {
          assert r[k1] == prev[k1] && r[k2] == row[k2 - |prev|];
        } else {
          assert r[k1] == row[k1 - |prev|] && r[k2] == row[k2 - |prev|];
        }
      }
    }
  }

  /** The runs of the grid cover every digit cell. */
  lemma {:induction false} AllRunsCover(lines: seq<string>, n: nat)
    requires n <= |lines|
    ensures forall y: nat, j: nat :: y < n && j < |lines[y]| && IsDigit(lines[y][j]) ==>
      exists k :: 0 <= k < |AllRuns(lines, n)| && Covers(AllRuns(lines, n)[k], j, y)
  {
    if n > 0 {
      AllRunsCover(lines, n - 1);
      RunsFromCover(lines[n - 1], n - 1, 0);
      var prev := AllRuns(lines, n - 1);
      var row := RowRuns(lines[n - 1], n - 1);
      var r := prev + row;
      assert r == AllRuns(lines, n);
      forall y: nat, j: nat | y < n && j < |lines[y]| && IsDigit(lines[y][j])
        ensures exists k :: 0 <= k < |r| && Covers(r[k], j, y)
      {
        if y < n - 1 {
          var k :| 0 <= k < |prev| && Covers(prev[k], j, y);
          assert r[k] == prev[k];
        } else {
          var k :| 0 <= k < |row| && Covers(row[k], j, y);
          assert r[|prev| + k] == row[k];
        }
      }
    }
  }

  /** Run `a` ends strictly before run `b` starts, in row-major order. */
  predicate Before(a: NumberMatch, b: NumberMatch) {
    a.y < b.y || (a.y == b.y && a.x + a.size < b.x)
  }

  /** Every digit cell of the grid belongs to exactly one run. */
  lemma CoveredExactlyOnce(lines: seq<string>, x: nat, y: nat)
    requires y < |lines| && x < |lines[y]| && IsDigit(lines[y][x])
    ensures exists k :: 0 <= k < |AllRuns(lines, |lines|)| && Covers(AllRuns(lines, |lines|)[k], x, y)
    ensures forall k1, k2 ::
      (0 <= k1 < |AllRuns(lines, |lines|)| && 0 <= k2 < |AllRuns(lines, |lines|)|
       && Covers(AllRuns(lines, |lines|)[k1], x, y) && Covers(AllRuns(lines, |lines|)[k2], x, y)) ==> k1 == k2
  {
    AllRunsCover(lines, |lines|);
    AllRunsOrdered(lines, |lines|);
    var r := AllRuns(lines, |lines|);
    forall k1, k2 | 0 <= k1 < |r| && 0 <= k2 < |r| && Covers(r[k1], x, y) && Covers(r[k2], x, y)
      ensures k1 == k2
    {
      assert !Before(r[k1], r[k2]) && !Before(r[k2], r[k1]);
    }
  }

  /** `Schematic::numbers` (src/day3.rs:14-61): scans the rows in order. */
  method Numbers(s: Schematic) returns (result: seq<NumberMatch>)
    ensures result == AllRuns(s.lines, |s.lines|)
  {
    result := [];
    for y := 0 to |s.lines|
      invariant result == AllRuns(s.lines, y)
    {
      result := ScanRow(s.lines[y], y, result);
    }
  }

  /** The inner loop of `Schematic::numbers` (src/day3.rs:18-57): scans row `y`
      left to right, growing the current run on a digit and pushing it onto
      `result` at a non-digit or at the row's last character. */
  method ScanRow(line: string, y: nat, prefix: seq<NumberMatch>) returns (result: seq<NumberMatch>)
    ensures result == prefix + RowRuns(line, y)
  {
    result := prefix;
    var current: Option<NumberMatch> := None;
    for x := 0 to |line|
      invariant current.None? ==> prefix + RowRuns(line, y) == result + RunsFrom(line, y, x)
      invariant current.Some? ==>
        (InRun(line, y, x, current.value) && prefix + RowRuns(line, y) == result + RunsFrom(line, y, current.value.x))
    {
      var check := false;
      var c := line[x];
      if IsDigit(c) {
        var digit := DigitValue(c);
        if current.Some? {
          var m := current.value;
          GrowRun(line, y, x, m);
          current := Some(NumberMatch(m.x, y, m.value * 10 + digit, m.size + 1));
        } else {
          StartRun(line, y, x);
          current := Some(NumberMatch(x, y, digit, 1));
        }
        assert ReadRun(line, y, x + 1, current.value);
      } else {
        check := true;
        if current.None? {
          SkipNonDigit(line, y, x);
        }
      }
      if x == |line| - 1 {
        check := true;
      }
      if check && current.Some? {
        var m := current.value;
        EmitRun(line, y, x, m, prefix + RowRuns(line, y), result);
        result := result + [m];
        current := None;
      }
    }
    assert result + RunsFrom(line, y, |line|) == result;
  }

  /** Reading one more digit: the value of a run of digits is ten times the
      value without its last digit, plus that digit. */
  lemma ExtendRun(line: string, a: nat, b: nat)
    requires a < b <= |line|
    requires forall j :: a <= j < b ==> IsDigit(line[j])
    ensures AllDigits(line[a..b - 1]) && AllDigits(line[a..b])
    ensures DecimalValue(line[a..b]) == 10 * DecimalValue(line[a..b - 1]) + DigitValue(line[b - 1])
  {
    DigitsSlice(line, a, b);
    DigitsSlice(line, a, b - 1);
    assert line[a..b][..b - 1 - a] == line[a..b - 1];
  }

  /** A run of digits from `start` ending at `e` is the first run found from
      `start`, and the scan goes on past the non-digit that ends it. */
  lemma CloseRun(line: string, y: nat, start: nat, e: nat)
    requires start < e <= |line|
    requires forall j :: start <= j < e ==> IsDigit(line[j])
    requires e == |line| || !IsDigit(line[e])
    ensures AllDigits(line[start..e])
    ensures RunsFrom(line, y, start) ==
      [NumberMatch(start, y, DecimalValue(line[start..e]), e - start)] + RunsFrom(line, y, if e < |line| then e + 1 else e)
  {
    RunEndUnique(line, start, e);
    DigitsSlice(line, start, e);
    if e < |line| {
      assert RunsFrom(line, y, e) == RunsFrom(line, y, e + 1);
    }
  }

  /** `m` holds the digits of the row from its start up to column `e`
      (exclusive), with their decimal value. */
  predicate ReadRun(line: string, y: nat, e: nat, m: NumberMatch) {
    && m.y == y
    && m.x < e <= |line|
    && m.size == e - m.x
    && (forall j :: m.x <= j < e ==> IsDigit(line[j]))
    && AllDigits(line[m.x..e])
    && m.value == DecimalValue(line[m.x..e])
  }

  /** The state of the row scan inside a run: `m` holds the digits up to
      column `x`, which is not past the row. */
  predicate InRun(line: string, y: nat, x: nat, m: NumberMatch) {
    x < |line| && ReadRun(line, y, x, m)
  }

  /** Pushing the run that ends at or just before column `x` leaves the runs
      after `x` still to be found. */
  lemma EmitRun(line: string, y: nat, x: nat, m: NumberMatch, whole: seq<NumberMatch>, done: seq<NumberMatch>)
    requires x < |line|
    requires (ReadRun(line, y, x, m) && !IsDigit(line[x])) || (ReadRun(line, y, x + 1, m) && x + 1 == |line|)
    requires whole == done + RunsFrom(line, y, m.x)
    ensures whole == (done + [m]) + RunsFrom(line, y, x + 1)
  {
    if ReadRun(line, y, x, m) && !IsDigit(line[x]) {
      EndRun(line, y, x, m);
    } else {
      EndRun(line, y, x + 1, m);
    }
  }

  /** A non-digit outside a run is skipped. */
  lemma SkipNonDigit(line: string, y: nat, x: nat)
    requires x < |line| && !IsDigit(line[x])
    ensures RunsFrom(line, y, x) == RunsFrom(line, y, x + 1)
  {
  }

  /** A digit with no run open starts a run of one digit. */
  lemma StartRun(line: string, y: nat, x: nat)
    requires x < |line| && IsDigit(line[x])
    ensures ReadRun(line, y, x + 1, NumberMatch(x, y, DigitValue(line[x]), 1))
  {
    ExtendRun(line, x, x + 1);
    assert line[x..x] == [];
  }

  /** A digit inside an open run extends it by one digit. */
  lemma GrowRun(line: string, y: nat, x: nat, m: NumberMatch)
    requires InRun(line, y, x, m) && IsDigit(line[x])
    ensures ReadRun(line, y, x + 1, NumberMatch(m.x, y, m.value * 10 + DigitValue(line[x]), m.size + 1))
  {
    ExtendRun(line, m.x, x + 1);
  }

  /** An open run that stops at a non-digit or at the end of the row is the
      next run reported. */
  lemma EndRun(line: string, y: nat, e: nat, m: NumberMatch)
    requires ReadRun(line, y, e, m) && (e == |line| || !IsDigit(line[e]))
    ensures RunsFrom(line, y, m.x) == [m] + RunsFrom(line, y, if e < |line| then e + 1 else e)
  {
    CloseRun(line, y, m.x, e);
  }

  lemma {:induction false} RunEndUnique(line: string, i: nat, e: nat)
    requires i <= e <= |line|
    requires forall j :: i <= j < e ==> IsDigit(line[j])
    requires e == |line| || !IsDigit(line[e])
    ensures RunEnd(line, i) == e
    decreases e - i
  {
    if i < e {
      RunEndUnique(line, i + 1, e);
    }
  }

  // ---------------------------------------------------------------------------
  // Stars

  /** The '*' cells among the first `n` columns of row `y`, left to right. */
  function StarsIn(line: string, y: nat, n: nat): seq<StarMatch>
    requires n <= |line|
  {
    if n == 0 then []
    else StarsIn(line, y, n - 1) + (if line[n - 1] == '*' then [StarMatch(n - 1, y)] else [])
  }

  /** The '*' cells of rows `0 .. n-1`, in row-major order. */
  function AllStars(lines: seq<string>, n: nat): seq<StarMatch>
    requires n <= |lines|
  {
    if n == 0 then [] else AllStars(lines, n - 1) + StarsIn(lines[n - 1], n - 1, |lines[n - 1]|)
  }

  lemma {:induction false} StarsInFacts(line: string, y: nat, n: nat)
    requires n <= |line|
    ensures forall m :: m in StarsIn(line, y, n) <==> m.y == y && m.x < n && line[m.x] == '*'
    ensures forall k1, k2 :: 0 <= k1 < k2 < |StarsIn(line, y, n)| ==> StarsIn(line, y, n)[k1].x < StarsIn(line, y, n)[k2].x
    ensures forall k :: 0 <= k < |StarsIn(line, y, n)| ==> StarsIn(line, y, n)[k].x < n
  {
    if n > 0 {
      StarsInFacts(line, y, n - 1);
    }
  }

  /** `stars()` finds exactly the '*' cells, in strictly row-major order. */
  lemma {:induction false} AllStarsFacts(lines: seq<string>, n: nat)
    requires n <= |lines|
    ensures forall m :: m in AllStars(lines, n) <==> m.y < n && Get(Schematic(lines), m.x, m.y) == Some('*')
    ensures forall k1, k2 :: 0 <= k1 < k2 < |AllStars(lines, n)| ==>
      var a, b := AllStars(lines, n)[k1], AllStars(lines, n)[k2]; a.y < b.y || (a.y == b.y && a.x < b.x)
    ensures forall k :: 0 <= k < |AllStars(lines, n)| ==> AllStars(lines, n)[k].y < n
  {
    if n > 0 {
      AllStarsFacts(lines, n - 1);
      StarsInFacts(lines[n - 1], n - 1, |lines[n - 1]|);
      var row := StarsIn(lines[n - 1], n - 1, |lines[n - 1]|);
      forall k | 0 <= k < |row| ensures row[k].y == n - 1 {
        assert row[k] in row;
      }
    }
  }

  /** `Schematic::stars` (src/day3.rs:63-80). */
  method Stars(s: Schematic) returns (result: seq<StarMatch>)
    ensures result == AllStars(s.lines, |s.lines|)
  {
    result := [];
    for y := 0 to |s.lines|
      invariant result == AllStars(s.lines, y)
    {
      var line := s.lines[y];
      for x := 0 to |line|
        invariant result == AllStars(s.lines, y) + StarsIn(line, y, x)
      {
        if line[x] == '*' {
          result := result + [StarMatch(x, y)];
        }
      }
    }
  }

  // ---------------------------------------------------------------------------
  // Neighbours

  /** The eight offsets of `is_neighbor_of` and `is_next_to_symbol`. */
  const NeighborDeltas: seq<(int, int)> :=
    [(-1, 1), (0, 1), (1, 1), (-1, 0), (1, 0), (-1, -1), (0, -1), (1, -1)]

  /** The offset table is exactly the eight cells around a cell. */
  lemma NeighborIffTouching(x1: int, y1: int, x2: int, y2: int)
    ensures (exists k :: 0 <= k < |NeighborDeltas| && x1 + NeighborDeltas[k].0 == x2 && y1 + NeighborDeltas[k].1 == y2) <==>
      -1 <= x2 - x1 <= 1 && -1 <= y2 - y1 <= 1 && (x1 != x2 || y1 != y2)
  {
    var dx, dy := x2 - x1, y2 - y1;
    if -1 <= dx <= 1 && -1 <= dy <= 1 && (dx != 0 || dy != 0) {
      var k :=
        if dy == 1 then dx + 1
        else if dy == 0 then (if dx == -1 then 3 else 4)
        else dx + 6;
      assert NeighborDeltas[k] == (dx, dy);
    }
  }

  /** `is_neighbor_of` (src/day3.rs:191-209): some offset of the table leads
      from the first cell to the second, that is, the second cell is one of
      the eight around the first. */
  predicate IsNeighborOf(x1: int, y1: int, x2: int, y2: int): (b: bool)
    ensures b <==> -1 <= x2 - x1 <= 1 && -1 <= y2 - y1 <= 1 && (x1 != x2 || y1 != y2)
  {
    NeighborIffTouching(x1, y1, x2, y2);
    exists k :: 0 <= k < |NeighborDeltas| && x1 + NeighborDeltas[k].0 == x2 && y1 + NeighborDeltas[k].1 == y2
  }

  lemma NeighborSymmetric(x1: int, y1: int, x2: int, y2: int)
    ensures IsNeighborOf(x1, y1, x2, y2) <==> IsNeighborOf(x2, y2, x1, y1)
  {
    NeighborIffTouching(x1, y1, x2, y2);
    NeighborIffTouching(x2, y2, x1, y1);
  }

  lemma NeighborIrreflexive(x: int, y: int)
    ensures !IsNeighborOf(x, y, x, y)
  {
    NeighborIffTouching(x, y, x, y);
  }

  /** There is a symbol at this cell, which lies inside the grid. */
  predicate SymbolAt(s: Schematic, x: int, y: int) {
    x >= 0 && y >= 0 && Get(s, x, y).Some? && IsSymbol(Get(s, x, y).value)
  }

  /** Some cell of the run of `size` cells at (`x`, `y`) has a neighbour
      holding a symbol. */
  ghost predicate NextToSymbol(s: Schematic, x: nat, y: nat, size: nat) {
    exists cx: int, nx: int, ny: int :: x <= cx < x + size && IsNeighborOf(cx, y, nx, ny) && SymbolAt(s, nx, ny)
  }

  /** `is_next_to_symbol` (src/day3.rs:145-185): tries every offset from every
      cell of the run, skipping negative coordinates, and stops at the first
      symbol. */
  method IsNextToSymbol(x: nat, y: nat, size: nat, s: Schematic) returns (found: bool)
    requires size > 0
    ensures found == NextToSymbol(s, x, y, size)
  {
    for cx := x to x + size
      invariant forall c: int, nx: int, ny: int :: x <= c < cx && IsNeighborOf(c, y, nx, ny) ==> !SymbolAt(s, nx, ny)
    {
      for k := 0 to |NeighborDeltas|
        invariant forall j :: 0 <= j < k ==> !SymbolAt(s, cx + NeighborDeltas[j].0, y + NeighborDeltas[j].1)
      {
        var (dx, dy) := NeighborDeltas[k];
        var nx, ny := cx + dx, y + dy;
        if nx >= 0 && ny >= 0 {
          var c := Get(s, nx, ny);
          if c.Some? && IsSymbol(c.value) {
            assert IsNeighborOf(cx, y, nx, ny);
            return true;
          }
        }
      }
    }
    return false;
  }

  // ---------------------------------------------------------------------------
  // Part 1

  /** The sum of the values of the runs next to a symbol. */
  ghost function SymbolRunSum(s: Schematic, runs: seq<NumberMatch>): nat {
    if |runs| == 0 then 0
    else
      var m := runs[|runs| - 1];
      SymbolRunSum(s, runs[..|runs| - 1]) + (if NextToSymbol(s, m.x, m.y, m.size) then m.value else 0)
  }

  /** Adding the next run to the prefix adds its value when it is next to a
      symbol. */
  lemma SymbolRunSumStep(s: Schematic, runs: seq<NumberMatch>, i: nat)
    requires i < |runs|
    ensures SymbolRunSum(s, runs[..i + 1]) == SymbolRunSum(s, runs[..i]) +
      (if NextToSymbol(s, runs[i].x, runs[i].y, runs[i].size) then runs[i].value else 0)
  {
    assert runs[..i + 1][..i] == runs[..i];
  }

  /** `part1_result` (src/day3.rs:127-143). */
  method Part1Result(lines: seq<string>) returns (result: nat)
    ensures result == SymbolRunSum(Schematic(lines), AllRuns(lines, |lines|))
  {
    result := 0;
    var schematic := Schematic(lines);
    var numbers := Numbers(schematic);
    AllRunsAreRuns(lines, |lines|);
    for i := 0 to |numbers|
      invariant result == SymbolRunSum(schematic, numbers[..i])
    {
      var number := numbers[i];
      SymbolRunSumStep(schematic, numbers, i);
      var near := IsNextToSymbol(number.x, number.y, number.size, schematic);
      if near {
        result := result + number.value;
      }
    }
    assert numbers[..|numbers|] == numbers;
  }

  /** A grid without symbols scores 0 in part 1, whatever its numbers. */
  lemma {:induction false} NoSymbolNoSum(s: Schematic, runs: seq<NumberMatch>)
    requires forall y, x :: 0 <= y < |s.lines| && 0 <= x < |s.lines[y]| ==> !IsSymbol(s.lines[y][x])
    ensures SymbolRunSum(s, runs) == 0
  {
    if |runs| > 0 {
      NoSymbolNoSum(s, runs[..|runs| - 1]);
      var m := runs[|runs| - 1];
      assert forall nx: int, ny: int :: !SymbolAt(s, nx, ny);
    }
  }

  // ---------------------------------------------------------------------------
  // Part 2

  /** Some cell of run `m` is a neighbour of the cell (`x`, `y`). */
  predicate Adjacent(m: NumberMatch, x: int, y: int) {
    exists cx: int :: m.x <= cx < m.x + m.size && IsNeighborOf(cx, m.y, x, y)
  }

  /** A run is adjacent to a cell exactly when the cell lies in the box one
      cell wider than the run on every side, and not on the run itself. */
  lemma AdjacentIffInBox(m: NumberMatch, x: int, y: int)
    requires m.size >= 1
    requires !(y == m.y && m.x <= x < m.x + m.size)
    ensures Adjacent(m, x, y) <==> InBox(m, x, y)
  {
    if Adjacent(m, x, y) {
      var cx :| m.x <= cx < m.x + m.size && IsNeighborOf(cx, m.y, x, y);
      NeighborIffTouching(cx, m.y, x, y);
    }
    if InBox(m, x, y) {
      var cx := if x < m.x then m.x else if x >= m.x + m.size then m.x + m.size - 1 else x;
      NeighborIffTouching(cx, m.y, x, y);
      assert IsNeighborOf(cx, m.y, x, y);
    }
  }

  /** (`x`, `y`) lies in the box one cell wider than run `m` on every side. */
  predicate InBox(m: NumberMatch, x: int, y: int) {
    m.y - 1 <= y <= m.y + 1 && m.x - 1 <= x <= m.x + m.size
  }

  /** The values of the runs that `keep` accepts, in the order of `runs`. */
  function ValuesWhere(keep: NumberMatch -> bool, runs: seq<NumberMatch>): (r: seq<nat>)
    ensures |r| <= |runs|
    ensures |r| == 0 <==> forall k :: 0 <= k < |runs| ==> !keep(runs[k])
    ensures forall i :: 0 <= i < |r| ==> exists k :: 0 <= k < |runs| && keep(runs[k]) && runs[k].value == r[i]
  {
    if |runs| == 0 then []
    else
      var init := ValuesWhere(keep, runs[..|runs| - 1]);
      var m := runs[|runs| - 1];
      assert forall k :: 0 <= k < |runs| - 1 ==> runs[..|runs| - 1][k] == runs[k];
      if keep(m) then init + [m.value] else init
  }

  /** The indices of the runs that `keep` accepts. */
  ghost function Kept(keep: NumberMatch -> bool, runs: seq<NumberMatch>): set<nat> {
    set k: nat | k < |runs| && keep(runs[k])
  }

  lemma KeptSnoc(keep: NumberMatch -> bool, runs: seq<NumberMatch>)
    requires |runs| > 0
    ensures var n := |runs| - 1;
      |Kept(keep, runs)| == |Kept(keep, runs[..n])| + (if keep(runs[n]) then 1 else 0)
  {
    var n := |runs| - 1;
    assert forall k :: 0 <= k < n ==> runs[..n][k] == runs[k];
    assert n !in Kept(keep, runs[..n]);
    assert Kept(keep, runs) == Kept(keep, runs[..n]) + (if keep(runs[n]) then {n} else {});
  }

  /** There is one value per accepted run. */
  lemma {:induction false} ValuesWhereCount(keep: NumberMatch -> bool, runs: seq<NumberMatch>)
    ensures |ValuesWhere(keep, runs)| == |Kept(keep, runs)|
  {
    if |runs| > 0 {
      ValuesWhereCount(keep, runs[..|runs| - 1]);
      KeptSnoc(keep, runs);
    }
  }

  /** Every accepted run contributes its value. */
  lemma {:induction false} ValuesWhereComplete(keep: NumberMatch -> bool, runs: seq<NumberMatch>)
    ensures forall k :: 0 <= k < |runs| && keep(runs[k]) ==> runs[k].value in ValuesWhere(keep, runs)
  {
    if |runs| > 0 {
      var n := |runs| - 1;
      ValuesWhereComplete(keep, runs[..n]);
      assert forall k :: 0 <= k < n ==> runs[..n][k] == runs[k];
    }
  }

  /** The values keep the order of the runs. */
  lemma {:induction false} ValuesWhereAppend(keep: NumberMatch -> bool, a: seq<NumberMatch>, b: seq<NumberMatch>)
    ensures ValuesWhere(keep, a + b) == ValuesWhere(keep, a) + ValuesWhere(keep, b)
    decreases |b|
  {
    if |b| > 0 {
      var n := |b| - 1;
      ValuesWhereAppend(keep, a, b[..n]);
      assert (a + b)[..|a + b| - 1] == a + b[..n];
    } else {
      assert a + b == a;
    }
  }

  /** The values of the runs adjacent to (`x`, `y`), in the order of `runs`. */
  function AdjacentValues(runs: seq<NumberMatch>, x: int, y: int): (r: seq<nat>)
    ensures |r| <= |runs|
    ensures |r| == 0 <==> forall k :: 0 <= k < |runs| ==> !Adjacent(runs[k], x, y)
    ensures forall i :: 0 <= i < |r| ==> exists k :: 0 <= k < |runs| && Adjacent(runs[k], x, y) && runs[k].value == r[i]
  {
    ValuesWhere(m => Adjacent(m, x, y), runs)
  }

  /** The indices of the runs that touch (`x`, `y`). */
  ghost function TouchingRuns(runs: seq<NumberMatch>, x: int, y: int): set<nat> {
    set k: nat | k < |runs| && Adjacent(runs[k], x, y)
  }

  /** Every run that touches the cell contributes its value, there is one
      value per touching run, and the values keep the order of the runs:
      those of a concatenation are those of each part in turn. */
  lemma AdjacentValuesComplete(runs: seq<NumberMatch>, x: int, y: int)
    ensures |AdjacentValues(runs, x, y)| == |TouchingRuns(runs, x, y)|
    ensures forall k :: 0 <= k < |runs| && Adjacent(runs[k], x, y) ==> runs[k].value in AdjacentValues(runs, x, y)
    ensures forall a, b :: runs == a + b ==> AdjacentValues(runs, x, y) == AdjacentValues(a, x, y) + AdjacentValues(b, x, y)
  {
    var keep := m => Adjacent(m, x, y);
    ValuesWhereCount(keep, runs);
    assert Kept(keep, runs) == TouchingRuns(runs, x, y);
    ValuesWhereComplete(keep, runs);
    forall a, b | runs == a + b
      ensures AdjacentValues(runs, x, y) == AdjacentValues(a, x, y) + AdjacentValues(b, x, y)
    {
      AdjacentValuesAppend(a, b, x, y);
    }
  }

  lemma AdjacentValuesAppend(a: seq<NumberMatch>, b: seq<NumberMatch>, x: int, y: int)
    ensures AdjacentValues(a + b, x, y) == AdjacentValues(a, x, y) + AdjacentValues(b, x, y)
  {
    ValuesWhereAppend(m => Adjacent(m, x, y), a, b);
  }

  /** A single run contributes its value exactly when it touches the cell. */
  lemma AdjacentValuesOne(m: NumberMatch, x: int, y: int)
    ensures AdjacentValues([m], x, y) == if Adjacent(m, x, y) then [m.value] else []
  {
    assert [m][..0] == [];
  }

  /** `numbers_for_gear` (src/day3.rs:82-93): the values of the numbers
      touching the '*' at (`x`, `y`), which the source asserts is a '*'. */
  function NumbersForGear(s: Schematic, x: nat, y: nat): (r: seq<nat>)
    requires Get(s, x, y) == Some('*')
    ensures |r| == |TouchingRuns(AllRuns(s.lines, |s.lines|), x, y)|
    ensures var runs := AllRuns(s.lines, |s.lines|);
      forall k :: 0 <= k < |runs| && Adjacent(runs[k], x, y) ==> runs[k].value in r
  {
    AdjacentValuesComplete(AllRuns(s.lines, |s.lines|), x, y);
    AdjacentValues(AllRuns(s.lines, |s.lines|), x, y)
  }

  /** Every number reported for a gear lies within one row of it and its run's
      box reaches the gear's column. */
  lemma GearNumbersNear(s: Schematic, x: nat, y: nat, i: nat)
    requires Get(s, x, y) == Some('*')
    requires i < |NumbersForGear(s, x, y)|
    ensures exists k ::
      (&& 0 <= k < |AllRuns(s.lines, |s.lines|)|
       && AllRuns(s.lines, |s.lines|)[k].value == NumbersForGear(s, x, y)[i]
       && InBox(AllRuns(s.lines, |s.lines|)[k], x, y))
  {
    var runs := AllRuns(s.lines, |s.lines|);
    var k :| 0 <= k < |runs| && Adjacent(runs[k], x, y) && runs[k].value == NumbersForGear(s, x, y)[i];
    AllRunsAreRuns(s.lines, |s.lines|);
    AdjacentIffInBox(runs[k], x, y);
  }

  /** The sum of the gear ratios: for each star touching exactly two numbers,
      their product. */
  function GearRatioSum(s: Schematic, stars: seq<StarMatch>): nat
    requires AreStars(s, stars)
  {
    if |stars| == 0 then 0
    else GearRatioSum(s, stars[..|stars| - 1]) + GearRatio(s, stars[|stars| - 1])
  }

  /** The product of the two numbers touching a star, or 0 unless exactly two
      numbers touch it. */
  function GearRatio(s: Schematic, star: StarMatch): nat
    requires Get(s, star.x, star.y) == Some('*')
  {
    PairProduct(NumbersForGear(s, star.x, star.y))
  }

  /** The product of exactly two numbers, and 0 for any other count. */
  function PairProduct(numbers: seq<nat>): nat {
    if |numbers| == 2 then numbers[0] * numbers[1] else 0
  }

  predicate AreStars(s: Schematic, stars: seq<StarMatch>) {
    forall k :: 0 <= k < |stars| ==> Get(s, stars[k].x, stars[k].y) == Some('*')
  }

  lemma AreStarsPrefix(s: Schematic, stars: seq<StarMatch>, n: nat)
    requires AreStars(s, stars) && n <= |stars|
    ensures AreStars(s, stars[..n])
  {
    assert forall k :: 0 <= k < n ==> stars[..n][k] == stars[k];
  }

  /** Adding the next star to the prefix adds its gear ratio. */
  lemma GearRatioSumStep(s: Schematic, stars: seq<StarMatch>, i: nat)
    requires AreStars(s, stars) && i < |stars|
    ensures AreStars(s, stars[..i]) && AreStars(s, stars[..i + 1])
    ensures GearRatioSum(s, stars[..i + 1]) == GearRatioSum(s, stars[..i]) + GearRatio(s, stars[i])
  {
    AreStarsPrefix(s, stars, i);
    AreStarsPrefix(s, stars, i + 1);
    assert stars[..i + 1][..i] == stars[..i];
  }

  /** `stars()` yields only '*' cells. */
  lemma StarsAreStars(lines: seq<string>)
    ensures AreStars(Schematic(lines), AllStars(lines, |lines|))
  {
    var stars := AllStars(lines, |lines|);
    AllStarsFacts(lines, |lines|);
    forall k | 0 <= k < |stars| ensures Get(Schematic(lines), stars[k].x, stars[k].y) == Some('*') {
      assert stars[k] in stars;
    }
  }

  /** `part2_result` (src/day3.rs:211-224). */
  method Part2Result(lines: seq<string>) returns (result: nat)
    ensures AreStars(Schematic(lines), AllStars(lines, |lines|))
    ensures result == GearRatioSum(Schematic(lines), AllStars(lines, |lines|))
  {
    result := 0;
    var schematic := Schematic(lines);
    var stars := Stars(schematic);
    StarsAreStars(lines);
    AreStarsPrefix(schematic, stars, 0);
    for i := 0 to |stars|
      invariant AreStars(schematic, stars[..i])
      invariant result == GearRatioSum(schematic, stars[..i])
    {
      var star := stars[i];
      GearRatioSumStep(schematic, stars, i);
      var numbers := NumbersForGear(schematic, star.x, star.y);
      if |numbers| == 2 {
        result := result + numbers[0] * numbers[1];
      }
    }
    assert stars[..|stars|] == stars;
  }

  // ---------------------------------------------------------------------------
  // Vectors from the unit tests (src/day3.rs:226-256)

  /** "123" has no symbol, so it scores 0. */
  lemma Part1ExampleNoSymbol()
    ensures SymbolRunSum(Schematic(["123"]), AllRuns(["123"], 1)) == 0
  {
    NoSymbolNoSum(Schematic(["123"]), AllRuns(["123"], 1));
  }

  /** "123*": the whole number touches the star through its last digit. */
  lemma Part1ExampleTrailingStar()
    ensures SymbolRunSum(Schematic(["123*"]), AllRuns(["123*"], 1)) == 123
  {
    var line := "123*";
    var s := Schematic([line]);
    CloseRun(line, 0, 0, 3);
    assert line[0..3] == "123";
    assert DecimalValue("123") == 123 by {
      assert "123"[..2] == "12" && "12"[..1] == "1" && "1"[..0] == [];
    }
    assert AllRuns([line], 1) == AllRuns([line], 0) + RowRuns(line, 0);
    assert AllRuns([line], 1) == [NumberMatch(0, 0, 123, 3)];
    assert NeighborDeltas[4] == (1, 0);
    assert IsNeighborOf(2, 0, 3, 0);
    assert SymbolAt(s, 3, 0);
    assert NextToSymbol(s, 0, 0, 3);
    assert [NumberMatch(0, 0, 123, 3)][..0] == [];
  }

  /** "*123": the whole number touches the star through its first digit. */
  lemma Part1ExampleLeadingStar()
    ensures SymbolRunSum(Schematic(["*123"]), AllRuns(["*123"], 1)) == 123
  {
    var line := "*123";
    var s := Schematic([line]);
    assert RunsFrom(line, 0, 0) == RunsFrom(line, 0, 1);
    CloseRun(line, 0, 1, 4);
    assert line[1..4] == "123";
    assert DecimalValue("123") == 123 by {
      assert "123"[..2] == "12" && "12"[..1] == "1" && "1"[..0] == [];
    }
    assert AllRuns([line], 1) == AllRuns([line], 0) + RowRuns(line, 0);
    assert AllRuns([line], 1) == [NumberMatch(1, 0, 123, 3)];
    assert NeighborDeltas[3] == (-1, 0);
    assert IsNeighborOf(1, 0, 0, 0);
    assert SymbolAt(s, 0, 0);
    assert NextToSymbol(s, 1, 0, 3);
    assert [NumberMatch(1, 0, 123, 3)][..0] == [];
  }

  /** The runs of "1*1" are the two single-digit ones. */
  lemma RunsOneStarOne()
    ensures AllRuns(["1*1"], 1) == [NumberMatch(0, 0, 1, 1), NumberMatch(2, 0, 1, 1)]
  {
    var line := "1*1";
    CloseRun(line, 0, 0, 1);
    CloseRun(line, 0, 2, 3);
    assert line[0..1] == "1" && line[2..3] == "1";
    assert DecimalValue("1") == 1 by {
      assert "1"[..0] == [];
    }
    assert AllRuns([line], 1) == AllRuns([line], 0) + RowRuns(line, 0);
  }

  /** "1*1": both ones touch the star, so part 1 gives 2. */
  lemma Part1ExampleOneStarOne()
    ensures SymbolRunSum(Schematic(["1*1"]), AllRuns(["1*1"], 1)) == 2
  {
    var s := Schematic(["1*1"]);
    var runs := [NumberMatch(0, 0, 1, 1), NumberMatch(2, 0, 1, 1)];
    RunsOneStarOne();
    assert NeighborDeltas[4] == (1, 0) && NeighborDeltas[3] == (-1, 0);
    assert IsNeighborOf(0, 0, 1, 0) && IsNeighborOf(2, 0, 1, 0);
    assert SymbolAt(s, 1, 0);
    assert NextToSymbol(s, 0, 0, 1);
    assert NextToSymbol(s, 2, 0, 1);
    assert runs[..1] == [runs[0]] && runs[..1][..0] == [] && runs[..2] == runs;
  }

  /** The only star of "1*1" is in column 1. */
  lemma StarsOneStarOne()
    ensures AllStars(["1*1"], 1) == [StarMatch(1, 0)]
  {
    var line := "1*1";
    assert StarsIn(line, 0, 3) == [StarMatch(1, 0)];
    assert AllStars([line], 1) == AllStars([line], 0) + StarsIn(line, 0, 3);
  }

  /** Both ones of "1*1" touch its star. */
  lemma GearOneStarOne()
    ensures Get(Schematic(["1*1"]), 1, 0) == Some('*')
    ensures NumbersForGear(Schematic(["1*1"]), 1, 0) == [1, 1]
  {
    RunsOneStarOne();
    BothOnesTouchStar();
  }

  /** Both ones of "1*1" touch the star, so its numbers are [1, 1]. */
  lemma BothOnesTouchStar()
    ensures AdjacentValues([NumberMatch(0, 0, 1, 1), NumberMatch(2, 0, 1, 1)], 1, 0) == [1, 1]
  {
    var a, b := NumberMatch(0, 0, 1, 1), NumberMatch(2, 0, 1, 1);
    OneTouchesStar(a);
    OneTouchesStar(b);
    AdjacentValuesAppend([a], [b], 1, 0);
    assert [a, b] == [a] + [b];
  }

  /** Each one of "1*1" touches the star and contributes its value. */
  lemma OneTouchesStar(m: NumberMatch)
    requires m == NumberMatch(0, 0, 1, 1) || m == NumberMatch(2, 0, 1, 1)
    ensures AdjacentValues([m], 1, 0) == [1]
  {
    assert NeighborDeltas[4] == (1, 0) && NeighborDeltas[3] == (-1, 0);
    assert IsNeighborOf(m.x, 0, 1, 0);
    assert Adjacent(m, 1, 0);
    AdjacentValuesOne(m, 1, 0);
  }

  /** "1*1": the star touches exactly the two ones, so part 2 gives 1 * 1. */
  lemma Part2ExampleOneStarOne()
    ensures AreStars(Schematic(["1*1"]), AllStars(["1*1"], 1))
    ensures GearRatioSum(Schematic(["1*1"]), AllStars(["1*1"], 1)) == 1
  {
    StarsOneStarOne();
    GearOneStarOne();
    SingleGearSum(Schematic(["1*1"]), StarMatch(1, 0), 1, 1);
  }

  /** The gear-ratio sum over a single star touching exactly the numbers `a`
      and `b` is their product. */
  lemma SingleGearSum(s: Schematic, star: StarMatch, a: nat, b: nat)
    requires Get(s, star.x, star.y) == Some('*')
    requires NumbersForGear(s, star.x, star.y) == [a, b]
    ensures AreStars(s, [star])
    ensures GearRatioSum(s, [star]) == a * b
  {
    assert [star][..0] == [];
  }
}
