/** Day 8, part 1: Haunted Wasteland. A line of left/right directions is
    followed, over and over, through a network of nodes, each naming a left
    and a right successor; the answer is how many steps it takes to get from
    "AAA" to "ZZZ". */
module Day8 {
  import opened Results
  import opened Text

  datatype Direction = Left | Right

  datatype Node = Node(source: string, left: string, right: string)

  datatype Instructions = Instructions(directions: seq<Direction>, nodes: seq<Node>)

  const Start := "AAA"
  const Destination := "ZZZ"

  const NoStart := "no node named AAA"
  const NoDirections := "no directions"
  const NoSuchNode := "no node with the name of the next step"
  const OutOfFuel := "ZZZ not reached within the step bound"
  const UnknownDirection := "unknown direction"
  const NotTwoSides := "node line is not split in two by '='"
  const NotTwoSuccessors := "node does not have two successors"
  const MissingLines := "fewer than two lines"

  // ---------------------------------------------------------------------------
  // Looking nodes up

  /** `iter().find` on the name: the first node called `name`. */
  function FindNode(nodes: seq<Node>, name: string): (r: Option<nat>)
    ensures r.Some? ==> r.value < |nodes| && nodes[r.value].source == name
  {
    if |nodes| == 0 then None
    else if nodes[0].source == name then Some(0)
    else
      match FindNode(nodes[1..], name)
      case None => None
      case Some(i) => Some(i + 1)
  }

  /** The node found is the first of that name, and nothing is found only
      when no node has that name. */
  lemma {:induction false} FindNodeFirst(nodes: seq<Node>, name: string)
    ensures FindNode(nodes, name).Some? ==> forall j :: 0 <= j < FindNode(nodes, name).value ==> nodes[j].source != name
    ensures FindNode(nodes, name).None? ==> forall j :: 0 <= j < |nodes| ==> nodes[j].source != name
  {
    if |nodes| > 0 && nodes[0].source != name {
      FindNodeFirst(nodes[1..], name);
      assert forall j :: 1 <= j < |nodes| ==> nodes[j] == nodes[1..][j - 1];
    }
  }

  /** `find_aaa_index`: fatal when there is no "AAA" node. */
  function FindAaaIndex(ins: Instructions): (r: Result<nat>)
    ensures r.Ok? <==> exists j :: 0 <= j < |ins.nodes| && ins.nodes[j].source == Start
    ensures r.Ok? ==> r.value < |ins.nodes| && ins.nodes[r.value].source == Start
    ensures r.Ok? ==> forall j :: 0 <= j < r.value ==> ins.nodes[j].source != Start
  {
    FindNodeFirst(ins.nodes, Start);
    match FindNode(ins.nodes, Start)
    case None => Err(NoStart)
    case Some(i) => Ok(i)
  }

  // ---------------------------------------------------------------------------
  // Walking

  /** The successor a direction picks. */
  function Follow(node: Node, d: Direction): string {
    match d
    case Left => node.left
    case Right => node.right
  }

  /** The direction index is reset to 0 once it has run past the last
      direction, just before it is used. */
  function Wrap(index: nat, len: nat): nat {
    if index == len then 0 else index
  }

  /** The name the next step leads to from node `current` with direction
      index `index`. */
  function Target(ins: Instructions, current: nat, index: nat): string
    requires current < |ins.nodes| && 0 < |ins.directions| && index <= |ins.directions|
  {
    Follow(ins.nodes[current], ins.directions[Wrap(index, |ins.directions|)])
  }

  /** The walk standing on node `current` with direction index `index` after
      `steps` steps, allowed `fuel` more steps. The original loops for ever
      when "ZZZ" is never reached; here the walk gives up once the fuel is
      spent. */
  function Run(ins: Instructions, current: nat, index: nat, steps: nat, fuel: nat): (r: Result<nat>)
    requires current < |ins.nodes| && index <= |ins.directions|
    ensures r.Ok? ==> steps < r.value <= steps + fuel
    decreases fuel
  {
    if fuel == 0 then Err(OutOfFuel)
    else if |ins.directions| == 0 then Err(NoDirections)
    else
      var next := Target(ins, current, index);
      if next == Destination then Ok(steps + 1)
      else
        match FindNode(ins.nodes, next)
        case None => Err(NoSuchNode)
        case Some(j) => Run(ins, j, Wrap(index, |ins.directions|) + 1, steps + 1, fuel - 1)
  }

  /** The number of steps from "AAA" to "ZZZ", within `fuel` steps. */
  function StepsOf(ins: Instructions, fuel: nat): (r: Result<nat>)
    ensures FindAaaIndex(ins).Err? ==> r == Err(NoStart)
    ensures r.Ok? ==> FindAaaIndex(ins).Ok? && 0 < |ins.directions| && 0 < r.value <= fuel
  {
    var start :- FindAaaIndex(ins);
    Run(ins, start, 0, 0, fuel)
  }

  /** `part1_result` after parsing: the loop over the step count, the
      direction index and the current node. */
  method CountSteps(ins: Instructions, fuel: nat) returns (r: Result<nat>)
    ensures r == StepsOf(ins, fuel)
  {
    var start :- FindAaaIndex(ins);
    var stepsCount: nat := 0;
    var directionIndex: nat := 0;
    var current: nat := start;
    var remaining: nat := fuel;
    while remaining > 0
      invariant stepsCount + remaining == fuel
      invariant current < |ins.nodes| && directionIndex <= |ins.directions|
      invariant Run(ins, start, 0, 0, fuel) == Run(ins, current, directionIndex, stepsCount, remaining)
    {
      ghost var index := directionIndex;
      if directionIndex == |ins.directions| {
        directionIndex := 0;
      }
      if directionIndex >= |ins.directions| {
        return Err(NoDirections);
      }
      var direction := ins.directions[directionIndex];
      var next := Follow(ins.nodes[current], direction);
      RunUnfold(ins, current, index, stepsCount, remaining);
      if next == Destination {
        var steps: nat := stepsCount + 1;
        return Ok(steps);
      }
      var found := FindNode(ins.nodes, next);
      if found.None? {
        return Err(NoSuchNode);
      }
      current := found.value;
      directionIndex := directionIndex + 1;
      stepsCount := stepsCount + 1;
      remaining := remaining - 1;
    }
    r := Err(OutOfFuel);
  }

  /** One step of the walk. */
  lemma RunUnfold(ins: Instructions, current: nat, index: nat, steps: nat, fuel: nat)
    requires current < |ins.nodes| && 0 < |ins.directions| && index <= |ins.directions| && fuel > 0
    ensures Target(ins, current, index) == Destination ==> Run(ins, current, index, steps, fuel) == Ok(steps + 1)
    ensures Target(ins, current, index) != Destination && FindNode(ins.nodes, Target(ins, current, index)).None? ==>
      Run(ins, current, index, steps, fuel) == Err(NoSuchNode)
    ensures Target(ins, current, index) != Destination && FindNode(ins.nodes, Target(ins, current, index)).Some? ==>
      Run(ins, current, index, steps, fuel) ==
      Run(ins, FindNode(ins.nodes, Target(ins, current, index)).value, Wrap(index, |ins.directions|) + 1, steps + 1, fuel - 1)
    ensures Wrap(index, |ins.directions|) == Wrap(Wrap(index, |ins.directions|), |ins.directions|)
  {
  }

  // ---------------------------------------------------------------------------
  // The directions are used in cycles

  /** The direction index used for step `step` of a walk that starts with
      the first direction: counted on with every step and reset to 0 when it
      reaches the number of directions. */
  function Turn(step: nat, len: nat): (index: nat)
    requires len > 0
    ensures index < len
  {
    if step == 0 then 0
    else if Turn(step - 1, len) + 1 == len then 0
    else Turn(step - 1, len) + 1
  }

  /** The directions are used in order from the first ... */
  lemma {:induction false} TurnStart(step: nat, len: nat)
    requires step < len
    ensures Turn(step, len) == step
  {
    if step > 0 {
      TurnStart(step - 1, len);
    }
  }

  /** ... and then over again, so that step `step` uses direction number
      `step % len`. */
  lemma {:induction false} TurnPeriodic(step: nat, len: nat)
    requires len > 0
    ensures Turn(step + len, len) == Turn(step, len)
  {
    if step == 0 {
      TurnStart(len - 1, len);
    } else {
      TurnPeriodic(step - 1, len);
    }
  }

  // ---------------------------------------------------------------------------
  // The answer is the first arrival at "ZZZ"

  /** Where the walk stands `m` steps later, node and direction index,
      following the directions whether or not it passes "ZZZ"; it fails
      when a step names a node that does not exist. */
  function PositionAfter(ins: Instructions, current: nat, index: nat, m: nat): (r: Result<(nat, nat)>)
    requires current < |ins.nodes| && 0 < |ins.directions| && index <= |ins.directions|
    ensures r.Ok? ==> r.value.0 < |ins.nodes| && r.value.1 <= |ins.directions|
    decreases m
  {
    if m == 0 then Ok((current, index))
    else
      match FindNode(ins.nodes, Target(ins, current, index))
      case None => Err(NoSuchNode)
      case Some(j) => PositionAfter(ins, j, Wrap(index, |ins.directions|) + 1, m - 1)
  }

  /** A walk from the first direction uses direction `Turn(k)` at step `k`. */
  lemma {:induction false} DirectionsCycle(ins: Instructions, current: nat, index: nat, steps: nat, m: nat)
    requires current < |ins.nodes| && 0 < |ins.directions| && index <= |ins.directions|
    requires Wrap(index, |ins.directions|) == Turn(steps, |ins.directions|)
    requires PositionAfter(ins, current, index, m).Ok?
    ensures Wrap(PositionAfter(ins, current, index, m).value.1, |ins.directions|) == Turn(steps + m, |ins.directions|)
    decreases m
  {
    if m > 0 {
      var j := FindNode(ins.nodes, Target(ins, current, index)).value;
      DirectionsCycle(ins, j, Wrap(index, |ins.directions|) + 1, steps + 1, m - 1);
    }
  }

  /** Step `m` from there (counted from 0) starts at an existing node and
      leads to "ZZZ". */
  predicate ArrivesAfter(ins: Instructions, current: nat, index: nat, m: nat)
    requires current < |ins.nodes| && 0 < |ins.directions| && index <= |ins.directions|
  {
    var p := PositionAfter(ins, current, index, m);
    p.Ok? && Target(ins, p.value.0, p.value.1) == Destination
  }

  /** Step `m` is the first that leads to "ZZZ". */
  predicate FirstFrom(ins: Instructions, current: nat, index: nat, m: nat)
    requires current < |ins.nodes| && 0 < |ins.directions| && index <= |ins.directions|
  {
    ArrivesAfter(ins, current, index, m) &&
    forall i :: 0 <= i < m ==> !ArrivesAfter(ins, current, index, i)
  }

  /** Step `n` (counted from 1) of the walk from `start` is the first that
      leads to "ZZZ". */
  predicate FirstArrival(ins: Instructions, start: nat, n: nat)
    requires start < |ins.nodes| && 0 < |ins.directions|
  {
    n >= 1 && FirstFrom(ins, start, 0, n - 1)
  }

  /** Arrivals seen from the next node are the later arrivals seen from this
      one. */
  lemma ArrivesShift(ins: Instructions, current: nat, index: nat, j: nat, m: nat)
    requires current < |ins.nodes| && 0 < |ins.directions| && index <= |ins.directions|
    requires FindNode(ins.nodes, Target(ins, current, index)) == Some(j)
    ensures ArrivesAfter(ins, current, index, m + 1) == ArrivesAfter(ins, j, Wrap(index, |ins.directions|) + 1, m)
  {
    assert PositionAfter(ins, current, index, m + 1) == PositionAfter(ins, j, Wrap(index, |ins.directions|) + 1, m);
  }

  /** Seen from the next node, the first arrival comes one step earlier. */
  lemma FirstShiftDown(ins: Instructions, current: nat, index: nat, j: nat, m: nat)
    requires current < |ins.nodes| && 0 < |ins.directions| && index <= |ins.directions|
    requires FindNode(ins.nodes, Target(ins, current, index)) == Some(j) && m > 0
    requires FirstFrom(ins, current, index, m)
    ensures FirstFrom(ins, j, Wrap(index, |ins.directions|) + 1, m - 1)
  {
    var after := Wrap(index, |ins.directions|) + 1;
    var prev: nat := m - 1;
    ArrivesShift(ins, current, index, j, prev);
    forall i | 0 <= i < prev ensures !ArrivesAfter(ins, j, after, i) {
      ArrivesShift(ins, current, index, j, i);
    }
  }

  /** A first arrival seen from the next node, one step later seen from here,
      unless this step already arrives. */
  lemma FirstShiftUp(ins: Instructions, current: nat, index: nat, j: nat, m: nat)
    requires current < |ins.nodes| && 0 < |ins.directions| && index <= |ins.directions|
    requires FindNode(ins.nodes, Target(ins, current, index)) == Some(j) && m > 0
    requires !ArrivesAfter(ins, current, index, 0) && FirstFrom(ins, j, Wrap(index, |ins.directions|) + 1, m - 1)
    ensures FirstFrom(ins, current, index, m)
  {
    var after := Wrap(index, |ins.directions|) + 1;
    var prev: nat := m - 1;
    ArrivesShift(ins, current, index, j, prev);
    forall i | 0 <= i < m ensures !ArrivesAfter(ins, current, index, i) {
      if i > 0 {
        var k: nat := i - 1;
        ArrivesShift(ins, current, index, j, k);
      }
    }
  }

  /** A later arrival passes through the node the next step names. */
  lemma PassesThrough(ins: Instructions, current: nat, index: nat, m: nat)
    requires current < |ins.nodes| && 0 < |ins.directions| && index <= |ins.directions|
    requires ArrivesAfter(ins, current, index, m) && m > 0
    ensures FindNode(ins.nodes, Target(ins, current, index)).Some?
  {
  }

  lemma {:induction false} RunSound(ins: Instructions, current: nat, index: nat, steps: nat, fuel: nat, n: nat)
    requires current < |ins.nodes| && 0 < |ins.directions| && index <= |ins.directions|
    requires Run(ins, current, index, steps, fuel) == Ok(n)
    ensures n > steps && FirstFrom(ins, current, index, n - steps - 1)
    decreases fuel
  {
    RunUnfold(ins, current, index, steps, fuel);
    var next := Target(ins, current, index);
    if next == Destination {
      assert ArrivesAfter(ins, current, index, 0);
    } else {
      var j := FindNode(ins.nodes, next).value;
      var after := Wrap(index, |ins.directions|) + 1;
      var rest: nat := fuel - 1;
      RunSound(ins, j, after, steps + 1, rest, n);
      assert !ArrivesAfter(ins, current, index, 0);
      FirstShiftUp(ins, current, index, j, n - steps - 1);
    }
  }

  lemma {:induction false} RunComplete(ins: Instructions, current: nat, index: nat, steps: nat, fuel: nat, m: nat)
    requires current < |ins.nodes| && 0 < |ins.directions| && index <= |ins.directions|
    requires FirstFrom(ins, current, index, m) && m < fuel
    ensures Run(ins, current, index, steps, fuel) == Ok(steps + m + 1)
    decreases fuel
  {
    RunUnfold(ins, current, index, steps, fuel);
    if m == 0 {
      assert Target(ins, current, index) == Destination;
    } else {
      assert !ArrivesAfter(ins, current, index, 0);
      PassesThrough(ins, current, index, m);
      var j := FindNode(ins.nodes, Target(ins, current, index)).value;
      var after := Wrap(index, |ins.directions|) + 1;
      var prev: nat, rest: nat := m - 1, fuel - 1;
      FirstShiftDown(ins, current, index, j, m);
      RunComplete(ins, j, after, steps + 1, rest, prev);
    }
  }

  /** A successful walk stops at the first arrival at "ZZZ", and the first
      arrival is found whenever the fuel covers it. */
  lemma StepsAreFirstArrival(ins: Instructions, fuel: nat)
    requires FindAaaIndex(ins).Ok? && |ins.directions| > 0
    ensures StepsOf(ins, fuel).Ok? ==> FirstArrival(ins, FindAaaIndex(ins).value, StepsOf(ins, fuel).value)
    ensures forall n: nat :: FirstArrival(ins, FindAaaIndex(ins).value, n) && n <= fuel ==> StepsOf(ins, fuel) == Ok(n)
  {
    var start := FindAaaIndex(ins).value;
    if StepsOf(ins, fuel).Ok? {
      RunSound(ins, start, 0, 0, fuel, StepsOf(ins, fuel).value);
    }
    forall n: nat | FirstArrival(ins, start, n) && n <= fuel ensures StepsOf(ins, fuel) == Ok(n) {
      RunComplete(ins, start, 0, 0, fuel, n - 1);
    }
  }

  /** More fuel never changes an answer once found. */
  lemma StepsIndependentOfFuel(ins: Instructions, fuel: nat, more: nat)
    requires StepsOf(ins, fuel).Ok? && fuel <= more
    ensures StepsOf(ins, more) == StepsOf(ins, fuel)
  {
    assert |ins.directions| > 0;
    StepsAreFirstArrival(ins, fuel);
    StepsAreFirstArrival(ins, more);
  }

  // ---------------------------------------------------------------------------
  // Parsing

  function ParseDirection(c: char): (r: Result<Direction>)
    ensures r.Ok? <==> c == 'L' || c == 'R'
    ensures r == Ok(Left) <==> c == 'L'
  {
    if c == 'L' then Ok(Left) else if c == 'R' then Ok(Right) else Err(UnknownDirection)
  }

  /** `parse_directions`: one direction per character, fatal on anything but
      'L' and 'R'. */
  function ParseDirections(line: string): (r: Result<seq<Direction>>)
    ensures r.Ok? <==> forall i :: 0 <= i < |line| ==> line[i] == 'L' || line[i] == 'R'
    ensures r.Ok? ==> |r.value| == |line|
    ensures r.Ok? ==> forall i :: 0 <= i < |line| ==> r.value[i] == (if line[i] == 'L' then Left else Right)
  {
    if |line| == 0 then Ok([])
    else
      var first :- ParseDirection(line[0]);
      var rest :- ParseDirections(line[1..]);
      assert forall i :: 1 <= i < |line| ==> line[i] == line[1..][i - 1];
      Ok([first] + rest)
  }

  /** `parse_left_right`: drop the parentheses, split on ", " into exactly two
      names, and trim the first (the second is kept as it is). */
  function ParseLeftRight(s: string): (r: Result<(string, string)>)
    ensures r.Ok? <==> |SplitOn(RemoveChar(RemoveChar(s, '('), ')'), ", ")| == 2
    ensures r.Ok? ==> var parts := SplitOn(RemoveChar(RemoveChar(s, '('), ')'), ", ");
      r.value == (Trim(parts[0]), parts[1])
  {
    var parts := SplitOn(RemoveChar(RemoveChar(s, '('), ')'), ", ");
    if |parts| != 2 then Err(NotTwoSuccessors) else Ok((Trim(parts[0]), parts[1]))
  }

  /** One node line: exactly two sides of '=', the trimmed name on the left. */
  function ParseNode(line: string): (r: Result<Node>)
    ensures r.Ok? <==> |SplitOn(line, "=")| == 2 && ParseLeftRight(SplitOn(line, "=")[1]).Ok?
    ensures r.Ok? ==> r.value.source == Trim(SplitOn(line, "=")[0])
    ensures r.Ok? ==> (r.value.left, r.value.right) == ParseLeftRight(SplitOn(line, "=")[1]).value
  {
    var segments := SplitOn(line, "=");
    if |segments| != 2 then Err(NotTwoSides)
    else
      var (left, right) :- ParseLeftRight(segments[1]);
      Ok(Node(Trim(segments[0]), left, right))
  }

  /** A name as the puzzle writes it: no whitespace and none of the
      characters the node syntax uses. */
  predicate IsName(s: string) {
    NoUnicodeWhitespace(s) && '=' !in s && '(' !in s && ')' !in s && ',' !in s
  }

  /** How a node is written in the puzzle input. */
  function RenderNode(n: Node): string {
    n.source + " = (" + n.left + ", " + n.right + ")"
  }

  lemma ParseLeftRightRendered(left: string, right: string)
    requires IsName(left) && IsName(right)
    ensures ParseLeftRight(" (" + left + ", " + right + ")") == Ok((left, right))
  {
    var mid := left + ", " + right;
    assert " (" + left + ", " + right + ")" == " (" + mid + ")";
    StripParens(mid);
    assert " " + mid == (" " + left) + ", " + right;
    assert ',' !in " " + left;
    SplitTwo(" " + left, right, ", ");
    TrimPadded(left);
  }

  /** Removing the brackets from " (" + mid + ")" leaves " " + mid when
      `mid` holds no bracket. */
  lemma StripParens(mid: string)
    requires '(' !in mid && ')' !in mid
    ensures RemoveChar(RemoveChar(" (" + mid + ")", '('), ')') == " " + mid
  {
    assert " (" + mid + ")" == " (" + (mid + ")");
    RemoveCharAppend(" (", mid + ")", '(');
    assert RemoveChar(" (", '(') == " " by {
      assert " ("[1..] == "(";
      assert "("[1..] == "";
    }
    RemoveCharAbsent(mid + ")", '(');
    var stripped := RemoveChar(" (" + mid + ")", '(');
    assert stripped == (" " + mid) + ")";
    assert ')' !in " " + mid;
    RemoveCharAppend(" " + mid, ")", ')');
    RemoveCharAbsent(" " + mid, ')');
    assert RemoveChar(")", ')') == "" by {
      assert ")"[1..] == "";
    }
  }

  /** A node written out as in the puzzle input reads back as itself. */
  lemma ParseNodeRendered(n: Node)
    requires IsName(n.source) && IsName(n.left) && IsName(n.right)
    ensures ParseNode(RenderNode(n)) == Ok(n)
  {
    var rest := " (" + n.left + ", " + n.right + ")";
    var name := n.source + " ";
    assert RenderNode(n) == name + "=" + rest;
    assert '=' !in name && '=' !in rest;
    SplitTwo(name, rest, "=");
    TrimPadded(n.source);
    ParseLeftRightRendered(n.left, n.right);
  }

  /** `parse_nodes`: the loop pushing one node per line, the first line that
      does not parse being fatal. */
  method ParseNodes(lines: seq<string>) returns (r: Result<seq<Node>>)
    ensures r == Collect(ParseNode, lines)
  {
    var result := [];
    for i := 0 to |lines|
      invariant Collect(ParseNode, lines[..i]) == Ok(result)
    {
      var parsed := ParseNode(lines[i]);
      CollectStep(ParseNode, lines, i, result);
      if parsed.Err? {
        return Err(parsed.reason);
      }
      result := result + [parsed.value];
    }
    assert lines[..|lines|] == lines;
    r := Ok(result);
  }

  /** `parse_instructions`: the directions on the first line, the nodes from
      the third line on; the second line is not looked at. */
  function ParseInstructions(lines: seq<string>): (r: Result<Instructions>)
    ensures r.Ok? <==>
      |lines| >= 2 && ParseDirections(lines[0]).Ok? && forall i :: 2 <= i < |lines| ==> ParseNode(lines[i]).Ok?
    ensures r.Ok? ==> |r.value.directions| == |lines[0]| && |r.value.nodes| == |lines| - 2
  {
    if |lines| == 0 then Err(MissingLines)
    else
      var directions :- ParseDirections(lines[0]);
      if |lines| < 2 then Err(MissingLines)
      else
        var nodes :- Collect(ParseNode, lines[2..]);
        Ok(Instructions(directions, nodes))
  }

  method ReadInstructions(lines: seq<string>) returns (r: Result<Instructions>)
    ensures r == ParseInstructions(lines)
  {
    if |lines| == 0 {
      return Err(MissingLines);
    }
    var directions :- ParseDirections(lines[0]);
    if |lines| < 2 {
      return Err(MissingLines);
    }
    var nodes :- ParseNodes(lines[2..]);
    r := Ok(Instructions(directions, nodes));
  }

  /** `part1_result`, walking at most `fuel` steps. */
  function Part1Of(lines: seq<string>, fuel: nat): (r: Result<nat>)
    ensures ParseInstructions(lines).Err? ==> r == Err(ParseInstructions(lines).reason)
    ensures r.Ok? ==>
      var ins := ParseInstructions(lines).value;
      ParseInstructions(lines).Ok? && FindAaaIndex(ins).Ok? && 0 < |ins.directions| &&
      FirstArrival(ins, FindAaaIndex(ins).value, r.value) && r.value <= fuel
  {
    var ins :- ParseInstructions(lines);
    if FindAaaIndex(ins).Ok? && 0 < |ins.directions| then
      StepsAreFirstArrival(ins, fuel);
      StepsOf(ins, fuel)
    else
      StepsOf(ins, fuel)
  }

  method Part1Result(lines: seq<string>, fuel: nat) returns (r: Result<nat>)
    ensures r == Part1Of(lines, fuel)
  {
    var ins :- ReadInstructions(lines);
    r := CountSteps(ins, fuel);
  }

  /** Input lines that are the directions, a blank line and one line per
      node, written out, read back as those instructions. */
  lemma ParseRendered(lines: seq<string>, ins: Instructions)
    requires |lines| == |ins.nodes| + 2 && ParseDirections(lines[0]) == Ok(ins.directions)
    requires forall i :: 0 <= i < |ins.nodes| ==>
      IsName(ins.nodes[i].source) && IsName(ins.nodes[i].left) && IsName(ins.nodes[i].right)
    requires forall i :: 0 <= i < |ins.nodes| ==> lines[i + 2] == RenderNode(ins.nodes[i])
    ensures ParseInstructions(lines) == Ok(ins)
  {
    var nodeLines := lines[2..];
    forall i | 0 <= i < |nodeLines| ensures ParseNode(nodeLines[i]) == Ok(ins.nodes[i]) {
      assert nodeLines[i] == lines[i + 2];
      ParseNodeRendered(ins.nodes[i]);
    }
    CollectAll(ParseNode, nodeLines, ins.nodes);
  }

  // ---------------------------------------------------------------------------
  // The two examples of the puzzle, as parsed

  /** "RL" over AAA = (BBB, CCC), BBB = (DDD, EEE), CCC = (ZZZ, GGG),
      DDD = (DDD, DDD), EEE = (EEE, EEE), GGG = (GGG, GGG), ZZZ = (ZZZ, ZZZ). */
  const SinglePass := Instructions([Right, Left], [
    Node("AAA", "BBB", "CCC"),
    Node("BBB", "DDD", "EEE"),
    Node("CCC", "ZZZ", "GGG"),
    Node("DDD", "DDD", "DDD"),
    Node("EEE", "EEE", "EEE"),
    Node("GGG", "GGG", "GGG"),
    Node("ZZZ", "ZZZ", "ZZZ")
  ])

  /** "LLR" over AAA = (BBB, BBB), BBB = (AAA, ZZZ), ZZZ = (ZZZ, ZZZ). */
  const SeveralPasses := Instructions([Left, Left, Right], [
    Node("AAA", "BBB", "BBB"),
    Node("BBB", "AAA", "ZZZ"),
    Node("ZZZ", "ZZZ", "ZZZ")
  ])

  /** The first example takes two steps: right to CCC, then left to ZZZ. */
  lemma SinglePassSteps(fuel: nat)
    requires fuel >= 2
    ensures StepsOf(SinglePass, fuel) == Ok(2)
  {
    var ins := SinglePass;
    assert FindAaaIndex(ins) == Ok(0);
    assert FindNode(ins.nodes, "CCC") == Some(2);
    assert Run(ins, 2, 1, 1, 1) == Ok(2);
    assert StepsOf(ins, 2) == Ok(2);
    StepsIndependentOfFuel(ins, 2, fuel);
  }

  /** The second example runs through the directions twice: six steps. */
  lemma SeveralPassesSteps(fuel: nat)
    requires fuel >= 6
    ensures StepsOf(SeveralPasses, fuel) == Ok(6)
  {
    SeveralPassesWalk();
    StepsIndependentOfFuel(SeveralPasses, 6, fuel);
  }

  lemma SeveralPassesWalk()
    ensures StepsOf(SeveralPasses, 6) == Ok(6)
  {
    var ins := SeveralPasses;
    assert FindAaaIndex(ins) == Ok(0);
    assert FindNode(ins.nodes, "AAA") == Some(0);
    assert FindNode(ins.nodes, "BBB") == Some(1);
    assert Run(ins, 1, 2, 5, 1) == Ok(6);
    assert Run(ins, 0, 1, 4, 2) == Ok(6);
    assert Run(ins, 1, 3, 3, 3) == Ok(6);
    assert Run(ins, 0, 2, 2, 4) == Ok(6);
    assert Run(ins, 1, 1, 1, 5) == Ok(6);
    assert Run(ins, 0, 0, 0, 6) == Ok(6);
  }
}
