/** Day 5: an almanac lists seeds and a chain of maps (seed to soil, soil to
    fertilizer, ..., humidity to location); each map sends an id through the
    one range that contains it, or leaves it unchanged. Part 1 is the lowest
    location of the listed seeds, part 2 the lowest location over the seed
    ranges that the seeds line lists as (start, length) pairs. */
module Day5 {
  import opened Results
  import opened Text
  import opened Seqs

  datatype Resource = Seed | Soil | Fertilizer | Water | Light | Temperature | Humidity | Location

  /** One line of a map: `length` ids from `sourceStart` go to the ids from
      `destinationStart`. */
  datatype MapRange = MapRange(destinationStart: nat, sourceStart: nat, length: nat)

  datatype ResourceMap = ResourceMap(from: Resource, to: Resource, ranges: seq<MapRange>)

  datatype Almanac = Almanac(seeds: seq<nat>, maps: seq<ResourceMap>)

  /** `u32::MAX`, the starting value of the part 2 minimum. */
  const U32Max: nat := 0xFFFF_FFFF

  const AmbiguousRanges := "more than one range of a map contains the id"
  const BrokenChain := "a map does not start from the resource reached so far"
  const NotLocation := "the maps do not end at location"
  const NoSeeds := "the almanac lists no seeds"
  const OddSeedCount := "the seeds line does not pair up into ranges"

  // ---------------------------------------------------------------------------
  // Following a seed through the maps

  /** The half-open source interval of a range contains `id` (the original
      widens to 64 bits first, so the end of the interval cannot wrap). */
  predicate RangeContains(r: MapRange, id: nat): (b: bool)
    ensures b ==> r.length > 0
    ensures b <==> id >= r.sourceStart && id - r.sourceStart < r.length
  {
    r.sourceStart <= id < r.sourceStart + r.length
  }

  /** The ranges of a map that contain `id`, in order. */
  function Containing(ranges: seq<MapRange>, id: nat): (r: seq<MapRange>)
    ensures forall k :: 0 <= k < |r| ==> RangeContains(r[k], id)
  {
    if |ranges| == 0 then []
    else
      var init := Containing(ranges[..|ranges| - 1], id);
      if RangeContains(ranges[|ranges| - 1], id) then init + [ranges[|ranges| - 1]] else init
  }

  /** No range, two ranges, or exactly the one range that contains `id`. */
  lemma {:induction false} ContainingCount(ranges: seq<MapRange>, id: nat)
    ensures |Containing(ranges, id)| == 0 <==>
      forall i :: 0 <= i < |ranges| ==> !RangeContains(ranges[i], id)
    ensures |Containing(ranges, id)| >= 2 <==>
      exists i, j :: 0 <= i < j < |ranges| && RangeContains(ranges[i], id) && RangeContains(ranges[j], id)
    ensures |Containing(ranges, id)| == 1 ==>
      forall i :: 0 <= i < |ranges| && RangeContains(ranges[i], id) ==> Containing(ranges, id)[0] == ranges[i]
  {
    if |ranges| > 0 {
      var init := ranges[..|ranges| - 1];
      var last := ranges[|ranges| - 1];
      ContainingCount(init, id);
      assert forall i :: 0 <= i < |init| ==> init[i] == ranges[i];
      if RangeContains(last, id) && |Containing(init, id)| > 0 {
        var i :| 0 <= i < |init| && RangeContains(init[i], id);
        assert RangeContains(ranges[i], id) && RangeContains(ranges[|ranges| - 1], id);
      }
    }
  }

  /** One map applied to `id`: unchanged when no range contains it, moved by
      the offset of the one range that does, an error when several do. */
  function MapStep(m: ResourceMap, id: nat): (r: Result<nat>)
    ensures r.Err? <==> (exists i, j :: 0 <= i < j < |m.ranges| &&
                                RangeContains(m.ranges[i], id) && RangeContains(m.ranges[j], id))
    ensures (forall i :: 0 <= i < |m.ranges| ==> !RangeContains(m.ranges[i], id)) ==> r == Ok(id)
    ensures forall i :: 0 <= i < |m.ranges| && RangeContains(m.ranges[i], id) && r.Ok? ==>
      r.value == m.ranges[i].destinationStart + (id - m.ranges[i].sourceStart)
  {
    ContainingCount(m.ranges, id);
    var c := Containing(m.ranges, id);
    if |c| > 1 then Err(AmbiguousRanges)
    else if |c| == 1 then Ok(c[0].destinationStart + (id - c[0].sourceStart))
    else Ok(id)
  }

  /** The resource and id reached from `seed` after the first `n` maps. */
  function Walk(maps: seq<ResourceMap>, n: nat, seed: nat): Result<(Resource, nat)>
    requires n <= |maps|
  {
    if n == 0 then Ok((Seed, seed))
    else
      var (resource, id) :- Walk(maps, n - 1, seed);
      if maps[n - 1].from != resource then Err(BrokenChain)
      else
        var next :- MapStep(maps[n - 1], id);
        Ok((maps[n - 1].to, next))
  }

  /** The location of a seed, or why the maps cannot give one: the walk over
      all maps must succeed and end on Location. */
  function LocationOf(a: Almanac, seed: nat): (r: Result<nat>)
    ensures r.Ok? <==> Walk(a.maps, |a.maps|, seed).Ok? && Walk(a.maps, |a.maps|, seed).value.0 == Location
    ensures r.Ok? ==> r.value == Walk(a.maps, |a.maps|, seed).value.1
  {
    var (resource, id) :- Walk(a.maps, |a.maps|, seed);
    if resource != Location then Err(NotLocation) else Ok(id)
  }

  /** Once the walk fails it stays failed with the same reason. */
  lemma {:induction false} WalkErr(maps: seq<ResourceMap>, i: nat, n: nat, seed: nat)
    requires i <= n <= |maps| && Walk(maps, i, seed).Err?
    ensures Walk(maps, n, seed) == Walk(maps, i, seed)
    decreases n
  {
    if n > i {
      WalkErr(maps, i, n - 1, seed);
    }
  }

  /** One more step of the walk, by the number of ranges holding the id. */
  lemma WalkNext(maps: seq<ResourceMap>, i: nat, seed: nat, resource: Resource, id: nat)
    requires i < |maps| && Walk(maps, i, seed) == Ok((resource, id))
    ensures var c := Containing(maps[i].ranges, id);
      && (maps[i].from != resource ==> Walk(maps, i + 1, seed) == Err(BrokenChain))
      && (maps[i].from == resource && |c| > 1 ==> Walk(maps, i + 1, seed) == Err(AmbiguousRanges))
      && (maps[i].from == resource && |c| == 1 ==>
            Walk(maps, i + 1, seed) == Ok((maps[i].to, c[0].destinationStart + (id - c[0].sourceStart))))
      && (maps[i].from == resource && |c| == 0 ==> Walk(maps, i + 1, seed) == Ok((maps[i].to, id)))
  {
  }

  /** `seed_location`: the loop over the maps. */
  method SeedLocation(seed: nat, a: Almanac) returns (r: Result<nat>)
    ensures r == LocationOf(a, seed)
  {
    var resource := Seed;
    var id := seed;
    for i := 0 to |a.maps|
      invariant Walk(a.maps, i, seed) == Ok((resource, id))
    {
      WalkNext(a.maps, i, seed, resource, id);
      var m := a.maps[i];
      if m.from != resource {
        WalkErr(a.maps, i + 1, |a.maps|, seed);
        return Err(BrokenChain);
      }
      var ranges := Containing(m.ranges, id);
      if |ranges| > 1 {
        WalkErr(a.maps, i + 1, |a.maps|, seed);
        return Err(AmbiguousRanges);
      }
      if |ranges| == 1 {
        id := ranges[0].destinationStart + (id - ranges[0].sourceStart);
      }
      resource := m.to;
    }
    if resource != Location {
      return Err(NotLocation);
    }
    return Ok(id);
  }

  /** The maps lead from seed to location, each one starting from the
      resource the previous one produces. */
  predicate IsChain(maps: seq<ResourceMap>) {
    |maps| > 0 && maps[0].from == Seed && maps[|maps| - 1].to == Location &&
    forall i :: 0 < i < |maps| ==> maps[i].from == maps[i - 1].to
  }

  /** No id lies in two ranges of the map. */
  ghost predicate Disjoint(m: ResourceMap) {
    forall i, j, id: nat :: 0 <= i < j < |m.ranges| ==>
      !(RangeContains(m.ranges[i], id) && RangeContains(m.ranges[j], id))
  }

  lemma {:induction false} WalkChain(maps: seq<ResourceMap>, n: nat, seed: nat)
    requires n <= |maps| && Walk(maps, n, seed).Ok?
    ensures Walk(maps, n, seed).value.0 == if n == 0 then Seed else maps[n - 1].to
    ensures n > 0 ==> maps[0].from == Seed
    ensures forall i :: 0 < i < n ==> maps[i].from == maps[i - 1].to
  {
    if n > 0 {
      WalkChain(maps, n - 1, seed);
    }
  }

  lemma {:induction false} WalkDefined(maps: seq<ResourceMap>, n: nat, seed: nat)
    requires n <= |maps|
    requires n > 0 ==> maps[0].from == Seed
    requires forall i :: 0 < i < n ==> maps[i].from == maps[i - 1].to
    requires forall k :: 0 <= k < n ==> Disjoint(maps[k])
    ensures Walk(maps, n, seed).Ok?
    ensures Walk(maps, n, seed).value.0 == if n == 0 then Seed else maps[n - 1].to
  {
    if n > 0 {
      WalkDefined(maps, n - 1, seed);
      var id := Walk(maps, n - 1, seed).value.1;
      assert Disjoint(maps[n - 1]);
      assert MapStep(maps[n - 1], id).Ok?;
    }
  }

  /** A seed has a location exactly when the maps form a chain from seed to
      location, provided no map has overlapping ranges. */
  lemma LocationIffChain(a: Almanac, seed: nat)
    requires forall k :: 0 <= k < |a.maps| ==> Disjoint(a.maps[k])
    ensures LocationOf(a, seed).Ok? <==> IsChain(a.maps)
  {
    if LocationOf(a, seed).Ok? {
      WalkChain(a.maps, |a.maps|, seed);
    }
    if IsChain(a.maps) {
      WalkDefined(a.maps, |a.maps|, seed);
    }
  }

  lemma {:induction false} WalkIdentity(maps: seq<ResourceMap>, n: nat, seed: nat)
    requires n <= |maps| && Walk(maps, n, seed).Ok?
    requires forall k :: 0 <= k < |maps| ==> |maps[k].ranges| == 0
    ensures Walk(maps, n, seed).value.1 == seed
  {
    if n > 0 {
      WalkIdentity(maps, n - 1, seed);
    }
  }

  /** Maps without ranges send every seed to the location with the same id. */
  lemma EmptyMapsKeepIds(a: Almanac, seed: nat)
    requires forall k :: 0 <= k < |a.maps| ==> |a.maps[k].ranges| == 0
    requires LocationOf(a, seed).Ok?
    ensures LocationOf(a, seed) == Ok(seed)
  {
    WalkIdentity(a.maps, |a.maps|, seed);
  }

  // ---------------------------------------------------------------------------
  // Part 1: the lowest location of the listed seeds

  /** The location of every seed, or an error when one has none. */
  function Locations(a: Almanac, seeds: seq<nat>): (r: Result<seq<nat>>)
    ensures r.Ok? <==> forall i :: 0 <= i < |seeds| ==> LocationOf(a, seeds[i]).Ok?
    ensures r.Ok? ==> |r.value| == |seeds|
    ensures r.Ok? ==> forall i :: 0 <= i < |seeds| ==> LocationOf(a, seeds[i]) == Ok(r.value[i])
  {
    if |seeds| == 0 then Ok([])
    else
      assert forall i :: 1 <= i < |seeds| ==> seeds[1..][i - 1] == seeds[i];
      var first :- LocationOf(a, seeds[0]);
      var rest :- Locations(a, seeds[1..]);
      Ok([first] + rest)
  }

  /** `Iterator::min` of a non-empty sequence. */
  function MinOf(s: seq<nat>): (m: nat)
    requires |s| > 0
    ensures m in s
    ensures forall i :: 0 <= i < |s| ==> m <= s[i]
  {
    if |s| == 1 then s[0]
    else
      var rest := MinOf(s[1..]);
      assert forall i :: 1 <= i < |s| ==> s[i] == s[1..][i - 1];
      if s[0] <= rest then s[0] else rest
  }

  /** `part1_result` on a parsed almanac: the least location of the listed
      seeds; an error when there is no seed or one has no location. */
  function Part1(a: Almanac): (r: Result<nat>)
    ensures r.Ok? <==> |a.seeds| > 0 && forall i :: 0 <= i < |a.seeds| ==> LocationOf(a, a.seeds[i]).Ok?
    ensures r.Ok? ==> forall i :: 0 <= i < |a.seeds| ==> r.value <= LocationOf(a, a.seeds[i]).value
    ensures r.Ok? ==> exists i :: 0 <= i < |a.seeds| && LocationOf(a, a.seeds[i]) == Ok(r.value)
  {
    var locations :- Locations(a, a.seeds);
    if |locations| == 0 then Err(NoSeeds) else Ok(MinOf(locations))
  }

  // ---------------------------------------------------------------------------
  // Part 2: the lowest location over the seed ranges

  /** Seed `s` lies in the `p`-th (start, length) pair of the seeds line. */
  predicate InPair(seeds: seq<nat>, p: nat, s: nat) {
    2 * p + 1 < |seeds| && seeds[2 * p] <= s < seeds[2 * p] + seeds[2 * p + 1]
  }

  /** Seed `s` lies in one of the first `n` pairs. */
  predicate InPairs(seeds: seq<nat>, n: nat, s: nat) {
    exists p: nat :: p < n && InPair(seeds, p, s)
  }

  /** What `part2_result` promises on a parsed almanac: an error exactly when
      the seeds do not pair up or a seed of a range has no location, and
      otherwise the least of `u32::MAX` and the locations of the ranges' seeds. */
  ghost predicate IsPart2Answer(a: Almanac, r: Result<nat>) {
    (r.Err? <==> |a.seeds| % 2 == 1 || exists s :: InPairs(a.seeds, |a.seeds|, s) && LocationOf(a, s).Err?) &&
    (r.Ok? ==> r.value <= U32Max) &&
    (r.Ok? ==> forall s :: InPairs(a.seeds, |a.seeds|, s) ==>
      LocationOf(a, s).Ok? && r.value <= LocationOf(a, s).value) &&
    (r.Ok? ==> r.value == U32Max || exists s :: InPairs(a.seeds, |a.seeds|, s) && LocationOf(a, s) == Ok(r.value))
  }

  /** The seeds visited so far: the first `i / 2` pairs, then the current
      pair's seeds below `seed`. */
  predicate Visited(seeds: seq<nat>, i: nat, seed: nat, s: nat) {
    InPairs(seeds, i / 2, s) || (i + 1 < |seeds| && seeds[i] <= s < seed)
  }

  /** `part2_result` on a parsed almanac: every seed of every range, one at a
      time. */
  method Part2(a: Almanac) returns (r: Result<nat>)
    ensures IsPart2Answer(a, r)
  {
    var seeds := a.seeds;
    var result := U32Max;
    var i := 0;
    while i < |seeds|
      invariant i % 2 == 0 && i <= |seeds|
      invariant result <= U32Max
      invariant forall s :: InPairs(seeds, i / 2, s) ==>
        LocationOf(a, s).Ok? && result <= LocationOf(a, s).value
      invariant result == U32Max || exists s :: InPairs(seeds, i / 2, s) && LocationOf(a, s) == Ok(result)
    {
      if i + 1 >= |seeds| {
        return Err(OddSeedCount);
      }
      var start, length := seeds[i], seeds[i + 1];
      var seed := start;
      for t := 0 to length
        invariant seed == start + t
        invariant result <= U32Max
        invariant forall s :: Visited(seeds, i, seed, s) ==>
          LocationOf(a, s).Ok? && result <= LocationOf(a, s).value
        invariant result == U32Max || exists s :: Visited(seeds, i, seed, s) && LocationOf(a, s) == Ok(result)
      {
        var location := SeedLocation(seed, a);
        if location.Err? {
          assert InPair(seeds, i / 2, seed);
          return Err(location.reason);
        }
        if location.value < result {
          result := location.value;
        }
        seed := seed + 1;
      }
      NextPair(seeds, i, seed);
      i := i + 2;
    }
    assert forall s :: InPairs(seeds, i / 2, s) <==> InPairs(seeds, |seeds|, s);
    return Ok(result);
  }

  /** Having visited the whole current pair is having visited one more pair. */
  lemma NextPair(seeds: seq<nat>, i: nat, seed: nat)
    requires i % 2 == 0 && i + 1 < |seeds| && seed == seeds[i] + seeds[i + 1]
    ensures forall s :: Visited(seeds, i, seed, s) <==> InPairs(seeds, (i + 2) / 2, s)
  {
    assert (i + 2) / 2 == i / 2 + 1;
    forall s | Visited(seeds, i, seed, s) ensures InPairs(seeds, i / 2 + 1, s) {
      if !InPairs(seeds, i / 2, s) {
        assert InPair(seeds, i / 2, s);
      }
    }
  }

  /** There is only one part 2 answer. */
  lemma Part2AnswerUnique(a: Almanac, r1: Result<nat>, r2: Result<nat>)
    requires IsPart2Answer(a, r1) && IsPart2Answer(a, r2)
    ensures r1.Ok? ==> r1 == r2
  {
    if r1.Ok? {
      assert r2.Ok?;
      assert r1.value <= r2.value;
      assert r2.value <= r1.value;
    }
  }

  // ---------------------------------------------------------------------------
  // Parsing

  const UnknownResource := "unknown resource name"
  const BadHeader := "a map header is not '<from>-to-<to> map:'"
  const BadRangeLine := "a range line does not hold exactly three numbers"
  const NoSeedsPrefix := "the first line does not start with 'seeds: '"
  const MissingLines := "the almanac has fewer than two lines"

  function ResourceName(r: Resource): string {
    match r
    case Seed => "seed"
    case Soil => "soil"
    case Fertilizer => "fertilizer"
    case Water => "water"
    case Light => "light"
    case Temperature => "temperature"
    case Humidity => "humidity"
    case Location => "location"
  }

  /** `parse_resource`: the resource with that name, an error for any other
      string. */
  function ParseResource(s: string): (r: Result<Resource>)
    ensures r.Ok? ==> ResourceName(r.value) == s
    ensures r.Err? ==> forall x :: ResourceName(x) != s
  {
    if s == "soil" then Ok(Soil)
    else if s == "seed" then Ok(Seed)
    else if s == "fertilizer" then Ok(Fertilizer)
    else if s == "water" then Ok(Water)
    else if s == "light" then Ok(Light)
    else if s == "temperature" then Ok(Temperature)
    else if s == "humidity" then Ok(Humidity)
    else if s == "location" then Ok(Location)
    else Err(UnknownResource)
  }

  /** `parse_resources`: a header line is two words, "<from>-to-<to>" and
      "map:". */
  function ParseResources(line: string): (r: Result<(Resource, Resource)>)
    ensures r.Ok? ==> Words(line) == [ResourceName(r.value.0) + "-to-" + ResourceName(r.value.1), "map:"]
  {
    var parts := Words(line);
    if |parts| != 2 || parts[1] != "map:" then Err(BadHeader)
    else
      var names := SplitOn(parts[0], "-");
      if |names| != 3 || names[1] != "to" then Err(BadHeader)
      else
        var from :- ParseResource(names[0]);
        var to :- ParseResource(names[2]);
        HeaderNameSplit(parts, names);
        Ok((from, to))
  }

  /** The words of a line the header parser accepts: the name word split on
      '-' into "<from>", "to" and "<to>", then "map:". */
  lemma HeaderNameSplit(parts: seq<string>, names: seq<string>)
    requires |parts| == 2 && parts[1] == "map:"
    requires names == SplitOn(parts[0], "-") && |names| == 3 && names[1] == "to"
    ensures parts == [names[0] + "-to-" + names[2], "map:"]
  {
    JoinSplitOn(parts[0], "-");
    assert names == [names[0], names[1], names[2]];
    JoinThree(names[0], names[1], names[2], "-");
    assert parts[0] == names[0] + "-" + names[1] + "-" + names[2];
    assert names[0] + "-" + "to" + "-" + names[2] == names[0] + "-to-" + names[2];
    assert parts == [parts[0], parts[1]];
  }

  function Header(from: Resource, to: Resource): string {
    ResourceName(from) + "-to-" + ResourceName(to) + " map:"
  }

  lemma NameFacts(r: Resource)
    ensures |ResourceName(r)| > 0 && NoWhitespace(ResourceName(r)) && '-' !in ResourceName(r)
  {
  }

  lemma ParseResourceName(r: Resource)
    ensures ParseResource(ResourceName(r)) == Ok(r)
  {
    match r
    case Seed =>
    case Soil =>
    case Fertilizer =>
    case Water =>
    case Light =>
    case Temperature =>
    case Humidity =>
    case Location =>
  }

  lemma HeaderWords(from: Resource, to: Resource)
    ensures Words(Header(from, to)) == [ResourceName(from) + "-to-" + ResourceName(to), "map:"]
  {
    var a, b := ResourceName(from), ResourceName(to);
    NameFacts(from);
    NameFacts(to);
    var w := a + "-to-" + b;
    forall i | 0 <= i < |w| ensures !IsWhitespace(w[i]) {
      if i < |a| {
        assert w[i] == a[i];
      } else if i >= |a| + 4 {
        assert w[i] == b[i - |a| - 4];
      }
    }
    assert Header(from, to) == Join([w, "map:"], " ");
    WordsJoin([w, "map:"]);
  }

  /** "<a>-to-<b>" splits on '-' into its three parts when neither name
      holds a '-'. */
  lemma SplitHeaderName(a: string, b: string)
    requires '-' !in a && '-' !in b
    ensures SplitOn(a + "-to-" + b, "-") == [a, "to", b]
  {
    var tail := "to" + "-" + b;
    assert SplitOn(tail, "-") == ["to", b] by {
      SplitOnPiece(b, "-", []);
      SplitOnPiece("to", "-", b);
      assert ["to"] + [b] == ["to", b];
    }
    SplitOnPiece(a, "-", tail);
    assert a + "-to-" + b == a + "-" + tail;
    assert [a] + ["to", b] == [a, "to", b];
  }

  /** A header line parses back to its two resources. */
  lemma ParseResourcesHeader(from: Resource, to: Resource)
    ensures ParseResources(Header(from, to)) == Ok((from, to))
  {
    var a, b := ResourceName(from), ResourceName(to);
    NameFacts(from);
    NameFacts(to);
    HeaderWords(from, to);
    SplitHeaderName(a, b);
    ParseResourceName(from);
    ParseResourceName(to);
  }

  /** `parse_range`: exactly three numbers, destination, source and length. */
  function ParseRange(line: string): (r: Result<MapRange>)
    ensures r.Ok? <==> ParseNats(Words(line)).Ok? && |ParseNats(Words(line)).value| == 3
    ensures r.Ok? ==> ParseNats(Words(line)).value == [r.value.destinationStart, r.value.sourceStart, r.value.length]
  {
    var ns :- ParseNats(Words(line));
    if |ns| != 3 then Err(BadRangeLine) else Ok(MapRange(ns[0], ns[1], ns[2]))
  }

  function RenderRange(r: MapRange): string {
    RenderNats([r.destinationStart, r.sourceStart, r.length])
  }

  /** A range line parses back to its range. */
  lemma ParseRangeRendered(r: MapRange)
    ensures ParseRange(RenderRange(r)) == Ok(r)
    ensures |RenderRange(r)| > 0
  {
    RenderNatsFacts([r.destinationStart, r.sourceStart, r.length]);
  }

  /** The state of `parse_maps` between lines: the maps finished so far, the
      header of the map being read, and its ranges so far. */
  datatype ScanState = ScanState(done: seq<ResourceMap>, header: Option<(Resource, Resource)>, ranges: seq<MapRange>)

  const Start := ScanState([], None, [])

  /** One line of `parse_maps`: inside a map an empty line closes the map and
      any other line is one of its ranges; outside a map the line is a header. */
  function ScanLine(st: ScanState, line: string): Result<ScanState> {
    match st.header
    case Some((from, to)) =>
      if |line| == 0 then Ok(ScanState(st.done + [ResourceMap(from, to, st.ranges)], None, []))
      else
        var r :- ParseRange(line);
        Ok(st.(ranges := st.ranges + [r]))
    case None =>
      var hdr :- ParseResources(line);
      Ok(st.(header := Some(hdr)))
  }

  function Scan(st: ScanState, lines: seq<string>): Result<ScanState> {
    if |lines| == 0 then Ok(st)
    else
      var before :- Scan(st, lines[..|lines| - 1]);
      ScanLine(before, lines[|lines| - 1])
  }

  /** After the last line, a map still being read is finished too. */
  function Finish(st: ScanState): seq<ResourceMap> {
    match st.header
    case Some((from, to)) => st.done + [ResourceMap(from, to, st.ranges)]
    case None => st.done
  }

  function ParseMapLines(lines: seq<string>): Result<seq<ResourceMap>> {
    var st :- Scan(Start, lines);
    Ok(Finish(st))
  }

  lemma {:induction false} ScanErr(st: ScanState, lines: seq<string>, i: nat)
    requires i <= |lines| && Scan(st, lines[..i]).Err?
    ensures Scan(st, lines) == Scan(st, lines[..i])
    decreases |lines|
  {
    if i == |lines| {
      assert lines[..i] == lines;
    } else {
      var init := lines[..|lines| - 1];
      assert init[..i] == lines[..i];
      ScanErr(st, init, i);
    }
  }

  /** Scanning one more line of the input. */
  lemma ScanNext(lines: seq<string>, i: nat, st: ScanState)
    requires i < |lines| && Scan(Start, lines[..i]) == Ok(st)
    ensures Scan(Start, lines[..i + 1]) == ScanLine(st, lines[i])
  {
    assert lines[..i + 1][..i] == lines[..i];
  }

  /** `parse_maps`: the loop over the lines. */
  method ParseMaps(lines: seq<string>) returns (r: Result<seq<ResourceMap>>)
    ensures r == ParseMapLines(lines)
  {
    var result: seq<ResourceMap> := [];
    var header: Option<(Resource, Resource)> := None;
    var ranges: seq<MapRange> := [];
    for i := 0 to |lines|
      invariant Scan(Start, lines[..i]) == Ok(ScanState(result, header, ranges))
    {
      var line := lines[i];
      ScanNext(lines, i, ScanState(result, header, ranges));
      if header.Some? {
        if |line| == 0 {
          result := result + [ResourceMap(header.value.0, header.value.1, ranges)];
          header := None;
          ranges := [];
        } else {
          var range := ParseRange(line);
          if range.Err? {
            ScanErr(Start, lines, i + 1);
            return Err(range.reason);
          }
          ranges := ranges + [range.value];
        }
      } else {
        var parsed := ParseResources(line);
        if parsed.Err? {
          ScanErr(Start, lines, i + 1);
          return Err(parsed.reason);
        }
        header := Some(parsed.value);
      }
    }
    assert lines[..|lines|] == lines;
    if header.Some? {
      result := result + [ResourceMap(header.value.0, header.value.1, ranges)];
    }
    return Ok(result);
  }

  /** One line per range. */
  function RangeLines(rs: seq<MapRange>): (lines: seq<string>)
    ensures |lines| == |rs|
  {
    seq(|rs|, i requires 0 <= i < |rs| => RenderRange(rs[i]))
  }

  /** The lines of one map: its header, then one line per range. */
  function Block(m: ResourceMap): seq<string> {
    [Header(m.from, m.to)] + RangeLines(m.ranges)
  }

  /** The maps' blocks, separated by single empty lines. */
  function RenderMaps(maps: seq<ResourceMap>): seq<string> {
    if |maps| == 0 then []
    else if |maps| == 1 then Block(maps[0])
    else RenderMaps(maps[..|maps| - 1]) + [""] + Block(maps[|maps| - 1])
  }

  lemma {:induction false} ScanAppend(st: ScanState, a: seq<string>, b: seq<string>)
    ensures Scan(st, a).Err? ==> Scan(st, a + b) == Scan(st, a)
    ensures Scan(st, a).Ok? ==> Scan(st, a + b) == Scan(Scan(st, a).value, b)
    decreases |b|
  {
    if |b| == 0 {
      assert a + b == a;
    } else {
      assert (a + b)[..|a + b| - 1] == a + b[..|b| - 1];
      ScanAppend(st, a, b[..|b| - 1]);
    }
  }

  lemma {:induction false} ScanRanges(done: seq<ResourceMap>, from: Resource, to: Resource, rs: seq<MapRange>)
    ensures Scan(ScanState(done, Some((from, to)), []), RangeLines(rs))
         == Ok(ScanState(done, Some((from, to)), rs))
  {
    if |rs| > 0 {
      var lines := RangeLines(rs);
      var before := ScanState(done, Some((from, to)), rs[..|rs| - 1]);
      RangeLinesInit(rs);
      ScanRanges(done, from, to, rs[..|rs| - 1]);
      ScanStep(ScanState(done, Some((from, to)), []), lines, before);
      ScanRangeLine(before, rs[|rs| - 1]);
      InitLast(rs);
    }
  }

  lemma RangeLinesInit(rs: seq<MapRange>)
    requires |rs| > 0
    ensures RangeLines(rs)[..|rs| - 1] == RangeLines(rs[..|rs| - 1])
    ensures RangeLines(rs)[|rs| - 1] == RenderRange(rs[|rs| - 1])
  {
  }

  /** Scanning one more line continues from the state the earlier lines left. */
  lemma ScanStep(st0: ScanState, lines: seq<string>, st: ScanState)
    requires |lines| > 0 && Scan(st0, lines[..|lines| - 1]) == Ok(st)
    ensures Scan(st0, lines) == ScanLine(st, lines[|lines| - 1])
  {
  }

  /** Inside a map, a rendered range line adds that range. */
  lemma ScanRangeLine(st: ScanState, r: MapRange)
    requires st.header.Some?
    ensures ScanLine(st, RenderRange(r)) == Ok(st.(ranges := st.ranges + [r]))
  {
    ParseRangeRendered(r);
  }

  lemma ScanOne(st: ScanState, line: string)
    ensures Scan(st, [line]) == ScanLine(st, line)
  {
    assert [line][..0] == [];
  }

  lemma ScanHeader(done: seq<ResourceMap>, from: Resource, to: Resource)
    ensures Scan(ScanState(done, None, []), [Header(from, to)]) == Ok(ScanState(done, Some((from, to)), []))
  {
    ParseResourcesHeader(from, to);
    ScanOne(ScanState(done, None, []), Header(from, to));
  }

  lemma ScanBlock(done: seq<ResourceMap>, m: ResourceMap)
    ensures Scan(ScanState(done, None, []), Block(m)) == Ok(ScanState(done, Some((m.from, m.to)), m.ranges))
  {
    var st := ScanState(done, None, []);
    var header := [Header(m.from, m.to)];
    var lines := RangeLines(m.ranges);
    var reading := ScanState(done, Some((m.from, m.to)), []);
    ScanHeader(done, m.from, m.to);
    ScanAppend(st, header, lines);
    assert Scan(st, header + lines) == Scan(reading, lines);
    ScanRanges(done, m.from, m.to, m.ranges);
    assert header + lines == Block(m);
  }

  /** A block after lines that leave no map open opens its map. */
  lemma ScanThenBlock(lines: seq<string>, done: seq<ResourceMap>, m: ResourceMap)
    requires Scan(Start, lines) == Ok(ScanState(done, None, []))
    ensures Scan(Start, lines + Block(m)) == Ok(ScanState(done, Some((m.from, m.to)), m.ranges))
  {
    ScanAppend(Start, lines, Block(m));
    ScanBlock(done, m);
  }

  lemma {:induction false} ScanRendered(maps: seq<ResourceMap>)
    requires |maps| > 0
    ensures Scan(Start, RenderMaps(maps)) ==
      Ok(ScanState(maps[..|maps| - 1], Some((maps[|maps| - 1].from, maps[|maps| - 1].to)), maps[|maps| - 1].ranges))
  {
    var last := maps[|maps| - 1];
    if |maps| == 1 {
      ScanBlock([], last);
    } else {
      var init := maps[..|maps| - 1];
      ScanRendered(init);
      ScanThenClose(RenderMaps(init), init);
      ScanThenBlock(RenderMaps(init) + [""], init, last);
    }
  }

  /** Lines that scan to a state parse to that state's maps. */
  lemma ParseMapLinesOf(lines: seq<string>, st: ScanState)
    requires Scan(Start, lines) == Ok(st)
    ensures ParseMapLines(lines) == Ok(Finish(st))
  {
  }

  /** Rendered maps parse back to the same maps: the last map needs no
      empty line after it. */
  lemma ParseMapsRendered(maps: seq<ResourceMap>)
    ensures ParseMapLines(RenderMaps(maps)) == Ok(maps)
  {
    if |maps| > 0 {
      var last := maps[|maps| - 1];
      var st := ScanState(maps[..|maps| - 1], Some((last.from, last.to)), last.ranges);
      ScanRendered(maps);
      ParseMapLinesOf(RenderMaps(maps), st);
      InitLast(maps);
    }
  }

  /** An empty line after lines that leave the last of `maps` open closes it. */
  lemma ScanThenClose(lines: seq<string>, maps: seq<ResourceMap>)
    requires |maps| > 0
    requires Scan(Start, lines) ==
      Ok(ScanState(maps[..|maps| - 1], Some((maps[|maps| - 1].from, maps[|maps| - 1].to)), maps[|maps| - 1].ranges))
    ensures Scan(Start, lines + [""]) == Ok(ScanState(maps, None, []))
  {
    var all := lines + [""];
    assert all[..|all| - 1] == lines;
    ScanStep(Start, all, Scan(Start, lines).value);
    ScanCloseLine(Scan(Start, lines).value);
    InitLast(maps);
  }

  /** Inside a map, an empty line finishes it. */
  lemma ScanCloseLine(st: ScanState)
    requires st.header.Some?
    ensures ScanLine(st, "") == Ok(ScanState(st.done + [ResourceMap(st.header.value.0, st.header.value.1, st.ranges)], None, []))
  {
  }

  /** The rendered maps followed by an empty line leave no map open. */
  lemma ScanRenderedClosed(maps: seq<ResourceMap>)
    requires |maps| > 0
    ensures Scan(Start, RenderMaps(maps) + [""]) == Ok(ScanState(maps, None, []))
  {
    ScanRendered(maps);
    ScanThenClose(RenderMaps(maps), maps);
  }

  /** An empty line after the last map changes nothing. */
  lemma ParseMapsRenderedBlank(maps: seq<ResourceMap>)
    requires |maps| > 0
    ensures ParseMapLines(RenderMaps(maps) + [""]) == Ok(maps)
  {
    ScanRenderedClosed(maps);
  }

  /** `parse_seeds`: the numbers after "seeds: ". */
  function ParseSeeds(line: string): (r: Result<seq<nat>>)
    ensures r.Ok? <==> "seeds: " <= line && ParseNats(Words(line[7..])).Ok?
    ensures r.Ok? ==> r.value == ParseNats(Words(line[7..])).value
  {
    match StripPrefix(line, "seeds: ")
    case None => Err(NoSeedsPrefix)
    case Some(rest) => ParseNats(Words(rest))
  }

  /** `parse_almanac`: the seeds from the first line and the maps from the
      third line on; the second line is never looked at. */
  function ParseAlmanac(lines: seq<string>): (r: Result<Almanac>)
    ensures r.Ok? <==> |lines| >= 2 && ParseSeeds(lines[0]).Ok? && ParseMapLines(lines[2..]).Ok?
    ensures r.Ok? ==> r.value == Almanac(ParseSeeds(lines[0]).value, ParseMapLines(lines[2..]).value)
  {
    if |lines| == 0 then Err(MissingLines)
    else
      var seeds :- ParseSeeds(lines[0]);
      if |lines| < 2 then Err(MissingLines)
      else
        var maps :- ParseMapLines(lines[2..]);
        Ok(Almanac(seeds, maps))
  }

  /** `parse_almanac` with the map lines read by the loop of `parse_maps`. */
  method ReadAlmanac(lines: seq<string>) returns (r: Result<Almanac>)
    ensures r == ParseAlmanac(lines)
  {
    if |lines| == 0 {
      return Err(MissingLines);
    }
    var seeds := ParseSeeds(lines[0]);
    if seeds.Err? {
      return Err(seeds.reason);
    }
    if |lines| < 2 {
      return Err(MissingLines);
    }
    var maps := ParseMaps(lines[2..]);
    if maps.Err? {
      return Err(maps.reason);
    }
    return Ok(Almanac(seeds.value, maps.value));
  }

  /** An almanac as the puzzle writes it. */
  function RenderAlmanac(a: Almanac): seq<string> {
    ["seeds: " + RenderNats(a.seeds), ""] + RenderMaps(a.maps)
  }

  /** A rendered almanac parses back to itself. */
  lemma ParseAlmanacRendered(a: Almanac)
    ensures ParseAlmanac(RenderAlmanac(a)) == Ok(a)
  {
    var lines := RenderAlmanac(a);
    var rest := RenderNats(a.seeds);
    assert StripPrefix(lines[0], "seeds: ") == Some(rest);
    RenderNatsFacts(a.seeds);
    assert lines[2..] == RenderMaps(a.maps);
    ParseMapsRendered(a.maps);
  }

  /** `part1_result`. */
  function Part1Result(lines: seq<string>): (r: Result<nat>)
    ensures ParseAlmanac(lines).Err? ==> r == Err(ParseAlmanac(lines).reason)
    ensures ParseAlmanac(lines).Ok? ==> r == Part1(ParseAlmanac(lines).value)
  {
    var a :- ParseAlmanac(lines);
    Part1(a)
  }

  /** `part2_result`. */
  method Part2Result(lines: seq<string>) returns (r: Result<nat>)
    ensures ParseAlmanac(lines).Err? ==> r == Err(ParseAlmanac(lines).reason)
    ensures ParseAlmanac(lines).Ok? ==> IsPart2Answer(ParseAlmanac(lines).value, r)
  {
    var a := ReadAlmanac(lines);
    if a.Err? {
      return Err(a.reason);
    }
    r := Part2(a.value);
  }
}
