/** Small ASCII tokenisers standing in for the Rust string library calls the
    solvers use: `char::to_digit(10)`, `str::parse` on unsigned integers,
    `split` on a character or a string, `split_ascii_whitespace`, `trim`,
    `find`, `skip_while` and `strip_prefix`. Text is a sequence of
    characters; only ASCII behaviour is modelled. */
module Text {
  import opened Results

  // ---------------------------------------------------------------------------
  // Characters

  predicate IsDigit(c: char) {
    '0' <= c <= '9'
  }

  /** `char::to_digit(10)` on an ASCII digit. */
  function DigitValue(c: char): (d: nat)
    requires IsDigit(c)
    ensures d < 10
  {
    (c as int) - ('0' as int)
  }

  function DigitChar(d: nat): (c: char)
    requires d < 10
    ensures IsDigit(c) && DigitValue(c) == d
  {
    (('0' as int) + d) as char
  }

  /** `char::is_ascii_whitespace`: space, tab, line feed, form feed, carriage return. */
  predicate IsWhitespace(c: char) {
    c == ' ' || c == '\t' || c == '\n' || c == '\r' || c as int == 12
  }

  /** `char::is_whitespace`: the characters with Unicode's White_Space
      property, which `str::trim` strips. */
  predicate IsUnicodeWhitespace(c: char) {
    (9 <= c as int <= 13) || c == ' ' || c as int == 0x85 || c as int == 0xA0 || c as int == 0x1680 ||
    (0x2000 <= c as int <= 0x200A) || c as int == 0x2028 || c as int == 0x2029 || c as int == 0x202F ||
    c as int == 0x205F || c as int == 0x3000
  }

  /** Text whose whitespace, in Unicode's sense, is all ASCII whitespace. */
  predicate AsciiWhitespaceOnly(s: string) {
    forall i :: 0 <= i < |s| && IsUnicodeWhitespace(s[i]) ==> IsWhitespace(s[i])
  }

  predicate AllDigits(s: string) {
    forall i :: 0 <= i < |s| ==> IsDigit(s[i])
  }

  predicate NoWhitespace(s: string) {
    forall i :: 0 <= i < |s| ==> !IsWhitespace(s[i])
  }

  // ---------------------------------------------------------------------------
  // Numbers

  /** Decimal reading of a digit string, most significant digit first, built up
      as `value * 10 + digit` from the left. */
  function DecimalValue(s: string): nat
    requires AllDigits(s)
  {
    if |s| == 0 then 0 else 10 * DecimalValue(s[..|s| - 1]) + DigitValue(s[|s| - 1])
  }

  /** Shortest decimal rendering of `n`; its decimal reading is `n` again. */
  function NatToString(n: nat): (s: string)
    ensures |s| > 0 && AllDigits(s)
    ensures DecimalValue(s) == n
    decreases n
  {
    if n < 10 then [DigitChar(n)]
    else
      var prefix := NatToString(n / 10);
      var s := prefix + [DigitChar(n % 10)];
      assert s[..|s| - 1] == prefix;
      s
  }

  /** `str::parse::<u32>` / `::<u64>` on ASCII: an optional '+' followed by at
      least one digit; anything else is an error. */
  function ParseNat(s: string): (r: Result<nat>)
  {
    if |s| > 0 && AllDigits(s) then Ok(DecimalValue(s))
    else if |s| > 1 && s[0] == '+' && AllDigits(s[1..]) then Ok(DecimalValue(s[1..]))
    else Err("invalid digit")
  }

  /** The parser accepts exactly the strings that are digits after an optional
      '+', and reads every rendered number back unchanged. */
  lemma ParseNatAccepts(s: string)
    ensures ParseNat(s).Ok? <==>
      (|s| > 0 && AllDigits(s)) || (|s| > 1 && s[0] == '+' && AllDigits(s[1..]))
    ensures ParseNat(s).Ok? && s[0] != '+' ==> ParseNat(s).value == DecimalValue(s)
  {
  }

  lemma ParseNatToString(n: nat)
    ensures ParseNat(NatToString(n)) == Ok(n)
  {
  }

  /** Parses every string in `ws`, failing on the first one that is not a number. */
  function ParseNats(ws: seq<string>): (r: Result<seq<nat>>)
    ensures r.Ok? ==> |r.value| == |ws|
    ensures r.Ok? <==> forall i :: 0 <= i < |ws| ==> ParseNat(ws[i]).Ok?
    ensures r.Ok? ==> forall i :: 0 <= i < |ws| ==> r.value[i] == ParseNat(ws[i]).value
  {
    if |ws| == 0 then Ok([])
    else
      var first :- ParseNat(ws[0]);
      var rest :- ParseNats(ws[1..]);
      assert forall i :: 1 <= i < |ws| ==> ws[i] == ws[1..][i - 1];
      Ok([first] + rest)
  }

  function NatsToStrings(ns: seq<nat>): (ws: seq<string>)
    ensures |ws| == |ns|
    ensures forall i :: 0 <= i < |ns| ==> ws[i] == NatToString(ns[i])
  {
    if |ns| == 0 then [] else [NatToString(ns[0])] + NatsToStrings(ns[1..])
  }

  lemma {:induction false} ParseNatsToStrings(ns: seq<nat>)
    ensures ParseNats(NatsToStrings(ns)) == Ok(ns)
  {
    var ws := NatsToStrings(ns);
    forall i | 0 <= i < |ns| ensures ParseNat(ws[i]) == Ok(ns[i]) {
      ParseNatToString(ns[i]);
    }
    var r := ParseNats(ws);
    assert r.Ok? && |r.value| == |ns|;
    assert r.value == ns;
  }

  // ---------------------------------------------------------------------------
  // Splitting on a pattern

  /** `str::split(pat)`: the pieces between the leftmost non-overlapping
      occurrences of `pat`; always at least one piece. */
  function SplitOn(s: string, pat: string): (r: seq<string>)
    requires |pat| > 0
    ensures |r| > 0
    decreases |s|
  {
    if |s| < |pat| then [s]
    else if s[..|pat|] == pat then [[]] + SplitOn(s[|pat|..], pat)
    else
      var rest := SplitOn(s[1..], pat);
      [[s[0]] + rest[0]] + rest[1..]
  }

  /** The inverse of splitting: the pieces with `sep` between each two. */
  function Join(parts: seq<string>, sep: string): string
  {
    if |parts| == 0 then []
    else if |parts| == 1 then parts[0]
    else parts[0] + sep + Join(parts[1..], sep)
  }

  lemma JoinCons(x: string, rest: seq<string>, sep: string)
    requires |rest| > 0
    ensures Join([x] + rest, sep) == x + sep + Join(rest, sep)
  {
    assert ([x] + rest)[1..] == rest;
  }

  lemma JoinTwo(a: string, b: string, sep: string)
    ensures Join([a, b], sep) == a + sep + b
  {
    JoinCons(a, [b], sep);
  }

  lemma JoinThree(a: string, b: string, d: string, sep: string)
    ensures Join([a, b, d], sep) == a + sep + b + sep + d
  {
    JoinCons(a, [b, d], sep);
    JoinTwo(b, d, sep);
  }

  /** Prepending a character to the first piece prepends it to the join. */
  lemma JoinConsChar(c: char, parts: seq<string>, sep: string)
    requires |parts| > 0
    ensures Join([[c] + parts[0]] + parts[1..], sep) == [c] + Join(parts, sep)
  {
    if |parts| > 1 {
      JoinCons([c] + parts[0], parts[1..], sep);
      JoinCons(parts[0], parts[1..], sep);
      assert [parts[0]] + parts[1..] == parts;
    }
  }

  /** Splitting loses nothing: joining the pieces gives the input back. */
  lemma {:induction false} JoinSplitOn(s: string, pat: string)
    requires |pat| > 0
    ensures Join(SplitOn(s, pat), pat) == s
    decreases |s|
  {
    if |s| < |pat| {
    } else if s[..|pat|] == pat {
      var rest := SplitOn(s[|pat|..], pat);
      assert SplitOn(s, pat) == [[]] + rest;
      JoinSplitOn(s[|pat|..], pat);
      JoinCons([], rest, pat);
      assert [] + pat + s[|pat|..] == s;
    } else {
      var rest := SplitOn(s[1..], pat);
      assert SplitOn(s, pat) == [[s[0]] + rest[0]] + rest[1..];
      JoinSplitOn(s[1..], pat);
      JoinConsChar(s[0], rest, pat);
      assert [s[0]] + s[1..] == s;
    }
  }

  /** A piece that does not contain the first character of the pattern is
      split off whole. */
  lemma {:induction false} SplitOnPiece(p: string, pat: string, t: string)
    requires |pat| > 0 && pat[0] !in p
    ensures SplitOn(p, pat) == [p]
    ensures SplitOn(p + pat + t, pat) == [p] + SplitOn(t, pat)
    decreases |p|
  {
    var s := p + pat + t;
    if |p| == 0 {
      assert s == pat + t && s[..|pat|] == pat && s[|pat|..] == t;
    } else {
      assert s[0] == p[0] != pat[0];
      assert s[..|pat|] != pat;
      assert pat[0] !in p[1..];
      SplitOnPiece(p[1..], pat, t);
      assert s[1..] == p[1..] + pat + t;
      assert [p[0]] + p[1..] == p;
      if |p| >= |pat| {
        assert p[..|pat|] != pat by { assert p[0] != pat[0]; }
      }
    }
  }

  /** Two pieces free of the separator split apart again. */
  lemma SplitTwo(l: string, r: string, pat: string)
    requires |pat| > 0 && pat[0] !in l && pat[0] !in r
    ensures SplitOn(l + pat + r, pat) == [l, r]
  {
    SplitOnPiece(r, pat, []);
    SplitOnPiece(l, pat, r);
  }

  /** Splitting inverts joining when no piece contains the pattern's first
      character. */
  lemma {:induction false} SplitOnJoin(parts: seq<string>, pat: string)
    requires |pat| > 0 && |parts| > 0
    requires forall i :: 0 <= i < |parts| ==> pat[0] !in parts[i]
    ensures SplitOn(Join(parts, pat), pat) == parts
  {
    if |parts| == 1 {
      SplitOnPiece(parts[0], pat, []);
    } else {
      SplitOnJoin(parts[1..], pat);
      SplitOnPiece(parts[0], pat, Join(parts[1..], pat));
      assert [parts[0]] + parts[1..] == parts;
    }
  }

  /** A character in no piece and not in the separator is not in the join. */
  lemma {:induction false} JoinAvoids(parts: seq<string>, sep: string, c: char)
    requires c !in sep && forall i :: 0 <= i < |parts| ==> c !in parts[i]
    ensures c !in Join(parts, sep)
  {
    if |parts| > 1 {
      JoinAvoids(parts[1..], sep, c);
    }
  }

  // ---------------------------------------------------------------------------
  // Whitespace

  /** Length of the leading run of non-whitespace characters. */
  function WordLength(s: string): (k: nat)
    ensures k <= |s|
    ensures forall i :: 0 <= i < k ==> !IsWhitespace(s[i])
    ensures k == |s| || IsWhitespace(s[k])
  {
    if |s| == 0 || IsWhitespace(s[0]) then 0 else 1 + WordLength(s[1..])
  }

  /** `str::split_ascii_whitespace`: the maximal runs of non-whitespace
      characters, in order. */
  function Words(s: string): (r: seq<string>)
    ensures forall i :: 0 <= i < |r| ==> |r[i]| > 0 && NoWhitespace(r[i])
    decreases |s|
  {
    if |s| == 0 then []
    else if IsWhitespace(s[0]) then Words(s[1..])
    else
      var k := WordLength(s);
      [s[..k]] + Words(s[k..])
  }

  /** Every non-whitespace character of the input ends up in a word, in order:
      the words concatenated are the input with its whitespace removed. */
  lemma {:induction false} WordsConcat(s: string)
    ensures Concat(Words(s)) == RemoveWhitespace(s)
    decreases |s|
  {
    if |s| == 0 {
    } else if IsWhitespace(s[0]) {
      WordsConcat(s[1..]);
      assert s == [s[0]] + s[1..];
    } else {
      var k := WordLength(s);
      WordsConcat(s[k..]);
      assert s == s[..k] + s[k..];
      RemoveWhitespaceAppend(s[..k], s[k..]);
      RemoveWhitespaceNone(s[..k]);
      assert ([s[..k]] + Words(s[k..]))[1..] == Words(s[k..]);
    }
  }

  function Concat(ws: seq<string>): string {
    if |ws| == 0 then [] else ws[0] + Concat(ws[1..])
  }

  /** The characters of `s` that are not whitespace, in order. */
  function RemoveWhitespace(s: string): (r: string)
    ensures NoWhitespace(r) && |r| <= |s|
  {
    if |s| == 0 then []
    else if IsWhitespace(s[0]) then RemoveWhitespace(s[1..])
    else [s[0]] + RemoveWhitespace(s[1..])
  }

  lemma {:induction false} RemoveWhitespaceAppend(a: string, b: string)
    ensures RemoveWhitespace(a + b) == RemoveWhitespace(a) + RemoveWhitespace(b)
  {
    if |a| > 0 {
      RemoveWhitespaceAppend(a[1..], b);
      assert (a + b)[1..] == a[1..] + b;
    } else {
      assert a + b == b;
    }
  }

  lemma {:induction false} RemoveWhitespaceNone(a: string)
    requires NoWhitespace(a)
    ensures RemoveWhitespace(a) == a
  {
    if |a| > 0 {
      RemoveWhitespaceNone(a[1..]);
      assert a == [a[0]] + a[1..];
    }
  }

  lemma {:induction false} WordLengthPrefix(w: string, t: string)
    requires NoWhitespace(w)
    requires |t| == 0 || IsWhitespace(t[0])
    ensures WordLength(w + t) == |w|
  {
    if |w| > 0 {
      assert (w + t)[1..] == w[1..] + t;
      WordLengthPrefix(w[1..], t);
    } else {
      assert w + t == t;
    }
  }

  /** A whole word followed by whitespace or the end is read back as one word. */
  lemma WordsPrefix(w: string, t: string)
    requires |w| > 0 && NoWhitespace(w)
    requires |t| == 0 || IsWhitespace(t[0])
    ensures Words(w + t) == [w] + Words(t)
  {
    WordLengthPrefix(w, t);
    assert (w + t)[..|w|] == w;
    assert (w + t)[|w|..] == t;
  }

  /** Leading and trailing whitespace does not change the words. */
  lemma WordsLeadingSpace(s: string)
    ensures Words(" " + s) == Words(s)
  {
    assert (" " + s)[1..] == s;
  }

  lemma {:induction false} WordsTrailingWhitespace(s: string, c: char)
    requires IsWhitespace(c)
    ensures Words(s + [c]) == Words(s)
    decreases |s|
  {
    if |s| == 0 {
      assert Words([c]) == Words([]) by { assert [c][1..] == []; }
    } else if IsWhitespace(s[0]) {
      assert (s + [c])[1..] == s[1..] + [c];
      WordsTrailingWhitespace(s[1..], c);
    } else {
      var k := WordLength(s);
      WordLengthExtend(s, c);
      assert (s + [c])[..k] == s[..k];
      assert (s + [c])[k..] == s[k..] + [c];
      WordsTrailingWhitespace(s[k..], c);
    }
  }

  lemma {:induction false} WordLengthExtend(s: string, c: char)
    requires IsWhitespace(c)
    ensures WordLength(s + [c]) == WordLength(s)
  {
    if |s| > 0 && !IsWhitespace(s[0]) {
      assert (s + [c])[1..] == s[1..] + [c];
      WordLengthExtend(s[1..], c);
    }
  }

  /** `k` spaces. */
  function Spaces(k: nat): (r: string)
    ensures |r| == k
    ensures forall i :: 0 <= i < k ==> r[i] == ' '
  {
    if k == 0 then [] else " " + Spaces(k - 1)
  }

  /** A word after some spaces and before whitespace or the end is the first
      word. */
  lemma {:induction false} WordsAfterSpaces(k: nat, w: string, t: string)
    requires |w| > 0 && NoWhitespace(w)
    requires |t| == 0 || IsWhitespace(t[0])
    ensures Words(Spaces(k) + w + t) == [w] + Words(t)
  {
    if k == 0 {
      assert Spaces(k) + w + t == w + t;
      WordsPrefix(w, t);
    } else {
      WordsAfterSpaces(k - 1, w, t);
      assert Spaces(k) + w + t == " " + (Spaces(k - 1) + w + t);
      WordsLeadingSpace(Spaces(k - 1) + w + t);
    }
  }

  /** Words separated by single spaces are read back unchanged. */
  lemma WordsJoin(ws: seq<string>)
    requires forall i :: 0 <= i < |ws| ==> |ws[i]| > 0 && NoWhitespace(ws[i])
    ensures Words(Join(ws, " ")) == ws
  {
    forall i | 0 <= i < |ws| ensures ws[i] == Spaces(0) + ws[i] {
    }
    WordsJoinPadded(ws, ws);
  }

  /** Numbers written in decimal, separated by single spaces. */
  function RenderNats(ns: seq<nat>): string {
    Join(NatsToStrings(ns), " ")
  }

  /** Rendered numbers split into their own words, parse back, and consist
      of digits and spaces only. */
  lemma RenderNatsFacts(ns: seq<nat>)
    ensures Words(RenderNats(ns)) == NatsToStrings(ns)
    ensures ParseNats(Words(RenderNats(ns))) == Ok(ns)
    ensures forall c :: c in RenderNats(ns) ==> IsDigit(c) || c == ' '
  {
    var ws := NatsToStrings(ns);
    forall i | 0 <= i < |ws| ensures |ws[i]| > 0 && NoWhitespace(ws[i]) {
      assert AllDigits(ws[i]);
    }
    WordsJoin(ws);
    ParseNatsToStrings(ns);
    JoinDigits(ws);
  }

  lemma RenderNatsAvoids(ns: seq<nat>, c: char)
    requires !IsDigit(c) && c != ' '
    ensures c !in RenderNats(ns)
  {
    RenderNatsFacts(ns);
  }

  lemma {:induction false} JoinDigits(ws: seq<string>)
    requires forall i :: 0 <= i < |ws| ==> forall c :: c in ws[i] ==> IsDigit(c) || c == ' '
    ensures forall c :: c in Join(ws, " ") ==> IsDigit(c) || c == ' '
  {
    if |ws| > 1 {
      JoinDigits(ws[1..]);
    }
  }

  lemma {:induction false} WordLengthAppend(a: string, x: string)
    requires WordLength(a) < |a| || |x| == 0 || IsWhitespace(x[0])
    ensures WordLength(a + x) == WordLength(a)
  {
    if |a| == 0 {
      assert a + x == x;
    } else if !IsWhitespace(a[0]) {
      assert (a + x)[1..] == a[1..] + x;
      WordLengthAppend(a[1..], x);
    }
  }

  /** A space separates words: the words of `a + " " + b` are those of `a`
      followed by those of `b`. */
  lemma {:induction false} WordsAroundSpace(a: string, b: string)
    ensures Words(a + " " + b) == Words(a) + Words(b)
    decreases |a|
  {
    var s := a + " " + b;
    if |a| == 0 {
      assert s == " " + b;
      WordsLeadingSpace(b);
    } else if IsWhitespace(a[0]) {
      assert s[1..] == a[1..] + " " + b;
      WordsAroundSpace(a[1..], b);
    } else {
      var k := WordLength(a);
      WordLengthAppend(a, " " + b);
      assert s == a + (" " + b);
      assert s[..k] == a[..k];
      assert s[k..] == a[k..] + " " + b;
      WordsAroundSpace(a[k..], b);
    }
  }

  /** `w` right-aligned in a column `width` characters wide: spaces before it
      up to that width, none when it is already as wide. */
  function PadLeft(w: string, width: nat): (r: string)
    ensures |r| == if |w| < width then width else |w|
    ensures r == Spaces(|r| - |w|) + w
  {
    if |w| < width then Spaces(width - |w|) + w else Spaces(0) + w
  }

  /** Every number in decimal, right-aligned in a column `width` wide. */
  function AlignedNats(ns: seq<nat>, width: nat): (ws: seq<string>)
    ensures |ws| == |ns|
    ensures forall i :: 0 <= i < |ns| ==> ws[i] == PadLeft(NatToString(ns[i]), width)
  {
    seq(|ns|, i requires 0 <= i < |ns| => PadLeft(NatToString(ns[i]), width))
  }

  /** Numbers in columns `width` wide separated by single spaces, as the
      puzzles lay out their tables; width 0 gives single spaces throughout. */
  function RenderNatsAligned(ns: seq<nat>, width: nat): string {
    Join(AlignedNats(ns, width), " ")
  }

  /** Padded words separated by single spaces are read back without their
      padding. */
  lemma {:induction false} WordsJoinPadded(parts: seq<string>, ws: seq<string>)
    requires |parts| == |ws|
    requires forall i :: 0 <= i < |ws| ==> |ws[i]| > 0 && NoWhitespace(ws[i])
    requires forall i :: 0 <= i < |ws| ==> |ws[i]| <= |parts[i]| && parts[i] == Spaces(|parts[i]| - |ws[i]|) + ws[i]
    ensures Words(Join(parts, " ")) == ws
  {
    if |ws| > 0 {
      var k := |parts[0]| - |ws[0]|;
      WordsAfterSpaces(k, ws[0], []);
      assert Spaces(k) + ws[0] + [] == parts[0];
      if |ws| > 1 {
        WordsJoinPadded(parts[1..], ws[1..]);
        assert Join(parts, " ") == parts[0] + " " + Join(parts[1..], " ");
        WordsAroundSpace(parts[0], Join(parts[1..], " "));
        assert [ws[0]] + ws[1..] == ws;
      }
    }
  }

  /** Aligned numbers split into their own words, parse back, and consist of
      digits and spaces only, whatever the column width. */
  lemma RenderNatsAlignedFacts(ns: seq<nat>, width: nat)
    ensures Words(RenderNatsAligned(ns, width)) == NatsToStrings(ns)
    ensures ParseNats(Words(RenderNatsAligned(ns, width))) == Ok(ns)
    ensures forall c :: c in RenderNatsAligned(ns, width) ==> IsDigit(c) || c == ' '
  {
    AlignedNatsWords(ns, width);
    ParseNatsToStrings(ns);
    AlignedNatsChars(ns, width);
  }

  lemma AlignedNatsWords(ns: seq<nat>, width: nat)
    ensures Words(Join(AlignedNats(ns, width), " ")) == NatsToStrings(ns)
  {
    var parts := AlignedNats(ns, width);
    var ws := NatsToStrings(ns);
    forall i | 0 <= i < |ws| ensures |ws[i]| > 0 && NoWhitespace(ws[i]) {
      assert AllDigits(ws[i]);
    }
    WordsJoinPadded(parts, ws);
  }

  lemma AlignedNatsChars(ns: seq<nat>, width: nat)
    ensures forall c :: c in Join(AlignedNats(ns, width), " ") ==> IsDigit(c) || c == ' '
  {
    var parts := AlignedNats(ns, width);
    var ws := NatsToStrings(ns);
    forall i | 0 <= i < |parts| ensures forall c :: c in parts[i] ==> IsDigit(c) || c == ' ' {
      PaddedDigits(|parts[i]| - |ws[i]|, ws[i]);
    }
    JoinDigits(parts);
  }

  /** Digits after spaces hold only digits and spaces. */
  lemma PaddedDigits(k: nat, w: string)
    requires AllDigits(w)
    ensures forall c :: c in Spaces(k) + w ==> IsDigit(c) || c == ' '
  {
    var s := Spaces(k) + w;
    forall c | c in s ensures IsDigit(c) || c == ' ' {
      var j :| 0 <= j < |s| && s[j] == c;
      if j >= k {
        assert s[j] == w[j - k];
      }
    }
  }

  /** `str::trim_start`: the input without its leading whitespace, in
      Unicode's sense. */
  function TrimStart(s: string): (r: string)
    ensures |r| <= |s| && r == s[|s| - |r|..]
    ensures forall i :: 0 <= i < |s| - |r| ==> IsUnicodeWhitespace(s[i])
    ensures |r| > 0 ==> !IsUnicodeWhitespace(r[0])
  {
    if |s| > 0 && IsUnicodeWhitespace(s[0]) then TrimStart(s[1..]) else s
  }

  /** `str::trim_end`: the input without its trailing whitespace. */
  function TrimEnd(s: string): (r: string)
    ensures |r| <= |s| && r == s[..|r|]
    ensures forall i :: |r| <= i < |s| ==> IsUnicodeWhitespace(s[i])
    ensures |r| > 0 ==> !IsUnicodeWhitespace(r[|r| - 1])
  {
    if |s| > 0 && IsUnicodeWhitespace(s[|s| - 1]) then TrimEnd(s[..|s| - 1]) else s
  }

  /** `str::trim`: the input without its leading and trailing whitespace. */
  function Trim(s: string): string {
    TrimEnd(TrimStart(s))
  }

  predicate NoUnicodeWhitespace(s: string) {
    forall i :: 0 <= i < |s| ==> !IsUnicodeWhitespace(s[i])
  }

  lemma TrimPadded(w: string)
    requires NoUnicodeWhitespace(w)
    ensures Trim(" " + w) == w && Trim(w + " ") == w
  {
    assert (" " + w)[1..] == w;
    if |w| > 0 {
      assert (w + " ")[..|w|] == w;
      assert TrimStart(w + " ") == w + " ";
    } else {
      assert w + " " == " ";
      assert " "[1..] == [];
    }
  }

  lemma AsciiWhitespaceOnlyAppend(a: string, b: string)
    requires AsciiWhitespaceOnly(a) && AsciiWhitespaceOnly(b)
    ensures AsciiWhitespaceOnly(a + b)
  {
    forall i | 0 <= i < |a + b| && IsUnicodeWhitespace((a + b)[i]) ensures IsWhitespace((a + b)[i]) {
      if i < |a| {
        assert (a + b)[i] == a[i];
      } else {
        assert (a + b)[i] == b[i - |a|];
      }
    }
  }

  /** Trimming text whose whitespace is all ASCII changes neither its words
      nor the text with its whitespace removed. */
  lemma {:induction false} WordsTrim(s: string)
    requires AsciiWhitespaceOnly(s)
    ensures Words(Trim(s)) == Words(s)
    ensures RemoveWhitespace(Trim(s)) == RemoveWhitespace(s)
  {
    WordsTrimStart(s);
    var t := TrimStart(s);
    assert t == s[|s| - |t|..];
    WordsTrimEnd(t);
  }

  lemma {:induction false} WordsTrimStart(s: string)
    requires AsciiWhitespaceOnly(s)
    ensures Words(TrimStart(s)) == Words(s)
    ensures RemoveWhitespace(TrimStart(s)) == RemoveWhitespace(s)
    decreases |s|
  {
    if |s| > 0 && IsUnicodeWhitespace(s[0]) {
      assert IsWhitespace(s[0]);
      WordsTrimStart(s[1..]);
    }
  }

  lemma {:induction false} WordsTrimEnd(s: string)
    requires AsciiWhitespaceOnly(s)
    ensures Words(TrimEnd(s)) == Words(s)
    ensures RemoveWhitespace(TrimEnd(s)) == RemoveWhitespace(s)
    decreases |s|
  {
    if |s| > 0 && IsUnicodeWhitespace(s[|s| - 1]) {
      var t := s[..|s| - 1];
      var c := s[|s| - 1];
      assert IsWhitespace(c);
      assert s == t + [c];
      WordsTrimEnd(t);
      WordsTrailingWhitespace(t, c);
      RemoveWhitespaceAppend(t, [c]);
    }
  }

  // ---------------------------------------------------------------------------
  // Searching and cutting

  /** `str::find(c)`: the index of the first occurrence of `c`, if any. */
  function Find(s: string, c: char): (r: Option<nat>)
    ensures r.Some? ==> r.value < |s| && s[r.value] == c && c !in s[..r.value]
    ensures r.None? ==> c !in s
  {
    if |s| == 0 then None
    else if s[0] == c then Some(0)
    else
      match Find(s[1..], c)
      case None => None
      case Some(i) => assert s[..i + 1] == [s[0]] + s[1..][..i]; Some(i + 1)
  }

  /** The first `c` of `p + [c] + t` is the one after `p` when `p` has none. */
  lemma FindAfter(p: string, c: char, t: string)
    requires c !in p
    ensures Find(p + [c] + t, c) == Some(|p|)
  {
    var s := p + [c] + t;
    assert s[|p|] == c;
    assert forall i :: 0 <= i < |p| ==> s[i] == p[i];
    assert forall v :: |p| < v <= |s| ==> s[..v][|p|] == c;
  }

  /** `chars().skip_while(|x| x != c).skip(n)`: what follows the first `c`
      after `n - 1` more characters are dropped; empty when there is no `c`. */
  function SkipPast(s: string, c: char, n: nat): (r: string)
    ensures Find(s, c).None? ==> r == []
    ensures Find(s, c).Some? ==> r == s[Min(Find(s, c).value + n, |s|)..]
  {
    match Find(s, c)
    case None => []
    case Some(i) => s[Min(i + n, |s|)..]
  }

  function Min(a: int, b: int): int {
    if a <= b then a else b
  }

  /** `str::strip_prefix`. */
  function StripPrefix(s: string, prefix: string): (r: Option<string>)
    ensures r.Some? <==> prefix <= s
    ensures r.Some? ==> s == prefix + r.value
  {
    if prefix <= s then Some(s[|prefix|..]) else None
  }

  /** `str::replace(c, "")`: the input without any occurrence of `c`. */
  function RemoveChar(s: string, c: char): (r: string)
    ensures c !in r
    ensures forall x :: x != c ==> multiset(r)[x] == multiset(s)[x]
  {
    if |s| == 0 then []
    else
      assert s == [s[0]] + s[1..];
      if s[0] == c then RemoveChar(s[1..], c) else [s[0]] + RemoveChar(s[1..], c)
  }

  lemma {:induction false} RemoveCharAbsent(s: string, c: char)
    requires c !in s
    ensures RemoveChar(s, c) == s
  {
    if |s| > 0 {
      RemoveCharAbsent(s[1..], c);
      assert s == [s[0]] + s[1..];
    }
  }

  lemma {:induction false} RemoveCharAppend(a: string, b: string, c: char)
    ensures RemoveChar(a + b, c) == RemoveChar(a, c) + RemoveChar(b, c)
  {
    if |a| > 0 {
      RemoveCharAppend(a[1..], b, c);
      assert (a + b)[1..] == a[1..] + b;
    } else {
      assert a + b == b;
    }
  }
}
