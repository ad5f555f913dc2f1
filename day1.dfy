/** Calibration values (src/day1.rs): the first and last digit token of a line
    form a two-digit number. Part 1 reads only digit characters; part 2 also
    reads the spelled-out words "one" .. "nine", overlapping ones included. */
module Day1 {
  import opened Results
  import opened Text

  /** The digit characters of a line, as values, in order
      (`filter_map(|c| c.to_digit(10))`). */
  function Digits(line: string): (ds: seq<nat>)
    ensures |ds| <= |line|
    ensures forall i :: 0 <= i < |ds| ==> ds[i] < 10
  {
    if |line| == 0 then []
    else
      var last := line[|line| - 1];
      Digits(line[..|line| - 1]) + (if IsDigit(last) then [DigitValue(last)] else [])
  }

  /** A line has a digit token exactly when it has a digit character. */
  lemma {:induction false} DigitsEmpty(line: string)
    ensures |Digits(line)| == 0 <==> forall i :: 0 <= i < |line| ==> !IsDigit(line[i])
  {
    if |line| > 0 {
      var init := line[..|line| - 1];
      DigitsEmpty(init);
      assert forall i :: 0 <= i < |init| ==> init[i] == line[i];
    }
  }

  lemma {:induction false} DigitsAppend(a: string, b: string)
    ensures Digits(a + b) == Digits(a) + Digits(b)
    decreases |b|
  {
    if |b| == 0 {
      assert a + b == a;
    } else {
      var init := b[..|b| - 1];
      DigitsAppend(a, init);
      assert (a + b)[..|a + b| - 1] == a + init;
      assert (a + b)[|a + b| - 1] == b[|b| - 1];
    }
  }

  /** The first and last token as a two-digit number (src/day1.rs:13-19,
      44-50); a single token is used twice, and no token at all is fatal. */
  function Calibration(tokens: seq<nat>): (r: Result<nat>)
    requires forall i :: 0 <= i < |tokens| ==> tokens[i] < 10
    ensures r.Ok? <==> |tokens| > 0
    ensures r.Ok? ==> r.value <= 99
    ensures r.Ok? ==> r.value / 10 == tokens[0] && r.value % 10 == tokens[|tokens| - 1]
  {
    if |tokens| == 0 then Err("no digit in line")
    else if |tokens| == 1 then Ok(tokens[0] * 10 + tokens[0])
    else Ok(tokens[0] * 10 + tokens[|tokens| - 1])
  }

  /** Part 1 value of one line. */
  function Part1ParseLine(line: string): (r: Result<nat>)
    ensures r.Ok? <==> exists i :: 0 <= i < |line| && IsDigit(line[i])
    ensures r.Ok? ==> r.value <= 99
  {
    DigitsEmpty(line);
    Calibration(Digits(line))
  }

  // ---------------------------------------------------------------------------
  // Part 2: spelled-out digits

  const NumberWords: seq<string> :=
    ["one", "two", "three", "four", "five", "six", "seven", "eight", "nine"]

  /** `words.iter().position(|&x| x == word)`, searching from index `k` on. */
  function PositionFrom(words: seq<string>, word: string, k: nat): (r: Option<nat>)
    requires k <= |words|
    ensures r.Some? ==> k <= r.value < |words| && words[r.value] == word
    ensures r.Some? ==> forall m :: k <= m < r.value ==> words[m] != word
    ensures r.None? ==> forall m :: k <= m < |words| ==> words[m] != word
    decreases |words| - k
  {
    if k == |words| then None
    else if words[k] == word then Some(k)
    else PositionFrom(words, word, k + 1)
  }

  /** The position of a candidate word in the list of number words. */
  function WordIndex(word: string): (r: Option<nat>)
    ensures r.Some? ==> r.value < 9 && NumberWords[r.value] == word
    ensures r.None? ==> word !in NumberWords
  {
    PositionFrom(NumberWords, word, 0)
  }

  /** No entry of `words` is empty, and none is a prefix of another: at any
      position at most one entry can start. */
  predicate PrefixFree(words: seq<string>) {
    (forall a :: 0 <= a < |words| ==> |words[a]| > 0) &&
    (forall a, b :: 0 <= a < |words| && 0 <= b < |words| && words[a] <= words[b] ==> a == b)
  }

  /** The token a candidate word contributes: its 1-based position in
      `words`, or nothing. */
  function WordToken(words: seq<string>, word: string): (t: seq<nat>)
    ensures |t| <= 1
  {
    match PositionFrom(words, word, 0)
    case Some(p) => [p + 1]
    case None => []
  }

  /** Tokens of the inner loop at a non-digit position `i`, for the candidate
      ends `i < j <= upto`, looked up in `words` (src/day1.rs:74-82). */
  function WordsFrom(words: seq<string>, line: string, i: nat, upto: nat): seq<nat>
    requires i <= upto <= |line|
    decreases upto
  {
    if upto <= i then [] else WordsFrom(words, line, i, upto - 1) + WordToken(words, line[i..upto])
  }

  /** Tokens emitted at position `i` (src/day1.rs:69-83). */
  function TokensAt(line: string, i: nat): seq<nat>
    requires i < |line|
  {
    if IsDigit(line[i]) then [DigitValue(line[i])] else WordsFrom(NumberWords, line, i, |line|)
  }

  /** Tokens emitted for the positions before `n`, in order. */
  function TokensBefore(line: string, n: nat): seq<nat>
    requires n <= |line|
  {
    if n == 0 then [] else TokensBefore(line, n - 1) + TokensAt(line, n - 1)
  }

  /** `part2_extract_all_digits`: every position that holds a digit emits it;
      every other position emits the number of each word that starts there. */
  method ExtractAllDigits(line: string) returns (result: seq<nat>)
    ensures result == TokensBefore(line, |line|)
  {
    result := [];
    for i := 0 to |line|
      invariant result == TokensBefore(line, i)
    {
      var c := line[i];
      if IsDigit(c) {
        var digit: nat := DigitValue(c);
        result := result + [digit];
      } else {
        result := PushWords(line, i, result);
      }
      TokensBeforeNext(line, i);
    }
  }

  /** The inner loop of `part2_extract_all_digits` at a non-digit position:
      it tries every candidate end and pushes the number of each word found. */
  method PushWords(line: string, i: nat, prefix: seq<nat>) returns (result: seq<nat>)
    requires i < |line|
    ensures result == prefix + WordsFrom(NumberWords, line, i, |line|)
  {
    result := prefix;
    for j := i to |line|
      invariant result == prefix + WordsFrom(NumberWords, line, i, j)
    {
      var word := line[i..j + 1];
      var position := WordIndex(word);
      if position.Some? {
        var token: nat := position.value + 1;
        result := result + [token];
      }
      PushedToken(NumberWords, line, i, j, prefix, position);
    }
  }

  lemma WordsFromNext(words: seq<string>, line: string, i: nat, j: nat)
    requires i <= j < |line|
    ensures WordsFrom(words, line, i, j + 1) == WordsFrom(words, line, i, j) + WordToken(words, line[i..j + 1])
  {
  }

  /** One step of the inner loop pushes the candidate's token. */
  lemma PushedToken(words: seq<string>, line: string, i: nat, j: nat, prefix: seq<nat>, position: Option<nat>)
    requires i <= j < |line| && position == PositionFrom(words, line[i..j + 1], 0)
    ensures prefix + WordsFrom(words, line, i, j + 1)
         == prefix + WordsFrom(words, line, i, j) + (if position.Some? then [position.value + 1] else [])
  {
    WordsFromNext(words, line, i, j);
  }

  lemma TokensBeforeNext(line: string, i: nat)
    requires i < |line|
    ensures TokensBefore(line, i + 1) == TokensBefore(line, i) + TokensAt(line, i)
  {
  }

  /** Part 2 value of one line (src/day1.rs:42-51). */
  method Part2ParseLine(line: string) returns (r: Result<nat>)
    ensures var tokens := TokensBefore(line, |line|);
      && (r.Ok? <==> |tokens| > 0)
      && (r.Ok? ==> r.value <= 99 && r.value / 10 == tokens[0] && r.value % 10 == tokens[|tokens| - 1])
  {
    var tokens := ExtractAllDigits(line);
    TokensBounded(line, |line|);
    r := Calibration(tokens);
  }

  // ---------------------------------------------------------------------------
  // Properties of the part-2 tokens

  /** Every number word starts with a lower-case letter. */
  lemma WordLetters(k: nat)
    requires k < 9
    ensures |NumberWords[k]| >= 3 && 'a' <= NumberWords[k][0] <= 'z'
  {
  }

  /** No two number words share their first two letters. */
  lemma FirstTwoLettersDistinct(a: nat, b: nat)
    requires a < 9 && b < 9 && a != b
    ensures NumberWords[a][0] != NumberWords[b][0] || NumberWords[a][1] != NumberWords[b][1]
  {
    assert NumberWords[0][0] == 'o' && NumberWords[0][1] == 'n';
    assert NumberWords[1][0] == 't' && NumberWords[1][1] == 'w';
    assert NumberWords[2][0] == 't' && NumberWords[2][1] == 'h';
    assert NumberWords[3][0] == 'f' && NumberWords[3][1] == 'o';
    assert NumberWords[4][0] == 'f' && NumberWords[4][1] == 'i';
    assert NumberWords[5][0] == 's' && NumberWords[5][1] == 'i';
    assert NumberWords[6][0] == 's' && NumberWords[6][1] == 'e';
    assert NumberWords[7][0] == 'e' && NumberWords[7][1] == 'i';
    assert NumberWords[8][0] == 'n' && NumberWords[8][1] == 'i';
  }

  /** Hence no number word is a proper prefix of another. */
  lemma NoWordIsPrefixOfAnother(a: nat, b: nat)
    requires a < 9 && b < 9 && NumberWords[a] <= NumberWords[b]
    ensures a == b
  {
    if a != b {
      FirstTwoLettersDistinct(a, b);
    }
  }

  /** The number words are prefix-free. */
  lemma NumberWordsPrefixFree()
    ensures |NumberWords| == 9 && PrefixFree(NumberWords)
  {
    forall a | 0 <= a < 9 ensures |NumberWords[a]| > 0 {
      WordLetters(a);
    }
    forall a, b | 0 <= a < 9 && 0 <= b < 9 && NumberWords[a] <= NumberWords[b] ensures a == b {
      NoWordIsPrefixOfAnother(a, b);
    }
  }

  /** Entry `k` of `words` starts at position `i` and ends before `upto`. */
  predicate WordEndsBefore(words: seq<string>, line: string, i: nat, upto: nat, k: nat)
    requires i <= upto <= |line| && k < |words|
  {
    i + |words[k]| <= upto && line[i..i + |words[k]|] == words[k]
  }

  /** No entry of `words` starts at position `i` and ends before `upto`. */
  predicate NoWordEndsBefore(words: seq<string>, line: string, i: nat, upto: nat)
    requires i <= upto <= |line|
  {
    forall k: nat :: k < |words| ==> !WordEndsBefore(words, line, i, upto, k)
  }

  /** Two entries of a prefix-free list that both start at position `i` are
      the same entry. */
  lemma SameStart(words: seq<string>, line: string, i: nat, a: nat, b: nat)
    requires PrefixFree(words)
    requires i <= |line| && a < |words| && b < |words| && |words[a]| <= |words[b]|
    requires WordEndsBefore(words, line, i, |line|, a) && WordEndsBefore(words, line, i, |line|, b)
    ensures a == b
  {
    var wa, wb := words[a], words[b];
    assert line[i..i + |wb|][..|wa|] == line[i..i + |wa|];
    assert wa <= wb;
  }

  /** `SameStart` for entries in either order of length. */
  lemma SameStartAny(words: seq<string>, line: string, i: int, a: int, b: int)
    ensures (PrefixFree(words) && 0 <= i <= |line| && 0 <= a < |words| && 0 <= b < |words| &&
             WordEndsBefore(words, line, i, |line|, a) && WordEndsBefore(words, line, i, |line|, b)) ==> a == b
  {
    if PrefixFree(words) && 0 <= i <= |line| && 0 <= a < |words| && 0 <= b < |words| &&
      WordEndsBefore(words, line, i, |line|, a) && WordEndsBefore(words, line, i, |line|, b) {
      if |words[a]| <= |words[b]| {
        SameStart(words, line, i, a, b);
      } else {
        SameStart(words, line, i, b, a);
      }
    }
  }

  /** Entry `k` of a prefix-free list contributes k + 1. */
  lemma WordTokenOfWord(words: seq<string>, w: string, k: nat)
    requires PrefixFree(words) && k < |words| && w == words[k]
    ensures WordToken(words, w) == [k + 1]
  {
    var position := PositionFrom(words, w, 0);
    assert position.Some?;
    assert words[position.value] <= words[k];
  }

  lemma WordEndsBeforeWiden(words: seq<string>, line: string, i: nat, upto: nat, upto': nat, k: nat)
    requires i <= upto <= upto' <= |line| && k < |words|
    ensures WordEndsBefore(words, line, i, upto, k) ==> WordEndsBefore(words, line, i, upto', k)
    ensures WordEndsBefore(words, line, i, upto', k) && i + |words[k]| <= upto ==> WordEndsBefore(words, line, i, upto, k)
  {
  }

  /** The inner loop emits exactly the number of the entry that starts at
      `i` within `line[i..upto]`, and nothing when none does. */
  lemma {:induction false} WordsFromMatch(words: seq<string>, line: string, i: nat, upto: nat)
    requires PrefixFree(words) && i <= upto <= |line|
    ensures forall k: nat :: k < |words| && WordEndsBefore(words, line, i, upto, k) ==>
      WordsFrom(words, line, i, upto) == [k + 1]
    ensures NoWordEndsBefore(words, line, i, upto) ==> WordsFrom(words, line, i, upto) == []
    decreases upto
  {
    if upto > i {
      var prev: nat := upto - 1;
      WordsFromMatch(words, line, i, prev);
      WordsFromHit(words, line, i, prev, upto);
      WordsFromNone(words, line, i, prev, upto);
    }
  }

  lemma WordsFromHit(words: seq<string>, line: string, i: nat, prev: nat, upto: nat)
    requires PrefixFree(words) && i <= prev && prev + 1 == upto <= |line|
    requires forall k': nat :: k' < |words| && WordEndsBefore(words, line, i, prev, k') ==>
      WordsFrom(words, line, i, prev) == [k' + 1]
    requires NoWordEndsBefore(words, line, i, prev) ==> WordsFrom(words, line, i, prev) == []
    ensures forall k: nat :: k < |words| && WordEndsBefore(words, line, i, upto, k) ==>
      WordsFrom(words, line, i, upto) == [k + 1]
  {
    forall k: nat | k < |words| && WordEndsBefore(words, line, i, upto, k)
      ensures WordsFrom(words, line, i, upto) == [k + 1]
    {
      WordsFromStep(words, line, i, prev, upto, k);
    }
  }

  lemma WordsFromStep(words: seq<string>, line: string, i: nat, prev: nat, upto: nat, k: nat)
    requires PrefixFree(words) && i <= prev && prev + 1 == upto <= |line|
    requires k < |words| && WordEndsBefore(words, line, i, upto, k)
    requires forall k': nat :: k' < |words| && WordEndsBefore(words, line, i, prev, k') ==>
      WordsFrom(words, line, i, prev) == [k' + 1]
    requires NoWordEndsBefore(words, line, i, prev) ==> WordsFrom(words, line, i, prev) == []
    ensures WordsFrom(words, line, i, upto) == [k + 1]
  {
    WordsFromNext(words, line, i, prev);
    WordEndsBeforeWiden(words, line, i, upto, |line|, k);
    if i + |words[k]| == upto {
      WordEndsHere(words, line, i, prev, upto, k);
    } else {
      WordEndsBeforeWiden(words, line, i, prev, upto, k);
      assert WordEndsBefore(words, line, i, prev, k);
      NotAnotherWord(words, line, i, upto, k);
    }
  }

  /** When entry `k` ends exactly at `upto`, no entry ends earlier and the
      candidate `line[i..upto]` is that entry. */
  lemma WordEndsHere(words: seq<string>, line: string, i: nat, prev: nat, upto: nat, k: nat)
    requires PrefixFree(words) && i <= prev && prev + 1 == upto <= |line| && k < |words|
    requires WordEndsBefore(words, line, i, |line|, k) && i + |words[k]| == upto
    ensures NoWordEndsBefore(words, line, i, prev)
    ensures WordToken(words, line[i..upto]) == [k + 1]
  {
    WordTokenOfWord(words, line[i..upto], k);
    forall k': nat | k' < |words| ensures !WordEndsBefore(words, line, i, prev, k') {
      if WordEndsBefore(words, line, i, prev, k') {
        WordEndsBeforeWiden(words, line, i, prev, |line|, k');
        SameStart(words, line, i, k', k);
      }
    }
  }

  /** When entry `k` starts at `i`, a candidate of another length is no entry. */
  lemma NotAnotherWord(words: seq<string>, line: string, i: nat, upto: nat, k: nat)
    requires PrefixFree(words) && i <= upto <= |line| && k < |words|
    requires WordEndsBefore(words, line, i, |line|, k) && i + |words[k]| != upto
    ensures WordToken(words, line[i..upto]) == []
  {
    var w := line[i..upto];
    match PositionFrom(words, w, 0)
    case None =>
    case Some(p) =>
      SameStartAny(words, line, i, k, p);
      assert false;
  }

  lemma WordsFromNone(words: seq<string>, line: string, i: nat, prev: nat, upto: nat)
    requires i <= prev && prev + 1 == upto <= |line|
    requires NoWordEndsBefore(words, line, i, prev) ==> WordsFrom(words, line, i, prev) == []
    ensures NoWordEndsBefore(words, line, i, upto) ==> WordsFrom(words, line, i, upto) == []
  {
    if NoWordEndsBefore(words, line, i, upto) {
      forall k: nat | k < |words| ensures !WordEndsBefore(words, line, i, prev, k) {
        WordEndsBeforeWiden(words, line, i, prev, upto, k);
      }
      WordsFromNext(words, line, i, prev);
      CandidateIsWord(words, line, i, upto);
    }
  }

  /** A candidate found in `words` is an entry ending at `upto`. */
  lemma CandidateIsWord(words: seq<string>, line: string, i: nat, upto: nat)
    requires i <= upto <= |line|
    ensures WordToken(words, line[i..upto]) != [] ==>
      exists k: nat :: k < |words| && WordEndsBefore(words, line, i, upto, k)
  {
    match PositionFrom(words, line[i..upto], 0)
    case None =>
    case Some(p) =>
      assert WordEndsBefore(words, line, i, upto, p);
  }

  /** Entry `k` ends before the end of the line exactly when the rest of the
      line starts with it. */
  lemma WordEndsBeforeIsPrefix(words: seq<string>, line: string, i: nat, k: nat)
    requires i < |line| && k < |words|
    ensures WordEndsBefore(words, line, i, |line|, k) <==> words[k] <= line[i..]
  {
    if words[k] <= line[i..] {
      assert line[i..i + |words[k]|] == line[i..][..|words[k]|];
    }
    if WordEndsBefore(words, line, i, |line|, k) {
      assert line[i..][..|words[k]|] == line[i..i + |words[k]|];
    }
  }

  /** At a non-digit position at most one token is emitted: the number of the
      word that starts there, so overlapping words each count once. */
  lemma TokensAtWord(line: string, i: nat)
    requires i < |line| && !IsDigit(line[i])
    ensures forall k: nat :: k < 9 && NumberWords[k] <= line[i..] ==> TokensAt(line, i) == [k + 1]
    ensures (forall k: nat :: k < 9 ==> !(NumberWords[k] <= line[i..])) ==> TokensAt(line, i) == []
    ensures |TokensAt(line, i)| <= 1
  {
    NumberWordsPrefixFree();
    WordsFromMatch(NumberWords, line, i, |line|);
    forall k: nat | k < 9
      ensures WordEndsBefore(NumberWords, line, i, |line|, k) <==> NumberWords[k] <= line[i..]
    {
      WordEndsBeforeIsPrefix(NumberWords, line, i, k);
    }
  }

  /** Every token is a digit value. */
  lemma {:induction false} TokensBounded(line: string, n: nat)
    requires n <= |line|
    ensures forall j :: 0 <= j < |TokensBefore(line, n)| ==> TokensBefore(line, n)[j] < 10
  {
    if n > 0 {
      var i: nat := n - 1;
      TokensBounded(line, i);
      var before, at := TokensBefore(line, i), TokensAt(line, i);
      if !IsDigit(line[i]) {
        WordsFromBounded(NumberWords, line, i, |line|);
        assert |NumberWords| == 9;
      }
      forall j | |before| <= j < |before| + |at| ensures (before + at)[j] < 10 {
        assert (before + at)[j] == at[j - |before|];
        assert at[j - |before|] in at;
      }
    }
  }

  lemma {:induction false} WordsFromBounded(words: seq<string>, line: string, i: nat, upto: nat)
    requires i <= upto <= |line|
    ensures forall t :: t in WordsFrom(words, line, i, upto) ==> 1 <= t <= |words|
    decreases upto
  {
    if upto > i {
      var prev: nat := upto - 1;
      WordsFromBounded(words, line, i, prev);
    }
  }

  predicate IsLetter(c: char) {
    'a' <= c <= 'z' || 'A' <= c <= 'Z'
  }

  /** No number word starts at a character that is not a letter. */
  lemma NoWordAtNonLetter(line: string, i: nat, k: nat)
    requires i < |line| && !IsLetter(line[i]) && k < 9
    ensures !(NumberWords[k] <= line[i..])
  {
    WordLetters(k);
    var w, rest := NumberWords[k], line[i..];
    assert rest[0] == line[i];
    assert w[0] != rest[0];
  }

  /** On a line without letters, part 2 reads the same tokens as part 1. */
  lemma {:induction false} NoLettersSameTokens(line: string, n: nat)
    requires n <= |line|
    requires forall i :: 0 <= i < |line| ==> !IsLetter(line[i])
    ensures TokensBefore(line, n) == Digits(line[..n])
  {
    if n > 0 {
      var i: nat := n - 1;
      NoLettersSameTokens(line, i);
      assert line[..n][..i] == line[..i];
      assert line[..n][i] == line[i];
      if !IsDigit(line[i]) {
        NoTokensAtNonLetter(line, i);
      }
    }
  }

  /** A position holding neither a digit nor a letter emits nothing. */
  lemma NoTokensAtNonLetter(line: string, i: nat)
    requires i < |line| && !IsDigit(line[i]) && !IsLetter(line[i])
    ensures TokensAt(line, i) == []
  {
    forall k: nat | k < 9 ensures !(NumberWords[k] <= line[i..]) {
      NoWordAtNonLetter(line, i, k);
    }
    TokensAtWord(line, i);
  }

  lemma NoLettersSameValue(line: string)
    requires forall i :: 0 <= i < |line| ==> !IsLetter(line[i])
    ensures TokensBefore(line, |line|) == Digits(line)
  {
    NoLettersSameTokens(line, |line|);
    assert line[..|line|] == line;
  }

  // ---------------------------------------------------------------------------
  // Test vectors (src/day1.rs:22-34, 90-105)

  /** A line whose first digit character is `first` and whose last is
      `last` is worth `first` tens and `last` units, whatever lies between. */
  lemma FirstLastDigits(a: string, first: char, m: string, last: char, b: string)
    requires IsDigit(first) && IsDigit(last)
    requires forall i :: 0 <= i < |a| ==> !IsDigit(a[i])
    requires forall i :: 0 <= i < |b| ==> !IsDigit(b[i])
    ensures Part1ParseLine(a + [first] + m + [last] + b) == Ok(DigitValue(first) * 10 + DigitValue(last))
  {
    FirstLastTokens(a, first, m, last, b);
    CalibrationEnds([DigitValue(first)] + Digits(m) + [DigitValue(last)]);
  }

  /** The digits of such a line: `first`, the digits of the middle, `last`. */
  lemma FirstLastTokens(a: string, first: char, m: string, last: char, b: string)
    requires IsDigit(first) && IsDigit(last)
    requires forall i :: 0 <= i < |a| ==> !IsDigit(a[i])
    requires forall i :: 0 <= i < |b| ==> !IsDigit(b[i])
    ensures Digits(a + [first] + m + [last] + b) == [DigitValue(first)] + Digits(m) + [DigitValue(last)]
  {
    var p1 := a + [first];
    var p2 := p1 + m;
    var p3 := p2 + [last];
    DigitsEmpty(a);
    DigitsEmpty(b);
    DigitsOne(first);
    DigitsOne(last);
    DigitsAppend(a, [first]);
    DigitsAppend(p1, m);
    DigitsAppend(p2, [last]);
    DigitsAppend(p3, b);
  }

  lemma DigitsOne(c: char)
    requires IsDigit(c)
    ensures Digits([c]) == [DigitValue(c)]
  {
    assert [c][..0] == [];
  }

  /** The first and the last of at least two tokens. */
  lemma CalibrationEnds(tokens: seq<nat>)
    requires |tokens| >= 2 && forall i :: 0 <= i < |tokens| ==> tokens[i] < 10
    ensures Calibration(tokens) == Ok(tokens[0] * 10 + tokens[|tokens| - 1])
  {
  }

  /** A line with a single digit character uses it twice. */
  lemma SingleDigit(a: string, d: char, b: string)
    requires IsDigit(d)
    requires forall i :: 0 <= i < |a| ==> !IsDigit(a[i])
    requires forall i :: 0 <= i < |b| ==> !IsDigit(b[i])
    ensures Part1ParseLine(a + [d] + b) == Ok(DigitValue(d) * 11)
  {
    SingleToken(a, d, b);
    CalibrationSingle(DigitValue(d));
  }

  lemma SingleToken(a: string, d: char, b: string)
    requires IsDigit(d)
    requires forall i :: 0 <= i < |a| ==> !IsDigit(a[i])
    requires forall i :: 0 <= i < |b| ==> !IsDigit(b[i])
    ensures Digits(a + [d] + b) == [DigitValue(d)]
  {
    var p1 := a + [d];
    DigitsEmpty(a);
    DigitsEmpty(b);
    DigitsOne(d);
    DigitsAppend(a, [d]);
    DigitsAppend(p1, b);
  }

  /** A single token is used as both digits. */
  lemma CalibrationSingle(t: nat)
    requires t < 10
    ensures Calibration([t]) == Ok(t * 11)
  {
  }

  lemma Part1Example12()
    ensures Part1ParseLine("1abc2") == Ok(12)
  {
    FirstLastDigits("", '1', "abc", '2', "");
    assert "" + ['1'] + "abc" + ['2'] + "" == "1abc2";
  }

  lemma Part1Example38()
    ensures Part1ParseLine("pqr3stu8vwx") == Ok(38)
  {
    FirstLastDigits("pqr", '3', "stu", '8', "vwx");
    assert "pqr" + ['3'] + "stu" + ['8'] + "vwx" == "pqr3stu8vwx";
  }

  lemma Part1Example15()
    ensures Part1ParseLine("a1b2c3d4e5f") == Ok(15)
  {
    FirstLastDigits("a", '1', "b2c3d4e", '5', "f");
    assert "a" + ['1'] + "b2c3d4e" + ['5'] + "f" == "a1b2c3d4e5f";
  }

  lemma Part1Example77()
    ensures Part1ParseLine("treb7uchet") == Ok(77)
  {
    SingleDigit("treb", '7', "uchet");
    assert "treb" + ['7'] + "uchet" == "treb7uchet";
  }
}
