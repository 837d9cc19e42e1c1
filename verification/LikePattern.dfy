/**
 LIKE escaping in the search filter of `services/api/src/app.ts`, against the matcher it is
 meant for (PostgreSQL manual, section 9.7.1).
 */
module LikePattern {

  const ESCAPE: char := '\\'
  const ANY: char := '%'
  const ONE: char := '_'

  predicate IsMeta(c: char) {
    c == ESCAPE || c == ANY || c == ONE
  }

  /** `String.replaceAll` with a one-character search text. */
  function ReplaceAll(input: string, target: char, replacement: string): string {
    if input == "" then ""
    else (if input[0] == target then replacement else [input[0]]) + ReplaceAll(input[1..], target, replacement)
  }

  /** Three passes over the whole text, the escape character first. */
  function EscapeLikePattern(input: string): string {
    ReplaceAll(ReplaceAll(ReplaceAll(input, ESCAPE, [ESCAPE, ESCAPE]), ANY, [ESCAPE, ANY]), ONE, [ESCAPE, ONE])
  }

  function SearchPattern(query: string): string {
    [ANY] + EscapeLikePattern(query) + [ANY]
  }

  // ---------------------------------------------------------------------------
  // The matcher
  // ---------------------------------------------------------------------------

  /** A pattern that ends in a lone escape character is an error. */
  predicate WellFormed(pattern: string) {
    if pattern == "" then true
    else if pattern[0] == ESCAPE then |pattern| >= 2 && WellFormed(pattern[2..])
    else WellFormed(pattern[1..])
  }

  /** LIKE on a well-formed pattern. */
  predicate Matches(text: string, pattern: string)
    decreases |pattern|, |text|
  {
    if pattern == "" then text == ""
    else if pattern[0] == ANY then
      Matches(text, pattern[1..]) || (text != "" && Matches(text[1..], pattern))
    else if pattern[0] == ONE then text != "" && Matches(text[1..], pattern[1..])
    else if pattern[0] == ESCAPE then
      |pattern| >= 2 && text != "" && text[0] == pattern[1] && Matches(text[1..], pattern[2..])
    else text != "" && text[0] == pattern[0] && Matches(text[1..], pattern[1..])
  }

  function Fold(fold: char -> char, s: string): (folded: string)
    ensures |folded| == |s|
  {
    if s == "" then "" else [fold(s[0])] + Fold(fold, s[1..])
  }

  /** A case folding that neither moves nor creates a metacharacter, as lower-casing does. */
  ghost predicate KeepsMeta(fold: char -> char) {
    forall c :: (IsMeta(c) ==> fold(c) == c) && (IsMeta(fold(c)) ==> IsMeta(c))
  }

  /** ILIKE folds the text and the pattern and then matches. */
  predicate MatchesFolded(fold: char -> char, text: string, pattern: string) {
    Matches(Fold(fold, text), Fold(fold, pattern))
  }

  ghost predicate Occurs(needle: string, text: string) {
    exists i :: 0 <= i <= |text| && needle <= text[i..]
  }

  // ---------------------------------------------------------------------------
  // Three passes are one substitution
  // ---------------------------------------------------------------------------

  /** Every metacharacter gets an escape character in front, everything else stays. */
  function EscapeEach(input: string): string {
    if input == "" then ""
    else (if IsMeta(input[0]) then [ESCAPE, input[0]] else [input[0]]) + EscapeEach(input[1..])
  }

  lemma {:induction false} ReplaceAppend(x: string, y: string, target: char, replacement: string)
    ensures ReplaceAll(x + y, target, replacement)
         == ReplaceAll(x, target, replacement) + ReplaceAll(y, target, replacement)
  {
    if x == "" {
      assert x + y == y;
    } else {
      assert (x + y)[1..] == x[1..] + y;
      ReplaceAppend(x[1..], y, target, replacement);
    }
  }

  lemma ReplaceOne(c: char, target: char, replacement: string)
    ensures ReplaceAll([c], target, replacement) == if c == target then replacement else [c]
  {
    assert [c][1..] == "";
  }

  lemma ReplaceTwo(c: char, d: char, target: char, replacement: string)
    ensures ReplaceAll([c, d], target, replacement)
         == ReplaceAll([c], target, replacement) + ReplaceAll([d], target, replacement)
  {
    assert [c, d] == [c] + [d];
    ReplaceAppend([c], [d], target, replacement);
  }

  lemma EscapeOne(c: char)
    ensures EscapeLikePattern([c]) == if IsMeta(c) then [ESCAPE, c] else [c]
  {
    ReplaceOne(c, ESCAPE, [ESCAPE, ESCAPE]);
    ReplaceOne(c, ANY, [ESCAPE, ANY]);
    ReplaceOne(c, ONE, [ESCAPE, ONE]);
    ReplaceOne(ESCAPE, ANY, [ESCAPE, ANY]);
    ReplaceOne(ESCAPE, ONE, [ESCAPE, ONE]);
    ReplaceOne(ANY, ONE, [ESCAPE, ONE]);
    ReplaceTwo(ESCAPE, ESCAPE, ANY, [ESCAPE, ANY]);
    ReplaceTwo(ESCAPE, ESCAPE, ONE, [ESCAPE, ONE]);
    ReplaceTwo(ESCAPE, ANY, ONE, [ESCAPE, ONE]);
  }

  lemma EscapeAppend(x: string, y: string)
    ensures EscapeLikePattern(x + y) == EscapeLikePattern(x) + EscapeLikePattern(y)
  {
    var two := [ESCAPE, ESCAPE];
    ReplaceAppend(x, y, ESCAPE, two);
    var x1, y1 := ReplaceAll(x, ESCAPE, two), ReplaceAll(y, ESCAPE, two);
    ReplaceAppend(x1, y1, ANY, [ESCAPE, ANY]);
    ReplaceAppend(ReplaceAll(x1, ANY, [ESCAPE, ANY]), ReplaceAll(y1, ANY, [ESCAPE, ANY]), ONE, [ESCAPE, ONE]);
  }

  lemma {:induction false} ThreePassesAreOne(input: string)
    ensures EscapeLikePattern(input) == EscapeEach(input)
  {
    if input != "" {
      EscapeOne(input[0]);
      assert input == [input[0]] + input[1..];
      EscapeAppend([input[0]], input[1..]);
      ThreePassesAreOne(input[1..]);
    }
  }

  // ---------------------------------------------------------------------------
  // What the escaped pattern matches
  // ---------------------------------------------------------------------------

  /** In front of any pattern, escaped text matches itself and nothing else. */
  lemma {:induction false} EscapedMatchesItself(query: string, text: string, rest: string)
    ensures Matches(text, EscapeEach(query) + rest)
       <==> query <= text && Matches(text[|query|..], rest)
    decreases |query|
  {
    var pattern := EscapeEach(query) + rest;
    if query == "" {
      assert pattern == rest && text[0..] == text;
    } else {
      var head := if IsMeta(query[0]) then [ESCAPE, query[0]] else [query[0]];
      assert pattern == head + (EscapeEach(query[1..]) + rest);
      assert pattern[|head|..] == EscapeEach(query[1..]) + rest;
      if text != "" && text[0] == query[0] {
        EscapedMatchesItself(query[1..], text[1..], rest);
        assert query <= text <==> query[1..] <= text[1..] by {
          assert query == [query[0]] + query[1..] && text == [text[0]] + text[1..];
        }
        if query <= text {
          assert text[1..][|query[1..]|..] == text[|query|..];
        }
      } else {
        assert !(query <= text);
      }
    }
  }

  lemma {:induction false} TrailingAny(text: string)
    ensures Matches(text, [ANY])
    decreases |text|
  {
    assert [ANY][1..] == "";
    if text != "" {
      TrailingAny(text[1..]);
    }
  }

  lemma OccursStep(needle: string, text: string)
    ensures Occurs(needle, text) <==> needle <= text || (text != "" && Occurs(needle, text[1..]))
  {
    assert text[0..] == text;
    if text != "" {
      if Occurs(needle, text[1..]) {
        var i :| 0 <= i <= |text[1..]| && needle <= text[1..][i..];
        assert text[i + 1..] == text[1..][i..];
      }
      if Occurs(needle, text) && !(needle <= text) {
        var i :| 0 <= i <= |text| && needle <= text[i..];
        assert i > 0;
        assert text[i..] == text[1..][i - 1..];
      }
    }
  }

  lemma {:induction false} LeadingAny(query: string, text: string)
    ensures Matches(text, [ANY] + EscapeEach(query) + [ANY]) <==> Occurs(query, text)
    decreases |text|
  {
    var pattern := [ANY] + EscapeEach(query) + [ANY];
    assert pattern[1..] == EscapeEach(query) + [ANY];
    EscapedMatchesItself(query, text, [ANY]);
    if query <= text {
      TrailingAny(text[|query|..]);
    }
    OccursStep(query, text);
    if text != "" {
      LeadingAny(query, text[1..]);
    }
  }

  // ---------------------------------------------------------------------------
  // Case folding and the main results
  // ---------------------------------------------------------------------------

  lemma {:induction false} FoldAppend(fold: char -> char, x: string, y: string)
    ensures Fold(fold, x + y) == Fold(fold, x) + Fold(fold, y)
  {
    if x == "" {
      assert x + y == y;
    } else {
      assert (x + y)[1..] == x[1..] + y;
      FoldAppend(fold, x[1..], y);
    }
  }

  lemma {:induction false} FoldEscaped(fold: char -> char, query: string)
    requires KeepsMeta(fold)
    ensures Fold(fold, EscapeEach(query)) == EscapeEach(Fold(fold, query))
  {
    if query != "" {
      var c := query[0];
      var head := if IsMeta(c) then [ESCAPE, c] else [c];
      FoldAppend(fold, head, EscapeEach(query[1..]));
      FoldEscaped(fold, query[1..]);
      assert [c][1..] == "" && [ESCAPE, c][1..] == [c];
      assert IsMeta(ESCAPE);
      assert Fold(fold, head) == if IsMeta(fold(c)) then [ESCAPE, fold(c)] else [fold(c)];
      assert Fold(fold, query)[1..] == Fold(fold, query[1..]);
    }
  }

  lemma FoldedPattern(fold: char -> char, query: string)
    requires KeepsMeta(fold)
    ensures SearchPattern(query) == [ANY] + EscapeEach(query) + [ANY]
    ensures Fold(fold, SearchPattern(query)) == [ANY] + EscapeEach(Fold(fold, query)) + [ANY]
  {
    hide EscapeLikePattern, EscapeEach;
    ThreePassesAreOne(query);
    FoldAppend(fold, [ANY] + EscapeEach(query), [ANY]);
    FoldAppend(fold, [ANY], EscapeEach(query));
    assert IsMeta(ANY) && [ANY][1..] == "";
    FoldEscaped(fold, query);
  }

  /** The filter finds exactly the rows whose text contains the query, up to case. */
  lemma SearchFindsOccurrences(fold: char -> char, query: string, text: string)
    requires KeepsMeta(fold)
    ensures MatchesFolded(fold, text, SearchPattern(query)) <==> Occurs(Fold(fold, query), Fold(fold, text))
  {
    hide Matches, Occurs, Fold, SearchPattern, EscapeEach, KeepsMeta;
    FoldedPattern(fold, query);
    LeadingAny(Fold(fold, query), Fold(fold, text));
  }

  lemma {:induction false} EscapedIsWellFormed(query: string, rest: string)
    requires WellFormed(rest)
    ensures WellFormed(EscapeEach(query) + rest)
  {
    var pattern := EscapeEach(query) + rest;
    if query == "" {
      assert pattern == rest;
    } else {
      EscapedIsWellFormed(query[1..], rest);
      var head := if IsMeta(query[0]) then [ESCAPE, query[0]] else [query[0]];
      assert pattern[|head|..] == EscapeEach(query[1..]) + rest;
    }
  }

  /** No query makes the pattern end in a lone escape character, folded or not. */
  lemma SearchPatternIsWellFormed(fold: char -> char, query: string)
    requires KeepsMeta(fold)
    ensures WellFormed(SearchPattern(query)) && WellFormed(Fold(fold, SearchPattern(query)))
  {
    hide EscapeLikePattern, EscapeEach, Fold, SearchPattern, KeepsMeta;
    FoldedPattern(fold, query);
    assert [ANY][1..] == "";
    AnyBefore(EscapeEach(query) + [ANY]);
    AnyBefore(EscapeEach(Fold(fold, query)) + [ANY]);
    EscapedIsWellFormed(query, [ANY]);
    EscapedIsWellFormed(Fold(fold, query), [ANY]);
    assert [ANY] + (EscapeEach(query) + [ANY]) == [ANY] + EscapeEach(query) + [ANY];
    assert [ANY] + (EscapeEach(Fold(fold, query)) + [ANY]) == [ANY] + EscapeEach(Fold(fold, query)) + [ANY];
  }

  lemma AnyBefore(pattern: string)
    ensures WellFormed([ANY] + pattern) <==> WellFormed(pattern)
  {
    assert ([ANY] + pattern)[1..] == pattern;
  }

  /** The metacharacters, spelled out: each is searched for as itself. */
  lemma MetacharactersAreLiteral()
    ensures SearchPattern("%") == "%\\%%" && SearchPattern("_") == "%\\_%" && SearchPattern("\\") == "%\\\\%"
    ensures SearchPattern("a") == "%a%"
  {
    EscapeOne('%');
    EscapeOne('_');
    EscapeOne('\\');
    EscapeOne('a');
  }

  /** With the escape character escaped last, the query `%` would find texts that start with a backslash and not `%`. */
  lemma OrderOfPassesMatters()
    ensures var wrong := ReplaceAll(ReplaceAll("%", ANY, [ESCAPE, ANY]), ESCAPE, [ESCAPE, ESCAPE]);
            Matches("\\x", wrong) && !Matches("%", wrong)
  {
    ReplaceOne('%', ANY, [ESCAPE, ANY]);
    ReplaceTwo(ESCAPE, ANY, ESCAPE, [ESCAPE, ESCAPE]);
    ReplaceOne(ESCAPE, ESCAPE, [ESCAPE, ESCAPE]);
    ReplaceOne(ANY, ESCAPE, [ESCAPE, ESCAPE]);
    var wrong := [ESCAPE, ESCAPE, ANY];
    assert wrong[2..] == [ANY] && "\\x"[1..] == "x";
    TrailingAny("x");
  }
}
