/**
 * Which test of the if/elif chain (main.py, lines 42-81) decides a line.
 *
 * Every tag pattern reads `\s*<\s*` and then a word: a keyword for the open
 * tests, `/` for the close tests. So a line a tag test accepts has a `<`
 * after its leading whitespace, and the first characters of the word after
 * it tell the tests apart. Apart from the two condition tests, which share
 * one regex, no two tag tests accept the same line; the order of the chain
 * therefore only matters for those two, and every other action is taken
 * exactly when its own test accepts the line.
 */
module Precedence {
  import opened Patterns
  import opened AuditTree
  import opened Builder

  /** The first character after the leading whitespace is `<`. */
  predicate OpensTag(s: string) {
    SkipSpace(s, 0) < |s| && s[SkipSpace(s, 0)] == '<'
  }

  /** Where the word after `<` and its optional spaces starts. */
  function WordStart(s: string): nat
    requires OpensTag(s)
  {
    SkipSpace(s, SkipSpace(s, 0) + 1)
  }

  /** Where the word after `</`, with optional spaces on either side of the
      `/`, starts. */
  function SlashWordStart(s: string): nat
    requires OpensTag(s) && WordStart(s) < |s|
  {
    SkipSpace(s, WordStart(s) + 1)
  }

  /** A pattern starting `\s*<\s*` gets past the `<` exactly on a tag line,
      and goes on at the word after it. */
  lemma ThroughBracket(p: seq<Piece>, s: string)
    requires |p| >= 4 && p[0] == Spaces && p[1] == Lit("<") && p[2] == Spaces
    ensures Matches(p, s) <==> OpensTag(s) && MatchesFrom(p, 3, s, WordStart(s))
  {
    SpacesSkip(p, 0, s, 0);
    var i := SkipSpace(s, 0);
    LitPiece(p, 1, s, i);
    if i < |s| {
      assert s[i..i + 1] == "<" <==> s[i] == '<';
      SpacesSkip(p, 2, s, i + 1);
    }
  }

  /** A close pattern (`<`, optional spaces, `/`, optional spaces, ...)
      gets past the `/` exactly when `/` is the word after the `<`, and goes
      on at the word after the `/`. */
  lemma ThroughSlash(p: seq<Piece>, s: string)
    requires |p| >= 6 && p[0] == Spaces && p[1] == Lit("<") && p[2] == Spaces
    requires p[3] == Lit("/") && p[4] == Spaces
    ensures Matches(p, s) <==>
      OpensTag(s) && WordStart(s) < |s| && s[WordStart(s)] == '/'
      && MatchesFrom(p, 5, s, SlashWordStart(s))
  {
    ThroughBracket(p, s);
    if OpensTag(s) {
      var k := WordStart(s);
      LitPiece(p, 3, s, k);
      if k < |s| {
        assert s[k..k + 1] == "/" <==> s[k] == '/';
        SpacesSkip(p, 4, s, k + 1);
      }
    }
  }

  /** The word `w` stands at `i`, and after it, past optional spaces, `>`. */
  predicate TagWordAt(s: string, i: nat, w: string)
    requires i <= |s|
  {
    i + |w| <= |s| && s[i..i + |w|] == w
    && SkipSpace(s, i + |w|) < |s| && s[SkipSpace(s, i + |w|)] == '>'
  }

  /** The tail `w\s*>` of a one-word tag pattern matches at `i` exactly when
      `w` and then `>` stand there. */
  lemma WordThenBracket(p: seq<Piece>, j: nat, s: string, i: nat)
    requires |p| == j + 3 && p[j].Lit? && p[j + 1] == Spaces && p[j + 2] == Lit(">") && i <= |s|
    ensures MatchesFrom(p, j, s, i) <==> TagWordAt(s, i, p[j].word)
  {
    LitPiece(p, j, s, i);
    var k := i + |p[j].word|;
    if k <= |s| {
      SpacesSkip(p, j + 1, s, k);
      var m := SkipSpace(s, k);
      LitPiece(p, j + 2, s, m);
      if m < |s| {
        assert s[m..m + 1] == ">" <==> s[m] == '>';
      }
    }
  }

  /** A pattern `\s*<\s*w...` accepts a line only if `w` follows the `<`. */
  lemma OpenWord(p: seq<Piece>, s: string)
    requires |p| >= 4 && p[0] == Spaces && p[1] == Lit("<") && p[2] == Spaces && p[3].Lit?
    ensures Matches(p, s) ==>
      OpensTag(s) && WordStart(s) + |p[3].word| <= |s|
      && s[WordStart(s)..WordStart(s) + |p[3].word|] == p[3].word
  {
    ThroughBracket(p, s);
    if Matches(p, s) {
      LitPiece(p, 3, s, WordStart(s));
    }
  }

  /** The first two characters of that word, where the pattern's word has
      two. */
  lemma OpenWordHead(p: seq<Piece>, s: string)
    requires |p| >= 4 && p[0] == Spaces && p[1] == Lit("<") && p[2] == Spaces && p[3].Lit?
    requires |p[3].word| >= 2
    ensures Matches(p, s) ==>
      OpensTag(s) && WordStart(s) + 2 <= |s|
      && s[WordStart(s)] == p[3].word[0] && s[WordStart(s) + 1] == p[3].word[1]
  {
    OpenWord(p, s);
    if Matches(p, s) {
      var k := WordStart(s);
      assert s[k..k + |p[3].word|][0] == s[k] && s[k..k + |p[3].word|][1] == s[k + 1];
    }
  }

  // A close pattern (`<`, optional spaces, `/`, optional spaces, a word)
  // accepts a line only if `/` follows the `<` and the word follows the `/`.
  lemma SlashWord(p: seq<Piece>, s: string)
    requires |p| >= 6 && p[0] == Spaces && p[1] == Lit("<") && p[2] == Spaces
    requires p[3] == Lit("/") && p[4] == Spaces && p[5].Lit?
    ensures Matches(p, s) ==>
      OpensTag(s) && WordStart(s) < |s| && s[WordStart(s)] == '/'
      && SlashWordStart(s) + |p[5].word| <= |s|
      && s[SlashWordStart(s)..SlashWordStart(s) + |p[5].word|] == p[5].word
  {
    ThroughSlash(p, s);
    if Matches(p, s) {
      LitPiece(p, 5, s, SlashWordStart(s));
    }
  }

  // What each tag test needs at the start of the word after `<`.

  lemma OpenIfHead(s: string)
    ensures IsOpenIf(s) ==>
      OpensTag(s) && WordStart(s) + 2 <= |s| && s[WordStart(s)] == 'i' && s[WordStart(s) + 1] == 'f'
  {
    OpenWord(OpenIfPattern, s);
  }

  lemma OpenThenHead(s: string)
    ensures IsOpenThen(s) ==> OpensTag(s) && WordStart(s) < |s| && s[WordStart(s)] == 't'
  {
    OpenWord(OpenThenPattern, s);
  }

  lemma OpenElseHead(s: string)
    ensures IsOpenElse(s) ==> OpensTag(s) && WordStart(s) < |s| && s[WordStart(s)] == 'e'
  {
    OpenWord(OpenElsePattern, s);
  }

  /** Both alternatives of the condition regex, hence both condition tests,
      want `condition` after the `<`. */
  lemma ConditionHead(s: string)
    ensures IsOpenCondition(s) ==>
      OpensTag(s) && WordStart(s) + 9 <= |s| && s[WordStart(s)..WordStart(s) + 9] == "condition"
  {
    OpenWord(OpenConditionPattern[0], s);
    OpenWord(OpenConditionPattern[1], s);
    MatchesAnyIff(OpenConditionPattern, 0, s);
  }

  /** The five alternatives of the open-check regex start `custom_item`,
      `item`, `report`, `FAILED` and `WARNING"`. */
  lemma OpenCheckHead(s: string)
    ensures IsOpenCheck(s) ==>
      OpensTag(s) && WordStart(s) + 2 <= |s|
      && s[WordStart(s)] in {'c', 'i', 'r', 'F', 'W'}
      && (s[WordStart(s)] == 'c' ==> s[WordStart(s) + 1] == 'u')
      && (s[WordStart(s)] == 'i' ==> s[WordStart(s) + 1] == 't')
  {
    OpenWordHead(OpenCheckPattern[0], s);
    OpenWordHead(OpenCheckPattern[1], s);
    OpenWordHead(OpenCheckPattern[2], s);
    OpenWordHead(OpenCheckPattern[3], s);
    OpenWordHead(OpenCheckPattern[4], s);
    MatchesAnyIff(OpenCheckPattern, 0, s);
  }

  lemma CloseIfHead(s: string)
    ensures IsCloseIf(s) ==>
      OpensTag(s) && WordStart(s) < |s| && s[WordStart(s)] == '/'
      && SlashWordStart(s) < |s| && s[SlashWordStart(s)] == 'i'
  {
    SlashWord(CloseIfPattern, s);
  }

  lemma CloseThenHead(s: string)
    ensures IsCloseThen(s) ==>
      OpensTag(s) && WordStart(s) < |s| && s[WordStart(s)] == '/'
      && SlashWordStart(s) < |s| && s[SlashWordStart(s)] == 't'
  {
    SlashWord(CloseThenPattern, s);
  }

  lemma CloseElseHead(s: string)
    ensures IsCloseElse(s) ==>
      OpensTag(s) && WordStart(s) < |s| && s[WordStart(s)] == '/'
      && SlashWordStart(s) < |s| && s[SlashWordStart(s)] == 'e'
  {
    SlashWord(CloseElsePattern, s);
  }

  /** Every alternative of the close-check regex has `/` after the `<`. */
  lemma CloseCheckHead(s: string)
    ensures IsCloseCheck(s) ==> OpensTag(s) && WordStart(s) < |s| && s[WordStart(s)] == '/'
  {
    SlashWord(CloseCheckPattern[0], s);
    SlashWord(CloseCheckPattern[1], s);
    SlashWord(CloseCheckPattern[2], s);
    SlashWord(CloseCheckPattern[3], s);
    SlashWord(CloseCheckPattern[4], s);
    MatchesAnyIff(CloseCheckPattern, 0, s);
  }

  // Which lines each one-word tag test accepts.

  lemma OpenIfIff(s: string)
    ensures IsOpenIf(s) <==> OpensTag(s) && TagWordAt(s, WordStart(s), "if")
  {
    ThroughBracket(OpenIfPattern, s);
    if OpensTag(s) {
      WordThenBracket(OpenIfPattern, 3, s, WordStart(s));
    }
  }

  lemma OpenThenIff(s: string)
    ensures IsOpenThen(s) <==> OpensTag(s) && TagWordAt(s, WordStart(s), "then")
  {
    ThroughBracket(OpenThenPattern, s);
    if OpensTag(s) {
      WordThenBracket(OpenThenPattern, 3, s, WordStart(s));
    }
  }

  lemma OpenElseIff(s: string)
    ensures IsOpenElse(s) <==> OpensTag(s) && TagWordAt(s, WordStart(s), "else")
  {
    ThroughBracket(OpenElsePattern, s);
    if OpensTag(s) {
      WordThenBracket(OpenElsePattern, 3, s, WordStart(s));
    }
  }

  lemma CloseIfIff(s: string)
    ensures IsCloseIf(s) <==>
      OpensTag(s) && WordStart(s) < |s| && s[WordStart(s)] == '/' && TagWordAt(s, SlashWordStart(s), "if")
  {
    ThroughSlash(CloseIfPattern, s);
    if OpensTag(s) && WordStart(s) < |s| {
      WordThenBracket(CloseIfPattern, 5, s, SlashWordStart(s));
    }
  }

  lemma CloseThenIff(s: string)
    ensures IsCloseThen(s) <==>
      OpensTag(s) && WordStart(s) < |s| && s[WordStart(s)] == '/' && TagWordAt(s, SlashWordStart(s), "then")
  {
    ThroughSlash(CloseThenPattern, s);
    if OpensTag(s) && WordStart(s) < |s| {
      WordThenBracket(CloseThenPattern, 5, s, SlashWordStart(s));
    }
  }

  lemma CloseElseIff(s: string)
    ensures IsCloseElse(s) <==>
      OpensTag(s) && WordStart(s) < |s| && s[WordStart(s)] == '/' && TagWordAt(s, SlashWordStart(s), "else")
  {
    ThroughSlash(CloseElsePattern, s);
    if OpensTag(s) && WordStart(s) < |s| {
      WordThenBracket(CloseElsePattern, 5, s, SlashWordStart(s));
    }
  }

  /** The tag tests outside a check block, in the order of the chain. */
  function TagTests(s: string): (t: seq<bool>)
    ensures |t| == 9
  {
    [IsCloseIf(s), IsCloseCondition(s), IsCloseThen(s), IsCloseElse(s),
     IsOpenIf(s), IsOpenCondition(s), IsOpenThen(s), IsOpenElse(s), IsOpenCheck(s)]
  }

  /**
   * No two tag tests accept the same line, except the close-condition and
   * open-condition tests (the second and the sixth), which accept the same
   * lines.
   */
  lemma {:induction false} TagTestsExclusive(s: string)
    ensures TagTests(s)[1] <==> TagTests(s)[5]
    ensures forall a, b :: 0 <= a < b < 9 && !(a == 1 && b == 5) && TagTests(s)[a] ==> !TagTests(s)[b]
  {
    ConditionPatternsCoincide(s);
    OpenIfHead(s);
    OpenThenHead(s);
    OpenElseHead(s);
    ConditionHead(s);
    OpenCheckHead(s);
    CloseIfHead(s);
    CloseThenHead(s);
    CloseElseHead(s);
    if OpensTag(s) && WordStart(s) + 9 <= |s| && s[WordStart(s)..WordStart(s) + 9] == "condition" {
      assert s[WordStart(s)] == 'c' && s[WordStart(s) + 1] == 'o';
    }
  }

  /**
   * First match wins, and apart from the condition pair no two tag tests
   * overlap, so on a line that is neither a comment nor blank each action
   * is taken exactly when its own test accepts the line.
   */
  lemma ClassifyByTest(line: string)
    requires !IsComment(line) && !IsBlank(line)
    ensures Classify(line, true) == CloseCheck <==> IsCloseCheck(line)
    ensures Classify(line, true) == AddPolicyLine <==> !IsCloseCheck(line)
    ensures Classify(line, false).Close? <==>
      IsCloseIf(line) || IsCloseCondition(line) || IsCloseThen(line) || IsCloseElse(line)
    ensures Classify(line, false) == Close(IfBlock) <==> IsCloseIf(line)
    ensures Classify(line, false) == Close(ConditionBlock) <==> IsCloseCondition(line)
    ensures Classify(line, false) == Close(ThenBlock) <==> IsCloseThen(line)
    ensures Classify(line, false) == Close(ElseBlock) <==> IsCloseElse(line)
    ensures Classify(line, false) == Open(IfBlock) <==> IsOpenIf(line)
    ensures Classify(line, false) == Open(ThenBlock) <==> IsOpenThen(line)
    ensures Classify(line, false) == Open(ElseBlock) <==> IsOpenElse(line)
    ensures Classify(line, false) == Open(CheckBlock) <==> IsOpenCheck(line)
    ensures Classify(line, false) == Ignore <==>
      !IsCloseIf(line) && !IsCloseCondition(line) && !IsCloseThen(line) && !IsCloseElse(line)
      && !IsOpenIf(line) && !IsOpenCondition(line) && !IsOpenThen(line) && !IsOpenElse(line)
      && !IsOpenCheck(line)
  {
    TagTestsExclusive(line);
    var t := TagTests(line);
    assert t[0] == IsCloseIf(line) && t[1] == IsCloseCondition(line);
    assert t[2] == IsCloseThen(line) && t[3] == IsCloseElse(line);
    assert t[4] == IsOpenIf(line) && t[5] == IsOpenCondition(line);
    assert t[6] == IsOpenThen(line) && t[7] == IsOpenElse(line) && t[8] == IsOpenCheck(line);
  }
}
