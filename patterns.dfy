/**
 * The tag patterns of the audit-file parser (main.py, lines 18-31).
 *
 * Every pattern is `^`-anchored and used with `re.search`, so it is a prefix
 * match. The patterns are built from three pieces only: `\s*`, `\s` and
 * literal words, plus alternation. Each literal starts with a non-space
 * character, so a greedy `\s*` (drop every leading space) decides a match
 * exactly as the backtracking regex does.
 */
module Patterns {

  /** Python's `\s` on str patterns: the characters `str.isspace()` accepts. */
  predicate IsSpace(c: char) {
    c == ' ' || ('\t' <= c <= '\r') || ('\U{1c}' <= c <= '\U{1f}')
    || c == '\U{85}' || c == '\U{a0}' || c == '\U{1680}'
    || ('\U{2000}' <= c <= '\U{200a}') || c == '\U{2028}' || c == '\U{2029}'
    || c == '\U{202f}' || c == '\U{205f}' || c == '\U{3000}'
  }

  /** Where a greedy `\s*` starting at index `i` of `s` stops: past every
      space, at the end or at the first non-space character. */
  function SkipSpace(s: string, i: nat): (k: nat)
    requires i <= |s|
    ensures i <= k <= |s|
    decreases |s| - i
  {
    if i < |s| && IsSpace(s[i]) then SkipSpace(s, i + 1) else i
  }

  /** One element of a pattern: `\s*`, `\s` or a literal word; `\s+` is
      `\s` then `\s*`. */
  datatype Piece = Spaces | Space | Lit(word: string)

  /** Do the characters of `s` from index `i` on begin with `w[j..]`? */
  function WordAt(w: string, j: nat, s: string, i: nat): bool
    requires j <= |w| && i <= |s|
    decreases |w| - j
  {
    j == |w| || (i < |s| && s[i] == w[j] && WordAt(w, j + 1, s, i + 1))
  }

  /** Do the pieces `p[j..]` match a prefix of `s[i..]`? `\s*` takes every
      space it can before the next piece is tried. */
  function MatchesFrom(p: seq<Piece>, j: nat, s: string, i: nat): bool
    requires j <= |p| && i <= |s|
    decreases |p| - j, |s| - i
  {
    if j == |p| then true
    else match p[j]
      case Spaces =>
        if i < |s| && IsSpace(s[i]) then MatchesFrom(p, j, s, i + 1) else MatchesFrom(p, j + 1, s, i)
      case Space => i < |s| && IsSpace(s[i]) && MatchesFrom(p, j + 1, s, i + 1)
      case Lit(w) => i + |w| <= |s| && WordAt(w, 0, s, i) && MatchesFrom(p, j + 1, s, i + |w|)
  }

  /** `WordAt` compares a slice of the line with the rest of the word. */
  lemma {:induction false} WordAtSlice(w: string, j: nat, s: string, i: nat)
    requires j <= |w| && i + (|w| - j) <= |s|
    ensures WordAt(w, j, s, i) <==> s[i..i + (|w| - j)] == w[j..]
    decreases |w| - j
  {
    if j < |w| {
      WordAtSlice(w, j + 1, s, i + 1);
      assert s[i..i + (|w| - j)] == [s[i]] + s[i + 1..i + (|w| - j)];
      assert w[j..] == [w[j]] + w[j + 1..];
    }
  }

  /** A literal piece matches exactly where its word stands in the line, and
      the pieces after it go on right after the word. */
  lemma LitPiece(p: seq<Piece>, j: nat, s: string, i: nat)
    requires j < |p| && p[j].Lit? && i <= |s|
    ensures MatchesFrom(p, j, s, i) <==>
      i + |p[j].word| <= |s| && s[i..i + |p[j].word|] == p[j].word
      && MatchesFrom(p, j + 1, s, i + |p[j].word|)
  {
    if i + |p[j].word| <= |s| {
      WordAtSlice(p[j].word, 0, s, i);
    }
  }

  /** `re.search` of a `^`-anchored pattern: a match at the start of `s`. */
  predicate Matches(p: seq<Piece>, s: string) {
    MatchesFrom(p, 0, s, 0)
  }

  /** An alternation: one of the alternatives `alts[k..]` matches at the
      start of `s`. */
  function MatchesAnyFrom(alts: seq<seq<Piece>>, k: nat, s: string): bool
    requires k <= |alts|
    decreases |alts| - k
  {
    k < |alts| && (Matches(alts[k], s) || MatchesAnyFrom(alts, k + 1, s))
  }

  predicate MatchesAny(alts: seq<seq<Piece>>, s: string) {
    MatchesAnyFrom(alts, 0, s)
  }

  /** The alternation matches exactly when one of its alternatives does. */
  lemma {:induction false} MatchesAnyIff(alts: seq<seq<Piece>>, k: nat, s: string)
    requires k <= |alts|
    ensures MatchesAnyFrom(alts, k, s) <==> exists m :: k <= m < |alts| && Matches(alts[m], s)
    decreases |alts| - k
  {
    if k < |alts| {
      MatchesAnyIff(alts, k + 1, s);
    }
  }

  // One constant per regex of the source. `Spaces` is `\s*`, `Space` is
  // `\s`, so `\s+` is `Space, Spaces`; an alternation is a list of
  // alternatives.

  /** `^\s*#` */
  const CommentPattern: seq<Piece> := [Spaces, Lit("#")]

  /** `^\s*<\s*(custom_item|item|report\s+type\s*:\s*"PASSED|FAILED|WARNING")\s*>`: the
      alternation is not bracketed, so its five alternatives are `custom_item`,
      `item`, `report\s+type\s*:\s*"PASSED`, `FAILED` and `WARNING"`. */
  const OpenCheckPattern: seq<seq<Piece>> :=
    [ [Spaces, Lit("<"), Spaces, Lit("custom_item"), Spaces, Lit(">")],
      [Spaces, Lit("<"), Spaces, Lit("item"), Spaces, Lit(">")],
      [Spaces, Lit("<"), Spaces, Lit("report"), Space, Spaces, Lit("type"), Spaces, Lit(":"), Spaces,
       Lit("\"PASSED"), Spaces, Lit(">")],
      [Spaces, Lit("<"), Spaces, Lit("FAILED"), Spaces, Lit(">")],
      [Spaces, Lit("<"), Spaces, Lit("WARNING\""), Spaces, Lit(">")] ]

  const OpenIfPattern: seq<Piece> := [Spaces, Lit("<"), Spaces, Lit("if"), Spaces, Lit(">")]

  /** `^\s*<\s*condition\s+type\s*:\s*"(AND|OR)"\s*>` */
  const OpenConditionPattern: seq<seq<Piece>> :=
    [ [Spaces, Lit("<"), Spaces, Lit("condition"), Space, Spaces, Lit("type"), Spaces, Lit(":"), Spaces,
       Lit("\"AND\""), Spaces, Lit(">")],
      [Spaces, Lit("<"), Spaces, Lit("condition"), Space, Spaces, Lit("type"), Spaces, Lit(":"), Spaces,
       Lit("\"OR\""), Spaces, Lit(">")] ]

  const OpenThenPattern: seq<Piece> := [Spaces, Lit("<"), Spaces, Lit("then"), Spaces, Lit(">")]
  const OpenElsePattern: seq<Piece> := [Spaces, Lit("<"), Spaces, Lit("else"), Spaces, Lit(">")]

  // As the open-check pattern, with a `/` between optional spaces after `<`.
  const CloseCheckPattern: seq<seq<Piece>> :=
    [ [Spaces, Lit("<"), Spaces, Lit("/"), Spaces, Lit("custom_item"), Spaces, Lit(">")],
      [Spaces, Lit("<"), Spaces, Lit("/"), Spaces, Lit("item"), Spaces, Lit(">")],
      [Spaces, Lit("<"), Spaces, Lit("/"), Spaces, Lit("report"), Space, Spaces, Lit("type"), Spaces,
       Lit(":"), Spaces, Lit("\"PASSED"), Spaces, Lit(">")],
      [Spaces, Lit("<"), Spaces, Lit("/"), Spaces, Lit("FAILED"), Spaces, Lit(">")],
      [Spaces, Lit("<"), Spaces, Lit("/"), Spaces, Lit("WARNING\""), Spaces, Lit(">")] ]

  const CloseIfPattern: seq<Piece> :=
    [Spaces, Lit("<"), Spaces, Lit("/"), Spaces, Lit("if"), Spaces, Lit(">")]

  /** `^\s*<\s*condition\s+type\s*:\s*"(AND|OR)"\s*>`: written without the
      `/` the other close patterns have. */
  const CloseConditionPattern: seq<seq<Piece>> :=
    [ [Spaces, Lit("<"), Spaces, Lit("condition"), Space, Spaces, Lit("type"), Spaces, Lit(":"), Spaces,
       Lit("\"AND\""), Spaces, Lit(">")],
      [Spaces, Lit("<"), Spaces, Lit("condition"), Space, Spaces, Lit("type"), Spaces, Lit(":"), Spaces,
       Lit("\"OR\""), Spaces, Lit(">")] ]

  const CloseThenPattern: seq<Piece> :=
    [Spaces, Lit("<"), Spaces, Lit("/"), Spaces, Lit("then"), Spaces, Lit(">")]
  const CloseElsePattern: seq<Piece> :=
    [Spaces, Lit("<"), Spaces, Lit("/"), Spaces, Lit("else"), Spaces, Lit(">")]

  // The line predicates, one per test of the if/elif chain.

  predicate IsComment(line: string) { Matches(CommentPattern, line) }

  /** `^\s*$`: the line is whitespace only. */
  predicate IsBlank(line: string) { SkipSpace(line, 0) == |line| }

  predicate IsOpenCheck(line: string) { MatchesAny(OpenCheckPattern, line) }
  predicate IsOpenIf(line: string) { Matches(OpenIfPattern, line) }
  predicate IsOpenCondition(line: string) { MatchesAny(OpenConditionPattern, line) }
  predicate IsOpenThen(line: string) { Matches(OpenThenPattern, line) }
  predicate IsOpenElse(line: string) { Matches(OpenElsePattern, line) }

  predicate IsCloseCheck(line: string) { MatchesAny(CloseCheckPattern, line) }
  predicate IsCloseIf(line: string) { Matches(CloseIfPattern, line) }
  predicate IsCloseCondition(line: string) { MatchesAny(CloseConditionPattern, line) }
  predicate IsCloseThen(line: string) { Matches(CloseThenPattern, line) }
  predicate IsCloseElse(line: string) { Matches(CloseElsePattern, line) }

  /** A greedy `\s*` stops at the end or at a non-space, and passes over
      spaces only. */
  lemma {:induction false} SkipSpaceStops(s: string, i: nat)
    requires i <= |s|
    ensures SkipSpace(s, i) == |s| || !IsSpace(s[SkipSpace(s, i)])
    ensures forall m :: i <= m < SkipSpace(s, i) ==> IsSpace(s[m])
    decreases |s| - i
  {
    if i < |s| && IsSpace(s[i]) {
      SkipSpaceStops(s, i + 1);
    }
  }

  /** `^\s*$` holds exactly of the lines made only of whitespace. */
  lemma BlankIffAllSpace(line: string)
    ensures IsBlank(line) <==> forall i :: 0 <= i < |line| ==> IsSpace(line[i])
  {
    SkipSpaceStops(line, 0);
  }

  /** A `\s*` piece skips exactly the spaces `SkipSpace` skips. */
  lemma {:induction false} SpacesSkip(p: seq<Piece>, j: nat, s: string, i: nat)
    requires j < |p| && p[j] == Spaces && i <= |s|
    ensures MatchesFrom(p, j, s, i) == MatchesFrom(p, j + 1, s, SkipSpace(s, i))
    decreases |s| - i
  {
    if i < |s| && IsSpace(s[i]) {
      SpacesSkip(p, j, s, i + 1);
    }
  }

  /** A comment line is never blank, so the order of the first two tests
      does not matter. */
  lemma CommentIsNotBlank(line: string)
    ensures IsComment(line) ==> !IsBlank(line)
  {
    SpacesSkip(CommentPattern, 0, line, 0);
  }

  /** The close-condition regex repeats the open-condition regex piece for
      piece, so every line one accepts the other accepts too. */
  lemma ConditionPatternsCoincide(line: string)
    ensures IsCloseCondition(line) <==> IsOpenCondition(line)
  {
    assert CloseConditionPattern == OpenConditionPattern;
  }
}
