/**
 * Small inputs run through the model of main.py, lines 18-81, showing how
 * the patterns and the builder behave as written.
 *
 * Each lemma takes its line (or its lines) as a parameter pinned by its
 * precondition, and follows the match one piece at a time with the helper
 * lemmas below. The precondition admits exactly one argument, the constant,
 * so `IfTagLine` states what happens to `<if>` itself: the parameter only
 * keeps the solver from unfolding the constant's characters eagerly.
 */
module Scenarios {
  import opened Patterns
  import opened AuditTree
  import opened Builder
  import opened Precedence

  const IfTag := "<if>"
  const EndIfTag := "</if>"
  const ThenTag := "<then>"
  const CustomItem := "<custom_item>"
  const CustomItemEnd := "</custom_item>"
  const ConditionAnd := "<condition type:\"AND\">"
  const SlashCondition := "</condition>"
  const ReportPassed := "<report type:\"PASSED\">"
  const ReportPassedNoQuote := "<report type:\"PASSED>"
  const FailedTag := "<FAILED>"

  // Helpers that walk a match.

  /** A line that reaches the tag tests: neither a comment nor blank. */
  predicate IsTagLine(line: string) {
    !IsComment(line) && !IsBlank(line)
  }

  /** On a line that starts with `<` and then a non-space, the word after
      `<` starts at index 1. */
  lemma AtStart(s: string)
    requires |s| >= 2 && s[0] == '<' && !IsSpace(s[1])
    ensures OpensTag(s) && WordStart(s) == 1
  {
  }

  /** On a line that starts with `</` and then a non-space, the word after
      `</` starts at index 2. */
  lemma AtSlash(s: string)
    requires |s| >= 3 && s[0] == '<' && s[1] == '/' && !IsSpace(s[2])
    ensures OpensTag(s) && WordStart(s) == 1 && SlashWordStart(s) == 2
  {
  }

  /** A line that starts with `<` is neither a comment nor blank. */
  lemma TagLineHead(s: string)
    requires |s| >= 2 && s[0] == '<'
    ensures IsTagLine(s)
  {
    assert MatchesFrom(CommentPattern, 0, s, 0) == MatchesFrom(CommentPattern, 1, s, 0);
  }

  /** `\s+type\s*:\s*`, which the report and condition patterns share,
      passes over ` type:` when a non-space follows. */
  lemma TypeClause(p: seq<Piece>, j: nat, s: string, i: nat)
    requires j + 6 < |p| && p[j] == Space && p[j + 1] == Spaces && p[j + 2] == Lit("type")
    requires p[j + 3] == Spaces && p[j + 4] == Lit(":") && p[j + 5] == Spaces
    requires i + 6 < |s| && s[i] == ' ' && s[i + 1..i + 5] == "type" && s[i + 5] == ':' && !IsSpace(s[i + 6])
    ensures MatchesFrom(p, j, s, i) == MatchesFrom(p, j + 6, s, i + 6)
  {
    assert MatchesFrom(p, j + 1, s, i + 1) == MatchesFrom(p, j + 2, s, i + 1);
    LitPiece(p, j + 2, s, i + 1);
    assert MatchesFrom(p, j + 3, s, i + 5) == MatchesFrom(p, j + 4, s, i + 5);
    assert MatchesFrom(p, j + 5, s, i + 6) == MatchesFrom(p, j + 6, s, i + 6);
  }

  // Pattern facts.

  /** The line starts `<report type:"PASSED`, segment by segment. */
  predicate PassedPrefix(s: string) {
    && |s| >= 21 && s[0] == '<' && s[1..7] == "report" && s[7] == ' ' && s[8..12] == "type"
    && s[12] == ':' && s[13] == '"' && s[13..20] == "\"PASSED"
  }

  /** The third check alternative passes over `<report type:"PASSED` and
      then wants `\s*>`. */
  lemma PassedStem(s: string)
    requires PassedPrefix(s)
    ensures Matches(OpenCheckPattern[2], s) == MatchesFrom(OpenCheckPattern[2], 11, s, 20)
  {
    var p := OpenCheckPattern[2];
    AtStart(s);
    ThroughBracket(p, s);
    LitPiece(p, 3, s, 1);
    TypeClause(p, 4, s, 7);
    LitPiece(p, 10, s, 13);
  }

  /** The third alternative, `report\s+type\s*:\s*"PASSED`, leaves the
      closing quote of a well-formed report tag unmatched before `>`; no
      other alternative starts with `report`. */
  lemma ReportPassedOpensNothing(s: string)
    requires s == ReportPassed
    ensures !IsOpenCheck(s)
  {
    assert s[1..7] == "report" && s[8..12] == "type" && s[13..20] == "\"PASSED";
    assert PassedPrefix(s);
    PassedStem(s);
    var p := OpenCheckPattern[2];
    assert s[20] == '"';
    assert MatchesFrom(p, 11, s, 20) == MatchesFrom(p, 12, s, 20);
    AtStart(s);
    OpenWord(OpenCheckPattern[0], s);
    OpenWord(OpenCheckPattern[1], s);
    OpenWord(OpenCheckPattern[3], s);
    OpenWord(OpenCheckPattern[4], s);
    MatchesAnyIff(OpenCheckPattern, 0, s);
  }

  /** Without its closing quote, the report tag opens a check block. */
  lemma ReportPassedNoQuoteOpensCheck(s: string)
    requires s == ReportPassedNoQuote
    ensures IsOpenCheck(s)
  {
    assert s[1..7] == "report" && s[8..12] == "type" && s[13..20] == "\"PASSED";
    assert PassedPrefix(s);
    PassedStem(s);
    var p := OpenCheckPattern[2];
    assert MatchesFrom(p, 12, s, 20);
    MatchesAnyIff(OpenCheckPattern, 0, s);
  }

  lemma FailedTagOpensCheck(s: string)
    requires s == FailedTag
    ensures IsOpenCheck(s)
  {
    var p := OpenCheckPattern[3];
    AtStart(s);
    ThroughBracket(p, s);
    LitPiece(p, 3, s, 1);
    assert MatchesFrom(p, 4, s, 7);
    MatchesAnyIff(OpenCheckPattern, 0, s);
  }

  // Classification of single lines.

  lemma IfTagLine(s: string)
    requires s == IfTag
    ensures Classify(s, false) == Open(IfBlock)
    ensures Classify(s, true) == AddPolicyLine
  {
    TagLineHead(s);
    AtStart(s);
    assert s[1..3] == "if" && SkipSpace(s, 3) == 3;
    OpenIfIff(s);
    CloseCheckHead(s);
    ClassifyByTest(s);
  }

  lemma EndIfTagLine(s: string)
    requires s == EndIfTag
    ensures Classify(s, false) == Close(IfBlock)
  {
    TagLineHead(s);
    AtSlash(s);
    assert s[2..4] == "if" && SkipSpace(s, 4) == 4;
    CloseIfIff(s);
    ClassifyByTest(s);
  }

  lemma ThenTagLine(s: string)
    requires s == ThenTag
    ensures Classify(s, false) == Open(ThenBlock)
  {
    TagLineHead(s);
    AtStart(s);
    assert s[1..5] == "then" && SkipSpace(s, 5) == 5;
    OpenThenIff(s);
    ClassifyByTest(s);
  }

  lemma CustomItemOpensCheck(s: string)
    requires s == CustomItem
    ensures IsOpenCheck(s)
  {
    var p := OpenCheckPattern[0];
    AtStart(s);
    ThroughBracket(p, s);
    WordThenBracket(p, 3, s, 1);
    assert s[1..12] == "custom_item" && SkipSpace(s, 12) == 12;
    MatchesAnyIff(OpenCheckPattern, 0, s);
  }

  lemma CustomItemLine(s: string)
    requires s == CustomItem
    ensures Classify(s, false) == Open(CheckBlock)
  {
    CustomItemOpensCheck(s);
    TagLineHead(s);
    ClassifyByTest(s);
  }

  lemma CustomItemEndLine(s: string)
    requires s == CustomItemEnd
    ensures Classify(s, true) == CloseCheck
  {
    TagLineHead(s);
    var p := CloseCheckPattern[0];
    AtSlash(s);
    ThroughSlash(p, s);
    WordThenBracket(p, 5, s, 2);
    assert s[2..13] == "custom_item" && SkipSpace(s, 13) == 13;
    MatchesAnyIff(CloseCheckPattern, 0, s);
  }

  /** The line is `<condition type:"AND">`, segment by segment. */
  predicate ConditionAndText(s: string) {
    && |s| == 22 && s[0] == '<' && s[1..10] == "condition" && s[10] == ' ' && s[11..15] == "type"
    && s[15] == ':' && s[16] == '"' && s[16..21] == "\"AND\"" && s[21] == '>'
  }

  /** `<condition type:"AND">` matches the first condition alternative. */
  lemma ConditionAndMatches(s: string)
    requires ConditionAndText(s)
    ensures IsCloseCondition(s)
  {
    var p := CloseConditionPattern[0];
    AtStart(s);
    ThroughBracket(p, s);
    LitPiece(p, 3, s, 1);
    TypeClause(p, 4, s, 10);
    LitPiece(p, 10, s, 16);
    assert MatchesFrom(p, 11, s, 21);
    MatchesAnyIff(CloseConditionPattern, 0, s);
  }

  /** The condition tag is matched by the close-condition test, which
      comes before every open test. */
  lemma ConditionAndLine(s: string)
    requires s == ConditionAnd
    ensures Classify(s, false) == Close(ConditionBlock)
  {
    assert s[1..10] == "condition" && s[11..15] == "type" && s[16..21] == "\"AND\"";
    assert ConditionAndText(s);
    ConditionAndMatches(s);
    TagLineHead(s);
    ClassifyByTest(s);
  }

  /** `</condition>` matches no pattern at all. */
  lemma SlashConditionLine(s: string)
    requires s == SlashCondition
    ensures Classify(s, false) == Ignore
  {
    TagLineHead(s);
    SlashConditionClosesNothing(s);
    SlashConditionOpensNothing(s);
    ClassifyByTest(s);
  }

  lemma SlashConditionClosesNothing(s: string)
    requires s == SlashCondition
    ensures !IsCloseIf(s) && !IsCloseThen(s) && !IsCloseElse(s)
  {
    AtSlash(s);
    CloseIfHead(s);
    CloseThenHead(s);
    CloseElseHead(s);
  }

  lemma SlashConditionOpensNothing(s: string)
    requires s == SlashCondition
    ensures !IsOpenIf(s) && !IsOpenThen(s) && !IsOpenElse(s) && !IsOpenCheck(s)
    ensures !IsOpenCondition(s) && !IsCloseCondition(s)
  {
    AtStart(s);
    ConditionHead(s);
    ConditionPatternsCoincide(s);
    OpenIfHead(s);
    OpenThenHead(s);
    OpenElseHead(s);
    OpenCheckHead(s);
  }

  lemma ReportPassedLine(s: string)
    requires s == ReportPassed
    ensures Classify(s, false) == Ignore
  {
    ReportPassedOpensNothing(s);
    ReportPassedNoOtherTest(s);
    TagLineHead(s);
    ClassifyByTest(s);
  }

  /** `report` after the `<` rules out every tag test but the check one. */
  lemma ReportPassedNoOtherTest(s: string)
    requires s == ReportPassed
    ensures !IsCloseIf(s) && !IsCloseThen(s) && !IsCloseElse(s)
    ensures !IsOpenIf(s) && !IsOpenThen(s) && !IsOpenElse(s)
    ensures !IsOpenCondition(s) && !IsCloseCondition(s)
  {
    AtStart(s);
    CloseIfHead(s);
    CloseThenHead(s);
    CloseElseHead(s);
    ConditionHead(s);
    ConditionPatternsCoincide(s);
    OpenIfHead(s);
    OpenThenHead(s);
    OpenElseHead(s);
  }

  lemma ReportPassedNoQuoteLine(s: string)
    requires s == ReportPassedNoQuote
    ensures Classify(s, false) == Open(CheckBlock)
  {
    ReportPassedNoQuoteOpensCheck(s);
    TagLineHead(s);
    ClassifyByTest(s);
  }

  lemma FailedTagLine(s: string)
    requires s == FailedTag
    ensures Classify(s, false) == Open(CheckBlock)
  {
    FailedTagOpensCheck(s);
    TagLineHead(s);
    ClassifyByTest(s);
  }

  /**
   * The check patterns as written: the alternation is not bracketed, so a
   * well-formed `<report type:"PASSED">` opens nothing, while
   * `<report type:"PASSED>` and a bare `<FAILED>` open a check block.
   */
  lemma CheckAlternationAsWritten(passed: string, noQuote: string, bare: string)
    requires passed == ReportPassed && noQuote == ReportPassedNoQuote && bare == FailedTag
    ensures Classify(passed, false) == Ignore
    ensures Classify(noQuote, false) == Open(CheckBlock)
    ensures Classify(bare, false) == Open(CheckBlock)
  {
    ReportPassedLine(passed);
    ReportPassedNoQuoteLine(noQuote);
    FailedTagLine(bare);
  }

  // Whole inputs, read one line at a time.

  /** Reading one more line: the definition of `Run`, for a known prefix. */
  lemma RunSnoc(lines: seq<string>, k: nat)
    requires k < |lines|
    ensures Run(lines[..k + 1]) == match Run(lines[..k])
      case Err(e) => Err(e)
      case Ok(stack) => Step(stack, lines[k], k)
  {
    assert lines[..k + 1][..k] == lines[..k];
  }

  /** A file that starts with `<custom_item>` has a check block open
      after its first line. */
  lemma CustomItemFirst(lines: seq<string>)
    requires |lines| >= 1 && lines[0] == CustomItem
    ensures Run(lines[..1]) == Ok([EmptyRoot, Container(CheckBlock, CustomItem, 0, -1, [])])
  {
    CustomItemLine(lines[0]);
    RunSnoc(lines, 0);
    assert [EmptyRoot] + [Container(CheckBlock, CustomItem, 0, -1, [])]
      == [EmptyRoot, Container(CheckBlock, CustomItem, 0, -1, [])];
  }

  /** A line that looks like an open tag, inside a check block, is a policy
      line of that block. */
  lemma OpaqueCheckBody(lines: seq<string>)
    requires lines == [CustomItem, IfTag, CustomItemEnd]
    ensures BuildTree(lines)
      == Ok(Container(Root, "", -1, -1, [
              Block(Container(CheckBlock, CustomItem, 0, 2, [
                PolicyLine(IfTag),
                CheckClose(CustomItemEnd, 2)]))]))
  {
    IfTagLine(lines[1]);
    CustomItemEndLine(lines[2]);
    var check := Container(CheckBlock, CustomItem, 0, -1, []);
    CustomItemFirst(lines);

    var body := check.(children := [PolicyLine(IfTag)]);
    RunSnoc(lines, 1);
    assert check.children + [PolicyLine(IfTag)] == body.children;
    assert [EmptyRoot, check][..1] + [body] == [EmptyRoot, body];
    assert Run(lines[..2]) == Ok([EmptyRoot, body]);

    var closed := body.(endLine := 2, children := body.children + [CheckClose(CustomItemEnd, 2)]);
    var root := EmptyRoot.(children := [Block(closed)]);
    RunSnoc(lines, 2);
    var updated := [EmptyRoot, body][..1] + [closed];
    assert updated == [EmptyRoot, closed];
    assert EmptyRoot.children + [Block(closed)] == [Block(closed)];
    assert updated[..0] + [root] == [root];
    assert Attach(updated) == [root];
    assert lines[..3] == lines;
    assert body.children + [CheckClose(CustomItemEnd, 2)] == [PolicyLine(IfTag), CheckClose(CustomItemEnd, 2)];
    assert Run(lines) == Ok([root]);
  }

  /**
   * The close-condition pattern is the open-condition one: the condition tag
   * closes the if block, `</condition>` is ignored, and `</if>` then finds
   * the root current.
   */
  lemma ConditionTagCloses(lines: seq<string>)
    requires lines == [IfTag, ConditionAnd, SlashCondition, EndIfTag]
    ensures BuildTree(lines) == Err(CloseAtRoot(3))
  {
    IfTagLine(lines[0]);
    ConditionAndLine(lines[1]);
    SlashConditionLine(lines[2]);
    EndIfTagLine(lines[3]);
    var ifBlock := Container(IfBlock, IfTag, 0, -1, []);
    RunSnoc(lines, 0);
    assert [EmptyRoot] + [ifBlock] == [EmptyRoot, ifBlock];
    assert Run(lines[..1]) == Ok([EmptyRoot, ifBlock]);

    var root := EmptyRoot.(children := [Block(ifBlock)]);
    RunSnoc(lines, 1);
    assert EmptyRoot.children + [Block(ifBlock)] == root.children;
    assert [EmptyRoot, ifBlock][..0] + [root] == [root];
    assert Run(lines[..2]) == Ok([root]);

    RunSnoc(lines, 2);
    assert Run(lines[..3]) == Ok([root]);

    RunSnoc(lines, 3);
    assert lines[..4] == lines;
  }

  /** Blocks still open at end of input stay in the tree, end line -1. */
  lemma UnterminatedBlocksStay(lines: seq<string>)
    requires lines == [IfTag, ThenTag]
    ensures BuildTree(lines)
      == Ok(Container(Root, "", -1, -1, [
              Block(Container(IfBlock, IfTag, 0, -1, [
                Block(Container(ThenBlock, ThenTag, 1, -1, []))]))]))
  {
    IfTagLine(lines[0]);
    ThenTagLine(lines[1]);
    var ifBlock := Container(IfBlock, IfTag, 0, -1, []);
    RunSnoc(lines, 0);
    assert [EmptyRoot] + [ifBlock] == [EmptyRoot, ifBlock];
    assert Run(lines[..1]) == Ok([EmptyRoot, ifBlock]);

    var thenBlock := Container(ThenBlock, ThenTag, 1, -1, []);
    var s2 := [EmptyRoot, ifBlock, thenBlock];
    RunSnoc(lines, 1);
    assert [EmptyRoot, ifBlock] + [thenBlock] == s2;
    assert lines[..2] == lines;
    assert Run(lines) == Ok(s2);

    var ifDone := ifBlock.(children := [Block(thenBlock)]);
    var root := EmptyRoot.(children := [Block(ifDone)]);
    assert s2[..1] == [EmptyRoot];
    assert ifBlock.children + [Block(thenBlock)] == ifDone.children;
    assert Attach(s2) == [EmptyRoot, ifDone];
    assert EmptyRoot.children + [Block(ifDone)] == root.children;
    assert [EmptyRoot, ifDone][..0] + [root] == [root];
    assert Attach([EmptyRoot, ifDone]) == [root];
    assert Finish(s2) == Finish(Attach(s2));
    assert Finish(s2) == root;
  }
}
