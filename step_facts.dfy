/**
 * What a single line does to the builder's state, branch by branch of the
 * if/elif chain in main.py, lines 42-81.
 */
module StepFacts {
  import opened Patterns
  import opened AuditTree
  import opened Builder

  /** A comment or blank line becomes the last child of the current
      container, with its own index as its line; nothing else changes. */
  lemma CommentOrBlankAppendsLeaf(stack: Stack, line: string, n: nat)
    requires stack != [] && (IsComment(line) || IsBlank(line))
    ensures Step(stack, line, n).Ok?
    ensures var after := Step(stack, line, n).value;
      && |after| == |stack|
      && after[..|stack| - 1] == stack[..|stack| - 1]
      && Current(after).(children := Current(stack).children) == Current(stack)
      && Current(after).children == Current(stack).children
           + [if IsComment(line) then Comment(line, n) else BlankLine(line, n)]
  {
  }

  /**
   * While the current container is a check block, a line that is neither a
   * comment nor blank never opens a container: a check-close line adds a
   * "Check close" leaf as the block's last child, sets its end line to the
   * line's index and makes its parent current, with the closed block as the
   * parent's last child; any other line becomes a policy-line leaf.
   */
  lemma CheckBodyIsOpaque(stack: Stack, line: string, n: nat)
    requires |stack| >= 2 && Current(stack).kind == CheckBlock
    requires !IsComment(line) && !IsBlank(line)
    ensures Step(stack, line, n).Ok?
    ensures |Step(stack, line, n).value| <= |stack|
    ensures var after := Step(stack, line, n).value;
      var cur := Current(stack);
      var parent := stack[|stack| - 2];
      if IsCloseCheck(line) then
        && after[..|stack| - 2] == stack[..|stack| - 2]
        && Current(after).(children := parent.children) == parent
        && Current(after).children == parent.children
             + [Block(cur.(endLine := n, children := cur.children + [CheckClose(line, n)]))]
      else
        && after[..|stack| - 1] == stack[..|stack| - 1]
        && Current(after).(children := cur.children) == cur
        && Current(after).children == cur.children + [PolicyLine(line)]
  {
  }

  /**
   * An open tag, outside a check block, pushes a new container of the
   * matching kind: its text is the line, its start line the index, its end
   * line -1, no children. The containers below are untouched, so the new one
   * will be the last child of the container that was current.
   */
  lemma OpenPushesContainer(stack: Stack, line: string, n: nat)
    requires stack != [] && Classify(line, Current(stack).kind == CheckBlock).Open?
    ensures Current(stack).kind != CheckBlock
    ensures Step(stack, line, n).Ok?
    ensures var after := Step(stack, line, n).value;
      && |after| == |stack| + 1
      && after[..|stack|] == stack
      && Current(after) == Container(Classify(line, false).opens, line, n, -1, [])
  {
  }

  /**
   * A close-if, close-condition, close-then or close-else line makes the
   * parent current whatever the kind of the current container, leaves its end
   * line at -1, and fails only when the current container is the root.
   */
  lemma CloseMovesToParent(stack: Stack, line: string, n: nat)
    requires stack != [] && Classify(line, Current(stack).kind == CheckBlock).Close?
    ensures |stack| == 1 <==> Step(stack, line, n) == Err(CloseAtRoot(n))
    ensures |stack| >= 2 ==>
      var after := Step(stack, line, n).value;
      var parent := stack[|stack| - 2];
      && |after| == |stack| - 1
      && after[..|stack| - 2] == stack[..|stack| - 2]
      && Current(after).(children := parent.children) == parent
      && Current(after).children == parent.children + [Block(Current(stack))]
  {
  }

  /** Outside a check block, a line that no pattern matches changes nothing. */
  lemma UnmatchedLineIsIgnored(stack: Stack, line: string, n: nat)
    requires stack != [] && Current(stack).kind != CheckBlock
    requires !IsComment(line) && !IsBlank(line)
    requires !IsCloseIf(line) && !IsCloseCondition(line) && !IsCloseThen(line) && !IsCloseElse(line)
    requires !IsOpenIf(line) && !IsOpenThen(line) && !IsOpenElse(line) && !IsOpenCheck(line)
    ensures Step(stack, line, n) == Ok(stack)
  {
  }

  /** Because the close-condition test comes first and uses the same
      pattern, no line ever opens a condition block. */
  lemma NoConditionBlockIsOpened(line: string, inCheck: bool)
    ensures Classify(line, inCheck) != Open(ConditionBlock)
  {
    ConditionPatternsCoincide(line);
  }
}
