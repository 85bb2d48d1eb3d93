/**
 * The invariant the loop of `main()` keeps (main.py, lines 35-81), and the
 * shape of the tree it leaves behind.
 */
module TreeShape {
  import opened AuditTree
  import opened Builder

  /** The children a container may hold while it is still open: leaves only
      in a check block; comments, blank lines and finished blocks elsewhere. */
  predicate OpenChildrenOk(c: Container) {
    if c.kind == CheckBlock then
      forall i :: 0 <= i < |c.children| ==> IsBodyLeaf(c.children[i])
    else
      forall i :: 0 <= i < |c.children| ==> IsControlChild(c.children[i])
  }

  /**
   * The stack after `n` lines: the root at the bottom, then the containers
   * opened and not yet closed, in nesting order (their start lines increase
   * and precede line `n`), each with end line -1. A check block can only be
   * the current container, since nothing opens inside one.
   */
  ghost predicate ValidStack(s: Stack, n: nat) {
    && s != []
    && s[0].kind == Root && s[0].text == "" && s[0].startLine == -1 && s[0].endLine == -1
    && (forall i :: 0 <= i < |s| ==> OpenChildrenOk(s[i]))
    && (forall i :: 1 <= i < |s| ==> s[i].kind != Root && s[i].endLine == -1 && 0 <= s[i].startLine < n)
    && (forall i, j :: 1 <= i < j < |s| ==> s[i].startLine < s[j].startLine)
    && (forall i :: 0 <= i < |s| - 1 ==> s[i].kind != CheckBlock)
  }

  /** An open container other than the root is already well-formed as a
      block left open. */
  lemma OpenFrameIsWellFormed(s: Stack, n: nat, i: nat)
    requires ValidStack(s, n) && 1 <= i < |s|
    ensures WellFormedBlock(s[i])
  {
    assert OpenChildrenOk(s[i]);
  }

  /** Attaching the current container to its parent keeps the invariant. */
  lemma AttachKeepsValid(s: Stack, n: nat)
    requires ValidStack(s, n) && |s| >= 2
    ensures ValidStack(Attach(s), n)
  {
    var k := |s|;
    var parent := s[k - 2];
    OpenFrameIsWellFormed(s, n, k - 1);
    assert IsControlChild(Block(Current(s)));
    assert parent.kind != CheckBlock && OpenChildrenOk(parent);
    var parent' := parent.(children := parent.children + [Block(Current(s))]);
    assert OpenChildrenOk(parent');
    var t := Attach(s);
    assert t == s[..k - 2] + [parent'];
    forall i | 0 <= i < |t|
      ensures OpenChildrenOk(t[i])
    {
      if i < k - 2 { assert t[i] == s[i]; }
    }
    forall i | 1 <= i < |t|
      ensures t[i].kind != Root && t[i].endLine == -1 && 0 <= t[i].startLine < n
    {
      if i < k - 2 { assert t[i] == s[i]; } else { assert t[i].startLine == s[i].startLine; }
    }
    forall i, j | 1 <= i < j < |t|
      ensures t[i].startLine < t[j].startLine
    {
      assert t[i].startLine == s[i].startLine;
      assert t[j].startLine == s[j].startLine;
    }
  }

  /** Appending a child the current container may hold keeps the invariant. */
  lemma AppendChildKeepsValid(s: Stack, n: nat, child: Node)
    requires ValidStack(s, n)
    requires if Current(s).kind == CheckBlock then IsBodyLeaf(child) else IsControlChild(child)
    ensures ValidStack(AppendChild(s, child), n)
  {
    var t := AppendChild(s, child);
    var k := |s|;
    assert OpenChildrenOk(s[k - 1]);
    assert OpenChildrenOk(t[k - 1]);
    forall i | 0 <= i < k - 1
      ensures t[i] == s[i]
    {
    }
  }

  /** A check-close line closes the current check block, which becomes
      its parent's last child. */
  lemma CloseCheckKeepsValid(s: Stack, line: string, n: nat)
    requires ValidStack(s, n + 1) && |s| >= 2 && Current(s).kind == CheckBlock
    requires Current(s).startLine < n
    ensures var cur := Current(s);
      var closed := cur.(endLine := n, children := cur.children + [CheckClose(line, n)]);
      ValidStack(Attach(s[..|s| - 1] + [closed]), n + 1)
  {
    var k := |s|;
    var cur := Current(s);
    var closed := cur.(endLine := n, children := cur.children + [CheckClose(line, n)]);
    assert OpenChildrenOk(cur);
    assert WellFormedBlock(closed);
    var parent := s[k - 2];
    assert parent.kind != CheckBlock && OpenChildrenOk(parent);
    var parent' := parent.(children := parent.children + [Block(closed)]);
    assert OpenChildrenOk(parent');
    var after := Attach(s[..k - 1] + [closed]);
    assert after == s[..k - 2] + [parent'];
    forall i | 0 <= i < |after|
      ensures OpenChildrenOk(after[i])
    {
      if i < k - 2 { assert after[i] == s[i]; }
    }
    forall i | 1 <= i < |after|
      ensures after[i].kind != Root && after[i].endLine == -1 && 0 <= after[i].startLine < n + 1
    {
      if i < k - 2 { assert after[i] == s[i]; } else { assert after[i].startLine == s[i].startLine; }
    }
    forall i, j | 1 <= i < j < |after|
      ensures after[i].startLine < after[j].startLine
    {
      assert after[i].startLine == s[i].startLine;
      assert after[j].startLine == s[j].startLine;
    }
  }

  /** An open tag pushes a container that starts at the current line. */
  lemma PushKeepsValid(s: Stack, n: nat, kind: BlockKind, line: string)
    requires ValidStack(s, n + 1) && Current(s).kind != CheckBlock && kind != Root
    requires forall i :: 1 <= i < |s| ==> s[i].startLine < n
    ensures ValidStack(s + [Container(kind, line, n, -1, [])], n + 1)
  {
    var after := s + [Container(kind, line, n, -1, [])];
    forall i | 0 <= i < |after| - 1
      ensures after[i] == s[i]
    {
    }
  }

  /** Every line keeps the invariant, the line count moving on by one. */
  lemma StepKeepsValid(s: Stack, line: string, n: nat)
    requires ValidStack(s, n) && Step(s, line, n).Ok?
    ensures ValidStack(Step(s, line, n).value, n + 1)
  {
    var cur := Current(s);
    assert ValidStack(s, n + 1);
    var action := Classify(line, cur.kind == CheckBlock);
    if action == AddComment {
      AppendChildKeepsValid(s, n + 1, Comment(line, n));
    } else if action == AddBlank {
      AppendChildKeepsValid(s, n + 1, BlankLine(line, n));
    } else if action == AddPolicyLine {
      AppendChildKeepsValid(s, n + 1, PolicyLine(line));
    } else if action == CloseCheck {
      CloseCheckKeepsValid(s, line, n);
    } else if action.Close? {
      AttachKeepsValid(s, n + 1);
    } else if action.Open? {
      PushKeepsValid(s, n, action.opens, line);
    }
  }

  /** After any number of lines that do not fail, the invariant holds. */
  lemma {:induction false} RunKeepsValid(lines: seq<string>)
    requires Run(lines).Ok?
    ensures ValidStack(Run(lines).value, |lines|)
  {
    if lines != [] {
      var prefix := lines[..|lines| - 1];
      RunKeepsValid(prefix);
      StepKeepsValid(Run(prefix).value, lines[|lines| - 1], |lines| - 1);
    }
  }

  /** Attaching the containers left open yields a well-formed tree. */
  lemma {:induction false} FinishIsWellFormed(s: Stack, n: nat)
    requires ValidStack(s, n)
    ensures WellFormedTree(Finish(s))
    decreases |s|
  {
    if |s| == 1 {
      assert OpenChildrenOk(s[0]);
    } else {
      AttachKeepsValid(s, n);
      FinishIsWellFormed(Attach(s), n);
    }
  }

  /**
   * The tree the parser builds: a root holding comments, blank lines and
   * blocks; no check block holds a block; a closed check block ends with its
   * close line, whose index is its end line, after its start line; every
   * other block keeps end line -1; policy lines occur in check blocks only.
   */
  lemma BuildTreeIsWellFormed(lines: seq<string>)
    requires BuildTree(lines).Ok?
    ensures WellFormedTree(BuildTree(lines).value)
  {
    RunKeepsValid(lines);
    FinishIsWellFormed(Run(lines).value, |lines|);
  }
}
