/**
 * Two accounts of a parse that do not look at the tree: the chain of
 * containers opened and not yet closed, and the input lines the tree keeps.
 * The lemmas here tie the builder of main.py, lines 35-81, to both.
 */
module LineAccounting {
  import opened AuditTree
  import opened Builder
  import opened TreeShape

  datatype Option<T> = None | Some(value: T)

  /** The kind and start line of an open container. */
  datatype Header = Header(kind: BlockKind, startLine: int)

  /** Whether the innermost open container is a check block. */
  predicate InCheck(chain: seq<Header>) {
    chain != [] && chain[|chain| - 1].kind == CheckBlock
  }

  /** What an action does to the chain of open containers: an open pushes,
      every close pops whatever is innermost, or fails when nothing is open;
      other actions leave it alone. */
  function ChainApply(chain: seq<Header>, action: Action, n: nat): Option<seq<Header>> {
    match action
    case Open(kind) => Some(chain + [Header(kind, n)])
    case Close(_) => if chain == [] then None else Some(chain[..|chain| - 1])
    case CloseCheck => if chain == [] then None else Some(chain[..|chain| - 1])
    case _ => Some(chain)
  }

  /** What line `n` does to the chain. */
  function ChainStep(chain: seq<Header>, line: string, n: nat): Option<seq<Header>> {
    ChainApply(chain, Classify(line, InCheck(chain)), n)
  }

  /** The containers opened and not yet closed after `lines`, outermost
      first, or None once a close has found nothing open. */
  function OpenChain(lines: seq<string>): Option<seq<Header>> {
    if lines == [] then Some([])
    else
      match OpenChain(lines[..|lines| - 1])
      case None => None
      case Some(chain) => ChainStep(chain, lines[|lines| - 1], |lines| - 1)
  }

  /** The headers of a builder stack, the root left out. */
  function Headers(s: Stack): (h: seq<Header>)
    requires s != []
    ensures |h| == |s| - 1
  {
    seq(|s| - 1, i requires 0 <= i < |s| - 1 => Header(s[i + 1].kind, s[i + 1].startLine))
  }

  /** Does this action keep its line in the tree? Closes other than the check
      close, and lines no pattern matches, leave no trace. */
  predicate Keeps(a: Action) {
    !a.Close? && a != Ignore
  }

  /** The lines the tree keeps, in input order. */
  function KeptLines(lines: seq<string>): seq<string> {
    if lines == [] then []
    else
      var prefix := lines[..|lines| - 1];
      var last := lines[|lines| - 1];
      KeptLines(prefix)
        + match OpenChain(prefix)
          case None => []
          case Some(chain) => if Keeps(Classify(last, InCheck(chain))) then [last] else []
  }

  /** The builder's current container is a check block exactly when the
      innermost open container of the chain is. */
  lemma InCheckAgrees(s: Stack, n: nat)
    requires ValidStack(s, n)
    ensures Current(s).kind == CheckBlock <==> InCheck(Headers(s))
  {
    if |s| > 1 {
      assert Headers(s)[|s| - 2] == Header(s[|s| - 1].kind, s[|s| - 1].startLine);
    }
  }

  /** Two stacks whose containers above the root agree on kind and start
      line have the same headers. */
  lemma HeadersAgree(t: Stack, s: Stack, m: nat)
    requires t != [] && s != [] && m < |t| && m < |s|
    requires forall i :: 1 <= i <= m ==> t[i].kind == s[i].kind && t[i].startLine == s[i].startLine
    ensures Headers(t)[..m] == Headers(s)[..m]
  {
  }

  /** An action moves the builder's stack and the chain alike. */
  lemma {:induction false} ApplyFollowsChain(s: Stack, action: Action, line: string, n: nat)
    requires ValidStack(s, n)
    ensures Apply(s, action, line, n).Ok? <==> ChainApply(Headers(s), action, n).Some?
    ensures Apply(s, action, line, n).Ok? ==>
      Headers(Apply(s, action, line, n).value) == ChainApply(Headers(s), action, n).value
  {
    var chain := Headers(s);
    var k := |s|;
    if action.Open? {
      var t := s + [Container(action.opens, line, n, -1, [])];
      HeadersAgree(t, s, k - 1);
      assert Headers(t) == Headers(t)[..k - 1] + [Header(action.opens, n)];
    } else if action.Close? || action == CloseCheck {
      if k > 1 {
        var t := Apply(s, action, line, n).value;
        assert |t| == k - 1;
        HeadersAgree(t, s, k - 2);
        assert Headers(t) == Headers(t)[..k - 2];
      }
    } else {
      var t := Apply(s, action, line, n).value;
      assert |t| == k;
      HeadersAgree(t, s, k - 1);
      assert Headers(t) == Headers(t)[..k - 1];
      assert chain == chain[..k - 1];
    }
  }

  /**
   * The stack invariant: the builder fails exactly when the chain does, and
   * otherwise its stack above the root is exactly the containers opened and
   * not yet closed, in nesting order.
   */
  lemma {:induction false} StackIsOpenChain(lines: seq<string>)
    ensures Run(lines).Ok? <==> OpenChain(lines).Some?
    ensures Run(lines).Ok? ==> Headers(Run(lines).value) == OpenChain(lines).value
  {
    if lines != [] {
      var prefix := lines[..|lines| - 1];
      StackIsOpenChain(prefix);
      if Run(prefix).Ok? {
        var st := Run(prefix).value;
        var line := lines[|lines| - 1];
        RunKeepsValid(prefix);
        InCheckAgrees(st, |prefix|);
        ApplyFollowsChain(st, Classify(line, InCheck(Headers(st))), line, |prefix|);
      }
    }
  }

  /** The lines a stack of open containers carries, outermost first. */
  function StackLines(s: Stack): seq<string> {
    if s == [] then [] else StackLines(s[..|s| - 1]) + ContainerLines(s[|s| - 1])
  }

  lemma {:induction false} ChildrenLinesAppend(ns: seq<Node>, n: Node)
    ensures ChildrenLines(ns + [n]) == ChildrenLines(ns) + NodeLines(n)
  {
    assert (ns + [n])[..|ns|] == ns;
  }

  /** Appending a child adds its lines at the end of its container's. */
  lemma {:induction false} ContainerLinesAppend(c: Container, n: Node)
    ensures ContainerLines(c.(children := c.children + [n])) == ContainerLines(c) + NodeLines(n)
  {
    ChildrenLinesAppend(c.children, n);
  }

  lemma {:induction false} StackLinesSnoc(s: Stack, c: Container)
    ensures StackLines(s + [c]) == StackLines(s) + ContainerLines(c)
  {
    assert (s + [c])[..|s|] == s;
  }

  lemma {:induction false} AppendChildLines(s: Stack, child: Node)
    requires s != []
    ensures StackLines(AppendChild(s, child)) == StackLines(s) + NodeLines(child)
  {
    var base, cur := s[..|s| - 1], Current(s);
    assert s == base + [cur];
    ContainerLinesAppend(cur, child);
    StackLinesSnoc(base, cur.(children := cur.children + [child]));
    StackLinesSnoc(base, cur);
  }

  /** Attaching the current container to its parent moves no line. */
  lemma {:induction false} AttachLines(s: Stack)
    requires |s| >= 2
    ensures StackLines(Attach(s)) == StackLines(s)
  {
    var k := |s|;
    var parent, top := s[k - 2], s[k - 1];
    var base := s[..k - 2];
    assert s == base + [parent] + [top];
    ContainerLinesAppend(parent, Block(top));
    StackLinesSnoc(base, parent.(children := parent.children + [Block(top)]));
    StackLinesSnoc(base, parent);
    StackLinesSnoc(base + [parent], top);
  }

  /** Attaching the open containers keeps every line, in order. */
  lemma {:induction false} FinishLines(s: Stack)
    requires s != [] && s[0].kind == Root
    ensures ContainerLines(Finish(s)) == StackLines(s)
    decreases |s|
  {
    if |s| == 1 {
      StackLinesSnoc([], s[0]);
      assert s == [] + [s[0]];
    } else {
      AttachLines(s);
      FinishLines(Attach(s));
    }
  }

  /** Closing a check block adds its close line and moves no other line. */
  lemma {:induction false} CloseCheckLines(s: Stack, line: string, n: nat)
    requires |s| >= 2
    ensures var cur := Current(s);
      var closed := cur.(endLine := n, children := cur.children + [CheckClose(line, n)]);
      StackLines(Attach(s[..|s| - 1] + [closed])) == StackLines(s) + [line]
  {
    var base, cur := s[..|s| - 1], Current(s);
    var closed := cur.(endLine := n, children := cur.children + [CheckClose(line, n)]);
    assert s == base + [cur];
    ContainerLinesAppend(cur.(endLine := n), CheckClose(line, n));
    assert ContainerLines(closed) == ContainerLines(cur) + [line];
    StackLinesSnoc(base, closed);
    StackLinesSnoc(base, cur);
    AttachLines(base + [closed]);
  }

  /** Opening a block adds its opening line. */
  lemma {:induction false} PushLines(s: Stack, kind: BlockKind, line: string, n: nat)
    requires kind != Root
    ensures StackLines(s + [Container(kind, line, n, -1, [])]) == StackLines(s) + [line]
  {
    var newBlock := Container(kind, line, n, -1, []);
    assert ContainerLines(newBlock) == [line] + ChildrenLines([]);
    StackLinesSnoc(s, newBlock);
  }

  /** An action adds its line at the end of the stack's lines exactly when
      it keeps it. */
  lemma {:induction false} ApplyLines(s: Stack, action: Action, line: string, n: nat)
    requires s != [] && Apply(s, action, line, n).Ok?
    requires action.Open? ==> action.opens != Root
    ensures StackLines(Apply(s, action, line, n).value)
      == StackLines(s) + (if Keeps(action) then [line] else [])
  {
    if action.Close? || action == Ignore {
      MoveLines(s, action, line, n);
      assert StackLines(s) + [] == StackLines(s);
    } else if action.Open? || action == CloseCheck {
      BlockLines(s, action, line, n);
    } else {
      LeafLines(s, action, line, n);
    }
  }

  /** A plain close or an unmatched line moves no line. */
  lemma {:induction false} MoveLines(s: Stack, action: Action, line: string, n: nat)
    requires s != [] && Apply(s, action, line, n).Ok?
    requires action.Close? || action == Ignore
    ensures StackLines(Apply(s, action, line, n).value) == StackLines(s)
  {
    if action.Close? {
      assert |s| >= 2 && Apply(s, action, line, n).value == Attach(s);
      AttachLines(s);
    }
  }

  /** Opening a block or closing a check block adds the line. */
  lemma {:induction false} BlockLines(s: Stack, action: Action, line: string, n: nat)
    requires s != [] && Apply(s, action, line, n).Ok?
    requires action.Open? || action == CloseCheck
    requires action.Open? ==> action.opens != Root
    ensures StackLines(Apply(s, action, line, n).value) == StackLines(s) + [line]
  {
    if action.Open? {
      PushLines(s, action.opens, line, n);
    } else {
      var cur := Current(s);
      var closed := cur.(endLine := n, children := cur.children + [CheckClose(line, n)]);
      assert |s| >= 2 && Apply(s, action, line, n).value == Attach(s[..|s| - 1] + [closed]);
      CloseCheckLines(s, line, n);
    }
  }

  /** A comment, blank or policy line adds itself as a leaf. */
  lemma {:induction false} LeafLines(s: Stack, action: Action, line: string, n: nat)
    requires s != [] && action in {AddComment, AddBlank, AddPolicyLine}
    ensures Apply(s, action, line, n).Ok?
    ensures StackLines(Apply(s, action, line, n).value) == StackLines(s) + [line]
  {
    var leaf := if action == AddComment then Comment(line, n)
      else if action == AddBlank then BlankLine(line, n) else PolicyLine(line);
    assert Apply(s, action, line, n) == Ok(AppendChild(s, leaf));
    AppendChildLines(s, leaf);
  }

  /** One line adds itself to the stack's lines exactly when the chain
      says it is kept. */
  lemma StepLines(s: Stack, line: string, n: nat)
    requires ValidStack(s, n) && Step(s, line, n).Ok?
    ensures StackLines(Step(s, line, n).value)
      == StackLines(s) + (if Keeps(Classify(line, InCheck(Headers(s)))) then [line] else [])
  {
    InCheckAgrees(s, n);
    ApplyLines(s, Classify(line, Current(s).kind == CheckBlock), line, n);
  }

  /** The builder's stack carries exactly the kept lines, in input order. */
  lemma {:induction false} RunKeepsLines(lines: seq<string>)
    requires Run(lines).Ok?
    ensures StackLines(Run(lines).value) == KeptLines(lines)
  {
    if lines == [] {
      StackLinesSnoc([], EmptyRoot);
    } else {
      var prefix := lines[..|lines| - 1];
      RunKeepsLines(prefix);
      StackIsOpenChain(prefix);
      RunKeepsValid(prefix);
      StepLines(Run(prefix).value, lines[|lines| - 1], |prefix|);
    }
  }

  /**
   * Nothing the tree keeps is lost or reordered: reading the tree's lines in
   * pre-order (each container's opening line, then its children) gives back
   * the kept input lines in input order.
   */
  lemma BuildTreeKeepsLines(lines: seq<string>)
    requires BuildTree(lines).Ok?
    ensures ContainerLines(BuildTree(lines).value) == KeptLines(lines)
  {
    RunKeepsLines(lines);
    RunKeepsValid(lines);
    FinishLines(Run(lines).value);
  }
}
