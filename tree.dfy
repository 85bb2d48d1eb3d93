/**
 * The tree of nodes the parser builds (main.py, lines 35 and 43-80).
 *
 * The source builds dicts with a string "type" key; here each node shape is a
 * constructor. Leaves carry the fields their dicts carry: comment, blank and
 * check-close leaves have `start_line == end_line`, so one `line` field;
 * policy-line leaves carry only their text. Containers own their children in
 * input order. The `parent` back-reference is not part of a node: while the
 * tree is built it is the builder's stack of open containers.
 */
module AuditTree {

  datatype BlockKind = Root | IfBlock | ConditionBlock | ThenBlock | ElseBlock | CheckBlock

  datatype Node =
    | Comment(text: string, line: nat)
    | BlankLine(text: string, line: nat)
    | CheckClose(text: string, line: nat)
    | PolicyLine(text: string)
    | Block(block: Container)

  /** A container dict. The root dict has no line fields; here it has -1 for
      both. `endLine` is -1 until a close sets it. */
  datatype Container = Container(kind: BlockKind, text: string, startLine: int, endLine: int, children: seq<Node>)

  /** The root dict as created before the first line is read. */
  const EmptyRoot := Container(Root, "", -1, -1, [])

  /** A leaf that may sit in the body of a check block. */
  predicate IsBodyLeaf(n: Node) {
    n.Comment? || n.BlankLine? || n.PolicyLine?
  }

  /**
   * A container that is no longer on the builder's stack, closed or left open
   * at end of input. A check block holds leaves only; once closed its last
   * child is the close line and its `endLine` is that line's index, after its
   * start. Every other block keeps `endLine == -1` and holds comments, blank
   * lines and well-formed blocks only.
   */
  predicate WellFormedBlock(c: Container)
    decreases c
  {
    c.kind != Root &&
    if c.kind == CheckBlock then
      (c.endLine == -1 && forall i :: 0 <= i < |c.children| ==> IsBodyLeaf(c.children[i]))
      || (c.startLine < c.endLine && c.children != []
          && c.children[|c.children| - 1].CheckClose? && c.children[|c.children| - 1].line == c.endLine
          && forall i :: 0 <= i < |c.children| - 1 ==> IsBodyLeaf(c.children[i]))
    else
      c.endLine == -1 && forall i :: 0 <= i < |c.children| ==> IsControlChild(c.children[i])
  }

  /** A child of the root or of a control block (if, condition, then, else). */
  predicate IsControlChild(n: Node)
    decreases n
  {
    n.Comment? || n.BlankLine? || (n.Block? && WellFormedBlock(n.block))
  }

  /** The shape of a finished tree. */
  predicate WellFormedTree(root: Container) {
    root.kind == Root && root.text == "" && root.startLine == -1 && root.endLine == -1
    && forall i :: 0 <= i < |root.children| ==> IsControlChild(root.children[i])
  }

  /** The source lines a node carries, in pre-order: a leaf its text, a
      container its opening line (the root has none) and then its children. */
  function NodeLines(n: Node): seq<string>
    decreases n
  {
    match n
    case Block(c) => ContainerLines(c)
    case _ => [n.text]
  }

  function ContainerLines(c: Container): seq<string>
    decreases c
  {
    (if c.kind == Root then [] else [c.text]) + ChildrenLines(c.children)
  }

  function ChildrenLines(ns: seq<Node>): seq<string>
    decreases ns
  {
    if ns == [] then [] else ChildrenLines(ns[..|ns| - 1]) + NodeLines(ns[|ns| - 1])
  }
}
