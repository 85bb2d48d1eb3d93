/**
 * The classify-and-build loop of `main()` (main.py, lines 35-81).
 *
 * `parent_object` points into the tree being built. Here the containers that
 * are open (opened and not yet closed) form a stack: the root at the bottom,
 * `parent_object` on top, each one the `parent` of the next. An open
 * container is always the last child of its parent, because nothing is
 * appended to a container while one of its children is open; so the model
 * attaches a container to its parent when it leaves the stack (on its close,
 * or at end of input) and obtains the same tree the source builds in place.
 */
module Builder {
  import opened Patterns
  import opened AuditTree

  /** Closing while the root is current: the source moves `parent_object` to
      the root's `parent`, None, and fails on the next line it reads. */
  datatype ParseError = CloseAtRoot(line: nat)

  datatype Result<T> = Ok(value: T) | Err(error: ParseError)

  /** What one line does to the tree: one branch of the if/elif chain. */
  datatype Action =
    | AddComment
    | AddBlank
    | CloseCheck
    | AddPolicyLine
    | Close(closes: BlockKind)
    | Open(opens: BlockKind)
    | Ignore

  /**
   * The if/elif chain of lines 42-81, first match wins: comment, blank, the
   * check-body rule, the four closes, the five opens, and otherwise nothing.
   * `inCheck` says whether the current container is a check block.
   */
  function Classify(line: string, inCheck: bool): (a: Action)
    ensures a == AddComment <==> IsComment(line)
    ensures a == AddBlank <==> !IsComment(line) && IsBlank(line)
    ensures inCheck ==> a in {AddComment, AddBlank, CloseCheck, AddPolicyLine}
    ensures !inCheck ==> a != CloseCheck && a != AddPolicyLine
    ensures a.Close? ==> a.closes in {IfBlock, ConditionBlock, ThenBlock, ElseBlock}
    ensures a.Open? ==> a.opens in {IfBlock, ThenBlock, ElseBlock, CheckBlock}
  {
    ConditionPatternsCoincide(line);
    if IsComment(line) then AddComment
    else if IsBlank(line) then AddBlank
    else if inCheck then
      (if IsCloseCheck(line) then CloseCheck else AddPolicyLine)
    else if IsCloseIf(line) then Close(IfBlock)
    else if IsCloseCondition(line) then Close(ConditionBlock)
    else if IsCloseThen(line) then Close(ThenBlock)
    else if IsCloseElse(line) then Close(ElseBlock)
    else if IsOpenIf(line) then Open(IfBlock)
    else if IsOpenCondition(line) then Open(ConditionBlock)
    else if IsOpenThen(line) then Open(ThenBlock)
    else if IsOpenElse(line) then Open(ElseBlock)
    else if IsOpenCheck(line) then Open(CheckBlock)
    else Ignore
  }

  /** The open containers, outermost first; the last one is `parent_object`. */
  type Stack = seq<Container>

  function Current(stack: Stack): Container
    requires stack != []
  {
    stack[|stack| - 1]
  }

  /** `parent_object['children'].append(child)` */
  function AppendChild(stack: Stack, child: Node): Stack
    requires stack != []
  {
    var cur := Current(stack);
    stack[..|stack| - 1] + [cur.(children := cur.children + [child])]
  }

  /** `parent_object = parent_object['parent']`: the current container, as
      its parent's last child, becomes part of the parent, which becomes
      current. */
  function Attach(stack: Stack): Stack
    requires |stack| >= 2
  {
    var parent := stack[|stack| - 2];
    stack[..|stack| - 2] + [parent.(children := parent.children + [Block(Current(stack))])]
  }

  /** Move to the parent, which the root does not have. */
  function CloseCurrent(stack: Stack, n: nat): Result<Stack>
    requires stack != []
  {
    if |stack| == 1 then Err(CloseAtRoot(n)) else Ok(Attach(stack))
  }

  /** What `action` does to the stack, for line `n` whose text is `line`. */
  function Apply(stack: Stack, action: Action, line: string, n: nat): Result<Stack>
    requires stack != []
  {
    var cur := Current(stack);
    match action
    case AddComment => Ok(AppendChild(stack, Comment(line, n)))
    case AddBlank => Ok(AppendChild(stack, BlankLine(line, n)))
    case AddPolicyLine => Ok(AppendChild(stack, PolicyLine(line)))
    case CloseCheck =>
      var closed := cur.(endLine := n, children := cur.children + [CheckClose(line, n)]);
      CloseCurrent(stack[..|stack| - 1] + [closed], n)
    case Close(_) => CloseCurrent(stack, n)
    case Open(k) => Ok(stack + [Container(k, line, n, -1, [])])
    case Ignore => Ok(stack)
  }

  /** The effect of line `n`, whose text is `line`. */
  function Step(stack: Stack, line: string, n: nat): Result<Stack>
    requires stack != []
  {
    Apply(stack, Classify(line, Current(stack).kind == CheckBlock), line, n)
  }

  /** The stack after the lines `lines`, numbered from 0, have been read. */
  function Run(lines: seq<string>): (r: Result<Stack>)
    ensures r.Ok? ==> r.value != []
  {
    if lines == [] then Ok([EmptyRoot])
    else
      match Run(lines[..|lines| - 1])
      case Err(e) => Err(e)
      case Ok(stack) => Step(stack, lines[|lines| - 1], |lines| - 1)
  }

  /** The root dict once every line is read: containers still open stay in
      the tree, each as its parent's last child. The root keeps its own
      fields and every child it already has, and gains one more child, the
      outermost open container, when there is one. */
  function Finish(stack: Stack): (root: Container)
    requires stack != []
    ensures root.kind == stack[0].kind && root.text == stack[0].text
    ensures root.startLine == stack[0].startLine && root.endLine == stack[0].endLine
    ensures stack[0].children <= root.children
    ensures |root.children| == |stack[0].children| + (if |stack| == 1 then 0 else 1)
    ensures |stack| >= 2 ==>
      var last := root.children[|root.children| - 1];
      last.Block? && last.block.kind == stack[1].kind && last.block.text == stack[1].text
      && last.block.startLine == stack[1].startLine && last.block.endLine == stack[1].endLine
      && stack[1].children <= last.block.children
    decreases |stack|
  {
    if |stack| == 1 then stack[0]
    else
      var below := Attach(stack);
      assert |stack| > 2 ==> below[0] == stack[0];
      assert |stack| > 2 ==> below[1].(children := stack[1].children) == stack[1];
      assert |stack| > 2 ==> stack[1].children <= below[1].children;
      Finish(below)
  }

  /** The tree `main()` builds from the lines of the file. */
  function BuildTree(lines: seq<string>): Result<Container> {
    match Run(lines)
    case Err(e) => Err(e)
    case Ok(stack) => Ok(Finish(stack))
  }

  /** Once a line has failed, the lines after it change nothing. */
  lemma {:induction false} RunErrPersists(lines: seq<string>, k: nat)
    requires k <= |lines| && Run(lines[..k]).Err?
    ensures Run(lines) == Run(lines[..k])
    decreases |lines| - k
  {
    if k < |lines| {
      var next := lines[..k + 1];
      assert next[..|next| - 1] == lines[..k];
      assert Run(next) == Run(lines[..k]);
      RunErrPersists(lines, k + 1);
    } else {
      assert lines[..k] == lines;
    }
  }

  /**
   * One pass of the loop body of `main()` (lines 42-81): the if/elif chain
   * for the line `lineText`, numbered `lineNumber`, updating the tree and
   * `parent_object` in place.
   */
  method ReadLine(stack: Stack, lineText: string, lineNumber: nat) returns (r: Result<Stack>)
    requires stack != []
    ensures r == Step(stack, lineText, lineNumber)
  {
    var parentObject := stack[|stack| - 1];
    if IsComment(lineText) {
      r := Ok(AppendChild(stack, Comment(lineText, lineNumber)));
    } else if IsBlank(lineText) {
      r := Ok(AppendChild(stack, BlankLine(lineText, lineNumber)));
    } else if parentObject.kind == CheckBlock {
      assert Classify(lineText, true) in {CloseCheck, AddPolicyLine};
      if IsCloseCheck(lineText) {
        parentObject := parentObject.(children := parentObject.children + [CheckClose(lineText, lineNumber)]);
        parentObject := parentObject.(endLine := lineNumber);
        var updated := stack[..|stack| - 1] + [parentObject];
        if |updated| == 1 {
          r := Err(CloseAtRoot(lineNumber));
        } else {
          r := Ok(Attach(updated));
        }
      } else {
        r := Ok(AppendChild(stack, PolicyLine(lineText)));
      }
    } else if IsCloseIf(lineText) || IsCloseCondition(lineText)
           || IsCloseThen(lineText) || IsCloseElse(lineText) {
      assert Classify(lineText, false).Close?;
      if |stack| == 1 {
        r := Err(CloseAtRoot(lineNumber));
      } else {
        r := Ok(Attach(stack));
      }
    } else {
      ConditionPatternsCoincide(lineText);
      var action := Classify(lineText, false);
      if IsOpenIf(lineText) {
        assert action == Open(IfBlock);
        r := Ok(stack + [Container(IfBlock, lineText, lineNumber, -1, [])]);
      } else if IsOpenCondition(lineText) {
        // Never taken: the close-condition test above uses the same pattern.
        assert false;
        r := Ok(stack + [Container(ConditionBlock, lineText, lineNumber, -1, [])]);
      } else if IsOpenThen(lineText) {
        assert action == Open(ThenBlock);
        r := Ok(stack + [Container(ThenBlock, lineText, lineNumber, -1, [])]);
      } else if IsOpenElse(lineText) {
        assert action == Open(ElseBlock);
        r := Ok(stack + [Container(ElseBlock, lineText, lineNumber, -1, [])]);
      } else if IsOpenCheck(lineText) {
        assert action == Open(CheckBlock);
        r := Ok(stack + [Container(CheckBlock, lineText, lineNumber, -1, [])]);
      } else {
        assert action == Ignore;
        r := Ok(stack);
      }
    }
  }

  /**
   * `main()` without the file read: every line, numbered by its index, goes
   * through the loop body; the result is the root dict.
   */
  method BuildAuditTree(rawText: seq<string>) returns (r: Result<Container>)
    ensures r == BuildTree(rawText)
  {
    var parentStack: Stack := [EmptyRoot];
    var lineNumber := 0;
    while lineNumber < |rawText|
      invariant lineNumber <= |rawText|
      invariant parentStack != [] && Run(rawText[..lineNumber]) == Ok(parentStack)
    {
      assert rawText[..lineNumber + 1][..lineNumber] == rawText[..lineNumber];
      var next := ReadLine(parentStack, rawText[lineNumber], lineNumber);
      if next.Err? {
        RunErrPersists(rawText, lineNumber + 1);
        return Err(next.error);
      }
      parentStack := next.value;
      lineNumber := lineNumber + 1;
    }
    assert rawText[..lineNumber] == rawText;
    r := Ok(Finish(parentStack));
  }
}
