/**
 * Two statements of `main()` (main.py) that raise before the loop can do
 * what it evidently means to do. Each is modelled here as written, with an
 * input that shows the difference; the rest of the model uses the corrected
 * form.
 */
module Findings {
  import opened Patterns
  import opened AuditTree
  import opened Builder
  import opened Scenarios

  /** Line 41 as written unpacks each line, a string, into the two loop
      names: a string of exactly two characters gives its two characters,
      any other string raises ValueError. */
  datatype Unpacked = Unpacked(lineNumber: char, lineText: char) | UnpackError

  function UnpackAsWritten(item: string): (u: Unpacked)
    ensures u.Unpacked? <==> |item| == 2
    ensures u.Unpacked? ==> [u.lineNumber, u.lineText] == item
  {
    if |item| == 2 then Unpacked(item[0], item[1]) else UnpackError
  }

  /** A one-line file `<if>`: the loop as written raises on its first line,
      while numbering lines by their index (`enumerate`) reads it and leaves
      an if block open at line 0. */
  lemma IfTagUnpackFails(lines: seq<string>)
    requires lines == [IfTag]
    ensures UnpackAsWritten(lines[0]) == UnpackError
    ensures BuildTree(lines) == Ok(Container(Root, "", -1, -1, [Block(Container(IfBlock, IfTag, 0, -1, []))]))
  {
    IfTagLine(lines[0]);
    var ifBlock := Container(IfBlock, IfTag, 0, -1, []);
    RunSnoc(lines, 0);
    assert [EmptyRoot] + [ifBlock] == [EmptyRoot, ifBlock];
    assert lines[..1] == lines;
    assert Run(lines) == Ok([EmptyRoot, ifBlock]);
    assert EmptyRoot.children + [Block(ifBlock)] == [Block(ifBlock)];
    assert [EmptyRoot, ifBlock][..0] == [];
    assert Finish([EmptyRoot, ifBlock]) == Finish(Attach([EmptyRoot, ifBlock]));
  }

  /** What reading one line leads to: the program raises at line `line`, or
      goes on with the stack. */
  datatype Outcome = Raises(line: nat) | Continues(stack: Stack)

  /**
   * One pass of the loop body (lines 42-81) with line 54 as written: a
   * policy line calls `append` on the check block's dict, which has no such
   * method, and raises AttributeError at that line. Every other line does
   * what the corrected step does; a close at the root raises at the close
   * line itself, as `Step` reports it (the source raises only when it reads
   * the next line).
   */
  method ReadLineAsWritten(stack: Stack, lineText: string, lineNumber: nat) returns (o: Outcome)
    requires stack != []
    ensures o.Raises? ==> o.line == lineNumber
    ensures o.Raises? <==>
      Step(stack, lineText, lineNumber).Err?
      || (Current(stack).kind == CheckBlock && !IsComment(lineText) && !IsBlank(lineText)
          && !IsCloseCheck(lineText))
    ensures o.Continues? ==> Step(stack, lineText, lineNumber) == Ok(o.stack)
  {
    var parentObject := stack[|stack| - 1];
    if IsComment(lineText) {
      o := Continues(AppendChild(stack, Comment(lineText, lineNumber)));
    } else if IsBlank(lineText) {
      o := Continues(AppendChild(stack, BlankLine(lineText, lineNumber)));
    } else if parentObject.kind == CheckBlock {
      if IsCloseCheck(lineText) {
        parentObject := parentObject.(children := parentObject.children + [CheckClose(lineText, lineNumber)]);
        parentObject := parentObject.(endLine := lineNumber);
        var updated := stack[..|stack| - 1] + [parentObject];
        if |updated| == 1 {
          o := Raises(lineNumber);
        } else {
          o := Continues(Attach(updated));
        }
      } else {
        // `parent_object.append(...)`: a dict has no `append`.
        o := Raises(lineNumber);
      }
    } else if IsCloseIf(lineText) || IsCloseCondition(lineText)
           || IsCloseThen(lineText) || IsCloseElse(lineText) {
      assert Classify(lineText, false).Close?;
      if |stack| == 1 {
        o := Raises(lineNumber);
      } else {
        o := Continues(Attach(stack));
      }
    } else {
      ConditionPatternsCoincide(lineText);
      var action := Classify(lineText, false);
      if IsOpenIf(lineText) {
        assert action == Open(IfBlock);
        o := Continues(stack + [Container(IfBlock, lineText, lineNumber, -1, [])]);
      } else if IsOpenCondition(lineText) {
        // Never taken: the close-condition test above uses the same pattern.
        assert false;
        o := Continues(stack + [Container(ConditionBlock, lineText, lineNumber, -1, [])]);
      } else if IsOpenThen(lineText) {
        assert action == Open(ThenBlock);
        o := Continues(stack + [Container(ThenBlock, lineText, lineNumber, -1, [])]);
      } else if IsOpenElse(lineText) {
        assert action == Open(ElseBlock);
        o := Continues(stack + [Container(ElseBlock, lineText, lineNumber, -1, [])]);
      } else if IsOpenCheck(lineText) {
        assert action == Open(CheckBlock);
        o := Continues(stack + [Container(CheckBlock, lineText, lineNumber, -1, [])]);
      } else {
        assert action == Ignore;
        o := Continues(stack);
      }
    }
  }

  /** The first body line of a check block raises as written, at line 1;
      with the leaf appended to the block's children, the same file
      parses. */
  method PolicyLineRaisesAsWritten(lines: seq<string>) returns (o: Outcome)
    requires lines == [CustomItem, IfTag, CustomItemEnd]
    ensures o == Raises(1)
    ensures BuildTree(lines).Ok?
  {
    CustomItemFirst(lines);
    IfTagLine(lines[1]);
    OpaqueCheckBody(lines);
    assert Run(lines[..1]).Ok?;
    o := ReadLineAsWritten(Run(lines[..1]).value, lines[1], 1);
  }
}
