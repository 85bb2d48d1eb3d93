# audit_parser in Dafny

A model of the parser at the heart of `main.py`: it reads a Tenable audit
file line by line and builds a tree of dict nodes. The model covers the
tag patterns (main.py, lines 18-31) and the classify-and-build loop of
`main()` (lines 35-81).

Each line goes through an ordered `if/elif` chain. The first match wins, in
this order:
- comment, then blank;
- while the current container is a check block, the check-body rule: the
  line either closes the check or becomes a policy line;
- otherwise the four closes (if, condition, then, else);
- then the five opens (if, condition, then, else, check).

The chain appends a leaf, opens a container, closes the current container,
or does nothing.

Modules:

- `Patterns` (patterns.dfy): the regexes as lists of pieces (`\s*`, `\s`,
  literal words), with alternation as a list of alternatives.
  - Every pattern is `^`-anchored and used with `re.search`, so it is a
    prefix match.
  - Every literal starts with a non-space, so a greedy `\s*` decides the
    match exactly as the backtracking regex does.
  - `\s` is the set of characters `str.isspace` accepts.
  - The patterns are kept as written:
    - the close-condition regex (line 29) repeats the open-condition regex
      (line 23), with no `/`;
    - the check alternation is unbracketed, so its alternatives are
      `custom_item`, `item`, `report\s+type\s*:\s*"PASSED`, `FAILED` and
      `WARNING"`.
- `AuditTree` (tree.dfy): the nodes.
  - Comment, blank and check-close leaves carry a text and a line.
  - Policy-line leaves carry only a text.
  - Containers carry a kind, their opening line's text, a start line, an
    end line and their children.
  - The root has -1 for both line fields.
- `Builder` (builder.dfy): the loop.
  - `parent_object` becomes a stack of the open containers, with the root
    at the bottom and the current container on top.
  - A container is attached to its parent when it is closed, or at end of
    input. This gives the same tree the source builds in place, because an
    open container is always its parent's last child.
  - `Classify` is the chain, `Apply` and `Step` are one pass of the loop
    body, `Run` folds over the lines, and `BuildTree` is the whole of
    `main()` without the file read.
  - The methods `ReadLine` and `BuildAuditTree` are the loop body and the
    loop, written imperatively and proved equal to `Step` and `BuildTree`.
- `StepFacts` (step_facts.dfy): what one line does, branch by branch.
- `TreeShape` (tree_shape.dfy): the stack invariant the loop keeps, and the
  shape of the tree it returns.
- `LineAccounting` (line_accounting.dfy): two accounts that ignore the tree.
  - The chain of open containers: the stack above the root is exactly that
    chain.
  - The lines the tree keeps: read in pre-order, the tree gives back the
    kept input lines in input order.
- `Precedence` (precedence.dfy): which test decides a line. Every tag
  pattern wants a `<` after the leading whitespace and then a word, and the
  first characters of that word tell the tests apart. No two tag tests
  accept the same line except the two condition tests, so each action of
  the chain is taken exactly when its own test accepts the line.
- `Scenarios` (scenarios.dfy): concrete lines and files through the model.
  They show the quirks of the patterns as written.
- `Findings` (findings.dfy): lines 41 and 54 as written (see "Findings").

Two behaviours of the source are modelled as written:
- Closing an if, condition, then or else block leaves its end line at -1.
  Lines 56, 59, 62 and 65 are annotations, not assignments.
- No line ever opens a condition block, because the close-condition test
  comes first and uses the same pattern.

Closing while the root is current makes `parent_object` None. This is
modelled as an error at the close line (see `Builder.BuildTree` under
"Left out" for how the source differs).

The code does not check that a close tag matches the kind of block it
closes, and it reports no block left open at end of input. It keeps no leaf
for close tags other than the check close, nor for text no pattern matches.
It has no serializer. The model does the same.

## Model

| member | source | states |
|---|---|---|
| Patterns.SkipSpace | main.py:18-31 | a greedy `\s*` stops inside the line, at or after where it starts; `SkipSpaceStops` states where |
| Patterns.MatchesFrom | main.py:18-31 | definition without ensures: the pieces from `j` on match a prefix of the line from `i` on, `\s*` taking every space it can; its properties are stated by `SpacesSkip`, `LitPiece`, `MatchesAnyIff` and the lemmas of `Precedence` (`ThroughBracket`, `ThroughSlash`, `WordThenBracket`, `OpenWord`, `SlashWord`) |
| Patterns.IsComment | main.py:18 | definition without ensures: `re.search` of `^\s*#`; `CommentIsNotBlank` and `Builder.Classify` state what it decides |
| Patterns.IsBlank | main.py:19 | definition without ensures: `re.search` of `^\s*$`; `BlankIffAllSpace` characterises it |
| Patterns.IsOpenCheck | main.py:21 | definition without ensures: the five alternatives as written; `Precedence.OpenCheckHead` states what a line it accepts has after the `<`; `Scenarios.ReportPassedOpensNothing`, `ReportPassedNoQuoteOpensCheck` and `FailedTagOpensCheck` decide it on given lines |
| Patterns.IsOpenIf | main.py:22 | definition without ensures: `^\s*<\s*if\s*>`; `Precedence.OpenIfIff` states exactly which lines it accepts |
| Patterns.IsOpenCondition | main.py:23 | definition without ensures: the two alternatives of `"(AND|OR)"`; `Precedence.ConditionHead` states what a line it accepts has after the `<`, and `ConditionPatternsCoincide` that the close-condition test accepts the same lines |
| Patterns.IsOpenThen | main.py:24 | definition without ensures: `^\s*<\s*then\s*>`; `Precedence.OpenThenIff` states exactly which lines it accepts |
| Patterns.IsOpenElse | main.py:25 | definition without ensures: `^\s*<\s*else\s*>`; `Precedence.OpenElseIff` states exactly which lines it accepts |
| Patterns.IsCloseCheck | main.py:27 | definition without ensures: the five alternatives after `/`; `Precedence.CloseCheckHead` states what a line it accepts has after the `<`; `Scenarios.CustomItemEndLine` decides it on `</custom_item>` |
| Patterns.IsCloseIf | main.py:28 | definition without ensures: `^\s*<\s*/\s*if\s*>`; `Precedence.CloseIfIff` states exactly which lines it accepts |
| Patterns.IsCloseCondition | main.py:29 | definition without ensures: the close-condition regex as written; `ConditionPatternsCoincide` ties it to the open-condition test |
| Patterns.IsCloseThen | main.py:30 | definition without ensures: `^\s*<\s*/\s*then\s*>`; `Precedence.CloseThenIff` states exactly which lines it accepts |
| Patterns.IsCloseElse | main.py:31 | definition without ensures: `^\s*<\s*/\s*else\s*>`; `Precedence.CloseElseIff` states exactly which lines it accepts |
| Patterns.LitPiece | main.py:18-31 | a literal piece matches exactly where its word stands in the line, and the pieces after it go on right after the word |
| Patterns.MatchesAnyIff | main.py:21-31 | an alternation matches a line exactly when one of its alternatives does |
| Patterns.SkipSpaceStops | main.py:18-19 | a greedy `\s*` passes over whitespace only and stops at the end of the line or at a non-space |
| Patterns.SpacesSkip | main.py:18-31 | a `\s*` piece goes on exactly where the greedy skip of leading whitespace ends |
| Patterns.BlankIffAllSpace | main.py:19 | `^\s*$` holds exactly of the lines made only of whitespace, the empty line included |
| Patterns.CommentIsNotBlank | main.py:18-19 | no comment line is blank, so the first two tests never compete |
| Patterns.ConditionPatternsCoincide | main.py:23-29 | the close-condition regex of line 29, written out piece by piece, repeats the open-condition regex of line 23, so the close-condition test accepts exactly the lines the open-condition test accepts |
| Builder.Classify | main.py:42-81 | one action per line, first match wins: comment iff the comment pattern matches; blank iff blank and not a comment; inside a check block only comment, blank, check close or policy line; outside one never a check close or policy line; closes and opens only of the kinds the chain names; which test gives which action is stated by `Precedence.ClassifyByTest` |
| Builder.AppendChild | main.py:43-54 | definition without ensures: `parent_object['children'].append(child)`, the child added last to the current container; `StepFacts.CommentOrBlankAppendsLeaf`, `TreeShape.AppendChildKeepsValid` and `LineAccounting.AppendChildLines` state its effect |
| Builder.Attach | main.py:52-66 | definition without ensures: `parent_object = parent_object['parent']`, the current container becoming its parent's last child; `StepFacts.CloseMovesToParent`, `TreeShape.AttachKeepsValid` and `LineAccounting.AttachLines` state its effect |
| Builder.CloseCurrent | main.py:52-66 | definition without ensures: moving to the parent, an error at the root; `StepFacts.CloseMovesToParent` states when it fails |
| Builder.Apply | main.py:42-81 | definition without ensures: one branch of the loop body applied to the stack; `LineAccounting.ApplyFollowsChain`, `LineAccounting.ApplyLines` and the `StepFacts` lemmas state what each branch does |
| Builder.Step | main.py:42-81 | definition without ensures: the loop body for one line, classified by whether the current container is a check block; `StepFacts`, `TreeShape.StepKeepsValid` and `LineAccounting.StepLines` state its effect, and `Builder.ReadLine` is proved equal to it |
| Builder.Run | main.py:41-81 | after any number of lines read without failure there is a current container |
| Builder.Finish | main.py:35-81 | at end of input the root keeps its kind, text and line fields and every child it had, and, when a container is left open, gains exactly one more child: a block with the kind, text and line fields of the outermost open container and its children as a prefix of the block's |
| Builder.BuildTree | main.py:35-81 | definition without ensures: the whole of `main()` without the file read; `TreeShape.BuildTreeIsWellFormed`, `LineAccounting.BuildTreeKeepsLines` and `Builder.BuildAuditTree` state what it returns |
| Builder.RunErrPersists | main.py:41-81 | once a line has failed, the lines after it change nothing |
| Builder.ReadLine | main.py:42-81 | the loop body, with the branches of the source, leaves the stack `Step` specifies: leaves appended, containers pushed, closes that attach the current container to its parent, a close at the root an error |
| Builder.BuildAuditTree | main.py:35-81 | the loop over every line, numbered by index from an empty root, returns the tree `BuildTree` specifies, or the first error |
| StepFacts.CommentOrBlankAppendsLeaf | main.py:42-45 | a comment or blank line becomes the current container's last child with its own index as its line; nothing else changes |
| StepFacts.CheckBodyIsOpaque | main.py:46-54 | inside a check block no container opens: a check-close line becomes the block's last child, sets its end line to its index and makes the parent current with the closed block as its last child; any other line becomes a policy-line leaf of the block |
| StepFacts.OpenPushesContainer | main.py:67-81 | an open tag (only outside a check block) pushes a container of the tag's kind with the line as text, the index as start line, end line -1 and no children, and leaves everything below untouched |
| StepFacts.CloseMovesToParent | main.py:55-66 | a close tag makes the parent current whatever the current container's kind, with the closed container (end line unchanged) as the parent's last child; it fails exactly when the root is current |
| StepFacts.UnmatchedLineIsIgnored | main.py:55-81 | outside a check block a line no pattern matches changes nothing |
| StepFacts.NoConditionBlockIsOpened | main.py:58-72 | no line is ever classified as opening a condition block |
| TreeShape.OpenFrameIsWellFormed | main.py:67-81 | every open container above the root already has the shape of a block left open |
| TreeShape.AttachKeepsValid | main.py:55-66 | moving to the parent keeps the stack invariant |
| TreeShape.AppendChildKeepsValid | main.py:42-54 | appending a leaf the current container may hold keeps the stack invariant |
| TreeShape.CloseCheckKeepsValid | main.py:49-52 | closing a check block keeps the stack invariant, and the closed block ends with its close line after its start |
| TreeShape.PushKeepsValid | main.py:67-81 | opening a container keeps the stack invariant |
| TreeShape.StepKeepsValid | main.py:42-81 | every line that does not fail keeps the stack invariant |
| TreeShape.RunKeepsValid | main.py:35-81 | the stack invariant holds after any number of lines read without failure |
| TreeShape.FinishIsWellFormed | main.py:35-81 | the containers still open at end of input, attached to their parents, give a well-formed tree |
| TreeShape.BuildTreeIsWellFormed | main.py:35-81 | the tree built has a root with comments, blank lines and blocks; check blocks hold no block; a closed check block ends with its close line, whose index is its end line, after its start line; every other block keeps end line -1; policy lines sit in check blocks only |
| LineAccounting.InCheckAgrees | main.py:48 | the current container is a check block exactly when the innermost open container of the chain is |
| LineAccounting.ApplyFollowsChain | main.py:42-81 | every action moves the stack as it moves the chain (open pushes, every close pops), and fails exactly when the chain has nothing to pop |
| LineAccounting.StackIsOpenChain | main.py:41-81 | the builder fails exactly when the chain does, and otherwise the stack above the root is exactly the containers opened and not yet closed, in nesting order |
| LineAccounting.ContainerLinesAppend | main.py:43-80 | appending a child adds its lines at the end of its container's |
| LineAccounting.AppendChildLines | main.py:42-54 | appending a leaf adds its line at the end of the stack's lines |
| LineAccounting.AttachLines | main.py:55-66 | moving to the parent moves no line |
| LineAccounting.FinishLines | main.py:35-81 | attaching the containers left open keeps every line in order |
| LineAccounting.CloseCheckLines | main.py:49-52 | closing a check block adds its close line and moves no other line |
| LineAccounting.PushLines | main.py:67-81 | opening a block adds its opening line |
| LineAccounting.ApplyLines | main.py:42-81 | an action adds its line at the end of the stack's lines exactly when it keeps it: every line but plain closes and unmatched lines |
| LineAccounting.StepLines | main.py:42-81 | one line adds itself to the stack's lines exactly when the chain says it is kept |
| LineAccounting.RunKeepsLines | main.py:41-81 | the stack carries exactly the kept input lines, in input order |
| LineAccounting.BuildTreeKeepsLines | main.py:35-81 | children are only appended: the tree read in pre-order gives back the kept lines in input order, none lost, none reordered |
| Precedence.ThroughBracket | main.py:21-31 | a pattern starting `\s*<\s*` gets past the `<` exactly when `<` is the first character after the leading whitespace, and goes on where the word after it (and its optional spaces) starts |
| Precedence.ThroughSlash | main.py:27-31 | a close pattern gets past `<\s*/\s*` exactly when `/` is the word after the `<`, and goes on where the word after the `/` starts |
| Precedence.WordThenBracket | main.py:21-31 | the tail `w\s*>` of a one-word tag pattern matches exactly when `w` stands there and `>` follows it after optional spaces |
| Precedence.OpenWord | main.py:21-25 | an open pattern accepts a line only if its keyword stands right after the `<` and the spaces after it, whatever the leading whitespace |
| Precedence.SlashWord | main.py:27-31 | a close pattern accepts a line only if `/` stands after the `<` and its keyword after the `/`, with any spaces around them |
| Precedence.OpenWordHead | main.py:21-25 | an open pattern whose keyword has two or more characters accepts a line only if those first two characters stand after the `<` |
| Precedence.OpenIfIff | main.py:22 | the open-if test accepts a line exactly when `<` is its first non-space and `if`, optional spaces and `>` follow after optional spaces; the rest of the line is free |
| Precedence.OpenThenIff | main.py:24 | the open-then test accepts a line exactly when `then` and then `>` follow its first `<`, with optional spaces around them |
| Precedence.OpenElseIff | main.py:25 | the open-else test accepts a line exactly when `else` and then `>` follow its first `<`, with optional spaces around them |
| Precedence.CloseIfIff | main.py:28 | the close-if test accepts a line exactly when `/`, `if` and `>` follow its first `<`, with optional spaces around each |
| Precedence.CloseThenIff | main.py:30 | the close-then test accepts a line exactly when `/`, `then` and `>` follow its first `<`, with optional spaces around each |
| Precedence.CloseElseIff | main.py:31 | the close-else test accepts a line exactly when `/`, `else` and `>` follow its first `<`, with optional spaces around each |
| Precedence.OpenIfHead | main.py:22 | an open-if line has `if` after the `<` |
| Precedence.OpenThenHead | main.py:24 | an open-then line has `t` after the `<` |
| Precedence.OpenElseHead | main.py:25 | an open-else line has `e` after the `<` |
| Precedence.ConditionHead | main.py:23 | a line either condition test accepts has `condition` after the `<`, whatever the whitespace before and after the `<` |
| Precedence.OpenCheckHead | main.py:21 | an open-check line has `c`, `i`, `r`, `F` or `W` after the `<`, followed by `u` after a `c` and by `t` after an `i` |
| Precedence.CloseCheckHead | main.py:27 | a close-check line has `/` after the `<` |
| Precedence.CloseIfHead | main.py:28 | a close-if line has `/` after the `<` and `i` after the `/` |
| Precedence.CloseThenHead | main.py:30 | a close-then line has `/` after the `<` and `t` after the `/` |
| Precedence.CloseElseHead | main.py:31 | a close-else line has `/` after the `<` and `e` after the `/` |
| Precedence.TagTestsExclusive | main.py:21-31 | no two of the nine tag tests of the chain accept the same line, except the close-condition and open-condition tests, which accept the same lines |
| Precedence.ClassifyByTest | main.py:42-81 | on a line that is neither a comment nor blank: inside a check block it closes the check exactly when the close-check test accepts it, and is a policy line otherwise; outside one each close and each open of if, then, else and check is taken exactly when its own test accepts the line, a close of any kind exactly when one of the four close tests does, and the line is ignored exactly when no tag test accepts it |
| Scenarios.TypeClause | main.py:21-29 | `\s+type\s*:\s*` passes over ` type:` when a non-space follows |
| Scenarios.ReportPassedOpensNothing | main.py:21 | `<report type:"PASSED">` matches no check alternative: the report alternative ends at `"PASSED`, before the closing quote |
| Scenarios.ReportPassedNoQuoteOpensCheck | main.py:21 | `<report type:"PASSED>` matches the report alternative |
| Scenarios.FailedTagOpensCheck | main.py:21 | a bare `<FAILED>` matches the `FAILED` alternative |
| Scenarios.CheckAlternationAsWritten | main.py:21-81 | the well-formed `<report type:"PASSED">` line is ignored, while `<report type:"PASSED>` and `<FAILED>` open check blocks |
| Scenarios.IfTagLine | main.py:67-69 | `<if>` opens an if block outside a check block and is a policy line inside one |
| Scenarios.EndIfTagLine | main.py:55-57 | `</if>` is a close-if line |
| Scenarios.ThenTagLine | main.py:73-75 | `<then>` opens a then block |
| Scenarios.CustomItemLine | main.py:79-81 | `<custom_item>` opens a check block |
| Scenarios.CustomItemEndLine | main.py:49-52 | `</custom_item>` closes a check block |
| Scenarios.ConditionAndLine | main.py:58-60 | `<condition type:"AND">` is taken by the close-condition test |
| Scenarios.SlashConditionLine | main.py:29-81 | `</condition>` matches no pattern and is ignored |
| Scenarios.CustomItemFirst | main.py:79-81 | a file starting with `<custom_item>` has a check block open after its first line |
| Scenarios.OpaqueCheckBody | main.py:46-54 | in `<custom_item>`, `<if>`, `</custom_item>` the `<if>` is a policy line of the check block, which ends at line 2 with its close line |
| Scenarios.ConditionTagCloses | main.py:23-66 | in `<if>`, `<condition type:"AND">`, `</condition>`, `</if>` the condition tag closes the if block, `</condition>` is ignored, and `</if>` fails at line 3 with the root current |
| Scenarios.UnterminatedBlocksStay | main.py:35-81 | for `<if>`, `<then>` the tree holds both blocks, nested and still with end line -1 |
| Findings.IfTagUnpackFails | main.py:41 | the file `<if>` fails as written on its first line, while the indexed loop opens an if block at line 0 |
| Findings.ReadLineAsWritten | main.py:42-81 | the loop body with line 54 as written, branch by branch: it raises, at the line being read, exactly when the corrected step fails or the line is a policy line of a check block (neither comment, blank nor check close); otherwise it gives the corrected step's stack |
| Findings.PolicyLineRaisesAsWritten | main.py:54 | reading the first body line of `<custom_item>`, `<if>`, `</custom_item>` as written raises at line 1, while the corrected loop parses the file |

## Findings

| source | as written | input that shows it | evidently intended | confidence | as-written member | corrected member |
|---|---|---|---|---|---|---|
| main.py:41 | the loop unpacks each line string into the two loop names, which raises ValueError for any line that is not exactly two characters long | the one-line file `<if>` | iterate over `enumerate(raw_text)`, numbering the lines from 0 | high, not executed | Findings.UnpackAsWritten, Findings.IfTagUnpackFails | Builder.BuildAuditTree |
| main.py:54 | a policy line calls `append` on the check block's dict, which raises AttributeError; the leaf's key is the builtin `type`, not the string | `<custom_item>`, `<if>`, `</custom_item>`, at line 1 | append a "Policy line" leaf to the block's `children` | high, not executed | Findings.ReadLineAsWritten, Findings.PolicyLineRaisesAsWritten | StepFacts.CheckBodyIsOpaque |

## Left out

- Reading `test.audit` and splitting it on newlines (main.py:37-38), and the `__main__` driver (main.py:84-85): the model takes the lines as a sequence of strings.
- The return value: `main()` discards the tree it builds; the model returns it.
- The two XML-tag regexes (main.py:15-16) and `last_header_pos` (main.py:39): they are never used.
- The `parent` entry of the container dicts: it exists only to move back up while the tree is built, which the builder's stack does.
- A general regex engine: only the shapes these patterns use are modelled (`\s*`, `\s`, literal words, one level of alternation).
- Builder.BuildTree: reports a close at the root as an error at the close line. The source sets the current container to None and raises only when it reads the next line. The last element of a file split on newlines is normally an empty line, so in practice the source fails there too.
- No JSON export or text serializer exists in the code, so none is modelled.

