# A model of the jade template parser and translator

go-floki/jade translates Jade templates into Go `html/template` source. A scanner
turns a template into tokens. The parser (parser/parser.go) builds a syntax tree from
them, and in doing so follows `extends` and `import` to other files and merges named
blocks into the parent template. The compiler (compiler.go) walks the tree and writes
template text. `visitExpression` there lowers each Go expression into a chain of
`{{$__jade_N := …}}` temporaries. The path helpers (path/path.go) convert between the
parser's path separator and the operating system's.

The model is in modules that follow that structure:

| file | module | what it holds |
|---|---|---|
| wrappers.dfy | `Wrappers` | `Option` and `Result` |
| strings.dfy | `Strings` | `strings.ReplaceAll`, `Split`, `Join`, `strconv.Itoa`, `sort.Strings`, with their laws |
| path.dfy | `Path` | path/path.go |
| nodes.dfy | `Nodes` | the syntax tree, and named blocks as cells of a store |
| grammar.dfy | `Grammar` | the parser as pure functions over a token sequence and a parser state |
| parser.dfy | `Parsing` | the `Parser` object with its fields, proved to end in the state `Grammar` computes |
| text.dfy | `Text` | `escape`, the two shortest-match regular expressions of `visitText`, its line layout |
| attributes.dfy | `Attributes` | the attribute table of `visitTag` |
| expressions.dfy | `Expressions` | the expressions `visitExpression` handles, their lowering, and what the lowering computes |
| generator.dfy | `Generator` | the text the compiler writes, as functions on its state |
| compiler.dfy | `Compiler` | the `Compiler` object with its fields, proved to end in the state `Generator` computes |

Each stateful part of the source is modelled twice.
- A class keeps the source's fields and loops: `Parsing.Parser`, `Parsing.BlockStore` and `Compiler.Compiler`.
- A pure function on a value of those fields serves as its reference: `Grammar` and `Generator`.
- Every method is proved to succeed exactly when its function does, and then to leave the object in the state the function computes.
- The properties the source promises are proved about the functions, as their `ensures` or as lemmas.

Named blocks are shared objects in the source. `parseNamedBlock` puts the block into
the tree, and the merge of a child template later rewrites that block's children in
place. Here every named block is a cell of a store that all the parsers of one parse
share (`BlockStore`). The tree refers to a cell by index (`Slot`). `Nodes.Resolve` reads
the cells as they are at the end and gives the tree the compiler walks.

Two behaviours of the code are easy to miss, and the model follows the code:
- **Block-level attributes.** Only `tokAttribute` tokens directly inside a tag's block join the tag (parser/parser.go:346-364). The id and class cases are commented out, so a bare `#id` or `.cls` there is an ordinary child.
- **Chained `extends`.** When A extends B and B extends C, `Parse` of A merges A's blocks into B's named-block table only. B parsed C and merged into C before that. So an override in A of a block that only C declares has no effect, and a Default block of B that replaced C's children has already copied them. The model does exactly that: `Grammar.PParse` merges over the direct parent's table.

## Model

| member | source | states |
|---|---|---|
| Path.ToOsSeparator | path/path.go:25-27 | every occurrence of the caller's separator becomes the OS separator; every other character and the length are kept |
| Path.FromOsSeparator | path/path.go:29-31 | every OS separator becomes the caller's separator; nothing else changes |
| Path.ToOsRemovesSeparator | path/path.go:25-27 | with two different separators, no caller separator is left after the conversion |
| Path.FromToRoundTrip | path/path.go:25-31 | converting back undoes the conversion on a path that holds no OS separator |
| Path.Convert | path/path.go:10-23 | with equal separators the function runs on the path as given; otherwise an unknown OS separator is an error, and a known one converts to OS form, runs the function and converts back |
| Path.ConvertInCallerForm | path/path.go:10-23 | with different separators on a known OS, the converted result contains no OS separator |
| Path.ConvertIdentity | path/path.go:10-23 | converting with the identity changes nothing |
| Path.Join | path/path.go:33-46 | with different separators every element of the argument array is rewritten in place to OS form and the result is `filepath.Join` converted back; otherwise the array is untouched and the parts are joined with one separator and doubled separators halved |
| Path.JoinPlainParts | path/path.go:40-44 | for non-empty parts without separators the equal-separator join puts exactly one separator between parts |
| Path.CollapseRun | path/path.go:40-44 | the collapsing is a single pass: a run of n separators becomes ceil(n/2), not one |
| Strings.ReplaceCharAt | compiler.go:355-357 | replacing one character by another is a character-wise substitution |
| Strings.JoinSplit | compiler.go:541-549 | splitting at a character and joining with it gives the text back |
| Strings.SplitAbsent | compiler.go:541-549 | a text without the character splits into itself |
| Strings.ItoaInjective | compiler.go:350-353 | different counter values have different decimal spellings |
| Strings.SortStrings | compiler.go:487 | the sorted names are ordered and a permutation of the input |
| Strings.SortDistinctStrict | compiler.go:482-487 | sorting distinct names gives a strictly increasing sequence |
| Strings.StrictlySortedUnique | compiler.go:482-487 | two strictly increasing sequences of the same names are equal |
| Strings.SortListing | compiler.go:482-487 | whatever order the map yields the names in, sorting gives the same sequence |
| Text.EscapeUnchanged | compiler.go:355-357 | `escape` leaves text without backslash or double quote unchanged |
| Text.EscapeRoundTrip | compiler.go:355-357 | the escaped text is safe between double quotes and reads back as the original |
| Text.CloseAt | compiler.go:529-530 | the lazy `(.*?)` stops at the first closing delimiter, and never crosses a newline |
| Text.Scan | compiler.go:529-530 | the matched insides contain no newline |
| Text.ScanRoundTrip | compiler.go:533-539 | the matches and the text between them make up the input, in order |
| Text.ScanAbsent | compiler.go:533-539 | without an opening delimiter there is no match |
| Text.EscapeBracesAbsent | compiler.go:533-535 | text without `{{` is left as it is by the brace escape |
| Text.NeutraliseRenames | compiler.go:533-535 | every `{{x}}` becomes `x` framed by the two literal-printing actions |
| Text.LayoutUnindented | compiler.go:541-549 | without indentation the lines are written exactly as they were |
| Text.LayoutOneLine | compiler.go:541-549 | a single line is written as it is, whatever the indentation |
| Attributes.TableKeys | compiler.go:434-477 | the table has exactly one entry per declared attribute name |
| Attributes.LastWins | compiler.go:474-476 | a name other than `class` takes the value and guard of its last declaration |
| Attributes.ClassPartsEmpty | compiler.go:459-476 | no `class` declaration, no `class` entry |
| Attributes.ClassConcatenation | compiler.go:459-473 | repeated `class` declarations concatenate in order, each part inside its own guard, and leave no guard on the entry |
| Attributes.ClassJoin | compiler.go:459-473 | unguarded class parts are joined by single spaces |
| Attributes.SortedClassId | compiler.go:482-487 | example: `class` sorts before `id` |
| Attributes.EmitUnguarded | compiler.go:496-500 | example: an unguarded attribute with a value is written ` name="value"` |
| Attributes.EmitClassThenId | compiler.go:482-505 | a table of `class` and `id` writes `class` first |
| Attributes.EmitIdAndClass | compiler.go:425-505 | example: `#top.header` writes its class before its id, whatever the declaration order |
| Expressions.TempNameInjective | compiler.go:350-353 | different counter values give different temporaries |
| Expressions.ResolveIdent | compiler.go:700-720 | `__DOLLAR__` alone is the dot, `__DOLLAR__x` is `$x`, `nil` and known function names stay bare, any other name becomes a field of the dot |
| Expressions.DollarIdentRoundTrip | compiler.go:561-720 | a template variable `$x` survives the `$` renaming and the identifier rule, and a lone `$` becomes the dot |
| Expressions.BinaryStep | compiler.go:617-671 | an operator succeeds exactly when it is `\|` or has a template function; it defines fresh temporaries above the operands' and leaves the last on the stack |
| Expressions.CallStep | compiler.go:741-783 | a non-builtin call defines its temporary between the arguments' and the callee's, each exactly once |
| Expressions.Lower | compiler.go:607-789 | the lowering defines each of the temporaries after the counter exactly once and leaves an operand among them or a literal |
| Expressions.LowerArgs | compiler.go:737-739 | one operand per argument, all temporaries fresh |
| Expressions.LowerArgsLastFirst | compiler.go:737-739 | the last argument is reduced first: its code opens the arguments' code, from the call's starting counter, and its operand is the last one |
| Expressions.LowerOkIff | compiler.go:607-789 | the lowering fails exactly on an operator without a template function or an unsupported node kind |
| Expressions.LowerArgsOkIff | compiler.go:734-783 | the arguments lower exactly when each is supported |
| Expressions.RunFrame | compiler.go:607-789 | running instructions that do not define a temporary leaves its value alone |
| Expressions.LowerMeaning | compiler.go:607-789 | soundness: running the instructions written and reading the pushed value gives the expression's direct reading as one nested pipeline, whatever the temporaries held before |
| Expressions.BinaryStepMeaning | compiler.go:617-671 | an operator's instructions compute its template function on the operands, with `not` around `eql`, `gtr` or `lss` for `!=`, `<=` and `>=` |
| Expressions.CallStepMeaning | compiler.go:741-783 | a method call applies `recv.name`, any other non-builtin callee is applied as a value, to the arguments in order |
| Expressions.LowerArgsMeaning | compiler.go:734-783 | the argument operands are the arguments' readings, in order |
| Expressions.RenderAppend | compiler.go:607-789 | the text of two instruction runs is their concatenation |
| Generator.Known | compiler.go:583-591 | a name is known exactly when it is a custom or a runtime function |
| Generator.GrowsTransitive | compiler.go:289-330 | the visitors' invariant composes: the buffer only grows, the counter never goes back, the level is restored |
| Generator.Tabs | compiler.go:345-347 | `indentLevel` tabs, none for a level that is not positive |
| Generator.Indent | compiler.go:336-348 | nothing unless pretty printing; else a newline if asked for and the buffer is not empty, then the tabs |
| Generator.ParseInterp | compiler.go:562-576 | the first parse is used when it succeeds; a retry happens only for text framed by single quotes |
| Generator.RawInterp | compiler.go:560-581 | succeeds exactly when the renamed text parses and lowers; writes only fresh instructions |
| Generator.Interp | compiler.go:552-554 | the raw interpolation inside `{{` and `}}` |
| Generator.TranslateAttr | compiler.go:438-457 | a raw value is kept as it is; no guard gives no guard |
| Generator.TranslateAttrs | compiler.go:434-478 | one translated item per attribute, names in order, and the table is the attribute table of those items |
| Generator.TranslateAttrsPrefixErr | compiler.go:434-478 | a failing attribute fails the whole tag |
| Generator.InterpSegments | compiler.go:537-539 | text without `#{…}` is returned as it is and writes nothing |
| Generator.VisitText | compiler.go:532-550 | text only appends to the buffer |
| Generator.Visit | compiler.go:289-330 | every visit only appends, never resets the counter, and restores the level |
| Generator.VisitBlock | compiler.go:359-367 | a nil block is an error |
| Generator.VisitChildren | compiler.go:359-367 | no children, nothing written |
| Generator.VisitComment | compiler.go:373-387 | a silent comment writes nothing |
| Generator.VisitCondition | compiler.go:389-397 | a condition without a positive branch is an error (nil block) |
| Generator.VisitNegative | compiler.go:392-395 | no negative branch writes no `{{else}}` |
| Generator.VisitEach | compiler.go:399-411 | `each` without a block writes nothing |
| Generator.VisitTagBody | compiler.go:509-526 | a tag without a block writes no body |
| Generator.VisitMixinCall | compiler.go:797-803 | an unknown mixin, or a call with fewer arguments than parameters, is an error |
| Generator.BindArgs | compiler.go:797-803 | fewer arguments than parameters is an error; no parameters binds nothing |
| Generator.CompileWriter | compiler.go:256-271 | the output is empty or ends in a newline; the counter only grows and the level is restored |
| Compiler.Pop | compiler.go:596-604 | the front of the stack, or "" on an empty one |
| Compiler.Compiler.constructor | compiler.go:65-74 | empty buffer, counter at zero, no mixins |
| Compiler.Compiler.Write | compiler.go:332-334 | appends to the buffer and changes nothing else |
| Compiler.Compiler.Indent | compiler.go:336-348 | ends in the state `Generator.Indent` computes |
| Compiler.Compiler.Tempvar | compiler.go:350-353 | the counter goes up by one and the name is that counter's temporary |
| Compiler.Compiler.Exec | compiler.go:607-789 | succeeds exactly when `Lower` does, writes its instructions, leaves the counter where it does and pushes its value |
| Compiler.Compiler.ExecBinary | compiler.go:610-671 | as `Exec`, for a binary expression |
| Compiler.Compiler.ExecOperator | compiler.go:617-671 | writes exactly the instructions `BinaryStep` adds, and fails exactly when it does |
| Compiler.Compiler.ExecPipe | compiler.go:620-623 | `\|` writes `{{t := x \| y}}` as `BinaryStep` does |
| Compiler.Compiler.ExecUnary | compiler.go:673-694 | as `Exec`, for a unary expression |
| Compiler.Compiler.ExecSelector | compiler.go:721-732 | as `Exec`, for a selector |
| Compiler.Compiler.ExecCall | compiler.go:734-783 | as `Exec`, for a call |
| Compiler.Compiler.ExecArgs | compiler.go:737-739 | the arguments' instructions from the last to the first, and their values on the stack in source order |
| Compiler.Compiler.ExecArg | compiler.go:737-739 | one more argument reduced after those to its right |
| Compiler.Compiler.WriteArgs | compiler.go:776-779 | one space and one popped value per argument |
| Compiler.Compiler.VisitExpression | compiler.go:593-791 | the instructions `Lower` computes, and its value popped off the stack |
| Compiler.Compiler.VisitRawInterpolation | compiler.go:560-581 | ends in the state `Generator.RawInterp` computes and returns its text |
| Compiler.Compiler.VisitInterpolation | compiler.go:552-554 | ends as `Generator.Interp` |
| Compiler.Compiler.VisitJSInterpolation | compiler.go:556-558 | the raw interpolation as a `safeJS` action |
| Compiler.Compiler.InterpolateSegments | compiler.go:537-539 | ends as `Generator.InterpSegments` |
| Compiler.Compiler.VisitText | compiler.go:532-550 | ends as `Generator.VisitText` |
| Compiler.Compiler.WriteLines | compiler.go:541-549 | writes the lines with the indentation after every newline |
| Compiler.Compiler.TranslateAttribute | compiler.go:438-457 | ends as `Generator.TranslateAttr` |
| Compiler.Compiler.TranslateAttributes | compiler.go:434-478 | builds the table `Generator.TranslateAttrs` computes |
| Compiler.Compiler.WriteAttributes | compiler.go:482-505 | writes the attributes in increasing name order, whatever order the map was listed in |
| Compiler.Compiler.WriteAttributeList | compiler.go:488-505 | each listed attribute written in turn |
| Compiler.Compiler.ListNames | compiler.go:482-485 | every name of the table exactly once |
| Compiler.Compiler.WriteAttribute | compiler.go:490-504 | the guard around ` name` or ` name="value"` |
| Compiler.Compiler.VisitTag | compiler.go:425-530 | ends as `Generator.VisitTag` |
| Compiler.Compiler.VisitTagBody | compiler.go:509-526 | ends as `Generator.VisitTagBody` |
| Compiler.Compiler.Visit | compiler.go:289-330 | ends as `Generator.Visit` |
| Compiler.Compiler.VisitBlock | compiler.go:359-367 | ends as `Generator.VisitBlock` |
| Compiler.Compiler.VisitChildren | compiler.go:360-366 | ends as `Generator.VisitChildren` |
| Compiler.Compiler.VisitComment | compiler.go:373-387 | ends as `Generator.VisitComment` |
| Compiler.Compiler.VisitCondition | compiler.go:389-397 | ends as `Generator.VisitCondition` |
| Compiler.Compiler.VisitEach | compiler.go:399-411 | ends as `Generator.VisitEach` |
| Compiler.Compiler.VisitBuffered | compiler.go:413-419 | `{{value}}` when escaped, `{{unescaped value}}` otherwise |
| Compiler.Compiler.VisitAssignment | compiler.go:421-423 | `{{x := value}}` |
| Compiler.Compiler.VisitMixin | compiler.go:793-795 | the mixin recorded under its name; nothing else changes |
| Compiler.Compiler.VisitMixinCall | compiler.go:797-803 | ends as `Generator.VisitMixinCall` |
| Compiler.Compiler.BindArgs | compiler.go:797-803 | ends as `Generator.BindArgs` |
| Compiler.Compiler.CompileWriter | compiler.go:256-271 | writes what `Generator.CompileWriter` computes to the output and drains the buffer |
| Nodes.Resolve | parser/parser.go:437-464 | the tree the compiler sees has no named-block references left; a reference reads as a block holding the named block's current children, resolved in turn, and every other node keeps its own fields with its blocks resolved |
| Nodes.ResolvePlain | parser/parser.go:437-464 | a tree without references is its own resolution |
| Grammar.Adv | parser/parser.go:301-303 | advancing consumes a token unless at EOF and changes nothing else |
| Grammar.Expect | parser/parser.go:283-290 | succeeds exactly when the current token has the kind, and then consumes it |
| Grammar.SoundTrans | parser/parser.go:230-281 | the invariant of sub-parsers composes |
| Grammar.Register | parser/parser.go:444-457 | a named block is a new cell registered under its name |
| Grammar.Absorb | parser/parser.go:430-435 | taking over an import's cells keeps the invariant |
| Grammar.Adopt | parser/parser.go:316-318 | taking the parsed parent keeps the invariant |
| Grammar.TargetName | parser/parser.go:151-164 | a parser over a string, or an invalid separator, is an error; a base name without `.` gets `.jade` appended, any other path is kept |
| Grammar.RelativeFile | parser/parser.go:151-172 | the nested parser is over the file the target names, which the file system must hold, with less depth left |
| Grammar.Combine | parser/parser.go:120-134 | Append puts the child's children after the parent's, Prepend before them, Default replaces them |
| Grammar.MergeOver | parser/parser.go:116-137 | the merge keeps the number and the names of the cells |
| Grammar.MergeKeepsOthers | parser/parser.go:116-123 | a cell that is not the parent's, or whose name the child does not define, is unchanged |
| Grammar.MergeCombines | parser/parser.go:116-134 | a parent's block the child redefines becomes the combination by the child's modifier |
| Grammar.PParse | parser/parser.go:98-141 | the result is this file's root block, or with a parent the parent's root; the store only grows |
| Grammar.PParseMerges | parser/parser.go:114-139 | with a parent, `Parse` returns the parent's root over the top-level cells merged by the parent's table and this file's table |
| Grammar.PParseCombines | parser/parser.go:114-139 | in what `Parse` returns, a parent's block this file redefines is the combination by this file's modifier, and every other cell is as the top-level parse left it |
| Grammar.PTop | parser/parser.go:98-112 | the top-level loop keeps the invariant |
| Grammar.PNode | parser/parser.go:230-281 | every construct consumes a token, except an outdent |
| Grammar.PBlock | parser/parser.go:322-373 | a block starts at an indent or semicolon; only a tag's block yields attributes |
| Grammar.PItems | parser/parser.go:330-370 | outside a tag no attribute is gathered |
| Grammar.BlockAttributeJoinsTag | parser/parser.go:346-364 | an attribute token in a tag's block joins the tag's attributes, guard included |
| Grammar.BlockAttributeOutsideTagFails | parser/parser.go:346-364 | an attribute token in a block that is not a tag's is fatal |
| Grammar.PIf | parser/parser.go:375-399 | a condition on the token's expression |
| Grammar.PIfMore | parser/parser.go:380-396 | the branches keep the expression |
| Grammar.PElse | parser/parser.go:385-394 | an `else` must be followed by `if` or an indented block, otherwise an unexpected-token error |
| Grammar.ElseIfNests | parser/parser.go:385-389 | `else if` nests the inner condition as the only child of the negative branch |
| Grammar.PIfMoreStops | parser/parser.go:380-396 | the `readmore` loop ends only where neither an indented block nor an `else` follows |
| Grammar.PIfStops | parser/parser.go:375-399 | a parsed `if` ends only where neither an indented block nor an `else` follows |
| Grammar.BareElseFails | parser/parser.go:385-394 | `else` followed by neither `if` nor a block is fatal |
| Grammar.PUnless | parser/parser.go:401-414 | `unless e` is a condition on `!(e)` with no negative branch |
| Grammar.PUnlessMore | parser/parser.go:405-411 | no negative branch |
| Grammar.POptBlock | parser/parser.go:423-425 | a block exactly when the next token is an indent |
| Grammar.PEach | parser/parser.go:416-428 | `each` keeps the token's X, Y and expression |
| Grammar.PImport | parser/parser.go:430-435 | an import leaves the named-block table and the parent alone |
| Grammar.PFile | parser/parser.go:151-172 | the nested file is parsed over the same store, which it only extends |
| Grammar.PExtends | parser/parser.go:305-320 | a second `extends` is fatal; the parent is set, the table kept, and the directive renders as an empty block |
| Grammar.ModifierOf | parser/parser.go:447-451 | `append` and `prepend` select those modifiers, anything else the default |
| Grammar.PNamedBlock | parser/parser.go:437-464 | a name defined twice in one file is fatal |
| Grammar.PNamedBody | parser/parser.go:453-455 | a named block without an indented body is empty, and parsing never moves backwards |
| Grammar.NamedBlockRegisters | parser/parser.go:437-464 | a named block that parses becomes the last cell, registered under its name with its modifier, and renders in place only with the default modifier |
| Grammar.PDoctype | parser/parser.go:466-471 | a doctype token, consumed |
| Grammar.PComment | parser/parser.go:473-484 | the comment's text, and silent exactly for the silent mode |
| Grammar.PText | parser/parser.go:486-491 | the text, raw exactly for the raw mode |
| Grammar.PBuffered | parser/parser.go:493-498 | buffered code, escaped exactly for the escaped mode |
| Grammar.PAssignment | parser/parser.go:500-505 | the variable from X and the expression |
| Grammar.PTag | parser/parser.go:507-513 | a tag named by the token |
| Grammar.PTaglessClass | parser/parser.go:515-522 | `.cls` is a `div` whose first attribute is the raw class |
| Grammar.PTaglessId | parser/parser.go:524-531 | `#id` is a `div` whose first attribute is the raw id |
| Grammar.ListAttributes | parser/parser.go:618-624 | one unguarded attribute per element of an attribute list, in order |
| Grammar.PTagReal | parser/parser.go:533-636 | a tag of that name whose first attribute stays first; a guarded id, class or attribute in the header is fatal |
| Grammar.PHeader | parser/parser.go:590-616 | a guarded header attribute is fatal |
| Grammar.PLeading | parser/parser.go:621-631 | leading text and buffered code keep the tag |
| Grammar.LeadingGoesFirst | parser/parser.go:621-631 | text that is not piped, and buffered code, go to the front of the tag's block |
| Grammar.PInline | parser/parser.go:561-589 | after `;` the tag gets a block; an inline tag becomes it only when the tag had none, and an existing block is kept |
| Grammar.PMixin | parser/parser.go:638-648 | the mixin's name and arguments |
| Grammar.PMixinCall | parser/parser.go:650-655 | a mixin call token, consumed, with its name and arguments |
| Parsing.BlockStore.constructor | parser/parser.go:29-34 | an empty store |
| Parsing.BlockStore.Alloc | parser/parser.go:444-457 | one new cell at the end |
| Parsing.BlockStore.Push | parser/parser.go:124-127 | one child appended to a cell, other cells unchanged |
| Parsing.BlockStore.PushFront | parser/parser.go:128-131 | one child put in front, other cells unchanged |
| Parsing.BlockStore.SetChildren | parser/parser.go:132-133 | a cell's children replaced |
| Parsing.BlockStore.AppendAll | parser/parser.go:124-127 | the children appended in order |
| Parsing.BlockStore.PrependAll | parser/parser.go:128-131 | pushing to the front from the last child on puts the children in front in their own order |
| Parsing.MergedAll | parser/parser.go:116-137 | merging every key of the parent's table, in any order, gives `Merge` |
| Parsing.Parser.constructor | parser/parser.go:29-34 | a parser at the first token, with no named blocks, parent or result |
| Parsing.Parser.Advance | parser/parser.go:301-303 | moves as `Grammar.Adv` |
| Parsing.Parser.Expect | parser/parser.go:283-290 | as `Grammar.Expect` |
| Parsing.Parser.ExpectOneOf | parser/parser.go:292-299 | succeeds exactly when the current token has one of the kinds, and consumes it |
| Parsing.Parser.Parse | parser/parser.go:73-143 | memoised: a second call returns the first result and changes nothing; otherwise ends as `Grammar.PParse` and records the result |
| Parsing.Parser.ParseTop | parser/parser.go:98-112 | ends as `Grammar.PTop` |
| Parsing.Parser.MergeIntoParent | parser/parser.go:114-139 | the store becomes `Grammar.Merge` of the parent's and this file's tables |
| Parsing.Parser.MergeKey | parser/parser.go:117-135 | one key of the parent's table merged |
| Parsing.Parser.MergeBlock | parser/parser.go:122-134 | one cell combined by the child's modifier |
| Parsing.Parser.ParseNode | parser/parser.go:230-281 | ends as `Grammar.PNode` |
| Parsing.Parser.ParseBlock | parser/parser.go:322-373 | ends as `Grammar.PBlock` |
| Parsing.Parser.ParseOptBlock | parser/parser.go:423-425 | ends as `Grammar.POptBlock` |
| Parsing.Parser.ParseIf | parser/parser.go:375-399 | ends as `Grammar.PIf` |
| Parsing.Parser.ParseElse | parser/parser.go:385-394 | ends as `Grammar.PElse` |
| Parsing.Parser.ParseUnless | parser/parser.go:401-414 | ends as `Grammar.PUnless` |
| Parsing.Parser.ParseEach | parser/parser.go:416-428 | ends as `Grammar.PEach` |
| Parsing.Parser.ParseRelativeFile | parser/parser.go:151-172 | a fresh parser over the file `Grammar.RelativeFile` names, on the same store |
| Parsing.Parser.ParseFile | parser/parser.go:151-172 | the nested parser ends as `Grammar.PFile` and this parser is unchanged |
| Parsing.Parser.ParseImport | parser/parser.go:430-435 | ends as `Grammar.PImport` |
| Parsing.Parser.ParseExtends | parser/parser.go:305-320 | ends as `Grammar.PExtends` |
| Parsing.Parser.ParseNamedBlock | parser/parser.go:437-464 | ends as `Grammar.PNamedBlock` |
| Parsing.Parser.ParseNamedBody | parser/parser.go:453-455 | ends as `Grammar.PNamedBody` |
| Parsing.Parser.ParseDoctype | parser/parser.go:466-471 | ends as `Grammar.PDoctype` |
| Parsing.Parser.ParseComment | parser/parser.go:473-484 | ends as `Grammar.PComment` |
| Parsing.Parser.ParseText | parser/parser.go:486-491 | ends as `Grammar.PText` |
| Parsing.Parser.ParseBuffered | parser/parser.go:493-498 | ends as `Grammar.PBuffered` |
| Parsing.Parser.ParseAssignment | parser/parser.go:500-505 | ends as `Grammar.PAssignment` |
| Parsing.Parser.ParseTag | parser/parser.go:507-513 | ends as `Grammar.PTag` |
| Parsing.Parser.ParseTaglessClass | parser/parser.go:515-522 | ends as `Grammar.PTaglessClass` |
| Parsing.Parser.ParseTaglessId | parser/parser.go:524-531 | ends as `Grammar.PTaglessId` |
| Parsing.Parser.ParseTagReal | parser/parser.go:533-636 | ends as `Grammar.PTagReal` |
| Parsing.Parser.TakeHeader | parser/parser.go:590-624 | one header attribute consumed, or the error for a guarded one |
| Parsing.Parser.TakeLeading | parser/parser.go:621-631 | leading text or buffered code put in front of the block |
| Parsing.Parser.AddAttributeList | parser/parser.go:618-624 | the list's attributes appended in order |
| Parsing.Parser.ParseInline | parser/parser.go:561-589 | ends as `Grammar.PInline` |
| Parsing.Parser.ParseMixin | parser/parser.go:638-648 | ends as `Grammar.PMixin` |
| Parsing.Parser.ParseMixinCall | parser/parser.go:650-655 | ends as `Grammar.PMixinCall` |
| Parsing.ParseTemplate | parser/parser.go:73-143 | a template parsed by a parser of its own; its tree, as the compiler sees it, is the resolution of `Grammar.PParse`'s result and has no references left |

## Left out

- The scanner, and with it raw-text mode (`readRaw`): a file is the token sequence it would produce.
- File I/O: the file system is a map from path to tokens, and `filepath.Dir`, `Join` and `Base` are function parameters.
- `go/parser`: `ParseExpr` is a function from text to an optional expression tree.
- nodes.go is not part of this model. `CanInline`, `IsSelfClosing`, `Doctype.String` and the argument splitting of `newMixin` and `newMixinCall` are parameters.
- The runtime's `FuncMap` and the custom functions are a set of names.
- Source positions and the exact text of error messages: a failure is an `Err`, and `recover` turning a panic into an error is the `Result` itself.
- The state an object is left in after a failure: a panic ends the whole parse or compilation, so only success states are specified.
- Extends cycles never end in the source. The parser carries a nesting budget (`depth`), and running out of it is an error the source does not have.
- Mixins that call themselves never end in the source. The visitors carry a `fuel` bound, and exhausting it is an error.
- `Nodes.Resolve`: a reference nested deeper than its `fuel` reads as an empty block.
- Grammar.PTop: an outdent at the top level is an `Err`. The source never consumes that token, so its loop runs forever.
- Named blocks are cells of a store that the tree refers to by index. The model does not capture other aliasing of Go slices, such as an `append` that shares a backing array.
- The first `advance` at the start of `Parse` (parser/parser.go:99): the model's parser starts on the first token.
- A tag under construction is a value, not a shared object. `parseBlock` returns the attributes that its tag gains, and the caller adds them.
- Parsing.Parser.MergeIntoParent: the map's iteration order is chosen arbitrarily. `Parsing.MergedAll` shows the result does not depend on it.
- The `strings.Index(name, "on") == 0` test of `visitTag` is written as a prefix test.
- `Compile`, `CompileFile`, `ParseFile`, `Options`, the HTTP helpers and `html/template` itself are outside the translator's core.
- Grammar.PLeading: states only that the tag is kept. Which node comes first is stated by `Grammar.LeadingGoesFirst` for one step.
- Grammar.MergeOver: Merge states only that the number of cells is preserved. What happens to each cell is stated by `Grammar.MergeKeepsOthers` and `Grammar.MergeCombines`, to keep the callers' proofs small.
