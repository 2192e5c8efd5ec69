# Docstring analysis and injection engine, modelled in Dafny

This project models the core of a Python tool that measures documentation
coverage, generates missing docstrings and writes them into the source. The
tool reads Python modules through `ast.parse`; the model replaces the parser
with an abstract declaration tree (`PyAst.Node`). Each node has a kind
(`FunctionDef`, `AsyncFunctionDef`, `ClassDef`, or `Other` for any other
statement or expression), a name, its positional parameter names, `lineno`,
`col_offset`, the line of its first body statement, the value
`ast.get_docstring` returns (`Option<string>`), and its child nodes. The model
writes `ast.walk` out as a breadth-first traversal (`PyAst.Walk`) and proves
that it visits every node at any depth exactly once. A syntax error is the
`Failure` side of the parse result, and every operation passes it on unchanged.

Modules, one per source file or shared concern:

- `Wrappers`, `Seqs`, `Text`: Option/Result, counting, filtering and summing
  folds over sequences, and the string operations the tool uses (`split`,
  `"\n".join`, `splitlines`, `strip`, `startswith`, `lower`, `replace`).
- `PyAst`: the declaration tree, `ast.walk`, and its relation to a depth-first
  listing of the whole tree.
- `DocgenParser`, `LegacyParser`: the two `parse_code` extractors.
- `Coverage`: `generate_coverage_report`.
- `CheckDocs`, `ScriptsCheckDocs`: the two `count_items` functions.
- `StyledGenerator`, `Baseline`: the Google/NumPy/reST templates, the style
  dispatcher and the baseline template.
- `Splice`: the reference for every injector. All three collect
  `(index, block)` pairs against the original line buffer, sort them with
  `sorted(..., reverse=True)` and insert them highest index first. `Spliced`
  is the one-pass rewrite that puts each block in front of the original line
  its index names. The model proves that descending application produces
  exactly that rewrite (`InsertBelow`, `AppliedFirstStep`). So no insertion
  moves the anchor of one still pending.
- `Injection`: what the injectors share (the insert list collected over the
  walk, and the loop that inserts one-line entries).
- `DocgenInjector`, `LegacyInjector`, `ScriptsInjectDocs`: the three
  `inject_docstrings` variants. They differ in four ways:
  - anchor: the header line vs. the first body line;
  - block: Google lines vs. one line vs. one folded element;
  - node kinds handled: coroutines are included by the first two only;
  - missing test: falsy docstring vs. `is None`.
- `Validation`: the strict-mode normaliser and the validation report, with
  the style checker as a parameter.
- `AstValidator`: the tree-based `validate_docstrings` of the test suite.

Some of the tool's behaviour is easy to misread; the model follows the code as written:

- The packaged coverage report counts functions and methods only, never the
  class records.
- The styled templates have no class variant. They always emit the function
  summary and the parameter section, and with no parameters they leave one
  empty line where the parameter lines would be.
- The packaged injector anchors its block after the header line, not at the
  first body line.
- The strict-mode normaliser adds at most one empty line per class header
  (`Validation.LengthBound`). A line stripped to a `"""` opening right after
  a class header sets a flag, and the empty line is emitted in front of the
  next line that is neither a class header nor such a docstring line. So a
  class docstring on the last line adds nothing, two class/docstring pairs
  in a row share one empty line, and in a class docstring spanning several
  lines the empty line lands inside the string, after its opening line
  (`Validation.MultiLineClassDocstring`). A `def` line does not clear the
  class flag, so in a class without a docstring the first method's
  docstring line is taken for the class docstring.

For a one-line definition such as `def add(a, b): return a + b`, the first
body statement is on the header's own line. The two injectors that use
`body[0].lineno - 1` therefore put the docstring in front of the `def`
(`LegacyInjector.OneLinerScenario`).

## Model

| member | source | states |
|---|---|---|
| PyAst.WalkVisitsAll | src/docgen/check_docs.py:23 | `ast.walk` visits every node of the tree, at any depth, exactly once: its nodes are those of a depth-first listing of the tree, as a multiset |
| PyAst.WalkCount | src/docgen/check_docs.py:23-24 | counting a property over the walk gives the count over the whole tree |
| DocgenParser.ParseCode | src/docgen/analyzer/parser.py:9-41 | a syntax error is passed on with no partial result; otherwise the result is the function and class records of the module's top-level statements |
| DocgenParser.FunctionsOfIsFilterMap | src/docgen/analyzer/parser.py:13-20 | the function records are the top-level `FunctionDef` statements, in order, each recorded with its name, positional parameters, `get_docstring is not None` and type "function" |
| DocgenParser.ClassesOfIsFilterMap | src/docgen/analyzer/parser.py:22-39 | the class records are the top-level `ClassDef` statements, in order, each with its own docstring flag, its methods and type "class" |
| DocgenParser.MethodsOfIsFilterMap | src/docgen/analyzer/parser.py:30-37 | a class's methods are its direct `FunctionDef` body items, in order, typed "method" |
| DocgenParser.ExtractedCounts | src/docgen/analyzer/parser.py:13-39 | one function record per top-level `def`, one class record per top-level `class`, together at most the number of top-level statements |
| DocgenParser.FunctionsOfMembers | src/docgen/analyzer/parser.py:14-20 | every function record comes from a top-level `def` and is typed "function", and every top-level `def` has its record |
| DocgenParser.ClassesOfMembers | src/docgen/analyzer/parser.py:22-39 | every class record comes from a top-level `class` and is typed "class", and every top-level `class` has its record |
| DocgenParser.MethodsOfMembers | src/docgen/analyzer/parser.py:30-37 | as many method records as direct `def` children, each typed "method" and made from one of them |
| DocgenParser.ExtractedAppend | src/docgen/analyzer/parser.py:13 | only the top level is read: the records of two runs of statements are the records of each, concatenated |
| DocgenParser.NestedScenario | src/docgen/analyzer/parser.py:13-20 | a function nested in a function and an `async def` are not listed; an empty docstring counts as present |
| DocgenParser.AddScenario | src/docgen/analyzer/parser.py:13-20 | `def add(a, b): return a + b` yields exactly the record `add`, `[a, b]`, no docstring, and no class |
| LegacyParser.ParseCode | analyzer/parser.py:7-35 | a syntax error is passed on; otherwise the result is the earlier extractor's records of the top-level statements |
| LegacyParser.ExtractorsAgree | analyzer/parser.py:11-33 | the earlier extractor lists the same functions and classes, in the same order, with the same names, parameters, methods and method docstring flags as the packaged one; it only lacks the `type` entries and the class docstring flag |
| LegacyParser.MethodEntriesAgree | analyzer/parser.py:25-31 | the methods of a class are its direct `def` children in body order, as in the packaged extractor |
| LegacyParser.AddScenario | tests/test_parser.py:3-6 | `def add(a, b): return a + b` yields exactly one function |
| Coverage.GenerateCoverageReport | src/docgen/reports/coverage.py:5-29 | the accumulating loops over functions and then over each class's methods produce `CoverageOf(functions, classes)` |
| Coverage.CoverageOf | src/docgen/reports/coverage.py:9-22 | `documented <= total`; `missing == total - documented`; coverage is 0 when `total == 0`, lies in [0, 100], and is 100 exactly when something is counted and all of it is documented |
| Coverage.Percent | src/docgen/reports/coverage.py:22 | `documented / total * 100`, with no division when `total == 0` |
| Coverage.CoverageCountsRecords | src/docgen/reports/coverage.py:9-19 | `total` is the number of function records plus all method records, and `documented` the number of those with `has_docstring` |
| Coverage.CoverageOrderFree | src/docgen/reports/coverage.py:9-19 | the report does not depend on the order of the functions or of the classes |
| Coverage.ClassFlagIgnored | src/docgen/reports/coverage.py:15-19 | a class record's own fields never enter the report, only its methods |
| Coverage.DemoEightyPercent | demo_80_percent.py:6-68 | for the demonstration module (four functions, `divide` undocumented, documented method `power`) the report is total 5, documented 4, missing 1, coverage 80 |
| CheckDocs.CountItems | src/docgen/check_docs.py:18-33 | a syntax error is passed on; otherwise the loop over the walk yields the number of `FunctionDef`/`ClassDef` nodes, the number of them with a truthy docstring, and the missing list |
| CheckDocs.TallyBalance | src/docgen/check_docs.py:23-31 | `total == documented + len(missing)` |
| CheckDocs.MissingEntriesIsFilterMap | src/docgen/check_docs.py:28-31 | the missing list holds `"<filename> -> <name>"` for each counted node whose docstring is absent or empty, in walk order |
| CheckDocs.MissingEntry | src/docgen/check_docs.py:31 | an entry starts with the file name and ends with the node name |
| CheckDocs.CountsWholeTree | src/docgen/check_docs.py:23-24 | total, documented and missing counts are those of the whole tree, nested functions included |
| CheckDocs.TallyAppend | src/docgen/check_docs.py:23-31 | tallies of two stretches of the walk add up, and their missing lists concatenate |
| CheckDocs.EmptySource | tests/test_edge_cases.py:5-12 | empty source gives `(0, 0, [])` |
| CheckDocs.NestedWalk | src/docgen/check_docs.py:23 | the walk is breadth first: `outer`, then its children, then `inner`'s body |
| CheckDocs.NestedMissingScenario | tests/test_edge_cases.py:34-50 | documented `outer` with an undocumented nested `inner`: 2 counted, 1 documented, `inner` reported |
| CheckDocs.DecoratedScenario | tests/test_edge_cases.py:53-70 | a decorated documented function counts as documented; the undocumented decorator is reported |
| CheckDocs.AsyncAndBlankScenario | src/docgen/check_docs.py:24-31 | an `async def` is not counted; a class whose docstring is empty is counted and reported missing |
| ScriptsCheckDocs.CountItems | scripts/check_docs.py:10-21 | a syntax error is passed on; otherwise `(total, documented)` over the walk, with `documented <= total` |
| ScriptsCheckDocs.DocumentedAtMostTotal | scripts/check_docs.py:15-19 | never more documented items than items |
| ScriptsCheckDocs.AgreesWithPackagedCount | scripts/check_docs.py:10-21 | for the same module the script's pair is the first two components of the packaged `count_items` tally |
| ScriptsCheckDocs.EmptySource | scripts/check_docs.py:11-21 | an empty module counts `(0, 0)` |
| StyledGenerator.GenerateDocstring | generator/styled_generator.py:63-76 | the lower-cased style selects the Google, NumPy or reST template, and any other style is the `ValueError` |
| StyledGenerator.StyleCaseInsensitive | generator/styled_generator.py:67 | a style and its lower-cased form give identical output |
| StyledGenerator.DefaultStyleIsGoogle | generator/styled_generator.py:63 | without a style, and with "Google", the Google template is used |
| StyledGenerator.GoogleStyleLines | generator/styled_generator.py:1-19 | line by line: delimiter, `<name> function.`, blank, `Args:`, one `    <p>: description` per parameter in order, blank, `Returns:`, `    value`, delimiter, final break |
| StyledGenerator.NumpyStyleLines | generator/styled_generator.py:22-42 | a `Parameters` header and dash underline, then `<p> : type` and `    description` per parameter in order, then a `Returns` header and dash underline and `value` |
| StyledGenerator.RestStyleLines | generator/styled_generator.py:45-60 | one `:param <p>: description` per parameter in order, then `:return: value`, between the summary and the closing delimiter |
| Baseline.GenerateBaselineDocstring | generator/baseline.py:1-20 | the appends build exactly the baseline lines, joined with line breaks |
| Baseline.BaselineShape | generator/baseline.py:5-18 | 6 lines without parameters, else `8 + len(params)`; delimiter first and last; `Function <name>.` then blank; `Args:` appears iff there are parameters, followed by one `    <p>: parameter` per parameter and a blank; ends with `Returns:`, `    value`, delimiter |
| Baseline.BaselineSplit | generator/baseline.py:20 | splitting the joined docstring at its line breaks gives those lines back |
| Splice.Spliced | src/docgen/injector/docstring_injector.py:49-55 | the one-pass rewrite grows the buffer by exactly the blocks' lines |
| Splice.ListInsert | injector/docstring_injector.py:27 | `list.insert(i, x)` puts `x` in front of index `i`, or appends past the end |
| Splice.SortDescending | src/docgen/injector/docstring_injector.py:53 | `sorted(inserts, reverse=True)` is a permutation of the inserts |
| Splice.SortDescendingSorted | src/docgen/injector/docstring_injector.py:53 | the sorted inserts are in non-increasing tuple order, hence with non-increasing indexes |
| Splice.InsertBelow | src/docgen/injector/docstring_injector.py:52-55 | inserting a block whose index is at or below every index already applied yields the one-pass rewrite with that block added |
| Splice.AppliedFirstStep | src/docgen/injector/docstring_injector.py:53-55 | each step of the descending loop extends the one-pass rewrite by the next block |
| Splice.SplicedKeepsLine | src/docgen/injector/docstring_injector.py:53-55 | original line `i` survives unchanged, shifted down by exactly the blocks anchored at or before it |
| Splice.SplicedPlacesBlock | src/docgen/injector/docstring_injector.py:53-55 | each block appears whole at its index shifted by the blocks placed before it |
| Splice.AppliedKeepsLine | src/docgen/injector/docstring_injector.py:53-55 | after descending application, every original line is kept unchanged at its shifted position |
| Splice.AppliedPlacesBlock | src/docgen/injector/docstring_injector.py:53-55 | after descending application, a block no other block shares an index with sits right at its shifted index |
| Injection.PlanOfIsFilterMap | injector/docstring_injector.py:11-24 | the inserts are one entry per selected node of the walk, in walk order |
| Injection.PlanOfSizes | src/docgen/injector/docstring_injector.py:14-50 | the inserts add up to the sum of the selected nodes' block sizes |
| Injection.PlanBlockPlaced | src/docgen/injector/docstring_injector.py:49-55 | a selected node's block lands at its index, right after the original line before the index and right before the original line at it |
| Injection.InsertEach | injector/docstring_injector.py:26-27 | inserting one-element entries in descending order yields the one-pass rewrite, one element longer per entry |
| DocgenInjector.InjectDocstrings | src/docgen/injector/docstring_injector.py:4-57 | a syntax error is passed on; otherwise the output is the joined buffer with every block applied; `style` is never read |
| DocgenInjector.BuildBlock | src/docgen/injector/docstring_injector.py:21-46 | the block lines built for a node are its class or function block |
| DocgenInjector.BlockOf | src/docgen/injector/docstring_injector.py:24-46 | 3 lines for a class, `8 + len(args)` for a function or coroutine |
| DocgenInjector.InsertBlock | src/docgen/injector/docstring_injector.py:54-55 | inserting the block's lines in reverse at one index leaves the block whole and in order in front of that index |
| DocgenInjector.ApplyInserts | src/docgen/injector/docstring_injector.py:52-55 | applying the blocks in descending tuple order, each inserted whole, yields the one-pass rewrite of all of them |
| DocgenInjector.PlanCount | src/docgen/injector/docstring_injector.py:14-19 | one insert per `FunctionDef`/`AsyncFunctionDef`/`ClassDef` of the tree whose docstring is absent or empty |
| DocgenInjector.InjectedGrowth | src/docgen/injector/docstring_injector.py:24-55 | the output has the input's lines plus 3 per undocumented class and `8 + len(args)` per undocumented function, at any depth |
| DocgenInjector.NothingMissing | src/docgen/injector/docstring_injector.py:18-57 | with nothing undocumented the output is `"\n".join(source.splitlines())` |
| DocgenInjector.InjectedKeepsLines | src/docgen/injector/docstring_injector.py:53-55 | every original line appears unchanged, and the original lines keep their order |
| DocgenInjector.BlockAfterHeader | src/docgen/injector/docstring_injector.py:49-55 | a node's block lands immediately after its header line `lineno`, and before the line that followed the header |
| DocgenInjector.BlockLayout | src/docgen/injector/docstring_injector.py:21-46 | delimiters first and last; every non-empty line indented `col_offset + 4`; a class block is delimiter, `<name> class.`, delimiter; a function block has one `<arg>: Description.` line per positional arg in order, and its only empty lines are the two separators |
| LegacyInjector.InjectDocstrings | injector/docstring_injector.py:4-29 | a syntax error is passed on; otherwise the output is the joined buffer with every one-line docstring applied; `style` is never read |
| LegacyInjector.InjectedGrowth | injector/docstring_injector.py:11-29 | exactly one line is added per handled node whose docstring is absent or empty |
| LegacyInjector.NothingMissing | injector/docstring_injector.py:11-29 | fully documented input gives `"\n".join(source.splitlines())` |
| LegacyInjector.InjectedKeepsLines | injector/docstring_injector.py:26-29 | original lines are kept unchanged and in order |
| LegacyInjector.LineBeforeBody | injector/docstring_injector.py:24-27 | the line lands directly before the node's first body statement, after the line before it |
| LegacyInjector.DocLineLayout | injector/docstring_injector.py:16-22 | the inserted line is `col_offset + 4` spaces, then `"""Class <name>."""` or `"""Function <name>."""` |
| LegacyInjector.OneLinerScenario | injector/docstring_injector.py:24-27 | for `def add(a, b): return a + b` the docstring line goes in front of the header |
| ScriptsInjectDocs.GenerateGoogleDocstring | scripts/inject_docs.py:13-24 | the appends build exactly the script's Google lines, joined with line breaks |
| ScriptsInjectDocs.GoogleDocShape | scripts/inject_docs.py:13-24 | `<name>.`, blank, `Args:`, one `    <p>: description` per parameter, blank, `Returns:`, `    description`; `6 + len(params)` lines |
| ScriptsInjectDocs.InjectDocstrings | scripts/inject_docs.py:27-48 | a syntax error is passed on; otherwise the output is the joined buffer with every folded block applied |
| ScriptsInjectDocs.InjectedGrowth | scripts/inject_docs.py:32-46 | the buffer grows by exactly one element per `FunctionDef`/`ClassDef` with no docstring |
| ScriptsInjectDocs.NothingMissing | scripts/inject_docs.py:27-48 | with nothing to inject the output is `"\n".join(source.splitlines())` |
| ScriptsInjectDocs.InjectedKeepsLines | scripts/inject_docs.py:45-48 | original elements keep their contents and their relative order |
| ScriptsInjectDocs.BlockBeforeBody | scripts/inject_docs.py:43-46 | a block lands directly before the node's first body statement |
| ScriptsInjectDocs.DocBlockLayout | scripts/inject_docs.py:34-41 | one element spanning `6 + len(params)` text lines: the first opens the docstring at `col_offset + 4` spaces, every later line starts with that indent, the last closes it; classes get no parameters |
| ScriptsInjectDocs.SelectionNarrower | scripts/inject_docs.py:9-10 | an empty docstring counts as present and an `async def` is not handled, unlike the packaged injector |
| Validation.NormalizeForStrictPep257 | reports/validation.py:6-40 | the loop with the `in_class` and `after_class_docstring` flags computes the normalised text |
| Validation.NormalizeLine | reports/validation.py:14-38 | one loop iteration is one step of the state machine |
| Validation.StepEffect | reports/validation.py:16-38 | a step drops a line exactly when it is blank, no class docstring is pending and the last output line is a header; otherwise it emits the line, preceded by an empty line only after a class docstring |
| Validation.KeepsNonBlankLines | reports/validation.py:13-38 | the non-blank lines of the output are exactly those of the input, unchanged and in order |
| Validation.LengthBound | reports/validation.py:10-38 | the output has at most as many lines as the input plus its class headers, so without class headers it never grows |
| Validation.MultiLineClassDocstring | reports/validation.py:14-38 | for a class header followed by a two-line docstring, the empty line is emitted between the docstring's opening line and its closing line |
| Validation.DocstringThenLine | reports/validation.py:16-38 | after a class header and a line opening its docstring, the next line, whatever it holds unless it is another class header, is preceded by exactly one empty line |
| Validation.ResultOf | reports/validation.py:85-89 | `status` is "Pass" iff there are no violations, `count == len(violations)` |
| Validation.ValidateDocstrings | reports/validation.py:43-89 | strict mode checks the normalised text with the checker's defaults; relaxed mode checks the text as given, ignoring D100, D201, D202, D203, D204, D211, D212, D401, D412 and D413; the result wraps the checker's messages |
| AstValidator.ValidateDocstrings | tests/test_validator.py:4-29 | a syntax error is passed on; otherwise the report of the violations collected over the walk; `mode` is never read |
| AstValidator.ViolationsIsFilterMap | tests/test_validator.py:18-23 | one `<NodeClass> '<name>' is missing a docstring.` per handled node with a falsy docstring, in walk order |
| AstValidator.ReportCount | tests/test_validator.py:18-27 | `count` is the number of handled nodes of the whole tree whose docstring is absent or empty |
| AstValidator.PassIff | tests/test_validator.py:18-26 | the status is "Pass" iff every function, coroutine and class of the tree has a non-empty docstring |
| AstValidator.ReportNamesEach | tests/test_validator.py:18-23 | every undocumented handled node is reported, and every message names one |
| AstValidator.AgreesWithInjectors | tests/test_validator.py:18-20 | the validator reports exactly as many nodes as either of the first two injectors fills in |
| Text.SplitLines | src/docgen/injector/docstring_injector.py:10 | `splitlines` gives newline-free lines which, joined, give the text back without a final line break |

## Left out

- `ast.parse`, `ast.walk` and `ast.get_docstring` are not modelled as parsers. The tree is an input, and so are its positions and docstring values.
- The positions that `ast.parse` assigns are not derived from the text. The injectors' output is stated under the hypothesis `Anchored` that every insertion index names a line of the source; that holds for any tree parsed from that source.
- The Python grammar's ties between tree and text are left out: a re-parse of the output, and so the idempotence of injection, is not modelled.
- Decorators, argument defaults and other subtrees that contain no definition are left out of the tree. Removing them does not change the order in which the walk visits definitions.
- `str.splitlines` is modelled for `\n` line breaks only; `\r\n`, `\r` and the other Unicode breaks are not.
- `str.lower` is modelled for ASCII letters only.
- `round(coverage, 2)` is not modelled: coverage is the exact real `documented / total * 100`.
- The pydocstyle `check` call is a function parameter, and so are its messages. The temporary file and `os.remove` are file I/O and are not modelled.
- The `main` functions of src/docgen/check_docs.py, scripts/check_docs.py and scripts/inject_docs.py are left out: directory traversal, file reads and writes, `print` and `sys.exit`.
- The import-time `print` at analyzer/parser.py:36 is output only.
- The Streamlit front ends, the TOML configuration loader and the driver scripts are not part of this model.
- DocgenInjector.InsertBlock: states the result only for an index within the buffer. A parsed tree never yields any other index.
- DocgenInjector.ApplyInserts: states the result only when every index is within the buffer. A parsed tree never yields any other index.
- DocgenInjector.InjectDocstrings: states the output only under `Anchored`. Without it, only success on a parsed module is stated.
- LegacyInjector.InjectDocstrings: states the output only under `Anchored`.
- ScriptsInjectDocs.InjectDocstrings: states the output only under `Anchored`.
- Injection.InsertEach: states the result only when every index is within the buffer.
- Python integers are unbounded, like Dafny's, so no counter width is modelled.
