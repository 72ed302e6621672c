# Docstring pipeline model

A Dafny model of the core of the Automated Python Docstring Generator. The
generator reads Python source and, for each function and class in it:

- records its signature (`CodeParser`, `parse_file`);
- writes a template docstring in Google, NumPy or reST style, plus a legacy
  template;
- checks an existing docstring against PEP 257 conventions
  (`analyze_docstring`);
- reports docstring coverage (`coverage_report`);
- cleans the text a language model returns (`clean_docstring`,
  `generate_docstring_llm`);
- injects generated docstrings back into the syntax tree
  (`DocstringInjector`, `inject_docstrings`);
- turns pydocstyle's report lines into categorised issues with suggested fixes
  (`categorize`, `suggest_fix`, `run_full_pep257`).

The modules follow the source files:

| module | models |
|---|---|
| `Syntax` | the part of Python's `ast` the pipeline looks at: statements, `ast.walk`, `ast.get_docstring` |
| `Records` | the dictionaries the parser builds |
| `Parser` | `src/parser.py` |
| `Templates` | `src/autodocstring/generator.py` |
| `LegacyTemplate` | `src/generator.py` |
| `Compliance` | `src/autodocstring/compliance.py` |
| `Coverage` | `src/coverage.py` |
| `LlmOutput` | `clean_docstring`, the post-processing of `generate_docstring_llm`, and `build_prompt`'s style normalisation |
| `Injector` | `src/autodocstring/injector.py` |
| `Pep257` | `src/autodocstring/pep257_fixer.py` |

`Strings` holds the Python `str` methods the source relies on (`strip`,
`lower`, `split("\n")`, `splitlines`, `join`), and `Wrappers` holds
`Option` and `Result`.

Every operation is a pure function. Each has a partner lemma or an independent
reference definition:

- Each generator is proved equal to a line-level layout of its docstring.
- The parser's result lists are characterised by which statements the
  traversal reaches, and the class-body scan by how it distributes over
  concatenated bodies, one statement at a time.
- The compliance report is tied to the section, summary and style checks,
  each warning present exactly when its check fires.
- The coverage report's figures are the documented counts of each category
  and their exact percentages.
- The injector is shown to change nothing but `def` docstrings.
- Cleaning model output is shown to see through quotes and code fences, and to
  always yield a quoted docstring.
- Parsing a pydocstyle line round-trips its parts.

## Model

| member | source | states |
|---|---|---|
| `Parser.Dedup` | src/parser.py:77 | `list(set(raises))` holds each raised text once, exactly the texts of the input |
| `Parser.ExtractedRecord` | src/parser.py:43-79 | a function record holds the definition's name, owner, line and return annotation; one parameter per argument; the signature `name(p1, p2)`; the docstring, with `has_docstring` true exactly when there is one; each raised exception once, exactly those raised anywhere in the definition; and the generator flag exactly when a `yield` occurs anywhere in it |
| `Syntax.WalkStmtRaises` | src/parser.py:62-64 | the raise texts `ast.walk` meets under a statement are exactly those of the `raise` statements nested in it, with `Exception` for a bare `raise` |
| `Syntax.WalkStmtYields` | src/parser.py:65-66 | `ast.walk` meets a `yield` or `yield from` under a statement exactly when one occurs anywhere in it |
| `Parser.NameTargets` | src/parser.py:32-34 | an assignment contributes exactly its plain-name targets as attributes |
| `Parser.NameTargetsAppend` | src/parser.py:32-34 | the targets are taken one by one in order: the names of concatenated target lists are the names of the first list followed by those of the second |
| `Parser.NameTargetsOne` | src/parser.py:33-34 | a single target contributes its name exactly when it is a plain name, and nothing otherwise |
| `Parser.DirectDefs` | src/parser.py:36-37 | the methods come from exactly the `def` statements directly in the class body |
| `Parser.DirectDefsAppend` | src/parser.py:30-37 | the direct definitions of concatenated bodies are those of the first body followed by those of the second, so body order and repeats are kept |
| `Parser.DirectDefsOne` | src/parser.py:36-37 | a `def` statement is exactly one direct definition, and any other statement is none |
| `Parser.ScanClassBody` | src/parser.py:30-37 | the class-body scan collects exactly the names assigned directly in the body, and the method records are those of the direct definitions |
| `Parser.ScanBodyMethods` | src/parser.py:36-37 | the scan makes one record per direct definition, the k-th record from the k-th definition |
| `Parser.ScanClassBodyAppend` | src/parser.py:30-37 | scanning concatenated bodies appends the second body's attributes and method records to the first body's, so both lists follow body order with one entry per occurrence |
| `Parser.ScanClassBodyOne` | src/parser.py:30-37 | one assignment contributes its plain-name targets in order, one `def` contributes one method record owned by the class, and any other statement contributes nothing |
| `Parser.MethodRecords` | src/parser.py:37 | one record per definition, in order, each extracted with the class as its owner |
| `Parser.ClassRecorded` | src/parser.py:17-39 | a class record holds the class name, its docstring and `has_docstring`, exactly the names assigned directly in its body, and the k-th method record is extracted from the k-th direct definition and owned by the class |
| `Parser.VisitStmt` | src/parser.py:11-40 | visiting a statement only appends to the two lists and leaves `current_class` unset |
| `Parser.VisitBody` | src/parser.py:14 | visiting a body only appends to the two lists and leaves `current_class` unset |
| `Parser.Traverse` | src/parser.py:86-89 | an empty module has no functions and no classes |
| `Parser.ParseFile` | src/parser.py:82-89 | a syntax error propagates and no result exists; otherwise the result is the traversal's, and an empty file gives two empty lists |
| `Parser.FunctionsAreReachedDefs` | src/parser.py:11-14 | `functions` holds exactly the records, with no owner, of the `def`s the traversal reaches without entering a class body, including `def`s nested in functions |
| `Parser.ClassesAreReachedClasses` | src/parser.py:17-40 | `classes` holds exactly the records of the classes the traversal reaches without entering a class body |
| `Parser.RecordsConsistent` | src/parser.py:20-79 | in every record `has_docstring` is true exactly when a docstring is stored; functions have no owner; each method is owned by its class |
| `Parser.VisitBodyFrame` | src/parser.py:11-40 | the traversal appends to what the visitor already holds: a statement's contribution does not depend on what came before it |
| `Parser.NestedDefsFollowTheirParent` | src/parser.py:11-14 | functions are recorded in pre-order: a module-level `def`, then the `def`s inside it, then the following statements' |
| `Parser.ClassBodiesAreNotEntered` | src/parser.py:28-40 | a class adds exactly one class record and no function record, whatever its body holds |
| `Templates.Summary` | src/autodocstring/generator.py:1-7 | the summary line is non-empty and ends with a period |
| `Templates.SummaryForms` | src/autodocstring/generator.py:2-7 | the summary names `Object` when the item has no name, `C.n` under a truthy class name, and `n` otherwise |
| `Templates.Applicable` | src/autodocstring/generator.py:13-27 | the sections written are exactly those that apply (parameters exist, truthy return annotation, something raised, generator), each once, in the fixed order |
| `Templates.Render` | src/autodocstring/generator.py:11-29 | the stripped result starts with the summary, is the summary alone when no section applies, and has no whitespace at either end |
| `Templates.GenerateGoogle` | src/autodocstring/generator.py:10-29 | the Google docstring starts with the summary, is just the summary when no section applies, and is stripped |
| `Templates.GoogleLayout` | src/autodocstring/generator.py:10-29 | `generate_google` writes exactly the summary, a blank line and the `Args:`/`Returns:`/`Raises:`/`Yields:` blocks of the applicable sections, one line per parameter and per exception, stripped |
| `Templates.GenerateNumpy` | src/autodocstring/generator.py:32-51 | the NumPy docstring starts with the summary, is just the summary when no section applies, and is stripped |
| `Templates.NumpyLayout` | src/autodocstring/generator.py:32-51 | `generate_numpy` writes exactly the summary and the underlined NumPy blocks of the applicable sections, two lines per parameter and per exception |
| `Templates.GenerateRest` | src/autodocstring/generator.py:54-70 | the reST docstring starts with the summary, is just the summary when no section applies, and is stripped |
| `Templates.RestLayout` | src/autodocstring/generator.py:54-70 | `generate_rest` writes exactly the summary and the `:param:`/`:type:`, `:return:`, `:raises:` and `:yields:` fields of the applicable sections |
| `Templates.GenerateDocstring` | src/autodocstring/generator.py:73-78 | the docstring is the layout of the selected style: `NumPy` and `reST` by exact name, Google for every other name |
| `LegacyTemplate.LegacyDocstring` | src/generator.py:1-16 | the legacy docstring opens with triple quotes and a line break and closes with a line break and triple quotes |
| `LegacyTemplate.LegacyLayout` | src/generator.py:1-16 | the legacy docstring is exactly its lines joined by breaks: quotes, title, blank, `Parameters:`, one entry per parameter or `None`, blank, `Returns:`, the return entry or `None`, quotes |
| `LegacyTemplate.LegacyLineCount` | src/generator.py:4-14 | with no break inside the names and types, the docstring splits back into exactly those lines: eight, plus one per parameter or plus the `None` entry |
| `Compliance.Select` | src/autodocstring/compliance.py:8-21 | the section checks report exactly the sections whose check fires |
| `Compliance.SelectKeepsOrder` | src/autodocstring/compliance.py:8-21 | the reported sections keep the checks' order |
| `Compliance.MissingSections` | src/autodocstring/compliance.py:7-21 | `missing_sections` holds a section exactly when its check fires on the lower-cased docstring, each once, in the order Parameters, Returns, Raises, Yields, Attributes |
| `Compliance.FunctionsNeverLackAttributes` | src/autodocstring/compliance.py:20-21 | a function record has no `attributes` key, so `Attributes` is never missing for it |
| `Compliance.SummaryLineEmpty` | src/autodocstring/compliance.py:24-26 | the summary line is empty exactly when the whole docstring is whitespace |
| `Compliance.SummaryFormatting` | src/autodocstring/compliance.py:23-37 | a missing or empty docstring gives `Missing summary line`, a whitespace-only one gives `Empty summary line`, any other gives no formatting issue |
| `Compliance.SummaryWarnings` | src/autodocstring/compliance.py:23-35 | the summary check gives at most one warning, always a summary warning |
| `Compliance.SummaryWarningCases` | src/autodocstring/compliance.py:26-35 | the period warning fires exactly for a non-blank docstring whose summary lacks the period; the length warning exactly for a summary with the period and over 72 characters; the mood warning exactly for such a summary of at most 72 characters opening with a descriptive verb |
| `Compliance.StyleWarnings` | src/autodocstring/compliance.py:39-47 | the style check gives at most one warning, never a summary warning |
| `Compliance.StyleWarningCases` | src/autodocstring/compliance.py:39-47 | each style's warning fires exactly for that style, a non-empty docstring, and its marker (`args:`, `parameters`, `:param`) absent |
| `Compliance.Analyze` | src/autodocstring/compliance.py:1-53 | the missing sections are exactly the sections whose check fires, in reporting order; the report holds the summary check's formatting issue, and the summary warnings followed by the style warnings; it is compliant exactly when no section is missing and there is no formatting issue, which is exactly when the docstring is not blank and every section check passes; at most two warnings, the summary warning before the style warning |
| `Compliance.AnalyzeFormatting` | src/autodocstring/compliance.py:23-37 | the report has a missing summary exactly when there is no docstring, an empty summary exactly when the docstring is blank, and no formatting issue otherwise |
| `Compliance.AnalyzeWarnings` | src/autodocstring/compliance.py:26-47 | each of the three summary warnings and the three style warnings is in the report exactly when its check fires |
| `Coverage.DocumentedCount` | src/coverage.py:6 | the documented count is at most the total, equals it exactly when every record is documented, and is zero exactly when none is |
| `Coverage.DocumentedClassCount` | src/coverage.py:16 | the documented class count is at most the total and equals it exactly when every class is documented |
| `Coverage.MethodCountFlat` | src/coverage.py:8 | counting methods class by class counts the flattened method list |
| `Coverage.DocumentedMethodCount` | src/coverage.py:9-13 | the nested sum over classes and methods counts the documented methods of the flattened list |
| `Coverage.Percent` | src/coverage.py:27 | a percentage is 0 for a zero total, otherwise `d / t * 100` exactly, within 0 to 100, and exactly 100 when every item is documented |
| `Coverage.CoverageReport` | src/coverage.py:1-43 | missing keys read as empty; each documented figure is the documented count of its category; the totals and documented counts add up; the missing count is what is left; each coverage is its documented count as a percentage of its total, and 0 when that total is 0; each coverage is 100 exactly when its category is non-empty and fully documented |
| `Coverage.EmptyReport` | src/coverage.py:1-43 | a dictionary with neither key, or an empty module, gives zero for every count and every percentage |
| `LlmOutput.NormalizeStyle` | src/autodocstring/llm_generator.py:13-15 | the style becomes `reST` exactly when it lower-cases to `rst` or `restructuredtext`, and is lower-cased otherwise |
| `LlmOutput.NormalizeStyleNotIdempotent` | src/autodocstring/llm_generator.py:13-15 | normalising twice differs from normalising once: `rst` becomes `reST`, which becomes `rest` |
| `LlmOutput.TagLength` | src/autodocstring/llm_generator.py:69 | the optional fence tag is `python` when present, else `py`, case-insensitively |
| `LlmOutput.OpenFence` | src/autodocstring/llm_generator.py:69 | text that does not open with a fence is unchanged; from text that does, at least the three backticks go, and what is left does not open with whitespace |
| `LlmOutput.OpenFenceRemoves` | src/autodocstring/llm_generator.py:69 | from fenced text exactly a prefix is removed: the three backticks, the `python`/`py` tag if present, and then whitespace only |
| `LlmOutput.CloseFence` | src/autodocstring/llm_generator.py:70 | the result is a prefix of the text; text that does not close with a fence is unchanged; from text that does, at least the three backticks go, and what is left does not close with whitespace |
| `LlmOutput.CloseFenceRemoves` | src/autodocstring/llm_generator.py:70 | from text closing with a fence exactly a suffix is removed: whitespace only, then the three closing backticks |
| `LlmOutput.DropLeadingQuotes` | src/autodocstring/llm_generator.py:71 | the removed prefix is a run of triple quotes, and what is left does not open with another |
| `LlmOutput.DropTrailingQuotes` | src/autodocstring/llm_generator.py:72 | the removed suffix is a run of triple quotes, and what is left does not close with another |
| `LlmOutput.PayloadUnquoted` | src/autodocstring/llm_generator.py:66-72 | after the regex stages the text neither opens nor closes with triple quotes |
| `LlmOutput.PayloadUnquotes` | src/autodocstring/llm_generator.py:66-72 | triple quotes wrapped around an answer are removed and the answer is kept |
| `LlmOutput.PayloadUnfences` | src/autodocstring/llm_generator.py:66-72 | a `python` code fence wrapped around an answer is removed and the answer is kept |
| `LlmOutput.LeadingBlank` | src/autodocstring/llm_generator.py:78-79 | the first loop drops exactly the blank lines that open the list |
| `LlmOutput.TrailingBlank` | src/autodocstring/llm_generator.py:80-81 | the second loop drops exactly the blank lines that close the list |
| `LlmOutput.TrimBlank` | src/autodocstring/llm_generator.py:77-81 | the kept lines are the input's lines between the blank runs, in order; nothing is kept exactly when every line is blank; otherwise the first and last kept lines are not blank |
| `LlmOutput.TrimmedEmpty` | src/autodocstring/llm_generator.py:75-83 | no line is kept exactly when the text is whitespace |
| `LlmOutput.KeptShape` | src/autodocstring/llm_generator.py:66-83 | the fallback is taken exactly when the cleaned payload is blank; the kept lines hold no breaks and neither end is blank |
| `LlmOutput.FormatLineText` | src/autodocstring/llm_generator.py:92-101 | formatting a body line keeps its stripped text |
| `LlmOutput.FormatLineIndent` | src/autodocstring/llm_generator.py:96-99 | a section header (`Args:`, `Parameters:`, `Returns:`, `Raises:`, `Yields:`) keeps its indentation; any other line starts with four spaces |
| `LlmOutput.FormatBlank` | src/autodocstring/llm_generator.py:100-101 | a blank body line becomes four spaces |
| `LlmOutput.FormatHeader` | src/autodocstring/llm_generator.py:96-97 | a header line is right-stripped and otherwise kept |
| `LlmOutput.FormatText` | src/autodocstring/llm_generator.py:98-99 | any other line is re-indented by exactly four spaces |
| `LlmOutput.RenderQuoted` | src/autodocstring/llm_generator.py:103-106 | the rendered docstring opens and closes with a line of triple quotes |
| `LlmOutput.CleanDocstringQuoted` | src/autodocstring/llm_generator.py:62-106 | whatever the reply, `clean_docstring` returns text opening and closing with a line of triple quotes |
| `LlmOutput.RenderLines` | src/autodocstring/llm_generator.py:86-106 | the rendering splits into a quote line, the stripped summary, a blank line, one formatted line per remaining kept line, and a quote line |
| `LlmOutput.LinesKeepText` | src/autodocstring/llm_generator.py:92-101 | each body line of the rendering carries the stripped text of its kept line |
| `LlmOutput.CleanDocstringLines` | src/autodocstring/llm_generator.py:62-106 | a blank payload gives the `No description available.` fallback; any other gives the rendering of its kept lines |
| `LlmOutput.CleanStripped` | src/autodocstring/llm_generator.py:66 | cleaning already-stripped text is the same as cleaning the text |
| `LlmOutput.CleanUnwraps` | src/autodocstring/llm_generator.py:66-72 | cleaning an answer wrapped in triple quotes, or in a `python` fence, gives the same as cleaning the bare answer |
| `LlmOutput.GenerateFromReply` | src/autodocstring/llm_generator.py:134-156 | a reply succeeds exactly when a response came back; a connection failure and any other failure become the two `RuntimeError` messages |
| `LlmOutput.GenerateIsClean` | src/autodocstring/llm_generator.py:138-151 | a blank reply gives the `Generated docstring.` placeholder, any other gives exactly its cleaned docstring, so the final safety checks never change it; either way the result is quoted |
| `LlmOutput.QuotedEnds` | src/autodocstring/llm_generator.py:146-149 | a quoted docstring passes both safety checks |
| `Injector.CleanBodyStripped` | src/autodocstring/injector.py:19-25 | the docstring text taken from the generated docstring is stripped |
| `Injector.CleanBodyUnwraps` | src/autodocstring/injector.py:19-25 | text wrapped once in triple double quotes comes back stripped and unwrapped |
| `Injector.CleanBodyKeeps` | src/autodocstring/injector.py:19-25 | stripped text wrapped in neither kind of triple quotes is kept as it is |
| `Injector.CleanBodyOfPlaceholder` | src/autodocstring/injector.py:16-25 | for a blank reply the docstring text is `Generated docstring.` |
| `Injector.CleanBodyOfFallback` | src/autodocstring/injector.py:16-25 | for a reply with no text left after cleaning the docstring text is `No description available.` |
| `Injector.PlaceDocstring` | src/autodocstring/injector.py:33-43 | the new body has exactly the new docstring, replacing a string-constant first statement or in front of anything else, with the rest of the body unchanged |
| `Injector.Document` | src/autodocstring/injector.py:11-48 | a definition keeps its name, arguments and header; on success it gets the cleaned text as its docstring; on failure it is left as it is; the rest of its body is unchanged |
| `Injector.InjectStmts` | src/autodocstring/injector.py:12 | the transformer keeps the number of statements in a body |
| `Injector.InjectDocstrings` | src/autodocstring/injector.py:51-61 | a syntax error fails with `Invalid Python code:` and the parser's message; any other module is transformed, keeping its number of statements |
| `Injector.InjectKeepsDocstringSlot` | src/autodocstring/injector.py:33-43 | the transformation keeps whether a body opens with a docstring, and commutes with removing it |
| `Injector.InjectOnlyDocuments` | src/autodocstring/injector.py:11-48 | apart from `def` docstrings, the transformation changes nothing in a statement, at any depth |
| `Injector.InjectOnlyDocumentsAll` | src/autodocstring/injector.py:51-61 | apart from `def` docstrings, the transformation changes nothing in a module |
| `Injector.InjectDocuments` | src/autodocstring/injector.py:11-43 | when the model always answers, every `def` at any depth ends up with a docstring |
| `Injector.InjectDocumentsAll` | src/autodocstring/injector.py:51-61 | when the model always answers, every `def` of the module ends up with a docstring |
| `Injector.InjectUnchanged` | src/autodocstring/injector.py:45-48 | when the model always fails, a statement comes back unchanged |
| `Injector.InjectUnchangedAll` | src/autodocstring/injector.py:45-61 | when the model always fails, the module comes back unchanged |
| `Pep257.Categorize` | src/autodocstring/pep257_fixer.py:12-16 | the category is `Other` exactly when no prefix of the table opens the code, and otherwise that prefix's category |
| `Pep257.PrefixesExclusive` | src/autodocstring/pep257_fixer.py:4-9 | no code opens with two prefixes of the table, so the order they are tried in does not matter |
| `Pep257.CategorizeSamples` | src/autodocstring/pep257_fixer.py:4-16 | `D205` is a whitespace issue, `D212` and `D412` are `Other`, `D300` is a quotes issue |
| `Pep257.SuggestFix` | src/autodocstring/pep257_fixer.py:46-60 | a specific fix exactly for the nine codes of the table, and `Manual fix required` for every other code |
| `Pep257.FixedCodes` | src/autodocstring/pep257_fixer.py:48-58 | the table's codes are `D100`-`D103`, `D205`, `D400`, `D401`, `D403`, `D404`, and none of their fixes is the manual-fix text |
| `Pep257.FixesAreCategorized` | src/autodocstring/pep257_fixer.py:4-60 | every code with a specific fix falls in a named category, never the quotes one |
| `Pep257.DigitsEnd` | src/autodocstring/pep257_fixer.py:26 | `\d+` is greedy: the digit run ends at the first non-digit |
| `Pep257.SpacesEnd` | src/autodocstring/pep257_fixer.py:26 | `\s+` is greedy: the whitespace run ends at the first non-space |
| `Pep257.MatchTail` | src/autodocstring/pep257_fixer.py:26 | a match after the colon splits the rest into line number, gap, code, gap and message, which glue back to it |
| `Pep257.MatchTailComplete` | src/autodocstring/pep257_fixer.py:26 | every well-formed rest is matched, and split into exactly its parts |
| `Pep257.FirstMatch` | src/autodocstring/pep257_fixer.py:26 | the lazy file group ends at the first colon after which the rest matches |
| `Pep257.ParseLine` | src/autodocstring/pep257_fixer.py:26-40 | a line gives an issue exactly when some colon is followed by a match; the file is the prefix before the first such colon; line number, code and message come from the match after it; category and fix are those of the code |
| `Pep257.ParseLineShortest` | src/autodocstring/pep257_fixer.py:26 | the lazy file group: no colon inside the issue's file name is followed by a matching rest of the line |
| `Pep257.ParseLineRoundTrip` | src/autodocstring/pep257_fixer.py:26-40 | a report line for a file name without a colon parses back into its file, line number, code and message |
| `Pep257.ColonInFileName` | src/autodocstring/pep257_fixer.py:26-34 | a colon inside a file name does not cut it short: `C:\x.py:12 D100 Missing docstring` gives file `C:\x.py`, line 12 |
| `Pep257.CollectAppend` | src/autodocstring/pep257_fixer.py:24-40 | each line contributes its own issue, in place: collecting distributes over concatenation |
| `Pep257.CollectSound` | src/autodocstring/pep257_fixer.py:24-40 | every issue comes from some line that parses to it |
| `Pep257.ParseReport` | src/autodocstring/pep257_fixer.py:19-42 | at most one issue per output line |

## Left out

- The HTTP request to the Ollama server is not modelled. Its outcome is a
  parameter (`Reply`: a response field, a request failure, or another
  failure). The injector takes a reply function that gives, for each
  definition, the outcome of the request made for it.
- The prompt text `build_prompt` returns is not modelled. Only its style
  normalisation is.
- `ast.parse`, `ast.unparse` and `ast.fix_missing_locations` are not modelled.
  - Parsing is an outcome parameter (a tree or a syntax error).
  - Annotations and raised expressions are held as the text `ast.unparse`
    would print.
  - The injected tree is not printed back to source.
- The `print` of a failed injection is not modelled; it is output only.
- `ast.get_docstring` cleans its text with `inspect.cleandoc`, which removes
  indentation. That step is not modelled: the docstring is the constant's text
  as written.
- Python's `set` order in `list(set(raises))` is not specified. `Parser.Dedup`
  keeps first occurrences, and no contract depends on the order.
- Character classes are ASCII only: whitespace for `strip()`/`\s` is the
  ASCII whitespace Python accepts (space, `\t`, `\n`, `\r`, `\x0b`, `\x0c`
  and `\x1c`-`\x1f`), and Unicode spaces are left out; digits
  for `\d`, and case for `lower()`. `splitlines()` splits on `\n` only.
- Percentages are exact real numbers, not floating point.
- `Coverage.Percent`: does not model float rounding, because the percentages
  are exact reals.
- The pydocstyle subprocess is not modelled. Its standard output is the
  parameter of `Pep257.ParseReport`.
- The web app, the command-line front ends, configuration, `quality.py` and
  `pydoc_report.py` are not part of this model.

## Behaviour of the code

- The reST style check looks for `:param` in the docstring
  (compliance.py:46).
- A blank model reply is not an error. `generate_docstring_llm` returns the
  placeholder `Generated docstring.` (llm_generator.py:140-141), and
  `clean_docstring` falls back to `No description available.`
  (llm_generator.py:83-84). The injector inserts these like any other answer.
- `visit_ClassDef` never visits the class body, so `current_class` is unset at
  every `visit_FunctionDef` (parser.py:11-14, 17-40). Every `def` the traversal
  reaches is recorded as a function, including a `def` nested in a function, in
  a compound statement, or in an `async def`. Methods are only the direct `def`
  children of a class, and a `def` inside a method is recorded nowhere
  (`Parser.FunctionsAreReachedDefs`, `Parser.ClassBodiesAreNotEntered`).
- Raises and the generator flag are collected from the whole definition,
  nested definitions included (parser.py:62-66, `Parser.ExtractedRecord`).
- Style normalisation is not idempotent: `rst` becomes `reST`, which lower-cases
  to `rest` on a second pass (llm_generator.py:13-15,
  `LlmOutput.NormalizeStyleNotIdempotent`).
