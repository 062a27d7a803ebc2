# A verified model of the code-agent pull-request reviewer

code-agent reviews GitHub pull requests with a language model. Given a
reference to a pull request, it does the following:

1. It fetches the changed files and keeps those that carry a patch, up to a cap.
2. It reviews each file in a tool-calling loop: the model may read the
   repository through a handful of tools before it answers with a JSON verdict.
3. It gathers the per-file comments and a model-written overall summary.
4. It keeps only the comments GitHub will accept, those on a line the patch
   touches.
5. It submits the review and announces it in Slack.

This project models the deterministic core of that pipeline in Dafny and
proves what it promises:

- `PatchParser` (`patch_parser.py`) is the diff-line validator. The
  method `ParsePatchLineNumbers` scans a unified diff line by line with a
  new-file line counter. It is proved equal to a declarative definition,
  `PatchLineSet`, built from the counter before each line. The header pattern
  `@@ -a[,b] +c[,d] @@` is parsed by hand. It is proved to accept every
  well-formed header and to give back its fields.
  `FilterCommentsByValidLines` splits comments into valid and invalid ones. It
  is proved to be an order-preserving, total partition.
- `PrParser` (`pr_parser.py`) reads a pull-request reference out of chat text.
  - Each of the four regular expressions is a deterministic matcher at a
    position.
  - `re.search` is the leftmost position at which that matcher succeeds
    (`SearchFrom`).
  - The four forms are tried in priority order.
  - Each matcher is proved to accept exactly the texts its pattern describes:
    what it matches has the pattern's shape (its contract), and every text of
    that shape is matched with its own groups (the `…Text` lemmas). The number
    is read back as its decimal value.
  - The default owner and repository, read from the settings in the source,
    are parameters.
  - `ExtractReviewIntent` is the keyword test.
- `Graph` (`graph.py`) is the review of one file and the aggregation of all of
  them.
  - The model's answers are a sequence `replies` (its answer on each
    invocation), the tools a map from name to behaviour, and `json.loads` an
    oracle `decode`.
  - `ToolLoop` is the bounded loop. It is proved to invoke the model
    `CallsMade(replies)` times: up to the first answer without tool calls, and
    never more than 5. The conversation it builds is `Transcript`, in which
    every tool call is answered by one tool message with its id.
  - `ParseFinalResponse` reads the span from the first `{` to the last `}`.
  - `CollectResults` skips failed files and concatenates the rest, in order.
- `Tools` (`tools.py`) is the text each repository tool hands back to the
  model. Every GitHub call is an input (`Fetch`): the value it returned, or
  the message of the exception it raised. Every tool is proved to turn a
  failure into text.
- `Service` (`service.py`) is `review_pull_request`.
  - The fetched pull request and files, the per-file review and the
    summarising model are inputs.
  - The GitHub submission and the Slack notification are returned as the
    sequence of calls the orchestrator makes, in order.
- `Text`, `Entities` and `Wrappers` hold the Python string operations the
  others use (`split`, `join`, `strip`, `lower`, `find`, `rfind`, slicing,
  `int`, `str`), the shared records and `Option`.

In these details the model follows the code:

- A per-file comment carries `path` (the file's name) besides `line` and
  `message`.
- A comment's `line` may be missing or not an int (`Option<int>`). Such a
  comment is always invalid.
- A final answer without a `{`…`}` span gets the summary `Reviewed`, not the
  parse-error summary.
- Only a `json.JSONDecodeError` is recovered locally. JSON of an unexpected
  shape makes `.get` or the iteration raise. The whole file's review then
  fails and aggregation skips it (`Decoded.ShapeError` becomes
  `FileOutcome.Failed`).

## Model

| member | source | states |
|---|---|---|
| `PatchParser.PatchLineSet` | src/services/reviewer/patch_parser.py:6-51 | the declarative line set: the counter before each `+`/`-` line inside a hunk; `ParsePatchLineNumbers` is proved to compute it, and `PatchLinesPositive`, `NoHeaderNoLines` and `CollectedLinesInsideHunks` state its properties |
| `PatchParser.ParsePatchLineNumbers` | src/services/reviewer/patch_parser.py:6-51 | the loop's set is `PatchLineSet(patch)`: the counter values of the `+`/`-` lines read while the counter is non-zero; the empty patch gives the empty set |
| `PatchParser.ScanStep` | src/services/reviewer/patch_parser.py:26-49 | reading one line moves the counter as the source does (a header sets it, `+` and context lines increment it inside a hunk, `-` and `\` lines leave it) and adds the counter exactly for `+`/`-` lines inside a hunk |
| `PatchParser.ParseHunkHeader` | src/services/reviewer/patch_parser.py:28 | a recognised header has digit runs for its starts and optional counts, and its text `@@ -a[,b] +c[,d] @@` is a prefix of the line |
| `PatchParser.TakeCount` | src/services/reviewer/patch_parser.py:28 | the optional `,digits` group takes a comma with a non-empty digit run, or nothing, and the input is what it took followed by the rest |
| `PatchParser.ParseHeaderText` | src/services/reviewer/patch_parser.py:28-30 | every well-formed header, whatever follows it on the line, is recognised and gives back exactly its fields (round trip with `HeaderText`) |
| `PatchParser.ClassifyHeader` | src/services/reviewer/patch_parser.py:28-31 | a header line sets the counter to the decimal value of its new start |
| `PatchParser.NotAHeader` | src/services/reviewer/patch_parser.py:28 | a line not starting with `@` is never a header |
| `PatchParser.CounterWithinHunk` | src/services/reviewer/patch_parser.py:24-49 | before any header, and after a header with new start 0, the counter is 0; inside a hunk it is never below the hunk's new start |
| `PatchParser.CollectedLinesInsideHunks` | src/services/reviewer/patch_parser.py:30-49 | a collected line follows a header whose new start is at least 1 and at most the collected number |
| `PatchParser.PatchLinesPositive` | src/services/reviewer/patch_parser.py:30-49 | every allowed line number is at least 1 |
| `PatchParser.NoHeaderNoLines` | src/services/reviewer/patch_parser.py:33-35 | a patch without a hunk header allows no line |
| `PatchParser.NoHeaderBefore` | src/services/reviewer/patch_parser.py:24 | without a header among the lines, no prefix of them has a last hunk |
| `PatchParser.ExampleSplit` | src/services/reviewer/patch_parser.py:26 | the example patch splits into its five lines, the last one empty |
| `PatchParser.ExampleHeader` | src/services/reviewer/patch_parser.py:28-30 | `@@ -1,2 +1,3 @@` is a header with new start 1 |
| `PatchParser.ExampleBodyLines` | src/services/reviewer/patch_parser.py:37-49 | the example's body lines are context, added, context, context |
| `PatchParser.CountersOfOneAddition` | src/services/reviewer/patch_parser.py:37-49 | after a header at 1, a context line and an added line, only the added line is collected, at number 2 |
| `PatchParser.ExampleCounters` | src/services/reviewer/patch_parser.py:37-49 | in the example only line index 2 is collected, with counter 2 |
| `PatchParser.ExampleOneAddedLine` | src/services/reviewer/patch_parser.py:18-51 | the example patch `@@ -1,2 +1,3 @@`, context, `+added line`, context allows exactly {2} |
| `PatchParser.IsValidComment` | src/services/reviewer/patch_parser.py:79-85 | a comment is valid when its line is an int and its path has a patch whose line set holds that line; `CommentsWhereMembers` and `ExampleClassification` carry it |
| `PatchParser.CommentsWhere` | src/services/reviewer/patch_parser.py:75-85 | the comments of one validity, in input order; `FilterCommentsByValidLines` is proved to compute both, and `PartitionIsTotal`, `PartitionKeepsComments`, `CommentsWhereMembers` and `CommentsWhereAppend` state its properties |
| `PatchParser.ValidLinesByFile` | src/services/reviewer/patch_parser.py:68-70 | one entry per file in the patch map, each the line set of that file's patch |
| `PatchParser.FilterCommentsByValidLines` | src/services/reviewer/patch_parser.py:54-87 | the valid and invalid lists are the comments whose line is (or is not) an int in the line set of their path's patch, in input order |
| `PatchParser.PartitionIsTotal` | src/services/reviewer/patch_parser.py:72-87 | the two lists' lengths add up to the input's, and together they hold every input comment with its multiplicity |
| `PatchParser.PartitionKeepsComments` | src/services/reviewer/patch_parser.py:75-85 | the multiset of the two lists is the multiset of the input |
| `PatchParser.CommentsWhereSnoc` | src/services/reviewer/patch_parser.py:82-85 | one more comment lands at the end of exactly the list its validity selects |
| `PatchParser.CommentsWhereMembers` | src/services/reviewer/patch_parser.py:79-85 | a comment is in the valid list iff it is an input comment that is valid, and in the invalid list iff it is one that is not |
| `PatchParser.CommentsWhereAppend` | src/services/reviewer/patch_parser.py:75-85 | the partition of concatenated inputs is the concatenation of the partitions: order is kept |
| `PatchParser.ExampleClassification` | src/services/reviewer/patch_parser.py:79-85 | against the example patch for `a.py`, a comment on `a.py` line 2 is valid; line 99, or the same line on a file without a patch, is invalid |
| `PrParser.SearchFrom` | src/core/pr_parser.py:30 | the search returns the first position from `p` on at which the matcher succeeds, with its groups, or none when it succeeds nowhere |
| `PrParser.SearchFindsFirst` | src/core/pr_parser.py:30 | when the matcher first succeeds at `p`, the search finds `p` |
| `PrParser.HostOf` | src/core/pr_parser.py:29 | a host found is `https://github.com/` or `http://github.com/` and starts the text |
| `PrParser.HostOfText` | src/core/pr_parser.py:29 | either host is recognised at the start of any text |
| `PrParser.MatchUrl` | src/core/pr_parser.py:29 | a URL match has non-empty slash-free owner and repository, a digit run, and its text is a prefix |
| `PrParser.MatchUrlText` | src/core/pr_parser.py:29-30 | every pull-request URL is matched with its own owner, repository and digits, whatever non-digit follows |
| `PrParser.MatchRepoRef` | src/core/pr_parser.py:39 | an `owner/repo#N` match has the allowed characters in each part, a digit run, and its text is a prefix |
| `PrParser.MatchRepoRefText` | src/core/pr_parser.py:39-40 | every `owner/repo#N` with `[A-Za-z0-9_-]` owner and `[A-Za-z0-9_.-]` repository is matched with its own parts |
| `PrParser.MatchShortRef` | src/core/pr_parser.py:49 | a `#N` match yields a digit run that the text shows after a lead (`#` where `^` matches, or whitespace and `#`) and before whitespace or the end |
| `PrParser.ShortRefNeedsHash` | src/core/pr_parser.py:49 | a `#N` can only be found in text holding a `#` |
| `PrParser.NoHashNoShortRef` | src/core/pr_parser.py:48-58 | text without `#` has no `#N` anywhere |
| `PrParser.MatchShortRefText` | src/core/pr_parser.py:49-50 | `#N` at the start of the text or after a whitespace character, followed by whitespace or the end, is matched with its digits |
| `PrParser.AfterReviewWord` | src/core/pr_parser.py:61 | what the word part matches is `review`, `pr`, or `pull`, whitespace or none, and `request`, in any letter case, at the start of the text |
| `PrParser.MatchNumberRef` | src/core/pr_parser.py:61 | a `review N` / `pr N` / `pull request N` match yields a digit run that the text shows after the word and a non-empty whitespace gap, and that no further digit follows |
| `PrParser.NoReviewWordAt` | src/core/pr_parser.py:61 | no match starts at a position whose letter cannot begin `review`, `pr` or `pull` |
| `PrParser.MatchNumberRefText` | src/core/pr_parser.py:61-62 | `review` or `pr` in any letter case, whitespace, then digits is matched with those digits |
| `PrParser.MatchPullRequestText` | src/core/pr_parser.py:61-62 | `pull`, any whitespace or none, `request` (letters in any case), whitespace, then digits is matched with those digits |
| `PrParser.ParsePrReference` | src/core/pr_parser.py:19-72 | tries the four searches in order and returns the first form found; its properties are stated by `UrlTakesPriority`, `RepoRefBeforeDefaults`, `ImplicitReferenceUsesDefaults` and `ResultNamesRepository` |
| `PrParser.WithDefaults` | src/core/pr_parser.py:51-58 | a reference exists exactly when both defaults are configured, and then names them with the number the digits spell |
| `PrParser.UrlTakesPriority` | src/core/pr_parser.py:28-36 | when a URL occurs anywhere, the result is the leftmost URL's owner, repository and number, whatever else the text holds |
| `PrParser.RepoRefBeforeDefaults` | src/core/pr_parser.py:38-46 | without a URL, the leftmost `owner/repo#N` gives the result |
| `PrParser.ImplicitReferenceUsesDefaults` | src/core/pr_parser.py:48-72 | without a URL or `owner/repo#N`, the leftmost `#N` gives the result with the defaults; without one, the leftmost `review N`; without either, no reference; a result always names the configured owner and repository, and there is none when either is unset or empty |
| `PrParser.ResultNamesRepository` | src/core/pr_parser.py:19-72 | every parsed reference has a non-empty owner and repository |
| `PrParser.NoSlashNoExplicitReference` | src/core/pr_parser.py:28-46 | text without `/` matches neither explicit form |
| `PrParser.UrlNeedsSlash` | src/core/pr_parser.py:29 | a URL can only be found in text holding a `/` |
| `PrParser.RepoRefNeedsSlash` | src/core/pr_parser.py:39 | an `owner/repo#N` can only be found in text holding a `/` |
| `PrParser.ExampleEmptyText` | src/core/pr_parser.py:72 | the empty text yields no reference |
| `PrParser.LeadingUrlParses` | src/core/pr_parser.py:28-36 | a text starting with a pull-request URL parses to that URL's owner, repository and decimal number |
| `PrParser.ExampleFullUrl` | src/core/pr_parser.py:28-36 | `https://github.com/acme/project/pull/42` parses to (acme, project, 42) |
| `PrParser.ExampleShortRef` | src/core/pr_parser.py:48-58 | `#N` parses to the defaults with number N when both are configured, and to nothing otherwise |
| `PrParser.NumberRefParses` | src/core/pr_parser.py:60-70 | a text without `/` and `#` whose leftmost `review N` yields N resolves N against the defaults |
| `PrParser.ExampleReviewNumber` | tests/test_pr_parser.py:70-79 | with the defaults configured, `please review 55` refers to pull request 55 |
| `PrParser.ExamplePrNumber` | tests/test_pr_parser.py:81-90 | with the defaults configured, `Check PR 77` refers to pull request 77 |
| `PrParser.ExtractReviewIntent` | src/core/pr_parser.py:75-86 | true iff one of the six keywords occurs in the lower-cased text |
| `PrParser.IntentIgnoresCase` | src/core/pr_parser.py:85 | upper-casing the text does not change the answer |
| `PrParser.IntentSurvivesContext` | src/core/pr_parser.py:86 | surrounding text never removes an intent |
| `PrParser.ExampleIntent` | src/core/pr_parser.py:75-86 | `REVIEW this` and `Please CHECK it` ask for a review |
| `PrParser.NoKeywordLetterNoIntent` | src/core/pr_parser.py:75-86 | a text none of whose letters, in either case, is v, c, k, x, z or p holds no keyword |
| `PrParser.ExampleNoIntent` | tests/test_pr_parser.py:136-150 | neither the empty text nor `Merge when ready` asks for a review |
| `Graph.ToolResult` | src/services/reviewer/graph.py:85-104 | the text a tool call is answered with; `ToolFailuresBecomeText` states each of its three cases |
| `Graph.ToolFailuresBecomeText` | src/services/reviewer/graph.py:90-96 | an unknown tool is answered `Unknown tool: <name>`, a raising tool `Error: <e>`, a working one with its result |
| `Graph.ToolMessages` | src/services/reviewer/graph.py:85-104 | one tool message per call, in call order, each with that call's id |
| `Graph.ExecuteToolCalls` | src/services/reviewer/graph.py:85-108 | the loop over the calls produces exactly `ToolMessages` |
| `Graph.CallsFrom` | src/services/reviewer/graph.py:74-113 | from the `j`-th invocation on, the loop makes at least one more and stays within the replies |
| `Graph.CallsFromStopsAtFinal` | src/services/reviewer/graph.py:79-113 | from the `j`-th invocation on, every response but the last asks for tools, and the last does not unless the replies run out |
| `Graph.CallsMade` | src/services/reviewer/graph.py:22-113 | the model is invoked between 1 and 5 times; every response before the last asks for tools; the last does not unless the cap was reached |
| `Graph.CallsMadeIsFirstFinal` | src/services/reviewer/graph.py:74-113 | the invocation count is exactly the position of the first response without tool calls, or the cap |
| `Graph.CapReachedWhenToolsNeverStop` | src/services/reviewer/graph.py:74-75 | a model that always asks for tools is invoked exactly 5 times, and the loop still ends |
| `Graph.ToolLoop` | src/services/reviewer/graph.py:68-113 | the loop makes `CallsMade(replies)` invocations, keeps the last response, and builds the transcript of those turns |
| `Graph.InvokeOnce` | src/services/reviewer/graph.py:75-110 | one iteration appends the response and, when it asks for tools, the answers to its calls |
| `Graph.TranscriptStep` | src/services/reviewer/graph.py:76-108 | the response followed by its tool answers is the next turn of the transcript |
| `Graph.TranscriptAnswersCalls` | src/services/reviewer/graph.py:76-108 | in every transcript, each response asking for tools is followed at once by one answer per call, in order, with its id |
| `Graph.TurnKeepsCallsAnswered` | src/services/reviewer/graph.py:76-108 | adding a turn keeps every tool call answered |
| `Graph.OldCallStaysAnswered` | src/services/reviewer/graph.py:107-108 | answers already in the conversation stay where they are when a turn is added |
| `Graph.NewCallAnswered` | src/services/reviewer/graph.py:76-108 | the only new response asking for tools is the one just added, and its answers follow it |
| `Graph.TranscriptGrows` | src/services/reviewer/graph.py:68-108 | the conversation holds the two prompts, one message per response and one per tool call |
| `Graph.JsonSpan` | src/services/reviewer/graph.py:122-125 | the span runs from the first `{` to the last `}`, brace to brace, and there is none exactly when no `{` comes before a `}` |
| `Graph.JsonSpanOfWrapped` | src/services/reviewer/graph.py:122-125 | a JSON object surrounded by prose without stray braces is extracted exactly |
| `Graph.FileComments` | src/services/reviewer/graph.py:129-136 | one comment per item, each with the file's name as path, the item's line, and its message or "" |
| `Graph.ReviewOutcome` | src/services/reviewer/graph.py:116-145 | the outcome read from the final response; `ReviewOutcomeComments` and `ParseFinalResponse` state it |
| `Graph.ReviewOutcomeComments` | src/services/reviewer/graph.py:116-145 | a reviewed file's comments all carry its name; no span gives no comments and `Reviewed`; a decoding error gives no comments and `Review completed (parse error)` |
| `Graph.ParseFinalResponse` | src/services/reviewer/graph.py:116-145 | reading the final response gives `ReviewOutcome`: the defaults, the parse-error fallback, or the decoded comments and summary |
| `Graph.ReviewSingleFile` | src/services/reviewer/graph.py:34-145 | the file's outcome is read from the last response of the bounded loop, and the conversation is that loop's transcript |
| `Graph.ReviewSingleFileAsWritten` | src/services/reviewer/graph.py:50-51 | as written, building the tools raises, so every file review fails |
| `Graph.GenerateSummary` | src/services/reviewer/graph.py:148-165 | the overall summary; `EmptySummaryNeedsNoModel` and `AllFailed` state its fixed text for no files |
| `Graph.EmptySummaryNeedsNoModel` | src/services/reviewer/graph.py:150-151 | with no file summaries the summary is `No files were reviewed.`, whatever the summarising model would say |
| `Graph.Successes` | src/services/reviewer/graph.py:213-223 | the results of the files that did not fail, in order, never more than the files; `AggregationBySuccesses`, `FailureIsIsolated` and `AllFailedNoSuccesses` relate it to the collection loop |
| `Graph.CollectResults` | src/services/reviewer/graph.py:213-223 | the loop collects the comments and `**filename**: summary` lines of the reviewed files, in order |
| `Graph.ReviewFilesParallel` | src/services/reviewer/graph.py:213-228 | the comments are those of the successful files concatenated in order, and the summary is generated from their lines only |
| `Graph.AggregationBySuccesses` | src/services/reviewer/graph.py:217-223 | collecting while skipping failures equals dropping the failures first |
| `Graph.CollectedCommentsAppend` | src/services/reviewer/graph.py:217-223 | later outcomes only extend what earlier ones contributed |
| `Graph.FailureIsIsolated` | src/services/reviewer/graph.py:218-220 | a failed file leaves no trace in the comments or summary lines |
| `Graph.AllFailed` | src/services/reviewer/graph.py:213-226 | when every file fails there are no comments and the fixed no-files summary |
| `Graph.AllFailedNoSuccesses` | src/services/reviewer/graph.py:218-220 | when every file fails there are no successful results |
| `Tools.GetFile` | src/services/reviewer/tools.py:31-38 | the answer to `get_file`; `GetFileTruncates` and `FailuresBecomeText` state it |
| `Tools.GetFileTruncates` | src/services/reviewer/tools.py:31-36 | content of at most 50000 characters comes back unchanged; longer content comes back as its first 50000 characters followed by the truncation notice |
| `Tools.ListingText` | src/services/reviewer/tools.py:52-60 | the answer to `list_files`; `ListFiles`, `ListingOneLinePerEntry`, `EmptyDirectoryOnlyWhenEmpty` and `FailuresBecomeText` state it |
| `Tools.ListFiles` | src/services/reviewer/tools.py:52-60 | the loop produces the listing text: the entry lines joined, `Empty directory`, or the error text |
| `Tools.ListingOneLinePerEntry` | src/services/reviewer/tools.py:53-58 | the listing splits back into exactly one line per entry |
| `Tools.EmptyDirectoryOnlyWhenEmpty` | src/services/reviewer/tools.py:58 | the listing is `Empty directory` iff there are no entries |
| `Tools.SearchCodebase` | src/services/reviewer/tools.py:74-83 | the answer to `search_codebase`; `SearchListsFirstTen` and `FailuresBecomeText` state it |
| `Tools.SearchListsFirstTen` | src/services/reviewer/tools.py:74-83 | a non-empty search result lists the first ten paths, at most, one `- path` line each, in order, and is never `No results found` |
| `Tools.ImportSection` | src/services/reviewer/tools.py:101-110 | the import lines collected from the stripped lines; `PythonImports` computes it and `ImportSectionIsLeadingImports`, `ImportSectionOnlyImports` and `ImportSectionEmptyIff` state it |
| `Tools.PythonImports` | src/services/reviewer/tools.py:101-110 | the loop collects `ImportSection` of the stripped lines: import lines up to the first other non-blank, non-comment line after an import |
| `Tools.ImportSectionStep` | src/services/reviewer/tools.py:103-110 | one line either adds an import, ends the section, or is skipped |
| `Tools.ImportSectionOnlyImports` | src/services/reviewer/tools.py:105-106 | the result starts with what was already found and holds only lines starting with `import ` or `from ` |
| `Tools.ImportSectionEmptyIff` | src/services/reviewer/tools.py:111 | nothing is found iff no line is an import |
| `Tools.ImportBlockThenCode` | src/services/reviewer/tools.py:107-110 | an import block followed by a code line yields the block and nothing after it |
| `Tools.SectionEndExists` | src/services/reviewer/tools.py:103-110 | every file has a section end: the first non-blank, non-comment, non-import line after an import, or the end of the file |
| `Tools.ImportSectionIsLeadingImports` | src/services/reviewer/tools.py:101-110 | the collected imports are exactly the import lines before the section end, in order: none is missed and nothing after it is taken |
| `Tools.ImportSectionFrom` | src/services/reviewer/tools.py:103-110 | from any line before the section end, the scan with the imports seen so far finishes with the imports before the end |
| `Tools.ImportLinesEmptyIff` | src/services/reviewer/tools.py:107 | no import has been collected before a line iff no earlier line is an import |
| `Tools.ImportsText` | src/services/reviewer/tools.py:97-121 | the answer to `get_imports`; `GetImports`, `UnsupportedTypesRefused` and `FailuresBecomeText` state it |
| `Tools.GetImports` | src/services/reviewer/tools.py:97-121 | the tool answers the joined imports, `No imports found`, the unsupported-type message, or the error text |
| `Tools.UnsupportedTypesRefused` | src/services/reviewer/tools.py:114-119 | a path that is neither Python nor TypeScript/JavaScript gets the unsupported-type message, whatever its content |
| `Tools.BaseName` | src/services/reviewer/tools.py:137-139 | the name after the last `/`: it holds no `/`, ends the path, and is the whole path or is preceded by a `/` |
| `Tools.BaseNameWithoutSlash` | src/services/reviewer/tools.py:137-139 | a path without `/` is its own file name |
| `Tools.BaseNameOf` | src/services/reviewer/tools.py:137-139 | the base name of `dir/name` is `name` |
| `Tools.LastOccurrence` | src/services/reviewer/tools.py:137 | `rfind` returns the index of the last occurrence |
| `Tools.NameStem` | src/services/reviewer/tools.py:140 | the stem is a prefix of the base name |
| `Tools.NameStemCut` | src/services/reviewer/tools.py:140 | the stem is the base name cut before its last `.`, or the whole base name when it has no `.` |
| `Tools.StemOfFileName` | src/services/reviewer/tools.py:140 | `stem.ext` is cut at its last dot, giving `stem` |
| `Tools.NameStemOf` | src/services/reviewer/tools.py:137-140 | the stem of `dir/stem.ext` is `stem` |
| `Tools.RelatedPatterns` | src/services/reviewer/tools.py:145-166 | the six search patterns, four for tests then two for types |
| `Tools.Hits` | src/services/reviewer/tools.py:154-160 | at most three paths per search, none from a failed search |
| `Tools.HitsAreFirstThree` | src/services/reviewer/tools.py:154-171 | a successful search contributes its first three paths, or all when fewer; a failed one none |
| `Tools.AddNewProperties` | src/services/reviewer/tools.py:156-158 | adding paths keeps the list free of duplicates, keeps what it held in front, and holds exactly the old and the new paths |
| `Tools.DedupMembers` | src/services/reviewer/tools.py:156-158 | the first occurrences hold exactly the elements of the list |
| `Tools.DedupSnoc` | src/services/reviewer/tools.py:157-158 | one more element is kept iff it did not occur before |
| `Tools.DedupOfDistinct` | src/services/reviewer/tools.py:157-158 | a list without duplicates is its own first occurrences |
| `Tools.AddNewIsDedup` | src/services/reviewer/tools.py:156-158 | adding new paths to the first occurrences of a list gives the first occurrences of the longer list |
| `Tools.AddNewKeepsFirstSeen` | src/services/reviewer/tools.py:156-158 | adding paths to a duplicate-free list gives the first occurrence of each, in order |
| `Tools.RelatedPaths` | src/services/reviewer/tools.py:142-174 | the related list after the searches; `RelatedPathsAreFirstHits` and `RelatedPathsProperties` state it |
| `Tools.RelatedPathsProperties` | src/services/reviewer/tools.py:153-174 | the related list is the first occurrence of every hit, in search and hit order; it has no duplicates, holds exactly the hits of the searches, and only grows at its end as searches proceed |
| `Tools.RelatedPathsAreFirstHits` | src/services/reviewer/tools.py:153-174 | the related list equals the first occurrences of all hits concatenated |
| `Tools.RelatedPathsStep` | src/services/reviewer/tools.py:153-172 | one more search appends its new hits |
| `Tools.FindRelatedFiles` | src/services/reviewer/tools.py:135-178 | the tool's loops produce the text of `RelatedPaths` over the six searches |
| `Tools.AddUnseen` | src/services/reviewer/tools.py:156-158 | the inner loop appends the shown paths not yet listed, as `AddNew` |
| `Tools.FailuresBecomeText` | src/services/reviewer/tools.py:37-174 | each tool answers a failed GitHub call with its error text, and a failed related-file search contributes nothing |
| `Service.PrLabel` | src/services/reviewer/service.py:38 | `owner/repo#n`; `ReviewPullRequest` states that every result carries it |
| `Service.WithPatch` | src/services/reviewer/service.py:28 | the files with a patch, in order; `WithPatchMembers` and `WithPatchAppend` state it |
| `Service.ReviewableFiles` | src/services/reviewer/service.py:28-32 | the files reviewed; `ReviewableFilesProperties` and `NoPatchNoReview` state it |
| `Service.Patches` | src/services/reviewer/service.py:58 | the filename-to-patch map, later files winning; `PatchKeys` and `PatchOfLastFile` state it |
| `Service.ReviewPullRequest` | src/services/reviewer/service.py:13-100 | the result is success with the `owner/repo#n` label; with no reviewable file it is the fixed no-changes result and nothing is called; otherwise it counts the reviewable files and all generated comments, submits only the valid comments with the overall summary, then notifies with the summary's first 500 characters |
| `Service.WithPatchMembers` | src/services/reviewer/service.py:28 | a file is reviewable iff it is one of the files and has a non-empty patch |
| `Service.WithPatchAppend` | src/services/reviewer/service.py:28 | the filter works file by file and keeps order |
| `Service.ReviewableFilesProperties` | src/services/reviewer/service.py:28-32 | the reviewed files are a prefix of the files with a patch: all of them when they fit, exactly as many as the cap when it is not negative and they do not fit, and all but the last |cap| (or none) when the cap is negative |
| `Service.NoPatchNoReview` | src/services/reviewer/service.py:34-42 | a pull request where no file has a patch leaves nothing to review, whatever the cap |
| `Service.PatchKeys` | src/services/reviewer/service.py:58 | the patch map has a key exactly for each reviewable file name |
| `Service.PatchOfLastFile` | src/services/reviewer/service.py:58 | a name maps to the patch of the last file carrying it |
| `Service.LastIndexWithName` | src/services/reviewer/service.py:58 | some file carrying a name is the last one carrying it |
| `Service.SubmittedCommentsAreAnchored` | src/services/reviewer/service.py:58-74 | every submitted inline comment has a line allowed by the patch of a reviewed file with its path, and the submitted and refused comments add up to all generated ones |
| `Service.NotificationSummaryIsPrefix` | src/services/reviewer/service.py:87 | the notification carries the summary's first 500 characters, or all of it when shorter |
| `Service.EveryFileFailsAsWritten` | src/services/reviewer/service.py:45-77 | with file reviews as written, `submit_review` is called with no inline or refused comment and the body `No files were reviewed.`; that call itself raises `TypeError`, because src/services/github/service.py:38 passes five positional arguments to `create_review`, which takes at most four (src/services/github/client.py:77-82), and the error is only logged, so only the Slack notification carries the no-files summary |
| `Text.DecimalRoundTrip` | src/core/pr_parser.py:35 | `int` of the decimal text of a natural number gives the number back (the `str`/`int` round trip) |
| `Text.JoinSplit` | src/services/reviewer/tools.py:103-111 | joining the pieces of a split with the same separator gives the text back (the `split`/`join` round trip) |

## Left out

- The concurrency of `review_files_parallel` (`asyncio.Semaphore`, `gather`) is not modelled. Each file's outcome, a result or an exception, is an input, in submission order.
- The language model is not modelled: creating it, binding tools, invoking it and rendering prompts. Its answers are the `replies` input, and the summarising model is `synthesize`.
- `json.loads` is not modelled: it is the oracle `decode`.
- The TypeScript/JavaScript import regex is not modelled: it is the uninterpreted `scriptImports`.
- No GitHub or Slack call is made. Their results are inputs (`Fetch`, `pr`, `files`), and the submission and the notification are recorded as `Call` values.
- Logging is not modelled.
- Webhook signature checks (HMAC) are not part of this model.
- Routes, settings, schemas, exception classes and scripts are not part of this model.
- `create_github_tools` is not modelled: building the registry and binding a call's arguments to a tool. The tools reach the loop as a name-to-behaviour map. The mismatch in its call is recorded under Findings.
- ReviewPullRequest: promises `success` and both outside calls for every input, but an exception from the summarising model is not caught anywhere. It propagates out of `review_files_parallel` (src/services/reviewer/graph.py:226) and `review_pull_request` (src/services/reviewer/service.py:45-53), so there is then no submission, no notification and no result. `synthesize` is a total function and cannot represent that failure.
- GenerateSummary: as written, src/services/reviewer/graph.py:154 reads `settings.synthesis_model`, which `Settings` (src/config.py:8-44) does not define. So `generate_summary` raises `AttributeError` whenever there is at least one file summary. With the per-file review as written, no file succeeds and this line is never reached. With the corrected per-file review, every pull request with a successful file review ends in that exception. The model keeps the evident intent: a summarising model is called.
- An exception raised by `submit_review` or `send_review_notification` is caught and only logged, so it cannot change the result. The model therefore makes both calls unconditionally, and failures are not represented.
- The outer `except` of `find_related_files` is not modelled: no step it guards can raise on a string path.
- Python's Unicode-aware regular expressions are not modelled. `\d`, `IGNORECASE` and `str.lower()` are treated as ASCII-only. In Python, other decimal digits and non-ASCII case variants such as the Kelvin sign also match.
- Message content that is not a string (a list of content parts) is not modelled. A reply either carries a string content or reads as empty.
- Decoded summary values that are not strings are not modelled: `summary` is a string or absent.
- Decoded line values that are booleans are not modelled. Python counts `true` as the int 1, but here they are not ints.
- The PR fetch, the file fetch and their failures are not part of this model. They happen before `ReviewPullRequest` starts.

## Findings

| source | as written | input that shows it | evidently intended | confidence | as-written member | corrected member |
|---|---|---|---|---|---|---|
| src/services/reviewer/graph.py:51 | `create_github_tools(owner, repo, head_ref)` passes three arguments, but the function takes two (src/services/reviewer/tools.py:11). Each file review raises `TypeError` and the parallel review skips it. `submit_review` is then called with no inline or refused comment and the body `No files were reviewed.`. That call fails in turn (src/services/github/service.py:38 passes five positional arguments to `create_review`, which takes at most four, src/services/github/client.py:77-82), and the error is only logged, so only the Slack notification carries the no-files summary. | any pull request with at least one file that carries a patch, and a cap that keeps at least one file | build the tools for the owner and the repository, then run the tool-calling review of the file | not executed | `Service.EveryFileFailsAsWritten` (over `Graph.ReviewSingleFileAsWritten`) | `Graph.ReviewSingleFile` |
