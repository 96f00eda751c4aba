# context-mcp core, modelled in Dafny

This project models the core of context-mcp. context-mcp is an MCP server that gives an agent read-only tools over one project directory. The model covers:

- **Search** (`context_mcp/tools/search.py`):
  - the literal single-file search;
  - the three-tier multi-file search: ripgrep, then `find`+`grep`, then a Python walk, with the line parsing each tier does, the time budget and the fallback gate;
  - the recently-modified-files query: `fd`, then a walk, newest first.
- **Navigation** (`agent_mcp/tools/navigation.py`):
  - the directory listing: entries, stable sort by name, size or time, limit and truncation;
  - the depth-limited tree, including its "max depth reached" flag.
- **Tool guide** (`context_mcp/tools/guide.py`, `context_mcp/utils/schema_extractor.py`):
  - validating and normalising requested tool names (with the `mcp_` prefix rule and the warning text);
  - building per-category metadata;
  - the counts the guide reports.
- **Document generation** (`context_mcp/utils/doc_generator.py`):
  - the Markdown section for one tool and for one category;
  - the UTF-8 size of a document.
- **Tool detection** (`context_mcp/utils/tool_detector.py`): the process-wide detector, which probes `rg` and `fd` once.
- **Configuration** (`context_mcp/config.py`): the checks a `ProjectConfig` makes, and how `load_config` reads the environment.

## How the system is modelled

**Modules.** Each source file above is one module: `Search`, `Navigation`, `Guide`, `DocGen`, `ToolDetection` and `Config`. Three modules are shared:

- `Wrappers` holds `Option` and `Result`.
- `Text` holds the Python string rules the core relies on: `strip`, `splitlines`, `split`, the `in` test for substrings, `int()` on ASCII digits, `str()` of integers, `replace`, `removeprefix`, and `upper` as far as it yields ASCII letters.
- `Sorting` holds a stable insertion sort, which stands for `list.sort` and `sorted`.

**Inputs.** The world outside the program becomes values:

- A subprocess run is a datatype of outcomes: completed with a return code and stdout, timed out, not found, or an OS error.
- The clock is the elapsed time read at each loop step.
- The filesystem is a tree of nodes, or a directory listing.
- `Path.resolve` and `relative_to` are functions that are parameters.
- `shutil.which` and the `--version` probe are tool environments.

**State.**

- Loops in the source are `method`s with `while` loops, proved equal to specification functions. The properties the source promises are proved about those functions as lemmas.
- The detector's `_instance` class attribute is a `Registry` class. It holds a `ToolDetector?` field.
- The detector's fields are updated in place by `Init`.

## Model

| member | source | states |
|---|---|---|
| Search.LiteralMatchesSound | context_mcp/tools/search.py:56-71 | every literal match has a line number inside the file, carries that line's text, and that text contains the query |
| Search.LiteralMatchesIncreasing | context_mcp/tools/search.py:56-71 | literal matches come out in strictly increasing line order |
| Search.LiteralMatchesComplete | context_mcp/tools/search.py:56-71 | every line containing the query is reported, with its 1-based number |
| Search.SearchInFile | context_mcp/tools/search.py:30-75 | the loop yields exactly the matching lines, numbered from 1, in order, all of them, and total_matches is their count |
| Search.MatchLines | context_mcp/tools/search.py:56-71 | the loop over `enumerate(f, 1)` yields the reference list of matching lines |
| Search.ColonsBelow | context_mcp/tools/search.py:160-166 | the collected positions are increasing, each is a field colon, and every field colon below the bound is collected |
| Search.FindColonPositions | context_mcp/tools/search.py:160-166 | the loop collects exactly the colons other than a drive-letter colon at index 1 followed by a slash or backslash, in increasing order |
| Search.RgMatchesAppend | context_mcp/tools/search.py:148-195 | parsing ripgrep output line by line: one more line adds at most that line's match at the end |
| Search.ParseRgOutputLine | context_mcp/tools/search.py:149-195 | one ripgrep line is skipped when blank, excluded, short of two colons, carrying a non-integer line number, or outside the root; otherwise it becomes a match with a slash-normalised relative path |
| Search.ParseRgOutput | context_mcp/tools/search.py:148-195 | the loop over `splitlines()` of stdout yields the line-by-line parse |
| Search.RgLineRoundTrip | context_mcp/tools/search.py:160-191 | a `path:N:content` line with a colon-free path splits back into path, N and content, and parses to the match with line number N |
| Search.FirstFieldColons | context_mcp/tools/search.py:160-173 | in `path:digits:content` the first two field colons are the two separators |
| Search.RgLineSkipped | context_mcp/tools/search.py:164-169 | lines with fewer than two field colons, or a non-integer number field, yield nothing; the drive-letter colon is never a field colon |
| Search.RgMatchesExclude | context_mcp/tools/search.py:151-152 | with a non-empty exclude query, no ripgrep match contains it |
| Search.ParseRgLineExclude | context_mcp/tools/search.py:151-152 | a single ripgrep line that parses does not contain the exclude query |
| Search.RgMatchesSlashes | context_mcp/tools/search.py:187 | no ripgrep match path contains a backslash |
| Search.PosixBudget | context_mcp/tools/search.py:213-220 | `find` gets `timeout // 2`, grep runs share the rest, each grep gets `min(5, remaining)`; the two halves sum to the timeout and differ by at most one |
| Search.GrepMatchesAppend | context_mcp/tools/search.py:251-279 | parsing grep output line by line: one more line adds at most that line's match at the end |
| Search.ParseGrepOutputLine | context_mcp/tools/search.py:252-279 | a grep line is skipped when blank, excluded, lacking a colon, carrying a non-integer number, or when the file is outside the root; otherwise it becomes a match |
| Search.ParseGrepOutput | context_mcp/tools/search.py:251-279 | the loop over grep's `splitlines()` yields the line-by-line parse |
| Search.GrepOneFile | context_mcp/tools/search.py:239-282 | one grep run: return codes 0 and 1 are parsed, timeouts and missing grep give nothing, and an OS error is reported as a failure of the tier |
| Search.RunGrepTier | context_mcp/tools/search.py:200-286 | the find+grep tier as a loop: find's outcome, blank names skipped, the clock check that sets timed_out, and an OS error keeps the earlier matches |
| Search.RunRgTier | context_mcp/tools/search.py:123-198 | the ripgrep tier: a completed run is parsed line by line; a timeout sets timed_out with no matches; other run failures propagate as an error |
| Search.FileHitsAppend | context_mcp/tools/search.py:300-311 | the walk tier's per-file loop appends the match unless its content contains the exclude query |
| Search.CollectFileHits | context_mcp/tools/search.py:300-311 | the per-file loop yields the filtered, slash-normalised hits |
| Search.RunWalkTier | context_mcp/tools/search.py:290-313 | the Python walk as a loop: the clock stops it with timed_out, non-files and unreadable files are skipped |
| Search.SearchInFiles | context_mcp/tools/search.py:78-319 | the whole search equals its specification; a missing path is PathNotFound; total_matches is the number of matches |
| Search.ParseGrepLineExclude | context_mcp/tools/search.py:254-255 | a grep line that parses does not contain the exclude query |
| Search.GrepMatchesExclude | context_mcp/tools/search.py:254-255 | no grep match contains the exclude query |
| Search.GrepMatchesSlashes | context_mcp/tools/search.py:271-273 | no grep match path contains a backslash |
| Search.FileHitsProps | context_mcp/tools/search.py:300-311 | every walk hit has the file's normalised path, comes from the file's own matches and avoids the exclude query |
| Search.GrepLoopClean | context_mcp/tools/search.py:222-282 | every match of the grep loop has a slash-free path and avoids the exclude query |
| Search.WalkLoopClean | context_mcp/tools/search.py:290-313 | every match of the walk loop has a slash-free path and avoids the exclude query |
| Search.SearchClean | context_mcp/tools/search.py:78-319 | whichever tier answers, no match contains a backslash in its path or the exclude query in its content |
| Search.SearchFallbackGate | context_mcp/tools/search.py:288 | when the first tier found matches or timed out, the walk is not consulted and its result is returned; otherwise the walk's result is returned |
| Search.GrepTierIgnoresWalk | context_mcp/tools/search.py:200-286 | the grep tier does not depend on the walk |
| Search.GrepLoopIgnoresWalk | context_mcp/tools/search.py:222-282 | the grep loop does not depend on the walk |
| Search.CollectFdFiles | context_mcp/tools/search.py:471-491 | the loop over fd's output yields each non-blank line whose file resolves under the root and can be stat'ed |
| Search.ParseFdLine | context_mcp/tools/search.py:473-491 | one fd line: blank lines and files outside the root or without a stat are skipped |
| Search.CollectWalkFiles | context_mcp/tools/search.py:502-517 | the walk loop keeps exactly the files with a stat and an mtime at or after the cutoff |
| Search.FindRecentlyModifiedFiles | context_mcp/tools/search.py:421-524 | the query equals its specification; a missing path is PathNotFound; total_found is the count; files are sorted newest first |
| Search.MostRecentFirstSpec | context_mcp/tools/search.py:493-495 | sorting newest first is a permutation, with mtimes non-increasing |
| Search.WalkRecentIff | context_mcp/tools/search.py:502-517 | a file is in the walk's result iff it is a regular file with a stat and mtime >= cutoff |
| Search.RecentWalkResult | context_mcp/tools/search.py:446-524 | without a successful fd run, every reported file has mtime >= now - hours*3600, and every such file is reported |
| Search.RecentExample | context_mcp/tools/search.py:446-524 | two hours back from 10000, a file at 6400 is kept, one at 0 is dropped, and a directory is ignored |
| Navigation.EntryOf | agent_mcp/tools/navigation.py:60-71 | an entry has the item's name, path and mtime; directories are "dir" with size 0; files carry st_size |
| Navigation.Entries | agent_mcp/tools/navigation.py:60-71 | one entry per item, in order |
| Navigation.ListDirectory | agent_mcp/tools/navigation.py:22-103 | a missing path, a non-directory and a denied listing are the three errors; otherwise a sorted, limited listing with total and truncation |
| Navigation.ListSpecShape | agent_mcp/tools/navigation.py:76-103 | a readable listing always succeeds, with total = number of items, at most `limit` entries when limit > 0, and truncated iff entries were cut |
| Navigation.SortEntriesLength | agent_mcp/tools/navigation.py:76-81 | sorting entries is a permutation |
| Navigation.ListSorted | agent_mcp/tools/navigation.py:76-81 | the listing is ordered by size, time or name, ascending or descending as requested |
| Navigation.SortEntriesStable | agent_mcp/tools/navigation.py:76-88 | entries that tie on the sort key keep their `iterdir` order, so the limit keeps the first of a tie |
| Navigation.ListContents | agent_mcp/tools/navigation.py:60-103 | an untruncated listing holds exactly the items' entries; every entry comes from an item; directories have size 0 |
| Navigation.ListEntriesPrefix | agent_mcp/tools/navigation.py:84-88 | the listing is a prefix of the sorted entries, and all of them when not truncated |
| Navigation.EntriesMember | agent_mcp/tools/navigation.py:60-71 | every entry comes from some item |
| Navigation.TreesOf | agent_mcp/tools/navigation.py:154-164 | one subtree per child |
| Navigation.BuildTreeNode | agent_mcp/tools/navigation.py:144-168 | the recursive builder returns the specified tree and sets the flag iff some directory lies at the depth limit |
| Navigation.ShowTree | agent_mcp/tools/navigation.py:106-175 | a depth outside 1..10 is refused; otherwise the root is the directory "." at depth 0 |
| Navigation.TreeOfWellFormed | agent_mcp/tools/navigation.py:144-168 | every node carries its name, depth and kind; children sit one level deeper; nothing is deeper than the limit |
| Navigation.TreesOfWellFormed | agent_mcp/tools/navigation.py:154-164 | each child's subtree is well formed, at the children's depth, with the child's name |
| Navigation.ReachedIff | agent_mcp/tools/navigation.py:150-166 | the flag is set iff the built tree has a directory at the depth limit |
| Navigation.ReachedAnyIff | agent_mcp/tools/navigation.py:154-166 | across the children, the flag is set iff some child's subtree has a directory at the limit |
| Navigation.ShowTreeSpecProps | agent_mcp/tools/navigation.py:144-175 | a successful tree is well formed, and its flag means a directory sits at the depth limit |
| Navigation.EmptyDirAtLimitSetsFlag | agent_mcp/tools/navigation.py:150-166 | an empty directory at the limit already sets max_depth_reached |
| Sorting.LexLessIrreflexive | agent_mcp/tools/navigation.py:76-81 | string ordering is irreflexive |
| Sorting.LexLessTransitive | agent_mcp/tools/navigation.py:76-81 | string ordering is transitive |
| Sorting.LexLessTotal | agent_mcp/tools/navigation.py:76-81 | string ordering is total |
| Sorting.KeyLessIrreflexive | agent_mcp/tools/navigation.py:76-81 | the sort-key ordering is irreflexive |
| Sorting.KeyLessTransitive | agent_mcp/tools/navigation.py:76-81 | the sort-key ordering is transitive |
| Sorting.KeyLessTotal | agent_mcp/tools/navigation.py:76-81 | the sort-key ordering is total |
| Sorting.KeyLeTransitive | agent_mcp/tools/navigation.py:76-81 | the non-strict key ordering is transitive |
| Sorting.BeforeAsymmetric | agent_mcp/tools/navigation.py:76-81 | sorting precedence is asymmetric in both directions |
| Sorting.NotBeforeTransitive | agent_mcp/tools/navigation.py:76-81 | "not before" is transitive |
| Sorting.InsertMultiset | agent_mcp/tools/navigation.py:76-81 | insertion adds exactly the new element |
| Sorting.InsertSpec | agent_mcp/tools/navigation.py:76-81 | inserting into a sorted list keeps it sorted and adds exactly the element |
| Sorting.InsertMember | agent_mcp/tools/navigation.py:76-81 | every element after insertion is the new one or an old one |
| Sorting.SortBySpec | agent_mcp/tools/navigation.py:76-81 | the stable sort used for `sort(key=..., reverse=...)` yields a sorted permutation |
| Sorting.InsertWithKey | agent_mcp/tools/navigation.py:76-81 | insertion passes over no element of the inserted one's key, so each key's elements keep their order |
| Sorting.SortByStable | agent_mcp/tools/navigation.py:76-81 | the sort is stable, ascending or reversed: for every key, the elements with that key appear in their input order |
| Text.DigitValue | context_mcp/config.py:75-79 | a digit's value is below ten |
| Text.DigitChar | context_mcp/utils/doc_generator.py:66 | the digit character for d is a digit whose value is d |
| Text.ContainsIff | context_mcp/tools/search.py:70 | the substring test `query in line` holds iff the query occurs at some index |
| Text.ContainsEmpty | context_mcp/tools/search.py:70 | the empty query is in every line |
| Text.ContainsSelf | context_mcp/tools/search.py:70 | every line contains itself |
| Text.ContainsInSlice | context_mcp/tools/search.py:151 | a substring of a slice is a substring of the whole |
| Text.ContainsConcat | context_mcp/tools/search.py:151 | a substring of either part is a substring of the concatenation |
| Text.StripLeft | context_mcp/tools/search.py:149 | stripping never lengthens |
| Text.StripRight | context_mcp/tools/search.py:149 | the trailing half of `strip()` never lengthens |
| Text.StripLeftSpec | context_mcp/tools/search.py:149 | left stripping removes exactly the leading whitespace |
| Text.StripRightSpec | context_mcp/tools/search.py:149 | the trailing half of `strip()` removes exactly the trailing whitespace |
| Text.StripSpec | context_mcp/utils/doc_generator.py:44 | `strip()` is the slice without whitespace at either end |
| Text.IsBlankIff | context_mcp/tools/search.py:149-150 | a line is all whitespace iff its strip is empty |
| Text.StripLeftAllSpace | context_mcp/tools/search.py:149-150 | an all-whitespace line strips to nothing |
| Text.StripNoEdges | context_mcp/utils/doc_generator.py:44 | a string without whitespace at its ends strips to itself |
| Text.FirstBreak | context_mcp/tools/search.py:148 | the first line break at or after an index |
| Text.BreakWidth | context_mcp/tools/search.py:148 | a line break is one or two characters ("\r\n") |
| Text.SplitLinesNoBreaks | context_mcp/tools/search.py:148 | no line from `splitlines()` contains a line break |
| Text.SplitJoinTerminated | context_mcp/tools/search.py:148 | `splitlines()` of break-free lines, each terminated by "\n", gives the lines back |
| Text.FirstBreakAt | context_mcp/tools/search.py:148 | the first break is found where it is |
| Text.SplitLinesCons | context_mcp/tools/search.py:148 | a break-free line followed by "\n" is split off as the first line |
| Text.FindChar | context_mcp/tools/search.py:258 | the first occurrence of a character at or after an index |
| Text.SplitOnChar | context_mcp/tools/search.py:219 | `split` yields at least one part |
| Text.SplitOnCharJoin | context_mcp/tools/search.py:219 | joining the parts of `split(c)` with c gives the string back, and no part contains c |
| Text.NatToString | context_mcp/utils/doc_generator.py:66 | `str(n)` is a non-empty run of digits |
| Text.RemoveUnderscores | context_mcp/config.py:75-79 | dropping underscores keeps only characters of the input, none of them "_" |
| Text.RemoveUnderscoresNone | context_mcp/config.py:75-79 | a string without underscores is unchanged |
| Text.DigitsValueOfNatToString | context_mcp/config.py:75-79 | the digits of `str(n)` have value n |
| Text.ParseSignedDigits | context_mcp/config.py:75-79 | `int()` of a digit run is its value |
| Text.NatRoundTrip | context_mcp/config.py:75-79 | `int(str(n)) == n` for natural n |
| Text.ParseSignedNegative | context_mcp/config.py:75-79 | `int("-" + str(n)) == -n` |
| Text.IntRoundTrip | context_mcp/config.py:75-79 | `int(str(i)) == i` for every integer |
| Text.ParseIntNeedsDigit | context_mcp/config.py:75-79 | a string without an ASCII digit is refused by the ASCII reading of `int()` |
| Text.SlashesSpec | context_mcp/tools/search.py:187 | `replace("\\", "/")` keeps the length, leaves no backslash, changes nothing else and is idempotent |
| Text.RemovePrefix | context_mcp/tools/guide.py:95 | `removeprefix` strips the prefix exactly when the string starts with it, else returns the string |
| Text.Upper | context_mcp/config.py:82 | `upper()` keeps the length, turns lower-case ASCII letters, dotless i and long s into upper-case ASCII letters, leaves none of them behind and changes nothing else |
| Text.ConcatAppend | context_mcp/utils/doc_generator.py:67-68 | concatenation extends by one part at the end |
| DocGen.GenerateToolSection | context_mcp/utils/doc_generator.py:22-52 | the sequence of `+=` steps builds exactly the section specified |
| DocGen.HeadingIs | context_mcp/utils/doc_generator.py:32-33 | the heading steps produce `### name` and the purpose line |
| DocGen.WithParametersIs | context_mcp/utils/doc_generator.py:35-38 | the parameter steps append the JSON block |
| DocGen.WithExampleBlocksIs | context_mcp/utils/doc_generator.py:42-45 | the example loop appends one python fence per example, in order |
| DocGen.Assoc4 | context_mcp/utils/doc_generator.py:22-52 | `+=` steps can be regrouped |
| DocGen.WithExamplesIs | context_mcp/utils/doc_generator.py:40-46 | the examples steps append the examples block |
| DocGen.WithReturnsIs | context_mcp/utils/doc_generator.py:48-49 | the return steps append the returns line |
| DocGen.ToolSectionParts | context_mcp/utils/doc_generator.py:22-52 | a section is heading, parameters, examples, returns and the `---` rule, in that order |
| DocGen.ToolSectionFrame | context_mcp/utils/doc_generator.py:32-52 | a section begins with the heading and purpose, then has the JSON parameters block, and ends with "\n---\n" |
| DocGen.PartsSlices | context_mcp/utils/doc_generator.py:22-52 | each part can be read back from its place in the section |
| DocGen.ExamplesIff | context_mcp/utils/doc_generator.py:40-46 | the examples block is present iff there are examples, and each is a python fence around the stripped example |
| DocGen.ReturnsIff | context_mcp/utils/doc_generator.py:48-49 | the returns line is present iff a non-empty return format is given |
| DocGen.FenceCountNone | context_mcp/utils/doc_generator.py:36-45 | text without a triple backtick has no fences |
| DocGen.NoBacktickCount | context_mcp/utils/doc_generator.py:36-45 | text without a backtick has no fences |
| DocGen.FenceCountConcat | context_mcp/utils/doc_generator.py:36-45 | fence counts add when the join does not meet a backtick on both sides |
| DocGen.OpenerCount | context_mcp/utils/doc_generator.py:43 | an opening fence counts once |
| DocGen.StripNoFence | context_mcp/utils/doc_generator.py:44 | stripping cannot create a fence |
| DocGen.HeadingFences | context_mcp/utils/doc_generator.py:32-33 | the heading has no fence and ends with a newline |
| DocGen.ParametersFences | context_mcp/utils/doc_generator.py:35-38 | the parameters block adds exactly two fences |
| DocGen.ExampleFences | context_mcp/utils/doc_generator.py:43-45 | one example adds exactly two fences |
| DocGen.ExampleBlocksFences | context_mcp/utils/doc_generator.py:42-45 | the example loop adds two fences per example |
| DocGen.ExamplesFences | context_mcp/utils/doc_generator.py:40-46 | the examples steps add two fences per example |
| DocGen.ReturnsFences | context_mcp/utils/doc_generator.py:48-49 | the returns line adds no fence |
| DocGen.RuleFences | context_mcp/utils/doc_generator.py:51 | the closing rule adds no fence |
| DocGen.ToolSectionFences | context_mcp/utils/doc_generator.py:22-52 | for fence-free fields, a section has 2 + 2 * examples fences, so every code block is closed |
| DocGen.MapStrings | context_mcp/utils/doc_generator.py:67-68 | one rendered string per item |
| DocGen.MapStringsIndex | context_mcp/utils/doc_generator.py:67-68 | the i-th rendered string renders the i-th item |
| DocGen.AppendingIs | context_mcp/utils/doc_generator.py:67-68 | appending in a loop concatenates the rendered items in order |
| DocGen.GenerateCategorySection | context_mcp/utils/doc_generator.py:55-69 | the loop builds exactly the category section specified |
| DocGen.CategorySectionParts | context_mcp/utils/doc_generator.py:66-69 | a category section is `## name Tools (count)` followed by each tool's section in order, and the count reads back as the number of tools |
| DocGen.Utf8Width | context_mcp/utils/doc_generator.py:103-105 | a character takes one to four bytes |
| DocGen.DocSize | context_mcp/utils/doc_generator.py:103-105 | the size is the length of the UTF-8 encoding, between one and four bytes per character |
| DocGen.EncodeCharBytes | context_mcp/utils/doc_generator.py:103-105 | a character's encoding has its width in bytes, with continuation bytes after the first |
| DocGen.DocSizeAscii | context_mcp/utils/doc_generator.py:103-105 | ASCII text takes one byte per character |
| DocGen.DocSizeConcat | context_mcp/utils/doc_generator.py:103-105 | sizes add up over concatenation |
| Guide.Enumerate | context_mcp/tools/guide.py:58-66 | iterating a set lists each member exactly once |
| Guide.DuplicateCount | context_mcp/tools/guide.py:58 | a repeated element occurs at least twice |
| Guide.ListsHasNoDuplicates | context_mcp/tools/guide.py:58 | a listing of a set has no repeats |
| Guide.SortedNames | context_mcp/tools/guide.py:58 | `sorted(set)` lists each member once, in strictly increasing order |
| Guide.LexLessAsymmetric | context_mcp/tools/guide.py:58 | string ordering is asymmetric |
| Guide.SortedHead | context_mcp/tools/guide.py:58 | the head of a sorted list is its least element |
| Guide.SortedTail | context_mcp/tools/guide.py:58 | the tail of a sorted list is the list without its head |
| Guide.SortedListsUnique | context_mcp/tools/guide.py:58 | two strictly sorted lists with the same members are equal, so `sorted` is deterministic |
| Guide.ValidateAndFilterTools | context_mcp/tools/guide.py:22-67 | no request includes every tool with no warning; otherwise names are normalised with the `mcp_` rule, the included set is the valid ones, the invalid ones are sorted, and exactly one warning is issued iff there are invalid ones |
| Guide.NormalizeNames | context_mcp/tools/guide.py:43-50 | the loop yields the set of normalised requested names |
| Guide.ReportInvalid | context_mcp/tools/guide.py:52-64 | invalid names are sorted and reported in exactly one warning when there are any |
| Guide.NormalizeCases | context_mcp/tools/guide.py:43-50 | a valid name is kept; otherwise `mcp_` is prepended when that is valid; the result is valid iff either form is |
| Guide.NormalizedMembers | context_mcp/tools/guide.py:43-50 | the normalised set holds exactly the normalised requested names |
| Guide.NormalizedDuplicates | context_mcp/tools/guide.py:43-50 | requesting a name twice changes nothing |
| Guide.EmptyRequest | context_mcp/tools/guide.py:43-66 | an empty request includes nothing and reports nothing |
| Guide.WarningWord | context_mcp/tools/guide.py:59-64 | the warning starts with "Tools " for several invalid names and "Tool " for one |
| Guide.Describe | context_mcp/tools/guide.py:98-103 | the description is the tool's own when non-empty, else "[No description]" |
| Guide.BuildToolsMetadata | context_mcp/tools/guide.py:70-117 | the nested loops build exactly the specified per-category metadata |
| Guide.IncludedNamesIff | context_mcp/tools/guide.py:90-93 | a category lists a tool iff the category names it and it is included |
| Guide.CategoryToolsOrder | context_mcp/tools/guide.py:90-112 | a category's metadata follows the category's order, one entry per included tool |
| Guide.MetaForProps | context_mcp/tools/guide.py:95-111 | a tool's metadata has its name without `mcp_`, a non-empty description, its schema, no examples and no return format |
| Guide.MetadataEntries | context_mcp/tools/guide.py:114-115 | exactly the categories with at least one included tool appear, each with its category's tools |
| Guide.TotalIncludedCounts | context_mcp/tools/guide.py:169 | the filtered count sums the tools over the categories |
| Guide.IncludedNamesCount | context_mcp/tools/guide.py:90-93 | a category without repeats contributes as many tools as it shares with the included set |
| Guide.ListedIncludedDisjoint | context_mcp/tools/guide.py:169 | with disjoint categories, the sum is the number of categorised included tools |
| Guide.ListedDisjointFromLast | context_mcp/utils/schema_extractor.py:84-97 | with disjoint categories, the last category shares no tool with the others |
| Guide.ListedFrom | context_mcp/utils/schema_extractor.py:84-104 | a tool is categorised iff some category lists it |
| Guide.FilteredCountDisjoint | context_mcp/tools/guide.py:169 | the filtered count is the number of included tools that some category lists |
| Guide.GetToolUsageGuide | context_mcp/tools/guide.py:120-199 | the report counts all tools; it holds the metadata of the included set, with the matching filtered count; a request lists the included names sorted and joined by ", "; invalid names (sorted) and warnings appear together, exactly when a request names invalid tools |
| Guide.ToolCategoriesDisjoint | context_mcp/utils/schema_extractor.py:84-97 | no tool is in two categories |
| ToolDetection.CheckTool | context_mcp/utils/tool_detector.py:53-79 | a path is returned iff the tool is on PATH and `--version` exits with 0; it is the PATH lookup's answer |
| ToolDetection.CheckToolFailures | context_mcp/utils/tool_detector.py:63-79 | not on PATH, a non-zero exit, a missing executable, a timeout and an OS error each give None |
| ToolDetection.ToolDetector.constructor | context_mcp/utils/tool_detector.py:25-30 | a new detector is not yet initialised |
| ToolDetection.ToolDetector.Init | context_mcp/utils/tool_detector.py:32-43 | the first call sets initialized and detects both tools; later calls change nothing |
| ToolDetection.ToolDetector.DetectRipgrep | context_mcp/utils/tool_detector.py:45-47 | sets the ripgrep path from the check of "rg", nothing else |
| ToolDetection.ToolDetector.DetectFd | context_mcp/utils/tool_detector.py:49-51 | sets the fd path from the check of "fd", nothing else |
| ToolDetection.Registry.constructor | context_mcp/utils/tool_detector.py:23 | no instance exists yet |
| ToolDetection.Registry.Construct | context_mcp/utils/tool_detector.py:23-43 | the first construction creates and initialises the instance; later ones return the same, unchanged instance |
| ToolDetection.ConstructTwice | context_mcp/utils/tool_detector.py:23-43 | two constructions return the same detector, with the first construction's answers |
| ToolDetection.DetectedIndependently | context_mcp/utils/tool_detector.py:49-79 | fd's detection depends only on the answers for "fd" |
| Config.NewProjectConfig | context_mcp/config.py:23-52 | a configuration is built iff the root is a directory, the timeout is positive, retention is at least 1 and the level is standard; it then holds the given values |
| Config.NewProjectConfigErrors | context_mcp/config.py:28-52 | the first failing check decides the error: root, then timeout, retention, level |
| Config.LoadConfigNeedsRoot | context_mcp/config.py:65-70 | an unset or empty PROJECT_ROOT is refused |
| Config.LoadConfigValid | context_mcp/config.py:55-97 | a loaded configuration has the resolved root, which is a directory, the parsed positive timeout, retention 7 and a standard level named by LOG_LEVEL |
| Config.LoadConfigBadTimeout | context_mcp/config.py:75-79 | a SEARCH_TIMEOUT that `int()` refuses is an error |
| Config.DefaultTimeoutParses | context_mcp/config.py:75 | the default "60" reads as 60 |
| Config.DefaultLevel | context_mcp/config.py:82 | the default level name WARNING names the WARNING level |
| Config.LoadConfigDefaults | context_mcp/config.py:55-97 | with only PROJECT_ROOT set, the defaults are timeout 60, retention 7 and level WARNING |
| Config.LevelNames | context_mcp/config.py:82-89 | LOG_LEVEL is accepted iff it names one of the five levels, aliases WARN and FATAL included; NOTSET names a level that is then refused |
| Config.LowerCaseLevel | context_mcp/config.py:82-89 | level names are case-insensitive: "debug" loads as DEBUG |
| Config.NonAsciiLevel | context_mcp/config.py:82-89 | `upper()` maps dotless i and long s to I and S, so "info" spelt with a dotless i loads as INFO and "notset" spelt with a long s names NOTSET |

## Left out

- Regex search (`use_regex`) is not modelled. Only literal search is, since Python's `re` is not part of this model.
- The glob and file-pattern filters of every tier are left out. `find`, `rglob` and ripgrep are inputs that already yield the file set.
- Path validation, binary-file detection and the read tools are not part of this model. The same holds for `server.py`, the logger and the module-level `config`/`validator` globals, including the "Configuration not loaded" exception.
- `render_document` (a Jinja template) is left out. So are the document text, size and generation time in the guide's response. The guide's report models the metadata, counts, invalid names and warnings.
- `json.dumps(input_schema, indent=2)` is opaque: a schema is its already-serialised JSON string.
- Times are integers, not floats. The clock is the per-step elapsed time it reports, also integers.
- UTF-8 decoding with `errors="replace"` is left out, because tool output is given as text.
- Upper: maps only lower-case ASCII letters, dotless i (U+0131) and long s (U+017F), the two non-ASCII letters that Python upper-cases to single ASCII letters. Other characters are left unchanged, whereas Python upper-cases them to non-ASCII letters or, for `ß` and the ligatures `ﬀ` to `ﬆ`, to two or three ASCII letters such as SS, FFI and ST. No level name contains one of those groups, so LOG_LEVEL is accepted exactly when Python accepts it. This relies on Python's Unicode case tables, which the model does not include.
- ParseInt: accepts the ASCII digits 0-9 only. Python's `int()` also accepts every other Unicode decimal digit, such as the full-width `６０`. The model refuses such a SEARCH_TIMEOUT and such line-number fields in grep and ripgrep output (search.py:188 and search.py:261), which Python accepts.
- ParseIntNeedsDigit: says "no ASCII digit". A string made only of non-ASCII decimal digits is refused by the model but accepted by Python.
- LoadConfigBadTimeout: is stated for the model's ASCII `int()`. A SEARCH_TIMEOUT written in non-ASCII decimal digits is an error in the model but a valid timeout in Python.
- `Guide.Enumerate`: the order in which a Python set iterates is unspecified. The method promises only that each member is listed once.
- `Path.resolve`, `relative_to` and `stat` are parameters. An error they raise, other than the ones the source catches, is outside the model.
- The in-place `list.sort` is modelled as a reassignment to a sorted copy.
- The unused `search_root_parts` (search.py:115-121) and `find_files_by_name` are not part of this model.
- Exceptions the source does not catch are modelled as errors of that tier. For example, ripgrep errors other than a timeout propagate out of `search_in_files`.
- `stat` failures in `list_directory`, other than PermissionError, are not modelled.

Behaviour of the code worth noting:

- A ripgrep timeout leaves the match list empty: the run raises before any output is parsed.
- ripgrep's return code is not checked.
- The exclude test in the ripgrep tier is on the raw output line, path included.
- In the grep tier, an OS error keeps the matches found so far.
- A `find` timeout does not set `timed_out`, so the Python walk then runs.
- The `fd` path of the recency query applies no mtime cutoff of its own beyond `--changed-within`.
- `max_depth_reached` is set for any directory at the depth limit, empty or not.
- LOG_LEVEL accepts the aliases WARN and FATAL. NOTSET is a name `logging` knows, and the configuration then refuses it.
