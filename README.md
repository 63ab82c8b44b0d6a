# Code-Compass dependency engine, in Dafny

Code-Compass analyses a GitHub repository. It turns the repository's file
listing into per-file fact records, and turns those into a directed file graph
that a dashboard draws. This project models that engine and proves what it
promises:

- **The fact extractors** (`utils/dependency_extractors.py`).
  - The Python extractor walks the syntax tree. A regex fallback runs when parsing fails.
  - The JavaScript/TypeScript, HTML and CSS extractors collect the matches of fixed regular expressions.
  - Each extractor fills a dict of string lists whose key set depends on the language.
  - Module `Extractors` holds the extractor loops as methods, each proved equal to a specification function.
  - Module `Patterns` writes every regular expression out as a scanner over the text, following Python's backtracking order where it matters. `FindAll` is `re.findall`.
- **The graph builder** (`create_dependency_graph` in `utils/analyzer.py`). It runs these steps in order:
  1. Filter the files.
  2. Add directory nodes, and a node per file, with "contains" edges when the folder structure is shown.
  3. Dispatch each file to an extractor by extension.
  4. Optionally enrich Python and JavaScript records with a language-model answer. The answer is validated, then merged key by key as duplicate-free unions.
  5. Cross-reference every pair of files into call, import and link edges.
  6. Prune low-degree nodes in a single pass.
- **How the builder is modelled.**
  - Module `Analyzer` states each stage as a function and proves the properties of the whole build: which records exist, which edges exist, which attributes an edge keeps, and which nodes survive pruning.
  - Module `Builder` does the same work in place. Its loops update a `DiGraph` object (module `Graph`), a record table and the enrichment counters, and each method is proved equal to its stage.
  - Module `Enrichment` holds the key validation and the merge.
  - Module `Paths` holds the POSIX `os.path` functions the builder compares paths with: `basename`, `dirname`, `splitext` and `relpath`.
- **Two helpers of the same file** (module `RepoText`):
  - `extract_repo_info` reads the owner and the repository name out of a GitHub URL.
  - `chunk_text` cuts a text into overlapping windows of lines.

Where a reader might expect otherwise, the model follows the code:

- `show_folder_structure` is off when absent (`options.get(..., False)` at `utils/analyzer.py` lines 352 and 368), although the sidebar's checkbox (`components/sidebar.py` line 17) starts checked.
- Pruning is one pass over the degrees of the unpruned graph, so a second prune can remove more nodes (`Graph.PruneNotIdempotent`).
- The skip word `.git` is a substring test, so `.github/...` paths are dropped too (`Analyzer.GithubDirDropped`).
- The merge raises a `TypeError` when a key shared by the answer and the record holds something other than a list. Validation coerces only its five expected keys, so for a Python or JavaScript record this happens exactly when the answer's `classes` is not a list (`Enrichment.ValidatedCrashOnlyClasses`). A raise ends the build; the model returns `None`.

## Model

| member | source | states |
|---|---|---|
| Extractors.NodeImports | utils/dependency_extractors.py:19-24 | a node contributes x iff it is `import` with alias x, or `from x import` with a non-empty module x; `from . import` contributes nothing |
| Extractors.NodeFunctions | utils/dependency_extractors.py:26-27 | only a plain `def x` contributes the function name x |
| Extractors.NodeClasses | utils/dependency_extractors.py:29-30 | only `class x` contributes the class name x |
| Extractors.NodeCalls | utils/dependency_extractors.py:32-36 | a call contributes x iff its callee is the name x or an attribute `.x`; any other callee contributes nothing |
| Extractors.VisitNode | utils/dependency_extractors.py:18-36 | one step of the walk appends exactly what the node's branch contributes to each list |
| Extractors.WalkTree | utils/dependency_extractors.py:18-36 | the loop over the walked nodes builds the record of the whole walk |
| Extractors.WalkFields | utils/dependency_extractors.py:7-36 | the walked record has exactly the five Python keys, `file_references` stays empty, and each list is the concatenation of the nodes' contributions in walk order |
| Extractors.WalkCollects | utils/dependency_extractors.py:18-36 | a name is in a list of the walked record iff some node contributes it there |
| Extractors.WalkImportExamples | utils/dependency_extractors.py:19-24 | `import a, b` appends "a" then "b"; `from m import` appends "m"; a relative import without module appends nothing |
| Extractors.Empty | utils/dependency_extractors.py:7-13 | a fresh record of a schema has every list empty and no entry outside its keys |
| Extractors.Update | utils/dependency_extractors.py:39 | `dependencies.update(fallback)` replaces `imports`, `functions` and `function_calls` with the fallback's lists and keeps the other keys |
| Extractors.ExtractPython | utils/dependency_extractors.py:5-41 | the result is the walk of the tree, or on a parse failure the fallback spliced into an empty record; the key set is always the five Python keys and `file_references` is empty |
| Extractors.SetGroups | utils/dependency_extractors.py:132 | the set groups of one match are its non-empty groups |
| Extractors.ModulesOnePerMatch | utils/dependency_extractors.py:130-132 | each line-start import match contributes exactly one module name, a non-empty run without whitespace |
| Extractors.ExtractWithRegex | utils/dependency_extractors.py:125-137 | the fallback has only its three keys and `function_calls` stays empty; for another file type all lists are empty; for Python the lists are the import groups and the `def` names in match order |
| Extractors.FallbackShapes | utils/dependency_extractors.py:125-137 | the fallback finds one import per match, each without whitespace, and function names made of word characters |
| Extractors.CollectMatches | utils/dependency_extractors.py:60-74 | one pattern loop builds the concatenation of each pattern's matches, in pattern order |
| Extractors.ConcatCollects | utils/dependency_extractors.py:53-74 | a name is in the concatenation iff some pattern of the list found it, and duplicates are kept: the length is the total number of matches |
| Extractors.ConcatShape | utils/dependency_extractors.py:53-74 | every JavaScript import found is a quoted name, and every function found is a word |
| Extractors.JsNameShape | utils/dependency_extractors.py:54-69 | the names a single import pattern finds are quoted names, and the names a function pattern finds are words |
| Extractors.ExtractJavaScript | utils/dependency_extractors.py:43-82 | `imports` and `functions` are the concatenations over the four import and five function patterns in order, then the class and call matches; the key set is the five script keys and `file_references` is empty |
| Extractors.HtmlShapes | utils/dependency_extractors.py:95-105 | stylesheet links end in `.css`, script sources contain `.js`, image sources are quoted names, and `other_links` holds the whole asset path ending in a dot and one of the listed extensions, not the extension alone |
| Extractors.HtmlFacts | utils/dependency_extractors.py:84-107 | the record has exactly the six markup keys; the four link lists are the first groups of their patterns' matches in match order (for `other_links` the whole asset path); `imports` and `file_references` stay empty |
| Extractors.CssFacts | utils/dependency_extractors.py:109-123 | the record has exactly `imports`, `url_references` and `file_references`; the first two are the `@import` and `url(...)` groups in match order, the last always empty |
| Extractors.PythonFacts | utils/dependency_extractors.py:5-41 | the Python record, a walk or the fallback; its contract is carried by `ExtractPython` (equal to it, five keys, empty `file_references`) and `WalkFields` and `WalkCollects` (what the walk collects) |
| Extractors.JavaScriptFacts | utils/dependency_extractors.py:43-82 | the JavaScript record; its contract is carried by `ExtractJavaScript` (equal to it, the lists as concatenations in pattern order) and `ConcatCollects` and `ConcatShape` (membership, multiplicity and shape of the names) |
| Extractors.CssShapes | utils/dependency_extractors.py:117-121 | `@import` targets are quoted names; `url(...)` references contain no quote, `)` or whitespace |
| Patterns.ImportFromAt | utils/dependency_extractors.py:54 | a match of `import\s+.*?\s+from\s+['"]([^'"]+)['"]` captures one quoted name |
| Patterns.LazyFrom | utils/dependency_extractors.py:54 | the lazy `.*?` followed by `\s+from\s+['"]...['"]` matches only with one quoted name as its group, ending within the text |
| Patterns.ImportBareAt | utils/dependency_extractors.py:55 | a match of the bare `import '...'` form captures one quoted name |
| Patterns.RequireAt | utils/dependency_extractors.py:56 | a match of `require(...)` captures one quoted name |
| Patterns.DynamicImportAt | utils/dependency_extractors.py:57 | a match of `import(...)` captures one quoted name |
| Patterns.FunctionDeclAt | utils/dependency_extractors.py:65 | a match of `function\s+(\w+)\s*\(` captures one word |
| Patterns.ConstAt | utils/dependency_extractors.py:66-67 | a match of the two `const x = ...` forms captures one word |
| Patterns.WordSepTail | utils/dependency_extractors.py:68-69 | a match of the two `x: ...` method forms captures one word |
| Patterns.ClassAt | utils/dependency_extractors.py:76 | a match of `class\s+(\w+)` captures one word |
| Patterns.TagAttr | utils/dependency_extractors.py:95-101 | a match of `<tag[^>]*attr=["'](...)["']`, ignoring case, captures one quoted name that the group's own pattern admits |
| Patterns.LastAttr | utils/dependency_extractors.py:95-101 | the greedy `[^>]*` backtracking from the right matches only with one quoted name that the group's own pattern admits |
| Patterns.AssetExtOf | utils/dependency_extractors.py:104 | a found extension is one of the listed asset extensions and ends the quoted value, after a dot and at least one character |
| Patterns.AssetHrefAt | utils/dependency_extractors.py:104 | a match of the asset `href=` form captures the whole path and its extension |
| Patterns.CssImportAt | utils/dependency_extractors.py:117 | a match of `@import\s+["'](...)["']` captures one quoted name |
| Patterns.CssUrlAt | utils/dependency_extractors.py:120 | a match of `url\s*\(...\)` captures one reference without quotes, `)` or whitespace |
| Patterns.PyFromOrImportAt | utils/dependency_extractors.py:130 | a match starts at a line start and sets exactly one of its two groups, the `from` module or the `import` module |
| Patterns.FromImportAt | utils/dependency_extractors.py:130 | the `from\s+(\S+)\s+import` alternative sets group one only |
| Patterns.PlainImportAt | utils/dependency_extractors.py:130 | the `import\s+(\S+)` alternative sets group two only |
| Patterns.PyDefAt | utils/dependency_extractors.py:134 | a match of `def\s+(\w+)\s*\(` captures one word |
| Patterns.RepoUrlAt | utils/analyzer.py:45 | a match of `github\.com\/([\w.-]+)\/([\w.-]+)` captures an owner and a name made of word characters, dots and dashes |
| Patterns.MatchAt | utils/dependency_extractors.py:53-134 | a match at a position ends after it, within the text, and has its pattern's group shape |
| Patterns.FindAll | utils/dependency_extractors.py:61 | `re.findall`, the non-overlapping matches from left to right; its contract is carried by `MatchAt`, `FindAllShape` and `Group1Shape` (every match has its pattern's group shape) and by the per-pattern `...At` lemmas |
| Patterns.FindAllShape | utils/dependency_extractors.py:61 | every match `re.findall` returns has its pattern's group shape |
| Patterns.Group1Shape | utils/dependency_extractors.py:61 | the same, stated for each index of the match list |
| Enrichment.Validated | utils/analyzer.py:322-328 | after validation each of the five expected keys holds a list: missing or non-list values become `[]`, list values are kept, and other keys are untouched |
| Enrichment.ValidateKeysEffect | utils/analyzer.py:324-328 | validating a list of keys one after the other adds exactly those keys and coerces exactly the missing or non-list ones |
| Enrichment.ValidateResult | utils/analyzer.py:322-328 | the validation loop produces the validated dict |
| Enrichment.AiResult | utils/analyzer.py:318-334 | the dict handed back is empty iff there is no client or no decodable answer (a validated answer always holds the five expected keys) |
| Enrichment.Dedup | utils/analyzer.py:381 | `list(set(xs))` holds exactly the elements of xs, without duplicates |
| Enrichment.MergeKeys | utils/analyzer.py:378-381 | each key the answer and the record share, with a list in the answer, becomes the union of both lists; the other keys keep their lists |
| Enrichment.Merged | utils/analyzer.py:378-381 | the merge raises iff a shared key holds a non-list in the answer |
| Enrichment.MergeEnrichment | utils/analyzer.py:378-381 | the merge loop over the answer's keys, in any order, gives the merged record or the raise |
| Enrichment.MergeContents | utils/analyzer.py:378-381 | the merge keeps the record's key set, so keys only the answer has (such as `external_apis`) are dropped; each shared key holds the duplicate-free union of both lists; keys the answer lacks are unchanged |
| Enrichment.ValidatedCrashOnlyClasses | utils/analyzer.py:322-381 | for a Python or JavaScript record, a validated answer makes the merge raise iff the answer's `classes` is not a list |
| Enrichment.EmptyAnswerKeepsRecord | utils/analyzer.py:376-383 | merging an empty answer leaves the record as it was |
| Analyzer.FilterFiles | utils/analyzer.py:348-350 | a file is kept iff its size is under 1000000 and none of the four skip words occurs in its path; nothing is added |
| Analyzer.GithubDirDropped | utils/analyzer.py:348-350 | `.github/workflows/ci.yml` is dropped, because `.git` occurs in it |
| Analyzer.Record | utils/analyzer.py:384 | storing a record sets the path's entry, leaves the counters, appends a new path to the insertion order and leaves it unchanged for a stored one, keeping each stored path listed exactly once |
| Analyzer.Enrich | utils/analyzer.py:374-397 | enriching and storing one record keeps the insertion order listing each stored path exactly once |
| Analyzer.EnrichFacts | utils/analyzer.py:374-397 | enrichment adds the file's record, and moves one counter exactly when a client is set and the file is Python or JavaScript |
| Analyzer.EnrichOutcome | utils/analyzer.py:374-396 | with a client, a non-empty answer counts a success and stores the merged record; an empty answer counts a failure and stores the record as extracted |
| Analyzer.FactStep | utils/analyzer.py:372-405 | one file's record step keeps the insertion order listing each stored path exactly once |
| Analyzer.FactStepFacts | utils/analyzer.py:372-405 | a record appears for the file iff it has content and one of the supported lower-cased extensions; a counter moves iff a client is set and the file is Python or JavaScript |
| Analyzer.FileFacts | utils/analyzer.py:357-405 | the record part of the file loop keeps the insertion order listing each stored path exactly once |
| Analyzer.FileStage | utils/analyzer.py:357-405 | the whole file loop keeps the insertion order listing each stored path exactly once |
| Analyzer.NodeStepNodes | utils/analyzer.py:362-370 | a file's node step adds its node, keeps the others, and keeps every edge's ends among the nodes |
| Analyzer.FileNodesCover | utils/analyzer.py:357-370 | the file loop keeps the earlier nodes, makes every kept file a node, and keeps every edge's ends among the nodes |
| Analyzer.FileFactsRecords | utils/analyzer.py:357-405 | after the file loop exactly the kept files with content and a supported extension have a record |
| Analyzer.FileFactsCounts | utils/analyzer.py:374-396 | with a client, success plus failed equals the number of kept Python and JavaScript files with content; without one, both stay 0 |
| Analyzer.DirStageEdges | utils/analyzer.py:352-355 | adding directory nodes adds no edge |
| Analyzer.FileNodesEdges | utils/analyzer.py:357-370 | the file loop adds exactly the "contains" edges from a file's directory node, and only when the folder structure is shown |
| Analyzer.FileNodesExact | utils/analyzer.py:357-366 | without the folder structure the file loop adds exactly the kept files as nodes |
| Analyzer.CallWritesIff | utils/analyzer.py:423-429 | a call edge is written iff some name is both in the target's `functions` and in the source's `function_calls`, and every call write is labelled with such a name |
| Analyzer.CallWritesAppend | utils/analyzer.py:423-429 | the call writes of a concatenation of function lists are the writes of the parts in order, so (with `CallWritesSingle`) there is one write per called function, in `functions` order |
| Analyzer.CallWritesSingle | utils/analyzer.py:425-429 | one function gives one write labelled `calls_function_<name>` when the source calls it, and none otherwise |
| Analyzer.CallWritesLast | utils/analyzer.py:423-429 | the last call write, whose label survives when only call rules fire, is labelled with the last of the target's functions that the source calls |
| Analyzer.ImportWritesIff | utils/analyzer.py:431-441 | an import edge is written iff some import contains the target's extension-less basename, its path relative to the source's directory, or its full path, with backslashes read as slashes |
| Analyzer.LinkWritesIff | utils/analyzer.py:445-449 | a link edge of a kind is written iff some link of that kind contains the target's full basename |
| Analyzer.AllLinkWritesIff | utils/analyzer.py:443-449 | some link edge is written iff some link of the four kinds contains the target's basename |
| Analyzer.PairWritesIff | utils/analyzer.py:419-449 | the pair step raises iff imports are shown and the target path is empty (`relpath` of ""); otherwise it writes an edge iff the call, import or link rule fires, each under its option |
| Analyzer.PairWritesFull | utils/analyzer.py:427-449 | every cross-reference write sets the edge's type, colour and weight |
| Analyzer.AllLinkWritesFull | utils/analyzer.py:443-449 | every link write sets type, colour and weight |
| Analyzer.ApplyWritesEffect | utils/analyzer.py:427-449 | a pair's writes create at most the one edge (a, b) and its end nodes, change nothing else, and leave the attributes of the last write |
| Analyzer.LastWriteWins | utils/analyzer.py:423-449 | when several rules fire, the surviving edge attributes are the last write's, in the order calls, imports, css, js, image, other links |
| Analyzer.CrossFromEdges | utils/analyzer.py:418-449 | a source's inner loop adds exactly the edges from it to other kept files where some rule fires, never a self-loop, and leaves edges from other sources unchanged |
| Analyzer.CrossFromNodes | utils/analyzer.py:418-449 | a source's inner loop keeps every node's attributes, adds no node when the source and the files are nodes already, and keeps every edge's ends among the nodes |
| Analyzer.CrossStageEffect | utils/analyzer.py:417-449 | the outer loop adds exactly the cross edges whose source has a record; the node table is unchanged when every source and file is a node |
| Analyzer.LanguageOf | utils/analyzer.py:372-404 | the extractor a file is dispatched to; its contract is carried by `FactStepFacts` (a record appears iff the file has content and a supported lower-cased extension) and `Builder.ExtractFacts` (the record has that language's keys) |
| Analyzer.PairWrites | utils/analyzer.py:419-449 | the edge writes of one ordered pair; its contract is carried by `PairWritesIff` (raises iff imports are shown and the target is empty; writes iff a rule fires), `PairWritesFull` and `LastWriteWins` |
| Analyzer.CrossFrom | utils/analyzer.py:417-449 | the inner loop for one source; its contract is carried by `CrossFromEdges` (exactly the firing edges from the source, no self-loop) and `CrossFromNodes` (node table kept) |
| Analyzer.CrossStage | utils/analyzer.py:417-449 | the outer loop over the records; its contract is carried by `CrossStageEffect` (exactly the cross edges of sources with a record) |
| Analyzer.Unpruned | utils/analyzer.py:336-456 | the build before pruning; its contract is carried by `UnprunedShape` |
| Analyzer.Build | utils/analyzer.py:336-456 | the whole build; its contract is carried by `BuildPrunes` (survivors of the one-pass prune, records untouched) and `Builder.CreateDependencyGraph` (the in-place method equals it) |
| Analyzer.UnprunedShape | utils/analyzer.py:336-449 | before pruning: records exist exactly for kept supported files with content; every kept file is a node; every edge joins nodes; the edges are exactly the "contains" edges (folder structure shown) and the cross edges; without the folder structure the nodes are exactly the kept files; the counters add up to the enrichment attempts |
| Analyzer.BuildPrunes | utils/analyzer.py:451-456 | with `min_connections > 0` a node survives iff its degree in the unpruned graph reaches the threshold and an edge survives iff both ends do; otherwise the graph is unchanged; the records are untouched |
| Graph.MergeNode | utils/analyzer.py:362-366 | adding an existing node overwrites each of its five attributes that the call gives and keeps each one it does not give |
| Graph.MergeEdge | utils/analyzer.py:427-449 | adding an existing edge overwrites each of its type, colour and weight that the call gives and keeps each one it does not give |
| Graph.AddNodeV | utils/analyzer.py:362-366 | `add_node` adds or updates one node and nothing else |
| Graph.AddEdgeV | utils/analyzer.py:369-370 | `add_edge` adds both end nodes and keeps at most one edge per ordered pair, merging attributes into an existing one |
| Graph.RemoveV | utils/analyzer.py:454 | `remove_nodes_from` removes the nodes and exactly the edges touching them |
| Graph.PruneV | utils/analyzer.py:451-454 | the one-pass prune; its contract is carried by `PruneSurvivors` (who survives), `PruneMonotone` and `PruneNotIdempotent` |
| Graph.PruneSurvivors | utils/analyzer.py:451-454 | a node survives iff its degree before pruning is at least the threshold; an edge survives iff both ends do |
| Graph.PruneMonotone | utils/analyzer.py:451-454 | a larger threshold keeps a subset of the nodes |
| Graph.RemoveDegree | utils/analyzer.py:454 | removing nodes never raises a degree |
| Graph.PruneNotIdempotent | utils/analyzer.py:451-454 | on the path a → b → c with threshold 2 one prune keeps b and a second removes it |
| Graph.DiGraph.AddNode | utils/analyzer.py:362-366 | the object's tables change as `add_node` prescribes |
| Graph.DiGraph.AddEdge | utils/analyzer.py:427-429 | the object's tables change as `add_edge` prescribes |
| Graph.DiGraph.RemoveNodesFrom | utils/analyzer.py:454 | the object's tables change as `remove_nodes_from` prescribes |
| Builder.AddDirectoryNodes | utils/analyzer.py:353-355 | the loop adds or updates the node `📁 <dir>` for each non-empty directory name, in order, and nothing else |
| Builder.ExtractFacts | utils/analyzer.py:372-404 | the dispatch returns the record of the extractor for the file's language, with exactly that language's keys |
| Builder.AnalyzeWithAi | utils/analyzer.py:375 | the enrichment call returns the validated answer, or `{}` |
| Builder.StoreRecord | utils/analyzer.py:374-397 | enriching, counting and storing one record give the table of `Analyzer.Enrich`, and raise exactly when it does |
| Builder.ProcessFile | utils/analyzer.py:357-405 | one pass of the file loop: the node step on the graph and the record step on the table |
| Builder.ProcessFiles | utils/analyzer.py:357-405 | the file loop builds the node fold and the record fold, and raises iff a merge raises |
| Builder.AddCallEdges | utils/analyzer.py:423-429 | the call loop applies the call writes in `functions` order |
| Builder.AddImportEdges | utils/analyzer.py:431-441 | the import loop applies the import writes in import order |
| Builder.AddLinkEdges | utils/analyzer.py:445-449 | the loop over one kind's links applies its writes |
| Builder.AddAllLinkEdges | utils/analyzer.py:443-449 | the loop over the four link kinds applies their writes in kind order |
| Builder.CrossPair | utils/analyzer.py:419-449 | one pair applies its writes, or raises when `relpath` does |
| Builder.CrossFromFile | utils/analyzer.py:418-449 | the inner loop over the kept files for one source |
| Builder.CrossReference | utils/analyzer.py:417-449 | the outer loop over the records in insertion order |
| Builder.Prune | utils/analyzer.py:451-454 | pruning in place removes the nodes whose degree before any removal is below the threshold, as `Graph.PruneSurvivors` describes |
| Builder.CreateDependencyGraph | utils/analyzer.py:336-456 | the whole method returns the graph and records of the build, and raises exactly when the build does |
| Paths.RFind | utils/analyzer.py:432-433 | `rfind` finds the last occurrence, or -1 when there is none |
| Paths.Basename | utils/analyzer.py:446 | `basename` is the slash-free tail of the path after its last slash |
| Paths.Dirname | utils/analyzer.py:433 | `dirname` is a prefix of the path, empty iff the path has no slash; it reaches at most the last slash, only slashes lie between its end and that slash, it ends in a slash only when it is all slashes, and a head made only of slashes is returned whole |
| Paths.DirnameExamples | utils/analyzer.py:433 | `a/b//c` gives `a/b`, `//c` gives `//`, `c` gives the empty string |
| Paths.Splitext | utils/analyzer.py:432 | `splitext` splits the path into root and extension that join back to it; the extension is empty or a dot and no further dot or slash; a non-empty extension leaves a non-dot in the root's last component, and an empty one means every dot of the last component has only dots before it there |
| Paths.SplitextExample | utils/analyzer.py:432 | `src/app.min.js` splits into `src/app.min` and `.js` |
| Paths.SplitextLeadingDot | utils/analyzer.py:432 | `src/.bashrc` has no extension |
| Paths.Relpath | utils/analyzer.py:433 | `relpath` raises iff the path is empty |
| Paths.RelpathRoundTrip | utils/analyzer.py:433 | walking the relative path from the start directory arrives at the path |
| Paths.SplitJoin | utils/analyzer.py:433 | splitting a slash-join of slash-free parts gives the parts back |
| Text.ContainsIff | utils/analyzer.py:436-446 | Python's `t in s` on strings holds iff t occurs in s at some position |
| Text.Lower | utils/analyzer.py:360 | `lower` keeps the length and lowers each ASCII capital, leaving the other characters |
| Text.ReplaceChar | utils/analyzer.py:437-438 | `replace("\\", "/")` maps each backslash to a slash and keeps the rest |
| RepoText.SearchNone | utils/analyzer.py:46 | `re.search` finds nothing iff no position starts a match |
| RepoText.SearchFirst | utils/analyzer.py:46 | `re.search` returns the match at the leftmost matching position |
| RepoText.SearchSkip | utils/analyzer.py:46 | positions without a match do not change what the search finds |
| RepoText.ExtractRepoInfo | utils/analyzer.py:44-49 | a found owner and name consist of word characters, dots and dashes |
| RepoText.RepoInfoLeftmost | utils/analyzer.py:44-49 | `(None, None)` iff no position of the URL starts a match; otherwise the pair is the groups of the leftmost match |
| RepoText.RepoInfoRoundTrip | utils/analyzer.py:44-49 | `https://github.com/<owner>/<name>` followed by anything that cannot extend the name gives back owner and name |
| RepoText.SplitLines | utils/analyzer.py:104 | `splitlines` gives lines without line boundaries, and none for an empty text |
| RepoText.SplitLinesJoin | utils/analyzer.py:104-109 | for a text whose only breaks are `\n` and that does not end in one, joining the lines with `\n` gives the text back |
| RepoText.Slice | utils/analyzer.py:109 | `lines[i:j]` follows Python's slice rules, including a negative end counted from the back |
| RepoText.WindowTexts | utils/analyzer.py:109 | each chunk is the `\n`-join of its window's lines |
| RepoText.NonBlank | utils/analyzer.py:113 | the filter keeps exactly the chunks with a non-whitespace character and is never longer than its input |
| RepoText.NonBlankAppend | utils/analyzer.py:113 | filtering a concatenation concatenates the filtered parts, so kept chunks stay in their order and with their repetitions |
| RepoText.NonBlankSingle | utils/analyzer.py:113 | a single chunk is kept iff it has a non-whitespace character |
| RepoText.WindowLoop | utils/analyzer.py:105-112 | the while loop appends the text of each window in turn |
| RepoText.ChunkText | utils/analyzer.py:103-113 | `chunk_text` returns the non-blank window texts |
| RepoText.Windows | utils/analyzer.py:105-112 | the windows the loop visits; its contract is carried by `WindowLoop` (the loop appends their texts), `WindowsStarts` and `WindowsCover` |
| RepoText.WindowsStarts | utils/analyzer.py:107-112 | window starts increase strictly and stay below the line count, so the loop ends |
| RepoText.WindowsCover | utils/analyzer.py:107-112 | with a positive size each window holds between one and `chunk_size` lines; with a non-negative overlap the last window ends at the final line and every line is in some window |
| RepoText.DefaultWindowsCover | utils/analyzer.py:103-112 | with the defaults `chunk_size=800` and `overlap=120` every window holds 1 to 800 lines, the windows cover every line, and the last one ends at the final line |
| RepoText.ChunksNonBlank | utils/analyzer.py:103-113 | every returned chunk has a non-whitespace character and is one window's text; an empty text gives `[]` |

## Left out

- The repository listing (`get_repo_contents`), cloning, file globbing, the language-model and embedding services, and the Streamlit UI are not part of this model. The builder takes the file records and directory names as inputs.
- The enrichment service: its answer enters as a function `respond` of the file's content and path, returning the decoded dict or `None`. The HTTP call and the JSON decoding are not modelled.
- JSON values: a decoded value is a list of strings or something else. Lists holding non-strings are not modelled.
- `ast.parse`: the parse result enters as a function `parse` of the content, giving the walk order of the tree or `None` when parsing raises. Python's grammar is not modelled.
- Extractors.ExtractPython: `AsyncFunctionDef` nodes are modelled as contributing nothing, as in the source; other node kinds are not distinguished.
- `\w` and `\s` are modelled as Python's ASCII word characters and the whitespace characters Python's `str` recognises; `\w`'s non-ASCII letters and digits are not modelled.
- Text.Lower: `str.lower` is modelled for ASCII capitals only; other cased characters are left as they are, so a file named `X.PY` with a non-ASCII capital in its extension is not lowered as Python would lower it.
- `IGNORECASE` folds the ASCII letters and the four non-ASCII characters Python's matcher folds onto `i`, `s` and `k`; other case-insensitive matches of non-ASCII letters are not modelled (the patterns' letters are all ASCII).
- Enrichment.Dedup: `list(set(...))` has an order Python does not fix. The model keeps first occurrences in order, and the contracts speak only of membership and the absence of duplicates. Literal duplicates disappear in the dedup, but when file a calls two or more of file b's merged `functions` and no import or link write follows, each call write overwrites `edge_type`, so which `calls_function_<name>` label survives depends on this order.
- `os.path.relpath` resolves against the process's working directory. It enters as the parameter `cwd`.
- Paths: only `/` is a separator, as on POSIX; Windows paths are not modelled.
- The `success_rate` percentage and the `st.info`/`st.success` messages are not modelled.
- RepoText.ChunkText: a negative `chunk_size` or `overlap` follows Python's slicing rules (`Slice`), but `WindowsCover` proves its bounds only for a positive size and a non-negative overlap.
