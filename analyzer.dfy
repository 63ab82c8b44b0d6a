/** `create_dependency_graph` of utils/analyzer.py: it filters the file records,
    adds directory nodes, adds a node per file, extracts and enriches a fact
    record per supported file, cross-references every pair of files to add
    call, import and link edges, and prunes low-degree nodes. The functions
    below are the specification, stage by stage. The methods after them do the
    same work in place on a `DiGraph`, each proved equal to its stage. */
module Analyzer {
  import opened Wrappers
  import opened Text
  import opened Extractors
  import opened Paths
  import opened Graph
  import opened Enrichment

  /** A file record of the repository listing. */
  datatype FileRecord = FileRecord(path: string, content: string, size: int, directory: string)

  /** The display options, each as `options.get(key)` would find it (None: absent). */
  datatype Options = Options(
    showFolderStructure: Option<bool>, showFunctionCalls: Option<bool>,
    showImports: Option<bool>, showFileLinks: Option<bool>, minConnections: Option<int>)
  {
    /** Absent means off here, unlike the other toggles. */
    predicate FolderStructure() { showFolderStructure.GetOr(false) }
    predicate FunctionCalls() { showFunctionCalls.GetOr(true) }
    predicate Imports() { showImports.GetOr(true) }
    predicate FileLinks() { showFileLinks.GetOr(true) }
    function MinConnections(): int { minConnections.GetOr(0) }
  }

  /** What the builder cannot compute itself: the working directory `relpath`
      resolves against, the Python parser (None when it raises), whether an
      enrichment client is configured, and the dict decoded from the service's
      answer for a file's content and path (None when the call or the decoding
      fails or the answer is not a dict). */
  datatype Env = Env(
    cwd: string,
    parse: string -> Option<seq<PyNode>>,
    hasClient: bool,
    respond: (string, string) -> Option<map<string, Json>>)

  // ---------------------------------------------------------------------------
  // Filtering

  const SizeLimit := 1000000
  const SkipParts: seq<string> := [".git", "node_modules", "__pycache__", ".pytest_cache"]

  /** A file is kept when it is under the size limit and no skip word occurs
      anywhere in its path. */
  predicate Keep(f: FileRecord) {
    f.size < SizeLimit && forall i | 0 <= i < |SkipParts| :: !Contains(f.path, SkipParts[i])
  }

  function FilterFiles(files: seq<FileRecord>): (r: seq<FileRecord>)
    ensures forall f :: f in r <==> f in files && Keep(f)
    ensures |r| <= |files|
    decreases |files|
  {
    if files == [] then []
    else
      var last := files[|files| - 1];
      FilterFiles(files[..|files| - 1]) + (if Keep(last) then [last] else [])
  }

  // ---------------------------------------------------------------------------
  // Nodes

  /** The id of a directory node: a folder emoji, a space, the directory. */
  function DirNodeId(dir: string): string {
    "\U{1F4C1} " + dir
  }

  const DirAttrs := NodeAttrs(Some("directory"), Some("#FFD700"), None, None, None)
  const ContainsAttrs := EdgeAttrs(Some("contains"), Some("#CCCCCC"), None)

  function FileAttrs(f: FileRecord): NodeAttrs {
    NodeAttrs(Some("file"), None, Some(Extension(f.path)), Some(f.size), Some(f.directory))
  }

  /** A node per non-empty directory name, in order. */
  function DirStage(g: GraphValue, dirs: seq<string>): GraphValue
    decreases |dirs|
  {
    if dirs == [] then g
    else
      var prior := DirStage(g, dirs[..|dirs| - 1]);
      var d := dirs[|dirs| - 1];
      if d != "" then AddNodeV(prior, DirNodeId(d), DirAttrs) else prior
  }

  /** The file's node, and its "contains" edge from its directory when the
      folder structure is shown and the file has a directory. */
  function NodeStep(g: GraphValue, f: FileRecord, opts: Options): GraphValue {
    var g1 := AddNodeV(g, f.path, FileAttrs(f));
    if opts.FolderStructure() && f.directory != "" then AddEdgeV(g1, DirNodeId(f.directory), f.path, ContainsAttrs)
    else g1
  }

  // ---------------------------------------------------------------------------
  // Fact records

  datatype Language = PythonLanguage | ScriptLanguage | MarkupLanguage | StyleLanguage

  /** The extractor a file is dispatched to: by its lower-cased extension, and
      only when it has content. */
  function LanguageOf(f: FileRecord): Option<Language> {
    var ext := Extension(f.path);
    if f.content == "" then None
    else if ext == ".py" then Some(PythonLanguage)
    else if ext == ".js" || ext == ".ts" || ext == ".jsx" || ext == ".tsx" then Some(ScriptLanguage)
    else if ext == ".html" then Some(MarkupLanguage)
    else if ext == ".css" then Some(StyleLanguage)
    else None
  }

  function Extract(lang: Language, f: FileRecord, env: Env): Facts {
    match lang
    case PythonLanguage => PythonFacts(f.content, env.parse(f.content))
    case ScriptLanguage => JavaScriptFacts(f.content)
    case MarkupLanguage => HtmlFacts(f.content)
    case StyleLanguage => CssFacts(f.content)
  }

  /** The fact records so far: the paths in insertion order, the records, and
      the enrichment counters. */
  datatype Collected = Collected(order: seq<string>, facts: map<string, Facts>, success: nat, failed: nat)

  const NoFacts := Collected([], map[], 0, 0)

  /** The order lists every path with a record, once each. */
  ghost predicate Consistent(c: Collected) {
    (forall p :: p in c.order <==> p in c.facts)
    && forall i, j :: 0 <= i < j < |c.order| ==> c.order[i] != c.order[j]
  }

  /** `file_dependencies[path] = deps`: a new path goes to the end of the order. */
  function Record(c: Collected, path: string, deps: Facts): (r: Collected)
    ensures Consistent(c) ==> Consistent(r)
    ensures r.facts == c.facts[path := deps] && r.success == c.success && r.failed == c.failed
    ensures r.order == (if path in c.facts then c.order else c.order + [path])
  {
    c.(order := if path in c.facts then c.order else c.order + [path], facts := c.facts[path := deps])
  }

  /** Enrichment of a Python or JavaScript record when a client is configured:
      a non-empty answer is a success and is merged (None when the merge
      raises), an empty one is a failure. */
  function Enrich(lang: Language, deps: Facts, f: FileRecord, env: Env, c: Collected): (r: Option<Collected>)
    ensures r.Some? && Consistent(c) ==> Consistent(r.value)
  {
    if (lang == PythonLanguage || lang == ScriptLanguage) && env.hasClient then
      var ai := AiResult(true, env.respond(f.content, f.path));
      if ai != map[] then
        match Merged(deps, ai)
        case None => None
        case Some(d) => Some(Record(c.(success := c.success + 1), f.path, d))
      else Some(Record(c.(failed := c.failed + 1), f.path, deps))
    else Some(Record(c, f.path, deps))
  }

  function FactStep(c: Collected, f: FileRecord, env: Env): (r: Option<Collected>)
    ensures r.Some? && Consistent(c) ==> Consistent(r.value)
  {
    match LanguageOf(f)
    case None => Some(c)
    case Some(lang) => Enrich(lang, Extract(lang, f, env), f, env, c)
  }

  datatype Stage = Stage(graph: GraphValue, collected: Collected)

  /** The nodes (and "contains" edges) the loop over the kept files adds. */
  function FileNodes(g: GraphValue, files: seq<FileRecord>, opts: Options): GraphValue
    decreases |files|
  {
    if files == [] then g else NodeStep(FileNodes(g, files[..|files| - 1], opts), files[|files| - 1], opts)
  }

  /** The fact records the loop over the kept files collects; None when a
      merge raised. */
  function FileFacts(c: Collected, files: seq<FileRecord>, env: Env): (r: Option<Collected>)
    ensures r.Some? && Consistent(c) ==> Consistent(r.value)
    decreases |files|
  {
    if files == [] then Some(c)
    else
      match FileFacts(c, files[..|files| - 1], env)
      case None => None
      case Some(prior) => FactStep(prior, files[|files| - 1], env)
  }

  /** The loop over the kept files: for each, its node, then its fact record.
      The node steps do not depend on the records, and a raised merge discards
      the graph, so the two are folded separately. */
  function FileStage(s: Stage, files: seq<FileRecord>, opts: Options, env: Env): (r: Option<Stage>)
    ensures r.Some? && Consistent(s.collected) ==> Consistent(r.value.collected)
  {
    match FileFacts(s.collected, files, env)
    case None => None
    case Some(c) => Some(Stage(FileNodes(s.graph, files, opts), c))
  }

  // ---------------------------------------------------------------------------
  // Cross-reference edges

  function CallEdge(name: string): EdgeAttrs {
    EdgeAttrs(Some("calls_function_" + name), Some("#FF4444"), Some(2))
  }

  const ImportEdge := EdgeAttrs(Some("imports"), Some("#4444FF"), Some(3))

  function LinkEdge(kind: string): EdgeAttrs {
    EdgeAttrs(Some(kind), Some("#44FF44"), Some(1))
  }

  /** The link keys of a record and the edge type each gives. */
  const LinkKinds: seq<(string, string)> :=
    [(CssLinksKey, "css_link"), (JsLinksKey, "js_link"), (ImageLinksKey, "image_link"), (OtherLinksKey, "other_link")]

  /** One call edge write per function of the target, in order, that the
      source calls. */
  function CallWrites(functions: seq<string>, calls: seq<string>): seq<EdgeAttrs>
    decreases |functions|
  {
    if functions == [] then []
    else
      var name := functions[|functions| - 1];
      CallWrites(functions[..|functions| - 1], calls) + (if name in calls then [CallEdge(name)] else [])
  }

  /** An import names the target: it contains the target's extension-less
      basename, its path relative to the source's directory, or its full path
      (backslashes read as slashes). */
  predicate ImportNames(imp: string, stem: string, rel: string, full: string) {
    Contains(imp, stem) || Contains(imp, ReplaceChar(rel, '\\', '/')) || Contains(imp, ReplaceChar(full, '\\', '/'))
  }

  function ImportWrites(imports: seq<string>, stem: string, rel: string, full: string): seq<EdgeAttrs>
    decreases |imports|
  {
    if imports == [] then []
    else
      var imp := imports[|imports| - 1];
      ImportWrites(imports[..|imports| - 1], stem, rel, full) + (if ImportNames(imp, stem, rel, full) then [ImportEdge] else [])
  }

  /** One write of the given kind per link that contains the target's basename. */
  function LinkWrites(links: seq<string>, base: string, kind: string): seq<EdgeAttrs>
    decreases |links|
  {
    if links == [] then []
    else
      var link := links[|links| - 1];
      LinkWrites(links[..|links| - 1], base, kind) + (if Contains(link, base) then [LinkEdge(kind)] else [])
  }

  function AllLinkWrites(deps: Facts, base: string, kinds: seq<(string, string)>): seq<EdgeAttrs>
    decreases |kinds|
  {
    if kinds == [] then []
    else
      var k := kinds[|kinds| - 1];
      AllLinkWrites(deps, base, kinds[..|kinds| - 1]) + LinkWrites(Get(deps, k.0), base, k.1)
  }

  /** The target's function names, from its record if it has one. */
  function TargetFunctions(facts: map<string, Facts>, b: string): seq<string> {
    if b in facts then Get(facts[b], FunctionsKey) else []
  }

  /** The edge writes for the pair (a, b) in the order they happen: calls, then
      imports, then links by kind. None when `relpath` raises (b is empty). */
  function PairWrites(a: string, deps: Facts, b: string, facts: map<string, Facts>, opts: Options, cwd: string)
    : Option<seq<EdgeAttrs>>
  {
    var calls := if opts.FunctionCalls() then CallWrites(TargetFunctions(facts, b), Get(deps, FunctionCallsKey)) else [];
    var rel := Relpath(cwd, b, Dirname(a));
    if opts.Imports() && rel.None? then None
    else
      var imports := if opts.Imports() then ImportWrites(Get(deps, ImportsKey), Stem(b), rel.value, b) else [];
      var links := if opts.FileLinks() then AllLinkWrites(deps, Basename(b), LinkKinds) else [];
      Some(calls + imports + links)
  }

  /** The writes applied to the pair's single edge, one `add_edge` each. */
  function ApplyWrites(g: GraphValue, a: string, b: string, writes: seq<EdgeAttrs>): GraphValue
    decreases |writes|
  {
    if writes == [] then g else AddEdgeV(ApplyWrites(g, a, b, writes[..|writes| - 1]), a, b, writes[|writes| - 1])
  }

  /** The inner loop: source a against every kept file except itself. */
  function CrossFrom(g: GraphValue, a: string, deps: Facts, files: seq<FileRecord>,
                     facts: map<string, Facts>, opts: Options, cwd: string): Option<GraphValue>
    decreases |files|
  {
    if files == [] then Some(g)
    else
      match CrossFrom(g, a, deps, files[..|files| - 1], facts, opts, cwd)
      case None => None
      case Some(prior) =>
        var b := files[|files| - 1].path;
        if a == b then Some(prior)
        else
          match PairWrites(a, deps, b, facts, opts, cwd)
          case None => None
          case Some(ws) => Some(ApplyWrites(prior, a, b, ws))
  }

  /** The outer loop: every path with a record, in insertion order. */
  function CrossStage(g: GraphValue, order: seq<string>, facts: map<string, Facts>, files: seq<FileRecord>,
                      opts: Options, cwd: string): Option<GraphValue>
    requires forall p :: p in order ==> p in facts
    decreases |order|
  {
    if order == [] then Some(g)
    else
      match CrossStage(g, order[..|order| - 1], facts, files, opts, cwd)
      case None => None
      case Some(prior) =>
        var a := order[|order| - 1];
        CrossFrom(prior, a, facts[a], files, facts, opts, cwd)
  }

  // ---------------------------------------------------------------------------
  // The whole build

  /** The graph before enrichment and cross-referencing: directory nodes only. */
  function InitialGraph(dirs: seq<string>, opts: Options): GraphValue {
    if opts.FolderStructure() then DirStage(EmptyGraph, dirs) else EmptyGraph
  }

  /** The build up to the cross-reference stage; None when it raises. */
  function Unpruned(files: seq<FileRecord>, dirs: seq<string>, opts: Options, env: Env): Option<Stage> {
    var kept := FilterFiles(files);
    match FileStage(Stage(InitialGraph(dirs, opts), NoFacts), kept, opts, env)
    case None => None
    case Some(s) =>
      assert Consistent(NoFacts);
      match CrossStage(s.graph, s.collected.order, s.collected.facts, kept, opts, env.cwd)
      case None => None
      case Some(g) => Some(Stage(g, s.collected))
  }

  /** The whole build: the unpruned graph, pruned once. */
  function Build(files: seq<FileRecord>, dirs: seq<string>, opts: Options, env: Env): Option<Stage> {
    match Unpruned(files, dirs, opts, env)
    case None => None
    case Some(s) => Some(Stage(PruneV(s.graph, opts.MinConnections()), s.collected))
  }

  // ---------------------------------------------------------------------------
  // How the stages compose

  /** Writes applied in two batches are the writes applied in one. */
  lemma {:induction false} ApplyWritesAppend(g: GraphValue, a: string, b: string, xs: seq<EdgeAttrs>, ys: seq<EdgeAttrs>)
    ensures ApplyWrites(g, a, b, xs + ys) == ApplyWrites(ApplyWrites(g, a, b, xs), a, b, ys)
    decreases |ys|
  {
    if ys == [] {
      assert xs + ys == xs;
    } else {
      var init := ys[..|ys| - 1];
      assert (xs + ys)[..|xs + ys| - 1] == xs + init;
      ApplyWritesAppend(g, a, b, xs, init);
    }
  }

  /** One more write is one more `add_edge`. */
  lemma ApplyWritesSnoc(g: GraphValue, a: string, b: string, ws: seq<EdgeAttrs>, w: EdgeAttrs)
    ensures ApplyWrites(g, a, b, ws + [w]) == AddEdgeV(ApplyWrites(g, a, b, ws), a, b, w)
  {
    assert (ws + [w])[..|ws|] == ws;
  }

  lemma CallWritesStep(functions: seq<string>, k: nat, calls: seq<string>)
    requires k < |functions|
    ensures CallWrites(functions[..k + 1], calls)
            == CallWrites(functions[..k], calls) + (if functions[k] in calls then [CallEdge(functions[k])] else [])
  {
    assert functions[..k + 1][..k] == functions[..k];
  }

  lemma ImportWritesStep(imports: seq<string>, k: nat, stem: string, rel: string, full: string)
    requires k < |imports|
    ensures ImportWrites(imports[..k + 1], stem, rel, full)
            == ImportWrites(imports[..k], stem, rel, full) + (if ImportNames(imports[k], stem, rel, full) then [ImportEdge] else [])
  {
    assert imports[..k + 1][..k] == imports[..k];
  }

  lemma LinkWritesStep(links: seq<string>, k: nat, base: string, kind: string)
    requires k < |links|
    ensures LinkWrites(links[..k + 1], base, kind)
            == LinkWrites(links[..k], base, kind) + (if Contains(links[k], base) then [LinkEdge(kind)] else [])
  {
    assert links[..k + 1][..k] == links[..k];
  }

  lemma AllLinkWritesStep(deps: Facts, base: string, kinds: seq<(string, string)>, k: nat)
    requires k < |kinds|
    ensures AllLinkWrites(deps, base, kinds[..k + 1])
            == AllLinkWrites(deps, base, kinds[..k]) + LinkWrites(Get(deps, kinds[k].0), base, kinds[k].1)
  {
    assert kinds[..k + 1][..k] == kinds[..k];
  }

  /** The record loop over one more file. */
  lemma FileFactsSnoc(c: Collected, files: seq<FileRecord>, k: nat, env: Env)
    requires k < |files| && FileFacts(c, files[..k], env).Some?
    ensures FileFacts(c, files[..k + 1], env) == FactStep(FileFacts(c, files[..k], env).value, files[k], env)
  {
    assert files[..k + 1][..k] == files[..k];
  }

  lemma FileNodesSnoc(g: GraphValue, files: seq<FileRecord>, k: nat, opts: Options)
    requires k < |files|
    ensures FileNodes(g, files[..k + 1], opts) == NodeStep(FileNodes(g, files[..k], opts), files[k], opts)
  {
    assert files[..k + 1][..k] == files[..k];
  }

  /** Once the record loop has raised, the rest of the files do not matter. */
  lemma {:induction false} FileFactsRaises(c: Collected, files: seq<FileRecord>, k: nat, env: Env)
    requires k <= |files| && FileFacts(c, files[..k], env).None?
    ensures FileFacts(c, files, env).None?
    decreases |files|
  {
    if k < |files| {
      assert files[..|files| - 1][..k] == files[..k];
      FileFactsRaises(c, files[..|files| - 1], k, env);
    } else {
      assert files[..k] == files;
    }
  }

  lemma {:induction false} CrossFromRaises(g: GraphValue, a: string, deps: Facts, files: seq<FileRecord>, k: nat,
                                           facts: map<string, Facts>, opts: Options, cwd: string)
    requires k <= |files| && CrossFrom(g, a, deps, files[..k], facts, opts, cwd).None?
    ensures CrossFrom(g, a, deps, files, facts, opts, cwd).None?
    decreases |files|
  {
    if k < |files| {
      assert files[..|files| - 1][..k] == files[..k];
      CrossFromRaises(g, a, deps, files[..|files| - 1], k, facts, opts, cwd);
    } else {
      assert files[..k] == files;
    }
  }

  lemma {:induction false} CrossStageRaises(g: GraphValue, order: seq<string>, k: nat, facts: map<string, Facts>,
                                            files: seq<FileRecord>, opts: Options, cwd: string)
    requires forall p :: p in order ==> p in facts
    requires k <= |order|
    requires forall p :: p in order[..k] ==> p in facts
    requires CrossStage(g, order[..k], facts, files, opts, cwd).None?
    ensures CrossStage(g, order, facts, files, opts, cwd).None?
    decreases |order|
  {
    if k < |order| {
      var init := order[..|order| - 1];
      assert init[..k] == order[..k];
      assert forall p :: p in init ==> p in order;
      CrossStageRaises(g, init, k, facts, files, opts, cwd);
    } else {
      assert order[..k] == order;
    }
  }

  // ---------------------------------------------------------------------------
  // Properties: filtering and the file loop

  /** The skip words are substrings, not path components: `.github/...` is
      dropped along with `.git/...`. */
  lemma GithubDirDropped(content: string, size: int, dir: string)
    ensures !Keep(FileRecord(".github/workflows/ci.yml", content, size, dir))
  {
    var p := ".github/workflows/ci.yml";
    assert SkipParts[0] <= p;
  }

  /** How many of the files get an enrichment attempt when a client is set. */
  function ScriptCount(files: seq<FileRecord>): nat
    decreases |files|
  {
    if files == [] then 0
    else
      var f := files[|files| - 1];
      ScriptCount(files[..|files| - 1])
      + (if LanguageOf(f) == Some(PythonLanguage) || LanguageOf(f) == Some(ScriptLanguage) then 1 else 0)
  }

  /** The enrichment step's effect on the record table and the counters. */
  lemma EnrichFacts(lang: Language, deps: Facts, f: FileRecord, env: Env, c: Collected)
    requires Enrich(lang, deps, f, env, c).Some?
    ensures var r := Enrich(lang, deps, f, env, c).value;
      && r.facts.Keys == c.facts.Keys + {f.path}
      && r.success + r.failed == c.success + c.failed
         + (if env.hasClient && (lang == PythonLanguage || lang == ScriptLanguage) then 1 else 0)
  {
  }

  /** With a client, a non-empty answer counts a success and the record kept is
      the merged one; an empty answer counts a failure and the record is kept
      as extracted. */
  lemma EnrichOutcome(lang: Language, deps: Facts, f: FileRecord, env: Env, c: Collected)
    requires (lang == PythonLanguage || lang == ScriptLanguage) && env.hasClient
    requires Enrich(lang, deps, f, env, c).Some?
    ensures var ai := AiResult(true, env.respond(f.content, f.path));
      var r := Enrich(lang, deps, f, env, c).value;
      && (ai == map[] ==> r.failed == c.failed + 1 && r.success == c.success && r.facts[f.path] == deps)
      && (ai != map[] ==> r.success == c.success + 1 && r.failed == c.failed && Merged(deps, ai) == Some(r.facts[f.path]))
  {
  }

  /** One file's record step: a record appears for the file iff it has content
      and a supported extension, and the counters move only for an enriched
      Python or JavaScript file. */
  lemma FactStepFacts(c: Collected, f: FileRecord, env: Env)
    requires FactStep(c, f, env).Some?
    ensures var r := FactStep(c, f, env).value;
      && r.facts.Keys == c.facts.Keys + (if LanguageOf(f).Some? then {f.path} else {})
      && r.success + r.failed == c.success + c.failed
         + (if env.hasClient && (LanguageOf(f) == Some(PythonLanguage) || LanguageOf(f) == Some(ScriptLanguage)) then 1 else 0)
  {
    if LanguageOf(f).Some? {
      var lang := LanguageOf(f).value;
      EnrichFacts(lang, Extract(lang, f, env), f, env, c);
    }
  }

  /** One file's node step: the file becomes a node, existing nodes stay. */
  lemma NodeStepNodes(g: GraphValue, f: FileRecord, opts: Options)
    ensures var r := NodeStep(g, f, opts);
      && r.nodes.Keys >= g.nodes.Keys + {f.path}
      && (Closed(g) ==> Closed(r))
  {
  }

  /** x is one of the files. */
  lemma InLast(files: seq<FileRecord>, x: FileRecord)
    requires files != []
    ensures x in files <==> x in files[..|files| - 1] || x == files[|files| - 1]
  {
    assert files == files[..|files| - 1] + [files[|files| - 1]];
  }

  /** After the file loop every kept file is a node and the graph stays closed. */
  lemma {:induction false} FileNodesCover(g: GraphValue, files: seq<FileRecord>, opts: Options)
    ensures var r := FileNodes(g, files, opts);
      && g.nodes.Keys <= r.nodes.Keys
      && (forall f :: f in files ==> f.path in r.nodes)
      && (Closed(g) ==> Closed(r))
    decreases |files|
  {
    if files != [] {
      var init := files[..|files| - 1];
      var f := files[|files| - 1];
      FileNodesCover(g, init, opts);
      NodeStepNodes(FileNodes(g, init, opts), f, opts);
      forall x | x in files ensures x.path in FileNodes(g, files, opts).nodes {
        InLast(files, x);
      }
    }
  }

  /** The files among `files` that get a record. */
  predicate HasRecord(files: seq<FileRecord>, p: string) {
    exists f :: f in files && f.path == p && LanguageOf(f).Some?
  }

  /** One more file has a record iff it did before or it is that file with
      content and a supported extension. */
  lemma HasRecordSnoc(init: seq<FileRecord>, f: FileRecord, p: string)
    ensures HasRecord(init + [f], p) <==> HasRecord(init, p) || (p == f.path && LanguageOf(f).Some?)
  {
    if HasRecord(init + [f], p) {
      var x :| x in init + [f] && x.path == p && LanguageOf(x).Some?;
      if x != f {
        assert x in init;
      }
    }
    if HasRecord(init, p) {
      var x :| x in init && x.path == p && LanguageOf(x).Some?;
      assert x in init + [f];
    }
    if p == f.path && LanguageOf(f).Some? {
      assert f in init + [f];
    }
  }

  lemma HasRecordLast(files: seq<FileRecord>, p: string)
    requires files != []
    ensures HasRecord(files, p) <==>
      HasRecord(files[..|files| - 1], p) || (p == files[|files| - 1].path && LanguageOf(files[|files| - 1]).Some?)
  {
    if HasRecord(files, p) {
      var x :| x in files && x.path == p && LanguageOf(x).Some?;
      InLast(files, x);
    }
    if HasRecord(files[..|files| - 1], p) {
      var x :| x in files[..|files| - 1] && x.path == p && LanguageOf(x).Some?;
      InLast(files, x);
    }
    InLast(files, files[|files| - 1]);
  }

  /** After the file loop exactly the files with content and a supported
      extension have a record. */
  lemma {:induction false} FileFactsRecords(c: Collected, files: seq<FileRecord>, env: Env)
    requires FileFacts(c, files, env).Some?
    ensures forall p :: p in FileFacts(c, files, env).value.facts <==> p in c.facts || HasRecord(files, p)
    decreases |files|
  {
    if files != [] {
      var init := files[..|files| - 1];
      var f := files[|files| - 1];
      FileFactsRecords(c, init, env);
      FactStepFacts(FileFacts(c, init, env).value, f, env);
      forall p ensures HasRecord(files, p) <==> HasRecord(init, p) || (p == f.path && LanguageOf(f).Some?) {
        HasRecordLast(files, p);
      }
    }
  }

  /** Each Python or JavaScript file moves one enrichment counter when a client
      is configured, and none moves otherwise. */
  lemma {:induction false} FileFactsCounts(c: Collected, files: seq<FileRecord>, env: Env)
    requires FileFacts(c, files, env).Some?
    ensures FileFacts(c, files, env).value.success + FileFacts(c, files, env).value.failed
      == c.success + c.failed + (if env.hasClient then ScriptCount(files) else 0)
    decreases |files|
  {
    if files != [] {
      var init := files[..|files| - 1];
      FileFactsCounts(c, init, env);
      FactStepFacts(FileFacts(c, init, env).value, files[|files| - 1], env);
    }
  }

  // ---------------------------------------------------------------------------
  // Properties: the edge rules

  /** A call write happens iff some function of the target is called by the
      source, and each one names such a function. */
  lemma {:induction false} CallWritesIff(functions: seq<string>, calls: seq<string>)
    ensures CallWrites(functions, calls) != [] <==> exists name :: name in functions && name in calls
    ensures forall w :: w in CallWrites(functions, calls) ==>
      exists name :: name in functions && name in calls && w == CallEdge(name)
    decreases |functions|
  {
    if functions != [] {
      var init := functions[..|functions| - 1];
      var last := functions[|functions| - 1];
      CallWritesIff(init, calls);
      assert forall x :: x in functions <==> x in init || x == last by {
        assert functions == init + [last];
      }
    }
  }

  /** The call writes work function by function: the writes of a
      concatenation are the writes of its parts, one per called function. */
  lemma {:induction false} CallWritesAppend(xs: seq<string>, ys: seq<string>, calls: seq<string>)
    ensures CallWrites(xs + ys, calls) == CallWrites(xs, calls) + CallWrites(ys, calls)
    decreases |ys|
  {
    if ys == [] {
      assert xs + ys == xs;
    } else {
      var init := ys[..|ys| - 1];
      assert (xs + ys)[..|xs + ys| - 1] == xs + init;
      CallWritesAppend(xs, init, calls);
    }
  }

  /** One function gives one labelled write when it is called, none otherwise. */
  lemma CallWritesSingle(name: string, calls: seq<string>)
    ensures CallWrites([name], calls) == (if name in calls then [CallEdge(name)] else [])
  {
    assert [name][..0] == [];
  }

  /** The last call write is labelled with the last of the target's functions
      that the source calls. */
  lemma {:induction false} CallWritesLast(functions: seq<string>, calls: seq<string>)
    ensures CallWrites(functions, calls) != [] ==>
      exists k :: 0 <= k < |functions| && functions[k] in calls
        && CallWrites(functions, calls)[|CallWrites(functions, calls)| - 1] == CallEdge(functions[k])
        && forall j :: k < j < |functions| ==> functions[j] !in calls
    decreases |functions|
  {
    if functions != [] {
      var init := functions[..|functions| - 1];
      var last := functions[|functions| - 1];
      if last in calls {
        assert CallWrites(functions, calls)[|CallWrites(functions, calls)| - 1] == CallEdge(functions[|functions| - 1]);
      } else {
        CallWritesLast(init, calls);
        assert CallWrites(functions, calls) == CallWrites(init, calls) + [];
        if CallWrites(init, calls) != [] {
          var k :| 0 <= k < |init| && init[k] in calls
            && CallWrites(init, calls)[|CallWrites(init, calls)| - 1] == CallEdge(init[k])
            && forall j :: k < j < |init| ==> init[j] !in calls;
          assert functions[k] == init[k];
          forall j | k < j < |functions| ensures functions[j] !in calls {
            if j < |init| { assert functions[j] == init[j]; }
          }
        }
      }
    }
  }

  lemma {:induction false} ImportWritesIff(imports: seq<string>, stem: string, rel: string, full: string)
    ensures ImportWrites(imports, stem, rel, full) != [] <==>
      exists imp :: imp in imports && ImportNames(imp, stem, rel, full)
    ensures forall w :: w in ImportWrites(imports, stem, rel, full) ==> w == ImportEdge
    decreases |imports|
  {
    if imports != [] {
      var init := imports[..|imports| - 1];
      var last := imports[|imports| - 1];
      ImportWritesIff(init, stem, rel, full);
      assert forall x :: x in imports <==> x in init || x == last by {
        assert imports == init + [last];
      }
    }
  }

  lemma {:induction false} LinkWritesIff(links: seq<string>, base: string, kind: string)
    ensures LinkWrites(links, base, kind) != [] <==> exists link :: link in links && Contains(link, base)
    ensures forall w :: w in LinkWrites(links, base, kind) ==> w == LinkEdge(kind)
    decreases |links|
  {
    if links != [] {
      var init := links[..|links| - 1];
      var last := links[|links| - 1];
      LinkWritesIff(init, base, kind);
      assert links == init + [last];
      if exists link :: link in links && Contains(link, base) {
        var link :| link in links && Contains(link, base);
        if link != last {
          assert link in init;
        }
      }
    }
  }

  /** Some link of the record, of one of the link kinds, contains base. */
  predicate LinksTo(deps: Facts, base: string, kinds: seq<(string, string)>) {
    exists j, link :: 0 <= j < |kinds| && link in Get(deps, kinds[j].0) && Contains(link, base)
  }

  lemma LinksToSnoc(deps: Facts, base: string, init: seq<(string, string)>, k: (string, string))
    ensures LinksTo(deps, base, init + [k]) <==>
      LinksTo(deps, base, init) || exists link :: link in Get(deps, k.0) && Contains(link, base)
  {
    var kinds := init + [k];
    if LinksTo(deps, base, kinds) {
      var j, link :| 0 <= j < |kinds| && link in Get(deps, kinds[j].0) && Contains(link, base);
      if j < |init| {
        assert init[j] == kinds[j];
      }
    }
    if LinksTo(deps, base, init) {
      var j, link :| 0 <= j < |init| && link in Get(deps, init[j].0) && Contains(link, base);
      assert kinds[j] == init[j];
    }
    if exists link :: link in Get(deps, k.0) && Contains(link, base) {
      var link :| link in Get(deps, k.0) && Contains(link, base);
      assert kinds[|init|] == k;
    }
  }

  lemma {:induction false} AllLinkWritesIff(deps: Facts, base: string, kinds: seq<(string, string)>)
    ensures AllLinkWrites(deps, base, kinds) != [] <==> LinksTo(deps, base, kinds)
    decreases |kinds|
  {
    if kinds == [] {
      assert !LinksTo(deps, base, kinds);
    } else {
      var init := kinds[..|kinds| - 1];
      var k := kinds[|kinds| - 1];
      AllLinkWritesIff(deps, base, init);
      LinkWritesIff(Get(deps, k.0), base, k.1);
      LinksToSnoc(deps, base, init, k);
      assert init + [k] == kinds;
    }
  }

  /** Which rules fire for the pair (a, b), each under its option. */
  predicate CallRule(deps: Facts, b: string, facts: map<string, Facts>, opts: Options) {
    opts.FunctionCalls() && exists name :: name in TargetFunctions(facts, b) && name in Get(deps, FunctionCallsKey)
  }

  predicate ImportRule(a: string, deps: Facts, b: string, opts: Options, cwd: string)
    requires b != ""
  {
    opts.Imports() && exists imp :: imp in Get(deps, ImportsKey) && ImportNames(imp, Stem(b), Relpath(cwd, b, Dirname(a)).value, b)
  }

  predicate LinkRule(deps: Facts, b: string, opts: Options) {
    opts.FileLinks() && LinksTo(deps, Basename(b), LinkKinds)
  }

  /** The pair's writes: raised iff the import rule must resolve an empty path;
      otherwise non-empty iff the call, import or link rule fires. */
  lemma PairWritesIff(a: string, deps: Facts, b: string, facts: map<string, Facts>, opts: Options, cwd: string)
    ensures PairWrites(a, deps, b, facts, opts, cwd).None? <==> opts.Imports() && b == ""
    ensures b != "" ==> (PairWrites(a, deps, b, facts, opts, cwd).value != [] <==>
      CallRule(deps, b, facts, opts) || ImportRule(a, deps, b, opts, cwd) || LinkRule(deps, b, opts))
  {
    if b != "" {
      var rel := Relpath(cwd, b, Dirname(a)).value;
      var calls := if opts.FunctionCalls() then CallWrites(TargetFunctions(facts, b), Get(deps, FunctionCallsKey)) else [];
      var imports := if opts.Imports() then ImportWrites(Get(deps, ImportsKey), Stem(b), rel, b) else [];
      var links := if opts.FileLinks() then AllLinkWrites(deps, Basename(b), LinkKinds) else [];
      assert PairWrites(a, deps, b, facts, opts, cwd) == Some(calls + imports + links);
      CallWritesIff(TargetFunctions(facts, b), Get(deps, FunctionCallsKey));
      ImportWritesIff(Get(deps, ImportsKey), Stem(b), rel, b);
      AllLinkWritesIff(deps, Basename(b), LinkKinds);
      assert calls != [] <==> CallRule(deps, b, facts, opts);
      assert imports != [] <==> ImportRule(a, deps, b, opts, cwd);
      assert links != [] <==> LinkRule(deps, b, opts);
      assert calls + imports + links != [] <==> calls != [] || imports != [] || links != [] by {
        assert |calls + imports + links| == |calls| + |imports| + |links|;
      }
    }
  }

  /** Every write sets all three attributes. */
  predicate FullWrite(w: EdgeAttrs) {
    w.edgeType.Some? && w.color.Some? && w.weight.Some?
  }

  lemma PairWritesFull(a: string, deps: Facts, b: string, facts: map<string, Facts>, opts: Options, cwd: string)
    requires PairWrites(a, deps, b, facts, opts, cwd).Some?
    ensures forall w :: w in PairWrites(a, deps, b, facts, opts, cwd).value ==> FullWrite(w)
  {
    CallWritesIff(TargetFunctions(facts, b), Get(deps, FunctionCallsKey));
    if opts.Imports() {
      ImportWritesIff(Get(deps, ImportsKey), Stem(b), Relpath(cwd, b, Dirname(a)).value, b);
    }
    forall w | w in AllLinkWrites(deps, Basename(b), LinkKinds) ensures FullWrite(w) {
      AllLinkWritesFull(deps, Basename(b), LinkKinds, w);
    }
  }

  lemma {:induction false} AllLinkWritesFull(deps: Facts, base: string, kinds: seq<(string, string)>, w: EdgeAttrs)
    requires w in AllLinkWrites(deps, base, kinds)
    ensures FullWrite(w)
    decreases |kinds|
  {
    var k := kinds[|kinds| - 1];
    if w in AllLinkWrites(deps, base, kinds[..|kinds| - 1]) {
      AllLinkWritesFull(deps, base, kinds[..|kinds| - 1], w);
    } else {
      LinkWritesIff(Get(deps, k.0), base, k.1);
    }
  }

  /** Applying writes to one pair: the pair gets an edge iff there is a write,
      its attributes are the last write's when every write sets all of them,
      and nothing else changes. */
  lemma {:induction false} ApplyWritesEffect(g: GraphValue, a: string, b: string, ws: seq<EdgeAttrs>)
    ensures var r := ApplyWrites(g, a, b, ws);
      && r.edges.Keys == g.edges.Keys + (if ws == [] then {} else {(a, b)})
      && (forall n :: n in r.nodes <==> n in g.nodes || (ws != [] && (n == a || n == b)))
      && (forall n :: n in g.nodes ==> r.nodes[n] == g.nodes[n])
      && (forall e :: e in g.edges && e != (a, b) ==> r.edges[e] == g.edges[e])
      && (Closed(g) ==> Closed(r))
      && (ws != [] && FullWrite(ws[|ws| - 1]) ==> r.edges[(a, b)] == ws[|ws| - 1])
    decreases |ws|
  {
    if ws != [] {
      ApplyWritesEffect(g, a, b, ws[..|ws| - 1]);
    }
  }

  /** The surviving attributes of a pair's edge are those of the last rule that
      fired, in the order calls, imports, links. */
  lemma LastWriteWins(g: GraphValue, a: string, deps: Facts, b: string, facts: map<string, Facts>, opts: Options, cwd: string)
    requires PairWrites(a, deps, b, facts, opts, cwd).Some?
    requires PairWrites(a, deps, b, facts, opts, cwd).value != []
    ensures var ws := PairWrites(a, deps, b, facts, opts, cwd).value;
      ApplyWrites(g, a, b, ws).edges[(a, b)] == ws[|ws| - 1]
  {
    PairWritesFull(a, deps, b, facts, opts, cwd);
    LastFullWrite(g, a, b, PairWrites(a, deps, b, facts, opts, cwd).value);
  }

  lemma LastFullWrite(g: GraphValue, a: string, b: string, ws: seq<EdgeAttrs>)
    requires ws != [] && forall w :: w in ws ==> FullWrite(w)
    ensures ApplyWrites(g, a, b, ws).edges[(a, b)] == ws[|ws| - 1]
  {
    assert ws[|ws| - 1] in ws;
    ApplyWritesEffect(g, a, b, ws);
  }

  // ---------------------------------------------------------------------------
  // Properties: the cross-reference loops

  /** Some rule puts an edge from a to b. */
  predicate Fires(a: string, deps: Facts, b: string, facts: map<string, Facts>, opts: Options, cwd: string) {
    PairWrites(a, deps, b, facts, opts, cwd).Some? && PairWrites(a, deps, b, facts, opts, cwd).value != []
  }

  /** b is the path of one of the files. */
  predicate Targets(files: seq<FileRecord>, b: string) {
    exists f :: f in files && f.path == b
  }

  lemma TargetsSnoc(init: seq<FileRecord>, f: FileRecord, b: string)
    ensures Targets(init + [f], b) <==> Targets(init, b) || b == f.path
  {
    if Targets(init + [f], b) {
      var x :| x in init + [f] && x.path == b;
      if x != f {
        assert x in init;
      }
    }
    if Targets(init, b) {
      var x :| x in init && x.path == b;
      assert x in init + [f];
    }
    assert f in init + [f];
  }

  lemma CrossFromStep(g: GraphValue, a: string, deps: Facts, files: seq<FileRecord>,
                      facts: map<string, Facts>, opts: Options, cwd: string)
    requires files != [] && CrossFrom(g, a, deps, files, facts, opts, cwd).Some?
    ensures var prior := CrossFrom(g, a, deps, files[..|files| - 1], facts, opts, cwd);
      var b := files[|files| - 1].path;
      && prior.Some?
      && (a == b ==> CrossFrom(g, a, deps, files, facts, opts, cwd) == prior)
      && (a != b ==> (PairWrites(a, deps, b, facts, opts, cwd).Some?
            && CrossFrom(g, a, deps, files, facts, opts, cwd).value
               == ApplyWrites(prior.value, a, b, PairWrites(a, deps, b, facts, opts, cwd).value)))
  {
  }

  /** The inner loop adds an edge from a to each other file some rule fires
      for, and no other edge; edges leaving other nodes keep their attributes. */
  lemma {:induction false} CrossFromEdges(g: GraphValue, a: string, deps: Facts, files: seq<FileRecord>,
                                          facts: map<string, Facts>, opts: Options, cwd: string)
    requires CrossFrom(g, a, deps, files, facts, opts, cwd).Some?
    ensures var r := CrossFrom(g, a, deps, files, facts, opts, cwd).value;
      && (forall e :: e in r.edges <==>
            e in g.edges || (e.0 == a && e.1 != a && Targets(files, e.1) && Fires(a, deps, e.1, facts, opts, cwd)))
      && (forall e :: e in g.edges && e.0 != a ==> r.edges[e] == g.edges[e])
    decreases |files|
  {
    if files != [] {
      var init := files[..|files| - 1];
      var f := files[|files| - 1];
      CrossFromStep(g, a, deps, files, facts, opts, cwd);
      CrossFromEdges(g, a, deps, init, facts, opts, cwd);
      var prior := CrossFrom(g, a, deps, init, facts, opts, cwd).value;
      var r := CrossFrom(g, a, deps, files, facts, opts, cwd).value;
      var ws := if a == f.path then [] else PairWrites(a, deps, f.path, facts, opts, cwd).value;
      assert r == ApplyWrites(prior, a, f.path, ws);
      assert files == init + [f];
      forall x ensures Targets(files, x) <==> Targets(init, x) || x == f.path {
        TargetsSnoc(init, f, x);
      }
      EdgesStep(g, prior, r, a, f.path, ws,
                x => Targets(init, x), x => Targets(files, x), x => Fires(a, deps, x, facts, opts, cwd));
    }
  }

  /** One file's writes add the edge to it iff some rule fires, and touch no
      other edge. */
  lemma EdgesStep(g: GraphValue, prior: GraphValue, r: GraphValue, a: string, b: string, ws: seq<EdgeAttrs>,
                  before: string -> bool, after: string -> bool, fires: string -> bool)
    requires r == ApplyWrites(prior, a, b, ws)
    requires a == b ==> ws == []
    requires a != b ==> (ws != [] <==> fires(b))
    requires forall x :: after(x) <==> before(x) || x == b
    requires forall e :: e in prior.edges <==> e in g.edges || (e.0 == a && e.1 != a && before(e.1) && fires(e.1))
    requires forall e :: e in g.edges && e.0 != a ==> prior.edges[e] == g.edges[e]
    ensures forall e :: e in r.edges <==> e in g.edges || (e.0 == a && e.1 != a && after(e.1) && fires(e.1))
    ensures forall e :: e in g.edges && e.0 != a ==> r.edges[e] == g.edges[e]
  {
    ApplyWritesEffect(prior, a, b, ws);
  }

  /** The inner loop keeps the attributes of existing nodes and the graph
      closed, and adds no node when a and the files are already nodes. */
  lemma {:induction false} CrossFromNodes(g: GraphValue, a: string, deps: Facts, files: seq<FileRecord>,
                                          facts: map<string, Facts>, opts: Options, cwd: string)
    requires CrossFrom(g, a, deps, files, facts, opts, cwd).Some?
    ensures forall n :: n in g.nodes ==>
      n in CrossFrom(g, a, deps, files, facts, opts, cwd).value.nodes
      && CrossFrom(g, a, deps, files, facts, opts, cwd).value.nodes[n] == g.nodes[n]
    ensures a in g.nodes && (forall f :: f in files ==> f.path in g.nodes) ==>
      CrossFrom(g, a, deps, files, facts, opts, cwd).value.nodes.Keys == g.nodes.Keys
    ensures Closed(g) ==> Closed(CrossFrom(g, a, deps, files, facts, opts, cwd).value)
    decreases |files|
  {
    if files != [] {
      var init := files[..|files| - 1];
      var f := files[|files| - 1];
      CrossFromStep(g, a, deps, files, facts, opts, cwd);
      CrossFromNodes(g, a, deps, init, facts, opts, cwd);
      var prior := CrossFrom(g, a, deps, init, facts, opts, cwd).value;
      var r := CrossFrom(g, a, deps, files, facts, opts, cwd).value;
      var ws := if a == f.path then [] else PairWrites(a, deps, f.path, facts, opts, cwd).value;
      assert r == ApplyWrites(prior, a, f.path, ws);
      var all := a in g.nodes && (forall x :: x in files ==> x.path in g.nodes);
      if all {
        PathsInit(files, g.nodes.Keys);
      }
      NodesStep(g, prior, r, a, f.path, ws, all);
    }
  }

  /** Every path of a non-empty list, and so of its prefix and its last file, lies in s. */
  lemma PathsInit(files: seq<FileRecord>, s: set<string>)
    requires files != [] && forall x :: x in files ==> x.path in s
    ensures forall x :: x in files[..|files| - 1] ==> x.path in s
    ensures files[|files| - 1].path in s
  {
    assert files[|files| - 1] in files;
    forall x | x in files[..|files| - 1] ensures x.path in s {
      var k :| 0 <= k < |files| - 1 && files[..|files| - 1][k] == x;
      assert files[k] == x;
    }
  }

  /** One file's writes keep the nodes of g that the earlier files kept. */
  lemma NodesStep(g: GraphValue, prior: GraphValue, r: GraphValue, a: string, b: string, ws: seq<EdgeAttrs>, all: bool)
    requires r == ApplyWrites(prior, a, b, ws)
    requires forall n :: n in g.nodes ==> n in prior.nodes && prior.nodes[n] == g.nodes[n]
    requires all ==> prior.nodes.Keys == g.nodes.Keys && a in g.nodes && b in g.nodes
    ensures forall n :: n in g.nodes ==> n in r.nodes && r.nodes[n] == g.nodes[n]
    ensures all ==> r.nodes.Keys == g.nodes.Keys
    ensures Closed(prior) ==> Closed(r)
  {
    ApplyWritesEffect(prior, a, b, ws);
  }

  /** An edge the cross-reference stage adds: from a path with a record to
      another file's path, where some rule fires. */
  predicate CrossEdge(e: Edge, facts: map<string, Facts>, files: seq<FileRecord>, opts: Options, cwd: string) {
    e.0 in facts && e.1 != e.0 && Targets(files, e.1) && Fires(e.0, facts[e.0], e.1, facts, opts, cwd)
  }

  lemma CrossStageStep(g: GraphValue, order: seq<string>, facts: map<string, Facts>, files: seq<FileRecord>,
                       opts: Options, cwd: string)
    requires forall p :: p in order ==> p in facts
    requires order != [] && CrossStage(g, order, facts, files, opts, cwd).Some?
    ensures forall p :: p in order[..|order| - 1] ==> p in facts
    ensures var prior := CrossStage(g, order[..|order| - 1], facts, files, opts, cwd);
      var a := order[|order| - 1];
      && prior.Some?
      && CrossStage(g, order, facts, files, opts, cwd) == CrossFrom(prior.value, a, facts[a], files, facts, opts, cwd)
  {
    assert forall p :: p in order[..|order| - 1] ==> p in order;
  }

  /** The outer loop: the edges added are exactly the cross edges whose source
      is in the order; with every source and file already a node, the node
      table is unchanged. */
  lemma {:induction false} CrossStageEffect(g: GraphValue, order: seq<string>, facts: map<string, Facts>,
                                            files: seq<FileRecord>, opts: Options, cwd: string)
    requires forall p :: p in order ==> p in facts
    requires CrossStage(g, order, facts, files, opts, cwd).Some?
    ensures var r := CrossStage(g, order, facts, files, opts, cwd).value;
      && (forall e :: e in r.edges <==> e in g.edges || (e.0 in order && CrossEdge(e, facts, files, opts, cwd)))
      && ((forall p :: p in order ==> p in g.nodes) && (forall f :: f in files ==> f.path in g.nodes) ==> r.nodes == g.nodes)
      && (Closed(g) ==> Closed(r))
    decreases |order|
  {
    if order != [] {
      var init := order[..|order| - 1];
      var a := order[|order| - 1];
      CrossStageStep(g, order, facts, files, opts, cwd);
      CrossStageEffect(g, init, facts, files, opts, cwd);
      var prior := CrossStage(g, init, facts, files, opts, cwd).value;
      CrossFromEdges(prior, a, facts[a], files, facts, opts, cwd);
      CrossFromNodes(prior, a, facts[a], files, facts, opts, cwd);
      assert order == init + [a];
      assert forall p :: p in order <==> p in init || p == a;
      if (forall p :: p in order ==> p in g.nodes) && (forall f :: f in files ==> f.path in g.nodes) {
        assert prior.nodes == g.nodes;
      }
    }
  }

  // ---------------------------------------------------------------------------
  // Properties: the whole build

  /** A "contains" edge from a file's directory node to the file. */
  predicate ContainsEdge(files: seq<FileRecord>, e: Edge) {
    exists f :: f in files && f.directory != "" && e == (DirNodeId(f.directory), f.path)
  }

  lemma ContainsEdgeSnoc(init: seq<FileRecord>, f: FileRecord, e: Edge)
    ensures ContainsEdge(init + [f], e) <==>
      ContainsEdge(init, e) || (f.directory != "" && e == (DirNodeId(f.directory), f.path))
  {
    if ContainsEdge(init + [f], e) {
      var x :| x in init + [f] && x.directory != "" && e == (DirNodeId(x.directory), x.path);
      if x != f {
        assert x in init;
      }
    }
    if ContainsEdge(init, e) {
      var x :| x in init && x.directory != "" && e == (DirNodeId(x.directory), x.path);
      assert x in init + [f];
    }
    assert f in init + [f];
  }

  /** The directory stage adds nodes only. */
  lemma {:induction false} DirStageEdges(g: GraphValue, dirs: seq<string>)
    ensures DirStage(g, dirs).edges == g.edges
    decreases |dirs|
  {
    if dirs != [] {
      DirStageEdges(g, dirs[..|dirs| - 1]);
    }
  }

  lemma ContainsEdgeLast(files: seq<FileRecord>, e: Edge)
    requires files != []
    ensures ContainsEdge(files, e) <==> (ContainsEdge(files[..|files| - 1], e)
      || (files[|files| - 1].directory != "" && e == (DirNodeId(files[|files| - 1].directory), files[|files| - 1].path)))
  {
    if ContainsEdge(files, e) {
      var x :| x in files && x.directory != "" && e == (DirNodeId(x.directory), x.path);
      InLast(files, x);
    }
    if ContainsEdge(files[..|files| - 1], e) {
      var x :| x in files[..|files| - 1] && x.directory != "" && e == (DirNodeId(x.directory), x.path);
      InLast(files, x);
    }
    InLast(files, files[|files| - 1]);
  }

  /** The file loop's edges are the "contains" edges, when the folder
      structure is shown, and none otherwise. */
  lemma {:induction false} FileNodesEdges(g: GraphValue, files: seq<FileRecord>, opts: Options)
    ensures forall e :: e in FileNodes(g, files, opts).edges <==>
      e in g.edges || (opts.FolderStructure() && ContainsEdge(files, e))
    decreases |files|
  {
    if files != [] {
      var init := files[..|files| - 1];
      FileNodesEdges(g, init, opts);
      forall e ensures ContainsEdge(files, e) <==> (ContainsEdge(init, e)
        || (files[|files| - 1].directory != "" && e == (DirNodeId(files[|files| - 1].directory), files[|files| - 1].path)))
      {
        ContainsEdgeLast(files, e);
      }
    }
  }

  lemma TargetsLast(files: seq<FileRecord>, b: string)
    requires files != []
    ensures Targets(files, b) <==> Targets(files[..|files| - 1], b) || b == files[|files| - 1].path
  {
    TargetsSnoc(files[..|files| - 1], files[|files| - 1], b);
    assert files[..|files| - 1] + [files[|files| - 1]] == files;
  }

  /** Without the folder structure a file step adds the file's node only. */
  lemma NodeStepPlain(g: GraphValue, f: FileRecord, opts: Options)
    requires !opts.FolderStructure()
    ensures forall n :: n in NodeStep(g, f, opts).nodes <==> n in g.nodes || n == f.path
  {
  }

  /** Without the folder structure the file loop adds exactly the files as nodes. */
  lemma {:induction false} FileNodesExact(g: GraphValue, files: seq<FileRecord>, opts: Options)
    requires !opts.FolderStructure()
    ensures forall n :: n in FileNodes(g, files, opts).nodes <==> n in g.nodes || Targets(files, n)
    decreases |files|
  {
    if files != [] {
      var init := files[..|files| - 1];
      FileNodesExact(g, init, opts);
      NodeStepPlain(FileNodes(g, init, opts), files[|files| - 1], opts);
      forall n ensures Targets(files, n) <==> Targets(init, n) || n == files[|files| - 1].path {
        TargetsLast(files, n);
      }
    }
  }

  /** The unpruned graph: a record exactly for each kept file with content
      and a supported extension; every kept file a node; no dangling edge; the
      edges exactly the "contains" edges (when shown) and the cross-reference
      edges between kept files; without the folder structure, the nodes exactly
      the kept files; and one enrichment counter moved per Python or
      JavaScript file when a client is configured. */
  lemma UnprunedShape(files: seq<FileRecord>, dirs: seq<string>, opts: Options, env: Env)
    requires Unpruned(files, dirs, opts, env).Some?
    ensures var s := Unpruned(files, dirs, opts, env).value;
      var kept := FilterFiles(files);
      && Consistent(s.collected)
      && (forall p :: p in s.collected.facts <==> HasRecord(kept, p))
      && (forall f :: f in kept ==> f.path in s.graph.nodes)
      && Closed(s.graph)
      && (forall e :: e in s.graph.edges <==>
            (opts.FolderStructure() && ContainsEdge(kept, e)) || CrossEdge(e, s.collected.facts, kept, opts, env.cwd))
      && (!opts.FolderStructure() ==> forall n :: n in s.graph.nodes <==> Targets(kept, n))
      && s.collected.success + s.collected.failed == (if env.hasClient then ScriptCount(kept) else 0)
  {
    var kept := FilterFiles(files);
    var g0 := InitialGraph(dirs, opts);
    var s0 := Stage(g0, NoFacts);
    assert Consistent(NoFacts);
    if opts.FolderStructure() {
      DirStageEdges(EmptyGraph, dirs);
    }
    assert g0.edges == map[] && Closed(g0);
    var s1 := FileStage(s0, kept, opts, env).value;
    FileNodesCover(g0, kept, opts);
    FileFactsRecords(NoFacts, kept, env);
    FileFactsCounts(NoFacts, kept, env);
    FileNodesEdges(g0, kept, opts);
    if !opts.FolderStructure() {
      FileNodesExact(g0, kept, opts);
    }
    var c := s1.collected;
    assert forall p :: p in c.order ==> p in s1.graph.nodes by {
      forall p | p in c.order ensures p in s1.graph.nodes {
        assert HasRecord(kept, p);
        var f :| f in kept && f.path == p && LanguageOf(f).Some?;
      }
    }
    CrossStageEffect(s1.graph, c.order, c.facts, kept, opts, env.cwd);
  }

  /** The built graph is the unpruned one pruned once: with a positive
      threshold a node stays iff its degree before pruning reaches it, an edge
      iff both ends stay; otherwise nothing is removed. The records are those
      of the unpruned build. */
  lemma BuildPrunes(files: seq<FileRecord>, dirs: seq<string>, opts: Options, env: Env)
    requires Build(files, dirs, opts, env).Some?
    ensures Unpruned(files, dirs, opts, env).Some?
    ensures var u := Unpruned(files, dirs, opts, env).value;
      var r := Build(files, dirs, opts, env).value;
      var k := opts.MinConnections();
      && r.collected == u.collected
      && Closed(r.graph)
      && (k > 0 ==> forall n :: n in r.graph.nodes <==> n in u.graph.nodes && Degree(u.graph, n) >= k)
      && (k > 0 ==> forall e :: e in r.graph.edges <==>
            e in u.graph.edges && Degree(u.graph, e.0) >= k && Degree(u.graph, e.1) >= k)
      && (k <= 0 ==> r.graph == u.graph)
  {
    var u := Unpruned(files, dirs, opts, env).value;
    UnprunedShape(files, dirs, opts, env);
    if opts.MinConnections() > 0 {
      PruneSurvivors(u.graph, opts.MinConnections());
    }
  }
}
