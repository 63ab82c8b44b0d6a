/** The graph builder as the source runs it: loops that update a `DiGraph` in
    place, a dict of fact records and the enrichment counters. Each method is
    proved equal to the matching stage of the specification in `Analyzer`. */
module Builder {
  import opened Wrappers
  import opened Text
  import opened Extractors
  import opened Paths
  import opened Graph
  import opened Enrichment
  import opened Analyzer

  /** A node per non-empty directory name. */
  method AddDirectoryNodes(g: DiGraph, dirs: seq<string>)
    modifies g
    ensures g.Value() == DirStage(old(g.Value()), dirs)
  {
    ghost var g0 := g.Value();
    var k := 0;
    while k < |dirs|
      invariant 0 <= k <= |dirs|
      invariant g.Value() == DirStage(g0, dirs[..k])
    {
      assert dirs[..k + 1][..k] == dirs[..k];
      var d := dirs[k];
      if d != "" {
        g.AddNode(DirNodeId(d), DirAttrs);
      }
      k := k + 1;
    }
    assert dirs[..k] == dirs;
  }

  /** The extractor the file's language selects. */
  method ExtractFacts(lang: Language, f: FileRecord, env: Env) returns (deps: Facts)
    ensures deps == Extract(lang, f, env) && WellFormed(deps)
  {
    match lang {
      case PythonLanguage => deps := ExtractPython(f.content, f.path, env.parse(f.content));
      case ScriptLanguage => deps := ExtractJavaScript(f.content, f.path);
      case MarkupLanguage => deps := HtmlFacts(f.content);
      case StyleLanguage => deps := CssFacts(f.content);
    }
  }

  /** The enrichment call: `{}` without a client or without a usable answer,
      otherwise the validated dict. */
  method AnalyzeWithAi(f: FileRecord, env: Env) returns (ai: map<string, Json>)
    ensures ai == AiResult(env.hasClient, env.respond(f.content, f.path))
  {
    if !env.hasClient {
      return map[];
    }
    var response := env.respond(f.content, f.path);
    if response.None? {
      return map[];
    }
    ai := ValidateResult(response.value);
  }

  /** The record is stored, enriched first for Python and JavaScript when a
      client is configured; the merge may raise. */
  method StoreRecord(lang: Language, deps: Facts, f: FileRecord, env: Env, c: Collected)
    returns (next: Collected, crashed: bool)
    requires WellFormed(deps)
    ensures crashed <==> Enrich(lang, deps, f, env, c).None?
    ensures !crashed ==> next == Enrich(lang, deps, f, env, c).value
  {
    next, crashed := c, false;
    if (lang == PythonLanguage || lang == ScriptLanguage) && env.hasClient {
      var ai := AnalyzeWithAi(f, env);
      if ai != map[] {
        var merged := MergeEnrichment(deps, ai);
        if merged.None? {
          crashed := true;
          return;
        }
        next := Record(c.(success := c.success + 1), f.path, merged.value);
      } else {
        next := Record(c.(failed := c.failed + 1), f.path, deps);
      }
    } else {
      next := Record(c, f.path, deps);
    }
  }

  /** One iteration of the file loop: the file's node (and containment edge),
      then its fact record, enriched and counted. */
  method ProcessFile(g: DiGraph, c: Collected, f: FileRecord, opts: Options, env: Env)
    returns (next: Collected, crashed: bool)
    modifies g
    ensures g.Value() == NodeStep(old(g.Value()), f, opts)
    ensures crashed <==> FactStep(c, f, env).None?
    ensures !crashed ==> next == FactStep(c, f, env).value
  {
    g.AddNode(f.path, FileAttrs(f));
    if opts.FolderStructure() && f.directory != "" {
      g.AddEdge(DirNodeId(f.directory), f.path, ContainsAttrs);
    }
    next, crashed := c, false;
    var lang := LanguageOf(f);
    if lang.None? {
      return;
    }
    var deps := ExtractFacts(lang.value, f, env);
    next, crashed := StoreRecord(lang.value, deps, f, env, c);
  }

  /** A call edge for each of b's functions, in order, that a calls. */
  method AddCallEdges(g: DiGraph, a: string, b: string, functions: seq<string>, calls: seq<string>)
    modifies g
    ensures g.Value() == ApplyWrites(old(g.Value()), a, b, CallWrites(functions, calls))
  {
    ghost var g0 := g.Value();
    var k := 0;
    while k < |functions|
      invariant 0 <= k <= |functions|
      invariant g.Value() == ApplyWrites(g0, a, b, CallWrites(functions[..k], calls))
    {
      var name := functions[k];
      ghost var ws := CallWrites(functions[..k], calls);
      CallWritesStep(functions, k, calls);
      if name in calls {
        ApplyWritesSnoc(g0, a, b, ws, CallEdge(name));
        g.AddEdge(a, b, CallEdge(name));
        assert g.Value() == ApplyWrites(g0, a, b, ws + [CallEdge(name)]);
      } else {
        assert CallWrites(functions[..k + 1], calls) == ws + [];
        assert ws + [] == ws;
      }
      k := k + 1;
    }
    assert functions[..k] == functions;
  }

  /** An import edge for each import of a that names b. */
  method AddImportEdges(g: DiGraph, a: string, b: string, imports: seq<string>, stem: string, rel: string)
    modifies g
    ensures g.Value() == ApplyWrites(old(g.Value()), a, b, ImportWrites(imports, stem, rel, b))
  {
    ghost var g0 := g.Value();
    var k := 0;
    while k < |imports|
      invariant 0 <= k <= |imports|
      invariant g.Value() == ApplyWrites(g0, a, b, ImportWrites(imports[..k], stem, rel, b))
    {
      var imp := imports[k];
      ghost var ws := ImportWrites(imports[..k], stem, rel, b);
      ImportWritesStep(imports, k, stem, rel, b);
      var hit := Contains(imp, stem) || Contains(imp, ReplaceChar(rel, '\\', '/')) || Contains(imp, ReplaceChar(b, '\\', '/'));
      assert hit == ImportNames(imp, stem, rel, b);
      if hit {
        ApplyWritesSnoc(g0, a, b, ws, ImportEdge);
        g.AddEdge(a, b, ImportEdge);
        assert g.Value() == ApplyWrites(g0, a, b, ws + [ImportEdge]);
      } else {
        assert ws + [] == ws;
      }
      k := k + 1;
    }
    assert imports[..k] == imports;
  }

  /** A link edge of the given kind for each link that contains b's basename. */
  method AddLinkEdges(g: DiGraph, a: string, b: string, links: seq<string>, base: string, kind: string)
    modifies g
    ensures g.Value() == ApplyWrites(old(g.Value()), a, b, LinkWrites(links, base, kind))
  {
    ghost var g0 := g.Value();
    var k := 0;
    while k < |links|
      invariant 0 <= k <= |links|
      invariant g.Value() == ApplyWrites(g0, a, b, LinkWrites(links[..k], base, kind))
    {
      var link := links[k];
      ghost var ws := LinkWrites(links[..k], base, kind);
      LinkWritesStep(links, k, base, kind);
      if Contains(link, base) {
        ApplyWritesSnoc(g0, a, b, ws, LinkEdge(kind));
        g.AddEdge(a, b, LinkEdge(kind));
        assert g.Value() == ApplyWrites(g0, a, b, ws + [LinkEdge(kind)]);
      } else {
        assert ws + [] == ws;
      }
      k := k + 1;
    }
    assert links[..k] == links;
  }

  /** The link edges of every link kind, in kind order. */
  method AddAllLinkEdges(g: DiGraph, a: string, b: string, deps: Facts)
    modifies g
    ensures g.Value() == ApplyWrites(old(g.Value()), a, b, AllLinkWrites(deps, Basename(b), LinkKinds))
  {
    ghost var g0 := g.Value();
    var base := Basename(b);
    var k := 0;
    while k < |LinkKinds|
      invariant 0 <= k <= |LinkKinds|
      invariant g.Value() == ApplyWrites(g0, a, b, AllLinkWrites(deps, base, LinkKinds[..k]))
    {
      var kind := LinkKinds[k];
      AllLinkWritesStep(deps, base, LinkKinds, k);
      ghost var before := AllLinkWrites(deps, base, LinkKinds[..k]);
      AddLinkEdges(g, a, b, Get(deps, kind.0), base, kind.1);
      ApplyWritesAppend(g0, a, b, before, LinkWrites(Get(deps, kind.0), base, kind.1));
      k := k + 1;
    }
    TakeAll(LinkKinds);
  }

  lemma TakeAll<T>(s: seq<T>)
    ensures s[..|s|] == s
  {
  }

  /** The edges for one ordered pair of distinct files. */
  method CrossPair(g: DiGraph, a: string, deps: Facts, b: string, facts: map<string, Facts>, opts: Options, cwd: string)
    returns (crashed: bool)
    modifies g
    ensures crashed <==> PairWrites(a, deps, b, facts, opts, cwd).None?
    ensures !crashed ==> g.Value() == ApplyWrites(old(g.Value()), a, b, PairWrites(a, deps, b, facts, opts, cwd).value)
  {
    ghost var g0 := g.Value();
    crashed := false;
    ghost var calls: seq<EdgeAttrs> := [];
    if opts.FunctionCalls() {
      var otherDeps := if b in facts then Some(facts[b]) else None;
      var functions := if otherDeps.Some? then Get(otherDeps.value, FunctionsKey) else [];
      AddCallEdges(g, a, b, functions, Get(deps, FunctionCallsKey));
      calls := CallWrites(functions, Get(deps, FunctionCallsKey));
    }
    ghost var g1 := g.Value();
    ghost var imports: seq<EdgeAttrs> := [];
    if opts.Imports() {
      var stem := Stem(b);
      var rel := Relpath(cwd, b, Dirname(a));
      if rel.None? {
        crashed := true;
        return;
      }
      AddImportEdges(g, a, b, Get(deps, ImportsKey), stem, rel.value);
      imports := ImportWrites(Get(deps, ImportsKey), stem, rel.value, b);
    }
    ghost var g2 := g.Value();
    ghost var links: seq<EdgeAttrs> := [];
    if opts.FileLinks() {
      AddAllLinkEdges(g, a, b, deps);
      links := AllLinkWrites(deps, Basename(b), LinkKinds);
    }
    assert g.Value() == ApplyWrites(g2, a, b, links);
    assert g2 == ApplyWrites(g1, a, b, imports);
    assert g1 == ApplyWrites(g0, a, b, calls);
    ApplyWritesAppend(g0, a, b, calls, imports);
    ApplyWritesAppend(g0, a, b, calls + imports, links);
  }

  /** The inner loop of the cross-reference: a against every kept file. */
  method CrossFromFile(g: DiGraph, a: string, deps: Facts, files: seq<FileRecord>,
                       facts: map<string, Facts>, opts: Options, cwd: string)
    returns (crashed: bool)
    modifies g
    ensures crashed <==> CrossFrom(old(g.Value()), a, deps, files, facts, opts, cwd).None?
    ensures !crashed ==> CrossFrom(old(g.Value()), a, deps, files, facts, opts, cwd) == Some(g.Value())
  {
    ghost var g0 := g.Value();
    crashed := false;
    var j := 0;
    while j < |files|
      invariant 0 <= j <= |files|
      invariant CrossFrom(g0, a, deps, files[..j], facts, opts, cwd) == Some(g.Value())
    {
      assert files[..j + 1][..j] == files[..j];
      var b := files[j].path;
      if a != b {
        crashed := CrossPair(g, a, deps, b, facts, opts, cwd);
        if crashed {
          CrossFromRaises(g0, a, deps, files, j + 1, facts, opts, cwd);
          return;
        }
      }
      j := j + 1;
    }
    assert files[..j] == files;
  }

  /** The outer loop of the cross-reference: every path with a record. */
  method CrossReference(g: DiGraph, c: Collected, files: seq<FileRecord>, opts: Options, cwd: string)
    returns (crashed: bool)
    requires forall p :: p in c.order ==> p in c.facts
    modifies g
    ensures crashed <==> CrossStage(old(g.Value()), c.order, c.facts, files, opts, cwd).None?
    ensures !crashed ==> CrossStage(old(g.Value()), c.order, c.facts, files, opts, cwd) == Some(g.Value())
  {
    ghost var g0 := g.Value();
    crashed := false;
    var i := 0;
    while i < |c.order|
      invariant 0 <= i <= |c.order|
      invariant forall p :: p in c.order[..i] ==> p in c.facts
      invariant CrossStage(g0, c.order[..i], c.facts, files, opts, cwd) == Some(g.Value())
    {
      assert c.order[..i + 1][..i] == c.order[..i];
      assert forall p :: p in c.order[..i + 1] ==> p in c.order;
      var a := c.order[i];
      crashed := CrossFromFile(g, a, c.facts[a], files, c.facts, opts, cwd);
      if crashed {
        CrossStageRaises(g0, c.order, i + 1, c.facts, files, opts, cwd);
        return;
      }
      i := i + 1;
    }
    assert c.order[..i] == c.order;
  }

  /** The pruning pass: the nodes below the threshold are collected first, on
      the unpruned graph, then removed together. */
  method Prune(g: DiGraph, k: int)
    modifies g
    ensures g.Value() == PruneV(old(g.Value()), k)
  {
    if k > 0 {
      ghost var g0 := g.Value();
      var rest := g.nodes.Keys;
      var doomed: seq<string> := [];
      while rest != {}
        invariant rest <= g0.nodes.Keys && g.Value() == g0
        invariant forall n :: n in doomed <==> n in g0.nodes && n !in rest && Degree(g0, n) < k
        decreases |rest|
      {
        var n :| n in rest;
        if Degree(g.Value(), n) < k {
          doomed := doomed + [n];
        }
        rest := rest - {n};
      }
      assert (set n | n in doomed) == LowDegree(g0, k);
      g.RemoveNodesFrom(doomed);
    }
  }

  /** The loop over the kept files: a node and a fact record per file, in order. */
  method ProcessFiles(g: DiGraph, kept: seq<FileRecord>, opts: Options, env: Env)
    returns (c: Collected, crashed: bool)
    modifies g
    ensures crashed <==> FileFacts(NoFacts, kept, env).None?
    ensures !crashed ==> FileFacts(NoFacts, kept, env) == Some(c) && g.Value() == FileNodes(old(g.Value()), kept, opts)
  {
    ghost var g0 := g.Value();
    c := NoFacts;
    crashed := false;
    var k := 0;
    while k < |kept|
      invariant 0 <= k <= |kept|
      invariant FileFacts(NoFacts, kept[..k], env) == Some(c)
      invariant g.Value() == FileNodes(g0, kept[..k], opts)
    {
      FileFactsSnoc(NoFacts, kept, k, env);
      FileNodesSnoc(g0, kept, k, opts);
      c, crashed := ProcessFile(g, c, kept[k], opts, env);
      if crashed {
        FileFactsRaises(NoFacts, kept, k + 1, env);
        return;
      }
      k := k + 1;
    }
    assert kept[..k] == kept;
  }

  /** `create_dependency_graph`: the graph, the fact records with their order
      and counters, or a raised exception. */
  method CreateDependencyGraph(files: seq<FileRecord>, dirs: seq<string>, opts: Options, env: Env)
    returns (g: DiGraph, c: Collected, crashed: bool)
    ensures crashed <==> Build(files, dirs, opts, env).None?
    ensures !crashed ==> Build(files, dirs, opts, env) == Some(Stage(g.Value(), c))
  {
    g := new DiGraph();
    var kept := FilterFiles(files);
    if opts.FolderStructure() {
      AddDirectoryNodes(g, dirs);
    }
    assert g.Value() == InitialGraph(dirs, opts);
    c, crashed := ProcessFiles(g, kept, opts, env);
    if crashed {
      return;
    }
    assert Consistent(c) by {
      assert Consistent(NoFacts);
    }
    crashed := CrossReference(g, c, kept, opts, env.cwd);
    if crashed {
      return;
    }
    assert Unpruned(files, dirs, opts, env) == Some(Stage(g.Value(), c));
    Prune(g, opts.MinConnections());
  }
}
