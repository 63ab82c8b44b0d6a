/** The per-language fact extractors of utils/dependency_extractors.py. Each
    extractor fills a fresh record of string lists; the record's constructor
    fixes which keys the Python dict has, and `Get` reads a key the way
    `dict.get(key, [])` does. */
module Extractors {
  import opened Wrappers
  import opened Text
  import opened Patterns

  /** Which dict an extractor built, and so which keys it has. */
  datatype Schema =
      /** Python and JavaScript/TypeScript records. */
    | ScriptSchema
      /** HTML records. */
    | MarkupSchema
      /** CSS records. */
    | StyleSchema
      /** The partial record of the regex fallback. */
    | FallbackSchema

  /** The dict of string lists an extractor returns, one field per key any
      extractor uses; a field whose key the schema lacks stays empty. */
  datatype Facts = Facts(
    schema: Schema,
    imports: seq<string>, functions: seq<string>, classes: seq<string>,
    functionCalls: seq<string>, fileReferences: seq<string>,
    cssLinks: seq<string>, jsLinks: seq<string>, imageLinks: seq<string>,
    otherLinks: seq<string>, urlReferences: seq<string>)

  const ImportsKey := "imports"
  const FunctionsKey := "functions"
  const ClassesKey := "classes"
  const FunctionCallsKey := "function_calls"
  const FileReferencesKey := "file_references"
  const CssLinksKey := "css_links"
  const JsLinksKey := "js_links"
  const ImageLinksKey := "image_links"
  const OtherLinksKey := "other_links"
  const UrlReferencesKey := "url_references"

  const ScriptKeys: set<string> :=
    {ImportsKey, FunctionsKey, ClassesKey, FunctionCallsKey, FileReferencesKey}
  const MarkupKeys: set<string> :=
    {CssLinksKey, JsLinksKey, ImageLinksKey, OtherLinksKey, ImportsKey, FileReferencesKey}
  const StyleKeys: set<string> := {ImportsKey, UrlReferencesKey, FileReferencesKey}
  const FallbackKeys: set<string> := {ImportsKey, FunctionsKey, FunctionCallsKey}

  /** The keys of the dict. */
  function Keys(r: Facts): set<string> {
    match r.schema
    case ScriptSchema => ScriptKeys
    case MarkupSchema => MarkupKeys
    case StyleSchema => StyleKeys
    case FallbackSchema => FallbackKeys
  }

  /** The list stored in the field named key (empty for an unknown name). */
  function Field(r: Facts, key: string): seq<string> {
    if key == ImportsKey then r.imports
    else if key == FunctionsKey then r.functions
    else if key == ClassesKey then r.classes
    else if key == FunctionCallsKey then r.functionCalls
    else if key == FileReferencesKey then r.fileReferences
    else if key == CssLinksKey then r.cssLinks
    else if key == JsLinksKey then r.jsLinks
    else if key == ImageLinksKey then r.imageLinks
    else if key == OtherLinksKey then r.otherLinks
    else if key == UrlReferencesKey then r.urlReferences
    else []
  }

  /** `r.get(key, [])`. */
  function Get(r: Facts, key: string): (v: seq<string>)
    ensures key !in Keys(r) ==> v == []
    ensures key in Keys(r) ==> v == Field(r, key)
  {
    if key in Keys(r) then Field(r, key) else []
  }

  /** The dict has no entries outside its key set. */
  predicate WellFormed(r: Facts) {
    match r.schema
    case ScriptSchema =>
      r.cssLinks == [] && r.jsLinks == [] && r.imageLinks == [] && r.otherLinks == [] && r.urlReferences == []
    case MarkupSchema =>
      r.functions == [] && r.classes == [] && r.functionCalls == [] && r.urlReferences == []
    case StyleSchema =>
      r.functions == [] && r.classes == [] && r.functionCalls == []
      && r.cssLinks == [] && r.jsLinks == [] && r.imageLinks == [] && r.otherLinks == []
    case FallbackSchema =>
      r.classes == [] && r.fileReferences == []
      && r.cssLinks == [] && r.jsLinks == [] && r.imageLinks == [] && r.otherLinks == [] && r.urlReferences == []
  }

  /** A fresh dict of the schema, every list empty. */
  function Empty(schema: Schema): (r: Facts)
    ensures r.schema == schema && WellFormed(r)
    ensures forall k :: Get(r, k) == []
  {
    Facts(schema, [], [], [], [], [], [], [], [], [], [])
  }

  /** `r[key] = v` for a key the dict already has: the other keys keep their lists. */
  function Put(r: Facts, key: string, v: seq<string>): (r': Facts)
    requires key in Keys(r)
    ensures Keys(r') == Keys(r) && r'.schema == r.schema
    ensures Get(r', key) == v
    ensures forall k :: k != key ==> Field(r', k) == Field(r, k) && Get(r', k) == Get(r, k)
    ensures WellFormed(r) ==> WellFormed(r')
  {
    if key == ImportsKey then r.(imports := v)
    else if key == FunctionsKey then r.(functions := v)
    else if key == ClassesKey then r.(classes := v)
    else if key == FunctionCallsKey then r.(functionCalls := v)
    else if key == FileReferencesKey then r.(fileReferences := v)
    else if key == CssLinksKey then r.(cssLinks := v)
    else if key == JsLinksKey then r.(jsLinks := v)
    else if key == ImageLinksKey then r.(imageLinks := v)
    else if key == OtherLinksKey then r.(otherLinks := v)
    else r.(urlReferences := v)
  }

  /** Two well-formed records with the same schema and the same list under every
      key are equal. */
  lemma FactsExt(a: Facts, b: Facts)
    requires WellFormed(a) && WellFormed(b) && a.schema == b.schema
    requires forall k :: k in Keys(a) ==> Get(a, k) == Get(b, k)
    ensures a == b
  {
    if ImportsKey in Keys(a) { assert Get(a, ImportsKey) == Get(b, ImportsKey); }
    if FunctionsKey in Keys(a) { assert Get(a, FunctionsKey) == Get(b, FunctionsKey); }
    if ClassesKey in Keys(a) { assert Get(a, ClassesKey) == Get(b, ClassesKey); }
    if FunctionCallsKey in Keys(a) { assert Get(a, FunctionCallsKey) == Get(b, FunctionCallsKey); }
    if FileReferencesKey in Keys(a) { assert Get(a, FileReferencesKey) == Get(b, FileReferencesKey); }
    if CssLinksKey in Keys(a) { assert Get(a, CssLinksKey) == Get(b, CssLinksKey); }
    if JsLinksKey in Keys(a) { assert Get(a, JsLinksKey) == Get(b, JsLinksKey); }
    if ImageLinksKey in Keys(a) { assert Get(a, ImageLinksKey) == Get(b, ImageLinksKey); }
    if OtherLinksKey in Keys(a) { assert Get(a, OtherLinksKey) == Get(b, OtherLinksKey); }
    if UrlReferencesKey in Keys(a) { assert Get(a, UrlReferencesKey) == Get(b, UrlReferencesKey); }
  }

  // ---------------------------------------------------------------------------
  // Python: the walk over the syntax tree

  /** The callee of a call node: a bare name `f`, an attribute `obj.m`, or anything else. */
  datatype Callee = NameCallee(id: string) | AttributeCallee(attr: string) | OtherCallee

  /** The syntax-tree nodes the extractor distinguishes, in the order the walk
      visits them. `moduleName` is None for `from . import x`. */
  datatype PyNode =
    | Import(names: seq<string>)
    | ImportFrom(moduleName: Option<string>)
    | FunctionDef(name: string)
    | AsyncFunctionDef(name: string)
    | ClassDef(name: string)
    | Call(func: Callee)
    | OtherNode

  /** The node contributes the import x: an alias of `import`, or the (non-empty) module of `from ... import`. */
  predicate ImportedBy(n: PyNode, x: string) {
    (n.Import? && x in n.names) || (n.ImportFrom? && n.moduleName == Some(x) && x != "")
  }

  /** The node is a call of x: `x(...)` or `obj.x(...)`. */
  predicate CalledBy(n: PyNode, x: string) {
    n == Call(NameCallee(x)) || n == Call(AttributeCallee(x))
  }

  /** The imports one node contributes. */
  function NodeImports(n: PyNode): (r: seq<string>)
    ensures forall x :: x in r <==> ImportedBy(n, x)
  {
    match n
    case Import(names) => names
    case ImportFrom(m) => if m.Some? && m.value != "" then [m.value] else []
    case _ => []
  }

  /** The function names one node contributes: only a plain `def`. */
  function NodeFunctions(n: PyNode): (r: seq<string>)
    ensures forall x :: x in r <==> n == FunctionDef(x)
  {
    if n.FunctionDef? then [n.name] else []
  }

  function NodeClasses(n: PyNode): (r: seq<string>)
    ensures forall x :: x in r <==> n == ClassDef(x)
  {
    if n.ClassDef? then [n.name] else []
  }

  function NodeCalls(n: PyNode): (r: seq<string>)
    ensures forall x :: x in r <==> CalledBy(n, x)
  {
    match n
    case Call(NameCallee(id)) => [id]
    case Call(AttributeCallee(attr)) => [attr]
    case _ => []
  }

  /** What visiting one node appends to the record. */
  function Visit(d: Facts, n: PyNode): Facts {
    d.(imports := d.imports + NodeImports(n), functions := d.functions + NodeFunctions(n),
       classes := d.classes + NodeClasses(n), functionCalls := d.functionCalls + NodeCalls(n))
  }

  const EmptyScript := Empty(ScriptSchema)

  /** The record after walking the nodes ns in order. */
  function Walk(ns: seq<PyNode>): (r: Facts)
    decreases |ns|
  {
    if ns == [] then EmptyScript else Visit(Walk(ns[..|ns| - 1]), ns[|ns| - 1])
  }

  /** The contributions of f over the nodes, in node order. */
  function FlatMap(ns: seq<PyNode>, f: PyNode -> seq<string>): seq<string>
    decreases |ns|
  {
    if ns == [] then [] else FlatMap(ns[..|ns| - 1], f) + f(ns[|ns| - 1])
  }

  lemma {:induction false} FlatMapIn(ns: seq<PyNode>, f: PyNode -> seq<string>, x: string)
    ensures x in FlatMap(ns, f) <==> exists k :: 0 <= k < |ns| && x in f(ns[k])
    decreases |ns|
  {
    if ns != [] {
      var init := ns[..|ns| - 1];
      FlatMapIn(init, f, x);
      if x in FlatMap(init, f) {
        var k :| 0 <= k < |init| && x in f(init[k]);
        assert init[k] == ns[k];
      }
      if exists k :: 0 <= k < |ns| && x in f(ns[k]) {
        var k :| 0 <= k < |ns| && x in f(ns[k]);
        if k < |init| { assert init[k] == ns[k]; }
      }
    }
  }

  /** Each list of the walked record is the node-by-node concatenation of what
      the nodes contribute to it; the record is a well-formed Python dict. */
  lemma {:induction false} WalkFields(ns: seq<PyNode>)
    ensures Walk(ns).schema == ScriptSchema && WellFormed(Walk(ns)) && Walk(ns).fileReferences == []
    ensures Walk(ns).imports == FlatMap(ns, NodeImports)
    ensures Walk(ns).functions == FlatMap(ns, NodeFunctions)
    ensures Walk(ns).classes == FlatMap(ns, NodeClasses)
    ensures Walk(ns).functionCalls == FlatMap(ns, NodeCalls)
    decreases |ns|
  {
    if ns != [] {
      WalkFields(ns[..|ns| - 1]);
    }
  }

  /** What the walk collects, key by key: imports come from `import` aliases and
      from non-relative `from` modules, functions from `def` (not `async def`),
      classes from `class`, calls from name and attribute callees. */
  lemma WalkCollects(ns: seq<PyNode>, x: string)
    ensures x in Walk(ns).imports <==> exists k :: 0 <= k < |ns| && ImportedBy(ns[k], x)
    ensures x in Walk(ns).functions <==> FunctionDef(x) in ns
    ensures x in Walk(ns).classes <==> ClassDef(x) in ns
    ensures x in Walk(ns).functionCalls <==> exists k :: 0 <= k < |ns| && CalledBy(ns[k], x)
  {
    WalkFields(ns);
    FlatMapIn(ns, NodeImports, x);
    FlatMapIn(ns, NodeFunctions, x);
    FlatMapIn(ns, NodeClasses, x);
    FlatMapIn(ns, NodeCalls, x);
    if FunctionDef(x) in ns {
      var k :| 0 <= k < |ns| && ns[k] == FunctionDef(x);
      assert x in NodeFunctions(ns[k]);
    }
    if ClassDef(x) in ns {
      var k :| 0 <= k < |ns| && ns[k] == ClassDef(x);
      assert x in NodeClasses(ns[k]);
    }
  }

  /** A relative `from . import x` adds nothing; `import a, b` adds a then b. */
  lemma WalkImportExamples(ns: seq<PyNode>)
    ensures Walk(ns + [ImportFrom(None)]) == Walk(ns)
    ensures Walk(ns + [Import(["a", "b"])]).imports == Walk(ns).imports + ["a", "b"]
    ensures Walk(ns + [ImportFrom(Some("m"))]).imports == Walk(ns).imports + ["m"]
  {
    assert (ns + [ImportFrom(None)])[..|ns|] == ns;
    assert (ns + [Import(["a", "b"])])[..|ns|] == ns;
    assert (ns + [ImportFrom(Some("m"))])[..|ns|] == ns;
  }

  // ---------------------------------------------------------------------------
  // The regex fallback

  /** The set groups of one match: `[m for m in match if m]`. */
  function SetGroups(m: seq<string>): (r: seq<string>)
    ensures forall x :: x in r <==> x in m && x != ""
    decreases |m|
  {
    if m == [] then []
    else SetGroups(m[..|m| - 1]) + (if m[|m| - 1] != "" then [m[|m| - 1]] else [])
  }

  /** The imports of the fallback: the set groups of every match, in order. */
  function Modules(ms: seq<seq<string>>): seq<string>
    decreases |ms|
  {
    if ms == [] then [] else Modules(ms[..|ms| - 1]) + SetGroups(ms[|ms| - 1])
  }

  /** Every line-start import match gives exactly one module name, non-empty and
      without whitespace. */
  lemma {:induction false} ModulesOnePerMatch(ms: seq<seq<string>>)
    requires forall m :: m in ms ==> OneModule(m)
    ensures |Modules(ms)| == |ms|
    ensures forall x :: x in Modules(ms) ==> IsToken(x)
    decreases |ms|
  {
    if ms != [] {
      var m := ms[|ms| - 1];
      assert m in ms;
      assert forall x :: x in ms[..|ms| - 1] ==> x in ms;
      ModulesOnePerMatch(ms[..|ms| - 1]);
      if IsToken(m[0]) && m[1] == "" {
        assert SetGroups(m) == [m[0]] by {
          assert m == [m[0], m[1]];
          assert m[..1] == [m[0]];
          assert SetGroups(m[..1]) == [m[0]] by { assert m[..1][..0] == []; }
        }
      } else {
        assert SetGroups(m) == [m[1]] by {
          assert m == [m[0], m[1]];
          assert m[..1] == [m[0]];
          assert SetGroups(m[..1]) == [] by { assert m[..1][..0] == []; }
        }
      }
    }
  }

  /** The imports the fallback finds in the text. */
  function FallbackImports(content: string): seq<string> {
    Modules(FindAll(PyFromOrImport, content))
  }

  /** The function names the fallback finds in the text. */
  function FallbackFunctions(content: string): seq<string> {
    Group1(FindAll(PyDef, content))
  }

  /** The regex fallback: only for "python" does it fill the import and function
      lists; the call list is always empty. */
  method ExtractWithRegex(content: string, fileType: string) returns (deps: Facts)
    ensures deps.schema == FallbackSchema && WellFormed(deps) && deps.functionCalls == []
    ensures fileType != "python" ==> deps.imports == [] && deps.functions == []
    ensures fileType == "python" ==> deps.imports == FallbackImports(content)
    ensures fileType == "python" ==> deps.functions == FallbackFunctions(content)
  {
    deps := Empty(FallbackSchema);
    if fileType == "python" {
      var importMatches := FindAll(PyFromOrImport, content);
      var k := 0;
      while k < |importMatches|
        invariant 0 <= k <= |importMatches|
        invariant deps == Empty(FallbackSchema).(imports := Modules(importMatches[..k]))
      {
        assert importMatches[..k + 1][..k] == importMatches[..k];
        deps := deps.(imports := deps.imports + SetGroups(importMatches[k]));
        k := k + 1;
      }
      assert importMatches[..k] == importMatches;
      var funcMatches := FindAll(PyDef, content);
      deps := deps.(functions := deps.functions + Group1(funcMatches));
    }
  }

  /** The fallback's lists are made of module names without whitespace (one per
      import match) and of identifiers. */
  lemma FallbackShapes(content: string)
    ensures |FallbackImports(content)| == |FindAll(PyFromOrImport, content)|
    ensures forall x :: x in FallbackImports(content) ==> IsToken(x)
    ensures forall x :: x in FallbackFunctions(content) ==> IsWord(x)
  {
    Group1Shape(PyFromOrImport, content);
    ModulesOnePerMatch(FindAll(PyFromOrImport, content));
    Group1Shape(PyDef, content);
  }

  /** `dependencies.update(fallback)`: the fallback's lists replace the record's under the same keys. */
  function Update(base: Facts, fallback: Facts): (r: Facts)
    requires base.schema == ScriptSchema && fallback.schema == FallbackSchema
    ensures Keys(r) == ScriptKeys
    ensures forall k :: k in FallbackKeys ==> Get(r, k) == Get(fallback, k)
    ensures forall k :: k !in FallbackKeys ==> Get(r, k) == Get(base, k)
    ensures WellFormed(base) ==> WellFormed(r)
  {
    base.(imports := fallback.imports, functions := fallback.functions, functionCalls := fallback.functionCalls)
  }

  // ---------------------------------------------------------------------------
  // Python

  /** One step of the walk: the branch of the extractor's node dispatch that
      matches the node's kind appends to its list. */
  method VisitNode(d: Facts, node: PyNode) returns (deps: Facts)
    ensures deps == Visit(d, node)
  {
    deps := d;
    match node {
      case Import(names) =>
        var j := 0;
        while j < |names|
          invariant 0 <= j <= |names|
          invariant deps == d.(imports := d.imports + names[..j])
        {
          assert names[..j + 1] == names[..j] + [names[j]];
          deps := deps.(imports := deps.imports + [names[j]]);
          j := j + 1;
        }
        assert names[..j] == names;
      case ImportFrom(m) =>
        if m.Some? && m.value != "" {
          deps := deps.(imports := deps.imports + [m.value]);
        }
      case FunctionDef(name) =>
        deps := deps.(functions := deps.functions + [name]);
      case ClassDef(name) =>
        deps := deps.(classes := deps.classes + [name]);
      case Call(func) =>
        match func {
          case NameCallee(id) => deps := deps.(functionCalls := deps.functionCalls + [id]);
          case AttributeCallee(attr) => deps := deps.(functionCalls := deps.functionCalls + [attr]);
          case OtherCallee =>
        }
      case AsyncFunctionDef(_) =>
      case OtherNode =>
    }
  }

  /** The Python record: the walk of the tree, or the fallback's lists spliced
      into an empty record when there is no tree. */
  function PythonFacts(content: string, tree: Option<seq<PyNode>>): Facts {
    match tree
    case Some(nodes) => Walk(nodes)
    case None => EmptyScript.(imports := FallbackImports(content), functions := FallbackFunctions(content))
  }

  /** The walk over the tree's nodes, one node at a time. */
  method WalkTree(nodes: seq<PyNode>) returns (deps: Facts)
    ensures deps == Walk(nodes)
  {
    deps := EmptyScript;
    var k := 0;
    while k < |nodes|
      invariant 0 <= k <= |nodes|
      invariant deps == Walk(nodes[..k])
    {
      assert nodes[..k + 1][..k] == nodes[..k];
      deps := VisitNode(deps, nodes[k]);
      k := k + 1;
    }
    assert nodes[..k] == nodes;
  }

  /** The Python extractor. `tree` is the walk order of the parsed module, or
      None when parsing raised. */
  method ExtractPython(content: string, path: string, tree: Option<seq<PyNode>>) returns (deps: Facts)
    ensures deps == PythonFacts(content, tree)
    ensures Keys(deps) == ScriptKeys && WellFormed(deps) && deps.fileReferences == []
  {
    match tree {
      case Some(nodes) =>
        deps := WalkTree(nodes);
        WalkFields(nodes);
      case None =>
        var fallback := ExtractWithRegex(content, "python");
        deps := Update(EmptyScript, fallback);
    }
  }

  // ---------------------------------------------------------------------------
  // JavaScript / TypeScript

  const ImportPatterns: seq<Pattern> := [JsImportFrom, JsImportBare, JsRequire, JsDynamicImport]
  const FunctionPatterns: seq<Pattern> :=
    [JsFunctionDecl, JsFunctionExpr, JsArrowConst, JsMethodFunction, JsMethodArrow]

  /** The groups of every pattern in ps, pattern after pattern, duplicates kept. */
  function Concat(ps: seq<Pattern>, s: string): seq<string>
    decreases |ps|
  {
    if ps == [] then [] else Concat(ps[..|ps| - 1], s) + Group1(FindAll(ps[|ps| - 1], s))
  }

  /** A name is in the concatenation iff some pattern of the list found it, and
      the concatenation is as long as all the pattern's match lists together. */
  lemma ConcatCollects(ps: seq<Pattern>, s: string, x: string)
    ensures x in Concat(ps, s) <==> exists j :: 0 <= j < |ps| && x in Group1(FindAll(ps[j], s))
    ensures |Concat(ps, s)| == TotalMatches(ps, s)
  {
    ConcatMember(ps, s, x);
    ConcatLength(ps, s);
  }

  lemma {:induction false} ConcatMember(ps: seq<Pattern>, s: string, x: string)
    ensures x in Concat(ps, s) <==> exists j :: 0 <= j < |ps| && x in Group1(FindAll(ps[j], s))
    decreases |ps|
  {
    if ps != [] {
      var init := ps[..|ps| - 1];
      ConcatMember(init, s, x);
      assert ps == init + [ps[|ps| - 1]];
      MemberSnoc(init, ps[|ps| - 1], p => Group1(FindAll(p, s)), x, Concat(init, s), Concat(ps, s));
    }
  }

  /** Membership in a list built pattern after pattern, one more pattern on. */
  lemma MemberSnoc(init: seq<Pattern>, p: Pattern, found: Pattern -> seq<string>, x: string,
                   before: seq<string>, after: seq<string>)
    requires after == before + found(p)
    requires x in before <==> exists j :: 0 <= j < |init| && x in found(init[j])
    ensures x in after <==> exists j :: 0 <= j < |init + [p]| && x in found((init + [p])[j])
  {
    var ps := init + [p];
    if x in found(p) {
      assert x in found(ps[|init|]);
    } else if x in before {
      var j :| 0 <= j < |init| && x in found(init[j]);
      assert ps[j] == init[j];
    } else {
      forall j | 0 <= j < |ps| ensures x !in found(ps[j]) {
        if j < |init| {
          assert ps[j] == init[j];
        }
      }
    }
  }

  lemma {:induction false} ConcatLength(ps: seq<Pattern>, s: string)
    ensures |Concat(ps, s)| == TotalMatches(ps, s)
    decreases |ps|
  {
    if ps != [] {
      ConcatLength(ps[..|ps| - 1], s);
    }
  }

  function TotalMatches(ps: seq<Pattern>, s: string): nat
    decreases |ps|
  {
    if ps == [] then 0 else TotalMatches(ps[..|ps| - 1], s) + |FindAll(ps[|ps| - 1], s)|
  }

  /** Every name the patterns of ps find has the shape `shape` that all of them share. */
  lemma {:induction false} ConcatShape(ps: seq<Pattern>, s: string, x: string)
    requires forall j :: 0 <= j < |ps| ==> ps[j] in ImportPatterns + FunctionPatterns
    requires x in Concat(ps, s)
    ensures (forall j :: 0 <= j < |ps| ==> ps[j] in ImportPatterns) ==> IsQuotedName(x)
    ensures (forall j :: 0 <= j < |ps| ==> ps[j] in FunctionPatterns) ==> IsWord(x)
  {
    ConcatCollects(ps, s, x);
    var j :| 0 <= j < |ps| && x in Group1(FindAll(ps[j], s));
    JsNameShape(ps[j], s, x);
  }

  /** The names one JavaScript pattern finds: quoted module names for the
      import forms, identifiers for the function forms. */
  lemma JsNameShape(p: Pattern, s: string, x: string)
    requires x in Group1(FindAll(p, s))
    ensures p in ImportPatterns ==> IsQuotedName(x)
    ensures p in FunctionPatterns ==> IsWord(x)
  {
    var m := Group1Member(p, s, x);
  }

  /** The JavaScript/TypeScript record. */
  function JavaScriptFacts(content: string): Facts {
    EmptyScript.(imports := Concat(ImportPatterns, content), functions := Concat(FunctionPatterns, content),
                 classes := Group1(FindAll(JsClass, content)), functionCalls := Group1(FindAll(JsCall, content)))
  }

  /** One list of the JavaScript record: the matches of each pattern in turn. */
  method CollectMatches(ps: seq<Pattern>, content: string) returns (names: seq<string>)
    ensures names == Concat(ps, content)
  {
    names := [];
    var k := 0;
    while k < |ps|
      invariant 0 <= k <= |ps|
      invariant names == Concat(ps[..k], content)
    {
      assert ps[..k + 1][..k] == ps[..k];
      var matches := FindAll(ps[k], content);
      names := names + Group1(matches);
      k := k + 1;
    }
    assert ps[..k] == ps;
  }

  /** The JavaScript/TypeScript extractor: the four import forms' and the five
      function forms' matches, each list concatenated in pattern order. */
  method ExtractJavaScript(content: string, path: string) returns (deps: Facts)
    ensures deps == JavaScriptFacts(content)
    ensures Keys(deps) == ScriptKeys && WellFormed(deps) && deps.fileReferences == []
    ensures deps.imports == Concat(ImportPatterns, content)
    ensures deps.functions == Concat(FunctionPatterns, content)
    ensures deps.classes == Group1(FindAll(JsClass, content))
    ensures deps.functionCalls == Group1(FindAll(JsCall, content))
  {
    deps := EmptyScript;
    var imports := CollectMatches(ImportPatterns, content);
    deps := deps.(imports := deps.imports + imports);
    var functions := CollectMatches(FunctionPatterns, content);
    deps := deps.(functions := deps.functions + functions);
    var classMatches := FindAll(JsClass, content);
    deps := deps.(classes := deps.classes + Group1(classMatches));
    var callMatches := FindAll(JsCall, content);
    deps := deps.(functionCalls := deps.functionCalls + Group1(callMatches));
  }

  // ---------------------------------------------------------------------------
  // HTML and CSS

  /** The first group of a match found by p, with the shape p gives it. */
  lemma Group1Member(p: Pattern, s: string, x: string) returns (m: seq<string>)
    requires x in Group1(FindAll(p, s))
    ensures m in FindAll(p, s) && Shape(p, m) && |m| > 0 && m[0] == x
  {
    var ms := FindAll(p, s);
    Group1Shape(p, s);
    var k :| 0 <= k < |ms| && Group1(ms)[k] == x;
    m := ms[k];
    assert Shape(p, m);
  }

  /** The shapes of the HTML link lists: stylesheet paths end in `.css`, script
      sources contain `.js`, asset paths end in a dot and one of the listed extensions. */
  lemma HtmlShapes(content: string)
    ensures forall l :: l in Group1(FindAll(HtmlCssLink, content)) ==> IsCssPath(l)
    ensures forall l :: l in Group1(FindAll(HtmlScriptSrc, content)) ==> HasDotJs(l)
    ensures forall l :: l in Group1(FindAll(HtmlImgSrc, content)) ==> IsQuotedName(l)
    ensures forall l :: l in Group1(FindAll(HtmlAssetHref, content)) ==> exists e :: IsAssetPath(l, e)
  {
    forall l | l in Group1(FindAll(HtmlCssLink, content)) ensures IsCssPath(l) {
      var m := Group1Member(HtmlCssLink, content, l);
    }
    forall l | l in Group1(FindAll(HtmlScriptSrc, content)) ensures HasDotJs(l) {
      var m := Group1Member(HtmlScriptSrc, content, l);
    }
    forall l | l in Group1(FindAll(HtmlImgSrc, content)) ensures IsQuotedName(l) {
      var m := Group1Member(HtmlImgSrc, content, l);
    }
    forall l | l in Group1(FindAll(HtmlAssetHref, content)) ensures exists e :: IsAssetPath(l, e) {
      var m := Group1Member(HtmlAssetHref, content, l);
      assert IsAssetPath(l, m[1]);
    }
  }

  /** The HTML extractor. other_links holds the whole matched path (group 0),
      not the extension; the record has no function keys, and each list is
      the matches of its pattern in order of appearance. */
  function HtmlFacts(content: string): (deps: Facts)
    ensures Keys(deps) == MarkupKeys && WellFormed(deps)
    ensures deps.imports == [] && deps.fileReferences == []
    ensures deps.cssLinks == Group1(FindAll(HtmlCssLink, content))
    ensures deps.jsLinks == Group1(FindAll(HtmlScriptSrc, content))
    ensures deps.imageLinks == Group1(FindAll(HtmlImgSrc, content))
    ensures deps.otherLinks == Group1(FindAll(HtmlAssetHref, content))
  {
    Empty(MarkupSchema).(cssLinks := Group1(FindAll(HtmlCssLink, content)),
                         jsLinks := Group1(FindAll(HtmlScriptSrc, content)),
                         imageLinks := Group1(FindAll(HtmlImgSrc, content)),
                         otherLinks := Group1(FindAll(HtmlAssetHref, content)))
  }

  /** The CSS extractor: `@import` targets and `url(...)` references. */
  function CssFacts(content: string): (deps: Facts)
    ensures Keys(deps) == StyleKeys && WellFormed(deps) && deps.fileReferences == []
    ensures deps.imports == Group1(FindAll(CssImport, content))
    ensures deps.urlReferences == Group1(FindAll(CssUrl, content))
  {
    Empty(StyleSchema).(imports := Group1(FindAll(CssImport, content)),
                        urlReferences := Group1(FindAll(CssUrl, content)))
  }

  /** The CSS lists hold quoted names and `url(...)` references. */
  lemma CssShapes(content: string)
    ensures forall x :: x in Group1(FindAll(CssImport, content)) ==> IsQuotedName(x)
    ensures forall x :: x in Group1(FindAll(CssUrl, content)) ==> IsUrlRef(x)
  {
    forall x | x in Group1(FindAll(CssImport, content)) ensures IsQuotedName(x) {
      var m := Group1Member(CssImport, content, x);
    }
    forall x | x in Group1(FindAll(CssUrl, content)) ensures IsUrlRef(x) {
      var m := Group1Member(CssUrl, content, x);
    }
  }
}
