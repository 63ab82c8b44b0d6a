/** The regular expressions of the extractors and of the repository-URL parser,
    each written out as a scanner over the text. Every pattern used here is
    deterministic once Python's backtracking order is followed: a greedy run is
    always followed by a character outside its class, except for the lazy `.*?`
    of the JavaScript `import ... from` form and the `[^>]*` prefix of the HTML
    tag forms, whose backtracking is spelled out step by step. `FindAll` is
    `re.findall`: it tries every start position left to right and resumes after
    each match (no pattern here can match the empty string). */
module Patterns {
  import opened Wrappers
  import opened Text

  /** One match: the index just past it and its capture groups, in order; a
      group that did not take part in the match is "". */
  datatype Hit = Hit(end: nat, groups: seq<string>)

  datatype Pattern =
      /** `import\s+.*?\s+from\s+['"]([^'"]+)['"]` */
    | JsImportFrom
      /** `import\s+['"]([^'"]+)['"]` */
    | JsImportBare
      /** `require\s*\(\s*['"]([^'"]+)['"]\s*\)` */
    | JsRequire
      /** `import\(\s*['"]([^'"]+)['"]\s*\)` */
    | JsDynamicImport
      /** `function\s+(\w+)\s*\(` */
    | JsFunctionDecl
      /** `const\s+(\w+)\s*=\s*function\s*\(` */
    | JsFunctionExpr
      /** `const\s+(\w+)\s*=\s*\([^)]*\)\s*=>` */
    | JsArrowConst
      /** `(\w+)\s*:\s*function\s*\(` */
    | JsMethodFunction
      /** `(\w+)\s*:\s*\([^)]*\)\s*=>` */
    | JsMethodArrow
      /** `class\s+(\w+)` */
    | JsClass
      /** `(\w+)\s*\(` */
    | JsCall
      /** `<link[^>]*href=["']([^"']+\.css)["']`, ignoring case */
    | HtmlCssLink
      /** `<script[^>]*src=["']([^"']+\.js[^"']*)["']`, ignoring case */
    | HtmlScriptSrc
      /** `<img[^>]*src=["']([^"']+)["']`, ignoring case */
    | HtmlImgSrc
      /** `href=["']([^"']+\.(png|jpg|jpeg|gif|svg|ico|woff|woff2|ttf|eot))["']`, ignoring case */
    | HtmlAssetHref
      /** `@import\s+["']([^"']+)["']` */
    | CssImport
      /** `url\s*\(\s*["']?([^"')\s]+)["']?\s*\)` */
    | CssUrl
      /** `^(?:from\s+(\S+)\s+import|import\s+(\S+))`, `^` at every line start */
    | PyFromOrImport
      /** `def\s+(\w+)\s*\(` */
    | PyDef
      /** `github\.com\/([\w.-]+)\/([\w.-]+)` */
    | RepoUrl

  // ---------------------------------------------------------------------------
  // What each pattern's groups look like

  predicate IsUrlChar(c: char) { !IsQuote(c) && c != ')' && !IsSpace(c) }

  predicate IsRepoChar(c: char) { IsWordChar(c) || c == '.' || c == '-' }

  predicate NotGt(c: char) { c != '>' }

  predicate NotCloseParen(c: char) { c != ')' }

  /** A non-empty run of characters other than quotes, `)` and whitespace. */
  predicate IsUrlRef(g: string) {
    |g| > 0 && forall k :: 0 <= k < |g| ==> IsUrlChar(g[k])
  }

  predicate IsRepoName(g: string) {
    |g| > 0 && forall k :: 0 <= k < |g| ==> IsRepoChar(g[k])
  }

  /** A quoted value of at least one character followed by `.css`. */
  predicate IsCssPath(g: string) {
    IsQuotedName(g) && |g| >= 5 && EndsWithFold(g, ".css")
  }

  /** A quoted value with `.js` somewhere after its first character. */
  predicate HasDotJs(g: string) {
    IsQuotedName(g) && exists k | 1 <= k <= |g| - 3 :: DotJsAt(g, k)
  }

  predicate DotJsAt(g: string, k: int) {
    1 <= k <= |g| - 3 && FoldEqStr(g[k..k + 3], ".js")
  }

  predicate IsAssetExt(e: string) {
    FoldEqStr(e, "png") || FoldEqStr(e, "jpg") || FoldEqStr(e, "jpeg") || FoldEqStr(e, "gif")
    || FoldEqStr(e, "svg") || FoldEqStr(e, "ico") || FoldEqStr(e, "woff") || FoldEqStr(e, "woff2")
    || FoldEqStr(e, "ttf") || FoldEqStr(e, "eot")
  }

  /** g is a quoted value of at least one character, then a dot, then the asset extension e. */
  predicate IsAssetPath(g: string, e: string) {
    IsQuotedName(g) && IsAssetExt(e) && |g| >= |e| + 2
    && g[|g| - |e| - 1] == '.' && g[|g| - |e|..] == e
  }

  /** Exactly one of the two alternatives' groups is set, to a run without whitespace. */
  predicate OneModule(gs: seq<string>) {
    |gs| == 2 && ((IsToken(gs[0]) && gs[1] == "") || (gs[0] == "" && IsToken(gs[1])))
  }

  predicate Shape(p: Pattern, gs: seq<string>) {
    match p
    case JsImportFrom => |gs| == 1 && IsQuotedName(gs[0])
    case JsImportBare => |gs| == 1 && IsQuotedName(gs[0])
    case JsRequire => |gs| == 1 && IsQuotedName(gs[0])
    case JsDynamicImport => |gs| == 1 && IsQuotedName(gs[0])
    case JsFunctionDecl => |gs| == 1 && IsWord(gs[0])
    case JsFunctionExpr => |gs| == 1 && IsWord(gs[0])
    case JsArrowConst => |gs| == 1 && IsWord(gs[0])
    case JsMethodFunction => |gs| == 1 && IsWord(gs[0])
    case JsMethodArrow => |gs| == 1 && IsWord(gs[0])
    case JsClass => |gs| == 1 && IsWord(gs[0])
    case JsCall => |gs| == 1 && IsWord(gs[0])
    case HtmlCssLink => |gs| == 1 && IsCssPath(gs[0])
    case HtmlScriptSrc => |gs| == 1 && HasDotJs(gs[0])
    case HtmlImgSrc => |gs| == 1 && IsQuotedName(gs[0])
    case HtmlAssetHref => |gs| == 2 && IsAssetPath(gs[0], gs[1])
    case CssImport => |gs| == 1 && IsQuotedName(gs[0])
    case CssUrl => |gs| == 1 && IsUrlRef(gs[0])
    case PyFromOrImport => OneModule(gs)
    case PyDef => |gs| == 1 && IsWord(gs[0])
    case RepoUrl => |gs| == 2 && IsRepoName(gs[0]) && IsRepoName(gs[1])
  }

  // ---------------------------------------------------------------------------
  // Building blocks

  /** End of the longest run of characters satisfying p from i on: a greedy `[...]*`. */
  function RunEnd(s: string, i: nat, p: char -> bool): (e: nat)
    requires i <= |s|
    ensures i <= e <= |s|
    ensures forall k :: i <= k < e ==> p(s[k])
    ensures e == |s| || !p(s[e])
    decreases |s| - i
  {
    if i < |s| && p(s[i]) then RunEnd(s, i + 1, p) else i
  }

  predicate LitAt(s: string, i: nat, lit: string) {
    i + |lit| <= |s| && s[i..i + |lit|] == lit
  }

  /** lit (lower case) occurs at i, ignoring case. */
  predicate FoldAt(s: string, i: nat, lit: string) {
    i + |lit| <= |s| && FoldEqStr(s[i..i + |lit|], lit)
  }

  /** `['"]([^'"]+)['"]` at q. */
  function QuotedAt(s: string, q: nat): (r: Option<Hit>)
    requires q <= |s|
    ensures r.Some? ==> q < r.value.end <= |s| && |r.value.groups| == 1 && IsQuotedName(r.value.groups[0])
  {
    if q < |s| && IsQuote(s[q]) then
      var g := RunEnd(s, q + 1, NotQuote);
      if q + 1 < g < |s| then Some(Hit(g + 1, [s[q + 1..g]])) else None
    else None
  }

  /** `(\w+)\s*\(` at i. */
  function WordThenParen(s: string, i: nat): (r: Option<Hit>)
    requires i <= |s|
    ensures r.Some? ==> i < r.value.end <= |s| && |r.value.groups| == 1 && IsWord(r.value.groups[0])
  {
    var e := RunEnd(s, i, IsWordChar);
    if e > i then
      var c := RunEnd(s, e, IsSpace);
      if c < |s| && s[c] == '(' then Some(Hit(c + 1, [s[i..e]])) else None
    else None
  }

  /** `\(\s*['"]([^'"]+)['"]\s*\)` at a. */
  function ParenQuoted(s: string, a: nat): (r: Option<Hit>)
    requires a <= |s|
    ensures r.Some? ==> a < r.value.end <= |s| && |r.value.groups| == 1 && IsQuotedName(r.value.groups[0])
  {
    if a < |s| && s[a] == '(' then
      match QuotedAt(s, RunEnd(s, a + 1, IsSpace))
      case Some(h) =>
        var c := RunEnd(s, h.end, IsSpace);
        if c < |s| && s[c] == ')' then Some(Hit(c + 1, h.groups)) else None
      case None => None
    else None
  }

  /** `function\s*\(` at a: the end of the match. */
  function FunctionParen(s: string, a: nat): (r: Option<nat>)
    requires a <= |s|
    ensures r.Some? ==> a < r.value <= |s|
  {
    if LitAt(s, a, "function") then
      var c := RunEnd(s, a + 8, IsSpace);
      if c < |s| && s[c] == '(' then Some(c + 1) else None
    else None
  }

  /** `\([^)]*\)\s*=>` at a: the end of the match. */
  function ArrowParams(s: string, a: nat): (r: Option<nat>)
    requires a <= |s|
    ensures r.Some? ==> a < r.value <= |s|
  {
    if a < |s| && s[a] == '(' then
      var c := RunEnd(s, a + 1, NotCloseParen);
      if c < |s| then
        var d := RunEnd(s, c + 1, IsSpace);
        if LitAt(s, d, "=>") then Some(d + 2) else None
      else None
    else None
  }

  /** `(\w+)\s*<sep>\s*` at i, followed by `tail` (which returns the end of its match). */
  function WordSepTail(s: string, i: nat, sep: char, tail: (string, nat) -> Option<nat>): (r: Option<Hit>)
    requires i <= |s|
    requires forall a: nat :: a <= |s| ==> (tail(s, a).Some? ==> a < tail(s, a).value <= |s|)
    ensures r.Some? ==> i < r.value.end <= |s| && |r.value.groups| == 1 && IsWord(r.value.groups[0])
  {
    var e := RunEnd(s, i, IsWordChar);
    if e > i then
      var c := RunEnd(s, e, IsSpace);
      if c < |s| && s[c] == sep then
        match tail(s, RunEnd(s, c + 1, IsSpace))
        case Some(end) => Some(Hit(end, [s[i..e]]))
        case None => None
      else None
    else None
  }

  function FunctionParenTail(s: string, a: nat): (r: Option<nat>)
    ensures r.Some? ==> a < r.value <= |s|
  {
    if a <= |s| then FunctionParen(s, a) else None
  }

  function ArrowParamsTail(s: string, a: nat): (r: Option<nat>)
    ensures r.Some? ==> a < r.value <= |s|
  {
    if a <= |s| then ArrowParams(s, a) else None
  }

  // ---------------------------------------------------------------------------
  // The JavaScript import form with a lazy middle

  /** `\s+from\s+['"]([^'"]+)['"]` at c. */
  function FromClause(s: string, c: nat): (r: Option<Hit>)
    requires c <= |s|
    ensures r.Some? ==> c < r.value.end <= |s| && |r.value.groups| == 1 && IsQuotedName(r.value.groups[0])
  {
    var a := RunEnd(s, c, IsSpace);
    if a > c && LitAt(s, a, "from") then
      var b := RunEnd(s, a + 4, IsSpace);
      if b > a + 4 then QuotedAt(s, b) else None
    else None
  }

  /** The lazy `.*?` from c: try the rest of the pattern at c, then at c + 1, ...,
      never stepping over a newline. */
  function LazyFrom(s: string, c: nat): (r: Option<Hit>)
    requires c <= |s|
    ensures r.Some? ==> c < r.value.end <= |s| && |r.value.groups| == 1 && IsQuotedName(r.value.groups[0])
    decreases |s| - c
  {
    match FromClause(s, c)
    case Some(h) => Some(h)
    case None => if c < |s| && s[c] != '\n' then LazyFrom(s, c + 1) else None
  }

  /** The leading `\s+` after `import` spans lo..b; try the longest span first,
      then give back one whitespace character at a time. */
  function LeadingSpaces(s: string, lo: nat, b: nat): (r: Option<Hit>)
    requires lo < b <= |s|
    ensures r.Some? ==> lo < r.value.end <= |s| && |r.value.groups| == 1 && IsQuotedName(r.value.groups[0])
    decreases b
  {
    match LazyFrom(s, b)
    case Some(h) => Some(h)
    case None => if b - 1 > lo then LeadingSpaces(s, lo, b - 1) else None
  }

  // ---------------------------------------------------------------------------
  // The HTML tag forms

  /** attr (such as `href=`) at p, ignoring case, then a quoted value that accept admits. */
  function AttrAt(s: string, p: nat, attr: string, accept: string -> bool): (r: Option<Hit>)
    requires p <= |s|
    ensures r.Some? ==> p < r.value.end <= |s| && |r.value.groups| == 1
    ensures r.Some? ==> accept(r.value.groups[0]) && IsQuotedName(r.value.groups[0])
  {
    if FoldAt(s, p, attr) then
      match QuotedAt(s, p + |attr|)
      case Some(h) => if accept(h.groups[0]) then Some(h) else None
      case None => None
    else None
  }

  /** The greedy `[^>]*` before attr ran from lo to p; backtrack from p down to lo
      and take the first attribute position where the rest of the pattern matches. */
  function LastAttr(s: string, lo: nat, p: nat, attr: string, accept: string -> bool): (r: Option<Hit>)
    requires lo <= p <= |s|
    ensures r.Some? ==> lo < r.value.end <= |s| && |r.value.groups| == 1
    ensures r.Some? ==> accept(r.value.groups[0]) && IsQuotedName(r.value.groups[0])
    decreases p
  {
    match AttrAt(s, p, attr, accept)
    case Some(h) => Some(h)
    case None => if p > lo then LastAttr(s, lo, p - 1, attr, accept) else None
  }

  /** `<tag[^>]*attr["'](...)["']`, ignoring case. */
  function TagAttr(s: string, i: nat, tag: string, attr: string, accept: string -> bool): (r: Option<Hit>)
    requires i <= |s|
    requires |tag| > 0
    ensures r.Some? ==> i < r.value.end <= |s| && |r.value.groups| == 1
    ensures r.Some? ==> accept(r.value.groups[0]) && IsQuotedName(r.value.groups[0])
  {
    if FoldAt(s, i, tag) then
      LastAttr(s, i + |tag|, RunEnd(s, i + |tag|, NotGt), attr, accept)
    else None
  }

  predicate AnyQuoted(g: string) { IsQuotedName(g) }

  /** The last n characters of g, when a dot precedes them and they are an asset extension. */
  function AssetSuffix(g: string, n: nat): (r: Option<string>)
    requires IsQuotedName(g)
    ensures r.Some? ==> IsAssetPath(g, r.value)
  {
    if |g| >= n + 2 && g[|g| - n - 1] == '.' then
      var e := g[|g| - n..];
      if IsAssetExt(e) then Some(e) else None
    else None
  }

  /** The asset extension that ends g, if g is `<one or more chars>.<ext>`. */
  function AssetExtOf(g: string): (r: Option<string>)
    ensures r.Some? ==> IsAssetPath(g, r.value)
  {
    if !IsQuotedName(g) then None
    else if AssetSuffix(g, 3).Some? then AssetSuffix(g, 3)
    else if AssetSuffix(g, 4).Some? then AssetSuffix(g, 4)
    else AssetSuffix(g, 5)
  }

  // ---------------------------------------------------------------------------
  // One scanner per pattern

  function ImportFromAt(s: string, i: nat): (r: Option<Hit>)
    requires i <= |s|
    ensures r.Some? ==> i < r.value.end <= |s| && Shape(JsImportFrom, r.value.groups)
  {
    if LitAt(s, i, "import") then
      var w := RunEnd(s, i + 6, IsSpace);
      if w > i + 6 then LeadingSpaces(s, i + 6, w) else None
    else None
  }

  function ImportBareAt(s: string, i: nat): (r: Option<Hit>)
    requires i <= |s|
    ensures r.Some? ==> i < r.value.end <= |s| && Shape(JsImportBare, r.value.groups)
  {
    if LitAt(s, i, "import") then
      var w := RunEnd(s, i + 6, IsSpace);
      if w > i + 6 then QuotedAt(s, w) else None
    else None
  }

  function RequireAt(s: string, i: nat): (r: Option<Hit>)
    requires i <= |s|
    ensures r.Some? ==> i < r.value.end <= |s| && Shape(JsRequire, r.value.groups)
  {
    if LitAt(s, i, "require") then ParenQuoted(s, RunEnd(s, i + 7, IsSpace)) else None
  }

  function DynamicImportAt(s: string, i: nat): (r: Option<Hit>)
    requires i <= |s|
    ensures r.Some? ==> i < r.value.end <= |s| && Shape(JsDynamicImport, r.value.groups)
  {
    if LitAt(s, i, "import") then ParenQuoted(s, i + 6) else None
  }

  function FunctionDeclAt(s: string, i: nat): (r: Option<Hit>)
    requires i <= |s|
    ensures r.Some? ==> i < r.value.end <= |s| && Shape(JsFunctionDecl, r.value.groups)
  {
    if LitAt(s, i, "function") then
      var w := RunEnd(s, i + 8, IsSpace);
      if w > i + 8 then WordThenParen(s, w) else None
    else None
  }

  /** `const\s+(\w+)\s*=\s*` at i, followed by tail. */
  function ConstAt(s: string, i: nat, tail: (string, nat) -> Option<nat>): (r: Option<Hit>)
    requires i <= |s|
    requires forall a: nat :: a <= |s| ==> (tail(s, a).Some? ==> a < tail(s, a).value <= |s|)
    ensures r.Some? ==> i < r.value.end <= |s| && |r.value.groups| == 1 && IsWord(r.value.groups[0])
  {
    if LitAt(s, i, "const") then
      var w := RunEnd(s, i + 5, IsSpace);
      if w > i + 5 then WordSepTail(s, w, '=', tail) else None
    else None
  }

  function ClassAt(s: string, i: nat): (r: Option<Hit>)
    requires i <= |s|
    ensures r.Some? ==> i < r.value.end <= |s| && Shape(JsClass, r.value.groups)
  {
    if LitAt(s, i, "class") then
      var w := RunEnd(s, i + 5, IsSpace);
      if w > i + 5 then
        var e := RunEnd(s, w, IsWordChar);
        if e > w then Some(Hit(e, [s[w..e]])) else None
      else None
    else None
  }

  function AssetHrefAt(s: string, i: nat): (r: Option<Hit>)
    requires i <= |s|
    ensures r.Some? ==> i < r.value.end <= |s| && Shape(HtmlAssetHref, r.value.groups)
  {
    if FoldAt(s, i, "href=") then
      match QuotedAt(s, i + 5)
      case Some(h) =>
        (match AssetExtOf(h.groups[0])
         case Some(e) => Some(Hit(h.end, [h.groups[0], e]))
         case None => None)
      case None => None
    else None
  }

  function CssImportAt(s: string, i: nat): (r: Option<Hit>)
    requires i <= |s|
    ensures r.Some? ==> i < r.value.end <= |s| && Shape(CssImport, r.value.groups)
  {
    if LitAt(s, i, "@import") then
      var w := RunEnd(s, i + 7, IsSpace);
      if w > i + 7 then QuotedAt(s, w) else None
    else None
  }

  function CssUrlAt(s: string, i: nat): (r: Option<Hit>)
    requires i <= |s|
    ensures r.Some? ==> i < r.value.end <= |s| && Shape(CssUrl, r.value.groups)
  {
    if LitAt(s, i, "url") then
      var a := RunEnd(s, i + 3, IsSpace);
      if a < |s| && s[a] == '(' then
        var b := RunEnd(s, a + 1, IsSpace);
        var q := if b < |s| && IsQuote(s[b]) then b + 1 else b;
        var g := RunEnd(s, q, IsUrlChar);
        if g > q then
          var c := if g < |s| && IsQuote(s[g]) then g + 1 else g;
          var d := RunEnd(s, c, IsSpace);
          if d < |s| && s[d] == ')' then Some(Hit(d + 1, [s[q..g]])) else None
        else None
      else None
    else None
  }

  /** `from\s+(\S+)\s+import` at i. */
  function FromImportAt(s: string, i: nat): (r: Option<Hit>)
    requires i <= |s|
    ensures r.Some? ==> i < r.value.end <= |s| && OneModule(r.value.groups) && IsToken(r.value.groups[0])
  {
    if LitAt(s, i, "from") then
      var w := RunEnd(s, i + 4, IsSpace);
      var t := RunEnd(s, w, NotSpace);
      if w > i + 4 && t > w then
        var u := RunEnd(s, t, IsSpace);
        if u > t && LitAt(s, u, "import") then Some(Hit(u + 6, [s[w..t], ""])) else None
      else None
    else None
  }

  /** `import\s+(\S+)` at i. */
  function PlainImportAt(s: string, i: nat): (r: Option<Hit>)
    requires i <= |s|
    ensures r.Some? ==> i < r.value.end <= |s| && OneModule(r.value.groups) && IsToken(r.value.groups[1])
  {
    if LitAt(s, i, "import") then
      var w := RunEnd(s, i + 6, IsSpace);
      var t := RunEnd(s, w, NotSpace);
      if w > i + 6 && t > w then Some(Hit(t, ["", s[w..t]])) else None
    else None
  }

  predicate AtLineStart(s: string, i: nat) {
    i == 0 || (0 < i <= |s| && s[i - 1] == '\n')
  }

  function PyFromOrImportAt(s: string, i: nat): (r: Option<Hit>)
    requires i <= |s|
    ensures r.Some? ==> i < r.value.end <= |s| && Shape(PyFromOrImport, r.value.groups)
    ensures r.Some? ==> AtLineStart(s, i)
  {
    if AtLineStart(s, i) then
      match FromImportAt(s, i)
      case Some(h) => Some(h)
      case None => PlainImportAt(s, i)
    else None
  }

  function PyDefAt(s: string, i: nat): (r: Option<Hit>)
    requires i <= |s|
    ensures r.Some? ==> i < r.value.end <= |s| && Shape(PyDef, r.value.groups)
  {
    if LitAt(s, i, "def") then
      var w := RunEnd(s, i + 3, IsSpace);
      if w > i + 3 then WordThenParen(s, w) else None
    else None
  }

  function RepoUrlAt(s: string, i: nat): (r: Option<Hit>)
    requires i <= |s|
    ensures r.Some? ==> i < r.value.end <= |s| && Shape(RepoUrl, r.value.groups)
  {
    if LitAt(s, i, "github.com/") then
      var o := RunEnd(s, i + 11, IsRepoChar);
      if o > i + 11 && o < |s| && s[o] == '/' then
        var e := RunEnd(s, o + 1, IsRepoChar);
        if e > o + 1 then Some(Hit(e, [s[i + 11..o], s[o + 1..e]])) else None
      else None
    else None
  }

  /** The match of pattern p starting exactly at index i of s, if any. */
  function MatchAt(p: Pattern, s: string, i: nat): (r: Option<Hit>)
    requires i <= |s|
    ensures r.Some? ==> i < r.value.end <= |s| && Shape(p, r.value.groups)
  {
    match p
    case JsImportFrom => ImportFromAt(s, i)
    case JsImportBare => ImportBareAt(s, i)
    case JsRequire => RequireAt(s, i)
    case JsDynamicImport => DynamicImportAt(s, i)
    case JsFunctionDecl => FunctionDeclAt(s, i)
    case JsFunctionExpr => ConstAt(s, i, FunctionParenTail)
    case JsArrowConst => ConstAt(s, i, ArrowParamsTail)
    case JsMethodFunction => WordSepTail(s, i, ':', FunctionParenTail)
    case JsMethodArrow => WordSepTail(s, i, ':', ArrowParamsTail)
    case JsClass => ClassAt(s, i)
    case JsCall => WordThenParen(s, i)
    case HtmlCssLink => TagAttr(s, i, "<link", "href=", IsCssPath)
    case HtmlScriptSrc => TagAttr(s, i, "<script", "src=", HasDotJs)
    case HtmlImgSrc => TagAttr(s, i, "<img", "src=", AnyQuoted)
    case HtmlAssetHref => AssetHrefAt(s, i)
    case CssImport => CssImportAt(s, i)
    case CssUrl => CssUrlAt(s, i)
    case PyFromOrImport => PyFromOrImportAt(s, i)
    case PyDef => PyDefAt(s, i)
    case RepoUrl => RepoUrlAt(s, i)
  }

  // ---------------------------------------------------------------------------
  // findall and search

  /** `re.findall` from index i on: the groups of every match, left to right. */
  function FindAllFrom(p: Pattern, s: string, i: nat): seq<seq<string>>
    requires i <= |s|
    decreases |s| - i
  {
    if i == |s| then []
    else match MatchAt(p, s, i)
      case Some(h) => [h.groups] + FindAllFrom(p, s, h.end)
      case None => FindAllFrom(p, s, i + 1)
  }

  function FindAll(p: Pattern, s: string): seq<seq<string>> {
    FindAllFrom(p, s, 0)
  }

  /** What `findall` returns for a one-group pattern: the group of each match. */
  function Group1(ms: seq<seq<string>>): (r: seq<string>)
    ensures |r| == |ms|
  {
    seq(|ms|, k requires 0 <= k < |ms| => if |ms[k]| > 0 then ms[k][0] else "")
  }

  /** Every match findall reports has the group shape of its pattern. */
  lemma {:induction false} FindAllShape(p: Pattern, s: string, i: nat)
    requires i <= |s|
    ensures forall m :: m in FindAllFrom(p, s, i) ==> Shape(p, m)
    decreases |s| - i
  {
    if i < |s| {
      match MatchAt(p, s, i)
      case Some(h) => FindAllShape(p, s, h.end);
      case None => FindAllShape(p, s, i + 1);
    }
  }

  /** The groups of a one-group pattern's matches, as findall returns them,
      each have the pattern's group shape. */
  lemma Group1Shape(p: Pattern, s: string)
    ensures forall m :: m in FindAll(p, s) ==> Shape(p, m)
    ensures forall k :: 0 <= k < |FindAll(p, s)| ==> Shape(p, FindAll(p, s)[k])
  {
    FindAllShape(p, s, 0);
  }
}
