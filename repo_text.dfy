/** Two helpers of the repository analyzer outside the graph builder:
    `extract_repo_info`, which reads the owner and the repository name out of
    a GitHub URL, and `chunk_text`, which cuts a file into overlapping windows
    of lines before they are embedded. */
module RepoText {
  import opened Wrappers
  import opened Text
  import opened Patterns

  // ---------------------------------------------------------------------------
  // extract_repo_info

  /** `re.search` with the repository pattern: the first match at or after index i. */
  function SearchRepoUrl(s: string, i: nat): (r: Option<Hit>)
    requires i <= |s|
    ensures r.Some? ==> Shape(RepoUrl, r.value.groups)
    decreases |s| - i
  {
    if i == |s| then None
    else match RepoUrlAt(s, i)
      case Some(h) => Some(h)
      case None => SearchRepoUrl(s, i + 1)
  }

  /** No position from lo up to (not including) hi starts a match. */
  predicate NoMatchBetween(s: string, lo: nat, hi: nat)
    requires hi <= |s|
  {
    forall j :: lo <= j < hi ==> RepoUrlAt(s, j).None?
  }

  /** The search finds nothing iff no position from i on starts a match. */
  lemma {:induction false} SearchNone(s: string, i: nat)
    requires i <= |s|
    ensures SearchRepoUrl(s, i).None? <==> NoMatchBetween(s, i, |s|)
    decreases |s| - i
  {
    if i < |s| {
      SearchNone(s, i + 1);
      if RepoUrlAt(s, i).None? {
        assert NoMatchBetween(s, i, |s|) <==> NoMatchBetween(s, i + 1, |s|);
      }
    }
  }

  /** A search that finds something returns the match at a position before
      which no match starts. */
  lemma {:induction false} SearchFirst(s: string, i: nat)
    requires i <= |s| && SearchRepoUrl(s, i).Some?
    ensures exists k :: i <= k < |s| && RepoUrlAt(s, k) == SearchRepoUrl(s, i) && NoMatchBetween(s, i, k)
    decreases |s| - i
  {
    if RepoUrlAt(s, i).Some? {
      assert NoMatchBetween(s, i, i);
    } else {
      SearchFirst(s, i + 1);
      var k :| i + 1 <= k < |s| && RepoUrlAt(s, k) == SearchRepoUrl(s, i + 1) && NoMatchBetween(s, i + 1, k);
      assert NoMatchBetween(s, i, k);
    }
  }

  /** Positions without a match are skipped by the search. */
  lemma {:induction false} SearchSkip(s: string, i: nat, k: nat)
    requires i <= k <= |s|
    requires NoMatchBetween(s, i, k)
    ensures SearchRepoUrl(s, i) == SearchRepoUrl(s, k)
    decreases k - i
  {
    if i < k {
      SearchSkip(s, i + 1, k);
    }
  }

  /** `extract_repo_info`: the owner and the name of the first
      `github.com/<owner>/<name>` in the URL; None stands for `(None, None)`. */
  function ExtractRepoInfo(url: string): (r: Option<(string, string)>)
    ensures r.Some? ==> IsRepoName(r.value.0) && IsRepoName(r.value.1)
  {
    match SearchRepoUrl(url, 0)
    case None => None
    case Some(h) => Some((h.groups[0], h.groups[1]))
  }

  /** k is the leftmost position where a match starts, and its groups are
      owner and name. */
  predicate LeftmostRepoMatch(url: string, k: nat, owner: string, name: string)
    requires k < |url|
  {
    NoMatchBetween(url, 0, k) && RepoUrlAt(url, k).Some? && RepoUrlAt(url, k).value.groups == [owner, name]
  }

  /** A pair is found iff some position of the URL starts a match, and it is
      the pair of the leftmost one. */
  lemma RepoInfoLeftmost(url: string)
    ensures ExtractRepoInfo(url).None? <==> NoMatchBetween(url, 0, |url|)
    ensures ExtractRepoInfo(url).Some? ==>
      exists k :: 0 <= k < |url| && LeftmostRepoMatch(url, k, ExtractRepoInfo(url).value.0, ExtractRepoInfo(url).value.1)
  {
    SearchNone(url, 0);
    if ExtractRepoInfo(url).Some? {
      SearchFirst(url, 0);
      var k :| 0 <= k < |url| && RepoUrlAt(url, k) == SearchRepoUrl(url, 0) && NoMatchBetween(url, 0, k);
      var gs := RepoUrlAt(url, k).value.groups;
      assert gs == [gs[0], gs[1]];
      assert LeftmostRepoMatch(url, k, ExtractRepoInfo(url).value.0, ExtractRepoInfo(url).value.1);
    }
  }

  /** The end of the run of repository-name characters that starts at i is
      the first character that is not one. */
  lemma RunEndAt(s: string, i: nat, e: nat)
    requires i <= e <= |s|
    requires forall k :: i <= k < e ==> IsRepoChar(s[k])
    requires e == |s| || !IsRepoChar(s[e])
    ensures RunEnd(s, i, IsRepoChar) == e
  {
  }

  /** A match starts with the 'g' of "github.com/". */
  lemma MatchStartsWithG(s: string, j: nat)
    requires j < |s| && s[j] != 'g'
    ensures RepoUrlAt(s, j).None?
  {
  }

  /** No match starts inside the scheme "https://". */
  lemma SchemeHasNoMatch(url: string)
    requires |url| >= 8 && url[..8] == "https://"
    ensures NoMatchBetween(url, 0, 8)
  {
    forall j | 0 <= j < 8 ensures RepoUrlAt(url, j).None? {
      assert url[j] == url[..8][j];
      MatchStartsWithG(url, j);
    }
  }

  /** The match at the host: the owner up to the '/', the name up to the
      first character that cannot extend it. */
  lemma HostMatch(url: string, owner: string, name: string)
    requires IsRepoName(owner) && IsRepoName(name)
    requires |url| >= 20 + |owner| + |name|
    requires url[8..19] == "github.com/" && url[19..19 + |owner|] == owner && url[19 + |owner|] == '/'
    requires url[20 + |owner|..20 + |owner| + |name|] == name
    requires |url| == 20 + |owner| + |name| || !IsRepoChar(url[20 + |owner| + |name|])
    ensures RepoUrlAt(url, 8) == Some(Hit(20 + |owner| + |name|, [owner, name]))
  {
    var o := 19 + |owner|;
    var e := o + 1 + |name|;
    assert LitAt(url, 8, "github.com/");
    forall k | 19 <= k < o ensures IsRepoChar(url[k]) {
      assert url[k] == owner[k - 19];
    }
    RunEndAt(url, 19, o);
    forall k | o + 1 <= k < e ensures IsRepoChar(url[k]) {
      assert url[k] == name[k - o - 1];
    }
    RunEndAt(url, o + 1, e);
  }

  /** The owner and the name of a repository URL come back out, whatever
      follows the name (a path, a query) as long as it does not extend it. */
  lemma RepoInfoRoundTrip(owner: string, name: string, rest: string)
    requires IsRepoName(owner) && IsRepoName(name)
    requires rest == "" || !IsRepoChar(rest[0])
    ensures ExtractRepoInfo("https://github.com/" + owner + "/" + name + rest) == Some((owner, name))
  {
    var url := "https://github.com/" + owner + "/" + name + rest;
    var o := 19 + |owner|;
    var e := o + 1 + |name|;
    assert url[..19] == "https://github.com/";
    assert url[..8] == url[..19][..8] == "https://";
    assert url[8..19] == url[..19][8..19] == "github.com/";
    assert url[19..o] == owner;
    assert url[o] == '/';
    assert url[o + 1..e] == name;
    assert rest != "" ==> url[e] == rest[0];
    SchemeHasNoMatch(url);
    SearchSkip(url, 0, 8);
    HostMatch(url, owner, name);
  }

  // ---------------------------------------------------------------------------
  // chunk_text

  /** The line boundaries of `str.splitlines`. */
  predicate IsLineBreak(c: char) {
    c == '\n' || c == '\r' || c == '\U{0B}' || c == '\U{0C}' || '\U{1C}' <= c <= '\U{1E}'
    || c == '\U{85}' || c == '\U{2028}' || c == '\U{2029}'
  }

  predicate NotLineBreak(c: char) { !IsLineBreak(c) }

  predicate IsLine(s: string) {
    forall k :: 0 <= k < |s| ==> !IsLineBreak(s[k])
  }

  /** `text.splitlines()`: the lines without their boundaries; "\r\n" is one
      boundary, and a boundary at the very end does not start an empty line. */
  function SplitLines(s: string): (r: seq<string>)
    ensures forall line :: line in r ==> IsLine(line)
    ensures r == [] <==> s == []
    decreases |s|
  {
    if s == [] then []
    else
      var k := RunEnd(s, 0, NotLineBreak);
      if k == |s| then [s]
      else
        var next := if s[k] == '\r' && k + 1 < |s| && s[k + 1] == '\n' then k + 2 else k + 1;
        [s[..k]] + SplitLines(s[next..])
  }

  lemma {:induction false} JoinCons(sep: string, x: string, rest: seq<string>)
    requires rest != []
    ensures Join(sep, [x] + rest) == x + sep + Join(sep, rest)
    decreases |rest|
  {
    var parts := [x] + rest;
    if |rest| > 1 {
      var init := rest[..|rest| - 1];
      assert parts[..|parts| - 1] == [x] + init;
      JoinCons(sep, x, init);
    } else {
      assert parts[..1] == [x];
    }
  }

  /** Joining the lines of a text whose only boundary is "\n", and which does
      not end with one, with "\n" gives the text back. */
  lemma {:induction false} SplitLinesJoin(s: string)
    requires forall k :: 0 <= k < |s| && IsLineBreak(s[k]) ==> s[k] == '\n'
    requires s == [] || s[|s| - 1] != '\n'
    ensures Join("\n", SplitLines(s)) == s
    decreases |s|
  {
    if s != [] {
      var k := RunEnd(s, 0, NotLineBreak);
      if k < |s| {
        var rest := s[k + 1..];
        assert rest != [];
        assert s[k] == '\n';
        SplitLinesJoin(rest);
        JoinCons("\n", s[..k], SplitLines(rest));
        assert s == s[..k] + "\n" + rest;
      }
    }
  }

  /** Python's `xs[i:j]` for a non-negative i: a negative j counts from the end,
      and both bounds are clamped to the list. */
  function Slice(xs: seq<string>, i: nat, j: int): (r: seq<string>)
    ensures 0 <= j && i <= j <= |xs| ==> r == xs[i..j]
    ensures 0 <= j <= i ==> r == []
    ensures j < 0 && i < |xs| + j ==> r == xs[i..|xs| + j]
  {
    var hi := if j < 0 then (if |xs| + j < 0 then 0 else |xs| + j) else if j > |xs| then |xs| else j;
    if i < hi then xs[i..hi] else []
  }

  /** The windows the loop visits from line i on, as (start, end) pairs: the
      end is `min(start + size, n)`; the loop stops after a window that ends
      at n, otherwise the next start is `max(end - overlap, start + 1)`. */
  function Windows(n: nat, i: nat, size: int, overlap: int): seq<(nat, int)>
    decreases n - i
  {
    if i >= n then []
    else
      var j := if i + size < n then i + size else n;
      if j == n then [(i, j)]
      else
        var next := if j - overlap > i + 1 then j - overlap else i + 1;
        [(i, j)] + Windows(n, next, size, overlap)
  }

  /** The text of each window: its lines joined with "\n". */
  function WindowTexts(lines: seq<string>, ws: seq<(nat, int)>): (r: seq<string>)
    ensures |r| == |ws|
    ensures forall k :: 0 <= k < |ws| ==> r[k] == Join("\n", Slice(lines, ws[k].0, ws[k].1))
  {
    seq(|ws|, k requires 0 <= k < |ws| => Join("\n", Slice(lines, ws[k].0, ws[k].1)))
  }

  /** `[c for c in chunks if c.strip()]`: the chunks that are not all
      whitespace, in order. */
  function NonBlank(chunks: seq<string>): (r: seq<string>)
    ensures forall c :: c in r <==> c in chunks && !IsBlank(c)
    ensures |r| <= |chunks|
    decreases |chunks|
  {
    if chunks == [] then []
    else
      var c := chunks[|chunks| - 1];
      NonBlank(chunks[..|chunks| - 1]) + (if IsBlank(c) then [] else [c])
  }

  /** The filter works chunk by chunk: filtering a concatenation concatenates
      the filtered parts, so order and repetitions are kept. */
  lemma {:induction false} NonBlankAppend(a: seq<string>, b: seq<string>)
    ensures NonBlank(a + b) == NonBlank(a) + NonBlank(b)
    decreases |b|
  {
    if b == [] {
      assert a + b == a;
    } else {
      var init := b[..|b| - 1];
      var c := b[|b| - 1];
      assert (a + b)[..|a + b| - 1] == a + init;
      NonBlankAppend(a, init);
    }
  }

  /** A single chunk is kept iff it is not blank. */
  lemma NonBlankSingle(c: string)
    ensures NonBlank([c]) == (if IsBlank(c) then [] else [c])
  {
    assert [c][..0] == [];
  }

  /** What `chunk_text` returns. */
  function Chunks(text: string, size: int, overlap: int): seq<string> {
    var lines := SplitLines(text);
    NonBlank(WindowTexts(lines, Windows(|lines|, 0, size, overlap)))
  }

  /** One window, then the rest from the next start. */
  lemma WindowsStep(n: nat, i: nat, size: int, overlap: int)
    requires i < n
    ensures var j := if i + size < n then i + size else n;
      var next := if j - overlap > i + 1 then j - overlap else i + 1;
      Windows(n, i, size, overlap) == [(i, j)] + (if j == n then [] else Windows(n, next, size, overlap))
  {
  }

  lemma WindowTextsSnoc(lines: seq<string>, ws: seq<(nat, int)>, w: (nat, int))
    ensures WindowTexts(lines, ws + [w]) == WindowTexts(lines, ws) + [Join("\n", Slice(lines, w.0, w.1))]
  {
    assert (ws + [w])[|ws|] == w;
    forall k | 0 <= k < |ws| ensures (ws + [w])[k] == ws[k] {
    }
  }

  lemma AppendAssoc<T>(a: seq<T>, b: seq<T>, c: seq<T>)
    ensures a + (b + c) == (a + b) + c
  {
  }

  /** Taking the window at i moves it from the windows still to come to the
      windows done. */
  lemma WindowsAdvance(n: nat, i: nat, j: int, next: nat, size: int, overlap: int, done: seq<(nat, int)>)
    requires i < n
    requires j == if i + size < n then i + size else n
    requires next == if j - overlap > i + 1 then j - overlap else i + 1
    ensures done + Windows(n, i, size, overlap) == (done + [(i, j)]) + (if j == n then [] else Windows(n, next, size, overlap))
  {
    WindowsStep(n, i, size, overlap);
    AppendAssoc(done, [(i, j)], if j == n then [] else Windows(n, next, size, overlap));
  }

  /** The window loop of `chunk_text`: the text of every window, in order. */
  method WindowLoop(lines: seq<string>, size: int, overlap: int) returns (chunks: seq<string>)
    ensures chunks == WindowTexts(lines, Windows(|lines|, 0, size, overlap))
  {
    ghost var all := Windows(|lines|, 0, size, overlap);
    chunks := [];
    ghost var done: seq<(nat, int)> := [];
    var i: nat := 0;
    while i < |lines|
      invariant done + Windows(|lines|, i, size, overlap) == all
      invariant chunks == WindowTexts(lines, done)
      decreases |lines| - i
    {
      var j := if i + size < |lines| then i + size else |lines|;
      var next := if j - overlap > i + 1 then j - overlap else i + 1;
      WindowsAdvance(|lines|, i, j, next, size, overlap, done);
      WindowTextsSnoc(lines, done, (i, j));
      chunks := chunks + [Join("\n", Slice(lines, i, j))];
      done := done + [(i, j)];
      if j == |lines| {
        assert done + [] == done;
        return;
      }
      i := next;
    }
    assert done == all;
  }

  /** The defaults of `chunk_text`'s keyword arguments. */
  const DefaultChunkSize := 800
  const DefaultOverlap := 120

  /** `chunk_text`: the lines, the window loop, then the blank chunks dropped. */
  method ChunkText(text: string, size: int, overlap: int) returns (result: seq<string>)
    ensures result == Chunks(text, size, overlap)
  {
    var lines := SplitLines(text);
    var chunks := WindowLoop(lines, size, overlap);
    result := NonBlank(chunks);
  }

  // ---------------------------------------------------------------------------
  // Properties of the windows

  /** Every start lies in [lo, n) and the starts strictly increase. */
  predicate StartsWithin(ws: seq<(nat, int)>, lo: nat, n: nat) {
    (forall k :: 0 <= k < |ws| ==> lo <= ws[k].0 < n)
    && forall a, b :: 0 <= a < b < |ws| ==> ws[a].0 < ws[b].0
  }

  lemma {:induction false} WindowsStarts(n: nat, i: nat, size: int, overlap: int)
    ensures StartsWithin(Windows(n, i, size, overlap), i, n)
    decreases n - i
  {
    if i < n {
      var j := if i + size < n then i + size else n;
      if j != n {
        var next := if j - overlap > i + 1 then j - overlap else i + 1;
        WindowsStarts(n, next, size, overlap);
        WindowsStep(n, i, size, overlap);
        StartsCons((i, j), Windows(n, next, size, overlap), i, next, n);
      }
    }
  }

  lemma StartsCons(w: (nat, int), rest: seq<(nat, int)>, lo: nat, mid: nat, n: nat)
    requires lo <= w.0 < mid && w.0 < n
    requires StartsWithin(rest, mid, n)
    ensures StartsWithin([w] + rest, lo, n)
  {
    var ws := [w] + rest;
    forall a, b | 0 <= a < b < |ws| ensures ws[a].0 < ws[b].0 {
      assert ws[b] == rest[b - 1];
      if a > 0 {
        assert ws[a] == rest[a - 1];
      }
    }
  }

  /** Each window holds between one and size lines of the n. */
  predicate Sized(ws: seq<(nat, int)>, n: nat, size: int) {
    forall k :: 0 <= k < |ws| ==> ws[k].0 < ws[k].1 <= n && ws[k].1 - ws[k].0 <= size
  }

  /** Some window holds the line. */
  predicate Covered(ws: seq<(nat, int)>, line: nat) {
    exists k :: 0 <= k < |ws| && ws[k].0 <= line < ws[k].1
  }

  /** With a positive size each window holds between one and size lines, and
      with a non-negative overlap the windows cover every line and the last
      one ends at the last line. */
  lemma {:induction false} WindowsCover(n: nat, i: nat, size: int, overlap: int)
    requires size > 0
    ensures Sized(Windows(n, i, size, overlap), n, size)
    ensures overlap >= 0 && i < n ==>
      Windows(n, i, size, overlap) != [] && Windows(n, i, size, overlap)[|Windows(n, i, size, overlap)| - 1].1 == n
    ensures overlap >= 0 ==> forall line :: i <= line < n ==> Covered(Windows(n, i, size, overlap), line)
    decreases n - i
  {
    if i < n {
      var ws := Windows(n, i, size, overlap);
      var j := if i + size < n then i + size else n;
      if j != n {
        var next := if j - overlap > i + 1 then j - overlap else i + 1;
        WindowsCover(n, next, size, overlap);
        WindowsStep(n, i, size, overlap);
        var rest := Windows(n, next, size, overlap);
        SizedCons((i, j), rest, n, size);
        if overlap >= 0 {
          CoveredCons((i, j), rest, i, n);
          assert rest != [] && ws[|ws| - 1] == rest[|rest| - 1];
        }
      } else {
        forall line | i <= line < n ensures Covered(ws, line) {
          assert ws[0].0 <= line < ws[0].1;
        }
      }
    }
  }

  /** With the default arguments every window holds between 1 and 800 lines,
      the windows cover every line and the last one ends at the last line. */
  lemma DefaultWindowsCover(n: nat)
    ensures Sized(Windows(n, 0, DefaultChunkSize, DefaultOverlap), n, DefaultChunkSize)
    ensures forall line :: 0 <= line < n ==> Covered(Windows(n, 0, DefaultChunkSize, DefaultOverlap), line)
    ensures n > 0 ==> Windows(n, 0, DefaultChunkSize, DefaultOverlap)[|Windows(n, 0, DefaultChunkSize, DefaultOverlap)| - 1].1 == n
  {
    WindowsCover(n, 0, DefaultChunkSize, DefaultOverlap);
  }

  lemma SizedCons(w: (nat, int), rest: seq<(nat, int)>, n: nat, size: int)
    requires w.0 < w.1 <= n && w.1 - w.0 <= size
    requires Sized(rest, n, size)
    ensures Sized([w] + rest, n, size)
  {
    var ws := [w] + rest;
    forall k | 0 <= k < |ws| ensures ws[k].0 < ws[k].1 <= n && ws[k].1 - ws[k].0 <= size {
      if k > 0 {
        assert ws[k] == rest[k - 1];
      }
    }
  }

  /** A first window [lo, w.1) followed by windows covering [rest's start, n)
      with that start inside the first window covers [lo, n). */
  lemma CoveredCons(w: (nat, int), rest: seq<(nat, int)>, lo: nat, n: nat)
    requires w.0 == lo <= w.1
    requires forall line :: w.1 <= line < n ==> Covered(rest, line)
    ensures forall line :: lo <= line < n ==> Covered([w] + rest, line)
  {
    var ws := [w] + rest;
    forall line | lo <= line < n ensures Covered(ws, line) {
      if line < w.1 {
        assert ws[0].0 <= line < ws[0].1;
      } else {
        assert Covered(rest, line);
        var k :| 0 <= k < |rest| && rest[k].0 <= line < rest[k].1;
        assert ws[k + 1] == rest[k];
      }
    }
  }

  /** c is the text of one of the windows over the lines. */
  predicate IsWindowText(c: string, lines: seq<string>, ws: seq<(nat, int)>) {
    exists w :: w in ws && c == Join("\n", Slice(lines, w.0, w.1))
  }

  /** Every chunk returned has a non-whitespace character and is the text of
      one of the windows; an empty text gives no chunk. */
  lemma ChunksNonBlank(text: string, size: int, overlap: int)
    ensures forall c :: c in Chunks(text, size, overlap) ==>
      !IsBlank(c) && IsWindowText(c, SplitLines(text), Windows(|SplitLines(text)|, 0, size, overlap))
    ensures text == "" ==> Chunks(text, size, overlap) == []
  {
    var lines := SplitLines(text);
    var ws := Windows(|lines|, 0, size, overlap);
    var texts := WindowTexts(lines, ws);
    forall c | c in Chunks(text, size, overlap) ensures IsWindowText(c, lines, ws) {
      var k :| 0 <= k < |texts| && texts[k] == c;
      assert ws[k] in ws;
    }
  }
}
