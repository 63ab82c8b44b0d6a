/** The parts of POSIX `os.path` that the graph builder uses to compare file
    paths: `basename`, `dirname`, `splitext` and `relpath` (with the `abspath`
    and `normpath` it relies on). Paths are strings; '/' is the only separator. */
module Paths {
  import opened Wrappers
  import opened Text

  /** `s.rfind(c)`: the index of the last c in s, or -1. */
  function RFind(s: string, c: char): (r: int)
    ensures -1 <= r < |s|
    ensures r >= 0 ==> s[r] == c
    ensures forall k :: r < k < |s| ==> s[k] != c
    ensures r == -1 <==> c !in s
    decreases |s|
  {
    if s == [] then -1
    else if s[|s| - 1] == c then |s| - 1
    else RFind(s[..|s| - 1], c)
  }

  /** `os.path.basename`: everything after the last '/'. */
  function Basename(p: string): (r: string)
    ensures '/' !in r
    ensures |r| <= |p| && p[|p| - |r|..] == r
    ensures |r| < |p| ==> p[|p| - |r| - 1] == '/'
  {
    p[RFind(p, '/') + 1..]
  }

  /** The string without its trailing run of c. */
  function RStrip(s: string, c: char): (r: string)
    ensures |r| <= |s| && s[..|r|] == r
    ensures r == [] || r[|r| - 1] != c
    ensures forall k :: |r| <= k < |s| ==> s[k] == c
    decreases |s|
  {
    if s != [] && s[|s| - 1] == c then RStrip(s[..|s| - 1], c) else s
  }

  predicate AllSlashes(s: string) {
    forall k :: 0 <= k < |s| ==> s[k] == '/'
  }

  /** `os.path.dirname`: everything up to the last '/', with the trailing slashes
      removed unless the head is nothing but slashes. */
  function Dirname(p: string): (r: string)
    ensures |r| <= |p| && p[..|r|] == r
    ensures r == "" <==> '/' !in p
    ensures r != "" && r[|r| - 1] == '/' ==> AllSlashes(r)
    ensures |r| <= RFind(p, '/') + 1
    ensures forall k :: |r| <= k <= RFind(p, '/') ==> p[k] == '/'
    ensures AllSlashes(p[..RFind(p, '/') + 1]) ==> r == p[..RFind(p, '/') + 1]
  {
    var head := p[..RFind(p, '/') + 1];
    if head != "" && !AllSlashes(head) then RStrip(head, '/') else head
  }

  lemma DirnameExamples()
    ensures Dirname("a/b//c") == "a/b"
    ensures Dirname("//c") == "//"
    ensures Dirname("c") == ""
  {
    var p := "a/b//c";
    assert RFind(p, '/') == 4 by { assert p[4] == '/' && '/' !in p[5..]; }
    var head := p[..5];
    assert head == "a/b//" && head[0] == 'a';
    assert RStrip(head, '/') == "a/b" by {
      assert head[..4] == "a/b/" && head[..4][..3] == "a/b";
      assert RStrip("a/b", '/') == "a/b";
    }
    var q := "//c";
    assert RFind(q, '/') == 1 by { assert q[1] == '/' && '/' !in q[2..]; }
    assert q[..2] == "//" && AllSlashes("//");
    assert RFind("c", '/') == -1;
  }

  /** The characters of p from lo up to (not including) hi are not all dots. */
  predicate NonDotBetween(p: string, lo: int, hi: int)
    requires 0 <= lo && hi <= |p|
  {
    exists k | lo <= k < hi :: p[k] != '.'
  }

  /** `os.path.splitext`: the extension starts at the last '.' of the last
      component, unless everything before it in the component is dots. */
  function Splitext(p: string): (r: (string, string))
    ensures r.0 + r.1 == p
    ensures r.1 != "" ==> r.1[0] == '.' && '/' !in r.1 && '.' !in r.1[1..]
    ensures r.1 != "" ==> exists k | RFind(p, '/') < k < |r.0| :: p[k] != '.'
    ensures r.1 == "" ==> forall d, k :: RFind(p, '/') < k < d < |p| && p[d] == '.' ==> p[k] == '.'
  {
    var sep := RFind(p, '/');
    var dot := RFind(p, '.');
    if dot > sep && NonDotBetween(p, sep + 1, dot) then (p[..dot], p[dot..]) else (p, "")
  }

  lemma SplitextExample()
    ensures Splitext("src/app.min.js") == ("src/app.min", ".js")
  {
    var p := "src/app.min.js";
    assert RFind(p, '.') == 11 by { assert p[11] == '.' && p[12..] == "js"; }
    assert RFind(p, '/') == 3 by { assert p[3] == '/' && '/' !in p[4..]; }
    assert p[4] != '.';
    assert p[..11] == "src/app.min" && p[11..] == ".js";
  }

  lemma SplitextLeadingDot()
    ensures Splitext("src/.bashrc") == ("src/.bashrc", "")
  {
    var p := "src/.bashrc";
    assert RFind(p, '.') == 4 by { assert p[4] == '.' && '.' !in p[5..]; }
    assert RFind(p, '/') == 3 by { assert p[3] == '/' && '/' !in p[4..]; }
  }

  /** The lower-cased extension the graph builder dispatches on. */
  function Extension(p: string): string {
    Lower(Splitext(p).1)
  }

  /** The basename without its extension. */
  function Stem(p: string): string {
    Splitext(Basename(p)).0
  }

  /** `s.split(c)`. */
  function Split(s: string, c: char): (r: seq<string>)
    ensures |r| > 0
    ensures forall x :: x in r ==> c !in x
    decreases |s|
  {
    var i := RFind(s, c);
    if i < 0 then [s] else Split(s[..i], c) + [s[i + 1..]]
  }

  /** A component kept by `normpath`: non-empty, not "." or "..", without '/'. */
  predicate Plain(x: string) {
    x != "" && x != "." && x != ".." && '/' !in x
  }

  predicate AllPlain(xs: seq<string>) {
    forall x :: x in xs ==> Plain(x)
  }

  /** One step of `normpath` on an absolute path: "" and "." vanish, ".." drops
      the last component (and nothing at the root). */
  function NormStep(acc: seq<string>, comp: string): seq<string> {
    if comp == "" || comp == "." then acc
    else if comp == ".." then (if acc == [] then [] else acc[..|acc| - 1])
    else acc + [comp]
  }

  function NormFrom(acc: seq<string>, comps: seq<string>): seq<string>
    decreases |comps|
  {
    if comps == [] then acc else NormFrom(NormStep(acc, comps[0]), comps[1..])
  }

  /** The components of `abspath(p)` when the working directory is cwd: a
      relative path is joined to cwd, then the result is normalised. */
  function AbsComponents(cwd: string, p: string): seq<string> {
    var joined := if |p| > 0 && p[0] == '/' then Split(p, '/') else Split(cwd, '/') + Split(p, '/');
    NormFrom([], joined)
  }

  function CommonPrefix(a: seq<string>, b: seq<string>): (i: nat)
    ensures i <= |a| && i <= |b| && a[..i] == b[..i]
    ensures i < |a| && i < |b| ==> a[i] != b[i]
    decreases |a|
  {
    if a != [] && b != [] && a[0] == b[0] then 1 + CommonPrefix(a[1..], b[1..]) else 0
  }

  function Repeat(x: string, n: nat): (r: seq<string>)
    ensures |r| == n && forall y :: y in r ==> y == x
  {
    seq(n, _ => x)
  }

  /** `os.path.relpath(path, start)` with working directory cwd: ".." for every
      component of start below the common prefix, then the rest of path; "." when
      both are the same directory. An empty path raises (None). */
  function Relpath(cwd: string, path: string, start: string): (r: Option<string>)
    ensures r.None? <==> path == ""
  {
    if path == "" then None
    else
      var s := AbsComponents(cwd, start);
      var t := AbsComponents(cwd, path);
      var i := CommonPrefix(s, t);
      var rel := Repeat("..", |s| - i) + t[i..];
      Some(if rel == [] then "." else Join("/", rel))
  }

  // ---------------------------------------------------------------------------
  // Properties

  /** A normalised absolute path is made of plain components. */
  lemma {:induction false} NormFromPlain(acc: seq<string>, comps: seq<string>)
    requires AllPlain(acc)
    requires forall x :: x in comps ==> '/' !in x
    ensures AllPlain(NormFrom(acc, comps))
    decreases |comps|
  {
    if comps != [] {
      var next := NormStep(acc, comps[0]);
      assert AllPlain(next) by {
        if comps[0] == ".." && acc != [] {
          forall x | x in acc[..|acc| - 1] ensures Plain(x) { assert x in acc; }
        }
      }
      assert forall x :: x in comps[1..] ==> x in comps;
      NormFromPlain(next, comps[1..]);
    }
  }

  lemma {:induction false} NormFromAppend(acc: seq<string>, a: seq<string>, b: seq<string>)
    ensures NormFrom(acc, a + b) == NormFrom(NormFrom(acc, a), b)
    decreases |a|
  {
    if a != [] {
      assert (a + b)[0] == a[0];
      assert (a + b)[1..] == a[1..] + b;
      NormFromAppend(NormStep(acc, a[0]), a[1..], b);
    } else {
      assert a + b == b;
    }
  }

  /** Plain components are appended as they are. */
  lemma {:induction false} NormFromPlainAppends(acc: seq<string>, comps: seq<string>)
    requires AllPlain(comps)
    ensures NormFrom(acc, comps) == acc + comps
    decreases |comps|
  {
    if comps != [] {
      assert comps[0] in comps;
      assert forall x :: x in comps[1..] ==> x in comps;
      NormFromPlainAppends(acc + [comps[0]], comps[1..]);
      assert acc + [comps[0]] + comps[1..] == acc + comps;
    }
  }

  /** n ".." components drop the last n components. */
  lemma {:induction false} NormFromParents(acc: seq<string>, n: nat)
    requires n <= |acc|
    ensures NormFrom(acc, Repeat("..", n)) == acc[..|acc| - n]
    decreases n
  {
    if n > 0 {
      assert Repeat("..", n)[0] == "..";
      assert Repeat("..", n)[1..] == Repeat("..", n - 1);
      NormFromParents(acc[..|acc| - 1], n - 1);
      assert acc[..|acc| - 1][..|acc| - 1 - (n - 1)] == acc[..|acc| - n];
    }
  }

  /** The last c of `head + [c] + tail` is the one after head when tail has none. */
  lemma RFindAfter(head: string, c: char, tail: string)
    requires c !in tail
    ensures RFind(head + [c] + tail, c) == |head|
  {
    var s := head + [c] + tail;
    var r := RFind(s, c);
    assert s[|head|] == c;
  }

  /** Splitting a '/'-join of slash-free parts gives the parts back. */
  lemma {:induction false} SplitJoin(parts: seq<string>)
    requires |parts| > 0
    requires forall x :: x in parts ==> '/' !in x
    ensures Split(Join("/", parts), '/') == parts
    decreases |parts|
  {
    if |parts| == 1 {
      assert Join("/", parts) == parts[0];
    } else {
      var init := parts[..|parts| - 1];
      var last := parts[|parts| - 1];
      assert last in parts;
      assert forall x :: x in init ==> x in parts;
      SplitJoin(init);
      SplitLast(Join("/", init), last);
      assert init + [last] == parts;
    }
  }

  /** Splitting at the last '/' puts the slash-free tail after the head's parts. */
  lemma SplitLast(head: string, last: string)
    requires '/' !in last
    ensures Split(head + "/" + last, '/') == Split(head, '/') + [last]
  {
    var s := head + "/" + last;
    RFindAfter(head, '/', last);
    assert s[..|head|] == head;
    assert s[|head| + 1..] == last;
  }

  /** On components: climbing from s to the common prefix and descending
      along the rest of t arrives at t. */
  lemma RelComponents(s: seq<string>, t: seq<string>, i: nat)
    requires i <= |s| && i <= |t| && s[..i] == t[..i]
    requires AllPlain(t)
    ensures NormFrom(s, Repeat("..", |s| - i) + t[i..]) == t
  {
    assert AllPlain(t[i..]) by {
      forall x | x in t[i..] ensures Plain(x) { assert x in t; }
    }
    NormFromAppend(s, Repeat("..", |s| - i), t[i..]);
    NormFromParents(s, |s| - i);
    NormFromPlainAppends(s[..i], t[i..]);
    assert t[..i] + t[i..] == t;
  }

  /** The components of a relative path contain no slash. */
  lemma RelPartsSlashFree(t: seq<string>, i: nat, n: nat)
    requires i <= |t| && AllPlain(t)
    ensures forall x :: x in Repeat("..", n) + t[i..] ==> '/' !in x
  {
    forall x | x in Repeat("..", n) + t[i..] ensures '/' !in x {
      if x in t[i..] {
        assert x in t;
      }
    }
  }

  /** The relative path leads back: normalising start's components followed by
      the relative path's components gives path's components. */
  lemma RelpathRoundTrip(cwd: string, path: string, start: string)
    requires path != ""
    ensures NormFrom(AbsComponents(cwd, start), Split(Relpath(cwd, path, start).value, '/'))
            == AbsComponents(cwd, path)
  {
    var s := AbsComponents(cwd, start);
    var t := AbsComponents(cwd, path);
    var i := CommonPrefix(s, t);
    var rel := Repeat("..", |s| - i) + t[i..];
    NormFromPlain([], if |path| > 0 && path[0] == '/' then Split(path, '/') else Split(cwd, '/') + Split(path, '/'));
    RelComponents(s, t, i);
    if rel == [] {
      assert Split(".", '/') == ["."];
    } else {
      RelPartsSlashFree(t, i, |s| - i);
      SplitJoin(rel);
    }
  }
}
