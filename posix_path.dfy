/**
 * The `os.path` functions the ingestion scripts call, with POSIX semantics
 * (`/` is the only separator): `join`, `basename`, `split`, `splitext`,
 * `abspath` reduced to its list of components, and `relpath`. The working
 * directory that `abspath` consults is a parameter.
 */
module PosixPath {
  import opened Wrappers
  import opened PyStrings

  predicate IsAbsolute(p: string) {
    p != [] && p[0] == '/'
  }

  /** A character absent from `s` as a one-character substring is absent outright. */
  lemma NotContainsChar(s: string, c: char)
    requires !Contains(s, [c])
    ensures c !in s
  {
    if c in s {
      var i :| 0 <= i < |s| && s[i] == c;
      assert s[i..i + 1] == [c];
      assert OccursAt(s, [c], i);
    }
  }

  /** A string without `c` does not contain `c` as a substring. */
  lemma CharNotContained(s: string, c: char)
    requires c !in s
    ensures !Contains(s, [c])
  {
    MissingCharNotContained(s, [c], 0);
  }

  // ------------------------------------------------------------ join, basename

  /** `os.path.join(a, b)`. */
  function PathJoin(a: string, b: string): string {
    if IsAbsolute(b) then b
    else if a == [] || a[|a| - 1] == '/' then a + b
    else a + "/" + b
  }

  /** The index just past the last `/`, 0 when there is none (`p.rfind('/') + 1`). */
  function TailStart(p: string): (i: nat)
    ensures i <= |p|
    ensures i > 0 ==> p[i - 1] == '/'
    ensures forall j :: i <= j < |p| ==> p[j] != '/'
    decreases |p|
  {
    if p == [] then 0
    else if p[|p| - 1] == '/' then |p|
    else TailStart(p[..|p| - 1])
  }

  /** `os.path.basename(p)`: the longest suffix without a `/`. */
  function Basename(p: string): (r: string)
    ensures '/' !in r
    ensures |r| <= |p| && r == p[|p| - |r|..]
    ensures |r| < |p| ==> p[|p| - |r| - 1] == '/'
  {
    p[TailStart(p)..]
  }

  /** A path without `/` has its tail at 0. */
  lemma {:induction false} TailStartNone(y: string)
    requires '/' !in y
    ensures TailStart(y) == 0
    decreases |y|
  {
    if y != [] {
      TailStartNone(y[..|y| - 1]);
    }
  }

  /** The tail starts right after a `/` that only slash-free text follows. */
  lemma {:induction false} TailStartAfter(x: string, y: string)
    requires '/' !in y
    ensures TailStart(x + "/" + y) == |x| + 1
    decreases |y|
  {
    var p := x + "/" + y;
    if y != [] {
      var y' := y[..|y| - 1];
      assert p[..|p| - 1] == x + "/" + y';
      assert p[|p| - 1] == y[|y| - 1];
      TailStartAfter(x, y');
    }
  }

  /**
   * Joining a name without a `/` onto any directory: the name is what
   * `basename` gives back, and an absolute name replaces the directory.
   */
  lemma JoinBasename(dir: string, name: string)
    requires '/' !in name
    ensures Basename(PathJoin(dir, name)) == name
  {
    if dir == [] {
      TailStartNone(name);
    } else if dir[|dir| - 1] == '/' {
      var d := dir[..|dir| - 1];
      assert dir + name == d + "/" + name;
      TailStartAfter(d, name);
    } else {
      TailStartAfter(dir, name);
    }
  }

  /** An absolute second argument replaces the first; a relative one extends it. */
  lemma JoinCases(a: string, b: string)
    ensures IsAbsolute(b) ==> PathJoin(a, b) == b
    ensures !IsAbsolute(b) ==> |a| <= |PathJoin(a, b)| && PathJoin(a, b)[..|a|] == a
    ensures !IsAbsolute(b) ==> PathJoin(a, b)[|PathJoin(a, b)| - |b|..] == b
  {
  }

  // ------------------------------------------------------------ split

  predicate AllSlashes(s: string) {
    forall i :: 0 <= i < |s| ==> s[i] == '/'
  }

  /** `s.rstrip('/')`. */
  function RStripSlashes(s: string): (r: string)
    ensures |r| <= |s| && r == s[..|r|]
    ensures r != [] ==> r[|r| - 1] != '/'
    ensures forall j :: |r| <= j < |s| ==> s[j] == '/'
    decreases |s|
  {
    if s != [] && s[|s| - 1] == '/' then RStripSlashes(s[..|s| - 1]) else s
  }

  /** Stripping leaves nothing exactly when there were only slashes. */
  lemma RStripSlashesEmpty(s: string)
    ensures RStripSlashes(s) == [] <==> AllSlashes(s)
  {
  }

  /**
   * `os.path.split(p)`: everything up to the last `/` and the rest. The head
   * loses its trailing slashes unless it consists of nothing else.
   */
  function PathSplit(p: string): (string, string) {
    var i := TailStart(p);
    var head := p[..i];
    (if head != [] && !AllSlashes(head) then RStripSlashes(head) else head, p[i..])
  }

  /**
   * The tail of `split` is the basename; the head is empty exactly when the
   * path has no `/`, and it keeps a trailing `/` only when it is all slashes.
   */
  lemma SplitParts(p: string)
    ensures PathSplit(p).1 == Basename(p)
    ensures PathSplit(p).0 == [] <==> '/' !in p
    ensures var h := PathSplit(p).0; |h| <= |p| && h == p[..|h|]
    ensures var h := PathSplit(p).0; h != [] && h[|h| - 1] == '/' ==> AllSlashes(h)
  {
    var i := TailStart(p);
    var head := p[..i];
    RStripSlashesEmpty(head);
    if '/' in p {
      var j :| 0 <= j < |p| && p[j] == '/';
      assert j < i;
    }
  }

  /** Splitting a join of a directory and a plain name gives both back. */
  lemma SplitJoined(dir: string, name: string)
    requires '/' !in name
    requires dir == [] || dir[|dir| - 1] != '/'
    ensures PathSplit(PathJoin(dir, name)) == (dir, name)
  {
    var p := PathJoin(dir, name);
    JoinBasename(dir, name);
    if dir != [] {
      assert p == dir + "/" + name;
      TailStartAfter(dir, name);
      var i := TailStart(p);
      var head := p[..i];
      assert head == dir + "/";
      assert !AllSlashes(head) by {
        assert head[|dir| - 1] != '/';
      }
      assert RStripSlashes(head) == RStripSlashes(dir);
    } else {
      TailStartNone(name);
    }
  }

  // ------------------------------------------------------------ splitext

  /** The index of the last `c` in `p` (`p.rfind(c)`, None for -1). */
  function LastIndex(p: string, c: char): (r: Option<nat>)
    ensures r.Some? ==> r.value < |p| && p[r.value] == c
    ensures r.Some? ==> forall j :: r.value < j < |p| ==> p[j] != c
    ensures r.None? <==> c !in p
    decreases |p|
  {
    if p == [] then None
    else if p[|p| - 1] == c then Some(|p| - 1)
    else LastIndex(p[..|p| - 1], c)
  }

  predicate AllDots(s: string) {
    forall i :: 0 <= i < |s| ==> s[i] == '.'
  }

  /**
   * `os.path.splitext(p)`: a cut at the last `.`, provided it comes after
   * the last `/` and something other than a dot precedes it within the
   * file name (a leading run of dots does not start an extension).
   */
  function Splitext(p: string): (string, string) {
    var t := TailStart(p);
    match LastIndex(p, '.')
    case None => (p, "")
    case Some(d) =>
      if t <= d && !AllDots(p[t..d]) then (p[..d], p[d..]) else (p, "")
  }

  /**
   * The two parts make up the path; the extension is empty or one `.`
   * followed by text with no `.` and no `/`.
   */
  lemma SplitextParts(p: string)
    ensures Splitext(p).0 + Splitext(p).1 == p
    ensures var e := Splitext(p).1; e == [] || (e[0] == '.' && '.' !in e[1..] && '/' !in e)
  {
    var t := TailStart(p);
    match LastIndex(p, '.')
    case None =>
    case Some(d) =>
      if t <= d && !AllDots(p[t..d]) {
        var e := p[d..];
        assert p[..d] + e == p;
        forall j | 1 <= j < |e| ensures e[j] != '.' && e[j] != '/' {
          assert e[j] == p[d + j];
        }
        assert e[0] == '/' ==> false by {
          assert e[0] == p[d];
        }
      }
  }

  /** A file name with a non-dot stem loses exactly its last extension. */
  lemma SplitextName(stem: string, ext: string)
    requires '/' !in stem && '/' !in ext && '.' !in ext
    requires !AllDots(stem)
    ensures Splitext(stem + "." + ext) == (stem, "." + ext)
  {
    var p := stem + "." + ext;
    TailStartNone(p);
    LastIndexAfter(stem, '.', ext);
    assert p[0..|stem|] == stem;
    assert p[..|stem|] == stem;
    assert p[|stem|..] == "." + ext;
  }

  /** The last `c` is the one that only `c`-free text follows. */
  lemma {:induction false} LastIndexAfter(x: string, c: char, y: string)
    requires c !in y
    ensures LastIndex(x + [c] + y, c) == Some(|x|)
    decreases |y|
  {
    var p := x + [c] + y;
    if y != [] {
      var y' := y[..|y| - 1];
      assert p[..|p| - 1] == x + [c] + y';
      assert p[|p| - 1] == y[|y| - 1];
      LastIndexAfter(x, c, y');
    }
  }

  /** A name without a dot has no extension. */
  lemma SplitextNoDot(p: string)
    requires '.' !in p
    ensures Splitext(p) == (p, "")
  {
  }

  // ------------------------------------------------------------ abspath, relpath

  /** One step of `normpath` on an absolute path: empty and `.` parts vanish, `..` drops the last kept part. */
  function Step(acc: seq<string>, c: string): seq<string> {
    if c == "" || c == "." then acc
    else if c == ".." then (if acc == [] then [] else acc[..|acc| - 1])
    else acc + [c]
  }

  /** The parts `normpath` keeps of an absolute path cut at every `/`. */
  function Normalize(cs: seq<string>): seq<string>
    decreases |cs|
  {
    if cs == [] then [] else Step(Normalize(cs[..|cs| - 1]), cs[|cs| - 1])
  }

  /** A part of a normalised path. */
  predicate Component(c: string) {
    c != "" && c != "." && c != ".." && '/' !in c
  }

  /** Normalising pieces free of `/` leaves only proper components. */
  lemma {:induction false} NormalizeComponents(cs: seq<string>)
    requires forall k :: 0 <= k < |cs| ==> '/' !in cs[k]
    ensures forall k :: 0 <= k < |Normalize(cs)| ==> Component(Normalize(cs)[k])
    decreases |cs|
  {
    if cs != [] {
      NormalizeComponents(cs[..|cs| - 1]);
    }
  }

  /**
   * `[x for x in os.path.abspath(p).split('/') if x]`, with `cwd` as the
   * working directory: a relative path is first joined onto it.
   */
  function AbsParts(p: string, cwd: string): seq<string>
    requires IsAbsolute(cwd)
  {
    Normalize(Split(PathJoin(cwd, p), "/"))
  }

  /** Every part of an absolute path is a proper component. */
  lemma AbsPartsComponents(p: string, cwd: string)
    requires IsAbsolute(cwd)
    ensures forall k :: 0 <= k < |AbsParts(p, cwd)| ==> Component(AbsParts(p, cwd)[k])
  {
    var pieces := Split(PathJoin(cwd, p), "/");
    SplitPieces(PathJoin(cwd, p), "/");
    forall k | 0 <= k < |pieces| ensures '/' !in pieces[k] {
      NotContainsChar(pieces[k], '/');
    }
    NormalizeComponents(pieces);
  }

  /** The length of the longest common prefix of two part lists (`commonprefix`). */
  function CommonPrefix(a: seq<string>, b: seq<string>): (k: nat)
    ensures k <= |a| && k <= |b|
    decreases |a|
  {
    if a == [] || b == [] || a[0] != b[0] then 0 else 1 + CommonPrefix(a[1..], b[1..])
  }

  /** The lists agree up to the common prefix, and differ right after it when neither ends there. */
  lemma {:induction false} CommonPrefixSound(a: seq<string>, b: seq<string>)
    ensures var k := CommonPrefix(a, b);
      a[..k] == b[..k] && (k < |a| && k < |b| ==> a[k] != b[k])
    decreases |a|
  {
    if !(a == [] || b == [] || a[0] != b[0]) {
      CommonPrefixSound(a[1..], b[1..]);
      var k := CommonPrefix(a, b);
      assert a[..k] == [a[0]] + a[1..][..k - 1];
      assert b[..k] == [b[0]] + b[1..][..k - 1];
    }
  }

  function Ups(n: nat): (r: seq<string>)
    ensures |r| == n && forall k :: 0 <= k < n ==> r[k] == ".."
  {
    if n == 0 then [] else Ups(n - 1) + [".."]
  }

  /** The parts of `relpath(path, start)`: one `..` per part of `start` left over, then the rest of `path`. */
  function RelParts(path: string, start: string, cwd: string): seq<string>
    requires IsAbsolute(cwd)
  {
    var s := AbsParts(start, cwd);
    var p := AbsParts(path, cwd);
    var k := CommonPrefix(s, p);
    Ups(|s| - k) + p[k..]
  }

  /**
   * `os.path.relpath(path, start)`, None for the ValueError raised on an
   * empty path. The parts are joined with `/`, which is what `join` does
   * with parts that are neither empty nor absolute.
   */
  function Relpath(path: string, start: string, cwd: string): Option<string>
    requires IsAbsolute(cwd)
  {
    if path == [] then None
    else
      var r := RelParts(path, start, cwd);
      Some(if r == [] then "." else Join(r, "/"))
  }

  /** Parts that are neither empty nor hold a `/`. */
  predicate PlainParts(xs: seq<string>) {
    forall k :: 0 <= k < |xs| ==> xs[k] != "" && '/' !in xs[k]
  }

  lemma PlainConcat(a: seq<string>, b: seq<string>)
    requires PlainParts(a) && PlainParts(b)
    ensures PlainParts(a + b)
  {
    forall j | 0 <= j < |a + b| ensures (a + b)[j] != "" && '/' !in (a + b)[j] {
      if j >= |a| {
        assert (a + b)[j] == b[j - |a|];
      }
    }
  }

  /** Every part of a relative path is a component or `..`. */
  lemma RelPartsClean(path: string, start: string, cwd: string)
    requires IsAbsolute(cwd)
    ensures PlainParts(RelParts(path, start, cwd))
  {
    var s := AbsParts(start, cwd);
    var p := AbsParts(path, cwd);
    var k := CommonPrefix(s, p);
    var ups := Ups(|s| - k);
    AbsPartsComponents(path, cwd);
    assert PlainParts(ups);
    assert PlainParts(p[k..]) by {
      forall j | 0 <= j < |p| - k ensures p[k..][j] != "" && '/' !in p[k..][j] {
        assert Component(p[k + j]);
      }
    }
    PlainConcat(ups, p[k..]);
  }

  /** `relpath(...).split('/')` gives the parts back, or `["."]` when there are none. */
  lemma RelpathSplit(path: string, start: string, cwd: string)
    requires IsAbsolute(cwd) && path != []
    ensures var r := RelParts(path, start, cwd);
      Split(Relpath(path, start, cwd).value, "/") == if r == [] then ["."] else r
  {
    var r := RelParts(path, start, cwd);
    if r == [] {
      CharNotContained(".", '/');
      SplitAbsent(".", "/");
    } else {
      RelPartsClean(path, start, cwd);
      forall k | 0 <= k < |r| ensures CleanPiece(r[k], "/") {
        CharNotContained(r[k], '/');
      }
      SplitJoin(r, "/");
    }
  }

  /** A path below `start` is relative to it by exactly the parts below. */
  lemma RelpathBelow(path: string, start: string, cwd: string, rest: seq<string>)
    requires IsAbsolute(cwd)
    requires AbsParts(path, cwd) == AbsParts(start, cwd) + rest
    ensures RelParts(path, start, cwd) == rest
  {
    var s := AbsParts(start, cwd);
    var p := AbsParts(path, cwd);
    var k := CommonPrefix(s, p);
    CommonPrefixSound(s, p);
    assert forall j :: 0 <= j < |s| ==> p[j] == s[j];
    assert k == |s|;
    assert p[k..] == rest;
  }

  /** A path not below `start` climbs out of it: its first part is `..`. */
  lemma RelpathOutside(path: string, start: string, cwd: string)
    requires IsAbsolute(cwd)
    requires var s := AbsParts(start, cwd); var p := AbsParts(path, cwd); !(|s| <= |p| && p[..|s|] == s)
    ensures RelParts(path, start, cwd) != [] && RelParts(path, start, cwd)[0] == ".."
  {
    var s := AbsParts(start, cwd);
    var p := AbsParts(path, cwd);
    var k := CommonPrefix(s, p);
    CommonPrefixSound(s, p);
    assert s[..|s|] == s;
    assert k != |s|;
  }
}
