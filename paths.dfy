/** POSIX path handling as Node's `path` module performs it (`path.normalize`,
    `path.join`), and the "route request" test all three servers share. Paths are
    strings; a path's segments are the parts between its `/` characters. */
module Paths {
  import opened Strings

  predicate IsAbsolute(p: string)
  {
    p != "" && p[0] == '/'
  }

  predicate HasTrailingSlash(p: string)
  {
    p != "" && p[|p| - 1] == '/'
  }

  // ---------------------------------------------------------------------------
  // The last segment and the route test
  // ---------------------------------------------------------------------------

  /** The last part of `Split(p, '/')` is the longest suffix of `p` without a `/`. */
  lemma {:induction false} LastPartIsTail(p: string)
    ensures var parts := Split(p, '/');
      var seg := parts[|parts| - 1];
      (|parts| == 1 && seg == p) ||
      (|parts| > 1 && |seg| < |p| && p[|p| - |seg|..] == seg && p[|p| - |seg| - 1] == '/')
  {
    if p != [] {
      var t := p[1..];
      assert p == [p[0]] + t;
      LastPartIsTail(t);
      SplitCons(p[0], t, '/');
    }
  }

  /** The text after the last `/` of `p`: `p.split('/').pop()`. */
  function LastSegment(p: string): (seg: string)
    ensures '/' !in seg
    ensures |seg| <= |p| && p[|p| - |seg|..] == seg
    ensures |seg| == |p| || p[|p| - |seg| - 1] == '/'
  {
    var parts := Split(p, '/');
    LastPartIsTail(p);
    parts[|parts| - 1]
  }

  /** A request is a route request when its last segment has no `.`; equivalently,
      every `.` in the path is followed, later on, by a `/`. A path ending in `/`
      is therefore always a route request. */
  predicate IsRouteRequest(p: string): (r: bool)
    ensures r <==> forall i :: 0 <= i < |p| && p[i] == '.' ==> '/' in p[i + 1..]
    ensures HasTrailingSlash(p) ==> r
  {
    RouteRequestByDots(p);
    '.' !in LastSegment(p)
  }

  lemma RouteRequestByDots(p: string)
    ensures ('.' !in LastSegment(p)) <==> forall i :: 0 <= i < |p| && p[i] == '.' ==> '/' in p[i + 1..]
  {
    var seg := LastSegment(p);
    var start := |p| - |seg|;
    if '.' !in seg {
      assert forall k :: start <= k < |p| ==> p[k] == seg[k - start];
      forall i | 0 <= i < |p| && p[i] == '.' ensures '/' in p[i + 1..] {
        assert i < start;
        assert p[start - 1] == '/';
        assert p[i + 1..][start - 1 - (i + 1)] == '/';
      }
    } else {
      var j :| 0 <= j < |seg| && seg[j] == '.';
      assert p[start + j] == '.';
      assert p[start + j + 1..] == seg[j + 1..];
    }
  }

  // ---------------------------------------------------------------------------
  // Normalisation
  // ---------------------------------------------------------------------------

  /** A segment that names a directory entry: not empty, not `.` or `..`, no `/`. */
  predicate IsName(s: string)
  {
    s != "" && s != "." && s != ".." && '/' !in s
  }

  /** All segments are names (no `..` among them). */
  predicate AllNames(segs: seq<string>)
  {
    forall i :: 0 <= i < |segs| ==> IsName(segs[i])
  }

  /** All segments are names or `..`. */
  predicate NamesOrUps(segs: seq<string>)
  {
    forall i :: 0 <= i < |segs| ==> IsName(segs[i]) || segs[i] == ".."
  }

  /** One step of the walk `path.normalize` makes over the segments: empty and `.`
      segments vanish; `..` removes the previous segment, and where there is none
      to remove (or it is itself `..`) it is kept only in a relative path; any
      other segment is appended. */
  function Step(stack: seq<string>, seg: string, aboveRoot: bool): seq<string>
  {
    if seg == "" || seg == "." then stack
    else if seg == ".." then
      if stack != [] && stack[|stack| - 1] != ".." then stack[..|stack| - 1]
      else if aboveRoot then stack + [".."]
      else stack
    else stack + [seg]
  }

  function Resolve(stack: seq<string>, segs: seq<string>, aboveRoot: bool): seq<string>
    decreases |segs|
  {
    if segs == [] then stack
    else Resolve(Step(stack, segs[0], aboveRoot), segs[1..], aboveRoot)
  }

  /** The segment list `path.normalize` computes for `p`. */
  function Resolved(p: string): seq<string>
  {
    Resolve([], Split(p, '/'), !IsAbsolute(p))
  }

  lemma {:induction false} ResolveShape(stack: seq<string>, segs: seq<string>, aboveRoot: bool)
    requires NamesOrUps(stack)
    requires forall i :: 0 <= i < |segs| ==> '/' !in segs[i]
    requires !aboveRoot ==> AllNames(stack)
    ensures NamesOrUps(Resolve(stack, segs, aboveRoot))
    ensures !aboveRoot ==> AllNames(Resolve(stack, segs, aboveRoot))
    decreases |segs|
  {
    if segs != [] {
      ResolveShape(Step(stack, segs[0], aboveRoot), segs[1..], aboveRoot);
    }
  }

  /** The segments of a normalised path are names or `..`, and only names when
      the path is absolute. */
  lemma ResolvedShape(p: string)
    ensures NamesOrUps(Resolved(p))
    ensures IsAbsolute(p) ==> AllNames(Resolved(p))
  {
    ResolveShape([], Split(p, '/'), !IsAbsolute(p));
  }

  /** `path.normalize(p)` (POSIX): `.` for the empty path; otherwise the resolved
      segments joined by `/`, with the leading `/` of an absolute path and the
      trailing `/` of the input kept. The result is absolute exactly when the
      input is, and ends in `/` when the input does; the only other result ending
      in `/` is the bare root `/`. */
  function Normalize(p: string): (r: string)
    ensures r != ""
    ensures r[0] == '/' <==> IsAbsolute(p)
    ensures HasTrailingSlash(p) ==> r[|r| - 1] == '/'
    ensures r[|r| - 1] == '/' && r != "/" ==> HasTrailingSlash(p)
  {
    if p == "" then "."
    else
      var segs := Resolved(p);
      ResolvedShape(p);
      if segs == [] then
        (if IsAbsolute(p) then "/" else if HasTrailingSlash(p) then "./" else ".")
      else
        JoinEnds(segs, '/');
        (if IsAbsolute(p) then "/" else "") + Join(segs, '/') + (if HasTrailingSlash(p) then "/" else "")
  }

  function NonEmpty(args: seq<string>): (r: seq<string>)
    ensures forall i :: 0 <= i < |r| ==> r[i] != "" && r[i] in args
  {
    if args == [] then []
    else if args[0] == "" then NonEmpty(args[1..])
    else [args[0]] + NonEmpty(args[1..])
  }

  /** `path.join(...args)` (POSIX): the non-empty arguments joined by `/` and then
      normalised; `.` when every argument is empty. */
  function JoinPaths(args: seq<string>): string
  {
    var parts := NonEmpty(args);
    if parts == [] then "." else Normalize(Join(parts, '/'))
  }

  // ---------------------------------------------------------------------------
  // Properties of the walk
  // ---------------------------------------------------------------------------

  lemma {:induction false} ResolveConcat(stack: seq<string>, a: seq<string>, b: seq<string>, aboveRoot: bool)
    ensures Resolve(stack, a + b, aboveRoot) == Resolve(Resolve(stack, a, aboveRoot), b, aboveRoot)
    decreases |a|
  {
    if a == [] {
      assert a + b == b;
    } else {
      assert (a + b)[0] == a[0];
      assert (a + b)[1..] == a[1..] + b;
      ResolveConcat(Step(stack, a[0], aboveRoot), a[1..], b, aboveRoot);
    }
  }

  /** Names are appended one by one. */
  lemma {:induction false} ResolveNames(stack: seq<string>, segs: seq<string>, aboveRoot: bool)
    requires AllNames(segs)
    ensures Resolve(stack, segs, aboveRoot) == stack + segs
    decreases |segs|
  {
    if segs != [] {
      ResolveNames(stack + [segs[0]], segs[1..], aboveRoot);
      assert stack + [segs[0]] + segs[1..] == stack + segs;
    }
  }

  /** Without `..` segments the walk never removes anything: what was already
      resolved stays a prefix of the result. */
  lemma {:induction false} ResolveGrows(stack: seq<string>, segs: seq<string>, aboveRoot: bool)
    requires ".." !in segs
    ensures stack <= Resolve(stack, segs, aboveRoot)
    decreases |segs|
  {
    if segs != [] {
      assert segs[0] != "..";
      assert ".." !in segs[1..] by {
        forall i | 0 <= i < |segs[1..]| ensures segs[1..][i] != ".." { assert segs[1..][i] == segs[i + 1]; }
      }
      ResolveGrows(Step(stack, segs[0], aboveRoot), segs[1..], aboveRoot);
    }
  }

  /** The parts of a normalised absolute path: an empty part for the leading `/`,
      the resolved names, and an empty part for a trailing `/` (the bare root `/`
      splits into two empty parts). */
  lemma SplitNormalizedAbsolute(q: string)
    requires IsAbsolute(q)
    ensures Split(Normalize(q), '/') ==
      [""] + Resolved(q) + (if Resolved(q) == [] || HasTrailingSlash(q) then [""] else [])
  {
    var segs := Resolved(q);
    ResolvedShape(q);
    if segs == [] {
      SplitSlashed("", false);
      assert "/" + "" + "" == "/";
    } else {
      var body := Join(segs, '/');
      SplitJoin(segs, '/');
      SplitSlashed(body, HasTrailingSlash(q));
    }
  }

  /** A leading `/` adds an empty first part; a trailing `/` an empty last part. */
  lemma SplitSlashed(body: string, trailing: bool)
    ensures Split("/" + body + (if trailing then "/" else ""), '/') ==
      [""] + Split(body, '/') + (if trailing then [""] else [])
  {
    assert "/" + body == "" + ['/'] + body;
    SplitAround("", body, '/');
    assert Split("", '/') == [""];
    if trailing {
      assert "/" + body + "/" == ("/" + body) + ['/'] + "";
      SplitAround("/" + body, "", '/');
    } else {
      assert "/" + body + "" == "/" + body;
    }
  }

  /** Normalising an absolute path does not change the segments it resolves to. */
  lemma NormalizeKeepsSegments(q: string)
    requires IsAbsolute(q)
    ensures Resolved(Normalize(q)) == Resolved(q)
  {
    var segs := Resolved(q);
    ResolvedShape(q);
    SplitNormalizedAbsolute(q);
    var tail: seq<string> := if segs == [] || HasTrailingSlash(q) then [""] else [];
    ResolveConcat([], [""] + segs, tail, false);
    ResolveConcat([], [""], segs, false);
    ResolveNames([], segs, false);
  }

  /** `path` lies in the directory tree of `root`: the segments `root` resolves to
      are a prefix of the segments `path` resolves to. */
  predicate Under(root: string, path: string)
  {
    Resolved(root) <= Resolved(path)
  }

  lemma {:induction false} NoUpsInJoin(parts: seq<string>)
    requires |parts| >= 1
    requires forall i :: 0 <= i < |parts| ==> ".." !in Split(parts[i], '/')
    ensures ".." !in Split(Join(parts, '/'), '/')
  {
    if |parts| > 1 {
      NoUpsInJoin(parts[1..]);
      SplitAround(parts[0], Join(parts[1..], '/'), '/');
    }
  }

  /** Joining paths without `..` segments onto an absolute root never leaves the
      root's tree: `path.join(root, ...rest)` resolves below `root`. */
  lemma JoinStaysUnder(root: string, rest: seq<string>)
    requires IsAbsolute(root)
    requires forall i :: 0 <= i < |rest| ==> ".." !in Split(rest[i], '/')
    ensures Under(root, JoinPaths([root] + rest))
  {
    assert ([root] + rest)[1..] == rest;
    var tail := NonEmpty(rest);
    assert NonEmpty([root] + rest) == [root] + tail;
    if tail == [] {
      NormalizeKeepsSegments(root);
    } else {
      JoinPrefix(root, tail, '/');
      var t := Join(tail, '/');
      var q := root + ['/'] + t;
      assert IsAbsolute(q);
      NoUpsInJoin(tail);
      NormalizeKeepsSegments(q);
      SplitAround(root, t, '/');
      ResolveConcat([], Split(root, '/'), Split(t, '/'), false);
      ResolveGrows(Resolved(root), Split(t, '/'), false);
    }
  }
}
