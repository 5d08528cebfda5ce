/** The pathname pipeline of servor.ts's request handler: the decoded request path
    is normalised, leading `..` segments are stripped and backslashes become `/`.
    The handler joins the result onto the served root, so this pipeline is the
    server's defence against reading outside the root. */
module ServorPath {
  import opened Strings
  import opened Paths

  /** `s` starts with a `../` or `..\` unit. */
  predicate StartsWithUp(s: string)
  {
    |s| >= 3 && s[..2] == ".." && (s[2] == '/' || s[2] == '\\')
  }

  /** `s` is a run of `../`, `..\` units, possibly ending in a bare `..`. */
  predicate UpsOnly(s: string)
    decreases |s|
  {
    s == "" || s == ".." || (StartsWithUp(s) && UpsOnly(s[3..]))
  }

  /** `p.replace(/^(\.\.(\/|\\|$))+/, '')`: removes the longest run of leading
      `../`, `..\` units, the run possibly ending in a bare `..` at the end. What
      is left neither starts with such a unit nor is `..`; a path that starts
      with no unit is kept whole (`StrippedUpsOnly`: only units are removed). */
  function StripLeadingUps(p: string): (r: string)
    ensures |r| <= |p| && r == p[|p| - |r|..]
    ensures !StartsWithUp(p) && p != ".." ==> r == p
    ensures !(|r| >= 3 && r[..2] == ".." && (r[2] == '/' || r[2] == '\\'))
    ensures r != ".."
    decreases |p|
  {
    if StartsWithUp(p) then StripLeadingUps(p[3..])
    else if p == ".." then ""
    else p
  }

  /** What the strip removes is a run of units and nothing else. */
  lemma {:induction false} StrippedUpsOnly(p: string)
    ensures UpsOnly(p[..|p| - |StripLeadingUps(p)|])
    decreases |p|
  {
    var r := StripLeadingUps(p);
    if StartsWithUp(p) {
      StrippedUpsOnly(p[3..]);
      assert p[..|p| - |r|][3..] == p[3..][..|p| - 3 - |r|];
    } else if p == ".." {
      assert p[..|p| - |r|] == "..";
    } else {
      assert p[..|p| - |r|] == "";
    }
  }

  /** The first `/`-separated part of `r` is `..` only when `r` is `..` or starts with `../`. */
  lemma {:induction false} FirstPartIsHead(r: string)
    ensures var head := Split(r, '/')[0];
      |head| <= |r| && r[..|head|] == head && (|head| == |r| || r[|head|] == '/')
  {
    if r != [] {
      var t := r[1..];
      assert r == [r[0]] + t;
      FirstPartIsHead(t);
      SplitCons(r[0], t, '/');
    }
  }

  /** The pathname as servor.ts computes it (servor.ts:226-229). It holds no
      backslash and does not begin with a `..` segment, but a backslash turned
      into `/` after normalisation can still form an inner `..` segment. */
  function PathnameAsWritten(decoded: string): (r: string)
    ensures '\\' !in r
    ensures Split(r, '/')[0] != ".."
  {
    var stripped := StripLeadingUps(Normalize(decoded));
    StrippedHeadAfterReplace(stripped);
    ReplaceAll(stripped, '\\', '/')
  }

  /** Turning backslashes into `/` after the strip cannot create a leading `..`
      segment: the strip already removed `..\` units. */
  lemma StrippedHeadAfterReplace(stripped: string)
    requires !(|stripped| >= 3 && stripped[..2] == ".." && (stripped[2] == '/' || stripped[2] == '\\'))
    requires stripped != ".."
    ensures Split(ReplaceAll(stripped, '\\', '/'), '/')[0] != ".."
  {
    var r := ReplaceAll(stripped, '\\', '/');
    FirstPartIsHead(r);
    var head := Split(r, '/')[0];
    assert |stripped| == 2 ==> !(stripped[0] == '.' && stripped[1] == '.');
    assert |stripped| >= 3 ==> !(stripped[0] == '.' && stripped[1] == '.' && (stripped[2] == '/' || stripped[2] == '\\'));
    assert |r| == 2 ==> !(r[0] == '.' && r[1] == '.');
    assert |r| >= 3 ==> !(r[0] == '.' && r[1] == '.' && r[2] == '/');
  }

  // ---------------------------------------------------------------------------
  // The corrected pipeline: backslashes become `/` before normalisation
  // ---------------------------------------------------------------------------

  /** `k` copies of the `..` segment. */
  function Ups(k: nat): (r: seq<string>)
    ensures |r| == k && forall i :: 0 <= i < k ==> r[i] == ".."
  {
    if k == 0 then [] else [".."] + Ups(k - 1)
  }

  predicate NoBackslash(segs: seq<string>)
  {
    forall i :: 0 <= i < |segs| ==> '\\' !in segs[i]
  }

  lemma {:induction false} SplitAvoids(s: string, c: char)
    requires c !in s
    ensures forall i :: 0 <= i < |Split(s, '/')| ==> c !in Split(s, '/')[i]
  {
    if s != [] {
      var t := s[1..];
      assert s == [s[0]] + t;
      SplitAvoids(t, c);
      SplitCons(s[0], t, '/');
    }
  }

  lemma {:induction false} JoinAvoids(parts: seq<string>, c: char)
    requires c != '/'
    requires forall i :: 0 <= i < |parts| ==> c !in parts[i]
    ensures c !in Join(parts, '/')
  {
    if |parts| > 1 {
      JoinAvoids(parts[1..], c);
    }
  }

  /** A relative walk keeps the shape "some `..`, then names". */
  lemma StepRelative(k: nat, names: seq<string>, seg: string) returns (k2: nat, names2: seq<string>)
    requires AllNames(names) && NoBackslash(names)
    requires '/' !in seg && '\\' !in seg
    ensures Step(Ups(k) + names, seg, true) == Ups(k2) + names2
    ensures AllNames(names2) && NoBackslash(names2)
  {
    var stack := Ups(k) + names;
    if seg == "" || seg == "." {
      k2, names2 := k, names;
    } else if seg == ".." {
      if names != [] {
        assert stack[|stack| - 1] == names[|names| - 1];
        assert stack[..|stack| - 1] == Ups(k) + names[..|names| - 1];
        k2, names2 := k, names[..|names| - 1];
      } else {
        assert stack == Ups(k);
        assert Ups(k) + [".."] == Ups(k + 1);
        k2, names2 := k + 1, [];
      }
    } else {
      assert stack + [seg] == Ups(k) + (names + [seg]);
      k2, names2 := k, names + [seg];
    }
  }

  lemma {:induction false} ResolveRelative(k: nat, names: seq<string>, segs: seq<string>)
    returns (k2: nat, names2: seq<string>)
    requires AllNames(names) && NoBackslash(names)
    requires forall i :: 0 <= i < |segs| ==> '/' !in segs[i] && '\\' !in segs[i]
    ensures Resolve(Ups(k) + names, segs, true) == Ups(k2) + names2
    ensures AllNames(names2) && NoBackslash(names2)
    decreases |segs|
  {
    if segs == [] {
      k2, names2 := k, names;
    } else {
      var k1, names1 := StepRelative(k, names, segs[0]);
      k2, names2 := ResolveRelative(k1, names1, segs[1..]);
    }
  }

  /** A name that holds neither `/` nor `\` cannot start a strippable unit. */
  lemma NameNotStripped(names: seq<string>, t: string)
    requires |names| >= 1 && AllNames(names) && NoBackslash(names)
    requires t == "" || t == "/"
    ensures StripLeadingUps(Join(names, '/') + t) == Join(names, '/') + t
  {
    var x := Join(names, '/') + t;
    var n := names[0];
    JoinEnds(names, '/');
    assert n <= x;
    assert x[0] == n[0];
    assert |n| >= 2 ==> x[1] == n[1];
    assert |n| >= 3 ==> x[2] == n[2] && n[2] != '/' && n[2] != '\\';
    assert |n| == 1 ==> n == [n[0]];
    assert |n| == 2 ==> n == [n[0], n[1]];
  }

  lemma StripUnit(y: string)
    ensures StripLeadingUps("../" + y) == StripLeadingUps(y)
  {
    var x := "../" + y;
    assert x[..2] == ".." && x[2] == '/';
    assert x[3..] == y;
  }

  /** `k` leading `..` segments, `k >= 1`, put `../` in front of the rest. */
  lemma JoinUpsCons(k: nat, names: seq<string>)
    requires k >= 1 && (k >= 2 || names != [])
    ensures Join(Ups(k) + names, '/') == "../" + Join(Ups(k - 1) + names, '/')
  {
    var rest := Ups(k - 1) + names;
    assert Ups(k) + names == [".."] + rest;
    JoinPrefix("..", rest, '/');
  }

  /** A lone `..`, with or without a trailing `/`, is stripped entirely. */
  lemma StripLoneUp(t: string)
    requires t == "" || t == "/"
    ensures StripLeadingUps(Join(Ups(1), '/') + t) == ""
  {
    assert Ups(1) == [".."];
    var x := Join(Ups(1), '/') + t;
    assert x == ".." + t;
    if t == "" {
      assert x == "..";
    } else {
      assert x == "../";
      StripUnit("");
      assert "../" + "" == "../";
    }
  }

  /** One leading `..` unit is stripped and the strip carries on with the rest. */
  lemma StripUpsStep(k: nat, names: seq<string>, t: string)
    requires k >= 1 && (k >= 2 || names != [])
    ensures StripLeadingUps(Join(Ups(k) + names, '/') + t) == StripLeadingUps(Join(Ups(k - 1) + names, '/') + t)
  {
    var y := Join(Ups(k - 1) + names, '/') + t;
    JoinUpsCons(k, names);
    assert Join(Ups(k) + names, '/') + t == "../" + y;
    StripUnit(y);
  }

  /** Stripping the text of `k` leading `..` segments followed by names leaves the
      names; with no names nothing is left. */
  lemma {:induction false} StripUps(k: nat, names: seq<string>, t: string)
    requires AllNames(names) && NoBackslash(names)
    requires t == "" || t == "/"
    requires k > 0 || names != []
    ensures StripLeadingUps(Join(Ups(k) + names, '/') + t) ==
      if names == [] then "" else Join(names, '/') + t
    decreases k
  {
    var before := Join(Ups(k) + names, '/') + t;
    if k == 0 {
      assert Ups(k) + names == names;
      NameNotStripped(names, t);
      assert StripLeadingUps(before) == Join(names, '/') + t;
    } else if k == 1 && names == [] {
      assert Ups(k) + names == Ups(1);
      StripLoneUp(t);
      assert StripLeadingUps(before) == "";
    } else {
      var after := Join(Ups(k - 1) + names, '/') + t;
      StripUpsStep(k, names, t);
      assert StripLeadingUps(before) == StripLeadingUps(after);
      StripUps(k - 1, names, t);
    }
  }

  /** The pathname with the order of servor.ts:226-229 corrected: backslashes
      become `/` first, so normalisation sees every separator. The result holds
      no backslash and no `..` segment anywhere. */
  function Pathname(decoded: string): (r: string)
    ensures '\\' !in r
    ensures ".." !in Split(r, '/')
  {
    var q := ReplaceAll(decoded, '\\', '/');
    var r := StripLeadingUps(Normalize(q));
    PathnameIsClean(q);
    r
  }

  lemma PathnameIsClean(q: string)
    requires '\\' !in q
    ensures '\\' !in StripLeadingUps(Normalize(q))
    ensures ".." !in Split(StripLeadingUps(Normalize(q)), '/')
  {
    if q == "" {
      SplitWithoutSep(".", '/');
    } else if IsAbsolute(q) {
      AbsoluteIsClean(q);
    } else {
      RelativeIsClean(q);
    }
  }

  lemma AbsoluteIsClean(q: string)
    requires '\\' !in q && IsAbsolute(q)
    ensures '\\' !in StripLeadingUps(Normalize(q))
    ensures ".." !in Split(StripLeadingUps(Normalize(q)), '/')
  {
    SlashNotStripped(Normalize(q));
    AbsoluteNoBackslash(q);
    AbsoluteNoUps(q);
  }

  lemma SlashNotStripped(n: string)
    requires n != "" && n[0] == '/'
    ensures StripLeadingUps(n) == n
  {
    assert |n| >= 3 ==> n[..2][0] == '/';
  }

  /** A normalised path holds only the characters of the segments of its input,
      besides `/` and `.`. */
  lemma AbsoluteNoBackslash(q: string)
    requires '\\' !in q && IsAbsolute(q)
    ensures '\\' !in Normalize(q)
  {
    SplitAvoids(q, '\\');
    ResolveAvoids([], Split(q, '/'), false, '\\');
    var segs := Resolved(q);
    if segs != [] {
      JoinAvoids(segs, '\\');
    }
  }

  lemma AbsoluteNoUps(q: string)
    requires IsAbsolute(q)
    ensures ".." !in Split(Normalize(q), '/')
  {
    SplitNormalizedAbsolute(q);
    ResolvedShape(q);
    var segs := Resolved(q);
    assert ".." !in segs;
  }

  lemma RelativeIsClean(q: string)
    requires '\\' !in q && q != "" && !IsAbsolute(q)
    ensures '\\' !in StripLeadingUps(Normalize(q))
    ensures ".." !in Split(StripLeadingUps(Normalize(q)), '/')
  {
    var t := if HasTrailingSlash(q) then "/" else "";
    var k, names := RelativeShape(q);
    NormalizeRelative(q);
    if k == 0 && names == [] {
      assert Normalize(q) == "." + t;
      DotIsClean(t);
    } else {
      assert Normalize(q) == Join(Ups(k) + names, '/') + t;
      UpsNamesClean(k, names, t);
    }
  }

  /** Some `..` segments and names, stripped, hold no backslash and no `..` segment. */
  lemma UpsNamesClean(k: nat, names: seq<string>, t: string)
    requires AllNames(names) && NoBackslash(names)
    requires t == "" || t == "/"
    requires k > 0 || names != []
    ensures '\\' !in StripLeadingUps(Join(Ups(k) + names, '/') + t)
    ensures ".." !in Split(StripLeadingUps(Join(Ups(k) + names, '/') + t), '/')
  {
    var stripped := StripLeadingUps(Join(Ups(k) + names, '/') + t);
    StripUps(k, names, t);
    if names != [] {
      assert stripped == Join(names, '/') + t;
      NamesAreClean(names, t);
    } else {
      assert stripped == "";
      SplitWithoutSep("", '/');
    }
  }

  /** A relative path without backslashes resolves to some `..` segments followed
      by names without backslashes. */
  lemma RelativeShape(q: string) returns (k: nat, names: seq<string>)
    requires '\\' !in q && !IsAbsolute(q)
    ensures Resolved(q) == Ups(k) + names
    ensures AllNames(names) && NoBackslash(names)
  {
    SplitAvoids(q, '\\');
    k, names := ResolveRelative(0, [], Split(q, '/'));
    assert Ups(0) + [] == [];
  }

  /** `path.normalize` of a non-empty relative path. */
  lemma NormalizeRelative(q: string)
    requires q != "" && !IsAbsolute(q)
    ensures var t := if HasTrailingSlash(q) then "/" else "";
      Normalize(q) == if Resolved(q) == [] then "." + t else Join(Resolved(q), '/') + t
  {
  }

  /** `.` and `./` are left alone by the strip and hold no `..` segment. */
  lemma DotIsClean(t: string)
    requires t == "" || t == "/"
    ensures StripLeadingUps("." + t) == "." + t
    ensures ".." !in Split("." + t, '/')
  {
    if t == "" {
      assert "." + t == ".";
      LoneDotClean();
    } else {
      assert "." + t == "./";
      DotSlashClean();
    }
  }

  lemma LoneDotClean()
    ensures StripLeadingUps(".") == "."
    ensures ".." !in Split(".", '/')
  {
    ShortNotStripped(".");
    SplitWithoutSep(".", '/');
  }

  lemma DotSlashClean()
    ensures StripLeadingUps("./") == "./"
    ensures ".." !in Split("./", '/')
  {
    assert "./"[1] != '.';
    ShortNotStripped("./");
    assert "./" == "." + ['/'] + "";
    SlashSplit(".");
  }

  /** Fewer than three characters other than `..` are left alone by the strip. */
  lemma ShortNotStripped(p: string)
    requires |p| < 3 && p != ".."
    ensures StripLeadingUps(p) == p
  {
  }

  /** A text without `/` followed by one `/` splits into the text and an empty part. */
  lemma SlashSplit(a: string)
    requires '/' !in a
    ensures Split(a + ['/'] + "", '/') == [a, ""]
  {
    SplitWithoutSep(a, '/');
    SplitWithoutSep("", '/');
    SplitAround(a, "", '/');
  }

  /** Names joined by `/`, with or without a trailing `/`, hold no backslash and
      no `..` segment. */
  lemma NamesAreClean(names: seq<string>, t: string)
    requires names != [] && AllNames(names) && NoBackslash(names)
    requires t == "" || t == "/"
    ensures '\\' !in Join(names, '/') + t
    ensures ".." !in Split(Join(names, '/') + t, '/')
  {
    var body := Join(names, '/');
    JoinAvoids(names, '\\');
    SplitJoin(names, '/');
    SplitWithoutSep("", '/');
    SplitAround(body, "", '/');
    assert body + "/" == body + ['/'] + "";
    assert body + "" == body;
  }

  lemma {:induction false} ResolveAvoids(stack: seq<string>, segs: seq<string>, aboveRoot: bool, c: char)
    requires c != '.'
    requires forall i :: 0 <= i < |stack| ==> c !in stack[i]
    requires forall i :: 0 <= i < |segs| ==> c !in segs[i]
    ensures forall i :: 0 <= i < |Resolve(stack, segs, aboveRoot)| ==> c !in Resolve(stack, segs, aboveRoot)[i]
    decreases |segs|
  {
    if segs != [] {
      ResolveAvoids(Step(stack, segs[0], aboveRoot), segs[1..], aboveRoot, c);
    }
  }

  // ---------------------------------------------------------------------------
  // The backslash traversal in the pipeline as written
  // ---------------------------------------------------------------------------

  /** A path of one name below the root normalises to itself. */
  lemma NormalizeOneName(seg: string)
    requires IsName(seg)
    ensures Normalize(['/'] + seg) == ['/'] + seg
  {
    SplitWithoutSep(seg, '/');
    SplitCons('/', seg, '/');
    assert Split(['/'] + seg, '/') == ["", seg];
    assert Resolve([], [seg], false) == [seg];
  }

  lemma ReplaceAfterUnit(name: string)
    requires '\\' !in name
    ensures ReplaceAll("/..\\" + name, '\\', '/') == "/../" + name
  {
    var r := ReplaceAll("/..\\" + name, '\\', '/');
    assert forall i :: 4 <= i < |r| ==> r[i] == name[i - 4];
  }

  /** As written, `/..\\name` keeps its `..` through normalisation (it is part of
      the one segment `..\\name`) and only then becomes `/../name`. */
  lemma WrittenKeepsUp(name: string)
    requires '/' !in name && '\\' !in name
    ensures PathnameAsWritten("/..\\" + name) == "/../" + name
  {
    var seg := "..\\" + name;
    assert "/..\\" + name == ['/'] + seg;
    NormalizeOneName(seg);
    ReplaceAfterUnit(name);
  }

  lemma ResolvedTwoNames(a: string, b: string)
    requires IsName(a) && IsName(b)
    ensures Resolved("/" + a + "/" + b) == [a, b]
  {
    var parts := ["", a, b];
    SplitJoin(parts, '/');
    assert parts[2..] == [b];
    assert parts[1..] == [a] + parts[2..];
    JoinPrefix(a, parts[2..], '/');
    assert parts == [""] + parts[1..];
    JoinPrefix("", parts[1..], '/');
    assert "" + "/" + (a + "/" + b) == "/" + a + "/" + b;
    assert parts[1..][0] == a && parts[1..][1..] == parts[2..];
    assert Step([], a, false) == [a];
    assert Step([a], b, false) == [a, b];
    assert Resolve([], parts, false) == Resolve([], parts[1..], false);
    assert parts[2..][0] == b && parts[2..][1..] == [];
    assert Resolve([], parts[1..], false) == Resolve([a], parts[2..], false);
    assert Resolve([a], parts[2..], false) == Resolve([a, b], [], false);
    assert Split("/" + a + "/" + b, '/') == parts;
  }

  lemma SplitEscape(a: string, b: string, name: string)
    requires IsName(a) && IsName(b) && IsName(name)
    ensures Split("/" + a + "/" + b + "/" + "/../" + name, '/') == ["", a, b, "", "..", name]
  {
    SplitNames(a, b, name);
    assert "" + ['/'] + (a + ['/'] + (b + ['/'] + ("" + ['/'] + (".." + ['/'] + name)))) == "/" + a + "/" + b + "/" + "/../" + name;
  }

  /** The split of the escaping request path, put together piece by piece. */
  lemma SplitNames(a: string, b: string, name: string)
    requires '/' !in a && '/' !in b && '/' !in name
    ensures Split("" + ['/'] + (a + ['/'] + (b + ['/'] + ("" + ['/'] + (".." + ['/'] + name)))), '/') == ["", a, b, "", "..", name]
  {
    var t4 := ".." + ['/'] + name;
    assert Split(t4, '/') == ["..", name] by {
      SplitWithoutSep("..", '/');
      SplitWithoutSep(name, '/');
      SplitAround("..", name, '/');
    }
    var t3 := "" + ['/'] + t4;
    assert Split(t3, '/') == ["", "..", name] by {
      SplitWithoutSep("", '/');
      SplitAround("", t4, '/');
    }
    var t2 := b + ['/'] + t3;
    assert Split(t2, '/') == [b, "", "..", name] by {
      SplitWithoutSep(b, '/');
      SplitAround(b, t3, '/');
    }
    var t1 := a + ['/'] + t2;
    assert Split(t1, '/') == [a, b, "", "..", name] by {
      SplitWithoutSep(a, '/');
      SplitAround(a, t2, '/');
    }
    SplitWithoutSep("", '/');
    SplitAround("", t1, '/');
  }

  lemma ResolveEscape(a: string, b: string, name: string)
    requires IsName(a) && IsName(b) && IsName(name)
    ensures Resolve([], ["", a, b, "", "..", name], false) == [a, name]
  {
    var parts := ["", a, b, "", "..", name];
    assert parts[1..][0] == a && parts[1..][1..] == parts[2..];
    assert parts[2..][0] == b && parts[2..][1..] == parts[3..];
    assert parts[3..][0] == "" && parts[3..][1..] == parts[4..];
    assert parts[4..][0] == ".." && parts[4..][1..] == parts[5..];
    assert parts[5..][0] == name && parts[5..][1..] == [];
    assert Step([], a, false) == [a];
    assert Step([a], b, false) == [a, b];
    assert Step([a, b], "..", false) == [a];
    assert Step([a], name, false) == [a, name];
    assert Resolve([], parts, false) == Resolve([], parts[1..], false);
    assert Resolve([], parts[1..], false) == Resolve([a], parts[2..], false);
    assert Resolve([a], parts[2..], false) == Resolve([a, b], parts[3..], false);
    assert Resolve([a, b], parts[3..], false) == Resolve([a, b], parts[4..], false);
    assert Resolve([a, b], parts[4..], false) == Resolve([a], parts[5..], false);
    assert Resolve([a], parts[5..], false) == Resolve([a, name], [], false);
  }

  /** `path.join("/a/b", "/../name")` resolves to `/a/name`. */
  lemma JoinEscapes(a: string, b: string, name: string)
    requires IsName(a) && IsName(b) && IsName(name)
    ensures Resolved(JoinPaths(["/" + a + "/" + b, "/../" + name])) == [a, name]
  {
    var root := "/" + a + "/" + b;
    var written := "/../" + name;
    assert [root, written][1..] == [written] && [written][1..] == [];
    assert root != "" && written != "";
    assert NonEmpty([written]) == [written] + NonEmpty([]) == [written];
    assert NonEmpty([root, written]) == [root] + NonEmpty([written]);
    var joined := root + "/" + written;
    assert Join([root, written], '/') == joined;
    assert joined == "/" + a + "/" + b + "/" + "/../" + name;
    assert IsAbsolute(joined);
    SplitEscape(a, b, name);
    ResolveEscape(a, b, name);
    assert Resolved(joined) == [a, name];
    NormalizeKeepsSegments(joined);
  }

  /** For a root `/a/b` and a request decoded to `/..\\name` (the URL
      `/..%5Cname`, since `decodeURI` decodes `%5C`), the pathname as written is
      `/../name`, and joined onto the root it resolves to `/a/name`: outside the
      root whenever `name` differs from `b`. The corrected pipeline keeps the same
      request inside the root. */
  lemma BackslashEscapesRoot(a: string, b: string, name: string)
    requires IsName(a) && IsName(b) && IsName(name) && '\\' !in name && name != b
    ensures PathnameAsWritten("/..\\" + name) == "/../" + name
    ensures !Under("/" + a + "/" + b, JoinPaths(["/" + a + "/" + b, PathnameAsWritten("/..\\" + name)]))
    ensures Under("/" + a + "/" + b, JoinPaths(["/" + a + "/" + b, Pathname("/..\\" + name)]))
  {
    WrittenKeepsUp(name);
    WrittenLeaves(a, b, name);
    CorrectedStays("/" + a + "/" + b, "/..\\" + name);
  }

  /** The joined path the written pipeline reaches is not below `/a/b`. */
  lemma WrittenLeaves(a: string, b: string, name: string)
    requires IsName(a) && IsName(b) && IsName(name) && name != b
    ensures !Under("/" + a + "/" + b, JoinPaths(["/" + a + "/" + b, "/../" + name]))
  {
    ResolvedTwoNames(a, b);
    JoinEscapes(a, b, name);
    assert [a, b][1] != [a, name][1];
  }

  /** The corrected pathname joined onto an absolute root stays below it. */
  lemma CorrectedStays(root: string, decoded: string)
    requires IsAbsolute(root)
    ensures Under(root, JoinPaths([root, Pathname(decoded)]))
  {
    var p := Pathname(decoded);
    assert forall i :: 0 <= i < |[p]| ==> [p][i] == p;
    assert [root, p] == [root] + [p];
    JoinStaysUnder(root, [p]);
  }
}
