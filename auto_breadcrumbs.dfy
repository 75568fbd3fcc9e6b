/** Breadcrumbs derived from the location: strip the base path, split the
    rest into non-empty segments, accumulate one href per segment, label
    each by an exact `PATH_LABELS` entry, else by the first matching route
    pattern, else by the decoded segment, and take the last crumb off as
    the page title. The location, the base path and `decodeURIComponent`
    are inputs. */
module AutoBreadcrumbs {
  import Js

  datatype Crumb = Crumb(title: string, href: string)

  const HomeLabel := "Главная"

  /** `PATH_LABELS`, in the order `Object.keys` lists it. */
  const PathLabels: seq<(string, string)> := [
    ("/", "Главная"),
    ("/users", "Пользователи"),
    ("/users/:id", "Профиль пользователя"),
    ("/profile", "Мой профиль"),
    ("/dashboards", "Дашборды")
  ]

  /** `PATH_LABELS[path]`, `None` when the key is absent. */
  function Lookup(path: string, table: seq<(string, string)>): (r: Js.Option<string>)
    ensures r.Some? <==> exists i :: 0 <= i < |table| && table[i].0 == path
    ensures r.Some? ==> exists i :: 0 <= i < |table| && table[i] == (path, r.value)
    decreases |table|
  {
    if table == [] then Js.None
    else if table[0].0 == path then Js.Some(table[0].1)
    else Lookup(path, table[1..])
  }

  // ---------------------------------------------------------------------
  // matchRoute

  /** A route pattern after `:name` has been replaced by `[^/]+`: literal
      characters and parameters. */
  datatype Token = Lit(c: char) | Param

  predicate IsNameChar(c: char) {
    ('a' <= c <= 'z') || ('A' <= c <= 'Z') || ('0' <= c <= '9') || c == '_'
  }

  /** The end of the run of name characters starting at `i`. */
  function NameEnd(s: string, i: nat): (r: nat)
    requires i <= |s|
    ensures i <= r <= |s|
    ensures forall k :: i <= k < r ==> IsNameChar(s[k])
    ensures r < |s| ==> !IsNameChar(s[r])
    decreases |s| - i
  {
    if i < |s| && IsNameChar(s[i]) then NameEnd(s, i + 1) else i
  }

  /** The global replace of `/:[a-zA-Z0-9_]+/` by a parameter; every other
      character stands for itself. */
  function Compile(pattern: string): (r: seq<Token>)
    ensures |r| <= |pattern|
    decreases |pattern|
  {
    if pattern == [] then []
    else if pattern[0] == ':' && |pattern| > 1 && IsNameChar(pattern[1]) then
      [Param] + Compile(pattern[NameEnd(pattern, 1)..])
    else [Lit(pattern[0])] + Compile(pattern[1..])
  }

  /** `^...$`: the whole path matches the tokens. */
  predicate Matches(path: string, toks: seq<Token>)
    ensures Matches(path, toks) ==> |toks| <= |path|
    decreases |path|, |toks|
  {
    if toks == [] then path == []
    else match toks[0]
      case Lit(c) => path != [] && path[0] == c && Matches(path[1..], toks[1..])
      case Param => ParamThen(path, toks[1..])
  }

  /** `[^/]+` followed by `rest`: one or more characters other than `/`,
      then the rest of the pattern. */
  predicate ParamThen(path: string, rest: seq<Token>)
    ensures ParamThen(path, rest) ==> |rest| < |path|
    decreases |path|, |rest|
  {
    path != [] && path[0] != '/' && (Matches(path[1..], rest) || ParamThen(path[1..], rest))
  }

  function MatchRoute(path: string, pattern: string): bool {
    Matches(path, Compile(pattern))
  }

  function Literals(w: string): (r: seq<Token>)
    ensures |r| == |w|
    ensures forall i :: 0 <= i < |w| ==> r[i] == Lit(w[i])
    decreases |w|
  {
    if w == [] then [] else [Lit(w[0])] + Literals(w[1..])
  }

  /** A run of literal tokens matches exactly its own text as a prefix. */
  lemma {:induction false} LiteralsThen(path: string, w: string, rest: seq<Token>)
    ensures Matches(path, Literals(w) + rest) <==> w <= path && Matches(path[|w|..], rest)
    decreases |w|
  {
    if w == [] {
      assert Literals(w) + rest == rest;
    } else {
      var toks := Literals(w) + rest;
      assert toks[0] == Lit(w[0]) && toks[1..] == Literals(w[1..]) + rest;
      if path != [] && path[0] == w[0] {
        LiteralsThen(path[1..], w[1..], rest);
        if |w| <= |path| {
          assert path[1..][|w| - 1..] == path[|w|..];
        }
        assert w <= path <==> w[1..] <= path[1..];
      }
    }
  }

  /** A trailing parameter matches one non-empty run without `/`. */
  lemma {:induction false} ParamAtEnd(s: string)
    ensures ParamThen(s, []) <==> s != [] && '/' !in s
    decreases |s|
  {
    if s != [] {
      ParamAtEnd(s[1..]);
      assert Matches(s[1..], []) <==> s[1..] == [];
      assert '/' !in s <==> s[0] != '/' && '/' !in s[1..] by {
        assert s == [s[0]] + s[1..];
      }
    }
  }

  /** A parameter followed by more pattern: one or more characters
      without `/`, then the rest of the pattern on what is left. */
  lemma {:induction false} ParamThenMeans(path: string, rest: seq<Token>)
    ensures Matches(path, [Param] + rest) <==> ParamThen(path, rest)
    ensures ParamThen(path, rest) <==>
      exists k :: 1 <= k <= |path| && '/' !in path[..k] && Matches(path[k..], rest)
    decreases |path|
  {
    assert ([Param] + rest)[1..] == rest;
    if path != [] {
      if path[0] == '/' {
        forall k | 1 <= k <= |path| ensures '/' in path[..k] {
          assert path[..k][0] == '/';
        }
      } else {
        var tail := path[1..];
        ParamThenMeans(tail, rest);
        if ParamThen(path, rest) {
          if Matches(tail, rest) {
            assert path[..1] == [path[0]];
          } else {
            var k' :| 1 <= k' <= |tail| && '/' !in tail[..k'] && Matches(tail[k'..], rest);
            assert path[..k' + 1] == [path[0]] + tail[..k'];
            assert path[k' + 1..] == tail[k'..];
          }
        }
        if exists k :: 1 <= k <= |path| && '/' !in path[..k] && Matches(path[k..], rest) {
          var k :| 1 <= k <= |path| && '/' !in path[..k] && Matches(path[k..], rest);
          if k > 1 {
            assert tail[..k - 1] == path[1..k];
            assert forall c :: c in path[1..k] ==> c in path[..k];
            assert tail[k - 1..] == path[k..];
          } else {
            assert path[k..] == tail;
          }
        }
      }
    }
  }

  /** Without `:` a pattern is all literals. */
  lemma {:induction false} CompileLiteral(w: string)
    requires ':' !in w
    ensures Compile(w) == Literals(w)
    decreases |w|
  {
    if w != [] {
      assert ':' !in w[1..] by {
        assert forall k :: 0 <= k < |w[1..]| ==> w[1..][k] == w[k + 1];
      }
      CompileLiteral(w[1..]);
    }
  }

  /** A pattern without parameters matches only itself. */
  lemma LiteralPatternMatchesItself(path: string, w: string)
    ensures Matches(path, Literals(w)) <==> path == w
  {
    LiteralsThen(path, w, []);
    assert Literals(w) + [] == Literals(w);
  }

  /** A literal prefix followed by one `:name` compiles to the prefix's
      characters and a single parameter. */
  lemma {:induction false} CompileParamTail(w: string, name: string)
    requires ':' !in w && name != []
    requires forall k :: 0 <= k < |name| ==> IsNameChar(name[k])
    ensures Compile(w + ":" + name) == Literals(w) + [Param]
    decreases |w|
  {
    var p := w + ":" + name;
    if w == [] {
      assert p == [':'] + name;
      assert forall k :: 1 <= k < |p| ==> p[k] == name[k - 1];
      assert NameEnd(p, 1) == |p|;
      assert p[|p|..] == [];
    } else {
      assert p[0] == w[0] && p[1..] == w[1..] + ":" + name;
      assert ':' !in w[1..] by {
        assert forall k :: 0 <= k < |w[1..]| ==> w[1..][k] == w[k + 1];
      }
      CompileParamTail(w[1..], name);
    }
  }

  lemma CompileUsersId()
    ensures Compile("/users/:id") == Literals("/users/") + [Param]
  {
    assert "/users/:id" == "/users/" + ":" + "id";
    CompileParamTail("/users/", "id");
  }

  /** `/users/:id` matches `/users/` followed by one non-empty segment
      without `/`, and nothing else. */
  lemma UsersIdMatches(path: string)
    ensures MatchRoute(path, "/users/:id") <==>
      "/users/" <= path && path[7..] != [] && '/' !in path[7..]
  {
    CompileUsersId();
    LiteralsThen(path, "/users/", [Param]);
    if "/users/" <= path {
      assert [Param][1..] == [];
      assert Matches(path[7..], [Param]) == ParamThen(path[7..], []);
      ParamAtEnd(path[7..]);
    }
  }

  /** `/users/42` is a profile; `/users` and `/users/42/x` are not. */
  lemma UsersIdExamples()
    ensures MatchRoute("/users/42", "/users/:id")
    ensures !MatchRoute("/users", "/users/:id")
    ensures !MatchRoute("/users/42/x", "/users/:id")
  {
    assert MatchRoute("/users/42", "/users/:id") by {
      UsersIdMatches("/users/42");
      assert "/users/42"[..7] == "/users/";
      assert "/users/42"[7..] == "42";
    }
    assert !MatchRoute("/users", "/users/:id") by {
      UsersIdMatches("/users");
    }
    assert !MatchRoute("/users/42/x", "/users/:id") by {
      UsersIdMatches("/users/42/x");
      assert "/users/42/x"[7..] == "42/x" && "42/x"[2] == '/';
    }
  }

  // ---------------------------------------------------------------------
  // From the location to the segments

  /** The base path with one trailing `/` dropped. */
  function StripBase(basePathSetting: string): string {
    if basePathSetting != [] && basePathSetting[|basePathSetting| - 1] == '/'
    then basePathSetting[..|basePathSetting| - 1] else basePathSetting
  }

  /** The path inside the application: the location minus the base path
      (the base's trailing `/` dropped) when it lies under the base, `/`
      otherwise. */
  function LogicalPath(fullPath: string, basePathSetting: string): (r: string)
    ensures r != [] && r[0] == '/'
  {
    var basePath := StripBase(basePathSetting);
    var lp := if basePath + "/" <= fullPath || fullPath == basePath then
                (if fullPath[|basePath|..] == [] then "/" else fullPath[|basePath|..])
              else "/";
    if lp[0] != '/' then "/" + lp else lp
  }

  /** The prefixing of `/` never fires: under the base the rest already
      starts with `/`. */
  lemma LogicalPathCases(fullPath: string, basePathSetting: string)
    ensures var b := StripBase(basePathSetting);
            b + "/" <= fullPath ==> LogicalPath(fullPath, basePathSetting) == fullPath[|b|..]
    ensures var b := StripBase(basePathSetting);
            fullPath == b ==> LogicalPath(fullPath, basePathSetting) == "/"
    ensures var b := StripBase(basePathSetting);
            !(b + "/" <= fullPath) && fullPath != b ==> LogicalPath(fullPath, basePathSetting) == "/"
  {
    var b := StripBase(basePathSetting);
    if b + "/" <= fullPath {
      assert fullPath[|b|] == (b + "/")[|b|];
    }
  }

  /** `Boolean` on a string. */
  predicate NonEmpty(s: string) {
    s != ""
  }

  /** `logicalPath.split('/').filter(Boolean)`. */
  function Segments(path: string): (r: seq<string>)
    ensures forall i :: 0 <= i < |r| ==> r[i] != "" && '/' !in r[i]
  {
    Js.Filter(Js.Split(path, '/'), NonEmpty)
  }

  lemma RootHasNoSegments()
    ensures Segments("/") == []
  {
    assert Js.Split("/"[1..], '/') == [""];
    assert Js.Split("/", '/') == ["", ""];
  }

  // ---------------------------------------------------------------------
  // The crumbs

  /** `currentPath` after the segments `segs`: `/` before each one. */
  function PrefixPath(segs: seq<string>): (r: string)
    ensures |r| >= |segs|
    ensures segs != [] ==> r[0] == '/'
    decreases |segs|
  {
    if segs == [] then "" else PrefixPath(segs[..|segs| - 1]) + "/" + segs[|segs| - 1]
  }

  /** The label of the first pattern, in key order, that matches. */
  function FirstMatch(path: string, table: seq<(string, string)>): (r: Js.Option<string>)
    ensures r.Some? ==> exists i :: 0 <= i < |table| && MatchRoute(path, table[i].0) && table[i].1 == r.value
                                    && forall j :: 0 <= j < i ==> !MatchRoute(path, table[j].0)
    ensures r.None? ==> forall i :: 0 <= i < |table| ==> !MatchRoute(path, table[i].0)
    decreases |table|
  {
    if table == [] then Js.None
    else if MatchRoute(path, table[0].0) then Js.Some(table[0].1)
    else
      var rest := FirstMatch(path, table[1..]);
      assert rest.Some? ==> exists i :: 1 <= i < |table| && MatchRoute(path, table[i].0) && table[i].1 == rest.value
                                       && forall j :: 0 <= j < i ==> !MatchRoute(path, table[j].0) by {
        if rest.Some? {
          var i' :| 0 <= i' < |table[1..]| && MatchRoute(path, table[1..][i'].0) && table[1..][i'].1 == rest.value
                    && forall j :: 0 <= j < i' ==> !MatchRoute(path, table[1..][j].0);
          assert forall j :: 0 <= j < i' + 1 ==> !MatchRoute(path, table[j].0) by {
            forall j | 0 <= j < i' + 1 ensures !MatchRoute(path, table[j].0) {
              if j > 0 { assert table[j] == table[1..][j - 1]; }
            }
          }
        }
      }
      rest
  }

  /** The label of the crumb for `currentPath`, whose last segment is
      `snippet`. */
  function Label(currentPath: string, snippet: string, decode: string -> string): string {
    var exact := Lookup(currentPath, PathLabels);
    if exact.Some? && exact.value != "" then exact.value
    else
      var m := FirstMatch(currentPath, PathLabels);
      if m.Some? then m.value else decode(snippet)
  }

  /** The crumb list before the pop: home, then one crumb per segment. */
  function AllCrumbs(segs: seq<string>, decode: string -> string): (r: seq<Crumb>)
    ensures |r| == |segs| + 1
    ensures r[0] == Crumb(HomeLabel, "/")
    decreases |segs|
  {
    if segs == [] then [Crumb(HomeLabel, "/")]
    else
      var p := PrefixPath(segs);
      AllCrumbs(segs[..|segs| - 1], decode) + [Crumb(Label(p, segs[|segs| - 1], decode), p)]
  }

  /** The crumbs of a prefix of the segments are a prefix of the crumbs. */
  lemma {:induction false} AllCrumbsPrefix(segs: seq<string>, k: nat, decode: string -> string)
    requires k <= |segs|
    ensures AllCrumbs(segs[..k], decode) == AllCrumbs(segs, decode)[..k + 1]
    decreases |segs|
  {
    if k < |segs| {
      var front := segs[..|segs| - 1];
      AllCrumbsPrefix(front, k, decode);
      assert front[..k] == segs[..k];
    } else {
      assert segs[..k] == segs;
    }
  }

  lemma {:induction false} JoinSnoc(s: seq<string>, x: string)
    requires s != []
    ensures Js.Join(s + [x], '/') == Js.Join(s, '/') + "/" + x
    decreases |s|
  {
    if |s| == 1 {
      assert s + [x] == [s[0], x];
      assert [s[0], x][1..] == [x];
    } else {
      assert (s + [x])[1..] == s[1..] + [x];
      JoinSnoc(s[1..], x);
    }
  }

  /** `currentPath` after `n` segments is `/` and the first `n` segments
      joined with `/`. */
  lemma {:induction false} PrefixPathIsJoin(segs: seq<string>)
    requires segs != []
    ensures PrefixPath(segs) == "/" + Js.Join(segs, '/')
    decreases |segs|
  {
    var front := segs[..|segs| - 1];
    var last := segs[|segs| - 1];
    assert PrefixPath(segs) == PrefixPath(front) + "/" + last;
    if front == [] {
      assert segs == [last];
      assert Js.Join(segs, '/') == last;
    } else {
      PrefixPathIsJoin(front);
      JoinSnoc(front, last);
      assert front + [last] == segs;
      assert PrefixPath(segs) == "/" + Js.Join(front, '/') + "/" + last;
    }
  }

  /** Crumb `i + 1` links to the path of the first `i + 1` segments. */
  lemma CrumbHref(segs: seq<string>, i: nat, decode: string -> string)
    requires i < |segs|
    ensures AllCrumbs(segs, decode)[i + 1].href == PrefixPath(segs[..i + 1])
  {
    CrumbAt(segs, i, decode);
  }

  /** One more segment adds `/` and that segment to the path. */
  lemma PrefixPathSnoc(segs: seq<string>, i: nat)
    requires i < |segs|
    ensures PrefixPath(segs[..i + 1]) == PrefixPath(segs[..i]) + "/" + segs[i]
  {
    var pre := segs[..i + 1];
    assert pre[..|pre| - 1] == segs[..i] && pre[|pre| - 1] == segs[i];
  }

  /** Each href extends the one before it by exactly one segment. */
  lemma CrumbHrefStep(segs: seq<string>, i: nat, decode: string -> string)
    requires 0 < i < |segs|
    ensures AllCrumbs(segs, decode)[i + 1].href == AllCrumbs(segs, decode)[i].href + "/" + segs[i]
  {
    CrumbHrefPair(segs, i, decode);
    HrefExtends(AllCrumbs(segs, decode), segs, i);
  }

  /** Crumbs `i` and `i + 1` point at the first `i` and `i + 1` segments. */
  lemma CrumbHrefPair(segs: seq<string>, i: nat, decode: string -> string)
    requires 0 < i < |segs|
    ensures AllCrumbs(segs, decode)[i + 1].href == PrefixPath(segs[..i + 1])
    ensures AllCrumbs(segs, decode)[i].href == PrefixPath(segs[..i])
  {
    CrumbHrefAt(segs, i + 1, decode);
    CrumbHrefAt(segs, i, decode);
  }

  /** Two crumbs pointing at consecutive prefixes differ by one segment. */
  lemma HrefExtends(c: seq<Crumb>, segs: seq<string>, i: nat)
    requires i + 1 < |c| && i < |segs|
    requires c[i + 1].href == PrefixPath(segs[..i + 1]) && c[i].href == PrefixPath(segs[..i])
    ensures c[i + 1].href == c[i].href + "/" + segs[i]
  {
    PrefixPathSnoc(segs, i);
  }

  /** Crumb `k`, after home, points at the first `k` segments. */
  lemma CrumbHrefAt(segs: seq<string>, k: nat, decode: string -> string)
    requires 0 < k <= |segs|
    ensures AllCrumbs(segs, decode)[k].href == PrefixPath(segs[..k])
  {
    CrumbAt(segs, k - 1, decode);
  }

  /** Crumb `i + 1` points at the first `i + 1` segments, and each href
      extends the one before it by exactly one segment. */
  lemma CrumbHrefs(segs: seq<string>, i: nat, decode: string -> string)
    requires i < |segs|
    ensures AllCrumbs(segs, decode)[i + 1].href == "/" + Js.Join(segs[..i + 1], '/')
    ensures i > 0 ==> AllCrumbs(segs, decode)[i + 1].href ==
                      AllCrumbs(segs, decode)[i].href + "/" + segs[i]
  {
    CrumbHref(segs, i, decode);
    PrefixPathIsJoin(segs[..i + 1]);
    if i > 0 {
      CrumbHrefStep(segs, i, decode);
    }
  }

  /** Crumb `i + 1` is titled by the label rule for the path of the first
      `i + 1` segments, whose last segment is its snippet. */
  lemma CrumbTitles(segs: seq<string>, i: nat, decode: string -> string)
    requires i < |segs|
    ensures AllCrumbs(segs, decode)[i + 1].title == Label(PrefixPath(segs[..i + 1]), segs[i], decode)
  {
    CrumbAt(segs, i, decode);
  }

  /** Crumb `i + 1` is the one built for the first `i + 1` segments. */
  lemma {:induction false} CrumbAt(segs: seq<string>, i: nat, decode: string -> string)
    requires i < |segs|
    ensures var p := PrefixPath(segs[..i + 1]);
      AllCrumbs(segs, decode)[i + 1] == Crumb(Label(p, segs[i], decode), p)
    decreases |segs|
  {
    var front := segs[..|segs| - 1];
    if i == |segs| - 1 {
      assert segs[..i + 1] == segs;
    } else {
      assert AllCrumbs(segs, decode)[i + 1] == AllCrumbs(front, decode)[i + 1];
      CrumbAt(front, i, decode);
      assert front[..i + 1] == segs[..i + 1] && front[i] == segs[i];
    }
  }

  /** The body of the `useMemo`. */
  method Build(fullPath: string, basePath: string, decode: string -> string)
    returns (breadcrumbs: seq<Crumb>, lastLabel: string)
    ensures var all := AllCrumbs(Segments(LogicalPath(fullPath, basePath)), decode);
      breadcrumbs == all[..|all| - 1] && lastLabel == all[|all| - 1].title
  {
    var logicalPath := LogicalPath(fullPath, basePath);
    var pathSnippets := Segments(logicalPath);
    var crumbs := [Crumb(HomeLabel, "/")];
    var currentPath := "";
    for i := 0 to |pathSnippets|
      invariant currentPath == PrefixPath(pathSnippets[..i])
      invariant crumbs == AllCrumbs(pathSnippets[..i], decode)
    {
      var snippet := pathSnippets[i];
      currentPath := currentPath + "/" + snippet;
      assert pathSnippets[..i + 1][..i] == pathSnippets[..i];
      var exact := Lookup(currentPath, PathLabels);
      if exact.Some? && exact.value != "" {
        crumbs := crumbs + [Crumb(exact.value, currentPath)];
      } else {
        var matched := FirstMatch(currentPath, PathLabels);
        if matched.Some? {
          crumbs := crumbs + [Crumb(matched.value, currentPath)];
        } else {
          crumbs := crumbs + [Crumb(decode(snippet), currentPath)];
        }
      }
    }
    assert pathSnippets[..|pathSnippets|] == pathSnippets;
    var last := crumbs[|crumbs| - 1];
    breadcrumbs := crumbs[..|crumbs| - 1];
    lastLabel := last.title;
  }

  /** On the root there is nothing to link back to: no crumbs, and the
      title is the home label. */
  lemma RootCrumbs(basePath: string, decode: string -> string)
    ensures var all := AllCrumbs(Segments(LogicalPath("/", basePath)), decode);
      all[..|all| - 1] == [] && all[|all| - 1].title == HomeLabel
  {
    assert LogicalPath("/", basePath) == "/" by {
      var b := if basePath != [] && basePath[|basePath| - 1] == '/'
               then basePath[..|basePath| - 1] else basePath;
      if b + "/" <= "/" {
        assert b == [];
      }
    }
    RootHasNoSegments();
  }

  /** `/users/42` splits into an empty piece, `users` and `42`. */
  lemma ProfileSplit()
    ensures Js.Split("/users/42", '/') == ["", "users", "42"]
  {
    Js.SplitNoSeparator("42", '/');
    Js.SplitPrefix("users", '/', "42");
    assert "users" + ['/'] + "42" == "users/42";
    Js.SplitPrefix("", '/', "users/42");
    assert "" + ['/'] + "users/42" == "/users/42";
  }

  /** Dropping the empty piece before the first `/`. */
  lemma LeadingEmptyDropped(parts: seq<string>)
    requires forall i :: 0 <= i < |parts| ==> NonEmpty(parts[i])
    ensures Js.Filter([""] + parts, NonEmpty) == parts
  {
    assert ([""] + parts)[1..] == parts;
    Js.FilterKeepsAll(parts, NonEmpty);
  }

  lemma ProfileSegments()
    ensures Segments("/users/42") == ["users", "42"]
  {
    ProfileSplit();
    var parts: seq<string> := ["users", "42"];
    assert ["", "users", "42"] == [""] + parts;
    assert forall i :: 0 <= i < |parts| ==> NonEmpty(parts[i]);
    LeadingEmptyDropped(parts);
  }

  lemma LookupProfile()
    ensures Lookup("/users", PathLabels) == Js.Some("Пользователи")
    ensures Lookup("/users/42", PathLabels) == Js.None
  {
    var t := PathLabels;
    assert t[1..][1..] == t[2..] && t[2..][1..] == t[3..] && t[3..][1..] == t[4..];
    assert t[4..][1..] == [];
  }

  lemma NoLiteralMatch()
    ensures !MatchRoute("/users/42", "/")
    ensures !MatchRoute("/users/42", "/users")
  {
    CompileLiteral("/");
    CompileLiteral("/users");
    LiteralPatternMatchesItself("/users/42", "/");
    LiteralPatternMatchesItself("/users/42", "/users");
  }

  lemma FirstMatchProfile()
    ensures FirstMatch("/users/42", PathLabels) == Js.Some("Профиль пользователя")
  {
    NoLiteralMatch();
    UsersIdExamples();
    var t := PathLabels;
    assert t[1..][1..] == t[2..];
  }

  lemma ProfilePaths()
    ensures PrefixPath(["users"]) == "/users"
    ensures PrefixPath(["users", "42"]) == "/users/42"
  {
    assert ["users", "42"][..1] == ["users"] && ["users"][..0] == [];
  }

  lemma ProfileLabels(decode: string -> string)
    ensures Label("/users", "users", decode) == "Пользователи"
    ensures Label("/users/42", "42", decode) == "Профиль пользователя"
  {
    LookupProfile();
    FirstMatchProfile();
  }

  /** A profile page: home, then the users list, and the profile label as
      the title, found through the `/users/:id` pattern. */
  lemma ProfileCrumbs(decode: string -> string)
    ensures var all := AllCrumbs(["users", "42"], decode);
      all[..|all| - 1] == [Crumb(HomeLabel, "/"), Crumb("Пользователи", "/users")]
      && all[|all| - 1].title == "Профиль пользователя"
  {
    ProfilePaths();
    ProfileLabels(decode);
    var segs := ["users", "42"];
    assert segs[..1] == ["users"] && ["users"][..0] == [];
    var one := AllCrumbs(["users"], decode);
    assert one == [Crumb(HomeLabel, "/"), Crumb(Label("/users", "users", decode), "/users")];
    var all := AllCrumbs(segs, decode);
    assert all == one + [Crumb(Label("/users/42", "42", decode), "/users/42")];
  }

  lemma ProfileLogicalPath()
    ensures LogicalPath("/users/42", "/") == "/users/42"
  {
    assert "/"[..0] == "";
    assert "" + "/" <= "/users/42";
  }

  /** The location `/users/42` under the root base: two segments, whose
      crumbs are as above. */
  lemma ProfilePage(decode: string -> string)
    ensures LogicalPath("/users/42", "/") == "/users/42"
    ensures Segments("/users/42") == ["users", "42"]
    ensures var all := AllCrumbs(Segments("/users/42"), decode);
      all[..|all| - 1] == [Crumb(HomeLabel, "/"), Crumb("Пользователи", "/users")]
      && all[|all| - 1].title == "Профиль пользователя"
  {
    ProfileLogicalPath();
    ProfileSegments();
    ProfileCrumbs(decode);
  }
}
