/** The plugin's `CallExpression` visitor: a per-file gate over a cache of
    handled file names, the router-call match, and the replacement it
    produces. The host's splice of the replacement text is left to the
    caller: the visitor returns what it would splice. */
module Visitor {
  import opened Ast
  import opened Matcher
  import opened Template

  /** One visited call expression: the file it is in, its callee, its
      arguments and the scope it is visited in. */
  datatype Site = Site(filename: string, callee: Node, args: seq<Node>, scope: Scope)

  /** The rewrite of a matched call: the dva instance's name, the resolved
      router path, and the generated source that replaces the statement. */
  datatype Replacement = Replacement(appName: string, routerPath: string, code: string)

  /** File name to "already rewritten". */
  type Cache = map<string, bool>

  /** The properties every plain object `{}` inherits from
      `Object.prototype`. Each holds a function, or for `__proto__` the
      prototype object itself, so reading one from the cache is truthy. */
  const ObjectPrototypeKeys: set<string> := {
    "constructor", "hasOwnProperty", "isPrototypeOf", "propertyIsEnumerable",
    "toString", "toLocaleString", "valueOf", "__proto__",
    "__defineGetter__", "__defineSetter__", "__lookupGetter__", "__lookupSetter__"
  }

  /** JavaScript truthiness of `cache[filename]` on a plain object: an own
      entry counts by its value, an inherited key is always truthy, and any
      other missing key is falsy. */
  predicate Handled(cache: Cache, filename: string) {
    (filename in cache && cache[filename]) || filename in ObjectPrototypeKeys
  }

  /** The router path of a call with arguments `args`; a call without
      arguments has none. */
  function ResolvedPath(args: seq<Node>, scope: Scope): (r: Option<string>)
  {
    if |args| == 0 then None else GetRouterPath(args[0], scope)
  }

  /** The decision for one call site, before the per-file gate. */
  function Match(site: Site, container: Option<string>): (r: Option<Replacement>)
  {
    if IsRouterCall(site.callee, site.scope) then
      var path := ResolvedPath(site.args, site.scope);
      if path.Some? && path.value != "" then
        var app := site.callee.obj.name;
        Some(Replacement(app, path.value, GetHmrString(app, path.value, container)))
      else None
    else None
  }

  /** A site is rewritten exactly when its callee is `<app>.router` on a dva
      instance and its argument resolves to a non-empty path; the rewrite
      names that instance and path and carries the generated block for
      them. */
  lemma MatchSpec(site: Site, container: Option<string>)
    ensures Match(site, container).Some? <==>
      && IsRouterCall(site.callee, site.scope)
      && ResolvedPath(site.args, site.scope).Some?
      && ResolvedPath(site.args, site.scope).value != ""
    ensures Match(site, container).Some? ==>
      && site.callee == MemberExpr(Identifier(Match(site, container).value.appName), Identifier(RouterName))
      && IsDvaInstance(Match(site, container).value.appName, site.scope)
      && Some(Match(site, container).value.routerPath) == ResolvedPath(site.args, site.scope)
      && Match(site, container).value.routerPath != ""
      && Match(site, container).value.code == GetHmrString(Match(site, container).value.appName, Match(site, container).value.routerPath, container)
  {
  }

  /** A router call without an argument is left alone: no rewrite, and no
      dereference of the missing argument. */
  lemma NoArgumentNoRewrite(site: Site, container: Option<string>)
    requires |site.args| == 0
    ensures Match(site, container).None?
  {
  }

  /** `const app = dva(); app.router(require('./router'));` is rewritten
      with path `./router`; with `import routes from './routes'` and
      `app.router(routes)` the path is `./routes`. */
  lemma {:induction false} Scenarios(container: Option<string>)
    ensures var app := Declarator(Identifier("app"), Some(CallExpr(Identifier(DvaName), [])));
      var scope := map["app" := VarDecl([app]), "routes" := ImportDecl("./routes")];
      var callee := MemberExpr(Identifier("app"), Identifier(RouterName));
      && Match(Site("index.js", callee, [CallExpr(Identifier(RequireName), [Literal("./router")])], scope), container)
         == Some(Replacement("app", "./router", GetHmrString("app", "./router", container)))
      && Match(Site("index.js", callee, [Identifier("routes")], scope), container)
         == Some(Replacement("app", "./routes", GetHmrString("app", "./routes", container)))
  {
    var app := Declarator(Identifier("app"), Some(CallExpr(Identifier(DvaName), [])));
    var scope := map["app" := VarDecl([app]), "routes" := ImportDecl("./routes")];
    assert FirstDeclaring([app], "app", 0);
    assert IsDvaInstance("app", scope);
  }

  /** The rewrite a match carries names the instance and path it matched,
      re-registers that instance's router from a fresh `require` of the
      path, accepts changes to the same path in its hook and re-requires it
      there. */
  lemma MatchedCode(site: Site, container: Option<string>)
    requires Match(site, container).Some?
    ensures var m := Match(site, container).value;
      && IsInfix(m.appName + ".router(require('" + m.routerPath + "'))", m.code)
      && IsInfix("module.hot.accept('" + m.routerPath + "'", m.code)
      && IsInfix("const router = " + "require('" + m.routerPath + "')", m.code)
      && IsInfix("document.querySelector('" + ContainerOr(container) + "')", m.code)
  {
    var m := Match(site, container).value;
    RouterCallSite(m.appName, m.routerPath, container);
    AcceptSite(m.appName, m.routerPath, container);
    ReloadSite(m.appName, m.routerPath, container);
    MountSite(m.appName, m.routerPath, container);
  }

  /** The per-file gate around a site's match `m`: a handled file is
      skipped; otherwise a match marks the file handled and is passed on,
      and no match changes nothing. */
  function Gate(cache: Cache, filename: string, m: Option<Replacement>): (r: (Cache, Option<Replacement>))
    ensures Handled(cache, filename) ==> r == (cache, None)
    ensures !Handled(cache, filename) ==> r.1 == m
    ensures r.0 == if r.1.Some? then cache[filename := true] else cache
  {
    if Handled(cache, filename) then (cache, None)
    else if m.Some? then (cache[filename := true], m)
    else (cache, None)
  }

  /** One visit of `site`. */
  function Step(cache: Cache, site: Site, container: Option<string>): (r: (Cache, Option<Replacement>))
  {
    Gate(cache, site.filename, Match(site, container))
  }

  /** The gate applied to a run of visits, given each visit's file and
      match: the final cache and what each visit produced. */
  function Replay(cache: Cache, files: seq<string>, matches: seq<Option<Replacement>>)
    : (r: (Cache, seq<Option<Replacement>>))
    requires |files| == |matches|
    ensures |r.1| == |files|
    decreases |files|
  {
    if files == [] then (cache, [])
    else
      var (c1, out) := Gate(cache, files[0], matches[0]);
      var (c2, outs) := Replay(c1, files[1..], matches[1..]);
      (c2, [out] + outs)
  }

  /** No entry before position `i` with the same file as entry `i` matched. */
  ghost predicate FirstOfFile(files: seq<string>, matches: seq<Option<Replacement>>, i: int)
    requires |files| == |matches| && 0 <= i < |files|
  {
    forall j :: 0 <= j < i && files[j] == files[i] ==> matches[j].None?
  }

  lemma {:induction false} ReplayFirstWins(cache: Cache, files: seq<string>, matches: seq<Option<Replacement>>, i: int)
    requires |files| == |matches| && 0 <= i < |files|
    ensures Replay(cache, files, matches).1[i] ==
      if !Handled(cache, files[i]) && FirstOfFile(files, matches, i) then matches[i] else None
    decreases |files|
  {
    var c1 := Gate(cache, files[0], matches[0]).0;
    if i > 0 {
      var fs, ms := files[1..], matches[1..];
      ReplayFirstWins(c1, fs, ms, i - 1);
      assert Replay(cache, files, matches).1[i] == Replay(c1, fs, ms).1[i - 1];
      var f := files[i];
      assert fs[i - 1] == f && ms[i - 1] == matches[i];
      assert FirstOfFile(files, matches, i) <==>
        (files[0] == f ==> matches[0].None?) && FirstOfFile(fs, ms, i - 1)
      by {
        if FirstOfFile(fs, ms, i - 1) && (files[0] == f ==> matches[0].None?) {
          forall j | 0 < j < i && files[j] == f ensures matches[j].None? {
            assert fs[j - 1] == files[j] && ms[j - 1] == matches[j];
          }
        }
        if FirstOfFile(files, matches, i) {
          forall j | 0 <= j < i - 1 && fs[j] == f ensures ms[j].None? {
            assert fs[j] == files[j + 1] && ms[j] == matches[j + 1];
          }
        }
      }
    }
  }

  /** Some entry for file `f` matched. */
  ghost predicate MatchedFile(files: seq<string>, matches: seq<Option<Replacement>>, f: string)
    requires |files| == |matches|
  {
    exists i :: 0 <= i < |files| && files[i] == f && matches[i].Some?
  }

  lemma {:induction false} ReplayCache(cache: Cache, files: seq<string>, matches: seq<Option<Replacement>>)
    requires |files| == |matches|
    ensures var final := Replay(cache, files, matches).0;
      && (forall f :: Handled(final, f) <==> Handled(cache, f) || MatchedFile(files, matches, f))
      && (forall f :: f in final <==>
            f in cache || (f !in ObjectPrototypeKeys && MatchedFile(files, matches, f)))
      && (forall f :: f in cache && !MatchedFile(files, matches, f) ==> final[f] == cache[f])
    decreases |files|
  {
    if files != [] {
      var c1 := Gate(cache, files[0], matches[0]).0;
      var fs, ms := files[1..], matches[1..];
      ReplayCache(c1, fs, ms);
      forall f
        ensures MatchedFile(files, matches, f) <==>
          (files[0] == f && matches[0].Some?) || MatchedFile(fs, ms, f)
      {
        if MatchedFile(fs, ms, f) {
          var k :| 0 <= k < |fs| && fs[k] == f && ms[k].Some?;
          assert files[k + 1] == fs[k] && matches[k + 1] == ms[k];
        }
        if MatchedFile(files, matches, f) {
          var k :| 0 <= k < |files| && files[k] == f && matches[k].Some?;
          if k > 0 { assert fs[k - 1] == files[k] && ms[k - 1] == matches[k]; }
        }
      }
    }
  }

  /** The visits of one transform run, in traversal order. */
  function RunAll(cache: Cache, sites: seq<Site>, container: Option<string>): (r: (Cache, seq<Option<Replacement>>))
  {
    Replay(cache, seq(|sites|, i requires 0 <= i < |sites| => sites[i].filename),
                  seq(|sites|, i requires 0 <= i < |sites| => Match(sites[i], container)))
  }

  /** No site before position `i` in the same file as site `i` matches. */
  ghost predicate NoEarlierMatch(sites: seq<Site>, i: int, container: Option<string>)
    requires 0 <= i < |sites|
  {
    forall j :: 0 <= j < i && sites[j].filename == sites[i].filename ==> Match(sites[j], container).None?
  }

  /** Some site of file `f` matches. */
  ghost predicate MatchedIn(sites: seq<Site>, f: string, container: Option<string>) {
    exists i :: 0 <= i < |sites| && sites[i].filename == f && Match(sites[i], container).Some?
  }

  /** First match wins per file: a visit produces a replacement exactly when
      its file was not handled when the run began, the site matches, and no
      earlier site of the same file matched; the replacement is the match. */
  lemma FirstMatchWins(cache: Cache, sites: seq<Site>, container: Option<string>, i: int)
    requires 0 <= i < |sites|
    ensures |RunAll(cache, sites, container).1| == |sites|
    ensures RunAll(cache, sites, container).1[i] ==
      if !Handled(cache, sites[i].filename) && NoEarlierMatch(sites, i, container)
      then Match(sites[i], container) else None
  {
    var files := seq(|sites|, j requires 0 <= j < |sites| => sites[j].filename);
    var matches := seq(|sites|, j requires 0 <= j < |sites| => Match(sites[j], container));
    ReplayFirstWins(cache, files, matches, i);
    assert matches[i] == Match(sites[i], container);
    if NoEarlierMatch(sites, i, container) {
      forall j | 0 <= j < i && files[j] == files[i] ensures matches[j].None? {
        assert matches[j] == Match(sites[j], container);
      }
    } else {
      var j :| 0 <= j < i && sites[j].filename == sites[i].filename && Match(sites[j], container).Some?;
      assert files[j] == files[i] && matches[j].Some?;
    }
  }

  /** At most one replacement per file in a run. */
  lemma AtMostOncePerFile(cache: Cache, sites: seq<Site>, container: Option<string>, i: int, j: int)
    requires 0 <= i < j < |sites| && sites[i].filename == sites[j].filename
    ensures |RunAll(cache, sites, container).1| == |sites|
    ensures RunAll(cache, sites, container).1[i].None? || RunAll(cache, sites, container).1[j].None?
  {
    FirstMatchWins(cache, sites, container, i);
    FirstMatchWins(cache, sites, container, j);
  }

  /** A file already handled when the run begins is never rewritten. */
  lemma HandledFileUntouched(cache: Cache, sites: seq<Site>, container: Option<string>, i: int)
    requires 0 <= i < |sites| && Handled(cache, sites[i].filename)
    ensures |RunAll(cache, sites, container).1| == |sites|
    ensures RunAll(cache, sites, container).1[i].None?
  {
    FirstMatchWins(cache, sites, container, i);
  }

  /** A file whose name is a key every plain object inherits counts as
      handled from the start, so none of its sites is ever rewritten. */
  lemma {:induction false} PrototypeKeyNeverRewritten(cache: Cache, sites: seq<Site>, container: Option<string>, i: int)
    requires 0 <= i < |sites| && sites[i].filename in ObjectPrototypeKeys
    ensures |RunAll(cache, sites, container).1| == |sites|
    ensures RunAll(cache, sites, container).1[i].None?
  {
    HandledFileUntouched(cache, sites, container, i);
  }

  /** The cache after a run: a file is handled exactly when it was handled
      before or one of its sites matched; files are only ever added, never
      under an inherited key, and entries of files no site matched are
      unchanged. */
  lemma RunAllCache(cache: Cache, sites: seq<Site>, container: Option<string>)
    ensures var final := RunAll(cache, sites, container).0;
      && (forall f :: Handled(final, f) <==> Handled(cache, f) || MatchedIn(sites, f, container))
      && (forall f :: f in final <==>
            f in cache || (f !in ObjectPrototypeKeys && MatchedIn(sites, f, container)))
      && (forall f :: f in cache && !MatchedIn(sites, f, container) ==> final[f] == cache[f])
  {
    var files := seq(|sites|, j requires 0 <= j < |sites| => sites[j].filename);
    var matches := seq(|sites|, j requires 0 <= j < |sites| => Match(sites[j], container));
    ReplayCache(cache, files, matches);
    forall f ensures MatchedFile(files, matches, f) == MatchedIn(sites, f, container) {
      if MatchedIn(sites, f, container) {
        var k :| 0 <= k < |sites| && sites[k].filename == f && Match(sites[k], container).Some?;
        assert files[k] == f && matches[k].Some?;
      }
    }
  }

  /** The plugin instance: `cache` lives as long as the plugin and records
      every file already rewritten. It stands for a plain object, so the
      keys in ObjectPrototypeKeys read as handled even while it is empty. */
  class HmrPlugin {
    var cache: Cache

    /** The cache only ever records `true`. */
    ghost predicate Valid()
      reads this
    {
      forall f :: f in cache ==> cache[f]
    }

    constructor ()
      ensures Valid() && cache == map[]
    {
      cache := map[];
    }

    /** Visit one call expression. Returns the replacement to splice in
        place of the call's statement, or None to leave the tree alone. */
    method Visit(site: Site, container: Option<string>) returns (r: Option<Replacement>)
      requires Valid()
      modifies this
      ensures Valid()
      ensures (cache, r) == Step(old(cache), site, container)
      ensures old(site.filename in cache) ==> r.None? && cache == old(cache)
      ensures site.filename in ObjectPrototypeKeys ==> r.None? && cache == old(cache)
      ensures r.Some? <==>
        site.filename !in old(cache) && site.filename !in ObjectPrototypeKeys && Match(site, container).Some?
      ensures r.Some? ==> cache == old(cache)[site.filename := true]
      ensures r.None? ==> cache == old(cache)
    {
      if Handled(cache, site.filename) {
        return None;
      }
      r := None;
      if IsRouterCall(site.callee, site.scope) {
        var routerPath := if |site.args| == 0 then None else GetRouterPath(site.args[0], site.scope);
        if routerPath.Some? && routerPath.value != "" {
          cache := cache[site.filename := true];
          var app := site.callee.obj.name;
          r := Some(Replacement(app, routerPath.value, GetHmrString(app, routerPath.value, container)));
        }
      }
    }

    /** Visit a run of call sites in traversal order. The replacements and
        the final cache are those of RunAll, so the run lemmas above
        (first match wins, at most once per file, the final cache) hold
        for the plugin. */
    method VisitAll(sites: seq<Site>, container: Option<string>) returns (outs: seq<Option<Replacement>>)
      requires Valid()
      modifies this
      ensures Valid()
      ensures (cache, outs) == RunAll(old(cache), sites, container)
    {
      ghost var files := seq(|sites|, j requires 0 <= j < |sites| => sites[j].filename);
      ghost var matches := seq(|sites|, j requires 0 <= j < |sites| => Match(sites[j], container));
      outs := [];
      var i := 0;
      assert files[0..] == files && matches[0..] == matches;
      assert RunAll(cache, sites, container) == Replay(cache, files, matches);
      assert outs + Replay(cache, files, matches).1 == Replay(cache, files, matches).1;
      while i < |sites|
        invariant 0 <= i <= |sites|
        invariant Valid()
        invariant var rest := Replay(cache, files[i..], matches[i..]);
          (rest.0, outs + rest.1) == RunAll(old(cache), sites, container)
      {
        assert files[i..][1..] == files[i + 1..] && matches[i..][1..] == matches[i + 1..];
        ghost var before := cache;
        var r := Visit(sites[i], container);
        assert outs + Replay(before, files[i..], matches[i..]).1
            == (outs + [r]) + Replay(cache, files[i + 1..], matches[i + 1..]).1;
        outs := outs + [r];
        i := i + 1;
      }
      assert files[i..] == [] && matches[i..] == [];
      assert outs + Replay(cache, files[i..], matches[i..]).1 == outs;
    }
  }
}
