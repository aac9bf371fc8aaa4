# babel-plugin-dva-hmr, modelled in Dafny

babel-plugin-dva-hmr is a Babel plugin. It looks for the call
`<app>.router(<arg>)` where `<app>` was declared as `const app = dva()`. It
resolves the router module path from `<arg>` and replaces the statement with a
generated block. That block re-registers the router from a fresh
`require('<path>')` and installs an `onHmr` hook, which accepts hot updates of
the path and re-renders, showing a `redbox-react` error view at a container
selector when rendering throws. Only the first match in each file is
rewritten. A cache of handled file names, kept for the plugin's lifetime,
enforces this.

The model has four modules:

- `Ast` (`ast.dfy`): the part of Babel's tree and scope the plugin inspects.
  It is a closed datatype: calls, member expressions, identifiers, string
  literals and `Other`. Declarators have an optional initialiser. A binding's
  parent is an import, a variable declaration or something else. The scope is
  a flat map from name to that parent.
- `Matcher` (`matcher.dfy`): `isDvaCallExpression`, `isRequire`,
  `findDeclarator`, `isDvaInstance`, `isRouterCall` and `getRouterPath` as
  total functions. `findDeclarator` is also kept as the source's loop with an
  early return, proved equal to its recursive specification. A second function
  models the resolver as written, including the errors it throws, over the
  flat scope described below (so not the errors Babel's global bindings
  would add; see Left out).
- `Template` (`template.dfy`): `getHmrString` as the concatenation of the
  template's fixed text and its six holes. Lemmas give its length, the sites
  where each input lands, and injectivity.
- `Visitor` (`visitor.dfy`): the `CallExpression` visitor. It is a class
  `HmrPlugin` with a `cache: map<string, bool>` field and a `Visit` method
  that returns the replacement instead of splicing it. The cache stands for
  the plain object `{}`, so the keys every object inherits from
  `Object.prototype` (`constructor`, `toString`, `__proto__`, ...) read as
  handled. Pure functions `Gate`,
  `Match` and `RunAll` specify one visit and a run of visits in traversal
  order. The lemmas prove "first match wins per file" and describe the final
  cache.

The resolver's unresolved case is `None`. As written, every fall-through to
the warning at line 107 throws instead of warning (see Findings). A `require`
of a non-literal returns `undefined` without reaching the warning, and the
call is left alone. The corrected `GetRouterPath` is what the visitor uses.

## Model

| member | source | states |
|---|---|---|
| Matcher.IsDvaCallExpression | src/index.js:39-43 | true exactly when the node is a call `dva(...)`: a call whose callee is the bare identifier `dva`, with any arguments |
| Matcher.IsRequire | src/index.js:68-72 | true exactly when the node is a call `require(...)`, with any arguments |
| Matcher.FirstDeclaratorSpec | src/index.js:74-80 | the declarator found is the one at the first position whose id is the identifier `name`; nothing is found exactly when no declarator binds `name` |
| Matcher.FindDeclarator | src/index.js:74-80 | the loop that returns at the first matching declarator returns the first declarator binding the name, and nothing exactly when none binds it |
| Matcher.IsDvaInstance | src/index.js:45-57 | true exactly when the name is bound by a variable declaration whose first declarator for the name has an initialiser that is a `dva(...)` call; an unbound name, or one bound by an import or anything else, is never an instance |
| Matcher.IsRouterCall | src/index.js:59-66 | false for every node that is not a member expression; true exactly when the node is `<x>.router` with `x` a plain identifier that is a dva instance |
| Matcher.GetRouterPath | src/index.js:82-106 | a call whose first argument is a string literal yields that literal; an identifier imported from `p` yields `p`; an identifier whose first declarator is `require('p')` yields `p`; any path it yields comes from one of these three shapes |
| Matcher.UnresolvableShapes | src/index.js:82-106 | unbound identifiers, identifiers bound by neither an import nor a variable declaration, and node kinds other than calls and identifiers yield no path |
| Matcher.AsWrittenAgreesUnlessThrown | src/index.js:82-108 | when the resolver as written returns normally, it returns what GetRouterPath returns; every path GetRouterPath resolves, it resolves too |
| Matcher.UnresolvedPathThrows | src/index.js:107 | for an unbound identifier argument, GetRouterPath gives no path but the resolver as written throws a ReferenceError on `opts` |
| Matcher.NonLiteralRequireReturnsUndefined | src/index.js:96-100 | `const r = require(x); app.router(r);` with `x` not a literal: the resolver as written returns `undefined` without throwing or warning, and GetRouterPath gives no path either |
| Matcher.MissingArgumentThrows | src/index.js:83-99 | a router call with no argument, or a `require()` with no argument behind the identifier, makes the resolver as written throw a TypeError |
| Template.GetHmrString | src/index.js:3-34 | the block is 806 fixed characters plus the app name twice, the router path three times and the container once, all verbatim |
| Template.LogSite | src/index.js:7 | the block contains the marker log `console.log('[HMR] inited with babel-plugin-dva-hmr');` |
| Template.RouterCallSite | src/index.js:8 | the block contains `<app>.router(require('<path>'))` |
| Template.MountSite | src/index.js:15 | the block contains `document.querySelector('<container>')`, with `#root` when the option is absent |
| Template.AcceptSite | src/index.js:25 | the block contains `module.hot.accept('<path>'` |
| Template.ReloadSite | src/index.js:25-26 | the accept callback of the hook re-requires the path: the block contains `const router = require('<path>')` |
| Template.DefaultMount | src/index.js:3-15 | with no container option the block mounts the error view at `document.querySelector('#root')` |
| Template.HmrStringInjective | src/index.js:3-34 | for equal lengths of app name and path, equal blocks have equal app names, paths and containers, so the inputs are substituted without loss |
| Visitor.NoArgumentNoRewrite | src/index.js:115-118 | a router call without an argument is never rewritten (the corrected behaviour; the source as written throws there) |
| Visitor.MatchSpec | src/index.js:116-121 | a site matches exactly when its callee is a router call and its first argument resolves to a non-empty path; the replacement names the callee's instance and that path and carries the block generated for them |
| Visitor.Scenarios | src/index.js:82-121 | `const app = dva(); app.router(require('./router'));` is rewritten with path `./router`, and `import routes from './routes'; app.router(routes);` with path `./routes`, each with the block generated for `app` and that path |
| Visitor.MatchedCode | src/index.js:116-121 | a replacement's code re-registers `<app>.router(require('<path>'))`, accepts the same path and re-requires it in the accept callback (`const router = require('<path>')`), and mounts at the container |
| Visitor.Gate | src/index.js:114-123 | a handled file (an own `true` entry or a key inherited by every plain object) yields nothing and keeps the cache; otherwise the match passes through, and the cache gains `filename: true` exactly when there is a replacement |
| Visitor.ReplayFirstWins | src/index.js:114-123 | in a run of gated visits, visit `i` produces its match exactly when its file was not handled at the start and no earlier visit of the same file matched |
| Visitor.ReplayCache | src/index.js:114-119 | after a run, a file is handled exactly when it was handled before or one of its visits matched; an entry is added only for a matched file that is not an inherited key; no other entry changes |
| Visitor.FirstMatchWins | src/index.js:114-123 | for a run of call sites, site `i` is rewritten exactly when its file was not handled at the start, it matches, and no earlier site of its file matched |
| Visitor.AtMostOncePerFile | src/index.js:114-119 | two sites of the same file are never both rewritten in one run |
| Visitor.HandledFileUntouched | src/index.js:114 | no site of a file handled at the start of a run is rewritten |
| Visitor.PrototypeKeyNeverRewritten | src/index.js:114 | since the cache is the plain object `{}` of line 37, a site in a file named like an inherited object key (`constructor`, `toString`, `__proto__`, ...) is never rewritten |
| Visitor.RunAllCache | src/index.js:114-119 | the cache after a run of call sites marks exactly the files handled before plus the files with a matching site; entries are added only for files that are not inherited keys, and all other entries are left alone |
| Visitor.HmrPlugin.constructor | src/index.js:37 | a new plugin starts with an empty cache, holding no own entries |
| Visitor.HmrPlugin.VisitAll | src/index.js:112-124 | visiting a run of call sites one after another on one plugin returns RunAll's replacements and leaves RunAll's final cache, so first-match-wins, at-most-once-per-file and the final-cache lemmas hold for the plugin's visits; the cache keeps holding only `true` |
| Visitor.HmrPlugin.Visit | src/index.js:112-124 | a visit is one gated step: a handled file gives no replacement and an unchanged cache; a file named like an inherited object key never gets one; a replacement is returned exactly when the file is neither in the cache nor an inherited key and the site matches, and only then is `filename: true` added; the cache holds only `true` |

## Left out

- The Babel host is not modelled: traversal order, `path.scope`, `path.hub.file.opts` and `path.parentPath.replaceWithSourceString`. `Visit` returns the replacement instead of splicing it. A run's traversal order is an input to `RunAll`. Which enclosing statement the splice replaces is not modelled.
- Babel's scope chain is a single flat map. The source mixes `scope.hasBinding`, which looks through parent scopes, with `scope.bindings[...]`, which does not. That difference is not reproduced. Babel's `hasBinding` also answers true for builtin globals of the language (`Object`, `Array`, `Math`, ...) and for `undefined`, `arguments`, `NaN` and `Infinity`, which have no `bindings` entry; the source then reads `.path` of `undefined` and throws a TypeError (lines 47-48 and 91-92). So `app.router(undefined)` throws a TypeError in the source, where `Matcher.GetRouterPathAsWritten` gives the ReferenceError on `opts`, and, because line 63 asks `isDvaInstance` about the object before line 64 tests the property name, any `<builtin>.<m>(...)` call in a file not yet handled, such as `Object.keys(o)` or `Math.max(a, b)`, throws a TypeError at lines 47-48 where `Matcher.IsRouterCall` answers false.
- The container option is `None` or a string. A `null` or other non-string value is not separately modelled: only `undefined` takes the `#root` default at line 3, and any other value is interpolated as its string form (`null` gives `document.querySelector('null')`), which a caller expresses as `Some("null")`.
- Console output is not modelled: the info message on a match, the warning on an unresolved path, and the `quiet` option that silences both. The container option is the only option modelled.
- The generated code's runtime behaviour is not modelled: `module.hot`, React, ReactDOM, `redbox-react` and the try/catch render wrapper are only text here.
- Literals are string literals. Numeric, boolean, null, regular-expression and template literals, and the truthiness of their values, are not modelled.
- `Ast.Node` has no `computed` flag on member expressions. The source never reads it, so `app[router]` with an identifier `router` would be treated like `app.router`.
- No claim is made that a second transform run is a no-op. The generated block itself contains `<app>.router(require('<path>'))`, and only the in-run cache stops it from matching again.
- The unused `join` import is not modelled.
- Template.RouterCallSite: proves that `<app>.router(require('<path>'))` occurs in the block, not that it occurs exactly once. An app name or path that itself contains that text would add occurrences. The same holds for the other site lemmas.
- Visitor.MatchSpec: states `Match`'s contract as a lemma beside it rather than as its postcondition. This keeps the proofs about runs of visits small; the content is the same.

## Findings

| source | as written | input that shows it | evidently intended | confidence | as-written member | corrected member |
|---|---|---|---|---|---|---|
| src/index.js:107 | every fall-through of the resolver evaluates `opts.quiet`, but `opts` is bound only inside the visitor (line 112), so a ReferenceError is thrown and the build fails | `const app = dva(); app.router(routes);` with `routes` unbound | warn unless quiet, and leave the call unchanged | high; not executed | Matcher.GetRouterPathAsWritten, Matcher.UnresolvedPathThrows | Matcher.GetRouterPath |
| src/index.js:117 | a missing first argument is dereferenced: `args[0]` is `undefined` at line 83, and a bare `require()` has no `arguments[0]` at line 99, so a TypeError is thrown | `app.router()`; or `const r = require(); app.router(r);` | no rewrite of that call | medium; not executed | Matcher.GetRouterPathAsWritten, Matcher.MissingArgumentThrows | Visitor.NoArgumentNoRewrite, Matcher.GetRouterPath |
