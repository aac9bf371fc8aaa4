/** The plugin's pattern matcher: recognising `dva()` and `require()` calls,
    finding the declarator of a name, deciding whether a callee is
    `<app>.router` on a dva instance, and resolving the router module path. */
module Matcher {
  import opened Ast

  const DvaName: string := "dva"
  const RequireName: string := "require"
  const RouterName: string := "router"

  /** Is `n` a call of the bare identifier `dva`? */
  function IsDvaCallExpression(n: Node): (r: bool)
    ensures r <==> exists args :: n == CallExpr(Identifier(DvaName), args)
  {
    assert n.CallExpr? ==> n == CallExpr(n.callee, n.args);
    n.CallExpr? && n.callee.Identifier? && n.callee.name == DvaName
  }

  /** Is `n` a call of the bare identifier `require`? */
  function IsRequire(n: Node): (r: bool)
    ensures r <==> exists args :: n == CallExpr(Identifier(RequireName), args)
  {
    assert n.CallExpr? ==> n == CallExpr(n.callee, n.args);
    n.CallExpr? && n.callee.Identifier? && n.callee.name == RequireName
  }

  /** Does declarator `d` bind the plain identifier `name`? */
  predicate Declares(d: Declarator, name: string) {
    d.id == Identifier(name)
  }

  /** `i` is the position of the first declarator in `ds` that binds `name`. */
  ghost predicate FirstDeclaring(ds: seq<Declarator>, name: string, i: int) {
    && 0 <= i < |ds|
    && Declares(ds[i], name)
    && forall j :: 0 <= j < i ==> !Declares(ds[j], name)
  }

  /** The first declarator of `ds` that binds `name`, if any. */
  function FirstDeclarator(ds: seq<Declarator>, name: string): (r: Option<Declarator>)
  {
    if ds == [] then None
    else if Declares(ds[0], name) then Some(ds[0])
    else FirstDeclarator(ds[1..], name)
  }

  /** FirstDeclarator finds exactly the first binding declarator, and finds
      nothing only when no declarator binds the name. */
  lemma {:induction false} FirstDeclaratorSpec(ds: seq<Declarator>, name: string)
    ensures FirstDeclarator(ds, name).None? <==> forall i :: 0 <= i < |ds| ==> !Declares(ds[i], name)
    ensures FirstDeclarator(ds, name).Some? ==>
              exists i :: FirstDeclaring(ds, name, i) && FirstDeclarator(ds, name).value == ds[i]
    ensures forall i :: FirstDeclaring(ds, name, i) ==> FirstDeclarator(ds, name) == Some(ds[i])
  {
    if ds == [] {
    } else if Declares(ds[0], name) {
      assert FirstDeclaring(ds, name, 0);
    } else {
      var tail := ds[1..];
      FirstDeclaratorSpec(tail, name);
      if FirstDeclarator(tail, name).Some? {
        var k :| FirstDeclaring(tail, name, k) && FirstDeclarator(tail, name).value == tail[k];
        assert FirstDeclaring(ds, name, k + 1);
      } else {
        forall i | 0 <= i < |ds| ensures !Declares(ds[i], name) {
          if i > 0 { assert ds[i] == tail[i - 1]; }
        }
      }
      forall i | FirstDeclaring(ds, name, i) ensures FirstDeclarator(ds, name) == Some(ds[i]) {
        assert FirstDeclaring(tail, name, i - 1);
      }
    }
  }

  /** The source's loop over the declarations, returning at the first one
      whose id is the identifier `name`. */
  method FindDeclarator(ds: seq<Declarator>, name: string) returns (r: Option<Declarator>)
    ensures r == FirstDeclarator(ds, name)
    ensures r.None? <==> forall i :: 0 <= i < |ds| ==> !Declares(ds[i], name)
  {
    FirstDeclaratorSpec(ds, name);
    var i := 0;
    while i < |ds|
      invariant 0 <= i <= |ds|
      invariant FirstDeclarator(ds[i..], name) == FirstDeclarator(ds, name)
    {
      if Declares(ds[i], name) {
        return Some(ds[i]);
      }
      assert ds[i..][1..] == ds[i + 1..];
      i := i + 1;
    }
    return None;
  }

  /** Is `name` bound, by a variable declaration, to the result of `dva(...)`? */
  function IsDvaInstance(name: string, scope: Scope): (r: bool)
    ensures r <==>
      && name in scope
      && scope[name].VarDecl?
      && exists i :: FirstDeclaring(scope[name].declarations, name, i)
                  && InitSatisfies(scope[name].declarations[i], IsDvaCallExpression)
  {
    if name in scope && scope[name].VarDecl? then
      var ds := scope[name].declarations;
      FirstDeclaratorSpec(ds, name);
      var d := FirstDeclarator(ds, name);
      d.Some? && d.value.init.Some? && IsDvaCallExpression(d.value.init.value)
    else
      false
  }

  /** The declarator has an initialiser and it satisfies `p`. */
  predicate InitSatisfies(d: Declarator, p: Node -> bool) {
    d.init.Some? && p(d.init.value)
  }

  /** Is `n` the member expression `<app>.router` for a dva instance `app`? */
  function IsRouterCall(n: Node, scope: Scope): (r: bool)
    ensures !n.MemberExpr? ==> !r
    ensures r <==> exists app :: n == MemberExpr(Identifier(app), Identifier(RouterName))
                                && IsDvaInstance(app, scope)
  {
    if !n.MemberExpr? then false
    else
      assert n == MemberExpr(n.obj, n.property);
      n.obj.Identifier? && IsDvaInstance(n.obj.name, scope)
      && n.property.Identifier? && n.property.name == RouterName
  }

  // The three argument shapes the resolver accepts, each naming path `p`.

  /** A call whose first argument is the string literal `p`. */
  predicate LiteralCallArg(n: Node, p: string) {
    n.CallExpr? && |n.args| > 0 && n.args[0] == Literal(p)
  }

  /** An identifier bound by `import ... from 'p'`. */
  predicate ImportedFrom(n: Node, scope: Scope, p: string) {
    n.Identifier? && n.name in scope && scope[n.name] == ImportDecl(p)
  }

  /** `require('p')`. */
  predicate RequireOf(n: Node, p: string) {
    IsRequire(n) && |n.args| > 0 && n.args[0] == Literal(p)
  }

  /** An identifier whose first declarator is initialised with `require('p')`. */
  ghost predicate RequiredFrom(n: Node, scope: Scope, p: string) {
    && n.Identifier?
    && n.name in scope
    && scope[n.name].VarDecl?
    && exists i :: FirstDeclaring(scope[n.name].declarations, n.name, i)
                && InitSatisfies(scope[n.name].declarations[i], m => RequireOf(m, p))
  }

  /** The router module path passed as argument `n`, or None when the
      argument is none of the three recognised shapes. */
  function GetRouterPath(n: Node, scope: Scope): (r: Option<string>)
    ensures r.Some? ==>
      LiteralCallArg(n, r.value) || ImportedFrom(n, scope, r.value) || RequiredFrom(n, scope, r.value)
    ensures forall p :: LiteralCallArg(n, p) ==> r == Some(p)
    ensures forall p :: ImportedFrom(n, scope, p) ==> r == Some(p)
    ensures forall p :: RequiredFrom(n, scope, p) ==> r == Some(p)
  {
    match n
    case CallExpr(_, args) =>
      if |args| > 0 && args[0].Literal? then Some(args[0].value) else None
    case Identifier(name) =>
      if name in scope then
        match scope[name]
        case ImportDecl(source) => Some(source)
        case VarDecl(ds) =>
          FirstDeclaratorSpec(ds, name);
          var d := FirstDeclarator(ds, name);
          if d.Some? && d.value.init.Some? && IsRequire(d.value.init.value)
             && |d.value.init.value.args| > 0 && d.value.init.value.args[0].Literal?
          then Some(d.value.init.value.args[0].value)
          else None
        case OtherParent => None
      else None
    case _ => None
  }

  /** Argument shapes that never resolve: unbound identifiers, identifiers
      bound by anything but an import or a variable declaration, and node
      kinds other than calls and identifiers. */
  lemma UnresolvableShapes(n: Node, scope: Scope)
    ensures n.Identifier? && n.name !in scope ==> GetRouterPath(n, scope).None?
    ensures n.Identifier? && n.name in scope && scope[n.name].OtherParent? ==> GetRouterPath(n, scope).None?
    ensures !n.CallExpr? && !n.Identifier? ==> GetRouterPath(n, scope).None?
  {
  }

  /** What evaluating the source's resolver can end in: a returned value
      (`undefined` is None) or a thrown JavaScript error. */
  datatype JsError = ReferenceError(name: string) | TypeError
  datatype Completion = Returned(result: Option<string>) | Threw(error: JsError)

  /** The resolver exactly as the source's text evaluates: `arg` is None
      when the router call has no argument (`args[0]` is `undefined`).
      Every fall-through reaches the warning statement, which reads `opts`,
      a name not in scope there; a missing argument is read with `.type`
      or `.value` and raises a TypeError. */
  function GetRouterPathAsWritten(arg: Option<Node>, scope: Scope): (r: Completion)
  {
    if arg.None? then Threw(TypeError)
    else
      var n := arg.value;
      var warn := Threw(ReferenceError("opts"));
      match n
      case CallExpr(_, args) =>
        if |args| > 0 && args[0].Literal? then Returned(Some(args[0].value)) else warn
      case Identifier(name) =>
        if name in scope then
          match scope[name]
          case ImportDecl(source) => Returned(Some(source))
          case VarDecl(ds) =>
            var d := FirstDeclarator(ds, name);
            if d.Some? && d.value.init.Some? && IsRequire(d.value.init.value) then
              var call := d.value.init.value;
              if |call.args| == 0 then Threw(TypeError)
              else if call.args[0].Literal? then Returned(Some(call.args[0].value))
              else Returned(None)
            else warn
          case OtherParent => warn
        else warn
      case _ => warn
  }

  /** Whenever the source's resolver returns normally it returns what
      GetRouterPath returns, and every path GetRouterPath resolves the
      source resolves too; the two differ only where the source throws. */
  lemma AsWrittenAgreesUnlessThrown(n: Node, scope: Scope)
    ensures GetRouterPathAsWritten(Some(n), scope).Returned? ==>
              GetRouterPathAsWritten(Some(n), scope).result == GetRouterPath(n, scope)
    ensures GetRouterPath(n, scope).Some? ==>
              GetRouterPathAsWritten(Some(n), scope) == Returned(GetRouterPath(n, scope))
  {
  }

  /** `const app = dva(); app.router(routes);` with `routes` unbound: the
      source throws instead of warning and leaving the call alone. */
  lemma UnresolvedPathThrows()
    ensures GetRouterPath(Identifier("routes"), map[]) == None
    ensures GetRouterPathAsWritten(Some(Identifier("routes")), map[]) == Threw(ReferenceError("opts"))
  {
  }

  /** `const r = require(x); app.router(r);` with `x` not a literal: the
      source reads `.value` of an identifier, gets `undefined`, and returns
      it without reaching the warning. */
  lemma NonLiteralRequireReturnsUndefined()
    ensures var scope := map["r" := VarDecl([Declarator(Identifier("r"), Some(CallExpr(Identifier(RequireName), [Identifier("x")])))])];
            GetRouterPath(Identifier("r"), scope) == None
            && GetRouterPathAsWritten(Some(Identifier("r")), scope) == Returned(None)
  {
  }

  /** `app.router()` and `const r = require(); app.router(r);`: a missing
      argument makes the source throw a TypeError. */
  lemma MissingArgumentThrows()
    ensures GetRouterPathAsWritten(None, map[]) == Threw(TypeError)
    ensures var scope := map["r" := VarDecl([Declarator(Identifier("r"), Some(CallExpr(Identifier(RequireName), [])))])];
            GetRouterPath(Identifier("r"), scope) == None
            && GetRouterPathAsWritten(Some(Identifier("r")), scope) == Threw(TypeError)
  {
  }
}
