/** The replacement source text the plugin generates for a matched
    `<app>.router(...)` call: a self-invoking block that re-registers the
    router from a fresh `require` and installs an `onHmr` hook. */
module Template {
  import opened Ast

  /** The mount selector used when no container option is given. */
  const DefaultContainer: string := "#root"

  /** The fixed pieces of the template, in order; the holes between them
      take the app name, router path, app name, container, router path and
      router path. The sites the properties below speak of are kept whole
      inside a piece or at the edge of one. */
  const LogMarker: string := "console.log('[HMR] inited with babel-plugin-dva-hmr');"
  const Header: string := "\n(function() {\n  // Generated by babel-plugin-dva-hmr\n  " + LogMarker + "\n  "
  const RouterCallOpen: string := ".router(require('"
  const RouterCallClose: string := "'))" + ";\n  "
  const UseBody: string :=
    ".use({\n    onHmr(render) {\n      if (module.hot) {\n        const renderNormally = render;\n"
    + "        const renderException = (error) => {\n          const RedBox = require('redbox-react');\n"
    + "          ReactDOM.render(React.createElement(RedBox, { error: error }), "
  const MountOpen: string := "document.querySelector('"
  const HookBody: string :=
    ");\n        };\n        const newRender = (router) => {\n          try {\n"
    + "            renderNormally(router);\n          } catch (error) {\n"
    + "            console.error('error', error);\n            renderException(error);\n"
    + "          }\n        };\n        "
  const AcceptOpen: string := "module.hot.accept('"
  const ReloadLead: string := "const router = "
  const AcceptRest: string := ", () => {\n          " + ReloadLead
  const AcceptClose: string := "'" + AcceptRest
  const ReloadOpen: string := "require('"
  const FooterRest: string := ";\n          newRender(router);\n        });\n      }\n    },  \n  });\n})()\n    "
  const Footer: string := "')" + FooterRest

  /** The container option, defaulting to `#root` when it is absent. */
  function ContainerOr(container: Option<string>): (c: string)
  {
    if container.None? then DefaultContainer else container.value
  }

  /** The generated block. Each input is interpolated verbatim: the app name
      twice, the router path three times, the container once, set among exactly 806
      characters of fixed text. */
  function GetHmrString(appName: string, routerPath: string, container: Option<string>): (r: string)
    ensures |r| == 806 + 2 * |appName| + 3 * |routerPath| + |ContainerOr(container)|
  {
    var c := ContainerOr(container);
    Header + (appName + (RouterCallOpen + (routerPath + (RouterCallClose + (appName + (UseBody
      + (MountOpen + (c + ("')" + (HookBody + (AcceptOpen + (routerPath + (AcceptClose
      + (ReloadOpen + (routerPath + Footer)))))))))))))))
  }

  /** `t` occurs in `s` starting at position `k`. */
  ghost predicate InfixAt(t: string, s: string, k: int) {
    0 <= k <= |s| - |t| && s[k..k + |t|] == t
  }

  /** `t` occurs somewhere in `s`. */
  ghost predicate IsInfix(t: string, s: string) {
    exists k :: InfixAt(t, s, k)
  }

  // Facts about strings and concatenation used by the lemmas below.

  lemma InfixOfConcat(x: string, t: string, y: string)
    ensures IsInfix(t, x + t + y)
  {
    assert InfixAt(t, x + t + y, |x|);
  }

  lemma InfixOfHead(x: string, y: string, z: string, w: string, rest: string)
    ensures IsInfix(x + y + z, x + (y + ((z + w) + rest)))
  {
    assert x + (y + ((z + w) + rest)) == [] + (x + y + z) + (w + rest);
    InfixOfConcat([], x + y + z, w + rest);
  }

  lemma InfixOfHead3(x: string, y: string, z: string, w: string)
    ensures IsInfix(x + y + z, x + (y + (z + w)))
  {
    assert x + (y + (z + w)) == [] + (x + y + z) + w;
    InfixOfConcat([], x + y + z, w);
  }

  lemma InfixOfHead4(a: string, b: string, c: string, d: string, e: string, rest: string)
    ensures IsInfix(a + b + c + d, a + (b + (c + ((d + e) + rest))))
  {
    assert a + (b + (c + ((d + e) + rest))) == [] + (a + b + c + d) + (e + rest);
    InfixOfConcat([], a + b + c + d, e + rest);
  }

  lemma InfixAcrossJoin(x: string, a: string, b: string, c: string, d: string, e: string, f: string)
    ensures IsInfix(b + c + d + e, (x + (a + b)) + (c + (d + (e + f))))
  {
    assert (x + (a + b)) + (c + (d + (e + f))) == (x + a) + (b + c + d + e) + f;
    InfixOfConcat(x + a, b + c + d + e, f);
  }

  lemma InfixLeft(t: string, x: string, y: string)
    requires IsInfix(t, x)
    ensures IsInfix(t, x + y)
  {
    var k :| InfixAt(t, x, k);
    assert (x + y)[k..k + |t|] == x[k..k + |t|];
    assert InfixAt(t, x + y, k);
  }

  lemma InfixRight(t: string, x: string, y: string)
    requires IsInfix(t, y)
    ensures IsInfix(t, x + y)
  {
    var k :| InfixAt(t, y, k);
    assert (x + y)[|x| + k..|x| + k + |t|] == y[k..k + |t|];
    assert InfixAt(t, x + y, |x| + k);
  }

  lemma CancelPrefix(x: string, y: string, x': string, y': string)
    requires x + y == x' + y' && |x| == |x'|
    ensures x == x' && y == y'
  {
    assert x == (x + y)[..|x|] && x' == (x' + y')[..|x'|];
    assert y == (x + y)[|x|..] && y' == (x' + y')[|x'|..];
  }

  lemma Regroup(v: string, w: string, x: string, y: string, z: string)
    ensures v + (w + (x + (y + z))) == v + w + x + y + z
  {
  }

  lemma CancelSuffix(x: string, y: string, x': string)
    requires x + y == x' + y
    ensures x == x'
  {
    assert |x| == |x'|;
    CancelPrefix(x, y, x', y);
  }

  /** The generated block starts by logging its marker. */
  lemma LogSite(appName: string, routerPath: string, container: Option<string>)
    ensures IsInfix(LogMarker, GetHmrString(appName, routerPath, container))
  {
    var c := ContainerOr(container);
    var rest := appName + (RouterCallOpen + (routerPath + (RouterCallClose + (appName + (UseBody
      + (MountOpen + (c + ("')" + (HookBody + (AcceptOpen + (routerPath + (AcceptClose
      + (ReloadOpen + (routerPath + Footer))))))))))))));
    InfixOfConcat("\n(function() {\n  // Generated by babel-plugin-dva-hmr\n  ", LogMarker, "\n  ");
    InfixLeft(LogMarker, Header, rest);
  }

  /** The generated block re-registers the router with a fresh `require`
      of the path: `<app>.router(require('<path>'))`. */
  lemma RouterCallSite(appName: string, routerPath: string, container: Option<string>)
    ensures IsInfix(appName + ".router(require('" + routerPath + "'))",
                    GetHmrString(appName, routerPath, container))
  {
    var c := ContainerOr(container);
    var rest := appName + (UseBody
      + (MountOpen + (c + ("')" + (HookBody + (AcceptOpen + (routerPath + (AcceptClose
      + (ReloadOpen + (routerPath + Footer))))))))));
    var site := appName + ".router(require('" + routerPath + "'))";
    InfixOfHead4(appName, RouterCallOpen, routerPath, "'))", ";\n  ", rest);
    InfixRight(site, Header, appName + (RouterCallOpen + (routerPath + (RouterCallClose + rest))));
  }

  /** The error view is mounted at the container selector, `#root` when the
      option is absent. */
  lemma MountSite(appName: string, routerPath: string, container: Option<string>)
    ensures IsInfix("document.querySelector('" + ContainerOr(container) + "')",
                    GetHmrString(appName, routerPath, container))
  {
    var c := ContainerOr(container);
    var hook := HookBody + (AcceptOpen + (routerPath + (AcceptClose + (ReloadOpen + (routerPath + Footer)))));
    var site := "document.querySelector('" + c + "')";
    InfixOfHead3(MountOpen, c, "')", hook);
    InfixRight(site, UseBody, MountOpen + (c + ("')" + hook)));
    InfixRight(site, appName, UseBody + (MountOpen + (c + ("')" + hook))));
    InfixRight(site, RouterCallClose, appName + (UseBody + (MountOpen + (c + ("')" + hook)))));
    InfixRight(site, routerPath, RouterCallClose + (appName + (UseBody + (MountOpen + (c + ("')" + hook))))));
    InfixRight(site, RouterCallOpen, routerPath + (RouterCallClose + (appName + (UseBody + (MountOpen + (c + ("')" + hook)))))));
    InfixRight(site, appName, RouterCallOpen + (routerPath + (RouterCallClose + (appName + (UseBody + (MountOpen + (c + ("')" + hook))))))));
    InfixRight(site, Header, appName + (RouterCallOpen + (routerPath + (RouterCallClose + (appName + (UseBody + (MountOpen + (c + ("')" + hook)))))))));
  }

  /** With no container option the error view mounts at `#root`. */
  lemma DefaultMount(appName: string, routerPath: string)
    ensures IsInfix("document.querySelector('#root')", GetHmrString(appName, routerPath, None))
  {
    MountSite(appName, routerPath, None);
    assert "document.querySelector('" + ContainerOr(None) + "')" == "document.querySelector('#root')";
  }

  /** What occurs in the hot-reload hook occurs in the generated block. */
  lemma {:induction false} InfixOfHook(t: string, appName: string, routerPath: string, container: Option<string>)
    requires IsInfix(t, HookBody + (AcceptOpen + (routerPath + (AcceptClose + (ReloadOpen + (routerPath + Footer))))))
    ensures IsInfix(t, GetHmrString(appName, routerPath, container))
  {
    var hook := HookBody + (AcceptOpen + (routerPath + (AcceptClose + (ReloadOpen + (routerPath + Footer)))));
    var c := ContainerOr(container);
    InfixRight(t, "')", hook);
    InfixRight(t, c, "')" + hook);
    InfixRight(t, MountOpen, c + ("')" + hook));
    InfixRight(t, UseBody, MountOpen + (c + ("')" + hook)));
    InfixRight(t, appName, UseBody + (MountOpen + (c + ("')" + hook))));
    InfixRight(t, RouterCallClose, appName + (UseBody + (MountOpen + (c + ("')" + hook)))));
    InfixRight(t, routerPath, RouterCallClose + (appName + (UseBody + (MountOpen + (c + ("')" + hook))))));
    InfixRight(t, RouterCallOpen, routerPath + (RouterCallClose + (appName + (UseBody + (MountOpen + (c + ("')" + hook)))))));
    InfixRight(t, appName, RouterCallOpen + (routerPath + (RouterCallClose + (appName + (UseBody + (MountOpen + (c + ("')" + hook))))))));
    InfixRight(t, Header, appName + (RouterCallOpen + (routerPath + (RouterCallClose + (appName + (UseBody + (MountOpen + (c + ("')" + hook)))))))));
  }

  /** Inside the hook, changes to the router path are accepted. */
  lemma AcceptSite(appName: string, routerPath: string, container: Option<string>)
    ensures IsInfix("module.hot.accept('" + routerPath + "'", GetHmrString(appName, routerPath, container))
  {
    var reload := ReloadOpen + (routerPath + Footer);
    var site := "module.hot.accept('" + routerPath + "'";
    InfixOfHead(AcceptOpen, routerPath, "'", AcceptRest, reload);
    InfixRight(site, HookBody, AcceptOpen + (routerPath + (AcceptClose + reload)));
    InfixOfHook(site, appName, routerPath, container);
  }

  /** On a change, the accept callback inside the hook re-requires the same
      router path: `const router = require('<path>')`. */
  lemma ReloadSite(appName: string, routerPath: string, container: Option<string>)
    ensures IsInfix("const router = " + "require('" + routerPath + "')", GetHmrString(appName, routerPath, container))
  {
    var site := ReloadLead + ReloadOpen + routerPath + "')";
    var tail := AcceptClose + (ReloadOpen + (routerPath + Footer));
    InfixAcrossJoin("'", ", () => {\n          ", ReloadLead, ReloadOpen, routerPath, "')", FooterRest);
    InfixRight(site, routerPath, tail);
    InfixRight(site, AcceptOpen, routerPath + tail);
    InfixRight(site, HookBody, AcceptOpen + (routerPath + tail));
    InfixOfHook(site, appName, routerPath, container);
  }

  /** Given the lengths of the app name and the router path, the generated
      block determines all three inputs: nothing is lost or altered when
      they are substituted. */
  lemma {:induction false} HmrStringInjective(a: string, p: string, c: Option<string>,
                                              a': string, p': string, c': Option<string>)
    requires GetHmrString(a, p, c) == GetHmrString(a', p', c')
    requires |a| == |a'| && |p| == |p'|
    ensures a == a' && p == p' && ContainerOr(c) == ContainerOr(c')
  {
    var k, k' := ContainerOr(c), ContainerOr(c');
    var tail := "')" + (HookBody + (AcceptOpen + (p + (AcceptClose + (ReloadOpen + (p + Footer))))));
    var tail' := "')" + (HookBody + (AcceptOpen + (p' + (AcceptClose + (ReloadOpen + (p' + Footer))))));
    var r2 := RouterCallClose + (a + (UseBody + (MountOpen + (k + tail))));
    var r2' := RouterCallClose + (a' + (UseBody + (MountOpen + (k' + tail'))));
    var r1 := a + (RouterCallOpen + (p + r2));
    var r1' := a' + (RouterCallOpen + (p' + r2'));
    CancelPrefix(Header, r1, Header, r1');
    CancelPrefix(a, RouterCallOpen + (p + r2), a', RouterCallOpen + (p' + r2'));
    CancelPrefix(RouterCallOpen, p + r2, RouterCallOpen, p' + r2');
    CancelPrefix(p, r2, p', r2');
    Regroup(RouterCallClose, a, UseBody, MountOpen, k + tail);
    Regroup(RouterCallClose, a, UseBody, MountOpen, k' + tail');
    CancelPrefix(RouterCallClose + a + UseBody + MountOpen, k + tail,
                 RouterCallClose + a + UseBody + MountOpen, k' + tail');
    CancelSuffix(k, tail, k');
  }
}
