/** Evaluating a context against a route table, shared by the two `dist` routers: the base
    path, the domain test, `RouteHandler.matches`, the scan for the first matching handler,
    and the recording of a history entry. */
module Matching {
  import opened Text
  import opened Navigation
  import opened Pattern
  import opened Chain
  import opened Routes

  // ---------------------------------------------------------------------------
  // Base path

  /** The router's base path: none, `` and `/` all mean the empty base path. */
  function NormalBase(option: Option<string>): (base: string)
    ensures base == "" <==> option.None? || option.value == "" || option.value == "/"
    ensures base != "" ==> option == Some(base)
  {
    if option.None? || option.value == "/" then "" else option.value
  }

  /** The base path a handler reads off the context; the template literal of a context that no
      router has evaluated spells the missing value out. */
  function BaseOf(basePath: Option<string>): string
  {
    if basePath.Some? then basePath.value else "undefined"
  }

  /** `path.replace(new RegExp('^' + base), '')`, for a base path without RegExp syntax. */
  function StripBase(path: string, base: string): (r: string)
    ensures StartsWith(path, base) ==> base + r == path
    ensures !StartsWith(path, base) ==> r == path
  {
    if StartsWith(path, base) then path[|base|..] else path
  }

  // ---------------------------------------------------------------------------
  // Handlers and the route table

  /** What `RouteHandler.matches` binds: a RegExp handler tests the whole path and binds
      nothing; a path handler matches the path with the base path removed. */
  function HandlerMatch(h: RouteHandler, path: string, base: string, host: Host): Option<Params>
  {
    match h
    case RegexHandler(re, _) => if host.test(re, path) then Some(map[]) else None
    case PathHandler(_, tp, _) => PathMatch(tp, StripBase(path, base))
  }

  /** A mounted path handler matches a path under its base exactly as it matches the rest of
      the path with no base; a RegExp handler ignores the base path. */
  lemma MountedMatch(h: RouteHandler, base: string, p: string, host: Host)
    ensures h.PathHandler? ==> HandlerMatch(h, base + p, base, host) == HandlerMatch(h, p, "", host)
    ensures h.RegexHandler? ==> HandlerMatch(h, base + p, base, host) == HandlerMatch(h, base + p, "", host)
  {
    assert StartsWith(base + p, base) && (base + p)[|base|..] == p;
    assert StartsWith(p, "") && p[0..] == p;
  }

  /** A path outside the base path is matched as it stands. */
  lemma OutsideBase(h: RouteHandler, base: string, path: string, host: Host)
    requires !StartsWith(path, base)
    ensures HandlerMatch(h, path, base, host) == HandlerMatch(h, path, "", host)
  {
    assert StartsWith(path, "") && path[0..] == path;
  }

  /** What each handler of the table binds for a path, in registration order. */
  function Attempts(registrar: seq<RouteHandler>, path: string, base: string, host: Host): (rs: seq<Option<Params>>)
    ensures |rs| == |registrar|
  {
    seq(|registrar|, k requires 0 <= k < |registrar| => HandlerMatch(registrar[k], path, base, host))
  }

  /** The answer of handler `k`. */
  lemma AttemptAt(registrar: seq<RouteHandler>, path: string, base: string, host: Host, k: nat)
    requires k < |registrar|
    ensures Attempts(registrar, path, base, host)[k] == HandlerMatch(registrar[k], path, base, host)
  {
  }

  /** The loop of `evaluate` over the handlers' answers: the first answer from position `i` on
      that is a match, with its parameters. */
  function FirstSome(rs: seq<Option<Params>>, i: nat): (r: Option<(nat, Params)>)
    requires i <= |rs|
    ensures r.Some? ==> i <= r.value.0 < |rs| && rs[r.value.0] == Some(r.value.1)
    ensures r.Some? ==> forall j :: i <= j < r.value.0 ==> rs[j].None?
    ensures r.None? <==> forall j :: i <= j < |rs| ==> rs[j].None?
    decreases |rs| - i
  {
    if i == |rs| then None
    else if rs[i].Some? then Some((i, rs[i].value))
    else FirstSome(rs, i + 1)
  }

  /** The first handler that matches a path, and what it binds. */
  function FirstMatch(registrar: seq<RouteHandler>, path: string, base: string, host: Host): Option<(nat, Params)>
  {
    FirstSome(Attempts(registrar, path, base, host), 0)
  }

  /** The answer found is the one whose earlier neighbours all fail: a match after only
      failures is the one the scan finds. */
  lemma {:induction false} FirstSomeIs(rs: seq<Option<Params>>, i: nat, k: nat)
    requires i <= k < |rs| && rs[k].Some?
    requires forall j :: i <= j < k ==> rs[j].None?
    ensures FirstSome(rs, i) == Some((k, rs[k].value))
    decreases k - i
  {
    if i < k {
      FirstSomeIs(rs, i + 1, k);
    }
  }

  /** A match found at position `k` of a table, seen from `n` positions earlier. */
  function Shift(m: Option<(nat, Params)>, n: nat): Option<(nat, Params)>
  {
    if m.Some? then Some((n + m.value.0, m.value.1)) else None
  }

  /** The scan over two tables in a row: the first table's match if it has one, else the
      second's, at its shifted position. */
  lemma FirstSomeConcat(rs: seq<Option<Params>>, more: seq<Option<Params>>)
    ensures FirstSome(rs, 0).Some? ==> FirstSome(rs + more, 0) == FirstSome(rs, 0)
    ensures FirstSome(rs, 0).None? ==> FirstSome(rs + more, 0) == Shift(FirstSome(more, 0), |rs|)
  {
    var all := rs + more;
    var r := FirstSome(rs, 0);
    if r.Some? {
      FirstSomeIs(all, 0, r.value.0);
    } else {
      var m := FirstSome(more, 0);
      if m.Some? {
        assert forall j :: 0 <= j < |rs| + m.value.0 ==>
          all[j] == if j < |rs| then rs[j] else more[j - |rs|];
        FirstSomeIs(all, 0, |rs| + m.value.0);
      } else {
        assert forall j :: 0 <= j < |all| ==>
          all[j] == if j < |rs| then rs[j] else more[j - |rs|];
      }
    }
  }

  /** Registering more handlers never changes which handler matches first, unless none did:
      then the first match among the new handlers is found, at its shifted position. */
  lemma EarlierWins(registrar: seq<RouteHandler>, more: seq<RouteHandler>, path: string, base: string, host: Host)
    ensures FirstMatch(registrar, path, base, host).Some? ==>
      FirstMatch(registrar + more, path, base, host) == FirstMatch(registrar, path, base, host)
    ensures FirstMatch(registrar, path, base, host).None? ==>
      FirstMatch(registrar + more, path, base, host) == Shift(FirstMatch(more, path, base, host), |registrar|)
  {
    AttemptsConcat(registrar, more, path, base, host);
    FirstSomeConcat(Attempts(registrar, path, base, host), Attempts(more, path, base, host));
  }

  lemma AttemptsConcat(registrar: seq<RouteHandler>, more: seq<RouteHandler>, path: string, base: string, host: Host)
    ensures Attempts(registrar + more, path, base, host) == Attempts(registrar, path, base, host) + Attempts(more, path, base, host)
  {
    var all := registrar + more;
    var rs, ms := Attempts(registrar, path, base, host), Attempts(more, path, base, host);
    forall k | 0 <= k < |all|
      ensures Attempts(all, path, base, host)[k] == (rs + ms)[k]
    {
      AttemptAt(all, path, base, host, k);
      if k < |registrar| {
        assert all[k] == registrar[k];
        AttemptAt(registrar, path, base, host, k);
      } else {
        assert all[k] == more[k - |registrar|];
        AttemptAt(more, path, base, host, k - |registrar|);
      }
    }
  }

  /** A table of path handlers mounted under a base path answers a path under it as the same
      table without a base answers the rest of the path. */
  lemma MountedFirstMatch(registrar: seq<RouteHandler>, base: string, p: string, host: Host)
    requires PathHandlersOnly(registrar)
    ensures FirstMatch(registrar, base + p, base, host) == FirstMatch(registrar, p, "", host)
  {
    forall k | 0 <= k < |registrar|
      ensures HandlerMatch(registrar[k], base + p, base, host) == HandlerMatch(registrar[k], p, "", host)
    {
      MountedMatch(registrar[k], base, p, host);
    }
    forall k | 0 <= k < |registrar|
      ensures Attempts(registrar, base + p, base, host)[k] == Attempts(registrar, p, "", host)[k]
    {
      AttemptAt(registrar, base + p, base, host, k);
      AttemptAt(registrar, p, "", host, k);
    }
    assert Attempts(registrar, base + p, base, host) == Attempts(registrar, p, "", host);
  }

  // ---------------------------------------------------------------------------
  // Domains and history

  /** The guard of `evaluate`: a context without a domain (or with an empty one) is the
      router's; one with a domain is only if the router recorded the same domain. */
  predicate DomainAccepted(routerDomain: Option<string>, domain: Option<string>)
  {
    domain.None? || domain.value == "" || routerDomain == domain
  }

  /** A router that recorded no domain accepts exactly the contexts without one. */
  lemma UnregisteredRouter(domain: Option<string>)
    ensures DomainAccepted(None, domain) <==> domain.None? || domain.value == ""
  {
  }

  /** `_pushState` / `pushState`: a context not yet recorded gets one history entry (replacing
      the current one when `replace`) and is marked recorded; a recorded one gets none. */
  function Recording(s: ContextState, replace: bool): (ContextState, seq<Effect>)
  {
    (s.(recorded := true), if s.recorded then [] else [Record(s.path, replace)])
  }

  /** Recording is idempotent: a context is recorded at most once. */
  lemma RecordOnce(s: ContextState, replace: bool, again: bool)
    ensures Recording(s, replace).0.recorded
    ensures Recording(Recording(s, replace).0, again) == (Recording(s, replace).0, [])
    ensures |Recording(s, replace).1| <= 1
    ensures Recording(s, replace).1 == [] <==> s.recorded
  {
  }

  /** What an evaluation leaves: the context's new state, what was done to the window, in
      order, and the redirects left pending by the asynchronous actions that ran. */
  datatype Evaluated = Evaluated(state: ContextState, effects: seq<Effect>, pending: seq<Deferred>)

  // ---------------------------------------------------------------------------
  // The steps of `evaluate` on a context object

  /** `RouteHandler.matches`: on a match the context's parameters become the bound ones;
      otherwise the context is left as it was. */
  method Matches(h: RouteHandler, ctx: Context, base: string, host: Host) returns (matched: bool)
    modifies ctx`params
    ensures var r := HandlerMatch(h, ctx.path, base, host);
      && (matched <==> r.Some?)
      && ctx.params == if matched then Some(r.value) else old(ctx.params)
  {
    var r: Option<Params>;
    if h.RegexHandler? {
      r := if host.test(h.regex, ctx.path) then Some(map[]) else None;
    } else {
      r := MatchPath(h.tokenized, StripBase(ctx.path, base));
    }
    matched := r.Some?;
    if matched {
      ctx.params := r;
    }
  }

  /** `_pushState` / `pushState` on the context object; the history entry is returned. */
  method PushState(ctx: Context, replace: bool) returns (effects: seq<Effect>)
    modifies ctx`isRecordedHistory
    ensures (ctx.State(), effects) == Recording(old(ctx.State()), replace)
  {
    effects := [];
    if !ctx.isRecordedHistory {
      ctx.isRecordedHistory := true;
      effects := [Record(ctx.path, replace)];
    }
  }

  // ---------------------------------------------------------------------------
  // Registered routes, matched

  /** With no base path, a path handler matches as its compiled pattern does. */
  lemma NoBaseMatch(h: RouteHandler, path: string, host: Host)
    requires h.PathHandler?
    ensures HandlerMatch(h, path, "", host) == PathMatch(h.tokenized, path)
  {
    assert StartsWith(path, "") && path[0..] == path;
  }

  /** The handler the scan finds: one that matches after only failures. */
  lemma FoundAt(registrar: seq<RouteHandler>, path: string, host: Host, k: nat)
    requires k < |registrar| && HandlerMatch(registrar[k], path, "", host).Some?
    requires forall j :: 0 <= j < k ==> HandlerMatch(registrar[j], path, "", host).None?
    ensures FirstMatch(registrar, path, "", host) == Some((k, HandlerMatch(registrar[k], path, "", host).value))
  {
    var rs := Attempts(registrar, path, "", host);
    forall j | 0 <= j <= k
      ensures rs[j] == HandlerMatch(registrar[j], path, "", host)
    {
      AttemptAt(registrar, path, "", host, j);
    }
    FirstSomeIs(rs, 0, k);
  }

  /** In a two-handler table, a first handler that matches is the one found. */
  lemma FirstOfTwo(h0: RouteHandler, h1: RouteHandler, path: string, host: Host)
    requires HandlerMatch(h0, path, "", host).Some?
    ensures FirstMatch([h0, h1], path, "", host) == Some((0, HandlerMatch(h0, path, "", host).value))
  {
    FoundAt([h0, h1], path, host, 0);
  }

  /** In a two-handler table, the second handler is found when only the first fails. */
  lemma SecondOfTwo(h0: RouteHandler, h1: RouteHandler, path: string, host: Host)
    requires HandlerMatch(h0, path, "", host).None? && HandlerMatch(h1, path, "", host).Some?
    ensures FirstMatch([h0, h1], path, "", host) == Some((1, HandlerMatch(h1, path, "", host).value))
  {
    FoundAt([h0, h1], path, host, 1);
  }

  /** In a three-handler table, the second handler is found when only the first fails. */
  lemma SecondOfThree(h0: RouteHandler, h1: RouteHandler, h2: RouteHandler, path: string, host: Host)
    requires HandlerMatch(h0, path, "", host).None? && HandlerMatch(h1, path, "", host).Some?
    ensures FirstMatch([h0, h1, h2], path, "", host) == Some((1, HandlerMatch(h1, path, "", host).value))
  {
    var regs := [h0, h1, h2];
    assert forall j :: 0 <= j < 1 ==> HandlerMatch(regs[j], path, "", host).None? by {
      assert regs[0] == h0;
    }
    FoundAt(regs, path, host, 1);
  }

  /** In a three-handler table, the third handler is found when the first two fail. */
  lemma ThirdOfThree(h0: RouteHandler, h1: RouteHandler, h2: RouteHandler, path: string, host: Host)
    requires HandlerMatch(h0, path, "", host).None? && HandlerMatch(h1, path, "", host).None?
    requires HandlerMatch(h2, path, "", host).Some?
    ensures FirstMatch([h0, h1, h2], path, "", host) == Some((2, HandlerMatch(h2, path, "", host).value))
  {
    var regs := [h0, h1, h2];
    assert forall j :: 0 <= j < 2 ==> HandlerMatch(regs[j], path, "", host).None? by {
      assert regs[0] == h0 && regs[1] == h1;
    }
    FoundAt(regs, path, host, 2);
  }

  /** The handler of a one-section literal route `/w`: matches `/w` and `/w/`, binding nothing,
      and rejects any two- or three-segment path. */
  lemma LiteralRouteHandler(w: string, actions: seq<Action>, d: Dialect, host: Host, str: string)
    requires IsWord(w)
    ensures var h := NewHandler("/" + w, actions, d);
      && HandlerMatch(h, "/" + w, "", host) == Some(map[])
      && HandlerMatch(h, "/" + w + "/", "", host) == Some(map[])
      && (|Parts(str)| != 1 ==> HandlerMatch(h, str, "", host).None?)
  {
    var p := "/" + w;
    WordHasNoSeparator(w);
    PlainTokens(p, actions, d);
    assert p[1..] == w;
    SplitNone(w, '/');
    assert Sections(p) == [w];
    WordIsLiteral(w, d);
    LiteralSelfMatch(p, d);
    var h := NewHandler(p, actions, d);
    NoBaseMatch(h, p, host);
    NoBaseMatch(h, p + "/", host);
    NoBaseMatch(h, str, host);
    if |Parts(str)| != 1 {
      ArityRejects(p, str, d);
    }
  }

  /** The handler of a two-section route `/w/:name`: matches `/w/seg`, binding `name` to `seg`,
      and rejects any path that is not two segments. */
  lemma ParamRouteHandler(w: string, name: string, seg: string, actions: seq<Action>, d: Dialect, host: Host, str: string)
    requires IsWord(w) && IsWord(name) && |seg| > 0 && '/' !in seg
    ensures HandlerMatch(NewHandler("/" + w + "/" + (":" + name), actions, d), "/" + w + "/" + seg, "", host) == Some(map[name := seg])
    ensures |Parts(str)| != 2 ==> HandlerMatch(NewHandler("/" + w + "/" + (":" + name), actions, d), str, "", host).None?
  {
    ParamRouteMatches(w, name, seg, actions, d, host);
    if |Parts(str)| != 2 {
      ParamRouteArity(w, name, actions, d, host, str);
    }
  }

  lemma ParamRouteMatches(w: string, name: string, seg: string, actions: seq<Action>, d: Dialect, host: Host)
    requires IsWord(w) && IsWord(name) && |seg| > 0 && '/' !in seg
    ensures HandlerMatch(NewHandler("/" + w + "/" + (":" + name), actions, d), "/" + w + "/" + seg, "", host) == Some(map[name := seg])
  {
    var p := "/" + w + "/" + (":" + name);
    WordHasNoSeparator(w);
    WordHasNoSeparator(name);
    ParamRouteText(w, name);
    PlainTokens(p, actions, d);
    NoBaseMatch(NewHandler(p, actions, d), "/" + w + "/" + seg, host);
    LiteralParam(w, name, seg, d);
  }

  lemma ParamRouteArity(w: string, name: string, actions: seq<Action>, d: Dialect, host: Host, str: string)
    requires IsWord(w) && IsWord(name) && |Parts(str)| != 2
    ensures HandlerMatch(NewHandler("/" + w + "/" + (":" + name), actions, d), str, "", host).None?
  {
    var p := "/" + w + "/" + (":" + name);
    WordHasNoSeparator(w);
    WordHasNoSeparator(name);
    ParamRouteText(w, name);
    assert NewHandler(p, actions, d).tokenized == Tokenize(p, d) by {
      PlainTokens(p, actions, d);
    }
    assert PathMatch(Tokenize(p, d), str).None? by {
      SectionsOfTwo(w, ":" + name);
      ArityRejects(p, str, d);
    }
    NoBaseMatch(NewHandler(p, actions, d), str, host);
  }

  /** The spelling of `/w/:name`. */
  lemma ParamRouteText(w: string, name: string)
    requires '$' !in w && '$' !in name && '/' !in name && '*' !in name
    ensures var p := "/" + w + "/" + (":" + name);
      && '$' !in p && |p| > 0 && p[0] == '/' && p[|p| - 1] != '/' && p[|p| - 1] != '*'
  {
  }

  /** The handler of the route `/w/$:n/:r`: matches `/w/x/seg`, binding `n` to `x` and `r` to
      `seg`. */
  lemma DerivedRouteHandler(w: string, n: string, r: string, x: string, seg: string, actions: seq<Action>, d: Dialect, host: Host)
    requires d != Legacy && IsWord(w) && IsWord(n) && IsWord(r) && n != r
    requires |x| > 0 && '/' !in x && |seg| > 0 && '/' !in seg
    ensures HandlerMatch(NewHandler("/" + w + "/$:" + n + "/:" + r, actions, d), "/" + w + "/" + x + "/" + seg, "", host)
      == Some(map[n := x, r := seg])
  {
    WordHasNoSeparator(w);
    WordHasNoSeparator(n);
    WordHasNoSeparator(r);
    DerivedParamTokens("/" + w, n, r, actions, d);
    NoBaseMatch(NewHandler("/" + w + "/$:" + n + "/:" + r, actions, d), "/" + w + "/" + x + "/" + seg, host);
    LiteralTwoParams(w, n, r, x, seg, d);
  }

  /** The table `/w`, `/w/:name` that an optional parameter `/w/:name?` registers: `/w` and
      `/w/` route to the first handler with no parameters, and `/w/seg` routes to the second,
      binding `name` to `seg`. */
  lemma OptionalParamTable(w: string, name: string, seg: string, actions: seq<Action>, d: Dialect, host: Host)
    requires IsWord(w) && IsWord(name) && |seg| > 0 && '/' !in seg
    ensures var regs := [NewHandler("/" + w, actions, d), NewHandler("/" + w + "/" + (":" + name), actions, d)];
      && FirstMatch(regs, "/" + w, "", host) == Some((0, map[]))
      && FirstMatch(regs, "/" + w + "/", "", host) == Some((0, map[]))
      && FirstMatch(regs, "/" + w + "/" + seg, "", host) == Some((1, map[name := seg]))
  {
    var h0 := NewHandler("/" + w, actions, d);
    var h1 := NewHandler("/" + w + "/" + (":" + name), actions, d);
    var str := "/" + w + "/" + seg;
    assert HandlerMatch(h0, "/" + w, "", host) == Some(map[]) && HandlerMatch(h0, "/" + w + "/", "", host) == Some(map[])
        && HandlerMatch(h0, str, "", host).None? by {
      WordHasNoSeparator(w);
      PartsOfTwo(w, seg);
      LiteralRouteHandler(w, actions, d, host, str);
    }
    assert HandlerMatch(h1, str, "", host) == Some(map[name := seg]) by {
      ParamRouteHandler(w, name, seg, actions, d, host, str);
    }
    FirstOfTwo(h0, h1, "/" + w, host);
    FirstOfTwo(h0, h1, "/" + w + "/", host);
    SecondOfTwo(h0, h1, str, host);
  }

  /** The optional-parameter example `/about/:person?`: both registered handlers carry the
      route's actions; `/about` and `/about/` route to `/about` with no parameters, and
      `/about/seg` routes to `/about/:person` with `person` bound to `seg`. */
  lemma AboutPersonMatches(seg: string, actions: seq<Action>, d: Dialect, host: Host)
    requires |seg| > 0 && '/' !in seg
    ensures var regs := Registrations(NewHandler("/about/:person?", actions, d), false, d);
      && |regs| == 2 && regs[0].actions == actions && regs[1].actions == actions
      && FirstMatch(regs, "/about", "", host) == Some((0, map[]))
      && FirstMatch(regs, "/about/", "", host) == Some((0, map[]))
      && FirstMatch(regs, "/about/" + seg, "", host) == Some((1, map["person" := seg]))
  {
    AboutPerson(actions, d);
    AboutPersonText(seg);
    OptionalParamTable("about", "person", seg, actions, d, host);
  }

  /** The spellings of the `/about` table's paths. */
  lemma AboutPersonText(seg: string)
    ensures IsWord("about") && IsWord("person")
    ensures "/" + "about" == "/about" && "/about" + "/" == "/about/"
    ensures "/" + "about" + "/" + (":" + "person") == "/about/:person"
    ensures "/" + "about" + "/" + seg == "/about/" + seg
  {
  }

  /** For the route `/w/$:n/:r`: the path `/w/seg` routes to the redirect handler of `/w/:r`,
      binding `r` to `seg`. */
  lemma DerivedSectionsRoute(w: string, n: string, r: string, seg: string, actions: seq<Action>, d: Dialect, host: Host)
    requires d != Legacy && IsWord(w) && IsWord(n) && IsWord(r)
    requires |seg| > 0 && '/' !in seg
    ensures var regs := Registrations(NewHandler("/" + w + "/$:" + n + "/:" + r, actions, d), false, d);
      && |regs| == 3 && regs[1].actions == [ForwardSections("/" + w, n, [":" + r])]
      && FirstMatch(regs, "/" + w + "/" + seg, "", host) == Some((1, map[r := seg]))
  {
    WordHasNoSeparator(w);
    WordHasNoSeparator(n);
    WordHasNoSeparator(r);
    DerivedParamRoute("/" + w, n, r, actions, d);
    var regs := Registrations(NewHandler("/" + w + "/$:" + n + "/:" + r, actions, d), false, d);
    var str := "/" + w + "/" + seg;
    assert HandlerMatch(regs[0], str, "", host).None? by {
      PartsOfTwo(w, seg);
      LiteralRouteHandler(w, [ForwardBefore(n)], d, host, str);
    }
    assert HandlerMatch(regs[1], str, "", host) == Some(map[r := seg]) by {
      ParamRouteHandler(w, r, seg, [ForwardSections("/" + w, n, [":" + r])], d, host, str);
    }
    SecondOfThree(regs[0], regs[1], regs[2], str, host);
  }

  /** The table `/w`, `/w/:r`, `/w/$:n/:r`: the path `/w/x/seg` routes past the two
      redirects to the route itself, binding `n` to `x` and `r` to `seg`. */
  lemma DerivedTargetTable(w: string, n: string, r: string, x: string, seg: string, actions: seq<Action>, d: Dialect, host: Host)
    requires d != Legacy && IsWord(w) && IsWord(n) && IsWord(r) && n != r
    requires |x| > 0 && '/' !in x && |seg| > 0 && '/' !in seg
    ensures FirstMatch([NewHandler("/" + w, [ForwardBefore(n)], d),
                        NewHandler("/" + w + "/" + (":" + r), [ForwardSections("/" + w, n, [":" + r])], d),
                        NewHandler("/" + w + "/$:" + n + "/:" + r, actions, d)],
                       "/" + w + "/" + x + "/" + seg, "", host) == Some((2, map[n := x, r := seg]))
  {
    var h0 := NewHandler("/" + w, [ForwardBefore(n)], d);
    var h1 := NewHandler("/" + w + "/" + (":" + r), [ForwardSections("/" + w, n, [":" + r])], d);
    var h2 := NewHandler("/" + w + "/$:" + n + "/:" + r, actions, d);
    var str := "/" + w + "/" + x + "/" + seg;
    assert HandlerMatch(h0, str, "", host).None? && HandlerMatch(h1, str, "", host).None? by {
      WordHasNoSeparator(w);
      PartsOfThree(w, x, seg);
      LiteralRouteHandler(w, [ForwardBefore(n)], d, host, str);
      ParamRouteHandler(w, r, seg, [ForwardSections("/" + w, n, [":" + r])], d, host, str);
    }
    assert HandlerMatch(h2, str, "", host) == Some(map[n := x, r := seg]) by {
      DerivedRouteHandler(w, n, r, x, seg, actions, d, host);
    }
    ThirdOfThree(h0, h1, h2, str, host);
  }

  /** For the route `/w/$:n/:r`: the path `/w/x/seg` routes to the route itself, binding `n` to
      `x` and `r` to `seg`. */
  lemma DerivedTargetRoute(w: string, n: string, r: string, x: string, seg: string, actions: seq<Action>, d: Dialect, host: Host)
    requires d != Legacy && IsWord(w) && IsWord(n) && IsWord(r) && n != r
    requires |x| > 0 && '/' !in x && |seg| > 0 && '/' !in seg
    ensures var regs := Registrations(NewHandler("/" + w + "/$:" + n + "/:" + r, actions, d), false, d);
      && |regs| == 3 && regs[2].actions == actions
      && FirstMatch(regs, "/" + w + "/" + x + "/" + seg, "", host) == Some((2, map[n := x, r := seg]))
  {
    WordHasNoSeparator(w);
    WordHasNoSeparator(n);
    WordHasNoSeparator(r);
    DerivedParamRoute("/" + w, n, r, actions, d);
    DerivedTargetTable(w, n, r, x, seg, actions, d, host);
  }


  /** The derived-subpath round trip of `/w/$:n/:r`: `/w/seg` routes to the redirect for
      `/w/:r`, which forwards to `/w`, the value the resolver of `n` gives, `seg`, and the query;
      when that value is a non-empty segment, the forward path routes to the route itself with
      `n` bound to the resolved value and `r` to `seg`. */
  lemma DerivedRoundTrip(w: string, n: string, r: string, seg: string, actions: seq<Action>, d: Dialect,
                         host: Host, resolvers: Resolvers, url: string, search: string)
    requires d != Legacy && IsWord(w) && IsWord(n) && IsWord(r) && n != r
    requires |seg| > 0 && '/' !in seg && n in resolvers
    ensures var regs := Registrations(NewHandler("/" + w + "/$:" + n + "/:" + r, actions, d), false, d);
      var v := View(url, "/" + w + "/" + seg, search, map[r := seg]);
      var x := host.resolve(resolvers[n], v);
      && |regs| == 3
      && FirstMatch(regs, "/" + w + "/" + seg, "", host) == Some((1, map[r := seg]))
      && regs[1].actions == [ForwardSections("/" + w, n, [":" + r])]
      && Forward(regs[1].actions[0], v, resolvers, host) == Redirect("/" + w + "/" + x + "/" + seg + Query(search))
      && (|x| > 0 && '/' !in x ==>
            FirstMatch(regs, "/" + w + "/" + x + "/" + seg, "", host) == Some((2, map[n := x, r := seg])))
  {
    var v := View(url, "/" + w + "/" + seg, search, map[r := seg]);
    var x := host.resolve(resolvers[n], v);
    DerivedSectionsRoute(w, n, r, seg, actions, d, host);
    WordHasNoSeparator(r);
    DerivedForward("/" + w, n, r, seg, v, resolvers, host);
    if |x| > 0 && '/' !in x {
      DerivedTargetRoute(w, n, r, x, seg, actions, d, host);
    }
  }
}
