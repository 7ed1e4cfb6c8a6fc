/** The router of `dist/dragon-router.js`: a route table built by `use`, global middleware, a
    base path, and `evaluate`, which runs the global middleware and then the actions of the
    first matching route, and records the context in the history once. What the router does
    to the window is kept, in order, in `effects`. */
module DragonRouter {
  import opened Text
  import opened Navigation
  import opened Pattern
  import opened Chain
  import opened Routes
  import opened Matching

  /** `evaluate` on a context in state `s`, for the router's table, base path and domain.
      A context of another domain, or one no route matches, is handed to the window. On a
      match the context takes the base path and the route's parameters, the global middleware
      runs, then the route's actions from the parameters the middleware left (whether or not
      it called `next`), then the context is recorded unless it already was. */
  function Evaluation(t: Table, base: string, routerDomain: Option<string>, s: ContextState, replace: bool, host: Host): Evaluated
  {
    if !DomainAccepted(routerDomain, s.domain) then Evaluated(s, [External(s.url)], [])
    else
      var found := FirstMatch(t.registrar, s.path, base, host);
      if found.None? then Evaluated(s.(basePath := Some(base)), [External(s.url)], [])
      else
        var i := found.value.0;
        var v := View(s.url, s.path, s.search, found.value.1);
        var g := RunChain(t.globalActions, 0, v, t.subPaths, host);
        var r := RunChain(t.registrar[i].actions, 0, v.(params := g.params), t.subPaths, host);
        var recording := Recording(s.(basePath := Some(base), params := Some(r.params)), replace);
        Evaluated(recording.0, recording.1, g.pending + r.pending)
  }

  /** The evaluation of a context that handler `i` is the first to match. */
  lemma RoutedAt(t: Table, base: string, routerDomain: Option<string>, s: ContextState, replace: bool, host: Host, i: nat, params: Params)
    requires DomainAccepted(routerDomain, s.domain)
    requires FirstMatch(t.registrar, s.path, base, host) == Some((i, params))
    ensures i < |t.registrar|
    ensures var v := s.Seen().(params := params);
      var g := RunChain(t.globalActions, 0, v, t.subPaths, host);
      var r := RunChain(t.registrar[i].actions, 0, v.(params := g.params), t.subPaths, host);
      var recording := Recording(s.(basePath := Some(base), params := Some(r.params)), replace);
      Evaluation(t, base, routerDomain, s, replace, host) == Evaluated(recording.0, recording.1, g.pending + r.pending)
  {
  }

  /** A context of another domain is handed to the window and left as it was. */
  lemma ForeignDomain(t: Table, base: string, routerDomain: Option<string>, s: ContextState, replace: bool, host: Host)
    requires s.domain.Some? && s.domain.value != "" && routerDomain != s.domain
    ensures Evaluation(t, base, routerDomain, s, replace, host) == Evaluated(s, [External(s.url)], [])
  {
  }

  /** A context no route matches is handed to the window; it only takes the base path. */
  lemma Unrouted(t: Table, base: string, routerDomain: Option<string>, s: ContextState, replace: bool, host: Host)
    requires DomainAccepted(routerDomain, s.domain)
    requires forall k :: 0 <= k < |t.registrar| ==> HandlerMatch(t.registrar[k], s.path, base, host).None?
    ensures Evaluation(t, base, routerDomain, s, replace, host) == Evaluated(s.(basePath := Some(base)), [External(s.url)], [])
  {
    var rs := Attempts(t.registrar, s.path, base, host);
    forall k | 0 <= k < |rs| ensures rs[k].None? {
      AttemptAt(t.registrar, s.path, base, host, k);
    }
  }

  /** A routed context is never handed to the window: it is recorded, with the route's
      parameters and the base path, and gets a history entry exactly when it was not recorded
      before. */
  lemma Routed(t: Table, base: string, routerDomain: Option<string>, s: ContextState, replace: bool, host: Host)
    requires DomainAccepted(routerDomain, s.domain)
    requires FirstMatch(t.registrar, s.path, base, host).Some?
    ensures var e := Evaluation(t, base, routerDomain, s, replace, host);
      && e.state.recorded && e.state.params.Some? && e.state.basePath == Some(base)
      && e.state.(params := s.params, basePath := s.basePath, recorded := s.recorded) == s
      && e.effects == if s.recorded then [] else [Record(s.path, replace)]
  {
  }

  /** Evaluating a context again (as the history's `popstate` does) routes it the same way and
      records nothing new. */
  lemma RecordedOnce(t: Table, base: string, routerDomain: Option<string>, s: ContextState, replace: bool, again: bool, host: Host)
    requires DomainAccepted(routerDomain, s.domain)
    requires FirstMatch(t.registrar, s.path, base, host).Some?
    ensures var e := Evaluation(t, base, routerDomain, s, replace, host);
      Evaluation(t, base, routerDomain, e.state, again, host).effects == []
  {
    Routed(t, base, routerDomain, s, replace, host);
    var e := Evaluation(t, base, routerDomain, s, replace, host);
    assert e.state.path == s.path && e.state.domain == s.domain;
    Routed(t, base, routerDomain, e.state, again, host);
  }

  /** A fresh context (as `navigate` and `redirect` build) that a route matches gets one
      history entry for its path, a replacement exactly when asked. */
  lemma FreshRecorded(t: Table, base: string, routerDomain: Option<string>, url: string, replace: bool, host: Host)
    requires DomainAccepted(routerDomain, Parse(url).domain)
    requires FirstMatch(t.registrar, Parse(url).path, base, host).Some?
    ensures Evaluation(t, base, routerDomain, Fresh(url), replace, host).effects == [Record(Parse(url).path, replace)]
  {
    Routed(t, base, routerDomain, Fresh(url), replace, host);
  }

  /** Global middleware that does not call `next` stops the other global middleware but not
      the route: the route's actions start from the parameters it left. */
  lemma GlobalsDoNotGate(t: Table, base: string, routerDomain: Option<string>, s: ContextState, replace: bool, host: Host)
    requires DomainAccepted(routerDomain, s.domain)
    requires FirstMatch(t.registrar, s.path, base, host).Some?
    requires |t.globalActions| > 0 && t.globalActions[0].Callback?
    ensures var (i, params) := FirstMatch(t.registrar, s.path, base, host).value;
      var v := View(s.url, s.path, s.search, params);
      var step := host.callback(t.globalActions[0].id, v);
      !step.next ==>
        Evaluation(t, base, routerDomain, s, replace, host).state.params ==
          Some(RunChain(t.registrar[i].actions, 0, v.(params := step.params), t.subPaths, host).params)
  {
  }

  /** `Router`. */
  class Router {
    var registrar: seq<RouteHandler>
    var globalActions: seq<Action>
    var subPaths: Resolvers
    const basePath: string
    /** The domain `registerOn` reads off the window's location (none without a window). */
    const domain: Option<string>
    /** What the router did to the window, in order: history entries and navigations. */
    var effects: seq<Effect>

    /** The part of the router `use` builds. */
    function RouteTable(): Table
      reads this
    {
      Table(registrar, globalActions, subPaths)
    }

    /** `new Router({basePath, registerOn})`, with `windowUrl` the location of the window the
        router is registered on, if any. */
    constructor (basePathOption: Option<string>, windowUrl: Option<string>)
      ensures RouteTable() == Table([], [], map[]) && effects == []
      ensures basePath == NormalBase(basePathOption)
      ensures domain == if windowUrl.Some? then Fresh(windowUrl.value).domain else None
    {
      registrar, globalActions, subPaths := [], [], map[];
      basePath := if basePathOption.None? || basePathOption.value == "/" then "" else basePathOption.value;
      domain := if windowUrl.Some? then Parse(windowUrl.value).domain else None;
      effects := [];
    }

    /** `use(arg, ...ids)`. */
    method Use(arg: Arg, ids: seq<nat>)
      requires Buildable(arg, Dragon)
      modifies this
      ensures RouteTable() == Used(old(RouteTable()), arg, ids, Dragon)
      ensures effects == old(effects)
      decreases arg
    {
      match arg
      case Subpath(name, r) =>
        subPaths := subPaths[name := r];
      case HandlerArg(path, hids) =>
        RegisterHandlers(NewHandler(path, Callbacks(hids), Dragon), false);
      case RegexHandlerArg(re, hids) =>
        RegisterHandlers(RegexHandler(re, Callbacks(hids)), false);
      case Middleware(cb) =>
        globalActions := globalActions + [Callback(cb)] + Callbacks(ids);
      case Items(items) =>
        for k := 0 to |items|
          invariant UsedItems(RouteTable(), arg, k, ids, Dragon) == Used(old(RouteTable()), arg, ids, Dragon)
          invariant effects == old(effects)
        {
          Use(items[k], ids);
        }
      case PathArg(path) =>
        RegisterHandlers(NewHandler(path, Callbacks(ids), Dragon), false);
      case RegexArg(re) =>
        RegisterHandlers(RegexHandler(re, Callbacks(ids)), false);
      case Unsupported =>
    }

    /** `_registerHandlers(h, recursive)`: pushes the handlers `Registrations` lists. */
    method RegisterHandlers(h: RouteHandler, recursive: bool)
      modifies this`registrar
      ensures registrar == old(registrar) + Registrations(h, recursive, Dragon)
      decreases if h.PathHandler? then |h.path| else 0, 1
    {
      if h.RegexHandler? {
        registrar := registrar + [h];
      } else if HasOptional(h.path) {
        RegisterOptional(h);
        OptionalRegistrations(h, recursive, Dragon);
        OptionalRegistrations(h, false, Dragon);
      } else if Contains(h.path, "$:") {
        RegisterDerived(h, recursive);
      } else {
        PlainRegistrations(h, recursive, Dragon);
        if !recursive {
          registrar := registrar + [h];
        }
      }
    }

    /** The optional expansion of `_registerHandlers`: the route without its optional
        sections, then the route with them unmarked. */
    method RegisterOptional(h: RouteHandler)
      requires h.PathHandler? && HasOptional(h.path)
      modifies this`registrar
      ensures registrar == old(registrar) + Registrations(h, false, Dragon)
      decreases |h.path|, 0
    {
      var part, full := ExpandOptional(h.path);
      OptionalShrinks(h.path);
      OptionalRegistered(h, false, Dragon, part, full);
      ghost var start := registrar;
      RegisterHandlers(NewHandler(part, h.actions, Dragon), false);
      RegisterHandlers(NewHandler(full, h.actions, Dragon), false);
      Regroup2(start, Registrations(NewHandler(part, h.actions, Dragon), false, Dragon),
        Registrations(NewHandler(full, h.actions, Dragon), false, Dragon));
    }

    /** The `$:` case of `_registerHandlers`: the redirect for the route up to the segment,
        the remaining `$:` segments, the redirect for the route without the segment, and
        (unless recursive) the route itself. */
    method RegisterDerived(h: RouteHandler, recursive: bool)
      requires h.PathHandler? && !HasOptional(h.path) && Contains(h.path, "$:")
      modifies this`registrar
      ensures registrar == old(registrar) + Registrations(h, recursive, Dragon)
      decreases |h.path|, 0
    {
      var x := Derive(h.path);
      DerivedRegistrations(h, recursive, Dragon);
      var toBefore := NewHandler(x.before, [ForwardBefore(x.name)], Dragon);
      registrar := registrar + [toBefore];
      if Contains(x.remaining, "$:") {
        RegisterHandlers(NewHandler(x.remaining, [], Dragon), true);
      }
      ghost var inner := InnerRegistrations(x, Dragon);
      assert registrar == old(registrar) + [toBefore] + inner;
      var toSections := NewHandler(Join([x.before] + x.after, '/'), [ForwardSections(x.before, x.name, x.after)], Dragon);
      registrar := registrar + [toSections];
      if !recursive {
        registrar := registrar + [h];
      }
      Regroup4(old(registrar), [toBefore], inner, [toSections], if recursive then [] else [h]);
    }

    /** `_fireGlobalActions`: the global middleware's `next` chain on the context. */
    method FireGlobalActions(ctx: Context, host: Host) returns (pending: seq<Deferred>)
      modifies ctx`params
      ensures var f := RunChain(globalActions, 0, old(ctx.Snapshot()), subPaths, host);
        && pending == f.pending
        && ctx.Snapshot() == old(ctx.Snapshot()).(params := f.params)
        && ctx.params == if |f.trace| == 0 then old(ctx.params) else Some(f.params)
    {
      pending := FireActions(ctx, globalActions, subPaths, host);
    }

    /** `evaluate(ctx, replace)`; the redirects that the asynchronous actions will make are
        returned, to be settled by `Settle`. */
    method Evaluate(ctx: Context, replace: bool, host: Host) returns (pending: seq<Deferred>)
      modifies this`effects, ctx`params, ctx`basePath, ctx`isRecordedHistory
      ensures var e := Evaluation(RouteTable(), basePath, domain, old(ctx.State()), replace, host);
        && ctx.State() == e.state && effects == old(effects) + e.effects && pending == e.pending
    {
      ghost var s := ctx.State();
      if !DomainAccepted(domain, ctx.domain) {
        effects := effects + [External(ctx.url)];
        return [];
      }
      ctx.basePath := Some(basePath);
      ghost var rs := Attempts(registrar, ctx.path, basePath, host);
      var i := 0;
      while i < |registrar|
        invariant 0 <= i <= |registrar|
        invariant FirstSome(rs, i) == FirstMatch(registrar, s.path, basePath, host)
        invariant ctx.State() == s.(basePath := Some(basePath))
        invariant effects == old(effects)
        decreases |registrar| - i
      {
        var matched := Matches(registrar[i], ctx, BaseOf(ctx.basePath), host);
        AttemptAt(registrar, ctx.path, basePath, host, i);
        if matched {
          ghost var params := HandlerMatch(registrar[i], s.path, basePath, host).value;
          assert FirstMatch(registrar, s.path, basePath, host) == Some((i, params));
          RoutedAt(RouteTable(), basePath, domain, s, replace, host, i, params);
          pending := FireRoute(ctx, i, replace, host);
          return;
        }
        i := i + 1;
      }
      effects := effects + [External(ctx.url)];
      pending := [];
    }

    /** What `evaluate` does once handler `i` has matched: the global middleware, the route's
        actions, then `_pushState`. */
    method FireRoute(ctx: Context, i: nat, replace: bool, host: Host) returns (pending: seq<Deferred>)
      requires i < |registrar| && ctx.params.Some?
      modifies this`effects, ctx`params, ctx`isRecordedHistory
      ensures var s := old(ctx.State());
        var v := View(s.url, s.path, s.search, s.params.value);
        var g := RunChain(globalActions, 0, v, subPaths, host);
        var r := RunChain(registrar[i].actions, 0, v.(params := g.params), subPaths, host);
        var recording := Recording(s.(params := Some(r.params)), replace);
        && ctx.State() == recording.0 && effects == old(effects) + recording.1
        && pending == g.pending + r.pending
    {
      pending := FireGlobalActions(ctx, host);
      var routed := FireActions(ctx, registrar[i].actions, subPaths, host);
      pending := pending + routed;
      var recorded := PushState(ctx, replace);
      effects := effects + recorded;
    }

    /** `redirect(url)`: evaluates a fresh context, replacing the current history entry. */
    method Redirect(url: string, host: Host) returns (pending: seq<Deferred>)
      modifies this`effects
      ensures var e := Evaluation(RouteTable(), basePath, domain, Fresh(url), true, host);
        effects == old(effects) + e.effects && pending == e.pending
    {
      var ctx := new Context(url);
      pending := Evaluate(ctx, true, host);
    }

    /** `navigate(url)`: evaluates a fresh context, pushing a new history entry. */
    method Navigate(url: string, host: Host) returns (pending: seq<Deferred>)
      modifies this`effects
      ensures var e := Evaluation(RouteTable(), basePath, domain, Fresh(url), false, host);
        effects == old(effects) + e.effects && pending == e.pending
    {
      var ctx := new Context(url);
      pending := Evaluate(ctx, false, host);
    }

    /** The continuation of an asynchronous redirect action: a resolved forward path is
        redirected to; a rejected one (no resolver under the name) does nothing. */
    method Settle(d: Deferred, host: Host) returns (pending: seq<Deferred>)
      modifies this`effects
      ensures d.Rejected? ==> effects == old(effects) && pending == []
      ensures d.Redirect? ==> var e := Evaluation(RouteTable(), basePath, domain, Fresh(d.url), true, host);
        effects == old(effects) + e.effects && pending == e.pending
    {
      if d.Redirect? {
        pending := Redirect(d.url, host);
      } else {
        pending := [];
      }
    }
  }
}
