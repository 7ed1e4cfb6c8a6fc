/** The router of `dist/client-router.js`, the earlier `dist` version: the same route table
    and redirects as the current version, but no global middleware and no base path, and a
    `RouteHandler.matches` that fires the route's actions itself. */
module DistClientRouter {
  import opened Text
  import opened Navigation
  import opened Pattern
  import opened Chain
  import opened Routes
  import opened Matching
  import DragonRouter

  /** `evaluate` on a context in state `s`: a context of another domain, or one no route
      matches, is handed to the window; on a match the route's actions run on its parameters
      and the context is recorded unless it already was. */
  function Evaluation(t: Table, routerDomain: Option<string>, s: ContextState, replace: bool, host: Host): Evaluated
  {
    if !DomainAccepted(routerDomain, s.domain) then Evaluated(s, [External(s.url)], [])
    else
      var found := FirstMatch(t.registrar, s.path, "", host);
      if found.None? then Evaluated(s, [External(s.url)], [])
      else
        var v := View(s.url, s.path, s.search, found.value.1);
        var r := RunChain(t.registrar[found.value.0].actions, 0, v, t.subPaths, host);
        var recording := Recording(s.(params := Some(r.params)), replace);
        Evaluated(recording.0, recording.1, r.pending)
  }

  /** The evaluation of a context that handler `i` is the first to match. */
  lemma RoutedAt(t: Table, routerDomain: Option<string>, s: ContextState, replace: bool, host: Host, i: nat, params: Params)
    requires DomainAccepted(routerDomain, s.domain)
    requires FirstMatch(t.registrar, s.path, "", host) == Some((i, params))
    ensures i < |t.registrar|
    ensures var r := RunChain(t.registrar[i].actions, 0, s.Seen().(params := params), t.subPaths, host);
      var recording := Recording(s.(params := Some(r.params)), replace);
      Evaluation(t, routerDomain, s, replace, host) == Evaluated(recording.0, recording.1, r.pending)
  {
  }

  /** The earlier version is the current one with no global middleware and the empty base
      path, except that it leaves the context's base path alone. */
  lemma AgreesWithCurrent(t: Table, routerDomain: Option<string>, s: ContextState, replace: bool, host: Host)
    ensures var e := DragonRouter.Evaluation(t.(globalActions := []), "", routerDomain, s, replace, host);
      Evaluation(t, routerDomain, s, replace, host) == e.(state := e.state.(basePath := s.basePath))
  {
    var found := FirstMatch(t.registrar, s.path, "", host);
    if DomainAccepted(routerDomain, s.domain) && found.Some? {
      var v := View(s.url, s.path, s.search, found.value.1);
      assert RunChain([], 0, v, t.subPaths, host) == Fired(v.params, [], []);
    }
  }

  /** The earlier version builds path handlers only, so a route's regular expression is never
      consulted. */
  lemma {:induction false} ClientPathHandlers(t: Table, arg: Arg, ids: seq<nat>)
    requires Buildable(arg, DistClient) && PathHandlersOnly(t.registrar)
    ensures PathHandlersOnly(Used(t, arg, ids, DistClient).registrar)
    decreases arg, 1, 0
  {
    match arg
    case HandlerArg(path, hids) =>
      RegisteredPaths(NewHandler(path, Callbacks(hids), DistClient), false, DistClient);
      PathsConcat(t.registrar, Registrations(NewHandler(path, Callbacks(hids), DistClient), false, DistClient));
    case PathArg(path) =>
      RegisteredPaths(NewHandler(path, Callbacks(ids), DistClient), false, DistClient);
      PathsConcat(t.registrar, Registrations(NewHandler(path, Callbacks(ids), DistClient), false, DistClient));
    case Items(items) =>
      ClientItemsPathHandlers(t, arg, 0, ids);
    case _ =>
  }

  lemma {:induction false} ClientItemsPathHandlers(t: Table, arg: Arg, k: nat, ids: seq<nat>)
    requires arg.Items? && Buildable(arg, DistClient) && k <= |arg.items| && PathHandlersOnly(t.registrar)
    ensures PathHandlersOnly(UsedItems(t, arg, k, ids, DistClient).registrar)
    decreases arg, 0, |arg.items| - k
  {
    if k < |arg.items| {
      ClientPathHandlers(t, arg.items[k], ids);
      ClientItemsPathHandlers(Used(t, arg.items[k], ids, DistClient), arg, k + 1, ids);
    }
  }

  /** `ClientRouter`. */
  class ClientRouter {
    var registrar: seq<RouteHandler>
    var subPaths: Resolvers
    /** The domain `registerOn` reads off the window's location (none without a window). */
    const domain: Option<string>
    /** What the router did to the window, in order: history entries and navigations. */
    var effects: seq<Effect>

    /** The part of the router `use` builds; the earlier version has no global middleware. */
    function RouteTable(): Table
      reads this
    {
      Table(registrar, [], subPaths)
    }

    /** `new ClientRouter({registerOn})`, with `windowUrl` the location of the window the router
        is registered on, if any. */
    constructor (windowUrl: Option<string>)
      ensures RouteTable() == Table([], [], map[]) && effects == []
      ensures domain == if windowUrl.Some? then Fresh(windowUrl.value).domain else None
    {
      registrar, subPaths := [], map[];
      domain := if windowUrl.Some? then Parse(windowUrl.value).domain else None;
      effects := [];
    }

    /** `use(arg, ...ids)`: a function or a RegExp is ignored. */
    method Use(arg: Arg, ids: seq<nat>)
      requires Buildable(arg, DistClient)
      modifies this
      ensures RouteTable() == Used(old(RouteTable()), arg, ids, DistClient)
      ensures effects == old(effects)
      decreases arg
    {
      match arg
      case Subpath(name, r) =>
        subPaths := subPaths[name := r];
      case HandlerArg(path, hids) =>
        RegisterHandlers(NewHandler(path, Callbacks(hids), DistClient), false);
      case Items(items) =>
        for k := 0 to |items|
          invariant UsedItems(RouteTable(), arg, k, ids, DistClient) == Used(old(RouteTable()), arg, ids, DistClient)
          invariant effects == old(effects)
        {
          Use(items[k], ids);
        }
      case PathArg(path) =>
        RegisterHandlers(NewHandler(path, Callbacks(ids), DistClient), false);
      case Middleware(_) =>
      case RegexArg(_) =>
      case Unsupported =>
    }

    /** `registerHandlers(h, recursive)`: pushes the handlers `Registrations` lists. */
    method RegisterHandlers(h: RouteHandler, recursive: bool)
      requires h.PathHandler?
      modifies this`registrar
      ensures registrar == old(registrar) + Registrations(h, recursive, DistClient)
      decreases |h.path|, 1
    {
      if HasOptional(h.path) {
        RegisterOptional(h);
        OptionalRegistrations(h, recursive, DistClient);
        OptionalRegistrations(h, false, DistClient);
      } else if Contains(h.path, "$:") {
        RegisterDerived(h, recursive);
      } else {
        PlainRegistrations(h, recursive, DistClient);
        if !recursive {
          registrar := registrar + [h];
        }
      }
    }

    /** The optional expansion of `registerHandlers`. */
    method RegisterOptional(h: RouteHandler)
      requires h.PathHandler? && HasOptional(h.path)
      modifies this`registrar
      ensures registrar == old(registrar) + Registrations(h, false, DistClient)
      decreases |h.path|, 0
    {
      var part, full := ExpandOptional(h.path);
      OptionalShrinks(h.path);
      OptionalRegistered(h, false, DistClient, part, full);
      ghost var start := registrar;
      RegisterHandlers(NewHandler(part, h.actions, DistClient), false);
      RegisterHandlers(NewHandler(full, h.actions, DistClient), false);
      Regroup2(start, Registrations(NewHandler(part, h.actions, DistClient), false, DistClient),
        Registrations(NewHandler(full, h.actions, DistClient), false, DistClient));
    }

    /** The `$:` case of `registerHandlers`. */
    method RegisterDerived(h: RouteHandler, recursive: bool)
      requires h.PathHandler? && !HasOptional(h.path) && Contains(h.path, "$:")
      modifies this`registrar
      ensures registrar == old(registrar) + Registrations(h, recursive, DistClient)
      decreases |h.path|, 0
    {
      var x := Derive(h.path);
      DerivedRegistrations(h, recursive, DistClient);
      var toBefore := NewHandler(x.before, [ForwardBefore(x.name)], DistClient);
      registrar := registrar + [toBefore];
      if Contains(x.remaining, "$:") {
        RegisterHandlers(NewHandler(x.remaining, [], DistClient), true);
      }
      ghost var inner := InnerRegistrations(x, DistClient);
      assert registrar == old(registrar) + [toBefore] + inner;
      var toSections := NewHandler(Join([x.before] + x.after, '/'), [ForwardSections(x.before, x.name, x.after)], DistClient);
      registrar := registrar + [toSections];
      if !recursive {
        registrar := registrar + [h];
      }
      Regroup4(old(registrar), [toBefore], inner, [toSections], if recursive then [] else [h]);
    }

    /** `RouteHandler.matches` of handler `i`: on a match the context takes the parameters and
        the route's actions run on it at once. */
    method MatchAndFire(i: nat, ctx: Context, host: Host) returns (matched: bool, pending: seq<Deferred>)
      requires i < |registrar|
      modifies ctx`params
      ensures var m := HandlerMatch(registrar[i], ctx.path, "", host);
        && (matched <==> m.Some?)
        && (!matched ==> ctx.params == old(ctx.params) && pending == [])
        && (matched ==>
              var f := RunChain(registrar[i].actions, 0, old(ctx.Snapshot()).(params := m.value), subPaths, host);
              ctx.params == Some(f.params) && pending == f.pending)
    {
      matched := Matches(registrar[i], ctx, "", host);
      pending := [];
      if matched {
        pending := FireActions(ctx, registrar[i].actions, subPaths, host);
      }
    }

    /** `evaluate(ctx, replace)`; the redirects the asynchronous actions will make are
        returned, to be settled by `Settle`. */
    method Evaluate(ctx: Context, replace: bool, host: Host) returns (pending: seq<Deferred>)
      modifies this`effects, ctx`params, ctx`isRecordedHistory
      ensures var e := Evaluation(RouteTable(), domain, old(ctx.State()), replace, host);
        && ctx.State() == e.state && effects == old(effects) + e.effects && pending == e.pending
    {
      ghost var s := ctx.State();
      if !DomainAccepted(domain, ctx.domain) {
        effects := effects + [External(ctx.url)];
        return [];
      }
      ghost var rs := Attempts(registrar, ctx.path, "", host);
      var i := 0;
      while i < |registrar|
        invariant 0 <= i <= |registrar|
        invariant FirstSome(rs, i) == FirstMatch(registrar, s.path, "", host)
        invariant ctx.State() == s
        invariant effects == old(effects)
        decreases |registrar| - i
      {
        var matched;
        matched, pending := MatchAndFire(i, ctx, host);
        AttemptAt(registrar, ctx.path, "", host, i);
        if matched {
          ghost var params := HandlerMatch(registrar[i], s.path, "", host).value;
          assert FirstMatch(registrar, s.path, "", host) == Some((i, params));
          RoutedAt(RouteTable(), domain, s, replace, host, i, params);
          var recorded := PushState(ctx, replace);
          effects := effects + recorded;
          return;
        }
        i := i + 1;
      }
      effects := effects + [External(ctx.url)];
      pending := [];
    }

    /** `redirect(url)`: evaluates a fresh context, replacing the current history entry. */
    method Redirect(url: string, host: Host) returns (pending: seq<Deferred>)
      modifies this`effects
      ensures var e := Evaluation(RouteTable(), domain, Fresh(url), true, host);
        effects == old(effects) + e.effects && pending == e.pending
    {
      var ctx := new Context(url);
      pending := Evaluate(ctx, true, host);
    }

    /** `navigate(url)`: evaluates a fresh context, pushing a new history entry. */
    method Navigate(url: string, host: Host) returns (pending: seq<Deferred>)
      modifies this`effects
      ensures var e := Evaluation(RouteTable(), domain, Fresh(url), false, host);
        effects == old(effects) + e.effects && pending == e.pending
    {
      var ctx := new Context(url);
      pending := Evaluate(ctx, false, host);
    }

    /** The continuation of an asynchronous redirect action. */
    method Settle(d: Deferred, host: Host) returns (pending: seq<Deferred>)
      modifies this`effects
      ensures d.Rejected? ==> effects == old(effects) && pending == []
      ensures d.Redirect? ==> var e := Evaluation(RouteTable(), domain, Fresh(d.url), true, host);
        effects == old(effects) + e.effects && pending == e.pending
    {
      if d.Redirect? {
        pending := Redirect(d.url, host);
      } else {
        pending := [];
      }
    }
  }
}
