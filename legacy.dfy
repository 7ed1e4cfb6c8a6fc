/** The router of `client-router.js`, the legacy version: `use` appends one handler per call,
    patterns match segment by segment with no whole-path test, there is no domain check, and
    every routed evaluation pushes a history entry. */
module LegacyRouter {
  import opened Text
  import opened Navigation
  import opened Pattern
  import opened Chain
  import opened Routes
  import opened Matching

  /** `evalute` on a context in state `s`: the first matching route's actions run on its
      parameters and the path is pushed onto the history; with no match the context is handed
      to the window. */
  function Evaluation(registrar: seq<RouteHandler>, s: ContextState, host: Host): Evaluated
  {
    var found := FirstMatch(registrar, s.path, "", host);
    if found.None? then Evaluated(s, [External(s.url)], [])
    else
      var v := View(s.url, s.path, s.search, found.value.1);
      var r := RunChain(registrar[found.value.0].actions, 0, v, map[], host);
      Evaluated(s.(params := Some(r.params)), [Record(s.path, false)], r.pending)
  }

  /** The evaluation of a context that handler `i` is the first to match. */
  lemma RoutedAt(registrar: seq<RouteHandler>, s: ContextState, host: Host, i: nat, params: Params)
    requires FirstMatch(registrar, s.path, "", host) == Some((i, params))
    ensures i < |registrar|
    ensures var r := RunChain(registrar[i].actions, 0, s.Seen().(params := params), map[], host);
      Evaluation(registrar, s, host) == Evaluated(s.(params := Some(r.params)), [Record(s.path, false)], r.pending)
  {
  }

  /** The registrar of the legacy version: handlers of user callbacks, as `use` builds them. */
  predicate Built(registrar: seq<RouteHandler>)
  {
    forall k :: 0 <= k < |registrar| ==> registrar[k].PathHandler? && CallbacksOnly(registrar[k].actions)
  }

  /** A routed context is pushed onto the history on every evaluation, recorded before or not,
      never as a replacement; and no redirect is ever left pending. */
  lemma AlwaysPushes(registrar: seq<RouteHandler>, s: ContextState, host: Host)
    requires Built(registrar)
    requires FirstMatch(registrar, s.path, "", host).Some?
    ensures var e := Evaluation(registrar, s, host);
      && e.effects == [Record(s.path, false)]
      && e.pending == []
      && e.state.params.Some?
      && Evaluation(registrar, e.state, host).effects == [Record(s.path, false)]
  {
    var found := FirstMatch(registrar, s.path, "", host);
    var v := View(s.url, s.path, s.search, found.value.1);
    NothingPending(registrar[found.value.0].actions, 0, v, map[], host);
  }

  /** The domain plays no part: a context of any domain is routed the same way. */
  lemma DomainIgnored(registrar: seq<RouteHandler>, s: ContextState, domain: Option<string>, host: Host)
    ensures var e := Evaluation(registrar, s, host);
      Evaluation(registrar, s.(domain := domain), host) == e.(state := e.state.(domain := domain))
  {
  }

  /** A route added by `use` is tried after all earlier ones: it routes a path exactly when no
      earlier route matches and its own pattern, compiled the legacy way, does. */
  lemma UseAddsLast(registrar: seq<RouteHandler>, path: string, ids: seq<nat>, str: string, host: Host)
    requires FirstMatch(registrar, str, "", host).None?
    ensures var m := PathMatch(Tokenize(path, Legacy), str);
      FirstMatch(registrar + [NewHandler(path, Callbacks(ids), Legacy)], str, "", host) ==
        if m.Some? then Some((|registrar|, m.value)) else None
  {
    var h := NewHandler(path, Callbacks(ids), Legacy);
    EarlierWins(registrar, [h], str, "", host);
    OnlyHandler(h, str, host);
  }

  /** A table of one handler. */
  lemma OnlyHandler(h: RouteHandler, str: string, host: Host)
    requires h.PathHandler?
    ensures var m := PathMatch(h.tokenized, str);
      FirstMatch([h], str, "", host) == if m.Some? then Some((0, m.value)) else None
  {
    AttemptAt([h], str, "", host, 0);
    assert StartsWith(str, "") && str[0..] == str;
  }

  /** The legacy `ClientRouter`. */
  class ClientRouter {
    var registrar: seq<RouteHandler>
    /** What the router did to the window, in order: history entries and navigations. */
    var effects: seq<Effect>

    predicate Valid()
      reads this
    {
      Built(registrar)
    }

    constructor ()
      ensures Valid() && registrar == [] && effects == []
    {
      registrar, effects := [], [];
    }

    /** `use(path, ...ids)`: one handler for the pattern as written, with the callbacks as its
        actions; no expansion of optional or derived sections. */
    method Use(path: string, ids: seq<nat>)
      requires Valid()
      modifies this`registrar
      ensures Valid()
      ensures registrar == old(registrar) + [NewHandler(path, Callbacks(ids), Legacy)]
    {
      registrar := registrar + [NewHandler(path, Callbacks(ids), Legacy)];
    }

    /** `evalute(ctx)`. */
    method Evaluate(ctx: Context, host: Host)
      modifies this`effects, ctx`params
      ensures var e := Evaluation(registrar, old(ctx.State()), host);
        ctx.State() == e.state && effects == old(effects) + e.effects
    {
      ghost var s := ctx.State();
      ghost var rs := Attempts(registrar, ctx.path, "", host);
      var i := 0;
      while i < |registrar|
        invariant 0 <= i <= |registrar|
        invariant FirstSome(rs, i) == FirstMatch(registrar, s.path, "", host)
        invariant ctx.State() == s
        invariant effects == old(effects)
        decreases |registrar| - i
      {
        var matched := Matches(registrar[i], ctx, "", host);
        AttemptAt(registrar, ctx.path, "", host, i);
        if matched {
          ghost var params := HandlerMatch(registrar[i], s.path, "", host).value;
          assert FirstMatch(registrar, s.path, "", host) == Some((i, params));
          RoutedAt(registrar, s, host, i, params);
          Route(ctx, i, host, s, params);
          return;
        }
        i := i + 1;
      }
      effects := effects + [External(ctx.url)];
    }

    /** The matched branch of `evalute`: the route's actions run on the bound parameters, and
        the context is pushed onto the history. */
    method Route(ctx: Context, i: nat, host: Host, ghost s: ContextState, ghost params: Params)
      requires i < |registrar| && ctx.State() == s.(params := Some(params))
      modifies this`effects, ctx`params
      ensures var f := RunChain(registrar[i].actions, 0, s.Seen().(params := params), map[], host);
        ctx.State() == s.(params := Some(f.params)) && effects == old(effects) + [Record(s.path, false)]
    {
      assert ctx.Snapshot() == s.Seen().(params := params);
      var pending := FireActions(ctx, registrar[i].actions, map[], host);
      PushState(ctx);
    }

    /** `pushState(ctx)`: always a new history entry for the context's path. */
    method PushState(ctx: Context)
      modifies this`effects
      ensures effects == old(effects) + [Record(ctx.path, false)]
    {
      effects := effects + [Record(ctx.path, false)];
    }
  }
}
