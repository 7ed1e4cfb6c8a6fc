/** Middleware chains: the actions a route (or the router's global middleware) runs, the `next`
    cursor that advances through them, and the redirect actions that derived segments register.
    Host code (user callbacks, derived-subpath resolvers, route regular expressions) is a
    parameter: a `Host` value of functions keyed by callback number. */
module Chain {
  import opened Text
  import opened Navigation

  /** What a user callback does when it runs: the parameters it leaves on the context, and
      whether it calls `next` (once, as its last act). */
  datatype Step = Step(params: Params, next: bool)

  /** The host code the router calls: callbacks, resolvers of derived subpaths, and the
      `test` of routes given as regular expressions. */
  datatype Host = Host(callback: (nat, View) -> Step, resolve: (nat, View) -> string, test: (nat, string) -> bool)

  /** The resolver registered under each derived-subpath name (`subPaths[name]`). */
  type Resolvers = map<string, nat>

  /** An entry of an action list: a user callback, or one of the two redirect actions that a
      `$:name` segment registers (lines 241-249 and 257-276 of the current version). */
  datatype Action =
    | Callback(id: nat)
    | ForwardBefore(name: string)
    | ForwardSections(before: string, name: string, after: seq<string>)

  /** The settled outcome of an asynchronous redirect action: a redirect to a target, or a
      rejection because no resolver was registered under a name. */
  datatype Deferred = Redirect(url: string) | Rejected(name: string)

  /** What the router does to the window: a history entry (`pushState`, or `replaceState` when
      `replace`), or a full navigation (`location = url`). */
  datatype Effect = Record(path: string, replace: bool) | External(url: string)

  // ---------------------------------------------------------------------------
  // Forward paths of the derived-segment redirects

  /** `(search) ? '?' + search : ''`. */
  function Query(search: string): string
  {
    if search == "" then "" else "?" + search
  }

  /** The target of the redirect registered for the route up to the derived segment: the
      current path without one trailing `/`, then `/`, the resolved value and the query. */
  function BeforeTarget(path: string, resolved: string, search: string): string
  {
    DropTrailingSlash(path) + "/" + resolved + Query(search)
  }

  /** A later section is a placeholder when it holds a `:`; it is derived when that first `:` is
      preceded by `$` (the first match of `/[$]?:/`). */
  predicate IsDerivedSection(s: string)
  {
    var i := IndexOf(s, ':');
    0 < i < |s| && s[i - 1] == '$'
  }

  /** The placeholder's name: the section with its first `$:` (derived) or first `:` removed,
      cut at the first `(`. */
  function SectionName(s: string): (name: string)
    requires ':' in s
    ensures '(' !in name
  {
    var i := IndexOf(s, ':');
    var removed := if IsDerivedSection(s) then s[..i - 1] + s[i + 1..] else s[..i] + s[i + 1..];
    Split(removed, '(')[0]
  }

  /** The value a later section contributes, or the name of a missing resolver. */
  datatype Resolution = Resolved(value: string) | Missing(name: string)

  /** A literal section stays; a derived one is resolved (missing resolver: failure); a `:name`
      one becomes the bound parameter when that is a non-empty string, else stays as written. */
  function ResolveSection(s: string, v: View, resolvers: Resolvers, host: Host): (r: Resolution)
    ensures ':' !in s ==> r == Resolved(s)
    ensures r.Missing? <==> ':' in s && IsDerivedSection(s) && SectionName(s) !in resolvers
    ensures ':' in s && IsDerivedSection(s) && SectionName(s) in resolvers ==>
      r == Resolved(host.resolve(resolvers[SectionName(s)], v))
    ensures ':' in s && !IsDerivedSection(s) ==>
      var name := SectionName(s);
      r == Resolved(if name in v.params && v.params[name] != "" then v.params[name] else s)
  {
    if ':' !in s then Resolved(s)
    else
      var name := SectionName(s);
      if IsDerivedSection(s) then
        if name in resolvers then Resolved(host.resolve(resolvers[name], v)) else Missing(name)
      else if name in v.params && v.params[name] != "" then Resolved(v.params[name])
      else Resolved(s)
  }

  /** The values of all later sections in order (`Promise.all` over the `map`), or the first
      missing resolver, which aborts the `map`. */
  datatype Resolutions = AllResolved(values: seq<string>) | Failed(name: string)

  function ResolveSections(after: seq<string>, v: View, resolvers: Resolvers, host: Host): Resolutions
  {
    if |after| == 0 then AllResolved([])
    else
      match ResolveSection(after[0], v, resolvers, host)
      case Missing(n) => Failed(n)
      case Resolved(x) =>
        var rest := ResolveSections(after[1..], v, resolvers, host);
        if rest.Failed? then rest else AllResolved([x] + rest.values)
  }

  /** When all later sections resolve, the values are the sections' own values, in order, and
      none of them names a missing resolver. */
  lemma {:induction false} ResolvedValues(after: seq<string>, v: View, resolvers: Resolvers, host: Host)
    requires ResolveSections(after, v, resolvers, host).AllResolved?
    ensures var values := ResolveSections(after, v, resolvers, host).values;
      && |values| == |after|
      && forall k :: 0 <= k < |after| ==>
           ResolveSection(after[k], v, resolvers, host) == Resolved(values[k])
  {
    if |after| > 0 {
      var values := ResolveSections(after, v, resolvers, host).values;
      var rest := ResolveSections(after[1..], v, resolvers, host).values;
      ResolvedCons(after, v, resolvers, host);
      ResolvedValues(after[1..], v, resolvers, host);
      forall k | 1 <= k < |after|
        ensures ResolveSection(after[k], v, resolvers, host) == Resolved(values[k])
      {
        assert after[k] == after[1..][k - 1] && values[k] == rest[k - 1];
      }
    }
  }

  /** One step of `ResolveSections` that resolves. */
  lemma ResolvedCons(after: seq<string>, v: View, resolvers: Resolvers, host: Host)
    requires |after| > 0 && ResolveSections(after, v, resolvers, host).AllResolved?
    ensures var r := ResolveSection(after[0], v, resolvers, host);
      var rest := ResolveSections(after[1..], v, resolvers, host);
      && r.Resolved? && rest.AllResolved?
      && ResolveSections(after, v, resolvers, host).values == [r.value] + rest.values
  {
  }

  /** A failure names a later section whose resolver is missing; so the sections fail to
      resolve exactly when one of them names a missing resolver. */
  lemma {:induction false} FailedName(after: seq<string>, v: View, resolvers: Resolvers, host: Host)
    requires ResolveSections(after, v, resolvers, host).Failed?
    ensures exists k ::
      (0 <= k < |after| &&
       ResolveSection(after[k], v, resolvers, host) == Missing(ResolveSections(after, v, resolvers, host).name))
  {
    var name := ResolveSections(after, v, resolvers, host).name;
    if ResolveSection(after[0], v, resolvers, host).Resolved? {
      FailedName(after[1..], v, resolvers, host);
      var k :| 0 <= k < |after[1..]| && ResolveSection(after[1..][k], v, resolvers, host) == Missing(name);
      assert after[1..][k] == after[k + 1];
    }
  }

  /** The target of the redirect registered for the route with the derived section removed:
      `before`, the resolved value and the later sections, joined by `/`, and the query. */
  function SectionsTarget(before: string, resolved: string, values: seq<string>, search: string): string
  {
    Join([before, resolved] + values, '/') + Query(search)
  }

  /** A plain `:name` section resolves to the parameter of that name when it is bound to a
      non-empty string, and stays as written otherwise. */
  lemma ParamSectionResolves(name: string, v: View, resolvers: Resolvers, host: Host)
    requires '(' !in name
    ensures ResolveSection(":" + name, v, resolvers, host) ==
      Resolved(if name in v.params && v.params[name] != "" then v.params[name] else ":" + name)
  {
    var s := ":" + name;
    assert IndexOf(s, ':') == 0 && !IsDerivedSection(s);
    assert s[..0] + s[1..] == name;
    SplitNone(name, '(');
  }

  // ---------------------------------------------------------------------------
  // One action, and the chain

  /** What running one action produces: its step and the redirects it leaves pending. */
  datatype Outcome = Outcome(step: Step, deferred: seq<Deferred>)

  /** What a redirect action leaves pending when it runs: the redirect to its forward path, or
      the rejection for the first name without a resolver. */
  function Forward(a: Action, v: View, resolvers: Resolvers, host: Host): Deferred
    requires !a.Callback?
  {
    match a
    case ForwardBefore(name) =>
      if name in resolvers
      then Redirect(BeforeTarget(v.path, host.resolve(resolvers[name], v), v.search))
      else Rejected(name)
    case ForwardSections(before, name, after) =>
      if name !in resolvers then Rejected(name)
      else
        var resolved := host.resolve(resolvers[name], v);
        match ResolveSections(after, v, resolvers, host)
        case Failed(n) => Rejected(n)
        case AllResolved(values) => Redirect(SectionsTarget(before, resolved, values, v.search))
  }

  /** The redirect registered for the route with the derived section removed: rejected for a
      missing resolver of the derived name or of a later derived section; otherwise a redirect
      to `before`, the resolved value and the values of the later sections, in order. */
  lemma ForwardSectionsOutcome(before: string, name: string, after: seq<string>, v: View, resolvers: Resolvers, host: Host)
    ensures var f := Forward(ForwardSections(before, name, after), v, resolvers, host);
      var rs := ResolveSections(after, v, resolvers, host);
      && (name !in resolvers ==> f == Rejected(name))
      && (name in resolvers && rs.Failed? ==>
            f.Rejected? && exists k :: 0 <= k < |after| && ResolveSection(after[k], v, resolvers, host) == Missing(f.name))
      && (name in resolvers && rs.AllResolved? ==>
            && f == Redirect(SectionsTarget(before, host.resolve(resolvers[name], v), rs.values, v.search))
            && |rs.values| == |after|
            && forall k :: 0 <= k < |after| ==> ResolveSection(after[k], v, resolvers, host) == Resolved(rs.values[k]))
  {
    var rs := ResolveSections(after, v, resolvers, host);
    if name in resolvers {
      if rs.Failed? {
        FailedName(after, v, resolvers, host);
      } else {
        ResolvedValues(after, v, resolvers, host);
      }
    }
  }

  /** For the route `b/$:n/:r`, the redirect registered for `b/:r` forwards a context whose
      parameter `r` is a non-empty `seg` to `b`, the resolved value, then `seg`, with the query. */
  lemma DerivedForward(b: string, n: string, r: string, seg: string, v: View, resolvers: Resolvers, host: Host)
    requires '(' !in r && n in resolvers
    requires r in v.params && v.params[r] == seg && seg != ""
    ensures Forward(ForwardSections(b, n, [":" + r]), v, resolvers, host) ==
      Redirect(b + "/" + host.resolve(resolvers[n], v) + "/" + seg + Query(v.search))
  {
    var x := host.resolve(resolvers[n], v);
    var after := [":" + r];
    assert ResolveSections(after, v, resolvers, host) == AllResolved([seg]) by {
      ParamSectionResolves(r, v, resolvers, host);
      assert after[1..] == [];
    }
    ThreeJoined(b, x, seg);
  }

  /** Three sections joined with `/`. */
  lemma ThreeJoined(a: string, b: string, c: string)
    ensures Join([a, b] + [c], '/') == a + "/" + b + "/" + c
  {
    assert [a, b] + [c] == [a] + [b, c];
    JoinCons(a, [b, c], '/');
    JoinCons(b, [c], '/');
  }

  /** Runs one action against the context it sees. A callback is the host's; a redirect action
      never calls `next` and leaves one pending redirect or rejection. */
  function Perform(a: Action, v: View, resolvers: Resolvers, host: Host): Outcome
  {
    if a.Callback? then Outcome(host.callback(a.id, v), [])
    else Outcome(Step(v.params, false), [Forward(a, v, resolvers, host)])
  }

  /** The result of a chain: the parameters left on the context, the context each action saw
      (one entry per action that ran), and the redirects left pending. */
  datatype Fired = Fired(params: Params, trace: seq<View>, pending: seq<Deferred>)

  /** `fireActions` from cursor position `i`: run action `i`; go on to `i + 1` only when it
      called `next`. */
  function RunChain(actions: seq<Action>, i: nat, v: View, resolvers: Resolvers, host: Host): (f: Fired)
    requires i <= |actions|
    ensures i + |f.trace| <= |actions|
    ensures i < |actions| <==> |f.trace| > 0
    ensures |f.trace| > 0 ==> f.trace[0] == v
    ensures |f.trace| == 0 ==> f.params == v.params
    decreases |actions| - i
  {
    if i == |actions| then Fired(v.params, [], [])
    else
      var o := Perform(actions[i], v, resolvers, host);
      if o.step.next then
        var rest := RunChain(actions, i + 1, v.(params := o.step.params), resolvers, host);
        Fired(rest.params, [v] + rest.trace, o.deferred + rest.pending)
      else Fired(o.step.params, [v], o.deferred)
  }

  /** The redirects the actions `i, i + 1, ...` left when they saw the contexts in `trace`. */
  function Collected(actions: seq<Action>, i: nat, trace: seq<View>, resolvers: Resolvers, host: Host): seq<Deferred>
    requires i + |trace| <= |actions|
    decreases |trace|
  {
    if |trace| == 0 then []
    else Perform(actions[i], trace[0], resolvers, host).deferred + Collected(actions, i + 1, trace[1..], resolvers, host)
  }

  /** The step taken by the `j`-th action that ran. */
  function StepAt(actions: seq<Action>, i: nat, f: Fired, j: nat, resolvers: Resolvers, host: Host): Step
    requires i + |f.trace| <= |actions| && j < |f.trace|
  {
    Perform(actions[i + j], f.trace[j], resolvers, host).step
  }

  /** One cursor step of `RunChain`, as the loop of `FireActions` takes it. */
  lemma ChainStep(actions: seq<Action>, i: nat, v: View, resolvers: Resolvers, host: Host)
    requires i < |actions|
    ensures var o := Perform(actions[i], v, resolvers, host);
      var f := RunChain(actions, i, v, resolvers, host);
      var rest := RunChain(actions, i + 1, v.(params := o.step.params), resolvers, host);
      if o.step.next then f == Fired(rest.params, [v] + rest.trace, o.deferred + rest.pending)
      else f == Fired(o.step.params, [v], o.deferred)
  {
  }

  /** An action runs only because its predecessor called `next`, and it sees the parameters its
      predecessor left. */
  lemma {:induction false} ChainFlow(actions: seq<Action>, i: nat, v: View, resolvers: Resolvers, host: Host)
    requires i <= |actions|
    ensures var f := RunChain(actions, i, v, resolvers, host);
      forall j :: 0 <= j < |f.trace| - 1 ==>
        StepAt(actions, i, f, j, resolvers, host).next
        && f.trace[j + 1] == f.trace[j].(params := StepAt(actions, i, f, j, resolvers, host).params)
    decreases |actions| - i
  {
    if i < |actions| {
      var o := Perform(actions[i], v, resolvers, host);
      var f := RunChain(actions, i, v, resolvers, host);
      ChainStep(actions, i, v, resolvers, host);
      if o.step.next {
        var v' := v.(params := o.step.params);
        var rest := RunChain(actions, i + 1, v', resolvers, host);
        ChainFlow(actions, i + 1, v', resolvers, host);
        forall j | 0 <= j < |f.trace| - 1
          ensures StepAt(actions, i, f, j, resolvers, host).next
          ensures f.trace[j + 1] == f.trace[j].(params := StepAt(actions, i, f, j, resolvers, host).params)
        {
          if j > 0 {
            assert f.trace[j] == rest.trace[j - 1] && f.trace[j + 1] == rest.trace[j];
            assert StepAt(actions, i, f, j, resolvers, host) == StepAt(actions, i + 1, rest, j - 1, resolvers, host);
          } else {
            assert f.trace[1] == v';
          }
        }
      }
    }
  }

  /** The `j`-th action of a chain that continued past its first action is the `j - 1`-th of
      the rest of the chain. */
  lemma StepOfRest(actions: seq<Action>, i: nat, v: View, resolvers: Resolvers, host: Host, j: nat)
    requires i < |actions| && Perform(actions[i], v, resolvers, host).step.next
    requires 0 < j < |RunChain(actions, i, v, resolvers, host).trace|
    ensures var o := Perform(actions[i], v, resolvers, host);
      var rest := RunChain(actions, i + 1, v.(params := o.step.params), resolvers, host);
      StepAt(actions, i, RunChain(actions, i, v, resolvers, host), j, resolvers, host)
        == StepAt(actions, i + 1, rest, j - 1, resolvers, host)
  {
    ChainStep(actions, i, v, resolvers, host);
  }

  /** The chain stops at the end of the list or after the first action that does not call
      `next`. */
  lemma {:induction false} ChainHalts(actions: seq<Action>, i: nat, v: View, resolvers: Resolvers, host: Host)
    requires i <= |actions|
    ensures var f := RunChain(actions, i, v, resolvers, host);
      0 < |f.trace| < |actions| - i ==> !StepAt(actions, i, f, |f.trace| - 1, resolvers, host).next
    decreases |actions| - i
  {
    if i < |actions| {
      var o := Perform(actions[i], v, resolvers, host);
      if o.step.next && i + 1 < |actions| {
        ChainHalts(actions, i + 1, v.(params := o.step.params), resolvers, host);
        ContinuedParams(actions, i, v, resolvers, host);
      } else {
        FirstIsLast(actions, i, v, resolvers, host);
      }
    }
  }

  /** The chain leaves the parameters of the last action that ran (the initial ones when none
      ran). */
  lemma {:induction false} ChainParams(actions: seq<Action>, i: nat, v: View, resolvers: Resolvers, host: Host)
    requires i <= |actions|
    ensures var f := RunChain(actions, i, v, resolvers, host);
      |f.trace| > 0 ==> f.params == StepAt(actions, i, f, |f.trace| - 1, resolvers, host).params
    decreases |actions| - i
  {
    if i < |actions| {
      var o := Perform(actions[i], v, resolvers, host);
      if o.step.next && i + 1 < |actions| {
        var v' := v.(params := o.step.params);
        ChainParams(actions, i + 1, v', resolvers, host);
        ContinuedParams(actions, i, v, resolvers, host);
      } else {
        FirstIsLast(actions, i, v, resolvers, host);
      }
    }
  }

  /** When the first action is the last to run, the chain leaves its parameters. */
  lemma FirstIsLast(actions: seq<Action>, i: nat, v: View, resolvers: Resolvers, host: Host)
    requires i < |actions|
    requires !Perform(actions[i], v, resolvers, host).step.next || i + 1 == |actions|
    ensures var f := RunChain(actions, i, v, resolvers, host);
      && |f.trace| == 1 && StepAt(actions, i, f, 0, resolvers, host) == Perform(actions[i], v, resolvers, host).step
      && f.params == StepAt(actions, i, f, 0, resolvers, host).params
  {
    ChainStep(actions, i, v, resolvers, host);
  }

  /** When the first action calls `next`, the chain leaves what the rest of it leaves, and the
      last action to run is the rest's last. */
  lemma ContinuedParams(actions: seq<Action>, i: nat, v: View, resolvers: Resolvers, host: Host)
    requires i + 1 < |actions| && Perform(actions[i], v, resolvers, host).step.next
    ensures var o := Perform(actions[i], v, resolvers, host);
      var f := RunChain(actions, i, v, resolvers, host);
      var rest := RunChain(actions, i + 1, v.(params := o.step.params), resolvers, host);
      && f.params == rest.params && |f.trace| == |rest.trace| + 1 && |rest.trace| > 0
      && StepAt(actions, i, f, |f.trace| - 1, resolvers, host) == StepAt(actions, i + 1, rest, |rest.trace| - 1, resolvers, host)
  {
    ChainStep(actions, i, v, resolvers, host);
    StepOfRest(actions, i, v, resolvers, host, |RunChain(actions, i, v, resolvers, host).trace| - 1);
  }

  /** The pending redirects are those of the actions that ran, in order. */
  lemma {:induction false} ChainPending(actions: seq<Action>, i: nat, v: View, resolvers: Resolvers, host: Host)
    requires i <= |actions|
    ensures RunChain(actions, i, v, resolvers, host).trace == [] ==> RunChain(actions, i, v, resolvers, host).pending == []
    ensures var f := RunChain(actions, i, v, resolvers, host);
      i + |f.trace| <= |actions| && f.pending == Collected(actions, i, f.trace, resolvers, host)
    decreases |actions| - i
  {
    if i < |actions| {
      var o := Perform(actions[i], v, resolvers, host);
      var f := RunChain(actions, i, v, resolvers, host);
      ChainStep(actions, i, v, resolvers, host);
      if o.step.next {
        var v' := v.(params := o.step.params);
        ChainPending(actions, i + 1, v', resolvers, host);
        assert f.trace[1..] == RunChain(actions, i + 1, v', resolvers, host).trace;
      } else {
        assert f.trace[1..] == [];
      }
    }
  }

  /** When the host's callbacks all call `next`, a chain of callbacks runs every action. */
  lemma {:induction false} AllContinue(actions: seq<Action>, i: nat, v: View, resolvers: Resolvers, host: Host)
    requires i <= |actions|
    requires forall k :: i <= k < |actions| ==> actions[k].Callback?
    requires forall id: nat, w: View :: host.callback(id, w).next
    ensures |RunChain(actions, i, v, resolvers, host).trace| == |actions| - i
    ensures RunChain(actions, i, v, resolvers, host).pending == []
    decreases |actions| - i
  {
    if i < |actions| {
      var o := Perform(actions[i], v, resolvers, host);
      assert o.step.next;
      AllContinue(actions, i + 1, v.(params := o.step.params), resolvers, host);
    }
  }

  /** A redirect action ends the chain: nothing after it runs, and it leaves exactly one pending
      redirect or rejection. */
  lemma RedirectEndsChain(actions: seq<Action>, i: nat, v: View, resolvers: Resolvers, host: Host)
    requires i < |actions| && !actions[i].Callback?
    ensures RunChain(actions, i, v, resolvers, host) == Fired(v.params, [v], Perform(actions[i], v, resolvers, host).deferred)
    ensures |RunChain(actions, i, v, resolvers, host).pending| == 1
  {
  }

  /** A redirect to `before`'s target keeps the query string, and its path is the old path
      (without one trailing `/`) extended by the resolved section. */
  lemma ForwardKeepsQuery(path: string, resolved: string, search: string)
    requires '?' !in path && '?' !in resolved && '?' !in search
    requires !Contains(BeforeTarget(path, resolved, search), Scheme)
    ensures Parse(BeforeTarget(path, resolved, search)).path == DropTrailingSlash(path) + "/" + resolved
    ensures Parse(BeforeTarget(path, resolved, search)).search == search
  {
    var p := DropTrailingSlash(path) + "/" + resolved;
    var url := BeforeTarget(path, resolved, search);
    assert url == p + Query(search);
    assert '?' !in p;
    if search == "" {
      assert url == p;
    } else {
      assert url == p + "?" + search;
      SplitQueryOf(p, search);
    }
  }

  /** The chain `f` is what has run so far (its redirects `pending`) followed by the chain
      `rest` that the cursor has yet to run. */
  predicate Resumes(f: Fired, pending: seq<Deferred>, rest: Fired)
  {
    f.params == rest.params && f.pending == pending + rest.pending
  }

  /** One turn of the cursor: the chain is resumed after the action, or it has ended there. */
  lemma ResumeStep(f: Fired, pending: seq<Deferred>, actions: seq<Action>, i: nat, v: View, resolvers: Resolvers, host: Host)
    requires i < |actions| && Resumes(f, pending, RunChain(actions, i, v, resolvers, host))
    ensures var o := Perform(actions[i], v, resolvers, host);
      if o.step.next
      then Resumes(f, pending + o.deferred, RunChain(actions, i + 1, v.(params := o.step.params), resolvers, host))
      else f.params == o.step.params && f.pending == pending + o.deferred
  {
    ChainStep(actions, i, v, resolvers, host);
  }

  /** `fireActions`: the `idx` cursor advances one action per `next` call. The loop is proved to
      compute what `RunChain` specifies, on the context object's parameters. */
  method FireActions(ctx: Context, actions: seq<Action>, resolvers: Resolvers, host: Host) returns (pending: seq<Deferred>)
    modifies ctx`params
    ensures var f := RunChain(actions, 0, old(ctx.Snapshot()), resolvers, host);
      && pending == f.pending
      && ctx.Snapshot() == old(ctx.Snapshot()).(params := f.params)
      && ctx.params == if |f.trace| == 0 then old(ctx.params) else Some(f.params)
  {
    var v := ctx.Snapshot();
    ghost var f := RunChain(actions, 0, v, resolvers, host);
    var idx := 0;
    var going := true;
    pending := [];
    while going && idx < |actions|
      invariant 0 <= idx <= |actions|
      invariant ctx.Snapshot() == v && v == old(ctx.Snapshot()).(params := v.params)
      invariant ctx.params == if idx == 0 then old(ctx.params) else Some(v.params)
      invariant idx == 0 ==> going
      invariant going ==> Resumes(f, pending, RunChain(actions, idx, v, resolvers, host))
      invariant !going ==> f.params == v.params && f.pending == pending
      decreases |actions| - idx
    {
      var o := Perform(actions[idx], v, resolvers, host);
      ResumeStep(f, pending, actions, idx, v, resolvers, host);
      v := v.(params := o.step.params);
      ctx.params := Some(v.params);
      pending := pending + o.deferred;
      going := o.step.next;
      idx := idx + 1;
    }
  }

  /** Only user callbacks, no redirect actions. */
  predicate CallbacksOnly(actions: seq<Action>)
  {
    forall k :: 0 <= k < |actions| ==> actions[k].Callback?
  }

  /** A chain of user callbacks only never leaves a redirect pending. */
  lemma {:induction false} NothingPending(actions: seq<Action>, i: nat, v: View, resolvers: Resolvers, host: Host)
    requires i <= |actions| && CallbacksOnly(actions)
    ensures RunChain(actions, i, v, resolvers, host).pending == []
    decreases |actions| - i
  {
    if i < |actions| {
      var o := Perform(actions[i], v, resolvers, host);
      if o.step.next {
        NothingPending(actions, i + 1, v.(params := o.step.params), resolvers, host);
      }
    }
  }
}
