/** Route handlers and the route table: how a registered route is expanded into the handlers
    that go into the registrar (optional sections, derived `$:` segments), and what `use` does
    with each kind of argument. Shared by the two `dist` versions; the legacy version only
    builds handlers. */
module Routes {
  import opened Text
  import opened Pattern
  import opened Chain

  /** A `RouteHandler`: a path pattern with its compiled `TokenizedPath`, or (current version
      only) a regular expression, known by the number under which the host's `test` judges it. */
  datatype RouteHandler =
    | PathHandler(path: string, tokenized: TokenizedPath, actions: seq<Action>)
    | RegexHandler(regex: nat, actions: seq<Action>)
  {
    predicate Valid()
    {
      PathHandler? ==> tokenized.Valid()
    }
  }

  /** `new RouteHandler(path, actions)`: the two `dist` versions compile the pattern with every
      `$:` read as `:`; the legacy version compiles it as written. */
  function NewHandler(path: string, actions: seq<Action>, d: Dialect): (h: RouteHandler)
    ensures h.PathHandler? && h.Valid() && h.path == path && h.actions == actions
    ensures d == Legacy ==> h.tokenized == Tokenize(path, d)
  {
    PathHandler(path, Tokenize(if d == Legacy then path else ReplaceDollarColons(path), d), actions)
  }

  /** A derived segment compiles like a plain parameter: `pre$:post` is tokenized as `pre:post`
      when neither side holds a `$`. */
  lemma DerivedReadAsParam(pre: string, post: string, actions: seq<Action>, d: Dialect)
    requires d != Legacy && '$' !in pre && '$' !in post
    ensures NewHandler(pre + "$:" + post, actions, d).tokenized == Tokenize(pre + ":" + post, d)
  {
    DollarColonsAround(pre, post);
  }

  /** `ReplaceDollarColons` of `pre + "$:" + post`, when neither side holds a `$`. */
  lemma {:induction false} DollarColonsAround(pre: string, post: string)
    requires '$' !in pre && '$' !in post
    ensures ReplaceDollarColons(pre + "$:" + post) == pre + ":" + post
    decreases |pre|
  {
    if |pre| == 0 {
      DollarColonsFirst(pre, post);
    } else {
      DollarColonsAround(pre[1..], post);
      DollarColonsNext(pre, post);
    }
  }

  lemma DollarColonsFirst(pre: string, post: string)
    requires pre == [] && '$' !in post
    ensures ReplaceDollarColons(pre + "$:" + post) == pre + ":" + post
  {
    DollarColonsHead(post);
    NoDollarUnchanged(post);
    assert pre + "$:" + post == "$:" + post;
    assert pre + ":" + post == ":" + post;
  }

  lemma DollarColonsNext(pre: string, post: string)
    requires |pre| > 0 && pre[0] != '$'
    requires ReplaceDollarColons(pre[1..] + "$:" + post) == pre[1..] + ":" + post
    ensures ReplaceDollarColons(pre + "$:" + post) == pre + ":" + post
  {
    var t := pre[1..] + "$:" + post;
    ConsAround(pre, "$:", post);
    ConsAround(pre, ":", post);
    DollarColonsPlain(pre[0], t);
  }

  /** `pre + mid + post`, with the first element of `pre` taken off the front. */
  lemma ConsAround(pre: string, mid: string, post: string)
    requires |pre| > 0
    ensures pre + mid + post == [pre[0]] + (pre[1..] + mid + post)
  {
    assert pre == [pre[0]] + pre[1..];
  }

  lemma DollarColonsHead(post: string)
    ensures ReplaceDollarColons("$:" + post) == ":" + ReplaceDollarColons(post)
  {
    assert ("$:" + post)[2..] == post;
  }

  lemma DollarColonsPlain(c: char, t: string)
    requires c != '$'
    ensures ReplaceDollarColons([c] + t) == [c] + ReplaceDollarColons(t)
  {
    assert ([c] + t)[1..] == t;
  }

  /** The user's functions, as actions. */
  function Callbacks(ids: seq<nat>): (actions: seq<Action>)
    ensures |actions| == |ids|
    ensures forall k :: 0 <= k < |ids| ==> actions[k] == Callback(ids[k])
  {
    seq(|ids|, k requires 0 <= k < |ids| => Callback(ids[k]))
  }

  // ---------------------------------------------------------------------------
  // Optional sections: `seg?`

  /** `path[path.length - 1] === "?"`. */
  predicate IsOptional(section: string)
  {
    |section| > 0 && section[|section| - 1] == '?'
  }

  /** Some section ends with `?`. */
  predicate HasOptionalSection(sections: seq<string>)
  {
    exists k :: 0 <= k < |sections| && IsOptional(sections[k])
  }

  /** The guard of the optional expansion: some `/`-section of the route is optional. */
  predicate HasOptional(route: string)
  {
    HasOptionalSection(Split(route, '/'))
  }

  /** `part`: the sections that are not optional. */
  function Kept(sections: seq<string>): seq<string>
    decreases |sections|
  {
    if |sections| == 0 then []
    else (if IsOptional(sections[0]) then [] else [sections[0]]) + Kept(sections[1..])
  }

  /** `full`: every section, an optional one without its `?`. */
  function Stripped(sections: seq<string>): seq<string>
    decreases |sections|
  {
    if |sections| == 0 then []
    else
      var s := sections[0];
      [if IsOptional(s) then s[..|s| - 1] else s] + Stripped(sections[1..])
  }

  /** The two routes the optional expansion registers, in order: without the optional sections,
      and with them kept but unmarked. */
  function OptionalSplit(route: string): (string, string)
  {
    var sections := Split(route, '/');
    (Join(Kept(sections), '/'), Join(Stripped(sections), '/'))
  }

  /** The length of the sections, each counted with one separator. */
  function Weight(sections: seq<string>): nat
    decreases |sections|
  {
    if |sections| == 0 then 0 else |sections[0]| + 1 + Weight(sections[1..])
  }

  /** Joining adds one separator between consecutive sections. */
  lemma {:induction false} JoinLength(sections: seq<string>, c: char)
    ensures |Join(sections, c)| + (if |sections| > 0 then 1 else 0) == Weight(sections)
    decreases |sections|
  {
    if |sections| > 1 {
      JoinLength(sections[1..], c);
    }
  }

  /** Dropping the optional sections loses at least two characters per dropped section. */
  lemma {:induction false} KeptWeight(sections: seq<string>)
    ensures Weight(Kept(sections)) <= Weight(sections)
    ensures HasOptionalSection(sections) ==> Weight(Kept(sections)) + 2 <= Weight(sections)
    decreases |sections|
  {
    if |sections| > 0 {
      var rest := sections[1..];
      KeptWeight(rest);
      if !IsOptional(sections[0]) {
        assert Kept(sections) == [sections[0]] + Kept(rest);
        WeightCons(sections[0], Kept(rest));
      } else {
        assert Kept(sections) == Kept(rest);
      }
      if HasOptionalSection(sections) && !IsOptional(sections[0]) {
        var k :| 0 <= k < |sections| && IsOptional(sections[k]);
        assert IsOptional(rest[k - 1]);
      }
    }
  }

  /** One unfolding of `Weight` at a first section. */
  lemma WeightCons(s: string, rest: seq<string>)
    ensures Weight([s] + rest) == |s| + 1 + Weight(rest)
  {
    assert ([s] + rest)[1..] == rest;
  }

  /** Unmarking the optional sections keeps their number and loses one character for each. */
  lemma {:induction false} StrippedWeight(sections: seq<string>)
    ensures |Stripped(sections)| == |sections|
    ensures Weight(Stripped(sections)) <= Weight(sections)
    ensures HasOptionalSection(sections) ==> Weight(Stripped(sections)) + 1 <= Weight(sections)
    decreases |sections|
  {
    if |sections| > 0 {
      var rest := sections[1..];
      var s := sections[0];
      StrippedWeight(rest);
      WeightCons(if IsOptional(s) then s[..|s| - 1] else s, Stripped(rest));
      if HasOptionalSection(sections) && !IsOptional(sections[0]) {
        var k :| 0 <= k < |sections| && IsOptional(sections[k]);
        assert IsOptional(rest[k - 1]);
      }
    }
  }

  /** Both routes of the optional expansion are shorter than the route: the expansion ends. */
  lemma OptionalShrinks(route: string)
    requires HasOptional(route)
    ensures |OptionalSplit(route).0| < |route| && |OptionalSplit(route).1| < |route|
  {
    var sections := Split(route, '/');
    JoinSplit(route, '/');
    JoinLength(sections, '/');
    JoinLength(Kept(sections), '/');
    JoinLength(Stripped(sections), '/');
    KeptWeight(sections);
    StrippedWeight(sections);
  }

  /** Without optional sections, both routes are the route itself. */
  lemma NoOptionalSplit(route: string)
    requires !HasOptional(route)
    ensures OptionalSplit(route) == (route, route)
  {
    var sections := Split(route, '/');
    NothingOptional(sections);
    JoinSplit(route, '/');
  }

  lemma {:induction false} NothingOptional(sections: seq<string>)
    requires !HasOptionalSection(sections)
    ensures Kept(sections) == sections && Stripped(sections) == sections
    decreases |sections|
  {
    if |sections| > 0 {
      var rest := sections[1..];
      assert !HasOptionalSection(rest) by {
        forall k | 0 <= k < |rest| ensures !IsOptional(rest[k]) {
          assert rest[k] == sections[k + 1];
        }
      }
      NothingOptional(rest);
      assert sections == [sections[0]] + rest;
    }
  }

  /** The `forEach` of the optional expansion: each section is pushed onto `full` (an optional
      one without its `?`) and, unless optional, onto `part`; both are then joined. */
  method ExpandOptional(route: string) returns (part: string, full: string)
    ensures (part, full) == OptionalSplit(route)
  {
    var sections := Split(route, '/');
    var kept: seq<string> := [];
    var stripped: seq<string> := [];
    for k := 0 to |sections|
      invariant kept == Kept(sections[..k]) && stripped == Stripped(sections[..k])
    {
      var section := sections[k];
      OptionalStep(sections, k);
      if |section| > 0 && section[|section| - 1] == '?' {
        stripped := stripped + [section[..|section| - 1]];
      } else {
        stripped := stripped + [section];
        kept := kept + [section];
      }
    }
    assert sections[..|sections|] == sections;
    part, full := Join(kept, '/'), Join(stripped, '/');
  }

  /** One more section of the expansion. */
  lemma OptionalStep(sections: seq<string>, k: nat)
    requires k < |sections|
    ensures var s := sections[k];
      && Kept(sections[..k + 1]) == Kept(sections[..k]) + (if IsOptional(s) then [] else [s])
      && Stripped(sections[..k + 1]) == Stripped(sections[..k]) + [if IsOptional(s) then s[..|s| - 1] else s]
  {
    var s := sections[k];
    assert sections[..k + 1] == sections[..k] + [s];
    OptionalSnoc(sections[..k], s);
    assert [s][1..] == [];
  }

  // ---------------------------------------------------------------------------
  // Derived segments: `$:name`

  /** The pieces of a route at its first `$:`: `before` (up to the character preceding the `$`),
      the derived name (the rest up to the next `/`, cut at `(`), the sections after it, and the
      route with that `$:` read as `:`. */
  datatype Derivation = Derivation(before: string, name: string, after: seq<string>, remaining: string)

  function Derive(route: string): (x: Derivation)
    requires Contains(route, "$:")
    ensures |x.remaining| < |route|
  {
    var idx := Find(route, "$:");
    var before := if idx == 0 then "" else route[..idx - 1];
    var sections := Split(route[idx + 2..], '/');
    Derivation(before, Split(sections[0], '(')[0], sections[1..], ReplaceFirst(route, "$:", ":"))
  }

  /** `_registerHandlers`: the handlers a route registers, in the order they are pushed. A regular
      expression registers itself. A route with an optional section registers the expansions of
      its two routes (sharing its actions) and not itself. A route with a `$:` registers the
      redirect for the route up to the segment, the redirects of the remaining `$:` segments,
      the redirect for the route without the segment, then itself unless this is such a
      recursive call. (The guard of the optional expansion is the corrected one; see
      `OptionalStepAsWritten`.) */
  function Registrations(h: RouteHandler, recursive: bool, d: Dialect): seq<RouteHandler>
    decreases if h.PathHandler? then |h.path| else 0
  {
    if h.RegexHandler? then [h]
    else if HasOptional(h.path) then
      OptionalShrinks(h.path);
      var (part, full) := OptionalSplit(h.path);
      Registrations(NewHandler(part, h.actions, d), false, d) + Registrations(NewHandler(full, h.actions, d), false, d)
    else if Contains(h.path, "$:") then
      var x := Derive(h.path);
      [NewHandler(x.before, [ForwardBefore(x.name)], d)]
      + (if Contains(x.remaining, "$:") then Registrations(NewHandler(x.remaining, [], d), true, d) else [])
      + [NewHandler(Join([x.before] + x.after, '/'), [ForwardSections(x.before, x.name, x.after)], d)]
      + (if recursive then [] else [h])
    else if recursive then []
    else [h]
  }

  /** A route with neither an optional section nor a `$:` registers itself, unless this is a
      recursive call. */
  lemma PlainRegistrations(h: RouteHandler, recursive: bool, d: Dialect)
    requires h.PathHandler? && !HasOptional(h.path) && !Contains(h.path, "$:")
    ensures Registrations(h, recursive, d) == if recursive then [] else [h]
  {
  }

  /** Regrouping the pushes of an optional expansion. */
  lemma Regroup2(start: seq<RouteHandler>, a: seq<RouteHandler>, b: seq<RouteHandler>)
    ensures start + a + b == start + (a + b)
  {
  }

  /** Regrouping the pushes of a derived route. */
  lemma Regroup4(start: seq<RouteHandler>, a: seq<RouteHandler>, b: seq<RouteHandler>, c: seq<RouteHandler>, e: seq<RouteHandler>)
    ensures start + a + b + c + e == start + (a + b + c + e)
  {
  }

  /** Outside the optional expansion, a recursive call registers everything but the route
      itself, which a top-level call appends last. */
  lemma RecursiveOmitsSelf(h: RouteHandler, d: Dialect)
    requires h.PathHandler? && !HasOptional(h.path)
    ensures Registrations(h, false, d) == Registrations(h, true, d) + [h]
  {
  }

  /** A route with an optional section registers, in order, the expansion of the route without
      its optional sections, then that of the route with them unmarked, both with its actions;
      it does not register itself. */
  lemma OptionalRegistrations(h: RouteHandler, recursive: bool, d: Dialect)
    requires h.PathHandler? && HasOptional(h.path)
    ensures var (part, full) := OptionalSplit(h.path);
      Registrations(h, recursive, d) ==
        Registrations(NewHandler(part, h.actions, d), false, d) + Registrations(NewHandler(full, h.actions, d), false, d)
  {
  }

  /** `OptionalRegistrations` for the two routes of the expansion, computed in place. */
  lemma OptionalRegistered(h: RouteHandler, recursive: bool, d: Dialect, part: string, full: string)
    requires h.PathHandler? && HasOptional(h.path) && (part, full) == OptionalSplit(h.path)
    ensures Registrations(h, recursive, d) ==
      Registrations(NewHandler(part, h.actions, d), false, d) + Registrations(NewHandler(full, h.actions, d), false, d)
  {
    OptionalRegistrations(h, recursive, d);
  }

  /** The handlers the remaining `$:` segments register. */
  function InnerRegistrations(x: Derivation, d: Dialect): seq<RouteHandler>
  {
    if Contains(x.remaining, "$:") then
      Registrations(NewHandler(x.remaining, [], d), true, d)
    else []
  }

  /** A route with a `$:` and no optional section registers the redirect for `before`, the
      handlers of the remaining `$:` segments, the redirect for the route without the segment,
      and last (at top level) itself. */
  lemma DerivedRegistrations(h: RouteHandler, recursive: bool, d: Dialect)
    requires h.PathHandler? && !HasOptional(h.path) && Contains(h.path, "$:")
    ensures var x := Derive(h.path);
      Registrations(h, recursive, d) ==
        [NewHandler(x.before, [ForwardBefore(x.name)], d)]
        + InnerRegistrations(x, d)
        + [NewHandler(Join([x.before] + x.after, '/'), [ForwardSections(x.before, x.name, x.after)], d)]
        + (if recursive then [] else [h])
  {
  }

  /** No user callback among the actions. */
  predicate RedirectsOnly(actions: seq<Action>)
  {
    forall j :: 0 <= j < |actions| ==> !actions[j].Callback?
  }

  /** Each handler carries `actions` or redirect actions only. */
  predicate Carries(hs: seq<RouteHandler>, actions: seq<Action>)
  {
    forall k :: 0 <= k < |hs| ==> hs[k].actions == actions || RedirectsOnly(hs[k].actions)
  }

  lemma CarriesConcat(xs: seq<RouteHandler>, ys: seq<RouteHandler>, actions: seq<Action>)
    requires Carries(xs, actions) && Carries(ys, actions)
    ensures Carries(xs + ys, actions)
  {
    forall k | 0 <= k < |xs + ys|
      ensures (xs + ys)[k].actions == actions || RedirectsOnly((xs + ys)[k].actions)
    {
      if k >= |xs| { assert (xs + ys)[k] == ys[k - |xs|]; }
    }
  }

  /** A handler with one redirect action carries redirects only. */
  lemma RedirectCarries(path: string, a: Action, d: Dialect, actions: seq<Action>)
    requires !a.Callback?
    ensures Carries([NewHandler(path, [a], d)], actions)
  {
  }

  /** Handlers that carry no actions or redirects only carry redirects only. */
  lemma CarriesNothing(hs: seq<RouteHandler>, actions: seq<Action>)
    requires Carries(hs, [])
    ensures Carries(hs, actions)
  {
  }

  /** Every registered handler carries the route's own actions, or redirect actions only. */
  lemma {:induction false} RegisteredActions(h: RouteHandler, recursive: bool, d: Dialect)
    ensures Carries(Registrations(h, recursive, d), h.actions)
    decreases if h.PathHandler? then |h.path| else 0
  {
    if h.PathHandler? {
      if HasOptional(h.path) {
        OptionalShrinks(h.path);
        var (part, full) := OptionalSplit(h.path);
        RegisteredActions(NewHandler(part, h.actions, d), false, d);
        RegisteredActions(NewHandler(full, h.actions, d), false, d);
        OptionalCarries(h, recursive, d);
      } else if Contains(h.path, "$:") {
        var x := Derive(h.path);
        if Contains(x.remaining, "$:") {
          RegisteredActions(NewHandler(x.remaining, [], d), true, d);
        }
        DerivedCarries(h, recursive, d);
      }
    }
  }

  /** The optional case of `RegisteredActions`, given its two expansions. */
  lemma OptionalCarries(h: RouteHandler, recursive: bool, d: Dialect)
    requires h.PathHandler? && HasOptional(h.path)
    requires Carries(Registrations(NewHandler(OptionalSplit(h.path).0, h.actions, d), false, d), h.actions)
    requires Carries(Registrations(NewHandler(OptionalSplit(h.path).1, h.actions, d), false, d), h.actions)
    ensures Carries(Registrations(h, recursive, d), h.actions)
  {
    var (part, full) := OptionalSplit(h.path);
    OptionalRegistrations(h, recursive, d);
    CarriesConcat(Registrations(NewHandler(part, h.actions, d), false, d),
      Registrations(NewHandler(full, h.actions, d), false, d), h.actions);
  }

  /** The derived case of `RegisteredActions`, given the remaining segments' handlers. */
  lemma DerivedCarries(h: RouteHandler, recursive: bool, d: Dialect)
    requires h.PathHandler? && !HasOptional(h.path) && Contains(h.path, "$:")
    requires Contains(Derive(h.path).remaining, "$:") ==>
      Carries(Registrations(NewHandler(Derive(h.path).remaining, [], d), true, d), [])
    ensures Carries(Registrations(h, recursive, d), h.actions)
  {
    var x := Derive(h.path);
    DerivedRegistrations(h, recursive, d);
    var first := [NewHandler(x.before, [ForwardBefore(x.name)], d)];
    var inner := InnerRegistrations(x, d);
    var second := [NewHandler(Join([x.before] + x.after, '/'), [ForwardSections(x.before, x.name, x.after)], d)];
    var tail: seq<RouteHandler> := if recursive then [] else [h];
    CarriesNothing(inner, h.actions);
    RedirectCarries(x.before, ForwardBefore(x.name), d, h.actions);
    RedirectCarries(Join([x.before] + x.after, '/'), ForwardSections(x.before, x.name, x.after), d, h.actions);
    assert Carries(tail, h.actions);
    CarriesConcat(first, inner, h.actions);
    CarriesConcat(first + inner, second, h.actions);
    CarriesConcat(first + inner + second, tail, h.actions);
  }

  /** Only path handlers: nothing made from a RegExp. */
  predicate PathHandlersOnly(hs: seq<RouteHandler>)
  {
    forall k :: 0 <= k < |hs| ==> hs[k].PathHandler?
  }

  lemma PathsConcat(xs: seq<RouteHandler>, ys: seq<RouteHandler>)
    requires PathHandlersOnly(xs) && PathHandlersOnly(ys)
    ensures PathHandlersOnly(xs + ys)
  {
    forall k | 0 <= k < |xs + ys| ensures (xs + ys)[k].PathHandler? {
      if k >= |xs| { assert (xs + ys)[k] == ys[k - |xs|]; }
    }
  }

  /** A route registers path handlers only. */
  lemma {:induction false} RegisteredPaths(h: RouteHandler, recursive: bool, d: Dialect)
    requires h.PathHandler?
    ensures PathHandlersOnly(Registrations(h, recursive, d))
    decreases |h.path|
  {
    if HasOptional(h.path) {
      OptionalShrinks(h.path);
      var (part, full) := OptionalSplit(h.path);
      RegisteredPaths(NewHandler(part, h.actions, d), false, d);
      RegisteredPaths(NewHandler(full, h.actions, d), false, d);
      OptionalRegistered(h, recursive, d, part, full);
      PathsConcat(Registrations(NewHandler(part, h.actions, d), false, d), Registrations(NewHandler(full, h.actions, d), false, d));
    } else if Contains(h.path, "$:") {
      var x := Derive(h.path);
      if Contains(x.remaining, "$:") {
        RegisteredPaths(NewHandler(x.remaining, [], d), true, d);
      }
      DerivedPaths(h, recursive, d);
    } else {
      PlainRegistrations(h, recursive, d);
    }
  }

  /** The derived case of `RegisteredPaths`, given the remaining segments' handlers. */
  lemma DerivedPaths(h: RouteHandler, recursive: bool, d: Dialect)
    requires h.PathHandler? && !HasOptional(h.path) && Contains(h.path, "$:")
    requires Contains(Derive(h.path).remaining, "$:") ==>
      PathHandlersOnly(Registrations(NewHandler(Derive(h.path).remaining, [], d), true, d))
    ensures PathHandlersOnly(Registrations(h, recursive, d))
  {
    var x := Derive(h.path);
    DerivedRegistrations(h, recursive, d);
    var first := [NewHandler(x.before, [ForwardBefore(x.name)], d)];
    var inner := InnerRegistrations(x, d);
    var second := [NewHandler(Join([x.before] + x.after, '/'), [ForwardSections(x.before, x.name, x.after)], d)];
    var tail: seq<RouteHandler> := if recursive then [] else [h];
    assert PathHandlersOnly(first) && PathHandlersOnly(second) && PathHandlersOnly(tail) && PathHandlersOnly(inner);
    PathsConcat(first, inner);
    PathsConcat(first + inner, second);
    PathsConcat(first + inner + second, tail);
  }

  /** A route without `?` has no optional section. */
  lemma NoQuestionNoOptional(route: string)
    requires '?' !in route
    ensures !HasOptional(route)
  {
    SplitPiecesAvoid(route, '/', '?');
  }

  /** The route `b/$:n/a1/.../ak`, with one derived segment `n` and no `?`, registers the redirect
      for `b`, the redirect for `b/a1/.../ak`, then (at top level) itself. */
  lemma DerivedOne(b: string, n: string, after: seq<string>, actions: seq<Action>, recursive: bool, d: Dialect)
    requires '$' !in b && '?' !in b
    requires '$' !in n && '?' !in n && '/' !in n && '(' !in n
    requires forall k :: 0 <= k < |after| ==> '$' !in after[k] && '?' !in after[k] && '/' !in after[k]
    ensures var route := b + "/$:" + Join([n] + after, '/');
      Registrations(NewHandler(route, actions, d), recursive, d) ==
        [NewHandler(b, [ForwardBefore(n)], d),
         NewHandler(Join([b] + after, '/'), [ForwardSections(b, n, after)], d)]
        + (if recursive then [] else [NewHandler(route, actions, d)])
  {
    var rest := Join([n] + after, '/');
    var route := b + "/$:" + rest;
    var h := NewHandler(route, actions, d);
    DeriveOne(b, n, after);
    var x := Derive(route);
    assert InnerRegistrations(x, d) == [];
    DerivedRegistrations(h, recursive, d);
    var first := NewHandler(b, [ForwardBefore(n)], d);
    var second := NewHandler(Join([b] + after, '/'), [ForwardSections(b, n, after)], d);
    var tail: seq<RouteHandler> := if recursive then [] else [h];
    PairThenTail(Registrations(h, recursive, d), first, second, tail);
  }

  lemma PairThenTail(r: seq<RouteHandler>, first: RouteHandler, second: RouteHandler, tail: seq<RouteHandler>)
    requires r == [first] + [] + [second] + tail
    ensures r == [first, second] + tail
  {
  }

  /** A handler of a route without `$` compiles the route as it stands. */
  lemma PlainTokens(path: string, actions: seq<Action>, d: Dialect)
    requires '$' !in path
    ensures NewHandler(path, actions, d).tokenized == Tokenize(path, d)
  {
    NoDollarUnchanged(path);
  }

  /** The route `b/$:n/:r` registers the redirect for `b`, the redirect for `b/:r`, then
      itself. */
  lemma DerivedParamRoute(b: string, n: string, r: string, actions: seq<Action>, d: Dialect)
    requires '$' !in b && '?' !in b
    requires '$' !in n && '?' !in n && '/' !in n && '(' !in n
    requires '$' !in r && '?' !in r && '/' !in r
    ensures Registrations(NewHandler(b + "/$:" + n + "/:" + r, actions, d), false, d) ==
      [NewHandler(b, [ForwardBefore(n)], d),
       NewHandler(b + "/" + (":" + r), [ForwardSections(b, n, [":" + r])], d),
       NewHandler(b + "/$:" + n + "/:" + r, actions, d)]
  {
    var after := [":" + r];
    assert '$' !in after[0] && '?' !in after[0] && '/' !in after[0];
    DerivedOne(b, n, after, actions, false, d);
    JoinCons(n, after, '/');
    JoinCons(b, after, '/');
    DerivedParamText(b, n, r);
  }

  /** The route `b/$:n/:r` is compiled as `b/:n/:r`. */
  lemma DerivedParamTokens(b: string, n: string, r: string, actions: seq<Action>, d: Dialect)
    requires d != Legacy && '$' !in b && '$' !in n && '$' !in r
    ensures NewHandler(b + "/$:" + n + "/:" + r, actions, d).tokenized == Tokenize(b + "/" + (":" + n) + "/" + (":" + r), d)
  {
    var post := n + "/:" + r;
    assert '$' !in post;
    DerivedReadAsParam(b + "/", post, actions, d);
    DerivedParamText(b, n, r);
  }

  /** The spellings of `b/$:n/:r` and of its compiled form. */
  lemma DerivedParamText(b: string, n: string, r: string)
    ensures b + "/$:" + (n + ['/'] + (":" + r)) == b + "/$:" + n + "/:" + r
    ensures (b + "/") + "$:" + (n + "/:" + r) == b + "/$:" + n + "/:" + r
    ensures (b + "/") + ":" + (n + "/:" + r) == b + "/" + (":" + n) + "/" + (":" + r)
    ensures b + ['/'] + (":" + r) == b + "/" + (":" + r)
  {
  }

  /** What `Derive` cuts out of `b/$:n/a1/.../ak`. */
  lemma DeriveOne(b: string, n: string, after: seq<string>)
    requires '$' !in b && '?' !in b
    requires '$' !in n && '?' !in n && '/' !in n && '(' !in n
    requires forall k :: 0 <= k < |after| ==> '$' !in after[k] && '?' !in after[k] && '/' !in after[k]
    ensures var route := b + "/$:" + Join([n] + after, '/');
      && !HasOptional(route) && Contains(route, "$:")
      && Derive(route) == Derivation(b, n, after, b + "/:" + Join([n] + after, '/'))
      && !Contains(Derive(route).remaining, "$:")
  {
    var rest := Join([n] + after, '/');
    var route := b + "/$:" + rest;
    SectionsAvoid(n, after);
    DeriveAt(b, rest);
    SplitJoin([n] + after, '/');
    SplitNone(n, '(');
    SeparatorLiterals();
    NotInJoined(b, "/$:", rest, '?');
    NoQuestionNoOptional(route);
    NotInJoined(b, "/:", rest, '$');
    AbsentHead(b + "/:" + rest, "$:");
  }

  lemma SeparatorLiterals()
    ensures '?' !in "/$:" && '$' !in "/:" && '?' !in "/" && '$' !in "/"
  {
  }

  lemma NotInJoined(x: string, y: string, z: string, c: char)
    requires c !in x && c !in y && c !in z
    ensures c !in x + y + z
  {
  }

  /** `Derive` on `b/$:rest` when `b` holds no `$`. */
  lemma DeriveAt(b: string, rest: string)
    requires '$' !in b
    ensures Contains(b + "/$:" + rest, "$:")
    ensures var sections := Split(rest, '/');
      Derive(b + "/$:" + rest) == Derivation(b, Split(sections[0], '(')[0], sections[1..], b + "/:" + rest)
  {
    var route := b + "/$:" + rest;
    DerivedAt(b, rest);
    var idx := Find(route, "$:");
    assert idx == |b| + 1 && idx != 0;
    assert route[..idx - 1] == b;
    assert route[idx + 2..] == rest;
  }

  /** The derived name and the later sections hold no `$`, `?` or `/`, and neither does their
      join, apart from its separators. */
  lemma SectionsAvoid(n: string, after: seq<string>)
    requires '$' !in n && '?' !in n && '/' !in n
    requires forall k :: 0 <= k < |after| ==> '$' !in after[k] && '?' !in after[k] && '/' !in after[k]
    ensures forall k :: 0 <= k < |[n] + after| ==> '$' !in ([n] + after)[k] && '?' !in ([n] + after)[k] && '/' !in ([n] + after)[k]
    ensures '$' !in Join([n] + after, '/') && '?' !in Join([n] + after, '/')
  {
    var parts := [n] + after;
    forall k | 0 <= k < |parts| ensures '$' !in parts[k] && '?' !in parts[k] && '/' !in parts[k] {
      if k > 0 { assert parts[k] == after[k - 1]; }
    }
    JoinAvoid(parts, '/', '$');
    JoinAvoid(parts, '/', '?');
  }

  /** Where the first `$:` of `b/$:rest` is, and what `Derive` cuts around it. */
  lemma DerivedAt(b: string, rest: string)
    requires '$' !in b
    ensures var route := b + "/$:" + rest;
      && Contains(route, "$:") && Find(route, "$:") == |b| + 1
      && route[..|b|] == b && route[|b| + 3..] == rest
      && ReplaceFirst(route, "$:", ":") == b + "/:" + rest
  {
    var route := b + "/$:" + rest;
    assert OccursAt(route, "$:", |b| + 1);
    forall j: nat | j < |b| + 1 ensures !OccursAt(route, "$:", j) {
      assert route[j] != '$';
    }
    FindAt(route, "$:", |b| + 1);
    assert route[..|b| + 1] + ":" + route[|b| + 3..] == b + "/:" + rest;
  }

  /** `Kept` and `Stripped` section by section. */
  lemma {:induction false} OptionalSnoc(sections: seq<string>, last: string)
    ensures Kept(sections + [last]) == Kept(sections) + Kept([last])
    ensures Stripped(sections + [last]) == Stripped(sections) + Stripped([last])
    decreases |sections|
  {
    if |sections| > 0 {
      assert (sections + [last])[1..] == sections[1..] + [last];
      OptionalSnoc(sections[1..], last);
    } else {
      assert sections + [last] == [last];
    }
  }

  /** A route `p/s?` whose only optional section is the last registers `p`, then `p/s`, both with
      its actions (when neither holds a `$`). */
  lemma OptionalLast(p: string, s: string, actions: seq<Action>, recursive: bool, d: Dialect)
    requires '?' !in p && '?' !in s && '/' !in s && '$' !in p && '$' !in s
    ensures Registrations(NewHandler(p + "/" + s + "?", actions, d), recursive, d) ==
      [NewHandler(p, actions, d), NewHandler(p + "/" + s, actions, d)]
  {
    var route := p + "/" + s + "?";
    OptionalLastSplit(p, s);
    OptionalRegistrations(NewHandler(route, actions, d), recursive, d);
    SeparatorLiterals();
    NotInJoined(p, "/", s, '?');
    NotInJoined(p, "/", s, '$');
    Plain(p, actions, d);
    Plain(p + "/" + s, actions, d);
  }

  /** The two routes of `p/s?`. */
  lemma OptionalLastSplit(p: string, s: string)
    requires '?' !in p && '?' !in s && '/' !in s
    ensures HasOptional(p + "/" + s + "?")
    ensures OptionalSplit(p + "/" + s + "?") == (p, p + "/" + s)
  {
    var sections := Split(p, '/');
    var last := s + "?";
    OptionalSections(p, s);
    OptionalSnoc(sections, last);
    NoQuestionNoOptional(p);
    NothingOptional(sections);
    JoinSplit(p, '/');
    JoinSnoc(sections, '/', s);
    assert Stripped([last]) == [s] && Kept([last]) == [];
    var route := p + "/" + s + "?";
    assert Kept(Split(route, '/')) == sections + [];
    assert Stripped(Split(route, '/')) == sections + [s];
    assert Join(sections + [s], '/') == p + "/" + s by {
      assert p + ['/'] + s == p + "/" + s;
    }
    assert sections + [] == sections;
  }

  /** The sections of `p/s?`. */
  lemma OptionalSections(p: string, s: string)
    requires '?' !in s && '/' !in s
    ensures Split(p + "/" + s + "?", '/') == Split(p, '/') + [s + "?"]
    ensures HasOptional(p + "/" + s + "?")
  {
    var last := s + "?";
    assert p + "/" + s + "?" == p + ['/'] + last;
    SlashFree(s);
    SplitConcat(p, '/', last);
    SplitNone(last, '/');
    var sections := Split(p, '/') + [last];
    assert IsOptional(sections[|sections| - 1]);
  }

  lemma SlashFree(s: string)
    requires '/' !in s
    ensures '/' !in s + "?"
  {
  }

  /** A route with no `?` and no `$` registers exactly itself. */
  lemma Plain(route: string, actions: seq<Action>, d: Dialect)
    requires '?' !in route && '$' !in route
    ensures Registrations(NewHandler(route, actions, d), false, d) == [NewHandler(route, actions, d)]
  {
    NoQuestionNoOptional(route);
    AbsentHead(route, "$:");
  }

  /** `/about/:person?` registers `/about`, then `/about/:person`. */
  lemma AboutPerson(actions: seq<Action>, d: Dialect)
    ensures Registrations(NewHandler("/about/:person?", actions, d), false, d) ==
      [NewHandler("/about", actions, d), NewHandler("/about/:person", actions, d)]
  {
    AboutPersonText();
    OptionalLast("/about", ":person", actions, false, d);
  }

  lemma AboutPersonText()
    ensures "/about" + "/" + ":person" + "?" == "/about/:person?"
    ensures "/about" + "/" + ":person" == "/about/:person"
    ensures '?' !in "/about" && '?' !in ":person" && '/' !in ":person" && '$' !in "/about" && '$' !in ":person"
  {
  }

  // ---------------------------------------------------------------------------
  // The guard of the optional expansion as written

  /** The source guards the optional expansion with `route.includes("?")` and then recurses on
      the two routes of `OptionalSplit`: the routes of the recursive calls, or `None` when the
      guard does not fire. */
  function OptionalStepAsWritten(route: string): (r: Option<(string, string)>)
    ensures r.Some? <==> '?' in route
  {
    if '?' in route then Some(OptionalSplit(route)) else None
  }

  /** A `?` that ends no section (inside a constraint, say) makes the as-written expansion call
      itself on the same route: the registration never ends. */
  lemma AsWrittenStalls(route: string)
    requires '?' in route && !HasOptional(route)
    ensures OptionalStepAsWritten(route) == Some((route, route))
  {
    NoOptionalSplit(route);
  }

  /** The route `/color/:c(colou?r)` is such a route. */
  lemma ConstraintQuestionStalls()
    ensures OptionalStepAsWritten("/color/:c(colou?r)") == Some(("/color/:c(colou?r)", "/color/:c(colou?r)"))
  {
    ColorText();
    ThreeSections("color", ":c(colou?r)");
    AsWrittenStalls("/color/:c(colou?r)");
  }

  /** The sections of `/a/c` that are not optional make a route with no optional section. */
  lemma ThreeSections(a: string, c: string)
    requires '/' !in a && '/' !in c && !IsOptional(a) && !IsOptional(c)
    ensures !HasOptional(['/'] + a + ['/'] + c)
  {
    ThreeSplit(a, c);
    var sections := ["", a, c];
    assert forall k :: 0 <= k < 3 ==> !IsOptional(sections[k]);
  }

  lemma ThreeSplit(a: string, c: string)
    requires '/' !in a && '/' !in c
    ensures Split(['/'] + a + ['/'] + c, '/') == ["", a, c]
  {
    var tail := a + ['/'] + c;
    assert ['/'] + a + ['/'] + c == [] + ['/'] + tail;
    SplitCons([], '/', tail);
    SplitCons(a, '/', c);
    SplitNone(c, '/');
  }

  lemma ColorText()
    ensures "/color/:c(colou?r)" == ['/'] + "color" + ['/'] + ":c(colou?r)"
    ensures '/' !in "color" && '/' !in ":c(colou?r)" && !IsOptional("color") && !IsOptional(":c(colou?r)")
    ensures '?' in "/color/:c(colou?r)"
  {
    assert "/color/:c(colou?r)"[15] == '?';
  }

  /** The corrected guard only narrows the as-written one, and where it fires both recursive
      routes are shorter. */
  lemma CorrectedGuard(route: string)
    ensures HasOptional(route) ==> '?' in route
    ensures HasOptional(route) ==>
      |OptionalSplit(route).0| < |route| && |OptionalSplit(route).1| < |route|
  {
    if HasOptional(route) {
      if '?' !in route { NoQuestionNoOptional(route); }
      OptionalShrinks(route);
    }
  }

  // ---------------------------------------------------------------------------
  // `use`

  /** The first argument of `use`. */
  datatype Arg =
    | Subpath(name: string, resolver: nat)                   // a `DerivedSubpath`
    | HandlerArg(path: string, handlerActions: seq<nat>)     // a `RouteHandler` made from a string
    | RegexHandlerArg(regex: nat, handlerActions: seq<nat>)  // a `RouteHandler` made from a RegExp
    | Middleware(callback: nat)                              // a function
    | Items(items: seq<Arg>)                                 // an array
    | PathArg(path: string)                                  // a string
    | RegexArg(regex: nat)                                   // a RegExp
    | Unsupported                                            // anything else

  /** What `use` changes: the registrar, the global middleware and the derived-subpath
      resolvers. */
  datatype Table = Table(registrar: seq<RouteHandler>, globalActions: seq<Action>, subPaths: Resolvers)

  /** The earlier `dist` version cannot make a `RouteHandler` from a RegExp (its constructor
      calls `replace` on the path), so such an argument exists only in the current version. */
  predicate Buildable(arg: Arg, d: Dialect)
    decreases arg
  {
    match arg
    case RegexHandlerArg(_, _) => d == Dragon
    case Items(items) => forall k :: 0 <= k < |items| ==> Buildable(items[k], d)
    case _ => true
  }

  /** `use(arg, ...ids)` in the two `dist` versions. The earlier one has no global middleware and
      no RegExp routes: it ignores a function and a RegExp. */
  function Used(t: Table, arg: Arg, ids: seq<nat>, d: Dialect): Table
    requires d != Legacy && Buildable(arg, d)
    decreases arg, 1, 0
  {
    match arg
    case Subpath(name, r) => t.(subPaths := t.subPaths[name := r])
    case HandlerArg(path, hids) => t.(registrar := t.registrar + Registrations(NewHandler(path, Callbacks(hids), d), false, d))
    case RegexHandlerArg(re, hids) => t.(registrar := t.registrar + Registrations(RegexHandler(re, Callbacks(hids)), false, d))
    case Middleware(cb) => if d == Dragon then t.(globalActions := t.globalActions + [Callback(cb)] + Callbacks(ids)) else t
    case Items(items) => UsedItems(t, arg, 0, ids, d)
    case PathArg(path) => t.(registrar := t.registrar + Registrations(NewHandler(path, Callbacks(ids), d), false, d))
    case RegexArg(re) => if d == Dragon then t.(registrar := t.registrar + Registrations(RegexHandler(re, Callbacks(ids)), false, d)) else t
    case Unsupported => t
  }

  /** The `forEach` over an array argument, from element `k` on. */
  function UsedItems(t: Table, arg: Arg, k: nat, ids: seq<nat>, d: Dialect): Table
    requires d != Legacy && arg.Items? && Buildable(arg, d) && k <= |arg.items|
    decreases arg, 0, |arg.items| - k
  {
    if k == |arg.items| then t
    else UsedItems(Used(t, arg.items[k], ids, d), arg, k + 1, ids, d)
  }

  /** The route table only grows at its end, and so does the global middleware; a resolver once
      registered stays registered. */
  lemma {:induction false} UseAppends(t: Table, arg: Arg, ids: seq<nat>, d: Dialect)
    requires d != Legacy && Buildable(arg, d)
    ensures t.registrar <= Used(t, arg, ids, d).registrar
    ensures t.globalActions <= Used(t, arg, ids, d).globalActions
    ensures t.subPaths.Keys <= Used(t, arg, ids, d).subPaths.Keys
    decreases arg, 1, 0
  {
    if arg.Items? {
      UseItemsAppend(t, arg, 0, ids, d);
    }
  }

  lemma {:induction false} UseItemsAppend(t: Table, arg: Arg, k: nat, ids: seq<nat>, d: Dialect)
    requires d != Legacy && arg.Items? && Buildable(arg, d) && k <= |arg.items|
    ensures t.registrar <= UsedItems(t, arg, k, ids, d).registrar
    ensures t.globalActions <= UsedItems(t, arg, k, ids, d).globalActions
    ensures t.subPaths.Keys <= UsedItems(t, arg, k, ids, d).subPaths.Keys
    decreases arg, 0, |arg.items| - k
  {
    if k < |arg.items| {
      var t' := Used(t, arg.items[k], ids, d);
      UseAppends(t, arg.items[k], ids, d);
      UseItemsAppend(t', arg, k + 1, ids, d);
    }
  }

  /** A `DerivedSubpath` sets (or overwrites) the resolver of its name and changes nothing else. */
  lemma UseSubpath(t: Table, name: string, r: nat, ids: seq<nat>, d: Dialect)
    requires d != Legacy
    ensures var t' := Used(t, Subpath(name, r), ids, d);
      && t'.subPaths[name] == r
      && (forall n :: n in t.subPaths && n != name ==> n in t'.subPaths && t'.subPaths[n] == t.subPaths[n])
      && t'.subPaths.Keys == t.subPaths.Keys + {name}
      && t'.registrar == t.registrar && t'.globalActions == t.globalActions
  {
  }

  /** In the current version a function joins the global middleware, followed by the trailing
      functions; in the earlier one it is ignored, as is a RegExp. */
  lemma UseMiddleware(t: Table, cb: nat, ids: seq<nat>, d: Dialect)
    requires d != Legacy
    ensures d == Dragon ==> Used(t, Middleware(cb), ids, d) == t.(globalActions := t.globalActions + Callbacks([cb] + ids))
    ensures d == DistClient ==> Used(t, Middleware(cb), ids, d) == t && Used(t, RegexArg(cb), ids, d) == t
  {
    assert Callbacks([cb] + ids) == [Callback(cb)] + Callbacks(ids);
  }

  /** An argument of no supported type changes nothing. */
  lemma UseUnsupported(t: Table, ids: seq<nat>, d: Dialect)
    requires d != Legacy
    ensures Used(t, Unsupported, ids, d) == t
  {
  }

  /** A string without `?` or `$` adds exactly one handler, for itself with the trailing
      functions as its actions. */
  lemma UseString(t: Table, path: string, ids: seq<nat>, d: Dialect)
    requires d != Legacy && '?' !in path && '$' !in path
    ensures Used(t, PathArg(path), ids, d) == t.(registrar := t.registrar + [NewHandler(path, Callbacks(ids), d)])
  {
    var h := NewHandler(path, Callbacks(ids), d);
    assert Used(t, PathArg(path), ids, d) == t.(registrar := t.registrar + Registrations(h, false, d));
    Plain(path, Callbacks(ids), d);
  }

  /** In the current version a RegExp adds exactly one handler, with the trailing functions as
      its actions. */
  lemma UseRegex(t: Table, re: nat, ids: seq<nat>)
    ensures Used(t, RegexArg(re), ids, Dragon) == t.(registrar := t.registrar + [RegexHandler(re, Callbacks(ids))])
  {
  }

  /** The elements of an array argument are used one after the other, in order: using the
      concatenation of two arrays is using the first, then the second. */
  lemma {:induction false} UseItemsInOrder(t: Table, xs: seq<Arg>, ys: seq<Arg>, ids: seq<nat>, d: Dialect, k: nat)
    requires d != Legacy && Buildable(Items(xs + ys), d) && k <= |xs|
    ensures Buildable(Items(xs), d) && Buildable(Items(ys), d)
    ensures UsedItems(t, Items(xs + ys), k, ids, d) == UsedItems(UsedItems(t, Items(xs), k, ids, d), Items(ys), 0, ids, d)
    decreases |xs| - k
  {
    BuildableParts(xs, ys, d);
    if k == |xs| {
      UseItemsShift(t, xs, ys, ids, d, 0);
    } else {
      assert (xs + ys)[k] == xs[k];
      UseItemsInOrder(Used(t, xs[k], ids, d), xs, ys, ids, d, k + 1);
    }
  }

  lemma BuildableParts(xs: seq<Arg>, ys: seq<Arg>, d: Dialect)
    requires Buildable(Items(xs + ys), d)
    ensures Buildable(Items(xs), d) && Buildable(Items(ys), d)
  {
    assert forall k :: 0 <= k < |xs| ==> xs[k] == (xs + ys)[k];
    assert forall k :: 0 <= k < |ys| ==> ys[k] == (xs + ys)[|xs| + k];
  }

  /** The second array's part of the `forEach` over a concatenation. */
  lemma {:induction false} UseItemsShift(t: Table, xs: seq<Arg>, ys: seq<Arg>, ids: seq<nat>, d: Dialect, j: nat)
    requires d != Legacy && Buildable(Items(xs + ys), d) && Buildable(Items(ys), d) && j <= |ys|
    ensures UsedItems(t, Items(xs + ys), |xs| + j, ids, d) == UsedItems(t, Items(ys), j, ids, d)
    decreases |ys| - j
  {
    if j < |ys| {
      assert (xs + ys)[|xs| + j] == ys[j];
      UseItemsShift(Used(t, ys[j], ids, d), xs, ys, ids, d, j + 1);
    }
  }

  /** An array of one element is that element. */
  lemma UseSingleItem(t: Table, x: Arg, ids: seq<nat>, d: Dialect)
    requires d != Legacy && Buildable(x, d)
    ensures Buildable(Items([x]), d)
    ensures Used(t, Items([x]), ids, d) == Used(t, x, ids, d)
  {
    assert Buildable(Items([x]), d) by {
      assert forall k :: 0 <= k < 1 ==> [x][k] == x;
    }
    assert UsedItems(Used(t, x, ids, d), Items([x]), 1, ids, d) == Used(t, x, ids, d);
  }
}
