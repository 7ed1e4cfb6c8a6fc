# dragon-router, modelled in Dafny

A model of the client-side route-dispatch engine of dragon-router in its three versions:

- `dist/dragon-router.js`, the current `Router`;
- `dist/client-router.js`, the earlier `dist` `ClientRouter`;
- `client-router.js`, the first `ClientRouter` (here "legacy").

The model covers: parsing a navigation target into a `Context` (protocol, domain, path, query
string, query map); compiling a route pattern into a `TokenizedPath` and matching a candidate
path against it; the `next`-driven action chains of `RouteHandler.fireActions` and
`_fireGlobalActions`; building the route table with `use` and `_registerHandlers`, including the
expansion of optional `seg?` sections and of `$:name` derived segments into redirect routes; and
`evaluate`: the domain check, the scan for the first matching route, the chains, and the
history entry made at most once per context.

What a router does to the window is an output log of effects: `Record(path, replace)` for
`history.pushState` (`replaceState` when `replace`), and `External(url)` for `location = url`.
Host code is a parameter (`Chain.Host`): user callbacks, derived-subpath resolvers, and the
`test` of routes given as regular expressions. A user callback is judged by the parameters it
leaves on the context and by whether it calls `next`.

Modules, one per file:

| file | module | contents |
|---|---|---|
| text.dfy | `Text` | `split`, `join`, `indexOf`, `replace` and friends on strings, with their lemmas |
| navigation.dfy | `Navigation` | URL parsing, the query map, the `Context` class |
| pattern.dfy | `Pattern` | tokens, `TokenizedPath`, matching (per version, `Dialect`) |
| chain.dfy | `Chain` | actions, the `next` chain, the derived-segment redirects |
| routes.dfy | `Routes` | `RouteHandler`, optional and derived expansion, `use` on a route table |
| matching.dfy | `Matching` | base path, handler match, first-match scan, domain test, history recording |
| dragon.dfy | `DragonRouter` | `Router` of the current version |
| client.dfy | `DistClientRouter` | `ClientRouter` of the earlier `dist` version |
| legacy.dfy | `LegacyRouter` | `ClientRouter` of the legacy version |

Each router is a class whose methods update its fields: `registrar`, `globalActions`,
`subPaths` and the effect log. Each method is proved against a function on values:
`Routes.Used` and `Routes.Registrations` for `use` and `_registerHandlers`, and the
`Evaluation` function of each router module for `evaluate`. The context is a class whose
`params`, `basePath` and `isRecordedHistory` fields `evaluate` writes.

Where the code and its description differ, the model follows the code:

- `[a, b] = s.split(x)` keeps in `b` only the text up to a second separator. This applies to
  the text after `://`, to the query string, and to a query pair's value.
- `url.split("://")[1]` with no `/` after the host gives the domain `""`, and the path is
  `substr(-1)`, the last character of the host. `Parse` is total and models this, instead of
  requiring a `/` after the host.
- A path handler removes the base path only when the path starts with it; a path outside the
  base path is matched as it stands (`Matching.OutsideBase`).
- The route's actions run after the global middleware whether or not that middleware called
  `next`. They start from the parameters the middleware left (`DragonRouter.GlobalsDoNotGate`).
- The legacy version spells the method `evalute`; the model calls it `Evaluate`.

## Model

| member | source | states |
|---|---|---|
| Navigation.Parse | dist/dragon-router.js:8-17 | protocol and domain exist iff the URL has `://`; the protocol is the text before it; the domain is the host of the text after it; neither path nor query string holds `?`; both are the split of the location at `?` |
| Navigation.AfterScheme | dist/dragon-router.js:9 | the text after the first `://`, cut at any second `://`, holds no `://` |
| Navigation.SplitQuery | dist/dragon-router.js:16-17 | the path is the text before the first `?`; the query string runs from after it up to the next `?` or the end; without `?` the query string is empty |
| Navigation.SplitQueryOf | dist/dragon-router.js:16-17 | a path and a query string without `?`, joined by `?`, split back into themselves |
| Navigation.DomainIsHost | dist/dragon-router.js:8-12 | with a `/` after the host, the domain is exactly the text between `://` and that first `/`, holds no `/`, and the path starts with `/` |
| Navigation.PlainPath | dist/dragon-router.js:13-17 | a URL without `://` has no protocol and no domain, and its path is the text before its first `?` |
| Navigation.Fresh | dist/dragon-router.js:5-21 | a new context keeps its URL; it has a domain iff the URL has `://`, and then the domain is the host after it; path and query string hold no `?` and are the split of the location at `?`; no params (actions see none), no base path, not recorded |
| Navigation.FreshOfPathAndQuery | dist/dragon-router.js:13-17 | a context built from `p?q`, with no `?` in `p` or `q` and no `://`, has no domain, the path `p` and the query string `q` |
| Navigation.Context.constructor | dist/dragon-router.js:5-21 | the fields are those of `Parse(url)`; params and base path are unset; the history flag is false |
| Navigation.Context.Legacy | client-router.js:5-19 | the legacy context parses the same protocol, path and query string, and records no domain; like the corrected current one, it completes on a query string (see Findings) |
| Navigation.CollectSearchParams | dist/dragon-router.js:23-32 | the `forEach` loop over the `&`-pieces builds exactly `SearchParams(search)` |
| Navigation.AddPairsLookup | dist/dragon-router.js:27-31 | the keys added are exactly those of the pieces holding `=`; the last piece naming a key gives its value; other keys keep their values |
| Navigation.SearchParamsLookup | dist/dragon-router.js:26-32 | a key is in the query map iff some `=`-piece names it, and then it maps to the value of the last such piece |
| Navigation.PairKeysNamed | dist/dragon-router.js:27-31 | a key is a pair key iff some piece holding `=` has it before its first `=` |
| Navigation.EmptySearch | dist/dragon-router.js:24-25 | the empty query string yields the empty map |
| Navigation.ConstructAsWritten | dist/dragon-router.js:33 | the constructor as written throws exactly when the query string is non-empty, and otherwise yields the parsed URL; the same assignment is at dist/client-router.js:33 and client-router.js:31 |
| Navigation.QueryStringThrows | dist/dragon-router.js:33 | `/x?a=1` makes the constructor as written throw |
| Pattern.Classify | dist/dragon-router.js:47-59 | a section is a constrained parameter iff it matches `^:\w+\(.*\)$`, else a parameter iff it matches `^:\w+$`, else (current version) `*` is any-section, else a literal of its own text; a named token's name is a word following the `:` |
| Pattern.Tokenize | dist/dragon-router.js:41-60 | one token per section of the pattern, its leading `/` dropped; each token is that section's classification |
| Pattern.SectionsJoin | dist/dragon-router.js:46 | the sections joined with `/` give back the pattern without its leading `/`, and no section holds a `/` |
| Pattern.MatchSegments | dist/dragon-router.js:77-89 | the segment loop returns the bound parameters when the whole-path test passed or every segment is accepted, and false otherwise |
| Pattern.MatchPath | dist/dragon-router.js:63-90 | `matches(str)` returns exactly `PathMatch`: the bound parameters iff the whole-path test passes or the counts agree and every token accepts its segment |
| Pattern.ExactMatch | dist/dragon-router.js:75-89 | without the whole-path test, a match has one segment per section, every token accepts its segment, and exactly the names of the named tokens are bound |
| Pattern.BindKeys | dist/dragon-router.js:77-89 | the keys of the result are exactly the names bound at positions where a named token accepts the segment |
| Pattern.BindLast | dist/dragon-router.js:78-84 | a name maps to the segment at the last position that binds it |
| Pattern.BoundNamesAccepted | dist/dragon-router.js:78-88 | when every segment is accepted, the bound names are those of the named tokens |
| Pattern.BindNothing | dist/dragon-router.js:81-84 | a pattern without named sections binds the empty map |
| Pattern.LegacyExactArity | client-router.js:58-83 | in the legacy version a match always has one segment per section, and binds what the segment loop binds |
| Pattern.DistClientAgreesWithLegacy | dist/client-router.js:62-89 | the earlier `dist` version compiles the same tokens as the legacy one and agrees with it whenever the whole-path test fails |
| Pattern.TrailingSlashParts | dist/dragon-router.js:66-73 | one trailing `/` on the candidate does not change its segments |
| Pattern.LiteralSelfMatch | dist/dragon-router.js:63-89 | a purely literal pattern matches its own text, and that text with a trailing `/`, binding the empty map, in every version |
| Pattern.WholePathSuffices | dist/dragon-router.js:75-88 | a candidate the whole-path test accepts matches, binding what the accepting positions bind |
| Pattern.StarWithoutParam | dist/dragon-router.js:43-44 | the whole-path test of `p*` with no `:` in `p` is "starts with `p`" |
| Pattern.StarStem | dist/dragon-router.js:43-44 | the whole-path test of `stem*` reads the first `:param` of the stem as anything and appends anything |
| Pattern.WildcardOfFirstParam | dist/dragon-router.js:43-44 | the whole-path test of `pre:name/post*` is: starts with `pre` and contains `/post` after it |
| Pattern.WildcardPrefix | dist/dragon-router.js:43-89 | for `p*` without `:`, any candidate starting with `p` matches, whatever its segment count |
| Pattern.WildcardFirstParam | dist/dragon-router.js:43-89 | for `pre:name/post*`, a candidate starting with `pre` and containing `/post` after it matches |
| Pattern.WildcardElsewhere | dist/dragon-router.js:63-89 | a candidate not starting with `p` matches `p*` iff every segment is accepted with equal counts |
| Pattern.HomeStarCompiled | dist/client-router.js:43-59 | `/home*` compiles to the single literal section `home*` (which, as a regular expression, accepts `hom` followed by any number of `e`) and the whole-path test "starts with `/home`" |
| Pattern.QuantifiedLiteral | dist/dragon-router.js:57-58 | a literal section `stem` + `c*` accepts exactly `stem` followed by any number of copies of `c` |
| Pattern.StarRepeatsLast | dist/dragon-router.js:63-89 | a one-section pattern `/stem c*` matches `/stem` followed by any number of copies of `c`, segment by segment |
| Pattern.HomeStar | client-router.test.js:42-50 | `/home*` matches `/home`, `/homer` and `/home/test` and rejects `/away` |
| Pattern.AwayIsNotHome | client-router.test.js:42-50 | `/away` matches `/home*` neither by the whole-path test nor segment by segment |
| Pattern.HomMatchesHomeStar | dist/dragon-router.js:57-89 | `/hom` and `/hom/` match `/home*` in every version, through the literal section's trailing `*` |
| Pattern.MatchingParamShape | dist/dragon-router.js:96-98 | `:name(expr)` with a word for a name and `expr` ending in `)` is a constrained parameter, split at its first `(` |
| Pattern.ClassifyConstrained | dist/dragon-router.js:48-51 | a constrained section's name is the word before its first `(` and its alternatives come from the text after it |
| Pattern.ConstraintOfTwo | dist/dragon-router.js:48-51 | `:name(a\|b)` compiles to a constraint accepting exactly `a` and `b` |
| Pattern.WordIsLiteral | dist/dragon-router.js:56-58 | a word section compiles to a literal of itself in every version |
| Pattern.LiteralThenConstraint | dist/dragon-router.js:75-89 | a literal followed by a two-way constraint matches a two-segment path iff the first segment is the literal and the second is one of the two alternatives, binding exactly the name to it |
| Pattern.SectionConstraint | client-router.test.js:23-30 | `/pre/:name(a\|b)` matches `/pre/seg` iff `seg` is `a` or `b`, and then binds exactly `name` to it |
| Pattern.ArityRejects | dist/dragon-router.js:75-89 | a pattern not ending in `/` or `*` rejects every candidate whose segment count differs from its section count |
| Pattern.LiteralParam | dist/dragon-router.js:63-89 | `/w/:name` matches `/w/seg` binding exactly `name` to `seg` |
| Pattern.LiteralTwoParams | dist/dragon-router.js:63-89 | `/w/:n/:r` matches `/w/x/seg` binding exactly `n` to `x` and `r` to `seg` |
| Chain.ResolveSection | dist/dragon-router.js:262-271 | a section without `:` stays as it is; a section fails exactly when it is derived (`$:`) and its name has no resolver; a derived section with a resolver becomes the resolver's value; a `:name` section becomes the bound parameter when it is non-empty, and otherwise stays as written |
| Chain.ParamSectionResolves | dist/dragon-router.js:268 | `:name` resolves to the parameter `name` when it is bound and non-empty, and otherwise to `:name` itself |
| Chain.ForwardSectionsOutcome | dist/dragon-router.js:257-276 | the redirect for the route without the segment is rejected when its own resolver is missing, or when a later section's is, naming that section's resolver; otherwise it forwards to `before`, the resolved value and the later sections' values, in order, then the query |
| Chain.DerivedForward | dist/dragon-router.js:257-276 | for `b/$:n/:r` with `r` bound to `seg`, the redirect forwards to `b/`, the value of `n`'s resolver, `/seg` and the query |
| Chain.SectionName | dist/dragon-router.js:264 | the placeholder's name is cut at `(` |
| Chain.ResolvedValues | dist/dragon-router.js:261-272 | when all later sections resolve, there is one value per section, in order, each the section's own resolution |
| Chain.FailedName | dist/dragon-router.js:261-272 | a failure of the later sections names a section whose resolver is missing |
| Chain.RunChain | dist/dragon-router.js:148-155 | the chain runs at most the actions from the cursor on; it runs one iff any remain; the first sees the initial context; with none run the parameters are unchanged |
| Chain.ChainFlow | dist/dragon-router.js:148-155 | actions run strictly in list order; each one after the first runs only because its predecessor called `next`, and sees the parameters that predecessor left |
| Chain.ChainHalts | dist/dragon-router.js:150-153 | the chain stops at the end of the list or right after the first action that does not call `next`, so no action runs twice |
| Chain.ChainParams | dist/dragon-router.js:150-153 | the chain leaves the parameters of the last action that ran, or the initial ones when none ran |
| Chain.ContinuedParams | dist/client-router.js:133-140 | when an action calls `next`, the rest of the chain starts from the parameters it left |
| Chain.ChainPending | dist/dragon-router.js:241-276 | the pending redirects are those of the actions that ran, in order; none when nothing ran |
| Chain.AllContinue | client-router.test.js:52-71 | when every callback calls `next`, a chain of callbacks runs every action and leaves nothing pending |
| Chain.RedirectEndsChain | dist/dragon-router.js:241-249 | a redirect action never calls `next`: it is the last to run and leaves exactly one pending redirect |
| Chain.ForwardKeepsQuery | dist/dragon-router.js:243-246 | the forward path from `before` has the path without its trailing `/`, then `/` and the resolved value, and keeps the query string |
| Chain.FireActions | dist/dragon-router.js:148-155 | the `idx`-cursor loop leaves on the context the parameters of `RunChain` and returns its pending redirects |
| Chain.NothingPending | client-router.js:116-123 | a chain of user callbacks only never leaves a redirect pending |
| Routes.NewHandler | dist/dragon-router.js:117-125 | a handler of a string is a path handler of that path and those actions, compiled as written in the legacy version |
| Routes.DerivedReadAsParam | dist/dragon-router.js:123 | a `pre$:post` route is compiled as `pre:post` when neither side holds a `$` |
| Routes.OptionalShrinks | dist/dragon-router.js:218-231 | both routes of the optional expansion are shorter than the route, so the expansion ends |
| Routes.NoOptionalSplit | dist/dragon-router.js:219-228 | without optional sections, both routes of the expansion are the route itself |
| Routes.ExpandOptional | dist/dragon-router.js:219-228 | the `forEach` over the sections builds `part` (the non-optional sections) and `full` (every section, `?` removed), joined with `/` |
| Routes.Derive | dist/dragon-router.js:236-239 | the route with its first `$:` read as `:` is shorter than the route |
| Routes.PlainRegistrations | dist/dragon-router.js:279 | a route with no optional section and no `$:` registers itself, unless this is a recursive call |
| Routes.RecursiveOmitsSelf | dist/dragon-router.js:253 | outside the optional expansion, a recursive call registers everything but the route itself |
| Routes.OptionalRegistrations | dist/dragon-router.js:230-232 | a route with an optional section registers the expansion of the route without the optional sections, then that of the route with them unmarked, not itself |
| Routes.DerivedRegistrations | dist/dragon-router.js:235-279 | a `$:` route registers, in order, the redirect for `before`, the handlers of the remaining `$:` segments (not their route), the redirect for the route without the segment, then itself unless recursive |
| Routes.RegisteredActions | dist/dragon-router.js:210-280 | every handler a route registers carries the route's own actions, or redirect actions only |
| Routes.RegisteredPaths | dist/dragon-router.js:216-280 | a string route registers path handlers only |
| Routes.DerivedOne | dist/dragon-router.js:235-279 | `b/$:n/a1/.../ak` registers exactly the redirect for `b`, the redirect for `b/a1/.../ak`, then itself |
| Routes.OptionalLast | dist/dragon-router.js:218-232 | `p/s?` with no other `?` or `$` registers `p`, then `p/s`, both with the route's actions |
| Routes.Plain | dist/dragon-router.js:216-279 | a route with no `?` and no `$` registers exactly itself |
| Routes.AboutPerson | client-router.test.js:32-40 | `/about/:person?` registers `/about`, then `/about/:person`, both with the route's actions |
| Routes.PlainTokens | dist/dragon-router.js:117-125 | a route without `$` is compiled as written |
| Routes.DerivedParamRoute | dist/dragon-router.js:235-279 | `b/$:n/:r` registers the redirect for `b`, then the redirect for `b/:r`, then itself |
| Routes.DerivedParamTokens | dist/dragon-router.js:123 | `b/$:n/:r` is compiled as `b/:n/:r` |
| Routes.OptionalStepAsWritten | dist/dragon-router.js:218-232 | the guard as written fires iff the route holds a `?` |
| Routes.AsWrittenStalls | dist/dragon-router.js:218-232 | a `?` that ends no section makes both recursive routes of the guard as written the route itself |
| Routes.ConstraintQuestionStalls | dist/dragon-router.js:218-232 | `/color/:c(colou?r)` is such a route |
| Routes.CorrectedGuard | dist/dragon-router.js:218-232 | the corrected guard fires only where the one as written does, and then both recursive routes are shorter |
| Routes.UseAppends | dist/dragon-router.js:191-208 | `use` only appends to the route table and to the global middleware, and never removes a resolver |
| Routes.UseSubpath | dist/dragon-router.js:192-193 | a `DerivedSubpath` sets or overwrites the resolver of its name and changes nothing else |
| Routes.UseMiddleware | dist/dragon-router.js:196-197 | in the current version a function and the trailing functions are appended to the global middleware; the earlier `dist` version ignores a function or a RegExp |
| Routes.UseUnsupported | dist/dragon-router.js:204-206 | an argument of no supported type changes nothing |
| Routes.UseString | dist/dragon-router.js:202-203 | a string without `?` or `$` adds exactly one handler, for itself with the trailing functions |
| Routes.UseRegex | dist/dragon-router.js:202-203 | a RegExp adds exactly one handler, with the trailing functions |
| Routes.UseItemsInOrder | dist/dragon-router.js:198-201 | the elements of an array are used one after the other, in order |
| Routes.UseSingleItem | dist/dragon-router.js:198-201 | an array of one element is used as that element |
| Matching.NormalBase | dist/dragon-router.js:172-176 | the base path is empty iff the option is missing, `` or `/`; otherwise it is the option |
| Matching.StripBase | dist/dragon-router.js:137 | a path starting with the base loses exactly that prefix; any other path is unchanged |
| Matching.MountedMatch | dist/dragon-router.js:129-140 | a path handler matches `base + p` under `base` as it matches `p` with no base; a RegExp handler tests the whole path |
| Matching.OutsideBase | dist/dragon-router.js:137 | a path outside the base path is matched as it stands |
| Matching.FirstSome | dist/dragon-router.js:341-359 | the scan finds the first position that matches, with its parameters; every earlier position fails; it finds none iff all fail |
| Matching.EarlierWins | dist/dragon-router.js:341-359 | registering more handlers never changes which handler matches first, unless none did; then the first new one that matches is found |
| Matching.MountedFirstMatch | dist/dragon-router.js:137-138 | a table of path handlers under a base path answers `base + p` as the same table with no base answers `p` |
| Matching.UnregisteredRouter | dist/dragon-router.js:339 | a router without a domain accepts exactly the contexts without a domain or with an empty one |
| Matching.RecordOnce | dist/dragon-router.js:364-373 | recording marks the context; a recorded context gets no further entry; at most one entry is made, and none iff it was recorded |
| Matching.Matches | dist/dragon-router.js:128-146 | on a match the context's parameters become the bound ones; otherwise the context is left alone |
| Matching.NoBaseMatch | dist/dragon-router.js:129-140 | with no base path, a path handler matches as its pattern does |
| Matching.FoundAt | dist/dragon-router.js:341-359 | the scan finds a handler that matches after only failures, with its parameters |
| Matching.LiteralRouteHandler | dist/dragon-router.js:63-89 | the handler of `/w` matches `/w` and `/w/` binding nothing, and rejects every path that is not one segment |
| Matching.ParamRouteHandler | dist/dragon-router.js:63-89 | the handler of `/w/:name` matches `/w/seg` binding `name` to `seg`, and rejects every path that is not two segments |
| Matching.DerivedRouteHandler | dist/dragon-router.js:117-125 | the handler of `/w/$:n/:r` matches `/w/x/seg` binding `n` to `x` and `r` to `seg` |
| Matching.OptionalParamTable | dist/dragon-router.js:341-359 | in the table `/w`, `/w/:name`, the paths `/w` and `/w/` route to the first handler binding nothing, and `/w/seg` to the second binding `name` to `seg` |
| Matching.AboutPersonMatches | client-router.test.js:32-40 | `/about/:person?` registers two handlers with the route's actions; `/about` and `/about/` route to the first with no parameters, `/about/seg` to the second with `person` bound to `seg` |
| Matching.DerivedSectionsRoute | client-router.test.js:73-81 | for `/w/$:n/:r`, the path `/w/seg` routes to the redirect for `/w/:r`, binding `r` to `seg` |
| Matching.DerivedTargetTable | dist/dragon-router.js:341-359 | in the table `/w`, `/w/:r`, `/w/$:n/:r`, the path `/w/x/seg` passes both redirects and routes to the route, binding `n` to `x` and `r` to `seg` |
| Matching.DerivedTargetRoute | client-router.test.js:73-81 | for `/w/$:n/:r`, the path `/w/x/seg` routes to the route itself, binding `n` to `x` and `r` to `seg` |
| Matching.DerivedRoundTrip | client-router.test.js:73-81 | `/w/seg` routes to the redirect for `/w/:r`, which forwards to `/w/`, the resolved value, `/seg` and the query; when that value is one non-empty segment, the forwarded path routes to the route with both names bound |
| Matching.PushState | dist/dragon-router.js:364-373 | `_pushState` makes one entry (replacing iff asked) for a context not yet recorded, then marks it; for a recorded one it does nothing |
| DragonRouter.RoutedAt | dist/dragon-router.js:338-358 | when handler `i` matches first, the evaluation runs the globals, then route `i` from the params they left, then records |
| DragonRouter.ForeignDomain | dist/dragon-router.js:339-361 | a context of another domain is handed to the window and left unchanged |
| DragonRouter.Unrouted | dist/dragon-router.js:340-361 | a context no route matches is handed to the window and only takes the base path |
| DragonRouter.Routed | dist/dragon-router.js:338-373 | a routed context is recorded with the route's params and the base path, nothing else of it changes, and it gets a history entry iff it was not recorded |
| DragonRouter.RecordedOnce | dist/dragon-router.js:364-373 | evaluating a routed context again makes no new history entry |
| DragonRouter.FreshRecorded | dist/dragon-router.js:384-392 | a fresh context that a route matches gets one entry for its path, a replacement exactly when asked |
| DragonRouter.GlobalsDoNotGate | dist/dragon-router.js:350-351 | global middleware that does not call `next` stops the other globals but not the route, which starts from the params it left |
| DragonRouter.Router.constructor | dist/dragon-router.js:163-189 | empty table, no globals, no resolvers; the normalised base path; the domain of the window's location, if any |
| DragonRouter.Router.Use | dist/dragon-router.js:191-208 | the route table becomes `Used(old table, arg, ids)` and no effect is made |
| DragonRouter.Router.RegisterHandlers | dist/dragon-router.js:210-280 | the registrar grows by exactly `Registrations(h, recursive)` |
| DragonRouter.Router.RegisterOptional | dist/dragon-router.js:218-232 | the registrar grows by the optional expansion of the route |
| DragonRouter.Router.RegisterDerived | dist/dragon-router.js:235-279 | the registrar grows by the derived expansion of the route |
| DragonRouter.Router.FireGlobalActions | dist/dragon-router.js:375-382 | the global chain leaves the params of `RunChain` and returns its pending redirects |
| DragonRouter.Router.Evaluate | dist/dragon-router.js:338-362 | the context's new state, the effects appended and the pending redirects are those of `Evaluation` |
| DragonRouter.Router.FireRoute | dist/dragon-router.js:350-352 | once handler `i` matched: the global chain, the route chain from its params, then `_pushState` |
| DragonRouter.Router.Redirect | dist/dragon-router.js:384-387 | evaluates a fresh context of the URL with replace set |
| DragonRouter.Router.Navigate | dist/dragon-router.js:389-392 | evaluates a fresh context of the URL with replace unset |
| DragonRouter.Router.Settle | dist/dragon-router.js:246-247 | a resolved forward path is redirected to; a rejected one changes nothing |
| DistClientRouter.RoutedAt | dist/client-router.js:284-291 | when handler `i` matches first, its actions run on its params and the context is recorded |
| DistClientRouter.AgreesWithCurrent | dist/client-router.js:284-294 | the earlier version evaluates as the current one with no globals and no base path, except that it leaves the context's base path alone |
| DistClientRouter.ClientPathHandlers | dist/client-router.js:159-171 | the earlier version builds path handlers only |
| DistClientRouter.ClientRouter.constructor | dist/client-router.js:148-157 | empty table and resolvers; the domain of the window's location, if any |
| DistClientRouter.ClientRouter.Use | dist/client-router.js:159-171 | the route table becomes `Used(old table, arg, ids)`; a function or a RegExp changes nothing |
| DistClientRouter.ClientRouter.RegisterHandlers | dist/client-router.js:173-238 | the registrar grows by exactly `Registrations(h, recursive)` |
| DistClientRouter.ClientRouter.RegisterOptional | dist/client-router.js:176-191 | the registrar grows by the optional expansion of the route |
| DistClientRouter.ClientRouter.RegisterDerived | dist/client-router.js:193-237 | the registrar grows by the derived expansion of the route |
| DistClientRouter.ClientRouter.MatchAndFire | dist/client-router.js:122-131 | true iff the handler matches; then the context takes its params and its actions run at once; otherwise nothing changes |
| DistClientRouter.ClientRouter.Evaluate | dist/client-router.js:284-294 | the context's new state, the effects appended and the pending redirects are those of `Evaluation` |
| DistClientRouter.ClientRouter.Redirect | dist/client-router.js:307-309 | evaluates a fresh context of the URL with replace set |
| DistClientRouter.ClientRouter.Navigate | dist/client-router.js:311-313 | evaluates a fresh context of the URL with replace unset |
| DistClientRouter.ClientRouter.Settle | dist/client-router.js:204-205 | a resolved forward path is redirected to; a rejected one changes nothing |
| LegacyRouter.RoutedAt | client-router.js:191-196 | when handler `i` matches first, its actions run on its params and the path is pushed |
| LegacyRouter.AlwaysPushes | client-router.js:191-203 | a routed context is pushed on every evaluation, never as a replacement, and leaves nothing pending |
| LegacyRouter.DomainIgnored | client-router.js:191-199 | the domain plays no part in routing |
| LegacyRouter.UseAddsLast | client-router.js:144-146 | a route added by `use` routes a path exactly when no earlier route does and its own pattern matches |
| LegacyRouter.ClientRouter.constructor | client-router.js:137-142 | empty table, no effects |
| LegacyRouter.ClientRouter.Use | client-router.js:144-146 | appends exactly one handler for the pattern as written, with the callbacks as actions |
| LegacyRouter.ClientRouter.Evaluate | client-router.js:191-199 | the context's new state and the effects appended are those of `Evaluation` |
| LegacyRouter.ClientRouter.Route | client-router.js:193-195 | the matched route's actions run on the bound params, then the path is pushed |
| LegacyRouter.ClientRouter.PushState | client-router.js:201-203 | always appends a new history entry for the context's path |

## Left out

- Host glue is not modelled: `registerOn`, `unregister`, `_onClick`, `_onPopState`, `_onPushState`, `start`, `back` and `forward` (dist/dragon-router.js:282-336 and 394-408, dist/client-router.js:240-282 and 315-321, client-router.js:148-189). These are DOM event listeners and the `window.attachedRouter` marker. The location of the window a router is registered on is a constructor parameter, from which the constructor takes the router's `domain` as `registerOn` does. The window's history and location are the effect log.
- The JavaScript RegExp engine is not modelled. A literal section is exact string equality, assuming no metacharacters other than a trailing `*`, which repeats the character before it (`home*` accepts `hom`, `home`, `homee`). A lone `*` section in the earlier versions and a section ending in `**` make `new RegExp` throw; the model reads them as literals. A constraint `(a|b)` is membership in its `|`-separated alternatives. A non-`*` whole-path test is equality with the pattern text. A `*` whole-path test is "starts with the prefix and contains the suffix after it". A route given as a RegExp is the host's `test`. The base path is removed as a literal prefix.
- Asynchronous scheduling is not modelled. The redirect actions of derived segments run synchronously. Each leaves a `Deferred` value (a forward path, or the name of a missing resolver) in the result of `evaluate`, which `Settle` later turns into a redirect. Races between navigations are not modelled.
- Re-entrant callbacks are not modelled: `next` called more than once, or from later code, and callbacks that call `navigate` themselves. A callback is a pure step: the parameters it leaves and whether it calls `next`.
- Debug logging is not modelled (dist/dragon-router.js:183-188, 344-356). Also left out are the `Math.random` router id, which only tags history entries for `_onPopState`, and the export glue (dist/dragon-router.js:410-414).
- The query map is not stored on the context. `Context` does not store it because the source's assignment (line 33 of both `dist` files, line 31 of client-router.js) does not persist, and in strict class code it throws; see Findings. The map is the function `Navigation.SearchParams`.
- Navigation.Parse: modelled as total rather than requiring a `/` after the host. It gives the outcome of `substr(-1)` for such URLs.
- Navigation.Context.Legacy: the legacy context has no `isRecordedHistory` field; the model's field stays false and the legacy router never reads it.
- LegacyRouter.ClientRouter.Evaluate: does not state the pending redirects, because the legacy version has no redirect actions. `LegacyRouter.AlwaysPushes` proves that none are left for a table built by `use`.
- "Paths outside the base path never match" is not stated, because it does not hold: such a path is matched as it stands (`Matching.OutsideBase`).
- `DerivedSubpath` is not a class of its own: it is the argument form `Routes.Arg.Subpath`, a name and a resolver.
- The first argument of `use` is a closed datatype (`Routes.Arg`). An already-built `RouteHandler` argument is given by its path and callbacks.
- client-router.test.js and demo/routing-demo.js are not modelled. Several lemmas restate cases from the tests.

## Findings

| source | as written | input that shows it | evidently intended | confidence | as-written member | corrected member |
|---|---|---|---|---|---|---|
| dist/dragon-router.js:33 | `this.search.params = params` assigns a property of the string primitive `this.search`; class bodies are strict code, so this throws a TypeError | `new Context("/x?a=1")`, and any URL with a non-empty query string | the constructor completes and the query map is available | not executed | Navigation.QueryStringThrows | Navigation.Context.constructor |
| dist/client-router.js:33 | the same assignment in the earlier `dist` version | `new Context("/x?a=1")` | the constructor completes | not executed | Navigation.QueryStringThrows | Navigation.Context.constructor |
| client-router.js:31 | the same assignment in the legacy version | `new Context("/x?a=1")` | the constructor completes | not executed | Navigation.QueryStringThrows | Navigation.Context.Legacy |
| dist/dragon-router.js:218 | the optional expansion is guarded by `route.includes("?")` and recurses on the routes without and with the optional sections; when the `?` ends no section, both routes are the route itself, so the recursion never ends | `router.use('/color/:c(colou?r)', cb)` | expand only when some section ends with `?` | not executed | Routes.ConstraintQuestionStalls | Routes.CorrectedGuard |
