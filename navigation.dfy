/** The navigation context: the parsed form of a navigation target (protocol, domain, path,
    query string), the query-parameter map, and the per-navigation mutable state the router
    writes (`params`, `basePath`, the recorded-history flag). */
module Navigation {
  import opened Text

  const Scheme := "://"

  /** The parsed parts of a URL, as the `Context` constructor stores them. */
  datatype Url = Url(protocol: Option<string>, domain: Option<string>, path: string, search: string)

  /** What an action or a resolver can observe of a context. */
  datatype View = View(url: string, path: string, search: string, params: Params)

  /** Everything a router reads or writes on a context object: the parsed target, the
      parameters of the last match, the base path it was evaluated under, and whether it has
      been recorded in the history. */
  datatype ContextState = ContextState(
    url: string, domain: Option<string>, path: string, search: string,
    params: Option<Params>, basePath: Option<string>, recorded: bool)
  {
    /** What actions see: the parameters are empty until a route has matched. */
    function Seen(): View
    {
      View(url, path, search, if params.Some? then params.value else map[])
    }
  }

  /** The state of a context just constructed from `url`. */
  function Fresh(url: string): (s: ContextState)
    ensures s.url == url
    ensures s.domain.Some? <==> Contains(url, Scheme)
    ensures Contains(url, Scheme) ==> s.domain == Some(Host(AfterScheme(url)))
    ensures '?' !in s.path && '?' !in s.search
    ensures (s.path, s.search) == SplitQuery(Location(url))
    ensures s.params.None? && s.basePath.None? && !s.recorded && s.Seen().params == map[]
  {
    var u := Parse(url);
    ContextState(url, u.domain, u.path, u.search, None, None, false)
  }

  /** The text that follows the scheme separator, up to a second separator if there is one
      (`url.split("://")[1]`). */
  function AfterScheme(url: string): (rest: string)
    requires Contains(url, Scheme)
    ensures !Contains(rest, Scheme)
  {
    Before(SchemeRest(url), Scheme)
  }

  /** Everything after the first scheme separator. */
  function SchemeRest(url: string): (rest: string)
    requires Contains(url, Scheme)
    ensures |rest| < |url|
  {
    url[Find(url, Scheme) + |Scheme|..]
  }

  /** The host part of the text after the scheme: up to the first `/`, or empty when there is
      no `/` (`substring(0, indexOf('/'))`, where an index of -1 makes the substring empty). */
  function Host(rest: string): string
  {
    var slash := IndexOf(rest, '/');
    if slash < |rest| then rest[..slash] else ""
  }

  /** The path-and-query part of a URL. With a scheme it starts at the first `/` after the host;
      with no `/` there, `substr(-1)` yields the last character of the host part. */
  function Location(url: string): string
  {
    if Contains(url, Scheme) then
      var rest := AfterScheme(url);
      var slash := IndexOf(rest, '/');
      if slash < |rest| then rest[slash..]
      else if |rest| > 0 then rest[|rest| - 1..]
      else ""
    else url
  }

  /** `[path, search] = location.split('?')`: the text before the first `?`, and the text between
      the first `?` and the next one (empty when there is no `?`). */
  function SplitQuery(location: string): (r: (string, string))
    ensures '?' !in r.0 && '?' !in r.1
    ensures StartsWith(location, r.0)
    ensures '?' !in location ==> r == (location, "")
    ensures '?' in location ==>
      && location[|r.0|] == '?'
      && StartsWith(location[|r.0| + 1..], r.1)
      && (|r.0| + 1 + |r.1| == |location| || location[|r.0| + 1 + |r.1|] == '?')
  {
    var pieces := Split(location, '?');
    var i := IndexOf(location, '?');
    if i < |location| then
      var tail := location[i + 1..];
      assert pieces == [location[..i]] + Split(tail, '?');
      (pieces[0], pieces[1])
    else (pieces[0], "")
  }

  /** A path and a query string, neither holding `?`, are split back apart. */
  lemma SplitQueryOf(p: string, q: string)
    requires '?' !in p && '?' !in q
    ensures SplitQuery(p + "?" + q) == (p, q)
  {
    var loc := p + "?" + q;
    assert loc == p + ['?'] + q;
    IndexOfPrefix(p, '?', q);
    AroundSeparator(p, '?', q);
    SplitCons(p, '?', q);
    SplitNone(q, '?');
  }

  /** The fields the `Context` constructor computes from a URL. */
  function Parse(url: string): (u: Url)
    ensures u.protocol.Some? <==> Contains(url, Scheme)
    ensures u.domain == if Contains(url, Scheme) then Some(Host(AfterScheme(url))) else None
    ensures u.protocol.Some? ==> u.protocol.value == url[..Find(url, Scheme)]
    ensures '?' !in u.path && '?' !in u.search
    ensures (u.path, u.search) == SplitQuery(Location(url))
  {
    var (path, search) := SplitQuery(Location(url));
    if Contains(url, Scheme) then
      Url(Some(url[..Find(url, Scheme)]), Some(Host(AfterScheme(url))), path, search)
    else Url(None, None, path, search)
  }

  /** The host of a prefix that holds a `/` is the host of the whole text. */
  lemma HostOfPrefix(after: string, rest: string)
    requires StartsWith(after, rest) && '/' in rest
    ensures Host(rest) == after[..IndexOf(after, '/')]
    ensures '/' !in Host(rest)
    ensures IndexOf(rest, '/') < |rest| && rest[IndexOf(rest, '/')] == '/'
  {
    IndexOfInPrefix(after, rest, '/');
    var slash := IndexOf(rest, '/');
    assert rest[..slash] == after[..slash];
  }

  /** When a `/` follows the host, the domain is exactly the text between the scheme separator
      and that first `/`, and the path starts with that `/`. */
  lemma {:induction false} DomainIsHost(url: string)
    requires Contains(url, Scheme)
    requires '/' in AfterScheme(url)
    ensures var after := SchemeRest(url);
      && Parse(url).domain == Some(after[..IndexOf(after, '/')])
      && '/' !in Parse(url).domain.value
      && |Location(url)| > 0 && Location(url)[0] == '/'
  {
    var after := SchemeRest(url);
    var rest := AfterScheme(url);
    HostOfPrefix(after, rest);
    HostDomain(url, rest);
    SlashLocation(url, rest);
  }

  lemma HostDomain(url: string, rest: string)
    requires Contains(url, Scheme) && rest == AfterScheme(url)
    ensures Parse(url).domain == Some(Host(rest))
  {
  }

  lemma SlashLocation(url: string, rest: string)
    requires Contains(url, Scheme) && rest == AfterScheme(url)
    requires IndexOf(rest, '/') < |rest| && rest[IndexOf(rest, '/')] == '/'
    ensures |Location(url)| > 0 && Location(url)[0] == '/'
  {
  }

  /** A fresh context built from a path and a query string, neither holding `?` and together
      holding no scheme separator, has exactly that path and that query string. */
  lemma FreshOfPathAndQuery(p: string, q: string)
    requires '?' !in p && '?' !in q && !Contains(p + "?" + q, Scheme)
    ensures Fresh(p + "?" + q).domain.None?
    ensures Fresh(p + "?" + q).path == p && Fresh(p + "?" + q).search == q
  {
    SplitQueryOf(p, q);
  }

  /** A URL without a scheme has no domain, and its path is what precedes the first `?`. */
  lemma {:induction false} PlainPath(url: string)
    requires !Contains(url, Scheme)
    ensures Parse(url).domain.None? && Parse(url).protocol.None?
    ensures Parse(url).path == url[..IndexOf(url, '?')]
  {
  }

  // ---------------------------------------------------------------------------
  // Query parameters (`collectSearchParams`)

  predicate IsPair(pair: string) { '=' in pair }

  /** `pair.split('=')[0]`. */
  function KeyOf(pair: string): string
    requires IsPair(pair)
  {
    Split(pair, '=')[0]
  }

  /** `pair.split('=')[1]`: the text between the first `=` and the next one. */
  function ValueOf(pair: string): string
    requires IsPair(pair)
  {
    var i := IndexOf(pair, '=');
    assert Split(pair, '=') == [pair[..i]] + Split(pair[i + 1..], '=');
    Split(pair, '=')[1]
  }

  /** Adds the pairs, in order, to `m`; a pair without `=` is skipped. */
  function AddPairs(m: Params, pairs: seq<string>): Params
    decreases |pairs|
  {
    if |pairs| == 0 then m
    else
      var m' := if IsPair(pairs[0]) then m[KeyOf(pairs[0]) := ValueOf(pairs[0])] else m;
      AddPairs(m', pairs[1..])
  }

  /** The map `collectSearchParams` builds from a query string. (The empty query string, which the
      source skips, yields the empty map here too: its one piece holds no `=`.) */
  function SearchParams(search: string): Params
  {
    AddPairs(map[], Split(search, '&'))
  }

  predicate HasKey(pair: string, k: string) { IsPair(pair) && KeyOf(pair) == k }

  /** The keys the `=`-pairs name. */
  function PairKeys(pairs: seq<string>): set<string>
    decreases |pairs|
  {
    if |pairs| == 0 then {}
    else (if IsPair(pairs[0]) then {KeyOf(pairs[0])} else {}) + PairKeys(pairs[1..])
  }

  /** A key is among the pair keys iff some pair names it. */
  lemma {:induction false} PairKeysNamed(pairs: seq<string>, k: string)
    ensures k in PairKeys(pairs) <==> exists j :: 0 <= j < |pairs| && HasKey(pairs[j], k)
    decreases |pairs|
  {
    if |pairs| > 0 {
      PairKeysNamed(pairs[1..], k);
      if exists j :: 0 <= j < |pairs| && HasKey(pairs[j], k) {
        var j :| 0 <= j < |pairs| && HasKey(pairs[j], k);
        if j > 0 { assert HasKey(pairs[1..][j - 1], k); }
      }
      if exists j :: 0 <= j < |pairs[1..]| && HasKey(pairs[1..][j], k) {
        var j :| 0 <= j < |pairs[1..]| && HasKey(pairs[1..][j], k);
        assert HasKey(pairs[j + 1], k);
      }
    }
  }

  /** `pairs[j]` is the last pair that names `k`. */
  predicate LastWithKey(pairs: seq<string>, j: int, k: string)
  {
    0 <= j < |pairs| && HasKey(pairs[j], k) &&
    forall j' :: j < j' < |pairs| ==> !HasKey(pairs[j'], k)
  }

  /** Adding pairs adds exactly their keys; the last pair naming a key gives its value; a key no
      pair names keeps its earlier value. */
  lemma {:induction false} AddPairsLookup(m: Params, pairs: seq<string>, k: string)
    ensures AddPairs(m, pairs).Keys == m.Keys + PairKeys(pairs)
    ensures forall j :: LastWithKey(pairs, j, k) ==>
      k in AddPairs(m, pairs) && AddPairs(m, pairs)[k] == ValueOf(pairs[j])
    ensures k !in PairKeys(pairs) && k in m ==> AddPairs(m, pairs)[k] == m[k]
    decreases |pairs|
  {
    if |pairs| > 0 {
      var m' := if IsPair(pairs[0]) then m[KeyOf(pairs[0]) := ValueOf(pairs[0])] else m;
      var rest := pairs[1..];
      AddPairsLookup(m', rest, k);
      forall j | LastWithKey(pairs, j, k)
        ensures k in AddPairs(m, pairs) && AddPairs(m, pairs)[k] == ValueOf(pairs[j])
      {
        if j > 0 {
          assert rest[j - 1] == pairs[j];
          assert LastWithKey(rest, j - 1, k);
        } else {
          PairKeysNamed(rest, k);
          assert forall j' :: 0 <= j' < |rest| ==> rest[j'] == pairs[j' + 1];
        }
      }
    }
  }

  /** The query map holds exactly the keys of the `=`-pairs between the `&`s, each with the value
      of the last pair naming it. */
  lemma SearchParamsLookup(search: string, k: string)
    ensures SearchParams(search).Keys == PairKeys(Split(search, '&'))
    ensures k in SearchParams(search) <==>
      exists j :: 0 <= j < |Split(search, '&')| && HasKey(Split(search, '&')[j], k)
    ensures forall j :: LastWithKey(Split(search, '&'), j, k) ==>
      k in SearchParams(search) && SearchParams(search)[k] == ValueOf(Split(search, '&')[j])
  {
    AddPairsLookup(map[], Split(search, '&'), k);
    PairKeysNamed(Split(search, '&'), k);
  }

  /** The empty query string yields the empty map. */
  lemma EmptySearch()
    ensures SearchParams("") == map[]
  {
    assert Split("", '&') == [""];
  }

  /** `collectSearchParams`: the `forEach` over the `&`-separated pairs, filling a dictionary. */
  method CollectSearchParams(search: string) returns (params: Params)
    ensures params == SearchParams(search)
  {
    params := map[];
    if search == "" {
      EmptySearch();
      return;
    }
    var pairs := Split(search, '&');
    for i := 0 to |pairs|
      invariant AddPairs(params, pairs[i..]) == AddPairs(map[], pairs)
    {
      var pair := pairs[i];
      assert pairs[i..][1..] == pairs[i + 1..];
      if '=' in pair {
        params := params[KeyOf(pair) := ValueOf(pair)];
      }
    }
    assert pairs[|pairs|..] == [];
  }

  // ---------------------------------------------------------------------------
  // The constructor as written

  datatype Construction = Constructed(u: Url) | TypeError

  /** The constructor as the source writes it, in all three versions: after filling the
      dictionary it assigns it as a property of the string primitive `this.search`. Class bodies
      are strict code, where that assignment throws a TypeError; it is reached exactly when the
      query string is non-empty. */
  function ConstructAsWritten(url: string): (c: Construction)
    ensures c.TypeError? <==> Parse(url).search != ""
    ensures c.Constructed? ==> c.u == Parse(url)
  {
    var u := Parse(url);
    if u.search == "" then Constructed(u) else TypeError
  }

  /** Any URL with a query string makes the constructor as written throw. */
  lemma QueryStringThrows()
    ensures ConstructAsWritten("/x?a=1") == TypeError
  {
    var loc := "/x?a=1";
    AbsentHead(loc, Scheme);
    assert IndexOf(loc, '?') == 2;
    assert loc[..2] == "/x" && loc[3..] == "a=1";
    assert Split(loc, '?') == ["/x"] + Split("a=1", '?');
  }

  /** The navigation context of the two `dist` versions. The constructor does not fail on a query
      string (the corrected behaviour); the query map is `SearchParams(search)`, not a field. */
  class Context {
    const url: string
    const protocol: Option<string>
    const domain: Option<string>
    const path: string
    const search: string
    var params: Option<Params>
    var basePath: Option<string>
    var isRecordedHistory: bool

    constructor (url: string)
      ensures this.url == url
      ensures Url(protocol, domain, path, search) == Parse(url)
      ensures params.None? && basePath.None? && !isRecordedHistory
      ensures State() == Fresh(url)
    {
      var u := Parse(url);
      this.url := url;
      protocol, domain, path, search := u.protocol, u.domain, u.path, u.search;
      params, basePath, isRecordedHistory := None, None, false;
    }

    /** The context of the legacy version, which records no domain. Like the constructor above,
        it does not fail on a query string (the corrected behaviour). */
    constructor Legacy(url: string)
      ensures this.url == url
      ensures Url(protocol, Some(""), path, search) == Parse(url).(domain := Some(""))
      ensures domain.None?
      ensures params.None? && basePath.None? && !isRecordedHistory
      ensures State() == Fresh(url).(domain := None)
    {
      var u := Parse(url);
      this.url := url;
      protocol, domain, path, search := u.protocol, None, u.path, u.search;
      params, basePath, isRecordedHistory := None, None, false;
    }

    /** What actions see: the parameters are empty until a route has matched. */
    function Snapshot(): View
      reads this
    {
      View(url, path, search, if params.Some? then params.value else map[])
    }

    /** The context's state as a value. */
    function State(): ContextState
      reads this
    {
      ContextState(url, domain, path, search, params, basePath, isRecordedHistory)
    }
  }
}
