/** `TokenizedPath`: a route pattern compiled into one token per `/`-section, plus the whole-path
    test, and the matching of a candidate path against it. The three versions of the engine
    compile patterns slightly differently; `Dialect` names the version. */
module Pattern {
  import opened Text

  /** client-router.js (Legacy), dist/client-router.js (DistClient), dist/dragon-router.js (Dragon). */
  datatype Dialect = Legacy | DistClient | Dragon

  /** The matcher of one section of a pattern. Regular expressions are modelled by what they accept
      under the assumption that sections carry no metacharacters other than a trailing `*`: a
      literal accepts exactly its own text, except that a trailing `*` repeats the character
      before it (as every wildcard pattern's last section does), and a constraint `(a|b)` accepts
      exactly its alternatives. */
  datatype Token =
    | Literal(text: string)                                 // `^text$`
    | AnySection                                            // a `*` section, `^.*$` (Dragon only)
    | Param(name: string)                                   // `:name`, `/.+/`
    | Constrained(name: string, alternatives: seq<string>)  // `:name(expr)`, `^(expr$`
  {
    predicate Named() { Param? || Constrained? }
  }

  /** `\w` */
  predicate IsWordChar(c: char)
  {
    'a' <= c <= 'z' || 'A' <= c <= 'Z' || '0' <= c <= '9' || c == '_'
  }

  /** `\w+` */
  predicate IsWord(s: string)
  {
    |s| > 0 && forall i :: 0 <= i < |s| ==> IsWordChar(s[i])
  }

  /** `SIMPLE_PARAM`, `/^:\w+$/`. */
  predicate IsSimpleParam(part: string)
  {
    |part| >= 2 && part[0] == ':' && IsWord(part[1..])
  }

  /** `MATCHING_PARAM`, `/^:\w+\(.*\)$/`: since `\w` excludes `(`, the word is exactly the text
      between the colon and the first `(`. */
  predicate IsMatchingParam(part: string)
  {
    |part| >= 2 && part[0] == ':' && part[|part| - 1] == ')' &&
    var k := IndexOf(part, '(');
    1 <= k < |part| && IsWord(part[1..k])
  }

  /** The alternatives of a constraint: `expr` is the text between the first `(` and the next
      one, so the group of `^(` + expr + `$` closes at its trailing `)`. */
  function Alternatives(expr: string): seq<string>
  {
    var body := if |expr| > 0 && expr[|expr| - 1] == ')' then expr[..|expr| - 1] else expr;
    Split(body, '|')
  }

  /** The `sections.map` classification of one section. */
  function Classify(part: string, d: Dialect): (t: Token)
    ensures t.Constrained? <==> IsMatchingParam(part)
    ensures t.Param? <==> IsSimpleParam(part)
    ensures t.AnySection? <==> d == Dragon && part == "*"
    ensures t.Literal? ==> t.text == part
    ensures t.Param? ==> part == [':'] + t.name
    ensures t.Named() ==> IsWord(t.name) && part[0] == ':' && StartsWith(part[1..], t.name)
  {
    if IsMatchingParam(part) then
      var k := IndexOf(part, '(');
      IndexOfUnique(part[1..], '(', k - 1);
      var pieces := Split(part[1..], '(');
      assert part[1..][..k - 1] == part[1..k];
      assert part[1..][|part| - 2] == ')';
      Constrained(pieces[0], Alternatives(pieces[1]))
    else if IsSimpleParam(part) then Param(part[1..])
    else if d == Dragon && part == "*" then AnySection
    else Literal(part)
  }

  /** A literal section ending in `*` after some other character: its regular expression
      `^text$` reads the `*` as "any number of the character before it". */
  predicate Quantified(text: string)
  {
    |text| >= 2 && text[|text| - 1] == '*' && text[|text| - 2] != '*'
  }

  /** What `^stem c*$` accepts: `stem`, then any number of `c`. */
  predicate RepeatsLast(text: string, segment: string)
    requires Quantified(text)
  {
    var stem := text[..|text| - 2];
    |stem| <= |segment| && segment[..|stem|] == stem &&
    forall i :: |stem| <= i < |segment| ==> segment[i] == text[|text| - 2]
  }

  /** `k` copies of `c`. */
  function Repeat(c: char, k: nat): (r: string)
    ensures |r| == k && forall i :: 0 <= i < k ==> r[i] == c
  {
    seq(k, _ => c)
  }

  /** Whether the token's regular expression accepts a segment. */
  predicate Accepts(t: Token, segment: string)
  {
    match t
    case Literal(text) => if Quantified(text) then RepeatsLast(text, segment) else segment == text
    case AnySection => true
    case Param(_) => |segment| > 0
    case Constrained(_, alternatives) => segment in alternatives
  }

  /** `regExPath`, the whole-path regular expression: none in the Legacy version; for a pattern
      ending in `*`, the pattern before the `*` with its first `:param` read as `.*` and a `.*`
      appended; otherwise the pattern itself, anchored. */
  datatype WholePath = NoWholePath | ExactPath(path: string) | Wildcard(prefix: string, suffix: string)

  function WholePathOf(path: string, d: Dialect): WholePath
  {
    if d == Legacy then NoWholePath
    else if |path| > 0 && path[|path| - 1] == '*' then StarWholePath(path[..|path| - 1])
    else ExactPath(path)
  }

  /** The whole-path test of a pattern `stem*`. */
  function StarWholePath(stem: string): WholePath
  {
    var colon := IndexOf(stem, ':');
    if colon == |stem| then Wildcard(stem, "")
    else Wildcard(stem[..colon], stem[colon + IndexOf(stem[colon..], '/')..])
  }

  /** `regExPath.test(str)`: `^prefix.*suffix.*$` holds iff the candidate starts with the prefix
      and the suffix occurs somewhere after it. */
  predicate WholePathAccepts(w: WholePath, str: string)
  {
    match w
    case NoWholePath => false
    case ExactPath(p) => str == p
    case Wildcard(prefix, suffix) => StartsWith(str, prefix) && Contains(str[|prefix|..], suffix)
  }

  datatype TokenizedPath = TokenizedPath(path: string, wholePath: WholePath, sections: seq<string>, tokens: seq<Token>)
  {
    predicate Valid() { |tokens| == |sections| }
  }

  /** The sections of a pattern: split on `/` after one leading `/` is dropped. */
  function Sections(path: string): seq<string>
  {
    if |path| > 0 && path[0] == '/' then Split(path[1..], '/') else Split(path, '/')
  }

  /** The `TokenizedPath` constructor: one token per section, classified in order. */
  function Tokenize(path: string, d: Dialect): (tp: TokenizedPath)
    ensures tp.Valid() && tp.path == path && tp.sections == Sections(path)
    ensures forall i :: 0 <= i < |tp.tokens| ==> tp.tokens[i] == Classify(tp.sections[i], d)
  {
    var sections := Sections(path);
    TokenizedPath(path, WholePathOf(path, d), sections,
      seq(|sections|, i requires 0 <= i < |sections| => Classify(sections[i], d)))
  }

  /** The sections joined with `/` give back the pattern without its leading `/`, and no section
      holds a `/`. */
  lemma SectionsJoin(path: string)
    ensures Join(Sections(path), '/') == if |path| > 0 && path[0] == '/' then path[1..] else path
    ensures forall i :: 0 <= i < |Sections(path)| ==> '/' !in Sections(path)[i]
  {
    var body := if |path| > 0 && path[0] == '/' then path[1..] else path;
    assert Sections(path) == Split(body, '/');
    JoinSplit(body, '/');
    SplitPieces(body, '/');
  }

  /** The candidate's segments: one trailing `/` dropped, then the first character dropped
      (`slice(1)`), then split on `/`. */
  function Parts(str: string): seq<string>
  {
    var p := DropTrailingSlash(str);
    Split(if |p| > 0 then p[1..] else "", '/')
  }

  /** Position `i` binds its token's name: a named token exists there and accepts the segment. */
  predicate Binds(tokens: seq<Token>, parts: seq<string>, i: int)
  {
    0 <= i < |tokens| && i < |parts| && tokens[i].Named() && Accepts(tokens[i], parts[i])
  }

  /** The parameters the matching loop collects: positions in order, a later binding of the same
      name overwriting an earlier one. */
  function Bind(tokens: seq<Token>, parts: seq<string>): Params
    decreases |parts|
  {
    if |parts| == 0 then map[]
    else
      var i := |parts| - 1;
      var m := Bind(tokens, parts[..i]);
      if Binds(tokens, parts, i) then m[tokens[i].name := parts[i]] else m
  }

  /** Every segment is accepted by the token at its position, and the counts agree. */
  predicate AllAccept(tokens: seq<Token>, parts: seq<string>)
  {
    |tokens| == |parts| && forall i :: 0 <= i < |parts| ==> Accepts(tokens[i], parts[i])
  }

  /** The result of `matches(str)`: the bound parameters, or `None` for `false`. A match needs the
      whole-path test, or equal counts with every token accepting its segment. */
  function PathMatch(tp: TokenizedPath, str: string): Option<Params>
  {
    var parts := Parts(str);
    if WholePathAccepts(tp.wholePath, str) || AllAccept(tp.tokens, parts)
    then Some(Bind(tp.tokens, parts))
    else None
  }

  /** One more position of the loop. */
  lemma BindSnoc(tokens: seq<Token>, parts: seq<string>, i: nat)
    requires i < |parts|
    ensures Bind(tokens, parts[..i + 1]) ==
      if Binds(tokens, parts, i) then Bind(tokens, parts[..i])[tokens[i].name := parts[i]]
      else Bind(tokens, parts[..i])
  {
    assert parts[..i + 1][..i] == parts[..i];
  }

  /** The loop of `TokenizedPath.matches` over the segments, once the whole-path test has given
      `full`: a rejected segment ends the match unless the whole-path test passed. */
  method MatchSegments(tokens: seq<Token>, parts: seq<string>, full: bool) returns (r: Option<Params>)
    requires full || |parts| == |tokens|
    ensures r == if full || AllAccept(tokens, parts) then Some(Bind(tokens, parts)) else None
  {
    var params := map[];
    for i := 0 to |parts|
      invariant params == Bind(tokens, parts[..i])
      invariant !full ==> forall j :: 0 <= j < i ==> Accepts(tokens[j], parts[j])
    {
      BindSnoc(tokens, parts, i);
      var ok := i < |tokens| && Accepts(tokens[i], parts[i]);
      if !ok && !full {
        return None;
      }
      if ok && tokens[i].Named() {
        params := params[tokens[i].name := parts[i]];
      }
    }
    assert parts[..|parts|] == parts;
    return Some(params);
  }

  /** `TokenizedPath.matches`: the whole-path test, the count check, then the segment loop. */
  method MatchPath(tp: TokenizedPath, str: string) returns (r: Option<Params>)
    ensures r == PathMatch(tp, str)
  {
    var full := WholePathAccepts(tp.wholePath, str);
    var parts := Parts(str);
    if !full && |parts| != |tp.tokens| {
      return None;
    }
    r := MatchSegments(tp.tokens, parts, full);
  }

  // ---------------------------------------------------------------------------
  // Properties of matching

  /** The names the positions of `parts` bind. */
  function BoundNames(tokens: seq<Token>, parts: seq<string>): set<string>
    decreases |parts|
  {
    if |parts| == 0 then {}
    else
      var n := |parts| - 1;
      BoundNames(tokens, parts[..n]) + if Binds(tokens, parts, n) then {tokens[n].name} else {}
  }

  /** The names of the named tokens. */
  function NamedNames(tokens: seq<Token>): set<string>
    decreases |tokens|
  {
    if |tokens| == 0 then {}
    else
      var n := |tokens| - 1;
      NamedNames(tokens[..n]) + if tokens[n].Named() then {tokens[n].name} else {}
  }

  /** Exactly the names some position binds are keys of the result. */
  lemma {:induction false} BindKeys(tokens: seq<Token>, parts: seq<string>)
    ensures Bind(tokens, parts).Keys == BoundNames(tokens, parts)
    decreases |parts|
  {
    if |parts| > 0 {
      BindKeys(tokens, parts[..|parts| - 1]);
    }
  }

  /** A position binds the same in a longer candidate. */
  lemma BindsPrefix(tokens: seq<Token>, parts: seq<string>, n: nat, i: int)
    requires n <= |parts|
    ensures 0 <= i < n ==> (Binds(tokens, parts[..n], i) <==> Binds(tokens, parts, i))
  {
  }

  /** The last position that binds a name gives its value. */
  lemma {:induction false} BindLast(tokens: seq<Token>, parts: seq<string>, i: nat)
    requires Binds(tokens, parts, i)
    requires forall j :: i < j < |parts| && Binds(tokens, parts, j) ==> tokens[j].name != tokens[i].name
    ensures tokens[i].name in Bind(tokens, parts) && Bind(tokens, parts)[tokens[i].name] == parts[i]
    decreases |parts|
  {
    var n := |parts| - 1;
    if i < n {
      var prefix := parts[..n];
      BindsPrefix(tokens, parts, n, i);
      forall j | i < j < n && Binds(tokens, prefix, j) ensures tokens[j].name != tokens[i].name {
        BindsPrefix(tokens, parts, n, j);
      }
      BindLast(tokens, prefix, i);
    }
  }

  /** When every segment is accepted, the bound names are the names of the named tokens. */
  lemma {:induction false} BoundNamesAccepted(tokens: seq<Token>, parts: seq<string>)
    requires |parts| <= |tokens|
    requires forall i :: 0 <= i < |parts| ==> Accepts(tokens[i], parts[i])
    ensures BoundNames(tokens, parts) == NamedNames(tokens[..|parts|])
    decreases |parts|
  {
    if |parts| > 0 {
      var n := |parts| - 1;
      BoundNamesAccepted(tokens, parts[..n]);
      assert tokens[..n + 1][..n] == tokens[..n];
    }
  }

  /** A pattern without named sections binds nothing. */
  lemma {:induction false} BindNothing(tokens: seq<Token>, parts: seq<string>)
    requires forall i :: 0 <= i < |tokens| ==> !tokens[i].Named()
    ensures Bind(tokens, parts) == map[]
    decreases |parts|
  {
    if |parts| > 0 {
      BindNothing(tokens, parts[..|parts| - 1]);
    }
  }

  /** Without the whole-path test, a match has as many segments as the pattern has sections,
      every token accepts its segment, and exactly the names of the named tokens are bound. */
  lemma ExactMatch(tp: TokenizedPath, str: string)
    requires tp.Valid()
    requires !WholePathAccepts(tp.wholePath, str)
    requires PathMatch(tp, str).Some?
    ensures |Parts(str)| == |tp.sections|
    ensures forall i :: 0 <= i < |tp.tokens| ==> Accepts(tp.tokens[i], Parts(str)[i])
    ensures PathMatch(tp, str).value.Keys == NamedNames(tp.tokens)
  {
    var parts := Parts(str);
    BindKeys(tp.tokens, parts);
    BoundNamesAccepted(tp.tokens, parts);
    assert tp.tokens[..|parts|] == tp.tokens;
  }

  /** The Legacy version matches only with one segment per section. */
  lemma LegacyExactArity(path: string, str: string)
    requires PathMatch(Tokenize(path, Legacy), str).Some?
    ensures |Parts(str)| == |Sections(path)|
    ensures PathMatch(Tokenize(path, Legacy), str).value ==
      Bind(Tokenize(path, Legacy).tokens, Parts(str))
  {
  }

  /** `dist/client-router.js` and the Legacy version compile the same tokens, and agree whenever
      the whole-path test fails. */
  lemma DistClientAgreesWithLegacy(path: string, str: string)
    requires !WholePathAccepts(Tokenize(path, DistClient).wholePath, str)
    ensures PathMatch(Tokenize(path, DistClient), str) == PathMatch(Tokenize(path, Legacy), str)
  {
    assert Tokenize(path, DistClient).tokens == Tokenize(path, Legacy).tokens;
  }

  /** One trailing `/` on the candidate does not change the segments. */
  lemma TrailingSlashParts(str: string)
    requires |str| == 0 || str[|str| - 1] != '/'
    ensures Parts(str + "/") == Parts(str)
  {
    assert (str + "/")[..|str|] == str;
  }

  /** A purely literal pattern matches its own text, and its text with a trailing `/`, binding an
      empty map, in every version. */
  lemma LiteralSelfMatch(p: string, d: Dialect)
    requires |p| > 1 && p[0] == '/' && p[|p| - 1] != '/' && p[|p| - 1] != '*'
    requires forall i :: 0 <= i < |Sections(p)| ==>
      Classify(Sections(p)[i], d).Literal? && !Quantified(Sections(p)[i])
    ensures PathMatch(Tokenize(p, d), p) == Some(map[])
    ensures PathMatch(Tokenize(p, d), p + "/") == Some(map[])
  {
    var tp := Tokenize(p, d);
    TrailingSlashParts(p);
    assert Parts(p) == tp.sections;
    assert AllAccept(tp.tokens, Parts(p));
    BindNothing(tp.tokens, Parts(p));
  }

  /** A match the whole-path test decides binds what the segments bind. */
  lemma WholePathSuffices(tp: TokenizedPath, str: string)
    requires WholePathAccepts(tp.wholePath, str)
    ensures PathMatch(tp, str) == Some(Bind(tp.tokens, Parts(str)))
  {
  }

  /** The whole-path test of `p*` for a `p` without `:` is "starts with `p`". */
  lemma StarWithoutParam(p: string, d: Dialect)
    requires d != Legacy && ':' !in p
    ensures WholePathOf(p + "*", d) == Wildcard(p, "")
  {
    assert (p + "*")[..|p|] == p;
  }

  /** For `p*` with no `:` in `p`, a candidate that starts with `p` matches whatever its segment
      count (in both versions with a whole-path test). */
  lemma WildcardPrefix(p: string, str: string, d: Dialect)
    requires d != Legacy && ':' !in p && StartsWith(str, p)
    ensures PathMatch(Tokenize(p + "*", d), str).Some?
  {
    StarWithoutParam(p, d);
    assert OccursAt(str[|p|..], "", 0);
    WholePathSuffices(Tokenize(p + "*", d), str);
  }

  /** The whole-path test of `pre:name/post*` reads the first parameter as "anything". */
  lemma WildcardOfFirstParam(pre: string, name: string, post: string, d: Dialect)
    requires d != Legacy && ':' !in pre && '/' !in name
    ensures WholePathOf(pre + ":" + name + "/" + post + "*", d) == Wildcard(pre, "/" + post)
  {
    var param := [':'] + name + ['/'] + post;
    var stem := pre + param;
    StarPattern(pre, name, post);
    ColonAfter(pre, param);
    SlashAfter(name, post);
    StarStemAt(stem, d, |pre|, 1 + |name|);
    TailOfConcat(pre, param, 1 + |name|);
  }

  /** `pre:name/post*` is the stem `pre` + `:name/post`, then `*`. */
  lemma StarPattern(pre: string, name: string, post: string)
    ensures pre + ":" + name + "/" + post + "*" == (pre + ([':'] + name + ['/'] + post)) + "*"
  {
  }

  /** The first `:` of `pre + param` starts `param` when `pre` holds none. */
  lemma ColonAfter(pre: string, param: string)
    requires ':' !in pre && |param| > 0 && param[0] == ':'
    ensures IndexOf(pre + param, ':') == |pre|
    ensures (pre + param)[..|pre|] == pre && (pre + param)[|pre|..] == param
  {
    var s := pre + param;
    assert s == pre + [':'] + param[1..] by {
      assert param == [':'] + param[1..];
      Assoc(pre, [':'], param[1..]);
    }
    IndexOfPrefix(pre, ':', param[1..]);
  }

  /** The first `/` of `:name/post` follows the name. */
  lemma SlashAfter(name: string, post: string)
    requires '/' !in name
    ensures var param := [':'] + name + ['/'] + post;
      IndexOf(param, '/') == 1 + |name| && param[1 + |name|..] == "/" + post
  {
    IndexOfPrefix([':'] + name, '/', post);
    AroundSeparator([':'] + name, '/', post);
  }

  /** A suffix of `pre + param` that starts inside `param`. */
  lemma TailOfConcat(pre: string, param: string, k: nat)
    requires k <= |param|
    ensures (pre + param)[|pre| + k..] == param[k..]
  {
  }

  /** The whole-path test of a pattern `stem*` whose first `:` is at `colon`, followed by its
      first `/` after `slash` more characters. */
  lemma StarStemAt(stem: string, d: Dialect, colon: nat, slash: nat)
    requires d != Legacy && colon < |stem| && IndexOf(stem, ':') == colon
    requires IndexOf(stem[colon..], '/') == slash
    ensures WholePathOf(stem + "*", d) == Wildcard(stem[..colon], stem[colon + slash..])
  {
    StarStem(stem, d);
  }

  /** The whole-path test of a pattern `stem*`. */
  lemma StarStem(stem: string, d: Dialect)
    requires d != Legacy
    ensures WholePathOf(stem + "*", d) == StarWholePath(stem)
  {
    var path := stem + "*";
    assert |path| > 0 && path[|path| - 1] == '*';
    assert path[..|path| - 1] == stem;
  }

  /** For `pre:name/post*`, a candidate that starts with `pre` and has `/post` somewhere after
      that matches whatever its segment count. */
  lemma WildcardFirstParam(pre: string, name: string, post: string, str: string, d: Dialect)
    requires d != Legacy && ':' !in pre && '/' !in name
    requires StartsWith(str, pre) && Contains(str[|pre|..], "/" + post)
    ensures PathMatch(Tokenize(pre + ":" + name + "/" + post + "*", d), str).Some?
  {
    var tp := Tokenize(pre + ":" + name + "/" + post + "*", d);
    WildcardOfFirstParam(pre, name, post, d);
    assert WholePathAccepts(tp.wholePath, str);
    WholePathSuffices(tp, str);
  }

  /** A candidate that does not start with `p` matches `p*` only segment by segment. */
  lemma WildcardElsewhere(p: string, str: string, d: Dialect)
    requires d != Legacy && ':' !in p && !StartsWith(str, p)
    ensures PathMatch(Tokenize(p + "*", d), str).Some? <==> AllAccept(Tokenize(p + "*", d).tokens, Parts(str))
  {
    StarWithoutParam(p, d);
    var tp := Tokenize(p + "*", d);
    SegmentwiseMatch(tp, str, tp.tokens, Parts(str));
  }

  /** `/home*` compiles to one literal section `home*` and a wildcard whole-path test. */
  lemma HomeStarCompiled(d: Dialect)
    requires d != Legacy
    ensures Tokenize("/home*", d).wholePath == Wildcard("/home", "")
    ensures Tokenize("/home*", d).tokens == [Literal("home*")]
  {
    assert "/home" + "*" == "/home*";
    StarWithoutParam("/home", d);
    HomeStarTokens(d);
  }

  /** The one token of `/home*`. */
  lemma HomeStarTokens(d: Dialect)
    ensures Tokenize("/home*", d).tokens == [Literal("home*")]
  {
    assert "/home*"[1..] == "home*";
    OneSection("/home*", d);
    assert !IsMatchingParam("home*") && !IsSimpleParam("home*");
  }

  /** A pattern `/s` with no further `/` has the one section `s`. */
  lemma OneSection(path: string, d: Dialect)
    requires |path| > 0 && path[0] == '/' && '/' !in path[1..]
    ensures Tokenize(path, d).tokens == [Classify(path[1..], d)]
  {
  }

  /** A candidate `/a` with a non-empty `a` and no further `/` has the one segment `a`. */
  lemma PartsOfOne(a: string)
    requires |a| > 0 && '/' !in a
    ensures Parts("/" + a) == [a]
  {
    assert ("/" + a)[1..] == a;
    assert ("/" + a)[|a|] == a[|a| - 1];
  }

  /** A single literal section rejects any single segment it does not accept. */
  lemma SingleLiteralRejects(tp: TokenizedPath, str: string, text: string, seg: string)
    requires tp.tokens == [Literal(text)]
    requires !WholePathAccepts(tp.wholePath, str)
    requires Parts(str) == [seg] && !Accepts(Literal(text), seg)
    ensures PathMatch(tp, str).None?
  {
    SegmentwiseMatch(tp, str, tp.tokens, [seg]);
  }

  /** `/away` is neither a prefix match nor a segment match of `/home*`. */
  lemma AwayIsNotHome(d: Dialect)
    requires d != Legacy
    ensures PathMatch(Tokenize("/home*", d), "/away").None?
  {
    var tp := Tokenize("/home*", d);
    HomeStarCompiled(d);
    assert !StartsWith("/away", "/home") by { assert "/away"[1] != "/home"[1]; }
    assert !WholePathAccepts(tp.wholePath, "/away");
    assert "/away" == "/" + "away";
    PartsOfOne("away");
    assert !Accepts(Literal("home*"), "away") by { assert "away"[..3][0] != "hom"[0]; }
    SingleLiteralRejects(tp, "/away", "home*", "away");
  }

  /** The `/home*` example: `/home`, `/homer` and `/home/test` match; `/away` does not. */
  lemma HomeStar(d: Dialect)
    requires d != Legacy
    ensures PathMatch(Tokenize("/home*", d), "/home").Some?
    ensures PathMatch(Tokenize("/home*", d), "/homer").Some?
    ensures PathMatch(Tokenize("/home*", d), "/home/test").Some?
    ensures PathMatch(Tokenize("/home*", d), "/away").None?
  {
    assert "/home" + "*" == "/home*";
    assert ':' !in "/home";
    assert "/homer"[..5] == "/home";
    assert "/home/test"[..5] == "/home";
    WildcardPrefix("/home", "/home", d);
    WildcardPrefix("/home", "/homer", d);
    WildcardPrefix("/home", "/home/test", d);
    AwayIsNotHome(d);
  }

  /** A literal section `stem c*` accepts exactly `stem` followed by some number of `c`. */
  lemma QuantifiedLiteral(stem: string, c: char, seg: string)
    requires c != '*'
    ensures Accepts(Literal(stem + [c, '*']), seg) <==>
      |stem| <= |seg| && seg == stem + Repeat(c, |seg| - |stem|)
  {
    var text := stem + [c, '*'];
    assert text[..|text| - 2] == stem && text[|text| - 2] == c;
    if |stem| <= |seg| {
      var more := Repeat(c, |seg| - |stem|);
      if RepeatsLast(text, seg) {
        assert seg == seg[..|stem|] + seg[|stem|..];
        assert seg[|stem|..] == more;
      }
      if seg == stem + more {
        assert seg[..|stem|] == stem;
        assert forall i :: |stem| <= i < |seg| ==> seg[i] == more[i - |stem|];
      }
    }
  }

  /** The last section of a wildcard pattern `/stem c*` is itself a quantifier: a candidate
      `/stem` followed by any number of `c` matches segment by segment, in every version, even
      where it falls short of the whole-path prefix `/stem c`. */
  lemma StarRepeatsLast(stem: string, c: char, k: nat, d: Dialect)
    requires |stem| > 0 && '/' !in stem && c != '/' && c != '*'
    ensures PathMatch(Tokenize("/" + stem + [c] + "*", d), "/" + stem + Repeat(c, k)).Some?
  {
    var seg := stem + Repeat(c, k);
    StarTokens(stem, c, d);
    RepeatParts(stem, c, k);
    QuantifiedLiteral(stem, c, seg);
    OneLiteralAccepts(Tokenize("/" + stem + [c] + "*", d), "/" + stem + Repeat(c, k), stem + [c, '*'], seg);
  }

  /** `/stem c*` compiles to the one literal section `stem c*`. */
  lemma StarTokens(stem: string, c: char, d: Dialect)
    requires '/' !in stem && c != '/'
    ensures Tokenize("/" + stem + [c] + "*", d).tokens == [Literal(stem + [c, '*'])]
  {
    var part := stem + [c, '*'];
    var path := "/" + part;
    assert "/" + stem + [c] + "*" == path;
    assert path[1..] == part && '/' !in part;
    StarSectionLiteral(part, d);
    OneSection(path, d);
  }

  /** The one segment of `/stem c...c`. */
  lemma RepeatParts(stem: string, c: char, k: nat)
    requires |stem| > 0 && '/' !in stem && c != '/'
    ensures Parts("/" + stem + Repeat(c, k)) == [stem + Repeat(c, k)]
  {
    var seg := stem + Repeat(c, k);
    assert '/' !in seg;
    PartsOfOne(seg);
    assert "/" + stem + Repeat(c, k) == "/" + seg;
  }

  /** A section ending in `*`, other than `*` itself, is a literal. */
  lemma StarSectionLiteral(part: string, d: Dialect)
    requires |part| >= 2 && part[|part| - 1] == '*'
    ensures Classify(part, d) == Literal(part)
  {
    assert part[1..][|part| - 2] == '*' && !IsWordChar('*');
  }

  /** A single literal section accepts a single segment it accepts. */
  lemma OneLiteralAccepts(tp: TokenizedPath, str: string, text: string, seg: string)
    requires tp.tokens == [Literal(text)] && Parts(str) == [seg] && Accepts(Literal(text), seg)
    ensures PathMatch(tp, str).Some?
  {
    assert AllAccept(tp.tokens, Parts(str));
  }

  /** `/home*` routes `/hom` and `/hom/`: the segment test `^home*$` accepts `hom`. */
  lemma HomMatchesHomeStar(d: Dialect)
    ensures PathMatch(Tokenize("/home*", d), "/hom").Some?
    ensures PathMatch(Tokenize("/home*", d), "/hom/").Some?
  {
    var tp := Tokenize("/home*", d);
    HomeStarTokens(d);
    assert "/hom" == "/" + "hom" && "/hom" + "/" == "/hom/";
    PartsOfOne("hom");
    TrailingSlashParts("/hom");
    assert "hom" + ['e', '*'] == "home*" && "hom" + Repeat('e', 0) == "hom";
    QuantifiedLiteral("hom", 'e', "hom");
    OneLiteralAccepts(tp, "/hom", "home*", "hom");
    OneLiteralAccepts(tp, "/hom/", "home*", "hom");
  }

  /** The pieces of `:name(expr)`. */
  lemma ParamPieces(name: string, expr: string)
    ensures var part := ":" + name + "(" + expr;
      && part[1..] == name + ['('] + expr
      && part[1..1 + |name|] == name
      && part == ([':'] + name) + ['('] + expr
  {
  }

  /** `:name(expr)` is a constrained parameter whenever `expr` ends with `)`. */
  lemma MatchingParamShape(name: string, expr: string)
    requires IsWord(name) && |expr| > 0 && expr[|expr| - 1] == ')'
    ensures IsMatchingParam(":" + name + "(" + expr)
    ensures Split((":" + name + "(" + expr)[1..], '(') == [name] + Split(expr, '(')
  {
    ParamPieces(name, expr);
    assert '(' !in name by {
      forall i | 0 <= i < |name| ensures name[i] != '(' {
        assert IsWordChar(name[i]);
      }
    }
    IndexOfPrefix([':'] + name, '(', expr);
    SplitCons(name, '(', expr);
  }

  /** The constraint branch of `Classify`. */
  lemma ClassifyConstrained(part: string, d: Dialect)
    requires IsMatchingParam(part)
    ensures '(' in part[1..]
    ensures Classify(part, d) ==
      Constrained(Split(part[1..], '(')[0], Alternatives(Split(part[1..], '(')[1]))
  {
    var k := IndexOf(part, '(');
    assert part[1..][k - 1] == '(';
  }

  /** The alternatives of `a|b)`. */
  lemma AlternativesOfTwo(a: string, b: string)
    requires '(' !in a && '(' !in b && '|' !in a && '|' !in b
    ensures '(' !in a + "|" + b + ")"
    ensures Alternatives(a + "|" + b + ")") == [a, b]
  {
    var expr := a + "|" + b + ")";
    assert expr[..|expr| - 1] == a + ['|'] + b;
    SplitCons(a, '|', b);
  }

  /** `:name(a|b)` compiles to a constraint with the alternatives `a` and `b`. */
  lemma ConstraintOfTwo(name: string, a: string, b: string, d: Dialect)
    requires IsWord(name)
    requires '(' !in a && '(' !in b && '|' !in a && '|' !in b
    ensures Classify(":" + name + "(" + a + "|" + b + ")", d) == Constrained(name, [a, b])
  {
    var expr := a + "|" + b + ")";
    var part := ":" + name + "(" + expr;
    assert ":" + name + "(" + a + "|" + b + ")" == part;
    AlternativesOfTwo(a, b);
    MatchingParamShape(name, expr);
    ClassifyConstrained(part, d);
  }

  /** The pieces of `/a/b`. */
  lemma TwoSectionPieces(a: string, b: string)
    ensures var path := "/" + a + "/" + b;
      && path[0] == '/' && path[1..] == a + ['/'] + b && path[|path| - 1] == (if |b| > 0 then b[|b| - 1] else '/')
  {
  }

  /** A pattern `/a/b` has the two sections `a` and `b`. */
  lemma SectionsOfTwo(a: string, b: string)
    requires '/' !in a && '/' !in b
    ensures Sections("/" + a + "/" + b) == [a, b]
  {
    TwoSectionPieces(a, b);
    SplitCons(a, '/', b);
  }

  /** A candidate `/a/b` with a non-empty `b` has the two segments `a` and `b`. */
  lemma PartsOfTwo(a: string, b: string)
    requires '/' !in a && '/' !in b && |b| > 0
    ensures Parts("/" + a + "/" + b) == [a, b]
  {
    TwoSectionPieces(a, b);
    SplitCons(a, '/', b);
  }

  /** A match that the whole-path test does not decide is decided segment by segment. */
  lemma SegmentwiseMatch(tp: TokenizedPath, str: string, tokens: seq<Token>, parts: seq<string>)
    requires tp.tokens == tokens && Parts(str) == parts
    requires !WholePathAccepts(tp.wholePath, str)
    ensures PathMatch(tp, str) == if AllAccept(tokens, parts) then Some(Bind(tokens, parts)) else None
  {
  }

  /** Two positions accept iff each does. */
  lemma AcceptsTwo(t0: Token, t1: Token, x: string, y: string)
    ensures AllAccept([t0, t1], [x, y]) <==> Accepts(t0, x) && Accepts(t1, y)
  {
    var ts, xs := [t0, t1], [x, y];
    assert ts[0] == t0 && ts[1] == t1 && xs[0] == x && xs[1] == y;
    if Accepts(t0, x) && Accepts(t1, y) {
      assert forall i :: 0 <= i < 2 ==> Accepts(ts[i], xs[i]);
    }
    if AllAccept(ts, xs) {
      assert Accepts(ts[0], xs[0]) && Accepts(ts[1], xs[1]);
    }
  }

  /** Two positions, the first unnamed: only the second can bind. */
  lemma BindOfTwo(t0: Token, t1: Token, a: string, b: string)
    requires !t0.Named()
    ensures Bind([t0, t1], [a, b]) == if t1.Named() && Accepts(t1, b) then map[t1.name := b] else map[]
  {
    assert [a, b][..1] == [a];
    assert [a][..0] == [];
    assert !Binds([t0, t1], [a], 0);
    assert Bind([t0, t1], [a]) == map[];
  }

  /** No `/` in a constraint `:name(a|b)` built from `/`-free pieces. */
  lemma ConstraintHasNoSlash(name: string, a: string, b: string)
    requires '/' !in name && '/' !in a && '/' !in b
    ensures '/' !in ":" + name + "(" + a + "|" + b + ")"
    ensures (":" + name + "(" + a + "|" + b + ")")[1 + |name|] == '('
  {
  }

  /** A word holds neither `/` nor `(`. */
  lemma WordHasNoSeparator(name: string)
    requires IsWord(name)
    ensures '/' !in name && '(' !in name && '*' !in name && '$' !in name && '?' !in name && ':' !in name
  {
  }

  /** A word is a literal section in every version. */
  lemma WordIsLiteral(word: string, d: Dialect)
    requires IsWord(word)
    ensures Classify(word, d) == Literal(word)
  {
    assert IsWordChar(word[0]);
  }

  /** `/pre/:name(a|b)` compiles to a literal and a two-way constraint. */
  lemma ConstraintPatternTokens(pre: string, name: string, a: string, b: string, d: Dialect)
    requires IsWord(pre) && IsWord(name)
    requires '(' !in a && '(' !in b && '|' !in a && '|' !in b && '/' !in a && '/' !in b
    ensures Tokenize("/" + pre + "/" + (":" + name + "(" + a + "|" + b + ")"), d).tokens ==
      [Literal(pre), Constrained(name, [a, b])]
  {
    var part := ":" + name + "(" + a + "|" + b + ")";
    WordHasNoSeparator(pre);
    WordHasNoSeparator(name);
    ConstraintHasNoSlash(name, a, b);
    SectionsOfTwo(pre, part);
    TwoSections("/" + pre + "/" + part, d, pre, part);
    WordIsLiteral(pre, d);
    ConstraintOfTwo(name, a, b, d);
  }

  /** A pattern with two sections compiles to their two tokens. */
  lemma TwoSections(path: string, d: Dialect, x: string, y: string)
    requires Sections(path) == [x, y]
    ensures Tokenize(path, d).tokens == [Classify(x, d), Classify(y, d)]
  {
    var ts := Tokenize(path, d).tokens;
    assert |ts| == 2 && ts[0] == Classify(x, d) && ts[1] == Classify(y, d);
  }

  /** The whole-path test of `/pre/:name(a|b)` is the pattern text itself. */
  lemma ConstraintPatternWhole(pre: string, name: string, a: string, b: string, d: Dialect)
    ensures var path := "/" + pre + "/" + (":" + name + "(" + a + "|" + b + ")");
      Tokenize(path, d).wholePath == if d == Legacy then NoWholePath else ExactPath(path)
  {
    TwoSectionPieces(pre, ":" + name + "(" + a + "|" + b + ")");
  }

  /** A candidate without `(` is not the text of a pattern with a constraint. */
  lemma NotConstraintText(pre: string, name: string, a: string, b: string, seg: string)
    requires '(' !in pre && '(' !in seg
    ensures "/" + pre + "/" + seg != "/" + pre + "/" + (":" + name + "(" + a + "|" + b + ")")
  {
    var part := ":" + name + "(" + a + "|" + b + ")";
    var str := "/" + pre + "/" + seg;
    var path := "/" + pre + "/" + part;
    assert path[|pre| + 2 + 1 + |name|] == '(';
  }

  /** What matching `/pre/seg` against `/pre/:name(a|b)` needs to know about the pattern. */
  lemma ConstraintPatternAgainst(pre: string, name: string, a: string, b: string, seg: string, d: Dialect)
    requires IsWord(pre) && IsWord(name)
    requires '(' !in a && '(' !in b && '|' !in a && '|' !in b && '/' !in a && '/' !in b
    requires '(' !in seg
    ensures var tp := Tokenize("/" + pre + "/" + (":" + name + "(" + a + "|" + b + ")"), d);
      && tp.tokens == [Literal(pre), Constrained(name, [a, b])]
      && !WholePathAccepts(tp.wholePath, "/" + pre + "/" + seg)
  {
    WordHasNoSeparator(pre);
    ConstraintPatternTokens(pre, name, a, b, d);
    ConstraintPatternWhole(pre, name, a, b, d);
    NotConstraintText(pre, name, a, b, seg);
  }

  /** A literal followed by a two-way constraint, when the whole-path test fails: the match
      succeeds iff the second segment is one of the alternatives, and binds it. */
  lemma LiteralThenConstraint(tp: TokenizedPath, str: string, pre: string, name: string, a: string, b: string, seg: string)
    requires tp.tokens == [Literal(pre), Constrained(name, [a, b])] && '*' !in pre
    requires !WholePathAccepts(tp.wholePath, str)
    requires Parts(str) == [pre, seg]
    ensures PathMatch(tp, str) == if seg == a || seg == b then Some(map[name := seg]) else None
  {
    var tokens := [Literal(pre), Constrained(name, [a, b])];
    AcceptsTwo(tokens[0], tokens[1], pre, seg);
    BindOfTwo(tokens[0], tokens[1], pre, seg);
    SegmentwiseMatch(tp, str, tokens, [pre, seg]);
  }

  /** The `/user/:section(info|settings)` example, for any literal first section and any
      two-way constraint: a segment matches iff it is one of the alternatives, and it is then
      bound under the parameter's name. */
  lemma SectionConstraint(pre: string, name: string, a: string, b: string, seg: string, d: Dialect)
    requires IsWord(pre) && IsWord(name)
    requires '(' !in a && '(' !in b && '|' !in a && '|' !in b && '/' !in a && '/' !in b
    requires |seg| > 0 && '/' !in seg && '(' !in seg
    ensures var path := "/" + pre + "/" + (":" + name + "(" + a + "|" + b + ")");
      PathMatch(Tokenize(path, d), "/" + pre + "/" + seg) ==
        if seg == a || seg == b then Some(map[name := seg]) else None
  {
    WordHasNoSeparator(pre);
    ConstraintPatternAgainst(pre, name, a, b, seg, d);
    PartsOfTwo(pre, seg);
    LiteralThenConstraint(Tokenize("/" + pre + "/" + (":" + name + "(" + a + "|" + b + ")"), d),
      "/" + pre + "/" + seg, pre, name, a, b, seg);
  }

  /** A pattern `/...` not ending in `/` has its own sections as its segments. */
  lemma PartsOfPattern(path: string)
    requires |path| > 0 && path[0] == '/' && path[|path| - 1] != '/'
    ensures Parts(path) == Sections(path)
  {
  }

  /** A pattern with no trailing `*` rejects a candidate whose segment count differs from its
      section count: the whole-path test would need the candidate to be the pattern itself. */
  lemma ArityRejects(path: string, str: string, d: Dialect)
    requires |path| > 0 && path[0] == '/' && path[|path| - 1] != '/' && path[|path| - 1] != '*'
    requires |Parts(str)| != |Sections(path)|
    ensures PathMatch(Tokenize(path, d), str).None?
  {
    PartsOfPattern(path);
  }

  /** A parameter section `:name`. */
  lemma ParamSection(name: string, d: Dialect)
    requires IsWord(name)
    ensures Classify(":" + name, d) == Param(name)
  {
    assert (":" + name)[1..] == name;
  }

  /** `/w/:name` matches `/w/seg` for any non-empty segment, binding `name` to it. */
  lemma LiteralParam(w: string, name: string, seg: string, d: Dialect)
    requires IsWord(w) && IsWord(name)
    requires |seg| > 0 && '/' !in seg
    ensures PathMatch(Tokenize("/" + w + "/" + (":" + name), d), "/" + w + "/" + seg) == Some(map[name := seg])
  {
    var part := ":" + name;
    WordHasNoSeparator(w);
    WordHasNoSeparator(name);
    SectionsOfTwo(w, part);
    TwoSections("/" + w + "/" + part, d, w, part);
    WordIsLiteral(w, d);
    ParamSection(name, d);
    PartsOfTwo(w, seg);
    assert !Quantified(w);
    AcceptsTwo(Literal(w), Param(name), w, seg);
    BindOfTwo(Literal(w), Param(name), w, seg);
    AcceptedMatch(Tokenize("/" + w + "/" + part, d), "/" + w + "/" + seg);
  }

  /** The pieces of `/a/b/c`. */
  lemma ThreeSectionPieces(a: string, b: string, c: string)
    requires |c| > 0
    ensures var path := "/" + a + "/" + b + "/" + c;
      && path[0] == '/' && path[1..] == a + ['/'] + (b + ['/'] + c) && path[|path| - 1] == c[|c| - 1]
  {
  }

  /** A pattern `/a/b/c` has the three sections `a`, `b` and `c`. */
  lemma SectionsOfThree(a: string, b: string, c: string)
    requires '/' !in a && '/' !in b && '/' !in c && |c| > 0
    ensures Sections("/" + a + "/" + b + "/" + c) == [a, b, c]
  {
    ThreeSectionPieces(a, b, c);
    SplitThree(a, b, c);
  }

  /** A candidate `/a/b/c` with a non-empty `c` has the three segments `a`, `b` and `c`. */
  lemma PartsOfThree(a: string, b: string, c: string)
    requires '/' !in a && '/' !in b && '/' !in c && |c| > 0
    ensures Parts("/" + a + "/" + b + "/" + c) == [a, b, c]
  {
    ThreeSectionPieces(a, b, c);
    SplitThree(a, b, c);
  }

  lemma SplitThree(a: string, b: string, c: string)
    requires '/' !in a && '/' !in b && '/' !in c
    ensures Split(a + ['/'] + (b + ['/'] + c), '/') == [a, b, c]
  {
    SplitCons(a, '/', b + ['/'] + c);
    SplitCons(b, '/', c);
    SplitNone(c, '/');
  }

  /** A literal then two parameters of different names: both segments are bound. */
  lemma BindOfThree(w: string, n: string, r: string, x: string, seg: string)
    requires '*' !in w && n != r && |x| > 0 && |seg| > 0
    ensures AllAccept([Literal(w), Param(n), Param(r)], [w, x, seg])
    ensures Bind([Literal(w), Param(n), Param(r)], [w, x, seg]) == map[n := x, r := seg]
  {
    var ts, ps := [Literal(w), Param(n), Param(r)], [w, x, seg];
    assert ps[..2] == [w, x] && [w, x][..1] == [w] && [w][..0] == [];
    assert !Binds(ts, [w], 0);
    assert Bind(ts, [w]) == map[];
    assert Binds(ts, [w, x], 1);
    assert Bind(ts, [w, x]) == map[n := x];
    assert Binds(ts, ps, 2);
    assert Bind(ts, ps) == map[n := x][r := seg];
    assert !Quantified(w);
    assert forall i :: 0 <= i < 3 ==> Accepts(ts[i], ps[i]);
  }

  /** A candidate every token accepts matches, whatever the whole-path test says. */
  lemma AcceptedMatch(tp: TokenizedPath, str: string)
    requires AllAccept(tp.tokens, Parts(str))
    ensures PathMatch(tp, str) == Some(Bind(tp.tokens, Parts(str)))
  {
  }

  /** A pattern with three sections compiles to their three tokens. */
  lemma ThreeSections(path: string, d: Dialect, x: string, y: string, z: string)
    requires Sections(path) == [x, y, z]
    ensures Tokenize(path, d).tokens == [Classify(x, d), Classify(y, d), Classify(z, d)]
  {
    ThreeTokens(Tokenize(path, d), d, x, y, z);
  }

  lemma ThreeTokens(tp: TokenizedPath, d: Dialect, x: string, y: string, z: string)
    requires tp.Valid() && tp.sections == [x, y, z]
    requires forall i :: 0 <= i < |tp.tokens| ==> tp.tokens[i] == Classify(tp.sections[i], d)
    ensures tp.tokens == [Classify(x, d), Classify(y, d), Classify(z, d)]
  {
    assert tp.tokens[0] == Classify(x, d) && tp.tokens[1] == Classify(y, d) && tp.tokens[2] == Classify(z, d);
  }

  /** `/w/:n/:r` matches `/w/x/seg` for non-empty `x` and `seg`, binding both. */
  lemma LiteralTwoParams(w: string, n: string, r: string, x: string, seg: string, d: Dialect)
    requires IsWord(w) && IsWord(n) && IsWord(r) && n != r
    requires |x| > 0 && '/' !in x && |seg| > 0 && '/' !in seg
    ensures PathMatch(Tokenize("/" + w + "/" + (":" + n) + "/" + (":" + r), d), "/" + w + "/" + x + "/" + seg) ==
      Some(map[n := x, r := seg])
  {
    var path := "/" + w + "/" + (":" + n) + "/" + (":" + r);
    WordHasNoSeparator(w);
    WordHasNoSeparator(n);
    WordHasNoSeparator(r);
    SectionsOfThree(w, ":" + n, ":" + r);
    PartsOfThree(w, x, seg);
    ThreeSections(path, d, w, ":" + n, ":" + r);
    WordIsLiteral(w, d);
    ParamSection(n, d);
    ParamSection(r, d);
    BindOfThree(w, n, r, x, seg);
    AcceptedMatch(Tokenize(path, d), "/" + w + "/" + x + "/" + seg);
  }
}
