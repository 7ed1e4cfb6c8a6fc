/** String helpers with the semantics of the JavaScript string methods the router uses
    (`indexOf`, `split`, `join`, `replace`, `startsWith`, `includes`). Strings are `seq<char>`. */
module Text {

  datatype Option<+T> = None | Some(value: T)

  /** A mapping from parameter (or query) names to string values. */
  type Params = map<string, string>

  /** Position of the first `c` in `s`; `|s|` stands for JavaScript's -1. */
  function IndexOf(s: string, c: char): (i: nat)
    ensures i <= |s|
    ensures i < |s| ==> s[i] == c
    ensures forall j :: 0 <= j < i ==> s[j] != c
  {
    if |s| == 0 then 0
    else if s[0] == c then 0
    else IndexOf(s[1..], c) + 1
  }

  /** The first `c` is at `i` when `s[i]` is a `c` and none comes before it. */
  lemma IndexOfUnique(s: string, c: char, i: nat)
    requires i < |s| && s[i] == c
    requires forall j :: 0 <= j < i ==> s[j] != c
    ensures IndexOf(s, c) == i
  {
  }

  /** `s.split(c)` for a one-character separator: the pieces between the separators, at least one. */
  function Split(s: string, c: char): (parts: seq<string>)
    ensures |parts| >= 1
    ensures parts[0] == s[..IndexOf(s, c)]
    ensures IndexOf(s, c) == |s| ==> parts == [s]
    ensures IndexOf(s, c) < |s| ==> |parts| >= 2
    decreases |s|
  {
    var i := IndexOf(s, c);
    if i == |s| then [s] else [s[..i]] + Split(s[i + 1..], c)
  }

  /** No piece of a split holds the separator. */
  lemma {:induction false} SplitPieces(s: string, c: char)
    ensures forall k :: 0 <= k < |Split(s, c)| ==> c !in Split(s, c)[k]
    decreases |s|
  {
    var i := IndexOf(s, c);
    if i < |s| {
      SplitPieces(s[i + 1..], c);
      SplitAt(s, c);
    } else {
      SplitWhole(s, c);
    }
  }

  /** A string without the separator is its own single piece. */
  lemma SplitNone(s: string, c: char)
    requires c !in s
    ensures Split(s, c) == [s]
  {
  }

  /** `parts.join(c)`. */
  function Join(parts: seq<string>, c: char): string
  {
    if |parts| == 0 then ""
    else if |parts| == 1 then parts[0]
    else parts[0] + [c] + Join(parts[1..], c)
  }

  /** Joining one more piece appends a separator and the piece. */
  lemma {:induction false} JoinSnoc(parts: seq<string>, c: char, last: string)
    requires |parts| > 0
    ensures Join(parts + [last], c) == Join(parts, c) + [c] + last
    decreases |parts|
  {
    if |parts| == 1 {
      assert (parts + [last])[1..] == [last];
    } else {
      var rest := parts[1..];
      assert (parts + [last])[1..] == rest + [last];
      JoinSnoc(rest, c, last);
    }
  }

  /** One unfolding of `Split` at the first separator. */
  lemma SplitAt(s: string, c: char)
    requires IndexOf(s, c) < |s|
    ensures Split(s, c) == [s[..IndexOf(s, c)]] + Split(s[IndexOf(s, c) + 1..], c)
  {
  }

  /** One unfolding of `Join` at its first piece. */
  lemma JoinCons(a: string, rest: seq<string>, c: char)
    requires |rest| >= 1
    ensures Join([a] + rest, c) == a + [c] + Join(rest, c)
  {
    assert ([a] + rest)[1..] == rest;
  }

  /** Splitting and joining again gives back the original string. */
  lemma {:induction false} JoinSplit(s: string, c: char)
    ensures Join(Split(s, c), c) == s
    decreases |s|
  {
    var i := IndexOf(s, c);
    if i < |s| {
      var a, b := s[..i], s[i + 1..];
      var rest := Split(b, c);
      SplitAt(s, c);
      JoinSplit(b, c);
      JoinCons(a, rest, c);
      SliceAround(s, i);
    } else {
      SplitWhole(s, c);
    }
  }

  /** A string is the text before position `i`, the character there and the text after. */
  lemma SliceAround(s: string, i: nat)
    requires i < |s|
    ensures s == s[..i] + [s[i]] + s[i + 1..]
  {
  }

  /** With no separator, the split is the string itself. */
  lemma SplitWhole(s: string, c: char)
    requires IndexOf(s, c) == |s|
    ensures Split(s, c) == [s]
  {
  }

  /** Joining pieces that hold no separator and splitting again gives back the pieces. */
  lemma {:induction false} SplitJoin(parts: seq<string>, c: char)
    requires |parts| >= 1
    requires forall k :: 0 <= k < |parts| ==> c !in parts[k]
    ensures Split(Join(parts, c), c) == parts
    decreases |parts|
  {
    if |parts| > 1 {
      var a, rest := parts[0], parts[1..];
      assert parts == [a] + rest;
      JoinCons(a, rest, c);
      SplitCons(a, c, Join(rest, c));
      SplitJoin(rest, c);
    }
  }

  /** The two sides of a separator, sliced back out of `a + [c] + b`. */
  lemma AroundSeparator(a: string, c: char, b: string)
    ensures (a + [c] + b)[..|a|] == a && (a + [c] + b)[|a|] == c && (a + [c] + b)[|a| + 1..] == b
  {
  }

  /** The first separator of `a + [c] + b` is the one after `a` when `a` holds none. */
  lemma IndexOfPrefix(a: string, c: char, b: string)
    requires c !in a
    ensures IndexOf(a + [c] + b, c) == |a|
  {
    AroundSeparator(a, c, b);
    var s := a + [c] + b;
    assert forall j :: 0 <= j < |a| ==> s[j] == a[j];
  }

  /** Splitting a string whose first separator follows the separator-free prefix `a`. */
  lemma SplitCons(a: string, c: char, b: string)
    requires c !in a
    ensures Split(a + [c] + b, c) == [a] + Split(b, c)
  {
    IndexOfPrefix(a, c, b);
    AroundSeparator(a, c, b);
    SplitAt(a + [c] + b, c);
  }

  /** Splitting at one separator between `a` and `b` splits each side on its own. */
  lemma {:induction false} SplitConcat(a: string, c: char, b: string)
    ensures Split(a + [c] + b, c) == Split(a, c) + Split(b, c)
    decreases |a|
  {
    var i := IndexOf(a, c);
    if i == |a| {
      SplitWhole(a, c);
      SplitCons(a, c, b);
    } else {
      var a1, a2 := a[..i], a[i + 1..];
      SplitFirstPiece(a, c, b);
      SplitConcat(a2, c, b);
      Assoc([a1], Split(a2, c), Split(b, c));
    }
  }

  /** Concatenation regrouped. */
  lemma Assoc<T>(x: seq<T>, y: seq<T>, z: seq<T>)
    ensures x + (y + z) == (x + y) + z
  {
  }

  /** `(x + [c] + y) + [c] + z` regrouped. */
  lemma Regroup(x: string, c: char, y: string, z: string)
    ensures (x + [c] + y) + [c] + z == x + [c] + (y + [c] + z)
  {
  }

  /** The first piece of `a + [c] + b` is the first piece of `a` when `a` holds a separator. */
  lemma SplitFirstPiece(a: string, c: char, b: string)
    requires IndexOf(a, c) < |a|
    ensures var i := IndexOf(a, c);
      && Split(a + [c] + b, c) == [a[..i]] + Split(a[i + 1..] + [c] + b, c)
      && Split(a, c) == [a[..i]] + Split(a[i + 1..], c)
  {
    var i := IndexOf(a, c);
    var a1, a2 := a[..i], a[i + 1..];
    SliceAround(a, i);
    Regroup(a1, c, a2, b);
    SplitCons(a1, c, a2 + [c] + b);
    SplitAt(a, c);
  }

  /** A character absent from a string is absent from each of its pieces. */
  lemma {:induction false} SplitPiecesAvoid(s: string, c: char, x: char)
    requires x !in s
    ensures forall k :: 0 <= k < |Split(s, c)| ==> x !in Split(s, c)[k]
    decreases |s|
  {
    var i := IndexOf(s, c);
    if i < |s| {
      assert x !in s[i + 1..] && x !in s[..i];
      SplitPiecesAvoid(s[i + 1..], c, x);
      SplitAt(s, c);
    } else {
      SplitWhole(s, c);
    }
  }

  /** A character other than the separator that no piece holds is not in the joined string. */
  lemma {:induction false} JoinAvoid(parts: seq<string>, c: char, x: char)
    requires x != c
    requires forall k :: 0 <= k < |parts| ==> x !in parts[k]
    ensures x !in Join(parts, c)
    decreases |parts|
  {
    if |parts| > 1 {
      JoinAvoid(parts[1..], c, x);
    }
  }

  /** `p` occurs in `s` at position `i`. */
  predicate OccursAt(s: string, p: string, i: nat)
  {
    i + |p| <= |s| && s[i..i + |p|] == p
  }

  /** `s.includes(p)`. */
  predicate Contains(s: string, p: string)
  {
    exists i: nat :: i <= |s| && OccursAt(s, p, i)
  }

  /** A string without the first character of `p` does not contain `p`. */
  lemma AbsentHead(s: string, p: string)
    requires |p| > 0 && p[0] !in s
    ensures !Contains(s, p)
  {
  }

  /** A prefix that already holds `c` has its first `c` where the whole string has it. */
  lemma IndexOfInPrefix(s: string, t: string, c: char)
    requires |t| <= |s| && s[..|t|] == t && c in t
    ensures IndexOf(s, c) == IndexOf(t, c)
  {
  }

  /** `s.startsWith(p)`. */
  predicate StartsWith(s: string, p: string)
  {
    |p| <= |s| && s[..|p|] == p
  }

  /** `s.indexOf(p)` for a non-empty `p`; `|s|` stands for -1. */
  function Find(s: string, p: string): (i: nat)
    requires |p| > 0
    ensures i <= |s|
    ensures i < |s| ==> OccursAt(s, p, i)
    ensures forall j: nat :: j < i ==> !OccursAt(s, p, j)
    ensures i == |s| <==> !Contains(s, p)
    decreases |s|
  {
    if |s| < |p| then
      assert forall j: nat :: j <= |s| ==> !OccursAt(s, p, j);
      |s|
    else if s[..|p|] == p then 0
    else
      var j := Find(s[1..], p);
      FindShift(s, p, j);
      if j < |s| - 1 then j + 1 else |s|
  }

  /** An occurrence in `s[1..]` at `k` is one in `s` at `k + 1`. */
  lemma OccursShift(s: string, p: string, k: nat)
    requires |s| > 0
    ensures OccursAt(s[1..], p, k) <==> OccursAt(s, p, k + 1)
  {
    if k + 1 + |p| <= |s| {
      assert s[1..][k..k + |p|] == s[k + 1..k + 1 + |p|];
    }
  }

  /** The search in `s[1..]` carried back to `s`, when `s` does not start with `p`. */
  lemma FindShift(s: string, p: string, j: nat)
    requires 0 < |p| <= |s| && s[..|p|] != p
    requires j <= |s[1..]|
    requires j < |s[1..]| ==> OccursAt(s[1..], p, j)
    requires forall k: nat :: k < j ==> !OccursAt(s[1..], p, k)
    requires j == |s[1..]| <==> !Contains(s[1..], p)
    ensures j < |s| - 1 ==> OccursAt(s, p, j + 1)
    ensures forall k: nat :: k < j + 1 ==> !OccursAt(s, p, k)
    ensures j == |s| - 1 ==> !Contains(s, p)
  {
    OccursShift(s, p, j);
    forall k: nat | k < j + 1
      ensures !OccursAt(s, p, k)
    {
      if k > 0 { OccursShift(s, p, k - 1); }
    }
    if j == |s| - 1 {
      forall k: nat | k <= |s|
        ensures !OccursAt(s, p, k)
      {
        if k > 0 { OccursShift(s, p, k - 1); }
      }
    }
  }

  /** The first occurrence is where `p` occurs with no occurrence before it. */
  lemma FindAt(s: string, p: string, i: nat)
    requires |p| > 0 && OccursAt(s, p, i)
    requires forall j: nat :: j < i ==> !OccursAt(s, p, j)
    ensures Find(s, p) == i
  {
  }

  /** The text before the first `p` (all of `s` when there is none): `s.split(p)[0]`. */
  function Before(s: string, p: string): (r: string)
    requires |p| > 0
    ensures StartsWith(s, r)
    ensures !Contains(r, p)
  {
    var i := Find(s, p);
    assert forall j: nat :: j <= i && OccursAt(s[..i], p, j) ==> OccursAt(s, p, j) by {
      forall j: nat | j <= i && OccursAt(s[..i], p, j) ensures OccursAt(s, p, j) {
        assert s[..i][j..j + |p|] == s[j..j + |p|];
      }
    }
    s[..i]
  }

  /** `s.replace(p, r)` with a string pattern: only the first occurrence is replaced. */
  function ReplaceFirst(s: string, p: string, r: string): string
    requires |p| > 0
  {
    var i := Find(s, p);
    if i < |s| then s[..i] + r + s[i + |p|..] else s
  }

  /** `s.replace(/\$:/g, ':')`: every `$:`, scanned left to right without overlap, becomes `:`. */
  function ReplaceDollarColons(s: string): (r: string)
    ensures |r| <= |s|
    ensures ':' in s ==> ':' in r
  {
    if |s| >= 2 && s[0] == '$' && s[1] == ':' then ":" + ReplaceDollarColons(s[2..])
    else if |s| == 0 then ""
    else [s[0]] + ReplaceDollarColons(s[1..])
  }

  /** A string without any `$` is left alone by `ReplaceDollarColons`. */
  lemma {:induction false} NoDollarUnchanged(s: string)
    requires '$' !in s
    ensures ReplaceDollarColons(s) == s
  {
    if |s| > 0 {
      assert '$' !in s[1..];
      NoDollarUnchanged(s[1..]);
    }
  }

  /** One trailing `/` removed, if there is one. */
  function DropTrailingSlash(s: string): (r: string)
    ensures s == r || s == r + "/"
    ensures |s| > 0 && s[|s| - 1] == '/' <==> s != r
  {
    if |s| > 0 && s[|s| - 1] == '/' then s[..|s| - 1] else s
  }
}
