/**
 * googletest's filter globbing: a linear scan that only ever goes back to the last star, against
 * the plain definition of the glob language.
 */
module Glob {

  /** The glob language: `?` stands for one character, `*` for any string, any other character for itself. */
  ghost predicate Matches(pattern: string, name: string)
    decreases |pattern|
  {
    if pattern == [] then name == []
    else if pattern[0] == '*' then exists k :: 0 <= k <= |name| && Matches(pattern[1..], name[k..])
    else name != [] && (pattern[0] == '?' || pattern[0] == name[0]) && Matches(pattern[1..], name[1..])
  }

  /** The rest of the pattern from `p` matches the rest of the name from `n`. */
  ghost predicate From(pattern: string, name: string, p: int, n: int)
    requires 0 <= p <= |pattern| && 0 <= n <= |name|
  {
    Matches(pattern[p..], name[n..])
  }

  /** A character that is not a star consumes exactly one character of the name. */
  lemma FromChar(pattern: string, name: string, p: int, n: int)
    requires 0 <= p < |pattern| && 0 <= n <= |name| && pattern[p] != '*'
    ensures From(pattern, name, p, n) <==>
            n < |name| && (pattern[p] == '?' || pattern[p] == name[n]) && From(pattern, name, p + 1, n + 1)
  {
    assert pattern[p..][1..] == pattern[p + 1..];
    if n < |name| { assert name[n..][1..] == name[n + 1..]; }
  }

  /** The rest of the pattern from `p` matches from some point of the name not before `n`. */
  ghost predicate Later(pattern: string, name: string, p: int, n: int)
    requires 0 <= p <= |pattern| && 0 <= n <= |name|
  {
    exists m :: n <= m <= |name| && From(pattern, name, p, m)
  }

  /** A star matches from `n` exactly when what follows it matches from some later point. */
  lemma FromStar(pattern: string, name: string, p: int, n: int)
    requires 0 <= p < |pattern| && 0 <= n <= |name| && pattern[p] == '*'
    ensures From(pattern, name, p, n) <==> Later(pattern, name, p + 1, n)
  {
    assert pattern[p..][1..] == pattern[p + 1..];
    if From(pattern, name, p, n) {
      var k :| 0 <= k <= |name[n..]| && Matches(pattern[p + 1..], name[n..][k..]);
      assert name[n..][k..] == name[n + k..];
      assert From(pattern, name, p + 1, n + k);
    }
    if Later(pattern, name, p + 1, n) {
      var m :| n <= m <= |name| && From(pattern, name, p + 1, m);
      assert name[n..][m - n..] == name[m..];
    }
  }

  /** A star that matches from a later point matches from an earlier one. */
  lemma StarAbsorbs(pattern: string, name: string, p: int, n: int, m: int)
    requires 0 <= p < |pattern| && 0 <= n <= m <= |name| && pattern[p] == '*' && From(pattern, name, p, m)
    ensures From(pattern, name, p, n)
  {
    FromStar(pattern, name, p, m);
    FromStar(pattern, name, p, n);
  }

  /** Between two stars every character of the pattern uses up one of the name. */
  lemma {:induction false} Segment(pattern: string, name: string, p: int, q: int, n: int)
    requires 0 <= p <= q <= |pattern| && 0 <= n <= |name| && From(pattern, name, p, n)
    requires forall i :: p <= i < q ==> pattern[i] != '*'
    ensures n + (q - p) <= |name| && From(pattern, name, q, n + (q - p))
    decreases q - p
  {
    if p < q {
      FromChar(pattern, name, p, n);
      Segment(pattern, name, p + 1, q, n + 1);
    }
  }

  /** Why going back to the last star is enough: if restarting at an earlier star would succeed, so
      does continuing from the next star where the scan is. */
  lemma LastStarSuffices(pattern: string, name: string, star: int, restart: int, p: int, n: int)
    requires 0 <= star < p < |pattern| && pattern[star] == '*' && pattern[p] == '*'
    requires forall i :: star < i < p ==> pattern[i] != '*'
    requires 0 < restart <= |name| && 0 <= n <= |name| && n == restart - 1 + (p - (star + 1))
    requires From(pattern, name, star, restart)
    ensures From(pattern, name, p, n)
  {
    FromStar(pattern, name, star, restart);
    var m :| restart <= m <= |name| && From(pattern, name, star + 1, m);
    Segment(pattern, name, star + 1, p, m);
    StarAbsorbs(pattern, name, p, n, m + (p - (star + 1)));
  }

  /** Restarting at the star one character later covers what is left of the star's matches. */
  lemma StarSplits(pattern: string, name: string, p: int, n: int)
    requires 0 <= p < |pattern| && 0 <= n <= |name| && pattern[p] == '*'
    ensures From(pattern, name, p, n) <==>
            From(pattern, name, p + 1, n) || (n + 1 <= |name| && From(pattern, name, p, n + 1))
  {
    FromStar(pattern, name, p, n);
    if n + 1 <= |name| { FromStar(pattern, name, p, n + 1); }
    if From(pattern, name, p, n) && !From(pattern, name, p + 1, n) {
      var m :| n <= m <= |name| && From(pattern, name, p + 1, m);
    }
  }

  method PatternMatchesString(name: string, pattern: string) returns (r: bool)
    ensures r <==> Matches(pattern, name)
  {
    var p, n := 0, 0;
    var patternNext, nameNext := 0, 0;
    assert pattern[0..] == pattern && name[0..] == name;
    while p < |pattern| || n < |name|
      invariant 0 <= p <= |pattern| && 0 <= n <= |name|
      invariant 0 <= patternNext <= p && 0 <= nameNext <= |name| + 1
      invariant nameNext > 0 ==> patternNext < |pattern| && pattern[patternNext] == '*'
      invariant nameNext > 0 ==> (p == patternNext && n == nameNext)
                                 || (p > patternNext && n == nameNext - 1 + (p - (patternNext + 1))
                                     && forall i :: patternNext < i < p ==> pattern[i] != '*')
      invariant Matches(pattern, name) <==>
                From(pattern, name, p, n) || (0 < nameNext <= |name| && From(pattern, name, patternNext, nameNext))
      decreases |pattern| - patternNext, |name| + 1 - nameNext,
                if nameNext > 0 && p == patternNext && n == nameNext then 0 else 1 + |pattern| - p + |name| - n
    {
      if p < |pattern| {
        if pattern[p] == '*' {
          if p > patternNext && 0 < nameNext <= |name| && From(pattern, name, patternNext, nameNext) {
            LastStarSuffices(pattern, name, patternNext, nameNext, p, n);
          }
          StarSplits(pattern, name, p, n);
          patternNext := p;
          nameNext := n + 1;
          p := p + 1;
          continue;
        }
        FromChar(pattern, name, p, n);
        if n < |name| && (pattern[p] == '?' || name[n] == pattern[p]) {
          p := p + 1;
          n := n + 1;
          continue;
        }
      }
      assert !From(pattern, name, p, n);
      if 0 < nameNext && nameNext <= |name| {
        p := patternNext;
        n := nameNext;
        continue;
      }
      return false;
    }
    return true;
  }

  // ---------- filters ----------

  /** The pieces of a filter between the colons. */
  function Pieces(filter: string): (r: seq<string>)
    ensures r != []
  {
    if filter == [] then [[]]
    else
      var rest := Pieces(filter[1..]);
      if filter[0] == ':' then [[]] + rest else [[filter[0]] + rest[0]] + rest[1..]
  }

  function Join(pieces: seq<string>): string {
    if pieces == [] then [] else if |pieces| == 1 then pieces[0] else pieces[0] + ":" + Join(pieces[1..])
  }

  /** The pieces hold no colon and, joined by colons, are the filter. */
  lemma {:induction false} PiecesJoin(filter: string)
    ensures Join(Pieces(filter)) == filter
    ensures forall i :: 0 <= i < |Pieces(filter)| ==> ':' !in Pieces(filter)[i]
    decreases |filter|
  {
    if filter != [] {
      PiecesJoin(filter[1..]);
      var rest := Pieces(filter[1..]);
      if filter[0] == ':' {
        assert ([[]] + rest)[1..] == rest;
        assert [] + ":" + Join(rest) == [filter[0]] + filter[1..];
      } else {
        var c, more := [filter[0]], rest[1..];
        assert ([c + rest[0]] + more)[1..] == more;
        assert |rest| > 1 ==> (c + rest[0]) + ":" + Join(more) == c + (rest[0] + ":" + Join(more));
        assert c + filter[1..] == filter;
      }
    }
  }

  ghost predicate MatchesSome(pieces: seq<string>, name: string) {
    exists i :: 0 <= i < |pieces| && Matches(pieces[i], name)
  }

  /** Cutting a filter at its first colon. */
  lemma {:induction false} PiecesCut(filter: string, e: int)
    requires 0 <= e <= |filter| && (forall i :: 0 <= i < e ==> filter[i] != ':')
    requires e == |filter| || filter[e] == ':'
    ensures Pieces(filter) == [filter[..e]] + if e == |filter| then [] else Pieces(filter[e + 1..])
    decreases |filter|
  {
    if filter == [] {
    } else if e == 0 {
      assert filter[..0] == [];
    } else {
      PiecesCut(filter[1..], e - 1);
      assert filter[..e] == [filter[0]] + filter[1..][..e - 1];
      assert e < |filter| ==> filter[e + 1..] == filter[1..][e..];
    }
  }

  /** What the first pattern of a filter decides and what is left to the others. */
  lemma FilterSplits(filter: string, pattern: int, e: int, name: string)
    requires 0 <= pattern <= e <= |filter| && (forall i :: pattern <= i < e ==> filter[i] != ':')
    requires e == |filter| || filter[e] == ':'
    ensures MatchesSome(Pieces(filter[pattern..]), name) <==>
            Matches(filter[pattern..e], name) || (e < |filter| && MatchesSome(Pieces(filter[e + 1..]), name))
  {
    var rest := filter[pattern..];
    PiecesCut(rest, e - pattern);
    assert rest[..e - pattern] == filter[pattern..e];
    assert e < |filter| ==> rest[e - pattern + 1..] == filter[e + 1..];
    ConsMatches(filter[pattern..e], if e == |filter| then [] else Pieces(filter[e + 1..]), name);
  }

  lemma ConsMatches(piece: string, rest: seq<string>, name: string)
    ensures MatchesSome([piece] + rest, name) <==> Matches(piece, name) || MatchesSome(rest, name)
  {
    var all := [piece] + rest;
    if MatchesSome(rest, name) {
      var i :| 0 <= i < |rest| && Matches(rest[i], name);
      assert Matches(all[i + 1], name);
    }
    if MatchesSome(all, name) {
      var i :| 0 <= i < |all| && Matches(all[i], name);
      assert i > 0 ==> Matches(rest[i - 1], name);
    }
    if Matches(piece, name) { assert Matches(all[0], name); }
  }

  /** A filter matches when one of its colon-separated patterns does. */
  method MatchesFilter(name: string, filter: string) returns (r: bool)
    ensures r <==> MatchesSome(Pieces(filter), name)
  {
    var pattern := 0;
    assert filter[0..] == filter;
    while true
      invariant 0 <= pattern <= |filter|
      invariant MatchesSome(Pieces(filter), name) <==> MatchesSome(Pieces(filter[pattern..]), name)
      decreases |filter| - pattern
    {
      var e := pattern;
      while e < |filter| && filter[e] != ':'
        invariant pattern <= e <= |filter|
        invariant forall i :: pattern <= i < e ==> filter[i] != ':'
      {
        e := e + 1;
      }
      FilterSplits(filter, pattern, e, name);
      var matched := PatternMatchesString(name, filter[pattern..e]);
      if matched {
        return true;
      }
      if e == |filter| {
        return false;
      }
      pattern := e + 1;
    }
  }
}
