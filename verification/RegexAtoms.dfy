/**
 * What the characters of a simple regular expression mean, by character code and without the engine's
 * own character classes: what every atom accepts, what an expression may contain, and what the
 * smallest patterns - one atom, bare or anchored and repeated - match.
 */
module RegexAtoms {
  import opened Regex
  import opened RegexMatch

  // ---------- characters by code ----------

  predicate IsDigitCode(n: int) { 48 <= n <= 57 }

  predicate IsSpaceCode(n: int) { n == 32 || 9 <= n <= 13 }

  predicate IsWordCode(n: int) { IsDigitCode(n) || 65 <= n <= 90 || 97 <= n <= 122 || n == 95 }

  /** The printable ASCII codes that are neither letters nor digits nor the space. */
  predicate IsPunctCode(n: int) { 33 <= n <= 126 && (!IsWordCode(n) || n == 95) }

  /** What the atom accepts. */
  predicate Accepts(escaped: bool, c: char, ch: char) {
    var n := ch as int;
    if !escaped then (if c == '.' then n != 10 else ch == c)
    else
      match c
      case 'd' => IsDigitCode(n)
      case 'D' => !IsDigitCode(n)
      case 's' => IsSpaceCode(n)
      case 'S' => !IsSpaceCode(n)
      case 'w' => IsWordCode(n)
      case 'W' => !IsWordCode(n)
      case 't' => n == 9
      case 'n' => n == 10
      case 'v' => n == 11
      case 'f' => n == 12
      case 'r' => n == 13
      case _ => ch == c
  }

  /** The engine's test of a character is exactly that, for every atom of a valid expression. */
  lemma AtomAccepts(escaped: bool, c: char, ch: char)
    requires WellFormedAtom(escaped, c)
    ensures AtomMatchesChar(escaped, c, ch) <==> Accepts(escaped, c, ch)
  {
    PunctIs(c);
    SpaceIs(ch);
  }

  lemma PunctIs(c: char)
    ensures IsAsciiPunct(c) <==> IsPunctCode(c as int)
  {}

  lemma SpaceIs(ch: char)
    ensures IsAsciiWhiteSpace(ch) <==> IsSpaceCode(ch as int)
  {}

  /** The characters that may follow a backslash: punctuation and eleven letters. */
  lemma EscapesAre(c: char)
    ensures IsValidEscape(c) <==>
              IsPunctCode(c as int) || c in {'d', 'D', 'f', 'n', 'r', 's', 'S', 't', 'v', 'w', 'W'}
  {
    PunctIs(c);
  }

  /** The characters that cannot stand for themselves. */
  lemma PlainAre(c: char)
    ensures WellFormedAtom(false, c) <==>
              c !in {'(', ')', '[', ']', '{', '}', '|', '?', '*', '+', '^', '$', '\\', '\0'}
  {}

  // ---------- the smallest patterns ----------

  function AtomText(escaped: bool, c: char): string { if escaped then ['\\', c] else [c] }

  function MarkOf(rep: Repeat): string
    requires rep != Once
  {
    match rep case Optional => "?" case Many => "*" case AtLeastOnce => "+"
  }

  /** A text has the meaning of the expression it is the text of. */
  lemma MeaningIs(e: Expr)
    requires WellFormed(e.items)
    ensures IsExpr(Text(e)) && Meaning(Text(e)) == e
  {
    assert IsExpr(Text(e));
    TextUnique(e, Meaning(Text(e)));
  }

  lemma OneItemText(atStart: bool, item: Item, atEnd: bool)
    ensures Text(Expr(atStart, [item], atEnd)) ==
            (if atStart then "^" else "") + AtomText(item.escaped, item.c) + RepeatText(item.rep) +
            if atEnd then "$" else ""
  {
    assert [item][1..] == [];
    var a, b, d := if item.escaped then ['\\'] else [], RepeatText(item.rep), if atEnd then ['$'] else [];
    assert a + [item.c] == AtomText(item.escaped, item.c);
    assert TailText([item], atEnd) == AtomText(item.escaped, item.c) + b + d;
    var start := if atStart then ['^'] else [];
    assert start + (AtomText(item.escaped, item.c) + b + d) == start + AtomText(item.escaped, item.c) + b + d;
  }

  lemma OneItemLanguage(item: Item, w: string)
    ensures InLanguage([item], w) <==> Denotes(item, w)
  {
    assert [item][1..] == [];
    if Denotes(item, w) { assert w[..|w|] == w && InLanguage([], w[|w|..]); }
    if InLanguage([item], w) {
      var k :| 0 <= k <= |w| && Denotes(item, w[..k]) && InLanguage([item][1..], w[k..]);
      assert w[k..] == [] && w[..k] == w;
    }
  }

  /** The pattern of a single atom matches exactly the strings that hold a character it accepts. */
  lemma OneAtomMatches(escaped: bool, c: char, s: string)
    requires WellFormedAtom(escaped, c)
    ensures IsExpr(AtomText(escaped, c))
    ensures Anywhere(Meaning(AtomText(escaped, c)), s) <==> exists i :: 0 <= i < |s| && Accepts(escaped, c, s[i])
  {
    var item := Item(escaped, c, Once);
    var e := Expr(false, [item], false);
    OneItemText(false, item, false);
    assert "" + AtomText(escaped, c) + "" + "" == AtomText(escaped, c);
    MeaningIs(e);
    forall j | 0 <= j <= |s|
      ensures AtHead([item], false, s[j..]) <==> j < |s| && Accepts(escaped, c, s[j])
    {
      assert [item][1..] == [];
      OnceSplits([item], false, s[j..]);
      if j < |s| {
        AtomAccepts(escaped, c, s[j]);
        assert s[j..][1..][..0] == [];
        assert InLanguage([], s[j..][1..][..0]);
      }
    }
  }

  /** The pattern of an anchored atom with a repetition mark matches exactly the strings of characters
      it accepts, as many as the mark allows. */
  lemma AnchoredMarkMatches(escaped: bool, c: char, rep: Repeat, s: string)
    requires WellFormedAtom(escaped, c) && rep != Once
    ensures var p := "^" + AtomText(escaped, c) + MarkOf(rep) + "$";
            && IsExpr(p)
            && (Anywhere(Meaning(p), s) <==>
                  && (forall i :: 0 <= i < |s| ==> Accepts(escaped, c, s[i]))
                  && (rep == Optional ==> |s| <= 1) && (rep == AtLeastOnce ==> |s| >= 1))
  {
    var item := Item(escaped, c, rep);
    var e := Expr(true, [item], true);
    OneItemText(true, item, true);
    MeaningIs(e);
    assert s[0..] == s;
    WholeIsHead([item], s);
    OneItemLanguage(item, s);
    forall i | 0 <= i < |s| ensures AtomMatchesChar(escaped, c, s[i]) <==> Accepts(escaped, c, s[i]) {
      AtomAccepts(escaped, c, s[i]);
    }
  }

  /** A full match of a single atom is one accepted character; only an escaped `$` may be followed by more. */
  lemma OneAtomFullMatches(escaped: bool, c: char, s: string)
    requires WellFormedAtom(escaped, c)
    ensures IsExpr(AtomText(escaped, c))
    ensures var e := Meaning(AtomText(escaped, c));
            AtHead(e.items, !EndsInEscapedDollar(e), s) <==>
              s != [] && Accepts(escaped, c, s[0]) && (|s| == 1 || (escaped && c == '$'))
  {
    var item := Item(escaped, c, Once);
    OneItemText(false, item, false);
    assert "" + AtomText(escaped, c) + "" + "" == AtomText(escaped, c);
    MeaningIs(Expr(false, [item], false));
    assert [item][1..] == [];
    var anchored := !(escaped && c == '$');
    OnceSplits([item], anchored, s);
    if s != [] {
      AtomAccepts(escaped, c, s[0]);
      assert InLanguage([], s[1..][..0]);
    }
  }
}
