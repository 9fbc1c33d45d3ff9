/** The language of a simple regular expression and googletest's matchers for it. */
module RegexMatch {
  import opened Seqs
  import opened Regex

  // ---------- the language ----------

  predicate Allows(rep: Repeat, n: nat) {
    match rep
    case Once => n == 1
    case Optional => n <= 1
    case Many => true
    case AtLeastOnce => n >= 1
  }

  predicate AllMatch(item: Item, w: string) {
    forall i :: 0 <= i < |w| ==> AtomMatchesChar(item.escaped, item.c, w[i])
  }

  /** The strings an item stands for. */
  predicate Denotes(item: Item, w: string) { Allows(item.rep, |w|) && AllMatch(item, w) }

  /** The strings a sequence of items stands for. */
  ghost predicate InLanguage(items: seq<Item>, w: string) {
    if items == [] then w == []
    else exists k :: 0 <= k <= |w| && Denotes(items[0], w[..k]) && InLanguage(items[1..], w[k..])
  }

  /** Some prefix of `s` - the whole of `s` if anchored - is in the language. */
  ghost predicate AtHead(items: seq<Item>, atEnd: bool, s: string) {
    exists k :: 0 <= k <= |s| && InLanguage(items, s[..k]) && (atEnd ==> k == |s|)
  }

  /** Some substring of `s`, starting and ending where the anchors say, is in the language. */
  ghost predicate Anywhere(e: Expr, s: string) {
    exists j :: 0 <= j <= |s| && AtHead(e.items, e.atEnd, s[j..]) && (e.atStart ==> j == 0)
  }

  /** Some first part is what the first item stands for and the rest matches at its head. */
  ghost predicate SplitsAt(items: seq<Item>, atEnd: bool, s: string, k: int)
    requires items != [] && 0 <= k <= |s|
  {
    Denotes(items[0], s[..k]) && AtHead(items[1..], atEnd, s[k..])
  }

  lemma HeadSplits(items: seq<Item>, atEnd: bool, s: string)
    requires items != []
    ensures AtHead(items, atEnd, s) <==> exists k :: 0 <= k <= |s| && SplitsAt(items, atEnd, s, k)
  {
    if AtHead(items, atEnd, s) {
      var m :| 0 <= m <= |s| && InLanguage(items, s[..m]) && (atEnd ==> m == |s|);
      var w := s[..m];
      var k :| 0 <= k <= |w| && Denotes(items[0], w[..k]) && InLanguage(items[1..], w[k..]);
      assert w[..k] == s[..k] && w[k..] == s[k..][..m - k];
      assert SplitsAt(items, atEnd, s, k);
    }
    if exists k :: 0 <= k <= |s| && SplitsAt(items, atEnd, s, k) {
      var k :| 0 <= k <= |s| && SplitsAt(items, atEnd, s, k);
      var m :| 0 <= m <= |s[k..]| && InLanguage(items[1..], s[k..][..m]) && (atEnd ==> m == |s[k..]|);
      var w := s[..k + m];
      assert w[..k] == s[..k] && w[k..] == s[k..][..m];
      assert InLanguage(items, w);
    }
  }

  // ---------- the matchers ----------

  /** A repeated atom and the rest of the expression. `items` is the reading of the text. */
  method MatchRepetitionAndRegexAtHead(escaped: bool, c: char, repeat: char, regex: string, str: CString,
                                       ghost items: seq<Item>, ghost atEnd: bool) returns (r: bool)
    requires IsRepeat(repeat) && WellFormed(items) && TailText(items, atEnd) == regex
    requires '\0' !in regex
    ensures r <==> AtHead([Item(escaped, c, RepeatOf(repeat))] + items, atEnd, str)
    decreases |regex|, 1
  {
    ghost var item := Item(escaped, c, RepeatOf(repeat));
    ghost var all := [item] + items;
    assert all[1..] == items;
    HeadSplits(all, atEnd, str);
    var minCount := if repeat == '+' then 1 else 0;
    var i := 0;
    while repeat != '?' || i <= 1
      invariant 0 <= i <= |str| && AllMatch(item, str[..i])
      invariant forall k :: 0 <= k < i ==> !SplitsAt(all, atEnd, str, k)
      decreases |str| - i
    {
      if i >= minCount {
        var rest := MatchRegexAtHead(regex, str[i..], items, atEnd);
        if rest {
          assert SplitsAt(all, atEnd, str, i);
          return true;
        }
      }
      assert !SplitsAt(all, atEnd, str, i);
      if Char(str, i) == '\0' || !AtomMatchesChar(escaped, c, Char(str, i)) {
        assert forall k :: i < k <= |str| ==> !AllMatch(item, str[..k]) by {
          if i < |str| { assert forall k :: i < k <= |str| ==> str[..k][i] == str[i]; }
        }
        return false;
      }
      assert str[..i + 1] == str[..i] + [str[i]];
      i := i + 1;
    }
    return false;
  }

  /** The expression matches a prefix of the string. */
  method MatchRegexAtHead(regex: string, str: CString, ghost items: seq<Item>, ghost atEnd: bool) returns (r: bool)
    requires WellFormed(items) && TailText(items, atEnd) == regex
    requires '\0' !in regex
    ensures r <==> AtHead(items, atEnd, str)
    decreases |regex|, 0
  {
    if items != [] { ItemStart(items, atEnd); }
    if Char(regex, 0) == '\0' {
      assert regex == [];
      assert InLanguage([], str[..0]);
      return true;
    }
    if Char(regex, 0) == '$' {
      assert items == [] && atEnd;
      assert InLanguage([], str[..|str|]) <==> str == [];
      return Char(str, 0) == '\0';
    }
    assert items != [];
    var escaped := Char(regex, 0) == '\\';
    var here := if escaped then 1 else 0;
    ghost var item, rest := items[0], items[1..];
    ghost var tail := TailText(rest, atEnd);
    assert regex[here + 1..] == RepeatText(item.rep) + tail;
    TailStart(rest, atEnd);
    assert items == [item] + rest;
    if IsRepeat(Char(regex, here + 1)) {
      RepeatOfText(Char(regex, here + 1));
      MarkFound(item.rep, tail, regex[here + 1..]);
      r := MatchRepetitionAndRegexAtHead(escaped, Char(regex, here), Char(regex, here + 1), regex[here + 2..], str,
                                         rest, atEnd);
    } else {
      MarkFound(item.rep, tail, regex[here + 1..]);
      OnceSplits(items, atEnd, str);
      if Char(str, 0) != '\0' && AtomMatchesChar(escaped, Char(regex, here), Char(str, 0)) {
        r := MatchRegexAtHead(regex[here + 1..], str[1..], rest, atEnd);
      } else {
        r := false;
      }
    }
  }

  /** What the character behind an atom says about its repetition. */
  lemma MarkFound(rep: Repeat, tail: string, s: string)
    requires s == RepeatText(rep) + tail && (tail != [] ==> !IsRepeat(tail[0]))
    ensures IsRepeat(Char(s, 0)) ==> RepeatOf(Char(s, 0)) == rep && s[1..] == tail
    ensures !IsRepeat(Char(s, 0)) ==> rep == Once && s == tail
  {
    assert rep == Once ==> s == tail;
    assert rep != Once ==> s[0] == RepeatText(rep)[0] && s[1..] == tail;
  }

  /** An item that is not repeated takes exactly one character. */
  lemma OnceSplits(items: seq<Item>, atEnd: bool, s: string)
    requires items != []
    ensures items[0].rep == Once ==>
              (AtHead(items, atEnd, s) <==>
               s != [] && AtomMatchesChar(items[0].escaped, items[0].c, s[0]) && AtHead(items[1..], atEnd, s[1..]))
  {
    HeadSplits(items, atEnd, s);
    if items[0].rep == Once && s != [] {
      assert s[..1] == [s[0]];
      assert SplitsAt(items, atEnd, s, 1) <==>
             AtomMatchesChar(items[0].escaped, items[0].c, s[0]) && AtHead(items[1..], atEnd, s[1..]);
    }
  }

  /** The expression a valid text stands for. */
  ghost function Meaning(regex: string): (e: Expr)
    requires IsExpr(regex)
    ensures WellFormed(e.items) && Text(e) == regex
  {
    var e: Expr :| WellFormed(e.items) && Text(e) == regex;
    e
  }

  /** The expression matches somewhere in the string. */
  method MatchRegexAnywhere(regex: CString, str: CString) returns (r: bool)
    requires IsExpr(regex)
    ensures r <==> Anywhere(Meaning(regex), str)
  {
    ghost var e := Meaning(regex);
    TailStart(e.items, e.atEnd);
    if Char(regex, 0) == '^' {
      assert e.atStart;
      assert regex[1..] == TailText(e.items, e.atEnd);
      assert str[0..] == str;
      r := MatchRegexAtHead(regex[1..], str, e.items, e.atEnd);
      return;
    }
    assert !e.atStart && regex == TailText(e.items, e.atEnd);
    var i := 0;
    while true
      invariant 0 <= i <= |str|
      invariant forall j :: 0 <= j < i ==> !AtHead(e.items, e.atEnd, str[j..])
      decreases |str| - i
    {
      r := MatchRegexAtHead(regex, str[i..], e.items, e.atEnd);
      if r {
        return;
      }
      if Char(str, i) == '\0' {
        return;
      }
      i := i + 1;
    }
  }

  // ---------- full matches ----------

  /** The text RE::Init builds for a full match: anchored in front, and behind unless it ends in `$`. */
  function FullPattern(regex: string): string {
    (if regex != [] && regex[0] == '^' then [] else ['^']) + (regex + Closing(regex))
  }

  function Closing(regex: string): string {
    if regex == [] || regex[|regex| - 1] != '$' then ['$'] else []
  }

  /** The expression ends in an escaped `$`, which the test for a closing anchor takes for one. */
  predicate EndsInEscapedDollar(e: Expr) {
    !e.atEnd && e.items != [] && e.items[|e.items| - 1] == Item(true, '$', Once)
  }

  /** The expression the full pattern stands for. */
  function Full(e: Expr): Expr { Expr(true, e.items, !EndsInEscapedDollar(e)) }

  lemma {:induction false} TailLast(items: seq<Item>, atEnd: bool)
    requires items != []
    ensures TailText(items, atEnd) ==
            TailText(items[..|items| - 1], false) + ItemText(items[|items| - 1]) + if atEnd then ['$'] else []
    decreases |items|
  {
    var n := |items| - 1;
    if n > 0 {
      TailLast(items[1..], atEnd);
      var front := items[..n];
      assert items[1..][..n - 1] == front[1..] && items[1..][n - 1] == items[n] && front[0] == items[0];
      Associates(ItemText(items[0]), TailText(front[1..], false), ItemText(items[n]));
      Associates(ItemText(items[0]), TailText(front[1..], false) + ItemText(items[n]), if atEnd then ['$'] else []);
    } else {
      assert items[1..] == [];
    }
  }

  lemma LastOfThree(a: string, b: string, c: string, d: string)
    requires c != []
    ensures var t := a + (b + c + d); t[|t| - 1] == if d == [] then c[|c| - 1] else d[|d| - 1]
  {}

  lemma ItemLast(item: Item)
    requires WellFormedItem(item)
    ensures var u := ItemText(item); u != [] && (u[|u| - 1] == '$' <==> item == Item(true, '$', Once))
  {
    var u := ItemText(item);
    assert item.rep != Once ==> u[|u| - 1] == RepeatText(item.rep)[0];
    assert item.rep == Once ==> u[|u| - 1] == item.c;
  }

  /** An expression's text ends in `$` exactly when it has a closing anchor or an escaped `$` at the end. */
  lemma LastChar(e: Expr)
    requires WellFormed(e.items) && Text(e) != []
    ensures Text(e)[|Text(e)| - 1] == '$' <==> e.atEnd || EndsInEscapedDollar(e)
  {
    var start := if e.atStart then ['^'] else [];
    if e.items == [] {
      LastOfNoItems(e);
    } else {
      TailLast(e.items, e.atEnd);
      var last := e.items[|e.items| - 1];
      assert WellFormedItem(last);
      LastOfParts(start, TailText(e.items[..|e.items| - 1], false), last, e.atEnd, Text(e));
    }
  }

  lemma LastOfNoItems(e: Expr)
    requires e.items == [] && Text(e) != []
    ensures Text(e)[|Text(e)| - 1] == '$' <==> e.atEnd
  {
    var start := if e.atStart then ['^'] else [];
    if e.atEnd { assert Text(e) == start + ['$']; } else { assert Text(e) == start + [] == ['^']; }
  }

  lemma LastOfParts(start: string, front: string, last: Item, atEnd: bool, t: string)
    requires WellFormedItem(last) && t == start + (front + ItemText(last) + if atEnd then ['$'] else [])
    ensures t != [] && (t[|t| - 1] == '$' <==> atEnd || last == Item(true, '$', Once))
  {
    ItemLast(last);
    LastOfThree(start, front, ItemText(last), if atEnd then ['$'] else []);
  }

  lemma {:induction false} EndAppended(items: seq<Item>)
    ensures TailText(items, true) == TailText(items, false) + ['$']
  {
    if items != [] { EndAppended(items[1..]); }
  }

  /** The anchor added behind. */
  lemma FullTail(e: Expr)
    requires WellFormed(e.items)
    ensures var t := Text(e);
            TailText(e.items, !EndsInEscapedDollar(e)) ==
            TailText(e.items, e.atEnd) + Closing(t)
  {
    EndAppended(e.items);
    if Text(e) != [] { LastChar(e); }
    assert TailText(e.items, e.atEnd) + [] == TailText(e.items, e.atEnd);
    if e.atEnd { assert Text(e) != []; }
  }

  lemma FullText(e: Expr)
    requires WellFormed(e.items)
    ensures Text(Full(e)) == FullPattern(Text(e))
  {
    FullTail(e);
    TailStart(e.items, e.atEnd);
    var t, tail := Text(e), TailText(e.items, e.atEnd);
    assert Text(Full(e)) == ['^'] + (tail + Closing(t));
    if e.atStart {
      assert t == ['^'] + tail;
      assert ['^'] + (tail + Closing(t)) == [] + (t + Closing(t));
    } else {
      assert t == tail;
    }
  }

  /** RE::FullMatch: nothing matches an invalid expression. */
  method FullMatch(regex: CString, str: CString) returns (r: bool)
    ensures r <==> IsExpr(regex) && var e := Meaning(regex); AtHead(e.items, !EndsInEscapedDollar(e), str)
  {
    var isValid := ValidateRegex(regex);
    ScanOkIsExpr(regex);
    if !isValid {
      return false;
    }
    ghost var e := Meaning(regex);
    FullText(e);
    assert '\0' !in FullPattern(regex);
    TextUnique(Full(e), Meaning(FullPattern(regex)));
    r := MatchRegexAnywhere(FullPattern(regex), str);
    assert str[0..] == str;
  }

  /** RE::PartialMatch: some substring of the string is in the language. */
  method PartialMatch(regex: CString, str: CString) returns (r: bool)
    ensures r <==> IsExpr(regex) && Anywhere(Meaning(regex), str)
  {
    r := ValidateRegex(regex);
    ScanOkIsExpr(regex);
    if r {
      r := MatchRegexAnywhere(regex, str);
    }
  }

  // ---------- when a full match is a match of the whole string ----------

  function SampleChar(escaped: bool, c: char): char {
    if !escaped then (if c == '.' then 'a' else c)
    else if c == 'd' then '0' else if c == 'f' then 12 as char else if c == 'n' then '\n'
    else if c == 'r' then '\r' else if c == 't' then '\t' else if c == 'v' then 11 as char
    else if c == 's' || c == 'W' then ' ' else if c == 'D' || c == 'S' || c == 'w' then 'a' else c
  }

  lemma SampleMatches(escaped: bool, c: char)
    requires WellFormedAtom(escaped, c)
    ensures AtomMatchesChar(escaped, c, SampleChar(escaped, c))
  {}

  /** Every expression stands for some string. */
  lemma {:induction false} SomeWord(items: seq<Item>) returns (w: string)
    requires WellFormed(items)
    ensures InLanguage(items, w)
  {
    if items == [] {
      w := [];
    } else {
      assert WellFormedItem(items[0]);
      var rest := SomeWord(items[1..]);
      SampleMatches(items[0].escaped, items[0].c);
      w := [SampleChar(items[0].escaped, items[0].c)] + rest;
      assert w[..1] == [w[0]] && w[1..] == rest;
      assert Denotes(items[0], w[..1]);
    }
  }

  /** Every string an expression stands for ends in what its last item stands for. */
  lemma {:induction false} LastOfWord(items: seq<Item>, w: string)
    requires items != [] && items[|items| - 1] == Item(true, '$', Once) && InLanguage(items, w)
    ensures w != [] && w[|w| - 1] == '$'
    decreases |items|
  {
    var k :| 0 <= k <= |w| && Denotes(items[0], w[..k]) && InLanguage(items[1..], w[k..]);
    if |items| == 1 {
      assert w[k..] == [] && w == w[..k];
      assert AtomMatchesChar(true, '$', w[..k][0]);
    } else {
      LastOfWord(items[1..], w[k..]);
    }
  }

  lemma WholeIsHead(items: seq<Item>, s: string)
    ensures AtHead(items, true, s) <==> InLanguage(items, s)
  {
    assert s[..|s|] == s;
  }

  /** With an escaped `$` at the end the full match accepts more than the language. */
  lemma NoWord(items: seq<Item>, w: string)
    requires items != [] && items[|items| - 1] == Item(true, '$', Once) && w != [] && w[|w| - 1] != '$'
    ensures !InLanguage(items, w)
  {
    if InLanguage(items, w) { LastOfWord(items, w); }
  }

  lemma WordAtHead(items: seq<Item>, w: string, more: string)
    requires InLanguage(items, w)
    ensures AtHead(items, false, w + more)
  {
    assert (w + more)[..|w|] == w;
  }

  lemma EscapedDollarAcceptsMore(e: Expr) returns (s: string)
    requires WellFormed(e.items) && EndsInEscapedDollar(e)
    ensures AtHead(e.items, false, s) && !InLanguage(e.items, s)
  {
    var w := SomeWord(e.items);
    s := w + ['a'];
    WordAtHead(e.items, w, ['a']);
    NoWord(e.items, s);
  }

  /** A full match says that the whole string is in the language, for every string, if and only if
      the expression does not end in an escaped `$`. */
  lemma FullMatchIsWhole(e: Expr)
    requires WellFormed(e.items)
    ensures (forall s :: AtHead(e.items, !EndsInEscapedDollar(e), s) <==> InLanguage(e.items, s))
            <==> !EndsInEscapedDollar(e)
  {
    if EndsInEscapedDollar(e) {
      var s := EscapedDollarAcceptsMore(e);
    } else {
      forall s { WholeIsHead(e.items, s); }
    }
  }
}
