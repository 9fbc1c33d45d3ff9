/**
 * googletest's simple regular expressions: syntax trees and the language they denote, the
 * validator, and the matchers, which work on the text of the expression.
 *
 * A C string is a string without the terminator; `Char` reads a position up to and including the
 * terminator, and its precondition proves that nothing is read past it.
 */
module Regex {

  type CString = s: string | '\0' !in s

  function Char(s: string, i: nat): char
    requires i <= |s|
  {
    if i < |s| then s[i] else '\0'
  }

  // ---------- characters ----------

  predicate IsInSet(ch: char, str: string) { ch != '\0' && ch in str }

  predicate IsAsciiDigit(ch: char) { '0' <= ch <= '9' }
  predicate IsAsciiPunct(ch: char) { IsInSet(ch, "^-!\"#$%&'()*+,./:;<=>?@[\\]_`{|}~") }
  predicate IsRepeat(ch: char) { IsInSet(ch, "?*+") }
  predicate IsAsciiWhiteSpace(ch: char) { IsInSet(ch, [' ', 12 as char, '\n', '\r', '\t', 11 as char]) }
  predicate IsAsciiWordChar(ch: char) {
    'a' <= ch <= 'z' || 'A' <= ch <= 'Z' || '0' <= ch <= '9' || ch == '_'
  }
  predicate IsValidEscape(c: char) { IsAsciiPunct(c) || IsInSet(c, "dDfnrsStvwW") }

  predicate AtomMatchesChar(escaped: bool, p: char, ch: char) {
    if escaped then
      if p == 'd' then IsAsciiDigit(ch)
      else if p == 'D' then !IsAsciiDigit(ch)
      else if p == 'f' then ch == 12 as char
      else if p == 'n' then ch == '\n'
      else if p == 'r' then ch == '\r'
      else if p == 's' then IsAsciiWhiteSpace(ch)
      else if p == 'S' then !IsAsciiWhiteSpace(ch)
      else if p == 't' then ch == '\t'
      else if p == 'v' then ch == 11 as char
      else if p == 'w' then IsAsciiWordChar(ch)
      else if p == 'W' then !IsAsciiWordChar(ch)
      else IsAsciiPunct(p) && p == ch
    else (p == '.' && ch != '\n') || p == ch
  }

  // ---------- syntax ----------

  datatype Repeat = Once | Optional | Many | AtLeastOnce

  datatype Item = Item(escaped: bool, c: char, rep: Repeat)

  /** An expression: an optional `^`, atoms each with an optional repetition mark, an optional `$`. */
  datatype Expr = Expr(atStart: bool, items: seq<Item>, atEnd: bool)

  function RepeatText(rep: Repeat): string {
    match rep case Once => "" case Optional => "?" case Many => "*" case AtLeastOnce => "+"
  }

  function ItemText(item: Item): (r: string)
    ensures |r| >= 1
  {
    (if item.escaped then ['\\'] else []) + [item.c] + RepeatText(item.rep)
  }

  function TailText(items: seq<Item>, atEnd: bool): string {
    if items == [] then (if atEnd then ['$'] else []) else ItemText(items[0]) + TailText(items[1..], atEnd)
  }

  function Text(e: Expr): string {
    (if e.atStart then ['^'] else []) + TailText(e.items, e.atEnd)
  }

  /** Characters that mean something other than themselves when they are not escaped. */
  predicate IsMeta(c: char) { IsInSet(c, "()[]{}|") || IsRepeat(c) || c == '^' || c == '$' || c == '\\' || c == '\0' }

  predicate WellFormedAtom(escaped: bool, c: char) {
    if escaped then IsValidEscape(c) else !IsMeta(c)
  }

  predicate WellFormedItem(item: Item) { WellFormedAtom(item.escaped, item.c) }

  predicate WellFormed(items: seq<Item>) { forall i :: 0 <= i < |items| ==> WellFormedItem(items[i]) }

  ghost predicate IsTail(s: string) {
    exists items, atEnd :: WellFormed(items) && TailText(items, atEnd) == s
  }

  /** The text of some well-formed expression. */
  ghost predicate IsExpr(s: string) {
    exists e: Expr :: WellFormed(e.items) && Text(e) == s
  }

  // ---------- what the validator scans for ----------

  /** The rest of an expression; `repeatable` tells whether a repetition mark may come first. */
  predicate RestOk(s: string, repeatable: bool)
    decreases |s|
  {
    if s == [] then true
    else if s[0] == '\\' then |s| > 1 && IsValidEscape(s[1]) && RestOk(s[2..], true)
    else if s[0] == '^' then false
    else if s[0] == '$' then |s| == 1
    else if IsInSet(s[0], "()[]{}|") then false
    else if IsRepeat(s[0]) then repeatable && RestOk(s[1..], false)
    else RestOk(s[1..], true)
  }

  predicate ScanOk(regex: string) {
    if regex != [] && regex[0] == '^' then RestOk(regex[1..], false) else RestOk(regex, false)
  }

  method ValidateRegex(regex: CString) returns (r: bool)
    ensures r <==> ScanOk(regex)
  {
    var isValid := true;
    var prevRepeatable := false;
    var i := 0;
    assert regex[0..] == regex;
    while Char(regex, i) != '\0'
      invariant 0 <= i <= |regex|
      invariant ScanOk(regex) <==> isValid && if i == 0 then ScanOk(regex) else RestOk(regex[i..], prevRepeatable)
      invariant i == 0 ==> isValid && !prevRepeatable
      decreases |regex| - i
    {
      ghost var rest := regex[i..];
      assert rest[1..] == regex[i + 1..];
      assert |rest| > 1 ==> rest[2..] == regex[i + 2..];
      if Char(regex, i) == '\\' {
        i := i + 1;
        if Char(regex, i) == '\0' {
          return false;
        }
        if !IsValidEscape(Char(regex, i)) {
          isValid := false;
        }
        prevRepeatable := true;
      } else {
        var ch := Char(regex, i);
        if ch == '^' && i > 0 {
          isValid := false;
        } else if ch == '$' && Char(regex, i + 1) != '\0' {
          isValid := false;
        } else if IsInSet(ch, "()[]{}|") {
          isValid := false;
        } else if IsRepeat(ch) && !prevRepeatable {
          isValid := false;
        }
        prevRepeatable := !IsInSet(ch, "^$?*+");
      }
      i := i + 1;
    }
    assert i == |regex|;
    return isValid;
  }

  // ---------- the scan accepts exactly the expressions ----------

  function RepeatOf(ch: char): Repeat
    requires IsRepeat(ch)
  {
    if ch == '?' then Optional else if ch == '*' then Many else AtLeastOnce
  }

  lemma RepeatOfText(ch: char)
    requires IsRepeat(ch)
    ensures RepeatText(RepeatOf(ch)) == [ch]
  {}

  /** A tail, or a repetition mark and a tail. */
  ghost predicate IsTailAfterAtom(s: string) {
    IsTail(s) || (s != [] && IsRepeat(s[0]) && IsTail(s[1..]))
  }

  /** Putting an atom in front. */
  lemma AtomTail(escaped: bool, c: char, s: string)
    requires WellFormedAtom(escaped, c) && IsTailAfterAtom(s)
    ensures IsTail((if escaped then ['\\'] else []) + [c] + s)
  {
    if IsTail(s) {
      ItemTail(Item(escaped, c, Once), s);
      assert RepeatText(Once) + s == s;
    } else {
      RepeatOfText(s[0]);
      ItemTail(Item(escaped, c, RepeatOf(s[0])), s[1..]);
      assert [s[0]] + s[1..] == s;
    }
  }

  lemma ItemTail(item: Item, rest: string)
    requires WellFormedItem(item) && IsTail(rest)
    ensures IsTail((if item.escaped then ['\\'] else []) + [item.c] + (RepeatText(item.rep) + rest))
  {
    var items, atEnd :| WellFormed(items) && TailText(items, atEnd) == rest;
    var more := [item] + items;
    assert more[1..] == items && WellFormed(more);
    var pre := (if item.escaped then ['\\'] else []) + [item.c];
    assert (pre + RepeatText(item.rep)) + rest == pre + (RepeatText(item.rep) + rest);
    assert TailText(more, atEnd) == pre + (RepeatText(item.rep) + rest);
  }

  lemma {:induction false} RestOkIsTail(s: string, repeatable: bool)
    requires RestOk(s, repeatable) && '\0' !in s
    ensures if repeatable then IsTailAfterAtom(s) else IsTail(s)
    decreases |s|
  {
    if s == [] {
      assert TailText([], false) == s;
    } else if s[0] == '\\' {
      RestOkIsTail(s[2..], true);
      AtomTail(true, s[1], s[2..]);
      assert ['\\'] + [s[1]] + s[2..] == s;
    } else if s[0] == '$' {
      assert TailText([], true) == s;
    } else if IsRepeat(s[0]) {
      RestOkIsTail(s[1..], false);
    } else {
      assert s[0] in s;
      RestOkIsTail(s[1..], true);
      AtomTail(false, s[0], s[1..]);
      assert [] + [s[0]] + s[1..] == s;
    }
  }

  /** The text of a tail passes the scan, also behind an atom that is not yet repeated. */
  lemma {:induction false} TailIsRestOk(items: seq<Item>, atEnd: bool, repeatable: bool)
    requires WellFormed(items)
    ensures RestOk(TailText(items, atEnd), repeatable)
    decreases |items|
  {
    if items != [] {
      var item, rest := items[0], TailText(items[1..], atEnd);
      assert WellFormed(items[1..]) && WellFormedItem(item);
      TailIsRestOk(items[1..], atEnd, item.rep == Once);
      MarkIsOk(item.rep, rest);
      AtomIsOk(item.escaped, item.c, RepeatText(item.rep) + rest, repeatable);
      Regroup(if item.escaped then ['\\'] else [], [item.c], RepeatText(item.rep), rest);
    }
  }

  lemma MarkIsOk(rep: Repeat, rest: string)
    requires RestOk(rest, rep == Once)
    ensures RestOk(RepeatText(rep) + rest, true)
  {
    var s := RepeatText(rep) + rest;
    if rep == Once { assert s == rest; } else { assert s[0] == RepeatText(rep)[0] && s[1..] == rest; }
  }

  lemma AtomIsOk(escaped: bool, c: char, after: string, repeatable: bool)
    requires WellFormedAtom(escaped, c) && RestOk(after, true)
    ensures RestOk((if escaped then ['\\'] else []) + [c] + after, repeatable)
  {
    var s := (if escaped then ['\\'] else []) + [c] + after;
    if escaped {
      assert s[0] == '\\' && s[1] == c && s[2..] == after;
    } else {
      assert s[0] == c && s[1..] == after;
    }
  }

  /** The validator accepts a text exactly when it is the text of a well-formed expression. */
  lemma ScanOkIsExpr(regex: CString)
    ensures ScanOk(regex) <==> IsExpr(regex)
  {
    if ScanOk(regex) { AcceptedIsExpr(regex); }
    if IsExpr(regex) { ExprIsAccepted(regex); }
  }

  lemma AcceptedIsExpr(regex: CString)
    requires ScanOk(regex)
    ensures IsExpr(regex)
  {
    var atStart := regex != [] && regex[0] == '^';
    var rest := if atStart then regex[1..] else regex;
    RestOkIsTail(rest, false);
    var items, atEnd :| WellFormed(items) && TailText(items, atEnd) == rest;
    assert Text(Expr(atStart, items, atEnd)) == regex;
  }

  lemma ExprIsAccepted(regex: CString)
    requires IsExpr(regex)
    ensures ScanOk(regex)
  {
    var e: Expr :| WellFormed(e.items) && Text(e) == regex;
    var tail := TailText(e.items, e.atEnd);
    TailIsRestOk(e.items, e.atEnd, false);
    TailStart(e.items, e.atEnd);
    if e.atStart { assert regex == ['^'] + tail && regex[1..] == tail; } else { assert regex == [] + tail == tail; }
  }

  // ---------- a text has one reading ----------

  lemma Regroup(a: string, b: string, c: string, d: string)
    ensures (a + b + c) + d == (a + b) + (c + d) && ((a + b) + (c + d))[|a| + |b|..] == c + d
  {}

  /** How the text of a tail with an item starts. */
  lemma ItemSplit(items: seq<Item>, atEnd: bool)
    requires items != []
    ensures var s, item := TailText(items, atEnd), items[0];
            var n := if item.escaped then 2 else 1;
            && |s| >= n && s[n - 1] == item.c && (item.escaped ==> s[0] == '\\')
            && s[n..] == RepeatText(item.rep) + TailText(items[1..], atEnd)
  {
    var item := items[0];
    var slash, rep, rest := if item.escaped then ['\\'] else [], RepeatText(item.rep), TailText(items[1..], atEnd);
    Regroup(slash, [item.c], rep, rest);
  }

  lemma ItemStart(items: seq<Item>, atEnd: bool)
    requires WellFormed(items) && items != []
    ensures var s, item := TailText(items, atEnd), items[0];
            var n := if item.escaped then 2 else 1;
            && |s| >= n && s[n - 1] == item.c && (item.escaped <==> s[0] == '\\')
            && (s[0] == '\\' || !IsMeta(s[0]))
            && s[n..] == RepeatText(item.rep) + TailText(items[1..], atEnd)
  {
    ItemSplit(items, atEnd);
    assert WellFormedItem(items[0]);
  }

  /** The first character of a tail is not a repetition mark. */
  lemma TailStart(items: seq<Item>, atEnd: bool)
    requires WellFormed(items)
    ensures var s := TailText(items, atEnd); s != [] ==> !IsRepeat(s[0]) && s[0] != '^'
  {
    if items != [] { ItemStart(items, atEnd); }
  }

  lemma {:induction false} TailUnique(a: seq<Item>, x: bool, b: seq<Item>, y: bool)
    requires WellFormed(a) && WellFormed(b) && TailText(a, x) == TailText(b, y)
    ensures a == b && x == y
    decreases |a|
  {
    if a != [] { ItemStart(a, x); }
    if b != [] { ItemStart(b, y); }
    if a != [] && b != [] {
      assert a[0].escaped == b[0].escaped && a[0].c == b[0].c;
      TailStart(a[1..], x);
      TailStart(b[1..], y);
      MarkUnique(a[0].rep, TailText(a[1..], x), b[0].rep, TailText(b[1..], y));
      TailUnique(a[1..], x, b[1..], y);
      assert a == [a[0]] + a[1..] && b == [b[0]] + b[1..];
    }
  }

  lemma MarkUnique(p: Repeat, s: string, q: Repeat, t: string)
    requires RepeatText(p) + s == RepeatText(q) + t
    requires (s != [] ==> !IsRepeat(s[0])) && (t != [] ==> !IsRepeat(t[0]))
    ensures p == q && s == t
  {
    var u := RepeatText(p) + s;
    assert p == Once ==> u == s;
    assert q == Once ==> u == t;
    assert p != Once ==> u[0] == RepeatText(p)[0] && IsRepeat(u[0]) && u[1..] == s;
    assert q != Once ==> u[0] == RepeatText(q)[0] && IsRepeat(u[0]) && u[1..] == t;
  }

  lemma TextUnique(d: Expr, e: Expr)
    requires WellFormed(d.items) && WellFormed(e.items) && Text(d) == Text(e)
    ensures d == e
  {
    TailStart(d.items, d.atEnd);
    TailStart(e.items, e.atEnd);
    assert d.atStart ==> Text(d)[0] == '^' && Text(d)[1..] == TailText(d.items, d.atEnd);
    assert e.atStart ==> Text(e)[0] == '^' && Text(e)[1..] == TailText(e.items, e.atEnd);
    assert !d.atStart ==> Text(d) == TailText(d.items, d.atEnd);
    assert !e.atStart ==> Text(e) == TailText(e.items, e.atEnd);
    TailUnique(d.items, d.atEnd, e.items, e.atEnd);
  }
}
