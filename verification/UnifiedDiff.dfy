/**
 * googletest's unified diff: hunks are built from an edit script and printed; applying what is
 * printed to the left side gives the right side.
 */
module UnifiedDiff {
  import opened Seqs
  import opened Zk
  import opened Edits

  datatype Line = Line(tag: char, text: string)

  datatype Span = Span(start: nat, length: nat)

  /** A printed hunk: the two halves of its header, each possibly omitted, and its lines. */
  datatype Printed = Printed(left: Option<Span>, right: Option<Span>, lines: seq<Line>)

  // ---------- the two sides of a run of lines ----------

  function LeftOf(lines: seq<Line>): seq<string> {
    if lines == [] then []
    else (if lines[0].tag == '+' then [] else [lines[0].text]) + LeftOf(lines[1..])
  }

  function RightOf(lines: seq<Line>): seq<string> {
    if lines == [] then []
    else (if lines[0].tag == '-' then [] else [lines[0].text]) + RightOf(lines[1..])
  }

  predicate Tagged(lines: seq<Line>) {
    forall i :: 0 <= i < |lines| ==> lines[i].tag == ' ' || lines[i].tag == '-' || lines[i].tag == '+'
  }

  predicate AllTagged(lines: seq<Line>, tag: char) { forall i :: 0 <= i < |lines| ==> lines[i].tag == tag }

  lemma {:induction false} SidesAppend(p: seq<Line>, q: seq<Line>)
    ensures LeftOf(p + q) == LeftOf(p) + LeftOf(q) && RightOf(p + q) == RightOf(p) + RightOf(q)
  {
    if p == [] {
      assert p + q == q;
    } else {
      assert (p + q)[0] == p[0] && (p + q)[1..] == p[1..] + q;
      SidesAppend(p[1..], q);
      var l, r := if p[0].tag == '+' then [] else [p[0].text], if p[0].tag == '-' then [] else [p[0].text];
      Associates(l, LeftOf(p[1..]), LeftOf(q));
      Associates(r, RightOf(p[1..]), RightOf(q));
    }
  }

  lemma {:induction false} SidesOfAdds(p: seq<Line>)
    requires AllTagged(p, '+')
    ensures LeftOf(p) == []
  {
    if p != [] { SidesOfAdds(p[1..]); }
  }

  // ---------- applying a printed diff ----------

  datatype Patched = Patched(pos: nat, out: seq<string>)

  /** Applies lines: context and removed lines must be what the left side has. */
  function ApplyLines(left: seq<string>, at: Patched, lines: seq<Line>): Option<Patched>
    decreases |lines|
  {
    if lines == [] then Some(at)
    else
      var line := lines[0];
      if line.tag == '+' then ApplyLines(left, at.(out := at.out + [line.text]), lines[1..])
      else if at.pos >= |left| || left[at.pos] != line.text then None
      else if line.tag == '-' then ApplyLines(left, at.(pos := at.pos + 1), lines[1..])
      else ApplyLines(left, Patched(at.pos + 1, at.out + [line.text]), lines[1..])
  }

  /** How many untouched lines come before the hunk, from whichever half of the header is printed. */
  function Skipped(at: Patched, h: Printed): int {
    if h.left.Some? then h.left.value.start - 1 - at.pos
    else if h.right.Some? then h.right.value.start - 1 - |at.out|
    else -1
  }

  predicate LengthsFit(h: Printed) {
    && (h.left.Some? ==> h.left.value.length == |LeftOf(h.lines)|)
    && (h.right.Some? ==> h.right.value.length == |RightOf(h.lines)|)
  }

  /** Applies one hunk: copy up to where it starts, then its lines. */
  function ApplyHunk(left: seq<string>, at: Patched, h: Printed): Option<Patched> {
    var n := Skipped(at, h);
    if n < 0 || at.pos + n > |left| || !LengthsFit(h) then None
    else ApplyLines(left, Patched(at.pos + n, at.out + left[at.pos..at.pos + n]), h.lines)
  }

  function ApplyHunks(left: seq<string>, hunks: seq<Printed>): Option<Patched> {
    if hunks == [] then Some(Patched(0, []))
    else
      var before := ApplyHunks(left, hunks[..|hunks| - 1]);
      if before.None? then None else ApplyHunk(left, before.value, hunks[|hunks| - 1])
  }

  /** Applies a printed diff: all hunks, then the rest of the left side. */
  function ApplyDiff(left: seq<string>, hunks: seq<Printed>): Option<seq<string>> {
    var r := ApplyHunks(left, hunks);
    if r.None? || r.value.pos > |left| then None else Some(r.value.out + left[r.value.pos..])
  }

  lemma {:induction false} ApplyLinesWorks(left: seq<string>, at: Patched, lines: seq<Line>)
    requires Tagged(lines) && at.pos + |LeftOf(lines)| <= |left|
    requires LeftOf(lines) == left[at.pos..at.pos + |LeftOf(lines)|]
    ensures ApplyLines(left, at, lines) == Some(Patched(at.pos + |LeftOf(lines)|, at.out + RightOf(lines)))
    decreases |lines|
  {
    if lines == [] {
      assert at.out + [] == at.out;
    } else {
      var line, rest := lines[0], lines[1..];
      assert Tagged(rest);
      RightCons(at.out, lines);
      if line.tag == '+' {
        assert LeftOf(lines) == LeftOf(rest);
        ApplyLinesWorks(left, at.(out := at.out + [line.text]), rest);
      } else {
        LeftLine(left, at.pos, lines);
        if line.tag == '-' {
          ApplyLinesWorks(left, at.(pos := at.pos + 1), rest);
        } else {
          ApplyLinesWorks(left, Patched(at.pos + 1, at.out + [line.text]), rest);
        }
      }
    }
  }

  lemma RightCons(out: seq<string>, lines: seq<Line>)
    requires lines != []
    ensures out + RightOf(lines) == (if lines[0].tag == '-' then out else out + [lines[0].text]) + RightOf(lines[1..])
  {}

  /** A line of the left side is the one the left vector has there. */
  lemma LeftLine(left: seq<string>, pos: nat, lines: seq<Line>)
    requires lines != [] && lines[0].tag != '+' && pos + |LeftOf(lines)| <= |left|
    requires LeftOf(lines) == left[pos..pos + |LeftOf(lines)|]
    ensures |LeftOf(lines)| == 1 + |LeftOf(lines[1..])| && left[pos] == lines[0].text
    ensures LeftOf(lines[1..]) == left[pos + 1..pos + 1 + |LeftOf(lines[1..])|]
  {
    var n := |LeftOf(lines)|;
    assert LeftOf(lines)[0] == lines[0].text;
    assert LeftOf(lines)[1..] == LeftOf(lines[1..]);
    assert left[pos..pos + n][1..] == left[pos + 1..pos + n];
  }

  // ---------- hunks ----------

  /** A hunk under construction: removes and adds are held back so that they come out grouped. */
  class Hunk {
    const leftStart: nat
    const rightStart: nat
    var adds: nat
    var removes: nat
    var common: nat
    var hunk: seq<Line>
    var hunkAdds: seq<Line>
    var hunkRemoves: seq<Line>

    function Lines(): seq<Line>
      reads this
    {
      hunk + hunkRemoves + hunkAdds
    }

    ghost predicate Valid()
      reads this
    {
      && Tagged(hunk) && AllTagged(hunkAdds, '+') && AllTagged(hunkRemoves, '-')
      && common + removes == |LeftOf(Lines())| && common + adds == |RightOf(Lines())|
    }

    constructor (leftStart: nat, rightStart: nat)
      ensures Valid() && hunk == hunkAdds == hunkRemoves == [] && adds == 0 && removes == 0
      ensures this.leftStart == leftStart && this.rightStart == rightStart
    {
      this.leftStart, this.rightStart := leftStart, rightStart;
      adds, removes, common := 0, 0, 0;
      hunk, hunkAdds, hunkRemoves := [], [], [];
    }

    method FlushEdits()
      modifies this`hunk, this`hunkAdds, this`hunkRemoves
      ensures hunk == old(Lines()) && Lines() == hunk && hunkAdds == [] && hunkRemoves == []
    {
      hunk := hunk + hunkRemoves;
      hunkRemoves := [];
      hunk := hunk + hunkAdds;
      hunkAdds := [];
      assert Lines() == hunk;
    }

    /** A common line comes behind everything so far, a removed or added one is held back. */
    method PushLine(edit: char, line: string)
      requires Valid() && (edit == ' ' || edit == '-' || edit == '+')
      modifies this
      ensures Valid()
      ensures hunk == if edit == ' ' then old(Lines()) + [Line(' ', line)] else old(hunk)
      ensures hunkRemoves == if edit == ' ' then [] else old(hunkRemoves) + Only(edit == '-', Line('-', line))
      ensures hunkAdds == if edit == ' ' then [] else old(hunkAdds) + Only(edit == '+', Line('+', line))
      ensures adds == old(adds) + (if edit == '+' then 1 else 0)
      ensures removes == old(removes) + (if edit == '-' then 1 else 0)
    {
      if edit == ' ' {
        PushCommon(line);
      } else if edit == '-' {
        PushSides(hunk, hunkRemoves, hunkAdds, Line(edit, line));
        removes, hunkRemoves := removes + 1, hunkRemoves + [Line('-', line)];
      } else {
        PushSides(hunk, hunkRemoves, hunkAdds, Line(edit, line));
        adds, hunkAdds := adds + 1, hunkAdds + [Line('+', line)];
      }
    }

    method PushCommon(line: string)
      requires Valid()
      modifies this`common, this`hunk, this`hunkAdds, this`hunkRemoves
      ensures Valid() && hunk == old(Lines()) + [Line(' ', line)] && hunkRemoves == hunkAdds == []
    {
      ghost var before := Lines();
      PushBehind(before, Line(' ', line));
      common := common + 1;
      FlushEdits();
      hunk := hunk + [Line(' ', line)];
      assert Lines() == hunk;
    }

    method PrintTo() returns (h: Printed)
      requires Valid()
      modifies this
      ensures h.lines == old(Lines()) && Tagged(h.lines) && LengthsFit(h)
      ensures h.left == (if old(removes) > 0 then Some(Span(leftStart, |LeftOf(h.lines)|)) else None)
      ensures h.right == (if old(adds) > 0 then Some(Span(rightStart, |RightOf(h.lines)|)) else None)
    {
      var l := if removes > 0 then Some(Span(leftStart, removes + common)) else None;
      var r := if adds > 0 then Some(Span(rightStart, adds + common)) else None;
      FlushEdits();
      h := Printed(l, r, hunk);
    }
  }

  function Only(b: bool, line: Line): seq<Line> { if b then [line] else [] }

  /** Where a pushed line lands makes no difference to the two sides. */
  lemma PushSides(h: seq<Line>, removes: seq<Line>, adds: seq<Line>, line: Line)
    requires AllTagged(adds, '+')
    ensures var before := h + removes + adds;
            var after := if line.tag == ' ' then before + [line]
                         else if line.tag == '-' then h + (removes + [line]) + adds
                         else h + removes + (adds + [line]);
            && LeftOf(after) == LeftOf(before) + (if line.tag == '+' then [] else [line.text])
            && RightOf(after) == RightOf(before) + (if line.tag == '-' then [] else [line.text])
  {
    var before := h + removes + adds;
    if line.tag == '-' {
      PushRemove(h + removes, adds, line);
      assert h + (removes + [line]) + adds == (h + removes) + [line] + adds;
    } else {
      PushBehind(before, line);
      assert h + removes + (adds + [line]) == before + [line];
    }
  }

  lemma PushBehind(before: seq<Line>, line: Line)
    ensures LeftOf(before + [line]) == LeftOf(before) + (if line.tag == '+' then [] else [line.text])
    ensures RightOf(before + [line]) == RightOf(before) + (if line.tag == '-' then [] else [line.text])
  {
    SidesAppend(before, [line]);
    assert [line][1..] == [];
  }

  /** A removed line may go in front of the added ones. */
  lemma PushRemove(before: seq<Line>, adds: seq<Line>, line: Line)
    requires AllTagged(adds, '+') && line.tag == '-'
    ensures LeftOf(before + [line] + adds) == LeftOf(before + adds) + [line.text]
    ensures RightOf(before + [line] + adds) == RightOf(before + adds)
  {
    SidesAppend(before, adds);
    SidesAppend(before + [line], adds);
    PushBehind(before, line);
    SidesOfAdds(adds);
  }

  // ---------- positions and lines of a stretch of the script ----------

  /** How many left lines the first `i` edits take. */
  function LeftPos(edits: seq<Edit>, i: nat): nat
    requires i <= |edits|
  {
    if i == 0 then 0 else LeftPos(edits, i - 1) + LeftStep(edits[i - 1])
  }

  function RightPos(edits: seq<Edit>, i: nat): nat
    requires i <= |edits|
  {
    if i == 0 then 0 else RightPos(edits, i - 1) + RightStep(edits[i - 1])
  }

  lemma {:induction false} PosGrows(edits: seq<Edit>, i: nat, j: nat)
    requires i <= j <= |edits|
    ensures LeftPos(edits, i) <= LeftPos(edits, j) && RightPos(edits, i) <= RightPos(edits, j)
    decreases j
  {
    if i < j { PosGrows(edits, i, j - 1); }
  }

  /** The script from edit `i` on turns the left rest into the right rest. */
  predicate Ahead(left: seq<string>, right: seq<string>, edits: seq<Edit>, i: nat) {
    && i <= |edits| && LeftPos(edits, i) <= |left| && RightPos(edits, i) <= |right|
    && Transforms(edits[i..], left[LeftPos(edits, i)..], right[RightPos(edits, i)..])
  }

  lemma Advance(left: seq<string>, right: seq<string>, edits: seq<Edit>, i: nat)
    requires Ahead(left, right, edits, i)
    ensures i == |edits| ==> LeftPos(edits, i) == |left| && RightPos(edits, i) == |right|
    ensures i < |edits| ==>
              && Ahead(left, right, edits, i + 1)
              && (edits[i] == Match ==> left[LeftPos(edits, i)] == right[RightPos(edits, i)])
  {
    var l, r := LeftPos(edits, i), RightPos(edits, i);
    if i < |edits| {
      assert edits[i..][1..] == edits[i + 1..];
      assert l < |left| ==> left[l..][1..] == left[l + 1..];
      assert r < |right| ==> right[r..][1..] == right[r + 1..];
    }
  }

  /** Every point of a valid script fits. */
  lemma {:induction false} AheadAt(left: seq<string>, right: seq<string>, edits: seq<Edit>, i: nat)
    requires Transforms(edits, left, right) && i <= |edits|
    ensures Ahead(left, right, edits, i)
  {
    if i == 0 {
      assert edits[0..] == edits && left[0..] == left && right[0..] == right;
    } else {
      AheadAt(left, right, edits, i - 1);
      Advance(left, right, edits, i - 1);
    }
  }

  predicate AllMatch(edits: seq<Edit>, i: nat, j: nat)
    requires j <= |edits|
  {
    forall k :: i <= k < j ==> edits[k] == Match
  }

  /** Where the changes begin that end at `b`: behind the last match. */
  function RunStart(edits: seq<Edit>, a: nat, b: nat): (k: nat)
    requires a <= b <= |edits|
    ensures a <= k <= b && (k > a ==> edits[k - 1] == Match)
    ensures forall i :: k <= i < b ==> edits[i] != Match
    decreases b
  {
    if b > a && edits[b - 1] != Match then RunStart(edits, a, b - 1) else b
  }

  function TagAll(tag: char, texts: seq<string>): seq<Line> {
    seq(|texts|, i requires 0 <= i < |texts| => Line(tag, texts[i]))
  }

  /** The stretch fits both sides. */
  predicate Fits(left: seq<string>, right: seq<string>, edits: seq<Edit>, a: nat, b: nat) {
    a <= b <= |edits| && LeftPos(edits, b) <= |left| && RightPos(edits, b) <= |right|
  }

  /** The lines of the edits from `a` to `b`: each match is a common line, and of each stretch of changes
      between two matches first the removed lines come and then the added ones. */
  function LinesOf(left: seq<string>, right: seq<string>, edits: seq<Edit>, a: nat, b: nat): seq<Line>
    requires Fits(left, right, edits, a, b)
    decreases b, 1
  {
    var k := RunStart(edits, a, b);
    PosGrows(edits, k, b);
    UpToMatch(left, right, edits, a, k)
    + TagAll('-', left[LeftPos(edits, k)..LeftPos(edits, b)])
    + TagAll('+', right[RightPos(edits, k)..RightPos(edits, b)])
  }

  /** The lines up to and including the match in front of `k`. */
  function UpToMatch(left: seq<string>, right: seq<string>, edits: seq<Edit>, a: nat, k: nat): seq<Line>
    requires Fits(left, right, edits, a, k) && (k > a ==> edits[k - 1] == Match)
    decreases k, 0
  {
    if k == a then []
    else LinesOf(left, right, edits, a, k - 1) + [Line(' ', left[LeftPos(edits, k - 1)])]
  }

  lemma {:induction false} SidesOfTag(tag: char, texts: seq<string>)
    ensures LeftOf(TagAll(tag, texts)) == if tag == '+' then [] else texts
    ensures RightOf(TagAll(tag, texts)) == if tag == '-' then [] else texts
  {
    if texts != [] {
      SidesOfTag(tag, texts[1..]);
      var lines := TagAll(tag, texts);
      assert lines[0] == Line(tag, texts[0]) && lines[1..] == TagAll(tag, texts[1..]);
      assert texts == [texts[0]] + texts[1..];
    }
  }

  /** The lines' left side is the left part, their right side the right part. */
  lemma {:induction false} SidesOfLines(left: seq<string>, right: seq<string>, edits: seq<Edit>, a: nat, b: nat)
    requires Transforms(edits, left, right) && Fits(left, right, edits, a, b)
    ensures LeftPos(edits, a) <= LeftPos(edits, b) && RightPos(edits, a) <= RightPos(edits, b)
    ensures LeftOf(LinesOf(left, right, edits, a, b)) == left[LeftPos(edits, a)..LeftPos(edits, b)]
    ensures RightOf(LinesOf(left, right, edits, a, b)) == right[RightPos(edits, a)..RightPos(edits, b)]
    decreases b, 1
  {
    var k := RunStart(edits, a, b);
    PosGrows(edits, a, k);
    PosGrows(edits, k, b);
    var head, l, r := UpToMatch(left, right, edits, a, k), left[LeftPos(edits, k)..LeftPos(edits, b)],
                      right[RightPos(edits, k)..RightPos(edits, b)];
    SidesUpToMatch(left, right, edits, a, k);
    SidesOfTag('-', l);
    SidesOfTag('+', r);
    SidesAppend(head, TagAll('-', l));
    SidesAppend(head + TagAll('-', l), TagAll('+', r));
    Joined(left, LeftPos(edits, a), LeftPos(edits, k), LeftPos(edits, b));
    Joined(right, RightPos(edits, a), RightPos(edits, k), RightPos(edits, b));
  }

  lemma Joined(s: seq<string>, a: nat, b: nat, c: nat)
    requires a <= b <= c <= |s|
    ensures s[a..b] + s[b..c] == s[a..c] && s[a..b] + [] == s[a..b]
  {}

  lemma {:induction false} SidesUpToMatch(left: seq<string>, right: seq<string>, edits: seq<Edit>, a: nat, k: nat)
    requires Transforms(edits, left, right) && Fits(left, right, edits, a, k) && (k > a ==> edits[k - 1] == Match)
    requires LeftPos(edits, a) <= LeftPos(edits, k) && RightPos(edits, a) <= RightPos(edits, k)
    ensures LeftOf(UpToMatch(left, right, edits, a, k)) == left[LeftPos(edits, a)..LeftPos(edits, k)]
    ensures RightOf(UpToMatch(left, right, edits, a, k)) == right[RightPos(edits, a)..RightPos(edits, k)]
    decreases k, 0
  {
    if k > a {
      SidesOfLines(left, right, edits, a, k - 1);
      SameLine(left, right, edits, k - 1);
      CommonBehind(left, right, LinesOf(left, right, edits, a, k - 1), LeftPos(edits, a), LeftPos(edits, k - 1),
                   RightPos(edits, a), RightPos(edits, k - 1));
    }
  }

  /** A common line behind lines that cover a stretch of both sides. */
  lemma CommonBehind(left: seq<string>, right: seq<string>, lines: seq<Line>, l0: nat, l: nat, r0: nat, r: nat)
    requires l0 <= l < |left| && r0 <= r < |right| && left[l] == right[r]
    requires LeftOf(lines) == left[l0..l] && RightOf(lines) == right[r0..r]
    ensures var more := lines + [Line(' ', left[l])];
            LeftOf(more) == left[l0..l + 1] && RightOf(more) == right[r0..r + 1]
  {
    PushBehind(lines, Line(' ', left[l]));
    assert left[l0..l + 1] == left[l0..l] + [left[l]] && right[r0..r + 1] == right[r0..r] + [right[r]];
  }

  /** A match takes the same line from both sides. */
  lemma SameLine(left: seq<string>, right: seq<string>, edits: seq<Edit>, i: nat)
    requires Transforms(edits, left, right) && i < |edits| && edits[i] == Match
    ensures var l, r := LeftPos(edits, i), RightPos(edits, i);
            && LeftPos(edits, i + 1) == l + 1 <= |left| && RightPos(edits, i + 1) == r + 1 <= |right|
            && left[l] == right[r] && left[l..l + 1] == right[r..r + 1] == [left[l]]
  {
    var l, r := LeftPos(edits, i), RightPos(edits, i);
    assert l < |left| && r < |right| && left[l] == right[r] by {
      AheadAt(left, right, edits, i);
      Advance(left, right, edits, i);
    }
    assert left[l..l + 1] == [left[l]] && right[r..r + 1] == [right[r]];
  }

  /** One more edit: a match closes the stretch of changes, a change prolongs it. */
  lemma OneMoreEdit(left: seq<string>, right: seq<string>, edits: seq<Edit>, a: nat, i: nat)
    requires a <= i && Fits(left, right, edits, a, i + 1)
    ensures Fits(left, right, edits, a, i)
    ensures var k, k', e := RunStart(edits, a, i), RunStart(edits, a, i + 1), edits[i];
            && LeftPos(edits, k) <= LeftPos(edits, i) && LeftPos(edits, k') <= LeftPos(edits, i + 1)
            && RightPos(edits, k) <= RightPos(edits, i) && RightPos(edits, k') <= RightPos(edits, i + 1)
            && (if e == Match then
                  && k' == i + 1
                  && UpToMatch(left, right, edits, a, k') ==
                     LinesOf(left, right, edits, a, i) + [Line(' ', left[LeftPos(edits, i)])]
                else
                  && k' == k
                  && TagAll('-', left[LeftPos(edits, k)..LeftPos(edits, i + 1)]) ==
                     TagAll('-', left[LeftPos(edits, k)..LeftPos(edits, i)])
                     + (if e == Add then [] else [Line('-', left[LeftPos(edits, i)])])
                  && TagAll('+', right[RightPos(edits, k)..RightPos(edits, i + 1)]) ==
                     TagAll('+', right[RightPos(edits, k)..RightPos(edits, i)])
                     + (if e == Remove then [] else [Line('+', right[RightPos(edits, i)])]))
  {
    var k := RunStart(edits, a, i);
    PosGrows(edits, k, i);
    PosGrows(edits, RunStart(edits, a, i + 1), i + 1);
    PosGrows(edits, i, i + 1);
    TagMore('-', left, LeftPos(edits, k), LeftPos(edits, i), LeftPos(edits, i + 1));
    TagMore('+', right, RightPos(edits, k), RightPos(edits, i), RightPos(edits, i + 1));
  }

  lemma TagMore(tag: char, s: seq<string>, a: nat, b: nat, c: nat)
    requires a <= b <= c <= b + 1 && c <= |s|
    ensures TagAll(tag, s[a..c]) == TagAll(tag, s[a..b]) + (if c == b then [] else [Line(tag, s[b])])
  {}

  // ---------- where hunks begin and end ----------

  /** The edits of a hunk, with its first and its last change. */
  datatype Cut = Cut(from: nat, first: nat, last: nat, to: nat)

  /** No two changes with nothing but matches between them are 2 * context or more matches apart. */
  predicate Close(edits: seq<Edit>, context: nat, first: nat, last: nat)
    requires last < |edits|
  {
    forall p, q :: first <= p < q <= last && edits[p] != Match && edits[q] != Match && AllMatch(edits, p + 1, q) ==>
      q - p - 1 < 2 * context
  }

  /** A hunk around its changes: `context` matches on either side, or as many as the script has there. */
  predicate CutOk(edits: seq<Edit>, context: nat, c: Cut) {
    && c.from <= c.first <= c.last < c.to <= |edits| && edits[c.first] != Match && edits[c.last] != Match
    && AllMatch(edits, c.from, c.first) && AllMatch(edits, c.last + 1, c.to)
    && (c.first - c.from == context || (c.first - c.from < context && c.from == 0))
    && (c.to - c.last - 1 == context || (c.to - c.last - 1 < context && c.to == |edits|))
    && Close(edits, context, c.first, c.last)
  }

  /** Between two hunks there are matches only, and their changes are far apart. */
  predicate Apart(edits: seq<Edit>, context: nat, c: Cut, d: Cut) {
    c.to <= d.from <= |edits| && AllMatch(edits, c.to, d.from) && d.first - c.last - 1 >= 2 * context
  }

  predicate CutsOk(edits: seq<Edit>, context: nat, cuts: seq<Cut>) {
    && (forall j :: 0 <= j < |cuts| ==> CutOk(edits, context, cuts[j]))
    && (forall j, k :: 0 <= j < |cuts| && 0 <= k < |cuts| && k == j + 1 ==> Apart(edits, context, cuts[j], cuts[k]))
  }

  function EndOf(cuts: seq<Cut>): nat { if cuts == [] then 0 else cuts[|cuts| - 1].to }

  /** The hunks of a script: outside of them there are only matches. */
  predicate Layout(edits: seq<Edit>, context: nat, cuts: seq<Cut>) {
    && CutsOk(edits, context, cuts)
    && (cuts != [] ==> AllMatch(edits, 0, cuts[0].from)) && AllMatch(edits, EndOf(cuts), |edits|)
  }

  /** The edit takes a left line away. */
  predicate Takes(edits: seq<Edit>, a: nat, b: nat)
    requires b <= |edits|
  {
    exists k :: a <= k < b && (edits[k] == Remove || edits[k] == Replace)
  }

  /** The edit brings a right line in. */
  predicate Gives(edits: seq<Edit>, a: nat, b: nat)
    requires b <= |edits|
  {
    exists k :: a <= k < b && (edits[k] == Add || edits[k] == Replace)
  }

  /** The printed form of a hunk: its lines, and the half of the header for each side that changes. */
  function PrintedOf(left: seq<string>, right: seq<string>, edits: seq<Edit>, c: Cut): Printed
    requires Fits(left, right, edits, c.from, c.to)
  {
    PosGrows(edits, c.from, c.to);
    var l, r := LeftPos(edits, c.from), RightPos(edits, c.from);
    Printed(if Takes(edits, c.from, c.to) then Some(Span(l + 1, LeftPos(edits, c.to) - l)) else None,
            if Gives(edits, c.from, c.to) then Some(Span(r + 1, RightPos(edits, c.to) - r)) else None,
            LinesOf(left, right, edits, c.from, c.to))
  }

  predicate PrintedAll(left: seq<string>, right: seq<string>, edits: seq<Edit>, cuts: seq<Cut>, hunks: seq<Printed>) {
    && |hunks| == |cuts|
    && forall j :: 0 <= j < |cuts| ==>
         Fits(left, right, edits, cuts[j].from, cuts[j].to) && hunks[j] == PrintedOf(left, right, edits, cuts[j])
  }

  // ---------- what the layout means ----------

  /** How many matches come right before edit `p`. */
  function MatchesBefore(edits: seq<Edit>, p: nat): nat
    requires p <= |edits|
  {
    if p == 0 || edits[p - 1] != Match then 0 else 1 + MatchesBefore(edits, p - 1)
  }

  /** How many matches come from `p` on. */
  function MatchesFrom(edits: seq<Edit>, p: nat): nat
    requires p <= |edits|
    decreases |edits| - p
  {
    if p == |edits| || edits[p] != Match then 0 else 1 + MatchesFrom(edits, p + 1)
  }

  function Min(a: nat, b: nat): nat { if a < b then a else b }

  lemma {:induction false} CountBefore(edits: seq<Edit>, a: nat, p: nat)
    requires a <= p <= |edits| && AllMatch(edits, a, p)
    ensures MatchesBefore(edits, p) == p - a + MatchesBefore(edits, a)
    decreases p
  {
    if a < p { CountBefore(edits, a, p - 1); }
  }

  lemma {:induction false} CountFrom(edits: seq<Edit>, p: nat, b: nat)
    requires p <= b <= |edits| && AllMatch(edits, p, b)
    ensures MatchesFrom(edits, p) == b - p + MatchesFrom(edits, b)
    decreases b - p
  {
    if p < b { CountFrom(edits, p + 1, b); }
  }

  /** A hunk starts with as many common lines as there are matches before its first change and ends
      with as many as there are behind its last one, but no more than `context`. */
  lemma CommonLinesAround(edits: seq<Edit>, context: nat, c: Cut)
    requires CutOk(edits, context, c)
    ensures c.first - c.from == Min(context, MatchesBefore(edits, c.first))
    ensures c.to - c.last - 1 == Min(context, MatchesFrom(edits, c.last + 1))
  {
    CountBefore(edits, c.from, c.first);
    CountFrom(edits, c.last + 1, c.to);
  }

  predicate InCut(c: Cut, p: nat) { c.from <= p < c.to }

  lemma {:induction false} CutsOrdered(edits: seq<Edit>, context: nat, cuts: seq<Cut>, j: nat, k: nat)
    requires CutsOk(edits, context, cuts) && j < k < |cuts|
    ensures cuts[j].to <= cuts[k].from
    decreases k
  {
    assert Apart(edits, context, cuts[k - 1], cuts[k]);
    assert CutOk(edits, context, cuts[k - 1]);
    if j < k - 1 { CutsOrdered(edits, context, cuts, j, k - 1); }
  }

  /** Every change is in a hunk. */
  lemma ChangeIsShown(edits: seq<Edit>, context: nat, cuts: seq<Cut>, p: nat) returns (j: nat)
    requires Layout(edits, context, cuts) && p < |edits| && edits[p] != Match
    ensures j < |cuts| && cuts[j].first <= p <= cuts[j].last
  {
    assert cuts != [];
    assert !(p < cuts[0].from) && p < EndOf(cuts);
    j := 0;
    while p >= cuts[j].to
      invariant j < |cuts| && p >= cuts[j].from
      decreases |cuts| - j
    {
      assert j + 1 < |cuts|;
      assert Apart(edits, context, cuts[j], cuts[j + 1]);
      j := j + 1;
    }
    assert CutOk(edits, context, cuts[j]);
  }

  /** Two changes with nothing but matches between them are in the same hunk if and only if fewer than
      2 * context matches lie between them. */
  lemma SameHunkExactlyWhenNear(edits: seq<Edit>, context: nat, cuts: seq<Cut>, p: nat, q: nat)
    requires Layout(edits, context, cuts) && p < q < |edits| && edits[p] != Match && edits[q] != Match
    requires AllMatch(edits, p + 1, q)
    ensures (exists j :: 0 <= j < |cuts| && InCut(cuts[j], p) && InCut(cuts[j], q)) <==> q - p - 1 < 2 * context
  {
    var j := ChangeIsShown(edits, context, cuts, p);
    var k := ChangeIsShown(edits, context, cuts, q);
    assert CutOk(edits, context, cuts[j]) && CutOk(edits, context, cuts[k]);
    if j == k {
      assert InCut(cuts[j], p) && InCut(cuts[j], q);
    } else {
      DifferentHunks(edits, context, cuts, p, q, j, k);
    }
  }

  lemma DifferentHunks(edits: seq<Edit>, context: nat, cuts: seq<Cut>, p: nat, q: nat, j: nat, k: nat)
    requires CutsOk(edits, context, cuts) && p < q < |edits| && AllMatch(edits, p + 1, q)
    requires j < |cuts| && k < |cuts| && j != k
    requires cuts[j].first <= p <= cuts[j].last && cuts[k].first <= q <= cuts[k].last
    ensures q - p - 1 >= 2 * context
    ensures forall i :: 0 <= i < |cuts| ==> !(InCut(cuts[i], p) && InCut(cuts[i], q))
  {
    assert CutOk(edits, context, cuts[j]) && CutOk(edits, context, cuts[k]);
    if k < j { CutsOrdered(edits, context, cuts, k, j); }
    NextHunks(edits, context, cuts, p, q, j, k);
    forall i | 0 <= i < |cuts| && InCut(cuts[i], p) ensures !InCut(cuts[i], q) {
      OneCutEach(edits, context, cuts, p, i, j);
    }
  }

  lemma OneCutEach(edits: seq<Edit>, context: nat, cuts: seq<Cut>, p: nat, i: nat, j: nat)
    requires CutsOk(edits, context, cuts) && i < |cuts| && j < |cuts| && InCut(cuts[i], p) && InCut(cuts[j], p)
    ensures i == j
  {
    if i < j { CutsOrdered(edits, context, cuts, i, j); }
    if j < i { CutsOrdered(edits, context, cuts, j, i); }
  }

  /** The later change is the first of the next hunk. */
  lemma NextHunks(edits: seq<Edit>, context: nat, cuts: seq<Cut>, p: nat, q: nat, j: nat, k: nat)
    requires CutsOk(edits, context, cuts) && p < q < |edits| && AllMatch(edits, p + 1, q) && j < k < |cuts|
    requires cuts[j].first <= p <= cuts[j].last && cuts[k].first <= q <= cuts[k].last
    ensures k == j + 1 && q - p - 1 >= 2 * context && !InCut(cuts[j], q)
  {
    assert CutOk(edits, context, cuts[j]) && CutOk(edits, context, cuts[k]);
    CutsOrdered(edits, context, cuts, j, k);
    assert cuts[j].last == p && cuts[k].first == q;
    if j + 1 < k {
      assert CutOk(edits, context, cuts[j + 1]);
      CutsOrdered(edits, context, cuts, j, j + 1);
      CutsOrdered(edits, context, cuts, j + 1, k);
      assert false;
    }
    assert Apart(edits, context, cuts[j], cuts[k]);
  }

  // ---------- the diff ----------

  /** The lines of the edits from `a` to `i` as a hunk keeps them: up to the last match, removed, added. */
  predicate Parts(left: seq<string>, right: seq<string>, edits: seq<Edit>, a: nat, i: nat, lines: seq<Line>,
                  removed: seq<Line>, added: seq<Line>)
    requires Fits(left, right, edits, a, i)
  {
    var k := RunStart(edits, a, i);
    PosGrows(edits, k, i);
    && lines == UpToMatch(left, right, edits, a, k)
    && removed == TagAll('-', left[LeftPos(edits, k)..LeftPos(edits, i)])
    && added == TagAll('+', right[RightPos(edits, k)..RightPos(edits, i)])
  }

  lemma NextParts(left: seq<string>, right: seq<string>, edits: seq<Edit>, a: nat, i: nat, lines: seq<Line>,
                  removed: seq<Line>, added: seq<Line>)
    requires a <= i && Fits(left, right, edits, a, i + 1) && Fits(left, right, edits, a, i)
    requires Parts(left, right, edits, a, i, lines, removed, added)
    ensures var l, r, e := LeftPos(edits, i), RightPos(edits, i), edits[i];
            && (e != Add ==> l < |left|) && (e != Remove ==> r < |right|)
            && if e == Match then
                 Parts(left, right, edits, a, i + 1, lines + removed + added + [Line(' ', left[l])], [], [])
               else Parts(left, right, edits, a, i + 1, lines,
                          removed + (if e == Add then [] else [Line('-', left[l])]),
                          added + (if e == Remove then [] else [Line('+', right[r])]))
  {
    OneMoreEdit(left, right, edits, a, i);
  }

  /** The hunk holds the lines of the edits from `a` to `i`, and knows which sides they change. */
  ghost predicate Holds(hunk: Hunk, left: seq<string>, right: seq<string>, edits: seq<Edit>, a: nat, i: nat)
    requires Fits(left, right, edits, a, i)
    reads hunk
  {
    && hunk.Valid() && Parts(left, right, edits, a, i, hunk.hunk, hunk.hunkRemoves, hunk.hunkAdds)
    && (hunk.removes > 0 <==> Takes(edits, a, i)) && (hunk.adds > 0 <==> Gives(edits, a, i))
  }

  lemma NextChanges(edits: seq<Edit>, a: nat, i: nat)
    requires a <= i < |edits|
    ensures Takes(edits, a, i + 1) <==> Takes(edits, a, i) || edits[i] == Remove || edits[i] == Replace
    ensures Gives(edits, a, i + 1) <==> Gives(edits, a, i) || edits[i] == Add || edits[i] == Replace
  {}

  /** One edit goes into the hunk: its left line as common or removed, its right line as added. */
  method PushEdit(hunk: Hunk, left: seq<string>, right: seq<string>, edits: seq<Edit>, l: nat, r: nat, i: nat,
                  ghost a: nat)
    requires a <= i && Fits(left, right, edits, a, i + 1) && Fits(left, right, edits, a, i)
    requires l == LeftPos(edits, i) && r == RightPos(edits, i) && Holds(hunk, left, right, edits, a, i)
    modifies hunk
    ensures Holds(hunk, left, right, edits, a, i + 1)
  {
    NextParts(left, right, edits, a, i, hunk.hunk, hunk.hunkRemoves, hunk.hunkAdds);
    NextChanges(edits, a, i);
    var edit := edits[i];
    ghost var removed, added := hunk.hunkRemoves, hunk.hunkAdds;
    assert removed + [] == removed && added + [] == added;
    if edit == Match || edit == Remove || edit == Replace {
      hunk.PushLine(if edit == Match then ' ' else '-', left[l]);
    }
    if edit == Add || edit == Replace {
      hunk.PushLine('+', right[r]);
    }
  }

  /** The next `context` edits, as far as there are so many, are matches. */
  predicate Clear(edits: seq<Edit>, i: nat, context: nat) {
    forall k :: i <= k < i + context && k < |edits| ==> edits[k] == Match
  }

  /** There is no further edit, or it is `context` or more matches away. */
  method FarFromNext(edits: seq<Edit>, i: nat, context: nat) returns (far: bool)
    requires i <= |edits|
    ensures far <==> Clear(edits, i, context)
  {
    var it := i;
    while it < |edits| && edits[it] == Match
      invariant i <= it <= |edits|
      invariant AllMatch(edits, i, it)
    {
      it := it + 1;
    }
    far := it == |edits| || it - i >= context;
  }

  /** The hunk's edits end `context` matches behind its last change, or with the script. */
  predicate Ends(edits: seq<Edit>, context: nat, last: nat, i: nat) {
    && last < i <= |edits| && edits[last] != Match && AllMatch(edits, last + 1, i)
    && (if i == |edits| then i - last - 1 <= context else i - last - 1 == context && Clear(edits, i, context))
  }

  /** The edits so far: `last` is the last change, and if more than `context` matches have come since,
      the next change is near. */
  predicate Underway(edits: seq<Edit>, context: nat, first: nat, last: nat, i: nat) {
    && first <= last < i <= |edits| && edits[last] != Match && AllMatch(edits, last + 1, i)
    && Close(edits, context, first, last)
    && (i - last - 1 > context ==> !Clear(edits, last + 1 + context, context))
  }

  lemma NextUnderway(edits: seq<Edit>, context: nat, first: nat, last: nat, i: nat)
    requires Underway(edits, context, first, last, i) && i < |edits| && context > 0
    requires i - last - 1 >= context ==> !Clear(edits, i, context)
    ensures Underway(edits, context, first, if edits[i] == Match then last else i, i + 1)
  {
    if edits[i] != Match {
      forall p, q | first <= p < q <= i && edits[p] != Match && edits[q] != Match && AllMatch(edits, p + 1, q)
        ensures q - p - 1 < 2 * context
      {
        if q == i { assert p >= last; }
      }
    }
  }

  lemma ClearBefore(edits: seq<Edit>, j: nat, i: nat, context: nat)
    requires j <= i <= |edits| && AllMatch(edits, j, i) && Clear(edits, i, context)
    ensures forall k: nat :: j <= k <= i ==> Clear(edits, k, context)
  {}

  lemma UnderwayEnds(edits: seq<Edit>, context: nat, first: nat, last: nat, i: nat)
    requires Underway(edits, context, first, last, i) && context > 0
    requires i < |edits| ==> i - last - 1 >= context && Clear(edits, i, context)
    ensures Ends(edits, context, last, i)
  {
    ClearBefore(edits, last + 1, i, context);
  }

  /** The state of a hunk's loop: `suffix` matches have come since the last change. */
  predicate Progress(edits: seq<Edit>, context: nat, first: nat, last: nat, i: nat, suffix: nat) {
    if i == first then last == first && suffix == 0
    else context > 0 && Underway(edits, context, first, last, i) && suffix == i - last - 1
  }

  lemma NextProgress(edits: seq<Edit>, context: nat, first: nat, last: nat, i: nat, suffix: nat)
    requires Progress(edits, context, first, last, i, suffix) && first <= i < |edits| && edits[first] != Match
    requires suffix >= context ==> !Clear(edits, i, context)
    ensures context > 0
    ensures if edits[i] == Match then Progress(edits, context, first, last, i + 1, suffix + 1)
            else Progress(edits, context, first, i, i + 1, 0)
  {
    assert context == 0 ==> Clear(edits, i, context);
    if i > first { NextUnderway(edits, context, first, last, i); }
  }

  /** The hunk and the positions after the edits from `a` to `i`; all edits fit. */
  ghost predicate HeldAt(hunk: Hunk, left: seq<string>, right: seq<string>, edits: seq<Edit>, a: nat, l: nat, r: nat,
                         i: nat)
    reads hunk
  {
    && Fits(left, right, edits, a, |edits|) && Fits(left, right, edits, a, i) && Holds(hunk, left, right, edits, a, i)
    && l == LeftPos(edits, i) && r == RightPos(edits, i)
  }

  /** The edits of one hunk, until enough matches follow and the next edit is far. */
  method PushEdits(hunk: Hunk, left: seq<string>, right: seq<string>, edits: seq<Edit>, context: nat,
                   l0: nat, r0: nat, i0: nat, ghost a: nat)
    returns (l: nat, r: nat, i: nat, ghost last: nat)
    requires i0 < |edits| && edits[i0] != Match && HeldAt(hunk, left, right, edits, a, l0, r0, i0)
    modifies hunk
    ensures HeldAt(hunk, left, right, edits, a, l, r, i)
    ensures context == 0 ==> i == i0
    ensures context > 0 ==> i0 <= last && Ends(edits, context, last, i) && Close(edits, context, i0, last)
  {
    l, r, i := l0, r0, i0;
    var nSuffix := 0;
    last := i0;
    while i < |edits|
      invariant HeldAt(hunk, left, right, edits, a, l, r, i)
      invariant i0 <= i <= |edits| && Progress(edits, context, i0, last, i, nSuffix)
      decreases |edits| - i
    {
      if nSuffix >= context {
        var far := FarFromNext(edits, i, context);
        if far {
          break;
        }
      }
      NextProgress(edits, context, i0, last, i, nSuffix);
      nSuffix := if edits[i] == Match then nSuffix + 1 else 0;
      if edits[i] != Match { last := i; }
      l, r, i := PushNext(hunk, left, right, edits, l, r, i, a);
    }
    EndOfHunk(edits, context, i0, last, i, nSuffix);
  }

  lemma EndOfHunk(edits: seq<Edit>, context: nat, first: nat, last: nat, i: nat, suffix: nat)
    requires Progress(edits, context, first, last, i, suffix) && first < |edits| && first <= i <= |edits|
    requires i < |edits| ==> suffix >= context && Clear(edits, i, context)
    requires edits[first] != Match
    ensures context == 0 ==> i == first
    ensures context > 0 ==> first <= last && Ends(edits, context, last, i) && Close(edits, context, first, last)
  {
    assert context > 0 ==> !Clear(edits, first, context);
    if context > 0 { UnderwayEnds(edits, context, first, last, i); }
  }

  method PushNext(hunk: Hunk, left: seq<string>, right: seq<string>, edits: seq<Edit>, l0: nat, r0: nat, i0: nat,
                  ghost a: nat)
    returns (l: nat, r: nat, i: nat)
    requires i0 < |edits| && HeldAt(hunk, left, right, edits, a, l0, r0, i0)
    modifies hunk
    ensures i == i0 + 1 && HeldAt(hunk, left, right, edits, a, l, r, i)
  {
    PosGrows(edits, i0 + 1, |edits|);
    PushEdit(hunk, left, right, edits, l0, r0, i0, a);
    l, r, i := l0 + LeftStep(edits[i0]), r0 + RightStep(edits[i0]), i0 + 1;
  }

  /** The hunks printed so far turn the first L left lines into the first R right lines. */
  predicate Applied(left: seq<string>, right: seq<string>, hunks: seq<Printed>, L: nat, R: nat) {
    L <= |left| && R <= |right| && ApplyHunks(left, hunks) == Some(Patched(L, right[..R]))
  }

  /** The lines from (L, R) to (l, r) are the same on both sides. */
  predicate Same(left: seq<string>, right: seq<string>, L: nat, R: nat, l: nat, r: nat) {
    L <= l <= |left| && R <= r <= |right| && l - L == r - R && left[L..l] == right[R..r]
  }

  /** Over matches both positions move alike. */
  lemma {:induction false} MatchPos(edits: seq<Edit>, i: nat, j: nat)
    requires i <= j <= |edits| && AllMatch(edits, i, j)
    ensures LeftPos(edits, j) == LeftPos(edits, i) + j - i && RightPos(edits, j) == RightPos(edits, i) + j - i
    decreases j
  {
    if i < j { MatchPos(edits, i, j - 1); }
  }

  lemma SameMore(left: seq<string>, right: seq<string>, L: nat, R: nat, l: nat, r: nat)
    requires Same(left, right, L, R, l, r) && l < |left| && r < |right| && left[l] == right[r]
    ensures Same(left, right, L, R, l + 1, r + 1)
  {
    assert left[L..l + 1] == left[L..l] + [left[l]] && right[R..r + 1] == right[R..r] + [right[r]];
  }

  /** Over matches both sides have the same lines. */
  lemma {:induction false} MatchSame(left: seq<string>, right: seq<string>, edits: seq<Edit>, i: nat, j: nat)
    requires Transforms(edits, left, right) && i <= j <= |edits| && AllMatch(edits, i, j)
    ensures Same(left, right, LeftPos(edits, i), RightPos(edits, i), LeftPos(edits, j), RightPos(edits, j))
    decreases j
  {
    MatchPos(edits, i, j);
    if i < j {
      MatchSame(left, right, edits, i, j - 1);
      MatchPos(edits, i, j - 1);
      SameLine(left, right, edits, j - 1);
      SameMore(left, right, LeftPos(edits, i), RightPos(edits, i), LeftPos(edits, j - 1), RightPos(edits, j - 1));
    } else {
      assert Ahead(left, right, edits, i) by { AheadAt(left, right, edits, i); }
    }
  }

  method SkipMatches(edits: seq<Edit>, l0: nat, r0: nat, i0: nat) returns (l: nat, r: nat, i: nat)
    requires i0 <= |edits| && l0 == LeftPos(edits, i0) && r0 == RightPos(edits, i0)
    ensures i0 <= i <= |edits| && l == LeftPos(edits, i) && r == RightPos(edits, i) && AllMatch(edits, i0, i)
    ensures i < |edits| ==> edits[i] != Match
  {
    l, r, i := l0, r0, i0;
    while i < |edits| && edits[i] == Match
      invariant i0 <= i <= |edits| && l == LeftPos(edits, i) && r == RightPos(edits, i) && AllMatch(edits, i0, i)
      decreases |edits| - i
    {
      l, r, i := l + 1, r + 1, i + 1;
    }
  }

  /** Starts a hunk with the last `n` lines before its first change, all of them matches. */
  method PushPrefix(hunk: Hunk, left: seq<string>, right: seq<string>, edits: seq<Edit>, l: nat, n: nat, ghost i0: nat,
                    ghost a: nat)
    requires n <= l <= |left| && a + n == i0 <= |edits| && AllMatch(edits, a, i0)
    requires l == LeftPos(edits, i0) && Fits(left, right, edits, a, i0)
    requires Fits(left, right, edits, a, a) && Holds(hunk, left, right, edits, a, a)
    modifies hunk
    ensures Holds(hunk, left, right, edits, a, i0)
  {
    var i := n;
    ghost var k: nat := a;
    while i > 0
      invariant 0 <= i <= n && k == i0 - i
      invariant Fits(left, right, edits, a, k) && Holds(hunk, left, right, edits, a, k)
    {
      k := PushCommonEdit(hunk, left, right, edits, l - i, k, i0, a);
      i := i - 1;
    }
    assert k == i0;
  }

  method PushCommonEdit(hunk: Hunk, left: seq<string>, right: seq<string>, edits: seq<Edit>, l: nat, ghost k: nat,
                        ghost i: nat, ghost a: nat)
    returns (ghost k': nat)
    requires a <= k < i <= |edits| && AllMatch(edits, k, i) && l + (i - k) == LeftPos(edits, i)
    requires Fits(left, right, edits, a, i) && Fits(left, right, edits, a, k) && Holds(hunk, left, right, edits, a, k)
    modifies hunk
    ensures k' == k + 1 && Fits(left, right, edits, a, k') && Holds(hunk, left, right, edits, a, k')
  {
    MatchPos(edits, k, i);
    PosGrows(edits, k + 1, i);
    NextParts(left, right, edits, a, k, hunk.hunk, hunk.hunkRemoves, hunk.hunkAdds);
    NextChanges(edits, a, k);
    hunk.PushLine(' ', left[l]);
    k' := k + 1;
  }

  /** A printed hunk moves the patch from where the last one ended to where this one ends. */
  lemma HunkApplies(left: seq<string>, right: seq<string>, hunks: seq<Printed>, h: Printed,
                    L: nat, R: nat, P: nat, Q: nat, l: nat, r: nat)
    requires Applied(left, right, hunks, L, R) && Same(left, right, L, R, P, Q)
    requires P <= l <= |left| && Q <= r <= |right|
    requires Tagged(h.lines) && LengthsFit(h) && LeftOf(h.lines) == left[P..l] && RightOf(h.lines) == right[Q..r]
    requires h.left.Some? || h.right.Some?
    requires h.left.Some? ==> h.left.value.start == P + 1
    requires h.right.Some? ==> h.right.value.start == Q + 1
    ensures Applied(left, right, hunks + [h], l, r)
  {
    var all := hunks + [h];
    assert all[..|all| - 1] == hunks;
    var at := Patched(L, right[..R]);
    assert Skipped(at, h) == P - L;
    assert right[..R] + left[L..P] == right[..Q];
    ApplyLinesWorks(left, Patched(P, right[..Q]), h.lines);
    assert right[..Q] + right[Q..r] == right[..r];
  }

  /** Nothing is left but lines that are the same on both sides. */
  lemma DiffDone(left: seq<string>, right: seq<string>, hunks: seq<Printed>, L: nat, R: nat)
    requires Applied(left, right, hunks, L, R) && Same(left, right, L, R, |left|, |right|)
    ensures ApplyDiff(left, hunks) == Some(right)
  {
    assert left[L..|left|] == left[L..] && right[R..|right|] == right[R..];
    assert right[..R] + right[R..] == right;
  }

  /** A script with an edit that is not a match comes from different inputs. */
  lemma EditMeansDifferent(left: seq<string>, right: seq<string>, i: nat)
    requires var edits := Path(left, right, |left|, |right|); i < |edits| && edits[i] != Match
    ensures left != right
  {
    if left == right { PathOfEqual(left, |left|); }
  }

  /** Between two hunks: the hunks so far, and enough matches ahead. */
  predicate Laid(edits: seq<Edit>, context: nat, cuts: seq<Cut>, i: nat) {
    && CutsOk(edits, context, cuts) && EndOf(cuts) == i <= |edits|
    && (cuts != [] ==>
          && context > 0 && AllMatch(edits, 0, cuts[0].from)
          && (i < |edits| ==> i - cuts[|cuts| - 1].last - 1 == context && Clear(edits, i, context)))
  }

  /** Everything up to edit `i` is printed. */
  ghost predicate Between(left: seq<string>, right: seq<string>, edits: seq<Edit>, context: nat, hunks: seq<Printed>,
                          cuts: seq<Cut>, l: nat, r: nat, i: nat)
  {
    && Laid(edits, context, cuts, i)
    && l == LeftPos(edits, i) && r == RightPos(edits, i)
    && Applied(left, right, hunks, l, r) && PrintedAll(left, right, edits, cuts, hunks)
  }

  /** The diff is complete. */
  ghost predicate Complete(left: seq<string>, right: seq<string>, edits: seq<Edit>, context: nat, hunks: seq<Printed>,
                           cuts: seq<Cut>)
  {
    && (ApplyDiff(left, hunks) == Some(right) <==> context > 0 || left == right)
    && (context > 0 ==> Layout(edits, context, cuts) && PrintedAll(left, right, edits, cuts, hunks))
    && (context == 0 ==> hunks == [])
  }

  /** As many matches come before a hunk's first change as its prefix takes. */
  lemma PrefixFits(edits: seq<Edit>, context: nat, cuts: seq<Cut>, i0: nat, i: nat, l: nat)
    requires Laid(edits, context, cuts, i0) && i0 <= i < |edits| && AllMatch(edits, i0, i) && edits[i] != Match
    requires l == LeftPos(edits, i)
    ensures Min(l, context) <= i - i0
    ensures Min(l, context) == context || (Min(l, context) == i && i0 == 0 && cuts == [])
  {
    MatchPos(edits, i0, i);
    assert cuts == [] ==> i0 == 0;
    assert cuts != [] ==> i >= i0 + context;
  }

  lemma AddCut(edits: seq<Edit>, context: nat, cuts: seq<Cut>, i0: nat, c: Cut)
    requires Laid(edits, context, cuts, i0) && i0 <= c.first < |edits| && AllMatch(edits, i0, c.first)
    requires context > 0 && i0 <= c.from <= c.first && edits[c.first] != Match
    requires c.first - c.from == context || (c.first - c.from < context && c.from == 0 && cuts == [])
    requires c.first <= c.last && Ends(edits, context, c.last, c.to) && Close(edits, context, c.first, c.last)
    ensures Laid(edits, context, cuts + [c], c.to)
  {
    assert CutOk(edits, context, c);
    if cuts != [] { CutIsApart(edits, context, cuts, i0, c); }
    CutsSnoc(edits, context, cuts, c);
  }

  lemma CutIsApart(edits: seq<Edit>, context: nat, cuts: seq<Cut>, i0: nat, c: Cut)
    requires Laid(edits, context, cuts, i0) && i0 <= c.from <= c.first < |edits| && AllMatch(edits, i0, c.first)
    requires edits[c.first] != Match && cuts != []
    ensures Apart(edits, context, cuts[|cuts| - 1], c)
  {
    assert c.first >= i0 + context;
  }

  lemma CutsSnoc(edits: seq<Edit>, context: nat, cuts: seq<Cut>, c: Cut)
    requires CutsOk(edits, context, cuts) && CutOk(edits, context, c)
    requires cuts != [] ==> Apart(edits, context, cuts[|cuts| - 1], c)
    ensures CutsOk(edits, context, cuts + [c]) && EndOf(cuts + [c]) == c.to
  {
    EachCutOk(edits, context, cuts, c);
    EachApart(edits, context, cuts, c);
  }

  lemma EachApart(edits: seq<Edit>, context: nat, cuts: seq<Cut>, c: Cut)
    requires cuts != [] ==> Apart(edits, context, cuts[|cuts| - 1], c)
    requires forall j, k :: 0 <= j < |cuts| && 0 <= k < |cuts| && k == j + 1 ==> Apart(edits, context, cuts[j], cuts[k])
    ensures var more := cuts + [c];
            forall j, k :: 0 <= j < |more| && 0 <= k < |more| && k == j + 1 ==> Apart(edits, context, more[j], more[k])
  {
    var more := cuts + [c];
    forall j, k | 0 <= j < |more| && 0 <= k < |more| && k == j + 1 ensures Apart(edits, context, more[j], more[k]) {
      assert more[j] == cuts[j] && more[k] == if k < |cuts| then cuts[k] else c;
    }
  }

  lemma EachCutOk(edits: seq<Edit>, context: nat, cuts: seq<Cut>, c: Cut)
    requires (forall j :: 0 <= j < |cuts| ==> CutOk(edits, context, cuts[j])) && CutOk(edits, context, c)
    ensures forall j :: 0 <= j < |cuts + [c]| ==> CutOk(edits, context, (cuts + [c])[j])
  {
    forall j | 0 <= j < |cuts + [c]| ensures CutOk(edits, context, (cuts + [c])[j]) {
      assert (cuts + [c])[j] == if j < |cuts| then cuts[j] else c;
    }
  }

  /** What has been printed is the printed form of the hunk's edits. */
  lemma IsPrintedOf(left: seq<string>, right: seq<string>, edits: seq<Edit>, c: Cut, h: Printed)
    requires Transforms(edits, left, right) && Fits(left, right, edits, c.from, c.to)
    requires h.lines == LinesOf(left, right, edits, c.from, c.to)
    requires h.left == if Takes(edits, c.from, c.to) then Some(Span(LeftPos(edits, c.from) + 1, |LeftOf(h.lines)|))
                       else None
    requires h.right == if Gives(edits, c.from, c.to) then Some(Span(RightPos(edits, c.from) + 1, |RightOf(h.lines)|))
                        else None
    ensures h == PrintedOf(left, right, edits, c)
  {
    SidesOfLines(left, right, edits, c.from, c.to);
  }

  /** A printed hunk applies behind the ones before it. */
  lemma PrintedApplies(left: seq<string>, right: seq<string>, edits: seq<Edit>, hunks: seq<Printed>, e: nat, c: Cut,
                       h: Printed)
    requires Transforms(edits, left, right) && Fits(left, right, edits, c.from, c.to)
    requires e <= c.from && AllMatch(edits, e, c.from)
    requires Applied(left, right, hunks, LeftPos(edits, e), RightPos(edits, e))
    requires h == PrintedOf(left, right, edits, c) && Tagged(h.lines) && LengthsFit(h)
    requires Takes(edits, c.from, c.to) || Gives(edits, c.from, c.to)
    ensures Applied(left, right, hunks + [h], LeftPos(edits, c.to), RightPos(edits, c.to))
  {
    SidesOfLines(left, right, edits, c.from, c.to);
    MatchSame(left, right, edits, e, c.from);
    HunkApplies(left, right, hunks, h, LeftPos(edits, e), RightPos(edits, e), LeftPos(edits, c.from),
                RightPos(edits, c.from), LeftPos(edits, c.to), RightPos(edits, c.to));
  }

  /** A hunk without changes can only come from a context of 0, and is the first. */
  lemma NothingToPrint(left: seq<string>, right: seq<string>, edits: seq<Edit>, context: nat, hunks: seq<Printed>,
                       cuts: seq<Cut>, e: nat, i: nat)
    requires edits == Path(left, right, |left|, |right|) && i < |edits| && edits[i] != Match && context == 0
    requires Laid(edits, context, cuts, e) && PrintedAll(left, right, edits, cuts, hunks)
    ensures Complete(left, right, edits, context, hunks, cuts)
  {
    EditMeansDifferent(left, right, i);
    assert ApplyHunks(left, []) == Some(Patched(0, []));
    assert [] + left[0..] == left;
  }

  /** One more hunk: everything up to its end is printed. */
  lemma HunkAdded(left: seq<string>, right: seq<string>, edits: seq<Edit>, context: nat, hunks: seq<Printed>,
                  cuts: seq<Cut>, e: nat, c: Cut, h: Printed)
    requires Transforms(edits, left, right) && Fits(left, right, edits, c.from, c.to) && context > 0 && e <= c.from
    requires Between(left, right, edits, context, hunks, cuts, LeftPos(edits, e), RightPos(edits, e), e)
    requires e <= c.from <= c.first < |edits| && AllMatch(edits, e, c.first) && edits[c.first] != Match
    requires c.first - c.from == context || (c.first - c.from < context && c.from == 0 && cuts == [])
    requires c.first <= c.last && Ends(edits, context, c.last, c.to) && Close(edits, context, c.first, c.last)
    requires h == PrintedOf(left, right, edits, c) && Tagged(h.lines) && LengthsFit(h)
    ensures Between(left, right, edits, context, hunks + [h], cuts + [c], LeftPos(edits, c.to), RightPos(edits, c.to),
                    c.to)
  {
    ChangesInHunk(edits, context, c.from, c.first, c.to);
    PrintedApplies(left, right, edits, hunks, e, c, h);
    AddCut(edits, context, cuts, e, c);
    PrintedSnoc(left, right, edits, cuts, hunks, c, h);
  }

  lemma PrintedSnoc(left: seq<string>, right: seq<string>, edits: seq<Edit>, cuts: seq<Cut>, hunks: seq<Printed>,
                    c: Cut, h: Printed)
    requires PrintedAll(left, right, edits, cuts, hunks) && Fits(left, right, edits, c.from, c.to)
    requires h == PrintedOf(left, right, edits, c)
    ensures PrintedAll(left, right, edits, cuts + [c], hunks + [h])
  {}

  /** Prints a hunk that has edits. */
  method PrintHunk(left: seq<string>, right: seq<string>, edits: seq<Edit>, context: nat, hunks: seq<Printed>,
                   hunk: Hunk, l0: nat, r0: nat, i0: nat, ghost cuts: seq<Cut>, ghost e: nat, ghost a: nat)
    returns (more: bool, l: nat, r: nat, i: nat, hunks': seq<Printed>, ghost cuts': seq<Cut>)
    requires edits == Path(left, right, |left|, |right|) && Transforms(edits, left, right) && e <= a <= i0 < |edits|
    requires Between(left, right, edits, context, hunks, cuts, LeftPos(edits, e), RightPos(edits, e), e)
    requires AllMatch(edits, e, i0) && edits[i0] != Match
    requires i0 - a == context || (i0 - a < context && a == 0 && cuts == [])
    requires HeldAt(hunk, left, right, edits, a, l0, r0, i0)
    requires hunk.leftStart == LeftPos(edits, a) + 1 && hunk.rightStart == RightPos(edits, a) + 1
    modifies hunk
    ensures more ==> i > i0 && Between(left, right, edits, context, hunks', cuts', l, r, i)
    ensures !more ==> Complete(left, right, edits, context, hunks', cuts')
  {
    ghost var last;
    l, r, i, last := PushEdits(hunk, left, right, edits, context, l0, r0, i0, a);
    more := hunk.adds > 0 || hunk.removes > 0;
    ChangesInHunk(edits, context, a, i0, i);
    if more {
      ghost var c := Cut(a, i0, last, i);
      var h := PrintHeld(hunk, left, right, edits, l, r, i, c);
      hunks', cuts' := hunks + [h], cuts + [c];
      HunkAdded(left, right, edits, context, hunks, cuts, e, c, h);
    } else {
      hunks', cuts' := hunks, cuts;
      NothingToPrint(left, right, edits, context, hunks, cuts, e, i0);
    }
  }

  /** The hunk has edits exactly if the context is positive. */
  lemma ChangesInHunk(edits: seq<Edit>, context: nat, a: nat, i0: nat, i: nat)
    requires a <= i0 < |edits| && i <= |edits| && AllMatch(edits, a, i0) && edits[i0] != Match
    requires if context == 0 then i == i0 else i > i0
    ensures Takes(edits, a, i) || Gives(edits, a, i) <==> context > 0
  {}

  method PrintHeld(hunk: Hunk, left: seq<string>, right: seq<string>, edits: seq<Edit>, l: nat, r: nat, i: nat,
                   ghost c: Cut)
    returns (h: Printed)
    requires Transforms(edits, left, right) && c.to == i && HeldAt(hunk, left, right, edits, c.from, l, r, i)
    requires hunk.leftStart == LeftPos(edits, c.from) + 1 && hunk.rightStart == RightPos(edits, c.from) + 1
    modifies hunk
    ensures Fits(left, right, edits, c.from, c.to)
    ensures h == PrintedOf(left, right, edits, c) && Tagged(h.lines) && LengthsFit(h)
  {
    assert hunk.Lines() == LinesOf(left, right, edits, c.from, c.to);
    h := hunk.PrintTo();
    IsPrintedOf(left, right, edits, c, h);
  }

  method StartHunk(left: seq<string>, right: seq<string>, edits: seq<Edit>, l: nat, r: nat, prefix: nat, ghost i: nat,
                   ghost a: nat)
    returns (hunk: Hunk)
    requires a + prefix == i < |edits| && AllMatch(edits, a, i) && Fits(left, right, edits, a, |edits|)
    requires l == LeftPos(edits, i) && r == RightPos(edits, i)
    ensures fresh(hunk) && HeldAt(hunk, left, right, edits, a, l, r, i)
    ensures hunk.leftStart == LeftPos(edits, a) + 1 && hunk.rightStart == RightPos(edits, a) + 1
  {
    MatchPos(edits, a, i);
    PosGrows(edits, a, |edits|);
    PosGrows(edits, i, |edits|);
    hunk := new Hunk(l - prefix + 1, r - prefix + 1);
    assert Holds(hunk, left, right, edits, a, a);
    PushPrefix(hunk, left, right, edits, l, prefix, i, a);
  }

  lemma AllFits(left: seq<string>, right: seq<string>, edits: seq<Edit>, a: nat)
    requires Transforms(edits, left, right) && a <= |edits|
    ensures Fits(left, right, edits, a, |edits|)
  {
    AheadAt(left, right, edits, |edits|);
  }

  /** The body of the outer loop: skip the matches, then print the next hunk if there is one. */
  method NextHunk(left: seq<string>, right: seq<string>, edits: seq<Edit>, context: nat, hunks: seq<Printed>,
                  l0: nat, r0: nat, i0: nat, ghost cuts: seq<Cut>)
    returns (more: bool, l: nat, r: nat, i: nat, hunks': seq<Printed>, ghost cuts': seq<Cut>)
    requires edits == Path(left, right, |left|, |right|) && Transforms(edits, left, right) && i0 < |edits|
    requires Between(left, right, edits, context, hunks, cuts, l0, r0, i0)
    ensures more ==> i > i0 && Between(left, right, edits, context, hunks', cuts', l, r, i)
    ensures !more ==> Complete(left, right, edits, context, hunks', cuts')
  {
    var l1, r1, i1 := SkipMatches(edits, l0, r0, i0);
    if i1 == |edits| {
      OnlyMatchesLeft(left, right, edits, context, hunks, cuts, i0);
      return false, l1, r1, i1, hunks, cuts;
    }
    var prefix := if l1 < context then l1 else context;
    PrefixFits(edits, context, cuts, i0, i1, l1);
    ghost var a: nat := i1 - prefix;
    AllFits(left, right, edits, a);
    var hunk := StartHunk(left, right, edits, l1, r1, prefix, i1, a);
    more, l, r, i, hunks', cuts' := PrintHunk(left, right, edits, context, hunks, hunk, l1, r1, i1, cuts, i0, a);
  }

  /** All remaining edits are matches: the diff is complete. */
  lemma OnlyMatchesLeft(left: seq<string>, right: seq<string>, edits: seq<Edit>, context: nat, hunks: seq<Printed>,
                        cuts: seq<Cut>, i: nat)
    requires Transforms(edits, left, right) && i <= |edits| && AllMatch(edits, i, |edits|)
    requires Between(left, right, edits, context, hunks, cuts, LeftPos(edits, i), RightPos(edits, i), i)
    ensures Complete(left, right, edits, context, hunks, cuts)
  {
    AheadAt(left, right, edits, |edits|);
    Advance(left, right, edits, |edits|);
    MatchSame(left, right, edits, i, |edits|);
    DiffDone(left, right, hunks, LeftPos(edits, i), RightPos(edits, i));
    if hunks == [] { assert [] + left[0..] == left; }
  }

  /** Applying the printed diff to the left side gives the right side, unless no context is asked for
      and the sides differ: then the diff comes out empty. With a context the hunks are those of the
      script's layout, each printed in its place. */
  method CreateUnifiedDiff(left: seq<string>, right: seq<string>, context: nat)
    returns (hunks: seq<Printed>, ghost cuts: seq<Cut>)
    ensures ApplyDiff(left, hunks) == Some(right) <==> context > 0 || left == right
    ensures context == 0 ==> hunks == []
    ensures context > 0 ==>
              var edits := Path(left, right, |left|, |right|);
              Layout(edits, context, cuts) && PrintedAll(left, right, edits, cuts, hunks)
  {
    var edits := CalculateStringEdits(left, right);
    var l: nat, r: nat, i: nat := 0, 0, 0;
    hunks, cuts := [], [];
    assert right[..0] == [];
    var more := true;
    while more && i < |edits|
      invariant more ==> Between(left, right, edits, context, hunks, cuts, l, r, i)
      invariant !more ==> Complete(left, right, edits, context, hunks, cuts)
      decreases more, |edits| - i
    {
      more, l, r, i, hunks, cuts := NextHunk(left, right, edits, context, hunks, l, r, i, cuts);
    }
    if more { OnlyMatchesLeft(left, right, edits, context, hunks, cuts, i); }
  }
}
