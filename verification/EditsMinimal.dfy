/**
 * When googletest's edit scripts are minimal.  The table prefers a replacement on a tie between adding
 * and removing, although it weighs more; every cell holds the least weight of any script for its
 * prefixes if and only if that never happens.
 */
module EditsMinimal {
  import opened Edits

  // ---------- scripts by their last edit ----------

  /** Without its last edit a script turns what is left of both sides into each other. */
  lemma {:induction false} LastEdit<T>(edits: seq<Edit>, left: seq<T>, right: seq<T>)
    requires Transforms(edits, left, right) && edits != []
    ensures var e := edits[|edits| - 1];
            && LeftStep(e) <= |left| && RightStep(e) <= |right|
            && Transforms(edits[..|edits| - 1], left[..|left| - LeftStep(e)], right[..|right| - RightStep(e)])
            && (e == Match ==> left[|left| - 1] == right[|right| - 1])
            && (e == Replace ==> left[|left| - 1] != right[|right| - 1])
    decreases |edits|
  {
    var n, e, head := |edits| - 1, edits[|edits| - 1], edits[0];
    if n == 0 {
      assert edits[..0] == [] && edits[1..] == [];
    } else {
      var l, r := left[LeftStep(head)..], right[RightStep(head)..];
      FirstEdit(edits, left, right);
      assert edits[1..][|edits[1..]| - 1] == e && edits[1..][..n - 1] == edits[..n][1..];
      LastEdit(edits[1..], l, r);
      FrontEdit(edits, left, right, LeftStep(e), RightStep(e));
    }
  }

  /** A script by its first edit. */
  lemma FirstEdit<T>(edits: seq<Edit>, left: seq<T>, right: seq<T>)
    requires edits != []
    ensures var e := edits[0];
            Transforms(edits, left, right) <==>
              && LeftStep(e) <= |left| && RightStep(e) <= |right|
              && (e == Match ==> left[0] == right[0]) && (e == Replace ==> left[0] != right[0])
              && Transforms(edits[1..], left[LeftStep(e)..], right[RightStep(e)..])
  {
    assert left[0..] == left && right[0..] == right;
  }

  /** The first edit put back in front of a shortened rest. */
  lemma FrontEdit<T>(edits: seq<Edit>, left: seq<T>, right: seq<T>, a: nat, b: nat)
    requires |edits| > 1 && LeftStep(edits[0]) <= |left| && RightStep(edits[0]) <= |right|
    requires edits[0] == Match ==> left[0] == right[0]
    requires edits[0] == Replace ==> left[0] != right[0]
    requires var l, r := left[LeftStep(edits[0])..], right[RightStep(edits[0])..];
             a <= |l| && b <= |r| && Transforms(edits[..|edits| - 1][1..], l[..|l| - a], r[..|r| - b])
    ensures Transforms(edits[..|edits| - 1], left[..|left| - a], right[..|right| - b])
  {
    var head := edits[0];
    Shorten(left, LeftStep(head), a);
    Shorten(right, RightStep(head), b);
    FirstEdit(edits[..|edits| - 1], left[..|left| - a], right[..|right| - b]);
  }

  lemma Shorten<T>(s: seq<T>, n: nat, a: nat)
    requires n + a <= |s|
    ensures s[..|s| - a][n..] == s[n..][..|s| - n - a]
    ensures n == 1 ==> s[..|s| - a][0] == s[0]
  {}

  lemma AddLast<T>(edits: seq<Edit>, left: seq<T>, right: seq<T>)
    requires right != [] && Transforms(edits, left, right[..|right| - 1])
    ensures Transforms(edits + [Add], left, right) && Weight(edits + [Add]) == Weight(edits) + 1.0
  {
    TransformsSnoc(edits, left, right[..|right| - 1], Add, [], [right[|right| - 1]]);
    assert left + [] == left && right[..|right| - 1] + [right[|right| - 1]] == right;
    WeightSnoc(edits, Add);
  }

  lemma RemoveLast<T>(edits: seq<Edit>, left: seq<T>, right: seq<T>)
    requires left != [] && Transforms(edits, left[..|left| - 1], right)
    ensures Transforms(edits + [Remove], left, right) && Weight(edits + [Remove]) == Weight(edits) + 1.0
  {
    TransformsSnoc(edits, left[..|left| - 1], right, Remove, [left[|left| - 1]], []);
    assert right + [] == right && left[..|left| - 1] + [left[|left| - 1]] == left;
    WeightSnoc(edits, Remove);
  }

  lemma WeightLast(edits: seq<Edit>)
    requires edits != []
    ensures Weight(edits) == Weight(edits[..|edits| - 1]) + EditCost(edits[|edits| - 1])
  {}

  /** Leaving out the last left element costs at most one more. */
  lemma {:induction false} DropLeft<T>(edits: seq<Edit>, left: seq<T>, right: seq<T>) returns (fewer: seq<Edit>)
    requires Transforms(edits, left, right) && left != []
    ensures Transforms(fewer, left[..|left| - 1], right) && Weight(fewer) <= Weight(edits) + 1.0
    decreases |edits|
  {
    assert edits != [];
    var e, f := edits[|edits| - 1], edits[..|edits| - 1];
    LastEdit(edits, left, right);
    WeightLast(edits);
    if e == Remove {
      fewer := f;
      assert right[..|right|] == right;
    } else if e == Add {
      assert left[..|left|] == left;
      var g := DropLeft(f, left, right[..|right| - 1]);
      AddLast(g, left[..|left| - 1], right);
      fewer := g + [Add];
    } else {
      AddLast(f, left[..|left| - 1], right);
      fewer := f + [Add];
    }
  }

  lemma {:induction false} DropRight<T>(edits: seq<Edit>, left: seq<T>, right: seq<T>) returns (fewer: seq<Edit>)
    requires Transforms(edits, left, right) && right != []
    ensures Transforms(fewer, left, right[..|right| - 1]) && Weight(fewer) <= Weight(edits) + 1.0
    decreases |edits|
  {
    assert edits != [];
    var e, f := edits[|edits| - 1], edits[..|edits| - 1];
    LastEdit(edits, left, right);
    WeightLast(edits);
    if e == Add {
      fewer := f;
      assert left[..|left|] == left;
    } else if e == Remove {
      assert right[..|right|] == right;
      var g := DropRight(f, left[..|left| - 1], right);
      RemoveLast(g, left, right[..|right| - 1]);
      fewer := g + [Remove];
    } else {
      RemoveLast(f, left, right[..|right| - 1]);
      fewer := f + [Remove];
    }
  }

  // ---------- minimal cells ----------

  /** No script for the prefixes weighs less than the cell says. */
  ghost predicate MinimalCell<T(!new)>(left: seq<T>, right: seq<T>, l: nat, r: nat)
    requires l <= |left| && r <= |right|
  {
    forall edits :: Transforms(edits, left[..l], right[..r]) ==> Weight(edits) >= Cost(left, right, l, r)
  }

  /** Neither adding nor removing is the one cheapest way on, so the cell takes a replacement, although
      one of the two would make the script lighter. */
  predicate Missed<T(==)>(left: seq<T>, right: seq<T>, l: nat, r: nat)
    requires l <= |left| && r <= |right|
  {
    && l > 0 && r > 0 && left[l - 1] != right[r - 1]
    && var add, remove, replace :=
         Cost(left, right, l, r - 1), Cost(left, right, l - 1, r), Cost(left, right, l - 1, r - 1);
       && !(add < remove && add < replace) && !(remove < add && remove < replace)
       && (add + 1.0 < replace + REPLACE_COST || remove + 1.0 < replace + REPLACE_COST)
  }

  /** A cell is at most one more than its left or upper neighbour and at most a match or a replacement
      more than the one before both, unless a replacement is missed. */
  lemma CellBound<T(!new)>(left: seq<T>, right: seq<T>, l: nat, r: nat)
    requires 0 < l <= |left| && 0 < r <= |right| && !Missed(left, right, l, r)
    requires MinimalCell(left, right, l - 1, r - 1)
    ensures Cost(left, right, l, r) <= Cost(left, right, l, r - 1) + 1.0
    ensures Cost(left, right, l, r) <= Cost(left, right, l - 1, r) + 1.0
    ensures left[l - 1] != right[r - 1] ==> Cost(left, right, l, r) <= Cost(left, right, l - 1, r - 1) + REPLACE_COST
    ensures left[l - 1] == right[r - 1] ==> Cost(left, right, l, r) == Cost(left, right, l - 1, r - 1)
  {
    if left[l - 1] == right[r - 1] { Neighbours(left, right, l, r); }
  }

  /** A minimal cell is at most one more than the cells behind it. */
  lemma Neighbours<T(!new)>(left: seq<T>, right: seq<T>, l: nat, r: nat)
    requires 0 < l <= |left| && 0 < r <= |right| && MinimalCell(left, right, l - 1, r - 1)
    ensures Cost(left, right, l - 1, r - 1) <= Cost(left, right, l, r - 1) + 1.0
    ensures Cost(left, right, l - 1, r - 1) <= Cost(left, right, l - 1, r) + 1.0
  {
    var f := FewerLeft(left, right, l, r - 1);
    var g := FewerRight(left, right, l - 1, r);
    CellWeighs(left, right, l - 1, r - 1, f);
    CellWeighs(left, right, l - 1, r - 1, g);
  }

  lemma FewerLeft<T>(left: seq<T>, right: seq<T>, l: nat, r: nat) returns (f: seq<Edit>)
    requires 0 < l <= |left| && r <= |right|
    ensures Transforms(f, left[..l - 1], right[..r]) && Weight(f) <= Cost(left, right, l, r) + 1.0
  {
    PathIsScript(left, right, l, r);
    TakeTwice(left, l, l - 1);
    f := DropLeft(Path(left, right, l, r), left[..l], right[..r]);
  }

  lemma FewerRight<T>(left: seq<T>, right: seq<T>, l: nat, r: nat) returns (f: seq<Edit>)
    requires l <= |left| && 0 < r <= |right|
    ensures Transforms(f, left[..l], right[..r - 1]) && Weight(f) <= Cost(left, right, l, r) + 1.0
  {
    PathIsScript(left, right, l, r);
    TakeTwice(right, r, r - 1);
    f := DropRight(Path(left, right, l, r), left[..l], right[..r]);
  }

  /** Without missed replacements every cell is minimal. */
  lemma {:induction false} NoneMissed<T(!new)>(left: seq<T>, right: seq<T>, l: nat, r: nat)
    requires l <= |left| && r <= |right|
    requires forall i, j :: 0 <= i <= l && 0 <= j <= r ==> !Missed(left, right, i, j)
    ensures MinimalCell(left, right, l, r)
    decreases l + r
  {
    if l > 0 && r > 0 {
      NoneMissed(left, right, l - 1, r - 1);
      CellBound(left, right, l, r);
    }
    if l > 0 { NoneMissed(left, right, l - 1, r); }
    if r > 0 { NoneMissed(left, right, l, r - 1); }
    forall edits | Transforms(edits, left[..l], right[..r]) ensures Weight(edits) >= Cost(left, right, l, r) {
      HeavyEnough(left, right, l, r, edits);
    }
  }

  /** One edit costs at least what the table adds for it. */
  lemma StepBound<T(!new)>(left: seq<T>, right: seq<T>, l: nat, r: nat, e: Edit)
    requires LeftStep(e) <= l <= |left| && RightStep(e) <= r <= |right|
    requires e == Match ==> left[l - 1] == right[r - 1]
    requires e == Replace ==> left[l - 1] != right[r - 1]
    requires l > 0 && r > 0 ==> MinimalCell(left, right, l - 1, r - 1) && !Missed(left, right, l, r)
    ensures Cost(left, right, l, r) <= Cost(left, right, l - LeftStep(e), r - RightStep(e)) + EditCost(e)
  {
    if l > 0 && r > 0 { CellBound(left, right, l, r); }
  }

  lemma HeavyEnough<T(!new)>(left: seq<T>, right: seq<T>, l: nat, r: nat, edits: seq<Edit>)
    requires l <= |left| && r <= |right| && Transforms(edits, left[..l], right[..r])
    requires l > 0 ==> MinimalCell(left, right, l - 1, r)
    requires r > 0 ==> MinimalCell(left, right, l, r - 1)
    requires l > 0 && r > 0 ==> MinimalCell(left, right, l - 1, r - 1) && !Missed(left, right, l, r)
    ensures Weight(edits) >= Cost(left, right, l, r)
  {
    if edits != [] {
      var f, e := LastOf(left, right, l, r, edits);
      StepBound(left, right, l, r, e);
      CellWeighs(left, right, l - LeftStep(e), r - RightStep(e), f);
    }
  }

  lemma CellWeighs<T(!new)>(left: seq<T>, right: seq<T>, l: nat, r: nat, edits: seq<Edit>)
    requires l <= |left| && r <= |right| && MinimalCell(left, right, l, r)
    requires Transforms(edits, left[..l], right[..r])
    ensures Weight(edits) >= Cost(left, right, l, r)
  {}

  lemma LastOf<T>(left: seq<T>, right: seq<T>, l: nat, r: nat, edits: seq<Edit>) returns (f: seq<Edit>, e: Edit)
    requires l <= |left| && r <= |right| && Transforms(edits, left[..l], right[..r]) && edits != []
    ensures LeftStep(e) <= l && RightStep(e) <= r
    ensures Transforms(f, left[..l - LeftStep(e)], right[..r - RightStep(e)])
    ensures Weight(edits) == Weight(f) + EditCost(e)
    ensures (e == Match ==> left[l - 1] == right[r - 1]) && (e == Replace ==> left[l - 1] != right[r - 1])
  {
    e, f := edits[|edits| - 1], edits[..|edits| - 1];
    LastEdit(edits, left[..l], right[..r]);
    TakeTwice(left, l, l - LeftStep(e));
    TakeTwice(right, r, r - RightStep(e));
  }

  lemma TakeTwice<T>(s: seq<T>, n: nat, m: nat)
    requires m <= n <= |s|
    ensures s[..n][..m] == s[..m] && |s[..n]| == n && (n > 0 ==> s[..n][n - 1] == s[n - 1])
  {}

  /** A missed replacement is heavier than need be. */
  lemma MissedIsNotMinimal<T(!new)>(left: seq<T>, right: seq<T>, l: nat, r: nat)
    requires l <= |left| && r <= |right| && Missed(left, right, l, r)
    ensures !MinimalCell(left, right, l, r)
  {
    MoveStep(left, right, l, r);
    if Cost(left, right, l, r - 1) + 1.0 < Cost(left, right, l, r) {
      LighterByAdding(left, right, l, r);
    } else {
      LighterByRemoving(left, right, l, r);
    }
  }

  lemma LighterByAdding<T(!new)>(left: seq<T>, right: seq<T>, l: nat, r: nat)
    requires l <= |left| && 0 < r <= |right| && Cost(left, right, l, r - 1) + 1.0 < Cost(left, right, l, r)
    ensures !MinimalCell(left, right, l, r)
  {
    var path := Path(left, right, l, r - 1);
    PathIsScript(left, right, l, r - 1);
    TakeTwice(right, r, r - 1);
    AddLast(path, left[..l], right[..r]);
    assert Transforms(path + [Add], left[..l], right[..r]);
  }

  lemma LighterByRemoving<T(!new)>(left: seq<T>, right: seq<T>, l: nat, r: nat)
    requires 0 < l <= |left| && r <= |right| && Cost(left, right, l - 1, r) + 1.0 < Cost(left, right, l, r)
    ensures !MinimalCell(left, right, l, r)
  {
    var path := Path(left, right, l - 1, r);
    PathIsScript(left, right, l - 1, r);
    TakeTwice(left, l, l - 1);
    RemoveLast(path, left[..l], right[..r]);
    assert Transforms(path + [Remove], left[..l], right[..r]);
  }

  /** Every cell of the table is the least weight of any script for its prefixes if and only if no cell
      takes a replacement where adding or removing would be lighter. */
  lemma MinimalExactlyWhenNoneMissed<T(!new)>(left: seq<T>, right: seq<T>)
    ensures (forall l, r :: 0 <= l <= |left| && 0 <= r <= |right| ==> MinimalCell(left, right, l, r))
            <==> (forall l, r :: 0 <= l <= |left| && 0 <= r <= |right| ==> !Missed(left, right, l, r))
  {
    if forall l, r :: 0 <= l <= |left| && 0 <= r <= |right| ==> !Missed(left, right, l, r) {
      forall l, r | 0 <= l <= |left| && 0 <= r <= |right| ensures MinimalCell(left, right, l, r) {
        NoneMissed(left, right, l, r);
      }
    }
    forall l, r | 0 <= l <= |left| && 0 <= r <= |right| && Missed(left, right, l, r)
      ensures !MinimalCell(left, right, l, r)
    {
      MissedIsNotMinimal(left, right, l, r);
    }
  }

  /** Then the whole script is as light as any. */
  lemma ScriptIsMinimal<T(!new)>(left: seq<T>, right: seq<T>, other: seq<Edit>)
    requires forall l, r :: 0 <= l <= |left| && 0 <= r <= |right| ==> !Missed(left, right, l, r)
    requires Transforms(other, left, right)
    ensures Weight(Path(left, right, |left|, |right|)) <= Weight(other)
  {
    var l, r := |left|, |right|;
    assert Weight(Path(left, right, l, r)) == Cost(left, right, l, r) by { PathIsScript(left, right, l, r); }
    assert MinimalCell(left, right, l, r) by { NoneMissed(left, right, l, r); }
    assert Transforms(other, left[..l], right[..r]) by { assert left[..l] == left && right[..r] == right; }
  }

  /** Two swapped elements are both replaced, although removing one and adding it again is lighter. */
  lemma SwapIsMissed<T(!new)>(a: T, b: T)
    requires a != b
    ensures Missed([a, b], [b, a], 2, 2) && Path([a, b], [b, a], 2, 2) == [Replace, Replace]
    ensures Transforms([Remove, Match, Add], [a, b], [b, a])
    ensures Weight([Remove, Match, Add]) < Weight([Replace, Replace])
  {
    SwapCosts(a, b);
    SwapPath(a, b);
    SwapScript(a, b);
    assert Weight([Replace, Replace]) == 2.0 * REPLACE_COST by {
      WeightSnoc([], Replace);
      WeightSnoc([Replace], Replace);
      assert [] + [Replace] == [Replace] && [Replace] + [Replace] == [Replace, Replace];
    }
  }

  lemma SwapCosts<T>(a: T, b: T)
    requires a != b
    ensures Cost([a, b], [b, a], 1, 1) == REPLACE_COST
    ensures Cost([a, b], [b, a], 1, 2) == 1.0 && Cost([a, b], [b, a], 2, 1) == 1.0
  {}

  lemma SwapPath<T>(a: T, b: T)
    requires a != b
    ensures Path([a, b], [b, a], 2, 2) == [Replace, Replace]
  {
    var left, right := [a, b], [b, a];
    SwapCosts(a, b);
    PathStep(left, right, 2, 2);
    PathStep(left, right, 1, 1);
    assert BestMove(left, right, 1, 1) == Replace && BestMove(left, right, 2, 2) == Replace;
    assert Path(left, right, 0, 0) == [] && [] + [Replace] == [Replace];
  }

  lemma SwapScript<T>(a: T, b: T)
    ensures Transforms([Remove, Match, Add], [a, b], [b, a]) && Weight([Remove, Match, Add]) == 2.0
  {
    var left, right := [a, b], [b, a];
    RemovesOne(a);
    TransformsSnoc([Remove], [a], [], Match, [b], [b]);
    WeightSnoc([Remove], Match);
    assert [Remove] + [Match] == [Remove, Match] && [a] + [b] == left && [] + [b] == [b];
    TransformsSnoc([Remove, Match], left, [b], Add, [], [a]);
    WeightSnoc([Remove, Match], Add);
    assert [Remove, Match] + [Add] == [Remove, Match, Add] && left + [] == left && [b] + [a] == right;
  }

  lemma RemovesOne<T>(a: T)
    ensures Transforms([Remove], [a], []) && Weight([Remove]) == 1.0
  {
    assert [Remove][1..] == [] && [a][1..] == [];
    WeightSnoc([], Remove);
    assert [] + [Remove] == [Remove];
  }
}
