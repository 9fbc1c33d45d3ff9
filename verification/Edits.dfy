/**
 * googletest's edit scripts: the cost table, the script read back from it, and the interning of
 * strings.  Costs are real numbers; the original's are doubles.
 */
module Edits {
  import opened Seqs

  datatype Edit = Match | Add | Remove | Replace

  const REPLACE_COST := 1.00001

  // ---------- what an edit script means ----------

  /** The script turns `left` into `right`: matches keep an equal element, replaces a different one. */
  predicate Transforms<T(==)>(edits: seq<Edit>, left: seq<T>, right: seq<T>)
    decreases |edits|
  {
    if edits == [] then left == [] && right == []
    else
      match edits[0]
      case Match => left != [] && right != [] && left[0] == right[0] && Transforms(edits[1..], left[1..], right[1..])
      case Replace => left != [] && right != [] && left[0] != right[0] && Transforms(edits[1..], left[1..], right[1..])
      case Add => right != [] && Transforms(edits[1..], left, right[1..])
      case Remove => left != [] && Transforms(edits[1..], left[1..], right)
  }

  function EditCost(e: Edit): real {
    match e case Match => 0.0 case Add => 1.0 case Remove => 1.0 case Replace => REPLACE_COST
  }

  function Weight(edits: seq<Edit>): real {
    if edits == [] then 0.0 else Weight(edits[..|edits| - 1]) + EditCost(edits[|edits| - 1])
  }

  function LeftStep(e: Edit): nat { if e == Add then 0 else 1 }

  function RightStep(e: Edit): nat { if e == Remove then 0 else 1 }

  /** Extending a script by one edit at the end. */
  lemma {:induction false} TransformsSnoc<T>(edits: seq<Edit>, left: seq<T>, right: seq<T>, e: Edit, x: seq<T>,
                                             y: seq<T>)
    requires Transforms(edits, left, right) && |x| == LeftStep(e) && |y| == RightStep(e)
    requires e == Match ==> x == y
    requires e == Replace ==> x != y
    ensures Transforms(edits + [e], left + x, right + y)
    decreases |edits|
  {
    var all := edits + [e];
    if edits == [] {
      assert all[1..] == [] && left + x == x && right + y == y;
      assert |x| == 1 ==> x == [x[0]] && x[1..] == [];
      assert |y| == 1 ==> y == [y[0]] && y[1..] == [];
    } else {
      assert all[1..] == edits[1..] + [e];
      var l, r := left[LeftStep(edits[0])..], right[RightStep(edits[0])..];
      TransformsSnoc(edits[1..], l, r, e, x, y);
      assert LeftStep(edits[0]) == 1 ==> (left + x)[1..] == l + x;
      assert RightStep(edits[0]) == 1 ==> (right + y)[1..] == r + y;
    }
  }

  // ---------- the table ----------

  /** The cost in cell (l, r) of the table. */
  function Cost<T(==)>(left: seq<T>, right: seq<T>, l: nat, r: nat): real
    requires l <= |left| && r <= |right|
    decreases l + r
  {
    if r == 0 then l as real
    else if l == 0 then r as real
    else if left[l - 1] == right[r - 1] then Cost(left, right, l - 1, r - 1)
    else
      var add, remove, replace :=
        Cost(left, right, l, r - 1), Cost(left, right, l - 1, r), Cost(left, right, l - 1, r - 1);
      if add < remove && add < replace then add + 1.0
      else if remove < add && remove < replace then remove + 1.0
      else replace + REPLACE_COST
  }

  /** The move recorded in cell (l, r). */
  function BestMove<T(==)>(left: seq<T>, right: seq<T>, l: nat, r: nat): Edit
    requires l <= |left| && r <= |right|
  {
    if r == 0 then Remove
    else if l == 0 then Add
    else if left[l - 1] == right[r - 1] then Match
    else
      var add, remove, replace :=
        Cost(left, right, l, r - 1), Cost(left, right, l - 1, r), Cost(left, right, l - 1, r - 1);
      if add < remove && add < replace then Add
      else if remove < add && remove < replace then Remove
      else Replace
  }

  /** The script that the recorded moves spell from (0, 0) to (l, r). */
  function Path<T(==)>(left: seq<T>, right: seq<T>, l: nat, r: nat): seq<Edit>
    requires l <= |left| && r <= |right|
    decreases l + r
  {
    if l == 0 && r == 0 then []
    else
      var e := BestMove(left, right, l, r);
      Path(left, right, l - LeftStep(e), r - RightStep(e)) + [e]
  }

  /** One move: the elements it consumes and what it adds to the cost. */
  lemma MoveStep<T>(left: seq<T>, right: seq<T>, l: nat, r: nat)
    requires l <= |left| && r <= |right| && (l > 0 || r > 0)
    ensures var e := BestMove(left, right, l, r);
            && LeftStep(e) <= l && RightStep(e) <= r
            && Cost(left, right, l, r) == Cost(left, right, l - LeftStep(e), r - RightStep(e)) + EditCost(e)
            && (e == Match ==> left[l - 1] == right[r - 1])
            && (e == Replace ==> left[l - 1] != right[r - 1])
  {}

  lemma TakeStep<T>(s: seq<T>, n: nat, k: nat)
    requires k <= n <= |s|
    ensures s[..n] == s[..n - k] + s[n - k..n]
    ensures k == 1 ==> s[n - k..n] == [s[n - 1]]
  {}

  lemma ScriptStep<T>(left: seq<T>, right: seq<T>, l: nat, r: nat, path: seq<Edit>, e: Edit)
    requires LeftStep(e) <= l <= |left| && RightStep(e) <= r <= |right|
    requires e == Match ==> left[l - 1] == right[r - 1]
    requires e == Replace ==> left[l - 1] != right[r - 1]
    requires Transforms(path, left[..l - LeftStep(e)], right[..r - RightStep(e)])
    ensures Transforms(path + [e], left[..l], right[..r])
  {
    var l', r' := l - LeftStep(e), r - RightStep(e);
    TakeStep(left, l, LeftStep(e));
    TakeStep(right, r, RightStep(e));
    TransformsSnoc(path, left[..l'], right[..r'], e, left[l'..l], right[r'..r]);
  }

  lemma WeightSnoc(edits: seq<Edit>, e: Edit)
    ensures Weight(edits + [e]) == Weight(edits) + EditCost(e)
  {
    assert (edits + [e])[..|edits|] == edits;
  }

  lemma PathStep<T>(left: seq<T>, right: seq<T>, l: nat, r: nat)
    requires l <= |left| && r <= |right| && (l > 0 || r > 0)
    ensures var e := BestMove(left, right, l, r);
            && LeftStep(e) <= l && RightStep(e) <= r
            && Path(left, right, l, r) == Path(left, right, l - LeftStep(e), r - RightStep(e)) + [e]
  {
    MoveStep(left, right, l, r);
  }

  /** The script is valid and weighs what its cell says. */
  lemma {:induction false} PathIsScript<T>(left: seq<T>, right: seq<T>, l: nat, r: nat)
    requires l <= |left| && r <= |right|
    ensures Transforms(Path(left, right, l, r), left[..l], right[..r])
    ensures Weight(Path(left, right, l, r)) == Cost(left, right, l, r)
    decreases l + r
  {
    if l > 0 || r > 0 {
      var l', r', e := LastMove(left, right, l, r);
      PathIsScript(left, right, l', r');
      WeightSnoc(Path(left, right, l', r'), e);
      ScriptStep(left, right, l, r, Path(left, right, l', r'), e);
    }
  }

  lemma LastMove<T>(left: seq<T>, right: seq<T>, l: nat, r: nat) returns (l': nat, r': nat, e: Edit)
    requires l <= |left| && r <= |right| && (l > 0 || r > 0)
    ensures l == l' + LeftStep(e) && r == r' + RightStep(e) && l' + r' < l + r
    ensures e == Match ==> left[l'] == right[r']
    ensures e == Replace ==> left[l'] != right[r']
    ensures Cost(left, right, l, r) == Cost(left, right, l', r') + EditCost(e)
    ensures Path(left, right, l, r) == Path(left, right, l', r') + [e]
  {
    MoveStep(left, right, l, r);
    PathStep(left, right, l, r);
    e := BestMove(left, right, l, r);
    l', r' := l - LeftStep(e), r - RightStep(e);
  }

  /** On equal inputs every edit is a match. */
  lemma {:induction false} PathOfEqual<T>(s: seq<T>, l: nat)
    requires l <= |s|
    ensures forall i :: 0 <= i < |Path(s, s, l, l)| ==> Path(s, s, l, l)[i] == Match
  {
    if l > 0 { PathOfEqual(s, l - 1); }
  }

  // ---------- filling the table and reading it back ----------

  /** The cells filled when row l + 1 has been filled up to column r. */
  predicate Reached(l: int, r: int, i: int, j: int) { i <= l || j == 0 || (i == l + 1 && j <= r) }

  ghost predicate Filled<T>(left: seq<T>, right: seq<T>, costs: array2<real>, moves: array2<Edit>, l: int, r: int)
    reads costs, moves
    requires costs.Length0 == moves.Length0 == |left| + 1 && costs.Length1 == moves.Length1 == |right| + 1
  {
    && (forall i, j :: 0 <= i <= |left| && 0 <= j <= |right| && Reached(l, r, i, j) ==>
          costs[i, j] == Cost(left, right, i, j))
    && (forall i, j :: 0 <= i <= |left| && 0 <= j <= |right| && Reached(l, r, i, j) ==>
          moves[i, j] == BestMove(left, right, i, j))
  }

  method CalculateOptimalEdits<T(==)>(left: seq<T>, right: seq<T>) returns (edits: seq<Edit>)
    ensures edits == Path(left, right, |left|, |right|)
    ensures Transforms(edits, left, right)
    ensures Weight(edits) == Cost(left, right, |left|, |right|)
  {
    var costs := new real[|left| + 1, |right| + 1];
    var bestMove := new Edit[|left| + 1, |right| + 1];
    for l := 0 to |left| + 1
      invariant forall i :: 0 <= i < l ==> costs[i, 0] == i as real && bestMove[i, 0] == Remove
    {
      costs[l, 0] := l as real;
      bestMove[l, 0] := Remove;
    }
    for r := 1 to |right| + 1
      invariant forall i :: 0 <= i <= |left| ==> costs[i, 0] == i as real && bestMove[i, 0] == Remove
      invariant forall j :: 0 < j < r ==> costs[0, j] == j as real && bestMove[0, j] == Add
    {
      costs[0, r] := r as real;
      bestMove[0, r] := Add;
    }
    FillTable(left, right, costs, bestMove);
    edits := ReadPath(left, right, bestMove);
    PathIsScript(left, right, |left|, |right|);
    assert left[..|left|] == left && right[..|right|] == right;
  }

  method FillTable<T(==)>(left: seq<T>, right: seq<T>, costs: array2<real>, bestMove: array2<Edit>)
    requires costs.Length0 == bestMove.Length0 == |left| + 1 && costs.Length1 == bestMove.Length1 == |right| + 1
    requires Filled(left, right, costs, bestMove, 0, 0)
    modifies costs, bestMove
    ensures Filled(left, right, costs, bestMove, |left|, |right|)
  {
    for l := 0 to |left|
      invariant Filled(left, right, costs, bestMove, l, 0)
    {
      for r := 0 to |right|
        invariant Filled(left, right, costs, bestMove, l, r)
      {
        FillCell(left, right, costs, bestMove, l, r);
      }
    }
  }

  /** The body of the inner loop: the cell (l + 1, r + 1) from its three neighbours. */
  method FillCell<T(==)>(left: seq<T>, right: seq<T>, costs: array2<real>, bestMove: array2<Edit>, l: nat, r: nat)
    requires costs.Length0 == bestMove.Length0 == |left| + 1 && costs.Length1 == bestMove.Length1 == |right| + 1
    requires l < |left| && r < |right| && Filled(left, right, costs, bestMove, l, r)
    modifies costs, bestMove
    ensures Filled(left, right, costs, bestMove, l, r + 1)
  {
    assert Reached(l, r, l + 1, r) && Reached(l, r, l, r + 1) && Reached(l, r, l, r);
    CellFrom(left, right, l, r);
    var add := costs[l + 1, r];
    var remove := costs[l, r + 1];
    var replace := costs[l, r];
    if left[l] == right[r] {
      Store(left, right, costs, bestMove, l, r, replace, Match);
    } else if add < remove && add < replace {
      Store(left, right, costs, bestMove, l, r, add + 1.0, Add);
    } else if remove < add && remove < replace {
      Store(left, right, costs, bestMove, l, r, remove + 1.0, Remove);
    } else {
      Store(left, right, costs, bestMove, l, r, replace + REPLACE_COST, Replace);
    }
  }

  /** A cell by its three neighbours. */
  lemma CellFrom<T>(left: seq<T>, right: seq<T>, l: nat, r: nat)
    requires l < |left| && r < |right|
    ensures var add, remove, replace :=
              Cost(left, right, l + 1, r), Cost(left, right, l, r + 1), Cost(left, right, l, r);
            var cost, move := Cost(left, right, l + 1, r + 1), BestMove(left, right, l + 1, r + 1);
            if left[l] == right[r] then cost == replace && move == Match
            else if add < remove && add < replace then cost == add + 1.0 && move == Add
            else if remove < add && remove < replace then cost == remove + 1.0 && move == Remove
            else cost == replace + REPLACE_COST && move == Replace
  {}

  method Store<T(==)>(left: seq<T>, right: seq<T>, costs: array2<real>, bestMove: array2<Edit>, l: nat, r: nat,
                      cost: real, move: Edit)
    requires costs.Length0 == bestMove.Length0 == |left| + 1 && costs.Length1 == bestMove.Length1 == |right| + 1
    requires l < |left| && r < |right| && Filled(left, right, costs, bestMove, l, r)
    requires cost == Cost(left, right, l + 1, r + 1) && move == BestMove(left, right, l + 1, r + 1)
    modifies costs, bestMove
    ensures Filled(left, right, costs, bestMove, l, r + 1)
  {
    costs[l + 1, r + 1] := cost;
    bestMove[l + 1, r + 1] := move;
  }

  function Reversed(s: seq<Edit>): seq<Edit> {
    if s == [] then [] else [s[|s| - 1]] + Reversed(s[..|s| - 1])
  }

  lemma ReversedSnoc(s: seq<Edit>, e: Edit)
    ensures Reversed(s + [e]) == [e] + Reversed(s)
  {
    assert (s + [e])[..|s|] == s;
  }

  method ReadPath<T(==)>(left: seq<T>, right: seq<T>, bestMove: array2<Edit>) returns (edits: seq<Edit>)
    requires bestMove.Length0 == |left| + 1 && bestMove.Length1 == |right| + 1
    requires forall i, j :: 0 <= i <= |left| && 0 <= j <= |right| ==> bestMove[i, j] == BestMove(left, right, i, j)
    ensures edits == Path(left, right, |left|, |right|)
  {
    var bestPath: seq<Edit> := [];
    var l, r := |left|, |right|;
    while l > 0 || r > 0
      invariant 0 <= l <= |left| && 0 <= r <= |right|
      invariant Path(left, right, |left|, |right|) == Path(left, right, l, r) + Reversed(bestPath)
      decreases l + r
    {
      var move := bestMove[l, r];
      PathStep(left, right, l, r);
      ReversedSnoc(bestPath, move);
      Associates(Path(left, right, l - LeftStep(move), r - RightStep(move)), [move], Reversed(bestPath));
      bestPath := bestPath + [move];
      l := l - LeftStep(move);
      r := r - RightStep(move);
    }
    edits := Reversed(bestPath);
    assert [] + edits == edits;
  }

  // ---------- interning ----------

  /** Two pairs of sequences agree on which elements are equal. */
  ghost predicate SameEqualities<T, U>(a: seq<T>, b: seq<T>, c: seq<U>, d: seq<U>) {
    && |a| == |c| && |b| == |d|
    && forall i, j :: 0 <= i < |a| && 0 <= j < |b| ==> (a[i] == b[j] <==> c[i] == d[j])
  }

  lemma {:induction false} SameCost<T, U>(a: seq<T>, b: seq<T>, c: seq<U>, d: seq<U>, l: nat, r: nat)
    requires SameEqualities(a, b, c, d) && l <= |a| && r <= |b|
    ensures Cost(a, b, l, r) == Cost(c, d, l, r)
    decreases l + r
  {
    if l > 0 && r > 0 {
      SameCost(a, b, c, d, l - 1, r - 1);
      SameCost(a, b, c, d, l, r - 1);
      SameCost(a, b, c, d, l - 1, r);
    }
  }

  lemma SameMove<T, U>(a: seq<T>, b: seq<T>, c: seq<U>, d: seq<U>, l: nat, r: nat)
    requires SameEqualities(a, b, c, d) && l <= |a| && r <= |b|
    ensures BestMove(a, b, l, r) == BestMove(c, d, l, r)
  {
    if l > 0 && r > 0 {
      assert a[l - 1] == b[r - 1] <==> c[l - 1] == d[r - 1];
      SameCost(a, b, c, d, l - 1, r - 1);
      SameCost(a, b, c, d, l, r - 1);
      SameCost(a, b, c, d, l - 1, r);
    }
  }

  lemma {:induction false} SamePath<T, U>(a: seq<T>, b: seq<T>, c: seq<U>, d: seq<U>, l: nat, r: nat)
    requires SameEqualities(a, b, c, d) && l <= |a| && r <= |b|
    ensures Path(a, b, l, r) == Path(c, d, l, r)
    decreases l + r
  {
    if l > 0 || r > 0 {
      SameMove(a, b, c, d, l, r);
      PathStep(a, b, l, r);
      PathStep(c, d, l, r);
      var e := BestMove(a, b, l, r);
      SamePath(a, b, c, d, l - LeftStep(e), r - RightStep(e));
    }
  }

  /** Numbers strings so that equal strings, and only they, get equal numbers. */
  class InternalStrings {
    var ids: map<string, nat>

    ghost predicate Valid()
      reads this
    {
      && (forall s :: s in ids ==> ids[s] < |ids|)
      && (forall s, t :: s in ids && t in ids && ids[s] == ids[t] ==> s == t)
    }

    constructor ()
      ensures Valid() && ids == map[]
    {
      ids := map[];
    }

    method GetId(str: string) returns (id: nat)
      requires Valid()
      modifies this
      ensures Valid() && str in ids && ids[str] == id
      ensures forall s :: s in old(ids) ==> s in ids && ids[s] == old(ids)[s]
    {
      if str in ids {
        return ids[str];
      }
      id := |ids|;
      ids := ids[str := id];
    }

    /** The numbers of a sequence of strings. */
    method GetIds(strs: seq<string>) returns (r: seq<nat>)
      requires Valid()
      modifies this
      ensures Valid() && |r| == |strs|
      ensures forall i :: 0 <= i < |strs| ==> strs[i] in ids && r[i] == ids[strs[i]]
      ensures forall s :: s in old(ids) ==> s in ids && ids[s] == old(ids)[s]
    {
      r := [];
      for i := 0 to |strs|
        invariant Valid() && |r| == i
        invariant forall k :: 0 <= k < i ==> strs[k] in ids && r[k] == ids[strs[k]]
        invariant forall s :: s in old(ids) ==> s in ids && ids[s] == old(ids)[s]
      {
        var id := GetId(strs[i]);
        r := r + [id];
      }
    }
  }

  /** The script for two vectors of strings, computed on their numbers. */
  method CalculateStringEdits(left: seq<string>, right: seq<string>) returns (edits: seq<Edit>)
    ensures edits == Path(left, right, |left|, |right|)
    ensures Transforms(edits, left, right)
    ensures Weight(edits) == Cost(left, right, |left|, |right|)
  {
    var table := new InternalStrings();
    var leftIds := table.GetIds(left);
    var rightIds := table.GetIds(right);
    edits := CalculateOptimalEdits(leftIds, rightIds);
    SamePath(leftIds, rightIds, left, right, |left|, |right|);
    SameCost(leftIds, rightIds, left, right, |left|, |right|);
    PathIsScript(left, right, |left|, |right|);
    assert left[..|left|] == left && right[..|right|] == right;
  }
}
