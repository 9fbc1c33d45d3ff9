/**
 * The in-place block exchange of getopt's `permute_args`: two adjacent blocks are exchanged by
 * walking gcd(n1, n2) disjoint cycles, each of length (n1 + n2) / gcd(n1, n2).
 */
module BlockExchange {
  import opened Seqs

  // ---------- arithmetic ----------

  lemma MulMono(x: int, y: int, n: int)
    requires x < y && n > 0
    ensures x * n + n <= y * n
  {
    var d := y - x - 1;
    assert d * n >= 0;
    assert y * n == (x + 1 + d) * n == x * n + n + d * n;
  }

  lemma DivModUnique(a: int, n: int, q: int, r: int)
    requires n > 0 && 0 <= r < n && a == q * n + r
    ensures a / n == q && a % n == r
  {
    var q', r' := a / n, a % n;
    assert a == q' * n + r';
    if q' > q {
      MulMono(q, q', n);
    } else if q' < q {
      MulMono(q', q, n);
    }
  }

  ghost predicate Bezout(a: int, b: int, g: int, x: int, y: int) { x * a + y * b == g }

  ghost predicate IsGcd(g: int, a: int, b: int) {
    g > 0 && a % g == 0 && b % g == 0 && exists x, y :: Bezout(a, b, g, x, y)
  }

  /** A Bezout combination makes a common divisor the greatest one. */
  lemma GcdIsGreatest(g: int, a: int, b: int, d: int)
    requires IsGcd(g, a, b) && d > 0 && a % d == 0 && b % d == 0
    ensures g % d == 0
  {
    var x, y :| Bezout(a, b, g, x, y);
    var p, q := a / d, b / d;
    assert a == p * d && b == q * d;
    Distribute(x, y, p, q, d);
    DivModUnique(g, d, x * p + y * q, 0);
  }

  lemma Distribute(x: int, y: int, p: int, q: int, d: int)
    ensures x * (p * d) + y * (q * d) == (x * p + y * q) * d
  {
    assert x * (p * d) == (x * p) * d && y * (q * d) == (y * q) * d;
  }

  lemma DividesSum(g: int, a: int, b: int, k: int)
    requires g > 0 && a % g == 0 && b % g == 0
    ensures (k * a + b) % g == 0
  {
    var p, q := a / g, b / g;
    assert a == p * g && b == q * g;
    assert k * (p * g) == (k * p) * g;
    DivModUnique(k * a + b, g, k * p + q, 0);
  }

  /** One step of Euclid's algorithm keeps the greatest common divisor. */
  lemma EuclidStep(g: int, a: int, b: int)
    requires b > 0 && IsGcd(g, b, a % b)
    ensures IsGcd(g, a, b)
  {
    var x, y :| Bezout(b, a % b, g, x, y);
    var k := a / b;
    assert a == k * b + a % b;
    DividesSum(g, b, a % b, k);
    EuclidBezout(g, a, b, k, x, y);
    assert Bezout(a, b, g, y, x - y * k);
  }

  lemma EuclidBezout(g: int, a: int, b: int, k: int, x: int, y: int)
    requires x * b + y * (a - k * b) == g
    ensures y * a + (x - y * k) * b == g
  {
    assert y * (a - k * b) == y * a - (y * k) * b;
  }

  method Gcd(a0: int, b0: int) returns (g: int)
    requires a0 > 0 && b0 > 0
    ensures IsGcd(g, a0, b0)
    ensures g <= a0 && g <= b0
  {
    var a, b := a0, b0;
    var c := a % b;
    while c != 0
      invariant a > 0 && b > 0 && c == a % b
      invariant forall h :: IsGcd(h, a, b) ==> IsGcd(h, a0, b0)
      decreases c
    {
      forall h | IsGcd(h, b, a % b) ensures IsGcd(h, a, b) { EuclidStep(h, a, b); }
      a := b;
      b := c;
      c := a % b;
    }
    assert IsGcd(b, a, b) by {
      assert Bezout(a, b, b, 0, 1);
      DivModUnique(b, b, 1, 0);
    }
    g := b;
    DivisorBound(g, a0);
    DivisorBound(g, b0);
  }

  lemma DivisorBound(g: int, a: int)
    requires g > 0 && a > 0 && a % g == 0
    ensures g <= a
  {
    if g > a { DivModUnique(a, g, 0, a); }
  }

  // ---------- cycles ----------

  /** One hop of the walk, relative to the start of the first block of length `nn`. */
  function Hop(nn: int, no: int, pos: int): int {
    if pos >= nn then pos - nn else pos + no
  }

  /** The `k`-th position of the cycle through `i`. */
  function At(nn: int, no: int, i: int, k: int): int
    requires nn + no > 0
  {
    (i + k * no) % (nn + no)
  }

  /** The numbers behind the cycles: nn + no == m * g, no == b * g and z inverts no up to g. */
  ghost predicate Wheel(nn: int, no: int, g: int, m: int, b: int, z: int, w: int) {
    nn > 0 && no > 0 && g > 0 && nn + no == m * g && no == b * g && z * b == 1 + w * m
  }

  lemma WheelExists(nn: int, no: int, g: int) returns (m: int, b: int, z: int, w: int)
    requires nn > 0 && no > 0 && IsGcd(g, nn, no)
    ensures Wheel(nn, no, g, m, b, z, w) && m == (nn + no) / g
  {
    var x, y :| Bezout(nn, no, g, x, y);
    var a := nn / g;
    b := no / g;
    m := a + b;
    assert nn == a * g && no == b * g;
    assert nn + no == m * g;
    DivModUnique(nn + no, g, m, 0);
    z, w := y - x, -x;
    BezoutOfWheel(nn, no, g, m, b, x, y);
    CancelRight(z * b, 1 + w * m, g);
  }

  lemma BezoutOfWheel(nn: int, no: int, g: int, m: int, b: int, x: int, y: int)
    requires x * nn + y * no == g && nn + no == m * g && no == b * g
    ensures ((y - x) * b) * g == (1 + (-x) * m) * g
  {
    assert ((y - x) * b) * g == (y - x) * no == y * no - x * no;
    assert (x * m) * g == x * (nn + no) == x * nn + x * no;
    assert (1 + (-x) * m) * g == g - (x * m) * g;
  }

  lemma CancelRight(p: int, q: int, g: int)
    requires g > 0 && p * g == q * g
    ensures p == q
  {
    if p < q { MulMono(p, q, g); }
    if q < p { MulMono(q, p, g); }
  }

  /** The index at which the cycle visits a position of its class. */
  function VisitedAt(g: int, m: int, z: int, q: int): int
    requires g > 0 && m > 0
  {
    (q / g * z) % m
  }

  lemma ClassOf(k: int, b: int, g: int, c: int, m: int, i: int, q: int)
    requires i + k * (b * g) == c * (m * g) + q
    ensures q == (k * b - c * m) * g + i
  {
    assert k * (b * g) == (k * b) * g && c * (m * g) == (c * m) * g;
  }

  lemma IndexOf(k: int, b: int, c: int, m: int, z: int, w: int)
    requires z * b == 1 + w * m
    ensures (k * b - c * m) * z == (k * w - c * z) * m + k
  {
    calc {
      (k * b - c * m) * z;
      (k * b) * z - (c * m) * z;
      { assert (k * b) * z == k * (z * b); assert (c * m) * z == (c * z) * m; }
      k * (1 + w * m) - (c * z) * m;
      { assert k * (1 + w * m) == k + (k * w) * m; }
      k + (k * w) * m - (c * z) * m;
      (k * w - c * z) * m + k;
    }
  }

  lemma ReachedAt(t: int, z: int, d: int, m: int, b: int, w: int, g: int, k: int)
    requires z * b == 1 + w * m && k == t * z - d * m
    ensures k * (b * g) == (t * w - d * b) * (m * g) + t * g
  {
    calc {
      k * b;
      (t * z) * b - (d * m) * b;
      { assert (t * z) * b == t * (z * b); assert (d * m) * b == (d * b) * m; }
      t * (1 + w * m) - (d * b) * m;
      { assert t * (1 + w * m) == t + (t * w) * m; }
      t + (t * w) * m - (d * b) * m;
      t + (t * w - d * b) * m;
    }
    assert k * (b * g) == (k * b) * g;
    var e := t * w - d * b;
    assert (t + e * m) * g == t * g + (e * m) * g == t * g + e * (m * g);
  }

  /** Positions stay in the class of `i` modulo g and are visited at distinct indices. */
  lemma AtIsVisited(nn: int, no: int, g: int, m: int, b: int, z: int, w: int, i: int, k: int)
    requires Wheel(nn, no, g, m, b, z, w) && 0 <= i < g && 0 <= k < m
    ensures var q := At(nn, no, i, k);
            0 <= q < nn + no && q % g == i && VisitedAt(g, m, z, q) == k
  {
    var n := nn + no;
    var c, q := (i + k * no) / n, (i + k * no) % n;
    ClassOf(k, b, g, c, m, i, q);
    DivModUnique(q, g, k * b - c * m, i);
    IndexOf(k, b, c, m, z, w);
    DivModUnique((k * b - c * m) * z, m, k * w - c * z, k);
  }

  /** Every position of the class is visited. */
  lemma VisitedIsAt(nn: int, no: int, g: int, m: int, b: int, z: int, w: int, i: int, q: int)
    requires Wheel(nn, no, g, m, b, z, w) && 0 <= i < g && 0 <= q < nn + no && q % g == i && m > 0
    ensures 0 <= VisitedAt(g, m, z, q) < m && At(nn, no, i, VisitedAt(g, m, z, q)) == q
  {
    var t := q / g;
    var d, k := (t * z) / m, (t * z) % m;
    ReachedAt(t, z, d, m, b, w, g, k);
    DivModUnique(i + k * no, nn + no, t * w - d * b, q);
  }

  lemma AtHops(nn: int, no: int, i: int, k: int)
    requires nn > 0 && no > 0
    ensures At(nn, no, i, k + 1) == Hop(nn, no, At(nn, no, i, k))
  {
    var n := nn + no;
    var c, q := (i + k * no) / n, (i + k * no) % n;
    assert i + (k + 1) * no == c * n + q + no;
    if q >= nn {
      DivModUnique(i + (k + 1) * no, n, c + 1, q - nn);
    } else {
      DivModUnique(i + (k + 1) * no, n, c, q + no);
    }
  }

  lemma AtEnds(nn: int, no: int, g: int, m: int, b: int, z: int, w: int, i: int)
    requires Wheel(nn, no, g, m, b, z, w) && 0 <= i < g && g <= no && g <= nn
    ensures At(nn, no, i, 0) == i && At(nn, no, i, m - 1) == nn + i
  {
    var n := nn + no;
    DivModUnique(i + 0 * no, n, 0, i);
    assert i + (m - 1) * no == (b - 1) * n + (nn + i) by {
      assert m * (b * g) == b * (m * g);
    }
    DivModUnique(i + (m - 1) * no, n, b - 1, nn + i);
  }

  /** A cycle: it starts at `i`, hops, ends at nn + i, and visits each position of its class once. */
  ghost predicate IsCycle(cycle: seq<int>, nn: int, no: int, g: int, i: int) {
    && g > 0 && |cycle| == (nn + no) / g && |cycle| >= 2
    && cycle[0] == i && cycle[|cycle| - 1] == nn + i
    && (forall j, k :: 0 <= j < |cycle| && 0 <= k < |cycle| && k == j + 1 ==> cycle[k] == Hop(nn, no, cycle[j]))
    && (forall j, k :: 0 <= j < k < |cycle| ==> cycle[j] != cycle[k])
    && (forall q :: q in cycle <==> 0 <= q < nn + no && q % g == i)
  }

  lemma CycleExists(nn: int, no: int, g: int, i: int) returns (cycle: seq<int>)
    requires nn > 0 && no > 0 && IsGcd(g, nn, no) && g <= nn && g <= no && 0 <= i < g
    ensures IsCycle(cycle, nn, no, g, i)
  {
    var m, b, z, w := WheelExists(nn, no, g);
    assert m >= 2 by { if m < 2 { if m < 1 { MulMono(m, 1, g); } } }
    cycle := seq(m, k => At(nn, no, i, k));
    AtEnds(nn, no, g, m, b, z, w, i);
    forall j, k | 0 <= j < m && 0 <= k < m && k == j + 1 ensures cycle[k] == Hop(nn, no, cycle[j]) {
      AtHops(nn, no, i, j);
    }
    forall k | 0 <= k < m ensures VisitedAt(g, m, z, cycle[k]) == k && 0 <= cycle[k] < nn + no && cycle[k] % g == i {
      AtIsVisited(nn, no, g, m, b, z, w, i, k);
    }
    forall q | 0 <= q < nn + no && q % g == i ensures q in cycle {
      VisitedIsAt(nn, no, g, m, b, z, w, i, q);
      assert cycle[VisitedAt(g, m, z, q)] == q;
    }
  }

  // ---------- the exchange ----------

  /** The vector with the blocks [start, mid) and [mid, end) exchanged, each in its own order. */
  function Exchanged<T>(s: seq<T>, start: int, mid: int, end: int): (r: seq<T>)
    requires 0 <= start <= mid <= end <= |s|
    ensures |r| == |s|
  {
    s[..start] + s[mid..end] + s[start..mid] + s[end..]
  }

  /** Where the element that ends up at relative position `q` comes from. */
  function Origin(nn: int, no: int, q: int): int {
    if q < no then q + nn else q - no
  }

  predicate InRange(cycle: seq<int>, n: int) {
    forall k :: 0 <= k < |cycle| ==> 0 <= cycle[k] < n
  }

  /** Along a cycle the element comes from the position visited before. */
  predicate Chained(cycle: seq<int>, nn: int, no: int) {
    forall j, k :: 0 <= j < |cycle| && 0 <= k < |cycle| && k == j + 1 ==>
      cycle[k] == Hop(nn, no, cycle[j]) && Origin(nn, no, cycle[k]) == cycle[j]
  }

  /** What the inner loop needs of a cycle. */
  predicate IsWalk(cycle: seq<int>, nn: int, no: int, i: int) {
    && nn > 0 && no > 0 && 0 <= i < no && |cycle| >= 2
    && cycle[0] == i && cycle[|cycle| - 1] == nn + i
    && InRange(cycle, nn + no) && Distinct(cycle) && Chained(cycle, nn, no)
  }

  /** The walk stays within the given spots. */
  predicate Within(start: int, cycle: seq<int>, spots: set<int>) {
    forall k :: 0 <= k < |cycle| ==> start + cycle[k] in spots
  }

  /** After `j` swaps: the first `j` positions hold their final element, the end of the walk holds
      the element that goes next, the positions between are untouched. */
  ghost predicate Walked<T>(orig: seq<T>, cur: seq<T>, start: int, cycle: seq<int>, nn: int, no: int, j: int)
    requires nn > 0 && no > 0 && |cycle| >= 2 && InRange(cycle, nn + no) && 0 <= j <= |cycle|
    requires |cur| == |orig| && 0 <= start && start + nn + no <= |orig|
  {
    var last := |cycle| - 1;
    && (forall k :: 0 <= k < j && k < last ==> cur[start + cycle[k]] == orig[start + Origin(nn, no, cycle[k])])
    && (forall k :: j <= k < last ==> cur[start + cycle[k]] == orig[start + cycle[k]])
    && cur[start + cycle[last]] == orig[start + Origin(nn, no, cycle[if j <= last then j else last])]
  }

  /** Everything outside the spots is untouched. */
  ghost predicate ElsewhereSame<T>(orig: seq<T>, cur: seq<T>, spots: set<int>) {
    |cur| == |orig| && forall p :: 0 <= p < |cur| && p !in spots ==> cur[p] == orig[p]
  }

  /** Swapping the `j`-th position with the end of the walk leaves all other positions alone. */
  lemma WalkStepOthers<T>(cur: seq<T>, next: seq<T>, start: int, cycle: seq<int>, n: int, j: int)
    requires InRange(cycle, n) && Distinct(cycle) && 0 <= j < |cycle| && 0 <= start && start + n <= |cur|
    requires var last := |cycle| - 1;
             next == cur[start + cycle[j] := cur[start + cycle[last]]][start + cycle[last] := cur[start + cycle[j]]]
    ensures forall k :: 0 <= k < |cycle| - 1 && k != j ==> next[start + cycle[k]] == cur[start + cycle[k]]
  {
    var last := |cycle| - 1;
    forall k | 0 <= k < last && k != j ensures next[start + cycle[k]] == cur[start + cycle[k]] {
      assert cycle[k] != cycle[last];
      assert cycle[k] != cycle[j];
    }
  }


  lemma WalkStep<T>(orig: seq<T>, cur: seq<T>, start: int, cycle: seq<int>, nn: int, no: int, j: int, pos: int,
                    end: int)
    requires nn > 0 && no > 0 && |cycle| >= 2 && InRange(cycle, nn + no) && Distinct(cycle) && 0 <= j < |cycle|
    requires j + 1 < |cycle| ==> Origin(nn, no, cycle[j + 1]) == cycle[j]
    requires |cur| == |orig| && 0 <= start && start + nn + no <= |orig|
    requires Walked(orig, cur, start, cycle, nn, no, j)
    requires pos == start + cycle[j] && end == start + cycle[|cycle| - 1]
    ensures Walked(orig, cur[pos := cur[end]][end := cur[pos]], start, cycle, nn, no, j + 1)
  {
    var next := cur[pos := cur[end]][end := cur[pos]];
    if j == |cycle| - 1 {
      assert next == cur;
    } else {
      WalkStepOthers(cur, next, start, cycle, nn + no, j);
      assert pos != end;
      assert next[pos] == orig[start + Origin(nn, no, cycle[j])];
      assert next[end] == orig[start + Origin(nn, no, cycle[j + 1])];
    }
  }

  lemma SwapElsewhere<T>(orig: seq<T>, cur: seq<T>, spots: set<int>, pos: int, end: int)
    requires ElsewhereSame(orig, cur, spots) && pos in spots && end in spots && 0 <= pos < |cur| && 0 <= end < |cur|
    ensures ElsewhereSame(orig, cur[pos := cur[end]][end := cur[pos]], spots)
  {}

  /** The position visited before the `j`-th one; the walk is entered from its end. */
  function Before(cycle: seq<int>, end: int, j: int): int
    requires 0 <= j <= |cycle|
  {
    if j == 0 then end else cycle[j - 1]
  }

  lemma WalkStart<T>(orig: seq<T>, start: int, cycle: seq<int>, nn: int, no: int, i: int)
    requires IsWalk(cycle, nn, no, i) && 0 <= start && start + nn + no <= |orig|
    ensures Walked(orig, orig, start, cycle, nn, no, 0)
  {}

  /** One pass of the inner loop, on the contents of the vector. */
  lemma WalkNext<T>(orig: seq<T>, cur: seq<T>, start: int, cycle: seq<int>, nn: int, no: int, i: int, j: int, pos: int)
    requires IsWalk(cycle, nn, no, i) && 0 <= j < |cycle|
    requires |cur| == |orig| && 0 <= start && start + nn + no <= |orig|
    requires Walked(orig, cur, start, cycle, nn, no, j)
    requires pos == start + Hop(nn, no, Before(cycle, nn + i, j))
    ensures pos == start + cycle[j] == start + Before(cycle, nn + i, j + 1) && 0 <= pos < |cur|
    ensures var end := start + nn + i; var next := cur[pos := cur[end]][end := cur[pos]];
            Walked(orig, next, start, cycle, nn, no, j + 1)
  {
    HopTo(cycle, nn, no, i, j);
    WalkStep(orig, cur, start, cycle, nn, no, j, pos, start + nn + i);
  }

  lemma WalkBoth<T>(orig: seq<T>, cur: seq<T>, start: int, cycle: seq<int>, nn: int, no: int, i: int, j: int,
                    pos: int, cstart: int, spots: set<int>)
    requires IsWalk(cycle, nn, no, i) && 0 <= j < |cycle| && Within(start, cycle, spots) && cstart == start + nn + i
    requires |cur| == |orig| && 0 <= start && start + nn + no <= |orig|
    requires Walked(orig, cur, start, cycle, nn, no, j) && ElsewhereSame(orig, cur, spots)
    requires pos == start + Hop(nn, no, Before(cycle, nn + i, j))
    ensures pos == start + Before(cycle, nn + i, j + 1) && 0 <= pos < |cur|
    ensures Walked(orig, cur[pos := cur[cstart]][cstart := cur[pos]], start, cycle, nn, no, j + 1)
    ensures ElsewhereSame(orig, cur[pos := cur[cstart]][cstart := cur[pos]], spots)
  {
    WalkNext(orig, cur, start, cycle, nn, no, i, j, pos);
    assert cstart == start + cycle[|cycle| - 1];
    SwapElsewhere(orig, cur, spots, pos, cstart);
  }

  /** The hop from the position visited before the `j`-th one. */
  lemma HopTo(cycle: seq<int>, nn: int, no: int, i: int, j: int)
    requires IsWalk(cycle, nn, no, i) && 0 <= j < |cycle|
    ensures cycle[j] == Hop(nn, no, Before(cycle, nn + i, j)) && 0 <= cycle[j] < nn + no
    ensures j + 1 < |cycle| ==> Origin(nn, no, cycle[j + 1]) == cycle[j]
  {
    if j > 0 { assert cycle[j] == Hop(nn, no, cycle[j - 1]); }
  }

  /** One cycle: the inner loop. */
  method WalkCycle<T>(start: int, nn: int, no: int, i: int, cyclelen: int, nargv: array<T>, ghost cycle: seq<int>,
                      ghost spots: set<int>)
    requires IsWalk(cycle, nn, no, i) && cyclelen == |cycle| && Within(start, cycle, spots)
    requires 0 <= start && start + nn + no <= nargv.Length
    modifies nargv
    ensures Walked(old(nargv[..]), nargv[..], start, cycle, nn, no, cyclelen)
    ensures ElsewhereSame(old(nargv[..]), nargv[..], spots)
  {
    ghost var orig := nargv[..];
    var cstart := start + nn + i;
    var pos := cstart;
    ghost var cur := orig;
    WalkStart(orig, start, cycle, nn, no, i);
    for j := 0 to cyclelen
      invariant cur == nargv[..] && |cur| == |orig|
      invariant pos == start + Before(cycle, nn + i, j)
      invariant Walked(orig, cur, start, cycle, nn, no, j)
      invariant ElsewhereSame(orig, cur, spots)
    {
      if pos >= start + nn {
        pos := pos - nn;
      } else {
        pos := pos + no;
      }
      WalkBoth(orig, cur, start, cycle, nn, no, i, j, pos, cstart, spots);
      Swap(nargv, pos, cstart);
      cur := cur[pos := cur[cstart]][cstart := cur[pos]];
    }
  }

  method Swap<T>(nargv: array<T>, pos: int, cstart: int)
    requires 0 <= pos < nargv.Length && 0 <= cstart < nargv.Length
    modifies nargv
    ensures nargv[..] == old(nargv[..])[pos := old(nargv[cstart])][cstart := old(nargv[pos])]
  {
    var swap := nargv[pos];
    nargv[pos] := nargv[cstart];
    nargv[cstart] := swap;
  }

  /** The positions of the first `i` classes hold their final element, the others are untouched. */
  ghost predicate Turned<T>(orig: seq<T>, cur: seq<T>, start: int, nn: int, no: int, g: int, i: int)
    requires nn > 0 && no > 0 && g > 0 && |cur| == |orig| && 0 <= start && start + nn + no <= |orig|
  {
    && (forall q :: 0 <= q < nn + no && q % g < i ==> cur[start + q] == orig[start + Origin(nn, no, q)])
    && (forall q :: 0 <= q < nn + no && q % g >= i ==> cur[start + q] == orig[start + q])
    && (forall p :: 0 <= p < |cur| && !(start <= p < start + nn + no) ==> cur[p] == orig[p])
  }

  predicate OnCycle(start: int, cycle: seq<int>, p: int) { p - start in cycle }

  ghost function Spots(start: int, cycle: seq<int>, n: int): set<int> {
    set p | start <= p < start + n && OnCycle(start, cycle, p)
  }

  lemma TurnOne<T>(orig: seq<T>, cur: seq<T>, next: seq<T>, start: int, nn: int, no: int, g: int, i: int,
                   cycle: seq<int>)
    requires nn > 0 && no > 0 && 0 <= i < g <= no
    requires |cur| == |orig| == |next| && 0 <= start && start + nn + no <= |orig|
    requires IsCycle(cycle, nn, no, g, i) && IsWalk(cycle, nn, no, i)
    requires Turned(orig, cur, start, nn, no, g, i)
    requires Walked(cur, next, start, cycle, nn, no, |cycle|)
    requires ElsewhereSame(cur, next, Spots(start, cycle, nn + no))
    ensures Turned(orig, next, start, nn, no, g, i + 1)
  {
    forall q | 0 <= q < nn + no && q in cycle ensures next[start + q] == orig[start + Origin(nn, no, q)] {
      OriginOnCycle(cycle, nn, no, i, q);
      CycleDone(cur, next, start, nn, no, cycle, q);
    }
    forall p | 0 <= p < |cur| && !(start <= p < start + nn + no && p - start in cycle) ensures next[p] == cur[p] {
      assert p !in Spots(start, cycle, nn + no);
    }
  }

  lemma OriginOnCycle(cycle: seq<int>, nn: int, no: int, i: int, q: int)
    requires IsWalk(cycle, nn, no, i) && q in cycle
    ensures 0 <= q < nn + no && 0 <= Origin(nn, no, q) < nn + no && Origin(nn, no, q) in cycle
  {
    var k :| 0 <= k < |cycle| && cycle[k] == q;
    if k > 0 {
      assert Origin(nn, no, cycle[k]) == cycle[k - 1];
    } else {
      assert Origin(nn, no, q) == cycle[|cycle| - 1];
    }
  }

  lemma CycleDone<T>(cur: seq<T>, next: seq<T>, start: int, nn: int, no: int, cycle: seq<int>, q: int)
    requires nn > 0 && no > 0 && |cycle| >= 2 && InRange(cycle, nn + no)
    requires |cur| == |next| && 0 <= start && start + nn + no <= |cur|
    requires Walked(cur, next, start, cycle, nn, no, |cycle|) && q in cycle
    ensures 0 <= q < nn + no && next[start + q] == cur[start + Origin(nn, no, q)]
  {
    var k :| 0 <= k < |cycle| && cycle[k] == q;
  }

  lemma TurnedIsExchanged<T>(orig: seq<T>, cur: seq<T>, start: int, nn: int, no: int, g: int)
    requires nn > 0 && no > 0 && g > 0 && |cur| == |orig| && 0 <= start && start + nn + no <= |orig|
    requires Turned(orig, cur, start, nn, no, g, g)
    ensures cur == Exchanged(orig, start, start + nn, start + nn + no)
  {
    forall q | 0 <= q < nn + no ensures cur[start + q] == orig[start + Origin(nn, no, q)] {
      assert q % g < g;
    }
    var r := Exchanged(orig, start, start + nn, start + nn + no);
    forall p | 0 <= p < |cur| ensures cur[p] == r[p] {
      if start <= p < start + nn + no { assert cur[start + (p - start)] == orig[start + Origin(nn, no, p - start)]; }
    }
  }

  /** getopt's permute_args: exchanges the two blocks in place. */
  method PermuteArgs<T>(start: int, mid: int, end: int, nargv: array<T>)
    requires 0 <= start < mid < end <= nargv.Length
    modifies nargv
    ensures nargv[..] == Exchanged(old(nargv[..]), start, mid, end)
  {
    ghost var orig := nargv[..];
    var nn := mid - start;
    var no := end - mid;
    var ncycle := Gcd(nn, no);
    var cyclelen := (end - start) / ncycle;
    for i := 0 to ncycle
      invariant Turned(orig, nargv[..], start, nn, no, ncycle, i)
    {
      TurnClass(start, nn, no, ncycle, i, cyclelen, nargv, orig);
    }
    TurnedIsExchanged(orig, nargv[..], start, nn, no, ncycle);
  }

  lemma CycleIsWalk(cycle: seq<int>, nn: int, no: int, g: int, i: int)
    requires nn > 0 && no > 0 && 0 <= i < g <= no && IsCycle(cycle, nn, no, g, i)
    ensures IsWalk(cycle, nn, no, i)
  {
    forall k | 0 <= k < |cycle| ensures 0 <= cycle[k] < nn + no { assert cycle[k] in cycle; }
  }

  lemma CycleWithinSpots(start: int, cycle: seq<int>, n: int)
    requires InRange(cycle, n)
    ensures Within(start, cycle, Spots(start, cycle, n))
  {
    forall k | 0 <= k < |cycle| ensures start + cycle[k] in Spots(start, cycle, n) {
      assert OnCycle(start, cycle, start + cycle[k]);
    }
  }

  /** The body of the outer loop: one class of positions. */
  method TurnClass<T>(start: int, nn: int, no: int, g: int, i: int, cyclelen: int, nargv: array<T>, ghost orig: seq<T>)
    requires nn > 0 && no > 0 && IsGcd(g, nn, no) && g <= nn && g <= no && 0 <= i < g && cyclelen == (nn + no) / g
    requires 0 <= start && start + nn + no <= nargv.Length && |orig| == nargv.Length
    requires Turned(orig, nargv[..], start, nn, no, g, i)
    modifies nargv
    ensures Turned(orig, nargv[..], start, nn, no, g, i + 1)
  {
    ghost var cycle := CycleExists(nn, no, g, i);
    CycleIsWalk(cycle, nn, no, g, i);
    CycleWithinSpots(start, cycle, nn + no);
    ghost var cur := nargv[..];
    WalkCycle(start, nn, no, i, cyclelen, nargv, cycle, Spots(start, cycle, nn + no));
    TurnOne(orig, cur, nargv[..], start, nn, no, g, i, cycle);
  }
}
