/**
 The typo suggestion of the operator's commands (certstore/command.go): `distance`
 fills a table, `closest` scans candidates. The reference is independent of the
 table: an alignment is a list of edits that turns one string into the other, and
 its cost is the number of edits that are not plain matches.
 */
module EditDistance {

  newtype byte = x: int | 0 <= x < 256
  type Bytes = seq<byte>

  datatype Edit = Match | Substitute | Insert | Delete | Swap

  function Weight(e: Edit): nat {
    if e.Match? then 0 else 1
  }

  function Cost(es: seq<Edit>): nat {
    if es == [] then 0 else Cost(es[..|es| - 1]) + Weight(es[|es| - 1])
  }

  /** How many bytes of the first string an edit accounts for, and of the second. */
  function TakesA(e: Edit): nat {
    match e case Insert => 0 case Swap => 2 case _ => 1
  }

  function TakesB(e: Edit): nat {
    match e case Delete => 0 case Swap => 2 case _ => 1
  }

  /** The last bytes of the two prefixes are each other's, crosswise. */
  predicate Crossed(a: Bytes, b: Bytes, i: nat, j: nat)
    requires i <= |a| && j <= |b|
  {
    i > 1 && j > 1 && a[i - 1] == b[j - 2] && a[i - 2] == b[j - 1]
  }

  /** `e` can be the edit that accounts for the end of the two prefixes. */
  predicate Fits(a: Bytes, b: Bytes, i: nat, j: nat, e: Edit)
    requires i <= |a| && j <= |b|
  {
    && TakesA(e) <= i && TakesB(e) <= j
    && (e.Match? ==> a[i - 1] == b[j - 1])
    && (e.Swap? ==> Crossed(a, b, i, j))
  }

  /**
   `es`, read left to right, turns the first i bytes of `a` into the first j of `b`
   without touching a byte twice.
   */
  ghost predicate Aligns(a: Bytes, b: Bytes, i: nat, j: nat, es: seq<Edit>)
    requires i <= |a| && j <= |b|
    decreases |es|
  {
    if es == [] then i == 0 && j == 0
    else
      var e := es[|es| - 1];
      Fits(a, b, i, j, e) && Aligns(a, b, i - TakesA(e), j - TakesB(e), es[..|es| - 1])
  }

  function Min(x: int, y: int): int {
    if x <= y then x else y
  }

  /** The value the table holds for two prefixes. */
  function Cell(a: Bytes, b: Bytes, i: nat, j: nat): (d: nat)
    requires i <= |a| && j <= |b|
  {
    if i == 0 then j
    else if j == 0 then i
    else
      var cost := if a[i - 1] == b[j - 1] then 0 else 1;
      var best := Min(Min(Cell(a, b, i - 1, j) + 1, Cell(a, b, i, j - 1) + 1), Cell(a, b, i - 1, j - 1) + cost);
      if Crossed(a, b, i, j) then Min(best, Cell(a, b, i - 2, j - 2) + 1) else best
  }

  function Dist(a: Bytes, b: Bytes): (d: nat) {
    Cell(a, b, |a|, |b|)
  }

  /** `d` is the least cost of any alignment of the two strings. */
  ghost predicate IsOptimal(a: Bytes, b: Bytes, d: nat) {
    && (exists es :: Aligns(a, b, |a|, |b|, es) && Cost(es) == d)
    && (forall es :: Aligns(a, b, |a|, |b|, es) ==> d <= Cost(es))
  }

  /** Going back over one edit never saves more than the edit costs... */
  lemma {:induction false} CellStep(a: Bytes, b: Bytes, i: nat, j: nat, e: Edit)
    requires i <= |a| && j <= |b| && Fits(a, b, i, j, e)
    ensures Cell(a, b, i, j) <= Cell(a, b, i - TakesA(e), j - TakesB(e)) + Weight(e)
  {
    match e {
      case Insert => assert i > 0 ==> Cell(a, b, i, j) <= Cell(a, b, i, j - 1) + 1;
      case Delete => assert j > 0 ==> Cell(a, b, i, j) <= Cell(a, b, i - 1, j) + 1;
      case Swap => assert Cell(a, b, i, j) <= Cell(a, b, i - 2, j - 2) + 1;
      case Match => assert Cell(a, b, i, j) <= Cell(a, b, i - 1, j - 1);
      case Substitute => assert Cell(a, b, i, j) <= Cell(a, b, i - 1, j - 1) + 1;
    }
  }

  /** The interior of the table, one unfolding of it. */
  lemma {:induction false} CellInterior(a: Bytes, b: Bytes, i: nat, j: nat, up: nat, left: nat, diagonal: nat)
    requires 0 < i <= |a| && 0 < j <= |b|
    requires up == Cell(a, b, i - 1, j) && left == Cell(a, b, i, j - 1) && diagonal == Cell(a, b, i - 1, j - 1)
    ensures || Cell(a, b, i, j) == up + 1 || Cell(a, b, i, j) == left + 1
            || Cell(a, b, i, j) == diagonal + (if a[i - 1] == b[j - 1] then 0 else 1)
            || (Crossed(a, b, i, j) && Cell(a, b, i, j) == Cell(a, b, i - 2, j - 2) + 1)
  {
  }

  lemma {:induction false} CellBorder(a: Bytes, b: Bytes, i: nat, j: nat)
    requires i <= |a| && j <= |b|
    ensures i == 0 ==> Cell(a, b, i, j) == j
    ensures j == 0 ==> Cell(a, b, i, j) == i
  {
  }

  /** ...and some edit saves exactly that. */
  lemma {:induction false} CellTight(a: Bytes, b: Bytes, i: nat, j: nat) returns (e: Edit)
    requires i <= |a| && j <= |b| && i + j > 0
    ensures Fits(a, b, i, j, e)
    ensures Cell(a, b, i, j) == Cell(a, b, i - TakesA(e), j - TakesB(e)) + Weight(e)
  {
    hide Cell;
    CellBorder(a, b, i, j);
    if i == 0 {
      e := Insert;
      CellBorder(a, b, i, j - 1);
    } else if j == 0 {
      e := Delete;
      CellBorder(a, b, i - 1, j);
    } else {
      CellInterior(a, b, i, j, Cell(a, b, i - 1, j), Cell(a, b, i, j - 1), Cell(a, b, i - 1, j - 1));
      e :=
        if Cell(a, b, i, j) == Cell(a, b, i - 1, j) + 1 then Delete
        else if Cell(a, b, i, j) == Cell(a, b, i, j - 1) + 1 then Insert
        else if Crossed(a, b, i, j) && Cell(a, b, i, j) == Cell(a, b, i - 2, j - 2) + 1 then Swap
        else if a[i - 1] == b[j - 1] then Match
        else Substitute;
    }
  }

  lemma Snoc(a: Bytes, b: Bytes, i: nat, j: nat, es: seq<Edit>, e: Edit)
    requires i <= |a| && j <= |b| && Fits(a, b, i, j, e)
    requires Aligns(a, b, i - TakesA(e), j - TakesB(e), es)
    ensures Aligns(a, b, i, j, es + [e])
    ensures Cost(es + [e]) == Cost(es) + Weight(e)
  {
    assert (es + [e])[..|es + [e]| - 1] == es;
  }

  /** No alignment is cheaper than the table. */
  lemma {:induction false} CellIsLower(a: Bytes, b: Bytes, i: nat, j: nat, es: seq<Edit>)
    requires i <= |a| && j <= |b| && Aligns(a, b, i, j, es)
    ensures Cell(a, b, i, j) <= Cost(es)
    decreases |es|
  {
    if es != [] {
      var e := es[|es| - 1];
      CellStep(a, b, i, j, e);
      CellIsLower(a, b, i - TakesA(e), j - TakesB(e), es[..|es| - 1]);
    }
  }

  /** Some alignment costs exactly what the table says. */
  lemma {:induction false} CellIsReached(a: Bytes, b: Bytes, i: nat, j: nat) returns (es: seq<Edit>)
    requires i <= |a| && j <= |b|
    ensures Aligns(a, b, i, j, es) && Cost(es) == Cell(a, b, i, j)
    decreases i + j
  {
    es := [];
    if i + j > 0 {
      var e := CellTight(a, b, i, j);
      es := CellIsReached(a, b, i - TakesA(e), j - TakesB(e));
      Snoc(a, b, i, j, es, e);
      es := es + [e];
    }
  }

  /** The recurrence is optimal over all alignments. */
  lemma DistIsOptimal(a: Bytes, b: Bytes)
    ensures IsOptimal(a, b, Dist(a, b))
  {
    var es := CellIsReached(a, b, |a|, |b|);
    forall es' | Aligns(a, b, |a|, |b|, es') ensures Dist(a, b) <= Cost(es') {
      CellIsLower(a, b, |a|, |b|, es');
    }
  }

  /* ------------------------------------------------ laws of the distance */

  /** An alignment of a with b, its insertions and deletions exchanged, aligns b with a. */
  lemma {:induction false} Mirrored(a: Bytes, b: Bytes, i: nat, j: nat, es: seq<Edit>) returns (r: seq<Edit>)
    requires i <= |a| && j <= |b| && Aligns(a, b, i, j, es)
    ensures Aligns(b, a, j, i, r) && Cost(r) == Cost(es)
    decreases |es|
  {
    r := [];
    if es != [] {
      var e := es[|es| - 1];
      var f := if e.Insert? then Delete else if e.Delete? then Insert else e;
      r := Mirrored(a, b, i - TakesA(e), j - TakesB(e), es[..|es| - 1]);
      Snoc(b, a, j, i, r, f);
      r := r + [f];
    }
  }

  lemma {:induction false} CostBoundsLengths(a: Bytes, b: Bytes, i: nat, j: nat, es: seq<Edit>)
    requires i <= |a| && j <= |b| && Aligns(a, b, i, j, es)
    ensures i - j <= Cost(es) && j - i <= Cost(es)
    ensures Cost(es) == 0 ==> a[..i] == b[..j]
    decreases |es|
  {
    if es != [] {
      var e := es[|es| - 1];
      CostBoundsLengths(a, b, i - TakesA(e), j - TakesB(e), es[..|es| - 1]);
      if e.Match? {
        assert a[..i] == a[..i - 1] + [a[i - 1]] && b[..j] == b[..j - 1] + [b[j - 1]];
      }
    }
  }

  lemma {:induction false} CellBelowLonger(a: Bytes, b: Bytes, i: nat, j: nat, longer: nat)
    requires i <= |a| && j <= |b| && i <= longer && j <= longer
    ensures Cell(a, b, i, j) <= longer
  {
    if i > 0 && j > 0 {
      CellBelowLonger(a, b, i - 1, j - 1, longer - 1);
      CellStep(a, b, i, j, Substitute);
    }
  }

  lemma {:induction false} CellOfEquals(a: Bytes, i: nat)
    requires i <= |a|
    ensures Cell(a, a, i, i) == 0
  {
    if i > 0 {
      CellOfEquals(a, i - 1);
      CellStep(a, a, i, i, Match);
    }
  }

  /** Symmetric, zero exactly on equal strings, between the length difference and the longer length. */
  lemma DistanceLaws(a: Bytes, b: Bytes)
    ensures Dist(a, b) == Dist(b, a)
    ensures Dist(a, b) == 0 <==> a == b
    ensures |a| - |b| <= Dist(a, b) && |b| - |a| <= Dist(a, b)
    ensures Dist(a, b) <= if |a| >= |b| then |a| else |b|
  {
    var es := CellIsReached(a, b, |a|, |b|);
    var r := Mirrored(a, b, |a|, |b|, es);
    CellIsLower(b, a, |b|, |a|, r);
    var es' := CellIsReached(b, a, |b|, |a|);
    var r' := Mirrored(b, a, |b|, |a|, es');
    CellIsLower(a, b, |a|, |b|, r');
    CostBoundsLengths(a, b, |a|, |b|, es);
    assert a[..|a|] == a && b[..|b|] == b;
    CellBelowLonger(a, b, |a|, |b|, if |a| >= |b| then |a| else |b|);
    CellOfEquals(a, |a|);
  }

  /** `b` is `a` with the two different neighbours at k and k + 1 exchanged. */
  predicate Slip(a: Bytes, b: Bytes, k: nat) {
    && |a| == |b| && k + 1 < |a|
    && a[k] == b[k + 1] && a[k + 1] == b[k] && a[k] != a[k + 1]
    && forall i :: 0 <= i < |a| && i != k && i != k + 1 ==> a[i] == b[i]
  }

  lemma {:induction false} SlipCell(a: Bytes, b: Bytes, k: nat, i: nat)
    requires Slip(a, b, k) && i <= |a| && i != k + 1
    ensures Cell(a, b, i, i) <= if i <= k then 0 else 1
  {
    if i == k + 2 {
      SlipCell(a, b, k, k);
    } else if i > 0 {
      SlipCell(a, b, k, i - 1);
    }
  }

  /** Two neighbours typed in the wrong order, anywhere in any string, are one edit. */
  lemma SlipCostsOne(a: Bytes, b: Bytes, k: nat)
    requires Slip(a, b, k)
    ensures Dist(a, b) == 1
  {
    SlipCell(a, b, k, |a|);
    DistanceLaws(a, b);
  }

  /**
   The optimal-string-alignment form is not a metric: "ca" is one slip from "ac", which
   is one edit from "abc", yet "ca" is three edits from "abc".
   */
  lemma TriangleFails()
    ensures var ca, ac, abc := [99, 97], [97, 99], [97, 98, 99];
            Dist(ca, abc) == 3 && Dist(ca, ac) == 1 && Dist(ac, abc) == 1
  {
    var ca: Bytes, ac: Bytes, abc: Bytes := [99, 97], [97, 99], [97, 98, 99];
    SlipCostsOne(ca, ac, 0);
    assert Cell(ca, abc, 1, 1) == 1;
    assert Cell(ca, abc, 1, 2) == 2;
    assert Cell(ca, abc, 1, 3) == 2;
    assert Cell(ca, abc, 2, 1) == 1;
    assert Cell(ca, abc, 2, 2) == 2;
    assert Cell(ac, abc, 1, 1) == 0;
    assert Cell(ac, abc, 1, 2) == 1;
    DistanceLaws(ac, abc);
  }

  /* ----------------------------------------------------- the two methods */

  /** Rows before i, and row i before column j, are done. */
  ghost predicate Filled(a: Bytes, b: Bytes, d: array2<nat>, i: nat, j: nat)
    requires d.Length0 == |a| + 1 && d.Length1 == |b| + 1 && i <= |a| && j <= |b| + 1
    reads d
  {
    && (forall k, l :: 0 <= k < i && 0 <= l <= |b| ==> d[k, l] == Cell(a, b, k, l))
    && (forall l :: 0 <= l < j ==> d[i, l] == Cell(a, b, i, l))
    && (forall k :: i < k <= |a| ==> d[k, 0] == k)
  }

  /** The table: `d[i, j]` is the distance of the first i bytes of a and the first j of b. */
  method Distance(a: Bytes, b: Bytes) returns (r: nat)
    ensures IsOptimal(a, b, r)
    ensures r == Dist(a, b)
  {
    var d := new nat[|a| + 1, |b| + 1]((i, j) => 0);
    for i := 0 to |a| + 1
      invariant forall k :: 0 <= k < i ==> d[k, 0] == k
    {
      d[i, 0] := i;
    }
    for j := 0 to |b| + 1
      invariant forall k :: 0 <= k <= |a| ==> d[k, 0] == k
      invariant forall k :: 0 <= k < j ==> d[0, k] == k
    {
      d[0, j] := j;
    }
    for i := 1 to |a| + 1
      invariant Filled(a, b, d, i - 1, |b| + 1)
    {
      assert d[i, 0] == Cell(a, b, i, 0);
      for j := 1 to |b| + 1
        invariant Filled(a, b, d, i, j)
      {
        FillCell(a, b, d, i, j);
      }
    }
    DistIsOptimal(a, b);
    r := d[|a|, |b|];
  }

  /** The loop body: one entry, from the three or four before it. */
  method FillCell(a: Bytes, b: Bytes, d: array2<nat>, i: nat, j: nat)
    requires d.Length0 == |a| + 1 && d.Length1 == |b| + 1 && 1 <= i <= |a| && 1 <= j <= |b|
    requires Filled(a, b, d, i, j)
    modifies d
    ensures Filled(a, b, d, i, j + 1)
  {
    var cost := if a[i - 1] == b[j - 1] then 0 else 1;
    var v := Min(Min(d[i - 1, j] + 1, d[i, j - 1] + 1), d[i - 1, j - 1] + cost);
    if i > 1 && j > 1 && a[i - 1] == b[j - 2] && a[i - 2] == b[j - 1] {
      v := Min(v, d[i - 2, j - 2] + 1);
    }
    assert v == Cell(a, b, i, j);
    d[i, j] := v;
  }

  /** Candidate k is the suggestion for `s`: none is nearer, and none before it is as near. */
  ghost predicate FirstNearest(s: Bytes, candidates: seq<Bytes>, k: nat) {
    && k < |candidates|
    && (forall i :: 0 <= i < |candidates| ==> Dist(s, candidates[k]) <= Dist(s, candidates[i]))
    && (forall i :: 0 <= i < k ==> Dist(s, candidates[k]) < Dist(s, candidates[i]))
  }

  /**
   `closest`: the first candidate of least distance if that is no more than a third of
   the length of s, and the empty string when every candidate is further.
   */
  method Closest(s: Bytes, candidates: seq<Bytes>) returns (best: Bytes)
    ensures || (best == [] && forall c :: c in candidates ==> Dist(s, c) > |s| / 3)
            || (exists k: nat :: FirstNearest(s, candidates, k) && best == candidates[k] && Dist(s, best) <= |s| / 3)
  {
    var bestDist: nat;
    best, bestDist := [], |s| / 3 + 1;
    ghost var at := -1;
    for n := 0 to |candidates|
      invariant at < n
      invariant at < 0 ==> best == [] && bestDist == |s| / 3 + 1
      invariant at >= 0 ==> best == candidates[at] && bestDist == Dist(s, best) && bestDist <= |s| / 3
      invariant forall i :: 0 <= i < n ==> bestDist <= Dist(s, candidates[i])
      invariant forall i :: 0 <= i < at ==> bestDist < Dist(s, candidates[i])
    {
      var d := Distance(s, candidates[n]);
      if d < bestDist {
        best, bestDist, at := candidates[n], d, n;
      }
    }
    if at >= 0 {
      assert FirstNearest(s, candidates, at);
    }
  }
}
