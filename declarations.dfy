/**
 * Which variables the Bounds and Binary sections declare.  Every flow x_ikj
 * is bounded below by zero exactly once and is not binary; every split
 * indicator u_ikj is declared binary exactly once and has no bound; r is
 * bounded once; the capacity variables c_ik and d_kj occur in the capacity
 * rows but are declared in neither section.
 */
module LpDeclarations {
  import opened IndexArith
  import opened Blocks
  import opened LpRows
  import opened LpProperties

  /** `x` occurs in `s`, and at one position only. */
  predicate Once<T(==)>(s: seq<T>, x: T) {
    x in s && forall p, q :: 0 <= p < |s| && 0 <= q < |s| && s[p] == x && s[q] == x ==> p == q
  }

  /** v has the line "0 <= v" in the Bounds section. */
  predicate Bounded(n: Counts, v: Var) {
    NonNegative(v) in BoundRows(n)
  }

  /** v has its line in the Binary section. */
  predicate Binary(n: Counts, v: Var) {
    BinaryVar(v) in BinaryRows(n)
  }

  /** v is declared exactly once, in exactly one of the two sections. */
  predicate DeclaredOnce(n: Counts, v: Var) {
    (Once(BoundRows(n), NonNegative(v)) && !Binary(n, v)) || (Once(BinaryRows(n), BinaryVar(v)) && !Bounded(n, v))
  }

  predicate Undeclared(n: Counts, v: Var) {
    !Bounded(n, v) && !Binary(n, v)
  }

  /** The path an i, k, j loop visits at position p, with 1-based indices. */
  function PathOf(n: Counts, p: nat): (nat, nat, nat)
    requires 0 < n.y && 0 < n.z
  {
    (p / (n.y * n.z) + 1, p % (n.y * n.z) / n.z + 1, p % (n.y * n.z) % n.z + 1)
  }

  /** Every position of a three-level loop is the position of the path visited there. */
  lemma PathOfPosition(n: Counts, p: nat)
    requires p < n.x * (n.y * n.z)
    ensures 0 < n.y && 0 < n.z
    ensures var t := PathOf(n, p);
      1 <= t.0 <= n.x && 1 <= t.1 <= n.y && 1 <= t.2 <= n.z && PathPosition(n, t.0, t.1, t.2) == p
  {
    var d := n.y * n.z;
    assert 0 < d;
    var q, r := p / d, p % d;
    assert q * d + r == p;
    QuotientBelow(p, d, n.x);
    var b, c := r / n.z, r % n.z;
    assert b * n.z + c == r;
    QuotientBelow(r, n.z, n.y);
    PositionSplit(q, b, c, n.y, n.z);
  }

  /** Every position of a two-level loop with inner bound d is that of block p / d, item p % d. */
  lemma PairOfPosition(p: nat, a: nat, d: nat)
    requires p < a * d
    ensures 0 < d && p / d < a && p % d < d && (p / d) * d + p % d == p
  {
    QuotientBelow(p, d, a);
  }

  // ---- what each section holds ----

  /** The Bounds section holds a bound per flow, then the bound on r, and nothing else. */
  lemma BoundRowsShape(n: Counts)
    ensures |BoundRows(n)| >= 1 && BoundRows(n)[|BoundRows(n)| - 1] == NonNegative(MaxLoad)
    ensures forall p :: 0 <= p < |BoundRows(n)| - 1 ==> BoundRows(n)[p].NonNegative? && BoundRows(n)[p].v.Flow?
  {
    SectionLengths(n);
    LastBoundIsMaxLoad(n);
    forall p | 0 <= p < |BoundRows(n)| - 1
      ensures BoundRows(n)[p].NonNegative? && BoundRows(n)[p].v.Flow?
    {
      PathOfPosition(n, p);
      var t := PathOf(n, p);
      BoundRowAt(n, t.0, t.1, t.2);
    }
  }

  /** The Binary section holds split indicators only. */
  lemma BinaryRowsShape(n: Counts)
    ensures forall p :: 0 <= p < |BinaryRows(n)| ==> BinaryRows(n)[p].BinaryVar? && BinaryRows(n)[p].v.Split?
  {
    SectionLengths(n);
    forall p | 0 <= p < |BinaryRows(n)|
      ensures BinaryRows(n)[p].BinaryVar? && BinaryRows(n)[p].v.Split?
    {
      PathOfPosition(n, p);
      var t := PathOf(n, p);
      BinaryRowAt(n, t.0, t.1, t.2);
    }
  }

  // ---- each variable ----

  /** Flow x_ikj has one bound, at its path's position, and is not binary. */
  lemma FlowDeclaredOnce(n: Counts, i: nat, k: nat, j: nat)
    requires 1 <= i <= n.x && 1 <= k <= n.y && 1 <= j <= n.z
    ensures Once(BoundRows(n), NonNegative(Flow(i, k, j))) && !Binary(n, Flow(i, k, j))
  {
    BoundRowAt(n, i, k, j);
    SectionLengths(n);
    LastBoundIsMaxLoad(n);
    forall p | 0 <= p < |BoundRows(n)| && BoundRows(n)[p] == NonNegative(Flow(i, k, j))
      ensures p == PathPosition(n, i, k, j)
    {
      PathOfPosition(n, p);
      var t := PathOf(n, p);
      BoundRowAt(n, t.0, t.1, t.2);
    }
    BinaryRowsShape(n);
  }

  /** Split indicator u_ikj is declared binary once, at its path's position, and has no bound. */
  lemma SplitDeclaredOnce(n: Counts, i: nat, k: nat, j: nat)
    requires 1 <= i <= n.x && 1 <= k <= n.y && 1 <= j <= n.z
    ensures Once(BinaryRows(n), BinaryVar(Split(i, k, j))) && !Bounded(n, Split(i, k, j))
  {
    BinaryRowAt(n, i, k, j);
    SectionLengths(n);
    forall p | 0 <= p < |BinaryRows(n)| && BinaryRows(n)[p] == BinaryVar(Split(i, k, j))
      ensures p == PathPosition(n, i, k, j)
    {
      PathOfPosition(n, p);
      var t := PathOf(n, p);
      BinaryRowAt(n, t.0, t.1, t.2);
    }
    BoundRowsShape(n);
  }

  /** r has one bound, the last line of the Bounds section, and is not binary. */
  lemma MaxLoadDeclaredOnce(n: Counts)
    ensures Once(BoundRows(n), NonNegative(MaxLoad)) && !Binary(n, MaxLoad)
  {
    BoundRowsShape(n);
    BinaryRowsShape(n);
  }

  /** No capacity variable is declared in either section, whatever its indices. */
  lemma CapacitiesUndeclared(n: Counts, a: nat, b: nat)
    ensures Undeclared(n, CapSt(a, b)) && Undeclared(n, CapTd(a, b))
  {
    BoundRowsShape(n);
    BinaryRowsShape(n);
  }

  /** A flow whose indices name a source, a transit and a destination. */
  predicate IsPathFlow(n: Counts, v: Var) {
    v.Flow? && 1 <= v.i <= n.x && 1 <= v.k <= n.y && 1 <= v.j <= n.z
  }

  /** A split indicator whose indices name a source, a transit and a destination. */
  predicate IsPathSplit(n: Counts, v: Var) {
    v.Split? && 1 <= v.i <= n.x && 1 <= v.k <= n.y && 1 <= v.j <= n.z
  }

  lemma FlowsDeclared(n: Counts, vs: seq<Var>)
    requires forall v :: v in vs ==> IsPathFlow(n, v)
    ensures forall v :: v in vs ==> DeclaredOnce(n, v)
  {
    forall v | v in vs
      ensures DeclaredOnce(n, v)
    {
      FlowDeclaredOnce(n, v.i, v.k, v.j);
    }
  }

  lemma SplitsDeclared(n: Counts, vs: seq<Var>)
    requires forall v :: v in vs ==> IsPathSplit(n, v)
    ensures forall v :: v in vs ==> DeclaredOnce(n, v)
  {
    forall v | v in vs
      ensures DeclaredOnce(n, v)
    {
      SplitDeclaredOnce(n, v.i, v.k, v.j);
    }
  }

  // ---- every variable the constraint rows use ----

  /** The flows of demand row p are declared once. */
  lemma DemandRowDeclared(n: Counts, p: nat)
    requires p < |DemandRows(n)|
    ensures DemandRows(n)[p].SumEquals? && forall v :: v in DemandRows(n)[p].terms ==> DeclaredOnce(n, v)
  {
    FlattenLength(DemandBlocks(n), n.z);
    PairOfPosition(p, n.x, n.z);
    var i, j := p / n.z + 1, p % n.z + 1;
    DemandRowAt(n, i, j);
    FlowsDeclared(n, DemandRow(n, i, j).terms);
  }

  /** Every flow in a demand row is declared once. */
  lemma DemandVarsDeclared(n: Counts)
    ensures forall r :: r in DemandRows(n) ==> r.SumEquals? && forall v :: v in r.terms ==> DeclaredOnce(n, v)
  {
    forall r | r in DemandRows(n)
      ensures r.SumEquals? && forall v :: v in r.terms ==> DeclaredOnce(n, v)
    {
      var p :| 0 <= p < |DemandRows(n)| && DemandRows(n)[p] == r;
      DemandRowDeclared(n, p);
    }
  }

  /** The flows of capacity row p of the first tier are declared once; its c_ik is declared nowhere. */
  lemma CapacityStRowDeclared(n: Counts, p: nat)
    requires p < |CapacityStRows(n)|
    ensures CapacityStRows(n)[p].SumAtMost? && CapacityStRows(n)[p].bound.CapSt?
    ensures Undeclared(n, CapacityStRows(n)[p].bound)
    ensures forall v :: v in CapacityStRows(n)[p].terms ==> DeclaredOnce(n, v)
  {
    FlattenLength(CapacityStBlocks(n), n.y);
    PairOfPosition(p, n.x, n.y);
    var i, k := p / n.y + 1, p % n.y + 1;
    CapacityStRowAt(n, i, k);
    CapacitiesUndeclared(n, i, k);
    FlowsDeclared(n, CapacityStRow(n, i, k).terms);
  }

  /** Every flow in a capacity row of the first tier is declared once; the row's c_ik is declared nowhere. */
  lemma CapacityStVarsDeclared(n: Counts)
    ensures forall r :: r in CapacityStRows(n) ==>
      r.SumAtMost? && r.bound.CapSt? && Undeclared(n, r.bound) && forall v :: v in r.terms ==> DeclaredOnce(n, v)
  {
    forall r | r in CapacityStRows(n)
      ensures r.SumAtMost? && r.bound.CapSt? && Undeclared(n, r.bound) && forall v :: v in r.terms ==> DeclaredOnce(n, v)
    {
      var p :| 0 <= p < |CapacityStRows(n)| && CapacityStRows(n)[p] == r;
      CapacityStRowDeclared(n, p);
    }
  }

  /** The flows of capacity row p of the second tier are declared once; its d_kj is declared nowhere. */
  lemma CapacityTdRowDeclared(n: Counts, p: nat)
    requires p < |CapacityTdRows(n)|
    ensures CapacityTdRows(n)[p].SumAtMost? && CapacityTdRows(n)[p].bound.CapTd?
    ensures Undeclared(n, CapacityTdRows(n)[p].bound)
    ensures forall v :: v in CapacityTdRows(n)[p].terms ==> DeclaredOnce(n, v)
  {
    FlattenLength(CapacityTdBlocks(n), n.y);
    PairOfPosition(p, n.z, n.y);
    var j, k := p / n.y + 1, p % n.y + 1;
    CapacityTdRowAt(n, k, j);
    CapacitiesUndeclared(n, k, j);
    FlowsDeclared(n, CapacityTdRow(n, k, j).terms);
  }

  /** Every flow in a capacity row of the second tier is declared once; the row's d_kj is declared nowhere. */
  lemma CapacityTdVarsDeclared(n: Counts)
    ensures forall r :: r in CapacityTdRows(n) ==>
      r.SumAtMost? && r.bound.CapTd? && Undeclared(n, r.bound) && forall v :: v in r.terms ==> DeclaredOnce(n, v)
  {
    forall r | r in CapacityTdRows(n)
      ensures r.SumAtMost? && r.bound.CapTd? && Undeclared(n, r.bound) && forall v :: v in r.terms ==> DeclaredOnce(n, v)
    {
      var p :| 0 <= p < |CapacityTdRows(n)| && CapacityTdRows(n)[p] == r;
      CapacityTdRowDeclared(n, p);
    }
  }

  /** The indicators of split-path row p are declared once. */
  lemma SplitPathsRowDeclared(n: Counts, p: nat)
    requires p < |SplitPathsRows(n)|
    ensures SplitPathsRows(n)[p].SumEquals? && forall v :: v in SplitPathsRows(n)[p].terms ==> DeclaredOnce(n, v)
  {
    FlattenLength(SplitPathsBlocks(n), n.z);
    PairOfPosition(p, n.x, n.z);
    var i, j := p / n.z + 1, p % n.z + 1;
    SplitPathsRowAt(n, i, j);
    SplitsDeclared(n, SplitPathsRow(n, i, j).terms);
  }

  /** Every indicator in a split-path row is declared once. */
  lemma SplitPathsVarsDeclared(n: Counts)
    ensures forall r :: r in SplitPathsRows(n) ==> r.SumEquals? && forall v :: v in r.terms ==> DeclaredOnce(n, v)
  {
    forall r | r in SplitPathsRows(n)
      ensures r.SumEquals? && forall v :: v in r.terms ==> DeclaredOnce(n, v)
    {
      var p :| 0 <= p < |SplitPathsRows(n)| && SplitPathsRows(n)[p] == r;
      SplitPathsRowDeclared(n, p);
    }
  }

  /** Both variables of equal-split-flow row p are declared once. */
  lemma EqualSplitFlowRowDeclared(n: Counts, p: nat)
    requires p < |EqualSplitFlowRows(n)|
    ensures EqualSplitFlowRows(n)[p].Coupling?
    ensures DeclaredOnce(n, EqualSplitFlowRows(n)[p].flow) && DeclaredOnce(n, EqualSplitFlowRows(n)[p].split)
  {
    SectionLengths(n);
    PathOfPosition(n, p);
    var t := PathOf(n, p);
    EqualSplitFlowRowAt(n, t.0, t.1, t.2);
    FlowDeclaredOnce(n, t.0, t.1, t.2);
    SplitDeclaredOnce(n, t.0, t.1, t.2);
  }

  /** Both variables of every equal-split-flow row are declared once. */
  lemma EqualSplitFlowVarsDeclared(n: Counts)
    ensures forall r :: r in EqualSplitFlowRows(n) ==> r.Coupling? && DeclaredOnce(n, r.flow) && DeclaredOnce(n, r.split)
  {
    forall r | r in EqualSplitFlowRows(n)
      ensures r.Coupling? && DeclaredOnce(n, r.flow) && DeclaredOnce(n, r.split)
    {
      var p :| 0 <= p < |EqualSplitFlowRows(n)| && EqualSplitFlowRows(n)[p] == r;
      EqualSplitFlowRowDeclared(n, p);
    }
  }

  /** Every term of balance-load row k (1-based) is the flow of a path through k. */
  lemma LoadTermsArePathFlows(n: Counts, k: nat)
    requires 1 <= k <= n.y
    ensures forall v :: v in BalanceLoadRows(n)[k - 1].terms ==> IsPathFlow(n, v) && v.k == k
  {
    FlattenLength(LoadBlocks(n, k), n.z);
    var terms := BalanceLoadRows(n)[k - 1].terms;
    forall v | v in terms
      ensures IsPathFlow(n, v) && v.k == k
    {
      var q :| 0 <= q < n.x * n.z && terms[q] == v;
      PairOfPosition(q, n.x, n.z);
      var i, j := q / n.z + 1, q % n.z + 1;
      assert (i - 1) * n.z + (j - 1) == q;
      BalanceLoadRowAt(n, k, i, j);
    }
  }

  /** The flows of balance-load row k (1-based) are declared once, and so is its bound r. */
  lemma BalanceLoadRowDeclared(n: Counts, k: nat)
    requires 1 <= k <= n.y
    ensures BalanceLoadRows(n)[k - 1].SumAtMost? && BalanceLoadRows(n)[k - 1].bound == MaxLoad
    ensures DeclaredOnce(n, MaxLoad)
    ensures forall v :: v in BalanceLoadRows(n)[k - 1].terms ==> DeclaredOnce(n, v)
  {
    MaxLoadDeclaredOnce(n);
    LoadTermsArePathFlows(n, k);
    FlowsDeclared(n, BalanceLoadRows(n)[k - 1].terms);
  }

  /** Every flow in a balance-load row, and its bound r, is declared once. */
  lemma BalanceLoadVarsDeclared(n: Counts)
    ensures forall r :: r in BalanceLoadRows(n) ==>
      r.SumAtMost? && r.bound == MaxLoad && DeclaredOnce(n, r.bound) && forall v :: v in r.terms ==> DeclaredOnce(n, v)
  {
    forall r | r in BalanceLoadRows(n)
      ensures r.SumAtMost? && r.bound == MaxLoad && DeclaredOnce(n, r.bound) && forall v :: v in r.terms ==> DeclaredOnce(n, v)
    {
      var k0 :| 0 <= k0 < |BalanceLoadRows(n)| && BalanceLoadRows(n)[k0] == r;
      BalanceLoadRowDeclared(n, k0 + 1);
    }
  }
}
