/**
 * What the rows of each section say: how many there are, in which order they
 * come, which terms they hold, and how their text is laid out.
 */
module LpProperties {
  import opened Decimal
  import opened Blocks
  import opened LpRows

  // ---- separators ----

  lemma {:induction false} JoinSnoc(names: seq<string>, last: string, sep: string)
    requires |names| > 0
    ensures Join(names + [last], sep) == Join(names, sep) + sep + last
    decreases |names|
  {
    if |names| > 1 {
      JoinSnoc(names[1..], last, sep);
      assert (names + [last])[1..] == names[1..] + [last];
    } else {
      assert (names + [last])[1..] == [last];
    }
  }

  /** Before the last term of a sum is written, every term so far carries its " + ". */
  lemma {:induction false} OpenSumIsJoin(names: seq<string>)
    requires |names| > 0
    ensures OpenSum(names) == Join(names, " + ") + " + "
    decreases |names|
  {
    var m := |names| - 1;
    var init := names[..m];
    assert init + [names[m]] == names;
    if m == 0 {
      assert OpenSum(names) == "" + (names[0] + " + ");
    } else {
      OpenSumIsJoin(init);
      JoinSnoc(init, names[m], " + ");
    }
  }

  /**
   * The text the generators build term by term is the terms joined with
   * " + ": the separator follows every term but the last.
   */
  lemma SumTextIsJoin(names: seq<string>)
    ensures SumText(names) == Join(names, " + ")
  {
    var m := |names|;
    if m > 1 {
      var init, last := names[..m - 1], names[m - 1];
      assert init + [last] == names;
      calc {
        SumText(names);
        OpenSum(init) + last;
        { OpenSumIsJoin(init); }
        Join(init, " + ") + " + " + last;
        { JoinSnoc(init, last, " + "); }
        Join(init + [last], " + ");
      }
    } else if m == 1 {
      assert SumText(names) == "" + names[0];
    }
  }

  /** The text of a summation row: its terms joined by " + ", then what follows the sum. */
  lemma SumRowText(row: Row)
    requires row.SumEquals? || row.SumAtMost?
    ensures row.SumEquals? ==> Render(row) == Join(Names(row.terms), " + ") + " = " + NatToString(row.rhs)
    ensures row.SumAtMost? && row.bound == MaxLoad ==> Render(row) == Join(Names(row.terms), " + ") + " -r <= 0"
    ensures row.SumAtMost? && row.bound != MaxLoad
            ==> Render(row) == Join(Names(row.terms), " + ") + " - " + VarName(row.bound) + " <= 0"
  {
    var sum := Join(Names(row.terms), " + ");
    SumTextIsJoin(Names(row.terms));
    if row.SumAtMost? && row.bound == MaxLoad {
      assert Render(row) == sum + " -" + "r" + " <= 0";
      assert sum + " -" + "r" + " <= 0" == sum + (" -" + "r" + " <= 0");
    }
  }

  // ---- section lengths ----

  lemma EqualSplitFlowSourcesUniform(n: Counts)
    ensures Uniform(EqualSplitFlowSources(n), n.y * n.z)
  {
    forall q | 0 <= q < n.x
      ensures |EqualSplitFlowSources(n)[q]| == n.y * n.z
    {
      FlattenLength(EqualSplitFlowBlocks(n, q + 1), n.z);
    }
  }

  lemma BoundSourcesUniform(n: Counts)
    ensures Uniform(BoundSources(n), n.y * n.z)
  {
    forall q | 0 <= q < n.x
      ensures |BoundSources(n)[q]| == n.y * n.z
    {
      FlattenLength(BoundBlocks(n, q + 1), n.z);
    }
  }

  lemma BinarySourcesUniform(n: Counts)
    ensures Uniform(BinarySources(n), n.y * n.z)
  {
    forall q | 0 <= q < n.x
      ensures |BinarySources(n)[q]| == n.y * n.z
    {
      FlattenLength(BinaryBlocks(n, q + 1), n.z);
    }
  }

  /**
   * One row per pair of loop indices in the two-level sections, one per path
   * in the three-level ones, one per transit node for the balance load, and
   * the bounds end with one more row for r.
   */
  lemma SectionLengths(n: Counts)
    ensures |DemandRows(n)| == n.x * n.z
    ensures |CapacityStRows(n)| == n.x * n.y
    ensures |CapacityTdRows(n)| == n.z * n.y
    ensures |SplitPathsRows(n)| == n.x * n.z
    ensures |EqualSplitFlowRows(n)| == n.x * (n.y * n.z)
    ensures |BalanceLoadRows(n)| == n.y
    ensures |BoundRows(n)| == n.x * (n.y * n.z) + 1
    ensures |BinaryRows(n)| == n.x * (n.y * n.z)
  {
    FlattenLength(DemandBlocks(n), n.z);
    FlattenLength(CapacityStBlocks(n), n.y);
    FlattenLength(CapacityTdBlocks(n), n.y);
    FlattenLength(SplitPathsBlocks(n), n.z);
    EqualSplitFlowSourcesUniform(n);
    FlattenLength(EqualSplitFlowSources(n), n.y * n.z);
    BoundSourcesUniform(n);
    FlattenLength(BoundSources(n), n.y * n.z);
    BinarySourcesUniform(n);
    FlattenLength(BinarySources(n), n.y * n.z);
  }

  // ---- two-index sections ----

  /** Demand rows come source by source, destination by destination; row (i, j) sums the flows over every transit. */
  lemma DemandRowAt(n: Counts, i: nat, j: nat)
    requires 1 <= i <= n.x && 1 <= j <= n.z
    ensures (i - 1) * n.z + (j - 1) < |DemandRows(n)|
    ensures DemandRows(n)[(i - 1) * n.z + (j - 1)] == DemandRow(n, i, j)
    ensures DemandRow(n, i, j).rhs == 2 * i + j && |DemandRow(n, i, j).terms| == n.y
    ensures forall k :: 0 <= k < n.y ==> DemandRow(n, i, j).terms[k] == Flow(i, k + 1, j)
  {
    FlattenAt(DemandBlocks(n), n.z, i - 1, j - 1);
  }

  /** Capacity rows of the first tier come source by source, transit by transit; row (i, k) sums over every destination. */
  lemma CapacityStRowAt(n: Counts, i: nat, k: nat)
    requires 1 <= i <= n.x && 1 <= k <= n.y
    ensures (i - 1) * n.y + (k - 1) < |CapacityStRows(n)|
    ensures CapacityStRows(n)[(i - 1) * n.y + (k - 1)] == CapacityStRow(n, i, k)
    ensures CapacityStRow(n, i, k).bound == CapSt(i, k) && |CapacityStRow(n, i, k).terms| == n.z
    ensures forall j :: 0 <= j < n.z ==> CapacityStRow(n, i, k).terms[j] == Flow(i, k, j + 1)
  {
    FlattenAt(CapacityStBlocks(n), n.y, i - 1, k - 1);
  }

  /** Capacity rows of the second tier come destination-major; row (k, j) sums over every source. */
  lemma CapacityTdRowAt(n: Counts, k: nat, j: nat)
    requires 1 <= k <= n.y && 1 <= j <= n.z
    ensures (j - 1) * n.y + (k - 1) < |CapacityTdRows(n)|
    ensures CapacityTdRows(n)[(j - 1) * n.y + (k - 1)] == CapacityTdRow(n, k, j)
    ensures CapacityTdRow(n, k, j).bound == CapTd(k, j) && |CapacityTdRow(n, k, j).terms| == n.x
    ensures forall i :: 0 <= i < n.x ==> CapacityTdRow(n, k, j).terms[i] == Flow(i + 1, k, j)
  {
    FlattenAt(CapacityTdBlocks(n), n.y, j - 1, k - 1);
  }

  /** Split-path rows come source by source, destination by destination; each asks for two paths. */
  lemma SplitPathsRowAt(n: Counts, i: nat, j: nat)
    requires 1 <= i <= n.x && 1 <= j <= n.z
    ensures (i - 1) * n.z + (j - 1) < |SplitPathsRows(n)|
    ensures SplitPathsRows(n)[(i - 1) * n.z + (j - 1)] == SplitPathsRow(n, i, j)
    ensures SplitPathsRow(n, i, j).rhs == 2 && |SplitPathsRow(n, i, j).terms| == n.y
    ensures forall k :: 0 <= k < n.y ==> SplitPathsRow(n, i, j).terms[k] == Split(i, k + 1, j)
  {
    FlattenAt(SplitPathsBlocks(n), n.z, i - 1, j - 1);
  }

  // ---- three-index sections ----

  /** The coupling row of path (i, k, j) sits where an i, k, j loop visits that path. */
  lemma EqualSplitFlowRowAt(n: Counts, i: nat, k: nat, j: nat)
    requires 1 <= i <= n.x && 1 <= k <= n.y && 1 <= j <= n.z
    ensures PathPosition(n, i, k, j) < |EqualSplitFlowRows(n)|
    ensures EqualSplitFlowRows(n)[PathPosition(n, i, k, j)] == Coupling(Flow(i, k, j), 2 * i + j, Split(i, k, j))
  {
    var blocks := EqualSplitFlowBlocks(n, i);
    assert blocks[k - 1][j - 1] == EqualSplitFlowRow(i, k, j);
    assert EqualSplitFlowSources(n)[i - 1] == Flatten(blocks);
    EqualSplitFlowSourcesUniform(n);
    FlattenAt2(EqualSplitFlowSources(n), blocks, n.y, n.z, i - 1, k - 1, j - 1, PathPosition(n, i, k, j));
  }

  /** Every flow is bounded below by zero, in i, k, j order. */
  lemma BoundRowAt(n: Counts, i: nat, k: nat, j: nat)
    requires 1 <= i <= n.x && 1 <= k <= n.y && 1 <= j <= n.z
    ensures PathPosition(n, i, k, j) < |BoundRows(n)| - 1
    ensures BoundRows(n)[PathPosition(n, i, k, j)] == NonNegative(Flow(i, k, j))
  {
    BoundSourcesUniform(n);
    FlattenAt2(BoundSources(n), BoundBlocks(n, i), n.y, n.z, i - 1, k - 1, j - 1, PathPosition(n, i, k, j));
  }

  /** The bounds section ends with the bound on r, written "0 <= r". */
  lemma LastBoundIsMaxLoad(n: Counts)
    ensures |BoundRows(n)| >= 1
    ensures BoundRows(n)[|BoundRows(n)| - 1] == NonNegative(MaxLoad)
    ensures Render(BoundRows(n)[|BoundRows(n)| - 1]) == "0 <= r"
  {
  }

  /** Every split indicator is declared binary, in i, k, j order. */
  lemma BinaryRowAt(n: Counts, i: nat, k: nat, j: nat)
    requires 1 <= i <= n.x && 1 <= k <= n.y && 1 <= j <= n.z
    ensures PathPosition(n, i, k, j) < |BinaryRows(n)|
    ensures BinaryRows(n)[PathPosition(n, i, k, j)] == BinaryVar(Split(i, k, j))
  {
    BinarySourcesUniform(n);
    FlattenAt2(BinarySources(n), BinaryBlocks(n, i), n.y, n.z, i - 1, k - 1, j - 1, PathPosition(n, i, k, j));
  }

  // ---- the balance-load section ----

  /**
   * Row k of the balance-load section holds every flow through transit k,
   * source-major, and is bounded by r.
   */
  lemma BalanceLoadRowAt(n: Counts, k: nat, i: nat, j: nat)
    requires 1 <= k <= n.y && 1 <= i <= n.x && 1 <= j <= n.z
    ensures BalanceLoadRows(n)[k - 1].SumAtMost? && BalanceLoadRows(n)[k - 1].bound == MaxLoad
    ensures |BalanceLoadRows(n)[k - 1].terms| == n.x * n.z
    ensures (i - 1) * n.z + (j - 1) < n.x * n.z
    ensures BalanceLoadRows(n)[k - 1].terms[(i - 1) * n.z + (j - 1)] == Flow(i, k, j)
  {
    FlattenAt(LoadBlocks(n, k), n.z, i - 1, j - 1);
  }

  /** The text of balance-load row k: all X * Z flows through k joined by " + ", then " -r <= 0". */
  lemma BalanceLoadRowText(n: Counts, k: nat)
    requires 1 <= k <= n.y
    ensures |BalanceLoadRows(n)[k - 1].terms| == n.x * n.z
    ensures Render(BalanceLoadRows(n)[k - 1]) == Join(Names(BalanceLoadRows(n)[k - 1].terms), " + ") + " -r <= 0"
  {
    FlattenLength(LoadBlocks(n, k), n.z);
    SumRowText(BalanceLoadRows(n)[k - 1]);
  }

  // ---- demand appears twice ----

  /**
   * The right-hand side of demand row (i, j) is the coefficient of u_ikj in
   * the equal-split-flow row of every transit k.
   */
  lemma DemandMatchesCoupling(n: Counts, i: nat, k: nat, j: nat)
    requires 1 <= i <= n.x && 1 <= k <= n.y && 1 <= j <= n.z
    ensures (i - 1) * n.z + (j - 1) < |DemandRows(n)|
    ensures PathPosition(n, i, k, j) < |EqualSplitFlowRows(n)|
    ensures DemandRows(n)[(i - 1) * n.z + (j - 1)].SumEquals?
    ensures EqualSplitFlowRows(n)[PathPosition(n, i, k, j)].Coupling?
    ensures DemandRows(n)[(i - 1) * n.z + (j - 1)].rhs == EqualSplitFlowRows(n)[PathPosition(n, i, k, j)].demand
  {
    DemandRowAt(n, i, j);
    EqualSplitFlowRowAt(n, i, k, j);
  }

  // ---- variable names ----

  /** Every index of the variable is a single digit. */
  predicate SmallIndices(v: Var) {
    match v
    case Flow(i, k, j) => i < 10 && k < 10 && j < 10
    case Split(i, k, j) => i < 10 && k < 10 && j < 10
    case CapSt(i, k) => i < 10 && k < 10
    case CapTd(k, j) => k < 10 && j < 10
    case MaxLoad => true
  }

  function DigitValue(c: char): nat
    requires IsDigit(c)
  {
    c as int - '0' as int
  }

  /** Reads back a variable name whose indices are single digits. */
  function ReadSmallName(s: string): Option<Var> {
    if s == "r" then Some(MaxLoad)
    else if |s| == 5 && s[1] == '_' && IsDigit(s[2]) && IsDigit(s[3]) && IsDigit(s[4]) then
      var a, b, c := DigitValue(s[2]), DigitValue(s[3]), DigitValue(s[4]);
      if s[0] == 'x' then Some(Flow(a, b, c))
      else if s[0] == 'u' then Some(Split(a, b, c))
      else None
    else if |s| == 4 && s[1] == '_' && IsDigit(s[2]) && IsDigit(s[3]) then
      var a, b := DigitValue(s[2]), DigitValue(s[3]);
      if s[0] == 'c' then Some(CapSt(a, b))
      else if s[0] == 'd' then Some(CapTd(a, b))
      else None
    else None
  }

  /** A single-digit index is written as its digit. */
  lemma SmallNatToString(n: nat)
    requires n < 10
    ensures NatToString(n) == [DigitChar(n)]
  {
  }

  /** With single-digit indices, the name of a variable gives the variable back. */
  lemma ReadSmallNameOfVarName(v: Var)
    requires SmallIndices(v)
    ensures ReadSmallName(VarName(v)) == Some(v)
  {
    match v
    case Flow(i, k, j) =>
      SmallNatToString(i); SmallNatToString(k); SmallNatToString(j);
    case Split(i, k, j) =>
      SmallNatToString(i); SmallNatToString(k); SmallNatToString(j);
    case CapSt(i, k) =>
      SmallNatToString(i); SmallNatToString(k);
    case CapTd(k, j) =>
      SmallNatToString(k); SmallNatToString(j);
    case MaxLoad =>
  }

  /** `ReadSmallName` recognises the name of a variable exactly when every index is below 10. */
  lemma ReadSmallNameExactly(v: Var)
    ensures ReadSmallName(VarName(v)).Some? <==> SmallIndices(v)
  {
    if SmallIndices(v) {
      ReadSmallNameOfVarName(v);
    } else {
      match v
      case Flow(i, k, j) =>
        NatToStringLength(i); NatToStringLength(k); NatToStringLength(j);
      case Split(i, k, j) =>
        NatToStringLength(i); NatToStringLength(k); NatToStringLength(j);
      case CapSt(i, k) =>
        NatToStringLength(i); NatToStringLength(k);
      case CapTd(k, j) =>
        NatToStringLength(k); NatToStringLength(j);
    }
  }

  /** While every index is below 10, distinct variables have distinct names. */
  lemma VarNameInjective(v: Var, w: Var)
    requires SmallIndices(v) && SmallIndices(w)
    requires VarName(v) == VarName(w)
    ensures v == w
  {
    ReadSmallNameOfVarName(v);
    ReadSmallNameOfVarName(w);
  }

  /** From 11 nodes on, two distinct paths get the same name: x_1111 is both (1, 11, 1) and (11, 1, 1). */
  lemma AmbiguousVarNames()
    ensures Flow(1, 11, 1) != Flow(11, 1, 1)
    ensures VarName(Flow(1, 11, 1)) == VarName(Flow(11, 1, 1)) == "x_1111"
  {
    SmallNatToString(1);
    assert NatToString(11) == NatToString(1) + [DigitChar(1)] == "11";
  }

  // ---- the file name ----

  /** How many digits the text starts with. */
  function LeadingDigits(s: string): nat {
    if s != [] && IsDigit(s[0]) then 1 + LeadingDigits(s[1..]) else 0
  }

  lemma {:induction false} LeadingDigitsBeforeMark(p: string, c: char, q: string)
    requires AllDigits(p) && !IsDigit(c)
    ensures LeadingDigits(p + [c] + q) == |p|
    decreases |p|
  {
    var s := p + [c] + q;
    if p == [] {
      assert s[0] == c;
    } else {
      assert s[0] == p[0];
      assert s[1..] == p[1..] + [c] + q;
      LeadingDigitsBeforeMark(p[1..], c, q);
    }
  }

  /** A run of digits ends at the first non-digit, so text split there splits the same way every time. */
  lemma DigitsThenMark(p: string, q: string, p2: string, q2: string, c: char)
    requires AllDigits(p) && AllDigits(p2) && !IsDigit(c)
    requires p + [c] + q == p2 + [c] + q2
    ensures p == p2 && q == q2
  {
    var s := p + [c] + q;
    LeadingDigitsBeforeMark(p, c, q);
    LeadingDigitsBeforeMark(p2, c, q2);
    assert p == s[..|p|] == p2;
    assert q == s[|p| + 1..] == q2;
  }

  /** The text after the "X" of a file name: the digits of X, then "_", then the rest. */
  lemma FileNameAfterX(x: int, y: int, z: int)
    requires x > 0 && y > 0 && z > 0
    ensures FileName(x, y, z)[1..] == NatToString(x) + ['_'] + ("Y" + NatToString(y) + ['_'] + ("Z" + NatToString(z) + ".lp"))
  {
    var a, b, c := NatToString(x), NatToString(y), NatToString(z);
    assert FileName(x, y, z) == "X" + a + "_Y" + b + "_Z" + c + ".lp";
    assert FileName(x, y, z) == "X" + (a + ['_'] + ("Y" + b + ['_'] + ("Z" + c + ".lp")));
  }

  /** The part of a file name after the digits of X and their "_" gives back Y's digits and Z's digits. */
  lemma NameRestInjective(b: string, c: string, b2: string, c2: string)
    requires AllDigits(b) && AllDigits(b2)
    requires "Y" + b + ['_'] + ("Z" + c + ".lp") == "Y" + b2 + ['_'] + ("Z" + c2 + ".lp")
    ensures b == b2 && c == c2
  {
    var rest, rest2 := "Y" + b + ['_'] + ("Z" + c + ".lp"), "Y" + b2 + ['_'] + ("Z" + c2 + ".lp");
    assert rest[1..] == b + ['_'] + ("Z" + c + ".lp");
    assert rest2[1..] == b2 + ['_'] + ("Z" + c2 + ".lp");
    DigitsThenMark(b, "Z" + c + ".lp", b2, "Z" + c2 + ".lp", '_');
    var tail, tail2 := "Z" + c + ".lp", "Z" + c2 + ".lp";
    assert c == tail[1..|tail| - 3];
    assert c2 == tail2[1..|tail2| - 3];
  }

  /** For positive counts the file name determines the counts: distinct runs write distinct files. */
  lemma FileNameInjective(x: int, y: int, z: int, x2: int, y2: int, z2: int)
    requires x > 0 && y > 0 && z > 0 && x2 > 0 && y2 > 0 && z2 > 0
    requires FileName(x, y, z) == FileName(x2, y2, z2)
    ensures x == x2 && y == y2 && z == z2
  {
    var a, b, c := NatToString(x), NatToString(y), NatToString(z);
    var a2, b2, c2 := NatToString(x2), NatToString(y2), NatToString(z2);
    NatToStringDigits(x);
    NatToStringDigits(y);
    NatToStringDigits(x2);
    NatToStringDigits(y2);
    FileNameAfterX(x, y, z);
    FileNameAfterX(x2, y2, z2);
    DigitsThenMark(a, "Y" + b + ['_'] + ("Z" + c + ".lp"), a2, "Y" + b2 + ['_'] + ("Z" + c2 + ".lp"), '_');
    NameRestInjective(b, c, b2, c2);
    NatToStringInjective(x, x2);
    NatToStringInjective(y, y2);
    NatToStringInjective(z, z2);
  }
}
