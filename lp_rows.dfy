/**
 * What the LP generator writes, as values: the variables of the three-tier flow
 * model, the rows of each section (in the order the generator's nested loops
 * visit them), their text, and the whole LP document.
 *
 * Indices inside a `Var` are 1-based, as they are printed.  Each section is a
 * closed-form sequence indexed by the position of a row, so that the order of
 * the rows is part of the definition and not of a loop.
 */
module LpRows {
  import opened Decimal
  import opened Blocks

  datatype Option<T> = None | Some(value: T)

  /** The node counts: X sources, Y transits, Z destinations. */
  datatype Counts = Counts(x: nat, y: nat, z: nat)

  /** How many times `for _ in range(n)` runs. */
  function RangeLength(n: int): nat {
    if n < 0 then 0 else n
  }

  function CountsOf(x: int, y: int, z: int): Counts {
    Counts(RangeLength(x), RangeLength(y), RangeLength(z))
  }

  /** A decision variable of the model, with its 1-based indices. */
  datatype Var =
    | Flow(i: nat, k: nat, j: nat)     // x_ikj: flow on path source i -> transit k -> destination j
    | Split(i: nat, k: nat, j: nat)    // u_ikj: the path carries half of the (i,j) demand
    | CapSt(i: nat, k: nat)            // c_ik: capacity of link source i -> transit k
    | CapTd(k: nat, j: nat)            // d_kj: capacity of link transit k -> destination j
    | MaxLoad                          // r: the largest transit load, the objective

  /** Indices are written one after the other, with no separator. */
  function VarName(v: Var): string {
    match v
    case Flow(i, k, j) => "x_" + NatToString(i) + NatToString(k) + NatToString(j)
    case Split(i, k, j) => "u_" + NatToString(i) + NatToString(k) + NatToString(j)
    case CapSt(i, k) => "c_" + NatToString(i) + NatToString(k)
    case CapTd(k, j) => "d_" + NatToString(k) + NatToString(j)
    case MaxLoad => "r"
  }

  function Names(vs: seq<Var>): (names: seq<string>)
    ensures |names| == |vs|
  {
    seq(|vs|, t requires 0 <= t < |vs| => VarName(vs[t]))
  }

  /** One line of a section: a constraint, a bound or a binary declaration. */
  datatype Row =
    | SumEquals(terms: seq<Var>, rhs: nat)          // t1 + ... + tn = rhs
    | SumAtMost(terms: seq<Var>, bound: Var)         // t1 + ... + tn - bound <= 0
    | Coupling(flow: Var, demand: nat, split: Var)   // 2 flow - demand split = 0
    | NonNegative(v: Var)                            // 0 <= v
    | BinaryVar(v: Var)                              // v

  /** Each term followed by " + ": the text of a sum before its last term is written. */
  function OpenSum(names: seq<string>): string {
    if names == [] then "" else OpenSum(names[..|names| - 1]) + (names[|names| - 1] + " + ")
  }

  /** The terms of a sum as the generator writes them: " + " after every term but the last. */
  function SumText(names: seq<string>): string {
    if names == [] then "" else OpenSum(names[..|names| - 1]) + names[|names| - 1]
  }

  /** The usual join of strings with a separator, as Python's `sep.join(names)`. */
  function Join(names: seq<string>, sep: string): string {
    if |names| == 0 then ""
    else if |names| == 1 then names[0]
    else names[0] + sep + Join(names[1..], sep)
  }

  function Render(row: Row): string {
    match row
    case SumEquals(ts, rhs) => SumText(Names(ts)) + " = " + NatToString(rhs)
    // The source writes " -r" for the objective variable and " - c_ik", " - d_kj" otherwise.
    case SumAtMost(ts, b) => SumText(Names(ts)) + (if b == MaxLoad then " -" else " - ") + VarName(b) + " <= 0"
    case Coupling(f, d, u) => "2 " + VarName(f) + " - " + NatToString(d) + " " + VarName(u) + " = 0"
    case NonNegative(v) => "0 <= " + VarName(v)
    case BinaryVar(v) => VarName(v)
  }

  function Rendered(rows: seq<Row>): (lines: seq<string>)
    ensures |lines| == |rows|
  {
    seq(|rows|, t requires 0 <= t < |rows| => Render(rows[t]))
  }

  /** The demand of source i towards destination j (1-based). */
  function Demand(i: nat, j: nat): nat {
    2 * i + j
  }

  /** Where path (i, k, j) (1-based) is visited by a loop over i, then k, then j. */
  function PathPosition(n: Counts, i: nat, k: nat, j: nat): nat
    requires 1 <= i && 1 <= k && 1 <= j
  {
    ((i - 1) * n.y + (k - 1)) * n.z + (j - 1)
  }

  // ---- the rows of each section, in the order the generator visits them ----
  //
  // A section with two loop levels is the flattening of the blocks its inner
  // loop emits; a section with three levels flattens, per source, the blocks
  // of each transit.  Loop indices are 0-based, printed indices 1-based.

  function DemandRow(n: Counts, i: nat, j: nat): Row {
    SumEquals(seq(n.y, k requires 0 <= k < n.y => Flow(i, k + 1, j)), Demand(i, j))
  }

  /** One block per source, one row per destination in it. */
  function DemandBlocks(n: Counts): seq<seq<Row>> {
    seq(n.x, i requires 0 <= i < n.x => seq(n.z, j requires 0 <= j < n.z => DemandRow(n, i + 1, j + 1)))
  }

  function DemandRows(n: Counts): seq<Row> {
    Flatten(DemandBlocks(n))
  }

  function CapacityStRow(n: Counts, i: nat, k: nat): Row {
    SumAtMost(seq(n.z, j requires 0 <= j < n.z => Flow(i, k, j + 1)), CapSt(i, k))
  }

  /** One block per source, one row per transit in it. */
  function CapacityStBlocks(n: Counts): seq<seq<Row>> {
    seq(n.x, i requires 0 <= i < n.x => seq(n.y, k requires 0 <= k < n.y => CapacityStRow(n, i + 1, k + 1)))
  }

  function CapacityStRows(n: Counts): seq<Row> {
    Flatten(CapacityStBlocks(n))
  }

  function CapacityTdRow(n: Counts, k: nat, j: nat): Row {
    SumAtMost(seq(n.x, i requires 0 <= i < n.x => Flow(i + 1, k, j)), CapTd(k, j))
  }

  /** Destination-major: one block per destination, one row per transit in it. */
  function CapacityTdBlocks(n: Counts): seq<seq<Row>> {
    seq(n.z, j requires 0 <= j < n.z => seq(n.y, k requires 0 <= k < n.y => CapacityTdRow(n, k + 1, j + 1)))
  }

  function CapacityTdRows(n: Counts): seq<Row> {
    Flatten(CapacityTdBlocks(n))
  }

  function SplitPathsRow(n: Counts, i: nat, j: nat): Row {
    SumEquals(seq(n.y, k requires 0 <= k < n.y => Split(i, k + 1, j)), 2)
  }

  /** One block per source, one row per destination in it. */
  function SplitPathsBlocks(n: Counts): seq<seq<Row>> {
    seq(n.x, i requires 0 <= i < n.x => seq(n.z, j requires 0 <= j < n.z => SplitPathsRow(n, i + 1, j + 1)))
  }

  function SplitPathsRows(n: Counts): seq<Row> {
    Flatten(SplitPathsBlocks(n))
  }

  /** 2 x_ikj - (2i + j) u_ikj = 0 */
  function EqualSplitFlowRow(i: nat, k: nat, j: nat): Row {
    Coupling(Flow(i, k, j), Demand(i, j), Split(i, k, j))
  }

  /** The rows of source i (1-based): one block per transit, one row per destination in it. */
  function EqualSplitFlowBlocks(n: Counts, i: nat): seq<seq<Row>> {
    seq(n.y, k requires 0 <= k < n.y => seq(n.z, j requires 0 <= j < n.z => EqualSplitFlowRow(i, k + 1, j + 1)))
  }

  /** One block per source: its transit blocks one after the other. */
  function EqualSplitFlowSources(n: Counts): seq<seq<Row>> {
    seq(n.x, i requires 0 <= i < n.x => Flatten(EqualSplitFlowBlocks(n, i + 1)))
  }

  function EqualSplitFlowRows(n: Counts): seq<Row> {
    Flatten(EqualSplitFlowSources(n))
  }

  /** The flows through transit k (1-based): one block per source, one flow per destination in it. */
  function LoadBlocks(n: Counts, k: nat): seq<seq<Var>> {
    seq(n.x, i requires 0 <= i < n.x => seq(n.z, j requires 0 <= j < n.z => Flow(i + 1, k, j + 1)))
  }

  function BalanceLoadRow(n: Counts, k: nat): Row {
    SumAtMost(Flatten(LoadBlocks(n, k)), MaxLoad)
  }

  /** One row per transit node. */
  function BalanceLoadRows(n: Counts): seq<Row> {
    seq(n.y, k requires 0 <= k < n.y => BalanceLoadRow(n, k + 1))
  }

  /** The bounds on the flows of source i (1-based), per transit, per destination. */
  function BoundBlocks(n: Counts, i: nat): seq<seq<Row>> {
    seq(n.y, k requires 0 <= k < n.y => seq(n.z, j requires 0 <= j < n.z => NonNegative(Flow(i, k + 1, j + 1))))
  }

  function BoundSources(n: Counts): seq<seq<Row>> {
    seq(n.x, i requires 0 <= i < n.x => Flatten(BoundBlocks(n, i + 1)))
  }

  /** Every flow is non-negative, and so is r, last. */
  function BoundRows(n: Counts): seq<Row> {
    Flatten(BoundSources(n)) + [NonNegative(MaxLoad)]
  }

  /** The split indicators of source i (1-based), per transit, per destination. */
  function BinaryBlocks(n: Counts, i: nat): seq<seq<Row>> {
    seq(n.y, k requires 0 <= k < n.y => seq(n.z, j requires 0 <= j < n.z => BinaryVar(Split(i, k + 1, j + 1))))
  }

  function BinarySources(n: Counts): seq<seq<Row>> {
    seq(n.x, i requires 0 <= i < n.x => Flatten(BinaryBlocks(n, i + 1)))
  }

  /** Every split indicator is binary. */
  function BinaryRows(n: Counts): seq<Row> {
    Flatten(BinarySources(n))
  }

  // ---- the document ----

  const ObjectivePrefix: string := "Minimize\n    r\nSubject to\n "

  /** Each row on a line of its own, after one space. */
  function Lines(rows: seq<string>): string {
    if rows == [] then ""
    else Lines(rows[..|rows| - 1]) + (" " + rows[|rows| - 1] + "\n")
  }

  /** A section: its header, then one line per row. */
  function SectionText(header: string, rows: seq<string>): string {
    header + Lines(rows)
  }

  /**
   * The part the assembler appends after the objective: each section header
   * followed by its rows, then the end marker.
   */
  function Sections(demand: seq<string>, capacitySt: seq<string>, capacityTd: seq<string>,
                    splitPaths: seq<string>, equalSplitFlow: seq<string>, balanceLoad: seq<string>,
                    bounds: seq<string>, binaries: seq<string>): string
  {
    SectionText("demand_flow: \n", demand)
    + SectionText("capacity_st: \n", capacitySt)
    + SectionText("capacity_td: \n", capacityTd)
    + SectionText("split_paths: \n", splitPaths)
    + SectionText("equal_split_flow: \n", equalSplitFlow)
    + SectionText("transit_node_balance_load: \n", balanceLoad)
    + SectionText("Bounds\n", bounds)
    + SectionText("Binary\n", binaries)
    + "End"
  }

  /** The whole LP document for the given node counts. */
  function Document(n: Counts): string {
    ObjectivePrefix + Sections(Rendered(DemandRows(n)), Rendered(CapacityStRows(n)),
                               Rendered(CapacityTdRows(n)), Rendered(SplitPathsRows(n)),
                               Rendered(EqualSplitFlowRows(n)), Rendered(BalanceLoadRows(n)),
                               Rendered(BoundRows(n)), Rendered(BinaryRows(n)))
  }

  function FileName(x: int, y: int, z: int): string {
    "X" + IntToString(x) + "_Y" + IntToString(y) + "_Z" + IntToString(z) + ".lp"
  }

  // ---- input validation ----

  /** Which of the three prompts was answered with a non-positive count. */
  datatype Tier = Sources | Transits | Destinations

  datatype Checked = Accepted(counts: Counts) | Rejected(tier: Tier)

  /** The counts are checked in the order X, Y, Z; the first non-positive one stops the check. */
  function CheckNodeCounts(x: int, y: int, z: int): (r: Checked)
    ensures r.Accepted? <==> x > 0 && y > 0 && z > 0
    ensures r.Accepted? ==> r.counts == Counts(x, y, z)
    ensures r == Rejected(Sources) <==> x <= 0
    ensures r == Rejected(Transits) <==> x > 0 && y <= 0
    ensures r == Rejected(Destinations) <==> x > 0 && y > 0 && z <= 0
  {
    if x <= 0 then Rejected(Sources)
    else if y <= 0 then Rejected(Transits)
    else if z <= 0 then Rejected(Destinations)
    else Accepted(Counts(x, y, z))
  }
}
