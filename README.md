# LP file generator for a three-tier flow network, in Dafny

The program reads three node counts: X sources, Y transit nodes and Z
destinations. From them it writes a mixed-integer program in CPLEX LP format.
The program minimises `r`, the largest load on any transit node, subject to
eight sections of rows:

- **demand_flow**: the flows `x_ikj` of source i to destination j, summed over every
  transit, equal the demand `2i + j`.
- **capacity_st**: each source-to-transit link carries at most `c_ik`.
- **capacity_td**: each transit-to-destination link carries at most `d_kj`.
- **split_paths**: exactly two paths `u_ikj` are chosen per pair (i, j).
- **equal_split_flow**: a chosen path carries half the demand, `2 x_ikj - (2i + j) u_ikj = 0`.
- **transit_node_balance_load**: everything through transit k, minus `r`, is at most 0.
- **Bounds**: every flow and `r` are non-negative.
- **Binary**: every `u_ikj` is binary.

The model has four parts:

- `Decimal`: Python's `str` on integers, with a reading-back function and its
  round trip.
- `Blocks` and `IndexArith`: flattening of nested loop output, and loop positions.
- `LpRows`: the rows as values and their text.
  - A `Var` datatype with 1-based indices.
  - A `Row` datatype and `Render`.
  - Each section as a closed-form sequence, in the order the nested loops visit
    it.
  - The document, the file name, and the check of the three counts.
- `LpProperties`: what the sections say.
  - Row counts and the position of every row.
  - The terms of every row.
  - The `" + "` separator placement, as a join.
  - The demand shared by two sections.
  - Variable names, read back while every index is a single digit.
  - A file name that determines its counts.
- `LpDeclarations`: what the Bounds and Binary sections declare.
  - Each flow `x_ikj` and `r` is bounded exactly once and is not binary.
  - Each `u_ikj` is declared binary exactly once and is not bounded.
  - Every variable of every constraint row is declared this way, except the
    capacity variables `c_ik` and `d_kj`, which are declared nowhere.
- `GenerateLpFile`: the program as it runs.
  - The class `LpGenerator` holds the counts, the eight lists and the output text.
  - Each generator is a method with the source's nested loops. It appends to its
    list and builds every row string term by term.
  - Each generator is proved to append exactly the rendered rows of its section.
  - `GenerateLpFile` grows the output text section by section.
  - `RunGenerator` is `main`. It produces a file exactly when all three counts
    are positive, and then its name and text are those of the counts.

The model follows the code's section headers as written:

- only the first header follows a space, the one that ends the objective prefix;
- every later header starts at column 0;
- the six constraint headers end in `": \n"`, with a space before the newline;
- `Bounds` and `Binary` end in a bare newline.

The balance-load row ends in `" -r <= 0"`, with no space after the minus sign. The
capacity rows end in `" - c_ik <= 0"` and `" - d_kj <= 0"`.

`c_ik` and `d_kj` get no bounds and no declaration, exactly as the program writes them.

## Model

| member | source | states |
|---|---|---|
| Decimal.NatToStringDigits | generate_lp_file.py:181 | `str` of an index writes decimal digits only, with no leading zero unless the value is 0 |
| Decimal.DecimalValueOfNatToString | generate_lp_file.py:181 | reading the written digits back gives the number (round trip of `str`) |
| Decimal.NatToStringInjective | generate_lp_file.py:181 | distinct numbers are written as distinct texts |
| Decimal.NatToStringLength | generate_lp_file.py:181 | a number is written with one character exactly when it is below 10 |
| Decimal.IntToString | generate_lp_file.py:162 | `str` of an integer: a non-negative value is written as digits that read back as the value; a negative one as `-` followed by digits that read back as its absolute value |
| Decimal.IntToStringInjective | generate_lp_file.py:162 | distinct integers, of either sign, are written as distinct texts |
| LpRows.CheckNodeCounts | generate_lp_file.py:41-85 | the counts are accepted exactly when all three are positive; otherwise the first non-positive one in the order X, Y, Z is reported, each rejection case stated as an if-and-only-if |
| LpProperties.SumTextIsJoin | generate_lp_file.py:180-183 | the text a row builds term by term, with `" + "` added after every term except the last, is the terms joined by `" + "` |
| LpProperties.OpenSumIsJoin | generate_lp_file.py:180-181 | before the last term is written, every term so far is followed by `" + "` |
| LpProperties.SumRowText | generate_lp_file.py:180-207 | a summation row is its terms joined by `" + "`, then `" = rhs"`, `" -r <= 0"` or `" - c_ik <= 0"` / `" - d_kj <= 0"` |
| LpProperties.SectionLengths | generate_lp_file.py:172-335 | demand X·Z rows, capacity_st X·Y, capacity_td Z·Y, split_paths X·Z, equal_split_flow X·Y·Z, balance load Y, bounds X·Y·Z + 1, binaries X·Y·Z |
| LpProperties.DemandRowAt | generate_lp_file.py:177-186 | demand row (i, j) sits at position (i-1)·Z + (j-1), has right-hand side 2i + j, and sums exactly the Y flows x_i1j … x_iYj in transit order |
| LpProperties.CapacityStRowAt | generate_lp_file.py:199-208 | capacity_st row (i, k) sits at (i-1)·Y + (k-1), sums the Z flows x_ik1 … x_ikZ and is bounded by c_ik |
| LpProperties.CapacityTdRowAt | generate_lp_file.py:221-230 | capacity_td is destination-major: row (k, j) sits at (j-1)·Y + (k-1), sums the X flows x_1kj … x_Xkj and is bounded by d_kj |
| LpProperties.SplitPathsRowAt | generate_lp_file.py:243-252 | split_paths row (i, j) sits at (i-1)·Z + (j-1), sums the Y indicators u_i1j … u_iYj and equals 2 |
| LpProperties.EqualSplitFlowRowAt | generate_lp_file.py:265-272 | the row of path (i, k, j) sits at its i, k, j loop position and is `2 x_ikj - (2i+j) u_ikj = 0` |
| LpProperties.BalanceLoadRowAt | generate_lp_file.py:284-294 | balance-load row k is bounded by r and holds the X·Z flows through k, source-major, x_ikj at position (i-1)·Z + (j-1) |
| LpProperties.BalanceLoadRowText | generate_lp_file.py:284-296 | the text of balance-load row k is its X·Z flows joined by `" + "`, then `" -r <= 0"` |
| LpProperties.BoundRowAt | generate_lp_file.py:309-315 | the bound `0 <= x_ikj` of every path sits at its i, k, j loop position, before the last bound |
| LpProperties.LastBoundIsMaxLoad | generate_lp_file.py:317 | the bounds section ends with the bound on r, written `"0 <= r"` |
| LpProperties.BinaryRowAt | generate_lp_file.py:329-335 | the declaration of every `u_ikj` sits at its i, k, j loop position |
| LpProperties.DemandMatchesCoupling | generate_lp_file.py:185-268 | for every transit k, the right-hand side of demand row (i, j) equals the coefficient of u_ikj in the equal_split_flow row of (i, k, j) |
| LpProperties.ReadSmallNameOfVarName | generate_lp_file.py:181 | while every index is below 10, the name `x_ikj`, `u_ikj`, `c_ik`, `d_kj` or `r` reads back as the variable it names |
| LpProperties.ReadSmallNameExactly | generate_lp_file.py:181 | the one-digit reader accepts the name of a variable exactly when every index is below 10: an index of 10 or more writes more than one digit |
| LpProperties.VarNameInjective | generate_lp_file.py:181 | while every index is below 10, distinct variables get distinct names |
| LpProperties.AmbiguousVarNames | generate_lp_file.py:181 | with indices of two digits, the paths (1, 11, 1) and (11, 1, 1) are both named `x_1111` |
| LpDeclarations.BoundRowsShape | generate_lp_file.py:304-317 | the bounds section holds bounds on flows only, then the bound on r as its last line |
| LpDeclarations.BinaryRowsShape | generate_lp_file.py:324-335 | the binary section holds split indicators only |
| LpDeclarations.FlowDeclaredOnce | generate_lp_file.py:309-315 | every flow x_ikj has exactly one `0 <= x_ikj` line and no binary line |
| LpDeclarations.SplitDeclaredOnce | generate_lp_file.py:329-335 | every indicator u_ikj has exactly one binary line and no bound |
| LpDeclarations.MaxLoadDeclaredOnce | generate_lp_file.py:317 | r has exactly one bound, `0 <= r`, and no binary line |
| LpDeclarations.CapacitiesUndeclared | generate_lp_file.py:304-335 | no `c_ik` and no `d_kj` has a bound or a binary line, whatever its indices |
| LpDeclarations.DemandVarsDeclared | generate_lp_file.py:177-186 | every flow in every demand row is declared exactly once, in exactly one of the two sections |
| LpDeclarations.CapacityStVarsDeclared | generate_lp_file.py:199-208 | every flow in every capacity_st row is declared exactly once; the row's bound `c_ik` is declared nowhere |
| LpDeclarations.CapacityTdVarsDeclared | generate_lp_file.py:221-230 | every flow in every capacity_td row is declared exactly once; the row's bound `d_kj` is declared nowhere |
| LpDeclarations.SplitPathsVarsDeclared | generate_lp_file.py:243-252 | every indicator in every split_paths row is declared exactly once |
| LpDeclarations.EqualSplitFlowVarsDeclared | generate_lp_file.py:265-272 | the flow and the indicator of every equal_split_flow row are each declared exactly once |
| LpDeclarations.BalanceLoadVarsDeclared | generate_lp_file.py:284-294 | every flow in every balance-load row, and its bound r, is declared exactly once |
| LpProperties.FileNameInjective | generate_lp_file.py:162 | for positive counts the file name determines X, Y and Z: two runs with different counts write different files |
| GenerateLpFile.LpGenerator.constructor | generate_lp_file.py:19-35 | the lists start empty and the output text starts as the objective prefix |
| GenerateLpFile.LpGenerator.InputNodeNumber | generate_lp_file.py:41-85 | returns true exactly when the counts pass the X, Y, Z check; X is always stored, Y only if X passed, and Z only if X and Y passed |
| GenerateLpFile.LpGenerator.PrepareConstraints | generate_lp_file.py:91-115 | each of the eight lists gains exactly the rendered rows of its section for the current counts |
| GenerateLpFile.LpGenerator.GenerateLpFile | generate_lp_file.py:121-166 | the output text gains each header followed by its rows, one per line after a space, in the fixed section order, then "End"; the file is named X‹X›_Y‹Y›_Z‹Z›.lp and holds the output text |
| GenerateLpFile.LpGenerator.AppendSection | generate_lp_file.py:125-127 | the output text gains the header, then every row as `" " + row + "\n"` in list order |
| GenerateLpFile.LpGenerator.CreateDemandConstraints | generate_lp_file.py:172-187 | the demand list gains exactly the rendered demand rows, in i, j order |
| GenerateLpFile.LpGenerator.DemandRowText | generate_lp_file.py:179-185 | the row string built term by term is the rendered demand row (i+1, j+1) |
| GenerateLpFile.LpGenerator.CreateCapacityConstraintsSt | generate_lp_file.py:194-209 | the capacity_st list gains exactly the rendered rows, in i, k order |
| GenerateLpFile.LpGenerator.CapacityStRowText | generate_lp_file.py:201-207 | the row string built term by term is the rendered capacity_st row (i+1, k+1) |
| GenerateLpFile.LpGenerator.CreateCapacityConstraintsTd | generate_lp_file.py:216-231 | the capacity_td list gains exactly the rendered rows, in j, k order |
| GenerateLpFile.LpGenerator.CapacityTdRowText | generate_lp_file.py:223-229 | the row string built term by term is the rendered capacity_td row (k+1, j+1) |
| GenerateLpFile.LpGenerator.CreateSplitPathsConstraints | generate_lp_file.py:238-253 | the split_paths list gains exactly the rendered rows, in i, j order |
| GenerateLpFile.LpGenerator.SplitPathsRowText | generate_lp_file.py:245-251 | the row string built term by term is the rendered split_paths row (i+1, j+1) |
| GenerateLpFile.LpGenerator.CreateEqualSplitFlowConstraints | generate_lp_file.py:260-272 | the equal_split_flow list gains exactly the rendered rows, in i, k, j order |
| GenerateLpFile.LpGenerator.EqualSplitFlowOfSource | generate_lp_file.py:266-272 | the list gains the rows of source i+1, transit by transit, destination by destination |
| GenerateLpFile.LpGenerator.EqualSplitFlowRowText | generate_lp_file.py:268-269 | the string the source assembles is the rendered coupling row of path (i+1, k+1, j+1) |
| GenerateLpFile.LpGenerator.CreateBalanceLoadConstraints | generate_lp_file.py:279-297 | the balance-load list gains exactly one rendered row per transit, in k order |
| GenerateLpFile.LpGenerator.BalanceLoadRowText | generate_lp_file.py:285-295 | the string built over all sources and destinations is the rendered balance-load row of transit k+1 |
| GenerateLpFile.LpGenerator.LoadTermsOfSource | generate_lp_file.py:286-293 | the flows of one more source are appended, the last flow of the row without `" + "` |
| GenerateLpFile.LoadTextIsOpenSum | generate_lp_file.py:285-293 | at every step of the two loops before the last flow of the row, the text is the flows visited so far, in visiting order, each followed by `" + "` |
| GenerateLpFile.LoadTextComplete | generate_lp_file.py:284-294 | once every source is done, the text is all flows through the transit joined term by term |
| GenerateLpFile.LpGenerator.CreateBounds | generate_lp_file.py:304-317 | the bounds list gains `0 <= x_ikj` for every path in i, k, j order, then `0 <= r` |
| GenerateLpFile.LpGenerator.BoundsOfSource | generate_lp_file.py:310-315 | the bounds list gains the bounds of the flows of source i+1 |
| GenerateLpFile.LpGenerator.BoundRowText | generate_lp_file.py:312 | the bound string is the rendered bound on x_(i+1)(k+1)(j+1) |
| GenerateLpFile.LpGenerator.CreateBinary | generate_lp_file.py:324-335 | the binaries list gains `u_ikj` for every path in i, k, j order |
| GenerateLpFile.LpGenerator.BinariesOfSource | generate_lp_file.py:330-335 | the binaries list gains the indicators of source i+1 |
| GenerateLpFile.LpGenerator.BinaryRowText | generate_lp_file.py:332 | the binary string is the rendered name u_(i+1)(k+1)(j+1) |
| GenerateLpFile.DocumentOf | generate_lp_file.py:121-157 | the output of a run that started from empty lists is the document of its counts |
| GenerateLpFile.RunGenerator | generate_lp_file.py:344-360 | a file is produced exactly when X, Y and Z are all positive, and then it is named after the counts and holds the whole document for them |

## Left out

- Prompting with `input()` and parsing with `int()`, including the `ValueError` branches, are console input. `InputNodeNumber` and `RunGenerator` take the three counts already parsed.
- The `print` calls and the opening, writing and closing of the file are output. `GenerateLpFile` returns the file name and contents instead of writing them.
- Running the generators or the assembler more than once in one process is not modelled as a whole run. The lists and the output text are never cleared. Every method is stated relative to the lists it starts from, but `RunGenerator` models one run from a fresh generator.
- The Python globals X, Y and Z start as `None`. The model starts them at 0, because no run reads them before they are assigned.
- Variable names are proved distinct only while every index is below 10 (`LpProperties.VarNameInjective`), because indices are concatenated with no separator. From two-digit indices on, two paths can share a name (`LpProperties.AmbiguousVarNames`). The model keeps the names as written.
- `LpDeclarations` counts declarations per variable, not per name. With two-digit indices, two distinct bound lines can have the same text.
- The capacity variables `c_ik` and `d_kj` occur in the capacity rows but have no bound and no binary line. The model keeps this as written (`LpDeclarations.CapacitiesUndeclared`). So "every variable of a constraint row is declared once" holds for `x`, `u` and `r` only.
- The meaning of the optimisation model, such as its feasibility or its optimum, is not modelled. Nothing is solved.
- Some inner loops are methods of their own: the term loop of each summation row (`DemandRowText` and the others), the per-source middle loop of the three-level sections (`EqualSplitFlowOfSource`, `BoundsOfSource`, `BinariesOfSource`, `LoadTermsOfSource`), and the eight assembler loops (`AppendSection`). Each runs the same iterations in the same order and builds the same strings.
