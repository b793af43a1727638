/**
 * The LP generator as the program runs it: the node counts and the eight
 * constraint lists are state that the generators append to, row text is built
 * term by term, and the document is grown section by section.  Each method is
 * proved to produce exactly the rows (in LpRows) that the model describes.
 */
module GenerateLpFile {
  import opened Decimal
  import opened Blocks
  import opened LpRows

  /** What is handed to the file system: a file name and its contents. */
  datatype LpFile = LpFile(name: string, text: string)

  class LpGenerator {
    // Number of nodes
    var X: int
    var Y: int
    var Z: int

    // Constraints
    var demandConstraints: seq<string>
    var capacityStConstraints: seq<string>
    var capacityTdConstraints: seq<string>
    var splitPathsConstraints: seq<string>
    var equalSplitFlowConstraints: seq<string>
    var balanceLoadConstraints: seq<string>
    var bounds: seq<string>
    var binaries: seq<string>

    // Output result string
    var outPutResult: string

    /** The state at start-up: empty lists and the objective already written. */
    ghost predicate Pristine()
      reads this
    {
      && demandConstraints == [] && capacityStConstraints == [] && capacityTdConstraints == []
      && splitPathsConstraints == [] && equalSplitFlowConstraints == [] && balanceLoadConstraints == []
      && bounds == [] && binaries == []
      && outPutResult == ObjectivePrefix
    }

    /** The node counts as loop bounds. */
    function Size(): Counts
      reads this`X, this`Y, this`Z
    {
      CountsOf(X, Y, Z)
    }

    /** The counts start unset; they are always assigned before they are read. */
    constructor ()
      ensures Pristine()
      ensures X == 0 && Y == 0 && Z == 0
    {
      X, Y, Z := 0, 0, 0;
      demandConstraints, capacityStConstraints, capacityTdConstraints := [], [], [];
      splitPathsConstraints, equalSplitFlowConstraints, balanceLoadConstraints := [], [], [];
      bounds, binaries := [], [];
      outPutResult := ObjectivePrefix;
    }

    /**
     * Reads X, then Y, then Z; each is stored as soon as it is read, and the
     * first one that is not positive ends the input with `false`.
     */
    method InputNodeNumber(x: int, y: int, z: int) returns (isInputCorrect: bool)
      modifies this`X, this`Y, this`Z
      ensures isInputCorrect <==> CheckNodeCounts(x, y, z).Accepted?
      ensures X == x
      ensures Y == if x > 0 then y else old(Y)
      ensures Z == if x > 0 && y > 0 then z else old(Z)
    {
      isInputCorrect := true;
      X := x;
      if X <= 0 {
        isInputCorrect := false;
        return;
      }
      Y := y;
      if Y <= 0 {
        isInputCorrect := false;
        return;
      }
      Z := z;
      if Z <= 0 {
        isInputCorrect := false;
        return;
      }
    }

    /** Runs the eight generators in order; each appends its section's rows. */
    method PrepareConstraints()
      modifies this`demandConstraints, this`capacityStConstraints, this`capacityTdConstraints,
               this`splitPathsConstraints, this`equalSplitFlowConstraints, this`balanceLoadConstraints,
               this`bounds, this`binaries
      ensures demandConstraints == old(demandConstraints) + Rendered(DemandRows(Size()))
      ensures capacityStConstraints == old(capacityStConstraints) + Rendered(CapacityStRows(Size()))
      ensures capacityTdConstraints == old(capacityTdConstraints) + Rendered(CapacityTdRows(Size()))
      ensures splitPathsConstraints == old(splitPathsConstraints) + Rendered(SplitPathsRows(Size()))
      ensures equalSplitFlowConstraints == old(equalSplitFlowConstraints) + Rendered(EqualSplitFlowRows(Size()))
      ensures balanceLoadConstraints == old(balanceLoadConstraints) + Rendered(BalanceLoadRows(Size()))
      ensures bounds == old(bounds) + Rendered(BoundRows(Size()))
      ensures binaries == old(binaries) + Rendered(BinaryRows(Size()))
    {
      ghost var n := Size();
      CreateDemandConstraints();
      CreateCapacityConstraintsSt();
      assert Size() == n;
      CreateCapacityConstraintsTd();
      assert Size() == n;
      CreateSplitPathsConstraints();
      assert Size() == n;
      CreateEqualSplitFlowConstraints();
      assert Size() == n;
      CreateBalanceLoadConstraints();
      assert Size() == n;
      CreateBounds();
      assert Size() == n;
      CreateBinary();
      assert Size() == n;
    }

    /**
     * Appends every section, under its header, to the output text and ends it
     * with "End"; the file is named after the three counts.
     */
    method GenerateLpFile() returns (file: LpFile)
      modifies this`outPutResult
      ensures outPutResult == old(outPutResult)
                              + Sections(demandConstraints, capacityStConstraints, capacityTdConstraints,
                                         splitPathsConstraints, equalSplitFlowConstraints, balanceLoadConstraints,
                                         bounds, binaries)
      ensures file == LpFile(FileName(X, Y, Z), outPutResult)
    {
      ghost var start := outPutResult;
      AppendSection("demand_flow: \n", demandConstraints);
      ghost var written := SectionText("demand_flow: \n", demandConstraints);
      AppendSection("capacity_st: \n", capacityStConstraints);
      ghost var next := SectionText("capacity_st: \n", capacityStConstraints);
      AppendAssoc(start, written, next);
      written := written + next;
      AppendSection("capacity_td: \n", capacityTdConstraints);
      next := SectionText("capacity_td: \n", capacityTdConstraints);
      AppendAssoc(start, written, next);
      written := written + next;
      AppendSection("split_paths: \n", splitPathsConstraints);
      next := SectionText("split_paths: \n", splitPathsConstraints);
      AppendAssoc(start, written, next);
      written := written + next;
      AppendSection("equal_split_flow: \n", equalSplitFlowConstraints);
      next := SectionText("equal_split_flow: \n", equalSplitFlowConstraints);
      AppendAssoc(start, written, next);
      written := written + next;
      AppendSection("transit_node_balance_load: \n", balanceLoadConstraints);
      next := SectionText("transit_node_balance_load: \n", balanceLoadConstraints);
      AppendAssoc(start, written, next);
      written := written + next;
      AppendSection("Bounds\n", bounds);
      next := SectionText("Bounds\n", bounds);
      AppendAssoc(start, written, next);
      written := written + next;
      AppendSection("Binary\n", binaries);
      next := SectionText("Binary\n", binaries);
      AppendAssoc(start, written, next);
      written := written + next;

      outPutResult := outPutResult + "End";
      AppendAssoc(start, written, "End");

      var fileName := "X" + IntToString(X) + "_Y" + IntToString(Y) + "_Z" + IntToString(Z) + ".lp";
      file := LpFile(fileName, outPutResult);
    }

    /** One section of the document: its header, then one line per row. */
    method AppendSection(header: string, rows: seq<string>)
      modifies this`outPutResult
      ensures outPutResult == old(outPutResult) + SectionText(header, rows)
    {
      outPutResult := outPutResult + header;
      ghost var afterHeader := outPutResult;
      for t := 0 to |rows|
        invariant outPutResult == afterHeader + Lines(rows[..t])
      {
        LinesSnoc(rows, t);
        outPutResult := outPutResult + (" " + rows[t] + "\n");
      }
      assert rows[..|rows|] == rows;
      AppendAssoc(old(outPutResult), header, Lines(rows));
    }

    method CreateDemandConstraints()
      modifies this`demandConstraints
      ensures demandConstraints == old(demandConstraints) + Rendered(DemandRows(Size()))
    {
      ghost var n := Size();
      ghost var blocks := DemandBlocks(n);
      var i := 0;
      while i < X
        invariant 0 <= i <= n.x
        invariant demandConstraints == old(demandConstraints) + Rendered(Flatten(blocks[..i]))
      {
        BlockStart(blocks, i);
        var j := 0;
        while j < Z
          invariant 0 <= j <= n.z
          invariant demandConstraints == old(demandConstraints) + Rendered(Flatten(blocks[..i]) + blocks[i][..j])
        {
          var demandConstraint := DemandRowText(i, j);
          AppendRow(old(demandConstraints), Flatten(blocks[..i]), blocks[i], j, demandConstraints, demandConstraint);
          demandConstraints := demandConstraints + [demandConstraint];
          j := j + 1;
        }
        BlockDone(blocks, i, j);
        i := i + 1;
      }
      assert blocks[..n.x] == blocks;
    }

    /** The demand row of source i+1 and destination j+1, written term by term. */
    method DemandRowText(i: nat, j: nat) returns (demandConstraint: string)
      requires i < Size().x && j < Size().z
      ensures demandConstraint == Render(DemandBlocks(Size())[i][j])
    {
      ghost var n := Size();
      ghost var names := Names(DemandRow(n, i + 1, j + 1).terms);
      demandConstraint := "";
      var k := 0;
      while k < Y
        invariant 0 <= k <= n.y
        invariant demandConstraint == SumSoFar(names[..k], k == n.y)
      {
        ghost var before := demandConstraint;
        if k + 1 < Y {
          demandConstraint := demandConstraint + ("x_" + NatToString(i + 1) + NatToString(k + 1) + NatToString(j + 1) + " + ");
        } else {
          demandConstraint := demandConstraint + ("x_" + NatToString(i + 1) + NatToString(k + 1) + NatToString(j + 1));
        }
        assert demandConstraint == SumSoFar(names[..k + 1], k + 1 == n.y) by {
          DemandTerm(n, i, j, k);
          TermStep(names, k, before, demandConstraint);
        }
        k := k + 1;
      }
      SumDone(names, demandConstraint);
      ghost var sum := demandConstraint;
      demandConstraint := demandConstraint + (" = " + NatToString(2 * (i + 1) + (j + 1)));
      DemandRowDone(n, i, j, sum, demandConstraint);
    }

    method CreateCapacityConstraintsSt()
      modifies this`capacityStConstraints
      ensures capacityStConstraints == old(capacityStConstraints) + Rendered(CapacityStRows(Size()))
    {
      ghost var n := Size();
      ghost var blocks := CapacityStBlocks(n);
      var i := 0;
      while i < X
        invariant 0 <= i <= n.x
        invariant capacityStConstraints == old(capacityStConstraints) + Rendered(Flatten(blocks[..i]))
      {
        BlockStart(blocks, i);
        ghost var done := Flatten(blocks[..i]);
        var k := 0;
        while k < Y
          invariant 0 <= k <= n.y
          invariant capacityStConstraints == old(capacityStConstraints) + Rendered(done + blocks[i][..k])
        {
          var capacityStConstraint := CapacityStRowText(i, k);
          AppendRow(old(capacityStConstraints), done, blocks[i], k, capacityStConstraints, capacityStConstraint);
          capacityStConstraints := capacityStConstraints + [capacityStConstraint];
          k := k + 1;
        }
        BlockDone(blocks, i, k);
        i := i + 1;
      }
      assert blocks[..n.x] == blocks;
    }

    /** The capacity row of link source i+1 -> transit k+1, written term by term. */
    method CapacityStRowText(i: nat, k: nat) returns (capacityStConstraint: string)
      requires i < Size().x && k < Size().y
      ensures capacityStConstraint == Render(CapacityStBlocks(Size())[i][k])
    {
      ghost var n := Size();
      ghost var names := Names(CapacityStRow(n, i + 1, k + 1).terms);
      capacityStConstraint := "";
      var j := 0;
      while j < Z
        invariant 0 <= j <= n.z
        invariant capacityStConstraint == SumSoFar(names[..j], j == n.z)
      {
        ghost var before := capacityStConstraint;
        if j + 1 < Z {
          capacityStConstraint := capacityStConstraint + ("x_" + NatToString(i + 1) + NatToString(k + 1) + NatToString(j + 1) + " + ");
        } else {
          capacityStConstraint := capacityStConstraint + ("x_" + NatToString(i + 1) + NatToString(k + 1) + NatToString(j + 1));
        }
        assert capacityStConstraint == SumSoFar(names[..j + 1], j + 1 == n.z) by {
          CapacityStTerm(n, i, k, j);
          TermStep(names, j, before, capacityStConstraint);
        }
        j := j + 1;
      }
      SumDone(names, capacityStConstraint);
      ghost var sum := capacityStConstraint;
      capacityStConstraint := capacityStConstraint + (" - c_" + NatToString(i + 1) + NatToString(k + 1) + " <= 0");
      CapacityStRowDone(n, i, k, sum, capacityStConstraint);
    }

    /** Destination-major: the outer loop runs over j. */
    method CreateCapacityConstraintsTd()
      modifies this`capacityTdConstraints
      ensures capacityTdConstraints == old(capacityTdConstraints) + Rendered(CapacityTdRows(Size()))
    {
      ghost var n := Size();
      ghost var blocks := CapacityTdBlocks(n);
      var j := 0;
      while j < Z
        invariant 0 <= j <= n.z
        invariant capacityTdConstraints == old(capacityTdConstraints) + Rendered(Flatten(blocks[..j]))
      {
        BlockStart(blocks, j);
        ghost var done := Flatten(blocks[..j]);
        var k := 0;
        while k < Y
          invariant 0 <= k <= n.y
          invariant capacityTdConstraints == old(capacityTdConstraints) + Rendered(done + blocks[j][..k])
        {
          var capacityTdConstraint := CapacityTdRowText(k, j);
          AppendRow(old(capacityTdConstraints), done, blocks[j], k, capacityTdConstraints, capacityTdConstraint);
          capacityTdConstraints := capacityTdConstraints + [capacityTdConstraint];
          k := k + 1;
        }
        BlockDone(blocks, j, k);
        j := j + 1;
      }
      assert blocks[..n.z] == blocks;
    }

    /** The capacity row of link transit k+1 -> destination j+1, written term by term. */
    method CapacityTdRowText(k: nat, j: nat) returns (capacityTdConstraint: string)
      requires k < Size().y && j < Size().z
      ensures capacityTdConstraint == Render(CapacityTdBlocks(Size())[j][k])
    {
      ghost var n := Size();
      ghost var names := Names(CapacityTdRow(n, k + 1, j + 1).terms);
      capacityTdConstraint := "";
      var i := 0;
      while i < X
        invariant 0 <= i <= n.x
        invariant capacityTdConstraint == SumSoFar(names[..i], i == n.x)
      {
        ghost var before := capacityTdConstraint;
        if i + 1 < X {
          capacityTdConstraint := capacityTdConstraint + ("x_" + NatToString(i + 1) + NatToString(k + 1) + NatToString(j + 1) + " + ");
        } else {
          capacityTdConstraint := capacityTdConstraint + ("x_" + NatToString(i + 1) + NatToString(k + 1) + NatToString(j + 1));
        }
        assert capacityTdConstraint == SumSoFar(names[..i + 1], i + 1 == n.x) by {
          CapacityTdTerm(n, k, j, i);
          TermStep(names, i, before, capacityTdConstraint);
        }
        i := i + 1;
      }
      SumDone(names, capacityTdConstraint);
      ghost var sum := capacityTdConstraint;
      capacityTdConstraint := capacityTdConstraint + (" - d_" + NatToString(k + 1) + NatToString(j + 1) + " <= 0");
      CapacityTdRowDone(n, k, j, sum, capacityTdConstraint);
    }

    method CreateSplitPathsConstraints()
      modifies this`splitPathsConstraints
      ensures splitPathsConstraints == old(splitPathsConstraints) + Rendered(SplitPathsRows(Size()))
    {
      ghost var n := Size();
      ghost var blocks := SplitPathsBlocks(n);
      var i := 0;
      while i < X
        invariant 0 <= i <= n.x
        invariant splitPathsConstraints == old(splitPathsConstraints) + Rendered(Flatten(blocks[..i]))
      {
        BlockStart(blocks, i);
        ghost var done := Flatten(blocks[..i]);
        var j := 0;
        while j < Z
          invariant 0 <= j <= n.z
          invariant splitPathsConstraints == old(splitPathsConstraints) + Rendered(done + blocks[i][..j])
        {
          var splitPathsConstraint := SplitPathsRowText(i, j);
          AppendRow(old(splitPathsConstraints), done, blocks[i], j, splitPathsConstraints, splitPathsConstraint);
          splitPathsConstraints := splitPathsConstraints + [splitPathsConstraint];
          j := j + 1;
        }
        BlockDone(blocks, i, j);
        i := i + 1;
      }
      assert blocks[..n.x] == blocks;
    }

    /** The split-paths row of source i+1 and destination j+1, written term by term. */
    method SplitPathsRowText(i: nat, j: nat) returns (splitPathsConstraint: string)
      requires i < Size().x && j < Size().z
      ensures splitPathsConstraint == Render(SplitPathsBlocks(Size())[i][j])
    {
      ghost var n := Size();
      ghost var names := Names(SplitPathsRow(n, i + 1, j + 1).terms);
      splitPathsConstraint := "";
      var k := 0;
      while k < Y
        invariant 0 <= k <= n.y
        invariant splitPathsConstraint == SumSoFar(names[..k], k == n.y)
      {
        ghost var before := splitPathsConstraint;
        if k + 1 < Y {
          splitPathsConstraint := splitPathsConstraint + ("u_" + NatToString(i + 1) + NatToString(k + 1) + NatToString(j + 1) + " + ");
        } else {
          splitPathsConstraint := splitPathsConstraint + ("u_" + NatToString(i + 1) + NatToString(k + 1) + NatToString(j + 1));
        }
        assert splitPathsConstraint == SumSoFar(names[..k + 1], k + 1 == n.y) by {
          SplitPathsTerm(n, i, j, k);
          TermStep(names, k, before, splitPathsConstraint);
        }
        k := k + 1;
      }
      SumDone(names, splitPathsConstraint);
      ghost var sum := splitPathsConstraint;
      splitPathsConstraint := splitPathsConstraint + " = 2";
      SplitPathsRowDone(n, i, j, sum, splitPathsConstraint);
    }

    method CreateEqualSplitFlowConstraints()
      modifies this`equalSplitFlowConstraints
      ensures equalSplitFlowConstraints == old(equalSplitFlowConstraints) + Rendered(EqualSplitFlowRows(Size()))
    {
      ghost var n := Size();
      ghost var sources := EqualSplitFlowSources(n);
      var i := 0;
      while i < X
        invariant 0 <= i <= n.x
        invariant equalSplitFlowConstraints == old(equalSplitFlowConstraints) + Rendered(Flatten(sources[..i]))
      {
        ghost var before := equalSplitFlowConstraints;
        EqualSplitFlowOfSource(i);
        AppendRows(old(equalSplitFlowConstraints), Flatten(sources[..i]), sources[i], before, equalSplitFlowConstraints);
        FlattenPrefixSnoc(sources, i);
        i := i + 1;
      }
      assert sources[..n.x] == sources;
    }

    /** The coupling rows of source i+1: per transit, one per destination. */
    method EqualSplitFlowOfSource(i: nat)
      requires i < Size().x
      modifies this`equalSplitFlowConstraints
      ensures equalSplitFlowConstraints == old(equalSplitFlowConstraints) + Rendered(EqualSplitFlowSources(Size())[i])
    {
      ghost var n := Size();
      ghost var blocks := EqualSplitFlowBlocks(n, i + 1);
      var k := 0;
      while k < Y
        invariant 0 <= k <= n.y
        invariant equalSplitFlowConstraints == old(equalSplitFlowConstraints) + Rendered(Flatten(blocks[..k]))
      {
        BlockStart(blocks, k);
        var j := 0;
        while j < Z
          invariant 0 <= j <= n.z
          invariant equalSplitFlowConstraints == old(equalSplitFlowConstraints) + Rendered(Flatten(blocks[..k]) + blocks[k][..j])
        {
          var equalSplitFlowConstraint := EqualSplitFlowRowText(i, k, j);
          AppendRow(old(equalSplitFlowConstraints), Flatten(blocks[..k]), blocks[k], j, equalSplitFlowConstraints, equalSplitFlowConstraint);
          equalSplitFlowConstraints := equalSplitFlowConstraints + [equalSplitFlowConstraint];
          j := j + 1;
        }
        BlockDone(blocks, k, j);
        k := k + 1;
      }
      assert blocks[..n.y] == blocks;
      assert EqualSplitFlowSources(n)[i] == Flatten(blocks);
    }

    /** The coupling row of path i+1 -> k+1 -> j+1: its demand is the coefficient of the split indicator. */
    method EqualSplitFlowRowText(i: nat, k: nat, j: nat) returns (equalSplitFlowConstraint: string)
      requires k < Size().y && j < Size().z
      ensures equalSplitFlowConstraint == Render(EqualSplitFlowBlocks(Size(), i + 1)[k][j])
    {
      equalSplitFlowConstraint := "2 x_" + NatToString(i + 1) + NatToString(k + 1) + NatToString(j + 1) + " - " + NatToString(2 * (i + 1) + (j + 1))
                                  + " u_" + NatToString(i + 1) + NatToString(k + 1) + NatToString(j + 1) + " = 0";
      EqualSplitFlowRowDone(Size(), i, k, j, equalSplitFlowConstraint);
    }

    method CreateBalanceLoadConstraints()
      modifies this`balanceLoadConstraints
      ensures balanceLoadConstraints == old(balanceLoadConstraints) + Rendered(BalanceLoadRows(Size()))
    {
      ghost var n := Size();
      ghost var rows := BalanceLoadRows(n);
      var k := 0;
      while k < Y
        invariant 0 <= k <= n.y
        invariant balanceLoadConstraints == old(balanceLoadConstraints) + Rendered(rows[..k])
      {
        var balanceLoadConstraint := BalanceLoadRowText(k);
        AppendRow(old(balanceLoadConstraints), [], rows, k, balanceLoadConstraints, balanceLoadConstraint);
        balanceLoadConstraints := balanceLoadConstraints + [balanceLoadConstraint];
        k := k + 1;
      }
      assert rows[..n.y] == rows;
    }

    /**
     * The load row of transit k+1: every flow through it, source by source,
     * then " -r <= 0".
     */
    method BalanceLoadRowText(k: nat) returns (balanceLoadConstraint: string)
      requires k < Size().y
      ensures balanceLoadConstraint == Render(BalanceLoadRows(Size())[k])
    {
      ghost var n := Size();
      balanceLoadConstraint := "";
      var i := 0;
      while i < X
        invariant 0 <= i <= n.x
        invariant balanceLoadConstraint == SourcesText(n, k + 1, i)
      {
        balanceLoadConstraint := LoadTermsOfSource(k, i, balanceLoadConstraint);
        i := i + 1;
      }
      ghost var sum := balanceLoadConstraint;
      balanceLoadConstraint := balanceLoadConstraint + " -r <= 0";
      BalanceLoadRowDone(n, k, sum, balanceLoadConstraint);
    }

    /**
     * The flows from source i+1 through transit k+1, appended to the terms of
     * the earlier sources; only the very last flow of the row has no " + ".
     */
    method LoadTermsOfSource(k: nat, i: nat, written: string) returns (balanceLoadConstraint: string)
      requires k < Size().y && i < Size().x
      requires written == SourcesText(Size(), k + 1, i)
      ensures balanceLoadConstraint == SourcesText(Size(), k + 1, i + 1)
    {
      ghost var n := Size();
      balanceLoadConstraint := written;
      var j := 0;
      while j < Z
        invariant 0 <= j <= n.z
        invariant balanceLoadConstraint == written + BlockText(n, k + 1, i, j)
      {
        ghost var before := balanceLoadConstraint;
        LoadTermBranches(n, k + 1, i, j);
        if i + 1 < X {
          balanceLoadConstraint := balanceLoadConstraint + ("x_" + NatToString(i + 1) + NatToString(k + 1) + NatToString(j + 1) + " + ");
        } else {
          if j + 1 < Z {
            balanceLoadConstraint := balanceLoadConstraint + ("x_" + NatToString(i + 1) + NatToString(k + 1) + NatToString(j + 1) + " + ");
          } else {
            balanceLoadConstraint := balanceLoadConstraint + ("x_" + NatToString(i + 1) + NatToString(k + 1) + NatToString(j + 1));
          }
        }
        LoadTermAppended(n, k + 1, i, j, written, before, balanceLoadConstraint);
        j := j + 1;
      }
    }

    method CreateBounds()
      modifies this`bounds
      ensures bounds == old(bounds) + Rendered(BoundRows(Size()))
    {
      ghost var n := Size();
      ghost var sources := BoundSources(n);
      var i := 0;
      while i < X
        invariant 0 <= i <= n.x
        invariant bounds == old(bounds) + Rendered(Flatten(sources[..i]))
      {
        ghost var before := bounds;
        BoundsOfSource(i);
        AppendRows(old(bounds), Flatten(sources[..i]), sources[i], before, bounds);
        FlattenPrefixSnoc(sources, i);
        i := i + 1;
      }
      assert sources[..n.x] == sources;
      AppendLastBound(old(bounds), Flatten(sources));
      bounds := bounds + ["0 <= r"];
    }

    /** The bounds on the flows of source i+1: per transit, one per destination. */
    method BoundsOfSource(i: nat)
      requires i < Size().x
      modifies this`bounds
      ensures bounds == old(bounds) + Rendered(BoundSources(Size())[i])
    {
      ghost var n := Size();
      ghost var blocks := BoundBlocks(n, i + 1);
      var k := 0;
      while k < Y
        invariant 0 <= k <= n.y
        invariant bounds == old(bounds) + Rendered(Flatten(blocks[..k]))
      {
        BlockStart(blocks, k);
        var j := 0;
        while j < Z
          invariant 0 <= j <= n.z
          invariant bounds == old(bounds) + Rendered(Flatten(blocks[..k]) + blocks[k][..j])
        {
          var bound := BoundRowText(i, k, j);
          AppendRow(old(bounds), Flatten(blocks[..k]), blocks[k], j, bounds, bound);
          bounds := bounds + [bound];
          j := j + 1;
        }
        BlockDone(blocks, k, j);
        k := k + 1;
      }
      assert blocks[..n.y] == blocks;
      assert BoundSources(n)[i] == Flatten(blocks);
    }

    method CreateBinary()
      modifies this`binaries
      ensures binaries == old(binaries) + Rendered(BinaryRows(Size()))
    {
      ghost var n := Size();
      ghost var sources := BinarySources(n);
      var i := 0;
      while i < X
        invariant 0 <= i <= n.x
        invariant binaries == old(binaries) + Rendered(Flatten(sources[..i]))
      {
        ghost var before := binaries;
        BinariesOfSource(i);
        AppendRows(old(binaries), Flatten(sources[..i]), sources[i], before, binaries);
        FlattenPrefixSnoc(sources, i);
        i := i + 1;
      }
      assert sources[..n.x] == sources;
    }

    /** The split indicators of source i+1: per transit, one per destination. */
    method BinariesOfSource(i: nat)
      requires i < Size().x
      modifies this`binaries
      ensures binaries == old(binaries) + Rendered(BinarySources(Size())[i])
    {
      ghost var n := Size();
      ghost var blocks := BinaryBlocks(n, i + 1);
      var k := 0;
      while k < Y
        invariant 0 <= k <= n.y
        invariant binaries == old(binaries) + Rendered(Flatten(blocks[..k]))
      {
        BlockStart(blocks, k);
        var j := 0;
        while j < Z
          invariant 0 <= j <= n.z
          invariant binaries == old(binaries) + Rendered(Flatten(blocks[..k]) + blocks[k][..j])
        {
          var binary := BinaryRowText(i, k, j);
          AppendRow(old(binaries), Flatten(blocks[..k]), blocks[k], j, binaries, binary);
          binaries := binaries + [binary];
          j := j + 1;
        }
        BlockDone(blocks, k, j);
        k := k + 1;
      }
      assert blocks[..n.y] == blocks;
      assert BinarySources(n)[i] == Flatten(blocks);
    }

    /** The bound of the flow from source i+1 through transit k+1 to destination j+1. */
    method BoundRowText(i: nat, k: nat, j: nat) returns (bound: string)
      requires k < Size().y && j < Size().z
      ensures bound == Render(BoundBlocks(Size(), i + 1)[k][j])
    {
      bound := "";
      bound := bound + ("0 <= x_" + NatToString(i + 1) + NatToString(k + 1) + NatToString(j + 1));
      BoundText(i + 1, k + 1, j + 1);
      assert BoundBlocks(Size(), i + 1)[k][j] == NonNegative(Flow(i + 1, k + 1, j + 1));
    }

    /** The binary declaration of the split indicator of source i+1, transit k+1, destination j+1. */
    method BinaryRowText(i: nat, k: nat, j: nat) returns (binary: string)
      requires k < Size().y && j < Size().z
      ensures binary == Render(BinaryBlocks(Size(), i + 1)[k][j])
    {
      binary := "";
      binary := binary + ("u_" + NatToString(i + 1) + NatToString(k + 1) + NatToString(j + 1));
      BinaryText(i + 1, k + 1, j + 1);
      assert BinaryBlocks(Size(), i + 1)[k][j] == BinaryVar(Split(i + 1, k + 1, j + 1));
    }
  }

  /**
   * One run of the program on the three answers given at the prompts: the
   * counts are read and checked, and only when all three are positive are the
   * constraints prepared and the LP file produced.
   */
  method RunGenerator(x: int, y: int, z: int) returns (result: Option<LpFile>)
    ensures result.Some? <==> x > 0 && y > 0 && z > 0
    ensures result.Some? ==> result.value == LpFile(FileName(x, y, z), Document(Counts(x, y, z)))
  {
    var generator := new LpGenerator();
    var isInputCorrect := generator.InputNodeNumber(x, y, z);
    if isInputCorrect {
      ghost var n := generator.Size();
      assert n == Counts(x, y, z) && generator.Pristine();
      generator.PrepareConstraints();
      var file := generator.GenerateLpFile();
      DocumentOf(n, file.text, generator.demandConstraints, generator.capacityStConstraints,
                 generator.capacityTdConstraints, generator.splitPathsConstraints,
                 generator.equalSplitFlowConstraints, generator.balanceLoadConstraints,
                 generator.bounds, generator.binaries);
      result := Some(file);
    } else {
      result := None;
    }
  }

  /**
   * The text of a run is the document of its counts. Each `[] + Rendered(..)`
   * in the requires stands for "this list started empty and its generator
   * appended exactly its rendered section": `PrepareConstraints` promises
   * `old(list) + Rendered(..)`, and the run starts from a pristine generator.
   */
  lemma DocumentOf(n: Counts, text: string, demand: seq<string>, capacitySt: seq<string>,
                   capacityTd: seq<string>, splitPaths: seq<string>, equalSplitFlow: seq<string>,
                   balanceLoad: seq<string>, bounds: seq<string>, binaries: seq<string>)
    requires demand == [] + Rendered(DemandRows(n))
    requires capacitySt == [] + Rendered(CapacityStRows(n))
    requires capacityTd == [] + Rendered(CapacityTdRows(n))
    requires splitPaths == [] + Rendered(SplitPathsRows(n))
    requires equalSplitFlow == [] + Rendered(EqualSplitFlowRows(n))
    requires balanceLoad == [] + Rendered(BalanceLoadRows(n))
    requires bounds == [] + Rendered(BoundRows(n))
    requires binaries == [] + Rendered(BinaryRows(n))
    requires text == ObjectivePrefix + Sections(demand, capacitySt, capacityTd, splitPaths, equalSplitFlow,
                                                balanceLoad, bounds, binaries)
    ensures text == Document(n)
  {
    assert demand == Rendered(DemandRows(n));
    assert capacitySt == Rendered(CapacityStRows(n));
    assert capacityTd == Rendered(CapacityTdRows(n));
    assert splitPaths == Rendered(SplitPathsRows(n));
    assert equalSplitFlow == Rendered(EqualSplitFlowRows(n));
    assert balanceLoad == Rendered(BalanceLoadRows(n));
    assert bounds == Rendered(BoundRows(n));
    assert binaries == Rendered(BinaryRows(n));
  }

  // ---- the text the loops build ----
  //
  // Most lemmas below state no property of the generator on their own: they
  // are small steps (associativity, one more term, one more row) stated apart
  // so that each loop's proof only has to combine them. Several have empty
  // bodies because the step is easy once it is stated by itself.

  /** The text of a sum after some of its terms: complete, or still open for the next term. */
  ghost function SumSoFar(names: seq<string>, complete: bool): string {
    if complete then SumText(names) else OpenSum(names)
  }

  /** One more term, followed by " + " unless it is the last. */
  lemma TermStep(names: seq<string>, m: nat, before: string, after: string)
    requires m < |names|
    requires before == OpenSum(names[..m])
    requires after == before + (if m + 1 < |names| then names[m] + " + " else names[m])
    ensures after == SumSoFar(names[..m + 1], m + 1 == |names|)
  {
    assert names[..m + 1][..m] == names[..m];
  }

  lemma AppendAssoc<T>(a: seq<T>, b: seq<T>, c: seq<T>)
    ensures (a + b) + c == a + (b + c)
  {
  }

  lemma LinesSnoc(lines: seq<string>, t: nat)
    requires t < |lines|
    ensures Lines(lines[..t + 1]) == Lines(lines[..t]) + (" " + lines[t] + "\n")
  {
    assert lines[..t + 1][..t] == lines[..t];
  }

  lemma RenderedSnoc(rows: seq<Row>, row: Row)
    ensures Rendered(rows + [row]) == Rendered(rows) + [Render(row)]
  {
  }

  lemma AppendLastBound(prior: seq<string>, done: seq<Row>)
    ensures (prior + Rendered(done)) + ["0 <= r"] == prior + Rendered(done + [NonNegative(MaxLoad)])
  {
    RenderedSnoc(done, NonNegative(MaxLoad));
    assert Render(NonNegative(MaxLoad)) == "0 <= r";
  }

  /** Rows rendered after the rows already rendered. */
  lemma AppendRows(prior: seq<string>, done: seq<Row>, more: seq<Row>, before: seq<string>, list: seq<string>)
    requires before == prior + Rendered(done)
    requires list == before + Rendered(more)
    ensures list == prior + Rendered(done + more)
  {
    RenderedAppend(done, more);
    AppendAssoc(prior, Rendered(done), Rendered(more));
  }

  lemma RenderedAppend(rows: seq<Row>, more: seq<Row>)
    ensures Rendered(rows + more) == Rendered(rows) + Rendered(more)
  {
  }

  /** Appending the text of the next row of a block keeps the list equal to the rows so far. */
  lemma AppendRow(prior: seq<string>, done: seq<Row>, block: seq<Row>, r: nat, list: seq<string>, text: string)
    requires r < |block|
    requires list == prior + Rendered(done + block[..r])
    requires text == Render(block[r])
    ensures list + [text] == prior + Rendered(done + block[..r + 1])
  {
    AppendRendered(prior, done, block, r);
  }

  lemma AppendRendered(prior: seq<string>, done: seq<Row>, block: seq<Row>, r: nat)
    requires r < |block|
    ensures (prior + Rendered(done + block[..r])) + [Render(block[r])] == prior + Rendered(done + block[..r + 1])
  {
    PrefixSnoc(done, block, r);
    RenderedSnoc(done + block[..r], block[r]);
  }

  lemma DemandTerm(n: Counts, i: nat, j: nat, k: nat)
    requires k < n.y
    ensures |Names(DemandRow(n, i + 1, j + 1).terms)| == n.y
    ensures Names(DemandRow(n, i + 1, j + 1).terms)[k] == "x_" + NatToString(i + 1) + NatToString(k + 1) + NatToString(j + 1)
  {
  }

  lemma CapacityStTerm(n: Counts, i: nat, k: nat, j: nat)
    requires j < n.z
    ensures |Names(CapacityStRow(n, i + 1, k + 1).terms)| == n.z
    ensures Names(CapacityStRow(n, i + 1, k + 1).terms)[j] == "x_" + NatToString(i + 1) + NatToString(k + 1) + NatToString(j + 1)
  {
  }

  lemma CapacityTdTerm(n: Counts, k: nat, j: nat, i: nat)
    requires i < n.x
    ensures |Names(CapacityTdRow(n, k + 1, j + 1).terms)| == n.x
    ensures Names(CapacityTdRow(n, k + 1, j + 1).terms)[i] == "x_" + NatToString(i + 1) + NatToString(k + 1) + NatToString(j + 1)
  {
  }

  lemma SplitPathsTerm(n: Counts, i: nat, j: nat, k: nat)
    requires k < n.y
    ensures |Names(SplitPathsRow(n, i + 1, j + 1).terms)| == n.y
    ensures Names(SplitPathsRow(n, i + 1, j + 1).terms)[k] == "u_" + NatToString(i + 1) + NatToString(k + 1) + NatToString(j + 1)
  {
  }

  lemma DemandRowDone(n: Counts, i: nat, j: nat, sum: string, text: string)
    requires i < n.x && j < n.z
    requires sum == SumText(Names(DemandRow(n, i + 1, j + 1).terms))
    requires text == sum + (" = " + NatToString(2 * (i + 1) + (j + 1)))
    ensures text == Render(DemandBlocks(n)[i][j])
  {
    DemandBlockAt(n, i, j);
    var row := DemandRow(n, i + 1, j + 1);
    SumEqualsText(row.terms, row.rhs);
  }

  lemma DemandBlockAt(n: Counts, i: nat, j: nat)
    requires i < n.x && j < n.z
    ensures DemandBlocks(n)[i][j] == DemandRow(n, i + 1, j + 1)
  {
  }

  /** A completed sum is the whole sum text. */
  lemma SumDone(names: seq<string>, sum: string)
    requires sum == SumSoFar(names[..|names|], true)
    ensures sum == SumText(names)
  {
    assert names[..|names|] == names;
  }

  /** The text of an equality row is its sum, then " = " and the right-hand side. */
  lemma SumEqualsText(ts: seq<Var>, rhs: nat)
    ensures Render(SumEquals(ts, rhs)) == SumText(Names(ts)) + (" = " + NatToString(rhs))
  {
    var sum := SumText(Names(ts));
    assert Render(SumEquals(ts, rhs)) == sum + " = " + NatToString(rhs);
  }

  /** The text of a bound row on a capacity is its sum, then " - ", the capacity and " <= 0". */
  lemma SubtractedText(ts: seq<Var>, b: Var)
    requires b != MaxLoad
    ensures Render(SumAtMost(ts, b)) == SumText(Names(ts)) + " - " + VarName(b) + " <= 0"
  {
  }

  lemma CapacityStRowDone(n: Counts, i: nat, k: nat, sum: string, text: string)
    requires i < n.x && k < n.y
    requires sum == SumText(Names(CapacityStRow(n, i + 1, k + 1).terms))
    requires text == sum + (" - c_" + NatToString(i + 1) + NatToString(k + 1) + " <= 0")
    ensures text == Render(CapacityStBlocks(n)[i][k])
  {
    CapacityStBlockAt(n, i, k);
    var row := CapacityStRow(n, i + 1, k + 1);
    SubtractedText(row.terms, row.bound);
    Regroup(sum, " - ", "c_", NatToString(i + 1), NatToString(k + 1), " <= 0");
    assert " - " + "c_" == " - c_";
  }

  lemma CapacityStBlockAt(n: Counts, i: nat, k: nat)
    requires i < n.x && k < n.y
    ensures CapacityStBlocks(n)[i][k] == CapacityStRow(n, i + 1, k + 1)
  {
  }

  /** A subtracted variable's name, moved inside the suffix the generator appends. */
  lemma Regroup(sum: string, minus: string, prefix: string, a: string, b: string, tail: string)
    ensures sum + minus + (prefix + a + b) + tail == sum + ((minus + prefix) + a + b + tail)
  {
    assert minus + (prefix + a + b) + tail == (minus + prefix) + a + b + tail;
  }

  lemma CapacityTdRowDone(n: Counts, k: nat, j: nat, sum: string, text: string)
    requires k < n.y && j < n.z
    requires sum == SumText(Names(CapacityTdRow(n, k + 1, j + 1).terms))
    requires text == sum + (" - d_" + NatToString(k + 1) + NatToString(j + 1) + " <= 0")
    ensures text == Render(CapacityTdBlocks(n)[j][k])
  {
    CapacityTdBlockAt(n, k, j);
    var row := CapacityTdRow(n, k + 1, j + 1);
    SubtractedText(row.terms, row.bound);
    Regroup(sum, " - ", "d_", NatToString(k + 1), NatToString(j + 1), " <= 0");
    assert " - " + "d_" == " - d_";
  }

  lemma CapacityTdBlockAt(n: Counts, k: nat, j: nat)
    requires k < n.y && j < n.z
    ensures CapacityTdBlocks(n)[j][k] == CapacityTdRow(n, k + 1, j + 1)
  {
  }

  lemma SplitPathsRowDone(n: Counts, i: nat, j: nat, sum: string, text: string)
    requires i < n.x && j < n.z
    requires sum == SumText(Names(SplitPathsRow(n, i + 1, j + 1).terms))
    requires text == sum + " = 2"
    ensures text == Render(SplitPathsBlocks(n)[i][j])
  {
    SplitPathsBlockAt(n, i, j);
    var row := SplitPathsRow(n, i + 1, j + 1);
    SumEqualsText(row.terms, row.rhs);
    assert NatToString(2) == "2";
  }

  lemma SplitPathsBlockAt(n: Counts, i: nat, j: nat)
    requires i < n.x && j < n.z
    ensures SplitPathsBlocks(n)[i][j] == SplitPathsRow(n, i + 1, j + 1)
  {
  }

  lemma EqualSplitFlowRowDone(n: Counts, i: nat, k: nat, j: nat, text: string)
    requires k < n.y && j < n.z
    requires text == "2 x_" + NatToString(i + 1) + NatToString(k + 1) + NatToString(j + 1) + " - " + NatToString(2 * (i + 1) + (j + 1))
                     + " u_" + NatToString(i + 1) + NatToString(k + 1) + NatToString(j + 1) + " = 0"
    ensures text == Render(EqualSplitFlowBlocks(n, i + 1)[k][j])
  {
    assert text == Render(EqualSplitFlowRow(i + 1, k + 1, j + 1)) by {
      EqualSplitFlowText(i + 1, k + 1, j + 1);
    }
    EqualSplitFlowBlockAt(n, i + 1, k, j);
  }

  lemma EqualSplitFlowBlockAt(n: Counts, i: nat, k: nat, j: nat)
    requires k < n.y && j < n.z
    ensures EqualSplitFlowBlocks(n, i)[k][j] == EqualSplitFlowRow(i, k + 1, j + 1)
  {
  }

  lemma EqualSplitFlowText(i: nat, k: nat, j: nat)
    ensures Render(EqualSplitFlowRow(i, k, j))
            == "2 x_" + NatToString(i) + NatToString(k) + NatToString(j) + " - " + NatToString(2 * i + j)
               + " u_" + NatToString(i) + NatToString(k) + NatToString(j) + " = 0"
  {
    var a, b, c := NatToString(i), NatToString(k), NatToString(j);
    var head := "2 " + ("x_" + a + b + c) + " - " + NatToString(2 * i + j);
    assert Render(EqualSplitFlowRow(i, k, j)) == head + " " + ("u_" + a + b + c) + " = 0";
    NameAppend("2 ", "x_", a, b, c);
    assert "2 " + "x_" == "2 x_";
    NameAppend(head + " ", "u_", a, b, c);
    assert head + " " + "u_" == head + " u_";
  }

  /** A variable's name appended piece by piece. */
  lemma NameAppend(s: string, prefix: string, a: string, b: string, c: string)
    ensures s + (prefix + a + b + c) == s + prefix + a + b + c
  {
  }

  lemma BoundText(i: nat, k: nat, j: nat)
    ensures Render(NonNegative(Flow(i, k, j))) == "" + ("0 <= x_" + NatToString(i) + NatToString(k) + NatToString(j))
  {
  }

  lemma BinaryText(i: nat, k: nat, j: nat)
    ensures Render(BinaryVar(Split(i, k, j))) == "" + ("u_" + NatToString(i) + NatToString(k) + NatToString(j))
  {
  }

  lemma NamesSnoc(vs: seq<Var>, v: Var)
    ensures Names(vs + [v]) == Names(vs) + [VarName(v)]
  {
  }

  // ---- the balance-load row, as its loops write it ----

  /** The flow from source i+1 through transit k to destination j+1, then " + " unless it ends the row. */
  function LoadTermText(n: Counts, k: nat, i: nat, j: nat): string {
    if i + 1 < n.x || j + 1 < n.z then VarName(Flow(i + 1, k, j + 1)) + " + " else VarName(Flow(i + 1, k, j + 1))
  }

  /** The term as the loops write it: " + " follows it unless it is the last flow of the row. */
  lemma LoadTermBranches(n: Counts, k: nat, i: nat, j: nat)
    ensures var name := "x_" + NatToString(i + 1) + NatToString(k) + NatToString(j + 1);
      LoadTermText(n, k, i, j) == if i + 1 < n.x then name + " + " else if j + 1 < n.z then name + " + " else name
  {
  }

  /** What the inner loop over destinations has written for source i+1 after j steps. */
  ghost function BlockText(n: Counts, k: nat, i: nat, j: nat): string {
    if j == 0 then "" else BlockText(n, k, i, j - 1) + LoadTermText(n, k, i, j - 1)
  }

  /** Writing flow j+1 of source i+1 extends that source's text by one term. */
  lemma LoadTermAppended(n: Counts, k: nat, i: nat, j: nat, written: string, before: string, after: string)
    requires before == written + BlockText(n, k, i, j)
    requires after == before + LoadTermText(n, k, i, j)
    ensures after == written + BlockText(n, k, i, j + 1)
  {
    AppendAssoc(written, BlockText(n, k, i, j), LoadTermText(n, k, i, j));
  }

  /** What the loop over sources has written after i of them. */
  ghost function SourcesText(n: Counts, k: nat, i: nat): string {
    if i == 0 then "" else SourcesText(n, k, i - 1) + BlockText(n, k, i - 1, n.z)
  }

  /** What the two loops have written once source i+1 has had j of its flows. */
  ghost function LoadText(n: Counts, k: nat, i: nat, j: nat): string {
    SourcesText(n, k, i) + BlockText(n, k, i, j)
  }

  /** The flows the two loops have visited once source i+1 has had j of them, in visiting order. */
  ghost function LoadPrefix(n: Counts, k: nat, i: nat, j: nat): seq<Var>
    requires i < n.x && j <= n.z
  {
    Flatten(LoadBlocks(n, k)[..i]) + LoadBlocks(n, k)[i][..j]
  }

  /**
   * Before the last flow of the row, the text is every flow visited so far,
   * each followed by " + ".
   */
  lemma {:induction false} LoadTextIsOpenSum(n: Counts, k: nat, i: nat, j: nat)
    requires i < n.x && j < n.z
    ensures LoadText(n, k, i, j) == OpenSum(Names(LoadPrefix(n, k, i, j)))
    decreases i, j, 1
  {
    if j > 0 {
      LoadOpenNextTerm(n, k, i, j);
    } else if i > 0 {
      LoadOpenNextSource(n, k, i);
    } else {
      LoadOpenStart(n, k);
    }
  }

  /** Before the first flow, nothing is written and nothing is visited. */
  lemma LoadOpenStart(n: Counts, k: nat)
    requires 0 < n.x && 0 < n.z
    ensures LoadText(n, k, 0, 0) == OpenSum(Names(LoadPrefix(n, k, 0, 0)))
  {
    assert LoadPrefix(n, k, 0, 0) == [];
  }

  /** Flow j of source i+1 (1-based j), which does not end the row, extends the open sum. */
  lemma {:induction false} LoadOpenNextTerm(n: Counts, k: nat, i: nat, j: nat)
    requires i < n.x && 0 < j < n.z
    ensures LoadText(n, k, i, j) == OpenSum(Names(LoadPrefix(n, k, i, j)))
    decreases i, j, 0
  {
    LoadTextIsOpenSum(n, k, i, j - 1);
    LoadOpenTermStep(n, k, i, j);
  }

  /** The last flow of source i, which does not end the row, extends the open sum where source i+1 starts. */
  lemma {:induction false} LoadOpenNextSource(n: Counts, k: nat, i: nat)
    requires 0 < i < n.x && 0 < n.z
    ensures LoadText(n, k, i, 0) == OpenSum(Names(LoadPrefix(n, k, i, 0)))
    decreases i, 0, 0
  {
    LoadTextIsOpenSum(n, k, i - 1, n.z - 1);
    LoadOpenSourceStep(n, k, i);
  }

  /** The step of `LoadOpenNextTerm`, from the open sum one flow earlier. */
  lemma LoadOpenTermStep(n: Counts, k: nat, i: nat, j: nat)
    requires i < n.x && 0 < j < n.z
    requires LoadText(n, k, i, j - 1) == OpenSum(Names(LoadPrefix(n, k, i, j - 1)))
    ensures LoadText(n, k, i, j) == OpenSum(Names(LoadPrefix(n, k, i, j)))
  {
    AppendAssoc(SourcesText(n, k, i), BlockText(n, k, i, j - 1), LoadTermText(n, k, i, j - 1));
    LoadPrefixSnoc(n, k, i, j - 1);
    OpenSnoc(LoadPrefix(n, k, i, j - 1), Flow(i + 1, k, j), LoadText(n, k, i, j - 1));
  }

  /** The step of `LoadOpenNextSource`, from the open sum at the last flow of source i. */
  lemma LoadOpenSourceStep(n: Counts, k: nat, i: nat)
    requires 0 < i < n.x && 0 < n.z
    requires LoadText(n, k, i - 1, n.z - 1) == OpenSum(Names(LoadPrefix(n, k, i - 1, n.z - 1)))
    ensures LoadText(n, k, i, 0) == OpenSum(Names(LoadPrefix(n, k, i, 0)))
  {
    AppendAssoc(SourcesText(n, k, i - 1), BlockText(n, k, i - 1, n.z - 1), LoadTermText(n, k, i - 1, n.z - 1));
    LoadPrefixNextSource(n, k, i);
    OpenSnoc(LoadPrefix(n, k, i - 1, n.z - 1), Flow(i, k, n.z), LoadText(n, k, i - 1, n.z - 1));
  }

  /** Source i+1 has one more flow visited. */
  lemma LoadPrefixSnoc(n: Counts, k: nat, i: nat, j: nat)
    requires i < n.x && j < n.z
    ensures LoadPrefix(n, k, i, j + 1) == LoadPrefix(n, k, i, j) + [Flow(i + 1, k, j + 1)]
  {
    var blocks := LoadBlocks(n, k);
    PrefixSnoc(Flatten(blocks[..i]), blocks[i], j);
  }

  /** Once the last flow of source i is visited, source i+1 starts with all earlier blocks done. */
  lemma LoadPrefixNextSource(n: Counts, k: nat, i: nat)
    requires 0 < i < n.x && 0 < n.z
    ensures LoadPrefix(n, k, i, 0) == LoadPrefix(n, k, i - 1, n.z - 1) + [Flow(i, k, n.z)]
  {
    var blocks := LoadBlocks(n, k);
    LoadPrefixSnoc(n, k, i - 1, n.z - 1);
    BlockDone(blocks, i - 1, n.z);
    BlockStart(blocks, i);
  }

  /** All flows through transit k, once every source is done. */
  lemma LoadPrefixComplete(n: Counts, k: nat)
    requires 0 < n.x
    ensures LoadPrefix(n, k, n.x - 1, n.z) == Flatten(LoadBlocks(n, k))
  {
    var blocks := LoadBlocks(n, k);
    BlockDone(blocks, n.x - 1, n.z);
    assert blocks[..n.x] == blocks;
  }

  /** A term followed by " + " extends an open sum. */
  lemma OpenSnoc(prefix: seq<Var>, v: Var, before: string)
    requires before == OpenSum(Names(prefix))
    ensures before + (VarName(v) + " + ") == OpenSum(Names(prefix + [v]))
  {
    NamesSnoc(prefix, v);
    assert (Names(prefix) + [VarName(v)])[..|prefix|] == Names(prefix);
  }

  /** A last term closes an open sum: the text is the sum of all terms. */
  lemma CloseSnoc(prefix: seq<Var>, v: Var, all: seq<Var>, before: string, text: string)
    requires before == OpenSum(Names(prefix))
    requires text == before + VarName(v) && all == prefix + [v]
    ensures text == SumText(Names(all))
  {
    NamesSnoc(prefix, v);
    assert (Names(prefix) + [VarName(v)])[..|prefix|] == Names(prefix);
  }

  /** When no source has any destination, the loops write nothing. */
  lemma {:induction false} SourcesTextEmpty(n: Counts, k: nat, i: nat)
    requires n.z == 0
    ensures SourcesText(n, k, i) == ""
    decreases i
  {
    if i > 0 {
      SourcesTextEmpty(n, k, i - 1);
    }
  }

  /** Once every source is done, the text is the whole sum of the flows through transit k (1-based). */
  lemma LoadTextComplete(n: Counts, k: nat)
    ensures SourcesText(n, k, n.x) == SumText(Names(Flatten(LoadBlocks(n, k))))
  {
    var blocks := LoadBlocks(n, k);
    if n.x == 0 {
      assert blocks == [];
    } else if n.z == 0 {
      SourcesTextEmpty(n, k, n.x);
      FlattenEmptyBlocks(blocks);
    } else {
      LoadTextNonEmpty(n, k);
    }
  }

  /** With at least one flow, the last one closes the sum that the earlier ones kept open. */
  lemma LoadTextNonEmpty(n: Counts, k: nat)
    requires 0 < n.x && 0 < n.z
    ensures SourcesText(n, k, n.x) == SumText(Names(Flatten(LoadBlocks(n, k))))
  {
    LoadTextIsOpenSum(n, k, n.x - 1, n.z - 1);
    LoadTextFinal(n, k);
    LoadPrefixFinal(n, k);
    CloseSnoc(LoadPrefix(n, k, n.x - 1, n.z - 1), Flow(n.x, k, n.z), Flatten(LoadBlocks(n, k)),
              LoadText(n, k, n.x - 1, n.z - 1), SourcesText(n, k, n.x));
  }

  /** The last flow of the row is written without " + ". */
  lemma LoadTextFinal(n: Counts, k: nat)
    requires 0 < n.x && 0 < n.z
    ensures SourcesText(n, k, n.x) == LoadText(n, k, n.x - 1, n.z - 1) + VarName(Flow(n.x, k, n.z))
  {
    AppendAssoc(SourcesText(n, k, n.x - 1), BlockText(n, k, n.x - 1, n.z - 1), LoadTermText(n, k, n.x - 1, n.z - 1));
  }

  /** All flows through transit k are those visited before the last one, then the last one. */
  lemma LoadPrefixFinal(n: Counts, k: nat)
    requires 0 < n.x && 0 < n.z
    ensures Flatten(LoadBlocks(n, k)) == LoadPrefix(n, k, n.x - 1, n.z - 1) + [Flow(n.x, k, n.z)]
  {
    LoadPrefixSnoc(n, k, n.x - 1, n.z - 1);
    LoadPrefixComplete(n, k);
  }

  lemma BalanceLoadRowDone(n: Counts, k: nat, sum: string, text: string)
    requires k < n.y
    requires sum == SourcesText(n, k + 1, n.x)
    requires text == sum + " -r <= 0"
    ensures text == Render(BalanceLoadRows(n)[k])
  {
    LoadTextComplete(n, k + 1);
    BalanceLoadText(n, k + 1);
  }

  /** The balance-load row of transit k (1-based) is its flows' sum, then " -r <= 0". */
  lemma BalanceLoadText(n: Counts, k: nat)
    requires 1 <= k <= n.y
    ensures Render(BalanceLoadRows(n)[k - 1]) == SumText(Names(Flatten(LoadBlocks(n, k)))) + " -r <= 0"
  {
    var sum := SumText(Names(Flatten(LoadBlocks(n, k))));
    assert BalanceLoadRows(n)[k - 1] == BalanceLoadRow(n, k);
    assert Render(BalanceLoadRow(n, k)) == sum + " -" + "r" + " <= 0";
    MaxLoadSuffix(sum);
  }

  lemma MaxLoadSuffix(sum: string)
    ensures sum + " -" + "r" + " <= 0" == sum + " -r <= 0"
  {
    assert sum + " -" + "r" + " <= 0" == sum + (" -" + "r" + " <= 0");
  }


}
