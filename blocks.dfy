/**
 * Nested loops that emit one item per inner step produce the concatenation of
 * the blocks their inner loops emit.  `Flatten` is that concatenation; the
 * lemmas say how far a prefix of it reaches and where each item lands.
 */
module Blocks {
  import opened IndexArith

  /** The blocks one after the other. */
  function Flatten<T>(blocks: seq<seq<T>>): seq<T> {
    if blocks == [] then [] else Flatten(blocks[..|blocks| - 1]) + blocks[|blocks| - 1]
  }

  /** Every block has exactly `d` items. */
  predicate Uniform<T>(blocks: seq<seq<T>>, d: nat) {
    forall q :: 0 <= q < |blocks| ==> |blocks[q]| == d
  }

  /** Finishing block q extends the flattened prefix by that block. */
  lemma FlattenPrefixSnoc<T>(blocks: seq<seq<T>>, q: nat)
    requires q < |blocks|
    ensures Flatten(blocks[..q + 1]) == Flatten(blocks[..q]) + blocks[q]
  {
    assert blocks[..q + 1][..q] == blocks[..q];
  }

  /** One more item of the current block. */
  lemma PrefixSnoc<T>(done: seq<T>, block: seq<T>, r: nat)
    requires r < |block|
    ensures (done + block[..r]) + [block[r]] == done + block[..r + 1]
  {
    assert block[..r + 1] == block[..r] + [block[r]];
  }

  /** Before the inner loop of block q runs, nothing of block q is written. */
  lemma BlockStart<T>(blocks: seq<seq<T>>, q: nat)
    requires q < |blocks|
    ensures Flatten(blocks[..q]) + blocks[q][..0] == Flatten(blocks[..q])
  {
    assert blocks[q][..0] == [];
  }

  /** Once the inner loop has run over all r elements of block q, the block is closed. */
  lemma BlockDone<T>(blocks: seq<seq<T>>, q: nat, r: nat)
    requires q < |blocks| && r == |blocks[q]|
    ensures Flatten(blocks[..q]) + blocks[q][..r] == Flatten(blocks[..q + 1])
  {
    FlattenPrefixSnoc(blocks, q);
    assert blocks[q][..r] == blocks[q];
  }

  lemma {:induction false} FlattenLength<T>(blocks: seq<seq<T>>, d: nat)
    requires Uniform(blocks, d)
    ensures |Flatten(blocks)| == |blocks| * d
    decreases |blocks|
  {
    if blocks != [] {
      var m := |blocks| - 1;
      FlattenLength(blocks[..m], d);
      assert |blocks| * d == m * d + d;
    }
  }

  /** Item r of block q sits at position q * d + r of the flattened sequence. */
  lemma {:induction false} FlattenAt<T>(blocks: seq<seq<T>>, d: nat, q: nat, r: nat)
    requires Uniform(blocks, d) && q < |blocks| && r < d
    ensures |Flatten(blocks)| == |blocks| * d
    ensures q * d + r < |Flatten(blocks)|
    ensures Flatten(blocks)[q * d + r] == blocks[q][r]
    decreases |blocks|
  {
    FlattenLength(blocks, d);
    PositionBelow(q, r, |blocks|, d);
    var m := |blocks| - 1;
    FlattenLength(blocks[..m], d);
    if q < m {
      FlattenAt(blocks[..m], d, q, r);
      PositionBelow(q, r, m, d);
    }
  }

  /**
   * Item c of inner block b of outer block q sits at position p = (q * m + b) * d + c
   * when every outer block is the flattening of m inner blocks of d items.
   */
  lemma FlattenAt2<T>(outer: seq<seq<T>>, inner: seq<seq<T>>, m: nat, d: nat, q: nat, b: nat, c: nat, p: nat)
    requires Uniform(outer, m * d) && q < |outer|
    requires Uniform(inner, d) && |inner| == m && outer[q] == Flatten(inner)
    requires b < m && c < d
    requires p == (q * m + b) * d + c
    ensures p < |Flatten(outer)| && Flatten(outer)[p] == inner[b][c]
  {
    FlattenAt(inner, d, b, c);
    PositionBelow(b, c, m, d);
    FlattenAt(outer, m * d, q, b * d + c);
    PositionSplit(q, b, c, m, d);
  }

  /** Nothing comes out of loops whose inner loop never runs. */
  lemma FlattenEmptyBlocks<T>(blocks: seq<seq<T>>)
    requires Uniform(blocks, 0)
    ensures Flatten(blocks) == []
  {
    FlattenLength(blocks, 0);
  }
}
