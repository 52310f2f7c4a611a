/** Cutting a tensor into shards: `shard_bounds` of `realsim/tools/_benchmark_harness.py`. */
module Shards {
  import opened Basics

  /** Where a rank's piece of an extent starts, and how long it is. */
  function Piece(size: nat, rank: nat, shards: nat): (nat, nat)
    requires shards > 0
  {
    var width := CeilDiv(size, shards);
    var offset := Min(rank * width, size);
    (offset, Min(width, size - offset))
  }

  /** Offsets and local shape of a rank's piece; without a dimension to split it is the whole tensor. */
  function ShardBounds(shape: seq<nat>, dim: Option<nat>, rank: nat, shards: nat): (r: (seq<nat>, seq<nat>))
    requires shards > 0 && (dim.Some? ==> dim.value < |shape|)
    ensures |r.0| == |r.1| == |shape|
  {
    if dim.None? then (seq(|shape|, axis => 0), shape) else
      var (offset, length) := Piece(shape[dim.value], rank, shards);
      (seq(|shape|, axis => if axis == dim.value then offset else 0), shape[dim.value := length])
  }

  /**
   Pieces are as wide as the widest has to be: with `width` the least that covers the extent, a rank's
   piece runs from `rank` widths to one more, stopping at the end of the extent.
   */
  lemma PieceIs(size: nat, rank: nat, shards: nat, width: nat)
    requires shards > 0 && (width - 1) * shards < size <= width * shards
    ensures var (offset, length) := Piece(size, rank, shards);
      && offset == (if rank * width <= size then rank * width else size)
      && offset + length == (if (rank + 1) * width <= size then (rank + 1) * width else size)
  {
    CeilDivIs(size, shards, width);
    assert (rank + 1) * width == rank * width + width;
  }

  /** Only the split dimension is cut, and nothing is without one. */
  lemma OneDimensionIsCut(shape: seq<nat>, dim: Option<nat>, rank: nat, shards: nat, axis: nat)
    requires shards > 0 && (dim.Some? ==> dim.value < |shape|) && axis < |shape|
    ensures var (offsets, extents) := ShardBounds(shape, dim, rank, shards);
      (offsets[axis], extents[axis]) == if dim == Some(axis) then Piece(shape[axis], rank, shards) else (0, shape[axis])
  {}

  /** A cell lies in a box. */
  ghost predicate Inside(cell: seq<nat>, offsets: seq<nat>, extents: seq<nat>) {
    && |cell| == |offsets| == |extents|
    && forall axis: nat :: axis < |cell| ==> offsets[axis] <= cell[axis] < offsets[axis] + extents[axis]
  }

  /** Which rank's piece of an extent holds a place. */
  lemma PieceOf(size: nat, shards: nat, x: nat) returns (rank: nat)
    requires shards > 0 && x < size
    ensures rank < shards
    ensures forall other: nat :: InPiece(size, other, shards, x) <==> other == rank
  {
    hide CeilDiv, InPiece;
    var width := CeilDiv(size, shards);
    CeilDivIs(size, shards, width);
    CeilDivIs(size, shards, 0);
    rank := x / width;
    Division(x, width, rank);
    Below(rank, width, shards, x, size);
    forall other: nat
      ensures InPiece(size, other, shards, x) <==> other == rank
    {
      InPieceIs(size, other, shards, x);
      if other < rank { Scaled(other + 1, rank, width); }
      if other > rank { Scaled(rank + 1, other, width); }
    }
  }

  lemma InPieceIs(size: nat, rank: nat, shards: nat, x: nat)
    requires shards > 0 && x < size
    ensures var width := CeilDiv(size, shards);
      InPiece(size, rank, shards, x) <==> rank * width <= x < (rank + 1) * width
  {
    var width := CeilDiv(size, shards);
    assert (rank + 1) * width == rank * width + width;
  }

  lemma Below(rank: nat, width: nat, shards: nat, x: nat, size: nat)
    requires rank * width <= x < size <= width * shards
    ensures rank < shards
  {
    if rank >= shards { Scaled(shards, rank, width); }
  }

  predicate InPiece(size: nat, rank: nat, shards: nat, x: nat)
    requires shards > 0
  {
    var (offset, length) := Piece(size, rank, shards);
    offset <= x < offset + length
  }

  /** Shards tile the tensor: every cell is in exactly one rank's piece, at any size and number of shards. */
  lemma ShardsTile(shape: seq<nat>, dim: nat, shards: nat, cell: seq<nat>) returns (rank: nat)
    requires shards > 0 && dim < |shape| == |cell|
    requires forall axis: nat :: axis < |cell| ==> cell[axis] < shape[axis]
    ensures rank < shards
    ensures forall other: nat ::
      other == rank <==>
        Inside(cell, ShardBounds(shape, Some(dim), other, shards).0, ShardBounds(shape, Some(dim), other, shards).1)
  {
    hide Piece;
    rank := PieceOf(shape[dim], shards, cell[dim]);
    forall other: nat
      ensures Inside(cell, ShardBounds(shape, Some(dim), other, shards).0,
        ShardBounds(shape, Some(dim), other, shards).1)
        <==> InPiece(shape[dim], other, shards, cell[dim])
    {
      var (offset, length) := Piece(shape[dim], other, shards);
      var (offsets, extents) := ShardBounds(shape, Some(dim), other, shards);
      assert offsets[dim] == offset && extents[dim] == length;
    }
  }
}
