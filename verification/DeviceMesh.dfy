/**
 Deduplicated reads of one state leaf over a device mesh: one rank per replica group reads the leaf
 (`_is_assigned_reader`), then broadcasts along the replicate dimensions hand it to the others
 (`_broadcast_tensor_leaf`).
 */
module DeviceMesh {
  type Coord = seq<nat>

  datatype Placement = Replicate | Shard(dim: nat) | Partial

  /**
   The meshes one tensor lives on: rank `r` has coordinate `coords[r]` in mesh number `slices[r]`.
   A world mesh has one slice; a sub-mesh repeats the same shape over disjoint slices.
   */
  datatype Mesh = Mesh(shape: seq<nat>, slices: seq<nat>, coords: seq<Coord>) {
    ghost predicate InGrid(c: Coord) {
      |c| == |shape| && forall i | 0 <= i < |c| :: c[i] < shape[i]
    }

    ghost predicate Taken(slice: nat, c: Coord) {
      |slices| == |coords| && exists s: nat :: s < |coords| && slices[s] == slice && coords[s] == c
    }

    ghost predicate Collide(a: nat, b: nat) {
      a < |coords| == |slices| && b < |coords| && slices[a] == slices[b] && coords[a] == coords[b]
    }

    /** Every rank has its own place, and every slice is a full grid. */
    ghost predicate Valid() {
      && |slices| == |coords|
      && (forall r: nat | r < |coords| :: InGrid(coords[r]))
      && (forall a: nat, b: nat | Collide(a, b) :: a == b)
      && (forall r: nat, c: Coord {:trigger Taken(slices[r], c)} | r < |coords| && InGrid(c) :: Taken(slices[r], c))
    }

    function LocalRank(r: nat, dim: nat): nat
      requires r < |coords| && dim < |coords[r]|
    {
      coords[r][dim]
    }

    /** The rank at coordinate `c` of slice `slice`, searched from rank `from` on. */
    function RankAt(slice: nat, c: Coord, from: nat): (r: nat)
      requires |slices| == |coords|
      requires exists s: nat :: from <= s < |coords| && slices[s] == slice && coords[s] == c
      ensures from <= r < |coords| && slices[r] == slice && coords[r] == c
      decreases |coords| - from
    {
      if slices[from] == slice && coords[from] == c then from else RankAt(slice, c, from + 1)
    }
  }

  /** A leaf of the state tree, by how it is replicated. */
  datatype LeafKind =
    | DTensor(mesh: Mesh, placements: seq<Placement>)
    | PlainTensor
    | Scalar
  {
    predicate IsTensor() { !Scalar? }

    ghost predicate Valid(world: nat) {
      world > 0 && (DTensor? ==> mesh.Valid() && |mesh.coords| == world && |placements| == |mesh.shape|)
    }
  }

  /** `_replicate_mesh_dims`: replicate dimensions of size above 1, ascending from `i`. */
  function ReplicateDims(shape: seq<nat>, placements: seq<Placement>, i: nat): (dims: seq<nat>)
    requires |shape| == |placements| && i <= |shape|
    ensures forall k | 0 <= k < |dims| :: dims[k] < |shape|
    decreases |shape| - i
  {
    if i == |shape| then []
    else (if placements[i] == Replicate && shape[i] > 1 then [i] else []) + ReplicateDims(shape, placements, i + 1)
  }

  lemma {:induction false} ReplicateDimsAre(shape: seq<nat>, placements: seq<Placement>, i: nat)
    requires |shape| == |placements| && i <= |shape|
    ensures forall d :: d in ReplicateDims(shape, placements, i) <==>
      i <= d < |shape| && placements[d] == Replicate && shape[d] > 1
    decreases |shape| - i
  {
    if i < |shape| {
      ReplicateDimsAre(shape, placements, i + 1);
    }
  }

  function AllZero(mesh: Mesh, r: nat, dims: seq<nat>): bool
    requires r < |mesh.coords| && forall i | 0 <= i < |dims| :: dims[i] < |mesh.coords[r]|
  {
    forall i | 0 <= i < |dims| :: mesh.LocalRank(r, dims[i]) == 0
  }

  /** `_is_assigned_reader`. */
  predicate IsAssignedReader(kind: LeafKind, r: nat, ghost world: nat)
    requires kind.Valid(world) && r < world
  {
    match kind
    case DTensor(mesh, placements) =>
      ReplicateDimsAre(mesh.shape, placements, 0);
      assert mesh.InGrid(mesh.coords[r]);
      AllZero(mesh, r, ReplicateDims(mesh.shape, placements, 0))
    case _ => r == 0
  }

  // ---------------------------------------------------------------------------------------------
  // Replica groups and their reader
  // ---------------------------------------------------------------------------------------------

  /** Ranks `a` and `b` hold identical shards: same slice, same coordinate along every dimension that is not replicated. */
  ghost predicate SameReplica(kind: LeafKind, world: nat, a: nat, b: nat)
    requires kind.Valid(world) && a < world && b < world
  {
    kind.DTensor? ==>
      && kind.mesh.slices[a] == kind.mesh.slices[b]
      && forall d: nat | d < |kind.mesh.shape| && kind.placements[d] != Replicate ::
           kind.mesh.coords[a][d] == kind.mesh.coords[b][d]
  }

  /** Coordinate `c` moved to 0 along `dims`. */
  function Zeroed(c: Coord, dims: seq<nat>): (z: Coord)
    ensures |z| == |c|
  {
    seq(|c|, i requires 0 <= i < |c| => if i in dims then 0 else c[i])
  }

  lemma ZeroedInGrid(mesh: Mesh, r: nat, dims: seq<nat>)
    requires mesh.Valid() && r < |mesh.coords|
    ensures mesh.InGrid(Zeroed(mesh.coords[r], dims))
  {
    assert mesh.InGrid(mesh.coords[r]);
  }

  /** The rank in `r`'s slice whose coordinate is `r`'s, moved to 0 along `dims`. */
  function SourceRank(mesh: Mesh, r: nat, dims: seq<nat>): (s: nat)
    requires mesh.Valid() && r < |mesh.coords|
    ensures s < |mesh.coords| && mesh.slices[s] == mesh.slices[r] && mesh.coords[s] == Zeroed(mesh.coords[r], dims)
  {
    ZeroedInGrid(mesh, r, dims);
    assert mesh.Taken(mesh.slices[r], Zeroed(mesh.coords[r], dims));
    mesh.RankAt(mesh.slices[r], Zeroed(mesh.coords[r], dims), 0)
  }

  /** The rank that reads the leaf on behalf of `r`. */
  function Reader(kind: LeafKind, r: nat, ghost world: nat): (s: nat)
    requires kind.Valid(world) && r < world
    ensures s < world
  {
    match kind
    case DTensor(mesh, placements) => SourceRank(mesh, r, ReplicateDims(mesh.shape, placements, 0))
    case _ => 0
  }

  lemma SamePlace(mesh: Mesh, a: nat, b: nat)
    requires mesh.Valid() && a < |mesh.coords| && b < |mesh.coords|
    requires mesh.slices[a] == mesh.slices[b] && mesh.coords[a] == mesh.coords[b]
    ensures a == b
  {
    assert mesh.Collide(a, b);
  }

  /** Main result on election: every replica group has exactly one assigned reader. */
  lemma ElectedReader(kind: LeafKind, world: nat, r: nat)
    requires kind.Valid(world) && r < world
    ensures SameReplica(kind, world, r, Reader(kind, r, world))
    ensures IsAssignedReader(kind, Reader(kind, r, world), world)
    ensures forall s: nat | s < world && SameReplica(kind, world, r, s) && IsAssignedReader(kind, s, world) ::
      s == Reader(kind, r, world)
  {
    if kind.DTensor? {
      var mesh, placements := kind.mesh, kind.placements;
      var dims := ReplicateDims(mesh.shape, placements, 0);
      ReplicateDimsAre(mesh.shape, placements, 0);
      var reader := Reader(kind, r, world);
      assert mesh.InGrid(mesh.coords[r]) && mesh.InGrid(mesh.coords[reader]);
      forall s: nat | s < world && SameReplica(kind, world, r, s) && IsAssignedReader(kind, s, world) ensures s == reader {
        assert mesh.InGrid(mesh.coords[s]);
        forall d: nat | d < |mesh.shape| ensures mesh.coords[s][d] == mesh.coords[reader][d] {
          if d in dims {
            var i :| 0 <= i < |dims| && dims[i] == d;
            assert mesh.LocalRank(s, dims[i]) == 0;
          }
        }
        assert mesh.coords[s] == mesh.coords[reader];
        SamePlace(mesh, s, reader);
      }
    }
  }

  /** Members of one replica group elect the same reader. */
  lemma GroupSharesReader(kind: LeafKind, world: nat, a: nat, b: nat)
    requires kind.Valid(world) && a < world && b < world && SameReplica(kind, world, a, b)
    ensures Reader(kind, a, world) == Reader(kind, b, world)
  {
    ElectedReader(kind, world, a);
    ElectedReader(kind, world, b);
  }

  // ---------------------------------------------------------------------------------------------
  // The broadcasts
  // ---------------------------------------------------------------------------------------------

  lemma ZeroedStep(mesh: Mesh, r: nat, dims: seq<nat>, d: nat)
    requires mesh.Valid() && r < |mesh.coords|
    ensures SourceRank(mesh, SourceRank(mesh, r, [d]), dims) == SourceRank(mesh, r, dims + [d])
  {
    var s := SourceRank(mesh, r, [d]);
    assert Zeroed(Zeroed(mesh.coords[r], [d]), dims) == Zeroed(mesh.coords[r], dims + [d]);
    SamePlace(mesh, SourceRank(mesh, s, dims), SourceRank(mesh, r, dims + [d]));
  }

  lemma NothingZeroed(mesh: Mesh, r: nat)
    requires mesh.Valid() && r < |mesh.coords|
    ensures SourceRank(mesh, r, []) == r
  {
    assert Zeroed(mesh.coords[r], []) == mesh.coords[r];
    SamePlace(mesh, SourceRank(mesh, r, []), r);
  }

  /** What every rank holds once the values at coordinate 0 of `dims` have been handed along `dims`. */
  ghost function Gathered<V>(mesh: Mesh, values: seq<V>, dims: seq<nat>): seq<V>
    requires mesh.Valid() && |values| == |mesh.coords|
  {
    seq(|values|, r requires 0 <= r < |values| => values[SourceRank(mesh, r, dims)])
  }

  lemma GatheredStep<V>(mesh: Mesh, values: seq<V>, dims: seq<nat>, d: nat)
    requires mesh.Valid() && |values| == |mesh.coords|
    ensures Gathered(mesh, Gathered(mesh, values, dims), [d]) == Gathered(mesh, values, dims + [d])
  {
    var twice := Gathered(mesh, Gathered(mesh, values, dims), [d]);
    forall r: nat | r < |values| ensures twice[r] == Gathered(mesh, values, dims + [d])[r] {
      ZeroedStep(mesh, r, dims, d);
    }
  }

  lemma GatheredNothing<V>(mesh: Mesh, values: seq<V>)
    requires mesh.Valid() && |values| == |mesh.coords|
    ensures Gathered(mesh, values, []) == values
  {
    forall r: nat | r < |values| ensures Gathered(mesh, values, [])[r] == values[r] {
      NothingZeroed(mesh, r);
    }
  }

  /** One collective: in every group of dimension `dim`, the rank at 0 overwrites the others' buffers. */
  method BroadcastAlong<V>(mesh: Mesh, dim: nat, buffers: array<V>)
    requires mesh.Valid() && buffers.Length == |mesh.coords|
    modifies buffers
    ensures buffers[..] == Gathered(mesh, old(buffers[..]), [dim])
  {
    forall r: nat | r < buffers.Length {
      buffers[r] := buffers[SourceRank(mesh, r, [dim])];
    }
  }

  /** One more dimension handed along. */
  lemma GatheredNext<V>(mesh: Mesh, start: seq<V>, dims: seq<nat>, i: nat)
    requires mesh.Valid() && |start| == |mesh.coords| && i < |dims|
    ensures |Gathered(mesh, start, dims[..i])| == |start|
    ensures Gathered(mesh, Gathered(mesh, start, dims[..i]), [dims[i]]) == Gathered(mesh, start, dims[..i + 1])
  {
    GatheredStep(mesh, start, dims[..i], dims[i]);
    assert dims[..i + 1] == dims[..i] + [dims[i]];
  }

  /** The loop over the replicate dimensions. */
  method BroadcastDims<V>(mesh: Mesh, dims: seq<nat>, buffers: array<V>)
    requires mesh.Valid() && buffers.Length == |mesh.coords|
    modifies buffers
    ensures buffers[..] == Gathered(mesh, old(buffers[..]), dims)
  {
    ghost var start := buffers[..];
    GatheredNothing(mesh, start);
    assert dims[..0] == [];
    for i := 0 to |dims|
      invariant buffers[..] == Gathered(mesh, start, dims[..i])
    {
      GatheredNext(mesh, start, dims, i);
      BroadcastAlong(mesh, dims[i], buffers);
    }
    assert dims[..|dims|] == dims;
  }

  /**
   `_broadcast_tensor_leaf` seen over the whole world: `buffers[r]` is rank `r`'s local tensor.
   After it every rank holds what its elected reader held.
   */
  method BroadcastTensorLeaf<V>(kind: LeafKind, buffers: array<V>, ghost world: nat)
    requires kind.Valid(world) && kind.IsTensor() && buffers.Length == world
    modifies buffers
    ensures forall r: nat | r < world :: buffers[..][r] == old(buffers[..])[Reader(kind, r, world)]
  {
    if kind.DTensor? {
      BroadcastDims(kind.mesh, ReplicateDims(kind.mesh.shape, kind.placements, 0), buffers);
    } else {
      forall r: nat | r < buffers.Length {
        buffers[r] := buffers[0];
      }
    }
  }

  /** The planner drops a read of a DTensor on some rank exactly when the leaf is broadcast afterwards. */
  lemma DroppedIffBroadcast(mesh: Mesh, placements: seq<Placement>, world: nat)
    requires DTensor(mesh, placements).Valid(world)
    ensures ReplicateDims(mesh.shape, placements, 0) != [] <==>
      exists r: nat :: r < world && !IsAssignedReader(DTensor(mesh, placements), r, world)
  {
    var kind, dims := DTensor(mesh, placements), ReplicateDims(mesh.shape, placements, 0);
    ReplicateDimsAre(mesh.shape, placements, 0);
    if dims != [] {
      var d := dims[0];
      assert d in dims;
      assert mesh.InGrid(mesh.coords[0]);
      var c := mesh.coords[0][d := 1];
      assert mesh.InGrid(c);
      assert mesh.Taken(mesh.slices[0], c);
      var r: nat :| r < |mesh.coords| && mesh.slices[r] == mesh.slices[0] && mesh.coords[r] == c;
      assert mesh.LocalRank(r, dims[0]) == 1;
      assert !IsAssignedReader(kind, r, world);
    }
  }

  // ---------------------------------------------------------------------------------------------
  // Dedup load of one leaf
  // ---------------------------------------------------------------------------------------------

  /** Replicas hold the same bytes. */
  ghost predicate Consistent<V>(kind: LeafKind, world: nat, values: seq<V>)
    requires kind.Valid(world) && |values| == world
  {
    forall a: nat, b: nat | a < world && b < world && SameReplica(kind, world, a, b) :: values[a] == values[b]
  }

  /**
   What rank `r` holds after reading: `stored[r]` if its plan keeps the leaf, its initial value otherwise.
   A leaf is requested unless it matches a skip pattern or is missing from a partial checkpoint.
   */
  ghost function AfterRead<V>(kind: LeafKind, world: nat, requested: bool, dedup: bool, stored: seq<V>, init: seq<V>, r: nat): V
    requires kind.Valid(world) && |stored| == world && |init| == world && r < world
  {
    if requested && (dedup ==> IsAssignedReader(kind, r, world)) then stored[r] else init[r]
  }

  /**
   Main result for one leaf: the dedup load equals the load in which every rank reads everything,
   on every rank, if and only if the leaf is read at all or the initial values were already replicated.
   */
  lemma DedupLeafLoad<V>(kind: LeafKind, world: nat, requested: bool, stored: seq<V>, init: seq<V>)
    requires kind.Valid(world) && |stored| == world && |init| == world && Consistent(kind, world, stored)
    ensures (forall r: nat | r < world ::
               AfterRead(kind, world, requested, true, stored, init, Reader(kind, r, world))
               == AfterRead(kind, world, requested, false, stored, init, r))
            <==> (requested || Consistent(kind, world, init))
  {
    forall r: nat | r < world ensures SameReplica(kind, world, r, Reader(kind, r, world)) {
      ElectedReader(kind, world, r);
    }
    if requested {
      forall r: nat | r < world
        ensures AfterRead(kind, world, requested, true, stored, init, Reader(kind, r, world)) == stored[r]
      {
        ElectedReader(kind, world, r);
      }
    } else if forall r: nat | r < world :: init[Reader(kind, r, world)] == init[r] {
      forall a: nat, b: nat | a < world && b < world && SameReplica(kind, world, a, b) ensures init[a] == init[b] {
        GroupSharesReader(kind, world, a, b);
        assert init[Reader(kind, a, world)] == init[a];
      }
    } else {
      var r: nat :| r < world && init[Reader(kind, r, world)] != init[r];
      assert AfterRead(kind, world, requested, true, stored, init, Reader(kind, r, world)) == init[Reader(kind, r, world)];
    }
  }

  /** A skipped leaf that two ranks initialised differently: the dedup load overwrites rank 1's value with rank 0's. */
  lemma SkippedLeafIsOverwritten()
    ensures var init, stored := [10, 11], [0, 0];
      && AfterRead(PlainTensor, 2, false, true, stored, init, Reader(PlainTensor, 1, 2)) == 10
      && AfterRead(PlainTensor, 2, false, false, stored, init, 1) == 11
  {
  }
}
