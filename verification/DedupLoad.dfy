/**
 The whole dedup load: every rank reads the leaves it is the elected reader of, then
 `_broadcast_state_dict` issues its collectives one after the other and rebuilds the dictionaries.
 */
module DedupLoad {
  import opened Wrappers
  import opened DeviceMesh
  import opened Keys
  import opened StateTree

  ghost predicate ValidKinds(t: Tree, world: nat) {
    match t
    case Leaf(kind, _) => kind.Valid(world)
    case Dict(entries) => forall i | 0 <= i < |entries| :: ValidKinds(entries[i].value, world)
    case Items(_, items) => forall i | 0 <= i < |items| :: ValidKinds(items[i], world)
  }

  /** All ranks hold trees of one structure, without duplicate keys, on meshes that span `world` ranks. */
  ghost predicate Aligned(trees: seq<Tree>, world: nat) {
    && |trees| == world > 0
    && (forall r: nat | r < world :: ValidKinds(trees[r], world) && WellFormed(trees[r]))
    && (forall a: nat, b: nat | a < world && b < world :: SameShape(trees[a], trees[b]))
  }

  /** Every rank has the same leaves of the same kinds. */
  lemma {:induction false} SameLeaves(a: Tree, b: Tree, path: Path)
    requires SameShape(a, b)
    ensures LeafAt(a, path).Some? == LeafAt(b, path).Some?
    ensures LeafAt(a, path).Some? ==> LeafAt(a, path).value.kind == LeafAt(b, path).value.kind
    decreases a
  {
    match a
    case Leaf(_, _) =>
    case Dict(entries) =>
      if path != [] && path[0].At? && path[0].key in KeysOf(entries) {
        LookupIsSmaller(a, path[0].key);
        SameLeaves(Lookup(entries, path[0].key), Lookup(b.entries, path[0].key), path[1..]);
      }
    case Items(_, items) =>
      if path != [] && path[0].Nth? && path[0].index < |items| {
        SameLeaves(items[path[0].index], b.items[path[0].index], path[1..]);
      }
  }

  lemma {:induction false} LeafKindIsValid(t: Tree, world: nat, path: Path)
    requires ValidKinds(t, world) && LeafAt(t, path).Some?
    ensures LeafAt(t, path).value.kind.Valid(world)
    decreases t
  {
    match t
    case Leaf(_, _) =>
    case Dict(entries) =>
      var v := Lookup(entries, path[0].key);
      var i :| 0 <= i < |entries| && entries[i] == Entry(path[0].key, v);
      LeafKindIsValid(entries[i].value, world, path[1..]);
    case Items(_, items) => LeafKindIsValid(items[path[0].index], world, path[1..]);
  }

  lemma {:induction false} MapLeavesKinds(t: Tree, base: Path, f: (Path, LeafInfo) -> Value, world: nat)
    requires ValidKinds(t, world)
    ensures ValidKinds(MapLeaves(t, base, f), world)
    decreases t
  {
    match t
    case Leaf(_, _) =>
    case Dict(entries) =>
      forall i | 0 <= i < |entries| ensures ValidKinds(MapLeaves(entries[i].value, base + [At(entries[i].key)], f), world) {
        MapLeavesKinds(entries[i].value, base + [At(entries[i].key)], f, world);
      }
    case Items(_, items) =>
      forall i | 0 <= i < |items| ensures ValidKinds(MapLeaves(items[i], base + [Nth(i)], f), world) {
        MapLeavesKinds(items[i], base + [Nth(i)], f, world);
      }
  }

  // ---------------------------------------------------------------------------------------------
  // The effect of the collectives on all ranks' trees
  // ---------------------------------------------------------------------------------------------

  /** A broadcast over a mesh that spans the world, or over the world itself. */
  ghost predicate ValidCollective(c: Collective, world: nat) {
    && !c.ObjectBroadcast?
    && (c.MeshBroadcast? ==> c.mesh.Valid() && |c.mesh.coords| == world)
  }

  ghost predicate AllValid(cs: seq<Collective>, world: nat) {
    forall i | 0 <= i < |cs| :: ValidCollective(cs[i], world)
  }

  /** The rank whose leaf rank `r` receives. */
  function Source(c: Collective, r: nat, ghost world: nat): (s: nat)
    requires ValidCollective(c, world) && r < world
    ensures s < world
  {
    match c
    case MeshBroadcast(_, mesh, dim) => SourceRank(mesh, r, [dim])
    case WorldBroadcast(_) => 0
  }

  function ReceiveLeaf(path: Path, source: Option<LeafInfo>): (Path, LeafInfo) -> Value {
    (p: Path, leaf: LeafInfo) => if p == path && source.Some? then source.value.value else leaf.value
  }

  /** Overwrites the leaf at `path` with the one `source` holds there. */
  function Receive(t: Tree, path: Path, source: Tree): Tree {
    MapLeaves(t, [], ReceiveLeaf(path, LeafAt(source, path)))
  }

  /** One collective: on every rank the leaf at its path becomes the source rank's. */
  function Broadcast(trees: seq<Tree>, c: Collective, ghost world: nat): (after: seq<Tree>)
    requires ValidCollective(c, world) && |trees| == world
    ensures |after| == world
  {
    seq(|trees|, r requires 0 <= r < |trees| => Receive(trees[r], c.path, trees[Source(c, r, world)]))
  }

  lemma BroadcastKeepsAligned(trees: seq<Tree>, c: Collective, world: nat)
    requires Aligned(trees, world) && ValidCollective(c, world)
    ensures Aligned(Broadcast(trees, c, world), world)
  {
    var after := Broadcast(trees, c, world);
    forall r: nat | r < world ensures ValidKinds(after[r], world) && WellFormed(after[r]) {
      var f := ReceiveLeaf(c.path, LeafAt(trees[Source(c, r, world)], c.path));
      MapLeavesKinds(trees[r], [], f, world);
      MapLeavesWellFormed(trees[r], [], f);
    }
    forall a: nat, b: nat | a < world && b < world ensures SameShape(after[a], after[b]) {
      MapLeavesShape(trees[a], trees[b], [], [], ReceiveLeaf(c.path, LeafAt(trees[Source(c, a, world)], c.path)),
                     ReceiveLeaf(c.path, LeafAt(trees[Source(c, b, world)], c.path)));
    }
  }

  lemma BroadcastKeepsForm(trees: seq<Tree>, c: Collective, world: nat, r: nat)
    requires ValidCollective(c, world) && |trees| == world && r < world
    ensures SameForm(Broadcast(trees, c, world)[r], trees[r])
  {
    MapLeavesForm(trees[r], [], ReceiveLeaf(c.path, LeafAt(trees[Source(c, r, world)], c.path)));
  }

  /** All collectives, one after the other. */
  ghost function BroadcastAll(trees: seq<Tree>, cs: seq<Collective>, world: nat): (after: seq<Tree>)
    requires AllValid(cs, world) && |trees| == world
    ensures |after| == world
  {
    if cs == [] then trees
    else
      var n := |cs| - 1;
      assert AllValid(cs[..n], world);
      Broadcast(BroadcastAll(trees, cs[..n], world), cs[n], world)
  }

  lemma {:induction false} BroadcastAllKeepsAligned(trees: seq<Tree>, cs: seq<Collective>, world: nat)
    requires Aligned(trees, world) && AllValid(cs, world)
    ensures Aligned(BroadcastAll(trees, cs, world), world)
  {
    if cs != [] {
      var n := |cs| - 1;
      BroadcastAllKeepsAligned(trees, cs[..n], world);
      BroadcastKeepsAligned(BroadcastAll(trees, cs[..n], world), cs[n], world);
    }
  }

  lemma {:induction false} BroadcastAllKeepsForm(trees: seq<Tree>, cs: seq<Collective>, world: nat, r: nat)
    requires AllValid(cs, world) && |trees| == world && r < world
    ensures SameForm(BroadcastAll(trees, cs, world)[r], trees[r])
  {
    if cs == [] {
      FormIsReflexive(trees[r]);
    } else {
      var n := |cs| - 1;
      var before := BroadcastAll(trees, cs[..n], world);
      BroadcastAllKeepsForm(trees, cs[..n], world, r);
      BroadcastKeepsForm(before, cs[n], world, r);
      FormIsTransitive(Broadcast(before, cs[n], world)[r], before[r], trees[r]);
    }
  }

  /** The walk of a valid tree issues valid collectives. */
  lemma {:induction false} WalkIsValid(t: Tree, base: Path, world: nat)
    requires ValidKinds(t, world)
    ensures AllValid(Walk(t, base), world)
    decreases t, 1, 0
  {
    match t
    case Leaf(_, _) =>
    case Dict(entries) =>
      SortedKeeps(KeysOf(entries));
      WalkKeysAreValid(t, Sorted(KeysOf(entries)), base, world);
    case Items(_, _) => WalkItemsAreValid(t, 0, base, world);
  }

  lemma {:induction false} WalkKeysAreValid(t: Tree, keys: seq<Key>, base: Path, world: nat)
    requires t.Dict? && ValidKinds(t, world) && forall k | k in keys :: k in KeysOf(t.entries)
    ensures AllValid(WalkKeys(t, keys, base), world)
    decreases t, 0, |keys|
  {
    if keys != [] {
      var child := Lookup(t.entries, keys[0]);
      LookupIsSmaller(t, keys[0]);
      WalkIsValid(child, base + [At(keys[0])], world);
      WalkKeysAreValid(t, keys[1..], base, world);
    }
  }

  lemma {:induction false} WalkItemsAreValid(t: Tree, i: nat, base: Path, world: nat)
    requires t.Items? && ValidKinds(t, world) && i <= |t.items|
    ensures AllValid(WalkItems(t, i, base), world)
    decreases t, 0, |t.items| - i
  {
    if i < |t.items| {
      WalkIsValid(t.items[i], base + [Nth(i)], world);
      WalkItemsAreValid(t, i + 1, base, world);
    }
  }

  // ---------------------------------------------------------------------------------------------
  // One position at a time
  // ---------------------------------------------------------------------------------------------

  /** The ranks' leaves at one position. */
  ghost function LeavesAt(trees: seq<Tree>, path: Path): seq<Option<LeafInfo>> {
    seq(|trees|, r requires 0 <= r < |trees| => LeafAt(trees[r], path))
  }

  ghost function HandOn<V>(values: seq<V>, c: Collective, world: nat): seq<V>
    requires ValidCollective(c, world) && |values| == world
  {
    seq(|values|, r requires 0 <= r < |values| => values[Source(c, r, world)])
  }

  ghost function HandOnAll<V>(values: seq<V>, cs: seq<Collective>, world: nat): (after: seq<V>)
    requires AllValid(cs, world) && |values| == world
    ensures |after| == world
  {
    if cs == [] then values
    else
      assert AllValid(cs[..|cs| - 1], world);
      HandOn(HandOnAll(values, cs[..|cs| - 1], world), cs[|cs| - 1], world)
  }

  /** A collective moves the leaves at its own path and touches no other. */
  lemma BroadcastAt(trees: seq<Tree>, c: Collective, world: nat, path: Path)
    requires Aligned(trees, world) && ValidCollective(c, world)
    ensures LeavesAt(Broadcast(trees, c, world), path) ==
      if Concerns(c, path) then HandOn(LeavesAt(trees, path), c, world) else LeavesAt(trees, path)
  {
    forall r: nat | r < world
      ensures LeafAt(Broadcast(trees, c, world)[r], path) ==
        if Concerns(c, path) then LeafAt(trees[Source(c, r, world)], path) else LeafAt(trees[r], path)
    {
      MapLeavesAt(trees[r], [], ReceiveLeaf(c.path, LeafAt(trees[Source(c, r, world)], c.path)), path);
      assert [] + path == path;
      SameLeaves(trees[r], trees[Source(c, r, world)], path);
    }
  }

  lemma ForIsValid(cs: seq<Collective>, path: Path, world: nat)
    requires AllValid(cs, world)
    ensures AllValid(For(cs, path), world)
  {
    if cs != [] {
      ForIsValid(cs[..|cs| - 1], path, world);
    }
  }

  /** Only the collectives for a position matter to it. */
  lemma {:induction false} BroadcastAllAt(trees: seq<Tree>, cs: seq<Collective>, world: nat, path: Path)
    requires Aligned(trees, world) && AllValid(cs, world) && AllValid(For(cs, path), world)
    ensures LeavesAt(BroadcastAll(trees, cs, world), path) == HandOnAll(LeavesAt(trees, path), For(cs, path), world)
  {
    if cs != [] {
      var n := |cs| - 1;
      ForIsValid(cs[..n], path, world);
      BroadcastAllAt(trees, cs[..n], world, path);
      BroadcastAllKeepsAligned(trees, cs[..n], world);
      BroadcastAt(BroadcastAll(trees, cs[..n], world), cs[n], world, path);
      var before := For(cs[..n], path);
      assert Concerns(cs[n], path) ==> (before + [cs[n]])[..|before|] == before;
      assert !Concerns(cs[n], path) ==> For(cs, path) == before;
    }
  }

  /** The broadcasts along a list of dimensions, in order. */
  lemma {:induction false} DimsHandOn<V>(values: seq<V>, path: Path, mesh: Mesh, dims: seq<nat>, world: nat)
    requires mesh.Valid() && |mesh.coords| == |values| == world && AllValid(DimBroadcasts(path, mesh, dims), world)
    ensures HandOnAll(values, DimBroadcasts(path, mesh, dims), world) == Gathered(mesh, values, dims)
  {
    if dims == [] {
      GatheredNothing(mesh, values);
    } else {
      var n := |dims| - 1;
      assert DimBroadcasts(path, mesh, dims)[..n] == DimBroadcasts(path, mesh, dims[..n]);
      DimsHandOn(values, path, mesh, dims[..n], world);
      GatheredStep(mesh, values, dims[..n], dims[n]);
      assert dims[..n] + [dims[n]] == dims;
    }
  }

  /** A leaf's collectives hand every rank what its elected reader held. */
  lemma LeafHandOn<V>(values: seq<V>, path: Path, kind: LeafKind, world: nat)
    requires kind.Valid(world) && kind.IsTensor() && |values| == world && AllValid(LeafCollectives(path, kind), world)
    ensures forall r: nat | r < world :: HandOnAll(values, LeafCollectives(path, kind), world)[r] == values[Reader(kind, r, world)]
  {
    match kind
    case DTensor(mesh, placements) =>
      DimsHandOn(values, path, mesh, ReplicateDims(mesh.shape, placements, 0), world);
    case PlainTensor =>
      assert [WorldBroadcast(path)][..0] == [];
    case Scalar =>
  }

  // ---------------------------------------------------------------------------------------------
  // The whole pass
  // ---------------------------------------------------------------------------------------------

  /** All ranks' trees after the tensor broadcasts of the walk. */
  ghost function AfterWalk(trees: seq<Tree>, world: nat): (after: seq<Tree>)
    requires Aligned(trees, world)
    ensures |after| == world
  {
    WalkIsValid(trees[0], [], world);
    BroadcastAll(trees, Walk(trees[0], []), world)
  }

  /** The sequence of broadcasts leaves every rank with its reader's tensors, and moves nothing else. */
  lemma AfterWalkAt(trees: seq<Tree>, world: nat, r: nat, path: Path)
    requires Aligned(trees, world) && r < world
    ensures LeafAt(trees[r], path).Some? ==> LeafAt(trees[r], path).value.kind.Valid(world)
    ensures var l := LeafAt(trees[r], path);
      LeafAt(AfterWalk(trees, world)[r], path) ==
        if l.Some? && l.value.kind.IsTensor() then LeafAt(trees[Reader(l.value.kind, r, world)], path) else l
  {
    var cs, leaves := Walk(trees[0], []), LeavesAt(trees, path);
    WalkIsValid(trees[0], [], world);
    WalkFor(trees[0], [], path);
    ForIsValid(cs, path, world);
    BroadcastAllAt(trees, cs, world, path);
    assert path[0..] == path;
    SameLeaves(trees[0], trees[r], path);
    assert LeafAt(AfterWalk(trees, world)[r], path) == HandOnAll(leaves, For(cs, path), world)[r];
    if leaves[r].Some? {
      LeafKindIsValid(trees[r], world, path);
      if leaves[r].value.kind.IsTensor() {
        LeafHandOn(leaves, path, leaves[r].value.kind, world);
      }
    }
  }

  lemma AfterWalkAligned(trees: seq<Tree>, world: nat)
    requires Aligned(trees, world)
    ensures Aligned(AfterWalk(trees, world), world)
  {
    WalkIsValid(trees[0], [], world);
    BroadcastAllKeepsAligned(trees, Walk(trees[0], []), world);
  }

  /** Rank `r`'s state dictionary after `_broadcast_state_dict`. */
  ghost function Loaded(trees: seq<Tree>, r: nat, world: nat): Tree
    requires Aligned(trees, world) && r < world
  {
    var after := AfterWalk(trees, world);
    AfterWalkAligned(trees, world);
    ShapeFits(after[r], after[0]);
    Rebuild(after[r], Strip(after[0]))
  }

  /** At every position each rank ends with its elected reader's leaf: global rank 0's for anything that is no DTensor. */
  lemma LoadedAt(trees: seq<Tree>, world: nat, r: nat, path: Path)
    requires Aligned(trees, world) && r < world
    ensures LeafAt(trees[r], path).None? ==> LeafAt(Loaded(trees, r, world), path).None?
    ensures LeafAt(trees[r], path).Some? ==>
      var kind := LeafAt(trees[r], path).value.kind;
      kind.Valid(world) && LeafAt(Loaded(trees, r, world), path) == LeafAt(trees[Reader(kind, r, world)], path)
  {
    var after := AfterWalk(trees, world);
    AfterWalkAligned(trees, world);
    ShapeFits(after[r], after[0]);
    RebuildMerges(after[r], after[0], path);
    AfterWalkAt(trees, world, r, path);
    AfterWalkAt(trees, world, 0, path);
    SameLeaves(trees[r], trees[0], path);
    if LeafAt(trees[r], path).Some? {
      SameLeaves(trees[r], trees[Reader(LeafAt(trees[r], path).value.kind, r, world)], path);
    }
  }

  /** The result has the form of the rank's own dictionary. */
  lemma LoadedKeepsForm(trees: seq<Tree>, world: nat, r: nat)
    requires Aligned(trees, world) && r < world
    ensures SameForm(Loaded(trees, r, world), trees[r])
  {
    var after := AfterWalk(trees, world);
    AfterWalkAligned(trees, world);
    ShapeFits(after[r], after[0]);
    RebuildKeepsForm(after[r], after[0]);
    WalkIsValid(trees[0], [], world);
    BroadcastAllKeepsForm(trees, Walk(trees[0], []), world, r);
    FormIsTransitive(Loaded(trees, r, world), after[r], trees[r]);
  }

  /** At every position rank `r` holds what its elected reader held there, and nothing where there was no leaf. */
  ghost predicate HoldsReaders(result: Tree, trees: seq<Tree>, r: nat, world: nat)
    requires |trees| == world && r < world
  {
    forall path: Path :: HoldsReaderAt(result, trees, r, world, path)
  }

  ghost predicate HoldsReaderAt(result: Tree, trees: seq<Tree>, r: nat, world: nat, path: Path)
    requires |trees| == world && r < world
  {
    match LeafAt(trees[r], path)
    case None => LeafAt(result, path).None?
    case Some(leaf) => leaf.kind.Valid(world) && LeafAt(result, path) == LeafAt(trees[Reader(leaf.kind, r, world)], path)
  }

  /** Such a result of the rank's own form is the one `_broadcast_state_dict` leaves. */
  lemma LoadedIsDetermined(trees: seq<Tree>, world: nat, r: nat, result: Tree)
    requires Aligned(trees, world) && r < world
    ensures result == Loaded(trees, r, world) <==> SameForm(result, trees[r]) && HoldsReaders(result, trees, r, world)
  {
    var loaded := Loaded(trees, r, world);
    LoadedKeepsForm(trees, world, r);
    forall path: Path ensures HoldsReaderAt(loaded, trees, r, world, path) {
      LoadedAt(trees, world, r, path);
    }
    if SameForm(result, trees[r]) && HoldsReaders(result, trees, r, world) {
      FormIsSymmetric(loaded, trees[r]);
      FormIsTransitive(result, trees[r], loaded);
      FormKeepsWellFormed(result, trees[r]);
      FormKeepsWellFormed(loaded, trees[r]);
      forall path: Path ensures LeafAt(result, path) == LeafAt(loaded, path) {
        assert HoldsReaderAt(result, trees, r, world, path) && HoldsReaderAt(loaded, trees, r, world, path);
      }
      FormAndLeaves(result, loaded);
    }
  }

  /** One broadcast, in place on all ranks. */
  method BroadcastInPlace(states: array<Tree>, c: Collective)
    requires ValidCollective(c, states.Length)
    modifies states
    ensures states[..] == Broadcast(old(states[..]), c, states.Length)
  {
    forall r: nat | r < states.Length {
      states[r] := Receive(states[r], c.path, states[Source(c, r, states.Length)]);
    }
  }

  lemma NextCollective(trees: seq<Tree>, cs: seq<Collective>, i: nat, world: nat)
    requires i < |cs| && AllValid(cs, world) && |trees| == world
    ensures AllValid(cs[..i], world) && AllValid(cs[..i + 1], world)
    ensures BroadcastAll(trees, cs[..i + 1], world) == Broadcast(BroadcastAll(trees, cs[..i], world), cs[i], world)
  {
    assert cs[..i + 1][..i] == cs[..i];
  }

  /** Step 1: every tensor leaf is broadcast from its reader, in the order of the walk. */
  method WalkTensors(states: array<Tree>)
    requires Aligned(states[..], states.Length)
    modifies states
    ensures states[..] == AfterWalk(old(states[..]), states.Length)
  {
    ghost var before, world := states[..], states.Length;
    var cs := Walk(states[0], []);
    WalkIsValid(before[0], [], world);
    for i := 0 to |cs|
      invariant AllValid(cs[..i], world) && states[..] == BroadcastAll(before, cs[..i], world)
    {
      NextCollective(before, cs, i, world);
      BroadcastInPlace(states, cs[i]);
    }
    assert cs[..|cs|] == cs;
  }

  /** Step 3: every rank rebuilds its own dictionary around the skeleton. */
  method RebuildOnAllRanks(states: array<Tree>, skeleton: Tree)
    requires forall r: nat | r < states.Length :: Fits(states[..][r], skeleton)
    modifies states
    ensures forall r: nat | r < states.Length :: Fits(old(states[..])[r], skeleton) && states[r] == Rebuild(old(states[..])[r], skeleton)
  {
    ghost var before := states[..];
    for r := 0 to states.Length
      invariant forall s: nat | s < states.Length :: Fits(before[s], skeleton)
      invariant forall s: nat | s < r :: states[s] == Rebuild(before[s], skeleton)
      invariant forall s: nat | r <= s < states.Length :: states[s] == before[s]
    {
      states[r] := Rebuild(states[r], skeleton);
    }
  }

  /**
   `_broadcast_state_dict` over all ranks at once: `states[r]` is rank `r`'s state dictionary. Every
   rank issues the same collectives, so rank 0's walk stands for all of them.
   */
  method BroadcastStateDict(states: array<Tree>)
    requires Aligned(states[..], states.Length)
    modifies states
    ensures forall r: nat | r < states.Length ::
      Collectives(old(states[..])[r]) == Collectives(old(states[..])[0]) && OneObjectLast(Collectives(old(states[..])[r]))
    ensures forall r: nat | r < states.Length ::
      && SameForm(states[r], old(states[..])[r])
      && HoldsReaders(states[r], old(states[..]), r, states.Length)
      && states[r] == Loaded(old(states[..]), r, states.Length)
  {
    ghost var before, world := states[..], states.Length;
    forall r: nat | r < world
      ensures Collectives(before[r]) == Collectives(before[0]) && OneObjectLast(Collectives(before[r]))
    {
      Lockstep(before[r], before[0]);
    }
    WalkTensors(states);
    AfterWalkAligned(before, world);
    ghost var after := states[..];
    forall r: nat | r < world ensures Fits(after[r], Strip(after[0])) {
      ShapeFits(after[r], after[0]);
    }
    RebuildOnAllRanks(states, Strip(states[0]));
    forall r: nat | r < world
      ensures SameForm(states[r], before[r]) && HoldsReaders(states[r], before, r, world) && states[r] == Loaded(before, r, world)
    {
      LoadedIsDetermined(before, world, r, states[r]);
    }
  }

  // ---------------------------------------------------------------------------------------------
  // Dedup load against redundant load
  // ---------------------------------------------------------------------------------------------

  /** What the checkpoint holds for a rank at a position. */
  type Stored = (nat, Path) -> Value

  /** Every rank reads every leaf its plan keeps; a leaf may be skipped or missing from a partial checkpoint. */
  ghost function ReadEverything(stored: Stored, requested: Path -> bool, r: nat): (Path, LeafInfo) -> Value {
    (path: Path, leaf: LeafInfo) => if requested(path) then stored(r, path) else leaf.value
  }

  /** The planner drops the reads this rank is not the elected reader for. */
  ghost function ReadOwn(stored: Stored, requested: Path -> bool, r: nat, world: nat): (Path, LeafInfo) -> Value {
    (path: Path, leaf: LeafInfo) =>
      if requested(path) && r < world && leaf.kind.Valid(world) && IsAssignedReader(leaf.kind, r, world)
      then stored(r, path) else leaf.value
  }

  ghost function RedundantRead(init: seq<Tree>, stored: Stored, requested: Path -> bool): seq<Tree> {
    seq(|init|, r requires 0 <= r < |init| => MapLeaves(init[r], [], ReadEverything(stored, requested, r)))
  }

  ghost function DedupRead(init: seq<Tree>, stored: Stored, requested: Path -> bool, world: nat): seq<Tree>
    requires |init| == world
  {
    seq(|init|, r requires 0 <= r < |init| => MapLeaves(init[r], [], ReadOwn(stored, requested, r, world)))
  }

  lemma DedupReadAligned(init: seq<Tree>, stored: Stored, requested: Path -> bool, world: nat)
    requires Aligned(init, world)
    ensures Aligned(DedupRead(init, stored, requested, world), world)
  {
    var trees := DedupRead(init, stored, requested, world);
    forall r: nat | r < world ensures ValidKinds(trees[r], world) && WellFormed(trees[r]) {
      MapLeavesKinds(init[r], [], ReadOwn(stored, requested, r, world), world);
      MapLeavesWellFormed(init[r], [], ReadOwn(stored, requested, r, world));
    }
    forall a: nat, b: nat | a < world && b < world ensures SameShape(trees[a], trees[b]) {
      MapLeavesShape(init[a], init[b], [], [], ReadOwn(stored, requested, a, world), ReadOwn(stored, requested, b, world));
    }
  }

  /** The ranks' values at a position: stored, and before the load. */
  ghost function StoredAt(stored: Stored, world: nat, path: Path): (values: seq<Value>)
    ensures |values| == world
  {
    seq(world, r requires 0 <= r => stored(r, path))
  }

  ghost function ValuesAt(trees: seq<Tree>, path: Path): (values: seq<Value>)
    ensures |values| == |trees|
  {
    seq(|trees|, r requires 0 <= r < |trees| =>
      if LeafAt(trees[r], path).Some? then LeafAt(trees[r], path).value.value else NoneValue)
  }

  /** After the dedup load all ranks hold at `path` what the redundant load would have given them. */
  ghost predicate AgreesAt(init: seq<Tree>, stored: Stored, requested: Path -> bool, world: nat, path: Path)
    requires Aligned(init, world)
  {
    DedupReadAligned(init, stored, requested, world);
    forall r: nat | r < world ::
      LeafAt(Loaded(DedupRead(init, stored, requested, world), r, world), path)
      == LeafAt(RedundantRead(init, stored, requested)[r], path)
  }

  /** Rank `r` ends with the dictionary the redundant load would have given it. */
  ghost predicate AgreesOn(init: seq<Tree>, stored: Stored, requested: Path -> bool, world: nat, r: nat)
    requires Aligned(init, world) && r < world
  {
    DedupReadAligned(init, stored, requested, world);
    Loaded(DedupRead(init, stored, requested, world), r, world) == RedundantRead(init, stored, requested)[r]
  }

  lemma AgreesPositionally(init: seq<Tree>, stored: Stored, requested: Path -> bool, world: nat, path: Path)
    requires Aligned(init, world) && forall r: nat | r < world :: AgreesOn(init, stored, requested, world, r)
    ensures AgreesAt(init, stored, requested, world, path)
  {
    DedupReadAligned(init, stored, requested, world);
    forall r: nat | r < world
      ensures LeafAt(Loaded(DedupRead(init, stored, requested, world), r, world), path)
              == LeafAt(RedundantRead(init, stored, requested)[r], path)
    {
      assert AgreesOn(init, stored, requested, world, r);
    }
  }

  lemma AgreesEverywhere(init: seq<Tree>, stored: Stored, requested: Path -> bool, world: nat, r: nat)
    requires Aligned(init, world) && r < world && forall path: Path :: AgreesAt(init, stored, requested, world, path)
    ensures AgreesOn(init, stored, requested, world, r)
  {
    DedupReadAligned(init, stored, requested, world);
    var trees := DedupRead(init, stored, requested, world);
    var loaded, wanted := Loaded(trees, r, world), RedundantRead(init, stored, requested)[r];
    LoadedKeepsForm(trees, world, r);
    MapLeavesForm(init[r], [], ReadOwn(stored, requested, r, world));
    MapLeavesForm(init[r], [], ReadEverything(stored, requested, r));
    FormIsTransitive(loaded, trees[r], init[r]);
    FormIsSymmetric(wanted, init[r]);
    FormIsTransitive(loaded, init[r], wanted);
    FormKeepsWellFormed(loaded, init[r]);
    FormKeepsWellFormed(wanted, init[r]);
    forall path: Path ensures LeafAt(loaded, path) == LeafAt(wanted, path) {
      assert AgreesAt(init, stored, requested, world, path);
    }
    FormAndLeaves(loaded, wanted);
  }

  /** The leaf at `path` may be broadcast: it was read, or the ranks' own values were replicated already. */
  ghost predicate MayBroadcast(init: seq<Tree>, requested: Path -> bool, world: nat, path: Path)
    requires Aligned(init, world)
  {
    var l := LeafAt(init[0], path);
    l.Some? ==> requested(path) || (l.value.kind.Valid(world) && Consistent(l.value.kind, world, ValuesAt(init, path)))
  }

  /** Replicas are stored with the same bytes. */
  ghost predicate StoredReplicated(init: seq<Tree>, stored: Stored, world: nat)
    requires Aligned(init, world)
  {
    forall path: Path | LeafAt(init[0], path).Some? ::
      LeafAt(init[0], path).value.kind.Valid(world) ==>
        Consistent(LeafAt(init[0], path).value.kind, world, StoredAt(stored, world, path))
  }

  /** What the two reads leave at a position. */
  lemma ReadAt(init: seq<Tree>, stored: Stored, requested: Path -> bool, world: nat, r: nat, path: Path)
    requires Aligned(init, world) && r < world
    ensures LeafAt(DedupRead(init, stored, requested, world)[r], path).Some? == LeafAt(init[0], path).Some?
    ensures LeafAt(RedundantRead(init, stored, requested)[r], path).Some? == LeafAt(init[0], path).Some?
    ensures LeafAt(init[0], path).Some? ==>
      var kind, s, i := LeafAt(init[0], path).value.kind, StoredAt(stored, world, path), ValuesAt(init, path);
      && kind.Valid(world)
      && LeafAt(DedupRead(init, stored, requested, world)[r], path)
         == Some(LeafInfo(kind, AfterRead(kind, world, requested(path), true, s, i, r)))
      && LeafAt(RedundantRead(init, stored, requested)[r], path)
         == Some(LeafInfo(kind, AfterRead(kind, world, requested(path), false, s, i, r)))
  {
    MapLeavesAt(init[r], [], ReadOwn(stored, requested, r, world), path);
    MapLeavesAt(init[r], [], ReadEverything(stored, requested, r), path);
    assert [] + path == path;
    SameLeaves(init[0], init[r], path);
    if LeafAt(init[0], path).Some? {
      LeafKindIsValid(init[0], world, path);
    }
  }

  lemma AgreesIff(init: seq<Tree>, stored: Stored, requested: Path -> bool, world: nat, path: Path)
    requires Aligned(init, world) && StoredReplicated(init, stored, world)
    ensures AgreesAt(init, stored, requested, world, path) <==> MayBroadcast(init, requested, world, path)
  {
    var trees := DedupRead(init, stored, requested, world);
    DedupReadAligned(init, stored, requested, world);
    forall r: nat | r < world
      ensures LeafAt(init[0], path).None? ==>
        LeafAt(Loaded(trees, r, world), path).None? && LeafAt(RedundantRead(init, stored, requested)[r], path).None?
      ensures LeafAt(init[0], path).Some? ==>
        var kind, s, i := LeafAt(init[0], path).value.kind, StoredAt(stored, world, path), ValuesAt(init, path);
        && kind.Valid(world)
        && LeafAt(Loaded(trees, r, world), path)
           == Some(LeafInfo(kind, AfterRead(kind, world, requested(path), true, s, i, Reader(kind, r, world))))
        && LeafAt(RedundantRead(init, stored, requested)[r], path)
           == Some(LeafInfo(kind, AfterRead(kind, world, requested(path), false, s, i, r)))
    {
      ReadAt(init, stored, requested, world, r, path);
      LoadedAt(trees, world, r, path);
      if LeafAt(init[0], path).Some? {
        ReadAt(init, stored, requested, world, Reader(LeafAt(init[0], path).value.kind, r, world), path);
      }
    }
    if LeafAt(init[0], path).Some? {
      LeafKindIsValid(init[0], world, path);
      DedupLeafLoad(LeafAt(init[0], path).value.kind, world, requested(path), StoredAt(stored, world, path), ValuesAt(init, path));
    }
  }

  /**
   Main result: elected reads, the lockstep sequence of broadcasts, strip and rebuild leave every rank
   with exactly the state dictionary it would have read itself, if and only if every leaf was read or had
   been initialised alike on its replicas.
   */
  lemma DedupLoadRefinesRedundantLoad(init: seq<Tree>, stored: Stored, requested: Path -> bool, world: nat)
    requires Aligned(init, world) && StoredReplicated(init, stored, world)
    ensures (forall r: nat | r < world :: AgreesOn(init, stored, requested, world, r))
            <==> (forall path: Path :: MayBroadcast(init, requested, world, path))
  {
    if forall r: nat | r < world :: AgreesOn(init, stored, requested, world, r) {
      forall path: Path ensures MayBroadcast(init, requested, world, path) {
        AgreesPositionally(init, stored, requested, world, path);
        AgreesIff(init, stored, requested, world, path);
      }
    }
    if forall path: Path :: MayBroadcast(init, requested, world, path) {
      forall r: nat | r < world ensures AgreesOn(init, stored, requested, world, r) {
        forall path: Path ensures AgreesAt(init, stored, requested, world, path) {
          AgreesIff(init, stored, requested, world, path);
        }
        AgreesEverywhere(init, stored, requested, world, r);
      }
    }
  }
}
