/**
 Nested state dictionaries under the dedup load (`_broadcast_state_dict`): every rank walks its own
 tree, tensors are broadcast leaf by leaf, and the non-tensor leaves come from rank 0's skeleton.
 */
module StateTree {
  import opened Wrappers
  import opened DeviceMesh
  import opened Keys

  /** The contents of a leaf: tensor bytes or a Python scalar. `NoneValue` is Python's None. */
  datatype Value = NoneValue | Data(bits: seq<int>)

  datatype Entry = Entry(key: Key, value: Tree)

  datatype Tree =
    | Leaf(kind: LeafKind, value: Value)
    | Dict(entries: seq<Entry>)
    | Items(isTuple: bool, items: seq<Tree>)

  function KeysOf(entries: seq<Entry>): seq<Key> {
    seq(|entries|, i requires 0 <= i < |entries| => entries[i].key)
  }

  /** The value stored under `k`. */
  function Lookup(entries: seq<Entry>, k: Key): (t: Tree)
    requires k in KeysOf(entries)
    ensures exists i :: 0 <= i < |entries| && entries[i] == Entry(k, t)
  {
    if entries[0].key == k then entries[0].value
    else
      assert KeysOf(entries[1..]) == KeysOf(entries)[1..];
      Lookup(entries[1..], k)
  }

  lemma LookupIsSmaller(t: Tree, k: Key)
    requires t.Dict? && k in KeysOf(t.entries)
    ensures Lookup(t.entries, k) < t
  {
  }

  // ---------------------------------------------------------------------------------------------
  // Positions
  // ---------------------------------------------------------------------------------------------

  datatype Step = At(key: Key) | Nth(index: nat)

  type Path = seq<Step>

  datatype LeafInfo = LeafInfo(kind: LeafKind, value: Value)

  /** The leaf at `path`, if there is one. */
  function LeafAt(t: Tree, path: Path): Option<LeafInfo>
    decreases t
  {
    match t
    case Leaf(kind, value) => if path == [] then Some(LeafInfo(kind, value)) else None
    case Dict(entries) =>
      if path != [] && path[0].At? && path[0].key in KeysOf(entries)
      then LookupIsSmaller(t, path[0].key); LeafAt(Lookup(entries, path[0].key), path[1..])
      else None
    case Items(_, items) =>
      if path != [] && path[0].Nth? && path[0].index < |items| then LeafAt(items[path[0].index], path[1..]) else None
  }

  /** Same structure: the same keys in any insertion order, the same lengths, the same leaf kinds. */
  ghost predicate SameShape(a: Tree, b: Tree)
    decreases a
  {
    match a
    case Leaf(kind, _) => b.Leaf? && b.kind == kind
    case Dict(entries) =>
      && b.Dict?
      && (forall k :: k in KeysOf(entries) <==> k in KeysOf(b.entries))
      && forall k | k in KeysOf(entries) :: LookupIsSmaller(a, k); SameShape(Lookup(entries, k), Lookup(b.entries, k))
    case Items(isTuple, items) =>
      && b.Items? && b.isTuple == isTuple && |b.items| == |items|
      && forall i | 0 <= i < |items| :: SameShape(items[i], b.items[i])
  }

  /** Same form: the same keys in the same order, the same lengths and kinds of sequences, the same leaf kinds. */
  ghost predicate SameForm(a: Tree, b: Tree)
    decreases a
  {
    match a
    case Leaf(kind, _) => b.Leaf? && b.kind == kind
    case Dict(entries) =>
      && b.Dict? && |b.entries| == |entries|
      && forall i | 0 <= i < |entries| :: b.entries[i].key == entries[i].key && SameForm(entries[i].value, b.entries[i].value)
    case Items(isTuple, items) =>
      && b.Items? && b.isTuple == isTuple && |b.items| == |items|
      && forall i | 0 <= i < |items| :: SameForm(items[i], b.items[i])
  }

  lemma {:induction false} FormIsReflexive(t: Tree)
    ensures SameForm(t, t)
  {
    match t
    case Leaf(_, _) =>
    case Dict(entries) =>
      forall i | 0 <= i < |entries| ensures SameForm(entries[i].value, entries[i].value) {
        FormIsReflexive(entries[i].value);
      }
    case Items(_, items) =>
      forall i | 0 <= i < |items| ensures SameForm(items[i], items[i]) {
        FormIsReflexive(items[i]);
      }
  }

  lemma {:induction false} FormIsTransitive(a: Tree, b: Tree, c: Tree)
    requires SameForm(a, b) && SameForm(b, c)
    ensures SameForm(a, c)
    decreases a
  {
    match a
    case Leaf(_, _) =>
    case Dict(entries) =>
      forall i | 0 <= i < |entries| ensures SameForm(entries[i].value, c.entries[i].value) {
        FormIsTransitive(entries[i].value, b.entries[i].value, c.entries[i].value);
      }
    case Items(_, items) =>
      forall i | 0 <= i < |items| ensures SameForm(items[i], c.items[i]) {
        FormIsTransitive(items[i], b.items[i], c.items[i]);
      }
  }

  lemma {:induction false} FormIsSymmetric(a: Tree, b: Tree)
    requires SameForm(a, b)
    ensures SameForm(b, a)
    decreases a
  {
    match a
    case Leaf(_, _) =>
    case Dict(entries) =>
      forall i | 0 <= i < |entries| ensures SameForm(b.entries[i].value, entries[i].value) {
        FormIsSymmetric(entries[i].value, b.entries[i].value);
      }
    case Items(_, items) =>
      forall i | 0 <= i < |items| ensures SameForm(b.items[i], items[i]) {
        FormIsSymmetric(items[i], b.items[i]);
      }
  }

  /** Every position of `a` holds the leaf `b` has there. */
  ghost predicate SameLeavesAt(a: Tree, b: Tree) {
    forall path: Path :: LeafAt(a, path) == LeafAt(b, path)
  }

  lemma SameLeavesBelow(a: Tree, b: Tree, step: Step, x: Tree, y: Tree)
    requires SameLeavesAt(a, b)
    requires forall rest: Path :: LeafAt(a, [step] + rest) == LeafAt(x, rest) && LeafAt(b, [step] + rest) == LeafAt(y, rest)
    ensures SameLeavesAt(x, y)
  {
    forall rest: Path ensures LeafAt(x, rest) == LeafAt(y, rest) {
      assert LeafAt(a, [step] + rest) == LeafAt(b, [step] + rest);
    }
  }

  lemma LeafBelowKey(t: Tree, i: nat, rest: Path)
    requires WellFormed(t) && t.Dict? && i < |t.entries|
    ensures LeafAt(t, [At(t.entries[i].key)] + rest) == LeafAt(t.entries[i].value, rest)
  {
    LookupEntry(t.entries, i);
    assert ([At(t.entries[i].key)] + rest)[1..] == rest;
  }

  lemma LeafBelowItem(t: Tree, i: nat, rest: Path)
    requires t.Items? && i < |t.items|
    ensures LeafAt(t, [Nth(i)] + rest) == LeafAt(t.items[i], rest)
  {
    assert ([Nth(i)] + rest)[1..] == rest;
  }

  /** Form and leaves determine a tree. */
  lemma {:induction false} FormAndLeaves(a: Tree, b: Tree)
    requires WellFormed(a) && WellFormed(b) && SameForm(a, b) && SameLeavesAt(a, b)
    ensures a == b
    decreases a
  {
    match a
    case Leaf(_, _) => assert LeafAt(a, []) == LeafAt(b, []);
    case Dict(entries) =>
      forall i | 0 <= i < |entries| ensures entries[i] == b.entries[i] {
        forall rest: Path
          ensures LeafAt(a, [At(entries[i].key)] + rest) == LeafAt(entries[i].value, rest)
          ensures LeafAt(b, [At(entries[i].key)] + rest) == LeafAt(b.entries[i].value, rest)
        {
          LeafBelowKey(a, i, rest);
          LeafBelowKey(b, i, rest);
        }
        SameLeavesBelow(a, b, At(entries[i].key), entries[i].value, b.entries[i].value);
        FormAndLeaves(entries[i].value, b.entries[i].value);
      }
      assert entries == b.entries;
    case Items(_, items) =>
      forall i | 0 <= i < |items| ensures items[i] == b.items[i] {
        forall rest: Path
          ensures LeafAt(a, [Nth(i)] + rest) == LeafAt(items[i], rest) && LeafAt(b, [Nth(i)] + rest) == LeafAt(b.items[i], rest)
        {
          LeafBelowItem(a, i, rest);
          LeafBelowItem(b, i, rest);
        }
        SameLeavesBelow(a, b, Nth(i), items[i], b.items[i]);
        FormAndLeaves(items[i], b.items[i]);
      }
      assert items == b.items;
  }

  // ---------------------------------------------------------------------------------------------
  // Lockstep
  // ---------------------------------------------------------------------------------------------

  /** A collective, with the leaf it is issued for. */
  datatype Collective =
    | MeshBroadcast(path: Path, mesh: Mesh, dim: nat)
    | WorldBroadcast(path: Path)
    | ObjectBroadcast

  function DimBroadcasts(path: Path, mesh: Mesh, dims: seq<nat>): seq<Collective> {
    seq(|dims|, i requires 0 <= i < |dims| => MeshBroadcast(path, mesh, dims[i]))
  }

  /** The collectives of `_broadcast_tensor_leaf`. */
  function LeafCollectives(path: Path, kind: LeafKind): seq<Collective> {
    match kind
    case DTensor(mesh, placements) =>
      if |placements| == |mesh.shape| then DimBroadcasts(path, mesh, ReplicateDims(mesh.shape, placements, 0)) else []
    case PlainTensor => [WorldBroadcast(path)]
    case Scalar => []
  }

  /** `_walk_tensors`: dictionary keys are visited in sorted order. */
  function Walk(t: Tree, path: Path): seq<Collective>
    decreases t, 1, 0
  {
    match t
    case Leaf(kind, _) => LeafCollectives(path, kind)
    case Dict(entries) =>
      SortedKeeps(KeysOf(entries));
      WalkKeys(t, Sorted(KeysOf(entries)), path)
    case Items(_, items) => WalkItems(t, 0, path)
  }

  function WalkKeys(t: Tree, keys: seq<Key>, path: Path): seq<Collective>
    requires t.Dict? && forall k | k in keys :: k in KeysOf(t.entries)
    decreases t, 0, |keys|
  {
    if keys == [] then []
    else
      LookupIsSmaller(t, keys[0]);
      Walk(Lookup(t.entries, keys[0]), path + [At(keys[0])]) + WalkKeys(t, keys[1..], path)
  }

  function WalkItems(t: Tree, i: nat, path: Path): seq<Collective>
    requires t.Items? && i <= |t.items|
    decreases t, 0, |t.items| - i
  {
    if i == |t.items| then [] else Walk(t.items[i], path + [Nth(i)]) + WalkItems(t, i + 1, path)
  }

  /** All collectives of `_broadcast_state_dict`. */
  function Collectives(t: Tree): seq<Collective> {
    Walk(t, []) + [ObjectBroadcast]
  }

  /** Main result on lockstep: ranks whose trees have the same structure issue the same collectives in the same order. */
  lemma Lockstep(a: Tree, b: Tree)
    requires SameShape(a, b)
    ensures Collectives(a) == Collectives(b) && OneObjectLast(Collectives(a))
  {
    SameWalk(a, b, []);
    WalkHasNoObject(a, []);
  }

  /** The skeleton is broadcast once, after all tensors. */
  ghost predicate OneObjectLast(cs: seq<Collective>) {
    cs != [] && cs[|cs| - 1].ObjectBroadcast? && NoObject(cs[..|cs| - 1])
  }

  ghost predicate NoObject(cs: seq<Collective>) {
    forall i | 0 <= i < |cs| :: !cs[i].ObjectBroadcast?
  }

  lemma {:induction false} WalkHasNoObject(t: Tree, path: Path)
    ensures NoObject(Walk(t, path))
    decreases t, 1, 0
  {
    match t
    case Leaf(_, _) =>
    case Dict(entries) =>
      SortedKeeps(KeysOf(entries));
      KeysHaveNoObject(t, Sorted(KeysOf(entries)), path);
    case Items(_, _) => ItemsHaveNoObject(t, 0, path);
  }

  lemma {:induction false} KeysHaveNoObject(t: Tree, keys: seq<Key>, path: Path)
    requires t.Dict? && forall k | k in keys :: k in KeysOf(t.entries)
    ensures NoObject(WalkKeys(t, keys, path))
    decreases t, 0, |keys|
  {
    if keys != [] {
      LookupIsSmaller(t, keys[0]);
      WalkHasNoObject(Lookup(t.entries, keys[0]), path + [At(keys[0])]);
      KeysHaveNoObject(t, keys[1..], path);
    }
  }

  lemma {:induction false} ItemsHaveNoObject(t: Tree, i: nat, path: Path)
    requires t.Items? && i <= |t.items|
    ensures NoObject(WalkItems(t, i, path))
    decreases t, 0, |t.items| - i
  {
    if i < |t.items| {
      WalkHasNoObject(t.items[i], path + [Nth(i)]);
      ItemsHaveNoObject(t, i + 1, path);
    }
  }

  lemma {:induction false} SameWalk(a: Tree, b: Tree, path: Path)
    requires SameShape(a, b)
    ensures Walk(a, path) == Walk(b, path)
    decreases a, 1, 0
  {
    match a
    case Leaf(_, _) =>
    case Dict(entries) =>
      SortedIgnoresOrder(KeysOf(entries), KeysOf(b.entries));
      SortedKeeps(KeysOf(entries));
      SameWalkKeys(a, b, Sorted(KeysOf(entries)), path);
    case Items(_, items) => SameWalkItems(a, b, 0, path);
  }

  lemma {:induction false} SameWalkKeys(a: Tree, b: Tree, keys: seq<Key>, path: Path)
    requires a.Dict? && SameShape(a, b) && forall k | k in keys :: k in KeysOf(a.entries)
    ensures WalkKeys(a, keys, path) == WalkKeys(b, keys, path)
    decreases a, 0, |keys|
  {
    if keys != [] {
      LookupIsSmaller(a, keys[0]);
      SameWalk(Lookup(a.entries, keys[0]), Lookup(b.entries, keys[0]), path + [At(keys[0])]);
      SameWalkKeys(a, b, keys[1..], path);
    }
  }

  lemma {:induction false} SameWalkItems(a: Tree, b: Tree, i: nat, path: Path)
    requires a.Items? && SameShape(a, b) && i <= |a.items|
    ensures WalkItems(a, i, path) == WalkItems(b, i, path)
    decreases a, 0, |a.items| - i
  {
    if i < |a.items| {
      SameWalk(a.items[i], b.items[i], path + [Nth(i)]);
      SameWalkItems(a, b, i + 1, path);
    }
  }

  // ---------------------------------------------------------------------------------------------
  // Strip and rebuild
  // ---------------------------------------------------------------------------------------------

  /** `_strip`: tensors become None. */
  function Strip(t: Tree): (s: Tree)
    ensures t.Leaf? ==> s.Leaf? && !s.kind.IsTensor()
    ensures t.Dict? ==> s.Dict? && KeysOf(s.entries) == KeysOf(t.entries)
    ensures t.Items? ==> s.Items? && s.isTuple == t.isTuple && |s.items| == |t.items|
  {
    match t
    case Leaf(kind, value) => if kind.IsTensor() then Leaf(Scalar, NoneValue) else t
    case Dict(entries) => Dict(seq(|entries|, i requires 0 <= i < |entries| => Entry(entries[i].key, Strip(entries[i].value))))
    case Items(isTuple, items) => Items(isTuple, seq(|items|, i requires 0 <= i < |items| => Strip(items[i])))
  }

  /** `_rebuild` finds every key it looks up and every item it zips. */
  ghost predicate Fits(local: Tree, skeleton: Tree)
    decreases local
  {
    match local
    case Leaf(_, _) => true
    case Dict(entries) =>
      && skeleton.Dict?
      && forall i | 0 <= i < |entries| ::
           entries[i].key in KeysOf(skeleton.entries) && Fits(entries[i].value, Lookup(skeleton.entries, entries[i].key))
    case Items(_, items) =>
      && skeleton.Items? && |skeleton.items| == |items|
      && forall i | 0 <= i < |items| :: Fits(items[i], skeleton.items[i])
  }

  /** `_rebuild`: local tensors stay, everything else comes from the skeleton. */
  function Rebuild(local: Tree, skeleton: Tree): Tree
    requires Fits(local, skeleton)
    decreases local
  {
    match local
    case Leaf(kind, _) => if kind.IsTensor() then local else skeleton
    case Dict(entries) =>
      Dict(seq(|entries|, i requires 0 <= i < |entries| =>
        Entry(entries[i].key, Rebuild(entries[i].value, Lookup(skeleton.entries, entries[i].key)))))
    case Items(isTuple, items) =>
      Items(isTuple, seq(|items|, i requires 0 <= i < |items| => Rebuild(items[i], skeleton.items[i])))
  }

  /** Dictionaries have no duplicate keys. */
  ghost predicate WellFormed(t: Tree) {
    match t
    case Leaf(_, _) => true
    case Dict(entries) =>
      && (forall i, j | 0 <= i < j < |entries| :: entries[i].key != entries[j].key)
      && forall i | 0 <= i < |entries| :: WellFormed(entries[i].value)
    case Items(_, items) => forall i | 0 <= i < |items| :: WellFormed(items[i])
  }

  /** In a dictionary without duplicates, entry `i` is what its key looks up. */
  lemma {:induction false} LookupEntry(entries: seq<Entry>, i: nat)
    requires i < |entries| && forall a, b | 0 <= a < b < |entries| :: entries[a].key != entries[b].key
    ensures entries[i].key in KeysOf(entries) && Lookup(entries, entries[i].key) == entries[i].value
  {
    assert KeysOf(entries)[i] == entries[i].key;
    if i > 0 {
      assert KeysOf(entries[1..]) == KeysOf(entries)[1..];
      LookupEntry(entries[1..], i - 1);
    }
  }

  lemma {:induction false} LookupStripped(entries: seq<Entry>, stripped: seq<Entry>, k: Key)
    requires |stripped| == |entries|
    requires forall i | 0 <= i < |entries| :: stripped[i] == Entry(entries[i].key, Strip(entries[i].value))
    ensures k in KeysOf(entries) <==> k in KeysOf(stripped)
    ensures k in KeysOf(entries) ==> Lookup(stripped, k) == Strip(Lookup(entries, k))
  {
    assert KeysOf(entries) == KeysOf(stripped);
    if k in KeysOf(entries) && entries[0].key != k {
      assert KeysOf(entries[1..]) == KeysOf(entries)[1..];
      LookupStripped(entries[1..], stripped[1..], k);
    }
  }

  lemma {:induction false} ShapeFits(local: Tree, root: Tree)
    requires WellFormed(local) && SameShape(local, root)
    ensures Fits(local, Strip(root))
    decreases local
  {
    match local
    case Leaf(_, _) =>
    case Dict(entries) =>
      forall i | 0 <= i < |entries|
        ensures entries[i].key in KeysOf(Strip(root).entries) && Fits(entries[i].value, Lookup(Strip(root).entries, entries[i].key))
      {
        LookupEntry(entries, i);
        LookupStripped(root.entries, Strip(root).entries, entries[i].key);
        ShapeFits(entries[i].value, Lookup(root.entries, entries[i].key));
      }
    case Items(_, items) =>
      forall i | 0 <= i < |items| ensures Fits(items[i], Strip(root).items[i]) {
        ShapeFits(items[i], root.items[i]);
      }
  }

  /** What `_rebuild` leaves at a position: the local leaf if it is a tensor, rank 0's leaf otherwise. */
  ghost function Merged(local: Tree, root: Tree, path: Path): Option<LeafInfo> {
    var l := LeafAt(local, path);
    if l.Some? && !l.value.kind.IsTensor() then LeafAt(root, path) else l
  }

  lemma {:induction false} LookupMapped(entries: seq<Entry>, mapped: seq<Entry>, k: Key) returns (i: nat)
    requires |mapped| == |entries| && forall j | 0 <= j < |entries| :: mapped[j].key == entries[j].key
    requires k in KeysOf(entries)
    ensures KeysOf(mapped) == KeysOf(entries)
    ensures i < |entries| && entries[i].key == k
    ensures Lookup(entries, k) == entries[i].value && Lookup(mapped, k) == mapped[i].value
  {
    assert KeysOf(mapped) == KeysOf(entries);
    if entries[0].key == k {
      i := 0;
    } else {
      assert KeysOf(entries[1..]) == KeysOf(entries)[1..];
      var j := LookupMapped(entries[1..], mapped[1..], k);
      assert KeysOf(mapped[1..]) == KeysOf(mapped)[1..];
      i := j + 1;
    }
  }

  /** What `_rebuild` makes of an entry. */
  lemma EntryIsRebuilt(local: Tree, root: Tree, i: nat) returns (rootChild: Tree)
    requires WellFormed(local) && SameShape(local, root) && Fits(local, Strip(root)) && local.Dict? && i < |local.entries|
    ensures WellFormed(local.entries[i].value) && SameShape(local.entries[i].value, rootChild)
    ensures Fits(local.entries[i].value, Strip(rootChild))
    ensures local.entries[i].key in KeysOf(root.entries) && rootChild == Lookup(root.entries, local.entries[i].key)
    ensures Rebuild(local, Strip(root)).entries[i].value == Rebuild(local.entries[i].value, Strip(rootChild))
  {
    var k := local.entries[i].key;
    LookupEntry(local.entries, i);
    LookupStripped(root.entries, Strip(root).entries, k);
    assert SameShape(Lookup(local.entries, k), Lookup(root.entries, k));
    rootChild := Lookup(root.entries, k);
  }

  /** What `_rebuild` does under a key. */
  lemma KeyIsRebuilt(local: Tree, root: Tree, k: Key) returns (i: nat)
    requires WellFormed(local) && SameShape(local, root) && Fits(local, Strip(root)) && local.Dict? && k in KeysOf(local.entries)
    ensures i < |local.entries| && k in KeysOf(root.entries) && k in KeysOf(Rebuild(local, Strip(root)).entries)
    ensures Lookup(local.entries, k) == local.entries[i].value
    ensures WellFormed(local.entries[i].value) && SameShape(local.entries[i].value, Lookup(root.entries, k))
    ensures Fits(local.entries[i].value, Strip(Lookup(root.entries, k)))
    ensures Lookup(Rebuild(local, Strip(root)).entries, k) == Rebuild(local.entries[i].value, Strip(Lookup(root.entries, k)))
  {
    i := LookupMapped(local.entries, Rebuild(local, Strip(root)).entries, k);
    var rootChild := EntryIsRebuilt(local, root, i);
  }

  /** Main result on rebuilding: at every position a rank ends with its own tensor or with rank 0's non-tensor leaf. */
  lemma {:induction false} RebuildMerges(local: Tree, root: Tree, path: Path)
    requires WellFormed(local) && SameShape(local, root) && Fits(local, Strip(root))
    ensures LeafAt(Rebuild(local, Strip(root)), path) == Merged(local, root, path)
    decreases local
  {
    match local
    case Leaf(_, _) =>
    case Dict(entries) =>
      if path != [] && path[0].At? && path[0].key in KeysOf(entries) {
        var i := KeyIsRebuilt(local, root, path[0].key);
        RebuildMerges(entries[i].value, Lookup(root.entries, path[0].key), path[1..]);
        MergedUnderKey(Rebuild(local, Strip(root)), local, root, path);
      } else {
        NoSuchKey(local, root, path);
      }
    case Items(_, items) =>
      if path != [] && path[0].Nth? && path[0].index < |items| {
        RebuildMerges(items[path[0].index], root.items[path[0].index], path[1..]);
      }
  }

  lemma MergedUnderKey(rebuilt: Tree, local: Tree, root: Tree, path: Path)
    requires rebuilt.Dict? && local.Dict? && root.Dict? && path != [] && path[0].At?
    requires path[0].key in KeysOf(rebuilt.entries) && path[0].key in KeysOf(local.entries) && path[0].key in KeysOf(root.entries)
    requires LeafAt(Lookup(rebuilt.entries, path[0].key), path[1..])
             == Merged(Lookup(local.entries, path[0].key), Lookup(root.entries, path[0].key), path[1..])
    ensures LeafAt(rebuilt, path) == Merged(local, root, path)
  {
  }

  lemma NoSuchKey(local: Tree, root: Tree, path: Path)
    requires local.Dict? && Fits(local, Strip(root))
    requires !(path != [] && path[0].At? && path[0].key in KeysOf(local.entries))
    ensures LeafAt(Rebuild(local, Strip(root)), path) == LeafAt(local, path) == None
  {
    assert KeysOf(Rebuild(local, Strip(root)).entries) == KeysOf(local.entries);
  }

  /** `_rebuild` keeps the local form: dictionaries, tuples and lists stay what they are, empty ones included. */
  lemma {:induction false} RebuildKeepsForm(local: Tree, root: Tree)
    requires WellFormed(local) && SameShape(local, root) && Fits(local, Strip(root))
    ensures SameForm(Rebuild(local, Strip(root)), local)
    decreases local
  {
    match local
    case Leaf(_, _) =>
    case Dict(entries) =>
      forall i | 0 <= i < |entries| ensures SameForm(Rebuild(local, Strip(root)).entries[i].value, entries[i].value) {
        var rootChild := EntryIsRebuilt(local, root, i);
        RebuildKeepsForm(entries[i].value, rootChild);
      }
    case Items(_, items) =>
      forall i | 0 <= i < |items| ensures SameForm(Rebuild(local, Strip(root)).items[i], items[i]) {
        RebuildKeepsForm(items[i], root.items[i]);
      }
  }

  // ---------------------------------------------------------------------------------------------
  // Rewriting leaves
  // ---------------------------------------------------------------------------------------------

  /** The tree with every leaf's value replaced by `f` of its position and the leaf; `base` is where the tree sits. */
  function MapLeaves(t: Tree, base: Path, f: (Path, LeafInfo) -> Value): Tree
    decreases t
  {
    match t
    case Leaf(kind, value) => Leaf(kind, f(base, LeafInfo(kind, value)))
    case Dict(entries) =>
      Dict(seq(|entries|, i requires 0 <= i < |entries| =>
        Entry(entries[i].key, MapLeaves(entries[i].value, base + [At(entries[i].key)], f))))
    case Items(isTuple, items) =>
      Items(isTuple, seq(|items|, i requires 0 <= i < |items| => MapLeaves(items[i], base + [Nth(i)], f)))
  }

  lemma KeyIsMapped(t: Tree, base: Path, f: (Path, LeafInfo) -> Value, k: Key) returns (i: nat)
    requires t.Dict? && k in KeysOf(t.entries)
    ensures i < |t.entries| && Lookup(t.entries, k) == t.entries[i].value && k in KeysOf(MapLeaves(t, base, f).entries)
    ensures Lookup(MapLeaves(t, base, f).entries, k) == MapLeaves(t.entries[i].value, base + [At(k)], f)
  {
    i := LookupMapped(t.entries, MapLeaves(t, base, f).entries, k);
  }

  function Rewritten(l: Option<LeafInfo>, at: Path, f: (Path, LeafInfo) -> Value): Option<LeafInfo> {
    if l.None? then None else Some(LeafInfo(l.value.kind, f(at, l.value)))
  }

  /** Position by position: the same leaves, with the new values. */
  lemma {:induction false} MapLeavesAt(t: Tree, base: Path, f: (Path, LeafInfo) -> Value, path: Path)
    ensures LeafAt(MapLeaves(t, base, f), path) == Rewritten(LeafAt(t, path), base + path, f)
    decreases t
  {
    match t
    case Leaf(_, _) => assert base + [] == base;
    case Dict(entries) =>
      assert KeysOf(MapLeaves(t, base, f).entries) == KeysOf(entries);
      if path != [] && path[0].At? && path[0].key in KeysOf(entries) {
        assert base + [path[0]] + path[1..] == base + path;
        var i := KeyIsMapped(t, base, f, path[0].key);
        MapLeavesAt(entries[i].value, base + [path[0]], f, path[1..]);
      }
    case Items(_, items) =>
      if path != [] && path[0].Nth? && path[0].index < |items| {
        assert base + [path[0]] + path[1..] == base + path;
        MapLeavesAt(items[path[0].index], base + [path[0]], f, path[1..]);
      }
  }

  lemma {:induction false} MapLeavesForm(t: Tree, base: Path, f: (Path, LeafInfo) -> Value)
    ensures SameForm(MapLeaves(t, base, f), t)
    decreases t
  {
    match t
    case Leaf(_, _) =>
    case Dict(entries) =>
      forall i | 0 <= i < |entries|
        ensures SameForm(MapLeaves(entries[i].value, base + [At(entries[i].key)], f), entries[i].value)
      {
        MapLeavesForm(entries[i].value, base + [At(entries[i].key)], f);
      }
    case Items(_, items) =>
      forall i | 0 <= i < |items| ensures SameForm(MapLeaves(items[i], base + [Nth(i)], f), items[i]) {
        MapLeavesForm(items[i], base + [Nth(i)], f);
      }
  }

  lemma {:induction false} FormKeepsWellFormed(a: Tree, b: Tree)
    requires SameForm(a, b) && WellFormed(b)
    ensures WellFormed(a)
    decreases a
  {
    match a
    case Leaf(_, _) =>
    case Dict(entries) =>
      forall i | 0 <= i < |entries| ensures WellFormed(entries[i].value) {
        FormKeepsWellFormed(entries[i].value, b.entries[i].value);
      }
    case Items(_, items) =>
      forall i | 0 <= i < |items| ensures WellFormed(items[i]) {
        FormKeepsWellFormed(items[i], b.items[i]);
      }
  }

  lemma {:induction false} MapLeavesShape(a: Tree, b: Tree, baseA: Path, baseB: Path,
                                          f: (Path, LeafInfo) -> Value, g: (Path, LeafInfo) -> Value)
    requires SameShape(a, b)
    ensures SameShape(MapLeaves(a, baseA, f), MapLeaves(b, baseB, g))
    decreases a
  {
    match a
    case Leaf(_, _) =>
    case Dict(entries) =>
      var x, y := MapLeaves(a, baseA, f), MapLeaves(b, baseB, g);
      assert KeysOf(x.entries) == KeysOf(entries) && KeysOf(y.entries) == KeysOf(b.entries);
      forall k | k in KeysOf(x.entries) ensures SameShape(Lookup(x.entries, k), Lookup(y.entries, k)) {
        var i := LookupMapped(entries, x.entries, k);
        var j := LookupMapped(b.entries, y.entries, k);
        MapLeavesShape(entries[i].value, b.entries[j].value, baseA + [At(k)], baseB + [At(k)], f, g);
      }
    case Items(_, items) =>
      forall i | 0 <= i < |items|
        ensures SameShape(MapLeaves(items[i], baseA + [Nth(i)], f), MapLeaves(b.items[i], baseB + [Nth(i)], g))
      {
        MapLeavesShape(items[i], b.items[i], baseA + [Nth(i)], baseB + [Nth(i)], f, g);
      }
  }

  lemma {:induction false} MapLeavesWellFormed(t: Tree, base: Path, f: (Path, LeafInfo) -> Value)
    requires WellFormed(t)
    ensures WellFormed(MapLeaves(t, base, f))
    decreases t
  {
    match t
    case Leaf(_, _) =>
    case Dict(entries) =>
      forall i | 0 <= i < |entries| ensures WellFormed(MapLeaves(entries[i].value, base + [At(entries[i].key)], f)) {
        MapLeavesWellFormed(entries[i].value, base + [At(entries[i].key)], f);
      }
    case Items(_, items) =>
      forall i | 0 <= i < |items| ensures WellFormed(MapLeaves(items[i], base + [Nth(i)], f)) {
        MapLeavesWellFormed(items[i], base + [Nth(i)], f);
      }
  }

  // ---------------------------------------------------------------------------------------------
  // Which collectives concern a leaf
  // ---------------------------------------------------------------------------------------------

  predicate Concerns(c: Collective, path: Path) {
    !c.ObjectBroadcast? && c.path == path
  }

  /** The collectives for the leaf at `path`, in order. */
  function For(cs: seq<Collective>, path: Path): seq<Collective> {
    if cs == [] then []
    else
      var n := |cs| - 1;
      For(cs[..n], path) + (if Concerns(cs[n], path) then [cs[n]] else [])
  }

  lemma {:induction false} ForAppend(a: seq<Collective>, b: seq<Collective>, path: Path)
    ensures For(a + b, path) == For(a, path) + For(b, path)
  {
    if b == [] {
      assert a + b == a;
    } else {
      var n := |b| - 1;
      assert (a + b)[..|a + b| - 1] == a + b[..n];
      ForAppend(a, b[..n], path);
    }
  }

  lemma {:induction false} ForAll(cs: seq<Collective>, path: Path)
    requires forall i | 0 <= i < |cs| :: Concerns(cs[i], path)
    ensures For(cs, path) == cs
  {
    if cs != [] {
      ForAll(cs[..|cs| - 1], path);
    }
  }

  lemma {:induction false} ForNone(cs: seq<Collective>, path: Path)
    requires forall i | 0 <= i < |cs| :: !Concerns(cs[i], path)
    ensures For(cs, path) == []
  {
    if cs != [] {
      ForNone(cs[..|cs| - 1], path);
    }
  }

  /** The collectives of the leaf at `path` below `t`, which sits at `base`. */
  ghost function OfLeaf(t: Tree, base: Path, path: Path): seq<Collective> {
    if base <= path && LeafAt(t, path[|base|..]).Some?
    then LeafCollectives(path, LeafAt(t, path[|base|..]).value.kind)
    else []
  }

  lemma LeafWalk(path: Path, kind: LeafKind, p: Path)
    ensures For(LeafCollectives(path, kind), p) == if p == path then LeafCollectives(path, kind) else []
  {
    if p == path {
      ForAll(LeafCollectives(path, kind), p);
    } else {
      ForNone(LeafCollectives(path, kind), p);
    }
  }

  /** The walk issues, for every leaf, exactly the collectives of that leaf. */
  lemma {:induction false} WalkFor(t: Tree, base: Path, path: Path)
    ensures For(Walk(t, base), path) == OfLeaf(t, base, path)
    decreases t, 1, 0
  {
    match t
    case Leaf(kind, _) =>
      LeafWalk(base, kind, path);
      assert base <= path && path[|base|..] == [] ==> path == base;
    case Dict(entries) =>
      SortedKeeps(KeysOf(entries));
      WalkKeysFor(t, Sorted(KeysOf(entries)), base, path);
    case Items(_, items) => WalkItemsFor(t, 0, base, path);
  }

  ghost predicate Enters(base: Path, path: Path, step: Step) {
    base <= path && |path| > |base| && path[|base|] == step
  }

  /** What one child contributes. */
  lemma ChildFor(t: Tree, step: Step, child: Tree, base: Path, path: Path)
    requires !t.Leaf? && (Enters(base, path, step) ==> LeafAt(t, path[|base|..]) == LeafAt(child, path[|base| + 1..]))
    ensures OfLeaf(child, base + [step], path) == if Enters(base, path, step) then OfLeaf(t, base, path) else []
  {
    EntersIff(base, path, step);
  }

  lemma EntersIff(base: Path, path: Path, step: Step)
    ensures Enters(base, path, step) <==> base + [step] <= path
    ensures Enters(base, path, step) ==> path[|base + [step]|..] == path[|base| + 1..]
  {
    if Enters(base, path, step) {
      assert path == path[..|base|] + [path[|base|]] + path[|base| + 1..];
    }
    if base + [step] <= path {
      assert path[|base|] == (base + [step])[|base|];
    }
  }

  lemma KeyChildFor(t: Tree, k: Key, base: Path, path: Path)
    requires t.Dict? && k in KeysOf(t.entries)
    ensures OfLeaf(Lookup(t.entries, k), base + [At(k)], path) == if Enters(base, path, At(k)) then OfLeaf(t, base, path) else []
  {
    if Enters(base, path, At(k)) {
      var tail := path[|base|..];
      assert tail[0] == At(k) && tail[1..] == path[|base| + 1..];
    }
    ChildFor(t, At(k), Lookup(t.entries, k), base, path);
  }

  lemma ItemChildFor(t: Tree, i: nat, base: Path, path: Path)
    requires t.Items? && i < |t.items|
    ensures OfLeaf(t.items[i], base + [Nth(i)], path) == if Enters(base, path, Nth(i)) then OfLeaf(t, base, path) else []
  {
    if Enters(base, path, Nth(i)) {
      var tail := path[|base|..];
      assert tail[0] == Nth(i) && tail[1..] == path[|base| + 1..];
    }
    ChildFor(t, Nth(i), t.items[i], base, path);
  }

  ghost predicate EntersKeys(base: Path, path: Path, keys: seq<Key>) {
    base <= path && |path| > |base| && path[|base|].At? && path[|base|].key in keys
  }

  ghost predicate EntersItems(base: Path, path: Path, i: nat) {
    base <= path && |path| > |base| && path[|base|].Nth? && path[|base|].index >= i
  }

  lemma EntersKeysSplit(base: Path, path: Path, keys: seq<Key>)
    requires keys != [] && Ascending(keys)
    ensures EntersKeys(base, path, keys) <==> Enters(base, path, At(keys[0])) || EntersKeys(base, path, keys[1..])
    ensures !(Enters(base, path, At(keys[0])) && EntersKeys(base, path, keys[1..]))
  {
    LessIsTotal(keys[0], keys[0]);
    assert keys[0] !in keys[1..];
    assert keys == [keys[0]] + keys[1..];
  }

  lemma {:induction false} WalkKeysFor(t: Tree, keys: seq<Key>, base: Path, path: Path)
    requires t.Dict? && (forall k | k in keys :: k in KeysOf(t.entries)) && Ascending(keys)
    ensures For(WalkKeys(t, keys, base), path) == if EntersKeys(base, path, keys) then OfLeaf(t, base, path) else []
    decreases t, 0, |keys|
  {
    if keys != [] {
      var k, rest := keys[0], keys[1..];
      var child := Lookup(t.entries, k);
      LookupIsSmaller(t, k);
      WalkFor(child, base + [At(k)], path);
      KeyChildFor(t, k, base, path);
      WalkKeysFor(t, rest, base, path);
      ForAppend(Walk(child, base + [At(k)]), WalkKeys(t, rest, base), path);
      EntersKeysSplit(base, path, keys);
    }
  }

  lemma {:induction false} WalkItemsFor(t: Tree, i: nat, base: Path, path: Path)
    requires t.Items? && i <= |t.items|
    ensures For(WalkItems(t, i, base), path) == if EntersItems(base, path, i) then OfLeaf(t, base, path) else []
    decreases t, 0, |t.items| - i
  {
    if i < |t.items| {
      var child := t.items[i];
      WalkFor(child, base + [Nth(i)], path);
      ItemChildFor(t, i, base, path);
      WalkItemsFor(t, i + 1, base, path);
      ForAppend(Walk(child, base + [Nth(i)]), WalkItems(t, i + 1, base), path);
      assert EntersItems(base, path, i) <==> Enters(base, path, Nth(i)) || EntersItems(base, path, i + 1);
    } else {
      NoSuchItem(t, i, base, path);
    }
  }

  lemma NoSuchItem(t: Tree, i: nat, base: Path, path: Path)
    requires t.Items? && i == |t.items|
    ensures EntersItems(base, path, i) ==> OfLeaf(t, base, path) == []
  {
  }
}
