/**
 Loading a Diffusers checkpoint into the model: the planner renames source keys onto the model's
 state dict, the reader partitions the same weight map by file (`_DiffusersLoadPlanner`,
 `_diffusers_files_to_keys`). The regular-expression tables stay abstract.
 */
module DiffusersRemap {
  import opened Keys
  import opened Strings
  import opened Wrappers

  /** A Python dict with string keys: `order` lists the keys as inserted. */
  datatype Dict<V> = Dict(order: seq<string>, at: map<string, V>) {
    ghost predicate Valid() {
      && (forall k :: k in order <==> k in at)
      && forall i, j | 0 <= i < j < |order| :: order[i] != order[j]
    }

    function Set(k: string, v: V): Dict<V> {
      Dict(if k in at then order else order + [k], at[k := v])
    }
  }

  lemma SetKeepsValid<V>(d: Dict<V>, k: string, v: V)
    requires d.Valid()
    ensures d.Set(k, v).Valid()
  {
  }

  datatype RemapError = IndexNotFound | DuplicateTarget | UnmappedKey | DuplicateSource | MissingKeys

  const TRANSFORMER := "transformer/"
  const VISION_ENCODER := "vision_encoder/"
  const VISUAL := "language_model.visual."
  const K_NORM := ".k_norm_und_for_gen."
  const ACTION := {"action2llm.", "llm2action.", "action_modality_embed"}
  const SOUND := {"sound2llm.", "llm2sound.", "sound_modality_embed"}

  predicate HasPrefixIn(key: string, prefixes: set<string>) {
    exists p | p in prefixes :: p <= key
  }

  /** `path.replace("\\", "/")`. */
  function Slashes(path: string): string {
    if path == "" then "" else [if path[0] == '\\' then '/' else path[0]] + Slashes(path[1..])
  }

  /** `_should_drop_diffusers_weight_path`: anything outside the transformer and the vision encoder. */
  predicate Drops(path: string) {
    path != "" && !(TRANSFORMER <= Slashes(path)) && !(VISION_ENCODER <= Slashes(path))
  }

  /** Under the two loaded folders, with either kind of slash, nothing is dropped; anything else with a path is. */
  lemma {:induction false} DropsIff(path: string)
    ensures Drops(path) <==> path != "" && !InFolder(path, "transformer") && !InFolder(path, "vision_encoder")
  {
    SlashesAt(path);
    FolderIff(path, "transformer", TRANSFORMER);
    FolderIff(path, "vision_encoder", VISION_ENCODER);
  }

  /** The path goes through `folder` first. */
  ghost predicate InFolder(path: string, folder: string) {
    folder <= path && |path| > |folder| && (path[|folder|] == '/' || path[|folder|] == '\\')
  }

  lemma {:induction false} SlashesAt(path: string)
    ensures |Slashes(path)| == |path|
    ensures forall i | 0 <= i < |path| :: Slashes(path)[i] == if path[i] == '\\' then '/' else path[i]
  {
    if path != "" {
      SlashesAt(path[1..]);
    }
  }

  lemma FolderIff(path: string, folder: string, prefix: string)
    requires prefix == folder + "/" && '/' !in folder && '\\' !in folder
    ensures prefix <= Slashes(path) <==> InFolder(path, folder)
  {
    SlashesAt(path);
    var n := |folder|;
    if prefix <= Slashes(path) {
      forall i | 0 <= i < n ensures path[i] == folder[i] {
        assert Slashes(path)[i] == prefix[i] == folder[i];
        assert folder[i] in folder;
      }
      assert Slashes(path)[n] == prefix[n] == '/';
      assert path[..n] == folder;
    }
    if InFolder(path, folder) {
      forall i | 0 <= i < n ensures Slashes(path)[i] == prefix[i] {
        assert path[i] == folder[i] && folder[i] in folder;
      }
      assert Slashes(path)[..n + 1] == prefix;
    }
  }

  /** `_is_diffusers_model_weight_path`. */
  predicate IsModelPath(path: string) {
    path != "" && !Drops(path)
  }

  /** A path under one of the two loaded folders is a model weight's, and no other. */
  lemma ModelPathIff(path: string)
    ensures IsModelPath(path) <==> InFolder(path, "transformer") || InFolder(path, "vision_encoder")
  {
    DropsIff(path);
  }

  /** The families a checkpoint may lack, by the prefixes of their keys. */
  lemma OptionalFamilies(t: string)
    ensures VISUAL <= t <==> "language_model.visual." <= t
    ensures HasPrefixIn(t, ACTION) <==> "action2llm." <= t || "llm2action." <= t || "action_modality_embed" <= t
    ensures HasPrefixIn(t, SOUND) <==> "sound2llm." <= t || "llm2sound." <= t || "sound_modality_embed" <= t
  {
    assert "action2llm." in ACTION && "llm2action." in ACTION && "action_modality_embed" in ACTION;
    assert "sound2llm." in SOUND && "llm2sound." in SOUND && "sound_modality_embed" in SOUND;
  }

  /** The tables of `diffusers_weights.py`: dropped keys, the rename, and which names the model can load. */
  datatype Tables = Tables(dropsKey: string -> bool, rename: string -> string, loadable: string -> bool)

  /** `_diffusers_to_net_key`. */
  function ToNetKey(tables: Tables, name: string, path: string): (r: Option<string>)
    ensures Drops(path) || tables.dropsKey(name) ==> r == None
    ensures r.Some? ==> r.value == tables.rename(name) && tables.loadable(r.value) && !tables.dropsKey(r.value)
    ensures r.None? ==>
      Drops(path) || tables.dropsKey(name) || tables.dropsKey(tables.rename(name)) || !tables.loadable(tables.rename(name))
  {
    if Drops(path) || tables.dropsKey(name) then None
    else
      var net := tables.rename(name);
      if tables.dropsKey(net) || !tables.loadable(net) then None else Some(net)
  }

  // ---------------------------------------------------------------------------------------------
  // The weight map and the reader's partition of it
  // ---------------------------------------------------------------------------------------------

  /** A root entry that counts. */
  predicate Kept(root: Option<Dict<string>>, k: string) {
    root.Some? && k in root.value.at && Find(k, K_NORM).None?
  }

  /** A root entry counts unless its key holds the generator's k-norm. */
  lemma KeptIff(root: Option<Dict<string>>, k: string)
    ensures Kept(root, k) <==> root.Some? && k in root.value.at && !Occurs(k, ".k_norm_und_for_gen.")
  {
    FindIsFirst(k, K_NORM);
  }

  predicate Indexed(index: Option<Dict<string>>, k: string) {
    index.Some? && k in index.value.at
  }

  /** The root index without its leaked k-norm entries. */
  method RootEntries(root: Option<Dict<string>>) returns (weightMap: Dict<string>)
    requires root.Some? ==> root.value.Valid()
    ensures weightMap.Valid() && forall k :: k in weightMap.at <==> Kept(root, k)
    ensures forall k | Kept(root, k) :: weightMap.at[k] == root.value.at[k]
  {
    weightMap := Dict([], map[]);
    if root.Some? {
      var d := root.value;
      for i := 0 to |d.order|
        invariant weightMap.Valid()
        invariant forall k :: k in weightMap.at <==> k in d.order[..i] && Kept(root, k)
        invariant forall k | k in weightMap.at :: weightMap.at[k] == d.at[k]
      {
        var k := d.order[i];
        if Find(k, K_NORM).None? {
          SetKeepsValid(weightMap, k, d.at[k]);
          weightMap := weightMap.Set(k, d.at[k]);
        }
      }
      assert d.order[..|d.order|] == d.order;
    }
  }

  /** The entries of `d` are added where `root` has none. */
  method WithTransformer(root: Dict<string>, d: Dict<string>) returns (weightMap: Dict<string>)
    requires root.Valid() && d.Valid()
    ensures weightMap.Valid() && forall k :: k in weightMap.at <==> k in root.at || k in d.at
    ensures forall k | k in weightMap.at :: weightMap.at[k] == if k in root.at then root.at[k] else TRANSFORMER + d.at[k]
  {
    weightMap := root;
    for i := 0 to |d.order|
      invariant weightMap.Valid()
      invariant forall k :: k in weightMap.at <==> k in root.at || k in d.order[..i]
      invariant forall k | k in weightMap.at :: weightMap.at[k] == if k in root.at then root.at[k] else TRANSFORMER + d.at[k]
    {
      var k := d.order[i];
      if k !in weightMap.at {
        SetKeepsValid(weightMap, k, TRANSFORMER + d.at[k]);
        weightMap := weightMap.Set(k, TRANSFORMER + d.at[k]);
      }
    }
    assert d.order[..|d.order|] == d.order;
  }

  /** `_diffusers_weight_map`; a missing index file is `None`. Root entries win, except leaked k-norm ones. */
  method DiffusersWeightMap(root: Option<Dict<string>>, transformer: Option<Dict<string>>)
    returns (r: Result<Dict<string>, RemapError>)
    requires (root.Some? ==> root.value.Valid()) && (transformer.Some? ==> transformer.value.Valid())
    ensures r.Err? <==> forall k :: !Kept(root, k) && !Indexed(transformer, k)
    ensures r.Err? ==> r.error == IndexNotFound
    ensures r.Ok? ==>
      && r.value.Valid()
      && (forall k :: k in r.value.at <==> Kept(root, k) || Indexed(transformer, k))
      && (forall k | Kept(root, k) :: r.value.at[k] == root.value.at[k])
      && (forall k | Indexed(transformer, k) && !Kept(root, k) :: r.value.at[k] == TRANSFORMER + transformer.value.at[k])
  {
    var weightMap := RootEntries(root);
    if transformer.Some? {
      weightMap := WithTransformer(weightMap, transformer.value);
    }
    if |weightMap.order| == 0 {
      return Err(IndexNotFound);
    }
    ghost var first := weightMap.order[0];
    assert first in weightMap.at;
    return Ok(weightMap);
  }

  /** How often `k` is listed under `path`. */
  ghost function Listed(files: map<string, seq<string>>, path: string, k: string): nat {
    if path in files then multiset(files[path])[k] else 0
  }

  /** `k` is listed once under its own file, if it is one of `keys` and not dropped, and not under any other. */
  ghost predicate ListedRight(files: map<string, seq<string>>, keys: seq<string>, weightMap: Dict<string>,
                              path: string, k: string) {
    Listed(files, path, k) == if k in keys && k in weightMap.at && weightMap.at[k] == path && !Drops(path) then 1 else 0
  }

  ghost predicate IsPartition(files: map<string, seq<string>>, keys: seq<string>, weightMap: Dict<string>) {
    && (forall k, path :: ListedRight(files, keys, weightMap, path, k))
    && forall path | path in files :: files[path] != []
  }

  /** `_diffusers_files_to_keys`. */
  method DiffusersFilesToKeys(weightMap: Dict<string>) returns (files: map<string, seq<string>>)
    requires weightMap.Valid()
    ensures IsPartition(files, weightMap.order, weightMap)
  {
    files := map[];
    var order := weightMap.order;
    for i := 0 to |order|
      invariant IsPartition(files, order[..i], weightMap)
    {
      var key := order[i];
      var path := weightMap.at[key];
      ghost var before := files;
      if !Drops(path) {
        files := WithKey(files, path, key);
      }
      NextKey(before, files, order[..i], key, weightMap);
      assert order[..i + 1] == order[..i] + [key];
    }
    assert order[..|order|] == order;
  }

  function WithKey(files: map<string, seq<string>>, path: string, key: string): map<string, seq<string>> {
    files[path := (if path in files then files[path] else []) + [key]]
  }

  lemma NextKey(before: map<string, seq<string>>, after: map<string, seq<string>>, done: seq<string>, key: string,
                weightMap: Dict<string>)
    requires IsPartition(before, done, weightMap) && key !in done && key in weightMap.at
    requires var path := weightMap.at[key];
      after == if Drops(path) then before else WithKey(before, path, key)
    ensures IsPartition(after, done + [key], weightMap)
  {
    forall k, path ensures ListedRight(after, done + [key], weightMap, path, k) {
      assert ListedRight(before, done, weightMap, path, k);
      assert k in done + [key] <==> k in done || k == key;
      WithKeyLists(before, weightMap.at[key], key, path, k);
    }
  }

  lemma WithKeyLists(files: map<string, seq<string>>, path: string, key: string, path': string, k: string)
    ensures Listed(WithKey(files, path, key), path', k)
            == Listed(files, path', k) + (if path' == path && k == key then 1 else 0)
  {
    var listed := if path in files then files[path] else [];
    assert multiset(listed + [key])[k] == multiset(listed)[k] + (if k == key then 1 else 0);
  }

  // ---------------------------------------------------------------------------------------------
  // The planner
  // ---------------------------------------------------------------------------------------------

  ghost predicate NormalizesApart(names: seq<string>, normalize: string -> string) {
    forall i, j | 0 <= i < j < |names| :: normalize(names[i]) != normalize(names[j])
  }

  /** `target` holds the entries of `names` under their normalised names, and no others. */
  ghost predicate Normalized<T>(target: map<string, T>, names: seq<string>, at: map<string, T>, normalize: string -> string) {
    && (forall i | 0 <= i < |names| ::
          names[i] in at && normalize(names[i]) in target && target[normalize(names[i])] == at[names[i]])
    && forall t | t in target :: HasName(names, normalize, t)
  }

  ghost predicate HasName(names: seq<string>, normalize: string -> string, t: string) {
    exists i :: 0 <= i < |names| && normalize(names[i]) == t
  }

  /** `_normalize_target_state_dict`; `normalize` strips the wrapper prefixes. A value may be Python's None. */
  method NormalizeTargetStateDict<T>(stateDict: Dict<Option<T>>, normalize: string -> string)
    returns (r: Result<map<string, Option<T>>, RemapError>)
    requires stateDict.Valid()
    ensures r.Ok? <==> NormalizesApart(stateDict.order, normalize)
    ensures r.Err? ==> r.error == DuplicateTarget
    ensures r.Ok? ==> Normalized(r.value, stateDict.order, stateDict.at, normalize)
  {
    var target: map<string, Option<T>> := map[];
    var order := stateDict.order;
    for i := 0 to |order|
      invariant NormalizesApart(order[..i], normalize)
      invariant Normalized(target, order[..i], stateDict.at, normalize)
    {
      var netKey := normalize(order[i]);
      if netKey in target {
        SameName(order, i, normalize);
        return Err(DuplicateTarget);
      }
      NextName(target, order, i, stateDict.at, normalize);
      target := target[netKey := stateDict.at[order[i]]];
    }
    assert order[..|order|] == order;
    return Ok(target);
  }

  lemma SameName(names: seq<string>, i: nat, normalize: string -> string)
    requires i < |names| && HasName(names[..i], normalize, normalize(names[i]))
    ensures !NormalizesApart(names, normalize)
  {
    var j :| 0 <= j < i && normalize(names[..i][j]) == normalize(names[i]);
    assert names[..i][j] == names[j];
  }

  lemma NextName<T>(target: map<string, T>, order: seq<string>, i: nat, at: map<string, T>, normalize: string -> string)
    requires i < |order| && NormalizesApart(order[..i], normalize) && Normalized(target, order[..i], at, normalize)
    requires order[i] in at && normalize(order[i]) !in target
    ensures NormalizesApart(order[..i + 1], normalize)
    ensures Normalized(target[normalize(order[i]) := at[order[i]]], order[..i + 1], at, normalize)
  {
    var names, next := order[..i + 1], target[normalize(order[i]) := at[order[i]]];
    assert forall j | 0 <= j < i :: names[j] == order[..i][j];
    forall t | t in next ensures HasName(names, normalize, t) {
      if t == normalize(order[i]) {
        assert normalize(names[i]) == t;
      } else {
        var j :| 0 <= j < i && normalize(order[..i][j]) == t;
        assert normalize(names[j]) == t;
      }
    }
  }

  /** What the planner works on. */
  datatype Plan<T> = Plan(tables: Tables, weightMap: Dict<string>, target: map<string, Option<T>>) {
    /** The target of source key `k`. */
    function Net(k: string): Option<string> {
      if k in weightMap.at then ToNetKey(tables, k, weightMap.at[k]) else None
    }

    /** `k` has a target tensor to fill. */
    predicate Wanted(k: string) {
      k in weightMap.at && Net(k).Some? && Net(k).value in target && target[Net(k).value].Some?
    }

    predicate HasVisualTarget() {
      exists t | t in target :: VISUAL <= t
    }

    /** A model weight without a mapping, unless it belongs to a vision encoder the model does not have. */
    predicate Unmapped(k: string) {
      && k in weightMap.at && Net(k).None? && IsModelPath(weightMap.at[k])
      && !(VISION_ENCODER <= weightMap.at[k] && !HasVisualTarget())
    }

    ghost predicate Collides(k: string, k': string) {
      k != k' && Wanted(k) && Wanted(k') && Net(k) == Net(k')
    }

    /** Some source key fills target `t`. */
    ghost predicate Provided(t: string) {
      exists k :: Fills(k, t)
    }

    predicate Fills(k: string, t: string) {
      Wanted(k) && Net(k) == Some(t)
    }
  }

  datatype Remapped<T> = Remapped(stateDict: map<string, T>, loaded: set<string>)

  /** `k` is requested if it is one of `keys` and wanted, and then for its own target tensor. */
  ghost predicate RequestedRight<T>(plan: Plan<T>, keys: seq<string>, m: Remapped<T>, k: string) {
    && (k in m.stateDict <==> k in keys && plan.Wanted(k))
    && (k in m.stateDict ==> m.stateDict[k] == plan.target[plan.Net(k).value].value && plan.Net(k).value in m.loaded)
  }

  ghost predicate FilledBySome<T>(plan: Plan<T>, m: Remapped<T>, t: string) {
    exists k :: k in m.stateDict && plan.Fills(k, t)
  }

  /** Exactly the wanted keys of `keys` are requested, no two for the same target. */
  ghost predicate Remaps<T>(plan: Plan<T>, keys: seq<string>, m: Remapped<T>) {
    && (forall k :: RequestedRight(plan, keys, m, k))
    && (forall t | t in m.loaded :: FilledBySome(plan, m, t))
    && (forall k, k' | k in m.stateDict && k' in m.stateDict :: !plan.Collides(k, k'))
  }

  ghost predicate AllMapped<T>(plan: Plan<T>, keys: seq<string>) {
    forall k | k in keys :: !plan.Unmapped(k)
  }

  /** `_build_remapped_state_dict`: the weight map is visited in sorted order. */
  method BuildRemappedStateDict<T>(plan: Plan<T>) returns (r: Result<Remapped<T>, RemapError>)
    requires plan.weightMap.Valid()
    ensures r.Ok? ==> Remaps(plan, plan.weightMap.order, r.value) && AllMapped(plan, plan.weightMap.order)
    ensures r.Err? ==>
      || (r.error == UnmappedKey && exists k :: plan.Unmapped(k))
      || (r.error == DuplicateSource && exists k, k' :: plan.Collides(k, k'))
  {
    var sorted := Sorted(plan.weightMap.order);
    SortedKeeps(plan.weightMap.order);
    var m: Remapped<T> := Remapped(map[], {});
    for i := 0 to |sorted|
      invariant Remaps(plan, sorted[..i], m)
      invariant AllMapped(plan, sorted[..i])
    {
      var key := sorted[i];
      var net := plan.Net(key);
      NextSource(plan, sorted, i, m);
      if net.None? {
        if plan.Unmapped(key) {
          return Err(UnmappedKey);
        }
      } else if net.value in plan.target && plan.target[net.value].Some? {
        if net.value in m.loaded {
          return Err(DuplicateSource);
        }
        m := WithTarget(plan, m, key);
      }
    }
    assert sorted[..|sorted|] == sorted;
    SameKeys(plan, sorted, plan.weightMap.order, m);
    return Ok(m);
  }

  function WithTarget<T>(plan: Plan<T>, m: Remapped<T>, key: string): Remapped<T>
    requires plan.Wanted(key)
  {
    var net := plan.Net(key).value;
    Remapped(m.stateDict[key := plan.target[net].value], m.loaded + {net})
  }

  /** One turn of the loop. */
  lemma NextSource<T>(plan: Plan<T>, sorted: seq<string>, i: nat, m: Remapped<T>)
    requires i < |sorted| && Ascending(sorted) && Remaps(plan, sorted[..i], m)
    ensures !plan.Wanted(sorted[i]) ==> Remaps(plan, sorted[..i + 1], m)
    ensures plan.Wanted(sorted[i]) && plan.Net(sorted[i]).value in m.loaded ==> exists k, k' :: plan.Collides(k, k')
    ensures plan.Wanted(sorted[i]) && plan.Net(sorted[i]).value !in m.loaded ==>
      Remaps(plan, sorted[..i + 1], WithTarget(plan, m, sorted[i]))
    ensures AllMapped(plan, sorted[..i]) && !plan.Unmapped(sorted[i]) ==> AllMapped(plan, sorted[..i + 1])
  {
    var done, key := sorted[..i], sorted[i];
    assert sorted[..i + 1] == done + [key];
    AscendingIsDistinct(sorted, i);
    if !plan.Wanted(key) {
      NextUnwanted(plan, done, m, key);
    } else if plan.Net(key).value in m.loaded {
      LoadedTwice(plan, done, m, key);
    } else {
      NextWanted(plan, done, m, key);
    }
  }

  lemma SameKeys<T>(plan: Plan<T>, a: seq<string>, b: seq<string>, m: Remapped<T>)
    requires Remaps(plan, a, m) && forall k :: k in a <==> k in b
    ensures Remaps(plan, b, m)
  {
    forall k ensures RequestedRight(plan, b, m, k) {
      assert RequestedRight(plan, a, m, k);
    }
  }

  lemma LoadedTwice<T>(plan: Plan<T>, done: seq<string>, m: Remapped<T>, key: string)
    requires Remaps(plan, done, m) && plan.Wanted(key) && key !in done && plan.Net(key).value in m.loaded
    ensures exists k :: plan.Collides(k, key)
  {
    var t := plan.Net(key).value;
    assert FilledBySome(plan, m, t);
    var k :| k in m.stateDict && plan.Fills(k, t);
    assert RequestedRight(plan, done, m, k);
    assert plan.Collides(k, key);
  }

  lemma NextUnwanted<T>(plan: Plan<T>, done: seq<string>, m: Remapped<T>, key: string)
    requires Remaps(plan, done, m) && !plan.Wanted(key)
    ensures Remaps(plan, done + [key], m)
  {
    forall k ensures RequestedRight(plan, done + [key], m, k) {
      assert RequestedRight(plan, done, m, k);
      assert k in done + [key] <==> k in done || k == key;
    }
  }

  lemma AscendingIsDistinct(keys: seq<Key>, i: nat)
    requires i < |keys| && Ascending(keys)
    ensures keys[i] !in keys[..i]
  {
    forall j | 0 <= j < i ensures keys[j] != keys[i] {
      LessIsTotal(keys[i], keys[i]);
    }
  }

  lemma NextWanted<T>(plan: Plan<T>, done: seq<string>, m: Remapped<T>, key: string)
    requires Remaps(plan, done, m) && plan.Wanted(key) && plan.Net(key).value !in m.loaded
    ensures Remaps(plan, done + [key], WithTarget(plan, m, key))
  {
    var m' := WithTarget(plan, m, key);
    forall k ensures RequestedRight(plan, done + [key], m', k) {
      assert RequestedRight(plan, done, m, k);
      assert k in done + [key] <==> k in done || k == key;
    }
    forall t | t in m'.loaded ensures FilledBySome(plan, m', t) {
      StillFilled(plan, m, key, t);
    }
    forall k, k' | k in m'.stateDict && k' in m'.stateDict ensures !plan.Collides(k, k') {
      assert RequestedRight(plan, done, m, k) && RequestedRight(plan, done, m, k');
    }
  }

  lemma StillFilled<T>(plan: Plan<T>, m: Remapped<T>, key: string, t: string)
    requires plan.Wanted(key) && t in WithTarget(plan, m, key).loaded
    requires t in m.loaded ==> FilledBySome(plan, m, t)
    ensures FilledBySome(plan, WithTarget(plan, m, key), t)
  {
    var m' := WithTarget(plan, m, key);
    if plan.Net(key) == Some(t) {
      assert key in m'.stateDict && plan.Fills(key, t);
    } else {
      var k :| k in m.stateDict && plan.Fills(k, t);
      assert k in m'.stateDict;
    }
  }

  // ---------------------------------------------------------------------------------------------
  // What may be missing
  // ---------------------------------------------------------------------------------------------

  /** `has_vision_weights`. */
  predicate HasVisionWeights(files: map<string, seq<string>>) {
    exists path | path in files :: VISION_ENCODER <= path
  }

  predicate LoadsFamily(loaded: set<string>, family: set<string>) {
    exists t | t in loaded :: HasPrefixIn(t, family)
  }

  /** Families the checkpoint may lack entirely: the vision tower, the action head, the sound head. */
  predicate Tolerated(t: string, files: map<string, seq<string>>, loaded: set<string>) {
    || (!HasVisionWeights(files) && VISUAL <= t)
    || (!LoadsFamily(loaded, ACTION) && HasPrefixIn(t, ACTION))
    || (!LoadsFamily(loaded, SOUND) && HasPrefixIn(t, SOUND))
  }

  /** Every model weight has a target, no target has two, and nothing needed is missing. */
  ghost predicate Loadable<T>(plan: Plan<T>, files: map<string, seq<string>>) {
    && !(exists k :: plan.Unmapped(k))
    && !(exists k, k' :: plan.Collides(k, k'))
    && !(exists t :: Lacks(plan, files, t))
  }

  ghost predicate Lacks<T>(plan: Plan<T>, files: map<string, seq<string>>, t: string) {
    t in plan.target && !plan.Provided(t) && !Tolerated(t, files, ProvidedTargets(plan))
  }

  ghost function ProvidedTargets<T>(plan: Plan<T>): set<string> {
    set t | t in plan.target && plan.Provided(t)
  }

  lemma LoadedIsProvided<T>(plan: Plan<T>, m: Remapped<T>)
    requires plan.weightMap.Valid() && Remaps(plan, plan.weightMap.order, m)
    ensures m.loaded == ProvidedTargets(plan) && forall k, k' :: !plan.Collides(k, k')
  {
    forall t ensures t in m.loaded <==> t in ProvidedTargets(plan) {
      if plan.Provided(t) {
        var k :| plan.Fills(k, t);
        assert RequestedRight(plan, plan.weightMap.order, m, k);
      }
      if t in m.loaded {
        assert FilledBySome(plan, m, t);
      }
    }
    forall k, k' ensures !plan.Collides(k, k') {
      assert RequestedRight(plan, plan.weightMap.order, m, k) && RequestedRight(plan, plan.weightMap.order, m, k');
    }
  }

  /** `set_up_planner` on the normalised targets, up to the call of the base class. */
  method SetUpPlanner<T>(plan: Plan<T>, files: map<string, seq<string>>) returns (r: Result<Remapped<T>, RemapError>)
    requires plan.weightMap.Valid()
    ensures r.Ok? <==> Loadable(plan, files)
    ensures r.Ok? ==> Remaps(plan, plan.weightMap.order, r.value)
    ensures r.Err? ==> match r.error
      case UnmappedKey => exists k :: plan.Unmapped(k)
      case DuplicateSource => exists k, k' :: plan.Collides(k, k')
      case error => error == MissingKeys && exists t :: Lacks(plan, files, t)
  {
    r := BuildRemappedStateDict(plan);
    if r.Err? {
      return;
    }
    LoadedIsProvided(plan, r.value);
    assert forall k :: plan.Unmapped(k) ==> k in plan.weightMap.order;
    var missing := Missing(plan.target.Keys, files, r.value.loaded);
    if t :| t in missing {
      assert Lacks(plan, files, t);
      return Err(MissingKeys);
    }
  }

  /** What neither a source key fills nor a family the checkpoint lacks excuses. */
  method Missing(targets: set<string>, files: map<string, seq<string>>, loaded: set<string>) returns (missing: set<string>)
    ensures forall t :: t in missing <==> t in targets && t !in loaded && !Tolerated(t, files, loaded)
  {
    missing := targets - loaded;
    if !HasVisionWeights(files) {
      missing := set t | t in missing && !(VISUAL <= t);
    }
    if !LoadsFamily(loaded, ACTION) {
      missing := set t | t in missing && !HasPrefixIn(t, ACTION);
    }
    if !LoadsFamily(loaded, SOUND) {
      missing := set t | t in missing && !HasPrefixIn(t, SOUND);
    }
  }

  /** The reader lists `k` once, under the file the weight map names, and nowhere else. */
  ghost predicate ReadOnce<T>(plan: Plan<T>, files: map<string, seq<string>>, k: string) {
    && k in plan.weightMap.at
    && forall path :: Listed(files, path, k) == if path == plan.weightMap.at[k] then 1 else 0
  }

  /**
   Main result: when setting up succeeds, distinct source keys fill distinct targets, every target is
   filled by one source key with its own tensor or belongs to a family the checkpoint lacks, and every
   key requested is listed once by the reader, under the file the weight map names, and nowhere else.
   */
  lemma RemapIsSound<T>(plan: Plan<T>, files: map<string, seq<string>>, m: Remapped<T>)
    requires plan.weightMap.Valid() && Loadable(plan, files)
    requires Remaps(plan, plan.weightMap.order, m) && IsPartition(files, plan.weightMap.order, plan.weightMap)
    ensures forall k, k' | k in m.stateDict && k' in m.stateDict && k != k' :: plan.Net(k) != plan.Net(k')
    ensures forall t | t in plan.target ::
      || (exists k :: k in m.stateDict && plan.Fills(k, t) && plan.target[t] == Some(m.stateDict[k]))
      || Tolerated(t, files, m.loaded)
    ensures forall k | k in m.stateDict :: ReadOnce(plan, files, k)
  {
    LoadedIsProvided(plan, m);
    forall t | t in plan.target && t !in m.loaded ensures Tolerated(t, files, m.loaded) {
      assert !Lacks(plan, files, t);
    }
    forall t | t in plan.target && t in m.loaded
      ensures exists k :: k in m.stateDict && plan.Fills(k, t) && plan.target[t] == Some(m.stateDict[k])
    {
      assert FilledBySome(plan, m, t);
      var k :| k in m.stateDict && plan.Fills(k, t);
      assert RequestedRight(plan, plan.weightMap.order, m, k);
    }
    forall k, k' | k in m.stateDict && k' in m.stateDict && k != k' ensures plan.Net(k) != plan.Net(k') {
      assert !plan.Collides(k, k');
      assert RequestedRight(plan, plan.weightMap.order, m, k) && RequestedRight(plan, plan.weightMap.order, m, k');
    }
    forall k | k in m.stateDict ensures ReadOnce(plan, files, k) {
      assert RequestedRight(plan, plan.weightMap.order, m, k);
      forall path ensures Listed(files, path, k) == if path == plan.weightMap.at[k] then 1 else 0 {
        assert ListedRight(files, plan.weightMap.order, plan.weightMap, path, k);
      }
    }
  }

  // ---------------------------------------------------------------------------------------------
  // From the index files and the model's state dict to the load
  // ---------------------------------------------------------------------------------------------

  /** The two index files, the renaming, and the model's state dict with the stripping of its wrapper prefixes. */
  datatype Setup<T> = Setup(tables: Tables, root: Option<Dict<string>>, transformer: Option<Dict<string>>,
                            model: Dict<Option<T>>, normalize: string -> string) {
    ghost predicate Valid() {
      && (root.Some? ==> root.value.Valid())
      && (transformer.Some? ==> transformer.value.Valid())
      && model.Valid()
    }

    /** The file that holds source key `k`. */
    function Path(k: string): Option<string> {
      if Kept(root, k) then Some(root.value.at[k])
      else if Indexed(transformer, k) then Some(TRANSFORMER + transformer.value.at[k])
      else None
    }

    function Net(k: string): Option<string> {
      if Path(k).Some? then ToNetKey(tables, k, Path(k).value) else None
    }

    /** Source key `k` is the source of the model's `i`-th tensor. */
    ghost predicate Feeds(k: string, i: int) {
      0 <= i < |model.order| && Net(k) == Some(normalize(model.order[i]))
      && model.order[i] in model.at && model.at[model.order[i]].Some?
    }

    ghost predicate Fed(i: int) {
      exists k :: Feeds(k, i)
    }

    ghost predicate HasVisionSource() {
      exists k :: Path(k).Some? && VISION_ENCODER <= Path(k).value && !Drops(Path(k).value)
    }

    ghost predicate FeedsFamily(family: set<string>) {
      exists i :: Fed(i) && HasPrefixIn(normalize(model.order[i]), family)
    }

    /** The checkpoint lacks the whole family of `t`. */
    ghost predicate Excused(t: string) {
      || (!HasVisionSource() && VISUAL <= t)
      || (!FeedsFamily(ACTION) && HasPrefixIn(t, ACTION))
      || (!FeedsFamily(SOUND) && HasPrefixIn(t, SOUND))
    }

    ghost predicate HasVisualTensor() {
      exists i :: 0 <= i < |model.order| && VISUAL <= normalize(model.order[i])
    }

    /** A model weight without a place, unless it belongs to a vision encoder the model does not have. */
    ghost predicate Unplaced(k: string) {
      && Path(k).Some? && Net(k).None? && IsModelPath(Path(k).value)
      && !(VISION_ENCODER <= Path(k).value && !HasVisualTensor())
    }

    ghost predicate Contested(i: int) {
      exists k, k' :: k != k' && Feeds(k, i) && Feeds(k', i)
    }

    ghost predicate Lacking(i: int) {
      0 <= i < |model.order| && !Fed(i) && !Excused(normalize(model.order[i]))
    }

    /** There are sources, and each has one place; the model's names stay apart, and each tensor is fed or excused. */
    ghost predicate CanLoad() {
      && (exists k :: Path(k).Some?)
      && NormalizesApart(model.order, normalize)
      && !(exists k :: Unplaced(k))
      && !(exists i :: Contested(i))
      && !(exists i :: Lacking(i))
    }
  }

  /** What the loader asks for: source keys with the tensors to fill, and the reader's partition by file. */
  datatype Load<T> = Load(requested: map<string, T>, files: map<string, seq<string>>)

  ghost predicate Requests<T>(s: Setup<T>, l: Load<T>, k: string) {
    && (k in l.requested <==> exists i :: s.Feeds(k, i))
    && forall i | s.Feeds(k, i) :: l.requested[k] == s.model.at[s.model.order[i]].value
  }

  /** The reader lists `k` once, under its own file, and nowhere else. */
  ghost predicate Reads<T>(s: Setup<T>, l: Load<T>, k: string) {
    forall path :: Listed(l.files, path, k) == if s.Path(k) == Some(path) then 1 else 0
  }

  /** Exactly the source keys that feed a model tensor are requested, each into its own tensor, and read once. */
  ghost predicate Sound<T>(s: Setup<T>, l: Load<T>) {
    && (forall k :: Requests(s, l, k))
    && forall k | k in l.requested :: Reads(s, l, k)
  }

  /** The plan made from a setup. */
  ghost predicate PlanOf<T>(s: Setup<T>, plan: Plan<T>)
    requires s.Valid()
  {
    && plan.tables == s.tables && plan.weightMap.Valid()
    && (forall k :: k in plan.weightMap.at <==> s.Path(k).Some?)
    && (forall k | k in plan.weightMap.at :: s.Path(k) == Some(plan.weightMap.at[k]))
    && NormalizesApart(s.model.order, s.normalize)
    && Normalized(plan.target, s.model.order, s.model.at, s.normalize)
  }

  lemma PlanAgrees<T>(s: Setup<T>, plan: Plan<T>, k: string)
    requires s.Valid() && PlanOf(s, plan)
    ensures plan.Net(k) == s.Net(k)
    ensures plan.Wanted(k) <==> exists i :: s.Feeds(k, i)
    ensures forall t :: plan.Fills(k, t) <==> exists i :: s.Feeds(k, i) && s.normalize(s.model.order[i]) == t
    ensures forall i | s.Feeds(k, i) :: plan.Wanted(k) && plan.target[plan.Net(k).value] == s.model.at[s.model.order[i]]
  {
    assert plan.Net(k) == s.Net(k);
    if plan.Wanted(k) {
      var i :| 0 <= i < |s.model.order| && s.normalize(s.model.order[i]) == plan.Net(k).value;
      assert s.Feeds(k, i);
    }
  }

  lemma FedIsProvided<T>(s: Setup<T>, plan: Plan<T>, i: nat)
    requires s.Valid() && PlanOf(s, plan) && i < |s.model.order|
    ensures s.normalize(s.model.order[i]) in plan.target
    ensures plan.Provided(s.normalize(s.model.order[i])) <==> s.Fed(i)
    ensures s.normalize(s.model.order[i]) in ProvidedTargets(plan) <==> s.Fed(i)
  {
    var t := s.normalize(s.model.order[i]);
    if k :| plan.Fills(k, t) {
      PlanAgrees(s, plan, k);
      assert s.Feeds(k, i);
    }
    if k :| s.Feeds(k, i) {
      PlanAgrees(s, plan, k);
      assert plan.Fills(k, t);
    }
  }

  lemma FamilyAgrees<T>(s: Setup<T>, plan: Plan<T>, family: set<string>)
    requires s.Valid() && PlanOf(s, plan)
    ensures LoadsFamily(ProvidedTargets(plan), family) <==> s.FeedsFamily(family)
  {
    if t :| t in ProvidedTargets(plan) && HasPrefixIn(t, family) {
      var i := NameOf(s, plan, t);
      FedIsProvided(s, plan, i);
      assert s.Fed(i) && HasPrefixIn(s.normalize(s.model.order[i]), family);
    }
    if i :| s.Fed(i) && HasPrefixIn(s.normalize(s.model.order[i]), family) {
      FedIsProvided(s, plan, i);
    }
  }

  lemma VisionAgrees<T>(s: Setup<T>, plan: Plan<T>, files: map<string, seq<string>>)
    requires s.Valid() && PlanOf(s, plan) && IsPartition(files, plan.weightMap.order, plan.weightMap)
    ensures HasVisionWeights(files) <==> s.HasVisionSource()
  {
    if path :| path in files && VISION_ENCODER <= path {
      var k := files[path][0];
      assert k in multiset(files[path]);
      assert ListedRight(files, plan.weightMap.order, plan.weightMap, path, k);
      assert s.Path(k) == Some(path);
    }
    if k :| s.Path(k).Some? && VISION_ENCODER <= s.Path(k).value && !Drops(s.Path(k).value) {
      assert ListedRight(files, plan.weightMap.order, plan.weightMap, s.Path(k).value, k);
      assert s.Path(k).value in files;
    }
  }

  lemma ExcusedIsTolerated<T>(s: Setup<T>, plan: Plan<T>, files: map<string, seq<string>>, t: string)
    requires s.Valid() && PlanOf(s, plan) && IsPartition(files, plan.weightMap.order, plan.weightMap)
    ensures Tolerated(t, files, ProvidedTargets(plan)) <==> s.Excused(t)
  {
    VisionAgrees(s, plan, files);
    FamilyAgrees(s, plan, ACTION);
    FamilyAgrees(s, plan, SOUND);
  }

  lemma UnplacedIsUnmapped<T>(s: Setup<T>, plan: Plan<T>, k: string)
    requires s.Valid() && PlanOf(s, plan)
    ensures plan.Unmapped(k) <==> s.Unplaced(k)
  {
    PlanAgrees(s, plan, k);
    if t :| t in plan.target && VISUAL <= t {
      var i :| 0 <= i < |s.model.order| && s.normalize(s.model.order[i]) == t;
    }
  }

  lemma SomeUnplaced<T>(s: Setup<T>, plan: Plan<T>)
    requires s.Valid() && PlanOf(s, plan)
    ensures (exists k :: plan.Unmapped(k)) <==> exists k :: s.Unplaced(k)
  {
    if k :| plan.Unmapped(k) {
      UnplacedIsUnmapped(s, plan, k);
    }
    if k :| s.Unplaced(k) {
      UnplacedIsUnmapped(s, plan, k);
    }
  }

  lemma ContestedCollides<T>(s: Setup<T>, plan: Plan<T>)
    requires s.Valid() && PlanOf(s, plan)
    ensures (exists k, k' :: plan.Collides(k, k')) <==> exists i :: s.Contested(i)
  {
    if k, k' :| plan.Collides(k, k') {
      PlanAgrees(s, plan, k);
      PlanAgrees(s, plan, k');
      var i :| s.Feeds(k, i);
      assert s.Feeds(k', i);
      assert s.Contested(i);
    }
    if i :| s.Contested(i) {
      var k, k' :| k != k' && s.Feeds(k, i) && s.Feeds(k', i);
      PlanAgrees(s, plan, k);
      PlanAgrees(s, plan, k');
      assert plan.Collides(k, k');
    }
  }

  /** The planner's condition, in terms of the inputs. */
  lemma LoadableIsCanLoad<T>(s: Setup<T>, plan: Plan<T>, files: map<string, seq<string>>)
    requires s.Valid() && PlanOf(s, plan) && IsPartition(files, plan.weightMap.order, plan.weightMap)
    requires exists k :: s.Path(k).Some?
    ensures (exists k :: plan.Unmapped(k)) <==> exists k :: s.Unplaced(k)
    ensures (exists k, k' :: plan.Collides(k, k')) <==> exists i :: s.Contested(i)
    ensures (exists t :: Lacks(plan, files, t)) <==> exists i :: s.Lacking(i)
    ensures Loadable(plan, files) <==> s.CanLoad()
  {
    SomeUnplaced(s, plan);
    ContestedCollides(s, plan);
    SomeLacking(s, plan, files);
  }

  lemma LackingAt<T>(s: Setup<T>, plan: Plan<T>, files: map<string, seq<string>>, i: nat)
    requires s.Valid() && PlanOf(s, plan) && IsPartition(files, plan.weightMap.order, plan.weightMap)
    requires i < |s.model.order|
    ensures Lacks(plan, files, s.normalize(s.model.order[i])) <==> s.Lacking(i)
  {
    FedIsProvided(s, plan, i);
    ExcusedIsTolerated(s, plan, files, s.normalize(s.model.order[i]));
  }

  lemma SomeLacking<T>(s: Setup<T>, plan: Plan<T>, files: map<string, seq<string>>)
    requires s.Valid() && PlanOf(s, plan) && IsPartition(files, plan.weightMap.order, plan.weightMap)
    ensures (exists t :: Lacks(plan, files, t)) <==> exists i :: s.Lacking(i)
  {
    if t :| Lacks(plan, files, t) {
      LackedName(s, plan, files, t);
    }
    if i :| s.Lacking(i) {
      LackingAt(s, plan, files, i);
    }
  }

  lemma LackedName<T>(s: Setup<T>, plan: Plan<T>, files: map<string, seq<string>>, t: string)
    requires s.Valid() && PlanOf(s, plan) && IsPartition(files, plan.weightMap.order, plan.weightMap)
    requires Lacks(plan, files, t)
    ensures exists i :: s.Lacking(i)
  {
    var i := NameOf(s, plan, t);
    LackingAt(s, plan, files, i);
  }

  lemma NameOf<T>(s: Setup<T>, plan: Plan<T>, t: string) returns (i: nat)
    requires s.Valid() && PlanOf(s, plan) && t in plan.target
    ensures i < |s.model.order| && s.normalize(s.model.order[i]) == t
  {
    i :| 0 <= i < |s.model.order| && s.normalize(s.model.order[i]) == t;
  }

  /** The planner's and the reader's result, in terms of the inputs. */
  lemma PlanIsSound<T>(s: Setup<T>, plan: Plan<T>, l: Load<T>, m: Remapped<T>)
    requires s.Valid() && PlanOf(s, plan) && Loadable(plan, l.files) && l.requested == m.stateDict
    requires Remaps(plan, plan.weightMap.order, m) && IsPartition(l.files, plan.weightMap.order, plan.weightMap)
    ensures Sound(s, l)
  {
    RemapIsSound(plan, l.files, m);
    forall k ensures Requests(s, l, k) {
      PlanAgrees(s, plan, k);
      assert RequestedRight(plan, plan.weightMap.order, m, k);
    }
    forall k | k in l.requested ensures Reads(s, l, k) {
      assert ReadOnce(plan, l.files, k);
    }
  }

  /**
   Main result: planner and reader set up from the index files, as `dcp.load` is handed them, succeed exactly if every
   source has one place and every model tensor is fed or excused, and then request and read exactly what feeds the model.
   */
  method PrepareLoad<T>(s: Setup<T>) returns (r: Result<Load<T>, RemapError>)
    requires s.Valid()
    ensures r.Ok? <==> s.CanLoad()
    ensures r.Ok? ==> Sound(s, r.value)
    ensures r.Err? ==> match r.error
      case IndexNotFound => forall k :: s.Path(k).None?
      case DuplicateTarget => !NormalizesApart(s.model.order, s.normalize)
      case UnmappedKey => exists k :: s.Unplaced(k)
      case DuplicateSource => exists i :: s.Contested(i)
      case MissingKeys => exists i :: s.Lacking(i)
  {
    var weights := DiffusersWeightMap(s.root, s.transformer);
    if weights.Err? {
      return Err(weights.error);
    }
    var files := DiffusersFilesToKeys(weights.value);
    var target := NormalizeTargetStateDict(s.model, s.normalize);
    if target.Err? {
      return Err(target.error);
    }
    var plan := Plan(s.tables, weights.value, target.value);
    var remapped := SetUpPlanner(plan, files);
    LoadableIsCanLoad(s, plan, files);
    if remapped.Err? {
      return Err(remapped.error);
    }
    r := Ok(Load(remapped.value.stateDict, files));
    PlanIsSound(s, plan, r.value, remapped.value);
  }
}
