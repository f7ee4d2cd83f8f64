/** Inheritance between configuration files (src/agenthicc/config.py, `_resolve_extends`). */
module ConfigExtends {

  import opened Wrappers
  import opened ConfigMerge

  /** Resolved file paths. */
  type Path = string

  datatype Error = Cycle | Missing | Malformed

  /** The files that exist; `None` is a file that does not parse. `locate` resolves a name written in a file against
      the directory of that file, `show` is how a list entry that is not a string reads as one. */
  datatype Disk = Disk(files: map<Path, Option<Section>>, locate: (Path, string) -> Path, show: Value -> string)

  // ---------- specification ----------

  function ParentNames(disk: Disk, data: Section): seq<string> {
    if "extends" !in data then []
    else match data["extends"]
      case Text(name) => if name == "" then [] else [name]
      case Array(items) => seq(|items|, i requires 0 <= i < |items| => if items[i].Text? then items[i].text else disk.show(items[i]))
      case _ => []
  }

  predicate Readable(disk: Disk, path: Path) {
    path in disk.files && disk.files[path].Some?
  }

  /** The files that `path` extends, in order. */
  function Parents(disk: Disk, path: Path): (parents: seq<Path>)
    requires Readable(disk, path)
  {
    var names := ParentNames(disk, disk.files[path].value);
    seq(|names|, i requires 0 <= i < |names| => disk.locate(path, names[i]))
  }

  /** The file's own values. */
  function Own(disk: Disk, path: Path): Section
    requires Readable(disk, path)
  {
    disk.files[path].value - {"extends"}
  }

  /** The outcome for `path` when the files in `seen` are already in the inheritance chain. */
  function Resolved(disk: Disk, path: Path, seen: set<Path>): Result<Section, Error>
    decreases disk.files.Keys - seen, 1, 0
  {
    if path in seen then Failure(Cycle)
    else if path !in disk.files then Failure(Missing)
    else if disk.files[path].None? then Failure(Malformed)
    else
      var parents := Parents(disk, path);
      if parents == [] then Success(Own(disk, path))
      else
        match MergedParents(disk, parents, seen + {path})
        case Failure(e) => Failure(e)
        case Success(merged) => Success(DeepMerge(merged, Own(disk, path)))
  }

  /** The left-to-right merge of the resolved parents, or the first error. */
  function MergedParents(disk: Disk, parents: seq<Path>, seen: set<Path>): Result<Section, Error>
    decreases disk.files.Keys - seen, 2, |parents|
  {
    if parents == [] then Success(map[])
    else
      match MergedParents(disk, parents[..|parents| - 1], seen)
      case Failure(e) => Failure(e)
      case Success(merged) =>
        match Resolved(disk, parents[|parents| - 1], seen)
        case Failure(e) => Failure(e)
        case Success(data) => Success(DeepMerge(merged, data))
  }

  /** `_resolve_extends`: the recursion with its accumulating loop. */
  method ResolveExtends(disk: Disk, path: Path, seen: set<Path>) returns (r: Result<Section, Error>)
    requires seen <= disk.files.Keys
    ensures r == Resolved(disk, path, seen)
    decreases disk.files.Keys - seen
  {
    hide DeepMerge;
    if path in seen { return Failure(Cycle); }
    if path !in disk.files { return Failure(Missing); }
    if disk.files[path].None? { return Failure(Malformed); }
    var data := disk.files[path].value;
    var parents := ParentNames(disk, data);
    var own := data - {"extends"};
    if parents == [] { return Success(own); }
    var merged: Section := map[];
    ghost var paths := Parents(disk, path);
    for i := 0 to |parents|
      invariant MergedParents(disk, paths[..i], seen + {path}) == Success(merged)
    {
      var parentPath := disk.locate(path, parents[i]);
      assert paths[..i + 1][..i] == paths[..i];
      if parentPath !in disk.files {
        FailureStops(disk, paths, seen + {path}, i + 1);
        return Failure(Missing);
      }
      var parentData := ResolveExtends(disk, parentPath, seen + {path});
      if parentData.Failure? {
        FailureStops(disk, paths, seen + {path}, i + 1);
        return Failure(parentData.error);
      }
      merged := MergeSections(merged, parentData.value);
    }
    assert paths[..|parents|] == paths;
    merged := MergeSections(merged, own);
    return Success(merged);
  }

  lemma {:induction false} FailureStops(disk: Disk, parents: seq<Path>, seen: set<Path>, n: nat)
    requires n <= |parents| && MergedParents(disk, parents[..n], seen).Failure?
    ensures MergedParents(disk, parents, seen) == MergedParents(disk, parents[..n], seen)
    decreases |parents|
  {
    if n == |parents| {
      assert parents[..n] == parents;
    } else {
      assert parents[..|parents| - 1][..n] == parents[..n];
      FailureStops(disk, parents[..|parents| - 1], seen, n);
    }
  }

  // ---------- inheritance chains ----------

  /** Each file of the chain extends the next one. */
  ghost predicate Chain(disk: Disk, chain: seq<Path>) {
    && chain != []
    && forall i | 0 <= i < |chain| - 1 :: Readable(disk, chain[i]) && chain[i + 1] in Parents(disk, chain[i])
  }

  ghost predicate Repeats(chain: seq<Path>) {
    exists i, j :: 0 <= i < j < |chain| && chain[i] == chain[j]
  }

  /** Following `extends` from `path` comes back to a file it has passed. */
  ghost predicate ReachesCycle(disk: Disk, path: Path) {
    exists chain :: Chain(disk, chain) && chain[0] == path && Repeats(chain)
  }

  /** Some file that `path` inherits from, itself included, is missing or does not parse. */
  ghost predicate ReachesUnreadable(disk: Disk, path: Path) {
    exists chain :: Chain(disk, chain) && chain[0] == path && !Readable(disk, chain[|chain| - 1])
  }

  lemma RepeatsLater(chain: seq<Path>)
    requires Repeats(chain)
    ensures chain[0] in chain[1..] || Repeats(chain[1..])
  {
    var i, j :| 0 <= i < j < |chain| && chain[i] == chain[j];
    assert chain[1..][j - 1] == chain[j];
    if i > 0 { assert chain[1..][i - 1] == chain[i]; }
  }

  lemma RepeatsFurther(path: Path, rest: seq<Path>)
    requires rest != []
    ensures Repeats(rest) || rest[|rest| - 1] == path ==> Repeats([path] + rest)
  {
    var chain := [path] + rest;
    if Repeats(rest) {
      var i, j :| 0 <= i < j < |rest| && rest[i] == rest[j];
      assert chain[i + 1] == chain[j + 1];
    } else if rest[|rest| - 1] == path {
      assert chain[0] == chain[|chain| - 1];
    }
  }

  lemma ChainExtends(disk: Disk, path: Path, rest: seq<Path>)
    requires Chain(disk, rest) && Readable(disk, path) && rest[0] in Parents(disk, path)
    ensures Chain(disk, [path] + rest)
  {
    hide Parents;
  }

  /** A successful merge resolved every parent. */
  lemma {:induction false} ParentsResolve(disk: Disk, parents: seq<Path>, seen: set<Path>, p: Path)
    requires MergedParents(disk, parents, seen).Success? && p in parents
    ensures Resolved(disk, p, seen).Success?
    decreases |parents|
  {
    if p != parents[|parents| - 1] {
      ParentsResolve(disk, parents[..|parents| - 1], seen, p);
    }
  }

  /** A failed merge comes from one of the parents. */
  lemma {:induction false} FailedParent(disk: Disk, parents: seq<Path>, seen: set<Path>) returns (p: Path)
    requires MergedParents(disk, parents, seen).Failure?
    ensures p in parents && Resolved(disk, p, seen) == MergedParents(disk, parents, seen)
    decreases |parents|
  {
    if MergedParents(disk, parents[..|parents| - 1], seen).Failure? {
      p := FailedParent(disk, parents[..|parents| - 1], seen);
    } else {
      p := parents[|parents| - 1];
    }
  }

  /** When `path` resolves, no chain from it repeats a file, meets the chain that leads to it, or ends badly. */
  lemma {:induction false} SuccessMeansSound(disk: Disk, path: Path, seen: set<Path>, chain: seq<Path>)
    requires Resolved(disk, path, seen).Success?
    requires Chain(disk, chain) && chain[0] == path
    ensures !Repeats(chain) && (forall p | p in chain :: p !in seen) && Readable(disk, chain[|chain| - 1])
    decreases |chain|
  {
    hide DeepMerge;
    if |chain| > 1 {
      var rest := chain[1..];
      assert Chain(disk, rest) by { hide Parents; }
      ParentsResolve(disk, Parents(disk, path), seen + {path}, rest[0]);
      SuccessMeansSound(disk, rest[0], seen + {path}, rest);
      hide Chain, Resolved;
      if Repeats(chain) { RepeatsLater(chain); }
      assert forall p | p in chain :: p == path || p in rest;
    }
  }

  /** When `path` does not resolve, some chain from it shows why. */
  lemma {:induction false} FailureHasChain(disk: Disk, path: Path, seen: set<Path>) returns (chain: seq<Path>)
    requires Resolved(disk, path, seen).Failure?
    ensures Chain(disk, chain) && chain[0] == path
    ensures Resolved(disk, path, seen) == Failure(Cycle) ==> Repeats(chain) || chain[|chain| - 1] in seen
    ensures Resolved(disk, path, seen) != Failure(Cycle) ==> !Readable(disk, chain[|chain| - 1])
    decreases disk.files.Keys - seen
  {
    hide DeepMerge;
    if path in seen || !Readable(disk, path) {
      chain := [path];
    } else {
      var parents := Parents(disk, path);
      var p := FailedParent(disk, parents, seen + {path});
      var rest := FailureHasChain(disk, p, seen + {path});
      assert rest != [];
      chain := [path] + rest;
      hide Resolved, Parents, Chain, Repeats;
      ChainExtends(disk, path, rest);
      RepeatsFurther(path, rest);
    }
  }

  /** Resolution succeeds exactly when no inheritance chain from the file closes a cycle or ends in a missing or
      malformed file. Diamonds, where two parents share an ancestor, are accepted. */
  lemma ResolvesExactly(disk: Disk, root: Path)
    ensures Resolved(disk, root, {}).Success? <==> !ReachesCycle(disk, root) && !ReachesUnreadable(disk, root)
  {
    hide Resolved, Repeats;
    if Resolved(disk, root, {}).Success? {
      forall chain | Chain(disk, chain) && chain[0] == root ensures !Repeats(chain) && Readable(disk, chain[|chain| - 1]) {
        SuccessMeansSound(disk, root, {}, chain);
      }
    } else {
      var chain := FailureHasChain(disk, root, {});
    }
  }

  /** When every file that is named exists and parses, the cycle error is raised exactly for the files that reach
      a cycle. */
  lemma CycleErrorExactly(disk: Disk, root: Path)
    requires !ReachesUnreadable(disk, root)
    ensures Resolved(disk, root, {}) == Failure(Cycle) <==> ReachesCycle(disk, root)
  {
    ResolvesExactly(disk, root);
    hide Resolved, Repeats;
    if Resolved(disk, root, {}).Failure? {
      var chain := FailureHasChain(disk, root, {});
    }
  }

  // ---------- what a file resolves to ----------

  /** The chain that led to a file does not change what it resolves to. */
  lemma {:induction false} SeenIsIrrelevant(disk: Disk, path: Path, seen: set<Path>, fewer: set<Path>)
    requires Resolved(disk, path, seen).Success? && fewer <= seen
    ensures Resolved(disk, path, fewer) == Resolved(disk, path, seen)
    decreases disk.files.Keys - seen, 1, 0
  {
    hide DeepMerge;
    if Parents(disk, path) != [] {
      SeenIsIrrelevantForParents(disk, Parents(disk, path), seen + {path}, fewer + {path});
    }
  }

  lemma {:induction false} SeenIsIrrelevantForParents(disk: Disk, parents: seq<Path>, seen: set<Path>, fewer: set<Path>)
    requires MergedParents(disk, parents, seen).Success? && fewer <= seen
    ensures MergedParents(disk, parents, fewer) == MergedParents(disk, parents, seen)
    decreases disk.files.Keys - seen, 2, |parents|
  {
    hide DeepMerge;
    if parents != [] {
      SeenIsIrrelevantForParents(disk, parents[..|parents| - 1], seen, fewer);
      SeenIsIrrelevant(disk, parents[|parents| - 1], seen, fewer);
    }
  }

  /** The resolved values of the files, laid on each other from left to right. */
  function Layers(disk: Disk, paths: seq<Path>): Section
    requires forall p | p in paths :: Resolved(disk, p, {}).Success?
  {
    if paths == [] then map[]
    else DeepMerge(Layers(disk, paths[..|paths| - 1]), Resolved(disk, paths[|paths| - 1], {}).value)
  }

  lemma {:induction false} ParentsAreLayers(disk: Disk, parents: seq<Path>, seen: set<Path>)
    requires MergedParents(disk, parents, seen).Success?
    ensures forall p | p in parents :: Resolved(disk, p, {}).Success?
    ensures MergedParents(disk, parents, seen) == Success(Layers(disk, parents))
    decreases |parents|
  {
    hide DeepMerge, Resolved;
    if parents != [] {
      ParentsAreLayers(disk, parents[..|parents| - 1], seen);
      SeenIsIrrelevant(disk, parents[|parents| - 1], seen, {});
      assert parents == parents[..|parents| - 1] + [parents[|parents| - 1]];
    }
  }

  /** A file that resolves is its parents, each resolved on its own, laid left to right, with its own values on top. */
  lemma ResolvesToLayers(disk: Disk, root: Path)
    requires Resolved(disk, root, {}).Success?
    ensures Readable(disk, root) && forall p | p in Parents(disk, root) :: Resolved(disk, p, {}).Success?
    ensures Resolved(disk, root, {}).value == DeepMerge(Layers(disk, Parents(disk, root)), Own(disk, root))
  {
    hide DeepMerge;
    if Parents(disk, root) == [] {
      EmptyIsIdentity(Own(disk, root));
    } else {
      assert {} + {root} == {root};
      ParentsAreLayers(disk, Parents(disk, root), {root});
    }
  }

  /** A value that a file sets itself is the one it ends up with. */
  lemma OwnLeafWins(disk: Disk, root: Path, path: seq<string>, leaf: Value)
    requires Resolved(disk, root, {}).Success? && Readable(disk, root) && path != []
    requires At(Table(Own(disk, root)), path) == Some(leaf) && !leaf.Table? && (path[|path| - 1] != SERVERS || !leaf.Array?)
    ensures At(Table(Resolved(disk, root, {}).value), path) == Some(leaf)
  {
    hide DeepMerge, Resolved, At;
    ResolvesToLayers(disk, root);
    LeafWins(Layers(disk, Parents(disk, root)), Own(disk, root), path, leaf);
  }

  // ---------- which file decides ----------

  /** Entry `k` of the file's `extends` names `parent`: a text that is not empty is the only entry, a list names one file per
      entry, and any other value names none. */
  predicate NamesParent(disk: Disk, root: Path, k: nat, parent: Path)
    requires Readable(disk, root)
  {
    var data := disk.files[root].value;
    "extends" in data &&
    match data["extends"]
    case Text(name) => name != "" && k == 0 && parent == disk.locate(root, name)
    case Array(items) => k < |items| && parent == disk.locate(root, if items[k].Text? then items[k].text else disk.show(items[k]))
    case _ => false
  }

  lemma ParentsAreNamed(disk: Disk, root: Path, k: nat, parent: Path)
    requires Readable(disk, root)
    ensures NamesParent(disk, root, k, parent) <==> k < |Parents(disk, root)| && Parents(disk, root)[k] == parent
  {
  }

  /** The value that the resolved file gives to a key at its top level. */
  function Given(disk: Disk, path: Path, key: string): Option<Value> {
    if Resolved(disk, path, {}).Success? then Get(Resolved(disk, path, {}).value, key) else None
  }

  /** Replaces whatever it is laid on. */
  predicate Replaces(key: string, value: Option<Value>) {
    value.Some? && !value.value.Table? && (key != SERVERS || !value.value.Array?)
  }

  lemma GivenLayered(base: Section, over: Section, key: string)
    ensures Replaces(key, Get(over, key)) ==> Get(DeepMerge(base, over), key) == Get(over, key)
    ensures key !in over ==> Get(DeepMerge(base, over), key) == Get(base, key)
  {
  }

  /** Of several layers, the last one that has the key decides. */
  lemma {:induction false} LastLayerDecides(disk: Disk, paths: seq<Path>, key: string, k: nat)
    requires forall p | p in paths :: Resolved(disk, p, {}).Success?
    requires k <= |paths| && forall later | k < later < |paths| :: Given(disk, paths[later], key).None?
    ensures k < |paths| && Replaces(key, Given(disk, paths[k], key)) ==> Get(Layers(disk, paths), key) == Given(disk, paths[k], key)
    ensures (forall i | 0 <= i < |paths| :: Given(disk, paths[i], key).None?) ==> key !in Layers(disk, paths)
    decreases |paths|
  {
    hide DeepMerge, Resolved, Replaces;
    if paths != [] {
      var n := |paths| - 1;
      GivenLayered(Layers(disk, paths[..n]), Resolved(disk, paths[n], {}).value, key);
      assert forall i | 0 <= i < n :: paths[..n][i] == paths[i];
      if k < n { LastLayerDecides(disk, paths[..n], key, k); } else { LastLayerDecides(disk, paths[..n], key, n); }
    }
  }

  /** Every file that `extends` names is resolved on its own; then the file itself decides what a key holds, failing that the
      last of the named files that gives it a value; and a key that none of them gives a value has none. */
  lemma LastSetterDecides(disk: Disk, root: Path, key: string, k: nat, parent: Path)
    requires Resolved(disk, root, {}).Success? && Readable(disk, root) && key != "extends"
    ensures var own := Get(disk.files[root].value, key);
      && (Replaces(key, own) ==> Given(disk, root, key) == own)
      && (own.None? && NamesParent(disk, root, k, parent)
          && (forall later, other | later > k && NamesParent(disk, root, later, other) :: Given(disk, other, key).None?)
          && Replaces(key, Given(disk, parent, key))
          ==> Given(disk, root, key) == Given(disk, parent, key))
      && (own.None? && (forall i, other | NamesParent(disk, root, i, other) :: Given(disk, other, key).None?)
          ==> Given(disk, root, key).None?)
    ensures NamesParent(disk, root, k, parent) ==> Resolved(disk, parent, {}).Success?
  {
    ResolvesToLayers(disk, root);
    var parents := Parents(disk, root);
    assert Get(Own(disk, root), key) == Get(disk.files[root].value, key);
    hide DeepMerge, Resolved, Replaces, Parents, NamesParent, Own;
    forall i: nat, other { ParentsAreNamed(disk, root, i, other); }
    GivenLayered(Layers(disk, parents), Own(disk, root), key);
    if forall i, other | NamesParent(disk, root, i, other) :: Given(disk, other, key).None? {
      forall i | 0 <= i < |parents| ensures Given(disk, parents[i], key).None? { assert NamesParent(disk, root, i, parents[i]); }
      LastLayerDecides(disk, parents, key, |parents|);
    }
    if NamesParent(disk, root, k, parent)
      && forall later, other | later > k && NamesParent(disk, root, later, other) :: Given(disk, other, key).None?
    {
      forall later | k < later < |parents| ensures Given(disk, parents[later], key).None? {
        assert NamesParent(disk, root, later, parents[later]);
      }
      LastLayerDecides(disk, parents, key, k);
    }
  }

  /** No resolved configuration mentions `extends` at its top level. */
  lemma {:induction false} ExtendsIsStripped(disk: Disk, path: Path, seen: set<Path>)
    requires Resolved(disk, path, seen).Success?
    ensures "extends" !in Resolved(disk, path, seen).value
    decreases disk.files.Keys - seen, 1, 0
  {
    hide Combine;
    if Parents(disk, path) != [] {
      ExtendsIsStrippedFromParents(disk, Parents(disk, path), seen + {path});
    }
  }

  lemma {:induction false} ExtendsIsStrippedFromParents(disk: Disk, parents: seq<Path>, seen: set<Path>)
    requires MergedParents(disk, parents, seen).Success?
    ensures "extends" !in MergedParents(disk, parents, seen).value
    decreases disk.files.Keys - seen, 2, |parents|
  {
    hide Combine;
    if parents != [] {
      ExtendsIsStrippedFromParents(disk, parents[..|parents| - 1], seen);
      ExtendsIsStripped(disk, parents[|parents| - 1], seen);
    }
  }
}
