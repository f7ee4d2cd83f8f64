/** Layering of configuration tables (src/agenthicc/config.py, `deep_merge` and `_merge_named_mcp_servers`). */
module ConfigMerge {

  import opened Wrappers

  /** A parsed TOML value. Scalars other than strings only matter up to equality. */
  datatype Value =
    | Table(fields: Section)
    | Array(items: seq<Value>)
    | Text(text: string)
    | Scalar(id: int)

  type Section = map<string, Value>

  const SERVERS := "mcp_servers"

  // ---------- arrays of named entries ----------

  /** The name that identifies an entry across layers, if it has one. */
  function NameOf(item: Value): Option<string> {
    if item.Table? && "name" in item.fields && item.fields["name"].Text? then Some(item.fields["name"].text) else None
  }

  /** The last entry called `name`, or the length of the list. */
  function LastNamed(list: seq<Value>, name: string): (i: nat)
    ensures i <= |list|
    ensures i < |list| ==> NameOf(list[i]) == Some(name)
    ensures forall k | 0 <= k < |list| && NameOf(list[k]) == Some(name) :: k <= i < |list|
  {
    if list == [] then 0
    else if NameOf(list[|list| - 1]) == Some(name) then |list| - 1
    else
      var i := LastNamed(list[..|list| - 1], name);
      if i < |list| - 1 then i else |list|
  }

  predicate Names(list: seq<Value>, name: string) {
    LastNamed(list, name) < |list|
  }

  /** Merge one entry into a list. */
  function Put(list: seq<Value>, item: Value): seq<Value> {
    match NameOf(item)
    case None => list + [item]
    case Some(name) => if Names(list, name) then list[LastNamed(list, name) := item] else list + [item]
  }

  function NamedMerge(base: seq<Value>, over: seq<Value>): seq<Value> {
    if over == [] then base else Put(NamedMerge(base, over[..|over| - 1]), over[|over| - 1])
  }

  /** The table of positions knows exactly the names of the list, each by its last index. */
  ghost predicate PositionsOk(list: seq<Value>, positions: map<string, nat>) {
    forall name :: PositionOk(list, positions, name)
  }

  predicate PositionOk(list: seq<Value>, positions: map<string, nat>, name: string) {
    (name in positions <==> Names(list, name)) && (name in positions ==> positions[name] == LastNamed(list, name))
  }

  /** `_merge_named_mcp_servers`: the loop keeps the position of every name. */
  method MergeNamedServers(base: seq<Value>, over: seq<Value>) returns (merged: seq<Value>)
    ensures merged == NamedMerge(base, over)
  {
    hide LastNamed, NameOf, PositionsOk;
    merged := base;
    var positions := ServerPositions(base);
    for j := 0 to |over|
      invariant merged == NamedMerge(base, over[..j])
      invariant PositionsOk(merged, positions)
    {
      assert over[..j + 1][..j] == over[..j];
      merged, positions := PlaceServer(merged, positions, over[j]);
    }
    assert over[..|over|] == over;
  }

  /** The dictionary comprehension: a later entry of the same name wins. */
  method ServerPositions(base: seq<Value>) returns (positions: map<string, nat>)
    ensures PositionsOk(base, positions)
  {
    hide LastNamed, NameOf;
    positions := map[];
    for index := 0 to |base|
      invariant PositionsOk(base[..index], positions)
    {
      var item := base[index];
      ghost var before := positions;
      ghost var seen := base[..index + 1];
      assert seen == base[..index] + [item];
      forall name { LastNamedAppend(base[..index], item, name); }
      if NameOf(item).Some? {
        positions := positions[NameOf(item).value := index];
      }
      forall name ensures PositionOk(seen, positions, name) {
        assert PositionOk(base[..index], before, name);
      }
    }
    assert base[..|base|] == base;
  }

  /** One turn of the second loop. */
  method PlaceServer(list: seq<Value>, positions: map<string, nat>, item: Value)
    returns (merged: seq<Value>, after: map<string, nat>)
    requires PositionsOk(list, positions)
    ensures merged == Put(list, item) && PositionsOk(merged, after)
  {
    hide LastNamed, NameOf;
    merged, after := list, positions;
    forall name { LastNamedPut(list, item, name); }
    if NameOf(item) == None {
      merged := merged + [item];
    } else {
      var name := NameOf(item).value;
      assert PositionOk(list, positions, name);
      if name !in positions {
        after := after[name := |merged|];
        merged := merged + [item];
      } else {
        merged := merged[positions[name] := item];
      }
    }
    assert merged == Put(list, item);
    forall name ensures PositionOk(merged, after, name) {
      assert PositionOk(list, positions, name);
    }
  }

  lemma LastNamedAppend(list: seq<Value>, item: Value, name: string)
    ensures LastNamed(list + [item], name) ==
      if NameOf(item) == Some(name) then |list| else if Names(list, name) then LastNamed(list, name) else |list| + 1
  {
    assert (list + [item])[..|list|] == list;
  }

  /** Merging an entry moves no name that was there already. */
  lemma LastNamedPut(list: seq<Value>, item: Value, name: string)
    ensures Names(Put(list, item), name) <==> Names(list, name) || NameOf(item) == Some(name)
    ensures Names(list, name) ==> LastNamed(Put(list, item), name) == LastNamed(list, name)
    ensures !Names(list, name) && NameOf(item) == Some(name) ==> LastNamed(Put(list, item), name) == |list|
  {
    LastNamedAppend(list, item, name);
    if NameOf(item).Some? && Names(list, NameOf(item).value) {
      LastNamedReplace(list, NameOf(item).value, item, name);
    }
  }

  lemma LastNamedReplace(list: seq<Value>, n: string, item: Value, name: string)
    requires Names(list, n) && NameOf(item) == Some(n)
    ensures LastNamed(list[LastNamed(list, n) := item], name) == LastNamed(list, name)
  {
    var i := LastNamed(list, n);
    var after := list[i := item];
    hide NameOf;
    LastNamedIs(after, name, LastNamed(list, name));
  }

  /** What the last index of a name is. */
  lemma LastNamedIs(list: seq<Value>, name: string, i: nat)
    requires i <= |list| && (i < |list| ==> NameOf(list[i]) == Some(name))
    requires forall k | 0 <= k < |list| && NameOf(list[k]) == Some(name) :: k <= i < |list|
    ensures LastNamed(list, name) == i
  {
    var j := LastNamed(list, name);
    hide LastNamed, NameOf;
  }

  // ---------- laws of the named merge ----------

  function Identities(list: seq<Value>): (r: seq<Option<string>>)
    ensures |r| == |list|
  {
    seq(|list|, i requires 0 <= i < |list| => NameOf(list[i]))
  }

  /** What merging adds to a list whose entries are called `known`: every unnamed entry, and each new name once,
      in first-seen order. */
  function Additions(known: seq<Option<string>>, over: seq<Option<string>>): seq<Option<string>> {
    if over == [] then []
    else
      var before := Additions(known, over[..|over| - 1]);
      var last := over[|over| - 1];
      if last.Some? && last in known + before then before else before + [last]
  }

  predicate UniqueNames(list: seq<Value>) {
    forall i, j | 0 <= i < j < |list| && NameOf(list[i]).Some? :: NameOf(list[i]) != NameOf(list[j])
  }

  lemma NamesIn(list: seq<Value>, name: string)
    ensures Names(list, name) <==> Some(name) in Identities(list)
  {
    hide NameOf;
    if Names(list, name) { assert Identities(list)[LastNamed(list, name)] == Some(name); }
  }

  lemma IdentitiesPut(list: seq<Value>, item: Value)
    ensures Identities(Put(list, item)) ==
      if NameOf(item).Some? && NameOf(item) in Identities(list) then Identities(list) else Identities(list) + [NameOf(item)]
  {
    hide NameOf, LastNamed;
    if NameOf(item).Some? { NamesIn(list, NameOf(item).value); }
  }

  /** Base entries keep their places; new entries follow in first-seen order. */
  lemma {:induction false} MergeKeepsOrder(base: seq<Value>, over: seq<Value>)
    ensures Identities(NamedMerge(base, over)) == Identities(base) + Additions(Identities(base), Identities(over))
  {
    hide NameOf, LastNamed;
    if over != [] {
      var rest := over[..|over| - 1];
      var item := over[|over| - 1];
      MergeKeepsOrder(base, rest);
      assert Identities(over)[..|over| - 1] == Identities(rest);
      IdentitiesPut(NamedMerge(base, rest), item);
    }
  }

  /** The entry a name resolves to. */
  function Entry(list: seq<Value>, name: string): Option<Value> {
    if Names(list, name) then Some(list[LastNamed(list, name)]) else None
  }

  lemma EntryPut(list: seq<Value>, item: Value, name: string)
    ensures Entry(Put(list, item), name) == if NameOf(item) == Some(name) then Some(item) else Entry(list, name)
  {
    hide NameOf, LastNamed;
    LastNamedPut(list, item, name);
  }

  /** Each name resolves to its entry in the overriding list if it has one there, and else to its base entry. */
  lemma {:induction false} MergeResolves(base: seq<Value>, over: seq<Value>, name: string)
    ensures Entry(NamedMerge(base, over), name) == if Names(over, name) then Entry(over, name) else Entry(base, name)
  {
    hide NameOf;
    if over != [] {
      var rest := over[..|over| - 1];
      MergeResolves(base, rest, name);
      EntryPut(NamedMerge(base, rest), over[|over| - 1], name);
    }
  }

  /** Merging keeps names unique, whatever the overriding list repeats. */
  lemma {:induction false} MergeKeepsUnique(base: seq<Value>, over: seq<Value>)
    requires UniqueNames(base)
    ensures UniqueNames(NamedMerge(base, over))
  {
    if over != [] {
      var list := NamedMerge(base, over[..|over| - 1]);
      var item := over[|over| - 1];
      MergeKeepsUnique(base, over[..|over| - 1]);
      hide NamedMerge;
      PutUnique(list, item);
      assert Put(list, item) == NamedMerge(base, over) by { MergeStep(base, over); }
    }
  }

  lemma MergeStep(base: seq<Value>, over: seq<Value>)
    requires over != []
    ensures NamedMerge(base, over) == Put(NamedMerge(base, over[..|over| - 1]), over[|over| - 1])
  {
  }

  lemma PutUnique(list: seq<Value>, item: Value)
    requires UniqueNames(list)
    ensures UniqueNames(Put(list, item))
  {
    hide NameOf;
    var after := Put(list, item);
    forall i, j | 0 <= i < j < |after| && NameOf(after[i]).Some? ensures NameOf(after[i]) != NameOf(after[j]) {
      if NameOf(item).Some? && !Names(list, NameOf(item).value) {
        assert LastNamed(list, NameOf(item).value) == |list|;
      }
    }
  }

  /** Two entries merged one after the other, when the second replaces the first or neither touches the other. */
  lemma PutAbsorbs(list: seq<Value>, x: Value, y: Value)
    requires NameOf(x).Some? && NameOf(x) == NameOf(y)
    ensures Put(Put(list, x), y) == Put(list, y)
  {
    LastNamedPut(list, x, NameOf(x).value);
  }

  lemma PutCommutes(list: seq<Value>, x: Value, y: Value)
    requires NameOf(y).Some? && NameOf(x) != NameOf(y) && Names(list, NameOf(y).value)
    ensures Put(Put(list, x), y) == Put(Put(list, y), x)
  {
    hide LastNamed, NameOf;
    LastNamedPut(list, x, NameOf(y).value);
    if NameOf(x).Some? { LastNamedPut(list, y, NameOf(x).value); }
  }

  lemma {:induction false} MergeNames(base: seq<Value>, over: seq<Value>, name: string)
    ensures Names(NamedMerge(base, over), name) <==> Names(base, name) || Names(over, name)
  {
    MergeResolves(base, over, name);
  }

  /** Replacing an entry of the overriding list before merging is merging the replacement afterwards. */
  lemma {:induction false} MergeReplaced(base: seq<Value>, over: seq<Value>, y: Value)
    requires NameOf(y).Some? && Names(over, NameOf(y).value)
    ensures NamedMerge(base, Put(over, y)) == Put(NamedMerge(base, over), y)
    decreases |over|
  {
    hide NameOf, NamedMerge;
    var name := NameOf(y).value;
    var rest, last := over[..|over| - 1], over[|over| - 1];
    var i := LastNamed(over, name);
    var after := Put(over, y);
    MergeStep(base, over);
    MergeStep(base, after);
    if i == |over| - 1 {
      assert after[..|over| - 1] == rest;
      PutAbsorbs(NamedMerge(base, rest), last, y);
    } else {
      assert LastNamed(rest, name) == i;
      assert after[..|over| - 1] == Put(rest, y);
      MergeReplaced(base, rest, y);
      MergeNames(base, rest, name);
      PutCommutes(NamedMerge(base, rest), last, y);
    }
  }

  lemma MergeAfterPut(base: seq<Value>, over: seq<Value>, y: Value)
    ensures NamedMerge(base, Put(over, y)) == Put(NamedMerge(base, over), y)
  {
    if NameOf(y).Some? && Names(over, NameOf(y).value) {
      MergeReplaced(base, over, y);
    } else {
      assert (over + [y])[..|over|] == over;
    }
  }

  /** The named merge is associative on all lists, with or without repeated or unnamed entries. */
  lemma {:induction false} NamedMergeAssociates(a: seq<Value>, b: seq<Value>, c: seq<Value>)
    ensures NamedMerge(NamedMerge(a, b), c) == NamedMerge(a, NamedMerge(b, c))
  {
    if c != [] {
      NamedMergeAssociates(a, b, c[..|c| - 1]);
      MergeAfterPut(a, NamedMerge(b, c[..|c| - 1]), c[|c| - 1]);
    }
  }

  // ---------- tables ----------

  function Get(section: Section, key: string): Option<Value> {
    if key in section then Some(section[key]) else None
  }

  /** What a key holds when `over` is laid on `base`. */
  function Combine(key: string, base: Option<Value>, over: Value): Value
    decreases over, 1
  {
    if base.Some? && key == SERVERS && base.value.Array? && over.Array? then Array(NamedMerge(base.value.items, over.items))
    else if base.Some? && base.value.Table? && over.Table? then Table(DeepMerge(base.value.fields, over.fields))
    else over
  }

  function DeepMerge(base: Section, over: Section): Section
    decreases Table(over), 0
  {
    map key | key in base.Keys + over.Keys ::
      if key in over then Combine(key, Get(base, key), over[key]) else base[key]
  }

  /** `deep_merge`: a loop over the items of the overriding table. */
  method MergeSections(base: Section, over: Section) returns (result: Section)
    ensures result == DeepMerge(base, over)
    decreases Table(over), 0
  {
    hide NamedMerge, Combine;
    result := base;
    var todo := over.Keys;
    while todo != {}
      invariant todo <= over.Keys
      invariant result.Keys == base.Keys + (over.Keys - todo)
      invariant forall k | k in result ::
        result[k] == if k in over && k !in todo then Combine(k, Get(base, k), over[k]) else base[k]
      decreases todo
    {
      var key :| key in todo;
      todo := todo - {key};
      var value := over[key];
      assert Get(result, key) == Get(base, key);
      var combined := MergeKey(key, Get(result, key), value);
      result := result[key := combined];
    }
  }

  /** What one turn of the loop stores. */
  method MergeKey(key: string, base: Option<Value>, value: Value) returns (combined: Value)
    ensures combined == Combine(key, base, value)
    decreases value, 1
  {
    hide NamedMerge;
    if base.Some? && key == SERVERS && base.value.Array? && value.Array? {
      var merged := MergeNamedServers(base.value.items, value.items);
      combined := Array(merged);
    } else if base.Some? && base.value.Table? && value.Table? {
      var merged := MergeSections(base.value.fields, value.fields);
      combined := Table(merged);
    } else {
      combined := value;
    }
  }

  /** The empty table is the identity on both sides. */
  lemma EmptyIsIdentity(m: Section)
    ensures DeepMerge(map[], m) == m && DeepMerge(m, map[]) == m
  {
  }

  // ---------- what a path holds ----------

  /** The value a path of keys leads to. */
  function At(v: Value, path: seq<string>): Option<Value>
    decreases |path|
  {
    if path == [] then Some(v)
    else if v.Table? && path[0] in v.fields then At(v.fields[path[0]], path[1..])
    else None
  }

  /** A proper prefix of the path leads to something that is not a table. */
  predicate Blocked(v: Value, path: seq<string>)
    decreases |path|
  {
    path != [] && (!v.Table? || (path[0] in v.fields && Blocked(v.fields[path[0]], path[1..])))
  }

  /** The value of every path of a merge: the override where it has a value, nothing where the override put a leaf
      on the way, and else the base. */
  lemma {:induction false} PathLookup(base: Section, over: Section, path: seq<string>)
    requires path != []
    ensures At(Table(DeepMerge(base, over)), path) ==
      match At(Table(over), path)
      case Some(v) => Some(Combine(path[|path| - 1], At(Table(base), path), v))
      case None => if Blocked(Table(over), path) then None else At(Table(base), path)
    decreases |path|
  {
    hide NamedMerge;
    var key := path[0];
    if |path| > 1 && key in base && key in over && base[key].Table? && over[key].Table? {
      PathLookup(base[key].fields, over[key].fields, path[1..]);
    }
  }

  /** Every leaf of the override, except an array of servers laid on another, is in the merge as it stands. */
  lemma LeafWins(base: Section, over: Section, path: seq<string>, leaf: Value)
    requires path != [] && At(Table(over), path) == Some(leaf) && !leaf.Table?
    requires path[|path| - 1] != "mcp_servers" || !leaf.Array?
    ensures At(Table(DeepMerge(base, over)), path) == Some(leaf)
  {
    PathLookup(base, over, path);
  }

  // ---------- the servers of two layers ----------

  predicate Called(item: Value, name: string) {
    item.Table? && "name" in item.fields && item.fields["name"] == Text(name)
  }

  predicate LastCalled(list: seq<Value>, name: string, i: int) {
    0 <= i < |list| && Called(list[i], name) && forall j | i < j < |list| :: !Called(list[j], name)
  }

  lemma LastCalledIs(list: seq<Value>, name: string, i: int)
    ensures LastCalled(list, name, i) <==> Names(list, name) && i == LastNamed(list, name)
  {
    forall item ensures Called(item, name) <==> NameOf(item) == Some(name) { }
    hide LastNamed, NameOf, Called;
  }

  /** The last entry of a name in the base keeps its place. */
  lemma {:induction false} MergeKeepsPlace(base: seq<Value>, over: seq<Value>, name: string)
    ensures |NamedMerge(base, over)| >= |base|
    ensures Names(base, name) ==>
      Names(NamedMerge(base, over), name) && LastNamed(NamedMerge(base, over), name) == LastNamed(base, name)
    ensures Names(NamedMerge(base, over), name) && !Names(base, name) ==> LastNamed(NamedMerge(base, over), name) >= |base|
  {
    if over != [] {
      var rest, item := over[..|over| - 1], over[|over| - 1];
      MergeKeepsPlace(base, rest, name);
      MergeStep(base, over);
      LastNamedPut(NamedMerge(base, rest), item, name);
      hide NameOf, LastNamed, NamedMerge;
    }
  }

  lemma NamesMore(over: seq<Value>, name: string)
    requires over != []
    ensures Names(over, name) <==> Names(over[..|over| - 1], name) || NameOf(over[|over| - 1]) == Some(name)
  {
    LastNamedAppend(over[..|over| - 1], over[|over| - 1], name);
    assert over == over[..|over| - 1] + [over[|over| - 1]];
    hide NameOf;
  }

  /** Entries that nothing replaces stay. */
  lemma {:induction false} MergeKeepsEntries(base: seq<Value>, over: seq<Value>, i: nat)
    requires i < |base| && forall name | LastCalled(base, name, i) :: !Names(over, name)
    ensures i < |NamedMerge(base, over)| && NamedMerge(base, over)[i] == base[i]
  {
    hide NameOf, LastNamed, LastCalled;
    if over != [] {
      var rest, item := over[..|over| - 1], over[|over| - 1];
      forall name { NamesMore(over, name); }
      hide Names;
      MergeKeepsEntries(base, rest, i);
      MergeStep(base, over);
      if NameOf(item).Some? {
        MergeKeepsPlace(base, rest, NameOf(item).value);
        LastCalledIs(base, NameOf(item).value, i);
      }
    }
  }

  /** Entries without a name are added. */
  lemma {:induction false} MergeAddsUnnamed(base: seq<Value>, over: seq<Value>, j: nat) returns (k: nat)
    requires j < |over| && NameOf(over[j]).None?
    ensures |base| <= k < |NamedMerge(base, over)| && NamedMerge(base, over)[k] == over[j]
  {
    hide NameOf, LastNamed;
    var rest, item := over[..|over| - 1], over[|over| - 1];
    var list := NamedMerge(base, rest);
    MergeKeepsPlace(base, rest, "");
    MergeStep(base, over);
    if j == |rest| {
      k := |list|;
    } else {
      k := MergeAddsUnnamed(base, rest, j);
      hide NamedMerge;
      if NameOf(item).Some? && Names(list, NameOf(item).value) && k == LastNamed(list, NameOf(item).value) {
        assert NameOf(list[k]) == NameOf(item);
      }
    }
  }

  /** Two arrays of servers are merged by name. A server that both layers name has its entry of the upper layer, at its place
      in the lower one; one that only the upper layer names is added; an entry of the lower layer stays where it is unless it
      is the one of a name of the upper layer; and an entry of the upper layer without a name is added. */
  lemma ServersMerge(base: Section, over: Section, a: seq<Value>, b: seq<Value>, name: string, i: nat, j: nat)
    requires "mcp_servers" in base && base["mcp_servers"] == Array(a) && "mcp_servers" in over && over["mcp_servers"] == Array(b)
    ensures "mcp_servers" in DeepMerge(base, over) && DeepMerge(base, over)["mcp_servers"].Array?
    ensures var m := DeepMerge(base, over)["mcp_servers"].items;
      && |m| >= |a|
      && (LastCalled(a, name, i) && LastCalled(b, name, j) ==> m[i] == b[j])
      && (LastCalled(b, name, j) && (forall item | item in a :: !Called(item, name)) ==> b[j] in m[|a|..])
      && (i < |a| && (forall n, item | item in b && Called(item, n) :: !LastCalled(a, n, i)) ==> m[i] == a[i])
      && (j < |b| && (forall n :: !Called(b[j], n)) ==> b[j] in m[|a|..])
  {
    assert DeepMerge(base, over)["mcp_servers"] == Array(NamedMerge(a, b));
    ServersByName(a, b, name, i, j);
    hide *;
  }

  lemma ServersByName(a: seq<Value>, b: seq<Value>, name: string, i: nat, j: nat)
    ensures var m := NamedMerge(a, b);
      && |m| >= |a|
      && (LastCalled(a, name, i) && LastCalled(b, name, j) ==> m[i] == b[j])
      && (LastCalled(b, name, j) && (forall item | item in a :: !Called(item, name)) ==> b[j] in m[|a|..])
      && (i < |a| && (forall n, item | item in b && Called(item, n) :: !LastCalled(a, n, i)) ==> m[i] == a[i])
      && (j < |b| && (forall n :: !Called(b[j], n)) ==> b[j] in m[|a|..])
  {
    hide *;
    ServersNamed(a, b, name, i, j);
    if i < |a| && forall n, item | item in b && Called(item, n) :: !LastCalled(a, n, i) { ServerStays(a, b, i); }
    if j < |b| && forall n :: !Called(b[j], n) {
      UnnamedIs(b[j]);
      var k := MergeAddsUnnamed(a, b, j);
      assert NamedMerge(a, b)[|a|..][k - |a|] == b[j];
    }
  }

  lemma UnnamedIs(item: Value)
    requires forall n :: !Called(item, n)
    ensures NameOf(item).None?
  {
    if NameOf(item).Some? { assert Called(item, NameOf(item).value); }
  }

  lemma ServersNamed(a: seq<Value>, b: seq<Value>, name: string, i: nat, j: nat)
    ensures var m := NamedMerge(a, b);
      && |m| >= |a|
      && (LastCalled(a, name, i) && LastCalled(b, name, j) ==> m[i] == b[j])
      && (LastCalled(b, name, j) && (forall item | item in a :: !Called(item, name)) ==> b[j] in m[|a|..])
  {
    hide *;
    MergeKeepsPlace(a, b, name);
    MergeResolves(a, b, name);
    LastCalledIs(a, name, i);
    LastCalledIs(b, name, j);
    EntryOf(NamedMerge(a, b), name);
    EntryOf(a, name);
    EntryOf(b, name);
  }

  lemma ServerStays(a: seq<Value>, b: seq<Value>, i: nat)
    requires i < |a| && forall n, item | item in b && Called(item, n) :: !LastCalled(a, n, i)
    ensures |NamedMerge(a, b)| >= |a| && NamedMerge(a, b)[i] == a[i]
  {
    hide *;
    MergeKeepsPlace(a, b, "");
    forall n | LastCalled(a, n, i) ensures !Names(b, n) { EntryOf(b, n); }
    MergeKeepsEntries(a, b, i);
  }

  lemma EntryOf(list: seq<Value>, name: string)
    ensures Entry(list, name) == if Names(list, name) then Some(list[LastNamed(list, name)]) else None
    ensures Names(list, name) ==> LastNamed(list, name) < |list|
    ensures Names(list, name) ==> list[LastNamed(list, name)] in list && Called(list[LastNamed(list, name)], name)
  {
  }

  // ---------- associativity ----------

  /** The outer layers would combine at this key, and the middle one stands between them with something else. */
  predicate Interrupts(key: string, a: Value, b: Value, c: Value) {
    (a.Table? && c.Table? && !b.Table?) || (key == SERVERS && a.Array? && c.Array? && !b.Array?)
  }

  /** Wherever all three layers agree that a path leads through tables, an interrupting middle layer does no harm:
      the first layer adds nothing to the last. */
  predicate Smooth(key: string, a: Value, b: Value, c: Value)
    decreases a
  {
    && (Interrupts(key, a, b, c) ==> Combine(key, Some(a), c) == c)
    && (a.Table? && b.Table? && c.Table? ==> SmoothTables(a.fields, b.fields, c.fields))
  }

  predicate SmoothTables(a: Section, b: Section, c: Section)
    decreases Table(a), 0
  {
    forall key | key in a && key in b && key in c :: Smooth(key, a[key], b[key], c[key])
  }

  /** Layering is associative exactly on smooth layers. */
  lemma {:induction false} MergeAssociates(a: Section, b: Section, c: Section)
    ensures DeepMerge(DeepMerge(a, b), c) == DeepMerge(a, DeepMerge(b, c)) <==> SmoothTables(a, b, c)
    decreases Table(a), 0
  {
    hide DeepMerge, Smooth, Combine;
    var left, right := DeepMerge(DeepMerge(a, b), c), DeepMerge(a, DeepMerge(b, c));
    KeysMerge(a, b);
    KeysMerge(b, c);
    KeysMerge(DeepMerge(a, b), c);
    KeysMerge(a, DeepMerge(b, c));
    assert left.Keys == right.Keys;
    forall key | key in a && key in b && key in c
      ensures left[key] == right[key] <==> Smooth(key, a[key], b[key], c[key])
    {
      AssociatesAt(key, a[key], b[key], c[key]);
      MergeAt3(a, b, c, key);
    }
    forall key | key in left && !(key in a && key in b && key in c) ensures left[key] == right[key] {
      MissingAssociates(a, b, c, key);
    }
    if left == right {
      forall key | key in a && key in b && key in c ensures Smooth(key, a[key], b[key], c[key]) {
        assert key in left;
      }
    }
  }

  lemma KeysMerge(base: Section, over: Section)
    ensures DeepMerge(base, over).Keys == base.Keys + over.Keys
  {
    hide Combine;
  }

  lemma MergeAt3(a: Section, b: Section, c: Section, key: string)
    requires key in a && key in b && key in c
    ensures var left, right := DeepMerge(DeepMerge(a, b), c), DeepMerge(a, DeepMerge(b, c));
      && key in left && left[key] == Combine(key, Some(Combine(key, Some(a[key]), b[key])), c[key])
      && key in right && right[key] == Combine(key, Some(a[key]), Combine(key, Some(b[key]), c[key]))
  {
    hide Combine;
  }

  lemma MissingAssociates(a: Section, b: Section, c: Section, key: string)
    requires key in a || key in b || key in c
    requires !(key in a && key in b && key in c)
    ensures var left, right := DeepMerge(DeepMerge(a, b), c), DeepMerge(a, DeepMerge(b, c));
      key in left && key in right && left[key] == right[key]
  {
    hide NamedMerge;
  }

  lemma {:induction false} AssociatesAt(key: string, a: Value, b: Value, c: Value)
    ensures Combine(key, Some(Combine(key, Some(a), b)), c) == Combine(key, Some(a), Combine(key, Some(b), c))
      <==> Smooth(key, a, b, c)
    decreases a, 1
  {
    if a.Table? && b.Table? && c.Table? {
      MergeAssociates(a.fields, b.fields, c.fields);
    } else if key == SERVERS && a.Array? && b.Array? && c.Array? {
      NamedMergeAssociates(a.items, b.items, c.items);
    }
    hide NamedMerge, DeepMerge, SmoothTables;
  }

  /** No path is a table in one layer and something else in another, so layering is associative. */
  predicate SameShape(a: Section, b: Section, c: Section)
    decreases Table(a)
  {
    forall key | key in a && key in b && key in c ::
      && (a[key].Table? == b[key].Table? == c[key].Table?)
      && (key == SERVERS ==> a[key].Array? == b[key].Array? == c[key].Array?)
      && (a[key].Table? && b[key].Table? && c[key].Table? ==> SameShape(a[key].fields, b[key].fields, c[key].fields))
  }

  lemma {:induction false} SameShapeIsSmooth(a: Section, b: Section, c: Section)
    requires SameShape(a, b, c)
    ensures SmoothTables(a, b, c)
    decreases Table(a)
  {
    hide NamedMerge, DeepMerge;
    forall key | key in a && key in b && key in c ensures Smooth(key, a[key], b[key], c[key]) {
      if a[key].Table? { SameShapeIsSmooth(a[key].fields, b[key].fields, c[key].fields); }
    }
  }

  /** A scalar between two tables forgets the first one on the left only. */
  lemma ScalarBetweenTables()
    ensures var a := map["x" := Table(map["y" := Scalar(1)])];
      var b := map["x" := Scalar(2)];
      var c := map["x" := Table(map[])];
      DeepMerge(DeepMerge(a, b), c) != DeepMerge(a, DeepMerge(b, c))
  {
    var a := map["x" := Table(map["y" := Scalar(1)])];
    var b := map["x" := Scalar(2)];
    var c: Section := map["x" := Table(map[])];
    EmptyIsIdentity(map["y" := Scalar(1)]);
    var ab, bc := DeepMerge(a, b), DeepMerge(b, c);
    assert Get(a, "x") == Some(a["x"]) && Get(b, "x") == Some(b["x"]);
    assert ab["x"] == Scalar(2) && bc["x"] == Table(map[]);
    assert Get(ab, "x") == Some(Scalar(2));
    assert DeepMerge(ab, c)["x"] == Table(map[]);
    assert DeepMerge(a, bc)["x"] == Table(map["y" := Scalar(1)]);
    assert "y" !in DeepMerge(ab, c)["x"].fields && "y" in DeepMerge(a, bc)["x"].fields;
  }
}
