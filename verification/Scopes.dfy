/** Per-agent capability scopes (src/agenthicc/security.py). */
module Scopes {

  import opened Wrappers

  /** `fnmatch.fnmatch(name, pattern)`: every law below holds for any such predicate. */
  type Glob = (string, string) -> bool

  datatype Scope = Scope(
    allowed: Option<set<string>>, denied: set<string>, comm: Option<set<string>>, budget: int, spawnDepth: int)

  const DEFAULT := Scope(None, {}, None, 100, 3)

  /** `is_tool_allowed` */
  predicate ToolAllowed(glob: Glob, s: Scope, tool: string) {
    && (forall p | p in s.denied :: !glob(tool, p))
    && (s.allowed.Some? ==> exists p | p in s.allowed.value :: glob(tool, p))
  }

  function Meet(a: Option<set<string>>, b: Option<set<string>>): Option<set<string>> {
    if a.Some? && b.Some? then Some(a.value * b.value) else if a.Some? then a else b
  }

  function Min(a: int, b: int): int {
    if b < a then b else a
  }

  function Restrict(a: Scope, b: Scope): Scope {
    Scope(Meet(a.allowed, b.allowed), a.denied + b.denied, Meet(a.comm, b.comm),
      Min(a.budget, b.budget), Min(a.spawnDepth, b.spawnDepth))
  }

  // ---------- algebra ----------

  /** `a` adds nothing to what `b` permits: the order of the meet. */
  predicate Below(a: Scope, b: Scope) {
    Restrict(a, b) == a
  }

  lemma RestrictIsMeet(a: Scope, b: Scope, c: Scope)
    ensures Restrict(a, b) == Restrict(b, a)
    ensures Restrict(Restrict(a, b), c) == Restrict(a, Restrict(b, c))
    ensures Restrict(a, a) == a
    ensures Restrict(a, DEFAULT.(budget := a.budget, spawnDepth := a.spawnDepth)) == a
    ensures Below(Restrict(a, b), a) && Below(Restrict(a, b), b)
    ensures Below(c, a) && Below(c, b) ==> Below(c, Restrict(a, b))
    ensures Below(a, b) && Below(b, a) ==> a == b
    ensures Below(a, b) && Below(b, c) ==> Below(a, c)
  {
    MeetLaws(a.allowed, b.allowed, c.allowed);
    MeetLaws(a.comm, b.comm, c.comm);
    SetLaws(a.denied, b.denied, c.denied);
    hide Meet;
  }

  lemma MeetLaws(a: Option<set<string>>, b: Option<set<string>>, c: Option<set<string>>)
    ensures Meet(a, b) == Meet(b, a) && Meet(Meet(a, b), c) == Meet(a, Meet(b, c)) && Meet(a, a) == a && Meet(a, None) == a
    ensures Meet(Meet(a, b), a) == Meet(a, b) && Meet(Meet(a, b), b) == Meet(a, b)
    ensures Meet(c, a) == c && Meet(c, b) == c ==> Meet(c, Meet(a, b)) == c
    ensures Meet(a, b) == a && Meet(b, c) == b ==> Meet(a, c) == a
  {
    if a.Some? && b.Some? {
      assert a.value * b.value == b.value * a.value && a.value * b.value * a.value == a.value * b.value;
      assert a.value * b.value * b.value == a.value * b.value;
      if c.Some? {
        assert a.value * b.value * c.value == a.value * (b.value * c.value);
        assert c.value * (a.value * b.value) == c.value * a.value * b.value;
      }
    }
    if a.Some? { assert a.value * a.value == a.value; }
    if b.Some? { assert b.value * b.value == b.value; }
  }

  lemma SetLaws(a: set<string>, b: set<string>, c: set<string>)
    ensures a + b == b + a && a + b + c == a + (b + c) && a + a == a && a + {} == a
    ensures a + b + a == a + b && a + b + b == a + b
    ensures c + a == c && c + b == c ==> c + (a + b) == c
    ensures a + b == a && b + c == b ==> a + c == a
  {
    if a + b == a && b + c == b { assert forall x | x in c :: x in b + c && x in a + b; }
    if c + a == c && c + b == c { assert forall x | x in a + b :: x in c + a || x in c + b; }
  }

  /** What a restricted scope permits: what both sides permit, except that two whitelists only share a tool that
      matches one and the same pattern on both. */
  lemma RestrictPermits(glob: Glob, a: Scope, b: Scope, tool: string)
    ensures ToolAllowed(glob, Restrict(a, b), tool) <==>
      && ToolAllowed(glob, a, tool) && ToolAllowed(glob, b, tool)
      && (a.allowed.Some? && b.allowed.Some? ==> exists p | p in a.allowed.value && p in b.allowed.value :: glob(tool, p))
  {
    var r := Restrict(a, b);
    forall p ensures p in r.denied <==> p in a.denied || p in b.denied { }
    if a.allowed.Some? && b.allowed.Some? {
      forall p ensures p in r.allowed.value <==> p in a.allowed.value && p in b.allowed.value { }
    }
  }

  /** Whatever is denied above is denied below. */
  lemma BelowPermitsLess(glob: Glob, a: Scope, b: Scope, tool: string)
    requires Below(a, b) && ToolAllowed(glob, a, tool)
    ensures ToolAllowed(glob, b, tool) && a.budget <= b.budget && a.spawnDepth <= b.spawnDepth
  {
    RestrictPermits(glob, a, b, tool);
  }

  /** Restriction is not the largest common part: two whitelists that both permit a tool can leave none. */
  lemma RestrictCanLoseCommonTools()
    ensures exists glob: Glob, a, b, tool ::
      ToolAllowed(glob, a, tool) && ToolAllowed(glob, b, tool) && !ToolAllowed(glob, Restrict(a, b), tool)
  {
    var glob: Glob := (name, pattern) => name == "git_log" && (pattern == "git_*" || pattern == "*_log");
    var a, b := DEFAULT.(allowed := Some({"git_*"})), DEFAULT.(allowed := Some({"*_log"}));
    assert "git_*" in a.allowed.value && "*_log" in b.allowed.value;
    assert "git_*" != "*_log" by { assert "git_*"[0] == 'g' && "*_log"[0] == '*'; }
    assert ToolAllowed(glob, a, "git_log") && ToolAllowed(glob, b, "git_log");
    assert !ToolAllowed(glob, Restrict(a, b), "git_log");
  }

  // ---------- the manager ----------

  datatype Registry = Registry(scopes: map<string, Scope>, depths: map<string, int>)

  /** The parent that counts: an empty name is no parent. */
  predicate KnownParent(r: Registry, parent: Option<string>) {
    parent.Some? && parent.value != "" && parent.value in r.scopes
  }

  function DepthOf(r: Registry, parent: Option<string>): int {
    if parent.Some? && parent.value != "" && parent.value in r.depths then r.depths[parent.value] else 0
  }

  datatype Op =
    | Register(agent: string, scope: Option<Scope>, parent: Option<string>)
    | Update(agent: string, newScope: Scope)

  /** The scope that an operation gives to its agent. */
  function Given(r: Registry, op: Op): Scope {
    match op
    case Register(_, None, parent) => if KnownParent(r, parent) then r.scopes[parent.value] else DEFAULT
    case Register(_, Some(scope), parent) =>
      if KnownParent(r, parent) then Restrict(r.scopes[parent.value], scope) else scope
    case Update(agent, scope) => if agent in r.scopes then Restrict(r.scopes[agent], scope) else scope
  }

  function Step(r: Registry, op: Op): Registry {
    Registry(r.scopes[op.agent := Given(r, op)],
      if op.Register? then r.depths[op.agent := DepthOf(r, op.parent) + 1] else r.depths)
  }

  function Run(r: Registry, ops: seq<Op>): Registry {
    if ops == [] then r else Step(Run(r, ops[..|ops| - 1]), ops[|ops| - 1])
  }

  /** How deep the scope of `parent` lets its children be. */
  function DepthLimit(r: Registry, parent: string): int {
    if parent in r.scopes then r.scopes[parent].spawnDepth else 3
  }

  /** `can_spawn` */
  predicate MaySpawn(r: Registry, parent: string) {
    (if parent in r.depths then r.depths[parent] else 0) < DepthLimit(r, parent)
  }

  /** Whatever child, with whatever scope, were registered under `parent` now: it would be within the parent's limit. */
  ghost predicate SpawnFits(r: Registry, parent: string) {
    forall child, scope :: FitsUnder(r, child, scope, parent)
  }

  ghost predicate FitsUnder(r: Registry, child: string, scope: Option<Scope>, parent: string) {
    Step(r, Op.Register(child, scope, Some(parent))).depths[child] <= if parent in r.scopes then r.scopes[parent].spawnDepth else 3
  }

  /** `can_spawn` tells, before it happens, whether a registration keeps within the parent's limit. */
  lemma SpawnMeaning(r: Registry, parent: string)
    requires parent != ""
    ensures MaySpawn(r, parent) <==> SpawnFits(r, parent)
  {
    forall child, scope ensures FitsUnder(r, child, scope, parent) <==> MaySpawn(r, parent) {
      hide Restrict;
      assert Step(r, Op.Register(child, scope, Some(parent))).depths[child] == DepthOf(r, Some(parent)) + 1;
    }
    assert FitsUnder(r, parent, None, parent) <==> MaySpawn(r, parent);
  }

  class ScopeManager {
    var scopes: map<string, Scope>
    var depths: map<string, int>

    ghost function Now(): Registry reads this { Registry(scopes, depths) }

    constructor ()
      ensures Now() == Registry(map[], map[])
    {
      scopes, depths := map[], map[];
    }

    method Register(agent: string, scope: Option<Scope>, parent: Option<string>)
      modifies this
      ensures Now() == Step(old(Now()), Op.Register(agent, scope, parent))
    {
      var named := parent.Some? && parent.value != "";
      var parentDepth := if named && parent.value in depths then depths[parent.value] else 0;
      depths := depths[agent := parentDepth + 1];
      if scope.None? {
        var inherited := if named && parent.value in scopes then scopes[parent.value] else DEFAULT;
        scopes := scopes[agent := inherited];
      } else if named && parent.value in scopes {
        scopes := scopes[agent := Restrict(scopes[parent.value], scope.value)];
      } else {
        scopes := scopes[agent := scope.value];
      }
    }

    method UpdateScope(agent: string, newScope: Scope)
      modifies this`scopes
      ensures Now() == Step(old(Now()), Update(agent, newScope))
    {
      if agent in scopes {
        scopes := scopes[agent := Restrict(scopes[agent], newScope)];
      } else {
        scopes := scopes[agent := newScope];
      }
    }

    /** Says yes exactly when a child registered under `parent` at this moment stays within its parent's limit. The empty
        name is looked up like any other here, but is no parent to `register`. */
    method CanSpawn(parent: string) returns (ok: bool)
      ensures parent != "" ==> (ok <==> SpawnFits(Now(), parent))
      ensures ok == MaySpawn(Now(), parent)
    {
      if parent != "" { SpawnMeaning(Now(), parent); }
      var depth := if parent in depths then depths[parent] else 0;
      var maxDepth := if parent in scopes then scopes[parent].spawnDepth else 3;
      ok := depth < maxDepth;
    }
  }

  // ---------- runs ----------

  /** Registers an agent that already has a scope. */
  predicate Reregisters(r: Registry, op: Op) {
    op.Register? && op.agent in r.scopes
  }

  /** An operation other than a second registration of `agent` leaves it below what it was. */
  lemma StepShrinks(r: Registry, op: Op, agent: string)
    requires agent in r.scopes && !(op.Register? && op.agent == agent)
    ensures agent in Step(r, op).scopes && Below(Step(r, op).scopes[agent], r.scopes[agent])
  {
    RestrictIsMeet(r.scopes[agent], if op.Update? then op.newScope else DEFAULT, DEFAULT);
    hide Restrict;
  }

  /** Over any run that does not register `agent` again, its scope only shrinks. */
  lemma {:induction false} RunShrinks(r: Registry, ops: seq<Op>, agent: string)
    requires agent in r.scopes
    requires forall op | op in ops :: !(op.Register? && op.agent == agent)
    ensures agent in Run(r, ops).scopes && Below(Run(r, ops).scopes[agent], r.scopes[agent])
  {
    hide Restrict;
    if ops == [] {
      RestrictIsMeet(r.scopes[agent], r.scopes[agent], r.scopes[agent]);
    } else {
      var before := Run(r, ops[..|ops| - 1]);
      RunShrinks(r, ops[..|ops| - 1], agent);
      StepShrinks(before, ops[|ops| - 1], agent);
      RestrictIsMeet(Run(r, ops).scopes[agent], before.scopes[agent], r.scopes[agent]);
    }
  }

  /** A child never exceeds what its parent was permitted when the child was registered, whatever happens later,
      unless the child is registered again. */
  lemma ChildStaysWithin(r: Registry, child: Op, later: seq<Op>)
    requires child.Register? && KnownParent(r, child.parent)
    requires forall op | op in later :: !(op.Register? && op.agent == child.agent)
    ensures var now := Run(Step(r, child), later).scopes;
      child.agent in now && Below(now[child.agent], r.scopes[child.parent.value])
  {
    hide Restrict, Run;
    var parent := r.scopes[child.parent.value];
    var start := Step(r, child).scopes[child.agent];
    RestrictIsMeet(parent, if child.scope.Some? then child.scope.value else parent, parent);
    assert Below(start, parent);
    RunShrinks(Step(r, child), later, child.agent);
    RestrictIsMeet(Run(Step(r, child), later).scopes[child.agent], start, parent);
  }

  // ---------- when a scope does stay inside another ----------

  lemma BelowMeet(x: Scope, a: Scope, b: Scope)
    ensures Below(x, Restrict(a, b)) <==> Below(x, a) && Below(x, b)
  {
    RestrictIsMeet(a, b, x);
    RestrictIsMeet(x, Restrict(a, b), a);
    RestrictIsMeet(x, Restrict(a, b), b);
    hide Restrict;
  }

  /** One update of a parent keeps a child inside it exactly when the child is inside the scope the parent is given,
      which the caller can see before the update. */
  lemma UpdateKeepsChildInside(r: Registry, parent: string, newScope: Scope, child: string)
    requires parent in r.scopes && child in r.scopes && child != parent && Below(r.scopes[child], r.scopes[parent])
    ensures var now := Step(r, Update(parent, newScope)).scopes;
      Below(now[child], now[parent]) <==> Below(r.scopes[child], newScope)
  {
    BelowMeet(r.scopes[child], r.scopes[parent], newScope);
  }

  /** Every scope that the operations gave to `agent` by an update. */
  ghost predicate BelowUpdates(x: Scope, ops: seq<Op>, agent: string) {
    forall op | op in ops && op.Update? && op.agent == agent :: Below(x, op.newScope)
  }

  /** After any run without a new registration of `agent`, what lies below its scope is exactly what lies below the scope
      it had and below every scope it was updated with. */
  lemma {:induction false} BelowRun(r: Registry, ops: seq<Op>, agent: string, x: Scope)
    requires agent in r.scopes
    requires forall op | op in ops :: !(op.Register? && op.agent == agent)
    ensures agent in Run(r, ops).scopes
    ensures Below(x, Run(r, ops).scopes[agent]) <==> Below(x, r.scopes[agent]) && BelowUpdates(x, ops, agent)
  {
    if ops != [] {
      var init, last := ops[..|ops| - 1], ops[|ops| - 1];
      hide Below, Restrict, Run, BelowUpdates;
      BelowRun(r, init, agent, x);
      RunStep(r, ops);
      UpdatesSplit(x, ops, agent);
      var before := Run(r, init);
      if last.agent == agent {
        BelowMeet(x, before.scopes[agent], last.newScope);
      }
    }
  }

  lemma UpdatesSplit(x: Scope, ops: seq<Op>, agent: string)
    requires ops != []
    ensures var last := ops[|ops| - 1];
      BelowUpdates(x, ops, agent) <==>
        BelowUpdates(x, ops[..|ops| - 1], agent) && (last.Update? && last.agent == agent ==> Below(x, last.newScope))
  {
    hide Below;
    var init := ops[..|ops| - 1];
    assert ops == init + [ops[|ops| - 1]];
    assert forall op :: op in ops <==> op in init || op == ops[|ops| - 1];
  }

  /** A child is inside its parent's present scope exactly when it is inside every scope the parent was updated with since
      the child was registered, whatever else happened, as long as neither was registered again. */
  lemma ChildInsideParentNow(r: Registry, child: Op, later: seq<Op>)
    requires child.Register? && KnownParent(r, child.parent)
    requires forall op | op in later && op.Register? :: op.agent != child.agent && op.agent != child.parent.value
    ensures var now := Run(Step(r, child), later).scopes;
      && child.agent in now && child.parent.value in now
      && (Below(now[child.agent], now[child.parent.value]) <==> BelowUpdates(now[child.agent], later, child.parent.value))
  {
    var parent := child.parent.value;
    var start := Step(r, child);
    ChildStaysWithin(r, child, later);
    RunShrinks(start, later, child.agent);
    hide Below, Restrict, Run, BelowUpdates;
    BelowRun(start, later, parent, Run(start, later).scopes[child.agent]);
  }

  /** A second registration can give an agent back what it had lost. */
  lemma ReregistrationCanExpand()
    ensures exists r, op :: Reregisters(r, op) && !Below(Step(r, op).scopes[op.agent], r.scopes[op.agent])
  {
    var r := Registry(map["a" := DEFAULT.(budget := 1)], map[]);
    var op := Op.Register("a", None, None);
    assert Reregisters(r, op) && Step(r, op).scopes["a"] == DEFAULT;
    assert Restrict(DEFAULT, r.scopes["a"]).budget == 1;
  }

  /** The scopes a registration puts together: the parent's and the given one, or the default one. */
  function Sources(r: Registry, op: Op): seq<Scope>
    requires op.Register?
  {
    var inherited := if KnownParent(r, op.parent) then [r.scopes[op.parent.value]] else [];
    var given := if op.scope.Some? then [op.scope.value] else [];
    if inherited + given == [] then [DEFAULT] else inherited + given
  }

  predicate Listed(lists: seq<Option<set<string>>>, x: string) {
    forall l | l in lists :: l.Some? ==> x in l.value
  }

  /** What all the lists name together is on the old list; no list at all lets everything through. */
  ghost predicate ListsWithin(lists: seq<Option<set<string>>>, was: Option<set<string>>) {
    was.Some? ==>
      && (exists l | l in lists :: l.Some?)
      && forall x | Listed(lists, x) :: x in was.value
  }

  /** Nothing the old scope withheld is handed out by the sources together. */
  ghost predicate SourcesWithin(sources: seq<Scope>, was: Scope) {
    && ListsWithin(seq(|sources|, i requires 0 <= i < |sources| => sources[i].allowed), was.allowed)
    && ListsWithin(seq(|sources|, i requires 0 <= i < |sources| => sources[i].comm), was.comm)
    && (forall x | x in was.denied :: exists s | s in sources :: x in s.denied)
    && (exists s | s in sources :: s.budget <= was.budget)
    && (exists s | s in sources :: s.spawnDepth <= was.spawnDepth)
  }

  /** A registration of a known agent leaves it inside what it was exactly when the given scope and the parent's scope
      together withhold everything the old scope withheld: both directions, for every registry. */
  lemma ReregistrationShrinksExactly(r: Registry, op: Op)
    requires Reregisters(r, op)
    ensures Below(Step(r, op).scopes[op.agent], r.scopes[op.agent]) <==> SourcesWithin(Sources(r, op), r.scopes[op.agent])
  {
    var was := r.scopes[op.agent];
    var sources := Sources(r, op);
    if |sources| == 1 {
      OneSource(sources[0], was);
      assert sources == [sources[0]];
    } else {
      TwoSources(sources[0], sources[1], was);
      assert sources == [sources[0], sources[1]];
    }
  }

  lemma OneSource(a: Scope, was: Scope)
    ensures Below(a, was) <==> SourcesWithin([a], was)
  {
    OneList(a.allowed, was.allowed);
    OneList(a.comm, was.comm);
    OneDenied(a.denied, was.denied);
    assert seq(1, i requires 0 <= i < 1 => [a][i].allowed) == [a.allowed];
    assert seq(1, i requires 0 <= i < 1 => [a][i].comm) == [a.comm];
    hide Meet, ListsWithin;
    assert forall s :: s in [a] <==> s == a;
  }

  lemma TwoSources(a: Scope, b: Scope, was: Scope)
    ensures Below(Restrict(a, b), was) <==> SourcesWithin([a, b], was)
  {
    TwoLists(a.allowed, b.allowed, was.allowed);
    TwoLists(a.comm, b.comm, was.comm);
    OneDenied(a.denied + b.denied, was.denied);
    assert seq(2, i requires 0 <= i < 2 => [a, b][i].allowed) == [a.allowed, b.allowed];
    assert seq(2, i requires 0 <= i < 2 => [a, b][i].comm) == [a.comm, b.comm];
    hide Meet, ListsWithin;
    assert forall s :: s in [a, b] <==> s == a || s == b;
  }

  lemma OneDenied(a: set<string>, was: set<string>)
    ensures a + was == a <==> forall x | x in was :: x in a
  {
    if a + was == a { assert forall x | x in was :: x in a + was; }
  }

  lemma OneList(a: Option<set<string>>, was: Option<set<string>>)
    ensures Meet(a, was) == a <==> ListsWithin([a], was)
  {
    if was.Some? && a.Some? {
      ListIn(a.value, was.value);
      assert forall x :: Listed([a], x) <==> x in a.value;
    }
  }

  lemma TwoLists(a: Option<set<string>>, b: Option<set<string>>, was: Option<set<string>>)
    ensures Meet(Meet(a, b), was) == Meet(a, b) <==> ListsWithin([a, b], was)
  {
    OneList(Meet(a, b), was);
    assert forall x :: Listed([a, b], x) <==> Listed([Meet(a, b)], x);
    assert a in [a, b] && b in [a, b];
  }

  lemma ListIn(a: set<string>, was: set<string>)
    ensures a * was == a <==> forall x | x in a :: x in was
  {
    if a * was == a { assert forall x | x in a :: x in a * was; }
  }

  /** Narrowing a parent leaves its children as they were, so a child can exceed what the parent is permitted now. */
  lemma ChildCanOutliveParentScope()
    ensures exists r, child: Op, narrow: Op ::
      && child.Register? && KnownParent(r, child.parent) && narrow.Update? && narrow.agent == child.parent.value
      && child.agent != narrow.agent
      && var now := Run(r, [child, narrow]).scopes;
        child.agent in now && narrow.agent in now && !Below(now[child.agent], now[narrow.agent])
  {
    var r := Registry(map["p" := DEFAULT], map[]);
    var child, narrow := Op.Register("c", None, Some("p")), Op.Update("p", DEFAULT.(budget := 1));
    var ops := [child, narrow];
    assert ops[..1] == [child] && [child][..0] == [];
    RunStep(r, [child]);
    RunStep(r, ops);
    var now := Run(r, ops).scopes;
    assert Run(r, [child]) == Step(r, child);
    assert now["c"] == DEFAULT && now["p"].budget == 1;
    assert Restrict(now["c"], now["p"]).budget == 1;
  }

  /** Depth limits: when children are only registered after `can_spawn` said yes, no agent is deeper than the largest
      limit that was ever handed out. */
  ghost predicate DepthsWithin(r: Registry, limit: int) {
    && (forall a | a in r.depths :: 1 <= r.depths[a] <= limit)
    && (forall a | a in r.scopes :: r.scopes[a].spawnDepth <= limit)
  }

  /** Asked `can_spawn` for every named parent, and handed out no limit above `limit`. */
  predicate Guarded(r: Registry, op: Op, limit: int) {
    match op
    case Register(_, scope, parent) =>
      && (parent.Some? && parent.value != "" ==> MaySpawn(r, parent.value))
      && (scope.Some? && !KnownParent(r, parent) ==> scope.value.spawnDepth <= limit)
    case Update(agent, scope) => agent !in r.scopes ==> scope.spawnDepth <= limit
  }

  predicate GuardedRun(r: Registry, ops: seq<Op>, limit: int) {
    ops == [] || (GuardedRun(r, ops[..|ops| - 1], limit) && Guarded(Run(r, ops[..|ops| - 1]), ops[|ops| - 1], limit))
  }

  lemma {:induction false} DepthsStayWithin(ops: seq<Op>, limit: int)
    requires 3 <= limit && GuardedRun(Registry(map[], map[]), ops, limit)
    ensures DepthsWithin(Run(Registry(map[], map[]), ops), limit)
  {
    if ops != [] {
      var before := Run(Registry(map[], map[]), ops[..|ops| - 1]);
      DepthsStayWithin(ops[..|ops| - 1], limit);
      hide Run, GuardedRun;
      StepWithin(before, ops[|ops| - 1], limit);
      assert Run(Registry(map[], map[]), ops) == Step(before, ops[|ops| - 1]) by { RunStep(Registry(map[], map[]), ops); }
    }
  }

  lemma RunStep(r: Registry, ops: seq<Op>)
    requires ops != []
    ensures Run(r, ops) == Step(Run(r, ops[..|ops| - 1]), ops[|ops| - 1])
  {
  }

  lemma StepWithin(r: Registry, op: Op, limit: int)
    requires 3 <= limit && DepthsWithin(r, limit) && Guarded(r, op, limit)
    ensures DepthsWithin(Step(r, op), limit)
  {
    assert Given(r, op).spawnDepth <= limit;
    if op.Register? {
      assert DepthOf(r, op.parent) < limit;
    }
  }

  // ---------- the permission checker ----------

  datatype Action = Allow | Deny | RequireConfirmation

  /** A policy rule; `applies` is the outcome of its conditions for the call at hand. */
  datatype Rule = Rule(pattern: string, applies: bool, action: Action)

  /** `_check_global` */
  function GlobalAction(glob: Glob, rules: seq<Rule>, fallback: Action, tool: string): Action {
    if rules == [] then fallback
    else if glob(tool, rules[0].pattern) && rules[0].applies then rules[0].action
    else GlobalAction(glob, rules[1..], fallback, tool)
  }

  /** `check`; an agent without a scope, or no agent, falls through to the policy. */
  function Check(glob: Glob, r: Registry, rules: seq<Rule>, fallback: Action, tool: string, agent: Option<string>): Action {
    if agent.Some? && agent.value in r.scopes && !ToolAllowed(glob, r.scopes[agent.value], tool) then Deny
    else GlobalAction(glob, rules, fallback, tool)
  }

  predicate RuleMatches(glob: Glob, rules: seq<Rule>, tool: string, i: nat)
    requires i < |rules|
  {
    glob(tool, rules[i].pattern) && rules[i].applies
  }

  /** The first matching rule decides, and the default action only when none matches. */
  lemma {:induction false} FirstMatchDecides(glob: Glob, rules: seq<Rule>, fallback: Action, tool: string, n: nat)
    requires n <= |rules| && forall i | 0 <= i < n :: !RuleMatches(glob, rules, tool, i)
    requires n < |rules| ==> RuleMatches(glob, rules, tool, n)
    ensures GlobalAction(glob, rules, fallback, tool) == if n < |rules| then rules[n].action else fallback
  {
    if n > 0 {
      assert !RuleMatches(glob, rules, tool, 0);
      forall i | 0 <= i < n - 1 ensures !RuleMatches(glob, rules[1..], tool, i) {
        assert !RuleMatches(glob, rules, tool, i + 1);
      }
      FirstMatchDecides(glob, rules[1..], fallback, tool, n - 1);
    }
  }

  /** Fail-closed over runs: whatever a parent's scope denied when its child was registered is denied to the child
      ever after, whatever the policy says. */
  lemma DeniedToParentDeniedToChild(glob: Glob, r: Registry, child: Op, later: seq<Op>, rules: seq<Rule>,
    fallback: Action, tool: string)
    requires child.Register? && KnownParent(r, child.parent)
    requires forall op | op in later :: !(op.Register? && op.agent == child.agent)
    requires !ToolAllowed(glob, r.scopes[child.parent.value], tool)
    ensures Check(glob, Run(Step(r, child), later), rules, fallback, tool, Some(child.agent)) == Deny
  {
    hide Run, Step, ToolAllowed, GlobalAction, Below;
    var now := Run(Step(r, child), later).scopes;
    ChildStaysWithin(r, child, later);
    if ToolAllowed(glob, now[child.agent], tool) {
      BelowPermitsLess(glob, now[child.agent], r.scopes[child.parent.value], tool);
    }
  }

  // ---------- in the fields of the scopes ----------

  predicate OnList(list: Option<set<string>>, x: string) {
    list.None? || x in list.value
  }

  /** `both` withholds what either side withholds, and nothing else. */
  ghost predicate Combines(both: Scope, a: Scope, b: Scope) {
    && (both.allowed.None? <==> a.allowed.None? && b.allowed.None?)
    && (both.comm.None? <==> a.comm.None? && b.comm.None?)
    && (forall x :: OnList(both.allowed, x) <==> OnList(a.allowed, x) && OnList(b.allowed, x))
    && (forall x :: OnList(both.comm, x) <==> OnList(a.comm, x) && OnList(b.comm, x))
    && (forall x :: x in both.denied <==> x in a.denied || x in b.denied)
    && both.budget <= a.budget && both.budget <= b.budget && both.budget in {a.budget, b.budget}
    && both.spawnDepth <= a.spawnDepth && both.spawnDepth <= b.spawnDepth && both.spawnDepth in {a.spawnDepth, b.spawnDepth}
  }

  lemma RestrictCombines(a: Scope, b: Scope)
    ensures Combines(Restrict(a, b), a, b)
  {
  }

  /** What a registration gives an agent: with a parent that has a scope, the parent's scope combined with the given one, or
      the parent's as it is; without, the given one or the default; and a depth one below the parent's. No other agent is
      touched. */
  lemma RegisterGives(r: Registry, agent: string, scope: Option<Scope>, parent: Option<string>, other: string)
    requires other != agent
    ensures var now := Step(r, Op.Register(agent, scope, parent));
      var named := parent.Some? && parent.value != "";
      && agent in now.scopes && agent in now.depths
      && (named && parent.value in r.scopes ==>
            if scope.Some? then Combines(now.scopes[agent], r.scopes[parent.value], scope.value)
            else now.scopes[agent] == r.scopes[parent.value])
      && (!(named && parent.value in r.scopes) ==>
            now.scopes[agent] == if scope.Some? then scope.value else Scope(None, {}, None, 100, 3))
      && now.depths[agent] == (if named && parent.value in r.depths then r.depths[parent.value] else 0) + 1
    ensures SameAgent(r, Step(r, Op.Register(agent, scope, parent)), other)
  {
    if KnownParent(r, parent) && scope.Some? { RestrictCombines(r.scopes[parent.value], scope.value); }
    hide Restrict;
  }

  /** An update combines the scope with the one the agent has, or stores it for an unknown agent; depths stay. */
  lemma UpdateGives(r: Registry, agent: string, scope: Scope, other: string)
    requires other != agent
    ensures var now := Step(r, Update(agent, scope));
      && agent in now.scopes && now.depths == r.depths
      && (agent in r.scopes ==> Combines(now.scopes[agent], r.scopes[agent], scope))
      && (agent !in r.scopes ==> now.scopes[agent] == scope)
    ensures SameAgent(r, Step(r, Update(agent, scope)), other)
  {
    if agent in r.scopes { RestrictCombines(r.scopes[agent], scope); }
    hide Restrict;
  }

  predicate SameAgent(r: Registry, now: Registry, agent: string) {
    && (agent in now.scopes <==> agent in r.scopes) && (agent in r.scopes ==> now.scopes[agent] == r.scopes[agent])
    && (agent in now.depths <==> agent in r.depths) && (agent in r.depths ==> now.depths[agent] == r.depths[agent])
  }

  /** The scope withholds the tool: it matches a denied pattern, or there is a whitelist and it matches none of it. */
  predicate Withholds(glob: Glob, s: Scope, tool: string) {
    || (exists p | p in s.denied :: glob(tool, p))
    || (s.allowed.Some? && forall p | p in s.allowed.value :: !glob(tool, p))
  }

  /** The answer of `check`: a tool that the agent's own scope withholds is denied; otherwise the first rule that applies
      decides, and the default without one. */
  lemma CheckDecides(glob: Glob, r: Registry, rules: seq<Rule>, fallback: Action, tool: string, agent: Option<string>, n: nat)
    requires n <= |rules| && forall i | 0 <= i < n :: !(glob(tool, rules[i].pattern) && rules[i].applies)
    requires n < |rules| ==> glob(tool, rules[n].pattern) && rules[n].applies
    ensures Check(glob, r, rules, fallback, tool, agent) ==
      if agent.Some? && agent.value in r.scopes && Withholds(glob, r.scopes[agent.value], tool) then Deny
      else if n < |rules| then rules[n].action else fallback
  {
    FirstMatchDecides(glob, rules, fallback, tool, n);
    forall s ensures Withholds(glob, s, tool) <==> !ToolAllowed(glob, s, tool) { }
    hide GlobalAction, ToolAllowed, Withholds;
  }
}
