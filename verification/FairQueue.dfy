/** Fair ordering of pending sessions (src/agenthicc/background/queue.py): round-robin over projects,
    aged priority inside a project. Times are reals. */
module FairQueue {
  import Sessions
  import Text

  datatype Priority = Low | Normal | Urgent

  datatype Dispatch = Legacy | PendingDispatch | Claimed | Launched | Started | CancelledDispatch | FailedDispatch

  datatype Record = Record(
    id: string,
    project: string,
    status: Sessions.Status,
    dispatch: Dispatch,
    priority: Priority,
    createdAt: real)

  /** `is_pending_queue_record` */
  predicate IsPending(r: Record) {
    r.status == Sessions.Queued && r.dispatch == PendingDispatch
  }

  function Base(p: Priority): int {
    match p
    case Low => 0
    case Normal => 1
    case Urgent => 2
  }

  function Age(r: Record, now: real): real {
    if now - r.createdAt < 0.0 then 0.0 else now - r.createdAt
  }

  /** `effective_priority_rank` */
  function Rank(r: Record, now: real, interval: real): int
    requires interval > 0.0
  {
    Base(r.priority) + (Age(r, now) / interval).Floor
  }

  /** The sort key `(-rank, created_at, session_id)`. */
  predicate KeyLess(a: Record, b: Record, now: real, interval: real)
    requires interval > 0.0
  {
    var x, y := Rank(a, now, interval), Rank(b, now, interval);
    || x > y
    || (x == y && (a.createdAt < b.createdAt || (a.createdAt == b.createdAt && Text.Less(a.id, b.id))))
  }

  function Insert(sorted: seq<Record>, r: Record, now: real, interval: real): seq<Record>
    requires interval > 0.0
  {
    if sorted == [] || !KeyLess(r, sorted[|sorted| - 1], now, interval) then sorted + [r]
    else Insert(sorted[..|sorted| - 1], r, now, interval) + [sorted[|sorted| - 1]]
  }

  /** `records.sort(key=...)`, which is stable. */
  function Sort(records: seq<Record>, now: real, interval: real): seq<Record>
    requires interval > 0.0
  {
    if records == [] then []
    else Insert(Sort(records[..|records| - 1], now, interval), records[|records| - 1], now, interval)
  }

  function InsertName(sorted: seq<string>, name: string): seq<string> {
    if sorted == [] || !Text.Less(name, sorted[|sorted| - 1]) then sorted + [name]
    else InsertName(sorted[..|sorted| - 1], name) + [sorted[|sorted| - 1]]
  }

  function SortNames(names: seq<string>): seq<string> {
    if names == [] then [] else InsertName(SortNames(names[..|names| - 1]), names[|names| - 1])
  }

  // ---------- specification ----------

  /** The pending records of one project in arrival order. */
  function Of(sessions: seq<Record>, project: string): seq<Record> {
    if sessions == [] then []
    else
      var r := sessions[|sessions| - 1];
      Of(sessions[..|sessions| - 1], project) + if IsPending(r) && r.project == project then [r] else []
  }

  /** The projects with a pending record, in first-seen order. */
  function Projects(sessions: seq<Record>): seq<string> {
    if sessions == [] then []
    else
      var r, rest := sessions[|sessions| - 1], Projects(sessions[..|sessions| - 1]);
      if IsPending(r) && r.project !in rest then rest + [r.project] else rest
  }

  function IndexOf(names: seq<string>, name: string): nat
    requires name in names
    ensures IndexOf(names, name) < |names| && names[IndexOf(names, name)] == name
  {
    if names[0] == name then 0 else 1 + IndexOf(names[1..], name)
  }

  /** Start the round after the project served last. */
  function Rotate(names: seq<string>, last: string): seq<string> {
    if last in names then names[IndexOf(names, last) + 1..] + names[..IndexOf(names, last) + 1] else names
  }

  function Rounds(sessions: seq<Record>, last: string): seq<string> {
    Rotate(SortNames(Projects(sessions)), last)
  }

  function Queues(sessions: seq<Record>, names: seq<string>, now: real, interval: real): seq<seq<Record>>
    requires interval > 0.0
  {
    seq(|names|, i requires 0 <= i < |names| => Sort(Of(sessions, names[i]), now, interval))
  }

  /** Round `r` restricted to the first `i` queues. */
  function PartialRound(queues: seq<seq<Record>>, r: nat, i: nat): seq<Record>
    requires i <= |queues|
  {
    if i == 0 then []
    else PartialRound(queues, r, i - 1) + if r < |queues[i - 1]| then [queues[i - 1][r]] else []
  }

  /** The first `r` rounds. */
  function FullRounds(queues: seq<seq<Record>>, r: nat): seq<Record> {
    if r == 0 then [] else FullRounds(queues, r - 1) + PartialRound(queues, r - 1, |queues|)
  }

  function Longest(queues: seq<seq<Record>>): nat {
    if queues == [] then 0
    else
      var rest := Longest(queues[..|queues| - 1]);
      if |queues[|queues| - 1]| > rest then |queues[|queues| - 1]| else rest
  }

  function FairOrder(sessions: seq<Record>, now: real, interval: real, last: string): seq<Record>
    requires interval > 0.0
  {
    var queues := Queues(sessions, Rounds(sessions, last), now, interval);
    FullRounds(queues, Longest(queues))
  }

  // ---------- the algorithm ----------

  lemma {:induction false} LongestBounds(queues: seq<seq<Record>>)
    ensures forall i | 0 <= i < |queues| :: |queues[i]| <= Longest(queues)
  {
    if queues != [] { LongestBounds(queues[..|queues| - 1]); }
  }

  lemma {:induction false} EmptyRound(queues: seq<seq<Record>>, r: nat, i: nat)
    requires i <= |queues|
    ensures PartialRound(queues, r, i) == [] <==> forall j | 0 <= j < i :: |queues[j]| <= r
  {
    if i > 0 { EmptyRound(queues, r, i - 1); }
  }

  lemma {:induction false} SomeRound(queues: seq<seq<Record>>, r: nat)
    requires PartialRound(queues, r, |queues|) != []
    ensures r < Longest(queues)
  {
    LongestBounds(queues);
    EmptyRound(queues, r, |queues|);
  }

  lemma {:induction false} LongestReached(queues: seq<seq<Record>>)
    requires Longest(queues) > 0
    ensures exists i | 0 <= i < |queues| :: |queues[i]| == Longest(queues)
  {
    var last := |queues| - 1;
    if |queues[last]| <= Longest(queues[..last]) { LongestReached(queues[..last]); }
  }

  lemma {:induction false} ProjectsAre(sessions: seq<Record>)
    ensures forall name :: name in Projects(sessions) <==> Of(sessions, name) != []
    ensures forall i, j | 0 <= i < j < |Projects(sessions)| :: Projects(sessions)[i] != Projects(sessions)[j]
  {
    if sessions != [] { ProjectsAre(sessions[..|sessions| - 1]); }
  }

  lemma {:induction false} InsertNameMembers(sorted: seq<string>, name: string)
    ensures multiset(InsertName(sorted, name)) == multiset(sorted) + multiset{name}
  {
    if sorted == [] || !Text.Less(name, sorted[|sorted| - 1]) {
    } else {
      InsertNameMembers(sorted[..|sorted| - 1], name);
      assert sorted == sorted[..|sorted| - 1] + [sorted[|sorted| - 1]];
    }
  }

  lemma {:induction false} SortNamesMembers(names: seq<string>)
    ensures multiset(SortNames(names)) == multiset(names)
  {
    if names != [] {
      var init := names[..|names| - 1];
      SortNamesMembers(init);
      InsertNameMembers(SortNames(init), names[|names| - 1]);
      assert names == init + [names[|names| - 1]];
    }
  }

  lemma RotateMembers(names: seq<string>, last: string)
    ensures multiset(Rotate(names, last)) == multiset(names)
  {
    if last in names {
      var k := IndexOf(names, last) + 1;
      assert names == names[..k] + names[k..];
    }
  }

  lemma SameMembers(a: seq<string>, b: seq<string>)
    requires multiset(a) == multiset(b)
    ensures forall x :: x in a <==> x in b
  {
    forall x ensures x in a <==> x in b {
      assert x in a <==> x in multiset(a);
      assert x in b <==> x in multiset(b);
    }
  }

  /** Every pending project has its queue. */
  lemma RoundsAre(sessions: seq<Record>, last: string)
    ensures multiset(Rounds(sessions, last)) == multiset(Projects(sessions))
    ensures forall name :: name in Rounds(sessions, last) <==> name in Projects(sessions)
  {
    SortNamesMembers(Projects(sessions));
    RotateMembers(SortNames(Projects(sessions)), last);
    SameMembers(Rounds(sessions, last), Projects(sessions));
  }

  /** Collect the pending records of each project in arrival order, and the projects as they appear. */
  method GroupPending(sessions: seq<Record>) returns (groups: map<string, seq<Record>>, seen: seq<string>)
    ensures seen == Projects(sessions)
    ensures forall name :: name in groups <==> name in seen
    ensures forall name | name in groups :: groups[name] == Of(sessions, name)
  {
    groups, seen := map[], [];
    for k := 0 to |sessions|
      invariant seen == Projects(sessions[..k])
      invariant forall name :: name in groups <==> name in seen
      invariant forall name :: (if name in groups then groups[name] else []) == Of(sessions[..k], name)
    {
      var r := sessions[k];
      assert sessions[..k + 1][..k] == sessions[..k];
      if IsPending(r) {
        if r.project !in groups {
          seen := seen + [r.project];
          groups := groups[r.project := []];
        }
        groups := groups[r.project := groups[r.project] + [r]];
      }
    }
    assert sessions[..|sessions|] == sessions;
  }

  /** Serve one item of each queue a round until a round serves none. */
  method ServeRounds(groups: map<string, seq<Record>>, projects: seq<string>, ghost queues: seq<seq<Record>>)
    returns (ordered: seq<Record>)
    requires |queues| == |projects|
    requires forall i | 0 <= i < |projects| :: projects[i] in groups && groups[projects[i]] == queues[i]
    ensures ordered == FullRounds(queues, Longest(queues))
  {
    hide Longest;
    ordered := [];
    var round := 0;
    while true
      invariant ordered == FullRounds(queues, round) && round <= Longest(queues)
      decreases Longest(queues) - round
    {
      var added := false;
      for i := 0 to |projects|
        invariant ordered == FullRounds(queues, round) + PartialRound(queues, round, i)
        invariant added <==> PartialRound(queues, round, i) != []
      {
        var records := groups[projects[i]];
        if round < |records| {
          ordered := ordered + [records[round]];
          added := true;
        }
      }
      if !added {
        EmptyRound(queues, round, |queues|);
        if round < Longest(queues) { LongestReached(queues); }
        return;
      }
      SomeRound(queues, round);
      round := round + 1;
    }
  }

  /** `fair_queue_order` */
  method FairQueueOrder(sessions: seq<Record>, now: real, interval: real, last: string) returns (ordered: seq<Record>)
    requires interval > 0.0
    ensures ordered == FairOrder(sessions, now, interval, last)
  {
    var arrived, seen := GroupPending(sessions);
    var groups := map name | name in arrived :: Sort(arrived[name], now, interval);
    var projects := SortNames(seen);
    if last in projects {
      var pivot := IndexOf(projects, last) + 1;
      projects := projects[pivot..] + projects[..pivot];
    }
    RoundsAre(sessions, last);
    ordered := ServeRounds(groups, projects, Queues(sessions, projects, now, interval));
  }

  /** `queue_position_map` */
  method QueuePositionMap(sessions: seq<Record>, now: real, interval: real, last: string) returns (positions: map<string, nat>)
    requires interval > 0.0
    ensures positions == Positions(FairOrder(sessions, now, interval, last))
  {
    var ordered := FairQueueOrder(sessions, now, interval, last);
    positions := map[];
    for i := 0 to |ordered|
      invariant positions == Positions(ordered[..i])
    {
      assert ordered[..i + 1][..i] == ordered[..i];
      positions := positions[ordered[i].id := i + 1];
    }
    assert ordered[..|ordered|] == ordered;
  }

  function Positions(ordered: seq<Record>): map<string, nat> {
    if ordered == [] then map[] else Positions(ordered[..|ordered| - 1])[ordered[|ordered| - 1].id := |ordered|]
  }
}
