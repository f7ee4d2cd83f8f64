/** What the fair order promises: nothing lost, bounded waiting, fairness at every moment, aging. */
module FairQueueLaws {
  import opened FairQueue
  import Sessions
  import Text

  // ---------- sorting ----------

  lemma {:induction false} InsertMembers(sorted: seq<Record>, r: Record, now: real, interval: real)
    requires interval > 0.0
    ensures multiset(Insert(sorted, r, now, interval)) == multiset(sorted) + multiset{r}
    ensures |Insert(sorted, r, now, interval)| == |sorted| + 1
  {
    if sorted == [] || !KeyLess(r, sorted[|sorted| - 1], now, interval) {
    } else {
      InsertMembers(sorted[..|sorted| - 1], r, now, interval);
      assert sorted == sorted[..|sorted| - 1] + [sorted[|sorted| - 1]];
    }
  }

  lemma {:induction false} SortMembers(records: seq<Record>, now: real, interval: real)
    requires interval > 0.0
    ensures multiset(Sort(records, now, interval)) == multiset(records) && |Sort(records, now, interval)| == |records|
  {
    if records != [] {
      var init := records[..|records| - 1];
      SortMembers(init, now, interval);
      InsertMembers(Sort(init, now, interval), records[|records| - 1], now, interval);
      assert records == init + [records[|records| - 1]];
    }
  }

  ghost predicate Sorted(s: seq<Record>, now: real, interval: real)
    requires interval > 0.0
  {
    forall i, j | 0 <= i < j < |s| :: !KeyLess(s[j], s[i], now, interval)
  }

  /** `not (b < a)` is transitive: the key order is total. */
  lemma KeyOrder(a: Record, b: Record, c: Record, now: real, interval: real)
    requires interval > 0.0
    requires !KeyLess(b, a, now, interval) && !KeyLess(c, b, now, interval)
    ensures !KeyLess(c, a, now, interval)
  {
    hide Rank;
    Text.LessTotal(a.id, b.id);
    Text.LessTotal(b.id, c.id);
    Text.LessTotal(a.id, c.id);
    if Text.Less(a.id, b.id) && Text.Less(b.id, c.id) { Text.LessTrans(a.id, b.id, c.id); }
  }

  lemma KeyAsymmetric(a: Record, b: Record, now: real, interval: real)
    requires interval > 0.0 && KeyLess(a, b, now, interval)
    ensures !KeyLess(b, a, now, interval)
  {
    hide Rank;
    Text.LessTotal(a.id, b.id);
  }

  lemma {:induction false} InsertSorted(s: seq<Record>, r: Record, now: real, interval: real)
    requires interval > 0.0 && Sorted(s, now, interval)
    ensures Sorted(Insert(s, r, now, interval), now, interval)
  {
    hide KeyLess;
    if s == [] {
    } else {
      var last := s[|s| - 1];
      if !KeyLess(r, last, now, interval) {
        forall i | 0 <= i < |s| ensures !KeyLess(r, s[i], now, interval) {
          if i < |s| - 1 { KeyOrder(s[i], last, r, now, interval); }
        }
      } else {
        var init := s[..|s| - 1];
        InsertSorted(init, r, now, interval);
        InsertMembers(init, r, now, interval);
        KeyAsymmetric(r, last, now, interval);
        var t := Insert(init, r, now, interval);
        forall i | 0 <= i < |t| ensures !KeyLess(last, t[i], now, interval) {
          assert t[i] in multiset(t);
          if t[i] != r { assert t[i] in multiset(init); assert t[i] in init; }
        }
      }
    }
  }

  lemma {:induction false} SortSorts(records: seq<Record>, now: real, interval: real)
    requires interval > 0.0
    ensures Sorted(Sort(records, now, interval), now, interval)
  {
    if records != [] {
      SortSorts(records[..|records| - 1], now, interval);
      InsertSorted(Sort(records[..|records| - 1], now, interval), records[|records| - 1], now, interval);
    }
  }

  // ---------- aging ----------

  lemma PositiveProduct(a: real, b: real)
    requires a > 0.0 && b > 0.0
    ensures a * b > 0.0
  {
  }

  lemma TimesAtLeast(x: real, least: real, factor: real)
    requires factor > 0.0 && x >= least
    ensures x * factor >= least * factor
  {
    if x > least { PositiveProduct(x - least, factor); }
  }

  lemma Quotients(older: real, newer: real, interval: real)
    requires interval > 0.0 && older >= newer + 2.0 * interval
    ensures older / interval >= newer / interval + 2.0
  {
    var x, y := older / interval, newer / interval;
    assert x * interval == older && y * interval == newer;
    var gap := y + 2.0 - x;
    assert gap * interval == y * interval + 2.0 * interval - x * interval;
    if gap > 0.0 { PositiveProduct(gap, interval); }
  }

  /** Anti-starvation: inside a project, a record created at least two aging intervals before another that is
      not dated in the future always comes first, whatever the priorities, the time and the interval. */
  lemma OldWorkWins(records: seq<Record>, now: real, interval: real, i: nat, j: nat)
    requires interval > 0.0
    requires i < |Sort(records, now, interval)| && j < |Sort(records, now, interval)|
    requires var s := Sort(records, now, interval);
      s[i].createdAt + 2.0 * interval <= s[j].createdAt <= now
    ensures i < j
  {
    SortSorts(records, now, interval);
    var s := Sort(records, now, interval);
    var a, b := s[i], s[j];
    Quotients(now - a.createdAt, now - b.createdAt, interval);
    var x, y := (now - a.createdAt) / interval, (now - b.createdAt) / interval;
    assert x.Floor >= y.Floor + 2;
    assert KeyLess(a, b, now, interval);
    KeyAsymmetric(a, b, now, interval);
  }

  /** Two intervals are needed: for every interval, with any shorter lead an urgent record can still overtake a low
      one. */
  lemma ShorterLeadCanLose(lead: real, interval: real)
    requires interval > 0.0 && 0.0 <= lead < 2.0 * interval
    ensures exists a: Record, b: Record, now: real ::
      a.priority == Low && b.priority == Urgent && a.createdAt + lead == b.createdAt && b.createdAt <= now && KeyLess(b, a, now, interval)
  {
    var a := Record("a", "p", Sessions.Queued, PendingDispatch, Low, 0.0);
    var b := Record("b", "p", Sessions.Queued, PendingDispatch, Urgent, lead);
    var x := lead / interval;
    assert x * interval == lead;
    if x >= 2.0 {
      TimesAtLeast(x, 2.0, interval);
    }
    assert x < 2.0 && x.Floor <= 1;
    assert Age(a, lead) == lead && Age(b, lead) == 0.0 && 0.0 / interval == 0.0;
    assert KeyLess(b, a, lead, interval);
    assert a.createdAt + lead == b.createdAt && b.createdAt <= lead;
  }

  // ---------- round robin ----------

  /** Queue `j` holds records of project `names[j]` only, and the names are distinct. */
  ghost predicate Named(queues: seq<seq<Record>>, names: seq<string>) {
    && |queues| == |names|
    && (forall i, j | 0 <= i < j < |names| :: names[i] != names[j])
    && (forall j, k | 0 <= j < |queues| && 0 <= k < |queues[j]| :: queues[j][k].project == names[j])
  }

  function Served(served: seq<Record>, project: string): nat {
    if served == [] then 0
    else Served(served[..|served| - 1], project) + if served[|served| - 1].project == project then 1 else 0
  }

  lemma ServedNone(project: string)
    ensures Served([], project) == 0
  {
  }

  lemma {:induction false} ServedConcat(a: seq<Record>, b: seq<Record>, project: string)
    ensures Served(a + b, project) == Served(a, project) + Served(b, project)
  {
    if b == [] {
      assert a + b == a;
    } else {
      assert (a + b)[..|a + b| - 1] == a + b[..|b| - 1];
      ServedConcat(a, b[..|b| - 1], project);
    }
  }

  /** What queue `i` gives in round `r`. */
  function Turn(queues: seq<seq<Record>>, r: nat, i: nat): seq<Record>
    requires i < |queues|
  {
    if r < |queues[i]| then [queues[i][r]] else []
  }

  lemma RoundStep(queues: seq<seq<Record>>, r: nat, i: nat)
    requires i < |queues|
    ensures PartialRound(queues, r, i + 1) == PartialRound(queues, r, i) + Turn(queues, r, i)
  {
  }

  lemma RoundsStep(queues: seq<seq<Record>>, r: nat)
    ensures FullRounds(queues, r) == if r == 0 then [] else FullRounds(queues, r - 1) + PartialRound(queues, r - 1, |queues|)
  {
    hide PartialRound;
  }

  lemma RoundZero(queues: seq<seq<Record>>, r: nat)
    ensures PartialRound(queues, r, 0) == []
  {
  }

  lemma ServedTurn(queues: seq<seq<Record>>, names: seq<string>, r: nat, i: nat, j: nat)
    requires Named(queues, names) && i < |queues| && j < |queues|
    ensures Served(Turn(queues, r, i), names[j]) == if i == j && r < |queues[j]| then 1 else 0
    ensures |Turn(queues, r, i)| <= 1
  {
    if r < |queues[i]| {
      assert Turn(queues, r, i)[..0] == [];
      assert Served([], names[j]) == 0;
    }
  }

  lemma NamedLength(queues: seq<seq<Record>>, names: seq<string>)
    requires Named(queues, names)
    ensures |queues| == |names|
  {
  }

  lemma {:induction false} ServedInRound(queues: seq<seq<Record>>, names: seq<string>, r: nat, i: nat, j: nat)
    requires Named(queues, names) && i <= |queues| && j < |queues|
    ensures Served(PartialRound(queues, r, i), names[j]) == if j < i && r < |queues[j]| then 1 else 0
  {
    hide *;
    NamedLength(queues, names);
    ServedNone(names[j]);
    if i > 0 {
      ServedInRound(queues, names, r, i - 1, j);
      RoundStep(queues, r, i - 1);
      ServedTurn(queues, names, r, i - 1, j);
      ServedConcat(PartialRound(queues, r, i - 1), Turn(queues, r, i - 1), names[j]);
    } else {
      RoundZero(queues, r);
    }
  }

  lemma {:induction false} ServedInRounds(queues: seq<seq<Record>>, names: seq<string>, r: nat, j: nat)
    requires Named(queues, names) && j < |queues|
    ensures Served(FullRounds(queues, r), names[j]) == if r < |queues[j]| then r else |queues[j]|
  {
    hide *;
    NamedLength(queues, names);
    RoundsStep(queues, r);
    ServedNone(names[j]);
    if r > 0 {
      ServedInRounds(queues, names, r - 1, j);
      ServedInRound(queues, names, r - 1, |queues|, j);
      ServedConcat(FullRounds(queues, r - 1), PartialRound(queues, r - 1, |queues|), names[j]);
    }
  }

  /** A prefix of a partial round is a shorter partial round. */
  lemma {:induction false} PrefixOfRound(queues: seq<seq<Record>>, r: nat, i: nat, n: nat) returns (k: nat)
    requires i <= |queues| && n <= |PartialRound(queues, r, i)|
    ensures k <= i && PartialRound(queues, r, i)[..n] == PartialRound(queues, r, k)
  {
    if n == |PartialRound(queues, r, i)| {
      k := i;
      assert PartialRound(queues, r, i)[..n] == PartialRound(queues, r, i);
    } else {
      k := PrefixOfRound(queues, r, i - 1, n);
      assert PartialRound(queues, r, i)[..n] == PartialRound(queues, r, i - 1)[..n];
    }
  }

  /** Every prefix of the order is some full rounds and a part of the next. */
  lemma {:induction false} PrefixOfRounds(queues: seq<seq<Record>>, rounds: nat, n: nat) returns (r: nat, k: nat)
    requires n <= |FullRounds(queues, rounds)|
    ensures k <= |queues| && FullRounds(queues, rounds)[..n] == FullRounds(queues, r) + PartialRound(queues, r, k)
  {
    if rounds == 0 {
      r, k := 0, 0;
    } else {
      var before, last := FullRounds(queues, rounds - 1), PartialRound(queues, rounds - 1, |queues|);
      if n <= |before| {
        r, k := PrefixOfRounds(queues, rounds - 1, n);
        assert (before + last)[..n] == before[..n];
      } else {
        r := rounds - 1;
        k := PrefixOfRound(queues, r, |queues|, n - |before|);
        assert (before + last)[..n] == before + last[..n - |before|];
      }
    }
  }

  /** Fairness at every moment: after any number of dispatches, two projects that both still have work differ by
      at most one in the items they were served. */
  lemma EveryPrefixIsFair(queues: seq<seq<Record>>, names: seq<string>, rounds: nat, n: nat, i: nat, j: nat)
    requires Named(queues, names) && n <= |FullRounds(queues, rounds)| && i < |queues| && j < |queues|
    ensures var prefix := FullRounds(queues, rounds)[..n];
      Served(prefix, names[i]) < |queues[i]| && Served(prefix, names[j]) < |queues[j]| ==>
      -1 <= Served(prefix, names[i]) - Served(prefix, names[j]) <= 1
  {
    var r, k := PrefixOfRounds(queues, rounds, n);
    forall x | x == i || x == j
      ensures Served(FullRounds(queues, r) + PartialRound(queues, r, k), names[x]) ==
        (if r < |queues[x]| then r else |queues[x]|) + if x < k && r < |queues[x]| then 1 else 0
    {
      ServedInRounds(queues, names, r, x);
      ServedInRound(queues, names, r, k, x);
      ServedConcat(FullRounds(queues, r), PartialRound(queues, r, k), names[x]);
    }
  }

  lemma {:induction false} RoundsBounded(queues: seq<seq<Record>>, r: nat)
    ensures |FullRounds(queues, r)| <= |queues| * r
  {
    if r > 0 {
      hide PartialRound;
      RoundsBounded(queues, r - 1);
      RoundBounded(queues, r - 1, |queues|);
      OneMoreTime(|queues|, r);
    }
  }

  lemma OneMoreTime(n: nat, r: nat)
    requires r > 0
    ensures n * r == n * (r - 1) + n
  {
  }

  lemma {:induction false} RoundBounded(queues: seq<seq<Record>>, r: nat, i: nat)
    requires i <= |queues|
    ensures |PartialRound(queues, r, i)| <= i
  {
    if i > 0 { RoundBounded(queues, r, i - 1); }
  }

  lemma {:induction false} RoundExtends(queues: seq<seq<Record>>, r: nat, i: nat, k: nat)
    requires k <= i <= |queues|
    ensures PartialRound(queues, r, k) <= PartialRound(queues, r, i)
  {
    if k < i { RoundExtends(queues, r, i - 1, k); }
  }

  lemma {:induction false} RoundsExtend(queues: seq<seq<Record>>, rounds: nat, r: nat)
    requires r <= rounds
    ensures FullRounds(queues, r) <= FullRounds(queues, rounds)
  {
    if r < rounds { RoundsExtend(queues, rounds - 1, r); }
  }

  /** Bounded waiting: the item at index `r` of its project, of `P` projects, is dispatched among the first
      `P * (r + 1)`. */
  lemma WaitIsBounded(queues: seq<seq<Record>>, rounds: nat, j: nat, r: nat) returns (at: nat)
    requires j < |queues| && r < |queues[j]| && r < rounds
    ensures at < |FullRounds(queues, rounds)| && FullRounds(queues, rounds)[at] == queues[j][r]
    ensures at + 1 <= |queues| * (r + 1)
  {
    at := |FullRounds(queues, r)| + |PartialRound(queues, r, j)|;
    RoundsBounded(queues, r);
    RoundBounded(queues, r, j);
    assert |queues| * (r + 1) == |queues| * r + |queues|;
    RoundExtends(queues, r, |queues|, j + 1);
    RoundsExtend(queues, rounds, r + 1);
    assert PartialRound(queues, r, j + 1) == PartialRound(queues, r, j) + [queues[j][r]];
    var full := FullRounds(queues, r) + PartialRound(queues, r, |queues|);
    assert full[at] == queues[j][r];
  }

  // ---------- nothing lost ----------

  /** How often `x` is among the first `n` records of a queue, or all of them. */
  function Share(q: seq<Record>, n: nat, x: Record): nat {
    multiset(q[..if n < |q| then n else |q|])[x]
  }

  /** How often `x` was served once the first `i` queues gave `r + 1` records each and the others `r`, counting
      the first `upto` queues. */
  function Given(queues: seq<seq<Record>>, r: nat, i: nat, upto: nat, x: Record): nat
    requires upto <= |queues|
  {
    if upto == 0 then 0
    else Given(queues, r, i, upto - 1, x) + Share(queues[upto - 1], if upto - 1 < i then r + 1 else r, x)
  }

  lemma ShareNext(queues: seq<seq<Record>>, i: nat, r: nat, x: Record)
    requires i < |queues|
    ensures Share(queues[i], r + 1, x) == Share(queues[i], r, x) + multiset(Turn(queues, r, i))[x]
  {
    var q := queues[i];
    if r < |q| { assert q[..r + 1] == q[..r] + [q[r]]; }
  }

  lemma {:induction false} GivenNext(queues: seq<seq<Record>>, r: nat, i: nat, upto: nat, x: Record)
    requires i < |queues| && upto <= |queues|
    ensures Given(queues, r, i + 1, upto, x) ==
      Given(queues, r, i, upto, x) + if i < upto then multiset(Turn(queues, r, i))[x] else 0
  {
    hide Share, Turn;
    if upto > 0 {
      GivenNext(queues, r, i, upto - 1, x);
      ShareNext(queues, upto - 1, r, x);
    }
  }

  lemma {:induction false} GivenRound(queues: seq<seq<Record>>, r: nat, upto: nat, x: Record)
    requires upto <= |queues|
    ensures Given(queues, r, |queues|, upto, x) == Given(queues, r + 1, 0, upto, x)
  {
    if upto > 0 { GivenRound(queues, r, upto - 1, x); }
  }

  lemma {:induction false} GivenStart(queues: seq<seq<Record>>, upto: nat, x: Record)
    requires upto <= |queues|
    ensures Given(queues, 0, 0, upto, x) == 0
  {
    if upto > 0 { GivenStart(queues, upto - 1, x); }
  }

  lemma CountConcat(a: seq<Record>, b: seq<Record>, x: Record)
    ensures multiset(a + b)[x] == multiset(a)[x] + multiset(b)[x]
  {
  }

  lemma {:induction false} RoundGives(queues: seq<seq<Record>>, r: nat, i: nat, x: Record)
    requires i <= |queues|
    ensures Given(queues, r, i, |queues|, x) == Given(queues, r, 0, |queues|, x) + multiset(PartialRound(queues, r, i))[x]
  {
    hide Given, Turn, PartialRound;
    RoundZero(queues, r);
    if i > 0 {
      RoundGives(queues, r, i - 1, x);
      GivenNext(queues, r, i - 1, |queues|, x);
      RoundStep(queues, r, i - 1);
      CountConcat(PartialRound(queues, r, i - 1), Turn(queues, r, i - 1), x);
    }
  }

  /** The first `r` rounds serve exactly the first `r` records of every queue. */
  lemma {:induction false} RoundsGive(queues: seq<seq<Record>>, r: nat, x: Record)
    ensures multiset(FullRounds(queues, r))[x] == Given(queues, r, 0, |queues|, x)
  {
    hide PartialRound, Given, FullRounds;
    RoundsStep(queues, r);
    if r == 0 {
      GivenStart(queues, |queues|, x);
    } else {
      RoundsGive(queues, r - 1, x);
      RoundGives(queues, r - 1, |queues|, x);
      GivenRound(queues, r - 1, |queues|, x);
      CountConcat(FullRounds(queues, r - 1), PartialRound(queues, r - 1, |queues|), x);
    }
  }

  function All(queues: seq<seq<Record>>, upto: nat, x: Record): nat
    requires upto <= |queues|
  {
    if upto == 0 then 0 else All(queues, upto - 1, x) + multiset(queues[upto - 1])[x]
  }

  lemma {:induction false} GivenAll(queues: seq<seq<Record>>, r: nat, upto: nat, x: Record)
    requires upto <= |queues| && forall i | 0 <= i < |queues| :: |queues[i]| <= r
    ensures Given(queues, r, 0, upto, x) == All(queues, upto, x)
  {
    if upto > 0 {
      GivenAll(queues, r, upto - 1, x);
      var q := queues[upto - 1];
      assert q[..if r < |q| then r else |q|] == q;
    }
  }

  function Pending(sessions: seq<Record>): seq<Record> {
    if sessions == [] then []
    else Pending(sessions[..|sessions| - 1]) + if IsPending(sessions[|sessions| - 1]) then [sessions[|sessions| - 1]] else []
  }

  /** How often `x` is among the pending records of the named projects. */
  function PendingIn(sessions: seq<Record>, names: set<string>, x: Record): nat {
    if sessions == [] then 0
    else
      var r := sessions[|sessions| - 1];
      PendingIn(sessions[..|sessions| - 1], names, x) + if IsPending(r) && r.project in names && r == x then 1 else 0
  }

  lemma {:induction false} PendingInSplit(sessions: seq<Record>, names: set<string>, name: string, x: Record)
    requires name !in names
    ensures PendingIn(sessions, names + {name}, x) == PendingIn(sessions, names, x) + multiset(Of(sessions, name))[x]
  {
    if sessions != [] {
      var r := sessions[|sessions| - 1];
      PendingInSplit(sessions[..|sessions| - 1], names, name, x);
      CountConcat(Of(sessions[..|sessions| - 1], name), if IsPending(r) && r.project == name then [r] else [], x);
    }
  }

  lemma {:induction false} PendingInNone(sessions: seq<Record>, x: Record)
    ensures PendingIn(sessions, {}, x) == 0
  {
    if sessions != [] { PendingInNone(sessions[..|sessions| - 1], x); }
  }

  lemma {:induction false} PendingInAll(sessions: seq<Record>, names: set<string>, x: Record)
    requires forall name :: Of(sessions, name) != [] ==> name in names
    ensures PendingIn(sessions, names, x) == multiset(Pending(sessions))[x]
  {
    if sessions != [] {
      var init, r := sessions[..|sessions| - 1], sessions[|sessions| - 1];
      PendingInAll(init, names, x);
      if IsPending(r) { assert Of(sessions, r.project) != []; }
      CountConcat(Pending(init), if IsPending(r) then [r] else [], x);
    }
  }

  function Names(names: seq<string>, upto: nat): set<string>
    requires upto <= |names|
  {
    set i | 0 <= i < upto :: names[i]
  }

  lemma NamesStep(names: seq<string>, k: nat)
    requires k < |names| && forall i, j | 0 <= i < j < |names| :: names[i] != names[j]
    ensures names[k] !in Names(names, k) && Names(names, k + 1) == Names(names, k) + {names[k]}
  {
  }

  lemma {:induction false} QueuesHold(sessions: seq<Record>, names: seq<string>, now: real, interval: real, upto: nat, x: Record)
    requires interval > 0.0 && upto <= |names|
    requires forall i, j | 0 <= i < j < |names| :: names[i] != names[j]
    ensures All(Queues(sessions, names, now, interval), upto, x) == PendingIn(sessions, Names(names, upto), x)
  {
    if upto == 0 {
      PendingInNone(sessions, x);
      assert Names(names, 0) == {};
    } else {
      hide Of, PendingIn, Sort, Names;
      QueuesHold(sessions, names, now, interval, upto - 1, x);
      SortMembers(Of(sessions, names[upto - 1]), now, interval);
      NamesStep(names, upto - 1);
      PendingInSplit(sessions, Names(names, upto - 1), names[upto - 1], x);
    }
  }

  lemma {:induction false} OfProject(sessions: seq<Record>, project: string)
    ensures forall i | 0 <= i < |Of(sessions, project)| :: Of(sessions, project)[i].project == project && IsPending(Of(sessions, project)[i])
  {
    if sessions != [] { OfProject(sessions[..|sessions| - 1], project); }
  }

  lemma DistinctNames(names: seq<string>)
    requires forall x | x in multiset(names) :: multiset(names)[x] == 1
    ensures forall i, j | 0 <= i < j < |names| :: names[i] != names[j]
  {
    forall i, j | 0 <= i < j < |names| ensures names[i] != names[j] {
      var rest := names[i + 1..];
      assert names == names[..i] + [names[i]] + rest;
      assert rest[j - i - 1] == names[j] && names[j] in multiset(rest);
      assert names[i] in multiset(names);
    }
  }

  lemma {:induction false} DistinctCounts(names: seq<string>)
    requires forall i, j | 0 <= i < j < |names| :: names[i] != names[j]
    ensures forall x | x in multiset(names) :: multiset(names)[x] == 1
  {
    if names != [] {
      var init := names[..|names| - 1];
      DistinctCounts(init);
      assert names == init + [names[|names| - 1]];
      assert names[|names| - 1] !in init;
    }
  }

  /** The queues of a call are well named, one for each project with pending work. */
  lemma QueuesNamed(sessions: seq<Record>, now: real, interval: real, last: string)
    requires interval > 0.0
    ensures Named(Queues(sessions, Rounds(sessions, last), now, interval), Rounds(sessions, last))
  {
    var names := Rounds(sessions, last);
    ProjectsAre(sessions);
    RoundsAre(sessions, last);
    DistinctCounts(Projects(sessions));
    DistinctNames(names);
    var queues: seq<seq<Record>> := Queues(sessions, names, now, interval);
    forall j, k | 0 <= j < |queues| && 0 <= k < |queues[j]| ensures queues[j][k].project == names[j] {
      SortMembers(Of(sessions, names[j]), now, interval);
      OfProject(sessions, names[j]);
      assert queues[j][k] in multiset(queues[j]);
      assert queues[j][k] in Of(sessions, names[j]);
    }
  }

  /** The order is a permutation of the pending records: none is lost, repeated or made up. */
  lemma OrderIsPermutation(sessions: seq<Record>, now: real, interval: real, last: string)
    requires interval > 0.0
    ensures multiset(FairOrder(sessions, now, interval, last)) == multiset(Pending(sessions))
  {
    var names := Rounds(sessions, last);
    var queues: seq<seq<Record>> := Queues(sessions, names, now, interval);
    QueuesNamed(sessions, now, interval, last);
    LongestBounds(queues);
    ProjectsAre(sessions);
    RoundsAre(sessions, last);
    forall name | Of(sessions, name) != [] ensures name in Names(names, |names|) {
      assert name in names;
    }
    var order, pending := FairOrder(sessions, now, interval, last), Pending(sessions);
    forall x ensures multiset(order)[x] == multiset(pending)[x] {
      RoundsGive(queues, Longest(queues), x);
      GivenAll(queues, Longest(queues), |queues|, x);
      QueuesHold(sessions, names, now, interval, |names|, x);
      PendingInAll(sessions, Names(names, |names|), x);
    }
  }

  // ---------- the first project ----------

  ghost predicate Ascending(names: seq<string>) {
    forall i, j | 0 <= i < j < |names| :: !Text.Less(names[j], names[i])
  }

  lemma {:induction false} InsertAscending(s: seq<string>, name: string)
    requires Ascending(s)
    ensures Ascending(InsertName(s, name))
  {
    if s != [] {
      var last := s[|s| - 1];
      if !Text.Less(name, last) {
        forall i | 0 <= i < |s| - 1 ensures !Text.Less(name, s[i]) {
          Text.LessTotal(s[i], last);
          if Text.Less(name, s[i]) && Text.Less(s[i], last) { Text.LessTrans(name, s[i], last); }
        }
      } else {
        var init := s[..|s| - 1];
        InsertAscending(init, name);
        InsertNameMembers(init, name);
        Text.LessTotal(name, last);
        var t := InsertName(init, name);
        forall i | 0 <= i < |t| ensures !Text.Less(last, t[i]) {
          assert t[i] in multiset(t);
          if t[i] != name { assert t[i] in multiset(init); assert t[i] in init; }
        }
      }
    }
  }

  lemma {:induction false} SortNamesAscending(names: seq<string>)
    ensures Ascending(SortNames(names))
  {
    if names != [] {
      SortNamesAscending(names[..|names| - 1]);
      InsertAscending(SortNames(names[..|names| - 1]), names[|names| - 1]);
    }
  }

  lemma QueueOf(sessions: seq<Record>, now: real, interval: real, last: string, project: string) returns (j: nat)
    requires interval > 0.0 && project in Projects(sessions)
    ensures var names := Rounds(sessions, last);
      && j < |names| && names[j] == project && |names| == |Projects(sessions)|
      && |Queues(sessions, names, now, interval)| == |names|
      && Queues(sessions, names, now, interval)[j] == Sort(Of(sessions, project), now, interval)
      && |Sort(Of(sessions, project), now, interval)| == |Of(sessions, project)|
  {
    RoundsAre(sessions, last);
    var names := Rounds(sessions, last);
    assert |multiset(names)| == |multiset(Projects(sessions))|;
    hide Rounds, Of, Sort, Projects;
    j :| 0 <= j < |names| && names[j] == project;
    SortMembers(Of(sessions, project), now, interval);
    assert |multiset(Sort(Of(sessions, project), now, interval))| == |multiset(Of(sessions, project))|;
  }

  /** Fairness of the order itself: whenever two projects both still wait, one has been served at most one item more. */
  lemma DispatchIsFair(sessions: seq<Record>, now: real, interval: real, last: string, n: nat, a: string, b: string)
    requires interval > 0.0 && n <= |FairOrder(sessions, now, interval, last)|
    requires a in Projects(sessions) && b in Projects(sessions)
    ensures var prefix := FairOrder(sessions, now, interval, last)[..n];
      Served(prefix, a) < |Of(sessions, a)| && Served(prefix, b) < |Of(sessions, b)| ==>
      -1 <= Served(prefix, a) - Served(prefix, b) <= 1
  {
    var names := Rounds(sessions, last);
    var queues: seq<seq<Record>> := Queues(sessions, names, now, interval);
    var i := QueueOf(sessions, now, interval, last, a);
    var j := QueueOf(sessions, now, interval, last, b);
    QueuesNamed(sessions, now, interval, last);
    hide Rounds, Queues, Sort, Of, Projects, FullRounds, Longest, Served;
    EveryPrefixIsFair(queues, names, Longest(queues), n, i, j);
  }

  /** Bounded waiting in the order itself: the record at index `r` of its project's queue is dispatched among the
      first `P * (r + 1)`, where `P` is the number of projects with pending work. */
  lemma WaitInOrder(sessions: seq<Record>, now: real, interval: real, last: string, project: string, r: nat)
    returns (at: nat)
    requires interval > 0.0 && project in Projects(sessions) && r < |Of(sessions, project)|
    ensures |Sort(Of(sessions, project), now, interval)| == |Of(sessions, project)|
    ensures at < |FairOrder(sessions, now, interval, last)|
    ensures FairOrder(sessions, now, interval, last)[at] == Sort(Of(sessions, project), now, interval)[r]
    ensures at + 1 <= |Projects(sessions)| * (r + 1)
  {
    var names := Rounds(sessions, last);
    var queues: seq<seq<Record>> := Queues(sessions, names, now, interval);
    var j := QueueOf(sessions, now, interval, last, project);
    LongestBounds(queues);
    hide Rounds, Queues, Sort, Of, Projects, FullRounds, Longest;
    at := WaitIsBounded(queues, Longest(queues), j, r);
  }

  /** `next` is the cyclic successor of `last` among the projects with work: the least one above it, or the least
      of all when none is above. */
  ghost predicate CyclicSuccessor(projects: seq<string>, last: string, next: string) {
    && next in projects
    && (Text.Less(last, next) || forall p | p in projects :: !Text.Less(last, p))
    && (forall p | p in projects && (Text.Less(last, next) ==> Text.Less(last, p)) :: !Text.Less(p, next))
  }

  /** The first record served belongs to the cyclic successor of the project served last. */
  lemma StartsAfterLast(sessions: seq<Record>, now: real, interval: real, last: string)
    requires interval > 0.0 && last in Projects(sessions)
    ensures var order := FairOrder(sessions, now, interval, last);
      order != [] && CyclicSuccessor(Projects(sessions), last, order[0].project)
  {
    var projects, sorted := Projects(sessions), SortNames(Projects(sessions));
    var names := Rounds(sessions, last);
    var queues: seq<seq<Record>> := Queues(sessions, names, now, interval);
    ProjectsAre(sessions);
    RoundsAre(sessions, last);
    SortNamesMembers(projects);
    SameMembers(sorted, projects);
    QueuesNamed(sessions, now, interval, last);
    SortNamesAscending(projects);
    DistinctCounts(projects);
    DistinctNames(sorted);
    SuccessorIs(sorted, last);
    assert names != [] && names[0] in projects;
    assert forall p :: p in projects <==> p in sorted;
    FirstServed(sessions, names, queues, now, interval);
    hide Queues, Rounds, Projects, FullRounds, SortNames, Longest;
  }

  lemma FirstServed(sessions: seq<Record>, names: seq<string>, queues: seq<seq<Record>>, now: real, interval: real)
    requires interval > 0.0 && queues == Queues(sessions, names, now, interval) && Named(queues, names)
    requires names != [] && Of(sessions, names[0]) != []
    ensures Longest(queues) > 0 && FullRounds(queues, Longest(queues)) != []
    ensures FullRounds(queues, Longest(queues))[0].project == names[0]
  {
    SortMembers(Of(sessions, names[0]), now, interval);
    assert |queues[0]| > 0 && queues[0][0].project == names[0];
    LongestBounds(queues);
    hide *;
    RoundsExtend(queues, Longest(queues), 1);
    FirstOfRound(queues);
    var one, all := FullRounds(queues, 1), FullRounds(queues, Longest(queues));
    assert all[..|one|] == one;
  }

  lemma FirstOfRound(queues: seq<seq<Record>>)
    requires queues != [] && |queues[0]| > 0
    ensures FullRounds(queues, 1) != [] && FullRounds(queues, 1)[0] == queues[0][0]
  {
    RoundExtends(queues, 0, |queues|, 1);
    RoundStep(queues, 0, 0);
    assert FullRounds(queues, 1) == [] + PartialRound(queues, 0, |queues|);
    assert PartialRound(queues, 0, 1) == [queues[0][0]];
    hide *;
    assert PartialRound(queues, 0, |queues|)[..1] == PartialRound(queues, 0, 1);
  }

  lemma AscendsTo(sorted: seq<string>, i: nat, k: nat)
    requires Ascending(sorted) && i <= k < |sorted|
    ensures !Text.Less(sorted[k], sorted[i])
  {
    Text.LessTotal(sorted[k], sorted[k]);
    hide Text.Less;
  }

  lemma SuccessorIs(sorted: seq<string>, last: string)
    requires Ascending(sorted) && last in sorted && forall i, j | 0 <= i < j < |sorted| :: sorted[i] != sorted[j]
    ensures Rotate(sorted, last) != [] && CyclicSuccessor(sorted, last, Rotate(sorted, last)[0])
  {
    var k := IndexOf(sorted, last);
    var next := Rotate(sorted, last)[0];
    hide Text.Less, IndexOf, Ascending;
    if k + 1 < |sorted| {
      assert next == sorted[k + 1];
      Text.LessTotal(last, next);
      AscendsTo(sorted, k, k + 1);
      forall p | p in sorted && Text.Less(last, p) ensures !Text.Less(p, next) {
        var i :| 0 <= i < |sorted| && sorted[i] == p;
        AscendsTo(sorted, if i <= k then i else k + 1, if i <= k then k else i);
      }
    } else {
      assert next == sorted[0];
      forall p | p in sorted ensures !Text.Less(last, p) && !Text.Less(p, next) {
        var i :| 0 <= i < |sorted| && sorted[i] == p;
        AscendsTo(sorted, i, k);
        AscendsTo(sorted, 0, i);
      }
    }
  }

  // ---------- positions ----------

  ghost predicate DistinctIds(ordered: seq<Record>) {
    forall i, j | 0 <= i < j < |ordered| :: ordered[i].id != ordered[j].id
  }

  /** For distinct session IDs the position map is a bijection onto 1..n that reads off the order: record `i` is
      at `i + 1`, and nothing else has a position. */
  lemma {:induction false} PositionsBijective(ordered: seq<Record>, i: nat, id: string)
    requires DistinctIds(ordered)
    ensures i < |ordered| ==> ordered[i].id in Positions(ordered) && Positions(ordered)[ordered[i].id] == i + 1
    ensures id in Positions(ordered) ==>
      1 <= Positions(ordered)[id] <= |ordered| && ordered[Positions(ordered)[id] - 1].id == id
  {
    if ordered != [] {
      var init, last := ordered[..|ordered| - 1], ordered[|ordered| - 1];
      PositionsBijective(init, i, id);
      if i < |init| { assert init[i] == ordered[i] && ordered[i].id != last.id; }
    }
  }

  lemma TwiceInside(s: seq<Record>, i: nat, j: nat)
    requires i < j < |s| && s[i] == s[j]
    ensures multiset(s)[s[i]] >= 2
  {
    assert s == s[..j] + [s[j]] + s[j + 1..];
    assert s[..j][i] == s[j] && s[j] in multiset(s[..j]);
  }

  lemma {:induction false} PendingDistinct(sessions: seq<Record>)
    requires DistinctIds(sessions)
    ensures DistinctIds(Pending(sessions))
    ensures forall r | r in Pending(sessions) :: r in sessions
  {
    if sessions != [] {
      var init, last := sessions[..|sessions| - 1], sessions[|sessions| - 1];
      PendingDistinct(init);
      assert sessions == init + [last];
      forall r | r in init ensures r.id != last.id {
        var k :| 0 <= k < |init| && init[k] == r;
        assert sessions[k] == r;
      }
    }
  }

  lemma {:induction false} OnceInside(s: seq<Record>, x: Record)
    requires DistinctIds(s)
    ensures multiset(s)[x] <= 1
  {
    if s != [] {
      var init, last := s[..|s| - 1], s[|s| - 1];
      OnceInside(init, x);
      assert s == init + [last];
      assert forall k | 0 <= k < |init| :: init[k] == s[k] && s[k].id != last.id;
      assert last !in multiset(init);
    }
  }

  /** A rearrangement of records with distinct IDs has distinct IDs. */
  lemma RearrangedDistinct(s: seq<Record>, t: seq<Record>)
    requires DistinctIds(s) && multiset(t) == multiset(s)
    ensures DistinctIds(t)
  {
    forall i, j | 0 <= i < j < |t| ensures t[i].id != t[j].id {
      if t[i] == t[j] {
        TwiceInside(t, i, j);
        OnceInside(s, t[i]);
        assert false;
      }
      assert t[i] in multiset(t) && t[j] in multiset(t);
      assert t[i] in s && t[j] in s;
    }
  }

  /** The record's position is where `order` holds it. */
  predicate HasPlace(positions: map<string, nat>, order: seq<Record>, r: Record) {
    r.id in positions && 1 <= positions[r.id] <= |order| && order[positions[r.id] - 1] == r
  }

  /** Position `i + 1` belongs to record `i`. */
  predicate PlaceTaken(positions: map<string, nat>, order: seq<Record>, i: nat)
    requires i < |order|
  {
    order[i].id in positions && positions[order[i].id] == i + 1
  }

  predicate NamesOne(pending: seq<Record>, id: string) {
    exists r | r in pending :: r.id == id
  }

  /** Each of `pending` has one position, at which `order` holds it; every position up to their number is taken; and
      nothing else has a position. */
  ghost predicate Bijection(positions: map<string, nat>, order: seq<Record>, pending: seq<Record>) {
    && |order| == |pending|
    && (forall r | r in pending :: HasPlace(positions, order, r))
    && (forall i | 0 <= i < |order| :: PlaceTaken(positions, order, i))
    && (forall id | id in positions :: NamesOne(pending, id))
  }

  lemma PlaceOf(order: seq<Record>, i: nat)
    requires DistinctIds(order) && i < |order|
    ensures HasPlace(Positions(order), order, order[i]) && PlaceTaken(Positions(order), order, i)
  {
    hide DistinctIds, Positions;
    PositionsBijective(order, i, order[i].id);
  }

  lemma NothingElse(order: seq<Record>, pending: seq<Record>, id: string)
    requires DistinctIds(order) && id in Positions(order) && forall r :: r in order <==> r in pending
    ensures NamesOne(pending, id)
  {
    hide DistinctIds, Positions;
    PositionsBijective(order, 0, id);
    assert order[Positions(order)[id] - 1] in order;
  }

  lemma PositionsBiject(order: seq<Record>, pending: seq<Record>)
    requires DistinctIds(order) && |order| == |pending| && forall r :: r in order <==> r in pending
    ensures Bijection(Positions(order), order, pending)
  {
    hide DistinctIds, Positions, HasPlace, PlaceTaken, NamesOne;
    forall r | r in pending ensures HasPlace(Positions(order), order, r) {
      assert r in order;
      var i :| 0 <= i < |order| && order[i] == r;
      PlaceOf(order, i);
    }
    forall i | 0 <= i < |order| ensures PlaceTaken(Positions(order), order, i) { PlaceOf(order, i); }
    forall id | id in Positions(order) ensures NamesOne(pending, id) { NothingElse(order, pending, id); }
  }

  /** For sessions with distinct IDs, `queue_position_map` is a bijection from the pending sessions onto 1..n that reads
      off the order. */
  lemma PositionsOfPending(sessions: seq<Record>, now: real, interval: real, last: string)
    requires interval > 0.0 && DistinctIds(sessions)
    ensures var order := FairOrder(sessions, now, interval, last);
      DistinctIds(order) && Bijection(Positions(order), order, Pending(sessions))
  {
    var order, pending := FairOrder(sessions, now, interval, last), Pending(sessions);
    OrderIsPermutation(sessions, now, interval, last);
    PendingDistinct(sessions);
    hide *;
    RearrangedDistinct(pending, order);
    assert |multiset(order)| == |order| && |multiset(pending)| == |pending|;
    forall r ensures r in order <==> r in pending {
      assert r in multiset(order) <==> r in multiset(pending);
    }
    PositionsBiject(order, pending);
  }
}
