/** Which record of a project goes first: the more urgent one, an older one counting one step higher for each full interval
    of its age. */
module FairQueuePriority {
  import opened FairQueue
  import opened FairQueueLaws
  import Sessions
  import Text

  // ---------- the rule ----------

  function Level(p: Priority): int {
    if p == Urgent then 2 else if p == Normal then 1 else 0
  }

  /** The priority's level, and one more for each full interval that has passed since the record was created. */
  function Points(r: Record, now: real, interval: real): int
    requires interval > 0.0
  {
    Level(r.priority) + if now <= r.createdAt then 0 else ((now - r.createdAt) / interval).Floor
  }

  /** More points; of equal points the one created earlier; of those the lesser session ID. */
  predicate GoesFirst(a: Record, b: Record, now: real, interval: real)
    requires interval > 0.0
  {
    if Points(a, now, interval) != Points(b, now, interval) then Points(a, now, interval) > Points(b, now, interval)
    else if a.createdAt != b.createdAt then a.createdAt < b.createdAt
    else Text.Less(a.id, b.id)
  }

  lemma PointsAreRank(r: Record, now: real, interval: real)
    requires interval > 0.0
    ensures Points(r, now, interval) == Rank(r, now, interval)
  {
    assert 0.0 / interval == 0.0;
  }

  lemma GoesFirstIsKey(a: Record, b: Record, now: real, interval: real)
    requires interval > 0.0
    ensures GoesFirst(a, b, now, interval) <==> KeyLess(a, b, now, interval)
  {
    PointsAreRank(a, now, interval);
    PointsAreRank(b, now, interval);
    hide Points, Rank;
  }

  // ---------- the order of one project in the rounds ----------

  lemma {:induction false} RoundElement(queues: seq<seq<Record>>, r: nat, k: nat, i: nat) returns (q: nat)
    requires k <= |queues| && i < |PartialRound(queues, r, k)|
    ensures q < k && r < |queues[q]| && PartialRound(queues, r, k)[i] == queues[q][r]
  {
    if i < |PartialRound(queues, r, k - 1)| {
      q := RoundElement(queues, r, k - 1, i);
    } else {
      q := k - 1;
    }
  }

  /** A round serves each project once. */
  lemma {:induction false} RoundServesOnce(queues: seq<seq<Record>>, names: seq<string>, r: nat, k: nat, i: nat, j: nat)
    requires Named(queues, names) && k <= |queues| && i < j < |PartialRound(queues, r, k)|
    ensures PartialRound(queues, r, k)[i].project != PartialRound(queues, r, k)[j].project
  {
    if j < |PartialRound(queues, r, k - 1)| {
      RoundServesOnce(queues, names, r, k - 1, i, j);
    } else {
      var q := RoundElement(queues, r, k - 1, i);
      assert names[q] != names[k - 1];
    }
  }

  lemma {:induction false} RoundsElement(queues: seq<seq<Record>>, n: nat, i: nat) returns (q: nat, r: nat)
    requires i < |FullRounds(queues, n)|
    ensures q < |queues| && r < n && r < |queues[q]| && FullRounds(queues, n)[i] == queues[q][r]
  {
    hide PartialRound;
    if i < |FullRounds(queues, n - 1)| {
      q, r := RoundsElement(queues, n - 1, i);
    } else {
      r := n - 1;
      q := RoundElement(queues, r, |queues|, i - |FullRounds(queues, n - 1)|);
    }
  }

  /** No record of a project goes before another one that is placed earlier. */
  lemma {:induction false} RoundsKeepOrder(queues: seq<seq<Record>>, names: seq<string>, n: nat, now: real, interval: real,
    i: nat, j: nat)
    requires interval > 0.0 && Named(queues, names) && forall q | 0 <= q < |queues| :: Sorted(queues[q], now, interval)
    requires i < j < |FullRounds(queues, n)| && FullRounds(queues, n)[i].project == FullRounds(queues, n)[j].project
    ensures !KeyLess(FullRounds(queues, n)[j], FullRounds(queues, n)[i], now, interval)
  {
    hide PartialRound, KeyLess, Named;
    var before := |FullRounds(queues, n - 1)|;
    if j < before {
      RoundsKeepOrder(queues, names, n - 1, now, interval, i, j);
    } else if i < before {
      var q, r := RoundsElement(queues, n - 1, i);
      var p := RoundElement(queues, n - 1, |queues|, j - before);
      SameQueue(queues, names, q, r, p, n - 1);
    } else {
      RoundServesOnce(queues, names, n - 1, |queues|, i - before, j - before);
    }
  }

  lemma SameQueue(queues: seq<seq<Record>>, names: seq<string>, q: nat, r: nat, p: nat, s: nat)
    requires Named(queues, names) && q < |queues| && p < |queues| && r < |queues[q]| && s < |queues[p]|
    requires queues[q][r].project == queues[p][s].project
    ensures q == p
  {
  }

  /** Of two records of one project, the one that goes first by the rule is placed first in the dispatch order, for every
      time and every positive interval. */
  lemma RuleDecides(sessions: seq<Record>, now: real, interval: real, last: string, i: nat, j: nat)
    requires interval > 0.0
    requires i < |FairOrder(sessions, now, interval, last)| && j < |FairOrder(sessions, now, interval, last)|
    requires var order := FairOrder(sessions, now, interval, last);
      order[i].project == order[j].project && GoesFirst(order[i], order[j], now, interval)
    ensures i < j
  {
    var names := Rounds(sessions, last);
    var queues := Queues(sessions, names, now, interval);
    QueuesNamed(sessions, now, interval, last);
    forall q | 0 <= q < |queues| ensures Sorted(queues[q], now, interval) {
      SortSorts(Of(sessions, names[q]), now, interval);
    }
    hide Rounds, Queues, Sorted, Named, KeyLess, GoesFirst, Longest, FullRounds;
    var order := FullRounds(queues, Longest(queues));
    GoesFirstIsKey(order[i], order[j], now, interval);
    KeyAsymmetric(order[i], order[j], now, interval);
    if j < i { RoundsKeepOrder(queues, names, Longest(queues), now, interval, j, i); }
  }

  /** Of two pending records of one project created at the same time, an urgent one goes before a normal or a low one, and a
      normal one before a low one. */
  lemma UrgentGoesFirst(sessions: seq<Record>, now: real, interval: real, last: string, i: nat, j: nat)
    requires interval > 0.0
    requires i < |FairOrder(sessions, now, interval, last)| && j < |FairOrder(sessions, now, interval, last)|
    requires var a, b := FairOrder(sessions, now, interval, last)[i], FairOrder(sessions, now, interval, last)[j];
      && a.project == b.project && a.createdAt == b.createdAt
      && (a.priority, b.priority) in {(Urgent, Normal), (Urgent, Low), (Normal, Low)}
    ensures i < j
  {
    RuleDecides(sessions, now, interval, last, i, j) by { hide FairOrder; }
  }

  /** One full interval of age makes up for one step of priority: a record that is at least an interval older than one of the
      next higher priority, which is not dated in the future, goes first. */
  lemma IntervalMakesUp(sessions: seq<Record>, now: real, interval: real, last: string, i: nat, j: nat)
    requires interval > 0.0
    requires i < |FairOrder(sessions, now, interval, last)| && j < |FairOrder(sessions, now, interval, last)|
    requires var a, b := FairOrder(sessions, now, interval, last)[i], FairOrder(sessions, now, interval, last)[j];
      && a.project == b.project && a.createdAt + interval <= b.createdAt <= now
      && (a.priority, b.priority) in {(Low, Normal), (Normal, Urgent)}
    ensures i < j
  {
    var a, b := FairOrder(sessions, now, interval, last)[i], FairOrder(sessions, now, interval, last)[j];
    OneMoreStep(now - a.createdAt, now - b.createdAt, interval);
    assert 0.0 / interval == 0.0;
    RuleDecides(sessions, now, interval, last, i, j) by { hide FairOrder; }
  }

  lemma OneMoreStep(older: real, newer: real, interval: real)
    requires interval > 0.0 && older >= newer + interval
    ensures (older / interval).Floor >= (newer / interval).Floor + 1
  {
    var x, y := older / interval, newer / interval;
    assert x * interval == older && y * interval == newer;
    var gap := y + 1.0 - x;
    assert gap * interval == y * interval + interval - x * interval;
    if gap > 0.0 { PositiveProduct(gap, interval); }
  }

  /** The order serves exactly the sessions that are queued with a pending dispatch. */
  lemma OrderServes(sessions: seq<Record>, now: real, interval: real, last: string, r: Record)
    requires interval > 0.0
    ensures r in FairOrder(sessions, now, interval, last) <==>
      r in sessions && r.status == Sessions.Queued && r.dispatch == PendingDispatch
  {
    OrderIsPermutation(sessions, now, interval, last);
    PendingAre(sessions, r);
    hide FairOrder, Pending;
    assert r in FairOrder(sessions, now, interval, last) <==> r in multiset(FairOrder(sessions, now, interval, last));
    assert r in Pending(sessions) <==> r in multiset(Pending(sessions));
  }

  lemma {:induction false} PendingAre(sessions: seq<Record>, r: Record)
    ensures r in Pending(sessions) <==> r in sessions && r.status == Sessions.Queued && r.dispatch == PendingDispatch
  {
    if sessions != [] {
      PendingAre(sessions[..|sessions| - 1], r);
      assert sessions == sessions[..|sessions| - 1] + [sessions[|sessions| - 1]];
    }
  }
}
