/** Safety of the deferred-input inbox over whole runs.

    A run interleaves inbox operations with arbitrary changes of the owning session; every
    operation may be cut off by a crash after any number of the events it appends. */
module InputInboxRuns {
  import opened Wrappers
  import opened Sessions
  import opened InputInbox
  import Text

  // ---------- what one appended event may do ----------

  /** Rank of a state: accepted < claimed < delivered < terminal. */
  function Rank(s: State): nat {
    match s
    case Accepted => 0
    case Claimed => 1
    case Delivered => 2
    case _ => 3
  }

  /** The event changes the state only, and perhaps the error text. */
  predicate StateOnly(e: Event) {
    && e.session.None? && e.owner.None? && e.text.None? && e.acceptedAt.None?
    && e.deferred.None? && e.recoveryError.None?
  }

  /** The event hands an accepted message to an owner, or takes it back to the unowned queue. */
  predicate OwnerOnly(e: Event) {
    && e.session.None? && e.text.None? && e.acceptedAt.None? && e.error.None?
    && e.state == Accepted
    && e.owner.Some? && e.deferred.Some?
    && (e.deferred.value <==> e.owner.value.hash.Unowned?)
  }

  /** The life cycle of one message, event by event. */
  predicate Legal(sid: Id, p: Projection, e: Event) {
    if e.action.Accept? then
      && e.id !in p.recs
      && e.session == Some(sid) && e.owner.Some? && e.text.Some? && e.acceptedAt.Some?
      && e.state == Accepted
      && (OrElse(e.deferred, false) <==> e.owner.value.hash.Unowned?)
      && PendingCount(p.order, p.recs) < MAX_PENDING_MESSAGES
    else
      e.id in p.recs &&
      var r := p.recs[e.id];
      match e.action
      case Deliver => StateOnly(e) && e.state == Delivered && r.state == Accepted && !r.deferred
      case Complete => StateOnly(e) && e.state == State.Completed && r.state == Delivered
      case Fail => StateOnly(e) && e.state == State.Failed && r.state == Delivered
      case Reject => StateOnly(e) && e.state == Rejected && (r.state == Accepted || r.state == Delivered)
      case Rebind => OwnerOnly(e) && r.state == Accepted && r.deferred && !e.deferred.value
      case Defer => OwnerOnly(e) && r.state == Accepted && !r.deferred && e.deferred.value
      case WaitRecovery => OwnerOnly(e) && r.state == Accepted && e.deferred.value
      case Rearm => OwnerOnly(e) && r.state == Accepted && r.deferred && e.deferred.value
      case _ => false
  }

  ghost predicate LegalLog(sid: Id, log: seq<Event>) {
    forall i | 0 <= i < |log| :: Legal(sid, Fold(log[..i]), log[i])
  }

  ghost predicate LegalFrom(sid: Id, p: Projection, evs: seq<Event>)
    decreases evs
  {
    evs == [] || (Legal(sid, p, evs[0]) && LegalFrom(sid, Step(p, evs[0]), evs[1..]))
  }

  lemma {:induction false} LegalAppend(sid: Id, log: seq<Event>, evs: seq<Event>)
    requires LegalLog(sid, log) && LegalFrom(sid, Fold(log), evs)
    ensures LegalLog(sid, log + evs)
    decreases evs
  {
    hide Legal, Fold, Step;
    if evs == [] {
      assert log + evs == log;
    } else {
      var log' := log + [evs[0]];
      FoldAppend(log, evs[0]);
      forall i | 0 <= i < |log'| ensures Legal(sid, Fold(log'[..i]), log'[i]) {
        assert log'[..i] == log[..i];
        if i == |log| { assert log[..i] == log; }
      }
      LegalAppend(sid, log', evs[1..]);
      assert log' + evs[1..] == log + evs;
    }
  }

  lemma {:induction false} LegalPrefix(sid: Id, p: Projection, evs: seq<Event>, k: nat)
    requires k <= |evs| && LegalFrom(sid, p, evs)
    ensures LegalFrom(sid, p, evs[..k])
    decreases evs
  {
    if k > 0 {
      LegalPrefix(sid, Step(p, evs[0]), evs[1..], k - 1);
      assert evs[..k][1..] == evs[1..][..k - 1];
    }
  }

  lemma {:induction false} LegalSnoc(sid: Id, p: Projection, evs: seq<Event>, e: Event)
    requires LegalFrom(sid, p, evs) && Legal(sid, FoldFrom(p, evs), e)
    ensures LegalFrom(sid, p, evs + [e])
    decreases evs
  {
    if evs == [] {
    } else {
      assert (evs + [e])[1..] == evs[1..] + [e];
      LegalSnoc(sid, Step(p, evs[0]), evs[1..], e);
    }
  }

  // ---------- the invariant of the records ----------

  /** What holds of every record of a legal log. */
  ghost predicate RecordOk(sid: Id, r: Record) {
    && r.session == sid
    && r.state != Claimed
    && (r.deferred <==> r.owner.hash.Unowned?)
    && (r.state in {Delivered, State.Completed, State.Failed} ==> !r.deferred)
  }

  ghost predicate Inv(sid: Id, p: Projection) {
    && Wf(p)
    && (forall id | id in p.recs :: RecordOk(sid, p.recs[id]))
    && PendingCount(p.order, p.recs) <= MAX_PENDING_MESSAGES
  }

  /** Monotone change of a projection: nothing disappears, identity is fixed, rank never falls. */
  ghost predicate Evolves(p: Projection, q: Projection) {
    && p.order <= q.order
    && forall id | id in p.recs ::
      && id in q.recs
      && q.recs[id].session == p.recs[id].session
      && q.recs[id].text == p.recs[id].text
      && q.recs[id].acceptedAt == p.recs[id].acceptedAt
      && Rank(p.recs[id].state) <= Rank(q.recs[id].state)
      && (Rank(p.recs[id].state) == 3 ==> q.recs[id] == p.recs[id])
  }

  lemma {:induction false} CountUpdate(order: seq<Id>, recs: map<Id, Record>, id: Id, r: Record)
    requires id in recs && (Pending(r) ==> Pending(recs[id]))
    ensures PendingCount(order, recs[id := r]) <= PendingCount(order, recs)
  {
    if order != [] {
      CountUpdate(order[..|order| - 1], recs, id, r);
    }
  }

  lemma {:induction false} CountFresh(order: seq<Id>, recs: map<Id, Record>, id: Id, r: Record)
    requires id !in order
    ensures PendingCount(order, recs[id := r]) == PendingCount(order, recs)
  {
    if order != [] {
      CountFresh(order[..|order| - 1], recs, id, r);
    }
  }

  lemma AcceptedRecord(sid: Id, p: Projection, e: Event)
    requires Legal(sid, p, e) && e.action.Accept?
    ensures e.id !in p.recs && RecordOk(sid, Update(NO_RECORD, e)) && PendingCount(p.order, p.recs) < MAX_PENDING_MESSAGES
  {
  }

  lemma AppendWf(p: Projection, id: Id, r: Record)
    requires Wf(p) && id !in p.recs
    ensures Wf(Projection(p.order + [id], p.recs[id := r]))
  {
  }

  lemma LegalAccept(sid: Id, p: Projection, e: Event)
    requires Inv(sid, p) && Legal(sid, p, e) && e.action.Accept?
    ensures Inv(sid, Step(p, e)) && Evolves(p, Step(p, e))
  {
    hide *;
    var r := Update(NO_RECORD, e);
    AcceptStep(sid, p, e, r);
    AcceptedRecord(sid, p, e);
    InvParts(sid, p);
    CountAppended(p, e.id, r);
    AppendWf(p, e.id, r);
    InvOfAppended(sid, p, e.id, r);
    EvolvesAppended(p, e.id, r);
  }

  lemma CountAppended(p: Projection, id: Id, r: Record)
    requires Wf(p) && id !in p.recs && PendingCount(p.order, p.recs) < MAX_PENDING_MESSAGES
    ensures PendingCount(p.order + [id], p.recs[id := r]) <= MAX_PENDING_MESSAGES
  {
    assert id !in p.order;
    CountFresh(p.order, p.recs, id, r);
    hide Wf, Pending;
    assert (p.order + [id])[..|p.order|] == p.order;
  }

  lemma AcceptStep(sid: Id, p: Projection, e: Event, r: Record)
    requires Legal(sid, p, e) && e.action.Accept? && r == Update(NO_RECORD, e)
    ensures e.id !in p.recs && Step(p, e) == Projection(p.order + [e.id], p.recs[e.id := r])
    ensures PendingCount(p.order, p.recs) < MAX_PENDING_MESSAGES
  {
    hide RecordOk, Update, PendingCount;
  }

  lemma InvParts(sid: Id, p: Projection)
    requires Inv(sid, p)
    ensures Wf(p) && (forall id | id in p.order :: id in p.recs) && forall id | id in p.recs :: RecordOk(sid, p.recs[id])
  {
    hide RecordOk, PendingCount;
  }

  lemma InvOfAppended(sid: Id, p: Projection, id: Id, r: Record)
    requires Inv(sid, p) && RecordOk(sid, r)
    requires Wf(Projection(p.order + [id], p.recs[id := r]))
    requires PendingCount(p.order + [id], p.recs[id := r]) <= MAX_PENDING_MESSAGES
    ensures Inv(sid, Projection(p.order + [id], p.recs[id := r]))
  {
    hide RecordOk, PendingCount, Wf;
  }

  lemma EvolvesAppended(p: Projection, id: Id, r: Record)
    requires id !in p.recs
    ensures Evolves(p, Projection(p.order + [id], p.recs[id := r]))
  {
  }

  /** What a legal event does to the one record it names. */
  lemma LegalUpdate(sid: Id, p: Projection, e: Event)
    requires Legal(sid, p, e) && !e.action.Accept? && RecordOk(sid, p.recs[e.id])
    ensures var r, r' := p.recs[e.id], Update(p.recs[e.id], e);
      && RecordOk(sid, r') && (Pending(r') ==> Pending(r))
      && r'.session == r.session && r'.text == r.text && r'.acceptedAt == r.acceptedAt
      && Rank(r.state) <= Rank(r'.state) && Rank(r.state) != 3
  {
  }

  lemma LegalStep(sid: Id, p: Projection, e: Event)
    requires Inv(sid, p) && Legal(sid, p, e)
    ensures Inv(sid, Step(p, e)) && Evolves(p, Step(p, e))
  {
    if e.action.Accept? {
      LegalAccept(sid, p, e);
    } else {
      assert e.id in p.recs;
      LegalUpdate(sid, p, e);
      CountUpdate(p.order, p.recs, e.id, Update(p.recs[e.id], e));
      hide Legal, RecordOk, Update, PendingCount, Pending, Rank;
      assert Step(p, e) == p.(recs := p.recs[e.id := Update(p.recs[e.id], e)]);
    }
  }

  lemma EvolvesTrans(p: Projection, q: Projection, r: Projection)
    requires Evolves(p, q) && Evolves(q, r)
    ensures Evolves(p, r)
  {
    hide Rank;
  }

  lemma EvolvesRefl(p: Projection)
    ensures Evolves(p, p)
  {
  }

  lemma LegalLogAt(sid: Id, log: seq<Event>, i: nat)
    requires LegalLog(sid, log) && i < |log|
    ensures Legal(sid, Fold(log[..i]), log[i])
    ensures Fold(log[..i + 1]) == Step(Fold(log[..i]), log[i])
  {
    hide Legal, Fold, Step;
    FoldAppend(log[..i], log[i]);
    assert log[..i + 1] == log[..i] + [log[i]];
  }

  lemma LegalLogPrefix(sid: Id, log: seq<Event>, i: nat)
    requires LegalLog(sid, log) && i <= |log|
    ensures LegalLog(sid, log[..i])
  {
    hide Legal, Fold;
    forall j | 0 <= j < i ensures Legal(sid, Fold(log[..i][..j]), log[..i][j]) {
      assert log[..i][..j] == log[..j];
    }
  }

  lemma {:induction false} LegalLogInv(sid: Id, log: seq<Event>)
    requires LegalLog(sid, log)
    ensures Inv(sid, Fold(log))
  {
    if log != [] {
      hide Legal, Inv, Step, LegalLog;
      var n := |log| - 1;
      LegalLogPrefix(sid, log, n);
      LegalLogInv(sid, log[..n]);
      LegalLogAt(sid, log, n);
      LegalStep(sid, Fold(log[..n]), log[n]);
    }
  }

  lemma {:induction false} LegalLogEvolves(sid: Id, log: seq<Event>, i: nat)
    requires LegalLog(sid, log) && i <= |log|
    ensures Evolves(Fold(log[..i]), Fold(log))
    decreases |log| - i
  {
    hide *;
    if i == |log| {
      assert log[..i] == log;
      EvolvesRefl(Fold(log));
    } else {
      LegalLogEvolves(sid, log, i + 1);
      LegalLogPrefix(sid, log, i);
      LegalLogInv(sid, log[..i]);
      LegalLogAt(sid, log, i);
      LegalStep(sid, Fold(log[..i]), log[i]);
      EvolvesTrans(Fold(log[..i]), Fold(log[..i + 1]), Fold(log));
    }
  }

  lemma DeliverStep(sid: Id, p: Projection, e: Event)
    requires Legal(sid, p, e) && e.action.Deliver?
    ensures e.id in p.recs && p.recs[e.id].state == Accepted
    ensures e.id in Step(p, e).recs && Step(p, e).recs[e.id].state == Delivered
  {
  }

  /** Each message is delivered at most once. */
  lemma AtMostOneDelivery(sid: Id, log: seq<Event>, i: nat, j: nat)
    requires LegalLog(sid, log) && i < j < |log|
    requires log[i].action.Deliver? && log[j].action.Deliver?
    ensures log[i].id != log[j].id
  {
    hide Legal, LegalLog, Step, Fold;
    LegalLogAt(sid, log, i);
    DeliverStep(sid, Fold(log[..i]), log[i]);
    LegalLogPrefix(sid, log, j);
    LegalLogEvolves(sid, log[..j], i + 1);
    assert log[..j][..i + 1] == log[..i + 1];
    LegalLogAt(sid, log, j);
    DeliverStep(sid, Fold(log[..j]), log[j]);
  }

  // ---------- every operation appends legal events ----------

  /** The record after the sweep has visited it. */
  function After(sweep: Sweep, id: Id, r: Record, now: real): Record {
    var d := Decide(sweep, id, r, now);
    if d.None? then r else Update(r, d.value)
  }

  lemma DecideLegal(sid: Id, sweep: Sweep, p: Projection, id: Id, now: real)
    requires id in p.recs && RecordOk(sid, p.recs[id])
    ensures Decide(sweep, id, p.recs[id], now).Some? ==> Legal(sid, p, Decide(sweep, id, p.recs[id], now).value)
  {
  }

  lemma SweepPoint(sid: Id, p: Projection, i: nat)
    requires Inv(sid, p) && i < |p.order|
    ensures p.order[i] in p.recs && RecordOk(sid, p.recs[p.order[i]])
    ensures forall j | 0 <= j < |p.order| && j != i :: p.order[j] in p.recs && p.order[j] != p.order[i]
  {
    hide RecordOk, PendingCount;
  }

  /** The projection once a sweep has visited the first `i` records: those are as decided, the rest untouched. */
  ghost predicate Swept(sweep: Sweep, p: Projection, i: nat, now: real, q: Projection)
    requires i <= |p.order| && forall id | id in p.order :: id in p.recs
  {
    && q.order == p.order && q.recs.Keys == p.recs.Keys
    && (forall j | i <= j < |p.order| :: q.recs[p.order[j]] == p.recs[p.order[j]])
    && (forall j | 0 <= j < i :: q.recs[p.order[j]] == After(sweep, p.order[j], p.recs[p.order[j]], now))
  }

  /** The next visit writes `d`, if anything, over a record that still is as the sweep found it. */
  lemma SweptStep(sid: Id, sweep: Sweep, p: Projection, i: nat, now: real, q: Projection)
    requires Inv(sid, p) && i < |p.order| && forall id | id in p.order :: id in p.recs
    requires Swept(sweep, p, i, now, q)
    ensures var id := p.order[i];
      var d := Decide(sweep, id, p.recs[id], now);
      && (d.Some? ==> Legal(sid, q, d.value))
      && Swept(sweep, p, i + 1, now, if d.Some? then Step(q, d.value) else q)
  {
    var id := p.order[i];
    SweepPoint(sid, p, i);
    assert id in q.recs && q.recs[id] == p.recs[id];
    hide *;
    var d := Decide(sweep, id, p.recs[id], now);
    DecideShape(sweep, id, p.recs[id], now);
    DecideLegal(sid, sweep, q, id, now);
    AfterIs(sweep, id, p.recs[id], now);
    if d.Some? { StepOne(q, d.value); }
    SweptExtends(sweep, p, i, now, q, if d.Some? then Step(q, d.value) else q);
  }

  lemma SweptExtends(sweep: Sweep, p: Projection, i: nat, now: real, q: Projection, q': Projection)
    requires i < |p.order| && (forall id | id in p.order :: id in p.recs) && Swept(sweep, p, i, now, q)
    requires forall j | 0 <= j < |p.order| && j != i :: p.order[j] in p.recs && p.order[j] != p.order[i]
    requires q'.order == q.order && q'.recs.Keys == q.recs.Keys
    requires p.order[i] in q'.recs && q'.recs[p.order[i]] == After(sweep, p.order[i], p.recs[p.order[i]], now)
    requires forall other | other in q.recs && other != p.order[i] :: q'.recs[other] == q.recs[other]
    ensures Swept(sweep, p, i + 1, now, q')
  {
    hide After;
  }

  lemma AfterIs(sweep: Sweep, id: Id, r: Record, now: real)
    ensures var d := Decide(sweep, id, r, now);
      After(sweep, id, r, now) == if d.Some? then Update(r, d.value) else r
  {
  }

  lemma InvOrder(sid: Id, p: Projection)
    requires Inv(sid, p)
    ensures forall id | id in p.order :: id in p.recs
  {
    hide PendingCount, RecordOk;
  }

  lemma {:induction false} SweepLegal(sid: Id, sweep: Sweep, p: Projection, i: nat, now: real)
    requires Inv(sid, p) && i <= |p.order| && forall id | id in p.order :: id in p.recs
    ensures LegalFrom(sid, p, SweepEvents(sweep, p.order[..i], p.recs, now))
    ensures Swept(sweep, p, i, now, FoldFrom(p, SweepEvents(sweep, p.order[..i], p.recs, now)))
  {
    if i > 0 {
      hide *;
      SweepLegal(sid, sweep, p, i - 1, now);
      var id := p.order[i - 1];
      var evs := SweepEvents(sweep, p.order[..i - 1], p.recs, now);
      var q := FoldFrom(p, evs);
      SweepStep(sweep, p.order, i - 1, p.recs, now);
      SweptStep(sid, sweep, p, i - 1, now, q);
      VisitedIs(sweep, id, p.recs[id], now);
      var d := Decide(sweep, id, p.recs[id], now);
      if d.Some? {
        LegalSnoc(sid, p, evs, d.value);
        FoldFromConcat(p, evs, [d.value]);
        FoldFromOne(q, d.value);
      } else {
        assert evs + [] == evs;
      }
    }
  }

  lemma VisitedIs(sweep: Sweep, id: Id, r: Record, now: real)
    ensures var d := Decide(sweep, id, r, now);
      Visited(sweep, id, r, now) == if d.Some? then [d.value] else []
  {
  }

  /** What a completed sweep does to each record. */
  lemma SweepResult(sid: Id, sweep: Sweep, p: Projection, now: real)
    requires Inv(sid, p)
    ensures LegalFrom(sid, p, SweepEvents(sweep, p.order, p.recs, now))
    ensures var q := FoldFrom(p, SweepEvents(sweep, p.order, p.recs, now));
      && q.order == p.order && q.recs.Keys == p.recs.Keys
      && forall id | id in p.recs :: q.recs[id] == After(sweep, id, p.recs[id], now)
  {
    InvOrder(sid, p);
    SweepLegal(sid, sweep, p, |p.order|, now);
    assert p.order[..|p.order|] == p.order;
    hide After, SweepEvents, FoldFrom, RecordOk, PendingCount, LegalFrom;
    var q := FoldFrom(p, SweepEvents(sweep, p.order, p.recs, now));
    forall id | id in p.recs ensures q.recs[id] == After(sweep, id, p.recs[id], now) {
      assert id in p.order;
      var j :| 0 <= j < |p.order| && p.order[j] == id;
    }
  }

  /** A sweep that decides nothing leaves no event behind. */
  lemma {:induction false} SilentSweep(sweep: Sweep, ids: seq<Id>, recs: map<Id, Record>, id: Id, now: real)
    requires SweepEvents(sweep, ids, recs, now) == [] && id in ids && id in recs
    ensures Decide(sweep, id, recs[id], now).None?
  {
    hide Decide;
    var last := ids[|ids| - 1];
    if last != id {
      assert id in ids[..|ids| - 1];
      SilentSweep(sweep, ids[..|ids| - 1], recs, id, now);
    }
  }

  lemma {:induction false} FirstEligibleIs(ids: seq<Id>, recs: map<Id, Record>, owner: Owner) returns (k: nat)
    requires FirstEligible(ids, recs, owner).Some?
    ensures k < |ids| && ids[k] == FirstEligible(ids, recs, owner).value
    ensures ids[k] in recs && Eligible(recs[ids[k]], owner)
    ensures forall j | 0 <= j < k :: ids[j] in recs ==> !Eligible(recs[ids[j]], owner)
  {
    if ids[0] in recs && Eligible(recs[ids[0]], owner) {
      k := 0;
    } else {
      k := FirstEligibleIs(ids[1..], recs, owner);
      k := k + 1;
    }
  }

  lemma LegalOne(sid: Id, p: Projection, e: Event)
    requires Legal(sid, p, e)
    ensures LegalFrom(sid, p, [e])
  {
    hide Legal, Step;
    assert LegalFrom(sid, Step(p, e), [e][1..]);
  }

  lemma ClaimLegal(sid: Id, p: Projection, id: Option<Id>, owner: Owner, now: real)
    requires Inv(sid, p) && owner.hash.HashOf?
    ensures LegalFrom(sid, p, PlanClaim(p, id, owner, now))
  {
    if PlanClaim(p, id, owner, now) == [] { return; }
    var r, deliver := p.recs[id.value], DeliverEvent(id.value, now);
    if r.deferred {
      var rebind := RebindEvent(id.value, owner, now);
      assert Legal(sid, p, rebind);
      ClaimStep(p, id.value, owner, now);
      assert Legal(sid, Step(p, rebind), deliver);
      LegalOne(sid, Step(p, rebind), deliver);
      hide Legal, Step, Inv;
      assert [rebind, deliver][1..] == [deliver];
    } else {
      assert Legal(sid, p, deliver);
      LegalOne(sid, p, deliver);
    }
  }

  /** The operations that append at most one event. */
  lemma SingleLegal(sid: Id, p: Projection, session: Option<Session>, op: Op, now: real)
    requires Inv(sid, p) && (op.Enqueue? || op.EnqueueDeferred? || op.RejectInput? || op.Acknowledge?)
    requires PlanOf(sid, p, session, op, now).Success?
    ensures LegalFrom(sid, p, PlanOf(sid, p, session, op, now).value)
  {
    hide LegalFrom, PendingCount, SafeId, ValidText, LiveOwner;
    var evs := PlanOf(sid, p, session, op, now).value;
    if evs == [] {
      LegalNone(sid, p);
    } else {
      LegalOne(sid, p, evs[0]);
      assert evs == [evs[0]];
    }
  }

  lemma LegalNone(sid: Id, p: Projection)
    ensures LegalFrom(sid, p, [])
  {
  }

  /** Whatever an operation decides to append keeps the log legal. */
  lemma PlanLegal(sid: Id, p: Projection, session: Option<Session>, op: Op, now: real)
    requires Inv(sid, p) && PlanOf(sid, p, session, op, now).Success?
    ensures LegalFrom(sid, p, PlanOf(sid, p, session, op, now).value)
  {
    hide Inv, LegalFrom, SweepEvents, PlanClaim, Head;
    LegalNone(sid, p);
    match op
    case ClaimNext(attempt, lease) =>
      var owner := Owner(attempt, HashOf(lease));
      ClaimLegal(sid, p, Head(p, owner), owner, now);
    case ClaimById(id, attempt, lease) =>
      ClaimLegal(sid, p, Some(id), Owner(attempt, HashOf(lease)), now);
    case MarkWaiting(attempt, lease, reason) =>
      SweepResult(sid, Waiting(Owner(attempt, HashOf(lease)), SafeReason(reason)), p, now);
    case RearmWait(attempt, lease) =>
      SweepResult(sid, Rearming(attempt), p, now);
    case Settle(attempt, lease, delivered, completed, succeeded) =>
      SweepResult(sid, Settling(Owner(attempt, HashOf(lease)), delivered, completed, succeeded), p, now);
    case Reconcile(seen) =>
      if seen.Some? { SweepResult(sid, Reconciling(seen.value), p, now); }
    case _ =>
      SingleLegal(sid, p, session, op, now);
  }

  // ---------- runs ----------

  /** `reading`: what the operation that holds the log's lock found when it read the session. */
  datatype World = World(session: Option<Session>, reading: Option<Option<Session>>, log: seq<Event>)

  /** The owner changes in any way; an operation takes the log's lock and reads the session; or that operation goes on
      until it ends or crashes after `survived` appends. The lock covers the log but not the session, so the owner may
      change between the reading and the appends. */
  datatype Move =
    | OwnerChanges(session: Option<Session>)
    | Begin
    | Operate(op: Op, now: real, survived: nat)

  function Written(sid: Id, w: World, m: Move): seq<Event> {
    if !m.Operate? || w.reading.None? then []
    else
      match PlanOf(sid, Fold(w.log), w.reading.value, m.op, m.now)
      case Failure(_) => []
      case Success(evs) => if m.survived <= |evs| then evs[..m.survived] else evs
  }

  function Next(sid: Id, w: World, m: Move): World {
    match m
    case OwnerChanges(session) => w.(session := session)
    case Begin => w.(reading := Some(w.session))
    case Operate(_, _, _) => World(w.session, None, w.log + Written(sid, w, m))
  }

  /** The world after a run that starts with an empty log. */
  function Run(sid: Id, moves: seq<Move>): World {
    if moves == [] then World(None, None, [])
    else Next(sid, Run(sid, moves[..|moves| - 1]), moves[|moves| - 1])
  }

  lemma WrittenLegal(sid: Id, w: World, m: Move)
    requires LegalLog(sid, w.log)
    ensures LegalFrom(sid, Fold(w.log), Written(sid, w, m))
  {
    LegalNone(sid, Fold(w.log));
    hide PlanOf, LegalLog, LegalFrom, Fold, Inv;
    if m.Operate? && w.reading.Some? {
      var plan := PlanOf(sid, Fold(w.log), w.reading.value, m.op, m.now);
      if plan.Success? {
        LegalLogInv(sid, w.log);
        PlanLegal(sid, Fold(w.log), w.reading.value, m.op, m.now);
        if m.survived <= |plan.value| {
          LegalPrefix(sid, Fold(w.log), plan.value, m.survived);
        }
      }
    }
  }

  lemma {:induction false} RunLegal(sid: Id, moves: seq<Move>)
    ensures LegalLog(sid, Run(sid, moves).log)
  {
    if moves != [] {
      hide LegalLog, LegalFrom, Fold, Written;
      var init := moves[..|moves| - 1];
      RunLegal(sid, init);
      var w, m := Run(sid, init), moves[|moves| - 1];
      if m.Operate? {
        WrittenLegal(sid, w, m);
        LegalAppend(sid, w.log, Written(sid, w, m));
      }
    }
  }

  lemma {:induction false} RunGrows(sid: Id, moves: seq<Move>, n: nat)
    requires n <= |moves|
    ensures Run(sid, moves[..n]).log <= Run(sid, moves).log
    decreases |moves|
  {
    if n == |moves| {
      assert moves[..n] == moves;
    } else {
      var init := moves[..|moves| - 1];
      RunGrows(sid, init, n);
      assert init[..n] == moves[..n];
    }
  }

  /** Main safety theorem: in every run, records satisfy the invariant, identities are fixed and
      ranks never fall from any earlier point on, and no message is delivered twice. */
  lemma RunSafe(sid: Id, moves: seq<Move>, n: nat)
    requires n <= |moves|
    ensures Inv(sid, Fold(Run(sid, moves).log))
    ensures Evolves(Fold(Run(sid, moves[..n]).log), Fold(Run(sid, moves).log))
    ensures var log := Run(sid, moves).log;
      forall i, j | 0 <= i < j < |log| && log[i].action.Deliver? && log[j].action.Deliver? :: log[i].id != log[j].id
  {
    var log := Run(sid, moves).log;
    RunLegal(sid, moves);
    LegalLogInv(sid, log);
    RunGrows(sid, moves, n);
    var k := |Run(sid, moves[..n]).log|;
    assert log[..k] == Run(sid, moves[..n]).log;
    LegalLogEvolves(sid, log, k);
    forall i, j | 0 <= i < j < |log| && log[i].action.Deliver? && log[j].action.Deliver? ensures log[i].id != log[j].id {
      AtMostOneDelivery(sid, log, i, j);
    }
  }

  // ---------- deliveries go to the owner that was read ----------

  /** The session names this live owner. */
  predicate Names(session: Option<Session>, attempt: int, lease: string) {
    session.Some? && LiveOwner(session.value, attempt, lease)
  }

  /** The move is a claim by the live owner of the session as it was read. */
  ghost predicate ClaimByLiveOwner(w: World, m: Move) {
    && m.Operate? && (m.op.ClaimNext? || m.op.ClaimById?)
    && w.reading.Some? && Names(w.reading.value, m.op.attempt, m.op.lease)
  }

  lemma SweepNeverDelivers(sweep: Sweep, ids: seq<Id>, recs: map<Id, Record>, now: real)
    ensures forall i | 0 <= i < |SweepEvents(sweep, ids, recs, now)| :: !SweepEvents(sweep, ids, recs, now)[i].action.Deliver?
  {
  }

  /** The only plans that deliver are claims, and they deliver to the owner they checked. */
  lemma PlanDelivers(sid: Id, p: Projection, session: Option<Session>, op: Op, now: real, i: nat) returns (id: Id)
    requires Inv(sid, p)
    requires PlanOf(sid, p, session, op, now).Success? && i < |PlanOf(sid, p, session, op, now).value|
    requires PlanOf(sid, p, session, op, now).value[i].action.Deliver?
    ensures op.ClaimNext? || op.ClaimById?
    ensures session.Some? && LiveOwner(session.value, op.attempt, op.lease)
    ensures var owner := Owner(op.attempt, HashOf(op.lease));
      id in p.recs && Eligible(p.recs[id], owner) &&
      PlanOf(sid, p, session, op, now).value == ClaimEvents(id, p.recs[id], owner, now)
  {
    id := "";
    match op
    case MarkWaiting(attempt, lease, reason) =>
      SweepNeverDelivers(Waiting(Owner(attempt, HashOf(lease)), SafeReason(reason)), p.order, p.recs, now);
    case RearmWait(attempt, lease) =>
      SweepNeverDelivers(Rearming(attempt), p.order, p.recs, now);
    case Settle(attempt, lease, delivered, completed, succeeded) =>
      SweepNeverDelivers(Settling(Owner(attempt, HashOf(lease)), delivered, completed, succeeded), p.order, p.recs, now);
    case Reconcile(seen) =>
      if seen.Some? { SweepNeverDelivers(Reconciling(seen.value), p.order, p.recs, now); }
    case ClaimNext(attempt, lease) =>
      id := Head(p, Owner(attempt, HashOf(lease))).value;
    case ClaimById(claimed, attempt, lease) =>
      id := claimed;
    case _ =>
  }

  lemma DeliveryNeedsOwner(sid: Id, w: World, m: Move, i: nat)
    requires LegalLog(sid, w.log)
    requires i < |Written(sid, w, m)| && Written(sid, w, m)[i].action.Deliver?
    ensures ClaimByLiveOwner(w, m)
    ensures var log := w.log + Written(sid, w, m)[..i];
      var id := Written(sid, w, m)[i].id;
      id in Fold(log).recs && Fold(log).recs[id].owner == Owner(m.op.attempt, HashOf(m.op.lease))
  {
    LegalLogInv(sid, w.log);
    hide PlanOf, Fold, Inv, Legal;
    var id := PlanDelivers(sid, Fold(w.log), w.reading.value, m.op, m.now, i);
    ClaimedOwner(w, m, id, i, sid);
  }

  lemma ClaimedOwner(w: World, m: Move, id: Id, i: nat, sid: Id)
    requires m.Operate? && (m.op.ClaimNext? || m.op.ClaimById?)
    requires id in Fold(w.log).recs && Eligible(Fold(w.log).recs[id], Owner(m.op.attempt, HashOf(m.op.lease)))
    requires var evs := ClaimEvents(id, Fold(w.log).recs[id], Owner(m.op.attempt, HashOf(m.op.lease)), m.now);
      Written(sid, w, m) <= evs && i < |Written(sid, w, m)| && evs[i].action.Deliver?
    ensures Written(sid, w, m)[i].id == id
    ensures var log := w.log + Written(sid, w, m)[..i];
      id in Fold(log).recs && Fold(log).recs[id].owner == Owner(m.op.attempt, HashOf(m.op.lease))
  {
    var r, owner := Fold(w.log).recs[id], Owner(m.op.attempt, HashOf(m.op.lease));
    if r.deferred {
      assert i == 1;
      assert w.log + Written(sid, w, m)[..i] == w.log + [RebindEvent(id, owner, m.now)];
      FoldAppend(w.log, RebindEvent(id, owner, m.now));
    } else {
      assert w.log + Written(sid, w, m)[..i] == w.log;
    }
  }

  lemma {:induction false} DeliveryIsClaim(sid: Id, moves: seq<Move>, i: nat) returns (n: nat)
    requires i < |Run(sid, moves).log| && Run(sid, moves).log[i].action.Deliver?
    ensures n < |moves| && ClaimByLiveOwner(Run(sid, moves[..n]), moves[n])
    ensures |Run(sid, moves[..n]).log| <= i < |Run(sid, moves[..n + 1]).log|
    ensures var log := Run(sid, moves).log;
      log[i].id in Fold(log[..i]).recs &&
      Fold(log[..i]).recs[log[i].id].owner == Owner(moves[n].op.attempt, HashOf(moves[n].op.lease))
  {
    hide PlanOf, Fold, LegalLog, Inv, LiveOwner, Written, ClaimByLiveOwner;
    var init := moves[..|moves| - 1];
    var w, m := Run(sid, init), moves[|moves| - 1];
    var log := Run(sid, moves).log;
    if i < |w.log| {
      n := DeliveryIsClaim(sid, init, i);
      assert init[..n] == moves[..n] && init[..n + 1] == moves[..n + 1];
      assert log[..i] == w.log[..i];
    } else {
      n := |moves| - 1;
      RunLegal(sid, init);
      DeliveryNeedsOwner(sid, w, m, i - |w.log|);
      assert log[..i] == w.log + Written(sid, w, m)[..i - |w.log|];
      assert moves[..n + 1] == moves;
    }
  }

  /** A reading stems from a move that took the lock; since then only the owner can have changed. */
  lemma {:induction false} ReadingStems(sid: Id, moves: seq<Move>) returns (b: nat)
    requires Run(sid, moves).reading.Some?
    ensures b < |moves| && moves[b].Begin? && forall k | b < k < |moves| :: moves[k].OwnerChanges?
    ensures Run(sid, moves).reading.value == Run(sid, moves[..b]).session
    ensures Run(sid, moves).log == Run(sid, moves[..b]).log
    ensures Run(sid, moves).session == if b + 1 == |moves| then Run(sid, moves[..b]).session else moves[|moves| - 1].session
  {
    hide Written;
    var n := |moves| - 1;
    var init, m := moves[..n], moves[n];
    if m.Begin? {
      b := n;
    } else {
      b := ReadingStems(sid, init);
      assert init[..b] == moves[..b];
      forall k | b < k < |moves| ensures moves[k].OwnerChanges? {
        if k < n { assert init[k] == moves[k]; }
      }
    }
  }

  /** Every delivery of a run was made by a claim, move `n`, that took the lock and read the session in move `b`: the
      session was then active under the claim's owner, the log has not changed in between, and the record belonged to
      exactly that owner when the delivery was written. The session still names that owner at the append exactly when
      nothing, or the last thing, that happened in between left it there. */
  lemma EveryDeliveryHadItsOwner(sid: Id, moves: seq<Move>, i: nat) returns (b: nat, n: nat)
    requires i < |Run(sid, moves).log| && Run(sid, moves).log[i].action.Deliver?
    ensures b < n < |moves| && moves[b].Begin? && moves[n].Operate? && forall k | b < k < n :: moves[k].OwnerChanges?
    ensures moves[n].op.ClaimNext? || moves[n].op.ClaimById?
    ensures Names(Run(sid, moves[..b]).session, moves[n].op.attempt, moves[n].op.lease)
    ensures Run(sid, moves[..n]).log == Run(sid, moves[..b]).log
    ensures |Run(sid, moves[..n]).log| <= i < |Run(sid, moves[..n + 1]).log|
    ensures var log := Run(sid, moves).log;
      log[i].id in Fold(log[..i]).recs &&
      Fold(log[..i]).recs[log[i].id].owner == Owner(moves[n].op.attempt, HashOf(moves[n].op.lease))
    ensures Names(Run(sid, moves[..n]).session, moves[n].op.attempt, moves[n].op.lease) <==>
      n == b + 1 || Names(moves[n - 1].session, moves[n].op.attempt, moves[n].op.lease)
  {
    hide Run, Fold, LiveOwner;
    n := DeliveryIsClaim(sid, moves, i);
    b := ReadingStems(sid, moves[..n]);
    assert moves[..n][..b] == moves[..b] && moves[..n][b] == moves[b];
    assert forall k | b < k < n :: moves[..n][k] == moves[k];
  }

  const FIRST_OWNER := Session(Running, 1, "first", Some(1), None, None)
  const SECOND_OWNER := Session(Running, 2, "second", Some(2), None, None)

  /** The owner takes the lock to claim a message, is replaced, and goes on. */
  function OvertakenRun(): seq<Move> {
    [ OwnerChanges(Some(FIRST_OWNER)),
      Begin, Operate(Op.Enqueue("text", 1, "first", "m", "", Some(FIRST_OWNER)), 1.0, 1),
      Begin, OwnerChanges(Some(SECOND_OWNER)), Operate(ClaimById("m", 1, "first"), 2.0, 1) ]
  }

  /** In that run the message is delivered to the first owner while the session names the second. */
  lemma OvertakenDelivery(sid: Id)
    ensures var w := Run(sid, OvertakenRun());
      && |w.log| == 2 && w.log[1] == DeliverEvent("m", 2.0)
      && w.session == Some(SECOND_OWNER) && !Names(w.session, 1, "first")
  {
    RunSix(sid, OvertakenRun());
    FirstEnqueues(sid);
    FirstClaims(sid);
  }

  lemma RunSix(sid: Id, m: seq<Move>)
    requires |m| == 6
    ensures Run(sid, m) ==
      Next(sid, Next(sid, Next(sid, Next(sid, Next(sid, Next(sid, World(None, None, []), m[0]), m[1]), m[2]), m[3]), m[4]), m[5])
  {
    hide Next;
    assert m[..5][..4] == m[..4] && m[..4][..3] == m[..3] && m[..3][..2] == m[..2] && m[..2][..1] == m[..1] && m[..1][..0] == [];
    assert Run(sid, m[..1]) == Next(sid, World(None, None, []), m[0]);
    assert Run(sid, m[..2]) == Next(sid, Run(sid, m[..1]), m[1]);
    assert Run(sid, m[..3]) == Next(sid, Run(sid, m[..2]), m[2]);
    assert Run(sid, m[..4]) == Next(sid, Run(sid, m[..3]), m[3]);
    assert Run(sid, m[..5]) == Next(sid, Run(sid, m[..4]), m[4]);
  }

  ghost function FirstAccept(sid: Id): Event {
    AcceptEvent("m", sid, Owner(1, HashOf("first")), "text", 1.0, None)
  }

  lemma FirstEnqueues(sid: Id)
    ensures Written(sid, World(Some(FIRST_OWNER), Some(Some(FIRST_OWNER)), []), OvertakenRun()[2]) == [FirstAccept(sid)]
  {
    assert Fold([]) == EMPTY;
    assert ValidText("text") by { assert !Text.IsBlank("text") by { assert !Text.IsSpace("text"[0]); } }
    assert SafeId("m");
    hide Fold, ValidText, SafeId;
  }

  lemma FirstRecord(sid: Id)
    ensures var recs := Fold([FirstAccept(sid)]).recs;
      "m" in recs && recs["m"].state == Accepted && !recs["m"].deferred && recs["m"].owner == Owner(1, HashOf("first"))
  {
    hide *;
    assert [FirstAccept(sid)] == [] + [FirstAccept(sid)];
    FoldAppend([], FirstAccept(sid));
    FoldNothing();
    FirstStep(sid);
  }

  lemma FoldNothing()
    ensures Fold([]) == EMPTY
  {
  }

  lemma FirstStep(sid: Id)
    ensures var recs := Step(EMPTY, FirstAccept(sid)).recs;
      "m" in recs && recs["m"].state == Accepted && !recs["m"].deferred && recs["m"].owner == Owner(1, HashOf("first"))
  {
  }

  lemma FirstClaims(sid: Id)
    ensures Written(sid, World(Some(SECOND_OWNER), Some(Some(FIRST_OWNER)), [FirstAccept(sid)]), OvertakenRun()[5])
      == [DeliverEvent("m", 2.0)]
  {
    FirstRecord(sid);
    assert CheckOwner(Some(FIRST_OWNER), 1, "first").None?;
    assert OvertakenRun()[5] == Operate(ClaimById("m", 1, "first"), 2.0, 1);
    hide Fold, CheckOwner, FirstAccept, OvertakenRun;
    PlanClaimed(sid, Fold([FirstAccept(sid)]));
  }

  lemma PlanClaimed(sid: Id, p: Projection)
    requires "m" in p.recs && p.recs["m"].state == Accepted && !p.recs["m"].deferred && p.recs["m"].owner == Owner(1, HashOf("first"))
    requires CheckOwner(Some(FIRST_OWNER), 1, "first").None?
    ensures PlanOf(sid, p, Some(FIRST_OWNER), ClaimById("m", 1, "first"), 2.0) == Success([DeliverEvent("m", 2.0)])
  {
    hide CheckOwner;
    assert [] + [DeliverEvent("m", 2.0)] == [DeliverEvent("m", 2.0)];
  }

  // ---------- which message is claimed ----------

  function Position(order: seq<Id>, id: Id): nat {
    if order == [] || order[0] == id then 0 else 1 + Position(order[1..], id)
  }

  /** `a` was accepted before `b`, or at the same instant but entered the log first. */
  predicate AcceptedBefore(p: Projection, a: Id, b: Id) {
    Time(p.recs, a) < Time(p.recs, b)
    || (Time(p.recs, a) == Time(p.recs, b) && Position(p.order, a) < Position(p.order, b))
  }

  /** `id` is the earliest-accepted message that `owner` may be given. */
  ghost predicate EarliestEligible(p: Projection, owner: Owner, id: Id) {
    && id in p.recs && Eligible(p.recs[id], owner)
    && forall other | other in p.recs && other != id && Eligible(p.recs[other], owner) :: AcceptedBefore(p, id, other)
  }

  lemma {:induction false} PositionPrefix(order: seq<Id>, last: Id, id: Id)
    requires id in order
    ensures Position(order + [last], id) == Position(order, id) < |order|
  {
    if order[0] != id {
      assert (order + [last])[1..] == order[1..] + [last];
      PositionPrefix(order[1..], last, id);
    }
  }

  lemma {:induction false} PositionLast(order: seq<Id>, last: Id)
    requires last !in order
    ensures Position(order + [last], last) == |order|
  {
    if order != [] {
      assert (order + [last])[1..] == order[1..] + [last];
      PositionLast(order[1..], last);
    }
  }

  ghost predicate Ordered(order: seq<Id>, recs: map<Id, Record>, s: seq<Id>) {
    forall i, j | 0 <= i < j < |s| :: AcceptedBefore(Projection(order, recs), s[i], s[j])
  }

  lemma {:induction false} InsertOrdered(order: seq<Id>, recs: map<Id, Record>, s: seq<Id>, id: Id)
    requires Ordered(order, recs, s) && forall a | a in s :: Position(order, a) < Position(order, id)
    ensures Ordered(order, recs, InsertByTime(s, id, recs))
  {
    if s == [] || Time(recs, s[|s| - 1]) <= Time(recs, id) {
    } else {
      var init, last := s[..|s| - 1], s[|s| - 1];
      InsertOrdered(order, recs, init, id);
      InsertMembers(init, id, recs);
      var t := InsertByTime(init, id, recs);
      forall i | 0 <= i < |t| ensures AcceptedBefore(Projection(order, recs), t[i], last) {
        assert t[i] in multiset(t);
        if t[i] != id {
          assert t[i] in multiset(init);
          assert t[i] in init;
        }
      }
    }
  }

  /** The sort puts the records in acceptance order, ties in log order. */
  lemma {:induction false} SortOrdered(order: seq<Id>, recs: map<Id, Record>)
    requires Distinct(order)
    ensures Ordered(order, recs, SortByTime(order, recs))
  {
    if order != [] {
      var init, last := order[..|order| - 1], order[|order| - 1];
      SortOrdered(init, recs);
      SortMembers(init, recs);
      var s := SortByTime(init, recs);
      assert order == init + [last];
      forall a | a in init ensures Position(order, a) == Position(init, a) < |init| {
        PositionPrefix(init, last, a);
      }
      PositionLast(init, last);
      forall i, j | 0 <= i < j < |s| ensures AcceptedBefore(Projection(order, recs), s[i], s[j]) {
        assert AcceptedBefore(Projection(init, recs), s[i], s[j]);
        assert s[i] in init && s[j] in init;
      }
      InsertOrdered(order, recs, s, last);
    }
  }

  /** What claim and peek agree on is exactly the earliest eligible message, if there is one. */
  lemma FirstIsEarliest(sid: Id, p: Projection, owner: Owner)
    requires Inv(sid, p)
    ensures var first := Head(p, owner);
      if first.Some? then EarliestEligible(p, owner, first.value)
      else forall id | id in p.recs :: !Eligible(p.recs[id], owner)
  {
    var ids := SortByTime(p.order, p.recs);
    SortOrdered(p.order, p.recs);
    SortMembers(p.order, p.recs);
    if FirstEligible(ids, p.recs, owner).Some? {
      var k := FirstEligibleIs(ids, p.recs, owner);
      forall other | other in p.recs && other != ids[k] && Eligible(p.recs[other], owner)
        ensures AcceptedBefore(p, ids[k], other)
      {
        assert other in ids;
        var j :| 0 <= j < |ids| && ids[j] == other;
        assert AcceptedBefore(Projection(p.order, p.recs), ids[k], ids[j]);
      }
    } else {
      forall id | id in p.recs ensures !Eligible(p.recs[id], owner) {
        assert id in ids;
        NoneEligible(ids, p.recs, owner, id);
      }
    }
  }

  lemma {:induction false} NoneEligible(ids: seq<Id>, recs: map<Id, Record>, owner: Owner, id: Id)
    requires FirstEligible(ids, recs, owner).None? && id in ids && id in recs
    ensures !Eligible(recs[id], owner)
  {
    if ids[0] != id { NoneEligible(ids[1..], recs, owner, id); }
  }

  /** In every reachable world, `peek_next` names exactly the message that `claim_next` with the same arguments and the
      same reading of the session then delivers, and it is the earliest-accepted one that this owner may be given. */
  lemma PeekNamesTheClaim(sid: Id, moves: seq<Move>, session: Option<Session>, attempt: int, lease: string, now: real)
    ensures var w := Run(sid, moves);
      var p := Fold(w.log);
      var peek := Peek(p, session, attempt, lease);
      var plan := PlanOf(sid, p, session, ClaimNext(attempt, lease), now);
      && (peek.Failure? <==> plan.Failure?)
      && (peek.Success? ==> (peek.value.None? <==> plan.value == []))
      && (peek.Success? && peek.value.Some? ==>
            && EarliestEligible(p, Owner(attempt, HashOf(lease)), peek.value.value.id)
            && plan.value[|plan.value| - 1] == DeliverEvent(peek.value.value.id, now)
            && peek.value.value.id in FoldFrom(p, plan.value).recs
            && FoldFrom(p, plan.value).recs[peek.value.value.id].state == Delivered)
  {
    var w := Run(sid, moves);
    RunLegal(sid, moves);
    LegalLogInv(sid, w.log);
    var p := Fold(w.log);
    var owner := Owner(attempt, HashOf(lease));
    FirstIsEarliest(sid, p, owner);
    var first := Head(p, owner);
    if first.Some? && CheckOwner(session, attempt, lease).None? {
      var evs := ClaimEvents(first.value, p.recs[first.value], owner, now);
      if |evs| == 2 {
        assert evs == [evs[0]] + [evs[1]];
        FoldFromConcat(p, [evs[0]], [evs[1]]);
        assert FoldFrom(Step(p, evs[0]), [evs[1]]) == Step(Step(p, evs[0]), evs[1]);
        assert FoldFrom(p, [evs[0]]) == Step(p, evs[0]);
      } else {
        assert FoldFrom(p, evs) == Step(p, evs[0]);
      }
    }
  }

  // ---------- accounting ----------

  /** How settling ends a record: late input of the owner is rejected, its consumed input is closed, and nothing else
      changes. */
  predicate Settled(sweep: Sweep, id: Id, r: Record, r': Record)
    requires sweep.Settling?
  {
    if r.owner == sweep.owner && r.state == Delivered && id in sweep.delivered then
      r'.state == (if sweep.succeeded || id in sweep.completed then State.Completed else State.Failed) && r'.owner == r.owner
    else if r.owner == sweep.owner && r.state == Accepted then r'.state == Rejected && r'.owner == r.owner
    else r' == r
  }

  lemma SettleOne(sid: Id, sweep: Sweep, id: Id, r: Record, now: real)
    requires sweep.Settling? && sweep.owner.hash.HashOf? && RecordOk(sid, r)
    ensures Settled(sweep, id, r, After(sweep, id, r, now))
    ensures r.owner == sweep.owner && Decide(sweep, id, r, now).None? ==> Consumed(sweep, id, r)
  {
  }

  /** After a settlement nothing of that owner is still accepted: its late messages were rejected and its consumed ones
      completed or failed; every other record is exactly as it was. */
  lemma SettleLeavesNothing(sid: Id, p: Projection, attempt: int, lease: string, delivered: set<Id>, completed: set<Id>,
                            succeeded: bool, now: real)
    requires Inv(sid, p)
    ensures var settle := Settling(Owner(attempt, HashOf(lease)), delivered, completed, succeeded);
      var q := FoldFrom(p, PlanSettle(p, attempt, lease, delivered, completed, succeeded, now));
      && q.recs.Keys == p.recs.Keys
      && (forall id | id in p.recs :: Settled(settle, id, p.recs[id], q.recs[id]))
      && (forall id | id in q.recs && q.recs[id].owner == settle.owner :: q.recs[id].state != Accepted)
  {
    var settle := Settling(Owner(attempt, HashOf(lease)), delivered, completed, succeeded);
    RecordsOk(sid, p);
    hide Inv, SweepEvents, FoldFrom, After, RecordOk, Decide;
    SweepResult(sid, settle, p, now);
    forall id | id in p.recs {
      SettleOne(sid, settle, id, p.recs[id], now);
    }
  }

  lemma SilentSettle(sid: Id, p: Projection, settle: Sweep, now: real)
    requires Inv(sid, p) && settle.Settling? && settle.owner.hash.HashOf?
    requires SweepEvents(settle, p.order, p.recs, now) == []
    ensures forall id | id in p.recs && p.recs[id].owner == settle.owner :: Consumed(settle, id, p.recs[id])
  {
    RecordsOk(sid, p);
    hide *;
    forall id | id in p.recs && p.recs[id].owner == settle.owner ensures Consumed(settle, id, p.recs[id]) {
      SettleOne(sid, settle, id, p.recs[id], now);
      SilentSweep(settle, p.order, p.recs, id, now);
    }
  }

  /** The owner's message neither waits nor is among the consumed ones that are still to be closed. */
  predicate Consumed(settle: Sweep, id: Id, r: Record)
    requires settle.Settling?
  {
    r.state != Accepted && !(r.state == Delivered && id in settle.delivered)
  }

  /** When a settlement wrote nothing, nothing of the owner was waiting, and the receipts that are then read reconcile
      every record against the session they saw. */
  lemma SettleThenReceipts(sid: Id, p: Projection, session: Session, attempt: int, lease: string, delivered: set<Id>,
                           completed: set<Id>, succeeded: bool, now: real)
    requires Inv(sid, p) && PlanSettle(p, attempt, lease, delivered, completed, succeeded, now) == []
    ensures var settle := Settling(Owner(attempt, HashOf(lease)), delivered, completed, succeeded);
      var q := FoldFrom(p, PlanReceipts(p, Some(session), now));
      && q.recs.Keys == p.recs.Keys
      && (forall id | id in p.recs :: Reconciled(session, p.recs[id], q.recs[id]))
      && (forall id | id in p.recs && p.recs[id].owner == settle.owner ::
            Consumed(settle, id, p.recs[id]) && q.recs[id].state != Accepted)
  {
    var settle := Settling(Owner(attempt, HashOf(lease)), delivered, completed, succeeded);
    assert SweepEvents(settle, p.order, p.recs, now) == [];
    hide Inv, SweepEvents, FoldFrom, PlanReceipts, PlanSettle, Rank, Active;
    SilentSettle(sid, p, settle, now);
    ReceiptsReconcile(sid, p, session, now);
  }

  lemma RecordsOk(sid: Id, p: Projection)
    requires Inv(sid, p)
    ensures forall id | id in p.recs :: RecordOk(sid, p.recs[id]) && id in p.order
  {
  }

  /** What reconciling against an observed session leaves of a record. */
  predicate Reconciled(session: Session, r: Record, r': Record) {
    && (!Active(session.status) ==> Rank(r'.state) == 3 || r'.deferred)
    && (session.status == Deleted ==> Rank(r'.state) == 3)
    && (Active(session.status) ==>
          || Rank(r'.state) == 3 || r'.deferred
          || r'.owner == Owner(session.attempt, HashOf(session.leaseToken)))
    && (r' != r ==> r'.state == Rejected)
  }

  lemma ReconcileOne(sid: Id, session: Session, id: Id, r: Record, now: real)
    requires RecordOk(sid, r)
    ensures Reconciled(session, r, After(Reconciling(session), id, r, now))
  {
  }

  /** After a completed `receipts`, every message is terminal or deferred if the session it saw is inactive,
      all are terminal if that session is deleted, and otherwise only messages of its present owner wait. */
  lemma ReceiptsReconcile(sid: Id, p: Projection, session: Session, now: real)
    requires Inv(sid, p)
    ensures var q := FoldFrom(p, PlanReceipts(p, Some(session), now));
      && q.recs.Keys == p.recs.Keys
      && forall id | id in q.recs :: Reconciled(session, p.recs[id], q.recs[id])
  {
    assert PlanReceipts(p, Some(session), now) == SweepEvents(Reconciling(session), p.order, p.recs, now);
    RecordsOk(sid, p);
    hide *;
    SweepResult(sid, Reconciling(session), p, now);
    forall id | id in p.recs {
      ReconcileOne(sid, session, id, p.recs[id], now);
    }
  }

  /** An accepted message that is unowned or this owner's goes back to the unowned queue with the
      reason; every other record is untouched. */
  predicate Released(sweep: Sweep, r: Record, r': Record)
    requires sweep.Waiting?
  {
    if r.state == Accepted && (r.deferred || r.owner == sweep.owner)
    then r'.deferred && r'.state == Accepted && r'.recoveryError == sweep.reason && r'.owner.hash.Unowned?
    else r' == r
  }

  lemma WaitOne(sid: Id, sweep: Sweep, id: Id, r: Record, now: real)
    requires sweep.Waiting? && RecordOk(sid, r)
    ensures Released(sweep, r, After(sweep, id, r, now))
  {
  }

  /** Waiting for recovery gives up every undelivered message of the owner and takes no other owner's. */
  lemma WaitingReleases(sid: Id, p: Projection, session: Option<Session>, attempt: int, lease: string, reason: string, now: real)
    requires Inv(sid, p) && PlanMarkWaiting(p, session, attempt, lease, reason, now).Success?
    ensures SafeReason(reason) != ""
    ensures var q := FoldFrom(p, PlanMarkWaiting(p, session, attempt, lease, reason, now).value);
      && q.recs.Keys == p.recs.Keys
      && forall id | id in p.recs ::
           Released(Waiting(Owner(attempt, HashOf(lease)), SafeReason(reason)), p.recs[id], q.recs[id])
  {
    var sweep := Waiting(Owner(attempt, HashOf(lease)), SafeReason(reason));
    assert SafeReason(reason) != "";
    RecordsOk(sid, p);
    hide Inv, SweepEvents, FoldFrom, After, Released, SafeReason, RecordOk;
    SweepResult(sid, sweep, p, now);
    forall id | id in p.recs {
      WaitOne(sid, sweep, id, p.recs[id], now);
    }
  }

  /** The message ID that an `enqueue` uses. */
  function EnqueuedId(op: Op): Id
    requires op.Enqueue?
  {
    if op.messageId == "" then op.uuid else op.messageId
  }

  /** What a successful `enqueue` appends: nothing when the message is known, and otherwise its acceptance. */
  lemma EnqueuePlan(sid: Id, p: Projection, session: Option<Session>, op: Op, now: real)
    requires op.Enqueue? && PlanOf(sid, p, session, op, now).Success?
    ensures var evs := PlanOf(sid, p, session, op, now).value;
      var id := EnqueuedId(op);
      if id in p.recs then evs == [] && p.recs[id].text == op.text && p.recs[id].session == sid
      else evs == [AcceptEvent(id, sid, Owner(op.attempt, HashOf(op.lease)), op.text, now, None)]
  {
    hide SafeId, ValidText, CheckOwner, PendingCount;
  }

  lemma AcceptedFold(sid: Id, log: seq<Event>, e: Event)
    requires e.action.Accept? && e.session == Some(sid) && e.text.Some?
    ensures var after := Fold(log + [e]).recs;
      e.id in after && after[e.id].text == e.text.value && after[e.id].session == sid
  {
    hide Fold;
    FoldAppend(log, e);
  }

  lemma EnqueueStores(sid: Id, w: World, m: Move)
    requires m.Operate? && m.op.Enqueue? && m.survived > 0
    requires w.reading.Some? && PlanOf(sid, Fold(w.log), w.reading.value, m.op, m.now).Success?
    ensures var after := Fold(Next(sid, w, m).log).recs;
      EnqueuedId(m.op) in after && after[EnqueuedId(m.op)].text == m.op.text && after[EnqueuedId(m.op)].session == sid
  {
    EnqueuePlan(sid, Fold(w.log), w.reading.value, m.op, m.now);
    hide Fold, PlanOf, EnqueuedId;
    var id := EnqueuedId(m.op);
    if id in Fold(w.log).recs {
      assert w.log + [] == w.log;
    } else {
      var e := AcceptEvent(id, sid, Owner(m.op.attempt, HashOf(m.op.lease)), m.op.text, m.now, None);
      assert Written(sid, w, m) == [e];
      AcceptedFold(sid, w.log, e);
    }
  }

  /** A retry of a stored `enqueue`, at any later time of any run and by whatever live owner, appends nothing: it answers
      with the record when the text and the record's attempt agree, and is refused otherwise. */
  lemma EnqueueRetry(sid: Id, moves: seq<Move>, n: nat, retry: Op, session: Option<Session>, later: real)
    requires n < |moves| && moves[n].Operate? && moves[n].op.Enqueue? && moves[n].survived > 0
    requires Run(sid, moves[..n]).reading.Some?
    requires PlanOf(sid, Fold(Run(sid, moves[..n]).log), Run(sid, moves[..n]).reading.value, moves[n].op, moves[n].now).Success?
    requires retry.Enqueue? && retry.messageId == EnqueuedId(moves[n].op) && retry.messageId != ""
    requires ValidText(retry.text) && retry.attempt >= 1 && retry.lease != "" && SafeId(retry.messageId)
    requires CheckOwner(retry.early, retry.attempt, retry.lease).None?
    ensures var w := Run(sid, moves);
      var recs := Fold(w.log).recs;
      && retry.messageId in recs && recs[retry.messageId].text == moves[n].op.text
      && PlanOf(sid, Fold(w.log), session, retry, later) ==
           if retry.text == moves[n].op.text && retry.attempt == recs[retry.messageId].owner.attempt then Success([])
           else Failure(ValueError)
  {
    var id := retry.messageId;
    var w := Run(sid, moves[..n]);
    RunLegal(sid, moves[..n]);
    EnqueueStores(sid, w, moves[n]);
    NextMove(sid, moves, n);
    RunSafe(sid, moves, n + 1);
    hide PlanOf, Fold, Run, Next, LegalLog, Inv, SafeId, ValidText;
    assert Evolves(Fold(Run(sid, moves[..n + 1]).log), Fold(Run(sid, moves).log));
    RetryPlan(sid, Fold(Run(sid, moves).log), session, retry, later);
  }

  lemma NextMove(sid: Id, moves: seq<Move>, n: nat)
    requires n < |moves|
    ensures Run(sid, moves[..n + 1]) == Next(sid, Run(sid, moves[..n]), moves[n])
  {
    assert moves[..n + 1][..n] == moves[..n];
    hide Next;
  }

  lemma RetryPlan(sid: Id, p: Projection, session: Option<Session>, retry: Op, now: real)
    requires retry.Enqueue? && retry.messageId != "" && retry.messageId in p.recs && p.recs[retry.messageId].session == sid
    requires ValidText(retry.text) && retry.attempt >= 1 && retry.lease != "" && SafeId(retry.messageId)
    requires CheckOwner(retry.early, retry.attempt, retry.lease).None?
    ensures PlanOf(sid, p, session, retry, now) ==
      if retry.text == p.recs[retry.messageId].text && retry.attempt == p.recs[retry.messageId].owner.attempt then Success([])
      else Failure(ValueError)
  {
    hide SafeId, ValidText, CheckOwner, PendingCount;
  }
}
