/** What the inbox operations mean for the records, said without events: which operations are refused, what each one
    leaves of every record, and, over runs, that what is stored and claimed is what the callers asked for. */
module InputInboxLaws {
  import opened Wrappers
  import opened Sessions
  import opened InputInbox
  import opened InputInboxRuns
  import Text

  // ---------- which operations are refused ----------

  /** An active session with a worker, of this attempt and lease. */
  predicate Live(s: Option<Session>, attempt: int, lease: string) {
    && s.Some? && s.value.attempt == attempt && s.value.leaseToken == lease && s.value.workerPid.Some?
    && s.value.status in {Queued, Starting, Running, WaitingApproval, WaitingInput, Retrying, Cancelling}
  }

  /** A session that still exists, of this attempt and lease. */
  predicate Same(s: Option<Session>, attempt: int, lease: string) {
    s.Some? && s.value.status != Deleted && s.value.attempt == attempt && s.value.leaseToken == lease
  }

  predicate IdChar(c: char) {
    'A' <= c <= 'Z' || 'a' <= c <= 'z' || '0' <= c <= '9' || c == '_' || c == '-'
  }

  /** A text that says something, of at most 64,000 characters, under an ID of 1 to 128 letters, digits, `_` and `-`. */
  ghost predicate Admissible(text: string, id: Id) {
    && |text| <= 64_000 && (exists i | 0 <= i < |text| :: !Text.IsSpace(text[i]))
    && 1 <= |id| <= 128 && forall i | 0 <= i < |id| :: IdChar(id[i])
  }

  /** The messages that are neither delivered nor closed. */
  ghost function Undelivered(p: Projection): set<Id> {
    set id | id in p.recs && (p.recs[id].state == Accepted || p.recs[id].state == Claimed)
  }

  function UsedId(messageId: string, uuid: Id): Id {
    if messageId == "" then uuid else messageId
  }

  ghost predicate Refused(sid: Id, p: Projection, session: Option<Session>, op: Op) {
    match op
    case Enqueue(text, attempt, lease, messageId, uuid, early) =>
      var id := UsedId(messageId, uuid);
      || !Admissible(text, id) || attempt < 1 || lease == "" || !Live(early, attempt, lease)
      || (if id in p.recs then p.recs[id].session != sid || p.recs[id].text != text || p.recs[id].owner.attempt != attempt
          else |Undelivered(p)| >= 64 || !Live(session, attempt, lease))
    case EnqueueDeferred(text, attempt, lease, messageId, uuid, early) =>
      var id := UsedId(messageId, uuid);
      || !Admissible(text, id) || attempt < 0 || !Same(early, attempt, lease)
      || (if id in p.recs then p.recs[id].session != sid || p.recs[id].text != text
          else |Undelivered(p)| >= 64 || !Same(session, attempt, lease))
    case ClaimNext(attempt, lease) => !Live(session, attempt, lease)
    case ClaimById(_, attempt, lease) => !Live(session, attempt, lease)
    case MarkWaiting(attempt, lease, _) => !Live(session, attempt, lease)
    case RearmWait(attempt, lease) =>
      !(session.Some? && session.value.attempt == attempt && session.value.leaseToken == lease &&
        session.value.status in {Status.Completed, Status.Failed, Orphaned, Cancelled, Archived})
    case RejectInput(id, attempt, lease, _) =>
      !(id in p.recs && p.recs[id].state in {Accepted, Claimed, Delivered} && p.recs[id].owner == Owner(attempt, HashOf(lease)))
    case Acknowledge(id, attempt, lease) =>
      !(id in p.recs && (p.recs[id].state == Delivered ||
        (p.recs[id].state == Claimed && p.recs[id].owner == Owner(attempt, HashOf(lease)) && Live(session, attempt, lease))))
    case Settle(_, _, _, _, _) => false
    case Reconcile(_) => false
  }

  ghost function UndeliveredOf(order: seq<Id>, recs: map<Id, Record>): set<Id> {
    set id | id in order && id in recs && (recs[id].state == Accepted || recs[id].state == Claimed)
  }

  lemma UndeliveredSplit(order: seq<Id>, recs: map<Id, Record>)
    requires order != [] && Distinct(order)
    ensures var init, last := order[..|order| - 1], order[|order| - 1];
      var more := if last in recs && Pending(recs[last]) then {last} else {};
      && Distinct(init) && UndeliveredOf(order, recs) == UndeliveredOf(init, recs) + more && UndeliveredOf(init, recs) !! more
  {
    var init, last := order[..|order| - 1], order[|order| - 1];
    assert order == init + [last] && last !in init;
    var more := if last in recs && Pending(recs[last]) then {last} else {};
    forall id ensures id in UndeliveredOf(order, recs) <==> id in UndeliveredOf(init, recs) + more { }
  }

  lemma {:induction false} CountIs(order: seq<Id>, recs: map<Id, Record>)
    requires Distinct(order)
    ensures PendingCount(order, recs) == |UndeliveredOf(order, recs)|
  {
    if order == [] {
      assert UndeliveredOf(order, recs) == {};
    } else {
      UndeliveredSplit(order, recs);
      hide Distinct, UndeliveredOf, Pending;
      CountIs(order[..|order| - 1], recs);
    }
  }

  lemma CountsWaiting(p: Projection)
    requires Wf(p)
    ensures PendingCount(p.order, p.recs) == |Undelivered(p)|
  {
    CountIs(p.order, p.recs);
    assert UndeliveredOf(p.order, p.recs) == Undelivered(p);
  }

  lemma AdmissibleIs(text: string, id: Id)
    ensures Admissible(text, id) <==> ValidText(text) && SafeId(id)
  {
    hide Text.IsSpace;
    if SafeId(id) { forall i | 0 <= i < |id| ensures IdChar(id[i]) { } }
    if Admissible(text, id) { forall i | 0 <= i < |id| ensures IdChar(id[i]) { } }
  }

  lemma LiveIs(s: Option<Session>, attempt: int, lease: string)
    ensures Live(s, attempt, lease) <==> CheckOwner(s, attempt, lease).None?
  {
  }

  /** Exactly which operations raise, on every well-formed log. */
  lemma RefusedExactly(sid: Id, p: Projection, session: Option<Session>, op: Op, now: real)
    requires Wf(p)
    ensures PlanOf(sid, p, session, op, now).Failure? <==> Refused(sid, p, session, op)
  {
    CountsWaiting(p);
    match op
    case Enqueue(text, attempt, lease, messageId, uuid, early) =>
      AdmissibleIs(text, UsedId(messageId, uuid));
      LiveIs(early, attempt, lease);
      LiveIs(session, attempt, lease);
      hide Admissible, ValidText, SafeId, Live, CheckOwner, Undelivered, PendingCount;
    case EnqueueDeferred(text, attempt, lease, messageId, uuid, early) =>
      AdmissibleIs(text, UsedId(messageId, uuid));
      hide Admissible, ValidText, SafeId, Undelivered, PendingCount;
    case ClaimNext(attempt, lease) => LiveIs(session, attempt, lease);
    case ClaimById(_, attempt, lease) => LiveIs(session, attempt, lease);
    case MarkWaiting(attempt, lease, _) => LiveIs(session, attempt, lease);
    case Acknowledge(id, attempt, lease) => LiveIs(session, attempt, lease);
    case _ =>
  }

  // ---------- what an operation leaves of every record ----------

  function Get(p: Projection, id: Id): Option<Record> {
    if id in p.recs then Some(p.recs[id]) else None
  }

  /** Accepted, and unowned or this owner's. */
  predicate MayHave(r: Record, owner: Owner) {
    r.state == Accepted && (r.deferred || r.owner == owner)
  }

  /** The oldest message that the owner may have; of equally old ones the first in the log. */
  ghost predicate Oldest(p: Projection, owner: Owner, id: Id) {
    && id in p.recs && MayHave(p.recs[id], owner)
    && (forall other | other in p.recs && MayHave(p.recs[other], owner) :: p.recs[id].acceptedAt <= p.recs[other].acceptedAt)
    && forall i, j | 0 <= i < j < |p.order| && p.order[j] == id && p.order[i] in p.recs && MayHave(p.recs[p.order[i]], owner) ::
         p.recs[id].acceptedAt < p.recs[p.order[i]].acceptedAt
  }

  function Claimed1(r: Record, owner: Owner, now: real): Record {
    r.(state := Delivered, owner := owner, deferred := false, changedAt := now,
       recoveryError := if r.deferred then "" else r.recoveryError)
  }

  /** The reason kept with a message that waits: 240 characters of it, or a standing text. */
  function Reason(reason: string): string {
    var r := Text.Strip(reason);
    if r == "" then "Waiting for explicit recovery action." else if |r| <= 240 then r else r[..240]
  }

  /** What becomes of the record under `id`; `claimed` is the message a claim takes. */
  predicate Leaves(sid: Id, op: Op, claimed: Option<Id>, id: Id, r: Option<Record>, r': Option<Record>, now: real) {
    match op
    case Enqueue(text, attempt, lease, messageId, uuid, _) =>
      if id == UsedId(messageId, uuid) && r.None?
      then r' == Some(Record(sid, Owner(attempt, HashOf(lease)), text, now, Accepted, now, false, "", "")) else r' == r
    case EnqueueDeferred(text, attempt, _, messageId, uuid, _) =>
      if id != UsedId(messageId, uuid) then r' == r
      else if r.None? then r' == Some(Record(sid, Owner(attempt, Unowned), text, now, Accepted, now, true, "", ""))
      else if r.value.state == Accepted && !r.value.deferred
      then r' == Some(r.value.(owner := Owner(attempt, Unowned), deferred := true, changedAt := now))
      else r' == r
    case ClaimNext(attempt, lease) =>
      if claimed == Some(id) && r.Some? then r' == Some(Claimed1(r.value, Owner(attempt, HashOf(lease)), now)) else r' == r
    case ClaimById(_, attempt, lease) =>
      if claimed == Some(id) && r.Some? then r' == Some(Claimed1(r.value, Owner(attempt, HashOf(lease)), now)) else r' == r
    case MarkWaiting(attempt, lease, reason) =>
      if r.Some? && MayHave(r.value, Owner(attempt, HashOf(lease)))
      then r' == Some(r.value.(owner := Owner(attempt, Unowned), deferred := true, recoveryError := Reason(reason), changedAt := now))
      else r' == r
    case RearmWait(attempt, _) =>
      if r.Some? && r.value.state == Accepted && r.value.deferred && r.value.recoveryError != ""
      then r' == Some(r.value.(owner := Owner(attempt, Unowned), recoveryError := "", changedAt := now)) else r' == r
    case RejectInput(named, _, _, reason) =>
      if id == named && r.Some?
      then r' == Some(r.value.(state := Rejected, error := if |reason| <= 240 then reason else reason[..240], changedAt := now))
      else r' == r
    case Acknowledge(_, _, _) => r' == r
    case Settle(attempt, lease, delivered, completed, succeeded) =>
      if r.None? || r.value.owner != Owner(attempt, HashOf(lease)) then r' == r
      else if id in delivered && r.value.state == Delivered then
        if succeeded || id in completed then r' == Some(r.value.(state := State.Completed, changedAt := now))
        else r' == Some(r.value.(state := State.Failed, error := WORKER_FAILED, changedAt := now))
      else if r.value.state == Accepted then r' == Some(r.value.(state := Rejected, error := LATE_INPUT, changedAt := now))
      else r' == r
    case Reconcile(seen) =>
      if seen.None? || r.None? || (r.value.state != Accepted && r.value.state != Delivered) then r' == r
      else if r.value.deferred then
        r' == if seen.value.status == Deleted
              then Some(r.value.(state := Rejected, error := SESSION_DELETED, changedAt := now)) else r
      else if r.value.owner == Owner(seen.value.attempt, HashOf(seen.value.leaseToken)) &&
        seen.value.status in {Queued, Starting, Running, WaitingApproval, WaitingInput, Retrying, Cancelling} then r' == r
      else r' == Some(r.value.(state := Rejected, error := OWNER_GONE, changedAt := now))
  }

  /** The message that a claim takes: the named one if the owner may have it, or the oldest. */
  ghost predicate Takes(p: Projection, op: Op, claimed: Option<Id>) {
    match op
    case ClaimNext(attempt, lease) =>
      if claimed.Some? then Oldest(p, Owner(attempt, HashOf(lease)), claimed.value)
      else forall id | id in p.recs :: !MayHave(p.recs[id], Owner(attempt, HashOf(lease)))
    case ClaimById(id, attempt, lease) =>
      claimed == if id in p.recs && MayHave(p.recs[id], Owner(attempt, HashOf(lease))) then Some(id) else None
    case _ => claimed == None
  }

  lemma OneEvent(p: Projection, e: Event, id: Id)
    requires !e.action.Accept? ==> e.id in p.recs
    ensures Get(FoldFrom(p, [e]), id) ==
      if id != e.id then Get(p, id) else if e.action.Accept? then Some(Update(NO_RECORD, e)) else Some(Update(p.recs[id], e))
  {
    FoldFromOne(p, e);
    hide Update, FoldFrom;
  }

  lemma AcceptsLeave(sid: Id, p: Projection, session: Option<Session>, op: Op, now: real, id: Id)
    requires (op.Enqueue? || op.EnqueueDeferred?) && PlanOf(sid, p, session, op, now).Success?
    ensures var q := FoldFrom(p, PlanOf(sid, p, session, op, now).value); Leaves(sid, op, None, id, Get(p, id), Get(q, id), now)
  {
    var evs := PlanOf(sid, p, session, op, now).value;
    hide PendingCount, SafeId, ValidText, CheckOwner, Unchanged;
    if evs != [] {
      assert evs == [evs[0]];
      OneEvent(p, evs[0], id);
      hide FoldFrom;
    }
  }

  lemma ClosesLeave(sid: Id, p: Projection, session: Option<Session>, op: Op, now: real, id: Id)
    requires Inv(sid, p) && (op.RejectInput? || op.Acknowledge?) && PlanOf(sid, p, session, op, now).Success?
    ensures var q := FoldFrom(p, PlanOf(sid, p, session, op, now).value); Leaves(sid, op, None, id, Get(p, id), Get(q, id), now)
  {
    var evs := PlanOf(sid, p, session, op, now).value;
    assert op.id in p.recs ==> RecordOk(sid, p.recs[op.id]);
    hide Inv, CheckOwner;
    if evs != [] {
      assert evs == [evs[0]];
      OneEvent(p, evs[0], id);
      hide FoldFrom;
    }
  }

  lemma SweepLeaves(sid: Id, p: Projection, op: Op, sweep: Sweep, now: real, id: Id)
    requires Inv(sid, p)
    requires match op
      case MarkWaiting(attempt, lease, reason) => sweep == Waiting(Owner(attempt, HashOf(lease)), SafeReason(reason))
      case RearmWait(attempt, _) => sweep == Rearming(attempt)
      case Settle(attempt, lease, delivered, completed, succeeded) =>
        sweep == Settling(Owner(attempt, HashOf(lease)), delivered, completed, succeeded)
      case Reconcile(seen) => seen.Some? && sweep == Reconciling(seen.value)
      case _ => false
    ensures Leaves(sid, op, None, id, Get(p, id), Get(FoldFrom(p, SweepEvents(sweep, p.order, p.recs, now)), id), now)
  {
    SweepResult(sid, sweep, p, now);
    RecordsOk(sid, p);
    hide Inv, SweepEvents, FoldFrom;
    if id in p.recs {
      AfterLeaves(sid, op, sweep, id, p.recs[id], now);
    }
  }

  lemma AfterLeaves(sid: Id, op: Op, sweep: Sweep, id: Id, r: Record, now: real)
    requires RecordOk(sid, r)
    requires match op
      case MarkWaiting(attempt, lease, reason) => sweep == Waiting(Owner(attempt, HashOf(lease)), SafeReason(reason))
      case RearmWait(attempt, _) => sweep == Rearming(attempt)
      case Settle(attempt, lease, delivered, completed, succeeded) =>
        sweep == Settling(Owner(attempt, HashOf(lease)), delivered, completed, succeeded)
      case Reconcile(seen) => seen.Some? && sweep == Reconciling(seen.value)
      case _ => false
    ensures Leaves(sid, op, None, id, Some(r), Some(After(sweep, id, r, now)), now)
  {
  }

  lemma ClaimLeaves(sid: Id, p: Projection, op: Op, owner: Owner, claimed: Option<Id>, now: real, id: Id)
    requires match op
      case ClaimNext(attempt, lease) => owner == Owner(attempt, HashOf(lease))
      case ClaimById(_, attempt, lease) => owner == Owner(attempt, HashOf(lease))
      case _ => false
    requires claimed.Some? ==> claimed.value in p.recs && MayHave(p.recs[claimed.value], owner)
    ensures Leaves(sid, op, claimed, id, Get(p, id), Get(FoldFrom(p, PlanClaim(p, claimed, owner, now)), id), now)
  {
    if claimed.Some? {
      var c := claimed.value;
      var rebind, deliver := RebindEvent(c, owner, now), DeliverEvent(c, now);
      if p.recs[c].deferred {
        assert ClaimEvents(c, p.recs[c], owner, now) == [rebind] + [deliver];
        FoldFromConcat(p, [rebind], [deliver]);
        OneEvent(p, rebind, id);
        OneEvent(p, rebind, c);
        OneEvent(FoldFrom(p, [rebind]), deliver, id);
        hide FoldFrom;
      } else {
        assert ClaimEvents(c, p.recs[c], owner, now) == [deliver];
        OneEvent(p, deliver, id);
        hide FoldFrom;
      }
    }
  }

  lemma {:induction false} PositionAt(order: seq<Id>, i: nat)
    requires Distinct(order) && i < |order|
    ensures Position(order, order[i]) == i
  {
    if i > 0 {
      assert order[0] != order[i];
      assert forall a, b | 0 <= a < b < |order[1..]| :: order[1..][a] == order[a + 1] && order[1..][b] == order[b + 1];
      PositionAt(order[1..], i - 1);
    }
  }

  lemma EarliestIsOldest(p: Projection, owner: Owner, id: Id)
    requires Wf(p) && EarliestEligible(p, owner, id)
    ensures Oldest(p, owner, id)
  {
    forall other | other in p.recs && MayHave(p.recs[other], owner) ensures p.recs[id].acceptedAt <= p.recs[other].acceptedAt {
      assert other != id ==> AcceptedBefore(p, id, other);
    }
    forall i, j | 0 <= i < j < |p.order| && p.order[j] == id && p.order[i] in p.recs && MayHave(p.recs[p.order[i]], owner)
      ensures p.recs[id].acceptedAt < p.recs[p.order[i]].acceptedAt
    {
      PositionAt(p.order, i);
      PositionAt(p.order, j);
      assert AcceptedBefore(p, id, p.order[i]);
    }
  }

  lemma HeadTakes(sid: Id, p: Projection, attempt: int, lease: string)
    requires Inv(sid, p)
    ensures Takes(p, ClaimNext(attempt, lease), Head(p, Owner(attempt, HashOf(lease))))
  {
    var owner := Owner(attempt, HashOf(lease));
    FirstIsEarliest(sid, p, owner);
    var head := Head(p, owner);
    hide Head, PendingCount, RecordOk;
    if head.Some? { EarliestIsOldest(p, owner, head.value); }
  }

  /** Every operation that is not refused leaves every record as `Leaves` says; a claim takes the message that `Takes`
      says. */
  lemma OperationLeaves(sid: Id, p: Projection, session: Option<Session>, op: Op, now: real) returns (claimed: Option<Id>)
    requires Inv(sid, p) && PlanOf(sid, p, session, op, now).Success?
    ensures Takes(p, op, claimed)
    ensures var q := FoldFrom(p, PlanOf(sid, p, session, op, now).value);
      forall id :: Leaves(sid, op, claimed, id, Get(p, id), Get(q, id), now)
  {
    claimed := None;
    match op {
      case ClaimNext(attempt, lease) =>
        claimed := Head(p, Owner(attempt, HashOf(lease)));
        HeadTakes(sid, p, attempt, lease);
      case ClaimById(id, attempt, lease) =>
        claimed := if id in p.recs && MayHave(p.recs[id], Owner(attempt, HashOf(lease))) then Some(id) else None;
      case _ =>
    }
    var q := FoldFrom(p, PlanOf(sid, p, session, op, now).value);
    hide Leaves, Inv, Head, Takes;
    forall id ensures Leaves(sid, op, claimed, id, Get(p, id), Get(q, id), now) {
      OperationLeavesOne(sid, p, session, op, now, claimed, id);
    }
  }

  lemma OperationLeavesOne(sid: Id, p: Projection, session: Option<Session>, op: Op, now: real, claimed: Option<Id>, id: Id)
    requires Inv(sid, p) && PlanOf(sid, p, session, op, now).Success? && Takes(p, op, claimed)
    requires op.ClaimNext? ==> claimed == Head(p, Owner(op.attempt, HashOf(op.lease)))
    ensures var q := FoldFrom(p, PlanOf(sid, p, session, op, now).value);
      Leaves(sid, op, claimed, id, Get(p, id), Get(q, id), now)
  {
    assert op.ClaimNext? && claimed.Some? ==> claimed.value in p.recs && MayHave(p.recs[claimed.value], Owner(op.attempt, HashOf(op.lease)));
    match op {
      case ClaimNext(attempt, lease) =>
        hide Leaves, Inv, FoldFrom, PlanClaim, Takes;
        ClaimLeaves(sid, p, op, Owner(attempt, HashOf(lease)), claimed, now, id);
      case ClaimById(named, attempt, lease) =>
        NamedPlan(p, named, Owner(attempt, HashOf(lease)), now);
        hide Leaves, Inv, FoldFrom, PlanClaim;
        ClaimLeaves(sid, p, op, Owner(attempt, HashOf(lease)), claimed, now, id);
      case MarkWaiting(attempt, lease, reason) =>
        hide Leaves, Inv, FoldFrom;
        SweepLeaves(sid, p, op, Waiting(Owner(attempt, HashOf(lease)), SafeReason(reason)), now, id);
      case RearmWait(attempt, lease) =>
        hide Leaves, Inv, FoldFrom;
        SweepLeaves(sid, p, op, Rearming(attempt), now, id);
      case Settle(attempt, lease, delivered, completed, succeeded) =>
        hide Leaves, Inv, FoldFrom;
        SweepLeaves(sid, p, op, Settling(Owner(attempt, HashOf(lease)), delivered, completed, succeeded), now, id);
      case Reconcile(seen) =>
        if seen.Some? { SweepLeaves(sid, p, op, Reconciling(seen.value), now, id); }
      case _ =>
        hide Leaves, Inv, FoldFrom, PlanOf;
        if op.Enqueue? || op.EnqueueDeferred? {
          AcceptsLeave(sid, p, session, op, now, id);
        } else {
          ClosesLeave(sid, p, session, op, now, id);
        }
    }
  }

  lemma NamedPlan(p: Projection, id: Id, owner: Owner, now: real)
    ensures PlanClaim(p, Some(id), owner, now) ==
      PlanClaim(p, if id in p.recs && MayHave(p.recs[id], owner) then Some(id) else None, owner, now)
  {
  }

  // ---------- the receipts ----------

  /** A receipt of the record: what it says, with the error texts cut to 240 characters. */
  predicate Tells(t: Receipt, r: Record) {
    && t.session == r.session && t.attempt == r.owner.attempt && t.text == r.text && t.acceptedAt == r.acceptedAt
    && t.state == r.state && t.changedAt == r.changedAt && t.deferred == r.deferred
    && t.error == (if |r.error| <= 240 then r.error else r.error[..240])
    && t.recoveryError == (if |r.recoveryError| <= 240 then r.recoveryError else r.recoveryError[..240])
  }

  /** The receipts tell of every record once, oldest first, and of nothing else. */
  lemma ReceiptsTell(p: Projection)
    requires Wf(p)
    ensures forall i | 0 <= i < |Receipts(p)| :: Receipts(p)[i].id in p.recs && Tells(Receipts(p)[i], p.recs[Receipts(p)[i].id])
    ensures forall i, j | 0 <= i < j < |Receipts(p)| ::
      Receipts(p)[i].id != Receipts(p)[j].id && Receipts(p)[i].acceptedAt <= Receipts(p)[j].acceptedAt
    ensures forall id | id in p.recs :: exists i | 0 <= i < |Receipts(p)| :: Receipts(p)[i].id == id
  {
    var ids := SortByTime(p.order, p.recs);
    SortTells(p);
    hide SortByTime, Tells, Wf;
    forall i | 0 <= i < |ids| ensures Receipts(p)[i].id == ids[i] && ids[i] in p.recs && Tells(Receipts(p)[i], p.recs[ids[i]]) {
      assert ids[i] in ids;
      ViewTells(ids[i], p.recs[ids[i]]);
    }
    forall i, j | 0 <= i < j < |ids|
      ensures Receipts(p)[i].id != Receipts(p)[j].id && Receipts(p)[i].acceptedAt <= Receipts(p)[j].acceptedAt
    {
      ReceiptTime(p, i);
      ReceiptTime(p, j);
    }
    forall id | id in p.recs ensures exists i | 0 <= i < |Receipts(p)| :: Receipts(p)[i].id == id {
      assert id in ids;
      var i :| 0 <= i < |ids| && ids[i] == id;
      assert Receipts(p)[i].id == id;
    }
  }

  lemma ViewTells(id: Id, r: Record)
    ensures View(id, r).id == id && Tells(View(id, r), r)
  {
  }

  lemma ReceiptTime(p: Projection, i: nat)
    requires i < |Receipts(p)| && SortByTime(p.order, p.recs)[i] in p.recs
    ensures Receipts(p)[i].acceptedAt == p.recs[SortByTime(p.order, p.recs)[i]].acceptedAt
  {
    hide SortByTime;
  }

  lemma SortTells(p: Projection)
    requires Wf(p)
    ensures var ids := SortByTime(p.order, p.recs);
      && (forall id :: id in ids <==> id in p.recs)
      && forall i, j | 0 <= i < j < |ids| ::
           ids[i] != ids[j] && ids[i] in p.recs && ids[j] in p.recs && p.recs[ids[i]].acceptedAt <= p.recs[ids[j]].acceptedAt
  {
    var ids := SortByTime(p.order, p.recs);
    SortMembers(p.order, p.recs);
    SortOrdered(p.order, p.recs);
    hide SortByTime, Distinct;
    forall i, j | 0 <= i < j < |ids|
      ensures ids[i] != ids[j] && ids[i] in p.recs && ids[j] in p.recs && p.recs[ids[i]].acceptedAt <= p.recs[ids[j]].acceptedAt
    {
      assert AcceptedBefore(Projection(p.order, p.recs), ids[i], ids[j]);
      assert ids[i] in ids && ids[j] in ids;
    }
  }

  // ---------- what is stored, over runs ----------

  /** Move `n` was the first to store message `id`. */
  ghost predicate StoredAt(sid: Id, moves: seq<Move>, n: nat, id: Id) {
    n < |moves| && id !in Fold(Run(sid, moves[..n]).log).recs && id in Fold(Run(sid, moves[..n + 1]).log).recs
  }

  /** The record of an acceptance asked for by this operation at this time. */
  predicate AskedFor(sid: Id, op: Op, now: real, id: Id, r: Record) {
    match op
    case Enqueue(text, attempt, lease, messageId, uuid, _) =>
      id == UsedId(messageId, uuid) && r == Record(sid, Owner(attempt, HashOf(lease)), text, now, Accepted, now, false, "", "")
    case EnqueueDeferred(text, attempt, _, messageId, uuid, _) =>
      id == UsedId(messageId, uuid) && r == Record(sid, Owner(attempt, Unowned), text, now, Accepted, now, true, "", "")
    case _ => false
  }

  lemma {:induction false} PrefixKnows(p: Projection, evs: seq<Event>, k: nat, id: Id)
    requires k <= |evs| && id in FoldFrom(p, evs[..k]).recs
    ensures id in FoldFrom(p, evs).recs
  {
    assert evs == evs[..k] + evs[k..];
    FoldFromConcat(p, evs[..k], evs[k..]);
    KeepsKnown(FoldFrom(p, evs[..k]), evs[k..], id);
  }

  lemma {:induction false} KeepsKnown(p: Projection, evs: seq<Event>, id: Id)
    requires id in p.recs
    ensures id in FoldFrom(p, evs).recs
    decreases evs
  {
    if evs != [] { KeepsKnown(Step(p, evs[0]), evs[1..], id); }
  }

  lemma FoldOnward(log: seq<Event>, evs: seq<Event>)
    ensures Fold(log + evs) == FoldFrom(Fold(log), evs)
    decreases evs
  {
    hide Fold, Step;
    if evs == [] {
      assert log + evs == log;
    } else {
      FoldAppend(log, evs[0]);
      assert log + evs == log + [evs[0]] + evs[1..];
      FoldOnward(log + [evs[0]], evs[1..]);
    }
  }

  /** Whatever stores a message first was asked to, and stores what it was asked for. */
  lemma FirstStored(sid: Id, w: World, m: Move, id: Id)
    requires LegalLog(sid, w.log) && id !in Fold(w.log).recs && id in Fold(Next(sid, w, m).log).recs
    ensures m.Operate? && AskedFor(sid, m.op, m.now, id, Fold(Next(sid, w, m).log).recs[id])
  {
    hide Fold, PlanOf, LegalLog, Inv, AskedFor;
    var p, evs := Fold(w.log), Written(sid, w, m);
    assert w.log + [] == w.log;
    if evs != [] {
      FoldOnward(w.log, evs);
      LegalLogInv(sid, w.log);
      var all := PlanOf(sid, p, w.reading.value, m.op, m.now).value;
      assert evs == if m.survived <= |all| then all[..m.survived] else all;
      if m.survived <= |all| { PrefixKnows(p, all, m.survived, id); }
      var claimed := OperationLeaves(sid, p, w.reading.value, m.op, m.now);
      assert Leaves(sid, m.op, claimed, id, Get(p, id), Get(FoldFrom(p, all), id), m.now);
      NewIsAsked(sid, m.op, claimed, id, FoldFrom(p, all), m.now);
      AcceptsAtOnce(sid, p, w.reading.value, m.op, m.now);
      assert evs == all;
    }
  }

  lemma NewIsAsked(sid: Id, op: Op, claimed: Option<Id>, id: Id, q: Projection, now: real)
    requires Leaves(sid, op, claimed, id, None, Get(q, id), now) && id in q.recs
    ensures (op.Enqueue? || op.EnqueueDeferred?) && AskedFor(sid, op, now, id, q.recs[id])
  {
  }

  lemma AcceptsAtOnce(sid: Id, p: Projection, session: Option<Session>, op: Op, now: real)
    requires (op.Enqueue? || op.EnqueueDeferred?) && PlanOf(sid, p, session, op, now).Success?
    ensures |PlanOf(sid, p, session, op, now).value| <= 1
  {
    hide PendingCount, SafeId, ValidText, CheckOwner, Unchanged;
  }

  /** In every run each message was first stored by one enqueue move, with that move's time as its acceptance time and with
      that move's text, attempt and owner; session, text and acceptance time stay what they were ever after. */
  lemma StoredAsAsked(sid: Id, moves: seq<Move>, id: Id) returns (n: nat)
    requires id in Fold(Run(sid, moves).log).recs
    ensures StoredAt(sid, moves, n, id) && moves[n].Operate?
    ensures AskedFor(sid, moves[n].op, moves[n].now, id, Fold(Run(sid, moves[..n + 1]).log).recs[id])
    ensures var r := Fold(Run(sid, moves).log).recs[id];
      r.acceptedAt == moves[n].now && r.session == sid && r.text == moves[n].op.text
  {
    n := FirstMove(sid, moves, id);
    StoredIsAsked(sid, moves, n, id);
  }

  lemma {:induction false} FirstMove(sid: Id, moves: seq<Move>, id: Id) returns (n: nat)
    requires id in Fold(Run(sid, moves).log).recs
    ensures StoredAt(sid, moves, n, id)
  {
    hide Fold, Next;
    if moves == [] {
      assert Fold([]) == EMPTY by { FoldNothing(); }
    } else {
      var init := moves[..|moves| - 1];
      if id in Fold(Run(sid, init).log).recs {
        n := FirstMove(sid, init, id);
        assert init[..n] == moves[..n] && init[..n + 1] == moves[..n + 1];
      } else {
        n := |moves| - 1;
        assert moves[..n + 1] == moves;
      }
    }
  }

  lemma StoredIsAsked(sid: Id, moves: seq<Move>, n: nat, id: Id)
    requires StoredAt(sid, moves, n, id)
    ensures moves[n].Operate? && (moves[n].op.Enqueue? || moves[n].op.EnqueueDeferred?)
    ensures AskedFor(sid, moves[n].op, moves[n].now, id, Fold(Run(sid, moves[..n + 1]).log).recs[id])
    ensures id in Fold(Run(sid, moves).log).recs
    ensures var r := Fold(Run(sid, moves).log).recs[id];
      r.acceptedAt == moves[n].now && r.session == sid && r.text == moves[n].op.text
  {
    NextMove(sid, moves, n);
    RunLegal(sid, moves[..n]);
    RunSafe(sid, moves, n + 1);
    hide Fold, Run, Next, LegalLog, Inv, Rank;
    FirstStored(sid, Run(sid, moves[..n]), moves[n], id);
    assert Evolves(Fold(Run(sid, moves[..n + 1]).log), Fold(Run(sid, moves).log));
  }

  /** What is stored later comes later in the log's order. */
  lemma StoredInOrder(sid: Id, moves: seq<Move>, m: nat, n: nat, a: Id, b: Id)
    requires StoredAt(sid, moves, m, a) && StoredAt(sid, moves, n, b) && m < n
    ensures var order := Fold(Run(sid, moves).log).order;
      a in order && b in order && Position(order, a) < Position(order, b)
  {
    hide *;
    NewAt(sid, moves, n, b);
    var before, all := Fold(Run(sid, moves[..n]).log), Fold(Run(sid, moves).log);
    StillStored(sid, moves, m, n, a);
    KnownFrom(sid, moves[..n], m, a);
    KnownFrom(sid, moves, n, b);
    OrderGrows(sid, moves, n);
    PositionSplit(before.order, all.order[|before.order|..], a, b);
    assert all.order == before.order + all.order[|before.order|..];
  }

  lemma StillStored(sid: Id, moves: seq<Move>, m: nat, n: nat, a: Id)
    requires StoredAt(sid, moves, m, a) && m < n <= |moves|
    ensures StoredAt(sid, moves[..n], m, a)
  {
    hide Fold, Run;
    assert moves[..n][..m + 1] == moves[..m + 1] && moves[..n][..m] == moves[..m];
  }

  lemma KnownFrom(sid: Id, moves: seq<Move>, n: nat, id: Id)
    requires StoredAt(sid, moves, n, id)
    ensures id in Fold(Run(sid, moves).log).order
  {
    StoredIsAsked(sid, moves, n, id);
    FoldWf(Run(sid, moves).log);
    hide Fold, Run, Distinct, AskedFor, StoredAt;
  }

  lemma NewAt(sid: Id, moves: seq<Move>, n: nat, id: Id)
    requires StoredAt(sid, moves, n, id)
    ensures n < |moves| && id !in Fold(Run(sid, moves[..n]).log).order
  {
    FoldWf(Run(sid, moves[..n]).log);
    hide Fold, Run, Distinct;
  }

  lemma OrderGrows(sid: Id, moves: seq<Move>, n: nat)
    requires n <= |moves|
    ensures Fold(Run(sid, moves[..n]).log).order <= Fold(Run(sid, moves).log).order
  {
    RunSafe(sid, moves, n);
    hide Fold, Run, Inv, Rank;
  }

  lemma {:induction false} PositionSplit(front: seq<Id>, back: seq<Id>, a: Id, b: Id)
    requires a in front && b !in front
    ensures Position(front + back, a) < |front| <= Position(front + back, b)
  {
    assert front[0] != b && (front + back)[0] == front[0] && (front + back)[1..] == front[1..] + back;
    if front[0] == a {
      if b !in front[1..] { NotInFront(front[1..], back, b); }
    } else {
      PositionSplit(front[1..], back, a, b);
    }
  }

  lemma {:induction false} NotInFront(front: seq<Id>, back: seq<Id>, b: Id)
    requires b !in front
    ensures |front| <= Position(front + back, b)
  {
    if front != [] {
      assert (front + back)[0] == front[0] && (front + back)[1..] == front[1..] + back;
      NotInFront(front[1..], back, b);
    }
  }

  /** First come, first served: of two messages that an owner may both have, stored by an earlier and a later move whose
      clock was not behind, a claim of the next message never delivers the later one. */
  lemma FirstComeFirstServed(sid: Id, moves: seq<Move>, m: nat, n: nat, a: Id, b: Id, session: Option<Session>,
    attempt: int, lease: string, now: real)
    requires StoredAt(sid, moves, m, a) && StoredAt(sid, moves, n, b) && m < n
    requires moves[m].Operate? && moves[n].Operate? && moves[m].now <= moves[n].now
    ensures var p := Fold(Run(sid, moves).log);
      var owner := Owner(attempt, HashOf(lease));
      var plan := PlanOf(sid, p, session, ClaimNext(attempt, lease), now);
      && a in p.recs && b in p.recs
      && (MayHave(p.recs[a], owner) && MayHave(p.recs[b], owner) && plan.Success? ==>
            forall i | 0 <= i < |plan.value| :: plan.value[i].id != b)
  {
    var p := Fold(Run(sid, moves).log);
    var owner := Owner(attempt, HashOf(lease));
    StoredIsAsked(sid, moves, m, a);
    StoredIsAsked(sid, moves, n, b);
    StoredInOrder(sid, moves, m, n, a, b);
    RunLegal(sid, moves);
    LegalLogInv(sid, Run(sid, moves).log);
    hide Fold, Run, Inv, StoredAt, LegalLog, AskedFor;
    if MayHave(p.recs[a], owner) && MayHave(p.recs[b], owner) {
      FirstIsEarliest(sid, p, owner);
      NotTheLater(p, owner, a, b);
      ClaimSpeaksOfHead(sid, p, session, attempt, lease, now, b);
    }
  }

  lemma NotTheLater(p: Projection, owner: Owner, a: Id, b: Id)
    requires a in p.recs && b in p.recs && MayHave(p.recs[a], owner) && MayHave(p.recs[b], owner)
    requires p.recs[a].acceptedAt <= p.recs[b].acceptedAt && Position(p.order, a) < Position(p.order, b)
    ensures !EarliestEligible(p, owner, b)
  {
    assert !AcceptedBefore(p, b, a);
  }

  lemma ClaimSpeaksOfHead(sid: Id, p: Projection, session: Option<Session>, attempt: int, lease: string, now: real, b: Id)
    requires Head(p, Owner(attempt, HashOf(lease))) != Some(b)
    ensures var plan := PlanOf(sid, p, session, ClaimNext(attempt, lease), now);
      plan.Success? ==> forall i | 0 <= i < |plan.value| :: plan.value[i].id != b
  {
    hide Head, CheckOwner;
  }
}
