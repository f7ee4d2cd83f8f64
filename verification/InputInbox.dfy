/** The owner-fenced deferred-input inbox (src/agenthicc/background/input_inbox.py).

    An inbox is an append-only log of events. Every operation rebuilds the message records
    by folding the log, decides which events to append, and appends them one at a time, so a
    crash leaves a prefix of them. `PlanOf` says, as a function of the folded records and the
    session that was read, which events an operation appends; the methods of `Inbox` are
    proved to append exactly those. */
module InputInbox {
  import opened Wrappers
  import opened Sessions
  import Text

  const MAX_INPUT_CHARS := 64_000
  const MAX_PENDING_MESSAGES := 64
  const LATE_INPUT := "Worker finished before this input reached a safe turn boundary; reopen details and resend."
  const WORKER_FAILED := "The owning worker failed after accepting this input."
  const OWNER_GONE := "The owning worker ended or changed before delivery was confirmed; reopen details and resend."
  const SESSION_DELETED := "The session was deleted before this input could be delivered."
  const DEFAULT_WAIT_REASON := "Waiting for explicit recovery action."

  type Id = string

  datatype State = Accepted | Claimed | Delivered | Completed | Failed | Rejected

  datatype Action =
    | Accept | Claim | Deliver | Complete | Fail | Reject
    | Rebind | Defer | WaitRecovery | Rearm

  datatype Owner = Owner(attempt: int, hash: OwnerHash)

  /** One log line. A field that the written dictionary lacks is `None`. */
  datatype Event = Event(
    action: Action,
    id: Id,
    state: State,
    changedAt: real,
    session: Option<Id> := None,
    owner: Option<Owner> := None,
    text: Option<string> := None,
    acceptedAt: Option<real> := None,
    deferred: Option<bool> := None,
    recoveryError: Option<string> := None,
    error: Option<string> := None)

  datatype Record = Record(
    session: Id,
    owner: Owner,
    text: string,
    acceptedAt: real,
    state: State,
    changedAt: real,
    deferred: bool,
    recoveryError: string,
    error: string)

  /** The folded log: records by message ID, and their insertion order. */
  datatype Projection = Projection(order: seq<Id>, recs: map<Id, Record>)

  datatype Receipt = Receipt(
    id: Id,
    session: Id,
    attempt: int,
    text: string,
    acceptedAt: real,
    state: State,
    changedAt: real,
    error: string,
    deferred: bool,
    recoveryError: string)

  datatype Error = ValueError | TransitionError | KeyError

  // ---------- folding the log ----------

  function OrElse<T>(o: Option<T>, default: T): T {
    if o.Some? then o.value else default
  }

  const NO_RECORD := Record("", Owner(0, Unowned), "", 0.0, Accepted, 0.0, false, "", "")

  /** `record.update(event)` */
  function Update(r: Record, e: Event): Record {
    Record(
      OrElse(e.session, r.session), OrElse(e.owner, r.owner), OrElse(e.text, r.text),
      OrElse(e.acceptedAt, r.acceptedAt), e.state, e.changedAt, OrElse(e.deferred, r.deferred),
      OrElse(e.recoveryError, r.recoveryError), OrElse(e.error, r.error))
  }

  function Step(p: Projection, e: Event): Projection {
    if e.action.Accept? then
      Projection(if e.id in p.recs then p.order else p.order + [e.id],
                 p.recs[e.id := Update(NO_RECORD, e)])
    else if e.id in p.recs then
      p.(recs := p.recs[e.id := Update(p.recs[e.id], e)])
    else p
  }

  const EMPTY := Projection([], map[])

  function Fold(log: seq<Event>): Projection {
    if log == [] then EMPTY else Step(Fold(log[..|log| - 1]), log[|log| - 1])
  }

  /** Folding on from an already folded prefix. */
  function FoldFrom(p: Projection, log: seq<Event>): Projection
    decreases log
  {
    if log == [] then p else FoldFrom(Step(p, log[0]), log[1..])
  }

  // ---------- reading the records ----------

  predicate Pending(r: Record) {
    r.state == Accepted || r.state == Claimed
  }

  function PendingCount(order: seq<Id>, recs: map<Id, Record>): nat {
    if order == [] then 0
    else
      PendingCount(order[..|order| - 1], recs) +
      var id := order[|order| - 1];
      if id in recs && Pending(recs[id]) then 1 else 0
  }

  function Time(recs: map<Id, Record>, id: Id): real {
    if id in recs then recs[id].acceptedAt else 0.0
  }

  /** Insert after every element that is not later: the step that makes the sort stable. */
  function InsertByTime(sorted: seq<Id>, id: Id, recs: map<Id, Record>): seq<Id> {
    if sorted == [] || Time(recs, sorted[|sorted| - 1]) <= Time(recs, id) then sorted + [id]
    else InsertByTime(sorted[..|sorted| - 1], id, recs) + [sorted[|sorted| - 1]]
  }

  /** `sorted(records.values(), key=accepted_at)`, which is stable. */
  function SortByTime(order: seq<Id>, recs: map<Id, Record>): seq<Id> {
    if order == [] then []
    else InsertByTime(SortByTime(order[..|order| - 1], recs), order[|order| - 1], recs)
  }

  function View(id: Id, r: Record): Receipt {
    Receipt(id, r.session, r.owner.attempt, r.text, r.acceptedAt, r.state, r.changedAt,
            Text.Take(r.error, 240), r.deferred, Text.Take(r.recoveryError, 240))
  }

  function Receipts(p: Projection): seq<Receipt> {
    var ids := SortByTime(p.order, p.recs);
    seq(|ids|, i requires 0 <= i < |ids| => if ids[i] in p.recs then View(ids[i], p.recs[ids[i]]) else View(ids[i], NO_RECORD))
  }

  /** A record that the worker `owner` may be given: accepted, and deferred or its own. */
  predicate Eligible(r: Record, owner: Owner) {
    r.state == Accepted && (r.deferred || r.owner == owner)
  }

  function FirstEligible(ids: seq<Id>, recs: map<Id, Record>, owner: Owner): Option<Id> {
    if ids == [] then None
    else if ids[0] in recs && Eligible(recs[ids[0]], owner) then Some(ids[0])
    else FirstEligible(ids[1..], recs, owner)
  }

  // ---------- the events that are written ----------

  function AcceptEvent(id: Id, session: Id, owner: Owner, text: string, now: real, deferred: Option<bool>): Event {
    Event(Accept, id, Accepted, now, session := Some(session), owner := Some(owner), text := Some(text),
          acceptedAt := Some(now), deferred := deferred)
  }

  function DeferEvent(id: Id, attempt: int, now: real): Event {
    Event(Defer, id, Accepted, now, owner := Some(Owner(attempt, Unowned)), deferred := Some(true))
  }

  function RebindEvent(id: Id, owner: Owner, now: real): Event {
    Event(Rebind, id, Accepted, now, owner := Some(owner), deferred := Some(false), recoveryError := Some(""))
  }

  function DeliverEvent(id: Id, now: real): Event {
    Event(Deliver, id, Delivered, now)
  }

  function WaitEvent(id: Id, attempt: int, reason: string, now: real): Event {
    Event(WaitRecovery, id, Accepted, now, owner := Some(Owner(attempt, Unowned)), deferred := Some(true),
          recoveryError := Some(reason))
  }

  function RearmEvent(id: Id, attempt: int, now: real): Event {
    Event(Rearm, id, Accepted, now, owner := Some(Owner(attempt, Unowned)), deferred := Some(true),
          recoveryError := Some(""))
  }

  function RejectEvent(id: Id, error: string, now: real): Event {
    Event(Reject, id, Rejected, now, error := Some(error))
  }

  // ---------- checks ----------

  predicate SafeId(s: string) {
    && 1 <= |s| <= 128
    && forall i | 0 <= i < |s| ::
         'A' <= s[i] <= 'Z' || 'a' <= s[i] <= 'z' || '0' <= s[i] <= '9' || s[i] == '_' || s[i] == '-'
  }

  predicate ValidText(text: string) {
    !Text.IsBlank(text) && |text| <= MAX_INPUT_CHARS
  }

  /** `_validate_current_owner` */
  predicate LiveOwner(s: Session, attempt: int, lease: string) {
    Active(s.status) && s.attempt == attempt && s.leaseToken == lease && s.workerPid.Some?
  }

  /** `store.get` and then `_validate_current_owner` */
  function CheckOwner(s: Option<Session>, attempt: int, lease: string): Option<Error> {
    if s.None? then Some(KeyError)
    else if !LiveOwner(s.value, attempt, lease) then Some(TransitionError)
    else None
  }

  predicate RearmableStatus(status: Status) {
    status in {Status.Completed, Status.Failed, Orphaned, Cancelled, Archived}
  }

  // ---------- sweeps over all records ----------

  /** The four operations that visit every record in insertion order. */
  datatype Sweep =
    | Waiting(owner: Owner, reason: string)
    | Rearming(attempt: int)
    | Settling(owner: Owner, delivered: set<Id>, completed: set<Id>, succeeded: bool)
    | Reconciling(session: Session)

  /** The event one record gets, if any. */
  function Decide(sweep: Sweep, id: Id, r: Record, now: real): Option<Event> {
    match sweep
    case Waiting(owner, reason) =>
      if !Pending(r) then None
      else if !r.deferred && r.owner != owner then None
      else Some(WaitEvent(id, owner.attempt, reason, now))
    case Rearming(attempt) =>
      if r.state != Accepted || !r.deferred || r.recoveryError == "" then None
      else Some(RearmEvent(id, attempt, now))
    case Settling(owner, delivered, completed, succeeded) =>
      if r.owner != owner then None
      else if id in delivered && r.state == Delivered then
        if succeeded || id in completed then Some(Event(Complete, id, State.Completed, now))
        else Some(Event(Fail, id, State.Failed, now, error := Some(WORKER_FAILED)))
      else if Pending(r) && !r.deferred then Some(RejectEvent(id, LATE_INPUT, now))
      else None
    case Reconciling(session) =>
      if !Pending(r) && r.state != Delivered then None
      else if r.deferred then
        if session.status == Deleted then Some(RejectEvent(id, SESSION_DELETED, now)) else None
      else if Active(session.status) && r.owner == Owner(session.attempt, HashOf(session.leaseToken)) then None
      else Some(RejectEvent(id, OWNER_GONE, now))
  }

  function SweepEvents(sweep: Sweep, ids: seq<Id>, recs: map<Id, Record>, now: real): seq<Event> {
    if ids == [] then []
    else
      var id := ids[|ids| - 1];
      SweepEvents(sweep, ids[..|ids| - 1], recs, now) +
      if id in recs then Visited(sweep, id, recs[id], now) else []
  }

  /** The events, at most one, of a visit to one record. */
  function Visited(sweep: Sweep, id: Id, r: Record, now: real): seq<Event> {
    var d := Decide(sweep, id, r, now);
    if d.None? then [] else [d.value]
  }

  // ---------- operations ----------

  datatype Op =
    | Enqueue(text: string, attempt: int, lease: string, messageId: string, uuid: Id, early: Option<Session>)
    | EnqueueDeferred(text: string, attempt: int, lease: string, messageId: string, uuid: Id, early: Option<Session>)
    | ClaimNext(attempt: int, lease: string)
    | ClaimById(id: Id, attempt: int, lease: string)
    | MarkWaiting(attempt: int, lease: string, reason: string)
    | RearmWait(attempt: int, lease: string)
    | RejectInput(id: Id, attempt: int, lease: string, reason: string)
    | Acknowledge(id: Id, attempt: int, lease: string)
    | Settle(attempt: int, lease: string, delivered: set<Id>, completed: set<Id>, succeeded: bool)
    | Reconcile(seen: Option<Session>)

  function SafeReason(reason: string): string {
    var r := Text.Take(Text.Strip(reason), 240);
    if r == "" then DEFAULT_WAIT_REASON else r
  }

  /** Rebind a deferred record first, then deliver it. */
  function ClaimEvents(id: Id, r: Record, owner: Owner, now: real): seq<Event> {
    (if r.deferred then [RebindEvent(id, owner, now)] else []) + [DeliverEvent(id, now)]
  }

  /** The events an operation appends, or the exception it raises with nothing appended. */
  type Plan = Result<seq<Event>, Error>

  /** `early` is the store read made before the log is locked. */
  function PlanEnqueue(sid: Id, p: Projection, early: Option<Session>, session: Option<Session>, text: string,
                       attempt: int, lease: string, messageId: string, uuid: Id, now: real): Plan
  {
    var id := if messageId == "" then uuid else messageId;
    if !ValidText(text) || attempt < 1 || lease == "" || !SafeId(id) then Failure(ValueError)
    else if CheckOwner(early, attempt, lease).Some? then Failure(CheckOwner(early, attempt, lease).value)
    else if id in p.recs then
      var r := p.recs[id];
      if r.session != sid || r.owner.attempt != attempt || r.text != text then Failure(ValueError)
      else Success([])
    else if PendingCount(p.order, p.recs) >= MAX_PENDING_MESSAGES then Failure(TransitionError)
    else if CheckOwner(session, attempt, lease).Some? then Failure(CheckOwner(session, attempt, lease).value)
    else Success([AcceptEvent(id, sid, Owner(attempt, HashOf(lease)), text, now, None)])
  }

  predicate Unchanged(s: Option<Session>, attempt: int, lease: string) {
    s.Some? && s.value.status != Deleted && s.value.attempt == attempt && s.value.leaseToken == lease
  }

  /** The session is read twice while the log is locked: `early` first, and `session` again before an acceptance. */
  function PlanEnqueueDeferred(sid: Id, p: Projection, early: Option<Session>, session: Option<Session>, text: string,
                               attempt: int, lease: string, messageId: string, uuid: Id, now: real): Plan
  {
    var id := if messageId == "" then uuid else messageId;
    if !ValidText(text) || attempt < 0 || !SafeId(id) then Failure(ValueError)
    else if early.None? then Failure(KeyError)
    else if !Unchanged(early, attempt, lease) then Failure(TransitionError)
    else if id in p.recs then
      var r := p.recs[id];
      if r.session != sid || r.text != text then Failure(ValueError)
      else if r.state == Accepted && !r.deferred then Success([DeferEvent(id, attempt, now)])
      else Success([])
    else if PendingCount(p.order, p.recs) >= MAX_PENDING_MESSAGES then Failure(TransitionError)
    else if session.None? then Failure(KeyError)
    else if !Unchanged(session, attempt, lease) then Failure(TransitionError)
    else Success([AcceptEvent(id, sid, Owner(attempt, Unowned), text, now, Some(true))])
  }

  function PlanClaim(p: Projection, id: Option<Id>, owner: Owner, now: real): seq<Event> {
    if id.Some? && id.value in p.recs && Eligible(p.recs[id.value], owner)
    then ClaimEvents(id.value, p.recs[id.value], owner, now)
    else []
  }

  function Head(p: Projection, owner: Owner): Option<Id> {
    FirstEligible(SortByTime(p.order, p.recs), p.recs, owner)
  }

  function PlanClaimNext(p: Projection, session: Option<Session>, attempt: int, lease: string, now: real): Plan {
    var refused := CheckOwner(session, attempt, lease);
    var owner := Owner(attempt, HashOf(lease));
    if refused.Some? then Failure(refused.value) else Success(PlanClaim(p, Head(p, owner), owner, now))
  }

  function PlanClaimById(p: Projection, session: Option<Session>, id: Id, attempt: int, lease: string, now: real): Plan {
    var refused := CheckOwner(session, attempt, lease);
    if refused.Some? then Failure(refused.value) else Success(PlanClaim(p, Some(id), Owner(attempt, HashOf(lease)), now))
  }

  function PlanMarkWaiting(p: Projection, session: Option<Session>, attempt: int, lease: string, reason: string, now: real): Plan {
    var refused := CheckOwner(session, attempt, lease);
    if refused.Some? then Failure(refused.value)
    else Success(SweepEvents(Waiting(Owner(attempt, HashOf(lease)), SafeReason(reason)), p.order, p.recs, now))
  }

  function PlanRearm(p: Projection, session: Option<Session>, attempt: int, lease: string, now: real): Plan {
    if session.None? then Failure(KeyError)
    else if !RearmableStatus(session.value.status) || session.value.attempt != attempt || session.value.leaseToken != lease
    then Failure(TransitionError)
    else Success(SweepEvents(Rearming(attempt), p.order, p.recs, now))
  }

  function PlanReject(p: Projection, id: Id, attempt: int, lease: string, reason: string, now: real): Plan {
    if id !in p.recs then Failure(KeyError)
    else if !(Pending(p.recs[id]) || p.recs[id].state == Delivered) || p.recs[id].owner != Owner(attempt, HashOf(lease))
    then Failure(TransitionError)
    else Success([RejectEvent(id, Text.Take(reason, 240), now)])
  }

  function PlanAcknowledge(p: Projection, session: Option<Session>, id: Id, attempt: int, lease: string, now: real): Plan {
    if id !in p.recs then Failure(KeyError)
    else if p.recs[id].state == Delivered then Success([])
    else if p.recs[id].state != Claimed || p.recs[id].owner != Owner(attempt, HashOf(lease)) then Failure(TransitionError)
    else if CheckOwner(session, attempt, lease).Some? then Failure(CheckOwner(session, attempt, lease).value)
    else Success([DeliverEvent(id, now)])
  }

  function PlanReceipts(p: Projection, session: Option<Session>, now: real): seq<Event> {
    if session.None? then [] else SweepEvents(Reconciling(session.value), p.order, p.recs, now)
  }

  /** What `settle_attempt` appends while it holds the log lock. When that is nothing, it goes on to read the receipts
      as a separate operation. */
  function PlanSettle(p: Projection, attempt: int, lease: string, delivered: set<Id>, completed: set<Id>, succeeded: bool,
                      now: real): seq<Event>
  {
    SweepEvents(Settling(Owner(attempt, HashOf(lease)), delivered, completed, succeeded), p.order, p.recs, now)
  }

  /** The plan of any operation on the log of `sid` whose fold is `p`, when the store reads made
      while the log is locked find `session`. Receipts are read against a session seen before that. */
  function PlanOf(sid: Id, p: Projection, session: Option<Session>, op: Op, now: real): Plan {
    match op
    case Enqueue(text, attempt, lease, messageId, uuid, early) =>
      PlanEnqueue(sid, p, early, session, text, attempt, lease, messageId, uuid, now)
    case EnqueueDeferred(text, attempt, lease, messageId, uuid, early) =>
      PlanEnqueueDeferred(sid, p, early, session, text, attempt, lease, messageId, uuid, now)
    case ClaimNext(attempt, lease) => PlanClaimNext(p, session, attempt, lease, now)
    case ClaimById(id, attempt, lease) => PlanClaimById(p, session, id, attempt, lease, now)
    case MarkWaiting(attempt, lease, reason) => PlanMarkWaiting(p, session, attempt, lease, reason, now)
    case RearmWait(attempt, lease) => PlanRearm(p, session, attempt, lease, now)
    case RejectInput(id, attempt, lease, reason) => PlanReject(p, id, attempt, lease, reason, now)
    case Acknowledge(id, attempt, lease) => PlanAcknowledge(p, session, id, attempt, lease, now)
    case Settle(attempt, lease, delivered, completed, succeeded) =>
      Success(PlanSettle(p, attempt, lease, delivered, completed, succeeded, now))
    case Reconcile(seen) => Success(PlanReceipts(p, seen, now))
  }

  // ---------- folding facts used by the methods ----------

  lemma FoldAppend(log: seq<Event>, e: Event)
    ensures Fold(log + [e]) == Step(Fold(log), e)
  {
    assert (log + [e])[..|log + [e]| - 1] == log;
  }

  lemma {:induction false} FoldFromConcat(p: Projection, a: seq<Event>, b: seq<Event>)
    ensures FoldFrom(p, a + b) == FoldFrom(FoldFrom(p, a), b)
    decreases a
  {
    hide Step;
    if a == [] {
      assert a + b == b;
    } else {
      assert (a + b)[1..] == a[1..] + b;
      FoldFromConcat(Step(p, a[0]), a[1..], b);
    }
  }

  lemma FoldFromOne(p: Projection, e: Event)
    ensures FoldFrom(p, [e]) == Step(p, e)
  {
  }

  /** An event after acceptance changes the record it names and no other. */
  lemma StepOne(p: Projection, e: Event)
    requires e.id in p.recs && !e.action.Accept?
    ensures Step(p, e).order == p.order && Step(p, e).recs.Keys == p.recs.Keys
    ensures Step(p, e).recs[e.id] == Update(p.recs[e.id], e)
    ensures forall other | other in p.recs && other != e.id :: Step(p, e).recs[other] == p.recs[other]
  {
    hide Update;
  }

  /** Rebinding and delivering touch one record and give it the owner and the state they say. */
  lemma ClaimStep(p: Projection, id: Id, owner: Owner, now: real)
    requires id in p.recs
    ensures var q := Step(p, RebindEvent(id, owner, now));
      q.recs.Keys == p.recs.Keys && q.recs[id].owner == owner && q.recs[id].state == Accepted && !q.recs[id].deferred
    ensures var q := Step(p, DeliverEvent(id, now));
      q.recs.Keys == p.recs.Keys && q.recs[id].owner == p.recs[id].owner && q.recs[id].state == Delivered
  {
  }

  /** The order lists every record once. */
  ghost predicate Wf(p: Projection) {
    && (forall id :: id in p.order <==> id in p.recs)
    && Distinct(p.order)
  }

  ghost predicate Distinct(s: seq<Id>) {
    forall i, j | 0 <= i < j < |s| :: s[i] != s[j]
  }

  lemma WfOrder(p: Projection)
    requires Wf(p)
    ensures forall j | 0 <= j < |p.order| :: p.order[j] in p.recs
    ensures Distinct(p.order)
  {
  }

  lemma {:induction false} FoldWf(log: seq<Event>)
    ensures Wf(Fold(log))
  {
    if log != [] {
      FoldWf(log[..|log| - 1]);
    }
  }

  lemma {:induction false} SortMembers(order: seq<Id>, recs: map<Id, Record>)
    ensures multiset(SortByTime(order, recs)) == multiset(order)
    ensures forall id :: id in SortByTime(order, recs) <==> id in order
  {
    if order != [] {
      var init := order[..|order| - 1];
      SortMembers(init, recs);
      InsertMembers(SortByTime(init, recs), order[|order| - 1], recs);
      assert order == init + [order[|order| - 1]];
    }
    forall id ensures id in SortByTime(order, recs) <==> id in order {
      assert id in multiset(SortByTime(order, recs)) <==> id in multiset(order);
    }
  }

  lemma {:induction false} InsertMembers(sorted: seq<Id>, id: Id, recs: map<Id, Record>)
    ensures multiset(InsertByTime(sorted, id, recs)) == multiset(sorted) + multiset{id}
  {
    if sorted == [] || Time(recs, sorted[|sorted| - 1]) <= Time(recs, id) {
    } else {
      InsertMembers(sorted[..|sorted| - 1], id, recs);
      assert sorted == sorted[..|sorted| - 1] + [sorted[|sorted| - 1]];
    }
  }

  /** A sweep never accepts a message and only speaks of the record it visits. */
  lemma DecideShape(sweep: Sweep, id: Id, r: Record, now: real)
    ensures Decide(sweep, id, r, now).Some? ==>
      Decide(sweep, id, r, now).value.id == id && !Decide(sweep, id, r, now).value.action.Accept?
  {
  }

  lemma DistinctAt(s: seq<Id>)
    requires Distinct(s)
    ensures forall i, j | 0 <= i < j < |s| :: s[i] != s[j]
  {
  }

  lemma SweepNone(sweep: Sweep, ids: seq<Id>, recs: map<Id, Record>, now: real)
    ensures SweepEvents(sweep, ids[..0], recs, now) == []
  {
  }

  lemma SweepStep(sweep: Sweep, ids: seq<Id>, i: nat, recs: map<Id, Record>, now: real)
    requires i < |ids| && ids[i] in recs
    ensures SweepEvents(sweep, ids[..i + 1], recs, now) ==
      SweepEvents(sweep, ids[..i], recs, now) + Visited(sweep, ids[i], recs[ids[i]], now)
  {
    hide Visited;
    assert ids[..i + 1][..i] == ids[..i];
  }

  // ---------- the class ----------

  /** `BackgroundInputInbox` for one session. */
  class Inbox {
    const sid: Id
    var log: seq<Event>

    constructor (sid: Id)
      ensures this.sid == sid && log == []
    {
      this.sid := sid;
      log := [];
    }

    /** `_projection`: fold the log with a mutated table. */
    method Project() returns (p: Projection)
      ensures p == Fold(log)
    {
      p := EMPTY;
      for i := 0 to |log|
        invariant p == Fold(log[..i])
      {
        assert log[..i + 1] == log[..i] + [log[i]];
        FoldAppend(log[..i], log[i]);
        p := Step(p, log[i]);
      }
      assert log[..|log|] == log;
    }

    /** `_append` followed by `record.update(event)`. */
    method Append(p: Projection, e: Event) returns (p': Projection)
      requires p == Fold(log)
      modifies this`log
      ensures log == old(log) + [e]
      ensures p' == Fold(log) == Step(p, e)
    {
      FoldAppend(log, e);
      log := log + [e];
      p' := Step(p, e);
    }

    method CountPending(p: Projection) returns (n: nat)
      ensures n == PendingCount(p.order, p.recs)
    {
      n := 0;
      for i := 0 to |p.order|
        invariant n == PendingCount(p.order[..i], p.recs)
      {
        assert p.order[..i + 1][..i] == p.order[..i];
        if p.order[i] in p.recs && Pending(p.recs[p.order[i]]) {
          n := n + 1;
        }
      }
      assert p.order[..|p.order|] == p.order;
    }

    method Enqueue(text: string, attempt: int, lease: string, messageId: string, uuid: Id,
                   early: Option<Session>, current: Option<Session>, now: real)
      returns (r: Result<Receipt, Error>)
      modifies this`log
      ensures Appends(old(log), log, PlanEnqueue(sid, Fold(old(log)), early, current, text, attempt, lease, messageId, uuid, now), r)
      ensures r.Success? ==>
        var id := if messageId == "" then uuid else messageId;
        id in Fold(log).recs && r.value == View(id, Fold(log).recs[id])
    {
      if !ValidText(text) || attempt < 1 || lease == "" { return Failure(ValueError); }
      var id := if messageId == "" then uuid else messageId;
      if !SafeId(id) { return Failure(ValueError); }
      var refused := CheckOwner(early, attempt, lease);
      if refused.Some? { return Failure(refused.value); }
      var p := Project();
      if id in p.recs {
        var previous := p.recs[id];
        if previous.session != sid || previous.owner.attempt != attempt || previous.text != text {
          return Failure(ValueError);
        }
        assert log == old(log) + [];
        return Success(View(id, previous));
      }
      var pending := CountPending(p);
      if pending >= MAX_PENDING_MESSAGES { return Failure(TransitionError); }
      refused := CheckOwner(current, attempt, lease);
      if refused.Some? { return Failure(refused.value); }
      p := Append(p, AcceptEvent(id, sid, Owner(attempt, HashOf(lease)), text, now, None));
      return Success(View(id, p.recs[id]));
    }

    method EnqueueDeferred(text: string, attempt: int, lease: string, messageId: string, uuid: Id,
                           early: Option<Session>, current: Option<Session>, now: real)
      returns (r: Result<Receipt, Error>)
      modifies this`log
      ensures Appends(old(log), log, PlanEnqueueDeferred(sid, Fold(old(log)), early, current, text, attempt, lease, messageId, uuid, now), r)
      ensures r.Success? ==>
        var id := if messageId == "" then uuid else messageId;
        id in Fold(log).recs && r.value == View(id, Fold(log).recs[id])
    {
      if !ValidText(text) || attempt < 0 { return Failure(ValueError); }
      var id := if messageId == "" then uuid else messageId;
      if !SafeId(id) { return Failure(ValueError); }
      if early.None? { return Failure(KeyError); }
      if early.value.status == Deleted { return Failure(TransitionError); }
      if early.value.attempt != attempt || early.value.leaseToken != lease { return Failure(TransitionError); }
      var p := Project();
      if id in p.recs {
        var previous := p.recs[id];
        if previous.session != sid || previous.text != text { return Failure(ValueError); }
        if previous.state == Accepted && !previous.deferred {
          p := Append(p, DeferEvent(id, attempt, now));
        } else {
          assert log == old(log) + [];
        }
        return Success(View(id, p.recs[id]));
      }
      var pending := CountPending(p);
      if pending >= MAX_PENDING_MESSAGES { return Failure(TransitionError); }
      if current.None? { return Failure(KeyError); }
      if current.value.status == Deleted || current.value.attempt != attempt || current.value.leaseToken != lease {
        return Failure(TransitionError);
      }
      p := Append(p, AcceptEvent(id, sid, Owner(attempt, Unowned), text, now, Some(true)));
      return Success(View(id, p.recs[id]));
    }

    /** Rebind an accepted record that is deferred, and deliver it if it then is the owner's. */
    method TryClaim(p: Projection, id: Id, owner: Owner, now: real) returns (p': Projection, delivered: bool)
      requires p == Fold(log) && id in p.recs && p.recs[id].state == Accepted
      modifies this`log
      ensures log == old(log) + PlanClaim(p, Some(id), owner, now)
      ensures p' == Fold(log) && p'.recs.Keys == p.recs.Keys
      ensures delivered <==> Eligible(p.recs[id], owner)
    {
      hide Fold, Step;
      p' := p;
      ClaimStep(p', id, owner, now);
      if p'.recs[id].deferred {
        p' := Append(p', RebindEvent(id, owner, now));
      }
      if p'.recs[id].owner != owner {
        assert log == old(log) + [];
        return p', false;
      }
      ClaimStep(p', id, owner, now);
      p' := Append(p', DeliverEvent(id, now));
      assert log == old(log) + ClaimEvents(id, p.recs[id], owner, now);
      return p', true;
    }

    /** Scan the records in acceptance order and claim the first that may be given. */
    method ClaimNext(attempt: int, lease: string, current: Option<Session>, now: real)
      returns (r: Result<Option<Receipt>, Error>)
      modifies this`log
      ensures Appends(old(log), log, PlanClaimNext(Fold(old(log)), current, attempt, lease, now), r)
      ensures r.Success? ==>
        var first := Head(Fold(old(log)), Owner(attempt, HashOf(lease)));
        && (first.None? <==> r.value.None?)
        && (first.Some? ==> first.value in Fold(log).recs && r.value == Some(View(first.value, Fold(log).recs[first.value])))
    {
      var refused := CheckOwner(current, attempt, lease);
      if refused.Some? { return Failure(refused.value); }
      var p := Project();
      var owner := Owner(attempt, HashOf(lease));
      var ids := SortByTime(p.order, p.recs);
      FoldWf(log);
      SortMembers(p.order, p.recs);
      assert FirstEligible(ids, p.recs, owner) == Head(p, owner);
      assert forall id | id in ids :: id in p.recs;
      hide Fold, SortByTime, Wf, Head, View, ClaimEvents, CheckOwner;
      for i := 0 to |ids|
        invariant log == old(log) && p == Fold(log)
        invariant FirstEligible(ids[i..], p.recs, owner) == Head(p, owner)
      {
        var id := ids[i];
        assert ids[i..][0] == id && ids[i..][1..] == ids[i + 1..];
        if p.recs[id].state == Accepted {
          var p', delivered := TryClaim(p, id, owner, now);
          if delivered { return Success(Some(View(id, p'.recs[id]))); }
          assert PlanClaim(p, Some(id), owner, now) == [];
        }
      }
      assert log == old(log) + [];
      return Success(None);
    }

    method ClaimById(id: Id, attempt: int, lease: string, current: Option<Session>, now: real)
      returns (r: Result<Option<Receipt>, Error>)
      modifies this`log
      ensures Appends(old(log), log, PlanClaimById(Fold(old(log)), current, id, attempt, lease, now), r)
      ensures r.Success? && r.value.Some? ==> id in Fold(log).recs && r.value.value == View(id, Fold(log).recs[id])
      ensures r.Success? ==> (r.value.None? <==> log == old(log))
    {
      var refused := CheckOwner(current, attempt, lease);
      if refused.Some? { return Failure(refused.value); }
      var p := Project();
      var owner := Owner(attempt, HashOf(lease));
      if id !in p.recs || p.recs[id].state != Accepted {
        assert log == old(log) + [];
        return Success(None);
      }
      var p', delivered := TryClaim(p, id, owner, now);
      if !delivered { return Success(None); }
      return Success(Some(View(id, p'.recs[id])));
    }

    /** One turn of a sweep: append the decided event, if any, and update the record at once. */
    method Visit(sweep: Sweep, p: Projection, id: Id, now: real) returns (p': Projection)
      requires p == Fold(log) && id in p.recs
      modifies this`log
      ensures log == old(log) + Visited(sweep, id, p.recs[id], now)
      ensures p' == Fold(log) && p'.order == p.order
      ensures id in p'.recs && p'.recs == p.recs[id := p'.recs[id]]
    {
      p' := p;
      var decision := Decide(sweep, id, p.recs[id], now);
      DecideShape(sweep, id, p.recs[id], now);
      hide Fold, Decide, Update;
      if decision.Some? {
        p' := Append(p, decision.value);
      } else {
        assert p.recs == p.recs[id := p.recs[id]];
        assert log == old(log) + [];
      }
    }

    /** The loop of the four sweeping operations: visit the records in insertion order. */
    method RunSweep(sweep: Sweep, now: real) returns (p: Projection)
      modifies this`log
      ensures log == old(log) + SweepEvents(sweep, Fold(old(log)).order, Fold(old(log)).recs, now)
      ensures p == Fold(log)
    {
      hide Fold, Visited, Wf, Distinct, SweepEvents;
      p := Project();
      FoldWf(log);
      var order, recs := p.order, p.recs;
      WfOrder(p);
      DistinctAt(order);
      SweepNone(sweep, order, recs, now);
      ghost var done: seq<Event> := [];
      for i := 0 to |order|
        invariant log == old(log) + done && done == SweepEvents(sweep, order[..i], recs, now)
        invariant p == Fold(log) && p.recs.Keys == recs.Keys
        invariant forall j | i <= j < |order| :: p.recs[order[j]] == recs[order[j]]
      {
        SweepStep(sweep, order, i, recs, now);
        var id := order[i];
        assert p.recs[id] == recs[id];
        p := Visit(sweep, p, id, now);
        done := done + Visited(sweep, id, recs[id], now);
      }
      assert order[..|order|] == order;
    }

    method MarkWaitingRecovery(attempt: int, lease: string, reason: string, current: Option<Session>, now: real)
      returns (r: Result<seq<Receipt>, Error>)
      modifies this`log
      ensures Appends(old(log), log, PlanMarkWaiting(Fold(old(log)), current, attempt, lease, reason, now), r)
      ensures r.Success? ==> r.value == Receipts(Fold(log))
    {
      var refused := CheckOwner(current, attempt, lease);
      if refused.Some? { return Failure(refused.value); }
      var p := RunSweep(Waiting(Owner(attempt, HashOf(lease)), SafeReason(reason)), now);
      return Success(Receipts(p));
    }

    method RearmRecoveryWait(attempt: int, lease: string, current: Option<Session>, now: real)
      returns (r: Result<seq<Receipt>, Error>)
      modifies this`log
      ensures Appends(old(log), log, PlanRearm(Fold(old(log)), current, attempt, lease, now), r)
      ensures r.Success? ==> r.value == Receipts(Fold(log))
    {
      if current.None? { return Failure(KeyError); }
      if !RearmableStatus(current.value.status) || current.value.attempt != attempt || current.value.leaseToken != lease {
        return Failure(TransitionError);
      }
      var p := RunSweep(Rearming(attempt), now);
      return Success(Receipts(p));
    }

    /** Look at the head of the queue without claiming it. */
    method PeekNext(attempt: int, lease: string, current: Option<Session>) returns (r: Result<Option<Receipt>, Error>)
      ensures r == Peek(Fold(log), current, attempt, lease)
    {
      var refused := CheckOwner(current, attempt, lease);
      if refused.Some? { return Failure(refused.value); }
      var p := Project();
      var owner := Owner(attempt, HashOf(lease));
      var ids := SortByTime(p.order, p.recs);
      ghost var first := FirstEligible(ids, p.recs, owner);
      FoldWf(log);
      SortMembers(p.order, p.recs);
      for i := 0 to |ids|
        invariant FirstEligible(ids[i..], p.recs, owner) == first
      {
        var id := ids[i];
        assert ids[i..][0] == id && ids[i..][1..] == ids[i + 1..];
        assert id in p.order;
        if p.recs[id].state != Accepted { continue; }
        if p.recs[id].deferred { return Success(Some(View(id, p.recs[id]))); }
        if p.recs[id].owner == owner { return Success(Some(View(id, p.recs[id]))); }
      }
      return Success(None);
    }

    method Reject(id: Id, attempt: int, lease: string, reason: string, now: real) returns (r: Result<Receipt, Error>)
      modifies this`log
      ensures Appends(old(log), log, PlanReject(Fold(old(log)), id, attempt, lease, reason, now), r)
      ensures r.Success? ==> id in Fold(log).recs && r.value == View(id, Fold(log).recs[id])
    {
      var p := Project();
      if id !in p.recs { return Failure(KeyError); }
      if !(Pending(p.recs[id]) || p.recs[id].state == Delivered) || p.recs[id].owner != Owner(attempt, HashOf(lease)) {
        return Failure(TransitionError);
      }
      p := Append(p, RejectEvent(id, Text.Take(reason, 240), now));
      return Success(View(id, p.recs[id]));
    }

    method Acknowledge(id: Id, attempt: int, lease: string, current: Option<Session>, now: real)
      returns (r: Result<Receipt, Error>)
      modifies this`log
      ensures Appends(old(log), log, PlanAcknowledge(Fold(old(log)), current, id, attempt, lease, now), r)
      ensures r.Success? ==> id in Fold(log).recs && r.value == View(id, Fold(log).recs[id])
    {
      var p := Project();
      if id !in p.recs { return Failure(KeyError); }
      if p.recs[id].state == Delivered {
        assert log == old(log) + [];
        return Success(View(id, p.recs[id]));
      }
      if p.recs[id].state != Claimed || p.recs[id].owner != Owner(attempt, HashOf(lease)) {
        return Failure(TransitionError);
      }
      var refused := CheckOwner(current, attempt, lease);
      if refused.Some? { return Failure(refused.value); }
      p := Append(p, DeliverEvent(id, now));
      return Success(View(id, p.recs[id]));
    }

    /** A settlement that wrote nothing gives the log up before it asks for the receipts: `between` is what other
        processes append until `receipts` has it again. */
    method SettleAttempt(attempt: int, lease: string, delivered: set<Id>, completed: set<Id>, succeeded: bool, now: real,
                         between: seq<Event>, current: Option<Session>, later: real)
      returns (r: seq<Receipt>)
      modifies this`log
      ensures var evs := PlanSettle(Fold(old(log)), attempt, lease, delivered, completed, succeeded, now);
        log == old(log) + if evs != [] then evs else between + PlanReceipts(Fold(old(log) + between), current, later)
      ensures r == Receipts(Fold(log))
    {
      hide Fold, SweepEvents, Receipts, Wf, Distinct;
      var before := |log|;
      var p := RunSweep(Settling(Owner(attempt, HashOf(lease)), delivered, completed, succeeded), now);
      if |log| != before { return Receipts(p); }
      assert log == old(log);
      log := log + between;
      r := ReadReceipts(current, later);
    }

    /** `receipts`: reconcile what the observed session can no longer consume, then list. */
    method ReadReceipts(seen: Option<Session>, now: real) returns (r: seq<Receipt>)
      modifies this`log
      ensures log == old(log) + PlanReceipts(Fold(old(log)), seen, now)
      ensures r == Receipts(Fold(log))
    {
      if seen.None? {
        var p := Project();
        assert log == old(log) + [];
        return Receipts(p);
      }
      var p := RunSweep(Reconciling(seen.value), now);
      return Receipts(p);
    }
  }

  /** The contract every refusable operation shares: it raises exactly when its plan does, and
      otherwise appends exactly the planned events. */
  ghost predicate Appends<T(!new)>(before: seq<Event>, after: seq<Event>, plan: Plan, r: Result<T, Error>) {
    match plan
    case Failure(e) => r == Failure(e) && after == before
    case Success(evs) => r.Success? && after == before + evs
  }

  function Peek(p: Projection, session: Option<Session>, attempt: int, lease: string): Result<Option<Receipt>, Error> {
    if CheckOwner(session, attempt, lease).Some? then Failure(CheckOwner(session, attempt, lease).value)
    else
      var first := Head(p, Owner(attempt, HashOf(lease)));
      if first.Some? && first.value in p.recs then Success(Some(View(first.value, p.recs[first.value])))
      else Success(None)
  }
}
