/** The leased, bounded-attempt notification outbox (src/agenthicc/background/notifications.py).

    Rows are kept in insertion order. A lease token is the number of claims made before it, which
    stands for the fresh UUID of the source. */
module Outbox {
  import opened Wrappers
  import Text

  datatype Status = Pending | Sending | Delivered | Failed

  datatype Row = Row(
    id: string,
    event: string,
    destination: string,
    maxAttempts: nat,
    baseDelay: real,
    maxDelay: real,
    rateLimits: bool,
    timeout: real,
    status: Status,
    attempts: nat,
    nextAt: real,
    lease: Option<nat>,
    leaseUntil: real,
    category: string,
    createdAt: real)

  datatype Db = Db(events: set<string>, rows: seq<Row>, issued: nat)

  // ---------- enqueue ----------

  datatype Destination = Destination(name: string, valid: bool)

  datatype Policy = Policy(timeout: real, maxAttempts: int, baseDelay: real, maxDelay: real, rateLimits: bool)

  datatype Descriptor = Descriptor(event: string, known: bool, payloadBytes: nat, destinations: seq<Destination>, policy: Policy)

  function BoundedInt(value: int, default: int, low: int, high: int): int {
    if low <= value <= high then value else default
  }

  function BoundedReal(value: real, default: real, low: real, high: real): real {
    if low <= value <= high then value else default
  }

  function RowId(event: string, name: string): string {
    event + ":" + name
  }

  function NewRow(d: Descriptor, name: string, now: real): Row {
    Row(RowId(d.event, name), d.event, name,
        BoundedInt(d.policy.maxAttempts, 5, 1, 20),
        BoundedReal(d.policy.baseDelay, 1.0, 0.1, 3_600.0),
        BoundedReal(d.policy.maxDelay, 300.0, 0.1, 86_400.0),
        d.policy.rateLimits,
        BoundedReal(d.policy.timeout, 5.0, 0.1, 60.0),
        Pending, 0, now, None, 0.0, "", now)
  }

  predicate ValidDescriptor(d: Descriptor) {
    d.event != "" && d.known && 1 <= |d.destinations| <= 64 && d.payloadBytes <= 16_384
  }

  predicate ValidDestination(d: Destination) {
    d.valid && 1 <= |d.name| <= 128
  }

  predicate HasId(rows: seq<Row>, id: string) {
    exists i | 0 <= i < |rows| :: rows[i].id == id
  }

  /** The inserts in order; an invalid destination or a repeated primary key aborts them all. */
  function InsertAll(rows: seq<Row>, d: Descriptor, k: nat, now: real): Option<seq<Row>>
    requires k <= |d.destinations|
    decreases |d.destinations| - k
  {
    if k == |d.destinations| then Some(rows)
    else if !ValidDestination(d.destinations[k]) || HasId(rows, RowId(d.event, d.destinations[k].name)) then None
    else InsertAll(rows + [NewRow(d, d.destinations[k].name, now)], d, k + 1, now)
  }

  function EnqueueRows(db: Db, d: Descriptor, now: real): Option<seq<Row>> {
    if !ValidDescriptor(d) then None
    else if d.event in db.events then Some(db.rows)
    else InsertAll(db.rows, d, 0, now)
  }

  function EnqueueDb(db: Db, d: Descriptor, now: real): Db {
    if EnqueueRows(db, d, now).Some? then db.(events := db.events + {d.event}, rows := EnqueueRows(db, d, now).value) else db
  }

  // ---------- claim ----------

  predicate IsOpen(r: Row) {
    r.status == Pending || r.status == Sending
  }

  function Failing(r: Row): Row {
    r.(status := Failed, lease := None, category := "attempts_exhausted")
  }

  /** The first update of `claim_due`: a row whose last lease ran out fails. */
  function Exhausted(r: Row, now: real): Row {
    if r.status == Sending && r.attempts >= r.maxAttempts && r.leaseUntil <= now then Failing(r).(nextAt := 0.0) else r
  }

  function ExhaustAll(rows: seq<Row>, now: real): seq<Row> {
    seq(|rows|, i requires 0 <= i < |rows| => Exhausted(rows[i], now))
  }

  predicate Due(r: Row, now: real) {
    (r.status == Pending && r.nextAt <= now) || (r.status == Sending && r.leaseUntil <= now)
  }

  /** `ORDER BY next_attempt_at, created_at, delivery_id` */
  predicate Before(a: Row, b: Row) {
    || a.nextAt < b.nextAt
    || (a.nextAt == b.nextAt && (a.createdAt < b.createdAt || (a.createdAt == b.createdAt && Text.Less(a.id, b.id))))
  }

  /** Index of the first due row in that order. */
  function Head(rows: seq<Row>, now: real): (h: Option<nat>)
    ensures h.Some? ==> h.value < |rows| && Due(rows[h.value], now)
  {
    if rows == [] then None
    else
      var last := |rows| - 1;
      var h := Head(rows[..last], now);
      if !Due(rows[last], now) then h
      else if h.None? || Before(rows[last], rows[h.value]) then Some(last)
      else h
  }

  function LeaseFor(r: Row): real {
    if r.timeout + 5.0 > 30.0 then r.timeout + 5.0 else 30.0
  }

  function Leased(r: Row, token: nat, now: real): Row {
    r.(status := Sending, attempts := r.attempts + 1, lease := Some(token), leaseUntil := now + LeaseFor(r))
  }

  /** The row that `claim_due` hands out, if any. */
  function Claimable(db: Db, now: real): (h: Option<nat>)
    ensures h.Some? ==> h.value < |db.rows| && Due(ExhaustAll(db.rows, now)[h.value], now)
  {
    var rows := ExhaustAll(db.rows, now);
    var h := Head(rows, now);
    if h.Some? && rows[h.value].attempts < rows[h.value].maxAttempts then h else None
  }

  function ClaimDb(db: Db, now: real): Db {
    var rows := ExhaustAll(db.rows, now);
    var h := Head(rows, now);
    if h.None? then db.(rows := rows)
    else if rows[h.value].attempts >= rows[h.value].maxAttempts then db.(rows := rows[h.value := Failing(rows[h.value])])
    else db.(rows := rows[h.value := Leased(rows[h.value], db.issued, now)], issued := db.issued + 1)
  }

  // ---------- finish ----------

  datatype Outcome = Outcome(category: string, retryAt: Option<real>, terminal: bool)

  function FinalStatus(o: Outcome): Status {
    if o.category == "delivered" then Delivered else if o.terminal then Failed else Pending
  }

  predicate Holds(r: Row, id: string, token: nat) {
    r.id == id && r.status == Sending && r.lease == Some(token)
  }

  function Finished(r: Row, o: Outcome): Row {
    r.(status := FinalStatus(o), category := Text.Take(o.category, 64),
       nextAt := if o.retryAt.Some? then o.retryAt.value else 0.0, lease := None)
  }

  function FinishRows(rows: seq<Row>, id: string, token: nat, o: Outcome): seq<Row> {
    seq(|rows|, i requires 0 <= i < |rows| => if Holds(rows[i], id, token) then Finished(rows[i], o) else rows[i])
  }

  function FinishDb(db: Db, id: string, token: nat, o: Outcome): Db {
    db.(rows := FinishRows(db.rows, id, token, o))
  }

  function Holders(rows: seq<Row>, id: string, token: nat): nat {
    if rows == [] then 0
    else Holders(rows[..|rows| - 1], id, token) + if Holds(rows[|rows| - 1], id, token) then 1 else 0
  }

  /** A claimed row whose stored payload does not read as an object fails at once. */
  const UNREADABLE := Outcome("invalid_outbox_payload", None, true)

  /** The row that `claim_due` returns: the one it leased, if the payload of its event can be read. */
  function Handed(db: Db, now: real, readable: string -> bool): (h: Option<nat>)
    ensures h.Some? ==> Claimable(db, now) == h
  {
    var h := Claimable(db, now);
    if h.Some? && readable(db.rows[h.value].event) then h else None
  }

  function ClaimDueDb(db: Db, now: real, readable: string -> bool): Db {
    var h := Claimable(db, now);
    if h.Some? && Handed(db, now, readable).None?
    then FinishDb(ClaimDb(db, now), db.rows[h.value].id, db.issued, UNREADABLE)
    else ClaimDb(db, now)
  }

  // ---------- one delivery ----------

  /** What came of one delivery attempt, with the retry delay of a `Retry-After` header (section 10.2.3
      of RFC 9110) already parsed to seconds. */
  datatype Response =
    | LocalNotice(category: string)
    | BadKind
    | Blocked
    | MissingSecret
    | NetworkError
    | Http(status: int, retryAfter: Option<real>)

  /** `classify_webhook_status` */
  function Classify(status: int, retryRateLimits: bool): (string, bool) {
    if 200 <= status < 300 then ("delivered", false)
    else if status == 429 then ("rate_limited", retryRateLimits)
    else if status == 408 || status == 425 || 500 <= status <= 599 then ("transient_http_error", true)
    else if 300 <= status < 400 then ("redirect_blocked", false)
    else if 400 <= status < 500 then ("permanent_http_error", false)
    else ("invalid_http_status", false)
  }

  function Min(a: real, b: real): real { if a <= b then a else b }

  function Pow2(n: nat): nat { if n == 0 then 1 else 2 * Pow2(n - 1) }

  function Ceiling(r: Row): real {
    var exponent := if r.attempts < 1 then 0 else if r.attempts - 1 > 30 then 30 else r.attempts - 1;
    Min(r.maxDelay, r.baseDelay * Pow2(exponent) as real)
  }

  /** `_backoff`; `jitter` is the drawn 0 to 400. */
  function Backoff(r: Row, jitter: nat, now: real): real {
    now + Min(r.maxDelay, Ceiling(r) * (800 + jitter) as real / 1_000.0)
  }

  function RetryAfter(seconds: real, r: Row, now: real): real {
    now + Min(if seconds < 0.0 then 0.0 else seconds, r.maxDelay)
  }

  /** `deliver_one` after the network call. */
  function DeliverOne(r: Row, response: Response, jitter: nat, now: real): Outcome {
    match response
    case LocalNotice(category) => Outcome(category, None, true)
    case BadKind => Outcome("invalid_destination_kind", None, true)
    case Blocked => Outcome("destination_blocked", None, true)
    case MissingSecret => Outcome("missing_secret", None, true)
    case NetworkError =>
      if r.attempts >= r.maxAttempts then Outcome("attempts_exhausted", None, true)
      else Outcome("transient_network_error", Some(Backoff(r, jitter, now)), false)
    case Http(status, retryAfter) =>
      var (category, retryable) := Classify(status, r.rateLimits);
      if category == "delivered" || !retryable then Outcome(category, None, true)
      else if r.attempts >= r.maxAttempts then Outcome("attempts_exhausted", None, true)
      else Outcome(category, Some(if retryAfter.Some? then RetryAfter(retryAfter.value, r, now) else Backoff(r, jitter, now)), false)
  }

  // ---------- draining ----------

  /** Attempts that open rows may still use, and one more for each row that must still close. */
  function Work(rows: seq<Row>): nat {
    if rows == [] then 0
    else
      var r := rows[|rows| - 1];
      Work(rows[..|rows| - 1]) + if IsOpen(r) then 1 + (if r.attempts <= r.maxAttempts then r.maxAttempts - r.attempts else 0) else 0
  }

  function DueAt(r: Row): real {
    if r.status == Pending then r.nextAt else r.leaseUntil
  }

  /** `next_due_time` */
  function NextDue(rows: seq<Row>): Option<real> {
    if rows == [] then None
    else
      var r := rows[|rows| - 1];
      var rest := NextDue(rows[..|rows| - 1]);
      if !IsOpen(r) then rest
      else if rest.None? || DueAt(r) <= rest.value then Some(DueAt(r))
      else rest
  }

  predicate AnyOpen(rows: seq<Row>) {
    exists i | 0 <= i < |rows| :: IsOpen(rows[i])
  }

  /** Sleeps of at least a twentieth of a second until a moment. */
  function Naps(due: Option<real>, now: real): nat {
    if due.None? || due.value <= now then 0 else ((due.value - now) * 20.0).Floor + 1
  }

  function SleepFor(due: real, now: real): real {
    Min(0.5, if due - now < 0.05 then 0.05 else due - now)
  }

  ghost predicate AttemptsBounded(rows: seq<Row>) {
    forall i | 0 <= i < |rows| :: rows[i].attempts <= rows[i].maxAttempts
  }

  // ---------- lemmas about the functions ----------

  lemma BeforeTrans(a: Row, b: Row, c: Row)
    requires Before(a, b) && Before(b, c)
    ensures Before(a, c)
  {
    if a.id != b.id { }
    if Text.Less(a.id, b.id) && Text.Less(b.id, c.id) { Text.LessTrans(a.id, b.id, c.id); }
  }

  lemma BeforeTotal(a: Row, b: Row)
    ensures !(Before(a, b) && Before(b, a))
    ensures a.id != b.id ==> Before(a, b) || Before(b, a)
  {
    Text.LessTotal(a.id, b.id);
  }

  /** The head is the first due row in the query's order, and there is one whenever a row is due. */
  lemma {:induction false} HeadIsFirst(rows: seq<Row>, now: real, i: nat)
    requires i < |rows| && Due(rows[i], now)
    ensures Head(rows, now).Some? && !Before(rows[i], rows[Head(rows, now).value])
  {
    var last := |rows| - 1;
    BeforeTotal(rows[i], rows[i]);
    var h := Head(rows[..last], now);
    if i < last {
      HeadIsFirst(rows[..last], now, i);
      assert rows[..last][i] == rows[i];
      if Head(rows, now) == Some(last) && Before(rows[i], rows[last]) && h.Some? {
        BeforeTrans(rows[i], rows[last], rows[h.value]);
      }
    }
  }

  /** Changing one row changes the work by the difference of that row. */
  lemma {:induction false} WorkUpdate(rows: seq<Row>, i: nat, r: Row)
    requires i < |rows|
    ensures Work(rows[i := r]) == Work(rows) - Work([rows[i]]) + Work([r])
  {
    var last := |rows| - 1;
    if i == last {
      assert rows[i := r][..last] == rows[..last];
      WorkOne(rows[i]);
      WorkOne(r);
    } else {
      assert rows[i := r][..last] == rows[..last][i := r];
      WorkUpdate(rows[..last], i, r);
    }
  }

  lemma WorkOne(r: Row)
    ensures Work([r]) == if IsOpen(r) then 1 + (if r.attempts <= r.maxAttempts then r.maxAttempts - r.attempts else 0) else 0
  {
    assert [r][..0] == [];
  }

  /** Rows that only lose work lose work in total, strictly if one does. */
  lemma {:induction false} WorkFalls(rows: seq<Row>, rows': seq<Row>)
    requires |rows| == |rows'|
    requires forall i | 0 <= i < |rows| :: Work([rows'[i]]) <= Work([rows[i]])
    ensures Work(rows') <= Work(rows)
    ensures (exists i | 0 <= i < |rows| :: Work([rows'[i]]) < Work([rows[i]])) ==> Work(rows') < Work(rows)
  {
    if rows != [] {
      var last := |rows| - 1;
      WorkFalls(rows[..last], rows'[..last]);
      WorkOne(rows[last]);
      WorkOne(rows'[last]);
      forall i | 0 <= i < last ensures rows[..last][i] == rows[i] && rows'[..last][i] == rows'[i] {}
    }
  }

  lemma {:induction false} NextDueIs(rows: seq<Row>)
    ensures AnyOpen(rows) <==> NextDue(rows).Some?
    ensures NextDue(rows).Some? ==>
      && (forall i | 0 <= i < |rows| && IsOpen(rows[i]) :: NextDue(rows).value <= DueAt(rows[i]))
      && (exists i | 0 <= i < |rows| :: IsOpen(rows[i]) && NextDue(rows).value == DueAt(rows[i]))
  {
    if rows != [] {
      var last := |rows| - 1;
      NextDueIs(rows[..last]);
      assert forall i | 0 <= i < last :: rows[..last][i] == rows[i];
    }
  }

  // ---------- counting attempts ----------

  function Attempts(rows: seq<Row>): nat {
    if rows == [] then 0 else Attempts(rows[..|rows| - 1]) + rows[|rows| - 1].attempts
  }

  function Allowance(rows: seq<Row>): nat {
    if rows == [] then 0 else Allowance(rows[..|rows| - 1]) + rows[|rows| - 1].maxAttempts
  }

  lemma {:induction false} AttemptsBelow(rows: seq<Row>)
    requires AttemptsBounded(rows)
    ensures Attempts(rows) <= Allowance(rows)
  {
    if rows != [] { AttemptsBelow(rows[..|rows| - 1]); }
  }

  lemma {:induction false} SameAttempts(a: seq<Row>, b: seq<Row>)
    requires |a| == |b| && forall i | 0 <= i < |a| :: a[i].attempts == b[i].attempts
    ensures Attempts(a) == Attempts(b)
  {
    if a != [] { SameAttempts(a[..|a| - 1], b[..|b| - 1]); }
  }

  lemma {:induction false} AttemptsUpdate(rows: seq<Row>, i: nat, r: Row)
    requires i < |rows|
    ensures Attempts(rows[i := r]) == Attempts(rows) - rows[i].attempts + r.attempts
  {
    var last := |rows| - 1;
    if i == last {
      assert rows[i := r][..last] == rows[..last];
    } else {
      assert rows[i := r][..last] == rows[..last][i := r];
      AttemptsUpdate(rows[..last], i, r);
    }
  }

  lemma {:induction false} SameAllowance(a: seq<Row>, b: seq<Row>)
    requires |a| == |b| && forall i | 0 <= i < |a| :: a[i].maxAttempts == b[i].maxAttempts
    ensures Allowance(a) == Allowance(b)
  {
    if a != [] { SameAllowance(a[..|a| - 1], b[..|b| - 1]); }
  }

  /** A claim uses exactly one attempt if it hands out a lease and none otherwise, and changes no limit. */
  lemma ClaimAttempts(db: Db, now: real)
    ensures var after := ClaimDb(db, now);
      && Attempts(after.rows) - Attempts(db.rows) == after.issued - db.issued
      && Allowance(after.rows) == Allowance(db.rows)
  {
    var rows := ExhaustAll(db.rows, now);
    var h := Head(rows, now);
    SameAttempts(db.rows, rows);
    if h.Some? {
      AttemptsUpdate(rows, h.value, Failing(rows[h.value]));
      AttemptsUpdate(rows, h.value, Leased(rows[h.value], db.issued, now));
    }
    SameAllowance(db.rows, ClaimDb(db, now).rows);
  }

  /** A claim renames no row. */
  lemma ClaimKeepsNames(db: Db, now: real)
    ensures var after := ClaimDb(db, now);
      && |after.rows| == |db.rows|
      && forall i | 0 <= i < |db.rows| :: after.rows[i].id == db.rows[i].id && after.rows[i].event == db.rows[i].event
  {
  }

  lemma FinishAttempts(rows: seq<Row>, id: string, token: nat, o: Outcome)
    ensures var after := FinishRows(rows, id, token, o);
      Attempts(after) == Attempts(rows) && Allowance(after) == Allowance(rows)
  {
    SameAttempts(rows, FinishRows(rows, id, token, o));
    SameAllowance(rows, FinishRows(rows, id, token, o));
  }

  // ---------- the class ----------

  class Box {
    var events: set<string>
    var rows: seq<Row>
    var issued: nat

    function Tables(): Db reads this { Db(events, rows, issued) }

    constructor ()
      ensures Tables() == Db({}, [], 0)
    {
      events, rows, issued := {}, [], 0;
    }

    method Enqueue(d: Descriptor, now: real) returns (inserted: Option<bool>)
      modifies this
      ensures Tables() == EnqueueDb(old(Tables()), d, now)
      ensures inserted == if EnqueueRows(old(Tables()), d, now).None? then None else Some(d.event !in old(events))
    {
      if !ValidDescriptor(d) { return None; }
      if d.event in events {
        assert events == events + {d.event};
        return Some(false);
      }
      var pending := rows;
      for k := 0 to |d.destinations|
        invariant Tables() == old(Tables())
        invariant InsertAll(pending, d, k, now) == InsertAll(rows, d, 0, now)
      {
        var destination := d.destinations[k];
        if !ValidDestination(destination) { return None; }
        var id := RowId(d.event, destination.name);
        var used := FindId(pending, id);
        if used { return None; }
        pending := pending + [NewRow(d, destination.name, now)];
      }
      events, rows := events + {d.event}, pending;
      return Some(true);
    }

    static method FindId(rows: seq<Row>, id: string) returns (found: bool)
      ensures found <==> HasId(rows, id)
    {
      found := false;
      for i := 0 to |rows|
        invariant found <==> HasId(rows[..i], id)
      {
        found := found || rows[i].id == id;
        assert forall j | 0 <= j < i :: rows[..i + 1][j] == rows[..i][j];
        assert rows[..i + 1][i] == rows[i];
      }
      assert rows[..|rows|] == rows;
    }

    method HasPending() returns (some: bool)
      ensures some <==> AnyOpen(rows)
    {
      for i := 0 to |rows|
        invariant forall j | 0 <= j < i :: !IsOpen(rows[j])
      {
        if IsOpen(rows[i]) { return true; }
      }
      return false;
    }

    method NextDueTime() returns (due: Option<real>)
      ensures due == NextDue(rows)
    {
      due := None;
      for i := 0 to |rows|
        invariant due == NextDue(rows[..i])
      {
        assert rows[..i + 1][..i] == rows[..i];
        if IsOpen(rows[i]) && (due.None? || DueAt(rows[i]) <= due.value) {
          due := Some(DueAt(rows[i]));
        }
      }
      assert rows[..|rows|] == rows;
    }

    /** The transaction of `claim_due`: fail exhausted leases, then lease the first due row under a fresh token. */
    method Lease(now: real) returns (claim: Option<Row>)
      modifies this
      ensures Tables() == ClaimDb(old(Tables()), now)
      ensures var h := Claimable(old(Tables()), now);
        && (claim.Some? <==> h.Some?)
        && (claim.Some? ==> claim.value == rows[h.value] && claim.value.lease == Some(old(issued)))
    {
      hide Due, Before, Exhausted, Failing;
      for i := 0 to |rows|
        invariant |rows| == |old(rows)| && events == old(events) && issued == old(issued)
        invariant forall j | 0 <= j < i :: rows[j] == Exhausted(old(rows)[j], now)
        invariant forall j | i <= j < |rows| :: rows[j] == old(rows)[j]
      {
        rows := rows[i := Exhausted(rows[i], now)];
      }
      assert rows == ExhaustAll(old(rows), now);
      var head: Option<nat> := None;
      for i := 0 to |rows|
        invariant head == Head(rows[..i], now)
      {
        assert rows[..i + 1][..i] == rows[..i];
        if Due(rows[i], now) && (head.None? || Before(rows[i], rows[head.value])) {
          head := Some(i);
        }
      }
      assert rows[..|rows|] == rows;
      if head.None? { return None; }
      var row := rows[head.value];
      if row.attempts >= row.maxAttempts {
        rows := rows[head.value := Failing(row)];
        return None;
      }
      rows := rows[head.value := Leased(row, issued, now)];
      issued := issued + 1;
      return Some(rows[head.value]);
    }

    /** `claim_due`; `readable` says whether the stored payload of an event reads as an object. */
    method ClaimDue(now: real, readable: string -> bool) returns (claim: Option<Row>)
      modifies this
      ensures Tables() == ClaimDueDb(old(Tables()), now, readable)
      ensures var h := Handed(old(Tables()), now, readable);
        && (claim.Some? <==> h.Some?)
        && (claim.Some? ==> claim.value == rows[h.value] && claim.value.lease == Some(old(issued)))
    {
      hide ExhaustAll, FinishRows, Head;
      claim := Lease(now);
      ClaimKeepsNames(old(Tables()), now);
      if claim.Some? && !readable(claim.value.event) {
        var _ := Finish(claim.value.id, claim.value.lease.value, UNREADABLE);
        return None;
      }
    }

    /** Commit a result, only for the holder of the current lease. */
    method Finish(id: string, token: nat, o: Outcome) returns (committed: bool)
      modifies this
      ensures Tables() == FinishDb(old(Tables()), id, token, o)
      ensures committed <==> Holders(old(rows), id, token) == 1
    {
      var count: nat := 0;
      for i := 0 to |rows|
        invariant |rows| == |old(rows)| && events == old(events) && issued == old(issued)
        invariant forall j | 0 <= j < i :: rows[j] == FinishRows(old(rows), id, token, o)[j]
        invariant forall j | i <= j < |rows| :: rows[j] == old(rows)[j]
        invariant count == Holders(old(rows)[..i], id, token)
      {
        assert old(rows)[..i + 1][..i] == old(rows)[..i];
        if Holds(rows[i], id, token) {
          rows := rows[i := Finished(rows[i], o)];
          count := count + 1;
        }
      }
      assert old(rows)[..|rows|] == old(rows);
      assert rows == FinishRows(old(rows), id, token, o);
      return count == 1;
    }

    /** `dispatch_outbox`, the only process at work. Delivery `i` meets `responses(i)` and the clock
        moves on by at least `elapsed(i)` in turn `i`, besides the time slept. */
    method Dispatch(maxEvents: int, start: real, readable: string -> bool, responses: nat -> Response, jitter: nat -> nat,
                    elapsed: nat -> real)
      returns (processed: nat)
      requires AttemptsBounded(rows)
      requires forall i: nat :: elapsed(i) >= 0.0
      modifies this
      ensures AttemptsBounded(rows) && |rows| == |old(rows)|
      ensures processed <= issued - old(issued) == Attempts(rows) - Attempts(old(rows))
      ensures Allowance(rows) == Allowance(old(rows)) && issued - old(issued) <= Allowance(old(rows)) - Attempts(old(rows))
      ensures maxEvents > 0 ==> processed <= maxEvents
      ensures maxEvents <= 0 ==> !AnyOpen(rows)
    {
      hide Work, ClaimDb, ClaimDueDb, Handed, ExhaustAll, FinishRows, NextDue, AttemptsBounded, DeliverOne, Holders, Naps, AllLater;
      hide Claimable, AnyOpen, Attempts, Allowance;
      processed := 0;
      var now, turn := start, 0;
      AttemptsBelow(rows);
      while maxEvents <= 0 || processed < maxEvents
        invariant AttemptsBounded(rows) && |rows| == |old(rows)|
        invariant processed <= issued - old(issued) == Attempts(rows) - Attempts(old(rows))
        invariant Attempts(rows) <= Allowance(rows) == Allowance(old(rows))
        invariant maxEvents > 0 ==> processed <= maxEvents
        decreases Work(rows), Naps(NextDue(rows), now)
      {
        ghost var before, asked := Tables(), now;
        var claim := ClaimDue(now, readable);
        ClaimDueWork(before, now, readable);
        AttemptsBelow(rows);
        now := now + elapsed(turn);
        if claim.None? {
          if maxEvents > 0 { return; }
          var more := HasPending();
          if !more { return; }
          var due := NextDueTime();
          NextDueIs(rows);
          var sleep := SleepFor(due.value, now);
          if rows == before.rows {
            NextDueLater(rows, asked);
            NapsFall(due.value, asked, now, sleep);
          }
          now := now + sleep;
        } else {
          var o := DeliverOne(claim.value, responses(turn), jitter(turn), now);
          FinishWork(rows, claim.value.id, claim.value.lease.value, o);
          FinishAttempts(rows, claim.value.id, claim.value.lease.value, o);
          var _ := Finish(claim.value.id, claim.value.lease.value, o);
          processed := processed + 1;
        }
        turn := turn + 1;
      }
    }
  }

  /** The whole of `claim_due`: one attempt for each lease, handed out or not, and less work unless nothing happened. */
  lemma ClaimDueWork(db: Db, now: real, readable: string -> bool)
    requires AttemptsBounded(db.rows)
    ensures var after := ClaimDueDb(db, now, readable);
      && AttemptsBounded(after.rows) && |after.rows| == |db.rows|
      && Attempts(after.rows) - Attempts(db.rows) == after.issued - db.issued >= (if Handed(db, now, readable).Some? then 1 else 0)
      && Allowance(after.rows) == Allowance(db.rows)
      && (Work(after.rows) < Work(db.rows)
          || (Handed(db, now, readable).None? && AllLater(after.rows, now) && after.rows == db.rows))
  {
    hide ClaimDb, FinishRows, Work, AllLater, AttemptsBounded, Attempts, Allowance;
    ClaimWork(db, now);
    ClaimAttempts(db, now);
    var h := Claimable(db, now);
    if h.Some? {
      FinishWork(ClaimDb(db, now).rows, db.rows[h.value].id, db.issued, UNREADABLE);
      FinishAttempts(ClaimDb(db, now).rows, db.rows[h.value].id, db.issued, UNREADABLE);
    }
  }

  /** Failing exhausted leases never adds work, and uses some up unless it changes nothing. */
  lemma ExhaustWork(rows: seq<Row>, now: real)
    requires AttemptsBounded(rows)
    ensures var after := ExhaustAll(rows, now);
      AttemptsBounded(after) && |after| == |rows| && (after == rows || Work(after) < Work(rows)) && Work(after) <= Work(rows)
  {
    var after := ExhaustAll(rows, now);
    forall i | 0 <= i < |rows|
      ensures Work([after[i]]) <= Work([rows[i]])
      ensures after[i] != rows[i] ==> Work([after[i]]) < Work([rows[i]])
    {
      WorkOne(rows[i]);
      WorkOne(after[i]);
    }
    WorkFalls(rows, after);
    if forall i | 0 <= i < |rows| :: after[i] == rows[i] {
      assert after == rows;
    }
  }

  /** A claim uses up work; one that hands out nothing either closes a row or changes nothing, and then
      every open row is due later. */
  lemma ClaimWork(db: Db, now: real)
    requires AttemptsBounded(db.rows)
    ensures var after := ClaimDb(db, now);
      && AttemptsBounded(after.rows) && |after.rows| == |db.rows|
      && after.issued == db.issued + (if Claimable(db, now).Some? then 1 else 0)
      && (Work(after.rows) < Work(db.rows) || (Claimable(db, now).None? && AllLater(after.rows, now) && after.rows == db.rows))
  {
    var rows := ExhaustAll(db.rows, now);
    ExhaustWork(db.rows, now);
    var h := Head(rows, now);
    if h.Some? {
      var r := rows[h.value];
      var r' := if r.attempts >= r.maxAttempts then Failing(r) else Leased(r, db.issued, now);
      WorkOne(r);
      WorkOne(r');
      WorkUpdate(rows, h.value, r');
    } else {
      forall i | 0 <= i < |rows| ensures !Due(rows[i], now) {
        if Due(rows[i], now) { HeadIsFirst(rows, now, i); }
      }
    }
  }

  ghost predicate AllLater(rows: seq<Row>, now: real) {
    forall i | 0 <= i < |rows| && IsOpen(rows[i]) :: DueAt(rows[i]) > now
  }

  lemma NextDueLater(rows: seq<Row>, now: real)
    requires AllLater(rows, now) && NextDue(rows).Some?
    ensures NextDue(rows).value > now
  {
    NextDueIs(rows);
  }

  lemma FinishWork(rows: seq<Row>, id: string, token: nat, o: Outcome)
    requires AttemptsBounded(rows)
    ensures var after := FinishRows(rows, id, token, o);
      AttemptsBounded(after) && |after| == |rows| && Work(after) <= Work(rows)
  {
    var after := FinishRows(rows, id, token, o);
    forall r: Row { WorkOne(r); }
    WorkFalls(rows, after);
  }

  lemma NapsFall(due: real, claimed: real, now: real, sleep: real)
    requires claimed < due && claimed <= now && sleep >= 0.05
    ensures Naps(Some(due), now + sleep) < Naps(Some(due), claimed)
  {
    var a, b := (due - claimed) * 20.0, (due - (now + sleep)) * 20.0;
    assert b <= a - 1.0;
    assert b.Floor <= a.Floor - 1;
  }
}
