/** What the outbox operations leave of every row, said field by field, and how the outcome of a delivery is decided. */
module OutboxLaws {
  import opened Wrappers
  import opened Outbox
  import opened OutboxRuns
  import Text

  // ---------- enqueue ----------

  /** The descriptor can be inserted: every destination is valid and gets a row ID that is not taken. */
  ghost predicate Insertable(rows: seq<Row>, d: Descriptor) {
    && (forall k | 0 <= k < |d.destinations| :: d.destinations[k].valid && 1 <= |d.destinations[k].name| <= 128)
    && (forall k, i | 0 <= k < |d.destinations| && 0 <= i < |rows| :: rows[i].id != d.event + ":" + d.destinations[k].name)
    && (forall k, l | 0 <= k < l < |d.destinations| :: d.destinations[k].name != d.destinations[l].name)
  }

  /** The row for destination `k`: pending, not attempted, due at once, with the policy's limits where they are in range. */
  predicate FreshRow(d: Descriptor, k: nat, r: Row, now: real)
    requires k < |d.destinations|
  {
    && r.id == d.event + ":" + d.destinations[k].name && r.event == d.event && r.destination == d.destinations[k].name
    && r.status == Pending && r.attempts == 0 && r.lease == None && r.nextAt == now && r.createdAt == now && r.category == ""
    && (r.maxAttempts == if 1 <= d.policy.maxAttempts <= 20 then d.policy.maxAttempts else 5)
    && (r.baseDelay == if 0.1 <= d.policy.baseDelay <= 3_600.0 then d.policy.baseDelay else 1.0)
    && (r.maxDelay == if 0.1 <= d.policy.maxDelay <= 86_400.0 then d.policy.maxDelay else 300.0)
    && (r.timeout == if 0.1 <= d.policy.timeout <= 60.0 then d.policy.timeout else 5.0)
    && r.rateLimits == d.policy.rateLimits
  }

  /** The rows hold a fresh row for destination `k`, counting from `base`. */
  predicate FreshAt(d: Descriptor, rows: seq<Row>, base: int, k: nat, now: real)
    requires k < |d.destinations|
  {
    0 <= base + k < |rows| && FreshRow(d, k, rows[base + k], now)
  }

  /** The destinations from `k` on, on top of rows that already hold the earlier ones. */
  ghost predicate RestInsertable(rows: seq<Row>, d: Descriptor, k: nat)
    requires k <= |d.destinations|
  {
    && (forall j | k <= j < |d.destinations| :: d.destinations[j].valid && 1 <= |d.destinations[j].name| <= 128)
    && (forall j, i | k <= j < |d.destinations| && 0 <= i < |rows| :: rows[i].id != RowId(d.event, d.destinations[j].name))
    && (forall j, l | k <= j < l < |d.destinations| :: d.destinations[j].name != d.destinations[l].name)
  }

  lemma IdsTellNames(event: string, a: string, b: string)
    ensures RowId(event, a) == RowId(event, b) ==> a == b
  {
    if RowId(event, a) == RowId(event, b) {
      var n := |event + ":"|;
      assert (event + ":" + a)[n..] == a && (event + ":" + b)[n..] == b;
    }
  }

  lemma RestStep(rows: seq<Row>, d: Descriptor, k: nat, now: real)
    requires k < |d.destinations|
    ensures RestInsertable(rows, d, k) <==>
      && ValidDestination(d.destinations[k]) && !HasId(rows, RowId(d.event, d.destinations[k].name))
      && RestInsertable(rows + [NewRow(d, d.destinations[k].name, now)], d, k + 1)
  {
    var row := NewRow(d, d.destinations[k].name, now);
    var more := rows + [row];
    assert row.id == RowId(d.event, d.destinations[k].name);
    forall j | k < j < |d.destinations| ensures row.id == RowId(d.event, d.destinations[j].name) <==> d.destinations[j].name == d.destinations[k].name {
      IdsTellNames(d.event, d.destinations[k].name, d.destinations[j].name);
    }
    hide RowId, NewRow;
    assert forall i | 0 <= i < |rows| :: more[i] == rows[i];
    assert more[|rows|] == row;
  }

  lemma NewRowIsFresh(d: Descriptor, k: nat, now: real)
    requires k < |d.destinations|
    ensures FreshRow(d, k, NewRow(d, d.destinations[k].name, now), now)
  {
  }

  /** The inserts in order: all of them or none, each its own row. */
  lemma {:induction false} InsertsEach(rows: seq<Row>, d: Descriptor, k: nat, base: nat, now: real)
    requires k <= |d.destinations| && |rows| == base + k
    ensures InsertAll(rows, d, k, now).Some? <==> RestInsertable(rows, d, k)
    ensures InsertAll(rows, d, k, now).Some? ==>
      var after := InsertAll(rows, d, k, now).value;
      && |after| == base + |d.destinations| && after[..|rows|] == rows
      && forall j | k <= j < |d.destinations| :: FreshAt(d, after, base, j, now)
    decreases |d.destinations| - k
  {
    if k < |d.destinations| {
      RestStep(rows, d, k, now);
      NewRowIsFresh(d, k, now);
      hide NewRow, FreshRow, RestInsertable, HasId, RowId;
      var row := NewRow(d, d.destinations[k].name, now);
      var more := rows + [row];
      InsertsEach(more, d, k + 1, base, now);
      if InsertAll(rows, d, k, now).Some? {
        var after := InsertAll(rows, d, k, now).value;
        assert after[..|more|] == more;
        assert after[|rows|] == after[..|more|][|rows|] == row;
        assert after[..|rows|] == after[..|more|][..|rows|] == rows;
        assert FreshAt(d, after, base, k, now);
      }
    } else {
      assert rows[..|rows|] == rows;
    }
  }

  /** Enqueue takes a known event of one to 64 destinations and at most 16,384 bytes; an event that is in changes nothing;
      a new one that can be inserted adds itself and one fresh row for each destination, in order, after the rows that were
      there; anything else is refused and changes nothing. */
  lemma EnqueueAddsRows(db: Db, d: Descriptor, now: real)
    ensures var taken := d.event != "" && d.known && 1 <= |d.destinations| <= 64 && d.payloadBytes <= 16_384
        && (d.event in db.events || Insertable(db.rows, d));
      && (EnqueueRows(db, d, now).Some? <==> taken)
      && (taken && d.event !in db.events ==>
            var after := EnqueueDb(db, d, now);
            && after.events == db.events + {d.event} && after.issued == db.issued
            && |after.rows| == |db.rows| + |d.destinations| && after.rows[..|db.rows|] == db.rows
            && forall k | 0 <= k < |d.destinations| :: FreshAt(d, after.rows, |db.rows|, k, now))
      && (!taken || d.event in db.events ==> EnqueueDb(db, d, now) == db)
  {
    InsertsEach(db.rows, d, 0, |db.rows|, now);
    InsertableIs(db.rows, d);
    hide FreshRow, Insertable, RestInsertable, InsertAll, FreshAt;
    if d.event in db.events { assert db.events + {d.event} == db.events; }
  }

  lemma InsertableIs(rows: seq<Row>, d: Descriptor)
    ensures Insertable(rows, d) <==> RestInsertable(rows, d, 0)
  {
  }

  // ---------- claim ----------

  /** Sending under a lease that ran out, with no attempt left. */
  predicate GaveUp(r: Row, now: real) {
    r.status == Sending && r.leaseUntil <= now && r.attempts >= r.maxAttempts
  }

  /** To be sent now: pending and due, or sending under a lease that ran out, with an attempt left. */
  predicate Ready(r: Row, now: real) {
    && ((r.status == Pending && r.nextAt <= now) || (r.status == Sending && r.leaseUntil <= now))
    && !GaveUp(r, now)
  }

  /** Earlier due; then created earlier; then with the lesser ID. */
  predicate Sooner(a: Row, b: Row) {
    if a.nextAt != b.nextAt then a.nextAt < b.nextAt
    else if a.createdAt != b.createdAt then a.createdAt < b.createdAt
    else Text.Less(a.id, b.id)
  }

  /** A row that the claim does not take. */
  function Aside(r: Row, now: real): Row {
    if GaveUp(r, now) then r.(status := Failed, lease := None, category := "attempts_exhausted", nextAt := 0.0) else r
  }

  /** The row that the claim takes: leased for the request timeout and five seconds, but thirty seconds at least; or failed,
      if its attempts are used up. */
  function Taken(r: Row, token: nat, now: real): Row {
    if r.attempts < r.maxAttempts
    then r.(status := Sending, attempts := r.attempts + 1, lease := Some(token),
            leaseUntil := now + if r.timeout > 25.0 then r.timeout + 5.0 else 30.0)
    else r.(status := Failed, lease := None, category := "attempts_exhausted")
  }

  lemma ReadyIsDue(r: Row, now: real)
    ensures Ready(r, now) <==> Due(Exhausted(r, now), now)
    ensures Exhausted(r, now) == Aside(r, now)
  {
  }

  /** With no row ready, a claim only sets aside the rows that gave up. */
  lemma ClaimsNothing(db: Db, now: real)
    requires forall i | 0 <= i < |db.rows| :: !Ready(db.rows[i], now)
    ensures ClaimDb(db, now) == Db(db.events, seq(|db.rows|, i requires 0 <= i < |db.rows| => Aside(db.rows[i], now)), db.issued)
    ensures Claimable(db, now).None?
  {
    var rows := ExhaustAll(db.rows, now);
    forall i | 0 <= i < |rows| ensures rows[i] == Aside(db.rows[i], now) && !Due(rows[i], now) { ReadyIsDue(db.rows[i], now); }
    hide Due, Exhausted, Aside, Ready, Head;
    HeadNeedsDue(rows, now);
  }

  lemma HeadNeedsDue(rows: seq<Row>, now: real)
    requires forall i | 0 <= i < |rows| :: !Due(rows[i], now)
    ensures Head(rows, now).None?
  {
    hide Due;
  }

  /** The row that is ready and sooner than every other ready row is the one a claim takes; the rows that gave up are set
      aside and all others stay. */
  lemma ClaimsTheSoonest(db: Db, now: real, h: nat)
    requires h < |db.rows| && Ready(db.rows[h], now)
    requires forall i | 0 <= i < |db.rows| && i != h && Ready(db.rows[i], now) :: Sooner(db.rows[h], db.rows[i])
    ensures var after := ClaimDb(db, now);
      && after.events == db.events && |after.rows| == |db.rows|
      && after.rows[h] == Taken(db.rows[h], db.issued, now)
      && (forall i | 0 <= i < |db.rows| && i != h :: after.rows[i] == Aside(db.rows[i], now))
      && after.issued == db.issued + (if db.rows[h].attempts < db.rows[h].maxAttempts then 1 else 0)
    ensures Claimable(db, now) == if db.rows[h].attempts < db.rows[h].maxAttempts then Some(h) else None
  {
    var rows := ExhaustAll(db.rows, now);
    forall i | 0 <= i < |rows| ensures rows[i] == Aside(db.rows[i], now) && (Due(rows[i], now) <==> Ready(db.rows[i], now)) {
      ReadyIsDue(db.rows[i], now);
    }
    assert rows[h] == db.rows[h];
    HeadIsFirst(rows, now, h);
    var head := Head(rows, now).value;
    if head != h {
      assert Ready(db.rows[head], now) && rows[head] == db.rows[head];
      SoonerIsBefore(db.rows[h], db.rows[head]);
      assert false;
    }
    TakenIs(db.rows[h], db.issued, now);
    hide Due, Exhausted, Aside, Ready, Head, Leased, Failing, Taken, Sooner, ExhaustAll;
  }

  lemma SoonerIsBefore(a: Row, b: Row)
    ensures Sooner(a, b) <==> Before(a, b)
  {
  }

  lemma TakenIs(r: Row, token: nat, now: real)
    ensures Taken(r, token, now) == if r.attempts < r.maxAttempts then Leased(r, token, now) else Failing(r)
  {
  }

  // ---------- finish ----------

  /** The row under this ID, sending under this very lease, is closed or put back with the result; every other stays. */
  lemma FinishCloses(db: Db, id: string, token: nat, o: Outcome)
    ensures var after := FinishDb(db, id, token, o);
      && after.events == db.events && after.issued == db.issued && |after.rows| == |db.rows|
      && forall i | 0 <= i < |db.rows| ::
           var r := db.rows[i];
           after.rows[i] ==
             if r.id != id || r.status != Sending || r.lease != Some(token) then r
             else r.(
               status := if o.category == "delivered" then Delivered else if o.terminal then Failed else Pending,
               category := if |o.category| <= 64 then o.category else o.category[..64],
               nextAt := if o.retryAt.Some? then o.retryAt.value else 0.0,
               lease := None)
  {
  }

  // ---------- the outcome of a delivery ----------

  /** An answer that is worth another attempt: a network error, a timeout or early-data status, a server error, or a rate
      limit where the policy retries those. */
  predicate WorthRetry(r: Row, response: Response) {
    || response.NetworkError?
    || (response.Http? &&
          (response.status in {408, 425} || 500 <= response.status <= 599 || (response.status == 429 && r.rateLimits)))
  }

  /** A delivery ends delivered exactly on a success, is tried again exactly on an answer worth it while attempts are left,
      and fails for good otherwise. */
  lemma DeliveryEnds(r: Row, response: Response, jitter: nat, now: real)
    ensures var o := DeliverOne(r, response, jitter, now);
      && (FinalStatus(o) == Delivered <==>
            (response.Http? && 200 <= response.status <= 299) || response == LocalNotice("delivered"))
      && (FinalStatus(o) == Pending <==> WorthRetry(r, response) && r.attempts < r.maxAttempts)
      && (WorthRetry(r, response) && r.attempts >= r.maxAttempts ==> o.category == "attempts_exhausted")
      && (o.retryAt.Some? <==> FinalStatus(o) == Pending)
  {
    CategoriesDiffer();
    hide Backoff, RetryAfter;
  }

  lemma CategoriesDiffer()
    ensures "rate_limited" != "delivered" && "transient_http_error" != "delivered" && "redirect_blocked" != "delivered"
    ensures "permanent_http_error" != "delivered" && "invalid_http_status" != "delivered"
    ensures "invalid_destination_kind" != "delivered" && "destination_blocked" != "delivered"
    ensures "missing_secret" != "delivered" && "attempts_exhausted" != "delivered" && "transient_network_error" != "delivered"
  {
    assert "delivered"[0] == 'd' && "delivered"[2] == 'l' && "destination_blocked"[2] == 's';
    assert "rate_limited"[0] == 'r' && "transient_http_error"[0] == 't' && "redirect_blocked"[0] == 'r';
    assert "permanent_http_error"[0] == 'p' && "invalid_http_status"[0] == 'i' && "invalid_destination_kind"[0] == 'i';
    assert "missing_secret"[0] == 'm' && "attempts_exhausted"[0] == 'a' && "transient_network_error"[0] == 't';
  }

  /** Another attempt waits as long as the answer asks for, but no longer than the maximum delay; and else as long as the
      backoff says. */
  lemma RetryWaits(r: Row, response: Response, jitter: nat, now: real)
    requires WorthRetry(r, response) && r.attempts < r.maxAttempts
    ensures var o := DeliverOne(r, response, jitter, now);
      o.retryAt == Some(
        if response.Http? && response.retryAfter.Some? then
          var s := response.retryAfter.value;
          now + if s < 0.0 then (if r.maxDelay < 0.0 then r.maxDelay else 0.0) else if s < r.maxDelay then s else r.maxDelay
        else Backoff(r, jitter, now))
  {
    CategoriesDiffer();
    hide Backoff;
  }

  /** The first backoff has the base delay as its ceiling. */
  lemma FirstBackoff(r: Row, jitter: nat, now: real)
    requires r.attempts <= 1 && 0.0 <= r.baseDelay <= r.maxDelay && jitter <= 400
    ensures Ceiling(r) == r.baseDelay
    ensures Backoff(r, 200, now) == now + r.baseDelay
    ensures r.baseDelay * 1.2 <= r.maxDelay ==> Backoff(r, jitter, now) == now + r.baseDelay * (800 + jitter) as real / 1_000.0
  {
    assert Pow2(0) == 1;
    var j := jitter as real;
    assert (800 + jitter) as real == 800.0 + j;
    assert r.baseDelay * (800.0 + j) <= r.baseDelay * 1_200.0;
  }

  // ---------- the next moment ----------

  /** The next due time is the earliest of the due times of pending rows and the lease ends of sending ones. */
  lemma NextDueIsEarliest(rows: seq<Row>, t: real)
    ensures NextDue(rows) == Some(t) <==>
      && (exists i | 0 <= i < |rows| ::
            (rows[i].status == Pending && rows[i].nextAt == t) || (rows[i].status == Sending && rows[i].leaseUntil == t))
      && (forall i | 0 <= i < |rows| && rows[i].status == Pending :: t <= rows[i].nextAt)
      && (forall i | 0 <= i < |rows| && rows[i].status == Sending :: t <= rows[i].leaseUntil)
  {
    NextDueIs(rows);
    hide NextDue;
  }
}
