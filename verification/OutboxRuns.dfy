/** Safety of the notification outbox over every run of enqueue, claim and finish, by any number of
    dispatchers and with any results. */
module OutboxRuns {
  import opened Wrappers
  import opened Outbox

  datatype Move =
    | Enqueue(d: Descriptor, now: real)
    | Claim(now: real)
    | Finish(id: string, token: nat, o: Outcome)

  function Next(db: Db, m: Move): Db {
    match m
    case Enqueue(d, now) => EnqueueDb(db, d, now)
    case Claim(now) => ClaimDb(db, now)
    case Finish(id, token, o) => FinishDb(db, id, token, o)
  }

  function Run(moves: seq<Move>): Db {
    if moves == [] then Db({}, [], 0) else Next(Run(moves[..|moves| - 1]), moves[|moves| - 1])
  }

  /** The token that the last claim of row `id` handed out. */
  function LatestClaim(moves: seq<Move>, id: string): Option<nat> {
    if moves == [] then None
    else
      var init, m := moves[..|moves| - 1], moves[|moves| - 1];
      var db := Run(init);
      if m.Claim? && Claimable(db, m.now).Some? && db.rows[Claimable(db, m.now).value].id == id
      then Some(db.issued)
      else LatestClaim(init, id)
  }

  // ---------- one row, one step ----------

  predicate RowOk(r: Row) {
    && r.attempts <= r.maxAttempts && 1 <= r.maxAttempts <= 20
    && (r.status == Sending <==> r.lease.Some?)
    && (r.status == Sending ==> r.attempts >= 1)
  }

  predicate SameDelivery(a: Row, b: Row) {
    && b.id == a.id && b.event == a.event && b.destination == a.destination
    && b.maxAttempts == a.maxAttempts && b.createdAt == a.createdAt
  }

  /** How a row may look any time later: attempts only grow, and a closed row never changes again. */
  predicate Later(a: Row, b: Row) {
    SameDelivery(a, b) && a.attempts <= b.attempts && (!IsOpen(a) ==> b == a)
  }

  ghost predicate RowsLater(a: seq<Row>, b: seq<Row>) {
    |a| <= |b| && forall i | 0 <= i < |a| :: Later(a[i], b[i])
  }

  ghost predicate UniqueIds(rows: seq<Row>) {
    forall i, j | 0 <= i < j < |rows| :: rows[i].id != rows[j].id
  }

  ghost predicate Inv(db: Db) {
    RowsOk(db.rows) && UniqueIds(db.rows)
  }

  // ---------- every step ----------

  ghost predicate RowsOk(rows: seq<Row>) {
    forall i | 0 <= i < |rows| :: RowOk(rows[i])
  }

  lemma NewRowKeeps(rows: seq<Row>, row: Row)
    requires RowsOk(rows) && UniqueIds(rows) && !HasId(rows, row.id) && RowOk(row) && row.attempts == 0
    ensures RowsOk(rows + [row]) && UniqueIds(rows + [row]) && Attempts(rows + [row]) == Attempts(rows)
  {
    hide RowOk;
    assert (rows + [row])[..|rows|] == rows;
  }

  /** The inserts of one event keep old rows as they are and add unleased, unattempted ones. */
  lemma {:induction false} InsertKeeps(rows: seq<Row>, d: Descriptor, k: nat, now: real)
    requires k <= |d.destinations| && RowsOk(rows) && UniqueIds(rows)
    requires InsertAll(rows, d, k, now).Some?
    ensures var after := InsertAll(rows, d, k, now).value;
      rows <= after && RowsOk(after) && UniqueIds(after) && Attempts(after) == Attempts(rows)
      && forall i | |rows| <= i < |after| :: after[i].lease.None?
    decreases |d.destinations| - k
  {
    if k < |d.destinations| {
      var row := NewRow(d, d.destinations[k].name, now);
      assert RowOk(row) && row.attempts == 0 && row.lease.None?;
      assert row.id == RowId(d.event, d.destinations[k].name);
      hide RowsOk, UniqueIds, Attempts, NewRow;
      NewRowKeeps(rows, row);
      InsertKeeps(rows + [row], d, k + 1, now);
    }
  }

  lemma PrefixLater(a: seq<Row>, b: seq<Row>)
    requires a <= b
    ensures RowsLater(a, b)
  {
  }

  lemma ExhaustKeeps(rows: seq<Row>, now: real)
    requires RowsOk(rows) && UniqueIds(rows)
    ensures var after := ExhaustAll(rows, now);
      RowsOk(after) && UniqueIds(after) && RowsLater(rows, after) && Attempts(after) == Attempts(rows)
  {
    SameAttempts(rows, ExhaustAll(rows, now));
  }

  lemma UpdateKeeps(rows: seq<Row>, i: nat, r: Row)
    requires RowsOk(rows) && UniqueIds(rows) && i < |rows| && RowOk(r) && Later(rows[i], r)
    ensures RowsOk(rows[i := r]) && UniqueIds(rows[i := r]) && RowsLater(rows, rows[i := r])
    ensures Attempts(rows[i := r]) == Attempts(rows) - rows[i].attempts + r.attempts
  {
    AttemptsUpdate(rows, i, r);
    hide Attempts, RowOk;
  }

  lemma ClaimKeeps(db: Db, now: real)
    requires Inv(db)
    ensures Inv(ClaimDb(db, now)) && RowsLater(db.rows, ClaimDb(db, now).rows)
    ensures Attempts(ClaimDb(db, now).rows) - Attempts(db.rows) == ClaimDb(db, now).issued - db.issued
  {
    ClaimAttempts(db, now);
    var rows := ExhaustAll(db.rows, now);
    ExhaustKeeps(db.rows, now);
    var h := Head(rows, now);
    if h.Some? {
      var r := rows[h.value];
      assert RowOk(r);
      var r' := if r.attempts >= r.maxAttempts then Failing(r) else Leased(r, db.issued, now);
      assert RowOk(r') && Later(r, r');
      hide RowsOk, UniqueIds, RowsLater, Attempts, ExhaustAll, Later, RowOk;
      UpdateKeeps(rows, h.value, r');
      RowsLaterTrans(db.rows, rows, rows[h.value := r']);
    }
  }

  lemma FinishKeeps(db: Db, id: string, token: nat, o: Outcome)
    requires Inv(db)
    ensures Inv(FinishDb(db, id, token, o)) && RowsLater(db.rows, FinishDb(db, id, token, o).rows)
    ensures Attempts(FinishDb(db, id, token, o).rows) == Attempts(db.rows)
  {
    SameAttempts(db.rows, FinishRows(db.rows, id, token, o));
  }

  lemma EnqueueKeeps(db: Db, d: Descriptor, now: real)
    requires Inv(db)
    ensures Inv(EnqueueDb(db, d, now)) && RowsLater(db.rows, EnqueueDb(db, d, now).rows)
    ensures Attempts(EnqueueDb(db, d, now).rows) == Attempts(db.rows)
    ensures forall i | |db.rows| <= i < |EnqueueDb(db, d, now).rows| :: EnqueueDb(db, d, now).rows[i].lease.None?
  {
    PrefixLater(db.rows, db.rows);
    if EnqueueRows(db, d, now).Some? && d.event !in db.events {
      InsertKeeps(db.rows, d, 0, now);
      PrefixLater(db.rows, InsertAll(db.rows, d, 0, now).value);
    }
  }

  lemma NextKeeps(db: Db, m: Move)
    requires Inv(db) && Attempts(db.rows) == db.issued
    ensures Inv(Next(db, m)) && Attempts(Next(db, m).rows) == Next(db, m).issued
    ensures RowsLater(db.rows, Next(db, m).rows) && db.events <= Next(db, m).events
  {
    hide Inv, RowsLater, Attempts;
    match m
    case Enqueue(d, now) => EnqueueKeeps(db, d, now);
    case Claim(now) => ClaimKeeps(db, now);
    case Finish(id, token, o) => FinishKeeps(db, id, token, o);
  }

  /** Conservation: in every reachable table the attempts of all rows add up to the tokens ever issued, so
      no run makes more claims than the sum of the attempt limits; and every row respects its own limit. */
  lemma {:induction false} RunInv(moves: seq<Move>)
    ensures Inv(Run(moves)) && Attempts(Run(moves).rows) == Run(moves).issued <= Allowance(Run(moves).rows)
  {
    if moves != [] {
      RunInv(moves[..|moves| - 1]);
      NextKeeps(Run(moves[..|moves| - 1]), moves[|moves| - 1]);
    }
    AttemptsBelow(Run(moves).rows);
  }

  lemma RowsLaterTrans(a: seq<Row>, b: seq<Row>, c: seq<Row>)
    requires RowsLater(a, b) && RowsLater(b, c)
    ensures RowsLater(a, c)
  {
  }

  /** From any point of any run on, no row disappears, its attempts never fall, and delivered and failed
      rows never change again. */
  lemma {:induction false} RunSafe(moves: seq<Move>, n: nat)
    requires n <= |moves|
    ensures RowsLater(Run(moves[..n]).rows, Run(moves).rows) && Run(moves[..n]).events <= Run(moves).events
    decreases |moves|
  {
    if n == |moves| {
      assert moves[..n] == moves;
    } else {
      var init := moves[..|moves| - 1];
      RunSafe(init, n);
      assert init[..n] == moves[..n];
      RunInv(init);
      NextKeeps(Run(init), moves[|moves| - 1]);
      RowsLaterTrans(Run(moves[..n]).rows, Run(init).rows, Run(moves).rows);
    }
  }

  /** Once an event is in, enqueueing it again adds nothing, however late. */
  lemma ReenqueueAddsNothing(moves: seq<Move>, n: nat, d: Descriptor, now: real)
    requires n < |moves| && moves[n].Enqueue? && moves[n].d.event == d.event
    requires EnqueueRows(Run(moves[..n]), moves[n].d, moves[n].now).Some?
    ensures EnqueueDb(Run(moves), d, now) == Run(moves)
  {
    RunSafe(moves, n + 1);
    assert moves[..n + 1][..n] == moves[..n];
    assert d.event in Run(moves[..n + 1]).events;
    assert Run(moves).events + {d.event} == Run(moves).events;
  }

  // ---------- fencing ----------

  lemma ClaimLeases(db: Db, now: real, i: nat)
    requires Inv(db) && i < |ClaimDb(db, now).rows| && ClaimDb(db, now).rows[i].lease.Some?
    ensures i < |db.rows| && ClaimDb(db, now).rows[i].id == db.rows[i].id
    ensures
      if Claimable(db, now) == Some(i) then ClaimDb(db, now).rows[i].lease == Some(db.issued)
      else ClaimDb(db, now).rows[i].lease == db.rows[i].lease
  {
  }

  /** A live lease is always the one that the latest claim of its row handed out. */
  lemma {:induction false} LeaseIsLatest(moves: seq<Move>, i: nat)
    requires i < |Run(moves).rows| && Run(moves).rows[i].lease.Some?
    ensures Run(moves).rows[i].lease == LatestClaim(moves, Run(moves).rows[i].id)
  {
    var init, m := moves[..|moves| - 1], moves[|moves| - 1];
    var db, after := Run(init), Run(moves);
    RunInv(init);
    match m
    case Enqueue(d, now) =>
      EnqueueKeeps(db, d, now);
      EnqueueLeases(db, d, now);
      LeaseIsLatest(init, i);
    case Claim(now) =>
      ClaimLeases(db, now, i);
      var h := Claimable(db, now);
      if h == Some(i) {
      } else {
        assert h.Some? ==> db.rows[h.value].id != db.rows[i].id;
        LeaseIsLatest(init, i);
      }
    case Finish(id, token, o) =>
      LeaseIsLatest(init, i);
  }

  lemma EnqueueLeases(db: Db, d: Descriptor, now: real)
    requires Inv(db)
    ensures db.rows <= EnqueueDb(db, d, now).rows
  {
    if EnqueueRows(db, d, now).Some? && d.event !in db.events {
      InsertKeeps(db.rows, d, 0, now);
    }
  }

  /** Fencing: a `finish` that changes anything, or reports that it committed, holds the token of the
      latest claim of that row; anyone else's is a no-op. */
  lemma FinishIsFenced(moves: seq<Move>, id: string, token: nat, o: Outcome)
    ensures LatestClaim(moves, id) != Some(token) ==>
      FinishDb(Run(moves), id, token, o) == Run(moves) && Holders(Run(moves).rows, id, token) == 0
    ensures Holders(Run(moves).rows, id, token) <= 1
    ensures (Holders(Run(moves).rows, id, token) == 1) <==> FinishDb(Run(moves), id, token, o) != Run(moves)
  {
    var rows := Run(moves).rows;
    RunInv(moves);
    if i :| 0 <= i < |rows| && Holds(rows[i], id, token) {
      LeaseIsLatest(moves, i);
      assert FinishRows(rows, id, token, o)[i].lease.None?;
      OneHolder(rows, id, token, i);
    } else {
      NoHolder(rows, id, token);
      assert FinishRows(rows, id, token, o) == rows;
    }
  }

  lemma {:induction false} NoHolder(rows: seq<Row>, id: string, token: nat)
    requires forall i | 0 <= i < |rows| :: !Holds(rows[i], id, token)
    ensures Holders(rows, id, token) == 0
  {
    if rows != [] { NoHolder(rows[..|rows| - 1], id, token); }
  }

  lemma {:induction false} OneHolder(rows: seq<Row>, id: string, token: nat, i: nat)
    requires UniqueIds(rows) && i < |rows| && Holds(rows[i], id, token)
    ensures Holders(rows, id, token) == 1
  {
    var last := |rows| - 1;
    if i == last {
      NoHolder(rows[..last], id, token);
    } else {
      OneHolder(rows[..last], id, token, i);
    }
  }

  /** Tokens are fresh: the latest claim of a row only ever moves to a token above all issued before. */
  lemma {:induction false} TokensGrow(moves: seq<Move>, n: nat, id: string)
    requires n <= |moves|
    ensures LatestClaim(moves, id).Some? ==> LatestClaim(moves, id).value < Run(moves).issued
    ensures Run(moves[..n]).issued <= Run(moves).issued
    ensures LatestClaim(moves[..n], id).Some? ==>
      LatestClaim(moves, id).Some? && LatestClaim(moves[..n], id).value <= LatestClaim(moves, id).value
    decreases |moves|
  {
    if n == |moves| {
      assert moves[..n] == moves;
      if moves != [] { TokensGrow(moves[..|moves| - 1], |moves| - 1, id); }
    } else {
      var init := moves[..|moves| - 1];
      TokensGrow(init, n, id);
      assert init[..n] == moves[..n];
    }
  }

  /** A delivery that a later claim has taken over can never again be finished under an older token. */
  lemma OldTokensStayDead(moves: seq<Move>, n: nat, id: string, token: nat, o: Outcome)
    requires n <= |moves| && LatestClaim(moves[..n], id).Some? && token < LatestClaim(moves[..n], id).value
    ensures FinishDb(Run(moves), id, token, o) == Run(moves) && Holders(Run(moves).rows, id, token) == 0
  {
    TokensGrow(moves, n, id);
    FinishIsFenced(moves, id, token, o);
  }

  // ---------- retry times ----------

  lemma {:induction false} Pow2Positive(n: nat)
    ensures Pow2(n) >= 1
  {
    if n > 0 { Pow2Positive(n - 1); }
  }

  lemma CeilingBounds(r: Row)
    requires r.maxDelay >= 0.1 && r.baseDelay >= 0.1
    ensures 0.1 <= Ceiling(r) <= r.maxDelay
  {
    var exponent := if r.attempts < 1 then 0 else if r.attempts - 1 > 30 then 30 else r.attempts - 1;
    Pow2Positive(exponent);
    Product(r.baseDelay, Pow2(exponent) as real);
  }

  /** The ceiling of the backoff doubles with each attempt until it is capped. */
  lemma CeilingDoubles(r: Row)
    requires r.maxDelay >= 0.1 && r.baseDelay >= 0.1 && 1 <= r.attempts <= 30
    ensures Ceiling(r.(attempts := r.attempts + 1)) == Min(r.maxDelay, 2.0 * Ceiling(r))
  {
    var n := Pow2(r.attempts - 1);
    assert Pow2(r.attempts) == 2 * n;
    Pow2Positive(r.attempts - 1);
    Doubled(r.baseDelay, n);
    Product(r.baseDelay, n as real);
  }

  /** A backoff lies between four fifths of its ceiling and the configured maximum delay from now. */
  lemma BackoffBounds(r: Row, jitter: nat, now: real)
    requires r.maxDelay >= 0.1 && r.baseDelay >= 0.1 && jitter <= 400
    ensures now < now + Ceiling(r) * 0.8 <= Backoff(r, jitter, now) <= now + r.maxDelay
  {
    CeilingBounds(r);
    Scaled(Ceiling(r), jitter);
    hide Ceiling;
  }

  /** A retry is decided only below the attempt limit, and is never later than the maximum delay from now. */
  lemma RetryIsBounded(r: Row, response: Response, jitter: nat, now: real)
    requires r.maxDelay >= 0.1 && r.baseDelay >= 0.1 && jitter <= 400
    ensures var o := DeliverOne(r, response, jitter, now);
      && (o.terminal <==> o.retryAt.None?)
      && (!o.terminal ==> r.attempts < r.maxAttempts && now <= o.retryAt.value <= now + r.maxDelay)
      && (FinalStatus(o) == Pending <==> !o.terminal)
  {
    BackoffBounds(r, jitter, now);
    hide Backoff, Ceiling;
  }

  lemma Product(a: real, b: real)
    requires a >= 0.1 && b >= 1.0
    ensures a * b >= 0.1
  {
  }

  lemma Scaled(c: real, jitter: nat)
    requires c >= 0.0 && jitter <= 400
    ensures c * 0.8 <= c * (800 + jitter) as real / 1_000.0
  {
    var j := jitter as real;
    assert (800 + jitter) as real == 800.0 + j;
    assert c * (800.0 + j) == c * 800.0 + c * j;
    assert c * j >= 0.0;
  }

  lemma Doubled(a: real, n: nat)
    ensures a * (2 * n) as real == 2.0 * (a * n as real)
  {
    assert (2 * n) as real == 2.0 * (n as real);
  }
}
