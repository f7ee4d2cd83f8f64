/** Safety of the operator inbox over whole runs: sessions change in any way between the
    transactions, and a publication may stop after any of its three steps. */
module OperatorInboxRuns {
  import opened Wrappers
  import opened Sessions
  import opened OperatorInbox

  // ---------- moves ----------

  datatype Move =
    | SessionMoves(session: string, record: Option<Session>)
    | Register(seen: Option<Session>, r: Registration, now: real)
    | Activate(id: ItemId, now: real)
    | Respond(q: Request, now: real)
    | Expire(id: ItemId, version: int, key: string, reason: string, now: real)
    | SetTerminal(id: ItemId, final: ItemStatus, reason: string, now: real)
    | CloseExpired(id: ItemId, final: ItemStatus, reason: string, now: real)
    | MarkDelivered(id: ItemId, now: real)
    | ReadAnswer(seenRegistry: Registry, id: ItemId, now: real)
    | Reconcile(sight: Sight, now: real)

  datatype World = World(registry: Registry, db: Db)

  predicate WellTyped(m: Move) {
    && (m.SetTerminal? ==> m.final in {Expired, Stale, ItemStatus.Failed})
    && (m.CloseExpired? ==> m.final in {ItemStatus.Delivered, Rejected})
  }

  function NextDb(w: World, m: Move): Db {
    match m
    case SessionMoves(_, _) => w.db
    case Register(seen, r, now) => RegisterDb(w.db, seen, r, now)
    case Activate(id, now) => ActivateDb(w.db, id, now)
    case Respond(q, now) => RespondDb(w.db, w.registry, q, now)
    case Expire(id, version, key, reason, now) => ExpireDb(w.db, w.registry, id, version, key, reason, now)
    case SetTerminal(id, final, reason, now) => TerminalDb(w.db, id, final, reason, now)
    case CloseExpired(id, final, reason, now) => CloseExpiredDb(w.db, id, final, reason, now)
    case MarkDelivered(id, now) => MarkDeliveredDb(w.db, id, now)
    case ReadAnswer(seen, id, now) => AnswerDb(w.db, seen, id, now)
    case Reconcile(sight, now) => ReconcileDb(w.db, sight, now)
  }

  function NextRegistry(registry: Registry, m: Move): Registry {
    if m.SessionMoves? then
      if m.record.Some? then registry[m.session := m.record.value] else registry - {m.session}
    else registry
  }

  function Next(w: World, m: Move): World {
    World(NextRegistry(w.registry, m), NextDb(w, m))
  }

  function Run(moves: seq<Move>): World {
    if moves == [] then World(map[], Db(map[], map[]))
    else Next(Run(moves[..|moves| - 1]), moves[|moves| - 1])
  }

  ghost predicate Typed(moves: seq<Move>) {
    forall i | 0 <= i < |moves| :: WellTyped(moves[i])
  }

  // ---------- one item, one step ----------

  function Rank(s: ItemStatus): nat {
    match s
    case Publishing => 0
    case Pending => 1
    case Accepted => 2
    case Expired => 2
    case _ => 3
  }

  predicate Edge(s: ItemStatus, t: ItemStatus) {
    match s
    case Publishing => t in {Pending, Expired, Stale, ItemStatus.Failed}
    case Pending => t in {Accepted, Expired, Stale, ItemStatus.Failed}
    case Accepted => t in {ItemStatus.Delivered, Rejected, Stale}
    case Expired => t in {ItemStatus.Delivered, Rejected}
    case _ => false
  }

  /** A step leaves an item alone, or moves it along one edge: the version rises by exactly one, what
      was registered is kept, and a response appears only by acceptance. */
  predicate StepsTo(a: Item, b: Item) {
    a == b || (
      && Edge(a.status, b.status) && b.version == a.version + 1
      && b.kind == a.kind && b.target == a.target && b.createdAt == a.createdAt
      && b.expiresAt == a.expiresAt && b.owner == a.owner
      && (if b.status == Accepted then a.response.None? && b.response.Some? else b.response == a.response))
  }

  /** What every reachable item satisfies: the version counts the changes, so it is at most four, and
      a response is stored exactly from acceptance on. */
  predicate ItemOk(item: Item) {
    && 1 <= item.version <= 1 + Rank(item.status)
    && (item.status in {Publishing, Pending} ==> item.response.None?)
    && (item.status == Accepted ==> item.response.Some?)
  }

  ghost predicate Inv(db: Db) {
    && (forall id | id in db.items :: ItemOk(db.items[id]))
    && (forall k | k in db.keys :: k.0 in db.items && KeyOk(db.items[k.0], db.keys[k]))
  }

  /** A recorded key belongs to the one accepted response or to the expiry of its item. */
  predicate KeyOk(item: Item, digest: Digest) {
    || (digest.Encoded? && item.response == Some(digest.body) && ResponseShape(digest.body))
    || (IsExpiry(digest) && Rank(item.status) >= 2 && item.response.None?)
  }

  predicate IsExpiry(digest: Digest) {
    digest.EscapedExpiry? || digest.body.Keys == {"expire", "reason"}
  }

  /** No valid response looks like an expiry. */
  predicate ResponseShape(body: Body) {
    "expire" !in body
  }

  lemma ValidIsNotExpiry(kind: Kind, target: Body, body: Body)
    requires ValidResponse(kind, target, body)
    ensures ResponseShape(body)
  {
    assert kind.Input? ==> body.Keys == {"answer"};
    assert kind.Question? ==> body.Keys == {"answers"};
    assert "expire" in body ==> "expire" in body.Keys;
  }

  ghost predicate DbSteps(a: Db, b: Db) {
    && (forall id | id in a.items :: id in b.items && StepsTo(a.items[id], b.items[id]))
    && (forall id | id in b.items && id !in a.items ::
          b.items[id].status == Publishing && b.items[id].version == 1 && b.items[id].response.None?)
    && (forall k | k in a.keys :: k in b.keys && b.keys[k] == a.keys[k])
  }

  lemma ReconciledSteps(registry: Registry, id: ItemId, item: Item, now: real)
    ensures StepsTo(item, Reconciled(registry, id, item, now))
  {
    hide Current, LostReason;
  }

  /** A transaction that writes one existing item and adds at most one key. */
  lemma OneItemSteps(a: Db, b: Db, id: ItemId, k: (ItemId, string))
    requires id in a.items && id in b.items && b.items == a.items[id := b.items[id]] && StepsTo(a.items[id], b.items[id])
    requires b.keys == a.keys || (k !in a.keys && k in b.keys && b.keys == a.keys[k := b.keys[k]])
    ensures DbSteps(a, b)
  {
    hide StepsTo;
    forall other | other in a.items && other != id { SameItem(a.items[other]); }
  }

  lemma SameItem(item: Item)
    ensures StepsTo(item, item)
  {
  }

  lemma SameDb(db: Db)
    ensures DbSteps(db, db)
  {
  }

  lemma RegisterSteps(db: Db, seen: Option<Session>, r: Registration, now: real)
    ensures DbSteps(db, RegisterDb(db, seen, r, now))
  {
    hide ValidRegistration, MayPublish, StepsTo;
    forall id | id in db.items { SameItem(db.items[id]); }
  }

  lemma RespondSteps(db: Db, registry: Registry, q: Request, now: real)
    requires Inv(db)
    ensures DbSteps(db, RespondDb(db, registry, q, now))
  {
    var b := RespondDb(db, registry, q, now);
    SameDb(db);
    if b != db {
      assert ItemOk(db.items[q.id]);
      hide Current, LostReason, ValidResponse, DbSteps, Inv, ValidKey, DeadlinePassed;
      OneItemSteps(db, b, q.id, (q.id, q.key));
    }
  }

  lemma ExpireSteps(db: Db, registry: Registry, id: ItemId, version: int, key: string, reason: string, now: real)
    ensures DbSteps(db, ExpireDb(db, registry, id, version, key, reason, now))
  {
    var b := ExpireDb(db, registry, id, version, key, reason, now);
    SameDb(db);
    if b != db {
      hide Current, LostReason, ExpiryDigest, DbSteps;
      OneItemSteps(db, b, id, (id, key));
    }
  }

  /** The transactions that only change a status. */
  lemma StatusSteps(w: World, m: Move)
    requires WellTyped(m) && !(m.Register? || m.Reconcile? || m.Respond? || m.Expire?)
    ensures DbSteps(w.db, NextDb(w, m))
  {
    SameDb(w.db);
    if NextDb(w, m) != w.db {
      hide Current, LostReason, DbSteps;
      OneItemSteps(w.db, NextDb(w, m), m.id, (m.id, ""));
    }
  }

  lemma NextSteps(w: World, m: Move)
    requires Inv(w.db) && WellTyped(m)
    ensures DbSteps(w.db, NextDb(w, m))
  {
    hide DbSteps, Inv, RegisterDb, ReconcileDb, RespondDb, ExpireDb;
    match m
    case Register(seen, r, now) => RegisterSteps(w.db, seen, r, now);
    case Reconcile(sight, now) => ReconcileSteps(w.db, sight, now);
    case Respond(q, now) => RespondSteps(w.db, w.registry, q, now);
    case Expire(id, version, key, reason, now) => ExpireSteps(w.db, w.registry, id, version, key, reason, now);
    case _ => StatusSteps(w, m);
  }

  lemma ReconcileSteps(db: Db, seen: Sight, now: real)
    ensures DbSteps(db, ReconcileDb(db, seen, now))
  {
    hide Reconciled, StepsTo, SeenAt;
    forall id | id in db.items { ReconciledSteps(SeenAt(seen, id), id, db.items[id], now); }
  }

  lemma StepKeepsOk(a: Item, b: Item, digest: Digest)
    requires ItemOk(a) && StepsTo(a, b)
    ensures ItemOk(b)
    ensures KeyOk(a, digest) ==> KeyOk(b, digest)
  {
  }

  lemma NewKeyOk(w: World, m: Move, k: (ItemId, string))
    requires Inv(w.db) && k in NextDb(w, m).keys && k !in w.db.keys
    ensures k.0 in NextDb(w, m).items && KeyOk(NextDb(w, m).items[k.0], NextDb(w, m).keys[k])
  {
    if m.Respond? {
      RespondKeyOk(w.db, w.registry, m.q, m.now, k);
    } else if m.Expire? {
      ExpireKeyOk(w.db, w.registry, m.id, m.version, m.key, m.reason, m.now, k);
    }
  }

  lemma RespondKeyOk(db: Db, registry: Registry, q: Request, now: real, k: (ItemId, string))
    requires k in RespondDb(db, registry, q, now).keys && k !in db.keys
    ensures var b := RespondDb(db, registry, q, now); k.0 in b.items && KeyOk(b.items[k.0], b.keys[k])
  {
    hide Current, LostReason, ValidResponse;
    ValidIsNotExpiry(db.items[q.id].kind, db.items[q.id].target, q.body);
  }

  lemma ExpireKeyOk(db: Db, registry: Registry, id: ItemId, version: int, key: string, reason: string, now: real, k: (ItemId, string))
    requires Inv(db) && k in ExpireDb(db, registry, id, version, key, reason, now).keys && k !in db.keys
    ensures var b := ExpireDb(db, registry, id, version, key, reason, now); k.0 in b.items && KeyOk(b.items[k.0], b.keys[k])
  {
    assert IsExpiry(ExpiryDigest(reason));
    assert id in db.items ==> ItemOk(db.items[id]);
    hide Inv, Current, LostReason, ExpiryDigest, IsExpiry;
  }

  lemma NextInv(w: World, m: Move)
    requires Inv(w.db) && WellTyped(m)
    ensures Inv(NextDb(w, m))
  {
    NextSteps(w, m);
    var db := NextDb(w, m);
    hide NextDb, KeyOk, StepsTo;
    forall id | id in db.items ensures ItemOk(db.items[id]) {
      if id in w.db.items { StepKeepsOk(w.db.items[id], db.items[id], EscapedExpiry("")); }
    }
    forall k | k in db.keys ensures k.0 in db.items && KeyOk(db.items[k.0], db.keys[k]) {
      if k in w.db.keys {
        StepKeepsOk(w.db.items[k.0], db.items[k.0], db.keys[k]);
      } else {
        NewKeyOk(w, m, k);
      }
    }
  }

  lemma {:induction false} RunInv(moves: seq<Move>)
    requires Typed(moves)
    ensures Inv(Run(moves).db)
  {
    if moves != [] {
      RunInv(moves[..|moves| - 1]);
      NextInv(Run(moves[..|moves| - 1]), moves[|moves| - 1]);
    }
  }

  // ---------- whole runs ----------

  /** How an item may look any time later. */
  predicate Later(a: Item, b: Item) {
    && b.kind == a.kind && b.target == a.target && b.createdAt == a.createdAt
    && b.expiresAt == a.expiresAt && b.owner == a.owner
    && Rank(a.status) <= Rank(b.status) && a.version <= b.version
    && (a.version == b.version ==> a == b)
    && (a.version < b.version ==> Rank(a.status) < Rank(b.status))
    && (a.response.Some? ==> b.response == a.response)
  }

  ghost predicate DbLater(a: Db, b: Db) {
    && (forall id | id in a.items :: id in b.items && Later(a.items[id], b.items[id]))
    && (forall k | k in a.keys :: k in b.keys && b.keys[k] == a.keys[k])
  }

  lemma StepIsLater(a: Item, b: Item)
    requires StepsTo(a, b) && ItemOk(a)
    ensures Later(a, b)
  {
  }

  lemma LaterTrans(a: Item, b: Item, c: Item)
    requires Later(a, b) && Later(b, c)
    ensures Later(a, c)
  {
  }

  /** Main safety theorem: from any point of any run on, no item disappears or returns to an earlier
      status, in particular never to pending; its version rises with every change; the response, once
      stored, is never overwritten; and recorded keys stay. */
  lemma {:induction false} RunSafe(moves: seq<Move>, n: nat)
    requires Typed(moves) && n <= |moves|
    ensures DbLater(Run(moves[..n]).db, Run(moves).db)
    decreases |moves|
  {
    if n == |moves| {
      assert moves[..n] == moves;
    } else {
      var init, m := moves[..|moves| - 1], moves[|moves| - 1];
      RunSafe(init, n);
      assert init[..n] == moves[..n];
      RunInv(init);
      var a, b := Run(moves[..n]).db, Run(init).db;
      NextSteps(Run(init), m);
      var c := Run(moves).db;
      assert c == NextDb(Run(init), m);
      hide Run, NextDb, Later, StepsTo, ItemOk, KeyOk;
      forall id | id in a.items ensures id in c.items && Later(a.items[id], c.items[id]) {
        StepIsLater(b.items[id], c.items[id]);
        LaterTrans(a.items[id], b.items[id], c.items[id]);
      }
    }
  }

  /** The moment of acceptance: the live operation waited on this exact item, attempt and lease, the
      caller named its version, and the deadline had not passed. */
  ghost predicate AcceptedNow(w: World, m: Move, id: ItemId, body: Body) {
    && m.Respond? && m.q.id == id && m.q.body == body
    && id in w.db.items && w.db.items[id].status == Pending && w.db.items[id].version == m.q.version
    && !DeadlinePassed(w.db.items[id], m.now)
    && ValidResponse(w.db.items[id].kind, w.db.items[id].target, body)
    && id.session in w.registry && Waits(w.registry[id.session], id, w.db.items[id])
  }

  /** A response appears only by acceptance of a live operation. */
  lemma ResponseAppears(w: World, m: Move, id: ItemId)
    requires Inv(w.db) && WellTyped(m)
    requires id in NextDb(w, m).items && NextDb(w, m).items[id].response.Some?
    requires id in w.db.items ==> w.db.items[id].response.None?
    ensures AcceptedNow(w, m, id, NextDb(w, m).items[id].response.value)
  {
    hide *;
    if m.Respond? {
      RespondAppears(w, m, id);
    } else {
      NextSteps(w, m);
      BecomesAccepted(w.db, NextDb(w, m), id);
      NoOtherAccepts(w, m, id);
    }
  }

  lemma RespondAppears(w: World, m: Move, id: ItemId)
    requires m.Respond? && id in NextDb(w, m).items && NextDb(w, m).items[id].response.Some?
    requires id in w.db.items ==> w.db.items[id].response.None?
    ensures AcceptedNow(w, m, id, NextDb(w, m).items[id].response.value)
  {
    hide LostReason, ValidResponse, Waits;
  }

  lemma BecomesAccepted(a: Db, b: Db, id: ItemId)
    requires DbSteps(a, b) && id in b.items && b.items[id].response.Some? && (id in a.items ==> a.items[id].response.None?)
    ensures id in a.items && b.items[id] != a.items[id] && b.items[id].status == Accepted
  {
    hide Edge;
  }

  lemma NoOtherAccepts(w: World, m: Move, id: ItemId)
    requires WellTyped(m) && !m.Respond? && id in NextDb(w, m).items && NextDb(w, m).items[id].status == Accepted
    ensures id in w.db.items && NextDb(w, m).items[id] == w.db.items[id]
  {
    hide LostReason, Current, ExpiryDigest, ValidRegistration, MayPublish;
  }

  /** Every stored response was accepted at a moment when its operation was live. */
  lemma {:induction false} EveryAnswerWasLive(moves: seq<Move>, id: ItemId) returns (n: nat)
    requires Typed(moves)
    requires id in Run(moves).db.items && Run(moves).db.items[id].response.Some?
    ensures n < |moves|
    ensures AcceptedNow(Run(moves[..n]), moves[n], id, Run(moves).db.items[id].response.value)
    ensures Run(moves[..n + 1]).db.items.Keys >= {id} && Run(moves[..n + 1]).db.items[id].status == Accepted
  {
    hide *;
    SomeMove(moves, id);
    LastMove(moves);
    var init, m := moves[..|moves| - 1], moves[|moves| - 1];
    RunInv(init);
    var w := Run(init);
    if id in w.db.items && w.db.items[id].response.Some? {
      n := EveryAnswerWasLive(init, id);
      assert init[..n] == moves[..n] && init[..n + 1] == moves[..n + 1];
      ResponseKept(w, m, id);
    } else {
      n := |moves| - 1;
      ResponseAppears(w, m, id);
      assert moves[..n + 1] == moves;
      AcceptedParts(w, m, id, NextDb(w, m).items[id].response.value);
      AcceptanceTakesEffect(w, m, id);
    }
  }

  lemma SomeMove(moves: seq<Move>, id: ItemId)
    requires id in Run(moves).db.items
    ensures moves != []
  {
  }

  lemma LastMove(moves: seq<Move>)
    requires Typed(moves) && moves != []
    ensures var init, m := moves[..|moves| - 1], moves[|moves| - 1];
      Typed(init) && WellTyped(m) && Run(moves).db == NextDb(Run(init), m)
  {
  }

  lemma ResponseKept(w: World, m: Move, id: ItemId)
    requires Inv(w.db) && WellTyped(m) && id in w.db.items && w.db.items[id].response.Some?
    ensures id in NextDb(w, m).items && NextDb(w, m).items[id].response == w.db.items[id].response
  {
    hide NextDb, KeyOk, ItemOk, Inv;
    NextSteps(w, m);
  }

  lemma AcceptedParts(w: World, m: Move, id: ItemId, body: Body)
    requires AcceptedNow(w, m, id, body)
    ensures m.Respond? && m.q.id == id && id in w.db.items
  {
  }

  lemma AcceptanceTakesEffect(w: World, m: Move, id: ItemId)
    requires m.Respond? && m.q.id == id
    requires id in w.db.items && w.db.items[id].response.None?
    requires id in NextDb(w, m).items && NextDb(w, m).items[id].response.Some?
    ensures NextDb(w, m).items[id].status == Accepted
  {
    hide LostReason, ValidResponse, Current;
  }

  // ---------- idempotency ----------

  /** After an accepted response, the same key with the same body answers as a replay and writes
      nothing, at any later time whatever has happened since; with another body it is refused. */
  lemma RetryIsSafe(moves: seq<Move>, n: nat, q: Request, retry: Request, now: real)
    requires Typed(moves) && n < |moves|
    requires moves[n].Respond? && moves[n].q == q
    requires RespondVerdict(Run(moves[..n]).db, Run(moves[..n]).registry, q, moves[n].now) == Verdict.Accept
    requires retry.id == q.id && retry.key == q.key && ValidKey(retry.key, retry.version) && retry.bytes <= MAX_BYTES
    ensures var w := Run(moves);
      && RespondDb(w.db, w.registry, retry, now) == w.db
      && RespondVerdict(w.db, w.registry, retry, now) == if retry.body == q.body then Replay else Refuse(Conflict)
  {
    hide *;
    var w := Run(moves[..n]);
    RunSafe(moves, n + 1);
    RespondsAt(moves, n, q);
    AcceptanceStores(w.db, w.registry, q, moves[n].now);
    KeyStays(Run(moves[..n + 1]).db, Run(moves).db, q.id, q.key);
    KeyAnswers(Run(moves).db, Run(moves).registry, retry, now, q.body);
  }

  lemma RespondsAt(moves: seq<Move>, n: nat, q: Request)
    requires n < |moves| && moves[n].Respond? && moves[n].q == q
    ensures Run(moves[..n + 1]).db == RespondDb(Run(moves[..n]).db, Run(moves[..n]).registry, q, moves[n].now)
  {
    assert moves[..n + 1][..n] == moves[..n];
    hide RespondDb;
  }

  lemma AcceptanceStores(db: Db, registry: Registry, q: Request, now: real)
    requires RespondVerdict(db, registry, q, now) == Verdict.Accept
    ensures var after := RespondDb(db, registry, q, now);
      q.id in after.items && (q.id, q.key) in after.keys && after.keys[(q.id, q.key)] == Encoded(q.body)
  {
    hide LostReason, ValidResponse, Current;
  }

  lemma KeyStays(a: Db, b: Db, id: ItemId, key: string)
    requires DbLater(a, b) && id in a.items && (id, key) in a.keys
    ensures id in b.items && (id, key) in b.keys && b.keys[(id, key)] == a.keys[(id, key)]
  {
    hide Later;
  }

  lemma KeyAnswers(db: Db, registry: Registry, retry: Request, now: real, body: Body)
    requires retry.id in db.items && (retry.id, retry.key) in db.keys && db.keys[(retry.id, retry.key)] == Encoded(body)
    requires ValidKey(retry.key, retry.version) && retry.bytes <= MAX_BYTES
    ensures RespondDb(db, registry, retry, now) == db
    ensures RespondVerdict(db, registry, retry, now) == if retry.body == body then Replay else Refuse(Conflict)
  {
    hide LostReason, ValidResponse, Current, ValidKey;
  }

  /** A replayed response is the stored one, unless its body is the text of an expiry: `expire` records
      its keys in the same table, so such a body replays although nothing was answered. */
  lemma ReplayMeansStored(moves: seq<Move>, q: Request, now: real)
    requires Typed(moves)
    requires RespondVerdict(Run(moves).db, Run(moves).registry, q, now) == Replay
    ensures q.id in Run(moves).db.items
    ensures Run(moves).db.items[q.id].response == Some(q.body) <==> q.body.Keys != {"expire", "reason"}
  {
    RunInv(moves);
    var db := Run(moves).db;
    assert KeyOk(db.items[q.id], db.keys[(q.id, q.key)]);
    assert ResponseShape(q.body) ==> "expire" !in q.body.Keys;
    assert q.body.Keys == {"expire", "reason"} ==> "expire" in q.body.Keys;
  }

  const ASKING := Session(Running, 1, "lease", Some(7), None, None)
  const ASKED := ItemId("s", 1, "q")
  const WAITING := ASKING.(status := WaitingInput, inputItem := Some(ASKED))
  const QUESTION := Registration("s", 1, "q", Question, map[], 2, None)

  /** A run that asks a question, waits, and expires it under a key of its own. */
  function ExpiredRun(): seq<Move> {
    [ SessionMoves("s", Some(ASKING)), Register(Some(ASKING), QUESTION, 0.0), SessionMoves("s", Some(WAITING)),
      Activate(ASKED, 1.0), Expire(ASKED, 2, "key", "late", 2.0) ]
  }

  /** Nothing was ever answered in that run, and still the text of the expiry under the same key is a replay. */
  lemma ExpiryIsReplayed()
    ensures Typed(ExpiredRun())
    ensures var w := Run(ExpiredRun());
      && ASKED in w.db.items && w.db.items[ASKED].status == Expired && w.db.items[ASKED].response.None?
      && RespondVerdict(w.db, w.registry, Request(ASKED, ExpiryBody("late"), 40, 2, "key"), 3.0) == Replay
  {
    hide *;
    PendingQuestion();
    RunFive(ExpiredRun());
    ExpireAsked(World(map["s" := WAITING], Db(map[ASKED := Moved(NewItem(QUESTION, ASKING, 0.0), Pending, 1.0)], map[])));
  }

  lemma PendingQuestion()
    ensures Typed(ExpiredRun())
    ensures var m := ExpiredRun();
      |m| == 5 && m[4] == Expire(ASKED, 2, "key", "late", 2.0) &&
      Next(Next(Next(Next(World(map[], Db(map[], map[])), m[0]), m[1]), m[2]), m[3]) ==
      World(map["s" := WAITING], Db(map[ASKED := Moved(NewItem(QUESTION, ASKING, 0.0), Pending, 1.0)], map[]))
  {
    var m, item := ExpiredRun(), NewItem(QUESTION, ASKING, 0.0);
    var w1 := World(map["s" := ASKING], Db(map[], map[]));
    var w2 := World(map["s" := ASKING], Db(map[ASKED := item], map[]));
    var w3 := World(map["s" := WAITING], w2.db);
    assert Next(World(map[], Db(map[], map[])), m[0]) == w1;
    assert Next(w1, m[1]) == w2 by { assert RegisterResult(w1.db, Some(ASKING), QUESTION).None?; }
    assert Next(w2, m[2]) == w3;
  }

  lemma ExpireAsked(w: World)
    requires w.registry == map["s" := WAITING]
    requires w.db == Db(map[ASKED := Moved(NewItem(QUESTION, ASKING, 0.0), Pending, 1.0)], map[])
    ensures var v := Next(w, Expire(ASKED, 2, "key", "late", 2.0));
      && ASKED in v.db.items && v.db.items[ASKED].status == Expired && v.db.items[ASKED].response.None?
      && RespondVerdict(v.db, v.registry, Request(ASKED, ExpiryBody("late"), 40, 2, "key"), 3.0) == Replay
  {
    assert ExpiryDigest("late") == Encoded(ExpiryBody("late"));
    hide ExpiryDigest, ExpiryBody, LostReason, ValidResponse;
    assert ExpireVerdict(w.db, w.registry, ASKED, 2, "key", "late") == Verdict.Accept;
  }

  lemma RunFive(m: seq<Move>)
    requires |m| == 5
    ensures Run(m) == Next(Next(Next(Next(Next(World(map[], Db(map[], map[])), m[0]), m[1]), m[2]), m[3]), m[4])
  {
    hide Next;
    assert m[..4][..3] == m[..3] && m[..3][..2] == m[..2] && m[..2][..1] == m[..1] && m[..1][..0] == [];
    assert Run(m[..1]) == Next(World(map[], Db(map[], map[])), m[0]);
    assert Run(m[..2]) == Next(Run(m[..1]), m[1]);
    assert Run(m[..3]) == Next(Run(m[..2]), m[2]);
    assert Run(m[..4]) == Next(Run(m[..3]), m[3]);
  }

  // ---------- crash-safe publication ----------

  /** The deadline of a pending item has passed. */
  predicate Overdue(item: Item, now: real) {
    item.status == Pending && DeadlinePassed(item, now)
  }

  /** After `reconcile` no item is left half-published; an item is open exactly when it was open, its session was seen
      waiting on it and it was not an overdue one; closed items are as they were; and of the items whose sessions were
      seen in one and the same state, at most one per session is open. */
  lemma ReconcileRepairs(db: Db, seen: Sight, now: real, id: ItemId, other: ItemId)
    requires id in db.items
    ensures var was, after := db.items[id], ReconcileDb(db, seen, now).items;
      && id in after && after[id].status != Publishing
      && (Open(after[id].status) <==> Open(was.status) && Current(SeenAt(seen, id), id, was) && !Overdue(was, now))
      && (Open(after[id].status) ==> after[id].status == if was.status == Publishing then Pending else was.status)
      && (Open(was.status) && !Open(after[id].status) ==>
            after[id].status == if Current(SeenAt(seen, id), id, was) then Expired else Stale)
      && (!Open(was.status) ==> after[id] == was)
      && (other in after && other.session == id.session && SeenAt(seen, other) == SeenAt(seen, id)
          ==> !Open(after[id].status) || !Open(after[other].status) || other == id)
  {
    hide LostReason;
  }

  /** The transaction by which `reconcile` repairs or closes a row that it listed earlier, if it does. */
  function RepairMove(listed: Item, seen: Registry, id: ItemId, now: real): Option<Move> {
    if !Open(listed.status) then None
    else if !Current(seen, id, listed) then Some(SetTerminal(id, Stale, LostReason(seen, id), now))
    else if Overdue(listed, now) then Some(SetTerminal(id, Expired, "request deadline elapsed", now))
    else if listed.status == Publishing then Some(Activate(id, now))
    else None
  }

  /** What repairing a row does that others have moved on since it was listed. */
  predicate Repaired(listed: Item, item: Item, m: Move, after: Item) {
    match m
    case SetTerminal(_, Stale, reason, now) => !Open(after.status) && (!Open(item.status) ==> after == item)
    case SetTerminal(_, Expired, reason, now) =>
      after == if item.status == Pending then Resolved(item, Expired, reason, now) else item
    case Activate(_, now) => after == if item.status == Publishing then Moved(item, Pending, now) else item
    case _ => false
  }

  /** Rows are listed first and repaired one by one, with anything in between: a row that has not changed becomes what
      `ReconcileDb` says; a row found orphaned ends closed in any case; an answer that came in before the
      deadline was noticed is kept; and a row is published at most once. */
  lemma InterleavedRepair(moves: seq<Move>, n: nat, id: ItemId, seen: Registry, now: real)
    requires Typed(moves) && n <= |moves| && id in Run(moves[..n]).db.items
    requires RepairMove(Run(moves[..n]).db.items[id], seen, id, now).Some?
    ensures var listed := Run(moves[..n]).db.items[id];
      var m := RepairMove(listed, seen, id, now).value;
      && Typed(moves + [m]) && id in Run(moves).db.items && id in Run(moves + [m]).db.items
      && var item, after := Run(moves).db.items[id], Run(moves + [m]).db.items[id];
      && (item == listed ==> after == Reconciled(seen, id, listed, now))
      && Repaired(listed, item, m, after)
  {
    hide *;
    RunSafe(moves, n);
    ItemStays(Run(moves[..n]).db, Run(moves).db, id);
    var listed := Run(moves[..n]).db.items[id];
    var m := RepairMove(listed, seen, id, now).value;
    RunAppend(moves, m);
    RepairOne(Run(moves), listed, seen, id, now);
    TypedAppend(moves, m);
  }

  lemma ItemStays(a: Db, b: Db, id: ItemId)
    requires DbLater(a, b) && id in a.items
    ensures id in b.items && Later(a.items[id], b.items[id])
  {
  }

  lemma TypedAppend(moves: seq<Move>, m: Move)
    requires Typed(moves) && WellTyped(m)
    ensures Typed(moves + [m])
  {
  }

  lemma RunAppend(moves: seq<Move>, m: Move)
    ensures Run(moves + [m]) == Next(Run(moves), m) && Run(moves + [m]).db == NextDb(Run(moves), m)
  {
    hide NextDb;
    assert (moves + [m])[..|moves|] == moves;
  }

  lemma RepairOne(w: World, listed: Item, seen: Registry, id: ItemId, now: real)
    requires id in w.db.items && RepairMove(listed, seen, id, now).Some? && Later(listed, w.db.items[id])
    ensures var m, item := RepairMove(listed, seen, id, now).value, w.db.items[id];
      && WellTyped(m) && id in NextDb(w, m).items
      && var after := NextDb(w, m).items[id];
      && (item == listed ==> after == Reconciled(seen, id, listed, now))
      && Repaired(listed, item, m, after)
  {
    hide Current, LostReason;
  }

  /** The three writes of a publication, of which a crash lets the first `done` happen. */
  function Publication(session: string, running: Session, waiting: Session, r: Registration, now: real): seq<Move>
    requires r.attempt >= 0
  {
    [Register(Some(running), r, now), SessionMoves(session, Some(waiting)), Activate(IdOf(r), now)]
  }

  function Do(w: World, moves: seq<Move>): World
    decreases moves
  {
    if moves == [] then w else Do(Next(w, moves[0]), moves[1..])
  }

  /** Every row's read finds the sessions as they are in `w`. */
  function Still(w: World): Sight {
    map id | id in w.db.items :: w.registry
  }

  function PublishedStatus(r: Registration, done: nat, later: real): ItemStatus {
    if done == 1 then Stale
    else if done == 3 && r.expiresAt.Some? && later >= r.expiresAt.value then Expired
    else Pending
  }

  /** Stopping a publication after any of its steps and reconciling leaves the item pending if the session
      transition was made, stale if only the item was written, and absent if nothing was. */
  lemma PublicationIsCrashSafe(w: World, running: Session, waiting: Session, r: Registration, now: real, later: real, done: nat)
    requires done <= 3 && ValidRegistration(r)
    requires r.session in w.registry && w.registry[r.session] == running
    requires running.status == Running && running.attempt == r.attempt && IdOf(r) !in w.db.items
    requires waiting.status == WaitingStatus(r.kind) && waiting.attempt == r.attempt
    requires WaitedItem(waiting, r.kind) == Some(IdOf(r)) && waiting.leaseToken == running.leaseToken
    ensures var u := Do(w, Publication(r.session, running, waiting, r, now)[..done]);
      var v := Next(u, Reconcile(Still(u), later));
      && (IdOf(r) in v.db.items <==> done > 0)
      && (done > 0 ==> v.db.items[IdOf(r)].status == PublishedStatus(r, done, later))
  {
    var id, item := IdOf(r), NewItem(r, running, now);
    PublicationSteps(w, running, waiting, r, now, done);
    var u := Do(w, Publication(r.session, running, waiting, r, now)[..done]);
    hide Do, Publication, WaitingStatus, LostReason, ValidRegistration;
    if done > 0 {
      assert Current(u.registry, id, u.db.items[id]) <==> done > 1;
    }
  }

  /** What the first `done` writes of a publication leave behind. */
  lemma PublicationSteps(w: World, running: Session, waiting: Session, r: Registration, now: real, done: nat)
    requires done <= 3 && ValidRegistration(r)
    requires r.session in w.registry && w.registry[r.session] == running
    requires running.status == Running && running.attempt == r.attempt && IdOf(r) !in w.db.items
    ensures var u := Do(w, Publication(r.session, running, waiting, r, now)[..done]);
      var item := NewItem(r, running, now);
      && r.session in u.registry && u.registry[r.session] == (if done < 2 then running else waiting)
      && (IdOf(r) in u.db.items <==> done > 0)
      && (done > 0 ==> u.db.items[IdOf(r)] == if done < 3 then item else Moved(item, Pending, now))
  {
    var id, item := IdOf(r), NewItem(r, running, now);
    var p := Publication(r.session, running, waiting, r, now);
    assert RegisterDb(w.db, Some(running), r, now) == Put(w.db, id, item);
    hide RegisterDb, ValidRegistration;
    var w1 := World(w.registry, Put(w.db, id, item));
    var w2 := World(w.registry[r.session := waiting], w1.db);
    var w3 := World(w2.registry, Put(w1.db, id, Moved(item, Pending, now)));
    assert Next(w, p[0]) == w1 && Next(w1, p[1]) == w2 && Next(w2, p[2]) == w3;
    DoThree(w, p, done);
    assert Do(w, p[..done]) == if done == 0 then w else if done == 1 then w1 else if done == 2 then w2 else w3;
  }

  lemma DoCons(w: World, m: Move, rest: seq<Move>)
    ensures Do(w, [m] + rest) == Do(Next(w, m), rest)
  {
    hide Next;
    assert ([m] + rest)[1..] == rest;
  }

  lemma DoThree(w: World, p: seq<Move>, done: nat)
    requires done <= 3 && |p| == 3
    ensures Do(w, p[..done]) ==
      if done == 0 then w
      else if done == 1 then Next(w, p[0])
      else if done == 2 then Next(Next(w, p[0]), p[1])
      else Next(Next(Next(w, p[0]), p[1]), p[2])
  {
    hide Next;
    if done >= 1 {
      assert p[..done] == [p[0]] + p[1..done];
      DoCons(w, p[0], p[1..done]);
    }
    if done >= 2 {
      assert p[1..done] == [p[1]] + p[2..done];
      DoCons(Next(w, p[0]), p[1], p[2..done]);
    }
    if done == 3 {
      assert p[2..done] == [p[2]] + [];
      DoCons(Next(Next(w, p[0]), p[1]), p[2], []);
    }
  }

  /** Half published although its deadline has passed, while its session waits on it. */
  predicate LatePublication(registry: Registry, id: ItemId, item: Item, now: real) {
    item.status == Publishing && Current(registry, id, item) && DeadlinePassed(item, now)
  }

  /** Reconciling twice at one instant is reconciling once, exactly when no half-published item of a waiting
      session is already past its deadline: the first pass publishes such an item, the second expires it. */
  lemma ReconcileTwice(db: Db, seen: Sight, now: real)
    ensures var once := ReconcileDb(db, seen, now);
      ReconcileDb(once, seen, now) == once <==> forall id | id in db.items :: !LatePublication(SeenAt(seen, id), id, db.items[id], now)
  {
    hide LostReason, SeenAt;
    var once := ReconcileDb(db, seen, now);
    var twice := ReconcileDb(once, seen, now);
    forall id | id in db.items
      ensures twice.items[id] == once.items[id] <==> !LatePublication(SeenAt(seen, id), id, db.items[id], now)
    {
    }
    if forall id | id in db.items :: twice.items[id] == once.items[id] {
      assert twice.items == once.items;
    }
  }
}
