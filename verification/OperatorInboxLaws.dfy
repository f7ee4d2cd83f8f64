/** What the transactions of the operator inbox leave, said field by field, and that an accepted answer reaches the worker
    that waits for it. */
module OperatorInboxLaws {
  import opened Wrappers
  import opened Sessions
  import opened OperatorInbox
  import opened OperatorInboxRuns
  import Text

  // ---------- the conditions, in the fields of items and sessions ----------

  /** The session waits for an answer to this item, in the item's attempt and under the item's lease. */
  predicate WaitsFor(registry: Registry, id: ItemId, item: Item) {
    && id.session in registry
    && var s := registry[id.session];
       && s.attempt == id.attempt && HashOf(s.leaseToken) == item.owner
       && if item.kind == Approval then s.status == WaitingApproval && s.approvalItem == Some(id)
          else s.status == WaitingInput && s.inputItem == Some(id)
  }

  predicate IsText(j: Json) { j.JText? }

  predicate IsTrue(r: Body, name: string) {
    name in r && r[name] == JBool(true)
  }

  predicate Given(r: Body, name: string) {
    name in r && r[name] != JNull
  }

  /** The response answers an item of this kind: one text; one text for every asked question and no other; or a decision,
      with what may go along with it. */
  ghost predicate Fits(kind: Kind, target: Body, r: Body) {
    match kind
    case Input => (forall name :: name in r <==> name == "answer") && IsText(r["answer"])
    case Question =>
      && (forall name :: name in r <==> name == "answers") && r["answers"].JObject?
      && "question_ids" in target && target["question_ids"].JList?
      && (forall j | j in target["question_ids"].elements :: IsText(j))
      && (forall name :: name in r["answers"].fields <==> JText(name) in target["question_ids"].elements)
      && (forall name | name in r["answers"].fields :: IsText(r["answers"].fields[name]))
    case Approval =>
      && (forall name | name in r :: name in {"allowed", "remember", "remember_all", "scope_grant", "message", "mode"})
      && (IsTrue(r, "allowed") || ("allowed" in r && r["allowed"] == JBool(false)))
      && (forall name | name in {"remember", "remember_all"} && name in r :: r[name].JBool?)
      && (Given(r, "scope_grant") ==> r["scope_grant"] in {JText("target_once"), JText("target_turn"), JText("target_session")})
      && (IsTrue(r, "remember") || IsTrue(r, "remember_all") || Given(r, "mode") ==> IsTrue(r, "allowed"))
      && ("message" in r ==> IsText(r["message"]) && |r["message"].text| <= 8_000)
      && (Given(r, "mode") ==>
            && IsText(r["mode"])
            && ("mode_options" in target && target["mode_options"].JList? && target["mode_options"].elements != []
                ==> r["mode"] in target["mode_options"].elements))
  }

  lemma FitsIsValid(kind: Kind, target: Body, r: Body)
    ensures Fits(kind, target, r) <==> ValidResponse(kind, target, r)
  {
    match kind
    case Input => InputFits(target, r);
    case Question => QuestionFits(target, r);
    case Approval => ApprovalFits(target, r);
  }

  lemma InputFits(target: Body, r: Body)
    ensures Fits(Input, target, r) <==> ValidResponse(Input, target, r)
  {
    OneKey(r, "answer");
  }

  lemma OneKey(r: Body, key: string)
    ensures (forall name :: name in r <==> name == key) <==> r.Keys == {key}
  {
    if r.Keys == {key} {
      forall name ensures name in r <==> name == key { assert name in r <==> name in r.Keys; }
    }
  }

  lemma QuestionFits(target: Body, r: Body)
    ensures Fits(Question, target, r) <==> ValidResponse(Question, target, r)
  {
    OneKey(r, "answers");
    if "question_ids" in target && target["question_ids"].JList? && "answers" in r && r["answers"].JObject? {
      var ids, answers := target["question_ids"].elements, r["answers"].fields;
      assert forall j :: IsText(j) ==> j == JText(j.text);
    }
  }

  lemma ApprovalFits(target: Body, r: Body)
    ensures Fits(Approval, target, r) <==> ValidResponse(Approval, target, r)
  {
    var names := {"allowed", "remember", "remember_all", "scope_grant", "message", "mode"};
    assert (forall name | name in r :: name in names) <==> r.Keys <= names;
    assert "remember" in {"remember", "remember_all"} && "remember_all" in {"remember", "remember_all"};
  }

  lemma WaitsForIsCurrent(registry: Registry, id: ItemId, item: Item)
    ensures WaitsFor(registry, id, item) <==> Current(registry, id, item)
  {
  }

  // ---------- what a transaction leaves ----------

  /** The item one status further, at the next version. */
  function Next1(item: Item, status: ItemStatus, now: real): Item {
    item.(status := status, version := item.version + 1, updatedAt := now)
  }

  function Cut(reason: string): string {
    if |reason| <= 240 then reason else reason[..240]
  }

  function With(db: Db, id: ItemId, item: Item): Db {
    Db(db.items[id := item], db.keys)
  }

  /** The caller names the pending item at its version, under a key of its own that was not used yet. */
  predicate Addressed(db: Db, id: ItemId, version: int, key: string) {
    && 1 <= |key| <= 256 && version >= 1 && id in db.items && (id, key) !in db.keys
    && db.items[id].status == Pending && db.items[id].version == version
  }

  predicate Passed(item: Item, now: real) {
    item.expiresAt.Some? && now >= item.expiresAt.value
  }

  ghost function AfterRespond(db: Db, registry: Registry, q: Request, now: real): Db {
    if !Addressed(db, q.id, q.version, q.key) || q.bytes > 64_000 then db
    else
      var item := db.items[q.id];
      if Passed(item, now) then With(db, q.id, Next1(item, Expired, now).(resolution := "expired before response"))
      else if !Fits(item.kind, item.target, q.body) then db
      else if !WaitsFor(registry, q.id, item)
      then With(db, q.id, Next1(item, Stale, now).(resolution := Cut(LostReason(registry, q.id))))
      else Db(db.items[q.id := Next1(item, Accepted, now).(response := Some(q.body))], db.keys[(q.id, q.key) := Encoded(q.body)])
  }

  /** Every ASCII reason is recorded as the text it stands for. */
  function ExpiryKey(reason: string): Digest {
    var text := Cut(reason);
    if forall i | 0 <= i < |text| :: text[i] < '\U{80}' then Encoded(map["expire" := JBool(true), "reason" := JText(text)])
    else EscapedExpiry(text)
  }

  ghost function AfterExpire(db: Db, registry: Registry, id: ItemId, version: int, key: string, reason: string, now: real): Db {
    if !Addressed(db, id, version, key) then db
    else if !WaitsFor(registry, id, db.items[id])
    then With(db, id, Next1(db.items[id], Stale, now).(resolution := Cut(LostReason(registry, id))))
    else
      Db(db.items[id := Next1(db.items[id], Expired, now).(resolution := Cut(reason))], db.keys[(id, key) := ExpiryKey(reason)])
  }

  /** A running session, or one that already waits on this item, publishes a well-formed request that is not there yet. */
  predicate Publishes(db: Db, seen: Option<Session>, r: Registration) {
    && 1 <= |r.request| <= 256 && 1 <= |r.session| <= 256 && r.attempt >= 1 && r.targetBytes <= 64_000
    && seen.Some? && seen.value.attempt == r.attempt
    && var id := ItemId(r.session, r.attempt, r.request);
       && id !in db.items
       && (seen.value.status == Running
           || (if r.kind == Approval then seen.value.status == WaitingApproval && seen.value.approvalItem == Some(id)
               else seen.value.status == WaitingInput && seen.value.inputItem == Some(id)))
  }

  ghost function AfterRegister(db: Db, seen: Option<Session>, r: Registration, now: real): Db {
    if !Publishes(db, seen, r) then db
    else With(db, ItemId(r.session, r.attempt, r.request),
      Item(r.kind, r.target, now, r.expiresAt, HashOf(seen.value.leaseToken), Publishing, 1, None, "", now))
  }

  /** A refused approval ends rejected; any other accepted answer ends delivered. */
  function Outcome(item: Item): ItemStatus {
    if item.response.Some? && "allowed" in item.response.value && item.response.value["allowed"] == JBool(false)
    then Rejected else ItemStatus.Delivered
  }

  /** What each move leaves of the tables. */
  ghost function AfterMove(w: World, m: Move): Db {
    match m
    case SessionMoves(_, _) => w.db
    case Register(seen, r, now) => AfterRegister(w.db, seen, r, now)
    case Activate(id, now) =>
      if id in w.db.items && w.db.items[id].status == Publishing then With(w.db, id, Next1(w.db.items[id], Pending, now)) else w.db
    case Respond(q, now) => AfterRespond(w.db, w.registry, q, now)
    case Expire(id, version, key, reason, now) => AfterExpire(w.db, w.registry, id, version, key, reason, now)
    case SetTerminal(id, final, reason, now) =>
      if id in w.db.items && (w.db.items[id].status in {Publishing, Pending} || (w.db.items[id].status == Accepted && final == Stale))
      then With(w.db, id, Next1(w.db.items[id], final, now).(resolution := Cut(reason))) else w.db
    case CloseExpired(id, final, reason, now) =>
      if id in w.db.items && w.db.items[id].status == Expired
      then With(w.db, id, Next1(w.db.items[id], final, now).(resolution := Cut(reason))) else w.db
    case MarkDelivered(id, now) =>
      if id in w.db.items && w.db.items[id].status == Accepted
      then With(w.db, id, Next1(w.db.items[id], Outcome(w.db.items[id]), now)) else w.db
    case ReadAnswer(seen, id, now) =>
      if id in w.db.items && w.db.items[id].status == Accepted && !WaitsFor(seen, id, w.db.items[id])
      then With(w.db, id, Next1(w.db.items[id], Stale, now).(resolution := Cut(LostReason(seen, id)))) else w.db
    case Reconcile(sight, now) => Db(map id | id in w.db.items :: AfterReconcile(SeenAt(sight, id), id, w.db.items[id], now), w.db.keys)
  }

  function AfterReconcile(seen: Registry, id: ItemId, item: Item, now: real): Item {
    if item.status !in {Publishing, Pending, Accepted} then item
    else if !WaitsFor(seen, id, item) then Next1(item, Stale, now).(resolution := Cut(LostReason(seen, id)))
    else if item.status == Pending && Passed(item, now) then Next1(item, Expired, now).(resolution := "request deadline elapsed")
    else if item.status == Publishing then Next1(item, Pending, now)
    else item
  }

  lemma RespondLeaves(db: Db, registry: Registry, q: Request, now: real)
    ensures RespondDb(db, registry, q, now) == AfterRespond(db, registry, q, now)
    ensures RespondVerdict(db, registry, q, now) == Replay <==>
      && 1 <= |q.key| <= 256 && q.version >= 1 && q.bytes <= 64_000
      && q.id in db.items && (q.id, q.key) in db.keys && db.keys[(q.id, q.key)] == Encoded(q.body)
  {
    if q.id in db.items {
      FitsIsValid(db.items[q.id].kind, db.items[q.id].target, q.body);
      WaitsForIsCurrent(registry, q.id, db.items[q.id]);
    }
    hide Fits, ValidResponse, WaitsFor, Current, LostReason;
  }

  lemma ExpiryKeyIs(reason: string)
    ensures ExpiryDigest(reason) == ExpiryKey(reason)
  {
  }

  lemma ExpireLeaves(db: Db, registry: Registry, id: ItemId, version: int, key: string, reason: string, now: real)
    ensures ExpireDb(db, registry, id, version, key, reason, now) == AfterExpire(db, registry, id, version, key, reason, now)
  {
    ExpiryKeyIs(reason);
    if id in db.items { WaitsForIsCurrent(registry, id, db.items[id]); }
    hide WaitsFor, Current, LostReason, ExpiryKey, ExpiryDigest;
  }

  lemma RegisterLeaves(db: Db, seen: Option<Session>, r: Registration, now: real)
    ensures RegisterDb(db, seen, r, now) == AfterRegister(db, seen, r, now)
  {
  }

  lemma ReconcileLeaves(db: Db, sight: Sight, now: real)
    ensures ReconcileDb(db, sight, now) ==
      Db(map id | id in db.items :: AfterReconcile(SeenAt(sight, id), id, db.items[id], now), db.keys)
  {
    hide Reconciled, AfterReconcile, SeenAt;
    forall id | id in db.items
      ensures Reconciled(SeenAt(sight, id), id, db.items[id], now) == AfterReconcile(SeenAt(sight, id), id, db.items[id], now)
    {
      RowLeaves(SeenAt(sight, id), id, db.items[id], now);
    }
  }

  lemma RowLeaves(seen: Registry, id: ItemId, item: Item, now: real)
    ensures Reconciled(seen, id, item, now) == AfterReconcile(seen, id, item, now)
  {
    WaitsForIsCurrent(seen, id, item);
    hide WaitsFor, Current, LostReason;
  }

  /** Every transaction leaves exactly what `AfterMove` says, in every state. */
  lemma MoveLeaves(w: World, m: Move)
    ensures NextDb(w, m) == AfterMove(w, m)
  {
    hide AfterRespond, AfterExpire, AfterRegister, RespondDb, ExpireDb, RegisterDb, ReconcileDb, AfterReconcile, WaitsFor, Current, LostReason;
    match m
    case Respond(q, now) => RespondLeaves(w.db, w.registry, q, now);
    case Expire(id, version, key, reason, now) => ExpireLeaves(w.db, w.registry, id, version, key, reason, now);
    case Register(seen, r, now) => RegisterLeaves(w.db, seen, r, now);
    case Reconcile(sight, now) => ReconcileLeaves(w.db, sight, now);
    case ReadAnswer(seen, id, now) => if id in w.db.items { WaitsForIsCurrent(seen, id, w.db.items[id]); }
    case _ =>
  }

  // ---------- the answer arrives ----------

  /** The moment at which a response is accepted, by the fields of the item and of the session. */
  ghost predicate Answers(w: World, m: Move, id: ItemId, body: Body) {
    && m.Respond? && m.q.id == id && m.q.body == body && m.q.bytes <= 64_000
    && Addressed(w.db, id, m.q.version, m.q.key) && !Passed(w.db.items[id], m.now)
    && Fits(w.db.items[id].kind, w.db.items[id].target, body) && WaitsFor(w.registry, id, w.db.items[id])
  }

  /** Every stored response was answered by a move at a moment when the session waited for it. */
  lemma StoredWasAnswered(moves: seq<Move>, id: ItemId) returns (n: nat)
    requires Typed(moves) && id in Run(moves).db.items && Run(moves).db.items[id].response.Some?
    ensures n < |moves| && Answers(Run(moves[..n]), moves[n], id, Run(moves).db.items[id].response.value)
  {
    n := EveryAnswerWasLive(moves, id);
    var w, m := Run(moves[..n]), moves[n];
    MoveAt(moves, n);
    hide Run, NextDb;
    PendingIsAnswered(w, m, id, Run(moves).db.items[id].response.value);
  }

  lemma MoveAt(moves: seq<Move>, n: nat)
    requires n < |moves|
    ensures Run(moves[..n + 1]).db == NextDb(Run(moves[..n]), moves[n])
  {
    assert moves[..n + 1][..n] == moves[..n];
    hide NextDb;
  }

  lemma PendingIsAnswered(w: World, m: Move, id: ItemId, body: Body)
    requires AcceptedNow(w, m, id, body) && id in NextDb(w, m).items && NextDb(w, m).items[id].status == Accepted
    ensures Answers(w, m, id, body)
  {
    RespondLeaves(w.db, w.registry, m.q, m.now);
    hide Fits, ValidResponse, WaitsFor, Waits, RespondDb, LostReason;
  }

  lemma AnsweredIsStored(w: World, m: Move, id: ItemId, body: Body)
    requires Answers(w, m, id, body)
    ensures id in NextDb(w, m).items && NextDb(w, m).items[id].response == Some(body)
  {
    RespondLeaves(w.db, w.registry, m.q, m.now);
    hide Fits, WaitsFor, RespondDb, LostReason;
  }

  /** After a response was accepted, the worker gets exactly it for as long as the item is accepted and the session seen
      waits for it, whatever else happens in between; and gets nothing once either fails. */
  lemma AnswerArrives(moves: seq<Move>, n: nat, id: ItemId, body: Body, seen: Registry)
    requires Typed(moves) && n < |moves| && Answers(Run(moves[..n]), moves[n], id, body)
    ensures id in Run(moves).db.items && Run(moves).db.items[id].response == Some(body)
    ensures Answer(Run(moves).db, seen, id) ==
      if Run(moves).db.items[id].status == Accepted && WaitsFor(seen, id, Run(moves).db.items[id]) then Some(body) else None
  {
    AnsweredIsStored(Run(moves[..n]), moves[n], id, body);
    MoveAt(moves, n);
    RunSafe(moves, n + 1);
    hide Run, NextDb, Answers, WaitsFor, Current;
    ItemStays(Run(moves[..n + 1]).db, Run(moves).db, id);
    WaitsForIsCurrent(seen, id, Run(moves).db.items[id]);
  }
}
