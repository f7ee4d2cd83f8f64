/** The versioned operator inbox for approvals and questions (src/agenthicc/background/inbox.py).

    The two tables are the fields of `Inbox`; each method is one SQLite transaction and is
    proved against a function on the table values `Db`. SHA-256 is taken to be injective, so a
    digest stands for what was hashed. */
module OperatorInbox {
  import opened Wrappers
  import opened Sessions
  import Text

  const MAX_BYTES := 64_000
  const MAX_NAME := 256

  datatype Json =
    | JNull
    | JBool(flag: bool)
    | JNumber(number: real)
    | JText(text: string)
    | JList(elements: seq<Json>)
    | JObject(fields: map<string, Json>)

  type Body = map<string, Json>

  datatype Kind = Approval | Question | Input

  datatype ItemStatus = Publishing | Pending | Accepted | Delivered | Rejected | Expired | Stale | Failed

  datatype Item = Item(
    kind: Kind,
    target: Body,
    createdAt: real,
    expiresAt: Option<real>,
    owner: OwnerHash,
    status: ItemStatus,
    version: int,
    response: Option<Body>,
    resolution: string,
    updatedAt: real)

  /** SHA-256 of the JSON text of a body. `expire` escapes non-ASCII reasons and `respond` does
      not, so such an expiry text is never the text of a response. */
  datatype Digest = Encoded(body: Body) | EscapedExpiry(reason: string)

  datatype Db = Db(items: map<ItemId, Item>, keys: map<(ItemId, string), Digest>)

  type Registry = map<string, Session>

  datatype Error = ValueError | Conflict | KeyError

  // ---------- pure checks ----------

  predicate Field(body: Body, name: string, value: Json) {
    name in body && body[name] == value
  }

  /** `response.get(name)` is missing or null. */
  predicate Absent(body: Body, name: string) {
    name !in body || body[name] == JNull
  }

  predicate ValidApproval(target: Body, r: Body) {
    && r.Keys <= {"allowed", "remember", "remember_all", "scope_grant", "message", "mode"}
    && "allowed" in r && r["allowed"].JBool?
    && ("remember" in r ==> r["remember"].JBool?)
    && ("remember_all" in r ==> r["remember_all"].JBool?)
    && (Absent(r, "scope_grant") ||
        r["scope_grant"] in {JText("target_once"), JText("target_turn"), JText("target_session")})
    && (r["allowed"].flag || !(Field(r, "remember", JBool(true)) || Field(r, "remember_all", JBool(true))))
    && ("message" in r ==> r["message"].JText? && |r["message"].text| <= 8_000)
    && (Absent(r, "mode") ||
        (r["mode"].JText? && r["allowed"].flag &&
         ("mode_options" in target && target["mode_options"].JList? && target["mode_options"].elements != []
          ==> r["mode"] in target["mode_options"].elements)))
  }

  predicate ValidAnswers(target: Body, r: Body) {
    && r.Keys == {"answers"} && r["answers"].JObject?
    && "question_ids" in target && target["question_ids"].JList?
    && var ids := target["question_ids"].elements;
       var answers := r["answers"].fields;
       && (forall id | id in ids :: id.JText?)
       && (forall q | q in answers :: JText(q) in ids && answers[q].JText?)
       && (forall id | id in ids && id.JText? :: id.text in answers)
  }

  /** `_validate_response` */
  predicate ValidResponse(kind: Kind, target: Body, r: Body) {
    match kind
    case Approval => ValidApproval(target, r)
    case Input => r.Keys == {"answer"} && r["answer"].JText?
    case Question => ValidAnswers(target, r)
  }

  function WaitingStatus(kind: Kind): Status {
    if kind.Approval? then WaitingApproval else WaitingInput
  }

  function WaitedItem(session: Session, kind: Kind): Option<ItemId> {
    if kind.Approval? then session.approvalItem else session.inputItem
  }

  /** `_assert_current`: the session still waits on this exact item, attempt and lease. */
  predicate Waits(session: Session, id: ItemId, item: Item) {
    && session.status == WaitingStatus(item.kind)
    && session.attempt == id.attempt
    && WaitedItem(session, item.kind) == Some(id)
    && HashOf(session.leaseToken) == item.owner
  }

  predicate Current(registry: Registry, id: ItemId, item: Item) {
    id.session in registry && Waits(registry[id.session], id, item)
  }

  predicate Ascii(s: string) {
    forall i | 0 <= i < |s| :: s[i] < '\U{80}'
  }

  function ExpiryBody(reason: string): Body {
    map["expire" := JBool(true), "reason" := JText(reason)]
  }

  function ExpiryDigest(reason: string): Digest {
    var r := Text.Take(reason, 240);
    if Ascii(r) then Encoded(ExpiryBody(r)) else EscapedExpiry(r)
  }

  predicate DeadlinePassed(item: Item, now: real) {
    item.expiresAt.Some? && now >= item.expiresAt.value
  }

  // ---------- transactions as functions ----------

  /** The SQL update shared by every status change. */
  function Moved(item: Item, status: ItemStatus, now: real): Item {
    item.(status := status, version := item.version + 1, updatedAt := now)
  }

  function Resolved(item: Item, status: ItemStatus, reason: string, now: real): Item {
    Moved(item, status, now).(resolution := Text.Take(reason, 240))
  }

  function Put(db: Db, id: ItemId, item: Item): Db {
    db.(items := db.items[id := item])
  }

  datatype Registration = Registration(
    session: string, attempt: int, request: string, kind: Kind, target: Body, targetBytes: nat, expiresAt: Option<real>)

  predicate ValidRegistration(r: Registration) {
    && 1 <= |r.request| <= MAX_NAME && 1 <= |r.session| <= MAX_NAME
    && r.attempt >= 1 && r.targetBytes <= MAX_BYTES
  }

  function IdOf(r: Registration): ItemId
    requires r.attempt >= 0
  {
    ItemId(r.session, r.attempt, r.request)
  }

  /** The session may publish: it runs, or it already waits on this very item. */
  predicate MayPublish(session: Session, r: Registration)
    requires r.attempt >= 0
  {
    session.attempt == r.attempt &&
    (session.status == Running ||
     (session.status == WaitingStatus(r.kind) && WaitedItem(session, r.kind) == Some(IdOf(r))))
  }

  function NewItem(r: Registration, session: Session, now: real): Item {
    Item(r.kind, r.target, now, r.expiresAt, HashOf(session.leaseToken), Publishing, 1, None, "", now)
  }

  /** `seen` is the session read before the transaction. */
  function RegisterResult(db: Db, seen: Option<Session>, r: Registration): Option<Error> {
    if !ValidRegistration(r) then Some(ValueError)
    else if seen.None? then Some(KeyError)
    else if !MayPublish(seen.value, r) then Some(Conflict)
    else if IdOf(r) in db.items && (db.items[IdOf(r)].kind != r.kind || db.items[IdOf(r)].target != r.target)
    then Some(Conflict)
    else None
  }

  function RegisterDb(db: Db, seen: Option<Session>, r: Registration, now: real): Db {
    if RegisterResult(db, seen, r).Some? || IdOf(r) in db.items then db
    else Put(db, IdOf(r), NewItem(r, seen.value, now))
  }

  function ActivateDb(db: Db, id: ItemId, now: real): Db {
    if id in db.items && db.items[id].status == Publishing then Put(db, id, Moved(db.items[id], Pending, now)) else db
  }

  predicate TerminalAllowed(from: ItemStatus, to: ItemStatus) {
    from == Pending || from == Publishing || (to == Stale && from == Accepted)
  }

  function TerminalDb(db: Db, id: ItemId, status: ItemStatus, reason: string, now: real): Db {
    if id in db.items && TerminalAllowed(db.items[id].status, status)
    then Put(db, id, Resolved(db.items[id], status, reason, now)) else db
  }

  function CloseExpiredDb(db: Db, id: ItemId, status: ItemStatus, reason: string, now: real): Db {
    if id in db.items && db.items[id].status == Expired
    then Put(db, id, Resolved(db.items[id], status, reason, now)) else db
  }

  function MarkDeliveredDb(db: Db, id: ItemId, now: real): Db {
    if id in db.items && db.items[id].status == Accepted then
      var item := db.items[id];
      Put(db, id, Moved(item, if item.response.Some? && Field(item.response.value, "allowed", JBool(false)) then Rejected else Delivered, now))
    else db
  }

  datatype Request = Request(id: ItemId, body: Body, bytes: nat, version: int, key: string)

  predicate ValidKey(key: string, version: int) {
    1 <= |key| <= MAX_NAME && version >= 1
  }

  datatype Verdict =
    | Refuse(error: Error)            // raises, nothing is written
    | Replay                          // the key already records this very operation
    | Late                            // the deadline has passed: the item expires, then raises
    | Lost                            // the session no longer waits: the item goes stale, then raises
    | Accept                          // the transition is made

  function RespondVerdict(db: Db, registry: Registry, q: Request, now: real): Verdict {
    if !ValidKey(q.key, q.version) || q.bytes > MAX_BYTES then Refuse(ValueError)
    else if q.id !in db.items then Refuse(KeyError)
    else
      var item := db.items[q.id];
      if (q.id, q.key) in db.keys then
        if db.keys[(q.id, q.key)] == Encoded(q.body) then Replay else Refuse(Conflict)
      else if item.status != Pending || item.version != q.version then Refuse(Conflict)
      else if DeadlinePassed(item, now) then Late
      else if !ValidResponse(item.kind, item.target, q.body) then Refuse(ValueError)
      else if !Current(registry, q.id, item) then Lost
      else Accept
  }

  function RespondDb(db: Db, registry: Registry, q: Request, now: real): Db {
    match RespondVerdict(db, registry, q, now)
    case Refuse(_) => db
    case Replay => db
    case Late => Put(db, q.id, Resolved(db.items[q.id], Expired, "expired before response", now))
    case Lost => Put(db, q.id, Resolved(db.items[q.id], Stale, LostReason(registry, q.id), now))
    case Accept => Db(
      db.items[q.id := Moved(db.items[q.id], Accepted, now).(response := Some(q.body))],
      db.keys[(q.id, q.key) := Encoded(q.body)])
  }

  function LostReason(registry: Registry, id: ItemId): string {
    if id.session !in registry then "owning session no longer exists"
    else if registry[id.session].status == Deleted then "deleted sessions cannot receive inbox answers"
    else "inbox item is stale; its operation is no longer waiting"
  }

  function ExpireVerdict(db: Db, registry: Registry, id: ItemId, version: int, key: string, reason: string): Verdict {
    if !ValidKey(key, version) then Refuse(ValueError)
    else if id !in db.items then Refuse(KeyError)
    else if (id, key) in db.keys then
      if db.keys[(id, key)] == ExpiryDigest(reason) then Replay else Refuse(Conflict)
    else if db.items[id].status != Pending || db.items[id].version != version then Refuse(Conflict)
    else if !Current(registry, id, db.items[id]) then Lost
    else Accept
  }

  function ExpireDb(db: Db, registry: Registry, id: ItemId, version: int, key: string, reason: string, now: real): Db {
    match ExpireVerdict(db, registry, id, version, key, reason)
    case Lost => Put(db, id, Resolved(db.items[id], Stale, LostReason(registry, id), now))
    case Accept => Db(db.items[id := Resolved(db.items[id], Expired, reason, now)], db.keys[(id, key) := ExpiryDigest(reason)])
    case _ => db
  }

  predicate Open(status: ItemStatus) {
    status == Publishing || status == Pending || status == Accepted
  }

  /** What `reconcile` makes of one row. */
  function Reconciled(registry: Registry, id: ItemId, item: Item, now: real): Item {
    if !Open(item.status) then item
    else if !Current(registry, id, item) then Resolved(item, Stale, LostReason(registry, id), now)
    else if item.status == Pending && DeadlinePassed(item, now) then Resolved(item, Expired, "request deadline elapsed", now)
    else if item.status == Publishing then Moved(item, Pending, now)
    else item
  }

  /** The session records as each row's own read finds them: sessions may change between the rows. */
  type Sight = map<ItemId, Registry>

  function SeenAt(seen: Sight, id: ItemId): Registry {
    if id in seen then seen[id] else map[]
  }

  function ReconcileDb(db: Db, seen: Sight, now: real): Db {
    db.(items := map id | id in db.items :: Reconciled(SeenAt(seen, id), id, db.items[id], now))
  }

  /** An accepted response is handed over only while its session still waits. */
  function AnswerDb(db: Db, seen: Registry, id: ItemId, now: real): Db {
    if id in db.items && db.items[id].status == Accepted && !Current(seen, id, db.items[id])
    then TerminalDb(db, id, Stale, LostReason(seen, id), now) else db
  }

  /** The answer that is handed over, if any. */
  function Answer(db: Db, seen: Registry, id: ItemId): Option<Body> {
    if id in db.items && db.items[id].status == Accepted && Current(seen, id, db.items[id]) then db.items[id].response else None
  }

  // ---------- the class ----------

  class Inbox {
    var items: map<ItemId, Item>
    var keys: map<(ItemId, string), Digest>

    function Tables(): Db reads this { Db(items, keys) }

    constructor ()
      ensures Tables() == Db(map[], map[])
    {
      items, keys := map[], map[];
    }

    method Register(seen: Option<Session>, r: Registration, now: real) returns (result: Result<Item, Error>)
      modifies this
      ensures Tables() == RegisterDb(old(Tables()), seen, r, now)
      ensures var refused := RegisterResult(old(Tables()), seen, r);
        if refused.Some? then result == Failure(refused.value)
        else IdOf(r) in items && result == Success(items[IdOf(r)])
    {
      if !ValidRegistration(r) { return Failure(ValueError); }
      if seen.None? { return Failure(KeyError); }
      if !MayPublish(seen.value, r) { return Failure(Conflict); }
      var id := IdOf(r);
      if id in items {
        if items[id].kind != r.kind || items[id].target != r.target { return Failure(Conflict); }
        return Success(items[id]);
      }
      items := items[id := NewItem(r, seen.value, now)];
      return Success(items[id]);
    }

    method Activate(id: ItemId, now: real) returns (result: Result<Item, Error>)
      modifies this
      ensures Tables() == ActivateDb(old(Tables()), id, now)
      ensures result == if id in items then Success(items[id]) else Failure(KeyError)
    {
      if id !in items { return Failure(KeyError); }
      if items[id].status == Publishing {
        items := items[id := Moved(items[id], Pending, now)];
      }
      return Success(items[id]);
    }

    /** Accept one response; the boolean says whether it was a replay. */
    method Respond(registry: Registry, q: Request, now: real) returns (result: Result<(Item, bool), Error>)
      modifies this
      ensures Tables() == RespondDb(old(Tables()), registry, q, now)
      ensures match RespondVerdict(old(Tables()), registry, q, now)
        case Refuse(e) => result == Failure(e)
        case Replay => q.id in items && result == Success((items[q.id], true))
        case Accept => q.id in items && result == Success((items[q.id], false))
        case _ => result == Failure(Conflict)
    {
      if !ValidKey(q.key, q.version) || q.bytes > MAX_BYTES { return Failure(ValueError); }
      if q.id !in items { return Failure(KeyError); }
      var item := items[q.id];
      if (q.id, q.key) in keys {
        if keys[(q.id, q.key)] != Encoded(q.body) { return Failure(Conflict); }
        return Success((item, true));
      }
      if item.status != Pending || item.version != q.version { return Failure(Conflict); }
      if DeadlinePassed(item, now) {
        items := items[q.id := Resolved(item, Expired, "expired before response", now)];
        return Failure(Conflict);
      }
      if !ValidResponse(item.kind, item.target, q.body) { return Failure(ValueError); }
      if !Current(registry, q.id, item) {
        items := items[q.id := Resolved(item, Stale, LostReason(registry, q.id), now)];
        return Failure(Conflict);
      }
      keys := keys[(q.id, q.key) := Encoded(q.body)];
      items := items[q.id := Moved(item, Accepted, now).(response := Some(q.body))];
      return Success((items[q.id], false));
    }

    method Expire(registry: Registry, id: ItemId, version: int, key: string, reason: string, now: real)
      returns (result: Result<Item, Error>)
      modifies this
      ensures Tables() == ExpireDb(old(Tables()), registry, id, version, key, reason, now)
      ensures match ExpireVerdict(old(Tables()), registry, id, version, key, reason)
        case Refuse(e) => result == Failure(e)
        case Lost => result == Failure(Conflict)
        case _ => id in items && result == Success(items[id])
    {
      if !ValidKey(key, version) { return Failure(ValueError); }
      if id !in items { return Failure(KeyError); }
      if (id, key) in keys {
        if keys[(id, key)] != ExpiryDigest(reason) { return Failure(Conflict); }
        return Success(items[id]);
      }
      if items[id].status != Pending || items[id].version != version { return Failure(Conflict); }
      if !Current(registry, id, items[id]) {
        items := items[id := Resolved(items[id], Stale, LostReason(registry, id), now)];
        return Failure(Conflict);
      }
      keys := keys[(id, key) := ExpiryDigest(reason)];
      items := items[id := Resolved(items[id], Expired, reason, now)];
      return Success(items[id]);
    }

    method SetTerminal(id: ItemId, status: ItemStatus, reason: string, now: real) returns (result: Result<Item, Error>)
      requires status in {Expired, Stale, ItemStatus.Failed}
      modifies this
      ensures Tables() == TerminalDb(old(Tables()), id, status, reason, now)
      ensures result == if id in items then Success(items[id]) else Result.Failure(KeyError)
    {
      if id !in items { return Result.Failure(KeyError); }
      if TerminalAllowed(items[id].status, status) {
        items := items[id := Resolved(items[id], status, reason, now)];
      }
      return Success(items[id]);
    }

    method CloseExpired(id: ItemId, status: ItemStatus, reason: string, now: real) returns (result: Result<Item, Error>)
      requires status in {Delivered, Rejected}
      modifies this
      ensures Tables() == CloseExpiredDb(old(Tables()), id, status, reason, now)
      ensures result ==
        if id !in items then Result.Failure(KeyError)
        else if old(items)[id].status != Expired then Result.Failure(ValueError)
        else Success(items[id])
    {
      if id !in items { return Result.Failure(KeyError); }
      if items[id].status != Expired { return Result.Failure(ValueError); }
      items := items[id := Resolved(items[id], status, reason, now)];
      return Success(items[id]);
    }

    method MarkDelivered(id: ItemId, now: real) returns (result: Result<Item, Error>)
      modifies this
      ensures Tables() == MarkDeliveredDb(old(Tables()), id, now)
      ensures result == if id in items then Success(items[id]) else Result.Failure(KeyError)
    {
      if id !in items { return Result.Failure(KeyError); }
      var item := items[id];
      if item.status == Accepted {
        var refused := item.response.Some? && Field(item.response.value, "allowed", JBool(false));
        items := items[id := Moved(item, if refused then Rejected else Delivered, now)];
      }
      return Success(items[id]);
    }

    /** The accepted response, for the worker whose session still waits on the item. */
    method AcceptedAnswer(seen: Registry, id: ItemId, now: real) returns (answer: Option<Body>)
      modifies this
      ensures Tables() == AnswerDb(old(Tables()), seen, id, now)
      ensures id in old(items) && old(items)[id].status == Accepted && Current(seen, id, old(items)[id]) ==>
        answer == old(items)[id].response
      ensures answer == Answer(old(Tables()), seen, id)
    {
      if id !in items || items[id].status != Accepted { return None; }
      if !Current(seen, id, items[id]) {
        var _ := SetTerminal(id, Stale, LostReason(seen, id), now);
        return None;
      }
      return items[id].response;
    }

    /** Repair or close one row that `reconcile` read as open. */
    method ReconcileRow(registry: Registry, id: ItemId, now: real) returns (changed: bool)
      requires id in items && Open(items[id].status)
      modifies this
      ensures keys == old(keys) && items == old(items)[id := Reconciled(registry, id, old(items)[id], now)]
      ensures changed <==> items[id] != old(items)[id]
    {
      var item := items[id];
      hide Current, LostReason;
      if !Current(registry, id, item) {
        var _ := SetTerminal(id, Stale, LostReason(registry, id), now);
        return true;
      }
      if item.status == Pending && DeadlinePassed(item, now) {
        var _ := SetTerminal(id, Expired, "request deadline elapsed", now);
        return true;
      }
      if item.status == Publishing {
        var _ := Activate(id, now);
        return true;
      }
      assert items == items[id := item];
      return false;
    }

    /** Visit every row that was open, in any order, and repair or close it by what its own session read shows. */
    method Reconcile(seen: Sight, now: real) returns (changed: nat)
      modifies this
      ensures Tables() == ReconcileDb(old(Tables()), seen, now)
      ensures changed == |set id | id in old(items) && items[id] != old(items)[id]|
    {
      ghost var before := items;
      var todo := set id | id in items && Open(items[id].status);
      ghost var touched: set<ItemId> := {};
      changed := 0;
      NothingReconciled(seen, before, todo, now);
      hide Reconciled, Open, HalfReconciled, SeenAt;
      while todo != {}
        invariant keys == old(keys) && changed == |touched|
        invariant HalfReconciled(seen, before, items, todo, now, touched)
        decreases todo
      {
        var id :| id in todo;
        ghost var was, had := items, touched;
        RowIsOpen(seen, before, was, todo, now, touched, id);
        var moved := ReconcileRow(SeenAt(seen, id), id, now);
        if moved {
          touched := touched + {id};
          changed := changed + 1;
        }
        OneReconciled(seen, before, was, items, todo, now, had, touched, id);
        todo := todo - {id};
      }
      AllReconciled(seen, before, items, now, touched);
    }
  }

  /** The rows outside `todo` are reconciled, and `touched` are those that changed. */
  ghost predicate HalfReconciled(seen: Sight, before: map<ItemId, Item>, items: map<ItemId, Item>, todo: set<ItemId>,
    now: real, touched: set<ItemId>)
  {
    && items.Keys == before.Keys && todo <= before.Keys
    && (forall id | id in before :: items[id] == if id in todo then before[id] else Reconciled(SeenAt(seen, id), id, before[id], now))
    && (forall id | id in todo :: Open(before[id].status))
    && (forall id :: id in touched <==> id in before && items[id] != before[id])
  }

  lemma NothingReconciled(seen: Sight, before: map<ItemId, Item>, todo: set<ItemId>, now: real)
    requires todo == set id | id in before && Open(before[id].status)
    ensures HalfReconciled(seen, before, before, todo, now, {})
  {
    hide Open, Current;
  }

  lemma RowIsOpen(seen: Sight, before: map<ItemId, Item>, items: map<ItemId, Item>, todo: set<ItemId>, now: real,
    touched: set<ItemId>, id: ItemId)
    requires HalfReconciled(seen, before, items, todo, now, touched) && id in todo
    ensures id in items && id in before && items[id] == before[id] && Open(items[id].status) && id !in touched
  {
    hide Open, Reconciled;
  }

  lemma OneReconciled(seen: Sight, before: map<ItemId, Item>, was: map<ItemId, Item>, items: map<ItemId, Item>,
    todo: set<ItemId>, now: real, had: set<ItemId>, touched: set<ItemId>, id: ItemId)
    requires HalfReconciled(seen, before, was, todo, now, had) && id in todo && id in was
    requires items == was[id := Reconciled(SeenAt(seen, id), id, was[id], now)]
    requires touched == if items[id] != was[id] then had + {id} else had
    ensures HalfReconciled(seen, before, items, todo - {id}, now, touched)
  {
    hide Open, Reconciled, SeenAt;
    forall other ensures other in touched <==> other in before && items[other] != before[other] {
      if other != id { assert other in had <==> other in touched; }
    }
  }

  lemma AllReconciled(seen: Sight, before: map<ItemId, Item>, items: map<ItemId, Item>, now: real, touched: set<ItemId>)
    requires HalfReconciled(seen, before, items, {}, now, touched)
    ensures items == map id | id in before :: Reconciled(SeenAt(seen, id), id, before[id], now)
    ensures touched == set id | id in before && items[id] != before[id]
  {
    hide Open, Reconciled;
  }
}
