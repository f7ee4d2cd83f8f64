/** Due-driven maintenance (src/agenthicc/background/maintenance.py).

    The supervisor, the store and the inbox directory answer through `World`: each member is the answer to one kind of
    question during one pass. Times are reals. */
module Maintenance {

  import opened Wrappers
  import Sessions
  import FairQueue

  datatype Record = Record(
    id: string, status: Sessions.Status, dispatch: FairQueue.Dispatch, workerPid: Option<nat>, attempt: nat,
    lastActive: real, heartbeatStale: bool, claimedAt: Option<real>)

  datatype ProcessState = Live | Dead | Mismatched | Unknown

  datatype Probe = Probe(pid: nat, attempt: nat, state: ProcessState)

  type Fingerprint = int

  /** What was last read from an inbox file: whether it holds accepted deferred input. */
  datatype InboxFile = InboxFile(fingerprint: Fingerprint, holds: bool)

  datatype Trigger = Trigger(
    full: bool, registryChanged: bool, inboxChanged: Option<set<string>>, exited: set<string>, exitWatched: set<string>)

  datatype World = World(
    first: seq<Record>,                                // the active sessions when the pass starts
    second: seq<Record>,                               // and after worker recovery changed some
    processState: string -> ProcessState,
    recovered: seq<Record> -> map<string, Record>,     // what worker recovery changed, given the due sessions
    present: set<string>,                              // the inbox files of a directory scan
    fingerprint: string -> Option<Fingerprint>,        // `None` for a name that is no session's
    receipts: string -> Option<bool>,                  // whether deferred input is held; `None` if unreadable
    find: string -> Option<Record>,
    pending: string -> bool,                           // an input message can be started
    capacity: string -> bool,
    start: string -> Option<Record>,
    dispatched: map<string, Record>)

  datatype Config = Config(staleAfter: real, poll: real, rescan: Option<real>, dispatchLease: real)

  /** What is remembered of workers. */
  datatype Watch = Watch(probed: map<string, Probe>, probedAt: map<string, real>)

  /** What is remembered of deferred input. */
  datatype Memory = Memory(
    files: map<string, InboxFile>, settled: map<string, (Record, Fingerprint)>, retryAt: map<string, real>,
    failures: map<string, nat>)

  // ---------- workers ----------

  /** `reconciles_worker` */
  predicate Tracked(r: Record) {
    Sessions.Active(r.status) && !Queued(r) && !Reserved(r)
  }

  predicate Queued(r: Record) {
    r.status == Sessions.Queued && r.dispatch == FairQueue.PendingDispatch
  }

  /** A claimed reservation that has no worker yet. */
  predicate Reserved(r: Record) {
    r.status == Sessions.Starting && r.dispatch == FairQueue.Claimed && r.workerPid.None?
  }

  predicate HasHeartbeat(r: Record) {
    r.lastActive != 0.0
  }

  predicate Expired(cfg: Config, r: Record, now: real) {
    HasHeartbeat(r) && now > r.lastActive + cfg.staleAfter
  }

  predicate Unseen(st: Watch, r: Record) {
    r.workerPid.Some? && (r.id !in st.probed || st.probed[r.id].pid != r.workerPid.value || st.probed[r.id].attempt != r.attempt)
  }

  predicate Polled(cfg: Config, st: Watch, r: Record, trigger: Trigger, now: real) {
    r.workerPid.Some? && r.id !in trigger.exitWatched && (r.id !in st.probedAt || now - st.probedAt[r.id] >= cfg.poll)
  }

  /** The session's worker is reconciled in this pass. */
  predicate WorkerDue(cfg: Config, st: Watch, r: Record, trigger: Trigger, now: real) {
    trigger.full || r.id in trigger.exited || Unseen(st, r) || Polled(cfg, st, r, trigger, now)
    || Expired(cfg, r, now) != r.heartbeatStale
  }

  predicate HeartbeatPending(cfg: Config, r: Record, now: real) {
    Tracked(r) && HasHeartbeat(r) && !Expired(cfg, r, now) && !r.heartbeatStale
  }

  /** The heartbeat deadlines that lie ahead, in the order of the sessions. */
  function Heartbeats(cfg: Config, records: seq<Record>, now: real): seq<real> {
    if records == [] then []
    else
      var r := records[|records| - 1];
      Heartbeats(cfg, records[..|records| - 1], now)
      + if HeartbeatPending(cfg, r, now) then [r.lastActive + cfg.staleAfter] else []
  }

  lemma {:induction false} HeartbeatsAre(cfg: Config, records: seq<Record>, now: real, t: real)
    ensures t in Heartbeats(cfg, records, now) <==>
      exists r | r in records :: HeartbeatPending(cfg, r, now) && t == r.lastActive + cfg.staleAfter
  {
    hide HeartbeatPending;
    if records != [] {
      HeartbeatsAre(cfg, records[..|records| - 1], now, t);
      assert records == records[..|records| - 1] + [records[|records| - 1]];
    }
  }

  function TrackedIds(records: seq<Record>): set<string> {
    set r | r in records && Tracked(r) :: r.id
  }

  function DueRecords(cfg: Config, st: Watch, records: seq<Record>, trigger: Trigger, now: real): seq<Record> {
    if records == [] then []
    else
      var r := records[|records| - 1];
      DueRecords(cfg, st, records[..|records| - 1], trigger, now)
      + if Tracked(r) && WorkerDue(cfg, st, r, trigger, now) then [r] else []
  }

  /** How many of the due sessions have a process to look at. */
  function Probes(due: seq<Record>): nat {
    if due == [] then 0 else Probes(due[..|due| - 1]) + if due[|due| - 1].workerPid.Some? then 1 else 0
  }

  predicate DistinctIds(records: seq<Record>) {
    forall i, j | 0 <= i < j < |records| :: records[i].id != records[j].id
  }

  /** What is remembered of the last probe of a session's worker after a pass. */
  function ProbeAfter(cfg: Config, st: Watch, w: World, r: Record, trigger: Trigger, now: real): Option<(Probe, real)> {
    if WorkerDue(cfg, st, r, trigger, now) && r.workerPid.Some? then
      Some((Probe(r.workerPid.value, r.attempt, w.processState(r.id)), now))
    else if r.id in st.probed && r.id in st.probedAt then Some((st.probed[r.id], st.probedAt[r.id]))
    else None
  }

  // ---------- deferred input ----------

  predicate RescanDue(cfg: Config, scannedAt: Option<real>, trigger: Trigger, now: real) {
    || trigger.full || scannedAt.None? || trigger.inboxChanged.None?
    || (cfg.rescan.Some? && now - scannedAt.value >= cfg.rescan.value)
  }

  /** One inbox file, read again if it changed; `None` when it is gone. */
  function FileAfter(cached: Option<InboxFile>, w: World, id: string): Option<InboxFile> {
    match w.fingerprint(id)
    case None => cached
    case Some(f) =>
      if f == 0 then None
      else if cached.Some? && cached.value.fingerprint == f then cached
      else
        match w.receipts(id)
        case None => cached
        case Some(holds) => Some(InboxFile(f, holds))
  }

  /** What a pass does with one session that has an inbox file. */
  datatype Verdict = Idle | Wait(until: real) | Settle(record: Record) | Launched(started: Record) | Refused(outcome: Option<Record>)

  function Judge(st: Memory, w: World, active: seq<Record>, id: string, file: InboxFile, now: real): Verdict {
    if !file.holds || IsActive(active, id) then Idle
    else if id in st.retryAt && now < st.retryAt[id] then Wait(st.retryAt[id])
    else
      match w.find(id)
      case None => Idle
      case Some(record) =>
        if id in st.settled && st.settled[id] == (record, file.fingerprint) then Idle
        else if !w.pending(id) then Settle(record)
        else if !w.capacity(id) then Idle
        else if w.start(id).Some? && Sessions.Active(w.start(id).value.status) then Launched(w.start(id).value)
        else Refused(w.start(id))
  }

  predicate IsActive(active: seq<Record>, id: string) {
    exists r | r in active :: r.id == id
  }

  function Doubled(base: real, times: nat): real {
    if times == 0 then base else 2.0 * Doubled(base, times - 1)
  }

  const RETRY_CAP := 300.0

  /** `2 ** 1024` is no float: from this many failures on, the wait cannot be computed. */
  const OVERFLOW := 1025

  /** The wait after a number of failures in a row; `None` where computing it raises `OverflowError`. */
  function Delay(cfg: Config, failures: nat): Option<real>
    requires failures > 0
  {
    if failures >= OVERFLOW then None
    else
      var d := Doubled(cfg.poll, failures - 1);
      Some(if d < RETRY_CAP then d else RETRY_CAP)
  }

  function FailuresBefore(st: Memory, id: string): nat {
    if id in st.failures then st.failures[id] else 0
  }

  /** The failure that the verdict adds is one too many for its wait. */
  predicate Overflows(st: Memory, id: string, v: Verdict) {
    v.Refused? && FailuresBefore(st, id) + 1 >= OVERFLOW
  }

  /** What one verdict leaves for a session: a failure is counted before its wait is computed. */
  function RetryAfter(cfg: Config, st: Memory, id: string, v: Verdict, now: real): Option<real> {
    match v
    case Launched(_) => None
    case Refused(_) =>
      var d := Delay(cfg, FailuresBefore(st, id) + 1);
      if d.Some? then Some(now + d.value) else Lookup(st.retryAt, id)
    case _ => Lookup(st.retryAt, id)
  }

  function FailuresAfter(st: Memory, id: string, v: Verdict): Option<nat> {
    match v
    case Launched(_) => None
    case Refused(_) => Some(FailuresBefore(st, id) + 1)
    case _ => if id in st.failures then Some(st.failures[id]) else None
  }

  function SettledAfter(st: Memory, id: string, file: InboxFile, v: Verdict): Option<(Record, Fingerprint)> {
    match v
    case Settle(record) => Some((record, file.fingerprint))
    case _ => if id in st.settled then Some(st.settled[id]) else None
  }

  function VerdictDeadline(cfg: Config, st: Memory, id: string, v: Verdict, now: real): Option<real> {
    match v
    case Wait(until) => Some(until)
    case Refused(_) =>
      var d := Delay(cfg, FailuresBefore(st, id) + 1);
      if d.Some? then Some(now + d.value) else None
    case _ => None
  }

  function Lookup<T>(m: map<string, T>, id: string): Option<T> {
    if id in m then Some(m[id]) else None
  }

  // ---------- dispatch ----------

  function LeaseEnd(cfg: Config, r: Record): Option<real> {
    if Reserved(r) && r.claimedAt.Some? then Some(r.claimedAt.value + cfg.dispatchLease) else None
  }

  predicate LeasePending(cfg: Config, r: Record, now: real) {
    LeaseEnd(cfg, r).Some? && LeaseEnd(cfg, r).value > now
  }

  predicate Lapsed(cfg: Config, r: Record, now: real) {
    LeaseEnd(cfg, r).Some? && LeaseEnd(cfg, r).value <= now
  }

  /** The lease ends that lie ahead, in the order of the sessions. */
  function Leases(cfg: Config, records: seq<Record>, now: real): seq<real> {
    if records == [] then []
    else
      var r := records[|records| - 1];
      Leases(cfg, records[..|records| - 1], now) + if LeasePending(cfg, r, now) then [LeaseEnd(cfg, r).value] else []
  }

  lemma {:induction false} LeasesAre(cfg: Config, records: seq<Record>, now: real, t: real)
    ensures t in Leases(cfg, records, now) <==>
      exists r | r in records :: LeasePending(cfg, r, now) && t == LeaseEnd(cfg, r).value
  {
    hide LeaseEnd;
    if records != [] {
      LeasesAre(cfg, records[..|records| - 1], now, t);
      assert records == records[..|records| - 1] + [records[|records| - 1]];
    }
  }

  predicate DispatchDue(cfg: Config, active: seq<Record>, trigger: Trigger, now: real, anyChanged: bool) {
    || trigger.full
    || (exists r | r in active :: Lapsed(cfg, r, now))
    || ((exists r | r in active :: Queued(r)) && (trigger.registryChanged || anyChanged))
  }

  // ---------- the next deadline ----------

  /** The snapshot that the input and dispatch steps of a pass work on. */
  function Snapshot(cfg: Config, st: Watch, w: World, trigger: Trigger, now: real): seq<Record> {
    if w.recovered(DueRecords(cfg, st, w.first, trigger, now)) == map[] then w.first else w.second
  }

  /** A candidate whose retry time lies ahead: its inbox holds deferred input and no attempt is live. */
  predicate RetryPending(post: Memory, active: seq<Record>, id: string, now: real) {
    && id in post.files && post.files[id].holds && !IsActive(active, id)
    && id in post.retryAt && now < post.retryAt[id]
  }

  /** Everything that is still to come after a pass, by kind. */
  ghost predicate Pending(cfg: Config, w: World, scannedAt: Option<real>, post: Memory, active: seq<Record>, now: real, t: real) {
    || (exists r | r in w.first :: HeartbeatPending(cfg, r, now) && t == r.lastActive + cfg.staleAfter)
    || (cfg.rescan.Some? && scannedAt.Some? && t == scannedAt.value + cfg.rescan.value)
    || (exists id | id in post.files :: RetryPending(post, active, id, now) && t == post.retryAt[id])
    || (exists r | r in active :: LeasePending(cfg, r, now) && t == LeaseEnd(cfg, r).value)
  }

  /** `due` is the earliest of them, or absent when there are none. */
  ghost predicate IsNext(cfg: Config, w: World, scannedAt: Option<real>, post: Memory, active: seq<Record>, now: real,
    due: Option<real>)
  {
    match due
    case None => forall t :: !Pending(cfg, w, scannedAt, post, active, now, t)
    case Some(d) =>
      && Pending(cfg, w, scannedAt, post, active, now, d)
      && forall t :: Pending(cfg, w, scannedAt, post, active, now, t) ==> d <= t
  }

  method Minimum(times: seq<real>) returns (m: Option<real>)
    ensures m.None? <==> times == []
    ensures m.Some? ==> m.value in times && forall t | t in times :: m.value <= t
  {
    if times == [] { return None; }
    var least := times[0];
    for i := 1 to |times|
      invariant least in times && forall k | 0 <= k < i :: least <= times[k]
    {
      if times[i] < least { least := times[i]; }
    }
    return Some(least);
  }

  // ---------- the state after a pass, session by session ----------

  function FileOf(cfg: Config, files: map<string, InboxFile>, scannedAt: Option<real>, w: World, trigger: Trigger, now: real,
    id: string): Option<InboxFile>
  {
    if RescanDue(cfg, scannedAt, trigger, now) then
      if id in w.present then FileAfter(Lookup(files, id), w, id) else None
    else if id in trigger.inboxChanged.value then FileAfter(Lookup(files, id), w, id)
    else Lookup(files, id)
  }

  ghost predicate InboxRefreshed(cfg: Config, files: map<string, InboxFile>, scannedAt: Option<real>,
    files': map<string, InboxFile>, scannedAt': Option<real>, w: World, trigger: Trigger, now: real)
  {
    && (forall id :: Lookup(files', id) == FileOf(cfg, files, scannedAt, w, trigger, now, id))
    && scannedAt' == if RescanDue(cfg, scannedAt, trigger, now) then Some(now) else scannedAt
  }

  /** The verdict on a session, once the inbox is refreshed. */
  function VerdictOn(st: Memory, w: World, active: seq<Record>, now: real, id: string): Verdict {
    if id in st.files then Judge(st, w, active, id, st.files[id], now) else Idle
  }

  /** The verdict on a session, where those in `left` were not reached. */
  function VerdictIn(st: Memory, w: World, active: seq<Record>, now: real, left: set<string>, id: string): Verdict {
    if id in left then Idle else VerdictOn(st, w, active, now, id)
  }

  /** The deferred input of this session is tried in this pass. */
  predicate Attempted(st: Memory, w: World, active: seq<Record>, now: real, left: set<string>, id: string) {
    var v := VerdictIn(st, w, active, now, left, id);
    v.Launched? || v.Refused?
  }

  ghost predicate InputRecovered(cfg: Config, st: Memory, post: Memory, w: World, active: seq<Record>, now: real, left: set<string>) {
    && post.files == st.files
    && (forall id :: Lookup(post.retryAt, id) == RetryAfter(cfg, st, id, VerdictIn(st, w, active, now, left, id), now))
    && (forall id :: Lookup(post.failures, id) == FailuresAfter(st, id, VerdictIn(st, w, active, now, left, id)))
    && (forall id | id in st.files ::
          Lookup(post.settled, id) == SettledAfter(st, id, st.files[id], VerdictIn(st, w, active, now, left, id)))
  }

  /** Where the loop ended: at the end, or at a session whose failures overflow, with `left` not reached. */
  ghost predicate StoppedAt(st: Memory, w: World, active: seq<Record>, now: real, left: set<string>, raised: Option<string>) {
    && left <= st.files.Keys && (raised.None? ==> left == {})
    && (raised.Some? ==> raised.value in st.files && raised.value !in left)
    && forall id | id in st.files && id !in left :: Overflows(st, id, VerdictOn(st, w, active, now, id)) <==> raised == Some(id)
  }

  ghost predicate WorkersProbed(cfg: Config, st: Watch, post: Watch, w: World, trigger: Trigger, now: real) {
    && (forall r | r in w.first && Tracked(r) :: Remembered(post, r.id) == ProbeAfter(cfg, st, w, r, trigger, now))
    && post.probed.Keys <= TrackedIds(w.first) && post.probed.Keys == post.probedAt.Keys
  }

  function Remembered(st: Watch, id: string): Option<(Probe, real)> {
    if id in st.probed && id in st.probedAt then Some((st.probed[id], st.probedAt[id])) else None
  }

  /** What a pass asked of the supervisor, and how far it came through the inbox files. */
  datatype Calls = Calls(due: seq<Record>, started: set<string>, left: set<string>, raised: Option<string>, dispatched: bool)

  /** `MaintenanceOutcome`; the order of the changed sessions is not modelled. */
  datatype Outcome = Outcome(changed: map<string, Record>, probes: nat, nextDue: Option<real>, workers: map<string, nat>)

  datatype Error = OverflowError

  /** Everything a scheduler remembers. */
  datatype State = State(watch: Watch, scannedAt: Option<real>, input: Memory)

  const FRESH := State(Watch(map[], map[]), None, Memory(map[], map[], map[], map[]))

  /** The records that worker recovery and the started inputs changed. */
  function ChangedBefore(recovered: map<string, Record>, w: World, started: set<string>): map<string, Record> {
    recovered + map id | id in started && w.start(id).Some? :: w.start(id).value
  }

  /** The probed workers that the caller may watch: their process may still exit, and their session is still active. */
  function Watchable(watch: Watch, changed: map<string, Record>): map<string, nat> {
    map id | id in watch.probed && watch.probed[id].state in {Live, Unknown}
      && (id in changed ==> Sessions.Active(changed[id].status)) :: watch.probed[id].pid
  }

  /** One pass from one state to the next: what is probed, read, recovered, started, dispatched and reported. */
  ghost predicate Pass(cfg: Config, s: State, trigger: Trigger, w: World, now: real, s': State,
    result: Result<Outcome, Error>, calls: Calls)
  {
    var active := Snapshot(cfg, s.watch, w, trigger, now);
    var st := s.input.(files := s'.input.files);
    var before := ChangedBefore(w.recovered(calls.due), w, calls.started);
    && WorkersProbed(cfg, s.watch, s'.watch, w, trigger, now)
    && calls.due == DueRecords(cfg, s.watch, w.first, trigger, now)
    && InboxRefreshed(cfg, s.input.files, s.scannedAt, s'.input.files, s'.scannedAt, w, trigger, now)
    && InputRecovered(cfg, st, s'.input, w, active, now, calls.left)
    && StoppedAt(st, w, active, now, calls.left, calls.raised)
    && (forall id :: id in calls.started <==> Attempted(st, w, active, now, calls.left, id))
    && (calls.dispatched <==> calls.raised.None? && DispatchDue(cfg, active, trigger, now, before != map[]))
    && (calls.raised.Some? <==> result.Failure?)
    && (result.Success? ==>
          && result.value.changed == before + (if calls.dispatched then w.dispatched else map[])
          && result.value.probes == Probes(calls.due)
          && result.value.workers == Watchable(s'.watch, result.value.changed)
          && IsNext(cfg, w, s'.scannedAt, s'.input, active, now, result.value.nextDue))
  }

  // ---------- the class ----------

  class Scheduler {
    var probed: map<string, Probe>
    var probedAt: map<string, real>
    var files: map<string, InboxFile>
    var scannedAt: Option<real>
    var settled: map<string, (Record, Fingerprint)>
    var retryAt: map<string, real>
    var failures: map<string, nat>
    const cfg: Config

    ghost function Remembers(): State
      reads this`probed, this`probedAt, this`scannedAt, this`files, this`settled, this`retryAt, this`failures
    {
      State(Watched(), scannedAt, Input())
    }

    ghost function Watched(): Watch reads this`probed, this`probedAt { Watch(probed, probedAt) }

    ghost function Input(): Memory reads this`files, this`settled, this`retryAt, this`failures {
      Memory(files, settled, retryAt, failures)
    }

    constructor (cfg: Config)
      ensures this.cfg == cfg && Remembers() == FRESH
    {
      this.cfg := cfg;
      probed, probedAt, files, scannedAt, settled, retryAt, failures := map[], map[], map[], None, map[], map[], map[];
    }

    /** `_reconcile_workers` up to the call that recovers the due sessions. */
    method ReconcileWorkers(w: World, trigger: Trigger, now: real) returns (due: seq<Record>, probes: nat, deadlines: seq<real>)
      requires DistinctIds(w.first) && probed.Keys == probedAt.Keys
      modifies this`probed, this`probedAt
      ensures WorkersProbed(cfg, old(Watched()), Watched(), w, trigger, now)
      ensures due == DueRecords(cfg, old(Watched()), w.first, trigger, now) && probes == Probes(due)
      ensures deadlines == Heartbeats(cfg, w.first, now)
    {
      hide Tracked, WorkerDue, HeartbeatPending, ProbeAfter, Remembered, ProbedSoFar, DistinctIds, TrackedIds, WorkersProbed;
      hide DueRecords, Heartbeats, Probes;
      ghost var st := Watched();
      Forget(w);
      ProbedNone(cfg, st, Watched(), w, trigger, now);
      due, probes, deadlines := [], 0, [];
      NothingYet(cfg, st, w.first, trigger, now);
      for i := 0 to |w.first|
        invariant due == DueRecords(cfg, st, w.first[..i], trigger, now) && probes == Probes(due)
        invariant probed.Keys == probedAt.Keys && probed.Keys <= TrackedIds(w.first)
        invariant ProbedSoFar(cfg, st, Watched(), w, trigger, now, i)
        invariant deadlines == Heartbeats(cfg, w.first[..i], now)
      {
        var r := w.first[i];
        ghost var before := Watched();
        OneMore(cfg, st, w.first, trigger, now, i, due);
        if Tracked(r) {
          ProbedSoFarAt(cfg, st, before, w, trigger, now, i);
          var isDue := ReconcileOne(r, w, trigger, now, st);
          if isDue {
            if r.workerPid.Some? { probes := probes + 1; }
            due := due + [r];
          }
        }
        ProbedSoFarNext(cfg, st, before, Watched(), w, trigger, now, i);
        if HeartbeatPending(cfg, r, now) { deadlines := deadlines + [r.lastActive + cfg.staleAfter]; }
      }
      assert w.first[..|w.first|] == w.first;
      ProbedAll(cfg, st, Watched(), w, trigger, now);
    }

    /** One tracked session: probe its worker if it is due. */
    method ReconcileOne(r: Record, w: World, trigger: Trigger, now: real, ghost st: Watch) returns (isDue: bool)
      requires Tracked(r) && r in w.first && Remembered(Watched(), r.id) == Remembered(st, r.id)
      requires probed.Keys == probedAt.Keys && st.probed.Keys == st.probedAt.Keys && probed.Keys <= TrackedIds(w.first)
      modifies this`probed, this`probedAt
      ensures isDue == WorkerDue(cfg, st, r, trigger, now)
      ensures probed.Keys == probedAt.Keys && probed.Keys <= TrackedIds(w.first)
      ensures Remembered(Watched(), r.id) == ProbeAfter(cfg, st, w, r, trigger, now)
      ensures forall id | id != r.id :: Remembered(Watched(), id) == Remembered(old(Watched()), id)
    {
      isDue := DueNow(st, r, trigger, now);
      hide WorkerDue, Tracked;
      if isDue && r.workerPid.Some? {
        probed := probed[r.id := Probe(r.workerPid.value, r.attempt, w.processState(r.id))];
        probedAt := probedAt[r.id := now];
      }
    }

    /** The condition of the loop, on what is remembered of this session. */
    method DueNow(ghost st: Watch, r: Record, trigger: Trigger, now: real) returns (isDue: bool)
      requires Remembered(Watched(), r.id) == Remembered(st, r.id)
      requires probed.Keys == probedAt.Keys && st.probed.Keys == st.probedAt.Keys
      ensures isDue == WorkerDue(cfg, st, r, trigger, now)
    {
      var expired := HasHeartbeat(r) && now > r.lastActive + cfg.staleAfter;
      var unseen := r.workerPid.Some? &&
        (r.id !in probed || probed[r.id].pid != r.workerPid.value || probed[r.id].attempt != r.attempt);
      var polled := r.workerPid.Some? && r.id !in trigger.exitWatched
        && (r.id !in probedAt || now - probedAt[r.id] >= cfg.poll);
      isDue := trigger.full || r.id in trigger.exited || unseen || polled
        || (expired && !r.heartbeatStale) || (r.heartbeatStale && !expired);
    }

    /** Forget the probes of sessions that are no longer tracked. */
    method Forget(w: World)
      requires probed.Keys == probedAt.Keys
      modifies this`probed, this`probedAt
      ensures probed.Keys == probedAt.Keys && probed.Keys <= TrackedIds(w.first)
      ensures forall r | r in w.first && Tracked(r) :: Remembered(Watched(), r.id) == Remembered(old(Watched()), r.id)
    {
      var tracked := TrackedIds(w.first);
      hide Tracked;
      probed := map id | id in probed && id in tracked :: probed[id];
      probedAt := map id | id in probedAt && id in tracked :: probedAt[id];
    }

    /** `_refresh_inbox` */
    method RefreshInbox(w: World, trigger: Trigger, now: real)
      modifies this`files, this`scannedAt
      ensures InboxRefreshed(cfg, old(files), old(scannedAt), files, scannedAt, w, trigger, now)
    {
      hide FileAfter;
      if trigger.full || scannedAt.None? || trigger.inboxChanged.None?
         || (cfg.rescan.Some? && now - scannedAt.value >= cfg.rescan.value)
      {
        files := map id | id in files && id in w.present :: files[id];
        scannedAt := Some(now);
        RefreshFiles(w, w.present);
      } else {
        RefreshFiles(w, trigger.inboxChanged.value);
      }
    }

    method RefreshFiles(w: World, check: set<string>)
      modifies this`files
      ensures forall id :: Lookup(files, id) == FileSoFar(old(files), w, check, {}, id)
    {
      hide FileAfter, Lookup;
      var todo := check;
      while todo != {}
        invariant todo <= check
        invariant forall id :: Lookup(files, id) == FileSoFar(old(files), w, check, todo, id)
      {
        var id :| id in todo;
        todo := todo - {id};
        RefreshFile(w, id);
      }
    }

    /** `_refresh_inbox_file` */
    method RefreshFile(w: World, id: string)
      modifies this`files
      ensures Lookup(files, id) == FileAfter(Lookup(old(files), id), w, id)
      ensures forall other | other != id :: Lookup(files, other) == Lookup(old(files), other)
    {
      var f := w.fingerprint(id);
      if f.None? { return; }
      if f.value == 0 {
        files := files - {id};
        return;
      }
      if id in files && files[id].fingerprint == f.value { return; }
      var holds := w.receipts(id);
      if holds.None? { return; }
      files := files[id := InboxFile(f.value, holds.value)];
    }

    /** `_recover_input` */
    method RecoverInput(w: World, trigger: Trigger, active: seq<Record>, now: real, changed: map<string, Record>)
      returns (started: set<string>, left: set<string>, raised: Option<string>, deadlines: seq<real>, after: map<string, Record>)
      modifies this`files, this`scannedAt, this`settled, this`retryAt, this`failures
      ensures after == ChangedBefore(changed, w, started)
      ensures InputSteps(cfg, old(Remembers()), trigger, w, now, Remembers(), active, started, left, raised)
      ensures raised.None? ==>
        InputDeadlines(cfg, old(Input()).(files := files), scannedAt, w, active, now, deadlines)
    {
      hide InboxRefreshed, InputRecovered, StoppedAt, Attempted, DeadlinesAre, ChangedBefore;
      RefreshInbox(w, trigger, now);
      ghost var st := Input();
      var retries;
      started, left, raised, retries, after := RecoverCandidates(w, active, now, changed);
      deadlines := Rescans(cfg, scannedAt) + retries;
      assert deadlines[|Rescans(cfg, scannedAt)|..] == retries;
    }

    /** The loop over the inbox files, in any order, up to one whose wait cannot be computed. */
    method RecoverCandidates(w: World, active: seq<Record>, now: real, changed: map<string, Record>)
      returns (started: set<string>, left: set<string>, raised: Option<string>, deadlines: seq<real>, after: map<string, Record>)
      modifies this`settled, this`retryAt, this`failures
      ensures after == ChangedBefore(changed, w, started)
      ensures InputRecovered(cfg, old(Input()), Input(), w, active, now, left)
      ensures StoppedAt(old(Input()), w, active, now, left, raised)
      ensures forall id :: id in started <==> Attempted(old(Input()), w, active, now, left, id)
      ensures raised.None? ==> DeadlinesAre(cfg, old(Input()), w, active, now, {}, deadlines)
    {
      ghost var st := Input();
      hide RetryAfter, FailuresAfter, SettledAfter, VerdictDeadline, VerdictOn, ChangedBy, DeadlinesAre, RecoveredSoFar, Lookup;
      hide InputRecovered, Attempted, ChangedBefore, Overflows, StoppedAt;
      started, raised, deadlines, after := {}, None, [], changed;
      NothingStarted(changed, w);
      left := files.Keys;
      RecoveredNone(cfg, st, w, active, now);
      NoDeadlinesYet(cfg, st, w, active, now);
      while left != {} && raised.None?
        invariant RecoveredSoFar(cfg, st, Input(), w, active, now, left, started, raised)
        invariant raised.None? ==> DeadlinesAre(cfg, st, w, active, now, left, deadlines)
        invariant after == ChangedBefore(changed, w, started)
        decreases left
      {
        var id :| id in left;
        ghost var before, was := Input(), started;
        RecoveredAt(cfg, st, before, w, active, now, left, started, raised, id);
        var v, deadline := Turn(w, active, id, now, st);
        ChangedGrows(changed, after, w, started, id, v);
        after := ChangedBy(after, id, v);
        if v.Launched? || v.Refused? { started := started + {id}; }
        TurnOverflows(st, Input(), id, v);
        if v.Refused? && failures[id] >= OVERFLOW { raised := Some(id); }
        RecoveredNext(cfg, st, before, Input(), w, active, now, left, was, id, started, raised);
        MoreDeadlines(cfg, st, w, active, now, left, id, deadlines);
        deadlines := Appended(deadlines, deadline);
        left := left - {id};
      }
      RecoveredAll(cfg, st, Input(), w, active, now, left, started, raised);
    }

    /** One turn of the loop: decide, then note what was decided. */
    method Turn(w: World, active: seq<Record>, id: string, now: real, ghost st: Memory)
      returns (v: Verdict, deadline: Option<real>)
      requires id in files && files == st.files && Lookup(settled, id) == Lookup(st.settled, id)
      requires Lookup(retryAt, id) == Lookup(st.retryAt, id) && Lookup(failures, id) == Lookup(st.failures, id)
      modifies this`settled, this`retryAt, this`failures
      ensures v == VerdictOn(st, w, active, now, id) && deadline == VerdictDeadline(cfg, st, id, v, now)
      ensures (v.Launched? ==> w.start(id) == Some(v.started)) && (v.Refused? ==> v.outcome == w.start(id))
      ensures Lookup(settled, id) == SettledAfter(st, id, files[id], v)
      ensures Lookup(retryAt, id) == RetryAfter(cfg, st, id, v, now)
      ensures Lookup(failures, id) == FailuresAfter(st, id, v)
      ensures forall other | other != id :: Lookup(settled, other) == Lookup(old(settled), other)
      ensures forall other | other != id :: Lookup(retryAt, other) == Lookup(old(retryAt), other)
      ensures forall other | other != id :: Lookup(failures, other) == Lookup(old(failures), other)
    {
      hide Judge, RetryAfter, FailuresAfter, SettledAfter, VerdictDeadline, Lookup;
      v := Consider(w, active, id, now);
      JudgeSame(Input(), st, w, active, id, files[id], now);
      JudgeStarts(st, w, active, id, files[id], now);
      deadline := Settled(id, v, now, st);
    }

    /** The decisions of one turn of the loop. */
    method Consider(w: World, active: seq<Record>, id: string, now: real) returns (v: Verdict)
      requires id in files
      ensures v == Judge(Input(), w, active, id, files[id], now)
    {
      if !files[id].holds || IsActive(active, id) { return Idle; }
      if id in retryAt && now < retryAt[id] { return Wait(retryAt[id]); }
      var current := w.find(id);
      if current.None? { return Idle; }
      if id in settled && settled[id] == (current.value, files[id].fingerprint) { return Idle; }
      if !w.pending(id) { return Settle(current.value); }
      if !w.capacity(id) { return Idle; }
      var started := w.start(id);
      if started.Some? && Sessions.Active(started.value.status) { return Launched(started.value); }
      return Refused(started);
    }

    /** The bookkeeping of one turn of the loop. */
    method Settled(id: string, v: Verdict, now: real, ghost st: Memory) returns (deadline: Option<real>)
      requires id in files
      requires Lookup(settled, id) == Lookup(st.settled, id)
      requires Lookup(retryAt, id) == Lookup(st.retryAt, id) && Lookup(failures, id) == Lookup(st.failures, id)
      modifies this`settled, this`retryAt, this`failures
      ensures deadline == VerdictDeadline(cfg, st, id, v, now)
      ensures Lookup(settled, id) == SettledAfter(st, id, files[id], v)
      ensures Lookup(retryAt, id) == RetryAfter(cfg, st, id, v, now)
      ensures Lookup(failures, id) == FailuresAfter(st, id, v)
      ensures forall other | other != id :: Lookup(settled, other) == Lookup(old(settled), other)
      ensures forall other | other != id :: Lookup(retryAt, other) == Lookup(old(retryAt), other)
      ensures forall other | other != id :: Lookup(failures, other) == Lookup(old(failures), other)
    {
      hide Delay;
      match v
      case Idle => return None;
      case Wait(until) => return Some(until);
      case Settle(record) =>
        settled := settled[id := (record, files[id].fingerprint)];
        return None;
      case Launched(_) =>
        failures := failures - {id};
        retryAt := retryAt - {id};
        return None;
      case Refused(_) =>
        var count := (if id in failures then failures[id] else 0) + 1;
        assert count == FailuresBefore(st, id) + 1;
        failures := failures[id := count];
        var delay := Delay(cfg, count);
        if delay.None? { return None; }
        retryAt := retryAt[id := now + delay.value];
        return Some(now + delay.value);
    }

    /** `_dispatch` up to the call that dispatches. */
    method Dispatch(active: seq<Record>, trigger: Trigger, now: real, anyChanged: bool)
      returns (dispatch: bool, deadlines: seq<real>)
      ensures dispatch == DispatchDue(cfg, active, trigger, now, anyChanged)
      ensures deadlines == Leases(cfg, active, now)
    {
      hide LeaseEnd, Queued;
      deadlines := [];
      var lapsed, queued := false, false;
      for i := 0 to |active|
        invariant lapsed == exists k | 0 <= k < i :: Lapsed(cfg, active[k], now)
        invariant queued == exists k | 0 <= k < i :: Queued(active[k])
        invariant deadlines == Leases(cfg, active[..i], now)
      {
        assert active[..i + 1][..i] == active[..i];
        if LeasePending(cfg, active[i], now) { deadlines := deadlines + [LeaseEnd(cfg, active[i]).value]; }
        if Lapsed(cfg, active[i], now) { lapsed := true; }
        if Queued(active[i]) { queued := true; }
      }
      assert active[..|active|] == active;
      dispatch := trigger.full || lapsed || (queued && (trigger.registryChanged || anyChanged));
    }

    /** `run`: on an overflow the pass is given up after the worker and input steps, with what these have stored. */
    method Run(trigger: Trigger, w: World, now: real) returns (result: Result<Outcome, Error>, calls: Calls)
      requires DistinctIds(w.first) && probed.Keys == probedAt.Keys && cfg.poll > 0.0
      modifies this
      ensures Pass(cfg, old(Remembers()), trigger, w, now, Remembers(), result, calls)
    {
      hide WorkersProbed, InboxRefreshed, InputRecovered, DueRecords, Attempted, DeadlinesAre, Heartbeats, Leases, DispatchDue, Pending;
      hide Watchable, StoppedAt, Probes, DistinctIds, ChangedBefore, IsNext, RescanDue, Pass, InputDeadlines;
      ghost var s := Remembers();
      var active := w.first;
      var due, probes, heartbeats := ReconcileWorkers(w, trigger, now);
      var changed := w.recovered(due);
      if changed != map[] { active := w.second; }
      var started, left, raised, retries, after := RecoverInput(w, trigger, active, now, changed);
      if raised.Some? {
        result, calls := Failure(OverflowError), Calls(due, started, left, raised, false);
        RaisedPass(cfg, s, trigger, w, now, Remembers(), result, calls, active);
        return;
      }
      var dispatch, leases := Dispatch(active, trigger, now, after != map[]);
      calls := Calls(due, started, left, raised, dispatch);
      var all := heartbeats + retries + leases;
      var nextDue := Minimum(all);
      ghost var st := s.input.(files := files);
      DeadlinesComplete(cfg, st, w, scannedAt, Input(), active, now, left, retries, all);
      MinimumIsNext(cfg, w, scannedAt, Input(), active, now, all, nextDue);
      changed := after + if dispatch then w.dispatched else map[];
      result := Success(Outcome(changed, probes, nextDue, Workers(changed)));
      DonePass(cfg, s, trigger, w, now, Remembers(), result, calls, active);
    }

    /** The comprehension at the end of `run`. */
    function Workers(changed: map<string, Record>): map<string, nat>
      reads this`probed, this`probedAt
    {
      Watchable(Watch(probed, probedAt), changed)
    }
  }

  function Rescans(cfg: Config, scannedAt: Option<real>): seq<real> {
    if cfg.rescan.Some? && scannedAt.Some? then [scannedAt.value + cfg.rescan.value] else []
  }

  /** The deadlines of the input step: the rescan's, then those of the candidates. */
  ghost predicate InputDeadlines(cfg: Config, st: Memory, scannedAt: Option<real>, w: World, active: seq<Record>, now: real,
    deadlines: seq<real>)
  {
    var rescans := Rescans(cfg, scannedAt);
    rescans <= deadlines && DeadlinesAre(cfg, st, w, active, now, {}, deadlines[|rescans|..])
  }

  ghost predicate InputSteps(cfg: Config, s: State, trigger: Trigger, w: World, now: real, s': State, active: seq<Record>,
    started: set<string>, left: set<string>, raised: Option<string>)
  {
    var st := s.input.(files := s'.input.files);
    && InboxRefreshed(cfg, s.input.files, s.scannedAt, s'.input.files, s'.scannedAt, w, trigger, now)
    && InputRecovered(cfg, st, s'.input, w, active, now, left)
    && StoppedAt(st, w, active, now, left, raised)
    && forall id :: id in started <==> Attempted(st, w, active, now, left, id)
  }

  /** What the steps of every pass have done before it ends one way or the other. */
  ghost predicate Steps(cfg: Config, s: State, trigger: Trigger, w: World, now: real, s': State, calls: Calls, active: seq<Record>) {
    && active == (if w.recovered(calls.due) == map[] then w.first else w.second)
    && WorkersProbed(cfg, s.watch, s'.watch, w, trigger, now)
    && calls.due == DueRecords(cfg, s.watch, w.first, trigger, now)
    && InputSteps(cfg, s, trigger, w, now, s', active, calls.started, calls.left, calls.raised)
  }

  lemma RaisedPass(cfg: Config, s: State, trigger: Trigger, w: World, now: real, s': State, result: Result<Outcome, Error>,
    calls: Calls, active: seq<Record>)
    requires Steps(cfg, s, trigger, w, now, s', calls, active)
    requires calls.raised.Some? && result.Failure? && !calls.dispatched
    ensures Pass(cfg, s, trigger, w, now, s', result, calls)
  {
    hide WorkersProbed, DueRecords, InboxRefreshed, InputRecovered, StoppedAt, Attempted, DispatchDue, ChangedBefore, Watchable, IsNext, Probes;
  }

  lemma DonePass(cfg: Config, s: State, trigger: Trigger, w: World, now: real, s': State, result: Result<Outcome, Error>,
    calls: Calls, active: seq<Record>)
    requires Steps(cfg, s, trigger, w, now, s', calls, active) && calls.raised.None? && result.Success?
    requires var before := ChangedBefore(w.recovered(calls.due), w, calls.started);
      && calls.dispatched == DispatchDue(cfg, active, trigger, now, before != map[])
      && result.value.changed == before + if calls.dispatched then w.dispatched else map[]
    requires result.value.probes == Probes(calls.due) && result.value.workers == Watchable(s'.watch, result.value.changed)
    requires IsNext(cfg, w, s'.scannedAt, s'.input, active, now, result.value.nextDue)
    ensures Pass(cfg, s, trigger, w, now, s', result, calls)
  {
    hide WorkersProbed, DueRecords, InboxRefreshed, InputRecovered, StoppedAt, Attempted, DispatchDue, ChangedBefore, Watchable, IsNext, Probes;
  }

  function Appended(deadlines: seq<real>, deadline: Option<real>): seq<real> {
    if deadline.Some? then deadlines + [deadline.value] else deadlines
  }

  // What holds while the loops are under way.

  ghost predicate ProbedSoFar(cfg: Config, st: Watch, cur: Watch, w: World, trigger: Trigger, now: real, i: nat)
    requires i <= |w.first|
  {
    && (forall k | 0 <= k < i && Tracked(w.first[k]) ::
          Remembered(cur, w.first[k].id) == ProbeAfter(cfg, st, w, w.first[k], trigger, now))
    && (forall k | i <= k < |w.first| && Tracked(w.first[k]) :: Remembered(cur, w.first[k].id) == Remembered(st, w.first[k].id))
  }

  lemma NothingYet(cfg: Config, st: Watch, records: seq<Record>, trigger: Trigger, now: real)
    ensures records[..0] == [] && DueRecords(cfg, st, [], trigger, now) == [] && Probes([]) == 0 && Heartbeats(cfg, [], now) == []
  {
  }

  /** What the next session adds. */
  lemma OneMore(cfg: Config, st: Watch, records: seq<Record>, trigger: Trigger, now: real, i: nat, due: seq<Record>)
    requires i < |records|
    ensures var r := records[i];
      && DueRecords(cfg, st, records[..i + 1], trigger, now) == DueRecords(cfg, st, records[..i], trigger, now)
           + (if Tracked(r) && WorkerDue(cfg, st, r, trigger, now) then [r] else [])
      && Probes(due + [r]) == Probes(due) + (if r.workerPid.Some? then 1 else 0)
      && Heartbeats(cfg, records[..i + 1], now) == Heartbeats(cfg, records[..i], now)
           + (if HeartbeatPending(cfg, r, now) then [r.lastActive + cfg.staleAfter] else [])
      && due + [] == due && Heartbeats(cfg, records[..i], now) + [] == Heartbeats(cfg, records[..i], now)
  {
    hide WorkerDue, HeartbeatPending, Tracked;
    assert records[..i + 1][..i] == records[..i];
    assert (due + [records[i]])[..|due|] == due;
  }

  lemma ProbedNone(cfg: Config, st: Watch, cur: Watch, w: World, trigger: Trigger, now: real)
    requires forall r | r in w.first && Tracked(r) :: Remembered(cur, r.id) == Remembered(st, r.id)
    ensures ProbedSoFar(cfg, st, cur, w, trigger, now, 0)
  {
    hide Remembered, Tracked;
  }

  lemma ProbedSoFarAt(cfg: Config, st: Watch, cur: Watch, w: World, trigger: Trigger, now: real, i: nat)
    requires i < |w.first| && ProbedSoFar(cfg, st, cur, w, trigger, now, i) && Tracked(w.first[i])
    ensures Remembered(cur, w.first[i].id) == Remembered(st, w.first[i].id)
  {
    hide Remembered, Tracked, ProbeAfter;
  }

  lemma ProbedSoFarNext(cfg: Config, st: Watch, before: Watch, after: Watch, w: World, trigger: Trigger, now: real, i: nat)
    requires i < |w.first| && DistinctIds(w.first) && ProbedSoFar(cfg, st, before, w, trigger, now, i)
    requires forall id | id != w.first[i].id :: Remembered(after, id) == Remembered(before, id)
    requires Tracked(w.first[i]) ==> Remembered(after, w.first[i].id) == ProbeAfter(cfg, st, w, w.first[i], trigger, now)
    ensures ProbedSoFar(cfg, st, after, w, trigger, now, i + 1)
  {
    hide Remembered, Tracked, ProbeAfter;
  }

  lemma ProbedAll(cfg: Config, st: Watch, cur: Watch, w: World, trigger: Trigger, now: real)
    requires ProbedSoFar(cfg, st, cur, w, trigger, now, |w.first|)
    requires cur.probed.Keys <= TrackedIds(w.first) && cur.probed.Keys == cur.probedAt.Keys
    ensures WorkersProbed(cfg, st, cur, w, trigger, now)
  {
    hide Remembered, Tracked, ProbeAfter, TrackedIds;
  }

  ghost predicate RecoveredSoFar(cfg: Config, st: Memory, cur: Memory, w: World, active: seq<Record>, now: real,
    todo: set<string>, started: set<string>, raised: Option<string>)
  {
    && todo <= st.files.Keys && InputRecovered(cfg, st, cur, w, active, now, todo)
    && (forall id :: id in started <==> Attempted(st, w, active, now, todo, id))
    && (raised.Some? ==> raised.value in st.files && raised.value !in todo)
    && forall id | id in st.files && id !in todo :: Overflows(st, id, VerdictOn(st, w, active, now, id)) <==> raised == Some(id)
  }

  lemma RecoveredNone(cfg: Config, st: Memory, w: World, active: seq<Record>, now: real)
    ensures RecoveredSoFar(cfg, st, st, w, active, now, st.files.Keys, {}, None)
  {
    IdleKeeps(cfg, st, w, active, now);
    hide RetryAfter, FailuresAfter, SettledAfter, VerdictOn, Overflows, Lookup;
  }

  /** The loop raises for the session that it has just counted the last possible failure of. */
  lemma TurnOverflows(st: Memory, after: Memory, id: string, v: Verdict)
    requires Lookup(after.failures, id) == FailuresAfter(st, id, v)
    ensures v.Refused? ==> id in after.failures
    ensures Overflows(st, id, v) <==> v.Refused? && id in after.failures && after.failures[id] >= OVERFLOW
  {
  }

  lemma RecoveredNext(cfg: Config, st: Memory, before: Memory, after: Memory, w: World, active: seq<Record>, now: real,
    todo: set<string>, started: set<string>, id: string, started': set<string>, raised': Option<string>)
    requires RecoveredSoFar(cfg, st, before, w, active, now, todo, started, None) && id in todo && after.files == st.files
    requires var v := VerdictOn(st, w, active, now, id);
      && Lookup(after.settled, id) == SettledAfter(st, id, st.files[id], v)
      && Lookup(after.retryAt, id) == RetryAfter(cfg, st, id, v, now)
      && Lookup(after.failures, id) == FailuresAfter(st, id, v)
      && started' == (started + if v.Launched? || v.Refused? then {id} else {})
      && raised' == (if Overflows(st, id, v) then Some(id) else None)
    requires forall other | other != id :: Lookup(after.settled, other) == Lookup(before.settled, other)
    requires forall other | other != id :: Lookup(after.retryAt, other) == Lookup(before.retryAt, other)
    requires forall other | other != id :: Lookup(after.failures, other) == Lookup(before.failures, other)
    ensures RecoveredSoFar(cfg, st, after, w, active, now, todo - {id}, started', raised')
  {
    hide RetryAfter, FailuresAfter, SettledAfter, VerdictOn, Lookup, Overflows;
  }

  lemma RecoveredAt(cfg: Config, st: Memory, cur: Memory, w: World, active: seq<Record>, now: real, todo: set<string>,
    started: set<string>, raised: Option<string>, id: string)
    requires RecoveredSoFar(cfg, st, cur, w, active, now, todo, started, raised) && id in todo
    ensures id in cur.files && cur.files == st.files && Lookup(cur.settled, id) == Lookup(st.settled, id)
    ensures Lookup(cur.retryAt, id) == Lookup(st.retryAt, id) && Lookup(cur.failures, id) == Lookup(st.failures, id)
  {
    IdleKeeps(cfg, st, w, active, now);
    hide RetryAfter, FailuresAfter, SettledAfter, VerdictOn, Lookup, Attempted, Overflows;
  }

  lemma RecoveredAll(cfg: Config, st: Memory, cur: Memory, w: World, active: seq<Record>, now: real, left: set<string>,
    started: set<string>, raised: Option<string>)
    requires RecoveredSoFar(cfg, st, cur, w, active, now, left, started, raised) && (left == {} || raised.Some?)
    ensures InputRecovered(cfg, st, cur, w, active, now, left) && StoppedAt(st, w, active, now, left, raised)
    ensures forall id :: id in started <==> Attempted(st, w, active, now, left, id)
  {
    hide InputRecovered, VerdictOn, Lookup, Attempted, Overflows;
  }

  function FileSoFar(kept: map<string, InboxFile>, w: World, check: set<string>, todo: set<string>, id: string): Option<InboxFile> {
    if id in check && id !in todo then FileAfter(Lookup(kept, id), w, id) else Lookup(kept, id)
  }

  function DeadlineOf(cfg: Config, st: Memory, w: World, active: seq<Record>, now: real, id: string): Option<real> {
    VerdictDeadline(cfg, st, id, VerdictOn(st, w, active, now, id), now)
  }

  /** The registry records that the pass reports as changed. */
  function ChangedBy(changed: map<string, Record>, id: string, v: Verdict): map<string, Record> {
    match v
    case Launched(started) => changed[id := started]
    case Refused(Some(outcome)) => changed[id := outcome]
    case _ => changed
  }

  lemma NothingStarted(changed: map<string, Record>, w: World)
    ensures ChangedBefore(changed, w, {}) == changed
  {
  }

  lemma ChangedGrows(recovered: map<string, Record>, changed: map<string, Record>, w: World, started: set<string>, id: string, v: Verdict)
    requires changed == ChangedBefore(recovered, w, started)
    requires (v.Launched? ==> w.start(id) == Some(v.started)) && (v.Refused? ==> v.outcome == w.start(id))
    ensures ChangedBy(changed, id, v) == ChangedBefore(recovered, w, started + if v.Launched? || v.Refused? then {id} else {})
  {
    StartedMore(recovered, w, started, id);
    hide ChangedBefore;
    assert started + {} == started;
  }

  lemma StartedMore(recovered: map<string, Record>, w: World, started: set<string>, id: string)
    ensures var before := ChangedBefore(recovered, w, started);
      ChangedBefore(recovered, w, started + {id}) == if w.start(id).Some? then before[id := w.start(id).value] else before
  {
    var before, after := ChangedBefore(recovered, w, started), ChangedBefore(recovered, w, started + {id});
    forall x ensures Lookup(after, x) == if x == id && w.start(id).Some? then w.start(id) else Lookup(before, x) {
      ChangedAt(recovered, w, started, x);
      ChangedAt(recovered, w, started + {id}, x);
    }
    hide ChangedBefore;
    var expected := if w.start(id).Some? then before[id := w.start(id).value] else before;
    assert forall x :: Lookup(after, x) == Lookup(expected, x);
    SameLookup(after, expected);
  }

  lemma ChangedAt(recovered: map<string, Record>, w: World, started: set<string>, x: string)
    ensures Lookup(ChangedBefore(recovered, w, started), x) ==
      if x in started && w.start(x).Some? then w.start(x) else Lookup(recovered, x)
  {
  }

  lemma SameLookup<T>(a: map<string, T>, b: map<string, T>)
    requires forall x :: Lookup(a, x) == Lookup(b, x)
    ensures a == b
  {
    forall x ensures x in a <==> x in b { assert Lookup(a, x) == Lookup(b, x); }
    forall x | x in a ensures a[x] == b[x] { assert Lookup(a, x) == Lookup(b, x); }
  }

  lemma JudgeStarts(st: Memory, w: World, active: seq<Record>, id: string, file: InboxFile, now: real)
    ensures var v := Judge(st, w, active, id, file, now);
      (v.Launched? ==> w.start(id) == Some(v.started)) && (v.Refused? ==> v.outcome == w.start(id))
  {
  }

  lemma IdleKeeps(cfg: Config, st: Memory, w: World, active: seq<Record>, now: real)
    ensures forall id | id !in st.files :: VerdictOn(st, w, active, now, id) == Idle
    ensures forall id :: RetryAfter(cfg, st, id, Idle, now) == Lookup(st.retryAt, id)
    ensures forall id :: FailuresAfter(st, id, Idle) == Lookup(st.failures, id)
    ensures forall id | id in st.files :: SettledAfter(st, id, st.files[id], Idle) == Lookup(st.settled, id)
  {
    hide Judge;
  }

  /** The deadlines noted so far are those of the sessions considered so far. */
  ghost predicate DeadlinesAre(cfg: Config, st: Memory, w: World, active: seq<Record>, now: real, todo: set<string>,
    deadlines: seq<real>)
  {
    forall t :: t in deadlines <==> exists id | id in st.files && id !in todo :: DeadlineOf(cfg, st, w, active, now, id) == Some(t)
  }

  lemma NoDeadlinesYet(cfg: Config, st: Memory, w: World, active: seq<Record>, now: real)
    ensures DeadlinesAre(cfg, st, w, active, now, st.files.Keys, [])
  {
    hide DeadlineOf;
  }

  lemma MoreDeadlines(cfg: Config, st: Memory, w: World, active: seq<Record>, now: real, todo: set<string>, id: string,
    deadlines: seq<real>)
    requires DeadlinesAre(cfg, st, w, active, now, todo, deadlines) && id in todo && id in st.files
    ensures DeadlinesAre(cfg, st, w, active, now, todo - {id}, Appended(deadlines, DeadlineOf(cfg, st, w, active, now, id)))
  {
    hide DeadlineOf;
    var more := Appended(deadlines, DeadlineOf(cfg, st, w, active, now, id));
    forall t ensures t in more <==>
        exists x | x in st.files && x !in todo - {id} :: DeadlineOf(cfg, st, w, active, now, x) == Some(t)
    {
      if x :| x in st.files && x !in todo - {id} && DeadlineOf(cfg, st, w, active, now, x) == Some(t) {
        if x != id { assert x !in todo; }
      }
    }
  }

  lemma {:induction false} DoubledPositive(base: real, times: nat)
    requires base > 0.0
    ensures Doubled(base, times) > 0.0
  {
    if times > 0 { DoubledPositive(base, times - 1); }
  }

  /** A session has a deadline exactly when its retry time lies ahead after the pass. */
  lemma DeadlineIsRetry(cfg: Config, st: Memory, post: Memory, w: World, active: seq<Record>, now: real, id: string)
    requires cfg.poll > 0.0 && id in st.files && post.files == st.files
    requires !Overflows(st, id, VerdictOn(st, w, active, now, id))
    requires Lookup(post.retryAt, id) == RetryAfter(cfg, st, id, VerdictOn(st, w, active, now, id), now)
    ensures DeadlineOf(cfg, st, w, active, now, id) ==
      if RetryPending(post, active, id, now) then Some(post.retryAt[id]) else None
  {
    DoubledPositive(cfg.poll, FailuresBefore(st, id));
    hide Doubled;
  }

  /** The noted deadlines are exactly what is still to come. */
  lemma DeadlinesComplete(cfg: Config, st: Memory, w: World, scannedAt: Option<real>, post: Memory, active: seq<Record>, now: real,
    left: set<string>, noted: seq<real>, all: seq<real>)
    requires cfg.poll > 0.0 && InputRecovered(cfg, st, post, w, active, now, left) && StoppedAt(st, w, active, now, left, None)
    requires InputDeadlines(cfg, st, scannedAt, w, active, now, noted)
    requires all == Heartbeats(cfg, w.first, now) + noted + Leases(cfg, active, now)
    ensures forall t :: t in all <==> Pending(cfg, w, scannedAt, post, active, now, t)
  {
    forall id | id in st.files ensures DeadlineOf(cfg, st, w, active, now, id) ==
        if RetryPending(post, active, id, now) then Some(post.retryAt[id]) else None
    {
      DeadlineIsRetry(cfg, st, post, w, active, now, id);
    }
    hide HeartbeatPending, LeasePending, LeaseEnd, DeadlineOf, RetryPending, InputRecovered, StoppedAt, Heartbeats, Leases;
    var rescans := Rescans(cfg, scannedAt);
    var retries := noted[|rescans|..];
    assert noted == rescans + retries;
    forall t ensures t in all <==> Pending(cfg, w, scannedAt, post, active, now, t) {
      HeartbeatsAre(cfg, w.first, now, t);
      LeasesAre(cfg, active, now, t);
      assert t in retries <==> exists id | id in post.files :: RetryPending(post, active, id, now) && t == post.retryAt[id];
    }
  }

  lemma MinimumIsNext(cfg: Config, w: World, scannedAt: Option<real>, post: Memory, active: seq<Record>, now: real,
    all: seq<real>, due: Option<real>)
    requires forall t :: t in all <==> Pending(cfg, w, scannedAt, post, active, now, t)
    requires due.None? <==> all == []
    requires due.Some? ==> due.value in all && forall t | t in all :: due.value <= t
    ensures IsNext(cfg, w, scannedAt, post, active, now, due)
  {
    hide Pending;
  }

  /** A verdict depends on the session's own bookkeeping only. */
  lemma JudgeSame(a: Memory, b: Memory, w: World, active: seq<Record>, id: string, file: InboxFile, now: real)
    requires Lookup(a.retryAt, id) == Lookup(b.retryAt, id) && Lookup(a.settled, id) == Lookup(b.settled, id)
    ensures Judge(a, w, active, id, file, now) == Judge(b, w, active, id, file, now)
  {
  }

  // ---------- laws ----------

  /** The waits between failed starts double up to the cap and are never longer; from the 1025th failure in a row on
      there is no wait, because computing it raises. */
  lemma DelayDoubles(cfg: Config, failures: nat)
    requires cfg.poll > 0.0 && failures > 0
    ensures Delay(cfg, failures).Some? <==> failures < OVERFLOW
    ensures failures < OVERFLOW ==> 0.0 < Delay(cfg, failures).value <= RETRY_CAP
    ensures failures + 1 < OVERFLOW ==>
      var d := 2.0 * Delay(cfg, failures).value;
      Delay(cfg, failures + 1) == Some(if d < RETRY_CAP then d else RETRY_CAP)
  {
    DoubledPositive(cfg.poll, failures - 1);
  }

  /** The retry time that a failure at `now` leaves: one wait later, or the old one if the wait cannot be computed. */
  function BackedOff(cfg: Config, retryAt: Option<real>, failures: nat, now: real): Option<real>
    requires failures > 0
  {
    var d := Delay(cfg, failures);
    if d.Some? then Some(now + d.value) else retryAt
  }

  /** A session whose start failed is left alone until its wait is over, and a failure then doubles the wait; once the wait
      overflows, the failures go on being counted and the retry time stays what it was. */
  lemma RetriesBackOff(cfg: Config, st: Memory, post: Memory, w: World, active: seq<Record>, now: real, left: set<string>,
    later: Memory, w': World, active': seq<Record>, now': real, left': set<string>, id: string)
    requires cfg.poll > 0.0 && InputRecovered(cfg, st, post, w, active, now, left) && VerdictIn(st, w, active, now, left, id).Refused?
    requires Lookup(later.retryAt, id) == Lookup(post.retryAt, id) && Lookup(later.failures, id) == Lookup(post.failures, id)
    requires Attempted(later, w', active', now', left', id)
    ensures Lookup(post.failures, id) == Some(FailuresBefore(st, id) + 1)
    ensures Lookup(post.retryAt, id) == BackedOff(cfg, Lookup(st.retryAt, id), FailuresBefore(st, id) + 1, now)
    ensures FailuresBefore(st, id) + 1 < OVERFLOW ==> now' >= now + Delay(cfg, FailuresBefore(st, id) + 1).value
    ensures var v' := VerdictIn(later, w', active', now', left', id);
      v'.Refused? ==>
        RetryAfter(cfg, later, id, v', now') == BackedOff(cfg, Lookup(post.retryAt, id), FailuresBefore(st, id) + 2, now')
  {
    DelayDoubles(cfg, FailuresBefore(st, id) + 1);
    hide Delay, Overflows;
    assert Lookup(post.failures, id) == Some(FailuresBefore(st, id) + 1);
    NotWaiting(later, w', active', now', left', id);
  }

  lemma NotWaiting(st: Memory, w: World, active: seq<Record>, now: real, left: set<string>, id: string)
    requires Attempted(st, w, active, now, left, id)
    ensures id in st.retryAt ==> now >= st.retryAt[id]
  {
  }

  /** The verdict on a session's deferred input, in terms of what is known when the pass begins. */
  function VerdictBefore(cfg: Config, s: State, trigger: Trigger, w: World, now: real, id: string): Verdict {
    match FileOf(cfg, s.input.files, s.scannedAt, w, trigger, now, id)
    case None => Idle
    case Some(file) => Judge(s.input, w, Snapshot(cfg, s.watch, w, trigger, now), id, file, now)
  }

  lemma VerdictIsKnownBefore(cfg: Config, s: State, trigger: Trigger, w: World, now: real, s': State, id: string)
    requires InboxRefreshed(cfg, s.input.files, s.scannedAt, s'.input.files, s'.scannedAt, w, trigger, now)
    ensures var st := s.input.(files := s'.input.files);
      && VerdictOn(st, w, Snapshot(cfg, s.watch, w, trigger, now), now, id) == VerdictBefore(cfg, s, trigger, w, now, id)
      && (id !in st.files ==> VerdictBefore(cfg, s, trigger, w, now, id) == Idle)
  {
    var active := Snapshot(cfg, s.watch, w, trigger, now);
    var st := s.input.(files := s'.input.files);
    assert Lookup(st.files, id) == FileOf(cfg, s.input.files, s.scannedAt, w, trigger, now, id);
    if id in st.files { JudgeSame(s.input, st, w, active, id, st.files[id], now); }
    hide Judge, FileOf, Snapshot, InboxRefreshed;
  }

  /** A pass raises exactly when it is to refuse a start for the 1025th time in a row or later; it then dispatches nothing
      and reports nothing, while the failure is already counted. */
  lemma OverflowEndsPass(cfg: Config, s: State, trigger: Trigger, w: World, now: real, s': State,
    result: Result<Outcome, Error>, calls: Calls)
    requires Pass(cfg, s, trigger, w, now, s', result, calls)
    ensures result.Failure? <==> exists id :: Overflows(s.input, id, VerdictBefore(cfg, s, trigger, w, now, id))
    ensures result.Failure? ==>
      && !calls.dispatched && calls.raised.Some?
      && Lookup(s'.input.failures, calls.raised.value) == Some(FailuresBefore(s.input, calls.raised.value) + 1)
      && Lookup(s'.input.retryAt, calls.raised.value) == Lookup(s.input.retryAt, calls.raised.value)
  {
    var active := Snapshot(cfg, s.watch, w, trigger, now);
    var st := s.input.(files := s'.input.files);
    hide WorkersProbed, InboxRefreshed, DueRecords, Attempted, DispatchDue, IsNext, ChangedBefore, Watchable, VerdictOn, Snapshot, Probes;
    hide VerdictBefore;
    forall id ensures VerdictOn(st, w, active, now, id) == VerdictBefore(cfg, s, trigger, w, now, id)
        && (id !in st.files ==> VerdictBefore(cfg, s, trigger, w, now, id) == Idle)
    {
      VerdictIsKnownBefore(cfg, s, trigger, w, now, s', id);
    }
    if result.Failure? {
      var id := calls.raised.value;
      assert Overflows(st, id, VerdictOn(st, w, active, now, id));
      assert Overflows(s.input, id, VerdictBefore(cfg, s, trigger, w, now, id));
      assert VerdictIn(st, w, active, now, calls.left, id) == VerdictOn(st, w, active, now, id);
    } else {
      forall id ensures !Overflows(s.input, id, VerdictBefore(cfg, s, trigger, w, now, id)) {
        assert Overflows(st, id, VerdictOn(st, w, active, now, id)) ==> id !in st.files;
      }
    }
  }

  // ---------- when the next pass is due ----------

  /** The reported time lies ahead of the pass exactly when no heartbeat is due at this very instant and the whole-inbox
      rescan, if this pass did one, is not to be repeated at once. */
  lemma NextDueLiesAhead(cfg: Config, s: State, trigger: Trigger, w: World, now: real, s': State,
    result: Result<Outcome, Error>, calls: Calls)
    requires Pass(cfg, s, trigger, w, now, s', result, calls) && result.Success? && result.value.nextDue.Some?
    ensures result.value.nextDue.value > now <==>
      && !HeartbeatNow(cfg, w.first, now)
      && (cfg.rescan.Some? && RescanDue(cfg, s.scannedAt, trigger, now) ==> cfg.rescan.value > 0.0)
  {
    var active := Snapshot(cfg, s.watch, w, trigger, now);
    assert InboxRefreshed(cfg, s.input.files, s.scannedAt, s'.input.files, s'.scannedAt, w, trigger, now);
    NextIsAhead(cfg, w, s'.scannedAt, s'.input, active, now, result.value.nextDue.value) by {
      hide WorkersProbed, InboxRefreshed, InputRecovered, StoppedAt, DispatchDue, IsNext, Watchable, Snapshot;
    }
    hide Pass, FileOf, HeartbeatNow, Snapshot;
  }

  /** A session with a fresh heartbeat whose deadline is this very instant: not overdue, and noted as still to come. */
  ghost predicate HeartbeatNow(cfg: Config, records: seq<Record>, now: real) {
    exists r | r in records :: HeartbeatPending(cfg, r, now) && now == r.lastActive + cfg.staleAfter
  }

  lemma NextIsAhead(cfg: Config, w: World, scannedAt: Option<real>, post: Memory, active: seq<Record>, now: real, due: real)
    requires IsNext(cfg, w, scannedAt, post, active, now, Some(due))
    ensures due > now <==>
      && !HeartbeatNow(cfg, w.first, now)
      && (cfg.rescan.Some? && scannedAt.Some? ==> scannedAt.value + cfg.rescan.value > now)
  {
    hide Tracked, LeaseEnd;
    if HeartbeatNow(cfg, w.first, now) { assert Pending(cfg, w, scannedAt, post, active, now, now); }
    if cfg.rescan.Some? && scannedAt.Some? {
      assert Pending(cfg, w, scannedAt, post, active, now, scannedAt.value + cfg.rescan.value);
    }
  }

  /** Up to `end` nothing falls due that the pass can know of when it begins: no fresh heartbeat runs out, no rescan comes
      round, no reservation in the registry lapses, and no candidate waits for a retry or is to be refused one. */
  ghost predicate QuietUntil(cfg: Config, s: State, trigger: Trigger, w: World, now: real, end: real) {
    && (forall r | r in w.first && HeartbeatPending(cfg, r, now) :: end < r.lastActive + cfg.staleAfter)
    && (cfg.rescan.Some? ==> end < ScanTime(cfg, s.scannedAt, trigger, now) + cfg.rescan.value)
    && (forall r | r in Snapshot(cfg, s.watch, w, trigger, now) && LeasePending(cfg, r, now) :: end < LeaseEnd(cfg, r).value)
    && (forall id :: LaterThan(VerdictDeadline(cfg, s.input, id, VerdictBefore(cfg, s, trigger, w, now, id), now), end))
  }

  predicate LaterThan(deadline: Option<real>, end: real) {
    deadline.Some? ==> end < deadline.value
  }

  /** When the last whole-inbox scan was, once the pass is over. */
  function ScanTime(cfg: Config, scannedAt: Option<real>, trigger: Trigger, now: real): real {
    if RescanDue(cfg, scannedAt, trigger, now) then now else scannedAt.value
  }

  /** Everything still to come comes after `end`. */
  ghost predicate AllAfter(cfg: Config, w: World, scannedAt: Option<real>, post: Memory, active: seq<Record>, now: real, end: real) {
    forall t :: Pending(cfg, w, scannedAt, post, active, now, t) ==> end < t
  }

  /** The retry times that lie ahead after the pass, by what was known before it. */
  lemma RetryIsKnownBefore(cfg: Config, s: State, trigger: Trigger, w: World, now: real, s': State,
    result: Result<Outcome, Error>, calls: Calls, id: string)
    requires cfg.poll > 0.0 && Pass(cfg, s, trigger, w, now, s', result, calls) && result.Success?
    ensures VerdictDeadline(cfg, s.input, id, VerdictBefore(cfg, s, trigger, w, now, id), now) ==
      if RetryPending(s'.input, Snapshot(cfg, s.watch, w, trigger, now), id, now) then Some(s'.input.retryAt[id]) else None
  {
    var active := Snapshot(cfg, s.watch, w, trigger, now);
    var st := s.input.(files := s'.input.files);
    hide WorkersProbed, InboxRefreshed, DueRecords, Attempted, DispatchDue, IsNext, ChangedBefore, Watchable, VerdictOn, Snapshot, Probes;
    hide VerdictBefore, RetryAfter, Overflows;
    VerdictIsKnownBefore(cfg, s, trigger, w, now, s', id);
    if id in st.files { DeadlineIsRetry(cfg, st, s'.input, w, active, now, id); }
  }

  lemma QuietIsAllAfter(cfg: Config, s: State, trigger: Trigger, w: World, now: real, s': State,
    result: Result<Outcome, Error>, calls: Calls, end: real)
    requires cfg.poll > 0.0 && Pass(cfg, s, trigger, w, now, s', result, calls) && result.Success?
    ensures QuietUntil(cfg, s, trigger, w, now, end) <==>
      AllAfter(cfg, w, s'.scannedAt, s'.input, Snapshot(cfg, s.watch, w, trigger, now), now, end)
  {
    var active := Snapshot(cfg, s.watch, w, trigger, now);
    forall id ensures VerdictDeadline(cfg, s.input, id, VerdictBefore(cfg, s, trigger, w, now, id), now) ==
        if RetryPending(s'.input, active, id, now) then Some(s'.input.retryAt[id]) else None
    {
      RetryIsKnownBefore(cfg, s, trigger, w, now, s', result, calls, id);
    }
    ScannedThen(cfg, s, trigger, w, now, s', result, calls);
    assert RetriesAre(cfg, s, trigger, w, now, s'.input);
    hide *;
    if AllAfter(cfg, w, s'.scannedAt, s'.input, active, now, end) {
      AfterIsQuiet(cfg, s, trigger, w, now, s', end);
    } else if QuietUntil(cfg, s, trigger, w, now, end) {
      QuietIsAfter(cfg, s, trigger, w, now, s', end);
    }
  }

  lemma ScannedThen(cfg: Config, s: State, trigger: Trigger, w: World, now: real, s': State,
    result: Result<Outcome, Error>, calls: Calls)
    requires Pass(cfg, s, trigger, w, now, s', result, calls)
    ensures s'.scannedAt == Some(ScanTime(cfg, s.scannedAt, trigger, now))
  {
    hide WorkersProbed, FileOf, DueRecords, InputRecovered, Attempted, DispatchDue, IsNext, ChangedBefore, Watchable, Snapshot, Probes;
    assert InboxRefreshed(cfg, s.input.files, s.scannedAt, s'.input.files, s'.scannedAt, w, trigger, now);
  }

  /** The noted retry times are those of the verdicts. */
  ghost predicate RetriesAre(cfg: Config, s: State, trigger: Trigger, w: World, now: real, post: Memory) {
    forall id :: VerdictDeadline(cfg, s.input, id, VerdictBefore(cfg, s, trigger, w, now, id), now) ==
      if RetryPending(post, Snapshot(cfg, s.watch, w, trigger, now), id, now) then Some(post.retryAt[id]) else None
  }

  lemma AfterIsQuiet(cfg: Config, s: State, trigger: Trigger, w: World, now: real, s': State, end: real)
    requires RetriesAre(cfg, s, trigger, w, now, s'.input) && s'.scannedAt == Some(ScanTime(cfg, s.scannedAt, trigger, now))
    requires AllAfter(cfg, w, s'.scannedAt, s'.input, Snapshot(cfg, s.watch, w, trigger, now), now, end)
    ensures QuietUntil(cfg, s, trigger, w, now, end)
  {
    var active := Snapshot(cfg, s.watch, w, trigger, now);
    hide VerdictDeadline, VerdictBefore, Snapshot, LeaseEnd, HeartbeatPending, ScanTime;
    forall r | r in w.first && HeartbeatPending(cfg, r, now) ensures end < r.lastActive + cfg.staleAfter {
      assert Pending(cfg, w, s'.scannedAt, s'.input, active, now, r.lastActive + cfg.staleAfter);
    }
    if cfg.rescan.Some? {
      assert Pending(cfg, w, s'.scannedAt, s'.input, active, now, s'.scannedAt.value + cfg.rescan.value);
    }
    forall r | r in active && LeasePending(cfg, r, now) ensures end < LeaseEnd(cfg, r).value {
      assert Pending(cfg, w, s'.scannedAt, s'.input, active, now, LeaseEnd(cfg, r).value);
    }
    forall id ensures LaterThan(VerdictDeadline(cfg, s.input, id, VerdictBefore(cfg, s, trigger, w, now, id), now), end) {
      if RetryPending(s'.input, active, id, now) {
        assert Pending(cfg, w, s'.scannedAt, s'.input, active, now, s'.input.retryAt[id]);
      }
    }
  }

  lemma QuietIsAfter(cfg: Config, s: State, trigger: Trigger, w: World, now: real, s': State, end: real)
    requires RetriesAre(cfg, s, trigger, w, now, s'.input) && s'.scannedAt == Some(ScanTime(cfg, s.scannedAt, trigger, now))
    requires QuietUntil(cfg, s, trigger, w, now, end)
    ensures AllAfter(cfg, w, s'.scannedAt, s'.input, Snapshot(cfg, s.watch, w, trigger, now), now, end)
  {
    var active := Snapshot(cfg, s.watch, w, trigger, now);
    hide VerdictDeadline, VerdictBefore, Snapshot, LeaseEnd, HeartbeatPending, ScanTime;
    forall t | Pending(cfg, w, s'.scannedAt, s'.input, active, now, t) ensures end < t {
      if id :| id in s'.input.files && RetryPending(s'.input, active, id, now) && t == s'.input.retryAt[id] {
        assert LaterThan(VerdictDeadline(cfg, s.input, id, VerdictBefore(cfg, s, trigger, w, now, id), now), end);
      }
    }
  }

  /** A reservation that the pass's own dispatch makes is not among its deadlines: the reported time comes after the end of
      its lease, or there is none, exactly when by all that is known before the pass nothing falls due up to that end. */
  lemma OwnDispatchIsMissed(cfg: Config, s: State, trigger: Trigger, w: World, now: real, s': State,
    result: Result<Outcome, Error>, calls: Calls, id: string)
    requires cfg.poll > 0.0 && Pass(cfg, s, trigger, w, now, s', result, calls) && result.Success?
    requires calls.dispatched && id in w.dispatched && LeasePending(cfg, w.dispatched[id], now)
    ensures var end := LeaseEnd(cfg, w.dispatched[id]).value;
      var due := result.value.nextDue;
      && id in result.value.changed && result.value.changed[id] == w.dispatched[id]
      && (due.None? || end < due.value <==> QuietUntil(cfg, s, trigger, w, now, end))
  {
    QuietIsAllAfter(cfg, s, trigger, w, now, s', result, calls, LeaseEnd(cfg, w.dispatched[id]).value);
    hide WorkersProbed, InboxRefreshed, InputRecovered, StoppedAt, DispatchDue, Watchable, Snapshot, Pending, LeaseEnd, ChangedBefore;
    hide QuietUntil;
  }

  const MINUTE := Config(60.0, 5.0, None, 30.0)
  const QUEUED := Record("s", Sessions.Queued, FairQueue.PendingDispatch, None, 0, 0.0, false, None)
  const RESERVED := QUEUED.(status := Sessions.Starting, dispatch := FairQueue.Claimed, claimedAt := Some(100.0))

  /** One queued session, no inbox files, and a dispatch that reserves the session. */
  function OneQueued(): World {
    World([QUEUED], [QUEUED], id => Unknown, due => map[], {}, id => None, id => None, id => None, id => false, id => false,
      id => None, map["s" := RESERVED])
  }

  /** The first pass over it dispatches the session and reports that nothing is due, although the reservation's lease
      ends thirty seconds later. */
  lemma DispatchReportsNothingDue()
    ensures LeaseEnd(MINUTE, RESERVED) == Some(130.0) && LeasePending(MINUTE, RESERVED, 100.0)
    ensures Pass(MINUTE, FRESH, Trigger(true, true, None, {}, {}), OneQueued(), 100.0, FRESH.(scannedAt := Some(100.0)),
      Success(Outcome(map["s" := RESERVED], 0, None, map[])), Calls([], {}, {}, None, true))
  {
    var w, trigger := OneQueued(), Trigger(true, true, None, {}, {});
    var s' := FRESH.(scannedAt := Some(100.0));
    assert !Tracked(QUEUED) && LeaseEnd(MINUTE, QUEUED).None?;
    assert w.first[..0] == [] && DueRecords(MINUTE, FRESH.watch, w.first, trigger, 100.0) == [];
    assert Snapshot(MINUTE, FRESH.watch, w, trigger, 100.0) == [QUEUED];
    NothingRecovered(w, trigger);
    NothingPending(w, s'.scannedAt);
    hide Tracked, DueRecords, InboxRefreshed, InputRecovered, StoppedAt, Attempted, Snapshot, IsNext, LeaseEnd;
    assert ChangedBefore(map[], w, {}) == map[];
  }

  lemma NothingPending(w: World, scannedAt: Option<real>)
    requires w.first == [QUEUED]
    ensures IsNext(MINUTE, w, scannedAt, FRESH.input, [QUEUED], 100.0, None)
  {
    assert !Tracked(QUEUED) && LeaseEnd(MINUTE, QUEUED).None?;
    hide Tracked, LeaseEnd;
  }

  lemma NothingRecovered(w: World, trigger: Trigger)
    requires trigger.full && w.present == {}
    ensures InboxRefreshed(MINUTE, map[], None, map[], Some(100.0), w, trigger, 100.0)
    ensures InputRecovered(MINUTE, FRESH.input, FRESH.input, w, [QUEUED], 100.0, {})
    ensures StoppedAt(FRESH.input, w, [QUEUED], 100.0, {}, None)
    ensures forall id :: !Attempted(FRESH.input, w, [QUEUED], 100.0, {}, id)
  {
  }

  /** A pass that finds the reservation in the registry is back by the end of its lease at the latest. */
  lemma LaterPassSeesLease(cfg: Config, s: State, trigger: Trigger, w: World, now: real, s': State,
    result: Result<Outcome, Error>, calls: Calls, r: Record)
    requires Pass(cfg, s, trigger, w, now, s', result, calls) && result.Success?
    requires r in Snapshot(cfg, s.watch, w, trigger, now) && LeasePending(cfg, r, now)
    ensures result.value.nextDue.Some? && result.value.nextDue.value <= LeaseEnd(cfg, r).value
  {
    hide WorkersProbed, InboxRefreshed, InputRecovered, StoppedAt, DispatchDue, Watchable, Snapshot, LeaseEnd, ChangedBefore;
    assert Pending(cfg, w, s'.scannedAt, s'.input, Snapshot(cfg, s.watch, w, trigger, now), now, LeaseEnd(cfg, r).value);
  }

  lemma {:induction false} DueExactly(cfg: Config, st: Watch, records: seq<Record>, trigger: Trigger, now: real, r: Record)
    ensures r in DueRecords(cfg, st, records, trigger, now) <==>
      r in records && Tracked(r) && WorkerDue(cfg, st, r, trigger, now)
  {
    hide WorkerDue, Tracked;
    if records != [] {
      DueExactly(cfg, st, records[..|records| - 1], trigger, now, r);
      assert records == records[..|records| - 1] + [records[|records| - 1]];
    }
  }

  /** A pass over sessions that the previous pass saw, whose exits are watched and whose heartbeats are in order, looks
      at no process and reconciles nothing. */
  lemma SeenWorkersAreLeftAlone(cfg: Config, st: Watch, post: Watch, w: World, trigger: Trigger, now: real,
    w': World, trigger': Trigger, now': real)
    requires WorkersProbed(cfg, st, post, w, trigger, now) && st.probed.Keys == st.probedAt.Keys
    requires w'.first == w.first && !trigger'.full
    requires forall r | r in w.first && Tracked(r) ::
      r.id !in trigger'.exited && r.id in trigger'.exitWatched && Expired(cfg, r, now') == r.heartbeatStale
    ensures DueRecords(cfg, post, w'.first, trigger', now') == []
  {
    var due := DueRecords(cfg, post, w'.first, trigger', now');
    if due != [] {
      var r := due[0];
      DueExactly(cfg, post, w'.first, trigger', now', r);
      NotDueAgain(cfg, st, post, w, trigger, now, r, trigger', now');
    }
  }

  lemma NotDueAgain(cfg: Config, st: Watch, post: Watch, w: World, trigger: Trigger, now: real, r: Record,
    trigger': Trigger, now': real)
    requires WorkersProbed(cfg, st, post, w, trigger, now) && st.probed.Keys == st.probedAt.Keys
    requires r in w.first && Tracked(r) && !trigger'.full && r.id !in trigger'.exited && r.id in trigger'.exitWatched
    requires Expired(cfg, r, now') == r.heartbeatStale
    ensures !WorkerDue(cfg, post, r, trigger', now')
  {
    assert Remembered(post, r.id) == ProbeAfter(cfg, st, w, r, trigger, now);
    hide Tracked, Expired;
  }

  /** A candidate with nothing to start is not looked at again while its record and its inbox stay the same. */
  lemma SettledStaysIdle(cfg: Config, st: Memory, post: Memory, w: World, active: seq<Record>, now: real, left: set<string>,
    w': World, active': seq<Record>, now': real, id: string)
    requires InputRecovered(cfg, st, post, w, active, now, left) && VerdictIn(st, w, active, now, left, id).Settle?
    requires w'.find(id) == w.find(id)
    ensures var v := VerdictOn(post, w', active', now', id); v.Idle? || v.Wait?
  {
    hide Delay;
    var file := st.files[id];
    assert Lookup(post.settled, id) == SettledAfter(st, id, file, VerdictIn(st, w, active, now, left, id));
  }
}
