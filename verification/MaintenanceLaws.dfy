/** What a maintenance pass does, said in the fields of the sessions and of what the scheduler remembers: which workers are
    recovered, which inbox files are read, which inputs are started, when the queue is dispatched, and what is pending. */
module MaintenanceLaws {
  import opened Wrappers
  import opened Maintenance
  import Sessions
  import FairQueue

  /** The sessions that the input and dispatch steps work on. */
  function Active(w: World, calls: Calls): seq<Record> {
    if w.recovered(calls.due) == map[] then w.first else w.second
  }

  ghost predicate HasSession(records: seq<Record>, id: string) {
    exists r | r in records :: r.id == id
  }

  // ---------- workers ----------

  predicate Waits(r: Record) {
    r.status == Sessions.Queued && r.dispatch == FairQueue.PendingDispatch
  }

  predicate Reservation(r: Record) {
    r.status == Sessions.Starting && r.dispatch == FairQueue.Claimed && r.workerPid.None?
  }

  /** An active session that is neither waiting in the queue nor reserved without a worker. */
  predicate HasWorker(r: Record) {
    && r.status in {Sessions.Queued, Sessions.Starting, Sessions.Running, Sessions.WaitingApproval, Sessions.WaitingInput,
                    Sessions.Retrying, Sessions.Cancelling}
    && !Waits(r) && !Reservation(r)
  }

  /** The last sign of life is longer ago than is allowed; a session without any is not judged. */
  predicate Overdue(cfg: Config, r: Record, now: real) {
    r.lastActive != 0.0 && now > r.lastActive + cfg.staleAfter
  }

  /** Why a worker is looked at: a full pass; its process exited; it is new, or in a new attempt; it is not watched and its
      last probe is a polling interval ago; or its heartbeat stopped or came back. */
  predicate LookedAt(cfg: Config, st: Watch, r: Record, trigger: Trigger, now: real) {
    || trigger.full
    || r.id in trigger.exited
    || (r.workerPid.Some? && (r.id !in st.probed || st.probed[r.id].pid != r.workerPid.value || st.probed[r.id].attempt != r.attempt))
    || (r.workerPid.Some? && r.id !in trigger.exitWatched && (r.id !in st.probedAt || st.probedAt[r.id] + cfg.poll <= now))
    || (Overdue(cfg, r, now) && !r.heartbeatStale) || (!Overdue(cfg, r, now) && r.heartbeatStale)
  }

  /** A pass recovers exactly the sessions whose worker is to be looked at, probes the process of each that has one, forgets
      the sessions without a worker, and keeps what it knew of the others. */
  lemma WorkersLookedAt(cfg: Config, s: State, trigger: Trigger, w: World, now: real, s': State,
    result: Result<Outcome, Error>, calls: Calls, r: Record)
    requires Pass(cfg, s, trigger, w, now, s', result, calls) && s.watch.probed.Keys == s.watch.probedAt.Keys
    ensures r in calls.due <==> r in w.first && HasWorker(r) && LookedAt(cfg, s.watch, r, trigger, now)
    ensures r in w.first && HasWorker(r) && LookedAt(cfg, s.watch, r, trigger, now) && r.workerPid.Some? ==>
      && Lookup(s'.watch.probed, r.id) == Some(Probe(r.workerPid.value, r.attempt, w.processState(r.id)))
      && Lookup(s'.watch.probedAt, r.id) == Some(now)
    ensures r in w.first && HasWorker(r) && !(LookedAt(cfg, s.watch, r, trigger, now) && r.workerPid.Some?) ==>
      && Lookup(s'.watch.probed, r.id) == Lookup(s.watch.probed, r.id)
      && Lookup(s'.watch.probedAt, r.id) == Lookup(s.watch.probedAt, r.id)
    ensures forall id | id in s'.watch.probed :: exists x | x in w.first :: HasWorker(x) && x.id == id
  {
    assert WorkersProbed(cfg, s.watch, s'.watch, w, trigger, now) && calls.due == DueRecords(cfg, s.watch, w.first, trigger, now);
    hide Pass, DueRecords, Tracked, HasWorker, LookedAt, WorkerDue, WorkersProbed, ProbeAfter, Lookup, Remembered;
    DueExactly(cfg, s.watch, w.first, trigger, now, r);
    TrackedIs(r);
    LookedAtIs(cfg, s.watch, r, trigger, now);
    if r in w.first && Tracked(r) { ProbeKept(cfg, s.watch, s'.watch, w, r, trigger, now); }
    ProbedAreTracked(cfg, s.watch, s'.watch, w, trigger, now);
    forall id | id in s'.watch.probed ensures exists x | x in w.first :: HasWorker(x) && x.id == id {
      var x :| x in w.first && Tracked(x) && x.id == id;
      TrackedIs(x);
    }
  }

  lemma ProbeKept(cfg: Config, st: Watch, post: Watch, w: World, r: Record, trigger: Trigger, now: real)
    requires WorkersProbed(cfg, st, post, w, trigger, now) && r in w.first && Tracked(r) && st.probed.Keys == st.probedAt.Keys
    ensures WorkerDue(cfg, st, r, trigger, now) && r.workerPid.Some? ==>
      && Lookup(post.probed, r.id) == Some(Probe(r.workerPid.value, r.attempt, w.processState(r.id)))
      && Lookup(post.probedAt, r.id) == Some(now)
    ensures !(WorkerDue(cfg, st, r, trigger, now) && r.workerPid.Some?) ==>
      && Lookup(post.probed, r.id) == Lookup(st.probed, r.id)
      && Lookup(post.probedAt, r.id) == Lookup(st.probedAt, r.id)
  {
    assert Remembered(post, r.id) == ProbeAfter(cfg, st, w, r, trigger, now);
    assert r.id in post.probed.Keys <==> r.id in post.probedAt.Keys;
    assert r.id in st.probed.Keys <==> r.id in st.probedAt.Keys;
    hide WorkerDue, Tracked, WorkersProbed;
  }

  lemma ProbedAreTracked(cfg: Config, st: Watch, post: Watch, w: World, trigger: Trigger, now: real)
    requires WorkersProbed(cfg, st, post, w, trigger, now)
    ensures forall id | id in post.probed :: exists x | x in w.first :: Tracked(x) && x.id == id
  {
    forall id | id in post.probed ensures exists x | x in w.first :: Tracked(x) && x.id == id {
      assert id in TrackedIds(w.first);
    }
  }

  lemma TrackedIs(r: Record)
    ensures HasWorker(r) <==> Tracked(r)
  {
  }

  lemma LookedAtIs(cfg: Config, st: Watch, r: Record, trigger: Trigger, now: real)
    ensures LookedAt(cfg, st, r, trigger, now) <==> WorkerDue(cfg, st, r, trigger, now)
  {
  }

  // ---------- inbox files ----------

  /** The whole inbox is scanned: in a full pass, the first time, when it is unknown what changed, or when a rescan is due. */
  predicate Scans(cfg: Config, scannedAt: Option<real>, trigger: Trigger, now: real) {
    || trigger.full || scannedAt.None? || trigger.inboxChanged.None?
    || (cfg.rescan.Some? && scannedAt.value + cfg.rescan.value <= now)
  }

  /** The file is looked at: it was found by a scan, or is named as changed. */
  predicate FileLookedAt(cfg: Config, s: State, trigger: Trigger, w: World, now: real, id: string) {
    if Scans(cfg, s.scannedAt, trigger, now) then id in w.present else id in trigger.inboxChanged.value
  }

  /** A file that a scan does not find, or that is empty, is forgotten; a file looked at with another fingerprint is read
      again if it can be; everything else stays as it was known. */
  lemma FilesRead(cfg: Config, s: State, trigger: Trigger, w: World, now: real, s': State,
    result: Result<Outcome, Error>, calls: Calls, id: string)
    requires Pass(cfg, s, trigger, w, now, s', result, calls)
    ensures s'.scannedAt == if Scans(cfg, s.scannedAt, trigger, now) then Some(now) else s.scannedAt
    ensures Lookup(s'.input.files, id) ==
      if Scans(cfg, s.scannedAt, trigger, now) && id !in w.present then None
      else if !FileLookedAt(cfg, s, trigger, w, now, id) || w.fingerprint(id).None? then Lookup(s.input.files, id)
      else if w.fingerprint(id).value == 0 then None
      else if id in s.input.files && s.input.files[id].fingerprint == w.fingerprint(id).value then Some(s.input.files[id])
      else if w.receipts(id).None? then Lookup(s.input.files, id)
      else Some(InboxFile(w.fingerprint(id).value, w.receipts(id).value))
  {
    assert InboxRefreshed(cfg, s.input.files, s.scannedAt, s'.input.files, s'.scannedAt, w, trigger, now);
    hide Pass;
  }

  // ---------- deferred input ----------

  /** The session's inbox holds deferred input and no attempt is live to read it. */
  ghost predicate Candidate(w: World, calls: Calls, files: map<string, InboxFile>, id: string) {
    id in files && files[id].holds && !HasSession(Active(w, calls), id)
  }

  predicate RetryAhead(input: Memory, id: string, now: real) {
    id in input.retryAt && now < input.retryAt[id]
  }

  /** A candidate that is not waiting for a retry and whose record is there, and not settled with this file. */
  ghost predicate Examined(w: World, calls: Calls, input: Memory, files: map<string, InboxFile>, id: string, now: real) {
    && Candidate(w, calls, files, id) && !RetryAhead(input, id, now) && w.find(id).Some?
    && !(id in input.settled && input.settled[id] == (w.find(id).value, files[id].fingerprint))
  }

  /** The supervisor answers the start with an active session. */
  predicate Succeeds(w: World, id: string) {
    w.start(id).Some? && Sessions.Active(w.start(id).value.status)
  }

  /** What a judgement means, for a session with an inbox file. */
  lemma JudgeIsKnown(st: Memory, w: World, active: seq<Record>, id: string, now: real)
    requires id in st.files
    ensures var v := Judge(st, w, active, id, st.files[id], now);
      var examined := st.files[id].holds && !IsActive(active, id) && !RetryAhead(st, id, now) && w.find(id).Some?
        && !(id in st.settled && st.settled[id] == (w.find(id).value, st.files[id].fingerprint));
      && (v.Settle? <==> examined && !w.pending(id)) && (v.Settle? ==> v.record == w.find(id).value)
      && (v.Launched? || v.Refused? <==> examined && w.pending(id) && w.capacity(id))
      && (v.Launched? <==> examined && w.pending(id) && w.capacity(id) && Succeeds(w, id))
  {
    hide IsActive;
  }

  lemma ExaminedIs(w: World, calls: Calls, input: Memory, files: map<string, InboxFile>, id: string, now: real)
    ensures Examined(w, calls, input, files, id, now) <==>
      && id in files && files[id].holds && !IsActive(Active(w, calls), id)
      && !RetryAhead(input.(files := files), id, now) && w.find(id).Some?
      && !(id in input.settled && input.settled[id] == (w.find(id).value, files[id].fingerprint))
  {
    hide Active;
  }

  lemma SameSnapshot(cfg: Config, s: State, trigger: Trigger, w: World, now: real, s': State,
    result: Result<Outcome, Error>, calls: Calls)
    requires Pass(cfg, s, trigger, w, now, s', result, calls)
    ensures Snapshot(cfg, s.watch, w, trigger, now) == Active(w, calls)
  {
  }

  /** The verdict in these terms. */
  lemma VerdictIsKnown(cfg: Config, s: State, trigger: Trigger, w: World, now: real, s': State,
    result: Result<Outcome, Error>, calls: Calls, id: string)
    requires Pass(cfg, s, trigger, w, now, s', result, calls)
    ensures var v := VerdictIn(s.input.(files := s'.input.files), w, Snapshot(cfg, s.watch, w, trigger, now), now, calls.left, id);
      var examined := id !in calls.left && Examined(w, calls, s.input, s'.input.files, id, now);
      && (v.Settle? <==> examined && !w.pending(id)) && (v.Settle? ==> v.record == w.find(id).value)
      && (v.Launched? || v.Refused? <==> examined && w.pending(id) && w.capacity(id))
      && (v.Launched? <==> examined && w.pending(id) && w.capacity(id) && Succeeds(w, id))
  {
    SameSnapshot(cfg, s, trigger, w, now, s', result, calls);
    ExaminedIs(w, calls, s.input, s'.input.files, id, now);
    var st := s.input.(files := s'.input.files);
    if id in st.files { JudgeIsKnown(st, w, Active(w, calls), id, now); }
    hide Pass, Snapshot, Active, IsActive, Judge, Examined, RetryAhead, Succeeds;
  }

  /** The inputs that a pass starts: of every candidate it reaches that is to be examined, those with a message to start and
      room for it; and no others. */
  lemma StartedExactly(cfg: Config, s: State, trigger: Trigger, w: World, now: real, s': State,
    result: Result<Outcome, Error>, calls: Calls, id: string)
    requires Pass(cfg, s, trigger, w, now, s', result, calls)
    ensures id in calls.started <==>
      id !in calls.left && Examined(w, calls, s.input, s'.input.files, id, now) && w.pending(id) && w.capacity(id)
  {
    MemoryAfter(cfg, s, trigger, w, now, s', result, calls, id);
    VerdictIsKnown(cfg, s, trigger, w, now, s', result, calls, id);
    hide *;
  }

  /** What the pass remembers of idle input: a candidate with nothing to start is settled with its record and file, and
      nothing else is. */
  lemma SettledExactly(cfg: Config, s: State, trigger: Trigger, w: World, now: real, s': State,
    result: Result<Outcome, Error>, calls: Calls, id: string)
    requires Pass(cfg, s, trigger, w, now, s', result, calls) && id in s'.input.files
    ensures Lookup(s'.input.settled, id) ==
      if id !in calls.left && Examined(w, calls, s.input, s'.input.files, id, now) && !w.pending(id)
      then Some((w.find(id).value, s'.input.files[id].fingerprint)) else Lookup(s.input.settled, id)
  {
    MemoryAfter(cfg, s, trigger, w, now, s', result, calls, id);
    VerdictIsKnown(cfg, s, trigger, w, now, s', result, calls, id);
    hide Pass, Examined, VerdictIn, Snapshot;
  }

  /** What the verdict on a session leaves of it. */
  lemma MemoryAfter(cfg: Config, s: State, trigger: Trigger, w: World, now: real, s': State,
    result: Result<Outcome, Error>, calls: Calls, id: string)
    requires Pass(cfg, s, trigger, w, now, s', result, calls)
    ensures var st := s.input.(files := s'.input.files);
      var v := VerdictIn(st, w, Snapshot(cfg, s.watch, w, trigger, now), now, calls.left, id);
      && Lookup(s'.input.retryAt, id) == RetryAfter(cfg, st, id, v, now)
      && Lookup(s'.input.failures, id) == FailuresAfter(st, id, v)
      && (id in st.files ==> Lookup(s'.input.settled, id) == SettledAfter(st, id, st.files[id], v))
      && (id in calls.started <==> v.Launched? || v.Refused?)
  {
    hide RetryAfter, FailuresAfter, SettledAfter, VerdictIn, Lookup, WorkersProbed, InboxRefreshed, StoppedAt, IsNext, DueRecords,
      Probes, Watchable, ChangedBefore, DispatchDue, Snapshot;
  }

  /** What the pass remembers of a start: one that leaves an active session clears the failures; any other counts one more
      and sets the retry time; without a start both stay. */
  lemma FailuresRemembered(cfg: Config, s: State, trigger: Trigger, w: World, now: real, s': State,
    result: Result<Outcome, Error>, calls: Calls, id: string)
    requires Pass(cfg, s, trigger, w, now, s', result, calls)
    ensures id !in calls.started ==>
      && Lookup(s'.input.failures, id) == Lookup(s.input.failures, id)
      && Lookup(s'.input.retryAt, id) == Lookup(s.input.retryAt, id)
    ensures id in calls.started && Succeeds(w, id) ==> id !in s'.input.failures && id !in s'.input.retryAt
    ensures id in calls.started && !Succeeds(w, id) ==>
      var count := 1 + if id in s.input.failures then s.input.failures[id] else 0;
      && Lookup(s'.input.failures, id) == Some(count)
      && Lookup(s'.input.retryAt, id) == if count < 1025 then Some(now + Delay(cfg, count).value) else Lookup(s.input.retryAt, id)
  {
    hide *;
    var st := s.input.(files := s'.input.files);
    var v := VerdictIn(st, w, Snapshot(cfg, s.watch, w, trigger, now), now, calls.left, id);
    MemoryAfter(cfg, s, trigger, w, now, s', result, calls, id);
    VerdictIsKnown(cfg, s, trigger, w, now, s', result, calls, id);
    FailuresOf(cfg, s.input, st, s'.input, id, v, now);
  }

  lemma FailuresOf(cfg: Config, input: Memory, st: Memory, post: Memory, id: string, v: Verdict, now: real)
    requires st.failures == input.failures && st.retryAt == input.retryAt
    requires Lookup(post.retryAt, id) == RetryAfter(cfg, st, id, v, now) && Lookup(post.failures, id) == FailuresAfter(st, id, v)
    ensures !v.Launched? && !v.Refused? ==>
      Lookup(post.failures, id) == Lookup(input.failures, id) && Lookup(post.retryAt, id) == Lookup(input.retryAt, id)
    ensures v.Launched? ==> id !in post.failures && id !in post.retryAt
    ensures v.Refused? ==>
      var count := 1 + if id in input.failures then input.failures[id] else 0;
      && Lookup(post.failures, id) == Some(count)
      && Lookup(post.retryAt, id) == if count < 1025 then Some(now + Delay(cfg, count).value) else Lookup(input.retryAt, id)
  {
    hide Doubled;
  }

  /** The first wait is the polling interval, or the cap if that is shorter. */
  lemma FirstDelay(cfg: Config)
    ensures Delay(cfg, 1) == Some(if cfg.poll < 300.0 then cfg.poll else 300.0)
  {
  }

  // ---------- dispatch ----------

  /** When the reservation's lease ends. */
  predicate LeaseEnds(cfg: Config, r: Record, t: real) {
    Reservation(r) && r.claimedAt.Some? && t == r.claimedAt.value + cfg.dispatchLease
  }

  predicate LeaseOver(cfg: Config, r: Record, now: real) {
    Reservation(r) && r.claimedAt.Some? && r.claimedAt.value + cfg.dispatchLease <= now
  }

  /** The pass changed a session before it came to the dispatch. */
  ghost predicate RegistryTouched(w: World, calls: Calls) {
    w.recovered(calls.due) != map[] || exists id | id in calls.started :: w.start(id).Some?
  }

  ghost predicate DispatchesNow(cfg: Config, trigger: Trigger, w: World, calls: Calls, now: real) {
    || trigger.full
    || (exists r | r in Active(w, calls) :: LeaseOver(cfg, r, now))
    || ((exists r | r in Active(w, calls) :: Waits(r)) && (trigger.registryChanged || RegistryTouched(w, calls)))
  }

  /** A pass that does not raise dispatches in a full pass; when the lease of a reservation is over; or when something waits
      in the queue and the registry changed, before the pass or by it. */
  lemma DispatchedExactly(cfg: Config, s: State, trigger: Trigger, w: World, now: real, s': State,
    result: Result<Outcome, Error>, calls: Calls)
    requires Pass(cfg, s, trigger, w, now, s', result, calls)
    ensures calls.dispatched <==> result.Success? && DispatchesNow(cfg, trigger, w, calls, now)
  {
    var active := Active(w, calls);
    assert active == Snapshot(cfg, s.watch, w, trigger, now);
    var before := ChangedBefore(w.recovered(calls.due), w, calls.started);
    assert calls.dispatched <==> result.Success? && DispatchDue(cfg, active, trigger, now, before != map[]);
    hide *;
    AnythingChanged(w, calls);
    DispatchIsDue(cfg, trigger, w, calls, now, before != map[]);
  }

  lemma DispatchIsDue(cfg: Config, trigger: Trigger, w: World, calls: Calls, now: real, changed: bool)
    requires changed <==> RegistryTouched(w, calls)
    ensures DispatchDue(cfg, Active(w, calls), trigger, now, changed) <==> DispatchesNow(cfg, trigger, w, calls, now)
  {
    forall r ensures LeaseOver(cfg, r, now) <==> Lapsed(cfg, r, now) { }
    hide Active, RegistryTouched, LeaseOver, Lapsed;
  }

  lemma AnythingChanged(w: World, calls: Calls)
    ensures ChangedBefore(w.recovered(calls.due), w, calls.started) != map[] <==> RegistryTouched(w, calls)
  {
    var before := ChangedBefore(w.recovered(calls.due), w, calls.started);
    forall id ensures id in before <==> id in w.recovered(calls.due) || (id in calls.started && w.start(id).Some?) { }
    assert before != map[] ==> exists id :: id in before;
    assert w.recovered(calls.due) != map[] ==> exists id :: id in w.recovered(calls.due);
  }

  // ---------- the outcome ----------

  /** What a pass reports: each changed session with its last record; and each probed worker whose process was seen alive, or
      could not be judged, unless its session is changed and no longer active. */
  lemma OutcomeTells(cfg: Config, s: State, trigger: Trigger, w: World, now: real, s': State,
    result: Result<Outcome, Error>, calls: Calls, id: string)
    requires Pass(cfg, s, trigger, w, now, s', result, calls) && result.Success?
    ensures Lookup(result.value.changed, id) ==
      if calls.dispatched && id in w.dispatched then Some(w.dispatched[id])
      else if id in calls.started && w.start(id).Some? then w.start(id)
      else Lookup(w.recovered(calls.due), id)
    ensures Lookup(result.value.workers, id) ==
      if id in s'.watch.probed && (s'.watch.probed[id].state == Live || s'.watch.probed[id].state == Unknown)
        && (id in result.value.changed ==> Sessions.Active(result.value.changed[id].status))
      then Some(s'.watch.probed[id].pid) else None
  {
    var before := ChangedBefore(w.recovered(calls.due), w, calls.started);
    ChangedAt(w.recovered(calls.due), w, calls.started, id);
    assert result.value.changed == before + if calls.dispatched then w.dispatched else map[];
    assert result.value.workers == Watchable(s'.watch, result.value.changed);
    hide Pass, ChangedBefore;
  }

  /** The moments that a pass still has ahead of it: the deadline of each fresh heartbeat, the next rescan, the retry time of
      each candidate that waits for it, and the end of each reservation's lease. */
  ghost predicate Ahead(cfg: Config, w: World, s': State, calls: Calls, now: real, t: real) {
    || (exists r | r in w.first :: HasWorker(r) && r.lastActive != 0.0 && !r.heartbeatStale && now <= t == r.lastActive + cfg.staleAfter)
    || (cfg.rescan.Some? && s'.scannedAt.Some? && t == s'.scannedAt.value + cfg.rescan.value)
    || (exists id | id in s'.input.retryAt :: Candidate(w, calls, s'.input.files, id) && now < t == s'.input.retryAt[id])
    || (exists r | r in Active(w, calls) :: LeaseEnds(cfg, r, t) && t > now)
  }

  lemma AheadIsPending(cfg: Config, w: World, s': State, calls: Calls, now: real, t: real)
    ensures Ahead(cfg, w, s', calls, now, t) <==> Pending(cfg, w, s'.scannedAt, s'.input, Active(w, calls), now, t)
  {
    forall r { TrackedIs(r); }
    hide Active, Tracked, HasWorker;
    assert forall id :: IsActive(Active(w, calls), id) <==> HasSession(Active(w, calls), id);
    hide IsActive, HasSession;
  }

  /** `next_due_at` is the earliest of those moments, and absent exactly when there is none. */
  lemma NextDueIsEarliest(cfg: Config, s: State, trigger: Trigger, w: World, now: real, s': State,
    result: Result<Outcome, Error>, calls: Calls)
    requires Pass(cfg, s, trigger, w, now, s', result, calls) && result.Success?
    ensures match result.value.nextDue
      case None => forall t :: !Ahead(cfg, w, s', calls, now, t)
      case Some(d) => Ahead(cfg, w, s', calls, now, d) && forall t :: Ahead(cfg, w, s', calls, now, t) ==> d <= t
  {
    assert Active(w, calls) == Snapshot(cfg, s.watch, w, trigger, now);
    assert IsNext(cfg, w, s'.scannedAt, s'.input, Active(w, calls), now, result.value.nextDue);
    forall t { AheadIsPending(cfg, w, s', calls, now, t); }
    hide Pass, Ahead, Pending, Active, Snapshot;
  }
}
