/** The rows of `cloud.runs`, `cloud.run_attempts` and `cloud.run_events`, and the statements and
    transactions that change them, each as one atomic step at a clock reading. */
module RunState {
  import opened Outcomes

  type RunId = nat
  type RunnerId = nat

  /** Database time in microseconds. */
  type Time = int

  const SECOND: Time := 1_000_000

  datatype RunStatus = Created | WaitingForRunner | Running | Completed | Failed | Cancelled {
    predicate Queued() { Created? || WaitingForRunner? }

    predicate Terminal() { Completed? || Failed? || Cancelled? }
  }

  datatype AttemptStatus = Working | Succeeded | Broken | Expired

  datatype Message =
    | PreviousLeaseExpired
    | WorkerLeaseExpired
    | CancelledByOwner(reason: string)
    | Reported(text: string)

  datatype Run = Run(
    status: RunStatus,
    packageDigest: string,
    owner: Option<string>,
    createdAt: Time,
    startedAt: Option<Time>,
    completedAt: Option<Time>,
    error: Option<Message>)

  /** Attempt rows are never deleted; an attempt is named by its position in insertion order. */
  datatype Attempt = Attempt(
    runId: RunId,
    runner: RunnerId,
    status: AttemptStatus,
    leaseExpiresAt: Time,
    heartbeatAt: Time,
    startedAt: Time,
    endedAt: Option<Time>,
    error: Option<Message>,
    tokenHash: nat)

  /** An event may name no attempt, or one the writer did not check. */
  datatype Event = Event(runId: RunId, attemptId: Option<nat>, seqNo: int, eventType: string)

  datatype Db = Db(runs: map<RunId, Run>, attempts: seq<Attempt>, events: seq<Event>)

  const EMPTY: Db := Db(map[], [], [])

  // ---- claim ----

  /** The state after a runner claims the queued run `r`. */
  function Claim(s: Db, now: Time, r: RunId, runner: RunnerId, leaseSeconds: nat, tokenHash: nat): Db
    requires r in s.runs
  {
    var run := s.runs[r];
    var startedAt := if run.startedAt.Some? then run.startedAt else Some(now);
    s.(attempts := s.attempts + [Attempt(r, runner, Working, now + leaseSeconds * SECOND, now, now, None, None, tokenHash)],
       runs := s.runs[r := run.(status := Running, startedAt := startedAt, error := None)])
  }

  // ---- lease-guarded statements ----

  /** The guard shared by heartbeat, event, complete and fail: the attempt is this runner's,
      still running, and its lease has not passed. */
  predicate Held(s: Db, now: Time, a: nat, runner: RunnerId) {
    a < |s.attempts| && s.attempts[a].runner == runner && Live(s, now, a)
  }

  predicate Live(s: Db, now: Time, a: nat) {
    a < |s.attempts| && s.attempts[a].status == Working && s.attempts[a].leaseExpiresAt >= now
  }

  function Heartbeat(s: Db, now: Time, a: nat, leaseSeconds: nat): Db
    requires a < |s.attempts|
  {
    s.(attempts := s.attempts[a := s.attempts[a].(heartbeatAt := now, leaseExpiresAt := now + leaseSeconds * SECOND)])
  }

  /** `max(seq)` over the events of a run. */
  function MaxSeq(events: seq<Event>, r: RunId): (m: Option<int>)
    ensures m.Some? <==> exists i :: 0 <= i < |events| && events[i].runId == r
    ensures m.Some? ==> forall i :: 0 <= i < |events| && events[i].runId == r ==> events[i].seqNo <= m.value
    ensures m.Some? ==> exists i :: 0 <= i < |events| && events[i].runId == r && events[i].seqNo == m.value
  {
    if events == [] then None else
      var last, rest := events[|events| - 1], MaxSeq(events[..|events| - 1], r);
      assert events == events[..|events| - 1] + [last];
      if last.runId != r then rest
      else if rest.Some? && rest.value > last.seqNo then rest
      else Some(last.seqNo)
  }

  /** `coalesce((select max(seq) + 1 ...), 1)`. */
  function NextSeq(events: seq<Event>, r: RunId): int {
    var max := MaxSeq(events, r);
    if max.Some? then max.value + 1 else 1
  }

  function AppendEvent(s: Db, a: nat, eventType: string): Db
    requires a < |s.attempts|
  {
    var r := s.attempts[a].runId;
    s.(events := s.events + [Event(r, Some(a), NextSeq(s.events, r), eventType)])
  }

  // ---- access requests and read audits ----

  /** `appendAccessRequestEvent`: no lease and no status is checked, and the attempt is whatever the caller recorded. */
  function AppendAccessEvent(s: Db, r: RunId, attempt: Option<nat>, eventType: string): Db {
    s.(events := s.events + [Event(r, attempt, NextSeq(s.events, r), eventType)])
  }

  /** The foreign keys of `cloud.run_events`: the run exists, and so does the attempt, of whatever run. */
  predicate Referenced(s: Db, r: RunId, attempt: Option<nat>) {
    r in s.runs && (attempt.Some? ==> attempt.value < |s.attempts|)
  }

  /** Closing an attempt together with its run. */
  function Settle(s: Db, now: Time, a: nat, attemptStatus: AttemptStatus, runStatus: RunStatus, error: Option<Message>): Db
    requires a < |s.attempts| && s.attempts[a].runId in s.runs
  {
    var attempt := s.attempts[a];
    s.(attempts := s.attempts[a := attempt.(status := attemptStatus, endedAt := Some(now), error := if error.Some? then error else attempt.error)],
       runs := s.runs[attempt.runId := s.runs[attempt.runId].(status := runStatus, completedAt := Some(now), error := error)])
  }

  // ---- owner and scheduler statements ----

  function Cancel(s: Db, now: Time, r: RunId, reason: string): Db
    requires r in s.runs
  {
    s.(runs := s.runs[r := s.runs[r].(status := Cancelled, completedAt := Some(now), error := Some(CancelledByOwner(reason)))])
  }

  function FailQueued(s: Db, now: Time, r: RunId, message: string): Db
    requires r in s.runs
  {
    s.(runs := s.runs[r := s.runs[r].(status := Failed, completedAt := Some(now), error := Some(Reported(message)))])
  }

  // ---- the sweeper ----

  predicate Lapsed(a: Attempt, now: Time) {
    a.status == Working && a.leaseExpiresAt < now
  }

  function ExpireAttempt(a: Attempt, now: Time): Attempt {
    if Lapsed(a, now) then a.(status := Expired, endedAt := Some(now), error := Some(WorkerLeaseExpired)) else a
  }

  predicate HasLapsed(attempts: seq<Attempt>, now: Time, r: RunId) {
    exists i :: 0 <= i < |attempts| && attempts[i].runId == r && Lapsed(attempts[i], now)
  }

  function Requeue(run: Run): Run {
    run.(status := WaitingForRunner, error := Some(PreviousLeaseExpired))
  }

  /** Every lapsed attempt expires; a run goes back to the queue if it was running and lost an attempt. */
  function Expire(s: Db, now: Time): Db {
    s.(attempts := seq(|s.attempts|, i requires 0 <= i < |s.attempts| => ExpireAttempt(s.attempts[i], now)),
       runs := map r | r in s.runs :: if s.runs[r].status == Running && HasLapsed(s.attempts, now, r) then Requeue(s.runs[r]) else s.runs[r])
  }

  // ---- lifecycle events of a runner instance ----

  predicate Involved(a: Attempt, runner: RunnerId) {
    a.runner == runner && a.status == Working
  }

  /** `row_number() over (partition by run_id order by started_at desc, attempt_id)`. */
  function SeqOffset(attempts: seq<Attempt>, runner: RunnerId, i: nat): int
    requires i < |attempts|
  {
    1 + |set j | 0 <= j < |attempts| && Involved(attempts[j], runner) && attempts[j].runId == attempts[i].runId
           && (attempts[j].startedAt > attempts[i].startedAt || (attempts[j].startedAt == attempts[i].startedAt && j < i))|
  }

  /** The event inserted for a running attempt. */
  function LifecycleEvent(s: Db, runner: RunnerId, eventType: string, i: nat): Event
    requires i < |s.attempts|
  {
    var r := s.attempts[i].runId;
    var max := MaxSeq(s.events, r);
    Event(r, Some(i), (if max.Some? then max.value else 0) + SeqOffset(s.attempts, runner, i), eventType)
  }

  /** One event for every running attempt of the runner from position `i` on. */
  function LifecycleEvents(s: Db, runner: RunnerId, eventType: string, i: nat): seq<Event>
    requires i <= |s.attempts|
    decreases |s.attempts| - i
  {
    if i == |s.attempts| then []
    else if !Involved(s.attempts[i], runner) then LifecycleEvents(s, runner, eventType, i + 1)
    else [LifecycleEvent(s, runner, eventType, i)] + LifecycleEvents(s, runner, eventType, i + 1)
  }

  // ---- steps and histories ----

  datatype Action =
    | CreateRun(run: RunId, packageDigest: string, owner: Option<string>)
    | ClaimRun(run: RunId, runner: RunnerId, leaseSeconds: nat, tokenHash: nat)
    | HeartbeatAttempt(attempt: nat, runner: RunnerId, leaseSeconds: nat)
    | AppendRunEvent(attempt: nat, runner: RunnerId, eventType: string)
    | CompleteAttempt(attempt: nat, runner: RunnerId)
    | FailAttempt(attempt: nat, runner: RunnerId, message: string)
    | CancelRun(run: RunId, reason: string)
    | FailQueuedRun(run: RunId, message: string)
    | ExpireLeases
    | RecordLifecycle(runner: RunnerId, eventType: string)
    | RecordAccess(run: RunId, named: Option<nat>, eventType: string)

  /** Whether the step takes effect; a step that does not is refused and rolled back. */
  predicate Accepts(s: Db, now: Time, action: Action) {
    match action
    case CreateRun(r, _, _) => r !in s.runs
    case ClaimRun(r, _, _, _) => r in s.runs && s.runs[r].status.Queued()
    case HeartbeatAttempt(a, runner, _) => Held(s, now, a, runner)
    case AppendRunEvent(a, runner, _) => Held(s, now, a, runner)
    case CompleteAttempt(a, runner) => Held(s, now, a, runner) && RunIs(s, a, Running)
    case FailAttempt(a, runner, _) => Held(s, now, a, runner) && RunIs(s, a, Running)
    case CancelRun(r, _) => r in s.runs && !s.runs[r].status.Terminal()
    case FailQueuedRun(r, _) => r in s.runs && s.runs[r].status.Queued()
    case ExpireLeases => true
    case RecordLifecycle(_, _) => true
    case RecordAccess(r, named, _) => Referenced(s, r, named)
  }

  predicate RunIs(s: Db, a: nat, status: RunStatus)
    requires a < |s.attempts|
  {
    s.attempts[a].runId in s.runs && s.runs[s.attempts[a].runId].status == status
  }

  function Next(s: Db, now: Time, action: Action): Db {
    if !Accepts(s, now, action) then s else
      match action
      case CreateRun(r, digest, owner) => s.(runs := s.runs[r := Run(Created, digest, owner, now, None, None, None)])
      case ClaimRun(r, runner, leaseSeconds, tokenHash) => Claim(s, now, r, runner, leaseSeconds, tokenHash)
      case HeartbeatAttempt(a, _, leaseSeconds) => Heartbeat(s, now, a, leaseSeconds)
      case AppendRunEvent(a, _, eventType) => AppendEvent(s, a, eventType)
      case CompleteAttempt(a, _) => Settle(s, now, a, Succeeded, Completed, None)
      case FailAttempt(a, _, message) => Settle(s, now, a, Broken, Failed, Some(Reported(message)))
      case CancelRun(r, reason) => Cancel(s, now, r, reason)
      case FailQueuedRun(r, message) => FailQueued(s, now, r, message)
      case ExpireLeases => Expire(s, now)
      case RecordLifecycle(runner, eventType) => s.(events := s.events + LifecycleEvents(s, runner, eventType, 0))
      case RecordAccess(r, named, eventType) => AppendAccessEvent(s, r, named, eventType)
  }

  datatype Entry = Entry(now: Time, action: Action)

  /** The clock of the database never goes back. */
  predicate Ordered(log: seq<Entry>) {
    forall i, j :: 0 <= i < j < |log| ==> log[i].now <= log[j].now
  }

  function After(s: Db, log: seq<Entry>): Db {
    if log == [] then s
    else Next(After(s, log[..|log| - 1]), log[|log| - 1].now, log[|log| - 1].action)
  }
}
