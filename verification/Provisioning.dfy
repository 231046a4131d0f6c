/** Provision requests of runner pools, and the controller that reconciles one pool. */
module Provisioning {
  import opened Outcomes
  import opened Texts
  import RunState
  import RunRepositories

  type PoolId = nat
  type RunId = nat
  type InstanceId = nat

  datatype Status = Requested | Provisioning | Active | Failed | Reaped {
    predicate Open() { Requested? || Provisioning? }
  }

  datatype Request = Request(
    pool: PoolId,
    run: RunId,
    status: Status,
    provider: Option<string>,
    name: Option<string>,
    instance: Option<InstanceId>,
    updatedAt: int)

  /** Rows are never deleted; a request is named by its position. */
  type Store = seq<Request>

  datatype Statement =
    | Create(pool: PoolId, run: RunId)
    | MarkProvisioning(id: nat, provider: Option<string>, name: Option<string>)
    | FailRequest(id: nat)
    | MarkReaped(id: nat)
    | FailStale(pool: PoolId, timeout: nat)
    | Register(id: nat, pool: PoolId, instance: InstanceId, provider: Option<string>, instanceName: string)

  function Coalesce(a: Option<string>, b: Option<string>): Option<string> { if a.Some? then a else b }

  /** Whether a statement changes the row it names. */
  predicate Accepts(s: Store, st: Statement) {
    match st
    case Create(_, _) => true
    case MarkProvisioning(id, _, _) => id < |s| && (s[id].status.Open() || s[id].status.Active?)
    case FailRequest(id) => id < |s| && !s[id].status.Reaped?
    case MarkReaped(id) => id < |s| && s[id].status in {Provisioning, Active, Failed}
    case FailStale(_, _) => true
    case Register(id, pool, _, _, _) => id < |s| && s[id].pool == pool && s[id].status.Open()
  }

  predicate Stale(r: Request, pool: PoolId, timeout: nat, now: int) {
    r.pool == pool && r.status.Open() && r.provider.None? && r.updatedAt < now - timeout
  }

  function TimeOut(r: Request, pool: PoolId, timeout: nat, now: int): Request {
    if Stale(r, pool, timeout, now) then r.(status := Failed, updatedAt := now) else r
  }

  function Apply(s: Store, now: int, st: Statement): Store {
    if !Accepts(s, st) then s else
      match st
      case Create(pool, run) => s + [Request(pool, run, Requested, None, None, None, now)]
      case MarkProvisioning(id, provider, name) =>
        s[id := s[id].(status := if s[id].status.Active? then Active else Provisioning,
                       provider := Coalesce(provider, s[id].provider), name := Coalesce(name, s[id].name), updatedAt := now)]
      case FailRequest(id) => s[id := s[id].(status := if s[id].status.Active? then Active else Failed, updatedAt := now)]
      case MarkReaped(id) => s[id := s[id].(status := Reaped, updatedAt := now)]
      case FailStale(pool, timeout) => seq(|s|, i requires 0 <= i < |s| => TimeOut(s[i], pool, timeout, now))
      case Register(id, _, instance, provider, instanceName) =>
        s[id := s[id].(status := Active, instance := Some(instance), provider := Coalesce(s[id].provider, provider),
                       name := Coalesce(s[id].name, Some(instanceName)), updatedAt := now)]
  }

  // ---- what each statement writes ----

  /** The statuses a statement finds a row in, and the one it leaves it in. */
  function Transitions(st: Statement): set<(Status, Status)> {
    match st
    case Create(_, _) => {}
    case MarkProvisioning(_, _, _) => {(Requested, Provisioning), (Provisioning, Provisioning), (Active, Active)}
    case FailRequest(_) => {(Requested, Failed), (Provisioning, Failed), (Failed, Failed), (Active, Active)}
    case MarkReaped(_) => {(Provisioning, Reaped), (Active, Reaped), (Failed, Reaped)}
    case FailStale(_, _) => {(Requested, Failed), (Provisioning, Failed)}
    case Register(_, _, _, _, _) => {(Requested, Active), (Provisioning, Active)}
  }

  /** The rows a statement is about, whatever their status: one by its identifier, or those of a pool that no provider
      has answered for and that are untouched for longer than the timeout. */
  predicate Concerns(st: Statement, now: int, i: nat, r: Request) {
    match st
    case Create(_, _) => false
    case MarkProvisioning(id, _, _) => i == id
    case FailRequest(id) => i == id
    case MarkReaped(id) => i == id
    case FailStale(pool, timeout) => r.pool == pool && r.provider == None && now - r.updatedAt > timeout
    case Register(id, pool, _, _, _) => i == id && r.pool == pool
  }

  /** A reported provider replaces the recorded one; a registering instance only fills in what is not recorded. */
  predicate Recorded(st: Statement, a: Request, b: Request) {
    match st
    case MarkProvisioning(_, provider, name) =>
      && b.provider == (if provider == None then a.provider else provider)
      && b.name == (if name == None then a.name else name)
      && b.instance == a.instance
    case Register(_, _, instance, provider, instanceName) =>
      && b.instance == Some(instance)
      && b.provider == (if a.provider == None then provider else a.provider)
      && b.name == (if a.name == None then Some(instanceName) else a.name)
    case _ => b.instance == a.instance && b.provider == a.provider && b.name == a.name
  }

  /** A statement writes exactly the rows it concerns whose status is one it starts from, and only their status, time
      and what it reports; a new request is appended. */
  lemma {:induction false} StatementWrites(s: Store, now: int, st: Statement)
    ensures var t := Apply(s, now, st);
            && (if st.Create? then t == s + [Request(st.pool, st.run, Requested, None, None, None, now)] else |t| == |s|)
            && forall i :: 0 <= i < |s| ==>
                 if Concerns(st, now, i, s[i]) && (exists to :: (s[i].status, to) in Transitions(st)) then
                   && (s[i].status, t[i].status) in Transitions(st) && t[i].updatedAt == now
                   && t[i].pool == s[i].pool && t[i].run == s[i].run && Recorded(st, s[i], t[i])
                 else t[i] == s[i]
  {
    var t := Apply(s, now, st);
    forall i | 0 <= i < |s| && Concerns(st, now, i, s[i])
      ensures (exists to :: (s[i].status, to) in Transitions(st)) <==>
              (s[i].status.Open() || (s[i].status.Active? && (st.MarkProvisioning? || st.FailRequest? || st.MarkReaped?))
               || (s[i].status.Failed? && (st.FailRequest? || st.MarkReaped?))) && !(st.MarkReaped? && s[i].status.Requested?)
    {
      Starts(st, s[i].status);
    }
  }

  lemma {:induction false} Starts(st: Statement, a: Status)
    requires !st.Create?
    ensures (exists to :: (a, to) in Transitions(st)) <==>
            (a.Open() || (a.Active? && (st.MarkProvisioning? || st.FailRequest? || st.MarkReaped?))
             || (a.Failed? && (st.FailRequest? || st.MarkReaped?))) && !(st.MarkReaped? && a.Requested?)
  {
    var ts := Transitions(st);
    assert (a, Provisioning) in ts || (a, Active) in ts || (a, Failed) in ts || (a, Reaped) in ts || forall to :: (a, to) !in ts;
  }

  // ---- the life of a request ----

  /** What may become of a request: a reaped one stays as it is, an active one is never failed, a closed one never
      opens again, and its instance and provider are recorded once. */
  predicate Succeeds(a: Request, b: Request) {
    && b.pool == a.pool && b.run == a.run
    && (a.status.Reaped? ==> b == a)
    && (a.status.Active? ==> b.status in {Active, Reaped})
    && (a.status.Failed? ==> b.status in {Failed, Reaped})
    && (a.instance.Some? ==> b.instance == a.instance)
    && (a.provider.Some? ==> b.provider.Some?)
    && (a.name.Some? ==> b.name.Some?)
  }

  /** The instance of a request is recorded exactly when it has become active. */
  predicate Sound(r: Request) {
    && (r.status.Active? ==> r.instance.Some?)
    && (r.instance.Some? ==> r.status.Active? || r.status.Reaped?)
  }

  ghost predicate AllSound(s: Store) { forall i :: 0 <= i < |s| ==> Sound(s[i]) }

  lemma ApplySucceeds(s: Store, now: int, st: Statement)
    requires AllSound(s)
    ensures var t := Apply(s, now, st);
            && AllSound(t) && |s| <= |t|
            && (forall i :: 0 <= i < |s| ==> Succeeds(s[i], t[i]))
  {
  }

  datatype Logged = Logged(now: int, statement: Statement)

  function ApplyAll(s: Store, log: seq<Logged>): Store {
    if log == [] then s else Apply(ApplyAll(s, log[..|log| - 1]), log[|log| - 1].now, log[|log| - 1].statement)
  }

  lemma SucceedsTransitive(a: Request, b: Request, c: Request)
    requires Succeeds(a, b) && Succeeds(b, c)
    ensures Succeeds(a, c)
  {
  }

  /** In every history no request is demoted from active to failed or revived from a closed status, reaped is final,
      and an instance is assigned at most once. */
  lemma {:induction false} RequestsOnlyProgress(s: Store, log: seq<Logged>)
    requires AllSound(s)
    ensures var t := ApplyAll(s, log);
            AllSound(t) && |s| <= |t| && forall i :: 0 <= i < |s| ==> Succeeds(s[i], t[i])
  {
    if log != [] {
      var m := ApplyAll(s, log[..|log| - 1]);
      RequestsOnlyProgress(s, log[..|log| - 1]);
      ApplySucceeds(m, log[|log| - 1].now, log[|log| - 1].statement);
      var t := ApplyAll(s, log);
      hide Apply, Succeeds, Sound;
      forall i | 0 <= i < |s| ensures Succeeds(s[i], t[i]) { SucceedsTransitive(s[i], m[i], t[i]); }
    }
  }

  // ---- one controller among other actors ----

  /** Where the controller of a pool is: between passes, going through the demand it listed together with the runs that
      had an open request at that time, or serving a request it has just created. */
  datatype Phase =
    | Idle
    | Scanning(todo: seq<RunId>, listed: set<RunId>)
    | Serving(id: nat, todo: seq<RunId>, listed: set<RunId>)

  datatype Machine = Machine(store: Store, phase: Phase)

  datatype Step =
    | Sweep(statement: Statement)
    | List(demand: seq<RunId>)
    | Skip
    | Provision(refused: bool)
    | Serve(statement: Statement)
    | Served
    | Stop
    | Elsewhere(statement: Statement)

  predicate OpenFor(r: Request, pool: PoolId, run: RunId) { r.pool == pool && r.run == run && r.status.Open() }

  function OpenRuns(s: Store, pool: PoolId): set<RunId> {
    set i | 0 <= i < |s| && s[i].pool == pool && s[i].status.Open() :: s[i].run
  }

  /** The demand lists each run once; only the controller of the pool creates its requests. */
  predicate Enabled(pool: PoolId, m: Machine, step: Step) {
    match step
    case Sweep(st) => m.phase.Idle? && (st.FailStale? || st.MarkReaped?)
    case List(demand) => m.phase.Idle? && Distinct(demand)
    case Skip => m.phase.Scanning? && m.phase.todo != []
    case Provision(_) => m.phase.Scanning? && m.phase.todo != [] && m.phase.todo[0] !in m.phase.listed
    case Serve(st) => m.phase.Serving? && ((st.MarkProvisioning? && st.id == m.phase.id) || (st.FailRequest? && st.id == m.phase.id))
    case Served => m.phase.Serving?
    case Stop => true
    case Elsewhere(st) => st.Create? ==> st.pool != pool
  }

  function Take(pool: PoolId, m: Machine, now: int, step: Step): Machine
    requires Enabled(pool, m, step)
  {
    match step
    case Sweep(st) => m.(store := Apply(m.store, now, st))
    case List(demand) => m.(phase := Scanning(demand, OpenRuns(m.store, pool)))
    case Skip => m.(phase := Scanning(m.phase.todo[1..], m.phase.listed))
    case Provision(refused) =>
      var rest := m.phase.todo[1..];
      if refused then m.(phase := Scanning(rest, m.phase.listed))
      else Machine(Apply(m.store, now, Create(pool, m.phase.todo[0])), Serving(|m.store|, rest, m.phase.listed))
    case Serve(st) => m.(store := Apply(m.store, now, st))
    case Served => m.(phase := Scanning(m.phase.todo, m.phase.listed))
    case Stop => m.(phase := Idle)
    case Elsewhere(st) => m.(store := Apply(m.store, now, st))
  }

  ghost predicate OnePerRun(s: Store, pool: PoolId) {
    forall i, j :: 0 <= i < j < |s| && s[i].run == s[j].run ==> !(OpenFor(s[i], pool, s[i].run) && OpenFor(s[j], pool, s[j].run))
  }

  /** Runs still to be looked at have an open request only if it was listed. */
  ghost predicate Current(s: Store, pool: PoolId, todo: seq<RunId>, listed: set<RunId>) {
    && Distinct(todo)
    && forall i :: 0 <= i < |s| && OpenFor(s[i], pool, s[i].run) ==> s[i].run in listed || s[i].run !in todo
  }

  ghost predicate Inv(pool: PoolId, m: Machine) {
    && OnePerRun(m.store, pool)
    && match m.phase
       case Idle => true
       case Scanning(todo, listed) => Current(m.store, pool, todo, listed)
       case Serving(_, todo, listed) => Current(m.store, pool, todo, listed)
  }

  /** A statement that creates nothing for the pool opens nothing there. */
  lemma OpensNothing(s: Store, pool: PoolId, now: int, st: Statement)
    requires st.Create? ==> st.pool != pool
    ensures var t := Apply(s, now, st);
            && |s| <= |t|
            && (forall i :: 0 <= i < |s| && OpenFor(t[i], pool, t[i].run) ==> OpenFor(s[i], pool, s[i].run) && t[i].run == s[i].run)
            && (forall i :: |s| <= i < |t| ==> t[i].pool != pool)
  {
  }

  lemma {:induction false} KeepsOnePerRun(s: Store, pool: PoolId, now: int, st: Statement)
    requires (st.Create? ==> st.pool != pool) && OnePerRun(s, pool)
    ensures OnePerRun(Apply(s, now, st), pool)
    ensures forall todo, listed :: Current(s, pool, todo, listed) ==> Current(Apply(s, now, st), pool, todo, listed)
  {
    OpensNothing(s, pool, now, st);
    hide Apply;
  }

  lemma {:induction false} CreatesOne(s: Store, pool: PoolId, now: int, todo: seq<RunId>, listed: set<RunId>)
    requires OnePerRun(s, pool) && Current(s, pool, todo, listed) && todo != [] && todo[0] !in listed
    ensures forall i :: 0 <= i < |s| ==> !OpenFor(s[i], pool, todo[0])
    ensures var t := Apply(s, now, Create(pool, todo[0])); OnePerRun(t, pool) && Current(t, pool, todo[1..], listed)
  {
    assert todo[0] in todo;
    TailDistinct(todo);
  }

  lemma TailDistinct(todo: seq<RunId>)
    requires Distinct(todo) && todo != []
    ensures Distinct(todo[1..]) && todo[0] !in todo[1..] && forall r :: r in todo[1..] ==> r in todo
  {
  }

  /** Every step of the controller, and every statement of other actors in between, keeps at most one open request
      for each run of the pool; no unique index is needed for that. */
  lemma {:induction false} TakeKeeps(pool: PoolId, m: Machine, now: int, step: Step)
    requires Inv(pool, m) && Enabled(pool, m, step)
    ensures Inv(pool, Take(pool, m, now, step))
  {
    match step
    case Sweep(st) => KeepsOnePerRun(m.store, pool, now, st);
    case Serve(st) => KeepsOnePerRun(m.store, pool, now, st);
    case Elsewhere(st) => KeepsOnePerRun(m.store, pool, now, st);
    case Skip => TailDistinct(m.phase.todo);
    case Provision(refused) =>
      TailDistinct(m.phase.todo);
      if !refused { CreatesOne(m.store, pool, now, m.phase.todo, m.phase.listed); }
    case List(demand) =>
    case _ =>
  }

  datatype Event = Event(now: int, step: Step)

  ghost predicate Reaches(pool: PoolId, m: Machine, events: seq<Event>, last: Machine)
    decreases |events|
  {
    if events == [] then last == m
    else Enabled(pool, m, events[0].step) && Reaches(pool, Take(pool, m, events[0].now, events[0].step), events[1..], last)
  }

  /** In every reachable state, each run of the pool has at most one request that is requested or provisioning. */
  lemma {:induction false} AtMostOneOpenRequest(pool: PoolId, events: seq<Event>, last: Machine)
    requires Reaches(pool, Machine([], Idle), events, last)
    ensures OnePerRun(last.store, pool)
  {
    ReachesKeeps(pool, Machine([], Idle), events, last);
  }

  lemma {:induction false} ReachesKeeps(pool: PoolId, m: Machine, events: seq<Event>, last: Machine)
    requires Inv(pool, m) && Reaches(pool, m, events, last)
    ensures Inv(pool, last)
    decreases |events|
  {
    if events != [] {
      TakeKeeps(pool, m, events[0].now, events[0].step);
      ReachesKeeps(pool, Take(pool, m, events[0].now, events[0].step), events[1..], last);
    }
  }

  // ---- the repository and the controller's pass as they run ----

  datatype HttpError = ProvisionRequestNotFound | ProvisionRequestClosed

  class RunnerRepository {
    var requests: Store

    constructor ()
      ensures requests == []
    {
      requests := [];
    }

    /** `on conflict do nothing`: `refused` says that a constraint of the table turned the row away. */
    method CreateProvisionRequest(now: int, pool: PoolId, run: RunId, refused: bool) returns (id: Option<nat>)
      modifies this
      ensures refused ==> id == None && requests == old(requests)
      ensures !refused ==> id == Some(|old(requests)|) && requests == Apply(old(requests), now, Create(pool, run))
    {
      if refused { return None; }
      id := Some(|requests|);
      requests := requests + [Request(pool, run, Requested, None, None, None, now)];
    }

    method SetProvisioning(now: int, id: nat, provider: Option<string>,
                           name: Option<string>) returns (r: Result<Request, HttpError>)
      modifies this
      ensures requests == Apply(old(requests), now, MarkProvisioning(id, provider, name))
      ensures if Accepts(old(requests), MarkProvisioning(id, provider, name)) then id < |requests| && r == Ok(requests[id])
              else r == Err(ProvisionRequestNotFound)
    {
      if id >= |requests| || !(requests[id].status.Open() || requests[id].status.Active?) { return Err(ProvisionRequestNotFound); }
      var row := requests[id];
      if !row.status.Active? { row := row.(status := Provisioning); }
      requests := requests[id := row.(provider := Coalesce(provider, row.provider), name := Coalesce(name, row.name), updatedAt := now)];
      return Ok(requests[id]);
    }

    method FailProvisionRequest(now: int, id: nat) returns (r: Result<Request, HttpError>)
      modifies this
      ensures requests == Apply(old(requests), now, FailRequest(id))
      ensures if Accepts(old(requests), FailRequest(id)) then id < |requests| && r == Ok(requests[id]) else r == Err(ProvisionRequestNotFound)
    {
      if id >= |requests| || requests[id].status.Reaped? { return Err(ProvisionRequestNotFound); }
      var row := requests[id];
      if !row.status.Active? { row := row.(status := Failed); }
      requests := requests[id := row.(updatedAt := now)];
      return Ok(requests[id]);
    }

    method MarkProvisionRequestReaped(now: int, id: nat) returns (r: Result<Request, HttpError>)
      modifies this
      ensures requests == Apply(old(requests), now, MarkReaped(id))
      ensures if Accepts(old(requests), MarkReaped(id)) then id < |requests| && r == Ok(requests[id]) else r == Err(ProvisionRequestNotFound)
    {
      if id >= |requests| || requests[id].status !in {Provisioning, Active, Failed} { return Err(ProvisionRequestNotFound); }
      requests := requests[id := requests[id].(status := Reaped, updatedAt := now)];
      return Ok(requests[id]);
    }

    /** The request half of `registerInstance`; the instance row itself is created with the given identifier. */
    method RegisterInstance(now: int, id: nat, pool: PoolId, instance: InstanceId, provider: Option<string>, name: string)
      returns (r: Result<Request, HttpError>)
      modifies this
      ensures requests == Apply(old(requests), now, Register(id, pool, instance, provider, name))
      ensures r.Ok? <==> Accepts(old(requests), Register(id, pool, instance, provider, name))
      ensures r.Err? ==> r.error == if id < |requests| && requests[id].pool == pool then ProvisionRequestClosed else ProvisionRequestNotFound
    {
      if id >= |requests| || requests[id].pool != pool { return Err(ProvisionRequestNotFound); }
      var row := requests[id];
      if !row.status.Open() { return Err(ProvisionRequestClosed); }
      requests := requests[id := row.(status := Active, instance := Some(instance), provider := Coalesce(row.provider, provider),
                                      name := Coalesce(row.name, Some(name)), updatedAt := now)];
      return Ok(requests[id]);
    }
  }

  /** What the provider's command ends with. */
  datatype Outcome = Accepted(provider: string, name: Option<string>) | Broken(permanent: bool, message: string)

  /** The request that a pass leaves behind for a run it serves. */
  function Settled(now: int, pool: PoolId, run: RunId, outcome: Outcome): Request {
    match outcome
    case Accepted(provider, name) => Request(pool, run, Provisioning, Some(provider), name, None, now)
    case Broken(_, _) => Request(pool, run, Failed, None, None, None, now)
  }

  /** The runs a pass serves: those in demand that the pool can take and that had no open request. */
  function ToServe(demand: seq<RunId>, eligible: set<RunId>, listed: set<RunId>): seq<RunId> {
    if demand == [] then [] else
      var init, last := ToServe(demand[..|demand| - 1], eligible, listed), demand[|demand| - 1];
      if last in eligible && last !in listed then init + [last] else init
  }

  function AllSettled(now: int, pool: PoolId, runs: seq<RunId>, outcomes: map<RunId, Outcome>): Store
    requires forall r :: r in runs ==> r in outcomes
  {
    if runs == [] then [] else
      AllSettled(now, pool, runs[..|runs| - 1], outcomes) + [Settled(now, pool, runs[|runs| - 1], outcomes[runs[|runs| - 1]])]
  }

  lemma {:induction false} ToServeFrom(demand: seq<RunId>, eligible: set<RunId>, listed: set<RunId>)
    ensures forall r :: r in ToServe(demand, eligible, listed) <==> r in demand && r in eligible && r !in listed
  {
    if demand != [] {
      ToServeFrom(demand[..|demand| - 1], eligible, listed);
      assert demand == demand[..|demand| - 1] + [demand[|demand| - 1]];
    }
  }

  const PERMANENTLY_FAILED: string := "runner provisioning permanently failed: "

  /** A permanent failure fails the run, if it is still queued. */
  function DeadLetter(db: RunState.Db, now: int, run: RunId, outcome: Outcome): RunState.Db {
    if outcome.Broken? && outcome.permanent
    then RunState.Next(db, now, RunState.FailQueuedRun(run, PERMANENTLY_FAILED + outcome.message))
    else db
  }

  function DeadLetterAll(db: RunState.Db, now: int, runs: seq<RunId>, outcomes: map<RunId, Outcome>): RunState.Db
    requires forall r :: r in runs ==> r in outcomes
  {
    if runs == [] then db else
      var last := runs[|runs| - 1];
      DeadLetter(DeadLetterAll(db, now, runs[..|runs| - 1], outcomes), now, last, outcomes[last])
  }

  /** After the pass no run whose provisioning failed permanently is queued any more: those that were have failed with
      the provider's message. Every other run is as it was. */
  lemma {:induction false} DeadLettersLeaveQueue(db: RunState.Db, now: int, runs: seq<RunId>, outcomes: map<RunId, Outcome>, r: RunId)
    requires (forall q :: q in runs ==> q in outcomes) && r in db.runs
    ensures var t := DeadLetterAll(db, now, runs, outcomes);
            && t.runs.Keys == db.runs.Keys && t.attempts == db.attempts && t.events == db.events
            && if r in runs && outcomes[r].Broken? && outcomes[r].permanent && db.runs[r].status.Queued()
               then t.runs[r].status == RunState.RunStatus.Failed
                    && t.runs[r].error == Some(RunState.Reported(PERMANENTLY_FAILED + outcomes[r].message))
               else t.runs[r] == db.runs[r]
  {
    if runs != [] {
      var init, last := runs[..|runs| - 1], runs[|runs| - 1];
      assert runs == init + [last];
      DeadLettersLeaveQueue(db, now, init, outcomes, r);
    }
  }

  /** `provisionRunner` for a request just created. */
  method ProvisionRunner(repository: RunnerRepository, runs: RunRepositories.RunRepository, now: int, id: nat, outcome: Outcome)
    requires id < |repository.requests| && repository.requests[id].status.Requested? && runs.Valid()
    requires repository.requests[id].provider.None? && repository.requests[id].name.None? && repository.requests[id].instance.None?
    modifies repository, runs
    ensures var was := old(repository.requests);
            && repository.requests == was[id := Settled(now, was[id].pool, was[id].run, outcome)]
            && runs.Valid() && runs.State() == DeadLetter(old(runs.State()), now, was[id].run, outcome)
  {
    var run := repository.requests[id].run;
    var started := repository.SetProvisioning(now, id, None, None);
    if outcome.Accepted? {
      var done := repository.SetProvisioning(now, id, Some(outcome.provider), outcome.name);
    } else {
      var failed := repository.FailProvisionRequest(now, id);
      if outcome.permanent {
        var deadLettered := runs.FailQueuedRun(now, run, PERMANENTLY_FAILED + outcome.message);
      }
    }
  }

  /** One turn of the demand loop for a run that is eligible and has no open request. */
  method ServeRun(repository: RunnerRepository, runs: RunRepositories.RunRepository, now: int, pool: PoolId, run: RunId,
                  refused: bool, outcome: Outcome)
    requires runs.Valid()
    modifies repository, runs
    ensures runs.Valid()
    ensures refused ==> repository.requests == old(repository.requests) && runs.State() == old(runs.State())
    ensures !refused ==> repository.requests == old(repository.requests) + [Settled(now, pool, run, outcome)]
    ensures !refused ==> runs.State() == DeadLetter(old(runs.State()), now, run, outcome)
  {
    var id := repository.CreateProvisionRequest(now, pool, run, refused);
    if id.Some? {
      ProvisionRunner(repository, runs, now, id.value, outcome);
    }
  }

  /** The demand loop of `reconcileOnce`, when no other actor comes in between: it adds exactly one request for each
      eligible run without an open one whose row no constraint refuses, leaves every other request as it was, and
      dead-letters the runs whose provisioning failed permanently. */
  method ReconcileDemand(repository: RunnerRepository, runs: RunRepositories.RunRepository, now: int, pool: PoolId,
                         demand: seq<RunId>, eligible: set<RunId>, refused: set<RunId>, outcomes: map<RunId, Outcome>)
    requires Distinct(demand) && runs.Valid() && forall r :: r in demand ==> r in outcomes
    modifies repository, runs
    ensures var served := ToServe(demand, eligible - refused, OpenRuns(old(repository.requests), pool));
            && (forall r :: r in served ==> r in outcomes)
            && repository.requests == old(repository.requests) + AllSettled(now, pool, served, outcomes)
            && runs.Valid() && runs.State() == DeadLetterAll(old(runs.State()), now, served, outcomes)
    ensures OnePerRun(old(repository.requests), pool) ==> OnePerRun(repository.requests, pool)
  {
    ghost var was, db := repository.requests, runs.State();
    ghost var takes := eligible - refused;
    var listed := OpenRuns(repository.requests, pool);
    assert demand[..0] == [] && demand[0..] == demand;
    assert was + [] == was;
    assert Serves(was, was, db, db, now, pool, demand[..0], takes, listed, outcomes);
    hide ToServe, AllSettled, DeadLetterAll, DeadLetter, Settled, Serves;
    for i := 0 to |demand|
      invariant Serves(was, repository.requests, db, runs.State(), now, pool, demand[..i], takes, listed, outcomes)
      invariant runs.Valid()
      invariant OnePerRun(was, pool) ==> OnePerRun(repository.requests, pool) && Current(repository.requests, pool, demand[i..], listed)
    {
      hide OnePerRun, Current;
      var run := demand[i];
      assert demand[i..][1..] == demand[i + 1..];
      ServesStep(was, repository.requests, db, runs.State(), now, pool, demand, i, takes, listed, outcomes);
      if OnePerRun(was, pool) { SettledKeeps(repository.requests, pool, now, demand[i..], listed, outcomes[run]); }
      if run in eligible && run !in listed {
        ServeRun(repository, runs, now, pool, run, run in refused, outcomes[run]);
      }
    }
    assert demand[..|demand|] == demand;
    ServesAll(was, repository.requests, db, runs.State(), now, pool, demand, takes, listed, outcomes);
  }

  ghost predicate Serves(was: Store, s: Store, db: RunState.Db, t: RunState.Db, now: int, pool: PoolId, demand: seq<RunId>,
                         eligible: set<RunId>, listed: set<RunId>, outcomes: map<RunId, Outcome>) {
    var served := ToServe(demand, eligible, listed);
    && (forall r :: r in served ==> r in outcomes)
    && s == was + AllSettled(now, pool, served, outcomes)
    && t == DeadLetterAll(db, now, served, outcomes)
  }

  lemma ServesAll(was: Store, s: Store, db: RunState.Db, t: RunState.Db, now: int, pool: PoolId, demand: seq<RunId>,
                  eligible: set<RunId>, listed: set<RunId>, outcomes: map<RunId, Outcome>)
    requires Serves(was, s, db, t, now, pool, demand, eligible, listed, outcomes)
    ensures var served := ToServe(demand, eligible, listed);
            && (forall r :: r in served ==> r in outcomes)
            && s == was + AllSettled(now, pool, served, outcomes) && t == DeadLetterAll(db, now, served, outcomes)
  {
  }

  lemma {:induction false} ServesStep(was: Store, s: Store, db: RunState.Db, t: RunState.Db, now: int, pool: PoolId,
                                      demand: seq<RunId>, i: nat, eligible: set<RunId>, listed: set<RunId>,
                                      outcomes: map<RunId, Outcome>)
    requires i < |demand| && demand[i] in outcomes && Serves(was, s, db, t, now, pool, demand[..i], eligible, listed, outcomes)
    ensures var run := demand[i];
            if run in eligible && run !in listed then
              Serves(was, s + [Settled(now, pool, run, outcomes[run])], db, DeadLetter(t, now, run, outcomes[run]), now, pool,
                     demand[..i + 1], eligible, listed, outcomes)
            else Serves(was, s, db, t, now, pool, demand[..i + 1], eligible, listed, outcomes)
  {
    var run, runs := demand[i], ToServe(demand[..i], eligible, listed);
    assert demand[..i + 1][..i] == demand[..i];
    assert (runs + [run])[..|runs|] == runs;
    hide DeadLetter, Settled;
  }

  /** Serving or passing over the next run in demand. */
  lemma {:induction false} SettledKeeps(s: Store, pool: PoolId, now: int, todo: seq<RunId>, listed: set<RunId>, outcome: Outcome)
    requires OnePerRun(s, pool) && Current(s, pool, todo, listed) && todo != []
    ensures Current(s, pool, todo[1..], listed)
    ensures todo[0] !in listed ==>
              var t := s + [Settled(now, pool, todo[0], outcome)]; OnePerRun(t, pool) && Current(t, pool, todo[1..], listed)
  {
    TailDistinct(todo);
    if todo[0] !in listed {
      CreatesOne(s, pool, now, todo, listed);
      var created := Apply(s, now, Create(pool, todo[0]));
      var t := s + [Settled(now, pool, todo[0], outcome)];
      assert forall i :: 0 <= i < |s| ==> created[i] == t[i] == s[i];
    }
  }
}
