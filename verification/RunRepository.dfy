/** `RunRepository`, and the statements of `RunnerRepository` that touch runs and their events:
    each method is one statement or one transaction, with the clock reading as a parameter. */
module RunRepositories {
  import opened Outcomes
  import opened RunState

  datatype HttpError =
    | RunnerInstanceNotClaimable
    | AttemptNotFound
    | RunNotRunning
    | RunNotFound
    | RunNotCancelable
    | Unauthorized
    | ForeignKeyViolated

  datatype Claimed = Claimed(run: RunId, attempt: nat)

  datatype Verified = Verified(run: RunId, owner: Option<string>, packageDigest: string)

  class RunRepository {
    var runs: map<RunId, Run>
    var attempts: seq<Attempt>
    var events: seq<Event>

    function State(): Db
      reads this
    {
      Db(runs, attempts, events)
    }

    /** Every attempt refers to an existing run. */
    ghost predicate Valid()
      reads this
    {
      forall a :: 0 <= a < |attempts| ==> attempts[a].runId in runs
    }

    constructor ()
      ensures Valid() && State() == EMPTY
    {
      runs, attempts, events := map[], [], [];
    }

    method CreateRun(now: Time, run: RunId, packageDigest: string, owner: Option<string>)
      requires Valid() && run !in runs
      modifies this
      ensures Valid() && State() == Next(old(State()), now, Action.CreateRun(run, packageDigest, owner))
    {
      runs := runs[run := Run(Created, packageDigest, owner, now, None, None, None)];
    }

    /** A run the claim may take: queued, matching the runner's capabilities, and not locked by another claim. */
    predicate Claimable(matching: set<RunId>, locked: set<RunId>, r: RunId)
      reads this
    {
      r in runs && runs[r].status.Queued() && r in matching && r !in locked
    }

    method ClaimNextRun(now: Time, runner: RunnerId, leaseSeconds: nat, instanceClaimable: bool,
                        matching: set<RunId>, locked: set<RunId>, tokenHash: nat)
      returns (r: Result<Option<Claimed>, HttpError>)
      requires Valid()
      modifies this
      ensures Valid()
      ensures !instanceClaimable ==> r == Err(RunnerInstanceNotClaimable) && State() == old(State())
      ensures instanceClaimable ==> r.Ok?
      ensures r == Ok(None) ==> State() == old(State()) && forall q :: !old(Claimable(matching, locked, q))
      ensures r.Ok? && r.value.Some? ==>
                var q := r.value.value.run;
                && old(Claimable(matching, locked, q))
                && (forall p :: old(Claimable(matching, locked, p)) ==> old(runs[q].createdAt <= runs[p].createdAt))
                && r.value.value.attempt == |old(attempts)|
                && State() == Next(old(State()), now, ClaimRun(q, runner, leaseSeconds, tokenHash))
                && |attempts| == |old(attempts)| + 1 && attempts[|attempts| - 1].runId == q
                && attempts[|attempts| - 1].runner == runner && attempts[|attempts| - 1].tokenHash == tokenHash
                && forall at: Time :: Live(State(), at, |old(attempts)|) <==> at <= now + leaseSeconds * SECOND
    {
      if !instanceClaimable { return Err(RunnerInstanceNotClaimable); }
      var best: Option<RunId> := None;
      var todo := set q | q in runs && runs[q].status.Queued() && q in matching && q !in locked;
      while todo != {}
        invariant forall q :: q in todo ==> Claimable(matching, locked, q)
        invariant best.Some? ==> Claimable(matching, locked, best.value)
        invariant forall q :: Claimable(matching, locked, q) ==>
                    q in todo || (best.Some? && runs[best.value].createdAt <= runs[q].createdAt)
        decreases todo
      {
        var q :| q in todo;
        todo := todo - {q};
        if best.None? || runs[q].createdAt < runs[best.value].createdAt {
          best := Some(q);
        }
      }
      if best.None? { return Ok(None); }
      var q := best.value;
      var attempt := |attempts|;
      attempts := attempts + [Attempt(q, runner, Working, now + leaseSeconds * SECOND, now, now, None, None, tokenHash)];
      var startedAt := if runs[q].startedAt.Some? then runs[q].startedAt else Some(now);
      runs := runs[q := runs[q].(status := Running, startedAt := startedAt, error := None)];
      return Ok(Some(Claimed(q, attempt)));
    }

    method HeartbeatAttempt(now: Time, a: nat, runner: RunnerId, leaseSeconds: nat) returns (r: Result<Attempt, HttpError>)
      requires Valid()
      modifies this
      ensures Valid() && State() == Next(old(State()), now, Action.HeartbeatAttempt(a, runner, leaseSeconds))
      ensures r == if Held(old(State()), now, a, runner) then Ok(attempts[a]) else Err(AttemptNotFound)
    {
      if !Held(State(), now, a, runner) { return Err(AttemptNotFound); }
      attempts := attempts[a := attempts[a].(heartbeatAt := now, leaseExpiresAt := now + leaseSeconds * SECOND)];
      return Ok(attempts[a]);
    }

    method AppendRunEvent(now: Time, a: nat, runner: RunnerId, eventType: string) returns (r: Result<Event, HttpError>)
      requires Valid()
      modifies this
      ensures Valid() && State() == Next(old(State()), now, Action.AppendRunEvent(a, runner, eventType))
      ensures if Held(old(State()), now, a, runner) then events != [] && r == Ok(events[|events| - 1]) else r == Err(AttemptNotFound)
    {
      if !Held(State(), now, a, runner) { return Err(AttemptNotFound); }
      var event := Event(attempts[a].runId, Some(a), NextSeq(events, attempts[a].runId), eventType);
      events := events + [event];
      return Ok(event);
    }

    /** Updates the attempt, then its run; the attempt is put back when the run is no longer running. */
    method SettleAttempt(now: Time, a: nat, runner: RunnerId, attemptStatus: AttemptStatus, runStatus: RunStatus,
                         error: Option<Message>)
      returns (r: Result<Run, HttpError>)
      requires Valid()
      modifies this
      ensures Valid()
      ensures State() == if Held(old(State()), now, a, runner) && RunIs(old(State()), a, Running)
                         then Settle(old(State()), now, a, attemptStatus, runStatus, error) else old(State())
      ensures !Held(old(State()), now, a, runner) ==> r == Err(AttemptNotFound)
      ensures Held(old(State()), now, a, runner) && !RunIs(old(State()), a, Running) ==> r == Err(RunNotRunning)
      ensures Held(old(State()), now, a, runner) && RunIs(old(State()), a, Running) ==> r == Ok(runs[attempts[a].runId])
    {
      if !Held(State(), now, a, runner) { return Err(AttemptNotFound); }
      var saved := attempts;
      var attempt := attempts[a];
      attempts := attempts[a := attempt.(status := attemptStatus, endedAt := Some(now),
                                         error := if error.Some? then error else attempt.error)];
      if runs[attempt.runId].status != Running {
        attempts := saved;
        return Err(RunNotRunning);
      }
      runs := runs[attempt.runId := runs[attempt.runId].(status := runStatus, completedAt := Some(now), error := error)];
      return Ok(runs[attempt.runId]);
    }

    method CompleteAttempt(now: Time, a: nat, runner: RunnerId) returns (r: Result<Run, HttpError>)
      requires Valid()
      modifies this
      ensures Valid() && State() == Next(old(State()), now, Action.CompleteAttempt(a, runner))
      ensures r.Ok? <==> Accepts(old(State()), now, Action.CompleteAttempt(a, runner))
      ensures r.Err? ==> r.error == if Held(old(State()), now, a, runner) then RunNotRunning else AttemptNotFound
    {
      r := SettleAttempt(now, a, runner, Succeeded, Completed, None);
    }

    method FailAttempt(now: Time, a: nat, runner: RunnerId, message: string) returns (r: Result<Run, HttpError>)
      requires Valid()
      modifies this
      ensures Valid() && State() == Next(old(State()), now, Action.FailAttempt(a, runner, message))
      ensures r.Ok? <==> Accepts(old(State()), now, Action.FailAttempt(a, runner, message))
      ensures r.Err? ==> r.error == if Held(old(State()), now, a, runner) then RunNotRunning else AttemptNotFound
    {
      r := SettleAttempt(now, a, runner, Broken, Failed, Some(Reported(message)));
    }

    method CancelRun(now: Time, run: RunId, owner: Option<string>, reason: string) returns (r: Result<Run, HttpError>)
      requires Valid()
      modifies this
      ensures Valid()
      ensures var visible := run in old(runs) && (owner.Some? ==> old(runs)[run].owner == owner);
              && State() == (if visible then Next(old(State()), now, Action.CancelRun(run, reason)) else old(State()))
              && (!visible ==> r == Err(RunNotFound))
              && (visible && old(runs)[run].status in {Completed, Failed} ==> r == Err(RunNotCancelable))
              && (visible && old(runs)[run].status !in {Completed, Failed} ==> r == Ok(runs[run]) && runs[run].status == Cancelled)
    {
      if run !in runs || (owner.Some? && runs[run].owner != owner) { return Err(RunNotFound); }
      if runs[run].status == Cancelled { return Ok(runs[run]); }
      if runs[run].status == Completed || runs[run].status == Failed { return Err(RunNotCancelable); }
      runs := runs[run := runs[run].(status := Cancelled, completedAt := Some(now), error := Some(CancelledByOwner(reason)))];
      return Ok(runs[run]);
    }

    method FailQueuedRun(now: Time, run: RunId, message: string) returns (failed: bool)
      requires Valid()
      modifies this
      ensures Valid() && State() == Next(old(State()), now, Action.FailQueuedRun(run, message))
      ensures failed <==> Accepts(old(State()), now, Action.FailQueuedRun(run, message))
    {
      failed := run in runs && runs[run].status.Queued();
      if failed {
        runs := runs[run := runs[run].(status := Failed, completedAt := Some(now), error := Some(Reported(message)))];
      }
    }

    /** The first update of the sweeper: every lapsed attempt expires. */
    method ExpireAttempts(now: Time)
      modifies this`attempts
      ensures attempts == Next(old(State()), now, Action.ExpireLeases).attempts
    {
      var rows := attempts;
      attempts := seq(|rows|, i requires 0 <= i < |rows| => ExpireAttempt(rows[i], now));
    }

    /** The inner update of the sweeper: a running run goes back to the queue. */
    method RequeueRun(run: RunId) returns (requeued: bool)
      requires run in runs
      modifies this`runs
      ensures requeued == (old(runs)[run].status == Running)
      ensures runs == if requeued then old(runs)[run := Requeue(old(runs)[run])] else old(runs)
    {
      requeued := runs[run].status == Running;
      if requeued { runs := runs[run := Requeue(runs[run])]; }
    }

    /** The sweeper: expires all lapsed attempts at once, then requeues their runs one by one. */
    method ExpireLeases(now: Time) returns (expired: seq<Claimed>)
      requires Valid()
      modifies this
      ensures Valid() && State() == Next(old(State()), now, Action.ExpireLeases)
      ensures Lists(expired, old(runs), old(attempts), now)
    {
      ghost var before, after := State(), Next(State(), now, Action.ExpireLeases);
      var rows := attempts;
      ExpireAttempts(now);
      assert events == after.events;
      expired := [];
      hide Next, Accepts, Expire, ExpireAttempt, Lists, Swept, HasLapsed;
      SweepStart(runs, rows, now);
      for i := 0 to |rows|
        invariant attempts == after.attempts && events == after.events
        invariant Swept(before.runs, runs, rows[..i], now)
        invariant Lists(expired, before.runs, rows[..i], now)
      {
        SweptStep(before.runs, runs, rows, i, now);
        ListsStep(expired, before.runs, rows, i, now);
        if Lapsed(rows[i], now) {
          var requeued := RequeueRun(rows[i].runId);
          if requeued { expired := expired + [Claimed(rows[i].runId, i)]; }
        }
      }
      SweepEnd(before, runs, expired, now);
    }

    /** The lifecycle event of a runner instance, once for each of its running attempts. */
    method AppendRunnerInstanceLifecycleEvent(now: Time, runner: RunnerId, eventType: string)
      requires Valid()
      modifies this
      ensures Valid() && State() == Next(old(State()), now, RecordLifecycle(runner, eventType))
    {
      ghost var before := State();
      var inserted: seq<Event> := [];
      for i := 0 to |attempts|
        invariant State() == before
        invariant inserted + LifecycleEvents(before, runner, eventType, i) == LifecycleEvents(before, runner, eventType, 0)
      {
        if Involved(attempts[i], runner) {
          var event := LifecycleEvent(State(), runner, eventType, i);
          inserted := inserted + [event];
        }
      }
      assert inserted + [] == inserted;
      events := events + inserted;
    }

    /** `appendAccessRequestEvent`, the one insert into the journal without a lease guard. */
    method AppendAccessRequestEvent(now: Time, run: RunId, attempt: Option<nat>, eventType: string) returns (r: Result<Event, HttpError>)
      requires Valid()
      modifies this
      ensures Valid() && State() == Next(old(State()), now, RecordAccess(run, attempt, eventType))
      ensures if Referenced(old(State()), run, attempt) then events != [] && r == Ok(events[|events| - 1]) else r == Err(ForeignKeyViolated)
    {
      if run !in runs || (attempt.Some? && attempt.value >= |attempts|) { return Err(ForeignKeyViolated); }
      var event := Event(run, attempt, NextSeq(events, run), eventType);
      events := events + [event];
      return Ok(event);
    }

    /** A token speaks for an attempt only while the attempt is live. */
    method VerifyAttemptToken(now: Time, a: nat, tokenHash: nat, runner: Option<RunnerId>, packageDigest: Option<string>)
      returns (r: Result<Verified, HttpError>)
      requires Valid()
      ensures r.Ok? <==>
                && Live(State(), now, a) && attempts[a].tokenHash == tokenHash
                && (runner.Some? ==> attempts[a].runner == runner.value)
                && (packageDigest.Some? ==> runs[attempts[a].runId].packageDigest == packageDigest.value)
      ensures r.Ok? ==> r.value.run == attempts[a].runId && r.value.run in runs
                        && r.value.owner == runs[r.value.run].owner && r.value.packageDigest == runs[r.value.run].packageDigest
      ensures r.Err? ==> r.error == Unauthorized
    {
      if a < |attempts| && attempts[a].status == Working && attempts[a].leaseExpiresAt >= now
        && attempts[a].tokenHash == tokenHash && (runner.Some? ==> attempts[a].runner == runner.value)
      {
        var run := runs[attempts[a].runId];
        if packageDigest.None? || run.packageDigest == packageDigest.value {
          return Ok(Verified(attempts[a].runId, run.owner, run.packageDigest));
        }
      }
      return Err(Unauthorized);
    }
  }

  /** A row of the sweep: a running run is put back in the queue. */
  function SweepRow(runs: map<RunId, Run>, row: Attempt, now: Time): map<RunId, Run>
    requires row.runId in runs
  {
    if Lapsed(row, now) && runs[row.runId].status == Running then runs[row.runId := Requeue(runs[row.runId])] else runs
  }

  /** The runs `swept` are the runs `was` after the lapsed attempts among `rows` have been swept. */
  ghost predicate Swept(was: map<RunId, Run>, swept: map<RunId, Run>, rows: seq<Attempt>, now: Time) {
    && swept.Keys == was.Keys
    && forall r :: r in was ==> swept[r] == if was[r].status == Running && HasLapsed(rows, now, r) then Requeue(was[r]) else was[r]
  }

  /** The report of a sweep: each running run with a lapsed attempt once, beside its first lapsed attempt. */
  ghost predicate Lists(expired: seq<Claimed>, runs: map<RunId, Run>, rows: seq<Attempt>, now: Time) {
    && (forall x :: 0 <= x < |expired| ==> FirstLapsed(rows, now, expired[x].run, expired[x].attempt))
    && (forall x, y :: 0 <= x < y < |expired| ==> expired[x].run != expired[y].run)
    && (forall x :: 0 <= x < |expired| ==> expired[x].run in runs && runs[expired[x].run].status == Running)
    && (forall r :: r in runs && runs[r].status == Running && HasLapsed(rows, now, r) ==> Listed(expired, r))
  }

  predicate Listed(expired: seq<Claimed>, r: RunId) {
    exists x :: 0 <= x < |expired| && expired[x].run == r
  }

  predicate FirstLapsed(rows: seq<Attempt>, now: Time, r: RunId, a: nat) {
    && a < |rows| && rows[a].runId == r && Lapsed(rows[a], now)
    && forall b :: 0 <= b < a ==> !(rows[b].runId == r && Lapsed(rows[b], now))
  }

  lemma {:induction false} LapsedStep(rows: seq<Attempt>, now: Time, i: nat)
    requires i < |rows|
    ensures forall r :: HasLapsed(rows[..i + 1], now, r) <==> HasLapsed(rows[..i], now, r) || (rows[i].runId == r && Lapsed(rows[i], now))
  {
    forall r
      ensures HasLapsed(rows[..i + 1], now, r) <==> HasLapsed(rows[..i], now, r) || (rows[i].runId == r && Lapsed(rows[i], now))
    {
      assert rows[..i + 1][i] == rows[i];
      if HasLapsed(rows[..i], now, r) {
        var j :| 0 <= j < i && rows[..i][j].runId == r && Lapsed(rows[..i][j], now);
        assert rows[..i + 1][j] == rows[..i][j];
      }
      if HasLapsed(rows[..i + 1], now, r) {
        var j :| 0 <= j < i + 1 && rows[..i + 1][j].runId == r && Lapsed(rows[..i + 1][j], now);
        assert j < i ==> rows[..i][j] == rows[..i + 1][j];
      }
    }
  }

  lemma SweepStart(runs: map<RunId, Run>, rows: seq<Attempt>, now: Time)
    ensures Swept(runs, runs, rows[..0], now) && Lists([], runs, rows[..0], now)
  {
  }

  lemma {:induction false} SweepEnd(s: Db, swept: map<RunId, Run>, expired: seq<Claimed>, now: Time)
    requires Swept(s.runs, swept, s.attempts[..|s.attempts|], now) && Lists(expired, s.runs, s.attempts[..|s.attempts|], now)
    ensures swept == Next(s, now, ExpireLeases).runs && swept.Keys == s.runs.Keys
    ensures Lists(expired, s.runs, s.attempts, now)
    ensures forall a :: 0 <= a < |s.attempts| ==> Next(s, now, ExpireLeases).attempts[a].runId == s.attempts[a].runId
  {
    assert s.attempts[..|s.attempts|] == s.attempts;
  }

  lemma {:induction false} SweptStep(was: map<RunId, Run>, swept: map<RunId, Run>, rows: seq<Attempt>, i: nat, now: Time)
    requires i < |rows| && rows[i].runId in was && Swept(was, swept, rows[..i], now)
    ensures rows[i].runId in swept && Swept(was, SweepRow(swept, rows[i], now), rows[..i + 1], now)
    ensures swept[rows[i].runId].status == Running <==> was[rows[i].runId].status == Running && !HasLapsed(rows[..i], now, rows[i].runId)
  {
    LapsedStep(rows, now, i);
    hide HasLapsed;
  }

  lemma {:induction false} ListsStep(expired: seq<Claimed>, runs: map<RunId, Run>, rows: seq<Attempt>, i: nat, now: Time)
    requires i < |rows| && rows[i].runId in runs && Lists(expired, runs, rows[..i], now)
    ensures var r := rows[i].runId;
            var more := if Lapsed(rows[i], now) && runs[r].status == Running && !HasLapsed(rows[..i], now, r)
                        then expired + [Claimed(r, i)] else expired;
            Lists(more, runs, rows[..i + 1], now)
  {
    hide FirstLapsed, HasLapsed;
    var r := rows[i].runId;
    var isNew := Lapsed(rows[i], now) && runs[r].status == Running && !HasLapsed(rows[..i], now, r);
    var more := if isNew then expired + [Claimed(r, i)] else expired;
    forall x | 0 <= x < |expired|
      ensures FirstLapsed(rows[..i + 1], now, expired[x].run, expired[x].attempt) && (isNew ==> expired[x].run != r)
    {
      FirstStays(rows, i, now, expired[x].run, expired[x].attempt);
    }
    if isNew { FirstNew(rows, i, now); }
    forall q | q in runs && runs[q].status == Running && HasLapsed(rows[..i + 1], now, q) ensures Listed(more, q) {
      LapsedStep(rows, now, i);
      if HasLapsed(rows[..i], now, q) {
        var x :| 0 <= x < |expired| && expired[x].run == q;
        assert more[x].run == q;
      } else {
        assert more[|expired|].run == q;
      }
    }
  }

  lemma {:induction false} FirstStays(rows: seq<Attempt>, i: nat, now: Time, r: RunId, a: nat)
    requires i < |rows| && FirstLapsed(rows[..i], now, r, a)
    ensures FirstLapsed(rows[..i + 1], now, r, a) && HasLapsed(rows[..i], now, r)
  {
    assert rows[..i][a].runId == r;
    var seen := rows[..i + 1];
    forall b | 0 <= b < a ensures !(seen[b].runId == r && Lapsed(seen[b], now)) {
      assert rows[..i][b] == seen[b];
    }
  }

  lemma {:induction false} FirstNew(rows: seq<Attempt>, i: nat, now: Time)
    requires i < |rows| && Lapsed(rows[i], now) && !HasLapsed(rows[..i], now, rows[i].runId)
    ensures FirstLapsed(rows[..i + 1], now, rows[i].runId, i)
  {
    var seen := rows[..i + 1];
    forall b | 0 <= b < i ensures !(seen[b].runId == rows[i].runId && Lapsed(seen[b], now)) {
      assert rows[..i][b] == seen[b];
    }
  }
}
