/** What each accepted statement on runs, attempts and events writes, and that it writes nothing else. */
module RunEffects {
  import opened Outcomes
  import opened RunState

  /** Only the named runs and attempts may differ; rows are neither removed nor reordered. */
  ghost predicate WritesOnly(s: Db, t: Db, runs: set<RunId>, attempts: set<nat>) {
    && |s.attempts| <= |t.attempts| && s.events <= t.events
    && (forall q :: q in s.runs ==> q in t.runs && (q !in runs ==> t.runs[q] == s.runs[q]))
    && (forall q :: q in t.runs && q !in s.runs ==> q in runs)
    && (forall a :: 0 <= a < |s.attempts| && a !in attempts ==> t.attempts[a] == s.attempts[a])
  }

  /** A claim adds one attempt of the run, for the runner and under the token, that is live up to the end of the lease
      and not later; the run starts, or goes on as started, without an error. */
  lemma {:induction false} ClaimGrants(s: Db, now: Time, r: RunId, runner: RunnerId, leaseSeconds: nat, tokenHash: nat)
    requires Accepts(s, now, ClaimRun(r, runner, leaseSeconds, tokenHash))
    ensures var t, a := Next(s, now, ClaimRun(r, runner, leaseSeconds, tokenHash)), |s.attempts|;
            && |t.attempts| == a + 1 && t.events == s.events && WritesOnly(s, t, {r}, {a})
            && t.attempts[a].runId == r && t.attempts[a].runner == runner && t.attempts[a].tokenHash == tokenHash
            && (forall at: Time :: Live(t, at, a) <==> at <= now + leaseSeconds * SECOND)
            && t.attempts[a].startedAt == t.attempts[a].heartbeatAt == now && t.attempts[a].endedAt.None? && t.attempts[a].error.None?
            && t.runs[r].status == Running && t.runs[r].error.None? && t.runs[r].completedAt == s.runs[r].completedAt
            && t.runs[r].startedAt == (if s.runs[r].startedAt.Some? then s.runs[r].startedAt else Some(now))
            && SameIdentity(s.runs[r], t.runs[r])
  {
  }

  predicate SameIdentity(a: Run, b: Run) {
    b.packageDigest == a.packageDigest && b.owner == a.owner && b.createdAt == a.createdAt
  }

  /** A renewal moves the end of the lease, and nothing else but the time of the last heartbeat. */
  lemma {:induction false} HeartbeatRenews(s: Db, now: Time, a: nat, runner: RunnerId, leaseSeconds: nat)
    requires Accepts(s, now, HeartbeatAttempt(a, runner, leaseSeconds))
    ensures var t := Next(s, now, HeartbeatAttempt(a, runner, leaseSeconds));
            && |t.attempts| == |s.attempts| && t.runs == s.runs && t.events == s.events && WritesOnly(s, t, {}, {a})
            && t.attempts[a].runner == runner && t.attempts[a].heartbeatAt == now
            && (forall at: Time :: Live(t, at, a) <==> at <= now + leaseSeconds * SECOND)
            && t.attempts[a].(heartbeatAt := s.attempts[a].heartbeatAt, leaseExpiresAt := s.attempts[a].leaseExpiresAt) == s.attempts[a]
  {
  }

  /** Completion and failure close the attempt and its run at the same time, and keep all else of both rows. */
  lemma {:induction false} SettleCloses(s: Db, now: Time, a: nat, runner: RunnerId, failure: Option<string>)
    requires var action := if failure.Some? then FailAttempt(a, runner, failure.value) else CompleteAttempt(a, runner);
             Accepts(s, now, action)
    ensures var action := if failure.Some? then FailAttempt(a, runner, failure.value) else CompleteAttempt(a, runner);
            var t, r := Next(s, now, action), s.attempts[a].runId;
            var run, attempt := s.runs[r], s.attempts[a];
            && |t.attempts| == |s.attempts| && t.events == s.events && t.runs.Keys == s.runs.Keys && WritesOnly(s, t, {r}, {a})
            && (if failure.Some?
                then t.runs[r] == run.(status := Failed, completedAt := Some(now), error := Some(Reported(failure.value)))
                     && t.attempts[a] == attempt.(status := Broken, endedAt := Some(now), error := Some(Reported(failure.value)))
                else t.runs[r] == run.(status := Completed, completedAt := Some(now), error := None)
                     && t.attempts[a] == attempt.(status := Succeeded, endedAt := Some(now)))
  {
  }

  /** Cancelling, and failing a queued run, close the run with their message and leave the attempts alone. */
  lemma {:induction false} RunClosed(s: Db, now: Time, r: RunId, text: string)
    ensures Accepts(s, now, CancelRun(r, text)) ==>
              var t := Next(s, now, CancelRun(r, text));
              && t.attempts == s.attempts && t.events == s.events && t.runs.Keys == s.runs.Keys && WritesOnly(s, t, {r}, {})
              && t.runs[r] == s.runs[r].(status := Cancelled, completedAt := Some(now), error := Some(CancelledByOwner(text)))
    ensures Accepts(s, now, FailQueuedRun(r, text)) ==>
              var t := Next(s, now, FailQueuedRun(r, text));
              && t.attempts == s.attempts && t.events == s.events && t.runs.Keys == s.runs.Keys && WritesOnly(s, t, {r}, {})
              && t.runs[r] == s.runs[r].(status := Failed, completedAt := Some(now), error := Some(Reported(text)))
  {
  }

  /** The sweep ends exactly the running attempts whose lease is over, and requeues exactly the running runs that lose one. */
  lemma {:induction false} SweepEnds(s: Db, now: Time)
    ensures var t := Next(s, now, ExpireLeases);
            && t.events == s.events && t.runs.Keys == s.runs.Keys && |t.attempts| == |s.attempts|
            && (forall a :: 0 <= a < |s.attempts| ==>
                  if s.attempts[a].status == Working && s.attempts[a].leaseExpiresAt < now
                  then t.attempts[a] == s.attempts[a].(status := Expired, endedAt := Some(now), error := Some(WorkerLeaseExpired))
                  else t.attempts[a] == s.attempts[a])
            && (forall r :: r in s.runs ==>
                  if s.runs[r].status == Running && exists a :: 0 <= a < |s.attempts| && s.attempts[a].runId == r && t.attempts[a] != s.attempts[a]
                  then t.runs[r] == s.runs[r].(status := WaitingForRunner, error := Some(PreviousLeaseExpired))
                  else t.runs[r] == s.runs[r])
  {
  }

  /** A new run is queued, owned and dated; every guarded or unguarded event bears the names it was given. */
  lemma {:induction false} RowsAdded(s: Db, now: Time, r: RunId, digest: string, owner: Option<string>, a: nat, runner: RunnerId,
                                     named: Option<nat>, eventType: string)
    ensures Accepts(s, now, CreateRun(r, digest, owner)) ==>
              var t := Next(s, now, CreateRun(r, digest, owner));
              && t == s.(runs := t.runs) && WritesOnly(s, t, {r}, {}) && r in t.runs
              && t.runs[r] == Run(Created, digest, owner, now, None, None, None)
    ensures Accepts(s, now, AppendRunEvent(a, runner, eventType)) ==>
              var t := Next(s, now, AppendRunEvent(a, runner, eventType));
              && t == s.(events := t.events) && |t.events| == |s.events| + 1 && t.events[..|s.events|] == s.events
              && t.events[|s.events|].runId == s.attempts[a].runId && t.events[|s.events|].attemptId == Some(a)
              && t.events[|s.events|].eventType == eventType
    ensures Accepts(s, now, RecordAccess(r, named, eventType)) ==>
              var t := Next(s, now, RecordAccess(r, named, eventType));
              && t == s.(events := t.events) && |t.events| == |s.events| + 1 && t.events[..|s.events|] == s.events
              && t.events[|s.events|].runId == r && t.events[|s.events|].attemptId == named && t.events[|s.events|].eventType == eventType
  {
  }

  ghost predicate LifecycleRow(s: Db, runner: RunnerId, eventType: string, from: nat, event: Event) {
    && event.attemptId.Some? && from <= event.attemptId.value < |s.attempts|
    && s.attempts[event.attemptId.value].runner == runner && s.attempts[event.attemptId.value].status == Working
    && event.runId == s.attempts[event.attemptId.value].runId && event.eventType == eventType
  }

  /** The lifecycle insert adds exactly one event for each running attempt of the instance, in the order of the attempts. */
  lemma {:induction false} LifecycleRows(s: Db, runner: RunnerId, eventType: string, from: nat)
    requires from <= |s.attempts|
    ensures var added := LifecycleEvents(s, runner, eventType, from);
            && (forall e :: 0 <= e < |added| ==> LifecycleRow(s, runner, eventType, from, added[e]))
            && (forall e, f :: 0 <= e < f < |added| ==> added[e].attemptId.value < added[f].attemptId.value)
            && (forall a :: from <= a < |s.attempts| && s.attempts[a].runner == runner && s.attempts[a].status == Working ==>
                  exists e :: 0 <= e < |added| && added[e].attemptId == Some(a))
    decreases |s.attempts| - from
  {
    if from < |s.attempts| {
      LifecycleRows(s, runner, eventType, from + 1);
      hide MaxSeq, SeqOffset;
      var rest, added := LifecycleEvents(s, runner, eventType, from + 1), LifecycleEvents(s, runner, eventType, from);
      if Involved(s.attempts[from], runner) {
        assert added == [LifecycleEvent(s, runner, eventType, from)] + rest;
        forall a | from <= a < |s.attempts| && s.attempts[a].runner == runner && s.attempts[a].status == Working
          ensures exists e :: 0 <= e < |added| && added[e].attemptId == Some(a)
        {
          if a == from {
            assert added[0].attemptId == Some(a);
          } else {
            var e :| 0 <= e < |rest| && rest[e].attemptId == Some(a);
            assert added[e + 1].attemptId == Some(a);
          }
        }
      }
    }
  }
}
