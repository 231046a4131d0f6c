/** What every history of claims, renewals, completions, cancellations and sweeps keeps. */
module RunLease {
  import opened Outcomes
  import opened RunState

  // ---- the invariant ----

  /** No later attempt of the same run exists. */
  ghost predicate IsLatest(s: Db, a: nat)
    requires a < |s.attempts|
  {
    forall b :: a < b < |s.attempts| ==> s.attempts[b].runId != s.attempts[a].runId
  }

  /** An attempt that did not expire is the latest of its run, and the run agrees with it. */
  ghost predicate Agrees(s: Db, a: nat)
    requires a < |s.attempts|
  {
    var t := s.attempts[a];
    && t.runId in s.runs
    && (t.status != Expired ==> IsLatest(s, a))
    && (t.status == Working ==> s.runs[t.runId].status in {Running, Cancelled})
    && (t.status == Succeeded ==> s.runs[t.runId].status == Completed)
    && (t.status == Broken ==> s.runs[t.runId].status == Failed)
  }

  ghost predicate HasAttempt(s: Db, r: RunId, status: AttemptStatus) {
    exists a :: 0 <= a < |s.attempts| && s.attempts[a].runId == r && s.attempts[a].status == status
  }

  ghost predicate Coupled(s: Db) {
    && (forall a :: 0 <= a < |s.attempts| ==> Agrees(s, a))
    && (forall r :: r in s.runs && s.runs[r].status == Running ==> HasAttempt(s, r, Working))
    && (forall r :: r in s.runs && s.runs[r].status == Completed ==> HasAttempt(s, r, Succeeded))
  }

  /** Attempts end only after their lease, and the next attempt of a run starts after that. */
  ghost predicate Timed(s: Db, now: Time) {
    && (forall a :: 0 <= a < |s.attempts| ==> s.attempts[a].startedAt <= now)
    && (forall a :: 0 <= a < |s.attempts| && s.attempts[a].status == Expired ==>
          s.attempts[a].endedAt.Some? && s.attempts[a].leaseExpiresAt < s.attempts[a].endedAt.value <= now)
    && (forall a, b :: 0 <= a < b < |s.attempts| && s.attempts[a].runId == s.attempts[b].runId ==>
          s.attempts[a].endedAt.Some? && s.attempts[a].endedAt.value <= s.attempts[b].startedAt)
  }

  function EventCount(events: seq<Event>, r: RunId): (c: nat)
    ensures c <= |events|
  {
    if events == [] then 0
    else EventCount(events[..|events| - 1], r) + if events[|events| - 1].runId == r then 1 else 0
  }

  /** Every event bears the number it has among the events of its run. */
  ghost predicate Numbered(events: seq<Event>) {
    events == [] || (
      && Numbered(events[..|events| - 1])
      && events[|events| - 1].seqNo == EventCount(events, events[|events| - 1].runId))
  }

  ghost predicate Inv(s: Db, now: Time) { Coupled(s) && Timed(s, now) && Numbered(s.events) }

  // ---- each step keeps it ----

  lemma {:induction false} CoupledNext(s: Db, now: Time, action: Action)
    requires Coupled(s)
    ensures Coupled(Next(s, now, action))
  {
    if !Accepts(s, now, action) { return; }
    match action
    case ClaimRun(r, runner, leaseSeconds, tokenHash) => CoupledClaim(s, now, r, runner, leaseSeconds, tokenHash);
    case HeartbeatAttempt(a, _, leaseSeconds) => CoupledSameStatus(s, Heartbeat(s, now, a, leaseSeconds));
    case AppendRunEvent(a, _, eventType) => CoupledSameStatus(s, AppendEvent(s, a, eventType));
    case CompleteAttempt(a, _) => CoupledSettle(s, now, a, Succeeded, Completed, None);
    case FailAttempt(a, _, message) => CoupledSettle(s, now, a, Broken, Failed, Some(Reported(message)));
    case ExpireLeases => CoupledExpire(s, now);
    case RecordLifecycle(_, _) => CoupledSameStatus(s, Next(s, now, action));
    case RecordAccess(_, _, _) => CoupledSameStatus(s, Next(s, now, action));
    case CreateRun(r, _, _) => CoupledRunChange(s, Next(s, now, action), r);
    case CancelRun(r, _) => CoupledRunChange(s, Next(s, now, action), r);
    case FailQueuedRun(r, _) => CoupledRunChange(s, Next(s, now, action), r);
  }

  lemma {:induction false} CoupledSameStatus(s: Db, t: Db)
    requires Coupled(s) && t.runs == s.runs && |t.attempts| == |s.attempts|
    requires forall a :: 0 <= a < |s.attempts| ==>
               t.attempts[a].runId == s.attempts[a].runId && t.attempts[a].status == s.attempts[a].status
    ensures Coupled(t)
  {
    forall a | 0 <= a < |t.attempts| ensures Agrees(t, a) { assert Agrees(s, a); }
    forall r, st | HasAttempt(s, r, st) ensures HasAttempt(t, r, st) {
      var a :| 0 <= a < |s.attempts| && s.attempts[a].runId == r && s.attempts[a].status == st;
      assert t.attempts[a].runId == r;
    }
  }

  /** A queued run has no attempt that could still matter. */
  lemma {:induction false} QueuedRunIdle(s: Db, r: RunId)
    requires Coupled(s) && r in s.runs && s.runs[r].status.Queued()
    ensures forall a :: 0 <= a < |s.attempts| && s.attempts[a].runId == r ==> s.attempts[a].status == Expired
  {
    forall a | 0 <= a < |s.attempts| && s.attempts[a].runId == r
      ensures s.attempts[a].status == Expired
    {
      assert Agrees(s, a);
    }
  }

  lemma {:induction false} CoupledRunChange(s: Db, t: Db, r: RunId)
    requires Coupled(s) && t.attempts == s.attempts && t.runs.Keys == s.runs.Keys + {r}
    requires forall q :: q in s.runs && q != r ==> t.runs[q] == s.runs[q]
    requires t.runs[r].status != Running && t.runs[r].status != Completed
    requires r in s.runs && !s.runs[r].status.Queued() ==> t.runs[r].status == Cancelled && !s.runs[r].status.Terminal()
    ensures Coupled(t)
  {
    if r in s.runs && s.runs[r].status.Queued() { QueuedRunIdle(s, r); }
    forall a | 0 <= a < |t.attempts| ensures Agrees(t, a) {
      assert Agrees(s, a);
      assert IsLatest(s, a) ==> IsLatest(t, a);
    }
    forall q, st | HasAttempt(s, q, st) ensures HasAttempt(t, q, st) {}
  }

  lemma {:induction false} CoupledClaim(s: Db, now: Time, r: RunId, runner: RunnerId, leaseSeconds: nat, tokenHash: nat)
    requires Coupled(s) && r in s.runs && s.runs[r].status.Queued()
    ensures Coupled(Claim(s, now, r, runner, leaseSeconds, tokenHash))
  {
    var t := Claim(s, now, r, runner, leaseSeconds, tokenHash);
    var n := |s.attempts|;
    QueuedRunIdle(s, r);
    assert t.attempts[n].runId == r && t.attempts[n].status == Working;
    forall a | 0 <= a < |t.attempts| ensures Agrees(t, a) {
      if a < n { assert Agrees(s, a); }
    }
    forall q, st | HasAttempt(s, q, st) ensures HasAttempt(t, q, st) {
      var a :| 0 <= a < n && s.attempts[a].runId == q && s.attempts[a].status == st;
      assert t.attempts[a] == s.attempts[a];
    }
  }

  lemma {:induction false} CoupledSettle(s: Db, now: Time, a: nat, st: AttemptStatus, rs: RunStatus, error: Option<Message>)
    requires Coupled(s) && a < |s.attempts| && s.attempts[a].status == Working && RunIs(s, a, Running)
    requires (st == Succeeded && rs == Completed) || (st == Broken && rs == Failed)
    ensures Coupled(Settle(s, now, a, st, rs, error))
  {
    var t := Settle(s, now, a, st, rs, error);
    var r := s.attempts[a].runId;
    assert Agrees(s, a);
    forall b | 0 <= b < |t.attempts| ensures Agrees(t, b) {
      assert Agrees(s, b);
      assert IsLatest(s, b) ==> IsLatest(t, b);
      if b != a && s.attempts[b].runId == r { assert b < a; }
    }
    forall q, x | HasAttempt(s, q, x) && q != r ensures HasAttempt(t, q, x) {
      var b :| 0 <= b < |s.attempts| && s.attempts[b].runId == q && s.attempts[b].status == x;
      assert t.attempts[b] == s.attempts[b];
    }
    assert t.attempts[a].runId == r && t.attempts[a].status == st;
  }

  /** Two attempts of one run that did not expire are the same attempt. */
  lemma {:induction false} SoleActive(s: Db, a: nat)
    requires Coupled(s) && a < |s.attempts| && s.attempts[a].status != Expired
    ensures forall b :: 0 <= b < |s.attempts| && s.attempts[b].runId == s.attempts[a].runId && s.attempts[b].status != Expired ==> b == a
  {
    assert Agrees(s, a);
    forall b | 0 <= b < |s.attempts| && s.attempts[b].runId == s.attempts[a].runId && s.attempts[b].status != Expired
      ensures b == a
    {
      assert Agrees(s, b);
    }
  }

  lemma {:induction false} CoupledExpire(s: Db, now: Time)
    requires Coupled(s)
    ensures Coupled(Expire(s, now))
  {
    var t := Expire(s, now);
    forall a | 0 <= a < |t.attempts| ensures Agrees(t, a) {
      assert Agrees(s, a);
      assert IsLatest(s, a) ==> IsLatest(t, a);
      if t.attempts[a].status != Expired { SoleActive(s, a); }
    }
    forall r | r in t.runs && t.runs[r].status == Running ensures HasAttempt(t, r, Working) {
      assert HasAttempt(s, r, Working);
      var a :| 0 <= a < |s.attempts| && s.attempts[a].runId == r && s.attempts[a].status == Working;
      assert t.attempts[a].runId == r && t.attempts[a].status == Working;
    }
    forall r | r in t.runs && t.runs[r].status == Completed ensures HasAttempt(t, r, Succeeded) {
      assert HasAttempt(s, r, Succeeded);
      var a :| 0 <= a < |s.attempts| && s.attempts[a].runId == r && s.attempts[a].status == Succeeded;
      assert t.attempts[a].runId == r && t.attempts[a].status == Succeeded;
    }
  }

  lemma {:induction false} TimedClaim(s: Db, before: Time, now: Time, r: RunId, runner: RunnerId, leaseSeconds: nat,
                                      tokenHash: nat)
    requires Coupled(s) && Timed(s, before) && before <= now && r in s.runs && s.runs[r].status.Queued()
    ensures Timed(Claim(s, now, r, runner, leaseSeconds, tokenHash), now)
  {
    QueuedRunIdle(s, r);
    hide Coupled;
  }

  lemma {:induction false} TimedSettle(s: Db, before: Time, now: Time, a: nat, attemptStatus: AttemptStatus,
                                       runStatus: RunStatus, error: Option<Message>)
    requires Coupled(s) && Timed(s, before) && before <= now && a < |s.attempts| && s.attempts[a].status == Working
    requires s.attempts[a].runId in s.runs && attemptStatus in {Succeeded, Broken}
    ensures Timed(Settle(s, now, a, attemptStatus, runStatus, error), now)
  {
    assert Agrees(s, a);
    hide Coupled;
  }

  lemma {:induction false} TimedNext(s: Db, before: Time, now: Time, action: Action)
    requires Coupled(s) && Timed(s, before) && before <= now
    ensures Timed(Next(s, now, action), now)
  {
    if !Accepts(s, now, action) { return; }
    match action
    case ClaimRun(r, runner, leaseSeconds, tokenHash) => TimedClaim(s, before, now, r, runner, leaseSeconds, tokenHash);
    case CompleteAttempt(a, _) => TimedSettle(s, before, now, a, Succeeded, Completed, None);
    case FailAttempt(a, _, message) => TimedSettle(s, before, now, a, Broken, Failed, Some(Reported(message)));
    case ExpireLeases => TimedExpire(s, before, now);
    case _ =>
      hide Coupled;
  }

  lemma {:induction false} TimedExpire(s: Db, before: Time, now: Time)
    requires Coupled(s) && Timed(s, before) && before <= now
    ensures Timed(Expire(s, now), now)
  {
    var t := Expire(s, now);
    forall a, b | 0 <= a < b < |t.attempts| && t.attempts[a].runId == t.attempts[b].runId
      ensures t.attempts[a].endedAt.Some? && t.attempts[a].endedAt.value <= t.attempts[b].startedAt
    {
      assert Agrees(s, a);
      assert s.attempts[a].status == Expired;
    }
  }

  // ---- events ----

  /** The highest number used so far is the number of events. */
  lemma {:induction false} MaxSeqIsCount(events: seq<Event>, r: RunId)
    requires Numbered(events)
    ensures MaxSeq(events, r) == if EventCount(events, r) == 0 then None else Some(EventCount(events, r))
  {
    if events != [] { MaxSeqIsCount(events[..|events| - 1], r); }
  }

  lemma {:induction false} EventCountAppend(events: seq<Event>, more: seq<Event>, r: RunId)
    requires forall e :: 0 <= e < |more| ==> more[e].runId != r
    ensures EventCount(events + more, r) == EventCount(events, r)
  {
    if more == [] {
      assert events + more == events;
    } else {
      assert (events + more)[..|events + more| - 1] == events + more[..|more| - 1];
      EventCountAppend(events, more[..|more| - 1], r);
    }
  }

  lemma {:induction false} NumberedAppend(events: seq<Event>, event: Event)
    requires Numbered(events) && event.seqNo == EventCount(events, event.runId) + 1
    ensures Numbered(events + [event])
  {
    assert (events + [event])[..|events|] == events;
  }

  lemma {:induction false} NumberedNext(events: seq<Event>, r: RunId, attempt: Option<nat>, eventType: string)
    requires Numbered(events)
    ensures Numbered(events + [Event(r, attempt, NextSeq(events, r), eventType)])
  {
    MaxSeqIsCount(events, r);
    NumberedAppend(events, Event(r, attempt, NextSeq(events, r), eventType));
  }

  lemma {:induction false} OffsetIsOne(s: Db, runner: RunnerId, i: nat)
    requires Coupled(s) && i < |s.attempts| && Involved(s.attempts[i], runner)
    ensures SeqOffset(s.attempts, runner, i) == 1
  {
    SoleActive(s, i);
    assert (set j | 0 <= j < |s.attempts| && Involved(s.attempts[j], runner) && s.attempts[j].runId == s.attempts[i].runId
              && (s.attempts[j].startedAt > s.attempts[i].startedAt
                  || (s.attempts[j].startedAt == s.attempts[i].startedAt && j < i))) == {};
  }

  lemma {:induction false} LifecycleEventFields(s: Db, runner: RunnerId, eventType: string, i: nat)
    requires i < |s.attempts|
    ensures var event, max := LifecycleEvent(s, runner, eventType, i), MaxSeq(s.events, s.attempts[i].runId);
            && event.runId == s.attempts[i].runId && event.attemptId == Some(i)
            && event.seqNo == (if max.Some? then max.value else 0) + SeqOffset(s.attempts, runner, i)
  {
    hide MaxSeq, SeqOffset;
  }

  lemma {:induction false} LifecycleEventNumbered(s: Db, runner: RunnerId, eventType: string, i: nat, sofar: seq<Event>)
    requires Coupled(s) && Numbered(s.events) && Numbered(s.events + sofar)
    requires i < |s.attempts| && Involved(s.attempts[i], runner)
    requires forall e :: 0 <= e < |sofar| ==> sofar[e].runId != s.attempts[i].runId
    ensures Numbered(s.events + (sofar + [LifecycleEvent(s, runner, eventType, i)]))
  {
    var event := LifecycleEvent(s, runner, eventType, i);
    var r := s.attempts[i].runId;
    hide *;
    LifecycleEventFields(s, runner, eventType, i);
    OffsetIsOne(s, runner, i);
    MaxSeqIsCount(s.events, r);
    EventCountAppend(s.events, sofar, r);
    NumberedAppend(s.events + sofar, event);
    assert s.events + sofar + [event] == s.events + (sofar + [event]);
  }

  /** The lifecycle insert numbers its events like single appends would. */
  lemma {:induction false} LifecycleNumbered(s: Db, runner: RunnerId, eventType: string, i: nat, sofar: seq<Event>)
    requires Coupled(s) && Numbered(s.events) && i <= |s.attempts| && Numbered(s.events + sofar)
    requires forall e, j :: 0 <= e < |sofar| && i <= j < |s.attempts| && Involved(s.attempts[j], runner) ==>
               sofar[e].runId != s.attempts[j].runId
    ensures Numbered(s.events + (sofar + LifecycleEvents(s, runner, eventType, i)))
    decreases |s.attempts| - i
  {
    hide Numbered, MaxSeq, SeqOffset;
    if i == |s.attempts| {
      assert sofar + [] == sofar;
    } else if !Involved(s.attempts[i], runner) {
      LifecycleNumbered(s, runner, eventType, i + 1, sofar);
    } else {
      var event, rest := LifecycleEvent(s, runner, eventType, i), LifecycleEvents(s, runner, eventType, i + 1);
      assert LifecycleEvents(s, runner, eventType, i) == [event] + rest;
      LifecycleEventNumbered(s, runner, eventType, i, sofar);
      SoleActive(s, i);
      LifecycleNumbered(s, runner, eventType, i + 1, sofar + [event]);
      assert sofar + [event] + rest == sofar + ([event] + rest);
    }
  }

  /** All three ways of appending events keep the numbering. */
  lemma {:induction false} NumberedStep(s: Db, now: Time, action: Action)
    requires Coupled(s) && Numbered(s.events)
    ensures Numbered(Next(s, now, action).events)
  {
    if !Accepts(s, now, action) { return; }
    match action
    case AppendRunEvent(a, _, eventType) => NumberedNext(s.events, s.attempts[a].runId, Some(a), eventType);
    case RecordAccess(r, named, eventType) => NumberedNext(s.events, r, named, eventType);
    case RecordLifecycle(runner, eventType) =>
      assert s.events + [] == s.events;
      LifecycleNumbered(s, runner, eventType, 0, []);
      assert [] + LifecycleEvents(s, runner, eventType, 0) == LifecycleEvents(s, runner, eventType, 0);
    case _ =>
  }

  /** Every step keeps the invariant. */
  lemma {:induction false} InvNext(s: Db, before: Time, now: Time, action: Action)
    requires Inv(s, before) && before <= now
    ensures Inv(Next(s, now, action), now)
  {
    CoupledNext(s, now, action);
    TimedNext(s, before, now, action);
    NumberedStep(s, now, action);
  }

  function LastTime(start: Time, log: seq<Entry>): Time {
    if log == [] then start else log[|log| - 1].now
  }

  /** The invariant holds after every history that starts with an empty database. */
  lemma {:induction false} InvAfter(log: seq<Entry>, start: Time)
    requires Ordered(log) && (log != [] ==> start <= log[0].now)
    ensures Inv(After(EMPTY, log), LastTime(start, log))
  {
    if log != [] {
      var init := log[..|log| - 1];
      InvAfter(init, start);
      InvNext(After(EMPTY, init), LastTime(start, init), log[|log| - 1].now, log[|log| - 1].action);
    }
  }

  // ---- runs and their attempts ----

  ghost function AttemptsOf(s: Db, r: RunId, status: AttemptStatus): set<nat> {
    set a | 0 <= a < |s.attempts| && s.attempts[a].runId == r && s.attempts[a].status == status
  }

  lemma {:induction false} AtMostOne(xs: set<nat>)
    requires forall x, y :: x in xs && y in xs ==> x == y
    ensures |xs| <= 1
  {
    if xs != {} {
      var x :| x in xs;
      assert xs == {x};
    }
  }

  /** A running run has exactly one running attempt, a cancelled run at most one, any other run none;
      a run is completed exactly when it has exactly one succeeded attempt. */
  lemma {:induction false} RunAttemptCoupling(s: Db, now: Time, r: RunId)
    requires Inv(s, now) && r in s.runs
    ensures |AttemptsOf(s, r, Working)| <= 1
    ensures s.runs[r].status == Running ==> |AttemptsOf(s, r, Working)| == 1
    ensures |AttemptsOf(s, r, Working)| > 0 ==> s.runs[r].status in {Running, Cancelled}
    ensures s.runs[r].status == Completed <==> |AttemptsOf(s, r, Succeeded)| == 1
    ensures |AttemptsOf(s, r, Succeeded)| <= 1
    ensures |AttemptsOf(s, r, Broken)| <= 1 && (|AttemptsOf(s, r, Broken)| > 0 ==> s.runs[r].status == Failed)
  {
    forall st | st in {Working, Succeeded, Broken} ensures |AttemptsOf(s, r, st)| <= 1 {
      forall x, y | x in AttemptsOf(s, r, st) && y in AttemptsOf(s, r, st) ensures x == y { SoleActive(s, x); }
      AtMostOne(AttemptsOf(s, r, st));
    }
    forall st, a | a in AttemptsOf(s, r, st) ensures Agrees(s, a) {}
    if s.runs[r].status == Running {
      var a :| 0 <= a < |s.attempts| && s.attempts[a].runId == r && s.attempts[a].status == Working;
      assert a in AttemptsOf(s, r, Working);
    }
    if s.runs[r].status == Completed {
      var a :| 0 <= a < |s.attempts| && s.attempts[a].runId == r && s.attempts[a].status == Succeeded;
      assert a in AttemptsOf(s, r, Succeeded);
    }
    forall st | AttemptsOf(s, r, st) != {} ensures exists a :: a in AttemptsOf(s, r, st) && Agrees(s, a) {
      var a :| a in AttemptsOf(s, r, st);
    }
  }

  /** A completed, failed or cancelled run keeps its row and its set of attempts through any further history. */
  lemma {:induction false} TerminalForever(s: Db, log: seq<Entry>, r: RunId)
    requires r in s.runs && s.runs[r].status.Terminal()
    ensures var t := After(s, log);
            && r in t.runs && t.runs[r] == s.runs[r]
            && |t.attempts| >= |s.attempts|
            && (forall a :: 0 <= a < |s.attempts| ==> t.attempts[a].runId == s.attempts[a].runId)
            && (forall a :: |s.attempts| <= a < |t.attempts| ==> t.attempts[a].runId != r)
  {
    if log != [] {
      var init, last := log[..|log| - 1], log[|log| - 1];
      TerminalForever(s, init, r);
      var m := After(s, init);
      assert Next(m, last.now, last.action).runs[r] == m.runs[r];
    }
  }

  // ---- fencing ----

  /** An attempt that is not live at some moment is not live at any later moment, whatever happens in between. */
  lemma {:induction false} LapseIsFinal(s: Db, from: Time, log: seq<Entry>, a: nat, later: Time)
    requires a < |s.attempts| && !Live(s, from, a)
    requires Ordered(log) && (log != [] ==> from <= log[0].now) && LastTime(from, log) <= later
    ensures a < |After(s, log).attempts| && !Live(After(s, log), later, a)
  {
    if log != [] {
      var init, last := log[..|log| - 1], log[|log| - 1];
      LapseIsFinal(s, from, init, a, last.now);
      var m := After(s, init);
      var t := Next(m, last.now, last.action);
      assert t.attempts[a].status == Working ==>
               m.attempts[a].status == Working && t.attempts[a].leaseExpiresAt == m.attempts[a].leaseExpiresAt;
    }
  }

  /** The lease of an attempt ends before the next attempt of the same run starts; so no two attempts
      of a run are ever live together. */
  lemma {:induction false} LeasesDisjoint(s: Db, now: Time, a: nat, b: nat)
    requires Inv(s, now) && a < b < |s.attempts| && s.attempts[a].runId == s.attempts[b].runId
    ensures s.attempts[a].status == Expired && s.attempts[a].leaseExpiresAt < s.attempts[b].startedAt
    ensures forall t: Time :: !Live(s, t, a)
  {
    assert Agrees(s, a);
  }

  /** An attempt that has been superseded can write nothing any more: heartbeat, event, complete and fail
      leave the database as it is, at any time after any further history. */
  lemma {:induction false} SupersededIsFenced(s: Db, now: Time, a: nat, b: nat, log: seq<Entry>, later: Time, action: Action)
    requires Inv(s, now) && a < b < |s.attempts| && s.attempts[a].runId == s.attempts[b].runId
    requires Ordered(log) && (log != [] ==> now <= log[0].now) && LastTime(now, log) <= later
    requires action.HeartbeatAttempt? || action.AppendRunEvent? || action.CompleteAttempt? || action.FailAttempt?
    requires action.attempt == a
    ensures Next(After(s, log), later, action) == After(s, log)
  {
    LeasesDisjoint(s, now, a, b);
    LapseIsFinal(s, now, log, a, later);
  }

  // ---- cancellation and recovery ----

  /** Renewals of an attempt, each when the lease granted by the one before is about to end. */
  function Renewals(a: nat, runner: RunnerId, leaseSeconds: nat, from: Time, n: nat): (log: seq<Entry>)
    ensures |log| == n
  {
    if n == 0 then []
    else Renewals(a, runner, leaseSeconds, from, n - 1)
         + [Entry(from + (n - 1) * (leaseSeconds * SECOND), HeartbeatAttempt(a, runner, leaseSeconds))]
  }

  /** By renewing, the attempt of a cancelled run stays live for as long as it likes. */
  lemma {:induction false} CancelledRunKeepsLease(s: Db, from: Time, a: nat, leaseSeconds: nat, n: nat)
    requires a < |s.attempts| && Live(s, from, a) && RunIs(s, a, Cancelled)
    ensures var t := After(s, Renewals(a, s.attempts[a].runner, leaseSeconds, from, n));
            && t.runs == s.runs && |t.attempts| == |s.attempts|
            && t.attempts[a].runId == s.attempts[a].runId && t.attempts[a].runner == s.attempts[a].runner
            && Live(t, from + n * (leaseSeconds * SECOND), a)
  {
    if n > 0 {
      CancelledRunKeepsLease(s, from, a, leaseSeconds, n - 1);
      var runner := s.attempts[a].runner;
      var init, lease := Renewals(a, runner, leaseSeconds, from, n - 1), leaseSeconds * SECOND;
      RenewalStep(After(s, init), from + (n - 1) * lease, a, leaseSeconds);
      hide Next, RunIs;
      assert Renewals(a, runner, leaseSeconds, from, n)[..n - 1] == init;
      assert n * lease == (n - 1) * lease + lease;
    }
  }

  lemma {:induction false} RenewalStep(s: Db, now: Time, a: nat, leaseSeconds: nat)
    requires a < |s.attempts| && Live(s, now, a)
    ensures var t := Next(s, now, HeartbeatAttempt(a, s.attempts[a].runner, leaseSeconds));
            && t.runs == s.runs && |t.attempts| == |s.attempts|
            && t.attempts[a].runId == s.attempts[a].runId && t.attempts[a].runner == s.attempts[a].runner
            && Live(t, now + leaseSeconds * SECOND, a)
  {
    assert Held(s, now, a, s.attempts[a].runner);
  }

  /** But it never completes or fails, whatever happens; nor does any other attempt of the run. */
  lemma {:induction false} CancelledRunNeverSettles(s: Db, log: seq<Entry>, r: RunId, a: nat)
    requires r in s.runs && s.runs[r].status == Cancelled
    requires a < |s.attempts| && s.attempts[a].runId == r && s.attempts[a].status in {Working, Expired}
    ensures var t := After(s, log);
            && r in t.runs && t.runs[r] == s.runs[r]
            && a < |t.attempts| && t.attempts[a].runId == r && t.attempts[a].status in {Working, Expired}
  {
    TerminalForever(s, log, r);
    if log != [] {
      CancelledRunNeverSettles(s, log[..|log| - 1], r, a);
      SettlesOnlyRunning(After(s, log[..|log| - 1]), log[|log| - 1].now, log[|log| - 1].action, a);
    }
  }

  lemma {:induction false} SettlesOnlyRunning(s: Db, now: Time, action: Action, a: nat)
    requires a < |s.attempts| && !RunIs(s, a, Running) && s.attempts[a].status in {Working, Expired}
    ensures a < |Next(s, now, action).attempts| && Next(s, now, action).attempts[a].status in {Working, Expired}
  {
    hide MaxSeq, LifecycleEvents;
  }

  /** Right after a sweep a run is running exactly when it has a live attempt and was not cancelled,
      and the runs that lost their attempt are claimable again. */
  lemma {:induction false} SweepRecovers(s: Db, before: Time, now: Time, r: RunId)
    requires Inv(s, before) && before <= now && r in s.runs
    ensures var t := Next(s, now, ExpireLeases);
            && r in t.runs
            && (t.runs[r].status == Running <==>
                  s.runs[r].status != Cancelled && exists a: nat :: Live(t, now, a) && t.attempts[a].runId == r)
            && (s.runs[r].status == Running && t.runs[r].status != Running ==>
                  t.runs[r].status.Queued() && forall runner, lease, hash :: Accepts(t, now, ClaimRun(r, runner, lease, hash)))
            && (forall a :: 0 <= a < |t.attempts| && t.attempts[a].status == Working ==> Live(t, now, a))
  {
    var t := Next(s, now, ExpireLeases);
    InvNext(s, before, now, ExpireLeases);
    SweptAreLive(s, now);
    hide Inv;
    assert Coupled(t) by { InvIs(t, now); }
    RunningIffLive(t, now, r);
  }

  lemma InvIs(s: Db, now: Time)
    ensures Inv(s, now) ==> Coupled(s)
  {
  }

  lemma SweptAreLive(s: Db, now: Time)
    ensures var t := Next(s, now, ExpireLeases);
            forall a :: 0 <= a < |t.attempts| && t.attempts[a].status == Working ==> Live(t, now, a)
  {
  }

  /** Where no running attempt has lapsed, the runs with a live attempt are those that are running or cancelled. */
  lemma {:induction false} RunningIffLive(t: Db, now: Time, r: RunId)
    requires Coupled(t) && r in t.runs
    requires forall a :: 0 <= a < |t.attempts| && t.attempts[a].status == Working ==> Live(t, now, a)
    ensures t.runs[r].status == Running <==>
              t.runs[r].status != Cancelled && exists a: nat :: Live(t, now, a) && t.attempts[a].runId == r
  {
    if t.runs[r].status == Running {
      assert HasAttempt(t, r, Working);
      var a :| 0 <= a < |t.attempts| && t.attempts[a].runId == r && t.attempts[a].status == Working;
      assert Live(t, now, a);
    }
    if a: nat :| Live(t, now, a) && t.attempts[a].runId == r {
      assert Agrees(t, a);
    }
  }

  // ---- the event journal ----

  ghost predicate HasNumber(events: seq<Event>, r: RunId, k: int) {
    exists e :: 0 <= e < |events| && events[e].runId == r && events[e].seqNo == k
  }

  /** The events of a run bear exactly the numbers 1 to n, in insertion order. */
  lemma {:induction false} EventsExactlyNumbered(events: seq<Event>, r: RunId)
    requires Numbered(events)
    ensures forall k: int :: HasNumber(events, r, k) <==> 1 <= k <= EventCount(events, r)
    ensures forall e, f :: 0 <= e < f < |events| && events[e].runId == events[f].runId == r ==> events[e].seqNo < events[f].seqNo
  {
    if events != [] {
      var n := |events| - 1;
      var init, last := events[..n], events[n];
      EventsExactlyNumbered(init, r);
      forall e | 0 <= e < n ensures events[e] == init[e] {}
      forall k: int
        ensures HasNumber(events, r, k) <==> HasNumber(init, r, k) || (last.runId == r && last.seqNo == k)
      {
        if HasNumber(init, r, k) {
          var e :| 0 <= e < n && init[e].runId == r && init[e].seqNo == k;
          assert events[e].seqNo == k;
        }
      }
      forall e | 0 <= e < n && events[e].runId == r ensures events[e].seqNo <= EventCount(init, r) {
        assert HasNumber(init, r, init[e].seqNo);
      }
    }
  }
}
