/** The event journal of a run: its numbers, and when its events form one block per attempt. */
module RunJournal {
  import opened Outcomes
  import opened RunState
  import opened RunLease

  predicate Names(event: Event, r: RunId) { event.runId == r && event.attemptId.Some? }

  /** Every attempt that an event names exists. */
  ghost predicate Linked(s: Db) {
    forall e :: 0 <= e < |s.events| && s.events[e].attemptId.Some? ==> s.events[e].attemptId.value < |s.attempts|
  }

  /** The events of the run name attempts of that run, and a later event never names an earlier attempt. */
  ghost predicate InBlocks(s: Db, r: RunId) {
    && (forall e :: 0 <= e < |s.events| && Names(s.events[e], r) ==>
          s.events[e].attemptId.value < |s.attempts| && s.attempts[s.events[e].attemptId.value].runId == r)
    && (forall e, f :: 0 <= e < f < |s.events| && Names(s.events[e], r) && Names(s.events[f], r) ==>
          s.events[e].attemptId.value <= s.events[f].attemptId.value)
  }

  /** An unguarded insert names no attempt, or one of the run that no event of the run is past. */
  ghost predicate Fits(s: Db, r: RunId, named: Option<nat>) {
    named.Some? ==>
      && named.value < |s.attempts| && s.attempts[named.value].runId == r
      && forall e :: 0 <= e < |s.events| && Names(s.events[e], r) ==> s.events[e].attemptId.value <= named.value
  }

  /** The step is no unguarded insert into the journal of the run, or one that fits. */
  ghost predicate FitsStep(s: Db, now: Time, action: Action, r: RunId) {
    action.RecordAccess? && action.run == r && Accepts(s, now, action) ==> Fits(s, r, action.named)
  }

  /** Every unguarded insert of the history fitted when it was made. */
  ghost predicate AllFit(log: seq<Entry>, r: RunId) {
    log == [] || (
      && AllFit(log[..|log| - 1], r)
      && FitsStep(After(EMPTY, log[..|log| - 1]), log[|log| - 1].now, log[|log| - 1].action, r))
  }

  // ---- one step ----

  /** What the journal inherits when no row of an event changes. */
  lemma {:induction false} BlocksKept(s: Db, t: Db, r: RunId)
    requires Linked(s) && t.events == s.events && |t.attempts| >= |s.attempts|
    requires forall a :: 0 <= a < |s.attempts| ==> t.attempts[a].runId == s.attempts[a].runId
    ensures Linked(t) && (InBlocks(t, r) <==> InBlocks(s, r))
  {
  }

  /** One appended event keeps the blocks exactly when it fits. */
  lemma {:induction false} BlocksAppend(s: Db, t: Db, event: Event, r: RunId)
    requires Linked(s) && t == s.(events := s.events + [event])
    requires event.attemptId.Some? ==> event.attemptId.value < |s.attempts|
    ensures Linked(t)
    ensures InBlocks(t, r) <==> InBlocks(s, r) && (event.runId == r ==> Fits(s, r, event.attemptId))
  {
    var n := |s.events|;
    assert forall e :: 0 <= e < n ==> t.events[e] == s.events[e];
    assert t.events[n] == event;
    if InBlocks(t, r) && event.runId == r && event.attemptId.Some? {
      forall e | 0 <= e < n && Names(s.events[e], r) ensures s.events[e].attemptId.value <= event.attemptId.value {
        assert Names(t.events[e], r) && Names(t.events[n], r);
      }
    }
  }

  /** A running attempt is past every attempt of its run that an event names. */
  lemma {:induction false} WorkingFits(s: Db, a: nat)
    requires Coupled(s) && a < |s.attempts| && s.attempts[a].status == Working
    requires InBlocks(s, s.attempts[a].runId)
    ensures Fits(s, s.attempts[a].runId, Some(a))
  {
    assert Agrees(s, a);
  }

  /** The lifecycle insert keeps the blocks as they are. */
  lemma {:induction false} BlocksLifecycle(s: Db, m: Db, runner: RunnerId, eventType: string, i: nat, r: RunId)
    requires Coupled(s) && Linked(m) && i <= |s.attempts| && m == s.(events := m.events)
    ensures var t := m.(events := m.events + LifecycleEvents(s, runner, eventType, i));
            Linked(t) && (InBlocks(t, r) <==> InBlocks(m, r))
    decreases |s.attempts| - i
  {
    hide MaxSeq, SeqOffset, InBlocks, Fits, Linked, Coupled;
    if i == |s.attempts| {
      assert m.events + [] == m.events;
    } else if !Involved(s.attempts[i], runner) {
      BlocksLifecycle(s, m, runner, eventType, i + 1, r);
    } else {
      var event, rest := LifecycleEvent(s, runner, eventType, i), LifecycleEvents(s, runner, eventType, i + 1);
      assert LifecycleEvents(s, runner, eventType, i) == [event] + rest;
      var next := m.(events := m.events + [event]);
      assert next == s.(events := next.events);
      BlocksAppend(m, next, event, r);
      if s.attempts[i].runId == r && InBlocks(m, r) {
        CoupledEvents(s, m);
        WorkingFits(m, i);
      }
      BlocksLifecycle(s, next, runner, eventType, i + 1, r);
      assert m.events + [event] + rest == m.events + ([event] + rest);
    }
  }

  lemma {:induction false} CoupledEvents(s: Db, t: Db)
    requires Coupled(s) && t == s.(events := t.events)
    ensures Coupled(t)
  {
    CoupledSameStatus(s, t);
  }

  /** A step keeps the blocks of a run unless it is an unguarded insert that does not fit;
      blocks once broken stay broken. */
  lemma {:induction false} BlocksStep(s: Db, now: Time, action: Action, r: RunId)
    requires Coupled(s) && Linked(s)
    ensures Linked(Next(s, now, action))
    ensures InBlocks(Next(s, now, action), r) <==> InBlocks(s, r) && FitsStep(s, now, action, r)
  {
    hide InBlocks, Fits, Linked, Coupled, MaxSeq, LifecycleEvents, HasLapsed;
    var t := Next(s, now, action);
    if !Accepts(s, now, action) { return; }
    match action
    case AppendRunEvent(a, _, eventType) =>
      var q := s.attempts[a].runId;
      BlocksAppend(s, t, Event(q, Some(a), NextSeq(s.events, q), eventType), r);
      if q == r && InBlocks(s, r) { WorkingFits(s, a); }
    case RecordAccess(q, named, eventType) =>
      BlocksAppend(s, t, Event(q, named, NextSeq(s.events, q), eventType), r);
    case RecordLifecycle(runner, eventType) => BlocksLifecycle(s, s, runner, eventType, 0, r);
    case _ => BlocksKept(s, t, r);
  }

  // ---- every history ----

  lemma {:induction false} BlocksAfter(log: seq<Entry>, r: RunId)
    requires Ordered(log)
    ensures Linked(After(EMPTY, log))
    ensures InBlocks(After(EMPTY, log), r) <==> AllFit(log, r)
  {
    if log != [] {
      var init, last := log[..|log| - 1], log[|log| - 1];
      BlocksAfter(init, r);
      InvAfter(init, if init == [] then 0 else init[0].now);
      BlocksStep(After(EMPTY, init), last.now, last.action, r);
    }
  }

  /** Read in the order of their numbers, the events of the run that name an attempt come in one block
      per attempt, the blocks in claim order. */
  ghost predicate InClaimOrder(s: Db, r: RunId) {
    && (forall e :: 0 <= e < |s.events| && Names(s.events[e], r) ==>
          s.events[e].attemptId.value < |s.attempts| && s.attempts[s.events[e].attemptId.value].runId == r)
    && (forall e, f :: 0 <= e < |s.events| && 0 <= f < |s.events| && Names(s.events[e], r) && Names(s.events[f], r)
                       && s.events[e].seqNo < s.events[f].seqNo ==>
          s.events[e].attemptId.value <= s.events[f].attemptId.value)
  }

  lemma {:induction false} ClaimOrderIff(s: Db, r: RunId)
    requires Numbered(s.events)
    ensures InClaimOrder(s, r) <==> InBlocks(s, r)
  {
    EventsExactlyNumbered(s.events, r);
    hide Numbered, EventCount, HasNumber;
  }

  /** After every history the events of a run bear the numbers 1 to n, whichever of the three ways they were
      appended; and they are in claim order exactly when every unguarded insert fitted when it was made. */
  lemma {:induction false} JournalOfHistory(log: seq<Entry>, r: RunId)
    requires Ordered(log)
    ensures var t := After(EMPTY, log);
            && (forall k: int :: HasNumber(t.events, r, k) <==> 1 <= k <= EventCount(t.events, r))
            && (InClaimOrder(t, r) <==> AllFit(log, r))
  {
    InvAfter(log, if log == [] then 0 else log[0].now);
    EventsExactlyNumbered(After(EMPTY, log).events, r);
    ClaimOrderIff(After(EMPTY, log), r);
    BlocksAfter(log, r);
  }

  /** A history without unguarded inserts that name an attempt of the run is always in claim order. */
  lemma {:induction false} GuardedAppendsFit(log: seq<Entry>, r: RunId)
    requires forall i :: 0 <= i < |log| && log[i].action.RecordAccess? && log[i].action.run == r ==> log[i].action.named.None?
    ensures AllFit(log, r)
  {
    if log != [] {
      GuardedAppendsFit(log[..|log| - 1], r);
    }
  }

  // ---- a history that breaks the blocks ----

  /** Attempt 0 gets an access request, its lease lapses, attempt 1 takes over and appends an event;
      then the owner cancels the access request, which still names attempt 0. */
  const LATE_CANCEL: seq<Entry> := [
    Entry(0, CreateRun(0, "", None)), Entry(0, ClaimRun(0, 0, 60, 0)), Entry(SECOND, RecordAccess(0, Some(0), "requested")),
    Entry(61 * SECOND, ExpireLeases), Entry(62 * SECOND, ClaimRun(0, 1, 60, 0)), Entry(63 * SECOND, AppendRunEvent(1, 1, "step")),
    Entry(64 * SECOND, RecordAccess(0, Some(0), "cancelled"))]

  lemma {:induction false} Advance(log: seq<Entry>, i: nat, s: Db, t: Db)
    requires i < |log| && After(EMPTY, log[..i]) == s && Next(s, log[i].now, log[i].action) == t
    ensures After(EMPTY, log[..i + 1]) == t
  {
    hide Next;
    assert log[..i + 1][..i] == log[..i];
  }

  lemma {:induction false} SweepOne(run: Run, first: Attempt, event: Event, now: Time)
    requires run.status == Running && Lapsed(first, now) && first.runId == 0
    ensures Expire(Db(map[0 := run], [first], [event]), now) == Db(map[0 := Requeue(run)], [ExpireAttempt(first, now)], [event])
  {
    assert [first][0].runId == 0;
  }

  const RUN: Run := Run(Running, "", None, 0, Some(0), None, None)
  const FIRST_ATTEMPT: Attempt := Attempt(0, 0, Working, 60 * SECOND, 0, 0, None, None, 0)
  const SECOND_ATTEMPT: Attempt := Attempt(0, 1, Working, 122 * SECOND, 62 * SECOND, 62 * SECOND, None, None, 0)
  const REQUESTED: Event := Event(0, Some(0), 1, "requested")

  /** What the history leaves before and after its last step. */
  const TAKEN_OVER: Db :=
    Db(map[0 := RUN], [ExpireAttempt(FIRST_ATTEMPT, 61 * SECOND), SECOND_ATTEMPT], [REQUESTED, Event(0, Some(1), 2, "step")])
  const CANCELLED_LATE: Db := TAKEN_OVER.(events := TAKEN_OVER.events + [Event(0, Some(0), 3, "cancelled")])

  lemma {:induction false} LateCancelStates()
    ensures After(EMPTY, LATE_CANCEL[..6]) == TAKEN_OVER
    ensures After(EMPTY, LATE_CANCEL) == CANCELLED_LATE
  {
    hide After;
    assert After(EMPTY, LATE_CANCEL[..0]) == EMPTY by { AfterNothing(EMPTY, LATE_CANCEL); }
    var requested := Db(map[0 := RUN], [FIRST_ATTEMPT], [REQUESTED]);
    Advance(LATE_CANCEL, 0, EMPTY, Db(map[0 := Run(Created, "", None, 0, None, None, None)], [], []));
    Advance(LATE_CANCEL, 1, Db(map[0 := Run(Created, "", None, 0, None, None, None)], [], []), Db(map[0 := RUN], [FIRST_ATTEMPT], []));
    Advance(LATE_CANCEL, 2, Db(map[0 := RUN], [FIRST_ATTEMPT], []), requested);
    LateCancelEnd(requested);
  }

  lemma {:induction false} LateCancelEnd(requested: Db)
    requires requested == Db(map[0 := RUN], [FIRST_ATTEMPT], [REQUESTED]) && After(EMPTY, LATE_CANCEL[..3]) == requested
    ensures After(EMPTY, LATE_CANCEL[..6]) == TAKEN_OVER
    ensures After(EMPTY, LATE_CANCEL) == CANCELLED_LATE
  {
    hide After;
    var swept := Db(map[0 := Requeue(RUN)], [ExpireAttempt(FIRST_ATTEMPT, 61 * SECOND)], [REQUESTED]);
    var claimed := Db(map[0 := RUN], [ExpireAttempt(FIRST_ATTEMPT, 61 * SECOND), SECOND_ATTEMPT], [REQUESTED]);
    SweepOne(RUN, FIRST_ATTEMPT, REQUESTED, 61 * SECOND);
    Advance(LATE_CANCEL, 3, requested, swept);
    Advance(LATE_CANCEL, 4, swept, claimed);
    Advance(LATE_CANCEL, 5, claimed, TAKEN_OVER);
    Advance(LATE_CANCEL, 6, TAKEN_OVER, CANCELLED_LATE);
    assert LATE_CANCEL[..7] == LATE_CANCEL;
  }

  lemma {:induction false} LateAccessEventBreaksBlocks()
    ensures Ordered(LATE_CANCEL)
    ensures InClaimOrder(After(EMPTY, LATE_CANCEL[..6]), 0)
    ensures !InClaimOrder(After(EMPTY, LATE_CANCEL), 0)
  {
    LateCancelStates();
    assert CANCELLED_LATE.events[1] == Event(0, Some(1), 2, "step");
    assert CANCELLED_LATE.events[2] == Event(0, Some(0), 3, "cancelled");
    assert Names(CANCELLED_LATE.events[1], 0) && Names(CANCELLED_LATE.events[2], 0);
    hide After;
  }

  lemma AfterNothing(s: Db, log: seq<Entry>)
    ensures After(s, log[..0]) == s
  {
  }
}
