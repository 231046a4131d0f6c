/** The renewal loop of a worker together with the lease the database keeps for its attempt. */
module WorkerLease {
  import opened Outcomes
  import opened RunState
  import opened RunLease
  import opened RunEffects

  /** What one heartbeat call ends with, as the worker sees it. */
  datatype Beat = Renewed(cancelled: bool) | Missed

  /** The local state of the heartbeat loop. */
  datatype Worker = Worker(leaseDeadline: Time, consecutiveFailures: nat, leaseLost: bool, cancelRequested: bool) {
    predicate Stopped() { leaseLost || cancelRequested }
  }

  /** `Date.now()` counts whole milliseconds, the database microseconds. */
  function Millis(now: Time): Time { now - now % 1000 }

  function StartWorker(now: Time, leaseSeconds: nat): Worker { Worker(Millis(now) + leaseSeconds * SECOND, 0, false, false) }

  /** One turn of the loop, with the time after the call. */
  function OnBeat(w: Worker, now: Time, leaseSeconds: nat, beat: Beat): Worker {
    match beat
    case Renewed(cancelled) => Worker(Millis(now) + leaseSeconds * SECOND, 0, w.leaseLost, w.cancelRequested || cancelled)
    case Missed => w.(consecutiveFailures := w.consecutiveFailures + 1, leaseLost := w.leaseLost || Millis(now) >= w.leaseDeadline)
  }

  datatype Call = Call(now: Time, beat: Beat)

  /** The state after the calls; the loop ends at the first turn that stops it. */
  function AfterCalls(w: Worker, leaseSeconds: nat, calls: seq<Call>): Worker
    decreases |calls|
  {
    if calls == [] || w.Stopped() then w
    else AfterCalls(OnBeat(w, calls[0].now, leaseSeconds, calls[0].beat), leaseSeconds, calls[1..])
  }

  /** The heartbeat loop of `executeClaimedRun`. */
  method HeartbeatLoop(startedAt: Time, leaseSeconds: nat, calls: seq<Call>)
    returns (leaseDeadline: Time, consecutiveFailures: nat, leaseLost: bool, cancelRequested: bool)
    ensures Worker(leaseDeadline, consecutiveFailures, leaseLost, cancelRequested) ==
            AfterCalls(StartWorker(startedAt, leaseSeconds), leaseSeconds, calls)
  {
    leaseDeadline, consecutiveFailures, leaseLost, cancelRequested := Millis(startedAt) + leaseSeconds * SECOND, 0, false, false;
    for i := 0 to |calls|
      invariant !leaseLost && !cancelRequested
      invariant AfterCalls(Worker(leaseDeadline, consecutiveFailures, leaseLost, cancelRequested), leaseSeconds, calls[i..]) ==
                AfterCalls(StartWorker(startedAt, leaseSeconds), leaseSeconds, calls)
    {
      assert calls[i..][1..] == calls[i + 1..];
      var call := calls[i];
      if call.beat.Renewed? {
        consecutiveFailures := 0;
        leaseDeadline := Millis(call.now) + leaseSeconds * SECOND;
        if call.beat.cancelled {
          cancelRequested := true;
          return;
        }
      } else {
        consecutiveFailures := consecutiveFailures + 1;
        if Millis(call.now) >= leaseDeadline {
          leaseLost := true;
          return;
        }
      }
    }
  }

  /** The time of the last successful renewal, or of the claim. */
  function LastRenewal(from: Time, calls: seq<Call>): Time {
    if calls == [] then from
    else if calls[|calls| - 1].beat.Renewed? then calls[|calls| - 1].now
    else LastRenewal(from, calls[..|calls| - 1])
  }

  lemma {:induction false} AfterCallsSnoc(w: Worker, leaseSeconds: nat, calls: seq<Call>, last: Call)
    ensures var m := AfterCalls(w, leaseSeconds, calls);
            AfterCalls(w, leaseSeconds, calls + [last]) == if m.Stopped() then m else OnBeat(m, last.now, leaseSeconds, last.beat)
    decreases |calls|
  {
    var all := calls + [last];
    if calls == [] {
      assert all[1..] == [];
    } else if !w.Stopped() {
      assert all[1..] == calls[1..] + [last];
      AfterCallsSnoc(OnBeat(w, calls[0].now, leaseSeconds, calls[0].beat), leaseSeconds, calls[1..], last);
    }
  }

  /** The deadline of a running loop is one lease after its last renewal, and it gives up exactly at the first
      failed call that ends a whole lease or more after it, in whole milliseconds. */
  lemma {:induction false} GivesUpIff(from: Time, leaseSeconds: nat, calls: seq<Call>, last: Call)
    requires !AfterCalls(StartWorker(from, leaseSeconds), leaseSeconds, calls).Stopped()
    ensures AfterCalls(StartWorker(from, leaseSeconds), leaseSeconds, calls).leaseDeadline
            == Millis(LastRenewal(from, calls)) + leaseSeconds * SECOND
    ensures AfterCalls(StartWorker(from, leaseSeconds), leaseSeconds, calls + [last]).leaseLost <==>
              last.beat.Missed? && Millis(last.now) >= Millis(LastRenewal(from, calls)) + leaseSeconds * SECOND
  {
    AfterCallsSnoc(StartWorker(from, leaseSeconds), leaseSeconds, calls, last);
    if calls != [] {
      var init := calls[..|calls| - 1];
      assert init + [calls[|calls| - 1]] == calls;
      AfterCallsSnoc(StartWorker(from, leaseSeconds), leaseSeconds, init, calls[|calls| - 1]);
      GivesUpIff(from, leaseSeconds, init, calls[|calls| - 1]);
    }
  }

  /** While the loop runs, a renewal that reports the cancellation stops it for that reason and nothing else does; and its
      count of failures is the number of calls missed since the last renewal. */
  lemma {:induction false} StopsWhenCancelled(from: Time, leaseSeconds: nat, calls: seq<Call>, last: Call)
    requires !AfterCalls(StartWorker(from, leaseSeconds), leaseSeconds, calls).Stopped()
    ensures AfterCalls(StartWorker(from, leaseSeconds), leaseSeconds, calls + [last]).cancelRequested <==> last.beat == Renewed(true)
    ensures var misses := AfterCalls(StartWorker(from, leaseSeconds), leaseSeconds, calls).consecutiveFailures;
            && misses <= |calls| && (forall i :: |calls| - misses <= i < |calls| ==> calls[i].beat == Missed)
            && (misses < |calls| ==> calls[|calls| - misses - 1].beat.Renewed?)
  {
    AfterCallsSnoc(StartWorker(from, leaseSeconds), leaseSeconds, calls, last);
    if calls != [] {
      var init := calls[..|calls| - 1];
      assert init + [calls[|calls| - 1]] == calls;
      AfterCallsSnoc(StartWorker(from, leaseSeconds), leaseSeconds, init, calls[|calls| - 1]);
      StopsWhenCancelled(from, leaseSeconds, init, calls[|calls| - 1]);
    }
  }

  // ---- the worker and the database together ----

  /** The heartbeat calls of one attempt: which one the worker waits for, which are still on their way to the server,
      and the server's answer to the one it waits for. */
  datatype Link = Link(waiting: Option<nat>, onTheWay: set<nat>, answer: Option<Answer>, next: nat)

  datatype Answer = Granted(lease: Time, cancelled: bool) | Refused

  /** `acked` is the lease of the last grant the worker knows of; `lost` says that a grant was never acknowledged. */
  datatype System = System(db: Db, worker: Worker, link: Link, acked: Time, lost: bool)

  datatype Lease = Lease(attempt: nat, runner: RunnerId, leaseSeconds: nat)

  datatype Step =
    | Send
    | Handle(call: nat)
    | Receive
    | GiveUpWaiting
    | Other(action: Action)

  /** A heartbeat of this attempt is sent only by its own worker. */
  predicate Enabled(l: Lease, s: System, step: Step) {
    match step
    case Send => s.link.waiting.None? && !s.worker.Stopped()
    case Handle(call) => call in s.link.onTheWay
    case Receive => s.link.waiting.Some? && s.link.answer.Some?
    case GiveUpWaiting => s.link.waiting.Some?
    case Other(action) => !(action.HeartbeatAttempt? && action.attempt == l.attempt && action.runner == l.runner)
  }

  function Act(l: Lease, s: System, now: Time, step: Step): System
    requires Enabled(l, s, step)
  {
    match step
    case Send => s.(link := s.link.(waiting := Some(s.link.next), onTheWay := s.link.onTheWay + {s.link.next}, answer := None, next := s.link.next + 1))
    case Handle(call) =>
      var db := Next(s.db, now, HeartbeatAttempt(l.attempt, l.runner, l.leaseSeconds));
      var answer := if Held(s.db, now, l.attempt, l.runner) then Granted(db.attempts[l.attempt].leaseExpiresAt, RunIs(s.db, l.attempt, Cancelled)) else Refused;
      var link := s.link.(onTheWay := s.link.onTheWay - {call});
      if s.link.waiting == Some(call) then s.(db := db, link := link.(answer := Some(answer)))
      else s.(db := db, link := link, lost := s.lost || answer.Granted?)
    case Receive =>
      var answer, link := s.link.answer.value, s.link.(waiting := None, answer := None);
      var beat := match answer case Granted(_, cancelled) => Renewed(cancelled) case Refused => Missed;
      s.(worker := OnBeat(s.worker, now, l.leaseSeconds, beat), link := link, acked := if answer.Granted? then answer.lease else s.acked)
    case GiveUpWaiting =>
      s.(worker := OnBeat(s.worker, now, l.leaseSeconds, Missed), link := s.link.(waiting := None, answer := None),
         lost := s.lost || (s.link.answer.Some? && s.link.answer.value.Granted?))
    case Other(action) => s.(db := Next(s.db, now, action))
  }

  /** Right after a claim whose reply reached the worker at `now`. */
  predicate Fresh(l: Lease, s: System, now: Time) {
    && l.attempt < |s.db.attempts| && s.db.attempts[l.attempt].runner == l.runner
    && s.db.attempts[l.attempt].leaseExpiresAt <= now + l.leaseSeconds * SECOND
    && s.acked == s.db.attempts[l.attempt].leaseExpiresAt
    && s.worker == StartWorker(now, l.leaseSeconds) && s.link == Link(None, {}, None, 0) && !s.lost
  }

  /** The system when the reply of a claim reaches the worker. */
  function Claimed(db: Db, now: Time, r: RunId, runner: RunnerId, leaseSeconds: nat, tokenHash: nat, received: Time): System {
    System(Next(db, now, ClaimRun(r, runner, leaseSeconds, tokenHash)), StartWorker(received, leaseSeconds), Link(None, {}, None, 0),
           now + leaseSeconds * SECOND, false)
  }

  /** An accepted claim, however long its reply takes, is where the results below start from. */
  lemma {:induction false} ClaimStartsFresh(db: Db, now: Time, r: RunId, runner: RunnerId, leaseSeconds: nat, tokenHash: nat,
                                            received: Time)
    requires Accepts(db, now, ClaimRun(r, runner, leaseSeconds, tokenHash)) && now <= received
    ensures Fresh(Lease(|db.attempts|, runner, leaseSeconds), Claimed(db, now, r, runner, leaseSeconds, tokenHash, received), received)
  {
    ClaimGrants(db, now, r, runner, leaseSeconds, tokenHash);
  }

  /** What every step keeps: the worker's deadline is at most 999 microseconds before any grant it knows of, and unless a grant was lost the
      database holds no later lease than the last one granted to it. */
  ghost predicate Covered(l: Lease, s: System, now: Time) {
    && l.attempt < |s.db.attempts| && s.db.attempts[l.attempt].runner == l.runner
    && s.acked <= s.worker.leaseDeadline + 999
    && (s.link.waiting.None? ==> s.link.answer.None?)
    && (s.link.waiting.Some? && s.link.answer.Some? ==> s.link.waiting.value !in s.link.onTheWay)
    && (forall call :: call in s.link.onTheWay ==> call < s.link.next)
    && (s.link.waiting.Some? ==> s.link.waiting.value < s.link.next)
    && (s.link.answer.Some? && s.link.answer.value.Granted? ==> s.link.answer.value.lease <= now + l.leaseSeconds * SECOND)
    && (!s.lost ==> s.db.attempts[l.attempt].leaseExpiresAt == Known(s))
  }

  function Known(s: System): Time {
    if s.link.answer.Some? && s.link.answer.value.Granted? then s.link.answer.value.lease else s.acked
  }

  lemma OtherKeepsLease(l: Lease, s: System, now: Time, action: Action)
    requires l.attempt < |s.db.attempts| && s.db.attempts[l.attempt].runner == l.runner && Enabled(l, s, Other(action))
    ensures var db := Next(s.db, now, action);
            && l.attempt < |db.attempts| && db.attempts[l.attempt].runner == l.runner
            && db.attempts[l.attempt].leaseExpiresAt == s.db.attempts[l.attempt].leaseExpiresAt
  {
  }

  lemma {:induction false} ActCovers(l: Lease, s: System, before: Time, now: Time, step: Step)
    requires Covered(l, s, before) && before <= now && Enabled(l, s, step)
    ensures Covered(l, Act(l, s, now, step), now)
  {
    match step
    case Other(action) =>
      OtherKeepsLease(l, s, now, action);
      hide Next;
    case _ =>
  }

  datatype Event = Event(now: Time, step: Step)

  /** A run of the system in which every step is possible and the clock never goes back. */
  ghost predicate Run(l: Lease, s: System, from: Time, events: seq<Event>, last: System, at: Time)
    decreases |events|
  {
    if events == [] then last == s && at == from
    else
      && from <= events[0].now && Enabled(l, s, events[0].step)
      && Run(l, Act(l, s, events[0].now, events[0].step), events[0].now, events[1..], last, at)
  }

  lemma {:induction false} RunCovers(l: Lease, s: System, from: Time, events: seq<Event>, last: System, at: Time)
    requires Covered(l, s, from) && Run(l, s, from, events, last, at)
    ensures Covered(l, last, at) && from <= at
    decreases |events|
  {
    if events != [] {
      ActCovers(l, s, from, events[0].now, events[0].step);
      RunCovers(l, Act(l, s, events[0].now, events[0].step), events[0].now, events[1..], last, at);
    }
  }

  /** In every run since the claim, the worker's deadline is less than a millisecond before the lease of the last grant
      it was told of, if it is before it at all. */
  lemma {:induction false} DeadlineCoversGrants(l: Lease, s: System, from: Time, events: seq<Event>, last: System, at: Time)
    requires Fresh(l, s, from) && Run(l, s, from, events, last, at)
    ensures last.acked <= last.worker.leaseDeadline + 999
  {
    RunCovers(l, s, from, events, last, at);
  }

  /** When the worker gives up its lease and no grant went unacknowledged, the lease in the database ends within a
      millisecond; from then on, at any later moment and after any further history, the attempt can neither renew,
      append events, complete nor fail. */
  lemma {:induction false} LeaseLostIsLost(l: Lease, s: System, from: Time, events: seq<Event>, last: System, at: Time,
                                           step: Step, now: Time,
                        log: seq<Entry>, later: Time, action: Action)
    requires Fresh(l, s, from) && Run(l, s, from, events, last, at) && at <= now && Enabled(l, last, step)
    requires !last.worker.leaseLost && Act(l, last, now, step).worker.leaseLost && !Act(l, last, now, step).lost
    requires Ordered(log) && (log != [] ==> now + 999 < log[0].now)
    requires now + 999 < later && (log != [] ==> log[|log| - 1].now <= later)
    requires action.HeartbeatAttempt? || action.AppendRunEvent? || action.CompleteAttempt? || action.FailAttempt?
    requires action.attempt == l.attempt
    ensures var db := Act(l, last, now, step).db;
            && l.attempt < |db.attempts| && db.attempts[l.attempt].leaseExpiresAt <= now + 999
            && After(db, log) == Next(After(db, log), later, action)
  {
    RunCovers(l, s, from, events, last, at);
    ActCovers(l, last, at, now, step);
    var db := Act(l, last, now, step).db;
    GivenUpAt(l, last, at, now, step);
    assert !Live(db, now + 1000, l.attempt);
    LapseIsFinal(db, now + 1000, log, l.attempt, later);
    hide Act;
  }

  lemma GivenUpAt(l: Lease, s: System, before: Time, now: Time, step: Step)
    requires Covered(l, s, before) && before <= now && Enabled(l, s, step)
    requires !s.worker.leaseLost && Act(l, s, now, step).worker.leaseLost && !Act(l, s, now, step).lost
    ensures l.attempt < |Act(l, s, now, step).db.attempts|
    ensures Act(l, s, now, step).db.attempts[l.attempt].leaseExpiresAt <= now + 999
  {
  }

  /** The answer to a heartbeat that is handled while the run is cancelled stops the worker when it receives it. */
  lemma {:induction false} CancellationReaches(l: Lease, s: System, handled: Time, received: Time, call: nat)
    requires Enabled(l, s, Handle(call)) && s.link.waiting == Some(call) && Held(s.db, handled, l.attempt, l.runner)
    ensures var m := Act(l, s, handled, Handle(call));
            && Enabled(l, m, Receive)
            && var w := Act(l, m, received, Receive).worker;
            (w.cancelRequested <==> s.worker.cancelRequested || RunIs(s.db, l.attempt, Cancelled))
            && w.leaseLost == s.worker.leaseLost && w.consecutiveFailures == 0
  {
  }

  /** That millisecond is real: a worker whose claim was granted and acknowledged in the last microsecond of a
      millisecond can give up while its attempt is still live. */
  lemma {:induction false} GivesUpWhileLive(l: Lease, s: System, from: Time)
    requires Fresh(l, s, from) && from % 1000 == 999 && l.leaseSeconds >= 1
    requires s.db.attempts[l.attempt].status == Working
    requires s.db.attempts[l.attempt].leaseExpiresAt == from + l.leaseSeconds * SECOND
    ensures var now := Millis(from) + l.leaseSeconds * SECOND;
            && from <= now && Enabled(l, s, Send) && Enabled(l, Act(l, s, now, Send), GiveUpWaiting)
            && var last := Act(l, Act(l, s, now, Send), now, GiveUpWaiting);
            last.worker.leaseLost && !last.lost && Live(last.db, now + 999, l.attempt)
  {
    assert l.leaseSeconds * SECOND == l.leaseSeconds * 1000 * 1000;
    assert Millis(Millis(from) + l.leaseSeconds * SECOND) == Millis(from) + l.leaseSeconds * SECOND by {
      MillisWhole(from, l.leaseSeconds * 1000);
    }
  }

  lemma MillisWhole(from: Time, n: nat)
    ensures Millis(Millis(from) + n * 1000) == Millis(from) + n * 1000
  {
  }
}
