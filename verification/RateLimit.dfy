/** The fixed-window rate limiter: buckets per client address and per credential, and a periodic
    cleanup of the buckets whose window is over. */
module RateLimit {
  import opened Outcomes

  datatype Kind = Ip | Credential

  datatype BucketKey = BucketKey(kind: Kind, key: string)

  datatype Bucket = Bucket(windowStartedAt: int, count: nat)

  datatype Config = Config(enabled: bool, windowMs: nat, ipMax: int, credentialMax: int) {
    function Limit(kind: Kind): int { if kind.Ip? then ipMax else credentialMax }
  }

  datatype BucketDecision = BucketDecision(kind: Kind, limited: bool, limit: int, remaining: int, resetAt: int)

  datatype Decision = Decision(allowed: bool, bucket: BucketDecision)

  /** What a request shows to the limiter: whether its route is limited, and its hashed keys. */
  datatype Request = Request(limitedRoute: bool, ip: string, credential: Option<string>)

  datatype Limiter = Limiter(buckets: map<BucketKey, Bucket>, lastCleanupAt: int)

  const START: Limiter := Limiter(map[], 0)

  function Lookup(buckets: map<BucketKey, Bucket>, q: BucketKey): Option<Bucket> {
    if q in buckets then Some(buckets[q]) else None
  }

  predicate Expired(b: Bucket, windowMs: nat, now: int) { now >= b.windowStartedAt + windowMs }

  /** The window a consumption falls in: the current one, or a new one that starts now. */
  function Window(b: Option<Bucket>, windowMs: nat, now: int): Bucket {
    if b.Some? && !Expired(b.value, windowMs, now) then b.value else Bucket(now, 0)
  }

  /** One consumption of a bucket. */
  function Take(b: Option<Bucket>, windowMs: nat, limit: int, now: int): Bucket {
    var state := Window(b, windowMs, now);
    if state.count >= limit then state else state.(count := state.count + 1)
  }

  predicate Grants(b: Option<Bucket>, windowMs: nat, limit: int, now: int) { Window(b, windowMs, now).count < limit }

  function Decide(kind: Kind, b: Option<Bucket>, windowMs: nat, limit: int, now: int): BucketDecision {
    var state := Take(b, windowMs, limit, now);
    var limited := !Grants(b, windowMs, limit, now);
    BucketDecision(kind, limited, limit, if limited || limit < state.count then 0 else limit - state.count,
                   state.windowStartedAt + windowMs)
  }

  function Consume(config: Config, buckets: map<BucketKey, Bucket>, q: BucketKey,
                   now: int): (map<BucketKey, Bucket>, BucketDecision) {
    var existing, limit := Lookup(buckets, q), config.Limit(q.kind);
    (buckets[q := Take(existing, config.windowMs, limit, now)], Decide(q.kind, existing, config.windowMs, limit, now))
  }

  function Cleanup(config: Config, limiter: Limiter, now: int): Limiter {
    if now - limiter.lastCleanupAt < config.windowMs then limiter
    else Limiter(map q | q in limiter.buckets && !Expired(limiter.buckets[q], config.windowMs, now) :: limiter.buckets[q], now)
  }

  /** The first limited decision, or the one with least remaining. */
  function Combine(first: BucketDecision, second: Option<BucketDecision>): Decision {
    if first.limited then Decision(false, first)
    else if second.None? then Decision(true, first)
    else if second.value.limited then Decision(false, second.value)
    else Decision(true, if second.value.remaining < first.remaining then second.value else first)
  }

  /** Consumes the address bucket, then the credential bucket if there is one; both even when the first is limited. */
  function ConsumeAll(config: Config, buckets: map<BucketKey, Bucket>, request: Request,
                      now: int): (map<BucketKey, Bucket>, Decision) {
    var (afterIp, first) := Consume(config, buckets, BucketKey(Ip, request.ip), now);
    if request.credential.None? then (afterIp, Combine(first, None))
    else
      var (afterBoth, second) := Consume(config, afterIp, BucketKey(Credential, request.credential.value), now);
      (afterBoth, Combine(first, Some(second)))
  }

  function CheckStep(config: Config, limiter: Limiter, request: Request, now: int): (Limiter, Option<Decision>) {
    if !config.enabled || !request.limitedRoute then (limiter, None) else
      var cleaned := Cleanup(config, limiter, now);
      var (buckets, decision) := ConsumeAll(config, cleaned.buckets, request, now);
      (cleaned.(buckets := buckets), Some(decision))
  }

  // ---- the limiter as an object ----

  class InMemoryRateLimiter {
    const config: Config
    var buckets: map<BucketKey, Bucket>
    var lastCleanupAt: int

    constructor (config: Config)
      ensures this.config == config && State() == START
    {
      this.config := config;
      buckets, lastCleanupAt := map[], 0;
    }

    function State(): Limiter
      reads this
    {
      Limiter(buckets, lastCleanupAt)
    }

    method Check(request: Request, now: int) returns (r: Option<Decision>)
      modifies this
      ensures State() == CheckStep(config, old(State()), request, now).0
      ensures r == CheckStep(config, old(State()), request, now).1
    {
      if !config.enabled || !request.limitedRoute { return None; }
      CleanUp(now);
      var first := ConsumeBucket(Ip, request.ip, config.ipMax, now);
      if request.credential.None? {
        return Some(Combine(first, None));
      }
      var second := ConsumeBucket(Credential, request.credential.value, config.credentialMax, now);
      return Some(Combine(first, Some(second)));
    }

    method ConsumeBucket(kind: Kind, key: string, limit: int, now: int) returns (r: BucketDecision)
      requires limit == config.Limit(kind)
      modifies this`buckets
      ensures (buckets, r) == Consume(config, old(buckets), BucketKey(kind, key), now)
    {
      var q := BucketKey(kind, key);
      var state := Bucket(now, 0);
      if q in buckets && now < buckets[q].windowStartedAt + config.windowMs {
        state := buckets[q];
      }
      if state.count >= limit {
        buckets := buckets[q := state];
        return BucketDecision(kind, true, limit, 0, state.windowStartedAt + config.windowMs);
      }
      state := state.(count := state.count + 1);
      buckets := buckets[q := state];
      var remaining := if limit - state.count > 0 then limit - state.count else 0;
      return BucketDecision(kind, false, limit, remaining, state.windowStartedAt + config.windowMs);
    }

    /** Deletes, one by one, the buckets whose window is over. */
    method CleanUp(now: int)
      modifies this
      ensures State() == Cleanup(config, old(State()), now)
    {
      if now - lastCleanupAt < config.windowMs { return; }
      lastCleanupAt := now;
      ghost var before := buckets;
      var todo := buckets.Keys;
      while todo != {}
        invariant todo <= buckets.Keys <= before.Keys && lastCleanupAt == now
        invariant forall q :: q in buckets ==> buckets[q] == before[q]
        invariant forall q :: q in before && q !in todo ==> (q in buckets <==> !Expired(before[q], config.windowMs, now))
        decreases todo
      {
        var q :| q in todo;
        todo := todo - {q};
        if now >= buckets[q].windowStartedAt + config.windowMs {
          buckets := buckets - {q};
        }
      }
    }
  }

  // ---- cleanup is invisible ----

  datatype Call = Call(request: Request, now: int)

  ghost predicate Ordered(calls: seq<Call>) {
    forall i, j :: 0 <= i < j < |calls| ==> calls[i].now <= calls[j].now
  }

  function Run(config: Config, calls: seq<Call>): (Limiter, seq<Option<Decision>>) {
    if calls == [] then (START, []) else
      var (limiter, decisions) := Run(config, calls[..|calls| - 1]);
      var last := calls[|calls| - 1];
      var (next, decision) := CheckStep(config, limiter, last.request, last.now);
      (next, decisions + [decision])
  }

  /** The limiter that never deletes a bucket. */
  function PlainStep(config: Config, buckets: map<BucketKey, Bucket>, request: Request,
                     now: int): (map<BucketKey, Bucket>, Option<Decision>) {
    if !config.enabled || !request.limitedRoute then (buckets, None) else
      var (next, decision) := ConsumeAll(config, buckets, request, now);
      (next, Some(decision))
  }

  function RunPlain(config: Config, calls: seq<Call>): (map<BucketKey, Bucket>, seq<Option<Decision>>) {
    if calls == [] then (map[], []) else
      var (buckets, decisions) := RunPlain(config, calls[..|calls| - 1]);
      var last := calls[|calls| - 1];
      var (next, decision) := PlainStep(config, buckets, last.request, last.now);
      (next, decisions + [decision])
  }

  /** The two maps agree on every bucket whose window is not over. */
  ghost predicate Similar(a: map<BucketKey, Bucket>, b: map<BucketKey, Bucket>, windowMs: nat, now: int) {
    forall q :: Lookup(a, q) == Lookup(b, q) || (q !in a && q in b && Expired(b[q], windowMs, now))
  }

  lemma CleanupSimilar(config: Config, limiter: Limiter, b: map<BucketKey, Bucket>, earlier: int, now: int)
    requires Similar(limiter.buckets, b, config.windowMs, earlier) && earlier <= now
    ensures Similar(Cleanup(config, limiter, now).buckets, b, config.windowMs, now)
  {
  }

  lemma {:induction false} ConsumeSimilar(config: Config, a: map<BucketKey, Bucket>, b: map<BucketKey, Bucket>,
                                          q: BucketKey, now: int)
    requires Similar(a, b, config.windowMs, now)
    ensures Consume(config, a, q, now).1 == Consume(config, b, q, now).1
    ensures Similar(Consume(config, a, q, now).0, Consume(config, b, q, now).0, config.windowMs, now)
  {
    assert Window(Lookup(a, q), config.windowMs, now) == Window(Lookup(b, q), config.windowMs, now);
  }

  lemma {:induction false} StepSimilar(config: Config, limiter: Limiter, b: map<BucketKey, Bucket>, earlier: int, call: Call)
    requires Similar(limiter.buckets, b, config.windowMs, earlier) && earlier <= call.now
    ensures CheckStep(config, limiter, call.request, call.now).1 == PlainStep(config, b, call.request, call.now).1
    ensures Similar(CheckStep(config, limiter, call.request, call.now).0.buckets, PlainStep(config, b, call.request, call.now).0, config.windowMs, call.now)
  {
    CleanupSimilar(config, limiter, b, earlier, call.now);
    if config.enabled && call.request.limitedRoute {
      var a := Cleanup(config, limiter, call.now).buckets;
      var q := BucketKey(Ip, call.request.ip);
      hide Consume, Cleanup;
      ConsumeSimilar(config, a, b, q, call.now);
      if call.request.credential.Some? {
        ConsumeSimilar(config, Consume(config, a, q, call.now).0, Consume(config, b, q, call.now).0,
                       BucketKey(Credential, call.request.credential.value), call.now);
      }
    } else {
      assert forall q :: q in b && Expired(b[q], config.windowMs, earlier) ==> Expired(b[q], config.windowMs, call.now);
    }
  }

  /** With a clock that never goes back, every request gets the decision of the limiter that deletes nothing. */
  lemma {:induction false} CleanupInvisible(config: Config, calls: seq<Call>, now: int)
    requires Ordered(calls) && (calls != [] ==> calls[|calls| - 1].now <= now)
    ensures Run(config, calls).1 == RunPlain(config, calls).1
    ensures Similar(Run(config, calls).0.buckets, RunPlain(config, calls).0, config.windowMs, now)
  {
    if calls != [] {
      var init, last := calls[..|calls| - 1], calls[|calls| - 1];
      CleanupInvisible(config, init, last.now);
      StepSimilar(config, Run(config, init).0, RunPlain(config, init).0, last.now, last);
      hide CheckStep, PlainStep;
      assert forall b: Bucket :: Expired(b, config.windowMs, last.now) ==> Expired(b, config.windowMs, now);
    }
  }

  /** No retained bucket was already over at the last cleanup. */
  ghost predicate Retained(config: Config, limiter: Limiter) {
    forall q :: q in limiter.buckets ==> limiter.buckets[q].windowStartedAt + config.windowMs > limiter.lastCleanupAt
  }

  lemma {:induction false} StepRetains(config: Config, limiter: Limiter, call: Call)
    requires config.windowMs >= 1 && Retained(config, limiter) && limiter.lastCleanupAt <= call.now
    ensures var next := CheckStep(config, limiter, call.request, call.now).0;
            && Retained(config, next) && next.lastCleanupAt <= call.now
            && (config.enabled && call.request.limitedRoute ==> call.now - next.lastCleanupAt < config.windowMs)
  {
    var cleaned := Cleanup(config, limiter, call.now);
    assert Retained(config, cleaned);
    hide Cleanup;
  }

  lemma {:induction false} RunRetains(config: Config, calls: seq<Call>)
    requires Ordered(calls) && config.windowMs >= 1 && (calls != [] ==> calls[0].now >= 0)
    ensures var limiter := Run(config, calls).0;
            Retained(config, limiter) && limiter.lastCleanupAt <= if calls == [] then 0 else calls[|calls| - 1].now
  {
    if calls != [] {
      var init, last := calls[..|calls| - 1], calls[|calls| - 1];
      RunRetains(config, init);
      StepRetains(config, Run(config, init).0, last);
      hide CheckStep, Retained;
    }
  }

  /** Right after a limited request, every bucket the limiter keeps started within the last two windows. */
  lemma {:induction false} RetentionBounded(config: Config, calls: seq<Call>)
    requires Ordered(calls) && config.windowMs >= 1 && config.enabled
    requires calls != [] && calls[0].now >= 0 && calls[|calls| - 1].request.limitedRoute
    ensures var limiter := Run(config, calls).0;
            forall q :: q in limiter.buckets ==>
              limiter.buckets[q].windowStartedAt > calls[|calls| - 1].now - 2 * config.windowMs
  {
    var init, last := calls[..|calls| - 1], calls[|calls| - 1];
    RunRetains(config, init);
    StepRetains(config, Run(config, init).0, last);
    hide CheckStep;
  }

  // ---- the rate bound ----

  /** One bucket on its own: its state after consumptions at the given times. */
  function BucketAfter(windowMs: nat, limit: int, times: seq<int>): Option<Bucket> {
    if times == [] then None
    else Some(Take(BucketAfter(windowMs, limit, times[..|times| - 1]), windowMs, limit, times[|times| - 1]))
  }

  predicate Within(t: int, windowMs: nat, now: int) { t <= now < t + windowMs }

  /** How many of the consumptions in the interval from `t`, as long as a window, are not limited. */
  function Granted(windowMs: nat, limit: int, times: seq<int>, t: int): nat {
    if times == [] then 0 else
      var init, now := times[..|times| - 1], times[|times| - 1];
      Granted(windowMs, limit, init, t)
      + (if Within(t, windowMs, now) && Grants(BucketAfter(windowMs, limit, init), windowMs, limit, now) then 1 else 0)
  }

  ghost predicate Nondecreasing(times: seq<int>) {
    forall i, j :: 0 <= i < j < |times| ==> times[i] <= times[j]
  }

  /** How much of the interval the window `b` can still have spent. */
  ghost predicate Spent(windowMs: nat, limit: int, b: Option<Bucket>, last: int, t: int, granted: nat) {
    && (b.None? ==> granted == 0)
    && (last < t ==> granted == 0)
    && (b.Some? ==>
          && b.value.windowStartedAt <= last && 1 <= b.value.count <= limit
          && (b.value.windowStartedAt < t ==> granted <= b.value.count - 1)
          && (Within(t, windowMs, b.value.windowStartedAt) ==> granted <= limit - 1 + b.value.count)
          && (b.value.windowStartedAt >= t + windowMs ==> granted <= 2 * limit - 1))
  }

  lemma {:induction false} GrantedSpent(windowMs: nat, limit: int, times: seq<int>, t: int, last: int)
    requires limit >= 1 && Nondecreasing(times) && (times != [] ==> times[|times| - 1] <= last)
    ensures Spent(windowMs, limit, BucketAfter(windowMs, limit, times), last, t, Granted(windowMs, limit, times, t))
  {
    if times != [] {
      GrantedSpent(windowMs, limit, times[..|times| - 1], t, times[|times| - 1]);
    }
  }

  /** With a clock that never goes back, any interval as long as a window holds at most `2 * limit - 1`
      consumptions of a bucket that are not limited. */
  lemma {:induction false} BucketRateBound(windowMs: nat, limit: int, times: seq<int>, t: int)
    requires Nondecreasing(times)
    ensures Granted(windowMs, limit, times, t) <= if limit >= 1 then 2 * limit - 1 else 0
  {
    if limit >= 1 {
      if times != [] { GrantedSpent(windowMs, limit, times, t, times[|times| - 1]); }
    } else {
      NothingGranted(windowMs, limit, times, t);
    }
  }

  lemma {:induction false} NothingGranted(windowMs: nat, limit: int, times: seq<int>, t: int)
    requires limit < 1
    ensures Granted(windowMs, limit, times, t) == 0
  {
    if times != [] { NothingGranted(windowMs, limit, times[..|times| - 1], t); }
  }

  function Repeat(n: nat, now: int): seq<int> { seq(n, _ => now) }

  /** `n` more consumptions at one moment, within the limit of the current window. */
  lemma {:induction false} Burst(windowMs: nat, limit: int, times: seq<int>, n: nat, now: int, t: int)
    requires Window(BucketAfter(windowMs, limit, times), windowMs, now).count + n <= limit && n >= 1
    requires windowMs >= 1 && (BucketAfter(windowMs, limit, times).Some? ==> BucketAfter(windowMs, limit, times).value.windowStartedAt <= now)
    ensures var all, was := times + Repeat(n, now), Window(BucketAfter(windowMs, limit, times), windowMs, now);
            && BucketAfter(windowMs, limit, all) == Some(was.(count := was.count + n))
            && Granted(windowMs, limit, all, t) == Granted(windowMs, limit, times, t) + if Within(t, windowMs, now) then n else 0
  {
    var all := times + Repeat(n, now);
    assert all[..|all| - 1] == times + Repeat(n - 1, now);
    if n > 1 {
      Burst(windowMs, limit, times, n - 1, now, t);
    } else {
      assert times + Repeat(0, now) == times;
    }
  }

  /** The bound is reached, for every limit and every window of at least two milliseconds. */
  lemma {:induction false} RateBoundTight(windowMs: nat, limit: int)
    requires windowMs >= 2 && limit >= 1
    ensures exists times :: Nondecreasing(times) && Granted(windowMs, limit, times, 1) == 2 * limit - 1
  {
    Burst(windowMs, limit, [], 1, 0, 1);
    RepeatsOrdered([], 1, 0);
    var times := [] + Repeat(1, 0);
    if limit > 1 {
      SecondBurst(windowMs, limit, times);
      times := times + Repeat(limit - 1, windowMs - 1);
    }
    hide Grants, BucketAfter, Take;
    LastBurst(windowMs, limit, times);
  }

  lemma RepeatsOrdered(times: seq<int>, n: nat, now: int)
    requires Nondecreasing(times) && (times != [] ==> times[|times| - 1] <= now)
    ensures Nondecreasing(times + Repeat(n, now)) && (n > 0 ==> (times + Repeat(n, now))[|times| + n - 1] == now)
  {
  }

  lemma {:induction false} SecondBurst(windowMs: nat, limit: int, times: seq<int>)
    requires windowMs >= 2 && limit > 1 && Nondecreasing(times) && times != [] && times[|times| - 1] == 0
    requires BucketAfter(windowMs, limit, times) == Some(Bucket(0, 1)) && Granted(windowMs, limit, times, 1) == 0
    ensures var all := times + Repeat(limit - 1, windowMs - 1);
            && Nondecreasing(all) && all[|all| - 1] == windowMs - 1
            && BucketAfter(windowMs, limit, all) == Some(Bucket(0, limit)) && Granted(windowMs, limit, all, 1) == limit - 1
  {
    RepeatsOrdered(times, limit - 1, windowMs - 1);
    Burst(windowMs, limit, times, limit - 1, windowMs - 1, 1);
  }

  lemma {:induction false} LastBurst(windowMs: nat, limit: int, times: seq<int>)
    requires windowMs >= 2 && limit >= 1 && Nondecreasing(times) && times != [] && times[|times| - 1] <= windowMs
    requires BucketAfter(windowMs, limit, times) == Some(Bucket(0, limit)) && Granted(windowMs, limit, times, 1) == limit - 1
    ensures var all := times + Repeat(limit, windowMs);
            Nondecreasing(all) && Granted(windowMs, limit, all, 1) == 2 * limit - 1
  {
    RepeatsOrdered(times, limit, windowMs);
    Burst(windowMs, limit, times, limit, windowMs, 1);
  }

  // ---- from one bucket to the limiter ----

  predicate Touches(config: Config, request: Request, q: BucketKey) {
    && config.enabled && request.limitedRoute
    && match q.kind
       case Ip => q.key == request.ip
       case Credential => request.credential == Some(q.key)
  }

  /** The times at which a bucket is consumed. */
  function TimesOf(config: Config, calls: seq<Call>, q: BucketKey): seq<int> {
    if calls == [] then [] else
      var init, last := TimesOf(config, calls[..|calls| - 1], q), calls[|calls| - 1];
      if Touches(config, last.request, q) then init + [last.now] else init
  }

  lemma {:induction false} BucketOfRun(config: Config, calls: seq<Call>, q: BucketKey)
    ensures Lookup(RunPlain(config, calls).0, q) == BucketAfter(config.windowMs, config.Limit(q.kind), TimesOf(config, calls, q))
  {
    if calls != [] {
      var init, last := calls[..|calls| - 1], calls[|calls| - 1];
      BucketOfRun(config, init, q);
      PlainBucket(config, RunPlain(config, init).0, last, q);
      hide PlainStep, Take;
      var times := TimesOf(config, init, q);
      assert (times + [last.now])[..|times|] == times;
    }
  }

  lemma {:induction false} PlainBucket(config: Config, buckets: map<BucketKey, Bucket>, call: Call, q: BucketKey)
    ensures Lookup(PlainStep(config, buckets, call.request, call.now).0, q) ==
            if Touches(config, call.request, q) then Some(Take(Lookup(buckets, q), config.windowMs, config.Limit(q.kind), call.now))
            else Lookup(buckets, q)
  {
    hide Take, Decide;
  }

  /** A request is allowed exactly when every bucket it touches grants it. */
  lemma {:induction false} AllowedIff(config: Config, buckets: map<BucketKey, Bucket>, call: Call)
    requires config.enabled && call.request.limitedRoute
    ensures var decision := PlainStep(config, buckets, call.request, call.now).1;
            && decision.Some?
            && (decision.value.allowed <==>
                  forall q :: Touches(config, call.request, q) ==>
                    Grants(Lookup(buckets, q), config.windowMs, config.Limit(q.kind), call.now))
            && decision.value.allowed == !decision.value.bucket.limited
  {
    var ip := BucketKey(Ip, call.request.ip);
    assert Touches(config, call.request, ip);
    if call.request.credential.Some? {
      assert Touches(config, call.request, BucketKey(Credential, call.request.credential.value));
    }
    hide Grants, Take;
  }

  /** How many requests that touch the bucket are allowed in the interval from `t`, as long as a window. */
  function AllowedCount(config: Config, calls: seq<Call>, decisions: seq<Option<Decision>>, q: BucketKey, t: int): nat
    requires |decisions| == |calls|
  {
    if calls == [] then 0 else
      var n := |calls| - 1;
      AllowedCount(config, calls[..n], decisions[..n], q, t)
      + (if Touches(config, calls[n].request, q) && Within(t, config.windowMs, calls[n].now) && decisions[n].Some? && decisions[n].value.allowed
         then 1 else 0)
  }

  lemma {:induction false} DecisionPerCall(config: Config, calls: seq<Call>)
    ensures |RunPlain(config, calls).1| == |calls| == |Run(config, calls).1|
  {
    if calls != [] { DecisionPerCall(config, calls[..|calls| - 1]); }
  }

  lemma {:induction false} AllowedWithinGranted(config: Config, calls: seq<Call>, q: BucketKey, t: int)
    ensures |RunPlain(config, calls).1| == |calls|
    ensures AllowedCount(config, calls, RunPlain(config, calls).1, q, t) <=
            Granted(config.windowMs, config.Limit(q.kind), TimesOf(config, calls, q), t)
  {
    DecisionPerCall(config, calls);
    if calls != [] {
      var n := |calls| - 1;
      var init, last := calls[..n], calls[n];
      AllowedWithinGranted(config, init, q, t);
      var buckets := RunPlain(config, init).0;
      assert RunPlain(config, calls).1[..n] == RunPlain(config, init).1;
      if Touches(config, last.request, q) {
        AllowedIff(config, buckets, last);
        BucketOfRun(config, init, q);
        var times := TimesOf(config, init, q);
        assert (times + [last.now])[..|times|] == times;
      }
      hide PlainStep, Grants, BucketAfter;
    }
  }

  lemma {:induction false} TimesOrdered(config: Config, calls: seq<Call>, q: BucketKey)
    requires Ordered(calls)
    ensures Nondecreasing(TimesOf(config, calls, q))
    ensures forall x :: x in TimesOf(config, calls, q) ==> calls != [] && x <= calls[|calls| - 1].now
  {
    if calls != [] {
      var times := TimesOf(config, calls[..|calls| - 1], q);
      TimesOrdered(config, calls[..|calls| - 1], q);
      forall i | 0 <= i < |times| ensures times[i] <= calls[|calls| - 1].now { assert times[i] in times; }
    }
  }

  /** With a clock that never goes back, at most `2 * limit - 1` requests of one client address, or of one
      credential, are allowed in any interval as long as a window. */
  lemma {:induction false} RateBound(config: Config, calls: seq<Call>, q: BucketKey, t: int)
    requires Ordered(calls)
    ensures |Run(config, calls).1| == |calls|
    ensures AllowedCount(config, calls, Run(config, calls).1, q, t) <=
            if config.Limit(q.kind) >= 1 then 2 * config.Limit(q.kind) - 1 else 0
  {
    DecisionPerCall(config, calls);
    CleanupInvisible(config, calls, if calls == [] then 0 else calls[|calls| - 1].now);
    AllowedWithinGranted(config, calls, q, t);
    TimesOrdered(config, calls, q);
    BucketRateBound(config.windowMs, config.Limit(q.kind), TimesOf(config, calls, q), t);
  }

  /** The bucket after consumptions at the given times. */
  function TakenBy(b: Option<Bucket>, windowMs: nat, limit: int, times: seq<int>): Option<Bucket> {
    if times == [] then b
    else Some(Take(TakenBy(b, windowMs, limit, times[..|times| - 1]), windowMs, limit, times[|times| - 1]))
  }

  /** The reset time of a limited consumption is exact: until then every consumption of the bucket is limited, with the
      same reset time, however many there are; and from then on the next one is granted. */
  lemma {:induction false} RetryAfterExact(b: Option<Bucket>, kind: Kind, windowMs: nat, limit: int, now: int, times: seq<int>,
                                           later: int)
    requires Decide(kind, b, windowMs, limit, now).limited && now <= later && limit >= 1
    requires forall i :: 0 <= i < |times| ==> now <= times[i] < Decide(kind, b, windowMs, limit, now).resetAt
    ensures forall i :: 0 <= i < |times| ==>
              var d := Decide(kind, TakenBy(Some(Take(b, windowMs, limit, now)), windowMs, limit, times[..i]), windowMs, limit, times[i]);
              d.limited && d.resetAt == Decide(kind, b, windowMs, limit, now).resetAt
    ensures Grants(TakenBy(Some(Take(b, windowMs, limit, now)), windowMs, limit, times), windowMs, limit, later) <==>
            later >= Decide(kind, b, windowMs, limit, now).resetAt
  {
    forall i | 0 <= i <= |times|
      ensures TakenBy(Some(Take(b, windowMs, limit, now)), windowMs, limit, times[..i]) == Some(Take(b, windowMs, limit, now))
    {
      LimitedStays(b, kind, windowMs, limit, now, times[..i]);
    }
    assert times[..|times|] == times;
  }

  lemma {:induction false} LimitedStays(b: Option<Bucket>, kind: Kind, windowMs: nat, limit: int, now: int, times: seq<int>)
    requires Decide(kind, b, windowMs, limit, now).limited
    requires forall i :: 0 <= i < |times| ==> now <= times[i] < Decide(kind, b, windowMs, limit, now).resetAt
    ensures TakenBy(Some(Take(b, windowMs, limit, now)), windowMs, limit, times) == Some(Take(b, windowMs, limit, now))
  {
    if times != [] { LimitedStays(b, kind, windowMs, limit, now, times[..|times| - 1]); }
  }

  // ---- what a decision says ----

  /** Where the window begins that a consumption at `now` falls in, after consumptions at the given times: at the first
      of them that a window does not reach, or at `now` itself. */
  function WindowStart(windowMs: nat, times: seq<int>, now: int): int {
    if times == [] then now else
      var start := WindowStart(windowMs, times[..|times| - 1], times[|times| - 1]);
      if now < start + windowMs then start else now
  }

  /** How many of the consumptions fell in that window. */
  function CountIn(windowMs: nat, times: seq<int>, now: int): nat {
    if times == [] || now >= WindowStart(windowMs, times[..|times| - 1], times[|times| - 1]) + windowMs then 0
    else 1 + CountIn(windowMs, times[..|times| - 1], times[|times| - 1])
  }

  lemma {:induction false} TakenByIs(windowMs: nat, limit: int, times: seq<int>, last: int)
    ensures var b := TakenBy(None, windowMs, limit, times + [last]);
            && b.Some? && b.value.windowStartedAt == WindowStart(windowMs, times, last)
            && b.value.count == (if CountIn(windowMs, times, last) < limit then CountIn(windowMs, times, last) + 1
                                 else if limit < 0 then 0 else limit)
  {
    assert (times + [last])[..|times|] == times;
    if times != [] {
      var init, before := times[..|times| - 1], times[|times| - 1];
      assert init + [before] == times;
      TakenByIs(windowMs, limit, init, before);
    }
  }

  /** Every decision names its bucket and limit, and reports the end of the window, whether the limit was reached in it,
      and how many more consumptions it grants. */
  lemma {:induction false} DecisionExact(kind: Kind, windowMs: nat, limit: int, times: seq<int>, now: int)
    ensures var d := Decide(kind, TakenBy(None, windowMs, limit, times), windowMs, limit, now);
            var used := CountIn(windowMs, times, now);
            && d.kind == kind && d.limit == limit && d.resetAt == WindowStart(windowMs, times, now) + windowMs
            && (d.limited <==> used >= limit)
            && d.remaining == if used >= limit then 0 else limit - used - 1
  {
    if times != [] {
      var init, last := times[..|times| - 1], times[|times| - 1];
      assert init + [last] == times;
      TakenByIs(windowMs, limit, init, last);
    }
  }

  /** The answer reports the address bucket if it is limited, else the credential bucket if that is, and otherwise the one
      that grants less, the address bucket if they grant the same. */
  lemma {:induction false} ReportedBucket(first: BucketDecision, second: Option<BucketDecision>)
    ensures var d := Combine(first, second);
            && (d.allowed <==> !first.limited && (second.Some? ==> !second.value.limited))
            && (d.bucket == first || second == Some(d.bucket))
            && (!d.allowed ==> d.bucket.limited && (first.limited ==> d.bucket == first))
            && (d.allowed ==> d.bucket.remaining <= first.remaining
                              && (second.Some? ==> d.bucket.remaining <= second.value.remaining)
                              && (second.None? || first.remaining <= second.value.remaining ==> d.bucket == first))
  {
  }
}
