/** The retry loop of non-streaming calls: runChatAttempts of src/upstream/chat-attempt-loop.ts. */
module ChatAttempts {
  import opened Wrappers
  import opened EventStream
  import opened Json
  import opened RetryPolicy

  /** What the provider does with a request: `after` milliseconds later it answers or the exchange fails. */
  datatype Reply = Reply(after: nat, outcome: Outcome)
  datatype Outcome =
    | Response(status: int, body: Option<Json>, retryAfter: Option<nat>)
    | Failed
    | BodyTooLarge

  datatype Observation = Observation(attemptNo: AttemptNo, tsStarted: int, tsCompleted: int, classification: Classification,
                                     retryAfter: Option<nat>)

  /** ProxyResult, as far as the loop decides it. */
  datatype Result = Answer(classification: Classification, attemptCount: nat) | DeadlineExceeded(attemptCount: nat)

  /**
   Everything outside the loop: the replies, the external abort, String(value), and by how much the
   attempt timers and the sleeps are late.
   */
  datatype World = World(replies: nat -> Reply, abortAt: Option<int>, text: Option<Json> -> Text,
                         timerLate: nat -> nat, sleepLate: nat -> nat)

  ghost predicate OnTime(world: World) {
    forall n :: world.timerLate(n) == 0 && world.sleepLate(n) == 0
  }

  predicate AbortedBy(world: World, now: int) {
    world.abortAt.Some? && world.abortAt.value <= now
  }

  /** What undici gives: the reply, unless the attempt's timer or the external signal was faster. */
  function Exchange(world: World, attempt: AttemptNo, start: int, timeoutMs: nat): (int, Outcome) {
    var reply := world.replies(attempt);
    var timed := if reply.after <= timeoutMs then (start + reply.after, reply.outcome) else (start + timeoutMs, Failed);
    if AbortedBy(world, timed.0) then (if world.abortAt.value <= start then start else world.abortAt.value, Failed)
    else timed
  }

  function Classify(world: World, outcome: Outcome): Classification {
    match outcome {
      case Response(status, body, _) => ClassifyHttp(status, body, world.text)
      case Failed => NetworkError
      case BodyTooLarge => TooLarge
    }
  }

  function RetryAfterOf(outcome: Outcome): Option<nat> {
    if outcome.Response? then outcome.retryAfter else None
  }

  /** The time the loop sleeps after an attempt. */
  function WaitAfter(o: Observation): nat
  {
    RetryWaitMs(o.classification, o.retryAfter, o.attemptNo)
  }

  /** The loop goes on after this attempt. */
  predicate GoesOn(o: Observation, world: World, deadline: Deadline, policy: Policy)
  {
    && ShouldRetry(o.classification, o.attemptNo, o.tsCompleted, deadline, policy, AbortedBy(world, o.tsCompleted))
    && deadline.HasTimeFor(o.tsCompleted, WaitAfter(o))
  }

  /** Observation `i` has its number, was started in time and follows the sleep after the one before. */
  predicate Follows(obs: seq<Observation>, i: nat, start: int, world: World, deadline: Deadline, policy: Policy)
    requires i < |obs|
  {
    && obs[i].attemptNo == i + 1 && deadline.HasTimeFor(obs[i].tsStarted, 0)
    && (i == 0 ==> obs[i].tsStarted == start)
    && (i > 0 ==>
          && obs[i - 1].attemptNo == i && GoesOn(obs[i - 1], world, deadline, policy)
          && obs[i].tsStarted == obs[i - 1].tsCompleted + WaitAfter(obs[i - 1]) + world.sleepLate(i))
  }

  predicate Chained(obs: seq<Observation>, start: int, world: World, deadline: Deadline, policy: Policy) {
    forall i :: 0 <= i < |obs| ==> Follows(obs, i, start, world, deadline, policy)
  }

  /** The observation is what the provider's reply to that attempt comes to. */
  predicate Faithful(o: Observation, world: World, deadline: Deadline, policy: Policy) {
    var timeout := deadline.AttemptTimeout(o.tsStarted, policy.attemptTimeoutMs);
    var (end, outcome) := Exchange(world, o.attemptNo, o.tsStarted, timeout + world.timerLate(o.attemptNo));
    o.tsCompleted == end && o.classification == Classify(world, outcome) && o.retryAfter == RetryAfterOf(outcome)
  }

  /** One attempt, up to its observation. */
  method Attempt(world: World, deadline: Deadline, policy: Policy, attempt: AttemptNo, start: int) returns (o: Observation)
    ensures o.attemptNo == attempt && o.tsStarted == start
    ensures Faithful(o, world, deadline, policy)
  {
    var timeout := deadline.AttemptTimeout(start, policy.attemptTimeoutMs);
    var (end, outcome) := Exchange(world, attempt, start, timeout + world.timerLate(attempt));
    o := Observation(attempt, start, end, Classify(world, outcome), RetryAfterOf(outcome));
  }

  predicate AllFaithful(obs: seq<Observation>, world: World, deadline: Deadline, policy: Policy) {
    forall i :: 0 <= i < |obs| ==> Faithful(obs[i], world, deadline, policy)
  }

  /** One more observation of a chain. */
  lemma ChainGrows(obs: seq<Observation>, o: Observation, start: int, world: World, deadline: Deadline, policy: Policy)
    requires Chained(obs, start, world, deadline, policy)
    requires Follows(obs + [o], |obs|, start, world, deadline, policy)
    ensures Chained(obs + [o], start, world, deadline, policy)
  {
    hide GoesOn;
    forall i | 0 <= i < |obs|
      ensures Follows(obs + [o], i, start, world, deadline, policy)
    {
      assert Follows(obs, i, start, world, deadline, policy);
    }
  }

  /** The loop has slept after its last observation and wakes up at `now`. */
  predicate Awake(obs: seq<Observation>, now: int, start: int, world: World, deadline: Deadline, policy: Policy) {
    if obs == [] then now == start
    else
      var o := obs[|obs| - 1];
      && o.attemptNo == |obs| && GoesOn(o, world, deadline, policy)
      && now == o.tsCompleted + WaitAfter(o) + world.sleepLate(|obs|)
  }

  /**
   What a run is: its attempts follow each other and are faithful to the provider, and it ends with the
   answer of the last one, which was not to be repeated, or without one, too late or never allowed.
   */
  predicate IsRun(result: Result, obs: seq<Observation>, end: int, world: World, deadline: Deadline, policy: Policy, start: int) {
    && Chained(obs, start, world, deadline, policy) && AllFaithful(obs, world, deadline, policy)
    && |obs| == result.attemptCount <= policy.maxAttempts
    && match result {
         case Answer(classification, _) =>
           && |obs| > 0 && classification == obs[|obs| - 1].classification
           && end == obs[|obs| - 1].tsCompleted && !GoesOn(obs[|obs| - 1], world, deadline, policy)
         case DeadlineExceeded(_) =>
           && Awake(obs, end, start, world, deadline, policy)
           && (policy.maxAttempts == 0 || !deadline.HasTimeFor(end, 0))
       }
  }

  /**
   runChatAttempts; `end` is the time at which the result is returned: one observation per attempt,
   numbered 1..n and counted by the result, which is the last attempt's, one not to be repeated.
   Without a result of an attempt the call woke up too late, or no attempt is allowed at all.
   */
  method RunChatAttempts(world: World, deadline: Deadline, policy: Policy, start: int)
    returns (result: Result, obs: seq<Observation>, end: int)
    ensures IsRun(result, obs, end, world, deadline, policy, start)
  {
    hide ShouldRetry, RetryWaitMs, Exchange, Classify, Faithful;
    var now := start;
    var lastResult: Option<Result> := None;
    var attempt: AttemptNo := 1;
    obs := [];
    while attempt <= policy.maxAttempts
      invariant |obs| == attempt - 1 <= policy.maxAttempts
      invariant Chained(obs, start, world, deadline, policy) && AllFaithful(obs, world, deadline, policy)
      invariant Awake(obs, now, start, world, deadline, policy)
      invariant obs == [] <==> lastResult.None?
      invariant attempt > policy.maxAttempts ==> obs == []
    {
      if !deadline.HasTimeFor(now, 0) {
        return DeadlineExceeded(attempt - 1), obs, now;
      }
      var o := Attempt(world, deadline, policy, attempt, now);
      ChainGrows(obs, o, start, world, deadline, policy);
      obs := obs + [o];
      var answer := Answer(o.classification, attempt);
      if !ShouldRetry(o.classification, attempt, o.tsCompleted, deadline, policy, AbortedBy(world, o.tsCompleted)) {
        return answer, obs, o.tsCompleted;
      }
      var waitMs := RetryWaitMs(o.classification, o.retryAfter, attempt);
      if !deadline.HasTimeFor(o.tsCompleted, waitMs) {
        return answer, obs, o.tsCompleted;
      }
      RetriedIsNotLast(o, world, deadline, policy);
      now := o.tsCompleted + waitMs + world.sleepLate(attempt);
      lastResult := Some(answer);
      attempt := attempt + 1;
    }
    // Reached only when no attempt is allowed at all: the loop never ends by running out of attempts.
    result := lastResult.GetOr(DeadlineExceeded(policy.maxAttempts));
    end := now;
  }

  lemma RetriedIsNotLast(o: Observation, world: World, deadline: Deadline, policy: Policy)
    requires GoesOn(o, world, deadline, policy)
    ensures o.attemptNo < policy.maxAttempts && Retryable(o.classification) && !AbortedBy(world, o.tsCompleted)
  {
  }

  /**
   When the loop goes on: after a network failure, a reply marked retryable or a status that is, not
   aborted, with an attempt and more than the reserved time left now, and the reserved time after the wait.
   */
  lemma GoesOnExactly(o: Observation, world: World, deadline: Deadline, policy: Policy)
    requires Faithful(o, world, deadline, policy)
    ensures GoesOn(o, world, deadline, policy) <==>
            && (match o.classification
                case Success => false
                case BodyLevelError(_, _, retryable) => retryable
                case MalformedSuccess(retryable) => retryable
                case UpstreamError(status, _) => status >= 500 || status == 408 || status == 425 || status == 429
                case NetworkError => true
                case TooLarge => false)
            && o.attemptNo < policy.maxAttempts && !AbortedBy(world, o.tsCompleted)
            && o.tsCompleted < deadline.deadlineAt - policy.minRemainingMs
            && o.tsCompleted + WaitAfter(o) <= deadline.deadlineAt - deadline.minRemainingMs
  {
    var outcome := world.replies(o.attemptNo).outcome;
    if o.classification.UpstreamError? {
      RetriedStatuses(outcome.status, outcome.body, world.text);
    }
  }

  /** Nothing but the last attempt succeeded, was terminal or ended after the external abort. */
  lemma NothingFinalIsRepeated(obs: seq<Observation>, start: int, world: World, deadline: Deadline, policy: Policy, i: nat)
    requires Chained(obs, start, world, deadline, policy) && i + 1 < |obs|
    ensures Retryable(obs[i].classification) && !AbortedBy(world, obs[i].tsCompleted)
    ensures obs[i].tsCompleted + WaitAfter(obs[i]) <= obs[i + 1].tsStarted
  {
    assert Follows(obs, i + 1, start, world, deadline, policy);
  }

  /**
   What becomes of an attempt: it ends with the reply, the timer or the abort, whichever is first, the reply
   before the timer and the abort before the reply if they come at once; only the reply gives it a class of its own.
   */
  lemma AttemptExactly(o: Observation, world: World, deadline: Deadline, policy: Policy)
    requires Faithful(o, world, deadline, policy)
    ensures var reply := world.replies(o.attemptNo);
            var timer := deadline.AttemptTimeout(o.tsStarted, policy.attemptTimeoutMs) + world.timerLate(o.attemptNo);
            var first := o.tsStarted + if reply.after <= timer then reply.after else timer;
            && (AbortedBy(world, first) ==>
                  && o.tsCompleted <= first && (o.tsCompleted == world.abortAt.value || o.tsCompleted == o.tsStarted)
                  && o.tsCompleted >= world.abortAt.value && o.classification == NetworkError && o.retryAfter == None)
            && (!AbortedBy(world, first) ==>
                  && o.tsCompleted == first
                  && (o.classification, o.retryAfter) ==
                     if reply.after > timer then (NetworkError, None)
                     else match reply.outcome
                          case Response(status, body, retryAfter) => (ClassifyHttp(status, body, world.text), retryAfter)
                          case Failed => (NetworkError, None)
                          case BodyTooLarge => (TooLarge, None))
  {
  }

  /** The next attempt starts when the provider or the backoff says, or as much later as the sleep is late. */
  lemma WaitsAsTold(obs: seq<Observation>, start: int, world: World, deadline: Deadline, policy: Policy, i: nat)
    requires Chained(obs, start, world, deadline, policy) && i + 1 < |obs|
    ensures obs[i + 1].tsStarted == obs[i].tsCompleted + world.sleepLate(i + 1) +
            match (obs[i].classification, obs[i].retryAfter)
            case (UpstreamError(429, _), Some(ms)) => ms
            case (UpstreamError(503, _), Some(ms)) => ms
            case _ => if i == 0 then 2000 else if i == 1 then 4000 else if i == 2 then 8000 else 10000
  {
    assert Follows(obs, i, start, world, deadline, policy) && Follows(obs, i + 1, start, world, deadline, policy);
    WaitExactly(obs[i].classification, obs[i].retryAfter, i + 1);
  }

  /** An attempt that starts after the abort fails at once and is the last. */
  lemma {:induction false} OneAttemptAfterAbort(obs: seq<Observation>, start: int, world: World, deadline: Deadline,
                                                 policy: Policy, i: nat)
    requires Chained(obs, start, world, deadline, policy) && AllFaithful(obs, world, deadline, policy)
    requires i < |obs| && AbortedBy(world, obs[i].tsStarted)
    ensures i == |obs| - 1 && obs[i].tsCompleted == obs[i].tsStarted && obs[i].classification == NetworkError
  {
    assert Faithful(obs[i], world, deadline, policy);
    if i + 1 < |obs| {
      NothingFinalIsRepeated(obs, start, world, deadline, policy, i);
    }
  }

  /** The provider's replies, the timers and the abort fix the first attempts of a run. */
  lemma {:induction false} SamePrefix(obs: seq<Observation>, other: seq<Observation>, start: int, world: World,
                                      deadline: Deadline, policy: Policy, i: nat)
    requires Chained(obs, start, world, deadline, policy) && AllFaithful(obs, world, deadline, policy)
    requires Chained(other, start, world, deadline, policy) && AllFaithful(other, world, deadline, policy)
    requires i < |obs| && i < |other|
    ensures obs[i] == other[i]
  {
    hide GoesOn, Exchange, Classify;
    if i > 0 {
      SamePrefix(obs, other, start, world, deadline, policy, i - 1);
    }
    assert Follows(obs, i, start, world, deadline, policy) && Follows(other, i, start, world, deadline, policy);
    assert Faithful(obs[i], world, deadline, policy) && Faithful(other[i], world, deadline, policy);
  }

  /** A longer chain goes on where a shorter one ends. */
  lemma LongerGoesOn(obs: seq<Observation>, other: seq<Observation>, start: int, world: World, deadline: Deadline, policy: Policy)
    requires Chained(obs, start, world, deadline, policy) && AllFaithful(obs, world, deadline, policy)
    requires Chained(other, start, world, deadline, policy) && AllFaithful(other, world, deadline, policy)
    requires |obs| < |other|
    ensures obs != [] ==> GoesOn(obs[|obs| - 1], world, deadline, policy)
    ensures deadline.HasTimeFor(other[|obs|].tsStarted, 0)
    ensures Awake(obs, other[|obs|].tsStarted, start, world, deadline, policy)
  {
    hide GoesOn, Exchange, Classify;
    if obs != [] {
      SamePrefix(obs, other, start, world, deadline, policy, |obs| - 1);
    }
    assert Follows(other, |obs|, start, world, deadline, policy);
  }

  /** Nothing goes on after the end of a run. */
  lemma NotLonger(result: Result, obs: seq<Observation>, end: int, world: World, deadline: Deadline, policy: Policy,
                  start: int, other: seq<Observation>)
    requires IsRun(result, obs, end, world, deadline, policy, start)
    requires Chained(other, start, world, deadline, policy) && AllFaithful(other, world, deadline, policy)
    requires |other| <= policy.maxAttempts
    ensures |other| <= |obs|
  {
    hide GoesOn, Chained, AllFaithful;
    if |other| > |obs| {
      LongerGoesOn(obs, other, start, world, deadline, policy);
    }
  }

  /** The contract of runChatAttempts leaves no choice: two runs in the same world are the same run. */
  lemma RunIsUnique(result: Result, obs: seq<Observation>, end: int, result2: Result, obs2: seq<Observation>, end2: int,
                    world: World, deadline: Deadline, policy: Policy, start: int)
    requires IsRun(result, obs, end, world, deadline, policy, start)
    requires IsRun(result2, obs2, end2, world, deadline, policy, start)
    ensures obs == obs2 && result == result2 && end == end2
  {
    hide GoesOn, Exchange, Classify, Follows;
    NotLonger(result, obs, end, world, deadline, policy, start, obs2);
    NotLonger(result2, obs2, end2, world, deadline, policy, start, obs);
    forall i | 0 <= i < |obs|
      ensures obs[i] == obs2[i]
    {
      SamePrefix(obs, obs2, start, world, deadline, policy, i);
    }
  }

  /** The same world without the external abort. */
  function Uncancelled(world: World): World {
    world.(abortAt := None)
  }

  /** An attempt that starts at the same time with and without the abort ends before the abort in both runs or in neither. */
  lemma SameAttempt(o: Observation, free: Observation, world: World, deadline: Deadline, policy: Policy)
    requires o.attemptNo == free.attemptNo && o.tsStarted == free.tsStarted
    requires Faithful(o, world, deadline, policy) && Faithful(free, Uncancelled(world), deadline, policy)
    ensures AbortedBy(world, o.tsCompleted) <==> AbortedBy(world, free.tsCompleted)
    ensures !AbortedBy(world, o.tsCompleted) ==> o == free
  {
    hide ClassifyHttp;
  }

  /** Both runs come to attempt `i`, at the same time and after the same attempts. */
  predicate BothReach(obs: seq<Observation>, free: seq<Observation>, i: nat) {
    && i < |obs| && i < |free| && obs[i].tsStarted == free[i].tsStarted
    && obs[..i] == free[..i]
  }

  /** A run that goes on after an attempt, with time when it wakes, has a next attempt. */
  lemma GoesOnToNext(result: Result, obs: seq<Observation>, end: int, world: World, deadline: Deadline, policy: Policy,
                     start: int, i: nat)
    requires IsRun(result, obs, end, world, deadline, policy, start) && i < |obs| && obs[i].attemptNo == i + 1
    requires GoesOn(obs[i], world, deadline, policy)
    requires deadline.HasTimeFor(obs[i].tsCompleted + WaitAfter(obs[i]) + world.sleepLate(i + 1), 0)
    ensures i + 1 < |obs|
    ensures obs[i + 1].tsStarted == obs[i].tsCompleted + WaitAfter(obs[i]) + world.sleepLate(i + 1)
  {
    RetriedIsNotLast(obs[i], world, deadline, policy);
    hide GoesOn, AllFaithful;
    if i + 1 < |obs| {
      assert Follows(obs, i + 1, start, world, deadline, policy);
    }
  }

  /** As long as no attempt ended after the abort, the run with it and the run without it are the same. */
  lemma {:induction false} SameUntilAbort(result: Result, obs: seq<Observation>, end: int,
                                          freeResult: Result, free: seq<Observation>, freeEnd: int,
                                          world: World, deadline: Deadline, policy: Policy, start: int, i: nat)
    requires IsRun(result, obs, end, world, deadline, policy, start)
    requires IsRun(freeResult, free, freeEnd, Uncancelled(world), deadline, policy, start)
    requires i < |obs| || i < |free|
    requires forall k :: 0 <= k < i ==>
      (k < |obs| && !AbortedBy(world, obs[k].tsCompleted)) || (k < |free| && !AbortedBy(world, free[k].tsCompleted))
    ensures BothReach(obs, free, i)
  {
    hide GoesOn, Faithful;
    if i < |obs| {
      assert Follows(obs, i, start, world, deadline, policy);
    } else {
      assert Follows(free, i, start, Uncancelled(world), deadline, policy);
    }
    if i == 0 {
      FirstStarts(result, obs, end, world, deadline, policy, start);
      FirstStarts(freeResult, free, freeEnd, Uncancelled(world), deadline, policy, start);
    } else {
      SameUntilAbort(result, obs, end, freeResult, free, freeEnd, world, deadline, policy, start, i - 1);
      var o, f := obs[i - 1], free[i - 1];
      assert Follows(obs, i - 1, start, world, deadline, policy);
      assert Follows(free, i - 1, start, Uncancelled(world), deadline, policy);
      SameAttempt(o, f, world, deadline, policy);
      GoesOnAlike(o, world, deadline, policy);
      assert obs[..i] == obs[..i - 1] + [o] && i <= |free| && free[..i] == free[..i - 1] + [f];
      GoesOnToNext(result, obs, end, world, deadline, policy, start, i - 1);
      GoesOnToNext(freeResult, free, freeEnd, Uncancelled(world), deadline, policy, start, i - 1);
    }
  }

  /** Whether a run has a first attempt depends on the deadline alone. */
  lemma FirstStarts(result: Result, obs: seq<Observation>, end: int, world: World, deadline: Deadline, policy: Policy, start: int)
    requires IsRun(result, obs, end, world, deadline, policy, start)
    ensures obs != [] <==> policy.maxAttempts > 0 && deadline.HasTimeFor(start, 0)
    ensures obs != [] ==> obs[0].tsStarted == start
  {
    hide GoesOn, AllFaithful;
    if obs != [] {
      assert Follows(obs, 0, start, world, deadline, policy);
    }
  }

  lemma GoesOnAlike(o: Observation, world: World, deadline: Deadline, policy: Policy)
    ensures GoesOn(o, world, deadline, policy) <==>
            GoesOn(o, Uncancelled(world), deadline, policy) && !AbortedBy(world, o.tsCompleted)
  {
  }

  /** Attempts of a run end in their order. */
  lemma {:induction false} EndsInOrder(obs: seq<Observation>, start: int, world: World, deadline: Deadline, policy: Policy,
                                       i: nat, j: nat)
    requires Chained(obs, start, world, deadline, policy) && AllFaithful(obs, world, deadline, policy) && i <= j < |obs|
    ensures obs[i].tsCompleted <= obs[j].tsCompleted
  {
    if i < j {
      hide GoesOn;
      EndsInOrder(obs, start, world, deadline, policy, i, j - 1);
      assert Follows(obs, j, start, world, deadline, policy);
      assert Faithful(obs[j], world, deadline, policy);
      hide WaitAfter, AbortedBy;
      var o := obs[j];
      ExchangeInTime(world, o.attemptNo, o.tsStarted,
                     deadline.AttemptTimeout(o.tsStarted, policy.attemptTimeoutMs) + world.timerLate(o.attemptNo));
    }
  }

  lemma RunEndsInOrder(result: Result, obs: seq<Observation>, end: int, world: World, deadline: Deadline, policy: Policy,
                       start: int, i: nat, j: nat)
    requires IsRun(result, obs, end, world, deadline, policy, start) && i <= j < |obs|
    ensures obs[i].tsCompleted <= obs[j].tsCompleted
  {
    EndsInOrder(obs, start, world, deadline, policy, i, j);
  }

  lemma EarlierEndedBefore(result: Result, obs: seq<Observation>, end: int, world: World, deadline: Deadline, policy: Policy,
                           start: int, i: nat)
    requires IsRun(result, obs, end, world, deadline, policy, start) && i + 1 < |obs|
    ensures !AbortedBy(world, obs[i].tsCompleted)
  {
    NothingFinalIsRepeated(obs, start, world, deadline, policy, i);
  }

  /** The abort comes at or before the first start, or in the sleep after attempt `i`, which another attempt follows. */
  ghost predicate AbortMisses(free: seq<Observation>, abortAt: int) {
    || (free != [] && abortAt <= free[0].tsStarted)
    || exists i :: AbortInSleep(free, abortAt, i)
  }

  predicate AbortInSleep(free: seq<Observation>, abortAt: int, i: nat) {
    i + 1 < |free| && free[i].tsCompleted < abortAt <= free[i + 1].tsStarted
  }

  /**
   When an attempt is started for a caller who has cancelled, told by the run that the call would have
   if nobody cancelled: the abort comes at or before its first start, or in one of its sleeps between
   attempts. An abort in an attempt, or after the last one, is always noticed.
   */
  lemma StartsAfterAbortExactly(result: Result, obs: seq<Observation>, end: int,
                                freeResult: Result, free: seq<Observation>, freeEnd: int,
                                world: World, deadline: Deadline, policy: Policy, start: int)
    requires IsRun(result, obs, end, world, deadline, policy, start)
    requires IsRun(freeResult, free, freeEnd, Uncancelled(world), deadline, policy, start)
    ensures (exists i :: 0 <= i < |obs| && AbortedBy(world, obs[i].tsStarted)) <==>
            world.abortAt.Some? && AbortMisses(free, world.abortAt.value)
  {
    hide IsRun, GoesOn, Faithful;
    if i :| 0 <= i < |obs| && AbortedBy(world, obs[i].tsStarted) {
      forall k | 0 <= k < i
        ensures !AbortedBy(world, obs[k].tsCompleted)
      {
        EarlierEndedBefore(result, obs, end, world, deadline, policy, start, k);
      }
      SameUntilAbort(result, obs, end, freeResult, free, freeEnd, world, deadline, policy, start, i);
      if i > 0 {
        assert obs[..i][i - 1] == free[..i][i - 1];
        assert AbortInSleep(free, world.abortAt.value, i - 1);
      }
    }
    if world.abortAt.Some? && free != [] && world.abortAt.value <= free[0].tsStarted {
      SameUntilAbort(result, obs, end, freeResult, free, freeEnd, world, deadline, policy, start, 0);
    } else if world.abortAt.Some? && exists i :: AbortInSleep(free, world.abortAt.value, i) {
      var i: nat :| AbortInSleep(free, world.abortAt.value, i);
      forall k | 0 <= k < i + 1
        ensures !AbortedBy(world, free[k].tsCompleted)
      {
        RunEndsInOrder(freeResult, free, freeEnd, Uncancelled(world), deadline, policy, start, k, i);
      }
      SameUntilAbort(result, obs, end, freeResult, free, freeEnd, world, deadline, policy, start, i + 1);
      assert AbortedBy(world, obs[i + 1].tsStarted);
    }
  }

  /** The provider fails after 10 ms each time; the caller cancels at 500 ms; timers are on time. */
  function FailingWorld(text: Option<Json> -> Text): World {
    World(_ => Reply(10, Failed), Some(500), text, _ => 0, _ => 0)
  }

  /**
   It happens: with two attempts allowed, the first fails at 10 ms, the loop sleeps two seconds, the abort
   at 500 ms does not wake it, and a second attempt is started at 2010 ms for nobody.
   */
  method AbortDuringSleep(text: Option<Json> -> Text) returns (result: Result, obs: seq<Observation>)
    ensures |obs| == 2 && obs[0].tsCompleted == 10 && obs[1].tsStarted == 2010
    ensures AbortInSleep(obs, 500, 0) && result == Answer(NetworkError, 2)
  {
    var world, deadline, policy := FailingWorld(text), CreateDeadline(0, 60_000, 5_000), Policy(2, 30_000, 5_000);
    var end;
    result, obs, end := RunChatAttempts(world, deadline, policy, 0);
    FailingRun(result, obs, end, text);
  }

  lemma FailingRun(result: Result, obs: seq<Observation>, end: int, text: Option<Json> -> Text)
    requires IsRun(result, obs, end, FailingWorld(text), CreateDeadline(0, 60_000, 5_000), Policy(2, 30_000, 5_000), 0)
    ensures |obs| == 2 && obs[0].tsCompleted == 10 && obs[1].tsStarted == 2010
    ensures AbortInSleep(obs, 500, 0) && result == Answer(NetworkError, 2)
  {
    var world, deadline, policy := FailingWorld(text), CreateDeadline(0, 60_000, 5_000), Policy(2, 30_000, 5_000);
    var first := Observation(1, 0, 10, NetworkError, None);
    var second := Observation(2, 2010, 2010, NetworkError, None);
    assert ComputeBackoffMs(1) == 2000 by {
      assert Pow2(0) == 1;
    }
    assert Faithful(first, world, deadline, policy) && Faithful(second, world, deadline, policy);
    assert GoesOn(first, world, deadline, policy) && !GoesOn(second, world, deadline, policy);
    var run := [first, second];
    assert Follows(run, 0, 0, world, deadline, policy) && Follows(run, 1, 0, world, deadline, policy);
    assert IsRun(Answer(NetworkError, 2), run, 2010, world, deadline, policy, 0);
    RunIsUnique(result, obs, end, Answer(NetworkError, 2), run, 2010, world, deadline, policy, 0);
  }

  lemma ExchangeInTime(world: World, attempt: AttemptNo, start: int, timeoutMs: nat)
    ensures start <= Exchange(world, attempt, start, timeoutMs).0 <= start + timeoutMs
  {
  }

  /** With timers on time every attempt ends within its timeout, the last one at most 1 ms after the deadline. */
  lemma {:induction false} EndsByDeadline(obs: seq<Observation>, start: int, world: World, deadline: Deadline, policy: Policy, i: nat)
    requires Chained(obs, start, world, deadline, policy) && AllFaithful(obs, world, deadline, policy)
    requires OnTime(world) && i < |obs|
    ensures obs[i].tsStarted <= deadline.deadlineAt - deadline.minRemainingMs
    ensures obs[i].tsStarted <= obs[i].tsCompleted
    ensures obs[i].tsCompleted <= deadline.deadlineAt + if deadline.minRemainingMs > 0 then 0 else 1
    ensures policy.attemptTimeoutMs > 0 ==> obs[i].tsCompleted <= obs[i].tsStarted + policy.attemptTimeoutMs
  {
    var o := obs[i];
    assert Faithful(o, world, deadline, policy) && Follows(obs, i, start, world, deadline, policy);
    ExchangeInTime(world, o.attemptNo, o.tsStarted, deadline.AttemptTimeout(o.tsStarted, policy.attemptTimeoutMs));
  }

  /** With timers on time, a sleep is never too long for another attempt: the deadline cuts no retry short. */
  lemma {:induction false} WakesInTime(obs: seq<Observation>, now: int, start: int, world: World, deadline: Deadline, policy: Policy)
    requires OnTime(world) && obs != [] && Awake(obs, now, start, world, deadline, policy)
    ensures deadline.HasTimeFor(now, 0)
  {
  }

  /**
   With timers on time a call returns by its deadline, or 1 ms later if no rest is reserved, and without
   an attempt's result exactly if it may not even begin one.
   */
  lemma RunEndsByDeadline(result: Result, obs: seq<Observation>, end: int, world: World, deadline: Deadline, policy: Policy, start: int)
    requires IsRun(result, obs, end, world, deadline, policy, start) && OnTime(world)
    ensures if obs == [] then end == start else end <= deadline.deadlineAt + if deadline.minRemainingMs > 0 then 0 else 1
    ensures result.DeadlineExceeded? <==> policy.maxAttempts == 0 || !deadline.HasTimeFor(start, 0)
    ensures result.DeadlineExceeded? <==> obs == []
  {
    hide GoesOn, AllFaithful;
    if obs != [] {
      assert Follows(obs, 0, start, world, deadline, policy);
      EndsByDeadline(obs, start, world, deadline, policy, |obs| - 1);
      if result.DeadlineExceeded? {
        WakesInTime(obs, end, start, world, deadline, policy);
      }
    }
  }

  /** With timers on time a call never takes longer than its budget, or 1 ms more if no rest is reserved. */
  lemma CallFitsBudget(result: Result, obs: seq<Observation>, end: int, start: int, world: World, budgetMs: nat, policy: Policy)
    requires IsRun(result, obs, end, world, CreateDeadline(start, budgetMs, policy.minRemainingMs), policy, start) && OnTime(world)
    ensures end - start <= budgetMs + if policy.minRemainingMs > 0 then 0 else 1
  {
    RunEndsByDeadline(result, obs, end, world, CreateDeadline(start, budgetMs, policy.minRemainingMs), policy, start);
  }
}
