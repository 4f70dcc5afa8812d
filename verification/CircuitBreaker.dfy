/** The circuit breaker, with calls that overlap: admissions and completions interleave freely. */
module CircuitBreaker {
  import opened Options

  datatype CircuitState = CLOSED | OPEN | HALF_OPEN

  datatype BreakerConfig = BreakerConfig(failureThreshold: int, resetTimeout: int, halfOpenMaxRequests: int)

  /** The breaker's fields and, for an observer, the number of admitted calls not yet completed. */
  datatype Breaker = Breaker(state: CircuitState, failureCount: nat, successCount: nat, lastFailureTime: Option<int>,
                             halfOpenRequests: nat, inFlight: nat)

  const INITIAL := Breaker(CLOSED, 0, 0, None, 0, 0)

  /** A call arriving, an admitted call returning, an admitted call failing. */
  datatype Op = Arrive(now: int) | Succeed | Fail(now: int)

  predicate TimedOut(c: BreakerConfig, b: Breaker, now: int) {
    b.lastFailureTime.Some? && now - b.lastFailureTime.value >= c.resetTimeout
  }

  function Transition(b: Breaker, next: CircuitState): Breaker {
    if next == HALF_OPEN then b.(state := next, halfOpenRequests := 0, failureCount := 0) else b.(state := next)
  }

  /** The synchronous part of `execute`, up to the call itself. */
  function Arrived(c: BreakerConfig, b: Breaker, now: int): (Breaker, bool) {
    if b.state == OPEN && !TimedOut(c, b, now) then (b, false)
    else
      var b' := if b.state == OPEN then Transition(b, HALF_OPEN) else b;
      if b'.state == HALF_OPEN && b'.halfOpenRequests >= c.halfOpenMaxRequests then (b', false)
      else if b'.state == HALF_OPEN then (b'.(halfOpenRequests := b'.halfOpenRequests + 1, inFlight := b'.inFlight + 1), true)
      else (b'.(inFlight := b'.inFlight + 1), true)
  }

  function Succeeded(c: BreakerConfig, b: Breaker): Breaker
    requires b.inFlight > 0
  {
    var b' := b.(successCount := b.successCount + 1, inFlight := b.inFlight - 1);
    if b.state != HALF_OPEN then b'.(failureCount := 0)
    else if b.halfOpenRequests - b.failureCount >= c.halfOpenMaxRequests
    then Transition(b'.(failureCount := 0, halfOpenRequests := 0), CLOSED)
    else b'
  }

  function Failed(c: BreakerConfig, b: Breaker, now: int): Breaker
    requires b.inFlight > 0
  {
    var b' := b.(failureCount := b.failureCount + 1, lastFailureTime := Some(now), inFlight := b.inFlight - 1);
    if b.state == HALF_OPEN then Transition(b'.(halfOpenRequests := 0), OPEN)
    else if b.state == CLOSED && b'.failureCount >= c.failureThreshold then Transition(b', OPEN)
    else b'
  }

  /** A call arriving, or an admitted call completing. */
  function Step(c: BreakerConfig, b: Breaker, op: Op): Breaker {
    match op
    case Arrive(now) => Arrived(c, b, now).0
    case Succeed => if b.inFlight > 0 then Succeeded(c, b) else b
    case Fail(now) => if b.inFlight > 0 then Failed(c, b, now) else b
  }

  /** What other calls do while one admitted call stays in flight. */
  function Meanwhile(c: BreakerConfig, b: Breaker, ops: seq<Op>): (r: Breaker)
    requires b.inFlight > 0 && (b.state == OPEN ==> b.lastFailureTime.Some?)
    ensures r.inFlight > 0 && (r.state == OPEN ==> r.lastFailureTime.Some?)
  {
    if |ops| == 0 then b
    else
      var before, op := Meanwhile(c, b, ops[..|ops| - 1]), ops[|ops| - 1];
      if !op.Arrive? && before.inFlight == 1 then before else Step(c, before, op)
  }

  /** Every completion is of another call than the one that stays in flight. */
  ghost predicate OthersOnly(c: BreakerConfig, b: Breaker, ops: seq<Op>)
    requires b.inFlight > 0 && (b.state == OPEN ==> b.lastFailureTime.Some?)
  {
    forall i :: 0 <= i < |ops| && !ops[i].Arrive? ==> Meanwhile(c, b, ops[..i]).inFlight > 1
  }

  class CircuitBreaker {
    var state: CircuitState
    var failureCount: nat
    var successCount: nat
    var lastFailureTime: Option<int>
    var halfOpenRequests: nat
    ghost var inFlight: nat
    const config: BreakerConfig

    ghost function View(): Breaker
      reads this
    {
      Breaker(state, failureCount, successCount, lastFailureTime, halfOpenRequests, inFlight)
    }

    constructor (config: BreakerConfig)
      ensures View() == INITIAL && this.config == config
    {
      this.config := config;
      state, failureCount, successCount, lastFailureTime, halfOpenRequests, inFlight := CLOSED, 0, 0, None, 0, 0;
    }

    method TransitionTo(next: CircuitState)
      modifies this
      ensures View() == Transition(old(View()), next)
    {
      state := next;
      if next == HALF_OPEN {
        halfOpenRequests := 0;
        failureCount := 0;
      }
    }

    method Begin(now: int) returns (admitted: bool)
      requires state == OPEN ==> lastFailureTime.Some?
      modifies this
      ensures (View(), admitted) == Arrived(config, old(View()), now)
    {
      if state == OPEN {
        if now - lastFailureTime.value >= config.resetTimeout {
          TransitionTo(HALF_OPEN);
        } else {
          return false;
        }
      }
      if state == HALF_OPEN && halfOpenRequests >= config.halfOpenMaxRequests {
        return false;
      }
      if state == HALF_OPEN {
        halfOpenRequests := halfOpenRequests + 1;
      }
      inFlight := inFlight + 1;
      return true;
    }

    /** The other calls that arrive and complete while one admitted call is awaited. */
    method Overlap(ops: seq<Op>)
      requires inFlight > 0 && (state == OPEN ==> lastFailureTime.Some?) && OthersOnly(config, View(), ops)
      modifies this
      ensures View() == Meanwhile(config, old(View()), ops)
    {
      hide Arrived, Succeeded, Failed;
      ghost var before := View();
      for i := 0 to |ops|
        invariant View() == Meanwhile(config, before, ops[..i])
      {
        assert ops[..i + 1][..i] == ops[..i];
        match ops[i] {
          case Arrive(now) =>
            var _ := Begin(now);
          case Succeed =>
            OnSuccess();
          case Fail(now) =>
            OnFailure(now);
        }
      }
      assert ops[..|ops|] == ops;
    }

    method OnSuccess()
      requires inFlight > 0
      modifies this
      ensures View() == Succeeded(config, old(View()))
    {
      inFlight := inFlight - 1;
      successCount := successCount + 1;
      if state == HALF_OPEN {
        var halfOpenSuccesses := halfOpenRequests - failureCount;
        if halfOpenSuccesses >= config.halfOpenMaxRequests {
          failureCount := 0;
          halfOpenRequests := 0;
          TransitionTo(CLOSED);
        }
      } else {
        failureCount := 0;
      }
    }

    method OnFailure(now: int)
      requires inFlight > 0
      modifies this
      ensures View() == Failed(config, old(View()), now)
    {
      inFlight := inFlight - 1;
      failureCount := failureCount + 1;
      lastFailureTime := Some(now);
      if state == HALF_OPEN {
        halfOpenRequests := 0;
        TransitionTo(OPEN);
      } else if state == CLOSED && failureCount >= config.failureThreshold {
        TransitionTo(OPEN);
      }
    }
  }

  // ----- every reachable state -----

  function Run(c: BreakerConfig, ops: seq<Op>): Breaker {
    if |ops| == 0 then INITIAL else Step(c, Run(c, ops[..|ops| - 1]), ops[|ops| - 1])
  }

  /** A threshold of 0 or less trips on the first failure, as 1 does. */
  function Threshold(c: BreakerConfig): int {
    if c.failureThreshold > 1 then c.failureThreshold else 1
  }

  predicate AtLimit(c: BreakerConfig, b: Breaker) {
    b.state == HALF_OPEN && b.halfOpenRequests >= c.halfOpenMaxRequests
  }

  predicate Inv(c: BreakerConfig, b: Breaker) {
    && (b.state == CLOSED ==> b.failureCount < Threshold(c))
    && (b.state == OPEN ==> b.lastFailureTime.Some?)
    && (b.state == HALF_OPEN ==> b.failureCount == 0)
    && (b.state == HALF_OPEN && c.halfOpenMaxRequests >= 1 ==> b.halfOpenRequests <= c.halfOpenMaxRequests)
    && (AtLimit(c, b) && c.halfOpenMaxRequests >= 1 ==> b.inFlight >= 1)
  }

  /**
   * Under any overlap: below the threshold while closed; at most `halfOpenMaxRequests` probes; and a half-open breaker
   * at its limit always has an admitted call in flight.
   */
  lemma {:induction false} ReachableInv(c: BreakerConfig, ops: seq<Op>)
    ensures Inv(c, Run(c, ops))
  {
    if |ops| > 0 {
      ReachableInv(c, ops[..|ops| - 1]);
    }
  }

  /** Failures completed since the last success. */
  function Streak(c: BreakerConfig, ops: seq<Op>): nat {
    if |ops| == 0 then 0
    else
      var front, last := ops[..|ops| - 1], ops[|ops| - 1];
      if last.Arrive? || Run(c, front).inFlight == 0 then Streak(c, front)
      else if last.Succeed? then 0
      else Streak(c, front) + 1
  }

  /** When a call last failed, whatever the state it failed in. */
  function LastFailure(c: BreakerConfig, ops: seq<Op>): Option<int> {
    if |ops| == 0 then None
    else
      var front, last := ops[..|ops| - 1], ops[|ops| - 1];
      if last.Fail? && Run(c, front).inFlight > 0 then Some(last.now) else LastFailure(c, front)
  }

  /** The timeout is counted from the last failure, late ones of an open breaker included. */
  lemma {:induction false} TimeoutCountsFromLastFailure(c: BreakerConfig, ops: seq<Op>, now: int)
    ensures Run(c, ops).lastFailureTime == LastFailure(c, ops)
    ensures Run(c, ops).state == OPEN && c.halfOpenMaxRequests >= 1 ==>
              LastFailure(c, ops).Some?
              && (Arrived(c, Run(c, ops), now).1 <==> now >= LastFailure(c, ops).value + c.resetTimeout)
  {
    if |ops| > 0 {
      TimeoutCountsFromLastFailure(c, ops[..|ops| - 1], now);
    }
    ReachableInv(c, ops);
  }

  lemma {:induction false} ClosedCountsTheStreak(c: BreakerConfig, ops: seq<Op>)
    requires Run(c, ops).state == CLOSED
    ensures Run(c, ops).failureCount == Streak(c, ops)
  {
    if |ops| > 0 && Run(c, ops[..|ops| - 1]).state == CLOSED {
      ClosedCountsTheStreak(c, ops[..|ops| - 1]);
    }
  }

  /** A closed breaker opens exactly on the failure that brings the streak to the threshold, however calls overlap. */
  lemma TripsIff(c: BreakerConfig, ops: seq<Op>, now: int)
    requires Run(c, ops).state == CLOSED && Run(c, ops).inFlight > 0
    ensures Step(c, Run(c, ops), Fail(now)).state == OPEN <==> Streak(c, ops) + 1 >= Threshold(c)
  {
    ClosedCountsTheStreak(c, ops);
  }

  /** An open breaker admits a call exactly from `resetTimeout` after the last failure on. */
  lemma OpenAdmitsIff(c: BreakerConfig, ops: seq<Op>, now: int)
    requires Run(c, ops).state == OPEN && c.halfOpenMaxRequests >= 1
    ensures var b := Run(c, ops);
            b.lastFailureTime.Some? && (Arrived(c, b, now).1 <==> now >= b.lastFailureTime.value + c.resetTimeout)
  {
    ReachableInv(c, ops);
  }

  /** One failing probe is enough, however many are allowed: the breaker opens, and refuses until the timeout after it. */
  lemma FailingProbeOpens(c: BreakerConfig, b: Breaker, now: int, later: int)
    requires b.state == HALF_OPEN && b.inFlight > 0 && c.halfOpenMaxRequests >= 1
    ensures var b' := Step(c, b, Fail(now));
            b'.state == OPEN && (Arrived(c, b', later).1 <==> later >= now + c.resetTimeout)
  {
  }

  /** A success while closed or half-open never refuses the next call: it clears the failures of a closed breaker. */
  lemma SuccessClears(c: BreakerConfig, ops: seq<Op>)
    requires Run(c, ops).inFlight > 0 && c.halfOpenMaxRequests >= 1
    ensures var b, b' := Run(c, ops), Step(c, Run(c, ops), Succeed);
            && b'.successCount == b.successCount + 1 && b'.inFlight == b.inFlight - 1
            && (b.state == CLOSED ==> b'.state == CLOSED && b'.failureCount == 0)
            && (b.state == OPEN ==> b'.state == OPEN)
            && (b.state == HALF_OPEN ==> (b'.state == CLOSED <==> AtLimit(c, b)))
  {
    ReachableInv(c, ops);
  }

  /** At the limit, whichever admitted call completes first takes the breaker out of half-open. */
  lemma CompletionLeavesTheLimit(c: BreakerConfig, ops: seq<Op>, now: int)
    requires AtLimit(c, Run(c, ops)) && c.halfOpenMaxRequests >= 1
    ensures Run(c, ops).inFlight >= 1
    ensures Step(c, Run(c, ops), Succeed).state == CLOSED
    ensures Step(c, Run(c, ops), Fail(now)).state == OPEN
  {
    ReachableInv(c, ops);
  }

  /** With nothing in flight, a call that arrives once the reset timeout is over is admitted. */
  ghost predicate IdleAdmits(c: BreakerConfig, b: Breaker) {
    b.inFlight == 0 ==> forall now :: (b.state == OPEN ==> TimedOut(c, b, now)) ==> Arrived(c, b, now).1
  }

  /** Calls that fail one after the other, all at time 0. */
  function Failures(n: nat): seq<Op> {
    if n == 0 then [] else Failures(n - 1) + [Arrive(0), Fail(0)]
  }

  lemma {:induction false} FailuresTrip(c: BreakerConfig, n: nat)
    requires n <= Threshold(c)
    ensures var b := Run(c, Failures(n));
            b.inFlight == 0 && (if n < Threshold(c) then b.state == CLOSED && b.failureCount == n else b.state == OPEN)
  {
    if n > 0 {
      FailuresTrip(c, n - 1);
      var before := Failures(n - 1);
      assert Failures(n)[..|Failures(n)| - 1] == before + [Arrive(0)];
      assert (before + [Arrive(0)])[..|before|] == before;
    }
  }

  /** No reachable idle state refuses calls for ever, exactly when at least one probe is allowed. */
  lemma NeverWedgesIff(c: BreakerConfig)
    ensures (forall ops :: IdleAdmits(c, Run(c, ops))) <==> c.halfOpenMaxRequests >= 1
  {
    if c.halfOpenMaxRequests >= 1 {
      forall ops
        ensures IdleAdmits(c, Run(c, ops))
      {
        ReachableInv(c, ops);
      }
    } else {
      var ops := Failures(Threshold(c));
      FailuresTrip(c, Threshold(c));
      ReachableInv(c, ops);
      var b := Run(c, ops);
      var now := b.lastFailureTime.value + c.resetTimeout;
      assert TimedOut(c, b, now) && !Arrived(c, b, now).1;
    }
  }

  // ----- recovery -----

  /** `n` calls one after the other, each succeeding. */
  function Successes(c: BreakerConfig, b: Breaker, n: nat, now: int): Breaker {
    if n == 0 then b
    else
      var b' := Arrived(c, Successes(c, b, n - 1, now), now).0;
      Step(c, b', Succeed)
  }

  /** Without overlap, recovery takes exactly `halfOpenMaxRequests` successful probes. */
  lemma {:induction false} ClosesAfterExactly(c: BreakerConfig, b: Breaker, n: nat, now: int)
    requires Inv(c, b) && b.state == OPEN && b.inFlight == 0 && TimedOut(c, b, now)
    requires 1 <= n <= c.halfOpenMaxRequests
    ensures var r := Successes(c, b, n, now);
            && r.inFlight == 0
            && (if n < c.halfOpenMaxRequests then r.state == HALF_OPEN && r.halfOpenRequests == n && r.failureCount == 0
                else r.state == CLOSED && r.failureCount == 0)
  {
    if n == 1 {
      assert Successes(c, b, 0, now) == b;
    } else {
      ClosesAfterExactly(c, b, n - 1, now);
    }
  }
}
