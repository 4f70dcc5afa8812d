/** RPC provider selection and failover behind the circuit breaker. */
module RpcPool {
  import opened FiniteSets
  import opened Options
  import Breakers = CircuitBreaker

  datatype Provider = Provider(url: string, healthy: bool, consecutiveFailures: nat, lastFailureAt: Option<int>,
                               lastLatencyMs: Option<int>, totalRequests: nat, totalFailures: nat)

  datatype Strategy = RoundRobin | Latency | Random

  datatype Pool = Pool(providers: seq<Provider>, rrIndex: nat)

  datatype Settings = Settings(strategy: Strategy, failureThreshold: int)

  /** How a provider's answer ends, and when. */
  datatype Answer = Answer(ok: bool, start: int, end: int)

  /**
   * The world around one call: `answer(k, i)` is what provider `i` does on attempt `k`, `others(k)` what other calls and
   * health checks do to the pool while it is awaited, `random(k)` the draw of the random strategy.
   */
  datatype Call = Call(answer: (nat, nat) -> Answer, others: nat -> (Pool -> Pool), random: nat -> nat)

  predicate SameUrls(a: seq<Provider>, b: seq<Provider>) {
    |a| == |b| && forall i :: 0 <= i < |a| ==> a[i].url == b[i].url
  }

  ghost predicate KeepsUrls(c: Call) {
    forall k, pool: Pool :: SameUrls(c.others(k)(pool).providers, pool.providers)
  }

  predicate HealthOk(p: Provider, failureThreshold: int) {
    p.healthy ==> p.consecutiveFailures < if failureThreshold > 1 then failureThreshold else 1
  }

  ghost predicate AllHealthOk(ps: seq<Provider>, failureThreshold: int) {
    forall i :: 0 <= i < |ps| ==> HealthOk(ps[i], failureThreshold)
  }

  ghost predicate KeepsHealth(c: Call, failureThreshold: int) {
    forall k, pool: Pool :: AllHealthOk(pool.providers, failureThreshold) ==> AllHealthOk(c.others(k)(pool).providers, failureThreshold)
  }

  // ----- selection -----

  /** Indices of the healthy providers, in order. */
  function Healthy(ps: seq<Provider>): (r: seq<nat>)
    ensures forall i :: 0 <= i < |r| ==> r[i] < |ps| && ps[r[i]].healthy
  {
    if |ps| == 0 then []
    else
      var front := Healthy(ps[..|ps| - 1]);
      if ps[|ps| - 1].healthy then front + [|ps| - 1] else front
  }

  lemma {:induction false} HealthyExact(ps: seq<Provider>)
    ensures forall i: nat :: i in Healthy(ps) <==> i < |ps| && ps[i].healthy
    ensures (forall i :: 0 <= i < |ps| ==> ps[i].healthy) ==> |Healthy(ps)| == |ps| && forall i :: 0 <= i < |ps| ==> Healthy(ps)[i] == i
  {
    if |ps| > 0 {
      HealthyExact(ps[..|ps| - 1]);
    }
  }

  /** The first of the given providers with the lowest known latency. */
  function Fastest(ps: seq<Provider>, ids: seq<nat>): (r: Option<nat>)
    requires forall k :: 0 <= k < |ids| ==> ids[k] < |ps|
    ensures r.Some? ==> r.value < |ps| && ps[r.value].lastLatencyMs.Some?
  {
    if |ids| == 0 then None
    else
      var best, i := Fastest(ps, ids[..|ids| - 1]), ids[|ids| - 1];
      if ps[i].lastLatencyMs.Some? && (best.None? || ps[i].lastLatencyMs.value < ps[best.value].lastLatencyMs.value)
      then Some(i) else best
  }

  /** `selectProvider`: the chosen index and the new round-robin index. */
  function Selected(ps: seq<Provider>, strategy: Strategy, rrIndex: nat, random: nat): (r: (nat, nat))
    requires |ps| > 0
    ensures r.0 < |ps|
  {
    var healthy := Healthy(ps);
    if |healthy| == 0 then (0, rrIndex)
    else
      match strategy
      case Latency =>
        var best := Fastest(ps, healthy);
        (if best.Some? then best.value else healthy[0], rrIndex)
      case Random => (healthy[random % |healthy|], rrIndex)
      case RoundRobin => (healthy[rrIndex % |healthy|], (rrIndex % |healthy| + 1) % |healthy|)
  }

  predicate Measured(p: Provider) {
    p.healthy && p.lastLatencyMs.Some?
  }

  lemma {:induction false} FastestIsMinimal(ps: seq<Provider>, ids: seq<nat>)
    requires forall k :: 0 <= k < |ids| ==> ids[k] < |ps|
    ensures Fastest(ps, ids).Some? ==> Fastest(ps, ids).value in ids
    ensures forall k :: 0 <= k < |ids| && ps[ids[k]].lastLatencyMs.Some? ==>
                          && Fastest(ps, ids).Some?
                          && ps[Fastest(ps, ids).value].lastLatencyMs.value <= ps[ids[k]].lastLatencyMs.value
  {
    if |ids| > 0 {
      FastestIsMinimal(ps, ids[..|ids| - 1]);
      assert ids == ids[..|ids| - 1] + [ids[|ids| - 1]];
    }
  }

  /** A healthy provider is chosen whenever there is one, and the latency strategy chooses a fastest one. */
  lemma SelectionIsSound(ps: seq<Provider>, strategy: Strategy, rrIndex: nat, random: nat, i: nat)
    requires i < |ps| && ps[i].healthy
    ensures var selected := Selected(ps, strategy, rrIndex, random).0;
            && ps[selected].healthy
            && (strategy == Latency && Measured(ps[i]) ==>
                  Measured(ps[selected]) && ps[selected].lastLatencyMs.value <= ps[i].lastLatencyMs.value)
  {
    hide Fastest;
    var healthy := Healthy(ps);
    HealthyExact(ps);
    FastestIsMinimal(ps, healthy);
    assert i in healthy;
    var k :| 0 <= k < |healthy| && healthy[k] == i;
    assert ps[healthy[k]].lastLatencyMs == ps[i].lastLatencyMs;
  }

  /** With no healthy provider the first one is taken, under every strategy. */
  lemma FallsBackToTheFirst(ps: seq<Provider>, strategy: Strategy, rrIndex: nat, random: nat)
    requires |ps| > 0 && forall i :: 0 <= i < |ps| ==> !ps[i].healthy
    ensures Selected(ps, strategy, rrIndex, random) == (0, rrIndex)
  {
    HealthyMeansSome(ps);
  }

  lemma HealthyMeansSome(ps: seq<Provider>)
    ensures |Healthy(ps)| > 0 ==> exists i :: 0 <= i < |ps| && ps[i].healthy
  {
    if |Healthy(ps)| > 0 {
      assert ps[Healthy(ps)[0]].healthy;
    }
  }

  /** Every healthy provider is drawn by some number below their count. */
  lemma EveryHealthyIsDrawn(ps: seq<Provider>, rrIndex: nat, i: nat) returns (draw: nat)
    requires i < |ps| && ps[i].healthy
    ensures draw < |Healthy(ps)| && Selected(ps, Random, rrIndex, draw) == (i, rrIndex)
  {
    HealthyExact(ps);
    hide Healthy;
    assert i in Healthy(ps);
    draw :| 0 <= draw < |Healthy(ps)| && Healthy(ps)[draw] == i;
    NextIndex(draw, |Healthy(ps)|);
  }

  // ----- failover, as functions -----

  function MarkedFailed(p: Provider, failureThreshold: int, now: int): Provider {
    var p' := p.(consecutiveFailures := p.consecutiveFailures + 1, totalFailures := p.totalFailures + 1, lastFailureAt := Some(now));
    if p'.consecutiveFailures >= failureThreshold then p'.(healthy := false) else p'
  }

  function Answered(p: Provider, a: Answer, failureThreshold: int): Provider {
    if a.ok then p.(consecutiveFailures := 0, lastLatencyMs := Some(a.end - a.start))
    else MarkedFailed(p, failureThreshold, a.end)
  }

  function Requested(p: Provider): Provider {
    p.(totalRequests := p.totalRequests + 1)
  }

  /** Attempt `k` of a call, on provider `p`. */
  function Attempted(t: Settings, c: Call, pool: Pool, p: nat, k: nat): (r: Pool)
    requires KeepsUrls(c) && p < |pool.providers|
    ensures SameUrls(r.providers, pool.providers)
  {
    var asked := pool.(providers := pool.providers[p := Requested(pool.providers[p])]);
    var later := c.others(k)(asked);
    assert SameUrls(later.providers, asked.providers);
    later.(providers := later.providers[p := Answered(later.providers[p], c.answer(k, p), t.failureThreshold)])
  }

  function FirstUntried(ps: seq<Provider>, triedUrls: set<string>): (r: Option<nat>)
    ensures r.Some? ==> r.value < |ps| && ps[r.value].url !in triedUrls
    ensures r.None? ==> forall i :: 0 <= i < |ps| ==> ps[i].url in triedUrls
  {
    if |ps| == 0 then None
    else if ps[0].url !in triedUrls then Some(0)
    else
      match FirstUntried(ps[1..], triedUrls)
      case None => None
      case Some(i) => Some(i + 1)
  }

  /** The selected provider, or the first whose URL is still untried, or none. */
  function Untried(ps: seq<Provider>, selected: nat, triedUrls: set<string>): (r: Option<nat>)
    requires selected < |ps|
    ensures r.Some? ==> r.value < |ps| && ps[r.value].url !in triedUrls
    ensures r.None? ==> forall i :: 0 <= i < |ps| ==> ps[i].url in triedUrls
  {
    if ps[selected].url !in triedUrls then Some(selected) else FirstUntried(ps, triedUrls)
  }

  predicate InRange(ps: seq<Provider>, tried: seq<nat>) {
    forall k :: 0 <= k < |tried| ==> tried[k] < |ps|
  }

  function UrlsOf(ps: seq<Provider>, tried: seq<nat>): set<string>
    requires InRange(ps, tried)
  {
    set k | 0 <= k < |tried| :: ps[tried[k]].url
  }

  /** At most `n` more attempts after those in `tried`: the pool, whether the call succeeded, and all attempts in order. */
  function Failover(t: Settings, c: Call, pool: Pool, tried: seq<nat>, n: nat): (r: (Pool, bool, seq<nat>))
    requires KeepsUrls(c) && InRange(pool.providers, tried) && (n > 0 ==> |pool.providers| > 0)
    ensures SameUrls(r.0.providers, pool.providers) && InRange(pool.providers, r.2)
    decreases n
  {
    if n == 0 then (pool, false, tried)
    else
      var (selected, rrIndex) := Selected(pool.providers, t.strategy, pool.rrIndex, c.random(|tried|));
      var turned := pool.(rrIndex := rrIndex);
      match Untried(pool.providers, selected, UrlsOf(pool.providers, tried))
      case None => (turned, false, tried)
      case Some(p) =>
        var after := Attempted(t, c, turned, p, |tried|);
        if c.answer(|tried|, p).ok then (after, true, tried + [p])
        else Failover(t, c, after, tried + [p], n - 1)
  }

  function FailoverCall(t: Settings, c: Call, pool: Pool): (Pool, bool, seq<nat>)
    requires KeepsUrls(c)
  {
    Failover(t, c, pool, [], |pool.providers|)
  }

  /** A health check probes unhealthy providers that have rested. */
  predicate Due(p: Provider, now: int, recoveryIntervalMs: int) {
    !p.healthy && (p.lastFailureAt.None? || now - p.lastFailureAt.value >= recoveryIntervalMs)
  }

  function Probed(p: Provider, a: Answer): Provider {
    if a.ok then p.(healthy := true, consecutiveFailures := 0, lastLatencyMs := Some(a.end - a.start))
    else p.(lastFailureAt := Some(a.end))
  }

  /** The first `n` providers of a health check; `c.answer(0, i)` is what provider `i` answers its probe. */
  function Swept(c: Call, now: int, recoveryIntervalMs: int, pool: Pool, n: nat): (r: Pool)
    requires KeepsUrls(c) && n <= |pool.providers|
    ensures SameUrls(r.providers, pool.providers)
  {
    if n == 0 then pool
    else
      var before, i := Swept(c, now, recoveryIntervalMs, pool, n - 1), n - 1;
      if !Due(before.providers[i], now, recoveryIntervalMs) then before
      else
        var later := c.others(i)(before);
        assert SameUrls(later.providers, before.providers);
        later.(providers := later.providers[i := Probed(later.providers[i], c.answer(0, i))])
  }

  // ----- the pool -----

  class RpcPool {
    var providers: seq<Provider>
    var rrIndex: nat
    const settings: Settings

    ghost function View(): Pool
      reads this
    {
      Pool(providers, rrIndex)
    }

    constructor (urls: seq<string>, settings: Settings)
      ensures |providers| == |urls| && rrIndex == 0 && this.settings == settings
      ensures forall i :: 0 <= i < |urls| ==> providers[i] == Provider(urls[i], true, 0, None, None, 0, 0)
      ensures AllHealthOk(providers, settings.failureThreshold)
    {
      this.settings, rrIndex := settings, 0;
      providers := seq(|urls|, i requires 0 <= i < |urls| => Provider(urls[i], true, 0, None, None, 0, 0));
    }

    /** `random` stands for the draw of the random strategy. */
    method SelectProvider(random: nat) returns (selected: nat)
      requires |providers| > 0
      modifies this`rrIndex
      ensures (selected, rrIndex) == Selected(providers, settings.strategy, old(rrIndex), random)
    {
      hide Fastest, Healthy;
      var healthy := Healthy(providers);
      if |healthy| == 0 {
        return 0;
      }
      match settings.strategy {
        case Latency =>
          var best := FastestAmong(healthy);
          return if best.Some? then best.value else healthy[0];
        case Random =>
          return healthy[random % |healthy|];
        case RoundRobin =>
          rrIndex := rrIndex % |healthy|;
          selected := healthy[rrIndex];
          rrIndex := (rrIndex + 1) % |healthy|;
      }
    }

    method FastestAmong(ids: seq<nat>) returns (best: Option<nat>)
      requires forall k :: 0 <= k < |ids| ==> ids[k] < |providers|
      ensures best == Fastest(providers, ids)
    {
      best := None;
      for k := 0 to |ids|
        invariant best == Fastest(providers, ids[..k])
      {
        assert ids[..k + 1][..k] == ids[..k];
        var p := providers[ids[k]];
        if p.lastLatencyMs.Some? && (best.None? || p.lastLatencyMs.value < providers[best.value].lastLatencyMs.value) {
          best := Some(ids[k]);
        }
      }
      assert ids[..|ids|] == ids;
    }

    method MarkFailure(i: nat, now: int)
      requires i < |providers|
      modifies this`providers
      ensures providers == old(providers)[i := MarkedFailed(old(providers)[i], settings.failureThreshold, now)]
    {
      var p := providers[i];
      p := p.(consecutiveFailures := p.consecutiveFailures + 1);
      p := p.(totalFailures := p.totalFailures + 1);
      p := p.(lastFailureAt := Some(now));
      if p.consecutiveFailures >= settings.failureThreshold && p.healthy {
        p := p.(healthy := false);
      }
      providers := providers[i := p];
    }

    method Attempt(c: Call, p: nat, k: nat)
      requires KeepsUrls(c) && p < |providers|
      modifies this
      ensures View() == Attempted(settings, c, old(View()), p, k)
    {
      providers := providers[p := Requested(providers[p])];
      var later := c.others(k)(Pool(providers, rrIndex));
      assert SameUrls(later.providers, providers);
      providers, rrIndex := later.providers, later.rrIndex;
      var a := c.answer(k, p);
      if a.ok {
        providers := providers[p := providers[p].(consecutiveFailures := 0, lastLatencyMs := Some(a.end - a.start))];
      } else {
        MarkFailure(p, a.end);
      }
    }

    /** `tried` lists the providers asked, in order. */
    method ExecuteWithFailover(c: Call) returns (ok: bool, tried: seq<nat>)
      requires KeepsUrls(c)
      modifies this
      ensures (View(), ok, tried) == FailoverCall(settings, c, old(View()))
    {
      hide Failover, Selected, Untried, Attempted, UrlsOf;
      tried := [];
      var triedUrls: set<string> := {};
      ghost var goal := FailoverCall(settings, c, View());
      var total := |providers|;
      NoneTried(providers);
      for attempt := 0 to total
        invariant |providers| == total && |tried| == attempt && InRange(providers, tried)
        invariant triedUrls == UrlsOf(providers, tried)
        invariant Failover(settings, c, View(), tried, total - attempt) == goal
      {
        FailoverUnfolds(settings, c, View(), tried, total - attempt);
        var p := PickUntried(triedUrls, c.random(attempt));
        if p.None? {
          return false, tried;
        }
        ghost var before := providers;
        triedUrls := triedUrls + {providers[p.value].url};
        UrlsSnoc(providers, tried, p.value);
        tried := tried + [p.value];
        Attempt(c, p.value, attempt);
        SameUrlsOf(providers, before, tried);
        if c.answer(attempt, p.value).ok {
          return true, tried;
        }
      }
      FailoverUnfolds(settings, c, View(), tried, 0);
      return false, tried;
    }

    method PickUntried(triedUrls: set<string>, random: nat) returns (p: Option<nat>)
      requires |providers| > 0
      modifies this`rrIndex
      ensures var (selected, index) := Selected(providers, settings.strategy, old(rrIndex), random);
              p == Untried(providers, selected, triedUrls) && rrIndex == index
    {
      hide Selected;
      var selected := SelectProvider(random);
      if providers[selected].url !in triedUrls {
        return Some(selected);
      }
      p := FindUntried(triedUrls);
    }

    method FindUntried(triedUrls: set<string>) returns (p: Option<nat>)
      ensures p == FirstUntried(providers, triedUrls)
    {
      for i := 0 to |providers|
        invariant FirstUntried(providers, triedUrls)
                  == match FirstUntried(providers[i..], triedUrls) case None => None case Some(j) => Some(j + i)
      {
        assert providers[i..][1..] == providers[i + 1..];
        if providers[i].url !in triedUrls {
          return Some(i);
        }
      }
      return None;
    }

    /** A sweep over the unhealthy providers, with other calls landing while each probe is awaited. */
    method RunHealthChecks(now: int, recoveryIntervalMs: int, c: Call)
      requires KeepsUrls(c)
      modifies this
      ensures View() == Swept(c, now, recoveryIntervalMs, old(View()), |old(providers)|)
    {
      hide Probed, KeepsUrls, SameUrls;
      ghost var before := View();
      var total := |providers|;
      for i := 0 to total
        invariant |providers| == total == |before.providers|
        invariant View() == Swept(c, now, recoveryIntervalMs, before, i)
      {
        var p := providers[i];
        if !p.healthy && (p.lastFailureAt.None? || now - p.lastFailureAt.value >= recoveryIntervalMs) {
          Probe(c, i);
        }
      }
    }

    method Probe(c: Call, i: nat)
      requires KeepsUrls(c) && i < |providers|
      modifies this
      ensures var later := c.others(i)(old(View()));
              && i < |later.providers| && |providers| == |old(providers)|
              && View() == later.(providers := later.providers[i := Probed(later.providers[i], c.answer(0, i))])
    {
      var later := c.others(i)(Pool(providers, rrIndex));
      assert SameUrls(later.providers, providers);
      providers, rrIndex := later.providers, later.rrIndex;
      var a := c.answer(0, i);
      if a.ok {
        providers := providers[i := providers[i].(healthy := true, consecutiveFailures := 0, lastLatencyMs := Some(a.end - a.start))];
      } else {
        providers := providers[i := providers[i].(lastFailureAt := Some(a.end))];
      }
    }

    /**
     * A call through the breaker, which counts a failure only when the failover gave up. `overlap` is what other calls do at
     * the breaker while this one is awaited.
     */
    method Execute(breaker: Breakers.CircuitBreaker, now: int, end: int, c: Call, overlap: seq<Breakers.Op>)
      returns (admitted: bool, ok: bool, tried: seq<nat>)
      requires breaker.state == Breakers.OPEN ==> breaker.lastFailureTime.Some?
      requires KeepsUrls(c)
      requires var (b, admits) := Breakers.Arrived(breaker.config, breaker.View(), now);
               admits ==> Breakers.OthersOnly(breaker.config, b, overlap)
      modifies this, breaker
      ensures admitted == Breakers.Arrived(breaker.config, old(breaker.View()), now).1
      ensures admitted ==> (View(), ok, tried) == FailoverCall(settings, c, old(View()))
      ensures !admitted ==> View() == old(View()) && !ok && tried == []
      ensures var b := Breakers.Arrived(breaker.config, old(breaker.View()), now).0;
              breaker.View() == if !admitted then b
                                else
                                  var at := Breakers.Meanwhile(breaker.config, b, overlap);
                                  if ok then Breakers.Succeeded(breaker.config, at) else Breakers.Failed(breaker.config, at, end)
    {
      hide FailoverCall;
      admitted := breaker.Begin(now);
      if !admitted {
        return false, false, [];
      }
      ok, tried := ExecuteWithFailover(c);
      breaker.Overlap(overlap);
      if ok {
        breaker.OnSuccess();
      } else {
        breaker.OnFailure(end);
      }
    }
  }

  lemma NoneTried(ps: seq<Provider>)
    ensures UrlsOf(ps, []) == {}
  {
  }

  lemma FailoverUnfolds(t: Settings, c: Call, pool: Pool, tried: seq<nat>, n: nat)
    requires KeepsUrls(c) && InRange(pool.providers, tried) && (n > 0 ==> |pool.providers| > 0)
    ensures n == 0 ==> Failover(t, c, pool, tried, n) == (pool, false, tried)
    ensures n > 0 ==>
              var (selected, rrIndex) := Selected(pool.providers, t.strategy, pool.rrIndex, c.random(|tried|));
              var turned := pool.(rrIndex := rrIndex);
              var p := Untried(pool.providers, selected, UrlsOf(pool.providers, tried));
              Failover(t, c, pool, tried, n)
              == if p.None? then (turned, false, tried)
                 else
                   var after := Attempted(t, c, turned, p.value, |tried|);
                   if c.answer(|tried|, p.value).ok then (after, true, tried + [p.value])
                   else Failover(t, c, after, tried + [p.value], n - 1)
  {
  }

  lemma SameUrlsOf(ps: seq<Provider>, qs: seq<Provider>, tried: seq<nat>)
    requires SameUrls(ps, qs) && InRange(ps, tried)
    ensures UrlsOf(ps, tried) == UrlsOf(qs, tried)
  {
  }

  // ----- one provider's health -----

  /** A healthy provider goes unhealthy exactly on the failure that brings its row of failures to the threshold. */
  lemma GoesUnhealthyIff(p: Provider, a: Answer, failureThreshold: int)
    ensures var p' := Answered(p, a, failureThreshold);
            && (p'.healthy <==> p.healthy && (a.ok || p.consecutiveFailures + 1 < failureThreshold))
            && p'.consecutiveFailures == (if a.ok then 0 else p.consecutiveFailures + 1)
            && p'.totalFailures == (if a.ok then p.totalFailures else p.totalFailures + 1)
            && p'.lastFailureAt == (if a.ok then p.lastFailureAt else Some(a.end))
            && p'.lastLatencyMs == (if a.ok then Some(a.end - a.start) else p.lastLatencyMs)
            && p'.url == p.url && p'.totalRequests == p.totalRequests
  {
  }

  function AnsweredAll(p: Provider, answers: seq<Answer>, failureThreshold: int): Provider {
    if |answers| == 0 then p
    else Answered(AnsweredAll(p, answers[..|answers| - 1], failureThreshold), answers[|answers| - 1], failureThreshold)
  }

  /** The failures at the end of a list of answers. */
  function FailureStreak(answers: seq<Answer>): nat {
    if |answers| == 0 || answers[|answers| - 1].ok then 0 else FailureStreak(answers[..|answers| - 1]) + 1
  }

  /** A provider that starts healthy is unhealthy after a row of answers exactly when some prefix ends in a threshold of failures. */
  lemma {:induction false} StreakDecides(p: Provider, answers: seq<Answer>, failureThreshold: int)
    requires p.healthy && p.consecutiveFailures == 0 && failureThreshold >= 1
    ensures var p' := AnsweredAll(p, answers, failureThreshold);
            && p'.consecutiveFailures == FailureStreak(answers)
            && (p'.healthy <==> forall n :: 0 <= n <= |answers| ==> FailureStreak(answers[..n]) < failureThreshold)
  {
    if |answers| == 0 {
      assert answers[..0] == [];
    } else {
      var front := answers[..|answers| - 1];
      StreakDecides(p, front, failureThreshold);
      assert forall n :: 0 <= n <= |front| ==> front[..n] == answers[..n];
      assert answers[..|answers|] == answers;
    }
  }

  // ----- what a call leaves behind -----

  /** Healthy implies fewer failures in a row than the threshold: every operation on the pool keeps this. */
  lemma {:induction false} FailoverKeepsHealth(t: Settings, c: Call, pool: Pool, tried: seq<nat>, n: nat)
    requires KeepsUrls(c) && KeepsHealth(c, t.failureThreshold) && InRange(pool.providers, tried) && (n > 0 ==> |pool.providers| > 0)
    requires AllHealthOk(pool.providers, t.failureThreshold)
    ensures AllHealthOk(Failover(t, c, pool, tried, n).0.providers, t.failureThreshold)
    decreases n
  {
    hide Selected, Untried, UrlsOf, AllHealthOk, Attempted;
    if n > 0 {
      var (selected, rrIndex) := Selected(pool.providers, t.strategy, pool.rrIndex, c.random(|tried|));
      var p := Untried(pool.providers, selected, UrlsOf(pool.providers, tried));
      if p.Some? {
        var turned := pool.(rrIndex := rrIndex);
        AttemptKeepsHealth(t, c, turned, p.value, |tried|);
        FailoverKeepsHealth(t, c, Attempted(t, c, turned, p.value, |tried|), tried + [p.value], n - 1);
      }
    }
  }

  lemma AttemptKeepsHealth(t: Settings, c: Call, pool: Pool, p: nat, k: nat)
    requires KeepsUrls(c) && KeepsHealth(c, t.failureThreshold) && p < |pool.providers|
    requires AllHealthOk(pool.providers, t.failureThreshold)
    ensures AllHealthOk(Attempted(t, c, pool, p, k).providers, t.failureThreshold)
  {
    var asked := pool.(providers := pool.providers[p := Requested(pool.providers[p])]);
    assert AllHealthOk(asked.providers, t.failureThreshold);
    assert SameUrls(c.others(k)(asked).providers, asked.providers);
  }

  lemma {:induction false} SweepKeepsHealth(t: Settings, c: Call, now: int, recoveryIntervalMs: int, pool: Pool, n: nat)
    requires KeepsUrls(c) && KeepsHealth(c, t.failureThreshold) && n <= |pool.providers|
    requires AllHealthOk(pool.providers, t.failureThreshold)
    ensures AllHealthOk(Swept(c, now, recoveryIntervalMs, pool, n).providers, t.failureThreshold)
  {
    if n > 0 {
      SweepKeepsHealth(t, c, now, recoveryIntervalMs, pool, n - 1);
      var before := Swept(c, now, recoveryIntervalMs, pool, n - 1);
      assert SameUrls(c.others(n - 1)(before).providers, before.providers);
      assert AllHealthOk(c.others(n - 1)(before).providers, t.failureThreshold);
    }
  }

  /** When nothing else touches the pool, a sweep brings back exactly the rested providers that answer. */
  lemma {:induction false} SweepRecoversIff(c: Call, now: int, recoveryIntervalMs: int, pool: Pool, n: nat)
    requires KeepsUrls(c) && n <= |pool.providers| && forall k, p: Pool :: c.others(k)(p) == p
    ensures var r := Swept(c, now, recoveryIntervalMs, pool, n);
            && r.rrIndex == pool.rrIndex && |r.providers| == |pool.providers|
            && (forall i :: n <= i < |r.providers| ==> r.providers[i] == pool.providers[i])
            && forall i :: 0 <= i < n ==>
                 var p, p' := pool.providers[i], r.providers[i];
                 var due := !p.healthy && (p.lastFailureAt.None? || p.lastFailureAt.value + recoveryIntervalMs <= now);
                 && (p'.healthy <==> p.healthy || (due && c.answer(0, i).ok))
                 && (!due ==> p' == p)
                 && (due && c.answer(0, i).ok ==>
                       p' == p.(healthy := true, consecutiveFailures := 0,
                                lastLatencyMs := Some(c.answer(0, i).end - c.answer(0, i).start)))
                 && (due && !c.answer(0, i).ok ==> p' == p.(lastFailureAt := Some(c.answer(0, i).end)))
  {
    if n > 0 {
      SweepRecoversIff(c, now, recoveryIntervalMs, pool, n - 1);
    }
  }

  // ----- failover is complete -----

  /** The tried providers have different URLs. */
  ghost predicate DistinctUrls(ps: seq<Provider>, tried: seq<nat>)
    requires InRange(ps, tried)
  {
    forall j, k :: 0 <= j < k < |tried| ==> ps[tried[j]].url != ps[tried[k]].url
  }

  ghost predicate EveryUrlTried(ps: seq<Provider>, tried: seq<nat>)
    requires InRange(ps, tried)
  {
    forall i :: 0 <= i < |ps| ==> ps[i].url in UrlsOf(ps, tried)
  }

  /** Every attempt failed, except that the last one succeeded if the call did. */
  ghost predicate AnswersFit(c: Call, ok: bool, tried: seq<nat>) {
    && (ok ==> |tried| > 0)
    && forall k :: 0 <= k < |tried| ==> (c.answer(k, tried[k]).ok <==> ok && k == |tried| - 1)
  }

  lemma TriedSnoc(ps: seq<Provider>, tried: seq<nat>, p: nat)
    requires InRange(ps, tried) && p < |ps|
    ensures UrlsOf(ps, tried + [p]) == UrlsOf(ps, tried) + {ps[p].url}
    ensures DistinctUrls(ps, tried) && ps[p].url !in UrlsOf(ps, tried) ==> DistinctUrls(ps, tried + [p])
  {
    UrlsSnoc(ps, tried, p);
    assert forall k :: 0 <= k < |tried| ==> ps[tried[k]].url in UrlsOf(ps, tried);
  }

  lemma UrlsSnoc(ps: seq<Provider>, tried: seq<nat>, p: nat)
    requires InRange(ps, tried) && p < |ps|
    ensures UrlsOf(ps, tried + [p]) == UrlsOf(ps, tried) + {ps[p].url}
  {
    var longer := tried + [p];
    assert longer[|tried|] == p && forall k :: 0 <= k < |tried| ==> longer[k] == tried[k];
    forall u | u in UrlsOf(ps, tried) + {ps[p].url}
      ensures u in UrlsOf(ps, longer)
    {
      if u in UrlsOf(ps, tried) {
        var k :| 0 <= k < |tried| && ps[tried[k]].url == u;
        assert ps[longer[k]].url == u;
      } else {
        assert ps[longer[|tried|]].url == u;
      }
    }
  }

  lemma DistinctSame(ps: seq<Provider>, qs: seq<Provider>, tried: seq<nat>)
    requires SameUrls(ps, qs) && InRange(ps, tried)
    ensures DistinctUrls(ps, tried) == DistinctUrls(qs, tried)
    ensures EveryUrlTried(ps, tried) == EveryUrlTried(qs, tried)
  {
    SameUrlsOf(ps, qs, tried);
  }

  /** As many different URLs as there are providers are all the URLs. */
  lemma AllTried(ps: seq<Provider>, tried: seq<nat>)
    requires |tried| == |ps| && InRange(ps, tried) && DistinctUrls(ps, tried)
    ensures EveryUrlTried(ps, tried)
  {
    Pigeonhole(tried);
    forall i | 0 <= i < |ps|
      ensures ps[i].url in UrlsOf(ps, tried)
    {
      assert i in tried;
      var k :| 0 <= k < |tried| && tried[k] == i;
    }
  }

  /** Whatever the health flags, no URL is asked twice, and the call fails only after every URL has failed it. */
  lemma {:induction false} FailoverIsComplete(t: Settings, c: Call, pool: Pool, tried: seq<nat>, n: nat)
    requires KeepsUrls(c) && InRange(pool.providers, tried) && n + |tried| == |pool.providers|
    requires DistinctUrls(pool.providers, tried) && AnswersFit(c, false, tried)
    ensures var (_, ok, all) := Failover(t, c, pool, tried, n);
            && tried <= all && DistinctUrls(pool.providers, all) && AnswersFit(c, ok, all)
            && (!ok ==> EveryUrlTried(pool.providers, all))
    decreases n
  {
    hide Selected, Untried, Attempted, UrlsOf, DistinctUrls;
    if n == 0 {
      AllTried(pool.providers, tried);
    } else {
      var (selected, rrIndex) := Selected(pool.providers, t.strategy, pool.rrIndex, c.random(|tried|));
      var p := Untried(pool.providers, selected, UrlsOf(pool.providers, tried));
      if p.Some? {
        TriedSnoc(pool.providers, tried, p.value);
        if !c.answer(|tried|, p.value).ok {
          var after := Attempted(t, c, pool.(rrIndex := rrIndex), p.value, |tried|);
          DistinctSame(pool.providers, after.providers, tried + [p.value]);
          FailoverIsComplete(t, c, after, tried + [p.value], n - 1);
          DistinctSame(pool.providers, after.providers, Failover(t, c, after, tried + [p.value], n - 1).2);
        }
      }
    }
  }

  function ToSet(xs: seq<nat>): set<nat> {
    set x | x in xs
  }

  lemma {:induction false} DistinctSize(xs: seq<nat>)
    requires forall j, k :: 0 <= j < k < |xs| ==> xs[j] != xs[k]
    ensures |ToSet(xs)| == |xs|
  {
    if |xs| > 0 {
      var front, last := xs[..|xs| - 1], xs[|xs| - 1];
      DistinctSize(front);
      assert xs == front + [last];
      assert ToSet(xs) == ToSet(front) + {last};
      assert last !in front;
    }
  }

  function Below(n: nat): (s: set<nat>)
    ensures |s| == n && forall i: nat :: i in s <==> i < n
  {
    if n == 0 then {} else Below(n - 1) + {n - 1}
  }

  /** `n` distinct numbers below `n` are all of them. */
  lemma Pigeonhole(xs: seq<nat>)
    requires forall k :: 0 <= k < |xs| ==> xs[k] < |xs|
    requires forall j, k :: 0 <= j < k < |xs| ==> xs[j] != xs[k]
    ensures forall i: nat :: i < |xs| ==> i in xs
  {
    DistinctSize(xs);
    SubsetFull(ToSet(xs), Below(|xs|));
    assert forall i: nat :: i < |xs| ==> i in Below(|xs|);
    assert forall i: nat :: i in ToSet(xs) ==> i in xs;
  }

  /** With distinct URLs, a call fails only after asking every provider exactly once, all of them in vain. */
  lemma FailureTriedEveryProvider(t: Settings, c: Call, pool: Pool)
    requires KeepsUrls(c)
    requires forall i, j :: 0 <= i < j < |pool.providers| ==> pool.providers[i].url != pool.providers[j].url
    ensures var (_, ok, tried) := FailoverCall(t, c, pool);
            && (forall j, k :: 0 <= j < k < |tried| ==> tried[j] != tried[k])
            && (ok <==> |tried| > 0 && c.answer(|tried| - 1, tried[|tried| - 1]).ok)
            && (!ok ==> |tried| == |pool.providers| && ToSet(tried) == Below(|pool.providers|)
                        && forall k :: 0 <= k < |tried| ==> !c.answer(k, tried[k]).ok)
  {
    FailoverIsComplete(t, c, pool, [], |pool.providers|);
    var (_, ok, tried) := FailoverCall(t, c, pool);
    hide FailoverCall, Failover;
    if !ok {
      AskedAll(pool.providers, tried);
    }
  }

  lemma AskedAll(ps: seq<Provider>, tried: seq<nat>)
    requires forall i, j :: 0 <= i < j < |ps| ==> ps[i].url != ps[j].url
    requires InRange(ps, tried) && DistinctUrls(ps, tried) && EveryUrlTried(ps, tried)
    ensures |tried| == |ps| && ToSet(tried) == Below(|ps|)
  {
    forall i: nat | i < |ps|
      ensures i in ToSet(tried)
    {
      assert ps[i].url in UrlsOf(ps, tried);
      var k :| 0 <= k < |tried| && ps[tried[k]].url == ps[i].url;
      assert tried[k] == i;
    }
    forall j, k | 0 <= j < k < |tried|
      ensures tried[j] != tried[k]
    {
      assert ps[tried[j]].url != ps[tried[k]].url;
    }
    hide UrlsOf, DistinctUrls, EveryUrlTried;
    DistinctSize(tried);
    assert forall x :: x in ToSet(tried) ==> x < |ps|;
    assert ToSet(tried) == Below(|ps|);
  }

  // ----- round robin -----

  /** Calls one after the other: the pool after them and the providers they asked. */
  function CallsInTurn(t: Settings, calls: seq<Call>, pool: Pool): (r: (Pool, seq<nat>))
    requires forall k :: 0 <= k < |calls| ==> KeepsUrls(calls[k])
    ensures SameUrls(r.0.providers, pool.providers)
  {
    if |calls| == 0 then (pool, [])
    else
      var (before, asked) := CallsInTurn(t, calls[..|calls| - 1], pool);
      var (after, _, tried) := FailoverCall(t, calls[|calls| - 1], before);
      (after, asked + tried)
  }

  /** Every provider answers, and nothing else touches the pool meanwhile. */
  ghost predicate Undisturbed(c: Call) {
    && (forall k, i :: c.answer(k, i).ok)
    && (forall k, pool: Pool :: c.others(k)(pool) == pool)
  }

  ghost predicate AllHealthy(ps: seq<Provider>) {
    forall i :: 0 <= i < |ps| ==> ps[i].healthy
  }

  lemma NextIndex(i: nat, size: nat)
    requires i < size
    ensures i % size == i && (i + 1) % size == if i + 1 < size then i + 1 else 0
  {
  }

  /** An undisturbed call asks the provider at the index, once, records its answer and moves the index on. */
  lemma UndisturbedCall(c: Call, threshold: int, pool: Pool)
    requires KeepsUrls(c) && Undisturbed(c) && |pool.providers| > 0 && AllHealthy(pool.providers)
    ensures var n, (after, ok, tried) := |pool.providers|, FailoverCall(Settings(RoundRobin, threshold), c, pool);
            && ok && tried == [pool.rrIndex % n] && after.rrIndex == (pool.rrIndex % n + 1) % n
            && |after.providers| == n && AllHealthy(after.providers)
            && var p, a := pool.rrIndex % n, c.answer(0, pool.rrIndex % n);
               after.providers == pool.providers[p := pool.providers[p].(consecutiveFailures := 0, lastLatencyMs := Some(a.end - a.start),
                                                                         totalRequests := pool.providers[p].totalRequests + 1)]
  {
    HealthyExact(pool.providers);
    NoneTried(pool.providers);
  }

  /** Where the index stands after `k` steps around a ring of `n`. */
  function Around(start: nat, n: nat, k: nat): nat
    requires start < n && k <= n
  {
    if start + k < n then start + k else start + k - n
  }

  lemma {:induction false} CallsInOrder(threshold: int, calls: seq<Call>, pool: Pool)
    requires forall k :: 0 <= k < |calls| ==> KeepsUrls(calls[k]) && Undisturbed(calls[k])
    requires 0 < |calls| <= |pool.providers| && AllHealthy(pool.providers)
    ensures var n, (after, asked) := |pool.providers|, CallsInTurn(Settings(RoundRobin, threshold), calls, pool);
            && |after.providers| == n && AllHealthy(after.providers)
            && |asked| == |calls| && (forall k :: 0 <= k < |calls| ==> asked[k] == Around(pool.rrIndex % n, n, k))
            && after.rrIndex == Around(pool.rrIndex % n, n, |calls|)
  {
    hide FailoverCall, KeepsUrls, Undisturbed, AllHealthy;
    var n, front := |pool.providers|, calls[..|calls| - 1];
    var before := CallsInTurn(Settings(RoundRobin, threshold), front, pool).0;
    NextIndex(pool.rrIndex % n, n);
    if |calls| == 1 {
      assert before == pool;
    } else {
      CallsInOrder(threshold, front, pool);
      NextIndex(before.rrIndex, n);
    }
    UndisturbedCall(calls[|calls| - 1], threshold, before);
  }

  /** With all `n` providers healthy and answering, any `n` calls in a row ask each provider once, wherever the index stood. */
  lemma RoundRobinVisitsAll(threshold: int, calls: seq<Call>, pool: Pool)
    requires forall k :: 0 <= k < |calls| ==> KeepsUrls(calls[k]) && Undisturbed(calls[k])
    requires 0 < |calls| == |pool.providers| && AllHealthy(pool.providers)
    ensures var asked := CallsInTurn(Settings(RoundRobin, threshold), calls, pool).1;
            && |asked| == |calls|
            && (forall i: nat :: i < |calls| ==> i in asked)
            && (forall j, k :: 0 <= j < k < |calls| ==> asked[j] != asked[k])
  {
    CallsInOrder(threshold, calls, pool);
    Pigeonhole(CallsInTurn(Settings(RoundRobin, threshold), calls, pool).1);
  }
}
