/** Rebates and the price of splitting a payment. */
module BridgeFees {
  import opened BridgeTypes
  import opened BridgeSpec
  import opened BridgeGovernance
  import opened BridgeBooks
  import opened BridgeCustody
  import opened Options

  /** The scan computes the best discount among the tiers the volume qualifies for, or 0. */
  lemma {:induction false} RebateIsTheMaximum(c: Config, volume: int, n: nat)
    ensures forall i :: 0 <= i < n && Qualifies(c, volume, i) ==> Discount(c, i) <= BestDiscount(c, volume, n)
    ensures BestDiscount(c, volume, n) == 0
            || exists i :: 0 <= i < n && Qualifies(c, volume, i) && Discount(c, i) == BestDiscount(c, volume, n)
  {
    if n > 0 {
      RebateIsTheMaximum(c, volume, n - 1);
    }
  }

  lemma RebateGrowsWithVolume(c: Config, volume: int, more: int, n: nat)
    requires volume <= more
    ensures BestDiscount(c, volume, n) <= BestDiscount(c, more, n)
  {
    RebateIsTheMaximum(c, volume, n);
    RebateIsTheMaximum(c, more, n);
    assert forall i: nat :: Qualifies(c, volume, i) ==> Qualifies(c, more, i);
  }

  lemma BpsFallsWithDiscount(feeBps: nat, d: nat, more: nat)
    requires d <= more
    ensures EffectiveBps(feeBps, more) <= EffectiveBps(feeBps, d)
  {
    assert feeBps * d <= feeBps * more;
  }

  /** `d` is the largest discount among the tiers whose volume threshold is reached, or 0. */
  ghost predicate IsBestDiscount(c: Config, volume: int, d: nat) {
    && (forall i: nat :: i < c.tierCount && volume >= Get(c.tierThreshold, i, 0) ==> Get(c.tierDiscount, i, 0) <= d)
    && (d == 0 || exists i: nat :: i < c.tierCount && volume >= Get(c.tierThreshold, i, 0) && Get(c.tierDiscount, i, 0) == d)
  }

  /** `rate` is `feeBps` less `d` ten-thousandths of it, the reduction rounded down. */
  predicate IsReducedRate(feeBps: nat, d: nat, rate: nat) {
    feeBps * d - 10000 < 10000 * (feeBps - rate) <= feeBps * d
  }

  /** `fee` is `rate` ten-thousandths of the amount, rounded down. */
  predicate IsShare(amount: int, rate: nat, fee: int) {
    10000 * fee <= amount * rate < 10000 * (fee + 1)
  }

  /**
   * An accepted funding is charged exactly the share its source's volume entitles it to: the best qualifying discount off
   * the fee rate, and that rate on the amount, each rounded down.
   */
  lemma ChargesTheReducedShare(s: State, source: Address, target: Address, token: Address, amount: int, memo: seq<byte>)
    returns (d: nat, rate: nat)
    requires Inv(s) && FundInternal(s, source, target, token, amount, memo).Ok?
    ensures d <= 5000 && rate <= s.config.feeBps
    ensures IsBestDiscount(s.config, Get(s.books.userVolume, (source, token), 0), d)
    ensures IsReducedRate(s.config.feeBps, d, rate)
    ensures IsShare(amount, rate, FundInternal(s, source, target, token, amount, memo).value.1)
  {
    d, rate := RebateBps(s, source, token), BpsFor(s, source, token);
    FundGrowsVolume(s, source, target, token, amount, memo);
    ScanFindsTheBest(s.config, Volume(s.books, source, token));
    BestDiscountCapped(s.config, Volume(s.books, source, token), s.config.tierCount);
    RatesRound(s.config.feeBps, d);
    ShareRounds(amount, rate);
    hide FundInternal, BestDiscount, EffectiveBps, FeeOn, GovOk, IsReducedRate, IsShare;
  }

  lemma ScanFindsTheBest(c: Config, volume: int)
    ensures IsBestDiscount(c, volume, BestDiscount(c, volume, c.tierCount))
  {
    var d := BestDiscount(c, volume, c.tierCount);
    RebateIsTheMaximum(c, volume, c.tierCount);
    forall i: nat | i < c.tierCount && volume >= Get(c.tierThreshold, i, 0)
      ensures Get(c.tierDiscount, i, 0) <= d
    {
      assert Qualifies(c, volume, i) && Discount(c, i) <= d;
    }
    if d > 0 {
      var i: nat :| i < c.tierCount && Qualifies(c, volume, i) && Discount(c, i) == d;
      assert volume >= Get(c.tierThreshold, i, 0) && Get(c.tierDiscount, i, 0) == d;
    }
  }

  lemma RatesRound(feeBps: nat, d: nat)
    requires d <= 5000
    ensures IsReducedRate(feeBps, d, EffectiveBps(feeBps, d)) && EffectiveBps(feeBps, d) <= feeBps
  {
    HalfRate(feeBps, d);
    Times(feeBps, d, 10000);
    var product := feeBps * d;
    assert product / 10000 <= feeBps;
  }

  lemma ShareRounds(amount: int, rate: nat)
    requires amount >= 0
    ensures IsShare(amount, rate, FeeOn(amount, rate))
  {
    var product := amount * rate;
    assert rate == 0 ==> product == 0;
  }

  /** The best discount, the rate and the fee are each the only number they can be. */
  lemma ShareIsUnique(c: Config, volume: int, amount: int, d: nat, e: nat, rate: nat, bps: nat, fee: int, paid: int)
    requires IsBestDiscount(c, volume, d) && IsBestDiscount(c, volume, e)
    requires IsReducedRate(c.feeBps, d, rate) && IsReducedRate(c.feeBps, e, bps)
    requires IsShare(amount, rate, fee) && IsShare(amount, bps, paid)
    ensures d == e && rate == bps && fee == paid
  {
  }

  /** Floor division is superadditive, and a lower rate never costs more. */
  lemma FloorsAddUp(a: int, b: int, bps: nat, lower: nat)
    requires a >= 0 && b >= 0 && lower <= bps
    ensures FeeOn(a, bps) + FeeOn(b, lower) <= FeeOn(a + b, bps)
  {
    assert b * lower <= b * bps;
    assert (a + b) * bps == a * bps + b * bps;
  }

  function Sum(amounts: seq<int>, n: nat): int
    requires n <= |amounts|
  {
    if n == 0 then 0 else Sum(amounts, n - 1) + amounts[n - 1]
  }

  lemma FundGrowsVolume(s: State, source: Address, target: Address, token: Address, amount: int, memo: seq<byte>)
    requires Inv(s) && FundInternal(s, source, target, token, amount, memo).Ok?
    ensures var (s', fee) := FundInternal(s, source, target, token, amount, memo).value;
            && amount > 0 && fee == FeeFor(s, source, token, amount)
            && Volume(s'.books, source, token) == Volume(s.books, source, token) + amount
  {
    hide GovOk, FeeFor, FeeFits, AccrualFits, RecordFits, Moved, CanMove;
  }

  /**
   * Splitting never raises the fee: a batch in one token charges at most the fee on the whole sum at the discount the
   * source started with.
   */
  lemma {:induction false} SplittingNeverCostsMore(s: State, source: Address, targets: seq<Address>, token: Address,
                                                   tokens: seq<Address>, amounts: seq<int>, memos: seq<seq<byte>>, n: nat)
    requires n <= |targets| == |tokens| == |amounts| == |memos|
    requires forall i :: 0 <= i < |tokens| ==> tokens[i] == token
    requires Inv(s) && BatchItems(s, source, targets, tokens, amounts, memos, n).Ok?
    ensures var (s', fees) := BatchItems(s, source, targets, tokens, amounts, memos, n).value;
            && fees <= FeeOn(Sum(amounts, n), BpsFor(s, source, token))
            && Sum(amounts, n) >= 0
            && Volume(s'.books, source, token) == Volume(s.books, source, token) + Sum(amounts, n)
  {
    hide Inv, FundInternal, FeeOn, EffectiveBps, BestDiscount;
    if n > 0 {
      SplittingNeverCostsMore(s, source, targets, token, tokens, amounts, memos, n - 1);
      BatchFees(s, source, targets, tokens, amounts, memos, n - 1);
      var mid := BatchItems(s, source, targets, tokens, amounts, memos, n - 1).value.0;
      FundGrowsVolume(mid, source, targets[n - 1], token, amounts[n - 1], memos[n - 1]);
      RebateGrowsWithVolume(s.config, Volume(s.books, source, token), Volume(mid.books, source, token), s.config.tierCount);
      BpsFallsWithDiscount(s.config.feeBps, RebateBps(s, source, token), RebateBps(mid, source, token));
      FloorsAddUp(Sum(amounts, n - 1), amounts[n - 1], BpsFor(s, source, token), BpsFor(mid, source, token));
    } else {
      NoFeeOnNothing(BpsFor(s, source, token));
    }
  }

  lemma NoFeeOnNothing(bps: nat)
    ensures FeeOn(0, bps) == 0
  {
  }

  // ----- the client's quote (sdk/src/utils.ts) -----

  /** BigInt division rounds toward zero. */
  function Truncated(a: int, b: int): int
    requires b > 0
  {
    if a >= 0 then a / b else -(-a / b)
  }

  /** `calculateFee`; `None` is the validation error. */
  function CalculateFee(amount: int, feeBps: int): Option<int> {
    if feeBps < 0 || feeBps > 10000 then None else Some(Truncated(amount * feeBps, 10000))
  }

  function CalculateReceiveAmount(amount: int, feeBps: int): Option<int> {
    match CalculateFee(amount, feeBps)
    case None => None
    case Some(fee) => Some(amount - fee)
  }

  /**
   * The client's quote at the contract's rate is an upper bound on what any funding charges, exact for a source without a
   * rebate, and never more than twice the charge plus the rounding unit.
   */
  lemma QuoteBoundsTheFee(s: State, source: Address, target: Address, token: Address, amount: int, memo: seq<byte>)
    requires Inv(s) && FundInternal(s, source, target, token, amount, memo).Ok?
    ensures var fee, quote := FundInternal(s, source, target, token, amount, memo).value.1, CalculateFee(amount, s.config.feeBps);
            && quote.Some? && 0 <= fee <= quote.value <= 2 * fee + 1
            && (RebateBps(s, source, token) == 0 ==> fee == quote.value)
            && CalculateReceiveAmount(amount, s.config.feeBps) == Some(amount - quote.value)
            && 0 <= amount - quote.value <= amount - fee
  {
    FundGrowsVolume(s, source, target, token, amount, memo);
    RebateIsTheMaximum(s.config, Volume(s.books, source, token), s.config.tierCount);
    assert RebateBps(s, source, token) <= 5000;
    hide FundInternal, BestDiscount, RebateBps, GovOk;
    RoundedShares(amount, s.config.feeBps, RebateBps(s, source, token));
  }

  lemma RoundedShares(amount: int, bps: nat, discount: nat)
    requires amount >= 0 && bps <= 10000 && discount <= 5000
    ensures 0 <= FeeOn(amount, EffectiveBps(bps, discount)) <= amount * bps / 10000 <= amount
    ensures amount * bps / 10000 <= 2 * FeeOn(amount, EffectiveBps(bps, discount)) + 1
    ensures discount == 0 ==> FeeOn(amount, EffectiveBps(bps, discount)) == amount * bps / 10000
  {
    var rate := EffectiveBps(bps, discount);
    HalfRate(bps, discount);
    hide EffectiveBps;
    Times(amount, rate, bps);
    Times(amount, bps, 10000);
    Times(amount, bps, 2 * rate);
    Doubled(amount, rate);
    Floors(amount * rate, amount * bps, amount);
  }

  lemma HalfRate(bps: nat, discount: nat)
    requires discount <= 5000
    ensures bps <= 2 * EffectiveBps(bps, discount) && EffectiveBps(bps, discount) <= bps
    ensures discount == 0 ==> EffectiveBps(bps, discount) == bps
  {
    Times(bps, discount, 5000);
    var product := bps * discount;
    assert product / 10000 <= bps / 2;
  }

  lemma Doubled(a: int, b: int)
    ensures a * (2 * b) == 2 * (a * b)
  {
  }

  lemma Floors(less: int, more: int, amount: int)
    requires less <= more <= 2 * less && more <= 10000 * amount
    ensures less / 10000 <= more / 10000 <= amount
    ensures more / 10000 <= 2 * (less / 10000) + 1
  {
  }

  // ----- pause -----

  function WithPause(s: State, paused: bool): State {
    s.(config := s.config.(paused := paused))
  }

  lemma FundIgnoresPause(s: State, source: Address, target: Address, token: Address, amount: int, memo: seq<byte>, p: bool)
    ensures FundInternal(WithPause(s, p), source, target, token, amount, memo)
            == match FundInternal(s, source, target, token, amount, memo)
               case Ok(v) => Ok((WithPause(v.0, p), v.1))
               case Err(e) => Err(e)
  {
    hide FeeOn, EffectiveBps, CanMove, Moved, RecordFits, Recorded, AccrualFits;
    var t := WithPause(s, p);
    DiscountIgnoresPause(s.config, t.config, Volume(s.books, source, token), s.config.tierCount);
    var r := RecordOf(s, source, target, token, amount, memo);
    assert RecordOf(t, source, target, token, amount, memo) == r;
    AccrualIgnoresPause(s.config, t.config, s.books, token, r.fee);
  }

  lemma {:induction false} DiscountIgnoresPause(c: Config, d: Config, volume: int, n: nat)
    requires d == c.(paused := d.paused)
    ensures BestDiscount(c, volume, n) == BestDiscount(d, volume, n)
  {
    if n > 0 {
      DiscountIgnoresPause(c, d, volume, n - 1);
    }
  }

  lemma AccrualIgnoresPause(c: Config, d: Config, b: Books, token: Address, fee: int)
    requires d == c.(paused := d.paused)
    ensures AccrualFits(d, b, token, fee) == AccrualFits(c, b, token, fee)
    ensures Accrued(d, b, token, fee) == Accrued(c, b, token, fee)
  {
  }

  lemma {:induction false} BatchItemsIgnorePause(s: State, source: Address, targets: seq<Address>, tokens: seq<Address>,
                                                 amounts: seq<int>, memos: seq<seq<byte>>, n: nat, p: bool)
    requires n <= |targets| == |tokens| == |amounts| == |memos|
    ensures BatchItems(WithPause(s, p), source, targets, tokens, amounts, memos, n)
            == match BatchItems(s, source, targets, tokens, amounts, memos, n)
               case Ok(v) => Ok((WithPause(v.0, p), v.1))
               case Err(e) => Err(e)
  {
    hide FundInternal;
    if n > 0 {
      BatchItemsIgnorePause(s, source, targets, tokens, amounts, memos, n - 1, p);
      if BatchItems(s, source, targets, tokens, amounts, memos, n - 1).Ok? {
        var mid := BatchItems(s, source, targets, tokens, amounts, memos, n - 1).value.0;
        FundIgnoresPause(mid, source, targets[n - 1], tokens[n - 1], amounts[n - 1], memos[n - 1], p);
      }
    }
  }

  /** A pause stops single and routed funding always, and batches never: a batch answers alike paused or not. */
  lemma PauseStopsSinglesOnly(s: State, c: Call)
    ensures s.config.paused && (c.Fund? || c.RouteFromExchange?) ==> Step(s, c).Err?
    ensures c.BatchFund? ==> Reply(WithPause(s, true), c) == Reply(WithPause(s, false), c)
  {
    hide FundInternal;
    if c.BatchFund? && |c.tokens| == |c.targets| == |c.amounts| == |c.memos| {
      BatchItemsIgnorePause(s, c.source, c.targets, c.tokens, c.amounts, c.memos, |c.targets|, true);
      BatchItemsIgnorePause(s, c.source, c.targets, c.tokens, c.amounts, c.memos, |c.targets|, false);
    }
  }
}
