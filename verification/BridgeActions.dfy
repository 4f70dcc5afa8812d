/** When a funding is accepted, when a proposal executes, and what each action changes for the calls that follow. */
module BridgeActions {
  import opened BridgeTypes
  import opened BridgeSpec
  import opened BridgeGovernance
  import opened BridgeBooks
  import opened BridgeCustody
  import opened BridgeFees
  import opened BridgeWidths

  /**
   * A funding is accepted exactly under the visible bounds, when what it leaves behind fits its widths, and so do the two
   * intermediate results: the bridge's balance before it pays out, and the fee times the token's rate. The fee arithmetic
   * and the payment to the target never refuse it.
   */
  lemma FundAcceptedIff(s: State, source: Address, target: Address, token: Address, amount: int, memo: seq<byte>)
    requires Inv(s) && Fits(s) && NonNegative(s.balances) && source != s.self
    ensures var r := RecordOf(s, source, target, token, amount, memo);
            Step(s, Fund(source, target, token, amount, memo)).Ok? <==>
              && target.Contract? && !s.config.paused
              && s.config.minAmount <= amount <= s.config.maxAmount && amount <= I128_MAX / 10000 && |memo| <= 64
              && amount <= Bal(s.balances, token, source)
              && Held(s, token) + amount <= I128_MAX
              && (r.fee > 0 && Get(s.config.whitelist, token, false) ==> r.fee * Get(s.config.rates, token, 10000) <= I128_MAX)
              && Fits(Funded(s, r))
  {
    hide Fits, Inv, FundInternal, Funded, NonNegative, RecordOf;
    var r := RecordOf(s, source, target, token, amount, memo);
    if FundInternal(s, source, target, token, amount, memo).Ok? {
      AcceptedHasRoom(s, source, target, token, amount, memo);
    } else if s.config.minAmount <= amount <= s.config.maxAmount && amount <= MAX_SAFE_AMOUNT && |memo| <= 64 {
      if amount <= Bal(s.balances, token, source) && Held(s, token) + amount <= I128_MAX && Fits(Funded(s, r)) {
        RefusedLacksRoom(s, source, target, token, amount, memo);
      }
    }
    PositiveMinimum(s);
  }

  lemma PositiveMinimum(s: State)
    requires Inv(s)
    ensures s.config.minAmount >= 1
  {
  }

  lemma AcceptedHasRoom(s: State, source: Address, target: Address, token: Address, amount: int, memo: seq<byte>)
    requires Fits(s) && FundInternal(s, source, target, token, amount, memo).Ok? && source != s.self
    ensures var r := RecordOf(s, source, target, token, amount, memo);
            && s.config.minAmount <= amount <= s.config.maxAmount && amount <= MAX_SAFE_AMOUNT && |memo| <= 64
            && amount <= Bal(s.balances, token, source) && Held(s, token) + amount <= I128_MAX
            && (r.fee > 0 && Get(s.config.whitelist, token, false) ==> r.fee * Get(s.config.rates, token, 10000) <= I128_MAX)
            && Fits(Funded(s, r))
  {
    FundKeepsFit(s, source, target, token, amount, memo);
    hide Fits, FeeFor, FeeFits, RecordFits, Funded, Moved, TokenFee;
  }

  lemma RefusedLacksRoom(s: State, source: Address, target: Address, token: Address, amount: int, memo: seq<byte>)
    requires Inv(s) && Fits(s) && NonNegative(s.balances) && source != s.self
    requires s.config.minAmount <= amount <= s.config.maxAmount && amount <= MAX_SAFE_AMOUNT && |memo| <= 64
    requires amount <= Bal(s.balances, token, source) && Held(s, token) + amount <= I128_MAX
    requires var r := RecordOf(s, source, target, token, amount, memo);
             FundInternal(s, source, target, token, amount, memo).Err? && Fits(Funded(s, r))
    ensures var r := RecordOf(s, source, target, token, amount, memo);
            r.fee > 0 && Get(s.config.whitelist, token, false) && r.fee * Get(s.config.rates, token, 10000) > I128_MAX
  {
    var r := RecordOf(s, source, target, token, amount, memo);
    PositiveMinimum(s);
    FeeInRange(s, source, token, amount);
    hide GovOk, Fits, Funded, FeeFor, FeeFits, Moved, CanMove, AccrualFits, RecordFits, Accrued, NonNegative;
    BalancesHaveRoom(s, r);
    if !(r.fee > 0 && Get(s.config.whitelist, token, false) && r.fee * Get(s.config.rates, token, 10000) > I128_MAX) {
      BooksHaveRoom(s, r);
    }
  }

  lemma BooksHaveRoom(s: State, r: FundingRecord)
    requires Fits(s) && Fits(Funded(s, r))
    requires r.fee > 0 && Get(s.config.whitelist, r.token, false) ==> r.fee * Get(s.config.rates, r.token, 10000) <= I128_MAX
    ensures AccrualFits(s.config, s.books, r.token, r.fee) && RecordFits(Accrued(s.config, s.books, r.token, r.fee), r)
  {
    var b := Funded(s, r).books;
    assert Volume(b, r.source, r.token) <= I128_MAX && Get(b.feesByToken, r.token, 0) <= I128_MAX;
    assert Get(b.volumeByToken, r.token, 0) <= I128_MAX;
    hide Moved, TokenFee, GovFits, BalancesFit;
  }

  lemma BalancesHaveRoom(s: State, r: FundingRecord)
    requires Fits(Funded(s, r)) && r.source != s.self && 0 <= r.fee <= r.amount && NonNegative(s.balances)
    requires r.amount <= Bal(s.balances, r.token, r.source) && Held(s, r.token) + r.amount <= I128_MAX
    ensures CanMove(s.balances, r.token, r.source, s.self, r.amount)
    ensures CanMove(Collected(s, r.source, r.token, r.amount), r.token, s.self, r.target, r.amount - r.fee)
  {
    MovedExact(s.balances, r.token, r.source, s.self, r.amount);
    assert Bal(Funded(s, r).balances, r.token, r.target) <= I128_MAX;
    hide BooksFit, GovFits, Recorded, Accrued;
  }

  /** The conditions an action has of its own. */
  predicate Enactable(s: State, a: Action) {
    match a
    case SetFee(bps) => bps <= s.config.maxFeeBps
    case SetFeeTokenRate(_, rate) => 1000 <= rate <= 20000
    case RotateAdmins(admins) => |admins| >= s.config.threshold && s.self !in admins
    case SetThreshold(threshold) => 1 <= threshold <= |s.config.admins|
    case SetRebateTier(index, _, discountBps) => index < 50 && discountBps <= 5000
    case ArchiveOldEntries(count) =>
      && count > 0 && s.books.fundingCount > 0
      && s.books.nextArchiveRecordId + (if count < s.books.fundingCount then count else s.books.fundingCount) <= U32_MAX
      && s.books.nextArchiveId < U32_MAX
    case WithdrawFees(to, token, amount) =>
      && (amount == 0 || (amount <= Get(s.books.feesByToken, token, 0) && amount <= s.books.accumulatedFees))
      && CanMove(s.balances, token, s.self, to, if amount == 0 then s.books.accumulatedFees else amount)
    case _ => true
  }

  /**
   * A proposal executes exactly when it is stored, open, approved by a threshold's worth of addresses and, if sensitive,
   * old enough, and its action's own conditions hold.
   */
  lemma ExecutesIff(s: State, id: nat)
    requires Inv(s)
    ensures Step(s, Execute(id)).Ok? <==>
              && s.initialized && id in s.gov.proposals
              && (var p := s.gov.proposals[id];
                  && !p.executed && s.ledger <= p.expiry
                  && |Flags(s.gov.approvals, id)| >= s.config.threshold
                  && (Sensitive(p.action) ==> s.ledger >= p.proposedAt + 10)
                  && Enactable(s, p.action))
  {
    hide CanMove, Moved, ArchiveRange;
    if id in s.gov.proposals {
      assert ProposalOk(s.gov, s.ledger, id);
    }
  }

  /** The state in which a passed proposal is carried out. */
  lemma Enacted(s: State, id: nat)
    requires Step(s, Execute(id)).Ok?
    ensures id in s.gov.proposals
    ensures var a, marked := s.gov.proposals[id].action, s.(gov := MarkExecuted(s.gov, id));
            Act(marked, a).Ok? && Next(s, Execute(id)) == Act(marked, a).value.0
  {
    hide Act;
  }

  /** Waiting changes nothing but the window: how long a wait makes an execution succeed, exactly. */
  lemma ExecutableAfterIff(s: State, id: nat, wait: nat)
    requires Inv(s) && id in s.gov.proposals && s.ledger + wait <= U32_MAX
    ensures var p, at := s.gov.proposals[id], s.ledger + wait;
            Step(Next(s, Tick(wait)), Execute(id)).Ok? <==>
              && !p.executed && at <= p.expiry && (Sensitive(p.action) ==> p.proposedAt + 10 <= at)
              && |Flags(s.gov.approvals, id)| >= s.config.threshold && Enactable(s, p.action)
  {
    hide Inv, Enactable;
    StepKeepsInv(s, Tick(wait));
    ExecutesIff(Next(s, Tick(wait)), id);
    EnactableIgnoresTime(s, s.ledger + wait, s.gov.proposals[id].action);
    StoredMeansInitialized(s, id);
  }

  lemma EnactableIgnoresTime(s: State, ledger: nat, a: Action)
    ensures Enactable(s.(ledger := ledger), a) == Enactable(s, a)
  {
  }

  lemma StoredMeansInitialized(s: State, id: nat)
    requires Inv(s) && id in s.gov.proposals
    ensures s.initialized
  {
  }

  /** The window is never empty: a live proposal with enough approvals and an action that can be carried out executes after some wait. */
  lemma WaitingOpensTheWindow(s: State, id: nat) returns (wait: nat)
    requires Inv(s) && Live(s, id) && Enactable(s, s.gov.proposals[id].action)
    requires |Flags(s.gov.approvals, id)| >= s.config.threshold
    ensures s.ledger + wait <= s.gov.proposals[id].expiry
    ensures Step(Next(s, Tick(wait)), Execute(id)).Ok?
  {
    assert ProposalOk(s.gov, s.ledger, id);
    wait := s.gov.proposals[id].expiry - s.ledger;
    ExecutableAfterIff(s, id, wait);
  }

  /** After a threshold change proposals already stored need the new number of approvals. */
  lemma ThresholdTakesEffect(s: State, id: nat, threshold: nat, other: nat)
    requires Inv(s) && Step(s, Execute(id)).Ok? && s.gov.proposals[id].action == SetThreshold(threshold)
    ensures var s' := Next(s, Execute(id));
            && s'.config == s.config.(threshold := threshold)
            && (Step(s', Execute(other)) == Err(InsufficientApprovals) <==>
                  Live(s', other) && |Flags(s'.gov.approvals, other)| < threshold)
  {
    ExecuteKeeps(s, id);
    Enacted(s, id);
    var s' := Next(s, Execute(id));
    hide Act, MarkExecuted;
    if other in s'.gov.proposals {
      assert ProposalOk(s'.gov, s'.ledger, other);
      ActNeverShort(s'.(gov := MarkExecuted(s'.gov, other)), s'.gov.proposals[other].action);
    }
  }

  lemma ActNeverShort(s: State, a: Action)
    ensures Act(s, a) != Err(InsufficientApprovals)
  {
    hide CanMove, Moved, ArchiveRange;
  }

  /** A new fee is what a source without a rebate pays from then on, and no one pays more. */
  lemma FeeTakesEffect(s: State, id: nat, bps: nat, source: Address, token: Address, amount: int)
    requires Inv(s) && Step(s, Execute(id)).Ok? && s.gov.proposals[id].action == SetFee(bps)
    requires 0 <= amount <= MAX_SAFE_AMOUNT
    ensures var s' := Next(s, Execute(id));
            && s'.config == s.config.(feeBps := bps, params := s.config.params.(feeBps := bps))
            && 0 <= FeeFor(s', source, token, amount) <= amount * bps / 10000
            && (RebateBps(s', source, token) == 0 ==> FeeFor(s', source, token, amount) == amount * bps / 10000)
  {
    ExecuteKeeps(s, id);
    Enacted(s, id);
    var s' := Next(s, Execute(id));
    FeeInRange(s', source, token, amount);
    hide BestDiscount, GovOk, Act;
    var rate := BpsFor(s', source, token);
    Times(amount, rate, bps);
  }

  /** A tier grants its discount to every volume at or above its threshold, and the other tiers stay as they were. */
  lemma TierTakesEffect(s: State, id: nat, index: nat, volume: int, discountBps: nat, other: nat, v: int)
    requires Inv(s) && Step(s, Execute(id)).Ok? && s.gov.proposals[id].action == SetRebateTier(index, volume, discountBps)
    ensures var c, c' := s.config, Next(s, Execute(id)).config;
            && index < c'.tierCount && c.tierCount <= c'.tierCount
            && Discount(c', index) == discountBps && (Qualifies(c', v, index) <==> v >= volume)
            && (other != index ==> Discount(c', other) == Discount(c, other) && (Qualifies(c', v, other) <==> Qualifies(c, v, other)))
            && (v >= volume ==> BestDiscount(c', v, c'.tierCount) >= discountBps)
            && c' == c.(tierThreshold := c'.tierThreshold, tierDiscount := c'.tierDiscount, tierCount := c'.tierCount)
  {
    Enacted(s, id);
    var c' := Next(s, Execute(id)).config;
    assert index < c'.tierCount && Discount(c', index) == discountBps;
    hide Act;
    if v >= volume {
      BestIsNoLess(c', v, c'.tierCount, index);
    }
  }

  /**
   * What the next funding pays under a new tier: a source at or above its threshold gets at least its discount off, and
   * exactly that when no tier offers more.
   */
  lemma TierLowersTheFee(s: State, id: nat, index: nat, volume: int, discountBps: nat,
                         source: Address, target: Address, token: Address, amount: int, memo: seq<byte>)
    returns (d: nat, rate: nat)
    requires Inv(s) && Step(s, Execute(id)).Ok? && s.gov.proposals[id].action == SetRebateTier(index, volume, discountBps)
    requires FundInternal(Next(s, Execute(id)), source, target, token, amount, memo).Ok?
    requires Get(s.books.userVolume, (source, token), 0) >= volume
    ensures var s' := Next(s, Execute(id));
            && IsReducedRate(s.config.feeBps, d, rate)
            && IsShare(amount, rate, FundInternal(s', source, target, token, amount, memo).value.1)
            && d >= discountBps
            && (NoTierAbove(s'.config, discountBps) ==> d == discountBps)
    ensures 10000 * (10000 * FundInternal(Next(s, Execute(id)), source, target, token, amount, memo).value.1)
            <= amount * (s.config.feeBps * (10000 - discountBps) + 9999)
  {
    hide Inv, FundInternal, Act, Step, Next, IsReducedRate, IsShare;
    TierStored(s, id, index, volume, discountBps);
    d, rate := PaysATier(Next(s, Execute(id)), index, source, target, token, amount, memo);
  }

  ghost predicate NoTierAbove(c: Config, discount: nat) {
    forall i: nat :: i < c.tierCount ==> Get(c.tierDiscount, i, 0) <= discount
  }

  lemma TierStored(s: State, id: nat, index: nat, volume: int, discountBps: nat)
    requires Inv(s) && Step(s, Execute(id)).Ok? && s.gov.proposals[id].action == SetRebateTier(index, volume, discountBps)
    ensures var s' := Next(s, Execute(id));
            && Inv(s') && s'.config.feeBps == s.config.feeBps && s'.books.userVolume == s.books.userVolume
            && index < s'.config.tierCount
            && Get(s'.config.tierThreshold, index, 0) == volume && Get(s'.config.tierDiscount, index, 0) == discountBps
  {
    ExecuteKeeps(s, id);
    Enacted(s, id);
    ActKeepsBooks(s.(gov := MarkExecuted(s.gov, id)), s.gov.proposals[id].action);
    hide Inv;
  }

  lemma PaysATier(s: State, index: nat, source: Address, target: Address, token: Address, amount: int, memo: seq<byte>)
    returns (d: nat, rate: nat)
    requires Inv(s) && FundInternal(s, source, target, token, amount, memo).Ok? && index < s.config.tierCount
    requires Get(s.books.userVolume, (source, token), 0) >= Get(s.config.tierThreshold, index, 0)
    ensures var discount, fee := Get(s.config.tierDiscount, index, 0), FundInternal(s, source, target, token, amount, memo).value.1;
            && IsReducedRate(s.config.feeBps, d, rate) && IsShare(amount, rate, fee)
            && d >= discount
            && (NoTierAbove(s.config, discount) ==> d == discount)
            && 10000 * (10000 * fee) <= amount * (s.config.feeBps * (10000 - discount) + 9999)
  {
    hide Inv, FundInternal, IsReducedRate, IsShare;
    d, rate := ChargesTheReducedShare(s, source, target, token, amount, memo);
    FundAmountPositive(s, source, target, token, amount, memo);
    AtMostTheTier(amount, s.config.feeBps, Get(s.config.tierDiscount, index, 0), d, rate,
                  FundInternal(s, source, target, token, amount, memo).value.1);
  }

  lemma ActKeepsBooks(s: State, a: Action)
    requires Act(s, a).Ok?
    ensures Act(s, a).value.0.books.userVolume == s.books.userVolume
  {
    hide CanMove, Moved, ArchiveRange;
  }

  lemma FundAmountPositive(s: State, source: Address, target: Address, token: Address, amount: int, memo: seq<byte>)
    requires Inv(s) && FundInternal(s, source, target, token, amount, memo).Ok?
    ensures amount > 0
  {
    hide GovOk, FundFits, Funded, FeeFor;
  }

  lemma AtMostTheTier(amount: int, feeBps: nat, discountBps: nat, d: nat, rate: nat, fee: int)
    requires amount > 0 && discountBps <= d && IsReducedRate(feeBps, d, rate) && IsShare(amount, rate, fee)
    ensures 10000 * (10000 * fee) <= amount * (feeBps * (10000 - discountBps) + 9999)
  {
    Times(feeBps, discountBps, d);
    var bound := feeBps * (10000 - discountBps) + 9999;
    assert feeBps * (10000 - discountBps) == 10000 * feeBps - feeBps * discountBps;
    assert 10000 * rate <= bound;
    hide IsReducedRate;
    Times(amount, 10000 * rate, bound);
    assert amount * (10000 * rate) == 10000 * (amount * rate);
  }

  lemma {:induction false} BestIsNoLess(c: Config, volume: int, n: nat, i: nat)
    requires i < n && Qualifies(c, volume, i)
    ensures BestDiscount(c, volume, n) >= Discount(c, i)
  {
    if i < n - 1 {
      BestIsNoLess(c, volume, n - 1, i);
    }
  }

  /** A funding credits its token's counter only while the token is whitelisted, and then with its fee at the token's rate. */
  lemma TokenFeesFollowTheWhitelist(s: State, source: Address, target: Address, token: Address, amount: int, memo: seq<byte>, t: Address)
    requires FundInternal(s, source, target, token, amount, memo).Ok?
    ensures var (s', fee) := FundInternal(s, source, target, token, amount, memo).value;
            var credit := Get(s'.books.feesByToken, t, 0) - Get(s.books.feesByToken, t, 0);
            if t == token && fee > 0 && Get(s.config.whitelist, token, false)
            then 10000 * credit <= fee * Get(s.config.rates, token, 10000) < 10000 * (credit + 1)
            else credit == 0
  {
    hide FeeFor, CanMove, Moved, FeeFits, RecordFits;
  }

  /** What the settings govern: with `ActSettings`, what an executed pause, unpause or rotation does to later calls. */
  lemma SettingsTakeEffect(s: State, id: nat, c: Call)
    requires Step(s, Execute(id)).Ok?
    ensures var a, s' := s.gov.proposals[id].action, Next(s, Execute(id));
            && (forall t :: Get(s'.config.rates, t, 10000)
                            == if a.SetFeeTokenRate? && a.token == t then a.rate else Get(s.config.rates, t, 10000))
            && (forall t :: Get(s'.config.whitelist, t, false)
                            == if a.SetFeeTokenWhitelist? && a.token == t then a.enabled else Get(s.config.whitelist, t, false))
            && (c.Fund? || c.RouteFromExchange? ==>
                  && (a.Pause? ==> Step(s', c).Err?)
                  && (a.Unpause? ==> Step(s', c) != Err(ContractPaused)))
            && (c.Propose? ==>
                  (Step(s', c) == Err(OnlyAdminsCanPropose) <==> c.proposer !in if a.RotateAdmins? then a.admins else s.config.admins))
            && (c.Approve? ==>
                  (Step(s', c) == Err(OnlyAdminsCanApprove) <==> c.admin !in if a.RotateAdmins? then a.admins else s.config.admins))
  {
    Enacted(s, id);
    ActFrame(s.(gov := MarkExecuted(s.gov, id)), s.gov.proposals[id].action);
    assert s.initialized && Next(s, Execute(id)).initialized;
    hide Act, DoExecute, MarkExecuted, FundFits, Funded;
    forall t {
      ActSettings(s.(gov := MarkExecuted(s.gov, id)), s.gov.proposals[id].action, t);
    }
    ActSettings(s.(gov := MarkExecuted(s.gov, id)), s.gov.proposals[id].action, s.self);
  }
}
