/** What the arguments of `initialize` decide, at once and in every run that follows. */
module BridgeSetup {
  import opened BridgeTypes
  import opened BridgeSpec
  import opened BridgeGovernance
  import opened BridgeBooks
  import opened BridgeActions

  /** Every setting is its argument, and so is every field of the stored parameters; the rest starts afresh. */
  lemma ArgumentsAreStored(s: State, c: Call)
    requires TakesOffice(s, c)
    ensures var s' := Next(s, c);
            && s'.config.admins == c.admins && s'.config.threshold == c.threshold
            && s'.config.feeBps == c.feeBps && s'.config.maxFeeBps == c.maxFeeBps
            && s'.config.minAmount == c.minAmount && s'.config.maxAmount == c.maxAmount
            && s'.config.params.threshold == c.threshold && s'.config.params.adminCount == |c.admins|
            && s'.config.params.feeBps == c.feeBps && s'.config.params.maxFeeBps == c.maxFeeBps
            && !s'.config.paused && s'.initialized
            && s'.books.fundingCount == 0 && s'.books.accumulatedFees == 0 && s'.books.hotCount == 0
            && s'.gov.nonce == 0 && s'.gov.activeIds == []
  {
  }

  /** Which arguments are accepted, the first time; the second time anything is, and nothing happens. */
  lemma InitializeAcceptedIff(s: State, c: Call)
    requires c.Initialize?
    ensures TakesOffice(s, c) <==>
              && !s.initialized
              && 1 <= c.threshold <= |c.admins| && s.self !in c.admins
              && c.feeBps <= c.maxFeeBps <= 10000 && 1 <= c.minAmount <= c.maxAmount
    ensures s.initialized ==> Step(s, c).Ok? && Next(s, c) == s
  {
  }

  // ----- the threshold -----

  /** The call carries out a threshold change. */
  predicate ChangesThreshold(s: State, c: Call) {
    c.Execute? && Step(s, c).Ok? && s.gov.proposals[c.id].action.SetThreshold?
  }

  ghost predicate ThresholdUntouched(s: State, calls: seq<Call>) {
    forall i :: 0 <= i < |calls| ==> !ChangesThreshold(Run(s, calls[..i]), calls[i])
  }

  lemma ThresholdStays(s: State, c: Call)
    requires s.initialized && !ChangesThreshold(s, c)
    ensures Next(s, c).config.threshold == s.config.threshold
  {
    hide Act, FundFits, Funded, Moved, CanMove, Sweep;
    if MovesMoney(c) {
      MoneyFrame(s, c);
    } else if c.Execute? && Step(s, c).Ok? {
      ActSettings(s.(gov := MarkExecuted(s.gov, c.id)), s.gov.proposals[c.id].action, s.self);
    } else if c.PruneProposals? && Step(s, c).Ok? {
      PruneFrame(s, c.maxScan);
    }
  }

  lemma {:induction false} ThresholdStaysAlong(s: State, calls: seq<Call>)
    requires s.initialized && ThresholdUntouched(s, calls)
    ensures Run(s, calls).config.threshold == s.config.threshold
  {
    if |calls| > 0 {
      var front, last := calls[..|calls| - 1], calls[|calls| - 1];
      forall i | 0 <= i < |front|
        ensures !ChangesThreshold(Run(s, front[..i]), front[i])
      {
        assert front[..i] == calls[..i];
      }
      ThresholdStaysAlong(s, front);
      LimitsAreForever(s, front);
      hide Next, ChangesThreshold;
      assert calls[..|calls| - 1] == front;
      ThresholdStays(Run(s, front), last);
    }
  }

  /**
   * In every run after `initialize`, until a threshold change is carried out: a live proposal is short of approvals exactly
   * while fewer distinct addresses than the `threshold` argument have approved it, and that argument is what lets it pass.
   */
  lemma ThresholdArgumentDecides(s: State, c: Call, calls: seq<Call>, id: nat)
    requires Inv(s) && TakesOffice(s, c) && ThresholdUntouched(Next(s, c), calls)
    ensures var x := Run(Next(s, c), calls);
            && (Step(x, Execute(id)) == Err(InsufficientApprovals) <==>
                  Live(x, id) && |Flags(x.gov.approvals, id)| < c.threshold)
            && (Step(x, Execute(id)).Ok? <==>
                  && Live(x, id) && |Flags(x.gov.approvals, id)| >= c.threshold
                  && (Sensitive(x.gov.proposals[id].action) ==> x.ledger >= x.gov.proposals[id].proposedAt + 10)
                  && Enactable(x, x.gov.proposals[id].action))
  {
    StepKeepsInv(s, c);
    ArgumentsAreStored(s, c);
    RunKeepsInv(Next(s, c), calls);
    ThresholdStaysAlong(Next(s, c), calls);
    LimitsAreForever(Next(s, c), calls);
    hide Inv, Enactable, Run, Next, TakesOffice;
    ShortIff(Run(Next(s, c), calls), id);
  }

  lemma ShortIff(s: State, id: nat)
    requires Inv(s) && s.initialized
    ensures Step(s, Execute(id)) == Err(InsufficientApprovals) <==>
              Live(s, id) && |Flags(s.gov.approvals, id)| < s.config.threshold
    ensures Step(s, Execute(id)).Ok? <==>
              && Live(s, id) && |Flags(s.gov.approvals, id)| >= s.config.threshold
              && (Sensitive(s.gov.proposals[id].action) ==> s.ledger >= s.gov.proposals[id].proposedAt + 10)
              && Enactable(s, s.gov.proposals[id].action)
  {
    ExecutesIff(s, id);
    hide Act, Enactable;
    if id in s.gov.proposals {
      assert ProposalOk(s.gov, s.ledger, id);
      ActNeverShort(s.(gov := MarkExecuted(s.gov, id)), s.gov.proposals[id].action);
    }
  }

  // ----- the amount limits -----

  /** The amounts a funding call moves. */
  function AmountsOf(c: Call): seq<int> {
    match c
    case Fund(_, _, _, amount, _) => [amount]
    case RouteFromExchange(_, _, _, amount, _) => [amount]
    case BatchFund(_, _, _, amounts, _) => amounts
    case _ => []
  }

  lemma {:induction false} BatchWithin(s: State, source: Address, targets: seq<Address>, tokens: seq<Address>,
                                       amounts: seq<int>, memos: seq<seq<byte>>, n: nat)
    requires n <= |targets| == |tokens| == |amounts| == |memos|
    requires BatchItems(s, source, targets, tokens, amounts, memos, n).Ok?
    ensures BatchItems(s, source, targets, tokens, amounts, memos, n).value.0.config == s.config
    ensures forall i :: 0 <= i < n ==> s.config.minAmount <= amounts[i] <= s.config.maxAmount
  {
    hide FundFits, Funded, FeeFor;
    BatchFrame(s, source, targets, tokens, amounts, memos, n);
    if n > 0 {
      BatchWithin(s, source, targets, tokens, amounts, memos, n - 1);
      BatchFrame(s, source, targets, tokens, amounts, memos, n - 1);
    }
  }

  /** In every run after `initialize`, a funding call with any amount outside the limits as given is refused. */
  lemma LimitsBind(s: State, c: Call, calls: seq<Call>, funding: Call, i: nat)
    requires TakesOffice(s, c) && i < |AmountsOf(funding)|
    requires !(c.minAmount <= AmountsOf(funding)[i] <= c.maxAmount)
    ensures Step(Run(Next(s, c), calls), funding).Err?
  {
    ArgumentsAreStored(s, c);
    LimitsAreForever(Next(s, c), calls);
    var x := Run(Next(s, c), calls);
    hide Run, Next, TakesOffice, BatchItems, FundFits, Funded, FeeFor;
    if funding.BatchFund? && |funding.targets| == |funding.tokens| == |funding.amounts| == |funding.memos| {
      if BatchItems(x, funding.source, funding.targets, funding.tokens, funding.amounts, funding.memos, |funding.targets|).Ok? {
        BatchWithin(x, funding.source, funding.targets, funding.tokens, funding.amounts, funding.memos, |funding.targets|);
      }
    }
  }

  /** Which limit answers, for a payment that passes the checks before it. */
  lemma LimitsAnswer(s: State, c: Call, calls: seq<Call>, funding: Call)
    requires TakesOffice(s, c) && (funding.Fund? || funding.RouteFromExchange?)
    requires funding.target.Contract? && funding.amount > 0 && !Run(Next(s, c), calls).config.paused
    ensures var r := Step(Run(Next(s, c), calls), funding);
            && (r == Err(AmountBelowMinimum) <==> funding.amount < c.minAmount)
            && (r == Err(AmountAboveMaximum) <==> funding.amount > c.maxAmount)
  {
    ArgumentsAreStored(s, c);
    LimitsAreForever(Next(s, c), calls);
    InitializeAcceptedIff(s, c);
    hide Run, Next, TakesOffice, FundFits, Funded, FeeFor;
  }
}
