/** What accepted calls leave on record, and what refused ones say. */
module BridgeHistory {
  import opened BridgeTypes
  import opened BridgeSpec
  import opened BridgeGovernance
  import opened BridgeBooks
  import opened BridgeCustody
  import opened BridgeFees
  import opened BridgeActions
  import opened BridgeArchive
  import opened GovernanceLiveness

  /** The record of an accepted funding, field by field, under the next id. */
  lemma RecordSaysWhatHappened(s: State, source: Address, target: Address, token: Address, amount: int, memo: seq<byte>)
    requires FundInternal(s, source, target, token, amount, memo).Ok?
    ensures var (s', fee) := FundInternal(s, source, target, token, amount, memo).value;
            var id := s.books.fundingCount + 1;
            && s'.books.fundingCount == id && id in s'.books.records
            && (var r := s'.books.records[id];
                && r.source == source && r.target == target && r.token == token && r.amount == amount
                && r.fee == fee && r.memo == memo && r.ledger == s.ledger && !r.archived)
            && forall other :: other != id ==>
                 && (other in s'.books.records <==> other in s.books.records)
                 && (other in s.books.records ==> s'.books.records[other] == s.books.records[other])
  {
    FundRecords(s, source, target, token, amount, memo);
    hide FeeFor, FundFits, Funded;
  }

  // ----- a batch is its payments, one after the other -----

  function Singles(source: Address, targets: seq<Address>, tokens: seq<Address>, amounts: seq<int>, memos: seq<seq<byte>>, n: nat)
    : (calls: seq<Call>)
    requires n <= |targets| == |tokens| == |amounts| == |memos|
    ensures |calls| == n
  {
    if n == 0 then []
    else Singles(source, targets, tokens, amounts, memos, n - 1) + [Fund(source, targets[n - 1], tokens[n - 1], amounts[n - 1], memos[n - 1])]
  }

  /** Every call is accepted where it comes. */
  predicate AllAccepted(s: State, calls: seq<Call>) {
    |calls| == 0 || (AllAccepted(s, calls[..|calls| - 1]) && Step(Run(s, calls[..|calls| - 1]), calls[|calls| - 1]).Ok?)
  }

  /** The sum of the replies. */
  function Replies(s: State, calls: seq<Call>): int
    requires AllAccepted(s, calls)
  {
    if |calls| == 0 then 0
    else Replies(s, calls[..|calls| - 1]) + Step(Run(s, calls[..|calls| - 1]), calls[|calls| - 1]).value.1
  }

  lemma {:induction false} ItemsAreSingles(s: State, source: Address, targets: seq<Address>, tokens: seq<Address>,
                                           amounts: seq<int>, memos: seq<seq<byte>>, n: nat)
    requires n <= |targets| == |tokens| == |amounts| == |memos|
    requires Inv(s) && s.books.accumulatedFees >= 0 && !s.config.paused && forall i :: 0 <= i < |targets| ==> targets[i].Contract?
    ensures var calls, r := Singles(source, targets, tokens, amounts, memos, n), BatchItems(s, source, targets, tokens, amounts, memos, n);
            && (r.Ok? <==> AllAccepted(s, calls))
            && (r.Ok? ==> r.value == (Run(s, calls), Replies(s, calls)))
  {
    hide Inv, FundInternal;
    if n > 0 {
      var front := Singles(source, targets, tokens, amounts, memos, n - 1);
      var calls := Singles(source, targets, tokens, amounts, memos, n);
      var last := calls[n - 1];
      assert calls[..n - 1] == front;
      ItemsAreSingles(s, source, targets, tokens, amounts, memos, n - 1);
      if AllAccepted(s, front) {
        var mid := Run(s, front);
        BatchFees(s, source, targets, tokens, amounts, memos, n - 1);
        SingleIsItem(mid, source, targets[n - 1], tokens[n - 1], amounts[n - 1], memos[n - 1]);
        hide AllAccepted, BatchItems, Run, Step, Next;
        OneMore(s, source, targets, tokens, amounts, memos, n, front, calls);
      } else {
        BatchStops(s, source, targets, tokens, amounts, memos, n);
      }
    }
  }

  lemma BatchStops(s: State, source: Address, targets: seq<Address>, tokens: seq<Address>, amounts: seq<int>, memos: seq<seq<byte>>, n: nat)
    requires 0 < n <= |targets| == |tokens| == |amounts| == |memos|
    requires BatchItems(s, source, targets, tokens, amounts, memos, n - 1).Err?
    ensures BatchItems(s, source, targets, tokens, amounts, memos, n).Err?
  {
    hide FundInternal;
  }

  lemma SingleIsItem(s: State, source: Address, target: Address, token: Address, amount: int, memo: seq<byte>)
    requires Inv(s) && target.Contract? && !s.config.paused
    ensures var r, item := Step(s, Fund(source, target, token, amount, memo)), FundInternal(s, source, target, token, amount, memo);
            (r.Ok? <==> item.Ok?) && (r.Ok? ==> r == item)
    ensures FundInternal(s, source, target, token, amount, memo).Ok? ==>
              var (s', fee) := FundInternal(s, source, target, token, amount, memo).value;
              fee >= 0 && s'.books.accumulatedFees == s.books.accumulatedFees + fee
              && (fee > 0 ==> s'.books.accumulatedFees <= I128_MAX)
  {
    if FundInternal(s, source, target, token, amount, memo).Ok? {
      FundFees(s, source, target, token, amount, memo);
    }
    hide GovOk, FeeFor, FeeFits, RecordFits, Recorded, Moved, CanMove;
  }

  lemma OneMore(s: State, source: Address, targets: seq<Address>, tokens: seq<Address>, amounts: seq<int>, memos: seq<seq<byte>>, n: nat,
                front: seq<Call>, calls: seq<Call>)
    requires 0 < n <= |targets| == |tokens| == |amounts| == |memos| && |front| == n - 1 && |calls| == n && calls[..n - 1] == front
    requires calls[n - 1] == Fund(source, targets[n - 1], tokens[n - 1], amounts[n - 1], memos[n - 1])
    requires AllAccepted(s, front) && s.books.accumulatedFees >= 0
    requires BatchItems(s, source, targets, tokens, amounts, memos, n - 1) == Ok((Run(s, front), Replies(s, front)))
    requires Replies(s, front) == Run(s, front).books.accumulatedFees - s.books.accumulatedFees
    requires 0 <= Replies(s, front) <= I128_MAX
    requires var item := FundInternal(Run(s, front), source, targets[n - 1], tokens[n - 1], amounts[n - 1], memos[n - 1]);
             && (Step(Run(s, front), calls[n - 1]).Ok? <==> item.Ok?) && (item.Ok? ==> Step(Run(s, front), calls[n - 1]) == item)
             && (item.Ok? ==>
                   && item.value.1 >= 0
                   && item.value.0.books.accumulatedFees == Run(s, front).books.accumulatedFees + item.value.1
                   && (item.value.1 > 0 ==> item.value.0.books.accumulatedFees <= I128_MAX))
    ensures var r := BatchItems(s, source, targets, tokens, amounts, memos, n);
            && (r.Ok? <==> AllAccepted(s, calls))
            && (r.Ok? ==> r.value == (Run(s, calls), Replies(s, calls)))
  {
    hide FundInternal, Step;
    assert Run(s, calls) == Next(Run(s, front), calls[n - 1]);
  }

  /**
   * Unless paused, a batch that passes its own checks is accepted exactly when its payments made singly, one after the
   * other, all are, and then leaves the same state and reports the sum of their fees.
   */
  lemma BatchIsItsSingles(s: State, source: Address, targets: seq<Address>, tokens: seq<Address>, amounts: seq<int>, memos: seq<seq<byte>>)
    requires Inv(s) && s.books.accumulatedFees >= 0 && !s.config.paused
    ensures var r := Step(s, BatchFund(source, targets, tokens, amounts, memos));
            if |targets| == 0 then r == Err(EmptyBatch)
            else if !(|targets| == |tokens| == |amounts| == |memos|) then r == Err(MismatchedBatchLengths)
            else if exists i :: 0 <= i < |targets| && !targets[i].Contract? then r == Err(InvalidCAddress)
            else
              var calls := Singles(source, targets, tokens, amounts, memos, |targets|);
              && (r.Ok? <==> AllAccepted(s, calls))
              && (r.Ok? ==> r.value == (Run(s, calls), Replies(s, calls)))
  {
    if |targets| == |tokens| == |amounts| == |memos| && forall i :: 0 <= i < |targets| ==> targets[i].Contract? {
      ItemsAreSingles(s, source, targets, tokens, amounts, memos, |targets|);
    }
    hide BatchItems, AllAccepted, Replies, Run;
  }

  // ----- governance calls -----

  /** Who may approve what, and what changes: one flag and one on the count. */
  lemma ApproveAcceptedIff(s: State, admin: Address, id: nat)
    requires Inv(s)
    ensures var r := Step(s, Approve(admin, id));
            && (r.Ok? <==>
                  && s.initialized && admin in s.config.admins && Live(s, id)
                  && admin !in Flags(s.gov.approvals, id) && |Flags(s.gov.approvals, id)| < U32_MAX)
            && (r.Ok? ==>
                  var s' := Next(s, Approve(admin, id));
                  && Flags(s'.gov.approvals, id) == Flags(s.gov.approvals, id) + {admin}
                  && (forall other :: other != id ==> Flags(s'.gov.approvals, other) == Flags(s.gov.approvals, other))
                  && id in s'.gov.proposals
                  && s'.gov.proposals[id] == s.gov.proposals[id].(approvalCount := |Flags(s.gov.approvals, id)| + 1)
                  && s' == s.(gov := s.gov.(proposals := s'.gov.proposals, approvals := s'.gov.approvals)))
  {
    if id in s.gov.proposals {
      assert ProposalOk(s.gov, s.ledger, id);
    }
    if (id, admin) !in s.gov.approvals {
      AddFlag(s.gov.approvals, id, admin);
    }
    assert admin in Flags(s.gov.approvals, id) <==> (id, admin) in s.gov.approvals;
    hide GovOk, ConfigOk;
  }

  /** An executed withdrawal: who gets how much of which token, and what leaves the two counters. */
  lemma WithdrawalPaysExactly(s: State, id: nat, to: Address, token: Address, amount: int)
    requires Step(s, Execute(id)).Ok? && s.gov.proposals[id].action == WithdrawFees(to, token, amount)
    ensures var s', paid := Next(s, Execute(id)), Step(s, Execute(id)).value.1;
            && paid == (if amount == 0 then s.books.accumulatedFees else amount) && paid >= 0
            && s'.books.accumulatedFees == s.books.accumulatedFees - paid
            && OwedIn(s', token) == (if amount == 0 then 0 else OwedIn(s, token) - amount)
            && (forall t :: t != token ==> OwedIn(s', t) == OwedIn(s, t))
            && (forall t, h :: Bal(s'.balances, t, h)
                               == Bal(s.balances, t, h) - If(t == token && h == s.self, paid) + If(t == token && h == to, paid))
            && s'.config == s.config
  {
    Enacted(s, id);
    var marked := s.(gov := MarkExecuted(s.gov, id));
    hide Step, Next, MarkExecuted, Moved;
    MovedExact(s.balances, token, s.self, to, if amount == 0 then s.books.accumulatedFees else amount);
    hide Bal, CanMove;
  }

  /** An executed archive call counts one batch and moves the cursor by the ids it covers. */
  lemma ArchiveCounts(s: State, id: nat, count: nat)
    requires Step(s, Execute(id)).Ok? && s.gov.proposals[id].action == ArchiveOldEntries(count)
    ensures var b, b' := s.books, Next(s, Execute(id)).books;
            && b'.nextArchiveId == b.nextArchiveId + 1
            && b'.nextArchiveRecordId == b.nextArchiveRecordId + (if count < b.fundingCount then count else b.fundingCount)
            && b'.fundingCount == b.fundingCount && b'.accumulatedFees == b.accumulatedFees
  {
    Enacted(s, id);
    hide Step, Next, MarkExecuted, ArchiveRange;
  }

  // ----- errors -----

  /** The action that a call would carry out. */
  predicate Carries(s: State, c: Call, a: Action) {
    c.Execute? && c.id in s.gov.proposals && s.gov.proposals[c.id].action == a
  }

  predicate CarriesOut(s: State, c: Call) {
    c.Execute? && c.id in s.gov.proposals
  }

  /** The condition that an error names. */
  predicate ErrorHolds(s: State, c: Call, e: BridgeError) {
    match e
    case NotInitialized => !s.initialized && (c.Propose? || c.Approve? || c.Execute? || c.PruneProposals?)
    case AdminsEmpty => (c.Initialize? && c.admins == []) || Carries(s, c, RotateAdmins([]))
    case ThresholdZero => (c.Initialize? && c.threshold == 0) || Carries(s, c, SetThreshold(0))
    case ThresholdExceedsAdminCount =>
      || (c.Initialize? && c.threshold > |c.admins|)
      || (CarriesOut(s, c) && s.gov.proposals[c.id].action.RotateAdmins?
          && s.config.threshold > |s.gov.proposals[c.id].action.admins|)
      || (CarriesOut(s, c) && s.gov.proposals[c.id].action.SetThreshold?
          && s.gov.proposals[c.id].action.threshold > |s.config.admins|)
    case MaxFeeExceedsLimit => c.Initialize? && c.maxFeeBps > 10000
    case FeeExceedsMaxFee =>
      || (c.Initialize? && c.feeBps > c.maxFeeBps)
      || (CarriesOut(s, c) && s.gov.proposals[c.id].action.SetFee? && s.gov.proposals[c.id].action.feeBps > s.config.maxFeeBps)
    case MinAmountInvalid => c.Initialize? && c.minAmount <= 0
    case MaxAmountBelowMinimum => c.Initialize? && c.maxAmount < c.minAmount
    case AdminCannotBeContract =>
      || (c.Initialize? && s.self in c.admins)
      || (CarriesOut(s, c) && s.gov.proposals[c.id].action.RotateAdmins? && s.self in s.gov.proposals[c.id].action.admins)
    case InvalidCAddress =>
      || ((c.Fund? || c.RouteFromExchange?) && !c.target.Contract?)
      || (c.BatchFund? && exists i :: 0 <= i < |c.targets| && !c.targets[i].Contract?)
    case AmountNotPositive => (c.Fund? || c.RouteFromExchange?) && c.amount <= 0
    case ContractPaused => (c.Fund? || c.RouteFromExchange?) && s.config.paused
    case AmountBelowMinimum => BelowMinimum(s.config, c)
    case AmountAboveMaximum => AboveMaximum(s.config, c)
    case EmptyBatch => c.BatchFund? && c.targets == []
    case MismatchedBatchLengths => c.BatchFund? && !(|c.targets| == |c.tokens| == |c.amounts| == |c.memos|)
    case NoEntriesToArchive =>
      CarriesOut(s, c) && s.gov.proposals[c.id].action.ArchiveOldEntries?
      && (s.gov.proposals[c.id].action.count == 0 || s.books.fundingCount == 0)
    case OnlyAdminsCanPropose => c.Propose? && c.proposer !in s.config.admins
    case ExpiryTooShort => c.Propose? && c.expiryBlocks < 10
    case ExpiryTooLong => c.Propose? && c.expiryBlocks > 100000
    case OnlyAdminsCanApprove => c.Approve? && c.admin !in s.config.admins
    case ProposalNotFound => (c.Approve? || c.Execute?) && c.id !in s.gov.proposals
    case ProposalExpired => (c.Approve? || c.Execute?) && c.id in s.gov.proposals && s.ledger > s.gov.proposals[c.id].expiry
    case ProposalAlreadyExecuted => (c.Approve? || c.Execute?) && c.id in s.gov.proposals && s.gov.proposals[c.id].executed
    case InsufficientApprovals => CarriesOut(s, c) && |Flags(s.gov.approvals, c.id)| < s.config.threshold
    case ExecutionTooSoon => CarriesOut(s, c) && s.ledger < s.gov.proposals[c.id].proposedAt + 10
    case InsufficientAccumulatedFees =>
      CarriesOut(s, c) && s.gov.proposals[c.id].action.WithdrawFees? && s.gov.proposals[c.id].action.amount > s.books.accumulatedFees
    case Panicked => true
  }

  /** An error never lies: the condition it names holds of the call that got it. */
  lemma ErrorsAreTrue(s: State, c: Call)
    requires Inv(s) && Step(s, c).Err?
    ensures ErrorHolds(s, c, Step(s, c).error)
  {
    hide Step, ErrorHolds, Inv;
    match c
    case Execute(id) => ExecuteErrors(s, id);
    case BatchFund(_, _, _, _, _) => BatchCallErrors(s, c);
    case Initialize(_, _, _, _, _, _) => InitializeErrors(s, c);
    case Fund(_, _, _, _, _) => PaymentErrors(s, c);
    case RouteFromExchange(_, _, _, _, _) => PaymentErrors(s, c);
    case Propose(_, _, _) => AdminErrors(s, c);
    case Approve(_, _) => AdminErrors(s, c);
    case _ => OtherErrors(s, c);
  }

  lemma BatchCallErrors(s: State, c: Call)
    requires c.BatchFund? && Step(s, c).Err?
    ensures ErrorHolds(s, c, Step(s, c).error)
  {
    hide BatchItems;
    if |c.targets| == |c.tokens| == |c.amounts| == |c.memos| {
      BatchErrors(s, c.source, c.targets, c.tokens, c.amounts, c.memos, |c.targets|);
    }
  }

  lemma InitializeErrors(s: State, c: Call)
    requires c.Initialize? && Step(s, c).Err?
    ensures ErrorHolds(s, c, Step(s, c).error)
  {
  }

  lemma PaymentErrors(s: State, c: Call)
    requires (c.Fund? || c.RouteFromExchange?) && Step(s, c).Err?
    ensures ErrorHolds(s, c, Step(s, c).error)
  {
    hide FundFits, Funded, FeeFor;
  }

  lemma AdminErrors(s: State, c: Call)
    requires (c.Propose? || c.Approve?) && Step(s, c).Err?
    ensures ErrorHolds(s, c, Step(s, c).error)
  {
  }

  lemma OtherErrors(s: State, c: Call)
    requires (c.GetActiveProposals? || c.PruneProposals? || c.Tick? || c.TokenTransfer? || c.Mint?) && Step(s, c).Err?
    ensures ErrorHolds(s, c, Step(s, c).error)
  {
    hide Sweep, CanMove, Moved;
  }

  /** Before `initialize` there is no governance. */
  lemma NothingWithoutInitialize(s: State, c: Call)
    requires !s.initialized && (c.Propose? || c.Approve? || c.Execute? || c.PruneProposals?)
    ensures Step(s, c) == Err(NotInitialized)
  {
  }

  lemma ExecuteErrors(s: State, id: nat)
    requires Inv(s) && Step(s, Execute(id)).Err?
    ensures ErrorHolds(s, Execute(id), Step(s, Execute(id)).error)
  {
    if id in s.gov.proposals {
      StoredOk(s, id);
      hide Inv, Act, ErrorHolds;
      if Gate(s, id).Ok? {
        ActErrors(s, id, s.(gov := MarkExecuted(s.gov, id)));
      } else {
        GateErrors(s, id);
      }
    }
  }

  lemma GateErrors(s: State, id: nat)
    requires id in s.gov.proposals && ProposalOk(s.gov, s.ledger, id) && Gate(s, id).Err?
    ensures ErrorHolds(s, Execute(id), Gate(s, id).error)
  {
  }

  lemma ActErrors(s: State, id: nat, marked: State)
    requires id in s.gov.proposals && marked == s.(gov := marked.gov) && Act(marked, s.gov.proposals[id].action).Err?
    ensures ErrorHolds(s, Execute(id), Act(marked, s.gov.proposals[id].action).error)
  {
    hide CanMove, Moved, ArchiveRange;
  }

  lemma StoredOk(s: State, id: nat)
    requires Inv(s) && id in s.gov.proposals
    ensures ProposalOk(s.gov, s.ledger, id)
  {
  }

  predicate BelowMinimum(limits: Config, c: Call) {
    || ((c.Fund? || c.RouteFromExchange?) && c.amount < limits.minAmount)
    || (c.BatchFund? && exists i :: 0 <= i < |c.amounts| && c.amounts[i] < limits.minAmount)
  }

  predicate AboveMaximum(limits: Config, c: Call) {
    || ((c.Fund? || c.RouteFromExchange?) && c.amount > limits.maxAmount)
    || (c.BatchFund? && exists i :: 0 <= i < |c.amounts| && c.amounts[i] > limits.maxAmount)
  }

  lemma {:induction false} BatchErrors(s: State, source: Address, targets: seq<Address>, tokens: seq<Address>,
                                       amounts: seq<int>, memos: seq<seq<byte>>, n: nat)
    requires n <= |targets| == |tokens| == |amounts| == |memos|
    ensures var r := BatchItems(s, source, targets, tokens, amounts, memos, n);
            && (r.Ok? ==> r.value.0.config == s.config)
            && (r.Err? ==> r.error in {AmountBelowMinimum, AmountAboveMaximum, Panicked})
            && (r == Err(AmountBelowMinimum) ==> exists i :: 0 <= i < n && amounts[i] < s.config.minAmount)
            && (r == Err(AmountAboveMaximum) ==> exists i :: 0 <= i < n && amounts[i] > s.config.maxAmount)
  {
    hide FundFits, FeeFor, Recorded, Accrued, Moved;
    if n > 0 {
      BatchErrors(s, source, targets, tokens, amounts, memos, n - 1);
    }
  }
}
