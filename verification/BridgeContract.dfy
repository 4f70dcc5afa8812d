/** The contract itself: one field per storage key, entry points that overwrite them, and the host's rollback. */
module BridgeContract {
  import opened BridgeTypes
  import opened BridgeSpec

  class OnboardingBridge {
    const self: Address
    var ledger: nat
    var initialized: bool
    var config: Config
    var books: Books
    var gov: Governance
    var balances: map<(Address, Address), int>

    /** Everything the contract and its tokens store, as one value. */
    function View(): State
      reads this
    {
      State(self, ledger, initialized, config, books, gov, balances)
    }

    constructor (self: Address, ledger: nat)
      ensures View() == Deployed(self, ledger)
    {
      this.self, this.ledger, initialized := self, ledger, false;
      config := Config([], 0, 0, 0, InitParams(0, 0, 0, 0), 1, I128_MAX, false, map[], map[], 0, map[], map[]);
      books := Books(0, map[], map[], 0, 0, map[], 0, map[], {}, 0, 0, 1);
      gov := Governance(0, map[], {}, [], 1);
      balances := map[];
    }

    /** The host undoing a failed invocation. */
    method Rollback(s: State)
      requires s.self == self
      modifies this
      ensures View() == s
    {
      ledger, initialized, config, books, gov, balances := s.ledger, s.initialized, s.config, s.books, s.gov, s.balances;
    }

    method Initialize(admins: seq<Address>, threshold: nat, feeBps: nat, maxFeeBps: nat, minAmount: int, maxAmount: int)
      returns (r: Result<int>)
      modifies this
      ensures r == Reply(old(View()), Call.Initialize(admins, threshold, feeBps, maxFeeBps, minAmount, maxAmount))
      ensures View() == Next(old(View()), Call.Initialize(admins, threshold, feeBps, maxFeeBps, minAmount, maxAmount))
    {
      if initialized { return Ok(0); }
      if |admins| == 0 { return Err(AdminsEmpty); }
      if threshold == 0 { return Err(ThresholdZero); }
      if threshold > |admins| { return Err(ThresholdExceedsAdminCount); }
      if maxFeeBps > 10000 { return Err(MaxFeeExceedsLimit); }
      if feeBps > maxFeeBps { return Err(FeeExceedsMaxFee); }
      if minAmount <= 0 { return Err(MinAmountInvalid); }
      if maxAmount < minAmount { return Err(MaxAmountBelowMinimum); }
      var clash := Contains(admins, self);
      if clash { return Err(AdminCannotBeContract); }
      config := config.(admins := admins, threshold := threshold, maxFeeBps := maxFeeBps, feeBps := feeBps);
      books := books.(accumulatedFees := 0);
      initialized := true;
      config := config.(params := InitParams(threshold, feeBps, maxFeeBps, |admins|));
      books := books.(fundingCount := 0, hotCount := 0, nextArchiveId := 0, nextArchiveRecordId := 1);
      config := config.(paused := false);
      gov := gov.(nonce := 0, activeIds := [], nextPruneId := 1);
      config := config.(minAmount := minAmount, maxAmount := maxAmount);
      books := books.(totalVolume := 0, funderCount := 0);
      return Ok(0);
    }

    static method Contains(list: seq<Address>, a: Address) returns (found: bool)
      ensures found <==> a in list
    {
      for i := 0 to |list|
        invariant a !in list[..i]
      {
        if list[i] == a { return true; }
      }
      return false;
    }

    method Rebate(user: Address, token: Address) returns (best: nat)
      ensures best == RebateBps(View(), user, token)
    {
      var volume := Get(books.userVolume, (user, token), 0);
      best := 0;
      for i := 0 to config.tierCount
        invariant best == BestDiscount(config, volume, i)
      {
        var discount := Get(config.tierDiscount, i, 0);
        if volume >= Get(config.tierThreshold, i, 0) && discount > best {
          best := discount;
        }
      }
    }

    method QuoteFee(source: Address, token: Address, amount: int) returns (ok: bool, fee: int)
      ensures ok <==> FeeFits(View(), source, token, amount)
      ensures ok ==> fee == FeeFor(View(), source, token, amount)
    {
      var discount := Rebate(source, token);
      if config.feeBps * discount > U32_MAX { return false, 0; }
      var bps := SaturatingSub(config.feeBps, config.feeBps * discount / 10000);
      if amount * bps > I128_MAX { return false, 0; }
      return true, if bps > 0 then amount * bps / 10000 else 0;
    }

    method MoveTokens(token: Address, src: Address, dst: Address, amount: int) returns (ok: bool)
      modifies this`balances
      ensures ok <==> CanMove(old(balances), token, src, dst, amount)
      ensures ok ==> balances == Moved(old(balances), token, src, dst, amount)
    {
      if amount < 0 || Bal(balances, token, src) < amount { return false; }
      balances := balances[(token, src) := Bal(balances, token, src) - amount];
      if Bal(balances, token, dst) + amount > I128_MAX { return false; }
      balances := balances[(token, dst) := Bal(balances, token, dst) + amount];
      return true;
    }

    method AccrueFee(token: Address, fee: int) returns (ok: bool)
      modifies this`books
      ensures ok <==> AccrualFits(config, old(books), token, fee)
      ensures ok ==> books == Accrued(config, old(books), token, fee)
    {
      if fee > 0 {
        if books.accumulatedFees + fee > I128_MAX { return false; }
        books := books.(accumulatedFees := books.accumulatedFees + fee);
        if Get(config.whitelist, token, false) {
          var rate := Get(config.rates, token, 10000);
          if fee * rate > I128_MAX { return false; }
          var accrued := Get(books.feesByToken, token, 0) + fee * rate / 10000;
          if accrued > I128_MAX { return false; }
          books := books.(feesByToken := books.feesByToken[token := accrued]);
        }
      }
      return true;
    }

    method Book(r: FundingRecord) returns (ok: bool)
      modifies this`books
      ensures ok <==> RecordFits(old(books), r)
      ensures ok ==> books == Recorded(old(books), r)
    {
      var volume := Volume(books, r.source, r.token);
      if volume + r.amount > I128_MAX { return false; }
      books := books.(userVolume := books.userVolume[(r.source, r.token) := volume + r.amount]);
      if books.fundingCount + 1 > U32_MAX { return false; }
      var id := books.fundingCount + 1;
      books := books.(records := books.records[id := r]);
      books := books.(fundingCount := id);
      if books.hotCount + 1 > U32_MAX { return false; }
      books := books.(hotCount := books.hotCount + 1);
      if books.totalVolume + r.amount > I128_MAX { return false; }
      books := books.(totalVolume := books.totalVolume + r.amount);
      var tokenVolume := Get(books.volumeByToken, r.token, 0);
      if tokenVolume + r.amount > I128_MAX { return false; }
      books := books.(volumeByToken := books.volumeByToken[r.token := tokenVolume + r.amount]);
      ok := CountFunder(r.source);
    }

    method CountFunder(source: Address) returns (ok: bool)
      modifies this`books
      ensures ok <==> source in old(books).funders || old(books).funderCount + 1 <= U64_MAX
      ensures ok ==> books == old(books).(
                       funders := old(books).funders + {source},
                       funderCount := if source in old(books).funders then old(books).funderCount else old(books).funderCount + 1)
    {
      if source !in books.funders {
        books := books.(funders := books.funders + {source});
        if books.funderCount + 1 > U64_MAX { return false; }
        books := books.(funderCount := books.funderCount + 1);
      }
      assert books.funders == old(books).funders + {source};
      return true;
    }

    /** Writes as it goes; a failure leaves partial writes for the caller's rollback. */
    method FundInternal(source: Address, target: Address, token: Address, amount: int, memo: seq<byte>)
      returns (r: Result<int>)
      modifies this
      ensures var spec := BridgeSpec.FundInternal(old(View()), source, target, token, amount, memo);
              match spec
              case Ok(v) => r == Ok(v.1) && View() == v.0
              case Err(e) => r == Err(e)
    {
      hide FeeFits, FeeFor, CanMove, Moved, AccrualFits, Accrued, RecordFits, Recorded;
      if amount < config.minAmount { return Err(AmountBelowMinimum); }
      if amount > config.maxAmount { return Err(AmountAboveMaximum); }
      if amount > MAX_SAFE_AMOUNT || |memo| > MAX_MEMO_BYTES { return Err(Panicked); }
      var ok, fee := QuoteFee(source, token, amount);
      if !ok { return Err(Panicked); }
      ok := MoveTokens(token, source, self, amount);
      if !ok { return Err(Panicked); }
      ok := AccrueFee(token, fee);
      if !ok { return Err(Panicked); }
      ok := MoveTokens(token, self, target, amount - fee);
      if !ok { return Err(Panicked); }
      ok := Book(FundingRecord(source, target, token, amount, fee, ledger, memo, false));
      if !ok { return Err(Panicked); }
      return Ok(fee);
    }

    method Fund(source: Address, target: Address, token: Address, amount: int, memo: seq<byte>) returns (r: Result<int>)
      modifies this
      ensures r == Reply(old(View()), Call.Fund(source, target, token, amount, memo))
      ensures View() == Next(old(View()), Call.Fund(source, target, token, amount, memo))
    {
      if !target.Contract? { return Err(InvalidCAddress); }
      if amount <= 0 { return Err(AmountNotPositive); }
      if config.paused { return Err(ContractPaused); }
      var saved := View();
      r := FundInternal(source, target, token, amount, memo);
      if r.Err? { Rollback(saved); }
    }

    method RouteFromExchange(source: Address, target: Address, token: Address, amount: int, memo: seq<byte>)
      returns (r: Result<int>)
      modifies this
      ensures r == Reply(old(View()), Call.RouteFromExchange(source, target, token, amount, memo))
      ensures View() == Next(old(View()), Call.RouteFromExchange(source, target, token, amount, memo))
    {
      if !target.Contract? { return Err(InvalidCAddress); }
      if amount <= 0 { return Err(AmountNotPositive); }
      if config.paused { return Err(ContractPaused); }
      var saved := View();
      r := FundInternal(source, target, token, amount, memo);
      if r.Err? { Rollback(saved); }
    }

    method BatchFund(source: Address, targets: seq<Address>, tokens: seq<Address>, amounts: seq<int>, memos: seq<seq<byte>>)
      returns (r: Result<int>)
      modifies this
      ensures r == Reply(old(View()), Call.BatchFund(source, targets, tokens, amounts, memos))
      ensures View() == Next(old(View()), Call.BatchFund(source, targets, tokens, amounts, memos))
    {
      if |targets| == 0 { return Err(EmptyBatch); }
      if |tokens| != |targets| || |amounts| != |targets| || |memos| != |targets| { return Err(MismatchedBatchLengths); }
      for i := 0 to |targets|
        invariant forall j :: 0 <= j < i ==> targets[j].Contract?
      {
        if !targets[i].Contract? { return Err(InvalidCAddress); }
      }
      var saved := View();
      r := BatchLoop(source, targets, tokens, amounts, memos);
      if r.Err? { Rollback(saved); }
    }

    method BatchLoop(source: Address, targets: seq<Address>, tokens: seq<Address>, amounts: seq<int>, memos: seq<seq<byte>>)
      returns (r: Result<int>)
      requires |targets| == |tokens| == |amounts| == |memos|
      modifies this
      ensures var spec := BatchItems(old(View()), source, targets, tokens, amounts, memos, |targets|);
              match spec
              case Ok(v) => r == Ok(v.1) && View() == v.0
              case Err(e) => r == Err(e)
    {
      hide FundFits, Funded, FeeFor;
      ghost var before := View();
      var totalFees := 0;
      for i := 0 to |targets|
        invariant BatchItems(before, source, targets, tokens, amounts, memos, i) == Ok((View(), totalFees))
      {
        var item := FundInternal(source, targets[i], tokens[i], amounts[i], memos[i]);
        if item.Err? {
          BatchFails(before, source, targets, tokens, amounts, memos, i + 1, |targets|);
          return item;
        }
        if totalFees + item.value > I128_MAX {
          BatchFails(before, source, targets, tokens, amounts, memos, i + 1, |targets|);
          return Err(Panicked);
        }
        totalFees := totalFees + item.value;
      }
      return Ok(totalFees);
    }

    method ArchiveOldEntries(count: nat) returns (r: Result<int>)
      modifies this
      ensures var spec := Archive(old(books), count);
              match spec
              case Ok(b) => r == Ok(0) && View() == old(View()).(books := b)
              case Err(e) => r == Err(e)
    {
      var archiveCount := if count > books.fundingCount then books.fundingCount else count;
      if archiveCount == 0 { return Err(NoEntriesToArchive); }
      var start := books.nextArchiveRecordId;
      if start + archiveCount > U32_MAX { return Err(Panicked); }
      ghost var before := View();
      for i := 0 to archiveCount
        invariant View() == before.(books := ArchiveRange(before.books, start, i))
      {
        var id := start + i;
        if id in books.records {
          var record := books.records[id];
          if !record.archived {
            books := books.(hotCount := SaturatingSub(books.hotCount, 1));
          }
          books := books.(records := books.records[id := record.(archived := true)]);
        }
      }
      if books.nextArchiveId + 1 > U32_MAX { return Err(Panicked); }
      books := books.(nextArchiveId := books.nextArchiveId + 1);
      books := books.(nextArchiveRecordId := start + archiveCount);
      return Ok(0);
    }

    method Propose(proposer: Address, action: Action, expiryBlocks: nat) returns (r: Result<int>)
      modifies this
      ensures r == Reply(old(View()), Call.Propose(proposer, action, expiryBlocks))
      ensures View() == Next(old(View()), Call.Propose(proposer, action, expiryBlocks))
    {
      if !initialized { return Err(NotInitialized); }
      var isAdmin := Contains(config.admins, proposer);
      if !isAdmin { return Err(OnlyAdminsCanPropose); }
      if expiryBlocks < 10 { return Err(ExpiryTooShort); }
      if expiryBlocks > 100000 { return Err(ExpiryTooLong); }
      if gov.nonce + 1 > U32_MAX { return Err(Panicked); }
      var id := gov.nonce + 1;
      if ledger + expiryBlocks > U32_MAX { return Err(Panicked); }
      gov := gov.(approvals := gov.approvals + {(id, proposer)});
      gov := gov.(proposals := gov.proposals[id := Proposal(id, action, proposer, 1, false, ledger + expiryBlocks, ledger)]);
      gov := gov.(nonce := id);
      gov := gov.(activeIds := gov.activeIds + [id]);
      return Ok(id);
    }

    method Approve(admin: Address, id: nat) returns (r: Result<int>)
      modifies this
      ensures r == Reply(old(View()), Call.Approve(admin, id))
      ensures View() == Next(old(View()), Call.Approve(admin, id))
    {
      if !initialized { return Err(NotInitialized); }
      var isAdmin := Contains(config.admins, admin);
      if !isAdmin { return Err(OnlyAdminsCanApprove); }
      if id !in gov.proposals { return Err(ProposalNotFound); }
      var proposal := gov.proposals[id];
      if ledger > proposal.expiry { return Err(ProposalExpired); }
      if proposal.executed { return Err(ProposalAlreadyExecuted); }
      if (id, admin) in gov.approvals || proposal.approvalCount + 1 > U32_MAX { return Err(Panicked); }
      gov := gov.(approvals := gov.approvals + {(id, admin)});
      gov := gov.(proposals := gov.proposals[id := proposal.(approvalCount := proposal.approvalCount + 1)]);
      return Ok(0);
    }

    method Execute(id: nat) returns (r: Result<int>)
      modifies this
      ensures r == Reply(old(View()), Call.Execute(id))
      ensures View() == Next(old(View()), Call.Execute(id))
    {
      if !initialized { return Err(NotInitialized); }
      if id !in gov.proposals { return Err(ProposalNotFound); }
      var proposal := gov.proposals[id];
      if ledger > proposal.expiry { return Err(ProposalExpired); }
      if proposal.executed { return Err(ProposalAlreadyExecuted); }
      if proposal.approvalCount < config.threshold { return Err(InsufficientApprovals); }
      if Sensitive(proposal.action) && ledger < proposal.proposedAt + MIN_EXEC_DELAY { return Err(ExecutionTooSoon); }
      var saved := View();
      gov := gov.(proposals := gov.proposals[id := proposal.(executed := true)]);
      var remaining := [];
      for i := 0 to |gov.activeIds|
        invariant remaining == Without(gov.activeIds[..i], id)
      {
        assert gov.activeIds[..i + 1][..i] == gov.activeIds[..i];
        if gov.activeIds[i] != id {
          remaining := remaining + [gov.activeIds[i]];
        }
      }
      assert gov.activeIds[..|gov.activeIds|] == gov.activeIds;
      gov := gov.(activeIds := remaining);
      r := Act(proposal.action);
      if r.Err? { Rollback(saved); }
    }

    /** Carries out an action; a failure leaves partial writes for the caller's rollback. */
    method Act(action: Action) returns (r: Result<int>)
      modifies this
      ensures var spec := BridgeSpec.Act(old(View()), action);
              match spec
              case Ok(v) => r == Ok(v.1) && View() == v.0
              case Err(e) => r == Err(e)
    {
      match action {
        case SetFee(bps) =>
          if bps > config.maxFeeBps { return Err(FeeExceedsMaxFee); }
          config := config.(feeBps := bps);
          config := config.(params := config.params.(feeBps := bps));
        case SetFeeTokenWhitelist(token, enabled) =>
          config := config.(whitelist := config.whitelist[token := enabled]);
        case SetFeeTokenRate(token, rate) =>
          if rate < 1000 || rate > 20000 { return Err(Panicked); }
          config := config.(rates := config.rates[token := rate]);
        case WithdrawFees(to, token, amount) =>
          var paid := WithdrawFees(to, token, amount);
          return paid;
        case Pause =>
          config := config.(paused := true);
        case Unpause =>
          config := config.(paused := false);
        case RotateAdmins(newAdmins) =>
          if |newAdmins| == 0 { return Err(AdminsEmpty); }
          var clash := Contains(newAdmins, self);
          if clash { return Err(AdminCannotBeContract); }
          if config.threshold > |newAdmins| { return Err(ThresholdExceedsAdminCount); }
          config := config.(admins := newAdmins);
        case SetThreshold(newThreshold) =>
          if newThreshold == 0 { return Err(ThresholdZero); }
          if newThreshold > |config.admins| { return Err(ThresholdExceedsAdminCount); }
          config := config.(threshold := newThreshold);
        case ArchiveOldEntries(count) =>
          var archived := ArchiveOldEntries(count);
          return archived;
        case SetRebateTier(index, volume, discountBps) =>
          if discountBps > 5000 || index >= MAX_TIERS { return Err(Panicked); }
          config := config.(tierThreshold := config.tierThreshold[index := volume]);
          config := config.(tierDiscount := config.tierDiscount[index := discountBps]);
          if index >= config.tierCount {
            config := config.(tierCount := index + 1);
          }
      }
      return Ok(0);
    }

    method WithdrawFees(to: Address, token: Address, amount: int) returns (r: Result<int>)
      modifies this
      ensures var spec := Withdraw(old(View()), to, token, amount);
              match spec
              case Ok(v) => r == Ok(v.1) && View() == v.0
              case Err(e) => r == Err(e)
    {
      var tokenAccumulated := Get(books.feesByToken, token, 0);
      var withdrawAmount := if amount == 0 then tokenAccumulated else amount;
      if withdrawAmount > tokenAccumulated { return Err(Panicked); }
      books := books.(feesByToken := books.feesByToken[token := tokenAccumulated - withdrawAmount]);
      withdrawAmount := if amount == 0 then books.accumulatedFees else amount;
      if withdrawAmount > books.accumulatedFees { return Err(InsufficientAccumulatedFees); }
      books := books.(accumulatedFees := books.accumulatedFees - withdrawAmount);
      var ok := MoveTokens(token, self, to, withdrawAmount);
      if !ok { return Err(Panicked); }
      return Ok(withdrawAmount);
    }

    /** Also rewrites the index, keeping only the ids it returned. */
    method GetActiveProposals() returns (active: seq<Proposal>)
      modifies this`gov
      ensures View() == Next(old(View()), Call.GetActiveProposals)
      ensures |active| == |gov.activeIds|
      ensures forall i :: 0 <= i < |active| ==> gov.activeIds[i] in gov.proposals && active[i] == gov.proposals[gov.activeIds[i]]
    {
      active := [];
      var kept := [];
      for i := 0 to |gov.activeIds|
        invariant kept == LiveIds(gov, ledger, i)
        invariant |active| == |kept|
        invariant forall j :: 0 <= j < |kept| ==> kept[j] in gov.proposals && active[j] == gov.proposals[kept[j]]
      {
        var id := gov.activeIds[i];
        if id in gov.proposals {
          var proposal := gov.proposals[id];
          if !proposal.executed && ledger <= proposal.expiry {
            active := active + [proposal];
            kept := kept + [id];
          }
        }
      }
      gov := gov.(activeIds := kept);
    }

    method PruneProposals(maxScan: nat) returns (r: Result<int>)
      modifies this
      ensures r == Reply(old(View()), Call.PruneProposals(maxScan))
      ensures View() == Next(old(View()), Call.PruneProposals(maxScan))
    {
      if !initialized { return Err(NotInitialized); }
      var saved := View();
      var cursor: nat, pruned, scanned := gov.nextPruneId, 0, 0;
      while cursor <= gov.nonce && scanned < maxScan
        invariant 0 <= scanned <= maxScan
        invariant View() == saved.(gov := gov)
        invariant var (swept, end, more) := Sweep(gov, config.admins, ledger, cursor, maxScan - scanned);
                  Sweep(saved.gov, config.admins, ledger, saved.gov.nextPruneId, maxScan) == (swept, end, pruned + more)
        decreases maxScan - scanned
      {
        if cursor in gov.proposals {
          var proposal := gov.proposals[cursor];
          if proposal.executed || ledger > proposal.expiry {
            RemoveProposal(cursor);
            pruned := pruned + 1;
            cursor := cursor + 1;
          } else {
            break;
          }
        } else {
          cursor := cursor + 1;
        }
        scanned := scanned + 1;
      }
      gov := gov.(nextPruneId := cursor);
      if cursor > U32_MAX {
        Rollback(saved);
        return Err(Panicked);
      }
      return Ok(pruned);
    }

    method RemoveProposal(id: nat)
      requires id in gov.proposals
      modifies this`gov
      ensures gov == Drop(old(gov), id, config.admins)
    {
      var proposer := gov.proposals[id].proposer;
      gov := gov.(proposals := gov.proposals - {id});
      var flags := gov.approvals;
      for i := 0 to |config.admins|
        invariant flags == gov.approvals - (set a | a in config.admins[..i] :: (id, a))
      {
        assert config.admins[..i + 1] == config.admins[..i] + [config.admins[i]];
        flags := flags - {(id, config.admins[i])};
      }
      assert config.admins[..|config.admins|] == config.admins;
      gov := gov.(approvals := flags - {(id, proposer)});
    }
  }

  /** Once an item fails, so does every longer batch, with the same error. */
  lemma {:induction false} BatchFails(s: State, source: Address, targets: seq<Address>, tokens: seq<Address>,
                                      amounts: seq<int>, memos: seq<seq<byte>>, k: nat, n: nat)
    requires k <= n <= |targets| == |tokens| == |amounts| == |memos|
    requires BatchItems(s, source, targets, tokens, amounts, memos, k).Err?
    ensures BatchItems(s, source, targets, tokens, amounts, memos, n)
            == Err(BatchItems(s, source, targets, tokens, amounts, memos, k).error)
  {
    if k < n {
      BatchFails(s, source, targets, tokens, amounts, memos, k, n - 1);
    }
  }
}
