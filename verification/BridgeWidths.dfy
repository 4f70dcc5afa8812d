/** Fixed widths: in every reachable state every stored integer fits its type. */
module BridgeWidths {
  import opened BridgeTypes
  import opened BridgeSpec
  import opened BridgeGovernance
  import opened ProposalLifecycle

  ghost predicate BooksFit(b: Books) {
    && b.accumulatedFees <= I128_MAX && b.totalVolume <= I128_MAX
    && (forall t :: Get(b.feesByToken, t, 0) <= I128_MAX)
    && (forall t :: Get(b.volumeByToken, t, 0) <= I128_MAX)
    && (forall u, t :: Volume(b, u, t) <= I128_MAX)
    && b.fundingCount <= U32_MAX && b.hotCount <= U32_MAX && b.funderCount <= U64_MAX
    && b.nextArchiveId <= U32_MAX && b.nextArchiveRecordId <= U32_MAX
  }

  ghost predicate GovFits(g: Governance) {
    && g.nonce <= U32_MAX && g.nextPruneId <= U32_MAX
    && forall id :: id in g.proposals ==> g.proposals[id].approvalCount <= U32_MAX && g.proposals[id].expiry <= U32_MAX
  }

  ghost predicate BalancesFit(b: map<(Address, Address), int>) {
    forall t, h :: Bal(b, t, h) <= I128_MAX
  }

  ghost predicate Fits(s: State) {
    s.ledger <= U32_MAX && BooksFit(s.books) && GovFits(s.gov) && BalancesFit(s.balances)
  }

  // ----- transfers and books -----

  lemma MoveFits(b: map<(Address, Address), int>, token: Address, src: Address, dst: Address, amount: int)
    requires BalancesFit(b) && CanMove(b, token, src, dst, amount)
    ensures BalancesFit(Moved(b, token, src, dst, amount))
  {
    forall t, h
      ensures Bal(Moved(b, token, src, dst, amount), t, h) <= I128_MAX
    {
      assert Bal(b, t, h) <= I128_MAX;
    }
  }

  lemma AccrueFits(c: Config, b: Books, token: Address, fee: int)
    requires BooksFit(b) && AccrualFits(c, b, token, fee)
    ensures BooksFit(Accrued(c, b, token, fee))
  {
    hide TokenFee;
    var b' := Accrued(c, b, token, fee);
    forall u, t
      ensures Volume(b', u, t) <= I128_MAX
    {
      assert Volume(b, u, t) <= I128_MAX;
    }
    forall t
      ensures Get(b'.feesByToken, t, 0) <= I128_MAX
    {
      assert Get(b.feesByToken, t, 0) <= I128_MAX;
    }
  }

  lemma RecordKeepsFit(b: Books, r: FundingRecord)
    requires BooksFit(b) && RecordFits(b, r)
    ensures BooksFit(Recorded(b, r))
  {
    var b' := Recorded(b, r);
    forall u, t
      ensures Volume(b', u, t) <= I128_MAX
    {
      assert Volume(b, u, t) <= I128_MAX;
    }
    forall t
      ensures Get(b'.volumeByToken, t, 0) <= I128_MAX
    {
      assert Get(b.volumeByToken, t, 0) <= I128_MAX;
    }
  }

  lemma FundKeepsFit(s: State, source: Address, target: Address, token: Address, amount: int, memo: seq<byte>)
    requires Fits(s) && FundInternal(s, source, target, token, amount, memo).Ok?
    ensures Fits(FundInternal(s, source, target, token, amount, memo).value.0)
  {
    hide FeeFor, FeeFits, AccrualFits, Accrued, RecordFits, Recorded, CanMove, Moved, BooksFit, BalancesFit;
    var r := RecordOf(s, source, target, token, amount, memo);
    AccrueFits(s.config, s.books, token, r.fee);
    RecordKeepsFit(Accrued(s.config, s.books, token, r.fee), r);
    MoveFits(s.balances, token, source, s.self, amount);
    MoveFits(Collected(s, source, token, amount), token, s.self, target, amount - r.fee);
  }

  lemma {:induction false} BatchKeepsFit(s: State, source: Address, targets: seq<Address>, tokens: seq<Address>,
                                         amounts: seq<int>, memos: seq<seq<byte>>, n: nat)
    requires n <= |targets| == |tokens| == |amounts| == |memos|
    requires Fits(s) && BatchItems(s, source, targets, tokens, amounts, memos, n).Ok?
    ensures Fits(BatchItems(s, source, targets, tokens, amounts, memos, n).value.0)
  {
    hide Fits, FundInternal;
    if n > 0 {
      BatchKeepsFit(s, source, targets, tokens, amounts, memos, n - 1);
      var mid := BatchItems(s, source, targets, tokens, amounts, memos, n - 1).value.0;
      FundKeepsFit(mid, source, targets[n - 1], tokens[n - 1], amounts[n - 1], memos[n - 1]);
    }
  }

  lemma {:induction false} ArchiveKeepsFit(b: Books, first: nat, n: nat)
    requires BooksFit(b)
    ensures BooksFit(ArchiveRange(b, first, n))
  {
    if n > 0 {
      ArchiveKeepsFit(b, first, n - 1);
      SameVolumes(b, ArchiveRange(b, first, n));
    }
  }

  lemma SameVolumes(b: Books, b': Books)
    requires b'.userVolume == b.userVolume
    ensures forall u, t :: Volume(b', u, t) == Volume(b, u, t)
  {
  }

  lemma WithdrawKeepsFit(s: State, to: Address, token: Address, amount: int)
    requires Fits(s) && Withdraw(s, to, token, amount).Ok?
    ensures Fits(Withdraw(s, to, token, amount).value.0)
  {
    var s' := Withdraw(s, to, token, amount).value.0;
    MoveFits(s.balances, token, s.self, to, FromTotal(s.books, amount));
    SameVolumes(s.books, s'.books);
    hide Moved, BalancesFit, GovFits;
    forall t
      ensures Get(s'.books.feesByToken, t, 0) <= I128_MAX
    {
      assert Get(s.books.feesByToken, t, 0) <= I128_MAX;
    }
  }

  lemma ActKeepsFit(s: State, a: Action)
    requires Fits(s) && Act(s, a).Ok?
    ensures Fits(Act(s, a).value.0)
  {
    hide CanMove, Moved, Withdraw, ArchiveRange, Fits;
    match a
    case WithdrawFees(to, token, amount) => WithdrawKeepsFit(s, to, token, amount);
    case ArchiveOldEntries(count) => DoneArchiving(s, count);
    case _ => SameAccounts(s, Act(s, a).value.0);
  }

  lemma SameAccounts(s: State, s': State)
    requires Fits(s) && s'.ledger == s.ledger && s'.books == s.books && s'.gov == s.gov && s'.balances == s.balances
    ensures Fits(s')
  {
  }

  lemma DoneArchiving(s: State, count: nat)
    requires Fits(s) && Archive(s.books, count).Ok?
    ensures Fits(s.(books := Archive(s.books, count).value))
  {
    hide ArchiveRange, GovFits, BalancesFit;
    var n := if count > s.books.fundingCount then s.books.fundingCount else count;
    ArchiveKeepsFit(s.books, s.books.nextArchiveRecordId, n);
    SameVolumes(ArchiveRange(s.books, s.books.nextArchiveRecordId, n), Archive(s.books, count).value);
  }

  lemma MarkFits(g: Governance, id: nat)
    requires GovFits(g) && id in g.proposals
    ensures GovFits(MarkExecuted(g, id))
  {
  }

  /** Every call keeps the widths. */
  lemma StepKeepsFit(s: State, c: Call)
    requires Fits(s) && Inv(s)
    ensures Fits(Next(s, c))
  {
    hide Inv, FundInternal, BatchItems, Act, Sweep, Moved, CanMove, BooksFit, BalancesFit;
    if Step(s, c).Ok? {
      match c
      case Initialize(_, _, _, _, _, _) => InitializeFits(s, c);
      case Fund(source, target, token, amount, memo) => FundKeepsFit(s, source, target, token, amount, memo);
      case RouteFromExchange(source, target, token, amount, memo) => FundKeepsFit(s, source, target, token, amount, memo);
      case BatchFund(source, targets, tokens, amounts, memos) =>
        BatchKeepsFit(s, source, targets, tokens, amounts, memos, |targets|);
      case Execute(id) =>
        MarkFits(s.gov, id);
        ActKeepsFit(s.(gov := MarkExecuted(s.gov, id)), s.gov.proposals[id].action);
      case TokenTransfer(token, holder, to, amount) => MoveFits(s.balances, token, holder, to, amount);
      case Mint(token, to, amount) => MintFits(s.balances, token, to, amount);
      case PruneProposals(maxScan) => PruneFits(s, maxScan);
      case _ =>
    }
  }

  lemma InitializeFits(s: State, c: Call)
    requires Fits(s) && c.Initialize? && Step(s, c).Ok?
    ensures Fits(Next(s, c))
  {
    SameVolumes(s.books, Next(s, c).books);
  }

  lemma MintFits(b: map<(Address, Address), int>, token: Address, to: Address, amount: int)
    requires BalancesFit(b) && Bal(b, token, to) + amount <= I128_MAX
    ensures BalancesFit(b[(token, to) := Bal(b, token, to) + amount])
  {
    var b' := b[(token, to) := Bal(b, token, to) + amount];
    forall t, h
      ensures Bal(b', t, h) <= I128_MAX
    {
      assert Bal(b, t, h) <= I128_MAX;
    }
  }

  lemma PruneFits(s: State, maxScan: nat)
    requires Fits(s) && Inv(s) && Step(s, PruneProposals(maxScan)).Ok?
    ensures Fits(Next(s, PruneProposals(maxScan)))
  {
    hide Sweep, BooksFit, BalancesFit, ConfigOk, IndexOk, ProposalOk, LiveAt;
    PruneFrame(s, maxScan);
    SweepExact(s.gov, s.config.admins, s.ledger, s.gov.nextPruneId, maxScan);
  }

  /** Every state a deployed contract can reach fits. */
  lemma {:induction false} ReachableFits(self: Address, ledger: nat, calls: seq<Call>)
    requires ledger <= U32_MAX
    ensures Fits(Run(Deployed(self, ledger), calls))
  {
    if |calls| > 0 {
      ReachableFits(self, ledger, calls[..|calls| - 1]);
      ReachableInv(self, ledger, calls[..|calls| - 1]);
      StepKeepsFit(Run(Deployed(self, ledger), calls[..|calls| - 1]), calls[|calls| - 1]);
    }
  }
}
