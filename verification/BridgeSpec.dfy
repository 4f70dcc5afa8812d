/** What each entry point does to the storage, as functions. `Err` means the host rolls everything back. */
module BridgeSpec {
  import opened BridgeTypes

  // ----- token contract (SEP-41) -----

  function Bal(b: map<(Address, Address), int>, token: Address, holder: Address): int {
    Get(b, (token, holder), 0)
  }

  /** SEP-41 `transfer` refuses negative amounts, missing funds and a receiver past i128. */
  predicate CanMove(b: map<(Address, Address), int>, token: Address, src: Address, dst: Address, amount: int) {
    && 0 <= amount <= Bal(b, token, src)
    && Bal(b[(token, src) := Bal(b, token, src) - amount], token, dst) + amount <= I128_MAX
  }

  function Moved(b: map<(Address, Address), int>, token: Address, src: Address, dst: Address, amount: int)
    : map<(Address, Address), int>
  {
    var debited := b[(token, src) := Bal(b, token, src) - amount];
    debited[(token, dst) := Bal(debited, token, dst) + amount]
  }

  // ----- fees -----

  predicate Qualifies(c: Config, volume: int, i: nat) {
    volume >= Get(c.tierThreshold, i, 0)
  }

  function Discount(c: Config, i: nat): nat {
    Get(c.tierDiscount, i, 0)
  }

  /** Best discount among the first `n` tiers. */
  function BestDiscount(c: Config, volume: int, n: nat): nat {
    if n == 0 then 0
    else
      var best := BestDiscount(c, volume, n - 1);
      if Qualifies(c, volume, n - 1) && Discount(c, n - 1) > best then Discount(c, n - 1) else best
  }

  function Volume(b: Books, user: Address, token: Address): int {
    Get(b.userVolume, (user, token), 0)
  }

  function RebateBps(s: State, user: Address, token: Address): nat {
    BestDiscount(s.config, Volume(s.books, user, token), s.config.tierCount)
  }

  function SaturatingSub(a: nat, b: nat): nat {
    if a >= b then a - b else 0
  }

  function EffectiveBps(feeBps: nat, discount: nat): nat {
    SaturatingSub(feeBps, feeBps * discount / 10000)
  }

  function FeeOn(amount: int, bps: nat): int {
    if bps > 0 then amount * bps / 10000 else 0
  }

  function BpsFor(s: State, source: Address, token: Address): nat {
    EffectiveBps(s.config.feeBps, RebateBps(s, source, token))
  }

  function FeeFor(s: State, source: Address, token: Address, amount: int): int {
    FeeOn(amount, BpsFor(s, source, token))
  }

  /** The u32 and i128 products of the fee computation are in range. */
  predicate FeeFits(s: State, source: Address, token: Address, amount: int) {
    && s.config.feeBps * RebateBps(s, source, token) <= U32_MAX
    && amount * BpsFor(s, source, token) <= I128_MAX
  }

  // ----- funding -----

  predicate CountsTokenFee(c: Config, token: Address, fee: int) {
    fee > 0 && Get(c.whitelist, token, false)
  }

  /** The per-token share of a fee. */
  function TokenFee(c: Config, token: Address, fee: int): int {
    fee * Get(c.rates, token, 10000) / 10000
  }

  predicate AccrualFits(c: Config, b: Books, token: Address, fee: int) {
    && (fee > 0 ==> b.accumulatedFees + fee <= I128_MAX)
    && (CountsTokenFee(c, token, fee) ==>
          && fee * Get(c.rates, token, 10000) <= I128_MAX
          && Get(b.feesByToken, token, 0) + TokenFee(c, token, fee) <= I128_MAX)
  }

  function Accrued(c: Config, b: Books, token: Address, fee: int): Books {
    if fee <= 0 then b
    else if !CountsTokenFee(c, token, fee) then b.(accumulatedFees := b.accumulatedFees + fee)
    else b.(accumulatedFees := b.accumulatedFees + fee,
            feesByToken := b.feesByToken[token := Get(b.feesByToken, token, 0) + TokenFee(c, token, fee)])
  }

  predicate RecordFits(b: Books, r: FundingRecord) {
    && Volume(b, r.source, r.token) + r.amount <= I128_MAX
    && b.fundingCount + 1 <= U32_MAX
    && b.hotCount + 1 <= U32_MAX
    && b.totalVolume + r.amount <= I128_MAX
    && Get(b.volumeByToken, r.token, 0) + r.amount <= I128_MAX
    && (r.source in b.funders || b.funderCount + 1 <= U64_MAX)
  }

  function Recorded(b: Books, r: FundingRecord): Books {
    b.(userVolume := b.userVolume[(r.source, r.token) := Volume(b, r.source, r.token) + r.amount],
       fundingCount := b.fundingCount + 1,
       records := b.records[b.fundingCount + 1 := r],
       hotCount := b.hotCount + 1,
       totalVolume := b.totalVolume + r.amount,
       volumeByToken := b.volumeByToken[r.token := Get(b.volumeByToken, r.token, 0) + r.amount],
       funders := b.funders + {r.source},
       funderCount := if r.source in b.funders then b.funderCount else b.funderCount + 1)
  }

  function RecordOf(s: State, source: Address, target: Address, token: Address, amount: int, memo: seq<byte>): FundingRecord {
    FundingRecord(source, target, token, amount, FeeFor(s, source, token, amount), s.ledger, memo, false)
  }

  /** The bridge collects the whole amount, then pays the target what is left after the fee. */
  function Collected(s: State, source: Address, token: Address, amount: int): map<(Address, Address), int> {
    Moved(s.balances, token, source, s.self, amount)
  }

  predicate FundFits(s: State, r: FundingRecord) {
    && r.amount <= MAX_SAFE_AMOUNT && |r.memo| <= MAX_MEMO_BYTES
    && FeeFits(s, r.source, r.token, r.amount)
    && CanMove(s.balances, r.token, r.source, s.self, r.amount)
    && AccrualFits(s.config, s.books, r.token, r.fee)
    && CanMove(Collected(s, r.source, r.token, r.amount), r.token, s.self, r.target, r.amount - r.fee)
    && RecordFits(Accrued(s.config, s.books, r.token, r.fee), r)
  }

  function Funded(s: State, r: FundingRecord): State {
    s.(books := Recorded(Accrued(s.config, s.books, r.token, r.fee), r),
       balances := Moved(Collected(s, r.source, r.token, r.amount), r.token, s.self, r.target, r.amount - r.fee))
  }

  function FundInternal(s: State, source: Address, target: Address, token: Address, amount: int, memo: seq<byte>)
    : Result<(State, int)>
  {
    var r := RecordOf(s, source, target, token, amount, memo);
    if amount < s.config.minAmount then Err(AmountBelowMinimum)
    else if amount > s.config.maxAmount then Err(AmountAboveMaximum)
    else if !FundFits(s, r) then Err(Panicked)
    else Ok((Funded(s, r), r.fee))
  }

  function FundChecked(s: State, source: Address, target: Address, token: Address, amount: int, memo: seq<byte>)
    : Result<(State, int)>
  {
    if !target.Contract? then Err(InvalidCAddress)
    else if amount <= 0 then Err(AmountNotPositive)
    else if s.config.paused then Err(ContractPaused)
    else FundInternal(s, source, target, token, amount, memo)
  }

  /** The first `n` items of a batch, one after the other; any failure fails the batch. */
  function BatchItems(s: State, source: Address, targets: seq<Address>, tokens: seq<Address>,
                      amounts: seq<int>, memos: seq<seq<byte>>, n: nat): Result<(State, int)>
    requires n <= |targets| == |tokens| == |amounts| == |memos|
  {
    if n == 0 then Ok((s, 0))
    else
      match BatchItems(s, source, targets, tokens, amounts, memos, n - 1)
      case Err(e) => Err(e)
      case Ok((mid, fees)) =>
        match FundInternal(mid, source, targets[n - 1], tokens[n - 1], amounts[n - 1], memos[n - 1])
        case Err(e) => Err(e)
        case Ok((end, fee)) => if fees + fee > I128_MAX then Err(Panicked) else Ok((end, fees + fee))
  }

  function Batch(s: State, source: Address, targets: seq<Address>, tokens: seq<Address>,
                 amounts: seq<int>, memos: seq<seq<byte>>): Result<(State, int)>
  {
    if |targets| == 0 then Err(EmptyBatch)
    else if |tokens| != |targets| || |amounts| != |targets| || |memos| != |targets| then Err(MismatchedBatchLengths)
    else if exists i :: 0 <= i < |targets| && !targets[i].Contract? then Err(InvalidCAddress)
    else BatchItems(s, source, targets, tokens, amounts, memos, |targets|)
  }

  // ----- archiving -----

  function ArchivedOne(b: Books, id: nat): Books
    requires id in b.records
  {
    b.(hotCount := if b.records[id].archived then b.hotCount else SaturatingSub(b.hotCount, 1),
       records := b.records[id := b.records[id].(archived := true)])
  }

  /** Ids `first .. first + n` get their flag set where a record is stored. */
  function ArchiveRange(b: Books, first: nat, n: nat): (r: Books)
    ensures r == b.(hotCount := r.hotCount, records := r.records)
    ensures r.records.Keys == b.records.Keys
  {
    if n == 0 then b
    else
      var mid := ArchiveRange(b, first, n - 1);
      if first + n - 1 in mid.records then ArchivedOne(mid, first + n - 1) else mid
  }

  function Archive(b: Books, count: nat): Result<Books> {
    var n := if count > b.fundingCount then b.fundingCount else count;
    if n == 0 then Err(NoEntriesToArchive)
    else if b.nextArchiveRecordId + n > U32_MAX || b.nextArchiveId + 1 > U32_MAX then Err(Panicked)
    else
      var done := ArchiveRange(b, b.nextArchiveRecordId, n);
      Ok(done.(nextArchiveId := b.nextArchiveId + 1, nextArchiveRecordId := b.nextArchiveRecordId + n))
  }

  // ----- governance -----

  function DoInitialize(s: State, admins: seq<Address>, threshold: nat, feeBps: nat, maxFeeBps: nat,
                        minAmount: int, maxAmount: int): Result<(State, int)>
  {
    if s.initialized then Ok((s, 0))
    else if |admins| == 0 then Err(AdminsEmpty)
    else if threshold == 0 then Err(ThresholdZero)
    else if threshold > |admins| then Err(ThresholdExceedsAdminCount)
    else if maxFeeBps > 10000 then Err(MaxFeeExceedsLimit)
    else if feeBps > maxFeeBps then Err(FeeExceedsMaxFee)
    else if minAmount <= 0 then Err(MinAmountInvalid)
    else if maxAmount < minAmount then Err(MaxAmountBelowMinimum)
    else if s.self in admins then Err(AdminCannotBeContract)
    else Ok((s.(initialized := true,
                config := s.config.(
                  admins := admins, threshold := threshold, feeBps := feeBps, maxFeeBps := maxFeeBps,
                  params := InitParams(threshold, feeBps, maxFeeBps, |admins|),
                  minAmount := minAmount, maxAmount := maxAmount, paused := false),
                books := s.books.(
                  accumulatedFees := 0, fundingCount := 0, hotCount := 0, nextArchiveId := 0,
                  nextArchiveRecordId := 1, totalVolume := 0, funderCount := 0),
                gov := s.gov.(nonce := 0, activeIds := [], nextPruneId := 1)), 0))
  }

  function DoPropose(s: State, proposer: Address, action: Action, expiryBlocks: nat): Result<(State, int)> {
    if !s.initialized then Err(NotInitialized)
    else if proposer !in s.config.admins then Err(OnlyAdminsCanPropose)
    else if expiryBlocks < 10 then Err(ExpiryTooShort)
    else if expiryBlocks > 100000 then Err(ExpiryTooLong)
    else if s.gov.nonce + 1 > U32_MAX || s.ledger + expiryBlocks > U32_MAX then Err(Panicked)
    else
      var id := s.gov.nonce + 1;
      var p := Proposal(id, action, proposer, 1, false, s.ledger + expiryBlocks, s.ledger);
      Ok((s.(gov := s.gov.(
               nonce := id, proposals := s.gov.proposals[id := p],
               approvals := s.gov.approvals + {(id, proposer)}, activeIds := s.gov.activeIds + [id])), id))
  }

  function DoApprove(s: State, admin: Address, id: nat): Result<(State, int)> {
    if !s.initialized then Err(NotInitialized)
    else if admin !in s.config.admins then Err(OnlyAdminsCanApprove)
    else if id !in s.gov.proposals then Err(ProposalNotFound)
    else
      var p := s.gov.proposals[id];
      if s.ledger > p.expiry then Err(ProposalExpired)
      else if p.executed then Err(ProposalAlreadyExecuted)
      else if (id, admin) in s.gov.approvals || p.approvalCount + 1 > U32_MAX then Err(Panicked)
      else Ok((s.(gov := s.gov.(
                    proposals := s.gov.proposals[id := p.(approvalCount := p.approvalCount + 1)],
                    approvals := s.gov.approvals + {(id, admin)})), 0))
  }

  predicate Sensitive(a: Action) {
    a.WithdrawFees? || a.SetFee? || a.Pause? || a.Unpause? || a.RotateAdmins? || a.SetThreshold?
  }

  /** The checks every execution passes, whatever its action. */
  function Gate(s: State, id: nat): Result<Proposal> {
    if !s.initialized then Err(NotInitialized)
    else if id !in s.gov.proposals then Err(ProposalNotFound)
    else
      var p := s.gov.proposals[id];
      if s.ledger > p.expiry then Err(ProposalExpired)
      else if p.executed then Err(ProposalAlreadyExecuted)
      else if p.approvalCount < s.config.threshold then Err(InsufficientApprovals)
      else if Sensitive(p.action) && s.ledger < p.proposedAt + MIN_EXEC_DELAY then Err(ExecutionTooSoon)
      else Ok(p)
  }

  function Without(ids: seq<nat>, id: nat): seq<nat> {
    if |ids| == 0 then []
    else
      var front := Without(ids[..|ids| - 1], id);
      if ids[|ids| - 1] != id then front + [ids[|ids| - 1]] else front
  }

  /** What a withdrawal takes off the token's counter; `amount` 0 means all of it. */
  function FromToken(b: Books, token: Address, amount: int): int {
    if amount == 0 then Get(b.feesByToken, token, 0) else amount
  }

  /** What it takes off the total and pays out; `amount` 0 means all of the total. */
  function FromTotal(b: Books, amount: int): int {
    if amount == 0 then b.accumulatedFees else amount
  }

  function Withdraw(s: State, to: Address, token: Address, amount: int): Result<(State, int)> {
    var tokenFees := Get(s.books.feesByToken, token, 0);
    var paid := FromTotal(s.books, amount);
    if FromToken(s.books, token, amount) > tokenFees then Err(Panicked)
    else if paid > s.books.accumulatedFees then Err(InsufficientAccumulatedFees)
    else if !CanMove(s.balances, token, s.self, to, paid) then Err(Panicked)
    else Ok((s.(books := s.books.(
                  feesByToken := s.books.feesByToken[token := tokenFees - FromToken(s.books, token, amount)],
                  accumulatedFees := s.books.accumulatedFees - paid),
                balances := Moved(s.balances, token, s.self, to, paid)), paid))
  }

  function Act(s: State, a: Action): Result<(State, int)> {
    match a
    case SetFee(bps) =>
      if bps > s.config.maxFeeBps then Err(FeeExceedsMaxFee)
      else Ok((s.(config := s.config.(feeBps := bps, params := s.config.params.(feeBps := bps))), 0))
    case SetFeeTokenWhitelist(token, enabled) =>
      Ok((s.(config := s.config.(whitelist := s.config.whitelist[token := enabled])), 0))
    case SetFeeTokenRate(token, rate) =>
      if rate < 1000 || rate > 20000 then Err(Panicked)
      else Ok((s.(config := s.config.(rates := s.config.rates[token := rate])), 0))
    case WithdrawFees(to, token, amount) => Withdraw(s, to, token, amount)
    case Pause => Ok((s.(config := s.config.(paused := true)), 0))
    case Unpause => Ok((s.(config := s.config.(paused := false)), 0))
    case RotateAdmins(admins) =>
      if |admins| == 0 then Err(AdminsEmpty)
      else if s.self in admins then Err(AdminCannotBeContract)
      else if s.config.threshold > |admins| then Err(ThresholdExceedsAdminCount)
      else Ok((s.(config := s.config.(admins := admins)), 0))
    case SetThreshold(threshold) =>
      if threshold == 0 then Err(ThresholdZero)
      else if threshold > |s.config.admins| then Err(ThresholdExceedsAdminCount)
      else Ok((s.(config := s.config.(threshold := threshold)), 0))
    case ArchiveOldEntries(count) =>
      (match Archive(s.books, count)
       case Err(e) => Err(e)
       case Ok(books) => Ok((s.(books := books), 0)))
    case SetRebateTier(index, volume, discountBps) =>
      if discountBps > 5000 || index >= MAX_TIERS then Err(Panicked)
      else Ok((s.(config := s.config.(
                    tierThreshold := s.config.tierThreshold[index := volume],
                    tierDiscount := s.config.tierDiscount[index := discountBps],
                    tierCount := if index >= s.config.tierCount then index + 1 else s.config.tierCount)), 0))
  }

  function MarkExecuted(g: Governance, id: nat): Governance
    requires id in g.proposals
  {
    g.(proposals := g.proposals[id := g.proposals[id].(executed := true)], activeIds := Without(g.activeIds, id))
  }

  function DoExecute(s: State, id: nat): Result<(State, int)> {
    match Gate(s, id)
    case Err(e) => Err(e)
    case Ok(p) => Act(s.(gov := MarkExecuted(s.gov, id)), p.action)
  }

  predicate LiveAt(p: Proposal, ledger: nat) {
    !p.executed && ledger <= p.expiry
  }

  predicate Live(s: State, id: nat) {
    id in s.gov.proposals && LiveAt(s.gov.proposals[id], s.ledger)
  }

  /** The ids among the first `n` of the index whose proposal is stored and live. */
  function LiveIds(g: Governance, ledger: nat, n: nat): seq<nat>
    requires n <= |g.activeIds|
  {
    if n == 0 then []
    else
      var front := LiveIds(g, ledger, n - 1);
      var id := g.activeIds[n - 1];
      if id in g.proposals && LiveAt(g.proposals[id], ledger) then front + [id] else front
  }

  function DoGetActive(s: State): State {
    s.(gov := s.gov.(activeIds := LiveIds(s.gov, s.ledger, |s.gov.activeIds|)))
  }

  /** Drops proposal `id` with the flags of the current admins and of its proposer. */
  function Drop(g: Governance, id: nat, admins: seq<Address>): Governance
    requires id in g.proposals
  {
    g.(proposals := g.proposals - {id},
       approvals := g.approvals - (set a | a in admins :: (id, a)) - {(id, g.proposals[id].proposer)})
  }

  /** At most `scans` rounds of the sweep from `cursor`: the swept storage, the new cursor and the number pruned. */
  function Sweep(g: Governance, admins: seq<Address>, ledger: nat, cursor: nat, scans: nat): (Governance, nat, nat)
    decreases scans
  {
    if scans == 0 || cursor > g.nonce then (g, cursor, 0)
    else if cursor !in g.proposals then Sweep(g, admins, ledger, cursor + 1, scans - 1)
    else if LiveAt(g.proposals[cursor], ledger) then (g, cursor, 0)
    else
      var (swept, end, pruned) := Sweep(Drop(g, cursor, admins), admins, ledger, cursor + 1, scans - 1);
      (swept, end, pruned + 1)
  }

  function DoPrune(s: State, maxScan: nat): Result<(State, int)> {
    if !s.initialized then Err(NotInitialized)
    else
      var (swept, cursor, pruned) := Sweep(s.gov, s.config.admins, s.ledger, s.gov.nextPruneId, maxScan);
      if cursor > U32_MAX then Err(Panicked)
      else Ok((s.(gov := swept.(nextPruneId := cursor)), pruned))
  }

  // ----- the contract as a state machine -----

  function Step(s: State, c: Call): Result<(State, int)> {
    match c
    case Initialize(admins, threshold, feeBps, maxFeeBps, minAmount, maxAmount) =>
      DoInitialize(s, admins, threshold, feeBps, maxFeeBps, minAmount, maxAmount)
    case Fund(source, target, token, amount, memo) => FundChecked(s, source, target, token, amount, memo)
    case BatchFund(source, targets, tokens, amounts, memos) => Batch(s, source, targets, tokens, amounts, memos)
    case RouteFromExchange(source, target, token, amount, memo) => FundChecked(s, source, target, token, amount, memo)
    case Propose(proposer, action, expiryBlocks) => DoPropose(s, proposer, action, expiryBlocks)
    case Approve(admin, id) => DoApprove(s, admin, id)
    case Execute(id) => DoExecute(s, id)
    case GetActiveProposals => Ok((DoGetActive(s), 0))
    case PruneProposals(maxScan) => DoPrune(s, maxScan)
    case Tick(ledgers) => if s.ledger + ledgers > U32_MAX then Err(Panicked) else Ok((s.(ledger := s.ledger + ledgers), 0))
    case TokenTransfer(token, holder, to, amount) =>
      if holder == s.self || !CanMove(s.balances, token, holder, to, amount) then Err(Panicked)
      else Ok((s.(balances := Moved(s.balances, token, holder, to, amount)), 0))
    case Mint(token, to, amount) =>
      if amount < 0 || Bal(s.balances, token, to) + amount > I128_MAX then Err(Panicked)
      else Ok((s.(balances := s.balances[(token, to) := Bal(s.balances, token, to) + amount]), 0))
  }

  /** The state after a call: a failed call leaves every key as it was. */
  function Next(s: State, c: Call): State {
    var r := Step(s, c);
    if r.Ok? then r.value.0 else s
  }

  function Reply(s: State, c: Call): Result<int> {
    var r := Step(s, c);
    if r.Ok? then Ok(r.value.1) else Err(r.error)
  }

  function Run(s: State, calls: seq<Call>): State {
    if |calls| == 0 then s else Next(Run(s, calls[..|calls| - 1]), calls[|calls| - 1])
  }
}
