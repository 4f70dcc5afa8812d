/** Storage layout, error codes and entry points of the onboarding-bridge contract. */
module BridgeTypes {

  const U32_MAX: int := 0xFFFF_FFFF
  const U64_MAX: int := 0xFFFF_FFFF_FFFF_FFFF
  const I128_MAX: int := 0x7FFF_FFFF_FFFF_FFFF_FFFF_FFFF_FFFF_FFFF

  const MIN_EXEC_DELAY := 10
  const MAX_SAFE_AMOUNT := I128_MAX / 10000
  const MAX_TIERS := 50
  const MAX_MEMO_BYTES := 64

  newtype byte = x: int | 0 <= x < 256

  /** A strkey: `G...` for a classic account, `C...` for a contract. */
  datatype Address = Account(n: nat) | Contract(n: nat)

  /** `Panicked` is a failed `assert!`, a checked-arithmetic overflow or a trap in the token contract. */
  datatype BridgeError =
    | NotInitialized | AdminsEmpty | ThresholdZero | ThresholdExceedsAdminCount
    | MaxFeeExceedsLimit | FeeExceedsMaxFee | MinAmountInvalid | MaxAmountBelowMinimum
    | AdminCannotBeContract | InvalidCAddress | AmountNotPositive | ContractPaused
    | AmountBelowMinimum | AmountAboveMaximum | EmptyBatch | MismatchedBatchLengths
    | NoEntriesToArchive | OnlyAdminsCanPropose | ExpiryTooShort | ExpiryTooLong
    | OnlyAdminsCanApprove | ProposalNotFound | ProposalExpired | ProposalAlreadyExecuted
    | InsufficientApprovals | ExecutionTooSoon | InsufficientAccumulatedFees
    | Panicked

  datatype Result<+T> = Ok(value: T) | Err(error: BridgeError)

  datatype FundingRecord = FundingRecord(
    source: Address, target: Address, token: Address,
    amount: int, fee: int, ledger: nat, memo: seq<byte>, archived: bool)

  datatype Action =
    | SetFee(feeBps: nat)
    | SetFeeTokenWhitelist(token: Address, enabled: bool)
    | SetFeeTokenRate(token: Address, rate: nat)
    | WithdrawFees(to: Address, token: Address, amount: int)
    | Pause
    | Unpause
    | RotateAdmins(admins: seq<Address>)
    | SetThreshold(threshold: nat)
    | ArchiveOldEntries(count: nat)
    | SetRebateTier(index: nat, volume: int, discountBps: nat)

  datatype Proposal = Proposal(
    id: nat, action: Action, proposer: Address, approvalCount: nat,
    executed: bool, expiry: nat, proposedAt: nat)

  datatype InitParams = InitParams(threshold: nat, feeBps: nat, maxFeeBps: nat, adminCount: nat)

  /** Parameters that only `initialize` and executed proposals write. */
  datatype Config = Config(
    admins: seq<Address>, threshold: nat, feeBps: nat, maxFeeBps: nat, params: InitParams,
    minAmount: int, maxAmount: int, paused: bool,
    whitelist: map<Address, bool>, rates: map<Address, nat>,
    tierCount: nat, tierThreshold: map<nat, int>, tierDiscount: map<nat, nat>)

  /** Funding records and the counters kept beside them. Volumes are keyed by (user, token). */
  datatype Books = Books(
    accumulatedFees: int, feesByToken: map<Address, int>,
    userVolume: map<(Address, Address), int>,
    fundingCount: nat, hotCount: nat, records: map<nat, FundingRecord>,
    totalVolume: int, volumeByToken: map<Address, int>,
    funders: set<Address>, funderCount: nat,
    nextArchiveId: nat, nextArchiveRecordId: nat)

  /** Proposals, approval flags (id, admin), the active index and the pruning cursor. */
  datatype Governance = Governance(
    nonce: nat, proposals: map<nat, Proposal>, approvals: set<(nat, Address)>,
    activeIds: seq<nat>, nextPruneId: nat)

  /** Token balances are keyed by (token, holder). A key never written reads as its `unwrap_or` default. */
  datatype State = State(
    self: Address, ledger: nat, initialized: bool,
    config: Config, books: Books, gov: Governance,
    balances: map<(Address, Address), int>)

  /** Entry points, then the two ways the world around the contract moves: time and other token traffic. */
  datatype Call =
    | Initialize(admins: seq<Address>, threshold: nat, feeBps: nat, maxFeeBps: nat, minAmount: int, maxAmount: int)
    | Fund(source: Address, target: Address, token: Address, amount: int, memo: seq<byte>)
    | BatchFund(source: Address, targets: seq<Address>, tokens: seq<Address>, amounts: seq<int>, memos: seq<seq<byte>>)
    | RouteFromExchange(source: Address, target: Address, token: Address, amount: int, memo: seq<byte>)
    | Propose(proposer: Address, action: Action, expiryBlocks: nat)
    | Approve(admin: Address, id: nat)
    | Execute(id: nat)
    | GetActiveProposals
    | PruneProposals(maxScan: nat)
    | Tick(ledgers: nat)
    | TokenTransfer(token: Address, holder: Address, to: Address, amount: int)
    | Mint(token: Address, to: Address, amount: int)

  function Get<K, V>(m: map<K, V>, k: K, default: V): V {
    if k in m then m[k] else default
  }

  /** What storage reads as before `initialize`, at ledger `ledger`. */
  function Deployed(self: Address, ledger: nat): State {
    State(self, ledger, false,
          Config([], 0, 0, 0, InitParams(0, 0, 0, 0), 1, I128_MAX, false, map[], map[], 0, map[], map[]),
          Books(0, map[], map[], 0, 0, map[], 0, map[], {}, 0, 0, 1),
          Governance(0, map[], {}, [], 1),
          map[])
  }
}
