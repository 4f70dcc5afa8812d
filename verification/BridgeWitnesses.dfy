/** Runs from deployment that reach what the other modules describe. */
module BridgeWitnesses {
  import opened BridgeTypes
  import opened BridgeSpec
  import opened BridgeGovernance
  import opened ProposalLifecycle
  import opened BridgeActions
  import opened BridgeBooks
  import opened BridgeCustody
  import opened BridgeWithdrawals
  import opened BridgeArchive
  import opened GovernanceLiveness

  // ----- building runs -----

  /** A sole admin carries out an action: propose it, wait, execute. */
  function Passing(s: State, admin: Address, action: Action): seq<Call> {
    [Propose(admin, action, 10), Tick(10), Execute(s.gov.nonce + 1)]
  }

  lemma ActIgnoresGov(s: State, g: Governance, ledger: nat, a: Action)
    requires Act(s, a).Ok?
    ensures var (s', paid) := Act(s, a).value;
            Act(s.(gov := g, ledger := ledger), a) == Ok((s'.(gov := g, ledger := ledger), paid))
  {
    hide CanMove, Moved, ArchiveRange;
  }


  lemma PassesAlone(s: State, admin: Address, action: Action)
    requires Inv(s) && s.initialized && s.config.threshold == 1 && admin in s.config.admins && CanPropose(s)
    requires Act(s, action).Ok?
    ensures var s' := Run(s, Passing(s, admin, action));
            && Inv(s') && s'.initialized
            && s'.gov.nonce == s.gov.nonce + 1
            && s' == Act(s, action).value.0.(gov := s'.gov, ledger := s.ledger + 10)
  {
    hide Act, Inv, Next, Step, Gate, MarkExecuted;
    var id := s.gov.nonce + 1;
    var waited := Next(Next(s, Propose(admin, action, 10)), Tick(10));
    RunThree(s, Propose(admin, action, 10), Tick(10), Execute(id));
    RunKeepsInv(s, Passing(s, admin, action));
    ProposedAndWaited(s, admin, action);
    ExecutesAs(s, waited, id, action);
  }

  lemma ProposedAndWaited(s: State, admin: Address, action: Action)
    requires s.initialized && s.config.threshold == 1 && admin in s.config.admins && CanPropose(s)
    ensures var waited := Next(Next(s, Propose(admin, action, 10)), Tick(10));
            && waited == s.(gov := waited.gov, ledger := s.ledger + 10)
            && waited.gov.nonce == s.gov.nonce + 1
            && Gate(waited, s.gov.nonce + 1).Ok? && Gate(waited, s.gov.nonce + 1).value.action == action
  {
    hide FundInternal, Act;
  }

  lemma ExecutesAs(s: State, waited: State, id: nat, action: Action)
    requires waited == s.(gov := waited.gov, ledger := waited.ledger)
    requires Act(s, action).Ok? && Gate(waited, id).Ok? && Gate(waited, id).value.action == action
    ensures var s' := Next(waited, Execute(id));
            && s' == Act(s, action).value.0.(gov := s'.gov, ledger := waited.ledger)
            && s'.gov.nonce == waited.gov.nonce && s'.initialized == s.initialized
            && Step(waited, Execute(id)).Ok? && Step(waited, Execute(id)).value.1 == Act(s, action).value.1
  {
    hide Act;
    var marked := waited.(gov := MarkExecuted(waited.gov, id));
    ActIgnoresGov(s, marked.gov, waited.ledger, action);
    assert marked == s.(gov := marked.gov, ledger := waited.ledger);
    ActFrame(s, action);
  }

  lemma RunThree(s: State, a: Call, b: Call, c: Call)
    ensures Run(s, [a, b, c]) == Next(Next(Next(s, a), b), c)
  {
    hide Next;
    RunCons(s, a, [b, c]);
    assert [a] + [b, c] == [a, b, c];
    RunCons(Next(s, a), b, [c]);
    assert [b] + [c] == [b, c];
    RunCons(Next(Next(s, a), b), c, []);
    assert [c] + [] == [c];
  }

  function Opening(a: Address, feeBps: nat): Call {
    Initialize([a], 1, feeBps, feeBps, 1, I128_MAX)
  }

  /** Just initialized by one admin, with the fee at its cap. */
  function Opened(self: Address, ledger: nat, a: Address, feeBps: nat): State {
    var s := Deployed(self, ledger);
    s.(initialized := true,
       config := s.config.(admins := [a], threshold := 1, feeBps := feeBps, maxFeeBps := feeBps,
                           params := InitParams(1, feeBps, feeBps, 1)))
  }

  lemma Opens(self: Address, ledger: nat, a: Address, feeBps: nat)
    requires a != self && feeBps <= 10000
    ensures Next(Deployed(self, ledger), Opening(a, feeBps)) == Opened(self, ledger, a, feeBps)
    ensures Inv(Opened(self, ledger, a, feeBps))
  {
    StepKeepsInv(Deployed(self, ledger), Opening(a, feeBps));
    hide Inv;
  }

  lemma RunOne(s: State, c: Call)
    ensures Run(s, [c]) == Next(s, c)
  {
    hide Next;
    assert [c][..0] == [];
  }

  // ----- fundings far from any limit -----

  /** Balances and volumes up to `n`, counts up to `k`. */
  ghost predicate Light(s: State, n: int, k: nat) {
    && (forall t, h :: 0 <= Bal(s.balances, t, h) <= n)
    && s.books.accumulatedFees <= n && s.books.totalVolume <= n
    && (forall t :: Get(s.books.feesByToken, t, 0) <= n && Get(s.books.volumeByToken, t, 0) <= n)
    && (forall u, t :: Volume(s.books, u, t) <= n)
    && s.books.fundingCount <= k && s.books.hotCount <= k && s.books.funderCount <= k
  }

  lemma LightFunds(s: State, source: Address, target: Address, token: Address, amount: int)
    requires Inv(s) && Light(s, MAX_SAFE_AMOUNT, 1000) && source != s.self
    requires s.config.minAmount <= amount <= s.config.maxAmount && amount <= MAX_SAFE_AMOUNT
    requires amount <= Bal(s.balances, token, source) && Get(s.config.rates, token, 10000) <= 10000
    ensures FundInternal(s, source, target, token, amount, []).Ok?
  {
    FeeInRange(s, source, token, amount);
    var r := RecordOf(s, source, target, token, amount, []);
    assert s.config.minAmount >= 1 && 0 <= r.fee <= amount;
    LightMoves(s, source, target, token, amount, r.fee);
    LightRecords(s, r);
    hide Inv, FeeFor, FeeFits, Moved, CanMove, AccrualFits, RecordFits, Accrued;
  }

  lemma LightMoves(s: State, source: Address, target: Address, token: Address, amount: int, fee: int)
    requires Light(s, MAX_SAFE_AMOUNT, 1000) && source != s.self
    requires 0 <= fee <= amount <= MAX_SAFE_AMOUNT && amount <= Bal(s.balances, token, source)
    ensures CanMove(s.balances, token, source, s.self, amount)
    ensures CanMove(Collected(s, source, token, amount), token, s.self, target, amount - fee)
  {
    MovedExact(s.balances, token, source, s.self, amount);
    assert 0 <= Bal(s.balances, token, s.self) <= MAX_SAFE_AMOUNT && 0 <= Bal(s.balances, token, target) <= MAX_SAFE_AMOUNT;
    hide Moved, Light;
  }

  lemma LightRecords(s: State, r: FundingRecord)
    requires Light(s, MAX_SAFE_AMOUNT, 1000) && Get(s.config.rates, r.token, 10000) <= 10000
    requires 0 <= r.fee <= r.amount <= MAX_SAFE_AMOUNT
    ensures AccrualFits(s.config, s.books, r.token, r.fee)
    ensures RecordFits(Accrued(s.config, s.books, r.token, r.fee), r)
  {
    ParRoom(r.fee, Get(s.config.rates, r.token, 10000));
    assert Get(s.books.feesByToken, r.token, 0) <= MAX_SAFE_AMOUNT && Get(s.books.volumeByToken, r.token, 0) <= MAX_SAFE_AMOUNT;
    assert Volume(s.books, r.source, r.token) <= MAX_SAFE_AMOUNT;
    hide Light;
  }

  lemma ParRoom(fee: int, rate: nat)
    requires 0 <= fee <= MAX_SAFE_AMOUNT && rate <= 10000
    ensures fee * rate <= I128_MAX && 0 <= fee * rate / 10000 <= MAX_SAFE_AMOUNT
  {
    Times(fee, 0, rate);
    Times(fee, rate, 10000);
  }

  // ----- the fee and token-rate product -----

  /**
   * Under any cap above 50%, a run that only initializes, mints, whitelists and raises the display rate makes a funding
   * panic that was accepted before the rate was raised. Nothing else differs, and the product is the reason.
   */
  lemma TokenRatePanics(self: Address, ledger: nat, a: Address, source: Address, target: Address, token: Address, cap: nat)
    returns (calls: seq<Call>, more: seq<Call>)
    requires a != self && source != self && target.Contract? && 5000 < cap <= 10000 && ledger + 20 <= U32_MAX
    ensures var fund := Fund(source, target, token, MAX_SAFE_AMOUNT, []);
            var before, after := Run(Deployed(self, ledger), calls), Run(Deployed(self, ledger), calls + more);
            && Step(before, fund).Ok? && Step(after, fund) == Err(Panicked)
            && after == before.(config := before.config.(rates := before.config.rates[token := 20000]),
                                gov := after.gov, ledger := after.ledger)
            && CountsTokenFee(after.config, token, FeeFor(after, source, token, MAX_SAFE_AMOUNT))
            && FeeFor(after, source, token, MAX_SAFE_AMOUNT) * Get(after.config.rates, token, 10000) > I128_MAX
  {
    calls := WhitelistedRun(self, ledger, a, source, token, cap, MAX_SAFE_AMOUNT);
    var s, rate := Run(Deployed(self, ledger), calls), SetFeeTokenRate(token, 20000);
    more := Passing(s, a, rate);
    PassesAlone(s, a, rate);
    RunConcat(Deployed(self, ledger), calls, more);
    hide Run, Passing, Inv;
    RateRaised(s, Run(s, more), source, target, token, cap);
  }

  /** One whitelisted token, and a source that holds some of it. */
  lemma WhitelistedRun(self: Address, ledger: nat, a: Address, source: Address, token: Address, cap: nat, amount: int)
    returns (calls: seq<Call>)
    requires a != self && cap <= 10000 && ledger + 10 <= U32_MAX && 0 <= amount <= MAX_SAFE_AMOUNT
    ensures var s, s1 := Run(Deployed(self, ledger), calls), Opened(self, ledger, a, cap);
            && Inv(s)
            && s == s1.(config := s1.config.(whitelist := map[token := true]), gov := s.gov, ledger := ledger + 10,
                        balances := map[(token, source) := amount])
            && s.gov.nonce == 1
  {
    var s1, mint, whitelist := Opened(self, ledger, a, cap), Mint(token, source, amount), SetFeeTokenWhitelist(token, true);
    var s2 := Next(s1, mint);
    Opens(self, ledger, a, cap);
    StepKeepsInv(s1, mint);
    Minted(s1, token, source, amount);
    hide Inv, Next;
    PassesAlone(s2, a, whitelist);
    calls := [Opening(a, cap), mint] + Passing(s2, a, whitelist);
    RunTwo(Deployed(self, ledger), Opening(a, cap), mint);
    RunConcat(Deployed(self, ledger), [Opening(a, cap), mint], Passing(s2, a, whitelist));
  }

  lemma RunTwo(s: State, a: Call, b: Call)
    ensures Run(s, [a, b]) == Next(Next(s, a), b)
  {
    hide Next;
    RunCons(s, a, [b]);
    assert [a] + [b] == [a, b];
    RunOne(Next(s, a), b);
  }

  lemma Minted(s: State, token: Address, to: Address, amount: int)
    requires 0 <= amount && Bal(s.balances, token, to) + amount <= I128_MAX
    ensures Next(s, Mint(token, to, amount)) == s.(balances := s.balances[(token, to) := Bal(s.balances, token, to) + amount])
  {
  }

  lemma RateRaised(s: State, s': State, source: Address, target: Address, token: Address, cap: nat)
    requires Inv(s) && 5000 < cap <= 10000 && source != s.self && target.Contract?
    requires s.config.feeBps == cap && s.config.tierCount == 0 && s.config.rates == map[] && !s.config.paused
    requires s.config.minAmount == 1 && s.config.maxAmount == I128_MAX && Get(s.config.whitelist, token, false)
    requires s.books == Deployed(s.self, s.ledger).books && s.balances == map[(token, source) := MAX_SAFE_AMOUNT]
    requires s' == s.(config := s.config.(rates := map[token := 20000]), gov := s'.gov, ledger := s'.ledger)
    ensures var fund := Fund(source, target, token, MAX_SAFE_AMOUNT, []);
            && Step(s, fund).Ok? && Step(s', fund) == Err(Panicked)
            && CountsTokenFee(s'.config, token, FeeFor(s', source, token, MAX_SAFE_AMOUNT))
            && FeeFor(s', source, token, MAX_SAFE_AMOUNT) * Get(s'.config.rates, token, 10000) > I128_MAX
  {
    hide FeeOn, FeeFor, Inv, FeeFits, Moved, CanMove, RecordFits, FundInternal, AccrualFits, Light;
    StartsLight(s, token, source);
    LightFunds(s, source, target, token, MAX_SAFE_AMOUNT);
    FeeAtCap(s', source, token, cap);
    ProductTooLarge(s'.config, s'.books, token, FeeFor(s', source, token, MAX_SAFE_AMOUNT));
    FundPanics(s', source, target, token, MAX_SAFE_AMOUNT);
  }

  lemma StartsLight(s: State, token: Address, source: Address)
    requires s.books == Deployed(s.self, s.ledger).books && s.balances == map[(token, source) := MAX_SAFE_AMOUNT]
    ensures Light(s, MAX_SAFE_AMOUNT, 1000)
  {
  }

  lemma FeeAtCap(s: State, source: Address, token: Address, cap: nat)
    requires 5000 < cap <= 10000 && s.config.feeBps == cap && s.config.tierCount == 0
    ensures FeeFor(s, source, token, MAX_SAFE_AMOUNT) * 20000 > I128_MAX && FeeFor(s, source, token, MAX_SAFE_AMOUNT) > 0
  {
    LargestFeeOverflows(cap);
    assert BpsFor(s, source, token) == cap;
    hide FeeOn;
  }

  lemma ProductTooLarge(c: Config, b: Books, token: Address, fee: int)
    requires fee > 0 && fee * 20000 > I128_MAX && Get(c.whitelist, token, false) && Get(c.rates, token, 10000) == 20000
    ensures CountsTokenFee(c, token, fee) && !AccrualFits(c, b, token, fee)
  {
  }

  lemma FundPanics(s: State, source: Address, target: Address, token: Address, amount: int)
    requires target.Contract? && amount > 0 && !s.config.paused && s.config.minAmount <= amount <= s.config.maxAmount
    requires !AccrualFits(s.config, s.books, token, FeeFor(s, source, token, amount))
    ensures Step(s, Fund(source, target, token, amount, [])) == Err(Panicked)
  {
    hide FeeFor, AccrualFits;
  }

  // ----- fees stranded by a withdrawal of "all" -----

  /** A funding of one unit at a fee of 100%: all of it is fee, and the whitelisted token's counter gets it. */
  lemma UnitFund(s: State, source: Address, target: Address, token: Address, n: int, k: nat)
    requires Inv(s) && Light(s, n, k) && n <= 100 && k <= 100 && source != s.self && target.Contract?
    requires s.config.feeBps == 10000 && s.config.tierCount == 0 && s.config.rates == map[] && !s.config.paused
    requires s.config.minAmount == 1 && s.config.maxAmount == I128_MAX && Get(s.config.whitelist, token, false)
    requires Bal(s.balances, token, source) >= 1
    ensures var s' := Next(s, Fund(source, target, token, 1, []));
            && Step(s, Fund(source, target, token, 1, [])).Ok?
            && Inv(s') && s' == s.(books := s'.books, balances := s'.balances)
            && s'.books.accumulatedFees == s.books.accumulatedFees + 1
            && s'.books.feesByToken == s.books.feesByToken[token := OwedIn(s, token) + 1]
            && Added(s.books, s'.books)
            && (forall t, h :: Bal(s'.balances, t, h)
                               == Bal(s.balances, t, h) - If(t == token && h == source, 1) + If(t == token && h == s.self, 1))
            && Light(s', n + 1, k + 1)
  {
    var c := Fund(source, target, token, 1, []);
    StepKeepsInv(s, c);
    WholeFee(s, source, token);
    assert Light(s, MAX_SAFE_AMOUNT, 1000);
    LightFunds(s, source, target, token, 1);
    FundMovesExactly(s, source, target, token, 1, []);
    UnitBooks(s, source, target, token, n, k);
    hide Inv, FeeFor, FundFits, Recorded, Accrued, Moved, Bal;
  }

  /** One record more, not archived, and no archive call. */
  predicate Added(b: Books, b': Books) {
    && b'.fundingCount == b.fundingCount + 1
    && b'.nextArchiveRecordId == b.nextArchiveRecordId && b'.nextArchiveId == b.nextArchiveId
    && b.fundingCount + 1 in b'.records && !b'.records[b.fundingCount + 1].archived
  }

  lemma WholeFee(s: State, source: Address, token: Address)
    requires s.config.feeBps == 10000 && s.config.tierCount == 0
    ensures FeeFor(s, source, token, 1) == 1
  {
    assert BpsFor(s, source, token) == 10000;
  }

  lemma UnitBooks(s: State, source: Address, target: Address, token: Address, n: int, k: nat)
    requires Light(s, n, k) && Get(s.config.whitelist, token, false) && s.config.rates == map[]
    ensures var r := FundingRecord(source, target, token, 1, 1, s.ledger, [], false);
            var b := Recorded(Accrued(s.config, s.books, token, 1), r);
            && b.accumulatedFees == s.books.accumulatedFees + 1 <= n + 1
            && b.feesByToken == s.books.feesByToken[token := OwedIn(s, token) + 1]
            && Added(s.books, b)
            && b.totalVolume <= n + 1
            && (forall t :: Get(b.feesByToken, t, 0) <= n + 1 && Get(b.volumeByToken, t, 0) <= n + 1)
            && (forall u, t :: Volume(b, u, t) <= n + 1)
            && b.fundingCount <= k + 1 && b.hotCount <= k + 1 && b.funderCount <= k + 1
  {
    assert TokenFee(s.config, token, 1) == 1;
    hide TokenFee;
    var r := FundingRecord(source, target, token, 1, 1, s.ledger, [], false);
    var b := Recorded(Accrued(s.config, s.books, token, 1), r);
    assert OwedIn(s, token) <= n && Get(s.books.volumeByToken, token, 0) <= n && Volume(s.books, source, token) <= n;
    forall t
      ensures Get(b.feesByToken, t, 0) <= n + 1 && Get(b.volumeByToken, t, 0) <= n + 1
    {
      assert Get(s.books.feesByToken, t, 0) <= n && Get(s.books.volumeByToken, t, 0) <= n;
    }
    forall u, t
      ensures Volume(b, u, t) <= n + 1
    {
      assert Volume(s.books, u, t) <= n;
    }
  }

  /** Two whitelisted tokens; the source holds one unit of each, and someone has sent the bridge one of `x`. */
  lemma TwoTokens(self: Address, ledger: nat, a: Address, source: Address, x: Address, y: Address) returns (calls: seq<Call>)
    requires a != self && source != self && x != y && ledger + 20 <= U32_MAX
    ensures var s, s1 := Run(Deployed(self, ledger), calls), Opened(self, ledger, a, 10000);
            && Inv(s)
            && s == s1.(config := s1.config.(whitelist := map[x := true, y := true]), gov := s.gov, ledger := ledger + 20,
                        balances := map[(x, source) := 1, (y, source) := 1, (x, self) := 1])
            && s.gov.nonce == 2
  {
    var front := WhitelistedRun(self, ledger, a, source, x, 10000, 1);
    var s1 := Run(Deployed(self, ledger), front);
    PassesAlone(s1, a, SetFeeTokenWhitelist(y, true));
    var back := Passing(s1, a, SetFeeTokenWhitelist(y, true));
    var mints := [Mint(y, source, 1), Mint(x, self, 1)];
    calls := front + back + mints;
    RunConcat(Deployed(self, ledger), front, back);
    RunConcat(Deployed(self, ledger), front + back, mints);
    hide Inv, Passing, Run, Act;
    MintTwo(Run(s1, back), x, y, source);
  }

  lemma MintTwo(s: State, x: Address, y: Address, source: Address)
    requires Inv(s) && x != y && source != s.self && s.balances == map[(x, source) := 1]
    ensures var s' := Run(s, [Mint(y, source, 1), Mint(x, s.self, 1)]);
            Inv(s') && s' == s.(balances := map[(x, source) := 1, (y, source) := 1, (x, s.self) := 1])
  {
    var first, second := Mint(y, source, 1), Mint(x, s.self, 1);
    StepKeepsInv(s, first);
    StepKeepsInv(Next(s, first), second);
    RunTwo(s, first, second);
    hide Inv, Next, Run;
    Minted(s, y, source, 1);
    Minted(Next(s, first), x, s.self, 1);
  }

  /** Both units are paid as fees: one unit is owed in each token. */
  lemma BothFunded(self: Address, ledger: nat, a: Address, source: Address, target: Address, x: Address, y: Address)
    returns (calls: seq<Call>)
    requires a != self && source != self && x != y && target.Contract? && ledger + 20 <= U32_MAX
    ensures var s := Run(Deployed(self, ledger), calls);
            && Inv(s) && s.initialized && s.self == self && s.ledger == ledger + 20 && s.gov.nonce == 2
            && s.config.admins == [a] && s.config.threshold == 1
            && s.books.accumulatedFees == 2 && OwedIn(s, x) == 1 && OwedIn(s, y) == 1
            && Held(s, x) == 2 && Held(s, y) == 1
            && forall h :: 0 <= Bal(s.balances, x, h) <= 100
  {
    var front := TwoTokens(self, ledger, a, source, x, y);
    var s, fundings := Run(Deployed(self, ledger), front), [Fund(source, target, x, 1, []), Fund(source, target, y, 1, [])];
    calls := front + fundings;
    RunConcat(Deployed(self, ledger), front, fundings);
    assert Light(s, 1, 0);
    hide Inv, Run, Light;
    FundBoth(s, source, target, x, y);
  }

  lemma FundBoth(s: State, source: Address, target: Address, x: Address, y: Address)
    requires Inv(s) && Light(s, 1, 0) && source != s.self && x != y && target.Contract?
    requires s.config.feeBps == 10000 && s.config.tierCount == 0 && s.config.rates == map[] && !s.config.paused
    requires s.config.minAmount == 1 && s.config.maxAmount == I128_MAX && s.config.whitelist == map[x := true, y := true]
    requires s.balances == map[(x, source) := 1, (y, source) := 1, (x, s.self) := 1]
    requires s.books == Deployed(s.self, s.ledger).books
    ensures var s' := Run(s, [Fund(source, target, x, 1, []), Fund(source, target, y, 1, [])]);
            && Inv(s') && s' == s.(books := s'.books, balances := s'.balances)
            && s'.books.accumulatedFees == 2 && OwedIn(s', x) == 1 && OwedIn(s', y) == 1
            && Held(s', x) == 2 && Held(s', y) == 1
            && forall h :: 0 <= Bal(s'.balances, x, h) <= 100
  {
    hide Inv, Next, Run, Light, Step;
    var first, second := Fund(source, target, x, 1, []), Fund(source, target, y, 1, []);
    UnitFund(s, source, target, x, 1, 0);
    UnitFund(Next(s, first), source, target, y, 2, 1);
    RunTwo(s, first, second);
    LightBounds(Next(Next(s, first), second), x, 3, 2);
  }

  lemma LightBounds(s: State, token: Address, n: int, k: nat)
    requires Light(s, n, k)
    ensures forall h :: 0 <= Bal(s.balances, token, h) <= n
  {
  }

  /**
   * Withdrawing "all" of `x`, of which one unit was charged, pays two: the unit charged in `y` is then held, still shown by
   * `y`'s counter, and refused to every withdrawal.
   */
  lemma WithdrawAllStrands(self: Address, ledger: nat, a: Address, source: Address, target: Address, x: Address, y: Address, to: Address)
    returns (calls: seq<Call>)
    requires a != self && source != self && x != y && target.Contract? && ledger + 30 <= U32_MAX
    ensures |calls| > 0 && calls[|calls| - 1].Execute?
    ensures var n := |calls| - 1;
            var s, s' := Run(Deployed(self, ledger), calls[..n]), Run(Deployed(self, ledger), calls);
            && OwedIn(s, x) == 1 && OwedIn(s, y) == 1 && Step(s, calls[n]).Ok? && Step(s, calls[n]).value.1 == 2
            && OwedIn(s', y) == 1 && Held(s', y) == 1
            && forall receiver, amount :: amount != 0 ==> Withdraw(s', receiver, y, amount).Err?
  {
    var front := BothFunded(self, ledger, a, source, target, x, y);
    var s := Run(Deployed(self, ledger), front);
    var action := WithdrawFees(to, x, 0);
    var s' := Run(s, Passing(s, a, action));
    WithdrawsBoth(s, to, x, y);
    PassesAlone(s, a, action);
    calls := front + Passing(s, a, action);
    RunConcat(Deployed(self, ledger), front, Passing(s, a, action));
    LastOfPassing(s, a, action);
    RunConcat(Deployed(self, ledger), front, Passing(s, a, action)[..2]);
    assert calls[..|calls| - 1] == front + Passing(s, a, action)[..2];
    assert calls[|calls| - 1] == Passing(s, a, action)[2];
    hide Inv, Run, Act, Passing, Next, Step, Withdraw;
    var drained := Withdraw(s, to, x, 0).value.0;
    forall receiver, amount: int | amount != 0
      ensures Withdraw(s', receiver, y, amount).Err?
    {
      WithdrawAllStrandsTheOthers(s, to, x, y, receiver, amount);
      WithdrawIgnoresGov(drained, s'.gov, s'.ledger, receiver, y, amount);
    }
  }

  lemma WithdrawIgnoresGov(s: State, g: Governance, ledger: nat, to: Address, token: Address, amount: int)
    ensures Withdraw(s.(gov := g, ledger := ledger), to, token, amount).Ok? == Withdraw(s, to, token, amount).Ok?
  {
  }

  lemma WithdrawsBoth(s: State, to: Address, x: Address, y: Address)
    requires s.books.accumulatedFees == 2 && OwedIn(s, x) == 1 && OwedIn(s, y) == 1 && x != y
    requires Held(s, x) == 2 && Held(s, y) == 1 && forall h :: 0 <= Bal(s.balances, x, h) <= 100
    ensures Act(s, WithdrawFees(to, x, 0)) == Withdraw(s, to, x, 0)
    ensures Withdraw(s, to, x, 0).Ok? && Withdraw(s, to, x, 0).value.1 == 2
    ensures var s' := Withdraw(s, to, x, 0).value.0;
            OwedIn(s', y) == 1 && Held(s', y) == 1 && s' == s.(books := s'.books, balances := s'.balances)
  {
    MovedExact(s.balances, x, s.self, to, 2);
    assert 0 <= Bal(s.balances, x, to) <= 100;
  }

  /** Just before its last call, `Passing` has touched governance and the clock only, and its answer is the action's. */
  lemma LastOfPassing(s: State, admin: Address, action: Action)
    requires Inv(s) && s.initialized && s.config.threshold == 1 && admin in s.config.admins && CanPropose(s)
    requires Act(s, action).Ok?
    ensures var before, last := Run(s, Passing(s, admin, action)[..2]), Passing(s, admin, action)[2];
            && before == s.(gov := before.gov, ledger := s.ledger + 10)
            && last.Execute? && Step(before, last).Ok? && Step(before, last).value.1 == Act(s, action).value.1
  {
    hide Act, Inv, Next, Step, Gate, MarkExecuted;
    var opening, id := Propose(admin, action, 10), s.gov.nonce + 1;
    assert Passing(s, admin, action)[..2] == [opening, Tick(10)];
    RunTwo(s, opening, Tick(10));
    ProposedAndWaited(s, admin, action);
    ExecutesAs(s, Next(Next(s, opening), Tick(10)), id, action);
  }

  // ----- governance locked by a rotation -----

  /** Two admins with threshold 2, before and after both have approved `action`. */
  function OpenedByTwo(self: Address, ledger: nat, a: Address, b: Address): State {
    var s := Deployed(self, ledger);
    s.(initialized := true,
       config := s.config.(admins := [a, b], threshold := 2, feeBps := 0, maxFeeBps := 100,
                           params := InitParams(2, 0, 100, 2), minAmount := 1, maxAmount := 1))
  }

  function Agreed(self: Address, ledger: nat, a: Address, b: Address, action: Action): State {
    OpenedByTwo(self, ledger, a, b).(gov := Governance(1, map[1 := Proposal(1, action, a, 2, false, ledger + 10, ledger)],
                                                       {(1, a), (1, b)}, [1], 1))
  }

  function Agreeing(a: Address, b: Address, action: Action): seq<Call> {
    [Initialize([a, b], 2, 0, 100, 1, 1), Propose(a, action, 10), Approve(b, 1)]
  }

  lemma BothAgree(self: Address, ledger: nat, a: Address, b: Address, action: Action)
    requires a != self && b != self && a != b && ledger + 10 <= U32_MAX
    ensures Run(Deployed(self, ledger), Agreeing(a, b, action)) == Agreed(self, ledger, a, b, action)
    ensures Inv(Agreed(self, ledger, a, b, action))
  {
    var s0, s1, calls := Deployed(self, ledger), OpenedByTwo(self, ledger, a, b), Agreeing(a, b, action);
    hide Inv, Run;
    ReachableInv(self, ledger, calls);
    RunThree(s0, calls[0], calls[1], calls[2]);
    var p := Proposal(1, action, a, 1, false, ledger + 10, ledger);
    OneProposes(s1, a, p);
    BothApprove(s1, a, b, p);
    hide Next;
    OpensByTwo(self, ledger, a, b);
  }

  lemma OpensByTwo(self: Address, ledger: nat, a: Address, b: Address)
    requires a != self && b != self
    ensures Next(Deployed(self, ledger), Initialize([a, b], 2, 0, 100, 1, 1)) == OpenedByTwo(self, ledger, a, b)
  {
  }

  lemma OneProposes(s: State, a: Address, p: Proposal)
    requires s.initialized && a in s.config.admins && s.ledger + 10 <= U32_MAX && s.gov == Governance(0, map[], {}, [], 1)
    requires p == Proposal(1, p.action, a, 1, false, s.ledger + 10, s.ledger)
    ensures Next(s, Propose(a, p.action, 10)) == s.(gov := Governance(1, map[1 := p], {(1, a)}, [1], 1))
  {
  }

  lemma BothApprove(s: State, a: Address, b: Address, p: Proposal)
    requires s.initialized && b in s.config.admins && a != b && s.ledger <= p.expiry && !p.executed && p.approvalCount == 1
    ensures Next(s.(gov := Governance(1, map[1 := p], {(1, a)}, [1], 1)), Approve(b, 1))
            == s.(gov := Governance(1, map[1 := p.(approvalCount := 2)], {(1, a), (1, b)}, [1], 1))
  {
  }

  lemma RunFour(s: State, a: Call, b: Call, c: Call, d: Call)
    ensures Run(s, [a, b, c, d]) == Next(Next(Next(Next(s, a), b), c), d)
  {
    hide Next;
    RunThree(s, a, b, c);
    assert [a, b, c, d][..3] == [a, b, c];
  }

  /**
   * A rotation may be accepted that leaves one admin twice under threshold 2. From then on nothing ever executes, although
   * an approval by an address that is no longer an admin is still on record.
   */
  lemma RotationLocksGovernance(self: Address, ledger: nat, a: Address, b: Address, more: seq<Call>, id: nat)
    requires a != self && b != self && a != b && ledger + 10 <= U32_MAX
    ensures var s := Run(Deployed(self, ledger), Agreeing(a, b, RotateAdmins([a, a])) + [Tick(10)]);
            var s' := Next(s, Execute(1));
            && Step(s, Execute(1)).Ok? && (1, b) in s'.gov.approvals && b !in s'.config.admins
            && Step(Run(s', more), Execute(id)).Err?
  {
    var calls := Agreeing(a, b, RotateAdmins([a, a]));
    BothAgree(self, ledger, a, b, RotateAdmins([a, a]));
    RunConcat(Deployed(self, ledger), calls, [Tick(10)]);
    var s0 := Agreed(self, ledger, a, b, RotateAdmins([a, a]));
    RunOne(s0, Tick(10));
    var s := Next(s0, Tick(10));
    var s' := Next(s, Execute(1));
    hide Run, Agreeing, Inv, Quorate;
    StepKeepsInv(s0, Tick(10));
    StepKeepsInv(s, Execute(1));
    LockedBy(s0, s, a, b);
    StuckForever(s', more);
    StuckCannotExecute(Run(s', more), id);
  }

  lemma LockedBy(s0: State, s: State, a: Address, b: Address)
    requires s0 == Agreed(s0.self, s0.ledger, a, b, RotateAdmins([a, a])) && a != s0.self && a != b
    requires s == s0.(ledger := s0.ledger + 10)
    ensures var s' := Next(s, Execute(1));
            && Step(s, Execute(1)).Ok? && s'.initialized && !Quorate(s')
            && (1, b) in s'.gov.approvals && b !in s'.config.admins
  {
    assert AdminSet(Next(s, Execute(1))) == {a};
  }

  /** A proposal approved by `b` executes after `b` was rotated out, with that approval making up the threshold. */
  lemma RotatedOutApprovalCounts(self: Address, ledger: nat, a: Address, b: Address, c: Address)
    requires a != self && b != self && c != self && a != b && b != c && ledger + 10 <= U32_MAX
    ensures var s := Run(Deployed(self, ledger), Agreeing(a, b, SetFee(50)) + Rotating(a, b, c));
            && s.config.threshold == 2 && b !in s.config.admins
            && Flags(s.gov.approvals, 1) == {a, b}
            && Step(s, Execute(1)).Ok? && Next(s, Execute(1)).config.feeBps == 50
  {
    hide Run, Agreeing, Rotating, Inv, Next, Step, Flags;
    BothAgree(self, ledger, a, b, SetFee(50));
    RunConcat(Deployed(self, ledger), Agreeing(a, b, SetFee(50)), Rotating(a, b, c));
    RotatingSteps(Agreed(self, ledger, a, b, SetFee(50)), a, b, c);
    ThenRotated(Agreed(self, ledger, a, b, SetFee(50)), a, b, c);
  }

  function Rotating(a: Address, b: Address, c: Address): seq<Call> {
    [Propose(a, RotateAdmins([a, c]), 10), Approve(b, 2), Tick(10), Execute(2)]
  }

  lemma RotatingSteps(s: State, a: Address, b: Address, c: Address)
    ensures Run(s, Rotating(a, b, c))
            == Next(Next(Next(Next(s, Propose(a, RotateAdmins([a, c]), 10)), Approve(b, 2)), Tick(10)), Execute(2))
  {
    hide Run, Next;
    RunFour(s, Propose(a, RotateAdmins([a, c]), 10), Approve(b, 2), Tick(10), Execute(2));
  }

  lemma ThenRotated(s: State, a: Address, b: Address, c: Address)
    requires s.initialized && s.self !in [a, c] && a != b && b != c && s.ledger + 10 <= U32_MAX
    requires s.config.admins == [a, b] && s.config.threshold == 2 && s.config.maxFeeBps == 100
    requires s.gov == Governance(1, map[1 := Proposal(1, SetFee(50), a, 2, false, s.ledger + 10, s.ledger)], {(1, a), (1, b)}, [1], 1)
    ensures var s' := Next(Next(Next(Next(s, Propose(a, RotateAdmins([a, c]), 10)), Approve(b, 2)), Tick(10)), Execute(2));
            && s'.config.threshold == 2 && b !in s'.config.admins
            && Flags(s'.gov.approvals, 1) == {a, b}
            && Step(s', Execute(1)).Ok? && Next(s', Execute(1)).config.feeBps == 50
  {
  }

  // ----- paused, and funded before `initialize` -----

  /** A paused contract takes a batch of one, and refuses the same payment made singly. */
  lemma PausedBatchGoesThrough(self: Address, ledger: nat, a: Address, source: Address, target: Address, token: Address)
    returns (calls: seq<Call>)
    requires a != self && source != self && target.Contract? && ledger + 20 <= U32_MAX
    ensures var s := Run(Deployed(self, ledger), calls);
            && s.config.paused
            && Step(s, BatchFund(source, [target], [token], [1], [[]])).Ok?
            && Step(s, Fund(source, target, token, 1, [])) == Err(ContractPaused)
  {
    var front := WhitelistedRun(self, ledger, a, source, token, 10000, 1);
    var s := Run(Deployed(self, ledger), front);
    PassesAlone(s, a, Pause);
    calls := front + Passing(s, a, Pause);
    RunConcat(Deployed(self, ledger), front, Passing(s, a, Pause));
    var s' := Run(s, Passing(s, a, Pause));
    assert Light(s', 1, 0);
    hide Inv, Run, Passing, Light;
    LightEnough(s', 1, 0);
    LightFunds(s', source, target, token, 1);
    BatchOfOne(s', source, target, token);
  }

  lemma LightEnough(s: State, n: int, k: nat)
    requires Light(s, n, k) && n <= 100 && k <= 100
    ensures Light(s, MAX_SAFE_AMOUNT, 1000)
  {
  }

  lemma BatchOfOne(s: State, source: Address, target: Address, token: Address)
    requires target.Contract? && FundInternal(s, source, target, token, 1, []).Ok?
    requires FundInternal(s, source, target, token, 1, []).value.1 <= 1
    ensures Step(s, BatchFund(source, [target], [token], [1], [[]])).Ok?
  {
    hide FundInternal;
    assert BatchItems(s, source, [target], [token], [1], [[]], 0) == Ok((s, 0));
  }

  /** A funding is accepted before `initialize`, which then takes effect and breaks the books. */
  lemma FundedBeforeInitialize(self: Address, ledger: nat, a: Address, source: Address, target: Address, token: Address)
    requires a != self && source != self && target.Contract?
    ensures var calls := [Mint(token, source, 1), Fund(source, target, token, 1, [])];
            var s, opening := Run(Deployed(self, ledger), calls), Initialize([a], 1, 0, 0, 1, 1);
            && s.books.fundingCount == 1 && TakesOffice(s, opening)
            && BooksInv(s.books) && !BooksInv(Next(s, opening).books)
  {
    hide Inv, BooksOk, FeesOk, Step, Next, Run, Light;
    var s0, mint, fund := Deployed(self, ledger), Mint(token, source, 1), Fund(source, target, token, 1, []);
    var s1 := Next(s0, mint);
    ReachableInv(self, ledger, []);
    RunNone(s0);
    StepKeepsInv(s0, mint);
    NoBalance(s0, token, source);
    Minted(s0, token, source, 1);
    FirstFunded(s1, source, target, token);
    RunTwo(s0, mint, fund);
    BooksWithoutOffice(self, ledger, [mint, fund]);
    OpensLate(Next(s1, fund), a);
    InitializeKeepsBooksIff(Next(s1, fund), Initialize([a], 1, 0, 0, 1, 1));
  }

  lemma RunNone(s: State)
    ensures Run(s, []) == s
  {
  }

  lemma NoBalance(s: State, token: Address, holder: Address)
    requires s.balances == map[]
    ensures Bal(s.balances, token, holder) == 0
  {
  }

  lemma BooksWithoutOffice(self: Address, ledger: nat, calls: seq<Call>)
    requires forall i :: 0 <= i < |calls| ==> !calls[i].Initialize?
    ensures BooksInv(Run(Deployed(self, ledger), calls).books)
  {
    hide Run, Inv, BooksOk;
    NeverInOffice(self, ledger, calls);
    CountersAreFolds(self, ledger, calls, |calls|);
    assert calls[..|calls|] == calls;
  }

  lemma OpensLate(s: State, a: Address)
    requires !s.initialized && a != s.self
    ensures TakesOffice(s, Initialize([a], 1, 0, 0, 1, 1))
  {
  }

  lemma FirstFunded(s: State, source: Address, target: Address, token: Address)
    requires Inv(s) && source != s.self && target.Contract?
    requires s == Deployed(s.self, s.ledger).(balances := map[(token, source) := 1])
    ensures var s' := Next(s, Fund(source, target, token, 1, []));
            s'.books.fundingCount == 1 && !s'.initialized && s'.self == s.self
  {
    assert Light(s, 1, 0);
    LightEnough(s, 1, 0);
    LightFunds(s, source, target, token, 1);
    FundRecords(s, source, target, token, 1, []);
    hide Inv, FundFits, FeeFor, Recorded, Accrued, Moved, Light;
  }

  lemma NeverInOffice(self: Address, ledger: nat, calls: seq<Call>)
    requires forall i :: 0 <= i < |calls| ==> !calls[i].Initialize?
    ensures forall i :: 0 <= i < |calls| ==> !TakesOffice(Before(self, ledger, calls, i), calls[i])
  {
    hide Before;
  }

  // ----- the archive cursor ahead of the records -----

  /** Archiving the one record twice puts the cursor past the next id: the next record is then never archived. */
  lemma ArchiveSkips(self: Address, ledger: nat, a: Address, source: Address, target: Address, token: Address)
    returns (calls: seq<Call>)
    requires a != self && source != self && target.Contract? && ledger + 40 <= U32_MAX
    ensures forall more: seq<Call> ::
              var b := Run(Deployed(self, ledger), calls + more).books;
              2 in b.records && 2 < b.nextArchiveRecordId && !b.records[2].archived
  {
    var front := WhitelistedRun(self, ledger, a, source, token, 10000, 2);
    var s := Run(Deployed(self, ledger), front);
    var fund := Fund(source, target, token, 1, []);
    var rest := SkipRecord(s, a, source, target, token);
    calls := front + rest;
    RunConcat(Deployed(self, ledger), front, rest);
    forall more: seq<Call>
      ensures var b := Run(Deployed(self, ledger), calls + more).books;
              2 in b.records && 2 < b.nextArchiveRecordId && !b.records[2].archived
    {
      RunConcat(Deployed(self, ledger), calls, more);
      SkippedStaysHot(Run(s, rest), more, 2);
    }
  }

  /** The first call archives record 1. */
  lemma ArchivesOne(s: State)
    requires s.books.fundingCount == 1 && s.books.nextArchiveRecordId == 1 && s.books.nextArchiveId == 0 && 1 in s.books.records
    ensures Act(s, ArchiveOldEntries(1)).Ok?
    ensures var s' := Act(s, ArchiveOldEntries(1)).value.0;
            && s' == s.(books := s'.books)
            && s'.books == s.books.(hotCount := s'.books.hotCount, records := s'.books.records, nextArchiveId := 1, nextArchiveRecordId := 2)
            && s'.books.hotCount <= s.books.hotCount && s'.books.records.Keys == s.books.records.Keys
  {
    assert ArchiveRange(s.books, 1, 0) == s.books;
  }

  /** The second finds no record, and moves the cursor all the same. */
  lemma ArchivesNone(s: State)
    requires s.books.fundingCount == 1 && s.books.nextArchiveRecordId == 2 && s.books.nextArchiveId == 1 && 2 !in s.books.records
    ensures Act(s, ArchiveOldEntries(1)).Ok?
    ensures Act(s, ArchiveOldEntries(1)).value.0 == s.(books := s.books.(nextArchiveId := 2, nextArchiveRecordId := 3))
  {
    assert ArchiveRange(s.books, 2, 0) == s.books;
  }

  lemma SkipRecord(s: State, a: Address, source: Address, target: Address, token: Address) returns (calls: seq<Call>)
    requires Inv(s) && s.initialized && source != s.self && target.Contract?
    requires s.config == Opened(s.self, 0, a, 10000).config.(whitelist := map[token := true])
    requires s.books == Deployed(s.self, 0).books && s.balances == map[(token, source) := 2]
    requires s.gov.nonce == 1 && s.ledger + 30 <= U32_MAX
    ensures var s' := Run(s, calls);
            && Inv(s') && s'.initialized && BooksInv(s'.books)
            && 2 in s'.books.records && 2 < s'.books.nextArchiveRecordId && !s'.books.records[2].archived
  {
    var fund := Fund(source, target, token, 1, []);
    var front := RunAhead(s, a, source, target, token);
    var s' := Run(s, front);
    calls := front + [fund];
    RunConcat(s, front, [fund]);
    RunOne(s', fund);
    NoBooks(s);
    RunKeepsBooks(s, calls);
    hide Inv, Run, BooksOk, FeesOk, Light, Step, Next;
    UnitFund(s', source, target, token, 3, 1);
  }

  lemma NoBooks(s: State)
    requires s.books == Deployed(s.self, 0).books
    ensures BooksInv(s.books)
  {
  }

  /** One funding and two archive calls. */
  lemma RunAhead(s: State, a: Address, source: Address, target: Address, token: Address) returns (calls: seq<Call>)
    requires Inv(s) && s.initialized && source != s.self && target.Contract?
    requires s.config == Opened(s.self, 0, a, 10000).config.(whitelist := map[token := true])
    requires s.books == Deployed(s.self, 0).books && s.balances == map[(token, source) := 2]
    requires s.gov.nonce == 1 && s.ledger + 30 <= U32_MAX
    ensures var s' := Run(s, calls);
            && Inv(s') && s'.initialized && s'.self == s.self && s'.config == s.config
            && Light(s', 3, 1) && Bal(s'.balances, token, source) == 1
            && s'.books.fundingCount == 1 && s'.books.nextArchiveRecordId == 3
  {
    var fund, archive := Fund(source, target, token, 1, []), ArchiveOldEntries(1);
    assert Light(s, 2, 0);
    assert Bal(s.balances, token, source) == 2;
    var s1 := Next(s, fund);
    calls := [fund] + ArchiveTwice(s1, a);
    RunOne(s, fund);
    RunConcat(s, [fund], ArchiveTwice(s1, a));
    hide Inv, Run, Next, Step, Act, ArchiveTwice;
    UnitFund(s, source, target, token, 2, 0);
    TwiceArchived(s1, a);
    StaysLight(s1, Run(s1, ArchiveTwice(s1, a)), 3, 1);
    hide Light;
  }

  lemma StaysLight(s: State, s': State, n: int, k: nat)
    requires Light(s, n, k) && s' == s.(books := s'.books, gov := s'.gov, ledger := s'.ledger)
    requires s'.books == s.books.(hotCount := s'.books.hotCount, records := s'.books.records,
                                  nextArchiveId := s'.books.nextArchiveId, nextArchiveRecordId := s'.books.nextArchiveRecordId)
    requires s'.books.hotCount <= s.books.hotCount
    ensures Light(s', n, k)
  {
    forall u, t
      ensures Volume(s'.books, u, t) <= n
    {
      assert Volume(s.books, u, t) <= n;
    }
  }

  function ArchiveTwice(s: State, a: Address): seq<Call> {
    var once := Passing(s, a, ArchiveOldEntries(1));
    once + Passing(Run(s, once), a, ArchiveOldEntries(1))
  }

  lemma TwiceArchived(s: State, a: Address)
    requires Inv(s) && s.initialized && s.config.threshold == 1 && a in s.config.admins
    requires s.gov.nonce == 1 && s.ledger + 30 <= U32_MAX
    requires s.books.fundingCount == 1 && s.books.nextArchiveRecordId == 1 && s.books.nextArchiveId == 0
    requires 1 in s.books.records && 2 !in s.books.records
    ensures var s' := Run(s, ArchiveTwice(s, a));
            && Inv(s') && s'.initialized && s' == s.(books := s'.books, gov := s'.gov, ledger := s.ledger + 20)
            && s'.books == s.books.(hotCount := s'.books.hotCount, records := s'.books.records, nextArchiveId := 2, nextArchiveRecordId := 3)
            && s'.books.hotCount <= s.books.hotCount
  {
    var archive := ArchiveOldEntries(1);
    var once := Passing(s, a, archive);
    var s1 := Run(s, once);
    RunConcat(s, once, Passing(s1, a, archive));
    hide Inv, Run, Passing, Act;
    ArchivesOne(s);
    PassesAlone(s, a, archive);
    ArchivesNone(s1);
    PassesAlone(s1, a, archive);
  }
}
