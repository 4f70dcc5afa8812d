/** Where the tokens are: what each step moves, and that the bridge always holds the fees it owes. */
module BridgeCustody {
  import opened BridgeTypes
  import opened BridgeSpec
  import opened BridgeGovernance
  import opened ProposalLifecycle
  import opened BridgeBooks

  function Held(s: State, token: Address): int {
    Bal(s.balances, token, s.self)
  }

  /** The bridge's holdings over a list of tokens. */
  function Holdings(s: State, tokens: seq<Address>): int {
    if |tokens| == 0 then 0 else Holdings(s, tokens[1..]) + Held(s, tokens[0])
  }

  predicate Distinct(tokens: seq<Address>) {
    forall i, j :: 0 <= i < j < |tokens| ==> tokens[i] != tokens[j]
  }

  predicate NonNegative(b: map<(Address, Address), int>) {
    forall k :: k in b ==> b[k] >= 0
  }

  function If(c: bool, n: int): int {
    if c then n else 0
  }

  // ----- transfers -----

  /** A transfer debits one holder and credits another of one token, which may be the same holder, and no one else. */
  lemma MovedExact(b: map<(Address, Address), int>, token: Address, src: Address, dst: Address, amount: int)
    ensures forall t, h ::
              Bal(Moved(b, token, src, dst, amount), t, h)
              == Bal(b, t, h) - If(t == token && h == src, amount) + If(t == token && h == dst, amount)
    ensures NonNegative(b) && CanMove(b, token, src, dst, amount) ==> NonNegative(Moved(b, token, src, dst, amount))
  {
  }

  /** One funding, for every token and holder: the source pays `amount`, the bridge keeps the fee, the target gets the rest. */
  lemma FundMovesExactly(s: State, source: Address, target: Address, token: Address, amount: int, memo: seq<byte>)
    requires FundInternal(s, source, target, token, amount, memo).Ok?
    ensures var (s', fee) := FundInternal(s, source, target, token, amount, memo).value;
            forall t, h :: Bal(s'.balances, t, h)
                           == Bal(s.balances, t, h)
                              - If(t == token && h == source, amount)
                              + If(t == token && h == s.self, fee)
                              + If(t == token && h == target, amount - fee)
    ensures NonNegative(s.balances) ==> NonNegative(FundInternal(s, source, target, token, amount, memo).value.0.balances)
  {
    var r := RecordOf(s, source, target, token, amount, memo);
    hide FeeFor, FeeFits, AccrualFits, RecordFits, Recorded, Accrued, Moved, CanMove, Bal;
    MovedExact(s.balances, token, source, s.self, amount);
    MovedExact(Collected(s, source, token, amount), token, s.self, target, amount - r.fee);
  }

  /** A change to one token of the list changes the sum by as much. */
  lemma {:induction false} HoldingsDelta(s: State, s': State, tokens: seq<Address>, token: Address, delta: int)
    requires Distinct(tokens)
    requires forall t :: Held(s', t) == Held(s, t) + If(t == token, delta)
    ensures Holdings(s', tokens) == Holdings(s, tokens) + If(token in tokens, delta)
  {
    if |tokens| > 0 {
      HoldingsDelta(s, s', tokens[1..], token, delta);
      assert tokens == [tokens[0]] + tokens[1..];
    }
  }

  // ----- custody of the fees -----

  /**
   * The surplus of holdings over fees owed, exactly: a funding leaves it alone, adds the net amount when the bridge is
   * its own target, and takes the whole amount when the bridge is its own source.
   */
  lemma FundingSurplus(s: State, source: Address, target: Address, token: Address, amount: int, memo: seq<byte>,
                       tokens: seq<Address>)
    requires Inv(s) && FundInternal(s, source, target, token, amount, memo).Ok?
    requires Distinct(tokens) && token in tokens
    ensures var (s', fee) := FundInternal(s, source, target, token, amount, memo).value;
            Holdings(s', tokens) - s'.books.accumulatedFees
            == Holdings(s, tokens) - s.books.accumulatedFees
               - If(source == s.self, amount) + If(target == s.self, amount - fee)
  {
    FundMovesExactly(s, source, target, token, amount, memo);
    FeeInRange(s, source, token, amount);
    hide Inv, FeeFor, FeeFits, AccrualFits, RecordFits, Moved, CanMove, Bal, Distinct;
    var (s', fee) := FundInternal(s, source, target, token, amount, memo).value;
    HoldingsDelta(s, s', tokens, token, fee - If(source == s.self, amount) + If(target == s.self, amount - fee));
  }

  ghost predicate Custody(s: State, tokens: seq<Address>) {
    && NonNegative(s.balances)
    && 0 <= s.books.accumulatedFees <= Holdings(s, tokens)
  }

  lemma {:induction false} HoldingsNonNegative(s: State, tokens: seq<Address>)
    requires NonNegative(s.balances)
    ensures Holdings(s, tokens) >= 0
  {
    if |tokens| > 0 {
      HoldingsNonNegative(s, tokens[1..]);
    }
  }

  lemma FundCustody(s: State, source: Address, target: Address, token: Address, amount: int, memo: seq<byte>,
                    tokens: seq<Address>)
    requires Inv(s) && Custody(s, tokens) && FundInternal(s, source, target, token, amount, memo).Ok?
    requires Distinct(tokens) && token in tokens && source != s.self
    ensures var s' := FundInternal(s, source, target, token, amount, memo).value.0;
            Inv(s') && Custody(s', tokens) && s'.self == s.self
  {
    FundingSurplus(s, source, target, token, amount, memo, tokens);
    FundMovesExactly(s, source, target, token, amount, memo);
    FeeInRange(s, source, token, amount);
    hide GovOk, FeeFor, FeeFits, AccrualFits, RecordFits, Moved, CanMove, Holdings;
  }

  lemma {:induction false} BatchCustody(s: State, source: Address, targets: seq<Address>, tokens: seq<Address>,
                                        amounts: seq<int>, memos: seq<seq<byte>>, n: nat, watched: seq<Address>)
    requires n <= |targets| == |tokens| == |amounts| == |memos|
    requires Inv(s) && Custody(s, watched) && source != s.self
    requires Distinct(watched) && forall t :: t in tokens ==> t in watched
    requires BatchItems(s, source, targets, tokens, amounts, memos, n).Ok?
    ensures var s' := BatchItems(s, source, targets, tokens, amounts, memos, n).value.0;
            Inv(s') && Custody(s', watched) && s'.self == s.self
  {
    hide Inv, Custody, FundInternal;
    if n > 0 {
      BatchCustody(s, source, targets, tokens, amounts, memos, n - 1, watched);
      var mid := BatchItems(s, source, targets, tokens, amounts, memos, n - 1).value.0;
      FundCustody(mid, source, targets[n - 1], tokens[n - 1], amounts[n - 1], memos[n - 1], watched);
    }
  }

  /** A withdrawal pays what it takes off the account, out of one token. */
  lemma WithdrawCustody(s: State, to: Address, token: Address, amount: int, tokens: seq<Address>)
    requires Custody(s, tokens) && Distinct(tokens) && Withdraw(s, to, token, amount).Ok?
    ensures Custody(Withdraw(s, to, token, amount).value.0, tokens)
  {
    var (s', paid) := Withdraw(s, to, token, amount).value;
    MovedExact(s.balances, token, s.self, to, paid);
    HoldingsDelta(s, s', tokens, token, -If(to != s.self, paid));
    HoldingsNonNegative(s', tokens);
  }

  lemma ExecuteCustody(s: State, id: nat, tokens: seq<Address>)
    requires Custody(s, tokens) && Distinct(tokens) && DoExecute(s, id).Ok?
    ensures Custody(DoExecute(s, id).value.0, tokens)
  {
    var marked := s.(gov := MarkExecuted(s.gov, id));
    SameHoldings(s, marked, tokens);
    match s.gov.proposals[id].action
    case WithdrawFees(to, token, amount) => WithdrawCustody(marked, to, token, amount, tokens);
    case _ => SameHoldings(s, DoExecute(s, id).value.0, tokens);
  }

  lemma {:induction false} SameHoldings(s: State, s': State, tokens: seq<Address>)
    requires s'.balances == s.balances && s'.self == s.self
    ensures Holdings(s', tokens) == Holdings(s, tokens)
  {
    if |tokens| > 0 {
      SameHoldings(s, s', tokens[1..]);
    }
  }

  /** Other traffic: the bridge's balances are never debited by anyone else. */
  lemma OutsideCustody(s: State, c: Call, tokens: seq<Address>)
    requires c.TokenTransfer? || c.Mint?
    requires Custody(s, tokens) && Distinct(tokens)
    ensures Custody(Next(s, c), tokens)
  {
    if Step(s, c).Ok? {
      var s' := Next(s, c);
      if c.TokenTransfer? {
        MovedExact(s.balances, c.token, c.holder, c.to, c.amount);
      }
      HoldingsDelta(s, s', tokens, c.token, If(c.to == s.self, c.amount));
    }
  }

  /** Funding calls take from someone other than the bridge, in tokens of the list. */
  predicate Honest(self: Address, c: Call, tokens: seq<Address>) {
    match c
    case Fund(source, _, token, _, _) => source != self && token in tokens
    case RouteFromExchange(source, _, token, _, _) => source != self && token in tokens
    case BatchFund(source, _, batch, _, _) => source != self && forall t :: t in batch ==> t in tokens
    case _ => true
  }

  lemma StepCustody(s: State, c: Call, tokens: seq<Address>)
    requires Inv(s) && Custody(s, tokens) && Distinct(tokens) && Honest(s.self, c, tokens)
    ensures Custody(Next(s, c), tokens) && Next(s, c).self == s.self
  {
    StepSelf(s, c);
    hide Inv, FundInternal, DoExecute, Sweep, Holdings, CanMove, Moved, Distinct;
    if Step(s, c).Ok? {
      match c
      case Fund(source, target, token, amount, memo) => FundCustody(s, source, target, token, amount, memo, tokens);
      case RouteFromExchange(source, target, token, amount, memo) =>
        FundCustody(s, source, target, token, amount, memo, tokens);
      case BatchFund(source, targets, batch, amounts, memos) =>
        BatchCustody(s, source, targets, batch, amounts, memos, |targets|, tokens);
      case Execute(id) => ExecuteCustody(s, id, tokens);
      case TokenTransfer(_, _, _, _) => OutsideCustody(s, c, tokens);
      case Mint(_, _, _) => OutsideCustody(s, c, tokens);
      case PruneProposals(maxScan) => PruneFrame(s, maxScan); SameHoldings(s, Next(s, c), tokens);
      case _ => SameHoldings(s, Next(s, c), tokens); HoldingsNonNegative(s, tokens);
    }
  }

  lemma StepSelf(s: State, c: Call)
    ensures Next(s, c).self == s.self
  {
    hide Act, FundFits, Funded, Moved, CanMove, Sweep;
    if MovesMoney(c) {
      MoneyFrame(s, c);
    } else if c.Execute? && Step(s, c).Ok? {
      ActFrame(s.(gov := MarkExecuted(s.gov, c.id)), s.gov.proposals[c.id].action);
    }
  }

  /** Over any run, whatever is withdrawn, the bridge's tokens cover the fees it still owes. */
  lemma {:induction false} CustodyHolds(self: Address, ledger: nat, calls: seq<Call>, n: nat, tokens: seq<Address>)
    requires n <= |calls| && Distinct(tokens)
    requires forall i :: 0 <= i < n ==> Honest(self, calls[i], tokens)
    ensures Custody(Before(self, ledger, calls, n), tokens)
    ensures Before(self, ledger, calls, n).self == self
  {
    if n == 0 {
      assert calls[..0] == [];
      HoldingsNonNegative(Deployed(self, ledger), tokens);
    } else {
      CustodyHolds(self, ledger, calls, n - 1, tokens);
      BeforeNext(self, ledger, calls, n - 1);
      hide Inv, Custody, Distinct;
      StepCustody(Before(self, ledger, calls, n - 1), calls[n - 1], tokens);
    }
  }

  // ----- custody token by token -----

  function OwedIn(s: State, token: Address): int {
    Get(s.books.feesByToken, token, 0)
  }

  ghost predicate TokenCustody(s: State) {
    && NonNegative(s.balances)
    && forall t :: 0 <= OwedIn(s, t) <= Held(s, t)
  }

  /** No display rate above par (10000 bps) is in force. */
  predicate AtPar(c: Config) {
    forall t :: t in c.rates ==> c.rates[t] <= 10000
  }

  /** The per-token surplus, exactly: it shrinks by what the display rate adds to the fee. */
  lemma FundingTokenSurplus(s: State, source: Address, target: Address, token: Address, amount: int, memo: seq<byte>, t: Address)
    requires Inv(s) && FundInternal(s, source, target, token, amount, memo).Ok?
    ensures var (s', fee) := FundInternal(s, source, target, token, amount, memo).value;
            Held(s', t) - OwedIn(s', t)
            == Held(s, t) - OwedIn(s, t)
               + If(t == token, fee - If(CountsTokenFee(s.config, token, fee), TokenFee(s.config, token, fee))
                                - If(source == s.self, amount) + If(target == s.self, amount - fee))
  {
    FundMovesExactly(s, source, target, token, amount, memo);
    FeeInRange(s, source, token, amount);
    hide Inv, FeeFor, FeeFits, AccrualFits, RecordFits, Moved, CanMove, Bal, TokenFee;
  }

  lemma FundTokenCustody(s: State, source: Address, target: Address, token: Address, amount: int, memo: seq<byte>)
    requires Inv(s) && TokenCustody(s) && AtPar(s.config) && source != s.self
    requires FundInternal(s, source, target, token, amount, memo).Ok?
    ensures var s' := FundInternal(s, source, target, token, amount, memo).value.0;
            Inv(s') && TokenCustody(s') && s'.self == s.self && s'.config == s.config
  {
    var (s', fee) := FundInternal(s, source, target, token, amount, memo).value;
    FundMovesExactly(s, source, target, token, amount, memo);
    FeeInRange(s, source, token, amount);
    ParFee(fee, Get(s.config.rates, token, 10000));
    hide GovOk, FeeFor, FeeFits, AccrualFits, RecordFits, Moved, CanMove, Bal;
    forall t
      ensures 0 <= OwedIn(s', t) <= Held(s', t)
    {
      assert 0 <= OwedIn(s, t) <= Held(s, t);
    }
  }

  lemma ParFee(fee: int, rate: nat)
    requires 0 <= fee && rate <= 10000
    ensures 0 <= fee * rate / 10000 <= fee
  {
    assert 0 <= fee * rate <= fee * 10000;
  }

  lemma {:induction false} BatchTokenCustody(s: State, source: Address, targets: seq<Address>, tokens: seq<Address>,
                                             amounts: seq<int>, memos: seq<seq<byte>>, n: nat)
    requires n <= |targets| == |tokens| == |amounts| == |memos|
    requires Inv(s) && TokenCustody(s) && AtPar(s.config) && source != s.self
    requires BatchItems(s, source, targets, tokens, amounts, memos, n).Ok?
    ensures var s' := BatchItems(s, source, targets, tokens, amounts, memos, n).value.0;
            Inv(s') && TokenCustody(s') && s'.self == s.self && s'.config == s.config
  {
    hide Inv, TokenCustody, FundInternal;
    if n > 0 {
      BatchTokenCustody(s, source, targets, tokens, amounts, memos, n - 1);
      var mid := BatchItems(s, source, targets, tokens, amounts, memos, n - 1).value.0;
      FundTokenCustody(mid, source, targets[n - 1], tokens[n - 1], amounts[n - 1], memos[n - 1]);
    }
  }

  /** Including `amount` 0, which clears one token's counter but pays out the total over all tokens. */
  lemma WithdrawTokenCustody(s: State, to: Address, token: Address, amount: int)
    requires TokenCustody(s) && s.books.accumulatedFees >= 0 && Withdraw(s, to, token, amount).Ok?
    ensures TokenCustody(Withdraw(s, to, token, amount).value.0)
  {
    var (s', paid) := Withdraw(s, to, token, amount).value;
    MovedExact(s.balances, token, s.self, to, paid);
    hide Moved;
    forall t
      ensures 0 <= OwedIn(s', t) <= Held(s', t)
    {
      assert 0 <= OwedIn(s, t) <= Held(s, t);
    }
  }

  lemma StepTokenCustody(s: State, c: Call)
    requires Inv(s) && TokenCustody(s) && AtPar(s.config) && 0 <= s.books.accumulatedFees
    requires (c.Fund? || c.RouteFromExchange? || c.BatchFund?) ==> c.source != s.self
    ensures TokenCustody(Next(s, c)) && Next(s, c).self == s.self
  {
    StepSelf(s, c);
    hide Inv, FundInternal, Sweep, Moved, CanMove, Bal, Archive, TokenCustody, NonNegative, Withdraw;
    if Step(s, c).Ok? {
      match c
      case Fund(source, target, token, amount, memo) => FundTokenCustody(s, source, target, token, amount, memo);
      case RouteFromExchange(source, target, token, amount, memo) => FundTokenCustody(s, source, target, token, amount, memo);
      case BatchFund(source, targets, tokens, amounts, memos) =>
        BatchTokenCustody(s, source, targets, tokens, amounts, memos, |targets|);
      case Execute(id) => ExecuteTokenCustody(s, id);
      case TokenTransfer(_, _, _, _) => OutsideTokenCustody(s, c);
      case Mint(_, _, _) => OutsideTokenCustody(s, c);
      case PruneProposals(maxScan) => PruneFrame(s, maxScan); SameTokens(s, Next(s, c));
      case _ => SameTokens(s, Next(s, c));
    }
  }

  lemma SameTokens(s: State, s': State)
    requires TokenCustody(s) && s'.balances == s.balances && s'.self == s.self && s'.books.feesByToken == s.books.feesByToken
    ensures TokenCustody(s')
  {
    forall t
      ensures 0 <= OwedIn(s', t) <= Held(s', t)
    {
      assert 0 <= OwedIn(s, t) <= Held(s, t);
    }
  }

  lemma ExecuteTokenCustody(s: State, id: nat)
    requires TokenCustody(s) && s.books.accumulatedFees >= 0 && DoExecute(s, id).Ok?
    ensures TokenCustody(DoExecute(s, id).value.0)
  {
    hide TokenCustody, Withdraw;
    var marked := s.(gov := MarkExecuted(s.gov, id));
    SameTokens(s, marked);
    match s.gov.proposals[id].action
    case WithdrawFees(to, token, amount) => WithdrawTokenCustody(marked, to, token, amount);
    case _ => SameTokens(s, DoExecute(s, id).value.0);
  }

  lemma OutsideTokenCustody(s: State, c: Call)
    requires c.TokenTransfer? || c.Mint?
    requires TokenCustody(s)
    ensures TokenCustody(Next(s, c))
  {
    if Step(s, c).Ok? {
      if c.TokenTransfer? {
        MovedExact(s.balances, c.token, c.holder, c.to, c.amount);
      }
      forall t
        ensures 0 <= OwedIn(Next(s, c), t) <= Held(Next(s, c), t)
      {
        assert 0 <= OwedIn(s, t) <= Held(s, t);
      }
    }
  }

  /** While no rate above par was ever in force, each token the bridge owes in is a token it holds enough of. */
  lemma {:induction false} TokenCustodyHolds(self: Address, ledger: nat, calls: seq<Call>, n: nat)
    requires n <= |calls|
    requires forall i :: 0 <= i < n ==> AtPar(Before(self, ledger, calls, i).config)
    requires forall i :: 0 <= i < n && (calls[i].Fund? || calls[i].RouteFromExchange? || calls[i].BatchFund?)
                         ==> calls[i].source != self
    ensures TokenCustody(Before(self, ledger, calls, n))
    ensures Before(self, ledger, calls, n).self == self
  {
    if n == 0 {
      assert calls[..0] == [];
    } else {
      TokenCustodyHolds(self, ledger, calls, n - 1);
      FeesNeverNegative(self, ledger, calls, n - 1);
      BeforeNext(self, ledger, calls, n - 1);
      hide Inv, TokenCustody;
      StepTokenCustody(Before(self, ledger, calls, n - 1), calls[n - 1]);
    }
  }

  lemma {:induction false} FeesNeverNegative(self: Address, ledger: nat, calls: seq<Call>, n: nat)
    requires n <= |calls|
    ensures Before(self, ledger, calls, n).books.accumulatedFees >= 0
  {
    if n == 0 {
      assert calls[..0] == [];
    } else {
      FeesNeverNegative(self, ledger, calls, n - 1);
      BeforeNext(self, ledger, calls, n - 1);
      hide Inv;
      StepFees(Before(self, ledger, calls, n - 1), calls[n - 1]);
    }
  }

  lemma StepFees(s: State, c: Call)
    requires Inv(s) && s.books.accumulatedFees >= 0
    ensures Next(s, c).books.accumulatedFees >= 0
  {
    hide Inv, FundInternal, Sweep, Moved;
    if Step(s, c).Ok? {
      match c
      case Fund(source, target, token, amount, memo) => FundFees(s, source, target, token, amount, memo);
      case RouteFromExchange(source, target, token, amount, memo) => FundFees(s, source, target, token, amount, memo);
      case BatchFund(source, targets, tokens, amounts, memos) => BatchFees(s, source, targets, tokens, amounts, memos, |targets|);
      case PruneProposals(maxScan) => PruneFrame(s, maxScan);
      case _ =>
    }
  }

  lemma FundFees(s: State, source: Address, target: Address, token: Address, amount: int, memo: seq<byte>)
    requires Inv(s) && FundInternal(s, source, target, token, amount, memo).Ok?
    ensures var (s', fee) := FundInternal(s, source, target, token, amount, memo).value;
            && Inv(s') && s'.config == s.config
            && 0 <= fee == s'.books.accumulatedFees - s.books.accumulatedFees
  {
    FeeInRange(s, source, token, amount);
    hide GovOk, FeeFor, FeeFits, AccrualFits, RecordFits, Moved, CanMove;
  }

  lemma {:induction false} BatchFees(s: State, source: Address, targets: seq<Address>, tokens: seq<Address>,
                                     amounts: seq<int>, memos: seq<seq<byte>>, n: nat)
    requires n <= |targets| == |tokens| == |amounts| == |memos|
    requires Inv(s) && BatchItems(s, source, targets, tokens, amounts, memos, n).Ok?
    ensures var (s', fees) := BatchItems(s, source, targets, tokens, amounts, memos, n).value;
            && Inv(s') && s'.config == s.config
            && 0 <= fees == s'.books.accumulatedFees - s.books.accumulatedFees
  {
    hide Inv, FundInternal;
    if n > 0 {
      BatchFees(s, source, targets, tokens, amounts, memos, n - 1);
      var mid := BatchItems(s, source, targets, tokens, amounts, memos, n - 1).value.0;
      FundFees(mid, source, targets[n - 1], tokens[n - 1], amounts[n - 1], memos[n - 1]);
    }
  }
}
