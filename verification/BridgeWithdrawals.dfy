/** A withdrawal with amount 0: what it pays, and what it strands in the other tokens. */
module BridgeWithdrawals {
  import opened BridgeTypes
  import opened BridgeSpec
  import opened BridgeGovernance
  import opened ProposalLifecycle
  import opened BridgeBooks
  import opened BridgeCustody

  /**
   * After it, the counter of any other token still shows what it did, but nothing of it can be withdrawn: every amount is
   * refused, and 0 pays nothing and wipes the counter.
   */
  lemma WithdrawAllStrandsTheOthers(s: State, to: Address, token: Address, other: Address, receiver: Address, amount: int)
    requires Withdraw(s, to, token, 0).Ok? && other != token && OwedIn(s, other) > 0
    ensures var s' := Withdraw(s, to, token, 0).value.0;
            && s'.books.accumulatedFees == 0 && OwedIn(s', token) == 0 && OwedIn(s', other) == OwedIn(s, other)
            && (amount != 0 ==> Withdraw(s', receiver, other, amount).Err?)
            && (Withdraw(s', receiver, other, 0).Ok? ==>
                  var (wiped, paid) := Withdraw(s', receiver, other, 0).value;
                  && paid == 0 && OwedIn(wiped, other) == 0
                  && forall t, h :: Bal(wiped.balances, t, h) == Bal(s'.balances, t, h))
  {
    var s' := Withdraw(s, to, token, 0).value.0;
    MovedExact(s'.balances, other, s.self, receiver, 0);
    hide Moved;
  }

  // ----- what was charged in a token, and what was paid out in it -----

  function PaidByIn(s: State, c: Call, token: Address): int {
    if c.Execute? && Step(s, c).Ok? && s.gov.proposals[c.id].action.WithdrawFees? && s.gov.proposals[c.id].action.token == token
    then Step(s, c).value.1 else 0
  }

  /** Paid out in `token` during the first `n` calls. */
  function PaidIn(self: Address, ledger: nat, calls: seq<Call>, n: nat, token: Address): int
    requires n <= |calls|
  {
    if n == 0 then 0
    else PaidIn(self, ledger, calls, n - 1, token) + PaidByIn(Before(self, ledger, calls, n - 1), calls[n - 1], token)
  }

  /** Paid out in any other token. */
  function PaidElsewhere(self: Address, ledger: nat, calls: seq<Call>, n: nat, token: Address): int
    requires n <= |calls|
  {
    if n == 0 then 0
    else
      var s := Before(self, ledger, calls, n - 1);
      PaidElsewhere(self, ledger, calls, n - 1, token) + PaidBy(s, calls[n - 1]) - PaidByIn(s, calls[n - 1], token)
  }

  lemma {:induction false} FeesSplit(log: seq<FundingRecord>, token: Address)
    ensures Total(Fees, log) == Total(FeesIn(token), log) + Total(FeesElsewhere(token), log)
  {
    if |log| > 0 {
      FeesSplit(log[..|log| - 1], token);
    }
  }

  lemma {:induction false} PaymentsSplit(self: Address, ledger: nat, calls: seq<Call>, n: nat, token: Address)
    requires n <= |calls|
    ensures PaidOut(self, ledger, calls, n) == PaidIn(self, ledger, calls, n, token) + PaidElsewhere(self, ledger, calls, n, token)
  {
    hide PaidBy, PaidByIn;
    if n > 0 {
      PaymentsSplit(self, ledger, calls, n - 1, token);
    }
  }

  /** Nothing was funded before an `initialize` that took effect. */
  ghost predicate InitializedFirst(self: Address, ledger: nat, calls: seq<Call>, n: nat)
    requires n <= |calls|
  {
    forall i :: 0 <= i < n && TakesOffice(Before(self, ledger, calls, i), calls[i])
                ==> Before(self, ledger, calls, i).books.fundingCount == 0
  }

  /** Fees charged in `token` and not yet paid out in it, by the log and the payments, whatever the counters say. */
  ghost function Own(self: Address, ledger: nat, calls: seq<Call>, n: nat, token: Address): int
    requires n <= |calls| && BooksInv(Before(self, ledger, calls, n).books)
  {
    Total(FeesIn(token), LogOf(Before(self, ledger, calls, n).books)) - PaidIn(self, ledger, calls, n, token)
  }

  /** The same over all other tokens. */
  ghost function Elsewhere(self: Address, ledger: nat, calls: seq<Call>, n: nat, token: Address): int
    requires n <= |calls| && BooksInv(Before(self, ledger, calls, n).books)
  {
    Total(FeesElsewhere(token), LogOf(Before(self, ledger, calls, n).books)) - PaidElsewhere(self, ledger, calls, n, token)
  }

  /** The one total on the account is what is outstanding in the token and what is outstanding in all others. */
  lemma AccountSplits(self: Address, ledger: nat, calls: seq<Call>, n: nat, token: Address)
    requires n <= |calls| && InitializedFirst(self, ledger, calls, n)
    ensures var b := Before(self, ledger, calls, n).books;
            && BooksInv(b)
            && b.accumulatedFees == Own(self, ledger, calls, n, token) + Elsewhere(self, ledger, calls, n, token)
  {
    CountersAreFolds(self, ledger, calls, n);
    hide BooksOk, Total, PaidOut, PaidIn, PaidElsewhere;
    FeesSplit(LogOf(Before(self, ledger, calls, n).books), token);
    PaymentsSplit(self, ledger, calls, n, token);
  }

  /**
   * An executed withdrawal of "all" of a token pays exactly what is outstanding in that token when the other tokens have
   * nothing outstanding, more when they have; and it pays exactly the token's counter when what is outstanding elsewhere
   * and what the token accrued without its counter cancel out.
   */
  lemma WithdrawAllPaysItsOwnIff(self: Address, ledger: nat, calls: seq<Call>, n: nat, id: nat, to: Address, token: Address)
    requires n < |calls| && calls[n] == Execute(id) && InitializedFirst(self, ledger, calls, n)
    requires var s := Before(self, ledger, calls, n);
             Step(s, Execute(id)).Ok? && s.gov.proposals[id].action == WithdrawFees(to, token, 0)
    ensures var s := Before(self, ledger, calls, n);
            var paid := Step(s, Execute(id)).value.1;
            && BooksInv(s.books)
            && var own, elsewhere := Own(self, ledger, calls, n, token), Elsewhere(self, ledger, calls, n, token);
               && paid - own == elsewhere
               && (paid == own <==> elsewhere == 0)
               && (paid == OwedIn(s, token) <==> elsewhere + (own - OwedIn(s, token)) == 0)
  {
    AccountSplits(self, ledger, calls, n, token);
    hide BooksInv, Own, Elsewhere, Before, Moved, CanMove;
  }

  /** Once the account is empty, all later payments together, in whatever token, are at most the fees charged later. */
  lemma LaterPaymentsComeFromLaterFees(self: Address, ledger: nat, calls: seq<Call>, n: nat, m: nat)
    requires n <= m <= |calls| && InitializedFirst(self, ledger, calls, m)
    requires Before(self, ledger, calls, n).books.accumulatedFees == 0
    ensures var early, late := Before(self, ledger, calls, n).books, Before(self, ledger, calls, m).books;
            && BooksInv(early) && BooksInv(late)
            && PaidOut(self, ledger, calls, m) - PaidOut(self, ledger, calls, n)
               <= Total(Fees, LogOf(late)) - Total(Fees, LogOf(early))
  {
    CountersAreFolds(self, ledger, calls, n);
    CountersAreFolds(self, ledger, calls, m);
    FeesNeverNegative(self, ledger, calls, m);
    hide BooksOk, Total, PaidOut, Before;
  }
}
