/** Every counter is a fold over the funding log, in every reachable state. */
module BridgeBooks {
  import opened BridgeTypes
  import opened BridgeSpec
  import opened BridgeGovernance
  import opened ProposalLifecycle

  // ----- the log and its folds -----

  function Log(m: map<nat, FundingRecord>, n: nat): (log: seq<FundingRecord>)
    requires forall i :: 1 <= i <= n ==> i in m
    ensures |log| == n
    ensures forall i :: 0 <= i < n ==> log[i] == m[i + 1]
  {
    if n == 0 then [] else Log(m, n - 1) + [m[n]]
  }

  /** What a counter counts. */
  datatype Measure =
    | Amounts | AmountsIn(token: Address) | AmountsBy(user: Address, token: Address)
    | Fees | FeesIn(token: Address) | FeesElsewhere(token: Address) | Hot

  function Value(q: Measure, r: FundingRecord): int {
    match q
    case Amounts => r.amount
    case AmountsIn(token) => if r.token == token then r.amount else 0
    case AmountsBy(user, token) => if r.source == user && r.token == token then r.amount else 0
    case Fees => r.fee
    case FeesIn(token) => if r.token == token then r.fee else 0
    case FeesElsewhere(token) => if r.token == token then 0 else r.fee
    case Hot => if r.archived then 0 else 1
  }

  function Total(q: Measure, log: seq<FundingRecord>): int {
    if |log| == 0 then 0 else Total(q, log[..|log| - 1]) + Value(q, log[|log| - 1])
  }

  function Sources(log: seq<FundingRecord>): set<Address> {
    set r | r in log :: r.source
  }

  ghost predicate RecordsStored(m: map<nat, FundingRecord>, count: nat) {
    forall i :: i in m <==> 1 <= i <= count
  }

  ghost function LogOf(b: Books): seq<FundingRecord>
    requires RecordsStored(b.records, b.fundingCount)
  {
    Log(b.records, b.fundingCount)
  }

  ghost predicate VolumesOk(total: int, byToken: map<Address, int>, byUser: map<(Address, Address), int>, log: seq<FundingRecord>) {
    && total == Total(Amounts, log)
    && (forall t :: Get(byToken, t, 0) == Total(AmountsIn(t), log))
    && (forall u, t :: Get(byUser, (u, t), 0) == Total(AmountsBy(u, t), log))
  }

  ghost predicate FundersOk(funders: set<Address>, count: nat, log: seq<FundingRecord>) {
    funders == Sources(log) && count == |funders|
  }

  ghost predicate RecordOk(r: FundingRecord) {
    r.amount > 0 && 0 <= r.fee <= r.amount
  }

  ghost predicate RecordsOk(log: seq<FundingRecord>) {
    forall i :: 0 <= i < |log| ==> RecordOk(log[i])
  }

  ghost predicate BooksOk(b: Books) {
    && RecordsStored(b.records, b.fundingCount)
    && VolumesOk(b.totalVolume, b.volumeByToken, b.userVolume, LogOf(b))
    && FundersOk(b.funders, b.funderCount, LogOf(b))
    && b.hotCount == Total(Hot, LogOf(b))
    && RecordsOk(LogOf(b))
    && b.nextArchiveRecordId >= 1
  }

  lemma TotalSnoc(q: Measure, log: seq<FundingRecord>, r: FundingRecord)
    ensures Total(q, log + [r]) == Total(q, log) + Value(q, r)
  {
    assert (log + [r])[..|log|] == log;
  }

  lemma {:induction false} TotalUpdate(q: Measure, log: seq<FundingRecord>, i: nat, r: FundingRecord)
    requires i < |log|
    ensures Total(q, log[i := r]) == Total(q, log) - Value(q, log[i]) + Value(q, r)
  {
    var n := |log| - 1;
    if i < n {
      assert log[i := r][..n] == log[..n][i := r];
      TotalUpdate(q, log[..n], i, r);
    } else {
      assert log[i := r][..n] == log[..n];
    }
  }

  lemma {:induction false} HotIsACount(log: seq<FundingRecord>)
    ensures 0 <= Total(Hot, log) <= |log|
  {
    if |log| > 0 {
      HotIsACount(log[..|log| - 1]);
    }
  }

  // ----- funding -----

  lemma VolumesSnoc(total: int, byToken: map<Address, int>, byUser: map<(Address, Address), int>,
                    log: seq<FundingRecord>, r: FundingRecord)
    requires VolumesOk(total, byToken, byUser, log)
    ensures VolumesOk(total + r.amount, byToken[r.token := Get(byToken, r.token, 0) + r.amount],
                      byUser[(r.source, r.token) := Get(byUser, (r.source, r.token), 0) + r.amount], log + [r])
  {
    TotalSnoc(Amounts, log, r);
    forall t
      ensures Total(AmountsIn(t), log + [r]) == Total(AmountsIn(t), log) + Value(AmountsIn(t), r)
    {
      TotalSnoc(AmountsIn(t), log, r);
    }
    forall u, t
      ensures Total(AmountsBy(u, t), log + [r]) == Total(AmountsBy(u, t), log) + Value(AmountsBy(u, t), r)
    {
      TotalSnoc(AmountsBy(u, t), log, r);
    }
  }

  lemma LogSnoc(m: map<nat, FundingRecord>, n: nat, r: FundingRecord)
    requires RecordsStored(m, n)
    ensures RecordsStored(m[n + 1 := r], n + 1)
    ensures Log(m[n + 1 := r], n + 1) == Log(m, n) + [r]
  {
    assert Log(m[n + 1 := r], n) == Log(m, n);
  }

  lemma RecordedKeeps(b: Books, r: FundingRecord)
    requires BooksOk(b) && RecordOk(r) && !r.archived
    ensures BooksOk(Recorded(b, r))
    ensures LogOf(Recorded(b, r)) == LogOf(b) + [r]
  {
    hide VolumesOk, Log, Total, Sources, RecordOk;
    LogSnoc(b.records, b.fundingCount, r);
    VolumesSnoc(b.totalVolume, b.volumeByToken, b.userVolume, LogOf(b), r);
    SourcesSnoc(LogOf(b), r);
    TotalSnoc(Hot, LogOf(b), r);
    if r.source in b.funders {
      assert b.funders + {r.source} == b.funders;
    }
  }

  lemma SourcesSnoc(log: seq<FundingRecord>, r: FundingRecord)
    ensures Sources(log + [r]) == Sources(log) + {r.source}
  {
    forall a | a in Sources(log) + {r.source}
      ensures a in Sources(log + [r])
    {
      if a == r.source {
        assert r in log + [r];
      } else {
        var x :| x in log && x.source == a;
        assert x in log + [r];
      }
    }
  }

  /** The arithmetic of an accepted amount never overflows, and the fee lies between 0 and the amount. */
  lemma FeeInRange(s: State, source: Address, token: Address, amount: int)
    requires ConfigOk(s) && 0 <= amount <= MAX_SAFE_AMOUNT
    ensures FeeFits(s, source, token, amount)
    ensures 0 <= FeeFor(s, source, token, amount) <= amount
    ensures s.config.feeBps <= 2 * BpsFor(s, source, token) <= 2 * s.config.feeBps
  {
    var fee, d := s.config.feeBps, RebateBps(s, source, token);
    BestDiscountCapped(s.config, Volume(s.books, source, token), s.config.tierCount);
    RebateAtMostHalf(fee, d);
    FeeAtMostAmount(amount, BpsFor(s, source, token));
  }

  lemma RebateAtMostHalf(fee: nat, d: nat)
    requires fee <= 10000 && d <= 5000
    ensures fee * d <= U32_MAX
    ensures 0 <= fee * d / 10000 && 2 * (fee * d / 10000) <= fee
  {
    Times(fee, d, 5000);
    Halves(fee * d, fee);
  }

  lemma Times(a: int, b: int, c: int)
    requires a >= 0 && b <= c
    ensures a * b <= a * c
  {
  }

  lemma Halves(product: nat, fee: nat)
    requires product <= 5000 * fee && fee <= 10000
    ensures product <= U32_MAX && 2 * (product / 10000) <= fee
  {
  }

  lemma FeeAtMostAmount(amount: int, bps: nat)
    requires 0 <= amount <= MAX_SAFE_AMOUNT && bps <= 10000
    ensures amount * bps <= I128_MAX
    ensures 0 <= FeeOn(amount, bps) <= amount
  {
    Times(amount, 0, bps);
    Times(amount, bps, 10000);
  }

  lemma {:induction false} BestDiscountCapped(c: Config, volume: int, n: nat)
    requires forall i :: i in c.tierDiscount ==> c.tierDiscount[i] <= 5000
    ensures BestDiscount(c, volume, n) <= 5000
  {
    if n > 0 {
      BestDiscountCapped(c, volume, n - 1);
    }
  }

  predicate ProductFits(amount: int, bps: nat, rate: nat) {
    FeeOn(amount, bps) * rate <= I128_MAX
  }

  /**
   * The fee × token-rate product fits i128 for every amount, rate of the fee and display rate the contract admits under a
   * fee cap exactly when the cap is at most 50%.
   */
  lemma TokenRateFitsIff(cap: nat)
    requires cap <= 10000
    ensures (forall amount: int, bps: nat, rate: nat ::
               0 <= amount <= MAX_SAFE_AMOUNT && bps <= cap && 1000 <= rate <= 20000 ==> ProductFits(amount, bps, rate))
            <==> cap <= 5000
  {
    if cap <= 5000 {
      forall amount: int, bps: nat, rate: nat |
          0 <= amount <= MAX_SAFE_AMOUNT && bps <= cap && 1000 <= rate <= 20000
        ensures ProductFits(amount, bps, rate)
      {
        HalfFeeTimesRate(amount, bps, rate);
      }
    } else {
      LargestFeeOverflows(cap);
      assert !ProductFits(MAX_SAFE_AMOUNT, cap, 20000);
    }
  }

  lemma LargestFeeOverflows(bps: nat)
    requires 5000 < bps <= 10000
    ensures FeeOn(MAX_SAFE_AMOUNT, bps) * 20000 > I128_MAX
  {
    Times(MAX_SAFE_AMOUNT, 5001, bps);
  }

  lemma HalfFeeTimesRate(amount: int, bps: nat, rate: nat)
    requires 0 <= amount <= MAX_SAFE_AMOUNT && bps <= 5000 && rate <= 20000
    ensures FeeOn(amount, bps) * rate <= I128_MAX
  {
    var fee := FeeOn(amount, bps);
    HalfOf(amount, bps);
    Times(fee, rate, 20000);
  }

  lemma HalfOf(amount: int, bps: nat)
    requires amount >= 0 && bps <= 5000
    ensures 0 <= 2 * FeeOn(amount, bps) <= amount
  {
    Times(amount, 0, bps);
    Times(amount, bps, 5000);
  }

  /** Once a contract is initialized with such a cap, no later funding panics for that product, whatever governance does. */
  lemma TokenRateFits(s: State, calls: seq<Call>, source: Address, token: Address, amount: int)
    requires Inv(s) && s.initialized && s.config.maxFeeBps <= 5000 && 0 <= amount <= MAX_SAFE_AMOUNT
    ensures var later := Run(s, calls);
            FeeFor(later, source, token, amount) * Get(later.config.rates, token, 10000) <= I128_MAX
  {
    RunKeepsInv(s, calls);
    LimitsAreForever(s, calls);
    var later := Run(s, calls);
    hide Run, GovOk;
    FeeInRange(later, source, token, amount);
    HalfFeeTimesRate(amount, BpsFor(later, source, token), Get(later.config.rates, token, 10000));
  }

  /** An accrual touches the two fee counters only. */
  lemma AccruedKeeps(c: Config, b: Books, token: Address, fee: int)
    requires BooksOk(b)
    ensures BooksOk(Accrued(c, b, token, fee)) && LogOf(Accrued(c, b, token, fee)) == LogOf(b)
  {
    hide VolumesOk, Log, Total, FundersOk, RecordOk, TokenFee;
  }

  lemma FundKeeps(s: State, source: Address, target: Address, token: Address, amount: int, memo: seq<byte>)
    requires Inv(s) && BooksOk(s.books) && FundInternal(s, source, target, token, amount, memo).Ok?
    ensures var s' := FundInternal(s, source, target, token, amount, memo).value.0;
            && Inv(s') && BooksOk(s'.books)
            && LogOf(s'.books) == LogOf(s.books) + [RecordOf(s, source, target, token, amount, memo)]
            && s'.books.accumulatedFees == s.books.accumulatedFees + RecordOf(s, source, target, token, amount, memo).fee
            && s'.books.nextArchiveRecordId == s.books.nextArchiveRecordId
            && FundInternal(s, source, target, token, amount, memo).value.1 == RecordOf(s, source, target, token, amount, memo).fee >= 0
  {
    hide BooksOk, GovOk, FeeFor;
    FeeInRange(s, source, token, amount);
    var r := RecordOf(s, source, target, token, amount, memo);
    AccruedKeeps(s.config, s.books, token, r.fee);
    RecordedKeeps(Accrued(s.config, s.books, token, r.fee), r);
  }

  /** Append-only: old records stay, except that a flag may go from hot to archived. */
  ghost predicate Extends(before: seq<FundingRecord>, after: seq<FundingRecord>) {
    && |before| <= |after|
    && forall i :: 0 <= i < |before| ==>
                     after[i] == before[i].(archived := after[i].archived) && (before[i].archived ==> after[i].archived)
  }

  /** `n` records more, and `fees` more on both sides of the fee account. */
  ghost predicate Grew(b: Books, b': Books, n: nat, fees: int) {
    && BooksOk(b) && BooksOk(b') && fees >= 0
    && Extends(LogOf(b), LogOf(b'))
    && |LogOf(b')| == |LogOf(b)| + n
    && Total(Fees, LogOf(b')) == Total(Fees, LogOf(b)) + fees
    && b'.accumulatedFees == b.accumulatedFees + fees
  }

  lemma GrewTwice(a: Books, b: Books, c: Books, n: nat, fees: int, fee: int)
    requires Grew(a, b, n, fees) && Grew(b, c, 1, fee)
    ensures Grew(a, c, n + 1, fees + fee)
  {
    hide BooksOk, Total, Log;
  }

  lemma FundItem(s: State, source: Address, target: Address, token: Address, amount: int, memo: seq<byte>)
    requires Inv(s) && BooksOk(s.books) && FundInternal(s, source, target, token, amount, memo).Ok?
    ensures var (s', fee) := FundInternal(s, source, target, token, amount, memo).value;
            Inv(s') && BooksOk(s'.books) && Grew(s.books, s'.books, 1, fee)
  {
    hide Inv, RecordOf, VolumesOk, FundersOk, RecordOk, Log, Total, FundInternal;
    FundKeeps(s, source, target, token, amount, memo);
    TotalSnoc(Fees, LogOf(s.books), RecordOf(s, source, target, token, amount, memo));
  }

  lemma GrewNone(b: Books)
    requires BooksOk(b)
    ensures Grew(b, b, 0, 0)
  {
  }

  /** A batch that succeeds appends one record per item and reports the sum of their fees. */
  lemma {:induction false} BatchKeeps(s: State, source: Address, targets: seq<Address>, tokens: seq<Address>,
                                      amounts: seq<int>, memos: seq<seq<byte>>, n: nat)
    requires n <= |targets| == |tokens| == |amounts| == |memos|
    requires Inv(s) && BooksOk(s.books)
    requires BatchItems(s, source, targets, tokens, amounts, memos, n).Ok?
    ensures var (s', fees) := BatchItems(s, source, targets, tokens, amounts, memos, n).value;
            Inv(s') && BooksOk(s'.books) && Grew(s.books, s'.books, n, fees)
  {
    hide BooksOk, Inv, FundInternal, Grew;
    if n == 0 {
      GrewNone(s.books);
    } else {
      BatchKeeps(s, source, targets, tokens, amounts, memos, n - 1);
      var (mid, fees) := BatchItems(s, source, targets, tokens, amounts, memos, n - 1).value;
      FundItem(mid, source, targets[n - 1], tokens[n - 1], amounts[n - 1], memos[n - 1]);
      var (end, fee) := FundInternal(mid, source, targets[n - 1], tokens[n - 1], amounts[n - 1], memos[n - 1]).value;
      GrewTwice(s.books, mid.books, end.books, n - 1, fees, fee);
    }
  }

  // ----- archiving -----

  /** Flags of ids `first .. first + n` are set and nothing else changes; the hot counter never saturates. */
  lemma {:induction false} ArchiveRangeExact(b: Books, first: nat, n: nat)
    requires BooksOk(b) && first >= 1
    ensures var b' := ArchiveRange(b, first, n);
            && BooksOk(b')
            && |LogOf(b')| == |LogOf(b)|
            && (forall i :: 0 <= i < |LogOf(b)| ==>
                              LogOf(b')[i] == LogOf(b)[i].(archived := LogOf(b)[i].archived || first <= i + 1 < first + n))
            && Total(Fees, LogOf(b')) == Total(Fees, LogOf(b))
  {
    hide VolumesOk, Log, Total, FundersOk, RecordsOk;
    if n > 0 {
      ArchiveRangeExact(b, first, n - 1);
      var mid := ArchiveRange(b, first, n - 1);
      var id := first + n - 1;
      if id in mid.records {
        ArchiveOne(mid, id);
      }
    }
  }

  lemma VolumesUpdate(total: int, byToken: map<Address, int>, byUser: map<(Address, Address), int>,
                      log: seq<FundingRecord>, i: nat, archived: bool)
    requires i < |log| && VolumesOk(total, byToken, byUser, log)
    ensures VolumesOk(total, byToken, byUser, log[i := log[i].(archived := archived)])
  {
    var r := log[i].(archived := archived);
    TotalUpdate(Amounts, log, i, r);
    forall t
      ensures Total(AmountsIn(t), log[i := r]) == Total(AmountsIn(t), log)
    {
      TotalUpdate(AmountsIn(t), log, i, r);
    }
    forall u, t
      ensures Total(AmountsBy(u, t), log[i := r]) == Total(AmountsBy(u, t), log)
    {
      TotalUpdate(AmountsBy(u, t), log, i, r);
    }
  }

  lemma LogUpdate(m: map<nat, FundingRecord>, n: nat, id: nat, r: FundingRecord)
    requires RecordsStored(m, n) && id in m
    ensures RecordsStored(m[id := r], n)
    ensures Log(m[id := r], n) == Log(m, n)[id - 1 := r]
  {
  }

  lemma ArchiveOne(b: Books, id: nat)
    requires BooksOk(b) && id in b.records
    ensures var b' := ArchivedOne(b, id);
            && BooksOk(b')
            && LogOf(b') == LogOf(b)[id - 1 := LogOf(b)[id - 1].(archived := true)]
            && Total(Fees, LogOf(b')) == Total(Fees, LogOf(b))
  {
    hide VolumesOk, Log, Total, Sources;
    var log := LogOf(b);
    var r := log[id - 1].(archived := true);
    LogUpdate(b.records, b.fundingCount, id, r);
    VolumesUpdate(b.totalVolume, b.volumeByToken, b.userVolume, log, id - 1, true);
    TotalUpdate(Fees, log, id - 1, r);
    TotalUpdate(Hot, log, id - 1, r);
    HotIsACount(log[id - 1 := r]);
    SourcesSame(log, log[id - 1 := r]);
  }

  lemma SourcesSame(a: seq<FundingRecord>, b: seq<FundingRecord>)
    requires |a| == |b| && forall i :: 0 <= i < |a| ==> a[i].source == b[i].source
    ensures Sources(a) == Sources(b)
  {
    forall x | x in a
      ensures exists y :: y in b && y.source == x.source
    {
      var i :| 0 <= i < |a| && a[i] == x;
      assert b[i] in b;
    }
    forall y | y in b
      ensures exists x :: x in a && x.source == y.source
    {
      var i :| 0 <= i < |b| && b[i] == y;
      assert a[i] in a;
    }
  }

  /** An archive call flags exactly the next `min(count, FundingCount)` ids that have a record. */
  lemma ArchiveExact(b: Books, count: nat)
    requires BooksOk(b) && Archive(b, count).Ok?
    ensures var b', first := Archive(b, count).value, b.nextArchiveRecordId;
            var last := first + if count > b.fundingCount then b.fundingCount else count;
            && BooksOk(b')
            && b'.nextArchiveRecordId == last
            && |LogOf(b')| == |LogOf(b)|
            && (forall i :: 0 <= i < |LogOf(b)| ==>
                              LogOf(b')[i] == LogOf(b)[i].(archived := LogOf(b)[i].archived || first <= i + 1 < last))
            && Total(Fees, LogOf(b')) == Total(Fees, LogOf(b))
            && b'.accumulatedFees == b.accumulatedFees
  {
    hide VolumesOk, Log, Total, FundersOk, RecordsOk, ArchiveRange;
    var n := if count > b.fundingCount then b.fundingCount else count;
    ArchiveRangeExact(b, b.nextArchiveRecordId, n);
  }

  // ----- whole runs -----

  ghost predicate FeesOk(b: Books)
    requires BooksOk(b)
  {
    0 <= b.accumulatedFees <= Total(Fees, LogOf(b))
  }

  ghost predicate BooksInv(b: Books) {
    BooksOk(b) && FeesOk(b)
  }

  /** What a call pays out of the fee account. */
  function PaidBy(s: State, c: Call): int {
    if c.Execute? && Step(s, c).Ok? then Step(s, c).value.1 else 0
  }

  /** This call makes `initialize` take effect. */
  predicate TakesOffice(s: State, c: Call) {
    c.Initialize? && !s.initialized && Step(s, c).Ok?
  }

  /** From `b` to `b'` the log only grows, and fees charged equal fees held plus fees paid. */
  ghost predicate Accounted(b: Books, b': Books, paid: int) {
    && BooksInv(b) && BooksInv(b')
    && Extends(LogOf(b), LogOf(b'))
    && Total(Fees, LogOf(b')) - Total(Fees, LogOf(b)) == b'.accumulatedFees + paid - b.accumulatedFees
  }

  lemma SameBooks(b: Books)
    requires BooksInv(b)
    ensures Accounted(b, b, 0)
  {
  }

  lemma GrewIsAccounted(b: Books, b': Books, n: nat, fees: int)
    requires BooksInv(b) && Grew(b, b', n, fees)
    ensures Accounted(b, b', 0)
  {
    hide BooksOk;
  }

  lemma WithdrawAccounted(s: State, to: Address, token: Address, amount: int)
    requires BooksInv(s.books) && Withdraw(s, to, token, amount).Ok?
    ensures var (s', paid) := Withdraw(s, to, token, amount).value;
            Accounted(s.books, s'.books, paid)
  {
    hide VolumesOk, FundersOk, Log, Total, Moved;
  }

  lemma ArchiveAccounted(b: Books, count: nat)
    requires BooksInv(b) && Archive(b, count).Ok?
    ensures Accounted(b, Archive(b, count).value, 0)
  {
    hide BooksOk, Archive, Total, Log;
    ArchiveExact(b, count);
  }

  lemma ExecuteAccounted(s: State, id: nat)
    requires BooksInv(s.books) && DoExecute(s, id).Ok?
    ensures Accounted(s.books, DoExecute(s, id).value.0.books, DoExecute(s, id).value.1)
  {
    hide BooksInv, Accounted, Withdraw, Archive;
    var marked := s.(gov := MarkExecuted(s.gov, id));
    SameBooks(s.books);
    match s.gov.proposals[id].action
    case WithdrawFees(to, token, amount) => WithdrawAccounted(marked, to, token, amount);
    case ArchiveOldEntries(count) => ArchiveAccounted(s.books, count);
    case _ =>
  }

  lemma FundAccounted(s: State, c: Call)
    requires Inv(s) && BooksInv(s.books) && MovesMoney(c)
    ensures Accounted(s.books, Next(s, c).books, 0)
  {
    SameBooks(s.books);
    hide Inv, BooksOk, Grew, Accounted, FundInternal, CanMove;
    if Step(s, c).Ok? {
      match c
      case Fund(source, target, token, amount, memo) =>
        FundItem(s, source, target, token, amount, memo);
        GrewIsAccounted(s.books, Next(s, c).books, 1, Step(s, c).value.1);
      case RouteFromExchange(source, target, token, amount, memo) =>
        FundItem(s, source, target, token, amount, memo);
        GrewIsAccounted(s.books, Next(s, c).books, 1, Step(s, c).value.1);
      case BatchFund(source, targets, tokens, amounts, memos) =>
        BatchKeeps(s, source, targets, tokens, amounts, memos, |targets|);
        GrewIsAccounted(s.books, Next(s, c).books, |targets|, Step(s, c).value.1);
      case _ =>
    }
  }

  lemma InitializeAccounted(s: State, c: Call)
    requires BooksInv(s.books) && TakesOffice(s, c) && s.books.fundingCount == 0
    ensures Accounted(s.books, Next(s, c).books, 0)
  {
  }

  /** Every step accounts for what it charges and pays, as long as `initialize` comes before the first funding. */
  lemma StepAccounted(s: State, c: Call)
    requires Inv(s) && BooksInv(s.books)
    requires TakesOffice(s, c) ==> s.books.fundingCount == 0
    ensures Accounted(s.books, Next(s, c).books, PaidBy(s, c))
  {
    SameBooks(s.books);
    hide BooksInv, Accounted, Inv, DoExecute, FundInternal, CanMove, Sweep;
    if MovesMoney(c) {
      FundAccounted(s, c);
    } else if TakesOffice(s, c) {
      InitializeAccounted(s, c);
    } else if c.Execute? && Step(s, c).Ok? {
      ExecuteAccounted(s, c.id);
    } else if c.PruneProposals? && Step(s, c).Ok? {
      PruneFrame(s, c.maxScan);
    }
  }

  /**
   * `initialize` resets the counters but not the per-token volumes or the records, so an initialization that takes
   * effect keeps the books exactly when nothing was funded before it.
   */
  lemma InitializeKeepsBooksIff(s: State, c: Call)
    requires BooksInv(s.books) && TakesOffice(s, c)
    ensures BooksInv(Next(s, c).books) <==> s.books.fundingCount == 0
    ensures s.books.fundingCount > 0 ==>
              && Next(s, c).books.totalVolume == 0
              && exists t :: Get(Next(s, c).books.volumeByToken, t, 0) > 0
  {
    if s.books.fundingCount == 0 {
      InitializeAccounted(s, c);
    } else {
      assert 1 in s.books.records;
      var log := LogOf(s.books);
      var r := log[0];
      FirstCounts(log, 0);
      assert RecordOk(r);
      assert Get(s.books.volumeByToken, r.token, 0) == Total(AmountsIn(r.token), log);
    }
  }

  lemma {:induction false} FirstCounts(log: seq<FundingRecord>, i: nat)
    requires i < |log| && RecordsOk(log)
    ensures Total(AmountsIn(log[i].token), log) >= log[i].amount
  {
    var n, t := |log| - 1, log[i].token;
    assert RecordOk(log[n]);
    if i < n {
      assert RecordsOk(log[..n]);
      FirstCounts(log[..n], i);
    } else {
      TotalNonNegative(log[..n], t);
    }
  }

  lemma {:induction false} TotalNonNegative(log: seq<FundingRecord>, t: Address)
    requires RecordsOk(log)
    ensures Total(AmountsIn(t), log) >= 0
  {
    if |log| > 0 {
      assert RecordsOk(log[..|log| - 1]);
      TotalNonNegative(log[..|log| - 1], t);
      assert RecordOk(log[|log| - 1]);
    }
  }

  /** Fees paid out during the first `n` calls. */
  function PaidOut(self: Address, ledger: nat, calls: seq<Call>, n: nat): int
    requires n <= |calls|
  {
    if n == 0 then 0
    else PaidOut(self, ledger, calls, n - 1) + PaidBy(Before(self, ledger, calls, n - 1), calls[n - 1])
  }

  /** In every reachable state each counter is its fold over the log, and fees held plus fees paid are the fees charged. */
  lemma {:induction false} CountersAreFolds(self: Address, ledger: nat, calls: seq<Call>, n: nat)
    requires n <= |calls|
    requires forall i :: 0 <= i < n && TakesOffice(Before(self, ledger, calls, i), calls[i])
                         ==> Before(self, ledger, calls, i).books.fundingCount == 0
    ensures var b := Before(self, ledger, calls, n).books;
            && BooksInv(b)
            && b.accumulatedFees + PaidOut(self, ledger, calls, n) == Total(Fees, LogOf(b))
  {
    if n == 0 {
      assert calls[..0] == [];
    } else {
      CountersAreFolds(self, ledger, calls, n - 1);
      BeforeNext(self, ledger, calls, n - 1);
      hide BooksOk, Inv;
      StepAccounted(Before(self, ledger, calls, n - 1), calls[n - 1]);
    }
  }
}
