/** The archive cursor can run ahead of the records: which records it then skips for good, and when it skips none. */
module BridgeArchive {
  import opened BridgeTypes
  import opened BridgeSpec
  import opened BridgeGovernance
  import opened ProposalLifecycle
  import opened BridgeBooks
  import opened BridgeWithdrawals

  /** The cursor is past the id of the next record. */
  predicate Overrun(b: Books) {
    b.nextArchiveRecordId > b.fundingCount + 1
  }

  /** Every record behind the cursor has its flag. */
  ghost predicate BehindIsArchived(b: Books)
    requires RecordsStored(b.records, b.fundingCount)
  {
    forall i :: i in b.records && i < b.nextArchiveRecordId ==> b.records[i].archived
  }

  lemma FundBehind(s: State, source: Address, target: Address, token: Address, amount: int, memo: seq<byte>)
    requires Inv(s) && BooksOk(s.books) && FundInternal(s, source, target, token, amount, memo).Ok?
    ensures var b, b' := s.books, FundInternal(s, source, target, token, amount, memo).value.0.books;
            && Inv(FundInternal(s, source, target, token, amount, memo).value.0) && BooksOk(b')
            && b'.fundingCount == b.fundingCount + 1 && b'.nextArchiveRecordId == b.nextArchiveRecordId
            && (forall i :: i in b.records ==> i in b'.records && b'.records[i] == b.records[i])
            && (BehindIsArchived(b') <==> BehindIsArchived(b) && !Overrun(b))
  {
    hide Inv, BooksOk, RecordOf, FundInternal;
    FundKeeps(s, source, target, token, amount, memo);
    FundRecords(s, source, target, token, amount, memo);
    Stored(s.books);
    AddedBehind(s.books, FundInternal(s, source, target, token, amount, memo).value.0.books,
                RecordOf(s, source, target, token, amount, memo));
  }

  lemma Stored(b: Books)
    requires BooksOk(b)
    ensures RecordsStored(b.records, b.fundingCount)
  {
  }

  lemma FundRecords(s: State, source: Address, target: Address, token: Address, amount: int, memo: seq<byte>)
    requires FundInternal(s, source, target, token, amount, memo).Ok?
    ensures var b, b', r := s.books, FundInternal(s, source, target, token, amount, memo).value.0.books,
                            RecordOf(s, source, target, token, amount, memo);
            && b'.records == b.records[b.fundingCount + 1 := r] && !r.archived
            && b'.fundingCount == b.fundingCount + 1 && b'.nextArchiveRecordId == b.nextArchiveRecordId
  {
    hide FeeFor, FundFits, Moved, TokenFee;
  }

  lemma AddedBehind(b: Books, b': Books, r: FundingRecord)
    requires RecordsStored(b.records, b.fundingCount) && !r.archived
    requires b'.records == b.records[b.fundingCount + 1 := r]
    requires b'.fundingCount == b.fundingCount + 1 && b'.nextArchiveRecordId == b.nextArchiveRecordId
    ensures RecordsStored(b'.records, b'.fundingCount)
    ensures forall i :: i in b.records ==> i in b'.records && b'.records[i] == b.records[i]
    ensures BehindIsArchived(b') <==> BehindIsArchived(b) && !Overrun(b)
  {
    assert forall i :: i in b'.records <==> i in b.records || i == b.fundingCount + 1;
    assert b'.records[b.fundingCount + 1] == r;
    assert forall i :: i in b.records ==> b'.records[i] == b.records[i];
  }

  lemma {:induction false} BatchBehind(s: State, source: Address, targets: seq<Address>, tokens: seq<Address>,
                                       amounts: seq<int>, memos: seq<seq<byte>>, n: nat)
    requires n <= |targets| == |tokens| == |amounts| == |memos|
    requires Inv(s) && BooksOk(s.books) && BatchItems(s, source, targets, tokens, amounts, memos, n).Ok?
    ensures var b, b' := s.books, BatchItems(s, source, targets, tokens, amounts, memos, n).value.0.books;
            && Inv(BatchItems(s, source, targets, tokens, amounts, memos, n).value.0) && BooksOk(b')
            && b'.fundingCount == b.fundingCount + n && b'.nextArchiveRecordId == b.nextArchiveRecordId
            && (forall i :: i in b.records ==> i in b'.records && b'.records[i] == b.records[i])
            && (BehindIsArchived(b') <==> BehindIsArchived(b) && (n == 0 || !Overrun(b)))
  {
    hide Inv, FundInternal, VolumesOk, FundersOk, RecordsOk, Log, Total, BehindIsArchived;
    if n > 0 {
      BatchBehind(s, source, targets, tokens, amounts, memos, n - 1);
      var mid := BatchItems(s, source, targets, tokens, amounts, memos, n - 1).value.0;
      FundBehind(mid, source, targets[n - 1], tokens[n - 1], amounts[n - 1], memos[n - 1]);
    }
  }

  lemma ArchiveBehind(b: Books, count: nat)
    requires BooksOk(b) && Archive(b, count).Ok?
    ensures var b' := Archive(b, count).value;
            && BooksOk(b') && b'.fundingCount == b.fundingCount
            && (forall i :: i in b.records && i < b.nextArchiveRecordId ==> i in b'.records && b'.records[i] == b.records[i])
            && b'.nextArchiveRecordId >= b.nextArchiveRecordId
            && (BehindIsArchived(b') <==> BehindIsArchived(b))
  {
    hide BooksOk, Archive;
    ArchiveFlags(b, count);
    Stored(b);
    Stored(Archive(b, count).value);
    FlaggedBehind(b, Archive(b, count).value);
  }

  /** `b'` is `b` with the flags of the ids between the two cursors set. */
  ghost predicate Flagged(b: Books, b': Books) {
    && b'.fundingCount == b.fundingCount && b.nextArchiveRecordId <= b'.nextArchiveRecordId
    && b'.records.Keys == b.records.Keys
    && forall i :: i in b.records ==>
                     b'.records[i] == b.records[i].(archived := b.records[i].archived
                                                                || b.nextArchiveRecordId <= i < b'.nextArchiveRecordId)
  }

  lemma ArchiveFlags(b: Books, count: nat)
    requires BooksOk(b) && Archive(b, count).Ok?
    ensures BooksOk(Archive(b, count).value) && Flagged(b, Archive(b, count).value)
  {
    ArchiveExact(b, count);
    var b' := Archive(b, count).value;
    Stored(b);
    Stored(b');
    ArchiveKeepsCount(b, count);
    hide BooksOk, Archive, Total, Log;
    forall i | i in b.records
      ensures b'.records[i] == b.records[i].(archived := b.records[i].archived || b.nextArchiveRecordId <= i < b'.nextArchiveRecordId)
    {
      assert LogOf(b)[i - 1] == b.records[i] && LogOf(b')[i - 1] == b'.records[i];
    }
  }

  lemma ArchiveKeepsCount(b: Books, count: nat)
    requires Archive(b, count).Ok?
    ensures var b' := Archive(b, count).value;
            b'.fundingCount == b.fundingCount && b.nextArchiveRecordId <= b'.nextArchiveRecordId && b'.records.Keys == b.records.Keys
  {
    hide ArchiveRange;
  }

  lemma FlaggedBehind(b: Books, b': Books)
    requires RecordsStored(b.records, b.fundingCount) && RecordsStored(b'.records, b'.fundingCount) && Flagged(b, b')
    ensures forall i :: i in b.records && i < b.nextArchiveRecordId ==> i in b'.records && b'.records[i] == b.records[i]
    ensures BehindIsArchived(b') <==> BehindIsArchived(b)
  {
    assert forall i :: i in b.records <==> i in b'.records;
  }

  /** Everything about a call that the archive depends on. */
  ghost predicate Moves(b: Books, b': Books) {
    && BooksOk(b) && BooksOk(b')
    && b.fundingCount <= b'.fundingCount && b.nextArchiveRecordId <= b'.nextArchiveRecordId
    && (forall i :: i in b.records && i < b.nextArchiveRecordId ==> i in b'.records && b'.records[i] == b.records[i])
    && (BehindIsArchived(b') <==> BehindIsArchived(b) && (b'.fundingCount > b.fundingCount ==> !Overrun(b)))
  }

  lemma SameMoves(b: Books, b': Books)
    requires BooksOk(b) && BooksOk(b')
    requires b'.fundingCount == b.fundingCount && b'.nextArchiveRecordId == b.nextArchiveRecordId && b'.records == b.records
    ensures Moves(b, b')
  {
    hide BooksOk;
  }

  lemma ExecuteMoves(s: State, id: nat)
    requires BooksOk(s.books) && DoExecute(s, id).Ok? && BooksOk(DoExecute(s, id).value.0.books)
    ensures Moves(s.books, DoExecute(s, id).value.0.books)
  {
    hide Moves, Moved, CanMove, Archive, BooksOk;
    match s.gov.proposals[id].action
    case ArchiveOldEntries(count) =>
      ArchiveBehind(s.books, count);
      ArchiveMoves(s.books, Archive(s.books, count).value);
    case _ => SameMoves(s.books, DoExecute(s, id).value.0.books);
  }

  lemma ArchiveMoves(b: Books, b': Books)
    requires BooksOk(b) && BooksOk(b') && b'.fundingCount == b.fundingCount
    requires forall i :: i in b.records && i < b.nextArchiveRecordId ==> i in b'.records && b'.records[i] == b.records[i]
    requires b'.nextArchiveRecordId >= b.nextArchiveRecordId && (BehindIsArchived(b') <==> BehindIsArchived(b))
    ensures Moves(b, b')
  {
    hide BooksOk, BehindIsArchived;
  }

  lemma StepMoves(s: State, c: Call)
    requires Inv(s) && BooksInv(s.books) && BooksInv(Next(s, c).books) && !TakesOffice(s, c)
    ensures Moves(s.books, Next(s, c).books)
  {
    hide Inv, BooksOk, Moves, DoExecute, FundInternal, BatchItems, Sweep, CanMove, Moved;
    assert BooksOk(s.books) && BooksOk(Next(s, c).books);
    hide BooksInv;
    if Step(s, c).Ok? {
      match c
      case Fund(source, target, token, amount, memo) => FundMoves(s, source, target, token, amount, memo);
      case RouteFromExchange(source, target, token, amount, memo) => FundMoves(s, source, target, token, amount, memo);
      case BatchFund(source, targets, tokens, amounts, memos) => BatchMoves(s, source, targets, tokens, amounts, memos);
      case Execute(id) => ExecuteMoves(s, id);
      case PruneProposals(maxScan) => PruneFrame(s, maxScan); SameMoves(s.books, Next(s, c).books);
      case _ => SameMoves(s.books, Next(s, c).books);
    } else {
      SameMoves(s.books, s.books);
    }
  }

  lemma FundMoves(s: State, source: Address, target: Address, token: Address, amount: int, memo: seq<byte>)
    requires Inv(s) && BooksOk(s.books) && FundInternal(s, source, target, token, amount, memo).Ok?
    ensures Moves(s.books, FundInternal(s, source, target, token, amount, memo).value.0.books)
  {
    hide Inv, BooksOk, FundInternal, BehindIsArchived;
    FundBehind(s, source, target, token, amount, memo);
  }

  lemma BatchMoves(s: State, source: Address, targets: seq<Address>, tokens: seq<Address>, amounts: seq<int>, memos: seq<seq<byte>>)
    requires |targets| == |tokens| == |amounts| == |memos| && |targets| > 0
    requires Inv(s) && BooksOk(s.books) && BatchItems(s, source, targets, tokens, amounts, memos, |targets|).Ok?
    ensures Moves(s.books, BatchItems(s, source, targets, tokens, amounts, memos, |targets|).value.0.books)
  {
    hide Inv, BooksOk, BatchItems, BehindIsArchived;
    BatchBehind(s, source, targets, tokens, amounts, memos, |targets|);
  }

  /** Call `i` added no record, or the cursor was not ahead. */
  ghost predicate InStep(self: Address, ledger: nat, calls: seq<Call>, i: nat)
    requires i < |calls|
  {
    var b, b' := Before(self, ledger, calls, i).books, Before(self, ledger, calls, i + 1).books;
    b'.fundingCount > b.fundingCount ==> !Overrun(b)
  }

  /** Every record behind the cursor is archived exactly when no record was ever added while the cursor was ahead. */
  lemma {:induction false} BehindIsArchivedIff(self: Address, ledger: nat, calls: seq<Call>, n: nat)
    requires n <= |calls| && InitializedFirst(self, ledger, calls, n)
    ensures var b := Before(self, ledger, calls, n).books;
            && BooksInv(b)
            && (BehindIsArchived(b) <==> forall i :: 0 <= i < n ==> InStep(self, ledger, calls, i))
  {
    CountersAreFolds(self, ledger, calls, n);
    if n == 0 {
      assert calls[..0] == [];
    } else {
      CountersAreFolds(self, ledger, calls, n - 1);
      BehindIsArchivedIff(self, ledger, calls, n - 1);
      StepBehind(self, ledger, calls, n - 1);
      hide InStep, BehindIsArchived, Before;
      assert (forall i :: 0 <= i < n ==> InStep(self, ledger, calls, i))
             <==> (forall i :: 0 <= i < n - 1 ==> InStep(self, ledger, calls, i)) && InStep(self, ledger, calls, n - 1);
    }
  }

  lemma StepBehind(self: Address, ledger: nat, calls: seq<Call>, n: nat)
    requires n < |calls| && InitializedFirst(self, ledger, calls, n + 1)
    requires BooksInv(Before(self, ledger, calls, n).books) && BooksInv(Before(self, ledger, calls, n + 1).books)
    ensures BehindIsArchived(Before(self, ledger, calls, n + 1).books)
            <==> BehindIsArchived(Before(self, ledger, calls, n).books) && InStep(self, ledger, calls, n)
  {
    BeforeNext(self, ledger, calls, n);
    var s, c := Before(self, ledger, calls, n), calls[n];
    hide Inv, Before, BooksOk, BehindIsArchived, Overrun;
    if TakesOffice(s, c) {
      assert Next(s, c).books.fundingCount == 0;
      NothingBehind(s.books);
      NothingBehind(Next(s, c).books);
    } else {
      StepMoves(s, c);
    }
  }

  lemma NothingBehind(b: Books)
    requires BooksInv(b) && b.fundingCount == 0
    ensures BehindIsArchived(b)
  {
  }

  lemma {:induction false} RunKeepsBooks(s: State, calls: seq<Call>)
    requires Inv(s) && s.initialized && BooksInv(s.books)
    ensures BooksInv(Run(s, calls).books)
  {
    if |calls| > 0 {
      var front, last := calls[..|calls| - 1], calls[|calls| - 1];
      RunKeepsBooks(s, front);
      RunKeepsInv(s, front);
      LimitsAreForever(s, front);
      hide Inv, BooksOk, FeesOk;
      RunLast(s, calls);
      hide Run;
      StepAccounted(Run(s, front), last);
    }
  }

  /** A record the cursor skipped stays unarchived for ever. */
  lemma {:induction false} SkippedStaysHot(s: State, calls: seq<Call>, id: nat)
    requires Inv(s) && s.initialized && BooksInv(s.books)
    requires id in s.books.records && id < s.books.nextArchiveRecordId && !s.books.records[id].archived
    ensures var b := Run(s, calls).books;
            id in b.records && id < b.nextArchiveRecordId && !b.records[id].archived
  {
    if |calls| > 0 {
      var front, last := calls[..|calls| - 1], calls[|calls| - 1];
      SkippedStaysHot(s, front, id);
      RunKeepsInv(s, front);
      LimitsAreForever(s, front);
      RunKeepsBooks(s, front);
      RunKeepsBooks(s, calls);
      RunLast(s, calls);
      hide Inv, BooksInv, Run;
      StepMoves(Run(s, front), last);
    }
  }

  lemma RunLast(s: State, calls: seq<Call>)
    requires |calls| > 0
    ensures Run(s, calls) == Next(Run(s, calls[..|calls| - 1]), calls[|calls| - 1])
  {
  }
}
