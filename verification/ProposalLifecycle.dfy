/** Safety of whole governance runs, built on the invariant every step keeps. */
module ProposalLifecycle {
  import opened BridgeTypes
  import opened BridgeSpec
  import opened BridgeGovernance

  /** The state just before call `i` of a run that starts at deployment. */
  function Before(self: Address, ledger: nat, calls: seq<Call>, i: nat): State
    requires i <= |calls|
  {
    Run(Deployed(self, ledger), calls[..i])
  }

  lemma BeforeNext(self: Address, ledger: nat, calls: seq<Call>, i: nat)
    requires i < |calls|
    ensures Inv(Before(self, ledger, calls, i))
    ensures Before(self, ledger, calls, i + 1) == Next(Before(self, ledger, calls, i), calls[i])
  {
    ReachableInv(self, ledger, calls[..i]);
    assert calls[..i + 1][..i] == calls[..i];
  }

  // ----- at most once -----

  /** `id` has been handed out and can only be stored as executed. */
  ghost predicate Spent(s: State, id: nat) {
    && s.initialized
    && id <= s.gov.nonce
    && (id in s.gov.proposals ==> s.gov.proposals[id].executed)
  }

  lemma ExecuteSpends(s: State, id: nat)
    requires Inv(s) && Step(s, Execute(id)).Ok?
    ensures Spent(Next(s, Execute(id)), id)
  {
    hide Act;
    ActFrame(s.(gov := MarkExecuted(s.gov, id)), s.gov.proposals[id].action);
  }

  lemma SpentKept(s: State, c: Call, id: nat)
    requires Inv(s) && Spent(s, id)
    ensures Spent(Next(s, c), id)
  {
    hide Act, FundFits, Funded, Moved, CanMove;
    if MovesMoney(c) {
      MoneyFrame(s, c);
    } else if c.Execute? && Step(s, c).Ok? {
      ActFrame(s.(gov := MarkExecuted(s.gov, c.id)), s.gov.proposals[c.id].action);
    } else if c.PruneProposals? {
      SweepExact(s.gov, s.config.admins, s.ledger, s.gov.nextPruneId, c.maxScan);
    }
  }

  lemma {:induction false} SpentAlong(self: Address, ledger: nat, calls: seq<Call>, i: nat, j: nat, id: nat)
    requires i < j <= |calls| && calls[i] == Execute(id)
    requires Step(Before(self, ledger, calls, i), calls[i]).Ok?
    ensures Spent(Before(self, ledger, calls, j), id)
  {
    BeforeNext(self, ledger, calls, j - 1);
    if j == i + 1 {
      ExecuteSpends(Before(self, ledger, calls, i), id);
    } else {
      SpentAlong(self, ledger, calls, i, j - 1, id);
      SpentKept(Before(self, ledger, calls, j - 1), calls[j - 1], id);
    }
  }

  /** In any run, whatever rotations and prunes lie between, a second execution of an id is refused. */
  lemma ExecutedAtMostOnce(self: Address, ledger: nat, calls: seq<Call>, i: nat, j: nat, id: nat)
    requires i < j < |calls| && calls[i] == Execute(id) == calls[j]
    requires Step(Before(self, ledger, calls, i), calls[i]).Ok?
    ensures Step(Before(self, ledger, calls, j), calls[j]).Err?
    ensures Step(Before(self, ledger, calls, j), calls[j]).error in {ProposalNotFound, ProposalExpired, ProposalAlreadyExecuted}
  {
    SpentAlong(self, ledger, calls, i, j, id);
  }

  // ----- who approved -----

  /** Call `c`, accepted in state `s`, is an approval of `id` by `a`, an admin at that moment. */
  ghost predicate Approves(s: State, c: Call, id: nat, a: Address) {
    && a in s.config.admins
    && Step(s, c).Ok?
    && (c == Approve(a, id) || (c.Propose? && c.proposer == a && Step(s, c).value.1 == id))
  }

  lemma NewFlag(s: State, c: Call, id: nat, a: Address)
    requires Inv(s)
    requires (id, a) in Next(s, c).gov.approvals && (id, a) !in s.gov.approvals
    ensures Approves(s, c, id, a)
  {
    hide Act, FundFits, Funded, Moved, CanMove;
    if MovesMoney(c) {
      MoneyFrame(s, c);
    } else if c.Execute? && Step(s, c).Ok? {
      ActFrame(s.(gov := MarkExecuted(s.gov, c.id)), s.gov.proposals[c.id].action);
    } else if c.PruneProposals? {
      SweepExact(s.gov, s.config.admins, s.ledger, s.gov.nextPruneId, c.maxScan);
    }
  }

  lemma {:induction false} FlagHasOrigin(self: Address, ledger: nat, calls: seq<Call>, n: nat, id: nat, a: Address)
    requires n <= |calls| && (id, a) in Before(self, ledger, calls, n).gov.approvals
    ensures exists i :: 0 <= i < n && Approves(Before(self, ledger, calls, i), calls[i], id, a)
  {
    if n > 0 {
      BeforeNext(self, ledger, calls, n - 1);
      if (id, a) in Before(self, ledger, calls, n - 1).gov.approvals {
        FlagHasOrigin(self, ledger, calls, n - 1, id, a);
      } else {
        NewFlag(Before(self, ledger, calls, n - 1), calls[n - 1], id, a);
      }
    }
  }

  /**
   * When call `n` executes `id`: a threshold's worth of distinct addresses each approved it earlier in the run while
   * an admin, and the ledger is inside the window.
   */
  lemma ExecutionJustified(self: Address, ledger: nat, calls: seq<Call>, n: nat, id: nat)
    returns (approvers: set<Address>)
    requires n < |calls| && calls[n] == Execute(id)
    requires Step(Before(self, ledger, calls, n), calls[n]).Ok?
    ensures 1 <= Before(self, ledger, calls, n).config.threshold <= |approvers|
    ensures forall a :: a in approvers ==>
                          exists i :: 0 <= i < n && Approves(Before(self, ledger, calls, i), calls[i], id, a)
    ensures var s := Before(self, ledger, calls, n);
            && id in s.gov.proposals
            && s.ledger <= s.gov.proposals[id].expiry
            && (Sensitive(s.gov.proposals[id].action) ==> s.ledger >= s.gov.proposals[id].proposedAt + MIN_EXEC_DELAY)
  {
    hide Act;
    var s := Before(self, ledger, calls, n);
    BeforeNext(self, ledger, calls, n);
    approvers := Flags(s.gov.approvals, id);
    assert ProposalOk(s.gov, s.ledger, id);
    forall a | a in approvers
      ensures exists i :: 0 <= i < n && Approves(Before(self, ledger, calls, i), calls[i], id, a)
    {
      FlagHasOrigin(self, ledger, calls, n, id, a);
    }
  }

  /**
   * Executing one proposal takes it off the index and leaves every other proposal, its approvals and its place on the
   * index alone. An admin's approval therefore still counts after the admin is rotated out.
   */
  lemma OthersUntouched(s: State, id: nat, other: nat)
    requires Inv(s) && Step(s, Execute(id)).Ok? && other != id
    ensures other in Next(s, Execute(id)).gov.proposals <==> other in s.gov.proposals
    ensures other in s.gov.proposals ==> Next(s, Execute(id)).gov.proposals[other] == s.gov.proposals[other]
    ensures Flags(Next(s, Execute(id)).gov.approvals, other) == Flags(s.gov.approvals, other)
    ensures other in Next(s, Execute(id)).gov.activeIds <==> other in s.gov.activeIds
    ensures id !in Next(s, Execute(id)).gov.activeIds
  {
    hide Act;
    WithoutKeeps(s.gov.activeIds, id);
    ActFrame(s.(gov := MarkExecuted(s.gov, id)), s.gov.proposals[id].action);
  }

  // ----- the active index -----

  /** The index returned is the set of live proposals, once each, in increasing id order. */
  lemma ActiveIsScan(s: State)
    requires Inv(s)
    ensures Increasing(Next(s, GetActiveProposals).gov.activeIds)
    ensures forall id :: id in Next(s, GetActiveProposals).gov.activeIds <==> Live(s, id)
  {
    LiveIdsExact(s.gov, s.ledger, |s.gov.activeIds|);
    assert s.gov.activeIds[..|s.gov.activeIds|] == s.gov.activeIds;
  }

  /** Only its own execution, or time, takes a live proposal away; everything but the approval count is kept. */
  lemma LiveIsKept(s: State, c: Call, id: nat)
    requires Inv(s) && Live(s, id) && c != Execute(id)
    ensures var p, g' := s.gov.proposals[id], Next(s, c).gov;
            && id in g'.proposals
            && g'.proposals[id] == p.(approvalCount := g'.proposals[id].approvalCount)
            && g'.proposals[id].approvalCount == p.approvalCount + (if c.Approve? && c.id == id && Step(s, c).Ok? then 1 else 0)
  {
    hide Act, FundFits, Funded, Moved, CanMove, Sweep, FundInternal, LiveIds, IndexOk;
    if MovesMoney(c) {
      MoneyFrame(s, c);
    } else if c.Execute? && Step(s, c).Ok? {
      ActFrame(s.(gov := MarkExecuted(s.gov, c.id)), s.gov.proposals[c.id].action);
    } else if c.PruneProposals? {
      SweepExact(s.gov, s.config.admins, s.ledger, s.gov.nextPruneId, c.maxScan);
    }
  }

  // ----- pruning -----

  /** Pruning removes a block of dead ids from the front, reports its length, and stops for one of three reasons. */
  lemma PruneIsExact(s: State, maxScan: nat)
    requires Inv(s) && Step(s, PruneProposals(maxScan)).Ok?
    ensures var g, g', pruned := s.gov, Next(s, PruneProposals(maxScan)).gov, Step(s, PruneProposals(maxScan)).value.1;
            && pruned == g'.nextPruneId - g.nextPruneId <= maxScan
            && (forall id :: id in g'.proposals <==> g'.nextPruneId <= id <= g.nonce)
            && (forall id :: g.nextPruneId <= id < g'.nextPruneId ==> !Live(s, id))
            && (pruned == maxScan || g'.nextPruneId == g.nonce + 1 || Live(s, g'.nextPruneId))
            && g'.nonce == g.nonce
            && forall f :: f in g'.approvals <==>
                             && f in g.approvals
                             && !(g.nextPruneId <= f.0 < g'.nextPruneId && (f.1 in s.config.admins || f.1 == g.proposals[f.0].proposer))
  {
    SweepExact(s.gov, s.config.admins, s.ledger, s.gov.nextPruneId, maxScan);
    SweepApprovals(s.gov, s.config.admins, s.ledger, s.gov.nextPruneId, maxScan);
  }

  /** A pruned proposal loses the flags of the current admins and of its proposer; no other flag is touched. */
  lemma {:induction false} SweepApprovals(g: Governance, admins: seq<Address>, ledger: nat, cursor: nat, scans: nat)
    requires cursor <= g.nonce + 1
    requires forall id :: id in g.proposals <==> cursor <= id <= g.nonce
    ensures var (swept, end, _) := Sweep(g, admins, ledger, cursor, scans);
            && cursor <= end <= g.nonce + 1
            && forall f :: f in swept.approvals <==>
                             && f in g.approvals
                             && !(cursor <= f.0 < end && (f.1 in admins || f.1 == g.proposals[f.0].proposer))
    decreases scans
  {
    if scans > 0 && cursor <= g.nonce && !LiveAt(g.proposals[cursor], ledger) {
      SweepApprovals(Drop(g, cursor, admins), admins, ledger, cursor + 1, scans - 1);
    }
  }

  /** A sweep cut in two is the same sweep. */
  lemma {:induction false} SweepSplits(g: Governance, admins: seq<Address>, ledger: nat, cursor: nat, a: nat, b: nat)
    ensures var (g1, c1, p1) := Sweep(g, admins, ledger, cursor, a);
            var (g2, c2, p2) := Sweep(g1, admins, ledger, c1, b);
            Sweep(g, admins, ledger, cursor, a + b) == (g2, c2, p1 + p2)
    decreases a
  {
    if a > 0 && cursor <= g.nonce {
      if cursor !in g.proposals {
        SweepSplits(g, admins, ledger, cursor + 1, a - 1, b);
      } else if !LiveAt(g.proposals[cursor], ledger) {
        SweepSplits(Drop(g, cursor, admins), admins, ledger, cursor + 1, a - 1, b);
      }
    }
  }

  /** The stored cursor plays no part in the loop. */
  lemma {:induction false} SweepIgnoresCursorKey(g: Governance, admins: seq<Address>, ledger: nat, cursor: nat, n: nat, k: nat)
    ensures var (swept, end, pruned) := Sweep(g, admins, ledger, cursor, n);
            Sweep(g.(nextPruneId := k), admins, ledger, cursor, n) == (swept.(nextPruneId := k), end, pruned)
    decreases n
  {
    if n > 0 && cursor <= g.nonce {
      if cursor !in g.proposals {
        SweepIgnoresCursorKey(g, admins, ledger, cursor + 1, n - 1, k);
      } else if !LiveAt(g.proposals[cursor], ledger) {
        SweepIgnoresCursorKey(Drop(g, cursor, admins), admins, ledger, cursor + 1, n - 1, k);
        assert Drop(g, cursor, admins).(nextPruneId := k) == Drop(g.(nextPruneId := k), cursor, admins);
      }
    }
  }

  /** Anyone's prune of an initialized contract is accepted, short of the last id. */
  lemma PruneIsAccepted(s: State, maxScan: nat)
    requires Inv(s) && s.initialized && s.gov.nonce < U32_MAX
    ensures Step(s, PruneProposals(maxScan)).Ok?
  {
    SweepExact(s.gov, s.config.admins, s.ledger, s.gov.nextPruneId, maxScan);
    hide Sweep;
  }

  lemma {:induction false} SweepAdvances(g: Governance, admins: seq<Address>, ledger: nat, cursor: nat, n: nat)
    ensures cursor <= Sweep(g, admins, ledger, cursor, n).1
    decreases n
  {
    if n > 0 && cursor <= g.nonce {
      if cursor !in g.proposals {
        SweepAdvances(g, admins, ledger, cursor + 1, n - 1);
      } else if !LiveAt(g.proposals[cursor], ledger) {
        SweepAdvances(Drop(g, cursor, admins), admins, ledger, cursor + 1, n - 1);
      }
    }
  }

  lemma PruneStep(s: State, n: nat)
    ensures Step(s, PruneProposals(n)) == DoPrune(s, n)
  {
    hide DoPrune;
  }

  /** Two prunes at one ledger do what one prune with the summed budget does, whenever that one is accepted. */
  lemma PruneComposes(s: State, a: nat, b: nat)
    requires Step(s, PruneProposals(a + b)).Ok?
    ensures Next(Next(s, PruneProposals(a)), PruneProposals(b)) == Next(s, PruneProposals(a + b))
    ensures Step(s, PruneProposals(a)).Ok? && Step(Next(s, PruneProposals(a)), PruneProposals(b)).Ok?
    ensures Step(s, PruneProposals(a)).value.1 + Step(Next(s, PruneProposals(a)), PruneProposals(b)).value.1
            == Step(s, PruneProposals(a + b)).value.1
  {
    hide Sweep, Step;
    PruneStep(s, a);
    PruneStep(Next(s, PruneProposals(a)), b);
    PruneStep(s, a + b);
    var admins, first := s.config.admins, s.gov.nextPruneId;
    var (g1, c1, p1) := Sweep(s.gov, admins, s.ledger, first, a);
    SweepSplits(s.gov, admins, s.ledger, first, a, b);
    SweepIgnoresCursorKey(g1, admins, s.ledger, c1, b, c1);
    SweepAdvances(g1, admins, s.ledger, c1, b);
  }
}
