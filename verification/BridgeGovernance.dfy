/** Multisig: what every step keeps, who approved an execution, the active index and incremental pruning. */
module BridgeGovernance {
  import opened BridgeTypes
  import opened BridgeSpec

  // ----- the invariant -----

  function Flags(approvals: set<(nat, Address)>, id: nat): set<Address> {
    set f | f in approvals && f.0 == id :: f.1
  }

  ghost predicate ProposalOk(g: Governance, ledger: nat, id: nat)
    requires id in g.proposals
  {
    var p := g.proposals[id];
    && p.id == id
    && p.proposedAt <= ledger
    && p.proposedAt + MIN_EXEC_DELAY <= p.expiry <= U32_MAX
    && p.approvalCount == |Flags(g.approvals, id)|
  }

  ghost predicate Increasing(ids: seq<nat>) {
    forall i, j :: 0 <= i < j < |ids| ==> ids[i] < ids[j]
  }

  ghost predicate IndexOk(g: Governance, ledger: nat) {
    && Increasing(g.activeIds)
    && (forall i :: 0 <= i < |g.activeIds| ==> 1 <= g.activeIds[i] <= g.nonce)
    && (forall id :: id in g.proposals && LiveAt(g.proposals[id], ledger) ==> id in g.activeIds)
  }

  ghost predicate GovOk(g: Governance, ledger: nat) {
    && 1 <= g.nextPruneId <= g.nonce + 1
    && (forall id :: id in g.proposals <==> g.nextPruneId <= id <= g.nonce)
    && (forall id :: id in g.proposals ==> ProposalOk(g, ledger, id))
    && (forall f :: f in g.approvals ==> 1 <= f.0 <= g.nonce)
    && IndexOk(g, ledger)
  }

  ghost predicate ConfigOk(s: State) {
    && (s.initialized ==> 1 <= s.config.threshold <= |s.config.admins| && s.self !in s.config.admins)
    && s.config.feeBps == s.config.params.feeBps <= s.config.maxFeeBps == s.config.params.maxFeeBps <= 10000
    && s.config.minAmount >= 1
    && s.config.tierCount <= MAX_TIERS
    && (forall i :: i in s.config.tierDiscount ==> s.config.tierDiscount[i] <= 5000)
    && (forall t :: t in s.config.rates ==> 1000 <= s.config.rates[t] <= 20000)
  }

  ghost predicate Inv(s: State) {
    && GovOk(s.gov, s.ledger)
    && ConfigOk(s)
    && (!s.initialized ==> s.gov.nonce == 0)
  }

  // ----- frames -----

  lemma {:induction false} BatchFrame(s: State, source: Address, targets: seq<Address>, tokens: seq<Address>,
                                      amounts: seq<int>, memos: seq<seq<byte>>, n: nat)
    requires n <= |targets| == |tokens| == |amounts| == |memos|
    requires BatchItems(s, source, targets, tokens, amounts, memos, n).Ok?
    ensures var end := BatchItems(s, source, targets, tokens, amounts, memos, n).value.0;
            end == s.(books := end.books, balances := end.balances)
  {
    hide FundFits, FeeFor, Recorded, Accrued, Moved;
    if n > 0 {
      BatchFrame(s, source, targets, tokens, amounts, memos, n - 1);
    }
  }

  /** Carrying out an action never touches proposals, approvals, the clock or the contract's identity. */
  lemma ActFrame(s: State, a: Action)
    requires Act(s, a).Ok?
    ensures var end := Act(s, a).value.0;
            end == s.(config := end.config, books := end.books, balances := end.balances)
  {
    hide CanMove, Moved, Archive;
  }

  predicate MovesMoney(c: Call) {
    c.Fund? || c.BatchFund? || c.RouteFromExchange? || c.TokenTransfer? || c.Mint?
  }

  lemma MoneyFrame(s: State, c: Call)
    requires MovesMoney(c)
    ensures Next(s, c) == s.(books := Next(s, c).books, balances := Next(s, c).balances)
  {
    hide FundFits, FeeFor, Recorded, Accrued, Moved, CanMove;
    if c.BatchFund? && Step(s, c).Ok? {
      BatchFrame(s, c.source, c.targets, c.tokens, c.amounts, c.memos, |c.targets|);
    }
  }

  // ----- every step keeps the invariant -----

  lemma AddFlag(approvals: set<(nat, Address)>, id: nat, a: Address)
    requires (id, a) !in approvals
    ensures |Flags(approvals + {(id, a)}, id)| == |Flags(approvals, id)| + 1
    ensures forall other :: other != id ==> Flags(approvals + {(id, a)}, other) == Flags(approvals, other)
  {
    assert Flags(approvals + {(id, a)}, id) == Flags(approvals, id) + {a};
    assert a !in Flags(approvals, id);
  }

  lemma ProposeKeeps(s: State, proposer: Address, action: Action, expiryBlocks: nat)
    requires Inv(s) && DoPropose(s, proposer, action, expiryBlocks).Ok?
    ensures GovOk(DoPropose(s, proposer, action, expiryBlocks).value.0.gov, s.ledger)
  {
    var g, g' := s.gov, DoPropose(s, proposer, action, expiryBlocks).value.0.gov;
    var id := g.nonce + 1;
    AddFlag(g.approvals, id, proposer);
    assert Flags(g.approvals, id) == {};
    forall other | other in g'.proposals
      ensures ProposalOk(g', s.ledger, other)
    {
      if other != id {
        assert ProposalOk(g, s.ledger, other);
      }
    }
    assert forall other :: other in g.activeIds ==> other in g'.activeIds;
    assert g'.activeIds[|g.activeIds|] == id;
  }

  lemma ApproveKeeps(s: State, admin: Address, id: nat)
    requires Inv(s) && DoApprove(s, admin, id).Ok?
    ensures GovOk(DoApprove(s, admin, id).value.0.gov, s.ledger)
  {
    var g, g' := s.gov, DoApprove(s, admin, id).value.0.gov;
    AddFlag(g.approvals, id, admin);
    forall other | other in g'.proposals
      ensures ProposalOk(g', s.ledger, other)
    {
      assert ProposalOk(g, s.ledger, other);
    }
  }

  lemma {:induction false} WithoutKeeps(ids: seq<nat>, id: nat)
    requires Increasing(ids)
    ensures Increasing(Without(ids, id))
    ensures forall x :: x in Without(ids, id) <==> x in ids && x != id
  {
    if |ids| > 0 {
      var front := ids[..|ids| - 1];
      WithoutKeeps(front, id);
      assert ids == front + [ids[|ids| - 1]];
      var kept := Without(front, id);
      assert forall i :: 0 <= i < |kept| ==> kept[i] in front;
    }
  }

  lemma MarkKeeps(g: Governance, ledger: nat, id: nat)
    requires GovOk(g, ledger) && id in g.proposals
    ensures GovOk(MarkExecuted(g, id), ledger)
  {
    var g' := MarkExecuted(g, id);
    WithoutKeeps(g.activeIds, id);
    forall other | other in g'.proposals
      ensures ProposalOk(g', ledger, other)
    {
      assert ProposalOk(g, ledger, other);
    }
    forall i | 0 <= i < |g'.activeIds|
      ensures 1 <= g'.activeIds[i] <= g'.nonce
    {
      assert g'.activeIds[i] in g.activeIds;
    }
  }

  lemma {:induction false} LiveIdsExact(g: Governance, ledger: nat, n: nat)
    requires Increasing(g.activeIds) && n <= |g.activeIds|
    ensures Increasing(LiveIds(g, ledger, n))
    ensures forall id :: id in LiveIds(g, ledger, n)
                         <==> id in g.activeIds[..n] && id in g.proposals && LiveAt(g.proposals[id], ledger)
  {
    if n > 0 {
      LiveIdsExact(g, ledger, n - 1);
      assert g.activeIds[..n] == g.activeIds[..n - 1] + [g.activeIds[n - 1]];
      var front := LiveIds(g, ledger, n - 1);
      assert forall i :: 0 <= i < |front| ==> front[i] in g.activeIds[..n - 1];
    }
  }

  lemma GetActiveKeeps(s: State)
    requires Inv(s)
    ensures GovOk(DoGetActive(s).gov, s.ledger)
  {
    var g, g' := s.gov, DoGetActive(s).gov;
    LiveIdsExact(g, s.ledger, |g.activeIds|);
    assert g.activeIds[..|g.activeIds|] == g.activeIds;
    forall other | other in g'.proposals
      ensures ProposalOk(g', s.ledger, other)
    {
      assert ProposalOk(g, s.ledger, other);
    }
    forall i | 0 <= i < |g'.activeIds|
      ensures 1 <= g'.activeIds[i] <= g'.nonce
    {
      assert g'.activeIds[i] in g.activeIds;
    }
  }

  /** What a sweep does, without its loop: it clears a block of dead ids and stops at a live one, the scan limit or the end. */
  lemma {:induction false} SweepExact(g: Governance, admins: seq<Address>, ledger: nat, cursor: nat, scans: nat)
    requires cursor <= g.nonce + 1
    requires forall id :: id in g.proposals <==> cursor <= id <= g.nonce
    ensures var (swept, end, pruned) := Sweep(g, admins, ledger, cursor, scans);
            && cursor <= end <= g.nonce + 1
            && pruned == end - cursor <= scans
            && (pruned < scans && end <= g.nonce ==> LiveAt(g.proposals[end], ledger))
            && (forall id :: cursor <= id < end ==> !LiveAt(g.proposals[id], ledger))
            && swept == g.(proposals := swept.proposals, approvals := swept.approvals)
            && (forall id :: id in swept.proposals <==> end <= id <= g.nonce)
            && (forall id :: id in swept.proposals ==> swept.proposals[id] == g.proposals[id])
            && swept.approvals <= g.approvals
            && (forall f :: f in g.approvals && f.0 >= end ==> f in swept.approvals)
    decreases scans
  {
    if scans > 0 && cursor <= g.nonce && !LiveAt(g.proposals[cursor], ledger) {
      DropExact(g, cursor, admins);
      hide Drop, LiveAt;
      SweepExact(Drop(g, cursor, admins), admins, ledger, cursor + 1, scans - 1);
    }
  }

  lemma DropExact(g: Governance, id: nat, admins: seq<Address>)
    requires id in g.proposals
    ensures var g' := Drop(g, id, admins);
            && g' == g.(proposals := g'.proposals, approvals := g'.approvals)
            && (forall other :: other in g'.proposals <==> other in g.proposals && other != id)
            && (forall other :: other in g'.proposals ==> g'.proposals[other] == g.proposals[other])
            && g'.approvals <= g.approvals
            && (forall f :: f in g.approvals && f.0 != id ==> f in g'.approvals)
  {
  }

  lemma PruneKeeps(s: State, maxScan: nat)
    requires Inv(s) && DoPrune(s, maxScan).Ok?
    ensures GovOk(DoPrune(s, maxScan).value.0.gov, s.ledger)
  {
    var g, g' := s.gov, DoPrune(s, maxScan).value.0.gov;
    SweepExact(g, s.config.admins, s.ledger, g.nextPruneId, maxScan);
    forall id | id in g'.proposals
      ensures ProposalOk(g', s.ledger, id)
    {
      assert ProposalOk(g, s.ledger, id);
      assert Flags(g'.approvals, id) == Flags(g.approvals, id);
    }
  }

  lemma TickKeeps(g: Governance, ledger: nat, later: nat)
    requires GovOk(g, ledger) && ledger <= later
    ensures GovOk(g, later)
  {
    forall id | id in g.proposals
      ensures ProposalOk(g, later, id)
      ensures LiveAt(g.proposals[id], later) ==> id in g.activeIds
    {
      assert ProposalOk(g, ledger, id);
    }
  }

  lemma ActKeepsConfig(s: State, a: Action)
    requires ConfigOk(s) && s.initialized && Act(s, a).Ok?
    ensures ConfigOk(Act(s, a).value.0)
  {
    hide CanMove, Moved, Archive;
  }

  lemma ExecuteKeeps(s: State, id: nat)
    requires Inv(s) && DoExecute(s, id).Ok?
    ensures Inv(DoExecute(s, id).value.0)
  {
    hide Act;
    var marked := s.(gov := MarkExecuted(s.gov, id));
    MarkKeeps(s.gov, s.ledger, id);
    ActFrame(marked, s.gov.proposals[id].action);
    ActKeepsConfig(marked, s.gov.proposals[id].action);
  }

  lemma StepKeepsInv(s: State, c: Call)
    requires Inv(s)
    ensures Inv(Next(s, c))
  {
    hide Act, FundFits, Funded, Moved, CanMove, GovOk, DoGetActive, Sweep, MarkExecuted;
    if MovesMoney(c) {
      MoneyFrame(s, c);
    } else if Step(s, c).Ok? {
      match c
      case Initialize(_, _, _, _, _, _) => InitializeKeeps(s, c);
      case Propose(proposer, action, expiryBlocks) => ProposeKeeps(s, proposer, action, expiryBlocks);
      case Approve(admin, id) => ApproveKeeps(s, admin, id);
      case Execute(id) => ExecuteKeeps(s, id);
      case GetActiveProposals => GetActiveKeeps(s); GetActiveFrame(s);
      case PruneProposals(maxScan) => PruneKeeps(s, maxScan); PruneFrame(s, maxScan);
      case Tick(ledgers) => TickKeeps(s.gov, s.ledger, s.ledger + ledgers);
      case _ =>
    }
  }

  lemma GetActiveFrame(s: State)
    ensures DoGetActive(s) == s.(gov := s.gov.(activeIds := DoGetActive(s).gov.activeIds))
  {
  }

  lemma PruneFrame(s: State, maxScan: nat)
    requires DoPrune(s, maxScan).Ok?
    ensures DoPrune(s, maxScan).value.0 == s.(gov := DoPrune(s, maxScan).value.0.gov)
  {
  }

  lemma InitializeKeeps(s: State, c: Call)
    requires c.Initialize? && Inv(s) && Step(s, c).Ok?
    ensures Inv(Next(s, c))
  {
  }

  /** Every state a deployed contract can reach satisfies the invariant. */
  lemma {:induction false} ReachableInv(self: Address, ledger: nat, calls: seq<Call>)
    ensures Inv(Run(Deployed(self, ledger), calls))
  {
    if |calls| > 0 {
      ReachableInv(self, ledger, calls[..|calls| - 1]);
      StepKeepsInv(Run(Deployed(self, ledger), calls[..|calls| - 1]), calls[|calls| - 1]);
    }
  }

  /** Every setting is changed by its own action only, to exactly what that action says; the limits never change. */
  lemma ActSettings(s: State, a: Action, t: Address)
    requires Act(s, a).Ok?
    ensures var c, c' := s.config, Act(s, a).value.0.config;
            && c'.paused == (a.Pause? || (c.paused && !a.Unpause?))
            && c'.admins == (if a.RotateAdmins? then a.admins else c.admins)
            && c'.threshold == (if a.SetThreshold? then a.threshold else c.threshold)
            && c'.feeBps == (if a.SetFee? then a.feeBps else c.feeBps)
            && Get(c'.whitelist, t, false) == (if a.SetFeeTokenWhitelist? && a.token == t then a.enabled else Get(c.whitelist, t, false))
            && Get(c'.rates, t, 10000) == (if a.SetFeeTokenRate? && a.token == t then a.rate else Get(c.rates, t, 10000))
            && (!a.SetRebateTier? ==> c'.tierCount == c.tierCount && c'.tierThreshold == c.tierThreshold && c'.tierDiscount == c.tierDiscount)
            && c'.maxFeeBps == c.maxFeeBps && c'.minAmount == c.minAmount && c'.maxAmount == c.maxAmount
            && (c' == c || Act(s, a).value.0.(config := c) == s)
  {
    hide CanMove, Moved, Archive;
  }

  predicate SameLimits(c: Config, d: Config) {
    c.maxFeeBps == d.maxFeeBps && c.minAmount == d.minAmount && c.maxAmount == d.maxAmount
  }

  /** The fee cap and the amount limits are set once: no action writes them, and `initialize` takes effect once. */
  lemma LimitsNeverChange(s: State, c: Call)
    requires s.initialized
    ensures Next(s, c).initialized && SameLimits(Next(s, c).config, s.config)
  {
    hide Act, FundFits, Funded, Moved, CanMove, Sweep;
    if MovesMoney(c) {
      MoneyFrame(s, c);
    } else if c.Execute? && Step(s, c).Ok? {
      var marked, action := s.(gov := MarkExecuted(s.gov, c.id)), s.gov.proposals[c.id].action;
      ActFrame(marked, action);
      ActSettings(marked, action, s.self);
    } else if c.PruneProposals? && Step(s, c).Ok? {
      PruneFrame(s, c.maxScan);
    }
  }

  lemma {:induction false} LimitsAreForever(s: State, calls: seq<Call>)
    requires s.initialized
    ensures Run(s, calls).initialized && SameLimits(Run(s, calls).config, s.config)
  {
    if |calls| > 0 {
      LimitsAreForever(s, calls[..|calls| - 1]);
      LimitsNeverChange(Run(s, calls[..|calls| - 1]), calls[|calls| - 1]);
    }
  }

  lemma {:induction false} RunKeepsInv(s: State, calls: seq<Call>)
    requires Inv(s)
    ensures Inv(Run(s, calls))
  {
    if |calls| > 0 {
      RunKeepsInv(s, calls[..|calls| - 1]);
      StepKeepsInv(Run(s, calls[..|calls| - 1]), calls[|calls| - 1]);
    }
  }
}
