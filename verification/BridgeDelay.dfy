/** When a proposal may and may not be executed: its transparency delay and its expiry, told by what it does. */
module BridgeDelay {
  import opened BridgeTypes
  import opened BridgeSpec
  import opened BridgeGovernance
  import opened BridgeActions

  /** Whatever moves money out, or changes the fee, the pause, the admins or the threshold, was public for ten ledgers. */
  lemma EffectsWait(s: State, id: nat)
    requires Inv(s) && Step(s, Execute(id)).Ok?
    ensures var s' := Next(s, Execute(id));
            || s'.balances != s.balances || s'.books.accumulatedFees != s.books.accumulatedFees
            || s'.books.feesByToken != s.books.feesByToken
            || s'.config.feeBps != s.config.feeBps || s'.config.paused != s.config.paused
            || s'.config.admins != s.config.admins || s'.config.threshold != s.config.threshold
            ==> s.ledger >= s.gov.proposals[id].proposedAt + 10
  {
    hide Inv, GovOk, ConfigOk, CanMove, Moved, ArchiveRange, Without;
  }

  predicate OpenAndApproved(s: State, id: nat) {
    && s.initialized && id in s.gov.proposals
    && !s.gov.proposals[id].executed && s.ledger <= s.gov.proposals[id].expiry
    && |Flags(s.gov.approvals, id)| >= s.config.threshold
  }

  /** Six actions are refused for ten ledgers, however many approve; the other four need no wait at all. */
  lemma WhoHasToWait(s: State, id: nat)
    requires Inv(s) && OpenAndApproved(s, id)
    ensures var p := s.gov.proposals[id];
            match p.action
            case WithdrawFees(_, _, _) => DelayBinds(s, id)
            case SetFee(_) => DelayBinds(s, id)
            case Pause => DelayBinds(s, id)
            case Unpause => DelayBinds(s, id)
            case RotateAdmins(_) => DelayBinds(s, id)
            case SetThreshold(_) => DelayBinds(s, id)
            case SetFeeTokenWhitelist(_, _) => Step(s, Execute(id)).Ok?
            case SetFeeTokenRate(_, _) => Step(s, Execute(id)).Ok? <==> Enactable(s, p.action)
            case ArchiveOldEntries(_) => Step(s, Execute(id)).Ok? <==> Enactable(s, p.action)
            case SetRebateTier(_, _, _) => Step(s, Execute(id)).Ok? <==> Enactable(s, p.action)
  {
    hide Enactable, Act;
    ExecutesIff(s, id);
    assert ProposalOk(s.gov, s.ledger, id);
    NeverTooSoon(s.(gov := MarkExecuted(s.gov, id)), s.gov.proposals[id].action);
    WhitelistAlways(s, s.gov.proposals[id].action);
    hide Inv;
  }

  predicate DelayBinds(s: State, id: nat)
    requires id in s.gov.proposals
  {
    && (Step(s, Execute(id)) == Err(ExecutionTooSoon) <==> s.ledger < s.gov.proposals[id].proposedAt + 10)
    && (Step(s, Execute(id)).Ok? <==> s.ledger >= s.gov.proposals[id].proposedAt + 10 && Enactable(s, s.gov.proposals[id].action))
  }

  lemma NeverTooSoon(s: State, a: Action)
    ensures Act(s, a) != Err(ExecutionTooSoon)
  {
    hide CanMove, Moved, ArchiveRange;
  }

  lemma WhitelistAlways(s: State, a: Action)
    ensures a.SetFeeTokenWhitelist? ==> Enactable(s, a)
  {
  }

  /** A sole admin can carry out one of the four in the very ledger of its proposal, and none of the six. */
  lemma AtOnceIff(s: State, admin: Address, action: Action, blocks: nat)
    requires Inv(s) && Step(s, Propose(admin, action, blocks)).Ok? && s.config.threshold == 1
    ensures var s', id := Next(s, Propose(admin, action, blocks)), s.gov.nonce + 1;
            Step(s', Execute(id)).Ok? <==>
              && (action.SetFeeTokenWhitelist? || action.SetFeeTokenRate? || action.ArchiveOldEntries? || action.SetRebateTier?)
              && Enactable(s, action)
  {
    var s', id := Next(s, Propose(admin, action, blocks)), s.gov.nonce + 1;
    StepKeepsInv(s, Propose(admin, action, blocks));
    assert s' == s.(gov := s'.gov);
    assert (id, admin) in s'.gov.approvals;
    assert ProposalOk(s'.gov, s'.ledger, id);
    EnactableIgnoresGov(s, s'.gov, action);
    hide Inv, Enactable;
    WhoHasToWait(s', id);
    WhitelistAlways(s, action);
  }

  lemma EnactableIgnoresGov(s: State, g: Governance, a: Action)
    ensures Enactable(s.(gov := g), a) == Enactable(s, a)
  {
  }

  // ----- expiry -----

  /** Who may propose what for how long, and what is stored. */
  lemma ProposeAcceptedIff(s: State, proposer: Address, action: Action, blocks: nat)
    requires Inv(s)
    ensures var r := Step(s, Propose(proposer, action, blocks));
            && (r.Ok? <==>
                  && s.initialized && proposer in s.config.admins && 10 <= blocks <= 100000
                  && s.gov.nonce < U32_MAX && s.ledger + blocks <= U32_MAX)
            && (r == Err(ExpiryTooShort) <==> s.initialized && proposer in s.config.admins && blocks < 10)
            && (r == Err(ExpiryTooLong) <==> s.initialized && proposer in s.config.admins && blocks > 100000)
            && (r.Ok? ==>
                  var g' := Next(s, Propose(proposer, action, blocks)).gov;
                  && r.value.1 == s.gov.nonce + 1 == g'.nonce && r.value.1 !in s.gov.proposals
                  && r.value.1 in g'.proposals && Flags(g'.approvals, r.value.1) == {proposer}
                  && g'.proposals[r.value.1].action == action && g'.proposals[r.value.1].proposer == proposer
                  && g'.proposals[r.value.1].proposedAt == s.ledger && g'.proposals[r.value.1].expiry == s.ledger + blocks)
  {
  }

  /** A proposal is open for as many ledgers as it asked for, to the ledger. */
  lemma ExpiresAfterItsBlocks(s: State, proposer: Address, action: Action, blocks: nat, wait: nat, admin: Address)
    requires Inv(s) && Step(s, Propose(proposer, action, blocks)).Ok? && s.ledger + wait <= U32_MAX
    ensures var s', id := Next(Next(s, Propose(proposer, action, blocks)), Tick(wait)), s.gov.nonce + 1;
            && (Step(s', Execute(id)) == Err(ProposalExpired) <==> wait > blocks)
            && (admin in s.config.admins ==> (Step(s', Approve(admin, id)) == Err(ProposalExpired) <==> wait > blocks))
            && (Live(s', id) <==> wait <= blocks)
  {
    var proposed, id := Next(s, Propose(proposer, action, blocks)), s.gov.nonce + 1;
    hide Act;
    var s' := Next(proposed, Tick(wait));
    assert s' == proposed.(ledger := s.ledger + wait);
    NeverExpired(s'.(gov := MarkExecuted(s'.gov, id)), action);
  }

  lemma NeverExpired(s: State, a: Action)
    ensures Act(s, a) != Err(ProposalExpired)
  {
    hide CanMove, Moved, ArchiveRange;
  }
}
