/** When the multisig can act at all: `initialize` and rotation count admins with repeats, approvals do not. */
module GovernanceLiveness {
  import opened BridgeTypes
  import opened BridgeSpec
  import opened BridgeGovernance
  import opened ProposalLifecycle
  import opened FiniteSets

  function AdminSet(s: State): set<Address> {
    set a | a in s.config.admins
  }

  /** Those who have approved `id` or still can. */
  function Voters(s: State, id: nat): set<Address> {
    Flags(s.gov.approvals, id) + AdminSet(s)
  }

  /** There is an id and a ledger left for another proposal. */
  predicate CanPropose(s: State) {
    s.gov.nonce < U32_MAX && s.ledger + MIN_EXEC_DELAY <= U32_MAX
  }

  /** A new proposal can collect enough approvals, or a live one can, counting those of admins rotated out since. */
  ghost predicate Quorate(s: State) {
    || (CanPropose(s) && s.config.threshold <= |AdminSet(s)|)
    || exists id :: Live(s, id) && s.config.threshold <= |Voters(s, id)|
  }

  lemma {:induction false} RunCons(s: State, c: Call, calls: seq<Call>)
    ensures Run(s, [c] + calls) == Run(Next(s, c), calls)
  {
    if |calls| == 0 {
      assert [c] + calls == [c];
      assert Run(s, [c][..0]) == s;
    } else {
      RunCons(s, c, calls[..|calls| - 1]);
      assert ([c] + calls)[..|calls|] == [c] + calls[..|calls| - 1];
    }
  }

  lemma {:induction false} RunConcat(s: State, a: seq<Call>, b: seq<Call>)
    ensures Run(s, a + b) == Run(Run(s, a), b)
  {
    if |b| == 0 {
      assert a + b == a;
    } else {
      RunConcat(s, a, b[..|b| - 1]);
      assert (a + b)[..|a + b| - 1] == a + b[..|b| - 1];
    }
  }

  // ----- too few voters: nothing ever executes -----

  ghost predicate Stuck(s: State) {
    Inv(s) && s.initialized && !Quorate(s)
  }

  lemma StuckCannotExecute(s: State, id: nat)
    requires Stuck(s)
    ensures Gate(s, id).Err? && Step(s, Execute(id)).Err?
  {
    hide Act;
    if id in s.gov.proposals {
      assert ProposalOk(s.gov, s.ledger, id);
      SubsetSize(Flags(s.gov.approvals, id), Voters(s, id));
      assert Live(s, id) ==> |Voters(s, id)| < s.config.threshold;
    }
  }

  /** A step that adds no voters and no room for proposals. */
  lemma StillStuck(s: State, s': State)
    requires Stuck(s) && Inv(s') && s'.initialized
    requires s'.config == s.config && (CanPropose(s') ==> CanPropose(s))
    requires forall id :: Live(s', id) ==>
                            || (Live(s, id) && Voters(s', id) <= Voters(s, id))
                            || (CanPropose(s) && Voters(s', id) <= AdminSet(s))
    ensures Stuck(s')
  {
    hide Inv, Live, Voters, CanPropose;
    assert AdminSet(s') == AdminSet(s);
    forall id | Live(s', id)
      ensures |Voters(s', id)| < s.config.threshold
    {
      if Live(s, id) && Voters(s', id) <= Voters(s, id) {
        SubsetSize(Voters(s', id), Voters(s, id));
      } else {
        SubsetSize(Voters(s', id), AdminSet(s));
      }
    }
  }

  lemma StuckStaysStuck(s: State, c: Call)
    requires Stuck(s)
    ensures Stuck(Next(s, c))
  {
    StepKeepsInv(s, c);
    hide Inv, DoExecute, FundFits, Funded, Moved, CanMove, Sweep;
    if MovesMoney(c) {
      MoneyFrame(s, c);
      StillStuck(s, Next(s, c));
    } else if Step(s, c).Ok? {
      match c
      case Execute(id) => StuckCannotExecute(s, id);
      case Propose(_, _, _) => ProposeStaysStuck(s, c);
      case Approve(_, _) => ApproveStaysStuck(s, c);
      case PruneProposals(maxScan) => PruneStaysStuck(s, maxScan);
      case _ => StillStuck(s, Next(s, c));
    }
  }

  lemma ProposeStaysStuck(s: State, c: Call)
    requires Stuck(s) && c.Propose? && Step(s, c).Ok? && Inv(Next(s, c))
    ensures Stuck(Next(s, c))
  {
    var s' := Next(s, c);
    var next := s.gov.nonce + 1;
    forall id | Live(s', id)
      ensures if id == next then Voters(s', id) <= AdminSet(s) else Live(s, id) && Voters(s', id) <= Voters(s, id)
    {
    }
    StillStuck(s, s');
  }

  lemma ApproveStaysStuck(s: State, c: Call)
    requires Stuck(s) && c.Approve? && Step(s, c).Ok? && Inv(Next(s, c))
    ensures Stuck(Next(s, c))
  {
    var s' := Next(s, c);
    forall id | Live(s', id)
      ensures Live(s, id) && Voters(s', id) <= Voters(s, id)
    {
    }
    StillStuck(s, s');
  }

  lemma PruneStaysStuck(s: State, maxScan: nat)
    requires Stuck(s) && Step(s, PruneProposals(maxScan)).Ok? && Inv(Next(s, PruneProposals(maxScan)))
    ensures Stuck(Next(s, PruneProposals(maxScan)))
  {
    hide Sweep, Quorate;
    var s' := Next(s, PruneProposals(maxScan));
    PruneFrame(s, maxScan);
    PruneIsExact(s, maxScan);
    SweepExact(s.gov, s.config.admins, s.ledger, s.gov.nextPruneId, maxScan);
    forall id | Live(s', id)
      ensures Live(s, id) && Voters(s', id) <= Voters(s, id)
    {
    }
    StillStuck(s, s');
  }

  lemma {:induction false} StuckForever(s: State, calls: seq<Call>)
    requires Stuck(s)
    ensures Stuck(Run(s, calls))
  {
    if |calls| > 0 {
      StuckForever(s, calls[..|calls| - 1]);
      StuckStaysStuck(Run(s, calls[..|calls| - 1]), calls[|calls| - 1]);
    }
  }

  // ----- enough distinct admins: a proposal can be passed -----

  /** The approvals of `todo`, one after the other. */
  lemma {:induction false} ApproveAll(s: State, id: nat, todo: set<Address>) returns (calls: seq<Call>)
    requires s.initialized && Live(s, id)
    requires forall a :: a in todo ==> a in s.config.admins && (id, a) !in s.gov.approvals
    requires s.gov.proposals[id].approvalCount + |todo| <= U32_MAX
    ensures var s', p := Run(s, calls), s.gov.proposals[id];
            && s' == s.(gov := s'.gov)
            && id in s'.gov.proposals
            && s'.gov.proposals[id] == p.(approvalCount := p.approvalCount + |todo|)
    decreases |todo|
  {
    if todo == {} {
      calls := [];
    } else {
      var a :| a in todo;
      var rest := ApproveAll(Next(s, Approve(a, id)), id, todo - {a});
      calls := [Approve(a, id)] + rest;
      RunCons(s, Approve(a, id), rest);
    }
  }

  /** Approvals by enough of those who have not approved yet bring the count to the threshold. */
  lemma ReachThreshold(s: State, id: nat) returns (calls: seq<Call>)
    requires Inv(s) && s.initialized && Live(s, id) && s.config.threshold <= |Voters(s, id)| && |s.config.admins| <= U32_MAX
    ensures var s', p := Run(s, calls), s.gov.proposals[id];
            && s' == s.(gov := s'.gov)
            && id in s'.gov.proposals
            && s'.gov.proposals[id] == p.(approvalCount := s'.gov.proposals[id].approvalCount)
            && s'.gov.proposals[id].approvalCount >= s.config.threshold
  {
    assert ProposalOk(s.gov, s.ledger, id);
    var given := Flags(s.gov.approvals, id);
    if |given| >= s.config.threshold {
      calls := [];
    } else {
      assert Voters(s, id) == given + (AdminSet(s) - given);
      var todo := SubsetOfSize(AdminSet(s) - given, s.config.threshold - |given|);
      calls := ApproveAll(s, id, todo);
    }
  }

  /** A live proposal with enough voters gets past every check that does not depend on its action. */
  lemma LiveCanPass(s: State, id: nat) returns (calls: seq<Call>)
    requires Inv(s) && s.initialized && Live(s, id) && s.config.threshold <= |Voters(s, id)| && |s.config.admins| <= U32_MAX
    ensures id in Run(s, calls).gov.proposals && Gate(Run(s, calls), id) == Ok(Run(s, calls).gov.proposals[id])
    ensures Run(s, calls).gov.proposals[id].action == s.gov.proposals[id].action
  {
    assert ProposalOk(s.gov, s.ledger, id);
    var approvals := ReachThreshold(s, id);
    var approved, wait := Run(s, approvals), s.gov.proposals[id].expiry - s.ledger;
    calls := approvals + [Tick(wait)];
    RunConcat(s, approvals, [Tick(wait)]);
    RunCons(approved, Tick(wait), []);
    assert [Tick(wait)] + [] == [Tick(wait)];
  }

  /** A new proposal to pause, approved and waited for, executes. */
  lemma CanPass(s: State) returns (calls: seq<Call>)
    requires Inv(s) && s.initialized && s.config.threshold <= |AdminSet(s)| && |s.config.admins| <= U32_MAX && CanPropose(s)
    ensures Step(Run(s, calls), Execute(s.gov.nonce + 1)).Ok?
  {
    hide Act;
    var id := s.gov.nonce + 1;
    var opening := Propose(s.config.admins[0], Pause, MIN_EXEC_DELAY);
    var proposed := Next(s, opening);
    StepKeepsInv(s, opening);
    SubsetSize(AdminSet(s), Voters(proposed, id));
    hide Inv;
    var rest := LiveCanPass(proposed, id);
    RunCons(s, opening, rest);
    calls := [opening] + rest;
    PauseActs(Run(s, calls).(gov := MarkExecuted(Run(s, calls).gov, id)));
  }

  lemma PauseActs(s: State)
    ensures Act(s, Pause).Ok?
  {
  }

  /**
   * Some future run gets a proposal past the gate exactly when there are voters enough: distinct admins for a new proposal,
   * or, for one that is live already, distinct addresses that have approved it or are admins.
   */
  lemma GovernanceIsLiveIff(s: State)
    requires Inv(s) && s.initialized && |s.config.admins| <= U32_MAX
    ensures (exists calls, id :: Gate(Run(s, calls), id).Ok?) <==> Quorate(s)
  {
    if Quorate(s) {
      if CanPropose(s) && s.config.threshold <= |AdminSet(s)| {
        var calls := CanPass(s);
        assert Gate(Run(s, calls), s.gov.nonce + 1).Ok?;
      } else {
        var id :| Live(s, id) && s.config.threshold <= |Voters(s, id)|;
        var calls := LiveCanPass(s, id);
      }
    } else {
      forall calls, id
        ensures Gate(Run(s, calls), id).Err?
      {
        StuckForever(s, calls);
        StuckCannotExecute(Run(s, calls), id);
      }
    }
  }

  /** Live proposals were approved by current admins only; dead ones may keep the flags of anyone. */
  ghost predicate LiveFlagsFromAdmins(s: State) {
    forall f :: f in s.gov.approvals && Live(s, f.0) ==> f.1 in s.config.admins
  }

  /** Then, while proposing is possible, some future run executes a proposal exactly when the threshold is in reach. */
  lemma SomethingExecutesIff(s: State)
    requires Inv(s) && s.initialized && |s.config.admins| <= U32_MAX && CanPropose(s) && LiveFlagsFromAdmins(s)
    ensures (exists calls, id :: Step(Run(s, calls), Execute(id)).Ok?) <==> s.config.threshold <= |AdminSet(s)|
  {
    if s.config.threshold <= |AdminSet(s)| {
      var calls := CanPass(s);
    } else {
      forall id | Live(s, id)
        ensures Voters(s, id) == AdminSet(s)
      {
      }
      forall calls, id
        ensures Step(Run(s, calls), Execute(id)).Err?
      {
        StuckForever(s, calls);
        StuckCannotExecute(Run(s, calls), id);
      }
    }
  }

  /** Getting stuck is real: `initialize` takes one admin twice with threshold 2, and nothing can ever execute. */
  lemma RepeatedAdminLocksGovernance(self: Address, ledger: nat, a: Address, calls: seq<Call>, id: nat)
    requires a != self
    ensures var c := Initialize([a, a], 2, 0, 0, 1, 1);
            && Step(Deployed(self, ledger), c).Ok?
            && Step(Run(Next(Deployed(self, ledger), c), calls), Execute(id)).Err?
  {
    var c := Initialize([a, a], 2, 0, 0, 1, 1);
    var s := Next(Deployed(self, ledger), c);
    StepKeepsInv(Deployed(self, ledger), c);
    assert AdminSet(s) == {a};
    StuckForever(s, calls);
    StuckCannotExecute(Run(s, calls), id);
  }
}
