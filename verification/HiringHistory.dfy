/** What holds after any sequence of successful commands: approval histories, finished offers, offers against
    candidates. */
module HiringHistory {
  import opened Prelude
  import opened CandidateWorkflow
  import opened OfferApproval
  import opened Hiring
  import opened HiringInvariants
  import Runs

  function NoTables(): Tables {
    Tables(map[], map[], [], [])
  }

  ghost function Next(policy: ApprovalPolicy): (Tables, Command, Tables) -> bool {
    (t: Tables, cmd: Command, t': Tables) => Handle(t, cmd, policy) == Success(t')
  }

  /** The commands, run one after another, all succeed and lead from the one to the other. */
  ghost predicate Leads(from: Tables, cmds: seq<Command>, to: Tables, policy: ApprovalPolicy) {
    Runs.Leads(Next(policy), from, cmds, to)
  }

  /** Some commands, run one after another, lead from the one to the other. */
  ghost predicate Evolves(from: Tables, to: Tables, policy: ApprovalPolicy) {
    exists cmds :: Leads(from, cmds, to, policy)
  }

  /** Tables that some commands lead to from nothing. */
  ghost predicate Reached(t: Tables, policy: ApprovalPolicy) {
    Evolves(NoTables(), t, policy)
  }

  lemma LeadsSelf(t: Tables, policy: ApprovalPolicy)
    ensures Leads(t, [], t, policy)
  {
    Runs.LeadsSelf(Next(policy), t);
  }

  lemma LeadsOneMore(from: Tables, cmds: seq<Command>, t: Tables, cmd: Command, policy: ApprovalPolicy)
    requires Leads(from, cmds, t, policy) && Handle(t, cmd, policy).Success?
    ensures Leads(from, cmds + [cmd], Handle(t, cmd, policy).value, policy)
  {
    Runs.LeadsOneMore(Next(policy), from, cmds, t, cmd, Handle(t, cmd, policy).value);
  }

  lemma ReachedOneMore(t: Tables, cmd: Command, policy: ApprovalPolicy)
    requires Reached(t, policy) && Handle(t, cmd, policy).Success?
    ensures Reached(Handle(t, cmd, policy).value, policy)
  {
    var cmds :| Leads(NoTables(), cmds, t, policy);
    LeadsOneMore(NoTables(), cmds, t, cmd, policy);
  }

  lemma ReachedInv(t: Tables, policy: ApprovalPolicy)
    requires Reached(t, policy)
    ensures Inv(t)
  {
    var cmds :| Leads(NoTables(), cmds, t, policy);
    EmptyTablesInv();
    forall t: Tables, cmd, t' | Inv(t) && Next(policy)(t, cmd, t') ensures Inv(t') {
      HandleKeepsInv(t, cmd, policy);
    }
    Runs.LeadsKeeps(Next(policy), Inv, NoTables(), cmds, t);
  }

  // ---------------------------------------------------------------------------------------------------------------
  // Approval histories

  /** The decisions on one offer, in the order they were committed. */
  function Chain(decisions: seq<Decision>, offer: Id): seq<Decision>
    decreases |decisions|
  {
    if decisions == [] then []
    else Chain(decisions[..|decisions| - 1], offer)
         + (if decisions[|decisions| - 1].offer == offer then [decisions[|decisions| - 1]] else [])
  }

  lemma ChainExtends(decisions: seq<Decision>, d: Decision, offer: Id)
    ensures Chain(decisions + [d], offer) == Chain(decisions, offer) + (if d.offer == offer then [d] else [])
  {
    assert (decisions + [d])[..|decisions + [d]| - 1] == decisions;
  }

  lemma {:induction false} ChainWithin(decisions: seq<Decision>, offer: Id)
    ensures forall i | 0 <= i < |Chain(decisions, offer)| ::
              Chain(decisions, offer)[i].offer == offer && Decided(decisions, offer, Chain(decisions, offer)[i].step)
    ensures (forall k | 0 <= k < |decisions| :: decisions[k].offer != offer) ==> Chain(decisions, offer) == []
    decreases |decisions|
  {
    if decisions != [] {
      var prior, d := decisions[..|decisions| - 1], decisions[|decisions| - 1];
      ChainWithin(prior, offer);
      assert prior + [d] == decisions;
      forall i | 0 <= i < |Chain(decisions, offer)|
        ensures Chain(decisions, offer)[i].offer == offer && Decided(decisions, offer, Chain(decisions, offer)[i].step)
      {
        DecidedGrows(prior, d, offer, Chain(decisions, offer)[i].step);
      }
    }
  }

  /** The history a policy with n steps prescribes for an offer. */
  ghost predicate ChainOk(offer: Offer, chain: seq<Decision>, policy: ApprovalPolicy) {
    && 1 <= offer.step <= |policy|
    && |chain| == offer.version - 1
    && (match offer.status
        case PendingApproval => offer.version == offer.step
        case Approved => offer.version == offer.step + 1 && offer.step == |policy|
        case Rejected => offer.version == offer.step + 1)
    && forall i | 0 <= i < |chain| ::
         && chain[i].step == i + 1
         && chain[i].role == policy[i].role
         && chain[i].decision == if offer.status.Rejected? && i == |chain| - 1 then "rejected" else "approved"
  }

  ghost predicate ChainsOk(t: Tables, policy: ApprovalPolicy) {
    forall id | id in t.offers :: ChainOk(t.offers[id], Chain(t.decisions, id), policy)
  }

  lemma DecideKeepsChain(offer: Offer, chain: seq<Decision>, cmd: Command, outcome: OfferDecision,
                         policy: ApprovalPolicy)
    requires Numbered(policy) && ChainOk(offer, chain, policy) && !Finished(offer) && cmd.DecideOffer?
    requires Decide(offer, cmd.decision, cmd.role, policy) == Success(outcome)
    ensures ChainOk(outcome.offer, chain + [Decision(offer.id, outcome.step, cmd.actor, outcome.decision, cmd.role)],
                policy)
  {
    RequiredRoleInOrder(policy, offer.step);
  }

  lemma HandleDecideKeepsChains(t: Tables, cmd: Command, policy: ApprovalPolicy)
    requires Inv(t) && Numbered(policy) && ChainsOk(t, policy) && cmd.DecideOffer? && Handle(t, cmd, policy).Success?
    ensures ChainsOk(Handle(t, cmd, policy).value, policy)
  {
    var outcome := DecideEffect(t, cmd, policy);
    var t' := Handle(t, cmd, policy).value;
    var d := Decision(cmd.offerId, outcome.step, cmd.actor, outcome.decision, cmd.role);
    assert ChainOk(t.offers[cmd.offerId], Chain(t.decisions, cmd.offerId), policy);
    DecideKeepsChain(t.offers[cmd.offerId], Chain(t.decisions, cmd.offerId), cmd, outcome, policy);
    forall id | id in t'.offers ensures ChainOk(t'.offers[id], Chain(t'.decisions, id), policy) {
      ChainExtends(t.decisions, d, id);
      if id != cmd.offerId {
        assert ChainOk(t.offers[id], Chain(t.decisions, id), policy);
      }
    }
  }

  lemma HandleCreateKeepsChains(t: Tables, cmd: Command, policy: ApprovalPolicy)
    requires Inv(t) && Numbered(policy) && ChainsOk(t, policy) && cmd.CreateOffer? && Handle(t, cmd, policy).Success?
    ensures ChainsOk(Handle(t, cmd, policy).value, policy)
  {
    CreateEffect(t, cmd, policy);
    ChainWithin(t.decisions, cmd.offerId);
  }

  lemma HandleKeepsChains(t: Tables, cmd: Command, policy: ApprovalPolicy)
    requires Inv(t) && Numbered(policy) && ChainsOk(t, policy) && Handle(t, cmd, policy).Success?
    ensures ChainsOk(Handle(t, cmd, policy).value, policy)
  {
    if cmd.DecideOffer? {
      HandleDecideKeepsChains(t, cmd, policy);
    } else if cmd.CreateOffer? {
      HandleCreateKeepsChains(t, cmd, policy);
    } else {
      assert Handle(t, cmd, policy).value.offers == t.offers && Handle(t, cmd, policy).value.decisions == t.decisions;
    }
  }

  lemma ReachedChains(t: Tables, policy: ApprovalPolicy)
    requires Numbered(policy) && Reached(t, policy)
    ensures Inv(t) && ChainsOk(t, policy)
  {
    var p := (t: Tables) => Inv(t) && ChainsOk(t, policy);
    var cmds :| Leads(NoTables(), cmds, t, policy);
    EmptyTablesInv();
    forall t, cmd, t' | p(t) && Next(policy)(t, cmd, t') ensures p(t') {
      HandleKeepsInv(t, cmd, policy);
      HandleKeepsChains(t, cmd, policy);
    }
    Runs.LeadsKeeps(Next(policy), p, NoTables(), cmds, t);
  }

  /** For a policy with steps 1..n: an approved offer has n decisions, the i-th an approval of step i by the i-th
      role; an offer rejected at s has s - 1 such approvals and then a rejection by role s; version and step move
      together. */
  lemma OfferHistory(t: Tables, policy: ApprovalPolicy, id: Id)
    requires Numbered(policy) && Reached(t, policy) && id in t.offers
    ensures
      var offer, chain := t.offers[id], Chain(t.decisions, id);
      && |chain| == offer.version - 1 == (match offer.status
                                          case PendingApproval => offer.step - 1
                                          case Approved => |policy|
                                          case Rejected => offer.step)
      && 1 <= offer.step <= |policy| && (offer.status.Approved? ==> offer.step == |policy|)
      && offer.version == (if Finished(offer) then offer.step + 1 else offer.step)
      && forall i | 0 <= i < |chain| ::
           && chain[i].offer == id && chain[i].step == i + 1 && chain[i].role == policy[i].role
           && (chain[i].decision == "rejected" <==> offer.status.Rejected? && i == |chain| - 1)
           && (chain[i].decision == "approved" <==> !(offer.status.Rejected? && i == |chain| - 1))
  {
    ReachedChains(t, policy);
    assert ChainOk(t.offers[id], Chain(t.decisions, id), policy);
    ChainWithin(t.decisions, id);
  }

  // ---------------------------------------------------------------------------------------------------------------
  // Finished offers

  lemma HandleKeepsFinished(t: Tables, cmd: Command, policy: ApprovalPolicy, id: Id)
    requires Inv(t) && Handle(t, cmd, policy).Success? && id in t.offers && Finished(t.offers[id])
    ensures id in Handle(t, cmd, policy).value.offers && Handle(t, cmd, policy).value.offers[id] == t.offers[id]
  {
    if cmd.DecideOffer? {
      var _ := DecideEffect(t, cmd, policy);
    }
  }

  /** Approved and rejected offers are immutable in every run and under every policy, although `Decide` never reads the
      status. */
  lemma FinishedOffersStay(t: Tables, cmds: seq<Command>, t': Tables, policy: ApprovalPolicy, id: Id)
    requires Reached(t, policy) && Leads(t, cmds, t', policy) && id in t.offers && Finished(t.offers[id])
    ensures id in t'.offers && t'.offers[id] == t.offers[id]
  {
    var p := (u: Tables) => Inv(u) && id in u.offers && u.offers[id] == t.offers[id];
    ReachedInv(t, policy);
    forall u, cmd, v | p(u) && Next(policy)(u, cmd, v) ensures p(v) {
      HandleKeepsInv(u, cmd, policy);
      HandleKeepsFinished(u, cmd, policy, id);
    }
    Runs.LeadsKeeps(Next(policy), p, t, cmds, t');
  }

  /** What a deciding handler asks of its command before it looks at the candidate. */
  ghost predicate RightApproval(t: Tables, cmd: Command, policy: ApprovalPolicy)
    requires cmd.DecideOffer?
  {
    && cmd.offerId in t.offers
    && var offer := t.offers[cmd.offerId];
    && offer.tenant == cmd.tenant && offer.version == cmd.expected
    && cmd.decision in {"approved", "rejected"}
    && 1 <= offer.step <= |policy| && cmd.role == policy[offer.step - 1].role
  }

  /** The first phase accepts a decision exactly when it is by the approver of the offer's step at the offer's
      version, and otherwise fails with the first of its errors that applies. */
  lemma DraftSucceedsIff(t: Tables, cmd: Command, policy: ApprovalPolicy)
    requires Numbered(policy) && cmd.DecideOffer?
    ensures BeginDecide(t, cmd, policy).Success? <==> RightApproval(t, cmd, policy)
    ensures
      var known := cmd.offerId in t.offers && t.offers[cmd.offerId].tenant == cmd.tenant;
      if !known then BeginDecide(t, cmd, policy) == Failure(NotFound)
      else
        var offer := t.offers[cmd.offerId];
        && (offer.version != cmd.expected ==> BeginDecide(t, cmd, policy) == Failure(Conflict))
        && (offer.version == cmd.expected && cmd.decision !in {"approved", "rejected"} ==>
              BeginDecide(t, cmd, policy) == Failure(UnsupportedDecision))
        && (offer.version == cmd.expected && cmd.decision in {"approved", "rejected"} ==>
              && (!(1 <= offer.step <= |policy|) ==> BeginDecide(t, cmd, policy) == Failure(UnknownStep))
              && (1 <= offer.step <= |policy| && cmd.role != policy[offer.step - 1].role ==>
                    BeginDecide(t, cmd, policy) == Failure(WrongApprover)))
  {
    if cmd.offerId in t.offers {
      RequiredRoleInOrder(policy, t.offers[cmd.offerId].step);
    }
  }

  lemma FinishedStageIsClosed(status: OfferStatus, stage: Stage)
    requires Behind(status, stage) && !status.PendingApproval?
    ensures !Allowed(stage, OfferApproved) && !Allowed(stage, OfferRejected)
  {
  }

  lemma FinishedOfferTarget(offer: Offer, chain: seq<Decision>, decision: string, role: string, policy: ApprovalPolicy)
    requires Numbered(policy) && ChainOk(offer, chain, policy) && Finished(offer)
    requires Decide(offer, decision, role, policy).Success?
    ensures Decide(offer, decision, role, policy).value.candidateTarget.None?
            <==> offer.status.Rejected? && decision == "approved" && offer.step != |policy|
  {
  }

  lemma FinishedStageBlocks(t: Tables, draft: Plan)
    requires draft.DraftPlan? && draft.outcome.candidateTarget.Some? && Finished(draft.offer)
    requires draft.outcome.candidateTarget.value in {OfferApproved, OfferRejected}
    requires draft.offer.candidate in t.candidates && Placed(draft.offer, t.candidates[draft.offer.candidate].record)
    ensures Refine(t, draft) == Failure(InvalidTransition)
  {
    FinishedStageIsClosed(draft.offer.status, t.candidates[draft.offer.candidate].record.stage);
  }

  lemma FinishedStepIsTaken(t: Tables, draft: Plan)
    requires draft.DraftPlan? && draft.cmd.DecideOffer? && draft.outcome.candidateTarget.None?
    requires draft.offer.id in t.offers && t.offers[draft.offer.id] == draft.offer
    requires OfferGuard(t, draft.outcome.offer, draft.cmd.expected)
    requires draft.outcome.step == draft.offer.step && Decided(t.decisions, draft.offer.id, draft.offer.step)
    ensures Refine(t, draft).Success? && Refine(t, draft).value.DecidePlan?
    ensures CommitDecide(t, Refine(t, draft).value) == Failure(UniqueViolation)
  {
  }

  lemma FinishedOfferMeetsGuard(t: Tables, cmd: Command, chain: seq<Decision>, policy: ApprovalPolicy)
    requires cmd.DecideOffer? && cmd.offerId in t.offers && OfferOk(t, cmd.offerId) && Finished(t.offers[cmd.offerId])
    requires Numbered(policy) && ChainOk(t.offers[cmd.offerId], chain, policy)
    requires BeginDecide(t, cmd, policy).Success?
    ensures
      var offer := t.offers[cmd.offerId];
      var byKey := offer.status.Rejected? && cmd.decision == "approved" && offer.step != |policy|;
      Handle(t, cmd, policy) == Failure(if byKey then UniqueViolation else InvalidTransition)
  {
    var draft := BeginDecide(t, cmd, policy).value;
    FinishedOfferTarget(t.offers[cmd.offerId], chain, cmd.decision, cmd.role, policy);
    if draft.outcome.candidateTarget.Some? {
      FinishedStageBlocks(t, draft);
    } else {
      FinishedStepIsTaken(t, draft);
    }
  }

  /** Which guard stops a decision on a finished offer by the right approver at the right version: the unique key
      exactly when a rejected offer is approved at a step that is not the last one, and the stage graph in every
      other case. */
  lemma FinishedOfferIsRefused(t: Tables, cmd: Command, policy: ApprovalPolicy)
    requires Numbered(policy) && Reached(t, policy)
    requires cmd.DecideOffer? && RightApproval(t, cmd, policy) && Finished(t.offers[cmd.offerId])
    ensures
      var offer := t.offers[cmd.offerId];
      var byKey := offer.status.Rejected? && cmd.decision == "approved" && offer.step != |policy|;
      Handle(t, cmd, policy) == Failure(if byKey then UniqueViolation else InvalidTransition)
  {
    ReachedChains(t, policy);
    DraftSucceedsIff(t, cmd, policy);
    assert OfferOk(t, cmd.offerId);
    FinishedOfferMeetsGuard(t, cmd, Chain(t.decisions, cmd.offerId), policy);
  }

  /** One move of candidate 1 by the stage route. */
  lemma Moved(t: Tables, from: Stage, to: Stage, version: nat, p: ApprovalPolicy) returns (t': Tables)
    requires Reached(t, p) && Allowed(from, to) && to !in {Stage.Rejected, Withdrawn}
    requires t.candidates == map[1 := CandidateRow(CandidateCase(1, 0, 0, from, version), None)]
    ensures Reached(t', p)
    ensures t' == t.(candidates := map[1 := CandidateRow(CandidateCase(1, 0, 0, to, version + 1), None)])
  {
    ReachedOneMore(t, TransitionCandidate(1, 0, Some(to), version, 0), p);
    t' := Handle(t, TransitionCandidate(1, 0, Some(to), version, 0), p).value;
  }

  lemma InterviewingRun(p: ApprovalPolicy) returns (t: Tables)
    ensures Reached(t, p)
    ensures t == Tables(map[1 := CandidateRow(CandidateCase(1, 0, 0, Interviewing, 3), None)], map[], [], [])
  {
    t := NoTables();
    LeadsSelf(t, p);
    ReachedOneMore(t, OpenCandidate(1, 0, 0), p);
    t := Handle(t, OpenCandidate(1, 0, 0), p).value;
    t := Moved(t, Applied, Screening, 1, p);
    t := Moved(t, Screening, Interviewing, 2, p);
  }

  /** Candidate 1 with offer 9, waiting for its first approval. */
  lemma OfferRun(p: ApprovalPolicy) returns (t: Tables)
    ensures Reached(t, p)
    ensures t == Tables(map[1 := CandidateRow(CandidateCase(1, 0, 0, OfferPendingApproval, 4), None)],
                        map[9 := PendingOffer(9, 0, 1)], [], [])
  {
    t := InterviewingRun(p);
    ReachedOneMore(t, CreateOffer(1, 0, 9, 0), p);
    t := Handle(t, CreateOffer(1, 0, 9, 0), p).value;
  }

  /** The key is reached: without it this run would revive a rejected offer. */
  lemma RejectedOfferNeedsTheKey() returns (t: Tables, again: Command)
    ensures Reached(t, STANDARD_POLICY) && 9 in t.offers && t.offers[9].status.Rejected?
    ensures again.DecideOffer? && again.offerId == 9 && Handle(t, again, STANDARD_POLICY) == Failure(UniqueViolation)
  {
    t := OfferRun(STANDARD_POLICY);
    var reject := DecideOffer(9, 0, 5, "hiring_manager", "rejected", 1, 0);
    again := DecideOffer(9, 0, 5, "hiring_manager", "approved", 2, 0);
    ReachedOneMore(t, reject, STANDARD_POLICY);
    t := Handle(t, reject, STANDARD_POLICY).value;
    assert t.offers[9] == Offer(9, 0, 1, OfferStatus.Rejected, 1, 2);
    assert t.decisions[0].offer == 9 && t.decisions[0].step == 1;
    FinishedStepIsTaken(t, BeginDecide(t, again, STANDARD_POLICY).value);
  }

  lemma {:induction false} DecidedIsInChain(decisions: seq<Decision>, offer: Id, step: int)
    requires Decided(decisions, offer, step)
    ensures exists i :: 0 <= i < |Chain(decisions, offer)| && Chain(decisions, offer)[i].step == step
    decreases |decisions|
  {
    var prior, d := decisions[..|decisions| - 1], decisions[|decisions| - 1];
    assert prior + [d] == decisions;
    DecidedGrows(prior, d, offer, step);
    var chain := Chain(decisions, offer);
    if d.offer == offer && d.step == step {
      assert chain[|chain| - 1].step == step;
    } else {
      DecidedIsInChain(prior, offer, step);
      var i :| 0 <= i < |Chain(prior, offer)| && Chain(prior, offer)[i].step == step;
      assert chain[i].step == step;
    }
  }

  lemma PendingStepIsOpen(offer: Offer, decisions: seq<Decision>, policy: ApprovalPolicy)
    requires ChainOk(offer, Chain(decisions, offer.id), policy) && !Finished(offer)
    ensures !Decided(decisions, offer.id, offer.step)
  {
    if Decided(decisions, offer.id, offer.step) {
      DecidedIsInChain(decisions, offer.id, offer.step);
    }
  }

  lemma TargetNeedsWaitingCandidate(t: Tables, draft: Plan)
    requires draft.DraftPlan? && draft.outcome.candidateTarget.Some?
    requires draft.outcome.candidateTarget.value in {OfferApproved, OfferRejected}
    requires GetCandidate(t, draft.offer.candidate, draft.offer.tenant).Some?
    ensures if t.candidates[draft.offer.candidate].record.stage == OfferPendingApproval then Refine(t, draft).Success?
            else Refine(t, draft) == Failure(InvalidTransition)
  {
  }

  /** What a decision by the right approver at the right version drafts. */
  lemma Drafted(t: Tables, cmd: Command, policy: ApprovalPolicy) returns (draft: Plan)
    requires Numbered(policy) && cmd.DecideOffer? && BeginDecide(t, cmd, policy).Success?
    requires OfferOk(t, cmd.offerId)
    ensures BeginDecide(t, cmd, policy) == Success(draft) && draft.DraftPlan? && draft.cmd == cmd
    ensures draft.offer == t.offers[cmd.offerId] && draft.offer.id == cmd.offerId
            && draft.outcome.step == draft.offer.step
    ensures OfferGuard(t, draft.outcome.offer, cmd.expected)
    ensures draft.outcome.candidateTarget.Some? <==> cmd.decision == "rejected" || draft.offer.step == |policy|
    ensures draft.outcome.candidateTarget.Some? ==>
              draft.outcome.candidateTarget.value in {OfferApproved, OfferRejected}
    ensures GetCandidate(t, draft.offer.candidate, draft.offer.tenant).Some?
  {
    draft := BeginDecide(t, cmd, policy).value;
  }

  lemma OpenStepCommits(t: Tables, draft: Plan)
    requires draft.DraftPlan? && draft.cmd.DecideOffer? && !Decided(t.decisions, draft.offer.id, draft.outcome.step)
    requires OfferGuard(t, draft.outcome.offer, draft.cmd.expected)
    requires draft.offer.candidate in t.candidates
             && t.candidates[draft.offer.candidate].record.id == draft.offer.candidate
    requires Refine(t, draft).Success?
    ensures Refine(t, draft).value.DecidePlan? && CommitDecide(t, Refine(t, draft).value).Success?
  {
  }

  lemma PendingDecisionSucceedsIff(t: Tables, cmd: Command, policy: ApprovalPolicy, draft: Plan)
    requires cmd.DecideOffer? && BeginDecide(t, cmd, policy) == Success(draft) && draft.DraftPlan? && draft.cmd == cmd
    requires OfferGuard(t, draft.outcome.offer, cmd.expected)
             && !Decided(t.decisions, draft.offer.id, draft.outcome.step)
    requires draft.outcome.candidateTarget.Some? ==>
               draft.outcome.candidateTarget.value in {OfferApproved, OfferRejected}
    requires draft.offer.candidate in t.candidates
             && CandidateOk(draft.offer.candidate, t.candidates[draft.offer.candidate])
    requires GetCandidate(t, draft.offer.candidate, draft.offer.tenant).Some?
    ensures if draft.outcome.candidateTarget.Some?
               && t.candidates[draft.offer.candidate].record.stage != OfferPendingApproval
            then Handle(t, cmd, policy) == Failure(InvalidTransition) else Handle(t, cmd, policy).Success?
  {
    if draft.outcome.candidateTarget.Some? {
      TargetNeedsWaitingCandidate(t, draft);
    }
    if Refine(t, draft).Success? {
      OpenStepCommits(t, draft);
    }
  }

  lemma RightApprovalSucceedsIff(t: Tables, cmd: Command, policy: ApprovalPolicy)
    requires Numbered(policy) && Reached(t, policy) && cmd.DecideOffer? && RightApproval(t, cmd, policy)
    ensures t.offers[cmd.offerId].candidate in t.candidates
    ensures
      var offer := t.offers[cmd.offerId];
      Handle(t, cmd, policy).Success? <==>
        && offer.status.PendingApproval?
        && (cmd.decision == "rejected" || offer.step == |policy| ==>
              t.candidates[offer.candidate].record.stage == OfferPendingApproval)
    ensures t.offers[cmd.offerId].status.PendingApproval? ==>
              Handle(t, cmd, policy).Success? || Handle(t, cmd, policy) == Failure(InvalidTransition)
  {
    ReachedChains(t, policy);
    DraftSucceedsIff(t, cmd, policy);
    var offer := t.offers[cmd.offerId];
    assert OfferOk(t, cmd.offerId);
    assert CandidateOk(offer.candidate, t.candidates[offer.candidate]);
    assert ChainOk(offer, Chain(t.decisions, cmd.offerId), policy);
    if Finished(offer) {
      FinishedOfferIsRefused(t, cmd, policy);
    } else {
      var draft := Drafted(t, cmd, policy);
      PendingStepIsOpen(offer, t.decisions, policy);
      PendingDecisionSucceedsIff(t, cmd, policy, draft);
    }
  }

  /** A decision commits exactly when the offer is there, in the tenant, at the version, and pending, the decision is
      a known one by the role of the offer's step and, if it finishes the offer, the candidate still waits; an
      approval that is not the last asks nothing of the candidate. A pending offer's right approver is stopped by the
      stage graph alone. */
  lemma DecisionSucceedsIff(t: Tables, cmd: Command, policy: ApprovalPolicy)
    requires Numbered(policy) && Reached(t, policy) && cmd.DecideOffer?
    ensures RightApproval(t, cmd, policy) ==> t.offers[cmd.offerId].candidate in t.candidates
    ensures
      Handle(t, cmd, policy).Success? <==>
        && RightApproval(t, cmd, policy)
        && var offer := t.offers[cmd.offerId];
        && offer.status.PendingApproval?
        && (cmd.decision == "rejected" || offer.step == |policy| ==>
              t.candidates[offer.candidate].record.stage == OfferPendingApproval)
    ensures RightApproval(t, cmd, policy) && t.offers[cmd.offerId].status.PendingApproval? ==>
              Handle(t, cmd, policy).Success? || Handle(t, cmd, policy) == Failure(InvalidTransition)
  {
    DraftSucceedsIff(t, cmd, policy);
    if RightApproval(t, cmd, policy) {
      RightApprovalSucceedsIff(t, cmd, policy);
    }
  }

  /** A pending offer does not keep its candidate waiting: the stage route may withdraw it. */
  lemma PendingOfferCandidateMayLeave(p: ApprovalPolicy) returns (t: Tables)
    ensures Reached(t, p) && 9 in t.offers && t.offers[9].status.PendingApproval?
    ensures 1 in t.candidates && t.offers[9].candidate == 1 && t.candidates[1].record.stage == Withdrawn
  {
    t := OfferRun(p);
    ReachedOneMore(t, TransitionCandidate(1, 0, Some(Withdrawn), 4, 0), p);
    t := Handle(t, TransitionCandidate(1, 0, Some(Withdrawn), 4, 0), p).value;
  }

  /** A candidate can be hired without an offer: the stage route reaches every stage. */
  lemma HiredWithoutOffer(p: ApprovalPolicy) returns (t: Tables)
    ensures Reached(t, p) && t.offers == map[] && 1 in t.candidates && t.candidates[1].record.stage == Hired
  {
    t := InterviewingRun(p);
    t := Moved(t, Interviewing, OfferPendingApproval, 3, p);
    t := Moved(t, OfferPendingApproval, OfferApproved, 4, p);
    t := Moved(t, OfferApproved, Hired, 5, p);
  }

  // ---------------------------------------------------------------------------------------------------------------
  // Offers against candidates, and candidates alone

  lemma PlacedReaches(status: OfferStatus, stage: Stage)
    requires Behind(status, stage)
    ensures Reaches(OfferPendingApproval, stage)
    ensures status.Approved? ==> Reaches(OfferApproved, stage)
    ensures status.Rejected? ==> Reaches(OfferRejected, stage)
  {
    ReachTable(stage);
  }

  /** Whatever the free stage route does in between, an offer's candidate lies behind the stage the offer put it in;
      so an approved offer's candidate is approved, hired or withdrawn, and a rejected one's rejected or withdrawn. */
  lemma OfferBindsCandidate(t: Tables, policy: ApprovalPolicy, id: Id) returns (stage: Stage)
    requires Reached(t, policy) && id in t.offers
    ensures t.offers[id].candidate in t.candidates && t.candidates[t.offers[id].candidate].record.stage == stage
    ensures t.candidates[t.offers[id].candidate].record.tenant == t.offers[id].tenant
    ensures Reaches(OfferPendingApproval, stage)
    ensures t.offers[id].status.Approved? ==>
              Reaches(OfferApproved, stage) && stage in {OfferApproved, Hired, Withdrawn}
    ensures t.offers[id].status.Rejected? ==>
              Reaches(OfferRejected, stage) && stage in {OfferRejected, Stage.Rejected, Withdrawn}
  {
    ReachedInv(t, policy);
    assert OfferOk(t, id);
    stage := t.candidates[t.offers[id].candidate].record.stage;
    PlacedReaches(t.offers[id].status, stage);
  }

  /** A candidate has at most one offer, and creating one never runs into the unique key on the candidate. */
  lemma AtMostOneOffer(t: Tables, policy: ApprovalPolicy, cmd: Command)
    requires Reached(t, policy) && cmd.CreateOffer?
    ensures forall a, b | a in t.offers && b in t.offers && t.offers[a].candidate == t.offers[b].candidate :: a == b
    ensures BeginCreate(t, cmd).Success? ==>
              && !HasOffer(t.offers, cmd.candidate)
              && (Handle(t, cmd, policy).Failure? <==> cmd.offerId in t.offers)
  {
    ReachedInv(t, policy);
    if BeginCreate(t, cmd).Success? {
      assert CandidateOk(cmd.candidate, t.candidates[cmd.candidate]);
      InterviewingHasNoOffer(t, cmd.candidate);
    }
  }

  /** A candidate's stage and version are the end and the length of a path through the graph, so it has moved at most
      five times; the terminal time is set exactly in the stages that start the retention period. */
  lemma CandidateHistory(t: Tables, policy: ApprovalPolicy, id: Id)
    requires Reached(t, policy) && id in t.candidates
    ensures
      var row := t.candidates[id];
      && (exists path :: IsHistory(path) && |path| == row.record.version && path[|path| - 1] == row.record.stage)
      && 1 <= row.record.version <= 6
      && (row.terminalAt.Some? <==> row.record.stage in {Stage.Rejected, Withdrawn})
  {
    ReachedInv(t, policy);
    var row := t.candidates[id];
    assert CandidateOk(id, row);
    FitsIffHistory(row.record.stage, row.record.version);
  }

  lemma HandleKeepsLeaf(t: Tables, cmd: Command, policy: ApprovalPolicy, id: Id)
    requires Inv(t) && Handle(t, cmd, policy).Success? && id in t.candidates
    requires AllowedTransitions(t.candidates[id].record.stage) == {}
    ensures id in Handle(t, cmd, policy).value.candidates
    ensures Handle(t, cmd, policy).value.candidates[id] == t.candidates[id]
  {
    if cmd.DecideOffer? {
      PlannedDecisionIsCurrent(t, cmd, policy);
    } else if cmd.TransitionCandidate? || cmd.CreateOffer? {
      assert CandidateOk(cmd.candidate, t.candidates[cmd.candidate]);
    }
  }

  /** Hired, rejected and withdrawn candidates never change again; in particular the terminal time is written once. */
  lemma LeavesStay(t: Tables, cmds: seq<Command>, t': Tables, policy: ApprovalPolicy, id: Id)
    requires Reached(t, policy) && Leads(t, cmds, t', policy) && id in t.candidates
    requires AllowedTransitions(t.candidates[id].record.stage) == {}
    ensures id in t'.candidates && t'.candidates[id] == t.candidates[id]
  {
    var p := (u: Tables) => Inv(u) && id in u.candidates && u.candidates[id] == t.candidates[id];
    ReachedInv(t, policy);
    forall u, cmd, v | p(u) && Next(policy)(u, cmd, v) ensures p(v) {
      HandleKeepsInv(u, cmd, policy);
      HandleKeepsLeaf(u, cmd, policy, id);
    }
    Runs.LeadsKeeps(Next(policy), p, t, cmds, t');
  }
}
