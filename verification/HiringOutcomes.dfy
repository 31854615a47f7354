/** What every command does, and when: success, errors and effects in terms of the tables alone; and that approvals
    get an offer approved. */
module HiringOutcomes {
  import opened Prelude
  import opened CandidateWorkflow
  import opened OfferApproval
  import opened Hiring
  import opened HiringInvariants
  import opened HiringHistory

  /** Opening a candidate succeeds exactly when the identifier is new, and stores it in the first stage at version 1. */
  lemma OpenSucceedsIff(t: Tables, cmd: Command, policy: ApprovalPolicy)
    requires cmd.OpenCandidate?
    ensures Handle(t, cmd, policy).Success? <==> cmd.id !in t.candidates
    ensures Handle(t, cmd, policy).Success? ==>
              var row := CandidateRow(CandidateCase(cmd.id, cmd.tenant, cmd.requisition, Applied, 1), None);
              Handle(t, cmd, policy).value == t.(candidates := t.candidates[cmd.id := row])
  {
  }

  /** The tenant has the candidate. */
  predicate Knows(t: Tables, tenant: Id, candidate: Id) {
    candidate in t.candidates && t.candidates[candidate].record.tenant == tenant
  }

  /** A stage move succeeds exactly when the candidate is the tenant's, the version is the expected one, and the
      target is a stage that the graph allows; otherwise the first error in this order is reported. It changes that
      candidate's stage, counts the version up, and stores the moment of a rejection or withdrawal. */
  lemma TransitionSucceedsIff(t: Tables, cmd: Command, policy: ApprovalPolicy)
    requires Inv(t) && cmd.TransitionCandidate?
    ensures !Knows(t, cmd.tenant, cmd.candidate) ==> Handle(t, cmd, policy) == Failure(NotFound)
    ensures Knows(t, cmd.tenant, cmd.candidate) ==>
              var c := t.candidates[cmd.candidate].record;
              && (c.version != cmd.expected ==> Handle(t, cmd, policy) == Failure(Conflict))
              && (c.version == cmd.expected && cmd.target.None? ==> Handle(t, cmd, policy) == Failure(UnknownStage))
              && (c.version == cmd.expected && cmd.target.Some? ==>
                    if Allowed(c.stage, cmd.target.value) then
                      var moved := CandidateRow(
                        CandidateCase(c.id, c.tenant, c.requisition, cmd.target.value, c.version + 1),
                        if cmd.target.value in {Stage.Rejected, Withdrawn} then Some(cmd.now) else None);
                      Handle(t, cmd, policy) == Success(t.(candidates := t.candidates[cmd.candidate := moved]))
                    else Handle(t, cmd, policy) == Failure(InvalidTransition))
  {
    if cmd.candidate in t.candidates {
      assert CandidateOk(cmd.candidate, t.candidates[cmd.candidate]);
    }
  }

  /** Creating an offer succeeds exactly when the tenant's candidate is interviewing and the identifier is new. The
      candidate then waits, and the offer is pending at its first step. */
  lemma CreateSucceedsIff(t: Tables, cmd: Command, policy: ApprovalPolicy)
    requires Inv(t) && cmd.CreateOffer?
    ensures
      var ready := Knows(t, cmd.tenant, cmd.candidate) && t.candidates[cmd.candidate].record.stage == Interviewing;
      && (!ready ==> Handle(t, cmd, policy) == Failure(NotEligible))
      && (ready && cmd.offerId in t.offers ==> Handle(t, cmd, policy) == Failure(UniqueViolation))
      && (ready && cmd.offerId !in t.offers ==>
            var c := t.candidates[cmd.candidate].record;
            var waiting := CandidateCase(c.id, c.tenant, c.requisition, OfferPendingApproval, c.version + 1);
            Handle(t, cmd, policy) == Success(
              t.(candidates := t.candidates[cmd.candidate := CandidateRow(waiting, None)],
                 offers := t.offers[cmd.offerId :=
                   Offer(cmd.offerId, cmd.tenant, cmd.candidate, PendingApproval, 1, 1)])))
  {
    if cmd.candidate in t.candidates {
      assert CandidateOk(cmd.candidate, t.candidates[cmd.candidate]);
      if t.candidates[cmd.candidate].record.stage == Interviewing {
        InterviewingHasNoOffer(t, cmd.candidate);
      }
    }
  }

  /** What a decision makes of the offer: a rejection finishes it, so does the approval of the last step, and any other
      approval leads to the next step. */
  lemma DecidedOffer(t: Tables, cmd: Command, policy: ApprovalPolicy)
    requires Inv(t) && Numbered(policy) && cmd.DecideOffer? && Handle(t, cmd, policy).Success?
    ensures
      var o, t' := cmd.offerId, Handle(t, cmd, policy).value;
      && o in t.offers && 1 <= t.offers[o].step <= |policy|
      && t'.offers == t.offers[o := t'.offers[o]]
      && var before, after := t.offers[o], t'.offers[o];
      && after.id == before.id && after.tenant == before.tenant && after.candidate == before.candidate
      && after.version == before.version + 1
      && (cmd.decision == "rejected" ==> after.status == OfferStatus.Rejected && after.step == before.step)
      && (cmd.decision == "approved" && before.step == |policy| ==>
            after.status == Approved && after.step == before.step)
      && (cmd.decision == "approved" && before.step < |policy| ==>
            after.status == PendingApproval && after.step == before.step + 1)
      && t'.decisions == t.decisions + [Decision(o, before.step, cmd.actor, cmd.decision, cmd.role)]
      && t'.outbox == t.outbox + [Event(o, cmd.decision, cmd.actor)]
  {
    var outcome := DecideEffect(t, cmd, policy);
    RequiredRoleInOrder(policy, t.offers[cmd.offerId].step);
  }

  lemma CommitDecideCandidates(t: Tables, plan: Plan, policy: ApprovalPolicy)
    requires Numbered(policy) && CurrentDecision(t, plan, policy) && CommitDecide(t, plan).Success?
    ensures plan.candidateMove.Some? <==> plan.cmd.decision == "rejected" || plan.offer.step == |policy|
    ensures CommitDecide(t, plan).value.candidates ==
            if plan.candidateMove.None? then t.candidates
            else WriteCandidate(t, plan.candidateMove.value, plan.cmd.now).candidates
    ensures plan.candidateMove.Some? ==>
              plan.candidateMove.value.next.stage
              == (if plan.cmd.decision == "rejected" then OfferRejected else OfferApproved)
  {
    RequiredRoleInOrder(policy, plan.offer.step);
  }

  /** And of the candidate: a finishing decision moves them, any other leaves all candidates as they are. */
  lemma DecidedCandidate(t: Tables, cmd: Command, policy: ApprovalPolicy)
    requires Inv(t) && Numbered(policy) && cmd.DecideOffer? && Handle(t, cmd, policy).Success?
    ensures
      var t' := Handle(t, cmd, policy).value;
      && cmd.offerId in t.offers
      && var offer := t.offers[cmd.offerId];
      && offer.candidate in t.candidates
      && var c := t.candidates[offer.candidate].record;
      && (cmd.decision == "approved" && offer.step != |policy| ==> t'.candidates == t.candidates)
      && (cmd.decision == "rejected" || offer.step == |policy| ==>
            var target := if cmd.decision == "rejected" then OfferRejected else OfferApproved;
            t'.candidates == t.candidates[offer.candidate :=
              CandidateRow(CandidateCase(c.id, c.tenant, c.requisition, target, c.version + 1), None)])
  {
    var plan := DecidePlanned(t, cmd, policy);
    assert OfferOk(t, cmd.offerId);
    assert CandidateOk(plan.offer.candidate, t.candidates[plan.offer.candidate]);
    CommitDecideCandidates(t, plan, policy);
  }

  /** No command reaches the candidates and offers of another tenant. */
  lemma TenantsAreIsolated(t: Tables, cmd: Command, policy: ApprovalPolicy)
    requires Inv(t) && Handle(t, cmd, policy).Success?
    ensures
      var t' := Handle(t, cmd, policy).value;
      && (forall c | c in t.candidates && t.candidates[c].record.tenant != cmd.tenant ::
            c in t'.candidates && t'.candidates[c] == t.candidates[c])
      && (forall o | o in t.offers && t.offers[o].tenant != cmd.tenant ::
            o in t'.offers && t'.offers[o] == t.offers[o])
      && (forall c | c in t'.candidates && c !in t.candidates :: t'.candidates[c].record.tenant == cmd.tenant)
      && (forall o | o in t'.offers && o !in t.offers :: t'.offers[o].tenant == cmd.tenant)
  {
    match cmd
    case OpenCandidate(_, _, _) => OpenSucceedsIff(t, cmd, policy);
    case TransitionCandidate(_, _, _, _, _) => TransitionSucceedsIff(t, cmd, policy);
    case CreateOffer(_, _, _, _) => CreateSucceedsIff(t, cmd, policy);
    case DecideOffer(_, _, _, _, _, _, _) =>
      var plan := DecidePlanned(t, cmd, policy);
      var _ := DecideEffect(t, cmd, policy);
      assert OfferOk(t, cmd.offerId);
  }

  // ---------------------------------------------------------------------------------------------------------------
  // Approving an offer

  /** The n-th of an offer's next approvals: of its step, by that step's role, at the version the one before leaves. */
  function Approval(offer: Offer, policy: ApprovalPolicy, n: nat, actor: nat -> Id, now: nat -> int): Command
    requires n >= 1 && 1 <= offer.step && offer.step + n <= |policy| + 1
  {
    DecideOffer(offer.id, offer.tenant, actor(n), policy[offer.step + n - 2].role, "approved", offer.version + n - 1,
                now(n))
  }

  /** The next `n` approvals of an offer, one to a step; actors and times are arbitrary. */
  function Approvals(offer: Offer, policy: ApprovalPolicy, n: nat, actor: nat -> Id, now: nat -> int): seq<Command>
    requires 1 <= offer.step && offer.step + n <= |policy| + 1
  {
    if n == 0 then [] else Approvals(offer, policy, n - 1, actor, now) + [Approval(offer, policy, n, actor, now)]
  }

  /** The offer is pending and its candidate waits for it. */
  ghost predicate Awaiting(t: Tables, id: Id) {
    && id in t.offers && t.offers[id].id == id && t.offers[id].status.PendingApproval?
    && t.offers[id].candidate in t.candidates
    && t.candidates[t.offers[id].candidate].record.stage == OfferPendingApproval
  }

  /** The offer is `n` approvals further on, and nothing else has changed but the records of them. */
  ghost predicate Advanced(t: Tables, id: Id, n: nat, t': Tables)
    requires id in t.offers
  {
    var offer := t.offers[id];
    t'.candidates == t.candidates
    && t'.offers == t.offers[id := offer.(step := offer.step + n, version := offer.version + n)]
  }

  /** The offer is approved at this step, its candidate is in the approved stage, and no other row has changed. */
  ghost predicate ApprovedAt(t: Tables, id: Id, step: int, t': Tables)
    requires Awaiting(t, id)
  {
    var offer := t.offers[id];
    var c := t.candidates[offer.candidate].record;
    && t'.candidates == t.candidates[offer.candidate :=
         CandidateRow(CandidateCase(c.id, c.tenant, c.requisition, OfferApproved, c.version + 1), None)]
    && 1 <= step
    && t'.offers == t.offers[id := Offer(id, offer.tenant, offer.candidate, Approved, step, step + 1)]
  }

  lemma ApprovalEffect(t: Tables, id: Id, cmd: Command, policy: ApprovalPolicy)
    requires Inv(t) && Numbered(policy) && Awaiting(t, id) && cmd.DecideOffer? && cmd.offerId == id
    requires cmd.decision == "approved" && t.offers[id].version == t.offers[id].step && Handle(t, cmd, policy).Success?
    ensures if t.offers[id].step == |policy| then ApprovedAt(t, id, |policy|, Handle(t, cmd, policy).value)
            else Advanced(t, id, 1, Handle(t, cmd, policy).value)
  {
    DecidedOffer(t, cmd, policy);
    DecidedCandidate(t, cmd, policy);
  }

  /** What an approval makes of an awaited offer. */
  lemma ApprovalCommits(t: Tables, id: Id, cmd: Command, policy: ApprovalPolicy) returns (t': Tables)
    requires Numbered(policy) && Reached(t, policy) && Awaiting(t, id) && cmd.DecideOffer? && cmd.offerId == id
    requires RightApproval(t, cmd, policy) && cmd.decision == "approved"
    requires t.offers[id].version == t.offers[id].step
    ensures Handle(t, cmd, policy) == Success(t') && Reached(t', policy)
    ensures if t.offers[id].step == |policy| then ApprovedAt(t, id, |policy|, t') else Advanced(t, id, 1, t')
  {
    DecisionSucceedsIff(t, cmd, policy);
    ReachedInv(t, policy);
    ReachedOneMore(t, cmd, policy);
    ApprovalEffect(t, id, cmd, policy);
    t' := Handle(t, cmd, policy).value;
  }

  lemma AdvancedAwaits(t: Tables, id: Id, n: nat, t': Tables, policy: ApprovalPolicy, actor: nat -> Id,
                       now: nat -> int)
    requires Awaiting(t, id) && Advanced(t, id, n, t')
    requires 1 <= t.offers[id].step && t.offers[id].step + n <= |policy|
    ensures Awaiting(t', id) && RightApproval(t', Approval(t.offers[id], policy, n + 1, actor, now), policy)
    ensures t'.offers[id].step == t.offers[id].step + n && t'.offers[id].version == t.offers[id].version + n
  {
  }

  lemma AdvancedTwice(t: Tables, id: Id, n: nat, mid: Tables, t': Tables, policy: ApprovalPolicy)
    requires Awaiting(t, id) && Advanced(t, id, n, mid) && id in mid.offers
    ensures Advanced(mid, id, 1, t') ==> Advanced(t, id, n + 1, t')
    ensures Awaiting(mid, id) && ApprovedAt(mid, id, |policy|, t') ==> ApprovedAt(t, id, |policy|, t')
  {
  }

  lemma {:induction false} ApprovalsLead(t: Tables, id: Id, policy: ApprovalPolicy, n: nat, actor: nat -> Id,
                                         now: nat -> int) returns (t': Tables)
    requires Numbered(policy) && Reached(t, policy) && Awaiting(t, id)
    requires 1 <= t.offers[id].step == t.offers[id].version && t.offers[id].step + n <= |policy| + 1
    ensures Leads(t, Approvals(t.offers[id], policy, n, actor, now), t', policy) && Reached(t', policy)
    ensures if t.offers[id].step + n == |policy| + 1 && n > 0 then ApprovedAt(t, id, |policy|, t')
            else Advanced(t, id, n, t')
    decreases n
  {
    var offer := t.offers[id];
    if n == 0 {
      LeadsSelf(t, policy);
      t' := t;
    } else {
      var prior := ApprovalsLead(t, id, policy, n - 1, actor, now);
      var cmd := Approval(offer, policy, n, actor, now);
      AdvancedAwaits(t, id, n - 1, prior, policy, actor, now);
      t' := ApprovalCommits(prior, id, cmd, policy);
      LeadsOneMore(t, Approvals(offer, policy, n - 1, actor, now), prior, cmd, policy);
      AdvancedTwice(t, id, n - 1, prior, t', policy);
    }
  }

  lemma PendingOfferStep(t: Tables, id: Id, policy: ApprovalPolicy)
    requires Numbered(policy) && Reached(t, policy) && Awaiting(t, id)
    ensures 1 <= t.offers[id].step <= |policy| && t.offers[id].version == t.offers[id].step
  {
    ReachedChains(t, policy);
    assert ChainOk(t.offers[id], Chain(t.decisions, id), policy);
  }

  /** Approvals get an offer approved: from any reached tables in which the candidate of a pending offer waits, the
      missing approvals all commit, one after another and whoever gives them, and leave the offer approved and the
      candidate in the approved stage; nobody else's row changes. */
  lemma {:induction false} ApprovalsCommit(t: Tables, id: Id, policy: ApprovalPolicy, actor: nat -> Id,
                                           now: nat -> int)
      returns (t': Tables)
    requires Numbered(policy) && Reached(t, policy) && Awaiting(t, id)
    ensures 1 <= t.offers[id].step <= |policy|
    ensures Leads(t, Approvals(t.offers[id], policy, |policy| - t.offers[id].step + 1, actor, now), t', policy)
    ensures ApprovedAt(t, id, |policy|, t')
  {
    PendingOfferStep(t, id, policy);
    t' := ApprovalsLead(t, id, policy, |policy| - t.offers[id].step + 1, actor, now);
  }

  lemma TwoApprovals(offer: Offer, manager: Id, admin: Id, t1: int, t2: int)
    returns (actor: nat -> Id, now: nat -> int)
    requires offer.step == 1 && offer.version == 1
    ensures Approvals(offer, STANDARD_POLICY, 2, actor, now) ==
            [DecideOffer(offer.id, offer.tenant, manager, "hiring_manager", "approved", 1, t1),
             DecideOffer(offer.id, offer.tenant, admin, "tenant_admin", "approved", 2, t2)]
  {
    actor, now := (n: nat) => if n == 1 then manager else admin, (n: nat) => if n == 1 then t1 else t2;
    assert Approvals(offer, STANDARD_POLICY, 0, actor, now) == [];
    assert Approvals(offer, STANDARD_POLICY, 1, actor, now)
        == [DecideOffer(offer.id, offer.tenant, manager, "hiring_manager", "approved", 1, t1)];
  }

  /** Under the standard policy a new offer whose candidate waits is approved by a hiring manager and then a tenant
      administrator. */
  lemma StandardApproval(t: Tables, id: Id, manager: Id, admin: Id, t1: int, t2: int) returns (t': Tables)
    requires Reached(t, STANDARD_POLICY) && Awaiting(t, id) && t.offers[id].version == 1
    ensures
      Leads(t, [DecideOffer(id, t.offers[id].tenant, manager, "hiring_manager", "approved", 1, t1),
                DecideOffer(id, t.offers[id].tenant, admin, "tenant_admin", "approved", 2, t2)], t', STANDARD_POLICY)
    ensures ApprovedAt(t, id, 2, t')
  {
    PendingOfferStep(t, id, STANDARD_POLICY);
    var actor, now := TwoApprovals(t.offers[id], manager, admin, t1, t2);
    t' := ApprovalsCommit(t, id, STANDARD_POLICY, actor, now);
  }
}
