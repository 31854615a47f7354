/** The approval policy and the offer aggregate: a staged decision that never looks at the offer's status. */
module OfferApproval {
  import opened Prelude
  import opened CandidateWorkflow

  datatype ApprovalStep = ApprovalStep(number: int, role: string)

  type ApprovalPolicy = seq<ApprovalStep>

  datatype OfferError =
    | NotFound | Conflict | NotEligible | InvalidTransition
    | UnknownStage | UnsupportedDecision | UnknownStep | WrongApprover
    | UniqueViolation

  const STANDARD_POLICY: ApprovalPolicy := [ApprovalStep(1, "hiring_manager"), ApprovalStep(2, "tenant_admin")]

  /** The role of the first step with that number; `None` is the source's "Unknown approval step". */
  function RequiredRole(policy: ApprovalPolicy, step: int): Option<string> {
    if policy == [] then None
    else if policy[0].number == step then Some(policy[0].role)
    else RequiredRole(policy[1..], step)
  }

  datatype OfferStatus = PendingApproval | Approved | Rejected

  datatype Offer = Offer(id: Id, tenant: Id, candidate: Id, status: OfferStatus, step: int, version: nat)

  function PendingOffer(id: Id, tenant: Id, candidate: Id): Offer {
    Offer(id, tenant, candidate, PendingApproval, 1, 1)
  }

  datatype OfferDecision = OfferDecision(offer: Offer, candidateTarget: Option<Stage>, step: int, decision: string)

  function Decide(offer: Offer, decision: string, actorRole: string, policy: ApprovalPolicy)
    : Result<OfferDecision, OfferError>
  {
    if decision != "approved" && decision != "rejected" then Failure(UnsupportedDecision)
    else
      var role := RequiredRole(policy, offer.step);
      if role.None? then Failure(UnknownStep)
      else if actorRole != role.value then Failure(WrongApprover)
      else if decision == "rejected" then
        Success(OfferDecision(offer.(status := OfferStatus.Rejected, version := offer.version + 1),
                              Some(OfferRejected), offer.step, decision))
      else if policy != [] && offer.step == policy[|policy| - 1].number then
        Success(OfferDecision(offer.(status := Approved, version := offer.version + 1),
                              Some(OfferApproved), offer.step, decision))
      else
        Success(OfferDecision(offer.(step := offer.step + 1, version := offer.version + 1),
                              None, offer.step, decision))
  }

  /** A policy whose steps are numbered 1, 2, ..., n. */
  ghost predicate Numbered(policy: ApprovalPolicy) {
    policy != [] && forall i | 0 <= i < |policy| :: policy[i].number == i + 1
  }

  lemma {:induction false} RequiredRoleFrom(policy: ApprovalPolicy, step: int, first: int)
    requires forall i | 0 <= i < |policy| :: policy[i].number == first + i
    ensures RequiredRole(policy, step) ==
            if first <= step < first + |policy| then Some(policy[step - first].role) else None
    decreases |policy|
  {
    if policy != [] && first != step {
      RequiredRoleFrom(policy[1..], step, first + 1);
    }
  }

  /** Under a numbered policy the i-th step needs the i-th role, and no other step exists. */
  lemma RequiredRoleInOrder(policy: ApprovalPolicy, step: int)
    requires Numbered(policy)
    ensures RequiredRole(policy, step) == if 1 <= step <= |policy| then Some(policy[step - 1].role) else None
  {
    RequiredRoleFrom(policy, step, 1);
  }

  /** The first step with that number. */
  predicate FirstWith(policy: ApprovalPolicy, number: int, i: nat) {
    i < |policy| && policy[i].number == number && forall j | 0 <= j < i :: policy[j].number != number
  }

  lemma {:induction false} RequiredRoleIsFirst(policy: ApprovalPolicy, step: int, i: nat)
    ensures FirstWith(policy, step, i) ==> RequiredRole(policy, step) == Some(policy[i].role)
    ensures (forall j | 0 <= j < |policy| :: policy[j].number != step) ==> RequiredRole(policy, step) == None
    decreases |policy|
  {
    if policy != [] && policy[0].number != step && i > 0 {
      RequiredRoleIsFirst(policy[1..], step, i - 1);
    } else if policy != [] && policy[0].number != step {
      RequiredRoleIsFirst(policy[1..], step, 0);
    }
  }

  /** Under any policy, however its steps are numbered: the role of the first step with the offer's number decides; a
      rejection finishes the offer, an approval does exactly when that number is the last step's, and any other approval
      leads to the next number. */
  lemma DecideUnderAnyPolicy(offer: Offer, decision: string, role: string, policy: ApprovalPolicy, i: nat)
    requires FirstWith(policy, offer.step, i) && decision in {"approved", "rejected"}
    ensures
      var o, v := offer, offer.version + 1;
      Decide(offer, decision, role, policy) ==
      if role != policy[i].role then Failure(WrongApprover)
      else if decision == "rejected" then
        Success(OfferDecision(Offer(o.id, o.tenant, o.candidate, OfferStatus.Rejected, o.step, v), Some(OfferRejected),
                              o.step, decision))
      else if policy[|policy| - 1].number == o.step then
        Success(OfferDecision(Offer(o.id, o.tenant, o.candidate, Approved, o.step, v), Some(OfferApproved), o.step,
                              decision))
      else
        Success(OfferDecision(Offer(o.id, o.tenant, o.candidate, o.status, o.step + 1, v), None, o.step, decision))
  {
    RequiredRoleIsFirst(policy, offer.step, i);
  }
}
