/** What every command keeps: stages and versions, offers and candidates, decisions and outbox events. */
module HiringInvariants {
  import opened Prelude
  import opened CandidateWorkflow
  import opened OfferApproval
  import opened Hiring

  predicate CandidateOk(id: Id, row: CandidateRow) {
    && row.record.id == id
    && Fits(row.record.stage, row.record.version)
    && (row.terminalAt.Some? <==> row.record.stage in {Stage.Rejected, Withdrawn})
  }

  predicate Finished(offer: Offer) {
    !offer.status.PendingApproval?
  }

  /** The stages a candidate can be in once an offer of this status exists. */
  predicate Behind(status: OfferStatus, stage: Stage) {
    match status
    case PendingApproval => stage !in {Applied, Screening, Interviewing}
    case Approved => stage in {OfferApproved, Hired, Withdrawn}
    case Rejected => stage in {OfferRejected, Stage.Rejected, Withdrawn}
  }

  /** Where an offer's candidate can be. */
  predicate Placed(offer: Offer, c: CandidateCase) {
    c.tenant == offer.tenant && c.version >= 4 && Behind(offer.status, c.stage)
  }

  predicate OfferOk(t: Tables, id: Id)
    requires id in t.offers
  {
    var offer := t.offers[id];
    && offer.id == id
    && offer.candidate in t.candidates
    && Placed(offer, t.candidates[offer.candidate].record)
    && (Finished(offer) ==> Decided(t.decisions, id, offer.step))
  }

  /** Summand of the conservation law: the decisions an offer has been through. */
  ghost function Decisions(offers: map<Id, Offer>): Id -> int {
    id => if id in offers then offers[id].version - 1 else 0
  }

  ghost predicate LedgerOk(offers: map<Id, Offer>, decisions: seq<Decision>, outbox: seq<Event>) {
    && |decisions| == |outbox| == Total(offers.Keys, Decisions(offers))
    && (forall k | 0 <= k < |decisions| ::
          && decisions[k].offer in offers
          && outbox[k].offer == decisions[k].offer
          && outbox[k].decision == decisions[k].decision
          && outbox[k].actor == decisions[k].actor)
    && (forall i, j | 0 <= i < j < |decisions| ::
          decisions[i].offer != decisions[j].offer || decisions[i].step != decisions[j].step)
  }

  ghost predicate OneOfferEach(offers: map<Id, Offer>) {
    forall a, b | a in offers && b in offers && offers[a].candidate == offers[b].candidate :: a == b
  }

  ghost predicate Inv(t: Tables) {
    && (forall id | id in t.candidates :: CandidateOk(id, t.candidates[id]))
    && (forall id | id in t.offers :: OfferOk(t, id))
    && OneOfferEach(t.offers)
    && LedgerOk(t.offers, t.decisions, t.outbox)
  }

  lemma EmptyTablesInv()
    ensures Inv(Tables(map[], map[], [], []))
  {
  }

  // ---------------------------------------------------------------------------------------------------------------
  // One move of one candidate

  /** A planned move is a legal one, of the candidate it names. */
  predicate LegalMove(m: Move) {
    && m.next.id == m.read.id && m.next.tenant == m.read.tenant
    && Allowed(m.read.stage, m.next.stage) && m.next.version == m.read.version + 1
  }

  /** The guard held on a candidate that is still as it was read. */
  predicate Current(t: Tables, m: Move) {
    CandidateGuard(t, m) && LegalMove(m) && t.candidates[m.next.id].record == m.read
  }

  lemma MoveKeepsPlaced(offer: Offer, c: CandidateCase, next: CandidateCase)
    requires Placed(offer, c) && Allowed(c.stage, next.stage) && next.version == c.version + 1
             && next.tenant == c.tenant
    ensures Placed(offer, next)
  {
  }

  lemma LegalMoveFits(m: Move)
    requires LegalMove(m) && Fits(m.read.stage, m.read.version)
    ensures Fits(m.next.stage, m.next.version)
  {
  }

  lemma WriteCandidateKeepsInv(t: Tables, m: Move, now: int)
    requires Inv(t) && Current(t, m)
    ensures Inv(WriteCandidate(t, m, now))
  {
    var t' := WriteCandidate(t, m, now);
    assert CandidateOk(m.next.id, t.candidates[m.next.id]);
    LegalMoveFits(m);
    forall id | id in t'.candidates ensures CandidateOk(id, t'.candidates[id]) {
      if id != m.next.id {
        assert CandidateOk(id, t.candidates[id]);
      }
    }
    forall id | id in t'.offers ensures OfferOk(t', id) {
      assert OfferOk(t, id);
      if t.offers[id].candidate == m.next.id {
        MoveKeepsPlaced(t.offers[id], t.candidates[m.next.id].record, t'.candidates[m.next.id].record);
      }
    }
  }

  // ---------------------------------------------------------------------------------------------------------------
  // The commands

  lemma OpenKeepsInv(t: Tables, newCase: CandidateCase)
    requires Inv(t) && newCase.stage == Applied && newCase.version == 1 && CommitOpen(t, newCase).Success?
    ensures Inv(CommitOpen(t, newCase).value)
  {
    var t' := CommitOpen(t, newCase).value;
    forall id | id in t'.offers ensures OfferOk(t', id) {
      assert OfferOk(t, id);
    }
  }

  /** The stage graph has no cycle, so a candidate that is interviewing has never had an offer: the guard on the
      candidate's version alone rules out a second offer, whatever the unique key would say. */
  lemma InterviewingHasNoOffer(t: Tables, candidate: Id)
    requires Inv(t) && candidate in t.candidates
    requires t.candidates[candidate].record.stage in {Applied, Screening, Interviewing}
    ensures !HasOffer(t.offers, candidate)
  {
    forall o | o in t.offers ensures t.offers[o].candidate != candidate {
      assert OfferOk(t, o);
    }
  }

  lemma AddOfferKeepsLedger(offers: map<Id, Offer>, decisions: seq<Decision>, outbox: seq<Event>, offer: Offer)
    requires LedgerOk(offers, decisions, outbox) && offer.id !in offers && offer.version == 1
    ensures LedgerOk(offers[offer.id := offer], decisions, outbox)
  {
    var offers' := offers[offer.id := offer];
    TotalSplit(offers'.Keys, Decisions(offers'), offer.id);
    assert offers'.Keys - {offer.id} == offers.Keys;
    TotalAgrees(offers.Keys, Decisions(offers'), Decisions(offers));
  }

  lemma RecordKeepsLedger(offers: map<Id, Offer>, decisions: seq<Decision>, outbox: seq<Event>,
                          offer: Offer, d: Decision, e: Event)
    requires LedgerOk(offers, decisions, outbox) && offer.id in offers && d.offer == offer.id
    requires !Decided(decisions, offer.id, d.step) && offer.version == offers[offer.id].version + 1
    requires e.offer == d.offer && e.decision == d.decision && e.actor == d.actor
    ensures LedgerOk(offers[offer.id := offer], decisions + [d], outbox + [e])
  {
    var offers' := offers[offer.id := offer];
    assert offers'.Keys == offers.Keys;
    TotalShift(offers.Keys, Decisions(offers), Decisions(offers'), offer.id);
  }

  lemma AddOfferKeepsInv(t: Tables, offer: Offer)
    requires Inv(t) && offer.id !in t.offers && offer.candidate in t.candidates && !HasOffer(t.offers, offer.candidate)
    requires offer == PendingOffer(offer.id, t.candidates[offer.candidate].record.tenant, offer.candidate)
    requires t.candidates[offer.candidate].record.stage == OfferPendingApproval
    ensures Inv(t.(offers := t.offers[offer.id := offer]))
  {
    var t' := t.(offers := t.offers[offer.id := offer]);
    assert CandidateOk(offer.candidate, t.candidates[offer.candidate]);
    forall id | id in t'.offers ensures OfferOk(t', id) {
      if id != offer.id {
        assert OfferOk(t, id);
      }
    }
    assert OneOfferEach(t'.offers) by {
      assert OneOfferEach(t.offers);
    }
    AddOfferKeepsLedger(t.offers, t.decisions, t.outbox, offer);
  }

  lemma CreateKeepsInv(t: Tables, m: Move, offer: Offer, now: int)
    requires Inv(t) && Current(t, m) && m.read.stage == Interviewing && m.next.stage == OfferPendingApproval
    requires offer == PendingOffer(offer.id, m.next.tenant, m.next.id)
    requires offer.id !in t.offers
    ensures CommitCreate(t, m, offer, now).Success?
    ensures Inv(CommitCreate(t, m, offer, now).value)
  {
    InterviewingHasNoOffer(t, m.next.id);
    WriteCandidateKeepsInv(t, m, now);
    AddOfferKeepsInv(WriteCandidate(t, m, now), offer);
  }

  lemma DecidedGrows(decisions: seq<Decision>, d: Decision, offer: Id, step: int)
    ensures Decided(decisions + [d], offer, step) <==>
            Decided(decisions, offer, step) || (d.offer == offer && d.step == step)
  {
    assert (decisions + [d])[|decisions|] == d;
    if Decided(decisions, offer, step) {
      var k :| 0 <= k < |decisions| && decisions[k].offer == offer && decisions[k].step == step;
      assert (decisions + [d])[k] == decisions[k];
    }
  }

  /** Recording a decision on an offer that has none for this step, once its candidate is where the new status wants
      it. */
  lemma RecordKeepsInv(t: Tables, offer: Offer, d: Decision, e: Event)
    requires Inv(t) && offer.id in t.offers && d.offer == offer.id && !Decided(t.decisions, offer.id, d.step)
    requires offer.tenant == t.offers[offer.id].tenant && offer.candidate == t.offers[offer.id].candidate
    requires offer.version == t.offers[offer.id].version + 1
    requires offer.candidate in t.candidates && Placed(offer, t.candidates[offer.candidate].record)
    requires Finished(offer) ==> offer.step == d.step
    requires e.offer == d.offer && e.decision == d.decision && e.actor == d.actor
    ensures Inv(t.(offers := t.offers[offer.id := offer], decisions := t.decisions + [d], outbox := t.outbox + [e]))
  {
    var t' := t.(offers := t.offers[offer.id := offer], decisions := t.decisions + [d], outbox := t.outbox + [e]);
    DecidedGrows(t.decisions, d, offer.id, d.step);
    forall id | id in t'.offers ensures OfferOk(t', id) {
      assert OfferOk(t, id);
      DecidedGrows(t.decisions, d, id, t.offers[id].step);
    }
    RecordKeepsLedger(t.offers, t.decisions, t.outbox, offer, d, e);
  }

  /** The decision a command plans on the tables as they are. */
  ghost predicate CurrentDecision(t: Tables, plan: Plan, policy: ApprovalPolicy) {
    && plan.DecidePlan? && plan.cmd.DecideOffer?
    && OfferGuard(t, plan.offer, plan.cmd.expected)
    && t.offers[plan.offer.id] == plan.offer
    && Decide(plan.offer, plan.cmd.decision, plan.cmd.role, policy) == Success(plan.outcome)
    && (plan.candidateMove.Some? <==> plan.outcome.candidateTarget.Some?)
    && (plan.candidateMove.Some? ==>
          && Current(t, plan.candidateMove.value)
          && plan.candidateMove.value.next.stage == plan.outcome.candidateTarget.value
          && plan.candidateMove.value.next.id == plan.offer.candidate)
  }

  /** A finished offer cannot be decided: its step has its decision already, and the key on (offer, step) is unique. */
  lemma DecidedOfferWasPending(t: Tables, plan: Plan, policy: ApprovalPolicy)
    requires Inv(t) && CurrentDecision(t, plan, policy) && CommitDecide(t, plan).Success?
    ensures !Finished(plan.offer)
  {
    assert OfferOk(t, plan.offer.id);
  }

  lemma DecideKeepsInv(t: Tables, plan: Plan, policy: ApprovalPolicy)
    requires Inv(t) && CurrentDecision(t, plan, policy) && CommitDecide(t, plan).Success?
    ensures Inv(CommitDecide(t, plan).value)
  {
    DecidedOfferWasPending(t, plan, policy);
    assert OfferOk(t, plan.offer.id);
    var offer := plan.outcome.offer;
    var d := Decision(plan.offer.id, plan.outcome.step, plan.cmd.actor, plan.outcome.decision, plan.cmd.role);
    var e := Event(plan.offer.id, plan.outcome.decision, plan.cmd.actor);
    if plan.candidateMove.Some? {
      var m := plan.candidateMove.value;
      WriteCandidateKeepsInv(t, m, plan.cmd.now);
      var t1 := WriteCandidate(t, m, plan.cmd.now);
      assert OfferOk(t1, offer.id);
      RecordKeepsInv(t1, offer, d, e);
    } else {
      RecordKeepsInv(t, offer, d, e);
    }
  }

  lemma HandleTransitionKeepsInv(t: Tables, cmd: Command, policy: ApprovalPolicy)
    requires Inv(t) && cmd.TransitionCandidate? && Handle(t, cmd, policy).Success?
    ensures Inv(Handle(t, cmd, policy).value)
  {
    assert CandidateOk(cmd.candidate, t.candidates[cmd.candidate]);
    WriteCandidateKeepsInv(t, BeginTransition(t, cmd).value.move, cmd.now);
  }

  lemma CreateEffect(t: Tables, cmd: Command, policy: ApprovalPolicy)
    requires Inv(t) && cmd.CreateOffer? && Handle(t, cmd, policy).Success?
    ensures cmd.offerId !in t.offers
    ensures
      var t' := Handle(t, cmd, policy).value;
      && t'.offers == t.offers[cmd.offerId := PendingOffer(cmd.offerId, cmd.tenant, cmd.candidate)]
      && t'.decisions == t.decisions
  {
    assert CandidateOk(cmd.candidate, t.candidates[cmd.candidate]);
  }

  lemma HandleCreateKeepsInv(t: Tables, cmd: Command, policy: ApprovalPolicy)
    requires Inv(t) && cmd.CreateOffer? && Handle(t, cmd, policy).Success?
    ensures Inv(Handle(t, cmd, policy).value)
  {
    assert CandidateOk(cmd.candidate, t.candidates[cmd.candidate]);
    var p := BeginCreate(t, cmd).value;
    CreateKeepsInv(t, p.move, p.offer, cmd.now);
  }

  /** What a deciding handler plans without interruption is current. */
  lemma PlannedDecisionIsCurrent(t: Tables, cmd: Command, policy: ApprovalPolicy)
    requires Inv(t) && cmd.DecideOffer?
    requires BeginDecide(t, cmd, policy).Success? && Refine(t, BeginDecide(t, cmd, policy).value).Success?
    ensures CurrentDecision(t, Refine(t, BeginDecide(t, cmd, policy).value).value, policy)
  {
    assert OfferOk(t, cmd.offerId);
    var candidate := t.offers[cmd.offerId].candidate;
    assert CandidateOk(candidate, t.candidates[candidate]);
  }

  lemma CommitDecideEffect(t: Tables, plan: Plan, policy: ApprovalPolicy)
    requires Inv(t) && CurrentDecision(t, plan, policy) && CommitDecide(t, plan).Success?
    ensures
      var t' := CommitDecide(t, plan).value;
      && t'.offers == t.offers[plan.offer.id := plan.outcome.offer]
      && t'.decisions == t.decisions
           + [Decision(plan.offer.id, plan.outcome.step, plan.cmd.actor, plan.outcome.decision, plan.cmd.role)]
      && t'.outbox == t.outbox + [Event(plan.offer.id, plan.outcome.decision, plan.cmd.actor)]
  {
    assert OfferOk(t, plan.offer.id);
  }

  /** An uninterrupted decision is the commit of a current plan. */
  lemma DecidePlanned(t: Tables, cmd: Command, policy: ApprovalPolicy) returns (plan: Plan)
    requires Inv(t) && cmd.DecideOffer? && Handle(t, cmd, policy).Success?
    ensures CurrentDecision(t, plan, policy) && plan.cmd == cmd && plan.offer.id == cmd.offerId
    ensures CommitDecide(t, plan) == Handle(t, cmd, policy)
  {
    PlannedDecisionIsCurrent(t, cmd, policy);
    plan := Refine(t, BeginDecide(t, cmd, policy).value).value;
    assert OfferOk(t, cmd.offerId);
  }

  /** What a successful decision changes: an offer that was pending, the candidate if the decision moves it, and one
      row more in the decisions and in the outbox. */
  lemma DecideEffect(t: Tables, cmd: Command, policy: ApprovalPolicy) returns (outcome: OfferDecision)
    requires Inv(t) && cmd.DecideOffer? && Handle(t, cmd, policy).Success?
    ensures cmd.offerId in t.offers && t.offers[cmd.offerId].id == cmd.offerId && !Finished(t.offers[cmd.offerId])
    ensures Decide(t.offers[cmd.offerId], cmd.decision, cmd.role, policy) == Success(outcome)
    ensures
      var t' := Handle(t, cmd, policy).value;
      && t'.offers == t.offers[cmd.offerId := outcome.offer]
      && t'.decisions == t.decisions + [Decision(cmd.offerId, outcome.step, cmd.actor, outcome.decision, cmd.role)]
      && t'.outbox == t.outbox + [Event(cmd.offerId, outcome.decision, cmd.actor)]
  {
    var plan := DecidePlanned(t, cmd, policy);
    DecidedOfferWasPending(t, plan, policy);
    CommitDecideEffect(t, plan, policy);
    outcome := plan.outcome;
  }

  lemma HandleDecideKeepsInv(t: Tables, cmd: Command, policy: ApprovalPolicy)
    requires Inv(t) && cmd.DecideOffer? && Handle(t, cmd, policy).Success?
    ensures Inv(Handle(t, cmd, policy).value)
  {
    var plan := DecidePlanned(t, cmd, policy);
    DecideKeepsInv(t, plan, policy);
  }

  /** Every command that succeeds keeps the invariant, under any approval policy. */
  lemma HandleKeepsInv(t: Tables, cmd: Command, policy: ApprovalPolicy)
    requires Inv(t) && Handle(t, cmd, policy).Success?
    ensures Inv(Handle(t, cmd, policy).value)
  {
    if cmd.OpenCandidate? {
      OpenKeepsInv(t, CandidateCase.Open(cmd.id, cmd.tenant, cmd.requisition));
    } else if cmd.TransitionCandidate? {
      HandleTransitionKeepsInv(t, cmd, policy);
    } else if cmd.CreateOffer? {
      HandleCreateKeepsInv(t, cmd, policy);
    } else {
      HandleDecideKeepsInv(t, cmd, policy);
    }
  }
}
