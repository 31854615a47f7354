/** The shared tables and the four commands on them: open a candidate, move a candidate, create an offer, decide an
    offer.

    A handler reads, plans, and then writes and commits under guards. `Begin` and `Refine` are the reads and the
    domain logic, `Commit` is the guarded writes together with the unique keys checked when the transaction is
    flushed. `Handle` is a handler that nothing interrupts. */
module Hiring {
  import opened Prelude
  import opened CandidateWorkflow
  import opened OfferApproval

  datatype CandidateRow = CandidateRow(record: CandidateCase, terminalAt: Option<int>)

  /** `role` is history: the role the approver acted in, which the table does not store. */
  datatype Decision = Decision(offer: Id, step: int, actor: Id, decision: string, role: string)

  /** Outbox events are numbered in the order of their commits; the number stands for the event's generated identifier.
      The status column is kept by the publisher, in `Outbox`. */
  datatype Event = Event(offer: Id, decision: string, actor: Id)

  datatype Tables = Tables(
    candidates: map<Id, CandidateRow>,
    offers: map<Id, Offer>,
    decisions: seq<Decision>,
    outbox: seq<Event>)

  /** Generated identifiers and clock readings are part of the command. */
  datatype Command =
    | OpenCandidate(id: Id, tenant: Id, requisition: Id)
    | TransitionCandidate(candidate: Id, tenant: Id, target: Option<Stage>, expected: int, now: int)
    | CreateOffer(candidate: Id, tenant: Id, offerId: Id, now: int)
    | DecideOffer(offerId: Id, tenant: Id, actor: Id, role: string, decision: string, expected: int, now: int)

  /** A candidate as it was read, and as it is to be written. */
  datatype Move = Move(read: CandidateCase, next: CandidateCase)

  /** What a handler holds in memory between its reads and its commit. */
  datatype Plan =
    | OpenPlan(cmd: Command, newCase: CandidateCase)
    | TransitionPlan(cmd: Command, move: Move)
    | CreatePlan(cmd: Command, move: Move, offer: Offer)
    | DraftPlan(cmd: Command, offer: Offer, outcome: OfferDecision)
    | DecidePlan(cmd: Command, offer: Offer, outcome: OfferDecision, candidateMove: Option<Move>)

  type Outcome<T> = Result<T, OfferError>

  // ---------------------------------------------------------------------------------------------------------------
  // Reads

  function GetCandidate(t: Tables, id: Id, tenant: Id): Option<CandidateCase> {
    if id in t.candidates && t.candidates[id].record.tenant == tenant then Some(t.candidates[id].record) else None
  }

  function GetOffer(t: Tables, id: Id, tenant: Id): Option<Offer> {
    if id in t.offers && t.offers[id].tenant == tenant then Some(t.offers[id]) else None
  }

  function BeginTransition(t: Tables, cmd: Command): Outcome<Plan>
    requires cmd.TransitionCandidate?
  {
    var candidate := GetCandidate(t, cmd.candidate, cmd.tenant);
    if candidate.None? then Failure(NotFound)
    else if candidate.value.version != cmd.expected then Failure(Conflict)
    else if cmd.target.None? then Failure(UnknownStage)
    else
      var next := candidate.value.Transition(cmd.target.value);
      if next.None? then Failure(InvalidTransition)
      else Success(TransitionPlan(cmd, Move(candidate.value, next.value)))
  }

  function BeginCreate(t: Tables, cmd: Command): Outcome<Plan>
    requires cmd.CreateOffer?
  {
    var candidate := GetCandidate(t, cmd.candidate, cmd.tenant);
    if candidate.None? || candidate.value.stage != Interviewing then Failure(NotEligible)
    else
      var next := candidate.value.Transition(OfferPendingApproval);
      if next.None? then Failure(InvalidTransition)
      else Success(CreatePlan(cmd, Move(candidate.value, next.value),
                              PendingOffer(cmd.offerId, cmd.tenant, candidate.value.id)))
  }

  function BeginDecide(t: Tables, cmd: Command, policy: ApprovalPolicy): Outcome<Plan>
    requires cmd.DecideOffer?
  {
    var offer := GetOffer(t, cmd.offerId, cmd.tenant);
    if offer.None? then Failure(NotFound)
    else if offer.value.version != cmd.expected then Failure(Conflict)
    else
      var outcome :- Decide(offer.value, cmd.decision, cmd.role, policy);
      Success(DraftPlan(cmd, offer.value, outcome))
  }

  function Begin(t: Tables, cmd: Command, policy: ApprovalPolicy): Outcome<Plan> {
    match cmd
    case OpenCandidate(id, tenant, requisition) => Success(OpenPlan(cmd, CandidateCase.Open(id, tenant, requisition)))
    case TransitionCandidate(_, _, _, _, _) => BeginTransition(t, cmd)
    case CreateOffer(_, _, _, _) => BeginCreate(t, cmd)
    case DecideOffer(_, _, _, _, _, _, _) => BeginDecide(t, cmd, policy)
  }

  /** The second read of a deciding handler: the candidate, when the decision moves it. */
  function Refine(t: Tables, plan: Plan): Outcome<Plan> {
    if !plan.DraftPlan? then Success(plan)
    else if plan.outcome.candidateTarget.None? then Success(DecidePlan(plan.cmd, plan.offer, plan.outcome, None))
    else
      var candidate := GetCandidate(t, plan.offer.candidate, plan.offer.tenant);
      if candidate.None? then Failure(Conflict)
      else
        var next := candidate.value.Transition(plan.outcome.candidateTarget.value);
        if next.None? then Failure(InvalidTransition)
        else Success(DecidePlan(plan.cmd, plan.offer, plan.outcome, Some(Move(candidate.value, next.value))))
  }

  // ---------------------------------------------------------------------------------------------------------------
  // Guarded writes

  predicate CandidateGuard(t: Tables, m: Move) {
    && m.next.id in t.candidates
    && t.candidates[m.next.id].record.tenant == m.next.tenant
    && t.candidates[m.next.id].record.version == m.read.version
  }

  /** The update writes stage, version and terminal time; the other columns keep the stored values. */
  function WriteCandidate(t: Tables, m: Move, now: int): Tables
    requires CandidateGuard(t, m)
  {
    var stored := t.candidates[m.next.id].record;
    t.(candidates := t.candidates[m.next.id := CandidateRow(
      stored.(stage := m.next.stage, version := m.next.version),
      if m.next.stage in {Stage.Rejected, Withdrawn} then Some(now) else None)])
  }

  predicate OfferGuard(t: Tables, offer: Offer, expected: int) {
    offer.id in t.offers && t.offers[offer.id].tenant == offer.tenant && t.offers[offer.id].version == expected
  }

  function WriteOffer(t: Tables, offer: Offer, expected: int): Tables
    requires OfferGuard(t, offer, expected)
  {
    t.(offers := t.offers[offer.id := t.offers[offer.id].(
      status := offer.status, step := offer.step, version := offer.version)])
  }

  /** The unique key on (offer, step). */
  predicate Decided(decisions: seq<Decision>, offer: Id, step: int) {
    exists k :: 0 <= k < |decisions| && decisions[k].offer == offer && decisions[k].step == step
  }

  /** The unique key on the candidate of an offer. */
  predicate HasOffer(offers: map<Id, Offer>, candidate: Id) {
    exists o | o in offers :: offers[o].candidate == candidate
  }

  function CommitOpen(t: Tables, newCase: CandidateCase): Outcome<Tables> {
    if newCase.id in t.candidates then Failure(UniqueViolation)
    else Success(t.(candidates := t.candidates[newCase.id := CandidateRow(newCase, None)]))
  }

  function CommitTransition(t: Tables, m: Move, now: int): Outcome<Tables> {
    if !CandidateGuard(t, m) then Failure(Conflict) else Success(WriteCandidate(t, m, now))
  }

  function CommitCreate(t: Tables, m: Move, offer: Offer, now: int): Outcome<Tables> {
    if !CandidateGuard(t, m) then Failure(Conflict)
    else if offer.id in t.offers || HasOffer(t.offers, offer.candidate) then Failure(UniqueViolation)
    else
      var t' := WriteCandidate(t, m, now);
      Success(t'.(offers := t'.offers[offer.id := offer]))
  }

  function CommitDecide(t: Tables, plan: Plan): Outcome<Tables>
    requires plan.DecidePlan? && plan.cmd.DecideOffer?
  {
    if !OfferGuard(t, plan.outcome.offer, plan.cmd.expected) then Failure(Conflict)
    else if plan.candidateMove.Some? && !CandidateGuard(t, plan.candidateMove.value) then Failure(Conflict)
    else if Decided(t.decisions, plan.offer.id, plan.outcome.step) then Failure(UniqueViolation)
    else
      var t1 := WriteOffer(t, plan.outcome.offer, plan.cmd.expected);
      var t2 := if plan.candidateMove.Some? then WriteCandidate(t1, plan.candidateMove.value, plan.cmd.now) else t1;
      Success(t2.(
        decisions := t2.decisions
          + [Decision(plan.offer.id, plan.outcome.step, plan.cmd.actor, plan.outcome.decision, plan.cmd.role)],
        outbox := t2.outbox + [Event(plan.offer.id, plan.outcome.decision, plan.cmd.actor)]))
  }

  /** Plans that `Begin` and `Refine` can have produced, as far as their shape goes. */
  predicate Shaped(plan: Plan) {
    match plan
    case OpenPlan(cmd, newCase) =>
      cmd.OpenCandidate? && newCase == CandidateCase.Open(cmd.id, cmd.tenant, cmd.requisition)
    case TransitionPlan(cmd, _) => cmd.TransitionCandidate?
    case CreatePlan(cmd, _, _) => cmd.CreateOffer?
    case DraftPlan(cmd, _, _) => cmd.DecideOffer?
    case DecidePlan(cmd, _, _, _) => cmd.DecideOffer?
  }

  function Commit(t: Tables, plan: Plan): Outcome<Tables>
    requires Shaped(plan) && !plan.DraftPlan?
  {
    match plan
    case OpenPlan(_, newCase) => CommitOpen(t, newCase)
    case TransitionPlan(cmd, m) => CommitTransition(t, m, cmd.now)
    case CreatePlan(cmd, m, offer) => CommitCreate(t, m, offer, cmd.now)
    case DecidePlan(_, _, _, _) => CommitDecide(t, plan)
  }

  /** A handler run from its first read to its commit without interruption; on failure the tables stay as they are. */
  function Handle(t: Tables, cmd: Command, policy: ApprovalPolicy): Outcome<Tables> {
    var draft :- Begin(t, cmd, policy);
    var plan :- Refine(t, draft);
    Commit(t, plan)
  }
}
