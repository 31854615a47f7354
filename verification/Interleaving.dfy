/** Many handlers at once: their reads and commits interleave, and the guards make every run equal a serial one.

    A task is a handler between its first read and its commit. A deciding handler reads the candidate in a separate
    step. A commit is one atomic step: the guarded updates lock the rows they match until the transaction ends. */
module Interleaving {
  import opened Prelude
  import opened CandidateWorkflow
  import opened OfferApproval
  import opened Hiring
  import opened HiringInvariants
  import opened HiringHistory
  import Runs

  type TaskId = nat

  datatype Office = Office(tables: Tables, tasks: map<TaskId, Plan>)

  datatype TaskStep =
    | BeginTask(task: TaskId, cmd: Command)
    | RefineTask(task: TaskId)
    | CommitTask(task: TaskId)
    | AbortTask(task: TaskId)

  predicate Enabled(s: Office, step: TaskStep) {
    match step
    case BeginTask(task, _) => task !in s.tasks
    case RefineTask(task) => task in s.tasks
    case CommitTask(task) => task in s.tasks && Shaped(s.tasks[task]) && !s.tasks[task].DraftPlan?
    case AbortTask(_) => true
  }

  function Apply(s: Office, step: TaskStep, policy: ApprovalPolicy): Office
    requires Enabled(s, step)
  {
    match step
    case BeginTask(task, cmd) =>
      var plan := Begin(s.tables, cmd, policy);
      if plan.Success? then s.(tasks := s.tasks[task := plan.value]) else s
    case RefineTask(task) =>
      var plan := Refine(s.tables, s.tasks[task]);
      s.(tasks := if plan.Success? then s.tasks[task := plan.value] else s.tasks - {task})
    case CommitTask(task) =>
      var result := Commit(s.tables, s.tasks[task]);
      Office(if result.Success? then result.value else s.tables, s.tasks - {task})
    case AbortTask(task) => s.(tasks := s.tasks - {task})
  }

  ghost function Next(policy: ApprovalPolicy): (Office, TaskStep, Office) -> bool {
    (s: Office, step: TaskStep, s': Office) => Enabled(s, step) && s' == Apply(s, step, policy)
  }

  ghost predicate IsRun(states: seq<Office>, steps: seq<TaskStep>, policy: ApprovalPolicy) {
    Runs.IsRun(Next(policy), states, steps)
  }

  /** The command that a step commits, if it commits one. */
  function CommittedBy(s: Office, step: TaskStep): seq<Command> {
    if Enabled(s, step) && step.CommitTask? && Commit(s.tables, s.tasks[step.task]).Success?
    then [s.tasks[step.task].cmd] else []
  }

  /** The commands that were committed, in the order of their commits. */
  function Committed(states: seq<Office>, steps: seq<TaskStep>): seq<Command>
    requires |states| == |steps| + 1
    decreases |steps|
  {
    if steps == [] then []
    else Committed(states[..|steps|], steps[..|steps| - 1]) + CommittedBy(states[|steps| - 1], steps[|steps| - 1])
  }

  lemma BegunIsShaped(t: Tables, cmd: Command, policy: ApprovalPolicy)
    requires Begin(t, cmd, policy).Success?
    ensures Shaped(Begin(t, cmd, policy).value) && Begin(t, cmd, policy).value.cmd == cmd
  {
  }

  lemma RefinedIsShaped(t: Tables, plan: Plan)
    requires Shaped(plan) && Refine(t, plan).Success?
    ensures Shaped(Refine(t, plan).value) && !Refine(t, plan).value.DraftPlan?
    ensures Refine(t, plan).value.cmd == plan.cmd
  {
  }

  /** A task that nothing comes between is the whole handler, and the run counts its command as committed. */
  lemma UninterruptedTask(s: Office, task: TaskId, cmd: Command, policy: ApprovalPolicy)
      returns (s1: Office, s2: Office, s3: Office)
    requires task !in s.tasks && Handle(s.tables, cmd, policy).Success?
    ensures Enabled(s, BeginTask(task, cmd)) && s1 == Apply(s, BeginTask(task, cmd), policy)
    ensures Enabled(s1, RefineTask(task)) && s2 == Apply(s1, RefineTask(task), policy)
    ensures Enabled(s2, CommitTask(task)) && s3 == Apply(s2, CommitTask(task), policy)
    ensures s3 == Office(Handle(s.tables, cmd, policy).value, s.tasks)
    ensures CommittedBy(s2, CommitTask(task)) == [cmd]
  {
    var draft := Begin(s.tables, cmd, policy).value;
    BegunIsShaped(s.tables, cmd, policy);
    RefinedIsShaped(s.tables, draft);
    var plan := Refine(s.tables, draft).value;
    s1 := Office(s.tables, s.tasks[task := draft]);
    s2 := Office(s.tables, s.tasks[task := plan]);
    assert s1.tasks[task := plan] == s2.tasks;
    s3 := Office(Handle(s.tables, cmd, policy).value, s.tasks);
    assert s2.tasks - {task} == s.tasks;
  }

  // ---------------------------------------------------------------------------------------------------------------
  // Versions only grow

  /** A candidate that was read some time ago: it is still there, and unless its version grew it is unchanged. */
  predicate NotNewer(t: Tables, c: CandidateCase) {
    && c.id in t.candidates
    && t.candidates[c.id].record.version >= c.version
    && (t.candidates[c.id].record.version == c.version ==> t.candidates[c.id].record == c)
  }

  predicate OfferNotNewer(t: Tables, offer: Offer) {
    && offer.id in t.offers
    && t.offers[offer.id].version >= offer.version
    && (t.offers[offer.id].version == offer.version ==> t.offers[offer.id] == offer)
  }

  ghost predicate Advances(t: Tables, t': Tables) {
    && (forall id | id in t.candidates :: t.candidates[id].record.id == id && NotNewer(t', t.candidates[id].record))
    && (forall id | id in t.offers :: t.offers[id].id == id && OfferNotNewer(t', t.offers[id]))
  }

  lemma OfferAdvances(t: Tables, cmd: Command, policy: ApprovalPolicy, id: Id)
    requires Inv(t) && Handle(t, cmd, policy).Success? && id in t.offers && t.offers[id].id == id
    ensures OfferNotNewer(Handle(t, cmd, policy).value, t.offers[id])
  {
    if cmd.DecideOffer? {
      var _ := DecideEffect(t, cmd, policy);
    } else if cmd.CreateOffer? {
      CreateEffect(t, cmd, policy);
    }
  }

  lemma WriteAdvances(t: Tables, m: Move, now: int, c: CandidateCase)
    requires Current(t, m) && c.id in t.candidates && t.candidates[c.id].record == c
    ensures NotNewer(WriteCandidate(t, m, now), c)
  {
  }

  lemma CandidateAdvances(t: Tables, cmd: Command, policy: ApprovalPolicy, id: Id)
    requires Inv(t) && Handle(t, cmd, policy).Success? && id in t.candidates && t.candidates[id].record.id == id
    ensures NotNewer(Handle(t, cmd, policy).value, t.candidates[id].record)
  {
    var c := t.candidates[id].record;
    if cmd.DecideOffer? {
      var plan := DecidePlanned(t, cmd, policy);
      if plan.candidateMove.Some? {
        WriteAdvances(t, plan.candidateMove.value, cmd.now, c);
      }
    } else if cmd.TransitionCandidate? {
      assert CandidateOk(cmd.candidate, t.candidates[cmd.candidate]);
      WriteAdvances(t, BeginTransition(t, cmd).value.move, cmd.now, c);
    } else if cmd.CreateOffer? {
      assert CandidateOk(cmd.candidate, t.candidates[cmd.candidate]);
      WriteAdvances(t, BeginCreate(t, cmd).value.move, cmd.now, c);
    }
  }

  lemma HandleAdvances(t: Tables, cmd: Command, policy: ApprovalPolicy)
    requires Inv(t) && Handle(t, cmd, policy).Success?
    ensures Advances(t, Handle(t, cmd, policy).value)
  {
    var t' := Handle(t, cmd, policy).value;
    forall id | id in t.candidates ensures t.candidates[id].record.id == id && NotNewer(t', t.candidates[id].record) {
      assert CandidateOk(id, t.candidates[id]);
      CandidateAdvances(t, cmd, policy, id);
    }
    forall id | id in t.offers ensures t.offers[id].id == id && OfferNotNewer(t', t.offers[id]) {
      assert OfferOk(t, id);
      OfferAdvances(t, cmd, policy, id);
    }
  }

  lemma NotNewerLater(t: Tables, t': Tables, c: CandidateCase)
    requires NotNewer(t, c) && Advances(t, t')
    ensures NotNewer(t', c)
    ensures t.candidates[c.id].record.version <= t'.candidates[c.id].record.version
  {
  }

  lemma OfferNotNewerLater(t: Tables, t': Tables, offer: Offer)
    requires OfferNotNewer(t, offer) && Advances(t, t')
    ensures OfferNotNewer(t', offer)
    ensures t.offers[offer.id].version <= t'.offers[offer.id].version
  {
  }

  // ---------------------------------------------------------------------------------------------------------------
  // Plans made from old reads

  predicate MoveOk(t: Tables, m: Move, id: Id, tenant: Id, target: Stage) {
    && m.read.id == id && m.read.tenant == tenant
    && m.read.Transition(target) == Some(m.next)
    && NotNewer(t, m.read)
  }

  predicate DecisionOk(t: Tables, cmd: Command, offer: Offer, outcome: OfferDecision, policy: ApprovalPolicy) {
    && cmd.DecideOffer?
    && offer.id == cmd.offerId && offer.tenant == cmd.tenant && offer.version == cmd.expected
    && Decide(offer, cmd.decision, cmd.role, policy) == Success(outcome)
    && OfferNotNewer(t, offer)
  }

  /** The plan follows from reads that were right when they were made. */
  predicate PlanOk(t: Tables, plan: Plan, policy: ApprovalPolicy) {
    && Shaped(plan)
    && match plan
       case OpenPlan(_, _) => true
       case TransitionPlan(cmd, m) =>
         && cmd.target.Some? && m.read.version == cmd.expected
         && MoveOk(t, m, cmd.candidate, cmd.tenant, cmd.target.value)
       case CreatePlan(cmd, m, offer) =>
         && m.read.stage == Interviewing
         && MoveOk(t, m, cmd.candidate, cmd.tenant, OfferPendingApproval)
         && offer == PendingOffer(cmd.offerId, cmd.tenant, cmd.candidate)
       case DraftPlan(cmd, offer, outcome) => DecisionOk(t, cmd, offer, outcome, policy)
       case DecidePlan(cmd, offer, outcome, m) =>
         && DecisionOk(t, cmd, offer, outcome, policy)
         && (m.Some? <==> outcome.candidateTarget.Some?)
         && (m.Some? ==> MoveOk(t, m.value, offer.candidate, offer.tenant, outcome.candidateTarget.value))
  }

  lemma PlanStaysOk(t: Tables, t': Tables, plan: Plan, policy: ApprovalPolicy)
    requires PlanOk(t, plan, policy) && Advances(t, t')
    ensures PlanOk(t', plan, policy)
  {
    match plan
    case OpenPlan(_, _) =>
    case TransitionPlan(_, m) => NotNewerLater(t, t', m.read);
    case CreatePlan(_, m, _) => NotNewerLater(t, t', m.read);
    case DraftPlan(_, offer, _) => OfferNotNewerLater(t, t', offer);
    case DecidePlan(_, offer, _, m) =>
      OfferNotNewerLater(t, t', offer);
      if m.Some? { NotNewerLater(t, t', m.value.read); }
  }

  lemma BegunPlanOk(t: Tables, cmd: Command, policy: ApprovalPolicy)
    requires Inv(t) && Begin(t, cmd, policy).Success?
    ensures PlanOk(t, Begin(t, cmd, policy).value, policy)
  {
    if cmd.TransitionCandidate? || cmd.CreateOffer? {
      assert CandidateOk(cmd.candidate, t.candidates[cmd.candidate]);
    } else if cmd.DecideOffer? {
      assert OfferOk(t, cmd.offerId);
    }
  }

  lemma RefinedPlanOk(t: Tables, plan: Plan, policy: ApprovalPolicy)
    requires Inv(t) && PlanOk(t, plan, policy) && Refine(t, plan).Success?
    ensures PlanOk(t, Refine(t, plan).value, policy)
  {
    if plan.DraftPlan? && plan.outcome.candidateTarget.Some? {
      assert CandidateOk(plan.offer.candidate, t.candidates[plan.offer.candidate]);
    }
  }

  /** A commit that gets past its guards does what the whole handler would do on the tables as they are now. */
  lemma CommitIsHandle(t: Tables, plan: Plan, policy: ApprovalPolicy)
    requires Inv(t) && PlanOk(t, plan, policy) && !plan.DraftPlan? && Commit(t, plan).Success?
    ensures Handle(t, plan.cmd, policy) == Commit(t, plan)
  {
    match plan
    case OpenPlan(_, _) =>
    case TransitionPlan(cmd, m) =>
      assert BeginTransition(t, cmd) == Success(plan);
    case CreatePlan(cmd, m, offer) =>
      assert BeginCreate(t, cmd) == Success(plan);
    case DecidePlan(cmd, offer, outcome, m) =>
      assert BeginDecide(t, cmd, policy) == Success(DraftPlan(cmd, offer, outcome));
      assert Refine(t, DraftPlan(cmd, offer, outcome)) == Success(plan);
  }

  // ---------------------------------------------------------------------------------------------------------------
  // Serialisability

  ghost predicate OfficeInv(s: Office, policy: ApprovalPolicy) {
    Inv(s.tables) && forall task | task in s.tasks :: PlanOk(s.tables, s.tasks[task], policy)
  }

  lemma AdvancesSelf(t: Tables)
    requires Inv(t)
    ensures Advances(t, t)
  {
    forall id | id in t.candidates ensures t.candidates[id].record.id == id {
      assert CandidateOk(id, t.candidates[id]);
    }
    forall id | id in t.offers ensures t.offers[id].id == id {
      assert OfferOk(t, id);
    }
  }

  lemma CommitKeepsOffice(s: Office, task: TaskId, policy: ApprovalPolicy)
    requires OfficeInv(s, policy) && Enabled(s, CommitTask(task))
    ensures OfficeInv(Apply(s, CommitTask(task), policy), policy)
    ensures Advances(s.tables, Apply(s, CommitTask(task), policy).tables)
  {
    var s' := Apply(s, CommitTask(task), policy);
    var plan := s.tasks[task];
    if Commit(s.tables, plan).Success? {
      CommitIsHandle(s.tables, plan, policy);
      HandleKeepsInv(s.tables, plan.cmd, policy);
      HandleAdvances(s.tables, plan.cmd, policy);
      forall other | other in s'.tasks ensures PlanOk(s'.tables, s'.tasks[other], policy) {
        PlanStaysOk(s.tables, s'.tables, s.tasks[other], policy);
      }
    } else {
      AdvancesSelf(s.tables);
    }
  }

  lemma StepKeepsOffice(s: Office, step: TaskStep, policy: ApprovalPolicy)
    requires OfficeInv(s, policy) && Enabled(s, step)
    ensures OfficeInv(Apply(s, step, policy), policy)
    ensures Advances(s.tables, Apply(s, step, policy).tables)
  {
    match step
    case BeginTask(_, cmd) =>
      if Begin(s.tables, cmd, policy).Success? { BegunPlanOk(s.tables, cmd, policy); }
      AdvancesSelf(s.tables);
    case RefineTask(task) =>
      if Refine(s.tables, s.tasks[task]).Success? { RefinedPlanOk(s.tables, s.tasks[task], policy); }
      AdvancesSelf(s.tables);
    case CommitTask(task) => CommitKeepsOffice(s, task, policy);
    case AbortTask(_) => AdvancesSelf(s.tables);
  }

  lemma AdvancesChain(t: Tables, t1: Tables, t2: Tables)
    requires Advances(t, t1) && Advances(t1, t2)
    ensures Advances(t, t2)
  {
    forall id | id in t.candidates ensures NotNewer(t2, t.candidates[id].record) {
      NotNewerLater(t1, t2, t.candidates[id].record);
    }
    forall id | id in t.offers ensures OfferNotNewer(t2, t.offers[id]) {
      OfferNotNewerLater(t1, t2, t.offers[id]);
    }
  }

  /** In every run plans stay in order and versions only grow; an equal version means an equal record. */
  lemma RunKeepsOffice(states: seq<Office>, steps: seq<TaskStep>, policy: ApprovalPolicy)
    requires IsRun(states, steps, policy) && OfficeInv(states[0], policy)
    ensures OfficeInv(states[|states| - 1], policy)
    ensures Advances(states[0].tables, states[|states| - 1].tables)
  {
    var p := (s: Office) => OfficeInv(s, policy) && Advances(states[0].tables, s.tables);
    AdvancesSelf(states[0].tables);
    forall s, step, s' | p(s) && Next(policy)(s, step, s') ensures p(s') {
      StepKeepsOffice(s, step, policy);
      AdvancesChain(states[0].tables, s.tables, s'.tables);
    }
    Runs.RunKeeps(Next(policy), p, states, steps);
  }

  /** A step is one uninterrupted handler, or leaves the tables alone. */
  lemma StepIsSerial(from: Tables, cmds: seq<Command>, s: Office, step: TaskStep, policy: ApprovalPolicy)
    requires OfficeInv(s, policy) && Enabled(s, step) && Leads(from, cmds, s.tables, policy)
    ensures Leads(from, cmds + CommittedBy(s, step), Apply(s, step, policy).tables, policy)
  {
    if step.CommitTask? && Commit(s.tables, s.tasks[step.task]).Success? {
      CommitIsHandle(s.tables, s.tasks[step.task], policy);
      LeadsOneMore(from, cmds, s.tables, s.tasks[step.task].cmd, policy);
    } else {
      assert cmds + CommittedBy(s, step) == cmds;
    }
  }

  /** Every interleaving of handlers ends in the tables that the committed commands, run one after another as
      uninterrupted handlers in the order of their commits, produce; and each of them succeeds. */
  lemma {:induction false} Serialisable(states: seq<Office>, steps: seq<TaskStep>, policy: ApprovalPolicy)
    requires IsRun(states, steps, policy) && OfficeInv(states[0], policy)
    ensures Leads(states[0].tables, Committed(states, steps), states[|states| - 1].tables, policy)
    decreases |steps|
  {
    if steps == [] {
      LeadsSelf(states[0].tables, policy);
    } else {
      var n := |steps| - 1;
      Serialisable(states[..n + 1], steps[..n], policy);
      RunKeepsOffice(states[..n + 1], steps[..n], policy);
      assert Next(policy)(states[n], steps[n], states[n + 1]);
      StepIsSerial(states[0].tables, Committed(states[..n + 1], steps[..n]), states[n], steps[n], policy);
    }
  }

  /** However late it comes, the commit of an offer fails only because its candidate has moved or its identifier is
      taken; the unique key on the candidate never stops it. */
  lemma CreateFailsIff(s: Office, task: TaskId, policy: ApprovalPolicy)
    requires OfficeInv(s, policy) && task in s.tasks && s.tasks[task].CreatePlan? && Shaped(s.tasks[task])
    ensures
      var plan := s.tasks[task];
      && (Commit(s.tables, plan).Failure? <==> !CandidateGuard(s.tables, plan.move) || plan.offer.id in s.tables.offers)
      && (CandidateGuard(s.tables, plan.move) ==> !HasOffer(s.tables.offers, plan.offer.candidate))
  {
    var plan := s.tasks[task];
    assert PlanOk(s.tables, plan, policy);
    if CandidateGuard(s.tables, plan.move) {
      InterviewingHasNoOffer(s.tables, plan.offer.candidate);
    }
  }

  // ---------------------------------------------------------------------------------------------------------------
  // One commit per version

  /** The candidate version a plan is going to replace, if it replaces one. */
  function CandidateRead(plan: Plan): Option<CandidateCase> {
    match plan
    case TransitionPlan(_, m) => Some(m.read)
    case CreatePlan(_, m, _) => Some(m.read)
    case DecidePlan(_, _, _, m) => if m.Some? then Some(m.value.read) else None
    case _ => None
  }

  function OfferRead(plan: Plan): Option<Offer> {
    match plan
    case DraftPlan(_, offer, _) => Some(offer)
    case DecidePlan(_, offer, _, _) => Some(offer)
    case _ => None
  }

  /** Both plans would replace the same version of the same candidate or of the same offer. */
  predicate Rivals(p: Plan, q: Plan) {
    || (CandidateRead(p).Some? && CandidateRead(q).Some?
        && CandidateRead(p).value.id == CandidateRead(q).value.id
        && CandidateRead(p).value.version == CandidateRead(q).value.version)
    || (OfferRead(p).Some? && OfferRead(q).Some?
        && OfferRead(p).value.id == OfferRead(q).value.id
        && OfferRead(p).value.version == OfferRead(q).value.version)
  }

  predicate Overtaken(t: Tables, plan: Plan) {
    || (CandidateRead(plan).Some?
        && CandidateRead(plan).value.id in t.candidates
        && t.candidates[CandidateRead(plan).value.id].record.version > CandidateRead(plan).value.version)
    || (OfferRead(plan).Some?
        && OfferRead(plan).value.id in t.offers
        && t.offers[OfferRead(plan).value.id].version > OfferRead(plan).value.version)
  }

  lemma OvertakenFails(t: Tables, plan: Plan, policy: ApprovalPolicy)
    requires PlanOk(t, plan, policy) && !plan.DraftPlan? && Overtaken(t, plan)
    ensures Commit(t, plan).Failure?
  {
  }

  lemma CommitOvertakes(t: Tables, p: Plan, q: Plan, policy: ApprovalPolicy)
    requires PlanOk(t, p, policy) && PlanOk(t, q, policy) && !p.DraftPlan? && Commit(t, p).Success? && Rivals(p, q)
    ensures Overtaken(Commit(t, p).value, q)
  {
  }

  /** The later reads of a handler add to what it read before. */
  predicate ReadsKept(before: Plan, now: Plan) {
    && OfferRead(now) == OfferRead(before)
    && (CandidateRead(before).Some? ==> CandidateRead(now) == CandidateRead(before))
  }

  lemma RivalsStay(p: Plan, q: Plan, p': Plan, q': Plan)
    requires Rivals(p, q) && ReadsKept(p, p') && ReadsKept(q, q')
    ensures Rivals(p', q')
  {
  }

  lemma OvertakenStays(t: Tables, t': Tables, plan: Plan, plan': Plan, policy: ApprovalPolicy)
    requires PlanOk(t, plan, policy) && Advances(t, t') && Overtaken(t, plan) && ReadsKept(plan, plan')
    ensures Overtaken(t', plan')
  {
    if CandidateRead(plan).Some? {
      NotNewerLater(t, t', CandidateRead(plan).value);
    }
    if OfferRead(plan).Some? {
      OfferNotNewerLater(t, t', OfferRead(plan).value);
    }
  }

  predicate Begins(step: TaskStep, task: TaskId) {
    step.BeginTask? && step.task == task
  }

  /** No step but a new beginning changes what a task has read. */
  lemma StepKeepsReads(s: Office, step: TaskStep, task: TaskId, policy: ApprovalPolicy)
    requires Enabled(s, step) && !Begins(step, task)
    ensures task in Apply(s, step, policy).tasks ==>
              task in s.tasks && ReadsKept(s.tasks[task], Apply(s, step, policy).tasks[task])
  {
  }

  /** The task is not begun again in steps i to k - 1. */
  predicate NotBegunAgain(steps: seq<TaskStep>, i: nat, k: nat, task: TaskId) {
    forall j | i <= j < k && j < |steps| :: !Begins(steps[j], task)
  }

  /** The k-th step of a run commits this task, and the commit gets past its guards. */
  ghost predicate Commits(states: seq<Office>, steps: seq<TaskStep>, k: nat, task: TaskId)
    requires |states| == |steps| + 1 && k < |steps|
  {
    && steps[k] == CommitTask(task) && Enabled(states[k], steps[k])
    && Commit(states[k].tables, states[k].tasks[task]).Success?
  }

  /** What every step of a run that does not begin `task` again keeps, is kept from state i to state k. */
  lemma {:induction false} StretchKeeps(p: Office -> bool, states: seq<Office>, steps: seq<TaskStep>, i: nat, k: nat,
                                        task: TaskId, policy: ApprovalPolicy)
    requires IsRun(states, steps, policy) && i <= k <= |steps| && NotBegunAgain(steps, i, k, task) && p(states[i])
    requires forall s, step | p(s) && Enabled(s, step) && !Begins(step, task) :: p(Apply(s, step, policy))
    ensures p(states[k])
    decreases k - i
  {
    if i < k {
      StretchKeeps(p, states, steps, i, k - 1, task, policy);
      assert Next(policy)(states[k - 1], steps[k - 1], states[k]);
    }
  }

  lemma OfficeAt(states: seq<Office>, steps: seq<TaskStep>, k: nat, policy: ApprovalPolicy)
    requires IsRun(states, steps, policy) && OfficeInv(states[0], policy) && k <= |steps|
    ensures OfficeInv(states[k], policy)
  {
    var prefix := states[..k + 1];
    Runs.RunPrefix(Next(policy), states, steps, k);
    assert prefix[0] == states[0] && prefix[|prefix| - 1] == states[k];
    RunKeepsOffice(prefix, steps[..k], policy);
  }

  lemma ReadsAt(states: seq<Office>, steps: seq<TaskStep>, i: nat, k: nat, task: TaskId, policy: ApprovalPolicy)
    requires IsRun(states, steps, policy) && i <= k <= |steps| && NotBegunAgain(steps, i, k, task)
    requires task in states[i].tasks && task in states[k].tasks
    ensures ReadsKept(states[i].tasks[task], states[k].tasks[task])
  {
    var read := states[i].tasks[task];
    var p := (s: Office) => task in s.tasks ==> ReadsKept(read, s.tasks[task]);
    forall s, step | p(s) && Enabled(s, step) && !Begins(step, task) ensures p(Apply(s, step, policy)) {
      StepKeepsReads(s, step, task, policy);
    }
    StretchKeeps(p, states, steps, i, k, task, policy);
  }

  lemma StepKeepsOvertaken(s: Office, step: TaskStep, task: TaskId, policy: ApprovalPolicy)
    requires OfficeInv(s, policy) && Enabled(s, step) && !Begins(step, task)
    requires task in s.tasks ==> Overtaken(s.tables, s.tasks[task])
    ensures task in Apply(s, step, policy).tasks ==>
              Overtaken(Apply(s, step, policy).tables, Apply(s, step, policy).tasks[task])
  {
    var s' := Apply(s, step, policy);
    StepKeepsOffice(s, step, policy);
    StepKeepsReads(s, step, task, policy);
    if task in s'.tasks {
      OvertakenStays(s.tables, s'.tables, s.tasks[task], s'.tasks[task], policy);
    }
  }

  /** A task that has been overtaken cannot commit until it is begun again, whatever it reads in the meantime. */
  lemma OvertakenNeverCommits(states: seq<Office>, steps: seq<TaskStep>, i: nat, k: nat, task: TaskId,
                              policy: ApprovalPolicy)
    requires IsRun(states, steps, policy) && i <= k < |steps| && NotBegunAgain(steps, i, k, task)
    requires OfficeInv(states[i], policy)
             && (task in states[i].tasks ==> Overtaken(states[i].tables, states[i].tasks[task]))
    ensures !Commits(states, steps, k, task)
  {
    var p := (s: Office) => OfficeInv(s, policy) && (task in s.tasks ==> Overtaken(s.tables, s.tasks[task]));
    forall s, step | p(s) && Enabled(s, step) && !Begins(step, task) ensures p(Apply(s, step, policy)) {
      StepKeepsOffice(s, step, policy);
      StepKeepsOvertaken(s, step, task, policy);
    }
    StretchKeeps(p, states, steps, i, k, task, policy);
    if Commits(states, steps, k, task) {
      OvertakenFails(states[k].tables, states[k].tasks[task], policy);
    }
  }

  /** First committer wins, in any run: of two tasks that have read the same version of a candidate or of an offer,
      however far each has got, at most one ever commits on that reading. Once `winner` has committed, `loser` does
      not commit until it is begun again, whatever it reads in the meantime. */
  lemma FirstCommitterWins(states: seq<Office>, steps: seq<TaskStep>, m: nat, i: nat, k: nat, winner: TaskId,
                           loser: TaskId, policy: ApprovalPolicy)
    requires IsRun(states, steps, policy) && OfficeInv(states[0], policy) && m <= i < k < |steps|
    requires winner in states[m].tasks && loser in states[m].tasks
    requires Rivals(states[m].tasks[winner], states[m].tasks[loser])
    requires NotBegunAgain(steps, m, i, winner) && NotBegunAgain(steps, m, k, loser)
    requires Commits(states, steps, i, winner)
    ensures !Commits(states, steps, k, loser)
  {
    OfficeAt(states, steps, i, policy);
    OfficeAt(states, steps, i + 1, policy);
    assert Next(policy)(states[i], steps[i], states[i + 1]);
    if loser in states[i + 1].tasks {
      StepKeepsReads(states[i], steps[i], loser, policy);
      ReadsAt(states, steps, m, i, winner, policy);
      ReadsAt(states, steps, m, i, loser, policy);
      var p, q := states[i].tasks[winner], states[i].tasks[loser];
      RivalsStay(states[m].tasks[winner], states[m].tasks[loser], p, q);
      CommitOvertakes(states[i].tables, p, q, policy);
    }
    OvertakenNeverCommits(states, steps, i + 1, k, loser, policy);
  }
}
