/** The whole notification path as one system: handlers, publishers and delivery workers over one store. */
module EndToEnd {
  import opened Prelude
  import opened CandidateWorkflow
  import opened OfferApproval
  import opened Hiring
  import opened HiringInvariants
  import opened HiringHistory
  import Runs
  import opened Outbox
  import I = Interleaving
  import L = Leases

  type PublisherId = nat

  /** A publishing transaction: the events it selected, and its existence checks so far. */
  datatype Publisher = Publisher(seen: set<EventId>, toAdd: set<EventId>, found: set<EventId>)

  datatype State = State(
    office: I.Office,
    published: set<EventId>,
    publishers: map<PublisherId, Publisher>,
    notifications: L.State)

  datatype Step =
    | Desk(step: I.TaskStep)
    | BeginPublish(p: PublisherId)
    | CheckEvent(p: PublisherId, e: EventId)
    | CommitPublish(p: PublisherId, batch: L.Rows)
    | AbortPublish(p: PublisherId)
    | Worker(work: L.Step)

  function Initial(): State {
    State(I.Office(NoTables(), map[]), {}, map[], L.Empty())
  }

  ghost predicate Enabled(s: State, step: Step) {
    match step
    case Desk(task) => I.Enabled(s.office, task)
    case BeginPublish(p) => p !in s.publishers
    case CheckEvent(p, e) =>
      && p in s.publishers
      && e in s.publishers[p].seen - s.publishers[p].toAdd - s.publishers[p].found
    case CommitPublish(p, batch) =>
      && p in s.publishers
      && s.publishers[p].seen == s.publishers[p].toAdd + s.publishers[p].found
      && IsBatch(batch, s.office.tables.outbox)
      && Delivering(batch) == s.publishers[p].toAdd
      && batch.Keys !! s.notifications.rows.Keys
    case AbortPublish(_) => true
    case Worker(work) => !work.Insert? && L.Enabled(s.notifications, work)
  }

  /** A publisher's commit fails as a whole when some event it wants to materialise has got a delivery in the
      meantime. */
  function Apply(s: State, step: Step, policy: ApprovalPolicy, max: int): State
    requires Enabled(s, step)
  {
    match step
    case Desk(task) => s.(office := I.Apply(s.office, task, policy))
    case BeginPublish(p) =>
      s.(publishers := s.publishers[p := Publisher(PendingEvents(|s.office.tables.outbox|, s.published), {}, {})])
    case CheckEvent(p, e) =>
      var q := s.publishers[p];
      s.(publishers := s.publishers[p :=
        if e in Delivering(s.notifications.rows) then q.(found := q.found + {e}) else q.(toAdd := q.toAdd + {e})])
    case CommitPublish(p, batch) =>
      if Delivering(s.notifications.rows) !! Delivering(batch) then
        s.(published := s.published + s.publishers[p].seen,
           publishers := s.publishers - {p},
           notifications := L.Apply(s.notifications, L.Insert(batch), max))
      else s.(publishers := s.publishers - {p})
    case AbortPublish(p) => s.(publishers := s.publishers - {p})
    case Worker(work) => s.(notifications := L.Apply(s.notifications, work, max))
  }

  ghost function NextStep(policy: ApprovalPolicy, max: int): (State, Step, State) -> bool {
    (s: State, step: Step, t: State) => Enabled(s, step) && t == Apply(s, step, policy, max)
  }

  /** Some run of the whole system leads from one state to the other. */
  ghost predicate SystemLeads(from: State, to: State, policy: ApprovalPolicy, max: int) {
    Runs.Connects(NextStep(policy, max), from, to)
  }

  ghost predicate Reachable(s: State, policy: ApprovalPolicy, max: int) {
    SystemLeads(Initial(), s, policy, max)
  }

  // ---------------------------------------------------------------------------------------------------------------
  // Deliveries against events

  /** Deliveries are in bijection with the published events, and each is addressed to the actor of its event. */
  ghost predicate Materialised(outbox: seq<Event>, published: set<EventId>, rows: L.Rows) {
    && Injective(rows)
    && Delivering(rows) == published
    && (forall e | e in published :: e < |outbox|)
    && (forall r | r in rows :: rows[r].eventId < |outbox| && rows[r].recipient == outbox[rows[r].eventId].actor)
  }

  ghost predicate PublisherOk(s: State, q: Publisher) {
    && (forall e | e in q.seen :: e < |s.office.tables.outbox|)
    && q.toAdd <= q.seen
    && q.found <= q.seen
    && q.found <= s.published
  }

  ghost predicate SystemInv(s: State, policy: ApprovalPolicy, max: int) {
    && I.OfficeInv(s.office, policy)
    && L.Inv(s.notifications, max)
    && Materialised(s.office.tables.outbox, s.published, s.notifications.rows)
    && forall p | p in s.publishers :: PublisherOk(s, s.publishers[p])
  }

  /** The workers leave the event and the recipient of every row alone. */
  lemma WorkKeepsEvents(n: L.State, work: L.Step, max: int)
    requires !work.Insert?
    ensures L.Apply(n, work, max).rows.Keys == n.rows.Keys
    ensures forall r | r in n.rows ::
              && L.Apply(n, work, max).rows[r].eventId == n.rows[r].eventId
              && L.Apply(n, work, max).rows[r].recipient == n.rows[r].recipient
  {
  }

  lemma SameEvents(outbox: seq<Event>, published: set<EventId>, rows: L.Rows, rows': L.Rows)
    requires Materialised(outbox, published, rows) && rows'.Keys == rows.Keys
    requires forall r | r in rows :: rows'[r].eventId == rows[r].eventId && rows'[r].recipient == rows[r].recipient
    ensures Materialised(outbox, published, rows')
  {
    forall e | e in Delivering(rows) ensures e in Delivering(rows') {
      var r :| r in rows && rows[r].eventId == e;
      assert rows'[r].eventId == e;
    }
  }

  lemma DeliveringUnion(rows: L.Rows, batch: L.Rows)
    requires rows.Keys !! batch.Keys
    ensures Delivering(rows + batch) == Delivering(rows) + Delivering(batch)
    ensures Injective(rows) && Injective(batch) && Delivering(rows) !! Delivering(batch) ==> Injective(rows + batch)
  {
    forall e | e in Delivering(rows) + Delivering(batch) ensures e in Delivering(rows + batch) {
      if e in Delivering(rows) {
        var r :| r in rows && rows[r].eventId == e;
        assert (rows + batch)[r].eventId == e;
      } else {
        var r :| r in batch && batch[r].eventId == e;
        assert (rows + batch)[r].eventId == e;
      }
    }
    forall r | r in rows ensures rows[r].eventId in Delivering(rows) {
    }
    forall r | r in batch ensures batch[r].eventId in Delivering(batch) {
    }
  }

  lemma CommitKeepsMaterialised(outbox: seq<Event>, published: set<EventId>, rows: L.Rows, batch: L.Rows, q: Publisher)
    requires Materialised(outbox, published, rows) && IsBatch(batch, outbox) && rows.Keys !! batch.Keys
    requires Delivering(batch) == q.toAdd && q.seen == q.toAdd + q.found && q.found <= published
    requires Delivering(rows) !! Delivering(batch)
    ensures Materialised(outbox, published + q.seen, rows + batch)
  {
    DeliveringUnion(rows, batch);
    forall e | e in q.toAdd ensures e < |outbox| {
      var r :| r in batch && batch[r].eventId == e;
    }
  }

  lemma OutboxGrows(t: Tables, cmd: Command, policy: ApprovalPolicy)
    requires Handle(t, cmd, policy).Success?
    ensures |t.outbox| <= |Handle(t, cmd, policy).value.outbox|
    ensures Handle(t, cmd, policy).value.outbox[..|t.outbox|] == t.outbox
  {
  }

  lemma DeskKeepsOutbox(s: I.Office, task: I.TaskStep, policy: ApprovalPolicy)
    requires I.OfficeInv(s, policy) && I.Enabled(s, task)
    ensures |s.tables.outbox| <= |I.Apply(s, task, policy).tables.outbox|
    ensures I.Apply(s, task, policy).tables.outbox[..|s.tables.outbox|] == s.tables.outbox
  {
    if task.CommitTask? && Commit(s.tables, s.tasks[task.task]).Success? {
      I.CommitIsHandle(s.tables, s.tasks[task.task], policy);
      OutboxGrows(s.tables, s.tasks[task.task].cmd, policy);
    }
  }

  lemma LongerOutbox(outbox: seq<Event>, outbox': seq<Event>, published: set<EventId>, rows: L.Rows)
    requires Materialised(outbox, published, rows) && |outbox| <= |outbox'| && outbox'[..|outbox|] == outbox
    ensures Materialised(outbox', published, rows)
  {
    forall r | r in rows ensures outbox'[rows[r].eventId] == outbox[rows[r].eventId] {
      assert outbox'[..|outbox|][rows[r].eventId] == outbox'[rows[r].eventId];
    }
  }

  // ---------------------------------------------------------------------------------------------------------------
  // Every step keeps the system's invariant

  lemma DeskKeeps(s: State, task: I.TaskStep, policy: ApprovalPolicy, max: int)
    requires SystemInv(s, policy, max) && Enabled(s, Desk(task))
    ensures SystemInv(Apply(s, Desk(task), policy, max), policy, max)
  {
    var s' := Apply(s, Desk(task), policy, max);
    I.StepKeepsOffice(s.office, task, policy);
    DeskKeepsOutbox(s.office, task, policy);
    LongerOutbox(s.office.tables.outbox, s'.office.tables.outbox, s.published, s.notifications.rows);
    forall p | p in s'.publishers ensures PublisherOk(s', s'.publishers[p]) {
      assert PublisherOk(s, s.publishers[p]);
    }
  }

  lemma CheckKeeps(s: State, p: PublisherId, e: EventId, policy: ApprovalPolicy, max: int)
    requires SystemInv(s, policy, max) && Enabled(s, CheckEvent(p, e))
    ensures SystemInv(Apply(s, CheckEvent(p, e), policy, max), policy, max)
  {
    var s' := Apply(s, CheckEvent(p, e), policy, max);
    assert PublisherOk(s, s.publishers[p]);
    forall q | q in s'.publishers ensures PublisherOk(s', s'.publishers[q]) {
      if q != p {
        assert PublisherOk(s, s.publishers[q]);
      }
    }
  }

  lemma CommitKeeps(s: State, p: PublisherId, batch: L.Rows, policy: ApprovalPolicy, max: int)
    requires SystemInv(s, policy, max) && Enabled(s, CommitPublish(p, batch))
    ensures SystemInv(Apply(s, CommitPublish(p, batch), policy, max), policy, max)
  {
    var s' := Apply(s, CommitPublish(p, batch), policy, max);
    assert PublisherOk(s, s.publishers[p]);
    if Delivering(s.notifications.rows) !! Delivering(batch) {
      L.StepKeepsInv(s.notifications, L.Insert(batch), max);
      CommitKeepsMaterialised(s.office.tables.outbox, s.published, s.notifications.rows, batch, s.publishers[p]);
    }
    forall q | q in s'.publishers ensures PublisherOk(s', s'.publishers[q]) {
      assert PublisherOk(s, s.publishers[q]);
    }
  }

  lemma WorkKeeps(s: State, work: L.Step, policy: ApprovalPolicy, max: int)
    requires SystemInv(s, policy, max) && Enabled(s, Worker(work))
    ensures SystemInv(Apply(s, Worker(work), policy, max), policy, max)
  {
    var s' := Apply(s, Worker(work), policy, max);
    L.StepKeepsInv(s.notifications, work, max);
    WorkKeepsEvents(s.notifications, work, max);
    SameEvents(s.office.tables.outbox, s.published, s.notifications.rows, s'.notifications.rows);
    forall q | q in s'.publishers ensures PublisherOk(s', s'.publishers[q]) {
      assert PublisherOk(s, s.publishers[q]);
    }
  }

  lemma PublisherSetKeeps(s: State, step: Step, policy: ApprovalPolicy, max: int)
    requires SystemInv(s, policy, max) && Enabled(s, step) && (step.BeginPublish? || step.AbortPublish?)
    ensures SystemInv(Apply(s, step, policy, max), policy, max)
  {
    var s' := Apply(s, step, policy, max);
    forall q | q in s'.publishers ensures PublisherOk(s', s'.publishers[q]) {
      if step.AbortPublish? || q != step.p {
        assert PublisherOk(s, s.publishers[q]);
      }
    }
  }

  lemma {:induction false} StepKeepsSystem(s: State, step: Step, policy: ApprovalPolicy, max: int)
    requires SystemInv(s, policy, max) && Enabled(s, step)
    ensures SystemInv(Apply(s, step, policy, max), policy, max)
  {
    match step
    case Desk(task) => DeskKeeps(s, task, policy, max);
    case BeginPublish(_) => PublisherSetKeeps(s, step, policy, max);
    case CheckEvent(p, e) => CheckKeeps(s, p, e, policy, max);
    case CommitPublish(p, batch) => CommitKeeps(s, p, batch, policy, max);
    case AbortPublish(_) => PublisherSetKeeps(s, step, policy, max);
    case Worker(work) => WorkKeeps(s, work, policy, max);
  }

  lemma InitialInv(policy: ApprovalPolicy, max: int)
    ensures SystemInv(Initial(), policy, max)
  {
    EmptyTablesInv();
    L.EmptyInv(max);
    assert Delivering(map[]) == {};
  }

  lemma ReachableInv(s: State, policy: ApprovalPolicy, max: int)
    requires Reachable(s, policy, max)
    ensures SystemInv(s, policy, max)
  {
    var p := (s: State) => SystemInv(s, policy, max);
    InitialInv(policy, max);
    forall s: State, step, t | p(s) && NextStep(policy, max)(s, step, t) ensures p(t) {
      StepKeepsSystem(s, step, policy, max);
    }
    Runs.ConnectsKeeps(NextStep(policy, max), p, Initial(), s);
  }

  lemma DeskKeepsSerial(from: Tables, s: State, task: I.TaskStep, policy: ApprovalPolicy, max: int)
    requires I.OfficeInv(s.office, policy) && Enabled(s, Desk(task)) && Evolves(from, s.office.tables, policy)
    ensures Evolves(from, Apply(s, Desk(task), policy, max).office.tables, policy)
  {
    var cmds :| Leads(from, cmds, s.office.tables, policy);
    I.StepIsSerial(from, cmds, s.office, task, policy);
  }

  lemma StepKeepsParts(from: State, s: State, step: Step, policy: ApprovalPolicy, max: int)
    requires I.OfficeInv(s.office, policy) && Enabled(s, step)
    requires Evolves(from.office.tables, s.office.tables, policy) && L.Leads(from.notifications, s.notifications, max)
    ensures Evolves(from.office.tables, Apply(s, step, policy, max).office.tables, policy)
    ensures L.Leads(from.notifications, Apply(s, step, policy, max).notifications, max)
  {
    match step
    case Desk(task) => DeskKeepsSerial(from.office.tables, s, task, policy, max);
    case CommitPublish(p, batch) =>
      if Delivering(s.notifications.rows) !! Delivering(batch) {
        L.LeadsOneMore(from.notifications, s.notifications, L.Insert(batch), max);
      }
    case Worker(work) => L.LeadsOneMore(from.notifications, s.notifications, work, max);
    case _ =>
  }

  lemma InvPartsEvolve(s: State, t: State, policy: ApprovalPolicy, max: int)
    requires SystemInv(s, policy, max) && SystemLeads(s, t, policy, max)
    ensures Evolves(s.office.tables, t.office.tables, policy) && L.Leads(s.notifications, t.notifications, max)
  {
    var p := (u: State) =>
      && SystemInv(u, policy, max)
      && Evolves(s.office.tables, u.office.tables, policy)
      && L.Leads(s.notifications, u.notifications, max);
    LeadsSelf(s.office.tables, policy);
    L.LeadsSelf(s.notifications, max);
    forall u: State, step, v | p(u) && NextStep(policy, max)(u, step, v) ensures p(v) {
      StepKeepsSystem(u, step, policy, max);
      StepKeepsParts(s, u, step, policy, max);
    }
    Runs.ConnectsKeeps(NextStep(policy, max), p, s, t);
  }

  /** Between any two states of a run of the whole system, handlers interleaved, the tables change as by some
      commands run one after another, and the deliveries as by some run of the lease protocol. */
  lemma PartsEvolve(s: State, t: State, policy: ApprovalPolicy, max: int)
    requires Reachable(s, policy, max) && SystemLeads(s, t, policy, max)
    ensures Evolves(s.office.tables, t.office.tables, policy) && L.Leads(s.notifications, t.notifications, max)
  {
    ReachableInv(s, policy, max);
    InvPartsEvolve(s, t, policy, max);
  }

  /** In every reachable state of the whole system the tables are those of some serial run of commands and the
      deliveries those of some run of the lease protocol. */
  lemma PartsAreReachable(s: State, policy: ApprovalPolicy, max: int)
    requires Reachable(s, policy, max)
    ensures Reached(s.office.tables, policy) && L.Reachable(s.notifications, max)
  {
    InitialInv(policy, max);
    InvPartsEvolve(Initial(), s, policy, max);
  }

  /** Approved and rejected offers are immutable however reads and commits interleave. */
  lemma FinishedOffersStayInSystem(s: State, t: State, policy: ApprovalPolicy, max: int, id: Id)
    requires Reachable(s, policy, max) && SystemLeads(s, t, policy, max)
    requires id in s.office.tables.offers && Finished(s.office.tables.offers[id])
    ensures id in t.office.tables.offers && t.office.tables.offers[id] == s.office.tables.offers[id]
  {
    PartsAreReachable(s, policy, max);
    PartsEvolve(s, t, policy, max);
    var cmds :| Leads(s.office.tables, cmds, t.office.tables, policy);
    FinishedOffersStay(s.office.tables, cmds, t.office.tables, policy, id);
  }

  /** So are hired, rejected and withdrawn candidates, terminal time included. */
  lemma LeavesStayInSystem(s: State, t: State, policy: ApprovalPolicy, max: int, id: Id)
    requires Reachable(s, policy, max) && SystemLeads(s, t, policy, max)
    requires id in s.office.tables.candidates && AllowedTransitions(s.office.tables.candidates[id].record.stage) == {}
    ensures id in t.office.tables.candidates && t.office.tables.candidates[id] == s.office.tables.candidates[id]
  {
    PartsAreReachable(s, policy, max);
    PartsEvolve(s, t, policy, max);
    var cmds :| Leads(s.office.tables, cmds, t.office.tables, policy);
    LeavesStay(s.office.tables, cmds, t.office.tables, policy, id);
  }

  /** So are delivered and dead-lettered rows. */
  lemma FinalRowsStayInSystem(s: State, t: State, policy: ApprovalPolicy, max: int, id: L.RowId)
    requires Reachable(s, policy, max) && SystemLeads(s, t, policy, max)
    requires id in s.notifications.rows && L.Final(s.notifications.rows[id])
    ensures id in t.notifications.rows && t.notifications.rows[id] == s.notifications.rows[id]
  {
    PartsEvolve(s, t, policy, max);
    L.FinalRowsStay(s.notifications, t.notifications, max, id);
  }

  // ---------------------------------------------------------------------------------------------------------------
  // The conservation law

  lemma {:induction false} PendingAndPublished(count: nat, published: set<EventId>)
    requires forall e | e in published :: e < count
    ensures |PendingEvents(count, published)| + |published| == count
    decreases count
  {
    if count == 0 {
      assert published == {};
      assert PendingEvents(0, published) == {};
    } else {
      PendingAndPublished(count - 1, published - {count - 1});
      if count - 1 in published {
        assert PendingEvents(count, published) == PendingEvents(count - 1, published - {count - 1});
      } else {
        assert published - {count - 1} == published;
        assert PendingEvents(count, published) == PendingEvents(count - 1, published) + {count - 1};
      }
    }
  }

  /** In every reachable state, whatever handlers, publishers and workers have interleaved, aborted or died: the
      offers have been through as many decisions as there are decision rows, as there are outbox events, as there are
      deliveries and pending events together. */
  lemma Conservation(s: State, policy: ApprovalPolicy, max: int)
    requires Reachable(s, policy, max)
    ensures
      var t := s.office.tables;
      && Total(t.offers.Keys, Decisions(t.offers)) == |t.decisions|
      && |t.decisions| == |t.outbox|
      && |t.outbox| == |s.notifications.rows| + |PendingEvents(|t.outbox|, s.published)|
  {
    ReachableInv(s, policy, max);
    InjectiveSize(s.notifications.rows);
    PendingAndPublished(|s.office.tables.outbox|, s.published);
  }

  /** Every delivery stems from one decision and goes to the approver who took it; two deliveries never share a
      decision; and a decision has its delivery exactly when its event is published. */
  lemma DeliveriesMatchDecisions(s: State, policy: ApprovalPolicy, max: int)
    requires Reachable(s, policy, max)
    ensures
      var t, rows := s.office.tables, s.notifications.rows;
      && (forall r | r in rows ::
            && rows[r].eventId < |t.decisions|
            && rows[r].recipient == t.decisions[rows[r].eventId].actor
            && t.decisions[rows[r].eventId].offer in t.offers)
      && (forall r, q | r in rows && q in rows && rows[r].eventId == rows[q].eventId :: r == q)
      && (forall k | 0 <= k < |t.decisions| :: k in s.published <==> exists r | r in rows :: rows[r].eventId == k)
  {
    ReachableInv(s, policy, max);
    var t, rows := s.office.tables, s.notifications.rows;
    forall k | 0 <= k < |t.decisions| ensures k in s.published <==> exists r | r in rows :: rows[r].eventId == k {
      assert k in Delivering(rows) <==> exists r | r in rows :: rows[r].eventId == k;
    }
  }
}
