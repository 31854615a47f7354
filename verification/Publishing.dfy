/** The publisher's method against the whole system: whatever handlers, workers and other publishers do between its
    statements, its transaction is a run of the system with the same outcome. */
module Publishing {
  import opened Prelude
  import opened Hiring
  import opened Outbox
  import opened EndToEnd
  import Runs
  import L = Leases
  import OfferApproval

  predicate NotBy(step: Step, p: PublisherId) {
    match step
    case BeginPublish(q) => q != p
    case CheckEvent(q, _) => q != p
    case CommitPublish(q, _) => q != p
    case AbortPublish(q) => q != p
    case _ => true
  }

  ghost function OthersStep(p: PublisherId, policy: OfferApproval.ApprovalPolicy, max: int)
    : (State, Step, State) -> bool
  {
    (s: State, step: Step, t: State) => NotBy(step, p) && NextStep(policy, max)(s, step, t)
  }

  /** Some run without a step of `p` leads from one state to the other. */
  ghost predicate OthersLead(from: State, to: State, p: PublisherId, policy: OfferApproval.ApprovalPolicy, max: int) {
    Runs.Connects(OthersStep(p, policy, max), from, to)
  }

  /** What a transaction that is under way can rely on from its beginning in `start` on. */
  ghost predicate UnderWay(start: State, s: State, p: PublisherId, q: Publisher, policy: OfferApproval.ApprovalPolicy,
                           max: int) {
    && Reachable(s, policy, max) && SystemLeads(start, s, policy, max)
    && p in s.publishers && s.publishers[p] == q
    && start.published <= s.published
    && start.office.tables.outbox <= s.office.tables.outbox
  }

  lemma StepGrows(s: State, step: Step, policy: OfferApproval.ApprovalPolicy, max: int)
    requires Reachable(s, policy, max) && Enabled(s, step)
    ensures s.published <= Apply(s, step, policy, max).published
    ensures s.office.tables.outbox <= Apply(s, step, policy, max).office.tables.outbox
  {
    if step.Desk? {
      ReachableInv(s, policy, max);
      DeskKeepsOutbox(s.office, step.step, policy);
    }
  }

  lemma SystemLeadsOneMore(start: State, s: State, step: Step, policy: OfferApproval.ApprovalPolicy, max: int)
    requires SystemLeads(start, s, policy, max) && Enabled(s, step)
    ensures SystemLeads(start, Apply(s, step, policy, max), policy, max)
  {
    Runs.ConnectsOneMore(NextStep(policy, max), start, s, step, Apply(s, step, policy, max));
  }

  lemma OthersLeavePublisher(s: State, step: Step, p: PublisherId, policy: OfferApproval.ApprovalPolicy, max: int)
    requires p in s.publishers && NotBy(step, p) && Enabled(s, step)
    ensures p in Apply(s, step, policy, max).publishers
    ensures Apply(s, step, policy, max).publishers[p] == s.publishers[p]
  {
  }

  lemma OthersStepKeeps(start: State, s: State, step: Step, p: PublisherId, q: Publisher,
                        policy: OfferApproval.ApprovalPolicy, max: int)
    requires UnderWay(start, s, p, q, policy, max) && NotBy(step, p) && Enabled(s, step)
    ensures UnderWay(start, Apply(s, step, policy, max), p, q, policy, max)
  {
    SystemLeadsOneMore(Initial(), s, step, policy, max);
    SystemLeadsOneMore(start, s, step, policy, max);
    StepGrows(s, step, policy, max);
    OthersLeavePublisher(s, step, p, policy, max);
  }

  lemma OthersKeep(start: State, from: State, to: State, p: PublisherId, q: Publisher,
                   policy: OfferApproval.ApprovalPolicy, max: int)
    requires UnderWay(start, from, p, q, policy, max) && OthersLead(from, to, p, policy, max)
    ensures UnderWay(start, to, p, q, policy, max)
  {
    var i := (s: State) => UnderWay(start, s, p, q, policy, max);
    forall s, step, t | i(s) && OthersStep(p, policy, max)(s, step, t) ensures i(t) {
      OthersStepKeeps(start, s, step, p, q, policy, max);
    }
    Runs.ConnectsKeeps(OthersStep(p, policy, max), i, from, to);
  }

  // ---------------------------------------------------------------------------------------------------------------
  // The transaction, statement by statement

  ghost function Did(s: State, step: Step, policy: OfferApproval.ApprovalPolicy, max: int): State {
    if Enabled(s, step) then Apply(s, step, policy, max) else s
  }

  /** `world(k, _)` is what others do before the k-th statement that follows the select. */
  ghost predicate OnlyOthers(world: (nat, State) -> State, p: PublisherId, policy: OfferApproval.ApprovalPolicy,
                             max: int) {
    forall k, s :: OthersLead(s, world(k, s), p, policy, max)
  }

  /** The state that the k-th statement after the select meets. */
  ghost function Met(s: State, p: PublisherId, events: seq<EventId>, world: (nat, State) -> State, k: nat,
                     policy: OfferApproval.ApprovalPolicy, max: int): State
    requires k <= |events|
  {
    world(k, if k == 0 then Did(s, BeginPublish(p), policy, max)
             else Did(Met(s, p, events, world, k - 1, policy, max), CheckEvent(p, events[k - 1]), policy, max))
  }

  ghost function TableViews(s: State, p: PublisherId, events: seq<EventId>, world: (nat, State) -> State, n: nat,
                            policy: OfferApproval.ApprovalPolicy, max: int): (views: seq<L.Rows>)
    requires n <= |events| + 1
    ensures |views| == n
    ensures forall k | 0 <= k < n :: views[k] == Met(s, p, events, world, k, policy, max).notifications.rows
  {
    if n == 0 then []
    else
      var met := Met(s, p, events, world, n - 1, policy, max);
      TableViews(s, p, events, world, n - 1, policy, max) + [met.notifications.rows]
  }

  /** After k checks the system's publisher has sorted the first k events as the method has. */
  ghost predicate Sorted(q: Publisher, events: seq<EventId>, views: seq<L.Rows>, k: nat)
    requires k <= |events| && k <= |views|
  {
    && q.seen == AsSet(events) && q.toAdd == Wanted(events, views, k)
    && q.toAdd + q.found == AsSet(events[..k])
  }

  /** The transaction is under way and has made its first k checks. */
  ghost predicate Ready(start: State, s: State, p: PublisherId, events: seq<EventId>, views: seq<L.Rows>, k: nat,
                        policy: OfferApproval.ApprovalPolicy, max: int)
    requires k <= |events| && k <= |views|
  {
    && p in s.publishers && Sorted(s.publishers[p], events, views, k)
    && UnderWay(start, s, p, s.publishers[p], policy, max)
  }

  lemma BeginSorts(s: State, p: PublisherId, events: seq<EventId>, views: seq<L.Rows>,
                   policy: OfferApproval.ApprovalPolicy, max: int)
    requires Reachable(s, policy, max) && p !in s.publishers
    requires AsSet(events) == PendingEvents(|s.office.tables.outbox|, s.published)
    ensures Ready(s, Did(s, BeginPublish(p), policy, max), p, events, views, 0, policy, max)
  {
    SystemLeadsOneMore(Initial(), s, BeginPublish(p), policy, max);
    Runs.ConnectsSelf(NextStep(policy, max), s);
    SystemLeadsOneMore(s, s, BeginPublish(p), policy, max);
    assert events[..0] == [];
  }

  lemma CheckIsEnabled(s: State, p: PublisherId, events: seq<EventId>, views: seq<L.Rows>, k: nat)
    requires k < |events| && k < |views| && Distinct(events) && p in s.publishers
    requires Sorted(s.publishers[p], events, views, k)
    ensures Enabled(s, CheckEvent(p, events[k]))
  {
    assert events[k] in AsSet(events);
    assert events[k] !in AsSet(events[..k]);
  }

  lemma CheckSortsOne(s: State, p: PublisherId, events: seq<EventId>, views: seq<L.Rows>, k: nat,
                      policy: OfferApproval.ApprovalPolicy, max: int)
    requires k < |events| && k < |views| && Distinct(events) && p in s.publishers
    requires Sorted(s.publishers[p], events, views, k) && views[k] == s.notifications.rows
    requires Enabled(s, CheckEvent(p, events[k]))
    ensures var t := Apply(s, CheckEvent(p, events[k]), policy, max);
            p in t.publishers && Sorted(t.publishers[p], events, views, k + 1)
  {
    PrefixGrows(events, k);
  }

  lemma CheckSorts(start: State, s: State, p: PublisherId, events: seq<EventId>, views: seq<L.Rows>, k: nat,
                   policy: OfferApproval.ApprovalPolicy, max: int) returns (t: State)
    requires 1 <= k <= |events| && k <= |views| && Distinct(events)
    requires Ready(start, s, p, events, views, k - 1, policy, max) && views[k - 1] == s.notifications.rows
    ensures t == Did(s, CheckEvent(p, events[k - 1]), policy, max) && Ready(start, t, p, events, views, k, policy, max)
  {
    var step := CheckEvent(p, events[k - 1]);
    CheckIsEnabled(s, p, events, views, k - 1);
    CheckSortsOne(s, p, events, views, k - 1, policy, max);
    SystemLeadsOneMore(Initial(), s, step, policy, max);
    SystemLeadsOneMore(start, s, step, policy, max);
    t := Apply(s, step, policy, max);
  }

  /** What others do between two statements leaves a transaction ready. */
  lemma WorldKeeps(start: State, s: State, p: PublisherId, events: seq<EventId>, world: (nat, State) -> State, k: nat,
                   views: seq<L.Rows>, policy: OfferApproval.ApprovalPolicy, max: int)
    requires k <= |events| && k <= |views| && OnlyOthers(world, p, policy, max)
    requires Ready(start, s, p, events, views, k, policy, max)
    ensures Ready(start, world(k, s), p, events, views, k, policy, max)
  {
    OthersKeep(start, s, world(k, s), p, s.publishers[p], policy, max);
  }

  lemma FirstIsReady(s: State, p: PublisherId, events: seq<EventId>, world: (nat, State) -> State,
                     views: seq<L.Rows>, policy: OfferApproval.ApprovalPolicy, max: int)
    requires Reachable(s, policy, max) && p !in s.publishers && OnlyOthers(world, p, policy, max)
    requires AsSet(events) == PendingEvents(|s.office.tables.outbox|, s.published)
    ensures Ready(s, world(0, Did(s, BeginPublish(p), policy, max)), p, events, views, 0, policy, max)
  {
    BeginSorts(s, p, events, views, policy, max);
    WorldKeeps(s, Did(s, BeginPublish(p), policy, max), p, events, world, 0, views, policy, max);
  }

  lemma NextIsReady(start: State, s: State, p: PublisherId, events: seq<EventId>, world: (nat, State) -> State, k: nat,
                    views: seq<L.Rows>, policy: OfferApproval.ApprovalPolicy, max: int)
    requires 1 <= k <= |events| && k <= |views| && Distinct(events) && OnlyOthers(world, p, policy, max)
    requires Ready(start, s, p, events, views, k - 1, policy, max) && views[k - 1] == s.notifications.rows
    ensures Ready(start, world(k, Did(s, CheckEvent(p, events[k - 1]), policy, max)), p, events, views, k, policy, max)
  {
    var done := CheckSorts(start, s, p, events, views, k, policy, max);
    WorldKeeps(start, done, p, events, world, k, views, policy, max);
  }

  /** The k-th check sees the table of the state that it meets. */
  ghost predicate ViewsMet(views: seq<L.Rows>, s: State, p: PublisherId, events: seq<EventId>,
                           world: (nat, State) -> State, k: nat, policy: OfferApproval.ApprovalPolicy, max: int)
    requires k <= |events| && k <= |views|
  {
    k == 0
    || (ViewsMet(views, s, p, events, world, k - 1, policy, max)
        && views[k - 1] == Met(s, p, events, world, k - 1, policy, max).notifications.rows)
  }

  lemma {:induction false} TableViewsAreMet(views: seq<L.Rows>, s: State, p: PublisherId, events: seq<EventId>,
                                            world: (nat, State) -> State, k: nat,
                                            policy: OfferApproval.ApprovalPolicy, max: int)
    requires k <= |events| && views == TableViews(s, p, events, world, |events| + 1, policy, max)
    ensures ViewsMet(views, s, p, events, world, k, policy, max)
    decreases k
  {
    if k > 0 {
      TableViewsAreMet(views, s, p, events, world, k - 1, policy, max);
    }
  }

  lemma {:induction false} MetIsReady(s: State, p: PublisherId, events: seq<EventId>, world: (nat, State) -> State,
                                      k: nat, views: seq<L.Rows>, policy: OfferApproval.ApprovalPolicy, max: int)
    requires Reachable(s, policy, max) && p !in s.publishers && OnlyOthers(world, p, policy, max)
    requires Distinct(events) && AsSet(events) == PendingEvents(|s.office.tables.outbox|, s.published)
    requires k <= |events| && k <= |views|
    requires ViewsMet(views, s, p, events, world, k, policy, max)
    ensures Ready(s, Met(s, p, events, world, k, policy, max), p, events, views, k, policy, max)
    decreases k
  {
    if k == 0 {
      FirstIsReady(s, p, events, world, views, policy, max);
    } else {
      MetIsReady(s, p, events, world, k - 1, views, policy, max);
      NextIsReady(s, Met(s, p, events, world, k - 1, policy, max), p, events, world, k, views, policy, max);
    }
  }

  lemma BatchStaysBatch(batch: L.Rows, outbox: seq<Event>, longer: seq<Event>)
    requires IsBatch(batch, outbox) && outbox <= longer
    ensures IsBatch(batch, longer)
  {
  }

  lemma CommitIsEnabled(s: State, p: PublisherId, events: seq<EventId>, views: seq<L.Rows>, batch: L.Rows,
                        outbox: seq<Event>)
    requires p in s.publishers && |views| == |events| + 1 && Sorted(s.publishers[p], events, views, |events|)
    requires IsBatch(batch, outbox) && Delivering(batch) == Wanted(events, views, |events|)
    requires outbox <= s.office.tables.outbox && batch.Keys !! s.notifications.rows.Keys
    ensures Enabled(s, CommitPublish(p, batch))
  {
    assert events[..|events|] == events;
    BatchStaysBatch(batch, outbox, s.office.tables.outbox);
  }

  lemma CommitOutcome(s: State, p: PublisherId, events: seq<EventId>, views: seq<L.Rows>, batch: L.Rows,
                      outbox: seq<Event>, published: set<EventId>, policy: OfferApproval.ApprovalPolicy, max: int)
    returns (result: Option<nat>)
    requires Enabled(s, CommitPublish(p, batch)) && s.publishers[p].seen == AsSet(events)
    requires |views| == |events| + 1 && views[|events|] == s.notifications.rows && published <= s.published
    requires IsBatch(batch, outbox) && Delivering(batch) == Wanted(events, views, |events|)
    ensures var t := Apply(s, CommitPublish(p, batch), policy, max);
            p !in t.publishers && PublishOutcome(outbox, events, views, s.published, batch, published,
                                                 result, t.published, t.notifications.rows)
  {
    result := if Delivering(s.notifications.rows) !! Delivering(batch) then Some(|Delivering(batch)|) else None;
  }

  /** The method's transaction is a run of the whole system: for everything others may do between its statements, the
      same selection, the same views of the table and the same batch lead to the outcome the method promises. */
  lemma PublishIsSystemRun(s: State, p: PublisherId, events: seq<EventId>, world: (nat, State) -> State, batch: L.Rows,
                           policy: OfferApproval.ApprovalPolicy, max: int)
    returns (t: State, views: seq<L.Rows>, marks: set<EventId>, result: Option<nat>)
    requires Reachable(s, policy, max) && p !in s.publishers && OnlyOthers(world, p, policy, max)
    requires Distinct(events) && AsSet(events) == PendingEvents(|s.office.tables.outbox|, s.published)
    requires var n := |events|;
             var views := TableViews(s, p, events, world, n + 1, policy, max);
             && IsBatch(batch, s.office.tables.outbox) && Delivering(batch) == Wanted(events, views, n)
             && batch.Keys !! views[n].Keys
    ensures views == TableViews(s, p, events, world, |events| + 1, policy, max)
    ensures SystemLeads(s, t, policy, max) && p !in t.publishers
    ensures PublishOutcome(s.office.tables.outbox, events, views, marks, batch, s.published,
                           result, t.published, t.notifications.rows)
  {
    var n := |events|;
    views := TableViews(s, p, events, world, n + 1, policy, max);
    var u := Met(s, p, events, world, n, policy, max);
    TableViewsAreMet(views, s, p, events, world, n, policy, max);
    MetIsReady(s, p, events, world, n, views, policy, max);
    CommitIsEnabled(u, p, events, views, batch, s.office.tables.outbox);
    result := CommitOutcome(u, p, events, views, batch, s.office.tables.outbox, s.published, policy, max);
    SystemLeadsOneMore(s, u, CommitPublish(p, batch), policy, max);
    t := Apply(u, CommitPublish(p, batch), policy, max);
    marks := u.published;
  }
}
